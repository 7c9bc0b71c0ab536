# IceTunnel in Dafny

IceTunnel carries a TCP byte stream over lossy UDP. This project models its
reliable-delivery protocol, its packet format, its event manager, its rate control and
its registry of connections, and proves what they keep in every run.

| file | what it holds |
|---|---|
| Base.dfy | datagrams, stored packets, settings, ordered traversal of a map, sums over stored packets |
| IntPair.dfy | the base-128 integer-pair codec: specification, loops, round trip, foreign encodings |
| Confirmations.dfy | packing and reading of index sets |
| Crc32.dfy, Packet.dfy | CRC-32 as polynomial division, the table, framing, damage |
| Rate.dfy | measures, the speed law, fairness |
| Sender.dfy, Receiver.dfy | the two halves of a connection with their invariants |
| Endpoint.dfy | a connection as a value: what every handler turns it into |
| Invariants.dfy, Preservation.dfy, PreservationUdp.dfy, PreservationStep.dfy | the invariant, and that every handler keeps it |
| Wakeups.dfy | that no handler loses a wake-up |
| Tunnel.dfy | two connections and a network; the invariant of all runs |
| Stream.dfy | which steps move bytes, and which lose some |
| Delivery.dfy, Effects.dfy | what each handler achieves, in the fields of a connection |
| Measured.dfy | the measures against the history of sends |
| Deadlines.dfy | that no event is armed further ahead than its delay |
| Guarantees.dfy | the main results, for all runs |
| Witnesses.dfy | two runs in which the obvious claim fails |
| Connection.dfy | the class `Connection`, with loops and updates in place, proved equal to Endpoint.dfy |
| Links.dfy, Shuffle.dfy, Events.dfy | intrusive lists, the shuffle, the event manager |
| Registry.dfy | the server's connections and listeners |

**How the parts fit.** The functions of Endpoint.dfy say what each handler of
connection.cpp makes of a connection. The class in Connection.dfy does the same work as
the C++ code, loop by loop, and each of its methods ensures that it computes the
corresponding function; the lemmas are about the functions. Straight-line methods such
as `SetWriteEvent` have no row of their own: the rows name the lemmas that say what they
achieve.

A run of the tunnel is any sequence of moves: a handler of one side runs when its event
is due or its socket reports, with any number of bytes given or taken; or any bytes
arrive at one side, any number of times. Bytes that pass the CRC check are the wire form
of a datagram that the other side handed to its socket at some earlier time. That covers
loss, repetition, reordering and damage. History fields (`log`, `tcpIn`, `tcpOut`,
`outbox`, `attempts`, `late`, `got`, `sends`, `floor`, `counted`, `clock`, `reason`, and
`history` of the event manager) record what happened and influence nothing.

**Assumptions.** One incarnation of each endpoint. Bytes that pass the CRC check were
sent by the peer. Both sides use the same settings. Each side numbers fewer than INT_MAX
packets (`Countable`). Time is monotone and is read once per handler. Exactness of
confirmations needs udpSendPacketSize >= 10; their truth does not. `long` times and
`int` sizes do not overflow.

**Where the obvious claim is false.**

- Delivery is a prefix and not an equality: `buildUdpPackets` discards bytes once the
  peer has finished. While UDP is open, bytes are lost if and only if some step read or
  flushed bytes after that (`StreamIsConserved`); `BytesCanBeLost` is a run that does.
  `udpClose` forgets what is still to be sent.
- Successes and failures of a measure can together exceed its size; each alone cannot.
  They do if and only if more was confirmed while it waited to be sent again than is in
  flight (`MeasuresAreSound`, `LateConfirmationIff`); `SumsCanExceedSize` is a run in
  which they do.
- The lower clamp does not keep the rounded interval above zero. It is zero if and only
  if the speed exceeds two datagrams a microsecond (`MeasureSetsSpeed`) or no pause was
  planned (`NoPauseRoundsToZero`); `IntervalCanBeZero` is such a measure. The next change
  of the send buffer then divides by zero at connection.cpp:762.
- `udpClose` does not reset the number of packets to send. It is right afterwards if and
  only if none of the packets was waiting to be sent (`CountAfterClose`).
- Unpacking accepts bytes that packing never writes: leading zero digits, surplus high
  bits, negative numbers (`LeadingZeroIsAccepted`, `SurplusBitsAreLost`,
  `NegativeIsAccepted`). Packing what was unpacked gives the same bytes if and only if
  both numbers have at most five digits, no leading 0x80, and a first of five digits
  below 0x88 (`RepackedIff`).

## Model

| member | source | states |
|---|---|---|
| Guarantees.DeliveredIsPrefix | connection.cpp:179-266 | In every run of two connections, over a network that drops, repeats, reorders or damages datagrams, the bytes one end wrote to TCP are a prefix of the bytes the other end read from TCP. |
| Guarantees.StreamIsConserved | connection.cpp:396-426 | Exactly when bytes are lost: while UDP is open, bytes read from TCP = bytes written at the other end + numbered and not yet written + not yet numbered, if and only if no step of the run read or flushed bytes after the peer's stream had ended. |
| Streams.BuildConserves | connection.cpp:396-426 | `buildUdpPackets` keeps that equation if and only if the peer has not finished or the buffer is empty; what is lost stays lost. |
| Streams.StepFate | connection.cpp:143-177 | A step of any handler loses bytes exactly when it reads or flushes some after the peer has finished. |
| Streams.RunFate | connection.cpp:143-177 | A run that leaves UDP open keeps the equation if and only if none of its moves loses bytes. |
| Witnesses.BytesCanBeLost | connection.cpp:399-400 | A run in which whatever is read after the peer's hello and goodbye packets arrived is neither numbered nor kept. |
| Guarantees.NoMoreDataMeansIt | connection.cpp:741-745 | When `isNoMoreDataWillBeSent` holds, the peer has received everything numbered, and in every continuation at most one more packet is numbered, a closing one. |
| Guarantees.AllDelivered | connection.cpp:207-266 | When the peer has passed on every numbered packet, it wrote everything but what waits to be numbered. |
| Guarantees.NothingIsLost | connection.cpp:580-642 | While UDP is open (or was closed because all is done) each numbered packet is still stored or was received by the peer exactly as numbered, however stale, repeated or reordered the confirmations were. |
| Guarantees.ByeIsLast | connection.cpp:839-869 | A Bye or Disconnect is the last packet a side ever numbers, in every continuation of a run. |
| Guarantees.FinalIsPeerNext | connection.cpp:692-697 | A set final index equals the master index and the number of packets the peer numbered, and the peer's last one is a closing packet. |
| Guarantees.FinalIsForever | connection.cpp:658-697 | Once a final index is set, final index, master index, the received packets and the peer's next index stay what they are in every continuation. |
| Guarantees.HasAllMeansFinished | connection.cpp:692-697 | A receiver holding everything the peer numbered has its master index there, and is finished exactly when the last packet is a closing packet. |
| Guarantees.DoneMeansReceived | connection.cpp:741-756 | A close through `isUdpFinished` implies that the peer received every numbered packet, and knows its final index if the stream ended. |
| Guarantees.GoodbyeIsUnderstood | connection.cpp:534-547 | A side that has nothing more to send after its closing packet says goodbye with the index at which the peer's stream ended, in every continuation; the peer then stops confirming, drops its waiting confirmations and shortens its wait to what the settings say. |
| Guarantees.GivesUpOnlyAfterBudget | connection.cpp:549-578 | No packet is sent more than udpResendCount + 1 times; the no-answer close comes only after that many sends of one packet and at least as long after the first as the peer's initial close wait. |
| Guarantees.MemoryIsBounded | connection.cpp:658-691 | At most 2*udpMaxReceiveBufferSize/udpSendPacketSize + 1 packets are stored at or above the packet in turn; while TCP is open at most 2*udpMaxReceiveBufferSize + udpSendPacketSize bytes are. |
| Guarantees.AcceptsWhatIsWanted | connection.cpp:658-708 | Of what the peer sent exactly the numbered packets from the master index to the window and before the end are received, in any order, and each announces full rounds of confirmations in time. |
| Guarantees.EventsAreTimely | connection.cpp:143-177 | In every run no event is armed further ahead than its delay, the next datagram is due within the first interval or a third of the resend time, and the wait for a goodbye runs only after the end of the stream. |
| Guarantees.ClosedIsDrained | connection.cpp:699 | With TCP closed and UDP open everything contiguous is passed over in every reached state. |
| Guarantees.CountersAreSums | connection.cpp:758-759 | Every counter is the sum it stands for: both buffer sizes and, while UDP is open, the number of packets to send; no stored sent packet is confirmed, and a received one is marked exactly when it was passed on. |
| Guarantees.CountAfterClose | connection.cpp:871-898 | `udpClose` does not reset the number of packets to send, which is right afterwards if and only if every stored packet had been sent. |
| Guarantees.MeasuresAreSound | connection.cpp:770-831 | Live measures are consecutive and end with the only open one; none counts more successes, or more failures, than bytes sent in it. While UDP is open, successes + failures + bytes in flight = bytes sent + bytes confirmed while they waited to be sent again; so the sums stay within the bytes sent if and only if no more was confirmed late than is in flight. |
| Guarantees.LateConfirmationIff | connection.cpp:605-620 | Confirming a packet of a measure in which nothing was confirmed late keeps both sums together within the bytes sent if and only if the packet was in flight, or at least as many bytes as it has still are. |
| Witnesses.SumsCanExceedSize | connection.cpp:557-567 | A run in which a full packet expires and is confirmed before it is sent again, so that its measure counts all bytes both as success and as failure. |
| Guarantees.MeasuresCountSends | connection.cpp:770-777 | A live measure has counted exactly the sends of packets made in it: their number, their bytes and the sum of the intervals in force at them. |
| Guarantees.MeasureEndsWhenFull | connection.cpp:778-782 | A live measure is ended by the send that makes its size reach udpMaxSentMeasureSize or its age udpMaxSentMeasureUs, at its time and by no other; the next one begins there. |
| Guarantees.PaceIsKept | connection.cpp:833-837 | Within a planned-time window of length T during which no interval below I was in force, at most T/I + 1 datagrams are sent. |
| Guarantees.HistoryOnlyGrows | connection.cpp:268-394 | Bytes, numbered packets, sends, received packets and udpLastSentUs are never taken back. |
| Guarantees.ConfirmationsDenoteReceived | connection.cpp:437-468 | An index was received if and only if it is below the master index or listed in the round's confirmations; each is listed once and in order, each payload fits and reads to its end by itself. |
| Guarantees.RoundPrunes | connection.cpp:428-532 | After a round of confirmations exactly the stored packets from the packet in turn on are stored, as they were, and the queue is the old one without its confirmations, followed by the fresh ones. |
| Guarantees.NoWakeupIsLost | connection.cpp:143-177 | In every run: waiting packets have the write event armed, unanswered ones the resend event in time, unflushed bytes the flush event, announced rounds theirs, contiguous packets the TCP write event, and a connection closed on both sides its removal. |
| Tunnels.InitialOk | connection.cpp:58-136 | The constructor establishes the invariant of a connection; hello waits to be sent at once, with the given interval, and the first measure begins. |
| Tunnels.SentIsReadable | packet.cpp:37-42 | Whatever a connection ever sent is parsed from its wire form unchanged. |
| Tunnels.PeerIsHonest | connection.cpp:580-642 | A datagram from the peer tells the truth: a confirmation covers only indices the peer received, a numbered packet is the peer's packet of that index. |
| Tunnels.MoveKeeps | connection.cpp:143-177 | Every handler run and every arrival of raw bytes at either side keeps the invariant of both connections and of the links between them. |
| Tunnels.RunKeeps | connection.cpp:143-177 | The invariant holds after every run, and nothing settled is undone by it. |
| PreservationStep.StepKeeps | connection.cpp:143-177 | Every handler keeps the invariant of its connection, and packets leave the store only when acknowledged. |
| PreservationStep.UdpReadKeeps | connection.cpp:580-739 | `udpRead` keeps the invariant; it changes what was received at most by the datagram's own index. |
| PreservationUdp.ConfirmAllRemoves | connection.cpp:604-638 | The two loops of `udpRead` remove from the store exactly the packets the confirmation covers. |
| PreservationUdp.BuiltIsTruthful | connection.cpp:437-468 | Every confirmation that is built covers only received indices, whatever the packet size. |
| PreservationUdp.ResendFromKeeps | connection.cpp:549-578 | The resend loop keeps the invariant, also when it gives up. |
| PreservationUdp.UdpWriteKeeps | connection.cpp:268-394 | `udpWrite` keeps the invariant. |
| PreservationUdp.BuildConfirmationsKeeps | connection.cpp:428-532 | `buildConfirmations` keeps the invariant. |
| PreservationUdp.BuildByeByeKeeps | connection.cpp:534-547 | `buildByeBye` keeps the invariant and queues a goodbye with the number of packets numbered. |
| Preservation.BuildKeeps | connection.cpp:396-426 | `buildUdpPackets` numbers the buffer in order; less than a packet remains, and after a flush nothing. |
| Preservation.TcpReadKeeps | connection.cpp:179-205 | `tcpRead` keeps the invariant. |
| Preservation.TcpWriteKeeps | connection.cpp:207-266 | `tcpWrite` keeps the invariant, under any partial write. |
| Preservation.TcpCloseKeeps | connection.cpp:839-869 | `tcpClose` flushes, numbers the closing packet last and keeps the invariant. |
| Preservation.UdpCloseKeeps | connection.cpp:871-898 | `udpClose` keeps the invariant for each reason to close. |
| Wakeups.StepAwake | connection.cpp:143-177 | Every handler, with its own event disabled while it runs, leaves all events armed that something waits for. |
| Wakeups.ResendFromAwake | connection.cpp:549-578 | The resend loop re-arms its event no later than the time of every packet still unanswered. |
| Wakeups.ReadConfirmationAwake | connection.cpp:640-648 | Disabling the resend event when as many packets wait as are stored loses nothing, since then none is unanswered. |
| Effects.AcceptsInAnyOrder | connection.cpp:658-708 | A wanted packet is received if it was not before, wherever it is in the window; every one announces full rounds of confirmations. |
| Effects.IgnoresOthers | connection.cpp:732-734 | A datagram that is neither a confirmation, nor wanted, nor the goodbye for the end of the stream changes nothing. |
| Effects.WritesWhatIsTaken | connection.cpp:239-253 | Of the first contiguous packet with unwritten bytes exactly those the socket took are written, the others stay stored, and no other packet changes. |
| Effects.WritesNothingElse | connection.cpp:221-237 | With no such packet before a closing one nothing is written, and TCP is closed if and only if a closing packet is in turn. |
| Effects.ByeClosesTcp | connection.cpp:228-236 | A closing packet in turn closes TCP without an error: a Bye is numbered. |
| Effects.ArrivalArmsEvents | connection.cpp:699-709 | A wanted packet arms the next round of confirmations, a new one writing to TCP, and the one that completes the stream, and no other, the wait of udpResendUs * (udpResendCount + 1). |
| Effects.ReadsGoodbye | connection.cpp:711-731 | The goodbye for the end of the stream ends all confirming and shortens a running wait. |
| Effects.QueuesGoodbye | connection.cpp:534-547 | A goodbye carries the number of packets numbered; rounds are counted down and armed while any remain. |
| Effects.ConfirmsARound | connection.cpp:470-531 | A round records the master index as confirmed, is counted, and arms the next while any remain. |
| Effects.AnnouncesGoodbye | connection.cpp:653-656 | The confirmation after which nothing more is to be sent, and no other, announces full rounds of goodbyes at once. |
| Effects.DisarmsWhenAnswered | connection.cpp:648-649 | A confirmation disables the resend event if and only if no stored packet is unanswered then. |
| Effects.ClosesWhenDone | connection.cpp:747-756 | The test for being finished closes UDP exactly when nothing is left to send, confirm, pass on or wait for. |
| Effects.DoneIsNoticed | connection.cpp:735-738 | No datagram that was read leaves UDP open when all is done. |
| Effects.WaitEndCloses | connection.cpp:171-173 | The end of the wait closes UDP exactly when all else is done. |
| Effects.UdpCloseCloses | connection.cpp:871-898 | Closing UDP forgets what was to be sent, closes TCP too if and only if nothing contiguous is left to write, and arms the removal if both are closed. |
| Effects.ClosingPacketTells | connection.cpp:839-869 | The last packet numbered is a Disconnect exactly when TCP was closed with an error, else a Bye. |
| Effects.SocketErrorIsTold | connection.cpp:150-152 | The event of a closed socket numbers a Disconnect exactly when the socket had an error. |
| Effects.SendsControlFirst | connection.cpp:271-317 | The first control packet goes before any numbered one; the next datagram is due one interval after the time this one was planned for. |
| Effects.SendsLowestUnsent | connection.cpp:319-389 | Otherwise the unsent packet with the lowest index goes, is filed under the current measure, and its resend is armed. |
| Effects.SentAsPlanned | connection.cpp:153-155 | A datagram counts as sent at the time its event was armed for, however late it is raised. |
| Effects.RefusedStays | connection.cpp:289-317 | What the socket refuses stays as it is. |
| Effects.ResendsOverdue | connection.cpp:549-578 | Exactly the packets whose answer is overdue are to be sent again, each with one resend less, and the event is armed for the answer of one that is not; UDP is closed if and only if one has no resend left. |
| Effects.NumbersFullPackets | connection.cpp:402-420 | The buffer is cut into full packets; only a flush makes a shorter one, the last. |
| Effects.ReadsIntoFullPackets | connection.cpp:179-205 | Reading from TCP numbers full packets only; less than one is left. |
| Effects.FlushEmpties | connection.cpp:161-163 | The flush event leaves nothing in the buffer. |
| Effects.ArmsOneIntervalLater | connection.cpp:833-837 | The next datagram is due one interval after the last one, after a pause not before now; an armed event only moves earlier. |
| Effects.FlushesInTime | connection.cpp:422-425 | Bytes left are flushed buildUdpPacketsUs after the last cut; an empty buffer disarms the event. |
| Senders.BudgetSpent | connection.cpp:555-572 | A packet whose last resend went unanswered for udpResendUs was sent udpResendCount + 1 times over at least that many resend periods. |
| Senders.EnqueueKeeps | connection.cpp:408-417 | Numbering a packet keeps the log, the counters and the budgets. |
| Senders.MarkSentKeeps | connection.cpp:338-344 | Sending a packet keeps the budgets and counters and records what was sent. |
| Senders.FirstUnsent | connection.cpp:319-320 | The packet `udpWrite` picks is the stored unsent one with the lowest index. |
| Receivers.DeliverKeeps | connection.cpp:211-265 | A run of `tcpWrite` writes the next bytes of the contiguous stream and ends at the closing packet, re-armed, or with nothing left. |
| Receivers.StoreKeeps | connection.cpp:688-697 | Storing a packet advances the master index over exactly the contiguous prefix and sets the final index at a closing packet. |
| Receivers.PrunedIsTail | connection.cpp:520-527 | Pruning erases exactly the stored packets below the packet in turn and leaves the others as they are. |
| Receivers.MemoryBound | connection.cpp:658-661 | The window test bounds the stored packets and, while TCP is open, their bytes. |
| Invariants.SentCounted | connection.cpp:770-783 | A send is counted in the open measure, with its size and the interval in force, before any answer to it can be. |
| Invariants.ConfirmedCounted | connection.cpp:605-620 | Confirming a packet that was sent keeps, in every measure, the successes plus the bytes whose confirmation may still come within the bytes sent, and the balance of answered, in flight, sent and late bytes. |
| Invariants.ExpiredCounted | connection.cpp:557-567 | Expiring a packet keeps, in every measure, the failures plus the bytes still in flight within the bytes sent, and that balance. |
| Invariants.EmptyWindowHasNoFailures | connection.cpp:800-803 | The undefined quotient 0/0 of an empty measure is always replaced. |
| Invariants.WindowBound | connection.cpp:833-837 | Planned times that are each at least I after the one before bound the sends of a window. |
| Confirmations.ConfirmationsExact | connection.cpp:437-468 | Decoding all payloads of a round gives the packed indices, each once and in order, across overflow into several packets. |
| Confirmations.ListedWasReceived | connection.cpp:449-459 | With any packet size, also when encoding fails, only given indices are listed. |
| Confirmations.PlanStep | connection.cpp:440-463 | One round of the packing loop extends the buffer, closes it and restarts at the master index, or gives up only below ten bytes of room. |
| Confirmations.PayloadLayout | connection.cpp:437-468 | On the wire a run is its gap, from the master index or the end of the run before, and its length. |
| IntPair.PackIntPair | packet.cpp:119-142 | Succeeds exactly when both numbers are not negative and their encodings fit; writes them at the cursor and nothing else. |
| IntPair.UnpackIntPair | packet.cpp:144-167 | Reads what the specification of the decoder says; on failure both values are zero and the cursor stays. |
| IntPair.RoundTripAt | packet.cpp:119-167 | Unpacking at the place of a packed pair gives the pair and ends behind it, for all 0 <= a, b < 2^31 and any bytes around. |
| IntPair.NumberCanonicalIff | packet.cpp:144-167 | The bytes accepted as a number are its encoding if and only if there are at most five, the first of several is not 0x80, and the first of five is below 0x88. |
| IntPair.RepackedIff | packet.cpp:119-167 | Packing an accepted pair gives back the bytes it was read from if and only if both numbers have that form. |
| IntPair.LeadingZeroIsAccepted | packet.cpp:149-154 | A number with a leading zero digit is accepted. |
| IntPair.SurplusBitsAreLost | packet.cpp:149-154 | Five digits with bits above the 31st, and six digits, are accepted; the surplus bits are shifted out. |
| IntPair.NegativeIsAccepted | packet.cpp:149-154 | A number that its last digit makes negative is accepted. |
| IntPair.EncodeAtMostFive | packet.cpp:122-128 | An encoding has at most five bytes. |
| IntPair.EncodeIsMinimal | packet.cpp:122-128 | No byte sequence the decoder reads as the number is shorter than its encoding. |
| IntPair.ReadPairProgress | packet.cpp:144-167 | Each success consumes at least two bytes, so the confirmation-reading loop ends. |
| IntPair.CountBytes | packet.cpp:122-128 | The bit-counting loop finds the length of the encoding. |
| PacketData.FrameRoundTrip | packet.h:72-81 | A framed datagram passes `checkCrc32` and is read back as it was. |
| PacketData.WireLayout | packet.h:72-81 | On the wire come the CRC, lowest byte first, the type by its code, the index, lowest byte first, and the payload. |
| PacketData.DamageIsNoticed | packet.h:94-97 | A packet damaged only within 32 consecutive bits behind the CRC field, or only in that field, fails `checkCrc32`. |
| PacketData.RawPacket.Encode | packet.cpp:37-42 | Whatever the vector held, `encode` leaves exactly the framed datagram. |
| PacketData.RawPacket.Set | packet.h:61-67 | `set` writes its bytes at the offset, grows the vector with zeros if needed and changes nothing else. |
| PacketData.RawPacket.SetData | packet.cpp:31-35 | `setData` replaces everything behind the header. |
| PacketData.RawPacket.Check | packet.h:96-97 | `checkCrc32` compares the CRC field with the CRC of the rest. |
| Crc32.ComputeCrc32 | packet.cpp:44-117 | The table loop computes the remainder of the polynomial division. |
| Crc32.TableStepIsDivision | packet.cpp:113-114 | One table step equals eight bitwise division steps by the generator of section 3.2.9 of IEEE 802.3-2012. |
| Crc32.CrcOfChunks | packet.cpp:112-116 | Hashing chunks with `previousCrc32` equals hashing their concatenation. |
| Crc32.BurstDetected | packet.cpp:112-116 | Equal-length messages that differ only within 32 consecutive bits, the highest bit of a byte first, have different CRCs. |
| Crc32.RemainderAsBits | packet.cpp:112-116 | Division byte by byte is division bit by bit, the highest bit of a byte first. |
| Rates.MeasureSetsSpeed | connection.cpp:785-821 | An answered measure sets the speed to amplifier times measured speed plus 1/M, or to ten datagrams a microsecond if that is more; the interval is that speed's rounded to the nearest, and zero if and only if the speed exceeds two. |
| Rates.NoPauseRoundsToZero | connection.cpp:816-820 | A measure without planned pauses makes the interval zero. |
| Rates.IntervalCanBeZero | connection.cpp:816-820 | So does, with the default settings, a measure of 64 full datagrams planned a microsecond apart and all confirmed. |
| Rates.SpeedLaw | connection.cpp:808-814 | The unclamped speed is amplifier times measured speed plus exactly 1/M, and the interval is below M = udpResendUs/3. |
| Rates.UpperClampUnreachable | connection.cpp:816-817 | The upper clamp never changes an interval. |
| Rates.SlowsDownIff | connection.cpp:800-806 | A connection is slowed down if and only if something failed and the part that succeeded is below the part the loss setting asks for. |
| Rates.AmplifierValue | connection.cpp:796-806 | The amplifier is 2 with nothing failed, else the part that succeeded of the part wanted, between 1/2 and 2; and never above 1 when the sends took more than twice their planned intervals. |
| Rates.ErasedWhenAnswered | connection.cpp:785-831 | A closed measure is erased, with every older one, exactly when all it sent is answered; otherwise only the answer is counted. |
| Rates.SpeedGap | connection.cpp:808-814 | With equal amplifiers a the gap between two speeds after n measures is a^n times the first one. |
| Rates.PowerShrinks | connection.cpp:808-814 | For a < 1 that factor shrinks strictly and stays positive. |
| Rates.PowerVanishes | connection.cpp:808-814 | For a < 1 that factor falls below every bound and stays there. |
| Rates.OnDeliveredKeeps | connection.cpp:785-831 | The live measures stay consecutive when an answered one and all older are erased. |
| Rates.CountsBothWays | connection.cpp:789 | A packet that expires and is confirmed while it waits to be sent again counts as failure and as success, but once as sent. |
| Rates.ResendCountsAgain | connection.cpp:770-789 | If it is sent again before it is confirmed, it counts twice as sent, and the sums fit. |
| Connections.Connection.constructor | connection.cpp:58-136 | A new connection is the model's initial one and satisfies the invariant. |
| Connections.Connection.Handle | connection.cpp:143-177 | Whatever event is raised or datagram of the peer arrives, the object does what the model's step says, the invariant holds again and nothing settled is undone. |
| Connections.Connection.TcpRead | connection.cpp:179-205 | Bytes the socket gave join the buffer while UDP is open, and full packets are cut at once. |
| Connections.Connection.TcpWrite | connection.cpp:207-266 | The loop, real or fake, delivers or passes over exactly what the recursive specification does; which bytes those are is `Effects.WritesWhatIsTaken` and `Effects.WritesNothingElse`. |
| Connections.Connection.UdpWrite | connection.cpp:268-394 | One datagram is sent: a control packet if any waits, else the unsent packet with the lowest index; what the socket refuses stays, and the event is armed again while anything waits. |
| Connections.Connection.CutPackets | connection.cpp:402-419 | The cutting loop over the unshortened buffer equals cutting the buffer packet by packet. |
| Connections.Connection.BuildUdpPackets | connection.cpp:396-426 | Full packets are numbered, the rest only with a flush; a rest arms the flush event, an empty buffer disarms it, and a finished peer empties it. |
| Connections.Connection.PackConfirmations | connection.cpp:437-468 | The loop through one reused buffer queues exactly the specified payloads. |
| Connections.Connection.EraseReceived | connection.cpp:520-527 | The erasing loop prunes exactly what the specification does. |
| Connections.Connection.EraseConfirmations | connection.cpp:431-435 | The loop erases exactly the waiting confirmations and keeps the rest in order. |
| Connections.Connection.BuildConfirmations | connection.cpp:428-532 | Fresh confirmations replace the waiting ones, the master index is recorded, what was delivered is erased, and the next round is armed while rounds remain. |
| Connections.Connection.UdpResend | connection.cpp:549-578 | The loop over the store equals the specification, also when it gives up halfway. |
| Connections.Connection.ConfirmBelowMaster | connection.cpp:604-622 | The loop confirms, in key order, exactly the stored packets below the master index. |
| Connections.Connection.ConfirmRuns | connection.cpp:624-638 | The nested reading loops confirm exactly the listed indices that are stored. |
| Connections.Connection.StoreNew | connection.cpp:688-697 | Storing and the advancing loop equal the specification. |
| Connections.Connection.UdpRead | connection.cpp:580-739 | Confirmations, acceptable numbered packets and a goodbye for the final index take effect as specified; anything else only leads to the test for being finished. Which packets are acceptable is `Effects.AcceptsInAnyOrder` and `Effects.IgnoresOthers`. |
| Connections.Connection.EraseMeasures | connection.cpp:827-829 | The backward loop erases exactly the given measure and all older ones. |
| Connections.Connection.OnUdpDelivered | connection.cpp:785-831 | An answer counts in its measure; an answered measure sets the interval and is erased with all older ones. |
| Connections.Connection.TcpClose | connection.cpp:839-869 | What cannot be written any more is passed over, the buffer is flushed, then the closing packet is numbered; with UDP closed the removal is armed instead. |
| Connections.Connection.UdpClose | connection.cpp:871-898 | Everything to be sent is forgotten, the count of packets to send is not reset; TCP is closed too when nothing contiguous is left to write. |
| Connections.Play | server.cpp:107-138 | Two objects do in every move, raw bytes checked and parsed, what the model of a tunnel does, so its guarantees are theirs. |
| EventLinks.NoSharing | event.cpp:167-182 | No event is on two lists, or twice on one. |
| EventLinks.CutKeeps | event.cpp:175-182 | Unlinking an event keeps every list well formed and takes it off its list only. |
| EventLinks.InsertKeeps | event.cpp:167-173 | Linking an event into any slot keeps every list well formed and puts it at that slot's position. |
| EventLinks.JoinKeeps | event.cpp:102-109 | Stitching a bucket to the end of a list keeps every list well formed. |
| EventLinks.Links.Link | event.cpp:167-173 | The pointer surgery of `link` puts the event at the slot's position and off any other list. |
| EventLinks.Links.Unlink | event.cpp:175-182 | The pointer surgery of `unlink` takes the event off its list and leaves the rest in order. |
| EventLinks.Links.Join | event.cpp:104-108 | The stitching step appends the bucket to the list. |
| Shuffles.SameElements | event.cpp:79-97 | Sequences without repetition and with the same elements are permutations. |
| Shuffles.ThrowAll | event.cpp:79-97 | For every outcome of rand each event lands in one bucket, and `second` is the bucket's last. |
| Shuffles.Stitch | event.cpp:102-109 | The buckets become one list again. |
| Shuffles.Shuffle | event.cpp:79-109 | The shuffled list is a permutation of the events to raise. |
| Events.Manager.UpdateReady | event.cpp:216-223 | An event is on the ready list if and only if it is ready, enabled and managed; only such events stay on a raise list. |
| Events.Manager.SetTime | event.cpp:232-241 | The time changes as the timers of the connection model assume, and the lists follow. |
| Events.Manager.SetReady | event.cpp:225-230 | Readiness changes and the lists follow. |
| Events.Manager.SetSourceReady | event.cpp:40-45 | Every event of the source, and no other, follows it. |
| Events.Manager.Init | event.cpp:193-208 | The event becomes managed and disabled, first on its source's list and on no other source's, ready if it has no source or a ready one; every other event keeps its time, priority, readiness and place. |
| Events.Manager.Destroy | event.cpp:184-191 | The event leaves every list and is disabled. |
| Events.Manager.Select | event.cpp:56-77 | The raise list holds exactly the ready, enabled, due events of the highest due priority. |
| Events.Manager.RaiseAll | event.cpp:111-115 | For any behaviour of the handlers the loop ends, raises each event at most once, each ready and enabled at that moment, and skips only what a handler touched. |
| Events.Manager.NextTime | event.cpp:117-125 | The result is the earliest time on the ready list, or -1. |
| Events.Manager.DoEvents | event.cpp:55-126 | Selection, shuffle and raising together, for every outcome of rand and every behaviour of the handlers. |
| Registry.Server.ConnectionByAddress | server.cpp:154-157 | Finds the live connection of that listener and address if there is one. |
| Registry.Server.CreateConnection | server.cpp:322-357 | Registers the connection under its address, with the interval shared among those there were, and adds that to the sum; or does nothing when the address is taken. |
| Registry.Server.CloseConnection | server.cpp:241-255 | The connection leaves listener, registry and sum; a listener without a TCP address leaves with it. |
| Registry.Server.ChangeInterval | connection.cpp:819-821 | The sum follows the interval of a connection. |
| Registry.Server.AcceptClient | server.cpp:56-69 | An accepted client gets its own listener and its connection, with the shared interval, in one step. |
| Registry.Server.Receive | server.cpp:107-138 | A datagram that passes the check goes to the live connection of its address; one is made exactly for a numbered datagram at a listener with a TCP address, with the shared interval, and nothing else changes. |
| Registry.Server.CloseListener | server.cpp:141-151 | A listener with connections stays; one without leaves, is opened again empty after an error, and never is one made for a single client; the other listeners stay as they are. |
| Registry.Server.InitialIntervalUs | server.cpp:296-316 | The loop computes the shared interval of the busy connections, and udpInitialSendIntervalUs if there are none. |
| Registry.TakesItsShare | server.cpp:298-316 | Among n busy connections that all have interval v, none counted as below 10, a new one gets v * (n + 1) / n, rounded up, unless a bound cuts it off. |
| Registry.FirstGetsConfigured | server.cpp:296-304 | With no busy connection a new one gets the configured interval. |
| Registry.TakesPartOfSpeed | server.cpp:298-316 | Whatever their intervals are, a new one gets the (n + 1)-th part of their speed, its interval rounded up, cut off at udpResendUs/3 and then at half the configured interval. |

## Left out

- Connections.Connection: the source's fields are grouped by role into the records `snd`, `rcv`, `rate`, `pacer` and `timers`, named after the source in Sender.dfy, Receiver.dfy, Rate.dfy and Endpoint.dfy; the event fields hold times.
- Connections.Connection.OnUdpSentBufferChanged: only the update of `udpSentBufferSize`; the window test behind it dereferences the end of a map, so its value is undefined, and divides by the interval, which can be zero. Reading from TCP may happen at any time instead.
- Connections.Connection.OnUdpDelivered: the server's sum of intervals is updated by `Registry.Server.ChangeInterval`.
- Connections.Connection.BuildConfirmations: requires stored indices below INT_MAX, as the 32-bit indices of the source do.
- Connections.Connection.ConfirmRuns: `currentIndex` is unbounded where the source's `int` could overflow on a malformed payload.
- PacketData.RawPacket.Check: packets of less than four bytes fail the check; the source addresses memory behind its vector there, which is undefined.
- PacketData.RawPacket.Set: negative offsets, which no caller uses.
- Rates.SpeedGap: exact reals without the lower clamp and without rounding; floating-point rounding is not modelled.
- Rates.MeasureSetsSpeed: speaks of measures with a planned pause; `NoPauseRoundsToZero` covers the others.
- EventLinks.Links: events and slots are known by numbers instead of addresses; a missing map entry is a null pointer.
- Events.Manager.DoEvents: handlers do not run `doEvents` again, and the random numbers of the shuffle are any function; its uniformity is not stated.
- Registry.Server: sockets, names and TCP listeners are not part of the registry model; a connection's state enters through `intervalUs` and `idle`.
- Sockets, the system's polling, address resolution and the clock: their results are parameters of the handlers.
- A truncated send counts as a send of the whole datagram; the datagram that then fails the check is one of the arbitrary bytes that may arrive.
- The order of `std::map` traversal is `Ascending`.
- Eventual delivery and eventual close: they need fair timers and a fair network, which the runs here do not assume.
- Logging, statistics, dump and damage-simulation blocks, option parsing and the test programs.
