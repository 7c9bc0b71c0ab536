/** One connection as a value: its two halves, its rate, its pacing, its timers, and
    what every handler turns it into. The class `Connection` does the same with loops
    and assignments and is proved equal to this. */
module Endpoints {
  import opened Base
  import opened Confirmations
  import opened Receivers
  import opened Senders
  import opened Rates

  /** The times of the connection's events; negative means disabled. The event of
      `udpWrite` is in the pacer. */
  datatype Timers = Timers(
    tcpWrite: int,
    buildUdpPackets: int,
    buildConfirmations: int,
    buildByeBye: int,
    udpResend: int,
    udpCloseWait: int,
    close: int
  )

  /** History of one datagram handed to the socket: the time it was planned for, and
      the smallest interval in force since the one before it. */
  datatype Slot = Slot(planned: int, floor: int)

  /** History of one packet handed to the socket: the measure and the interval in force,
      its size and the time. */
  datatype Send = Send(measure: nat, intervalUs: int, size: nat, at: int)

  datatype Pacer = Pacer(
    lastSentUs: int,      // udpLastSentUs
    udpWrite: int,        // the time of eventUdpWrite
    sends: seq<Slot>,     // history
    floor: int,           // history: the smallest interval in force since the last send
    counted: seq<Send>    // history
  )

  /** History: why the UDP side was closed. */
  datatype CloseReason = NotClosed | ByCaller | AllDone | NoAnswer(index: nat)

  datatype Endpoint = Endpoint(
    cfg: Config,
    tcpConnected: bool,
    udpConnected: bool,
    snd: Sender,
    rcv: Receiver,
    rate: Rate,
    pacer: Pacer,
    timers: Timers,
    remainConfirmation: int,
    remainByeBye: int,
    clock: int,           // history: the latest time a handler saw
    reason: CloseReason   // history
  )

  // ---------- queries ----------

  predicate IsNoMoreDataWillBeSent(e: Endpoint) {
    (!e.tcpConnected || Finished(e.rcv)) && e.snd.data == [] && e.snd.packets == map[]
  }

  predicate IsUdpFinished(e: Endpoint) {
    !e.udpConnected ||
    ( && IsNoMoreDataWillBeSent(e)
      && e.snd.control == []
      && e.rcv.confirmedMaster >= e.rcv.master
      && e.rcv.tcpNext >= e.rcv.master
      && e.remainConfirmation <= 0
      && e.remainByeBye <= 0
      && e.timers.udpCloseWait < 0 )
  }

  // ---------- parts of handlers ----------

  /** `setEventUdpWrite`: after a pause the next slot counts from now at the earliest. */
  function ArmUdpWrite(p: Pacer, intervalUs: int, now: int): Pacer {
    var last := if p.udpWrite < 0 then Max(p.lastSentUs, now - intervalUs) else p.lastSentUs;
    p.(lastSentUs := last, udpWrite := SetTime(p.udpWrite, last + intervalUs))
  }

  function SetEventUdpWrite(e: Endpoint, now: int): Endpoint {
    e.(pacer := ArmUdpWrite(e.pacer, e.rate.intervalUs, now))
  }

  /** Armed again after a send as long as anything waits. */
  function RearmUdpWrite(e: Endpoint): Endpoint {
    e.(pacer := e.pacer.(udpWrite := SetTime(e.pacer.udpWrite, e.pacer.lastSentUs + e.rate.intervalUs)))
  }

  /** History of a datagram that the socket took. */
  function Took(p: Pacer, planned: int, intervalUs: int): Pacer {
    p.(lastSentUs := planned, sends := p.sends + [Slot(planned, p.floor)], floor := intervalUs)
  }

  /** History of a packet that the socket took. */
  function Counts(p: Pacer, s: Send): Pacer {
    p.(counted := p.counted + [s])
  }

  function Delivered(e: Endpoint, success: bool, p: Packet): Endpoint {
    var r := OnDelivered(e.cfg, e.rate, success, p.measureIndex, p.Size());
    e.(rate := r, pacer := e.pacer.(floor := Min(e.pacer.floor, r.intervalUs)))
  }

  function Queue(e: Endpoint, kind: Kind, payload: seq<byte>, now: int): Endpoint {
    SetEventUdpWrite(e.(snd := Enqueue(e.cfg, e.snd, kind, payload)), now)
  }

  // ---------- from TCP ----------

  /** The loop of `buildUdpPackets`; what is cut off leaves the buffer at once. */
  function CutAll(e: Endpoint, flush: bool, now: int): Endpoint
    decreases |e.snd.data|
  {
    if !Cut(e.cfg, e.snd.data, flush) then e
    else
      var n := Min(|e.snd.data|, e.cfg.udpSendPacketSize);
      var rest := e.snd.data[n..];
      CutAll(Queue(e.(snd := e.snd.(data := rest)), Data, e.snd.data[..n], now), flush, now)
  }

  function FlushTimer(t: Timers, cfg: Config, cutSome: bool, empty: bool, now: int): Timers {
    var t' := if cutSome || empty then t.(buildUdpPackets := -1) else t;
    if empty then t' else t'.(buildUdpPackets := SetTime(t'.buildUdpPackets, now + cfg.buildUdpPacketsUs))
  }

  function BuildUdpPackets(e: Endpoint, flush: bool, now: int): Endpoint {
    if !e.udpConnected then e
    else
      var kept := e.(snd := e.snd.(data := if Finished(e.rcv) then [] else e.snd.data));
      var cut := CutAll(kept, flush, now);
      cut.(timers := FlushTimer(cut.timers, e.cfg, |cut.snd.data| < |kept.snd.data|, cut.snd.data == [], now))
  }

  /** `tcpRead`, when the socket gave these bytes (none if it gave nothing). */
  function TcpRead(e: Endpoint, bytes: seq<byte>, now: int): Endpoint {
    if !e.tcpConnected then e
    else
      var r := e.(snd := e.snd.(tcpIn := e.snd.tcpIn + bytes));
      if |bytes| > 0 && e.udpConnected then
        BuildUdpPackets(r.(snd := r.snd.(data := r.snd.data + bytes)), false, now)
      else r
  }

  // ---------- to TCP ----------

  /** `tcpWrite(true)`: only after TCP is closed. */
  function TcpWriteFake(e: Endpoint): Endpoint {
    if e.tcpConnected then e else e.(rcv := Discard(e.rcv))
  }

  function TcpClose(e: Endpoint, error: bool, now: int): Endpoint {
    if !e.tcpConnected then e
    else
      var c := e.(tcpConnected := false, timers := e.timers.(tcpWrite := -1));
      if !e.udpConnected then
        c.(timers := c.timers.(close := SetTime(c.timers.close, now)))
      else
        Queue(BuildUdpPackets(TcpWriteFake(c), true, now), if error then Disconnect else Bye, [], now)
  }

  /** `tcpWrite(false)`; the socket accepts up to `accepted` bytes. */
  function TcpWrite(e: Endpoint, accepted: int, now: int): Endpoint {
    if !e.tcpConnected then e
    else
      match Deliver(e.rcv, accepted)
      case Idle(r) => e.(rcv := r)
      case Rearmed(r) => e.(rcv := r, timers := e.timers.(tcpWrite := SetTime(e.timers.tcpWrite, now)))
      case Closing(r) => TcpClose(e.(rcv := r), false, now)
  }

  // ---------- closing UDP ----------

  function UdpClose(e: Endpoint, reason: CloseReason, now: int): Endpoint {
    if !e.udpConnected then e
    else
      var c := e.(
        udpConnected := false,
        snd := Clear(e.snd),
        pacer := e.pacer.(udpWrite := -1),
        timers := e.timers.(buildUdpPackets := -1, buildConfirmations := -1, udpResend := -1),
        reason := reason);
      if !e.tcpConnected then
        c.(timers := c.timers.(close := SetTime(c.timers.close, now)))
      else if e.rcv.tcpNext >= e.rcv.master then TcpClose(c, false, now)
      else c
  }

  function CloseIfFinished(e: Endpoint, now: int): Endpoint {
    if IsUdpFinished(e) then UdpClose(e, AllDone, now) else e
  }

  // ---------- to UDP ----------

  function SendControl(e: Endpoint, planned: int): Endpoint
    requires e.snd.control != []
  {
    e.(snd := PopControl(e.snd), pacer := Took(e.pacer, planned, e.rate.intervalUs))
  }

  /** The socket took packet k. */
  function SendPacket(e: Endpoint, k: nat, planned: int, now: int): Endpoint
    requires k in e.snd.packets
  {
    var size := e.snd.packets[k].Size();
    e.(snd := MarkSent(e.snd, k, e.rate.index, now),
       pacer := Counts(Took(e.pacer, planned, e.rate.intervalUs), Send(e.rate.index, e.rate.intervalUs, size, now)),
       rate := OnSent(e.cfg, e.rate, e.rate.index, e.rate.intervalUs, size, now))
  }

  function ArmResend(e: Endpoint, at: int): Endpoint {
    e.(timers := e.timers.(udpResend := SetTime(e.timers.udpResend, at)))
  }

  /** `udpWrite` when its event was planned for the given time; `taken` says whether
      the socket took the datagram. */
  function UdpWrite(e: Endpoint, planned: int, taken: bool, now: int): Endpoint {
    if !e.udpConnected then e
    else if e.snd.control != [] then
      var s := if taken then SendControl(e, planned) else e;
      if taken && IsUdpFinished(s) then UdpClose(s, AllDone, now)
      else if s.snd.control != [] || s.snd.toSend > 0 then RearmUdpWrite(s)
      else s
    else
      match FirstUnsent(e.snd.packets)
      case None => e
      case Some(k) =>
        if !taken then (if e.snd.toSend > 0 then RearmUdpWrite(e) else e)
        else
          var s := SendPacket(e, k, planned, now);
          if s.snd.packets[k].IsComplete() then
            var c := s.(snd := Erase(s.snd, k));
            if IsUdpFinished(c) then UdpClose(c, AllDone, now)
            else if c.snd.toSend > 0 then RearmUdpWrite(c) else c
          else
            var c := ArmResend(s, now + e.cfg.udpResendUs);
            if c.snd.toSend > 0 then RearmUdpWrite(c) else c
  }

  /** One round of the loop of `udpResend` in which a packet is to be sent again. */
  function ExpireOne(e: Endpoint, k: nat, now: int): Endpoint
    requires k in e.snd.packets
  {
    SetEventUdpWrite(Delivered(e.(snd := Expire(e.snd, k)), false, e.snd.packets[k]), now)
  }

  /** The loop of `udpResend` over the keys ks from position i. */
  function ResendFrom(e: Endpoint, ks: seq<nat>, i: nat, now: int): Endpoint
    decreases |ks| - i
  {
    if i >= |ks| then e
    else if ks[i] !in e.snd.packets || !e.snd.packets[ks[i]].sent then ResendFrom(e, ks, i + 1, now)
    else
      var p := e.snd.packets[ks[i]];
      if p.sentTimeUs + e.cfg.udpResendUs > now then
        ResendFrom(ArmResend(e, p.sentTimeUs + e.cfg.udpResendUs), ks, i + 1, now)
      else if p.remainResendCount > 0 then
        ResendFrom(ExpireOne(e, ks[i], now), ks, i + 1, now)
      else UdpClose(e, NoAnswer(ks[i]), now)
  }

  function UdpResend(e: Endpoint, now: int): Endpoint {
    if !e.udpConnected then e else ResendFrom(e, Ascending(e.snd.packets.Keys), 0, now)
  }

  // ---------- confirmations ----------

  ghost function PushAll(s: Sender, master: int, payloads: seq<seq<byte>>): Sender
    decreases |payloads|
  {
    if payloads == [] then s
    else PushAll(PushControl(s, Confirmation, master, payloads[0]), master, payloads[1..])
  }

  ghost function ConfirmationPayloads(e: Endpoint): seq<seq<byte>> {
    PackAll(Ascending(KeysFrom(e.rcv.packets, e.rcv.master)), e.rcv.master, e.cfg.udpSendPacketSize)
  }

  ghost function BuildConfirmations(e: Endpoint, now: int): Endpoint {
    if !e.udpConnected then e
    else
      var pushed := e.(snd := PushAll(DropConfirmations(e.snd), e.rcv.master, ConfirmationPayloads(e)));
      var c := SetEventUdpWrite(pushed, now);
      c.(rcv := Prune(c.rcv),
         remainConfirmation := c.remainConfirmation - 1,
         timers := if c.remainConfirmation > 1
                   then c.timers.(buildConfirmations := SetTime(c.timers.buildConfirmations, now + e.cfg.buildConfirmationsUs))
                   else c.timers)
  }

  function BuildByeBye(e: Endpoint, now: int): Endpoint {
    if !e.udpConnected then e
    else
      var c := SetEventUdpWrite(e.(snd := PushControl(e.snd, ByeBye, e.snd.next, [])), now);
      c.(remainByeBye := c.remainByeBye - 1,
         timers := if c.remainByeBye > 1
                   then c.timers.(buildByeBye := SetTime(c.timers.buildByeBye, now + e.cfg.buildConfirmationsUs))
                   else c.timers)
  }

  // ---------- from UDP ----------

  /** Packet k was confirmed. */
  function ConfirmOne(e: Endpoint, k: nat): Endpoint
    requires k in e.snd.packets
  {
    var c := if e.snd.packets[k].confirmed then e else Delivered(e, true, e.snd.packets[k]);
    c.(snd := Acknowledge(c.snd, k))
  }

  /** The first loop of `udpRead`: keys in order while they are below the master index. */
  function ConfirmBelow(e: Endpoint, ks: seq<nat>, i: nat, master: int): Endpoint
    decreases |ks| - i
  {
    if i >= |ks| || ks[i] >= master then e
    else if ks[i] !in e.snd.packets then ConfirmBelow(e, ks, i + 1, master)
    else ConfirmBelow(ConfirmOne(e, ks[i]), ks, i + 1, master)
  }

  /** The second loop of `udpRead`: every listed index that is still stored. */
  function ConfirmListed(e: Endpoint, indices: seq<int>, i: nat): Endpoint
    decreases |indices| - i
  {
    if i >= |indices| then e
    else if indices[i] < 0 || indices[i] !in e.snd.packets then ConfirmListed(e, indices, i + 1)
    else ConfirmListed(ConfirmOne(e, indices[i]), indices, i + 1)
  }

  function ConfirmAll(e: Endpoint, d: Datagram): Endpoint {
    ConfirmListed(ConfirmBelow(e, Ascending(e.snd.packets.Keys), 0, d.index), Listed(d.index, d.payload), 0)
  }

  function ReadConfirmation(e: Endpoint, d: Datagram, now: int): Endpoint {
    var c := ConfirmAll(e, d);
    var t := if c.snd.toSend >= |c.snd.packets| then c.(timers := c.timers.(udpResend := -1)) else c;
    if IsNoMoreDataWillBeSent(t) && !IsNoMoreDataWillBeSent(e) then
      t.(remainByeBye := e.cfg.confirmationResendCount,
         timers := t.timers.(buildByeBye := SetTime(t.timers.buildByeBye, now)))
    else t
  }

  /** How long a finished receiver waits for the peer's goodbye before it may close. */
  function CloseWaitUs(cfg: Config): int {
    cfg.udpResendUs * cfg.udpResendCount + cfg.udpResendUs
  }

  /** A numbered packet not stored yet. */
  function ReadNew(e: Endpoint, d: Datagram, now: int): Endpoint
    requires d.index >= 0
  {
    var c := TcpWriteFake(e.(rcv := Store(e.rcv, d)));
    var t := if c.rcv.tcpNext < c.rcv.master
             then c.(timers := c.timers.(tcpWrite := SetTime(c.timers.tcpWrite, now))) else c;
    if t.rcv.master >= t.rcv.final
    then t.(timers := t.timers.(udpCloseWait :=
             SetTime(t.timers.udpCloseWait, now + CloseWaitUs(e.cfg))))
    else t
  }

  function ReadNumbered(e: Endpoint, d: Datagram, now: int): Endpoint
    requires d.index >= 0
  {
    var c := if d.index in e.rcv.packets then e else ReadNew(e, d, now);
    c.(remainConfirmation := e.cfg.confirmationResendCount,
       timers := c.timers.(buildConfirmations := SetTime(c.timers.buildConfirmations, now + e.cfg.buildConfirmationsUs)))
  }

  ghost function ReadByeBye(e: Endpoint, now: int): Endpoint {
    var t := e.timers.(buildConfirmations := -1);
    e.(remainConfirmation := 0,
       snd := DropConfirmations(e.snd),
       timers := if t.udpCloseWait >= 0
                 then t.(udpCloseWait :=
                   SetTime(t.udpCloseWait, now + (e.cfg.udpResendUs * e.cfg.confirmationResendCount / 3 + e.cfg.udpResendUs)))
                 else t)
  }

  ghost function UdpRead(e: Endpoint, d: Datagram, now: int): Endpoint {
    if !e.udpConnected then e
    else if d.kind.Confirmation? then CloseIfFinished(ReadConfirmation(e, d, now), now)
    else if Acceptable(e.rcv, d, Window(e.cfg)) then CloseIfFinished(ReadNumbered(e, d, now), now)
    else if d.kind.ByeBye? && d.index == e.rcv.master && d.index == e.rcv.final then
      CloseIfFinished(ReadByeBye(e, now), now)
    else CloseIfFinished(e, now)
  }

  // ---------- construction and events ----------

  /** The constructor: hello is numbered and the write event armed. */
  function Initial(cfg: Config, intervalUs: int, now: int): Endpoint {
    var p := Pacer(0, SetTime(-1, now), [], intervalUs, []);
    Endpoint(cfg, true, true, Enqueue(cfg, Senders.EMPTY, Hello, []), Receivers.EMPTY,
             InitialRate(intervalUs, now), p, Timers(-1, -1, -1, -1, -1, -1, -1), 0, 0, now, NotClosed)
  }

  /** What can happen to a connection. */
  datatype Action =
    | ReadTcp(bytes: seq<byte>)
    | WriteTcp(accepted: int)
    | CloseTcp(error: bool)
    | WriteUdp(taken: bool)
    | CloseUdp
    | Build
    | Confirm
    | SayByeBye
    | Resend
    | CloseWait
    | Receive(d: Datagram)

  /** An event is raised when its time has come; sockets report at any time. */
  predicate Ready(e: Endpoint, a: Action, now: int) {
    && 0 <= e.clock <= now
    && match a
       case ReadTcp(bytes) => |bytes| <= e.cfg.udpSendPacketSize
       case WriteTcp(_) => 0 <= e.timers.tcpWrite <= now
       case CloseTcp(_) => true
       case WriteUdp(_) => 0 <= e.pacer.udpWrite <= now
       case CloseUdp => true
       case Build => 0 <= e.timers.buildUdpPackets <= now
       case Confirm => 0 <= e.timers.buildConfirmations <= now
       case SayByeBye => 0 <= e.timers.buildByeBye <= now
       case Resend => 0 <= e.timers.udpResend <= now
       case CloseWait => 0 <= e.timers.udpCloseWait <= now
       case Receive(_) => true
  }

  /** `Event::raise` disables the event, then `Connection::handle` runs its handler. */
  ghost function Step(e: Endpoint, a: Action, now: int): Endpoint {
    var c := e.(clock := now);
    match a
    case ReadTcp(bytes) => TcpRead(c, bytes, now)
    case WriteTcp(accepted) => TcpWrite(c.(timers := c.timers.(tcpWrite := -1)), accepted, now)
    case CloseTcp(error) => TcpClose(c, error, now)
    case WriteUdp(taken) => UdpWrite(c.(pacer := c.pacer.(udpWrite := -1)), e.pacer.udpWrite, taken, now)
    case CloseUdp => UdpClose(c, ByCaller, now)
    case Build => BuildUdpPackets(c.(timers := c.timers.(buildUdpPackets := -1)), true, now)
    case Confirm => BuildConfirmations(c.(timers := c.timers.(buildConfirmations := -1)), now)
    case SayByeBye => BuildByeBye(c.(timers := c.timers.(buildByeBye := -1)), now)
    case Resend => UdpResend(c.(timers := c.timers.(udpResend := -1)), now)
    case CloseWait => CloseIfFinished(c.(timers := c.timers.(udpCloseWait := -1)), now)
    case Receive(d) => UdpRead(c, d, now)
  }
}
