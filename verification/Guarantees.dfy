/** What two connections guarantee in every run, whatever the network drops, repeats,
    reorders or damages, whatever the sockets accept and whenever the timers fire. */
module Guarantees {
  import opened Base
  import opened Receivers
  import opened Senders
  import opened Rates
  import opened Endpoints
  import opened Invariants
  import opened Preservation
  import opened PreservationUdp
  import opened Confirmations
  import opened Tunnels
  import opened PreservationStep
  import opened PacketData
  import opened Wakeups
  import opened Streams
  import opened Measured
  import opened Effects
  import opened Deadlines

  /** The tunnel after some moves from its start, seen from one side. */
  ghost predicate Reached(t: Tunnel, moves: seq<Move>, side: Side, e: Endpoint, peer: Endpoint) {
    Start(t) && ValidRun(t, moves) && e == After(t, moves).End(side) && peer == After(t, moves).End(side.Other())
  }

  /** What the invariant says of one side and its peer. */
  lemma ReachedOk(t: Tunnel, moves: seq<Move>, side: Side, e: Endpoint, peer: Endpoint)
    requires Reached(t, moves, side, e, peer)
    ensures EndOk(e) && EndOk(peer) && Link(e, peer) && Link(peer, e)
    ensures |e.snd.log| < INT_MAX && |peer.snd.log| < INT_MAX
  {
    hide EndOk, Link, Start, ValidRun, After;
    StartOk(t);
    RunKeeps(t, moves);
  }

  // ---------- the stream ----------

  lemma {:induction false} SameContents(got: map<nat, Datagram>, log: seq<Datagram>, n: nat)
    requires n <= |log|
    requires forall k: nat :: k < n ==> k in got && got[k] == log[k]
    ensures Contents(got, n) == LogContents(log, n)
  {
    if n > 0 {
      SameContents(got, log, n - 1);
    }
  }

  /** What arrived contiguously is a prefix of what was numbered. */
  lemma ArrivedIsNumbered(e: Endpoint, peer: Endpoint)
    requires EndOk(peer) && Link(e, peer)
    ensures peer.rcv.master <= |e.snd.log|
    ensures Contents(peer.rcv.got, peer.rcv.master) == LogContents(e.snd.log, peer.rcv.master)
    ensures LogContents(e.snd.log, peer.rcv.master) <= LogContents(e.snd.log, |e.snd.log|)
  {
    EndParts(peer);
    hide EndOk, EndCore, Contents, LogContents, Covered;
    var m := peer.rcv.master;
    assert m > 0 ==> m - 1 in peer.rcv.got;
    SameContents(peer.rcv.got, e.snd.log, m);
    LogContentsPrefix(e.snd.log, m, |e.snd.log|);
  }

  /** Safety of the tunnel: what one side wrote to TCP is always a prefix of what the
      other side read from TCP. */
  lemma DeliveredIsPrefix(t: Tunnel, moves: seq<Move>, side: Side, e: Endpoint, peer: Endpoint)
    requires Reached(t, moves, side, e, peer)
    ensures peer.rcv.tcpOut <= e.snd.tcpIn
  {
    hide Reached, Link, EndOk, EndCore, Contents, LogContents;
    ReachedOk(t, moves, side, e, peer);
    EndParts(peer);
    EndParts(e);
    CoreParts(e);
    ArrivedIsNumbered(e, peer);
  }

  /** Nothing is lost on the way: while UDP is open, or when it was closed because
      everything is done, each numbered packet is still kept for sending or was
      received by the peer exactly as it was numbered. */
  lemma NothingIsLost(t: Tunnel, moves: seq<Move>, side: Side, e: Endpoint, peer: Endpoint, k: nat)
    requires Reached(t, moves, side, e, peer)
    requires e.udpConnected || e.reason.AllDone?
    requires k < |e.snd.log|
    ensures e.snd.next == |e.snd.log|
    ensures k in e.snd.packets || (k in peer.rcv.got && peer.rcv.got[k] == e.snd.log[k])
  {
    hide Reached, EndOk;
    ReachedOk(t, moves, side, e, peer);
    NextIsNumbered(e);
  }

  lemma NextIsNumbered(e: Endpoint)
    requires EndOk(e)
    ensures e.snd.next == |e.snd.log|
  {
    hide RecvOk, RateOkAt, Counted, Paced, AllTruthful, StreamIn, EndsWithBye, ReasonOk;
    hide PacketsOk, OutboxOk, ControlOk, AllBudgetsOk, Total, QueueBytes, LogOk;
  }

  lemma StartConserved(t: Tunnel, side: Side)
    requires Start(t)
    ensures Conserved(t.End(side).snd)
  {
    var cfg: Config, i: nat, j: nat, m: nat, n: nat :| t == Tunnel(Initial(cfg, i, m), Initial(cfg, j, n));
    var log := [Datagram(Hello, 0, [])];
    assert t.End(side).snd.log == log;
    assert LogContents(log, 1) == LogContents(log, 0) + [];
  }

  /** Exactly when bytes are lost: as long as UDP is open, what was read from TCP is what
      the other side wrote, then what is numbered and not written yet, then what waits to
      be numbered, if and only if no step so far read or flushed bytes after the peer's
      stream had ended. */
  lemma StreamIsConserved(t: Tunnel, moves: seq<Move>, side: Side, e: Endpoint, peer: Endpoint)
    requires Reached(t, moves, side, e, peer) && e.udpConnected
    ensures peer.rcv.tcpOut <= LogContents(e.snd.log, |e.snd.log|) <= e.snd.tcpIn
    ensures var numbered := LogContents(e.snd.log, |e.snd.log|);
      e.snd.tcpIn == peer.rcv.tcpOut + numbered[|peer.rcv.tcpOut|..] + e.snd.data <==> NoDiscard(t, moves, side)
    ensures !Finished(e.rcv) ==> NoDiscard(t, moves, side)
  {
    hide Reached, Link, EndOk, EndCore, Contents, LogContents, NoDiscard, RecvOk, LogOk, OutboxOk, GotOk, Finished;
    FateOfRun(t, moves, side, e, peer);
    ReachedOk(t, moves, side, e, peer);
    WrittenIsArrived(peer);
    EndParts(e);
    StreamOf(e);
    ArrivedIsNumbered(e, peer);
    Reassembled(peer.rcv.tcpOut, LogContents(e.snd.log, |e.snd.log|), e.snd.data);
  }

  lemma WrittenIsArrived(e: Endpoint)
    requires EndOk(e)
    ensures e.rcv.tcpOut <= Contents(e.rcv.got, e.rcv.master)
  {
    EndParts(e);
    hide EndOk, EndCore, Contents, GotOk, Kept, AllStoredOk, FinalOk, StreamOpen, Total;
  }

  lemma Reassembled(out: seq<byte>, numbered: seq<byte>, data: seq<byte>)
    requires out <= numbered
    ensures out + numbered[|out|..] + data == numbered + data
  {
    assert numbered == out + numbered[|out|..];
  }

  lemma FateOfRun(t: Tunnel, moves: seq<Move>, side: Side, e: Endpoint, peer: Endpoint)
    requires Reached(t, moves, side, e, peer) && e.udpConnected
    ensures Conserved(e.snd) <==> NoDiscard(t, moves, side)
  {
    hide Start, ValidRun, After, TunnelOk, NoDiscard, Conserved, Lossy;
    StartOk(t);
    StartConserved(t, side);
    RunFate(t, moves, side);
  }

  /** With nothing dropped, the two ends agree byte for byte: when the peer passed on
      every numbered packet, it wrote everything but what waits to be numbered. */
  lemma AllDelivered(t: Tunnel, moves: seq<Move>, side: Side, e: Endpoint, peer: Endpoint)
    requires Reached(t, moves, side, e, peer)
    requires e.udpConnected && !Finished(e.rcv)
    requires peer.tcpConnected && peer.rcv.tcpNext == e.snd.next
    ensures peer.rcv.tcpOut + e.snd.data == e.snd.tcpIn
  {
    hide Reached, Link, EndOk, EndCore, Contents, LogContents;
    ReachedOk(t, moves, side, e, peer);
    EndParts(peer);
    CoreParts(e) by { EndParts(e); }
    ArrivedIsNumbered(e, peer);
    NextIsNumbered(e);
    assert peer.rcv.tcpNext == peer.rcv.master == |e.snd.log|;
    assert peer.rcv.tcpOut + [] == peer.rcv.tcpOut;
  }

  // ---------- the end of the stream ----------

  /** `isNoMoreDataWillBeSent` means what it says: the peer has received everything that
      was numbered, and in every continuation at most one packet more is numbered, which
      closes the stream. */
  lemma NoMoreDataMeansIt(t: Tunnel, moves: seq<Move>, more: seq<Move>, side: Side, e: Endpoint, peer: Endpoint)
    requires Reached(t, moves, side, e, peer) && ValidRun(After(t, moves), more)
    requires e.udpConnected && IsNoMoreDataWillBeSent(e)
    ensures forall k: nat :: k < |e.snd.log| ==> k in peer.rcv.got && peer.rcv.got[k] == e.snd.log[k]
    ensures OnlyBye(e.snd.log, After(After(t, moves), more).End(side).snd.log)
  {
    hide EndOk, Start, ValidRun, After, OnlyBye;
    StartOk(t);
    RunKeeps(t, moves);
    QuietRun(After(t, moves), more, side);
  }

  /** A closing packet is the last one a side ever numbers. */
  lemma ByeIsLast(t: Tunnel, moves: seq<Move>, more: seq<Move>, side: Side, e: Endpoint, peer: Endpoint, i: nat)
    requires Reached(t, moves, side, e, peer) && ValidRun(After(t, moves), more)
    requires i < |e.snd.log| && e.snd.log[i].IsBye()
    ensures var f := After(After(t, moves), more).End(side);
      i == |e.snd.log| - 1 && f.snd.log == e.snd.log
  {
    hide EndOk, EndCore, Link, Start, ValidRun, After, Grows, RecvGrows, RecvOk, GotOk, OutboxOk, Invariants.AllTruthful;
    StartOk(t);
    RunKeeps(t, moves);
    RunKeeps(After(t, moves), more);
    EndParts(e);
    GrowsParts(e, After(After(t, moves), more).End(side));
  }

  /** A final index, once set, is the receiver's master index and the number of packets
      the peer numbered. */
  lemma FinalIsPeerNext(e: Endpoint, peer: Endpoint)
    requires EndOk(e) && EndOk(peer) && Link(e, peer) && |e.snd.log| < INT_MAX
    ensures Finished(peer.rcv) <==> peer.rcv.final != INT_MAX
    ensures Finished(peer.rcv) ==> EndsWithBye(e.snd.log) && peer.rcv.final == |e.snd.log|
  {
    hide EndOk, EndCore, Contents, LogContents, Covered, RecvOk, Kept, GotOk, OutboxOk, Invariants.AllTruthful;
    EndParts(e);
    EndParts(peer);
    ArrivedIsNumbered(e, peer);
    ReceiverParts(peer.rcv, Window(peer.cfg), peer.cfg.udpSendPacketSize, peer.tcpConnected);
    if Finished(peer.rcv) {
      var m := peer.rcv.master;
      assert m > 0 && m - 1 in peer.rcv.got && peer.rcv.got[m - 1].IsBye();
      assert e.snd.log[m - 1].IsBye();
    }
  }

  lemma ReceiverParts(r: Receiver, window: int, packetSize: int, open: bool)
    requires RecvOk(r, window, packetSize, open)
    ensures FinalOk(r.got, r.master, r.final) && Kept(r.packets, r.got, r.tcpNext, window)
    ensures r.tcpNext <= r.master <= r.final <= INT_MAX
    ensures r.master < r.final ==> r.master !in r.packets
    ensures Contiguous(r.got, r.master)
  {
    hide Total, Contents, StreamOpen, FinalOk, GotOk, AllStoredOk, Kept, Contiguous;
  }

  /** A finished receiver stays as it is: final index, master index and everything it
      received, and its peer numbers nothing more. */
  lemma FinalIsForever(t: Tunnel, moves: seq<Move>, more: seq<Move>, side: Side, e: Endpoint, peer: Endpoint)
    requires Reached(t, moves, side, e, peer) && ValidRun(After(t, moves), more)
    requires peer.rcv.final != INT_MAX
    ensures var f, g := After(After(t, moves), more).End(side), After(After(t, moves), more).End(side.Other());
      && g.rcv.final == peer.rcv.final == g.rcv.master == f.snd.next == e.snd.next
      && g.rcv.got == peer.rcv.got
  {
    hide EndOk, Link, Start, ValidRun, After, Grows, EndsWithBye;
    StartOk(t);
    RunKeeps(t, moves);
    RunKeeps(After(t, moves), more);
    var f, g := After(After(t, moves), more).End(side), After(After(t, moves), more).End(side.Other());
    FinalIsPeerNext(e, peer);
    FinalIsPeerNext(f, g);
    GrowsParts(e, f);
    GrowsParts(peer, g);
    NextIsNumbered(e);
    NextIsNumbered(f);
  }

  /** A receiver that has everything the peer numbered has it in order, and is finished
      exactly when the last packet is a closing packet. */
  lemma HasAllMeansFinished(e: Endpoint, peer: Endpoint)
    requires EndOk(e) && EndOk(peer) && Link(e, peer) && |e.snd.log| < INT_MAX
    requires forall k: nat :: k < |e.snd.log| ==> k in peer.rcv.got
    ensures peer.rcv.master == |e.snd.log|
    ensures Finished(peer.rcv) <==> EndsWithBye(e.snd.log)
  {
    hide EndOk, EndCore, Contents, LogContents, Covered, RecvOk, GotOk, OutboxOk, LogOk, Invariants.AllTruthful;
    EndParts(e);
    EndParts(peer);
    ArrivedIsNumbered(e, peer);
    FinalIsPeerNext(e, peer);
    ReceiverParts(peer.rcv, Window(peer.cfg), peer.cfg.udpSendPacketSize, peer.tcpConnected);
    var m := peer.rcv.master;
    assert m < |e.snd.log| ==> m in peer.rcv.got;
    assert m < |e.snd.log| ==> Finished(peer.rcv);
    assert m == |e.snd.log|;
    if EndsWithBye(e.snd.log) {
      assert m - 1 in peer.rcv.got;
    }
  }

  /** A connection that closed UDP because everything is done leaves nothing behind: the
      peer received every numbered packet, and the closing packet if there was one. */
  lemma DoneMeansReceived(t: Tunnel, moves: seq<Move>, side: Side, e: Endpoint, peer: Endpoint)
    requires Reached(t, moves, side, e, peer) && e.reason.AllDone?
    ensures e.snd.next == |e.snd.log|
    ensures forall k: nat :: k < |e.snd.log| ==> k in peer.rcv.got && peer.rcv.got[k] == e.snd.log[k]
    ensures peer.rcv.master == e.snd.next
    ensures EndsWithBye(e.snd.log) ==> peer.rcv.final == e.snd.next
  {
    hide Reached, EndOk, EndsWithBye, Finished;
    ReachedOk(t, moves, side, e, peer);
    NextIsNumbered(e);
    DoneIsEmpty(e);
    assert forall k: nat :: k < |e.snd.log| ==> k in peer.rcv.got;
    HasAllMeansFinished(e, peer);
    FinalIsPeerNext(e, peer);
    FinishedAtMaster(peer.rcv);
  }

  /** The close handshake: a side that has nothing more to send after its closing packet
      says goodbye with the index at which the peer's stream ended, now and in every
      continuation, and the peer then stops confirming and shortens its wait. */
  lemma GoodbyeIsUnderstood(t: Tunnel, moves: seq<Move>, more: seq<Move>, side: Side, e: Endpoint, peer: Endpoint, now: nat, later: nat)
    requires Reached(t, moves, side, e, peer) && ValidRun(After(t, moves), more)
    requires e.udpConnected && NothingMore(e) && |e.snd.log| > 0 && e.snd.log[|e.snd.log| - 1].IsBye()
    ensures |BuildByeBye(e, now).snd.control| == |e.snd.control| + 1
    ensures var d := BuildByeBye(e, now).snd.control[|e.snd.control|].dg;
      var p := After(After(t, moves), more).End(side.Other());
      && d.kind.ByeBye? && d.index == p.rcv.master == p.rcv.final
      && (p.udpConnected ==>
            var f := UdpRead(p, d, later);
            && (f.udpConnected ==>
                  && f.remainConfirmation == 0 && f.timers.buildConfirmations < 0
                  && (forall i :: 0 <= i < |f.snd.control| ==> !f.snd.control[i].dg.kind.Confirmation?))
            && (p.timers.udpCloseWait >= 0 ==>
                  f.udpConnected && f.timers.udpCloseWait
                    == Min(p.timers.udpCloseWait, later + p.cfg.udpResendUs * p.cfg.confirmationResendCount / 3 + p.cfg.udpResendUs)))
  {
    hide EndOk, Link, Start, ValidRun, After, UdpRead, BuildByeBye, Grows, Finished, BothGrow;
    StartOk(t);
    RunKeeps(t, moves);
    RunKeeps(After(t, moves), more);
    NextIsNumbered(e);
    assert e.snd.packets == map[];
    EverythingReceived(e, peer);
    HasAllMeansFinished(e, peer);
    FinalIsPeerNext(e, peer);
    FinalIsForever(t, moves, more, side, e, peer);
    QueuesGoodbye(e, now);
    var p := After(After(t, moves), more).End(side.Other());
    var d := BuildByeBye(e, now).snd.control[|e.snd.control|].dg;
    if p.udpConnected {
      ReadsGoodbye(p, d, later);
    }
  }

  lemma EverythingReceived(e: Endpoint, peer: Endpoint)
    requires Link(e, peer) && e.udpConnected && e.snd.packets == map[]
    ensures forall k: nat :: k < |e.snd.log| ==> k in peer.rcv.got
  {
    hide Linked;
  }

  lemma FinishedAtMaster(r: Receiver)
    ensures Finished(r) ==> r.final == r.master
  {
  }

  lemma DoneIsEmpty(e: Endpoint)
    requires EndOk(e) && e.reason.AllDone?
    ensures e.snd.packets == map[]
  {
    EndParts(e);
    CoreParts(e);
    hide EndOk, EndCore;
  }

  // ---------- effort, memory, rate ----------

  /** No packet is sent more often than the budget, and the close for want of an answer
      comes only after the whole budget of one packet, spread over as long as the peer's
      side waits before it closes. */
  lemma GivesUpOnlyAfterBudget(t: Tunnel, moves: seq<Move>, side: Side, e: Endpoint, peer: Endpoint, k: nat)
    requires Reached(t, moves, side, e, peer)
    ensures k in e.snd.attempts ==> 1 <= e.snd.attempts[k].count <= e.cfg.udpResendCount + 1
    ensures e.reason == NoAnswer(k) ==>
      && k in e.snd.attempts && e.snd.attempts[k].count == e.cfg.udpResendCount + 1
      && e.clock - e.snd.attempts[k].firstUs >= CloseWaitUs(peer.cfg)
  {
    hide Reached, EndOk;
    ReachedOk(t, moves, side, e, peer);
    BudgetsOf(e);
    if e.reason == NoAnswer(k) {
      assert (e.cfg.udpResendCount + 1) * e.cfg.udpResendUs == e.cfg.udpResendUs * e.cfg.udpResendCount + e.cfg.udpResendUs;
    }
  }

  lemma BudgetsOf(e: Endpoint)
    requires EndOk(e)
    ensures forall k: nat :: k in e.snd.attempts ==> 1 <= e.snd.attempts[k].count <= e.cfg.udpResendCount + 1
    ensures e.reason.NoAnswer? ==> GaveUp(e.cfg, e.snd.attempts, e.reason.index, e.clock)
  {
    EndParts(e);
    CoreParts(e);
    hide EndOk, EndCore, LogOk, OutboxOk, PacketsOk, ControlOk, Total, QueueBytes, RecvOk;
  }

  /** Selective repeat: of what the peer sent exactly the wanted packets are received,
      in whatever order they arrive, and each announces full rounds of confirmations. */
  lemma AcceptsWhatIsWanted(t: Tunnel, moves: seq<Move>, side: Side, e: Endpoint, peer: Endpoint, d: Datagram, now: int)
    requires Reached(t, moves, side, e, peer) && e.udpConnected && e.clock <= now
    requires d in peer.snd.outbox
    ensures var f := Step(e, Receive(d), now);
      && f.rcv.got == (if IsWanted(e, d) then e.rcv.got[d.index := d] else e.rcv.got)
      && (IsWanted(e, d) && f.udpConnected ==>
            && f.remainConfirmation == e.cfg.confirmationResendCount
            && f.timers.buildConfirmations == Sooner(e.timers.buildConfirmations, now + e.cfg.buildConfirmationsUs))
  {
    hide Reached, EndOk, UdpRead, Honest, AckedBy, Link, Keeps;
    ReachedOk(t, moves, side, e, peer);
    PeerIsHonest(e, peer, d);
    ClockNow(e);
    ClockStep(e, now);
    var c := e.(clock := now);
    HonestAnyTime(e, d, now);
    if IsWanted(c, d) {
      AcceptsInAnyOrder(c, d, now);
      SameDatagram(e, peer, d);
    } else if d.IsNumbered() {
      IgnoresOthers(c, d, now);
    } else {
      OnlyNumberedIsReceived(c, d, now);
    }
  }

  lemma SameDatagram(e: Endpoint, peer: Endpoint, d: Datagram)
    requires Link(peer, e) && 0 <= d.index < |peer.snd.log| && d == peer.snd.log[d.index]
    ensures d.index in e.rcv.got ==> e.rcv.got[d.index := d] == e.rcv.got
  {
    hide Covered;
  }

  lemma OnlyNumberedIsReceived(e: Endpoint, d: Datagram, now: int)
    requires EndOk(e) && Honest(e, d) && !d.IsNumbered()
    ensures UdpRead(e, d, now).rcv.got == e.rcv.got
  {
    hide EndOk, UdpRead, Grows, Covers, AckedBy;
    UdpReadKeeps(e, d, now);
  }

  lemma ClockNow(e: Endpoint)
    requires EndOk(e)
    ensures e.clock >= 0
  {
    hide SendOk, RecvOk, RateOkAt, Counted, Paced, AllTruthful, StreamIn, EndsWithBye, ReasonOk;
  }

  lemma HonestAnyTime(e: Endpoint, d: Datagram, now: int)
    requires Honest(e, d)
    ensures Honest(e.(clock := now), d)
  {
  }

  /** The receive buffer is bounded by the configured sizes. */
  lemma MemoryIsBounded(t: Tunnel, moves: seq<Move>, side: Side, e: Endpoint, peer: Endpoint)
    requires Reached(t, moves, side, e, peer)
    ensures |KeysFrom(e.rcv.packets, e.rcv.tcpNext)| <= Window(e.cfg) + 1
    ensures e.tcpConnected ==> e.rcv.bufferSize <= 2 * e.cfg.udpMaxReceiveBufferSize + e.cfg.udpSendPacketSize
  {
    hide Reached, EndOk, EndCore, RecvOk, KeysFrom;
    ReachedOk(t, moves, side, e, peer);
    EndParts(e);
    MemoryBound(e.rcv, Window(e.cfg), e.cfg.udpSendPacketSize, e.tcpConnected);
    if e.tcpConnected {
      MemoryBoundConfigured(e.rcv, e.cfg.udpMaxReceiveBufferSize, e.cfg.udpSendPacketSize);
    }
  }

  /** Every counter is the sum it stands for. */
  lemma CountersAreSums(t: Tunnel, moves: seq<Move>, side: Side, e: Endpoint, peer: Endpoint)
    requires Reached(t, moves, side, e, peer)
    ensures e.snd.bufferSize == Total(e.snd.packets, Bytes) + QueueBytes(e.snd.control)
    ensures e.rcv.bufferSize == Total(e.rcv.packets, Bytes)
    ensures e.udpConnected ==> e.snd.toSend == Total(e.snd.packets, Unsent)
    ensures forall k: nat :: k in e.snd.packets ==> !e.snd.packets[k].confirmed
    ensures forall k: nat :: k in e.rcv.packets ==> (e.rcv.packets[k].sent <==> k < e.rcv.tcpNext)
  {
    hide Reached, EndOk, EndCore, Total, QueueBytes, LogOk, OutboxOk, ControlOk, AllBudgetsOk, Contents, StreamOpen, FinalOk, GotOk;
    ReachedOk(t, moves, side, e, peer);
    EndParts(e);
    CoreParts(e);
    forall k: nat | k in e.rcv.packets
      ensures e.rcv.packets[k].sent <==> k < e.rcv.tcpNext
    {
      assert StoredOk(e.rcv.packets[k], e.rcv.got[k], k, e.rcv.tcpNext, e.rcv.master);
    }
  }

  lemma CloseForgets(e: Endpoint, reason: CloseReason, now: int)
    requires e.udpConnected
    ensures UdpClose(e, reason, now).snd.packets == map[] && UdpClose(e, reason, now).snd.toSend == e.snd.toSend
  {
  }

  /** `udpClose` drops the packets but keeps their count, which is then right exactly when
      none of them was waiting to be sent. */
  lemma CountAfterClose(t: Tunnel, moves: seq<Move>, side: Side, e: Endpoint, peer: Endpoint, reason: CloseReason, now: int)
    requires Reached(t, moves, side, e, peer) && e.udpConnected
    ensures var f := UdpClose(e, reason, now).snd;
      f.toSend == Total(f.packets, Unsent) <==> forall k: nat :: k in e.snd.packets ==> e.snd.packets[k].sent
  {
    hide Reached, UdpClose, Total;
    CountersAreSums(t, moves, side, e, peer);
    CloseForgets(e, reason, now);
    TotalPositive(e.snd.packets, Unsent);
    TotalZero(map[], Unsent);
  }

  /** The live measurement windows are consecutive and end with the only open one, and
      no window counts more successes, or more failures, than bytes were sent in it. While
      UDP is open both sums and what is in flight make up what was sent and, once more, the
      packets confirmed while they waited to be sent again; so the sums together exceed
      what was sent exactly when more was confirmed late than is in flight. */
  lemma MeasuresAreSound(t: Tunnel, moves: seq<Move>, side: Side, e: Endpoint, peer: Endpoint, m: nat)
    requires Reached(t, moves, side, e, peer) && m in e.rate.measures
    ensures m <= e.rate.index && forall j: nat :: m <= j <= e.rate.index ==> j in e.rate.measures
    ensures e.rate.measures[m].endUs == -1 <==> m == e.rate.index
    ensures 0 <= e.rate.measures[m].successSize <= e.rate.measures[m].size
    ensures 0 <= e.rate.measures[m].failSize <= e.rate.measures[m].size
    ensures e.udpConnected ==>
      var w := e.rate.measures[m];
      && w.successSize + w.failSize + Total(e.snd.packets, InFlight(m)) == w.size + LateIn(e.snd.late, m)
      && (w.successSize + w.failSize <= w.size <==> LateIn(e.snd.late, m) <= Total(e.snd.packets, InFlight(m)))
  {
    hide Reached, EndOk, EndCore, Total, LateIn;
    ReachedOk(t, moves, side, e, peer);
    EndParts(e);
    CoreParts(e);
    if e.udpConnected {
      SumWithinSizeIff(e.cfg, e.rate, e.snd.packets, e.snd.late, m);
    }
  }

  /** The step that makes the sums exceed what was sent: a confirmation of a packet that
      waits to be sent again, when less than its size is left in flight. */
  lemma LateConfirmationIff(t: Tunnel, moves: seq<Move>, side: Side, e: Endpoint, peer: Endpoint, k: nat)
    requires Reached(t, moves, side, e, peer) && e.udpConnected && k in e.snd.packets
    requires e.snd.packets[k].measureIndex >= 0 && e.snd.packets[k].measureIndex in e.rate.measures
    requires LateIn(e.snd.late, e.snd.packets[k].measureIndex) == 0
    ensures var index: nat := e.snd.packets[k].measureIndex;
      var w := Credit(e.rate.measures[index], true, e.snd.packets[k].Size());
      w.successSize + w.failSize <= w.size
      <==> e.snd.packets[k].sent || e.snd.packets[k].Size() <= Total(e.snd.packets - {k}, InFlight(index))
  {
    hide Reached, EndOk, EndCore, Total, LateIn, Counted;
    ReachedOk(t, moves, side, e, peer);
    EndParts(e);
    CoreParts(e);
    ConfirmationWithinSizeIff(e.cfg, e.rate, e.snd.packets, e.snd.late, k);
  }

  ghost predicate SideMeasured(e: Endpoint) {
    MeasuredOk(e.cfg, e.rate, e.pacer.counted)
  }

  lemma StartMeasured(t: Tunnel, side: Side)
    requires Start(t)
    ensures SideMeasured(t.End(side))
  {
  }

  lemma MoveMeasured(t: Tunnel, m: Move, side: Side)
    requires TunnelOk(t) && Countable(t) && Possible(t, m) && SideMeasured(t.End(side))
    ensures SideMeasured(Apply(t, m).End(side))
  {
    hide EndOk, Link, Step, Ready, CheckCrc32, Parse, Frame, MeasuredOk;
    if m.side == side {
      match m {
        case Local(_, action, now) => StepMeasured(t.End(side), action, now);
        case Arrive(_, raw, now) => StepMeasured(t.End(side), Receive(Parse(raw)), now);
      }
    }
  }

  lemma {:induction false} RunMeasured(t: Tunnel, moves: seq<Move>, side: Side)
    requires TunnelOk(t) && ValidRun(t, moves) && SideMeasured(t.End(side))
    ensures SideMeasured(After(t, moves).End(side))
    decreases |moves|
  {
    hide TunnelOk, Countable, Possible, Apply, SideMeasured;
    if moves != [] {
      MoveKeeps(t, moves[0]);
      MoveMeasured(t, moves[0], side);
      RunMeasured(Apply(t, moves[0]), moves[1..], side);
    }
  }

  lemma ReachedMeasured(t: Tunnel, moves: seq<Move>, side: Side, e: Endpoint, peer: Endpoint)
    requires Reached(t, moves, side, e, peer)
    ensures SideMeasured(e)
  {
    hide Start, ValidRun, After, TunnelOk, SideMeasured;
    StartOk(t);
    StartMeasured(t, side);
    RunMeasured(t, moves, side);
  }

  /** A live measure has counted exactly the sends of packets made in it: how many, their
      bytes, and the intervals in force at each. */
  lemma MeasuresCountSends(t: Tunnel, moves: seq<Move>, side: Side, e: Endpoint, peer: Endpoint, m: nat)
    requires Reached(t, moves, side, e, peer) && m in e.rate.measures
    ensures e.rate.measures[m].count == CountOf(e.pacer.counted, m)
    ensures e.rate.measures[m].size == SizeOf(e.pacer.counted, m)
    ensures e.rate.measures[m].summaryIntervalUs == IntervalsOf(e.pacer.counted, m)
  {
    hide Reached, Ordered, EndsWhenFull;
    ReachedMeasured(t, moves, side, e, peer);
  }

  /** A live measure is ended by the send that makes its size or its age reach the
      setting, at the time of that send and by no other; the next one begins there. */
  lemma MeasureEndsWhenFull(t: Tunnel, moves: seq<Move>, side: Side, e: Endpoint, peer: Endpoint, i: nat)
    requires Reached(t, moves, side, e, peer) && i < |e.pacer.counted| && e.pacer.counted[i].measure in e.rate.measures
    ensures var s := e.pacer.counted[i];
      var m := e.rate.measures[s.measure];
      var full := SizeOf(e.pacer.counted[..i + 1], s.measure) >= e.cfg.udpMaxSentMeasureSize
               || s.at - m.beginUs >= e.cfg.udpMaxSentMeasureUs;
      && (full <==> s.measure < e.rate.index && forall j :: i < j < |e.pacer.counted| ==> e.pacer.counted[j].measure != s.measure)
      && (full ==> m.endUs == s.at && (s.measure + 1 in e.rate.measures ==> e.rate.measures[s.measure + 1].beginUs == s.at))
    ensures forall m: nat :: m in e.rate.measures && m < e.rate.index ==> e.rate.measures[m].count > 0
  {
    hide Reached, Summed, Ordered, SizeOf;
    ReachedMeasured(t, moves, side, e, peer);
    var m := e.rate.measures[e.pacer.counted[i].measure];
    assert Fills(e.cfg, e.pacer.counted, i, m.beginUs) <==>
      e.pacer.counted[i].measure < e.rate.index && IsLast(e.pacer.counted, i);
  }

  /** Pacing: in a window of planned times of length T during which no interval below I
      was in force, at most T / I + 1 datagrams are sent. */
  lemma PaceIsKept(t: Tunnel, moves: seq<Move>, side: Side, e: Endpoint, peer: Endpoint, i: nat, j: nat, least: int, length: nat)
    requires Reached(t, moves, side, e, peer) && i <= j < |e.pacer.sends| && least > 0
    requires forall k :: i < k <= j ==> e.pacer.sends[k].floor >= least
    requires e.pacer.sends[j].planned - e.pacer.sends[i].planned <= length
    ensures j - i + 1 <= length / least + 1
  {
    hide Reached, EndOk, EndCore, Spaced;
    ReachedOk(t, moves, side, e, peer);
    EndParts(e);
    CoreParts(e);
    WindowBound(e.pacer.sends, i, j, least, length);
  }

  /** No run takes anything back: bytes, numbered packets, sends and their planned times,
      and what was received stay. */
  lemma HistoryOnlyGrows(t: Tunnel, moves: seq<Move>, more: seq<Move>, side: Side, e: Endpoint, peer: Endpoint)
    requires Reached(t, moves, side, e, peer) && ValidRun(After(t, moves), more)
    ensures var f := After(After(t, moves), more).End(side);
      && e.snd.tcpIn <= f.snd.tcpIn && e.rcv.tcpOut <= f.rcv.tcpOut && e.snd.log <= f.snd.log
      && e.pacer.sends <= f.pacer.sends && e.pacer.lastSentUs <= f.pacer.lastSentUs
      && (forall k: nat :: k in e.rcv.got ==> k in f.rcv.got && f.rcv.got[k] == e.rcv.got[k])
      && (f.udpConnected ==> e.udpConnected) && (f.tcpConnected ==> e.tcpConnected)
  {
    hide EndOk, Link, Start, ValidRun, After, EndsWithBye;
    StartOk(t);
    RunKeeps(t, moves);
    RunKeeps(After(t, moves), more);
  }

  // ---------- wake-ups ----------

  ghost predicate BothAwake(t: Tunnel) {
    Awake(t.left) && Awake(t.right)
  }

  lemma StartAwake(t: Tunnel)
    requires Start(t)
    ensures BothAwake(t)
  {
  }

  lemma MoveAwake(t: Tunnel, m: Move)
    requires TunnelOk(t) && Countable(t) && Possible(t, m) && BothAwake(t)
    ensures BothAwake(Apply(t, m))
  {
    hide EndOk, Link, Step, Ready, CheckCrc32, Parse, Frame, Awake, Honest;
    var e, peer := t.End(m.side), t.End(m.side.Other());
    match m {
      case Local(side, action, now) =>
        StepAwake(e, action, now);
      case Arrive(side, raw, now) =>
        if CheckCrc32(raw) {
          var d :| d in peer.snd.outbox && raw == Frame(d);
          SentIsReadable(peer, d);
          PeerIsHonest(e, peer, d);
          assert Ready(e, Receive(d), now) by { AlwaysReady(e, d, now); }
          StepAwake(e, Receive(d), now);
        }
    }
  }

  lemma AlwaysReady(e: Endpoint, d: Datagram, now: int)
    requires 0 <= e.clock <= now
    ensures Ready(e, Receive(d), now)
  {
  }

  lemma {:induction false} RunAwake(t: Tunnel, moves: seq<Move>)
    requires TunnelOk(t) && ValidRun(t, moves) && BothAwake(t)
    ensures BothAwake(After(t, moves))
    decreases |moves|
  {
    hide TunnelOk, Countable, Possible, Apply, BothAwake;
    if moves != [] {
      MoveKeeps(t, moves[0]);
      MoveAwake(t, moves[0]);
      RunAwake(Apply(t, moves[0]), moves[1..]);
    }
  }

  /** No lost wake-up, in any run: as long as UDP is open, waiting packets have the
      write event armed, each unanswered packet has the resend event armed no later than
      its time, unflushed bytes have the flush event armed, and announced rounds theirs;
      as long as TCP is open, what arrived contiguously has the TCP write event armed;
      and a connection closed on both sides has its removal armed. */
  lemma NoWakeupIsLost(t: Tunnel, moves: seq<Move>, side: Side, e: Endpoint, peer: Endpoint)
    requires Reached(t, moves, side, e, peer)
    ensures e.udpConnected && (e.snd.control != [] || exists k: nat :: k in e.snd.packets && !e.snd.packets[k].sent)
      ==> e.pacer.udpWrite >= 0
    ensures e.udpConnected ==> forall k: nat :: k in e.snd.packets && e.snd.packets[k].sent ==>
      0 <= e.timers.udpResend <= e.snd.packets[k].sentTimeUs + e.cfg.udpResendUs
    ensures e.udpConnected && e.snd.data != [] ==> e.timers.buildUdpPackets >= 0
    ensures e.udpConnected && e.remainConfirmation > 0 ==> e.timers.buildConfirmations >= 0
    ensures e.udpConnected && e.remainByeBye > 0 ==> e.timers.buildByeBye >= 0
    ensures e.tcpConnected && e.rcv.tcpNext < e.rcv.master ==> e.timers.tcpWrite >= 0
    ensures !e.tcpConnected && !e.udpConnected ==> e.timers.close >= 0
  {
    ReachedAwake(t, moves, side, e, peer);
    hide Reached, EndOk;
    ReachedOk(t, moves, side, e, peer);
    if e.udpConnected {
      WaitingIsCounted(e);
    }
  }

  lemma ReachedAwake(t: Tunnel, moves: seq<Move>, side: Side, e: Endpoint, peer: Endpoint)
    requires Reached(t, moves, side, e, peer)
    ensures Awake(e)
  {
    hide Start, ValidRun, After, TunnelOk, Awake;
    StartOk(t);
    StartAwake(t);
    RunAwake(t, moves);
  }

  // ---------- deadlines ----------

  ghost predicate Settled(e: Endpoint, bound: int) {
    Timely(e, bound) && Drained(e)
  }

  lemma StartSettled(t: Tunnel, side: Side, bound: int)
    requires Start(t) && t.End(side).rate.intervalUs <= bound && t.End(side).cfg.udpResendUs / 3 <= bound
    ensures Settled(t.End(side), bound)
  {
    var cfg: Config, i: nat, j: nat, m: nat, n: nat :| t == Tunnel(Initial(cfg, i, m), Initial(cfg, j, n));
    assert cfg.udpResendUs * (cfg.udpResendCount + 1) >= 0;
  }

  lemma MoveSettled(t: Tunnel, m: Move, side: Side, bound: int)
    requires TunnelOk(t) && Countable(t) && Possible(t, m) && Settled(t.End(side), bound)
    ensures Settled(Apply(t, m).End(side), bound)
  {
    hide EndOk, Link, Step, Ready, CheckCrc32, Parse, Frame, Honest, Timely, Drained;
    var e, peer := t.End(side), t.End(side.Other());
    if m.side == side {
      match m {
        case Local(_, action, now) =>
          StepTimely(e, action, now, bound);
          StepDrained(e, action, now);
        case Arrive(_, raw, now) =>
          if CheckCrc32(raw) {
            var d :| d in peer.snd.outbox && raw == Frame(d);
            SentIsReadable(peer, d);
            PeerIsHonest(e, peer, d);
            assert Ready(e, Receive(d), now) by { AlwaysReady(e, d, now); }
            StepTimely(e, Receive(d), now, bound);
            StepDrained(e, Receive(d), now);
          }
      }
    }
  }

  lemma {:induction false} RunSettled(t: Tunnel, moves: seq<Move>, side: Side, bound: int)
    requires TunnelOk(t) && ValidRun(t, moves) && Settled(t.End(side), bound)
    ensures Settled(After(t, moves).End(side), bound)
    decreases |moves|
  {
    hide TunnelOk, Countable, Possible, Apply, Settled;
    if moves != [] {
      MoveKeeps(t, moves[0]);
      MoveSettled(t, moves[0], side, bound);
      RunSettled(Apply(t, moves[0]), moves[1..], side, bound);
    }
  }

  lemma ReachedSettled(t: Tunnel, moves: seq<Move>, side: Side, e: Endpoint, peer: Endpoint, bound: int)
    requires Reached(t, moves, side, e, peer)
    requires t.End(side).rate.intervalUs <= bound && t.End(side).cfg.udpResendUs / 3 <= bound
    ensures Settled(e, bound)
  {
    hide Start, ValidRun, After, TunnelOk, Settled;
    StartOk(t);
    StartSettled(t, side, bound);
    RunSettled(t, moves, side, bound);
  }

  /** No event is armed further ahead than its delay, in any run; the next datagram is due
      within the interval the connection began with or a third of the resend time. */
  lemma EventsAreTimely(t: Tunnel, moves: seq<Move>, side: Side, e: Endpoint, peer: Endpoint)
    requires Reached(t, moves, side, e, peer)
    ensures e.timers.tcpWrite <= e.clock && e.timers.close <= e.clock
    ensures e.timers.buildUdpPackets <= e.clock + e.cfg.buildUdpPacketsUs
    ensures e.timers.buildConfirmations <= e.clock + e.cfg.buildConfirmationsUs
    ensures e.timers.buildByeBye <= e.clock + e.cfg.buildConfirmationsUs
    ensures e.timers.udpResend <= e.clock + e.cfg.udpResendUs
    ensures e.timers.udpCloseWait <= e.clock + e.cfg.udpResendUs * (e.cfg.udpResendCount + 1)
    ensures e.timers.udpCloseWait >= 0 ==> e.rcv.master == e.rcv.final
    ensures var most := Max(t.End(side).rate.intervalUs, t.End(side).cfg.udpResendUs / 3);
      0 <= e.rate.intervalUs <= most && e.pacer.lastSentUs <= e.clock && e.pacer.udpWrite <= e.clock + most
  {
    hide Reached, Drained;
    ReachedSettled(t, moves, side, e, peer, Max(t.End(side).rate.intervalUs, t.End(side).cfg.udpResendUs / 3));
  }

  /** As long as UDP is open, a side whose TCP is closed has passed over everything that
      arrived contiguously, so that waiting for TCP never keeps UDP open. */
  lemma ClosedIsDrained(t: Tunnel, moves: seq<Move>, side: Side, e: Endpoint, peer: Endpoint)
    requires Reached(t, moves, side, e, peer) && !e.tcpConnected && e.udpConnected
    ensures e.rcv.tcpNext == e.rcv.master
  {
    hide Reached, Timely, EndOk, RecvOk;
    ReachedSettled(t, moves, side, e, peer, Max(t.End(side).rate.intervalUs, t.End(side).cfg.udpResendUs / 3));
    ReachedOk(t, moves, side, e, peer);
    EndParts(e);
    ReceiverParts(e.rcv, Window(e.cfg), e.cfg.udpSendPacketSize, e.tcpConnected);
  }

  // ---------- confirmations ----------

  /** Every round of confirmations denotes exactly what was received, in any run: an
      index was received if and only if it is below the master index or listed; each
      index is listed once and in order; each payload fits and is read to its end. */
  lemma ConfirmationsDenoteReceived(t: Tunnel, moves: seq<Move>, side: Side, e: Endpoint, peer: Endpoint)
    requires Reached(t, moves, side, e, peer) && e.cfg.udpSendPacketSize >= 10
    ensures var payloads := ConfirmationPayloads(e);
      var listed := ListedInAll(e.rcv.master, payloads);
      && (forall k: nat :: k in e.rcv.got <==> k < e.rcv.master || k in listed)
      && (forall x :: x in listed ==> x >= e.rcv.master)
      && (forall i, j :: 0 <= i < j < |listed| ==> listed[i] < listed[j])
      && (forall i :: 0 <= i < |payloads| ==>
            |payloads[i]| <= e.cfg.udpSendPacketSize && ReadEnd(payloads[i], 0) == |payloads[i]|)
  {
    hide Reached, EndOk, EndCore, RecvOk, PackAll, ListedInAll, KeysFrom;
    ReachedOk(t, moves, side, e, peer);
    EndParts(e);
    ReceivedKeys(e.rcv, Window(e.cfg), e.cfg.udpSendPacketSize, e.tcpConnected);
    var ks := Ascending(KeysFrom(e.rcv.packets, e.rcv.master));
    forall i | 0 <= i < |ks|
      ensures e.rcv.master <= ks[i] < INT_MAX
    {
      assert ks[i] in ks;
    }
    ConfirmationsExact(ks, e.rcv.master, e.cfg.udpSendPacketSize);
    assert forall k: nat :: k in AsInts(ks) <==> k in ks;
  }

  /** The packets a round of confirmations queues. */
  function ConfirmationPackets(master: int, payloads: seq<seq<byte>>): seq<Packet> {
    seq(|payloads|, i requires 0 <= i < |payloads| => Fresh(Datagram(Confirmation, master, payloads[i]), 0))
  }

  lemma {:induction false} PushAllQueues(s: Sender, master: int, payloads: seq<seq<byte>>)
    ensures PushAll(s, master, payloads).control == s.control + ConfirmationPackets(master, payloads)
    decreases |payloads|
  {
    if payloads == [] {
      assert s.control + [] == s.control;
    } else {
      var t := PushControl(s, Confirmation, master, payloads[0]);
      PushAllQueues(t, master, payloads[1..]);
      assert ConfirmationPackets(master, payloads)
          == [Fresh(Datagram(Confirmation, master, payloads[0]), 0)] + ConfirmationPackets(master, payloads[1..]);
    }
  }

  /** After a round nothing below the packet in turn is stored any more, what is at or
      above it is untouched, and the queue is what it was but for its confirmations,
      followed by the fresh ones. */
  lemma RoundPrunes(t: Tunnel, moves: seq<Move>, side: Side, e: Endpoint, peer: Endpoint, now: int)
    requires Reached(t, moves, side, e, peer) && e.udpConnected
    ensures var f := BuildConfirmations(e, now);
      && f.rcv.packets == (map k | k in e.rcv.packets && k >= e.rcv.tcpNext :: e.rcv.packets[k])
      && f.snd.control == WithoutConfirmations(e.snd.control) + ConfirmationPackets(e.rcv.master, ConfirmationPayloads(e))
  {
    hide Reached, EndOk, EndCore, RecvOk, Pruned, Dropped, PushAll, ConfirmationPayloads, QueueBytes, ConfirmationPackets, ArmUdpWrite, Total;
    ReachedOk(t, moves, side, e, peer);
    EndParts(e);
    PrunedIsTail(e.rcv, Window(e.cfg), e.cfg.udpSendPacketSize, e.tcpConnected);
    PushAllQueues(DropConfirmations(e.snd), e.rcv.master, ConfirmationPayloads(e));
  }
}
