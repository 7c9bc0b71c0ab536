/** Receiving a datagram, and any step at all, keeps the invariant. */
module PreservationStep {
  import opened Base
  import opened Confirmations
  import opened Receivers
  import opened Senders
  import opened Rates
  import opened Endpoints
  import opened Invariants
  import opened Preservation
  import opened PreservationUdp

  /** What is known of a datagram that the peer really sent. */
  ghost predicate Honest(e: Endpoint, d: Datagram) {
    && (d.kind.Confirmation? ==> forall k: nat :: k in e.snd.packets && CoveredBy(d, k) ==> k in e.snd.attempts)
    && (d.IsNumbered() ==> d.WellFormed(e.cfg.udpSendPacketSize) && 0 <= d.index < INT_MAX - 1)
  }

  ghost function AckedBy(e: Endpoint, d: Datagram): set<nat> {
    if d.kind.Confirmation? then Acked(e.snd.packets, d) else {}
  }

  // ---------- confirmations ----------

  lemma ReadConfirmationKeeps(e: Endpoint, d: Datagram, now: int)
    requires EndOk(e) && e.udpConnected && d.kind.Confirmation? && Honest(e, d)
    ensures var f := ReadConfirmation(e, d, now);
      EndOk(f) && Grows(e, f) && Covers(e, f, Acked(e.snd.packets, d)) && f.rcv == e.rcv && f.udpConnected
  {
    hide EndCore, ByeOk, Grows, Removed, ConfirmAll, IsNoMoreDataWillBeSent, Acked, CoveredBy, Covers;
    var c := ConfirmAll(e, d);
    ConfirmAllRemoves(e, d);
    RemovedFacts(e, c, Acked(e.snd.packets, d));
    RemovedCovers(e, c, Acked(e.snd.packets, d));
    var f := ReadConfirmation(e, d, now);
    TimersKeep(c, f);
    assert Acked(e.snd.packets, d) + {} == Acked(e.snd.packets, d);
    GrowsTransitive(e, c, f);
    CoversTransitive(e, c, f, Acked(e.snd.packets, d), {});
  }

  lemma RemovedCovers(e: Endpoint, f: Endpoint, keys: set<nat>)
    requires Removed(e, f, keys)
    ensures Covers(e, f, keys)
  {
    hide EndCore, ByeOk, Grows;
  }

  // ---------- numbered packets ----------

  lemma TruthGrows(outbox: set<Datagram>, control: seq<Packet>, got: map<nat, Datagram>, more: map<nat, Datagram>)
    requires AllTruthful(outbox, control, got)
    requires forall k: nat :: k in got ==> k in more
    ensures AllTruthful(outbox, control, more)
  {
    hide Listed;
    forall d | d in outbox
      ensures Truthful(d, more)
    {
      assert Truthful(d, got);
    }
    forall i | 0 <= i < |control|
      ensures Truthful(control[i].dg, more)
    {
      assert Truthful(control[i].dg, got);
    }
  }

  lemma StoreStep(e: Endpoint, d: Datagram)
    requires EndCore(e) && Acceptable(e.rcv, d, Window(e.cfg)) && d.index !in e.rcv.packets
    requires d.WellFormed(e.cfg.udpSendPacketSize) && d.index < INT_MAX - 1
    ensures var m := e.(rcv := Store(e.rcv, d));
      Keeps(e, m) && m.rcv.got == e.rcv.got[d.index := d]
  {
    CoreReceiver(e);
    hide Store, RecvOk, EndCore;
    StoreKeeps(e.rcv, d, Window(e.cfg), e.cfg.udpSendPacketSize, e.tcpConnected);
    var m := e.(rcv := Store(e.rcv, d));
    CoreParts(e);
    TruthGrows(e.snd.outbox, e.snd.control, e.rcv.got, m.rcv.got);
    ReceivedMore(e, m);
  }

  lemma ReceivedMore(e: Endpoint, m: Endpoint)
    requires EndCore(e) && m == e.(rcv := m.rcv)
    requires RecvOk(m.rcv, Window(e.cfg), e.cfg.udpSendPacketSize, e.tcpConnected)
    requires RecvGrows(e.rcv, m.rcv) && AllTruthful(e.snd.outbox, e.snd.control, m.rcv.got)
    ensures Keeps(e, m)
  {
    hide SendOk, RecvOk, RateOkAt, Counted, Paced, AllTruthful, EndsWithBye, LogContents;
  }

  lemma ReadNewKeeps(e: Endpoint, d: Datagram, now: int)
    requires EndOk(e) && Acceptable(e.rcv, d, Window(e.cfg)) && d.index !in e.rcv.packets
    requires d.WellFormed(e.cfg.udpSendPacketSize) && d.index < INT_MAX - 1
    ensures var f := ReadNew(e, d, now);
      EndOk(f) && Keeps(e, f) && f.rcv.got == e.rcv.got[d.index := d]
  {
    hide EndCore, ByeOk, Grows, Covers, Store, TcpWriteFake;
    var m := e.(rcv := Store(e.rcv, d));
    StoreStep(e, d);
    var w := TcpWriteFake(m);
    TcpWriteFakeKeeps(m);
    TcpWriteFakeGot(m);
    KeepsTransitive(e, m, w);
    var f := ReadNew(e, d, now);
    TimersKeep(w, f);
    KeepsTransitive(e, w, f);
    SameBye(e, w);
  }

  lemma TcpWriteFakeGot(e: Endpoint)
    requires EndCore(e)
    ensures TcpWriteFake(e).rcv.got == e.rcv.got
  {
    CoreReceiver(e);
    hide EndCore, RecvOk, Discard, RecvGrows;
    if !e.tcpConnected {
      DiscardKeeps(e.rcv, Window(e.cfg), e.cfg.udpSendPacketSize);
    }
  }

  lemma SameBye(e: Endpoint, f: Endpoint)
    requires f == e.(rcv := f.rcv) && ByeOk(e)
    ensures ByeOk(f)
  {
    hide EndsWithBye;
  }

  lemma ReadNumberedKeeps(e: Endpoint, d: Datagram, now: int)
    requires EndOk(e) && Acceptable(e.rcv, d, Window(e.cfg))
    requires d.WellFormed(e.cfg.udpSendPacketSize) && d.index < INT_MAX - 1
    ensures var f := ReadNumbered(e, d, now);
      EndOk(f) && Keeps(e, f) && (f.rcv.got == e.rcv.got || f.rcv.got == e.rcv.got[d.index := d])
  {
    hide EndCore, ByeOk, Grows, Covers, ReadNew;
    var f := ReadNumbered(e, d, now);
    if d.index in e.rcv.packets {
      TimersKeep(e, f);
    } else {
      var c := ReadNew(e, d, now);
      ReadNewKeeps(e, d, now);
      TimersKeep(c, f);
      KeepsTransitive(e, c, f);
    }
  }

  lemma ReadByeByeKeeps(e: Endpoint, now: int)
    requires EndOk(e) && e.udpConnected
    ensures EndOk(ReadByeBye(e, now)) && Keeps(e, ReadByeBye(e, now)) && ReadByeBye(e, now).rcv == e.rcv
  {
    hide EndCore, ByeOk, Grows, Covers, DropConfirmations;
    var c := e.(snd := DropConfirmations(e.snd));
    DropKeeps(e);
    TimersKeep(c, ReadByeBye(e, now));
    KeepsTransitive(e, c, ReadByeBye(e, now));
  }

  // ---------- any datagram ----------

  lemma CloseAfter(e: Endpoint, m: Endpoint, acked: set<nat>, now: int)
    requires EndOk(m) && Grows(e, m) && Covers(e, m, acked)
    ensures var f := CloseIfFinished(m, now);
      EndOk(f) && Grows(e, f) && Covers(e, f, acked) && f.rcv.got == m.rcv.got
  {
    hide EndCore, ByeOk, Grows, Covers, CloseIfFinished;
    CloseIfFinishedKeeps(m, now);
    var f := CloseIfFinished(m, now);
    GrowsTransitive(e, m, f);
    CoversTransitive(e, m, f, acked, {});
    assert acked + {} == acked;
    CloseKeepsGot(m, now);
  }

  lemma CloseKeepsGot(e: Endpoint, now: int)
    requires EndOk(e)
    ensures CloseIfFinished(e, now).rcv.got == e.rcv.got
  {
    hide EndCore, ByeOk;
    if IsUdpFinished(e) && e.udpConnected && e.tcpConnected && e.rcv.tcpNext >= e.rcv.master {
      var c := UdpClosed(e, now);
      TcpCloseOfClosed(c, false, now);
    }
  }

  function UdpClosed(e: Endpoint, now: int): Endpoint {
    e.(udpConnected := false, snd := Clear(e.snd), pacer := e.pacer.(udpWrite := -1),
       timers := e.timers.(buildUdpPackets := -1, buildConfirmations := -1, udpResend := -1), reason := AllDone)
  }

  lemma TcpCloseOfClosed(e: Endpoint, error: bool, now: int)
    requires !e.udpConnected
    ensures TcpClose(e, error, now).rcv == e.rcv
  {
  }

  lemma UdpReadKeeps(e: Endpoint, d: Datagram, now: int)
    requires EndOk(e) && Honest(e, d)
    ensures var f := UdpRead(e, d, now);
      && EndOk(f) && Grows(e, f) && Covers(e, f, AckedBy(e, d))
      && (f.rcv.got == e.rcv.got || (d.IsNumbered() && f.rcv.got == e.rcv.got[d.index := d]))
  {
    hide EndCore, ByeOk, Grows, Covers, Acked, CoveredBy, ReadConfirmation, ReadNumbered, ReadByeBye, CloseIfFinished;
    if !e.udpConnected {
      Reflexive(e);
      assert Covers(e, e, AckedBy(e, d)) by {
        CoversItself(e, AckedBy(e, d));
      }
    } else if d.kind.Confirmation? {
      ReadConfirmationKeeps(e, d, now);
      CloseAfter(e, ReadConfirmation(e, d, now), Acked(e.snd.packets, d), now);
    } else if Acceptable(e.rcv, d, Window(e.cfg)) {
      ReadNumberedKeeps(e, d, now);
      CloseAfter(e, ReadNumbered(e, d, now), {}, now);
    } else if d.kind.ByeBye? && d.index == e.rcv.master && d.index == e.rcv.final {
      ReadByeByeKeeps(e, now);
      CloseAfter(e, ReadByeBye(e, now), {}, now);
    } else {
      Reflexive(e);
      CloseAfter(e, e, {}, now);
    }
  }

  lemma CoversItself(e: Endpoint, acked: set<nat>)
    ensures Covers(e, e, acked)
  {
  }

  // ---------- only receiving changes what was received ----------

  lemma {:induction false} DiscardGot(r: Receiver)
    ensures Discard(r).got == r.got
    decreases r.master - r.tcpNext
  {
    if r.tcpNext < r.master && r.tcpNext in r.packets {
      DiscardGot(Skip(r));
    }
  }

  lemma {:induction false} DeliverGot(r: Receiver, accepted: int)
    ensures Deliver(r, accepted).r.got == r.got
    decreases r.master - r.tcpNext
  {
    if r.tcpNext < r.master && r.tcpNext in r.packets {
      var p := r.packets[r.tcpNext];
      if (!p.dg.kind.Data? || p.Size() <= 0) && !p.dg.IsBye() {
        DeliverGot(Skip(r), accepted);
      }
    }
  }

  lemma {:induction false} CutAllReceiver(e: Endpoint, flush: bool, now: int)
    ensures CutAll(e, flush, now).rcv == e.rcv
    decreases |e.snd.data|
  {
    if Cut(e.cfg, e.snd.data, flush) {
      var n := Min(|e.snd.data|, e.cfg.udpSendPacketSize);
      CutAllReceiver(Queue(e.(snd := e.snd.(data := e.snd.data[n..])), Data, e.snd.data[..n], now), flush, now);
    }
  }

  lemma BuildReceiver(e: Endpoint, flush: bool, now: int)
    ensures BuildUdpPackets(e, flush, now).rcv == e.rcv
  {
    hide CutAll;
    CutAllReceiver(e.(snd := e.snd.(data := if Finished(e.rcv) then [] else e.snd.data)), flush, now);
  }

  lemma TcpCloseGot(e: Endpoint, error: bool, now: int)
    ensures TcpClose(e, error, now).rcv.got == e.rcv.got
  {
    hide Discard, BuildUdpPackets;
    if e.tcpConnected {
      var c := e.(tcpConnected := false, timers := e.timers.(tcpWrite := -1));
      DiscardGot(c.rcv);
      BuildReceiver(TcpWriteFake(c), true, now);
    }
  }

  lemma UdpCloseGot(e: Endpoint, reason: CloseReason, now: int)
    ensures UdpClose(e, reason, now).rcv.got == e.rcv.got
  {
    hide TcpClose;
    TcpCloseGot(e.(
        udpConnected := false,
        snd := Clear(e.snd),
        pacer := e.pacer.(udpWrite := -1),
        timers := e.timers.(buildUdpPackets := -1, buildConfirmations := -1, udpResend := -1),
        reason := reason), false, now);
  }

  lemma {:induction false} ResendFromGot(e: Endpoint, ks: seq<nat>, i: nat, now: int)
    ensures ResendFrom(e, ks, i, now).rcv.got == e.rcv.got
    decreases |ks| - i
  {
    hide UdpClose, OnDelivered;
    if i < |ks| {
      if ks[i] !in e.snd.packets || !e.snd.packets[ks[i]].sent {
        ResendFromGot(e, ks, i + 1, now);
      } else {
        var p := e.snd.packets[ks[i]];
        ResendFromGot(ArmResend(e, p.sentTimeUs + e.cfg.udpResendUs), ks, i + 1, now);
        ResendFromGot(ExpireOne(e, ks[i], now), ks, i + 1, now);
        UdpCloseGot(e, NoAnswer(ks[i]), now);
      }
    }
  }

  lemma WriteGot(e: Endpoint, accepted: int, now: int)
    ensures TcpWrite(e, accepted, now).rcv.got == e.rcv.got
  {
    hide Deliver, TcpClose;
    DeliverGot(e.rcv, accepted);
    TcpCloseGot(e.(rcv := Deliver(e.rcv, accepted).r), false, now);
  }

  lemma SendGot(e: Endpoint, planned: int, taken: bool, now: int)
    ensures UdpWrite(e, planned, taken, now).rcv.got == e.rcv.got
  {
    hide UdpClose, OnSent, IsUdpFinished;
    if e.udpConnected {
      if e.snd.control != [] {
        UdpCloseGot(SendControl(e, planned), AllDone, now);
      } else if FirstUnsent(e.snd.packets).Some? {
        var k := FirstUnsent(e.snd.packets).value;
        var s := SendPacket(e, k, planned, now);
        UdpCloseGot(s.(snd := Erase(s.snd, k)), AllDone, now);
      }
    }
  }

  lemma StepGot(e: Endpoint, a: Action, now: int)
    requires !a.Receive?
    ensures Step(e, a, now).rcv.got == e.rcv.got
  {
    hide TcpWrite, TcpClose, UdpWrite, UdpClose, BuildUdpPackets, ResendFrom, IsUdpFinished, ConfirmationPayloads;
    var c := e.(clock := now);
    match a {
      case ReadTcp(bytes) =>
        var r := c.(snd := c.snd.(tcpIn := c.snd.tcpIn + bytes));
        BuildReceiver(r.(snd := r.snd.(data := r.snd.data + bytes)), false, now);
      case WriteTcp(accepted) => WriteGot(c.(timers := c.timers.(tcpWrite := -1)), accepted, now);
      case CloseTcp(error) => TcpCloseGot(c, error, now);
      case WriteUdp(taken) => SendGot(c.(pacer := c.pacer.(udpWrite := -1)), e.pacer.udpWrite, taken, now);
      case CloseUdp => UdpCloseGot(c, ByCaller, now);
      case Build => BuildReceiver(c.(timers := c.timers.(buildUdpPackets := -1)), true, now);
      case Confirm =>
      case SayByeBye =>
      case Resend =>
        var r := c.(timers := c.timers.(udpResend := -1));
        ResendFromGot(r, Ascending(r.snd.packets.Keys), 0, now);
      case CloseWait => UdpCloseGot(c.(timers := c.timers.(udpCloseWait := -1)), AllDone, now);
    }
  }

  // ---------- any step ----------

  lemma ClockStep(e: Endpoint, now: int)
    requires EndOk(e) && e.clock <= now
    ensures EndOk(e.(clock := now)) && Keeps(e, e.(clock := now))
  {
    CoreParts(e);
    ClockKeeps(e.cfg, e.snd, e.udpConnected, e.clock, now);
    hide SendOk, RecvOk, Counted, Paced, AllTruthful, StreamIn, EndsWithBye, RateOk;
  }

  lemma DisarmStep(e: Endpoint)
    requires EndOk(e)
    ensures var f := e.(pacer := e.pacer.(udpWrite := -1));
      EndOk(f) && Keeps(e, f) && (e.pacer.udpWrite >= 0 ==> Due(f.pacer, e.pacer.udpWrite))
  {
    hide SendOk, RecvOk, RateOkAt, Counted, AllTruthful, StreamIn, EndsWithBye;
  }

  lemma TimerStep(e: Endpoint, t: Timers)
    requires EndOk(e)
    ensures EndOk(e.(timers := t)) && Keeps(e, e.(timers := t))
  {
    hide EndCore, ByeOk, Grows, Covers;
    TimersKeep(e, e.(timers := t));
  }

  /** The main result about one endpoint: every step of every handler keeps the
      invariant and undoes nothing that was settled. */
  lemma StepKeeps(e: Endpoint, a: Action, now: int)
    requires EndOk(e) && Ready(e, a, now)
    requires a.Receive? ==> Honest(e, a.d)
    ensures var f := Step(e, a, now);
      && EndOk(f) && Grows(e, f)
      && Covers(e, f, if a.Receive? then AckedBy(e, a.d) else {})
  {
    hide EndCore, ByeOk, Grows, Covers, Acked, CoveredBy, Due;
    hide TcpRead, TcpWrite, TcpClose, UdpWrite, UdpClose, BuildUdpPackets, BuildConfirmations, BuildByeBye, UdpResend, CloseIfFinished, UdpRead;
    var c := e.(clock := now);
    var f := Step(e, a, now);
    ClockStep(e, now);
    match a {
      case ReadTcp(bytes) =>
        TcpReadKeeps(c, bytes, now);
        KeepsTransitive(e, c, f);
      case WriteTcp(accepted) =>
        var t := c.(timers := c.timers.(tcpWrite := -1));
        TimerStep(c, t.timers);
        KeepsTransitive(e, c, t);
        TcpWriteKeeps(t, accepted, now);
        KeepsTransitive(e, t, f);
      case CloseTcp(error) =>
        TcpCloseKeeps(c, error, now);
        KeepsTransitive(e, c, f);
      case WriteUdp(taken) =>
        var t := c.(pacer := c.pacer.(udpWrite := -1));
        DisarmStep(c);
        KeepsTransitive(e, c, t);
        UdpWriteKeeps(t, e.pacer.udpWrite, taken, now);
        KeepsTransitive(e, t, f);
      case CloseUdp =>
        if c.udpConnected {
          UdpCloseKeeps(c, ByCaller, now);
        } else {
          AlreadyClosed(c, ByCaller, now);
          Reflexive(c);
        }
        KeepsTransitive(e, c, f);
      case Build =>
        var t := c.(timers := c.timers.(buildUdpPackets := -1));
        TimerStep(c, t.timers);
        KeepsTransitive(e, c, t);
        BuildStep(t, now);
        KeepsTransitive(e, t, f);
      case Confirm =>
        var t := c.(timers := c.timers.(buildConfirmations := -1));
        TimerStep(c, t.timers);
        KeepsTransitive(e, c, t);
        BuildConfirmationsKeeps(t, now);
        KeepsTransitive(e, t, f);
      case SayByeBye =>
        var t := c.(timers := c.timers.(buildByeBye := -1));
        TimerStep(c, t.timers);
        KeepsTransitive(e, c, t);
        BuildByeByeKeeps(t, now);
        KeepsTransitive(e, t, f);
      case Resend =>
        var t := c.(timers := c.timers.(udpResend := -1));
        TimerStep(c, t.timers);
        KeepsTransitive(e, c, t);
        UdpResendKeeps(t, now);
        KeepsTransitive(e, t, f);
      case CloseWait =>
        var t := c.(timers := c.timers.(udpCloseWait := -1));
        TimerStep(c, t.timers);
        KeepsTransitive(e, c, t);
        CloseIfFinishedKeeps(t, now);
        KeepsTransitive(e, t, f);
      case Receive(d) =>
        UdpReadKeeps(c, d, now);
        GrowsTransitive(e, c, f);
        CoversTransitive(e, c, f, {}, AckedBy(c, d));
        assert {} + AckedBy(c, d) == AckedBy(e, d);
    }
  }

  lemma BuildStep(e: Endpoint, now: int)
    requires EndOk(e)
    ensures EndOk(BuildUdpPackets(e, true, now)) && Keeps(e, BuildUdpPackets(e, true, now))
  {
    hide EndCore, BuildUdpPackets, Grows, Covers, EndsWithBye;
    if e.udpConnected && e.tcpConnected {
      NoByeYet(e);
    }
    BuildKeeps(e, true, now);
  }
}
