/** No wake-up is lost: whatever waits for an event, its event is armed. */
module Wakeups {
  import opened Base
  import opened Receivers
  import opened Senders
  import opened Rates
  import opened Endpoints
  import opened Invariants
  import opened Preservation
  import opened PreservationUdp
  import opened PreservationStep

  /** Packets that wait to be sent will be. */
  ghost predicate WriteArmed(s: Sender, udpWrite: int) {
    s.control != [] || s.toSend > 0 ==> udpWrite >= 0
  }

  /** An unanswered packet is looked at again in time. */
  ghost predicate ResendArmed(packets: map<nat, Packet>, udpResend: int, resendUs: int) {
    forall k: nat :: k in packets && packets[k].sent ==> 0 <= udpResend <= packets[k].sentTimeUs + resendUs
  }

  /** Bytes that do not fill a packet are flushed, announced rounds take place. */
  ghost predicate RoundsArmed(e: Endpoint) {
    && (e.snd.data != [] ==> e.timers.buildUdpPackets >= 0)
    && (e.remainConfirmation > 0 ==> e.timers.buildConfirmations >= 0)
    && (e.remainByeBye > 0 ==> e.timers.buildByeBye >= 0)
  }

  ghost predicate UdpArmed(e: Endpoint) {
    e.udpConnected ==>
      && WriteArmed(e.snd, e.pacer.udpWrite)
      && ResendArmed(e.snd.packets, e.timers.udpResend, e.cfg.udpResendUs)
      && RoundsArmed(e)
  }

  /** What arrived contiguously is written to TCP, and a connection closed on both
      sides is removed. */
  ghost predicate TcpArmed(e: Endpoint) {
    && (e.tcpConnected && e.rcv.tcpNext < e.rcv.master ==> e.timers.tcpWrite >= 0)
    && (!e.tcpConnected && !e.udpConnected ==> e.timers.close >= 0)
  }

  ghost predicate Awake(e: Endpoint) {
    UdpArmed(e) && TcpArmed(e)
  }

  // ---------- counting what waits ----------

  lemma {:induction false} UnsentBound(m: map<nat, Packet>)
    ensures Total(m, Unsent) <= |m|
    decreases |m|
  {
    if |m| > 0 {
      var k := AnyKey(m);
      UnsentBound(m - {k});
      assert (m - {k}).Keys == m.Keys - {k};
    }
  }

  /** When as many wait as are stored, none is unanswered. */
  lemma AllUnsent(m: map<nat, Packet>)
    requires Total(m, Unsent) >= |m|
    ensures forall k: nat :: k in m ==> !m[k].sent
  {
    hide Total;
    forall k: nat | k in m
      ensures !m[k].sent
    {
      TotalRemove(m, k, Unsent);
      UnsentBound(m - {k});
      assert (m - {k}).Keys == m.Keys - {k};
    }
  }

  /** Something waits exactly when the count says so. */
  lemma WaitingIsCounted(e: Endpoint)
    requires EndOk(e) && e.udpConnected
    ensures e.snd.toSend > 0 <==> exists k: nat :: k in e.snd.packets && !e.snd.packets[k].sent
    ensures e.snd.toSend >= |e.snd.packets| ==> forall k: nat :: k in e.snd.packets ==> !e.snd.packets[k].sent
  {
    SendCount(e);
    hide EndOk, Total;
    TotalPositive(e.snd.packets, Unsent);
    if e.snd.toSend >= |e.snd.packets| {
      AllUnsent(e.snd.packets);
    }
    assert forall k: nat :: k in e.snd.packets ==> (WeightOf(Unsent, e.snd.packets[k]) > 0 <==> !e.snd.packets[k].sent);
  }

  lemma SendCount(e: Endpoint)
    requires EndCore(e) && e.udpConnected
    ensures e.snd.toSend == Total(e.snd.packets, Unsent)
  {
    hide EndCore, LogOk, OutboxOk, PacketsOk, ControlOk, AllBudgetsOk, Total, QueueBytes, RecvOk;
    CoreParts(e);
  }

  // ---------- closing ----------

  lemma UdpCloseAwake(e: Endpoint, reason: CloseReason, now: int)
    requires e.udpConnected && TcpArmed(e) && now >= 0
    ensures Awake(UdpClose(e, reason, now))
  {
    hide UdpArmed;
    assert !UdpClose(e, reason, now).udpConnected;
    ClosedIsArmed(UdpClose(e, reason, now));
  }

  lemma ClosedIsArmed(e: Endpoint)
    requires !e.udpConnected
    ensures UdpArmed(e)
  {
  }

  lemma CloseIfFinishedAwake(e: Endpoint, now: int)
    requires Awake(e) && now >= 0
    ensures Awake(CloseIfFinished(e, now))
  {
    hide UdpArmed, TcpArmed, UdpClose;
    if IsUdpFinished(e) && e.udpConnected {
      UdpCloseAwake(e, AllDone, now);
    } else {
      AlreadyClosed(e, AllDone, now);
    }
  }

  // ---------- from TCP ----------

  /** Cutting adds packets that wait, and nothing else. */
  lemma {:induction false} CutAllAdds(e: Endpoint, flush: bool, now: int)
    requires EndCore(e) && e.udpConnected && !EndsWithBye(e.snd.log)
    requires Finished(e.rcv) ==> e.snd.data == []
    ensures var f := CutAll(e, flush, now);
      forall k: nat :: k in f.snd.packets && f.snd.packets[k].sent ==> k in e.snd.packets && f.snd.packets[k] == e.snd.packets[k]
    decreases |e.snd.data|
  {
    hide EndCore, SetEventUdpWrite;
    if Cut(e.cfg, e.snd.data, flush) {
      var n := Min(|e.snd.data|, e.cfg.udpSendPacketSize);
      var payload, rest := e.snd.data[..n], e.snd.data[n..];
      assert e.snd.data == payload + rest;
      var m := Queue(e.(snd := e.snd.(data := rest)), Data, payload, now);
      QueueKeeps(e, Data, payload, rest, now);
      ArmKeepsReceiver(e.(snd := Enqueue(e.cfg, e.snd.(data := rest), Data, payload)), now);
      CutAllAdds(m, flush, now);
    }
  }

  lemma BuildAwake(e: Endpoint, flush: bool, now: int)
    requires EndCore(e) && UdpArmed(e.(timers := e.timers.(buildUdpPackets := 0))) && now >= 0
    requires e.udpConnected && EndsWithBye(e.snd.log) ==> e.snd.data == []
    ensures UdpArmed(BuildUdpPackets(e, flush, now))
    ensures TcpArmed(e) ==> TcpArmed(BuildUdpPackets(e, flush, now))
  {
    hide EndCore, CutAll, EndsWithBye;
    if e.udpConnected {
      var kept := e.(snd := e.snd.(data := if Finished(e.rcv) then [] else e.snd.data));
      if Finished(e.rcv) {
        DropDataKeeps(e);
      }
      if EndsWithBye(e.snd.log) {
        NothingToCut(kept, flush, now);
      } else {
        CutAllKeeps(kept, flush, now);
        CutAllAdds(kept, flush, now);
      }
    }
  }

  lemma TcpReadAwake(e: Endpoint, bytes: seq<byte>, now: int)
    requires EndOk(e) && Awake(e) && now >= 0
    ensures Awake(TcpRead(e, bytes, now))
  {
    hide EndCore, BuildUdpPackets, EndsWithBye;
    if e.tcpConnected {
      ReadKeeps(e, bytes);
      NoByeYet(e);
      if |bytes| > 0 && e.udpConnected {
        BuildAwake(e.(snd := e.snd.(tcpIn := e.snd.tcpIn + bytes, data := e.snd.data + bytes)), false, now);
      }
    }
  }

  /** The closing packet arms the write event; everything else was flushed. */
  lemma TcpCloseAwake(e: Endpoint, error: bool, now: int)
    requires EndOk(e) && UdpArmed(e) && (e.tcpConnected || TcpArmed(e)) && now >= 0
    ensures Awake(TcpClose(e, error, now))
  {
    hide EndCore, BuildUdpPackets, EndsWithBye, ArmUdpWrite, Discard;
    if e.tcpConnected && e.udpConnected {
      var c := e.(tcpConnected := false, timers := e.timers.(tcpWrite := -1));
      NoByeYet(e);
      CloseTcpKeeps(e);
      TimersKeep(e.(tcpConnected := false), c);
      var w := TcpWriteFake(c);
      TcpWriteFakeKeeps(c);
      BuildKeeps(w, true, now);
      BuildAwake(w, true, now);
      var b := BuildUdpPackets(w, true, now);
      var q := b.(snd := Enqueue(b.cfg, b.snd, if error then Disconnect else Bye, []));
      PaceOf(b);
      ArmKeepsPace(b.pacer, b.rate.intervalUs, now);
    }
  }

  lemma PaceOf(e: Endpoint)
    requires EndCore(e)
    ensures Paced(e.pacer, e.rate.intervalUs)
  {
    hide EndCore;
    CoreParts(e);
  }

  lemma TcpWriteAwake(e: Endpoint, accepted: int, now: int)
    requires EndOk(e) && UdpArmed(e) && now >= 0
    requires !e.tcpConnected ==> TcpArmed(e)
    ensures Awake(TcpWrite(e, accepted, now))
  {
    hide EndCore, RecvOk, Deliver, TcpClose, UdpArmed;
    if e.tcpConnected {
      CoreReceiver(e);
      DeliverKeeps(e.rcv, accepted, Window(e.cfg), e.cfg.udpSendPacketSize);
      var d := Deliver(e.rcv, accepted);
      var m := e.(rcv := d.r);
      ReceiverKeeps(e, d.r, true);
      assert m == e.(rcv := d.r, tcpConnected := true);
      UdpArmedSame(e, m);
      if d.Closing? {
        TcpCloseAwake(m, false, now);
      } else {
        UdpArmedSame(m, TcpWrite(e, accepted, now));
      }
    }
  }

  lemma UdpArmedSame(e: Endpoint, f: Endpoint)
    requires UdpArmed(e) && f == e.(rcv := f.rcv, timers := f.timers)
    requires f.timers == e.timers.(tcpWrite := f.timers.tcpWrite, udpCloseWait := f.timers.udpCloseWait)
    ensures UdpArmed(f)
  {
  }

  // ---------- to UDP ----------

  lemma RearmAwake(e: Endpoint, f: Endpoint)
    requires EndCore(e) && RoundsArmed(e) && ResendArmed(e.snd.packets, e.timers.udpResend, e.cfg.udpResendUs) && TcpArmed(e)
    requires f == if e.snd.control != [] || e.snd.toSend > 0 then RearmUdpWrite(e) else e
    ensures Awake(f)
  {
    hide EndCore;
    PaceOf(e);
    RearmKeepsPace(e.pacer, e.rate.intervalUs);
  }

  /** Everything but the write event, which is disabled while it is handled. */
  ghost predicate AwakeButWrite(e: Endpoint) {
    && TcpArmed(e)
    && (e.udpConnected ==> RoundsArmed(e) && ResendArmed(e.snd.packets, e.timers.udpResend, e.cfg.udpResendUs))
  }

  lemma ControlAwake(e: Endpoint, planned: int, taken: bool, now: int)
    requires EndOk(e) && e.udpConnected && AwakeButWrite(e) && e.snd.control != [] && now >= 0
    requires e.pacer.udpWrite < 0 && Due(e.pacer, planned)
    ensures Awake(UdpWrite(e, planned, taken, now))
  {
    hide EndCore, UdpClose, IsUdpFinished, Due, Took, TcpArmed, RearmUdpWrite;
    var s := if taken then SendControl(e, planned) else e;
    if taken {
      SendControlKeeps(e, planned);
    }
    TcpArmedSame(e, s);
    if taken && IsUdpFinished(s) {
      UdpCloseAwake(s, AllDone, now);
    } else {
      RearmAwake(s, UdpWrite(e, planned, taken, now));
    }
  }

  lemma TcpArmedSame(e: Endpoint, f: Endpoint)
    requires TcpArmed(e) && f.tcpConnected == e.tcpConnected && f.udpConnected == e.udpConnected && f.rcv == e.rcv
    requires f.timers.tcpWrite == e.timers.tcpWrite && f.timers.close == e.timers.close
    ensures TcpArmed(f)
  {
  }

  lemma PacketAwake(e: Endpoint, k: nat, planned: int, now: int)
    requires EndOk(e) && e.udpConnected && AwakeButWrite(e) && e.snd.control == [] && e.clock == now
    requires e.pacer.udpWrite < 0 && Due(e.pacer, planned)
    requires FirstUnsent(e.snd.packets) == Some(k)
    ensures Awake(UdpWrite(e, planned, true, now))
  {
    hide EndCore, UdpClose, IsUdpFinished, Due, Took, TcpArmed, RearmUdpWrite, OnSent, FirstUnsent, Senders.Tried;
    assert k in e.snd.packets && !e.snd.packets[k].sent by {
      assert FirstUnsent(e.snd.packets).Some?;
    }
    ClockNotNegative(e);
    var s := SendPacket(e, k, planned, now);
    SendPacketKeeps(e, k, planned, now);
    var c := ArmResend(s, now + e.cfg.udpResendUs);
    TimersKeep(s, c);
    TcpArmedSame(e, c);
    RearmAwake(c, UdpWrite(e, planned, true, now));
  }

  lemma ClockNotNegative(e: Endpoint)
    requires EndCore(e)
    ensures e.clock >= 0
  {
    hide SendOk, RecvOk, RateOkAt, Counted, Paced, AllTruthful, StreamIn, EndsWithBye, ReasonOk;
  }

  lemma UdpWriteAwake(e: Endpoint, planned: int, taken: bool, now: int)
    requires EndOk(e) && AwakeButWrite(e) && e.clock == now
    requires e.pacer.udpWrite < 0 && Due(e.pacer, planned)
    ensures Awake(UdpWrite(e, planned, taken, now))
  {
    hide EndCore, UdpClose, IsUdpFinished, Due, SendControl, SendPacket, RearmUdpWrite, FirstUnsent, TcpArmed, RoundsArmed, ResendArmed;
    ClockNotNegative(e);
    if e.udpConnected {
      if e.snd.control != [] {
        ControlAwake(e, planned, taken, now);
      } else {
        WaitingIsCounted(e);
        assert FirstUnsent(e.snd.packets).None? ==> e.snd.toSend <= 0;
        if FirstUnsent(e.snd.packets).Some? && taken {
          PacketAwake(e, FirstUnsent(e.snd.packets).value, planned, now);
        } else {
          RearmAwake(e, UdpWrite(e, planned, taken, now));
        }
      }
    }
  }

  // ---------- resending ----------

  /** Half way through the loop of `udpResend`: the keys before position i are armed. */
  ghost predicate ResendUpTo(packets: map<nat, Packet>, ks: seq<nat>, i: nat, udpResend: int, resendUs: int)
    requires i <= |ks|
  {
    forall j :: 0 <= j < i && ks[j] in packets && packets[ks[j]].sent ==>
      0 <= udpResend <= packets[ks[j]].sentTimeUs + resendUs
  }

  lemma ResendOne(e: Endpoint, ks: seq<nat>, i: nat, now: int)
    requires i < |ks| && Increasing(ks) && ResendUpTo(e.snd.packets, ks, i, e.timers.udpResend, e.cfg.udpResendUs) && now >= 0
    requires ks[i] in e.snd.packets && e.snd.packets[ks[i]].sent
    requires e.snd.packets[ks[i]].sentTimeUs + e.cfg.udpResendUs > now
    ensures var m := ArmResend(e, e.snd.packets[ks[i]].sentTimeUs + e.cfg.udpResendUs);
      ResendUpTo(m.snd.packets, ks, i + 1, m.timers.udpResend, m.cfg.udpResendUs)
  {
  }

  lemma ExpireAwake(e: Endpoint, ks: seq<nat>, i: nat, now: int)
    requires i < |ks| && ResendUpTo(e.snd.packets, ks, i, e.timers.udpResend, e.cfg.udpResendUs)
    requires ks[i] in e.snd.packets
    ensures var m := ExpireOne(e, ks[i], now);
      && ResendUpTo(m.snd.packets, ks, i + 1, m.timers.udpResend, m.cfg.udpResendUs)
      && m.snd.packets.Keys == e.snd.packets.Keys
      && (RoundsArmed(e) ==> RoundsArmed(m)) && (TcpArmed(e) ==> TcpArmed(m))
  {
    hide OnDelivered, ArmUdpWrite;
  }

  lemma {:induction false} ResendFromAwake(e: Endpoint, ks: seq<nat>, i: nat, now: int)
    requires EndOk(e) && e.udpConnected && e.clock == now
    requires i <= |ks| && Increasing(ks) && (forall k: nat :: k in e.snd.packets ==> k in ks)
    requires WriteArmed(e.snd, e.pacer.udpWrite) && RoundsArmed(e) && TcpArmed(e)
    requires ResendUpTo(e.snd.packets, ks, i, e.timers.udpResend, e.cfg.udpResendUs)
    ensures Awake(ResendFrom(e, ks, i, now))
    decreases |ks| - i
  {
    hide EndCore, UdpClose, ExpireOne, ByeOk, Grows, Covers, Increasing;
    ClockNotNegative(e);
    if i >= |ks| {
      assert Awake(e);
    } else if ks[i] !in e.snd.packets || !e.snd.packets[ks[i]].sent {
      ResendFromAwake(e, ks, i + 1, now);
    } else {
      var p := e.snd.packets[ks[i]];
      if p.sentTimeUs + e.cfg.udpResendUs > now {
        var m := ArmResend(e, p.sentTimeUs + e.cfg.udpResendUs);
        TimersKeep(e, m);
        ResendOne(e, ks, i, now);
        ResendFromAwake(m, ks, i + 1, now);
      } else if p.remainResendCount > 0 {
        var m := ExpireOne(e, ks[i], now);
        ExpireOneKeeps(e, ks[i], now);
        ExpireOneClock(e, ks[i], now);
        ExpireAwake(e, ks, i, now);
        ResendFromAwake(m, ks, i + 1, now);
      } else {
        UdpCloseAwake(e, NoAnswer(ks[i]), now);
      }
    }
  }

  lemma UdpResendAwake(e: Endpoint, now: int)
    requires EndOk(e) && TcpArmed(e) && e.clock == now
    requires e.udpConnected ==> WriteArmed(e.snd, e.pacer.udpWrite) && RoundsArmed(e)
    ensures Awake(UdpResend(e, now))
  {
    hide EndCore, ByeOk, ResendFrom;
    if e.udpConnected {
      ResendFromAwake(e, Ascending(e.snd.packets.Keys), 0, now);
    }
  }

  // ---------- control packets ----------

  lemma {:induction false} PushAllLeaves(s: Sender, master: int, payloads: seq<seq<byte>>)
    ensures var t := PushAll(s, master, payloads);
      t.packets == s.packets && t.data == s.data && t.toSend == s.toSend
    decreases |payloads|
  {
    if payloads != [] {
      PushAllLeaves(PushControl(s, Confirmation, master, payloads[0]), master, payloads[1..]);
    }
  }

  lemma BuildConfirmationsAwake(e: Endpoint, now: int)
    requires EndOk(e) && AwakeButWrite(e.(timers := e.timers.(buildConfirmations := 0))) && now >= 0
    ensures Awake(BuildConfirmations(e, now))
  {
    hide EndCore, ByeOk, ConfirmationPayloads, PushAll, WithoutConfirmations, QueueBytes, Pruned, Dropped, Total, ArmUdpWrite;
    if e.udpConnected {
      PaceOf(e);
      ArmKeepsPace(e.pacer, e.rate.intervalUs, now);
      PushAllLeaves(DropConfirmations(e.snd), e.rcv.master, ConfirmationPayloads(e));
    }
  }

  lemma BuildByeByeAwake(e: Endpoint, now: int)
    requires EndOk(e) && AwakeButWrite(e.(timers := e.timers.(buildByeBye := 0))) && now >= 0
    ensures Awake(BuildByeBye(e, now))
  {
    hide EndCore, ByeOk, ArmUdpWrite;
    if e.udpConnected {
      PaceOf(e);
      ArmKeepsPace(e.pacer, e.rate.intervalUs, now);
    }
  }

  // ---------- from UDP ----------

  /** Taking packets out of the store leaves no packet without its event. */
  lemma ConfirmAllAwake(e: Endpoint, d: Datagram)
    requires EndOk(e) && Awake(e) && e.udpConnected && d.kind.Confirmation? && Honest(e, d)
    ensures var c := ConfirmAll(e, d);
      EndOk(c) && Awake(c) && c.udpConnected
  {
    hide EndCore, ByeOk, Grows, ConfirmAll, CoveredBy, Removed;
    var c := ConfirmAll(e, d);
    ConfirmAllRemoves(e, d);
    RemovedFacts(e, c, Acked(e.snd.packets, d));
    WaitingIsCounted(e);
    WaitingIsCounted(c);
  }

  lemma ReadConfirmationAwake(e: Endpoint, d: Datagram, now: int)
    requires EndOk(e) && Awake(e) && e.udpConnected && d.kind.Confirmation? && Honest(e, d) && now >= 0
    ensures Awake(ReadConfirmation(e, d, now))
  {
    hide EndOk, ConfirmAll, IsNoMoreDataWillBeSent, Honest;
    ConfirmAllAwake(e, d);
    WaitingIsCounted(ConfirmAll(e, d));
  }

  lemma ReadNewAwake(e: Endpoint, d: Datagram, now: int)
    requires EndOk(e) && Awake(e) && d.index >= 0 && now >= 0
    ensures Awake(ReadNew(e, d, now))
  {
    hide EndCore, ByeOk, Store, Discard;
  }

  lemma ReadNumberedAwake(e: Endpoint, d: Datagram, now: int)
    requires EndOk(e) && Awake(e) && d.index >= 0 && now >= 0
    ensures Awake(ReadNumbered(e, d, now))
  {
    hide EndCore, ByeOk, ReadNew;
    if d.index !in e.rcv.packets {
      ReadNewAwake(e, d, now);
    }
  }

  lemma ReadByeByeAwake(e: Endpoint, now: int)
    requires Awake(e)
    ensures Awake(ReadByeBye(e, now))
  {
    hide WithoutConfirmations, QueueBytes;
    NoneWithoutSome(e.snd.control);
  }

  lemma NoneWithoutSome(q: seq<Packet>)
    ensures q == [] ==> WithoutConfirmations(q) == []
  {
  }

  lemma UdpReadAwake(e: Endpoint, d: Datagram, now: int)
    requires EndOk(e) && Awake(e) && Honest(e, d) && now >= 0
    ensures Awake(UdpRead(e, d, now))
  {
    hide EndCore, ByeOk, Awake, ReadConfirmation, ReadNumbered, ReadByeBye, CloseIfFinished, CoveredBy;
    if e.udpConnected {
      if d.kind.Confirmation? {
        ReadConfirmationAwake(e, d, now);
        CloseIfFinishedAwake(ReadConfirmation(e, d, now), now);
      } else if Acceptable(e.rcv, d, Window(e.cfg)) {
        ReadNumberedAwake(e, d, now);
        CloseIfFinishedAwake(ReadNumbered(e, d, now), now);
      } else if d.kind.ByeBye? && d.index == e.rcv.master && d.index == e.rcv.final {
        ReadByeByeAwake(e, now);
        CloseIfFinishedAwake(ReadByeBye(e, now), now);
      } else {
        CloseIfFinishedAwake(e, now);
      }
    }
  }

  // ---------- any step ----------

  lemma FlushAwake(e: Endpoint, now: int)
    requires EndOk(e) && Awake(e.(timers := e.timers.(buildUdpPackets := 0))) && now >= 0
    ensures Awake(BuildUdpPackets(e, true, now))
  {
    hide EndCore, EndsWithBye, BuildUdpPackets;
    if e.udpConnected && e.tcpConnected {
      NoByeYet(e);
    }
    BuildAwake(e, true, now);
  }

  /** No handler loses a wake-up, although its own event is disabled while it runs. */
  lemma StepAwake(e: Endpoint, a: Action, now: int)
    requires EndOk(e) && Awake(e) && Ready(e, a, now)
    requires a.Receive? ==> Honest(e, a.d)
    ensures Awake(Step(e, a, now))
  {
    hide EndCore, ByeOk, Grows, Covers, Due, CoveredBy, ResendArmed, WriteArmed;
    hide TcpRead, TcpWrite, TcpClose, UdpWrite, UdpClose, BuildUdpPackets, BuildConfirmations, BuildByeBye, UdpResend, CloseIfFinished, UdpRead;
    var c := e.(clock := now);
    ClockStep(e, now);
    match a {
      case ReadTcp(bytes) => TcpReadAwake(c, bytes, now);
      case WriteTcp(accepted) =>
        var t := c.(timers := c.timers.(tcpWrite := -1));
        TimerStep(c, t.timers);
        UdpArmedSame(c, t);
        TcpWriteAwake(t, accepted, now);
      case CloseTcp(error) => TcpCloseAwake(c, error, now);
      case WriteUdp(taken) =>
        DisarmStep(c);
        UdpWriteAwake(c.(pacer := c.pacer.(udpWrite := -1)), e.pacer.udpWrite, taken, now);
      case CloseUdp =>
        if c.udpConnected {
          UdpCloseAwake(c, ByCaller, now);
        } else {
          AlreadyClosed(c, ByCaller, now);
        }
      case Build =>
        var t := c.(timers := c.timers.(buildUdpPackets := -1));
        TimerStep(c, t.timers);
        FlushAwake(t, now);
      case Confirm =>
        var t := c.(timers := c.timers.(buildConfirmations := -1));
        TimerStep(c, t.timers);
        BuildConfirmationsAwake(t, now);
      case SayByeBye =>
        var t := c.(timers := c.timers.(buildByeBye := -1));
        TimerStep(c, t.timers);
        BuildByeByeAwake(t, now);
      case Resend =>
        var t := c.(timers := c.timers.(udpResend := -1));
        TimerStep(c, t.timers);
        UdpResendAwake(t, now);
      case CloseWait =>
        var t := c.(timers := c.timers.(udpCloseWait := -1));
        TimerStep(c, t.timers);
        CloseIfFinishedAwake(t, now);
      case Receive(d) => UdpReadAwake(c, d, now);
    }
  }
}
