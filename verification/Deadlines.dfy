/** No event is armed further ahead than its delay, and what was closed is drained. */
module Deadlines {
  import opened Base
  import opened Confirmations
  import opened Receivers
  import opened Senders
  import opened Rates
  import opened Endpoints
  import opened Invariants
  import opened Preservation
  import opened PreservationUdp
  import opened PreservationStep
  import opened Effects

  // ---------- the invariant ----------

  ghost predicate TimersIn(t: Timers, cfg: Config, clock: int) {
    && t.tcpWrite <= clock && t.close <= clock
    && t.buildUdpPackets <= clock + cfg.buildUdpPacketsUs
    && t.buildConfirmations <= clock + cfg.buildConfirmationsUs
    && t.buildByeBye <= clock + cfg.buildConfirmationsUs
    && t.udpResend <= clock + cfg.udpResendUs
    && t.udpCloseWait <= clock + cfg.udpResendUs * (cfg.udpResendCount + 1)
  }

  /** No interval in force is above the bound, and the next datagram is due within one. */
  ghost predicate PaceIn(p: Pacer, intervalUs: int, bound: int, clock: int) {
    0 <= intervalUs <= bound && p.lastSentUs <= clock && p.udpWrite <= clock + bound
  }

  ghost predicate SentBefore(packets: map<nat, Packet>, clock: int) {
    forall k: nat :: k in packets && packets[k].sent ==> packets[k].sentTimeUs <= clock
  }

  /** The wait for the peer's goodbye runs only after the end of its stream. */
  ghost predicate WaitsAtEnd(e: Endpoint) {
    e.timers.udpCloseWait >= 0 ==> e.rcv.master == e.rcv.final
  }

  /** With TCP closed, everything contiguous is passed over as long as UDP is open. */
  ghost predicate Drained(e: Endpoint) {
    !e.tcpConnected && e.udpConnected ==> e.rcv.tcpNext >= e.rcv.master
  }

  ghost predicate Timely(e: Endpoint, bound: int) {
    && 0 <= e.clock && e.cfg.udpResendUs / 3 <= bound
    && TimersIn(e.timers, e.cfg, e.clock)
    && PaceIn(e.pacer, e.rate.intervalUs, bound, e.clock)
    && SentBefore(e.snd.packets, e.clock)
    && WaitsAtEnd(e)
  }

  // ---------- parts of handlers ----------

  lemma ArmTimely(e: Endpoint, bound: int)
    requires Timely(e, bound)
    ensures Timely(SetEventUdpWrite(e, e.clock), bound)
    ensures var f := SetEventUdpWrite(e, e.clock); f == e.(pacer := f.pacer)
  {
  }

  lemma QueueTimely(e: Endpoint, kind: Kind, payload: seq<byte>, bound: int)
    requires Timely(e, bound)
    ensures var f := Queue(e, kind, payload, e.clock);
      Timely(f, bound) && f == e.(snd := f.snd, pacer := f.pacer)
  {
    hide TimersIn, PaceIn, ArmUdpWrite, SetEventUdpWrite;
    var m := e.(snd := Enqueue(e.cfg, e.snd, kind, payload));
    assert Timely(m, bound);
    ArmTimely(m, bound);
  }

  lemma {:induction false} CutAllTimely(e: Endpoint, flush: bool, bound: int)
    requires Timely(e, bound)
    ensures var f := CutAll(e, flush, e.clock);
      Timely(f, bound) && f == e.(snd := f.snd, pacer := f.pacer)
    decreases |e.snd.data|
  {
    hide Timely, Queue;
    if Cut(e.cfg, e.snd.data, flush) {
      var n := Min(|e.snd.data|, e.cfg.udpSendPacketSize);
      var m := e.(snd := e.snd.(data := e.snd.data[n..]));
      SndTimely(e, m.snd, bound);
      QueueTimely(m, Data, e.snd.data[..n], bound);
      QueueData(m, Data, e.snd.data[..n]);
      CutAllTimely(Queue(m, Data, e.snd.data[..n], m.clock), flush, bound);
    }
  }

  lemma QueueData(e: Endpoint, kind: Kind, payload: seq<byte>)
    ensures Queue(e, kind, payload, e.clock).snd.data == e.snd.data
  {
  }

  lemma SndTimely(e: Endpoint, s: Sender, bound: int)
    requires Timely(e, bound) && (forall k: nat :: k in s.packets && s.packets[k].sent ==> k in e.snd.packets && s.packets[k] == e.snd.packets[k])
    ensures Timely(e.(snd := s), bound)
  {
    hide TimersIn, PaceIn;
  }

  /** Timers may be disabled or set within their delays. */
  lemma TimersTimely(e: Endpoint, f: Endpoint, bound: int)
    requires Timely(e, bound)
    requires f == e.(timers := f.timers, remainConfirmation := f.remainConfirmation, remainByeBye := f.remainByeBye, tcpConnected := f.tcpConnected)
    requires TimersIn(f.timers, f.cfg, f.clock) && WaitsAtEnd(f)
    ensures Timely(f, bound)
  {
    hide TimersIn, PaceIn, SentBefore, WaitsAtEnd;
  }

  lemma BuildTimely(e: Endpoint, flush: bool, bound: int)
    requires Timely(e, bound)
    ensures var f := BuildUdpPackets(e, flush, e.clock);
      Timely(f, bound) && f == e.(snd := f.snd, pacer := f.pacer, timers := f.timers)
  {
    hide CutAll, PaceIn, SentBefore;
    if e.udpConnected {
      var kept := e.(snd := e.snd.(data := if Finished(e.rcv) then [] else e.snd.data));
      SndTimely(e, kept.snd, bound);
      CutAllTimely(kept, flush, bound);
      TimersTimely(CutAll(kept, flush, e.clock), BuildUdpPackets(e, flush, e.clock), bound);
    }
  }

  lemma TcpReadTimely(e: Endpoint, bytes: seq<byte>, bound: int)
    requires Timely(e, bound)
    ensures Timely(TcpRead(e, bytes, e.clock), bound)
  {
    hide BuildUdpPackets, Timely;
    if e.tcpConnected {
      var r := e.(snd := e.snd.(tcpIn := e.snd.tcpIn + bytes));
      SndTimely(e, r.snd, bound);
      var f := r.(snd := r.snd.(data := r.snd.data + bytes));
      SndTimely(r, f.snd, bound);
      BuildTimely(f, false, bound);
    }
  }

  /** The receiving half moved on without receiving anything. */
  lemma RcvTimely(e: Endpoint, r: Receiver, bound: int)
    requires Timely(e, bound) && r.master == e.rcv.master && r.final == e.rcv.final
    ensures Timely(e.(rcv := r), bound)
  {
    hide TimersIn, PaceIn, SentBefore;
  }

  lemma {:induction false} DiscardMaster(r: Receiver)
    ensures Discard(r).master == r.master && Discard(r).final == r.final
    decreases r.master - r.tcpNext
  {
    if r.tcpNext < r.master && r.tcpNext in r.packets {
      DiscardMaster(Skip(r));
    }
  }

  lemma {:induction false} DeliverMaster(r: Receiver, accepted: int)
    ensures Deliver(r, accepted).r.master == r.master && Deliver(r, accepted).r.final == r.final
    decreases r.master - r.tcpNext
  {
    if r.tcpNext < r.master && r.tcpNext in r.packets {
      DeliverMaster(Skip(r), accepted);
    }
  }

  lemma TcpCloseTimely(e: Endpoint, error: bool, bound: int)
    requires Timely(e, bound)
    ensures Timely(TcpClose(e, error, e.clock), bound)
    ensures !e.udpConnected ==> TcpClose(e, error, e.clock).rcv == e.rcv
  {
    hide BuildUdpPackets, Queue, Discard, PaceIn, SentBefore;
    if e.tcpConnected {
      var c := e.(tcpConnected := false, timers := e.timers.(tcpWrite := -1));
      TimersTimely(e, c, bound);
      if e.udpConnected {
        DiscardMaster(c.rcv);
        var w := TcpWriteFake(c);
        RcvTimely(c, w.rcv, bound);
        BuildTimely(w, true, bound);
        QueueTimely(BuildUdpPackets(w, true, e.clock), if error then Disconnect else Bye, [], bound);
      } else {
        TimersTimely(c, TcpClose(e, error, e.clock), bound);
      }
    }
  }

  lemma TcpWriteTimely(e: Endpoint, accepted: int, bound: int)
    requires Timely(e, bound)
    ensures Timely(TcpWrite(e, accepted, e.clock), bound)
  {
    hide TcpClose, Deliver, PaceIn, SentBefore;
    if e.tcpConnected {
      var d := Deliver(e.rcv, accepted);
      DeliverMaster(e.rcv, accepted);
      var m := e.(rcv := d.r);
      RcvTimely(e, d.r, bound);
      if d.Closing? {
        TcpCloseTimely(m, false, bound);
      } else {
        TimersTimely(m, TcpWrite(e, accepted, e.clock), bound);
      }
    }
  }

  lemma UdpCloseTimely(e: Endpoint, reason: CloseReason, bound: int)
    requires Timely(e, bound)
    ensures Timely(UdpClose(e, reason, e.clock), bound)
  {
    hide TcpClose;
    if e.udpConnected {
      var c := e.(
        udpConnected := false,
        snd := Clear(e.snd),
        pacer := e.pacer.(udpWrite := -1),
        timers := e.timers.(buildUdpPackets := -1, buildConfirmations := -1, udpResend := -1),
        reason := reason);
      assert Timely(c, bound);
      TcpCloseTimely(c, false, bound);
    }
  }

  lemma CloseIfFinishedTimely(e: Endpoint, bound: int)
    requires Timely(e, bound)
    ensures Timely(CloseIfFinished(e, e.clock), bound)
  {
    hide UdpClose, Timely, IsUdpFinished;
    UdpCloseTimely(e, AllDone, bound);
  }

  // ---------- to UDP ----------

  lemma RearmTimely(e: Endpoint, bound: int)
    requires Timely(e, bound)
    ensures Timely(RearmUdpWrite(e), bound)
  {
  }

  lemma UdpWriteTimely(e: Endpoint, planned: int, taken: bool, bound: int)
    requires Timely(e, bound) && planned <= e.clock
    ensures Timely(UdpWrite(e, planned, taken, e.clock), bound)
  {
    hide UdpClose, OnSent, IsUdpFinished, RearmUdpWrite;
    RearmTimely(e, bound);
    if e.udpConnected {
      if e.snd.control != [] {
        var c := SendControl(e, planned);
        assert Timely(c, bound);
        RearmTimely(c, bound);
        UdpCloseTimely(c, AllDone, bound);
      } else if FirstUnsent(e.snd.packets).Some? && taken {
        var k := FirstUnsent(e.snd.packets).value;
        SentInterval(e.cfg, e.rate, e.snd.packets[k].Size(), e.clock);
        var s := SendPacket(e, k, planned, e.clock);
        assert Timely(s, bound);
        var c := s.(snd := Erase(s.snd, k));
        SndTimely(s, c.snd, bound);
        RearmTimely(c, bound);
        UdpCloseTimely(c, AllDone, bound);
        var a := ArmResend(s, e.clock + e.cfg.udpResendUs);
        TimersTimely(s, a, bound);
        RearmTimely(a, bound);
      }
    }
  }

  // ---------- answers ----------

  lemma DeliveredTimely(e: Endpoint, success: bool, p: Packet, bound: int)
    requires Timely(e, bound)
    ensures Timely(Delivered(e, success, p), bound)
  {
    hide TimersIn, SentBefore, SetInterval, Rates.Round;
    DeliveredInterval(e.cfg, e.rate, success, p.measureIndex, p.Size());
  }

  lemma DeliveredInterval(cfg: Config, r: Rate, success: bool, measureIndex: int, size: nat)
    ensures var f := OnDelivered(cfg, r, success, measureIndex, size);
      f.intervalUs == r.intervalUs || 0 <= f.intervalUs <= cfg.udpResendUs / 3
  {
    hide SetInterval, Rates.Round;
    if measureIndex >= 0 && measureIndex in r.measures {
      var m := Credit(r.measures[measureIndex], success, size);
      if Answered(m) {
        SetIntervalIn(cfg, m);
      }
    }
  }

  lemma SetIntervalIn(cfg: Config, m: Measure)
    requires m.count > 0
    ensures 0 <= Rates.Round(SetInterval(cfg, m)) <= cfg.udpResendUs / 3
  {
    hide Amplifier, PlannedInterval, NextInterval;
    AmplifierRange(cfg, m);
    ClampRange(NextInterval(PlannedInterval(m), Amplifier(cfg, m), MaxInterval(cfg)), MaxInterval(cfg));
  }

  lemma ExpireTimely(e: Endpoint, k: nat, bound: int)
    requires Timely(e, bound) && k in e.snd.packets
    ensures Timely(ExpireOne(e, k, e.clock), bound) && ExpireOne(e, k, e.clock).clock == e.clock
  {
    hide Timely, Delivered, SetEventUdpWrite;
    var x := e.(snd := Expire(e.snd, k));
    SndTimely(e, x.snd, bound);
    var d := Delivered(x, false, e.snd.packets[k]);
    DeliveredTimely(x, false, e.snd.packets[k], bound);
    DeliveredClock(x, false, e.snd.packets[k]);
    ArmTimely(d, bound);
  }

  lemma DeliveredClock(e: Endpoint, success: bool, p: Packet)
    ensures Delivered(e, success, p).clock == e.clock
  {
  }

  lemma {:induction false} ResendFromTimely(e: Endpoint, ks: seq<nat>, i: nat, bound: int)
    requires Timely(e, bound)
    ensures Timely(ResendFrom(e, ks, i, e.clock), bound)
    decreases |ks| - i
  {
    hide UdpClose, ExpireOne, PaceIn;
    if i < |ks| {
      if ks[i] !in e.snd.packets || !e.snd.packets[ks[i]].sent {
        ResendFromTimely(e, ks, i + 1, bound);
      } else {
        var p := e.snd.packets[ks[i]];
        var a := ArmResend(e, p.sentTimeUs + e.cfg.udpResendUs);
        TimersTimely(e, a, bound);
        ResendFromTimely(a, ks, i + 1, bound);
        ExpireTimely(e, ks[i], bound);
        ResendFromTimely(ExpireOne(e, ks[i], e.clock), ks, i + 1, bound);
        UdpCloseTimely(e, NoAnswer(ks[i]), bound);
      }
    }
  }

  lemma ConfirmOneTimely(e: Endpoint, k: nat, bound: int)
    requires Timely(e, bound) && k in e.snd.packets
    ensures Timely(ConfirmOne(e, k), bound)
  {
    hide Timely, Delivered;
    DeliveredTimely(e, true, e.snd.packets[k], bound);
    DeliveredSnd(e, true, e.snd.packets[k]);
    var c := if e.snd.packets[k].confirmed then e else Delivered(e, true, e.snd.packets[k]);
    SndTimely(c, Acknowledge(c.snd, k), bound);
  }

  lemma DeliveredSnd(e: Endpoint, success: bool, p: Packet)
    ensures Delivered(e, success, p).snd == e.snd
  {
  }

  lemma {:induction false} ConfirmBelowTimely(e: Endpoint, ks: seq<nat>, i: nat, master: int, bound: int)
    requires Timely(e, bound)
    ensures Timely(ConfirmBelow(e, ks, i, master), bound)
    decreases |ks| - i
  {
    hide Timely, ConfirmOne;
    if i < |ks| && ks[i] < master {
      if ks[i] in e.snd.packets {
        ConfirmOneTimely(e, ks[i], bound);
        ConfirmBelowTimely(ConfirmOne(e, ks[i]), ks, i + 1, master, bound);
      } else {
        ConfirmBelowTimely(e, ks, i + 1, master, bound);
      }
    }
  }

  lemma {:induction false} ConfirmListedTimely(e: Endpoint, indices: seq<int>, i: nat, bound: int)
    requires Timely(e, bound)
    ensures Timely(ConfirmListed(e, indices, i), bound)
    decreases |indices| - i
  {
    hide Timely, ConfirmOne;
    if i < |indices| {
      if indices[i] >= 0 && indices[i] in e.snd.packets {
        ConfirmOneTimely(e, indices[i], bound);
        ConfirmListedTimely(ConfirmOne(e, indices[i]), indices, i + 1, bound);
      } else {
        ConfirmListedTimely(e, indices, i + 1, bound);
      }
    }
  }

  lemma {:induction false} ConfirmBelowClock(e: Endpoint, ks: seq<nat>, i: nat, master: int)
    ensures var f := ConfirmBelow(e, ks, i, master); f.clock == e.clock && f.rcv == e.rcv
    decreases |ks| - i
  {
    hide OnDelivered;
    if i < |ks| && ks[i] < master {
      ConfirmBelowClock(if ks[i] in e.snd.packets then ConfirmOne(e, ks[i]) else e, ks, i + 1, master);
    }
  }

  lemma {:induction false} ConfirmListedClock(e: Endpoint, indices: seq<int>, i: nat)
    ensures var f := ConfirmListed(e, indices, i); f.clock == e.clock && f.rcv == e.rcv
    decreases |indices| - i
  {
    hide OnDelivered;
    if i < |indices| {
      ConfirmListedClock(if indices[i] >= 0 && indices[i] in e.snd.packets then ConfirmOne(e, indices[i]) else e, indices, i + 1);
    }
  }

  lemma ConfirmAllTimely(e: Endpoint, d: Datagram, bound: int)
    requires Timely(e, bound)
    ensures var f := ConfirmAll(e, d); Timely(f, bound) && f.clock == e.clock && f.rcv == e.rcv
  {
    hide Timely, ConfirmBelow, ConfirmListed, Listed;
    var ks := Ascending(e.snd.packets.Keys);
    var b := ConfirmBelow(e, ks, 0, d.index);
    ConfirmBelowTimely(e, ks, 0, d.index, bound);
    ConfirmBelowClock(e, ks, 0, d.index);
    ConfirmListedTimely(b, Listed(d.index, d.payload), 0, bound);
    ConfirmListedClock(b, Listed(d.index, d.payload), 0);
  }

  // ---------- rounds and reading ----------

  lemma {:induction false} PushAllPackets(s: Sender, master: int, payloads: seq<seq<byte>>)
    ensures PushAll(s, master, payloads).packets == s.packets
    decreases |payloads|
  {
    if payloads != [] {
      PushAllPackets(PushControl(s, Confirmation, master, payloads[0]), master, payloads[1..]);
    }
  }

  lemma BuildConfirmationsTimely(e: Endpoint, bound: int)
    requires Timely(e, bound)
    ensures Timely(BuildConfirmations(e, e.clock), bound)
  {
    hide PushAll, ConfirmationPayloads, WithoutConfirmations, QueueBytes, Pruned, Dropped, Total, SetEventUdpWrite, PaceIn, SentBefore;
    if e.udpConnected {
      var pushed := e.(snd := PushAll(DropConfirmations(e.snd), e.rcv.master, ConfirmationPayloads(e)));
      PushAllPackets(DropConfirmations(e.snd), e.rcv.master, ConfirmationPayloads(e));
      SndTimely(e, pushed.snd, bound);
      ArmTimely(pushed, bound);
      var c := SetEventUdpWrite(pushed, e.clock);
      RcvTimely(c, Prune(c.rcv), bound);
      TimersTimely(c.(rcv := Prune(c.rcv)), BuildConfirmations(e, e.clock), bound);
    }
  }

  lemma BuildByeByeTimely(e: Endpoint, bound: int)
    requires Timely(e, bound)
    ensures Timely(BuildByeBye(e, e.clock), bound)
  {
    hide SetEventUdpWrite, PaceIn, SentBefore;
    if e.udpConnected {
      var pushed := e.(snd := PushControl(e.snd, ByeBye, e.snd.next, []));
      SndTimely(e, pushed.snd, bound);
      ArmTimely(pushed, bound);
      TimersTimely(SetEventUdpWrite(pushed, e.clock), BuildByeBye(e, e.clock), bound);
    }
  }

  lemma ReadConfirmationTimely(e: Endpoint, d: Datagram, bound: int)
    requires Timely(e, bound)
    ensures Timely(ReadConfirmation(e, d, e.clock), bound)
  {
    hide ConfirmAll, IsNoMoreDataWillBeSent, PaceIn, SentBefore;
    ConfirmAllTimely(e, d, bound);
    TimersTimely(ConfirmAll(e, d), ReadConfirmation(e, d, e.clock), bound);
  }

  lemma NotWaiting(e: Endpoint, bound: int)
    requires Timely(e, bound) && e.rcv.master < e.rcv.final
    ensures e.timers.udpCloseWait < 0
  {
  }

  lemma NewBelowFinal(e: Endpoint, d: Datagram, now: int)
    requires EndOk(e) && Acceptable(e.rcv, d, Window(e.cfg)) && d.index !in e.rcv.packets
    requires d.WellFormed(e.cfg.udpSendPacketSize) && d.index < INT_MAX - 1
    ensures ReadNew(e, d, now).rcv.master <= ReadNew(e, d, now).rcv.final
  {
    hide EndOk, ReadNew, RecvOk, Keeps;
    ReadNewKeeps(e, d, now);
    var f := ReadNew(e, d, now);
    EndReceiver(f);
    MasterBelowFinal(f.rcv, Window(f.cfg), f.cfg.udpSendPacketSize, f.tcpConnected);
  }

  lemma ReadNewTimely(e: Endpoint, d: Datagram, bound: int)
    requires EndOk(e) && Timely(e, bound) && Acceptable(e.rcv, d, Window(e.cfg)) && d.index !in e.rcv.packets
    requires d.WellFormed(e.cfg.udpSendPacketSize) && d.index < INT_MAX - 1
    ensures Timely(ReadNew(e, d, e.clock), bound)
  {
    hide EndOk, Store, Discard, PaceIn, SentBefore;
    var m := e.(rcv := Store(e.rcv, d));
    NotWaiting(e, bound);
    StoredTimely(e, m.rcv, bound);
    DiscardMaster(m.rcv);
    var c := TcpWriteFake(m);
    RcvTimely(m, c.rcv, bound);
    var f := ReadNew(e, d, e.clock);
    NewBelowFinal(e, d, e.clock);
    assert e.cfg.udpResendUs * (e.cfg.udpResendCount + 1) == CloseWaitUs(e.cfg);
    TimersTimely(c, f, bound);
  }

  lemma StoredTimely(e: Endpoint, r: Receiver, bound: int)
    requires Timely(e, bound) && e.timers.udpCloseWait < 0
    ensures Timely(e.(rcv := r), bound)
  {
    hide TimersIn, PaceIn, SentBefore;
  }

  lemma ReadNumberedTimely(e: Endpoint, d: Datagram, bound: int)
    requires EndOk(e) && Timely(e, bound) && Acceptable(e.rcv, d, Window(e.cfg))
    requires d.WellFormed(e.cfg.udpSendPacketSize) && d.index < INT_MAX - 1
    ensures Timely(ReadNumbered(e, d, e.clock), bound)
  {
    hide EndOk, ReadNew, PaceIn, SentBefore;
    if d.index in e.rcv.packets {
      TimersTimely(e, ReadNumbered(e, d, e.clock), bound);
    } else {
      ReadNewTimely(e, d, bound);
      ReadNewSame(e, d, e.clock);
      TimersTimely(ReadNew(e, d, e.clock), ReadNumbered(e, d, e.clock), bound);
    }
  }

  lemma ReadNewSame(e: Endpoint, d: Datagram, now: int)
    requires d.index >= 0
    ensures ReadNew(e, d, now).clock == e.clock && ReadNew(e, d, now).cfg == e.cfg
  {
    hide Store, Discard;
  }

  lemma ReadByeByeTimely(e: Endpoint, bound: int)
    requires Timely(e, bound)
    ensures Timely(ReadByeBye(e, e.clock), bound)
  {
    hide WithoutConfirmations, QueueBytes, PaceIn, SentBefore;
    var c := e.(snd := DropConfirmations(e.snd));
    SndTimely(e, c.snd, bound);
    assert c.timers.udpCloseWait >= 0 ==>
      SetTime(c.timers.udpCloseWait, e.clock + (e.cfg.udpResendUs * e.cfg.confirmationResendCount / 3 + e.cfg.udpResendUs)) <= c.timers.udpCloseWait;
    TimersTimely(c, ReadByeBye(e, e.clock), bound);
  }

  lemma UdpReadTimely(e: Endpoint, d: Datagram, bound: int)
    requires EndOk(e) && Timely(e, bound) && Honest(e, d)
    ensures Timely(UdpRead(e, d, e.clock), bound)
  {
    hide EndOk, Timely, ReadConfirmation, ReadNumbered, ReadByeBye, CloseIfFinished;
    if e.udpConnected {
      if d.kind.Confirmation? {
        ReadConfirmationTimely(e, d, bound);
        ReadKeepsClock(e, d, e.clock);
        CloseIfFinishedTimely(ReadConfirmation(e, d, e.clock), bound);
      } else if Acceptable(e.rcv, d, Window(e.cfg)) {
        ReadNumberedTimely(e, d, bound);
        ReadKeepsClock(e, d, e.clock);
        CloseIfFinishedTimely(ReadNumbered(e, d, e.clock), bound);
      } else if d.kind.ByeBye? && d.index == e.rcv.master && d.index == e.rcv.final {
        ReadByeByeTimely(e, bound);
        ReadKeepsClock(e, d, e.clock);
        CloseIfFinishedTimely(ReadByeBye(e, e.clock), bound);
      } else {
        CloseIfFinishedTimely(e, bound);
      }
    }
  }

  lemma ReadKeepsClock(e: Endpoint, d: Datagram, now: int)
    ensures ReadConfirmation(e, d, now).clock == e.clock && ReadByeBye(e, now).clock == e.clock
    ensures d.index >= 0 ==> ReadNumbered(e, d, now).clock == e.clock
  {
    hide ConfirmBelow, ConfirmListed, IsNoMoreDataWillBeSent, ReadNew, Listed, WithoutConfirmations, QueueBytes;
    var ks := Ascending(e.snd.packets.Keys);
    ConfirmBelowClock(e, ks, 0, d.index);
    ConfirmListedClock(ConfirmBelow(e, ks, 0, d.index), Listed(d.index, d.payload), 0);
    if d.index >= 0 {
      ReadNewSame(e, d, now);
    }
  }

  // ---------- any step ----------

  lemma ClockTimely(e: Endpoint, now: int, bound: int)
    requires Timely(e, bound) && e.clock <= now
    ensures Timely(e.(clock := now), bound)
  {
  }

  lemma DisarmedTimely(e: Endpoint, t: Timers, p: Pacer, bound: int)
    requires Timely(e, bound) && TimersIn(t, e.cfg, e.clock) && t.udpCloseWait <= e.timers.udpCloseWait
    requires p == e.pacer || p == e.pacer.(udpWrite := -1)
    requires t.udpCloseWait >= 0 ==> e.timers.udpCloseWait >= 0
    ensures Timely(e.(timers := t, pacer := p), bound)
  {
  }

  lemma HonestNow(e: Endpoint, d: Datagram, now: int)
    requires Honest(e, d)
    ensures Honest(e.(clock := now), d)
  {
  }

  lemma UdpResendTimely(e: Endpoint, bound: int)
    requires Timely(e, bound)
    ensures Timely(UdpResend(e, e.clock), bound)
  {
    hide Timely, ResendFrom;
    ResendFromTimely(e, Ascending(e.snd.packets.Keys), 0, bound);
  }

  lemma TimelyTimers(e: Endpoint, bound: int)
    requires Timely(e, bound)
    ensures 0 <= e.clock && TimersIn(e.timers, e.cfg, e.clock)
    ensures TimersIn(e.timers.(tcpWrite := -1), e.cfg, e.clock) && TimersIn(e.timers.(buildUdpPackets := -1), e.cfg, e.clock)
    ensures TimersIn(e.timers.(buildConfirmations := -1), e.cfg, e.clock) && TimersIn(e.timers.(buildByeBye := -1), e.cfg, e.clock)
    ensures TimersIn(e.timers.(udpResend := -1), e.cfg, e.clock)
    ensures e.timers.udpCloseWait >= 0 ==> TimersIn(e.timers.(udpCloseWait := -1), e.cfg, e.clock)
  {
    assert e.cfg.udpResendUs * (e.cfg.udpResendCount + 1) >= 0;
  }

  /** The events of the rounds, of resending and of the wait. */
  predicate IsRound(a: Action) { a.Build? || a.Confirm? || a.SayByeBye? || a.Resend? || a.CloseWait? }

  lemma RoundTimely(e: Endpoint, a: Action, now: int, bound: int)
    requires Timely(e, bound) && Ready(e, a, now) && IsRound(a)
    ensures Timely(Step(e, a, now), bound)
  {
    hide Timely, TimersIn;
    hide BuildUdpPackets, BuildConfirmations, BuildByeBye, UdpResend, CloseIfFinished;
    var c := e.(clock := now);
    ClockTimely(e, now, bound);
    TimelyTimers(c, bound);
    match a {
      case Build =>
        var t := c.timers.(buildUdpPackets := -1);
        DisarmedTimely(c, t, c.pacer, bound);
        BuildTimely(c.(timers := t), true, bound);
      case Confirm =>
        var t := c.timers.(buildConfirmations := -1);
        DisarmedTimely(c, t, c.pacer, bound);
        BuildConfirmationsTimely(c.(timers := t), bound);
      case SayByeBye =>
        var t := c.timers.(buildByeBye := -1);
        DisarmedTimely(c, t, c.pacer, bound);
        BuildByeByeTimely(c.(timers := t), bound);
      case Resend =>
        var t := c.timers.(udpResend := -1);
        DisarmedTimely(c, t, c.pacer, bound);
        UdpResendTimely(c.(timers := t), bound);
      case CloseWait =>
        var t := c.timers.(udpCloseWait := -1);
        DisarmedTimely(c, t, c.pacer, bound);
        CloseIfFinishedTimely(c.(timers := t), bound);
    }
  }

  /** Every handler arms its events within their delays. */
  lemma StepTimely(e: Endpoint, a: Action, now: int, bound: int)
    requires EndOk(e) && Timely(e, bound) && Ready(e, a, now)
    requires a.Receive? ==> Honest(e, a.d)
    ensures Timely(Step(e, a, now), bound)
  {
    hide EndOk, Timely, TimersIn, Honest, Keeps;
    hide TcpRead, TcpWrite, TcpClose, UdpWrite, UdpClose, BuildUdpPackets, BuildConfirmations, BuildByeBye, UdpResend, CloseIfFinished, UdpRead;
    if IsRound(a) {
      RoundTimely(e, a, now, bound);
    } else {
      var c := e.(clock := now);
      ClockTimely(e, now, bound);
      TimelyTimers(c, bound);
      match a {
        case ReadTcp(bytes) => TcpReadTimely(c, bytes, bound);
        case WriteTcp(accepted) =>
          var t := c.timers.(tcpWrite := -1);
          DisarmedTimely(c, t, c.pacer, bound);
          TcpWriteTimely(c.(timers := t), accepted, bound);
        case CloseTcp(error) => TcpCloseTimely(c, error, bound);
        case WriteUdp(taken) =>
          var p := c.pacer.(udpWrite := -1);
          DisarmedTimely(c, c.timers, p, bound);
          UdpWriteTimely(c.(pacer := p), e.pacer.udpWrite, taken, bound);
        case CloseUdp => UdpCloseTimely(c, ByCaller, bound);
        case Receive(d) =>
          ClockStep(e, now);
          HonestNow(e, d, now);
          UdpReadTimely(c, d, bound);
      }
    }
  }

  // ---------- draining ----------

  /** While UDP stays open, nothing was closed and nothing contiguous came or went. */
  ghost predicate SameDrain(e: Endpoint, f: Endpoint) {
    f.udpConnected ==>
      && e.udpConnected && f.tcpConnected == e.tcpConnected
      && f.rcv.tcpNext == e.rcv.tcpNext && f.rcv.master == e.rcv.master
  }

  lemma SameDrained(e: Endpoint, f: Endpoint)
    requires Drained(e) && SameDrain(e, f)
    ensures Drained(f)
  {
  }

  lemma {:induction false} CutAllOpen(e: Endpoint, flush: bool, now: int)
    ensures CutAll(e, flush, now).udpConnected == e.udpConnected
    decreases |e.snd.data|
  {
    if Cut(e.cfg, e.snd.data, flush) {
      var n := Min(|e.snd.data|, e.cfg.udpSendPacketSize);
      CutAllOpen(Queue(e.(snd := e.snd.(data := e.snd.data[n..])), Data, e.snd.data[..n], now), flush, now);
    }
  }

  lemma BuildDrain(e: Endpoint, flush: bool, now: int)
    ensures SameDrain(e, BuildUdpPackets(e, flush, now))
  {
    hide CutAll;
    BuildReceiver(e, flush, now);
    BuildTcp(e, flush, now);
    CutAllOpen(e.(snd := e.snd.(data := if Finished(e.rcv) then [] else e.snd.data)), flush, now);
  }

  lemma CloseIfFinishedDrain(e: Endpoint, now: int)
    ensures SameDrain(e, CloseIfFinished(e, now))
  {
    hide UdpClose, IsUdpFinished;
    NeverOpen(e, AllDone, now);
  }

  lemma UdpWriteDrain(e: Endpoint, planned: int, taken: bool, now: int)
    ensures SameDrain(e, UdpWrite(e, planned, taken, now))
  {
    hide UdpClose, OnSent, IsUdpFinished;
    if e.udpConnected {
      if e.snd.control != [] {
        NeverOpen(SendControl(e, planned), AllDone, now);
      } else if FirstUnsent(e.snd.packets).Some? {
        var k := FirstUnsent(e.snd.packets).value;
        var s := SendPacket(e, k, planned, now);
        NeverOpen(s.(snd := Erase(s.snd, k)), AllDone, now);
      }
    }
  }

  lemma {:induction false} ResendFromDrain(e: Endpoint, ks: seq<nat>, i: nat, now: int)
    ensures SameDrain(e, ResendFrom(e, ks, i, now))
    decreases |ks| - i
  {
    hide UdpClose, OnDelivered;
    if i < |ks| {
      if ks[i] !in e.snd.packets || !e.snd.packets[ks[i]].sent {
        ResendFromDrain(e, ks, i + 1, now);
      } else {
        ResendFromDrain(ArmResend(e, e.snd.packets[ks[i]].sentTimeUs + e.cfg.udpResendUs), ks, i + 1, now);
        ResendFromDrain(ExpireOne(e, ks[i], now), ks, i + 1, now);
        NeverOpen(e, NoAnswer(ks[i]), now);
      }
    }
  }

  lemma {:induction false} ConfirmBelowOpen(e: Endpoint, ks: seq<nat>, i: nat, master: int)
    ensures var f := ConfirmBelow(e, ks, i, master); f.udpConnected == e.udpConnected && f.tcpConnected == e.tcpConnected
    decreases |ks| - i
  {
    hide OnDelivered;
    if i < |ks| && ks[i] < master {
      ConfirmBelowOpen(if ks[i] in e.snd.packets then ConfirmOne(e, ks[i]) else e, ks, i + 1, master);
    }
  }

  lemma {:induction false} ConfirmListedOpen(e: Endpoint, indices: seq<int>, i: nat)
    ensures var f := ConfirmListed(e, indices, i); f.udpConnected == e.udpConnected && f.tcpConnected == e.tcpConnected
    decreases |indices| - i
  {
    hide OnDelivered;
    if i < |indices| {
      ConfirmListedOpen(if indices[i] >= 0 && indices[i] in e.snd.packets then ConfirmOne(e, indices[i]) else e, indices, i + 1);
    }
  }

  lemma ReadConfirmationDrain(e: Endpoint, d: Datagram, now: int)
    ensures SameDrain(e, ReadConfirmation(e, d, now))
  {
    hide ConfirmBelow, ConfirmListed, Listed, IsNoMoreDataWillBeSent;
    var ks := Ascending(e.snd.packets.Keys);
    var b := ConfirmBelow(e, ks, 0, d.index);
    ConfirmBelowOpen(e, ks, 0, d.index);
    ConfirmBelowClock(e, ks, 0, d.index);
    ConfirmListedOpen(b, Listed(d.index, d.payload), 0);
    ConfirmListedClock(b, Listed(d.index, d.payload), 0);
  }

  lemma ReadNumberedDrained(e: Endpoint, d: Datagram, now: int)
    requires EndOk(e) && Drained(e) && Acceptable(e.rcv, d, Window(e.cfg))
    requires d.WellFormed(e.cfg.udpSendPacketSize) && d.index < INT_MAX - 1
    ensures Drained(ReadNumbered(e, d, now))
  {
    hide EndCore, ByeOk, Store, TcpWriteFake, Grows, Covers;
    if d.index !in e.rcv.packets {
      StoreStep(e, d);
      TcpWriteFakeKeeps(e.(rcv := Store(e.rcv, d)));
    }
  }

  lemma UdpReadDrained(e: Endpoint, d: Datagram, now: int)
    requires EndOk(e) && Drained(e) && Honest(e, d)
    ensures Drained(UdpRead(e, d, now))
  {
    hide EndOk, Drained, SameDrain, ReadConfirmation, ReadNumbered, ReadByeBye, CloseIfFinished;
    if e.udpConnected {
      if d.kind.Confirmation? {
        ReadConfirmationDrain(e, d, now);
        SameDrained(e, ReadConfirmation(e, d, now));
        FinishedDrained(ReadConfirmation(e, d, now), now);
      } else if Acceptable(e.rcv, d, Window(e.cfg)) {
        ReadNumberedDrained(e, d, now);
        FinishedDrained(ReadNumbered(e, d, now), now);
      } else if d.kind.ByeBye? && d.index == e.rcv.master && d.index == e.rcv.final {
        ReadByeByeDrain(e, now);
        SameDrained(e, ReadByeBye(e, now));
        FinishedDrained(ReadByeBye(e, now), now);
      } else {
        FinishedDrained(e, now);
      }
    }
  }

  lemma FinishedDrained(e: Endpoint, now: int)
    requires Drained(e)
    ensures Drained(CloseIfFinished(e, now))
  {
    hide CloseIfFinished;
    CloseIfFinishedDrain(e, now);
  }

  lemma ReadByeByeDrain(e: Endpoint, now: int)
    ensures SameDrain(e, ReadByeBye(e, now))
  {
  }

  lemma TcpCloseDrained(e: Endpoint, error: bool, now: nat)
    requires EndOk(e) && Drained(e)
    ensures Drained(TcpClose(e, error, now))
  {
    hide EndOk, BuildUdpPackets, Queue, Discard;
    if e.tcpConnected {
      ClosingPacketTells(e, error, now);
    }
  }

  lemma TcpWriteDrained(e: Endpoint, accepted: int, now: nat)
    requires EndOk(e) && Drained(e)
    ensures Drained(TcpWrite(e, accepted, now))
  {
    hide EndCore, RecvOk, Deliver, TcpClose;
    if e.tcpConnected {
      CoreReceiver(e);
      DeliverKeeps(e.rcv, accepted, Window(e.cfg), e.cfg.udpSendPacketSize);
      var d := Deliver(e.rcv, accepted);
      ReceiverKeeps(e, d.r, true);
      var m := e.(rcv := d.r);
      assert m == e.(rcv := d.r, tcpConnected := true);
      TcpCloseDrained(m, false, now);
    }
  }

  /** Every handler leaves a connection drained whose TCP side is closed. */
  lemma StepDrained(e: Endpoint, a: Action, now: int)
    requires EndOk(e) && Drained(e) && Ready(e, a, now)
    requires a.Receive? ==> Honest(e, a.d)
    ensures Drained(Step(e, a, now))
  {
    hide EndOk, Honest, Grows, Covers;
    hide TcpWrite, TcpClose, UdpWrite, UdpClose, BuildUdpPackets, ResendFrom, CloseIfFinished, UdpRead, PushAll, ConfirmationPayloads, Pruned, Dropped, Total, ArmUdpWrite;
    var c := e.(clock := now);
    ClockStep(e, now);
    match a {
      case ReadTcp(bytes) =>
        BuildDrain(c.(snd := c.snd.(tcpIn := c.snd.tcpIn + bytes, data := c.snd.data + bytes)), false, now);
      case WriteTcp(accepted) =>
        var t := c.(timers := c.timers.(tcpWrite := -1));
        TimerStep(c, t.timers);
        TcpWriteDrained(t, accepted, now);
      case CloseTcp(error) => TcpCloseDrained(c, error, now);
      case WriteUdp(taken) => UdpWriteDrain(c.(pacer := c.pacer.(udpWrite := -1)), e.pacer.udpWrite, taken, now);
      case CloseUdp =>
        NeverOpen(c, ByCaller, now);
      case Build => BuildDrain(c.(timers := c.timers.(buildUdpPackets := -1)), true, now);
      case Confirm =>
      case SayByeBye =>
      case Resend =>
        var r := c.(timers := c.timers.(udpResend := -1));
        ResendFromDrain(r, Ascending(r.snd.packets.Keys), 0, now);
      case CloseWait => CloseIfFinishedDrain(c.(timers := c.timers.(udpCloseWait := -1)), now);
      case Receive(d) =>
        HonestNow(e, d, now);
        UdpReadDrained(c, d, now);
    }
  }
}
