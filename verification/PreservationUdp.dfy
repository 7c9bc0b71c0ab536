/** The handlers that talk to UDP keep the invariant. */
module PreservationUdp {
  import opened Base
  import opened Confirmations
  import opened Receivers
  import opened Senders
  import opened Rates
  import opened Endpoints
  import opened Invariants
  import opened Preservation

  lemma CoreParts(e: Endpoint)
    requires EndCore(e)
    ensures SendOk(e.cfg, e.snd, e.udpConnected, e.clock)
    ensures RateOkAt(e.rate, e.clock) && Counted(e.cfg, e.rate, e.snd.packets, e.snd.late, e.udpConnected)
    ensures Paced(e.pacer, e.rate.intervalUs)
    ensures AllTruthful(e.snd.outbox, e.snd.control, e.rcv.got)
    ensures StreamIn(e.snd, Finished(e.rcv), e.udpConnected)
    ensures ReasonOk(e)
  {
    hide SendOk, RecvOk, RateOkAt, Counted, Paced, AllTruthful, StreamIn, EndsWithBye, ReasonOk;
  }

  /** A step of the sending half, the rate and the pacing together. */
  lemma KeepsFrom(e: Endpoint, f: Endpoint)
    requires EndCore(e) && e.udpConnected
    requires f == e.(snd := f.snd, rate := f.rate, pacer := f.pacer)
    requires SendOk(f.cfg, f.snd, true, f.clock) && SendGrows(e.snd, f.snd)
    requires RateOkAt(f.rate, f.clock) && Counted(f.cfg, f.rate, f.snd.packets, f.snd.late, true)
    requires Paced(f.pacer, f.rate.intervalUs)
    requires e.pacer.lastSentUs <= f.pacer.lastSentUs && e.pacer.sends <= f.pacer.sends
    requires AllTruthful(f.snd.outbox, f.snd.control, f.rcv.got)
    requires f.snd.log == e.snd.log && f.snd.data == e.snd.data && f.snd.tcpIn == e.snd.tcpIn
    ensures EndCore(f) && Grows(e, f)
    ensures e.snd.packets.Keys <= f.snd.packets.Keys ==> Keeps(e, f)
    ensures ByeOk(e) ==> ByeOk(f)
  {
    hide SendOk, RecvOk, RateOkAt, Counted, Paced, AllTruthful, EndsWithBye, LogContents, SendGrows;
    if e.snd.packets.Keys <= f.snd.packets.Keys {
      CoversSame(e, f);
    }
  }

  lemma CoversSame(e: Endpoint, f: Endpoint)
    requires EndCore(e) && e.udpConnected && f.udpConnected
    requires f.snd.log == e.snd.log && e.snd.packets.Keys <= f.snd.packets.Keys
    ensures Covers(e, f, {})
  {
    hide EndCore;
  }

  // ---------- sending ----------

  lemma TruthWithPopped(outbox: set<Datagram>, control: seq<Packet>, got: map<nat, Datagram>)
    requires AllTruthful(outbox, control, got) && control != []
    ensures AllTruthful(outbox + {control[0].dg}, control[1..], got)
  {
    hide Truthful;
  }

  lemma SendControlKeeps(e: Endpoint, planned: int)
    requires EndCore(e) && e.udpConnected && e.snd.control != []
    requires e.pacer.udpWrite < 0 && Due(e.pacer, planned)
    ensures Keeps(e, SendControl(e, planned))
    ensures ByeOk(e) ==> ByeOk(SendControl(e, planned))
  {
    CoreParts(e);
    hide EndCore, SendOk, RateOkAt, Counted, Paced, AllTruthful, Took, Due, Keeps, SendGrows, Grows, Covers, ByeOk;
    var f := SendControl(e, planned);
    PopControlKeeps(e.cfg, e.snd, true, e.clock);
    TookKeepsPace(e.pacer, planned, e.rate.intervalUs);
    TruthWithPopped(e.snd.outbox, e.snd.control, e.rcv.got);
    TookGrows(e.pacer, planned, e.rate.intervalUs);
    KeepsFrom(e, f);
  }

  lemma TookGrows(p: Pacer, planned: int, intervalUs: int)
    ensures p.sends <= Took(p, planned, intervalUs).sends
  {
  }

  lemma TruthWithNumbered(outbox: set<Datagram>, control: seq<Packet>, got: map<nat, Datagram>, d: Datagram)
    requires AllTruthful(outbox, control, got) && d.IsNumbered()
    ensures AllTruthful(outbox + {d}, control, got)
  {
    assert Truthful(d, got);
    hide Truthful;
  }

  lemma StoredIsNumbered(cfg: Config, s: Sender, open: bool, clock: int, k: nat)
    requires SendOk(cfg, s, open, clock) && k in s.packets
    ensures k < |s.log| && s.packets[k].dg == s.log[k] && s.packets[k].dg.IsNumbered() && !s.packets[k].confirmed
    ensures s.packets[k].remainResendCount <= cfg.udpResendCount
    ensures WasTried(s.packets[k], cfg.udpResendCount) <==> k in s.attempts
  {
    hide Total, QueueBytes, OutboxOk, ControlOk;
    assert s.log[k].WellFormed(cfg.udpSendPacketSize);
    assert BudgetOk(cfg, s.packets[k], s.attempts, k, clock);
  }

  lemma CountsKeepsPace(p: Pacer, s: Send, intervalUs: int)
    requires Paced(p, intervalUs)
    ensures Paced(Counts(p, s), intervalUs) && Counts(p, s) == p.(counted := Counts(p, s).counted)
  {
  }

  lemma SendPacketKeeps(e: Endpoint, k: nat, planned: int, now: int)
    requires EndCore(e) && e.udpConnected && k in e.snd.packets && !e.snd.packets[k].sent
    requires e.pacer.udpWrite < 0 && Due(e.pacer, planned) && e.clock == now
    ensures Keeps(e, SendPacket(e, k, planned, now))
    ensures ByeOk(e) ==> ByeOk(SendPacket(e, k, planned, now))
    ensures !SendPacket(e, k, planned, now).snd.packets[k].IsComplete()
  {
    CoreParts(e);
    hide EndCore, SendOk, RateOkAt, Counted, Paced, AllTruthful, Took, Counts, Due, OnSent, Keeps, SendGrows, Grows, Covers, ByeOk;
    var f := SendPacket(e, k, planned, now);
    StoredIsNumbered(e.cfg, e.snd, true, e.clock, k);
    MarkSentKeeps(e.cfg, e.snd, k, e.rate.index, now, now);
    SentCounted(e.cfg, e.rate, e.snd.packets, e.snd.late, k, now, now);
    TookKeepsPace(e.pacer, planned, e.rate.intervalUs);
    CountsKeepsPace(Took(e.pacer, planned, e.rate.intervalUs), Send(e.rate.index, e.rate.intervalUs, e.snd.packets[k].Size(), now), e.rate.intervalUs);
    TruthWithNumbered(e.snd.outbox, e.snd.control, e.rcv.got, e.snd.packets[k].dg);
    TookGrows(e.pacer, planned, e.rate.intervalUs);
    KeepsFrom(e, f);
  }

  lemma RearmOrNot(e: Endpoint, f: Endpoint)
    requires EndOk(e) && (f == e || f == RearmUdpWrite(e))
    ensures EndOk(f) && Keeps(e, f)
  {
    hide EndCore;
    RearmUdpWriteKeeps(e);
    Reflexive(e);
  }

  lemma UdpWriteKeeps(e: Endpoint, planned: int, taken: bool, now: int)
    requires EndOk(e) && e.pacer.udpWrite < 0 && Due(e.pacer, planned) && e.clock == now
    ensures EndOk(UdpWrite(e, planned, taken, now)) && Keeps(e, UdpWrite(e, planned, taken, now))
  {
    hide EndCore, UdpClose, Due, SendControl, SendPacket, RearmUdpWrite, IsUdpFinished;
    var f := UdpWrite(e, planned, taken, now);
    if !e.udpConnected {
      Reflexive(e);
    } else if e.snd.control != [] {
      var s := if taken then SendControl(e, planned) else e;
      if taken {
        SendControlKeeps(e, planned);
        StillOpen(e, planned);
      } else {
        Reflexive(e);
      }
      if taken && IsUdpFinished(s) {
        FinishedIsEmpty(s);
        UdpCloseKeeps(s, AllDone, now);
      } else {
        RearmOrNot(s, f);
      }
      KeepsTransitive(e, s, f);
    } else {
      match FirstUnsent(e.snd.packets) {
        case None => Reflexive(e);
        case Some(k) =>
          if taken {
            var s := SendPacket(e, k, planned, now);
            SendPacketKeeps(e, k, planned, now);
            var c := ArmResend(s, now + e.cfg.udpResendUs);
            TimersKeep(s, c);
            KeepsTransitive(e, s, c);
            RearmOrNot(c, f);
            KeepsTransitive(e, c, f);
          } else {
            RearmOrNot(e, f);
          }
      }
    }
  }

  lemma StillOpen(e: Endpoint, planned: int)
    requires e.snd.control != []
    ensures SendControl(e, planned).udpConnected == e.udpConnected
  {
  }

  lemma FinishedIsEmpty(e: Endpoint)
    requires IsUdpFinished(e) && e.udpConnected
    ensures e.snd.packets == map[]
  {
  }

  // ---------- resending ----------

  lemma DeliveredPace(p: Pacer, intervalUs: int, newIntervalUs: int)
    requires Paced(p, intervalUs) && newIntervalUs >= 0
    ensures Paced(p.(floor := Min(p.floor, newIntervalUs)), newIntervalUs)
  {
  }

  lemma ExpireOneKeeps(e: Endpoint, k: nat, now: int)
    requires EndCore(e) && e.udpConnected && k in e.snd.packets && e.snd.packets[k].sent
    requires e.snd.packets[k].sentTimeUs + e.cfg.udpResendUs <= now && e.snd.packets[k].remainResendCount > 0
    requires e.clock == now
    ensures Keeps(e, ExpireOne(e, k, now)) && ExpireOne(e, k, now).udpConnected
    ensures ByeOk(e) ==> ByeOk(ExpireOne(e, k, now))
    ensures ExpireOne(e, k, now).pacer.udpWrite >= 0
  {
    hide EndCore, SetEventUdpWrite, ByeOk, Delivered;
    var m := Delivered(e.(snd := Expire(e.snd, k)), false, e.snd.packets[k]);
    ExpireDelivered(e, k, now);
    DeliveredOpen(e.(snd := Expire(e.snd, k)), false, e.snd.packets[k]);
    SetEventUdpWriteKeeps(m, now);
    ArmKeepsBye(m, now);
    ArmKeepsReceiver(m, now);
    KeepsTransitive(e, m, SetEventUdpWrite(m, now));
  }

  lemma DeliveredOpen(e: Endpoint, success: bool, p: Packet)
    ensures Delivered(e, success, p) == e.(rate := Delivered(e, success, p).rate, pacer := Delivered(e, success, p).pacer)
  {
  }

  lemma ExpireDelivered(e: Endpoint, k: nat, now: int)
    requires EndCore(e) && e.udpConnected && k in e.snd.packets && e.snd.packets[k].sent
    requires e.snd.packets[k].sentTimeUs + e.cfg.udpResendUs <= now && e.snd.packets[k].remainResendCount > 0
    requires e.clock == now
    ensures var m := Delivered(e.(snd := Expire(e.snd, k)), false, e.snd.packets[k]);
      Keeps(e, m) && (ByeOk(e) ==> ByeOk(m))
  {
    CoreParts(e);
    hide EndCore, SendOk, RateOkAt, Counted, Paced, AllTruthful, OnDelivered, Keeps, SendGrows, Grows, Covers, ByeOk;
    var p := e.snd.packets[k];
    var m := Delivered(e.(snd := Expire(e.snd, k)), false, p);
    StoredIsNumbered(e.cfg, e.snd, true, e.clock, k);
    ExpireKeeps(e.cfg, e.snd, k, now);
    ExpiredCounted(e.cfg, e.rate, e.snd.packets, e.snd.late, k, now);
    IntervalNotNegative(m.rate, now);
    DeliveredPace(e.pacer, e.rate.intervalUs, m.rate.intervalUs);
    KeepsFrom(e, m);
  }

  lemma IntervalNotNegative(r: Rate, clock: int)
    requires RateOkAt(r, clock)
    ensures r.intervalUs >= 0
  {
  }

  lemma {:induction false} ResendFromKeeps(e: Endpoint, ks: seq<nat>, i: nat, now: int)
    requires EndOk(e) && e.udpConnected && e.clock == now
    ensures EndOk(ResendFrom(e, ks, i, now)) && Keeps(e, ResendFrom(e, ks, i, now))
    decreases |ks| - i
  {
    hide EndCore, UdpClose, ExpireOne, ByeOk;
    var f := ResendFrom(e, ks, i, now);
    if i >= |ks| {
      Reflexive(e);
    } else if ks[i] !in e.snd.packets || !e.snd.packets[ks[i]].sent {
      ResendFromKeeps(e, ks, i + 1, now);
    } else {
      var p := e.snd.packets[ks[i]];
      if p.sentTimeUs + e.cfg.udpResendUs > now {
        var m := ArmResend(e, p.sentTimeUs + e.cfg.udpResendUs);
        TimersKeep(e, m);
        ResendFromKeeps(m, ks, i + 1, now);
        KeepsTransitive(e, m, f);
      } else if p.remainResendCount > 0 {
        var m := ExpireOne(e, ks[i], now);
        ExpireOneKeeps(e, ks[i], now);
        ExpireOneClock(e, ks[i], now);
        ResendFromKeeps(m, ks, i + 1, now);
        KeepsTransitive(e, m, f);
      } else {
        CoreParts(e);
        BudgetSpent(e.cfg, e.snd, ks[i], now);
        UdpCloseKeeps(e, NoAnswer(ks[i]), now);
      }
    }
  }

  lemma ExpireOneClock(e: Endpoint, k: nat, now: int)
    requires k in e.snd.packets
    ensures ExpireOne(e, k, now).clock == e.clock
  {
  }

  lemma UdpResendKeeps(e: Endpoint, now: int)
    requires EndOk(e) && e.clock == now
    ensures EndOk(UdpResend(e, now)) && Keeps(e, UdpResend(e, now))
  {
    hide EndCore, ResendFrom, ByeOk;
    if e.udpConnected {
      ResendFromKeeps(e, Ascending(e.snd.packets.Keys), 0, now);
    } else {
      Reflexive(e);
    }
  }

  // ---------- control packets ----------

  lemma PushTruth(outbox: set<Datagram>, control: seq<Packet>, got: map<nat, Datagram>, p: Packet)
    requires AllTruthful(outbox, control, got) && Truthful(p.dg, got)
    ensures AllTruthful(outbox, control + [p], got)
  {
    hide Truthful;
  }

  lemma PushKeeps(e: Endpoint, kind: Kind, index: int, payload: seq<byte>)
    requires EndCore(e) && e.udpConnected
    requires Datagram(kind, index, payload).IsControl(|e.snd.log|) && Truthful(Datagram(kind, index, payload), e.rcv.got)
    ensures Keeps(e, e.(snd := PushControl(e.snd, kind, index, payload)))
    ensures ByeOk(e) ==> ByeOk(e.(snd := PushControl(e.snd, kind, index, payload)))
  {
    CoreParts(e);
    hide EndCore, SendOk, RateOkAt, Counted, Paced, AllTruthful, Truthful, Keeps, SendGrows, Grows, Covers, ByeOk;
    PushControlKeeps(e.cfg, e.snd, kind, index, payload, true, e.clock);
    PushTruth(e.snd.outbox, e.snd.control, e.rcv.got, Fresh(Datagram(kind, index, payload), 0));
    KeepsFrom(e, e.(snd := PushControl(e.snd, kind, index, payload)));
  }

  lemma ArmKeepsSender(e: Endpoint, now: int)
    ensures SetEventUdpWrite(e, now).snd == e.snd
  {
  }

  lemma BuildByeByeKeeps(e: Endpoint, now: int)
    requires EndOk(e)
    ensures EndOk(BuildByeBye(e, now)) && Keeps(e, BuildByeBye(e, now))
    ensures e.udpConnected ==>
      var q := BuildByeBye(e, now).snd.control;
      |q| == |e.snd.control| + 1 && q[..|e.snd.control|] == e.snd.control && q[|e.snd.control|].dg == Datagram(ByeBye, |e.snd.log|, [])
  {
    hide EndCore, SetEventUdpWrite, ByeOk, Keeps;
    if e.udpConnected {
      var m := e.(snd := PushControl(e.snd, ByeBye, e.snd.next, []));
      NextIsIndex(e);
      PushKeeps(e, ByeBye, e.snd.next, []);
      KeepsCore(e, m);
      var c := SetEventUdpWrite(m, now);
      SetEventUdpWriteKeeps(m, now);
      ArmKeepsSender(m, now);
      ArmKeepsBye(m, now);
      KeepsTransitive(e, m, c);
      KeepsCore(e, c);
      TimersKeep(c, BuildByeBye(e, now));
      KeepsTransitive(e, c, BuildByeBye(e, now));
      KeepsCore(e, BuildByeBye(e, now));
    } else {
      KeepsItself(e);
    }
  }

  lemma KeepsCore(e: Endpoint, f: Endpoint)
    requires Keeps(e, f)
    ensures EndCore(f)
  {
    hide EndCore;
  }

  lemma KeepsItself(e: Endpoint)
    requires EndCore(e)
    ensures Keeps(e, e)
  {
    hide EndCore;
    Reflexive(e);
  }

  lemma ArmKeepsBye(e: Endpoint, now: int)
    ensures ByeOk(e) ==> ByeOk(SetEventUdpWrite(e, now))
  {
    hide EndsWithBye;
  }

  lemma DropTruth(outbox: set<Datagram>, control: seq<Packet>, got: map<nat, Datagram>)
    requires AllTruthful(outbox, control, got)
    ensures AllTruthful(outbox, WithoutConfirmations(control), got)
  {
    hide Truthful;
    WithoutConfirmationsOk(control);
  }

  lemma DropKeeps(e: Endpoint)
    requires EndCore(e) && e.udpConnected
    ensures Keeps(e, e.(snd := DropConfirmations(e.snd)))
    ensures ByeOk(e) ==> ByeOk(e.(snd := DropConfirmations(e.snd)))
  {
    CoreParts(e);
    hide EndCore, SendOk, RateOkAt, Counted, Paced, AllTruthful, Keeps, SendGrows, Grows, Covers, ByeOk;
    DropConfirmationsKeeps(e.cfg, e.snd, true, e.clock);
    DropTruth(e.snd.outbox, e.snd.control, e.rcv.got);
    KeepsFrom(e, e.(snd := DropConfirmations(e.snd)));
  }

  lemma {:induction false} PushAllKeeps(e: Endpoint, master: nat, payloads: seq<seq<byte>>)
    requires EndCore(e) && e.udpConnected
    requires forall i :: 0 <= i < |payloads| ==> Truthful(Datagram(Confirmation, master, payloads[i]), e.rcv.got)
    ensures var f := e.(snd := PushAll(e.snd, master, payloads));
      Keeps(e, f) && (ByeOk(e) ==> ByeOk(f)) && (payloads != [] || e.snd.control != [] ==> f.snd.control != [])
    decreases |payloads|
  {
    hide EndCore, Truthful, ByeOk;
    if payloads == [] {
      Reflexive(e);
    } else {
      var m := e.(snd := PushControl(e.snd, Confirmation, master, payloads[0]));
      PushKeeps(e, Confirmation, master, payloads[0]);
      PushAllKeeps(m, master, payloads[1..]);
      KeepsTransitive(e, m, e.(snd := PushAll(e.snd, master, payloads)));
    }
  }

  /** Every confirmation that is built tells the truth: this is where the packing
      and reading of index sets meet what was received. */
  lemma BuiltIsTruthful(e: Endpoint, i: nat)
    requires EndCore(e) && i < |ConfirmationPayloads(e)|
    ensures Truthful(Datagram(Confirmation, e.rcv.master, ConfirmationPayloads(e)[i]), e.rcv.got)
  {
    CoreReceiver(e);
    hide EndCore;
    ReceivedKeys(e.rcv, Window(e.cfg), e.cfg.udpSendPacketSize, e.tcpConnected);
    hide RecvOk, KeysFrom;
    var ks := Ascending(KeysFrom(e.rcv.packets, e.rcv.master));
    PackedIsTruthful(ks, e.rcv.master, e.cfg.udpSendPacketSize, i, e.rcv.got);
  }

  lemma PackedIsTruthful(ks: seq<nat>, master: nat, capacity: nat, i: nat, got: map<nat, Datagram>)
    requires Increasing(ks) && master <= INT_MAX && i < |PackAll(ks, master, capacity)|
    requires forall k: nat :: k in ks ==> k in got && master <= k < INT_MAX
    requires forall k: nat :: k < master ==> k in got
    ensures Truthful(Datagram(Confirmation, master, PackAll(ks, master, capacity)[i]), got)
  {
    hide PackAll, Listed;
    forall k | 0 <= k < |ks|
      ensures master <= ks[k] < INT_MAX
    {
      assert ks[k] in ks;
    }
    forall x | x in Listed(master, PackAll(ks, master, capacity)[i])
      ensures x >= 0 && x in got
    {
      ListedWasReceived(ks, master, capacity, i, x);
    }
  }

  /** The stored keys from the master index on are the received indices from there on. */
  lemma ReceivedKeys(r: Receiver, window: int, packetSize: int, open: bool)
    requires RecvOk(r, window, packetSize, open)
    ensures forall k: nat :: k in KeysFrom(r.packets, r.master) <==> k in r.got && k >= r.master
    ensures forall k: nat :: k < r.master ==> k in r.got
    ensures r.master <= INT_MAX
    ensures forall k: nat :: k in r.got ==> k < INT_MAX
  {
    hide Total, Contents, StreamOpen, FinalOk, AllStoredOk;
  }

  lemma BuildConfirmationsKeeps(e: Endpoint, now: int)
    requires EndOk(e)
    ensures EndOk(BuildConfirmations(e, now)) && Keeps(e, BuildConfirmations(e, now))
  {
    hide EndCore, SetEventUdpWrite, ByeOk, Keeps, ConfirmationPayloads, PushAll, Truthful, DropConfirmations, Prune;
    if e.udpConnected {
      var d := e.(snd := DropConfirmations(e.snd));
      DropKeeps(e);
      KeepsCore(e, d);
      forall i | 0 <= i < |ConfirmationPayloads(e)|
        ensures Truthful(Datagram(Confirmation, e.rcv.master, ConfirmationPayloads(e)[i]), e.rcv.got)
      {
        BuiltIsTruthful(e, i);
      }
      DropKeepsOpen(e);
      var m := e.(snd := PushAll(DropConfirmations(e.snd), e.rcv.master, ConfirmationPayloads(e)));
      PushAllKeeps(d, e.rcv.master, ConfirmationPayloads(e));
      KeepsTransitive(e, d, m);
      KeepsCore(e, m);
      var c := SetEventUdpWrite(m, now);
      SetEventUdpWriteKeeps(m, now);
      ArmKeepsBye(m, now);
      KeepsTransitive(e, m, c);
      KeepsCore(e, c);
      PruneStep(c);
      var q := c.(rcv := Prune(c.rcv));
      KeepsTransitive(e, c, q);
      KeepsCore(e, q);
      var f := BuildConfirmations(e, now);
      ArmKeepsReceiver(m, now);
      TimersKeep(q, f);
      KeepsTransitive(e, q, f);
      KeepsCore(e, f);
    } else {
      KeepsItself(e);
    }
  }

  lemma DropKeepsOpen(e: Endpoint)
    ensures DropConfirmations(e.snd).data == e.snd.data
  {
  }

  lemma ArmKeepsReceiver(e: Endpoint, now: int)
    ensures SetEventUdpWrite(e, now) == e.(pacer := SetEventUdpWrite(e, now).pacer)
  {
  }

  lemma PruneStep(e: Endpoint)
    requires EndCore(e)
    ensures Keeps(e, e.(rcv := Prune(e.rcv)))
    ensures ByeOk(e) ==> ByeOk(e.(rcv := Prune(e.rcv)))
  {
    CoreReceiver(e);
    hide EndCore, RecvOk, EndsWithBye, Pruned, Dropped, Total, RecvGrows;
    PruneKeeps(e.rcv, Window(e.cfg), e.cfg.udpSendPacketSize, e.tcpConnected);
    ReceiverKeeps(e, Prune(e.rcv), e.tcpConnected);
  }

  // ---------- reading confirmations ----------

  /** What a confirmation leaves alone. */
  ghost predicate SameWaiting(e: Endpoint, f: Endpoint) {
    f.snd.data == e.snd.data && f.snd.control == e.snd.control && f.pacer.udpWrite == e.pacer.udpWrite
  }

  /** An index a truthful confirmation lists, if still stored, was sent before. */
  lemma ConfirmOneKeeps(e: Endpoint, k: nat)
    requires EndCore(e) && e.udpConnected && k in e.snd.packets && k in e.snd.attempts
    ensures var f := ConfirmOne(e, k);
      && EndCore(f) && Grows(e, f) && (ByeOk(e) ==> ByeOk(f)) && f.udpConnected
      && f.snd.packets == e.snd.packets - {k} && f.snd.log == e.snd.log && f.snd.attempts == e.snd.attempts
      && SameWaiting(e, f)
      && f == e.(snd := f.snd, rate := f.rate, pacer := f.pacer)
  {
    CoreParts(e);
    hide EndCore, SendOk, RateOkAt, Counted, Paced, AllTruthful, OnDelivered, Keeps, SendGrows, Grows, Covers, ByeOk;
    var f := ConfirmOne(e, k);
    StoredIsNumbered(e.cfg, e.snd, true, e.clock, k);
    AcknowledgeKeeps(e.cfg, e.snd, k, e.clock);
    ConfirmedCounted(e.cfg, e.rate, e.snd.packets, e.snd.late, k, e.clock);
    IntervalNotNegative(f.rate, e.clock);
    DeliveredPace(e.pacer, e.rate.intervalUs, f.rate.intervalUs);
    KeepsFrom(e, f);
  }

  /** Everything in keys left the store, and nothing else. */
  ghost predicate Removed(e: Endpoint, f: Endpoint, keys: set<nat>) {
    && EndCore(f) && Grows(e, f) && (ByeOk(e) ==> ByeOk(f)) && f.udpConnected
    && f.snd.log == e.snd.log && f.snd.attempts == e.snd.attempts && SameWaiting(e, f)
    && f == e.(snd := f.snd, rate := f.rate, pacer := f.pacer)
    && f.snd.packets == e.snd.packets - keys
  }

  lemma RemovedTransitive(e: Endpoint, f: Endpoint, g: Endpoint, a: set<nat>, b: set<nat>)
    requires Removed(e, f, a) && Removed(f, g, b)
    ensures Removed(e, g, a + b)
  {
    hide EndCore, ByeOk;
    assert Grows(e, g) by {
      GrowsTransitive(e, f, g);
    }
    hide Grows;
    assert e.snd.packets - a - b == e.snd.packets - (a + b);
  }

  lemma RemovedNothing(e: Endpoint)
    requires EndCore(e) && e.udpConnected
    ensures Removed(e, e, {})
  {
    hide EndCore, ByeOk;
    Reflexive(e);
  }

  lemma RemovedOne(e: Endpoint, k: nat)
    requires EndCore(e) && e.udpConnected && k in e.snd.packets && k in e.snd.attempts
    ensures Removed(e, ConfirmOne(e, k), {k})
  {
    hide EndCore, ByeOk, ConfirmOne, Grows;
    ConfirmOneKeeps(e, k);
  }

  /** The keys at positions from i on that are below the master index. */
  function KeysBelow(ks: seq<nat>, i: nat, master: int): set<nat>
    decreases |ks| - i
  {
    if i >= |ks| || ks[i] >= master then {} else {ks[i]} + KeysBelow(ks, i + 1, master)
  }

  lemma {:induction false} ConfirmBelowRemoves(e: Endpoint, ks: seq<nat>, i: nat, master: int)
    requires EndCore(e) && e.udpConnected
    requires forall k: nat :: k in e.snd.packets && k < master ==> k in e.snd.attempts
    ensures Removed(e, ConfirmBelow(e, ks, i, master), KeysBelow(ks, i, master))
    decreases |ks| - i
  {
    hide EndCore, ByeOk, ConfirmOne, Grows, Removed;
    if i >= |ks| || ks[i] >= master {
      RemovedNothing(e);
    } else if ks[i] !in e.snd.packets {
      ConfirmBelowRemoves(e, ks, i + 1, master);
      RemovedAbsent(e, ConfirmBelow(e, ks, i + 1, master), ks[i], KeysBelow(ks, i + 1, master));
    } else {
      var m := ConfirmOne(e, ks[i]);
      RemovedOne(e, ks[i]);
      RemovedFacts(e, m, {ks[i]});
      ConfirmBelowRemoves(m, ks, i + 1, master);
      RemovedTransitive(e, m, ConfirmBelow(m, ks, i + 1, master), {ks[i]}, KeysBelow(ks, i + 1, master));
    }
  }

  lemma RemovedFacts(e: Endpoint, f: Endpoint, keys: set<nat>)
    requires Removed(e, f, keys)
    ensures EndCore(f) && f.udpConnected && f.snd.attempts == e.snd.attempts && f.snd.packets == e.snd.packets - keys
    ensures SameWaiting(e, f)
    ensures f.snd.log == e.snd.log && f.rcv == e.rcv && f.cfg == e.cfg && Grows(e, f)
    ensures f == e.(snd := f.snd, rate := f.rate, pacer := f.pacer)
    ensures ByeOk(e) ==> ByeOk(f)
  {
    hide EndCore, ByeOk, Grows;
  }

  lemma RemovedAbsent(e: Endpoint, f: Endpoint, k: nat, keys: set<nat>)
    requires Removed(e, f, keys) && k !in e.snd.packets
    ensures Removed(e, f, {k} + keys)
  {
    hide EndCore, ByeOk, Grows;
    assert e.snd.packets - keys == e.snd.packets - ({k} + keys);
  }

  /** The whole numbers among the listed indices from position i on. */
  function ListedKeys(indices: seq<int>, i: nat): set<nat>
    decreases |indices| - i
  {
    if i >= |indices| then {}
    else (if indices[i] >= 0 then {indices[i]} else {}) + ListedKeys(indices, i + 1)
  }

  lemma {:induction false} ConfirmListedRemoves(e: Endpoint, indices: seq<int>, i: nat)
    requires EndCore(e) && e.udpConnected
    requires forall k: nat :: k in e.snd.packets && k in ListedKeys(indices, i) ==> k in e.snd.attempts
    ensures Removed(e, ConfirmListed(e, indices, i), ListedKeys(indices, i))
    decreases |indices| - i
  {
    hide EndCore, ByeOk, ConfirmOne, Grows, Removed;
    if i >= |indices| {
      RemovedNothing(e);
    } else if indices[i] < 0 || indices[i] !in e.snd.packets {
      ConfirmListedRemoves(e, indices, i + 1);
      if indices[i] >= 0 {
        RemovedAbsent(e, ConfirmListed(e, indices, i + 1), indices[i], ListedKeys(indices, i + 1));
      } else {
        assert {} + ListedKeys(indices, i + 1) == ListedKeys(indices, i + 1);
      }
    } else {
      var k: nat := indices[i];
      assert k in ListedKeys(indices, i);
      var m := ConfirmOne(e, k);
      RemovedOne(e, k);
      RemovedFacts(e, m, {k});
      ConfirmListedRemoves(m, indices, i + 1);
      RemovedTransitive(e, m, ConfirmListed(m, indices, i + 1), {k}, ListedKeys(indices, i + 1));
    }
  }

  lemma {:induction false} KeysBelowSpec(ks: seq<nat>, i: nat, master: int)
    requires Increasing(ks) && i <= |ks|
    ensures forall k: nat :: k in KeysBelow(ks, i, master) <==> k in ks[i..] && k < master
    decreases |ks| - i
  {
    if i < |ks| {
      assert ks[i..] == [ks[i]] + ks[i + 1..];
      if ks[i] < master {
        KeysBelowSpec(ks, i + 1, master);
      } else {
        forall k: nat | k in ks[i..]
          ensures k >= master
        {
          var j :| 0 <= j < |ks[i..]| && ks[i..][j] == k;
          assert ks[i + j] == k;
        }
      }
    }
  }

  lemma {:induction false} ListedKeysSpec(indices: seq<int>, i: nat)
    requires i <= |indices|
    ensures forall k: nat :: k in ListedKeys(indices, i) <==> k in indices[i..]
    decreases |indices| - i
  {
    if i < |indices| {
      assert indices[i..] == [indices[i]] + indices[i + 1..];
      ListedKeysSpec(indices, i + 1);
    }
  }

  /** The indices confirmation d covers. */
  ghost predicate CoveredBy(d: Datagram, k: nat) {
    k < d.index || k in Listed(d.index, d.payload)
  }

  ghost function Acked(packets: map<nat, Packet>, d: Datagram): set<nat> {
    set k | k in packets && CoveredBy(d, k)
  }

  /** The two loops of `udpRead` remove from the store exactly what d covers. */
  lemma ConfirmAllRemoves(e: Endpoint, d: Datagram)
    requires EndCore(e) && e.udpConnected
    requires forall k: nat :: k in e.snd.packets && CoveredBy(d, k) ==> k in e.snd.attempts
    ensures Removed(e, ConfirmAll(e, d), Acked(e.snd.packets, d))
  {
    hide EndCore, ByeOk, ConfirmOne, Grows, Removed, Listed, ConfirmBelow, ConfirmListed;
    var ks := Ascending(e.snd.packets.Keys);
    var indices := Listed(d.index, d.payload);
    KeysBelowSpec(ks, 0, d.index);
    ListedKeysSpec(indices, 0);
    assert ks[0..] == ks && indices[0..] == indices;
    var m := ConfirmBelow(e, ks, 0, d.index);
    ConfirmBelowRemoves(e, ks, 0, d.index);
    RemovedFacts(e, m, KeysBelow(ks, 0, d.index));
    ConfirmListedRemoves(m, indices, 0);
    RemovedTransitive(e, m, ConfirmAll(e, d), KeysBelow(ks, 0, d.index), ListedKeys(indices, 0));
    RemovedExactly(e, ConfirmAll(e, d), KeysBelow(ks, 0, d.index) + ListedKeys(indices, 0), Acked(e.snd.packets, d));
  }

  lemma RemovedExactly(e: Endpoint, f: Endpoint, a: set<nat>, b: set<nat>)
    requires Removed(e, f, a)
    requires forall k: nat :: k in e.snd.packets ==> (k in a <==> k in b)
    ensures Removed(e, f, b)
  {
    hide EndCore, ByeOk, Grows;
    assert e.snd.packets - a == e.snd.packets - b;
  }
}
