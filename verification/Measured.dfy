/** The measures against the history of sends: what a measure has counted, and which send
    ends it. */
module Measured {
  import opened Base
  import opened Confirmations
  import opened Receivers
  import opened Senders
  import opened Rates
  import opened Endpoints
  import opened Invariants
  import opened Preservation
  import opened PreservationUdp
  import opened PreservationStep

  // ---------- sums over the history ----------

  function CountOf(sends: seq<Send>, m: nat): nat {
    if sends == [] then 0
    else CountOf(sends[..|sends| - 1], m) + if sends[|sends| - 1].measure == m then 1 else 0
  }

  function SizeOf(sends: seq<Send>, m: nat): nat {
    if sends == [] then 0
    else SizeOf(sends[..|sends| - 1], m) + if sends[|sends| - 1].measure == m then sends[|sends| - 1].size else 0
  }

  function IntervalsOf(sends: seq<Send>, m: nat): int {
    if sends == [] then 0
    else IntervalsOf(sends[..|sends| - 1], m) + if sends[|sends| - 1].measure == m then sends[|sends| - 1].intervalUs else 0
  }

  lemma SumsOfMore(sends: seq<Send>, s: Send, m: nat)
    ensures CountOf(sends + [s], m) == CountOf(sends, m) + if s.measure == m then 1 else 0
    ensures SizeOf(sends + [s], m) == SizeOf(sends, m) + if s.measure == m then s.size else 0
    ensures IntervalsOf(sends + [s], m) == IntervalsOf(sends, m) + if s.measure == m then s.intervalUs else 0
  {
    assert (sends + [s])[..|sends|] == sends;
  }

  lemma {:induction false} SumsOfNone(sends: seq<Send>, m: nat)
    requires forall i :: 0 <= i < |sends| ==> sends[i].measure != m
    ensures CountOf(sends, m) == SizeOf(sends, m) == 0 && IntervalsOf(sends, m) == 0
  {
    if sends != [] {
      SumsOfNone(sends[..|sends| - 1], m);
    }
  }

  // ---------- the invariant ----------

  /** A live measure has counted exactly the sends made in it, with the intervals in force. */
  ghost predicate Summed(r: Rate, sends: seq<Send>) {
    forall m: nat :: m in r.measures ==>
      && r.measures[m].count == CountOf(sends, m)
      && r.measures[m].size == SizeOf(sends, m)
      && r.measures[m].summaryIntervalUs == IntervalsOf(sends, m)
  }

  /** With send i the measure it was made in is full or old enough. */
  predicate Fills(cfg: Config, sends: seq<Send>, i: nat, beginUs: int)
    requires i < |sends|
  {
    || SizeOf(sends[..i + 1], sends[i].measure) >= cfg.udpMaxSentMeasureSize
    || sends[i].at - beginUs >= cfg.udpMaxSentMeasureUs
  }

  /** No later send was made in the same measure. */
  predicate IsLast(sends: seq<Send>, i: nat)
    requires i < |sends|
  {
    forall j :: i < j < |sends| ==> sends[j].measure != sends[i].measure
  }

  /** Measures are used in order, none after the open one. */
  ghost predicate Ordered(r: Rate, sends: seq<Send>) {
    && (forall i :: 0 <= i < |sends| ==> sends[i].measure <= r.index)
    && (forall i, j :: 0 <= i < j < |sends| ==> sends[i].measure <= sends[j].measure)
  }

  /** A live measure ends with the first send that fills it, and at its time; the next one
      begins there. */
  ghost predicate EndsWhenFull(cfg: Config, r: Rate, sends: seq<Send>) {
    && (forall i: nat :: i < |sends| && sends[i].measure in r.measures ==>
          var m := r.measures[sends[i].measure];
          && (Fills(cfg, sends, i, m.beginUs) <==> sends[i].measure < r.index && IsLast(sends, i))
          && (Fills(cfg, sends, i, m.beginUs) ==> m.endUs == sends[i].at))
    && (forall m: nat :: m in r.measures && m < r.index ==> r.measures[m].count > 0)
    && (forall m: nat :: m in r.measures && m + 1 in r.measures ==> r.measures[m + 1].beginUs == r.measures[m].endUs)
  }

  ghost predicate MeasuredOk(cfg: Config, r: Rate, sends: seq<Send>) {
    Summed(r, sends) && Ordered(r, sends) && EndsWhenFull(cfg, r, sends)
  }

  // ---------- a send ----------

  lemma SentSummed(cfg: Config, r: Rate, sends: seq<Send>, size: nat, now: int)
    requires RateOk(r) && Summed(r, sends) && Ordered(r, sends)
    ensures var s := Send(r.index, r.intervalUs, size, now);
      Summed(OnSent(cfg, r, r.index, r.intervalUs, size, now), sends + [s])
  {
    var s := Send(r.index, r.intervalUs, size, now);
    var f := OnSent(cfg, r, r.index, r.intervalUs, size, now);
    hide CountOf, SizeOf, IntervalsOf;
    forall m: nat | m in f.measures
      ensures f.measures[m].count == CountOf(sends + [s], m)
      ensures f.measures[m].size == SizeOf(sends + [s], m)
      ensures f.measures[m].summaryIntervalUs == IntervalsOf(sends + [s], m)
    {
      SumsOfMore(sends, s, m);
      if m > r.index {
        SumsOfNone(sends, m);
      }
    }
  }

  lemma PrefixKept(cfg: Config, sends: seq<Send>, s: Send, i: nat, beginUs: int)
    requires i < |sends|
    ensures Fills(cfg, sends + [s], i, beginUs) == Fills(cfg, sends, i, beginUs)
    ensures IsLast(sends + [s], i) <==> IsLast(sends, i) && s.measure != sends[i].measure
  {
    assert (sends + [s])[..i + 1] == sends[..i + 1];
    if IsLast(sends + [s], i) {
      assert (sends + [s])[|sends|] == s;
      forall j | i < j < |sends|
        ensures sends[j].measure != sends[i].measure
      {
        assert (sends + [s])[j] == sends[j];
      }
    }
  }

  lemma SentEnds(cfg: Config, r: Rate, sends: seq<Send>, size: nat, now: int, i: nat)
    requires RateOk(r) && MeasuredOk(cfg, r, sends)
    requires i <= |sends|
    requires var s := Send(r.index, r.intervalUs, size, now);
      (sends + [s])[i].measure in OnSent(cfg, r, r.index, r.intervalUs, size, now).measures
    ensures var s := Send(r.index, r.intervalUs, size, now);
      var f := OnSent(cfg, r, r.index, r.intervalUs, size, now);
      var all := sends + [s];
      var m := f.measures[all[i].measure];
      && (Fills(cfg, all, i, m.beginUs) <==> all[i].measure < f.index && IsLast(all, i))
      && (Fills(cfg, all, i, m.beginUs) ==> m.endUs == all[i].at)
  {
    hide SizeOf, CountOf, IntervalsOf;
    var s := Send(r.index, r.intervalUs, size, now);
    var all := sends + [s];
    if i < |sends| {
      hide Fills, IsLast;
      assert all[i] == sends[i];
      assert sends[i].measure <= r.index && sends[i].measure in r.measures;
      PrefixKept(cfg, sends, s, i, r.measures[sends[i].measure].beginUs);
    } else {
      assert all[..i + 1] == all;
      SumsOfMore(sends, s, r.index);
    }
  }

  /** A send keeps the history and the measures in step. */
  lemma SentMeasured(cfg: Config, r: Rate, sends: seq<Send>, size: nat, now: int)
    requires RateOk(r) && MeasuredOk(cfg, r, sends)
    ensures var s := Send(r.index, r.intervalUs, size, now);
      MeasuredOk(cfg, OnSent(cfg, r, r.index, r.intervalUs, size, now), sends + [s])
  {
    hide SizeOf, CountOf, IntervalsOf, Fills, IsLast;
    var s := Send(r.index, r.intervalUs, size, now);
    var f := OnSent(cfg, r, r.index, r.intervalUs, size, now);
    SentSummed(cfg, r, sends, size, now);
    var all := sends + [s];
    forall i: nat | i < |all| && all[i].measure in f.measures
      ensures var m := f.measures[all[i].measure];
        && (Fills(cfg, all, i, m.beginUs) <==> all[i].measure < f.index && IsLast(all, i))
        && (Fills(cfg, all, i, m.beginUs) ==> m.endUs == all[i].at)
    {
      SentEnds(cfg, r, sends, size, now, i);
    }
  }

  // ---------- everything else ----------

  /** No packet was sent, and the live measures count what they did. */
  ghost predicate SameSends(e: Endpoint, f: Endpoint) {
    && f.cfg == e.cfg && f.pacer.counted == e.pacer.counted && f.rate.index == e.rate.index
    && (forall m: nat :: m in f.rate.measures ==>
          && m in e.rate.measures
          && f.rate.measures[m] == e.rate.measures[m].(successSize := f.rate.measures[m].successSize, failSize := f.rate.measures[m].failSize))
  }

  lemma SameMeasured(e: Endpoint, f: Endpoint)
    requires MeasuredOk(e.cfg, e.rate, e.pacer.counted) && SameSends(e, f)
    ensures MeasuredOk(f.cfg, f.rate, f.pacer.counted)
  {
    hide SizeOf, CountOf, IntervalsOf, Fills, IsLast;
  }

  lemma SameItself(e: Endpoint)
    ensures SameSends(e, e)
  {
  }

  lemma SameTransitive(e: Endpoint, f: Endpoint, g: Endpoint)
    requires SameSends(e, f) && SameSends(f, g)
    ensures SameSends(e, g)
  {
  }

  lemma DeliveredSame(e: Endpoint, success: bool, p: Packet)
    ensures SameSends(e, Delivered(e, success, p))
  {
  }

  lemma {:induction false} CutAllSame(e: Endpoint, flush: bool, now: int)
    ensures var f := CutAll(e, flush, now);
      f.cfg == e.cfg && f.pacer.counted == e.pacer.counted && f.rate == e.rate
    decreases |e.snd.data|
  {
    if Cut(e.cfg, e.snd.data, flush) {
      var n := Min(|e.snd.data|, e.cfg.udpSendPacketSize);
      CutAllSame(Queue(e.(snd := e.snd.(data := e.snd.data[n..])), Data, e.snd.data[..n], now), flush, now);
    }
  }

  lemma BuildSame(e: Endpoint, flush: bool, now: int)
    ensures SameSends(e, BuildUdpPackets(e, flush, now))
  {
    hide CutAll;
    CutAllSame(e.(snd := e.snd.(data := if Finished(e.rcv) then [] else e.snd.data)), flush, now);
  }

  lemma TcpCloseSame(e: Endpoint, error: bool, now: int)
    ensures SameSends(e, TcpClose(e, error, now))
  {
    hide BuildUdpPackets, Discard;
    BuildSame(TcpWriteFake(e.(tcpConnected := false, timers := e.timers.(tcpWrite := -1))), true, now);
  }

  lemma UdpCloseSame(e: Endpoint, reason: CloseReason, now: int)
    ensures SameSends(e, UdpClose(e, reason, now))
  {
    hide TcpClose;
    TcpCloseSame(e.(
        udpConnected := false,
        snd := Clear(e.snd),
        pacer := e.pacer.(udpWrite := -1),
        timers := e.timers.(buildUdpPackets := -1, buildConfirmations := -1, udpResend := -1),
        reason := reason), false, now);
  }

  lemma CloseIfFinishedSame(e: Endpoint, now: int)
    ensures SameSends(e, CloseIfFinished(e, now))
  {
    hide UdpClose, IsUdpFinished;
    UdpCloseSame(e, AllDone, now);
  }

  lemma TcpWriteSame(e: Endpoint, accepted: int, now: int)
    ensures SameSends(e, TcpWrite(e, accepted, now))
  {
    hide TcpClose, Deliver;
    TcpCloseSame(e.(rcv := Deliver(e.rcv, accepted).r), false, now);
  }

  lemma {:induction false} ResendFromSame(e: Endpoint, ks: seq<nat>, i: nat, now: int)
    ensures SameSends(e, ResendFrom(e, ks, i, now))
    decreases |ks| - i
  {
    hide UdpClose, Delivered, SameSends;
    SameItself(e);
    if i < |ks| {
      if ks[i] !in e.snd.packets || !e.snd.packets[ks[i]].sent {
        ResendFromSame(e, ks, i + 1, now);
      } else {
        var p := e.snd.packets[ks[i]];
        var a, x := ArmResend(e, p.sentTimeUs + e.cfg.udpResendUs), ExpireOne(e, ks[i], now);
        ArmSame(e, p.sentTimeUs + e.cfg.udpResendUs);
        ResendFromSame(a, ks, i + 1, now);
        SameTransitive(e, a, ResendFrom(a, ks, i + 1, now));
        ExpireSame(e, ks[i], now);
        ResendFromSame(x, ks, i + 1, now);
        SameTransitive(e, x, ResendFrom(x, ks, i + 1, now));
        UdpCloseSame(e, NoAnswer(ks[i]), now);
      }
    }
  }

  lemma ArmSame(e: Endpoint, at: int)
    ensures SameSends(e, ArmResend(e, at))
  {
  }

  lemma ExpireSame(e: Endpoint, k: nat, now: int)
    requires k in e.snd.packets
    ensures SameSends(e, ExpireOne(e, k, now))
  {
    hide OnDelivered;
    DeliveredSame(e, false, e.snd.packets[k]);
  }

  lemma ConfirmOneSame(e: Endpoint, k: nat)
    requires k in e.snd.packets
    ensures SameSends(e, ConfirmOne(e, k))
  {
    hide OnDelivered;
    DeliveredSame(e, true, e.snd.packets[k]);
  }

  lemma {:induction false} ConfirmBelowSame(e: Endpoint, ks: seq<nat>, i: nat, master: int)
    ensures SameSends(e, ConfirmBelow(e, ks, i, master))
    decreases |ks| - i
  {
    hide ConfirmOne, SameSends;
    SameItself(e);
    if i < |ks| && ks[i] < master {
      if ks[i] in e.snd.packets {
        var c := ConfirmOne(e, ks[i]);
        ConfirmOneSame(e, ks[i]);
        ConfirmBelowSame(c, ks, i + 1, master);
        SameTransitive(e, c, ConfirmBelow(c, ks, i + 1, master));
      } else {
        ConfirmBelowSame(e, ks, i + 1, master);
      }
    }
  }

  lemma {:induction false} ConfirmListedSame(e: Endpoint, indices: seq<int>, i: nat)
    ensures SameSends(e, ConfirmListed(e, indices, i))
    decreases |indices| - i
  {
    hide ConfirmOne, SameSends;
    SameItself(e);
    if i < |indices| {
      if indices[i] >= 0 && indices[i] in e.snd.packets {
        var c := ConfirmOne(e, indices[i]);
        ConfirmOneSame(e, indices[i]);
        ConfirmListedSame(c, indices, i + 1);
        SameTransitive(e, c, ConfirmListed(c, indices, i + 1));
      } else {
        ConfirmListedSame(e, indices, i + 1);
      }
    }
  }

  lemma ConfirmAllSame(e: Endpoint, d: Datagram)
    ensures SameSends(e, ConfirmAll(e, d))
  {
    hide ConfirmBelow, ConfirmListed, SameSends, Listed;
    var ks := Ascending(e.snd.packets.Keys);
    var b := ConfirmBelow(e, ks, 0, d.index);
    ConfirmBelowSame(e, ks, 0, d.index);
    ConfirmListedSame(b, Listed(d.index, d.payload), 0);
    SameTransitive(e, b, ConfirmAll(e, d));
  }

  lemma ReadSame(e: Endpoint, d: Datagram, now: int)
    ensures SameSends(e, UdpRead(e, d, now))
  {
    hide ConfirmAll, IsNoMoreDataWillBeSent, CloseIfFinished, Store, Discard, WithoutConfirmations, QueueBytes;
    SameItself(e);
    if e.udpConnected {
      if d.kind.Confirmation? {
        ConfirmAllSame(e, d);
        CloseIfFinishedSame(ReadConfirmation(e, d, now), now);
      } else if Acceptable(e.rcv, d, Window(e.cfg)) {
        CloseIfFinishedSame(ReadNumbered(e, d, now), now);
      } else if d.kind.ByeBye? && d.index == e.rcv.master && d.index == e.rcv.final {
        CloseIfFinishedSame(ReadByeBye(e, now), now);
      } else {
        CloseIfFinishedSame(e, now);
      }
    }
  }

  // ---------- any step ----------

  lemma UdpWriteMeasured(e: Endpoint, planned: int, taken: bool, now: int)
    requires RateOk(e.rate) && MeasuredOk(e.cfg, e.rate, e.pacer.counted)
    ensures var f := UdpWrite(e, planned, taken, now);
      MeasuredOk(f.cfg, f.rate, f.pacer.counted)
  {
    hide UdpClose, OnSent, IsUdpFinished, MeasuredOk, RateOk;
    if e.udpConnected {
      if e.snd.control != [] {
        var c := SendControl(e, planned);
        UdpCloseSame(c, AllDone, now);
        SameMeasured(c, UdpClose(c, AllDone, now));
      } else if FirstUnsent(e.snd.packets).Some? && taken {
        var k := FirstUnsent(e.snd.packets).value;
        var s := SendPacket(e, k, planned, now);
        SentMeasured(e.cfg, e.rate, e.pacer.counted, e.snd.packets[k].Size(), now);
        var c := s.(snd := Erase(s.snd, k));
        UdpCloseSame(c, AllDone, now);
        SameMeasured(c, UdpClose(c, AllDone, now));
      }
    }
  }

  lemma RateOf(e: Endpoint)
    requires EndCore(e)
    ensures RateOk(e.rate)
  {
    hide EndCore;
    CoreParts(e);
  }

  lemma StepSame(e: Endpoint, a: Action, now: int)
    requires !a.WriteUdp?
    ensures SameSends(e, Step(e, a, now))
  {
    hide TcpWrite, TcpClose, UdpClose, BuildUdpPackets, ResendFrom, CloseIfFinished, UdpRead, ConfirmationPayloads, PushAll, QueueBytes, WithoutConfirmations;
    var c := e.(clock := now);
    match a {
      case ReadTcp(bytes) =>
        BuildSame(c.(snd := c.snd.(tcpIn := c.snd.tcpIn + bytes, data := c.snd.data + bytes)), false, now);
      case WriteTcp(accepted) => TcpWriteSame(c.(timers := c.timers.(tcpWrite := -1)), accepted, now);
      case CloseTcp(error) => TcpCloseSame(c, error, now);
      case CloseUdp => UdpCloseSame(c, ByCaller, now);
      case Build => BuildSame(c.(timers := c.timers.(buildUdpPackets := -1)), true, now);
      case Confirm =>
      case SayByeBye =>
      case Resend =>
        var r := c.(timers := c.timers.(udpResend := -1));
        ResendFromSame(r, Ascending(r.snd.packets.Keys), 0, now);
      case CloseWait => CloseIfFinishedSame(c.(timers := c.timers.(udpCloseWait := -1)), now);
      case Receive(d) => ReadSame(c, d, now);
    }
  }

  /** Every step keeps the measures in step with the history of sends. */
  lemma StepMeasured(e: Endpoint, a: Action, now: int)
    requires EndOk(e) && MeasuredOk(e.cfg, e.rate, e.pacer.counted)
    ensures var f := Step(e, a, now);
      MeasuredOk(f.cfg, f.rate, f.pacer.counted)
  {
    hide EndCore, MeasuredOk, UdpWrite, RateOk;
    RateOf(e);
    if a.WriteUdp? {
      var c := e.(clock := now);
      UdpWriteMeasured(c.(pacer := c.pacer.(udpWrite := -1)), e.pacer.udpWrite, a.taken, now);
    } else {
      hide Step;
      StepSame(e, a, now);
      SameMeasured(e, Step(e, a, now));
    }
  }
}
