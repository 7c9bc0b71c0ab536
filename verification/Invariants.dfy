/** What every handler of one connection keeps, and what no handler undoes. */
module Invariants {
  import opened Base
  import opened Confirmations
  import opened Receivers
  import opened Senders
  import opened Rates
  import opened Endpoints

  // ---------- pacing ----------

  ghost predicate Spaced(sends: seq<Slot>) {
    forall i :: 0 < i < |sends| ==> sends[i].planned >= sends[i - 1].planned + sends[i].floor
  }

  /** A time no earlier than the smallest interval in force after the last datagram. */
  ghost predicate Due(p: Pacer, at: int) {
    && at >= p.lastSentUs
    && (|p.sends| > 0 ==> at >= p.sends[|p.sends| - 1].planned + p.floor)
  }

  ghost predicate Paced(p: Pacer, intervalUs: int) {
    && 0 <= p.lastSentUs && 0 <= p.floor <= intervalUs
    && Spaced(p.sends)
    && (|p.sends| > 0 ==> p.lastSentUs >= p.sends[|p.sends| - 1].planned)
    && (p.udpWrite >= 0 ==> Due(p, p.udpWrite))
  }

  lemma ArmKeepsPace(p: Pacer, intervalUs: int, now: int)
    requires Paced(p, intervalUs)
    ensures Paced(ArmUdpWrite(p, intervalUs, now), intervalUs)
    ensures ArmUdpWrite(p, intervalUs, now).udpWrite >= 0
    ensures ArmUdpWrite(p, intervalUs, now).lastSentUs >= p.lastSentUs
  {
  }

  lemma RearmKeepsPace(p: Pacer, intervalUs: int)
    requires Paced(p, intervalUs)
    ensures Paced(p.(udpWrite := SetTime(p.udpWrite, p.lastSentUs + intervalUs)), intervalUs)
    ensures SetTime(p.udpWrite, p.lastSentUs + intervalUs) >= 0
  {
  }

  /** A datagram is sent at the time its event was armed for, so its planned time
      is at least the smallest interval in force after that of the one before it. */
  lemma TookKeepsPace(p: Pacer, planned: int, intervalUs: int)
    requires Paced(p, intervalUs) && p.udpWrite < 0 && Due(p, planned)
    ensures Paced(Took(p, planned, intervalUs), intervalUs)
    ensures Took(p, planned, intervalUs).lastSentUs >= p.lastSentUs
  {
  }

  /** Over any stretch of sends in which no interval was below least, each planned
      time is that much later than the one before. */
  lemma {:induction false} SpacedStretch(sends: seq<Slot>, i: nat, j: nat, least: int)
    requires Spaced(sends) && i <= j < |sends|
    requires forall k :: i < k <= j ==> sends[k].floor >= least
    ensures sends[j].planned - sends[i].planned >= (j - i) * least
  {
    if i < j {
      SpacedStretch(sends, i, j - 1, least);
      assert (j - i) * least == (j - 1 - i) * least + least;
    }
  }

  /** At most T / I + 1 datagrams are planned in a window of length T. */
  lemma WindowBound(sends: seq<Slot>, i: nat, j: nat, least: int, length: nat)
    requires Spaced(sends) && i <= j < |sends| && least > 0
    requires forall k :: i < k <= j ==> sends[k].floor >= least
    requires sends[j].planned - sends[i].planned <= length
    ensures j - i + 1 <= length / least + 1
  {
    SpacedStretch(sends, i, j, least);
    if j - i > length / least {
      var q := length / least;
      assert length < (q + 1) * least;
      Scale(q + 1, j - i, least);
      assert false;
    }
  }

  // ---------- the measure table against the stored packets ----------

  /** Per live window: what was answered either way and what is in flight make up what
      was sent, and the packets confirmed late once more. */
  ghost predicate Balanced(r: Rate, packets: map<nat, Packet>, late: map<nat, nat>) {
    && (forall m: nat :: m in r.measures ==>
          r.measures[m].successSize + r.measures[m].failSize + Total(packets, InFlight(m)) == r.measures[m].size + LateIn(late, m))
    && (forall m: nat :: m in late ==> m <= r.index)
  }

  /** Per live window: a packet's latest send is counted in the window's size before
      any answer to it is. */
  ghost predicate Counted(cfg: Config, r: Rate, packets: map<nat, Packet>, late: map<nat, nat>, open: bool) {
    && (forall m: nat :: m in r.measures ==>
          && r.measures[m].successSize + Total(packets, Tried(m, cfg.udpResendCount)) <= r.measures[m].size
          && r.measures[m].failSize + Total(packets, InFlight(m)) <= r.measures[m].size)
    && (forall k: nat :: k in packets && WasTried(packets[k], cfg.udpResendCount) ==> packets[k].measureIndex <= r.index)
    && (open ==> Balanced(r, packets, late))
  }

  ghost predicate RateOkAt(r: Rate, clock: int) {
    && RateOk(r)
    && 0 <= r.measures[r.index].beginUs <= clock
  }

  lemma EnqueueCounted(cfg: Config, r: Rate, packets: map<nat, Packet>, late: map<nat, nat>, k: nat, d: Datagram)
    requires Counted(cfg, r, packets, late, true) && k !in packets
    ensures Counted(cfg, r, packets[k := Fresh(d, cfg.udpResendCount)], late, true)
  {
    hide Total;
    var p := Fresh(d, cfg.udpResendCount);
    forall m: nat | m in r.measures
      ensures Total(packets[k := p], Tried(m, cfg.udpResendCount)) == Total(packets, Tried(m, cfg.udpResendCount))
      ensures Total(packets[k := p], InFlight(m)) == Total(packets, InFlight(m))
    {
      TotalInsert(packets, k, p, Tried(m, cfg.udpResendCount));
      TotalInsert(packets, k, p, InFlight(m));
    }
  }

  lemma NothingIn(cfg: Config, r: Rate, packets: map<nat, Packet>, late: map<nat, nat>, m: nat)
    requires Counted(cfg, r, packets, late, true) && m > r.index
    ensures Total(packets, Tried(m, cfg.udpResendCount)) == 0
    ensures Total(packets, InFlight(m)) == 0 && LateIn(late, m) == 0
  {
    TotalZero(packets, Tried(m, cfg.udpResendCount));
    TotalZero(packets, InFlight(m));
  }

  lemma SentTotals(cfg: Config, packets: map<nat, Packet>, k: nat, index: nat, now: int, m: nat)
    requires k in packets && !packets[k].sent
    ensures var p := packets[k].(sent := true, sentTimeUs := now, measureIndex := index);
      var extra := if m == index then p.Size() else 0;
      && Total(packets[k := p], Tried(m, cfg.udpResendCount)) <= Total(packets, Tried(m, cfg.udpResendCount)) + extra
      && Total(packets[k := p], InFlight(m)) == Total(packets, InFlight(m)) + extra
  {
    hide Total;
    var p := packets[k].(sent := true, sentTimeUs := now, measureIndex := index);
    TotalUpdate(packets, k, p, Tried(m, cfg.udpResendCount));
    TotalUpdate(packets, k, p, InFlight(m));
  }

  /** A send is counted in the current window and the packet filed under it. */
  lemma SentCounted(cfg: Config, r: Rate, packets: map<nat, Packet>, late: map<nat, nat>, k: nat, clock: int, now: int)
    requires Counted(cfg, r, packets, late, true) && RateOkAt(r, clock) && clock <= now
    requires k in packets && !packets[k].sent
    ensures var p := packets[k].(sent := true, sentTimeUs := now, measureIndex := r.index);
      var s := OnSent(cfg, r, r.index, r.intervalUs, p.Size(), now);
      && Counted(cfg, s, packets[k := p], late, true) && RateOkAt(s, now) && s.intervalUs == r.intervalUs
      && r.index in s.measures && s.measures[r.index].count == r.measures[r.index].count + 1
      && s.measures[r.index].size == r.measures[r.index].size + p.Size()
      && s.measures[r.index].summaryIntervalUs == r.measures[r.index].summaryIntervalUs + r.intervalUs
  {
    hide Total, LateIn;
    var p := packets[k].(sent := true, sentTimeUs := now, measureIndex := r.index);
    var after := packets[k := p];
    var s := OnSent(cfg, r, r.index, r.intervalUs, p.Size(), now);
    OnSentKeeps(cfg, r, r.index, p.Size(), now);
    forall m: nat | m in s.measures
      ensures s.measures[m].successSize + Total(after, Tried(m, cfg.udpResendCount)) <= s.measures[m].size
      ensures s.measures[m].failSize + Total(after, InFlight(m)) <= s.measures[m].size
      ensures s.measures[m].successSize + s.measures[m].failSize + Total(after, InFlight(m)) == s.measures[m].size + LateIn(late, m)
    {
      SentTotals(cfg, packets, k, r.index, now, m);
      if m > r.index {
        NothingIn(cfg, r, packets, late, m);
      } else {
        assert m in r.measures;
      }
    }
  }

  lemma DeliveredMeasures(cfg: Config, r: Rate, success: bool, measureIndex: int, size: nat)
    requires RateOk(r)
    ensures var s := OnDelivered(cfg, r, success, measureIndex, size);
      forall m: nat :: m in s.measures ==>
        m in r.measures && s.measures[m] == (if m == measureIndex then Credit(r.measures[m], success, size) else r.measures[m])
  {
  }

  lemma NotedIn(late: map<nat, nat>, p: Packet, m: nat)
    ensures LateIn(Noted(late, p), m) == LateIn(late, m) + if m == p.measureIndex && !p.sent then p.Size() else 0
    ensures m in Noted(late, p) ==> m in late || m == p.measureIndex
  {
  }

  /** A confirmed packet that was sent before leaves the store and enters the
      successes of its window; it was in flight, or it is late. */
  lemma ConfirmedCounted(cfg: Config, r: Rate, packets: map<nat, Packet>, late: map<nat, nat>, k: nat, clock: int)
    requires Counted(cfg, r, packets, late, true) && RateOkAt(r, clock)
    requires k in packets && WasTried(packets[k], cfg.udpResendCount)
    ensures var s := OnDelivered(cfg, r, true, packets[k].measureIndex, packets[k].Size());
      Counted(cfg, s, packets - {k}, Noted(late, packets[k]), true) && RateOkAt(s, clock)
  {
    hide Total, LateIn, Noted, OnDelivered;
    var p := packets[k];
    var s := OnDelivered(cfg, r, true, p.measureIndex, p.Size());
    OnDeliveredKeeps(cfg, r, true, p.measureIndex, p.Size());
    DeliveredMeasures(cfg, r, true, p.measureIndex, p.Size());
    forall m: nat | m in s.measures
      ensures s.measures[m].successSize + Total(packets - {k}, Tried(m, cfg.udpResendCount)) <= s.measures[m].size
      ensures s.measures[m].failSize + Total(packets - {k}, InFlight(m)) <= s.measures[m].size
      ensures s.measures[m].successSize + s.measures[m].failSize + Total(packets - {k}, InFlight(m))
           == s.measures[m].size + LateIn(Noted(late, p), m)
    {
      TotalRemove(packets, k, Tried(m, cfg.udpResendCount));
      TotalRemove(packets, k, InFlight(m));
      NotedIn(late, p, m);
    }
    forall m: nat | m in Noted(late, p)
      ensures m <= s.index
    {
      NotedIn(late, p, m);
    }
  }

  /** An expired packet is no longer in flight and enters the failures of its window. */
  lemma ExpiredCounted(cfg: Config, r: Rate, packets: map<nat, Packet>, late: map<nat, nat>, k: nat, clock: int)
    requires Counted(cfg, r, packets, late, true) && RateOkAt(r, clock)
    requires k in packets && packets[k].sent && packets[k].remainResendCount <= cfg.udpResendCount
    ensures var p := packets[k].(sent := false, remainResendCount := packets[k].remainResendCount - 1);
      var s := OnDelivered(cfg, r, false, p.measureIndex, p.Size());
      Counted(cfg, s, packets[k := p], late, true) && RateOkAt(s, clock)
  {
    hide Total, LateIn, OnDelivered;
    var p := packets[k].(sent := false, remainResendCount := packets[k].remainResendCount - 1);
    var s := OnDelivered(cfg, r, false, p.measureIndex, p.Size());
    OnDeliveredKeeps(cfg, r, false, p.measureIndex, p.Size());
    DeliveredMeasures(cfg, r, false, p.measureIndex, p.Size());
    forall m: nat | m in s.measures
      ensures s.measures[m].successSize + Total(packets[k := p], Tried(m, cfg.udpResendCount)) <= s.measures[m].size
      ensures s.measures[m].failSize + Total(packets[k := p], InFlight(m)) <= s.measures[m].size
      ensures s.measures[m].successSize + s.measures[m].failSize + Total(packets[k := p], InFlight(m)) == s.measures[m].size + LateIn(late, m)
    {
      TotalUpdate(packets, k, p, Tried(m, cfg.udpResendCount));
      TotalUpdate(packets, k, p, InFlight(m));
    }
  }

  lemma ClearedCounted(cfg: Config, r: Rate, packets: map<nat, Packet>, late: map<nat, nat>)
    requires Counted(cfg, r, packets, late, true)
    ensures Counted(cfg, r, map[], late, false)
  {
  }

  /** A finished window in which nothing was sent has nothing failed, so the amplifier
      never uses the undefined quotient 0/0. */
  lemma EmptyWindowHasNoFailures(cfg: Config, r: Rate, packets: map<nat, Packet>, late: map<nat, nat>, open: bool, m: nat)
    requires Counted(cfg, r, packets, late, open) && m in r.measures && r.measures[m].size == 0
    ensures r.measures[m].failSize <= 0 && r.measures[m].successSize <= 0
  {
  }

  /** The two sums of a window together exceed what was sent exactly when more was
      confirmed late than is in flight. */
  lemma SumWithinSizeIff(cfg: Config, r: Rate, packets: map<nat, Packet>, late: map<nat, nat>, m: nat)
    requires Counted(cfg, r, packets, late, true) && m in r.measures
    ensures r.measures[m].successSize + r.measures[m].failSize <= r.measures[m].size
      <==> LateIn(late, m) <= Total(packets, InFlight(m))
  {
    hide Total, LateIn;
  }

  /** What one confirmation does to a window in which nothing was late so far: the sums
      stay within what was sent if and only if the packet was in flight, not waiting to
      be sent again, or enough others still are in flight. */
  lemma ConfirmationWithinSizeIff(cfg: Config, r: Rate, packets: map<nat, Packet>, late: map<nat, nat>, k: nat)
    requires Counted(cfg, r, packets, late, true) && k in packets && packets[k].measureIndex >= 0
    requires packets[k].measureIndex in r.measures && LateIn(late, packets[k].measureIndex) == 0
    ensures var index: nat := packets[k].measureIndex;
      var m := Credit(r.measures[index], true, packets[k].Size());
      m.successSize + m.failSize <= m.size <==> packets[k].sent || packets[k].Size() <= Total(packets - {k}, InFlight(index))
  {
    hide Total, LateIn;
    TotalRemove(packets, k, InFlight(packets[k].measureIndex));
  }

  // ---------- the invariant of one endpoint ----------

  /** A confirmation covers only indices its sender has received. */
  ghost predicate Truthful(d: Datagram, got: map<nat, Datagram>) {
    d.kind.Confirmation? ==>
      && (forall k: nat :: k < d.index ==> k in got)
      && (forall x :: x in Listed(d.index, d.payload) ==> x >= 0 && x in got)
  }

  ghost predicate AllTruthful(outbox: set<Datagram>, control: seq<Packet>, got: map<nat, Datagram>) {
    && (forall d :: d in outbox ==> Truthful(d, got))
    && (forall i :: 0 <= i < |control| ==> Truthful(control[i].dg, got))
  }

  /** What is numbered is a prefix of what was read; until the peer is finished, the
      rest is exactly the unflushed buffer. */
  ghost predicate StreamIn(s: Sender, finished: bool, open: bool) {
    && LogContents(s.log, |s.log|) <= s.tcpIn
    && (open && !finished ==> LogContents(s.log, |s.log|) + s.data == s.tcpIn)
  }

  ghost predicate ReasonOk(e: Endpoint) {
    && (e.udpConnected <==> e.reason.NotClosed?)
    && (!e.udpConnected ==> e.snd.packets == map[] && e.snd.control == [] && e.snd.data == [])
    && (e.reason.NoAnswer? ==> GaveUp(e.cfg, e.snd.attempts, e.reason.index, e.clock))
  }

  /** A packet was sent as often as the budget allows, and as long ago. */
  ghost predicate GaveUp(cfg: Config, attempts: map<nat, Attempts>, k: nat, clock: int) {
    && k in attempts && attempts[k].count == cfg.udpResendCount + 1
    && clock >= attempts[k].firstUs + (cfg.udpResendCount + 1) * cfg.udpResendUs
  }

  /** Everything but the rule that a closed TCP side has numbered its closing packet. */
  ghost predicate EndCore(e: Endpoint) {
    && 0 <= e.clock
    && SendOk(e.cfg, e.snd, e.udpConnected, e.clock)
    && RecvOk(e.rcv, Window(e.cfg), e.cfg.udpSendPacketSize, e.tcpConnected)
    && RateOkAt(e.rate, e.clock)
    && Counted(e.cfg, e.rate, e.snd.packets, e.snd.late, e.udpConnected)
    && Paced(e.pacer, e.rate.intervalUs)
    && AllTruthful(e.snd.outbox, e.snd.control, e.rcv.got)
    && StreamIn(e.snd, Finished(e.rcv), e.udpConnected)
    && (e.tcpConnected ==> !EndsWithBye(e.snd.log))
    && ReasonOk(e)
  }

  /** While UDP is open, a closed TCP side has numbered its closing packet and has
      nothing left to flush. */
  ghost predicate ByeOk(e: Endpoint) {
    !e.tcpConnected && e.udpConnected ==> EndsWithBye(e.snd.log) && e.snd.data == []
  }

  ghost predicate EndOk(e: Endpoint) {
    EndCore(e) && ByeOk(e)
  }

  // ---------- what no handler undoes ----------

  ghost predicate Grows(e: Endpoint, f: Endpoint) {
    && f.cfg == e.cfg && e.clock <= f.clock
    && SendGrows(e.snd, f.snd) && RecvGrows(e.rcv, f.rcv)
    && e.pacer.lastSentUs <= f.pacer.lastSentUs && e.pacer.sends <= f.pacer.sends
    && (f.tcpConnected ==> e.tcpConnected)
    && (!e.udpConnected ==> !f.udpConnected && f.reason == e.reason && f.snd == e.snd.(tcpIn := f.snd.tcpIn))
  }

  /** Packets leave the store only when acknowledged, as long as UDP is open or was
      closed because everything is done. */
  ghost predicate Covers(e: Endpoint, f: Endpoint, acked: set<nat>) {
    e.udpConnected && (f.udpConnected || f.reason.AllDone?) ==>
      forall k: nat :: k < |f.snd.log| && (k in e.snd.packets || k >= |e.snd.log|) ==> k in f.snd.packets || k in acked
  }

  lemma GrowsTransitive(e: Endpoint, f: Endpoint, g: Endpoint)
    requires Grows(e, f) && Grows(f, g)
    ensures Grows(e, g)
  {
  }

  lemma CoversTransitive(e: Endpoint, f: Endpoint, g: Endpoint, a: set<nat>, b: set<nat>)
    requires Grows(e, f) && Grows(f, g) && Covers(e, f, a) && Covers(f, g, b)
    ensures Covers(e, g, a + b)
  {
    if e.udpConnected && (g.udpConnected || g.reason.AllDone?) {
      if f.udpConnected {
        forall k: nat | k < |g.snd.log| && (k in e.snd.packets || k >= |e.snd.log|)
          ensures k in g.snd.packets || k in a + b
        {
          if k < |f.snd.log| && k !in a {
            assert k in f.snd.packets;
          }
        }
      }
    }
  }
}
