/** How `buildConfirmations` packs the received indices into confirmation
    payloads, and how `udpRead` reads them back. */
module Confirmations {
  import opened Base
  import opened IntPair

  // ---------- specification of the packing loop ----------

  /** A gap and a run length, as one call of `packIntPair` packs them. */
  datatype Run = Run(gap: int, length: int)

  function EncodeRun(r: Run): seq<byte> {
    if r.gap < 0 || r.length < 0 then [] else Encode(r.gap) + Encode(r.length)
  }

  predicate Packable(r: Run, room: int) {
    r.gap >= 0 && r.length >= 0 && |EncodeRun(r)| <= room
  }

  function EncodeRuns(rs: seq<Run>): seq<byte> {
    if rs == [] then [] else EncodeRun(rs[0]) + EncodeRuns(rs[1..])
  }

  /** One past the run of consecutive keys that starts at position i. */
  function RunEnd(ks: seq<nat>, i: nat): (j: nat)
    requires i < |ks|
    ensures i < j <= |ks|
    ensures forall k :: i <= k < j ==> ks[k] == ks[i] + (k - i)
    ensures j < |ks| ==> ks[j] != ks[i] + (j - i)
    decreases |ks| - i
  {
    if i + 1 < |ks| && ks[i + 1] == ks[i] + 1 then RunEnd(ks, i + 1) else i + 1
  }

  /** The runs of each payload: keys from position i on, with `packed` the runs
      already packed into the current buffer and prev one past the last of them. */
  function Plan(ks: seq<nat>, i: nat, prev: int, packed: seq<Run>, master: int, capacity: nat): seq<seq<Run>>
    decreases |ks| - i
  {
    if i >= |ks| then [packed]
    else
      var j := RunEnd(ks, i);
      var near := Run(ks[i] - prev, j - i);
      var far := Run(ks[i] - master, j - i);
      var end := ks[i] + (j - i);
      if Packable(near, capacity - |EncodeRuns(packed)|) then
        Plan(ks, j, end, packed + [near], master, capacity)
      else if Packable(far, capacity) then
        [packed] + Plan(ks, j, end, [far], master, capacity)
      else
        [packed, []]
  }

  function Payloads(plan: seq<seq<Run>>): (r: seq<seq<byte>>)
    ensures |r| == |plan|
    ensures forall k :: 0 <= k < |plan| ==> r[k] == EncodeRuns(plan[k])
  {
    if plan == [] then [] else [EncodeRuns(plan[0])] + Payloads(plan[1..])
  }

  /** The payloads of one round of confirmations for the sorted keys ks. */
  function PackAll(ks: seq<nat>, master: int, capacity: nat): seq<seq<byte>> {
    Payloads(Plan(ks, 0, master, [], master, capacity))
  }

  // ---------- specification of the reading loop ----------

  /** Every pair the reading loop unpacks from position pos on. */
  function ReadAll(s: seq<byte>, pos: nat): seq<Run>
    decreases |s| - pos
  {
    ReadPairProgress(s, pos);
    match ReadPair(s, pos)
    case NoPair => []
    case Pair(a, b, end) => [Run(a, b)] + ReadAll(s, end)
  }

  /** Where the reading loop stops; equal to |s| unless the format is wrong. */
  function ReadEnd(s: seq<byte>, pos: nat): nat
    decreases |s| - pos
  {
    ReadPairProgress(s, pos);
    match ReadPair(s, pos)
    case NoPair => pos
    case Pair(a, b, end) => ReadEnd(s, end)
  }

  /** The indices `lo`, ..., `hi - 1`. */
  function Indices(lo: int, hi: int): seq<int> {
    seq(Max(hi - lo, 0), k requires 0 <= k => lo + k)
  }

  /** The indices a list of runs denotes when the first gap counts from current. */
  function Expand(current: int, rs: seq<Run>): seq<int>
    decreases |rs|
  {
    if rs == [] then []
    else
      Indices(current + rs[0].gap, current + rs[0].gap + rs[0].length)
      + Expand(current + rs[0].gap + rs[0].length, rs[1..])
  }

  function LastIndex(current: int, rs: seq<Run>): int
    decreases |rs|
  {
    if rs == [] then current else LastIndex(current + rs[0].gap + rs[0].length, rs[1..])
  }

  /** Every index a confirmation payload lists, in the order the loop visits them. */
  function Listed(master: int, s: seq<byte>): seq<int> {
    Expand(master, ReadAll(s, 0))
  }

  lemma ConcatAssociative<T>(a: seq<T>, b: seq<T>, c: seq<T>)
    ensures a + (b + c) == (a + b) + c
  {
  }

  lemma {:induction false} ExpandAppend(current: int, rs: seq<Run>, r: Run)
    ensures Expand(current, rs + [r]) ==
            Expand(current, rs) + Indices(LastIndex(current, rs) + r.gap, LastIndex(current, rs) + r.gap + r.length)
    ensures LastIndex(current, rs + [r]) == LastIndex(current, rs) + r.gap + r.length
    decreases |rs|
  {
    hide Indices;
    if rs == [] {
      assert (rs + [r])[1..] == [];
      assert [] + Indices(current + r.gap, current + r.gap + r.length) == Indices(current + r.gap, current + r.gap + r.length);
    } else {
      var next := current + rs[0].gap + rs[0].length;
      var head := Indices(current + rs[0].gap, next);
      assert (rs + [r])[1..] == rs[1..] + [r];
      assert Expand(current, rs + [r]) == head + Expand(next, rs[1..] + [r]);
      ExpandAppend(next, rs[1..], r);
      ConcatAssociative(head, Expand(next, rs[1..]), Indices(LastIndex(next, rs[1..]) + r.gap, LastIndex(next, rs[1..]) + r.gap + r.length));
    }
  }

  ghost predicate Small(rs: seq<Run>) {
    forall k :: 0 <= k < |rs| ==> 0 <= rs[k].gap < INT_LIMIT && 0 <= rs[k].length < INT_LIMIT
  }

  lemma SplitTail<T>(s: seq<T>, pos: nat, e: seq<T>, rest: seq<T>)
    requires pos <= |s| && s[pos..] == e + rest
    ensures pos + |e| <= |s| && s[pos..pos + |e|] == e && s[pos + |e|..] == rest
  {
    assert |s[pos..]| == |e| + |rest|;
    assert s[pos..pos + |e|] == s[pos..][..|e|];
    assert s[pos + |e|..] == s[pos..][|e|..];
  }

  lemma ReadNothing(s: seq<byte>)
    ensures ReadAll(s, |s|) == [] && ReadEnd(s, |s|) == |s|
  {
  }

  /** Reading an encoded list of runs gives the list back and consumes every byte. */
  lemma {:induction false} ReadRuns(rs: seq<Run>, s: seq<byte>, pos: nat)
    requires Small(rs)
    requires pos <= |s| && s[pos..] == EncodeRuns(rs)
    ensures ReadAll(s, pos) == rs
    ensures ReadEnd(s, pos) == |s|
    decreases |rs|
  {
    hide EncodeRun, ReadPair;
    if rs == [] {
      ReadNothing(s);
    } else {
      SplitTail(s, pos, EncodeRun(rs[0]), EncodeRuns(rs[1..]));
      ReadRun(s, pos, rs[0]);
      ReadRuns(rs[1..], s, pos + |EncodeRun(rs[0])|);
      assert rs == [rs[0]] + rs[1..];
    }
  }

  lemma ReadRun(s: seq<byte>, pos: nat, r: Run)
    requires 0 <= r.gap < INT_LIMIT && 0 <= r.length < INT_LIMIT
    requires pos + |EncodeRun(r)| <= |s| && s[pos..pos + |EncodeRun(r)|] == EncodeRun(r)
    ensures ReadAll(s, pos) == [r] + ReadAll(s, pos + |EncodeRun(r)|)
    ensures ReadEnd(s, pos) == ReadEnd(s, pos + |EncodeRun(r)|)
  {
    ReadPairProgress(s, pos);
    RoundTripAt(r.gap, r.length, s, pos);
  }

  // ---------- the plan is exact ----------

  function Concat<T>(ss: seq<seq<T>>): seq<T> {
    if ss == [] then [] else ss[0] + Concat(ss[1..])
  }

  function ExpandEach(master: int, plan: seq<seq<Run>>): seq<seq<int>> {
    if plan == [] then [] else [Expand(master, plan[0])] + ExpandEach(master, plan[1..])
  }

  /** The whole numbers of a sequence of indices, as integers. */
  function AsInts(ks: seq<nat>): seq<int> { ks }

  lemma RunIsPackable(r: Run)
    requires 0 <= r.gap < INT_LIMIT && 0 <= r.length < INT_LIMIT
    ensures |EncodeRun(r)| <= 10
  {
    EncodeAtMostFive(r.gap);
    EncodeAtMostFive(r.length);
  }

  /** The keys, and the state of the packing loop at position i. */
  ghost predicate PlanPre(ks: seq<nat>, i: nat, prev: int, packed: seq<Run>, master: nat, capacity: nat) {
    && Increasing(ks) && i <= |ks|
    && (forall k :: 0 <= k < |ks| ==> master <= ks[k] < INT_MAX)
    && master <= prev <= INT_MAX && (i < |ks| ==> prev <= ks[i])
    && Small(packed) && LastIndex(master, packed) == prev && |EncodeRuns(packed)| <= capacity
  }

  /** The run packed in one round, counted from the previous run. */
  function Near(ks: seq<nat>, i: nat, prev: int): Run
    requires i < |ks|
  {
    Run(ks[i] - prev, RunEnd(ks, i) - i)
  }

  function PlanNext(ks: seq<nat>, i: nat, prev: int, packed: seq<Run>, master: nat, capacity: nat): seq<seq<Run>>
    requires i < |ks|
  {
    Plan(ks, RunEnd(ks, i), ks[i] + (RunEnd(ks, i) - i), packed, master, capacity)
  }

  ghost predicate PlanNextPre(ks: seq<nat>, i: nat, packed: seq<Run>, master: nat, capacity: nat)
    requires i < |ks|
  {
    PlanPre(ks, RunEnd(ks, i), ks[i] + (RunEnd(ks, i) - i), packed, master, capacity)
  }

  /** How one round of the packing loop ends. */
  datatype Round = Extended | Restarted | Failed

  /** One round of the loop keeps its state: it extends the current buffer, or closes
      it and starts the next one at the master index, or, only with fewer than ten
      bytes of room, gives up. */
  lemma PlanStep(ks: seq<nat>, i: nat, prev: int, packed: seq<Run>, master: nat, capacity: nat) returns (round: Round)
    requires i < |ks| && PlanPre(ks, i, prev, packed, master, capacity)
    ensures round.Extended? ==>
      && Plan(ks, i, prev, packed, master, capacity) == PlanNext(ks, i, prev, packed + [Near(ks, i, prev)], master, capacity)
      && PlanNextPre(ks, i, packed + [Near(ks, i, prev)], master, capacity)
    ensures round.Restarted? ==>
      && Plan(ks, i, prev, packed, master, capacity) == [packed] + PlanNext(ks, i, prev, [Near(ks, i, master)], master, capacity)
      && PlanNextPre(ks, i, [Near(ks, i, master)], master, capacity)
    ensures round.Failed? ==> Plan(ks, i, prev, packed, master, capacity) == [packed, []] && capacity < 10
  {
    var near := Near(ks, i, prev);
    var far := Near(ks, i, master);
    assert ks[RunEnd(ks, i) - 1] == ks[i] + (RunEnd(ks, i) - i) - 1;
    RunIsPackable(far);
    if Packable(near, capacity - |EncodeRuns(packed)|) {
      assert PlanNextPre(ks, i, packed + [near], master, capacity) by {
        ExpandAppend(master, packed, near);
        EncodeRunsAppend(packed, near);
      }
      round := Extended;
    } else if Packable(far, capacity) {
      assert PlanNextPre(ks, i, [far], master, capacity) by {
        OneRun(master, far);
      }
      round := Restarted;
    } else {
      round := Failed;
    }
  }

  ghost predicate Fits(rs: seq<Run>, capacity: nat) {
    Small(rs) && |EncodeRuns(rs)| <= capacity
  }

  lemma {:induction false} PlanFits(ks: seq<nat>, i: nat, prev: int, packed: seq<Run>, master: nat, capacity: nat)
    requires i <= |ks| && PlanPre(ks, i, prev, packed, master, capacity)
    ensures forall p :: p in Plan(ks, i, prev, packed, master, capacity) ==> Fits(p, capacity)
    decreases |ks| - i
  {
    hide PlanPre, Packable, Fits, EncodeRuns;
    PlanPreFits(ks, i, prev, packed, master, capacity);
    NothingFits(capacity);
    if i < |ks| {
      var round := PlanStep(ks, i, prev, packed, master, capacity);
      if !round.Failed? {
        var packed' := if round.Extended? then packed + [Near(ks, i, prev)] else [Near(ks, i, master)];
        PlanFits(ks, RunEnd(ks, i), ks[i] + (RunEnd(ks, i) - i), packed', master, capacity);
      }
    }
  }

  lemma NothingFits(capacity: nat)
    ensures Fits([], capacity)
  {
  }

  lemma PlanPreFits(ks: seq<nat>, i: nat, prev: int, packed: seq<Run>, master: nat, capacity: nat)
    requires PlanPre(ks, i, prev, packed, master, capacity)
    ensures Fits(packed, capacity) && LastIndex(master, packed) == prev
  {
  }

  lemma {:induction false} PlanExact(ks: seq<nat>, i: nat, prev: int, packed: seq<Run>, master: nat, capacity: nat)
    requires capacity >= 10 && i <= |ks| && PlanPre(ks, i, prev, packed, master, capacity)
    ensures Concat(ExpandEach(master, Plan(ks, i, prev, packed, master, capacity))) ==
            Expand(master, packed) + AsInts(ks[i..])
    decreases |ks| - i
  {
    hide PlanPre, Packable, EncodeRuns, Expand, Indices;
    if i == |ks| {
      ConcatOne(Expand(master, packed));
      assert ExpandEach(master, [packed]) == [Expand(master, packed)];
    } else {
      var j := RunEnd(ks, i);
      var end := ks[i] + (j - i);
      var near := Near(ks, i, prev);
      var far := Near(ks, i, master);
      RunInKeys(ks, i, j);
      PlanPreFits(ks, i, prev, packed, master, capacity);
      var round := PlanStep(ks, i, prev, packed, master, capacity);
      if round.Extended? {
        PlanExact(ks, j, end, packed + [near], master, capacity);
        ExpandAppend(master, packed, near);
        ConcatAssociative(Expand(master, packed), Indices(ks[i], end), AsInts(ks[j..]));
      } else {
        PlanExact(ks, j, end, [far], master, capacity);
        OneRun(master, far);
        PlanCons(master, packed, PlanNext(ks, i, prev, [far], master, capacity));
      }
    }
  }

  /** Whatever the room, every payload denotes only given keys. */
  lemma {:induction false} PlanSound(ks: seq<nat>, i: nat, prev: int, packed: seq<Run>, master: nat, capacity: nat)
    requires i <= |ks| && PlanPre(ks, i, prev, packed, master, capacity)
    requires forall x :: x in Expand(master, packed) ==> x in AsInts(ks)
    ensures forall p, x :: p in Plan(ks, i, prev, packed, master, capacity) && x in Expand(master, p) ==> x in AsInts(ks)
    decreases |ks| - i
  {
    hide PlanPre, Packable, EncodeRuns, Expand, Indices;
    ExpandNothing(master);
    if i < |ks| {
      var j := RunEnd(ks, i);
      var end := ks[i] + (j - i);
      KeysOfRun(ks, i, j);
      PlanPreFits(ks, i, prev, packed, master, capacity);
      var round := PlanStep(ks, i, prev, packed, master, capacity);
      if round.Extended? {
        ExpandAppend(master, packed, Near(ks, i, prev));
        PlanSound(ks, j, end, packed + [Near(ks, i, prev)], master, capacity);
      } else if round.Restarted? {
        OneRun(master, Near(ks, i, master));
        PlanSound(ks, j, end, [Near(ks, i, master)], master, capacity);
      }
    }
  }

  lemma ExpandNothing(master: int)
    ensures Expand(master, []) == []
  {
  }

  lemma KeysOfRun(ks: seq<nat>, i: nat, j: nat)
    requires i < j <= |ks|
    requires forall k :: i <= k < j ==> ks[k] == ks[i] + (k - i)
    ensures forall x :: x in Indices(ks[i], ks[i] + (j - i)) ==> x in AsInts(ks)
  {
    forall x | x in Indices(ks[i], ks[i] + (j - i))
      ensures x in AsInts(ks)
    {
      assert ks[i + (x - ks[i])] == x;
    }
  }

  lemma ConcatOne<T>(a: seq<T>)
    ensures Concat([a]) == a
  {
    assert Concat([a]) == a + Concat([]);
  }

  lemma {:induction false} EncodeRunsAppend(rs: seq<Run>, r: Run)
    ensures EncodeRuns(rs + [r]) == EncodeRuns(rs) + EncodeRun(r)
    decreases |rs|
  {
    if rs == [] {
      assert rs + [r] == [r] && [r][1..] == [];
    } else {
      assert (rs + [r])[0] == rs[0] && (rs + [r])[1..] == rs[1..] + [r];
      EncodeRunsAppend(rs[1..], r);
    }
  }

  lemma OneRun(current: int, r: Run)
    ensures Expand(current, [r]) == Indices(current + r.gap, current + r.gap + r.length)
    ensures LastIndex(current, [r]) == current + r.gap + r.length
    ensures EncodeRuns([r]) == EncodeRun(r)
  {
    ExpandAppend(current, [], r);
    EncodeRunsAppend([], r);
    assert [] + [r] == [r];
  }

  lemma PlanCons(master: int, first: seq<Run>, rest: seq<seq<Run>>)
    ensures Concat(ExpandEach(master, [first] + rest)) == Expand(master, first) + Concat(ExpandEach(master, rest))
  {
    assert ([first] + rest)[1..] == rest;
    assert ([Expand(master, first)] + ExpandEach(master, rest))[1..] == ExpandEach(master, rest);
  }

  lemma RunInKeys(ks: seq<nat>, i: nat, j: nat)
    requires i < j <= |ks|
    requires forall k :: i <= k < j ==> ks[k] == ks[i] + (k - i)
    ensures AsInts(ks[i..]) == Indices(ks[i], ks[i] + (j - i)) + AsInts(ks[j..])
  {
  }

  /** What one endpoint reads from a list of payloads, one packet after the other,
      each starting again at the master index. */
  function ListedInAll(master: int, payloads: seq<seq<byte>>): seq<int> {
    if payloads == [] then [] else Listed(master, payloads[0]) + ListedInAll(master, payloads[1..])
  }

  lemma {:induction false} ListedIsExpanded(master: int, plan: seq<seq<Run>>)
    requires forall p :: p in plan ==> Small(p)
    ensures ListedInAll(master, Payloads(plan)) == Concat(ExpandEach(master, plan))
    ensures forall k :: 0 <= k < |plan| ==> ReadEnd(Payloads(plan)[k], 0) == |Payloads(plan)[k]|
  {
    if plan != [] {
      assert plan[0] in plan;
      var p := EncodeRuns(plan[0]);
      assert p[0..] == p;
      ReadRuns(plan[0], p, 0);
      ListedIsExpanded(master, plan[1..]);
      assert Payloads(plan)[1..] == Payloads(plan[1..]);
      forall k | 0 <= k < |plan|
        ensures ReadEnd(Payloads(plan)[k], 0) == |Payloads(plan)[k]|
      {
        if k > 0 {
          assert Payloads(plan)[k] == Payloads(plan[1..])[k - 1];
        }
      }
    }
  }

  /** The confirmations of one round list exactly the received indices at or above
      the master index, each once and in order, across any number of packets; each
      packet fits and is readable on its own to its last byte. */
  lemma ConfirmationsExact(ks: seq<nat>, master: nat, capacity: nat)
    requires Increasing(ks) && capacity >= 10 && master <= INT_MAX
    requires forall k :: 0 <= k < |ks| ==> master <= ks[k] < INT_MAX
    ensures var ps := PackAll(ks, master, capacity);
      && ListedInAll(master, ps) == AsInts(ks)
      && (forall k :: 0 <= k < |ps| ==> |ps[k]| <= capacity && ReadEnd(ps[k], 0) == |ps[k]|)
  {
    var plan := Plan(ks, 0, master, [], master, capacity);
    PlanExact(ks, 0, master, [], master, capacity);
    PlanFits(ks, 0, master, [], master, capacity);
    ListedIsExpanded(master, plan);
    assert ks[0..] == ks;
    forall k | 0 <= k < |plan|
      ensures |Payloads(plan)[k]| <= capacity
    {
      assert plan[k] in plan;
    }
  }

  /** No confirmation of the round lists an index that was not received, whatever the
      packet size. */
  lemma ListedWasReceived(ks: seq<nat>, master: nat, capacity: nat, k: nat, x: int)
    requires Increasing(ks) && master <= INT_MAX
    requires forall k :: 0 <= k < |ks| ==> master <= ks[k] < INT_MAX
    requires k < |PackAll(ks, master, capacity)|
    requires x in Listed(master, PackAll(ks, master, capacity)[k])
    ensures x >= 0 && x in ks
  {
    var plan := Plan(ks, 0, master, [], master, capacity);
    PlanFits(ks, 0, master, [], master, capacity);
    PlanSound(ks, 0, master, [], master, capacity);
    assert plan[k] in plan;
    var p := EncodeRuns(plan[k]);
    assert p[0..] == p;
    ReadRuns(plan[k], p, 0);
    assert x in Expand(master, plan[k]);
    assert x in AsInts(ks);
  }

  lemma SmallRun(gap: nat, length: nat)
    requires gap < 128 && length < 128
    ensures EncodeRun(Run(gap, length)) == [gap, length]
  {
    assert HighDigits(0) == [];
  }

  lemma PlanOfTwo(ks: seq<nat>, first: Run, second: Run)
    requires ks == [7, 8, 9, 12] && first == Run(2, 3) && second == Run(2, 1)
    requires RunEnd(ks, 0) == 3 && RunEnd(ks, 3) == 4
    requires EncodeRuns([]) == [] && |EncodeRun(first)| == 2 && |EncodeRun(second)| == 2 && |EncodeRuns([first])| == 2
    ensures Plan(ks, 0, 5, [], 5, 100) == [[first, second]]
  {
    hide EncodeRun, EncodeRuns, RunEnd;
    assert [] + [first] == [first] && [first] + [second] == [first, second];
    assert Plan(ks, 4, 13, [first, second], 5, 100) == [[first, second]];
    assert Plan(ks, 3, 10, [first], 5, 100) == Plan(ks, 4, 13, [first, second], 5, 100);
  }

  /** The layout of a payload: gap and length of each run, the first gap from the master
      index, every other from the end of the run before. */
  lemma PayloadLayout()
    ensures PackAll([7, 8, 9, 12], 5, 100) == [[2, 3, 2, 1]]
  {
    hide EncodeRun, Plan;
    var ks: seq<nat> := [7, 8, 9, 12];
    var first, second := Run(2, 3), Run(2, 1);
    assert RunEnd(ks, 0) == 3 && RunEnd(ks, 3) == 4;
    SmallRun(2, 3);
    SmallRun(2, 1);
    assert EncodeRuns([]) == [];
    assert [first][1..] == [] && EncodeRuns([first]) == EncodeRun(first) + EncodeRuns([]);
    assert [first, second][1..] == [second] && [second][1..] == [];
    assert EncodeRuns([first, second]) == EncodeRun(first) + EncodeRuns([second]);
    assert EncodeRuns([second]) == EncodeRun(second) + EncodeRuns([]);
    PlanOfTwo(ks, first, second);
    assert EncodeRuns([first, second]) == [2, 3, 2, 1];
    var plan := [[first, second]];
    assert plan[1..] == [] && Payloads([]) == [];
    assert Payloads(plan) == [EncodeRuns(plan[0])] + Payloads(plan[1..]);
  }
}
