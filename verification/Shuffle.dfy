/** The part of `doEvents` that shuffles the events to raise through buckets. */
module Shuffles {
  import opened Base
  import opened EventLinks

  // ---------- what the links of one type say as a whole ----------

  /** With a single list, the linked events are its elements. */
  lemma OnlyList(target: map<Slot, nat>, back: map<nat, Slot>, owner: map<nat, nat>, lists: map<nat, seq<nat>>, h: nat)
    requires LinksOk(target, back, owner, lists) && h in lists
    requires forall g: nat :: g in lists ==> g == h || lists[g] == []
    ensures forall e: nat :: e in back <==> e in lists[h]
    ensures Distinct(lists[h])
  {
    assert ChainOk(target, back, owner, h, lists[h]);
    forall e: nat | e in lists[h]
      ensures e in back
    {
      var i :| 0 <= i < |lists[h]| && lists[h][i] == e;
      HeldAt(target, back, owner, h, lists[h], i);
    }
  }

  lemma CutOut(s: seq<nat>, i: nat)
    requires Distinct(s) && i < |s|
    ensures var t := s[..i] + s[i + 1..];
      && |t| == |s| - 1 && Distinct(t)
      && multiset(s) == multiset{s[i]} + multiset(t)
      && forall e: nat :: e in t <==> e in s && e != s[i]
  {
    var t := s[..i] + s[i + 1..];
    assert forall j :: 0 <= j < |t| ==> t[j] == if j < i then s[j] else s[j + 1];
    assert s == s[..i] + ([s[i]] + s[i + 1..]);
    forall e: nat
      ensures e in t <==> e in s && e != s[i]
    {
      WithoutOne(s, i, e);
    }
  }

  /** Two sequences without repetition and with the same elements are permutations. */
  lemma {:induction false} SameElements(a: seq<nat>, b: seq<nat>)
    requires Distinct(a) && Distinct(b)
    requires forall e: nat :: e in a <==> e in b
    ensures multiset(a) == multiset(b)
    decreases |a|
  {
    hide Distinct;
    if a == [] {
      FirstIn(b);
    } else {
      assert a[0] in a;
      var i :| 0 <= i < |b| && b[i] == a[0];
      CutOut(a, 0);
      CutOut(b, i);
      SameElements(a[..0] + a[1..], b[..i] + b[i + 1..]);
    }
  }

  lemma FirstIn(s: seq<nat>)
    ensures s == [] || s[0] in s
  {
  }

  lemma WithoutOne(s: seq<nat>, i: nat, e: nat)
    requires Distinct(s) && i < |s|
    ensures e in s[..i] + s[i + 1..] <==> e in s && e != s[i]
  {
    var t := s[..i] + s[i + 1..];
    if e in s && e != s[i] {
      var j :| 0 <= j < |s| && s[j] == e;
      assert t[if j < i then j else j - 1] == e;
    }
    if e in t {
      var j :| 0 <= j < |t| && t[j] == e;
      assert s[if j < i then j else j + 1] == e;
    }
  }

  lemma NotOnOther(target: map<Slot, nat>, back: map<nat, Slot>, owner: map<nat, nat>, lists: map<nat, seq<nat>>, h: nat, e: nat, g: nat)
    requires LinksOk(target, back, owner, lists) && h in lists && g in lists && g != h && e in lists[h]
    ensures e !in lists[g]
  {
    var i :| 0 <= i < |lists[h]| && lists[h][i] == e;
    HeldAt(target, back, owner, h, lists[h], i);
    forall j | 0 <= j < |lists[g]|
      ensures lists[g][j] != e
    {
      HeldAt(target, back, owner, g, lists[g], j);
    }
  }

  lemma WithoutFirst(target: map<Slot, nat>, back: map<nat, Slot>, owner: map<nat, nat>, lists: map<nat, seq<nat>>, h: nat)
    requires LinksOk(target, back, owner, lists) && h in lists && lists[h] != []
    ensures Without(lists, lists[h][0]) == lists[h := lists[h][1..]]
    ensures forall g: nat :: g in lists && g != h ==> lists[h][0] !in lists[g]
  {
    hide LinksOk;
    var e := lists[h][0];
    forall g: nat | g in lists && g != h
      ensures e !in lists[g] && Remove(lists[g], e) == lists[g]
    {
      NotOnOther(target, back, owner, lists, h, e, g);
      RemoveAbsent(lists[g], e);
    }
  }

  // ---------- the buckets ----------

  /** Bucket b is list b + 1; its second pointer is its last event. */
  ghost predicate BucketOk(lists: map<nat, seq<nat>>, second: nat, b: nat) {
    b + 1 in lists && (lists[b + 1] != [] ==> second == lists[b + 1][|lists[b + 1]| - 1])
  }

  ghost predicate BucketsOk(lists: map<nat, seq<nat>>, second: seq<nat>) {
    forall b :: 0 <= b < |second| ==> BucketOk(lists, second[b], b)
  }

  ghost predicate ListsAre(lists: map<nat, seq<nat>>, from: nat, count: nat) {
    forall h: nat :: h in lists <==> h == 0 || from < h <= count
  }

  /** `shuffle.resize(count)`: null heads. */
  method Resize(links: Links, count: nat)
    requires links.Valid() && links.lists.Keys == {0}
    modifies links
    ensures links.Valid() && ListsAre(links.lists, 0, count)
    ensures links.lists[0] == old(links.lists[0]) && forall h: nat :: h in links.lists && h != 0 ==> links.lists[h] == []
    ensures links.back == old(links.back)
  {
    hide LinksOk;
    var b := 0;
    while b < count
      invariant b <= count && links.Valid() && ListsAre(links.lists, 0, b)
      invariant links.lists[0] == old(links.lists[0]) && forall h: nat :: h in links.lists && h != 0 ==> links.lists[h] == []
      invariant links.back == old(links.back)
    {
      links.NewList(b + 1);
      b := b + 1;
    }
  }

  /** One event goes to the front or, in a bucket that is not empty, perhaps to the back
      of its bucket. */
  method Throw(links: Links, e: nat, b: nat, toBack: bool, second: seq<nat>) returns (second': seq<nat>)
    requires links.Valid() && 0 in links.lists && links.lists[0] != [] && links.lists[0][0] == e
    requires b < |second| && BucketsOk(links.lists, second)
    modifies links
    ensures links.Valid() && |second'| == |second| && BucketsOk(links.lists, second')
    ensures links.lists.Keys == old(links.lists).Keys && links.lists[0] == old(links.lists[0])[1..]
    ensures links.back.Keys == old(links.back).Keys
  {
    hide LinksOk, Without, Remove;
    assert BucketOk(links.lists, second[b], b);
    WithoutFirst(links.target, links.back, links.owner, links.lists, 0);
    Linked(links.target, links.back, links.owner, links.lists, 0);
    HeadIsFirst(links.target, links.back, links.owner, links.lists, b + 1);
    ghost var list := links.lists[b + 1];
    second' := second;
    if Head(b + 1) !in links.target {
      links.Link(e, Head(b + 1), b + 1, 0);
      second' := second[b := e];
    } else if !toBack {
      links.Link(e, Head(b + 1), b + 1, 0);
    } else {
      links.Link(e, Next(second[b]), b + 1, |list|);
      second' := second[b := e];
    }
    forall c | 0 <= c < |second'|
      ensures BucketOk(links.lists, second'[c], c)
    {
      assert old(BucketOk(links.lists, second[c], c));
    }
  }

  lemma Linked(target: map<Slot, nat>, back: map<nat, Slot>, owner: map<nat, nat>, lists: map<nat, seq<nat>>, h: nat)
    requires LinksOk(target, back, owner, lists) && h in lists && lists[h] != []
    ensures lists[h][0] in back
  {
    HeadIsFirst(target, back, owner, lists, h);
  }

  /** The shuffling loop: every event is thrown into a bucket, for any outcomes of rand. */
  method ThrowAll(links: Links, count: nat, rand: nat -> nat) returns (second: seq<nat>)
    requires links.Valid() && ListsAre(links.lists, 0, count) && (links.lists[0] != [] ==> count > 0)
    requires forall h: nat :: h in links.lists && h != 0 ==> links.lists[h] == []
    modifies links
    ensures links.Valid() && |second| == count && BucketsOk(links.lists, second)
    ensures ListsAre(links.lists, 0, count) && links.lists[0] == [] && links.back.Keys == old(links.back).Keys
  {
    hide LinksOk;
    second := seq(count, _ => 0);
    var calls := 0;
    HeadIsFirst(links.target, links.back, links.owner, links.lists, 0);
    var event := links.Follow(Head(0));
    while event.Some?
      invariant links.Valid() && |second| == count && BucketsOk(links.lists, second)
      invariant ListsAre(links.lists, 0, count) && links.back.Keys == old(links.back).Keys
      invariant event == if links.lists[0] == [] then None else Some(links.lists[0][0])
      invariant links.lists[0] != [] ==> count > 0
      decreases |links.lists[0]|
    {
      var e := event.value;
      NextIsNext(links.target, links.back, links.owner, links.lists, 0, 0);
      var next := links.Follow(Next(e));
      second := Throw(links, e, rand(calls) % count, rand(calls + 1) % 2 == 0, second);
      calls := calls + 2;
      event := next;
    }
  }

  /** The stitching loop: the buckets become one list again. */
  method Stitch(links: Links, second: seq<nat>)
    requires links.Valid() && BucketsOk(links.lists, second) && ListsAre(links.lists, 0, |second|) && links.lists[0] == []
    modifies links
    ensures links.Valid() && links.lists.Keys == {0} && links.back.Keys == old(links.back).Keys
  {
    hide LinksOk;
    var b: nat := 0;
    var lastNext := Head(0);
    while b < |second|
      invariant b <= |second| && links.Valid() && ListsAre(links.lists, b, |second|)
      invariant forall c :: b <= c < |second| ==> BucketOk(links.lists, second[c], c)
      invariant lastNext == Place(0, links.lists[0], |links.lists[0]|)
      invariant links.back.Keys == old(links.back).Keys
    {
      assert BucketOk(links.lists, second[b], b);
      HeadIsFirst(links.target, links.back, links.owner, links.lists, b + 1);
      ghost var before := links.lists;
      if links.Follow(Head(b + 1)).Some? {
        LastOfJoined(links.lists[0], links.lists[b + 1]);
        links.Join(lastNext, 0, b + 1);
        lastNext := Next(second[b]);
      } else {
        links.Forget(b + 1);
      }
      forall c | b + 1 <= c < |second|
        ensures BucketOk(links.lists, second[c], c)
      {
        assert BucketOk(before, second[c], c);
      }
      b := b + 1;
    }
  }

  lemma LastOfJoined(s: seq<nat>, r: seq<nat>)
    requires r != []
    ensures Place(0, s + r, |s + r|) == Next(r[|r| - 1])
  {
  }

  /** Shuffling permutes the events to raise, whatever rand gives. */
  method Shuffle(links: Links, count: nat, rand: nat -> nat)
    requires links.Valid() && links.lists.Keys == {0} && count == |links.lists[0]|
    modifies links
    ensures links.Valid() && links.lists.Keys == {0} && links.back.Keys == old(links.back).Keys
    ensures multiset(links.lists[0]) == multiset(old(links.lists[0]))
  {
    hide LinksOk;
    ghost var list := links.lists[0];
    OnlyList(links.target, links.back, links.owner, links.lists, 0);
    Resize(links, count);
    var second := ThrowAll(links, count, rand);
    Stitch(links, second);
    OnlyList(links.target, links.back, links.owner, links.lists, 0);
    SameElements(list, links.lists[0]);
  }
}
