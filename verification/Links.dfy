/** Intrusive lists through pointer-to-slot back links, as event.cpp keeps them. An
    event is known by its number. A slot is a place in memory that holds a pointer to
    an event: the head of a list, or the `next` field of an event. */
module EventLinks {
  import opened Base

  datatype Slot = Head(list: nat) | Next(event: nat)

  // ---------- well-formed lists ----------

  /** The slot that holds position i of list h with elements s; at the end, the slot
      that holds the null pointer. */
  function Place(h: nat, s: seq<nat>, i: nat): Slot
    requires i <= |s|
  {
    if i == 0 then Head(h) else Next(s[i - 1])
  }

  ghost predicate Distinct(s: seq<nat>) {
    forall i, j :: 0 <= i < j < |s| ==> s[i] != s[j]
  }

  /** The slot points to event e, e points back to the slot, and both are of list h. */
  predicate Held(target: map<Slot, nat>, back: map<nat, Slot>, owner: map<nat, nat>, slot: Slot, e: nat, h: nat) {
    slot in target && target[slot] == e && e in back && back[e] == slot && e in owner && owner[e] == h
  }

  /** In memory the list h reads s: each slot points to the next element, each element's
      back link points to the slot that holds it, and the last slot is null. */
  ghost predicate ChainOk(target: map<Slot, nat>, back: map<nat, Slot>, owner: map<nat, nat>, h: nat, s: seq<nat>) {
    && Distinct(s)
    && (forall i :: 0 <= i < |s| ==> Held(target, back, owner, Place(h, s, i), s[i], h))
    && Place(h, s, |s|) !in target
  }

  /** All lists read as given, every event with a back link is on one of them, and no
      event off the lists points anywhere. */
  ghost predicate LinksOk(target: map<Slot, nat>, back: map<nat, Slot>, owner: map<nat, nat>, lists: map<nat, seq<nat>>) {
    && (forall h: nat :: h in lists ==> ChainOk(target, back, owner, h, lists[h]))
    && (forall e: nat :: e in back <==> e in owner)
    && (forall e: nat :: e in back ==> owner[e] in lists && e in lists[owner[e]])
    && (forall e: nat :: Next(e) in target ==> e in back)
  }

  /** No event is on two lists, or twice on one. */
  lemma NoSharing(target: map<Slot, nat>, back: map<nat, Slot>, owner: map<nat, nat>, lists: map<nat, seq<nat>>, g: nat, h: nat, i: nat, j: nat)
    requires LinksOk(target, back, owner, lists)
    requires g in lists && h in lists && i < |lists[g]| && j < |lists[h]| && lists[g][i] == lists[h][j]
    ensures g == h && i == j
  {
    assert ChainOk(target, back, owner, g, lists[g]) && ChainOk(target, back, owner, h, lists[h]);
  }

  // ---------- taking out and putting in ----------

  function Remove(s: seq<nat>, e: nat): seq<nat> {
    if s == [] then [] else if s[0] == e then s[1..] else [s[0]] + Remove(s[1..], e)
  }

  lemma {:induction false} RemoveAt(s: seq<nat>, i: nat)
    requires i < |s| && s[i] !in s[..i]
    ensures Remove(s, s[i]) == s[..i] + s[i + 1..]
  {
    if i > 0 {
      assert s[0] == s[..i][0];
      assert s[1..][..i - 1] == s[..i][1..];
      RemoveAt(s[1..], i - 1);
      assert s[..i] == [s[0]] + s[1..][..i - 1];
    }
  }

  lemma {:induction false} RemoveAbsent(s: seq<nat>, e: nat)
    requires e !in s
    ensures Remove(s, e) == s
  {
    if s != [] {
      RemoveAbsent(s[1..], e);
    }
  }

  function Without(lists: map<nat, seq<nat>>, e: nat): (r: map<nat, seq<nat>>)
    ensures r.Keys == lists.Keys
  {
    map h: nat | h in lists :: Remove(lists[h], e)
  }

  /** What `unlink` does to the memory. */
  function TargetWithout(target: map<Slot, nat>, back: map<nat, Slot>, e: nat): map<Slot, nat>
    requires e in back
  {
    if Next(e) in target then target[back[e] := target[Next(e)]] - {Next(e)} else target - {back[e]}
  }

  function BackWithout(target: map<Slot, nat>, back: map<nat, Slot>, e: nat): map<nat, Slot>
    requires e in back
  {
    (if Next(e) in target then back[target[Next(e)] := back[e]] else back) - {e}
  }

  /** An event that neither is e nor follows e stays where it is. */
  lemma HeldStays(target: map<Slot, nat>, back: map<nat, Slot>, owner: map<nat, nat>, e: nat, slot: Slot, x: nat, h: nat)
    requires Held(target, back, owner, slot, x, h) && x != e
    requires e in back && back[e] in target && target[back[e]] == e
    requires Next(e) in target ==> target[Next(e)] != x
    ensures Held(TargetWithout(target, back, e), BackWithout(target, back, e), owner - {e}, slot, x, h)
  {
  }

  lemma ChainCut(target: map<Slot, nat>, back: map<nat, Slot>, owner: map<nat, nat>, h: nat, s: seq<nat>, i: nat)
    requires ChainOk(target, back, owner, h, s) && i < |s|
    ensures s[i] in back
    ensures ChainOk(TargetWithout(target, back, s[i]), BackWithout(target, back, s[i]), owner - {s[i]}, h, s[..i] + s[i + 1..])
  {
    var e := s[i];
    assert Held(target, back, owner, Place(h, s, i), e, h);
    hide TargetWithout, BackWithout, Held;
    var target', back', owner' := TargetWithout(target, back, e), BackWithout(target, back, e), owner - {e};
    var t := s[..i] + s[i + 1..];
    forall j | 0 <= j < |t|
      ensures Held(target', back', owner', Place(h, t, j), t[j], h)
    {
      CutPlace(target, back, owner, h, s, i, j);
    }
    CutEnd(target, back, owner, h, s, i);
  }

  /** The event after e moves to the slot of e. */
  lemma HeldMoves(target: map<Slot, nat>, back: map<nat, Slot>, owner: map<nat, nat>, e: nat, slot: Slot, x: nat, h: nat)
    requires Held(target, back, owner, slot, e, h) && Held(target, back, owner, Next(e), x, h) && x != e
    ensures Held(TargetWithout(target, back, e), BackWithout(target, back, e), owner - {e}, slot, x, h)
  {
  }

  /** The places of a list without its position i. */
  lemma PlaceCut(h: nat, s: seq<nat>, i: nat, j: nat)
    requires i < |s| && j <= |s| - 1
    ensures var t := s[..i] + s[i + 1..];
      && |t| == |s| - 1
      && Place(h, t, j) == (if j <= i then Place(h, s, j) else Place(h, s, j + 1))
      && (j < |t| ==> t[j] == if j < i then s[j] else s[j + 1])
  {
  }

  lemma HeldAt(target: map<Slot, nat>, back: map<nat, Slot>, owner: map<nat, nat>, h: nat, s: seq<nat>, j: nat)
    requires ChainOk(target, back, owner, h, s) && j < |s|
    ensures Held(target, back, owner, Place(h, s, j), s[j], h)
  {
  }

  /** What the memory holds around position i of a list. */
  lemma Around(target: map<Slot, nat>, back: map<nat, Slot>, owner: map<nat, nat>, h: nat, s: seq<nat>, i: nat)
    requires ChainOk(target, back, owner, h, s) && i < |s|
    ensures s[i] in back && back[s[i]] == Place(h, s, i) && back[s[i]] in target && target[back[s[i]]] == s[i]
    ensures Next(s[i]) in target ==> i + 1 < |s| && target[Next(s[i])] == s[i + 1]
  {
    HeldAt(target, back, owner, h, s, i);
    if i + 1 < |s| {
      HeldAt(target, back, owner, h, s, i + 1);
    } else {
      EndIsNull(target, back, owner, h, s);
    }
  }

  lemma CutPlace(target: map<Slot, nat>, back: map<nat, Slot>, owner: map<nat, nat>, h: nat, s: seq<nat>, i: nat, j: nat)
    requires ChainOk(target, back, owner, h, s) && i < |s| && j < |s| - 1
    requires s[i] in back
    ensures |s[..i] + s[i + 1..]| == |s| - 1
    ensures var t := s[..i] + s[i + 1..];
      Held(TargetWithout(target, back, s[i]), BackWithout(target, back, s[i]), owner - {s[i]}, Place(h, t, j), t[j], h)
  {
    hide ChainOk, TargetWithout, BackWithout, Held, Place;
    DistinctIn(target, back, owner, h, s);
    Around(target, back, owner, h, s, i);
    PlaceCut(h, s, i, j);
    if j == i {
      HeldAt(target, back, owner, h, s, i);
      HeldAt(target, back, owner, h, s, i + 1);
      PlaceAfter(h, s, i);
      HeldMoves(target, back, owner, s[i], Place(h, s, i), s[i + 1], h);
    } else {
      var k := if j < i then j else j + 1;
      HeldAt(target, back, owner, h, s, k);
      assert s[k] != s[i] && (i + 1 < |s| && k != i + 1 ==> s[k] != s[i + 1]);
      HeldStays(target, back, owner, s[i], Place(h, s, k), s[k], h);
    }
  }

  lemma PlaceFirst(h: nat, s: seq<nat>)
    ensures Place(h, s, 0) == Head(h)
  {
  }

  lemma PlaceAfter(h: nat, s: seq<nat>, i: nat)
    requires i < |s|
    ensures Place(h, s, i + 1) == Next(s[i])
  {
  }

  lemma DistinctIn(target: map<Slot, nat>, back: map<nat, Slot>, owner: map<nat, nat>, h: nat, s: seq<nat>)
    requires ChainOk(target, back, owner, h, s)
    ensures Distinct(s)
  {
  }

  lemma EndIsNull(target: map<Slot, nat>, back: map<nat, Slot>, owner: map<nat, nat>, h: nat, s: seq<nat>)
    requires ChainOk(target, back, owner, h, s)
    ensures Place(h, s, |s|) !in target
  {
  }

  lemma EndStays(target: map<Slot, nat>, back: map<nat, Slot>, e: nat, slot: Slot)
    requires e in back && back[e] in target && slot !in target
    ensures slot !in TargetWithout(target, back, e)
  {
  }

  lemma SlotGone(target: map<Slot, nat>, back: map<nat, Slot>, e: nat)
    requires e in back && Next(e) !in target
    ensures back[e] !in TargetWithout(target, back, e)
  {
  }

  lemma CutEnd(target: map<Slot, nat>, back: map<nat, Slot>, owner: map<nat, nat>, h: nat, s: seq<nat>, i: nat)
    requires ChainOk(target, back, owner, h, s) && i < |s|
    ensures s[i] in back
    ensures var t := s[..i] + s[i + 1..];
      Place(h, t, |t|) !in TargetWithout(target, back, s[i])
  {
    hide ChainOk, TargetWithout, Place;
    EndIsNull(target, back, owner, h, s);
    Around(target, back, owner, h, s, i);
    PlaceCut(h, s, i, |s| - 1);
    if i + 1 == |s| {
      PlaceAfter(h, s, i);
      SlotGone(target, back, s[i]);
    } else {
      EndStays(target, back, s[i], Place(h, s, |s|));
    }
  }

  /** Another list is not touched. */
  lemma ChainUntouched(target: map<Slot, nat>, back: map<nat, Slot>, owner: map<nat, nat>, h: nat, s: seq<nat>, e: nat)
    requires ChainOk(target, back, owner, h, s)
    requires e in back && e in owner && owner[e] != h && back[e] in target && target[back[e]] == e
    requires Next(e) in target ==> target[Next(e)] in owner && owner[target[Next(e)]] != h
    ensures ChainOk(TargetWithout(target, back, e), BackWithout(target, back, e), owner - {e}, h, s)
    ensures e !in s
  {
    hide TargetWithout, BackWithout;
    forall j | 0 <= j < |s|
      ensures Held(TargetWithout(target, back, e), BackWithout(target, back, e), owner - {e}, Place(h, s, j), s[j], h)
      ensures s[j] != e
    {
      assert Held(target, back, owner, Place(h, s, j), s[j], h);
      HeldStays(target, back, owner, e, Place(h, s, j), s[j], h);
    }
    EndStays(target, back, e, Place(h, s, |s|));
  }

  /** What `e` has around it in a well-formed memory. */
  lemma Neighbours(target: map<Slot, nat>, back: map<nat, Slot>, owner: map<nat, nat>, lists: map<nat, seq<nat>>, e: nat) returns (i: nat)
    requires LinksOk(target, back, owner, lists) && e in back
    ensures e in owner && owner[e] in lists && i < |lists[owner[e]]| && lists[owner[e]][i] == e
    ensures ChainOk(target, back, owner, owner[e], lists[owner[e]]) && e !in lists[owner[e]][..i]
    ensures back[e] in target && target[back[e]] == e
    ensures Next(e) in target ==> target[Next(e)] in owner && owner[target[Next(e)]] == owner[e] && target[Next(e)] in back
  {
    var h := owner[e];
    var s := lists[h];
    i :| 0 <= i < |s| && s[i] == e;
    assert ChainOk(target, back, owner, h, s);
    assert Held(target, back, owner, Place(h, s, i), e, h);
    assert Place(h, s, i + 1) == Next(e);
    assert i + 1 < |s| ==> Held(target, back, owner, Place(h, s, i + 1), s[i + 1], h);
  }

  lemma CutKeeps(target: map<Slot, nat>, back: map<nat, Slot>, owner: map<nat, nat>, lists: map<nat, seq<nat>>, e: nat)
    requires LinksOk(target, back, owner, lists) && e in back
    ensures LinksOk(TargetWithout(target, back, e), BackWithout(target, back, e), owner - {e}, Without(lists, e))
  {
    hide ChainOk;
    var i := Neighbours(target, back, owner, lists, e);
    var h := owner[e];
    var target', back', owner' := TargetWithout(target, back, e), BackWithout(target, back, e), owner - {e};
    forall g: nat | g in lists
      ensures ChainOk(target', back', owner', g, Remove(lists[g], e))
    {
      if g == h {
        ChainCut(target, back, owner, h, lists[h], i);
        RemoveAt(lists[h], i);
      } else {
        ChainUntouched(target, back, owner, g, lists[g], e);
        RemoveAbsent(lists[g], e);
      }
    }
    forall x: nat | x in back'
      ensures owner'[x] in lists && x in Remove(lists[owner'[x]], e)
    {
      RemoveOthers(lists[owner[x]], e, x);
    }
  }

  lemma {:induction false} RemoveOthers(s: seq<nat>, e: nat, x: nat)
    requires x in s && x != e
    ensures x in Remove(s, e)
  {
    if s[0] != e && s[0] != x {
      RemoveOthers(s[1..], e, x);
    }
  }

  /** What `link` does to the memory. */
  function TargetWith(target: map<Slot, nat>, slot: Slot, e: nat): map<Slot, nat> {
    (if slot in target then target[Next(e) := target[slot]] else target)[slot := e]
  }

  function BackWith(target: map<Slot, nat>, back: map<nat, Slot>, slot: Slot, e: nat): map<nat, Slot> {
    (if slot in target then back[target[slot] := Next(e)] else back)[e := slot]
  }

  function Insert(s: seq<nat>, p: nat, e: nat): seq<nat>
    requires p <= |s|
  {
    s[..p] + [e] + s[p..]
  }

  lemma PlaceInsert(h: nat, s: seq<nat>, p: nat, e: nat, j: nat)
    requires p <= |s| && j <= |s| + 1
    ensures var t := Insert(s, p, e);
      && |t| == |s| + 1
      && Place(h, t, j) == (if j <= p then Place(h, s, j) else if j == p + 1 then Next(e) else Place(h, s, j - 1))
      && (j < |t| ==> t[j] == if j < p then s[j] else if j == p then e else s[j - 1])
  {
  }

  lemma HeldStaysWith(target: map<Slot, nat>, back: map<nat, Slot>, owner: map<nat, nat>, slot: Slot, e: nat, g: nat, at: Slot, x: nat, h: nat)
    requires Held(target, back, owner, at, x, h) && x != e && at != Next(e)
    requires at != slot && (slot in target ==> target[slot] != x)
    ensures Held(TargetWith(target, slot, e), BackWith(target, back, slot, e), owner[e := g], at, x, h)
  {
  }

  lemma HeldMovesWith(target: map<Slot, nat>, back: map<nat, Slot>, owner: map<nat, nat>, slot: Slot, e: nat, x: nat, h: nat)
    requires Held(target, back, owner, slot, x, h) && x != e && slot != Next(e)
    ensures Held(TargetWith(target, slot, e), BackWith(target, back, slot, e), owner[e := h], Next(e), x, h)
  {
  }

  lemma HeldNow(target: map<Slot, nat>, back: map<nat, Slot>, owner: map<nat, nat>, slot: Slot, e: nat, h: nat)
    ensures Held(TargetWith(target, slot, e), BackWith(target, back, slot, e), owner[e := h], slot, e, h)
  {
  }

  lemma InsertPlace(target: map<Slot, nat>, back: map<nat, Slot>, owner: map<nat, nat>, h: nat, s: seq<nat>, p: nat, e: nat, j: nat)
    requires ChainOk(target, back, owner, h, s) && p <= |s| && e !in back && Next(e) !in target && j <= |s|
    ensures |Insert(s, p, e)| == |s| + 1
    ensures var slot, t := Place(h, s, p), Insert(s, p, e);
      Held(TargetWith(target, slot, e), BackWith(target, back, slot, e), owner[e := h], Place(h, t, j), t[j], h)
  {
    hide ChainOk, TargetWith, BackWith, Place, Insert;
    DistinctIn(target, back, owner, h, s);
    PlaceInsert(h, s, p, e, j);
    var slot := Place(h, s, p);
    if p < |s| {
      HeldAt(target, back, owner, h, s, p);
    } else {
      EndIsNull(target, back, owner, h, s);
    }
    if j == p {
      HeldNow(target, back, owner, slot, e, h);
    } else if j == p + 1 {
      HeldMovesWith(target, back, owner, slot, e, s[p], h);
    } else {
      var k := if j < p then j else j - 1;
      HeldAt(target, back, owner, h, s, k);
      HeldStaysWith(target, back, owner, slot, e, h, Place(h, s, k), s[k], h);
    }
  }

  lemma InsertEnd(target: map<Slot, nat>, back: map<nat, Slot>, owner: map<nat, nat>, h: nat, s: seq<nat>, p: nat, e: nat)
    requires ChainOk(target, back, owner, h, s) && p <= |s| && e !in back && Next(e) !in target
    ensures |Insert(s, p, e)| == |s| + 1
    ensures Place(h, Insert(s, p, e), |s| + 1) !in TargetWith(target, Place(h, s, p), e)
  {
    hide ChainOk, Insert;
    PlaceInsert(h, s, p, e, |s| + 1);
    EndIsNull(target, back, owner, h, s);
    if p < |s| {
      HeldAt(target, back, owner, h, s, p);
      HeldAt(target, back, owner, h, s, |s| - 1);
    } else if |s| > 0 {
      HeldAt(target, back, owner, h, s, |s| - 1);
    }
  }

  lemma InsertDistinct(s: seq<nat>, p: nat, e: nat)
    requires Distinct(s) && p <= |s| && e !in s
    ensures Distinct(Insert(s, p, e))
  {
    var t := Insert(s, p, e);
    forall i, j | 0 <= i < j < |t|
      ensures t[i] != t[j]
    {
      PlaceInsert(0, s, p, e, i);
      PlaceInsert(0, s, p, e, j);
    }
  }

  lemma NotIn(target: map<Slot, nat>, back: map<nat, Slot>, owner: map<nat, nat>, h: nat, s: seq<nat>, e: nat)
    requires ChainOk(target, back, owner, h, s) && e !in back
    ensures e !in s
  {
    forall i | 0 <= i < |s|
      ensures s[i] != e
    {
      HeldAt(target, back, owner, h, s, i);
    }
  }

  lemma ChainInsert(target: map<Slot, nat>, back: map<nat, Slot>, owner: map<nat, nat>, h: nat, s: seq<nat>, p: nat, e: nat)
    requires ChainOk(target, back, owner, h, s) && p <= |s| && e !in back && Next(e) !in target
    ensures var slot := Place(h, s, p);
      ChainOk(TargetWith(target, slot, e), BackWith(target, back, slot, e), owner[e := h], h, Insert(s, p, e))
  {
    hide TargetWith, BackWith, Held, Insert, Place;
    var slot, t := Place(h, s, p), Insert(s, p, e);
    NotIn(target, back, owner, h, s, e);
    InsertDistinct(s, p, e);
    InsertEnd(target, back, owner, h, s, p, e);
    forall j | 0 <= j < |t|
      ensures Held(TargetWith(target, slot, e), BackWith(target, back, slot, e), owner[e := h], Place(h, t, j), t[j], h)
    {
      InsertPlace(target, back, owner, h, s, p, e, j);
    }
  }

  /** A slot of one list is not a slot of another. */
  lemma PlacesApart(target: map<Slot, nat>, back: map<nat, Slot>, owner: map<nat, nat>, g: nat, r: seq<nat>, h: nat, s: seq<nat>, j: nat, p: nat)
    requires ChainOk(target, back, owner, g, r) && ChainOk(target, back, owner, h, s) && g != h && j <= |r| && p <= |s|
    ensures Place(g, r, j) != Place(h, s, p)
  {
    if j > 0 {
      HeldAt(target, back, owner, g, r, j - 1);
    }
    if p > 0 {
      HeldAt(target, back, owner, h, s, p - 1);
    }
  }

  lemma ChainBeside(target: map<Slot, nat>, back: map<nat, Slot>, owner: map<nat, nat>, g: nat, r: seq<nat>, h: nat, s: seq<nat>, p: nat, e: nat)
    requires ChainOk(target, back, owner, g, r) && ChainOk(target, back, owner, h, s) && g != h
    requires p <= |s| && e !in back && Next(e) !in target
    ensures var slot := Place(h, s, p);
      ChainOk(TargetWith(target, slot, e), BackWith(target, back, slot, e), owner[e := h], g, r)
  {
    hide TargetWith, BackWith, Place;
    var slot := Place(h, s, p);
    if p < |s| {
      HeldAt(target, back, owner, h, s, p);
    }
    NotIn(target, back, owner, g, r, e);
    forall j | 0 <= j < |r|
      ensures Held(TargetWith(target, slot, e), BackWith(target, back, slot, e), owner[e := h], Place(g, r, j), r[j], g)
    {
      PlacesApart(target, back, owner, g, r, h, s, j, p);
      HeldAt(target, back, owner, g, r, j);
      HeldStaysWith(target, back, owner, slot, e, h, Place(g, r, j), r[j], g);
    }
    PlacesApart(target, back, owner, g, r, h, s, |r|, p);
    EndBeside(target, e, slot, g, r);
  }

  lemma EndBeside(target: map<Slot, nat>, e: nat, slot: Slot, g: nat, r: seq<nat>)
    requires Place(g, r, |r|) !in target && Place(g, r, |r|) != slot && e !in r
    ensures Place(g, r, |r|) !in TargetWith(target, slot, e)
  {
  }

  lemma InsertKeeps(target: map<Slot, nat>, back: map<nat, Slot>, owner: map<nat, nat>, lists: map<nat, seq<nat>>, h: nat, p: nat, e: nat)
    requires LinksOk(target, back, owner, lists) && h in lists && p <= |lists[h]| && e !in back
    ensures var slot := Place(h, lists[h], p);
      LinksOk(TargetWith(target, slot, e), BackWith(target, back, slot, e), owner[e := h], lists[h := Insert(lists[h], p, e)])
  {
    hide ChainOk, Place;
    var s := lists[h];
    var slot := Place(h, s, p);
    ChainInsert(target, back, owner, h, s, p, e);
    forall g: nat | g in lists && g != h
      ensures ChainOk(TargetWith(target, slot, e), BackWith(target, back, slot, e), owner[e := h], g, lists[g])
    {
      ChainBeside(target, back, owner, g, lists[g], h, s, p, e);
    }
    SlotInside(target, back, owner, h, s, p);
    forall x: nat | x in s || x == e
      ensures x in Insert(s, p, e)
    {
      InInsert(s, p, e, x);
    }
  }

  /** A slot of a list holds an event of the list or nothing. */
  lemma SlotInside(target: map<Slot, nat>, back: map<nat, Slot>, owner: map<nat, nat>, h: nat, s: seq<nat>, p: nat)
    requires ChainOk(target, back, owner, h, s) && p <= |s|
    ensures var slot := Place(h, s, p);
      && (slot in target ==> target[slot] in back)
      && (slot.Next? ==> slot.event in back)
  {
    if p < |s| {
      HeldAt(target, back, owner, h, s, p);
    } else {
      EndIsNull(target, back, owner, h, s);
    }
    if p > 0 {
      HeldAt(target, back, owner, h, s, p - 1);
    }
  }

  lemma InInsert(s: seq<nat>, p: nat, e: nat, x: nat)
    requires p <= |s|
    ensures x in Insert(s, p, e) <==> x in s || x == e
  {
    assert s == s[..p] + s[p..];
  }

  // ---------- joining two lists ----------

  function Renamed(owner: map<nat, nat>, b: nat, h: nat): map<nat, nat> {
    map e: nat | e in owner :: if owner[e] == b then h else owner[e]
  }

  lemma HeldRenamed(target: map<Slot, nat>, back: map<nat, Slot>, owner: map<nat, nat>, slot: Slot, first: nat, b: nat, h: nat, at: Slot, x: nat, g: nat)
    requires Held(target, back, owner, at, x, g) && at != slot && x != first
    ensures Held(target[slot := first], back[first := slot], Renamed(owner, b, h), at, x, if g == b then h else g)
  {
  }

  lemma PlaceJoined(h: nat, s: seq<nat>, b: nat, r: seq<nat>, j: nat)
    requires j <= |s| + |r| && r != []
    ensures var t := s + r;
      && Place(h, t, j) == (if j <= |s| then Place(h, s, j) else Place(b, r, j - |s|))
      && (j < |t| ==> t[j] == if j < |s| then s[j] else r[j - |s|])
  {
  }

  lemma JoinPlace(target: map<Slot, nat>, back: map<nat, Slot>, owner: map<nat, nat>, h: nat, s: seq<nat>, b: nat, r: seq<nat>, j: nat)
    requires ChainOk(target, back, owner, h, s) && ChainOk(target, back, owner, b, r) && h != b && r != [] && j < |s + r|
    ensures Held(target[Place(h, s, |s|) := r[0]], back[r[0] := Place(h, s, |s|)], Renamed(owner, b, h), Place(h, s + r, j), (s + r)[j], h)
  {
    hide ChainOk, Place;
    DistinctIn(target, back, owner, b, r);
    PlaceJoined(h, s, b, r, j);
    EndIsNull(target, back, owner, h, s);
    HeldAt(target, back, owner, b, r, 0);
    if j < |s| {
      HeldAt(target, back, owner, h, s, j);
      HeldRenamed(target, back, owner, Place(h, s, |s|), r[0], b, h, Place(h, s, j), s[j], h);
    } else if j > |s| {
      HeldAt(target, back, owner, b, r, j - |s|);
      HeldRenamed(target, back, owner, Place(h, s, |s|), r[0], b, h, Place(b, r, j - |s|), r[j - |s|], b);
    }
  }

  lemma JoinedDistinct(target: map<Slot, nat>, back: map<nat, Slot>, owner: map<nat, nat>, h: nat, s: seq<nat>, b: nat, r: seq<nat>)
    requires ChainOk(target, back, owner, h, s) && ChainOk(target, back, owner, b, r) && h != b
    ensures Distinct(s + r)
  {
    DistinctIn(target, back, owner, h, s);
    DistinctIn(target, back, owner, b, r);
    forall i, j | 0 <= i < |s| && 0 <= j < |r|
      ensures s[i] != r[j]
    {
      HeldAt(target, back, owner, h, s, i);
      HeldAt(target, back, owner, b, r, j);
    }
  }

  lemma JoinEnd(target: map<Slot, nat>, back: map<nat, Slot>, owner: map<nat, nat>, h: nat, s: seq<nat>, b: nat, r: seq<nat>)
    requires ChainOk(target, back, owner, h, s) && ChainOk(target, back, owner, b, r) && h != b && r != []
    ensures Place(h, s + r, |s + r|) !in target[Place(h, s, |s|) := r[0]]
  {
    hide ChainOk, Place;
    PlaceJoined(h, s, b, r, |s + r|);
    EndIsNull(target, back, owner, b, r);
    PlacesApart(target, back, owner, b, r, h, s, |r|, |s|);
  }

  lemma ChainJoin(target: map<Slot, nat>, back: map<nat, Slot>, owner: map<nat, nat>, h: nat, s: seq<nat>, b: nat, r: seq<nat>)
    requires ChainOk(target, back, owner, h, s) && ChainOk(target, back, owner, b, r) && h != b && r != []
    ensures ChainOk(target[Place(h, s, |s|) := r[0]], back[r[0] := Place(h, s, |s|)], Renamed(owner, b, h), h, s + r)
  {
    hide Held, Place, Renamed, Distinct;
    JoinedDistinct(target, back, owner, h, s, b, r);
    JoinEnd(target, back, owner, h, s, b, r);
    forall j | 0 <= j < |s + r|
      ensures Held(target[Place(h, s, |s|) := r[0]], back[r[0] := Place(h, s, |s|)], Renamed(owner, b, h), Place(h, s + r, j), (s + r)[j], h)
    {
      JoinPlace(target, back, owner, h, s, b, r, j);
    }
  }

  lemma ChainBesideJoin(target: map<Slot, nat>, back: map<nat, Slot>, owner: map<nat, nat>, g: nat, q: seq<nat>, h: nat, s: seq<nat>, b: nat, r: seq<nat>)
    requires ChainOk(target, back, owner, g, q) && ChainOk(target, back, owner, h, s) && ChainOk(target, back, owner, b, r)
    requires g != h && g != b && r != []
    ensures ChainOk(target[Place(h, s, |s|) := r[0]], back[r[0] := Place(h, s, |s|)], Renamed(owner, b, h), g, q)
  {
    hide Place;
    HeldAt(target, back, owner, b, r, 0);
    forall j | 0 <= j < |q|
      ensures Held(target[Place(h, s, |s|) := r[0]], back[r[0] := Place(h, s, |s|)], Renamed(owner, b, h), Place(g, q, j), q[j], g)
    {
      HeldAt(target, back, owner, g, q, j);
      PlacesApart(target, back, owner, g, q, h, s, j, |s|);
      HeldRenamed(target, back, owner, Place(h, s, |s|), r[0], b, h, Place(g, q, j), q[j], g);
    }
    PlacesApart(target, back, owner, g, q, h, s, |q|, |s|);
  }

  /** The last slot of one list takes over the elements of another, whose head is
      forgotten. */
  lemma JoinKeeps(target: map<Slot, nat>, back: map<nat, Slot>, owner: map<nat, nat>, lists: map<nat, seq<nat>>, h: nat, b: nat)
    requires LinksOk(target, back, owner, lists) && h in lists && b in lists && h != b && lists[b] != []
    ensures var slot := Place(h, lists[h], |lists[h]|);
      LinksOk(target[slot := lists[b][0]], back[lists[b][0] := slot], Renamed(owner, b, h), lists[h := lists[h] + lists[b]] - {b})
  {
    hide ChainOk, Place;
    var s, r := lists[h], lists[b];
    var slot := Place(h, s, |s|);
    ChainJoin(target, back, owner, h, s, b, r);
    forall g: nat | g in lists && g != h && g != b
      ensures ChainOk(target[slot := r[0]], back[r[0] := slot], Renamed(owner, b, h), g, lists[g])
    {
      ChainBesideJoin(target, back, owner, g, lists[g], h, s, b, r);
    }
    HeldAt(target, back, owner, b, r, 0);
    SlotInside(target, back, owner, h, s, |s|);
  }

  // ---------- the code ----------

  /** The links of one type. A missing entry is a null pointer. `lists` and `owner` are
      history: what each list reads, and which list an event is on. */
  class Links {
    var target: map<Slot, nat>      // what each slot points to
    var back: map<nat, Slot>        // previousNext
    ghost var lists: map<nat, seq<nat>>
    ghost var owner: map<nat, nat>

    ghost predicate Valid()
      reads this
    {
      LinksOk(target, back, owner, lists)
    }

    constructor ()
      ensures Valid() && back == map[] && lists == map[]
    {
      target, back, lists, owner := map[], map[], map[], map[];
    }

    /** The null head of a new list; the slot may hold a stale pointer. */
    method NewList(h: nat)
      requires Valid() && h !in lists
      modifies this
      ensures Valid() && lists == old(lists)[h := []] && back == old(back) && owner == old(owner)
    {
      hide ChainOk;
      NewKeeps(target, back, owner, lists, h);
      target := target - {Head(h)};
      lists := lists[h := []];
    }

    /** What a slot points to. */
    function Follow(slot: Slot): Option<nat>
      reads this
    {
      if slot in target then Some(target[slot]) else None
    }

    /** An event is on a list when its back link is not null. */
    predicate Linked(e: nat)
      reads this
    {
      e in back
    }

    /** A list that is no longer used. */
    ghost method Forget(h: nat)
      requires Valid() && h in lists && lists[h] == []
      modifies this`lists
      ensures Valid() && lists == old(lists) - {h}
    {
      hide ChainOk;
      lists := lists - {h};
    }

    method Unlink(e: nat)
      requires Valid()
      modifies this
      ensures Valid() && lists == Without(old(lists), e)
      ensures back.Keys == old(back).Keys - {e}
      ensures owner == old(owner) - {e}
    {
      hide LinksOk;
      if e in back {
        CutKeeps(target, back, owner, lists, e);
        CutFacts(target, back, owner, lists, e);
        var slot := back[e];
        if Next(e) in target {
          var next := target[Next(e)];
          target := target[slot := next];
          back := back[next := slot];
        } else {
          target := target - {slot};
        }
        back := back - {e};
        target := target - {Next(e)};
        lists := Without(lists, e);
        owner := owner - {e};
      } else {
        NothingToCut(target, back, owner, lists, e);
      }
    }

    /** `link` into the slot at position p of list h, which the event is not on. */
    method Link(e: nat, slot: Slot, ghost h: nat, ghost p: nat)
      requires Valid() && h in lists && p <= |lists[h]| && slot == Place(h, lists[h], p) && e !in lists[h]
      modifies this
      ensures Valid() && lists == Without(old(lists), e)[h := Insert(old(lists)[h], p, e)]
      ensures back.Keys == old(back).Keys + {e}
      ensures owner == old(owner)[e := h]
    {
      hide LinksOk, Place, Insert, Remove;
      RemoveAbsent(lists[h], e);
      if e in back {
        Unlink(e);
      } else {
        NothingToCut(target, back, owner, lists, e);
      }
      InsertKeeps(target, back, owner, lists, h, p, e);
      InsertFacts(target, back, owner, lists, h, p, e);
      if slot in target {
        target := target[Next(e) := target[slot]];
        back := back[target[slot] := Next(e)];
      }
      target := target[slot := e];
      back := back[e := slot];
      lists := lists[h := Insert(lists[h], p, e)];
      owner := owner[e := h];
    }

    /** The stitching step of `doEvents`: the last slot of list h takes the elements of
        list b, and the head of b is left behind. */
    method Join(slot: Slot, ghost h: nat, b: nat)
      requires Valid() && h in lists && b in lists && h != b && Head(b) in target
      requires slot == Place(h, lists[h], |lists[h]|)
      modifies this
      ensures Valid() && lists == old(lists)[h := old(lists)[h] + old(lists)[b]] - {b}
      ensures back.Keys == old(back).Keys
      ensures owner == Renamed(old(owner), b, h)
    {
      hide LinksOk, Place;
      HeadIsFirst(target, back, owner, lists, b);
      JoinKeeps(target, back, owner, lists, h, b);
      var first := target[Head(b)];
      target := target[slot := first];
      back := back[first := slot];
      lists := lists[h := lists[h] + lists[b]] - {b};
      owner := Renamed(owner, b, h);
    }
  }

  lemma HeldWithoutHead(target: map<Slot, nat>, back: map<nat, Slot>, owner: map<nat, nat>, slot: Slot, x: nat, g: nat, h: nat)
    requires Held(target, back, owner, slot, x, g) && slot != Head(h)
    ensures Held(target - {Head(h)}, back, owner, slot, x, g)
  {
  }

  lemma PlaceNotHead(g: nat, s: seq<nat>, i: nat, h: nat)
    requires g != h && i <= |s|
    ensures Place(g, s, i) != Head(h)
  {
  }

  lemma ChainWithoutHead(target: map<Slot, nat>, back: map<nat, Slot>, owner: map<nat, nat>, g: nat, s: seq<nat>, h: nat)
    requires ChainOk(target, back, owner, g, s) && g != h
    ensures ChainOk(target - {Head(h)}, back, owner, g, s)
  {
    hide Held, Place;
    forall i | 0 <= i < |s|
      ensures Held(target - {Head(h)}, back, owner, Place(g, s, i), s[i], g)
    {
      PlaceNotHead(g, s, i, h);
      HeldWithoutHead(target, back, owner, Place(g, s, i), s[i], g, h);
    }
  }

  lemma EmptyChain(target: map<Slot, nat>, back: map<nat, Slot>, owner: map<nat, nat>, h: nat)
    requires Head(h) !in target
    ensures ChainOk(target, back, owner, h, [])
  {
  }

  lemma NewKeeps(target: map<Slot, nat>, back: map<nat, Slot>, owner: map<nat, nat>, lists: map<nat, seq<nat>>, h: nat)
    requires LinksOk(target, back, owner, lists) && h !in lists
    ensures LinksOk(target - {Head(h)}, back, owner, lists[h := []])
  {
    hide ChainOk;
    EmptyChain(target - {Head(h)}, back, owner, h);
    forall g: nat | g in lists
      ensures ChainOk(target - {Head(h)}, back, owner, g, lists[g])
    {
      ChainWithoutHead(target, back, owner, g, lists[g], h);
    }
  }

  lemma NothingToCut(target: map<Slot, nat>, back: map<nat, Slot>, owner: map<nat, nat>, lists: map<nat, seq<nat>>, e: nat)
    requires LinksOk(target, back, owner, lists) && e !in back
    ensures Without(lists, e) == lists && e !in owner
  {
    forall h: nat | h in lists
      ensures Remove(lists[h], e) == lists[h]
    {
      NotIn(target, back, owner, h, lists[h], e);
      RemoveAbsent(lists[h], e);
    }
  }

  lemma CutFacts(target: map<Slot, nat>, back: map<nat, Slot>, owner: map<nat, nat>, lists: map<nat, seq<nat>>, e: nat)
    requires LinksOk(target, back, owner, lists) && e in back
    ensures Next(e) in target ==> target[Next(e)] in back && target[Next(e)] != e && back[e] != Next(e)
    ensures Next(e) !in target ==> target - {back[e]} - {Next(e)} == target - {back[e]}
  {
    var i := Neighbours(target, back, owner, lists, e);
    var s := lists[owner[e]];
    DistinctIn(target, back, owner, owner[e], s);
    Around(target, back, owner, owner[e], s, i);
  }

  lemma InsertFacts(target: map<Slot, nat>, back: map<nat, Slot>, owner: map<nat, nat>, lists: map<nat, seq<nat>>, h: nat, p: nat, e: nat)
    requires LinksOk(target, back, owner, lists) && h in lists && p <= |lists[h]| && e !in back
    ensures var slot := Place(h, lists[h], p);
      slot != Next(e) && (slot in target ==> target[slot] in back)
  {
    hide ChainOk;
    SlotInside(target, back, owner, h, lists[h], p);
  }

  lemma HeadIsFirst(target: map<Slot, nat>, back: map<nat, Slot>, owner: map<nat, nat>, lists: map<nat, seq<nat>>, h: nat)
    requires LinksOk(target, back, owner, lists) && h in lists
    ensures Head(h) in target <==> lists[h] != []
    ensures Head(h) in target ==> target[Head(h)] == lists[h][0] && lists[h][0] in back
  {
    assert ChainOk(target, back, owner, h, lists[h]);
    if lists[h] != [] {
      HeldAt(target, back, owner, h, lists[h], 0);
    } else {
      EndIsNull(target, back, owner, h, lists[h]);
    }
  }

  /** Following `next` from an event gives the event after it on its list. */
  lemma NextIsNext(target: map<Slot, nat>, back: map<nat, Slot>, owner: map<nat, nat>, lists: map<nat, seq<nat>>, h: nat, i: nat)
    requires LinksOk(target, back, owner, lists) && h in lists && i < |lists[h]|
    ensures Next(lists[h][i]) in target <==> i + 1 < |lists[h]|
    ensures i + 1 < |lists[h]| ==> target[Next(lists[h][i])] == lists[h][i + 1]
    ensures Place(h, lists[h], i + 1) == Next(lists[h][i])
  {
    assert ChainOk(target, back, owner, h, lists[h]);
    if i + 1 < |lists[h]| {
      HeldAt(target, back, owner, h, lists[h], i + 1);
    } else {
      EndIsNull(target, back, owner, h, lists[h]);
    }
  }
}
