/** The event manager: which events are on its lists, and one round of `doEvents`. */
module Events {
  import opened Base
  import opened EventLinks
  import opened Shuffles

  /** What a handler may do to the events while it runs. */
  datatype Op =
    | SetTime(e: nat, timeUs: int, force: bool)
    | SetReady(e: nat, value: bool)
    | SetSource(source: nat, value: bool)
    | Init(e: nat, of: Option<nat>, prio: int)
    | Destroy(e: nat)

  /** History: an event was raised, ready or not, at its time. */
  datatype Raised = Raised(event: nat, ready: bool, timeUs: int)

  /** From position n on the history names these events, all ready and enabled. */
  ghost predicate RaisedReady(history: seq<Raised>, n: nat, events: seq<nat>) {
    && |history| == n + |events|
    && forall j :: n <= j < |history| ==> history[j].event == events[j - n] && history[j].ready && history[j].timeUs >= 0
  }

  /** True when the operations name the event, or a source. */
  ghost predicate Touches(ops: seq<Op>, e: nat) {
    exists i :: 0 <= i < |ops| && (ops[i].SetSource? || ops[i].e == e)
  }

  class Manager {
    const readyLinks: Links        // LinkReady; its list 0 is listReady
    const raiseLinks: Links        // LinkRaise; its list 0 is the events to raise
    const sourceLinks: Links       // LinkSource; list s belongs to source s
    var timeUs: map<nat, int>      // the time of each event; missing means -1
    var ready: set<nat>
    var managed: set<nat>          // events whose manager is not null
    var priority: map<nat, int>
    var sources: set<nat>          // the sources there are
    var readySources: set<nat>
    ghost var history: seq<Raised>

    function Time(e: nat): int
      reads this
    {
      if e in timeUs then timeUs[e] else -1
    }

    function Priority(e: nat): int
      reads this
    {
      if e in priority then priority[e] else 0
    }

    predicate IsEnabled(e: nat)
      reads this
    {
      Time(e) >= 0
    }

    ghost predicate Shape()
      reads this, readyLinks, raiseLinks, sourceLinks
    {
      && readyLinks != raiseLinks && readyLinks != sourceLinks && raiseLinks != sourceLinks
      && readyLinks.Valid() && raiseLinks.Valid() && sourceLinks.Valid()
      && readyLinks.lists.Keys == {0} && sourceLinks.lists.Keys == sources
      && 0 in raiseLinks.lists
    }

    /** An event is on the ready list exactly when it is ready, enabled and managed, and
        only events on the ready list are on a raise list. */
    ghost predicate Coherent(e: nat)
      reads this, readyLinks, raiseLinks
    {
      && (e in readyLinks.back <==> e in ready && IsEnabled(e) && e in managed)
      && (e in raiseLinks.back ==> e in readyLinks.back)
    }

    ghost predicate Valid()
      reads this, readyLinks, raiseLinks, sourceLinks
    {
      Shape() && forall e: nat :: Coherent(e)
    }

    constructor ()
      ensures Valid() && readyLinks.lists == map[0 := []] && raiseLinks.lists == map[0 := []]
      ensures fresh(readyLinks) && fresh(raiseLinks) && fresh(sourceLinks)
    {
      hide LinksOk;
      readyLinks := new Links();
      raiseLinks := new Links();
      sourceLinks := new Links();
      timeUs, ready, managed, priority, sources, readySources := map[], {}, {}, map[], {}, {};
      history := [];
      new;
      readyLinks.NewList(0);
      raiseLinks.NewList(0);
      assert forall x: nat :: Coherent(x);
    }

    // ---------- one event ----------

    method UpdateReady(e: nat)
      requires Shape() && forall x: nat :: x != e ==> Coherent(x)
      requires e in raiseLinks.back ==> e in readyLinks.back
      requires e in readyLinks.back ==> e in managed
      modifies readyLinks, raiseLinks
      ensures Valid()
      ensures raiseLinks.lists.Keys == old(raiseLinks.lists).Keys
      ensures raiseLinks.back.Keys == if e in ready && IsEnabled(e) then old(raiseLinks.back).Keys else old(raiseLinks.back).Keys - {e}
    {
      hide LinksOk;
      if e in ready && IsEnabled(e) {
        if !readyLinks.Linked(e) && e in managed {
          NotListed(readyLinks.target, readyLinks.back, readyLinks.owner, readyLinks.lists, 0, e);
          readyLinks.Link(e, Head(0), 0, 0);
          assert readyLinks.lists.Keys == {0};
        }
      } else {
        readyLinks.Unlink(e);
        raiseLinks.Unlink(e);
      }
      forall x: nat
        ensures Coherent(x)
      {
        assert x != e ==> old(Coherent(x));
      }
    }

    /** Whatever was done to e, no other event left a raise list, and none joined one. */
    twostate predicate OnlyLeft(e: nat)
      reads raiseLinks
    {
      && raiseLinks.lists.Keys == old(raiseLinks.lists).Keys
      && raiseLinks.back.Keys <= old(raiseLinks.back).Keys
      && forall x: nat :: x in old(raiseLinks.back) && x != e ==> x in raiseLinks.back
    }

    method SetReady(e: nat, value: bool)
      requires Valid()
      modifies this`ready, readyLinks, raiseLinks
      ensures Valid() && OnlyLeft(e)
      ensures ready == if value then old(ready) + {e} else old(ready) - {e}
    {
      hide LinksOk;
      if (e in ready) != value {
        assert Coherent(e);
        ready := if value then ready + {e} else ready - {e};
        forall x: nat | x != e
          ensures Coherent(x)
        {
          assert old(Coherent(x));
        }
        UpdateReady(e);
      }
    }

    method SetTime(e: nat, time: int, force: bool)
      requires Valid()
      modifies this`timeUs, readyLinks, raiseLinks
      ensures Valid() && OnlyLeft(e)
      ensures Time(e) == Base.SetTime(old(Time(e)), time, force)
      ensures forall x: nat :: x != e ==> Time(x) == old(Time(x))
    {
      hide LinksOk;
      if Time(e) == time {
        return;
      }
      if force || (Time(e) > time && time >= 0) || Time(e) < 0 {
        assert Coherent(e);
        timeUs := timeUs[e := time];
        forall x: nat | x != e
          ensures Coherent(x)
        {
          assert old(Coherent(x));
        }
        UpdateReady(e);
      }
    }

    /** `Event::unlink()`, which also ends an event's life. */
    method Destroy(e: nat)
      requires Valid()
      modifies this`timeUs, this`ready, this`managed, readyLinks, raiseLinks, sourceLinks
      ensures Valid() && OnlyLeft(e)
      ensures Time(e) == -1 && e !in ready && e !in managed && e !in sourceLinks.back
      ensures ready == old(ready) - {e} && forall x: nat :: x != e ==> Time(x) == old(Time(x))
      ensures managed == old(managed) - {e} && sourceLinks.lists == Without(old(sourceLinks.lists), e)
    {
      hide LinksOk, Without;
      readyLinks.Unlink(e);
      raiseLinks.Unlink(e);
      sourceLinks.Unlink(e);
      timeUs := timeUs[e := -1];
      ready := ready - {e};
      managed := managed - {e};
      forall x: nat
        ensures Coherent(x)
      {
        assert old(Coherent(x));
      }
    }

    method NewSource(source: nat)
      requires Valid() && source !in sources
      modifies this`sources, this`readySources, sourceLinks
      ensures Valid() && sources == old(sources) + {source} && sourceLinks.lists == old(sourceLinks.lists)[source := []]
    {
      hide LinksOk;
      sourceLinks.NewList(source);
      sources := sources + {source};
      readySources := readySources - {source};
      forall x: nat
        ensures Coherent(x)
      {
        assert old(Coherent(x));
      }
    }

    /** `Event::init`: an event with a source is ready when the source is, any other at once. */
    method Init(e: nat, source: Option<nat>, prio: int)
      requires Valid() && (source.Some? ==> source.value in sourceLinks.lists)
      modifies this`timeUs, this`ready, this`managed, this`priority, readyLinks, raiseLinks, sourceLinks
      ensures Valid() && OnlyLeft(e)
      ensures Time(e) == -1 && e in managed && Priority(e) == prio
      ensures ready == if source.None? || source.value in readySources then old(ready) + {e} else old(ready) - {e}
      ensures managed == old(managed) + {e}
      ensures forall x: nat :: x != e ==> Time(x) == old(Time(x)) && Priority(x) == old(Priority(x))
      ensures var lists := Without(old(sourceLinks.lists), e);
        sourceLinks.lists == if source.None? then lists else lists[source.value := [e] + Remove(old(sourceLinks.lists[source.value]), e)]
    {
      hide LinksOk, Coherent;
      Destroy(e);
      Enroll(e, source, prio);
      SetReady(e, source.None? || source.value in readySources);
    }

    /** The first lines of `Event::init`, for an event that is on no list. */
    method Enroll(e: nat, source: Option<nat>, prio: int)
      requires Valid() && (source.Some? ==> source.value in sourceLinks.lists)
      requires e !in ready && e !in sourceLinks.back
      modifies this`managed, this`priority, sourceLinks
      ensures Valid() && managed == old(managed) + {e} && priority == old(priority)[e := prio]
      ensures source.None? ==> sourceLinks.lists == old(sourceLinks.lists)
      ensures source.Some? ==>
        sourceLinks.lists == old(sourceLinks.lists)[source.value := [e] + old(sourceLinks.lists[source.value])]
    {
      hide LinksOk, Without, Insert;
      assert Coherent(e);
      managed := managed + {e};
      priority := priority[e := prio];
      if source.Some? {
        var s := source.value;
        NotListed(sourceLinks.target, sourceLinks.back, sourceLinks.owner, sourceLinks.lists, s, e);
        InsertFirst(sourceLinks.lists[s], e);
        WithoutKeeps(sourceLinks.target, sourceLinks.back, sourceLinks.owner, sourceLinks.lists, e);
        sourceLinks.Link(e, Head(s), s, 0);
      }
      forall x: nat
        ensures Coherent(x)
      {
        assert old(Coherent(x));
      }
    }

    /** No event joined a raise list, and those that left one are among the given. */
    twostate predicate LeftAmong(ops: seq<Op>)
      reads raiseLinks
    {
      && raiseLinks.lists.Keys == old(raiseLinks.lists).Keys
      && raiseLinks.back.Keys <= old(raiseLinks.back).Keys
      && forall x: nat :: x in old(raiseLinks.back) && x !in raiseLinks.back ==> Touches(ops, x)
    }

    /** `Source::setReady`: every event of the source follows it. */
    method SetSourceReady(source: nat, value: bool)
      requires Valid() && source in sources
      modifies this`ready, this`readySources, readyLinks, raiseLinks
      ensures Valid()
      ensures raiseLinks.lists.Keys == old(raiseLinks.lists).Keys && raiseLinks.back.Keys <= old(raiseLinks.back).Keys
      ensures source in readySources <==> value
      ensures (source in old(readySources)) != value ==>
        forall e: nat :: e in ready <==> if e in sourceLinks.lists[source] then value else e in old(ready)
    {
      hide LinksOk;
      if (source in readySources) == value {
        return;
      }
      readySources := if value then readySources + {source} else readySources - {source};
      forall x: nat
        ensures Coherent(x)
      {
        assert old(Coherent(x));
      }
      FollowSource(source, value);
    }

    /** The loop of `Source::setReady`. */
    method FollowSource(source: nat, value: bool)
      requires Valid() && sourceLinks.Valid() && source in sourceLinks.lists && sourceLinks != readyLinks && sourceLinks != raiseLinks
      modifies this`ready, readyLinks, raiseLinks
      ensures Valid()
      ensures raiseLinks.lists.Keys == old(raiseLinks.lists).Keys && raiseLinks.back.Keys <= old(raiseLinks.back).Keys
      ensures forall e: nat :: e in ready <==> if e in sourceLinks.lists[source] then value else e in old(ready)
    {
      hide LinksOk, Valid;
      ghost var list := sourceLinks.lists[source];
      ghost var i := 0;
      var slot := Head(source);
      Cursor(sourceLinks.target, sourceLinks.back, sourceLinks.owner, sourceLinks.lists, source, 0);
      while slot in sourceLinks.target
        invariant Valid() && i <= |list| && slot == Place(source, list, i)
        invariant slot in sourceLinks.target ==> i < |list| && sourceLinks.target[slot] == list[i]
        invariant slot !in sourceLinks.target ==> i == |list|
        invariant raiseLinks.lists.Keys == old(raiseLinks.lists).Keys && raiseLinks.back.Keys <= old(raiseLinks.back).Keys
        invariant forall e: nat :: e in ready <==> if e in list[..i] then value else e in old(ready)
        decreases |list| - i
      {
        var e := sourceLinks.target[slot];
        SetReady(e, value);
        Cursor(sourceLinks.target, sourceLinks.back, sourceLinks.owner, sourceLinks.lists, source, i + 1);
        assert list[..i + 1] == list[..i] + [e];
        slot := Next(e);
        i := i + 1;
      }
      assert list[..i] == list;
    }

    // ---------- one round ----------

    ghost predicate Due(e: nat, now: int)
      reads this, readyLinks
    {
      e in readyLinks.back && Time(e) <= now
    }

    /** Due, and nothing due has a higher priority. */
    ghost predicate Selected(e: nat, now: int)
      reads this, readyLinks
    {
      Due(e, now) && forall x: nat :: Due(x, now) ==> Priority(x) <= Priority(e)
    }

    /** One round of the first loop of `doEvents`. */
    method CollectRound(e: nat, now: int, n: nat, p: int) returns (count: nat, prio: int)
      requires Valid() && raiseLinks.lists.Keys == {0} && e !in raiseLinks.back && e in readyLinks.back
      requires n == |raiseLinks.lists[0]|
      modifies raiseLinks
      ensures Valid() && raiseLinks.lists.Keys == {0} && count == |raiseLinks.lists[0]|
      ensures prio == if Time(e) <= now && (n == 0 || p < Priority(e)) then Priority(e) else p
      ensures Time(e) <= now && Priority(e) == prio ==> raiseLinks.back.Keys == old(raiseLinks.back).Keys + {e} && count == n + 1
      ensures !(Time(e) <= now && Priority(e) == prio) ==> raiseLinks.back == old(raiseLinks.back) && count == n
    {
      hide LinksOk, Coherent;
      count, prio := n, p;
      if Time(e) <= now {
        if count == 0 || prio < Priority(e) {
          prio := Priority(e);
        }
        if Priority(e) == prio {
          CollectOne(e);
          count := count + 1;
        }
      }
    }

    /** What the first loop has done for the events seen so far. */
    ghost predicate Collected(seen: seq<nat>, now: int, prio: int, best: nat, raising: set<nat>)
      reads this
    {
      && (forall e: nat :: e in raising ==> e in seen && Time(e) <= now)
      && (forall e: nat :: e in seen && Time(e) <= now ==>
            Priority(e) <= prio && (Priority(e) == prio ==> e in raising) && raising != {})
      && (raising != {} ==> best in raising && Priority(best) == prio)
    }

    lemma CollectedMore(seen: seq<nat>, now: int, p: int, prio: int, best: nat, raising: set<nat>, e: nat)
      requires Collected(seen, now, p, best, raising)
      requires prio == if Time(e) <= now && (raising == {} || p < Priority(e)) then Priority(e) else p
      ensures Time(e) <= now && Priority(e) == prio ==> Collected(seen + [e], now, prio, e, raising + {e})
      ensures !(Time(e) <= now && Priority(e) == prio) ==> Collected(seen + [e], now, prio, best, raising)
    {
    }

    /** The first loop of `doEvents`: due events, but for those below the highest
        priority seen so far. */
    method Collect(now: int) returns (count: nat, prio: int)
      requires Valid() && raiseLinks.lists == map[0 := []] && raiseLinks.back == map[]
      modifies raiseLinks
      ensures Valid() && raiseLinks.lists.Keys == {0} && count == |raiseLinks.lists[0]|
      ensures exists best: nat :: Collected(readyLinks.lists[0], now, prio, best, raiseLinks.back.Keys)
    {
      hide LinksOk, Coherent, Collected, Place;
      count, prio := 0, 0;
      ghost var list := readyLinks.lists[0];
      ghost var i := 0;
      ghost var best: nat := 0;
      OnlyList(readyLinks.target, readyLinks.back, readyLinks.owner, readyLinks.lists, 0);
      Cursor(readyLinks.target, readyLinks.back, readyLinks.owner, readyLinks.lists, 0, 0);
      NothingCollected(now, prio, best);
      PlaceFirst(0, list);
      assert list[..i] == [] && raiseLinks.back.Keys == {};
      var event := readyLinks.Follow(Head(0));
      while event.Some?
        invariant Valid() && raiseLinks.lists.Keys == {0} && count == |raiseLinks.lists[0]|
        invariant i <= |list| && event == if i < |list| then Some(list[i]) else None
        invariant Collected(list[..i], now, prio, best, raiseLinks.back.Keys)
        invariant raiseLinks.back.Keys == {} <==> count == 0
        decreases |list| - i
      {
        var e := event.value;
        assert list[..i + 1] == list[..i] + [e];
        NotCollectedYet(list, i, now, prio, best, raiseLinks.back.Keys);
        ghost var p := prio;
        CollectedMore(list[..i], now, p, if Time(e) <= now && (count == 0 || p < Priority(e)) then Priority(e) else p, best, raiseLinks.back.Keys, e);
        count, prio := CollectRound(e, now, count, prio);
        if Time(e) <= now && Priority(e) == prio {
          best := e;
        }
        Cursor(readyLinks.target, readyLinks.back, readyLinks.owner, readyLinks.lists, 0, i + 1);
        PlaceAfter(0, list, i);
        event := readyLinks.Follow(Next(e));
        i := i + 1;
      }
      assert list[..i] == list;
    }

    lemma NothingCollected(now: int, prio: int, best: nat)
      ensures Collected([], now, prio, best, {})
    {
    }

    lemma NotCollectedYet(list: seq<nat>, i: nat, now: int, prio: int, best: nat, raising: set<nat>)
      requires i < |list| && Distinct(list) && Collected(list[..i], now, prio, best, raising)
      ensures list[i] !in raising
    {
    }

    method CollectOne(e: nat)
      requires Valid() && raiseLinks.lists.Keys == {0} && e !in raiseLinks.back && e in readyLinks.back
      modifies raiseLinks
      ensures Valid() && raiseLinks.lists.Keys == {0} && |raiseLinks.lists[0]| == |old(raiseLinks.lists[0])| + 1
      ensures raiseLinks.back.Keys == old(raiseLinks.back).Keys + {e}
    {
      hide LinksOk;
      NothingToCut(raiseLinks.target, raiseLinks.back, raiseLinks.owner, raiseLinks.lists, e);
      NotListed(raiseLinks.target, raiseLinks.back, raiseLinks.owner, raiseLinks.lists, 0, e);
      raiseLinks.Link(e, Head(0), 0, 0);
      forall x: nat
        ensures Coherent(x)
      {
        assert old(Coherent(x));
      }
    }

    /** The second loop of `doEvents`: lower priorities leave again. */
    method Trim(now: int, n: nat, prio: int) returns (count: nat)
      requires Valid() && raiseLinks.lists.Keys == {0} && n == |raiseLinks.lists[0]|
      modifies raiseLinks
      ensures Valid() && raiseLinks.lists.Keys == {0} && count == |raiseLinks.lists[0]|
      ensures forall e: nat :: e in raiseLinks.back <==> e in old(raiseLinks.back) && Priority(e) == prio
    {
      hide LinksOk;
      count := n;
      ghost var i := 0;
      Cursor(raiseLinks.target, raiseLinks.back, raiseLinks.owner, raiseLinks.lists, 0, 0);
      var event := raiseLinks.Follow(Head(0));
      while event.Some?
        invariant Valid() && raiseLinks.lists.Keys == {0} && count == |raiseLinks.lists[0]|
        invariant i <= |raiseLinks.lists[0]|
        invariant event == if i < |raiseLinks.lists[0]| then Some(raiseLinks.lists[0][i]) else None
        invariant forall j :: 0 <= j < i ==> Priority(raiseLinks.lists[0][j]) == prio
        invariant forall e: nat :: e in raiseLinks.back ==> e in old(raiseLinks.back)
        invariant forall e: nat :: e in old(raiseLinks.back) && Priority(e) == prio ==> e in raiseLinks.back
        decreases |raiseLinks.lists[0]| - i
      {
        var e := event.value;
        NextIsNext(raiseLinks.target, raiseLinks.back, raiseLinks.owner, raiseLinks.lists, 0, i);
        if Priority(e) == prio {
          event := raiseLinks.Follow(Next(e));
          i := i + 1;
        } else {
          event := raiseLinks.Follow(Next(e));
          TrimOne(e, i);
          count := count - 1;
        }
      }
      OnlyList(raiseLinks.target, raiseLinks.back, raiseLinks.owner, raiseLinks.lists, 0);
      forall e: nat | e in raiseLinks.back
        ensures Priority(e) == prio
      {
        var j :| 0 <= j < |raiseLinks.lists[0]| && raiseLinks.lists[0][j] == e;
      }
    }

    method TrimOne(e: nat, ghost i: nat)
      requires Valid() && raiseLinks.lists.Keys == {0} && i < |raiseLinks.lists[0]| && raiseLinks.lists[0][i] == e
      modifies raiseLinks
      ensures Valid() && raiseLinks.lists.Keys == {0}
      ensures raiseLinks.lists[0] == old(raiseLinks.lists[0])[..i] + old(raiseLinks.lists[0])[i + 1..]
      ensures raiseLinks.back.Keys == old(raiseLinks.back).Keys - {e}
    {
      hide LinksOk;
      OnlyList(raiseLinks.target, raiseLinks.back, raiseLinks.owner, raiseLinks.lists, 0);
      RemoveAt(raiseLinks.lists[0], i);
      raiseLinks.Unlink(e);
      forall x: nat
        ensures Coherent(x)
      {
        assert old(Coherent(x));
      }
    }

    /** Both loops: the raise list is exactly the ready, enabled, due events of the
        highest due priority. */
    method Select(now: int) returns (count: nat)
      requires Valid() && raiseLinks.lists == map[0 := []] && raiseLinks.back == map[]
      modifies raiseLinks
      ensures Valid() && raiseLinks.lists.Keys == {0} && count == |raiseLinks.lists[0]|
      ensures forall e: nat :: e in raiseLinks.back <==> Selected(e, now)
    {
      hide LinksOk, Coherent, Collected, Selected;
      var n, prio := Collect(now);
      ghost var best: nat :| Collected(readyLinks.lists[0], now, prio, best, raiseLinks.back.Keys);
      OnlyList(readyLinks.target, readyLinks.back, readyLinks.owner, readyLinks.lists, 0);
      CollectedIsSelected(now, prio, best, raiseLinks.back.Keys);
      count := Trim(now, n, prio);
    }

    lemma CollectedIsSelected(now: int, prio: int, best: nat, raising: set<nat>)
      requires 0 in readyLinks.lists && Collected(readyLinks.lists[0], now, prio, best, raising)
      requires forall e: nat :: e in readyLinks.back <==> e in readyLinks.lists[0]
      ensures forall e: nat :: Selected(e, now) <==> e in raising && Priority(e) == prio
    {
      forall e: nat
        ensures Selected(e, now) <==> e in raising && Priority(e) == prio
      {
        if raising != {} {
          assert Due(best, now);
        }
      }
    }

    // ---------- raising ----------

    method RunOp(op: Op)
      requires Valid()
      modifies this`timeUs, this`ready, this`managed, this`priority, this`readySources, readyLinks, raiseLinks, sourceLinks
      ensures Valid() && LeftAmong([op])
    {
      hide LinksOk, Coherent;
      assert [op][0] == op;
      match op {
        case SetTime(e, time, force) => SetTime(e, time, force);
        case SetReady(e, value) => SetReady(e, value);
        case SetSource(source, value) =>
          if source in sources {
            SetSourceReady(source, value);
          }
        case Init(e, of, prio) =>
          if of.None? || of.value in sources {
            Init(e, of, prio);
          }
        case Destroy(e) => Destroy(e);
      }
    }

    /** A handler runs. */
    method RunOps(ops: seq<Op>)
      requires Valid()
      modifies this`timeUs, this`ready, this`managed, this`priority, this`readySources, readyLinks, raiseLinks, sourceLinks
      ensures Valid() && LeftAmong(ops)
    {
      hide Valid, Touches;
      var i := 0;
      while i < |ops|
        invariant i <= |ops| && Valid() && LeftAmong(ops)
      {
        ghost var before := raiseLinks.back.Keys;
        RunOp(ops[i]);
        forall x: nat | x in before && x !in raiseLinks.back
          ensures Touches(ops, x)
        {
          TouchesWhole(ops, i, x);
        }
        i := i + 1;
      }
    }

    ghost method Note(e: nat)
      requires Valid()
      modifies this`history
      ensures Valid() && history == old(history) + [Raised(e, e in ready, Time(e))]
    {
      hide LinksOk;
      history := history + [Raised(e, e in ready, Time(e))];
      forall x: nat
        ensures Coherent(x)
      {
        assert old(Coherent(x));
      }
    }

    /** `Event::raise`: the event is disabled, which takes it off the raise list, before
        its handler runs. */
    method Raise(e: nat, ops: seq<Op>)
      requires Valid() && e in raiseLinks.back && e in ready && IsEnabled(e)
      modifies this, readyLinks, raiseLinks, sourceLinks
      ensures Valid() && raiseLinks.lists.Keys == old(raiseLinks.lists).Keys
      ensures raiseLinks.back.Keys <= old(raiseLinks.back).Keys - {e}
      ensures forall x: nat :: x in old(raiseLinks.back) && x !in raiseLinks.back ==> x == e || Touches(ops, x)
      ensures history == old(history) + [Raised(e, old(e in ready), old(Time(e)))]
    {
      hide LinksOk, Touches;
      Note(e);
      SetTime(e, -1, true);
      assert Coherent(e);
      assert e !in raiseLinks.back;
      ghost var before := raiseLinks.back.Keys;
      RunOps(ops);
    }

    /** The raising loop of `doEvents`, for any behaviour of the handlers: it ends; each
        event is raised at most once, ready and enabled; and one that is not raised was
        touched by a handler before. */
    method RaiseAll(behaviour: nat -> seq<Op>) returns (ghost raised: seq<nat>)
      requires Valid() && raiseLinks.lists.Keys == {0}
      modifies this, readyLinks, raiseLinks, sourceLinks
      ensures Valid() && raiseLinks.back == map[] && raiseLinks.lists == map[0 := []]
      ensures Distinct(raised) && forall e: nat :: e in raised ==> e in old(raiseLinks.back)
      ensures forall e: nat :: e in old(raiseLinks.back) && e !in raised ==> TouchedBy(behaviour, |raised|, e)
      ensures RaisedReady(history, |old(history)|, raised)
    {
      hide LinksOk, RaisedOk, RaisedReady, Touches, TouchedBy, Coherent;
      ghost var all := raiseLinks.back.Keys;
      raised := [];
      var n := 0;
      NothingRaised(all, behaviour);
      assert RaisedReady(history, |history|, []) by { NoneRaisedReady(history); }
      FirstToRaise();
      while raiseLinks.Follow(Head(0)).Some?
        invariant Valid() && raiseLinks.lists.Keys == {0} && n == |raised|
        invariant RaisedOk(all, raiseLinks.back.Keys, raised, behaviour)
        invariant RaisedReady(history, |old(history)|, raised)
        invariant raiseLinks.Follow(Head(0)).Some? <==> raiseLinks.back != map[]
        invariant raiseLinks.Follow(Head(0)).Some? ==> raiseLinks.Follow(Head(0)).value in raiseLinks.back
        decreases |raiseLinks.back.Keys|
      {
        var e := raiseLinks.Follow(Head(0)).value;
        RaisingIsReady(e);
        ghost var before := raiseLinks.back.Keys;
        Raise(e, behaviour(n));
        RaisedMore(all, before, raiseLinks.back.Keys, raised, behaviour, e);
        RaisedReadyMore(history, |old(history)|, raised, e);
        raised := raised + [e];
        n := n + 1;
        FirstToRaise();
      }
      FirstToRaise();
      AllRaised(all, raised, behaviour);
    }

    lemma RaisingIsReady(e: nat)
      requires Valid() && e in raiseLinks.back
      ensures e in ready && IsEnabled(e)
    {
      hide LinksOk;
      assert Coherent(e);
    }

    lemma FirstToRaise()
      requires raiseLinks.Valid() && raiseLinks.lists.Keys == {0}
      ensures raiseLinks.Follow(Head(0)).Some? <==> raiseLinks.back != map[]
      ensures raiseLinks.Follow(Head(0)).Some? ==> raiseLinks.Follow(Head(0)).value in raiseLinks.back
      ensures raiseLinks.back == map[] ==> raiseLinks.lists == map[0 := []]
    {
      HeadIsFirst(raiseLinks.target, raiseLinks.back, raiseLinks.owner, raiseLinks.lists, 0);
      OnlyList(raiseLinks.target, raiseLinks.back, raiseLinks.owner, raiseLinks.lists, 0);
      FirstIn(raiseLinks.lists[0]);
    }

    /** The last loop of `doEvents`. */
    method NextTime() returns (time: int)
      requires Valid()
      ensures readyLinks.back == map[] ==> time == -1
      ensures readyLinks.back != map[] ==>
        && (forall e: nat :: e in readyLinks.back ==> time <= Time(e))
        && exists e: nat :: e in readyLinks.back && time == Time(e)
    {
      hide LinksOk, Coherent, Place;
      OnlyList(readyLinks.target, readyLinks.back, readyLinks.owner, readyLinks.lists, 0);
      Cursor(readyLinks.target, readyLinks.back, readyLinks.owner, readyLinks.lists, 0, 0);
      ghost var list := readyLinks.lists[0];
      FirstIn(list);
      PlaceFirst(0, list);
      var event := readyLinks.Follow(Head(0));
      if event.None? {
        assert list == [];
        return -1;
      }
      time := Time(event.value);
      ghost var i, best := 0, event.value;
      while event.Some?
        invariant i <= |list| && event == if i < |list| then Some(list[i]) else None
        invariant forall j :: 0 <= j < i ==> time <= Time(list[j])
        invariant best in readyLinks.back && time == Time(best)
        decreases |list| - i
      {
        if Time(event.value) < time {
          time := Time(event.value);
          best := event.value;
        }
        Cursor(readyLinks.target, readyLinks.back, readyLinks.owner, readyLinks.lists, 0, i + 1);
        PlaceAfter(0, list, i);
        event := readyLinks.Follow(Next(event.value));
        i := i + 1;
      }
    }

    /** One round: the selected events are shuffled and raised. */
    method DoEvents(now: int, rand: nat -> nat, behaviour: nat -> seq<Op>) returns (nextTime: int, ghost raised: seq<nat>)
      requires Valid() && raiseLinks.lists == map[0 := []] && raiseLinks.back == map[]
      modifies this, readyLinks, raiseLinks, sourceLinks
      ensures Valid() && raiseLinks.lists == map[0 := []] && raiseLinks.back == map[]
      ensures Distinct(raised) && forall e: nat :: e in raised ==> old(Selected(e, now))
      ensures forall e: nat :: old(Selected(e, now)) && e !in raised ==> TouchedBy(behaviour, |raised|, e)
      ensures RaisedReady(history, |old(history)|, raised)
      ensures readyLinks.back == map[] ==> nextTime == -1
      ensures readyLinks.back != map[] ==>
        && (forall e: nat :: e in readyLinks.back ==> nextTime <= Time(e))
        && exists e: nat :: e in readyLinks.back && nextTime == Time(e)
    {
      hide LinksOk, Selected, TouchedBy, Distinct, RaisedReady;
      var count := Select(now);
      ShuffleRaise(count, rand);
      raised := RaiseAll(behaviour);
      nextTime := NextTime();
    }

    method ShuffleRaise(count: nat, rand: nat -> nat)
      requires Valid() && raiseLinks.lists.Keys == {0} && count == |raiseLinks.lists[0]|
      modifies raiseLinks
      ensures Valid() && raiseLinks.lists.Keys == {0} && raiseLinks.back.Keys == old(raiseLinks.back).Keys
    {
      hide LinksOk;
      Shuffle(raiseLinks, count, rand);
      forall x: nat
        ensures Coherent(x)
      {
        assert old(Coherent(x));
      }
    }
  }

  /** One of the first n handlers touches the event. */
  ghost predicate TouchedBy(behaviour: nat -> seq<Op>, n: nat, e: nat) {
    exists k: nat :: k < n && Touches(behaviour(k), e)
  }

  lemma TouchedNow(behaviour: nat -> seq<Op>, n: nat, e: nat)
    requires Touches(behaviour(n), e)
    ensures TouchedBy(behaviour, n + 1, e)
  {
  }

  lemma TouchedStill(behaviour: nat -> seq<Op>, n: nat, e: nat)
    requires TouchedBy(behaviour, n, e)
    ensures TouchedBy(behaviour, n + 1, e)
  {
  }

  lemma TouchesWhole(ops: seq<Op>, i: nat, e: nat)
    requires i < |ops| && Touches([ops[i]], e)
    ensures Touches(ops, e)
  {
  }

  /** Some rounds into the raising loop: of all events to raise, some are left, some were
      raised, each once, and the others were touched by a handler. */
  ghost predicate RaisedOk(all: set<nat>, left: set<nat>, raised: seq<nat>, behaviour: nat -> seq<Op>) {
    && left <= all && Distinct(raised)
    && (forall e: nat :: e in raised ==> e in all && e !in left)
    && (forall e: nat :: e in all && e !in raised && e !in left ==> TouchedBy(behaviour, |raised|, e))
  }

  lemma NothingRaised(all: set<nat>, behaviour: nat -> seq<Op>)
    ensures RaisedOk(all, all, [], behaviour)
  {
  }

  lemma NoneRaisedReady(history: seq<Raised>)
    ensures RaisedReady(history, |history|, [])
  {
  }

  lemma RaisedReadyMore(history: seq<Raised>, n: nat, events: seq<nat>, e: nat)
    requires history != [] && RaisedReady(history[..|history| - 1], n, events)
    requires var last := history[|history| - 1]; last.event == e && last.ready && last.timeUs >= 0
    ensures RaisedReady(history, n, events + [e])
  {
    var before := history[..|history| - 1];
    assert history == before + [history[|history| - 1]];
  }

  lemma AllRaised(all: set<nat>, raised: seq<nat>, behaviour: nat -> seq<Op>)
    requires RaisedOk(all, {}, raised, behaviour)
    ensures Distinct(raised) && forall e: nat :: e in raised ==> e in all
    ensures forall e: nat :: e in all && e !in raised ==> TouchedBy(behaviour, |raised|, e)
  {
  }

  lemma RaisedMore(all: set<nat>, left: set<nat>, left': set<nat>, raised: seq<nat>, behaviour: nat -> seq<Op>, e: nat)
    requires RaisedOk(all, left, raised, behaviour) && e in left && left' <= left - {e}
    requires forall x: nat :: x in left && x !in left' ==> x == e || Touches(behaviour(|raised|), x)
    ensures RaisedOk(all, left', raised + [e], behaviour) && |left'| < |left|
  {
    hide Touches, TouchedBy;
    SubsetSize(left', left - {e});
    forall x: nat | x in all && x !in raised + [e] && x !in left'
      ensures TouchedBy(behaviour, |raised| + 1, x)
    {
      if x in left {
        TouchedNow(behaviour, |raised|, x);
      } else {
        TouchedStill(behaviour, |raised|, x);
      }
    }
  }

  /** Where a walk along a list stands: at its next event, or at its end. */
  lemma Cursor(target: map<Slot, nat>, back: map<nat, Slot>, owner: map<nat, nat>, lists: map<nat, seq<nat>>, h: nat, i: nat)
    requires LinksOk(target, back, owner, lists) && h in lists && i <= |lists[h]|
    ensures var slot := Place(h, lists[h], i);
      && (slot in target <==> i < |lists[h]|)
      && (slot in target ==> target[slot] == lists[h][i] && lists[h][i] in back)
  {
    assert ChainOk(target, back, owner, h, lists[h]);
    if i < |lists[h]| {
      HeldAt(target, back, owner, h, lists[h], i);
    } else {
      EndIsNull(target, back, owner, h, lists[h]);
    }
  }

  lemma InsertFirst(s: seq<nat>, e: nat)
    ensures Insert(s, 0, e) == [e] + s
  {
  }

  lemma WithoutKeeps(target: map<Slot, nat>, back: map<nat, Slot>, owner: map<nat, nat>, lists: map<nat, seq<nat>>, e: nat)
    requires LinksOk(target, back, owner, lists) && e !in back
    ensures Without(lists, e) == lists
  {
    NothingToCut(target, back, owner, lists, e);
  }

  lemma NotListed(target: map<Slot, nat>, back: map<nat, Slot>, owner: map<nat, nat>, lists: map<nat, seq<nat>>, h: nat, e: nat)
    requires LinksOk(target, back, owner, lists) && h in lists && e !in back
    ensures e !in lists[h]
  {
    NotIn(target, back, owner, h, lists[h], e);
  }
}
