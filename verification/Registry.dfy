/** The server's registry: which connection a datagram belongs to, and the intervals
    of all connections together. Connections and listeners are known by numbers, as in
    their names. */
module Registry {
  import opened Base

  /** What the registry knows of a connection. */
  datatype Entry = Entry(
    listener: nat,
    address: nat,         // udpAddress
    intervalUs: int,      // udpSendIntervalUs
    idle: bool            // isNoMoreDataWillBeSent
  )

  /** A listener has a TCP address when it accepts connections from any UDP address;
      one made for a single accepted TCP client has none. */
  datatype Listener = Listener(hasTcpAddress: bool, connections: map<nat, nat>)

  // ---------- sums over the connections ----------

  ghost function AnyOf(m: map<nat, Entry>): (k: nat)
    requires |m| > 0
    ensures k in m
  {
    var k :| k in m.Keys;
    k
  }

  ghost function Intervals(m: map<nat, Entry>): int
    decreases |m|
  {
    if |m| == 0 then 0 else var k := AnyOf(m); m[k].intervalUs + Intervals(m - {k})
  }

  lemma {:induction false} IntervalsRemove(m: map<nat, Entry>, k: nat)
    requires k in m
    ensures Intervals(m) == m[k].intervalUs + Intervals(m - {k})
    decreases |m|
  {
    var c := AnyOf(m);
    if c != k {
      IntervalsRemove(m - {c}, k);
      IntervalsRemove(m - {k}, c);
      assert m - {c} - {k} == m - {k} - {c};
    }
  }

  lemma IntervalsInsert(m: map<nat, Entry>, k: nat, e: Entry)
    requires k !in m
    ensures Intervals(m[k := e]) == Intervals(m) + e.intervalUs
  {
    IntervalsRemove(m[k := e], k);
    assert m[k := e] - {k} == m;
  }

  lemma IntervalsUpdate(m: map<nat, Entry>, k: nat, e: Entry)
    requires k in m
    ensures Intervals(m[k := e]) == Intervals(m) - m[k].intervalUs + e.intervalUs
  {
    IntervalsRemove(m, k);
    IntervalsRemove(m[k := e], k);
    assert m[k := e] - {k} == m - {k};
  }

  // ---------- the initial interval ----------

  /** The speed of the connections that still send, first n keys, none counted as
      faster than one datagram in 10 microseconds. */
  function SpeedOf(m: map<nat, Entry>, ks: seq<nat>, n: nat): real
    requires n <= |ks| && forall k :: k in ks ==> k in m
  {
    if n == 0 then 0.0
    else SpeedOf(m, ks, n - 1) + (if m[ks[n - 1]].idle then 0.0 else 1.0 / Max(10, m[ks[n - 1]].intervalUs) as real)
  }

  function BusyCount(m: map<nat, Entry>, ks: seq<nat>, n: nat): nat
    requires n <= |ks| && forall k :: k in ks ==> k in m
  {
    if n == 0 then 0 else BusyCount(m, ks, n - 1) + if m[ks[n - 1]].idle then 0 else 1
  }

  function Ceil(x: real): int { if x.Floor as real == x then x.Floor else x.Floor + 1 }

  /** The interval of a new connection among busy ones: their mean speed, times
      n / (n + 1), between half the configured interval and a third of the resend time. */
  function SharedInterval(speed: real, count: nat, initialUs: int, resendUs: int): int
    requires initialUs > 0
  {
    var floor := 0.25 / initialUs as real;
    var s := if speed < floor then floor else speed;
    var u := Ceil((count + 1) as real / s);
    var v := if u > resendUs / 3 then resendUs / 3 else u;
    if v < initialUs / 2 then initialUs / 2 else v
  }

  function Busy(m: map<nat, Entry>): set<nat> { set k | k in m && !m[k].idle }

  function BusyIn(m: map<nat, Entry>, ks: seq<nat>): set<nat> { set k | k in ks && k in m && !m[k].idle }

  lemma {:induction false} BusyAmong(m: map<nat, Entry>, ks: seq<nat>, n: nat)
    requires n <= |ks| && Increasing(ks) && forall k :: k in ks ==> k in m
    ensures BusyCount(m, ks, n) == |BusyIn(m, ks[..n])|
  {
    if n > 0 {
      BusyAmong(m, ks, n - 1);
      OneMoreBusy(m, ks[..n - 1], ks[n - 1]);
      assert ks[..n] == ks[..n - 1] + [ks[n - 1]];
    }
  }

  lemma OneMoreBusy(m: map<nat, Entry>, ks: seq<nat>, k: nat)
    requires k !in ks && k in m
    ensures |BusyIn(m, ks + [k])| == |BusyIn(m, ks)| + if m[k].idle then 0 else 1
  {
    var before, after := BusyIn(m, ks), BusyIn(m, ks + [k]);
    if m[k].idle {
      assert after == before;
    } else {
      assert after == before + {k};
    }
  }

  lemma BusyCountIs(m: map<nat, Entry>)
    ensures var ks := Ascending(m.Keys); BusyCount(m, ks, |ks|) == |Busy(m)|
  {
    hide BusyCount;
    var ks := Ascending(m.Keys);
    BusyAmong(m, ks, |ks|);
    assert ks[..|ks|] == ks;
    assert Busy(m) == BusyIn(m, ks);
  }

  /** The interval of the next connection, when these are live. */
  function NewInterval(m: map<nat, Entry>, initialUs: int, resendUs: int): int
    requires initialUs > 0
  {
    var ks := Ascending(m.Keys);
    var count := BusyCount(m, ks, |ks|);
    if count == 0 then initialUs else SharedInterval(SpeedOf(m, ks, |ks|), count, initialUs, resendUs)
  }

  /** Busy connections with equal intervals, none counted as below 10 microseconds. */
  lemma {:induction false} EqualSpeeds(m: map<nat, Entry>, ks: seq<nat>, n: nat, v: int)
    requires n <= |ks| && v >= 10 && forall k :: k in ks ==> k in m && (!m[k].idle ==> Max(10, m[k].intervalUs) == v)
    ensures SpeedOf(m, ks, n) == BusyCount(m, ks, n) as real / v as real
  {
    if n > 0 {
      EqualSpeeds(m, ks, n - 1, v);
      assert ks[n - 1] in ks;
      var c := BusyCount(m, ks, n - 1) as real;
      SumOfParts(c, v as real);
    }
  }

  lemma SumOfParts(c: real, v: real)
    requires v > 0.0
    ensures (c + 1.0) / v == c / v + 1.0 / v
  {
  }

  lemma Quotients(a: real, n: real, v: real)
    requires n > 0.0 && v > 0.0
    ensures n / v > 0.0 && a / (n / v) * n == a * v
  {
    var s := n / v;
    assert s * v == n;
    var q := a / s;
    assert q * s == a;
    assert q * (s * v) == (q * s) * v;
  }

  lemma ScaleUp(x: real, y: real, n: real)
    ensures n > 0.0 && x <= y ==> x * n <= y * n
    ensures n > 0.0 && x < y ==> x * n < y * n
  {
  }

  lemma CeilOf(x: real)
    ensures (Ceil(x) - 1) as real < x <= Ceil(x) as real
  {
  }

  lemma WholeShare(x: real, u: int, n: nat, v: int)
    requires n > 0 && (u - 1) as real < x <= u as real && x * n as real == (n + 1) as real * v as real
    ensures n * (u - 1) < (n + 1) * v <= n * u
  {
    var share := (n + 1) * v;
    ProductAsReal(n + 1, v);
    BelowProduct(u - 1, x, n, share as real);
    AtMostProduct(u, x, n, share as real);
  }

  lemma BelowProduct(a: int, x: real, n: nat, c: real)
    requires n > 0 && a as real < x && x * n as real == c
    ensures (n * a) as real < c
  {
    ScaleUp(a as real, x, n as real);
    ProductAsReal(n, a);
  }

  lemma AtMostProduct(a: int, x: real, n: nat, c: real)
    requires n > 0 && x <= a as real && x * n as real == c
    ensures c <= (n * a) as real
  {
    ScaleUp(x, a as real, n as real);
    ProductAsReal(n, a);
  }

  lemma {:induction false} ProductAsReal(a: nat, b: int)
    ensures (a * b) as real == a as real * b as real
  {
    if a > 0 {
      ProductAsReal(a - 1, b);
      assert a * b == (a - 1) * b + b;
      DistributeReal((a - 1) as real, b as real);
    }
  }

  lemma DistributeReal(x: real, y: real)
    ensures (x + 1.0) * y == x * y + y
  {
  }

  lemma FloorBelow(v: int, n: nat, initialUs: int)
    requires n > 0 && 10 <= v <= 4 * initialUs
    ensures n as real / v as real >= 0.25 / initialUs as real
  {
    var a, b := v as real, initialUs as real;
    Undivide(n as real, a);
    Undivide(0.25, b);
    NotSlower(n as real / a, 0.25 / b, a, b, n as real);
  }

  lemma Undivide(x: real, y: real)
    requires y > 0.0
    ensures x / y * y == x
  {
  }

  lemma NotSlower(x: real, y: real, a: real, b: real, n: real)
    requires x * a == n && y * b == 0.25 && n >= 1.0 && 0.0 < a <= 4.0 * b
    ensures x >= y
  {
    ScaleUp(y, 0.0, b);
    ScaleUp(a, 4.0 * b, y);
    Rearrange(y, b, a);
    ScaleUp(x, y, a);
  }

  lemma Rearrange(y: real, b: real, a: real)
    ensures 4.0 * b * y == 4.0 * (y * b) && a * y == y * a
  {
  }

  /** `SharedInterval` of n connections with interval v is v * (n + 1) / n rounded up. */
  lemma ShareOfEqual(v: int, n: nat, initialUs: int, resendUs: int)
    requires n > 0 && 10 <= v <= 4 * initialUs
    ensures var u := SharedInterval(n as real / v as real, n, initialUs, resendUs);
      && initialUs / 2 <= u <= Max(resendUs / 3, initialUs / 2)
      && (initialUs / 2 < u < resendUs / 3 ==> n * (u - 1) < (n + 1) * v <= n * u)
  {
    hide Ceil;
    var speed := n as real / v as real;
    Quotients((n + 1) as real, n as real, v as real);
    FloorBelow(v, n, initialUs);
    var x := (n + 1) as real / speed;
    CeilOf(x);
    WholeShare(x, Ceil(x), n, v);
  }

  /** A new connection among n busy ones with equal intervals v, none counted as below 10,
      takes an equal share of their speed: its interval u is v * (n + 1) / n rounded up,
      unless a bound cuts it off. */
  lemma TakesItsShare(m: map<nat, Entry>, v: int, initialUs: int, resendUs: int)
    requires forall k: nat :: k in m && !m[k].idle ==> Max(10, m[k].intervalUs) == v
    requires 10 <= v <= 4 * initialUs
    ensures var n, u := |Busy(m)|, NewInterval(m, initialUs, resendUs);
      n > 0 ==>
        && initialUs / 2 <= u <= Max(resendUs / 3, initialUs / 2)
        && (initialUs / 2 < u < resendUs / 3 ==> n * (u - 1) < (n + 1) * v <= n * u)
  {
    hide SharedInterval, SpeedOf, BusyCount, Busy;
    var ks := Ascending(m.Keys);
    EqualSpeeds(m, ks, |ks|, v);
    BusyCountIs(m);
    if |Busy(m)| > 0 {
      ShareOfEqual(v, |Busy(m)|, initialUs, resendUs);
    }
  }

  predicate AllIdle(m: map<nat, Entry>) { forall k: nat :: k in m ==> m[k].idle }

  /** With no busy connection the next one gets the configured interval. */
  lemma FirstGetsConfigured(m: map<nat, Entry>, initialUs: int, resendUs: int)
    requires initialUs > 0 && AllIdle(m)
    ensures NewInterval(m, initialUs, resendUs) == initialUs
  {
    hide SharedInterval, SpeedOf, BusyCount;
    BusyCountIs(m);
    assert Busy(m) == {};
  }

  lemma SpeedPositive(speed: real, floor: real, b: real)
    requires b > 0.0 && floor * b == 0.25 && speed >= floor
    ensures speed > 0.0
  {
    if floor <= 0.0 {
      ScaleUp(floor, 0.0, b);
    }
  }

  /** One part of n + 1, rounded up to a whole interval. */
  predicate IsPart(u: int, speed: real, n: nat) {
    (u - 1) as real * speed < (n + 1) as real <= u as real * speed
  }

  lemma WholePart(speed: real, n: nat)
    requires speed > 0.0
    ensures IsPart(Ceil((n + 1) as real / speed), speed, n)
  {
    hide Ceil;
    var all, x := (n + 1) as real, (n + 1) as real / speed;
    Undivide(all, speed);
    CeilOf(x);
    Between((Ceil(x) - 1) as real, x, Ceil(x) as real, speed, all);
  }

  lemma Between(low: real, x: real, high: real, speed: real, all: real)
    requires speed > 0.0 && low < x <= high && x * speed == all
    ensures low * speed < all <= high * speed
  {
    ScaleUp(low, x, speed);
    ScaleUp(x, high, speed);
  }

  /** No sum of speeds counts for less than a quarter of the configured speed. */
  function Counted(speed: real, initialUs: int): real
    requires initialUs > 0
  {
    if speed < 0.25 / initialUs as real then 0.25 / initialUs as real else speed
  }

  lemma SharedIsClamped(speed: real, n: nat, initialUs: int, resendUs: int)
    requires initialUs > 0 && Counted(speed, initialUs) > 0.0
    ensures SharedInterval(speed, n, initialUs, resendUs)
         == Max(initialUs / 2, Min(resendUs / 3, Ceil((n + 1) as real / Counted(speed, initialUs))))
  {
    hide Ceil;
  }

  lemma PartOfSpeed(speed: real, n: nat, initialUs: int, resendUs: int) returns (part: int)
    requires initialUs > 0
    ensures IsPart(part, Counted(speed, initialUs), n)
    ensures SharedInterval(speed, n, initialUs, resendUs) == Max(initialUs / 2, Min(resendUs / 3, part))
  {
    hide IsPart, Ceil, SharedInterval;
    Undivide(0.25, initialUs as real);
    SpeedPositive(Counted(speed, initialUs), 0.25 / initialUs as real, initialUs as real);
    WholePart(Counted(speed, initialUs), n);
    SharedIsClamped(speed, n, initialUs, resendUs);
    part := Ceil((n + 1) as real / Counted(speed, initialUs));
  }

  /** Whatever the intervals of the busy connections are, the speed 1/part is the
      (n + 1)-th part of theirs together, rounded down, and a new one gets that interval,
      cut off at a third of the resend time and then at half the configured interval. */
  lemma TakesPartOfSpeed(m: map<nat, Entry>, initialUs: int, resendUs: int)
    requires initialUs > 0 && Busy(m) != {}
    ensures var ks := Ascending(m.Keys);
      var speed := Counted(SpeedOf(m, ks, |ks|), initialUs);
      exists part: int :: IsPart(part, speed, |Busy(m)|)
        && NewInterval(m, initialUs, resendUs) == Max(initialUs / 2, Min(resendUs / 3, part))
  {
    hide SpeedOf, BusyCount, SharedInterval, IsPart, Counted, Busy;
    var ks := Ascending(m.Keys);
    BusyCountIs(m);
    var part := PartOfSpeed(SpeedOf(m, ks, |ks|), BusyCount(m, ks, |ks|), initialUs, resendUs);
  }

  // ---------- the registry ----------

  /** The connection is the one its listener stores under its address. */
  predicate Stored(e: Entry, c: nat, listeners: map<nat, Listener>) {
    && e.listener in listeners
    && e.address in listeners[e.listener].connections
    && listeners[e.listener].connections[e.address] == c
  }

  /** What a listener stores is live, and stored where it belongs. */
  ghost predicate Live(held: map<nat, nat>, l: nat, connections: map<nat, Entry>) {
    forall a: nat :: a in held ==>
      && held[a] in connections && connections[held[a]].listener == l && connections[held[a]].address == a
  }

  ghost predicate Single(s: Listener) {
    !s.hasTcpAddress ==> |s.connections| == 1
  }

  ghost predicate AllStored(connections: map<nat, Entry>, listeners: map<nat, Listener>) {
    forall c: nat :: c in connections ==> Stored(connections[c], c, listeners)
  }

  ghost predicate AllLive(connections: map<nat, Entry>, listeners: map<nat, Listener>) {
    forall l: nat :: l in listeners ==> Live(listeners[l].connections, l, connections)
  }

  ghost predicate AllSingle(listeners: map<nat, Listener>, except: set<nat>) {
    forall l: nat :: l in listeners && l !in except ==> Single(listeners[l])
  }

  /** No number was used before it was given. */
  ghost predicate Named(connections: map<nat, Entry>, listeners: map<nat, Listener>, last: nat) {
    && (forall c: nat :: c in connections ==> c <= last)
    && (forall l: nat :: l in listeners ==> l <= last)
  }

  // ---------- the steps ----------

  function HeldBy(listeners: map<nat, Listener>, l: nat, address: nat, n: nat): map<nat, Listener>
    requires l in listeners
  {
    listeners[l := listeners[l].(connections := listeners[l].connections[address := n])]
  }

  function ReleasedBy(listeners: map<nat, Listener>, l: nat, address: nat): map<nat, Listener>
    requires l in listeners
  {
    listeners[l := listeners[l].(connections := listeners[l].connections - {address})]
  }

  lemma EntryAdded(connections: map<nat, Entry>, listeners: map<nat, Listener>, n: nat, e: Entry)
    requires AllStored(connections, listeners) && AllLive(connections, listeners) && AllSingle(listeners, {e.listener})
    requires e.listener in listeners && e.address !in listeners[e.listener].connections
    requires n > 0 && Named(connections, listeners, n - 1)
    ensures n !in connections
    ensures var after := HeldBy(listeners, e.listener, e.address, n);
      && AllStored(connections[n := e], after) && AllLive(connections[n := e], after)
      && (listeners[e.listener].hasTcpAddress || listeners[e.listener].connections == map[] ==> AllSingle(after, {}))
  {
    var after := HeldBy(listeners, e.listener, e.address, n);
    forall l: nat | l in after
      ensures Live(after[l].connections, l, connections[n := e])
    {
      assert Live(listeners[l].connections, l, connections);
    }
    var more := connections[n := e];
    forall c: nat | c in more
      ensures Stored(more[c], c, after)
    {
      assert c != n ==> Stored(connections[c], c, listeners);
    }
  }

  lemma NamesAfter(connections: map<nat, Entry>, listeners: map<nat, Listener>, n: nat, e: Entry)
    requires n > 0 && Named(connections, listeners, n - 1) && e.listener in listeners
    ensures Named(connections[n := e], HeldBy(listeners, e.listener, e.address, n), n)
  {
  }

  lemma SameNames(connections: map<nat, Entry>, listeners: map<nat, Listener>, last: nat, more: nat, l: nat)
    requires Named(connections, listeners, last) && last <= more && AllSingle(listeners, {l})
    ensures Named(connections, listeners, more)
    ensures l in listeners && listeners[l].hasTcpAddress ==> AllSingle(listeners, {})
  {
  }

  lemma SinglesBut(listeners: map<nat, Listener>, l: nat)
    requires AllSingle(listeners, {})
    ensures AllSingle(listeners, {l})
  {
  }

  /** Without a connection, what remains is stored where it was, in a listener that stays. */
  lemma StoredWithout(connections: map<nat, Entry>, listeners: map<nat, Listener>, c: nat, k: nat)
    requires AllStored(connections, listeners) && AllSingle(listeners, {}) && c in connections && k in connections && k != c
    ensures connections[c].listener in listeners && connections[k].listener in listeners
    ensures Stored(connections[k], k, ReleasedBy(listeners, connections[c].listener, connections[c].address))
    ensures !listeners[connections[c].listener].hasTcpAddress ==> connections[k].listener != connections[c].listener
  {
    var e := connections[c];
    assert Stored(e, c, listeners) && Stored(connections[k], k, listeners);
    var s := listeners[e.listener];
    if !s.hasTcpAddress && connections[k].listener == e.listener {
      assert Single(s);
      OnlyKey(s.connections, e.address, connections[k].address);
    }
  }

  lemma LiveWithout(connections: map<nat, Entry>, listeners: map<nat, Listener>, c: nat)
    requires AllStored(connections, listeners) && AllLive(connections, listeners) && c in connections
    ensures connections[c].listener in listeners
    ensures AllLive(connections - {c}, ReleasedBy(listeners, connections[c].listener, connections[c].address))
  {
    var e := connections[c];
    assert Stored(e, c, listeners);
    var released := ReleasedBy(listeners, e.listener, e.address);
    forall l: nat | l in released
      ensures Live(released[l].connections, l, connections - {c})
    {
      assert Live(listeners[l].connections, l, connections);
    }
  }

  lemma EntryRemoved(connections: map<nat, Entry>, listeners: map<nat, Listener>, last: nat, c: nat)
    requires AllStored(connections, listeners) && AllLive(connections, listeners) && AllSingle(listeners, {})
    requires c in connections && Named(connections, listeners, last)
    ensures connections[c].listener in listeners
    ensures var e := connections[c];
      var released := ReleasedBy(listeners, e.listener, e.address);
      var after := if listeners[e.listener].hasTcpAddress then released else released - {e.listener};
      AllStored(connections - {c}, after) && AllLive(connections - {c}, after) && AllSingle(after, {}) && Named(connections - {c}, after, last)
    ensures ReleasedBy(listeners, connections[c].listener, connections[c].address) - {connections[c].listener}
         == listeners - {connections[c].listener}
  {
    hide Live, Stored, Single;
    var e := connections[c];
    LiveWithout(connections, listeners, c);
    ListenerGone(listeners, e.listener, e.address);
    var released := ReleasedBy(listeners, e.listener, e.address);
    var after := if listeners[e.listener].hasTcpAddress then released else released - {e.listener};
    forall k: nat | k in connections - {c}
      ensures Stored((connections - {c})[k], k, after)
    {
      StoredWithout(connections, listeners, c, k);
      StoredFewer(connections[k], k, released, e.listener);
    }
  }

  lemma ListenerGone(listeners: map<nat, Listener>, l: nat, address: nat)
    requires AllSingle(listeners, {}) && l in listeners
    ensures ReleasedBy(listeners, l, address) - {l} == listeners - {l}
    ensures AllSingle(listeners - {l}, {})
    ensures listeners[l].hasTcpAddress ==> AllSingle(ReleasedBy(listeners, l, address), {})
  {
  }

  lemma StoredFewer(e: Entry, k: nat, listeners: map<nat, Listener>, l: nat)
    requires Stored(e, k, listeners)
    ensures e.listener != l ==> Stored(e, k, listeners - {l})
  {
  }

  lemma EntryChanged(connections: map<nat, Entry>, listeners: map<nat, Listener>, last: nat, c: nat, intervalUs: int)
    requires AllStored(connections, listeners) && AllLive(connections, listeners) && Named(connections, listeners, last)
    requires c in connections
    ensures var after := connections[c := connections[c].(intervalUs := intervalUs)];
      AllStored(after, listeners) && AllLive(after, listeners) && Named(after, listeners, last)
  {
    var after := connections[c := connections[c].(intervalUs := intervalUs)];
    forall k: nat | k in after
      ensures Stored(after[k], k, listeners)
    {
      assert Stored(connections[k], k, listeners);
    }
    forall l: nat | l in listeners
      ensures Live(listeners[l].connections, l, after)
    {
      assert Live(listeners[l].connections, l, connections);
    }
  }

  lemma ListenerAdded(connections: map<nat, Entry>, listeners: map<nat, Listener>, last: nat, hasTcpAddress: bool)
    requires AllStored(connections, listeners) && AllLive(connections, listeners) && Named(connections, listeners, last)
    requires AllSingle(listeners, {})
    ensures last + 1 !in listeners
    ensures var after := listeners[last + 1 := Listener(hasTcpAddress, map[])];
      && AllStored(connections, after) && AllLive(connections, after) && Named(connections, after, last + 1)
      && AllSingle(after, {last + 1}) && (hasTcpAddress ==> AllSingle(after, {}))
  {
    var after := listeners[last + 1 := Listener(hasTcpAddress, map[])];
    forall k: nat | k in connections
      ensures Stored(connections[k], k, after)
    {
      assert Stored(connections[k], k, listeners);
    }
    forall l: nat | l in after
      ensures Live(after[l].connections, l, connections)
    {
      assert l in listeners ==> Live(listeners[l].connections, l, connections);
    }
  }

  lemma ListenerRemoved(connections: map<nat, Entry>, listeners: map<nat, Listener>, last: nat, l: nat)
    requires AllStored(connections, listeners) && AllLive(connections, listeners) && Named(connections, listeners, last)
    requires AllSingle(listeners, {}) && l in listeners && listeners[l].connections == map[]
    ensures listeners[l].hasTcpAddress && l <= last
    ensures AllStored(connections, listeners - {l}) && AllLive(connections, listeners - {l})
    ensures Named(connections, listeners - {l}, last) && AllSingle(listeners - {l}, {})
  {
    assert Single(listeners[l]);
    forall k: nat | k in connections
      ensures Stored(connections[k], k, listeners - {l})
    {
      assert Stored(connections[k], k, listeners);
    }
    forall k: nat | k in listeners - {l}
      ensures Live((listeners - {l})[k].connections, k, connections)
    {
      assert Live(listeners[k].connections, k, connections);
    }
  }

  lemma OnlyKey(m: map<nat, nat>, a: nat, b: nat)
    requires |m| == 1 && a in m && b in m
    ensures a == b
  {
    assert |m.Keys - {a}| == 0;
    assert b !in m.Keys - {a};
  }

  // ---------- the code ----------

  class Server {
    const udpInitialSendIntervalUs: int
    const udpResendUs: int
    var lastObjectIndex: nat
    var connections: map<nat, Entry>
    var listeners: map<nat, Listener>
    var summaryIntervalUs: int     // udpSummaryConnectionsSendIntervalUs

    /** Every connection is the one stored under its address in its listener, every
        stored one is live, and the sum is right. */
    ghost predicate Consistent()
      reads this
    {
      && udpInitialSendIntervalUs > 0 && udpResendUs >= 3
      && Named(connections, listeners, lastObjectIndex)
      && AllStored(connections, listeners) && AllLive(connections, listeners)
      && summaryIntervalUs == Intervals(connections)
    }

    /** Besides, a listener made for a single client has exactly that client. */
    ghost predicate Valid()
      reads this
    {
      Consistent() && AllSingle(listeners, {})
    }

    constructor (udpInitialSendIntervalUs: int, udpResendUs: int)
      requires udpInitialSendIntervalUs > 0 && udpResendUs >= 3
      ensures Valid() && connections == map[] && listeners == map[]
    {
      this.udpInitialSendIntervalUs := udpInitialSendIntervalUs;
      this.udpResendUs := udpResendUs;
      lastObjectIndex, connections, listeners, summaryIntervalUs := 0, map[], map[], 0;
    }

    /** `connectionByAddress`: the live connection of this listener with that address. */
    method ConnectionByAddress(l: nat, address: nat) returns (c: Option<nat>)
      requires Consistent() && l in listeners
      ensures c.Some? ==> c.value in connections && connections[c.value].listener == l && connections[c.value].address == address
      ensures c.None? <==> forall k: nat :: k in connections ==> !(connections[k].listener == l && connections[k].address == address)
    {
      hide Intervals;
      var held := listeners[l].connections;
      assert Live(held, l, connections);
      c := if address in held then Some(held[address]) else None;
      assert forall k: nat :: k in connections ==> Stored(connections[k], k, listeners);
    }

    /** The last lines of `getUdpInitialIntervalUs`, for busy connections. */
    method Share(speed: real, count: nat) returns (intervalUs: int)
      requires udpInitialSendIntervalUs > 0
      ensures intervalUs == SharedInterval(speed, count, udpInitialSendIntervalUs, udpResendUs)
    {
      var summarySpeed := speed;
      var floor := 0.25 / udpInitialSendIntervalUs as real;
      if summarySpeed < floor {
        summarySpeed := floor;
      }
      intervalUs := Ceil((count + 1) as real / summarySpeed);
      if intervalUs > udpResendUs / 3 {
        intervalUs := udpResendUs / 3;
      }
      if intervalUs < udpInitialSendIntervalUs / 2 {
        intervalUs := udpInitialSendIntervalUs / 2;
      }
    }

    /** `getUdpInitialIntervalUs`. */
    method InitialIntervalUs() returns (intervalUs: int)
      requires udpInitialSendIntervalUs > 0
      ensures intervalUs == NewInterval(connections, udpInitialSendIntervalUs, udpResendUs)
      ensures AllIdle(connections) ==> intervalUs == udpInitialSendIntervalUs
    {
      hide SharedInterval;
      if AllIdle(connections) {
        FirstGetsConfigured(connections, udpInitialSendIntervalUs, udpResendUs);
      }
      intervalUs := udpInitialSendIntervalUs;
      var ks := Ascending(connections.Keys);
      var summarySpeed: real, count: nat := 0.0, 0;
      for i := 0 to |ks|
        invariant summarySpeed == SpeedOf(connections, ks, i) && count == BusyCount(connections, ks, i)
      {
        if !connections[ks[i]].idle {
          summarySpeed := summarySpeed + 1.0 / Max(10, connections[ks[i]].intervalUs) as real;
          count := count + 1;
        }
      }
      if count > 0 {
        intervalUs := Share(summarySpeed, count);
      }
    }

    /** `createConnection`: nothing happens when the address is taken. A listener without
        a TCP address must not have a connection yet. */
    method CreateConnection(l: nat, address: nat) returns (c: Option<nat>)
      requires Consistent() && l in listeners && (!listeners[l].hasTcpAddress ==> listeners[l].connections == map[])
      requires AllSingle(listeners, {l})
      modifies this
      ensures c.None? <==> address in old(listeners[l].connections)
      ensures c.None? ==> connections == old(connections) && listeners == old(listeners)
      ensures c.Some? ==>
        && c.value !in old(connections) && c.value in connections && connections - {c.value} == old(connections)
        && connections[c.value] == Entry(l, address, old(NewInterval(connections, udpInitialSendIntervalUs, udpResendUs)), false)
        && listeners == HeldBy(old(listeners), l, address, c.value)
      ensures c.Some? && AllIdle(old(connections)) ==> connections[c.value].intervalUs == udpInitialSendIntervalUs
      ensures listeners[l].hasTcpAddress || c.Some? ==> Valid()
    {
      hide Intervals, AllStored, AllLive, Named, AllSingle, NewInterval, AllIdle;
      lastObjectIndex := lastObjectIndex + 1;
      var held := listeners[l].connections;
      if address in held {
        SameNames(connections, listeners, lastObjectIndex - 1, lastObjectIndex, l);
        return None;
      }
      var intervalUs := InitialIntervalUs();
      AddConnection(l, address, intervalUs);
      c := Some(lastObjectIndex);
    }

    /** The lines of `createConnection` and of the constructor of a connection that
        register it. */
    method AddConnection(l: nat, address: nat, intervalUs: int)
      requires udpInitialSendIntervalUs > 0 && udpResendUs >= 3
      requires lastObjectIndex > 0 && Named(connections, listeners, lastObjectIndex - 1)
      requires AllStored(connections, listeners) && AllLive(connections, listeners) && AllSingle(listeners, {l})
      requires summaryIntervalUs == Intervals(connections)
      requires l in listeners && address !in listeners[l].connections
      requires listeners[l].hasTcpAddress || listeners[l].connections == map[]
      modifies this`connections, this`listeners, this`summaryIntervalUs
      ensures Valid() && lastObjectIndex !in old(connections)
      ensures connections == old(connections)[lastObjectIndex := Entry(l, address, intervalUs, false)]
      ensures listeners == HeldBy(old(listeners), l, address, lastObjectIndex)
    {
      hide Intervals, AllStored, AllLive, Named, AllSingle;
      var n := lastObjectIndex;
      var e := Entry(l, address, intervalUs, false);
      EntryAdded(connections, listeners, n, e);
      NamesAfter(connections, listeners, n, e);
      IntervalsInsert(connections, n, e);
      summaryIntervalUs := summaryIntervalUs + intervalUs;
      connections := connections[n := e];
      listeners := listeners[l := listeners[l].(connections := listeners[l].connections[address := n])];
    }

    /** `onConnectionClosed`: the connection leaves its listener, and a listener without a
        TCP address leaves with it. */
    method CloseConnection(c: nat)
      requires Valid() && c in connections
      modifies this
      ensures Valid() && connections == old(connections) - {c}
      ensures var e := old(connections[c]);
        var s := old(listeners[e.listener]);
        listeners == if s.hasTcpAddress then old(listeners)[e.listener := s.(connections := s.connections - {e.address})]
                     else old(listeners) - {e.listener}
    {
      hide Intervals, AllStored, AllLive, Named, AllSingle;
      var e := connections[c];
      IntervalsRemove(connections, c);
      EntryRemoved(connections, listeners, lastObjectIndex, c);
      var s := listeners[e.listener];
      listeners := listeners[e.listener := s.(connections := s.connections - {e.address})];
      connections := connections - {c};
      summaryIntervalUs := summaryIntervalUs - e.intervalUs;
      if !s.hasTcpAddress {
        listeners := listeners - {e.listener};
      }
    }

    /** The lines of `onUdpDelivered` that change the interval of a connection. */
    method ChangeInterval(c: nat, intervalUs: int)
      requires Valid() && c in connections
      modifies this`connections, this`summaryIntervalUs
      ensures Valid() && connections == old(connections)[c := old(connections)[c].(intervalUs := intervalUs)]
    {
      hide Intervals, AllStored, AllLive, Named;
      EntryChanged(connections, listeners, lastObjectIndex, c, intervalUs);
      IntervalsUpdate(connections, c, connections[c].(intervalUs := intervalUs));
      summaryIntervalUs := summaryIntervalUs - connections[c].intervalUs;
      connections := connections[c := connections[c].(intervalUs := intervalUs)];
      summaryIntervalUs := summaryIntervalUs + intervalUs;
    }

    method CreateUdpListener(hasTcpAddress: bool) returns (l: nat)
      requires Valid()
      modifies this`lastObjectIndex, this`listeners
      ensures l == old(lastObjectIndex) + 1
      ensures Consistent() && l !in old(listeners) && listeners == old(listeners)[l := Listener(hasTcpAddress, map[])]
      ensures AllSingle(listeners, {l}) && (hasTcpAddress ==> Valid())
    {
      hide Intervals, AllStored, AllLive, Named, AllSingle;
      ListenerAdded(connections, listeners, lastObjectIndex, hasTcpAddress);
      lastObjectIndex := lastObjectIndex + 1;
      l := lastObjectIndex;
      listeners := listeners[l := Listener(hasTcpAddress, map[])];
    }

    /** `TcpListener::handle`: an accepted client gets a listener of its own and its
        connection at once. */
    method AcceptClient(udpAddress: nat) returns (l: nat, c: nat)
      requires Valid()
      modifies this
      ensures Valid() && l !in old(listeners) && c !in old(connections)
      ensures listeners == old(listeners)[l := Listener(false, map[udpAddress := c])]
      ensures c in connections && connections - {c} == old(connections)
      ensures connections[c] == Entry(l, udpAddress, old(NewInterval(connections, udpInitialSendIntervalUs, udpResendUs)), false)
      ensures AllIdle(old(connections)) ==> connections[c].intervalUs == udpInitialSendIntervalUs
    {
      hide Consistent, AllSingle, NewInterval, AllIdle;
      l := CreateUdpListener(false);
      var r := CreateConnection(l, udpAddress);
      c := r.value;
    }

    /** `UdpListener::handle` for a datagram: the connection it is passed on to, if any.
        One is made for an unknown address when the listener has a TCP address and the
        datagram is numbered. */
    method Receive(l: nat, address: nat, passes: bool, d: Datagram) returns (c: Option<nat>)
      requires Valid() && l in listeners
      modifies this
      ensures Valid()
      ensures c.Some? ==> c.value in connections && connections[c.value].listener == l && connections[c.value].address == address
      ensures !passes ==> c.None?
      ensures passes ==> (c.Some? <==> address in old(listeners[l].connections) || (old(listeners[l].hasTcpAddress) && d.IsNumbered()))
      ensures c.None? || c.value in old(connections) ==> connections == old(connections) && listeners == old(listeners)
      ensures c.Some? && c.value !in old(connections) ==>
        && connections - {c.value} == old(connections) && listeners == HeldBy(old(listeners), l, address, c.value)
        && connections[c.value] == Entry(l, address, old(NewInterval(connections, udpInitialSendIntervalUs, udpResendUs)), false)
        && (AllIdle(old(connections)) ==> connections[c.value].intervalUs == udpInitialSendIntervalUs)
    {
      hide Intervals, AllStored, Named, NewInterval, AllIdle;
      c := None;
      if passes {
        SinglesBut(listeners, l);
        assert Live(listeners[l].connections, l, connections);
        if address in listeners[l].connections {
          c := Some(listeners[l].connections[address]);
        } else if listeners[l].hasTcpAddress && d.IsNumbered() {
          c := CreateConnection(l, address);
        }
      }
    }

    /** `UdpListener::handle` for a closed socket, and `onUdpListenerClosed`: a listener
        with connections stays, one that failed is opened again. */
    method CloseListener(l: nat, error: bool)
      requires Valid() && l in listeners
      modifies this
      ensures Valid() && connections == old(connections)
      ensures old(listeners[l].connections) != map[] ==> listeners == old(listeners)
      ensures old(listeners[l].connections) == map[] ==> old(listeners[l]).hasTcpAddress && l !in listeners
      ensures old(listeners[l].connections) == map[] ==>
        listeners == if error then (old(listeners) - {l})[old(lastObjectIndex) + 1 := Listener(true, map[])]
                     else old(listeners) - {l}
    {
      hide Intervals, AllStored, AllLive, Named, AllSingle;
      if listeners[l].connections == map[] {
        ListenerRemoved(connections, listeners, lastObjectIndex, l);
        var hasTcpAddress := listeners[l].hasTcpAddress;
        listeners := listeners - {l};
        if error && hasTcpAddress {
          var m := CreateUdpListener(true);
        }
      }
    }
  }
}
