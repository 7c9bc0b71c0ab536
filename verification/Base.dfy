/** Values shared by the whole model: datagrams, stored packets, ordered
    traversal of a map's keys, and sums over a map of packets. */
module Base {

  const INT_MAX := 0x7FFF_FFFF

  type byte = x: int | 0 <= x < 256

  datatype Option<+T> = None | Some(value: T)

  /** Packet types in the order of their wire codes 0..5; Unknown stands for
      every other code, which the receiving side ignores. */
  datatype Kind = Hello | Bye | Data | Confirmation | Disconnect | ByeBye | Unknown(code: byte)

  /** The part of a packet that travels: type, index and payload. */
  datatype Datagram = Datagram(kind: Kind, index: int, payload: seq<byte>) {
    /** Closing packets: the last one a sender ever numbers. */
    predicate IsBye() { kind.Bye? || kind.Disconnect? }

    /** Packets that carry an index of the sender's stream. */
    predicate IsNumbered() { kind.Hello? || kind.Data? || IsBye() }

    /** Packets beside the stream: confirmations, and goodbyes, whose index is at most
        the number of packets their sender has numbered. */
    predicate IsControl(numbered: nat) {
      (kind.Confirmation? || kind.ByeBye?) && 0 <= index && (kind.ByeBye? ==> index <= numbered)
    }

    /** The stream bytes this packet stands for. */
    function Content(): seq<byte> { if kind.Data? then payload else [] }

    /** What `buildUdpPackets`, `tcpClose` and the constructor produce. */
    predicate WellFormed(packetSize: int) {
      && IsNumbered()
      && (kind.Hello? ==> index == 0)
      && (kind.Data? ==> 1 <= |payload| <= packetSize)
      && (!kind.Data? ==> payload == [])
    }
  }

  /** A packet held in one of the connection's containers. */
  datatype Packet = Packet(
    dg: Datagram,
    sent: bool,
    sentTimeUs: int,
    measureIndex: int,
    remainResendCount: int,
    confirmed: bool
  ) {
    predicate IsComplete() { sent && confirmed }
    function Size(): nat { |dg.payload| }
  }

  /** A packet whose bookkeeping fields have their default values. */
  function Fresh(dg: Datagram, remainResendCount: int): Packet {
    Packet(dg, false, 0, 0, remainResendCount, false)
  }

  /** The constructor's settings that the handlers consult. */
  datatype Settings = Settings(
    udpSendPacketSize: int,
    udpMaxReceiveBufferSize: int,
    udpMaxSentMeasureSize: int,
    udpResendCount: int,
    confirmationResendCount: int,
    udpMaxSendLossPercent: real,
    udpResendUs: int,
    buildConfirmationsUs: int,
    buildUdpPacketsUs: int,
    udpMaxSentMeasureUs: int
  ) {
    predicate Valid() {
      && udpSendPacketSize >= 1 && udpMaxReceiveBufferSize >= 0
      && udpResendCount >= 0 && confirmationResendCount >= 0 && udpResendUs >= 3
      && buildConfirmationsUs >= 0 && buildUdpPacketsUs >= 0
      && 0.0 <= udpMaxSendLossPercent < 100.0
    }
  }

  /** The server's defaults. */
  const DEFAULTS := Settings(1024, 8 * 1024 * 1024, 64 * 1024, 20, 5, 30.0, 1000000, 100000, 100000, 1000000)

  type Config = c: Settings | c.Valid() witness DEFAULTS

  /** How far above the packet in turn an accepted index may be. */
  function Window(cfg: Config): nat {
    2 * cfg.udpMaxReceiveBufferSize / cfg.udpSendPacketSize
  }

  /** The longest interval a measurement may set, in microseconds. */
  function MaxInterval(cfg: Config): (m: real)
    ensures m >= 1.0
  {
    (cfg.udpResendUs / 3) as real
  }

  function Min(a: int, b: int): int { if a <= b then a else b }

  function Max(a: int, b: int): int { if a <= b then b else a }

  /** `Event::setTime`: an armed event only moves earlier unless forced;
      a negative time means disabled. */
  function SetTime(current: int, timeUs: int, force: bool := false): int {
    if force || (current > timeUs && timeUs >= 0) || current < 0 then timeUs else current
  }

  // ---------- ordered traversal of a map ----------

  ghost predicate Increasing(s: seq<nat>) {
    forall i, j :: 0 <= i < j < |s| ==> s[i] < s[j]
  }

  lemma {:induction false} FindLeast(s: set<nat>) returns (m: nat)
    requires s != {}
    ensures m in s && forall x :: x in s ==> m <= x
    decreases |s|
  {
    var k :| k in s;
    m := k;
    var smaller := set x | x in s && x < k;
    if smaller != {} {
      assert k !in smaller && smaller <= s - {k};
      SubsetSize(smaller, s - {k});
      m := FindLeast(smaller);
    }
    forall x | x in s
      ensures m <= x
    {
      assert x < k ==> x in smaller;
    }
  }

  lemma {:induction false} SubsetSize<T>(a: set<T>, b: set<T>)
    requires a <= b
    ensures |a| <= |b|
    decreases |a|
  {
    if a != {} {
      var x :| x in a;
      SubsetSize(a - {x}, b - {x});
    }
  }

  lemma LeastExists(s: set<nat>)
    requires s != {}
    ensures exists m :: m in s && forall x :: x in s ==> m <= x
  {
    var m := FindLeast(s);
  }

  function Least(s: set<nat>): (m: nat)
    requires s != {}
    ensures m in s && forall x :: x in s ==> m <= x
  {
    LeastExists(s);
    var m :| m in s && forall x :: x in s ==> m <= x;
    m
  }

  /** The keys of a `std::map<int, ...>` in iteration order. */
  function Ascending(s: set<nat>): (r: seq<nat>)
    ensures forall x :: x in r <==> x in s
    ensures Increasing(r)
    decreases |s|
  {
    if |s| == 0 then []
    else
      var m := Least(s);
      [m] + Ascending(s - {m})
  }

  // ---------- sums over a map of packets ----------

  /** What a packet contributes to a sum. */
  datatype Weight =
    | Bytes                                  // its payload size
    | Unsent                                 // one if it waits to be (re)sent
    | Tried(measure: int, resendCount: int)  // its size if it was sent before, last in the given measure
    | InFlight(measure: int)                 // its size if it is sent and unanswered, in the given measure

  /** True of a stored packet that left the socket at least once. */
  predicate WasTried(p: Packet, resendCount: int) {
    p.sent || p.remainResendCount < resendCount
  }

  function WeightOf(w: Weight, p: Packet): nat {
    match w
    case Bytes => p.Size()
    case Unsent => if p.sent then 0 else 1
    case Tried(m, n) => if WasTried(p, n) && p.measureIndex == m then p.Size() else 0
    case InFlight(m) => if p.sent && p.measureIndex == m then p.Size() else 0
  }

  ghost function AnyKey(m: map<nat, Packet>): (k: nat)
    requires |m| > 0
    ensures k in m
  {
    var k :| k in m.Keys;
    k
  }

  ghost function Total(m: map<nat, Packet>, w: Weight): nat
    decreases |m|
  {
    if |m| == 0 then 0
    else
      var k := AnyKey(m);
      WeightOf(w, m[k]) + Total(m - {k}, w)
  }

  /** The sum does not depend on the order in which keys are taken. */
  lemma {:induction false} TotalRemove(m: map<nat, Packet>, k: nat, w: Weight)
    requires k in m
    ensures Total(m, w) == WeightOf(w, m[k]) + Total(m - {k}, w)
    decreases |m|
  {
    var c := AnyKey(m);
    if c != k {
      TotalRemove(m - {c}, k, w);
      TotalRemove(m - {k}, c, w);
      assert m - {c} - {k} == m - {k} - {c};
    }
  }

  lemma TotalInsert(m: map<nat, Packet>, k: nat, p: Packet, w: Weight)
    requires k !in m
    ensures Total(m[k := p], w) == Total(m, w) + WeightOf(w, p)
  {
    TotalRemove(m[k := p], k, w);
    assert m[k := p] - {k} == m;
  }

  lemma TotalUpdate(m: map<nat, Packet>, k: nat, p: Packet, w: Weight)
    requires k in m
    ensures Total(m[k := p], w) == Total(m, w) - WeightOf(w, m[k]) + WeightOf(w, p)
  {
    TotalRemove(m, k, w);
    TotalRemove(m[k := p], k, w);
    assert m[k := p] - {k} == m - {k};
  }

  lemma {:induction false} TotalZero(m: map<nat, Packet>, w: Weight)
    requires forall k :: k in m ==> WeightOf(w, m[k]) == 0
    ensures Total(m, w) == 0
    decreases |m|
  {
    if |m| > 0 {
      var k := AnyKey(m);
      TotalZero(m - {k}, w);
    }
  }

  /** A positive weight somewhere makes the sum positive, and conversely. */
  lemma {:induction false} TotalPositive(m: map<nat, Packet>, w: Weight)
    ensures Total(m, w) > 0 <==> exists k: nat :: k in m && WeightOf(w, m[k]) > 0
  {
    if k :| k in m && WeightOf(w, m[k]) > 0 {
      TotalRemove(m, k, w);
    } else {
      TotalZero(m, w);
    }
  }

  /** A sum splits over a partition of the keys. */
  lemma {:induction false} TotalSplit(m: map<nat, Packet>, a: map<nat, Packet>, b: map<nat, Packet>, w: Weight)
    requires forall k: nat :: k in m <==> k in a || k in b
    requires forall k: nat :: k in a ==> k !in b && m[k] == a[k]
    requires forall k: nat :: k in b ==> m[k] == b[k]
    ensures Total(m, w) == Total(a, w) + Total(b, w)
    decreases |a|
  {
    if |a| == 0 {
      assert forall k: nat :: k !in a.Keys;
      assert m.Keys == b.Keys;
      assert m == b;
    } else {
      hide Total;
      var k := AnyKey(a);
      TotalRemove(m, k, w);
      TotalRemove(a, k, w);
      TotalSplit(m - {k}, a - {k}, b, w);
    }
  }

  /** A sum in which only the keys of s count, each for at most limit. */
  lemma {:induction false} TotalBound(m: map<nat, Packet>, s: set<nat>, limit: nat, w: Weight)
    requires s <= m.Keys
    requires forall k: nat :: k in m ==> WeightOf(w, m[k]) <= if k in s then limit else 0
    ensures Total(m, w) <= |s| * limit
    decreases |m|
  {
    hide Total, WeightOf;
    if |m| == 0 {
      TotalZero(m, w);
      Distribute(0, limit);
    } else {
      var k := AnyKey(m);
      TotalRemove(m, k, w);
      TotalBound(m - {k}, s - {k}, limit, w);
      if k in s {
        assert |s| == |s - {k}| + 1;
        Distribute(|s - {k}|, limit);
      } else {
        assert s - {k} == s;
      }
    }
  }

  lemma Distribute(n: nat, limit: nat)
    ensures (n + 1) * limit == n * limit + limit
  {
  }

  function Range(lo: nat, n: nat): (s: set<nat>)
    ensures |s| == n
    ensures forall k :: k in s <==> lo <= k < lo + n
  {
    if n == 0 then {} else Range(lo, n - 1) + {lo + n - 1}
  }

  // ---------- sums over the confirmation queue ----------

  ghost function QueueBytes(q: seq<Packet>): nat {
    if q == [] then 0 else q[0].Size() + QueueBytes(q[1..])
  }

  lemma {:induction false} QueueBytesAppend(q: seq<Packet>, r: seq<Packet>)
    ensures QueueBytes(q + r) == QueueBytes(q) + QueueBytes(r)
  {
    if q == [] {
      assert q + r == r;
    } else {
      assert (q + r)[1..] == q[1..] + r;
      QueueBytesAppend(q[1..], r);
    }
  }
}
