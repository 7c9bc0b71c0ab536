/** Rate control: a table of measurement windows and the interval between
    datagrams that a finished window sets. Doubles are modelled as reals. */
module Rates {
  import opened Base

  datatype Measure = Measure(
    beginUs: int,
    endUs: int,
    count: int,
    size: int,
    successSize: int,
    failSize: int,
    summaryIntervalUs: int
  )

  const NEW_MEASURE := Measure(-1, -1, 0, 0, 0, 0, 0)

  datatype Rate = Rate(
    intervalUs: int,                // udpSendIntervalUs
    intervalFloat: real,            // udpSendIntervalUsFloat
    index: nat,                     // udpSendMeasureIndex
    measures: map<nat, Measure>     // udpSendMeasures
  )

  function InitialRate(intervalUs: int, now: int): Rate {
    Rate(intervalUs, intervalUs as real, 0, map[0 := NEW_MEASURE.(beginUs := now)])
  }

  // ---------- the code ----------

  /** `onUdpSent`. */
  function OnSent(cfg: Config, r: Rate, measureIndex: int, intervalUs: int, size: int, now: int): Rate {
    if measureIndex != r.index || r.index !in r.measures then r
    else
      var before := r.measures[r.index];
      var m := before.(count := before.count + 1, size := before.size + size,
                    summaryIntervalUs := before.summaryIntervalUs + intervalUs);
      if m.size >= cfg.udpMaxSentMeasureSize || now - m.beginUs >= cfg.udpMaxSentMeasureUs then
        r.(index := r.index + 1,
           measures := r.measures[r.index := m.(endUs := now)][r.index + 1 := NEW_MEASURE.(beginUs := now)])
      else
        r.(measures := r.measures[r.index := m])
  }

  function Credit(m: Measure, success: bool, size: int): Measure {
    if success then m.(successSize := m.successSize + size) else m.(failSize := m.failSize + size)
  }

  /** A closed window all of whose bytes are accounted for. */
  predicate Answered(m: Measure) {
    m.beginUs >= 0 && m.endUs >= m.beginUs && m.count > 0 && m.successSize + m.failSize >= m.size
  }

  /** The mean planned interval of the window's datagrams. */
  function PlannedInterval(m: Measure): real
    requires m.count > 0
  {
    m.summaryIntervalUs as real / m.count as real
  }

  /** What the speed is multiplied with. With size 0 the quotient of the code is not a
      number; it is replaced before use because nothing can have failed then. */
  function Amplifier(cfg: Config, m: Measure): real
    requires m.count > 0
  {
    var successPart := if m.size == 0 then 0.0 else m.successSize as real / m.size as real;
    var a0 := successPart / (1.0 - 0.01 * cfg.udpMaxSendLossPercent);
    var a1 := if m.failSize <= 0 then 2.0 else a0;
    var actual := (m.endUs - m.beginUs) as real / m.count as real;
    var a2 := if a1 > 1.0 && actual > (PlannedInterval(m) + 1.0) * 2.0 then 1.0 else a1;
    var a3 := if a2 < 0.5 then 0.5 else a2;
    if a3 > 2.0 then 2.0 else a3
  }

  /** The interval before the clamps: planned / amplifier with a constant speed added. */
  function NextInterval(planned: real, amplifier: real, maxInterval: real): real
    requires amplifier > 0.0 && maxInterval > 0.0
  {
    var f := planned / amplifier;
    var d := 1.0 + 1.0 / maxInterval * f;
    if d == 0.0 then f else f / d  // zero only for a negative interval, which no measure holds
  }

  function Clamp(x: real, maxInterval: real): real {
    var low := if x < 0.1 then 0.1 else x;
    if low > maxInterval then maxInterval else low
  }

  /** `round` of a value that is not negative. */
  function Round(x: real): int { (x + 0.5).Floor }

  lemma AmplifierRange(cfg: Config, m: Measure)
    requires m.count > 0
    ensures 0.5 <= Amplifier(cfg, m) <= 2.0
  {
  }

  function SetInterval(cfg: Config, m: Measure): real
    requires m.count > 0
  {
    AmplifierRange(cfg, m);
    Clamp(NextInterval(PlannedInterval(m), Amplifier(cfg, m), MaxInterval(cfg)), MaxInterval(cfg))
  }

  /** `onUdpDelivered`: an answered window sets the interval, and it and every older
      window are erased. */
  function OnDelivered(cfg: Config, r: Rate, success: bool, measureIndex: int, size: int): Rate {
    if measureIndex < 0 || measureIndex !in r.measures then r
    else
      var m := Credit(r.measures[measureIndex], success, size);
      var credited := r.measures[measureIndex := m];
      if Answered(m) then
        var x := SetInterval(cfg, m);
        Rate(Round(x), x, r.index, map k | k in credited && k > measureIndex :: credited[k])
      else
        r.(measures := credited)
  }

  // ---------- the table ----------

  predicate MeasureOk(m: Measure, isOpen: bool) {
    && m.beginUs >= 0
    && (if isOpen then m.endUs == -1 else m.endUs >= m.beginUs)
    && m.count >= 0 && m.size >= 0 && m.successSize >= 0 && m.failSize >= 0 && m.summaryIntervalUs >= 0
  }

  /** The live windows are consecutive and end with the current one, the only open one. */
  predicate RateOk(r: Rate) {
    && r.intervalUs >= 0
    && r.index in r.measures
    && (forall k: nat :: k in r.measures ==> k <= r.index && MeasureOk(r.measures[k], k == r.index))
    && (forall k: nat, j: nat :: k in r.measures && k <= j <= r.index ==> j in r.measures)
  }

  lemma OnSentKeeps(cfg: Config, r: Rate, measureIndex: int, size: int, now: int)
    requires RateOk(r) && size >= 0 && now >= 0
    requires r.measures[r.index].beginUs <= now
    ensures RateOk(OnSent(cfg, r, measureIndex, r.intervalUs, size, now))
    ensures OnSent(cfg, r, measureIndex, r.intervalUs, size, now).intervalUs == r.intervalUs
  {
  }

  lemma ClampRange(x: real, maxInterval: real)
    requires maxInterval >= 1.0
    ensures 0.1 <= Clamp(x, maxInterval) <= maxInterval
    ensures 0 <= Round(Clamp(x, maxInterval)) && Round(Clamp(x, maxInterval)) as real <= maxInterval + 0.5
  {
  }

  lemma OnDeliveredKeeps(cfg: Config, r: Rate, success: bool, measureIndex: int, size: int)
    requires RateOk(r) && size >= 0
    ensures RateOk(OnDelivered(cfg, r, success, measureIndex, size))
    ensures OnDelivered(cfg, r, success, measureIndex, size).index == r.index
    ensures OnDelivered(cfg, r, success, measureIndex, size).measures.Keys <= r.measures.Keys
  {
    if measureIndex >= 0 && measureIndex in r.measures {
      var m := Credit(r.measures[measureIndex], success, size);
      if Answered(m) {
        assert measureIndex < r.index;
        AmplifierRange(cfg, m);
        ClampRange(NextInterval(PlannedInterval(m), Amplifier(cfg, m), MaxInterval(cfg)), MaxInterval(cfg));
      }
    }
  }

  /** A closed measure leaves the table exactly when all it sent is answered, together with
      every older one; otherwise the interval stays and only the answer is counted. */
  lemma ErasedWhenAnswered(cfg: Config, r: Rate, success: bool, measureIndex: nat, size: nat)
    requires RateOk(r) && measureIndex in r.measures
    ensures var f := OnDelivered(cfg, r, success, measureIndex, size);
      var m := r.measures[measureIndex];
      if measureIndex < r.index && m.count > 0 && m.successSize + m.failSize + size >= m.size then
        forall k: nat :: k in f.measures <==> k in r.measures && k > measureIndex
      else
        && f.intervalUs == r.intervalUs && f.measures.Keys == r.measures.Keys
        && f.measures[measureIndex] == (if success then m.(successSize := m.successSize + size) else m.(failSize := m.failSize + size))
    ensures var f := OnDelivered(cfg, r, success, measureIndex, size);
      forall k: nat :: k in f.measures && k != measureIndex ==> k in r.measures && f.measures[k] == r.measures[k]
  {
    hide SetInterval, Round;
  }

  // ---------- the law of the rate ----------

  lemma MulAssoc(x: real, y: real, z: real)
    ensures (x * y) * z == x * (y * z)
  {
  }

  lemma Cancel(x: real, y: real, z: real)
    requires z > 0.0 && x * z == y * z
    ensures x == y
  {
    assert (x - y) * z == 0.0;
  }

  lemma MulMono(s: real, x: real, y: real)
    requires s > 0.0
    ensures x >= y ==> s * x >= s * y
    ensures x > y ==> s * x > s * y
  {
  }

  lemma Reciprocal(x: real, y: real)
    requires x > 0.0 && y > 0.0
    ensures x / y > 0.0 && 1.0 / (x / y) == y / x
  {
    var q := x / y;
    var p := y / x;
    DivPositive(x, y);
    MulAssoc(p, q, y);
    assert q * y == x && p * x == y;
    Cancel(p * q, 1.0, y);
    Cancel(1.0 / q, p, q);
  }

  /** Before clamping, a measure sets the speed to the amplifier times the measured
      speed plus the constant 1/max, so the interval stays below the maximum. */
  lemma SpeedLaw(planned: real, amplifier: real, maxInterval: real)
    requires planned > 0.0 && amplifier > 0.0 && maxInterval > 0.0
    ensures 0.0 < NextInterval(planned, amplifier, maxInterval) < maxInterval
    ensures 1.0 / NextInterval(planned, amplifier, maxInterval) == amplifier / planned + 1.0 / maxInterval
  {
    var f := planned / amplifier;
    var s := 1.0 / maxInterval;
    DivPositive(planned, amplifier);
    DivPositive(1.0, maxInterval);
    var d := 1.0 + s * f;
    assert s * f > 0.0;
    var x := NextInterval(planned, amplifier, maxInterval);
    DivPositive(f, d);
    Reciprocal(f, d);
    assert 1.0 / x == d / f;
    DivideSum(1.0, s * f, f);
    assert s * f / f == s;
    Reciprocal(planned, amplifier);
    assert 1.0 / x == amplifier / planned + s;
    DivPositive(amplifier, planned);
    BelowReciprocal(x, s, maxInterval);
  }

  lemma DivPositive(x: real, y: real)
    requires x > 0.0 && y > 0.0
    ensures x / y > 0.0
  {
  }

  lemma DivideSum(x: real, y: real, z: real)
    requires z > 0.0
    ensures (x + y) / z == x / z + y / z
  {
  }

  lemma BelowReciprocal(x: real, s: real, maxInterval: real)
    requires x > 0.0 && maxInterval > 0.0 && s == 1.0 / maxInterval && 1.0 / x > s
    ensures x < maxInterval
  {
    DivPositive(1.0, maxInterval);
    assert s * maxInterval == 1.0;
    assert x * (1.0 / x) == 1.0;
    MulMono(x, 1.0 / x, s);
    assert s * x < s * maxInterval;
    MulMono(s, x, maxInterval);
  }

  /** The upper clamp never changes the interval a measure sets, for any measure
      with datagrams planned in it; only the lower clamp can. */
  lemma UpperClampUnreachable(planned: real, amplifier: real, maxInterval: real)
    requires planned >= 0.0 && amplifier > 0.0 && maxInterval >= 1.0
    ensures var x := NextInterval(planned, amplifier, maxInterval);
      Clamp(x, maxInterval) == (if x < 0.1 then 0.1 else x) && Clamp(x, maxInterval) < maxInterval
  {
    if planned > 0.0 {
      SpeedLaw(planned, amplifier, maxInterval);
    } else {
      assert planned / amplifier == 0.0;
    }
  }

  /** A measure with datagrams planned in it sets the speed to the amplifier times the
      measured speed plus the constant, unless that is over ten datagrams a microsecond;
      the interval is that speed's, rounded, so it is zero exactly when the speed is over two. */
  lemma MeasureSetsSpeed(cfg: Config, r: Rate, success: bool, measureIndex: nat, size: nat)
    requires measureIndex in r.measures
    requires var m := Credit(r.measures[measureIndex], success, size); Answered(m) && m.summaryIntervalUs > 0
    ensures var m := Credit(r.measures[measureIndex], success, size);
      var most := (cfg.udpResendUs / 3) as real;
      var speed := Amplifier(cfg, m) / (m.summaryIntervalUs as real / m.count as real) + 1.0 / most;
      var after := OnDelivered(cfg, r, success, measureIndex, size);
      && 0.0 < after.intervalFloat < most
      && (speed <= 10.0 ==> 1.0 / after.intervalFloat == speed)
      && (speed > 10.0 ==> after.intervalFloat == 0.1)
      && after.intervalUs as real - 0.5 <= after.intervalFloat < after.intervalUs as real + 0.5
      && (after.intervalUs == 0 <==> speed > 2.0)
  {
    var m := Credit(r.measures[measureIndex], success, size);
    AmplifierRange(cfg, m);
    var planned, amplifier, most := PlannedInterval(m), Amplifier(cfg, m), MaxInterval(cfg);
    DivPositive(m.summaryIntervalUs as real, m.count as real);
    hide Amplifier, NextInterval;
    SpeedLaw(planned, amplifier, most);
    UpperClampUnreachable(planned, amplifier, most);
    var x := NextInterval(planned, amplifier, most);
    FasterIff(x, 0.1, 10.0);
    FasterIff(x, 0.5, 2.0);
  }

  /** An interval is below a bound exactly when its speed is above the bound's. */
  lemma FasterIff(x: real, bound: real, speed: real)
    requires x > 0.0 && bound > 0.0 && bound * speed == 1.0
    ensures x < bound <==> 1.0 / x > speed
  {
    var v := 1.0 / x;
    assert v * x == 1.0;
    DivPositive(1.0, x);
    MulMono(x, v, speed);
    assert x * speed == speed * x;
    if speed <= 0.0 {
      MulMono(bound, 0.0, speed);
      assert false;
    }
    MulMono(speed, x, bound);
    MulMono(speed, bound, x);
  }

  /** Without any pause planned the interval becomes zero. */
  lemma NoPauseRoundsToZero(cfg: Config, r: Rate, success: bool, measureIndex: nat, size: nat)
    requires measureIndex in r.measures
    requires var m := Credit(r.measures[measureIndex], success, size); Answered(m) && m.summaryIntervalUs == 0
    ensures OnDelivered(cfg, r, success, measureIndex, size).intervalUs == 0
  {
    var m := Credit(r.measures[measureIndex], success, size);
    AmplifierRange(cfg, m);
    hide Amplifier;
    assert PlannedInterval(m) == 0.0;
    assert 0.0 / Amplifier(cfg, m) == 0.0;
  }

  /** 64 full datagrams planned one microsecond apart, of which the last is still
      unanswered. */
  const FAST := Measure(0, 64, 64, 0x1_0000, 0x1_0000 - 0x400, 0, 64)

  /** The interval does become zero: with the default settings, when the last of those
      datagrams is confirmed. */
  lemma IntervalCanBeZero()
    ensures var r := Rate(1, 1.0, 1, map[0 := FAST, 1 := NEW_MEASURE.(beginUs := 64)]);
      RateOk(r) && OnDelivered(DEFAULTS, r, true, 0, 0x400).intervalUs == 0
  {
    var r := Rate(1, 1.0, 1, map[0 := FAST, 1 := NEW_MEASURE.(beginUs := 64)]);
    var m := Credit(FAST, true, 0x400);
    assert PlannedInterval(m) == 1.0;
    assert Amplifier(DEFAULTS, m) == 2.0;
    MeasureSetsSpeed(DEFAULTS, r, true, 0, 0x400);
  }

  /** A packet that expires and is confirmed while it waits to be sent again counts both
      ways: when it is the only one, the two sums together exceed what was sent. */
  lemma CountsBothWays(cfg: Config, r: Rate, size: nat)
    requires RateOk(r) && size > 0
    requires r.measures[r.index].size == size && r.measures[r.index].successSize == r.measures[r.index].failSize == 0
    ensures var expired := OnDelivered(cfg, r, false, r.index, size);
      var m := OnDelivered(cfg, expired, true, r.index, size).measures;
      r.index in m && m[r.index].successSize + m[r.index].failSize == 2 * size > m[r.index].size
  {
    hide SetInterval;
    var first := Credit(r.measures[r.index], false, size);
    assert !Answered(first) && !Answered(Credit(first, true, size));
  }

  /** Sent again before it is confirmed, it also counts twice as sent. */
  lemma ResendCountsAgain(cfg: Config, r: Rate, size: nat, now: int)
    requires RateOk(r) && size > 0
    requires r.measures[r.index].size == size && r.measures[r.index].successSize == r.measures[r.index].failSize == 0
    requires 2 * size < cfg.udpMaxSentMeasureSize && now - r.measures[r.index].beginUs < cfg.udpMaxSentMeasureUs
    ensures var expired := OnDelivered(cfg, r, false, r.index, size);
      var resent := OnSent(cfg, expired, r.index, r.intervalUs, size, now);
      var m := OnDelivered(cfg, resent, true, r.index, size).measures;
      r.index in m && m[r.index].successSize + m[r.index].failSize == 2 * size == m[r.index].size
  {
    hide SetInterval;
    var first := Credit(r.measures[r.index], false, size);
    assert !Answered(first);
    var expired := OnDelivered(cfg, r, false, r.index, size);
    var resent := OnSent(cfg, expired, r.index, r.intervalUs, size, now);
    assert !Answered(Credit(resent.measures[r.index], true, size));
  }

  /** The amplifier slows a connection down exactly when datagrams failed and the part
      that succeeded is below the part the loss setting asks for. */
  lemma SlowsDownIff(cfg: Config, m: Measure)
    requires m.count > 0 && m.size > 0 && m.successSize >= 0
    ensures Amplifier(cfg, m) < 1.0 <==>
      m.failSize > 0 && m.successSize as real / m.size as real < 1.0 - 0.01 * cfg.udpMaxSendLossPercent
  {
    var wanted := 1.0 - 0.01 * cfg.udpMaxSendLossPercent;
    var part := m.successSize as real / m.size as real;
    QuotientBelowOne(part, wanted);
  }

  lemma QuotientBelowOne(x: real, y: real)
    requires y > 0.0
    ensures x / y < 1.0 <==> x < y
  {
    assert y * (x / y) == x && y * 1.0 == y;
    MulMono(y, 1.0, x / y);
  }

  lemma ProductOfQuotient(s: real, size: real, wanted: real)
    requires size > 0.0 && wanted > 0.0
    ensures s / size / wanted * (size * wanted) == s && size * wanted > 0.0
  {
    var x := s / size;
    var q := x / wanted;
    assert x * size == s && q * wanted == x;
    assert q * (size * wanted) == (q * wanted) * size;
  }

  lemma CompareProducts(q: real, w: real, bound: real, s: real)
    requires w > 0.0 && q * w == s
    ensures q < bound <==> s < bound * w
    ensures q > bound <==> s > bound * w
  {
    MulMono(w, q, bound);
    MulMono(w, bound, q);
    assert w * q == s && w * bound == bound * w;
  }

  /** The sends of the measure took more than twice their planned intervals and a
      microsecond each. */
  predicate TookLong(m: Measure) {
    (m.endUs - m.beginUs) as real > 2.0 * (m.summaryIntervalUs + m.count) as real
  }

  lemma TookLongIff(m: Measure)
    requires m.count > 0
    ensures TookLong(m) <==> (m.endUs - m.beginUs) as real / m.count as real > (PlannedInterval(m) + 1.0) * 2.0
  {
    var c, d, s := m.count as real, (m.endUs - m.beginUs) as real, m.summaryIntervalUs as real;
    var actual, bound := d / c, (s / c + 1.0) * 2.0;
    assert actual * c == d && s / c * c == s;
    assert bound * c == 2.0 * (s + c) by {
      TwiceSum(s / c, c, s);
    }
    assert (m.summaryIntervalUs + m.count) as real == s + c;
    CompareProducts(actual, c, bound, d);
  }

  lemma TwiceSum(p: real, c: real, s: real)
    requires p * c == s
    ensures (p + 1.0) * 2.0 * c == 2.0 * (s + c)
  {
    assert (p + 1.0) * 2.0 * c == 2.0 * (p * c) + 2.0 * c;
  }

  /** The whole amplifier, without quotients: with nothing failed the speed is doubled;
      otherwise it follows the part that succeeded of the part the loss setting asks for,
      between a half and two; and it never grows when the sends took too long. */
  lemma AmplifierValue(cfg: Config, m: Measure)
    requires m.count > 0 && m.size > 0 && m.successSize >= 0
    ensures var a, s := Amplifier(cfg, m), m.successSize as real;
      var w := m.size as real * (1.0 - 0.01 * cfg.udpMaxSendLossPercent);
      && (m.failSize <= 0 ==> a == if TookLong(m) then 1.0 else 2.0)
      && (m.failSize > 0 ==>
            && (s <= 0.5 * w ==> a == 0.5)
            && (0.5 * w < s <= w ==> a * w == s)
            && (s > w && TookLong(m) ==> a == 1.0)
            && (w < s < 2.0 * w && !TookLong(m) ==> a * w == s)
            && (s >= 2.0 * w && !TookLong(m) ==> a == 2.0))
  {
    hide TookLong;
    var wanted := 1.0 - 0.01 * cfg.udpMaxSendLossPercent;
    var s, w := m.successSize as real, m.size as real * wanted;
    var q := s / m.size as real / wanted;
    ProductOfQuotient(s, m.size as real, wanted);
    CompareProducts(q, w, 0.5, s);
    CompareProducts(q, w, 1.0, s);
    CompareProducts(q, w, 2.0, s);
    TookLongIff(m);
  }

  // ---------- fairness ----------

  function Power(a: real, n: nat): real {
    if n == 0 then 1.0 else a * Power(a, n - 1)
  }

  function Abs(x: real): real { if x < 0.0 then -x else x }

  /** The interval after n measures that all find the same amplifier, each measuring
      the interval the one before it set. */
  function AfterMeasures(interval: real, a: real, maxInterval: real, n: nat): (x: real)
    requires interval > 0.0 && a > 0.0 && maxInterval > 0.0
    ensures x > 0.0
  {
    if n == 0 then interval
    else
      var before := AfterMeasures(interval, a, maxInterval, n - 1);
      SpeedLaw(before, a, maxInterval);
      NextInterval(before, a, maxInterval)
  }

  lemma ScaleDifference(a: real, v: real, w: real)
    requires a > 0.0
    ensures Abs(a * v - a * w) == a * Abs(v - w)
  {
    assert a * v - a * w == a * (v - w);
  }

  lemma DivideAsMultiply(a: real, x: real)
    requires x > 0.0
    ensures a / x == a * (1.0 / x)
  {
    assert (1.0 / x) * x == 1.0 && a / x * x == a;
    MulAssoc(a, 1.0 / x, x);
    Cancel(a / x, a * (1.0 / x), x);
  }

  /** The speed after n measures, in datagrams per microsecond. */
  function Speed(interval: real, a: real, maxInterval: real, n: nat): real
    requires interval > 0.0 && a > 0.0 && maxInterval > 0.0
  {
    1.0 / AfterMeasures(interval, a, maxInterval, n)
  }

  lemma SpeedStep(interval: real, a: real, maxInterval: real, n: nat)
    requires interval > 0.0 && a > 0.0 && maxInterval > 0.0 && n > 0
    ensures Speed(interval, a, maxInterval, n) == a * Speed(interval, a, maxInterval, n - 1) + 1.0 / maxInterval
  {
    var before := AfterMeasures(interval, a, maxInterval, n - 1);
    SpeedLaw(before, a, maxInterval);
    DivideAsMultiply(a, before);
  }

  lemma GapStep(a: real, v: real, w: real, v': real, w': real, s: real, p: real, p': real, g: real)
    requires a > 0.0 && Abs(v - w) == p * g
    requires v' == a * v + s && w' == a * w + s && p' == a * p
    ensures Abs(v' - w') == p' * g
  {
    ScaleDifference(a, v, w);
    assert v' - w' == a * v - a * w;
    MulAssoc(a, p, g);
  }

  /** The gap between two speeds after n measures is part times the gap at the start. */
  ghost predicate GapIs(x: real, y: real, a: real, maxInterval: real, n: nat, part: real)
    requires x > 0.0 && y > 0.0 && a > 0.0 && maxInterval > 0.0
  {
    Abs(Speed(x, a, maxInterval, n) - Speed(y, a, maxInterval, n))
    == part * Abs(Speed(x, a, maxInterval, 0) - Speed(y, a, maxInterval, 0))
  }

  lemma GapAtStart(x: real, y: real, a: real, maxInterval: real, part: real)
    requires x > 0.0 && y > 0.0 && a > 0.0 && maxInterval > 0.0 && part == 1.0
    ensures GapIs(x, y, a, maxInterval, 0, part)
  {
    hide Speed, Abs;
    var gap := Abs(Speed(x, a, maxInterval, 0) - Speed(y, a, maxInterval, 0));
    assert gap == part * gap;
  }

  lemma GapAfterOne(x: real, y: real, a: real, maxInterval: real, n: nat, part: real, part': real)
    requires x > 0.0 && y > 0.0 && a > 0.0 && maxInterval > 0.0 && n > 0
    requires GapIs(x, y, a, maxInterval, n - 1, part) && part' == a * part
    ensures GapIs(x, y, a, maxInterval, n, part')
  {
    hide Speed, Abs;
    SpeedStep(x, a, maxInterval, n);
    SpeedStep(y, a, maxInterval, n);
    GapStep(a, Speed(x, a, maxInterval, n - 1), Speed(y, a, maxInterval, n - 1),
            Speed(x, a, maxInterval, n), Speed(y, a, maxInterval, n), 1.0 / maxInterval,
            part, part', Abs(Speed(x, a, maxInterval, 0) - Speed(y, a, maxInterval, 0)));
  }

  /** The constant added to both speeds cancels: the gap between the speeds of two
      connections with equal amplifiers is multiplied by the amplifier in every measure. */
  lemma {:induction false} SpeedGap(x: real, y: real, a: real, maxInterval: real, n: nat)
    requires x > 0.0 && y > 0.0 && a > 0.0 && maxInterval > 0.0
    ensures GapIs(x, y, a, maxInterval, n, Power(a, n))
  {
    var part := Power(a, n);
    hide GapIs;
    if n == 0 {
      GapAtStart(x, y, a, maxInterval, part);
    } else {
      SpeedGap(x, y, a, maxInterval, n - 1);
      GapAfterOne(x, y, a, maxInterval, n, Power(a, n - 1), part);
    }
  }

  /** With an amplifier below one the gap shrinks strictly and never is gone. */
  lemma {:induction false} PowerShrinks(a: real, n: nat)
    requires 0.0 < a < 1.0
    ensures 0.0 < Power(a, n) <= 1.0
    ensures n > 0 ==> Power(a, n) < Power(a, n - 1)
  {
    if n > 0 {
      PowerShrinks(a, n - 1);
      var p := Power(a, n - 1);
      MulMono(p, 1.0, a);
      assert p * a == a * p;
    }
  }

  lemma {:induction false} PowerBelowHarmonic(a: real, h: real, n: nat)
    requires 0.0 < a < 1.0 && h > 0.0 && a * (1.0 + h) == 1.0
    ensures Power(a, n) * (1.0 + n as real * h) <= 1.0
  {
    if n > 0 {
      PowerBelowHarmonic(a, h, n - 1);
      PowerShrinks(a, n - 1);
      var p, k := Power(a, n - 1), (n - 1) as real;
      HarmonicStep(a, h, k, p);
    }
  }

  lemma HarmonicStep(a: real, h: real, k: real, p: real)
    requires 0.0 < a && h > 0.0 && k >= 0.0 && p > 0.0 && a * (1.0 + h) == 1.0
    requires p * (1.0 + k * h) <= 1.0
    ensures (a * p) * (1.0 + (k + 1.0) * h) <= 1.0
  {
    var x := 1.0 + (k + 1.0) * h;
    var y := 1.0 + k * h;
    assert x <= (1.0 + h) * y by {
      assert (1.0 + h) * y == 1.0 + h + k * h + h * (k * h);
      assert k * h >= 0.0;
      assert h * (k * h) >= 0.0;
    }
    MulMono(a, (1.0 + h) * y, x);
    MulAssoc(a, 1.0 + h, y);
    assert a * x <= y;
    MulMono(p, y, a * x);
    assert (a * p) * x == p * (a * x);
  }

  /** From the n-th power on all are below eps. */
  ghost predicate StaysBelow(a: real, eps: real, n: nat) {
    forall m: nat :: m >= n ==> Power(a, m) < eps
  }

  lemma ExcessOf(a: real) returns (h: real)
    requires 0.0 < a < 1.0
    ensures h > 0.0 && a * (1.0 + h) == 1.0
  {
    h := 1.0 / a - 1.0;
    assert a * (1.0 / a) == 1.0;
    MulMono(a, 1.0, 1.0 / a);
  }

  lemma SmallerFactor(p: real, y: real, eps: real)
    requires y > 0.0 && y * p < y * eps
    ensures p < eps
  {
    MulMono(y, p, eps);
  }

  lemma BelowBound(p: real, m: real, h: real, eps: real, q: real)
    requires h > 0.0 && eps > 0.0 && q * (h * eps) == 1.0 && m > q && q > 0.0 && p > 0.0
    requires p * (1.0 + m * h) <= 1.0
    ensures p < eps
  {
    var u, v, y := h * eps, eps * (m * h), 1.0 + m * h;
    MulMono(u, m, q);
    var w := u * q;
    assert w == 1.0 && u * m == v;
    assert m * h > 0.0;
    var most, part := y * eps, p * y;
    assert most == eps + v;
    assert v > 1.0;
    assert part == y * p;
    assert part < most;
    SmallerFactor(p, y, eps);
  }

  /** The gap falls below every bound. */
  lemma PowerVanishes(a: real, eps: real)
    requires 0.0 < a < 1.0 && eps > 0.0
    ensures exists n: nat :: StaysBelow(a, eps, n)
  {
    var h := ExcessOf(a);
    assert h * eps > 0.0;
    var q := 1.0 / (h * eps);
    DivPositive(1.0, h * eps);
    assert q * (h * eps) == 1.0;
    var n: nat := q.Floor + 1;
    forall m: nat | m >= n
      ensures Power(a, m) < eps
    {
      hide Power;
      PowerShrinks(a, m);
      PowerBelowHarmonic(a, h, m);
      BelowBound(Power(a, m), m as real, h, eps, q);
    }
    assert StaysBelow(a, eps, n);
  }
}
