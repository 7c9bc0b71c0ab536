/** The base-128 integer-pair codec of packet.cpp: `packIntPair` writes into a
    buffer through a cursor, `unpackIntPair` reads through one. Values are 32-bit
    two's complement `int`s; digits are big-endian, and every digit but the last
    carries the continuation bit. */
module IntPair {
  import opened Base

  const INT_LIMIT := 0x8000_0000

  // ---------- specification ----------

  /** The digits of n, each with its continuation bit set. */
  function HighDigits(n: nat): seq<byte> {
    if n == 0 then [] else HighDigits(n / 128) + [128 + n % 128]
  }

  function Encode(n: nat): (r: seq<byte>)
    ensures |r| >= 1
  {
    HighDigits(n / 128) + [n % 128]
  }

  /** A shift out of the sign bit wraps. */
  function Wrap32(x: int): int {
    (x + INT_LIMIT) % 0x1_0000_0000 - INT_LIMIT
  }

  datatype Number = Bad | Number(value: int, end: nat)

  /** One inner loop of `unpackIntPair` from digit number i on: the value read so
      far is acc and the next digit is s[pos]. */
  function ReadNumber(s: seq<byte>, pos: nat, i: nat, acc: int): Number
    decreases |s| - pos
  {
    if pos >= |s| then Bad
    else
      var acc' := Wrap32(acc * 128 + s[pos] % 128);
      if s[pos] < 128 then Number(acc', pos + 1)
      else if acc' < 0 || i >= 5 then Bad
      else ReadNumber(s, pos + 1, i + 1, acc')
  }

  datatype Pair = NoPair | Pair(a: int, b: int, end: nat)

  function ReadPair(s: seq<byte>, pos: nat): Pair {
    match ReadNumber(s, pos, 0, 0)
    case Bad => NoPair
    case Number(a, mid) =>
      match ReadNumber(s, mid, 0, 0)
      case Bad => NoPair
      case Number(b, end) => Pair(a, b, end)
  }

  // ---------- sizes ----------

  function Pow128(k: nat): nat {
    if k == 0 then 1 else 128 * Pow128(k - 1)
  }

  /** An encoding of k digits stands for a number below 128^k, and no fewer digits do. */
  lemma {:induction false} DigitCount(n: nat)
    ensures n < Pow128(|Encode(n)|)
    ensures |Encode(n)| > 1 ==> Pow128(|Encode(n)| - 1) <= n
  {
    if n >= 128 {
      DigitCount(n / 128);
      assert |Encode(n)| == 1 + |Encode(n / 128)|;
    }
  }

  lemma {:induction false} PowMonotone(j: nat, k: nat)
    requires j <= k
    ensures Pow128(j) <= Pow128(k)
  {
    if j < k {
      PowMonotone(j, k - 1);
    }
  }

  lemma EncodeAtMostFive(n: nat)
    requires n < INT_LIMIT
    ensures |Encode(n)| <= 5
  {
    DigitCount(n);
    assert Pow128(5) == 128 * 128 * 128 * 128 * 128;
    if |Encode(n)| > 5 {
      PowMonotone(5, |Encode(n)| - 1);
      assert false;
    }
  }

  // ---------- reading back ----------

  /** Reading the leading digits of n leaves the accumulator at n. */
  lemma {:induction false} ReadHighDigits(n: nat, s: seq<byte>, pos: nat)
    requires n < 0x100_0000
    requires pos + |HighDigits(n)| <= |s|
    requires s[pos..pos + |HighDigits(n)|] == HighDigits(n)
    ensures |HighDigits(n)| <= 4
    ensures ReadNumber(s, pos, 0, 0) == ReadNumber(s, pos + |HighDigits(n)|, |HighDigits(n)|, n)
  {
    hide ReadNumber, Wrap32;
    if n != 0 {
      var k := |HighDigits(n / 128)|;
      assert HighDigits(n)[..k] == HighDigits(n / 128);
      assert s[pos..pos + k] == s[pos..pos + k + 1][..k];
      HighDigitsBound(n);
      ReadHighDigits(n / 128, s, pos);
      assert s[pos + k] == HighDigits(n)[k] == 128 + n % 128;
      ReadMiddleDigit(s, pos + k, k, n / 128);
      assert n / 128 * 128 + n % 128 == n;
    }
  }

  lemma ReadMiddleDigit(s: seq<byte>, pos: nat, i: nat, acc: nat)
    requires pos < |s| && s[pos] >= 128 && i < 5
    requires acc * 128 + s[pos] % 128 < INT_LIMIT
    ensures ReadNumber(s, pos, i, acc) == ReadNumber(s, pos + 1, i + 1, acc * 128 + s[pos] % 128)
  {
    WrapInRange(acc * 128 + s[pos] % 128);
  }

  lemma HighDigitsBound(n: nat)
    requires n < 0x100_0000
    ensures |HighDigits(n)| <= 4
  {
    if n >= 128 {
      assert HighDigits(n) == HighDigits(n / 128) + [128 + n % 128];
      EncodeAtMostThree(n / 128);
    } else if n > 0 {
      assert HighDigits(n / 128) == [];
    }
  }

  lemma EncodeAtMostThree(n: nat)
    requires n < 0x2_0000
    ensures |HighDigits(n)| <= 3
  {
    if n >= 128 {
      var m := n / 128;
      assert m < 1024;
      assert m / 128 < 8;
      assert HighDigits(m / 128 / 128) == [];
    } else if n > 0 {
      assert HighDigits(n / 128) == [];
    }
  }

  lemma ReadEncoded(n: nat, s: seq<byte>, pos: nat)
    requires n < INT_LIMIT
    requires pos + |Encode(n)| <= |s|
    requires s[pos..pos + |Encode(n)|] == Encode(n)
    ensures ReadNumber(s, pos, 0, 0) == Number(n, pos + |Encode(n)|)
  {
    hide ReadNumber, Wrap32;
    var k := |HighDigits(n / 128)|;
    assert Encode(n)[..k] == HighDigits(n / 128);
    assert s[pos..pos + k] == s[pos..pos + k + 1][..k];
    assert n / 128 < 0x100_0000;
    ReadHighDigits(n / 128, s, pos);
    assert s[pos + k] == Encode(n)[k] == n % 128;
    ReadLastDigit(s, pos + k, k, n / 128);
    assert n / 128 * 128 + n % 128 == n;
  }

  lemma ReadLastDigit(s: seq<byte>, pos: nat, i: nat, acc: nat)
    requires pos < |s| && s[pos] < 128 && acc < 0x100_0000
    ensures ReadNumber(s, pos, i, acc) == Number(acc * 128 + s[pos], pos + 1)
  {
    WrapInRange(acc * 128 + s[pos]);
  }

  lemma WrapInRange(x: int)
    requires -INT_LIMIT <= x < INT_LIMIT
    ensures Wrap32(x) == x
  {
  }

  /** Unpacking what was packed gives the pair back, whatever bytes come before
      and after it, and stops right behind it. */
  lemma RoundTripAt(a: nat, b: nat, s: seq<byte>, pos: nat)
    requires a < INT_LIMIT && b < INT_LIMIT
    requires pos + |Encode(a) + Encode(b)| <= |s|
    requires s[pos..pos + |Encode(a) + Encode(b)|] == Encode(a) + Encode(b)
    ensures ReadPair(s, pos) == Pair(a, b, pos + |Encode(a) + Encode(b)|)
  {
    var mid := pos + |Encode(a)|;
    var end := mid + |Encode(b)|;
    assert s[pos..mid] == s[pos..end][..|Encode(a)|] == Encode(a);
    assert s[mid..end] == s[pos..end][|Encode(a)|..] == Encode(b);
    ReadEncoded(a, s, pos);
    ReadEncoded(b, s, mid);
  }

  /** A successful read consumes at least one byte per number, so the loop that
      reads a confirmation's pairs terminates. */
  lemma {:induction false} ReadNumberEnd(s: seq<byte>, pos: nat, i: nat, acc: int)
    ensures var r := ReadNumber(s, pos, i, acc);
      r.Number? ==> pos < r.end <= |s| && -INT_LIMIT <= r.value < INT_LIMIT
    decreases |s| - pos
  {
    if pos < |s| {
      ReadNumberEnd(s, pos + 1, i + 1, Wrap32(acc * 128 + s[pos] % 128));
    }
  }

  lemma ReadPairProgress(s: seq<byte>, pos: nat)
    ensures var r := ReadPair(s, pos);
      r.Pair? ==> pos + 2 <= r.end <= |s|
  {
    ReadNumberEnd(s, pos, 0, 0);
    var r := ReadNumber(s, pos, 0, 0);
    if r.Number? {
      ReadNumberEnd(s, r.end, 0, 0);
    }
  }

  /** Before a digit can leave the 32-bit range, the value is below 128 to the
      number of digits read. */
  lemma {:induction false} ReadNumberSize(s: seq<byte>, pos: nat, i: nat, acc: int)
    requires i <= 4 && 0 <= acc < Pow128(i)
    ensures var r := ReadNumber(s, pos, i, acc);
      r.Number? && r.end >= pos && i + (r.end - pos) <= 4 ==> 0 <= r.value < Pow128(i + (r.end - pos))
    decreases |s| - pos
  {
    if pos < |s| && i < 4 {
      PowMonotone(i + 1, 4);
      assert Pow128(4) == 128 * 128 * 128 * 128;
      var acc' := acc * 128 + s[pos] % 128;
      assert 0 <= acc' < Pow128(i + 1);
      assert Wrap32(acc') == acc';
      ReadNumberEnd(s, pos + 1, i + 1, acc');
      if s[pos] >= 128 {
        ReadNumberSize(s, pos + 1, i + 1, acc');
      }
    } else if pos < |s| {
      ReadNumberEnd(s, pos, i, acc);
    }
  }

  /** No byte string that reads back as n is shorter than its encoding. */
  lemma EncodeIsMinimal(n: nat, s: seq<byte>, pos: nat)
    requires n < INT_LIMIT
    requires var r := ReadNumber(s, pos, 0, 0); r.Number? && r.value == n
    ensures ReadNumber(s, pos, 0, 0).end - pos >= |Encode(n)|
  {
    var len := ReadNumber(s, pos, 0, 0).end - pos;
    ReadNumberEnd(s, pos, 0, 0);
    EncodeAtMostFive(n);
    DigitCount(n);
    if len < |Encode(n)| {
      ReadNumberSize(s, pos, 0, 0);
      PowMonotone(len, |Encode(n)| - 1);
      assert false;
    }
  }

  // ---------- the code ----------

  function Pow2(k: nat): nat {
    if k == 0 then 1 else 2 * Pow2(k - 1)
  }

  lemma {:induction false} Pow2Of7(k: nat)
    ensures Pow2(7 * k) == Pow128(k)
  {
    if k > 0 {
      Pow2Of7(k - 1);
      var m := 7 * (k - 1);
      assert Pow2(m + 7) == 2 * Pow2(m + 6) && Pow2(m + 6) == 2 * Pow2(m + 5) && Pow2(m + 5) == 2 * Pow2(m + 4);
      assert Pow2(m + 4) == 2 * Pow2(m + 3) && Pow2(m + 3) == 2 * Pow2(m + 2) && Pow2(m + 2) == 2 * Pow2(m + 1);
    }
  }

  lemma {:induction false} Pow2Monotone(j: nat, k: nat)
    requires j <= k
    ensures Pow2(j) <= Pow2(k)
  {
    if j < k {
      Pow2Monotone(j, k - 1);
    }
  }

  lemma TopBit(a: nat, half: nat)
    requires 0 < half && a < 2 * half
    ensures a / half % 2 == 0 <==> a < half
  {
    if a >= half {
      assert a / half == 1;
    }
  }

  lemma Pow2Of32()
    ensures Pow2(32) == 0x1_0000_0000
  {
    Pow2Of7(4);
    assert Pow128(4) == 128 * 128 * 128 * 128;
    assert Pow2(30) == 2 * Pow2(29) && Pow2(29) == 2 * Pow2(28);
  }

  /** `(bits - 1) / 7 + 1` where bits, at least 7, is the position of the highest
      set bit: the number of digits. */
  method CountBytes(a: nat) returns (bytes: nat)
    requires a < INT_LIMIT
    ensures bytes == |Encode(a)|
  {
    var bits := 32;
    Pow2Of32();
    Pow2Monotone(0, bits - 1);
    TopBit(a, Pow2(bits - 1));
    while bits > 7 && a / Pow2(bits - 1) % 2 == 0
      invariant 7 <= bits <= 32
      invariant a < Pow2(bits)
      invariant Pow2(bits - 1) > 0
      invariant a / Pow2(bits - 1) % 2 == 0 <==> a < Pow2(bits - 1)
    {
      bits := bits - 1;
      Pow2Monotone(0, bits - 1);
      TopBit(a, Pow2(bits - 1));
    }
    bytes := (bits - 1) / 7 + 1;
    DigitsFromBits(a, bits);
  }

  lemma DigitsFromBits(a: nat, bits: nat)
    requires 7 <= bits && a < Pow2(bits)
    requires bits > 7 ==> a >= Pow2(bits - 1)
    ensures (bits - 1) / 7 + 1 == |Encode(a)|
  {
    var k := (bits - 1) / 7 + 1;
    Pow2Monotone(bits, 7 * k);
    Pow2Of7(k);
    DigitCount(a);
    if bits > 7 {
      Pow2Monotone(7 * (k - 1), bits - 1);
      Pow2Of7(k - 1);
    } else {
      assert Pow128(1) == 128;
    }
    if k < |Encode(a)| {
      PowMonotone(k, |Encode(a)| - 1);
    } else if k > |Encode(a)| {
      PowMonotone(|Encode(a)|, k - 1);
    }
  }

  lemma {:induction false} PowPositive(k: nat)
    ensures Pow128(k) > 0
  {
    if k > 0 {
      PowPositive(k - 1);
    }
  }

  /** The byte `(0x7f & (a >> (i*7))) | (i ? 0x80 : 0)`. */
  function Digit(a: nat, i: nat): byte {
    PowPositive(i);
    a / Pow128(i) % 128 + (if i > 0 then 128 else 0)
  }

  /** Dropping the last digit of a shifts the others down by one place. */
  lemma DigitShift(a: nat, i: nat)
    ensures Pow128(i) > 0 && a / Pow128(i + 1) == a / 128 / Pow128(i)
  {
    PowPositive(i);
    DivTwice(a, 128, Pow128(i));
  }

  lemma DivTwice(a: nat, x: nat, y: nat)
    requires x > 0 && y > 0
    ensures x * y > 0 && a / (x * y) == a / x / y
  {
    var q, r, t := a / x / y, a / x % y, a % x;
    Divided(a, x);
    Divided(a / x, y);
    MulExpand(x, q, y, r);
    BelowProduct(x, y, r, t);
    QuotientUnique(a, x * y, q, x * r + t);
  }

  lemma Divided(a: nat, x: nat)
    requires x > 0
    ensures a == x * (a / x) + a % x && a == a / x * x + a % x && 0 <= a % x < x && a / x >= 0
  {
  }

  lemma MulExpand(x: nat, q: nat, y: nat, r: nat)
    ensures x * (q * y + r) == q * (x * y) + x * r
  {
  }

  lemma BelowProduct(x: nat, y: nat, r: nat, t: nat)
    requires r < y && t < x
    ensures 0 <= x * r + t < x * y
  {
    MulLe(x, r, y - 1);
    assert x * (y - 1) == x * y - x;
  }

  lemma MulLe(x: nat, r: nat, m: nat)
    requires r <= m
    ensures x * r <= x * m
  {
  }

  lemma MulStep(x: nat, y: nat, d: nat)
    ensures x < y ==> x * d + d <= y * d
  {
    if x < y {
      MulLe(d, x + 1, y);
      assert (x + 1) * d == x * d + d;
    }
  }

  lemma QuotientUnique(a: nat, d: nat, q: nat, r: nat)
    requires d > 0 && r < d && a == q * d + r
    ensures a / d == q
  {
    assert a == a / d * d + a % d;
    MulStep(q, a / d, d);
    MulStep(a / d, q, d);
  }

  /** The digits of places k-1 down to 0 of a number with k digits are its encoding. */
  lemma {:induction false} EncodeDigit(a: nat, j: nat)
    requires j < |Encode(a)|
    ensures Encode(a)[j] == Digit(a, |Encode(a)| - 1 - j)
  {
    var k := |Encode(a)|;
    if j == k - 1 {
      assert Pow128(0) == 1;
    } else {
      var b := a / 128;
      assert a >= 128;
      assert HighDigits(b) == HighDigits(b / 128) + [128 + b % 128];
      assert |Encode(b)| == k - 1;
      DigitShift(a, k - 2 - j);
      if j == k - 2 {
        assert Encode(a)[j] == 128 + b % 128;
        assert Pow128(0) == 1;
      } else {
        EncodeDigit(b, j);
        assert Encode(a)[j] == HighDigits(b / 128)[j] == Encode(b)[j];
      }
    }
  }

  /** The two `for` loops of `packIntPair`: write the digits of a at pos, most
      significant first. */
  method WriteDigits(a: nat, bytes: nat, buffer: array<byte>, pos: nat)
    requires bytes == |Encode(a)| && pos + bytes <= buffer.Length
    modifies buffer
    ensures buffer[pos..pos + bytes] == Encode(a)
    ensures buffer[..pos] == old(buffer[..pos])
    ensures buffer[pos + bytes..] == old(buffer[pos + bytes..])
  {
    var i := bytes - 1;
    var c := pos;
    while i >= 0
      invariant -1 <= i < bytes && c == pos + (bytes - 1 - i)
      invariant forall k :: pos <= k < c ==> buffer[k] == Encode(a)[k - pos]
      invariant forall k :: 0 <= k < pos || pos + bytes <= k < buffer.Length ==> buffer[k] == old(buffer[k])
    {
      EncodeDigit(a, c - pos);
      buffer[c] := Digit(a, i);
      i := i - 1;
      c := c + 1;
    }
  }

  /** `packIntPair`: the cursor moves and the buffer changes only on success. */
  method PackIntPair(a: int, b: int, buffer: array<byte>, pos: nat, size: nat)
    returns (ok: bool, pos': nat, size': nat)
    requires a < INT_LIMIT && b < INT_LIMIT
    requires pos + size == buffer.Length
    modifies buffer
    ensures pos' + size' == buffer.Length
    ensures ok <==> a >= 0 && b >= 0 && |Encode(a) + Encode(b)| <= size
    ensures ok ==> pos <= pos' && buffer[pos..pos'] == Encode(a) + Encode(b) && pos' == pos + |Encode(a) + Encode(b)|
    ensures ok ==> buffer[..pos] == old(buffer[..pos])
    ensures !ok ==> buffer[..] == old(buffer[..]) && pos' == pos
  {
    if a < 0 || b < 0 {
      return false, pos, size;
    }
    var bytesA := CountBytes(a);
    var bytesB := CountBytes(b);
    if bytesA + bytesB > size {
      return false, pos, size;
    }
    WriteDigits(a, bytesA, buffer, pos);
    ghost var first := buffer[..pos + bytesA];
    assert first == buffer[..pos] + buffer[pos..pos + bytesA];
    WriteDigits(b, bytesB, buffer, pos + bytesA);
    assert buffer[..pos + bytesA] == first;
    pos' := pos + bytesA + bytesB;
    size' := size - (bytesA + bytesB);
    ok := true;
    assert buffer[pos..pos'] == buffer[..pos + bytesA][pos..] + buffer[pos + bytesA..pos'];
    assert buffer[..pos] == first[..pos];
  }

  /** One of the two loops of `unpackIntPair`. */
  method ReadOne(s: seq<byte>, pos: nat) returns (ok: bool, value: int, c: nat)
    ensures ok == ReadNumber(s, pos, 0, 0).Number?
    ensures ok ==> ReadNumber(s, pos, 0, 0) == Number(value, c)
  {
    value := 0;
    c := pos;
    var i := 0;
    while true
      invariant ReadNumber(s, pos, 0, 0) == ReadNumber(s, c, i, value)
      decreases |s| - c
    {
      if c >= |s| {
        return false, 0, c;
      }
      value := Wrap32(value * 128 + s[c] % 128);
      if s[c] < 128 {
        c := c + 1;
        return true, value, c;
      }
      if value < 0 || i >= 5 {
        return false, 0, c;
      }
      i := i + 1;
      c := c + 1;
    }
  }

  /** `unpackIntPair`: on failure both values are zero and the cursor stays. */
  method UnpackIntPair(s: seq<byte>, pos: nat) returns (ok: bool, a: int, b: int, pos': nat)
    ensures ok == ReadPair(s, pos).Pair?
    ensures ok ==> ReadPair(s, pos) == Pair(a, b, pos')
    ensures !ok ==> a == 0 && b == 0 && pos' == pos
  {
    var mid, end;
    ok, a, mid := ReadOne(s, pos);
    if !ok {
      return false, 0, 0, pos;
    }
    ok, b, end := ReadOne(s, mid);
    if !ok {
      return false, 0, 0, pos;
    }
    pos' := end;
  }

  // ---------- foreign encodings ----------

  /** The bytes from pos to end have the form in which numbers are written: at most
      five digits, no leading zero digit, and no bit of five above the 31st. */
  predicate Canonical(s: seq<byte>, pos: nat, end: nat)
    requires pos < end <= |s|
  {
    && end - pos <= 5
    && (end - pos > 1 ==> s[pos] != 0x80)
    && (end - pos == 5 ==> s[pos] < 0x88)
  }

  /** The number whose digits stand from pos to end, before any bit is lost. */
  function Value(s: seq<byte>, pos: nat, end: nat): nat
    requires pos <= end <= |s|
  {
    if end == pos then 0 else 128 * Value(s, pos, end - 1) + s[end - 1] % 128
  }

  predicate AllHigh(s: seq<byte>, pos: nat, end: nat)
    requires pos <= end <= |s|
  {
    forall k :: pos <= k < end ==> s[k] >= 128
  }

  /** Every byte of an accepted number but the last carries the continuation bit. */
  lemma {:induction false} AcceptedShape(s: seq<byte>, pos: nat, i: nat, acc: int)
    requires ReadNumber(s, pos, i, acc).Number?
    ensures var end := ReadNumber(s, pos, i, acc).end;
      pos < end <= |s| && AllHigh(s, pos, end - 1) && s[end - 1] < 128
    decreases |s| - pos
  {
    if s[pos] >= 128 {
      AcceptedShape(s, pos + 1, i + 1, Wrap32(acc * 128 + s[pos] % 128));
    }
  }

  lemma LastDigit(m: nat, d: nat)
    requires d < 128
    ensures (128 * m + d) / 128 == m && (128 * m + d) % 128 == d
  {
  }

  lemma {:induction false} HighDigitsOfValue(s: seq<byte>, pos: nat, end: nat)
    requires pos < end <= |s| && AllHigh(s, pos, end) && s[pos] != 0x80
    ensures Value(s, pos, end) > 0 && HighDigits(Value(s, pos, end)) == s[pos..end]
    decreases end
  {
    var m, d := Value(s, pos, end - 1), s[end - 1] % 128;
    assert s[end - 1] == 128 + d;
    if end - 1 == pos {
      assert HighDigits(d) == HighDigits(0) + [128 + d];
    } else {
      HighDigitsOfValue(s, pos, end - 1);
      LastDigit(m, d);
      assert s[pos..end] == s[pos..end - 1] + [s[end - 1]];
    }
  }

  lemma {:induction false} ValueBound(s: seq<byte>, pos: nat, end: nat)
    requires pos < end <= |s|
    ensures Value(s, pos, end) < (s[pos] % 128 + 1) * Pow128(end - pos - 1)
    decreases end
  {
    if end - 1 == pos {
      assert Value(s, pos, pos) == 0 && Pow128(0) == 1;
    } else {
      ValueBound(s, pos, end - 1);
      var h, p := s[pos] % 128 + 1, Pow128(end - pos - 2);
      assert h * (128 * p) == 128 * (h * p);
    }
  }

  lemma CanonicalBound(s: seq<byte>, pos: nat, end: nat)
    requires pos < end <= |s| && (end - pos > 1 ==> s[pos] >= 128) && Canonical(s, pos, end)
    ensures Value(s, pos, end) < INT_LIMIT
  {
    hide Value;
    ValueBound(s, pos, end);
    var h, p := s[pos] % 128 + 1, Pow128(end - pos - 1);
    assert Pow128(4) == 128 * Pow128(3) && Pow128(3) == 128 * Pow128(2) && Pow128(2) == 128 * 128;
    if end - pos == 5 {
      assert h <= 8 && p == 0x1000_0000;
      MulLe(p, h, 8);
    } else {
      PowMonotone(end - pos - 1, 3);
      MulLe(h, p, 0x20_0000);
      MulLe(0x20_0000, h, 128);
    }
  }

  /** Digits of that form are the encoding of the number they stand for. */
  lemma CanonicalIsEncoding(s: seq<byte>, pos: nat, end: nat)
    requires pos < end <= |s| && AllHigh(s, pos, end - 1) && s[end - 1] < 128
    requires Canonical(s, pos, end)
    ensures s[pos..end] == Encode(Value(s, pos, end))
  {
    hide AllHigh;
    var m, d := Value(s, pos, end - 1), s[end - 1];
    assert (128 * m + d) / 128 == m && (128 * m + d) % 128 == d;
    assert s[pos..end] == s[pos..end - 1] + [d];
    if end - 1 > pos {
      assert AllHigh(s, pos, end - 1);
      HighDigitsOfValue(s, pos, end - 1);
    }
  }

  lemma EncodingIsCanonical(n: nat, s: seq<byte>, pos: nat, end: nat)
    requires n < INT_LIMIT && pos <= end <= |s| && s[pos..end] == Encode(n)
    ensures pos < end && Canonical(s, pos, end)
  {
    var k := |Encode(n)|;
    EncodeAtMostFive(n);
    if k > 1 {
      DigitCount(n);
      EncodeDigit(n, 0);
      PowPositive(k - 1);
      var p := Pow128(k - 1);
      assert s[pos] == s[pos..end][0] == n / p % 128 + 128;
      LeadingDigit(n, p);
      if k == 5 {
        assert Pow128(4) == 128 * 128 * 128 * 128;
      }
    }
  }

  lemma LeadingDigit(n: nat, p: nat)
    requires p > 0 && p <= n < 128 * p
    ensures 1 <= n / p < 128 && n / p % 128 == n / p && n / p * p <= n
  {
    Divided(n, p);
    var q := n / p;
    if q >= 128 {
      MulLe(p, 128, q);
      assert false;
    }
  }

  /** What the decoder accepts as a number is the number's own encoding exactly when
      it has the form in which numbers are written. */
  lemma NumberCanonicalIff(s: seq<byte>, pos: nat)
    requires ReadNumber(s, pos, 0, 0).Number?
    ensures var r := ReadNumber(s, pos, 0, 0);
      && pos < r.end <= |s|
      && (r.value >= 0 && s[pos..r.end] == Encode(r.value) <==> Canonical(s, pos, r.end))
  {
    hide ReadNumber, Encode, HighDigits;
    var r := ReadNumber(s, pos, 0, 0);
    AcceptedShape(s, pos, 0, 0);
    ReadNumberEnd(s, pos, 0, 0);
    if Canonical(s, pos, r.end) {
      assert r.end - pos > 1 ==> s[pos] >= 128;
      CanonicalBound(s, pos, r.end);
      CanonicalIsEncoding(s, pos, r.end);
      var n := Value(s, pos, r.end);
      assert |Encode(n)| == r.end - pos;
      ReadEncoded(n, s, pos);
    } else if r.value >= 0 && s[pos..r.end] == Encode(r.value) {
      EncodingIsCanonical(r.value, s, pos, r.end);
      assert false;
    }
  }

  /** Packing gives back the bytes an accepted pair was read from exactly when both
      numbers have that form. */
  lemma RepackedIff(s: seq<byte>, pos: nat)
    requires ReadPair(s, pos).Pair?
    ensures var r := ReadPair(s, pos);
      var mid := ReadNumber(s, pos, 0, 0).end;
      && pos < mid < r.end <= |s|
      && (r.a >= 0 && r.b >= 0 && s[pos..r.end] == Encode(r.a) + Encode(r.b)
          <==> Canonical(s, pos, mid) && Canonical(s, mid, r.end))
  {
    hide ReadNumber, Encode, Canonical;
    var r := ReadPair(s, pos);
    var mid := ReadNumber(s, pos, 0, 0).end;
    NumberCanonicalIff(s, pos);
    NumberCanonicalIff(s, mid);
    assert s[pos..r.end] == s[pos..mid] + s[mid..r.end];
    if r.a >= 0 && r.b >= 0 && s[pos..r.end] == Encode(r.a) + Encode(r.b) {
      ReadNumberEnd(s, pos, 0, 0);
      assert s[pos..pos + |Encode(r.a)|] == s[pos..r.end][..|Encode(r.a)|];
      ReadEncoded(r.a, s, pos);
      assert s[mid..r.end] == s[pos..r.end][mid - pos..];
    }
  }

  lemma HighStep(s: seq<byte>, pos: nat, i: nat, acc: int)
    requires pos < |s| && s[pos] >= 128 && i < 5 && Wrap32(acc * 128 + s[pos] % 128) >= 0
    ensures ReadNumber(s, pos, i, acc) == ReadNumber(s, pos + 1, i + 1, Wrap32(acc * 128 + s[pos] % 128))
  {
  }

  lemma FinalStep(s: seq<byte>, pos: nat, i: nat, acc: int)
    requires pos < |s| && s[pos] < 128
    ensures ReadNumber(s, pos, i, acc) == Number(Wrap32(acc * 128 + s[pos]), pos + 1)
  {
  }

  /** A leading zero digit is accepted. */
  lemma LeadingZeroIsAccepted()
    ensures ReadPair([0x80, 0x05, 0x00], 0) == Pair(5, 0, 3)
    ensures Encode(5) == [5]
  {
    var s: seq<byte> := [0x80, 0x05, 0x00];
    HighStep(s, 0, 0, 0);
    ReadLastDigit(s, 1, 1, 0);
    ReadLastDigit(s, 2, 0, 0);
    assert HighDigits(0) == [];
  }

  /** Bits of five digits above the 31st are lost, and so are six digits' bits above the 32nd. */
  lemma SurplusBitsAreLost()
    ensures ReadNumber([0x91, 0x80, 0x80, 0x80, 0x00], 0, 0, 0) == Number(0x1000_0000, 5)
    ensures ReadNumber([0x90, 0x80, 0x80, 0x80, 0x80, 0x07], 0, 0, 0) == Number(7, 6)
  {
    hide ReadNumber;
    var s: seq<byte> := [0x91, 0x80, 0x80, 0x80, 0x00];
    HighStep(s, 0, 0, 0);
    HighStep(s, 1, 1, 0x11);
    HighStep(s, 2, 2, 0x880);
    HighStep(s, 3, 3, 0x4_4000);
    FinalStep(s, 4, 4, 0x220_0000);
    var t: seq<byte> := [0x90, 0x80, 0x80, 0x80, 0x80, 0x07];
    HighStep(t, 0, 0, 0);
    HighStep(t, 1, 1, 0x10);
    HighStep(t, 2, 2, 0x800);
    HighStep(t, 3, 3, 0x4_0000);
    HighStep(t, 4, 4, 0x200_0000);
    FinalStep(t, 5, 5, 0);
  }

  /** The last digit may turn a number negative. */
  lemma NegativeIsAccepted()
    ensures ReadNumber([0x88, 0x80, 0x80, 0x80, 0x00], 0, 0, 0) == Number(-INT_LIMIT, 5)
  {
    hide ReadNumber;
    var s: seq<byte> := [0x88, 0x80, 0x80, 0x80, 0x00];
    HighStep(s, 0, 0, 0);
    HighStep(s, 1, 1, 0x8);
    HighStep(s, 2, 2, 0x400);
    HighStep(s, 3, 3, 0x2_0000);
    FinalStep(s, 4, 4, 0x100_0000);
  }
}
