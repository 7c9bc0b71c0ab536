/** The wire form of a packet: CRC-32 (4 bytes), type (1), index (4), payload.
    Integers are little-endian, as on the machines the program is built for. */
module PacketData {
  import opened Base
  import opened Crc32
  import IntPair

  // ---------- reading ----------

  /** `get<T>` of one byte: zero behind the end. */
  function GetByte(data: seq<byte>, offset: nat): byte {
    if offset < |data| then data[offset] else 0
  }

  /** A little-endian word; zero when it does not fit. */
  function GetWord(data: seq<byte>, offset: nat): nat {
    if offset + 4 <= |data|
    then data[offset] as int + 0x100 * data[offset + 1] as int + 0x1_0000 * data[offset + 2] as int
         + 0x100_0000 * data[offset + 3] as int
    else 0
  }

  function KindOf(code: byte): Kind {
    if code == 0 then Hello
    else if code == 1 then Bye
    else if code == 2 then Data
    else if code == 3 then Confirmation
    else if code == 4 then Disconnect
    else if code == 5 then ByeBye
    else Unknown(code)
  }

  function CodeOf(kind: Kind): byte {
    match kind
    case Hello => 0
    case Bye => 1
    case Data => 2
    case Confirmation => 3
    case Disconnect => 4
    case ByeBye => 5
    case Unknown(code) => code
  }

  /** `getType`, `getIndex` and the payload of a raw packet. */
  function Parse(data: seq<byte>): Datagram {
    Datagram(KindOf(GetByte(data, 4)),
             IntPair.Wrap32(GetWord(data, 5)),
             if |data| > 9 then data[9..] else [])
  }

  /** The CRC field as the bits it holds. */
  function GetCrc32(data: seq<byte>): bv32
    requires |data| >= 4
  {
    Join(Bits(data[0]), Bits(data[1]), Bits(data[2]), Bits(data[3]))
  }

  function Join(a: bv32, b: bv32, c: bv32, d: bv32): bv32 {
    Add(Add(Add(a, Up1(b)), Up2(c)), Up3(d))
  }

  /** `checkCrc32`; without a whole CRC field the program reads behind its buffer, and
      the model says no. */
  predicate CheckCrc32(data: seq<byte>) {
    |data| >= 4 && GetCrc32(data) == Crc(data[4..])
  }

  // ---------- writing ----------

  function Word(x: nat): (r: seq<byte>)
    ensures |r| == 4
  {
    [x % 0x100, x / 0x100 % 0x100, x / 0x1_0000 % 0x100, x / 0x100_0000 % 0x100]
  }

  /** The bytes of an index: two's complement. */
  function IndexBytes(index: int): (r: seq<byte>)
    ensures |r| == 4
  {
    Word(index % 0x1_0000_0000)
  }

  function CrcBytes(crc: bv32): (r: seq<byte>)
    ensures |r| == 4
  {
    [LowByte(crc), LowByte(crc >> 8), LowByte(crc >> 16), LowByte(crc >> 24)]
  }

  /** Everything the CRC covers. */
  function Body(d: Datagram): seq<byte> {
    [CodeOf(d.kind)] + IndexBytes(d.index) + d.payload
  }

  /** The raw form of a datagram. */
  function Frame(d: Datagram): seq<byte> {
    CrcBytes(Crc(Body(d))) + Body(d)
  }

  // ---------- what is written is read back ----------

  lemma WordOf(x: nat)
    requires x < 0x1_0000_0000
    ensures GetWord(Word(x), 0) == x
  {
    var a, b, c := x / 0x100, x / 0x1_0000, x / 0x100_0000;
    assert b == a / 0x100 && c == b / 0x100;
  }

  lemma JoinPlaces(w: bv32)
    ensures Join(And(w, 0xFF), And(w >> 8, 0xFF), And(w >> 16, 0xFF), And(w >> 24, 0xFF)) == w
  {
  }

  lemma CrcFieldOf(crc: bv32, rest: seq<byte>)
    ensures GetCrc32(CrcBytes(crc) + rest) == crc
  {
    hide Join, And, Bits, LowByte;
    BitsOfLowByte(crc);
    BitsOfLowByte(crc >> 8);
    BitsOfLowByte(crc >> 16);
    BitsOfLowByte(crc >> 24);
    JoinPlaces(crc);
  }

  /** A kind that has one code only. */
  predicate Canonical(kind: Kind) { kind.Unknown? ==> kind.code > 5 }

  lemma HeaderOf(d: Datagram)
    ensures |Frame(d)| >= 9 && Frame(d)[4..] == Body(d)
    ensures GetByte(Frame(d), 4) == CodeOf(d.kind)
    ensures GetWord(Frame(d), 5) == GetWord(IndexBytes(d.index), 0)
    ensures (if |Frame(d)| > 9 then Frame(d)[9..] else []) == d.payload
  {
    hide Crc, CrcBytes, Word;
    var i := IndexBytes(d.index);
    var f := Frame(d);
    assert f == CrcBytes(Crc(Body(d))) + ([CodeOf(d.kind)] + i + d.payload);
    assert f[5] == i[0] && f[6] == i[1] && f[7] == i[2] && f[8] == i[3];
  }

  lemma WrapOfMod(x: int)
    requires -IntPair.INT_LIMIT <= x < IntPair.INT_LIMIT
    ensures IntPair.Wrap32(x % 0x1_0000_0000) == x
  {
  }

  /** A framed datagram passes the check and is read back as it was. */
  lemma FrameRoundTrip(d: Datagram)
    requires Canonical(d.kind) && -IntPair.INT_LIMIT <= d.index < IntPair.INT_LIMIT
    ensures CheckCrc32(Frame(d)) && Parse(Frame(d)) == d
  {
    hide Crc, CrcBytes, Word, GetWord, IntPair.Wrap32, GetCrc32;
    HeaderOf(d);
    CrcFieldOf(Crc(Body(d)), Body(d));
    WordOf(d.index % 0x1_0000_0000);
    WrapOfMod(d.index);
  }

  lemma CrcLayout(crc: bv32, rest: seq<byte>)
    ensures var f := CrcBytes(crc) + rest;
      && Bits(f[0]) == And(crc, 0xFF) && Bits(f[1]) == And(crc >> 8, 0xFF)
      && Bits(f[2]) == And(crc >> 16, 0xFF) && Bits(f[3]) == And(crc >> 24, 0xFF)
  {
    hide And, Bits, LowByte;
    BitsOfLowByte(crc);
    BitsOfLowByte(crc >> 8);
    BitsOfLowByte(crc >> 16);
    BitsOfLowByte(crc >> 24);
  }

  lemma FrameSize(d: Datagram)
    ensures |Frame(d)| == 9 + |d.payload| && Frame(d) == CrcBytes(Crc(Body(d))) + Body(d)
  {
    hide Crc, CrcBytes, Word;
  }

  lemma IndexLayout(d: Datagram)
    requires -IntPair.INT_LIMIT <= d.index < IntPair.INT_LIMIT
    ensures |Frame(d)| >= 9
    ensures var f := Frame(d);
      f[5] as int + 0x100 * f[6] as int + 0x1_0000 * f[7] as int + 0x100_0000 * f[8] as int
      == if d.index < 0 then d.index + 0x1_0000_0000 else d.index
  {
    hide Frame, Crc;
    HeaderOf(d);
    var x := d.index % 0x1_0000_0000;
    WordOf(x);
    assert GetWord(Frame(d), 5) == x;
  }

  /** The layout of the wire form: the CRC and the index with the lowest byte first, the
      type between them, then the payload. */
  lemma WireLayout(d: Datagram)
    requires -IntPair.INT_LIMIT <= d.index < IntPair.INT_LIMIT
    ensures var f, crc := Frame(d), Crc(Body(d));
      && |f| == 9 + |d.payload| && f[9..] == d.payload
      && Bits(f[0]) == And(crc, 0xFF) && Bits(f[1]) == And(crc >> 8, 0xFF)
      && Bits(f[2]) == And(crc >> 16, 0xFF) && Bits(f[3]) == And(crc >> 24, 0xFF)
      && f[4] == (match d.kind
                  case Hello => 0 case Bye => 1 case Data => 2 case Confirmation => 3
                  case Disconnect => 4 case ByeBye => 5 case Unknown(code) => code)
      && f[5] as int + 0x100 * f[6] as int + 0x1_0000 * f[7] as int + 0x100_0000 * f[8] as int
         == if d.index < 0 then d.index + 0x1_0000_0000 else d.index
  {
    hide Crc, And, Bits, Frame, Body, CrcBytes, GetWord;
    CrcLayout(Crc(Body(d)), Body(d));
    HeaderOf(d);
    FrameSize(d);
    IndexLayout(d);
  }

  // ---------- damage is noticed ----------

  /** The byte in place n of a word. */
  function Place(w: bv32, n: nat): bv32 {
    And(if n == 0 then w else if n == 1 then w >> 8 else if n == 2 then w >> 16 else w >> 24, 0xFF)
  }

  lemma PlacesOfJoin(a: bv32, b: bv32, c: bv32, d: bv32)
    requires And(a, 0xFF) == a && And(b, 0xFF) == b && And(c, 0xFF) == c && And(d, 0xFF) == d
    ensures var w := Join(a, b, c, d);
      Place(w, 0) == a && Place(w, 1) == b && Place(w, 2) == c && Place(w, 3) == d
  {
  }

  lemma JoinInjective(a: bv32, b: bv32, c: bv32, d: bv32, a': bv32, b': bv32, c': bv32, d': bv32)
    requires And(a, 0xFF) == a && And(b, 0xFF) == b && And(c, 0xFF) == c && And(d, 0xFF) == d
    requires And(a', 0xFF) == a' && And(b', 0xFF) == b' && And(c', 0xFF) == c' && And(d', 0xFF) == d'
    requires Join(a, b, c, d) == Join(a', b', c', d')
    ensures a == a' && b == b' && c == c' && d == d'
  {
    hide And, Join;
    PlacesOfJoin(a, b, c, d);
    PlacesOfJoin(a', b', c', d');
  }

  lemma CrcFieldInjective(s: seq<byte>, t: seq<byte>)
    requires |s| >= 4 && |t| >= 4 && GetCrc32(s) == GetCrc32(t)
    ensures s[..4] == t[..4]
  {
    hide And, Bits, Join;
    BitsAreSmall(s[0]);
    BitsAreSmall(s[1]);
    BitsAreSmall(s[2]);
    BitsAreSmall(s[3]);
    BitsAreSmall(t[0]);
    BitsAreSmall(t[1]);
    BitsAreSmall(t[2]);
    BitsAreSmall(t[3]);
    JoinInjective(Bits(s[0]), Bits(s[1]), Bits(s[2]), Bits(s[3]), Bits(t[0]), Bits(t[1]), Bits(t[2]), Bits(t[3]));
    BitsInjective(s[0], t[0]);
    BitsInjective(s[1], t[1]);
    BitsInjective(s[2], t[2]);
    BitsInjective(s[3], t[3]);
  }

  /** A packet damaged only within 32 consecutive bits behind the CRC field, or only in
      the CRC field, fails the check. */
  lemma DamageIsNoticed(sent: seq<byte>, damaged: seq<byte>, p: nat)
    requires CheckCrc32(sent) && |damaged| == |sent| && damaged != sent
    requires (damaged[..4] == sent[..4] && DifferWithin(sent[4..], damaged[4..], p)) || damaged[4..] == sent[4..]
    ensures !CheckCrc32(damaged)
  {
    hide Crc, GetCrc32;
    assert sent == sent[..4] + sent[4..] && damaged == damaged[..4] + damaged[4..];
    if CheckCrc32(damaged) {
      if damaged[4..] == sent[4..] {
        CrcFieldInjective(sent, damaged);
      } else {
        SameField(sent, damaged);
        BurstDetected(sent[4..], damaged[4..], p);
      }
      assert false;
    }
  }

  lemma SameField(s: seq<byte>, t: seq<byte>)
    requires |s| >= 4 && |t| >= 4 && s[..4] == t[..4]
    ensures GetCrc32(s) == GetCrc32(t)
  {
    assert s[0] == s[..4][0] && s[1] == s[..4][1] && s[2] == s[..4][2] && s[3] == s[..4][3];
    assert t[0] == t[..4][0] && t[1] == t[..4][1] && t[2] == t[..4][2] && t[3] == t[..4][3];
  }

  // ---------- the code ----------

  function Zeros(n: nat): seq<byte> { seq(n, _ => 0) }

  /** `resize`. */
  function Resized(data: seq<byte>, size: nat): (r: seq<byte>)
    ensures |r| == size
  {
    if |data| >= size then data[..size] else data + Zeros(size - |data|)
  }

  /** The class `Packet`, as far as its bytes go. */
  class RawPacket {
    var data: seq<byte>

    constructor ()
      ensures data == []
    {
      data := [];
    }

    /** `set<T>`: the vector grows with zeros when it is too short. */
    method Set(offset: nat, value: seq<byte>)
      modifies this
      ensures |data| == Max(|old(data)|, offset + |value|)
      ensures data[offset..offset + |value|] == value
      ensures forall i :: 0 <= i < offset ==> data[i] == GetByte(old(data), i)
      ensures forall i :: offset + |value| <= i < |data| ==> data[i] == old(data)[i]
    {
      if |data| < offset + |value| {
        data := Resized(data, offset + |value|);
      }
      data := data[..offset] + value + data[offset + |value|..];
    }

    /** `setData`: the payload replaces everything behind the header. */
    method SetData(payload: seq<byte>)
      modifies this
      ensures |data| == 9 + |payload| && data[9..] == payload
      ensures forall i :: 0 <= i < 9 ==> data[i] == GetByte(old(data), i)
    {
      data := Resized(data, 9 + |payload|);
      data := data[..9] + payload;
    }

    /** `encode`: whatever the vector held before, it becomes the framed datagram. */
    method Encode(kind: Kind, index: int, payload: seq<byte> := [])
      modifies this
      ensures data == Frame(Datagram(kind, index, payload))
    {
      ghost var d := Datagram(kind, index, payload);
      hide Word, CrcBytes, Crc, CodeOf;
      Set(4, [CodeOf(kind)]);
      Set(5, IndexBytes(index));
      SetData(payload);
      assert data[4] == CodeOf(kind);
      assert data[5..9] == IndexBytes(index);
      assert data[4..] == [data[4]] + data[5..9] + data[9..];
      var crc := ComputeCrc32(data[4..]);
      ghost var body := data[4..];
      Set(0, CrcBytes(crc));
      assert data[4..] == body;
      assert data == data[0..4] + data[4..];
    }

    /** What `UdpListener::handle` asks before it passes a packet on. */
    method Check() returns (ok: bool)
      ensures ok == CheckCrc32(data)
    {
      if |data| < 4 {
        return false;
      }
      var crc := ComputeCrc32(data[4..]);
      ok := GetCrc32(data) == crc;
    }
  }
}
