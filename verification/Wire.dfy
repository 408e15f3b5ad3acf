/**
 The primitives of the wire format: base-128 unsigned varints, zigzag,
 big-endian integers, and strings with a legacy or a compact length.

 A string is its bytes; which byte sequences are valid UTF-8 is a
 parameter of the readers.
 */
module Wire {
  import opened Layout

  type Byte = b: int | 0 <= b < 256
  type Utf8 = seq<Byte> -> bool

  datatype Error = UnexpectedEof | InvalidUtf8 | InvalidLength | InvalidUvarint | LengthOverflow

  /** A value and the bytes after it, or the first thing wrong with the input. */
  datatype Parsed<T> = Ok(value: T, rest: seq<Byte>) | Err(error: Error)

  const MAX_UVARINT_LEN := 10
  const U64 := 0x1_0000_0000_0000_0000

  // ---- unsigned varints ----

  function Uvarint(v: nat): seq<Byte> {
    if v < 0x80 then [v] else [v % 0x80 + 0x80] + Uvarint(v / 0x80)
  }

  /** Reads at most `room` bytes; the last of them may be at most 1. */
  function ParseUvarint(s: seq<Byte>, room: nat): Parsed<nat> {
    if room == 0 then Err(InvalidUvarint)
    else if s == [] then Err(UnexpectedEof)
    else if s[0] < 0x80 then
      if room == 1 && s[0] > 1 then Err(InvalidUvarint) else Ok(s[0], s[1..])
    else
      match ParseUvarint(s[1..], room - 1)
      case Ok(v, rest) => Ok(s[0] - 0x80 + 0x80 * v, rest)
      case Err(e) => Err(e)
  }

  /** How many values fit into `room` bytes. */
  function Capacity(room: nat): (n: nat)
    ensures room > 0 ==> n >= 2
  {
    if room == 0 then 0 else if room == 1 then 2 else 0x80 * Capacity(room - 1)
  }

  lemma CapacityIsU64()
    ensures Capacity(MAX_UVARINT_LEN) == U64
  {
    assert Capacity(8) == 0x4_0000_0000_0000 by {
      assert Capacity(4) == 0x40_0000;
    }
  }

  lemma {:induction false} UvarintRoundTrip(v: nat, rest: seq<Byte>, room: nat)
    requires v < Capacity(room)
    ensures ParseUvarint(Uvarint(v) + rest, room) == Ok(v, rest)
    decreases room
  {
    var s := Uvarint(v) + rest;
    if v < 0x80 {
      assert s[1..] == rest;
    } else {
      assert room > 1;
      UvarintRoundTrip(v / 0x80, rest, room - 1);
      assert s[1..] == Uvarint(v / 0x80) + rest;
    }
  }

  function Pow128(n: nat): nat {
    if n == 0 then 1 else 0x80 * Pow128(n - 1)
  }

  lemma {:induction false} Pow128IsPositive(n: nat)
    ensures Pow128(n) > 0
  {
    if n > 0 {
      Pow128IsPositive(n - 1);
    }
  }

  /** Byte `i` carries the seven bits of that place, the least significant first, and all but the last say that more follow. */
  lemma {:induction false} UvarintByte(v: nat, i: nat)
    requires i < |Uvarint(v)|
    ensures Pow128(i) > 0 && Uvarint(v)[i] % 0x80 == v / Pow128(i) % 0x80
    ensures Uvarint(v)[i] >= 0x80 <==> i < |Uvarint(v)| - 1
    decreases i
  {
    Pow128IsPositive(i);
    if i > 0 {
      UvarintByte(v / 0x80, i - 1);
      assert Uvarint(v)[i] == Uvarint(v / 0x80)[i - 1];
      DivideTwice(v, 0x80, Pow128(i - 1));
    }
  }

  /** Every 64-bit value is read back, and what follows it is untouched. */
  lemma ReaderInvertsWriter(v: nat, rest: seq<Byte>)
    requires v < U64
    ensures ParseUvarint(Uvarint(v) + rest, MAX_UVARINT_LEN) == Ok(v, rest)
  {
    CapacityIsU64();
    UvarintRoundTrip(v, rest, MAX_UVARINT_LEN);
  }

  /** The bytes a successful read took. */
  function Taken(s: seq<Byte>, rest: seq<Byte>): seq<Byte>
    requires |rest| <= |s|
  {
    s[..|s| - |rest|]
  }

  lemma {:induction false} ParseTakes(s: seq<Byte>, room: nat)
    requires ParseUvarint(s, room).Ok?
    ensures var p := ParseUvarint(s, room);
            |p.rest| < |s| && p.rest == s[|s| - |p.rest|..] && p.value < Capacity(room)
    decreases room
  {
    if s[0] >= 0x80 {
      ParseTakes(s[1..], room - 1);
    }
  }

  /**
   The written form is the shortest of all encodings of a value, and the
   only one of its length. An input is it exactly if it has one byte or
   does not end in a zero byte.
   */
  lemma {:induction false} WriterIsShortest(s: seq<Byte>, room: nat)
    requires ParseUvarint(s, room).Ok? && |ParseUvarint(s, room).rest| < |s|
    ensures var p := ParseUvarint(s, room);
            && |Uvarint(p.value)| <= |Taken(s, p.rest)|
            && (Taken(s, p.rest) == Uvarint(p.value) <==> |Uvarint(p.value)| == |Taken(s, p.rest)|)
            && (Taken(s, p.rest) == Uvarint(p.value) <==> |Taken(s, p.rest)| == 1 || s[|s| - |p.rest| - 1] != 0)
    decreases room
  {
    var p := ParseUvarint(s, room);
    if s[0] < 0x80 {
      assert Taken(s, p.rest) == [s[0]];
    } else {
      var t, q := s[1..], ParseUvarint(s[1..], room - 1);
      ParseTakes(t, room - 1);
      WriterIsShortest(t, room - 1);
      TakenStep(s, q.rest);
      ValueStep(s[0], q.value);
      var mine, theirs := Taken(s, p.rest), Taken(t, q.rest);
      assert mine == [s[0]] + theirs;
      if q.value == 0 {
        ZeroIsShort(t, room - 1);
      } else if theirs == Uvarint(q.value) {
        assert mine == Uvarint(p.value);
      } else {
        assert mine[1..] == theirs && Uvarint(p.value)[1..] == Uvarint(q.value);
      }
    }
  }

  lemma TakenStep(s: seq<Byte>, rest: seq<Byte>)
    requires |rest| < |s| - 1
    ensures Taken(s, rest) == [s[0]] + Taken(s[1..], rest)
    ensures s[1..][|s[1..]| - |rest| - 1] == s[|s| - |rest| - 1]
  {
  }

  lemma ValueStep(b: Byte, v: nat)
    requires b >= 0x80
    ensures (b - 0x80 + 0x80 * v) % 0x80 == b - 0x80 && (b - 0x80 + 0x80 * v) / 0x80 == v
    ensures v > 0 ==> Uvarint(b - 0x80 + 0x80 * v) == [b] + Uvarint(v)
  {
  }

  /** A value of 0 ends in a zero byte. */
  lemma {:induction false} ZeroIsShort(s: seq<Byte>, room: nat)
    requires ParseUvarint(s, room).Ok? && ParseUvarint(s, room).value == 0
    ensures |ParseUvarint(s, room).rest| < |s| && s[|s| - |ParseUvarint(s, room).rest| - 1] == 0
    decreases room
  {
    if s[0] >= 0x80 {
      ZeroIsShort(s[1..], room - 1);
    }
  }

  // ---- zigzag ----

  predicate IsI64(n: int) {
    -0x8000_0000_0000_0000 <= n < 0x8000_0000_0000_0000
  }

  /** A signed value as a 64-bit word, and back. */
  function ToWord(n: int): nat {
    n % U64
  }

  function FromWord(w: nat): int {
    if w < U64 / 2 then w else w - U64
  }

  /** Exclusive or with a word of ones, or of zeros. */
  function FlipIf(w: nat, flip: bool): nat
    requires w < U64
  {
    if flip then U64 - 1 - w else w
  }

  /** Shift the word left, and flip every bit if the sign bit was set. */
  function Zigzag(n: int): nat {
    FlipIf((2 * ToWord(n)) % U64, n < 0)
  }

  /** Shift right, and flip every bit if the lowest was set. */
  function Unzigzag(u: nat): int
    requires u < U64
  {
    FromWord(FlipIf(u / 2, u % 2 == 1))
  }

  lemma ZigzagIs(n: int)
    requires IsI64(n)
    ensures Zigzag(n) == (if n >= 0 then 2 * n else -2 * n - 1) < U64
  {
    if n < 0 {
      assert ToWord(n) == n + U64;
      assert 2 * ToWord(n) == 2 * n + U64 + U64;
    } else {
      assert ToWord(n) == n;
    }
  }

  lemma UnzigzagIs(u: nat)
    requires u < U64
    ensures Unzigzag(u) == if u % 2 == 0 then u / 2 else -(u / 2) - 1
    ensures IsI64(Unzigzag(u))
  {
  }

  /** Values of either sign go to twice their magnitude, less one if negative: a bijection between signed and unsigned words. */
  lemma ZigzagBijection(n: int, u: nat)
    requires IsI64(n) && u < U64
    ensures Zigzag(n) == (if n >= 0 then 2 * n else -2 * n - 1) < U64
    ensures Unzigzag(Zigzag(n)) == n
    ensures IsI64(Unzigzag(u)) && Zigzag(Unzigzag(u)) == u
  {
    ZigzagIs(n);
    UnzigzagIs(Zigzag(n));
    UnzigzagIs(u);
    ZigzagIs(Unzigzag(u));
    hide Zigzag, Unzigzag;
  }

  function Varint(n: int): seq<Byte> {
    Uvarint(Zigzag(n))
  }

  function ParseVarint(s: seq<Byte>): Parsed<int> {
    match ParseUvarint(s, MAX_UVARINT_LEN)
    case Ok(u, rest) =>
      ParsedFitsU64(s);
      Ok(Unzigzag(u), rest)
    case Err(e) => Err(e)
  }

  /** Every signed 64-bit value is read back. */
  lemma VarintRoundTrip(n: int, rest: seq<Byte>)
    requires IsI64(n)
    ensures ParseVarint(Varint(n) + rest) == Ok(n, rest)
  {
    ZigzagBijection(n, 0);
    ReaderInvertsWriter(Zigzag(n), rest);
  }

  lemma ParsedFitsU64(s: seq<Byte>)
    requires ParseUvarint(s, MAX_UVARINT_LEN).Ok?
    ensures ParseUvarint(s, MAX_UVARINT_LEN).value < U64
  {
    CapacityIsU64();
    ParseTakes(s, MAX_UVARINT_LEN);
  }

  // ---- big-endian integers ----

  function Pow256(n: nat): nat {
    if n == 0 then 1 else 256 * Pow256(n - 1)
  }

  function BigEndian(v: nat, width: nat): seq<Byte> {
    if width == 0 then [] else BigEndian(v / 256, width - 1) + [v % 256]
  }

  function FromBigEndian(s: seq<Byte>): nat {
    if s == [] then 0 else 256 * FromBigEndian(s[..|s| - 1]) + s[|s| - 1]
  }

  lemma {:induction false} BigEndianRoundTrip(v: nat, width: nat)
    requires v < Pow256(width)
    ensures |BigEndian(v, width)| == width && FromBigEndian(BigEndian(v, width)) == v
  {
    if width > 0 {
      BigEndianRoundTrip(v / 256, width - 1);
      assert BigEndian(v, width)[..width - 1] == BigEndian(v / 256, width - 1);
    }
  }

  lemma DivisionIs(v: nat, d: nat, q: nat, r: nat)
    requires d > 0 && v == d * q + r && r < d
    ensures v / d == q && v % d == r
  {
    var e := v / d - q;
    assert v == d * (v / d) + v % d;
    assert d * e == r - v % d;
    assert e >= 1 ==> d * e >= d;
    assert e <= -1 ==> d * e <= 0 - d;
  }

  lemma DivideTwice(v: nat, a: nat, b: nat)
    requires a > 0 && b > 0
    ensures a * b > 0 && v / a / b == v / (a * b)
  {
    Quotient(v, a, b, v / a / b, v / a % b, v % a);
  }

  lemma Quotient(v: nat, a: nat, b: nat, s: nat, t: nat, r: nat)
    requires t < b && r < a && v == a * (b * s + t) + r
    ensures a * b > 0 && v / (a * b) == s
  {
    BelowProduct(a, b, t, r);
    TwoDigits(a, b, s, t, r);
    DivisionIs(v, a * b, s, a * t + r);
  }

  lemma BelowProduct(a: nat, b: nat, t: nat, r: nat)
    requires t < b && r < a
    ensures 0 <= a * t + r < a * b
  {
    assert a * (b - 1 - t) >= 0;
    assert a * (b - 1 - t) == a * b - a - a * t;
  }

  lemma TwoDigits(a: nat, b: nat, s: nat, t: nat, r: nat)
    ensures a * (b * s + t) + r == a * b * s + (a * t + r)
  {
    assert a * (b * s + t) == a * (b * s) + a * t;
    assert a * (b * s) == a * b * s;
  }

  /** Byte `i` is the digit of that place, the most significant first. */
  lemma {:induction false} BigEndianByte(v: nat, width: nat, i: nat)
    requires i < width
    ensures |BigEndian(v, width)| == width && Pow256(width - 1 - i) > 0
    ensures BigEndian(v, width)[i] == v / Pow256(width - 1 - i) % 256
  {
    BigEndianLength(v, width);
    PowIsPositive(width - 1 - i);
    if i < width - 1 {
      BigEndianByte(v / 256, width - 1, i);
      DivideTwice(v, 256, Pow256(width - 2 - i));
    }
  }

  lemma {:induction false} PowIsPositive(n: nat)
    ensures Pow256(n) > 0
  {
    if n > 0 {
      PowIsPositive(n - 1);
    }
  }

  lemma {:induction false} BigEndianLength(v: nat, width: nat)
    ensures |BigEndian(v, width)| == width
  {
    if width > 0 {
      BigEndianLength(v / 256, width - 1);
    }
  }

  /** What comes first weighs more. */
  lemma {:induction false} FromBigEndianJoin(a: seq<Byte>, b: seq<Byte>)
    ensures FromBigEndian(a + b) == FromBigEndian(a) * Pow256(|b|) + FromBigEndian(b)
    decreases |b|
  {
    if b == [] {
      assert a + b == a;
    } else {
      var n := |b| - 1;
      FromBigEndianJoin(a, b[..n]);
      assert (a + b)[..|a| + n] == a + b[..n];
      var x, p := FromBigEndian(a), Pow256(n);
      assert 256 * (x * p + FromBigEndian(b[..n])) == x * (256 * p) + 256 * FromBigEndian(b[..n]);
    }
  }

  /** Two's complement in `width` bytes. */
  predicate Fits(v: int, width: nat) {
    -2 * v <= Pow256(width) && 2 * v < Pow256(width)
  }

  function Signed(v: int, width: nat): seq<Byte>
    requires Fits(v, width)
  {
    BigEndian(if v < 0 then v + Pow256(width) else v, width)
  }

  lemma {:induction false} FromBigEndianBelow(s: seq<Byte>)
    ensures FromBigEndian(s) < Pow256(|s|)
  {
    if s != [] {
      FromBigEndianBelow(s[..|s| - 1]);
    }
  }

  function ParseSigned(s: seq<Byte>, width: nat): Parsed<int> {
    if |s| < width then Err(UnexpectedEof)
    else
      var u := FromBigEndian(s[..width]);
      Ok(if 2 * u < Pow256(width) then u else u - Pow256(width), s[width..])
  }

  lemma SignedRoundTrip(v: int, width: nat, rest: seq<Byte>)
    requires Fits(v, width)
    ensures |Signed(v, width)| == width && ParseSigned(Signed(v, width) + rest, width) == Ok(v, rest)
  {
    var u := if v < 0 then v + Pow256(width) else v;
    BigEndianRoundTrip(u, width);
    assert (Signed(v, width) + rest)[..width] == Signed(v, width);
    assert (Signed(v, width) + rest)[width..] == rest;
  }

  /** Byte `i` of a field on the wire: the value modulo its width, most significant byte first. */
  lemma SignedByte(v: int, width: nat, i: nat)
    requires Fits(v, width) && i < width
    ensures |Signed(v, width)| == width && Pow256(width - 1 - i) > 0
    ensures Signed(v, width)[i] == (if v < 0 then v + Pow256(width) else v) / Pow256(width - 1 - i) % 256
  {
    BigEndianByte(if v < 0 then v + Pow256(width) else v, width, i);
  }

  // ---- nullable strings ----

  const MAX_I16 := 0x7FFF

  lemma I16Fits(n: int)
    requires -1 <= n <= MAX_I16
    ensures Fits(n, 2)
  {
    assert Pow256(2) == 0x1_0000;
  }

  /** Legacy form: a 16-bit length, -1 for null. Longer strings cannot be written. */
  function NullableString(s: Option<seq<Byte>>): Parsed<seq<Byte>> {
    match s
    case None =>
      I16Fits(-1);
      Ok(Signed(-1, 2), [])
    case Some(b) =>
      if |b| > MAX_I16 then Err(LengthOverflow)
      else
        I16Fits(|b|);
        Ok(Signed(|b|, 2) + b, [])
  }

  function ParseNullableString(s: seq<Byte>, utf8: Utf8): Parsed<Option<seq<Byte>>> {
    match ParseSigned(s, 2)
    case Err(e) => Err(e)
    case Ok(n, rest) =>
      if n < 0 then Ok(None, rest)
      else if |rest| < n then Err(UnexpectedEof)
      else if !utf8(rest[..n]) then Err(InvalidUtf8)
      else Ok(Some(rest[..n]), rest[n..])
  }

  lemma NullableStringRoundTrip(s: Option<seq<Byte>>, utf8: Utf8, rest: seq<Byte>)
    requires s.Some? ==> utf8(s.value)
    ensures NullableString(s).Err? <==> s.Some? && |s.value| > 0x7FFF
    ensures NullableString(s).Ok? ==> ParseNullableString(NullableString(s).value + rest, utf8) == Ok(s, rest)
  {
    match s
    case None =>
      I16Fits(-1);
      SignedRoundTrip(-1, 2, rest);
    case Some(b) =>
      if |b| <= MAX_I16 {
        I16Fits(|b|);
        SignedRoundTrip(|b|, 2, b + rest);
        assert Signed(|b|, 2) + b + rest == Signed(|b|, 2) + (b + rest);
        assert (b + rest)[..|b|] == b && (b + rest)[|b|..] == rest;
      }
  }

  /** On the wire: two bytes of length, the high one first, and the bytes; null is two bytes of ones. */
  lemma NullableStringBytes(s: Option<seq<Byte>>)
    requires NullableString(s).Ok?
    ensures NullableString(s).value == match s
                                       case None => [0xFF, 0xFF]
                                       case Some(b) => [|b| / 0x100, |b| % 0x100] + b
  {
    var n := if s.None? then -1 else |s.value|;
    I16Fits(n);
    SignedByte(n, 2, 0);
    SignedByte(n, 2, 1);
    assert Pow256(0) == 1 && Pow256(1) == 0x100 && Pow256(2) == 0x1_0000;
    hide BigEndian, Pow256;
    assert Signed(n, 2) == [Signed(n, 2)[0], Signed(n, 2)[1]];
  }

  /** Compact form: an unsigned varint of the length plus one, 0 for null. */
  function CompactString(s: Option<seq<Byte>>): Parsed<seq<Byte>> {
    match s
    case None => Ok(Uvarint(0), [])
    case Some(b) => if |b| + 1 >= U64 then Err(LengthOverflow) else Ok(Uvarint(|b| + 1) + b, [])
  }

  function ParseCompactString(s: seq<Byte>, utf8: Utf8): Parsed<Option<seq<Byte>>> {
    match ParseUvarint(s, MAX_UVARINT_LEN)
    case Err(e) => Err(e)
    case Ok(u, rest) =>
      if u == 0 then Ok(None, rest)
      else if u - 1 > |rest| then Err(InvalidLength)
      else if !utf8(rest[..u - 1]) then Err(InvalidUtf8)
      else Ok(Some(rest[..u - 1]), rest[u - 1..])
  }

  lemma CompactStringRoundTrip(s: Option<seq<Byte>>, utf8: Utf8, rest: seq<Byte>)
    requires s.Some? ==> utf8(s.value)
    ensures CompactString(s).Ok? ==> ParseCompactString(CompactString(s).value + rest, utf8) == Ok(s, rest)
  {
    match s
    case None =>
      ReaderInvertsWriter(0, rest);
    case Some(b) =>
      if |b| + 1 < U64 {
        ReaderInvertsWriter(|b| + 1, b + rest);
        assert Uvarint(|b| + 1) + b + rest == Uvarint(|b| + 1) + (b + rest);
        assert (b + rest)[..|b|] == b && (b + rest)[|b|..] == rest;
      }
  }
}
