/**
 Tagged fields and request and response headers, read from the front of a
 buffer and written to its end. Whatever comes after a header in the
 buffer is left as it is.
 */
module Headers {
  import opened Layout
  import opened Wire

  datatype TaggedField = TaggedField(tag: nat, value: seq<Byte>)

  datatype Version = V0 | V1 | V2

  datatype RequestHeader = RequestHeader(apiKey: int, apiVersion: int, correlationId: int, clientId: Option<seq<Byte>>)

  // ---- tagged fields as values ----

  function Tagged(f: TaggedField): seq<Byte> {
    Uvarint(f.tag) + Uvarint(|f.value|) + f.value
  }

  function TaggedAll(fields: seq<TaggedField>): seq<Byte> {
    if fields == [] then [] else Tagged(fields[0]) + TaggedAll(fields[1..])
  }

  function TaggedBlock(fields: seq<TaggedField>): seq<Byte> {
    Uvarint(|fields|) + TaggedAll(fields)
  }

  function ParseField(s: seq<Byte>): Parsed<TaggedField> {
    match ParseUvarint(s, MAX_UVARINT_LEN)
    case Err(e) => Err(e)
    case Ok(tag, afterTag) =>
      match ParseUvarint(afterTag, MAX_UVARINT_LEN)
      case Err(e) => Err(e)
      case Ok(size, rest) =>
        if |rest| < size then Err(UnexpectedEof) else Ok(TaggedField(tag, rest[..size]), rest[size..])
  }

  function ParseFields(s: seq<Byte>, n: nat): Parsed<seq<TaggedField>>
    decreases n
  {
    if n == 0 then Ok([], s)
    else
      match ParseField(s)
      case Err(e) => Err(e)
      case Ok(f, rest) =>
        match ParseFields(rest, n - 1)
        case Err(e) => Err(e)
        case Ok(fs, end) => Ok([f] + fs, end)
  }

  function ParseBlock(s: seq<Byte>): Parsed<seq<TaggedField>> {
    match ParseUvarint(s, MAX_UVARINT_LEN)
    case Err(e) => Err(e)
    case Ok(n, rest) => ParseFields(rest, n)
  }

  predicate Encodable(f: TaggedField) {
    f.tag < U64 && |f.value| < U64
  }

  lemma FieldRoundTrip(f: TaggedField, rest: seq<Byte>)
    requires Encodable(f)
    ensures ParseField(Tagged(f) + rest) == Ok(f, rest)
  {
    hide Uvarint, ParseUvarint;
    var tail := f.value + rest;
    ReaderInvertsWriter(f.tag, Uvarint(|f.value|) + tail);
    ReaderInvertsWriter(|f.value|, tail);
    assert Tagged(f) + rest == Uvarint(f.tag) + (Uvarint(|f.value|) + tail);
    assert tail[..|f.value|] == f.value && tail[|f.value|..] == rest;
  }

  lemma {:induction false} FieldsRoundTrip(fields: seq<TaggedField>, rest: seq<Byte>)
    requires forall f :: f in fields ==> Encodable(f)
    ensures ParseFields(TaggedAll(fields) + rest, |fields|) == Ok(fields, rest)
  {
    hide ParseField, Tagged;
    if fields != [] {
      FieldRoundTrip(fields[0], TaggedAll(fields[1..]) + rest);
      FieldsRoundTrip(fields[1..], rest);
      assert TaggedAll(fields) + rest == Tagged(fields[0]) + (TaggedAll(fields[1..]) + rest);
      assert [fields[0]] + fields[1..] == fields;
    }
  }

  /** A block of any fields in any order is read back, and what follows it is untouched. */
  lemma BlockRoundTrip(fields: seq<TaggedField>, rest: seq<Byte>)
    requires |fields| < U64 && forall f :: f in fields ==> Encodable(f)
    ensures ParseBlock(TaggedBlock(fields) + rest) == Ok(fields, rest)
  {
    ReaderInvertsWriter(|fields|, TaggedAll(fields) + rest);
    FieldsRoundTrip(fields, rest);
    assert TaggedBlock(fields) + rest == Uvarint(|fields|) + (TaggedAll(fields) + rest);
  }

  // ---- headers as values ----

  predicate IsI16(n: int) {
    -0x8000 <= n < 0x8000
  }

  predicate IsI32(n: int) {
    -0x8000_0000 <= n < 0x8000_0000
  }

  lemma Widths(a: int, b: int)
    requires IsI16(a) && IsI32(b)
    ensures Fits(a, 2) && Fits(b, 4)
  {
    assert Pow256(2) == 0x1_0000;
    assert Pow256(4) == 0x1_0000_0000;
  }

  predicate IsHeader(h: RequestHeader) {
    IsI16(h.apiKey) && IsI16(h.apiVersion) && IsI32(h.correlationId)
  }

  function Fixed(h: RequestHeader): seq<Byte>
    requires IsHeader(h)
  {
    Widths(h.apiKey, h.correlationId);
    Widths(h.apiVersion, h.correlationId);
    Signed(h.apiKey, 2) + Signed(h.apiVersion, 2) + Signed(h.correlationId, 4)
  }

  function ParseRequest(s: seq<Byte>, version: Version, utf8: Utf8): Parsed<RequestHeader> {
    match ParseSigned(s, 2)
    case Err(e) => Err(e)
    case Ok(apiKey, s1) =>
      match ParseSigned(s1, 2)
      case Err(e) => Err(e)
      case Ok(apiVersion, s2) =>
        match ParseSigned(s2, 4)
        case Err(e) => Err(e)
        case Ok(correlationId, s3) =>
          match (if version.V0? then Ok(None, s3) else ParseNullableString(s3, utf8))
          case Err(e) => Err(e)
          case Ok(clientId, s4) =>
            match (if version.V2? then ParseBlock(s4) else Ok([], s4))
            case Err(e) => Err(e)
            case Ok(_, end) => Ok(RequestHeader(apiKey, apiVersion, correlationId, clientId), end)
  }

  lemma SignedFits(s: seq<Byte>, width: nat)
    requires ParseSigned(s, width).Ok?
    ensures Fits(ParseSigned(s, width).value, width)
  {
    FromBigEndianBelow(s[..width]);
  }

  /** Whatever is read is a header that could have been sent: its numbers have the width of their fields. */
  lemma ParsedIsHeader(s: seq<Byte>, version: Version, utf8: Utf8)
    ensures ParseRequest(s, version, utf8).Ok? ==>
              var h := ParseRequest(s, version, utf8).value;
              && IsHeader(h)
              && -0x8000 <= h.apiKey < 0x8000 && -0x8000 <= h.apiVersion < 0x8000
              && -0x8000_0000 <= h.correlationId < 0x8000_0000
              && (version.V0? ==> h.clientId == None) && (h.clientId.Some? ==> utf8(h.clientId.value))
  {
    if ParseRequest(s, version, utf8).Ok? {
      assert Pow256(2) == 0x1_0000;
      assert Pow256(4) == 0x1_0000_0000;
      hide ParseSigned, ParseBlock, Pow256;
      var s1 := ParseSigned(s, 2).rest;
      var s2 := ParseSigned(s1, 2).rest;
      SignedFits(s, 2);
      SignedFits(s1, 2);
      SignedFits(s2, 4);
    }
  }

  lemma FixedRoundTrip(h: RequestHeader, rest: seq<Byte>)
    requires IsHeader(h)
    ensures ParseSigned(Fixed(h) + rest, 2).Ok? && ParseSigned(Fixed(h) + rest, 2).value == h.apiKey
    ensures var s1 := ParseSigned(Fixed(h) + rest, 2).rest;
            ParseSigned(s1, 2).Ok? && ParseSigned(s1, 2).value == h.apiVersion &&
            ParseSigned(ParseSigned(s1, 2).rest, 4) == Ok(h.correlationId, rest)
  {
    Widths(h.apiKey, h.correlationId);
    Widths(h.apiVersion, h.correlationId);
    var a, b, c := Signed(h.apiKey, 2), Signed(h.apiVersion, 2), Signed(h.correlationId, 4);
    SignedRoundTrip(h.apiKey, 2, b + (c + rest));
    SignedRoundTrip(h.apiVersion, 2, c + rest);
    SignedRoundTrip(h.correlationId, 4, rest);
    assert Fixed(h) + rest == a + (b + (c + rest));
  }

  /** The bytes of a header, or why it has none. A tagged block is part of the flexible form only. */
  function Request(h: RequestHeader, version: Version, fields: seq<TaggedField>): Parsed<seq<Byte>>
    requires IsHeader(h)
  {
    match (if version.V0? then Ok([], []) else NullableString(h.clientId))
    case Err(e) => Err(e)
    case Ok(client, _) => Ok(Fixed(h) + client + (if version.V2? then TaggedBlock(fields) else []), [])
  }

  /**
   Every header that can be written is read back in front of any body,
   whatever tagged fields a newer client puts into it; the oldest form
   alone forgets the client id. Only a client id too long for the legacy
   string cannot be written.
   */
  lemma RequestRoundTrip(h: RequestHeader, version: Version, fields: seq<TaggedField>, utf8: Utf8, body: seq<Byte>)
    requires IsHeader(h) && (h.clientId.Some? ==> utf8(h.clientId.value))
    requires |fields| < U64 && forall f :: f in fields ==> Encodable(f)
    ensures Request(h, version, fields).Err? <==> version != V0 && h.clientId.Some? && |h.clientId.value| > 0x7FFF
    ensures Request(h, version, fields).Ok? ==>
              ParseRequest(Request(h, version, fields).value + body, version, utf8) ==
              Ok(if version.V0? then h.(clientId := None) else h, body)
  {
    hide ParseSigned, ParseNullableString, ParseBlock, TaggedBlock, Fixed;
    var block := if version.V2? then TaggedBlock(fields) else [];
    NullableStringRoundTrip(h.clientId, utf8, block + body);
    BlockRoundTrip(fields, body);
    if Request(h, version, fields).Ok? {
      var client := if version.V0? then [] else NullableString(h.clientId).value;
      FixedRoundTrip(h, client + (block + body));
      assert Request(h, version, fields).value + body == Fixed(h) + (client + (block + body));
      assert version.V0? ==> client + (block + body) == body;
      assert version.V1? ==> block + body == body;
    }
  }

  /**
   Where everything is on the wire: two bytes of key, two of version, four
   of correlation id, each with its high byte first; then the client id
   and, in the flexible form only, the tagged fields.
   */
  lemma RequestBytes(h: RequestHeader, version: Version, fields: seq<TaggedField>)
    requires IsHeader(h) && Request(h, version, fields).Ok?
    ensures Fits(h.apiKey, 2) && Fits(h.apiVersion, 2) && Fits(h.correlationId, 4)
    ensures var b := Request(h, version, fields).value;
            && |b| >= 8
            && b[0..2] == Signed(h.apiKey, 2) && b[2..4] == Signed(h.apiVersion, 2) && b[4..8] == Signed(h.correlationId, 4)
            && b[8..] == match (version, h.clientId)
                         case (V0, _) => []
                         case (V1, None) => [0xFF, 0xFF]
                         case (V1, Some(c)) => [|c| / 0x100, |c| % 0x100] + c
                         case (V2, None) => [0xFF, 0xFF] + TaggedBlock(fields)
                         case (V2, Some(c)) => [|c| / 0x100, |c| % 0x100] + c + TaggedBlock(fields)
  {
    FixedBytes(h);
    if !version.V0? {
      NullableStringBytes(h.clientId);
    }
    hide Signed, TaggedBlock, NullableString, Fixed;
    var client := if version.V0? then [] else NullableString(h.clientId).value;
    var block := if version.V2? then TaggedBlock(fields) else [];
    var b := Request(h, version, fields).value;
    assert b == Fixed(h) + (client + block);
    Tails(Fixed(h), client + block);
  }

  lemma FixedBytes(h: RequestHeader)
    requires IsHeader(h)
    ensures Fits(h.apiKey, 2) && Fits(h.apiVersion, 2) && Fits(h.correlationId, 4) && |Fixed(h)| == 8
    ensures Fixed(h)[0..2] == Signed(h.apiKey, 2) && Fixed(h)[2..4] == Signed(h.apiVersion, 2) && Fixed(h)[4..8] == Signed(h.correlationId, 4)
  {
    Widths(h.apiKey, h.correlationId);
    Widths(h.apiVersion, h.correlationId);
    SignedRoundTrip(h.apiKey, 2, []);
    SignedRoundTrip(h.apiVersion, 2, []);
    SignedRoundTrip(h.correlationId, 4, []);
    hide Signed;
  }

  lemma Tails(a: seq<Byte>, t: seq<Byte>)
    requires |a| == 8
    ensures (a + t)[0..2] == a[0..2] && (a + t)[2..4] == a[2..4] && (a + t)[4..8] == a[4..8] && (a + t)[8..] == t
  {
  }

  /** No fields are one zero byte; a short field is its tag, its length and its bytes. */
  lemma TaggedBytes(f: TaggedField)
    ensures TaggedBlock([]) == [0]
    ensures f.tag < 0x80 && |f.value| < 0x80 ==> TaggedBlock([f]) == [1, f.tag, |f.value|] + f.value
  {
    assert [f][1..] == [];
  }

  function ParseResponse(s: seq<Byte>, version: Version): Parsed<int> {
    match ParseSigned(s, 4)
    case Err(e) => Err(e)
    case Ok(correlationId, rest) =>
      match (if version.V0? then Ok([], rest) else ParseBlock(rest))
      case Err(e) => Err(e)
      case Ok(_, end) => Ok(correlationId, end)
  }

  function Response(correlationId: int, version: Version, fields: seq<TaggedField>): seq<Byte>
    requires IsI32(correlationId)
  {
    Widths(0, correlationId);
    Signed(correlationId, 4) + if version.V0? then [] else TaggedBlock(fields)
  }

  lemma ResponseRoundTrip(correlationId: int, version: Version, fields: seq<TaggedField>, body: seq<Byte>)
    requires IsI32(correlationId) && |fields| < U64 && forall f :: f in fields ==> Encodable(f)
    ensures ParseResponse(Response(correlationId, version, fields) + body, version) == Ok(correlationId, body)
  {
    var block := if version.V0? then [] else TaggedBlock(fields);
    Widths(0, correlationId);
    SignedRoundTrip(correlationId, 4, block + body);
    BlockRoundTrip(fields, body);
    assert Response(correlationId, version, fields) + body == Signed(correlationId, 4) + (block + body);
    assert version.V0? ==> block + body == body;
  }

  // ---- the buffer, read and written in place ----

  datatype Outcome<T> = Good(value: T) | Bad(error: Error)

  /** A read did what its value form says: the same value and the same bytes left, or the same error. */
  ghost predicate Reads<T>(p: Parsed<T>, r: Outcome<T>, data: seq<Byte>) {
    match p
    case Ok(v, rest) => r == Good(v) && data == rest
    case Err(e) => r == Bad(e)
  }

  /** What a varint read comes to after some low bytes, worth `x` together, have been taken. */
  function Resume(p: Parsed<nat>, x: nat, scale: nat): Parsed<nat> {
    match p
    case Ok(v, rest) => Ok(x + scale * v, rest)
    case Err(e) => Err(e)
  }

  lemma ResumeNothing(p: Parsed<nat>)
    ensures Resume(p, 0, 1) == p
  {
  }

  lemma ParseUvarintStep(s: seq<Byte>, room: nat)
    ensures ParseUvarint(s, room) ==
            if room == 0 then Err(InvalidUvarint)
            else if s == [] then Err(UnexpectedEof)
            else if s[0] >= 0x80 then Resume(ParseUvarint(s[1..], room - 1), s[0] - 0x80, 0x80)
            else if room == 1 && s[0] > 1 then Err(InvalidUvarint)
            else Ok(s[0], s[1..])
  {
  }

  lemma ResumeStep(p: Parsed<nat>, q: Parsed<nat>, b: nat, x: nat, scale: nat)
    requires p == Resume(q, b, 0x80)
    ensures Resume(p, x, scale) == Resume(q, x + b * scale, scale * 0x80)
  {
    if q.Ok? {
      assert scale * (b + 0x80 * q.value) == b * scale + scale * 0x80 * q.value;
    }
  }

  class Buffer {
    var data: seq<Byte>

    method ReadUvarint() returns (r: Outcome<nat>)
      modifies this
      ensures Reads(ParseUvarint(old(data), MAX_UVARINT_LEN), r, data)
    {
      hide ParseUvarint;
      ResumeNothing(ParseUvarint(data, MAX_UVARINT_LEN));
      var x: nat, scale: nat := 0, 1;
      for i := 0 to MAX_UVARINT_LEN
        invariant ParseUvarint(old(data), MAX_UVARINT_LEN) == Resume(ParseUvarint(data, MAX_UVARINT_LEN - i), x, scale)
      {
        ParseUvarintStep(data, MAX_UVARINT_LEN - i);
        if data == [] {
          return Bad(UnexpectedEof);
        }
        var b: nat := data[0];
        ghost var p, q := ParseUvarint(data, MAX_UVARINT_LEN - i), ParseUvarint(data[1..], MAX_UVARINT_LEN - i - 1);
        data := data[1..];
        if b < 0x80 {
          if i == MAX_UVARINT_LEN - 1 && b > 1 {
            return Bad(InvalidUvarint);
          }
          return Good(x + scale * b);
        }
        ResumeStep(p, q, b - 0x80, x, scale);
        x, scale := x + (b - 0x80) * scale, scale * 0x80;
      }
      ParseUvarintStep(data, 0);
      return Bad(InvalidUvarint);
    }

    method WriteUvarint(v: nat)
      modifies this
      ensures data == old(data) + Uvarint(v)
    {
      var x := v;
      while x >= 0x80
        invariant data + Uvarint(x) == old(data) + Uvarint(v)
      {
        data := data + [x % 0x80 + 0x80];
        x := x / 0x80;
      }
      data := data + [x];
    }

    method ReadField() returns (r: Outcome<TaggedField>)
      modifies this
      ensures Reads(ParseField(old(data)), r, data)
    {
      var tag := ReadUvarint();
      if tag.Bad? {
        return Bad(tag.error);
      }
      var size := ReadUvarint();
      if size.Bad? {
        return Bad(size.error);
      }
      if |data| < size.value {
        return Bad(UnexpectedEof);
      }
      r := Good(TaggedField(tag.value, data[..size.value]));
      data := data[size.value..];
    }

    /** Collects every field. */
    method ReadInto() returns (r: Outcome<seq<TaggedField>>)
      modifies this
      ensures Reads(ParseBlock(old(data)), r, data)
    {
      hide ParseField, ParseUvarint;
      var n := ReadUvarint();
      if n.Bad? {
        return Bad(n.error);
      }
      var out: seq<TaggedField> := [];
      PrependNothing(ParseFields(data, n.value));
      for i := 0 to n.value
        invariant ParseBlock(old(data)) == Prepend(out, ParseFields(data, n.value - i))
      {
        var f := ReadField();
        if f.Bad? {
          return Bad(f.error);
        }
        PrependStep(out, f.value, ParseFields(data, n.value - i - 1));
        out := out + [f.value];
      }
      assert out + [] == out;
      return Good(out);
    }

    /** Skips every field: fails, and stops, exactly where collecting them would. */
    method Skip() returns (r: Outcome<()>)
      modifies this
      ensures Reads(Skipped(ParseBlock(old(data))), r, data)
    {
      hide ParseField, ParseUvarint;
      var n := ReadUvarint();
      if n.Bad? {
        return Bad(n.error);
      }
      for i := 0 to n.value
        invariant Skipped(ParseBlock(old(data))) == Skipped(ParseFields(data, n.value - i))
      {
        var f := ReadField();
        if f.Bad? {
          return Bad(f.error);
        }
      }
      return Good(());
    }

    method WriteBlock(fields: seq<TaggedField>)
      modifies this
      ensures data == old(data) + TaggedBlock(fields)
    {
      hide Uvarint;
      WriteUvarint(|fields|);
      ghost var start := data;
      assert fields[0..] == fields;
      for i := 0 to |fields|
        invariant data + TaggedAll(fields[i..]) == start + TaggedAll(fields)
      {
        ghost var before := data;
        WriteUvarint(fields[i].tag);
        WriteUvarint(|fields[i].value|);
        data := data + fields[i].value;
        Unroll(fields, i);
        assert data + TaggedAll(fields[i + 1..]) == before + TaggedAll(fields[i..]);
      }
      assert data + [] == data;
      assert start + TaggedAll(fields) == old(data) + TaggedBlock(fields);
    }

    method ReadSigned(width: nat) returns (r: Outcome<int>)
      modifies this
      ensures Reads(ParseSigned(old(data), width), r, data)
    {
      if |data| < width {
        return Bad(UnexpectedEof);
      }
      var u := FromBigEndian(data[..width]);
      r := Good(if 2 * u < Pow256(width) then u else u - Pow256(width));
      data := data[width..];
    }

    method ReadNullableString(utf8: Utf8) returns (r: Outcome<Option<seq<Byte>>>)
      modifies this
      ensures Reads(ParseNullableString(old(data), utf8), r, data)
    {
      var n := ReadSigned(2);
      if n.Bad? {
        return Bad(n.error);
      }
      if n.value < 0 {
        return Good(None);
      }
      if |data| < n.value {
        return Bad(UnexpectedEof);
      }
      var bytes := data[..n.value];
      data := data[n.value..];
      if !utf8(bytes) {
        return Bad(InvalidUtf8);
      }
      return Good(Some(bytes));
    }

    method DecodeRequest(version: Version, utf8: Utf8) returns (r: Outcome<RequestHeader>)
      modifies this
      ensures Reads(ParseRequest(old(data), version, utf8), r, data)
    {
      hide ParseSigned, ParseNullableString, ParseBlock;
      var apiKey := ReadSigned(2);
      if apiKey.Bad? {
        return Bad(apiKey.error);
      }
      var apiVersion := ReadSigned(2);
      if apiVersion.Bad? {
        return Bad(apiVersion.error);
      }
      var correlationId := ReadSigned(4);
      if correlationId.Bad? {
        return Bad(correlationId.error);
      }
      var clientId: Outcome<Option<seq<Byte>>> := Good(None);
      if !version.V0? {
        clientId := ReadNullableString(utf8);
        if clientId.Bad? {
          return Bad(clientId.error);
        }
      }
      if version.V2? {
        var skipped := Skip();
        if skipped.Bad? {
          return Bad(skipped.error);
        }
      }
      return Good(RequestHeader(apiKey.value, apiVersion.value, correlationId.value, clientId.value));
    }

    /** Writes the fixed fields first, so a client id that is too long leaves them behind. */
    method EncodeRequest(h: RequestHeader, version: Version) returns (r: Outcome<()>)
      requires IsHeader(h)
      modifies this
      ensures match Request(h, version, [])
              case Ok(bytes, _) => r == Good(()) && data == old(data) + bytes
              case Err(e) => r == Bad(e) && data == old(data) + Fixed(h)
    {
      Widths(h.apiKey, h.correlationId);
      Widths(h.apiVersion, h.correlationId);
      ghost var fixed := Fixed(h);
      data := data + Signed(h.apiKey, 2);
      data := data + Signed(h.apiVersion, 2);
      data := data + Signed(h.correlationId, 4);
      assert data == old(data) + fixed;
      if !version.V0? {
        var client := NullableString(h.clientId);
        if client.Err? {
          return Bad(client.error);
        }
        data := data + client.value;
      }
      if version.V2? {
        WriteUvarint(0);
        assert TaggedBlock([]) == Uvarint(0);
      }
      return Good(());
    }
  }

  lemma Unroll(fields: seq<TaggedField>, i: nat)
    requires i < |fields|
    ensures TaggedAll(fields[i..]) == Uvarint(fields[i].tag) + Uvarint(|fields[i].value|) + fields[i].value + TaggedAll(fields[i + 1..])
  {
    assert fields[i..][1..] == fields[i + 1..];
  }

  function Skipped<T>(p: Parsed<T>): Parsed<()> {
    match p
    case Ok(_, rest) => Ok((), rest)
    case Err(e) => Err(e)
  }

  lemma PrependNothing(p: Parsed<seq<TaggedField>>)
    ensures Prepend([], p) == p
  {
    if p.Ok? {
      assert [] + p.value == p.value;
    }
  }

  function Prepend(out: seq<TaggedField>, p: Parsed<seq<TaggedField>>): Parsed<seq<TaggedField>> {
    match p
    case Ok(fs, rest) => Ok(out + fs, rest)
    case Err(e) => Err(e)
  }

  lemma PrependStep(out: seq<TaggedField>, f: TaggedField, p: Parsed<seq<TaggedField>>)
    ensures Prepend(out, Prepend([f], p)) == Prepend(out + [f], p)
  {
    if p.Ok? {
      assert out + ([f] + p.value) == out + [f] + p.value;
    }
  }
}
