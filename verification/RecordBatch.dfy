/**
 Counting the records of a stream of record batches from the batch headers
 alone, in memory and in a file, and the control batch that carries a
 transaction marker. The checksum is a parameter.
 */
module RecordBatch {
  import opened Layout
  import opened Wire
  import Slices

  const HEADER_SIZE := 61
  const LENGTH_OFFSET := 8
  const PREFIX_SIZE := 12
  const NUM_RECORDS_OFFSET := 57
  const MIN_LENGTH_FIELD := 49
  const I64_MAX := 0x7FFF_FFFF_FFFF_FFFF

  function I32At(b: seq<Byte>, offset: nat): int
    requires offset + 4 <= |b|
  {
    ParseSigned(b[offset..], 4).value
  }

  /** The wire length a header claims, if it can be a batch header. */
  function WireLength(header: seq<Byte>): Option<nat>
    requires |header| >= HEADER_SIZE
  {
    var n := I32At(header, LENGTH_OFFSET);
    if n < MIN_LENGTH_FIELD then None else Some(PREFIX_SIZE + n)
  }

  function RecordsIn(header: seq<Byte>): nat
    requires |header| >= HEADER_SIZE
  {
    var n := I32At(header, NUM_RECORDS_OFFSET);
    if n > 0 then n else 0
  }

  /** The first batch of a stream is there in full. */
  predicate Complete(b: seq<Byte>) {
    |b| >= HEADER_SIZE && WireLength(b).Some? && WireLength(b).value <= |b|
  }

  /** Records in the complete batches at the front of a stream. */
  function Records(b: seq<Byte>): nat {
    if Complete(b) then RecordsIn(b) + Records(b[WireLength(b).value..]) else 0
  }

  predicate WholeBatches(b: seq<Byte>) {
    b == [] || (Complete(b) && WholeBatches(b[WireLength(b).value..]))
  }

  function Saturated(n: nat): nat {
    if n > I64_MAX then I64_MAX else n
  }

  /** A header means the same whatever follows it. */
  lemma HeaderOnly(a: seq<Byte>, b: seq<Byte>)
    requires |a| >= HEADER_SIZE && |b| >= HEADER_SIZE && a[..HEADER_SIZE] == b[..HEADER_SIZE]
    ensures WireLength(a) == WireLength(b) && RecordsIn(a) == RecordsIn(b)
  {
    SameI32(a, b, LENGTH_OFFSET);
    SameI32(a, b, NUM_RECORDS_OFFSET);
  }

  lemma SameI32(a: seq<Byte>, b: seq<Byte>, offset: nat)
    requires |a| >= HEADER_SIZE && |b| >= HEADER_SIZE && a[..HEADER_SIZE] == b[..HEADER_SIZE] && offset + 4 <= HEADER_SIZE
    ensures I32At(a, offset) == I32At(b, offset)
  {
    hide FromBigEndian;
    Slices.Within(a, HEADER_SIZE, offset, 4);
    Slices.Within(b, HEADER_SIZE, offset, 4);
  }

  /** Counting is additive over whole batches. */
  lemma {:induction false} RecordsAddUp(a: seq<Byte>, b: seq<Byte>)
    requires WholeBatches(a)
    ensures Records(a + b) == Records(a) + Records(b)
    decreases |a|
  {
    if a == [] {
      assert a + b == b;
    } else {
      HeaderOnly(a, a + b);
      var n := WireLength(a).value;
      assert (a + b)[n..] == a[n..] + b;
      RecordsAddUp(a[n..], b);
    }
  }

  method CountRecords(b: seq<Byte>) returns (total: nat)
    ensures total == Saturated(Records(b))
    ensures total == if Records(b) < 0x8000_0000_0000_0000 then Records(b) else 0x7FFF_FFFF_FFFF_FFFF
  {
    total := 0;
    var pos := 0;
    ghost var exact: nat := 0;
    while pos + HEADER_SIZE <= |b|
      invariant 0 <= pos <= |b|
      invariant Records(b) == exact + Records(b[pos..]) && total == Saturated(exact)
      decreases |b| - pos
    {
      var n := WireLength(b[pos..]);
      if n.None? || pos + n.value > |b| {
        return;
      }
      var records := RecordsIn(b[pos..]);
      assert b[pos..][n.value..] == b[pos + n.value..];
      total := Saturated(total + records);
      exact := exact + records;
      pos := pos + n.value;
    }
  }

  // ---- the same over a file ----

  /** The window of a file, as far as the file goes. */
  function Window(file: seq<Byte>, cur: nat, end: nat): seq<Byte> {
    if cur <= end && cur <= |file| then file[cur..if end < |file| then end else |file|] else []
  }

  /**
   Records in the one batch that starts in the file and ends in the window
   but beyond the end of the file: its header is there, its body is not.
   */
  function Torn(file: seq<Byte>, cur: nat, end: nat): nat
    decreases if cur <= |file| then |file| - cur else 0
  {
    if cur + HEADER_SIZE > end || cur + HEADER_SIZE > |file| || WireLength(file[cur..]).None? then 0
    else
      var next := cur + WireLength(file[cur..]).value;
      if next > end then 0
      else if next > |file| then RecordsIn(file[cur..])
      else Torn(file, next, end)
  }

  /** A window inside the file tears no batch. */
  lemma {:induction false} InsideNothingIsTorn(file: seq<Byte>, cur: nat, end: nat)
    requires end <= |file|
    ensures Torn(file, cur, end) == 0
    decreases if cur <= |file| then |file| - cur else 0
  {
    if cur + HEADER_SIZE <= end && WireLength(file[cur..]).Some? {
      var next := cur + WireLength(file[cur..]).value;
      if next <= end {
        InsideNothingIsTorn(file, next, end);
      }
    }
  }

  /** One step of the walk over the file, seen from the window in memory. */
  lemma WindowStep(file: seq<Byte>, cur: nat, end: nat)
    requires cur + HEADER_SIZE <= end && cur + HEADER_SIZE <= |file|
    ensures var w := Window(file, cur, end);
            && |w| >= HEADER_SIZE && WireLength(w) == WireLength(file[cur..]) && RecordsIn(w) == RecordsIn(file[cur..])
            && (WireLength(w).Some? && WireLength(w).value <= |w| ==>
                  w[WireLength(w).value..] == Window(file, cur + WireLength(w).value, end))
  {
    var w := Window(file, cur, end);
    assert w[..HEADER_SIZE] == file[cur..][..HEADER_SIZE];
    HeaderOnly(w, file[cur..]);
  }

  /** Reads only headers, and stops quietly at the end of the file. */
  method CountRecordsAt(file: seq<Byte>, pos: nat, length: nat) returns (total: nat)
    ensures total == Saturated(Records(Window(file, pos, pos + length)) + Torn(file, pos, pos + length))
  {
    hide WireLength, RecordsIn;
    total := 0;
    var cur, end := pos, pos + length;
    ghost var exact: nat := 0;
    while cur + HEADER_SIZE <= end
      invariant total == Saturated(exact)
      invariant Records(Window(file, pos, end)) + Torn(file, pos, end) == exact + Records(Window(file, cur, end)) + Torn(file, cur, end)
      decreases end - cur
    {
      if cur + HEADER_SIZE > |file| {
        return;
      }
      WindowStep(file, cur, end);
      WireLengthIsLong(file[cur..]);
      var n := WireLength(file[cur..]);
      if n.None? || cur + n.value > end {
        return;
      }
      var records := RecordsIn(file[cur..]);
      total := Saturated(total + records);
      exact := exact + records;
      cur := cur + n.value;
    }
  }

  lemma WireLengthIsLong(header: seq<Byte>)
    requires |header| >= HEADER_SIZE
    ensures WireLength(header).Some? ==> WireLength(header).value >= HEADER_SIZE
  {
  }

  /** Inside the file, counting by seeking and counting in memory agree. */
  lemma SeekingAgreesInside(file: seq<Byte>, pos: nat, length: nat)
    requires pos + length <= |file|
    ensures Records(Window(file, pos, pos + length)) + Torn(file, pos, pos + length) == Records(file[pos..pos + length])
  {
    InsideNothingIsTorn(file, pos, pos + length);
  }

  /** One whole batch inside the file lies between two positions. */
  ghost predicate Follows(file: seq<Byte>, at: nat, next: nat) {
    at + HEADER_SIZE <= |file| && at <= next <= |file| && WireLength(file[at..]) == Some(next - at)
  }

  /** The positions a walk over whole batches inside the file passes. */
  ghost predicate Walk(file: seq<Byte>, ps: seq<nat>) {
    ps != [] && (|ps| == 1 || (Follows(file, ps[0], ps[1]) && Walk(file, ps[1..])))
  }

  /** A header inside the file counts records of a batch that ends beyond the file and inside the window. */
  ghost predicate TornAt(file: seq<Byte>, at: nat, end: nat) {
    && at + HEADER_SIZE <= |file| && WireLength(file[at..]).Some?
    && |file| < at + WireLength(file[at..]).value <= end && RecordsIn(file[at..]) > 0
  }

  /** A walk from `pos` ends at such a header. */
  ghost predicate WalkToTorn(file: seq<Byte>, ps: seq<nat>, pos: nat, end: nat) {
    Walk(file, ps) && ps[0] == pos && TornAt(file, ps[|ps| - 1], end)
  }

  lemma {:induction false} TornIsReached(file: seq<Byte>, pos: nat, end: nat) returns (ps: seq<nat>)
    requires Torn(file, pos, end) > 0
    ensures WalkToTorn(file, ps, pos, end)
    decreases if pos <= |file| then |file| - pos else 0
  {
    WireLengthIsLong(file[pos..]);
    hide WireLength, RecordsIn;
    var next := pos + WireLength(file[pos..]).value;
    if next > |file| {
      ps := [pos];
    } else {
      var rest := TornIsReached(file, next, end);
      ps := [pos] + rest;
      assert ps[1..] == rest;
    }
  }

  lemma {:induction false} ReachedIsTorn(file: seq<Byte>, ps: seq<nat>, pos: nat, end: nat)
    requires WalkToTorn(file, ps, pos, end)
    ensures Torn(file, pos, end) > 0
    decreases |ps|
  {
    WireLengthIsLong(file[pos..]);
    hide WireLength, RecordsIn;
    if |ps| > 1 {
      ReachedIsTorn(file, ps[1..], ps[1], end);
    }
  }

  /**
   The two counters differ exactly if the walk over whole batches reaches
   a header in the file that counts records, of a batch that ends between
   the file's end and the window's.
   */
  lemma TornIff(file: seq<Byte>, pos: nat, end: nat)
    ensures Torn(file, pos, end) > 0 <==> exists ps: seq<nat> :: WalkToTorn(file, ps, pos, end)
  {
    hide Torn, WalkToTorn;
    if Torn(file, pos, end) > 0 {
      var ps := TornIsReached(file, pos, end);
    }
    if ps: seq<nat> :| WalkToTorn(file, ps, pos, end) {
      ReachedIsTorn(file, ps, pos, end);
    }
  }

  // ---- control batches ----

  const ATTRIBUTES := 0x30

  datatype ControlMarker = ControlMarker(producerId: int, producerEpoch: int, commit: bool, coordinatorEpoch: int)

  predicate IsMarker(m: ControlMarker) {
    Fits(m.producerId, 8) && Fits(m.producerEpoch, 2) && Fits(m.coordinatorEpoch, 4)
  }

  lemma SmallFits(n: int, width: nat)
    requires width == 2 || width == 4 || width == 8
    requires -1 <= n <= 0x7FFF
    ensures Fits(n, width)
  {
    assert Pow256(2) == 0x1_0000;
    assert Pow256(4) == 0x1_0000_0000;
    assert Pow256(8) == 0x1_0000_0000_0000_0000 by { assert Pow256(6) == 0x1_0000_0000_0000; }
  }

  function Small(n: int, width: nat): (b: seq<Byte>)
    requires width == 2 || width == 4 || width == 8
    requires -1 <= n <= 0x7FFF
    ensures |b| == width
  {
    SmallFits(n, width);
    SignedRoundTrip(n, width, []);
    Signed(n, width)
  }

  /** One record: its length, then attributes, deltas, key, value and no headers. */
  function EncodeRecord(key: seq<Byte>, value: seq<Byte>): seq<Byte> {
    var body := [0] + Varint(0) + Varint(0) + Varint(|key|) + key + Varint(|value|) + value + Varint(0);
    Varint(|body|) + body
  }

  function MarkerRecord(m: ControlMarker): seq<Byte>
    requires IsMarker(m)
  {
    EncodeRecord(Small(0, 2) + Small(if m.commit then 1 else 0, 2), Small(0, 2) + Signed(m.coordinatorEpoch, 4))
  }

  /** Attributes, offset delta and timestamps; the producer; base sequence, record count and the record. */
  function Payload(m: ControlMarker): seq<Byte>
    requires IsMarker(m)
  {
    Small(ATTRIBUTES, 2) + (Small(0, 4) + Small(0, 8) + Small(0, 8)
      + (Signed(m.producerId, 8) + (Signed(m.producerEpoch, 2) + (Small(-1, 4) + (Small(1, 4) + MarkerRecord(m))))))
  }

  lemma SmallVarints()
    ensures Varint(0) == [0] && Varint(4) == [8] && Varint(6) == [12] && Varint(16) == [32]
  {
  }

  lemma EncodeRecordIs(key: seq<Byte>, value: seq<Byte>)
    requires |key| == 4 && |value| == 6
    ensures EncodeRecord(key, value) == [32, 0, 0, 0, 8] + key + [12] + value + [0]
  {
    SmallVarints();
    hide Varint;
    var body: seq<Byte> := [0] + [0] + [0] + [8] + key + [12] + value + [0];
    assert EncodeRecord(key, value) == [32] + body;
  }

  lemma MarkerRecordIs(m: ControlMarker)
    requires IsMarker(m)
    ensures |MarkerRecord(m)| == 17
    ensures MarkerRecord(m)[5..9] == Small(0, 2) + Small(if m.commit then 1 else 0, 2)
    ensures MarkerRecord(m)[10..16] == Small(0, 2) + Signed(m.coordinatorEpoch, 4)
  {
    SignedRoundTrip(m.coordinatorEpoch, 4, []);
    hide EncodeRecord, Small, Signed;
    EncodeRecordIs(Small(0, 2) + Small(if m.commit then 1 else 0, 2), Small(0, 2) + Signed(m.coordinatorEpoch, 4));
  }

  function ControlBatch(m: ControlMarker, crc: seq<Byte> -> nat): seq<Byte>
    requires IsMarker(m) && 9 + |Payload(m)| <= 0x7FFF
  {
    Small(0, 8) + (Small(9 + |Payload(m)|, 4) + (Small(0, 4) + [2] + BigEndian(crc(Payload(m)) % 0x1_0000_0000, 4) + Payload(m)))
  }

  /** The payload, field by field. */
  method BuildPayload(m: ControlMarker) returns (payload: seq<Byte>)
    requires IsMarker(m)
    ensures payload == Payload(m)
  {
    hide Signed, Small, MarkerRecord;
    payload := Small(ATTRIBUTES, 2);
    payload := payload + Small(0, 4);
    payload := payload + Small(0, 8);
    payload := payload + Small(0, 8);
    ghost var fixed := payload;
    payload := payload + Signed(m.producerId, 8);
    payload := payload + Signed(m.producerEpoch, 2);
    payload := payload + Small(-1, 4);
    payload := payload + Small(1, 4);
    payload := payload + MarkerRecord(m);
    assert payload == fixed + (Signed(m.producerId, 8) + (Signed(m.producerEpoch, 2) + (Small(-1, 4) + (Small(1, 4) + MarkerRecord(m)))));
  }

  method BuildControlBatch(m: ControlMarker, crc: seq<Byte> -> nat) returns (batch: seq<Byte>)
    requires IsMarker(m)
    ensures |Payload(m)| == 57 && batch == ControlBatch(m, crc)
  {
    PayloadIs(m);
    var payload := BuildPayload(m);
    hide Signed, Small, Payload, BigEndian;
    batch := Small(0, 8);
    batch := batch + Small(9 + |payload|, 4);
    batch := batch + Small(0, 4);
    batch := batch + [2];
    batch := batch + BigEndian(crc(payload) % 0x1_0000_0000, 4);
    batch := batch + payload;
  }

  /** Dropping the first field, or the first two. */
  lemma Drops(s: seq<Byte>, a: seq<Byte>, b: seq<Byte>, t: seq<Byte>)
    requires s == a + (b + t)
    ensures s[|a|..] == b + t && s[|a| + |b|..] == t
  {
  }

  lemma PayloadIs(m: ControlMarker)
    requires IsMarker(m)
    ensures |Payload(m)| == 57
    ensures Payload(m)[22..] == Signed(m.producerId, 8) + (Signed(m.producerEpoch, 2) + (Small(-1, 4) + (Small(1, 4) + MarkerRecord(m))))
  {
    MarkerRecordIs(m);
    SignedRoundTrip(m.producerId, 8, []);
    SignedRoundTrip(m.producerEpoch, 2, []);
    hide Signed, Small, MarkerRecord;
    var tail := Signed(m.producerId, 8) + (Signed(m.producerEpoch, 2) + (Small(-1, 4) + (Small(1, 4) + MarkerRecord(m))));
    Drops(Payload(m), Small(ATTRIBUTES, 2), Small(0, 4) + Small(0, 8) + Small(0, 8), tail);
  }

  lemma ControlBatchFront(m: ControlMarker, crc: seq<Byte> -> nat)
    requires IsMarker(m) && |Payload(m)| == 57
    ensures var b := ControlBatch(m, crc);
            |b| == 78 && b[8..] == Small(66, 4) + b[12..] && b[21..] == Payload(m)
  {
    var b := ControlBatch(m, crc);
    var sum := BigEndian(crc(Payload(m)) % 0x1_0000_0000, 4);
    assert |sum| == 4 by {
      assert Pow256(4) == 0x1_0000_0000;
      BigEndianRoundTrip(crc(Payload(m)) % 0x1_0000_0000, 4);
    }
    hide Signed, Small, Payload, BigEndian;
    var front := Small(0, 4) + [2] + sum;
    Drops(b, Small(0, 8), Small(66, 4), front + Payload(m));
    Drops(b[12..], [], front, Payload(m));
    assert b[12..][9..] == b[21..];
  }

  lemma PayloadTail(m: ControlMarker)
    requires IsMarker(m) && |Payload(m)| == 57
    ensures var p := Payload(m);
            && p[22..] == Signed(m.producerId, 8) + p[30..]
            && p[30..] == Signed(m.producerEpoch, 2) + p[32..]
            && p[36..] == Small(1, 4) + p[40..]
            && p[40..] == MarkerRecord(m)
  {
    PayloadIs(m);
    SignedRoundTrip(m.producerId, 8, []);
    SignedRoundTrip(m.producerEpoch, 2, []);
    hide Signed, Small, MarkerRecord, Payload;
    var p, last := Payload(m), Small(1, 4) + MarkerRecord(m);
    Drops(p[22..], Signed(m.producerId, 8), Signed(m.producerEpoch, 2), Small(-1, 4) + last);
    assert p[22..][8..] == p[30..] && p[22..][10..] == p[32..];
    Drops(p[32..], Small(-1, 4), Small(1, 4), MarkerRecord(m));
    assert p[32..][4..] == p[36..] && p[32..][8..] == p[40..];
  }

  /** Where the fields of a control batch are. */
  lemma ControlBatchFields(m: ControlMarker, crc: seq<Byte> -> nat)
    requires IsMarker(m) && |Payload(m)| == 57
    ensures var b := ControlBatch(m, crc);
            && |b| == 78
            && b[8..] == Small(66, 4) + b[12..]
            && b[43..] == Signed(m.producerId, 8) + b[51..]
            && b[51..] == Signed(m.producerEpoch, 2) + b[53..]
            && b[57..] == Small(1, 4) + b[61..]
            && b[61..] == MarkerRecord(m)
  {
    ControlBatchFront(m, crc);
    PayloadTail(m);
    hide Signed, Small, MarkerRecord, Payload, ControlBatch;
    var b := ControlBatch(m, crc);
    assert b[21..][22..] == b[43..] && b[21..][30..] == b[51..] && b[21..][32..] == b[53..];
    assert b[21..][36..] == b[57..] && b[21..][40..] == b[61..];
  }

  /** A field that starts a stretch of bytes is read back from it. */
  lemma ReadsAt(b: seq<Byte>, offset: nat, v: int, width: nat)
    requires Fits(v, width) && offset <= |b| && |Signed(v, width)| <= |b[offset..]|
    requires b[offset..] == Signed(v, width) + b[offset..][|Signed(v, width)|..]
    ensures ParseSigned(b[offset..], width) == Ok(v, b[offset..][|Signed(v, width)|..])
  {
    SignedRoundTrip(v, width, b[offset..][|Signed(v, width)|..]);
  }

  /** Every control batch is as long as its length field says, counts as exactly one record, and names its producer. */
  lemma ControlBatchCountsOne(m: ControlMarker, crc: seq<Byte> -> nat)
    requires IsMarker(m)
    ensures |Payload(m)| == 57
    ensures var b := ControlBatch(m, crc);
            && |b| == 78 == PREFIX_SIZE + I32At(b, LENGTH_OFFSET)
            && WholeBatches(b) && Records(b) == 1
            && ParseSigned(b[43..], 8).Ok? && ParseSigned(b[43..], 8).value == m.producerId
            && ParseSigned(b[51..], 2).Ok? && ParseSigned(b[51..], 2).value == m.producerEpoch
  {
    PayloadIs(m);
    ControlBatchFields(m, crc);
    var b := ControlBatch(m, crc);
    SmallFits(66, 4);
    SmallFits(1, 4);
    hide ParseSigned, Signed, ControlBatch, Payload, MarkerRecord;
    assert b[8..][4..] == b[12..] && b[57..][4..] == b[61..];
    assert b[43..][8..] == b[51..] && b[51..][2..] == b[53..];
    SignedRoundTrip(m.producerId, 8, []);
    SignedRoundTrip(m.producerEpoch, 2, []);
    ReadsAt(b, 8, 66, 4);
    ReadsAt(b, 57, 1, 4);
    ReadsAt(b, 43, m.producerId, 8);
    ReadsAt(b, 51, m.producerEpoch, 2);
    assert b[78..] == [];
  }

  /** The record inside says commit or abort, and by which coordinator epoch. */
  lemma ControlBatchSaysWhich(m: ControlMarker, crc: seq<Byte> -> nat)
    requires IsMarker(m)
    ensures |Payload(m)| == 57 && |ControlBatch(m, crc)| == 78
    ensures var b := ControlBatch(m, crc);
            && ParseSigned(b[68..], 2).Ok? && ParseSigned(b[68..], 2).value == (if m.commit then 1 else 0)
            && ParseSigned(b[73..], 4).Ok? && ParseSigned(b[73..], 4).value == m.coordinatorEpoch
  {
    PayloadIs(m);
    ControlBatchFields(m, crc);
    MarkerRecordIs(m);
    var b, kind := ControlBatch(m, crc), if m.commit then 1 else 0;
    SmallFits(kind, 2);
    SignedRoundTrip(m.coordinatorEpoch, 4, []);
    hide ParseSigned, Signed, ControlBatch, Payload, MarkerRecord;
    Inside(b, 61, 5, 9, Small(0, 2), Small(kind, 2));
    Inside(b, 61, 10, 16, Small(0, 2), Signed(m.coordinatorEpoch, 4));
    ReadsPrefix(b[68..], kind, 2);
    ReadsPrefix(b[73..], m.coordinatorEpoch, 4);
  }

  lemma Inside(b: seq<Byte>, at: nat, lo: nat, hi: nat, before: seq<Byte>, field: seq<Byte>)
    requires at + hi <= |b| && lo <= hi && b[at..][lo..hi] == before + field
    ensures at + lo + |before| + |field| <= |b| && b[at + lo + |before|..][..|field|] == field
  {
    var s := b[at..][lo..hi];
    assert s[|before|..] == field;
    assert |s| == |before| + |field|;
  }

  lemma ReadsPrefix(s: seq<Byte>, v: int, width: nat)
    requires Fits(v, width) && |s| >= width && s[..width] == Signed(v, width)
    ensures ParseSigned(s, width) == Ok(v, s[width..])
  {
    SignedRoundTrip(v, width, s[width..]);
    assert s == Signed(v, width) + s[width..];
  }

  /**
   The header of every control batch: magic 2; the transactional and the
   control bit and no other; no sequence number; and before them the
   checksum of everything from the attributes on.
   */
  lemma ControlBatchHeader(m: ControlMarker, crc: seq<Byte> -> nat)
    requires IsMarker(m)
    ensures |Payload(m)| == 57 && |ControlBatch(m, crc)| == 78
    ensures var b := ControlBatch(m, crc);
            && b[16] == 2
            && FromBigEndian(b[17..21]) == crc(b[21..]) % 0x1_0000_0000
            && ParseSigned(b[21..], 2).Ok? && ParseSigned(b[21..], 2).value == 16 + 32
            && ParseSigned(b[53..], 4).Ok? && ParseSigned(b[53..], 4).value == -1
  {
    PayloadIs(m);
    ControlBatchFront(m, crc);
    PayloadTail(m);
    SmallFits(ATTRIBUTES, 2);
    SmallFits(-1, 4);
    var b, p := ControlBatch(m, crc), Payload(m);
    var n := crc(p) % 0x1_0000_0000;
    assert Pow256(4) == 0x1_0000_0000;
    BigEndianRoundTrip(n, 4);
    ChecksumPlace(m, crc);
    PayloadEnds(m);
    hide ParseSigned, Signed, ControlBatch, Payload, BigEndian, FromBigEndian;
    ReadsPrefix(b[21..], ATTRIBUTES, 2);
    assert b[53..] == b[21..][32..];
    ReadsPrefix(b[53..], -1, 4);
  }

  lemma ChecksumPlace(m: ControlMarker, crc: seq<Byte> -> nat)
    requires IsMarker(m) && |Payload(m)| == 57
    ensures var b := ControlBatch(m, crc);
            |b| == 78 && b[16] == 2 && b[17..21] == BigEndian(crc(Payload(m)) % 0x1_0000_0000, 4)
  {
    var sum := BigEndian(crc(Payload(m)) % 0x1_0000_0000, 4);
    BigEndianLength(crc(Payload(m)) % 0x1_0000_0000, 4);
    ControlBatchFront(m, crc);
    hide Signed, Small, Payload, BigEndian;
    var b := ControlBatch(m, crc);
    assert b == (Small(0, 8) + Small(66, 4) + Small(0, 4)) + [2] + sum + Payload(m);
  }

  lemma PayloadEnds(m: ControlMarker)
    requires IsMarker(m) && |Payload(m)| == 57
    ensures Payload(m)[..2] == Small(ATTRIBUTES, 2) && Payload(m)[32..][..4] == Small(-1, 4)
  {
    PayloadIs(m);
    SignedRoundTrip(m.producerId, 8, []);
    SignedRoundTrip(m.producerEpoch, 2, []);
    var p := Payload(m);
    assert p[..2] == Small(ATTRIBUTES, 2);
    hide Signed, Small, MarkerRecord, Payload;
    Drops(p[22..], Signed(m.producerId, 8), Signed(m.producerEpoch, 2), Small(-1, 4) + (Small(1, 4) + MarkerRecord(m)));
    assert p[22..][10..] == p[32..];
  }

  /** A single batch: there in full from 61 bytes and a length field of 49 on, with as many records as its count says, none if negative. */
  lemma OneBatch(b: seq<Byte>)
    requires |b| >= 61 && |b| == 12 + ParseSigned(b[8..], 4).value
    ensures ParseSigned(b[8..], 4).value >= 49 && WholeBatches(b)
    ensures ParseSigned(b[57..], 4).Ok?
    ensures var n := ParseSigned(b[57..], 4).value; Records(b) == if n > 0 then n else 0
  {
    hide FromBigEndian;
    assert b[|b|..] == [];
  }

  /** A window that reaches past a file ending inside a batch counts records whose bytes are not there. */
  lemma TornTailIsCounted(m: ControlMarker, crc: seq<Byte> -> nat)
    requires IsMarker(m)
    ensures |Payload(m)| == 57 && |ControlBatch(m, crc)| == 78
    ensures var file := ControlBatch(m, crc)[..HEADER_SIZE];
            Records(Window(file, 0, 78)) == 0 && Torn(file, 0, 78) == 1
  {
    ControlBatchCountsOne(m, crc);
    var b := ControlBatch(m, crc);
    var file := b[..HEADER_SIZE];
    HeaderOnly(b, file);
    assert file[0..] == file;
    assert Window(file, 0, 78) == file;
    assert WireLength(file) == Some(78);
    assert RecordsIn(b) == 1 by {
      assert b[78..] == [];
    }
  }
}
