/**
 * Captured buffers are written as a series of records: an 80-byte packed little-endian header and at most 1536
 * bytes of the buffer. A reader puts the buffer together again from the records alone.
 */
module TraceRecords {
  import opened Bytes
  import opened Wrappers
  import LogRings

  const CHUNK_BYTES := 1536
  const HEADER_BYTES := 80
  const MAGIC := 0x42544757
  const FIRST_CHUNK := 1
  const LAST_CHUNK := 2
  const STATIC_FLAG := 4
  const U32_LIMIT := 0x1_0000_0000

  /** What every record of one captured buffer repeats. */
  datatype Capture = Capture(runTick: u64, timestamp: u64, request: u64, session: u64, program: u64, process: u64,
    object_: u32, service: u16, command: u32, phase: byte, direction: byte, index: byte, isStatic: bool)

  datatype Field = Field(value: nat, width: nat)

  /** The header fields in the order of the packed struct. */
  function Fields(c: Capture, flags: byte, offset: u32, size: u32, total: u32): (f: seq<Field>)
    ensures |f| == 19
  {
    Identification(c) + Position(flags, offset, size, total)
  }

  function Identification(c: Capture): (f: seq<Field>)
    ensures |f| == 15
  {
    [Field(MAGIC, 4), Field(1, 2), Field(HEADER_BYTES, 2)]
    + [Field(c.runTick, 8), Field(c.timestamp, 8), Field(c.request, 8)]
    + [Field(c.session, 8), Field(c.program, 8), Field(c.process, 8)]
    + [Field(c.object_, 4), Field(c.service, 2), Field(c.command % 0x1_0000, 2)]
    + [Field(c.phase, 1), Field(c.direction, 1), Field(c.index, 1)]
  }

  function Position(flags: byte, offset: u32, size: u32, total: u32): (f: seq<Field>)
    ensures |f| == 4
  {
    [Field(flags, 1), Field(offset, 4), Field(size, 4)] + [Field(total, 4)]
  }

  const WIDTHS: seq<nat> := [4, 2, 2] + [8, 8, 8] + [8, 8, 8] + [4, 2, 2] + [1, 1, 1] + [1, 4, 4] + [4]

  function Packed(fields: seq<Field>): seq<byte> {
    if fields == [] then [] else LittleEndian(fields[0].value, fields[0].width) + Packed(fields[1..])
  }

  function Width(fields: seq<Field>): nat {
    if fields == [] then 0 else fields[0].width + Width(fields[1..])
  }

  predicate Fitting(fields: seq<Field>) {
    forall f :: f in fields ==> f.value < Pow256(f.width)
  }

  function Flags(c: Capture, size: nat, offset: nat, chunk: nat): byte {
    (if offset == 0 then FIRST_CHUNK else 0) + (if offset + chunk >= size then LAST_CHUNK else 0)
      + (if c.isStatic then STATIC_FLAG else 0)
  }

  function ChunkSize(size: nat, offset: nat): (n: nat)
    requires offset < size
    ensures 0 < n <= CHUNK_BYTES && offset + n <= size
  {
    if size - offset < CHUNK_BYTES then size - offset else CHUNK_BYTES
  }

  function Header(c: Capture, size: nat, offset: nat): seq<byte>
    requires offset < size
  {
    var chunk := ChunkSize(size, offset);
    Packed(Fields(c, Flags(c, size, offset, chunk), offset % U32_LIMIT, chunk, size % U32_LIMIT))
  }

  function RecordAt(c: Capture, bytes: seq<byte>, offset: nat): seq<byte>
    requires offset < |bytes|
  {
    Header(c, |bytes|, offset) + bytes[offset..offset + ChunkSize(|bytes|, offset)]
  }

  /** The records for the bytes from `offset` on. */
  function Records(c: Capture, bytes: seq<byte>, offset: nat): seq<seq<byte>>
    decreases |bytes| - offset
  {
    if offset >= |bytes| then [] else [RecordAt(c, bytes, offset)] + Records(c, bytes, offset + CHUNK_BYTES)
  }

  lemma OneMoreRecord(before: seq<seq<byte>>, record: seq<byte>, later: seq<seq<byte>>, records: seq<seq<byte>>)
    requires records == before + [record]
    ensures records + later == before + ([record] + later)
  {
  }

  method FillRecord(record: array<byte>, header: seq<byte>, payload: seq<byte>)
    requires |header| == HEADER_BYTES && HEADER_BYTES + |payload| <= record.Length
    modifies record
    ensures record[..HEADER_BYTES + |payload|] == header + payload
  {
    Store(record, 0, header);
    Store(record, HEADER_BYTES, payload);
    assert record[..HEADER_BYTES] == header;
    assert record[..HEADER_BYTES + |payload|] == record[..HEADER_BYTES] + record[HEADER_BYTES..HEADER_BYTES + |payload|];
  }

  /** The record buffer is filled in place, header first, and handed on once per chunk. */
  method EmitBinaryPayloadRecords(c: Capture, bytes: seq<byte>) returns (records: seq<seq<byte>>)
    ensures records == Records(c, bytes, 0)
    ensures forall k :: 0 <= k < |records| ==> Identifies(records[k], c)
  {
    RecordsIdentify(c, bytes);
    records := [];
    var record := new byte[HEADER_BYTES + CHUNK_BYTES](_ => 0);
    var offset := 0;
    while offset < |bytes|
      invariant records + Records(c, bytes, offset) == Records(c, bytes, 0)
      decreases |bytes| - offset
    {
      var chunk := ChunkSize(|bytes|, offset);
      ghost var before := records;
      HeaderLength(c, |bytes|, offset);
      FillRecord(record, Header(c, |bytes|, offset), bytes[offset..offset + chunk]);
      records := records + [record[..HEADER_BYTES + chunk]];
      OneMoreRecord(before, RecordAt(c, bytes, offset), Records(c, bytes, offset + CHUNK_BYTES), records);
      offset := offset + CHUNK_BYTES;
    }
  }

  method Store(record: array<byte>, at: nat, source: seq<byte>)
    requires at + |source| <= record.Length
    modifies record
    ensures record[at..at + |source|] == source
    ensures record[..at] == old(record[..at])
    ensures record[at + |source|..] == old(record[at + |source|..])
  {
    for i := 0 to |source|
      invariant record[at..at + i] == source[..i]
      invariant forall k :: 0 <= k < record.Length && (k < at || at + i <= k) ==> record[k] == old(record[k])
    {
      record[at + i] := source[i];
    }
  }

  function Widths(fields: seq<Field>): (w: seq<nat>)
    ensures |w| == |fields|
  {
    if fields == [] then [] else [fields[0].width] + Widths(fields[1..])
  }

  function Values(fields: seq<Field>): (v: seq<nat>)
    ensures |v| == |fields|
    ensures forall i :: 0 <= i < |v| ==> v[i] == fields[i].value
  {
    if fields == [] then [] else [fields[0].value] + Values(fields[1..])
  }

  lemma {:induction false} PackedLength(fields: seq<Field>)
    ensures |Packed(fields)| == Width(fields)
  {
    if fields == [] {
    } else {
      PackedLength(fields[1..]);
    }
  }

  lemma {:induction false} WidthJoin(a: seq<Field>, b: seq<Field>, ab: seq<Field>)
    requires ab == a + b
    ensures Width(ab) == Width(a) + Width(b)
    ensures Widths(ab) == Widths(a) + Widths(b)
  {
    if a == [] {
      assert ab == b;
    } else {
      assert ab[1..] == a[1..] + b;
      WidthJoin(a[1..], b, ab[1..]);
    }
  }

  lemma ThreeFields(f: seq<Field>)
    requires |f| == 3
    ensures Width(f) == f[0].width + f[1].width + f[2].width
    ensures Widths(f) == [f[0].width, f[1].width, f[2].width]
  {
    var g := f[1..];
    var h := g[1..];
    assert h[1..] == [];
    assert Width(h) == h[0].width && Widths(h) == [h[0].width];
    assert Width(g) == g[0].width + Width(h) && Widths(g) == [g[0].width] + Widths(h);
  }

  lemma IdentificationWidth(c: Capture)
    ensures Width(Identification(c)) == 67
    ensures Widths(Identification(c)) == [4, 2, 2] + [8, 8, 8] + [8, 8, 8] + [4, 2, 2] + [1, 1, 1]
  {
    var a := [Field(MAGIC, 4), Field(1, 2), Field(HEADER_BYTES, 2)];
    var b := [Field(c.runTick, 8), Field(c.timestamp, 8), Field(c.request, 8)];
    var d := [Field(c.session, 8), Field(c.program, 8), Field(c.process, 8)];
    var e := [Field(c.object_, 4), Field(c.service, 2), Field(c.command % 0x1_0000, 2)];
    var f := [Field(c.phase, 1), Field(c.direction, 1), Field(c.index, 1)];
    ThreeFields(a);
    ThreeFields(b);
    ThreeFields(d);
    ThreeFields(e);
    ThreeFields(f);
    WidthJoin(a, b, a + b);
    WidthJoin(a + b, d, a + b + d);
    WidthJoin(a + b + d, e, a + b + d + e);
    WidthJoin(a + b + d + e, f, Identification(c));
  }

  lemma FieldsWidth(c: Capture, flags: byte, offset: u32, size: u32, total: u32)
    ensures |Packed(Fields(c, flags, offset, size, total))| == HEADER_BYTES
    ensures Widths(Fields(c, flags, offset, size, total)) == WIDTHS
  {
    var id, f := Identification(c), Fields(c, flags, offset, size, total);
    var a, b := [Field(flags, 1), Field(offset, 4), Field(size, 4)], [Field(total, 4)];
    IdentificationWidth(c);
    ThreeFields(a);
    assert Width(b) == 4 && Widths(b) == [4] by {
      assert b[1..] == [];
    }
    WidthJoin(a, b, Position(flags, offset, size, total));
    WidthJoin(id, Position(flags, offset, size, total), f);
    PackedLength(f);
  }

  lemma HeaderLength(c: Capture, size: nat, offset: nat)
    requires offset < size
    ensures |Header(c, size, offset)| == HEADER_BYTES
  {
    var chunk := ChunkSize(size, offset);
    FieldsWidth(c, Flags(c, size, offset, chunk), offset % U32_LIMIT, chunk, size % U32_LIMIT);
  }

  // Reading records back.

  function Total(widths: seq<nat>): nat {
    if widths == [] then 0 else widths[0] + Total(widths[1..])
  }

  function Unpacked(bytes: seq<byte>, widths: seq<nat>): (v: seq<nat>)
    requires |bytes| >= Total(widths)
    ensures |v| == |widths|
  {
    if widths == [] then [] else
      [LittleEndianValue(bytes[..widths[0]])] + Unpacked(bytes[widths[0]..], widths[1..])
  }

  lemma {:induction false} UnpackReadsBack(fields: seq<Field>, rest: seq<byte>, bytes: seq<byte>)
    requires Fitting(fields) && bytes == Packed(fields) + rest
    ensures Total(Widths(fields)) <= |bytes|
    ensures Unpacked(bytes, Widths(fields)) == Values(fields)
  {
    if fields == [] {
    } else {
      var f := fields[0];
      var head := LittleEndian(f.value, f.width);
      assert bytes == head + (Packed(fields[1..]) + rest);
      assert bytes[..f.width] == head;
      assert bytes[f.width..] == Packed(fields[1..]) + rest;
      assert f in fields;
      LittleEndianRoundTrip(f.value, f.width);
      UnpackReadsBack(fields[1..], rest, bytes[f.width..]);
    }
  }

  lemma FieldsFit(c: Capture, flags: byte, offset: u32, size: u32, total: u32)
    ensures Fitting(Fields(c, flags, offset, size, total))
  {
    IdentificationFits(c);
    PositionFits(flags, offset, size, total);
    FittingJoin(Identification(c), Position(flags, offset, size, total), Fields(c, flags, offset, size, total));
  }

  lemma FittingJoin(a: seq<Field>, b: seq<Field>, ab: seq<Field>)
    requires ab == a + b && Fitting(a) && Fitting(b)
    ensures Fitting(ab)
  {
  }

  lemma PositionFits(flags: byte, offset: u32, size: u32, total: u32)
    ensures Fitting(Position(flags, offset, size, total))
  {
    Pow256Values();
  }

  lemma IdentificationFits(c: Capture)
    ensures Fitting(Identification(c))
  {
    Pow256Values();
    assert Fitting([Field(MAGIC, 4), Field(1, 2), Field(HEADER_BYTES, 2)]);
    assert Fitting([Field(c.runTick, 8), Field(c.timestamp, 8), Field(c.request, 8)]);
    assert Fitting([Field(c.session, 8), Field(c.program, 8), Field(c.process, 8)]);
    assert Fitting([Field(c.object_, 4), Field(c.service, 2), Field(c.command % 0x1_0000, 2)]);
    assert Fitting([Field(c.phase, 1), Field(c.direction, 1), Field(c.index, 1)]);
  }

  /** What a reader learns from one record. */
  datatype Chunk = Chunk(first: bool, last: bool, offset: nat, total: nat, payload: seq<byte>)

  function ParseRecord(record: seq<byte>): Option<Chunk> {
    if |record| < HEADER_BYTES || Total(WIDTHS) > |record| then None else
      var v := Unpacked(record, WIDTHS);
      if v[0] != MAGIC || v[1] != 1 || v[2] != HEADER_BYTES || |record| != HEADER_BYTES + v[17] then None
      else Some(Chunk(v[15] % 2 == 1, v[15] / 2 % 2 == 1, v[16], v[18], record[HEADER_BYTES..]))
  }

  // What a reader that knows the packed layout finds in a header, byte by byte.

  /** The little-endian number of `width` bytes at byte `at`. */
  function Number(record: seq<byte>, at: nat, width: nat): nat
    requires at + width <= |record|
  {
    LittleEndianValue(record[at..at + width])
  }

  /** The number at this place of the record. */
  predicate Reads(record: seq<byte>, at: nat, width: nat, value: nat) {
    at + width <= |record| && Number(record, at, width) == value
  }

  /** The record says which capture it belongs to: every field of it, where the packed struct has it. */
  predicate Identifies(record: seq<byte>, c: Capture) {
    && Reads(record, 0, 4, 0x42544757) && Reads(record, 4, 2, 1) && Reads(record, 6, 2, 80)
    && Reads(record, 8, 8, c.runTick) && Reads(record, 16, 8, c.timestamp) && Reads(record, 24, 8, c.request)
    && Reads(record, 32, 8, c.session) && Reads(record, 40, 8, c.program) && Reads(record, 48, 8, c.process)
    && Reads(record, 56, 4, c.object_) && Reads(record, 60, 2, c.service) && Reads(record, 62, 2, c.command % 0x1_0000)
    && Reads(record, 64, 1, c.phase) && Reads(record, 65, 1, c.direction) && Reads(record, 66, 1, c.index)
  }

  /** And where its payload belongs: three flags, the offset, the size, and the size of the whole buffer. */
  predicate Places(record: seq<byte>, flags: byte, isStatic: bool, size: nat, offset: nat, chunk: nat) {
    && |record| == 80 + chunk && Reads(record, 67, 1, flags)
    && (flags % 2 == 1 <==> offset == 0) && (flags / 2 % 2 == 1 <==> offset + chunk == size)
    && (flags / 4 % 2 == 1 <==> isStatic)
    && Reads(record, 68, 4, offset % 0x1_0000_0000) && Reads(record, 72, 4, chunk)
    && Reads(record, 76, 4, size % 0x1_0000_0000)
  }

  lemma {:induction false} PackedJoin(a: seq<Field>, b: seq<Field>, ab: seq<Field>)
    requires ab == a + b
    ensures Packed(ab) == Packed(a) + Packed(b)
  {
    if a == [] {
      assert ab == b;
    } else {
      assert ab[1..] == a[1..] + b;
      PackedJoin(a[1..], b, ab[1..]);
    }
  }

  /** These bytes stand in the record from byte `at` on. */
  predicate StandsAt(record: seq<byte>, at: nat, bytes: seq<byte>) {
    at + |bytes| <= |record| && record[at..at + |bytes|] == bytes
  }

  lemma StandsInHalves(record: seq<byte>, at: nat, a: seq<byte>, b: seq<byte>, ab: seq<byte>)
    requires StandsAt(record, at, ab) && ab == a + b
    ensures StandsAt(record, at, a) && StandsAt(record, at + |a|, b)
  {
    var both := record[at..at + |a| + |b|];
    assert record[at..at + |a|] == both[..|a|];
    assert record[at + |a|..at + |a| + |b|] == both[|a|..];
  }

  lemma FieldsInHalves(record: seq<byte>, at: nat, a: seq<Field>, b: seq<Field>, ab: seq<Field>)
    requires StandsAt(record, at, Packed(ab)) && ab == a + b
    ensures StandsAt(record, at, Packed(a)) && StandsAt(record, at + Width(a), Packed(b))
  {
    PackedJoin(a, b, ab);
    PackedLength(a);
    StandsInHalves(record, at, Packed(a), Packed(b), Packed(ab));
  }

  lemma HeadReads(record: seq<byte>, at: nat, head: seq<byte>, tail: seq<byte>, all: seq<byte>, value: nat, width: nat)
    requires StandsAt(record, at, all) && all == head + tail
    requires |head| == width && LittleEndianValue(head) == value
    ensures Reads(record, at, width, value) && StandsAt(record, at + width, tail)
  {
    StandsInHalves(record, at, head, tail, all);
  }

  lemma FirstReads(record: seq<byte>, at: nat, f: Field, rest: seq<Field>, fields: seq<Field>)
    requires StandsAt(record, at, Packed(fields)) && fields == [f] + rest && f.value < Pow256(f.width)
    ensures Reads(record, at, f.width, f.value) && StandsAt(record, at + f.width, Packed(rest))
  {
    LittleEndianRoundTrip(f.value, f.width);
    assert fields[1..] == rest;
    HeadReads(record, at, LittleEndian(f.value, f.width), Packed(rest), Packed(fields), f.value, f.width);
  }

  lemma ThreeRead(record: seq<byte>, at: nat, x: Field, y: Field, z: Field)
    requires StandsAt(record, at, Packed([x, y, z]))
    requires x.value < Pow256(x.width) && y.value < Pow256(y.width) && z.value < Pow256(z.width)
    ensures Reads(record, at, x.width, x.value) && Reads(record, at + x.width, y.width, y.value)
    ensures Reads(record, at + x.width + y.width, z.width, z.value)
  {
    FirstReads(record, at, x, [y, z], [x, y, z]);
    FirstReads(record, at + x.width, y, [z], [y, z]);
    FirstReads(record, at + x.width + y.width, z, [], [z]);
  }

  lemma IdentificationStands(record: seq<byte>, c: Capture)
    requires StandsAt(record, 0, Packed(Identification(c)))
    ensures StandsAt(record, 0, Packed([Field(MAGIC, 4), Field(1, 2), Field(HEADER_BYTES, 2)]))
    ensures StandsAt(record, 8, Packed([Field(c.runTick, 8), Field(c.timestamp, 8), Field(c.request, 8)]))
    ensures StandsAt(record, 32, Packed([Field(c.session, 8), Field(c.program, 8), Field(c.process, 8)]))
    ensures StandsAt(record, 56, Packed([Field(c.object_, 4), Field(c.service, 2), Field(c.command % 0x1_0000, 2)]))
    ensures StandsAt(record, 64, Packed([Field(c.phase, 1), Field(c.direction, 1), Field(c.index, 1)]))
  {
    var a := [Field(MAGIC, 4), Field(1, 2), Field(HEADER_BYTES, 2)];
    var b := [Field(c.runTick, 8), Field(c.timestamp, 8), Field(c.request, 8)];
    var d := [Field(c.session, 8), Field(c.program, 8), Field(c.process, 8)];
    var e := [Field(c.object_, 4), Field(c.service, 2), Field(c.command % 0x1_0000, 2)];
    var f := [Field(c.phase, 1), Field(c.direction, 1), Field(c.index, 1)];
    ThreeFields(a);
    ThreeFields(b);
    ThreeFields(d);
    ThreeFields(e);
    assert Identification(c) == a + (b + (d + (e + f)));
    FieldsInHalves(record, 0, a, b + (d + (e + f)), Identification(c));
    FieldsInHalves(record, 8, b, d + (e + f), b + (d + (e + f)));
    FieldsInHalves(record, 32, d, e + f, d + (e + f));
    FieldsInHalves(record, 56, e, f, e + f);
  }

  lemma VersionReads(record: seq<byte>)
    requires StandsAt(record, 0, Packed([Field(MAGIC, 4), Field(1, 2), Field(HEADER_BYTES, 2)]))
    ensures Reads(record, 0, 4, 0x42544757) && Reads(record, 4, 2, 1) && Reads(record, 6, 2, 80)
  {
    Pow256Values();
    ThreeRead(record, 0, Field(MAGIC, 4), Field(1, 2), Field(HEADER_BYTES, 2));
  }

  lemma LongRowReads(record: seq<byte>, at: nat, x: u64, y: u64, z: u64)
    requires StandsAt(record, at, Packed([Field(x, 8), Field(y, 8), Field(z, 8)]))
    ensures Reads(record, at, 8, x) && Reads(record, at + 8, 8, y) && Reads(record, at + 16, 8, z)
  {
    Pow256Values();
    ThreeRead(record, at, Field(x, 8), Field(y, 8), Field(z, 8));
  }

  lemma ObjectReads(record: seq<byte>, object_: u32, service: u16, command: u16)
    requires StandsAt(record, 56, Packed([Field(object_, 4), Field(service, 2), Field(command, 2)]))
    ensures Reads(record, 56, 4, object_) && Reads(record, 60, 2, service) && Reads(record, 62, 2, command)
  {
    Pow256Values();
    ThreeRead(record, 56, Field(object_, 4), Field(service, 2), Field(command, 2));
  }

  lemma BufferReads(record: seq<byte>, phase: byte, direction: byte, index: byte)
    requires StandsAt(record, 64, Packed([Field(phase, 1), Field(direction, 1), Field(index, 1)]))
    ensures Reads(record, 64, 1, phase) && Reads(record, 65, 1, direction) && Reads(record, 66, 1, index)
  {
    Pow256Values();
    ThreeRead(record, 64, Field(phase, 1), Field(direction, 1), Field(index, 1));
  }

  lemma IdentificationReads(record: seq<byte>, c: Capture)
    requires StandsAt(record, 0, Packed(Identification(c)))
    ensures Identifies(record, c)
  {
    IdentificationStands(record, c);
    VersionReads(record);
    LongRowReads(record, 8, c.runTick, c.timestamp, c.request);
    LongRowReads(record, 32, c.session, c.program, c.process);
    ObjectReads(record, c.object_, c.service, c.command % 0x1_0000);
    BufferReads(record, c.phase, c.direction, c.index);
  }

  lemma PositionReads(record: seq<byte>, flags: byte, offset: u32, size: u32, total: u32)
    requires StandsAt(record, 67, Packed(Position(flags, offset, size, total)))
    ensures Reads(record, 67, 1, flags) && Reads(record, 68, 4, offset) && Reads(record, 72, 4, size)
    ensures Reads(record, 76, 4, total)
  {
    var a, b := [Field(flags, 1), Field(offset, 4), Field(size, 4)], [Field(total, 4)];
    Pow256Values();
    ThreeFields(a);
    FieldsInHalves(record, 67, a, b, Position(flags, offset, size, total));
    ThreeRead(record, 67, Field(flags, 1), Field(offset, 4), Field(size, 4));
    FirstReads(record, 76, Field(total, 4), [], b);
  }

  lemma HeaderStands(c: Capture, flags: byte, offset: u32, size: u32, total: u32, payload: seq<byte>, record: seq<byte>)
    requires record == Packed(Fields(c, flags, offset, size, total)) + payload
    ensures StandsAt(record, 0, Packed(Identification(c)))
    ensures StandsAt(record, 67, Packed(Position(flags, offset, size, total)))
  {
    IdentificationWidth(c);
    assert StandsAt(record, 0, Packed(Fields(c, flags, offset, size, total)));
    FieldsInHalves(record, 0, Identification(c), Position(flags, offset, size, total), Fields(c, flags, offset, size, total));
  }

  /** Every record of a buffer identifies its capture and its place. */
  lemma RecordIdentifiesCapture(c: Capture, bytes: seq<byte>, offset: nat) returns (flags: byte)
    requires offset < |bytes|
    ensures Identifies(RecordAt(c, bytes, offset), c)
    ensures Places(RecordAt(c, bytes, offset), flags, c.isStatic, |bytes|, offset, ChunkSize(|bytes|, offset))
  {
    var chunk, record := ChunkSize(|bytes|, offset), RecordAt(c, bytes, offset);
    flags := Flags(c, |bytes|, offset, chunk);
    HeaderLength(c, |bytes|, offset);
    HeaderStands(c, flags, offset % U32_LIMIT, chunk, |bytes| % U32_LIMIT, bytes[offset..offset + chunk], record);
    IdentificationReads(record, c);
    PositionReads(record, flags, offset % U32_LIMIT, chunk, |bytes| % U32_LIMIT);
    FlagsMean(c, |bytes|, offset, chunk);
  }

  /** Put a buffer together from its records in order, given what has been read so far; anything out of place fails. */
  function Reassembled(records: seq<seq<byte>>, got: seq<byte>): Option<seq<byte>> {
    if records == [] then None else
      match ParseRecord(records[0])
      case None => None
      case Some(chunk) =>
        var next := got + chunk.payload;
        if chunk.offset != |got| || chunk.first != (got == []) then None
        else if !chunk.last then Reassembled(records[1..], next)
        else if |records| == 1 && chunk.total == |next| then Some(next)
        else None
  }

  lemma FieldsAt(c: Capture, flags: byte, offset: u32, size: u32, total: u32, f: seq<Field>)
    requires f == Fields(c, flags, offset, size, total)
    ensures f[0].value == MAGIC && f[1].value == 1 && f[2].value == HEADER_BYTES
    ensures f[15].value == flags && f[16].value == offset && f[17].value == size && f[18].value == total
  {
    var id, at := Identification(c), Position(flags, offset, size, total);
    assert f[0] == id[0] && f[1] == id[1] && f[2] == id[2];
    assert f[15] == at[0] && f[16] == at[1] && f[17] == at[2] && f[18] == at[3];
  }

  lemma UnpackedHeader(f: seq<Field>, payload: seq<byte>, record: seq<byte>)
    requires Fitting(f) && Widths(f) == WIDTHS && record == Packed(f) + payload
    ensures Total(WIDTHS) <= |record|
    ensures Unpacked(record, WIDTHS) == Values(f)
  {
    UnpackReadsBack(f, payload, record);
  }

  lemma HeaderReadsBack(c: Capture, flags: byte, offset: u32, size: u32, total: u32, payload: seq<byte>, record: seq<byte>)
    requires record == Packed(Fields(c, flags, offset, size, total)) + payload && |payload| == size
    ensures ParseRecord(record) == Some(Chunk(flags % 2 == 1, flags / 2 % 2 == 1, offset, total, payload))
  {
    var f := Fields(c, flags, offset, size, total);
    FieldsWidth(c, flags, offset, size, total);
    FieldsFit(c, flags, offset, size, total);
    FieldsAt(c, flags, offset, size, total, f);
    UnpackedHeader(f, payload, record);
    assert record[HEADER_BYTES..] == payload;
  }

  lemma FlagsMean(c: Capture, size: nat, offset: nat, chunk: nat)
    requires offset + chunk <= size
    ensures Flags(c, size, offset, chunk) % 2 == 1 <==> offset == 0
    ensures Flags(c, size, offset, chunk) / 2 % 2 == 1 <==> offset + chunk == size
    ensures Flags(c, size, offset, chunk) / 4 % 2 == 1 <==> c.isStatic
  {
  }

  /** Every record says where its payload belongs; offset and total only have 32 bits. */
  lemma RecordReadsBack(c: Capture, bytes: seq<byte>, offset: nat)
    requires offset < |bytes|
    ensures ParseRecord(RecordAt(c, bytes, offset)) == Some(Chunk(offset == 0, offset + ChunkSize(|bytes|, offset) == |bytes|,
      offset % U32_LIMIT, |bytes| % U32_LIMIT, bytes[offset..offset + ChunkSize(|bytes|, offset)]))
    ensures |RecordAt(c, bytes, offset)| == HEADER_BYTES + ChunkSize(|bytes|, offset)
  {
    var chunk := ChunkSize(|bytes|, offset);
    var flags := Flags(c, |bytes|, offset, chunk);
    FlagsMean(c, |bytes|, offset, chunk);
    HeaderReadsBack(c, flags, offset % U32_LIMIT, chunk, |bytes| % U32_LIMIT, bytes[offset..offset + chunk],
      RecordAt(c, bytes, offset));
    HeaderLength(c, |bytes|, offset);
  }

  lemma TakeMore(bytes: seq<byte>, offset: nat, chunk: nat)
    requires offset + chunk <= |bytes|
    ensures bytes[..offset] + bytes[offset..offset + chunk] == bytes[..offset + chunk]
  {
  }

  lemma {:induction false} RestReassembles(c: Capture, bytes: seq<byte>, offset: nat)
    requires offset < |bytes| < U32_LIMIT && offset % CHUNK_BYTES == 0
    ensures Reassembled(Records(c, bytes, offset), bytes[..offset]) == Some(bytes)
    decreases |bytes| - offset
  {
    var chunk := ChunkSize(|bytes|, offset);
    var records := Records(c, bytes, offset);
    RecordReadsBack(c, bytes, offset);
    TakeMore(bytes, offset, chunk);
    assert records[1..] == Records(c, bytes, offset + CHUNK_BYTES);
    if offset + chunk < |bytes| {
      RestReassembles(c, bytes, offset + CHUNK_BYTES);
    } else {
      assert bytes[..offset + chunk] == bytes;
    }
  }

  lemma {:induction false} UnpackedBound(bytes: seq<byte>, widths: seq<nat>, i: nat)
    requires Total(widths) <= |bytes| && i < |widths|
    ensures Unpacked(bytes, widths)[i] < Pow256(widths[i])
  {
    if i == 0 {
      LittleEndianValueBound(bytes[..widths[0]]);
    } else {
      UnpackedBound(bytes[widths[0]..], widths[1..], i - 1);
    }
  }

  lemma {:induction false} LittleEndianValueBound(bytes: seq<byte>)
    ensures LittleEndianValue(bytes) < Pow256(|bytes|)
  {
    if bytes == [] {
    } else {
      LittleEndianValueBound(bytes[1..]);
    }
  }

  /** Nothing of 4 GiB or more can be put together: the total has 32 bits. */
  lemma {:induction false} ReassembledIsBounded(records: seq<seq<byte>>, got: seq<byte>)
    ensures Reassembled(records, got).Some? ==> |Reassembled(records, got).value| < U32_LIMIT
  {
    if records != [] && ParseRecord(records[0]).Some? {
      UnpackedBound(records[0], WIDTHS, 18);
      Pow256Values();
      ReassembledIsBounded(records[1..], got + ParseRecord(records[0]).value.payload);
    }
  }

  /** The records of a buffer give back exactly that buffer, if and only if it is smaller than 4 GiB. */
  lemma RecordsReassemble(c: Capture, bytes: seq<byte>)
    requires bytes != []
    ensures Reassembled(Records(c, bytes, 0), []) == Some(bytes) <==> |bytes| < U32_LIMIT
  {
    if |bytes| < U32_LIMIT {
      assert bytes[..0] == [];
      RestReassembles(c, bytes, 0);
    } else {
      ReassembledIsBounded(Records(c, bytes, 0), []);
    }
  }

  lemma {:induction false} RecordIndex(c: Capture, bytes: seq<byte>, offset: nat, k: nat)
    requires k < |Records(c, bytes, offset)|
    ensures offset + k * CHUNK_BYTES < |bytes|
    ensures Records(c, bytes, offset)[k] == RecordAt(c, bytes, offset + k * CHUNK_BYTES)
    ensures k == |Records(c, bytes, offset)| - 1 <==>
      offset + k * CHUNK_BYTES + ChunkSize(|bytes|, offset + k * CHUNK_BYTES) == |bytes|
    decreases k
  {
    if k > 0 {
      RecordIndex(c, bytes, offset + CHUNK_BYTES, k - 1);
    }
  }

  lemma RecordsIdentify(c: Capture, bytes: seq<byte>)
    ensures forall k :: 0 <= k < |Records(c, bytes, 0)| ==> Identifies(Records(c, bytes, 0)[k], c)
  {
    forall k | 0 <= k < |Records(c, bytes, 0)| ensures Identifies(Records(c, bytes, 0)[k], c) {
      RecordIndex(c, bytes, 0, k);
      var flags := RecordIdentifiesCapture(c, bytes, k * CHUNK_BYTES);
    }
  }

  /** A record of this size is never refused: it becomes the newest entry of the ring its path names, uncut. */
  lemma RecordIsQueued(rings: seq<LogRings.Ring>, path: string, record: seq<byte>)
    requires |rings| == LogRings.RINGS && path != [] && 0 < |record| <= LogRings.MAX_BLOB
    ensures
      var pending := LogRings.QueueBlob(rings, path, record)[LogRings.RingOf(path)].pending;
      pending != [] && pending[|pending| - 1].data == record
  {
  }

  /** The record of the k-th chunk, `n` bytes long: a full one unless it is the rest of the buffer. */
  predicate IsChunk(record: seq<byte>, bytes: seq<byte>, k: nat, n: nat) {
    && 0 < n <= 1536 && k * 1536 + n <= |bytes| && (n == 1536 || k * 1536 + n == |bytes|)
    && |record| == 80 + n
    && ParseRecord(record)
      == Some(Chunk(k == 0, k * 1536 + n == |bytes|, k * 1536, |bytes|, bytes[k * 1536..k * 1536 + n]))
  }

  /** The k-th record carries the k-th chunk; only the first one is marked first, and only the last one last. */
  lemma RecordsInOrder(c: Capture, bytes: seq<byte>, k: nat) returns (n: nat)
    requires |bytes| < U32_LIMIT && k < |Records(c, bytes, 0)|
    ensures IsChunk(Records(c, bytes, 0)[k], bytes, k, n)
    ensures k * 1536 + n == |bytes| <==> k == |Records(c, bytes, 0)| - 1
  {
    RecordIndex(c, bytes, 0, k);
    RecordReadsBack(c, bytes, k * CHUNK_BYTES);
    n := ChunkSize(|bytes|, k * CHUNK_BYTES);
  }

  /** No record of a capture is ever refused by the logger's queue for its size. */
  lemma EveryRecordIsQueued(c: Capture, bytes: seq<byte>, k: nat, rings: seq<LogRings.Ring>, path: string)
    requires k < |Records(c, bytes, 0)| && |rings| == LogRings.RINGS && path != []
    ensures
      var pending := LogRings.QueueBlob(rings, path, Records(c, bytes, 0)[k])[LogRings.RingOf(path)].pending;
      pending != [] && pending[|pending| - 1].data == Records(c, bytes, 0)[k]
  {
    RecordIndex(c, bytes, 0, k);
    RecordReadsBack(c, bytes, k * CHUNK_BYTES);
    RecordIsQueued(rings, path, Records(c, bytes, 0)[k]);
  }
}
