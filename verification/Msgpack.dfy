/** The MessagePack reader of the error-report decoder, proved to recognize exactly the supported wire formats. */
module Msgpack {
  import opened Bytes

  // ---- values and results ----

  datatype Value =
    | Int(i: int)
    | Bool(b: bool)
    | Text(s: string)
    | Binary(data: seq<byte>)
    | List(items: seq<Value>)
    | Dict(entries: map<string, Value>)

  datatype DecodeError = Truncated(offset: nat, need: nat) | UnsupportedTag(tag: byte, offset: nat)

  datatype Parsed<+T> = Ok(value: T, next: nat) | Err(error: DecodeError)

  /** The input, and the two host conversions that stay abstract: lenient text decoding and the text of a non-text key. */
  datatype Reader = Reader(data: seq<byte>, decode: seq<byte> -> string, str: Value -> string)

  // ---- the reader ----

  datatype Kind = StrKind | BinKind | ArrayKind | MapKind

  /** What a tag announces: a value, a number of some width, or something counted (a length field plus a fixed part). */
  datatype Form =
    | Immediate(value: Value)
    | Unsigned(width: nat)
    | Signed(width: nat)
    | Counted(kind: Kind, lengthWidth: nat, fixed: nat)
    | NoForm

  function FormOf(tag: byte): Form {
    if tag <= 0x7F then Immediate(Int(tag))
    else if tag >= 0xE0 then Immediate(Int(tag as int - 0x100))
    else if 0x80 <= tag <= 0x8F then Counted(MapKind, 0, tag % 0x10)
    else if 0x90 <= tag <= 0x9F then Counted(ArrayKind, 0, tag % 0x10)
    else if 0xA0 <= tag <= 0xBF then Counted(StrKind, 0, tag % 0x20)
    else if tag == 0xC2 then Immediate(Bool(false))
    else if tag == 0xC3 then Immediate(Bool(true))
    else if tag == 0xC4 then Counted(BinKind, 1, 0)
    else if tag == 0xC5 then Counted(BinKind, 2, 0)
    else if tag == 0xCC then Unsigned(1)
    else if tag == 0xCD then Unsigned(2)
    else if tag == 0xCE then Unsigned(4)
    else if tag == 0xCF then Unsigned(8)
    else if tag == 0xD0 then Signed(1)
    else if tag == 0xD1 then Signed(2)
    else if tag == 0xD2 then Signed(4)
    else if tag == 0xD3 then Signed(8)
    else if tag == 0xD9 then Counted(StrKind, 1, 0)
    else if tag == 0xDA then Counted(StrKind, 2, 0)
    else if tag == 0xDC then Counted(ArrayKind, 2, 0)
    else if tag == 0xDE then Counted(MapKind, 2, 0)
    else NoForm
  }

  function ReadBytes(r: Reader, offset: nat, size: nat): (p: Parsed<seq<byte>>)
    ensures p.Ok? ==> p.next == offset + size <= |r.data| && p.value == r.data[offset..offset + size]
  {
    if offset + size > |r.data| then Err(Truncated(offset, size)) else Ok(r.data[offset..offset + size], offset + size)
  }

  function ReadBe(r: Reader, offset: nat, size: nat): (p: Parsed<nat>)
    ensures p.Ok? ==> p.next == offset + size <= |r.data|
  {
    match ReadBytes(r, offset, size)
    case Err(e) => Err(e)
    case Ok(raw, next) => Ok(BigEndianValue(raw), next)
  }

  /** Two's complement of the given width. */
  function AsSigned(n: nat, width: nat): int {
    if 2 * n < Pow256(width) then n else n - Pow256(width)
  }

  /** Keys become text: text keys as they are, all others through the host's conversion. */
  function KeyText(r: Reader, key: Value): string {
    if key.Text? then key.s else r.str(key)
  }

  /** Alternating keys and values stored in order, so a later entry replaces an earlier one with the same key text. */
  function Dictionary(r: Reader, flat: seq<Value>): map<string, Value> {
    if |flat| < 2 then map[]
    else Dictionary(r, flat[..|flat| - 2])[KeyText(r, flat[|flat| - 2]) := flat[|flat| - 1]]
  }

  function Parse(r: Reader, offset: nat): (p: Parsed<Value>)
    requires offset <= |r.data|
    ensures p.Ok? ==> offset < p.next <= |r.data|
    decreases |r.data| - offset, 0
  {
    if offset == |r.data| then Err(Truncated(offset, 1))
    else
      match FormOf(r.data[offset])
      case Immediate(value) => Ok(value, offset + 1)
      case Unsigned(width) => ParseNumber(r, offset + 1, width, false)
      case Signed(width) => ParseNumber(r, offset + 1, width, true)
      case Counted(kind, lengthWidth, fixed) => ParseCounted(r, offset + 1, kind, lengthWidth, fixed)
      case NoForm => Err(UnsupportedTag(r.data[offset], offset))
  }

  function ParseNumber(r: Reader, offset: nat, width: nat, signed: bool): (p: Parsed<Value>)
    ensures p.Ok? ==> p.next == offset + width <= |r.data|
  {
    match ReadBe(r, offset, width)
    case Err(e) => Err(e)
    case Ok(n, next) => Ok(Int(if signed then AsSigned(n, width) else n), next)
  }

  function ParseCounted(r: Reader, offset: nat, kind: Kind, lengthWidth: nat, fixed: nat): (p: Parsed<Value>)
    requires offset <= |r.data|
    ensures p.Ok? ==> offset <= p.next <= |r.data|
    decreases |r.data| - offset, 2 * fixed + 3
  {
    match ReadBe(r, offset, lengthWidth)
    case Err(e) => Err(e)
    case Ok(length, next) => ParseBody(r, next, kind, length + fixed)
  }

  function ParseBody(r: Reader, offset: nat, kind: Kind, count: nat): (p: Parsed<Value>)
    requires offset <= |r.data|
    ensures p.Ok? ==> offset <= p.next <= |r.data|
    decreases |r.data| - offset, 2 * count + 2
  {
    match kind
    case StrKind =>
      (match ReadBytes(r, offset, count) case Err(e) => Err(e) case Ok(raw, next) => Ok(Text(r.decode(raw)), next))
    case BinKind =>
      (match ReadBytes(r, offset, count) case Err(e) => Err(e) case Ok(raw, next) => Ok(Binary(raw), next))
    case ArrayKind =>
      (match ParseItems(r, offset, count) case Err(e) => Err(e) case Ok(items, next) => Ok(List(items), next))
    case MapKind =>
      (match ParseItems(r, offset, 2 * count)
       case Err(e) => Err(e)
       case Ok(flat, next) => Ok(Dict(Dictionary(r, flat)), next))
  }

  /** `count` values one after the other. */
  function ParseItems(r: Reader, offset: nat, count: nat): (p: Parsed<seq<Value>>)
    requires offset <= |r.data|
    ensures p.Ok? ==> offset <= p.next <= |r.data| && |p.value| == count
    decreases |r.data| - offset, count + 1
  {
    if count == 0 then Ok([], offset)
    else
      match Parse(r, offset)
      case Err(e) => Err(e)
      case Ok(first, next) =>
        match ParseItems(r, next, count - 1)
        case Err(e) => Err(e)
        case Ok(rest, end) => Ok([first] + rest, end)
  }

  // ---- the wire formats (MessagePack specification, "Formats"), restricted to the supported subset ----

  datatype Wire =
    | PositiveFixInt(n: nat)
    | NegativeFixInt(i: int)
    | Boolean(b: bool)
    | UInt8(n: nat) | UInt16(n: nat) | UInt32(n: nat) | UInt64(n: nat)
    | Int8(i: int) | Int16(i: int) | Int32(i: int) | Int64(i: int)
    | FixStr(raw: seq<byte>) | Str8(raw: seq<byte>) | Str16(raw: seq<byte>)
    | Bin8(raw: seq<byte>) | Bin16(raw: seq<byte>)
    | FixArray(items: seq<Wire>) | Array16(items: seq<Wire>)
    | FixMap(items: seq<Wire>) | Map16(items: seq<Wire>)

  predicate WellFormed(w: Wire) {
    match w
    case PositiveFixInt(n) => n < 0x80
    case NegativeFixInt(i) => -32 <= i < 0
    case Boolean(_) => true
    case UInt8(n) => n < Pow256(1)
    case UInt16(n) => n < Pow256(2)
    case UInt32(n) => n < Pow256(4)
    case UInt64(n) => n < Pow256(8)
    case Int8(i) => IsSignedOf(i, 1)
    case Int16(i) => IsSignedOf(i, 2)
    case Int32(i) => IsSignedOf(i, 4)
    case Int64(i) => IsSignedOf(i, 8)
    case FixStr(raw) => |raw| < 0x20
    case Str8(raw) => |raw| < Pow256(1)
    case Str16(raw) => |raw| < Pow256(2)
    case Bin8(raw) => |raw| < Pow256(1)
    case Bin16(raw) => |raw| < Pow256(2)
    case FixArray(items) => |items| < 0x10 && AllWellFormed(items)
    case Array16(items) => |items| < Pow256(2) && AllWellFormed(items)
    case FixMap(items) => |items| % 2 == 0 && |items| / 2 < 0x10 && AllWellFormed(items)
    case Map16(items) => |items| % 2 == 0 && |items| / 2 < Pow256(2) && AllWellFormed(items)
  }

  predicate AllWellFormed(items: seq<Wire>) {
    items == [] || (WellFormed(items[0]) && AllWellFormed(items[1..]))
  }

  predicate IsSignedOf(i: int, width: nat) {
    0 <= 2 * i + Pow256(width) < 2 * Pow256(width)
  }

  function TwosComplement(i: int, width: nat): nat
    requires IsSignedOf(i, width)
  {
    if i >= 0 then i else i + Pow256(width)
  }

  function Encode(w: Wire): (bytes: seq<byte>)
    requires WellFormed(w)
    ensures bytes != []
  {
    match w
    case PositiveFixInt(n) => [n]
    case NegativeFixInt(i) => [i + 0x100]
    case Boolean(b) => if b then [0xC3] else [0xC2]
    case UInt8(n) => [0xCC] + BigEndian(n, 1)
    case UInt16(n) => [0xCD] + BigEndian(n, 2)
    case UInt32(n) => [0xCE] + BigEndian(n, 4)
    case UInt64(n) => [0xCF] + BigEndian(n, 8)
    case Int8(i) => [0xD0] + BigEndian(TwosComplement(i, 1), 1)
    case Int16(i) => [0xD1] + BigEndian(TwosComplement(i, 2), 2)
    case Int32(i) => [0xD2] + BigEndian(TwosComplement(i, 4), 4)
    case Int64(i) => [0xD3] + BigEndian(TwosComplement(i, 8), 8)
    case FixStr(raw) => [0xA0 + |raw|] + raw
    case Str8(raw) => [0xD9] + BigEndian(|raw|, 1) + raw
    case Str16(raw) => [0xDA] + BigEndian(|raw|, 2) + raw
    case Bin8(raw) => [0xC4] + BigEndian(|raw|, 1) + raw
    case Bin16(raw) => [0xC5] + BigEndian(|raw|, 2) + raw
    case FixArray(items) => [0x90 + |items|] + EncodeAll(items)
    case Array16(items) => [0xDC] + BigEndian(|items|, 2) + EncodeAll(items)
    case FixMap(items) => [0x80 + |items| / 2] + EncodeAll(items)
    case Map16(items) => [0xDE] + BigEndian(|items| / 2, 2) + EncodeAll(items)
  }

  function EncodeAll(items: seq<Wire>): seq<byte>
    requires AllWellFormed(items)
  {
    if items == [] then [] else Encode(items[0]) + EncodeAll(items[1..])
  }

  function Meaning(r: Reader, w: Wire): Value {
    match w
    case PositiveFixInt(n) => Int(n)
    case NegativeFixInt(i) => Int(i)
    case Boolean(b) => Bool(b)
    case UInt8(n) => Int(n)
    case UInt16(n) => Int(n)
    case UInt32(n) => Int(n)
    case UInt64(n) => Int(n)
    case Int8(i) => Int(i)
    case Int16(i) => Int(i)
    case Int32(i) => Int(i)
    case Int64(i) => Int(i)
    case FixStr(raw) => Text(r.decode(raw))
    case Str8(raw) => Text(r.decode(raw))
    case Str16(raw) => Text(r.decode(raw))
    case Bin8(raw) => Binary(raw)
    case Bin16(raw) => Binary(raw)
    case FixArray(items) => List(Meanings(r, items))
    case Array16(items) => List(Meanings(r, items))
    case FixMap(items) => Dict(Dictionary(r, Meanings(r, items)))
    case Map16(items) => Dict(Dictionary(r, Meanings(r, items)))
  }

  function Meanings(r: Reader, items: seq<Wire>): (values: seq<Value>)
    ensures |values| == |items|
  {
    if items == [] then [] else [Meaning(r, items[0])] + Meanings(r, items[1..])
  }

  // ---- the reader accepts every well-formed encoding ----

  /** `bytes` stand in the input at `offset`. */
  predicate At(r: Reader, offset: nat, bytes: seq<byte>) {
    offset + |bytes| <= |r.data| && r.data[offset..offset + |bytes|] == bytes
  }

  lemma AtSplit(r: Reader, offset: nat, a: seq<byte>, b: seq<byte>, ab: seq<byte>)
    requires ab == a + b && At(r, offset, ab)
    ensures At(r, offset, a) && At(r, offset + |a|, b)
  {
    assert r.data[offset..offset + |a|] == ab[..|a|] == a;
    assert r.data[offset + |a|..offset + |ab|] == ab[|a|..] == b;
  }

  predicate IsImmediate(w: Wire) {
    w.PositiveFixInt? || w.NegativeFixInt? || w.Boolean?
  }

  predicate IsUnsigned(w: Wire) {
    w.UInt8? || w.UInt16? || w.UInt32? || w.UInt64?
  }

  predicate IsSignedInt(w: Wire) {
    w.Int8? || w.Int16? || w.Int32? || w.Int64?
  }

  predicate IsRaw(w: Wire) {
    w.FixStr? || w.Str8? || w.Str16? || w.Bin8? || w.Bin16?
  }

  predicate IsNested(w: Wire) {
    w.FixArray? || w.Array16? || w.FixMap? || w.Map16?
  }

  function NumberWidth(w: Wire): nat {
    if w.UInt8? || w.Int8? then 1 else if w.UInt16? || w.Int16? then 2 else if w.UInt32? || w.Int32? then 4 else 8
  }

  /** The unsigned number that is written for a numeric format. */
  function NumberField(w: Wire): nat
    requires WellFormed(w) && (IsUnsigned(w) || IsSignedInt(w))
  {
    if IsUnsigned(w) then w.n else TwosComplement(w.i, NumberWidth(w))
  }

  /** How the counted formats announce themselves: kind, width of the length field, count. */
  function KindOf(w: Wire): Kind {
    match w
    case Bin8(_) => BinKind
    case Bin16(_) => BinKind
    case FixArray(_) => ArrayKind
    case Array16(_) => ArrayKind
    case FixMap(_) => MapKind
    case Map16(_) => MapKind
    case _ => StrKind
  }

  function LengthWidth(w: Wire): nat {
    if w.Str8? || w.Bin8? then 1 else if w.Str16? || w.Bin16? || w.Array16? || w.Map16? then 2 else 0
  }

  function CountOf(w: Wire): nat
    requires IsRaw(w) || IsNested(w)
  {
    if IsRaw(w) then |w.raw| else if KindOf(w) == MapKind then |w.items| / 2 else |w.items|
  }

  function BodyOf(w: Wire): seq<byte>
    requires WellFormed(w) && (IsRaw(w) || IsNested(w))
  {
    if IsRaw(w) then w.raw else EncodeAll(w.items)
  }

  lemma NumberShape(w: Wire)
    requires WellFormed(w) && (IsUnsigned(w) || IsSignedInt(w))
    ensures Encode(w) == [Encode(w)[0]] + BigEndian(NumberField(w), NumberWidth(w))
    ensures FormOf(Encode(w)[0]) == if IsUnsigned(w) then Unsigned(NumberWidth(w)) else Signed(NumberWidth(w))
    ensures NumberField(w) < Pow256(NumberWidth(w))
    ensures IsSignedInt(w) ==> AsSigned(NumberField(w), NumberWidth(w)) == w.i
  {
  }

  lemma RawForm(w: Wire)
    requires WellFormed(w) && IsRaw(w)
    ensures FormOf(Encode(w)[0]) == Counted(KindOf(w), LengthWidth(w), if LengthWidth(w) == 0 then CountOf(w) else 0)
    ensures LengthWidth(w) > 0 ==> CountOf(w) < Pow256(LengthWidth(w))
  {
  }

  lemma NestedForm(w: Wire)
    requires WellFormed(w) && IsNested(w)
    ensures FormOf(Encode(w)[0]) == Counted(KindOf(w), LengthWidth(w), if LengthWidth(w) == 0 then CountOf(w) else 0)
    ensures LengthWidth(w) > 0 ==> CountOf(w) < Pow256(LengthWidth(w))
  {
  }

  function LengthField(w: Wire): nat
    requires WellFormed(w) && (IsRaw(w) || IsNested(w))
  {
    if LengthWidth(w) == 0 then 0 else CountOf(w)
  }

  lemma CountedBytes(w: Wire, length: seq<byte>, body: seq<byte>)
    requires WellFormed(w) && (IsRaw(w) || IsNested(w))
    requires length == BigEndian(LengthField(w), LengthWidth(w)) && body == BodyOf(w)
    ensures Encode(w) == [Encode(w)[0]] + (length + body)
  {
    if LengthWidth(w) > 0 {
      assert [Encode(w)[0]] + length + body == [Encode(w)[0]] + (length + body);
    }
  }

  lemma ReadBeAt(r: Reader, offset: nat, n: nat, width: nat)
    requires n < Pow256(width) && At(r, offset, BigEndian(n, width))
    ensures ReadBe(r, offset, width) == Ok(n, offset + width)
  {
    BigEndianRoundTrip(n, width);
  }

  lemma ParseNumberEncoded(r: Reader, offset: nat, w: Wire, tag: byte, digits: seq<byte>)
    requires WellFormed(w) && (IsUnsigned(w) || IsSignedInt(w)) && tag == Encode(w)[0]
    requires digits == BigEndian(NumberField(w), NumberWidth(w)) && At(r, offset, [tag] + digits)
    ensures offset < |r.data| && Parse(r, offset) == Ok(Meaning(r, w), offset + 1 + |digits|)
  {
    NumberShape(w);
    AtSplit(r, offset, [tag], digits, [tag] + digits);
    assert r.data[offset] == r.data[offset..offset + 1][0];
    ReadBeAt(r, offset + 1, NumberField(w), NumberWidth(w));
  }

  lemma ThreeParts(r: Reader, offset: nat, tag: byte, length: seq<byte>, body: seq<byte>)
    requires At(r, offset, [tag] + (length + body))
    ensures offset < |r.data| && r.data[offset] == tag
    ensures At(r, offset + 1, length) && At(r, offset + 1 + |length|, body)
  {
    AtSplit(r, offset, [tag], length + body, [tag] + (length + body));
    AtSplit(r, offset + 1, length, body, length + body);
    assert r.data[offset] == r.data[offset..offset + 1][0] == tag;
  }

  lemma CountedPrefix(r: Reader, offset: nat, w: Wire, tag: byte, length: seq<byte>, body: seq<byte>)
    requires WellFormed(w) && (IsRaw(w) || IsNested(w)) && tag == Encode(w)[0]
    requires length == BigEndian(LengthField(w), LengthWidth(w)) && At(r, offset, [tag] + (length + body))
    ensures offset < |r.data| && At(r, offset + 1 + |length|, body)
    ensures Parse(r, offset) == ParseBody(r, offset + 1 + |length|, KindOf(w), CountOf(w))
  {
    var kind, count, width, field := KindOf(w), CountOf(w), LengthWidth(w), LengthField(w);
    CountedForm(w, kind, count, width, field);
    ThreeParts(r, offset, tag, length, body);
    CountedParse(r, offset, kind, count, width, field, length, ParseBody(r, offset + 1 + |length|, kind, count));
  }

  lemma CountedParse(r: Reader, offset: nat, kind: Kind, count: nat, width: nat, field: nat, length: seq<byte>,
      p: Parsed<Value>)
    requires offset < |r.data| && field <= count && FormOf(r.data[offset]) == Counted(kind, width, count - field)
    requires length == BigEndian(field, width) && field < Pow256(width) && At(r, offset + 1, length)
    requires p == ParseBody(r, offset + 1 + |length|, kind, count)
    ensures Parse(r, offset) == p
  {
    ReadBeAt(r, offset + 1, field, width);
    CountedAt(r, offset, kind, width, count - field, field, offset + 1 + |length|, p);
  }

  lemma CountedAt(r: Reader, offset: nat, kind: Kind, width: nat, fixed: nat, field: nat, next: nat, p: Parsed<Value>)
    requires offset < |r.data| && FormOf(r.data[offset]) == Counted(kind, width, fixed)
    requires ReadBe(r, offset + 1, width) == Ok(field, next) && next <= |r.data|
    requires p == ParseBody(r, next, kind, field + fixed)
    ensures Parse(r, offset) == p
  {
    var counted := ParseCounted(r, offset + 1, kind, width, fixed);
    CountedUnfolds(r, offset + 1, kind, width, fixed);
    assert counted == p;
    ParseOfCounted(r, offset, kind, width, fixed);
  }

  lemma CountedForm(w: Wire, kind: Kind, count: nat, width: nat, field: nat)
    requires WellFormed(w) && (IsRaw(w) || IsNested(w)) && width == LengthWidth(w) && field == LengthField(w)
    requires kind == KindOf(w) && count == CountOf(w)
    ensures field <= count && field < Pow256(width) && FormOf(Encode(w)[0]) == Counted(kind, width, count - field)
  {
    if IsRaw(w) {
      RawForm(w);
    } else {
      NestedForm(w);
    }
  }

  lemma ImmediateEncoded(r: Reader, offset: nat, w: Wire)
    requires WellFormed(w) && IsImmediate(w) && At(r, offset, Encode(w))
    ensures ValueIs(r, offset, w, offset + |Encode(w)|)
  {
    assert r.data[offset..offset + |Encode(w)|][0] == Encode(w)[0];
  }

  lemma NumberEncoded(r: Reader, offset: nat, w: Wire)
    requires WellFormed(w) && (IsUnsigned(w) || IsSignedInt(w)) && At(r, offset, Encode(w))
    ensures ValueIs(r, offset, w, offset + |Encode(w)|)
  {
    NumberShape(w);
    ParseNumberEncoded(r, offset, w, Encode(w)[0], BigEndian(NumberField(w), NumberWidth(w)));
  }

  /** Where the body of a counted encoding starts. */
  lemma CountedBodyAt(r: Reader, offset: nat, w: Wire) returns (at: nat)
    requires WellFormed(w) && (IsRaw(w) || IsNested(w)) && At(r, offset, Encode(w))
    ensures At(r, at, BodyOf(w)) && at + |BodyOf(w)| == offset + |Encode(w)|
    ensures Parse(r, offset) == ParseBody(r, at, KindOf(w), CountOf(w))
  {
    var length, body := BigEndian(LengthField(w), LengthWidth(w)), BodyOf(w);
    CountedBytes(w, length, body);
    CountedPrefix(r, offset, w, Encode(w)[0], length, body);
    at := offset + 1 + |length|;
  }

  predicate BodyIs(r: Reader, offset: nat, w: Wire, end: nat)
    requires WellFormed(w) && (IsRaw(w) || IsNested(w))
  {
    offset <= |r.data| && ParseBody(r, offset, KindOf(w), CountOf(w)) == Ok(Meaning(r, w), end)
  }

  predicate ValueIs(r: Reader, offset: nat, w: Wire, end: nat)
    requires WellFormed(w)
  {
    offset <= |r.data| && Parse(r, offset) == Ok(Meaning(r, w), end)
  }

  lemma BodyIsValue(r: Reader, offset: nat, w: Wire, at: nat, end: nat)
    requires WellFormed(w) && (IsRaw(w) || IsNested(w)) && BodyIs(r, at, w, end) && offset <= |r.data|
    requires Parse(r, offset) == ParseBody(r, at, KindOf(w), CountOf(w))
    ensures ValueIs(r, offset, w, end)
  {
  }

  /** Parsing an encoding yields its meaning and consumes exactly its bytes, whatever stands before or behind it. */
  lemma ParseEncoded(r: Reader, offset: nat, w: Wire)
    requires WellFormed(w) && At(r, offset, Encode(w))
    ensures Parse(r, offset) == Ok(Meaning(r, w), offset + |Encode(w)|)
  {
    EncodingIsValue(r, offset, w);
  }

  lemma {:induction false} EncodingIsValue(r: Reader, offset: nat, w: Wire)
    requires WellFormed(w) && At(r, offset, Encode(w))
    ensures ValueIs(r, offset, w, offset + |Encode(w)|)
    decreases w, 1
  {
    if IsImmediate(w) {
      ImmediateEncoded(r, offset, w);
    } else if IsUnsigned(w) || IsSignedInt(w) {
      NumberEncoded(r, offset, w);
    } else {
      var at := CountedBodyAt(r, offset, w);
      ParseBodyEncoded(r, at, w);
      BodyIsValue(r, offset, w, at, offset + |Encode(w)|);
    }
  }

  lemma NestedBody(r: Reader, offset: nat, w: Wire, end: nat)
    requires WellFormed(w) && IsNested(w) && offset <= |r.data|
    requires ItemsAre(r, offset, |w.items|, Meanings(r, w.items), end)
    ensures BodyIs(r, offset, w, end)
  {
  }

  lemma RawBody(r: Reader, offset: nat, w: Wire)
    requires WellFormed(w) && IsRaw(w) && At(r, offset, BodyOf(w))
    ensures BodyIs(r, offset, w, offset + |BodyOf(w)|)
  {
  }

  lemma {:induction false} ParseBodyEncoded(r: Reader, offset: nat, w: Wire)
    requires WellFormed(w) && (IsRaw(w) || IsNested(w)) && At(r, offset, BodyOf(w))
    ensures BodyIs(r, offset, w, offset + |BodyOf(w)|)
    decreases w, 0
  {
    if IsNested(w) {
      ParseAllEncoded(r, offset, w.items, BodyOf(w), |w.items|, Meanings(r, w.items));
      NestedBody(r, offset, w, offset + |BodyOf(w)|);
    } else {
      RawBody(r, offset, w);
    }
  }

  lemma ParseItemsStep(r: Reader, offset: nat, count: nat, first: Value, middle: nat, rest: seq<Value>, end: nat)
    requires offset <= middle <= |r.data| && count > 0
    requires Parse(r, offset) == Ok(first, middle) && ParseItems(r, middle, count - 1) == Ok(rest, end)
    ensures ParseItems(r, offset, count) == Ok([first] + rest, end)
  {
  }

  predicate ItemsAre(r: Reader, offset: nat, count: nat, values: seq<Value>, end: nat) {
    offset <= |r.data| && ParseItems(r, offset, count) == Ok(values, end)
  }

  lemma EncodedSplits(r: Reader, offset: nat, items: seq<Wire>, bytes: seq<byte>, values: seq<Value>,
      first: seq<byte>, rest: seq<byte>, value: Value, later: seq<Value>)
    requires items != [] && AllWellFormed(items) && bytes == EncodeAll(items) && At(r, offset, bytes)
    requires first == Encode(items[0]) && rest == EncodeAll(items[1..])
    requires values == Meanings(r, items) && value == Meaning(r, items[0]) && later == Meanings(r, items[1..])
    ensures |bytes| == |first| + |rest| && At(r, offset, first) && At(r, offset + |first|, rest)
    ensures values == [value] + later
  {
    AtSplit(r, offset, first, rest, bytes);
  }

  lemma {:induction false} ParseAllEncoded(r: Reader, offset: nat, items: seq<Wire>, bytes: seq<byte>, count: nat,
      values: seq<Value>)
    requires AllWellFormed(items) && bytes == EncodeAll(items) && At(r, offset, bytes)
    requires count == |items| && values == Meanings(r, items)
    ensures ItemsAre(r, offset, count, values, offset + |bytes|)
    decreases items, 0
  {
    if items == [] {
      NoItems(r, offset, values, bytes);
    } else {
      var first, rest := Encode(items[0]), EncodeAll(items[1..]);
      var value, later := Meaning(r, items[0]), Meanings(r, items[1..]);
      EncodedSplits(r, offset, items, bytes, values, first, rest, value, later);
      EncodingIsValue(r, offset, items[0]);
      ParseAllEncoded(r, offset + |first|, items[1..], rest, count - 1, later);
      MoreItems(r, offset, count, items[0], offset + |first|, later, offset + |first| + |rest|, values);
    }
  }

  lemma NoItems(r: Reader, offset: nat, values: seq<Value>, bytes: seq<byte>)
    requires values == Meanings(r, []) && bytes == EncodeAll([]) && offset <= |r.data|
    ensures ItemsAre(r, offset, 0, values, offset + |bytes|)
  {
  }

  lemma MoreItems(r: Reader, offset: nat, count: nat, w: Wire, middle: nat, later: seq<Value>, end: nat,
      values: seq<Value>)
    requires offset <= middle <= |r.data| && count > 0 && WellFormed(w) && values == [Meaning(r, w)] + later
    requires ValueIs(r, offset, w, middle) && ItemsAre(r, middle, count - 1, later, end)
    ensures ItemsAre(r, offset, count, values, end)
  {
    ParseItemsStep(r, offset, count, Meaning(r, w), middle, later, end);
  }

  // ---- and nothing else ----

  /** The encoding that was read, with its meaning. */
  predicate Reads(r: Reader, offset: nat, w: Wire, value: Value, next: nat) {
    && WellFormed(w) && offset <= next <= |r.data|
    && Encode(w) == r.data[offset..next] && Meaning(r, w) == value
  }

  predicate ReadsAll(r: Reader, offset: nat, items: seq<Wire>, values: seq<Value>, next: nat) {
    && AllWellFormed(items) && offset <= next <= |r.data|
    && EncodeAll(items) == r.data[offset..next] && Meanings(r, items) == values
  }

  function NumberWire(width: nat, signed: bool, n: nat): Wire {
    if signed then
      var i := AsSigned(n, width);
      if width == 1 then Int8(i) else if width == 2 then Int16(i) else if width == 4 then Int32(i) else Int64(i)
    else if width == 1 then UInt8(n) else if width == 2 then UInt16(n) else if width == 4 then UInt32(n) else UInt64(n)
  }

  function ImmediateWire(tag: byte): Wire {
    if tag <= 0x7F then PositiveFixInt(tag) else if tag >= 0xE0 then NegativeFixInt(tag as int - 0x100) else Boolean(tag == 0xC3)
  }

  lemma ParsedImmediate(r: Reader, offset: nat)
    requires offset < |r.data| && FormOf(r.data[offset]).Immediate?
    ensures Reads(r, offset, ImmediateWire(r.data[offset]), FormOf(r.data[offset]).value, offset + 1)
  {
  }

  function NumberTag(width: nat, signed: bool): byte {
    (if signed then 0xD0 else 0xCC) + (if width == 1 then 0 else if width == 2 then 1 else if width == 4 then 2 else 3)
  }

  lemma NumberTagOf(tag: byte, width: nat, signed: bool)
    requires FormOf(tag) == if signed then Signed(width) else Unsigned(width)
    ensures tag == NumberTag(width, signed) && width in {1, 2, 4, 8}
  {
  }

  lemma NumberWireMeans(r: Reader, width: nat, signed: bool, n: nat)
    requires width in {1, 2, 4, 8} && n < Pow256(width)
    ensures var w := NumberWire(width, signed, n);
            && WellFormed(w) && Encode(w) == [NumberTag(width, signed)] + BigEndian(n, width)
            && Meaning(r, w) == Int(if signed then AsSigned(n, width) else n)
  {
  }

  lemma ParsedNumber(r: Reader, offset: nat, width: nat, signed: bool, raw: seq<byte>, n: nat, w: Wire)
    requires offset + 1 + width <= |r.data| && raw == r.data[offset + 1..offset + 1 + width] && n == BigEndianValue(raw)
    requires WellFormed(w) && Encode(w) == [r.data[offset]] + raw
    requires Meaning(r, w) == Int(if signed then AsSigned(n, width) else n)
    ensures ParseNumber(r, offset + 1, width, signed).Ok?
    ensures Reads(r, offset, w, ParseNumber(r, offset + 1, width, signed).value, offset + 1 + width)
  {
    assert r.data[offset..offset + 1 + width] == [r.data[offset]] + raw;
  }

  lemma ParsedNumberIsEncoded(r: Reader, offset: nat, width: nat, signed: bool) returns (w: Wire)
    requires offset < |r.data| && FormOf(r.data[offset]) == if signed then Signed(width) else Unsigned(width)
    requires ParseNumber(r, offset + 1, width, signed).Ok?
    ensures Reads(r, offset, w, ParseNumber(r, offset + 1, width, signed).value, offset + 1 + width)
  {
    var raw := r.data[offset + 1..offset + 1 + width];
    var n := BigEndianValue(raw);
    BigEndianValueBound(raw);
    BigEndianOfValue(raw);
    NumberTagOf(r.data[offset], width, signed);
    NumberWireMeans(r, width, signed, n);
    w := NumberWire(width, signed, n);
    ParsedNumber(r, offset, width, signed, raw, n, w);
  }

  /** The raw format with the given tag around the given content. */
  function RawWire(tag: byte, raw: seq<byte>): Wire {
    if tag == 0xC4 then Bin8(raw)
    else if tag == 0xC5 then Bin16(raw)
    else if tag == 0xD9 then Str8(raw)
    else if tag == 0xDA then Str16(raw)
    else FixStr(raw)
  }

  lemma StrWireMeans(r: Reader, tag: byte, width: nat, fixed: nat, raw: seq<byte>, field: nat)
    requires FormOf(tag) == Counted(StrKind, width, fixed) && field < Pow256(width) && |raw| == field + fixed
    ensures var w := RawWire(tag, raw);
            WellFormed(w) && Encode(w) == [tag] + BigEndian(field, width) + raw && Meaning(r, w) == Text(r.decode(raw))
  {
  }

  lemma BinWireMeans(r: Reader, tag: byte, width: nat, fixed: nat, raw: seq<byte>, field: nat)
    requires FormOf(tag) == Counted(BinKind, width, fixed) && field < Pow256(width) && |raw| == field + fixed
    ensures var w := RawWire(tag, raw);
            WellFormed(w) && Encode(w) == [tag] + BigEndian(field, width) + raw && Meaning(r, w) == Binary(raw)
  {
  }

  lemma ArrayTagOf(tag: byte, width: nat, fixed: nat)
    requires FormOf(tag) == Counted(ArrayKind, width, fixed)
    ensures if width == 0 then fixed < 0x10 && tag as int == 0x90 + fixed else width == 2 && fixed == 0 && tag == 0xDC
  {
  }

  lemma MapTagOf(tag: byte, width: nat, fixed: nat)
    requires FormOf(tag) == Counted(MapKind, width, fixed)
    ensures if width == 0 then fixed < 0x10 && tag as int == 0x80 + fixed else width == 2 && fixed == 0 && tag == 0xDE
  {
  }

  lemma ArrayWire(r: Reader, tag: byte, width: nat, fixed: nat, items: seq<Wire>, field: nat, body: seq<byte>) returns (w: Wire)
    requires FormOf(tag) == Counted(ArrayKind, width, fixed) && field < Pow256(width)
    requires AllWellFormed(items) && |items| == field + fixed && body == EncodeAll(items)
    ensures WellFormed(w) && Encode(w) == [tag] + BigEndian(field, width) + body && Meaning(r, w) == List(Meanings(r, items))
  {
    ArrayTagOf(tag, width, fixed);
    if width == 0 {
      w := FixArray(items);
      assert [tag] + [] == [tag];
    } else {
      w := Array16(items);
    }
  }

  lemma MapWire(r: Reader, tag: byte, width: nat, fixed: nat, items: seq<Wire>, field: nat, body: seq<byte>) returns (w: Wire)
    requires FormOf(tag) == Counted(MapKind, width, fixed) && field < Pow256(width)
    requires AllWellFormed(items) && |items| == 2 * (field + fixed) && body == EncodeAll(items)
    ensures WellFormed(w) && Encode(w) == [tag] + BigEndian(field, width) + body
    ensures Meaning(r, w) == Dict(Dictionary(r, Meanings(r, items)))
  {
    MapTagOf(tag, width, fixed);
    if width == 0 {
      w := FixMap(items);
      assert [tag] + [] == [tag];
    } else {
      w := Map16(items);
    }
  }

  /** What was read at an offset was written there in format `w`. */
  predicate ReadsParsed(r: Reader, offset: nat, w: Wire)
    requires offset <= |r.data| && Parse(r, offset).Ok?
  {
    Reads(r, offset, w, Parse(r, offset).value, Parse(r, offset).next)
  }

  lemma ParseOfNumber(r: Reader, offset: nat, width: nat, signed: bool)
    requires offset < |r.data| && FormOf(r.data[offset]) == if signed then Signed(width) else Unsigned(width)
    ensures Parse(r, offset) == ParseNumber(r, offset + 1, width, signed)
  {
  }

  lemma ParseOfCounted(r: Reader, offset: nat, kind: Kind, width: nat, fixed: nat)
    requires offset < |r.data| && FormOf(r.data[offset]) == Counted(kind, width, fixed)
    ensures Parse(r, offset) == ParseCounted(r, offset + 1, kind, width, fixed)
  {
  }

  lemma LengthFieldRead(r: Reader, offset: nat, kind: Kind, width: nat, fixed: nat, p: Parsed<Value>) returns (field: nat)
    requires offset <= |r.data| && p == ParseCounted(r, offset, kind, width, fixed) && p.Ok?
    ensures offset + width <= |r.data|
    ensures field < Pow256(width) && BigEndian(field, width) == r.data[offset..offset + width]
    ensures p == ParseBody(r, offset + width, kind, field + fixed)
  {
    CountedUnfolds(r, offset, kind, width, fixed);
    field := FieldRead(r, offset, width);
  }

  lemma CountedUnfolds(r: Reader, offset: nat, kind: Kind, width: nat, fixed: nat)
    requires offset <= |r.data|
    ensures
      var p := ReadBe(r, offset, width);
      ParseCounted(r, offset, kind, width, fixed) ==
        if p.Err? then Err(p.error) else ParseBody(r, p.next, kind, p.value + fixed)
  {
  }

  /** What a big-endian read yields is the number that these bytes write out. */
  lemma FieldRead(r: Reader, offset: nat, width: nat) returns (field: nat)
    requires ReadBe(r, offset, width).Ok?
    ensures offset + width <= |r.data| && ReadBe(r, offset, width) == Ok(field, offset + width)
    ensures field < Pow256(width) && BigEndian(field, width) == r.data[offset..offset + width]
  {
    var digits := r.data[offset..offset + width];
    field := BigEndianValue(digits);
    BigEndianValueBound(digits);
    BigEndianOfValue(digits);
  }

  lemma ReadNumber(r: Reader, offset: nat, width: nat, signed: bool) returns (w: Wire)
    requires offset < |r.data| && FormOf(r.data[offset]) == if signed then Signed(width) else Unsigned(width)
    requires Parse(r, offset).Ok?
    ensures ReadsParsed(r, offset, w)
  {
    ParseOfNumber(r, offset, width, signed);
    w := ParsedNumberIsEncoded(r, offset, width, signed);
  }

  lemma ReadImmediate(r: Reader, offset: nat) returns (w: Wire)
    requires offset < |r.data| && FormOf(r.data[offset]).Immediate?
    ensures Parse(r, offset).Ok? && ReadsParsed(r, offset, w)
  {
    ParsedImmediate(r, offset);
    w := ImmediateWire(r.data[offset]);
  }

  lemma ParsedHasForm(r: Reader, offset: nat)
    requires offset <= |r.data| && Parse(r, offset).Ok?
    ensures offset < |r.data| && FormOf(r.data[offset]) != NoForm
  {
  }

  /** Whatever the reader returns was written there in one of the supported formats. */
  lemma {:induction false} ParsedIsEncoded(r: Reader, offset: nat) returns (w: Wire)
    requires offset <= |r.data| && Parse(r, offset).Ok?
    ensures ReadsParsed(r, offset, w)
    decreases |r.data| - offset, 0
  {
    ParsedHasForm(r, offset);
    var form := FormOf(r.data[offset]);
    if form.Immediate? {
      w := ReadImmediate(r, offset);
    } else if form.Unsigned? {
      w := ReadNumber(r, offset, form.width, false);
    } else if form.Signed? {
      w := ReadNumber(r, offset, form.width, true);
    } else {
      w := ParsedCountedIsEncoded(r, offset, form.kind, form.lengthWidth, form.fixed);
    }
  }

  lemma {:induction false} ParsedCountedIsEncoded(r: Reader, offset: nat, kind: Kind, width: nat, fixed: nat) returns (w: Wire)
    requires offset < |r.data| && FormOf(r.data[offset]) == Counted(kind, width, fixed) && Parse(r, offset).Ok?
    ensures ReadsParsed(r, offset, w)
    decreases |r.data| - offset, 0, 0
  {
    ParseOfCounted(r, offset, kind, width, fixed);
    var field := LengthFieldRead(r, offset + 1, kind, width, fixed, Parse(r, offset));
    w := ParsedBodyIsEncoded(r, offset, offset + 1 + width, r.data[offset], kind, width, fixed, field);
  }

  lemma {:induction false} ParsedBodyIsEncoded(r: Reader, offset: nat, body: nat, tag: byte, kind: Kind, width: nat, fixed: nat,
                                               field: nat) returns (w: Wire)
    requires body == offset + 1 + width <= |r.data| && r.data[offset] == tag && FormOf(tag) == Counted(kind, width, fixed)
    requires field < Pow256(width) && BigEndian(field, width) == r.data[offset + 1..body]
    requires ParseBody(r, body, kind, field + fixed).Ok?
    ensures var p := ParseBody(r, body, kind, field + fixed); Reads(r, offset, w, p.value, p.next)
    decreases |r.data| - body, 2 * (field + fixed) + 2
  {
    var count := field + fixed;
    var p := ParseBody(r, body, kind, count);
    var content := r.data[body..p.next];
    if kind == StrKind {
      StrWireMeans(r, tag, width, fixed, content, field);
      w := RawWire(tag, content);
    } else if kind == BinKind {
      BinWireMeans(r, tag, width, fixed, content, field);
      w := RawWire(tag, content);
    } else if kind == ArrayKind {
      var items := ParsedItemsAreEncoded(r, body, count);
      w := ArrayWire(r, tag, width, fixed, items, field, content);
    } else {
      var items := ParsedItemsAreEncoded(r, body, 2 * count);
      w := MapWire(r, tag, width, fixed, items, field, content);
    }
    ReadsCounted(r, offset, body, p.next, tag, BigEndian(field, width), content, w, p.value);
  }

  lemma ReadsCounted(r: Reader, offset: nat, body: nat, end: nat, tag: byte, length: seq<byte>, content: seq<byte>, w: Wire,
                     value: Value)
    requires offset < body <= end <= |r.data| && r.data[offset] == tag
    requires length == r.data[offset + 1..body] && content == r.data[body..end]
    requires WellFormed(w) && Encode(w) == [tag] + length + content && Meaning(r, w) == value
    ensures Reads(r, offset, w, value, end)
  {
    assert [tag] + length + content == r.data[offset..end];
  }

  lemma ParsedItemsStep(r: Reader, offset: nat, count: nat, p: Parsed<seq<Value>>)
    requires offset <= |r.data| && count > 0 && p == ParseItems(r, offset, count) && p.Ok?
    ensures Parse(r, offset).Ok?
    ensures ParseItems(r, Parse(r, offset).next, count - 1) == Ok(p.value[1..], p.next)
    ensures p.value[0] == Parse(r, offset).value
  {
  }

  lemma ReadsAllStep(r: Reader, offset: nat, middle: nat, end: nat, first: Wire, rest: seq<Wire>, values: seq<Value>,
                     items: seq<Wire>)
    requires values != [] && items == [first] + rest
    requires Reads(r, offset, first, values[0], middle) && ReadsAll(r, middle, rest, values[1..], end)
    ensures ReadsAll(r, offset, items, values, end)
  {
    assert items[1..] == rest && values == [values[0]] + values[1..];
    assert r.data[offset..middle] + r.data[middle..end] == r.data[offset..end];
  }

  lemma {:induction false} ParsedItemsAreEncoded(r: Reader, offset: nat, count: nat) returns (items: seq<Wire>)
    requires offset <= |r.data| && ParseItems(r, offset, count).Ok?
    ensures var p := ParseItems(r, offset, count); ReadsAll(r, offset, items, p.value, p.next)
    ensures |items| == count
    decreases |r.data| - offset, count + 1
  {
    var p := ParseItems(r, offset, count);
    if count == 0 {
      items := [];
    } else {
      ParsedItemsStep(r, offset, count, p);
      var first := ParsedIsEncoded(r, offset);
      var middle := Parse(r, offset).next;
      var rest := ParsedItemsAreEncoded(r, middle, count - 1);
      items := [first] + rest;
      ReadsAllStep(r, offset, middle, p.next, first, rest, p.value, items);
    }
  }

  // ---- what follows ----

  /** The reader returns a value and an end exactly when the bytes in between are some supported encoding of that value. */
  lemma ParseIffEncoded(r: Reader, offset: nat, value: Value, next: nat)
    requires offset <= |r.data|
    ensures Parse(r, offset) == Ok(value, next) <==> exists w :: Reads(r, offset, w, value, next)
  {
    if Parse(r, offset) == Ok(value, next) {
      var w := ParsedIsEncoded(r, offset);
      assert Reads(r, offset, w, value, next);
    }
    forall w | Reads(r, offset, w, value, next)
      ensures Parse(r, offset) == Ok(value, next)
    {
      ParseEncoded(r, offset, w);
    }
  }

  /** Only the consumed bytes matter: the same bytes anywhere in any other input read the same. */
  lemma ParseDependsOnConsumedBytes(r: Reader, offset: nat, other: Reader, start: nat)
    requires offset <= |r.data| && Parse(r, offset).Ok?
    requires other.decode == r.decode && other.str == r.str
    requires At(other, start, r.data[offset..Parse(r, offset).next])
    ensures start <= |other.data|
    ensures Parse(other, start) == Ok(Parse(r, offset).value, start + (Parse(r, offset).next - offset))
  {
    var w := ParsedIsEncoded(r, offset);
    ParseEncoded(other, start, w);
    SameMeaning(r, other, w);
  }

  lemma {:induction false} SameMeaning(r: Reader, other: Reader, w: Wire)
    requires other.decode == r.decode && other.str == r.str
    ensures Meaning(other, w) == Meaning(r, w)
    decreases w, 1
  {
    if IsNested(w) {
      SameMeanings(r, other, w.items);
      SameDictionary(r, other, Meanings(r, w.items));
    }
  }

  lemma {:induction false} SameMeanings(r: Reader, other: Reader, items: seq<Wire>)
    requires other.decode == r.decode && other.str == r.str
    ensures Meanings(other, items) == Meanings(r, items)
    decreases items, 0
  {
    if items != [] {
      SameMeaning(r, other, items[0]);
      SameMeanings(r, other, items[1..]);
    }
  }

  lemma {:induction false} SameDictionary(r: Reader, other: Reader, flat: seq<Value>)
    requires other.str == r.str
    ensures Dictionary(other, flat) == Dictionary(r, flat)
    decreases |flat|
  {
    if |flat| >= 2 {
      SameDictionary(r, other, flat[..|flat| - 2]);
    }
  }

  /** Number of values in an encoding, keys included. */
  function Nodes(w: Wire): nat {
    1 + if IsNested(w) then AllNodes(w.items) else 0
  }

  function AllNodes(items: seq<Wire>): nat {
    if items == [] then 0 else Nodes(items[0]) + AllNodes(items[1..])
  }

  /** No input can blow up: a result never has more values than the reader consumed bytes. */
  lemma {:induction false} NodesBounded(w: Wire)
    requires WellFormed(w)
    ensures Nodes(w) <= |Encode(w)|
    decreases w, 1
  {
    if IsNested(w) {
      AllNodesBounded(w.items);
      CountedBytes(w, BigEndian(LengthField(w), LengthWidth(w)), BodyOf(w));
    }
  }

  lemma {:induction false} AllNodesBounded(items: seq<Wire>)
    requires AllWellFormed(items)
    ensures AllNodes(items) <= |EncodeAll(items)|
    decreases items, 0
  {
    if items != [] {
      NodesBounded(items[0]);
      AllNodesBounded(items[1..]);
    }
  }

  predicate HasTextKeys(flat: seq<Value>) {
    |flat| % 2 == 0 && forall i :: 0 <= i < |flat| / 2 ==> flat[2 * i].Text?
  }

  /** The text keys and the values of alternating keys and values. */
  function KeysOf(flat: seq<Value>): (keys: seq<string>)
    requires HasTextKeys(flat)
    ensures |keys| == |flat| / 2
  {
    seq(|flat| / 2, i requires 0 <= i < |flat| / 2 => flat[2 * i].s)
  }

  function ValuesOf(flat: seq<Value>): (values: seq<Value>)
    requires |flat| % 2 == 0
    ensures |values| == |flat| / 2
  {
    seq(|flat| / 2, i requires 0 <= i < |flat| / 2 => flat[2 * i + 1])
  }

  predicate Distinct(keys: seq<string>) {
    forall i, j :: 0 <= i < j < |keys| ==> keys[i] != keys[j]
  }

  /** A dictionary that holds exactly the given pairs. */
  ghost predicate HoldsPairs(d: map<string, Value>, keys: seq<string>, values: seq<Value>)
    requires |keys| == |values|
  {
    && |d| == |keys|
    && (forall i :: 0 <= i < |keys| ==> keys[i] in d && d[keys[i]] == values[i])
  }

  lemma HoldsOneMore(d: map<string, Value>, n: nat, keys: seq<string>, values: seq<Value>, d': map<string, Value>)
    requires n + 1 == |keys| == |values| && Distinct(keys) && d' == d[keys[n] := values[n]]
    requires HoldsPairs(d, keys[..n], values[..n]) && d.Keys == set k | k in keys[..n]
    ensures HoldsPairs(d', keys, values)
    ensures d'.Keys == set k | k in keys
  {
    assert keys == keys[..n] + [keys[n]];
    assert keys[n] !in keys[..n];
    assert d'.Keys == d.Keys + {keys[n]};
    forall i | 0 <= i < n
      ensures keys[i] in d' && d'[keys[i]] == values[i]
    {
      assert keys[i] == keys[..n][i] && values[i] == values[..n][i];
    }
  }

  lemma WithoutLastPair(flat: seq<Value>, before: seq<Value>, n: nat)
    requires HasTextKeys(flat) && |flat| == 2 * n + 2 && before == flat[..|flat| - 2]
    ensures HasTextKeys(before) && KeysOf(before) == KeysOf(flat)[..n] && ValuesOf(before) == ValuesOf(flat)[..n]
    ensures KeysOf(flat)[n] == flat[2 * n].s && ValuesOf(flat)[n] == flat[2 * n + 1]
  {
    assert |before| / 2 == n && |flat| / 2 == n + 1;
    assert forall i :: 0 <= i < n ==> before[2 * i] == flat[2 * i] && before[2 * i + 1] == flat[2 * i + 1];
  }

  lemma {:induction false} DictionaryHoldsPairs(r: Reader, flat: seq<Value>, keys: seq<string>, values: seq<Value>)
    requires HasTextKeys(flat) && keys == KeysOf(flat) && values == ValuesOf(flat) && Distinct(keys)
    ensures HoldsPairs(Dictionary(r, flat), keys, values)
    ensures Dictionary(r, flat).Keys == set k | k in keys
    decreases |flat|
  {
    if flat != [] {
      var n := |flat| / 2 - 1;
      var before := flat[..|flat| - 2];
      WithoutLastPair(flat, before, n);
      DictionaryHoldsPairs(r, before, keys[..n], values[..n]);
      HoldsOneMore(Dictionary(r, before), n, keys, values, Dictionary(r, flat));
    }
  }

  /** With distinct text keys the dictionary of a map encoding holds exactly the encoded pairs. */
  lemma MapKeepsEveryEntry(r: Reader, w: Wire, flat: seq<Value>)
    requires WellFormed(w) && (w.FixMap? || w.Map16?) && flat == Meanings(r, w.items)
    requires HasTextKeys(flat) && Distinct(KeysOf(flat))
    ensures Meaning(r, w).Dict? && HoldsPairs(Meaning(r, w).entries, KeysOf(flat), ValuesOf(flat))
  {
    DictionaryHoldsPairs(r, flat, KeysOf(flat), ValuesOf(flat));
  }

  // Keys of any kind, and keys that occur more than once.

  /** The text that a key is stored under: a text as it is read, anything else as the host writes that value. */
  predicate StoredUnder(r: Reader, key: Wire, text: string) {
    match key
    case FixStr(raw) => text == r.decode(raw)
    case Str8(raw) => text == r.decode(raw)
    case Str16(raw) => text == r.decode(raw)
    case PositiveFixInt(n) => text == r.str(Int(n))
    case NegativeFixInt(i) => text == r.str(Int(i))
    case UInt8(n) => text == r.str(Int(n))
    case UInt16(n) => text == r.str(Int(n))
    case UInt32(n) => text == r.str(Int(n))
    case UInt64(n) => text == r.str(Int(n))
    case Int8(i) => text == r.str(Int(i))
    case Int16(i) => text == r.str(Int(i))
    case Int32(i) => text == r.str(Int(i))
    case Int64(i) => text == r.str(Int(i))
    case Boolean(b) => text == r.str(Bool(b))
    case Bin8(raw) => text == r.str(Binary(raw))
    case Bin16(raw) => text == r.str(Binary(raw))
    case _ => text == r.str(Meaning(r, key))
  }

  /** The k-th pair is the last one whose key is stored under this text. */
  ghost predicate LastUnder(r: Reader, items: seq<Wire>, k: nat, text: string) {
    && 2 * k + 1 < |items| && StoredUnder(r, items[2 * k], text)
    && forall j :: k < j && 2 * j + 1 < |items| ==> !StoredUnder(r, items[2 * j], text)
  }

  lemma StoredUnderIsKeyText(r: Reader, key: Wire, text: string)
    ensures StoredUnder(r, key, text) <==> KeyText(r, Meaning(r, key)) == text
  {
  }

  /** The same of the values that were read. */
  ghost predicate LastAt(r: Reader, flat: seq<Value>, k: nat, text: string) {
    && 2 * k + 1 < |flat| && KeyText(r, flat[2 * k]) == text
    && forall j :: k < j && 2 * j + 1 < |flat| ==> KeyText(r, flat[2 * j]) != text
  }

  ghost predicate NoneAt(r: Reader, flat: seq<Value>, text: string) {
    forall j :: 0 <= j && 2 * j + 1 < |flat| ==> KeyText(r, flat[2 * j]) != text
  }

  lemma {:induction false} DictionaryKeepsLast(r: Reader, flat: seq<Value>, text: string) returns (k: nat)
    requires |flat| % 2 == 0
    ensures text in Dictionary(r, flat) ==> LastAt(r, flat, k, text) && Dictionary(r, flat)[text] == flat[2 * k + 1]
    ensures text !in Dictionary(r, flat) ==> NoneAt(r, flat, text)
    decreases |flat|
  {
    k := 0;
    if flat != [] {
      var n := |flat| / 2 - 1;
      var before := flat[..|flat| - 2];
      assert Dictionary(r, flat) == Dictionary(r, before)[KeyText(r, flat[2 * n]) := flat[2 * n + 1]];
      if KeyText(r, flat[2 * n]) == text {
        k := n;
      } else {
        k := DictionaryKeepsLast(r, before, text);
        assert forall j :: 0 <= j < n ==> before[2 * j] == flat[2 * j];
      }
    }
  }

  lemma {:induction false} MeaningAt(r: Reader, items: seq<Wire>, i: nat)
    requires i < |items|
    ensures Meanings(r, items)[i] == Meaning(r, items[i])
  {
    if i > 0 {
      MeaningAt(r, items[1..], i - 1);
    }
  }

  lemma LastUnderIsLastAt(r: Reader, items: seq<Wire>, k: nat, text: string)
    ensures LastUnder(r, items, k, text) <==> LastAt(r, Meanings(r, items), k, text)
  {
    forall j | 0 <= j && 2 * j + 1 < |items|
      ensures StoredUnder(r, items[2 * j], text) <==> KeyText(r, Meanings(r, items)[2 * j]) == text
    {
      MeaningAt(r, items, 2 * j);
      StoredUnderIsKeyText(r, items[2 * j], text);
    }
  }

  /** What a map encoding holds under one text: the value of the last pair with such a key, and nothing without one. */
  ghost predicate HoldsLast(r: Reader, items: seq<Wire>, d: map<string, Value>, text: string) {
    && (text in d <==> exists k: nat :: LastUnder(r, items, k, text))
    && (forall k: nat :: LastUnder(r, items, k, text) ==> text in d && d[text] == Meaning(r, items[2 * k + 1]))
  }

  lemma MapHoldsLast(r: Reader, items: seq<Wire>, text: string)
    requires |items| % 2 == 0
    ensures HoldsLast(r, items, Dictionary(r, Meanings(r, items)), text)
  {
    var flat := Meanings(r, items);
    var last := DictionaryKeepsLast(r, flat, text);
    forall k: nat ensures LastUnder(r, items, k, text) <==> LastAt(r, flat, k, text) {
      LastUnderIsLastAt(r, items, k, text);
    }
    forall k: nat | LastAt(r, flat, k, text) ensures flat[2 * k + 1] == Meaning(r, items[2 * k + 1]) {
      MeaningAt(r, items, 2 * k + 1);
    }
    if text !in Dictionary(r, flat) {
      forall k: nat ensures !LastAt(r, flat, k, text) {
      }
    }
  }

  /** For every well-formed map, keys of any kind and repeated keys included: under each text, the last pair wins. */
  lemma LastEntryWins(r: Reader, w: Wire)
    requires WellFormed(w) && (w.FixMap? || w.Map16?)
    ensures Meaning(r, w).Dict? && forall text: string :: HoldsLast(r, w.items, Meaning(r, w).entries, text)
  {
    forall text: string ensures HoldsLast(r, w.items, Meaning(r, w).entries, text) {
      MapHoldsLast(r, w.items, text);
    }
  }

  /** The bytes at the offset up to `next` are an encoding that means this value. */
  ghost predicate Encodes(r: Reader, offset: nat, value: Value, next: nat) {
    exists w :: Reads(r, offset, w, value, next)
  }

  lemma ParsedIsMeant(r: Reader, offset: nat)
    requires offset <= |r.data|
    ensures Parse(r, offset).Ok? ==> Encodes(r, offset, Parse(r, offset).value, Parse(r, offset).next)
  {
    if Parse(r, offset).Ok? {
      ParseIffEncoded(r, offset, Parse(r, offset).value, Parse(r, offset).next);
    }
  }

  // ---- what an error says ----

  /** Some bytes that were wanted lie beyond the input, or a byte of the input is not a supported tag. */
  predicate Names(r: Reader, offset: nat, e: DecodeError) {
    match e
    case Truncated(at, need) => offset <= at <= |r.data| && need > 0 && at + need > |r.data|
    case UnsupportedTag(tag, at) => offset <= at < |r.data| && r.data[at] == tag && Unsupported(tag)
  }

  /** The tags of the specification outside the subset: nil, bin 32, ext, float, str 32, array 32, map 32. */
  predicate Unsupported(tag: byte) {
    || tag == 0xC0 || tag == 0xC1 || 0xC6 <= tag <= 0xCB || 0xD4 <= tag <= 0xD8 || tag == 0xDB || tag == 0xDD || tag == 0xDF
  }

  lemma UnsupportedIff(tag: byte)
    ensures FormOf(tag).NoForm? <==> Unsupported(tag)
  {
  }

  /** Every error names a place at or behind the offset: where the input ends too early, or the tag that is not supported. */
  lemma {:induction false} ErrorNames(r: Reader, offset: nat)
    requires offset <= |r.data|
    ensures Parse(r, offset).Err? ==> Names(r, offset, Parse(r, offset).error)
    decreases |r.data| - offset, 0
  {
    if offset < |r.data| {
      UnsupportedIff(r.data[offset]);
      var form := FormOf(r.data[offset]);
      if form.Counted? {
        CountedErrorNames(r, offset + 1, form.kind, form.lengthWidth, form.fixed);
      }
    }
  }

  lemma {:induction false} CountedErrorNames(r: Reader, offset: nat, kind: Kind, lengthWidth: nat, fixed: nat)
    requires offset <= |r.data|
    ensures
      var p := ParseCounted(r, offset, kind, lengthWidth, fixed);
      p.Err? ==> Names(r, offset, p.error)
    decreases |r.data| - offset, 2 * fixed + 3
  {
    var length := ReadBe(r, offset, lengthWidth);
    if length.Ok? {
      var count := length.value + fixed;
      if kind == ArrayKind {
        ItemsErrorNames(r, length.next, count);
      } else if kind == MapKind {
        ItemsErrorNames(r, length.next, 2 * count);
      }
    }
  }

  lemma {:induction false} ItemsErrorNames(r: Reader, offset: nat, count: nat)
    requires offset <= |r.data|
    ensures ParseItems(r, offset, count).Err? ==> Names(r, offset, ParseItems(r, offset, count).error)
    decreases |r.data| - offset, count + 1
  {
    if count > 0 {
      ErrorNames(r, offset);
      var first := Parse(r, offset);
      if first.Ok? {
        ItemsErrorNames(r, first.next, count - 1);
      }
    }
  }

  // ---- the reader as it runs ----

  class MsgpackReader {
    const r: Reader

    constructor (r: Reader)
      ensures this.r == r
    {
      this.r := r;
    }

    /** Refuses to read beyond the input, saying where and how much was wanted. */
    method ReadRaw(offset: nat, size: nat) returns (p: Parsed<seq<byte>>)
      ensures p == ReadBytes(r, offset, size)
    {
      if offset + size > |r.data| {
        return Err(Truncated(offset, size));
      }
      return Ok(r.data[offset..offset + size], offset + size);
    }

    method ReadBigEndian(offset: nat, width: nat, signed: bool) returns (p: Parsed<Value>)
      ensures p == ParseNumber(r, offset, width, signed)
    {
      var raw := ReadRaw(offset, width);
      if raw.Err? {
        return Err(raw.error);
      }
      var n := BigEndianValue(raw.value);
      if signed && 2 * n >= Pow256(width) {
        return Ok(Int(n - Pow256(width)), raw.next);
      }
      return Ok(Int(n), raw.next);
    }

    method ParseValue(offset: nat) returns (p: Parsed<Value>)
      requires offset <= |r.data|
      ensures p == Parse(r, offset)
      ensures p.Ok? ==> Encodes(r, offset, p.value, p.next)
      decreases |r.data| - offset, 0
    {
      ParsedIsMeant(r, offset);
      if offset == |r.data| {
        return Err(Truncated(offset, 1));
      }
      var form := FormOf(r.data[offset]);
      if form.Immediate? {
        return Ok(form.value, offset + 1);
      }
      if form.Unsigned? {
        p := ReadBigEndian(offset + 1, form.width, false);
        return;
      }
      if form.Signed? {
        p := ReadBigEndian(offset + 1, form.width, true);
        return;
      }
      if form.NoForm? {
        return Err(UnsupportedTag(r.data[offset], offset));
      }
      var length := ReadBe(r, offset + 1, form.lengthWidth);
      if length.Err? {
        return Err(length.error);
      }
      var count := length.value + form.fixed;
      if form.kind == ArrayKind {
        p := ParseArray(length.next, count);
      } else if form.kind == MapKind {
        p := ParseMap(length.next, count);
      } else {
        p := ParseText(length.next, form.kind, count);
      }
    }

    method ParseText(offset: nat, kind: Kind, size: nat) returns (p: Parsed<Value>)
      requires offset <= |r.data| && (kind == StrKind || kind == BinKind)
      ensures p == ParseBody(r, offset, kind, size)
    {
      var raw := ReadRaw(offset, size);
      if raw.Err? {
        return Err(raw.error);
      }
      return Ok(if kind == BinKind then Binary(raw.value) else Text(r.decode(raw.value)), raw.next);
    }

    method ParseArray(offset: nat, count: nat) returns (p: Parsed<Value>)
      requires offset <= |r.data|
      ensures p == ParseBody(r, offset, ArrayKind, count)
      decreases |r.data| - offset, count + 1
    {
      var values: seq<Value> := [];
      var cursor := offset;
      var index := 0;
      ghost var left := count;
      ghost var whole := ParseItems(r, offset, left);
      PrependNothing(values, whole);
      while index < count
        invariant 0 <= index <= count && offset <= cursor <= |r.data|
        invariant index > 0 ==> offset < cursor
        invariant left == count - index
        invariant whole == Prepend(values, ParseItems(r, cursor, left))
      {
        var next := ParseValue(cursor);
        ItemsAfter(r, cursor, left, values);
        if next.Err? {
          return Err(next.error);
        }
        left := left - 1;
        cursor := next.next;
        values := values + [next.value];
        index := index + 1;
      }
      PrependEnd(values, cursor);
      p := Ok(List(values), cursor);
    }

    /** A key and its value; `left` items remain to be read behind those in `before`. */
    method ParseEntry(offset: nat, ghost left: nat, ghost before: seq<Value>) returns (p: Parsed<(Value, Value)>)
      requires offset <= |r.data| && left >= 2
      ensures p.Err? ==> Prepend(before, ParseItems(r, offset, left)) == Err(p.error)
      ensures p.Ok? ==> offset < p.next <= |r.data|
      ensures p.Ok? ==> Prepend(before, ParseItems(r, offset, left)) ==
                        Prepend(before + [p.value.0] + [p.value.1], ParseItems(r, p.next, left - 2))
      decreases |r.data| - offset, 1
    {
      ItemsAfter(r, offset, left, before);
      var key := ParseValue(offset);
      if key.Err? {
        return Err(key.error);
      }
      ItemsAfter(r, key.next, left - 1, before + [key.value]);
      var value := ParseValue(key.next);
      if value.Err? {
        return Err(value.error);
      }
      p := Ok((key.value, value.value), value.next);
    }

    method ParseMap(offset: nat, count: nat) returns (p: Parsed<Value>)
      requires offset <= |r.data|
      ensures p == ParseBody(r, offset, MapKind, count)
      decreases |r.data| - offset, count + 2
    {
      var values: map<string, Value> := map[];
      ghost var flat: seq<Value> := [];
      var cursor := offset;
      var index := 0;
      ghost var left := 2 * count;
      ghost var whole := ParseItems(r, offset, left);
      PrependNothing(flat, whole);
      while index < count
        invariant 0 <= index <= count && offset <= cursor <= |r.data|
        invariant index > 0 ==> offset < cursor
        invariant left == 2 * (count - index)
        invariant SoFar(r, flat, values, index)
        invariant whole == Prepend(flat, ParseItems(r, cursor, left))
      {
        var entry := ParseEntry(cursor, left, flat);
        left := left - 2;
        if entry.Err? {
          return Err(entry.error);
        }
        var (key, value) := entry.value;
        cursor := entry.next;
        OneMorePair(r, flat, values, index, key, value);
        values := values[KeyText(r, key) := value];
        flat := flat + [key] + [value];
        index := index + 1;
      }
      PrependEnd(flat, cursor);
      p := Ok(Dict(values), cursor);
    }
  }

  /** A result with some values already read in front of it. */
  function Prepend(values: seq<Value>, rest: Parsed<seq<Value>>): Parsed<seq<Value>> {
    match rest case Err(e) => Err(e) case Ok(more, next) => Ok(values + more, next)
  }

  /** After `index` pairs: the keys and values read, and the dictionary they make. */
  predicate SoFar(r: Reader, flat: seq<Value>, values: map<string, Value>, index: nat) {
    |flat| == 2 * index && values == Dictionary(r, flat)
  }

  lemma OneMorePair(r: Reader, flat: seq<Value>, values: map<string, Value>, index: nat, key: Value, value: Value)
    requires SoFar(r, flat, values, index)
    ensures SoFar(r, flat + [key] + [value], values[KeyText(r, key) := value], index + 1)
  {
    DictionaryStep(r, flat, key, value, flat + [key] + [value]);
  }

  lemma DictionaryStep(r: Reader, flat: seq<Value>, key: Value, value: Value, longer: seq<Value>)
    requires longer == flat + [key] + [value]
    ensures Dictionary(r, longer) == Dictionary(r, flat)[KeyText(r, key) := value]
  {
    assert longer[..|longer| - 2] == flat;
  }

  lemma PrependNothing(values: seq<Value>, rest: Parsed<seq<Value>>)
    requires values == []
    ensures Prepend(values, rest) == rest
  {
    if rest.Ok? {
      assert values + rest.value == rest.value;
    }
  }

  lemma PrependEnd(values: seq<Value>, next: nat)
    ensures Prepend(values, Ok([], next)) == Ok(values, next)
  {
    assert values + [] == values;
  }

  /** Reading one of the remaining items moves it to the values already read. */
  lemma ItemsAfter(r: Reader, offset: nat, count: nat, values: seq<Value>)
    requires offset <= |r.data| && count > 0
    ensures var first := Parse(r, offset);
            Prepend(values, ParseItems(r, offset, count)) ==
            if first.Err? then Err(first.error)
            else Prepend(values + [first.value], ParseItems(r, first.next, count - 1))
  {
    var first := Parse(r, offset);
    if first.Ok? {
      var rest := ParseItems(r, first.next, count - 1);
      if rest.Ok? {
        assert values + ([first.value] + rest.value) == values + [first.value] + rest.value;
      }
    }
  }
}
