/** The datagrams of the UDP workloads and the identity that the harness reads back from them. */
module WorkloadPayload {
  import opened Bytes
  import opened Wrappers

  datatype Kind = WgnxTun | BsdSystem

  datatype Identity = Identity(kind: Kind, workload: u32, flow: u32, sequence: u32, seed: u32)

  const PAYLOAD_HEADER_BYTES: nat := 24

  /** The ASCII codes of seven characters. */
  function Marker(kind: Kind): (m: seq<byte>)
    ensures |m| == 7
  {
    match kind
    case WgnxTun => [0x4E, 0x58, 0x52, 0x56, 0x57, 0x47, 0x31]
    case BsdSystem => [0x4E, 0x58, 0x52, 0x56, 0x42, 0x53, 0x31]
  }

  lemma MarkersSpellTheirNames()
    ensures forall i :: 0 <= i < 7 ==> Marker(WgnxTun)[i] == "NXRVWG1"[i] as int && Marker(BsdSystem)[i] == "NXRVBS1"[i] as int
  {
  }

  function Header(id: Identity): (h: seq<byte>)
    ensures |h| == PAYLOAD_HEADER_BYTES
  {
    Marker(id.kind) + [0] + BigEndian(id.workload, 4) + BigEndian(id.flow, 4) + BigEndian(id.sequence, 4) + BigEndian(id.seed, 4)
  }

  /** One step of the 32-bit xorshift generator. */
  function NextState(state: bv32): bv32 {
    var a := state ^ (state << 13);
    var b := a ^ (a >> 17);
    b ^ (b << 5)
  }

  function LowByte(state: bv32): byte {
    state as int % 0x100
  }

  function InitialState(id: Identity): bv32 {
    (id.seed as bv32) ^ (id.sequence as bv32) ^ ((id.flow * 0x9E3779B9 % 0x1_0000_0000) as bv32)
  }

  /** The generator after `n` steps. */
  function StateAfter(state: bv32, n: nat): bv32 {
    if n == 0 then state else NextState(StateAfter(state, n - 1))
  }

  /** The whole datagram: a self-describing header, then generated filler. */
  function Payload(id: Identity, size: nat): (p: seq<byte>)
    requires size >= PAYLOAD_HEADER_BYTES
    ensures |p| == size
  {
    Header(id) + seq(size - PAYLOAD_HEADER_BYTES, i requires 0 <= i => LowByte(StateAfter(InitialState(id), i + 1)))
  }

  method StoreBigEndian32(out: array<byte>, at: nat, value: u32)
    requires at + 4 <= out.Length
    modifies out
    ensures out[at..at + 4] == BigEndian(value, 4)
    ensures forall i :: 0 <= i < out.Length && !(at <= i < at + 4) ==> out[i] == old(out[i])
  {
    out[at] := value / 0x100_0000;
    out[at + 1] := value / 0x1_0000 % 0x100;
    out[at + 2] := value / 0x100 % 0x100;
    out[at + 3] := value % 0x100;
    FourDigits(value);
  }

  lemma FourDigits(value: u32)
    ensures BigEndian(value, 4) == [value / 0x100_0000, value / 0x1_0000 % 0x100, value / 0x100 % 0x100, value % 0x100]
  {
    var b := value / 0x100;
    var c := b / 0x100;
    var d := c / 0x100;
    assert BigEndian(d, 1) == BigEndian(d / 0x100, 0) + [d % 0x100] == [d % 0x100];
    assert BigEndian(c, 2) == [d % 0x100, c % 0x100];
    assert BigEndian(b, 3) == [d % 0x100, c % 0x100, b % 0x100];
  }

  /** The shifts are those of Marsaglia's generator: from his seed it goes on to his first number, and from 1 to 270369. */
  lemma GeneratorIsXorshift32()
    ensures NextState(2463534242) == 723471715
    ensures NextState(1) == 270369 && NextState(270369) == 67634689
    ensures LowByte(723471715) == 0x63
  {
  }

  method FirstState(id: Identity) returns (state: bv32)
    ensures state == InitialState(id)
  {
    state := (id.seed as bv32) ^ (id.sequence as bv32) ^ ((id.flow * 0x9E3779B9 % 0x1_0000_0000) as bv32);
  }

  method WriteHeader(payload: array<byte>, id: Identity)
    requires payload.Length >= PAYLOAD_HEADER_BYTES
    modifies payload
    ensures payload[..PAYLOAD_HEADER_BYTES] == Header(id)
  {
    forall i | 0 <= i < payload.Length {
      payload[i] := 0;
    }
    var marker := Marker(id.kind);
    forall i | 0 <= i < 7 {
      payload[i] := marker[i];
    }
    WriteFields(payload, id);
    var h := payload[..PAYLOAD_HEADER_BYTES];
    assert h[..7] == marker && h[7] == 0;
    assert h[8..12] == payload[8..12] && h[12..16] == payload[12..16];
    assert h[16..20] == payload[16..20] && h[20..24] == payload[20..24];
    HeaderFields(h, id);
  }

  method WriteFields(payload: array<byte>, id: Identity)
    requires payload.Length >= PAYLOAD_HEADER_BYTES
    modifies payload
    ensures forall i :: 0 <= i < 8 ==> payload[i] == old(payload[i])
    ensures payload[8..12] == BigEndian(id.workload, 4) && payload[12..16] == BigEndian(id.flow, 4)
    ensures payload[16..20] == BigEndian(id.sequence, 4) && payload[20..24] == BigEndian(id.seed, 4)
  {
    StoreBigEndian32(payload, 8, id.workload);
    StoreBigEndian32(payload, 12, id.flow);
    assert payload[8..12] == BigEndian(id.workload, 4);
    StoreBigEndian32(payload, 16, id.sequence);
    assert payload[8..12] == BigEndian(id.workload, 4) && payload[12..16] == BigEndian(id.flow, 4);
    StoreBigEndian32(payload, 20, id.seed);
    assert payload[8..12] == BigEndian(id.workload, 4) && payload[12..16] == BigEndian(id.flow, 4);
  }

  /** Fills the buffer in place; the buffer holds at least the header. */
  method BuildPayload(payload: array<byte>, id: Identity)
    requires payload.Length >= PAYLOAD_HEADER_BYTES
    modifies payload
    ensures payload[..] == Payload(id, payload.Length)
  {
    WriteHeader(payload, id);
    ghost var first := InitialState(id);
    var state := FirstState(id);
    var index := PAYLOAD_HEADER_BYTES;
    while index < payload.Length
      invariant PAYLOAD_HEADER_BYTES <= index <= payload.Length
      invariant payload[..PAYLOAD_HEADER_BYTES] == Header(id)
      invariant state == StateAfter(first, index - PAYLOAD_HEADER_BYTES)
      invariant Filled(payload[..index], first)
    {
      state := NextState(state);
      payload[index] := LowByte(state);
      index := index + 1;
      assert payload[..PAYLOAD_HEADER_BYTES] == Header(id);
    }
    assert payload[..index] == payload[..];
    FilledPayload(payload[..], id);
  }

  /** Everything after the header is filler. */
  predicate Filled(p: seq<byte>, first: bv32) {
    forall i :: PAYLOAD_HEADER_BYTES <= i < |p| ==> p[i] == LowByte(StateAfter(first, i - PAYLOAD_HEADER_BYTES + 1))
  }

  lemma FilledPayload(p: seq<byte>, id: Identity)
    requires |p| >= PAYLOAD_HEADER_BYTES && p[..PAYLOAD_HEADER_BYTES] == Header(id) && Filled(p, InitialState(id))
    ensures p == Payload(id, |p|)
  {
    assert p == p[..PAYLOAD_HEADER_BYTES] + p[PAYLOAD_HEADER_BYTES..];
  }

  lemma HeaderFields(h: seq<byte>, id: Identity)
    requires |h| == PAYLOAD_HEADER_BYTES
    requires h[..7] == Marker(id.kind) && h[7] == 0
    requires h[8..12] == BigEndian(id.workload, 4) && h[12..16] == BigEndian(id.flow, 4)
    requires h[16..20] == BigEndian(id.sequence, 4) && h[20..24] == BigEndian(id.seed, 4)
    ensures h == Header(id)
  {
    assert h == h[..7] + [h[7]] + h[8..12] + h[12..16] + h[16..20] + h[20..24];
  }

  // ---- reading the identity back ----

  /** Either an identity, or the news whether the datagram claimed to be a workload datagram. */
  datatype Parsed = Identified(id: Identity) | Unexpected | Malformed

  function KindOf(prefix: seq<byte>): Option<Kind> {
    if prefix == Marker(WgnxTun) then Some(WgnxTun) else if prefix == Marker(BsdSystem) then Some(BsdSystem) else None
  }

  function Field(data: seq<byte>, at: nat): u32
    requires at + 4 <= |data|
  {
    FieldBound(data[at..at + 4]);
    BigEndianValue(data[at..at + 4])
  }

  lemma FieldBound(bytes: seq<byte>)
    requires |bytes| == 4
    ensures BigEndianValue(bytes) < 0x1_0000_0000
  {
    BigEndianValueBound(bytes);
    Pow256Values();
  }

  function ParseWorkloadIdentity(data: seq<byte>): Parsed {
    match KindOf(if |data| < 7 then data else data[..7])
    case None => Unexpected
    case Some(kind) =>
      if |data| < PAYLOAD_HEADER_BYTES || data[7] != 0 then Malformed
      else Identified(Identity(kind, Field(data, 8), Field(data, 12), Field(data, 16), Field(data, 20)))
  }

  lemma FieldRoundTrip(data: seq<byte>, at: nat, value: u32)
    requires at + 4 <= |data| && data[at..at + 4] == BigEndian(value, 4)
    ensures Field(data, at) == value
  {
    Pow256Values();
    BigEndianRoundTrip(value, 4);
  }

  lemma HeaderSlices(id: Identity, data: seq<byte>)
    requires |data| >= PAYLOAD_HEADER_BYTES && data[..PAYLOAD_HEADER_BYTES] == Header(id)
    ensures data[..7] == Marker(id.kind) && data[7] == 0
    ensures data[8..12] == BigEndian(id.workload, 4) && data[12..16] == BigEndian(id.flow, 4)
    ensures data[16..20] == BigEndian(id.sequence, 4) && data[20..24] == BigEndian(id.seed, 4)
  {
    var h := data[..PAYLOAD_HEADER_BYTES];
    assert data[..7] == h[..7] && data[7] == h[7] && data[8..12] == h[8..12];
    assert data[12..16] == h[12..16] && data[16..20] == h[16..20] && data[20..24] == h[20..24];
  }

  lemma MarkersDiffer(kind: Kind)
    ensures KindOf(Marker(kind)) == Some(kind)
  {
    assert Marker(WgnxTun)[4] != Marker(BsdSystem)[4];
  }

  /** The harness reads back exactly what either workload wrote. */
  lemma IdentityRoundTrip(id: Identity, size: nat)
    requires size >= PAYLOAD_HEADER_BYTES
    ensures ParseWorkloadIdentity(Payload(id, size)) == Identified(id)
  {
    var data := Payload(id, size);
    assert data[..PAYLOAD_HEADER_BYTES] == Header(id);
    HeaderSlices(id, data);
    MarkersDiffer(id.kind);
    FieldRoundTrip(data, 8, id.workload);
    FieldRoundTrip(data, 12, id.flow);
    FieldRoundTrip(data, 16, id.sequence);
    FieldRoundTrip(data, 20, id.seed);
  }

  /** Datagrams of different identities differ, whatever their sizes and fillers. */
  lemma PayloadsAreDistinct(a: Identity, m: nat, b: Identity, n: nat)
    requires m >= PAYLOAD_HEADER_BYTES && n >= PAYLOAD_HEADER_BYTES && Payload(a, m) == Payload(b, n)
    ensures a == b && m == n
  {
    IdentityRoundTrip(a, m);
    IdentityRoundTrip(b, n);
  }

  /** A datagram is identified exactly when it starts with the header of that identity. */
  lemma IdentifiedIffHeader(data: seq<byte>, id: Identity)
    ensures ParseWorkloadIdentity(data) == Identified(id) <==>
            |data| >= PAYLOAD_HEADER_BYTES && data[..PAYLOAD_HEADER_BYTES] == Header(id)
  {
    if |data| >= PAYLOAD_HEADER_BYTES && data[..PAYLOAD_HEADER_BYTES] == Header(id) {
      HeaderSlices(id, data);
      MarkersDiffer(id.kind);
      FieldRoundTrip(data, 8, id.workload);
      FieldRoundTrip(data, 12, id.flow);
      FieldRoundTrip(data, 16, id.sequence);
      FieldRoundTrip(data, 20, id.seed);
    }
    if ParseWorkloadIdentity(data) == Identified(id) {
      var h := data[..PAYLOAD_HEADER_BYTES];
      assert h[..7] == data[..7];
      FieldOfHeader(data, h, 8);
      FieldOfHeader(data, h, 12);
      FieldOfHeader(data, h, 16);
      FieldOfHeader(data, h, 20);
      HeaderFields(h, id);
    }
  }

  /** The datagram starts with one of the two markers. */
  predicate StartsWithMarker(data: seq<byte>) {
    exists kind :: Marker(kind) <= data
  }

  /** A datagram counts as malformed when it claims to be ours and its header is cut or not terminated. */
  lemma MalformedIff(data: seq<byte>)
    ensures ParseWorkloadIdentity(data) == Malformed <==>
      StartsWithMarker(data) && (|data| < PAYLOAD_HEADER_BYTES || data[7] != 0)
  {
    UnexpectedIff(data);
  }

  /** Everything that starts with neither marker is unexpected, and nothing else. */
  lemma UnexpectedIff(data: seq<byte>)
    ensures ParseWorkloadIdentity(data) == Unexpected <==> !StartsWithMarker(data)
  {
    var prefix := if |data| < 7 then data else data[..7];
    forall kind ensures Marker(kind) <= data <==> prefix == Marker(kind) {
    }
    match KindOf(prefix)
    case Some(kind) => assert Marker(kind) <= data;
    case None => assert prefix != Marker(WgnxTun) && prefix != Marker(BsdSystem);
  }

  lemma FieldOfHeader(data: seq<byte>, h: seq<byte>, at: nat)
    requires |data| >= PAYLOAD_HEADER_BYTES && h == data[..PAYLOAD_HEADER_BYTES] && at + 4 <= PAYLOAD_HEADER_BYTES
    ensures h[at..at + 4] == BigEndian(Field(data, at), 4)
  {
    assert h[at..at + 4] == data[at..at + 4];
    BigEndianOfValue(data[at..at + 4]);
  }
}
