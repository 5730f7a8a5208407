/** Little-endian fixed-width records, as Python's `struct` packs and unpacks them. */
module Struct {
  import opened Prelude

  type byte = b: int | 0 <= b < 256

  datatype Field = U8 | U16 | U32 | I16 | I32 {
    function Width(): nat {
      match this
      case U8 => 1
      case U16 | I16 => 2
      case U32 | I32 => 4
    }

    function Modulus(): nat {
      match this
      case U8 => 0x100
      case U16 | I16 => 0x1_0000
      case U32 | I32 => 0x1_0000_0000
    }

    predicate Signed() {
      I16? || I32?
    }

    predicate Fits(v: int) {
      if Signed() then -(Modulus() / 2) <= v < Modulus() / 2 else 0 <= v < Modulus()
    }
  }

  function Size(fmt: seq<Field>): nat {
    if fmt == [] then 0 else fmt[0].Width() + Size(fmt[1..])
  }

  function ToBytes(v: nat, n: nat): (r: seq<byte>)
    ensures |r| == n
  {
    if n == 0 then [] else [v % 256] + ToBytes(v / 256, n - 1)
  }

  function FromBytes(b: seq<byte>): nat {
    if b == [] then 0 else b[0] + 256 * FromBytes(b[1..])
  }

  function PackField(f: Field, v: int): (r: seq<byte>)
    requires f.Fits(v)
    ensures |r| == f.Width()
  {
    ToBytes(if v < 0 then v + f.Modulus() else v, f.Width())
  }

  function UnpackField(f: Field, b: seq<byte>): int
    requires |b| == f.Width()
  {
    var raw := FromBytes(b);
    if f.Signed() && raw >= f.Modulus() / 2 then raw - f.Modulus() else raw
  }

  predicate AllFit(fmt: seq<Field>, vals: seq<int>)
    requires |fmt| == |vals|
  {
    forall i :: 0 <= i < |fmt| ==> fmt[i].Fits(vals[i])
  }

  /** `None` is `struct.error`: some value does not fit its field. */
  function Pack(fmt: seq<Field>, vals: seq<int>): (r: Option<seq<byte>>)
    requires |fmt| == |vals|
    ensures r.Some? <==> AllFit(fmt, vals)
    ensures r.Some? ==> |r.value| == Size(fmt)
  {
    if fmt == [] then Some([])
    else if !fmt[0].Fits(vals[0]) then None
    else
      match Pack(fmt[1..], vals[1..])
      case None => assert exists i :: 0 <= i < |fmt[1..]| && !fmt[1..][i].Fits(vals[1..][i]); None
      case Some(rest) => Some(PackField(fmt[0], vals[0]) + rest)
  }

  function Unpack(fmt: seq<Field>, data: seq<byte>): (r: seq<int>)
    requires |data| == Size(fmt)
    ensures |r| == |fmt|
  {
    if fmt == [] then []
    else
      var w := fmt[0].Width();
      [UnpackField(fmt[0], data[..w])] + Unpack(fmt[1..], data[w..])
  }

  lemma {:induction false} FromToBytes(v: nat, n: nat)
    requires n <= 4
    requires v < [1, 0x100, 0x1_0000, 0x100_0000, 0x1_0000_0000][n]
    ensures FromBytes(ToBytes(v, n)) == v
  {
    if n > 0 {
      FromToBytes(v / 256, n - 1);
      assert ToBytes(v, n)[1..] == ToBytes(v / 256, n - 1);
    }
  }

  lemma {:induction false} ToFromBytes(b: seq<byte>)
    requires |b| <= 4
    ensures FromBytes(b) < [1, 0x100, 0x1_0000, 0x100_0000, 0x1_0000_0000][|b|]
    ensures ToBytes(FromBytes(b), |b|) == b
  {
    if b != [] {
      ToFromBytes(b[1..]);
      assert FromBytes(b) % 256 == b[0] && FromBytes(b) / 256 == FromBytes(b[1..]);
    }
  }

  lemma FieldRoundTrip(f: Field, v: int)
    requires f.Fits(v)
    ensures UnpackField(f, PackField(f, v)) == v
  {
    FromToBytes(if v < 0 then v + f.Modulus() else v, f.Width());
  }

  lemma FieldRoundTripBack(f: Field, b: seq<byte>)
    requires |b| == f.Width()
    ensures f.Fits(UnpackField(f, b))
    ensures PackField(f, UnpackField(f, b)) == b
  {
    ToFromBytes(b);
  }

  /** Unpacking what was packed gives the values back. */
  lemma {:induction false} UnpackPack(fmt: seq<Field>, vals: seq<int>)
    requires |fmt| == |vals| && AllFit(fmt, vals)
    ensures Unpack(fmt, Pack(fmt, vals).value) == vals
  {
    if fmt != [] {
      var rest := Pack(fmt[1..], vals[1..]).value;
      var all := Pack(fmt, vals).value;
      assert all == PackField(fmt[0], vals[0]) + rest;
      assert all[..fmt[0].Width()] == PackField(fmt[0], vals[0]);
      assert all[fmt[0].Width()..] == rest;
      FieldRoundTrip(fmt[0], vals[0]);
      UnpackPack(fmt[1..], vals[1..]);
    }
  }

  /** Every byte string of the right size is the packing of what it unpacks to. */
  lemma {:induction false} PackUnpack(fmt: seq<Field>, data: seq<byte>)
    requires |data| == Size(fmt)
    ensures AllFit(fmt, Unpack(fmt, data))
    ensures Pack(fmt, Unpack(fmt, data)) == Some(data)
  {
    if fmt != [] {
      var w := fmt[0].Width();
      var vals := Unpack(fmt, data);
      FieldRoundTripBack(fmt[0], data[..w]);
      PackUnpack(fmt[1..], data[w..]);
      assert vals[1..] == Unpack(fmt[1..], data[w..]);
      assert vals[0] == UnpackField(fmt[0], data[..w]);
      forall i | 0 <= i < |fmt|
        ensures fmt[i].Fits(vals[i])
      {
        if i > 0 {
          assert fmt[1..][i - 1].Fits(vals[1..][i - 1]);
        }
      }
      Rejoined(data, w);
    }
  }

  lemma Rejoined(data: seq<byte>, w: nat)
    requires w <= |data|
    ensures data == data[..w] + data[w..]
  {}
}

/** The decoded form of a telemetry packet. */
module Packets {

  const STATUS_OK := 0

  datatype RangeRecord = RangeRecord(anchorId: int, status: int, elapsedMs: int, distanceMm: int, kf: int) {
    predicate Ok() {
      status == STATUS_OK
    }
  }

  datatype CycleRecord = CycleRecord(
    seqNo: int, tTagMs: int, fixFlags: int, usedCount: int,
    xMm: int, yMm: int, zMm: int, residualMm: int,
    kfXMm: int, kfYMm: int, kfZMm: int, kfSigmaMm: int, kfUsed: int, kfRejected: int,
    ranges: seq<RangeRecord>)
  {
    predicate FixOk() { fixFlags % 2 == 1 }
    predicate Fix3d() { fixFlags / 2 % 2 == 1 }
    predicate KfOk() { fixFlags / 4 % 2 == 1 }
    predicate KfUpdated() { fixFlags / 8 % 2 == 1 }
    predicate KfInit() { fixFlags / 16 % 2 == 1 }
  }

  datatype TelemetryPacket = TelemetryPacket(
    flags: int, tagId: int, bootId: int, seqNo: int, tTagMs: int, anchorN: int, cycles: seq<CycleRecord>)
  {
    predicate Last() { flags % 2 == 1 }

    /** Rows the packet stands for: one fix and `anchorN` ranges per cycle. */
    function RowCount(): int {
      |cycles| * (1 + anchorN)
    }
  }

  /** `(tag_id, boot_id)`, one start of one tag. */
  type Key = (int, int)

  function KeyOf(p: TelemetryPacket): Key {
    (p.tagId, p.bootId)
  }
}

/** The packet codec of ingest/packet.py. */
module Codec {
  import opened Prelude
  import opened Struct
  import opened Packets

  const MAGIC: int := 0x54425755
  const VERSION: int := 3
  const HEADER: seq<Field> := [U32, U8, U8, U16, U32, U32, U32, U8, U8, U16]
  const CYCLE_FIX: seq<Field> := [U16, U8, U8, I32, I32, I16, U16]
  const CYCLE_KF: seq<Field> := [I32, I32, I16, U16, U8, U8]
  const CYCLE: seq<Field> := CYCLE_FIX + CYCLE_KF
  const RANGE: seq<Field> := [U16, U8, U8, I32, U8]
  const HEADER_SIZE: nat := 24
  const CYCLE_SIZE: nat := 30
  const RANGE_SIZE: nat := 9
  const COUNT_MIN := 1
  const COUNT_MAX := 16
  const TAG_ID_MIN := 0x0001
  const TAG_ID_MAX := 0x00FF
  const ANCHOR_ID_MIN := 0x0100
  const ANCHOR_ID_MAX := 0xFFFE
  const FLAGS_KNOWN := 0x01
  const FIX_FLAGS_KNOWN := 0x1F
  const RANGE_KF_MAX := 2

  datatype DropReason =
    | TooShort | BadMagic | BadVersion | BadReserved | BadTagId | BadCount | BadAnchorN | LengthMismatch | BadAnchorId

  datatype EncodeError = CycleCount | SeqNotConsecutive | RangeCountMismatch | TimeTooFar | FieldOverflow

  function Prepend(f: Field, rest: seq<Field>): (r: seq<Field>)
    ensures Size(r) == f.Width() + Size(rest)
  {
    assert ([f] + rest)[1..] == rest;
    [f] + rest
  }

  lemma {:induction false} SizeConcat(a: seq<Field>, b: seq<Field>)
    ensures Size(a + b) == Size(a) + Size(b)
  {
    if a == [] {
      assert a + b == b;
    } else {
      SizeConcat(a[1..], b);
      assert (a + b)[1..] == a[1..] + b;
    }
  }

  lemma HeaderSize()
    ensures Size(HEADER) == HEADER_SIZE
  {
    var tail := Prepend(U32, Prepend(U32, Prepend(U8, Prepend(U8, Prepend(U16, [])))));
    var head := Prepend(U32, Prepend(U8, Prepend(U8, Prepend(U16, Prepend(U32, tail)))));
    assert head == HEADER;
  }

  lemma CycleSize()
    ensures Size(CYCLE) == CYCLE_SIZE
  {
    assert Prepend(I32, Prepend(I32, Prepend(I16, Prepend(U16, Prepend(U8, Prepend(U8, [])))))) == CYCLE_KF;
    assert Prepend(U16, Prepend(U8, Prepend(U8, Prepend(I32, Prepend(I32, Prepend(I16, Prepend(U16, []))))))) == CYCLE_FIX;
    SizeConcat(CYCLE_FIX, CYCLE_KF);
  }

  lemma RangeSize()
    ensures Size(RANGE) == RANGE_SIZE
  {
    assert Prepend(U16, Prepend(U8, Prepend(U8, Prepend(I32, Prepend(U8, []))))) == RANGE;
  }

  // ---------------------------------------------------------------- measuring records

  function RangeValues(r: RangeRecord): seq<int> {
    [r.anchorId, r.status, r.elapsedMs, r.distanceMm, r.kf]
  }

  function RangeOf(v: seq<int>): RangeRecord
    requires |v| == 5
  {
    RangeRecord(v[0], v[1], v[2], v[3], v[4])
  }

  /** What the decoder accepts in one range record. */
  predicate LegalRange(r: RangeRecord) {
    && AllFit(RANGE, RangeValues(r))
    && ANCHOR_ID_MIN <= r.anchorId <= ANCHOR_ID_MAX
    && r.kf <= RANGE_KF_MAX
  }

  function EncodeRange(r: RangeRecord): (b: Option<seq<byte>>)
    ensures b.Some? ==> |b.value| == RANGE_SIZE
  {
    RangeSize();
    Pack(RANGE, RangeValues(r))
  }

  function DecodeRange(data: seq<byte>): Result<RangeRecord, DropReason>
    requires |data| == RANGE_SIZE
  {
    RangeSize();
    var r := RangeOf(Unpack(RANGE, data));
    if !(ANCHOR_ID_MIN <= r.anchorId <= ANCHOR_ID_MAX) then Failure(BadAnchorId)
    else if r.kf > RANGE_KF_MAX then Failure(BadReserved)
    else Success(r)
  }

  lemma RangeRoundTrip(r: RangeRecord)
    requires LegalRange(r)
    ensures EncodeRange(r).Some? && DecodeRange(EncodeRange(r).value) == Success(r)
  {
    RangeSize();
    UnpackPack(RANGE, RangeValues(r));
  }

  lemma RangeRoundTripBack(data: seq<byte>)
    requires |data| == RANGE_SIZE && DecodeRange(data).Success?
    ensures LegalRange(DecodeRange(data).value)
    ensures EncodeRange(DecodeRange(data).value) == Some(data)
  {
    RangeSize();
    PackUnpack(RANGE, data);
    assert RangeValues(RangeOf(Unpack(RANGE, data))) == Unpack(RANGE, data);
  }

  function EncodeRanges(rs: seq<RangeRecord>): (b: Option<seq<byte>>)
    ensures b.Some? ==> |b.value| == RANGE_SIZE * |rs|
  {
    if rs == [] then Some([])
    else
      match EncodeRanges(rs[..|rs| - 1])
      case None => None
      case Some(front) =>
        match EncodeRange(rs[|rs| - 1])
        case None => None
        case Some(b) => Some(front + b)
  }

  /** The first `n` range records found from `offset` on, or why the first bad one is refused. */
  function DecodeRanges(data: seq<byte>, offset: nat, n: nat): (r: Result<seq<RangeRecord>, DropReason>)
    requires offset + RANGE_SIZE * n <= |data|
    ensures r.Success? ==> |r.value| == n
  {
    if n == 0 then Success([])
    else
      match DecodeRanges(data, offset, n - 1)
      case Failure(e) => Failure(e)
      case Success(front) =>
        var at := offset + RANGE_SIZE * (n - 1);
        match DecodeRange(data[at..at + RANGE_SIZE])
        case Failure(e) => Failure(e)
        case Success(r) => Success(front + [r])
  }

  lemma EncodeRangesSnoc(front: seq<RangeRecord>, last: RangeRecord, f: seq<byte>, b: seq<byte>)
    requires EncodeRanges(front) == Some(f) && EncodeRange(last) == Some(b)
    ensures EncodeRanges(front + [last]) == Some(f + b)
  {
    var rs := front + [last];
    assert rs[..|rs| - 1] == front && rs[|rs| - 1] == last;
  }

  predicate LegalRanges(rs: seq<RangeRecord>) {
    forall r :: r in rs ==> LegalRange(r)
  }

  lemma {:induction false} RangesEncodable(rs: seq<RangeRecord>)
    requires LegalRanges(rs)
    ensures EncodeRanges(rs).Some?
  {
    if rs != [] {
      RangeRoundTrip(rs[|rs| - 1]);
      RangesEncodable(rs[..|rs| - 1]);
    }
  }

  lemma {:induction false} RangesRoundTrip(rs: seq<RangeRecord>, data: seq<byte>, offset: nat)
    requires LegalRanges(rs)
    requires offset + RANGE_SIZE * |rs| <= |data|
    requires EncodeRanges(rs) == Some(data[offset..offset + RANGE_SIZE * |rs|])
    ensures DecodeRanges(data, offset, |rs|) == Success(rs)
  {
    hide EncodeRange, DecodeRange, LegalRange;
    if rs != [] {
      var front, last := rs[..|rs| - 1], rs[|rs| - 1];
      var at := offset + RANGE_SIZE * |front|;
      RangesEncodable(front);
      RangeRoundTrip(last);
      var f, b := EncodeRanges(front).value, EncodeRange(last).value;
      EncodeRangesSnoc(front, last, f, b);
      assert rs == front + [last];
      SplitSlice(data, offset, at, at + RANGE_SIZE, f, b);
      RangesRoundTrip(front, data, offset);
    }
  }

  lemma SplitSlice(data: seq<byte>, lo: nat, mid: nat, hi: nat, f: seq<byte>, b: seq<byte>)
    requires lo <= mid <= hi <= |data| && |f| == mid - lo
    requires data[lo..hi] == f + b
    ensures data[lo..mid] == f && data[mid..hi] == b
  {
    assert data[lo..mid] == data[lo..hi][..mid - lo] == (f + b)[..|f|];
    assert data[mid..hi] == data[lo..hi][mid - lo..] == (f + b)[|f|..];
  }

  lemma {:induction false} RangesRoundTripBack(data: seq<byte>, offset: nat, n: nat)
    requires offset + RANGE_SIZE * n <= |data|
    requires DecodeRanges(data, offset, n).Success?
    ensures LegalRanges(DecodeRanges(data, offset, n).value)
    ensures EncodeRanges(DecodeRanges(data, offset, n).value) == Some(data[offset..offset + RANGE_SIZE * n])
  {
    hide EncodeRange, DecodeRange, LegalRange;
    if n == 0 {
      assert data[offset..offset] == [];
    } else {
      RangesRoundTripBack(data, offset, n - 1);
      var at := offset + RANGE_SIZE * (n - 1);
      var front := DecodeRanges(data, offset, n - 1).value;
      var bytes := data[at..at + RANGE_SIZE];
      RangeRoundTripBack(bytes);
      var last := DecodeRange(bytes).value;
      assert DecodeRanges(data, offset, n).value == front + [last];
      EncodeRangesSnoc(front, last, data[offset..at], bytes);
      assert data[offset..offset + RANGE_SIZE * n] == data[offset..at] + bytes;
      assert LegalRanges(front + [last]);
    }
  }

  lemma {:induction false} RangesFailureSticks(data: seq<byte>, offset: nat, k: nat, n: nat)
    requires k <= n && offset + RANGE_SIZE * n <= |data|
    requires DecodeRanges(data, offset, k).Failure?
    ensures DecodeRanges(data, offset, n) == Failure(DecodeRanges(data, offset, k).error)
    decreases n
  {
    if k < n {
      RangesFailureSticks(data, offset, k, n - 1);
    }
  }

  // ---------------------------------------------------------------- cycle records

  function CycleValues(c: CycleRecord, dtMs: int): seq<int> {
    [dtMs, c.fixFlags, c.usedCount, c.xMm, c.yMm, c.zMm, c.residualMm,
     c.kfXMm, c.kfYMm, c.kfZMm, c.kfSigmaMm, c.kfUsed, c.kfRejected]
  }

  function CycleOf(v: seq<int>, seqNo: int, tTagMs: int, ranges: seq<RangeRecord>): CycleRecord
    requires |v| == 13
  {
    CycleRecord(seqNo, tTagMs, v[1], v[2], v[3], v[4], v[5], v[6], v[7], v[8], v[9], v[10], v[11], v[12], ranges)
  }

  /** Milliseconds from the packet's time to the cycle's, modulo 2^32. */
  function DtOf(c: CycleRecord, tTagMs: int): int {
    Mask(c.tTagMs - tTagMs)
  }

  /** A cycle the decoder can produce at position `index` of a packet starting at (`seqNo`, `tTagMs`). */
  predicate LegalCycle(c: CycleRecord, seqNo: int, tTagMs: int, anchorN: int, index: nat) {
    && c.seqNo == Mask(seqNo + index)
    && IsU32(c.tTagMs) && DtOf(c, tTagMs) <= 0xFFFF
    && AllFit(CYCLE, CycleValues(c, DtOf(c, tTagMs)))
    && c.fixFlags <= FIX_FLAGS_KNOWN
    && |c.ranges| == anchorN && LegalRanges(c.ranges)
  }

  function BlockSize(anchorN: nat): nat {
    CYCLE_SIZE + RANGE_SIZE * anchorN
  }

  function EncodeCycle(c: CycleRecord, seqNo: int, tTagMs: int, anchorN: int, index: nat)
    : (b: Result<seq<byte>, EncodeError>)
    ensures b.Success? ==> anchorN >= 0 && |b.value| == BlockSize(anchorN)
  {
    if c.seqNo != Mask(seqNo + index) then Failure(SeqNotConsecutive)
    else if |c.ranges| != anchorN then Failure(RangeCountMismatch)
    else if DtOf(c, tTagMs) > 0xFFFF then Failure(TimeTooFar)
    else
      CycleSize();
      match Pack(CYCLE, CycleValues(c, DtOf(c, tTagMs)))
      case None => Failure(FieldOverflow)
      case Some(head) =>
        match EncodeRanges(c.ranges)
        case None => Failure(FieldOverflow)
        case Some(tail) => Success(head + tail)
  }

  /** The cycle record at `offset`, the `index`-th of its packet. */
  function DecodeCycle(data: seq<byte>, offset: nat, seqNo: int, tTagMs: int, anchorN: nat, index: nat)
    : (r: Result<CycleRecord, DropReason>)
    requires offset + BlockSize(anchorN) <= |data|
  {
    CycleSize();
    var v := Unpack(CYCLE, data[offset..offset + CYCLE_SIZE]);
    if v[1] > FIX_FLAGS_KNOWN then Failure(BadReserved)
    else
      match DecodeRanges(data, offset + CYCLE_SIZE, anchorN)
      case Failure(e) => Failure(e)
      case Success(ranges) => Success(CycleOf(v, Mask(seqNo + index), Mask(tTagMs + v[0]), ranges))
  }

  lemma MaskedStep(t: int, dt: int)
    requires IsU32(t) && 0 <= dt <= 0xFFFF
    ensures Mask(Mask(t + dt) - t) == dt
  {}

  lemma MaskedBack(t: int, u: int)
    requires IsU32(t) && IsU32(u)
    ensures Mask(t + Mask(u - t)) == u
  {}

  lemma CycleEncodable(c: CycleRecord, seqNo: int, tTagMs: int, anchorN: nat, index: nat)
    requires LegalCycle(c, seqNo, tTagMs, anchorN, index)
    ensures EncodeCycle(c, seqNo, tTagMs, anchorN, index).Success?
  {
    RangesEncodable(c.ranges);
  }

  lemma CycleRoundTrip(c: CycleRecord, data: seq<byte>, offset: nat, seqNo: int, tTagMs: int, anchorN: nat, index: nat)
    requires LegalCycle(c, seqNo, tTagMs, anchorN, index) && IsU32(tTagMs)
    requires offset + BlockSize(anchorN) <= |data|
    requires EncodeCycle(c, seqNo, tTagMs, anchorN, index) == Success(data[offset..offset + BlockSize(anchorN)])
    ensures DecodeCycle(data, offset, seqNo, tTagMs, anchorN, index) == Success(c)
  {
    hide Pack, Unpack, AllFit, Size, EncodeRanges, DecodeRanges;
    CycleSize();
    RangesEncodable(c.ranges);
    var v := CycleValues(c, DtOf(c, tTagMs));
    var head, tail := Pack(CYCLE, v).value, EncodeRanges(c.ranges).value;
    SplitSlice(data, offset, offset + CYCLE_SIZE, offset + BlockSize(anchorN), head, tail);
    UnpackPack(CYCLE, v);
    RangesRoundTrip(c.ranges, data, offset + CYCLE_SIZE);
    MaskedBack(tTagMs, c.tTagMs);
  }

  lemma UnpackedCycle(bytes: seq<byte>)
    requires |bytes| == CYCLE_SIZE
    ensures Size(CYCLE) == CYCLE_SIZE
    ensures var v := Unpack(CYCLE, bytes); AllFit(CYCLE, v) && Pack(CYCLE, v) == Some(bytes) && 0 <= v[0] <= 0xFFFF
  {
    CycleSize();
    PackUnpack(CYCLE, bytes);
    assert CYCLE[0] == U16 && CYCLE[0].Fits(Unpack(CYCLE, bytes)[0]);
  }

  lemma CycleValuesBack(v: seq<int>, seqNo: int, tTagMs: int, ranges: seq<RangeRecord>)
    requires |v| == 13 && IsU32(tTagMs) && 0 <= v[0] <= 0xFFFF
    ensures var c := CycleOf(v, seqNo, Mask(tTagMs + v[0]), ranges);
      DtOf(c, tTagMs) == v[0] && CycleValues(c, v[0]) == v
  {
    MaskedStep(tTagMs, v[0]);
  }

  lemma CycleRoundTripBack(data: seq<byte>, offset: nat, seqNo: int, tTagMs: int, anchorN: nat, index: nat)
    requires IsU32(tTagMs) && offset + BlockSize(anchorN) <= |data|
    requires DecodeCycle(data, offset, seqNo, tTagMs, anchorN, index).Success?
    ensures var c := DecodeCycle(data, offset, seqNo, tTagMs, anchorN, index).value;
      && LegalCycle(c, seqNo, tTagMs, anchorN, index)
      && EncodeCycle(c, seqNo, tTagMs, anchorN, index) == Success(data[offset..offset + BlockSize(anchorN)])
  {
    hide Pack, Unpack, AllFit, Size, EncodeRanges, DecodeRanges;
    var mid := offset + CYCLE_SIZE;
    var bytes := data[offset..mid];
    UnpackedCycle(bytes);
    var v := Unpack(CYCLE, bytes);
    var ranges := DecodeRanges(data, mid, anchorN).value;
    RangesRoundTripBack(data, mid, anchorN);
    CycleValuesBack(v, Mask(seqNo + index), tTagMs, ranges);
    var c := CycleOf(v, Mask(seqNo + index), Mask(tTagMs + v[0]), ranges);
    assert DecodeCycle(data, offset, seqNo, tTagMs, anchorN, index) == Success(c);
    assert data[offset..offset + BlockSize(anchorN)] == bytes + data[mid..mid + RANGE_SIZE * anchorN];
  }

  // ---------------------------------------------------------------- packets

  /** The bytes a packet of `count` cycles of `anchorN` ranges must have; also where cycle `count` starts. */
  function PacketSize(count: nat, anchorN: nat): nat {
    if count == 0 then HEADER_SIZE else PacketSize(count - 1, anchorN) + BlockSize(anchorN)
  }

  lemma PacketSizeStep(count: nat, anchorN: nat)
    ensures PacketSize(count + 1, anchorN) == PacketSize(count, anchorN) + BlockSize(anchorN)
    ensures PacketSize(count, anchorN) >= HEADER_SIZE
  {
    PacketSizeClosed(count, anchorN);
    assert count * (CYCLE_SIZE + RANGE_SIZE * anchorN) >= 0;
  }

  lemma {:induction false} PacketSizeClosed(count: nat, anchorN: nat)
    ensures PacketSize(count, anchorN) == HEADER_SIZE + count * (CYCLE_SIZE + RANGE_SIZE * anchorN)
  {
    if count > 0 {
      PacketSizeClosed(count - 1, anchorN);
    }
  }

  function HeaderValues(p: TelemetryPacket): seq<int> {
    [MAGIC, VERSION, p.flags, p.tagId, p.bootId, p.seqNo, p.tTagMs, |p.cycles|, p.anchorN, 0]
  }

  /** A packet the decoder can produce. */
  predicate Legal(p: TelemetryPacket) {
    && COUNT_MIN <= |p.cycles| <= COUNT_MAX
    && AllFit(HEADER, HeaderValues(p))
    && p.flags <= FLAGS_KNOWN
    && TAG_ID_MIN <= p.tagId <= TAG_ID_MAX
    && 1 <= p.anchorN
    && LegalCycles(p.cycles, p.seqNo, p.tTagMs, p.anchorN)
  }

  predicate LegalCycles(cs: seq<CycleRecord>, seqNo: int, tTagMs: int, anchorN: int) {
    forall i :: 0 <= i < |cs| ==> LegalCycle(cs[i], seqNo, tTagMs, anchorN, i)
  }

  function EncodeCycles(cs: seq<CycleRecord>, seqNo: int, tTagMs: int, anchorN: int): (b: Result<seq<byte>, EncodeError>)
    ensures b.Success? && cs != [] ==> anchorN >= 0
    ensures b.Success? && anchorN >= 0 ==> HEADER_SIZE + |b.value| == PacketSize(|cs|, anchorN)
  {
    if cs == [] then Success([])
    else
      match EncodeCycles(cs[..|cs| - 1], seqNo, tTagMs, anchorN)
      case Failure(e) => Failure(e)
      case Success(front) =>
        match EncodeCycle(cs[|cs| - 1], seqNo, tTagMs, anchorN, |cs| - 1)
        case Failure(e) => Failure(e)
        case Success(b) => Success(front + b)
  }

  /** The specification of `EncodePacket`: the wire form of a packet, or why it has none. */
  function Encode(p: TelemetryPacket): Result<seq<byte>, EncodeError> {
    if !(COUNT_MIN <= |p.cycles| <= COUNT_MAX) then Failure(CycleCount)
    else
      match Pack(HEADER, HeaderValues(p))
      case None => Failure(FieldOverflow)
      case Some(head) =>
        match EncodeCycles(p.cycles, p.seqNo, p.tTagMs, p.anchorN)
        case Failure(e) => Failure(e)
        case Success(body) => Success(head + body)
  }

  /** The first `n` cycles of a packet, or why the first bad one is refused. */
  function DecodeCycles(data: seq<byte>, seqNo: int, tTagMs: int, anchorN: nat, n: nat)
    : (r: Result<seq<CycleRecord>, DropReason>)
    requires PacketSize(n, anchorN) <= |data|
    ensures r.Success? ==> |r.value| == n
  {
    if n == 0 then Success([])
    else
      match DecodeCycles(data, seqNo, tTagMs, anchorN, n - 1)
      case Failure(e) => Failure(e)
      case Success(front) =>
        match DecodeCycle(data, PacketSize(n - 1, anchorN), seqNo, tTagMs, anchorN, n - 1)
        case Failure(e) => Failure(e)
        case Success(c) => Success(front + [c])
  }

  /** What is wrong with a header, given the length of the whole datagram; the first failing check counts. */
  function HeaderFault(h: seq<int>, length: nat): Option<DropReason>
    requires |h| == 10 && h[7] >= 0 && h[8] >= 0
  {
    if h[0] != MAGIC then Some(BadMagic)
    else if h[1] != VERSION then Some(BadVersion)
    else if h[2] > FLAGS_KNOWN || h[9] != 0 then Some(BadReserved)
    else if !(TAG_ID_MIN <= h[3] <= TAG_ID_MAX) then Some(BadTagId)
    else if !(COUNT_MIN <= h[7] <= COUNT_MAX) then Some(BadCount)
    else if h[8] < 1 then Some(BadAnchorN)
    else if length != PacketSize(h[7], h[8]) then Some(LengthMismatch)
    else None
  }

  /** The ten header fields. */
  function UnpackHeader(bytes: seq<byte>): (h: seq<int>)
    requires |bytes| == HEADER_SIZE
    ensures |h| == 10 && AllFit(HEADER, h) && Pack(HEADER, h) == Some(bytes)
    ensures h[7] >= 0 && h[8] >= 0 && IsU32(h[6])
  {
    HeaderSize();
    PackUnpack(HEADER, bytes);
    var h := Unpack(HEADER, bytes);
    assert HEADER[7].Fits(h[7]) && HEADER[8].Fits(h[8]) && HEADER[6].Fits(h[6]);
    h
  }

  lemma UnpackHeaderOfPack(h: seq<int>)
    requires |h| == 10 && AllFit(HEADER, h)
    ensures |Pack(HEADER, h).value| == HEADER_SIZE && UnpackHeader(Pack(HEADER, h).value) == h
  {
    HeaderSize();
    UnpackPack(HEADER, h);
  }

  /** The specification of `DecodePacket`. */
  function Decode(data: seq<byte>): Result<TelemetryPacket, DropReason> {
    if |data| < HEADER_SIZE then Failure(TooShort)
    else
      var h := UnpackHeader(data[..HEADER_SIZE]);
      match HeaderFault(h, |data|)
      case Some(reason) => Failure(reason)
      case None =>
        match DecodeCycles(data, h[5], h[6], h[8], h[7])
        case Failure(e) => Failure(e)
        case Success(cs) => Success(TelemetryPacket(h[2], h[3], h[4], h[5], h[6], h[8], cs))
  }

  lemma EncodeCyclesSnoc(front: seq<CycleRecord>, last: CycleRecord, f: seq<byte>, b: seq<byte>,
                         seqNo: int, tTagMs: int, anchorN: int)
    requires EncodeCycles(front, seqNo, tTagMs, anchorN) == Success(f)
    requires EncodeCycle(last, seqNo, tTagMs, anchorN, |front|) == Success(b)
    ensures EncodeCycles(front + [last], seqNo, tTagMs, anchorN) == Success(f + b)
  {
    var cs := front + [last];
    assert cs[..|cs| - 1] == front && cs[|cs| - 1] == last;
  }

  lemma {:induction false} CyclesEncodable(cs: seq<CycleRecord>, seqNo: int, tTagMs: int, anchorN: nat)
    requires LegalCycles(cs, seqNo, tTagMs, anchorN)
    ensures EncodeCycles(cs, seqNo, tTagMs, anchorN).Success?
  {
    if cs != [] {
      CycleEncodable(cs[|cs| - 1], seqNo, tTagMs, anchorN, |cs| - 1);
      CyclesEncodable(cs[..|cs| - 1], seqNo, tTagMs, anchorN);
    }
  }

  lemma {:induction false} CyclesRoundTrip(cs: seq<CycleRecord>, data: seq<byte>, seqNo: int, tTagMs: int, anchorN: nat)
    requires IsU32(tTagMs) && LegalCycles(cs, seqNo, tTagMs, anchorN)
    requires PacketSize(|cs|, anchorN) <= |data|
    requires EncodeCycles(cs, seqNo, tTagMs, anchorN) == Success(data[HEADER_SIZE..PacketSize(|cs|, anchorN)])
    ensures DecodeCycles(data, seqNo, tTagMs, anchorN, |cs|) == Success(cs)
  {
    hide DecodeCycle, EncodeCycle, LegalCycle;
    if cs != [] {
      var front, last := cs[..|cs| - 1], cs[|cs| - 1];
      var at := PacketSize(|front|, anchorN);
      PacketSizeStep(|front|, anchorN);
      hide PacketSize, BlockSize, EncodeCycles;
      CyclesEncodable(front, seqNo, tTagMs, anchorN);
      assert LegalCycle(last, seqNo, tTagMs, anchorN, |front|);
      CycleEncodable(last, seqNo, tTagMs, anchorN, |front|);
      var f := EncodeCycles(front, seqNo, tTagMs, anchorN).value;
      var b := EncodeCycle(last, seqNo, tTagMs, anchorN, |front|).value;
      EncodeCyclesSnoc(front, last, f, b, seqNo, tTagMs, anchorN);
      assert cs == front + [last];
      SplitSlice(data, HEADER_SIZE, at, at + BlockSize(anchorN), f, b);
      CyclesRoundTrip(front, data, seqNo, tTagMs, anchorN);
      CycleRoundTrip(last, data, at, seqNo, tTagMs, anchorN, |front|);
    }
  }

  lemma {:induction false} CyclesRoundTripBack(data: seq<byte>, seqNo: int, tTagMs: int, anchorN: nat, n: nat)
    requires IsU32(tTagMs) && PacketSize(n, anchorN) <= |data|
    requires DecodeCycles(data, seqNo, tTagMs, anchorN, n).Success?
    ensures var cs := DecodeCycles(data, seqNo, tTagMs, anchorN, n).value;
      && LegalCycles(cs, seqNo, tTagMs, anchorN)
      && EncodeCycles(cs, seqNo, tTagMs, anchorN) == Success(data[HEADER_SIZE..PacketSize(n, anchorN)])
  {
    hide DecodeCycle, EncodeCycle, LegalCycle;
    if n == 0 {
      assert data[HEADER_SIZE..HEADER_SIZE] == [];
    } else {
      var at := PacketSize(n - 1, anchorN);
      assert PacketSize(n, anchorN) == at + BlockSize(anchorN);
      CyclesRoundTripBack(data, seqNo, tTagMs, anchorN, n - 1);
      CycleRoundTripBack(data, at, seqNo, tTagMs, anchorN, n - 1);
      var front := DecodeCycles(data, seqNo, tTagMs, anchorN, n - 1).value;
      var last := DecodeCycle(data, at, seqNo, tTagMs, anchorN, n - 1).value;
      assert DecodeCycles(data, seqNo, tTagMs, anchorN, n).value == front + [last];
      EncodeCyclesSnoc(front, last, data[HEADER_SIZE..at], data[at..at + BlockSize(anchorN)], seqNo, tTagMs, anchorN);
      assert data[HEADER_SIZE..at + BlockSize(anchorN)] == data[HEADER_SIZE..at] + data[at..at + BlockSize(anchorN)];
    }
  }

  /** Every accepted datagram is the encoding of the packet it decodes to, and that packet is legal. */
  lemma EncodeOfDecode(data: seq<byte>)
    requires Decode(data).Success?
    ensures Legal(Decode(data).value)
    ensures Encode(Decode(data).value) == Success(data)
  {
    hide Pack, Unpack, AllFit, Size, EncodeCycles, DecodeCycles;
    var head := data[..HEADER_SIZE];
    var h := UnpackHeader(head);
    var p := Decode(data).value;
    CyclesRoundTripBack(data, h[5], h[6], h[8], h[7]);
    assert HeaderValues(p) == h;
    assert data == head + data[HEADER_SIZE..PacketSize(h[7], h[8])];
  }

  /** A legal packet encodes, and its encoding decodes back to it. */
  lemma DecodeOfEncode(p: TelemetryPacket)
    requires Legal(p)
    ensures Encode(p).Success?
    ensures Decode(Encode(p).value) == Success(p)
  {
    hide Pack, Unpack, AllFit, Size, EncodeCycles, DecodeCycles;
    CyclesEncodable(p.cycles, p.seqNo, p.tTagMs, p.anchorN);
    var h := HeaderValues(p);
    var head := Pack(HEADER, h).value;
    var body := EncodeCycles(p.cycles, p.seqNo, p.tTagMs, p.anchorN).value;
    var data := head + body;
    UnpackHeaderOfPack(h);
    assert data[..HEADER_SIZE] == head;
    assert data[HEADER_SIZE..PacketSize(|p.cycles|, p.anchorN)] == body;
    CyclesRoundTrip(p.cycles, data, p.seqNo, p.tTagMs, p.anchorN);
  }

  /** Exactly the legal packets survive the trip through the wire. */
  lemma RoundTripIffLegal(p: TelemetryPacket)
    ensures Encode(p).Success? && Decode(Encode(p).value) == Success(p) <==> Legal(p)
  {
    if Legal(p) {
      DecodeOfEncode(p);
    } else if Encode(p).Success? && Decode(Encode(p).value) == Success(p) {
      EncodeOfDecode(Encode(p).value);
    }
  }

  lemma {:induction false} CyclesFailureSticks(data: seq<byte>, seqNo: int, tTagMs: int, anchorN: nat, k: nat, n: nat)
    requires k <= n && PacketSize(k, anchorN) <= |data| && PacketSize(n, anchorN) <= |data|
    requires DecodeCycles(data, seqNo, tTagMs, anchorN, k).Failure?
    ensures DecodeCycles(data, seqNo, tTagMs, anchorN, n) == Failure(DecodeCycles(data, seqNo, tTagMs, anchorN, k).error)
    decreases n
  {
    hide DecodeCycle, EncodeCycle, LegalCycle;
    if k < n {
      CyclesFailureSticks(data, seqNo, tTagMs, anchorN, k, n - 1);
    }
  }

  // ---------------------------------------------------------------- the two loops

  /** Reads a datagram front to back, giving up at the first field that is not allowed. */
  method DecodePacket(data: seq<byte>) returns (r: Result<TelemetryPacket, DropReason>)
    ensures r == Decode(data)
  {
    hide DecodeRange, DecodeCycle, Pack, Unpack, AllFit, Size;
    if |data| < HEADER_SIZE {
      return Failure(TooShort);
    }
    var h := UnpackHeader(data[..HEADER_SIZE]);
    var fault := HeaderFault(h, |data|);
    if fault.Some? {
      return Failure(fault.value);
    }
    var seqNo, tTagMs, count, anchorN := h[5], h[6], h[7], h[8];
    var cycles: seq<CycleRecord> := [];
    var offset: nat := HEADER_SIZE;
    for index := 0 to count
      invariant offset == PacketSize(index, anchorN) <= PacketSize(count, anchorN) == |data|
      invariant DecodeCycles(data, seqNo, tTagMs, anchorN, index) == Success(cycles)
    {
      PacketSizeMonotone(index + 1, count, anchorN);
      var cycle := DecodeCycleAt(data, offset, seqNo, tTagMs, anchorN, index);
      if cycle.Failure? {
        CyclesFailureSticks(data, seqNo, tTagMs, anchorN, index + 1, count);
        return Failure(cycle.error);
      }
      cycles := cycles + [cycle.value];
      offset := offset + BlockSize(anchorN);
    }
    return Success(TelemetryPacket(h[2], h[3], h[4], seqNo, tTagMs, anchorN, cycles));
  }

  lemma {:induction false} PacketSizeMonotone(k: nat, n: nat, anchorN: nat)
    requires k <= n
    ensures PacketSize(k, anchorN) <= PacketSize(n, anchorN)
    decreases n
  {
    if k < n {
      PacketSizeMonotone(k, n - 1, anchorN);
    }
  }

  method DecodeCycleAt(data: seq<byte>, start: nat, seqNo: int, tTagMs: int, anchorN: nat, index: nat)
    returns (r: Result<CycleRecord, DropReason>)
    requires start + BlockSize(anchorN) <= |data|
    ensures r == DecodeCycle(data, start, seqNo, tTagMs, anchorN, index)
  {
    hide DecodeRange, Pack, AllFit, Size;
    CycleSize();
    var offset := start;
    var v := Unpack(CYCLE, data[offset..offset + CYCLE_SIZE]);
    offset := offset + CYCLE_SIZE;
    if v[1] > FIX_FLAGS_KNOWN {
      return Failure(BadReserved);
    }
    var ranges: seq<RangeRecord> := [];
    for k := 0 to anchorN
      invariant offset == start + CYCLE_SIZE + RANGE_SIZE * k
      invariant DecodeRanges(data, start + CYCLE_SIZE, k) == Success(ranges)
    {
      var range := DecodeRange(data[offset..offset + RANGE_SIZE]);
      if range.Failure? {
        RangesFailureSticks(data, start + CYCLE_SIZE, k + 1, anchorN);
        return Failure(range.error);
      }
      ranges := ranges + [range.value];
      offset := offset + RANGE_SIZE;
    }
    return Success(CycleOf(v, Mask(seqNo + index), Mask(tTagMs + v[0]), ranges));
  }

  /** Writes a packet front to back, refusing it at the first value the wire form cannot carry. */
  method EncodePacket(p: TelemetryPacket) returns (r: Result<seq<byte>, EncodeError>)
    ensures r == Encode(p)
  {
    hide EncodeCycle, Pack, AllFit, Size;
    var count := |p.cycles|;
    if !(COUNT_MIN <= count <= COUNT_MAX) {
      return Failure(CycleCount);
    }
    var head := Pack(HEADER, HeaderValues(p));
    if head.None? {
      return Failure(FieldOverflow);
    }
    var parts: seq<byte> := [];
    for index := 0 to count
      invariant EncodeCycles(p.cycles[..index], p.seqNo, p.tTagMs, p.anchorN) == Success(parts)
    {
      var cycle := EncodeCycle(p.cycles[index], p.seqNo, p.tTagMs, p.anchorN, index);
      var upTo := p.cycles[..index + 1];
      assert upTo[..|upTo| - 1] == p.cycles[..index];
      if cycle.Failure? {
        EncodeFailureSticks(p.cycles, p.seqNo, p.tTagMs, p.anchorN, index + 1);
        return Failure(cycle.error);
      }
      parts := parts + cycle.value;
    }
    assert p.cycles[..count] == p.cycles;
    return Success(head.value + parts);
  }

  lemma {:induction false} EncodeFailureSticks(cs: seq<CycleRecord>, seqNo: int, tTagMs: int, anchorN: int, k: nat)
    requires k <= |cs| && EncodeCycles(cs[..k], seqNo, tTagMs, anchorN).Failure?
    ensures EncodeCycles(cs, seqNo, tTagMs, anchorN) == Failure(EncodeCycles(cs[..k], seqNo, tTagMs, anchorN).error)
    decreases |cs|
  {
    hide EncodeCycle;
    if k < |cs| {
      assert cs[..|cs| - 1][..k] == cs[..k];
      EncodeFailureSticks(cs[..|cs| - 1], seqNo, tTagMs, anchorN, k);
    } else {
      assert cs[..k] == cs;
    }
  }
}
