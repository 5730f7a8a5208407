/** Where each field of a packet stands in the datagram, byte by byte. */
module Layout {
  import opened Prelude
  import opened Struct
  import opened Packets
  import opened Codec

  // ---------------------------------------------------------------- little-endian numbers

  function U8At(d: seq<byte>, i: nat): int
    requires i < |d|
  {
    d[i]
  }

  function U16At(d: seq<byte>, i: nat): int
    requires i + 2 <= |d|
  {
    U8At(d, i) + 0x100 * U8At(d, i + 1)
  }

  function U32At(d: seq<byte>, i: nat): int
    requires i + 4 <= |d|
  {
    U8At(d, i) + 0x100 * U8At(d, i + 1) + 0x1_0000 * U8At(d, i + 2) + 0x100_0000 * U8At(d, i + 3)
  }

  /** Two's complement in sixteen and thirty-two bits. */
  function I16At(d: seq<byte>, i: nat): int
    requires i + 2 <= |d|
  {
    if d[i + 1] < 0x80 then U16At(d, i) else U16At(d, i) - 0x1_0000
  }

  function I32At(d: seq<byte>, i: nat): int
    requires i + 4 <= |d|
  {
    if d[i + 3] < 0x80 then U32At(d, i) else U32At(d, i) - 0x1_0000_0000
  }

  function Read(f: Field, d: seq<byte>, i: nat): int
    requires i + f.Width() <= |d|
  {
    match f
    case U8 => U8At(d, i)
    case U16 => U16At(d, i)
    case U32 => U32At(d, i)
    case I16 => I16At(d, i)
    case I32 => I32At(d, i)
  }

  lemma FromOne(b: seq<byte>)
    requires |b| == 1
    ensures FromBytes(b) == b[0]
  {
    assert b[1..] == [];
  }

  lemma FromTwo(b: seq<byte>)
    requires |b| == 2
    ensures FromBytes(b) == U16At(b, 0)
  {
    FromOne(b[1..]);
  }

  lemma FromFour(b: seq<byte>)
    requires |b| == 4
    ensures FromBytes(b) == U32At(b, 0)
  {
    FromTwo(b[2..]);
    assert b[1..][1..] == b[2..];
    assert FromBytes(b[1..]) == b[1] + 256 * FromBytes(b[2..]);
  }

  lemma FieldRead(f: Field, d: seq<byte>, i: nat)
    requires i + f.Width() <= |d|
    ensures UnpackField(f, d[i..i + f.Width()]) == Read(f, d, i)
  {
    var b := d[i..i + f.Width()];
    match f
    case U8 => FromOne(b);
    case U16 | I16 => FromTwo(b);
    case U32 | I32 => FromFour(b);
  }

  /** Where field `i` of a format starts. */
  function OffsetOf(fmt: seq<Field>, i: nat): nat
    requires i <= |fmt|
  {
    if i == 0 then 0 else OffsetOf(fmt, i - 1) + fmt[i - 1].Width()
  }

  lemma {:induction false} OffsetShift(fmt: seq<Field>, i: nat)
    requires 0 < i <= |fmt|
    ensures OffsetOf(fmt, i) == fmt[0].Width() + OffsetOf(fmt[1..], i - 1)
  {
    if i > 1 {
      OffsetShift(fmt, i - 1);
    }
  }

  lemma {:induction false} OffsetWithin(fmt: seq<Field>, i: nat)
    requires i < |fmt|
    ensures OffsetOf(fmt, i) + fmt[i].Width() <= Size(fmt)
  {
    if i > 0 {
      OffsetWithin(fmt[1..], i - 1);
      OffsetShift(fmt, i);
    }
  }

  /** Every unpacked value is the number read at its field's place. */
  lemma {:induction false} UnpackedAt(fmt: seq<Field>, d: seq<byte>, i: nat)
    requires |d| == Size(fmt) && i < |fmt|
    ensures OffsetOf(fmt, i) + fmt[i].Width() <= |d|
    ensures Unpack(fmt, d)[i] == Read(fmt[i], d, OffsetOf(fmt, i))
  {
    hide Read, Unpack, OffsetOf;
    OffsetWithin(fmt, i);
    if i == 0 {
      FirstUnpacked(fmt, d);
    } else {
      var w := fmt[0].Width();
      UnpackedAt(fmt[1..], d[w..], i - 1);
      LaterUnpacked(fmt, d, i);
      OffsetShift(fmt, i);
      ReadShift(fmt[i], d, w, OffsetOf(fmt[1..], i - 1));
    }
  }

  lemma LaterUnpacked(fmt: seq<Field>, d: seq<byte>, i: nat)
    requires |d| == Size(fmt) && 0 < i < |fmt|
    ensures Unpack(fmt, d)[i] == Unpack(fmt[1..], d[fmt[0].Width()..])[i - 1]
  {
    hide UnpackField;
  }

  lemma FirstUnpacked(fmt: seq<Field>, d: seq<byte>)
    requires |d| == Size(fmt) && fmt != []
    ensures OffsetOf(fmt, 0) == 0 && Unpack(fmt, d)[0] == Read(fmt[0], d, 0)
  {
    hide UnpackField, Read;
    var w := fmt[0].Width();
    FieldRead(fmt[0], d, 0);
    assert d[0..w] == d[..w];
  }

  lemma ReadShift(f: Field, d: seq<byte>, w: nat, i: nat)
    requires w + i + f.Width() <= |d|
    ensures Read(f, d[w..], i) == Read(f, d, w + i)
  {}

  /** A value of a record that starts at `from`, read in the whole datagram. */
  lemma RecordField(fmt: seq<Field>, d: seq<byte>, from: nat, i: nat)
    requires from + Size(fmt) <= |d| && i < |fmt|
    ensures from + OffsetOf(fmt, i) + fmt[i].Width() <= |d|
    ensures Unpack(fmt, d[from..from + Size(fmt)])[i] == Read(fmt[i], d, from + OffsetOf(fmt, i))
  {
    hide Unpack, OffsetOf, Read;
    var part := d[from..from + Size(fmt)];
    UnpackedAt(fmt, part, i);
    ReadSlice(fmt[i], d, from, from + Size(fmt), OffsetOf(fmt, i));
  }

  lemma ReadSlice(f: Field, d: seq<byte>, from: nat, upto: nat, i: nat)
    requires from + i + f.Width() <= upto <= |d|
    ensures Read(f, d[from..upto], i) == Read(f, d, from + i)
  {}

  // ---------------------------------------------------------------- the layout

  ghost predicate HeaderAt(d: seq<byte>, p: TelemetryPacket) {
    && |d| >= 24
    && d[0] == 'U' as int && d[1] == 'W' as int && d[2] == 'B' as int && d[3] == 'T' as int
    && d[4] == 3 && p.flags == d[5] && p.tagId == U16At(d, 6) && p.bootId == U32At(d, 8)
    && p.seqNo == U32At(d, 12) && p.tTagMs == U32At(d, 16)
    && |p.cycles| == d[20] && p.anchorN == d[21] && d[22] == 0 && d[23] == 0
  }

  ghost predicate RangeAt(d: seq<byte>, at: nat, r: RangeRecord) {
    && at + 9 <= |d|
    && r.anchorId == U16At(d, at) && r.status == d[at + 2] && r.elapsedMs == d[at + 3]
    && r.distanceMm == I32At(d, at + 4) && r.kf == d[at + 8]
  }

  ghost predicate CycleAt(d: seq<byte>, at: nat, c: CycleRecord) {
    && at + 30 <= |d|
    && c.fixFlags == d[at + 2] && c.usedCount == d[at + 3]
    && c.xMm == I32At(d, at + 4) && c.yMm == I32At(d, at + 8) && c.zMm == I16At(d, at + 12)
    && c.residualMm == U16At(d, at + 14)
    && c.kfXMm == I32At(d, at + 16) && c.kfYMm == I32At(d, at + 20) && c.kfZMm == I16At(d, at + 24)
    && c.kfSigmaMm == U16At(d, at + 26) && c.kfUsed == d[at + 28] && c.kfRejected == d[at + 29]
  }

  /** Cycle `k` starts after the header and `k` whole blocks of a cycle and its ranges. */
  function CycleStart(k: nat, anchorN: nat): nat {
    24 + k * (30 + 9 * anchorN)
  }

  /** Cycle `k` with its number, its time and its ranges. */
  ghost predicate BlockAt(d: seq<byte>, p: TelemetryPacket, k: nat)
    requires k < |p.cycles| && p.anchorN >= 0
  {
    var at, c := CycleStart(k, p.anchorN), p.cycles[k];
    && CycleAt(d, at, c)
    && c.seqNo == (p.seqNo + k) % 0x1_0000_0000 && c.tTagMs == (p.tTagMs + U16At(d, at)) % 0x1_0000_0000
    && |c.ranges| == p.anchorN && forall j :: 0 <= j < |c.ranges| ==> RangeAt(d, at + 30 + 9 * j, c.ranges[j])
  }

  lemma HeaderOffsets()
    ensures |HEADER| == 10 && Size(HEADER) == 24
    ensures OffsetOf(HEADER, 0) == 0 && OffsetOf(HEADER, 1) == 4 && OffsetOf(HEADER, 2) == 5 && OffsetOf(HEADER, 3) == 6
    ensures OffsetOf(HEADER, 4) == 8 && OffsetOf(HEADER, 5) == 12 && OffsetOf(HEADER, 6) == 16 && OffsetOf(HEADER, 7) == 20
    ensures OffsetOf(HEADER, 8) == 21 && OffsetOf(HEADER, 9) == 22
  {
    HeaderSize();
    assert OffsetOf(HEADER, 0) == 0;
    assert OffsetOf(HEADER, 1) == 4;
    assert OffsetOf(HEADER, 2) == 5;
    assert OffsetOf(HEADER, 3) == 6;
    assert OffsetOf(HEADER, 4) == 8;
    assert OffsetOf(HEADER, 5) == 12;
    assert OffsetOf(HEADER, 6) == 16;
    assert OffsetOf(HEADER, 7) == 20;
    assert OffsetOf(HEADER, 8) == 21;
    assert OffsetOf(HEADER, 9) == 22;
  }

  lemma CycleOffsets()
    ensures |CYCLE| == 13 && Size(CYCLE) == 30
    ensures OffsetOf(CYCLE, 0) == 0 && OffsetOf(CYCLE, 1) == 2 && OffsetOf(CYCLE, 2) == 3 && OffsetOf(CYCLE, 3) == 4
    ensures OffsetOf(CYCLE, 4) == 8 && OffsetOf(CYCLE, 5) == 12 && OffsetOf(CYCLE, 6) == 14 && OffsetOf(CYCLE, 7) == 16
    ensures OffsetOf(CYCLE, 8) == 20 && OffsetOf(CYCLE, 9) == 24 && OffsetOf(CYCLE, 10) == 26 && OffsetOf(CYCLE, 11) == 28
    ensures OffsetOf(CYCLE, 12) == 29
  {
    CycleSize();
    assert CYCLE == [U16, U8, U8, I32, I32, I16, U16, I32, I32, I16, U16, U8, U8];
    assert OffsetOf(CYCLE, 0) == 0;
    assert OffsetOf(CYCLE, 1) == 2;
    assert OffsetOf(CYCLE, 2) == 3;
    assert OffsetOf(CYCLE, 3) == 4;
    assert OffsetOf(CYCLE, 4) == 8;
    assert OffsetOf(CYCLE, 5) == 12;
    assert OffsetOf(CYCLE, 6) == 14;
    assert OffsetOf(CYCLE, 7) == 16;
    assert OffsetOf(CYCLE, 8) == 20;
    assert OffsetOf(CYCLE, 9) == 24;
    assert OffsetOf(CYCLE, 10) == 26;
    assert OffsetOf(CYCLE, 11) == 28;
    assert OffsetOf(CYCLE, 12) == 29;
  }

  lemma RangeOffsets()
    ensures |RANGE| == 5 && Size(RANGE) == 9
    ensures OffsetOf(RANGE, 0) == 0 && OffsetOf(RANGE, 1) == 2 && OffsetOf(RANGE, 2) == 3 && OffsetOf(RANGE, 3) == 4
    ensures OffsetOf(RANGE, 4) == 8
  {
    RangeSize();
    assert OffsetOf(RANGE, 0) == 0;
    assert OffsetOf(RANGE, 1) == 2;
    assert OffsetOf(RANGE, 2) == 3;
    assert OffsetOf(RANGE, 3) == 4;
    assert OffsetOf(RANGE, 4) == 8;
  }

  lemma PrefixField(fmt: seq<Field>, d: seq<byte>, i: nat)
    requires Size(fmt) <= |d| && i < |fmt|
    ensures OffsetOf(fmt, i) + fmt[i].Width() <= |d|
    ensures Unpack(fmt, d[..Size(fmt)])[i] == Read(fmt[i], d, OffsetOf(fmt, i))
  {
    hide Unpack, OffsetOf, Read, Size;
    RecordField(fmt, d, 0, i);
    assert d[0..Size(fmt)] == d[..Size(fmt)];
  }

  lemma HeaderField(d: seq<byte>, i: nat, f: Field, at: nat)
    requires |d| >= 24 && i < |HEADER| && HEADER[i] == f && OffsetOf(HEADER, i) == at && Size(HEADER) == 24
    ensures at + f.Width() <= |d| && Unpack(HEADER, d[..24])[i] == Read(f, d, at)
  {
    hide Unpack, OffsetOf, Read, Size;
    PrefixField(HEADER, d, i);
  }

  lemma HeaderUnpacks(d: seq<byte>)
    requires |d| >= 24
    ensures Size(HEADER) == 24 && UnpackHeader(d[..HEADER_SIZE]) == Unpack(HEADER, d[..HEADER_SIZE])
  {
    HeaderSize();
    hide Unpack;
  }

  lemma MagicBytes(d: seq<byte>)
    requires |d| >= 4 && U32At(d, 0) == MAGIC
    ensures d[0] == 'U' as int && d[1] == 'W' as int && d[2] == 'B' as int && d[3] == 'T' as int
  {}

  lemma HeaderReads(d: seq<byte>)
    requires |d| >= 24
    ensures var h := UnpackHeader(d[..HEADER_SIZE]);
      && h[0] == U32At(d, 0) && h[1] == d[4] && h[2] == d[5] && h[3] == U16At(d, 6) && h[4] == U32At(d, 8)
      && h[5] == U32At(d, 12) && h[6] == U32At(d, 16) && h[7] == d[20] && h[8] == d[21] && h[9] == U16At(d, 22)
  {
    HeaderOffsets();
    HeaderUnpacks(d);
    hide UnpackHeader, Unpack, OffsetOf, Size, U16At, U32At;
    HeaderField(d, 0, U32, 0);
    HeaderField(d, 1, U8, 4);
    HeaderField(d, 2, U8, 5);
    HeaderField(d, 3, U16, 6);
    HeaderField(d, 4, U32, 8);
    HeaderField(d, 5, U32, 12);
    HeaderField(d, 6, U32, 16);
    HeaderField(d, 7, U8, 20);
    HeaderField(d, 8, U8, 21);
    HeaderField(d, 9, U16, 22);
  }

  lemma HeaderLayout(d: seq<byte>)
    requires Decode(d).Success?
    ensures HeaderAt(d, Decode(d).value)
  {
    hide UnpackHeader, DecodeCycles;
    HeaderReads(d);
    MagicBytes(d);
    hide U32At;
  }

  lemma RangeLayout(d: seq<byte>, at: nat)
    requires at + 9 <= |d| && DecodeRange(d[at..at + RANGE_SIZE]).Success?
    ensures RangeAt(d, at, DecodeRange(d[at..at + RANGE_SIZE]).value)
  {
    RangeOffsets();
    RecordField(RANGE, d, at, 0);
    RecordField(RANGE, d, at, 1);
    RecordField(RANGE, d, at, 2);
    RecordField(RANGE, d, at, 3);
    RecordField(RANGE, d, at, 4);
    hide Unpack, OffsetOf, Size;
  }

  lemma {:induction false} RangesLayout(d: seq<byte>, at: nat, n: nat)
    requires at + RANGE_SIZE * n <= |d| && DecodeRanges(d, at, n).Success?
    ensures forall j :: 0 <= j < n ==> RangeAt(d, at + 9 * j, DecodeRanges(d, at, n).value[j])
  {
    hide DecodeRange, RangeAt;
    if n > 0 {
      RangesLayout(d, at, n - 1);
      RangeLayout(d, at + RANGE_SIZE * (n - 1));
    }
  }

  lemma CycleField(d: seq<byte>, at: nat, i: nat, f: Field, offset: nat)
    requires at + 30 <= |d| && Size(CYCLE) == 30 && i < |CYCLE| && CYCLE[i] == f && OffsetOf(CYCLE, i) == offset
    ensures at + offset + f.Width() <= |d| && Unpack(CYCLE, d[at..at + 30])[i] == Read(f, d, at + offset)
  {
    hide Unpack, OffsetOf, Read, Size;
    RecordField(CYCLE, d, at, i);
  }

  lemma CycleFields(d: seq<byte>, at: nat, seqNo: int, tTagMs: int, rs: seq<RangeRecord>)
    requires at + 30 <= |d|
    ensures Size(CYCLE) == CYCLE_SIZE
    ensures var v := Unpack(CYCLE, d[at..at + CYCLE_SIZE]);
      v[0] == U16At(d, at) && CycleAt(d, at, CycleOf(v, seqNo, tTagMs, rs))
  {
    CycleOffsets();
    assert CYCLE == [U16, U8, U8, I32, I32, I16, U16, I32, I32, I16, U16, U8, U8];
    hide Unpack, OffsetOf, Size;
    CycleField(d, at, 0, U16, 0);
    CycleField(d, at, 1, U8, 2);
    CycleField(d, at, 2, U8, 3);
    CycleField(d, at, 3, I32, 4);
    CycleField(d, at, 4, I32, 8);
    CycleField(d, at, 5, I16, 12);
    CycleField(d, at, 6, U16, 14);
    CycleField(d, at, 7, I32, 16);
    CycleField(d, at, 8, I32, 20);
    CycleField(d, at, 9, I16, 24);
    CycleField(d, at, 10, U16, 26);
    CycleField(d, at, 11, U8, 28);
    CycleField(d, at, 12, U8, 29);
    hide U16At, U32At, I16At, I32At;
  }

  lemma CycleLayout(d: seq<byte>, at: nat, seqNo: int, tTagMs: int, anchorN: nat, k: nat)
    requires at + BlockSize(anchorN) <= |d| && DecodeCycle(d, at, seqNo, tTagMs, anchorN, k).Success?
    ensures var c := DecodeCycle(d, at, seqNo, tTagMs, anchorN, k).value;
      && CycleAt(d, at, c) && c.seqNo == Mask(seqNo + k) && c.tTagMs == Mask(tTagMs + U16At(d, at))
      && |c.ranges| == anchorN && forall j :: 0 <= j < anchorN ==> RangeAt(d, at + 30 + 9 * j, c.ranges[j])
  {
    CycleSize();
    var v := Unpack(CYCLE, d[at..at + CYCLE_SIZE]);
    var c := DecodeCycle(d, at, seqNo, tTagMs, anchorN, k).value;
    CycleFields(d, at, c.seqNo, c.tTagMs, c.ranges);
    RangesLayout(d, at + CYCLE_SIZE, anchorN);
    hide Unpack, CycleAt, RangeAt, DecodeRanges, Size, U16At;
  }

  lemma {:induction false} CyclesLayout(d: seq<byte>, seqNo: int, tTagMs: int, anchorN: nat, n: nat, k: nat)
    requires PacketSize(n, anchorN) <= |d| && DecodeCycles(d, seqNo, tTagMs, anchorN, n).Success? && k < n
    ensures PacketSize(k, anchorN) + BlockSize(anchorN) <= |d|
    ensures DecodeCycle(d, PacketSize(k, anchorN), seqNo, tTagMs, anchorN, k)
         == Success(DecodeCycles(d, seqNo, tTagMs, anchorN, n).value[k])
  {
    hide DecodeCycle;
    PacketSizeStep(n - 1, anchorN);
    if k < n - 1 {
      CyclesLayout(d, seqNo, tTagMs, anchorN, n - 1, k);
    }
  }

  lemma DecodedParts(d: seq<byte>)
    requires Decode(d).Success?
    ensures var p := Decode(d).value;
      && p.anchorN >= 0 && |d| == PacketSize(|p.cycles|, p.anchorN)
      && DecodeCycles(d, p.seqNo, p.tTagMs, p.anchorN, |p.cycles|) == Success(p.cycles)
  {
    hide UnpackHeader, DecodeCycles, PacketSize;
  }

  /** Of every accepted datagram: each field is the number at its place, each cycle and each range at theirs. */
  lemma WireLayout(d: seq<byte>)
    requires Decode(d).Success?
    ensures var p := Decode(d).value;
      && HeaderAt(d, p) && p.anchorN >= 0 && |d| == CycleStart(|p.cycles|, p.anchorN)
      && forall k :: 0 <= k < |p.cycles| ==> BlockAt(d, p, k)
  {
    HeaderLayout(d);
    DecodedParts(d);
    hide HeaderAt, BlockAt, Decode, DecodeCycles, PacketSize, CycleStart;
    var p := Decode(d).value;
    StartIsSize(|p.cycles|, p.anchorN);
    forall k | 0 <= k < |p.cycles| ensures BlockAt(d, p, k) {
      BlockLayout(d, p, k);
    }
  }

  lemma StartIsSize(k: nat, anchorN: nat)
    ensures PacketSize(k, anchorN) == CycleStart(k, anchorN)
  {
    PacketSizeClosed(k, anchorN);
  }

  lemma BlockLayout(d: seq<byte>, p: TelemetryPacket, k: nat)
    requires p.anchorN >= 0 && |d| == PacketSize(|p.cycles|, p.anchorN) && k < |p.cycles|
    requires DecodeCycles(d, p.seqNo, p.tTagMs, p.anchorN, |p.cycles|) == Success(p.cycles)
    ensures BlockAt(d, p, k)
  {
    hide DecodeCycle, CycleAt, RangeAt, U16At, DecodeCycles, PacketSize, CycleStart;
    CyclesLayout(d, p.seqNo, p.tTagMs, p.anchorN, |p.cycles|, k);
    StartIsSize(k, p.anchorN);
    CycleLayout(d, PacketSize(k, p.anchorN), p.seqNo, p.tTagMs, p.anchorN, k);
  }

  // ---------------------------------------------------------------- which datagrams are accepted

  /** Why a header is refused, byte by byte; the first reason counts. */
  function HeaderRefusal(d: seq<byte>): Option<DropReason> {
    if |d| < 24 then Some(TooShort)
    else if !(d[0] == 'U' as int && d[1] == 'W' as int && d[2] == 'B' as int && d[3] == 'T' as int) then Some(BadMagic)
    else if d[4] != 3 then Some(BadVersion)
    else if d[5] > 1 || d[22] != 0 || d[23] != 0 then Some(BadReserved)
    else if d[6] == 0 || d[7] != 0 then Some(BadTagId)
    else if d[20] == 0 || d[20] > 16 then Some(BadCount)
    else if d[21] == 0 then Some(BadAnchorN)
    else if |d| != CycleStart(d[20], d[21]) then Some(LengthMismatch)
    else None
  }

  ghost predicate RangeFine(d: seq<byte>, at: nat) {
    at + 9 <= |d| && 0x100 <= U16At(d, at) <= 0xFFFE && d[at + 8] <= 2
  }

  ghost predicate BlockFine(d: seq<byte>, at: nat, anchorN: nat) {
    && at + 30 + 9 * anchorN <= |d| && d[at + 2] <= 31
    && forall j :: 0 <= j < anchorN ==> RangeFine(d, at + 30 + 9 * j)
  }

  lemma MagicIsBytes(d: seq<byte>)
    requires |d| >= 4
    ensures U32At(d, 0) == MAGIC <==> d[0] == 'U' as int && d[1] == 'W' as int && d[2] == 'B' as int && d[3] == 'T' as int
  {}

  lemma TagIdBytes(d: seq<byte>)
    requires |d| >= 24
    ensures TAG_ID_MIN <= U16At(d, 6) <= TAG_ID_MAX <==> d[6] != 0 && d[7] == 0
    ensures U16At(d, 22) == 0 <==> d[22] == 0 && d[23] == 0
  {}

  lemma RangeAccepted(d: seq<byte>, at: nat)
    requires at + 9 <= |d|
    ensures var r := DecodeRange(d[at..at + RANGE_SIZE]);
      (r.Success? <==> RangeFine(d, at)) && (r.Failure? ==> r.error == BadReserved || r.error == BadAnchorId)
  {
    RangeOffsets();
    RecordField(RANGE, d, at, 0);
    RecordField(RANGE, d, at, 4);
    hide Unpack, OffsetOf, Size, U16At;
  }

  lemma {:induction false} RangesFine(d: seq<byte>, at: nat, n: nat)
    requires at + RANGE_SIZE * n <= |d|
    ensures var r := DecodeRanges(d, at, n);
      && (r.Success? <==> forall j :: 0 <= j < n ==> RangeFine(d, at + 9 * j))
      && (r.Failure? ==> r.error == BadReserved || r.error == BadAnchorId)
  {
    hide DecodeRange, RangeFine;
    if n > 0 {
      RangesFine(d, at, n - 1);
      RangeAccepted(d, at + RANGE_SIZE * (n - 1));
    }
  }

  lemma CycleFine(d: seq<byte>, at: nat, seqNo: int, tTagMs: int, anchorN: nat, k: nat)
    requires at + BlockSize(anchorN) <= |d|
    ensures var r := DecodeCycle(d, at, seqNo, tTagMs, anchorN, k);
      (r.Success? <==> BlockFine(d, at, anchorN)) && (r.Failure? ==> r.error == BadReserved || r.error == BadAnchorId)
  {
    hide RangeFine, DecodeRanges, Unpack, Size, OffsetOf, U16At, U32At, I16At, I32At;
    CycleFields(d, at, 0, 0, []);
    RangesFine(d, at + CYCLE_SIZE, anchorN);
  }

  lemma {:induction false} CyclesFine(d: seq<byte>, seqNo: int, tTagMs: int, anchorN: nat, n: nat)
    requires PacketSize(n, anchorN) <= |d|
    ensures var r := DecodeCycles(d, seqNo, tTagMs, anchorN, n);
      && (r.Success? <==> forall k :: 0 <= k < n ==> BlockFine(d, CycleStart(k, anchorN), anchorN))
      && (r.Failure? ==> r.error == BadReserved || r.error == BadAnchorId)
  {
    hide DecodeCycle, BlockFine, CycleStart;
    if n > 0 {
      PacketSizeStep(n - 1, anchorN);
      CyclesFine(d, seqNo, tTagMs, anchorN, n - 1);
      StartIsSize(n - 1, anchorN);
      CycleFine(d, PacketSize(n - 1, anchorN), seqNo, tTagMs, anchorN, n - 1);
    }
  }

  /**
   * A datagram is accepted exactly when its header is in order and every cycle's flags, every range's anchor and filter
   * mark are known ones; a bad header is refused for its first fault, the rest only for unknown bits or anchors.
   */
  lemma AcceptedIff(d: seq<byte>)
    ensures Decode(d).Success? <==>
      HeaderRefusal(d).None? && forall k :: 0 <= k < d[20] ==> BlockFine(d, CycleStart(k, d[21]), d[21])
    ensures HeaderRefusal(d).Some? ==> Decode(d) == Failure(HeaderRefusal(d).value)
    ensures HeaderRefusal(d).None? && Decode(d).Failure? ==> Decode(d).error == BadReserved || Decode(d).error == BadAnchorId
  {
    hide DecodeCycles, UnpackHeader, BlockFine, CycleStart, PacketSize;
    if |d| >= 24 {
      HeaderReads(d);
      MagicIsBytes(d);
      StartIsSize(d[20], d[21]);
      TagIdBytes(d);
      hide U32At, U16At;
      if HeaderRefusal(d).None? {
        CyclesFine(d, U32At(d, 12), U32At(d, 16), d[21], d[20]);
      }
    }
  }
}
