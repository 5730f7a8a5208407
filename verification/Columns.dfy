/** The column-oriented form in which live frames and stored tracks must agree (columns.py). Lengths stay in millimetres. */
module Columns {
  import opened Prelude
  import opened Packets
  import opened LiveTypes
  import opened TelemetryTables

  /** The keyword arguments of `FixColumns.add`. */
  datatype FixInput = FixInput(
    tMs: int, seqN: int, dtMs: Option<int>, ok: bool, xMm: Option<int>, yMm: Option<int>, zMm: Option<int>,
    used: Option<int>, residMm: Option<int>, kfOk: bool, kfUpdated: bool, kfInit: bool,
    kfXMm: Option<int>, kfYMm: Option<int>, kfZMm: Option<int>, kfSigmaMm: Option<int>,
    kfUsed: Option<int>, kfRejected: Option<int>)

  /** One cycle across all eighteen columns. */
  datatype FixPoint = FixPoint(
    t: int, seqN: int, dt: Option<int>, x: Option<int>, y: Option<int>, z: Option<int>, ok: bool,
    used: Option<int>, resid: Option<int>, kx: Option<int>, ky: Option<int>, kz: Option<int>,
    kok: bool, kupd: bool, kinit: bool, ksig: Option<int>, kused: Option<int>, krej: Option<int>)

  function OnlyIf(condition: bool, value: Option<int>): Option<int> {
    if condition then value else None
  }

  /** Positions of failed fixes and of invalid filters are left out, whatever values came with them. */
  function PointOf(f: FixInput): FixPoint {
    FixPoint(f.tMs, f.seqN, f.dtMs, OnlyIf(f.ok, f.xMm), OnlyIf(f.ok, f.yMm), OnlyIf(f.ok, f.zMm), f.ok,
             f.used, f.residMm, OnlyIf(f.kfOk, f.kfXMm), OnlyIf(f.kfOk, f.kfYMm), OnlyIf(f.kfOk, f.kfZMm),
             f.kfOk, f.kfOk && f.kfUpdated, f.kfOk && f.kfInit, OnlyIf(f.kfOk, f.kfSigmaMm), f.kfUsed, f.kfRejected)
  }

  function InputOfCycle(c: CycleRecord, tMs: int, seqN: int, dtMs: Option<int>): FixInput {
    FixInput(tMs, seqN, dtMs, c.FixOk(), Some(c.xMm), Some(c.yMm), Some(c.zMm), Some(c.usedCount), Some(c.residualMm),
             c.KfOk(), c.KfUpdated(), c.KfInit(), Some(c.kfXMm), Some(c.kfYMm), Some(c.kfZMm), Some(c.kfSigmaMm),
             Some(c.kfUsed), Some(c.kfRejected))
  }

  function InputOfRow(r: FixRow, tMs: int, seqN: int, dtMs: Option<int>): FixInput {
    FixInput(tMs, seqN, dtMs, r.ok, r.xMm, r.yMm, r.zMm, Some(r.usedCount), Some(r.residualMm),
             r.kfOk, r.kfUpdated, r.kfInit, r.kfXMm, r.kfYMm, r.kfZMm, r.kfSigmaMm, Some(r.kfUsed), Some(r.kfRejected))
  }

  /** Storing a cycle and reading it back shows what showing it directly would have. */
  lemma StoredPointIsLivePoint(c: CycleRecord, recvAt: int, tMs: int, seqN: int, dtMs: Option<int>)
    ensures PointOf(InputOfRow(FixRowOf(c, recvAt), tMs, seqN, dtMs)) == PointOf(InputOfCycle(c, tMs, seqN, dtMs))
  {}

  function LivePoint(c: LiveCycle): FixPoint {
    PointOf(InputOfCycle(c.record, c.tMs, c.seqN, c.dtMs))
  }

  function LivePoints(cycles: seq<LiveCycle>): (r: seq<FixPoint>)
    ensures |r| == |cycles|
    ensures forall i :: 0 <= i < |cycles| ==> r[i] == LivePoint(cycles[i])
  {
    if cycles == [] then [] else LivePoints(cycles[..|cycles| - 1]) + [LivePoint(cycles[|cycles| - 1])]
  }

  // ---------------------------------------------------------------- what an entry shows of its record

  function Assembled(high: int, weight: int, low: int): int {
    2 * weight * high + weight + low
  }

  /** The bit of that weight is set: the flags are some higher bits, the weight and some lower bits. */
  ghost predicate FlagSet(flags: int, weight: int) {
    exists high: int, low: int :: 0 <= low < weight && flags == Assembled(high, weight, low)
  }

  ghost function WhenSet(flags: int, weight: int, value: int): Option<int> {
    if FlagSet(flags, weight) then Some(value) else None
  }

  /** The point in terms of the record: bit 0 for the fix, bits 2, 3 and 4 for the filter. */
  ghost predicate PointShows(p: FixPoint, c: CycleRecord, tMs: int, seqN: int, dtMs: Option<int>) {
    && p.t == tMs && p.seqN == seqN && p.dt == dtMs
    && (p.ok <==> FlagSet(c.fixFlags, 1)) && p.used == Some(c.usedCount) && p.resid == Some(c.residualMm)
    && p.x == WhenSet(c.fixFlags, 1, c.xMm) && p.y == WhenSet(c.fixFlags, 1, c.yMm) && p.z == WhenSet(c.fixFlags, 1, c.zMm)
    && (p.kok <==> FlagSet(c.fixFlags, 4))
    && (p.kupd <==> FlagSet(c.fixFlags, 4) && FlagSet(c.fixFlags, 8))
    && (p.kinit <==> FlagSet(c.fixFlags, 4) && FlagSet(c.fixFlags, 16))
    && p.kx == WhenSet(c.fixFlags, 4, c.kfXMm) && p.ky == WhenSet(c.fixFlags, 4, c.kfYMm)
    && p.kz == WhenSet(c.fixFlags, 4, c.kfZMm) && p.ksig == WhenSet(c.fixFlags, 4, c.kfSigmaMm)
    && p.kused == Some(c.kfUsed) && p.krej == Some(c.kfRejected)
  }

  lemma FlagsRead(flags: int)
    ensures FlagSet(flags, 1) <==> flags % 2 == 1
    ensures FlagSet(flags, 4) <==> flags / 4 % 2 == 1
    ensures FlagSet(flags, 8) <==> flags / 8 % 2 == 1
    ensures FlagSet(flags, 16) <==> flags / 16 % 2 == 1
  {
    FlagRead1(flags);
    FlagRead4(flags);
    FlagRead8(flags);
    FlagRead16(flags);
  }

  lemma FlagRead1(flags: int)
    ensures FlagSet(flags, 1) <==> flags % 2 == 1
  {
    if flags % 2 == 1 {
      assert flags == Assembled(flags / 2, 1, flags % 1);
    }
    if FlagSet(flags, 1) {
      var high: int, low: int :| 0 <= low < 1 && flags == Assembled(high, 1, low);
      assert flags == 2 * high + 1;
    }
  }

  lemma FlagRead2(flags: int)
    ensures FlagSet(flags, 2) <==> flags / 2 % 2 == 1
  {
    if flags / 2 % 2 == 1 {
      assert flags == Assembled(flags / 4, 2, flags % 2);
    }
    if FlagSet(flags, 2) {
      var high: int, low: int :| 0 <= low < 2 && flags == Assembled(high, 2, low);
      assert flags / 2 == 2 * high + 1;
    }
  }

  lemma FlagRead4(flags: int)
    ensures FlagSet(flags, 4) <==> flags / 4 % 2 == 1
  {
    if flags / 4 % 2 == 1 {
      assert flags == Assembled(flags / 8, 4, flags % 4);
    }
    if FlagSet(flags, 4) {
      var high: int, low: int :| 0 <= low < 4 && flags == Assembled(high, 4, low);
      assert flags / 4 == 2 * high + 1;
    }
  }

  lemma FlagRead8(flags: int)
    ensures FlagSet(flags, 8) <==> flags / 8 % 2 == 1
  {
    if flags / 8 % 2 == 1 {
      assert flags == Assembled(flags / 16, 8, flags % 8);
    }
    if FlagSet(flags, 8) {
      var high: int, low: int :| 0 <= low < 8 && flags == Assembled(high, 8, low);
      assert flags / 8 == 2 * high + 1;
    }
  }

  lemma FlagRead16(flags: int)
    ensures FlagSet(flags, 16) <==> flags / 16 % 2 == 1
  {
    if flags / 16 % 2 == 1 {
      assert flags == Assembled(flags / 32, 16, flags % 16);
    }
    if FlagSet(flags, 16) {
      var high: int, low: int :| 0 <= low < 16 && flags == Assembled(high, 16, low);
      assert flags / 16 == 2 * high + 1;
    }
  }

  /** Live, every entry is what its record says. */
  lemma LivePointShows(c: LiveCycle)
    ensures PointShows(LivePoint(c), c.record, c.tMs, c.seqN, c.dtMs)
  {
    FlagsRead(c.record.fixFlags);
    hide FlagSet;
  }

  /** Read back from the row a record was stored as, every entry is what the record says. */
  lemma StoredPointShows(c: CycleRecord, recvAt: int, tMs: int, seqN: int, dtMs: Option<int>)
    ensures PointShows(PointOf(InputOfRow(FixRowOf(c, recvAt), tMs, seqN, dtMs)), c, tMs, seqN, dtMs)
  {
    StoredPointIsLivePoint(c, recvAt, tMs, seqN, dtMs);
    LivePointShows(LiveCycle(c, tMs, seqN, dtMs));
  }

  /** What no column shows of a stored row: how the fix was found, by bit 1, when it has one, and the times it came with. */
  lemma StoredRowKeeps(c: CycleRecord, recvAt: int)
    ensures var row := FixRowOf(c, recvAt);
      && row.tTagMs == c.tTagMs && row.recvAt == recvAt
      && row.method_ == if !FlagSet(c.fixFlags, 1) then None
                        else if FlagSet(c.fixFlags, 2) then Some(Trilat3d) else Some(Trilat2d)
  {
    FlagRead1(c.fixFlags);
    FlagRead2(c.fixFlags);
    hide FlagSet;
  }

  /** One range of one anchor. */
  datatype RangePoint = RangePoint(t: int, seqN: int, d: Option<int>, st: int, el: int, kf: int)

  function RangePointOf(tMs: int, seqN: int, status: int, distanceMm: Option<int>, elapsedMs: int, kf: int): RangePoint {
    RangePoint(tMs, seqN, OnlyIf(status == STATUS_OK, distanceMm), status, elapsedMs, kf)
  }

  /** `RangeTable`: the ranges of each anchor in the order they were added. */
  type RangeTable = map<int, seq<RangePoint>>

  function RangesFor(table: RangeTable, anchor: int): seq<RangePoint> {
    if anchor in table then table[anchor] else []
  }

  function AddRange(table: RangeTable, anchor: int, p: RangePoint): RangeTable {
    table[anchor := RangesFor(table, anchor) + [p]]
  }

  function AddRanges(table: RangeTable, tMs: int, seqN: int, rs: seq<RangeRecord>): RangeTable {
    if rs == [] then table
    else
      var r := rs[|rs| - 1];
      AddRange(AddRanges(table, tMs, seqN, rs[..|rs| - 1]), r.anchorId,
               RangePointOf(tMs, seqN, r.status, Some(r.distanceMm), r.elapsedMs, r.kf))
  }

  /** The range half of `columns_of`. */
  function LiveRanges(cycles: seq<LiveCycle>): RangeTable {
    if cycles == [] then map[]
    else
      var c := cycles[|cycles| - 1];
      AddRanges(LiveRanges(cycles[..|cycles| - 1]), c.tMs, c.seqN, c.record.ranges)
  }

  /** The eighteen lists of `FixColumns`, grown in step. */
  class FixColumns {
    var t: seq<int>
    var seqN: seq<int>
    var dt: seq<Option<int>>
    var x: seq<Option<int>>
    var y: seq<Option<int>>
    var z: seq<Option<int>>
    var ok: seq<bool>
    var used: seq<Option<int>>
    var resid: seq<Option<int>>
    var kx: seq<Option<int>>
    var ky: seq<Option<int>>
    var kz: seq<Option<int>>
    var kok: seq<bool>
    var kupd: seq<bool>
    var kinit: seq<bool>
    var ksig: seq<Option<int>>
    var kused: seq<Option<int>>
    var krej: seq<Option<int>>

    /** Every column has one entry per cycle. */
    ghost predicate Aligned()
      reads this
    {
      && |seqN| == |t| && |dt| == |t| && |x| == |t| && |y| == |t| && |z| == |t| && |ok| == |t| && |used| == |t|
      && |resid| == |t| && |kx| == |t| && |ky| == |t| && |kz| == |t| && |kok| == |t| && |kupd| == |t|
      && |kinit| == |t| && |ksig| == |t| && |kused| == |t| && |krej| == |t|
    }

    ghost function Row(i: nat): FixPoint
      reads this
      requires Aligned() && i < |t|
    {
      FixPoint(t[i], seqN[i], dt[i], x[i], y[i], z[i], ok[i], used[i], resid[i], kx[i], ky[i], kz[i],
               kok[i], kupd[i], kinit[i], ksig[i], kused[i], krej[i])
    }

    /** The columns hold exactly these points. */
    ghost predicate Shows(points: seq<FixPoint>)
      reads this
    {
      Aligned() && |t| == |points| && forall i :: 0 <= i < |points| ==> Row(i) == points[i]
    }

    constructor ()
      ensures Shows([])
    {
      t, seqN, dt, x, y, z, ok, used, resid := [], [], [], [], [], [], [], [], [];
      kx, ky, kz, kok, kupd, kinit, ksig, kused, krej := [], [], [], [], [], [], [], [], [];
    }

    /** The columns of the cycle and its least-squares fix. */
    method AddFix(f: FixInput)
      modifies this`t, this`seqN, this`dt, this`x, this`y, this`z, this`ok, this`used, this`resid
      ensures t == old(t) + [f.tMs] && seqN == old(seqN) + [f.seqN] && dt == old(dt) + [f.dtMs]
      ensures x == old(x) + [OnlyIf(f.ok, f.xMm)] && y == old(y) + [OnlyIf(f.ok, f.yMm)] && z == old(z) + [OnlyIf(f.ok, f.zMm)]
      ensures ok == old(ok) + [f.ok] && used == old(used) + [f.used] && resid == old(resid) + [f.residMm]
    {
      t, seqN, dt := t + [f.tMs], seqN + [f.seqN], dt + [f.dtMs];
      x := x + [if f.ok then f.xMm else None];
      y := y + [if f.ok then f.yMm else None];
      z := z + [if f.ok then f.zMm else None];
      ok, used, resid := ok + [f.ok], used + [f.used], resid + [f.residMm];
    }

    /** The columns of the tag's filter. */
    method AddFilter(f: FixInput)
      modifies this`kx, this`ky, this`kz, this`kok, this`kupd, this`kinit, this`ksig, this`kused, this`krej
      ensures kx == old(kx) + [OnlyIf(f.kfOk, f.kfXMm)] && ky == old(ky) + [OnlyIf(f.kfOk, f.kfYMm)]
      ensures kz == old(kz) + [OnlyIf(f.kfOk, f.kfZMm)] && kok == old(kok) + [f.kfOk]
      ensures kupd == old(kupd) + [f.kfOk && f.kfUpdated] && kinit == old(kinit) + [f.kfOk && f.kfInit]
      ensures ksig == old(ksig) + [OnlyIf(f.kfOk, f.kfSigmaMm)]
      ensures kused == old(kused) + [f.kfUsed] && krej == old(krej) + [f.kfRejected]
    {
      kx := kx + [if f.kfOk then f.kfXMm else None];
      ky := ky + [if f.kfOk then f.kfYMm else None];
      kz := kz + [if f.kfOk then f.kfZMm else None];
      kok, kupd, kinit := kok + [f.kfOk], kupd + [f.kfOk && f.kfUpdated], kinit + [f.kfOk && f.kfInit];
      ksig := ksig + [if f.kfOk then f.kfSigmaMm else None];
      kused, krej := kused + [f.kfUsed], krej + [f.kfRejected];
    }

    method Add(f: FixInput, ghost before: seq<FixPoint>)
      requires Shows(before)
      modifies this
      ensures Shows(before + [PointOf(f)])
    {
      hide OnlyIf;
      AddFix(f);
      AddFilter(f);
      ghost var after := before + [PointOf(f)];
      forall i | 0 <= i < |after| ensures Row(i) == after[i] {
        if i < |before| {
          assert old(Row(i)) == before[i];
        }
      }
    }
  }

  /** The ranges of one anchor as the records have them, one after the other; a distance only with a good status. */
  function AnchorPoints(tMs: int, seqN: int, rs: seq<RangeRecord>, anchor: int): seq<RangePoint> {
    if rs == [] then []
    else
      var r := rs[|rs| - 1];
      AnchorPoints(tMs, seqN, rs[..|rs| - 1], anchor)
      + if r.anchorId != anchor then []
        else [RangePoint(tMs, seqN, if r.status == 0 then Some(r.distanceMm) else None, r.status, r.elapsedMs, r.kf)]
  }

  function AllAnchorPoints(cycles: seq<LiveCycle>, anchor: int): seq<RangePoint> {
    if cycles == [] then []
    else
      var c := cycles[|cycles| - 1];
      AllAnchorPoints(cycles[..|cycles| - 1], anchor) + AnchorPoints(c.tMs, c.seqN, c.record.ranges, anchor)
  }

  lemma {:induction false} AddedPoints(table: RangeTable, tMs: int, seqN: int, rs: seq<RangeRecord>, anchor: int)
    ensures RangesFor(AddRanges(table, tMs, seqN, rs), anchor) == RangesFor(table, anchor) + AnchorPoints(tMs, seqN, rs, anchor)
  {
    if rs != [] {
      AddedPoints(table, tMs, seqN, rs[..|rs| - 1], anchor);
    }
  }

  /** The live table holds, anchor by anchor, the ranges of the cycles in order. */
  lemma {:induction false} LiveRangesShow(cycles: seq<LiveCycle>, anchor: int)
    ensures RangesFor(LiveRanges(cycles), anchor) == AllAnchorPoints(cycles, anchor)
  {
    if cycles != [] {
      var c := cycles[|cycles| - 1];
      LiveRangesShow(cycles[..|cycles| - 1], anchor);
      AddedPoints(LiveRanges(cycles[..|cycles| - 1]), c.tMs, c.seqN, c.record.ranges, anchor);
    }
  }

  /** `columns_of`: what a frame carries for its cycles. */
  method ColumnsOf(cycles: seq<LiveCycle>) returns (fix: FixColumns, ranges: RangeTable)
    ensures fresh(fix) && fix.Shows(LivePoints(cycles))
    ensures ranges == LiveRanges(cycles)
    ensures fix.Aligned() && |fix.t| == |cycles|
    ensures forall i :: 0 <= i < |cycles| ==>
      PointShows(fix.Row(i), cycles[i].record, cycles[i].tMs, cycles[i].seqN, cycles[i].dtMs)
    ensures forall anchor :: RangesFor(ranges, anchor) == AllAnchorPoints(cycles, anchor)
  {
    fix := new FixColumns();
    ranges := map[];
    for i := 0 to |cycles|
      invariant fresh(fix) && fix.Shows(LivePoints(cycles[..i]))
      invariant ranges == LiveRanges(cycles[..i])
    {
      assert cycles[..i + 1][..i] == cycles[..i];
      var c := cycles[i];
      fix.Add(InputOfCycle(c.record, c.tMs, c.seqN, c.dtMs), LivePoints(cycles[..i]));
      for k := 0 to |c.record.ranges|
        invariant ranges == AddRanges(LiveRanges(cycles[..i]), c.tMs, c.seqN, c.record.ranges[..k])
      {
        assert c.record.ranges[..k + 1][..k] == c.record.ranges[..k];
        var r := c.record.ranges[k];
        ranges := AddRange(ranges, r.anchorId,
                           RangePointOf(c.tMs, c.seqN, r.status, Some(r.distanceMm), r.elapsedMs, r.kf));
      }
      assert c.record.ranges[..|c.record.ranges|] == c.record.ranges;
    }
    assert cycles[..|cycles|] == cycles;
    ColumnsShow(fix, cycles);
    forall anchor ensures RangesFor(ranges, anchor) == AllAnchorPoints(cycles, anchor) {
      LiveRangesShow(cycles, anchor);
    }
  }

  lemma ColumnsShow(fix: FixColumns, cycles: seq<LiveCycle>)
    requires fix.Shows(LivePoints(cycles))
    ensures fix.Aligned() && |fix.t| == |cycles|
    ensures forall i :: 0 <= i < |cycles| ==>
      PointShows(fix.Row(i), cycles[i].record, cycles[i].tMs, cycles[i].seqN, cycles[i].dtMs)
  {
    hide PointShows, LivePoint, LivePoints, FixColumns.Row;
    forall i | 0 <= i < |cycles|
      ensures PointShows(fix.Row(i), cycles[i].record, cycles[i].tMs, cycles[i].seqN, cycles[i].dtMs)
    {
      LivePointShows(cycles[i]);
      assert fix.Row(i) == LivePoints(cycles)[i] == LivePoint(cycles[i]);
    }
  }
}
