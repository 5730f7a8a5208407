/** Reading a stored session back: unrolling by window, decimation, and the columns of a track (store/query.py). */
module Queries {
  import opened Prelude
  import opened TelemetryTables
  import opened Columns

  const MAX_POINTS_MIN: nat := 2
  const RANGES_TOTAL_POINTS_LIMIT: nat := 20_000

  /** The position_fix rows of one session by their stored sequence number. */
  type FixTable = map<int, FixRow>

  function SessionFixes(d: CycleTables, sessionId: int): FixTable {
    map k | k in d.fixes && k.0 == sessionId :: k.1 := d.fixes[k]
  }

  predicate AllU32(keys: set<int>) {
    forall k :: k in keys ==> IsU32(k)
  }

  // ---------------------------------------------------------------- unrolling

  /** `max(seq) - min(seq) > 2^31 - 1` over the session. */
  predicate SeqWrapped(keys: set<int>) {
    exists a, b :: a in keys && b in keys && a - b > HALF - 1
  }

  function SeqN(wrapped: bool, seqNo: int): int {
    if wrapped && seqNo < HALF then seqNo + FULL else seqNo
  }

  lemma SeqNInjective(wrapped: bool, a: int, b: int)
    requires IsU32(a) && IsU32(b) && SeqN(wrapped, a) == SeqN(wrapped, b)
    ensures a == b
  {}

  lemma {:induction false} LeastExists(keys: set<int>, wrapped: bool) returns (least: int)
    requires keys != {}
    ensures least in keys && forall k :: k in keys ==> SeqN(wrapped, least) <= SeqN(wrapped, k)
  {
    HasNumber(keys);
    least :| least in keys;
    if keys != {least} {
      var rest := LeastExists(keys - {least}, wrapped);
      if SeqN(wrapped, rest) < SeqN(wrapped, least) {
        least := rest;
      }
    }
  }

  /** The number that comes first. */
  function Least(keys: set<int>, wrapped: bool): (least: int)
    requires keys != {} && AllU32(keys)
    ensures least in keys && forall k :: k in keys ==> SeqN(wrapped, least) <= SeqN(wrapped, k)
  {
    assert exists least :: least in keys && forall k :: k in keys ==> SeqN(wrapped, least) <= SeqN(wrapped, k) by {
      var least := LeastExists(keys, wrapped);
    }
    var least :| least in keys && forall k :: k in keys ==> SeqN(wrapped, least) <= SeqN(wrapped, k);
    least
  }

  /** The stored sequence numbers in the order of their unrolled values. */
  function InOrder(keys: set<int>, wrapped: bool): (r: seq<int>)
    requires AllU32(keys)
    ensures |r| == |keys|
    ensures forall k :: k in r <==> k in keys
  {
    if keys == {} then []
    else
      var least := Least(keys, wrapped);
      assert keys == (keys - {least}) + {least};
      [least] + InOrder(keys - {least}, wrapped)
  }

  predicate Indexes(order: seq<int>, rows: FixTable) {
    forall k :: 0 <= k < |order| ==> order[k] in rows
  }

  /** How often the raw time has dropped by more than 2^31 up to position `i`: the running sum of `t_wrap`. */
  function TimeWraps(order: seq<int>, rows: FixTable, i: nat): nat
    requires i < |order| && Indexes(order, rows)
  {
    if i == 0 then 0
    else TimeWraps(order, rows, i - 1) + if rows[order[i]].tTagMs < rows[order[i - 1]].tTagMs - HALF then 1 else 0
  }

  function TimeN(order: seq<int>, rows: FixTable, i: nat): int
    requires i < |order| && Indexes(order, rows)
  {
    rows[order[i]].tTagMs + FULL * TimeWraps(order, rows, i)
  }

  /** A row with its unrolled number and time, and its period when the previous number is there. */
  datatype Row = Row(seqNo: int, seqN: int, tN: int, dt: Option<int>, fix: FixRow)

  function RowAt(order: seq<int>, rows: FixTable, wrapped: bool, i: nat): Row
    requires i < |order| && Indexes(order, rows)
  {
    Row(order[i], SeqN(wrapped, order[i]), TimeN(order, rows, i),
        if i > 0 && SeqN(wrapped, order[i]) - SeqN(wrapped, order[i - 1]) == 1
        then Some(TimeN(order, rows, i) - TimeN(order, rows, i - 1)) else None,
        rows[order[i]])
  }

  /** The session's rows unrolled, in order. */
  function Normalized(rows: FixTable): (r: seq<Row>)
    requires AllU32(rows.Keys)
    ensures |r| == |rows|
  {
    var wrapped := SeqWrapped(rows.Keys);
    var order := InOrder(rows.Keys, wrapped);
    seq(|order|, i requires 0 <= i < |order| => RowAt(order, rows, wrapped, i))
  }

  // ---------------------------------------------------------------- range and decimation

  predicate InRange(r: Row, fromMs: Option<int>, toMs: Option<int>) {
    (fromMs.None? || r.tN >= fromMs.value) && (toMs.None? || r.tN <= toMs.value)
  }

  function Within(rows: seq<Row>, fromMs: Option<int>, toMs: Option<int>): (r: seq<Row>)
    ensures |r| <= |rows|
    ensures forall x :: x in r <==> x in rows && InRange(x, fromMs, toMs)
  {
    if rows == [] then []
    else
      var front, last := rows[..|rows| - 1], rows[|rows| - 1];
      assert rows == front + [last];
      if InRange(last, fromMs, toMs) then Within(front, fromMs, toMs) + [last] else Within(front, fromMs, toMs)
  }

  function CeilDiv(a: int, b: int): int
    requires b > 0
  {
    -((-a) / b)
  }

  /** `stride_for`; `None` is the ValueError for fewer than two points. */
  function StrideFor(total: nat, maxPoints: int): Option<int> {
    if maxPoints < MAX_POINTS_MIN then None
    else if total <= maxPoints then Some(1)
    else Some(CeilDiv(total - 1, maxPoints - 1))
  }

  /** `_STRIDE` in SQL, with its integer division. */
  function SqlStride(total: nat, maxPoints: nat): nat
    requires maxPoints >= MAX_POINTS_MIN
  {
    if total <= maxPoints then 1 else (total + maxPoints - 3) / (maxPoints - 1)
  }

  predicate KeepsRow(rn: nat, stride: nat, total: nat)
    requires stride > 0
  {
    rn % stride == 0 || rn == total - 1
  }

  /** The rows among the first `n` that decimation keeps. */
  function Kept<T>(rows: seq<T>, n: nat, stride: nat): (r: seq<T>)
    requires n <= |rows| && stride > 0
    ensures |r| <= n
  {
    if n == 0 then []
    else if KeepsRow(n - 1, stride, |rows|) then Kept(rows, n - 1, stride) + [rows[n - 1]]
    else Kept(rows, n - 1, stride)
  }

  lemma SqlStridePositive(total: nat, maxPoints: nat)
    requires maxPoints >= MAX_POINTS_MIN
    ensures SqlStride(total, maxPoints) > 0
  {
    if total > maxPoints {
      DivIsPositive(total + maxPoints - 3, maxPoints - 1);
    }
  }

  lemma DivIsPositive(a: int, b: int)
    requires a >= b > 0
    ensures a / b > 0
  {
    var q := a / b;
    assert a == b * q + a % b;
    assert q <= 0 ==> b * q <= 0;
  }

  /** A decimated answer: how many rows there were, the stride, and the rows kept. */
  datatype Decimated<T> = Decimated(total: nat, stride: nat, data: seq<T>)

  function Decimate<T>(rows: seq<T>, maxPoints: nat): Decimated<T>
    requires maxPoints >= MAX_POINTS_MIN
  {
    SqlStridePositive(|rows|, maxPoints);
    var stride := SqlStride(|rows|, maxPoints);
    Decimated(|rows|, stride, Kept(rows, |rows|, stride))
  }

  /** The rows behind `track`. */
  function TrackRows(rows: FixTable, fromMs: Option<int>, toMs: Option<int>, maxPoints: nat): Decimated<Row>
    requires AllU32(rows.Keys) && maxPoints >= MAX_POINTS_MIN
  {
    Decimate(Within(Normalized(rows), fromMs, toMs), maxPoints)
  }

  function StoredPoint(r: Row): FixPoint {
    PointOf(InputOfRow(r.fix, r.tN, r.seqN, r.dt))
  }

  function StoredPoints(rows: seq<Row>): (r: seq<FixPoint>)
    ensures |r| == |rows|
    ensures forall i :: 0 <= i < |rows| ==> r[i] == StoredPoint(rows[i])
  {
    if rows == [] then [] else StoredPoints(rows[..|rows| - 1]) + [StoredPoint(rows[|rows| - 1])]
  }

  /** A row that was stored from a record shows what the record says. */
  lemma TrackShows(fix: FixColumns, data: seq<Row>)
    requires fix.Shows(StoredPoints(data))
    ensures fix.Aligned() && |fix.t| == |data|
    ensures forall i, c, recvAt :: 0 <= i < |data| && data[i].fix == FixRowOf(c, recvAt) ==>
      PointShows(fix.Row(i), c, data[i].tN, data[i].seqN, data[i].dt)
  {
    hide PointShows, PointOf, InputOfRow, FixRowOf, StoredPoints, FixColumns.Row;
    forall i, c, recvAt | 0 <= i < |data| && data[i].fix == FixRowOf(c, recvAt)
      ensures PointShows(fix.Row(i), c, data[i].tN, data[i].seqN, data[i].dt)
    {
      StoredPointShows(c, recvAt, data[i].tN, data[i].seqN, data[i].dt);
      assert fix.Row(i) == StoredPoints(data)[i] == StoredPoint(data[i]);
    }
  }

  /** `track`: total and stride come with the rows, so an empty answer reports none and stride 1. */
  method Track(rows: FixTable, fromMs: Option<int>, toMs: Option<int>, maxPoints: nat)
    returns (total: nat, stride: nat, fix: FixColumns)
    requires AllU32(rows.Keys) && maxPoints >= MAX_POINTS_MIN
    ensures var answer := TrackRows(rows, fromMs, toMs, maxPoints);
      total == answer.total && stride == answer.stride && fix.Shows(StoredPoints(answer.data))
    ensures fresh(fix) && fix.Aligned()
    ensures var data := TrackRows(rows, fromMs, toMs, maxPoints).data;
      && |fix.t| == |data|
      && forall i, c, recvAt :: 0 <= i < |data| && data[i].fix == FixRowOf(c, recvAt) ==>
           PointShows(fix.Row(i), c, data[i].tN, data[i].seqN, data[i].dt)
  {
    var answer := TrackRows(rows, fromMs, toMs, maxPoints);
    var kept := answer.data;
    fix := new FixColumns();
    for i := 0 to |kept|
      invariant fresh(fix) && fix.Shows(StoredPoints(kept[..i]))
    {
      assert kept[..i + 1][..i] == kept[..i];
      fix.Add(InputOfRow(kept[i].fix, kept[i].tN, kept[i].seqN, kept[i].dt), StoredPoints(kept[..i]));
    }
    assert kept[..|kept|] == kept;
    TrackShows(fix, kept);
    if kept == [] {
      KeepsSomething(Within(Normalized(rows), fromMs, toMs), answer.stride);
      return 0, 1, fix;
    }
    return answer.total, answer.stride, fix;
  }

  // ---------------------------------------------------------------- what decimation promises

  lemma {:induction false} KeptPrefix<T>(rows: seq<T>, m: nat, n: nat, stride: nat)
    requires m <= n <= |rows| && stride > 0
    ensures Kept(rows, m, stride) <= Kept(rows, n, stride)
    decreases n
  {
    if m < n {
      KeptPrefix(rows, m, n - 1, stride);
    }
  }

  /** Something is kept whenever there is something: the first row, and the last. */
  lemma KeepsSomething<T>(rows: seq<T>, stride: nat)
    requires stride > 0
    ensures rows != [] ==>
      var kept := Kept(rows, |rows|, stride);
      kept != [] && kept[0] == rows[0] && kept[|kept| - 1] == rows[|rows| - 1]
  {
    if rows != [] {
      KeptPrefix(rows, 1, |rows|, stride);
      assert 0 % stride == 0;
      assert Kept(rows, 1, stride) == [rows[0]];
    }
  }

  /** With stride 1 every row is kept. */
  lemma {:induction false} StrideOneKeepsAll<T>(rows: seq<T>, n: nat)
    requires n <= |rows|
    ensures Kept(rows, n, 1) == rows[..n]
  {
    if n > 0 {
      StrideOneKeepsAll(rows, n - 1);
      assert rows[..n] == rows[..n - 1] + [rows[n - 1]];
    }
  }

  lemma MultipleBetween(n: int, c: int, s: int)
    requires s > 0 && (c - 1) * s < n <= c * s
    ensures n % s == 0 <==> n == c * s
  {
    var k := n / s;
    assert n == k * s + n % s;
    MulOrder(k, c - 1, s);
    MulOrder(c + 1, k, s);
    MulMod(c, s);
  }

  lemma MulMonotone(a: int, b: int, s: int)
    requires a <= b && s > 0
    ensures a * s <= b * s
  {}

  lemma MulOrder(a: int, b: int, s: int)
    requires s > 0
    ensures a <= b ==> a * s <= b * s
  {
    if a <= b {
      MulMonotone(a, b, s);
    }
  }

  lemma MulMod(c: int, s: int)
    requires s > 0
    ensures (c * s) % s == 0
  {
    var q := (c * s) / s;
    assert c * s == q * s + (c * s) % s;
    MulOrder(q + 1, c, s);
    MulOrder(c + 1, q, s);
  }

  /** Before the last row, `c` rows are kept exactly when `c` is `n / stride` rounded up. */
  lemma {:induction false} KeptCount<T>(rows: seq<T>, n: nat, stride: nat)
    requires n < |rows| && stride > 0
    ensures var c := |Kept(rows, n, stride)|; (c - 1) * stride < n <= c * stride || n == c == 0
  {
    if n > 0 {
      KeptCount(rows, n - 1, stride);
      CountStep(n, |Kept(rows, n - 1, stride)|, stride);
    }
  }

  /** One more row before the last is kept exactly when the rounded-up quotient grows. */
  lemma CountStep(n: int, c: int, s: int)
    requires n > 0 && s > 0 && ((c - 1) * s < n - 1 <= c * s || n - 1 == c == 0)
    ensures var d := if (n - 1) % s == 0 then c + 1 else c; (d - 1) * s < n <= d * s
  {
    if n > 1 {
      MultipleBetween(n - 1, c, s);
    } else {
      assert 0 % s == 0;
    }
    assert (c + 1) * s == c * s + s;
    assert (c - 1) * s == c * s - s;
  }

  lemma StrideCovers(total: nat, maxPoints: nat)
    requires maxPoints >= MAX_POINTS_MIN && total > maxPoints
    ensures SqlStride(total, maxPoints) * (maxPoints - 1) >= total - 1
  {
    var q, s := maxPoints - 1, SqlStride(total, maxPoints);
    assert total - 1 + q - 1 == s * q + (total - 1 + q - 1) % q;
  }

  /** At most `maxPoints` rows come back, first and last among them. */
  lemma DecimationFits<T>(rows: seq<T>, maxPoints: nat)
    requires maxPoints >= MAX_POINTS_MIN
    ensures var answer := Decimate(rows, maxPoints);
      && |answer.data| <= maxPoints
      && (answer.stride == 1 <==> |rows| <= maxPoints)
      && (answer.stride == 1 ==> answer.data == rows)
      && (rows != [] ==> answer.data != [] && answer.data[0] == rows[0] && answer.data[|answer.data| - 1] == rows[|rows| - 1])
  {
    SqlStridePositive(|rows|, maxPoints);
    var stride := SqlStride(|rows|, maxPoints);
    KeepsSomething(rows, stride);
    if |rows| <= maxPoints {
      StrideOneKeepsAll(rows, |rows|);
      assert rows[..|rows|] == rows;
    } else {
      StrideCovers(|rows|, maxPoints);
      var n := |rows| - 1;
      KeptCount(rows, n, stride);
      var c := |Kept(rows, n, stride)|;
      assert stride * (maxPoints - 1) == (maxPoints - 1) * stride;
      MulOrder(maxPoints - 1, c - 1, stride);
      assert stride == 1 ==> stride * (maxPoints - 1) == maxPoints - 1;
    }
  }

  /** Between two kept rows lie fewer than `stride` dropped ones. */
  lemma GapsWithinStride(rn: nat, stride: nat, total: nat)
    requires stride > 0 && rn + stride < total
    ensures exists k :: rn < k <= rn + stride && KeepsRow(k, stride, total)
  {
    var k := rn + stride - rn % stride;
    MulMod(rn / stride + 1, stride);
    assert rn == rn / stride * stride + rn % stride;
    assert k == (rn / stride + 1) * stride;
    assert KeepsRow(k, stride, total);
  }

  /** Rounding up by adding, and rounding up by negating twice, come to the same. */
  lemma TwoCeilings(t: int, q: int)
    requires q > 0
    ensures (t + q - 1) / q == CeilDiv(t, q)
  {
    var up, down := (t + q - 1) / q, (-t) / q;
    var upRest, downRest := (t + q - 1) % q, (-t) % q;
    assert t + q - 1 == up * q + upRest && -t == down * q + downRest;
    assert (up + down) * q == q - 1 - upRest - downRest by {
      assert (up + down) * q == up * q + down * q;
    }
    OnlyZeroFits(up + down, q);
  }

  lemma OnlyZeroFits(n: int, q: int)
    requires q > 0 && -q < n * q < q
    ensures n == 0
  {
    MulOrder(1, n, q);
    MulOrder(n, -1, q);
  }

  /** The SQL stride is the ceiling that `stride_for` computes. */
  lemma SqlStrideIsCeiling(total: nat, maxPoints: nat)
    requires maxPoints >= MAX_POINTS_MIN
    ensures StrideFor(total, maxPoints) == Some(SqlStride(total, maxPoints) as int)
  {
    if total > maxPoints {
      TwoCeilings(total - 1, maxPoints - 1);
    }
  }

  /** `per_anchor_points`: one anchor's share of the total budget. */
  function PerAnchorPoints(maxPoints: int, anchors: int): int {
    if anchors <= 0 then maxPoints
    else
      var share := RANGES_TOTAL_POINTS_LIMIT / anchors;
      Max(MAX_POINTS_MIN, Min(maxPoints, share))
  }

  /** All anchors together stay within the budget, exactly as long as two points each would. */
  lemma BudgetHolds(maxPoints: int, anchors: int)
    requires anchors > 0 && maxPoints >= MAX_POINTS_MIN
    ensures anchors * PerAnchorPoints(maxPoints, anchors) <= RANGES_TOTAL_POINTS_LIMIT
       <==> anchors * MAX_POINTS_MIN <= RANGES_TOTAL_POINTS_LIMIT
  {
    var share := RANGES_TOTAL_POINTS_LIMIT / anchors;
    var points := PerAnchorPoints(maxPoints, anchors);
    assert RANGES_TOTAL_POINTS_LIMIT == share * anchors + RANGES_TOTAL_POINTS_LIMIT % anchors;
    assert (share + 1) * anchors == share * anchors + anchors;
    MulOrder(share + 1, MAX_POINTS_MIN, anchors);
    MulOrder(points, share, anchors);
    MulOrder(MAX_POINTS_MIN, points, anchors);
  }

  /** The share is the largest that fits the budget, up to what was asked for, and never below the least. */
  lemma ShareIsLargest(maxPoints: int, anchors: int)
    requires anchors > 0 && maxPoints >= MAX_POINTS_MIN
    ensures var points := PerAnchorPoints(maxPoints, anchors);
      && MAX_POINTS_MIN <= points <= maxPoints
      && (points > MAX_POINTS_MIN ==> anchors * points <= RANGES_TOTAL_POINTS_LIMIT)
      && (points < maxPoints ==> anchors * (points + 1) > RANGES_TOTAL_POINTS_LIMIT)
  {
    var share := RANGES_TOTAL_POINTS_LIMIT / anchors;
    var points := PerAnchorPoints(maxPoints, anchors);
    assert RANGES_TOTAL_POINTS_LIMIT == share * anchors + RANGES_TOTAL_POINTS_LIMIT % anchors;
    assert (share + 1) * anchors == share * anchors + anchors;
    if points > MAX_POINTS_MIN {
      MulMonotone(points, share, anchors);
    }
    if points < maxPoints {
      MulMonotone(share + 1, points + 1, anchors);
    }
  }
}
