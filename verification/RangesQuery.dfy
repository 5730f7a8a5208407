/** The ranges of a stored session, anchor by anchor: `ranges` of store/query.py. */
module RangeQueries {
  import opened Prelude
  import opened TelemetryTables
  import opened Columns
  import opened Queries

  /** The ranges of one anchor, joined to the session's unrolled rows. */
  function StoredRanges(d: CycleTables, sessionId: int, rows: seq<Row>, anchor: int): seq<RangePoint> {
    if rows == [] then []
    else
      var front, last := StoredRanges(d, sessionId, rows[..|rows| - 1], anchor), rows[|rows| - 1];
      var key := (sessionId, last.seqNo, anchor);
      if key in d.ranges then
        var r := d.ranges[key];
        front + [RangePointOf(last.tN, last.seqN, r.status, r.distanceMm, r.elapsedMs, r.kf)]
      else front
  }

  /** The anchors the session has ranges of, or the one asked for. */
  function Wanted(d: CycleTables, sessionId: int, anchorId: Option<int>): set<int> {
    set k | k in d.ranges && k.0 == sessionId && (anchorId.None? || k.2 == anchorId.value) :: k.2
  }

  /** The session's rows within a range of time. */
  function Window(d: CycleTables, sessionId: int, fromMs: Option<int>, toMs: Option<int>): seq<Row>
    requires AllU32(SessionFixes(d, sessionId).Keys)
  {
    Within(Normalized(SessionFixes(d, sessionId)), fromMs, toMs)
  }

  function AnchorAnswer(d: CycleTables, sessionId: int, window: seq<Row>, anchor: int, points: nat): Decimated<RangePoint>
    requires points >= MAX_POINTS_MIN
  {
    Decimate(StoredRanges(d, sessionId, window, anchor), points)
  }

  /** A row of the query's answer: the anchor, how many rows it had, the stride, and the values. */
  datatype AnswerRow = AnswerRow(anchor: int, total: nat, stride: nat, point: RangePoint)

  function RowsOf(anchor: int, a: Decimated<RangePoint>): (r: seq<AnswerRow>)
    ensures |r| == |a.data|
  {
    seq(|a.data|, i requires 0 <= i < |a.data| => AnswerRow(anchor, a.total, a.stride, a.data[i]))
  }

  /** The rows of several anchors, one after the other. */
  function AllRows(d: CycleTables, sessionId: int, window: seq<Row>, anchors: seq<int>, points: nat): seq<AnswerRow>
    requires points >= MAX_POINTS_MIN
  {
    if anchors == [] then []
    else
      var k := |anchors| - 1;
      AllRows(d, sessionId, window, anchors[..k], points)
        + RowsOf(anchors[k], AnchorAnswer(d, sessionId, window, anchors[k], points))
  }

  /** One turn of the loop that collects the answer: an anchor's first row opens its entry. */
  function Collected(m: map<int, Decimated<RangePoint>>, row: AnswerRow): map<int, Decimated<RangePoint>> {
    if row.anchor in m then m[row.anchor := m[row.anchor].(data := m[row.anchor].data + [row.point])]
    else m[row.anchor := Decimated(row.total, row.stride, [row.point])]
  }

  function Collect(rows: seq<AnswerRow>): map<int, Decimated<RangePoint>> {
    if rows == [] then map[] else Collected(Collect(rows[..|rows| - 1]), rows[|rows| - 1])
  }

  /** An anchor's rows make one entry, unless there are none. */
  lemma {:induction false} CollectAnchor(before: seq<AnswerRow>, anchor: int, a: Decimated<RangePoint>, n: nat)
    requires anchor !in Collect(before) && n <= |a.data|
    ensures Collect(before + RowsOf(anchor, a)[..n])
      == if n == 0 then Collect(before) else Collect(before)[anchor := a.(data := a.data[..n])]
  {
    var rows := RowsOf(anchor, a);
    hide Collect, RowsOf;
    if n == 0 {
      assert before + rows[..0] == before;
    } else {
      CollectAnchor(before, anchor, a, n - 1);
      CollectSnoc(before + rows[..n - 1], RowOf(anchor, a, n - 1));
      assert before + rows[..n] == before + rows[..n - 1] + [rows[n - 1]];
      EntryGrows(Collect(before), anchor, a, n);
    }
  }

  function RowOf(anchor: int, a: Decimated<RangePoint>, i: nat): (r: AnswerRow)
    requires i < |a.data|
    ensures r == RowsOf(anchor, a)[i]
  {
    AnswerRow(anchor, a.total, a.stride, a.data[i])
  }

  lemma CollectSnoc(rows: seq<AnswerRow>, last: AnswerRow)
    ensures Collect(rows + [last]) == Collected(Collect(rows), last)
  {
    assert (rows + [last])[..|rows|] == rows;
  }

  /** One more row lengthens the anchor's entry by one. */
  lemma EntryGrows(m: map<int, Decimated<RangePoint>>, anchor: int, a: Decimated<RangePoint>, n: nat)
    requires anchor !in m && 0 < n <= |a.data|
    ensures Collected(if n == 1 then m else m[anchor := a.(data := a.data[..n - 1])], RowOf(anchor, a, n - 1))
      == m[anchor := a.(data := a.data[..n])]
  {
    assert a.data[..n] == a.data[..n - 1] + [a.data[n - 1]];
    if n == 1 {
      assert a.data[..1] == [a.data[0]];
    } else {
      UpdateTwice(m, anchor, a.(data := a.data[..n - 1]), a.(data := a.data[..n]));
    }
  }

  lemma UpdateTwice<K, V>(m: map<K, V>, k: K, x: V, y: V)
    ensures m[k := x][k := y] == m[k := y]
  {}

  /** Collecting the rows gives every anchor with rows its own decimated answer. */
  lemma {:induction false} CollectAll(d: CycleTables, sessionId: int, window: seq<Row>, anchors: seq<int>, points: nat)
    requires points >= MAX_POINTS_MIN && Distinct(anchors)
    ensures var m := Collect(AllRows(d, sessionId, window, anchors, points));
      && (forall x :: x in m <==> x in anchors && StoredRanges(d, sessionId, window, x) != [])
      && (forall x :: x in m ==> m[x] == AnchorAnswer(d, sessionId, window, x, points))
  {
    if anchors != [] {
      var k := |anchors| - 1;
      var front, last := anchors[..k], anchors[k];
      assert anchors == front + [last];
      CollectAll(d, sessionId, window, front, points);
      var a := AnchorAnswer(d, sessionId, window, last, points);
      var before := AllRows(d, sessionId, window, front, points);
      assert last !in front;
      CollectAnchor(before, last, a, |a.data|);
      assert RowsOf(last, a)[..|a.data|] == RowsOf(last, a) && a.data[..|a.data|] == a.data;
      DecimationFits(StoredRanges(d, sessionId, window, last), points);
      assert a.data == [] <==> StoredRanges(d, sessionId, window, last) == [] by {
        NothingKept(points);
      }
    }
  }

  lemma NothingKept(points: nat)
    requires points >= MAX_POINTS_MIN
    ensures Decimate<RangePoint>([], points).data == []
  {}

  /** Some list of the anchors, each once: the database sorts by anchor, and the entries do not depend on it. */
  method ListAnchors(anchors: set<int>) returns (list: seq<int>)
    ensures Distinct(list) && |list| == |anchors| && forall x :: x in list <==> x in anchors
  {
    list := [];
    var left := anchors;
    while left != {}
      invariant left <= anchors && Distinct(list) && |list| + |left| == |anchors|
      invariant forall x :: x in list <==> x in anchors && x !in left
      decreases left
    {
      HasNumber(left);
      var x :| x in left;
      list := list + [x];
      left := left - {x};
    }
  }

  /** `ranges`: every anchor's rows in the range of time, decimated to its share of the budget. */
  method Ranges(d: CycleTables, sessionId: int, anchorId: Option<int>, fromMs: Option<int>, toMs: Option<int>, maxPoints: nat)
      returns (result: map<int, Decimated<RangePoint>>)
    requires AllU32(SessionFixes(d, sessionId).Keys) && maxPoints >= MAX_POINTS_MIN
    ensures var window := Window(d, sessionId, fromMs, toMs);
      var wanted := Wanted(d, sessionId, anchorId);
      var points := PerAnchorPoints(maxPoints, |wanted|);
      && points >= MAX_POINTS_MIN
      && (forall x :: x in result <==> x in wanted && StoredRanges(d, sessionId, window, x) != [])
      && (forall x :: x in result ==> result[x] == AnchorAnswer(d, sessionId, window, x, points))
  {
    var wanted := Wanted(d, sessionId, anchorId);
    var points := PerAnchorPoints(maxPoints, |wanted|);
    var window := Window(d, sessionId, fromMs, toMs);
    var anchors := ListAnchors(wanted);
    CollectAll(d, sessionId, window, anchors, points);
    hide Window, AllRows, AnchorAnswer, StoredRanges, Wanted, Collect;
    result := CollectRows(AllRows(d, sessionId, window, anchors, points));
  }

  method CollectRows(rows: seq<AnswerRow>) returns (result: map<int, Decimated<RangePoint>>)
    ensures result == Collect(rows)
  {
    result := map[];
    for i := 0 to |rows|
      invariant result == Collect(rows[..i])
    {
      assert rows[..i + 1][..i] == rows[..i];
      var row := rows[i];
      if row.anchor !in result {
        result := result[row.anchor := Decimated(row.total, row.stride, [])];
      }
      var entry := result[row.anchor];
      UpdateTwice(Collect(rows[..i]), row.anchor, Decimated(row.total, row.stride, []), Decimated(row.total, row.stride, [row.point]));
      assert [] + [row.point] == [row.point];
      result := result[row.anchor := entry.(data := entry.data + [row.point])];
    }
    assert rows[..|rows|] == rows;
  }

  // ---------------------------------------------------------------- the budget

  lemma {:induction false} SizesAddUp(d: CycleTables, sessionId: int, window: seq<Row>, anchors: seq<int>, points: nat)
    requires points >= MAX_POINTS_MIN
    ensures |AllRows(d, sessionId, window, anchors, points)| <= |anchors| * points
  {
    if anchors != [] {
      var k := |anchors| - 1;
      SizesAddUp(d, sessionId, window, anchors[..k], points);
      AnswerFits(d, sessionId, window, anchors[k], points);
      OneMore(k, points);
      hide AnchorAnswer;
    }
  }

  lemma AnswerFits(d: CycleTables, sessionId: int, window: seq<Row>, anchor: int, points: nat)
    requires points >= MAX_POINTS_MIN
    ensures |AnchorAnswer(d, sessionId, window, anchor, points).data| <= points
  {
    DecimationFits(StoredRanges(d, sessionId, window, anchor), points);
  }

  lemma OneMore(k: nat, points: nat)
    ensures (k + 1) * points == k * points + points
  {}

  /** An answer over all anchors stays within the total budget as long as two points for each do. */
  lemma AnswerWithinBudget(d: CycleTables, sessionId: int, window: seq<Row>, anchors: seq<int>, maxPoints: nat)
    requires maxPoints >= MAX_POINTS_MIN && anchors != []
    requires |anchors| * MAX_POINTS_MIN <= RANGES_TOTAL_POINTS_LIMIT
    ensures PerAnchorPoints(maxPoints, |anchors|) >= MAX_POINTS_MIN
    ensures |AllRows(d, sessionId, window, anchors, PerAnchorPoints(maxPoints, |anchors|))| <= RANGES_TOTAL_POINTS_LIMIT
  {
    var points := PerAnchorPoints(maxPoints, |anchors|);
    SizesAddUp(d, sessionId, window, anchors, points);
    BudgetHolds(maxPoints, |anchors|);
  }

  // ---------------------------------------------------------------- the same cycles as the track

  ghost predicate InEveryCycle(d: CycleTables, sessionId: int, window: seq<Row>, anchor: int) {
    forall i :: 0 <= i < |window| ==> (sessionId, window[i].seqNo, anchor) in d.ranges
  }

  lemma {:induction false} OneEach(d: CycleTables, sessionId: int, window: seq<Row>, anchor: int)
    requires InEveryCycle(d, sessionId, window, anchor)
    ensures |StoredRanges(d, sessionId, window, anchor)| == |window|
  {
    if window != [] {
      var front := window[..|window| - 1];
      assert forall i :: 0 <= i < |front| ==> front[i] == window[i];
      OneEach(d, sessionId, front, anchor);
    }
  }

  lemma {:induction false} PrefixRanges(d: CycleTables, sessionId: int, window: seq<Row>, anchor: int, n: nat)
    requires InEveryCycle(d, sessionId, window, anchor) && n <= |window|
    ensures |StoredRanges(d, sessionId, window, anchor)| == |window|
    ensures StoredRanges(d, sessionId, window, anchor)[..n] == StoredRanges(d, sessionId, window[..n], anchor)
  {
    OneEach(d, sessionId, window, anchor);
    if n < |window| {
      var front := window[..|window| - 1];
      assert forall i :: 0 <= i < |front| ==> front[i] == window[i];
      PrefixRanges(d, sessionId, front, anchor, n);
      assert front[..n] == window[..n];
      var all, part := StoredRanges(d, sessionId, window, anchor), StoredRanges(d, sessionId, front, anchor);
      assert all[..|front|] == part;
      assert all[..n] == part[..n];
    } else {
      assert window[..n] == window;
    }
  }

  lemma {:induction false} KeptTogether(d: CycleTables, sessionId: int, window: seq<Row>, anchor: int, n: nat, stride: nat)
    requires InEveryCycle(d, sessionId, window, anchor) && n <= |window| && stride > 0
    ensures |StoredRanges(d, sessionId, window, anchor)| == |window|
    ensures Kept(StoredRanges(d, sessionId, window, anchor), n, stride)
         == StoredRanges(d, sessionId, Kept(window, n, stride), anchor)
  {
    OneEach(d, sessionId, window, anchor);
    if n > 0 {
      KeptTogether(d, sessionId, window, anchor, n - 1, stride);
      if KeepsRow(n - 1, stride, |window|) {
        LastRange(d, sessionId, window, anchor, n);
        var kept := Kept(window, n - 1, stride);
        assert (kept + [window[n - 1]])[..|kept|] == kept;
      }
    }
  }

  /** The `n`-th range is that of the `n`-th row. */
  lemma LastRange(d: CycleTables, sessionId: int, window: seq<Row>, anchor: int, n: nat)
    requires InEveryCycle(d, sessionId, window, anchor) && 0 < n <= |window|
    ensures |StoredRanges(d, sessionId, window, anchor)| == |window|
    ensures var last := window[n - 1];
      && (sessionId, last.seqNo, anchor) in d.ranges
      && var r := d.ranges[(sessionId, last.seqNo, anchor)];
         StoredRanges(d, sessionId, window, anchor)[n - 1]
           == RangePointOf(last.tN, last.seqN, r.status, r.distanceMm, r.elapsedMs, r.kf)
  {
    PrefixRanges(d, sessionId, window, anchor, n);
    var part := window[..n];
    assert forall i :: 0 <= i < |part| ==> part[i] == window[i];
    OneEach(d, sessionId, part, anchor);
    OneEach(d, sessionId, part[..n - 1], anchor);
  }

  /** An anchor ranged in every cycle is decimated at the same cycles as the track, when its share is the full number. */
  lemma SameCyclesAsTrack(d: CycleTables, sessionId: int, window: seq<Row>, anchor: int, maxPoints: nat)
    requires maxPoints >= MAX_POINTS_MIN && InEveryCycle(d, sessionId, window, anchor)
    ensures var a, track := AnchorAnswer(d, sessionId, window, anchor, maxPoints), Decimate(window, maxPoints);
      && a.total == track.total && a.stride == track.stride
      && a.data == StoredRanges(d, sessionId, track.data, anchor)
  {
    OneEach(d, sessionId, window, anchor);
    SqlStridePositive(|window|, maxPoints);
    KeptTogether(d, sessionId, window, anchor, |window|, SqlStride(|window|, maxPoints));
  }
}
