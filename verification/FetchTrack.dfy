/** Fetching a whole track from a server that decimates: `fetch_track` of tools/filter_compare.py. */
module TrackFetching {
  import opened Prelude
  import opened Columns
  import opened Queries
  import Agreement

  const LAST_MS: int := 0x20_0000_0000_0000

  /** The ranges the reference API accepts; it answers others with an error. */
  predicate Answerable(fromMs: int, toMs: int) {
    0 <= fromMs <= toMs <= LAST_MS
  }

  function InWindow(all: seq<Row>, fromMs: int, toMs: int): seq<Row> {
    Within(all, Some(fromMs), Some(toMs))
  }

  /** The rows fetched: the answer itself when nothing was dropped, else both halves, one after the other. */
  function Fetched(all: seq<Row>, fromMs: int, toMs: int, maxPoints: nat): seq<Row>
    requires maxPoints >= MAX_POINTS_MIN
    decreases toMs - fromMs
  {
    var answer := Decimate(InWindow(all, fromMs, toMs), maxPoints);
    if answer.stride <= 1 || toMs <= fromMs then answer.data
    else
      var middle := (fromMs + toMs) / 2;
      Fetched(all, fromMs, middle, maxPoints) + Fetched(all, middle + 1, toMs, maxPoints)
  }

  /** An answer that dropped rows is replaced by the two halves. */
  lemma FetchedHalves(all: seq<Row>, fromMs: int, toMs: int, maxPoints: nat)
    requires maxPoints >= MAX_POINTS_MIN && fromMs < toMs && |InWindow(all, fromMs, toMs)| > maxPoints
    ensures var middle := (fromMs + toMs) / 2;
      Fetched(all, fromMs, toMs, maxPoints)
        == Fetched(all, fromMs, middle, maxPoints) + Fetched(all, middle + 1, toMs, maxPoints)
  {
    DecimationFits(InWindow(all, fromMs, toMs), maxPoints);
  }

  /** An answer that dropped none is all of the window. */
  lemma FetchedWhole(all: seq<Row>, fromMs: int, toMs: int, maxPoints: nat)
    requires maxPoints >= MAX_POINTS_MIN && |InWindow(all, fromMs, toMs)| <= maxPoints
    ensures Fetched(all, fromMs, toMs, maxPoints) == InWindow(all, fromMs, toMs)
  {
    DecimationFits(InWindow(all, fromMs, toMs), maxPoints);
  }

  /** The two answers laid end to end, column by column. */
  method Joined(a: FixColumns, b: FixColumns, ghost p: seq<FixPoint>, ghost q: seq<FixPoint>) returns (r: FixColumns)
    requires a.Shows(p) && b.Shows(q)
    ensures fresh(r) && r.Shows(p + q)
  {
    r := new FixColumns();
    JoinFix(r, a, b);
    JoinFilter(r, a, b);
    forall i | 0 <= i < |p + q| ensures r.Row(i) == (p + q)[i] {
      assert i < |p| ==> a.Row(i) == p[i];
      assert i >= |p| ==> b.Row(i - |p|) == q[i - |p|];
    }
  }

  method JoinFix(r: FixColumns, a: FixColumns, b: FixColumns)
    requires r != a && r != b
    modifies r`t, r`seqN, r`dt, r`x, r`y, r`z, r`ok, r`used, r`resid
    ensures r.t == a.t + b.t && r.seqN == a.seqN + b.seqN && r.dt == a.dt + b.dt
    ensures r.x == a.x + b.x && r.y == a.y + b.y && r.z == a.z + b.z
    ensures r.ok == a.ok + b.ok && r.used == a.used + b.used && r.resid == a.resid + b.resid
  {
    r.t, r.seqN, r.dt := a.t + b.t, a.seqN + b.seqN, a.dt + b.dt;
    r.x, r.y, r.z := a.x + b.x, a.y + b.y, a.z + b.z;
    r.ok, r.used, r.resid := a.ok + b.ok, a.used + b.used, a.resid + b.resid;
  }

  method JoinFilter(r: FixColumns, a: FixColumns, b: FixColumns)
    requires r != a && r != b
    modifies r`kx, r`ky, r`kz, r`kok, r`kupd, r`kinit, r`ksig, r`kused, r`krej
    ensures r.kx == a.kx + b.kx && r.ky == a.ky + b.ky && r.kz == a.kz + b.kz
    ensures r.kok == a.kok + b.kok && r.kupd == a.kupd + b.kupd && r.kinit == a.kinit + b.kinit
    ensures r.ksig == a.ksig + b.ksig && r.kused == a.kused + b.kused && r.krej == a.krej + b.krej
  {
    r.kx, r.ky, r.kz := a.kx + b.kx, a.ky + b.ky, a.kz + b.kz;
    r.kok, r.kupd, r.kinit := a.kok + b.kok, a.kupd + b.kupd, a.kinit + b.kinit;
    r.ksig, r.kused, r.krej := a.ksig + b.ksig, a.kused + b.kused, a.krej + b.krej;
  }

  lemma PointsJoin(p: seq<Row>, q: seq<Row>)
    ensures StoredPoints(p + q) == StoredPoints(p) + StoredPoints(q)
  {
    hide StoredPoints, StoredPoint;
    var all := StoredPoints(p + q);
    forall i | 0 <= i < |all| ensures all[i] == (StoredPoints(p) + StoredPoints(q))[i] {
      assert all[i] == StoredPoint((p + q)[i]);
    }
  }

  /** `fetch_track` over the server's `track`. Once the outer range is accepted, no part of it is refused. */
  method FetchTrack(rows: FixTable, fromMs: int, toMs: int, maxPoints: nat) returns (r: Option<FixColumns>)
    requires AllU32(rows.Keys) && maxPoints >= MAX_POINTS_MIN
    ensures r.Some? <==> Answerable(fromMs, toMs)
    ensures r.Some? ==> fresh(r.value)
    ensures r.Some? ==> r.value.Shows(StoredPoints(Fetched(Normalized(rows), fromMs, toMs, maxPoints)))
    decreases toMs - fromMs
  {
    hide StoredPoints, Normalized, Decimate, FixColumns.Shows;
    if !Answerable(fromMs, toMs) {
      return None;
    }
    var total, stride, fix := Track(rows, Some(fromMs), Some(toMs), maxPoints);
    if stride <= 1 || toMs <= fromMs {
      return Some(fix);
    }
    var middle := (fromMs + toMs) / 2;
    var first := FetchTrack(rows, fromMs, middle, maxPoints);
    var second := FetchTrack(rows, middle + 1, toMs, maxPoints);
    ghost var all := Normalized(rows);
    ghost var p, q := Fetched(all, fromMs, middle, maxPoints), Fetched(all, middle + 1, toMs, maxPoints);
    PointsJoin(p, q);
    var joined := Joined(first.value, second.value, StoredPoints(p), StoredPoints(q));
    return Some(joined);
  }

  // ---------------------------------------------------------------- nothing is missing

  /** Some single millisecond holds more rows than one answer may. */
  ghost predicate Crowded(all: seq<Row>, fromMs: int, toMs: int, maxPoints: nat) {
    exists ms :: fromMs <= ms <= toMs && |InWindow(all, ms, ms)| > maxPoints
  }

  lemma {:induction false} WindowSplits(all: seq<Row>, fromMs: int, middle: int, toMs: int)
    requires fromMs <= middle + 1 <= toMs + 1
    ensures multiset(InWindow(all, fromMs, toMs))
         == multiset(InWindow(all, fromMs, middle)) + multiset(InWindow(all, middle + 1, toMs))
  {
    if all != [] {
      WindowSplits(all[..|all| - 1], fromMs, middle, toMs);
    }
  }

  lemma SizeSplits(all: seq<Row>, fromMs: int, middle: int, toMs: int)
    requires fromMs <= middle + 1 <= toMs + 1
    ensures |InWindow(all, fromMs, toMs)| == |InWindow(all, fromMs, middle)| + |InWindow(all, middle + 1, toMs)|
  {
    WindowSplits(all, fromMs, middle, toMs);
    SizeOf(InWindow(all, fromMs, toMs));
    SizeOf(InWindow(all, fromMs, middle));
    SizeOf(InWindow(all, middle + 1, toMs));
  }

  lemma SizeOf<T>(s: seq<T>)
    ensures |multiset(s)| == |s|
  {}

  /** A window holds at least what any of its milliseconds does. */
  lemma MomentWithin(all: seq<Row>, fromMs: int, ms: int, toMs: int)
    requires fromMs <= ms <= toMs
    ensures |InWindow(all, ms, ms)| <= |InWindow(all, fromMs, toMs)|
  {
    SizeSplits(all, fromMs, ms - 1, toMs);
    SizeSplits(all, ms, ms, toMs);
  }

  lemma CrowdedSplits(all: seq<Row>, fromMs: int, middle: int, toMs: int, maxPoints: nat)
    requires fromMs <= middle < toMs
    ensures Crowded(all, fromMs, toMs, maxPoints)
       <==> Crowded(all, fromMs, middle, maxPoints) || Crowded(all, middle + 1, toMs, maxPoints)
  {
    if Crowded(all, fromMs, toMs, maxPoints) {
      var ms :| fromMs <= ms <= toMs && |InWindow(all, ms, ms)| > maxPoints;
      assert ms <= middle || middle + 1 <= ms;
    }
  }

  /** An undecimated answer leaves no millisecond crowded, and is the whole window. */
  lemma WholeAnswer(all: seq<Row>, fromMs: int, toMs: int, maxPoints: nat)
    requires maxPoints >= MAX_POINTS_MIN && |InWindow(all, fromMs, toMs)| <= maxPoints
    ensures !Crowded(all, fromMs, toMs, maxPoints)
    ensures Decimate(InWindow(all, fromMs, toMs), maxPoints).data == InWindow(all, fromMs, toMs)
  {
    DecimationFits(InWindow(all, fromMs, toMs), maxPoints);
    forall ms | fromMs <= ms <= toMs ensures |InWindow(all, ms, ms)| <= maxPoints {
      MomentWithin(all, fromMs, ms, toMs);
    }
  }

  /** The fetch never brings more rows than there are, and brings fewer exactly when a millisecond is crowded. */
  lemma {:induction false} FetchedCount(all: seq<Row>, fromMs: int, toMs: int, maxPoints: nat)
    requires maxPoints >= MAX_POINTS_MIN && fromMs <= toMs
    ensures |Fetched(all, fromMs, toMs, maxPoints)| <= |InWindow(all, fromMs, toMs)|
    ensures |Fetched(all, fromMs, toMs, maxPoints)| == |InWindow(all, fromMs, toMs)|
       <==> !Crowded(all, fromMs, toMs, maxPoints)
    decreases toMs - fromMs
  {
    hide Fetched, InWindow, Crowded;
    if |InWindow(all, fromMs, toMs)| <= maxPoints {
      WholeAnswer(all, fromMs, toMs, maxPoints);
      FetchedWhole(all, fromMs, toMs, maxPoints);
    } else if toMs == fromMs {
      FetchedMoment(all, fromMs, maxPoints);
    } else {
      var middle := (fromMs + toMs) / 2;
      FetchedHalves(all, fromMs, toMs, maxPoints);
      FetchedCount(all, fromMs, middle, maxPoints);
      FetchedCount(all, middle + 1, toMs, maxPoints);
      SizeSplits(all, fromMs, middle, toMs);
      CrowdedSplits(all, fromMs, middle, toMs, maxPoints);
    }
  }

  /** A crowded millisecond comes back short. */
  lemma FetchedMoment(all: seq<Row>, ms: int, maxPoints: nat)
    requires maxPoints >= MAX_POINTS_MIN && |InWindow(all, ms, ms)| > maxPoints
    ensures Crowded(all, ms, ms, maxPoints) && |Fetched(all, ms, ms, maxPoints)| < |InWindow(all, ms, ms)|
  {
    DecimationFits(InWindow(all, ms, ms), maxPoints);
  }

  /** Whatever the order of the times: unless a millisecond is crowded, exactly the rows of the window arrive. */
  lemma {:induction false} FetchedRows(all: seq<Row>, fromMs: int, toMs: int, maxPoints: nat)
    requires maxPoints >= MAX_POINTS_MIN && fromMs <= toMs && !Crowded(all, fromMs, toMs, maxPoints)
    ensures multiset(Fetched(all, fromMs, toMs, maxPoints)) == multiset(InWindow(all, fromMs, toMs))
    decreases toMs - fromMs
  {
    hide Fetched, InWindow, Crowded;
    if |InWindow(all, fromMs, toMs)| <= maxPoints {
      FetchedWhole(all, fromMs, toMs, maxPoints);
    } else {
      MomentNotCrowded(all, fromMs, maxPoints);
      var middle := (fromMs + toMs) / 2;
      FetchedHalves(all, fromMs, toMs, maxPoints);
      CrowdedSplits(all, fromMs, middle, toMs, maxPoints);
      FetchedRows(all, fromMs, middle, maxPoints);
      FetchedRows(all, middle + 1, toMs, maxPoints);
      WindowSplits(all, fromMs, middle, toMs);
    }
  }

  lemma MomentNotCrowded(all: seq<Row>, ms: int, maxPoints: nat)
    ensures Crowded(all, ms, ms, maxPoints) <==> |InWindow(all, ms, ms)| > maxPoints
  {}

  /** The rows of the window complete, in whatever order: exactly when no millisecond is crowded. */
  lemma FetchIsComplete(all: seq<Row>, fromMs: int, toMs: int, maxPoints: nat)
    requires maxPoints >= MAX_POINTS_MIN && fromMs <= toMs
    ensures multiset(Fetched(all, fromMs, toMs, maxPoints)) == multiset(InWindow(all, fromMs, toMs))
       <==> !Crowded(all, fromMs, toMs, maxPoints)
  {
    FetchedCount(all, fromMs, toMs, maxPoints);
    SizeOf(Fetched(all, fromMs, toMs, maxPoints));
    SizeOf(InWindow(all, fromMs, toMs));
    if !Crowded(all, fromMs, toMs, maxPoints) {
      FetchedRows(all, fromMs, toMs, maxPoints);
    }
  }

  // ---------------------------------------------------------------- in order

  /** Within the window no row later than `middle` stands before one that is not. */
  ghost predicate NoneBehind(all: seq<Row>, fromMs: int, middle: int, toMs: int) {
    forall i, j :: 0 <= i < j < |all| && middle < all[i].tN <= toMs ==> !(fromMs <= all[j].tN <= middle)
  }

  /** Wherever the fetch divides the window, all rows of the first half stand before those of the second. */
  ghost predicate SplitsInOrder(all: seq<Row>, fromMs: int, toMs: int, maxPoints: nat)
    decreases toMs - fromMs
  {
    || |InWindow(all, fromMs, toMs)| <= maxPoints
    || (fromMs < toMs
        && var middle := (fromMs + toMs) / 2;
           && NoneBehind(all, fromMs, middle, toMs)
           && SplitsInOrder(all, fromMs, middle, maxPoints) && SplitsInOrder(all, middle + 1, toMs, maxPoints))
  }

  lemma WindowSnoc(all: seq<Row>, last: Row, fromMs: int, toMs: int)
    ensures InWindow(all + [last], fromMs, toMs)
      == InWindow(all, fromMs, toMs) + if fromMs <= last.tN <= toMs then [last] else []
  {
    assert (all + [last])[..|all|] == all;
  }

  lemma NoneIn(all: seq<Row>, fromMs: int, toMs: int)
    ensures InWindow(all, fromMs, toMs) == [] <==> forall i :: 0 <= i < |all| ==> !(fromMs <= all[i].tN <= toMs)
  {
    if InWindow(all, fromMs, toMs) != [] {
      assert InWindow(all, fromMs, toMs)[0] in all;
    } else {
      forall i | 0 <= i < |all| ensures !(fromMs <= all[i].tN <= toMs) {
        assert all[i] in all;
      }
    }
  }

  lemma {:induction false} SplitWhenNoneBehind(all: seq<Row>, fromMs: int, middle: int, toMs: int)
    requires fromMs <= middle <= toMs && NoneBehind(all, fromMs, middle, toMs)
    ensures InWindow(all, fromMs, toMs) == InWindow(all, fromMs, middle) + InWindow(all, middle + 1, toMs)
  {
    if all != [] {
      var front, last := all[..|all| - 1], all[|all| - 1];
      assert all == front + [last];
      SplitWhenNoneBehind(front, fromMs, middle, toMs);
      if fromMs <= last.tN <= middle {
        NoneIn(front, middle + 1, toMs);
      }
    }
  }

  lemma {:induction false} WindowOfWindow(all: seq<Row>, fromMs: int, toMs: int, a: int, b: int)
    requires fromMs <= a && b <= toMs
    ensures InWindow(InWindow(all, fromMs, toMs), a, b) == InWindow(all, a, b)
  {
    if all != [] {
      var front, last := all[..|all| - 1], all[|all| - 1];
      assert all == front + [last];
      WindowOfWindow(front, fromMs, toMs, a, b);
      WindowSnoc(front, last, fromMs, toMs);
      WindowSnoc(front, last, a, b);
      WindowSnoc(InWindow(front, fromMs, toMs), last, a, b);
    }
  }

  lemma {:induction false} WindowConcat(p: seq<Row>, q: seq<Row>, a: int, b: int)
    ensures InWindow(p + q, a, b) == InWindow(p, a, b) + InWindow(q, a, b)
  {
    if q == [] {
      assert p + q == p;
    } else {
      var front, last := q[..|q| - 1], q[|q| - 1];
      assert q == front + [last] && p + q == (p + front) + [last];
      WindowConcat(p, front, a, b);
      WindowSnoc(p + front, last, a, b);
      WindowSnoc(front, last, a, b);
    }
  }

  lemma {:induction false} WindowIsAll(p: seq<Row>, a: int, b: int)
    requires forall i :: 0 <= i < |p| ==> a <= p[i].tN <= b
    ensures InWindow(p, a, b) == p
  {
    if p != [] {
      WindowIsAll(p[..|p| - 1], a, b);
    }
  }

  /** Rows of the first half, then rows of the second: if the window is that, then they are its halves. */
  lemma HalvesAreForced(all: seq<Row>, fromMs: int, middle: int, toMs: int, p: seq<Row>, q: seq<Row>)
    requires fromMs <= middle <= toMs && InWindow(all, fromMs, toMs) == p + q
    requires forall i :: 0 <= i < |p| ==> fromMs <= p[i].tN <= middle
    requires forall i :: 0 <= i < |q| ==> middle + 1 <= q[i].tN <= toMs
    ensures InWindow(all, fromMs, middle) == p && InWindow(all, middle + 1, toMs) == q
  {
    hide InWindow;
    WindowOfWindow(all, fromMs, toMs, fromMs, middle);
    WindowOfWindow(all, fromMs, toMs, middle + 1, toMs);
    WindowConcat(p, q, fromMs, middle);
    WindowConcat(p, q, middle + 1, toMs);
    WindowIsAll(p, fromMs, middle);
    WindowIsAll(q, middle + 1, toMs);
    NoneIn(p, middle + 1, toMs);
    NoneIn(q, fromMs, middle);
  }

  lemma NoneBehindWhenSplit(all: seq<Row>, fromMs: int, middle: int, toMs: int)
    requires fromMs <= middle <= toMs
    requires InWindow(all, fromMs, toMs) == InWindow(all, fromMs, middle) + InWindow(all, middle + 1, toMs)
    ensures NoneBehind(all, fromMs, middle, toMs)
  {
    hide InWindow;
    forall i, j | 0 <= i < j < |all| && middle < all[i].tN <= toMs ensures !(fromMs <= all[j].tN <= middle) {
      if fromMs <= all[j].tN <= middle {
        var a, b := PlacesInWindow(all, fromMs, toMs, i, j);
        HalvesInOrder(all, fromMs, middle, toMs, a, b);
      }
    }
  }

  /** Two rows of the window stand in it in the order they have. */
  lemma PlacesInWindow(all: seq<Row>, fromMs: int, toMs: int, i: nat, j: nat) returns (a: nat, b: nat)
    requires i < j < |all| && fromMs <= all[i].tN <= toMs && fromMs <= all[j].tN <= toMs
    ensures var window := InWindow(all, fromMs, toMs); a < b < |window| && window[a] == all[i] && window[b] == all[j]
  {
    a := PlaceInWindow(all[..j], fromMs, toMs, i);
    var k := PlaceInWindow(all[j..], fromMs, toMs, 0);
    hide InWindow;
    b := |InWindow(all[..j], fromMs, toMs)| + k;
    assert all == all[..j] + all[j..];
    WindowConcat(all[..j], all[j..], fromMs, toMs);
  }

  lemma PlaceInWindow(all: seq<Row>, fromMs: int, toMs: int, i: nat) returns (a: nat)
    requires i < |all| && fromMs <= all[i].tN <= toMs
    ensures a < |InWindow(all, fromMs, toMs)| && InWindow(all, fromMs, toMs)[a] == all[i]
  {
    assert all[i] in all;
    a :| a < |InWindow(all, fromMs, toMs)| && InWindow(all, fromMs, toMs)[a] == all[i];
  }

  lemma HalvesInOrder(all: seq<Row>, fromMs: int, middle: int, toMs: int, a: nat, b: nat)
    requires InWindow(all, fromMs, toMs) == InWindow(all, fromMs, middle) + InWindow(all, middle + 1, toMs)
    requires a < b < |InWindow(all, fromMs, toMs)| && InWindow(all, fromMs, toMs)[a].tN > middle
    ensures InWindow(all, fromMs, toMs)[b].tN > middle
  {
    var early, late := InWindow(all, fromMs, middle), InWindow(all, middle + 1, toMs);
    forall k | 0 <= k < |early| ensures early[k].tN <= middle {
      assert early[k] in early;
    }
    assert late[b - |early|] in late;
  }

  /** Only rows of the range are fetched. */
  lemma {:induction false} FetchedWithin(all: seq<Row>, fromMs: int, toMs: int, maxPoints: nat)
    requires maxPoints >= MAX_POINTS_MIN && fromMs <= toMs
    ensures forall i :: 0 <= i < |Fetched(all, fromMs, toMs, maxPoints)| ==>
      fromMs <= Fetched(all, fromMs, toMs, maxPoints)[i].tN <= toMs
    decreases toMs - fromMs
  {
    var window := InWindow(all, fromMs, toMs);
    if |window| <= maxPoints || fromMs == toMs {
      DecimationFits(window, maxPoints);
      SqlStridePositive(|window|, maxPoints);
      KeptAreRows(window, |window|, SqlStride(|window|, maxPoints));
    } else {
      hide InWindow, Fetched;
      var middle := (fromMs + toMs) / 2;
      FetchedHalves(all, fromMs, toMs, maxPoints);
      FetchedWithin(all, fromMs, middle, maxPoints);
      FetchedWithin(all, middle + 1, toMs, maxPoints);
    }
  }

  lemma {:induction false} KeptAreRows<T>(rows: seq<T>, n: nat, stride: nat)
    requires n <= |rows| && stride > 0
    ensures forall i :: 0 <= i < |Kept(rows, n, stride)| ==> Kept(rows, n, stride)[i] in rows
  {
    if n > 0 {
      KeptAreRows(rows, n - 1, stride);
    }
  }

  /** The fetch is the window, row for row and in its order, exactly when every division of it keeps the order. */
  lemma {:induction false} FetchInOrderIff(all: seq<Row>, fromMs: int, toMs: int, maxPoints: nat)
    requires maxPoints >= MAX_POINTS_MIN && fromMs <= toMs
    ensures Fetched(all, fromMs, toMs, maxPoints) == InWindow(all, fromMs, toMs)
       <==> SplitsInOrder(all, fromMs, toMs, maxPoints)
    decreases toMs - fromMs
  {
    hide Fetched, InWindow, NoneBehind;
    if |InWindow(all, fromMs, toMs)| <= maxPoints {
      FetchedWhole(all, fromMs, toMs, maxPoints);
    } else if toMs == fromMs {
      FetchedMoment(all, fromMs, maxPoints);
    } else {
      var middle := (fromMs + toMs) / 2;
      FetchedHalves(all, fromMs, toMs, maxPoints);
      FetchInOrderIff(all, fromMs, middle, maxPoints);
      FetchInOrderIff(all, middle + 1, toMs, maxPoints);
      if SplitsInOrder(all, fromMs, toMs, maxPoints) {
        SplitWhenNoneBehind(all, fromMs, middle, toMs);
      }
      if Fetched(all, fromMs, toMs, maxPoints) == InWindow(all, fromMs, toMs) {
        FetchedWithin(all, fromMs, middle, maxPoints);
        FetchedWithin(all, middle + 1, toMs, maxPoints);
        HalvesAreForced(all, fromMs, middle, toMs,
                        Fetched(all, fromMs, middle, maxPoints), Fetched(all, middle + 1, toMs, maxPoints));
        NoneBehindWhenSplit(all, fromMs, middle, toMs);
      }
    }
  }

  ghost predicate TimesOrdered(all: seq<Row>) {
    forall i, j :: 0 <= i < j < |all| ==> all[i].tN <= all[j].tN
  }

  lemma {:induction false} OrderedSplits(all: seq<Row>, fromMs: int, toMs: int, maxPoints: nat)
    requires TimesOrdered(all) && maxPoints >= MAX_POINTS_MIN && fromMs <= toMs
    ensures SplitsInOrder(all, fromMs, toMs, maxPoints) <==> !Crowded(all, fromMs, toMs, maxPoints)
    decreases toMs - fromMs
  {
    hide InWindow, Crowded;
    if |InWindow(all, fromMs, toMs)| <= maxPoints {
      WholeAnswer(all, fromMs, toMs, maxPoints);
    } else if toMs == fromMs {
      MomentNotCrowded(all, fromMs, maxPoints);
    } else {
      var middle := (fromMs + toMs) / 2;
      CrowdedSplits(all, fromMs, middle, toMs, maxPoints);
      OrderedSplits(all, fromMs, middle, maxPoints);
      OrderedSplits(all, middle + 1, toMs, maxPoints);
      assert NoneBehind(all, fromMs, middle, toMs);
    }
  }

  /** When times never go back, the fetch is the window, row for row, exactly when no millisecond is crowded. */
  lemma FetchIsExact(all: seq<Row>, fromMs: int, toMs: int, maxPoints: nat)
    requires maxPoints >= MAX_POINTS_MIN && fromMs <= toMs && TimesOrdered(all)
    ensures Fetched(all, fromMs, toMs, maxPoints) == InWindow(all, fromMs, toMs)
       <==> !Crowded(all, fromMs, toMs, maxPoints)
  {
    FetchInOrderIff(all, fromMs, toMs, maxPoints);
    OrderedSplits(all, fromMs, toMs, maxPoints);
  }

  /** The raw time steps back without counting as a wrap. */
  ghost predicate StepBackAt(order: seq<int>, rows: FixTable, i: nat)
    requires Indexes(order, rows) && 0 < i < |order|
  {
    0 < rows[order[i - 1]].tTagMs - rows[order[i]].tTagMs <= HALF
  }

  ghost predicate StepsBack(order: seq<int>, rows: FixTable) {
    Indexes(order, rows) && exists i: nat :: 0 < i < |order| && StepBackAt(order, rows, i)
  }

  lemma OneStepBack(order: seq<int>, rows: FixTable, i: nat)
    requires Indexes(order, rows) && 0 < i < |order| && forall k :: k in rows ==> IsU32(rows[k].tTagMs)
    ensures TimeN(order, rows, i) < TimeN(order, rows, i - 1) <==> StepBackAt(order, rows, i)
  {
    var k, j := order[i], order[i - 1];
    assert k in rows && j in rows;
    assert IsU32(rows[k].tTagMs) && IsU32(rows[j].tTagMs);
    var was, now, w := rows[j].tTagMs, rows[k].tTagMs, TimeWraps(order, rows, i - 1);
    assert TimeWraps(order, rows, i) == if now < was - HALF then w + 1 else w;
    assert TimeN(order, rows, i) - TimeN(order, rows, i - 1) == if now < was - HALF then now - was + FULL else now - was;
  }

  /** Unrolled times of a session never go back exactly when no raw time steps back by 2^31 or less. */
  lemma TimesOrderedIff(rows: FixTable)
    requires AllU32(rows.Keys) && forall k :: k in rows ==> IsU32(rows[k].tTagMs)
    ensures TimesOrdered(Normalized(rows)) <==> !StepsBack(InOrder(rows.Keys, SeqWrapped(rows.Keys)), rows)
  {
    var order := InOrder(rows.Keys, SeqWrapped(rows.Keys));
    var all := Normalized(rows);
    RowTimes(rows);
    StepwiseOrdered(all);
    hide InOrder, SeqWrapped, Normalized, TimeN, TimesOrdered, Indexes, StepBackAt;
    forall i: nat | 0 < i < |order| ensures all[i].tN < all[i - 1].tN <==> StepBackAt(order, rows, i) {
      OneStepBack(order, rows, i);
    }
    if StepsBack(order, rows) {
      var i: nat :| 0 < i < |order| && StepBackAt(order, rows, i);
      assert all[i].tN < all[i - 1].tN;
    } else {
      forall i | 0 < i < |all| ensures all[i - 1].tN <= all[i].tN {
        assert !StepBackAt(order, rows, i);
      }
    }
  }

  lemma RowTimes(rows: FixTable)
    requires AllU32(rows.Keys)
    ensures var order, all := InOrder(rows.Keys, SeqWrapped(rows.Keys)), Normalized(rows);
      |all| == |order| && Indexes(order, rows) && forall i :: 0 <= i < |order| ==> all[i].tN == TimeN(order, rows, i)
  {}

  lemma StepwiseOrdered(all: seq<Row>)
    ensures TimesOrdered(all) <==> forall i :: 0 < i < |all| ==> all[i - 1].tN <= all[i].tN
  {
    if forall i :: 0 < i < |all| ==> all[i - 1].tN <= all[i].tN {
      forall j | 0 <= j < |all| ensures forall i :: 0 <= i < j ==> all[i].tN <= all[j].tN {
        OrderedUpTo(all, j);
      }
    }
  }

  lemma {:induction false} OrderedUpTo(all: seq<Row>, j: nat)
    requires j < |all| && forall i :: 0 < i < |all| ==> all[i - 1].tN <= all[i].tN
    ensures forall i :: 0 <= i < j ==> all[i].tN <= all[j].tN
  {
    if j > 0 {
      OrderedUpTo(all, j - 1);
    }
  }

  /** A stored session whose times go back, 0 then 3 then 1, is fetched out of order when two rows come at a time. */
  lemma OutOfOrder(rows: FixTable)
    requires rows.Keys == {0, 1, 2} && rows[0].tTagMs == 0 && rows[1].tTagMs == 3 && rows[2].tTagMs == 1
    ensures AllU32(rows.Keys) && |Normalized(rows)| == 3
    ensures var all := Normalized(rows);
      && InWindow(all, 0, 3) == all && all[0].fix == rows[0] && all[1].fix == rows[1] && all[2].fix == rows[2]
      && Fetched(all, 0, 3, 2) == [all[0], all[2], all[1]] != all
  {
    ThreeRows(rows);
    hide Normalized, InWindow, Fetched, AllU32;
    var all := Normalized(rows);
    assert all == [all[0], all[1], all[2]];
    FetchedOfThree(all[0], all[1], all[2]);
  }

  lemma FetchedOfThree(a: Row, b: Row, c: Row)
    requires a.tN == 0 && b.tN == 3 && c.tN == 1
    ensures InWindow([a, b, c], 0, 3) == [a, b, c] && Fetched([a, b, c], 0, 3, 2) == [a, c, b] && a != b
  {
    hide InWindow, Fetched;
    var all := [a, b, c];
    WindowOfThree(a, b, c, 0, 3);
    WindowOfThree(a, b, c, 0, 1);
    WindowOfThree(a, b, c, 2, 3);
    FetchedHalves(all, 0, 3, 2);
    FetchedWhole(all, 0, 1, 2);
    FetchedWhole(all, 2, 3, 2);
  }

  lemma ThreeRows(rows: FixTable)
    requires rows.Keys == {0, 1, 2} && rows[0].tTagMs == 0 && rows[1].tTagMs == 3 && rows[2].tTagMs == 1
    ensures AllU32(rows.Keys) && |Normalized(rows)| == 3
    ensures forall i :: 0 <= i < 3 ==> Normalized(rows)[i].fix == rows[i] && Normalized(rows)[i].tN == rows[i].tTagMs
  {
    ThreeKeys(rows.Keys);
    hide InOrder, SeqWrapped, TimeWraps;
    ThreeTimes([0, 1, 2], rows);
  }

  lemma ThreeKeys(keys: set<int>)
    requires keys == {0, 1, 2}
    ensures AllU32(keys) && !SeqWrapped(keys) && InOrder(keys, false) == [0, 1, 2]
  {
    hide InOrder;
    Agreement.InOrderAscends(keys, false);
    Agreement.AscendingIsUnique(InOrder(keys, false), [0, 1, 2], false);
  }

  lemma ThreeTimes(order: seq<int>, rows: FixTable)
    requires order == [0, 1, 2] && rows.Keys == {0, 1, 2}
    requires rows[0].tTagMs == 0 && rows[1].tTagMs == 3 && rows[2].tTagMs == 1
    ensures Indexes(order, rows) && forall i :: 0 <= i < 3 ==> TimeWraps(order, rows, i) == 0
  {
    assert TimeWraps(order, rows, 0) == 0;
    assert TimeWraps(order, rows, 1) == 0;
    assert TimeWraps(order, rows, 2) == 0;
  }

  lemma WindowOfThree(a: Row, b: Row, c: Row, fromMs: int, toMs: int)
    ensures InWindow([a, b, c], fromMs, toMs)
      == (if fromMs <= a.tN <= toMs then [a] else [])
       + (if fromMs <= b.tN <= toMs then [b] else [])
       + (if fromMs <= c.tN <= toMs then [c] else [])
  {
    assert [a, b, c] == [a, b] + [c] && [a, b] == [a] + [b] && [a] == [] + [a];
    WindowSnoc([a, b], c, fromMs, toMs);
    WindowSnoc([a], b, fromMs, toMs);
    WindowSnoc([], a, fromMs, toMs);
  }
}
