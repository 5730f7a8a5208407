/** Gauss-Jordan elimination as `_critical_edges` performs it, with the tolerance taken as zero. */
module Elimination {
  import opened Rows
  import opened ColumnRank

  /** One elimination step: the pivot row is swapped into place, divided by its pivot, and cleared from all others. */
  function Pivoted(m: Matrix, row: nat, best: nat, col: nat): (p: Matrix)
    requires row <= best < |m| && (forall r :: 0 <= r < |m| ==> |m[r]| == |m[best]|)
    requires col < |m[best]| && m[best][col] != 0.0
    ensures |p| == |m| && forall r :: 0 <= r < |p| ==> |p[r]| == |m[best]|
  {
    var unit := Scaled(m[best], 1.0 / m[best][col]);
    seq(|m|, i requires 0 <= i < |m| =>
      if i == row then unit
      else if i == best then Minus(m[row], m[row][col], unit)
      else Minus(m[i], m[i][col], unit))
  }

  /** The product of each row of a step with `y`. */
  lemma PivotedDot(m: Matrix, row: nat, best: nat, col: nat, y: Row, i: nat)
    requires row <= best < |m| && (forall r :: 0 <= r < |m| ==> |m[r]| == |y|)
    requires col < |y| && m[best][col] != 0.0 && i < |m|
    ensures var p := Pivoted(m, row, best, col);
      && (Dot(p[row], y) == 0.0 <==> Dot(m[best], y) == 0.0)
      && (i != row ==>
           var source := if i == best then m[row] else m[i];
           Dot(p[i], y) == Dot(source, y) - source[col] * Dot(p[row], y))
  {
    hide Dot;
    var p := Pivoted(m, row, best, col);
    ScaledVanishes(m[best], m[best][col], y);
    if i != row {
      var source := if i == best then m[row] else m[i];
      DotMinus(source, source[col], p[row], y);
    }
  }

  lemma ScaledVanishes(a: Row, x: real, y: Row)
    requires |a| == |y| && x != 0.0
    ensures Dot(Scaled(a, 1.0 / x), y) == 0.0 <==> Dot(a, y) == 0.0
  {
    DotScaled(a, 1.0 / x, y);
    NoZeroProduct(1.0 / x, Dot(a, y));
  }

  lemma PivotedKeepsKernel(m: Matrix, row: nat, best: nat, col: nat, width: nat)
    requires Shape(m, |m|, width) && row <= best < |m| && col < width && m[best][col] != 0.0
    ensures SameKernel(m, Pivoted(m, row, best, col))
  {
    var p := Pivoted(m, row, best, col);
    forall y: Row ensures Annihilates(m, y) <==> Annihilates(p, y) {
      if |y| == width {
        SameForOne(m, row, best, col, y);
      } else {
        assert |m[best]| == width && |p[best]| == width;
      }
    }
  }

  lemma SameForOne(m: Matrix, row: nat, best: nat, col: nat, y: Row)
    requires row <= best < |m| && (forall r :: 0 <= r < |m| ==> |m[r]| == |y|)
    requires col < |y| && m[best][col] != 0.0
    ensures Annihilates(m, y) <==> Annihilates(Pivoted(m, row, best, col), y)
  {
    hide Dot, Pivoted;
    var p := Pivoted(m, row, best, col);
    if Annihilates(m, y) {
      forall i | 0 <= i < |p| ensures Dot(p[i], y) == 0.0 {
        PivotedDot(m, row, best, col, y, i);
        assert Dot(m[best], y) == 0.0 && Dot(m[row], y) == 0.0 && Dot(m[i], y) == 0.0;
      }
    }
    if Annihilates(p, y) {
      forall i | 0 <= i < |m| ensures Dot(m[i], y) == 0.0 {
        var at := if i == row then best else i;
        PivotedDot(m, row, best, col, y, at);
        assert Dot(p[row], y) == 0.0 && Dot(p[at], y) == 0.0;
      }
    }
  }

  lemma SameKernelSameRank(m: Matrix, p: Matrix, width: nat, u: set<nat>, r: nat)
    requires SameKernel(m, p)
    ensures IsRank(m, width, u, r) <==> IsRank(p, width, u, r)
  {
    forall t ensures Independent(m, width, t) <==> Independent(p, width, t) {
      assert forall w: Row :: Kernel(m, width, w) <==> Kernel(p, width, w);
    }
  }

  lemma SameKernelSameIndispensable(m: Matrix, p: Matrix, width: nat, e: nat)
    requires SameKernel(m, p) && e < width
    ensures Indispensable(m, width, e) <==> Indispensable(p, width, e)
  {
    assert forall w: Row :: Kernel(m, width, w) <==> Kernel(p, width, w);
  }

  /** A step with a nonzero pivot adds that column to the echelon form. */
  lemma PivotStep(m: Matrix, width: nat, pivots: seq<nat>, col: nat, best: nat)
    requires Echelon(m, width, pivots, col) && col < width && |pivots| <= best < |m| && m[best][col] != 0.0
    ensures Echelon(Pivoted(m, |pivots|, best, col), width, pivots + [col], col + 1)
  {
    var row := |pivots|;
    var p := Pivoted(m, row, best, col);
    EarlierColumns(m, width, pivots, col, best);
    ClearedColumn(m, row, best, col);
    hide Pivoted;
    var next := pivots + [col];
    forall r, o | 0 <= r < |next| && 0 <= o < |m| ensures p[o][next[r]] == if o == r then 1.0 else 0.0 {
      if r < row {
        assert o != r ==> m[o][pivots[r]] == 0.0;
        assert m[r][pivots[r]] == 1.0;
      }
    }
    forall o, c | |next| <= o < |m| && 0 <= c < col + 1 ensures p[o][c] == 0.0 {
      if c < col {
        assert m[row][c] == 0.0 && m[o][c] == 0.0;
      }
    }
  }

  /** A step leaves the columns before it as they are. */
  lemma EarlierColumns(m: Matrix, width: nat, pivots: seq<nat>, col: nat, best: nat)
    requires Echelon(m, width, pivots, col) && col < width && |pivots| <= best < |m| && m[best][col] != 0.0
    ensures var p := Pivoted(m, |pivots|, best, col);
      forall o, c :: 0 <= o < |m| && 0 <= c < col ==> p[o][c] == m[o][c]
  {
    var row := |pivots|;
    var p := Pivoted(m, row, best, col);
    forall o, c | 0 <= o < |m| && 0 <= c < col ensures p[o][c] == m[o][c] {
      assert m[best][c] == 0.0 && m[row][c] == 0.0;
      StepEntry(m, row, best, col, row, c);
      StepEntry(m, row, best, col, o, c);
      var source := if o == best then m[row] else m[o];
      NothingSubtracted(source[c], source[col], p[row][c]);
    }
  }

  /** A step clears its column everywhere but in the pivot row. */
  lemma ClearedColumn(m: Matrix, row: nat, best: nat, col: nat)
    requires row <= best < |m| && (forall r :: 0 <= r < |m| ==> |m[r]| == |m[best]|)
    requires col < |m[best]| && m[best][col] != 0.0
    ensures var p := Pivoted(m, row, best, col);
      forall o :: 0 <= o < |m| ==> p[o][col] == if o == row then 1.0 else 0.0
  {
    var p := Pivoted(m, row, best, col);
    TimesInverse(m[best][col]);
    StepEntry(m, row, best, col, row, col);
    forall o | 0 <= o < |m| ensures p[o][col] == if o == row then 1.0 else 0.0 {
      StepEntry(m, row, best, col, o, col);
    }
  }

  lemma StepEntry(m: Matrix, row: nat, best: nat, col: nat, o: nat, c: nat)
    requires row <= best < |m| && (forall r :: 0 <= r < |m| ==> |m[r]| == |m[best]|)
    requires col < |m[best]| && m[best][col] != 0.0 && o < |m| && c < |m[best]|
    ensures var p := Pivoted(m, row, best, col);
      var source := if o == best then m[row] else m[o];
      p[o][c] == if o == row then m[best][c] * (1.0 / m[best][col]) else Less(source[c], source[col], p[row][c])
  {}

  lemma TimesInverse(x: real)
    requires x != 0.0
    ensures x * (1.0 / x) == 1.0
  {}

  /** A column that is zero below the pivots is passed over. */
  lemma SkipStep(m: Matrix, width: nat, pivots: seq<nat>, col: nat)
    requires Echelon(m, width, pivots, col) && col < width
    requires forall o :: |pivots| <= o < |m| ==> m[o][col] == 0.0
    ensures Echelon(m, width, pivots, col + 1)
  {}

  /** Every matrix has a complete echelon form with the same kernel. */
  lemma {:induction false} EchelonFrom(m: Matrix, width: nat, pivots: seq<nat>, col: nat)
      returns (p: Matrix, all: seq<nat>)
    requires Echelon(m, width, pivots, col)
    ensures SameKernel(m, p) && Complete(p, width, all)
    decreases width - col
  {
    if col == width {
      p, all := m, pivots;
    } else if forall o :: |pivots| <= o < |m| ==> m[o][col] == 0.0 {
      SkipStep(m, width, pivots, col);
      p, all := EchelonFrom(m, width, pivots, col + 1);
    } else {
      var best: nat :| |pivots| <= best < |m| && m[best][col] != 0.0;
      var next := Pivoted(m, |pivots|, best, col);
      PivotStep(m, width, pivots, col, best);
      PivotedKeepsKernel(m, |pivots|, best, col, width);
      p, all := EchelonFrom(next, width, pivots + [col], col + 1);
      SameKernelTwice(m, next, p);
    }
  }

  /** Removing a column lowers the rank exactly when no dependency involves it. */
  lemma RankDrops(m: Matrix, width: nat, e: nat, rank: nat)
    requires Shape(m, |m|, width) && e < width && IsRank(m, width, Columns(width), rank)
    ensures Indispensable(m, width, e) ==> rank > 0 && IsRank(m, width, Columns(width) - {e}, rank - 1)
    ensures !Indispensable(m, width, e) ==> IsRank(m, width, Columns(width) - {e}, rank)
  {
    var p, pivots := EchelonFrom(m, width, [], 0);
    PivotsAreRank(p, width, pivots);
    SameKernelSameRank(m, p, width, Columns(width), |pivots|);
    RankIsUnique(m, width, Columns(width), rank, |pivots|);
    SameKernelSameIndispensable(m, p, width, e);
    RankDropsIffIndispensable(p, width, pivots, e);
    SameKernelSameRank(m, p, width, Columns(width) - {e}, rank);
    if rank > 0 {
      SameKernelSameRank(m, p, width, Columns(width) - {e}, rank - 1);
    }
  }

  /** Swaps the pivot row into place, divides it by the pivot and clears the column from the other rows. */
  method Pivot(m0: Matrix, width: nat, row: nat, best: nat, col: nat) returns (m: Matrix)
    requires Shape(m0, |m0|, width) && row <= best < |m0| && col < width && m0[best][col] != 0.0
    ensures m == Pivoted(m0, row, best, col)
  {
    ghost var goal := Pivoted(m0, row, best, col);
    m := Swap(m0, row, best);
    var pivot := m[row][col];
    m := m[row := Scaled(m[row], 1.0 / pivot)];
    ghost var scaled := m;
    assert m[row] == goal[row];
    for other := 0 to |m|
      invariant |m| == |m0| && m[row] == goal[row]
      invariant forall i :: 0 <= i < other ==> m[i] == goal[i]
      invariant forall i :: other <= i < |m| ==> m[i] == scaled[i]
    {
      if other != row {
        assert m[other] == if other == best then m0[row] else m0[other];
        if m[other][col] != 0.0 {
          var factor := m[other][col];
          m := m[other := Minus(m[other], factor, m[row])];
        } else {
          MinusNothing(m[other], m[row]);
        }
      }
    }
  }

  lemma MinusNothing(a: Row, b: Row)
    requires |a| == |b|
    ensures Minus(a, 0.0, b) == a
  {
    forall k | 0 <= k < |a| ensures Minus(a, 0.0, b)[k] == a[k] {
      assert Less(a[k], 0.0, b[k]) == a[k];
    }
  }

  /** Reduces the matrix, column by column, until the columns or the rows run out. */
  method GaussJordan(m0: Matrix, width: nat) returns (m: Matrix, pivots: seq<nat>)
    requires Shape(m0, |m0|, width)
    ensures SameKernel(m0, m) && Complete(m, width, pivots) && |m| == |m0|
  {
    m, pivots := m0, [];
    var col := 0;
    while col < width && |pivots| < |m|
      invariant 0 <= col <= width && |m| == |m0|
      invariant SameKernel(m0, m) && Echelon(m, width, pivots, col)
      decreases width - col
    {
      var best := FindBest(m, width, |pivots|, col);
      if Abs(m[best][col]) == 0.0 {
        forall o | |pivots| <= o < |m| ensures m[o][col] == 0.0 {
          assert Abs(m[o][col]) <= Abs(m[best][col]);
        }
        SkipStep(m, width, pivots, col);
      } else {
        PivotStep(m, width, pivots, col, best);
        PivotedKeepsKernel(m, |pivots|, best, col, width);
        SameKernelTwice(m0, m, Pivoted(m, |pivots|, best, col));
        m := Pivot(m, width, |pivots|, best, col);
        pivots := pivots + [col];
      }
      col := col + 1;
    }
    RowsUsedUp(m, width, pivots, col);
  }

  lemma RowsUsedUp(m: Matrix, width: nat, pivots: seq<nat>, col: nat)
    requires Echelon(m, width, pivots, col) && (col == width || |pivots| == |m|)
    ensures Complete(m, width, pivots)
  {}
}

/** The pairs a survey cannot do without: `_critical_edges` of tools/survey_solve.py. */
module Rigidity {
  import opened Rows
  import opened ColumnRank
  import opened Elimination
  import opened Frameworks

  /** The pairs have the rank that fixes the shape. */
  ghost predicate Rigid(m: Matrix, width: nat, n: nat, withBias: bool) {
    exists rank: nat :: IsRank(m, width, Columns(width), rank) && rank >= Needed(n, withBias)
  }

  /** The pairs whose loss lowers the rank, in the order of the list. */
  ghost function Critical(m: Matrix, edges: seq<Edge>, width: nat, upto: nat): seq<(int, int)>
    requires upto <= |edges| == width
  {
    if upto == 0 then []
    else (
      Critical(m, edges, width, upto - 1)
      + if Indispensable(m, width, upto - 1) then [(edges[upto - 1].a, edges[upto - 1].b)] else []
    )
  }

  lemma {:induction false} NoneBetween(m: Matrix, edges: seq<Edge>, width: nat, from: nat, to: nat)
    requires from <= to <= |edges| == width
    requires forall k :: from <= k < to ==> !Indispensable(m, width, k)
    ensures Critical(m, edges, width, to) == Critical(m, edges, width, from)
  {
    if from < to {
      NoneBetween(m, edges, width, from, to - 1);
    }
  }

  /** Fills the matrix pair by pair. */
  method BuildBalance(ids: seq<int>, edges: seq<Edge>, position: map<int, Point>, withBias: bool) returns (rt: Matrix)
    requires Graph(ids, edges, position)
    ensures rt == Balance(ids, edges, position, withBias)
  {
    var n, m := |ids|, |edges|;
    var rows := Equations(n, withBias);
    ghost var goal := Balance(ids, edges, position, withBias);
    rt := seq(rows, r => seq(m, k => 0.0));
    if withBias {
      rt := rt[2 * n := seq(m, k => 1.0)];
    }
    for k := 0 to m
      invariant |rt| == rows && forall r :: 0 <= r < rows ==> |rt[r]| == m
      invariant forall r, j :: 0 <= r < rows && 0 <= j < k ==> rt[r][j] == goal[r][j]
      invariant forall r, j :: 0 <= r < rows && k <= j < m ==> rt[r][j] == if r == 2 * n then 1.0 else 0.0
    {
      var e := edges[k];
      var a := IndexOf(ids, e.a);
      var b := IndexOf(ids, e.b);
      var dx := position[e.a].x - position[e.b].x;
      var dy := position[e.a].y - position[e.b].y;
      rt := SetPair(rt, 2 * a, 2 * b, k, dx, dy);
      forall r | 0 <= r < rows ensures rt[r][k] == goal[r][k] {
        ColumnEntry(ids, edges, position, withBias, rt[r][k], k, a, b, r);
      }
    }
    forall r | 0 <= r < rows ensures rt[r] == goal[r] {}
  }

  /** The four entries of a pair, the second anchor's written last. */
  method SetPair(m0: Matrix, a: nat, b: nat, k: nat, dx: real, dy: real) returns (m: Matrix)
    requires a + 1 < |m0| && b + 1 < |m0| && (a == b || a + 1 < b || b + 1 < a)
    requires forall r :: 0 <= r < |m0| ==> k < |m0[r]|
    ensures |m| == |m0| && forall r :: 0 <= r < |m| ==> |m[r]| == |m0[r]|
    ensures forall r, j :: 0 <= r < |m| && 0 <= j < |m[r]| && j != k ==> m[r][j] == m0[r][j]
    ensures forall r :: 0 <= r < |m| ==> m[r][k] == SetValue(a, b, dx, dy, r, m0[r][k])
  {
    m := m0[a := m0[a][k := dx]];
    m := m[a + 1 := m[a + 1][k := dy]];
    m := m[b := m[b][k := -dx]];
    m := m[b + 1 := m[b + 1][k := -dy]];
  }

  function SetValue(a: nat, b: nat, dx: real, dy: real, r: int, before: real): real {
    if r == b + 1 then -dy
    else if r == b then -dx
    else if r == a + 1 then dy
    else if r == a then dx
    else before
  }

  /** The entries set for a pair are its column of the matrix. */
  lemma ColumnEntry(ids: seq<int>, edges: seq<Edge>, position: map<int, Point>, withBias: bool,
                    value: real, k: nat, a: nat, b: nat, r: nat)
    requires Graph(ids, edges, position) && k < |edges| && r < Equations(|ids|, withBias)
    requires a < |ids| && b < |ids| && ids[a] == edges[k].a && ids[b] == edges[k].b
    requires var p, q := position[edges[k].a], position[edges[k].b];
      value == SetValue(2 * a, 2 * b, p.x - q.x, p.y - q.y, r, if r == 2 * |ids| then 1.0 else 0.0)
    ensures value == Balance(ids, edges, position, withBias)[r][k]
  {
    if r < 2 * |ids| {
      var id := ids[r / 2];
      assert r == 2 * (r / 2) + r % 2;
      assert id == edges[k].a <==> r / 2 == a;
      assert id == edges[k].b <==> r / 2 == b;
    }
  }

  method IndexOf(ids: seq<int>, id: int) returns (k: nat)
    requires id in ids
    ensures k < |ids| && ids[k] == id
  {
    k := 0;
    while ids[k] != id
      invariant k < |ids| && id in ids[k..]
      decreases |ids| - k
    {
      assert ids[k..] == [ids[k]] + ids[k + 1..];
      k := k + 1;
    }
  }

  /** A pair is critical exactly when all pairs fix the shape and the others without it do not. */
  lemma CriticalIsLoss(ids: seq<int>, edges: seq<Edge>, position: map<int, Point>, withBias: bool, e: nat)
    requires Graph(ids, edges, position) && Spread(ids, position) && e < |edges|
    requires FixesShape(ids, edges, Columns(|edges|), position, withBias)
    ensures Indispensable(Balance(ids, edges, position, withBias), |edges|, e)
       <==> !FixesShape(ids, edges, Columns(|edges|) - {e}, position, withBias)
  {
    var m, width := Balance(ids, edges, position, withBias), |edges|;
    hide Graph, Spread, FixesShape, Balance, IsRank, Indispensable;
    var rank := RankExists(m, width);
    RankTestMeansRigid(ids, edges, Columns(width), position, withBias, rank);
    RankDrops(m, width, e, rank);
    var left := if Indispensable(m, width, e) then rank - 1 else rank;
    RankTestMeansRigid(ids, edges, Columns(width) - {e}, position, withBias, left);
  }

  lemma RankExists(m: Matrix, width: nat) returns (rank: nat)
    requires Shape(m, |m|, width)
    ensures IsRank(m, width, Columns(width), rank)
  {
    var p, pivots := EchelonFrom(m, width, [], 0);
    PivotsAreRank(p, width, pivots);
    rank := |pivots|;
    SameKernelSameRank(m, p, width, Columns(width), rank);
  }

  /** The rank test is passed exactly when all pairs together allow no motion but that of the whole. */
  lemma RigidMeansFixed(ids: seq<int>, edges: seq<Edge>, position: map<int, Point>, withBias: bool)
    requires Graph(ids, edges, position) && Spread(ids, position)
    ensures Rigid(Balance(ids, edges, position, withBias), |edges|, |ids|, withBias)
       <==> FixesShape(ids, edges, Columns(|edges|), position, withBias)
  {
    var m, width := Balance(ids, edges, position, withBias), |edges|;
    var rank := RankExists(m, width);
    hide Graph, Spread, FixesShape, Balance;
    RankTestMeansRigid(ids, edges, Columns(width), position, withBias, rank);
    forall r: nat | IsRank(m, width, Columns(width), r) ensures r == rank {
      RankIsUnique(m, width, Columns(width), r, rank);
    }
  }

  /** The pairs without which the others do not fix the shape, in the order of the list. */
  ghost function Losses(ids: seq<int>, edges: seq<Edge>, position: map<int, Point>, withBias: bool, upto: nat)
      : seq<(int, int)>
    requires Graph(ids, edges, position) && upto <= |edges|
  {
    if upto == 0 then []
    else (
      Losses(ids, edges, position, withBias, upto - 1)
      + if FixesShape(ids, edges, Columns(|edges|) - {upto - 1}, position, withBias) then []
        else [(edges[upto - 1].a, edges[upto - 1].b)]
    )
  }

  lemma {:induction false} CriticalAreLosses(ids: seq<int>, edges: seq<Edge>, position: map<int, Point>, withBias: bool, upto: nat)
    requires Graph(ids, edges, position) && Spread(ids, position) && upto <= |edges|
    requires FixesShape(ids, edges, Columns(|edges|), position, withBias)
    ensures Critical(Balance(ids, edges, position, withBias), edges, |edges|, upto)
         == Losses(ids, edges, position, withBias, upto)
  {
    hide Graph, Spread, FixesShape, Balance, Indispensable;
    if upto > 0 {
      CriticalAreLosses(ids, edges, position, withBias, upto - 1);
      CriticalIsLoss(ids, edges, position, withBias, upto - 1);
    }
  }

  /** The pivot's row is zero on every column that is no pivot. */
  method AloneInRow(m: Matrix, width: nat, pivots: seq<nat>, r: nat) returns (alone: bool)
    requires Complete(m, width, pivots) && r < |pivots|
    ensures alone <==> forall f :: 0 <= f < width && f !in PivotSet(pivots) ==> m[r][f] == 0.0
  {
    alone := true;
    for f := 0 to width
      invariant alone <==> forall k :: 0 <= k < f && k !in PivotSet(pivots) ==> m[r][k] == 0.0
    {
      if f !in pivots && m[r][f] != 0.0 {
        InPivots(pivots, f);
        alone := false;
      } else {
        InPivots(pivots, f);
      }
    }
  }

  lemma InPivots(pivots: seq<nat>, f: nat)
    ensures f in pivots <==> f in PivotSet(pivots)
  {}

  /** Exactly the pairs whose loss lowers the rank, in order; none when the shape is not fixed to begin with. */
  method CriticalEdges(ids: seq<int>, edges: seq<Edge>, position: map<int, Point>, withBias: bool)
      returns (critical: seq<(int, int)>)
    requires Graph(ids, edges, position)
    ensures var m := Balance(ids, edges, position, withBias);
      critical == if |ids| < 4 || !Rigid(m, |edges|, |ids|, withBias) then []
                  else Critical(m, edges, |edges|, |edges|)
    ensures Spread(ids, position) ==>
      critical == if |ids| < 4 || !FixesShape(ids, edges, Columns(|edges|), position, withBias) then []
                  else Losses(ids, edges, position, withBias, |edges|)
  {
    if Spread(ids, position) {
      RigidMeansFixed(ids, edges, position, withBias);
      if FixesShape(ids, edges, Columns(|edges|), position, withBias) {
        CriticalAreLosses(ids, edges, position, withBias, |edges|);
      }
    }
    hide Spread, FixesShape, Losses, Balance;
    if |ids| < 4 {
      return [];
    }
    var width := |edges|;
    var start := BuildBalance(ids, edges, position, withBias);
    var m, pivots := GaussJordan(start, width);
    PivotsAreRank(m, width, pivots);
    SameKernelSameRank(start, m, width, Columns(width), |pivots|);
    if |pivots| < Needed(|ids|, withBias) {
      forall rank: nat | IsRank(start, width, Columns(width), rank) ensures rank < Needed(|ids|, withBias) {
        RankIsUnique(start, width, Columns(width), rank, |pivots|);
      }
      return [];
    }
    critical := SelectCritical(start, m, edges, pivots);
  }

  method SelectCritical(ghost start: Matrix, m: Matrix, edges: seq<Edge>, pivots: seq<nat>)
      returns (critical: seq<(int, int)>)
    requires SameKernel(start, m) && Complete(m, |edges|, pivots)
    ensures critical == Critical(start, edges, |edges|, |edges|)
  {
    ghost var width := |edges|;
    critical := [];
    ghost var done: nat := 0;
    for r := 0 to |pivots|
      invariant done == if r == 0 then 0 else pivots[r - 1] + 1
      invariant done <= width && critical == Critical(start, edges, width, done)
    {
      var col := pivots[r];
      GapIsFree(start, m, width, pivots, r, done);
      NoneBetween(start, edges, width, done, col);
      PivotRowDecides(m, width, pivots, r);
      SameKernelSameIndispensable(start, m, width, col);
      var alone := AloneInRow(m, |edges|, pivots, r);
      if alone {
        critical := critical + [(edges[col].a, edges[col].b)];
      }
      done := col + 1;
    }
    GapIsFree(start, m, width, pivots, |pivots|, done);
    NoneBetween(start, edges, width, done, width);
  }

  /** The columns between two pivots are no pivots, so their pairs can be spared. */
  lemma GapIsFree(start: Matrix, m: Matrix, width: nat, pivots: seq<nat>, r: nat, done: nat)
    requires SameKernel(start, m) && Complete(m, width, pivots) && r <= |pivots|
    requires done == if r == 0 then 0 else pivots[r - 1] + 1
    ensures forall k: nat :: done <= k < (if r < |pivots| then pivots[r] else width) ==> !Indispensable(start, width, k)
  {
    forall k: nat | done <= k < (if r < |pivots| then pivots[r] else width)
      ensures !Indispensable(start, width, k)
    {
      NoPivotBetween(pivots, r, k);
      FreeIsDispensable(m, width, pivots, k);
      SameKernelSameIndispensable(start, m, width, k);
    }
  }

  lemma NoPivotBetween(pivots: seq<nat>, r: nat, k: nat)
    requires (forall i, j :: 0 <= i < j < |pivots| ==> pivots[i] < pivots[j]) && r <= |pivots|
    requires (r == 0 || pivots[r - 1] < k) && (r == |pivots| || k < pivots[r])
    ensures k !in PivotSet(pivots)
  {
    forall s | 0 <= s < |pivots| ensures pivots[s] != k {
      assert s < r ==> s == r - 1 || pivots[s] < pivots[r - 1];
      assert s >= r ==> s == r || pivots[r] < pivots[s];
    }
  }

  lemma RankDiffers(m: Matrix, width: nat, u: set<nat>, rank: nat)
    requires rank > 0 && IsRank(m, width, u, rank - 1)
    ensures !IsRank(m, width, u, rank)
  {}

  /** A pair is critical exactly when no self-stress uses it, which is when losing it lowers the rank. */
  lemma CriticalLowersRank(ids: seq<int>, edges: seq<Edge>, position: map<int, Point>, withBias: bool, e: nat, rank: nat)
    requires Graph(ids, edges, position) && e < |edges|
    requires IsRank(Balance(ids, edges, position, withBias), |edges|, Columns(|edges|), rank)
    ensures var m := Balance(ids, edges, position, withBias);
      && (Indispensable(m, |edges|, e) <==> !IsRank(m, |edges|, Columns(|edges|) - {e}, rank))
      && (Indispensable(m, |edges|, e) ==> rank > 0 && IsRank(m, |edges|, Columns(|edges|) - {e}, rank - 1))
  {
    var m := Balance(ids, edges, position, withBias);
    RankDrops(m, |edges|, e, rank);
    if Indispensable(m, |edges|, e) {
      RankDiffers(m, |edges|, Columns(|edges|) - {e}, rank);
    }
  }

  /** Which pairs the list names. */
  lemma {:induction false} CriticalMembers(m: Matrix, edges: seq<Edge>, width: nat, upto: nat, pair: (int, int))
    requires upto <= |edges| == width
    ensures pair in Critical(m, edges, width, upto)
       <==> exists k: nat :: k < upto && Indispensable(m, width, k) && pair == (edges[k].a, edges[k].b)
  {
    if upto > 0 {
      CriticalMembers(m, edges, width, upto - 1, pair);
    }
  }
}
