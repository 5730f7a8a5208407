/** Column rank, and what a reduced row echelon form says about it. */
module ColumnRank {
  import opened Rows

  /** Nonzero only on the columns of `t`. */
  ghost predicate Supported(w: Row, t: set<nat>) {
    forall k: nat :: k < |w| && k !in t ==> w[k] == 0.0
  }

  /** A kernel vector of the right length. */
  ghost predicate Kernel(m: Matrix, width: nat, w: Row) {
    |w| == width && Annihilates(m, w)
  }

  /** The columns of `t` are linearly independent. */
  ghost predicate Independent(m: Matrix, width: nat, t: set<nat>) {
    && (forall k :: k in t ==> k < width)
    && forall w: Row :: Kernel(m, width, w) && Supported(w, t) ==> Zero(w)
  }

  /** The largest independent sets of columns within `u` have `r` members. */
  ghost predicate IsRank(m: Matrix, width: nat, u: set<nat>, r: nat) {
    && (exists t :: t <= u && |t| == r && Independent(m, width, t))
    && (forall t :: t <= u && Independent(m, width, t) ==> |t| <= r)
  }

  function Columns(width: nat): (s: set<nat>)
    ensures |s| == width && forall k: nat :: k in s <==> k < width
  {
    if width == 0 then {} else Columns(width - 1) + {width - 1}
  }

  lemma RankIsUnique(m: Matrix, width: nat, u: set<nat>, r: nat, s: nat)
    requires IsRank(m, width, u, r) && IsRank(m, width, u, s)
    ensures r == s
  {}

  function Unit(width: nat, t: nat): (w: Row)
    ensures |w| == width && forall k :: 0 <= k < width ==> w[k] == if k == t then 1.0 else 0.0
  {
    seq(width, k => if k == t then 1.0 else 0.0)
  }

  /** More columns than equations: some nonzero combination of them vanishes. */
  lemma {:induction false} Underdetermined(a: Matrix, width: nat, t: set<nat>) returns (w: Row)
    requires Shape(a, |a|, width) && |t| > |a| && forall k :: k in t ==> k < width
    ensures Kernel(a, width, w) && Supported(w, t) && !Zero(w)
    decreases |a|
  {
    if a == [] {
      var k :| k in t;
      w := Unit(width, k);
      assert w[k] != 0.0;
    } else {
      var rest, last := a[..|a| - 1], a[|a| - 1];
      if forall k :: k in t ==> last[k] == 0.0 {
        w := Underdetermined(rest, width, t);
        forall k | 0 <= k < width ensures last[k] == 0.0 || w[k] == 0.0 {}
        DotZero(last, w);
        KernelSnoc(rest, last, width, w);
      } else {
        var k :| k in t && last[k] != 0.0;
        var cleared := Cleared(rest, last, k);
        var part := Underdetermined(cleared, width, t - {k});
        w := Extended(rest, last, width, t, k, cleared, part);
        assert a == rest + [last];
      }
    }
  }

  lemma KernelSnoc(rest: Matrix, last: Row, width: nat, w: Row)
    requires Kernel(rest, width, w) && |last| == width && Dot(last, w) == 0.0
    ensures Kernel(rest + [last], width, w)
  {}

  /** Every row with the `k`-th column cleared by means of `last`. */
  function Cleared(rest: Matrix, last: Row, k: nat): (r: Matrix)
    requires k < |last| && last[k] != 0.0 && forall i :: 0 <= i < |rest| ==> |rest[i]| == |last|
    ensures |r| == |rest|
    ensures forall i :: 0 <= i < |rest| ==> r[i] == Minus(rest[i], rest[i][k] / last[k], last)
  {
    seq(|rest|, i requires 0 <= i < |rest| => Minus(rest[i], rest[i][k] / last[k], last))
  }

  lemma ClearedEntry(x: real, p: real)
    requires p != 0.0
    ensures Less(x, x / p, p) == 0.0
  {}

  lemma Balanced(d: real, p: real)
    requires p != 0.0
    ensures d + p * ((-d) / p - 0.0) == 0.0
  {}

  /** A solution without column `k` extends to one with it. */
  lemma Extended(rest: Matrix, last: Row, width: nat, t: set<nat>, k: nat, cleared: Matrix, part: Row) returns (w: Row)
    requires |last| == width && k < width && k in t && last[k] != 0.0 && Shape(rest, |rest|, width)
    requires cleared == Cleared(rest, last, k)
    requires Kernel(cleared, width, part) && Supported(part, t - {k}) && !Zero(part)
    ensures Kernel(rest + [last], width, w) && Supported(w, t) && !Zero(w)
  {
    var v := (-Dot(last, part)) / last[k];
    w := part[k := v];
    assert part[k] == 0.0;
    DotUpdate(last, part, k, v);
    Balanced(Dot(last, part), last[k]);
    forall i | 0 <= i < |rest| ensures Dot(rest[i], w) == 0.0 {
      var f := rest[i][k] / last[k];
      DotMinus(rest[i], f, last, w);
      DotUpdate(cleared[i], part, k, v);
      ClearedEntry(rest[i][k], last[k]);
      assert cleared[i][k] == 0.0 && Dot(cleared[i], part) == 0.0;
      assert f * Dot(last, w) == 0.0;
    }
    KernelSnoc(rest, last, width, w);
    var j :| 0 <= j < width && part[j] != 0.0;
    assert w[j] != 0.0;
  }

  // ---------------------------------------------------------------- reduced row echelon form

  /** Row `r` has its pivot in column `pivots[r]`, alone in that column; the remaining rows are zero up to `col`. */
  ghost predicate Echelon(m: Matrix, width: nat, pivots: seq<nat>, col: nat) {
    && Shape(m, |m|, width) && |pivots| <= |m| && col <= width
    && (forall r :: 0 <= r < |pivots| ==> pivots[r] < col && m[r][pivots[r]] == 1.0)
    && (forall r, s :: 0 <= r < s < |pivots| ==> pivots[r] < pivots[s])
    && (forall r, o :: 0 <= r < |pivots| && 0 <= o < |m| && o != r ==> m[o][pivots[r]] == 0.0)
    && (forall o, c :: |pivots| <= o < |m| && 0 <= c < col ==> m[o][c] == 0.0)
  }

  function PivotSet(pivots: seq<nat>): set<nat> {
    set r | 0 <= r < |pivots| :: pivots[r]
  }

  lemma PivotSetSnoc(front: seq<nat>, last: nat)
    ensures PivotSet(front + [last]) == PivotSet(front) + {last}
  {
    var all := front + [last];
    forall x | x in PivotSet(all) ensures x in PivotSet(front) + {last} {
      var r :| 0 <= r < |all| && all[r] == x;
      assert r < |front| ==> front[r] == x;
    }
    forall x | x in PivotSet(front) + {last} ensures x in PivotSet(all) {
      if x == last {
        assert all[|front|] == x;
      } else {
        var r :| 0 <= r < |front| && front[r] == x;
        assert all[r] == x;
      }
    }
  }

  lemma {:induction false} PivotCount(pivots: seq<nat>)
    requires forall r, s :: 0 <= r < s < |pivots| ==> pivots[r] < pivots[s]
    ensures |PivotSet(pivots)| == |pivots|
  {
    if pivots == [] {
      assert PivotSet(pivots) == {};
    } else {
      var front, last := pivots[..|pivots| - 1], pivots[|pivots| - 1];
      PivotCount(front);
      PivotSetSnoc(front, last);
      assert last !in PivotSet(front);
      hide PivotSet;
      assert pivots == front + [last];
    }
  }

  /** A complete echelon form: the rows past the pivots vanish. */
  ghost predicate Complete(m: Matrix, width: nat, pivots: seq<nat>) {
    Echelon(m, width, pivots, width)
  }

  lemma PivotsIndependent(m: Matrix, width: nat, pivots: seq<nat>)
    requires Complete(m, width, pivots)
    ensures Independent(m, width, PivotSet(pivots))
  {
    forall w: Row | Kernel(m, width, w) && Supported(w, PivotSet(pivots)) ensures Zero(w) {
      forall k | 0 <= k < width ensures w[k] == 0.0 {
        if k in PivotSet(pivots) {
          var r :| 0 <= r < |pivots| && pivots[r] == k;
          assert Dot(m[r], w) == 0.0;
          forall j | 0 <= j < width && j != k ensures m[r][j] == 0.0 || w[j] == 0.0 {
            if j in PivotSet(pivots) {
              var s :| 0 <= s < |pivots| && pivots[s] == j;
              assert m[r][pivots[s]] == 0.0;
            }
          }
          DotSingle(m[r], w, k);
        }
      }
    }
  }

  /** More columns than pivots are dependent. */
  lemma TooMany(m: Matrix, width: nat, pivots: seq<nat>, t: set<nat>)
    requires Complete(m, width, pivots) && |t| > |pivots| && forall k :: k in t ==> k < width
    ensures !Independent(m, width, t)
  {
    var top := m[..|pivots|];
    var w := Underdetermined(top, width, t);
    forall r | 0 <= r < |m| ensures Dot(m[r], w) == 0.0 {
      if r < |pivots| {
        assert Dot(top[r], w) == 0.0;
      } else {
        DotZero(m[r], w);
      }
    }
    assert Kernel(m, width, w) && Supported(w, t) && !Zero(w);
  }

  /** The pivots number the rank. */
  lemma PivotsAreRank(m: Matrix, width: nat, pivots: seq<nat>)
    requires Complete(m, width, pivots)
    ensures IsRank(m, width, Columns(width), |pivots|)
  {
    PivotsIndependent(m, width, pivots);
    PivotCount(pivots);
    assert PivotSet(pivots) <= Columns(width);
    hide Independent, Complete;
    forall t | t <= Columns(width) && Independent(m, width, t) ensures |t| <= |pivots| {
      if |t| > |pivots| {
        TooMany(m, width, pivots, t);
      }
    }
  }

  /** Every vector of the kernel is zero at `e`: no dependency involves column `e`. */
  ghost predicate Indispensable(m: Matrix, width: nat, e: nat)
    requires e < width
  {
    forall w: Row :: Kernel(m, width, w) ==> w[e] == 0.0
  }

  /** The kernel vector that sets one free column to one and balances it with the pivots. */
  function Dependency(m: Matrix, width: nat, pivots: seq<nat>, f: nat): (w: Row)
    requires Echelon(m, width, pivots, width) && f < width
    ensures |w| == width
  {
    seq(width, k requires 0 <= k < width =>
      if k == f then 1.0
      else if exists r :: 0 <= r < |pivots| && pivots[r] == k then
        var r :| 0 <= r < |pivots| && pivots[r] == k; -m[r][f]
      else 0.0)
  }

  lemma DependencyEntries(m: Matrix, width: nat, pivots: seq<nat>, f: nat)
    requires Complete(m, width, pivots) && f < width && f !in PivotSet(pivots)
    ensures var w := Dependency(m, width, pivots, f);
      && w[f] == 1.0
      && (forall r :: 0 <= r < |pivots| ==> w[pivots[r]] == -m[r][f])
      && (forall k :: 0 <= k < width && k != f && k !in PivotSet(pivots) ==> w[k] == 0.0)
  {}

  lemma DotPair(a: Row, y: Row, i: nat, j: nat)
    requires |a| == |y| && i < |a| && j < |a| && i != j
    requires forall k :: 0 <= k < |a| && k != i && k != j ==> a[k] == 0.0 || y[k] == 0.0
    ensures Dot(a, y) == a[i] * y[i] + a[j] * y[j]
  {
    hide Dot;
    var blank := y[i := 0.0];
    forall k | 0 <= k < |a| && k != j ensures a[k] == 0.0 || blank[k] == 0.0 {
      assert k != i ==> a[k] == 0.0 || y[k] == 0.0;
    }
    DotSingle(a, blank, j);
    DotUpdate(a, blank, i, y[i]);
    assert blank[i := y[i]] == y;
  }

  lemma DependencyInKernel(m: Matrix, width: nat, pivots: seq<nat>, f: nat)
    requires Complete(m, width, pivots) && f < width && f !in PivotSet(pivots)
    ensures Kernel(m, width, Dependency(m, width, pivots, f))
  {
    var w := Dependency(m, width, pivots, f);
    DependencyEntries(m, width, pivots, f);
    hide Dependency, Dot;
    forall r | 0 <= r < |m| ensures Dot(m[r], w) == 0.0 {
      if r < |pivots| {
        PivotRowTimes(m, width, pivots, f, w, r);
      } else {
        DotZero(m[r], w);
      }
    }
  }

  lemma PivotRowTimes(m: Matrix, width: nat, pivots: seq<nat>, f: nat, w: Row, r: nat)
    requires Complete(m, width, pivots) && f < width && f !in PivotSet(pivots) && r < |pivots|
    requires |w| == width && w[f] == 1.0 && w[pivots[r]] == -m[r][f]
    requires forall k :: 0 <= k < width && k != f && k !in PivotSet(pivots) ==> w[k] == 0.0
    ensures Dot(m[r], w) == 0.0
  {
    hide Dot;
    assert pivots[r] in PivotSet(pivots);
    forall k | 0 <= k < width && k != f && k != pivots[r] ensures m[r][k] == 0.0 || w[k] == 0.0 {
      if k in PivotSet(pivots) {
        var s :| 0 <= s < |pivots| && pivots[s] == k;
        assert m[r][pivots[s]] == 0.0;
      }
    }
    DotPair(m[r], w, f, pivots[r]);
  }

  /** A free column always has a dependency through it. */
  lemma FreeIsDispensable(m: Matrix, width: nat, pivots: seq<nat>, f: nat)
    requires Complete(m, width, pivots) && f < width && f !in PivotSet(pivots)
    ensures !Indispensable(m, width, f)
  {
    DependencyInKernel(m, width, pivots, f);
    DependencyEntries(m, width, pivots, f);
  }

  /** A pivot column is indispensable exactly when its row is zero on every free column. */
  lemma PivotRowDecides(m: Matrix, width: nat, pivots: seq<nat>, r: nat)
    requires Complete(m, width, pivots) && r < |pivots|
    ensures Indispensable(m, width, pivots[r])
       <==> forall f :: 0 <= f < width && f !in PivotSet(pivots) ==> m[r][f] == 0.0
  {
    if forall f :: 0 <= f < width && f !in PivotSet(pivots) ==> m[r][f] == 0.0 {
      forall w: Row | Kernel(m, width, w) ensures w[pivots[r]] == 0.0 {
        assert Dot(m[r], w) == 0.0;
        forall j | 0 <= j < width && j != pivots[r] ensures m[r][j] == 0.0 || w[j] == 0.0 {
          if j in PivotSet(pivots) {
            var s :| 0 <= s < |pivots| && pivots[s] == j;
            assert m[r][pivots[s]] == 0.0;
          }
        }
        DotSingle(m[r], w, pivots[r]);
      }
    } else {
      var f :| 0 <= f < width && f !in PivotSet(pivots) && m[r][f] != 0.0;
      DependencyInKernel(m, width, pivots, f);
      DependencyEntries(m, width, pivots, f);
    }
  }

  // ---------------------------------------------------------------- removing a column

  lemma DropIndispensable(m: Matrix, width: nat, e: nat, rank: nat)
    requires e < width && IsRank(m, width, Columns(width), rank) && Indispensable(m, width, e)
    requires exists t :: t <= Columns(width) && |t| == rank && e in t && Independent(m, width, t)
    ensures rank > 0 && IsRank(m, width, Columns(width) - {e}, rank - 1)
  {
    var rest := Columns(width) - {e};
    var t :| t <= Columns(width) && |t| == rank && e in t && Independent(m, width, t);
    FewerIndependent(m, width, t - {e}, t);
    assert t - {e} <= rest && |t - {e}| == rank - 1;
    forall s | s <= rest && Independent(m, width, s) ensures |s| <= rank - 1 {
      forall w: Row | Kernel(m, width, w) && Supported(w, s + {e}) ensures Zero(w) {
        assert w[e] == 0.0;
        assert Supported(w, s);
      }
      assert Independent(m, width, s + {e});
      assert s + {e} <= Columns(width);
    }
  }

  lemma FewerIndependent(m: Matrix, width: nat, s: set<nat>, t: set<nat>)
    requires s <= t && Independent(m, width, t)
    ensures Independent(m, width, s)
  {
    forall w: Row | Kernel(m, width, w) && Supported(w, s) ensures Zero(w) {
      assert Supported(w, t);
    }
  }

  /** Removing a column lowers the rank exactly when the column is indispensable. */
  lemma RankDropsIffIndispensable(m: Matrix, width: nat, pivots: seq<nat>, e: nat)
    requires Complete(m, width, pivots) && e < width
    ensures Indispensable(m, width, e) ==> |pivots| > 0 && IsRank(m, width, Columns(width) - {e}, |pivots| - 1)
    ensures !Indispensable(m, width, e) ==> IsRank(m, width, Columns(width) - {e}, |pivots|)
  {
    PivotsAreRank(m, width, pivots);
    PivotsIndependent(m, width, pivots);
    PivotCount(pivots);
    assert PivotSet(pivots) <= Columns(width);
    if Indispensable(m, width, e) {
      if e !in PivotSet(pivots) {
        FreeIsDispensable(m, width, pivots, e);
      }
      DropIndispensable(m, width, e, |pivots|);
    } else if e !in PivotSet(pivots) {
      assert PivotSet(pivots) <= Columns(width) - {e};
    } else {
      var r :| 0 <= r < |pivots| && pivots[r] == e;
      PivotRowDecides(m, width, pivots, r);
      var f :| 0 <= f < width && f !in PivotSet(pivots) && m[r][f] != 0.0;
      Exchange(m, width, pivots, r, f);
      var t := PivotSet(pivots) - {e} + {f};
      assert |t| == |pivots| && t <= Columns(width) - {e};
    }
  }

  /** A free column that meets the pivot's row can take the pivot's place. */
  lemma Exchange(m: Matrix, width: nat, pivots: seq<nat>, r: nat, f: nat)
    requires Complete(m, width, pivots) && r < |pivots| && f < width && f !in PivotSet(pivots) && m[r][f] != 0.0
    ensures Independent(m, width, PivotSet(pivots) - {pivots[r]} + {f})
  {
    var t := PivotSet(pivots) - {pivots[r]} + {f};
    forall w: Row | Kernel(m, width, w) && Supported(w, t) ensures Zero(w) {
      assert w[pivots[r]] == 0.0;
      assert Dot(m[r], w) == 0.0;
      forall j | 0 <= j < width && j != f ensures m[r][j] == 0.0 || w[j] == 0.0 {
        if j in PivotSet(pivots) && j != pivots[r] {
          var s :| 0 <= s < |pivots| && pivots[s] == j;
          assert m[r][pivots[s]] == 0.0;
        }
      }
      DotSingle(m[r], w, f);
      NoZeroProduct(m[r][f], w[f]);
      assert Supported(w, PivotSet(pivots));
      PivotsIndependent(m, width, pivots);
    }
  }
}
