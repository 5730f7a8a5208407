/** Rows and columns have the same rank, and what that says of the combinations of rows that vanish. */
module RowRank {
  import opened Rows
  import opened ColumnRank
  import opened Elimination

  function Zeros(n: nat): (r: Row)
    ensures |r| == n && forall i :: 0 <= i < n ==> r[i] == 0.0
  {
    seq(n, i => 0.0)
  }

  function Column(m: Matrix, width: nat, k: nat): (c: Row)
    requires Shape(m, |m|, width) && k < width
    ensures |c| == |m| && forall r :: 0 <= r < |m| ==> c[r] == m[r][k]
  {
    seq(|m|, r requires 0 <= r < |m| => m[r][k])
  }

  /** The columns of `u` as equations for a combination of rows; the others ask for nothing. */
  function ColumnEquations(m: Matrix, width: nat, u: set<nat>): (a: Matrix)
    requires Shape(m, |m|, width)
    ensures Shape(a, width, |m|)
    ensures forall k :: 0 <= k < width ==> a[k] == if k in u then Column(m, width, k) else Zeros(|m|)
  {
    seq(width, k requires 0 <= k < width => if k in u then Column(m, width, k) else Zeros(|m|))
  }

  // ---------------------------------------------------------------- rank

  /** The row less its pivot entries' share of the first `n` pivot rows. */
  function Reduced(a: Row, q: Matrix, width: nat, pivots: seq<nat>, n: nat): (r: Row)
    requires |a| == width && Complete(q, width, pivots) && n <= |pivots|
    ensures |r| == width
  {
    if n == 0 then a else Minus(Reduced(a, q, width, pivots, n - 1), a[pivots[n - 1]], q[n - 1])
  }

  lemma {:induction false} ReducedAtPivots(a: Row, q: Matrix, width: nat, pivots: seq<nat>, n: nat, i: nat)
    requires |a| == width && Complete(q, width, pivots) && n <= |pivots| && i < |pivots|
    ensures Reduced(a, q, width, pivots, n)[pivots[i]] == if i < n then 0.0 else a[pivots[i]]
  {
    if n > 0 {
      ReducedAtPivots(a, q, width, pivots, n - 1, i);
      var x, f, b := Reduced(a, q, width, pivots, n - 1)[pivots[i]], a[pivots[n - 1]], q[n - 1][pivots[i]];
      assert b == if i == n - 1 then 1.0 else 0.0;
      assert Reduced(a, q, width, pivots, n)[pivots[i]] == Less(x, f, b);
    }
  }

  lemma {:induction false} ReducedVanishes(a: Row, q: Matrix, width: nat, pivots: seq<nat>, n: nat, y: Row)
    requires |a| == width && Complete(q, width, pivots) && n <= |pivots|
    requires Kernel(q, width, y) && Dot(a, y) == 0.0
    ensures Dot(Reduced(a, q, width, pivots, n), y) == 0.0
  {
    if n > 0 {
      ReducedVanishes(a, q, width, pivots, n - 1, y);
      DotMinus(Reduced(a, q, width, pivots, n - 1), a[pivots[n - 1]], q[n - 1], y);
      assert Dot(q[n - 1], y) == 0.0;
    }
  }

  /** A row that vanishes on the kernel is the pivot rows weighted by its own pivot entries. */
  lemma ReducedToNothing(a: Row, q: Matrix, width: nat, pivots: seq<nat>, c: nat)
    requires |a| == width && Complete(q, width, pivots) && c < width
    requires forall y: Row :: Kernel(q, width, y) ==> Dot(a, y) == 0.0
    ensures Reduced(a, q, width, pivots, |pivots|)[c] == 0.0
  {
    if c in PivotSet(pivots) {
      ReducedAtPivot(a, q, width, pivots, c);
    } else {
      var w := Dependency(q, width, pivots, c);
      DependencyInKernel(q, width, pivots, c);
      ReducedVanishes(a, q, width, pivots, |pivots|, w);
      ReducedTimesDependency(a, q, width, pivots, c);
    }
  }

  lemma ReducedAtPivot(a: Row, q: Matrix, width: nat, pivots: seq<nat>, k: nat)
    requires |a| == width && Complete(q, width, pivots) && k in PivotSet(pivots)
    ensures k < width && Reduced(a, q, width, pivots, |pivots|)[k] == 0.0
  {
    hide Reduced;
    var i :| 0 <= i < |pivots| && pivots[i] == k;
    ReducedAtPivots(a, q, width, pivots, |pivots|, i);
  }

  lemma ReducedTimesDependency(a: Row, q: Matrix, width: nat, pivots: seq<nat>, c: nat)
    requires |a| == width && Complete(q, width, pivots) && c < width && c !in PivotSet(pivots)
    ensures Dot(Reduced(a, q, width, pivots, |pivots|), Dependency(q, width, pivots, c))
         == Reduced(a, q, width, pivots, |pivots|)[c]
  {
    DependencyEntries(q, width, pivots, c);
    forall k | k in PivotSet(pivots) ensures k < width && Reduced(a, q, width, pivots, |pivots|)[k] == 0.0 {
      ReducedAtPivot(a, q, width, pivots, k);
    }
    hide Dependency, Reduced;
    DotOutside(Reduced(a, q, width, pivots, |pivots|), Dependency(q, width, pivots, c), PivotSet(pivots), c);
  }

  lemma DotOutside(a: Row, w: Row, zeros: set<nat>, c: nat)
    requires |a| == |w| && c < |a| && w[c] == 1.0 && forall k :: k in zeros && k < |a| ==> a[k] == 0.0
    requires forall k :: 0 <= k < |w| && k != c && k !in zeros ==> w[k] == 0.0
    ensures Dot(a, w) == a[c]
  {
    forall k | 0 <= k < |a| && k != c ensures a[k] == 0.0 || w[k] == 0.0 {
      assert k in zeros ==> a[k] == 0.0;
    }
    DotSingle(a, w, c);
  }

  /** The entries of the equations in one place, reduced by the first `n` pivot rows. */
  function Slice(a: Matrix, q: Matrix, width: nat, pivots: seq<nat>, n: nat, c: nat): (g: Row)
    requires Shape(a, |a|, width) && Complete(q, width, pivots) && n <= |pivots| && c < width
    ensures |g| == |a| && forall k :: 0 <= k < |a| ==> g[k] == Reduced(a[k], q, width, pivots, n)[c]
  {
    seq(|a|, k requires 0 <= k < |a| => Reduced(a[k], q, width, pivots, n)[c])
  }

  /** The pivot entries of all equations, pivot by pivot. */
  function PivotEntries(a: Matrix, width: nat, pivots: seq<nat>): (p: Matrix)
    requires Shape(a, |a|, width) && forall j :: 0 <= j < |pivots| ==> pivots[j] < width
    ensures Shape(p, |pivots|, |a|)
    ensures forall j, k :: 0 <= j < |pivots| && 0 <= k < |a| ==> p[j][k] == a[k][pivots[j]]
  {
    seq(|pivots|, j requires 0 <= j < |pivots| => seq(|a|, k requires 0 <= k < |a| => a[k][pivots[j]]))
  }

  lemma {:induction false} SliceSame(a: Matrix, q: Matrix, width: nat, pivots: seq<nat>, n: nat, c: nat, w: Row)
    requires Shape(a, |a|, width) && Complete(q, width, pivots) && n <= |pivots| && c < width
    requires Kernel(PivotEntries(a, width, pivots), |a|, w)
    ensures Dot(Slice(a, q, width, pivots, n, c), w) == Dot(Slice(a, q, width, pivots, 0, c), w)
  {
    hide Dot, Reduced, Slice, Kernel, PivotEntries;
    if n > 0 {
      SliceSame(a, q, width, pivots, n - 1, c, w);
      SliceStep(a, q, width, pivots, n, c, w);
    }
  }

  lemma SliceStep(a: Matrix, q: Matrix, width: nat, pivots: seq<nat>, n: nat, c: nat, w: Row)
    requires Shape(a, |a|, width) && Complete(q, width, pivots) && 0 < n <= |pivots| && c < width
    requires Kernel(PivotEntries(a, width, pivots), |a|, w)
    ensures Dot(Slice(a, q, width, pivots, n, c), w) == Dot(Slice(a, q, width, pivots, n - 1, c), w)
  {
    var entries := PivotEntries(a, width, pivots);
    SliceNext(a, q, width, pivots, n, c);
    assert Dot(entries[n - 1], w) == 0.0;
    hide Dot, Reduced, Slice, PivotEntries, Annihilates;
    MinusNone(Slice(a, q, width, pivots, n - 1, c), q[n - 1][c], entries[n - 1], w);
  }

  lemma MinusNone(a: Row, f: real, b: Row, y: Row)
    requires |a| == |b| == |y| && Dot(b, y) == 0.0
    ensures Dot(Minus(a, f, b), y) == Dot(a, y)
  {
    DotMinus(a, f, b, y);
  }

  lemma SliceNext(a: Matrix, q: Matrix, width: nat, pivots: seq<nat>, n: nat, c: nat)
    requires Shape(a, |a|, width) && Complete(q, width, pivots) && 0 < n <= |pivots| && c < width
    ensures Slice(a, q, width, pivots, n, c)
         == Minus(Slice(a, q, width, pivots, n - 1, c), q[n - 1][c], PivotEntries(a, width, pivots)[n - 1])
  {
    var before, now := Slice(a, q, width, pivots, n - 1, c), Slice(a, q, width, pivots, n, c);
    var less := Minus(before, q[n - 1][c], PivotEntries(a, width, pivots)[n - 1]);
    hide Less;
    forall k | 0 <= k < |a| ensures now[k] == less[k] {
      LessSwap(before[k], a[k][pivots[n - 1]], q[n - 1][c]);
    }
  }

  lemma DotAgree(a: Row, b: Row, w: Row)
    requires |a| == |b| == |w| && forall k :: 0 <= k < |w| ==> a[k] == b[k] || w[k] == 0.0
    ensures Dot(a, w) == Dot(b, w)
  {
    hide Dot, Less;
    DotMinus(a, 1.0, b, w);
    var d := Minus(a, 1.0, b);
    forall k | 0 <= k < |w| ensures d[k] == 0.0 || w[k] == 0.0 {
      LessSelf(a[k]);
    }
    DotZero(d, w);
    assert 1.0 * Dot(b, w) == Dot(b, w);
  }

  lemma LessSelf(x: real)
    ensures Less(x, 1.0, x) == 0.0
  {}

  lemma LessSwap(x: real, f: real, b: real)
    ensures Less(x, f, b) == Less(x, b, f)
  {}

  /** No more columns are independent than the equations they make have pivots. */
  lemma IndependentBound(m: Matrix, width: nat, u: set<nat>, t: set<nat>, q: Matrix, pivots: seq<nat>)
    requires Shape(m, |m|, width) && t <= u && Independent(m, width, t)
    requires Complete(q, |m|, pivots) && SameKernel(ColumnEquations(m, width, u), q)
    ensures |t| <= |pivots|
  {
    if |t| > |pivots| {
      var a := ColumnEquations(m, width, u);
      var entries := PivotEntries(a, |m|, pivots);
      var w := Underdetermined(entries, width, t);
      forall c | 0 <= c < |m| ensures |m[c]| == |w| && Dot(m[c], w) == 0.0 {
        RowVanishes(m, width, u, t, q, pivots, w, c);
      }
      assert Kernel(m, width, w);
    }
  }

  lemma RowVanishes(m: Matrix, width: nat, u: set<nat>, t: set<nat>, q: Matrix, pivots: seq<nat>, w: Row, c: nat)
    requires Shape(m, |m|, width) && t <= u && Complete(q, |m|, pivots) && SameKernel(ColumnEquations(m, width, u), q)
    requires Kernel(PivotEntries(ColumnEquations(m, width, u), |m|, pivots), width, w) && Supported(w, t) && c < |m|
    ensures Dot(m[c], w) == 0.0
  {
    var a := ColumnEquations(m, width, u);
    SliceSame(a, q, |m|, pivots, |pivots|, c, w);
    forall k | 0 <= k < width ensures Slice(a, q, |m|, pivots, |pivots|, c)[k] == 0.0 {
      EquationOnKernel(a, q, |m|, k);
      ReducedToNothing(a[k], q, |m|, pivots, c);
    }
    DotZero(Slice(a, q, |m|, pivots, |pivots|, c), w);
    DotAgree(m[c], Slice(a, q, |m|, pivots, 0, c), w);
  }

  lemma EquationOnKernel(a: Matrix, q: Matrix, width: nat, k: nat)
    requires Shape(a, |a|, width) && SameKernel(a, q) && k < |a|
    ensures forall y: Row :: Kernel(q, width, y) ==> Dot(a[k], y) == 0.0
  {
    forall y: Row | Kernel(q, width, y) ensures Dot(a[k], y) == 0.0 {
      assert Annihilates(a, y);
    }
  }

  /** The rank of the columns `u` is the number of pivots of the equations they make. */
  lemma RankIsPivots(m: Matrix, width: nat, u: set<nat>, rank: nat, q: Matrix, pivots: seq<nat>)
    requires Shape(m, |m|, width) && u <= Columns(width) && IsRank(m, width, u, rank)
    requires Complete(q, |m|, pivots) && SameKernel(ColumnEquations(m, width, u), q)
    ensures rank == |pivots|
  {
    var t :| t <= u && |t| == rank && Independent(m, width, t);
    IndependentBound(m, width, u, t, q, pivots);
    var a := ColumnEquations(m, width, u);
    var all := Columns(|m|);
    var back := ColumnEquations(a, |m|, all);
    assert Shape(back, |back|, width);
    var p, others := EchelonFrom(back, width, [], 0);
    PivotsIndependent(q, |m|, pivots);
    PivotCount(pivots);
    SameKernelSameIndependent(a, q, |m|, PivotSet(pivots));
    IndependentBound(a, |m|, all, PivotSet(pivots), p, others);
    PivotsIndependent(p, width, others);
    PivotCount(others);
    SameKernelSameIndependent(back, p, width, PivotSet(others));
    MaskedIndependent(m, width, u, back, PivotSet(others));
  }

  lemma SameKernelSameIndependent(m: Matrix, p: Matrix, width: nat, t: set<nat>)
    requires SameKernel(m, p)
    ensures Independent(m, width, t) <==> Independent(p, width, t)
  {
    assert forall w: Row :: Kernel(m, width, w) <==> Kernel(p, width, w);
  }

  /** Columns independent once all outside `u` are blanked lie in `u`, and are independent. */
  lemma MaskedIndependent(m: Matrix, width: nat, u: set<nat>, back: Matrix, t: set<nat>)
    requires Shape(m, |m|, width) && u <= Columns(width) && Independent(back, width, t)
    requires back == ColumnEquations(ColumnEquations(m, width, u), |m|, Columns(|m|))
    ensures t <= u && Independent(m, width, t)
  {
    MaskedEntries(m, width, u, back);
    hide ColumnEquations, Columns;
    MaskedWithin(m, width, u, back, t);
    MaskedStays(m, width, u, back, t);
  }

  lemma MaskedWithin(m: Matrix, width: nat, u: set<nat>, back: Matrix, t: set<nat>)
    requires Masked(m, width, u, back) && Independent(back, width, t)
    ensures t <= u
  {
    forall k | k in t ensures k in u {
      if k !in u {
        BlankIsDependent(back, width, t, k);
      }
    }
  }

  lemma MaskedStays(m: Matrix, width: nat, u: set<nat>, back: Matrix, t: set<nat>)
    requires Masked(m, width, u, back) && Independent(back, width, t) && t <= u
    ensures Independent(m, width, t)
  {
    forall w: Row | Kernel(m, width, w) && Supported(w, t) ensures Zero(w) {
      MaskedKernel(m, width, u, back, w);
    }
  }

  ghost predicate Masked(m: Matrix, width: nat, u: set<nat>, back: Matrix) {
    && Shape(m, |m|, width) && Shape(back, |m|, width)
    && forall r, k :: 0 <= r < |m| && 0 <= k < width ==> back[r][k] == if k in u then m[r][k] else 0.0
  }

  lemma MaskedEntries(m: Matrix, width: nat, u: set<nat>, back: Matrix)
    requires Shape(m, |m|, width) && back == ColumnEquations(ColumnEquations(m, width, u), |m|, Columns(|m|))
    ensures Masked(m, width, u, back)
  {
    forall r, k | 0 <= r < |m| && 0 <= k < width ensures back[r][k] == if k in u then m[r][k] else 0.0 {
      assert back[r] == Column(ColumnEquations(m, width, u), |m|, r);
    }
  }

  lemma BlankIsDependent(back: Matrix, width: nat, t: set<nat>, k: nat)
    requires Shape(back, |back|, width) && k < width && k in t && forall r :: 0 <= r < |back| ==> back[r][k] == 0.0
    ensures !Independent(back, width, t)
  {
    var w := Unit(width, k);
    forall r | 0 <= r < |back| ensures Dot(back[r], w) == 0.0 {
      DotZero(back[r], w);
    }
    assert Kernel(back, width, w) && Supported(w, t) && w[k] == 1.0;
  }

  lemma MaskedKernel(m: Matrix, width: nat, u: set<nat>, back: Matrix, w: Row)
    requires Masked(m, width, u, back) && Kernel(m, width, w) && Supported(w, u)
    ensures Kernel(back, width, w)
  {
    forall r | 0 <= r < |back| ensures Dot(back[r], w) == 0.0 {
      assert Dot(m[r], w) == 0.0;
      DotAgree(back[r], m[r], w);
    }
  }

  // ---------------------------------------------------------------- the kernel

  /** The columns without a pivot. */
  function Free(width: nat, pivots: seq<nat>): set<nat> {
    Columns(width) - PivotSet(pivots)
  }

  lemma FreeCount(q: Matrix, width: nat, pivots: seq<nat>)
    requires Complete(q, width, pivots)
    ensures |Free(width, pivots)| == width - |pivots|
  {
    PivotCount(pivots);
    assert PivotSet(pivots) <= Columns(width);
  }

  lemma {:induction false} Listed(t: set<nat>) returns (list: seq<nat>)
    ensures |list| == |t| && forall k :: k in list <==> k in t
  {
    if t == {} {
      list := [];
    } else {
      var k :| k in t;
      var rest := Listed(t - {k});
      list := rest + [k];
    }
  }

  lemma {:induction false} DotSymmetric(a: Row, y: Row)
    requires |a| == |y|
    ensures Dot(a, y) == Dot(y, a)
  {
    if a != [] {
      DotSymmetric(a[..|a| - 1], y[..|y| - 1]);
    }
  }

  /** The rows weighted and added up. */
  function Mixed(bs: Matrix, w: Row, width: nat): (z: Row)
    requires Shape(bs, |w|, width)
    ensures |z| == width
  {
    if bs == [] then Zeros(width)
    else
      var n := |bs| - 1;
      Minus(Mixed(bs[..n], w[..n], width), -w[n], bs[n])
  }

  lemma {:induction false} MixedEntry(bs: Matrix, w: Row, width: nat, c: nat)
    requires Shape(bs, |w|, width) && c < width
    ensures Mixed(bs, w, width)[c] == Dot(Column(bs, width, c), w)
  {
    if bs != [] {
      var n := |bs| - 1;
      MixedEntry(bs[..n], w[..n], width, c);
      assert Column(bs, width, c)[..n] == Column(bs[..n], width, c);
      assert Mixed(bs, w, width)[c] == Less(Mixed(bs[..n], w[..n], width)[c], -w[n], bs[n][c]);
    }
  }

  lemma {:induction false} MixedVanishes(bs: Matrix, w: Row, width: nat, y: Row)
    requires Shape(bs, |w|, width) && |y| == width && forall i :: 0 <= i < |bs| ==> Dot(bs[i], y) == 0.0
    ensures Dot(Mixed(bs, w, width), y) == 0.0
  {
    if bs == [] {
      DotZero(Zeros(width), y);
    } else {
      var n := |bs| - 1;
      forall i | 0 <= i < n ensures Dot(bs[..n][i], y) == 0.0 {
        assert bs[..n][i] == bs[i];
      }
      MixedVanishes(bs[..n], w[..n], width, y);
      DotMinus(Mixed(bs[..n], w[..n], width), -w[n], bs[n], y);
    }
  }

  lemma MixedInKernel(q: Matrix, width: nat, bs: Matrix, w: Row)
    requires Shape(q, |q|, width) && Shape(bs, |w|, width) && forall i :: 0 <= i < |bs| ==> Kernel(q, width, bs[i])
    ensures Kernel(q, width, Mixed(bs, w, width))
  {
    var z := Mixed(bs, w, width);
    forall r | 0 <= r < |q| ensures Dot(q[r], z) == 0.0 {
      forall i | 0 <= i < |bs| ensures Dot(bs[i], q[r]) == 0.0 {
        assert Dot(q[r], bs[i]) == 0.0;
        DotSymmetric(q[r], bs[i]);
      }
      MixedVanishes(bs, w, width, q[r]);
      DotSymmetric(q[r], z);
    }
  }

  /** A kernel vector that vanishes on the free columns vanishes. */
  lemma FreeDecides(q: Matrix, width: nat, pivots: seq<nat>, z: Row)
    requires Complete(q, width, pivots) && Kernel(q, width, z)
    requires forall k :: k in Free(width, pivots) ==> z[k] == 0.0
    ensures Zero(z)
  {
    PivotsIndependent(q, width, pivots);
    forall k: nat | k < |z| && k !in PivotSet(pivots) ensures z[k] == 0.0 {
      assert k in Free(width, pivots);
    }
    assert Supported(z, PivotSet(pivots));
  }

  /** More kernel vectors than free columns: some weights, not all zero, cancel them. */
  lemma SomeMixVanishes(q: Matrix, width: nat, pivots: seq<nat>, bs: Matrix) returns (w: Row)
    requires Complete(q, width, pivots) && Shape(bs, |bs|, width) && |bs| > width - |pivots|
    requires forall i :: 0 <= i < |bs| ==> Kernel(q, width, bs[i])
    ensures |w| == |bs| && !Zero(w) && forall c :: 0 <= c < width ==> Dot(Column(bs, width, c), w) == 0.0
  {
    FreeCount(q, width, pivots);
    var list := Listed(Free(width, pivots));
    var entries := seq(|list|, j requires 0 <= j < |list| =>
      assert list[j] in list; Column(bs, width, list[j]));
    w := Underdetermined(entries, |bs|, Columns(|bs|));
    var z := Mixed(bs, w, width);
    MixedInKernel(q, width, bs, w);
    forall k | k in Free(width, pivots) ensures z[k] == 0.0 {
      var j :| 0 <= j < |list| && list[j] == k;
      assert Dot(entries[j], w) == 0.0;
      MixedEntry(bs, w, width, k);
    }
    FreeDecides(q, width, pivots, z);
    forall c | 0 <= c < width ensures Dot(Column(bs, width, c), w) == 0.0 {
      MixedEntry(bs, w, width, c);
    }
  }

  /** Fewer vectors than free columns: some kernel vector is none of their combinations, as a probe shows. */
  lemma OutsideSpan(q: Matrix, width: nat, pivots: seq<nat>, bs: Matrix) returns (x: Row, probe: Row)
    requires Complete(q, width, pivots) && Shape(bs, |bs|, width) && |bs| < width - |pivots|
    ensures Kernel(q, width, x) && |probe| == width && Dot(x, probe) != 0.0
    ensures forall i :: 0 <= i < |bs| ==> Dot(bs[i], probe) == 0.0
  {
    FreeCount(q, width, pivots);
    probe := Underdetermined(bs, width, Free(width, pivots));
    var f: nat :| f < width && probe[f] != 0.0;
    assert f in Free(width, pivots);
    x := Dependency(q, width, pivots, f);
    DependencyInKernel(q, width, pivots, f);
    DependencyEntries(q, width, pivots, f);
    hide Dependency;
    forall k | 0 <= k < width && k != f ensures x[k] == 0.0 || probe[k] == 0.0 {
      if k !in PivotSet(pivots) {
        assert x[k] == 0.0;
      } else {
        assert k !in Free(width, pivots);
      }
    }
    DotSingle(x, probe, f);
  }
}

/** What the force balance of a framework says of the motions its pairs allow. */
module Frameworks {
  import opened Rows
  import opened ColumnRank
  import opened Elimination
  import opened RowRank

  datatype Edge = Edge(a: int, b: int)

  datatype Point = Point(x: real, y: real)

  /** Every edge joins anchors of the list, no anchor is listed twice, and all have a position. */
  ghost predicate Graph(ids: seq<int>, edges: seq<Edge>, position: map<int, Point>) {
    && (forall i, j :: 0 <= i < j < |ids| ==> ids[i] != ids[j])
    && (forall i :: 0 <= i < |ids| ==> ids[i] in position)
    && (forall k :: 0 <= k < |edges| ==> edges[k].a in ids && edges[k].b in ids)
  }

  function Axis(p: Point, axis: nat): real {
    if axis == 0 then p.x else p.y
  }

  /** The share of a pair in the force balance of an anchor along one axis. */
  function Share(e: Edge, id: int, axis: nat, position: map<int, Point>): real
    requires e.a in position && e.b in position
  {
    var d := Axis(position[e.a], axis) - Axis(position[e.b], axis);
    if e.b == id then -d else if e.a == id then d else 0.0
  }

  /** The transposed rigidity matrix: two balance equations an anchor, one column a pair, and the bias row. */
  function Balance(ids: seq<int>, edges: seq<Edge>, position: map<int, Point>, withBias: bool): (m: Matrix)
    requires forall k :: 0 <= k < |edges| ==> edges[k].a in position && edges[k].b in position
    ensures |m| == Equations(|ids|, withBias) && forall r :: 0 <= r < |m| ==> |m[r]| == |edges|
  {
    seq(Equations(|ids|, withBias), r requires 0 <= r < Equations(|ids|, withBias) =>
      seq(|edges|, k requires 0 <= k < |edges| =>
        if r == 2 * |ids| then 1.0 else Share(edges[k], ids[r / 2], r % 2, position)))
  }

  function Equations(n: nat, withBias: bool): nat {
    2 * n + if withBias then 1 else 0
  }

  /** The rank a framework of `n` anchors needs to be rigid. */
  function Needed(n: nat, withBias: bool): int {
    2 * n - 3 + if withBias then 1 else 0
  }

  // ---------------------------------------------------------------- motions

  /** How fast the squared distance of a pair changes, halved. */
  function Stretching(e: Edge, position: map<int, Point>, v: map<int, Point>): real
    requires e.a in position && e.b in position && e.a in v && e.b in v
  {
    var p, q := position[e.a], position[e.b];
    (p.x - q.x) * (v[e.a].x - v[e.b].x) + (p.y - q.y) * (v[e.a].y - v[e.b].y)
  }

  ghost predicate MovesAll(ids: seq<int>, v: map<int, Point>) {
    forall i :: 0 <= i < |ids| ==> ids[i] in v
  }

  /** Velocities under which the chosen pairs all stretch alike: at rate `b`, which a bias would not tell from a range. */
  ghost predicate Motion(ids: seq<int>, edges: seq<Edge>, pairs: set<nat>, position: map<int, Point>,
                         v: map<int, Point>, b: real)
    requires Graph(ids, edges, position)
  {
    MovesAll(ids, v) && forall k: nat :: k < |edges| && k in pairs ==> Stretching(edges[k], position, v) == b
  }

  /** Two translations and one rotation, combined. */
  ghost predicate RigidMotion(ids: seq<int>, position: map<int, Point>, v: map<int, Point>) {
    exists dx, dy, turn: real :: Turns(ids, position, v, dx, dy, turn)
  }

  ghost predicate Turns(ids: seq<int>, position: map<int, Point>, v: map<int, Point>, dx: real, dy: real, turn: real) {
    forall i :: 0 <= i < |ids| ==>
      && ids[i] in v && ids[i] in position
      && v[ids[i]].x == dx - turn * position[ids[i]].y && v[ids[i]].y == dy + turn * position[ids[i]].x
  }

  /** The chosen pairs allow no motion but that of the whole, and settle the bias if there is one. */
  ghost predicate FixesShape(ids: seq<int>, edges: seq<Edge>, pairs: set<nat>, position: map<int, Point>, withBias: bool)
    requires Graph(ids, edges, position)
  {
    forall v: map<int, Point>, b: real :: Motion(ids, edges, pairs, position, v, b) && (withBias || b == 0.0) ==>
      b == 0.0 && RigidMotion(ids, position, v)
  }

  /** Not all anchors are at one place. */
  ghost predicate Spread(ids: seq<int>, position: map<int, Point>) {
    exists i, j :: 0 <= i < |ids| && 0 <= j < |ids| && ids[i] in position && ids[j] in position
      && position[ids[i]] != position[ids[j]]
  }

  /** Velocities and rate as one vector, in the order of the equations. */
  function Stacked(ids: seq<int>, v: map<int, Point>, b: real, withBias: bool): (x: Row)
    requires MovesAll(ids, v)
    ensures |x| == Equations(|ids|, withBias)
  {
    seq(Equations(|ids|, withBias), r requires 0 <= r < Equations(|ids|, withBias) =>
      if r == 2 * |ids| then -b else Axis(v[ids[r / 2]], r % 2))
  }

  lemma Halves(i: nat)
    ensures (2 * i) / 2 == i && (2 * i) % 2 == 0 && (2 * i + 1) / 2 == i && (2 * i + 1) % 2 == 1
  {}

  lemma StackedAt(ids: seq<int>, v: map<int, Point>, b: real, withBias: bool, i: nat)
    requires MovesAll(ids, v)
    ensures var x := Stacked(ids, v, b, withBias);
      && (i < |ids| ==> x[2 * i] == v[ids[i]].x && x[2 * i + 1] == v[ids[i]].y)
      && (withBias ==> x[2 * |ids|] == -b)
  {
    Halves(i);
  }

  lemma EntriesOf(n: nat, withBias: bool, r: nat) returns (i: nat)
    requires r < Equations(n, withBias)
    ensures (r == 2 * n && withBias) || (i < n && (r == 2 * i || r == 2 * i + 1))
  {
    i := r / 2;
  }

  ghost function VelocitiesOf(ids: seq<int>, x: Row): (v: map<int, Point>)
    requires |x| >= 2 * |ids| && forall i, j :: 0 <= i < j < |ids| ==> ids[i] != ids[j]
    ensures forall i :: 0 <= i < |ids| ==> ids[i] in v && v[ids[i]] == Point(x[2 * i], x[2 * i + 1])
  {
    map i | 0 <= i < |ids| :: ids[i] := Point(x[2 * i], x[2 * i + 1])
  }

  /** Every vector of the right length is some velocities and a rate. */
  lemma Unstacked(ids: seq<int>, x: Row, withBias: bool) returns (v: map<int, Point>, b: real)
    requires |x| == Equations(|ids|, withBias) && forall i, j :: 0 <= i < j < |ids| ==> ids[i] != ids[j]
    ensures MovesAll(ids, v) && x == Stacked(ids, v, b, withBias) && (withBias || b == 0.0)
  {
    hide Stacked, VelocitiesOf;
    v := VelocitiesOf(ids, x);
    b := if withBias then -x[2 * |ids|] else 0.0;
    forall r | 0 <= r < |x| ensures x[r] == Stacked(ids, v, b, withBias)[r] {
      var i := EntriesOf(|ids|, withBias, r);
      StackedAt(ids, v, b, withBias, i);
    }
  }

  // ---------------------------------------------------------------- the product of a column

  lemma ColumnAt(ids: seq<int>, edges: seq<Edge>, position: map<int, Point>, withBias: bool, k: nat, i: nat)
    requires Graph(ids, edges, position) && k < |edges|
    ensures var c := Column(Balance(ids, edges, position, withBias), |edges|, k);
      && |c| == Equations(|ids|, withBias)
      && (i < |ids| ==>
            && c[2 * i] == Share(edges[k], ids[i], 0, position)
            && c[2 * i + 1] == Share(edges[k], ids[i], 1, position))
      && (withBias ==> c[2 * |ids|] == 1.0)
  {
    Halves(i);
  }

  /** The velocity `v` along the pair from `q` to `p`. */
  function Along(p: Point, q: Point, v: Point): real {
    (p.x - q.x) * v.x + (p.y - q.y) * v.y
  }

  function Two(a: real, b: real, x: real, y: real): real {
    a * x + b * y
  }

  lemma {:induction false} ProductUpTo(ids: seq<int>, edges: seq<Edge>, position: map<int, Point>, withBias: bool,
                                       v: map<int, Point>, rate: real, k: nat, a: nat, b: nat, i: nat)
    requires Graph(ids, edges, position) && MovesAll(ids, v) && k < |edges| && i <= |ids|
    requires a < |ids| && b < |ids| && ids[a] == edges[k].a && ids[b] == edges[k].b
    ensures var c := Column(Balance(ids, edges, position, withBias), |edges|, k);
      var x := Stacked(ids, v, rate, withBias);
      var p, q := position[edges[k].a], position[edges[k].b];
      && 2 * i <= |c| == |x|
      && Dot(c[..2 * i], x[..2 * i])
           == (if a < i then Along(p, q, v[ids[a]]) else 0.0) - (if b < i then Along(p, q, v[ids[b]]) else 0.0)
  {
    hide Balance, Stacked, Column, Dot, Along, Two, Share;
    var c, x := Column(Balance(ids, edges, position, withBias), |edges|, k), Stacked(ids, v, rate, withBias);
    if i == 0 {
      NoDot(c, x);
    } else {
      var j := i - 1;
      ProductUpTo(ids, edges, position, withBias, v, rate, k, a, b, j);
      ColumnAt(ids, edges, position, withBias, k, j);
      StackedAt(ids, v, rate, withBias, j);
      SameAnchor(ids, edges, position, k, a, b, j);
      DotTwoMore(c, x, 2 * j);
      OneAnchor(edges[k], ids[j], position, v[ids[j]]);
    }
  }

  lemma NoDot(c: Row, x: Row)
    ensures |c[..0]| == |x[..0]| && Dot(c[..0], x[..0]) == 0.0
  {}

  /** What one anchor adds to the product. */
  lemma OneAnchor(e: Edge, id: int, position: map<int, Point>, v: Point)
    requires e.a in position && e.b in position
    ensures var p, q := position[e.a], position[e.b];
      Two(Share(e, id, 0, position), Share(e, id, 1, position), v.x, v.y)
        == (if e.a == id then Along(p, q, v) else 0.0) - (if e.b == id then Along(p, q, v) else 0.0)
  {
    var p, q := position[e.a], position[e.b];
    Negated(p.x - q.x, v.x);
    Negated(p.y - q.y, v.y);
  }

  lemma Negated(d: real, v: real)
    ensures -d * v == -(d * v)
    ensures 0.0 * v == 0.0
  {}

  lemma SameAnchor(ids: seq<int>, edges: seq<Edge>, position: map<int, Point>, k: nat, a: nat, b: nat, j: nat)
    requires Graph(ids, edges, position) && k < |edges| && a < |ids| && b < |ids| && j < |ids|
    requires ids[a] == edges[k].a && ids[b] == edges[k].b
    ensures ids[j] == edges[k].a <==> j == a
    ensures ids[j] == edges[k].b <==> j == b
    ensures edges[k].a in position && edges[k].b in position
  {}

  lemma DotTwoMore(c: Row, x: Row, n: nat)
    requires |c| == |x| && n + 2 <= |c|
    ensures Dot(c[..n + 2], x[..n + 2]) == Dot(c[..n], x[..n]) + Two(c[n], c[n + 1], x[n], x[n + 1])
  {
    assert c[..n + 2][..n + 1] == c[..n + 1] && x[..n + 2][..n + 1] == x[..n + 1];
    assert c[..n + 1][..n] == c[..n] && x[..n + 1][..n] == x[..n];
  }

  /** A column times the motion is how fast its pair stretches, less the rate. */
  lemma ColumnProduct(ids: seq<int>, edges: seq<Edge>, position: map<int, Point>, withBias: bool,
                      v: map<int, Point>, b: real, k: nat)
    requires Graph(ids, edges, position) && MovesAll(ids, v) && k < |edges| && (withBias || b == 0.0)
    ensures Dot(Column(Balance(ids, edges, position, withBias), |edges|, k), Stacked(ids, v, b, withBias))
         == Stretching(edges[k], position, v) - b
  {
    var n := |ids|;
    var i := PlaceOf(ids, edges[k].a);
    var j := PlaceOf(ids, edges[k].b);
    ProductUpTo(ids, edges, position, withBias, v, b, k, i, j, n);
    ColumnAt(ids, edges, position, withBias, k, n);
    StackedAt(ids, v, b, withBias, n);
    SameAnchor(ids, edges, position, k, i, j, i);
    assert edges[k].a in v && edges[k].b in v;
    StretchingIs(edges[k], position, v);
    hide *;
    var c, x := Column(Balance(ids, edges, position, withBias), |edges|, k), Stacked(ids, v, b, withBias);
    if withBias {
      LastTerm(c, x, 2 * n);
    } else {
      assert c[..2 * n] == c && x[..2 * n] == x;
    }
  }

  lemma PlaceOf(ids: seq<int>, id: int) returns (i: nat)
    requires id in ids
    ensures i < |ids| && ids[i] == id
  {
    i :| i < |ids| && ids[i] == id;
  }

  lemma LastTerm(c: Row, x: Row, n: nat)
    requires |c| == |x| == n + 1 && c[n] == 1.0
    ensures Dot(c, x) == Dot(c[..n], x[..n]) + x[n]
  {}

  lemma StretchingIs(e: Edge, position: map<int, Point>, v: map<int, Point>)
    requires e.a in position && e.b in position && e.a in v && e.b in v
    ensures var p, q := position[e.a], position[e.b];
      Stretching(e, position, v) == Along(p, q, v[e.a]) - Along(p, q, v[e.b])
  {}

  /** The kernel of the chosen pairs' equations are their motions. */
  lemma KernelIsMotion(ids: seq<int>, edges: seq<Edge>, pairs: set<nat>, position: map<int, Point>, withBias: bool,
                       v: map<int, Point>, b: real)
    requires Graph(ids, edges, position) && MovesAll(ids, v) && (withBias || b == 0.0)
    ensures Kernel(ColumnEquations(Balance(ids, edges, position, withBias), |edges|, pairs),
                   Equations(|ids|, withBias), Stacked(ids, v, b, withBias))
       <==> Motion(ids, edges, pairs, position, v, b)
  {
    var m, x := Balance(ids, edges, position, withBias), Stacked(ids, v, b, withBias);
    var a := ColumnEquations(m, |edges|, pairs);
    forall k | 0 <= k < |edges|
      ensures Dot(a[k], x) == if k in pairs then Stretching(edges[k], position, v) - b else 0.0
    {
      if k in pairs {
        ColumnProduct(ids, edges, position, withBias, v, b, k);
      } else {
        DotZero(a[k], x);
      }
    }
  }

  // ---------------------------------------------------------------- the motions of the whole

  function Everywhere(ids: seq<int>, p: Point): (v: map<int, Point>)
    ensures MovesAll(ids, v)
  {
    map id | id in ids :: p
  }

  function Rotation(ids: seq<int>, position: map<int, Point>): (v: map<int, Point>)
    requires forall i :: 0 <= i < |ids| ==> ids[i] in position
    ensures MovesAll(ids, v)
  {
    map id | id in ids :: Point(-position[id].y, position[id].x)
  }

  /** Moving along each axis, and turning. */
  function WholeMotions(ids: seq<int>, position: map<int, Point>, withBias: bool): (t: Matrix)
    requires forall i :: 0 <= i < |ids| ==> ids[i] in position
    ensures Shape(t, 3, Equations(|ids|, withBias))
  {
    [Stacked(ids, Everywhere(ids, Point(1.0, 0.0)), 0.0, withBias),
     Stacked(ids, Everywhere(ids, Point(0.0, 1.0)), 0.0, withBias),
     Stacked(ids, Rotation(ids, position), 0.0, withBias)]
  }

  lemma WholeMotionsInKernel(ids: seq<int>, edges: seq<Edge>, pairs: set<nat>, position: map<int, Point>, withBias: bool)
    requires Graph(ids, edges, position)
    ensures var a := ColumnEquations(Balance(ids, edges, position, withBias), |edges|, pairs);
      forall i :: 0 <= i < 3 ==> Kernel(a, Equations(|ids|, withBias), WholeMotions(ids, position, withBias)[i])
  {
    NoneStretches(ids, edges, pairs, position);
    hide Motion, Everywhere, Rotation, Stacked, Kernel, Balance, Graph, ColumnEquations;
    MotionInKernel(ids, edges, pairs, position, withBias, Everywhere(ids, Point(1.0, 0.0)));
    MotionInKernel(ids, edges, pairs, position, withBias, Everywhere(ids, Point(0.0, 1.0)));
    MotionInKernel(ids, edges, pairs, position, withBias, Rotation(ids, position));
  }

  lemma MotionInKernel(ids: seq<int>, edges: seq<Edge>, pairs: set<nat>, position: map<int, Point>, withBias: bool,
                       v: map<int, Point>)
    requires Graph(ids, edges, position) && Motion(ids, edges, pairs, position, v, 0.0)
    ensures Kernel(ColumnEquations(Balance(ids, edges, position, withBias), |edges|, pairs),
                   Equations(|ids|, withBias), Stacked(ids, v, 0.0, withBias))
  {
    KernelIsMotion(ids, edges, pairs, position, withBias, v, 0.0);
  }

  lemma NoneStretches(ids: seq<int>, edges: seq<Edge>, pairs: set<nat>, position: map<int, Point>)
    requires Graph(ids, edges, position)
    ensures Motion(ids, edges, pairs, position, Everywhere(ids, Point(1.0, 0.0)), 0.0)
    ensures Motion(ids, edges, pairs, position, Everywhere(ids, Point(0.0, 1.0)), 0.0)
    ensures Motion(ids, edges, pairs, position, Rotation(ids, position), 0.0)
  {
    forall k: nat | k < |edges| ensures Stretching(edges[k], position, Rotation(ids, position)) == 0.0 {
      var p, q := position[edges[k].a], position[edges[k].b];
      Crossed(p.x - q.x, p.y - q.y);
    }
  }

  lemma Crossed(x: real, y: real)
    ensures x * -y + y * x == 0.0
  {}

  lemma WholeMotionsAt(ids: seq<int>, position: map<int, Point>, withBias: bool, i: nat)
    requires forall j :: 0 <= j < |ids| ==> ids[j] in position
    ensures var t := WholeMotions(ids, position, withBias);
      && (i < |ids| ==>
            && t[0][2 * i] == 1.0 && t[1][2 * i] == 0.0 && t[2][2 * i] == -position[ids[i]].y
            && t[0][2 * i + 1] == 0.0 && t[1][2 * i + 1] == 1.0 && t[2][2 * i + 1] == position[ids[i]].x)
      && (withBias ==> t[0][2 * |ids|] == t[1][2 * |ids|] == t[2][2 * |ids|] == 0.0)
  {
    StackedAt(ids, Everywhere(ids, Point(1.0, 0.0)), 0.0, withBias, i);
    StackedAt(ids, Everywhere(ids, Point(0.0, 1.0)), 0.0, withBias, i);
    StackedAt(ids, Rotation(ids, position), 0.0, withBias, i);
    hide Stacked;
  }

  /** Two translations, a turn and a fourth vector, weighted, in one place. */
  function Four(a: real, b: real, c: real, d: real, w: Row): real
    requires |w| == 4
  {
    a * w[0] + b * w[1] + c * w[2] + d * w[3]
  }

  lemma ColumnOfFour(t: Matrix, x: Row, c: nat, w: Row)
    requires Shape(t, 3, |x|) && c < |x| && |w| == 4
    ensures Dot(Column(t + [x], |x|, c), w) == Four(t[0][c], t[1][c], t[2][c], x[c], w)
  {
    DotFour(Column(t + [x], |x|, c), w);
  }

  /** What weights of the three motions, and of a fourth, come to at each anchor. */
  lemma MixAt(ids: seq<int>, position: map<int, Point>, withBias: bool, x: Row, w: Row, i: nat)
    requires (forall j :: 0 <= j < |ids| ==> ids[j] in position) && i < |ids|
    requires |x| == Equations(|ids|, withBias) && |w| == 4
    ensures var bs := WholeMotions(ids, position, withBias) + [x];
      && Dot(Column(bs, |x|, 2 * i), w) == Four(1.0, 0.0, -position[ids[i]].y, x[2 * i], w)
      && Dot(Column(bs, |x|, 2 * i + 1), w) == Four(0.0, 1.0, position[ids[i]].x, x[2 * i + 1], w)
      && (withBias ==> Dot(Column(bs, |x|, 2 * |ids|), w) == Four(0.0, 0.0, 0.0, x[2 * |ids|], w))
  {
    hide Column, Dot, Four;
    var t := WholeMotions(ids, position, withBias);
    WholeMotionsAt(ids, position, withBias, i);
    hide WholeMotions;
    ColumnOfFour(t, x, 2 * i, w);
    ColumnOfFour(t, x, 2 * i + 1, w);
    if withBias {
      ColumnOfFour(t, x, 2 * |ids|, w);
    }
  }

  lemma FourAcross(y: real, x: real, w: Row)
    requires |w| == 4
    ensures Four(1.0, 0.0, -y, x, w) == w[0] - w[2] * y + w[3] * x
  {}

  lemma FourUp(y: real, x: real, w: Row)
    requires |w| == 4
    ensures Four(0.0, 1.0, y, x, w) == w[1] + w[2] * y + w[3] * x
  {}

  lemma FourStill(x: real, w: Row)
    requires |w| == 4
    ensures Four(0.0, 0.0, 0.0, x, w) == w[3] * x
  {}

  lemma DotFour(c: Row, w: Row)
    requires |c| == |w| == 4
    ensures Dot(c, w) == c[0] * w[0] + c[1] * w[1] + c[2] * w[2] + c[3] * w[3]
  {
    assert Dot(c[..1], w[..1]) == c[0] * w[0] by {
      assert c[..1][..0] == [] && w[..1][..0] == [];
    }
    assert c[..2][..1] == c[..1] && w[..2][..1] == w[..1];
    assert c[..3][..2] == c[..2] && w[..3][..2] == w[..2];
    assert Dot(c[..2], w[..2]) == c[0] * w[0] + c[1] * w[1];
    assert Dot(c[..3], w[..3]) == c[0] * w[0] + c[1] * w[1] + c[2] * w[2];
  }

  // ---------------------------------------------------------------- rank and motions

  /** The weights cancel the velocity `v` of an anchor at `p` against the three motions. */
  ghost predicate Cancels(w: Row, p: Point, v: Point)
    requires |w| == 4
  {
    w[0] - w[2] * p.y + w[3] * v.x == 0.0 && w[1] + w[2] * p.x + w[3] * v.y == 0.0
  }

  /** All entries cancel. */
  ghost predicate AllCancel(ids: seq<int>, position: map<int, Point>, withBias: bool, x: Row, w: Row)
    requires forall j :: 0 <= j < |ids| ==> ids[j] in position
  {
    && |x| == Equations(|ids|, withBias) && |w| == 4
    && forall c :: 0 <= c < |x| ==> Dot(Column(WholeMotions(ids, position, withBias) + [x], |x|, c), w) == 0.0
  }

  lemma CancelsAt(ids: seq<int>, position: map<int, Point>, withBias: bool, x: Row, w: Row, i: nat)
    requires (forall j :: 0 <= j < |ids| ==> ids[j] in position) && AllCancel(ids, position, withBias, x, w) && i < |ids|
    ensures Cancels(w, position[ids[i]], Point(x[2 * i], x[2 * i + 1]))
    ensures withBias ==> w[3] * x[2 * |ids|] == 0.0
  {
    hide WholeMotions, Column, Dot, Four, Cancels;
    MixAt(ids, position, withBias, x, w, i);
    EntryCancels(ids, position, withBias, x, w, 2 * i);
    EntryCancels(ids, position, withBias, x, w, 2 * i + 1);
    FourCancels(position[ids[i]], Point(x[2 * i], x[2 * i + 1]), w);
    if withBias {
      FourStill(x[2 * |ids|], w);
      EntryCancels(ids, position, withBias, x, w, 2 * |ids|);
    }
  }

  lemma EntryCancels(ids: seq<int>, position: map<int, Point>, withBias: bool, x: Row, w: Row, c: nat)
    requires (forall j :: 0 <= j < |ids| ==> ids[j] in position) && AllCancel(ids, position, withBias, x, w) && c < |x|
    ensures Dot(Column(WholeMotions(ids, position, withBias) + [x], |x|, c), w) == 0.0
  {
    hide WholeMotions, Column, Dot;
  }

  lemma FourCancels(p: Point, v: Point, w: Row)
    requires |w| == 4 && Four(1.0, 0.0, -p.y, v.x, w) == 0.0 && Four(0.0, 1.0, p.x, v.y, w) == 0.0
    ensures Cancels(w, p, v)
  {
    FourAcross(p.y, v.x, w);
    FourUp(p.x, v.y, w);
  }

  lemma OnlyZeroCancelsTwo(w: Row, p: Point, q: Point, v: Point, u: Point)
    requires |w| == 4 && w[3] == 0.0 && p != q && Cancels(w, p, v) && Cancels(w, q, u)
    ensures Zero(w)
  {
    Gone(w[3], v);
    Gone(w[3], u);
    if p.x != q.x {
      OnlyZeroTurns(w[2], p.x, q.x);
    } else {
      OnlyZeroTurns(w[2], p.y, q.y);
    }
  }

  lemma Gone(d: real, v: Point)
    requires d == 0.0
    ensures d * v.x == 0.0 && d * v.y == 0.0
  {}

  /** The three motions are independent unless all anchors are at one place. */
  lemma WholeMotionsIndependent(ids: seq<int>, position: map<int, Point>, withBias: bool, x: Row, w: Row)
    requires (forall j :: 0 <= j < |ids| ==> ids[j] in position) && Spread(ids, position)
    requires AllCancel(ids, position, withBias, x, w) && w[3] == 0.0
    ensures Zero(w)
  {
    var i, j :| 0 <= i < |ids| && 0 <= j < |ids| && position[ids[i]] != position[ids[j]];
    CancelsAt(ids, position, withBias, x, w, i);
    CancelsAt(ids, position, withBias, x, w, j);
    hide AllCancel, Cancels, Zero;
    OnlyZeroCancelsTwo(w, position[ids[i]], position[ids[j]], Point(x[2 * i], x[2 * i + 1]), Point(x[2 * j], x[2 * j + 1]));
  }

  lemma OnlyZeroTurns(turn: real, a: real, b: real)
    requires turn * a == turn * b && a != b
    ensures turn == 0.0
  {
    assert turn * (a - b) == 0.0;
  }

  /** At least three combinations of the equations always vanish. */
  lemma ThreeMotionsAtLeast(ids: seq<int>, edges: seq<Edge>, pairs: set<nat>, position: map<int, Point>, withBias: bool,
                            q: Matrix, pivots: seq<nat>)
    requires Graph(ids, edges, position) && Spread(ids, position)
    requires Complete(q, Equations(|ids|, withBias), pivots)
    requires SameKernel(ColumnEquations(Balance(ids, edges, position, withBias), |edges|, pairs), q)
    ensures |pivots| + 3 <= Equations(|ids|, withBias)
  {
    var n := Equations(|ids|, withBias);
    if n - |pivots| < 3 {
      var t := WholeMotions(ids, position, withBias);
      WholeMotionsInKernel(ids, edges, pairs, position, withBias);
      hide WholeMotions, Graph, Balance, ColumnEquations;
      forall i | 0 <= i < 3 ensures Kernel(q, n, t[i]) {}
      var w := SomeMixVanishes(q, n, pivots, t);
      Padded(t, n, w);
      WholeMotionsIndependent(ids, position, withBias, Zeros(n), w + [0.0]);
      ZeroFront(w);
    }
  }

  lemma ZeroFront(w: Row)
    requires Zero(w + [0.0])
    ensures Zero(w)
  {
    forall k | 0 <= k < |w| ensures w[k] == 0.0 {
      assert (w + [0.0])[k] == w[k];
    }
  }

  lemma Padded(t: Matrix, n: nat, w: Row)
    requires Shape(t, 3, n) && |w| == 3 && forall c :: 0 <= c < n ==> Dot(Column(t, n, c), w) == 0.0
    ensures forall c :: 0 <= c < n ==> Dot(Column(t + [Zeros(n)], n, c), w + [0.0]) == 0.0
  {
    forall c | 0 <= c < n ensures Dot(Column(t + [Zeros(n)], n, c), w + [0.0]) == 0.0 {
      assert Column(t + [Zeros(n)], n, c) == Column(t, n, c) + [0.0];
      DotConcat(Column(t, n, c), [0.0], w, [0.0]);
      DotZero([0.0], [0.0]);
    }
  }

  /** With no more than three vanishing combinations, the pairs allow no motion but that of the whole. */
  lemma FewMotionsFixShape(ids: seq<int>, edges: seq<Edge>, pairs: set<nat>, position: map<int, Point>, withBias: bool,
                           q: Matrix, pivots: seq<nat>)
    requires Graph(ids, edges, position) && Spread(ids, position)
    requires Complete(q, Equations(|ids|, withBias), pivots) && Equations(|ids|, withBias) <= |pivots| + 3
    requires SameKernel(ColumnEquations(Balance(ids, edges, position, withBias), |edges|, pairs), q)
    ensures FixesShape(ids, edges, pairs, position, withBias)
  {
    forall v: map<int, Point>, b: real | Motion(ids, edges, pairs, position, v, b) && (withBias || b == 0.0)
      ensures b == 0.0 && RigidMotion(ids, position, v)
    {
      var x := Stacked(ids, v, b, withBias);
      KernelIsMotion(ids, edges, pairs, position, withBias, v, b);
      WholeMotionsInKernel(ids, edges, pairs, position, withBias);
      hide Balance, ColumnEquations, WholeMotions, Stacked, Motion;
      var w := FourVanish(q, Equations(|ids|, withBias), pivots, WholeMotions(ids, position, withBias), x);
      MixIsWhole(ids, position, withBias, v, b, w);
    }
  }

  lemma FourVanish(q: Matrix, n: nat, pivots: seq<nat>, t: Matrix, x: Row) returns (w: Row)
    requires Complete(q, n, pivots) && n <= |pivots| + 3 && Shape(t, 3, n) && Kernel(q, n, x)
    requires forall i :: 0 <= i < 3 ==> Kernel(q, n, t[i])
    ensures |w| == 4 && !Zero(w) && forall c :: 0 <= c < n ==> Dot(Column(t + [x], n, c), w) == 0.0
  {
    var bs := t + [x];
    forall i | 0 <= i < |bs| ensures Kernel(q, n, bs[i]) {}
    w := SomeMixVanishes(q, n, pivots, bs);
  }

  /** Weights that cancel the motion against the three give it as their combination. */
  lemma MixIsWhole(ids: seq<int>, position: map<int, Point>, withBias: bool, v: map<int, Point>, b: real, w: Row)
    requires (forall j :: 0 <= j < |ids| ==> ids[j] in position) && Spread(ids, position)
    requires MovesAll(ids, v) && (withBias || b == 0.0)
    requires AllCancel(ids, position, withBias, Stacked(ids, v, b, withBias), w) && !Zero(w)
    ensures b == 0.0 && RigidMotion(ids, position, v)
  {
    var x := Stacked(ids, v, b, withBias);
    if w[3] == 0.0 {
      WholeMotionsIndependent(ids, position, withBias, x, w);
    }
    var dx, dy, turn := -w[0] / w[3], -w[1] / w[3], -w[2] / w[3];
    hide AllCancel, Cancels, Stacked, Spread, Zero;
    forall i | 0 <= i < |ids|
      ensures v[ids[i]].x == dx - turn * position[ids[i]].y && v[ids[i]].y == dy + turn * position[ids[i]].x
    {
      CancelsAt(ids, position, withBias, x, w, i);
      StackedAt(ids, v, b, withBias, i);
      AnchorSolved(w, position[ids[i]], v[ids[i]]);
    }
    assert Turns(ids, position, v, dx, dy, turn);
    if withBias {
      NoRate(ids, position, v, b, w);
    }
  }

  lemma NoRate(ids: seq<int>, position: map<int, Point>, v: map<int, Point>, b: real, w: Row)
    requires (forall j :: 0 <= j < |ids| ==> ids[j] in position) && |ids| > 0 && MovesAll(ids, v)
    requires AllCancel(ids, position, true, Stacked(ids, v, b, true), w) && w[3] != 0.0
    ensures b == 0.0
  {
    StackedAt(ids, v, b, true, 0);
    CancelsAt(ids, position, true, Stacked(ids, v, b, true), w, 0);
    NoZeroProduct(w[3], -b);
  }

  lemma AnchorSolved(w: Row, p: Point, v: Point)
    requires |w| == 4 && w[3] != 0.0 && Cancels(w, p, v)
    ensures v.x == -w[0] / w[3] - (-w[2] / w[3]) * p.y && v.y == -w[1] / w[3] + (-w[2] / w[3]) * p.x
  {
    Solved(w[0], -w[2] * p.y, w[3], v.x);
    Solved(w[1], w[2] * p.x, w[3], v.y);
    Moved(w[2], w[3], p.y);
    Moved(w[2], w[3], p.x);
  }

  lemma Solved(a: real, c: real, d: real, x: real)
    requires d != 0.0 && a + c + d * x == 0.0
    ensures x == -a / d - c / d
  {
    assert x == (-a - c) / d;
  }

  lemma Moved(c: real, d: real, y: real)
    requires d != 0.0
    ensures (-c / d) * y == -(c * y / d) && -c * y / d == -(c * y / d)
  {}

  /** With more than three, some motion is none of the whole. */
  lemma ManyMotionsDoNot(ids: seq<int>, edges: seq<Edge>, pairs: set<nat>, position: map<int, Point>, withBias: bool,
                         q: Matrix, pivots: seq<nat>)
    requires Graph(ids, edges, position)
    requires Complete(q, Equations(|ids|, withBias), pivots) && Equations(|ids|, withBias) > |pivots| + 3
    requires SameKernel(ColumnEquations(Balance(ids, edges, position, withBias), |edges|, pairs), q)
    ensures !FixesShape(ids, edges, pairs, position, withBias)
  {
    var t := WholeMotions(ids, position, withBias);
    var x, probe := OutsideSpan(q, Equations(|ids|, withBias), pivots, t);
    var v, b := Unstacked(ids, x, withBias);
    KernelIsMotion(ids, edges, pairs, position, withBias, v, b);
    hide Balance, ColumnEquations, Stacked, Motion;
    if b == 0.0 && RigidMotion(ids, position, v) {
      var dx, dy, turn :| Turns(ids, position, v, dx, dy, turn);
      WholeIsMix(ids, position, withBias, v, dx, dy, turn);
      MixedVanishes(t, [dx, dy, turn], |x|, probe);
    }
  }

  lemma WholeIsMix(ids: seq<int>, position: map<int, Point>, withBias: bool, v: map<int, Point>, dx: real, dy: real, turn: real)
    requires (forall j :: 0 <= j < |ids| ==> ids[j] in position) && MovesAll(ids, v) && Turns(ids, position, v, dx, dy, turn)
    ensures Stacked(ids, v, 0.0, withBias)
         == Mixed(WholeMotions(ids, position, withBias), [dx, dy, turn], Equations(|ids|, withBias))
  {
    var t, x := WholeMotions(ids, position, withBias), Stacked(ids, v, 0.0, withBias);
    hide WholeMotions, Stacked, Mixed, Turns;
    forall r | 0 <= r < |x| ensures x[r] == Mixed(t, [dx, dy, turn], |x|)[r] {
      WholeEntry(ids, position, withBias, v, dx, dy, turn, r);
    }
  }

  lemma WholeEntry(ids: seq<int>, position: map<int, Point>, withBias: bool, v: map<int, Point>,
                   dx: real, dy: real, turn: real, r: nat)
    requires (forall j :: 0 <= j < |ids| ==> ids[j] in position) && MovesAll(ids, v) && Turns(ids, position, v, dx, dy, turn)
    requires r < Equations(|ids|, withBias)
    ensures Stacked(ids, v, 0.0, withBias)[r]
         == Mixed(WholeMotions(ids, position, withBias), [dx, dy, turn], Equations(|ids|, withBias))[r]
  {
    var i := EntriesOf(|ids|, withBias, r);
    StackedAt(ids, v, 0.0, withBias, i);
    MixedEntries(ids, position, withBias, [dx, dy, turn], i);
    if i < |ids| {
      TurnsAt(ids, position, v, dx, dy, turn, i);
    }
    hide WholeMotions, Stacked, Mixed, Less, Turns;
  }

  lemma TurnsAt(ids: seq<int>, position: map<int, Point>, v: map<int, Point>, dx: real, dy: real, turn: real, i: nat)
    requires Turns(ids, position, v, dx, dy, turn) && i < |ids|
    ensures ids[i] in v && ids[i] in position
    ensures v[ids[i]].x == Less(dx, turn, position[ids[i]].y) && v[ids[i]].y == Less(dy, turn, -position[ids[i]].x)
  {
    Negated(turn, position[ids[i]].x);
  }

  /** What weights of the three motions come to at each anchor. */
  lemma MixedEntries(ids: seq<int>, position: map<int, Point>, withBias: bool, w: Row, i: nat)
    requires (forall j :: 0 <= j < |ids| ==> ids[j] in position) && |w| == 3
    ensures var z := Mixed(WholeMotions(ids, position, withBias), w, Equations(|ids|, withBias));
      && (i < |ids| ==>
            && z[2 * i] == Less(w[0], w[2], position[ids[i]].y)
            && z[2 * i + 1] == Less(w[1], w[2], -position[ids[i]].x))
      && (withBias ==> z[2 * |ids|] == 0.0)
  {
    hide Mixed, Three, Less;
    var t, n := WholeMotions(ids, position, withBias), Equations(|ids|, withBias);
    WholeMotionsAt(ids, position, withBias, i);
    hide WholeMotions;
    if i < |ids| {
      ThreeAt(t, n, w, 2 * i);
      ThreeAt(t, n, w, 2 * i + 1);
      ThreeWhole(position[ids[i]].y, w);
      ThreeWhole(position[ids[i]].x, w);
    }
    if withBias {
      ThreeAt(t, n, w, 2 * |ids|);
      ThreeWhole(0.0, w);
    }
  }

  function Three(a: real, b: real, c: real, w: Row): real
    requires |w| == 3
  {
    a * w[0] + b * w[1] + c * w[2]
  }

  lemma ThreeAt(t: Matrix, n: nat, w: Row, r: nat)
    requires Shape(t, 3, n) && |w| == 3 && r < n
    ensures Mixed(t, w, n)[r] == Three(t[0][r], t[1][r], t[2][r], w)
  {
    MixedEntry(t, w, n, r);
    DotThree(Column(t, n, r), w);
  }

  lemma ThreeWhole(z: real, w: Row)
    requires |w| == 3
    ensures Three(1.0, 0.0, -z, w) == Less(w[0], w[2], z) && Three(0.0, 1.0, z, w) == Less(w[1], w[2], -z)
    ensures Three(0.0, 0.0, 0.0, w) == 0.0
  {}

  lemma DotThree(c: Row, w: Row)
    requires |c| == |w| == 3
    ensures Dot(c, w) == c[0] * w[0] + c[1] * w[1] + c[2] * w[2]
  {
    assert c[..2][..1] == c[..1] && w[..2][..1] == w[..1];
    assert c[..1][..0] == [] && w[..1][..0] == [];
    assert Dot(c[..1], w[..1]) == c[0] * w[0];
    assert Dot(c[..2], w[..2]) == c[0] * w[0] + c[1] * w[1];
  }

  /** The rank test asks of the chosen pairs just that they allow no motion but that of the whole. */
  lemma RankTestMeansRigid(ids: seq<int>, edges: seq<Edge>, pairs: set<nat>, position: map<int, Point>, withBias: bool,
                           rank: nat)
    requires Graph(ids, edges, position) && Spread(ids, position) && pairs <= Columns(|edges|)
    requires IsRank(Balance(ids, edges, position, withBias), |edges|, pairs, rank)
    ensures rank <= Needed(|ids|, withBias)
    ensures rank >= Needed(|ids|, withBias) <==> FixesShape(ids, edges, pairs, position, withBias)
  {
    var m := Balance(ids, edges, position, withBias);
    var a := ColumnEquations(m, |edges|, pairs);
    var q, pivots := EchelonFrom(a, |m|, [], 0);
    RankIsPivots(m, |edges|, pairs, rank, q, pivots);
    hide FixesShape, Spread, Graph, Balance, ColumnEquations;
    ThreeMotionsAtLeast(ids, edges, pairs, position, withBias, q, pivots);
    if Equations(|ids|, withBias) <= |pivots| + 3 {
      FewMotionsFixShape(ids, edges, pairs, position, withBias, q, pivots);
    } else {
      ManyMotionsDoNot(ids, edges, pairs, position, withBias, q, pivots);
    }
  }
}
