/** Rows of reals and what row operations keep (tools/survey_solve.py, in exact arithmetic). */
module Rows {

  type Row = seq<real>

  function Dot(a: Row, y: Row): real
    requires |a| == |y|
  {
    if a == [] then 0.0
    else Dot(a[..|a| - 1], y[..|y| - 1]) + a[|a| - 1] * y[|y| - 1]
  }

  function Less(a: real, f: real, b: real): real {
    a - f * b
  }

  /** `a - f * b`, entry by entry. */
  function Minus(a: Row, f: real, b: Row): (r: Row)
    requires |a| == |b|
    ensures |r| == |a|
    ensures forall k :: 0 <= k < |a| ==> r[k] == Less(a[k], f, b[k])
  {
    seq(|a|, k requires 0 <= k < |a| => Less(a[k], f, b[k]))
  }

  function Scaled(a: Row, f: real): (r: Row)
    ensures |r| == |a|
    ensures forall k :: 0 <= k < |a| ==> r[k] == a[k] * f
  {
    seq(|a|, k requires 0 <= k < |a| => a[k] * f)
  }

  ghost predicate Zero(w: Row) {
    forall k :: 0 <= k < |w| ==> w[k] == 0.0
  }

  lemma NothingSubtracted(a: real, f: real, b: real)
    requires b == 0.0
    ensures Less(a, f, b) == a
  {}

  function Abs(x: real): real {
    if x < 0.0 then -x else x
  }

  lemma MinusPrefix(a: Row, f: real, b: Row, n: nat)
    requires |a| == |b| && n <= |a|
    ensures Minus(a, f, b)[..n] == Minus(a[..n], f, b[..n])
  {
    forall k | 0 <= k < n ensures Minus(a, f, b)[k] == Minus(a[..n], f, b[..n])[k] {
      var x, y := a[..n][k], b[..n][k];
      assert x == a[k] && y == b[k];
      assert Minus(a[..n], f, b[..n])[k] == Less(x, f, y);
    }
  }

  lemma ScaledPrefix(a: Row, f: real, n: nat)
    requires n <= |a|
    ensures Scaled(a, f)[..n] == Scaled(a[..n], f)
  {
    forall k | 0 <= k < n ensures Scaled(a, f)[k] == Scaled(a[..n], f)[k] {
      var x := a[..n][k];
      assert x == a[k];
      assert Scaled(a[..n], f)[k] == x * f;
    }
  }

  lemma {:induction false} DotMinus(a: Row, f: real, b: Row, y: Row)
    requires |a| == |b| == |y|
    ensures Dot(Minus(a, f, b), y) == Dot(a, y) - f * Dot(b, y)
  {
    if a != [] {
      var n := |a| - 1;
      DotMinus(a[..n], f, b[..n], y[..n]);
      MinusPrefix(a, f, b, n);
      Distribute(a[n], f, b[n], y[n], Dot(b[..n], y[..n]));
    }
  }

  lemma Distribute(a: real, f: real, b: real, y: real, d: real)
    ensures (a - f * b) * y == a * y - f * (b * y)
    ensures f * (d + b * y) == f * d + f * (b * y)
  {}

  lemma {:induction false} DotScaled(a: Row, f: real, y: Row)
    requires |a| == |y|
    ensures Dot(Scaled(a, f), y) == f * Dot(a, y)
  {
    if a != [] {
      var n := |a| - 1;
      DotScaled(a[..n], f, y[..n]);
      ScaledPrefix(a, f, n);
      ScaleTerm(a[n], f, y[n], Dot(a[..n], y[..n]));
    }
  }

  lemma ScaleTerm(a: real, f: real, y: real, d: real)
    ensures a * f * y == f * (a * y)
    ensures f * (d + a * y) == f * d + f * (a * y)
  {}

  /** Changing one entry of `y` moves the product by that entry's share. */
  lemma {:induction false} DotUpdate(a: Row, y: Row, k: nat, v: real)
    requires |a| == |y| && k < |a|
    ensures Dot(a, y[k := v]) == Dot(a, y) + a[k] * (v - y[k])
  {
    var n := |a| - 1;
    if k < n {
      DotUpdate(a[..n], y[..n], k, v);
      assert y[k := v][..n] == y[..n][k := v];
    } else {
      assert y[k := v][..n] == y[..n];
      assert a[n] * (v - y[n]) == a[n] * v - a[n] * y[n];
    }
  }

  /** A product whose every term has a zero factor. */
  lemma {:induction false} DotZero(a: Row, y: Row)
    requires |a| == |y| && forall k :: 0 <= k < |a| ==> a[k] == 0.0 || y[k] == 0.0
    ensures Dot(a, y) == 0.0
  {
    if a != [] {
      var n := |a| - 1;
      forall k | 0 <= k < n ensures a[..n][k] == 0.0 || y[..n][k] == 0.0 {
        assert a[k] == 0.0 || y[k] == 0.0;
      }
      DotZero(a[..n], y[..n]);
      assert a[n] * y[n] == 0.0;
    }
  }

  /** A product with only one term that can count. */
  lemma DotSingle(a: Row, y: Row, k: nat)
    requires |a| == |y| && k < |a| && forall j :: 0 <= j < |a| && j != k ==> a[j] == 0.0 || y[j] == 0.0
    ensures Dot(a, y) == a[k] * y[k]
  {
    hide Dot;
    var blank := y[k := 0.0];
    forall j | 0 <= j < |a| ensures a[j] == 0.0 || blank[j] == 0.0 {
      assert j != k ==> a[j] == 0.0 || y[j] == 0.0;
    }
    DotZero(a, blank);
    DotUpdate(a, blank, k, y[k]);
    assert blank[k := y[k]] == y;
  }

  lemma {:induction false} DotConcat(a: Row, b: Row, y: Row, z: Row)
    requires |a| == |y| && |b| == |z|
    ensures Dot(a + b, y + z) == Dot(a, y) + Dot(b, z)
  {
    if b == [] {
      assert a + b == a && y + z == y;
    } else {
      var n := |b| - 1;
      DotConcat(a, b[..n], y, z[..n]);
      assert (a + b)[..|a| + n] == a + b[..n] && (y + z)[..|y| + n] == y + z[..n];
    }
  }

  // ---------------------------------------------------------------- matrices

  type Matrix = seq<Row>

  ghost predicate Shape(m: Matrix, rows: nat, width: nat) {
    |m| == rows && forall r :: 0 <= r < rows ==> |m[r]| == width
  }

  /** The row with the largest entry of the column, from `row` down. */
  method FindBest(m: Matrix, width: nat, row: nat, col: nat) returns (best: nat)
    requires Shape(m, |m|, width) && row < |m| && col < width
    ensures row <= best < |m|
    ensures forall r :: row <= r < |m| ==> Abs(m[r][col]) <= Abs(m[best][col])
  {
    best := row;
    for r := row + 1 to |m|
      invariant row <= best < |m|
      invariant forall k :: row <= k < r ==> Abs(m[k][col]) <= Abs(m[best][col])
    {
      if Abs(m[r][col]) > Abs(m[best][col]) {
        best := r;
      }
    }
  }

  /** `y` is orthogonal to every row. */
  ghost predicate Annihilates(m: Matrix, y: Row) {
    forall r :: 0 <= r < |m| ==> |m[r]| == |y| && Dot(m[r], y) == 0.0
  }

  /** The two matrices have the same kernel. */
  ghost predicate SameKernel(m: Matrix, n: Matrix) {
    forall y: Row :: Annihilates(m, y) <==> Annihilates(n, y)
  }

  function Swap(m: Matrix, i: nat, j: nat): (r: Matrix)
    requires i < |m| && j < |m|
    ensures |r| == |m|
  {
    m[i := m[j]][j := m[i]]
  }

  lemma SwapKeepsKernel(m: Matrix, i: nat, j: nat)
    requires i < |m| && j < |m|
    ensures SameKernel(m, Swap(m, i, j))
  {
    var s := Swap(m, i, j);
    forall y: Row ensures Annihilates(m, y) <==> Annihilates(s, y) {
      if Annihilates(s, y) {
        forall r | 0 <= r < |m| ensures |m[r]| == |y| && Dot(m[r], y) == 0.0 {
          var k := if r == i then j else if r == j then i else r;
          assert s[k] == m[r];
        }
      }
    }
  }

  /** Subtracting a multiple of one row from another. */
  lemma SubtractKeepsKernel(m: Matrix, row: nat, f: real, pivot: nat, width: nat)
    requires Shape(m, |m|, width) && row < |m| && pivot < |m| && row != pivot
    ensures SameKernel(m, m[row := Minus(m[row], f, m[pivot])])
  {
    var s := m[row := Minus(m[row], f, m[pivot])];
    forall y: Row ensures Annihilates(m, y) <==> Annihilates(s, y) {
      if |y| == width {
        DotMinus(m[row], f, m[pivot], y);
        if Annihilates(m, y) {
          assert Dot(m[row], y) == 0.0 && Dot(m[pivot], y) == 0.0;
          forall r | 0 <= r < |s| ensures |s[r]| == |y| && Dot(s[r], y) == 0.0 {}
        }
        if Annihilates(s, y) {
          assert Dot(s[row], y) == 0.0 && Dot(s[pivot], y) == 0.0;
          forall r | 0 <= r < |m| ensures |m[r]| == |y| && Dot(m[r], y) == 0.0 {
            assert r != row ==> s[r] == m[r];
          }
        }
      } else {
        assert |m[row]| == width && |s[row]| == width;
      }
    }
  }

  lemma NoZeroProduct(f: real, d: real)
    requires f != 0.0
    ensures f * d == 0.0 <==> d == 0.0
  {}

  lemma SameKernelTwice(a: Matrix, b: Matrix, c: Matrix)
    requires SameKernel(a, b) && SameKernel(b, c)
    ensures SameKernel(a, c)
  {}
}

/** Gaussian elimination with partial pivoting, `_solve_linear`, with the tolerance taken as zero. */
module LinearSolver {
  import opened Prelude
  import opened Rows

  ghost predicate Solves(matrix: Matrix, rhs: Row, x: Row)
    requires |rhs| == |matrix|
  {
    forall i :: 0 <= i < |matrix| ==> |matrix[i]| == |x| && Dot(matrix[i], x) == rhs[i]
  }

  /** Some nonzero vector is sent to zero. */
  ghost predicate Singular(matrix: Matrix) {
    exists z: Row :: |z| == |matrix| && !Zero(z) && Annihilates(matrix, z)
  }

  function Augmented(matrix: Matrix, rhs: Row): (m: Matrix)
    requires |rhs| == |matrix|
    ensures |m| == |matrix|
    ensures forall i :: 0 <= i < |m| ==> m[i] == matrix[i] + [rhs[i]]
  {
    seq(|matrix|, i requires 0 <= i < |matrix| => matrix[i] + [rhs[i]])
  }

  /** The first `col` columns are eliminated: a nonzero diagonal with zeros below it. */
  ghost predicate Reduced(m: Matrix, n: nat, col: nat)
    requires Shape(m, n, n + 1) && col <= n
  {
    && (forall c :: 0 <= c < col ==> m[c][c] != 0.0)
    && (forall r, c :: 0 <= c < col && c < r < n ==> m[r][c] == 0.0)
  }

  lemma AugmentedTimes(matrix: Matrix, rhs: Row, x: Row, last: real)
    requires |rhs| == |matrix| && forall i :: 0 <= i < |matrix| ==> |matrix[i]| == |x|
    ensures forall i :: 0 <= i < |matrix| ==>
      Dot(Augmented(matrix, rhs)[i], x + [last]) == Dot(matrix[i], x) + rhs[i] * last
  {
    hide Dot;
    forall i | 0 <= i < |matrix|
      ensures Dot(Augmented(matrix, rhs)[i], x + [last]) == Dot(matrix[i], x) + rhs[i] * last
    {
      RowTimes(matrix[i], rhs[i], x, last);
    }
  }

  lemma RowTimes(row: Row, b: real, x: Row, last: real)
    requires |row| == |x|
    ensures Dot(row + [b], x + [last]) == Dot(row, x) + b * last
  {
    hide Dot;
    DotConcat(row, [b], x, [last]);
    DotOne(b, last);
  }

  lemma DotOne(a: real, y: real)
    ensures Dot([a], [y]) == a * y
  {
    assert [a][..0] == [] && [y][..0] == [];
  }

  lemma Quotient(x: real, p: real)
    requires p != 0.0
    ensures x / p * p == x && p * (x / p) == x
  {}

  /** `m[row][k] -= factor * m[col][k]` for `k` from `from` on; the entries before it are zero in `b`. */
  method SubtractTail(a: Row, f: real, b: Row, from: nat) returns (r: Row)
    requires |a| == |b| && from <= |a| && forall k :: 0 <= k < from ==> b[k] == 0.0
    ensures r == Minus(a, f, b)
  {
    r := a;
    for k := from to |a|
      invariant |r| == |a|
      invariant forall j :: 0 <= j < from ==> r[j] == a[j]
      invariant forall j :: from <= j < k ==> r[j] == Less(a[j], f, b[j])
      invariant forall j :: k <= j < |a| ==> r[j] == a[j]
    {
      r := r[k := Less(r[k], f, b[k])];
    }
    forall j | 0 <= j < from ensures r[j] == Less(a[j], f, b[j]) {
      NothingSubtracted(a[j], f, b[j]);
    }
  }

  /** Clears the column below the diagonal. */
  method EliminateBelow(m0: Matrix, n: nat, col: nat) returns (m: Matrix)
    requires Shape(m0, n, n + 1) && col < n && Reduced(m0, n, col) && m0[col][col] != 0.0
    ensures Shape(m, n, n + 1) && SameKernel(m0, m) && Reduced(m, n, col + 1)
  {
    m := m0;
    for row := col + 1 to n
      invariant Shape(m, n, n + 1) && SameKernel(m0, m) && Reduced(m, n, col) && m[col] == m0[col]
      invariant forall r :: col < r < row ==> m[r][col] == 0.0
    {
      var factor := m[row][col] / m[col][col];
      Quotient(m[row][col], m[col][col]);
      var next := SubtractTail(m[row], factor, m[col], col);
      SubtractKeepsKernel(m, row, factor, col, n + 1);
      SameKernelTwice(m0, m, m[row := next]);
      forall c | 0 <= c < col ensures next[c] == 0.0 {
        assert m[row][c] == 0.0 && m[col][c] == 0.0;
        NothingSubtracted(m[row][c], factor, m[col][c]);
      }
      assert next[col] == Less(m[row][col], factor, m[col][col]);
      m := m[row := next];
    }
  }

  /** A reduced matrix whose next column is zero from the diagonal down has a kernel vector with a one there. */
  lemma KernelVector(m: Matrix, n: nat, col: nat) returns (z: Row)
    requires Shape(m, n, n + 1) && col < n && Reduced(m, n, col)
    requires forall r :: col <= r < n ==> m[r][col] == 0.0
    ensures |z| == n && z[col] == 1.0 && Annihilates(m, z + [0.0])
  {
    var y: Row := seq(n + 1, k => if k == col then 1.0 else 0.0);
    forall r | col <= r < n ensures Dot(m[r], y) == 0.0 {
      DotZero(m[r], y);
    }
    var row := col;
    while row > 0
      invariant 0 <= row <= col && |y| == n + 1 && y[col] == 1.0 && y[n] == 0.0
      invariant forall k :: 0 <= k < row ==> y[k] == 0.0
      invariant forall r :: row <= r < n ==> Dot(m[r], y) == 0.0
    {
      row := row - 1;
      var d := Dot(m[row], y);
      var v := (-d) / m[row][row];
      Quotient(-d, m[row][row]);
      forall r | row <= r < n ensures Dot(m[r], y[row := v]) == 0.0 {
        DotUpdate(m[r], y, row, v);
        if r > row {
          assert m[r][row] == 0.0;
        }
      }
      y := y[row := v];
    }
    z := y[..n];
    assert z + [0.0] == y;
  }

  /** A fully reduced matrix sends only zero to zero. */
  lemma ReducedIsRegular(m: Matrix, n: nat, z: Row)
    requires Shape(m, n, n + 1) && Reduced(m, n, n) && |z| == n && Annihilates(m, z + [0.0])
    ensures Zero(z)
  {
    var y := z + [0.0];
    var row := n;
    while row > 0
      invariant 0 <= row <= n
      invariant forall k :: row <= k < n ==> z[k] == 0.0
    {
      row := row - 1;
      assert Dot(m[row], y) == 0.0;
      forall j | 0 <= j <= n && j != row ensures m[row][j] == 0.0 || y[j] == 0.0 {
        if j < row {
          assert m[row][j] == 0.0;
        }
      }
      DotSingle(m[row], y, row);
      NoZeroProduct(m[row][row], z[row]);
    }
  }

  /** One step of back substitution makes its row hold. */
  lemma BackStep(a: Row, n: nat, row: nat, x: Row, v: real)
    requires |a| == n + 1 && |x| == n && row < n && a[row] != 0.0
    requires forall k :: 0 <= k < row ==> a[k] == 0.0
    requires v == (a[n] - Dot(a[row + 1..n], x[row + 1..])) / a[row]
    ensures Dot(a, x[row := v] + [-1.0]) == 0.0
  {
    hide Dot;
    var blank := x[row := 0.0] + [-1.0];
    DotTail(a, blank, row + 1);
    LastTerm(a, x, blank, n, row);
    DotUpdate(a, blank, row, v);
    assert blank[row := v] == x[row := v] + [-1.0];
    Cancel(a[row], a[n] - Dot(a[row + 1..n], x[row + 1..]), v);
  }

  lemma Cancel(p: real, q: real, v: real)
    requires p != 0.0 && v == q / p
    ensures p * (v - 0.0) == q
  {
    Quotient(q, p);
  }

  /** Leading terms that are zero can be left off. */
  lemma DotTail(a: Row, y: Row, from: nat)
    requires |a| == |y| && from <= |a| && forall k :: 0 <= k < from ==> a[k] == 0.0 || y[k] == 0.0
    ensures Dot(a, y) == Dot(a[from..], y[from..])
  {
    hide Dot;
    assert a == a[..from] + a[from..] && y == y[..from] + y[from..];
    DotConcat(a[..from], a[from..], y[..from], y[from..]);
    DotZero(a[..from], y[..from]);
  }

  lemma LastTerm(a: Row, x: Row, blank: Row, n: nat, row: nat)
    requires |a| == n + 1 && |x| == n && row < n && blank == x[row := 0.0] + [-1.0]
    ensures Dot(a[row + 1..], blank[row + 1..]) == Dot(a[row + 1..n], x[row + 1..]) - a[n]
  {
    var b, y := a[row + 1..], blank[row + 1..];
    var k := n - row - 1;
    assert b[..k] == a[row + 1..n] && y[..k] == x[row + 1..];
    assert b[k] == a[n] && y[k] == -1.0;
  }

  method BackSubstitute(m: Matrix, n: nat) returns (x: Row)
    requires Shape(m, n, n + 1) && Reduced(m, n, n)
    ensures |x| == n && Annihilates(m, x + [-1.0])
  {
    x := seq(n, k => 0.0);
    for row := n downto 0
      invariant |x| == n
      invariant forall r :: row <= r < n ==> Dot(m[r], x + [-1.0]) == 0.0
    {
      var v := (m[row][n] - Dot(m[row][row + 1..n], x[row + 1..])) / m[row][row];
      forall k | 0 <= k < row ensures m[row][k] == 0.0 {}
      BackStep(m[row], n, row, x, v);
      forall r | row < r < n ensures Dot(m[r], x[row := v] + [-1.0]) == 0.0 {
        DotUpdate(m[r], x + [-1.0], row, v);
        assert (x + [-1.0])[row := v] == x[row := v] + [-1.0];
        assert m[r][row] == 0.0;
      }
      x := x[row := v];
    }
  }

  /** Solves the system, or refuses it (`None`), and refuses exactly the singular ones. */
  method SolveLinear(matrix: Matrix, rhs: Row) returns (r: Option<Row>)
    requires |matrix| == |rhs| && Shape(matrix, |rhs|, |rhs|)
    ensures r.Some? ==> |r.value| == |rhs| && Solves(matrix, rhs, r.value)
    ensures r.None? <==> Singular(matrix)
  {
    var n := |rhs|;
    ghost var start := Augmented(matrix, rhs);
    var m := Augmented(matrix, rhs);
    for col := 0 to n
      invariant Shape(m, n, n + 1) && SameKernel(start, m) && Reduced(m, n, col)
    {
      var pivot := FindBest(m, n + 1, col, col);
      if Abs(m[pivot][col]) == 0.0 {
        ghost var z := KernelVector(m, n, col);
        AugmentedTimes(matrix, rhs, z, 0.0);
        assert Annihilates(start, z + [0.0]);
        assert Annihilates(matrix, z) by {
          KernelOfMatrix(matrix, rhs, z);
        }
        return None;
      }
      SwapKeepsKernel(m, col, pivot);
      SameKernelTwice(start, m, Swap(m, col, pivot));
      m := Swap(m, col, pivot);
      ghost var before := m;
      m := EliminateBelow(m, n, col);
      SameKernelTwice(start, before, m);
    }
    var x := BackSubstitute(m, n);
    assert Annihilates(start, x + [-1.0]);
    SolutionOf(matrix, rhs, x);
    RegularByReduction(matrix, rhs, m);
    return Some(x);
  }

  lemma KernelOfMatrix(matrix: Matrix, rhs: Row, z: Row)
    requires |matrix| == |rhs| == |z| && Shape(matrix, |rhs|, |rhs|)
    ensures Annihilates(Augmented(matrix, rhs), z + [0.0]) <==> Annihilates(matrix, z)
  {
    AugmentedTimes(matrix, rhs, z, 0.0);
    var start := Augmented(matrix, rhs);
    if Annihilates(start, z + [0.0]) {
      forall i | 0 <= i < |matrix| ensures Dot(matrix[i], z) == 0.0 {
        assert Dot(start[i], z + [0.0]) == 0.0;
      }
    }
  }

  lemma SolutionOf(matrix: Matrix, rhs: Row, x: Row)
    requires |matrix| == |rhs| == |x| && Shape(matrix, |rhs|, |rhs|)
    requires Annihilates(Augmented(matrix, rhs), x + [-1.0])
    ensures Solves(matrix, rhs, x)
  {
    AugmentedTimes(matrix, rhs, x, -1.0);
    forall i | 0 <= i < |matrix| ensures Dot(matrix[i], x) == rhs[i] {
      assert Dot(Augmented(matrix, rhs)[i], x + [-1.0]) == 0.0;
    }
  }

  lemma RegularByReduction(matrix: Matrix, rhs: Row, m: Matrix)
    requires |matrix| == |rhs| && Shape(matrix, |rhs|, |rhs|)
    requires Shape(m, |rhs|, |rhs| + 1) && SameKernel(Augmented(matrix, rhs), m) && Reduced(m, |rhs|, |rhs|)
    ensures !Singular(matrix)
  {
    forall z: Row | |z| == |matrix| && Annihilates(matrix, z) ensures Zero(z) {
      KernelOfMatrix(matrix, rhs, z);
      assert Annihilates(Augmented(matrix, rhs), z + [0.0]);
      ReducedIsRegular(m, |rhs|, z);
    }
  }
}
