/** Vectors and matrices over the reals, as the layers use them (an `Array1<f32>`
    is a `Vector`, an `Array2<f32>` a row-major `Matrix`), with the sums, products
    and reshapes the layers are built from. */
module Tensors {

  type Vector = seq<real>
  type Matrix = seq<seq<real>>

  /** `m` has `rows` rows of `cols` entries each. */
  predicate IsMatrix(m: Matrix, rows: nat, cols: nat)
  {
    |m| == rows && forall r :: 0 <= r < rows ==> |m[r]| == cols
  }

  /** The number of columns of a matrix (0 for a matrix without rows). */
  function Cols(m: Matrix): nat
  {
    if |m| == 0 then 0 else |m[0]|
  }

  function Zeros(n: nat): (v: Vector)
    ensures |v| == n && forall i :: 0 <= i < n ==> v[i] == 0.0
  {
    seq(n, _ => 0.0)
  }

  function ZeroMatrix(rows: nat, cols: nat): (m: Matrix)
    ensures IsMatrix(m, rows, cols)
    ensures forall r, c :: 0 <= r < rows && 0 <= c < cols ==> m[r][c] == 0.0
  {
    seq(rows, _ => Zeros(cols))
  }

  /** Sum of the entries, accumulated from the first to the last. */
  function Sum(s: seq<real>): real
  {
    if s == [] then 0.0 else Sum(s[..|s| - 1]) + s[|s| - 1]
  }

  /** Sum distributes over pointwise addition. */
  lemma {:induction false} SumAdd(a: seq<real>, b: seq<real>, ab: seq<real>)
    requires |a| == |b| == |ab|
    requires forall i :: 0 <= i < |ab| ==> ab[i] == a[i] + b[i]
    ensures Sum(ab) == Sum(a) + Sum(b)
  {
    if ab != [] {
      var n := |ab| - 1;
      SumAdd(a[..n], b[..n], ab[..n]);
    }
  }

  /** A constant factor can be taken out of a sum. */
  lemma {:induction false} SumScale(a: seq<real>, c: real, ca: seq<real>)
    requires |a| == |ca|
    requires forall i :: 0 <= i < |ca| ==> ca[i] == c * a[i]
    ensures Sum(ca) == c * Sum(a)
  {
    if ca != [] {
      var n := |ca| - 1;
      SumScale(a[..n], c, ca[..n]);
    }
  }

  /** The sum of `n` copies of `x`. */
  lemma {:induction false} SumConstant(s: seq<real>, x: real)
    requires forall i :: 0 <= i < |s| ==> s[i] == x
    ensures Sum(s) == (|s| as real) * x
  {
    if s != [] {
      SumConstant(s[..|s| - 1], x);
    }
  }

  /** Entry `c` of every row, summed over the rows. */
  function ColumnSum(m: Matrix, c: nat): real
    requires forall r :: 0 <= r < |m| ==> c < |m[r]|
  {
    Sum(seq(|m|, r requires 0 <= r < |m| => m[r][c]))
  }

  /** The vector of row sums: entry `r` is `Sum(m[r])`. */
  function RowSums(m: Matrix): (s: Vector)
    ensures |s| == |m|
  {
    seq(|m|, r requires 0 <= r < |m| => Sum(m[r]))
  }

  /** Summing a rectangular matrix row by row or column by column gives the same total. */
  lemma {:induction false} SumExchange(m: Matrix, rows: nat, cols: nat)
    requires IsMatrix(m, rows, cols)
    ensures Sum(RowSums(m)) == Sum(seq(cols, c requires 0 <= c < cols => ColumnSum(m, c)))
  {
    if rows == 0 {
      SumConstant(seq(cols, c requires 0 <= c < cols => ColumnSum(m, c)), 0.0);
    } else {
      var n := rows - 1;
      var init := m[..n];
      SumExchange(init, n, cols);
      var before := seq(cols, c requires 0 <= c < cols => ColumnSum(init, c));
      var after := seq(cols, c requires 0 <= c < cols => ColumnSum(m, c));
      forall c | 0 <= c < cols
        ensures after[c] == before[c] + m[n][c]
      {
        var col := seq(|m|, r requires 0 <= r < |m| => m[r][c]);
        assert col[..n] == seq(|init|, r requires 0 <= r < |init| => init[r][c]);
      }
      SumAdd(before, m[n], after);
      assert RowSums(m)[..n] == RowSums(init);
    }
  }

  /** `sum_{k < n} u[k] * v[k]`, accumulated from `k = 0` upwards. */
  function PartialDot(u: Vector, v: Vector, n: nat): real
    requires n <= |u| && n <= |v|
  {
    Sum(seq(n, k requires 0 <= k < n => u[k] * v[k]))
  }

  lemma PartialDotStep(u: Vector, v: Vector, n: nat)
    requires n < |u| && n < |v|
    ensures PartialDot(u, v, n + 1) == PartialDot(u, v, n) + u[n] * v[n]
  {
    var s := seq(n + 1, k requires 0 <= k < n + 1 => u[k] * v[k]);
    assert s[..n] == seq(n, k requires 0 <= k < n => u[k] * v[k]);
  }

  /** The dot product of two vectors of the same length. */
  function Dot(u: Vector, v: Vector): real
    requires |u| == |v|
  {
    PartialDot(u, v, |u|)
  }

  /** Row vector times matrix: entry `k` is `sum_j x[j] * w[j][k]` (`ndarray`'s `x.dot(w)`). */
  function VecMat(x: Vector, w: Matrix, cols: nat): (y: Vector)
    requires IsMatrix(w, |x|, cols)
    ensures |y| == cols
  {
    seq(cols, k requires 0 <= k < cols => ColumnDot(x, w, k))
  }

  /** `sum_j x[j] * w[j][k]`. */
  function ColumnDot(x: Vector, w: Matrix, k: nat): real
    requires |w| == |x| && forall j :: 0 <= j < |w| ==> k < |w[j]|
  {
    Sum(seq(|x|, j requires 0 <= j < |x| => x[j] * w[j][k]))
  }

  /** Matrix times column vector: entry `j` is `sum_k w[j][k] * e[k]`. */
  function MatVec(w: Matrix, e: Vector): (y: Vector)
    requires IsMatrix(w, |w|, |e|)
    ensures |y| == |w|
  {
    seq(|w|, j requires 0 <= j < |w| => Dot(w[j], e))
  }

  /** The terms `x[j] * w[j][k] * e[k]` of both sides of `Adjoint`, as a matrix. */
  function Terms(x: Vector, w: Matrix, e: Vector): (m: Matrix)
    requires IsMatrix(w, |x|, |e|)
    ensures IsMatrix(m, |x|, |e|)
    ensures forall j, k :: 0 <= j < |x| && 0 <= k < |e| ==> m[j][k] == x[j] * w[j][k] * e[k]
  {
    seq(|x|, j requires 0 <= j < |x| => TermsRow(x[j], w[j], e))
  }

  function TermsRow(xj: real, row: Vector, e: Vector): (t: Vector)
    requires |row| == |e|
    ensures |t| == |e| && forall k :: 0 <= k < |e| ==> t[k] == xj * row[k] * e[k]
  {
    seq(|e|, k requires 0 <= k < |e| => xj * row[k] * e[k])
  }

  lemma TermsByRow(x: Vector, w: Matrix, e: Vector, j: nat)
    requires IsMatrix(w, |x|, |e|) && j < |x|
    ensures x[j] * MatVec(w, e)[j] == RowSums(Terms(x, w, e))[j]
  {
    var m := Terms(x, w, e);
    var prods := seq(|e|, k requires 0 <= k < |e| => w[j][k] * e[k]);
    assert Dot(w[j], e) == Sum(prods);
    forall k | 0 <= k < |e|
      ensures m[j][k] == x[j] * prods[k]
    {
      assert m[j][k] == x[j] * w[j][k] * e[k];
    }
    SumScale(prods, x[j], m[j]);
  }

  lemma TermsByColumn(x: Vector, w: Matrix, e: Vector, k: nat)
    requires IsMatrix(w, |x|, |e|) && k < |e|
    ensures VecMat(x, w, |e|)[k] * e[k] == ColumnSum(Terms(x, w, e), k)
  {
    var m := Terms(x, w, e);
    var col := seq(|x|, j requires 0 <= j < |x| => x[j] * w[j][k]);
    assert VecMat(x, w, |e|)[k] == ColumnDot(x, w, k) == Sum(col);
    var terms := seq(|m|, r requires 0 <= r < |m| => m[r][k]);
    forall j | 0 <= j < |x|
      ensures terms[j] == e[k] * col[j]
    {
      assert m[j][k] == x[j] * w[j][k] * e[k];
    }
    SumScale(col, e[k], terms);
  }

  /** Multiplying by `w` on the right and by `w` on the left are adjoint:
      `<x, w e> == <x w, e>` for every `x` and `e`. */
  lemma Adjoint(x: Vector, w: Matrix, e: Vector)
    requires IsMatrix(w, |x|, |e|)
    ensures Dot(x, MatVec(w, e)) == Dot(VecMat(x, w, |e|), e)
  {
    var m := Terms(x, w, e);
    SumExchange(m, |x|, |e|);
    AdjointRows(x, w, e);
    AdjointColumns(x, w, e);
  }

  /** `<x, w e>` is the sum of the row sums of the terms. */
  lemma AdjointRows(x: Vector, w: Matrix, e: Vector)
    requires IsMatrix(w, |x|, |e|)
    ensures Dot(x, MatVec(w, e)) == Sum(RowSums(Terms(x, w, e)))
  {
    var m := Terms(x, w, e);
    var v := MatVec(w, e);
    var lhs := seq(|x|, j requires 0 <= j < |x| => x[j] * v[j]);
    forall j | 0 <= j < |x|
      ensures lhs[j] == RowSums(m)[j]
    {
      TermsByRow(x, w, e, j);
    }
    assert lhs == RowSums(m);
  }

  /** `<x w, e>` is the sum of the column sums of the terms. */
  lemma AdjointColumns(x: Vector, w: Matrix, e: Vector)
    requires IsMatrix(w, |x|, |e|)
    ensures Dot(VecMat(x, w, |e|), e) == Sum(seq(|e|, c requires 0 <= c < |e| => ColumnSum(Terms(x, w, e), c)))
  {
    var m := Terms(x, w, e);
    var y := VecMat(x, w, |e|);
    var rhs := seq(|e|, k requires 0 <= k < |e| => y[k] * e[k]);
    forall k | 0 <= k < |e|
      ensures rhs[k] == ColumnSum(m, k)
    {
      TermsByColumn(x, w, e, k);
    }
    assert rhs == seq(|e|, c requires 0 <= c < |e| => ColumnSum(m, c));
  }

  /** Pointwise sum of two vectors of the same length. */
  function Add(u: Vector, v: Vector): (w: Vector)
    requires |u| == |v|
    ensures |w| == |u| && forall i :: 0 <= i < |w| ==> w[i] == u[i] + v[i]
  {
    seq(|u|, i requires 0 <= i < |u| => u[i] + v[i])
  }

  /** Pointwise sum of two matrices of the same shape. */
  function AddMatrix(a: Matrix, b: Matrix, rows: nat, cols: nat): (m: Matrix)
    requires IsMatrix(a, rows, cols) && IsMatrix(b, rows, cols)
    ensures IsMatrix(m, rows, cols)
    ensures forall r, c :: 0 <= r < rows && 0 <= c < cols ==> m[r][c] == a[r][c] + b[r][c]
  {
    seq(rows, r requires 0 <= r < rows => Add(a[r], b[r]))
  }

  /** Flat position of cell `[r, c]` in the row-major layout of a matrix with `cols` columns. */
  function Pos(r: nat, c: nat, cols: nat): nat
  {
    r * cols + c
  }

  lemma RowEnd(r: nat, rows: nat, cols: nat)
    requires r < rows
    ensures r * cols + cols <= rows * cols
  {
    var d: nat := rows - r - 1;
    assert rows * cols == r * cols + cols + d * cols;
  }

  lemma MulStep(i: nat, p: nat)
    ensures (i + 1) * p == i * p + p
  {
  }

  lemma PosBound(r: nat, c: nat, rows: nat, cols: nat)
    requires r < rows && c < cols
    ensures Pos(r, c, cols) < rows * cols
  {
    RowEnd(r, rows, cols);
  }

  /** The rows of a matrix laid end to end (`into_shape(rows * cols)`). */
  function Flatten(m: Matrix): Vector
  {
    if m == [] then [] else Flatten(m[..|m| - 1]) + m[|m| - 1]
  }

  lemma {:induction false} FlattenLength(m: Matrix, rows: nat, cols: nat)
    requires IsMatrix(m, rows, cols)
    ensures |Flatten(m)| == rows * cols
  {
    if rows > 0 {
      FlattenLength(m[..rows - 1], rows - 1, cols);
    }
  }

  /** Cell `[r, c]` lands at flat position `r * cols + c`. */
  lemma {:induction false} FlattenAt(m: Matrix, rows: nat, cols: nat, r: nat, c: nat)
    requires IsMatrix(m, rows, cols) && r < rows && c < cols
    ensures |Flatten(m)| == rows * cols && Pos(r, c, cols) < rows * cols
    ensures Flatten(m)[Pos(r, c, cols)] == m[r][c]
  {
    FlattenLength(m, rows, cols);
    PosBound(r, c, rows, cols);
    var n := rows - 1;
    FlattenLength(m[..n], n, cols);
    if r < n {
      FlattenAt(m[..n], n, cols, r, c);
      PosBound(r, c, n, cols);
    }
  }

  /** The vector cut into `rows` consecutive rows of `cols` entries (`into_shape([rows, cols])`). */
  function Unflatten(v: Vector, rows: nat, cols: nat): (m: Matrix)
    requires |v| == rows * cols
    ensures IsMatrix(m, rows, cols)
  {
    if rows == 0 then []
    else
      RowEnd(rows - 1, rows, cols);
      Unflatten(v[..(rows - 1) * cols], rows - 1, cols) + [v[(rows - 1) * cols..]]
  }

  /** Cell `[r, c]` of the reshaped matrix is flat entry `r * cols + c`. */
  lemma {:induction false} UnflattenAt(v: Vector, rows: nat, cols: nat, r: nat, c: nat)
    requires |v| == rows * cols && r < rows && c < cols
    ensures Pos(r, c, cols) < |v|
    ensures Unflatten(v, rows, cols)[r][c] == v[Pos(r, c, cols)]
  {
    PosBound(r, c, rows, cols);
    var n := rows - 1;
    RowEnd(n, rows, cols);
    if r < n {
      UnflattenAt(v[..n * cols], n, cols, r, c);
    }
  }

  /** Reshaping a matrix to a vector and back gives the matrix. */
  lemma UnflattenFlatten(m: Matrix, rows: nat, cols: nat)
    requires IsMatrix(m, rows, cols)
    ensures |Flatten(m)| == rows * cols
    ensures Unflatten(Flatten(m), rows, cols) == m
  {
    FlattenLength(m, rows, cols);
    var u := Unflatten(Flatten(m), rows, cols);
    forall r | 0 <= r < rows
      ensures u[r] == m[r]
    {
      forall c | 0 <= c < cols
        ensures u[r][c] == m[r][c]
      {
        FlattenAt(m, rows, cols, r, c);
        UnflattenAt(Flatten(m), rows, cols, r, c);
      }
    }
  }

  /** Reshaping a vector to a matrix and back gives the vector. */
  lemma {:induction false} FlattenUnflatten(v: Vector, rows: nat, cols: nat)
    requires |v| == rows * cols
    ensures Flatten(Unflatten(v, rows, cols)) == v
  {
    if rows > 0 {
      var n := rows - 1;
      RowEnd(n, rows, cols);
      var prefix := v[..n * cols];
      FlattenUnflatten(prefix, n, cols);
      var u := Unflatten(v, rows, cols);
      assert u[..n] == Unflatten(prefix, n, cols);
      assert v == prefix + v[n * cols ..];
    }
  }
}
