/** The mean-pooling block: it averages the rows of its input matrix into one
    vector, and sends an error vector back by sharing it equally among the rows. */
module MeanPooling {
  import opened Tensors

  /** Column-wise mean of a matrix with at least one row (`mean_axis(Axis(0))`). */
  function Mean(m: Matrix): (v: Vector)
    requires |m| > 0 && IsMatrix(m, |m|, Cols(m))
    ensures |v| == Cols(m)
    ensures forall c :: 0 <= c < |v| ==> v[c] * (|m| as real) == ColumnSum(m, c)
  {
    seq(Cols(m), c requires 0 <= c < Cols(m) => ColumnSum(m, c) / (|m| as real))
  }

  /** The backward pass of the block: a `rows` x `cols` matrix whose every row
      is `e` divided by `rows`. */
  function Spread(e: Vector, rows: nat, cols: nat): (m: Matrix)
    requires rows > 0 ==> cols <= |e|
    ensures IsMatrix(m, rows, cols)
  {
    seq(rows, _ requires rows > 0 => SpreadRow(e, rows, cols))
  }

  function SpreadRow(e: Vector, rows: nat, cols: nat): (row: Vector)
    requires rows > 0 && cols <= |e|
    ensures |row| == cols
    ensures forall c :: 0 <= c < cols ==> row[c] * (rows as real) == e[c]
  {
    seq(cols, c requires 0 <= c < cols => e[c] / (rows as real))
  }

  /** The mean of rows that are all equal to `x` is `x`. */
  lemma MeanOfEqualRows(m: Matrix, x: Vector)
    requires |m| > 0 && forall r :: 0 <= r < |m| ==> m[r] == x
    ensures IsMatrix(m, |m|, Cols(m)) && Mean(m) == x
  {
    var v := Mean(m);
    forall c | 0 <= c < |x|
      ensures v[c] == x[c]
    {
      var col := seq(|m|, r requires 0 <= r < |m| => m[r][c]);
      SumConstant(col, x[c]);
    }
  }

  /** Every row of the spread error adds up, over the rows, to the error again:
      summing the backward pass over the rows undoes the sharing. */
  lemma SpreadColumnSums(e: Vector, rows: nat, cols: nat, c: nat)
    requires rows > 0 && cols <= |e| && c < cols
    ensures ColumnSum(Spread(e, rows, cols), c) == e[c]
  {
    var m := Spread(e, rows, cols);
    var col := seq(|m|, r requires 0 <= r < |m| => m[r][c]);
    SumConstant(col, e[c] / (rows as real));
  }

  /** Entry-wise products of two matrices of the same shape, summed row by row. */
  function RowDots(a: Matrix, b: Matrix): (s: Vector)
    requires |a| == |b| && forall r :: 0 <= r < |a| ==> |a[r]| == |b[r]|
    ensures |s| == |a|
  {
    seq(|a|, r requires 0 <= r < |a| => Dot(a[r], b[r]))
  }

  /** `[e[c] / rows * row[c] for c < cols]`. */
  function ScaledRow(row: Vector, e: Vector, rows: nat): (t: Vector)
    requires rows > 0 && |row| == |e|
    ensures |t| == |e| && forall c :: 0 <= c < |e| ==> t[c] == e[c] / (rows as real) * row[c]
  {
    seq(|e|, c requires 0 <= c < |e| => e[c] / (rows as real) * row[c])
  }

  /** Every row of `x` scaled entry-wise by `e / rows`. */
  function Scaled(x: Matrix, e: Vector): (t: Matrix)
    requires |x| > 0 && IsMatrix(x, |x|, |e|)
    ensures IsMatrix(t, |x|, |e|)
  {
    seq(|x|, r requires 0 <= r < |x| => ScaledRow(x[r], e, |x|))
  }

  lemma RowDotsSpread(x: Matrix, e: Vector)
    requires |x| > 0 && IsMatrix(x, |x|, |e|)
    ensures RowDots(x, Spread(e, |x|, |e|)) == RowSums(Scaled(x, e))
  {
    var b, t := Spread(e, |x|, |e|), Scaled(x, e);
    forall r | 0 <= r < |x|
      ensures RowDots(x, b)[r] == RowSums(t)[r]
    {
      var prods := seq(|e|, k requires 0 <= k < |e| => x[r][k] * b[r][k]);
      forall k | 0 <= k < |e|
        ensures prods[k] == t[r][k]
      {
        assert b[r] == SpreadRow(e, |x|, |e|);
        assert b[r][k] == e[k] / (|x| as real);
      }
      assert prods == t[r];
    }
  }

  lemma ScaledColumn(x: Matrix, e: Vector, c: nat)
    requires |x| > 0 && IsMatrix(x, |x|, |e|) && c < |e|
    ensures ColumnSum(Scaled(x, e), c) == Mean(x)[c] * e[c]
  {
    var t, rows := Scaled(x, e), |x|;
    var colX := seq(rows, r requires 0 <= r < rows => x[r][c]);
    var colT := seq(rows, r requires 0 <= r < rows => t[r][c]);
    SumScale(colX, e[c] / (rows as real), colT);
    assert Mean(x)[c] * (rows as real) == Sum(colX);
  }

  /** The backward pass is the adjoint of the forward pass: for every input `x`
      and error `e`, the inner product of `x` with the spread error equals the
      inner product of the mean of `x` with `e`. */
  lemma SpreadIsAdjoint(x: Matrix, e: Vector)
    requires |x| > 0 && IsMatrix(x, |x|, |e|)
    ensures Sum(RowDots(x, Spread(e, |x|, |e|))) == Dot(Mean(x), e)
  {
    RowDotsSpread(x, e);
    SumExchange(Scaled(x, e), |x|, |e|);
    ScaledColumnsDot(x, e);
  }

  lemma ScaledColumnsDot(x: Matrix, e: Vector)
    requires |x| > 0 && IsMatrix(x, |x|, |e|)
    ensures Sum(seq(|e|, c requires 0 <= c < |e| => ColumnSum(Scaled(x, e), c))) == Dot(Mean(x), e)
  {
    var t, mean := Scaled(x, e), Mean(x);
    var byColumn := seq(|e|, c requires 0 <= c < |e| => ColumnSum(t, c));
    var prods := seq(|e|, k requires 0 <= k < |e| => mean[k] * e[k]);
    forall c | 0 <= c < |e|
      ensures byColumn[c] == prods[c]
    {
      ScaledColumn(x, e, c);
    }
    assert byColumn == prods;
  }

  class MeanPooling {
    /** The input of the last forward pass. */
    var input: Matrix

    ghost predicate Valid()
      reads this
    {
      IsMatrix(input, |input|, Cols(input))
    }

    /** `MeanPooling::new`: the stored input starts as a zero matrix. */
    constructor (rows: nat, cols: nat)
      ensures Valid() && input == ZeroMatrix(rows, cols)
    {
      input := ZeroMatrix(rows, cols);
    }

    /** `forward_propagate`: stores the input and returns its column-wise mean. */
    method ForwardPropagate(value: Matrix) returns (r: Vector)
      requires |value| > 0 && IsMatrix(value, |value|, Cols(value))
      modifies this
      ensures Valid() && input == value
      ensures r == Mean(value)
    {
      input := value;
      r := Mean(input);
    }

    /** `back_propagate`: an error matrix shaped like the stored input, every row
        sharing the error equally. The stored input is left as it is. */
    method BackPropagate(e: Vector) returns (r: Matrix)
      requires Valid() && (|input| > 0 ==> Cols(input) <= |e|)
      ensures IsMatrix(r, |input|, Cols(input))
      ensures forall j, c :: 0 <= j < |input| && 0 <= c < Cols(input) ==> r[j][c] * (|input| as real) == e[c]
      ensures r == Spread(e, |input|, Cols(input))
    {
      r := Spread(e, |input|, Cols(input));
    }
  }
}
