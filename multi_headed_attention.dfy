/** The multi-headed attention block: every head sees the same input, the head
    outputs are laid end to end into one vector, and a linear dense layer maps
    that vector back to the shape of the input. The backward pass runs the
    error back through the dense layer, cuts the result into one error per head
    and adds up what the heads send back. */
module MultiHeadedAttention {
  import opened Tensors
  import Dense

  /** An attention head, seen from outside: what it returns for an input matrix
      in the forward pass, and for an error matrix in the backward pass. */
  datatype Head = Head(forward: Matrix -> Matrix, backward: Matrix -> Matrix)

  /** `f` returns a matrix of the same shape as the one it is given. */
  ghost predicate KeepsShape(f: Matrix -> Matrix)
  {
    forall m {:trigger f(m)} :: IsMatrix(m, |m|, Cols(m)) ==> IsMatrix(f(m), |m|, Cols(m))
  }

  /** What each head returns for the common input `x`. */
  function HeadOutputs(heads: seq<Head>, x: Matrix): (outs: seq<Matrix>)
    ensures |outs| == |heads|
    ensures forall i :: 0 <= i < |heads| ==> outs[i] == heads[i].forward(x)
  {
    seq(|heads|, i requires 0 <= i < |heads| => heads[i].forward(x))
  }

  /** What each head sends back for its own error. */
  function HeadErrors(heads: seq<Head>, errs: seq<Matrix>): (outs: seq<Matrix>)
    requires |errs| == |heads|
    ensures |outs| == |heads|
    ensures forall i :: 0 <= i < |heads| ==> outs[i] == heads[i].backward(errs[i])
  {
    seq(|heads|, i requires 0 <= i < |heads| => heads[i].backward(errs[i]))
  }

  /** Each matrix flattened row by row. */
  function FlatHeads(hs: seq<Matrix>): (fs: Matrix)
    ensures |fs| == |hs|
    ensures forall i :: 0 <= i < |hs| ==> fs[i] == Flatten(hs[i])
  {
    seq(|hs|, i requires 0 <= i < |hs| => Flatten(hs[i]))
  }

  /** The head outputs laid end to end, each one row by row. */
  function ConcatHeads(hs: seq<Matrix>): Vector
  {
    Flatten(FlatHeads(hs))
  }

  /** A vector of `n` blocks of `rows * cols` entries cut into `n` matrices
      (`into_shape([num_heads, rows, cols])` followed by `index_axis(Axis(0), i)`). */
  function SplitHeads(v: Vector, n: nat, rows: nat, cols: nat): (hs: seq<Matrix>)
    requires |v| == n * (rows * cols)
    ensures |hs| == n && forall i :: 0 <= i < n ==> IsMatrix(hs[i], rows, cols)
  {
    var blocks := Unflatten(v, n, rows * cols);
    seq(n, i requires 0 <= i < n => Unflatten(blocks[i], rows, cols))
  }

  lemma FlatHeadsShape(hs: seq<Matrix>, rows: nat, cols: nat)
    requires forall i :: 0 <= i < |hs| ==> IsMatrix(hs[i], rows, cols)
    ensures IsMatrix(FlatHeads(hs), |hs|, rows * cols)
  {
    forall i | 0 <= i < |hs|
      ensures |FlatHeads(hs)[i]| == rows * cols
    {
      FlattenLength(hs[i], rows, cols);
    }
  }

  /** The concatenation has one slot per cell of every head. */
  lemma ConcatLength(hs: seq<Matrix>, rows: nat, cols: nat)
    requires forall i :: 0 <= i < |hs| ==> IsMatrix(hs[i], rows, cols)
    ensures |ConcatHeads(hs)| == |hs| * (rows * cols)
  {
    FlatHeadsShape(hs, rows, cols);
    FlattenLength(FlatHeads(hs), |hs|, rows * cols);
  }

  /** Cell `[j, k]` of head `i` is slot `i * rows * cols + j * cols + k` of the concatenation. */
  lemma ConcatAt(hs: seq<Matrix>, rows: nat, cols: nat, i: nat, j: nat, k: nat)
    requires forall t :: 0 <= t < |hs| ==> IsMatrix(hs[t], rows, cols)
    requires i < |hs| && j < rows && k < cols
    ensures |ConcatHeads(hs)| == |hs| * (rows * cols)
    ensures Pos(i, Pos(j, k, cols), rows * cols) == i * (rows * cols) + j * cols + k
    ensures Pos(i, Pos(j, k, cols), rows * cols) < |ConcatHeads(hs)|
    ensures |hs[i]| == rows && |hs[i][j]| == cols
    ensures ConcatHeads(hs)[Pos(i, Pos(j, k, cols), rows * cols)] == hs[i][j][k]
  {
    var fs := FlatHeads(hs);
    ConcatLength(hs, rows, cols);
    FlatHeadsShape(hs, rows, cols);
    PosBound(j, k, rows, cols);
    PosBound(i, Pos(j, k, cols), |hs|, rows * cols);
    FlattenAt(fs, |hs|, rows * cols, i, Pos(j, k, cols));
    FlattenAt(hs[i], rows, cols, j, k);
  }

  /** Cutting the concatenation back into heads gives the heads. */
  lemma SplitConcat(hs: seq<Matrix>, rows: nat, cols: nat)
    requires forall i :: 0 <= i < |hs| ==> IsMatrix(hs[i], rows, cols)
    ensures |ConcatHeads(hs)| == |hs| * (rows * cols)
    ensures SplitHeads(ConcatHeads(hs), |hs|, rows, cols) == hs
  {
    ConcatLength(hs, rows, cols);
    FlatHeadsShape(hs, rows, cols);
    var fs := FlatHeads(hs);
    UnflattenFlatten(fs, |hs|, rows * cols);
    var split := SplitHeads(ConcatHeads(hs), |hs|, rows, cols);
    forall i | 0 <= i < |hs|
      ensures split[i] == hs[i]
    {
      UnflattenFlatten(hs[i], rows, cols);
    }
  }

  /** Laying the cut heads end to end again gives the vector. */
  lemma ConcatSplit(v: Vector, n: nat, rows: nat, cols: nat)
    requires |v| == n * (rows * cols)
    ensures ConcatHeads(SplitHeads(v, n, rows, cols)) == v
  {
    var blocks := Unflatten(v, n, rows * cols);
    var hs := SplitHeads(v, n, rows, cols);
    forall i | 0 <= i < n
      ensures FlatHeads(hs)[i] == blocks[i]
    {
      FlattenUnflatten(blocks[i], rows, cols);
    }
    assert FlatHeads(hs) == blocks;
    FlattenUnflatten(v, n, rows * cols);
  }

  /** `zeros((rows, cols))` plus every matrix of `ms`, added first to last. */
  function SumMatrices(ms: seq<Matrix>, rows: nat, cols: nat): (s: Matrix)
    requires forall i :: 0 <= i < |ms| ==> IsMatrix(ms[i], rows, cols)
    ensures IsMatrix(s, rows, cols)
  {
    if ms == [] then ZeroMatrix(rows, cols)
    else AddMatrix(SumMatrices(ms[..|ms| - 1], rows, cols), ms[|ms| - 1], rows, cols)
  }

  /** Cell `[j, k]` of the accumulated error is the sum of cell `[j, k]` over
      the heads (0 when there are no heads). */
  lemma {:induction false} SumMatricesAt(ms: seq<Matrix>, rows: nat, cols: nat, j: nat, k: nat)
    requires forall i :: 0 <= i < |ms| ==> IsMatrix(ms[i], rows, cols)
    requires j < rows && k < cols
    ensures SumMatrices(ms, rows, cols)[j][k] == Sum(seq(|ms|, i requires 0 <= i < |ms| => ms[i][j][k]))
  {
    var cells := seq(|ms|, i requires 0 <= i < |ms| => ms[i][j][k]);
    if ms != [] {
      var init := ms[..|ms| - 1];
      SumMatricesAt(init, rows, cols, j, k);
      assert cells[..|ms| - 1] == seq(|init|, i requires 0 <= i < |init| => init[i][j][k]);
    }
  }

  /** Copies `head` row by row into `buf` from slot `start` on (the inner two
      loops of `forward_propagate`); returns the next free slot. */
  method WriteHead(buf: array<real>, start: nat, head: Matrix, rows: nat, cols: nat) returns (next: nat)
    requires IsMatrix(head, rows, cols) && start + rows * cols <= buf.Length
    modifies buf
    ensures next == start + rows * cols
    ensures buf[..next] == old(buf[..start]) + Flatten(head)
  {
    ghost var before := buf[..start];
    next := start;
    var j := 0;
    while j < rows
      invariant 0 <= j <= rows
      invariant next == start + j * cols && next <= buf.Length
      invariant buf[..next] == before + Flatten(head[..j])
    {
      RowEnd(j, rows, cols);
      var k := 0;
      while k < cols
        invariant 0 <= k <= cols
        invariant next == start + j * cols + k
        invariant buf[..next] == before + Flatten(head[..j]) + head[j][..k]
      {
        buf[next] := head[j][k];
        assert buf[..next + 1] == buf[..next] + [head[j][k]];
        assert head[j][..k + 1] == head[j][..k] + [head[j][k]];
        next := next + 1;
        k := k + 1;
      }
      assert head[..j + 1][..j] == head[..j];
      assert head[j][..k] == head[j];
      MulStep(j, cols);
      j := j + 1;
    }
    assert head[..rows] == head;
  }

  /** The head loop of `forward_propagate`: a zeroed buffer of `size` slots
      (`linear.input_size`) receives, head after head, every head's output on `x`
      row by row, `concat_index` running over the slots. */
  method ConcatOutputs(heads: seq<Head>, x: Matrix, size: nat) returns (concat: array<real>)
    requires IsMatrix(x, |x|, Cols(x)) && size == |x| * Cols(x) * |heads|
    requires forall i :: 0 <= i < |heads| ==> KeepsShape(heads[i].forward)
    ensures fresh(concat) && concat.Length == size
    ensures concat[..] == ConcatHeads(HeadOutputs(heads, x))
  {
    var shapeRows, shapeCols := |x|, Cols(x);
    var headSize := shapeRows * shapeCols;
    assert size == |heads| * headSize;
    ghost var outs := HeadOutputs(heads, x);
    concat := new real[size](_ => 0.0);
    var concatIndex: nat := 0;
    var i := 0;
    while i < |heads|
      invariant 0 <= i <= |heads|
      invariant concatIndex == i * headSize
      invariant concat[..concatIndex] == ConcatHeads(outs[..i])
    {
      var head := heads[i].forward(x);
      assert KeepsShape(heads[i].forward);
      assert head == outs[i];
      RowEnd(i, |heads|, headSize);
      MulStep(i, headSize);
      concatIndex := WriteHead(concat, concatIndex, head, shapeRows, shapeCols);
      assert FlatHeads(outs[..i + 1])[..i] == FlatHeads(outs[..i]);
      i := i + 1;
    }
    assert outs[..i] == outs;
    assert concatIndex == size;
    assert concat[..] == concat[..concatIndex];
  }

  /** The head loop of `back_propagate`: starting from zeros, adds what head
      `i` sends back for its own error `errs[i]`, head after head. */
  method SumHeadErrors(heads: seq<Head>, errs: seq<Matrix>, rows: nat, cols: nat) returns (sum: Matrix)
    requires |errs| == |heads|
    requires forall i :: 0 <= i < |heads| ==> IsMatrix(heads[i].backward(errs[i]), rows, cols)
    ensures sum == SumMatrices(HeadErrors(heads, errs), rows, cols)
  {
    ghost var backs := HeadErrors(heads, errs);
    sum := ZeroMatrix(rows, cols);
    var i := 0;
    while i < |heads|
      invariant 0 <= i <= |heads|
      invariant sum == SumMatrices(backs[..i], rows, cols)
    {
      var prevHeadError := heads[i].backward(errs[i]);
      assert backs[..i + 1][..i] == backs[..i];
      sum := AddMatrix(sum, prevHeadError, rows, cols);
      i := i + 1;
    }
    assert backs[..i] == backs;
  }

  class MultiHeadedAttention {
    /** The input of the last forward pass. */
    var input: Matrix
    const rows: nat
    const cols: nat
    const numHeads: nat
    const heads: seq<Head>
    /** The dense layer from the concatenated heads to one `rows * cols` vector. */
    const linear: Dense.Dense

    ghost predicate Valid()
      reads this, linear
    {
      && linear.Valid()
      && linear.sizes == [rows * cols * numHeads, rows * cols]
      && linear.linear && !linear.classifier
      && |heads| == numHeads
      && (forall i :: 0 <= i < |heads| ==> KeepsShape(heads[i].forward) && KeepsShape(heads[i].backward))
    }

    /** `MultiHeadedAttention::new`. The heads are given (building one is not
        part of this model); `draw` and `drawBias` are the dense layer's draws. */
    constructor (numHeads: nat, rows: nat, cols: nat, heads: seq<Head>,
                 draw: (nat, nat, nat) -> real, drawBias: (nat, nat) -> real)
      requires |heads| == numHeads
      requires forall i :: 0 <= i < |heads| ==> KeepsShape(heads[i].forward) && KeepsShape(heads[i].backward)
      ensures Valid() && fresh(linear)
      ensures this.rows == rows && this.cols == cols && this.numHeads == numHeads && this.heads == heads
      ensures input == ZeroMatrix(rows, cols)
      ensures linear.inputSize == rows * cols * numHeads
    {
      linear := new Dense.Dense([rows * cols * numHeads, rows * cols], true, false, draw, drawBias);
      input := ZeroMatrix(rows, cols);
      this.rows := rows;
      this.cols := cols;
      this.numHeads := numHeads;
      this.heads := heads;
    }

    /** `forward_propagate`: every head gets the same input; their outputs are
        concatenated and sent through the dense layer, whose output is reshaped
        to the shape of the input. */
    method ForwardPropagate(value: Matrix) returns (r: Matrix)
      requires Valid() && IsMatrix(value, |value|, Cols(value))
      requires |value| * Cols(value) == rows * cols
      modifies this, linear
      ensures Valid() && input == value
      ensures linear.input == ConcatHeads(HeadOutputs(heads, value))
      ensures |linear.input| == rows * cols * numHeads
      ensures linear.weights == old(linear.weights) && linear.biases == old(linear.biases)
      ensures IsMatrix(r, |value|, Cols(value))
      ensures |linear.layer[1]| == |value| * Cols(value)
      ensures r == Unflatten(linear.layer[1], |value|, Cols(value))
      ensures linear.layer[1] == Dense.Transition(linear.input, linear.weights[0], linear.biases[1], true, false)
      ensures linear.layer == Dense.ForwardLayers(linear.sizes, linear.weights, linear.biases, true, false, linear.input, 2)
      ensures linear.layer[0] == linear.input && linear.error == old(linear.error)
    {
      input := value;
      assert |input| * Cols(input) * numHeads == linear.inputSize;
      var concat := ConcatOutputs(heads, input, linear.inputSize);
      var output := linear.ForwardPropagate(concat[..]);
      Dense.ForwardRecurrence(linear.sizes, linear.weights, linear.biases, true, false, concat[..], 2, 1);
      r := Unflatten(output, |input|, Cols(input));
    }

    /** `back_propagate`: the error is flattened row by row and sent back through
        the dense layer; the result is cut into one `rows` x `cols` error per
        head, and what the heads send back is added up starting from zeros. */
    method BackPropagate(e: Matrix) returns (r: Matrix)
      requires Valid() && IsMatrix(e, |e|, Cols(e)) && |e| * Cols(e) == rows * cols
      modifies linear
      ensures Valid()
      ensures |Flatten(e)| == rows * cols
      ensures linear.error == Dense.BackErrors(linear.layer, old(linear.weights), false, Flatten(e))
      ensures |linear.error[0]| == numHeads * (rows * cols)
      ensures r == SumMatrices(HeadErrors(heads, SplitHeads(linear.error[0], numHeads, rows, cols)), rows, cols)
      ensures linear.input == old(linear.input) && linear.layer == old(linear.layer)
      ensures linear.error[1] == Flatten(e)
      ensures linear.weights == [Dense.UpdateWeights(old(linear.weights)[0], linear.layer[0], Flatten(e))]
      ensures linear.biases == old(linear.biases)
    {
      FlattenLength(e, |e|, Cols(e));
      var flatError := Flatten(e);
      var linearError := linear.BackPropagate(flatError);
      var multiHeadedError := SplitHeads(linearError, numHeads, rows, cols);
      forall i | 0 <= i < numHeads
        ensures IsMatrix(heads[i].backward(multiHeadedError[i]), rows, cols)
      {
        assert KeepsShape(heads[i].backward);
      }
      r := SumHeadErrors(heads, multiHeadedError, rows, cols);
      assert |linear.biases| == 2 && linear.biases[0] == old(linear.biases)[0] && linear.biases[1] == old(linear.biases)[1];
    }
  }
}
