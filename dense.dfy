/** The fully connected block `Dense` (src/dense.rs): a stack of transitions
    `layer[i] = act(layer[i-1] . W[i-1] + b[i])`, trained in place by
    plain gradient descent with the fixed learning rate `LR`. */
module Dense {
  import opened Tensors

  /** The crate-wide learning rate; its value is not part of this model. */
  const LR: real

  /** `sigmoid(x) = 1 / (1 + exp(-x))`, taken as an uninterpreted function. */
  const Sigmoid: real -> real

  /** `inv_deriv_sigmoid`, the sigmoid derivative recovered from an activated
      output through `ln`, taken as an uninterpreted function. */
  const InvDerivSigmoid: real -> real

  /** The rectifier of the hidden layers: `x` when positive, else `0`. */
  function Relu(x: real): (y: real)
    ensures y >= 0.0 && y >= x
    ensures y == x || y == 0.0
  {
    if x > 0.0 then x else 0.0
  }

  /** The activation after a transition: none when `linear`, else sigmoid for a
      classifier and the rectifier otherwise. */
  function Activate(v: Vector, linear: bool, classifier: bool): (a: Vector)
    ensures |a| == |v|
  {
    if linear then v
    else if classifier then seq(|v|, i requires 0 <= i < |v| => Sigmoid(v[i]))
    else seq(|v|, i requires 0 <= i < |v| => Relu(v[i]))
  }

  /** One transition: `act(x . w + b)`. */
  function Transition(x: Vector, w: Matrix, b: Vector, linear: bool, classifier: bool): (y: Vector)
    requires IsMatrix(w, |x|, |b|)
    ensures |y| == |b|
  {
    Activate(Add(VecMat(x, w, |b|), b), linear, classifier)
  }

  /** The parameter shapes `new` builds for `sizes`: `sizes[i] x sizes[i+1]`
      weights, an empty `biases[0]` and `biases[i]` of length `sizes[i]` for `i >= 1`. */
  predicate ParamShapes(sizes: seq<nat>, weights: seq<Matrix>, biases: seq<Vector>)
  {
    && |sizes| >= 1
    && |weights| == |sizes| - 1
    && |biases| == |sizes|
    && biases[0] == []
    && (forall i :: 0 <= i < |weights| ==> IsMatrix(weights[i], sizes[i], sizes[i + 1]))
    && (forall i :: 1 <= i < |sizes| ==> |biases[i]| == sizes[i])
  }

  /** One vector per layer, `vs[i]` of length `sizes[i]` (the `layer` and `error` buffers). */
  predicate VectorShapes(sizes: seq<nat>, vs: seq<Vector>)
  {
    |vs| == |sizes| && forall i :: 0 <= i < |sizes| ==> |vs[i]| == sizes[i]
  }

  /** The first `n` layers of a forward pass on `x`. */
  function ForwardLayers(sizes: seq<nat>, weights: seq<Matrix>, biases: seq<Vector>,
                         linear: bool, classifier: bool, x: Vector, n: nat): (ls: seq<Vector>)
    requires ParamShapes(sizes, weights, biases) && |x| == sizes[0] && 1 <= n <= |sizes|
    ensures |ls| == n && ls[0] == x
    ensures forall i :: 0 <= i < n ==> |ls[i]| == sizes[i]
  {
    if n == 1 then [x]
    else
      var prev := ForwardLayers(sizes, weights, biases, linear, classifier, x, n - 1);
      prev + [Transition(prev[n - 2], weights[n - 2], biases[n - 1], linear, classifier)]
  }

  /** Every layer after the first is the transition of the one before it. */
  lemma {:induction false} ForwardRecurrence(sizes: seq<nat>, weights: seq<Matrix>, biases: seq<Vector>,
                                             linear: bool, classifier: bool, x: Vector, n: nat, i: nat)
    requires ParamShapes(sizes, weights, biases) && |x| == sizes[0] && 1 <= n <= |sizes|
    requires 1 <= i < n
    ensures var ls := ForwardLayers(sizes, weights, biases, linear, classifier, x, n);
            ls[i] == Transition(ls[i - 1], weights[i - 1], biases[i], linear, classifier)
  {
    if i < n - 1 {
      ForwardRecurrence(sizes, weights, biases, linear, classifier, x, n - 1, i);
    }
  }

  /** With the rectifier (`!linear && !classifier`), every layer after the input is non-negative. */
  lemma {:induction false} ReluLayersNonNegative(sizes: seq<nat>, weights: seq<Matrix>, biases: seq<Vector>,
                                                 x: Vector, n: nat, i: nat, j: nat)
    requires ParamShapes(sizes, weights, biases) && |x| == sizes[0] && 1 <= n <= |sizes|
    requires 1 <= i < n && j < sizes[i]
    ensures ForwardLayers(sizes, weights, biases, false, false, x, n)[i][j] >= 0.0
  {
    ForwardRecurrence(sizes, weights, biases, false, false, x, n, i);
  }

  /** `weights[t]` and `layer[t + 1]` match up, for every transition `t`. */
  predicate Shaped(layer: seq<Vector>, weights: seq<Matrix>)
  {
    |layer| >= 1 && |weights| == |layer| - 1
    && forall t :: 0 <= t < |weights| ==> IsMatrix(weights[t], |layer[t]|, |layer[t + 1]|)
  }

  /** The error left in `error[index][j]`: the raw back-propagated sum, then for
      `index > 0` the activation derivative (sigmoid for a classifier, else the
      rectifier's mask, applied whatever `linear` is). */
  function PropagatedError(index: nat, activation: real, classifier: bool, raw: real): real
  {
    if index == 0 then raw
    else if classifier then raw * InvDerivSigmoid(activation)
    else if activation <= 0.0 then 0.0
    else raw
  }

  /** The errors one transition passes back to its input layer `x`, given the
      error `next` of its output layer and its weights `w` before the update. */
  function TransitionError(index: nat, x: Vector, w: Matrix, next: Vector, classifier: bool): (d: Vector)
    requires IsMatrix(w, |x|, |next|)
    ensures |d| == |x|
  {
    seq(|x|, j requires 0 <= j < |x| => PropagatedError(index, x[j], classifier, Dot(w[j], next)))
  }

  /** `error[index]` after `back_propagate(e)`, computed with the weights as they
      were before the call. */
  function BackError(layer: seq<Vector>, weights: seq<Matrix>, classifier: bool, e: Vector, index: nat): (d: Vector)
    requires Shaped(layer, weights) && index < |layer| && |e| == |layer[|layer| - 1]|
    ensures |d| == |layer[index]|
    decreases |layer| - index
  {
    if index == |layer| - 1 then e
    else
      var next := BackError(layer, weights, classifier, e, index + 1);
      TransitionError(index, layer[index], weights[index], next, classifier)
  }

  function BackErrors(layer: seq<Vector>, weights: seq<Matrix>, classifier: bool, e: Vector): (ds: seq<Vector>)
    requires Shaped(layer, weights) && |e| == |layer[|layer| - 1]|
    ensures |ds| == |layer|
    ensures forall t :: 0 <= t < |layer| ==> |ds[t]| == |layer[t]|
  {
    seq(|layer|, t requires 0 <= t < |layer| => BackError(layer, weights, classifier, e, t))
  }

  /** Entry `index` of the error list is the transition error of the entry above it. */
  lemma BackErrorsUnfold(layer: seq<Vector>, weights: seq<Matrix>, classifier: bool, e: Vector, index: nat)
    requires Shaped(layer, weights) && |e| == |layer[|layer| - 1]| && index + 1 < |layer|
    ensures var errs := BackErrors(layer, weights, classifier, e);
            errs[index] == TransitionError(index, layer[index], weights[index], errs[index + 1], classifier)
  {
  }

  /** One descent step on weight row `j`: `row[k] - x[j] * e[k] * LR`. */
  function UpdateRow(row: Vector, xj: real, e: Vector): (row': Vector)
    requires |row| == |e|
    ensures |row'| == |e|
  {
    seq(|e|, k requires 0 <= k < |e| => row[k] - xj * e[k] * LR)
  }

  /** One descent step on a weight matrix: `w[j][k] - x[j] * e[k] * LR`. */
  function UpdateWeights(w: Matrix, x: Vector, e: Vector): (w': Matrix)
    requires IsMatrix(w, |x|, |e|)
    ensures IsMatrix(w', |x|, |e|)
  {
    seq(|x|, j requires 0 <= j < |x| => UpdateRow(w[j], x[j], e))
  }

  /** One descent step on a bias vector: `b[j] - d[j] * LR`. */
  function UpdateBias(b: Vector, d: Vector): (b': Vector)
    requires |b| == |d|
    ensures |b'| == |b|
  {
    seq(|b|, j requires 0 <= j < |b| => b[j] - d[j] * LR)
  }

  /** The input gradient `back_propagate` returns is the adjoint of the first
      transition's linear part applied to `error[1]`: for every direction `dx`,
      `<dx, error[0]> == <dx . W[0], error[1]>`. */
  lemma InputErrorIsAdjoint(layer: seq<Vector>, weights: seq<Matrix>, classifier: bool, e: Vector, dx: Vector)
    requires Shaped(layer, weights) && |e| == |layer[|layer| - 1]|
    requires |layer| >= 2 && |dx| == |layer[0]|
    ensures var ds := BackErrors(layer, weights, classifier, e);
            Dot(dx, ds[0]) == Dot(VecMat(dx, weights[0], |layer[1]|), ds[1])
  {
    var ds := BackErrors(layer, weights, classifier, e);
    assert ds[0] == MatVec(weights[0], ds[1]);
    Adjoint(dx, weights[0], ds[1]);
  }

  /** A zero error at the output propagates as a zero error to every layer. */
  lemma {:induction false} ZeroErrorStaysZero(layer: seq<Vector>, weights: seq<Matrix>, classifier: bool,
                                              e: Vector, index: nat, j: nat)
    requires Shaped(layer, weights) && |e| == |layer[|layer| - 1]|
    requires forall k :: 0 <= k < |e| ==> e[k] == 0.0
    requires index < |layer| && j < |layer[index]|
    ensures BackError(layer, weights, classifier, e, index)[j] == 0.0
    decreases |layer| - index
  {
    if index < |layer| - 1 {
      var next := BackError(layer, weights, classifier, e, index + 1);
      forall k | 0 <= k < |next|
        ensures next[k] == 0.0
      {
        ZeroErrorStaysZero(layer, weights, classifier, e, index + 1, k);
      }
      var w := weights[index][j];
      SumConstant(seq(|w|, k requires 0 <= k < |w| => w[k] * next[k]), 0.0);
    }
  }

  /** The weights `new` draws for transition `i`: entry `[j, k]` is `draw(i, j, k)`. */
  function DrawnWeights(draw: (nat, nat, nat) -> real, i: nat, rows: nat, cols: nat): (w: Matrix)
    ensures IsMatrix(w, rows, cols)
    ensures forall j, k :: 0 <= j < rows && 0 <= k < cols ==> w[j][k] == draw(i, j, k)
  {
    seq(rows, j requires 0 <= j < rows => DrawnRow(draw, i, j, cols))
  }

  function DrawnRow(draw: (nat, nat, nat) -> real, i: nat, j: nat, cols: nat): (row: Vector)
    ensures |row| == cols && forall k :: 0 <= k < cols ==> row[k] == draw(i, j, k)
  {
    seq(cols, k requires 0 <= k < cols => draw(i, j, k))
  }

  /** The biases `new` draws for transition `i`: entry `k` is `drawBias(i, k)`. */
  function DrawnBias(drawBias: (nat, nat) -> real, i: nat, cols: nat): (b: Vector)
    ensures |b| == cols && forall k :: 0 <= k < cols ==> b[k] == drawBias(i, k)
  {
    seq(cols, k requires 0 <= k < cols => drawBias(i, k))
  }

  /** The innermost loop of `back_propagate` for one weight row: sums
      `w[j][k] * next[k]` over `k`, reading each weight before it is moved by
      `x[j] * next[k] * LR`. */
  method AccumulateRow(wRow: Vector, xj: real, next: Vector) returns (raw: real, row: Vector)
    requires |wRow| == |next|
    ensures raw == Dot(wRow, next)
    ensures row == UpdateRow(wRow, xj, next)
  {
    raw := 0.0;
    row := wRow;
    var k := 0;
    while k < |next|
      invariant 0 <= k <= |next| && |row| == |next|
      invariant raw == PartialDot(wRow, next, k)
      invariant forall kk :: 0 <= kk < |next| ==>
                  row[kk] == if kk < k then wRow[kk] - xj * next[kk] * LR else wRow[kk]
    {
      var nextError := next[k];
      PartialDotStep(wRow, next, k);
      raw := raw + row[k] * nextError;
      row := row[k := row[k] - xj * nextError * LR];
      k := k + 1;
    }
    forall kk | 0 <= kk < |next|
      ensures row[kk] == UpdateRow(wRow, xj, next)[kk]
    {
    }
  }

  /** The body of the middle loop of `back_propagate` for row `j`: the error
      for input `j` and the updated weight row. */
  method BackRow(index: nat, classifier: bool, xj: real, wRow: Vector, next: Vector) returns (dj: real, row: Vector)
    requires |wRow| == |next|
    ensures dj == PropagatedError(index, xj, classifier, Dot(wRow, next))
    ensures row == UpdateRow(wRow, xj, next)
  {
    dj, row := AccumulateRow(wRow, xj, next);
    if index > 0 {
      if classifier {
        dj := dj * InvDerivSigmoid(xj);
      } else if xj <= 0.0 {
        dj := 0.0;
      }
    }
  }

  /** One pass of the outer loop of `back_propagate`, at transition `index`
      with input layer `x`: returns the new `error[index]`, `weights[index]` and
      `biases[index]`. The bias moves only when `index > 0`. */
  method BackTransition(index: nat, classifier: bool, x: Vector, w: Matrix, next: Vector, d0: Vector, b: Vector)
    returns (d: Vector, w': Matrix, b': Vector)
    requires IsMatrix(w, |x|, |next|) && |d0| == |x|
    requires index > 0 ==> |b| == |x|
    ensures d == TransitionError(index, x, w, next, classifier)
    ensures w' == UpdateWeights(w, x, next)
    ensures b' == if index > 0 then UpdateBias(b, d) else b
  {
    ghost var te := TransitionError(index, x, w, next, classifier);
    ghost var uw := UpdateWeights(w, x, next);
    d, w', b' := d0, w, b;
    var j := 0;
    while j < |x|
      invariant 0 <= j <= |x|
      invariant |d| == |x| && |b'| == |b| && |w'| == |x|
      invariant forall jj :: 0 <= jj < j ==> d[jj] == te[jj]
      invariant forall jj :: 0 <= jj < j ==> w'[jj] == uw[jj]
      invariant forall jj :: j <= jj < |x| ==> w'[jj] == w[jj]
      invariant index > 0 ==> forall jj :: 0 <= jj < j ==> b'[jj] == b[jj] - te[jj] * LR
      invariant index > 0 ==> forall jj :: j <= jj < |b| ==> b'[jj] == b[jj]
      invariant index == 0 ==> b' == b
    {
      var dj, row := BackRow(index, classifier, x[j], w'[j], next);
      w' := w'[j := row];
      if index > 0 {
        b' := b'[j := b'[j] - dj * LR];
      }
      d := d[j := dj];
      j := j + 1;
    }
    assert d == te;
    assert w' == uw;
    if index > 0 {
      UpdateBiasEntries(b, te, b');
    }
  }

  /** A vector whose every entry has taken its descent step is `UpdateBias`. */
  lemma UpdateBiasEntries(b: Vector, d: Vector, b': Vector)
    requires |b| == |d| == |b'|
    requires forall j :: 0 <= j < |b| ==> b'[j] == b[j] - d[j] * LR
    ensures b' == UpdateBias(b, d)
  {
    assert forall j :: 0 <= j < |b| ==> b'[j] == UpdateBias(b, d)[j];
  }

  /** The state of `back_propagate` once transitions `lo` to `|layer| - 2` are
      done: their errors, weights and biases are final, the others untouched. */
  ghost predicate BackDone(layer: seq<Vector>, w0: seq<Matrix>, b0: seq<Vector>, errs: seq<Vector>, lo: nat,
                           error: seq<Vector>, weights: seq<Matrix>, biases: seq<Vector>)
    requires Shaped(layer, w0) && |errs| == |layer| && |b0| == |layer|
    requires forall t :: 0 <= t < |layer| ==> |errs[t]| == |layer[t]|
    requires forall t :: 0 < t < |layer| ==> |b0[t]| == |layer[t]|
  {
    && ErrorsDone(layer, errs, lo, error)
    && WeightsDone(layer, w0, errs, lo, weights)
    && BiasesDone(layer, b0, errs, lo, biases)
  }

  /** The errors of layers `lo` and up are final. */
  ghost predicate ErrorsDone(layer: seq<Vector>, errs: seq<Vector>, lo: nat, error: seq<Vector>)
  {
    && lo < |layer| && |error| == |layer| && |errs| == |layer|
    && (forall t :: lo <= t < |layer| ==> error[t] == errs[t])
    && (forall t :: 0 <= t < lo ==> |error[t]| == |layer[t]|)
  }

  /** The weights of transitions `lo` and up have taken their step. */
  ghost predicate WeightsDone(layer: seq<Vector>, w0: seq<Matrix>, errs: seq<Vector>, lo: nat, weights: seq<Matrix>)
    requires Shaped(layer, w0) && |errs| == |layer|
    requires forall t :: 0 <= t < |layer| ==> |errs[t]| == |layer[t]|
  {
    && |weights| == |w0|
    && (forall t :: 0 <= t < lo && t < |w0| ==> weights[t] == w0[t])
    && (forall t :: lo <= t < |w0| ==> weights[t] == UpdateWeights(w0[t], layer[t], errs[t + 1]))
  }

  /** The biases of transitions `lo` and up have taken their step, except the
      first and the last bias vectors, which never move. */
  ghost predicate BiasesDone(layer: seq<Vector>, b0: seq<Vector>, errs: seq<Vector>, lo: nat, biases: seq<Vector>)
    requires |layer| >= 1 && |errs| == |layer| && |b0| == |layer|
    requires forall t :: 0 <= t < |layer| ==> |errs[t]| == |layer[t]|
    requires forall t :: 0 < t < |layer| ==> |b0[t]| == |layer[t]|
  {
    && lo < |layer| && |biases| == |b0|
    && (forall t :: 0 <= t < lo ==> biases[t] == b0[t])
    && (forall t :: lo <= t < |layer| - 1 && 0 < t ==> biases[t] == UpdateBias(b0[t], errs[t]))
    && biases[0] == b0[0] && biases[|b0| - 1] == b0[|b0| - 1]
  }

  /** Finishing transition `lo - 1` extends `BackDone` by one step. */
  lemma BackDoneStep(layer: seq<Vector>, w0: seq<Matrix>, b0: seq<Vector>, errs: seq<Vector>, lo: nat,
                     error: seq<Vector>, weights: seq<Matrix>, biases: seq<Vector>,
                     d: Vector, w: Matrix, b: Vector)
    requires Shaped(layer, w0) && |errs| == |layer| && |b0| == |layer|
    requires forall t :: 0 <= t < |layer| ==> |errs[t]| == |layer[t]|
    requires forall t :: 0 < t < |layer| ==> |b0[t]| == |layer[t]|
    requires 0 < lo && BackDone(layer, w0, b0, errs, lo, error, weights, biases)
    requires d == errs[lo - 1]
    requires w == UpdateWeights(w0[lo - 1], layer[lo - 1], errs[lo])
    requires b == if lo - 1 > 0 then UpdateBias(b0[lo - 1], errs[lo - 1]) else b0[lo - 1]
    ensures BackDone(layer, w0, b0, errs, lo - 1, error[lo - 1 := d], weights[lo - 1 := w], biases[lo - 1 := b])
  {
    ErrorsStep(layer, errs, lo, error, d);
    WeightsStep(layer, w0, errs, lo, weights, w);
    BiasesStep(layer, b0, errs, lo, biases, b);
  }

  lemma ErrorsStep(layer: seq<Vector>, errs: seq<Vector>, lo: nat, error: seq<Vector>, d: Vector)
    requires 0 < lo && ErrorsDone(layer, errs, lo, error) && d == errs[lo - 1]
    requires forall t :: 0 <= t < |layer| ==> |errs[t]| == |layer[t]|
    ensures ErrorsDone(layer, errs, lo - 1, error[lo - 1 := d])
  {
  }

  lemma WeightsStep(layer: seq<Vector>, w0: seq<Matrix>, errs: seq<Vector>, lo: nat, weights: seq<Matrix>, w: Matrix)
    requires Shaped(layer, w0) && |errs| == |layer|
    requires forall t :: 0 <= t < |layer| ==> |errs[t]| == |layer[t]|
    requires 0 < lo < |layer| && WeightsDone(layer, w0, errs, lo, weights)
    requires w == UpdateWeights(w0[lo - 1], layer[lo - 1], errs[lo])
    ensures WeightsDone(layer, w0, errs, lo - 1, weights[lo - 1 := w])
  {
  }

  lemma BiasesStep(layer: seq<Vector>, b0: seq<Vector>, errs: seq<Vector>, lo: nat, biases: seq<Vector>, b: Vector)
    requires |layer| >= 1 && |errs| == |layer| && |b0| == |layer|
    requires forall t :: 0 <= t < |layer| ==> |errs[t]| == |layer[t]|
    requires forall t :: 0 < t < |layer| ==> |b0[t]| == |layer[t]|
    requires 0 < lo < |layer| && BiasesDone(layer, b0, errs, lo, biases)
    requires b == if lo - 1 > 0 then UpdateBias(b0[lo - 1], errs[lo - 1]) else b0[lo - 1]
    ensures BiasesDone(layer, b0, errs, lo - 1, biases[lo - 1 := b])
  {
  }

  /** Before any transition, the buffers hold the output error and the untouched parameters. */
  lemma BackDoneInit(sizes: seq<nat>, layer: seq<Vector>, w0: seq<Matrix>, b0: seq<Vector>, classifier: bool,
                     errs: seq<Vector>, e: Vector, error: seq<Vector>)
    requires ParamShapes(sizes, w0, b0) && VectorShapes(sizes, layer) && VectorShapes(sizes, error)
    requires |e| == sizes[|sizes| - 1] && errs == BackErrors(layer, w0, classifier, e)
    ensures Shaped(layer, w0) && |errs| == |layer| && |b0| == |layer|
    ensures forall t :: 0 <= t < |layer| ==> |errs[t]| == |layer[t]|
    ensures forall t :: 0 < t < |layer| ==> |b0[t]| == |layer[t]|
    ensures BackDone(layer, w0, b0, errs, |layer| - 1, error[|layer| - 1 := e], w0, b0)
  {
  }

  /** Once every transition is done, the buffers hold the final errors and the updated parameters. */
  lemma BackDoneAll(sizes: seq<nat>, layer: seq<Vector>, w0: seq<Matrix>, b0: seq<Vector>, errs: seq<Vector>,
                    error: seq<Vector>, weights: seq<Matrix>, biases: seq<Vector>)
    requires ParamShapes(sizes, w0, b0) && VectorShapes(sizes, layer)
    requires Shaped(layer, w0) && |errs| == |layer|
    requires forall t :: 0 <= t < |layer| ==> |errs[t]| == |layer[t]|
    requires BackDone(layer, w0, b0, errs, 0, error, weights, biases)
    ensures error == errs
    ensures ParamShapes(sizes, weights, biases) && VectorShapes(sizes, error)
    ensures forall t :: 0 <= t < |weights| ==> weights[t] == UpdateWeights(w0[t], layer[t], error[t + 1])
    ensures forall t :: 0 < t < |biases| - 1 ==> biases[t] == UpdateBias(b0[t], error[t])
  {
    assert error == errs;
    forall i | 0 <= i < |weights|
      ensures IsMatrix(weights[i], sizes[i], sizes[i + 1])
    {
      assert weights[i] == UpdateWeights(w0[i], layer[i], errs[i + 1]);
    }
  }

  /** The reverse loop of `back_propagate` over local copies of the three buffers:
      transition `index` runs from the last one down to 0. */
  method BackPass(ghost sizes: seq<nat>, classifier: bool, layer: seq<Vector>, weights: seq<Matrix>,
                  biases: seq<Vector>, error: seq<Vector>, e: Vector)
    returns (es: seq<Vector>, ws: seq<Matrix>, bs: seq<Vector>)
    requires ParamShapes(sizes, weights, biases) && VectorShapes(sizes, layer) && VectorShapes(sizes, error)
    requires |e| == sizes[|sizes| - 1]
    ensures Shaped(layer, weights)
    ensures es == BackErrors(layer, weights, classifier, e)
    ensures ParamShapes(sizes, ws, bs) && VectorShapes(sizes, es)
    ensures forall t :: 0 <= t < |ws| ==> ws[t] == UpdateWeights(weights[t], layer[t], es[t + 1])
    ensures forall t :: 0 < t < |bs| - 1 ==> bs[t] == UpdateBias(biases[t], es[t])
    ensures bs[0] == biases[0] && bs[|bs| - 1] == biases[|biases| - 1]
  {
    ghost var errs := BackErrors(layer, weights, classifier, e);
    var n := |layer|;
    es, ws, bs := error[n - 1 := e], weights, biases;
    BackDoneInit(sizes, layer, weights, biases, classifier, errs, e, error);
    var i := 0;
    while i < n - 1
      invariant 0 <= i <= n - 1
      invariant BackDone(layer, weights, biases, errs, n - 1 - i, es, ws, bs)
    {
      var index := n - (i + 2);
      BackErrorsUnfold(layer, weights, classifier, e, index);
      var d, w, b := BackTransition(index, classifier, layer[index], ws[index], es[index + 1], es[index], bs[index]);
      BackDoneStep(layer, weights, biases, errs, index + 1, es, ws, bs, d, w, b);
      es := es[index := d];
      ws := ws[index := w];
      bs := bs[index := b];
      i := i + 1;
    }
    BackDoneAll(sizes, layer, weights, biases, errs, es, ws, bs);
  }

  /** The loop of `Dense::new`: for every transition `i`, a `sizes[i] x sizes[i+1]`
      weight matrix and a bias vector of `sizes[i+1]` entries, drawn; zero
      vectors for the layers and the errors; an empty `biases[0]`. */
  method DrawParameters(layerSizes: seq<nat>, draw: (nat, nat, nat) -> real, drawBias: (nat, nat) -> real)
    returns (ws: seq<Matrix>, bs: seq<Vector>, ls: seq<Vector>, es: seq<Vector>)
    requires |layerSizes| >= 1
    ensures ParamShapes(layerSizes, ws, bs) && VectorShapes(layerSizes, ls) && VectorShapes(layerSizes, es)
    ensures forall i :: 0 <= i < |layerSizes| ==> ls[i] == Zeros(layerSizes[i]) && es[i] == Zeros(layerSizes[i])
    ensures forall i :: 0 <= i < |ws| ==> ws[i] == DrawnWeights(draw, i, layerSizes[i], layerSizes[i + 1])
    ensures forall i :: 1 <= i < |bs| ==> bs[i] == DrawnBias(drawBias, i - 1, layerSizes[i])
  {
    ws, bs, ls, es := [], [Zeros(0)], [], [];
    var n := |layerSizes|;
    var i := 0;
    while i < n - 1
      invariant 0 <= i <= n - 1
      invariant |ws| == i && |bs| == i + 1 && |ls| == i && |es| == i
      invariant bs[0] == []
      invariant forall t :: 0 <= t < i ==> ws[t] == DrawnWeights(draw, t, layerSizes[t], layerSizes[t + 1])
      invariant forall t :: 1 <= t <= i ==> bs[t] == DrawnBias(drawBias, t - 1, layerSizes[t])
      invariant forall t :: 0 <= t < i ==> ls[t] == Zeros(layerSizes[t]) && es[t] == Zeros(layerSizes[t])
    {
      ws := ws + [DrawnWeights(draw, i, layerSizes[i], layerSizes[i + 1])];
      bs := bs + [DrawnBias(drawBias, i, layerSizes[i + 1])];
      ls := ls + [Zeros(layerSizes[i])];
      es := es + [Zeros(layerSizes[i])];
      i := i + 1;
    }
    ls := ls + [Zeros(layerSizes[n - 1])];
    es := es + [Zeros(layerSizes[n - 1])];
  }

  /** The loop of `forward_propagate` over a copy of the layer buffer: layer 0
      becomes `value`, then each layer the transition of the one before. */
  method ForwardPass(ghost sizes: seq<nat>, weights: seq<Matrix>, biases: seq<Vector>, linear: bool, classifier: bool,
                     layer: seq<Vector>, value: Vector)
    returns (ls: seq<Vector>)
    requires ParamShapes(sizes, weights, biases) && VectorShapes(sizes, layer) && |value| == sizes[0]
    ensures ls == ForwardLayers(sizes, weights, biases, linear, classifier, value, |sizes|)
  {
    ls := layer[0 := value];
    var i := 1;
    while i < |ls|
      invariant 1 <= i <= |ls| == |sizes|
      invariant ls[..i] == ForwardLayers(sizes, weights, biases, linear, classifier, value, i)
      invariant forall t :: i <= t < |ls| ==> |ls[t]| == sizes[t]
    {
      var prev := ForwardLayers(sizes, weights, biases, linear, classifier, value, i);
      assert ls[i - 1] == prev[i - 1];
      ls := ls[i := Transition(ls[i - 1], weights[i - 1], biases[i], linear, classifier)];
      assert ls[..i + 1] == prev + [ls[i]];
      i := i + 1;
    }
    assert ls == ls[..i];
  }

  class Dense {
    var input: Vector
    const inputSize: nat
    const linear: bool
    const classifier: bool
    var layer: seq<Vector>
    var error: seq<Vector>
    var weights: seq<Matrix>
    var biases: seq<Vector>
    /** The `layer_sizes` the block was built with. */
    ghost const sizes: seq<nat>

    ghost predicate Valid()
      reads this
    {
      && ParamShapes(sizes, weights, biases)
      && VectorShapes(sizes, layer)
      && VectorShapes(sizes, error)
      && inputSize == sizes[0]
    }

    /** `Dense::new`. The He-initialised draws are the parameters `draw` (weight
        `[j, k]` of transition `i`) and `drawBias` (bias entry `k` of transition `i`). */
    constructor (layerSizes: seq<nat>, linear: bool, classifier: bool,
                 draw: (nat, nat, nat) -> real, drawBias: (nat, nat) -> real)
      requires |layerSizes| >= 1
      ensures Valid() && sizes == layerSizes
      ensures this.linear == linear && this.classifier == classifier
      ensures input == Zeros(layerSizes[0]) && inputSize == layerSizes[0]
      ensures forall i :: 0 <= i < |layerSizes| ==> layer[i] == Zeros(layerSizes[i]) && error[i] == Zeros(layerSizes[i])
      ensures forall i, j, k :: 0 <= i < |weights| && 0 <= j < layerSizes[i] && 0 <= k < layerSizes[i + 1] ==>
                weights[i][j][k] == draw(i, j, k)
      ensures forall i, k :: 0 <= i < |weights| && 0 <= k < layerSizes[i + 1] ==> biases[i + 1][k] == drawBias(i, k)
    {
      var ws, bs, ls, es := DrawParameters(layerSizes, draw, drawBias);
      input := Zeros(layerSizes[0]);
      inputSize := layerSizes[0];
      this.linear := linear;
      this.classifier := classifier;
      layer := ls;
      error := es;
      weights := ws;
      biases := bs;
      sizes := layerSizes;
    }

    /** `forward_propagate`: stores the input, recomputes every layer from it and
        returns a copy of the last one. */
    method ForwardPropagate(value: Vector) returns (r: Vector)
      requires Valid() && |value| == inputSize
      modifies this
      ensures Valid()
      ensures input == value
      ensures weights == old(weights) && biases == old(biases) && error == old(error)
      ensures layer == ForwardLayers(sizes, weights, biases, linear, classifier, value, |sizes|)
      ensures r == layer[|layer| - 1] && |r| == sizes[|sizes| - 1]
    {
      input := value;
      layer := ForwardPass(sizes, weights, biases, linear, classifier, layer, value);
      r := layer[|layer| - 1];
    }

    /** `back_propagate`: stores `e` as the last error, then walks the transitions
        from the last to the first. At each one it sums the error back through the
        weights (reading each weight before updating it), updates the weights, and
        for every transition but the first applies the activation derivative and
        updates that layer's bias. Returns `error[0]`. */
    method BackPropagate(e: Vector) returns (r: Vector)
      requires Valid() && |e| == sizes[|sizes| - 1]
      modifies this
      ensures Valid()
      ensures input == old(input) && layer == old(layer)
      ensures error == BackErrors(layer, old(weights), classifier, e)
      ensures forall t :: 0 <= t < |weights| ==> weights[t] == UpdateWeights(old(weights)[t], layer[t], error[t + 1])
      ensures forall t :: 0 < t < |biases| - 1 ==> biases[t] == UpdateBias(old(biases)[t], error[t])
      ensures biases[0] == old(biases)[0] && biases[|biases| - 1] == old(biases)[|biases| - 1]
      ensures r == error[0] && |r| == inputSize
    {
      error, weights, biases := BackPass(sizes, classifier, layer, weights, biases, error, e);
      r := error[0];
    }
  }
}
