# rust_transformer core, modelled in Dafny

rust_transformer is a small hand-written transformer that classifies IMDB
reviews as positive or negative. This project models four parts of it whose
behaviour can be stated exactly, and proves properties about them:

- **Review cleaning and padding** (`src/dataset.rs`, module `Dataset`).
  - `clean_review` first removes the `<br` occurrences of the input, in one
    left-to-right pass. It then walks the characters,
    keeping a word in progress (`current_word`) and an `in_word` flag.
  - Each finished word is lower-cased. It is written out, followed by one
    space, only when it has an embedding.
  - `pad_review` splits on whitespace, then truncates the words or pads them
    with `""` to `review_size` entries.
  - The sentiment label is 1 for `"positive"` and 0 otherwise.
- **Dense block** (`src/dense.rs`, module `Dense`).
  - The buffers that `new` builds.
  - The forward recurrence `layer[i] = act(layer[i-1] . W[i-1] + b[i])`.
  - The reverse loop of `back_propagate`. It updates the error, weight and
    bias buffers in place, and reads each weight before changing it.
- **Multi-headed attention** (`src/multi_headed_attention.rs`, module
  `MultiHeadedAttention`).
  - The forward pass gives every head the same input. It lays the head outputs
    end to end through a running `concat_index` and feeds the result to a
    linear dense layer.
  - The backward pass cuts the dense layer's error into one block per head and
    adds up what the heads send back.
- **Mean pooling** (`src/mean_pooling.rs`, module `MeanPooling`). The forward
  pass takes the column-wise mean. The backward pass shares the error equally
  among the rows.

Module `Tensors` holds the shared vector and matrix vocabulary:
- sums and dot products;
- row-major flattening and reshaping (`into_shape`) and their round trips;
- the adjoint identity `<x, W e> == <x W, e>`.

The specifying functions state what each computation means:
- `Cleaned(review, E) = Render(Kept(Tokens(RemoveBr(review)), E))`.
- `ForwardLayers` gives the forward recurrence.
- `BackErrors`, `UpdateWeights` and `UpdateBias` give the backward pass.
- `ConcatHeads`, `SplitHeads` and `SumMatrices` give the head layout.
- `Mean` and `Spread` give mean pooling.

The imperative code is modelled as methods with loops, proved against those
functions: `Dataset.CleanReview`, `Dataset.PadReview`, `Dense.BackPass`, the
array-filling `MultiHeadedAttention.ConcatOutputs`, and the classes `Dense`,
`MultiHeadedAttention` and `MeanPooling`.

## Model

| member | source | states |
|---|---|---|
| Dataset.ToLower | src/dataset.rs:32 | A lower-cased character is never an upper-case letter. It is alphanumeric exactly when the original is, and is an apostrophe exactly when the original is. |
| Dataset.RemoveBrNoTag | src/dataset.rs:15 | A review without `<` is left unchanged by the `<br` removal. |
| Dataset.RemoveBrSinglePass | src/dataset.rs:15 | The removal is one left-to-right pass. A `<br` that appears only once another has been removed stays: `<<brbr` becomes `<br`. |
| Dataset.TokensAreWords | src/dataset.rs:21-26 | Every word the scanner finishes is non-empty, starts with a letter or digit, and holds only letters, digits and apostrophes. An apostrophe is accepted only inside a word. |
| Dataset.WordThenBreak | src/dataset.rs:21-40 | A whole word followed by a character that cannot continue it is one token. Scanning then carries on with the rest. |
| Dataset.TokensOfJoined | src/dataset.rs:21-50 | Words joined by separators are scanned back into exactly those words, in their order. The text may end in a word or in a separator. |
| Dataset.TokensOfLeadJoined | src/dataset.rs:21-50 | Separators before the first word do not change this. |
| Dataset.Kept | src/dataset.rs:32-36 | Every word written out has an embedding. No more words are written than were scanned. |
| Dataset.KeptExactly | src/dataset.rs:32-36 | A word is written out if and only if it has an embedding and is the lower-case form of some scanned word. Words without an embedding are dropped, not replaced. |
| Dataset.KeptAllEmbedded | src/dataset.rs:32-36 | When every word has an embedding, the output is all the words, lower-cased, in their order. |
| Dataset.KeptAreCleanWords | src/dataset.rs:21-33 | Every word written out is a word as above and has no upper-case letter. |
| Dataset.RenderFormat | src/dataset.rs:34-35 | Writing out any list of clean words, each followed by one space, gives text that is empty or ends in a space. It never starts with a space and never holds two spaces in a row. |
| Dataset.CleanedFormat | src/dataset.rs:34-35 | The cleaned review is empty or ends in a space. It never starts with a space and never holds two spaces in a row. |
| Dataset.SplitRender | src/dataset.rs:34-56 | Splitting the cleaned text on whitespace, as `pad_review` does, gives back exactly the words written out. |
| Dataset.CleanedWords | src/dataset.rs:11-52 | The words of a cleaned review are the kept words, in input order. Each has an embedding and is a lower-case word. |
| Dataset.WordStep | src/dataset.rs:22-26 | A letter or digit, or an apostrophe inside a word, extends the word in progress. The result is still a word. |
| Dataset.BreakStep | src/dataset.rs:27-40 | Any other character ends the word in progress. The word, lower-cased, is written with its space exactly when it has an embedding. |
| Dataset.LastWord | src/dataset.rs:43-50 | At the end of the text, the word in progress is handled like any other finished word. |
| Dataset.ScanCharacter | src/dataset.rs:21-41 | One pass of the character loop keeps the loop invariant. `in_word` holds exactly when `current_word` is non-empty, and `current_word` is a word. What is written so far, followed by the cleaning of what is left, is the cleaned review. |
| Dataset.CleanReview | src/dataset.rs:11-52 | `clean_review` returns `Cleaned(review, E)`: the words of the `<br`-free text, lower-cased, filtered by `E`, each followed by one space. |
| Dataset.CleanedExample | src/dataset.rs:12-13 | `"I love this movie! It's so good."` cleans to `"i love this movie it's so good "` when all seven words have embeddings. |
| Dataset.PaddedShape | src/dataset.rs:55-70 | The padded review has exactly `review_size` entries. It is the first `review_size` words when there are that many; otherwise it is all the words followed by `""` entries. |
| Dataset.PadReview | src/dataset.rs:55-70 | `pad_review` returns `Padded(SplitWhitespace(review), review_size)`. |
| Dataset.PaddedCleanedEntries | src/dataset.rs:56-66 | Every entry of a padded cleaned review is `""` or a word with an embedding. |
| Dataset.Sentiment | src/dataset.rs:81 | The label is 1 exactly when the record says `"positive"`, and 0 exactly when it says anything else. |
| Dense.Relu | src/dense.rs:94 | The rectifier returns `x` or `0`, is non-negative and is never below `x`. |
| Dense.ForwardRecurrence | src/dense.rs:86-97 | After the forward pass, every layer after the first is the transition of the layer before it. |
| Dense.ReluLayersNonNegative | src/dense.rs:90-95 | When the block is neither linear nor a classifier, every layer after the input is non-negative. |
| Dense.BackErrorsUnfold | src/dense.rs:106-124 | `error[index]` is the transition error of `error[index + 1]`, from the last transition down to the first. |
| Dense.InputErrorIsAdjoint | src/dense.rs:108-112 | The returned `error[0]` is the first weight matrix, before its update, applied to `error[1]`. For every direction `dx`, `<dx, error[0]> == <dx W[0], error[1]>`. |
| Dense.ZeroErrorStaysZero | src/dense.rs:104-124 | A zero output error gives a zero error at every layer. |
| Dense.AccumulateRow | src/dense.rs:110-114 | The inner loop sums `W[j][k] * next[k]` using each weight before its update. It moves each weight by `x[j] * next[k] * LR`. |
| Dense.BackRow | src/dense.rs:109-122 | One row of the middle loop gives the error of input `j` and the updated weight row. The activation derivative is applied only when `index > 0`: the sigmoid derivative for a classifier, otherwise zero where `layer[index][j] <= 0`. |
| Dense.BackTransition | src/dense.rs:108-125 | One transition returns its error vector and its updated weights. The bias moves by `error * LR` only when `index > 0`. |
| Dense.BackPass | src/dense.rs:105-126 | The reverse loop leaves the errors equal to `BackErrors`, each weight matrix updated with the final errors of the layer above, and every inner bias updated. `biases[0]` and the last bias vector are unchanged, and all shapes are kept. |
| Dense.DrawParameters | src/dense.rs:27-49 | `new` builds `L-1` weight matrices of size `sizes[i] x sizes[i+1]` and `L` zero layer and error vectors. `biases[0]` is empty and `biases[i]` has `sizes[i]` entries. The entries are the given draws. |
| Dense.ForwardPass | src/dense.rs:86-97 | The forward loop leaves the layer buffer equal to `ForwardLayers` of the input. |
| Dense.Dense.constructor | src/dense.rs:26-64 | The new block has the shapes above, a zero input of `sizes[0]` entries, and the given `linear` and `classifier` flags. |
| Dense.Dense.ForwardPropagate | src/dense.rs:82-102 | Stores the input and sets the layers to the forward recurrence. Returns the last layer, of `sizes[L-1]` entries. Weights, biases and errors are unchanged. |
| Dense.Dense.BackPropagate | src/dense.rs:104-129 | Stores the errors of `BackErrors` computed with the weights from before the call. Updates every weight matrix and every inner bias as above. Leaves the input, the layers, `biases[0]` and the last bias unchanged. Returns `error[0]`, of `input_size` entries. |
| MeanPooling.Mean | src/mean_pooling.rs:25 | The mean has one entry per column. Entry `c` times the row count is the sum of column `c`. |
| MeanPooling.MeanOfEqualRows | src/mean_pooling.rs:25 | The mean of rows that are all `x` is `x`. |
| MeanPooling.SpreadRow | src/mean_pooling.rs:32 | Every entry `c` of a row of the backward result, times the row count, is `error[c]`. |
| MeanPooling.SpreadColumnSums | src/mean_pooling.rs:32 | Summing the backward result over the rows gives back the error. |
| MeanPooling.SpreadIsAdjoint | src/mean_pooling.rs:23-33 | The backward pass is the adjoint of the mean: `<x, back(e)> == <mean(x), e>`. |
| MeanPooling.MeanPooling.constructor | src/mean_pooling.rs:11-16 | The stored input starts as a `rows x cols` zero matrix. |
| MeanPooling.MeanPooling.ForwardPropagate | src/mean_pooling.rs:23-28 | Stores the input and returns its column-wise mean. The input must have at least one row. |
| MeanPooling.MeanPooling.BackPropagate | src/mean_pooling.rs:30-33 | Returns a matrix shaped like the stored input, whose entry `[j][c]` times the row count is `error[c]`. The stored input is unchanged. |
| Tensors.FlattenAt | src/multi_headed_attention.rs:77 | Flattening a `rows x cols` matrix row-major puts cell `[r, c]` at position `r * cols + c`. |
| Tensors.UnflattenAt | src/multi_headed_attention.rs:72 | Reshaping a vector to `rows x cols` puts position `r * cols + c` in cell `[r, c]`. |
| Tensors.UnflattenFlatten | src/multi_headed_attention.rs:72-77 | Reshaping a flattened matrix gives the matrix back. |
| Tensors.FlattenUnflatten | src/multi_headed_attention.rs:72-77 | Flattening a reshaped vector gives the vector back. |
| Tensors.Adjoint | src/dense.rs:108-112 | `<x, W e> == <x W, e>`: summing an error back through the weights is the adjoint of the forward product. |
| MultiHeadedAttention.ConcatLength | src/multi_headed_attention.rs:49-66 | The concatenation of `n` heads of `rows x cols` has `n * rows * cols` slots. |
| MultiHeadedAttention.ConcatAt | src/multi_headed_attention.rs:55-64 | Cell `[j, k]` of head `i` is stored at slot `i * rows * cols + j * cols + k`, which is in range. |
| MultiHeadedAttention.SplitHeads | src/multi_headed_attention.rs:86-91 | Cutting the dense layer's error gives `num_heads` blocks of `rows x cols`. |
| MultiHeadedAttention.SplitConcat | src/multi_headed_attention.rs:55-91 | Cutting a concatenation back into heads gives the heads: the backward layout inverts the forward one. |
| MultiHeadedAttention.ConcatSplit | src/multi_headed_attention.rs:55-91 | Laying the cut blocks end to end gives the vector back. |
| MultiHeadedAttention.SumMatricesAt | src/multi_headed_attention.rs:83-98 | Cell `[j, k]` of the accumulated error is the sum of that cell over the heads. With no heads it is 0. |
| MultiHeadedAttention.WriteHead | src/multi_headed_attention.rs:60-65 | Copying one head row by row writes exactly its flattening after the slots already filled. It leaves the running index `rows * cols` further on. |
| MultiHeadedAttention.ConcatOutputs | src/multi_headed_attention.rs:49-66 | The head loop fills the fresh buffer of `linear.input_size` slots with exactly the concatenation of the head outputs. `concat_index` ends at `num_heads * rows * cols`. |
| MultiHeadedAttention.SumHeadErrors | src/multi_headed_attention.rs:83-101 | The head loop of the backward pass returns the zero matrix plus every head's returned error, in head order. |
| MultiHeadedAttention.MultiHeadedAttention.constructor | src/multi_headed_attention.rs:23-38 | There are `num_heads` heads. The linear dense layer maps `rows * cols * num_heads` entries to `rows * cols`. The input starts as a `rows x cols` zero matrix. |
| MultiHeadedAttention.MultiHeadedAttention.ForwardPropagate | src/multi_headed_attention.rs:45-73 | Stores the input. Every head is given that same input, and the dense layer's input is the concatenation of their outputs. The dense layer's layers become its forward recurrence on that input, so its first layer is the concatenation. Its weights, biases and errors are unchanged. The result is the dense layer's linear transition, reshaped to the input's shape. |
| MultiHeadedAttention.MultiHeadedAttention.BackPropagate | src/multi_headed_attention.rs:75-102 | The error, flattened row-major, becomes the dense layer's output error and goes back through it. The dense layer's one weight matrix takes one descent step with the stored concatenation and that error. Its biases, layers and input are unchanged. The result is the sum over heads of what each head returns for its block of the dense layer's input error. |

## Left out

- Floating point: every `f32` value is a `real`, so rounding, overflow and NaN are not modelled.
- `sigmoid`, `inv_deriv_sigmoid` and `LR` are fixed but unspecified: two functions and a constant of module `Dense`. Their `exp`/`ln` definitions in `src/dense.rs` are not modelled.
- He initialisation in `Dense::new` calls a random number generator. The draws are parameters of the constructor (`draw`, `drawBias`), and their distribution is not modelled.
- Self-attention heads: `src/self_attention.rs` is not part of this model.
  - A head is a pair of matrix functions (forward, backward), and the model assumes each returns a matrix of the shape it is given.
  - The heads' own state (the input each stores) is not modelled. Nor is `SelfAttention::new`: the `MultiHeadedAttention` constructor receives the heads.
- Dataset.IsAlphanumeric, Dataset.IsWhitespace, Dataset.ToLower: these cover ASCII only. Rust's `is_alphanumeric` also accepts non-ASCII letters and digits, but in the model they end a word. So `"naïve"` is scanned as the two words `"na"` and `"ve"`, which may be written out where the source looks up `"naïve"` as one word. Non-ASCII whitespace such as U+00A0 does not separate words in `SplitWhitespace`, while Rust's `split_whitespace` splits on it.
- Dense.Dense.ForwardPropagate: requires the input to have exactly `input_size` entries. It does not model `ndarray`'s broadcasting of a one-entry input in `assign`.
- Dense.Dense.BackPropagate: requires the error to have exactly the output size. The source also accepts a longer error, whose extra entries are never read.
- Dense.Dense.constructor: requires at least one layer size. The source indexes `layer_sizes[0]` and computes `layer_sizes.len() - 1`, which panics or underflows on an empty list.
- MultiHeadedAttention.MultiHeadedAttention.ForwardPropagate: requires an input of exactly `rows * cols` entries. On a larger input the source writes past the concatenation buffer and panics; on any other size `into_shape(...).unwrap()` panics.
- MultiHeadedAttention.MultiHeadedAttention.BackPropagate: requires an error of exactly `rows * cols` entries, because otherwise the source's `into_shape(...).unwrap()` calls panic.
- MeanPooling.MeanPooling.BackPropagate: requires the error to have at least as many entries as the stored input has columns, because otherwise the source's `error[i]` panics out of bounds.
- MeanPooling.MeanPooling.ForwardPropagate: requires at least one row, because the source panics on an empty input (`mean_axis` returns `None`).
- MeanPooling.MeanPooling.constructor: a matrix is a sequence of rows, so a zero-row matrix carries no column count. `new(0, cols)` and the backward pass after an empty input therefore give the empty matrix.
- `load_imdb_dataset` is not modelled beyond its label rule: reading the CSV file, building `Review` values and the `HashMap` of embeddings (modelled as a set of words). The embedding vectors themselves are not modelled.
- Logging (`info!`) is not modelled.
- The dense block's backward loop runs on sequence values that are then stored in the fields. No other reference to the buffers exists, so in-place update and copy agree.
