# A verified model of a binary restricted Boltzmann machine

The modelled system is a small C++ trainer for a restricted Boltzmann machine
(RBM) with `V` visible and `H` hidden binary units. It is trained on MNIST
digits by mini-batch contrastive divergence with K Gibbs sweeps on one
negative chain. The model covers four
parts of it.

- **The machine.** It holds two bias arrays and a `V×H` weight matrix. The
  model covers its energy function and the token layout in which
  parameters are dumped to and loaded from a file (`rbm.hpp`).
- **Alternating Gibbs sampling.** Every hidden unit is resampled from the
  visible layer, then every visible unit from the new hidden layer.
- **One training call (`RDM`).** A negative chain is burnt in, and a
  mini-batch is drawn from the training set. Hidden biases, weights and
  visible biases then move by the learning rate times (positive mini-batch
  mean minus negative-chain value). The call then counts, per mini-batch
  example, the visible bits the chain gets wrong.
- **`parseMNISTCSV`.** It reads the CSV training file (`train.cpp`). The
  header line is skipped, and so is each line's label. The first 784
  values of each line are thresholded at 128 into bits. A short line or a
  value that is not a number aborts the whole parse.

Modules, in dependency order:

| module | file | content |
|---|---|---|
| `Sums` | `sums.dfy` | bool-weighted inner products, counts and Hamming distances, summed left to right as the source's loops do |
| `Parameters` | `parameters.dfy` | the parameters as a value; the energy and its linearity; the dump layout and the load, with the round trip |
| `Machine` | `machine.dfy` | `class Rbm` over `array`/`array2` fields; energy, dump and load as methods proved against `Parameters` |
| `Sampling` | `sampling.dfy` | the Gibbs sweep as functions, and the in-place half-steps on two state arrays |
| `Training` | `training.dfy` | the contrastive-divergence update as a function, and `RDM` as methods that update the arrays in place |
| `Mnist` | `mnist.dfy` | the CSV format as functions, and the parser as loops over the text |

**Modelling choices.**
- `float` is `real`.
- The logistic function is a parameter `sigma: real -> real`. Where a
  property needs it, the model assumes only what `IsLogistic` states: the
  values lie in (0, 1) and `sigma(0) = 1/2`.
- Every random draw is an explicit input:
  - the chain's starting bits;
  - one uniform draw per unit and half-step of each burn-in sweep;
  - the mini-batch indices;
  - one row of mini-batch draws per hidden unit for the positive phase.
- OpenMP `parallel for` loops and `std::execution::par` are sequential
  loops. Each iteration writes only its own cells, which the contracts
  state.
- Printing is replaced by returning the bits-wrong counts.
- The dumped file is a sequence of `real` tokens.
- The CSV file is its text.

## Model

| member | source | states |
|---|---|---|
| `Parameters.ZeroParams` | rbm.hpp:25-27 | default-initialised parameters have V visible biases, H hidden biases and a V×H weight matrix |
| `Parameters.Energy` | rbm.hpp:29-40 | E = −Σ_i a_i·v_i − Σ_j b_j·h_j − Σ_i v_i·(Σ_j w_ij·h_j), with a the visible biases, b the hidden biases and w the weights |
| `Parameters.EnergyOfClearState` | rbm.hpp:29-40 | with no visible and no hidden unit set, the energy is 0 whatever the parameters |
| `Parameters.EnergyOfZeroParams` | rbm.hpp:25-40 | with default-initialised (all-zero) parameters, every joint state has energy 0 |
| `Parameters.EnergyOfNegated` | rbm.hpp:29-40 | negating every bias and weight negates the energy of every joint state |
| `Parameters.EnergyOfSum` | rbm.hpp:29-40 | the energy is additive in the parameters: E(p+q) = E(p) + E(q) for every joint state |
| `Parameters.Load` | rbm.hpp:64-85 | a load leaves the V/H shape of the parameters intact |
| `Parameters.RowStartIsProduct` | rbm.hpp:55-61 | the row-by-row weight loop reaches row i after exactly i·H tokens |
| `Parameters.FlattenLayout` | rbm.hpp:55-61 | the row-major weight section holds V·H tokens, with row i at tokens RowStart(i, H) up to RowStart(i, H) + H |
| `Parameters.Serialize` | rbm.hpp:42-63 | the dumped tokens: the V visible biases, then the H hidden biases, then the weights row by row |
| `Parameters.SerializeLayout` | rbm.hpp:42-63 | the dump holds exactly V + H + V·H tokens; visible bias i is token i, hidden bias j is token V + j, weight (i, j) is token V + H + i·H + j |
| `Parameters.LoadAfterSerialize` | rbm.hpp:42-85 | loading a dump restores every parameter, whatever the model held before the load |
| `Parameters.LoadOfEmptyStream` | rbm.hpp:64-85 | loading an empty stream changes no parameter |
| `Sums.CountBounds` | rbm.hpp:156 | the number of set samples lies in 0..n; it equals n exactly when all are set and 0 exactly when none is |
| `Sums.HammingBounds` | rbm.hpp:184-191 | the count of differing units lies in 0..n, and is 0 exactly when the two prefixes are equal |
| `Machine.InnerProduct` | rbm.hpp:32-33 | `std::inner_product` of a bias array with a binary state is the bool-weighted sum of the biases |
| `Machine.Rbm.constructor` | rbm.hpp:25-27 | a new machine has the given dimensions, fresh arrays and all-zero parameters |
| `Machine.Rbm.HiddenInput` | rbm.hpp:103-107 | the loop yields Σ_i visible[i]·weights[i][j], the input hidden unit j receives |
| `Machine.Rbm.VisibleInput` | rbm.hpp:115-119 | the loop yields Σ_j hidden[j]·weights[i][j], the input visible unit i receives |
| `Machine.Rbm.Energy` | rbm.hpp:29-40 | the method returns the energy of the joint state under the parameters the arrays hold |
| `Machine.Rbm.DumpParameters` | rbm.hpp:42-63 | the tokens written are the visible biases, then the hidden biases, then the weights row by row |
| `Machine.Rbm.LoadParameters` | rbm.hpp:64-85 | after the load, every slot holds the token at its dump position, or its old value when the stream is shorter |
| `Machine.Rbm.LoadWeights` | rbm.hpp:78-84 | weight (i, j) receives token V + H + RowStart(i, H) + j if the stream has it, and keeps its value otherwise |
| `Machine.ReadInto` | rbm.hpp:68-76 | slot k of a bias array receives token start + k if the stream has it, and keeps its value otherwise |
| `Sampling.HiddenActivation` | rbm.hpp:103-108 | the input of hidden unit j: b_j + Σ_i v_i·w_ij |
| `Sampling.VisibleActivation` | rbm.hpp:115-120 | the input of visible unit i: a_i + Σ_j h_j·w_ij |
| `Sampling.Fire` | rbm.hpp:108 | a unit is set exactly when its uniform draw lies below the sigmoid of its input |
| `Sampling.SampleHidden` | rbm.hpp:99-109 | a hidden half-step yields one unit per hidden draw |
| `Sampling.SampleVisible` | rbm.hpp:111-121 | a visible half-step yields one unit per visible draw |
| `Sampling.GibbsSweep` | rbm.hpp:95-122 | a sweep keeps the sizes of both layers |
| `Sampling.Chain` | rbm.hpp:135-138 | a run of sweeps keeps the sizes of both layers |
| `Sampling.SweepIgnoresOldHidden` | rbm.hpp:99-121 | a sweep overwrites the hidden layer without reading it: its outcome depends only on the visible layer and the draws |
| `Sampling.ZeroModelFiresAtHalf` | rbm.hpp:88-121 | under all-zero parameters, each unit is set exactly when its draw is below 1/2 |
| `Sampling.ZeroDrawFires` | rbm.hpp:108 | the draw 0, which the uniform distribution on [0, 1) can return, sets its unit whatever the activation, as the sigmoid is positive |
| `Sampling.SampleHiddenLayer` | rbm.hpp:99-109 | hidden unit j becomes draw_j < sigmoid(bias_j + Σ_i visible[i]·w[i][j]), for every j; the visible layer and the parameters are only read |
| `Sampling.SampleVisibleLayer` | rbm.hpp:111-121 | visible unit i becomes draw_i < sigmoid(bias_i + Σ_j hidden[j]·w[i][j]), for every i; the hidden layer and the parameters are only read |
| `Sampling.GibbsStep` | rbm.hpp:95-122 | every hidden unit is resampled from the old visible layer first; the visible units are then sampled from the NEW hidden layer |
| `Training.IndexUpperBound` | rbm.hpp:141 | the upper bound `n - 1` in `std::size_t` is n - 1 for n > 0 and wraps to 2^64 - 1 for n = 0 |
| `Training.MiniBatchIndexInRange` | rbm.hpp:141 | for a non-empty training set, every index the distribution can return is a valid index |
| `Training.EmptyTrainingSetWrapsBound` | rbm.hpp:141 | for an empty training set the bound handed to the distribution is 2^64 - 1 |
| `Training.MiniBatchInRange` | rbm.hpp:140-141 | for a non-empty training set, every mini-batch index lies in [0, size - 1] |
| `Training.Batch` | rbm.hpp:152 | the mini-batch holds one example per index, each drawn from the training set |
| `Training.PositiveSamples` | rbm.hpp:146-155 | the positive phase holds one sample per mini-batch example |
| `Training.PairColumn` | rbm.hpp:161-164 | the positive weight statistic has one entry per mini-batch example |
| `Training.CdUpdate` | rbm.hpp:143-181 | the updated parameters keep the V/H shape |
| `Training.Mean` | rbm.hpp:156-178 | the mini-batch mean of a statistic: the number of set entries divided by the batch size |
| `Training.Delta` | rbm.hpp:156-180 | the change of one parameter: lr·(positive mean − the chain's 0/1 value) |
| `Training.MeanBounds` | rbm.hpp:156 | a mini-batch mean lies in [0, 1]; it is 1 exactly when every entry is set and 0 exactly when none is |
| `Training.DeltaBounds` | rbm.hpp:156-180 | with lr ≥ 0, one update moves a parameter by at most lr, away from the chain's value, and not at all when every positive statistic agrees with the chain |
| `Training.CdUpdateStepBounded` | rbm.hpp:143-181 | with lr ≥ 0, one call moves every bias and every weight by at most lr |
| `Training.VisibleBiasFollowsData` | rbm.hpp:170-181 | visible bias i does not decrease when the chain's unit is off, does not increase when it is on, and is unchanged when the whole mini-batch agrees with the chain |
| `Training.CdUpdateZeroRate` | rbm.hpp:143-181 | a zero learning rate leaves every parameter unchanged |
| `Training.PositiveSamplesReadColumn` | rbm.hpp:146-155 | the positive samples of hidden unit j depend only on hidden bias j and weight column j |
| `Training.BitsWrong` | rbm.hpp:184-191 | the count equals the Hamming distance between the chain's visible state and the example; it lies in 0..V and is 0 exactly when the two are equal |
| `Training.PositivePhase` | rbm.hpp:146-155 | sample k is draw_k < sigmoid(hidden bias j + Σ_i example_k[i]·w[i][j]), computed from the column before it is updated |
| `Training.UpdateWeightColumn` | rbm.hpp:158-168 | weight (i, j) moves by lr·(mean of "example unit i and sample both set" − "chain units i and j both set"); no other column changes |
| `Training.UpdateHiddenBias` | rbm.hpp:156 | hidden bias j moves by lr·(mean of the samples − chain unit j); no other hidden bias changes |
| `Training.UpdateHiddenUnit` | rbm.hpp:145-168 | iteration j samples from column j, then writes only hidden bias j and weight column j, by the update rule |
| `Training.UpdateHiddenUnits` | rbm.hpp:143-169 | after the hidden loop, every hidden bias and weight equals the update computed from the parameters before the loop |
| `Training.UpdateVisibleBiases` | rbm.hpp:170-181 | visible bias i moves by lr·(mini-batch mean of unit i − chain unit i), for every i |
| `Training.ReconstructionErrors` | rbm.hpp:182-193 | there is one count per mini-batch example: the Hamming distance to the chain's visible state, at most V |
| `Training.BurnIn` | rbm.hpp:135-138 | the arrays end in the state the chain reaches after one sweep per entry of the draws |
| `Training.NegativePhase` | rbm.hpp:127-138 | the negative chain state is the chain run from the starting bits, under parameters that are only read |
| `Training.ApplyUpdate` | rbm.hpp:143-181 | the parameters become the contrastive-divergence update of the old ones |
| `Training.Rdm` | rbm.hpp:124-194 | the indices are valid; the parameters become the update computed from the burnt-in chain and the mini-batch; per example, the result is the Hamming distance between the chain's visible state and the example, at most V |
| `Mnist.Stoi` | train.cpp:26 | a converted value lies within `int`; a failure is an invalid argument or out of range |
| `Mnist.StoiOfShow` | train.cpp:26 | a decimal number, with or without a minus sign, converts to itself when it fits in `int` and is out of range otherwise |
| `Mnist.Convert` | train.cpp:22-29 | the first n values convert exactly when each of them does; bit k is then value k ≥ 128 |
| `Mnist.ConvertStopsAtError` | train.cpp:26 | once a value fails to convert, reading further values does not change the outcome |
| `Mnist.ConvertReportsFirstError` | train.cpp:22-29 | a rejected line reports the error of its first value that fails to convert |
| `Mnist.Fields` | train.cpp:21-25 | the value fields: the comma pieces after the first comma, none when the line has no comma |
| `Mnist.FieldsAfterComma` | train.cpp:21 | the value fields are the comma-separated pieces after the first comma, and there are none without a comma |
| `Mnist.Limit` | train.cpp:22 | at most 784 values are read, and fewer only when the line has fewer |
| `Mnist.ParseFields` | train.cpp:22-31 | an accepted line has exactly 784 bits |
| `Mnist.ParseRow` | train.cpp:17-31 | an accepted line has exactly 784 bits |
| `Mnist.Split` | train.cpp:25 | the pieces that successive `getline(is, value, ',')` calls read; a text without a comma is one piece, and a trailing comma gives a final empty piece |
| `Mnist.SplitHasNoComma` | train.cpp:25 | no field read up to a comma holds a comma |
| `Mnist.JoinSplit` | train.cpp:25 | joining the fields with commas gives back the text |
| `Mnist.SplitJoin` | train.cpp:25 | splitting a comma-joined list of comma-free fields gives back the fields |
| `Mnist.SplitAppend` | train.cpp:25 | the fields of `a,b` are the fields of `a` followed by those of `b` |
| `Mnist.Lines` | train.cpp:15 | the pieces between newlines that successive `getline` calls return; a final newline starts no further line, and empty text has no lines |
| `Mnist.LinesOfTerminated` | train.cpp:15 | newline-terminated lines without newlines are read back as they were |
| `Mnist.FindFrom` | train.cpp:21 | the scan stops at the first `c` from the start position, or at the end of the text |
| `Mnist.GetField` | train.cpp:25 | one read returns the next field and positions after its comma; at the end of the line it returns the last field |
| `Mnist.NextValue` | train.cpp:24-26 | the value read is the conversion of the next field; end of line is signalled exactly after the last field |
| `Mnist.ReadValues` | train.cpp:22-29 | the loop yields the conversion of the first min(784, fields) values, or the first conversion error |
| `Mnist.ReadRow` | train.cpp:17-31 | reading one line gives exactly the line's specified outcome |
| `Mnist.Body` | train.cpp:13 | the text after the first newline; empty when the text has no newline |
| `Mnist.ParseRows` | train.cpp:15-33 | the lines parsed in order; the first line that fails aborts the parse with its error |
| `Mnist.ParseCsv` | train.cpp:8-36 | the header line dropped, then the lines of the rest parsed by `ParseRows` |
| `Mnist.ParseMnistCsv` | train.cpp:8-36 | the method's result equals `ParseCsv` of the file's text |
| `Mnist.HeaderDiscarded` | train.cpp:13 | the first line is never parsed: files that differ only in it parse alike |
| `Mnist.LabelSkipped` | train.cpp:21 | the label is never parsed: lines that differ only before their first comma parse alike |
| `Mnist.RowAccepted` | train.cpp:22-31 | a line is accepted exactly when it has at least 784 values and the first 784 convert; bit k is then value k ≥ 128 |
| `Mnist.ShortRowReportsCount` | train.cpp:31 | a line with fewer than 784 values that all convert aborts with their count |
| `Mnist.ExtraValuesIgnored` | train.cpp:22 | fields after the 784th are never read, even when they are not numbers |
| `Mnist.TrailingTextIgnored` | train.cpp:21-29 | text after a line that already holds 784 values does not change how the line parses |
| `Mnist.ParseRowsSpec` | train.cpp:15-33 | the data lines are accepted exactly when each one is; the result then has one entry per line, in order |
| `Mnist.ParseEncodedRow` | train.cpp:17-32 | a line written as label and 784 grey levels parses to the thresholded grey levels |
| `Mnist.ParseEncodedFile` | train.cpp:8-36 | a file of such lines under any header parses to one thresholded image per line, in order |

## Left out

- Randomness: `std::random_device`, `std::rand`/`srand` and `time` are replaced by draw sequences passed as parameters. Nothing about their distribution is stated.
- `sigmoid` and `std::exp`: the function is a parameter, and the model uses only that it maps into (0, 1) with `sigma(0) = 1/2`.
- Floating point: `float` is `real`, so rounding, overflow and NaN are not modelled.
- `Parameters.LoadAfterSerialize`: the round trip is exact on `real` tokens. The source writes each `float` with the stream's default six significant digits, so its round trip is exact only up to that rounding.
- `Machine.Rbm.LoadParameters`: a token that is not a number is not modelled (the stream would store 0 and fail every later read). A stream that ends early is modelled: the slots it does not reach keep their values.
- The dump's spaces and newlines: only the token order is modelled.
- OpenMP `parallel for` and `std::execution::par` run sequentially in the model. The data race on the shared `std::random_device` is not modelled.
- The `std::cout` report of `RDM` is not modelled; `Training.Rdm` returns the counts it prints instead.
- `Training.Rdm`: it requires a non-empty training set, which the source does not check (see Findings).
- `Training.Rdm`: it requires a non-empty mini-batch. In the source the size is a template constant, 10 by default; a size of 0 would divide by zero.
- `Sampling.GibbsStep`: the two state arrays must be distinct. Its callers pass separate arrays.
- `Training.PositivePhase`: the source's fixed-size `std::array` buffer is an array allocated per call, with one entry per mini-batch example.
- `Training.UpdateHiddenBias`: `std::accumulate` over the samples is the count of set samples.
- `Mnist.Stoi`: decimal conversion with leading white space and one optional sign is modelled. Locale-dependent white space is not. A value is out of range exactly when it lies outside `int`, which covers both of the library's overflow checks.
- File streams: the CSV file is its text, and a file that cannot be opened reads as empty text, as the stream would.
- `train.cpp` `main`: signal handlers, global flags, the training loop and checkpoint writes are process control.
- `reconstruct.cpp`: bitmap rendering and image tiling are visualisation, and its sampling loop is the one modelled in `Sampling`.

A short row aborts the whole parse. `parseMNISTCSV` throws, so rows
already read are not returned (train.cpp:31), and `Mnist.ParseMnistCsv`
returns an error and no rows.

## Findings

| source | as written | input that shows it | evidently intended | confidence | as-written member | corrected member |
|---|---|---|---|---|---|---|
| rbm.hpp:141 | the index distribution's upper bound is `n - 1` in `std::size_t`, with no check that the training set is non-empty | an empty training set: the bound wraps to 2^64 - 1, and every index drawn reads outside the set | reject an empty training set before any parameter changes | not executed; high | `Training.EmptyTrainingSetWrapsBound` | `Training.Rdm` |

The corrected `Training.Rdm` requires a non-empty training set. Under that
precondition, `Training.MiniBatchInRange` proves that every mini-batch
index addresses an example.
