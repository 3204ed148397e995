# Deepforge neural network — a Dafny model

This project models the core of Deepforge, a small C# neural-network engine.
It covers two engines that live side by side in the repository:

- **The vector engine** (`Framework/Network.cs` with `API/Layer.cs`,
  `Network/Struct/Vector.cs`, the matrix classes and the cost helper).
  - Layers of sigmoid, tanh or relu neurons.
  - A forward pass that caches every layer's input.
  - Back-propagation with analytic deltas, and gradient descent.
  - An accuracy measure and a training loop that reports cost and accuracy
    after every epoch.
  - A text file format to save and load a trained network.
- **The float-array engine** (`Network/Network.cs` with `Network/Layer.cs`).
  - Its gradients are finite differences: every weight and bias is nudged by
    `0.0001f`, the cost is measured again, and the nudge is undone.
  - Its training loop counts how many examples score on the first output.
- **The data utilities** (`Utility/DataParser.cs`): CSV parsing with a label
  map, min/max scaling, the random train/test split and one-hot encoding.

## How the model is built

Everything is immutable data and pure functions.

- A vector is a `seq<real>`.
- A matrix keeps its row and column counts next to its rows, as the source
  does; `Valid` is the class invariant.
- A layer or network method that mutates its object returns the new value.
  - A method that throws returns a `Result`.
  - A mutation that may throw part-way returns both the new value and the
    outcome (see `Networks.Learn`).
- `Math.Exp` and `Math.Tanh` are the two fields of a `Maths` record.
  - `Sound` is all the model assumes of them: `exp` is positive and `tanh`
    lies strictly between -1 and 1.
- `Random.NextDouble()` is a stream `nat -> real` of draws.
  - A consumer returns the rest of the stream.
  - `Unit` says every draw lies in [0, 1).
- `rnd.Next(count)` in the split is a sequence of picks, each below the
  number of indices left.
- Number text is an abstract `NumberFormat`.
  - `IntsRoundTrip` is the promise of `int.ToString` and `int.Parse`: every
    integer prints as a single space-free token that parses back to itself.
  - No format can promise that of every real, since there are more reals than
    strings. `Exact` is a property of one value instead: the value prints as
    one token that parses back to it. The file round trip asks it of every
    weight and bias it writes.
  - `Text.TallyRoundTrips` exhibits a format with both promises, for whole
    reals.
  - Lines and tokens are modelled concretely, as `StreamReader.ReadLine`
    (`\n`, `\r` and `\r\n` end a line) and `String.Split` cut them.
  - `WriteLine` ends a line with `Environment.NewLine`. That is a parameter
    `nl`, either "\n" or "\r\n" (`NewLine`). A matrix's `ToString` joins its
    rows with "\n" whatever `nl` is.
- Sizes are `int`, as in the source. A negative size fails the allocation
  with `NegativeSize`. A matrix with no rows keeps a negative column count,
  as `new Matrix(0, -1)` does.
- Float constants are the exact value of the `float` literal:
  - the accuracy threshold `0.05f` is 13421773 / 2^28;
  - the finite-difference step `0.0001f` is 13743895 / 2^37;
  - the default rate `0.2f` is 13421773 / 2^26.

The two copies of the vector, matrix, layer and cost classes
(`Math/Matrix.cs` and `Network/Struct/Matrix.cs`, `API/Layer.cs` and
`Network/Struct/Layer.cs`, `CostParser.cs` and `Utility.cs`) agree over the
reals. Each is modelled once, and the table cites whichever copy reads best.

Behaviour that the code has, and that the model keeps:

- `Layer.Forward` stores the input in `lastInput` before the product can
  throw, so a failed forward pass still replaces the cache.
- An unknown activation tag throws only when a neuron is activated. A layer
  with no outputs never throws for it.
- `Learn` computes the delta handed to the layer below from the current
  layer's derivative, applied to that layer's cached input.
- Loading a weight line with fewer numbers than `nodesIn` keeps the random
  values the matrix was created with. A longer line throws.
- A network whose layer has no inputs or no outputs writes an empty line,
  and that line does not read back as the same layer.
- The float engine's training mutates the network in place. When an
  exception ends it, the examples and epochs already learned stay learned,
  and the model returns that network next to the error.
- The float engine measures a bias gradient inside the weight loop. A layer
  with no inputs therefore never measures it, and its bias gradient stays 0.

## Model

| member | source | states |
|---|---|---|
| Rng.Draws | Neural-Network/Scripts/Network/Struct/Vector.cs:22-28 | draws `NextDouble() * 2 - 1` for each entry, and each lies in [-1, 1) whenever the random source yields [0, 1) |
| Vectors.FromValues | Neural-Network/Scripts/Network/Struct/Vector.cs:13-21 | building from an initial array succeeds exactly when the size matches its length, and keeps the array; otherwise it is a size error |
| Vectors.Random | Neural-Network/Scripts/Network/Struct/Vector.cs:13-29 | a negative size fails; otherwise the vector has the requested size with every entry in [-1, 1) for a unit source, and consumes exactly `size` draws |
| Vectors.Get | Neural-Network/Scripts/Network/Struct/Vector.cs:35-41 | reading succeeds exactly for an index inside the vector and gives that entry; any other index is out of range |
| Vectors.Set | Neural-Network/Scripts/Network/Struct/Vector.cs:42-48 | writing succeeds exactly for an index inside the vector; it changes that entry only |
| Vectors.Add | Neural-Network/Scripts/Network/Struct/Vector.cs:52-63 | addition is defined exactly on equal lengths and adds entry by entry; unequal lengths are a size error |
| Vectors.Sub | Neural-Network/Scripts/Network/Struct/Vector.cs:66-68 | subtraction `a + b * -1` is defined exactly on equal lengths and subtracts entry by entry |
| Vectors.Scale | Neural-Network/Scripts/Network/Struct/Vector.cs:85-96 | scaling keeps the length and multiplies every entry by the factor |
| Vectors.Div | Neural-Network/Scripts/Network/Struct/Vector.cs:99-101 | division by a non-zero scalar keeps the length and divides every entry |
| Vectors.Hadamard | Neural-Network/Scripts/Framework/Network.cs:104-107 | the product of an error and a derivative of equal lengths multiplies them entry by entry |
| Vectors.Dot | Neural-Network/Scripts/Network/Struct/Vector.cs:71-82 | the dot product is defined exactly on equal lengths; unequal lengths are a size error |
| Vectors.DotProduct | Neural-Network/Scripts/Network/Struct/Vector.cs:71-82 | the accumulating loop computes the dot product, error included |
| Vectors.SumProductsSymmetric | Neural-Network/Scripts/Network/Struct/Vector.cs:76-81 | every partial sum of products is the same with the operands swapped |
| Vectors.DotSymmetric | Neural-Network/Scripts/Network/Struct/Vector.cs:71-82 | `a * b` equals `b * a`, failure included |
| Vectors.SumProductsScale | Neural-Network/Scripts/Network/Struct/Vector.cs:76-92 | scaling one operand scales every partial sum of products by the same factor |
| Vectors.DotScale | Neural-Network/Scripts/Network/Struct/Vector.cs:71-92 | the dot product is linear in a scaled operand |
| Vectors.SubThenAdd | Neural-Network/Scripts/Network/Struct/Vector.cs:52-68 | subtracting a vector and adding it back gives the original |
| Vectors.AddCommutes | Neural-Network/Scripts/Network/Struct/Vector.cs:52-63 | addition is commutative, failure included |
| Vectors.ScaleLaws | Neural-Network/Scripts/Network/Struct/Vector.cs:85-96 | scaling by one changes nothing, and two scalings are one by the product |
| Vectors.ShowTokens | Neural-Network/Scripts/Network/Struct/Vector.cs:103-110 | when every entry prints exactly, a vector's text (`Vectors.Show`, the entries joined by single spaces) is one line whose space-separated tokens parse back to its entries |
| Matrices.RandomRows | Neural-Network/Scripts/Math/Matrix.cs:26-32 | `row` random rows of `column` entries, each in [-1, 1) for a unit source; the first row fails on a negative column count |
| Matrices.Random | Neural-Network/Scripts/Math/Matrix.cs:11-32 | a negative row count fails, and so does a negative column count when there are rows; otherwise the matrix is valid, has the requested shape and entries in [-1, 1) for a unit source |
| Matrices.FromRows | Neural-Network/Scripts/Math/Matrix.cs:11-25 | building from rows succeeds exactly when there are `row` rows of `column` entries each, and keeps them; no rows accept any column count |
| Matrices.GetRow | Neural-Network/Scripts/Math/Matrix.cs:38-43 | reading a row succeeds exactly for an index below the row count, and the row has `column` entries |
| Matrices.SetRow | Neural-Network/Scripts/Math/Matrix.cs:44-51 | a bad index is out of range and a wrong-size row is a size error, in that order; otherwise only that row changes |
| Matrices.Add | Neural-Network/Scripts/Math/Matrix.cs:55-66 | addition is defined exactly on equal shapes and adds entry by entry |
| Matrices.Sub | Neural-Network/Scripts/Math/Matrix.cs:69-71 | subtraction is defined exactly on equal shapes and subtracts entry by entry |
| Matrices.Scale | Neural-Network/Scripts/Math/Matrix.cs:88-99 | scaling keeps the shape and multiplies every entry |
| Matrices.Div | Neural-Network/Scripts/Math/Matrix.cs:102-104 | division by a non-zero scalar keeps the shape and divides every entry |
| Matrices.MatVec | Neural-Network/Scripts/Math/Matrix.cs:74-85 | the product is defined exactly when the column count is the vector's length; entry `i` is row `i` dotted with the vector |
| Matrices.Transpose | Neural-Network/Scripts/Math/Matrix.cs:107-116 | the transpose fails on a negative column count; otherwise it swaps the shape and puts entry `(i, j)` at `(j, i)` |
| Matrices.TransposeTwice | Neural-Network/Scripts/Math/Matrix.cs:107-116 | transposing twice gives the original matrix whenever the first transpose succeeds |
| Matrices.SubThenAdd | Neural-Network/Scripts/Math/Matrix.cs:55-71 | subtracting a matrix and adding it back gives the original |
| Matrices.ShowLines | Neural-Network/Scripts/Math/Matrix.cs:118-125 | a matrix's text (`Matrices.Show`, the rows' texts joined by "\n") written with either terminator reads back as its rows, one per line, and an empty matrix as one empty line |
| Activations.Activate | Neural-Network/Scripts/API/Layer.cs:60-75 | exactly the three tags activate; sigmoid lies in (0, 1), tanh in (-1, 1), relu is at least 0 and at least the input; other tags are unknown |
| Activations.Derivative | Neural-Network/Scripts/API/Layer.cs:88-99 | the derivative is defined exactly for the three tags; other tags are unknown |
| Activations.ReluDerivativeOnActivated | Neural-Network/Scripts/API/Layer.cs:60-99 | on a relu output the derivative is 1 for a positive input and 0 otherwise |
| Activations.SigmoidDerivativeOnActivated | Neural-Network/Scripts/API/Layer.cs:60-99 | on a sigmoid output the derivative lies in (0, 1/4] |
| Activations.TanhDerivativeOnActivated | Neural-Network/Scripts/API/Layer.cs:60-99 | on a tanh output the derivative lies in (0, 1] |
| Costs.HalfSquareSign | Neural-Network/Scripts/Network/Helpers/CostParser.cs:11 | each term `Costs.HalfSquare` of the cost, `e * e * 0.5`, is non-negative and zero exactly for a zero error |
| Costs.HalfSquareOfOpposite | Neural-Network/Scripts/Network/Helpers/CostParser.cs:11 | a term is the same for an error and its opposite |
| Costs.Cost | Neural-Network/Scripts/Network/Helpers/CostParser.cs:7-15 | the cost of an error vector is never negative |
| Costs.CostZero | Neural-Network/Scripts/Network/Helpers/CostParser.cs:7-15 | the cost is zero exactly when every error is zero |
| Costs.CostOfOpposite | Neural-Network/Scripts/Network/Helpers/CostParser.cs:7-19 | opposite error vectors cost the same |
| Costs.PairCost | Neural-Network/Scripts/Network/Helpers/CostParser.cs:17-19 | the cost of a target against an output is defined exactly on equal lengths, non-negative, and zero exactly when they are equal |
| Costs.PairCostSymmetric | Neural-Network/Scripts/Network/Helpers/CostParser.cs:17-19 | swapping target and output does not change the cost |
| Costs.SumCosts | Neural-Network/Scripts/Network/Helpers/CostParser.cs:22-27 | the running sum succeeds exactly when every pair so far exists with equal lengths, and is non-negative; with no outputs a non-empty sum throws `IndexOutOfRange` at the first read |
| Costs.BatchCost | Neural-Network/Scripts/Network/Helpers/CostParser.cs:22-29 | the batch cost succeeds exactly when there is an output of the right length for every target, and is non-negative; with no outputs it throws `IndexOutOfRange` |
| Costs.SumCostsPrefix | Neural-Network/Scripts/Network/Helpers/CostParser.cs:22-27 | outputs past the ones read do not change the running sum |
| Costs.BatchCostIgnoresExtraOutputs | Neural-Network/Scripts/Network/Helpers/CostParser.cs:22-29 | outputs beyond the targets' count do not change the batch cost |
| Costs.SumCostsMatching | Neural-Network/Scripts/Network/Helpers/CostParser.cs:22-27 | targets matched by themselves sum to zero |
| Costs.BatchCostOfExactOutputs | Neural-Network/Scripts/Network/Utils/Utility.cs:19-26 | a batch predicted exactly costs zero |
| Costs.BatchCostOfOne | Neural-Network/Scripts/Network/Utils/Utility.cs:19-26 | a batch of one costs what its single pair costs |
| Layers.Random | Neural-Network/Scripts/API/Layer.cs:14-23 | a negative size fails; otherwise the layer has the requested sizes and tag, consistent shapes and a cache of `nodesIn` entries |
| Layers.FromParts | Neural-Network/Scripts/API/Layer.cs:25-34 | a negative input size fails the cache; otherwise the parts are kept unchecked, a negative output size included, and `nodesIn` random entries are cached |
| Layers.ActivateAll | Neural-Network/Scripts/API/Layer.cs:51-58 | activating a vector fails only for an unknown tag on a non-empty vector; otherwise every entry is activated |
| Layers.Forward | Neural-Network/Scripts/API/Layer.cs:46-49 | the input is cached even when the pass throws; the pass succeeds exactly when the shapes fit and the tag is known, and gives `nodesOut` values |
| Layers.ForwardIgnoresCache | Neural-Network/Scripts/API/Layer.cs:46-49 | what a layer outputs does not depend on its old cache |
| Layers.DerivativeAll | Neural-Network/Scripts/API/Layer.cs:79-86 | differentiating a vector fails only for an unknown tag on a non-empty vector; otherwise every entry is differentiated |
| Layers.ApplyGradient | Neural-Network/Scripts/API/Layer.cs:103-106 | the weights move by `-rate` times the weight gradient when the shapes match, then the biases likewise; a mismatch stops with a size error after what already happened |
| Layers.ZeroRateKeepsParameters | Neural-Network/Scripts/API/Layer.cs:103-106 | a step with rate zero leaves the layer unchanged |
| Networks.CreateLayers | Neural-Network/Scripts/Framework/Network.cs:9-16 | the layers fail on the first negative size; otherwise one sigmoid layer per size, each reading what the previous one writes |
| Networks.Create | Neural-Network/Scripts/Framework/Network.cs:9-16 | a negative size anywhere fails; otherwise the network has one layer per hidden size plus the output layer, chained from `input` to `output` |
| Networks.ForwardAll | Neural-Network/Scripts/Framework/Network.cs:63-70 | the pass changes only caches; on a chained network it succeeds exactly when the input fits and every tag in use is known, and then fills every cache and outputs `nodesOut` of the last layer |
| Networks.Forward | Neural-Network/Scripts/Framework/Network.cs:63-70 | the forward pass changes no weight, bias or tag |
| Networks.ForwardCaches | Neural-Network/Scripts/Framework/Network.cs:63-70 | after a successful pass each layer's cache is what the layer before it output, and the last layer outputs the result |
| Networks.ForwardIgnoresCaches | Neural-Network/Scripts/Framework/Network.cs:63-70 | the output of a pass does not depend on the old caches |
| Networks.LayerGradient | Neural-Network/Scripts/Framework/Network.cs:90-98 | a negative output size fails the allocation; otherwise the gradient loop succeeds exactly when the delta and the cache are long enough; the bias gradient is the delta and the weight gradient its outer product with the cache |
| Networks.Propagate | Neural-Network/Scripts/Framework/Network.cs:100-107 | the delta for the layer below is the transposed weights times the delta, times the derivative of the cached input, entry by entry; each failure is the exception the code throws first |
| Networks.Backward | Neural-Network/Scripts/Framework/Network.cs:87-108 | the backward loop yields one gradient of the right shape per layer |
| Networks.BackwardChain | Neural-Network/Scripts/Framework/Network.cs:87-108 | on a chained network with filled caches the backward loop succeeds, starts from the output delta, and hands each layer's propagated delta to the layer below |
| Networks.Gradients | Neural-Network/Scripts/Framework/Network.cs:72-108 | an output and a target of different lengths are a size error; otherwise there is one gradient per layer |
| Networks.DeltaEntries | Neural-Network/Scripts/Framework/Network.cs:78-82 | the output delta is the output error times the last layer's derivative at the output, entry by entry |
| Networks.OutputDelta | Neural-Network/Scripts/Framework/Network.cs:78-85 | in a chained network with filled caches the backward pass succeeds and the last layer's bias gradient is the output delta |
| Networks.Backprop | Neural-Network/Scripts/Framework/Network.cs:74-113 | after the forward pass, learning changes at most weights and biases of the same shapes, fails on an empty network, and on success moves every layer one descent step along the gradients of the layers as the forward pass left them |
| Networks.ApplyAll | Neural-Network/Scripts/Framework/Network.cs:110-113 | applying every layer's gradient succeeds exactly when all fit; then every layer takes one descent step, and nothing else changes |
| Networks.Learn | Neural-Network/Scripts/Framework/Network.cs:72-114 | learning keeps sizes and tags and leaves the caches of the forward pass; when it succeeds every layer has taken one descent step along the back-propagated gradient |
| Networks.LearnOutcome | Neural-Network/Scripts/Framework/Network.cs:72-114 | on a well-formed network with known tags, learning succeeds exactly when the input and the target have the network's sizes |
| Networks.ApplyAllAtZeroRate | Neural-Network/Scripts/Framework/Network.cs:110-113 | updating every layer with rate zero and gradients of the right shapes succeeds and leaves every layer as it was |
| Networks.LearnAtZeroRate | Neural-Network/Scripts/Framework/Network.cs:72-114 | learning with rate zero only fills the caches, as a forward pass does |
| Networks.CountFrom | Neural-Network/Scripts/Framework/Network.cs:142-152 | the correct-count loop changes only caches and counts at most the examples it visits |
| Networks.CountFromHits | Neural-Network/Scripts/Framework/Network.cs:142-152 | the count is the number of examples whose cost stays below `0.05f` |
| Networks.HitsIgnoreCaches | Neural-Network/Scripts/Framework/Network.cs:142-152 | the number of hits does not depend on the caches |
| Networks.CountFromOutcome | Neural-Network/Scripts/Framework/Network.cs:142-152 | the count succeeds exactly when every input and target has the network's sizes |
| Networks.Assess | Neural-Network/Scripts/Framework/Network.cs:126-131 | an epoch's figures after learning, the batch cost of all predictions and then the accuracy, move only caches, and a report has a non-negative cost and an accuracy in [0, 1]; with no inputs the batch cost throws `IndexOutOfRange` |
| Networks.Accuracy | Neural-Network/Scripts/Framework/Network.cs:141-155 | the accuracy is the number of hits over the number of examples, a fraction in [0, 1] |
| Networks.AccuracyOutcome | Neural-Network/Scripts/Framework/Network.cs:141-155 | the accuracy succeeds exactly when every input and target has the network's sizes |
| Networks.LearnFrom | Neural-Network/Scripts/Framework/Network.cs:122-124 | the example loop keeps sizes and tags, and when it succeeds every example had a target |
| Networks.Predict | Neural-Network/Scripts/Framework/Network.cs:157-159 | `Predict` is `Forward`, with no contract of its own: what `Networks.Forward` and `Networks.ForwardAll` state holds of it |
| Networks.PredictFrom | Neural-Network/Scripts/Framework/Network.cs:126 | predicting every input changes only caches and gives one output per input |
| Networks.PredictFromOutputs | Neural-Network/Scripts/Framework/Network.cs:126 | each prediction is what a forward pass gives for that input |
| Networks.Epoch | Neural-Network/Scripts/Framework/Network.cs:121-132 | an epoch keeps sizes and tags, and reports a non-negative cost and an accuracy in [0, 1]; with targets but no inputs it throws `IndexOutOfRange` and changes nothing |
| Networks.Epochs | Neural-Network/Scripts/Framework/Network.cs:121-132 | the epoch loop reports once per epoch, every report in range; with rate zero the parameters stay; with targets but no inputs the first epoch throws `IndexOutOfRange` |
| Networks.Train | Neural-Network/Scripts/Framework/Network.cs:117-135 | training keeps sizes and tags, reports once per epoch (none for a count below one), and ends with an accuracy in [0, 1]; with no inputs the first epoch throws `IndexOutOfRange` and the network is unchanged |
| Networks.TrainWithoutEpochs | Neural-Network/Scripts/Framework/Network.cs:117-135 | training for no epochs only measures the final accuracy |
| Networks.LearnFromAtZeroRate | Neural-Network/Scripts/Framework/Network.cs:122-124 | the example loop at rate zero changes no weight, bias or tag |
| Networks.EpochAtZeroRate | Neural-Network/Scripts/Framework/Network.cs:121-132 | an epoch at rate zero changes no weight, bias or tag |
| Networks.TrainAtZeroRate | Neural-Network/Scripts/Framework/Network.cs:117-135 | training at rate zero changes no weight, bias or tag |
| Text.Split | Neural-Network/Scripts/Framework/Network.cs:26 | splitting a line always gives at least one token |
| Text.SplitJoin | Neural-Network/Scripts/Framework/Network.cs:26-30 | splitting tokens joined by a separator they do not contain gives the tokens back |
| Text.ReadWriteLines | Neural-Network/Scripts/Framework/Network.cs:19-24 | reading back lines written one per line with either terminator gives the lines, when none contains a line break |
| Text.ReadWrittenLines | Neural-Network/Scripts/Framework/Network.cs:19-24 | lines written with either terminator and followed by any text read back as those lines first |
| Text.ReadJoinedLines | Neural-Network/Scripts/Math/Matrix.cs:118-125 | lines joined by "\n" and ended by either terminator read back as those lines |
| Persistence.Sizes | Neural-Network/Scripts/Framework/Network.cs:164-169 | the sizes line has one entry more than the layers: every layer's output size, after the first layer's input size |
| Persistence.Save | Neural-Network/Scripts/Framework/Network.cs:161-177 | saving succeeds exactly for a network with layers; an empty one writes its count line and then fails |
| Persistence.SaveText | Neural-Network/Scripts/Framework/Network.cs:161-177 | the file is the two header lines followed by every layer's text |
| Persistence.HeaderLines | Neural-Network/Scripts/Framework/Network.cs:163-169 | with integers that round-trip, the header lines read back as the layer count and the size list |
| Persistence.LayerTextLines | Neural-Network/Scripts/Framework/Network.cs:171-175 | the three lines `Persistence.LayerText` writes for a layer (weights, biases, tag, each ended by the terminator): a layer with outputs whose numbers print exactly reads back as its weight rows, its bias line and its tag, one per line, with either terminator |
| Persistence.LayerTextsLines | Neural-Network/Scripts/Framework/Network.cs:171-175 | every layer's text together reads back as the lines of all layers |
| Persistence.ParseInts | Neural-Network/Scripts/Framework/Network.cs:26-30 | the size list parses exactly when every token is an integer, giving one size per token |
| Persistence.FillRow | Neural-Network/Scripts/Framework/Network.cs:42-45 | a weight line fills the row from the left; too many tokens are out of range and a bad token is a number error; the rest of the row stays |
| Persistence.ReadRows | Neural-Network/Scripts/Framework/Network.cs:39-46 | the weight lines read exactly when each line fills its row, in order |
| Persistence.ReadBiases | Neural-Network/Scripts/Framework/Network.cs:48-53 | the bias line reads exactly when it has at least `nodesOut` tokens that all parse |
| Persistence.LoadLayer | Neural-Network/Scripts/Framework/Network.cs:33-58 | a negative output size fails, and so does a negative input size; a layer read has the listed sizes, the bias line and the tag line read, and the lines after its own are left |
| Persistence.LoadLayers | Neural-Network/Scripts/Framework/Network.cs:32-59 | the layer loop loads as many layers as the count says, sized by the size list |
| Persistence.Load | Neural-Network/Scripts/Framework/Network.cs:18-61 | a missing count line or sizes line is reported as such; a loaded network is well formed and has as many layers as its count |
| Persistence.FillRowShown | Neural-Network/Scripts/Framework/Network.cs:39-46 | a written row whose entries print exactly reads back as itself |
| Persistence.ReadRowsShown | Neural-Network/Scripts/Framework/Network.cs:39-46 | a written weight matrix whose entries print exactly reads back as itself |
| Persistence.ReadBiasesShown | Neural-Network/Scripts/Framework/Network.cs:48-53 | a written bias line whose entries print exactly reads back as the biases |
| Persistence.LoadLayerShown | Neural-Network/Scripts/Framework/Network.cs:33-58 | a written layer loads back as itself, up to the cache, and leaves what follows |
| Persistence.LoadLayersStep | Neural-Network/Scripts/Framework/Network.cs:32-59 | loading the layers is loading the first and then the rest from where it stopped |
| Persistence.LoadLayersShown | Neural-Network/Scripts/Framework/Network.cs:32-59 | written layers load back with the same parameters |
| Persistence.SaveLoad | Neural-Network/Scripts/Framework/Network.cs:18-177 | with either terminator, integers that round-trip, and weights and biases that print exactly, saving a network without empty layers and loading the file gives back every weight, bias and tag |
| Persistence.OutputlessText | Neural-Network/Scripts/Framework/Network.cs:171-175 | a layer without outputs is written as two empty lines and its tag |
| Persistence.SaveLoadWithoutInputs | Neural-Network/Scripts/Framework/Network.cs:161-177 | a layer without inputs writes empty weight lines, and the file does not load |
| Persistence.SaveLoadWithoutOutputs | Neural-Network/Scripts/Framework/Network.cs:161-177 | a layer without outputs writes an empty line that loads back as its tag, so the tag is lost |
| DataParser.Write | Neural-Network/Scripts/Utility/DataParser.cs:22-34 | one column's `try`/`catch` changes at most the slot it is at and keeps the size; the slot advances exactly when something was stored; it fails only with a label map and a text that is not a number or has no slot, with `MissingKey` exactly for a text missing from the map and otherwise an out-of-range slot |
| DataParser.Columns | Neural-Network/Scripts/Utility/DataParser.cs:20-36 | the column loop keeps both vectors' sizes, never moves either slot index back, keeps every entry before the starting slots, and can fail only with a label map |
| DataParser.Cell | Neural-Network/Scripts/Utility/DataParser.cs:22-34 | a cell gives its number, or else the label map's value, or nothing without a map; a missing key fails |
| DataParser.ColumnsFromReached | Neural-Network/Scripts/Utility/DataParser.cs:18-36 | the column loop succeeds exactly when the cells fit the evidence and label vectors, which it fills from the left with the parsed cells |
| DataParser.Fill | Neural-Network/Scripts/Utility/DataParser.cs:15-36 | what the column loop leaves in a fresh vector: the first slots hold the values written, as far as the vector reaches, and every later slot keeps its initial value |
| DataParser.ParseLine | Neural-Network/Scripts/Utility/DataParser.cs:13-39 | a line parses exactly when its cells fit; fewer cells than label indices is a negative size; the row holds the parsed cells |
| DataParser.ParseRows | Neural-Network/Scripts/Utility/DataParser.cs:13-40 | the rows parse exactly when every line fits, one evidence and one label vector per line |
| DataParser.DataLinesFit | Neural-Network/Scripts/Utility/DataParser.cs:8 | the data lines are the file's lines after the header |
| DataParser.ParseData | Neural-Network/Scripts/Utility/DataParser.cs:7-43 | parsing succeeds exactly when every line after the header fits, giving one row per such line |
| DataParser.Wrap32 | Neural-Network/Scripts/Utility/DataParser.cs:55 | unchecked `int` arithmetic: the result is a 32-bit `int` equal to the exact value modulo 2^32, and the exact value itself whenever it fits |
| DataParser.Linearize | Neural-Network/Scripts/Utility/DataParser.cs:52-59 | scaling keeps the length, and scaling back by the 32-bit difference gives the input |
| DataParser.LinearizeInUnit | Neural-Network/Scripts/Utility/DataParser.cs:52-59 | values in [min, max] land in [0, 1] when the difference fits an `int` |
| DataParser.LinearizeWraps | Neural-Network/Scripts/Utility/DataParser.cs:55 | with bounds -1 and 2147483647 the difference wraps and 1 scales to a negative value |
| DataParser.LinearizeExact | Neural-Network/Scripts/Utility/DataParser.cs:52-59 | scaling by the exact difference keeps the length, and scaling back gives the input |
| DataParser.LinearizeExactInUnit | Neural-Network/Scripts/Utility/DataParser.cs:52-59 | with the exact difference, values in [min, max] land in [0, 1] for all `int` bounds |
| DataParser.LinearizeExactAgrees | Neural-Network/Scripts/Utility/DataParser.cs:52-59 | the code and the exact scaling agree whenever the difference fits an `int` |
| DataParser.LinearizeAll | Neural-Network/Scripts/Utility/DataParser.cs:46-50 | every vector is scaled, and scaling back gives the data |
| DataParser.Truncate | Neural-Network/Scripts/Utility/DataParser.cs:97 | the `(int)` cast rounds toward zero |
| DataParser.RemoveAt | Neural-Network/Scripts/Utility/DataParser.cs:111 | removing an index takes exactly that element out of the multiset |
| DataParser.Order | Neural-Network/Scripts/Utility/DataParser.cs:105-119 | the order the picks draw is a permutation of the items |
| DataParser.OrderUsesEveryIndexOnce | Neural-Network/Scripts/Utility/DataParser.cs:106-119 | every index of the data is drawn exactly once |
| DataParser.OrderCovers | Neural-Network/Scripts/Utility/DataParser.cs:106-119 | every index of the data appears in the drawn order |
| DataParser.OrderImage | Neural-Network/Scripts/Utility/DataParser.cs:107-119 | drawing indices and then looking them up is drawing the looked-up items |
| DataParser.Deal | Neural-Network/Scripts/Utility/DataParser.cs:100-119 | the split has `trainLength` training pairs and the rest as test pairs |
| DataParser.DealImage | Neural-Network/Scripts/Utility/DataParser.cs:107-119 | read as pairs, training set first, the dealt arrays are the evidence-label pairs the drawn indices select, in order |
| DataParser.DealPairs | Neural-Network/Scripts/Utility/DataParser.cs:107-119 | the training pairs then the test pairs are the evidence-label pairs in the drawn order |
| DataParser.MissingLabelFound | Neural-Network/Scripts/Utility/DataParser.cs:109-110 | the draw reaches an index beyond `m` exactly when there are more than `m` examples |
| DataParser.TrainTestSplit | Neural-Network/Scripts/Utility/DataParser.cs:96-122 | the split succeeds exactly when the truncated train length lies in range and every example has a label; the two parts together are a permutation of the pairs |
| DataParser.OneHot | Neural-Network/Scripts/Utility/DataParser.cs:132-139 | encoding succeeds exactly for no classes, or for a non-empty label; the result has one 0-or-1 entry per class |
| DataParser.OneHotDecodes | Neural-Network/Scripts/Utility/DataParser.cs:132-139 | a label that is a class index encodes to a single one at that index; any other label encodes to all zeros |
| DataParser.OneHotRoundTrip | Neural-Network/Scripts/Utility/DataParser.cs:125-139 | decoding the encoding of class `k` gives `k` |
| DataParser.OneHotFrom | Neural-Network/Scripts/Utility/DataParser.cs:127-129 | the in-place loop from entry `i` succeeds exactly when every entry from `i` on can be encoded, keeps the length and leaves the entries before `i` alone |
| DataParser.OneHotFromEntry | Neural-Network/Scripts/Utility/DataParser.cs:127-129 | an entry ends encoded exactly when it and every entry before it from `i` on can be encoded, and keeps its value otherwise: the first failure stops the loop |
| DataParser.OneHotFromEntries | Neural-Network/Scripts/Utility/DataParser.cs:127-129 | the same, for every entry at once |
| DataParser.OneHotAll | Neural-Network/Scripts/Utility/DataParser.cs:126-130 | encoding all labels succeeds exactly when each can be encoded, and then every label is encoded |
| FloatLayers.DrawRows | Neural-Network/Scripts/Network/Layer.cs:18-24 | each row takes `inputSize` weights and then one bias from the random source, each `NextDouble() * 2 - 1` |
| FloatLayers.Construct | Neural-Network/Scripts/Network/Layer.cs:9-27 | a layer is built exactly for non-negative sizes, with its weights and biases drawn row by row, consuming `outputSize * (inputSize + 1)` draws |
| FloatLayers.ConstructInUnitRange | Neural-Network/Scripts/Network/Layer.cs:18-24 | from a unit source every weight and bias lies in [-1, 1) |
| FloatLayers.AdjustWeight | Neural-Network/Scripts/Network/Layer.cs:32-36 | adjusting a weight succeeds exactly for an index inside the matrix, returns the old weight, and changes that weight only |
| FloatLayers.AdjustBias | Neural-Network/Scripts/Network/Layer.cs:38-42 | adjusting a bias succeeds exactly for an index inside the vector, returns the old bias, and changes that bias only |
| FloatLayers.AdjustWeightUndone | Neural-Network/Scripts/Network/Layer.cs:32-36 | a nudge followed by the opposite nudge restores the layer |
| FloatLayers.AdjustBiasUndone | Neural-Network/Scripts/Network/Layer.cs:38-42 | a bias nudge followed by the opposite nudge restores the layer |
| FloatLayers.Activation | Neural-Network/Scripts/Network/Layer.cs:59-72 | four tags activate, "hyperbolic tangent" as tanh; the ranges are those of the vector engine |
| FloatLayers.ActivationAgrees | Neural-Network/Scripts/Network/Layer.cs:59-72 | the float layer activates as the vector layer does for the same function |
| FloatLayers.ActivationDerivative | Neural-Network/Scripts/Network/Layer.cs:74-87 | the derivative is defined exactly for the four tags |
| FloatLayers.ActivationDerivativeAgrees | Neural-Network/Scripts/Network/Layer.cs:74-87 | differentiating at an input is the vector engine's derivative at the activated value |
| FloatLayers.FeedForward | Neural-Network/Scripts/Network/Layer.cs:44-57 | a layer with outputs needs at least `inputSize` inputs and a known tag; the output has `outputSize` values |
| FloatLayers.FeedForwardReadsPrefix | Neural-Network/Scripts/Network/Layer.cs:44-57 | inputs past `inputSize` are never read |
| FloatLayers.FeedForwardAgrees | Neural-Network/Scripts/Network/Layer.cs:44-57 | on an input of the right size the float layer outputs what the vector layer outputs |
| FloatNetworks.ConstructFrom | Neural-Network/Scripts/Network/Network.cs:8-17 | the layers from hidden size `k` on are built exactly for non-negative sizes, chained, relu inside and sigmoid last |
| FloatNetworks.Construct | Neural-Network/Scripts/Network/Network.cs:8-17 | a network has one relu layer per hidden size and a sigmoid output layer, chained from the input size to the output size |
| FloatNetworks.FeedForwardAll | Neural-Network/Scripts/Network/Network.cs:19-27 | the pass over the layers, which the network's `FloatNetworks.FeedForward` runs on all its layers: no layers give the input back; a chained network with known tags succeeds exactly when the first layer gets enough inputs |
| FloatNetworks.FeedForwardSplits | Neural-Network/Scripts/Network/Network.cs:19-27 | feeding through two stacks of layers is feeding through the first and then the second |
| FloatNetworks.SumSquares | Neural-Network/Scripts/Network/Network.cs:29-36 | the sum of squared differences is never negative |
| FloatNetworks.SumSquaresZero | Neural-Network/Scripts/Network/Network.cs:29-36 | the sum is zero exactly when output and target agree on the entries summed |
| FloatNetworks.CalculateCost | Neural-Network/Scripts/Network/Network.cs:29-36 | the cost needs a target at least as long as the output; it is non-negative and zero exactly when the output matches the target's prefix |
| FloatNetworks.SumSquaresIsTwiceCost | Neural-Network/Scripts/Network/Network.cs:29-36 | the squared sum is twice the vector engine's half-square cost |
| FloatNetworks.CalculateCostIsTwicePairCost | Neural-Network/Scripts/Network/Network.cs:29-36 | on equal lengths the float cost is twice the vector engine's pair cost |
| FloatNetworks.Loss | Neural-Network/Scripts/Network/Network.cs:39-40 | the cost of an example is never negative |
| FloatNetworks.FeedForwardShapeOnly | Neural-Network/Scripts/Network/Network.cs:19-27 | whether feeding forward succeeds, and the output size, depend on sizes and tags only |
| FloatNetworks.LossShapeOnly | Neural-Network/Scripts/Network/Network.cs:39-40 | whether an example can be costed depends on sizes and tags only |
| FloatNetworks.WithWeight | Neural-Network/Scripts/Network/Network.cs:51 | nudging one weight keeps every size and tag |
| FloatNetworks.WithBias | Neural-Network/Scripts/Network/Network.cs:59 | nudging one bias keeps every size and tag |
| FloatNetworks.WeightGradients | Neural-Network/Scripts/Network/Network.cs:46-57 | there is one measured slope per weight of the layer |
| FloatNetworks.BiasGradients | Neural-Network/Scripts/Network/Network.cs:47-65 | there is one measured slope per bias of the layer |
| FloatNetworks.DescendWeights | Neural-Network/Scripts/Network/Network.cs:73-79 | a descent step keeps the weight matrix's shape |
| FloatNetworks.DescendBiases | Neural-Network/Scripts/Network/Network.cs:81-85 | a descent step keeps the bias count |
| FloatNetworks.Updated | Neural-Network/Scripts/Network/Network.cs:73-85 | a layer after both descent steps keeps its sizes and tag |
| FloatNetworks.Learned | Neural-Network/Scripts/Network/Network.cs:38-86 | learning succeeds exactly when the example can be costed, fails with the cost's error otherwise, and keeps sizes and tags |
| FloatNetworks.LearnedAtZeroRate | Neural-Network/Scripts/Network/Network.cs:38-86 | learning with rate zero changes nothing |
| FloatNetworks.MeasuresGradients | Neural-Network/Scripts/Network/Network.cs:45-71 | slopes measured as the loops do are the layer's gradients |
| FloatNetworks.MeasureWeight | Neural-Network/Scripts/Network/Network.cs:50-57 | nudging a weight, costing and undoing gives the weight's slope and restores the network |
| FloatNetworks.MeasureBias | Neural-Network/Scripts/Network/Network.cs:59-65 | nudging a bias, costing and undoing gives the bias's slope and restores the network |
| FloatNetworks.MeasureRow | Neural-Network/Scripts/Network/Network.cs:48-66 | the inner loop measures every weight slope of the row and the bias gradient, and restores the network |
| FloatNetworks.MeasureLayer | Neural-Network/Scripts/Network/Network.cs:45-71 | the loops of one layer measure its gradients and restore the network |
| FloatNetworks.MeasureAll | Neural-Network/Scripts/Network/Network.cs:45-71 | the gradient lists hold one entry per layer, last layer first, each the measured gradients, and the network is restored |
| FloatNetworks.ApplyWeights | Neural-Network/Scripts/Network/Network.cs:74-78 | adjusting every weight by `-rate` times its gradient is one descent step on the weights and changes nothing else |
| FloatNetworks.ApplyBiases | Neural-Network/Scripts/Network/Network.cs:82-84 | adjusting every bias by `-rate` times its gradient is one descent step on the biases and changes nothing else |
| FloatNetworks.UpdateLayerWeights | Neural-Network/Scripts/Network/Network.cs:74-78 | the weight loops of one layer give the layer's updated weights |
| FloatNetworks.UpdateLayerBiases | Neural-Network/Scripts/Network/Network.cs:82-84 | the bias loop after the weight loops gives the fully updated layer |
| FloatNetworks.UpdateAllWeights | Neural-Network/Scripts/Network/Network.cs:73-79 | the weight loops over all layers leave every layer with updated weights and its old biases |
| FloatNetworks.UpdateAllBiases | Neural-Network/Scripts/Network/Network.cs:81-85 | the bias loops then leave every layer fully updated |
| FloatNetworks.Learn | Neural-Network/Scripts/Network/Network.cs:38-86 | the method with its nudges and undoing computes the learned network, or the cost's failure |
| FloatTraining.CountFrom | Neural-Network/Scripts/Network/Network.cs:96-104 | the accuracy loop succeeds exactly when every example scores; a failure is some example's; the count reaches the total exactly when all hit and is zero exactly when none does |
| FloatTraining.CountIsHits | Neural-Network/Scripts/Network/Network.cs:96-104 | the count is the number of examples that score a hit |
| FloatTraining.Score | Neural-Network/Scripts/Network/Network.cs:98-103 | scoring one example succeeds only when it evaluates and has a non-empty target; it fails only when evaluation fails or a first output or target is missing; a hit needs a target of 0 or 1 |
| FloatTraining.Test | Neural-Network/Scripts/Network/Network.cs:111-137 | the test count is the number of hits, at most the number of examples |
| FloatTraining.LearnAllOk | Neural-Network/Scripts/Network/Network.cs:91-93 | an epoch of learning (`FloatTraining.LearnAll`, the walk of `Learn` over the examples) fails exactly when an example has no target or cannot be costed; what it leaves, failed or not, keeps sizes and tags |
| FloatTraining.LearnAllKeepsLearned | Neural-Network/Scripts/Network/Network.cs:91-93 | a failed epoch of learning leaves the network learning the examples before the failing one gives, and that example has no target or cannot be costed |
| FloatTraining.LearnAllAtZeroRate | Neural-Network/Scripts/Network/Network.cs:91-93 | an epoch of learning at rate zero leaves the network as it was, failed or not |
| FloatTraining.Epoch | Neural-Network/Scripts/Network/Network.cs:89-107 | an epoch keeps sizes and tags, leaves the learned network even when it fails, fails when learning fails, and its count is what testing the learned network gives |
| FloatTraining.Train | Neural-Network/Scripts/Network/Network.cs:88-109 | a count below one trains nothing; otherwise one count per epoch, each at most the number of examples; the network left, also after a failure, keeps sizes and tags |
| FloatTraining.TrainLastCountIsTest | Neural-Network/Scripts/Network/Network.cs:88-137 | the last epoch's count is what testing the trained network gives |
| FloatTraining.TrainComposes | Neural-Network/Scripts/Network/Network.cs:88-109 | training `a + b` epochs is training `a` and then `b` more, the counts following one another; a failure in the first `a` ends the whole with the network it left |
| FloatTraining.TrainAtZeroRate | Neural-Network/Scripts/Network/Network.cs:88-109 | training at rate zero leaves the network as it was even when it fails, and every epoch counts what testing it gives |
| Loops.Walk | Neural-Network/Scripts/Network/Network.cs:91-93 | a walk that succeeds has read a target for every input it visited, and one that fails stopped before the end of the inputs |
| Loops.WalkOk | Neural-Network/Scripts/Network/Network.cs:91-93 | the example loop succeeds exactly when every example has a target and its step can succeed, and the state it ends in, failed or not, keeps any invariant the step keeps |
| Loops.WalkFixed | Neural-Network/Scripts/Network/Network.cs:91-93 | a state every step leaves alone is the one the example loop ends in |
| Loops.Iterate | Neural-Network/Scripts/Network/Network.cs:89-107 | the epoch loop reports once per round |
| Loops.IterateComposes | Neural-Network/Scripts/Network/Network.cs:89-107 | `a + b` rounds are `a` rounds followed by `b` more |
| Loops.IterateKeeps | Neural-Network/Scripts/Network/Network.cs:89-107 | an invariant every round keeps holds of the state the loop ends in, failed or not, and so does any property every report has |
| Loops.IterateLast | Neural-Network/Scripts/Network/Network.cs:89-107 | what every round leaves, the last round leaves |
| Loops.WalkStops | Neural-Network/Scripts/Network/Network.cs:91-93 | a failed example loop ends in the state a successful loop over the examples before the failing one ends in, and that example has no target or a failing step |

## Findings

| source | as written | input that shows it | evidently intended | confidence | as-written member | corrected member |
|---|---|---|---|---|---|---|
| Neural-Network/Scripts/Utility/DataParser.cs:55 | `maxValue - minValue` is an `int` subtraction, which wraps when the difference exceeds `int.MaxValue` | `Linearize([1.0], -1, 2147483647)` divides 2 by -2147483648 and gives a negative value | the exact difference, so that values in [min, max] land in [0, 1] | low, not executed | DataParser.LinearizeWraps | DataParser.LinearizeExactInUnit |

## Left out

- Floating point: the model computes over the reals, so rounding is not modelled. That covers:
  - the `(float)` cast in the cost terms;
  - the `float` arithmetic of the float-array engine;
  - the fact that `w + h - h` need not restore `w` exactly.
- Because of that, `FloatLayers.AdjustWeightUndone`, `FloatLayers.AdjustBiasUndone` and the "restores the network" clauses of the `FloatNetworks.Measure*` methods hold over the reals only.
- How well a finite difference approximates the true derivative is not modelled. The slopes are stated as the difference quotients the code computes.
- `Math.Exp` and `Math.Tanh` are parameters. Only their sign and range (`Sound`) are assumed.
- File and console I/O are left out:
  - `StreamReader` and `StreamWriter` are replaced by the text they read or write;
  - `File.ReadAllLines` is replaced by the file's text;
  - the console lines of both `Train` and `Test` are not modelled, including the cursor moves and the percentage formatting.
  - The counts, costs and accuracies behind that output are modelled.
- Number text: `int.Parse`, `double.Parse` and the number `ToString` are the abstract `NumberFormat`. The model does not fix any culture or digit format.
- Which reals `double.ToString` prints exactly is not modelled. `Persistence.SaveLoad` asks `Exact` of every weight and bias it writes; a value that prints rounded is outside its promise.
- `System.Random` is replaced by a stream of draws and a list of picks given as parameters. Its distribution is not modelled.
- Division by zero, which gives NaN or infinity in C#, is excluded by a precondition:
  - `Vectors.Div` and `Matrices.Div` need a non-zero divisor;
  - `Costs.BatchCost` needs a non-empty batch;
  - `Networks.Accuracy` needs at least one example;
  - `Networks.Assess`, `Networks.Epoch` and `Networks.Epochs` need a target or an input, so the batch cost has something to divide by. With targets but no inputs they return the `IndexOutOfRange` the batch cost throws;
  - `Networks.Train` needs an input, or an epoch and a target. With inputs missing and no epoch it would go straight to the accuracy's division;
  - `DataParser.Linearize` needs a non-zero difference.
- The float engine's accuracy percentage `(float)correctCount / inputs.Length * 100` is not modelled. Only the count is.
- `DataParser.TrainTestSplit` requires `evidence.Length * trainSize` to lie in the `int` range. An out-of-range cast to `int` has no defined value in C#.
- `DataParser.Standardize` is left out: it needs a square root, which the reals here do not have.
- `FloatLayers.ActivationDerivative` is modelled, but the float engine's `Learn` never calls it.
- The default parameter values are not modelled; every call passes its arguments explicitly. These are:
  - `epochs = 100` and `learningRate = 0.2f` for the vector engine (the constants `DefaultEpochs` and `DefaultRate`);
  - `epochs = 10` and `learningRate = 0.3f` for the float engine.
- The matrix operator `*` on a `float` scalar in `Network/Struct/Matrix.cs` is modelled with a real scalar.
- `Network.Test` of the vector engine only prints `Accuracy`, which is modelled.
- The `Vector` class of the `Deepforge.API` namespace is not part of this model. `Network/Struct/Vector.cs`, which it mirrors, is modelled in its place.
- The user-interface, app and program files are left out: they draw, read the keyboard and wire the engines together.
