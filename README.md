# snake-evolution in Dafny

This project models the core of snake-evolution. The repository is a browser app that is meant
to evolve neural networks, NEAT style, to play snake. The model covers:

- the genome (`NN`) and its initial fully connected wiring of inputs to outputs;
- nodes and connections (genes) with their innovation numbers;
- the compatibility distance between two genomes, built from excess genes, disjoint genes and
  the mean weight difference of matching genes;
- species and the initial population;
- the dense `Matrix` class;
- the snake game rules (steering, moving, walls and body, apple, tail);
- the 2-D `Vector` helper.

Code that updates objects in place is modelled by Dafny classes whose methods state the new
state. Most such methods are proved against a pure specification function, such as
`WithInitialNode`, `Tabulate`, `CompatibilityDistance`, `Steered`, `GameOver` or `NextTail`. The
simplest ones (`Species.Add`, `Matrix.Set`, `Vector.Set`, `Snake.ChangeSnakePosition`) state their
new state directly. The properties of the source are then proved about those functions:

- a network built from initial nodes is complete bipartite, with distinct innovation numbers
  below the counter;
- for genomes with unique innovation numbers (every network `addInitialNode` builds, see
  `BuiltNetworksDistance`), the distance is symmetric and zero from a genome to itself;
- the distance is never negative when the three coefficients are non-negative;
- transposing twice is the identity, and multiplying by the identity on the right changes nothing;
- a frame of the game that does not end it keeps the snake on the board and its tail bounded.

Modules, one per source file: `NNNode`, `NNConnection`, `NeuralNet` (nn.js), `NNOptions`,
`NNUtils`, `Speciation` (species.js), `Populations`, `Matrices`, `SnakeGame`, `Vectors`. Two
helper modules come on top: `Wrappers` (Option/Result/Outcome) and `Draws` (scaling a random
draw).

## Model

| member | source | states |
|---|---|---|
| Draws.ScaledFloor | src/species.js:12 | `Math.floor(p * n)` for a draw p in [0, 1) lies in [0, n) when n > 0, and is 0 when n is 0 |
| NNNode.NewNode | src/nnnode.js:4-8 | the node keeps the id, type and name it was given |
| NNNode.CopyNode | src/nnnode.js:11-13 | a copy equals the original in every field |
| NNConnection.NewConnection | src/nnconnection.js:5-11 | the connection keeps input, output, weight, enabled flag and innovation number |
| NNConnection.CopyConnection | src/nnconnection.js:19-21 | a copy equals the original and matches it in both directions |
| NNConnection.Matches | src/nnconnection.js:14-16 | two connections match when their input and output ids are equal |
| NNConnection.MatchesIgnoresPayload | src/nnconnection.js:14-16 | `matches` depends only on the endpoints: weight, flag and innovation number do not change it |
| NNConnection.MatchesReflexiveSymmetric | src/nnconnection.js:14-16 | `matches` is reflexive and symmetric |
| NNOptions.DefaultsSensible | src/nnoptions.js:3-27 | the default options have non-negative distance coefficients (excess and disjoint equal, weight difference smaller), a positive threshold, non-negative generation and size counts, and every rate in [0, 1] |
| NeuralNet.WithInitialNode | src/nn.js:59-94 | a type other than input or output fails: a hidden type with the hidden-node error, any other type with the invalid-type error. Otherwise the node is appended with id = old node count. It joins the inputs or the outputs list. New connection k joins it to the k-th node of the opposite I/O list (an input to output k, or input k to an output), with weight 0, enabled, and innovation number counter + k. The counter advances by the number of new connections |
| NeuralNet.FanOut | src/nn.js:74-81 | the wiring of a new input: connection k runs from it to output k, weight 0, enabled, innovation number counter + k |
| NeuralNet.FanIn | src/nn.js:82-90 | the wiring of a new output: connection k runs from input k to it, weight 0, enabled, innovation number counter + k |
| NeuralNet.AddInput | src/nn.js:67-81 | adding an input node: appended to nodes and inputs, wired by `FanOut`, counter advanced by the number of outputs |
| NeuralNet.AddOutput | src/nn.js:82-93 | adding an output node: appended to nodes and outputs, wired by `FanIn`, counter advanced by the number of inputs |
| NeuralNet.WithInitialNodes | src/nn.js:59-94 | `addInitialNode` applied request by request, stopping at the first exception. It succeeds exactly when every request is an input or an output, and then adds one node per request |
| NeuralNet.Reweighted | src/nn.js:109-113 | the connections after `randomizeConnectionWeights`: connection k gets the k-th draw as its weight |
| NeuralNet.AddInputKeepsValid | src/nn.js:74-81 | adding an input keeps the genome invariant: ids equal indices, only input and output nodes, innovation numbers increasing and below the counter, wiring complete bipartite |
| NeuralNet.AddOutputKeepsValid | src/nn.js:82-90 | the same for adding an output |
| NeuralNet.AddInputEndpoints | src/nn.js:74-81 | after adding an input, every connection runs from an input node to an output node |
| NeuralNet.AddInputCovers | src/nn.js:74-81 | every existing output gets a connection from the new input |
| NeuralNet.AddInputDistinct | src/nn.js:74-81 | after adding an input, no two connections join the same pair of nodes |
| NeuralNet.AddOutputEndpoints | src/nn.js:82-90 | after adding an output, every connection runs from an input node to an output node |
| NeuralNet.AddOutputCovers | src/nn.js:82-90 | every existing input gets a connection to the new output |
| NeuralNet.AddOutputDistinct | src/nn.js:82-90 | after adding an output, no two connections join the same pair of nodes |
| NeuralNet.EmptyGenomeValid | src/nn.js:45-50 | a new network satisfies the genome invariant for any counter value |
| NeuralNet.WithInitialNodeKeepsValid | src/nn.js:59-94 | a successful `addInitialNode` keeps the genome invariant |
| NeuralNet.WithInitialNodesKeepsValid | src/nn.js:59-94 | any sequence of successful `addInitialNode` calls keeps the genome invariant |
| NeuralNet.BuiltNetworkIsCompleteBipartite | src/nn.js:74-90 | a network built only by `addInitialNode` has exactly one connection from each input to each output, with distinct innovation numbers |
| NeuralNet.AppendKeepsInnovationsBelow | src/nn.js:97-106 | `addConnection` with the current counter keeps the innovation numbers increasing and below the advanced counter |
| NeuralNet.ReweightedKeepsStructure | src/nn.js:109-113 | re-drawing the weights changes only weights: endpoints, flags, innovation numbers and the invariant stay |
| NeuralNet.InnovationCounter.constructor | src/nn.js:42 | the global innovation counter starts at 0 |
| NeuralNet.NN.constructor | src/nn.js:45-50 | a new network has no inputs, outputs, nodes or connections |
| NeuralNet.NN.Copy | src/nn.js:53-55 | a fresh network with the same genome |
| NeuralNet.NN.AddInitialNode | src/nn.js:59-94 | the network and counter become exactly what `WithInitialNode` gives, or stay unchanged on error |
| NeuralNet.NN.AddConnection | src/nn.js:97-106 | appends one connection numbered with the counter and advances the counter by one |
| NeuralNet.NN.RandomizeConnectionWeights | src/nn.js:109-113 | each connection's weight becomes the i-th draw; nothing else changes |
| NNUtils.MaxInnovation | src/nnutils.js:3-13 | the running maximum starting at 0 is at least 0 and at least every gene's innovation number. It is 0 or attained by some gene |
| NNUtils.DisjointBelow | src/nnutils.js:16-35 | the number of disjoint indices below n is at most n |
| NNUtils.DisjointCount | src/nnutils.js:15-37 | the disjoint count is at most min(maxA, maxB) + 1 |
| NNUtils.ExcessCount | src/nnutils.js:41-55 | the excess value is 0 exactly when both genomes have the same largest innovation number |
| NNUtils.FirstWithInnovation | src/nnutils.js:75-81 | the search finds nothing exactly when no gene has that innovation number. What it finds is a gene of the list with that number |
| NNUtils.FirstWithInnovationAt | src/nnutils.js:75-81 | if no gene before index j has the number and gene j has it, the search returns gene j |
| NNUtils.MatchedWeightSum | src/nnutils.js:71-82 | the sum of absolute weight differences is never negative |
| NNUtils.MatchedCount | src/nnutils.js:71-82 | the number of matched genes is at most the length of the first list |
| NNUtils.Normalizer | src/nnutils.js:65-69 | N is 1 or the larger connection count, and always the larger count when no size threshold is set |
| NNUtils.Combine | src/nnutils.js:87-89 | the formula c1·E/N + c2·D/N + c3·(weightSum / weightCount) |
| NNUtils.CompatibilityDistance | src/nnutils.js:58-90 | the distance of two gene lists, and 0 when no gene matches |
| NNUtils.MaxInnovationOf | src/nnutils.js:3-7 | the loop computes `MaxInnovation` |
| NNUtils.ContainsInnovation | src/nnutils.js:17-23 | the search with `break` reports whether some gene has the number |
| NNUtils.ExcessGenes | src/nnutils.js:41-55 | returns the gap between the two largest innovation numbers |
| NNUtils.DisjointGenes | src/nnutils.js:2-38 | counts the indices up to min(maxA, maxB) present in exactly one genome |
| NNUtils.FindPartner | src/nnutils.js:75-81 | the inner search with `break` yields the first gene of b sharing the innovation number, or nothing |
| NNUtils.Distance | src/nnutils.js:58-90 | the nested loops compute `CompatibilityDistance`: 0 with no matching gene, else c1·E/N + c2·D/N + c3·W |
| NNUtils.ExcessSymmetricAndSelf | src/nnutils.js:41-55 | the excess value is symmetric and 0 between a genome and itself |
| NNUtils.DisjointBelowSymmetric | src/nnutils.js:15-35 | the disjoint count below any bound is symmetric |
| NNUtils.DisjointSymmetric | src/nnutils.js:2-38 | the disjoint count is symmetric |
| NNUtils.DisjointBelowSelf | src/nnutils.js:33-34 | a genome has no disjoint genes with itself below any bound |
| NNUtils.DisjointSelf | src/nnutils.js:2-38 | a genome has no disjoint genes with itself |
| NNUtils.MatchedCountNoShared | src/nnutils.js:71-82 | the matched count is 0 when no innovation number is shared |
| NNUtils.DistanceZeroWithoutSharedGenes | src/nnutils.js:84-85 | genomes without a shared innovation number are at distance 0 |
| NNUtils.NormalizerPositive | src/nnutils.js:65-69 | N is at least 1 whenever some gene matches |
| NNUtils.CombineNonNegative | src/nnutils.js:87-89 | with non-negative coefficients the formula is non-negative |
| NNUtils.DistanceNonNegative | src/nnutils.js:58-90 | with non-negative coefficients the distance is never negative |
| NNUtils.DefaultDistanceNonNegative | src/nnutils.js:65-89 | with the default options and no size threshold, N is the larger length and the distance is non-negative |
| NNUtils.MatchedAgainstEmpty | src/nnutils.js:73-82 | nothing matches against an empty list |
| NNUtils.MatchedPrepend | src/nnutils.js:73-82 | prepending a gene with a new innovation number to the second list adds only that gene's own weight term and count |
| NNUtils.MatchedSymmetric | src/nnutils.js:71-82 | with unique innovation numbers per genome, the matched count and weight sum are symmetric |
| NNUtils.SelfWeightSumZero | src/nnutils.js:71-82 | matching a genome against itself gives a weight sum of 0 |
| NNUtils.DistanceSymmetric | src/nnutils.js:58-90 | with unique innovation numbers, distance(a, b) = distance(b, a) |
| NNUtils.DistanceSelf | src/nnutils.js:58-90 | with unique innovation numbers, the distance from a genome to itself is 0 |
| NNUtils.BuiltNetworksDistance | src/nnutils.js:58-90 | for networks satisfying the genome invariant, the distance is symmetric and 0 to itself |
| NNUtils.WeightGapSum | src/nnutils.js:76-77 | the as-written comparison sums the weight gaps to one gene: never negative |
| NNUtils.DistanceAsWritten | src/nnutils.js:58-90 | the distance when genes from nn.js carry no `innovationNum`, so every pair matches |
| NNUtils.AsWrittenSelfDistanceNotZero | src/nn.js:103 | under that field mismatch a two-gene network is at distance 0.2 from itself, where the corrected distance is 0 |
| Speciation.FittestIndex | src/species.js:24 | the `reduce` keeps the first element of maximal fitness: an index of the list, maximal, and every earlier element strictly less fit |
| Speciation.Species.constructor | src/species.js:4-8 | the founder is the representative and the only member; 0 generations without improvement |
| Speciation.Species.PrepareForNextGen | src/species.js:11-15 | the representative becomes the member at the drawn index, or nothing when there were no members; the members are cleared |
| Speciation.Species.Add | src/species.js:18-20 | appends the network to the members |
| Speciation.Species.GetFittest | src/species.js:23-25 | nothing exactly when empty, else a member of maximal fitness, the first one |
| Populations.Population.constructor | src/population.js:6-12 | `size` fresh, distinct copies of the template, each with its own weight draws; the template is unchanged |
| Matrices.Transposed | src/matrix.js:43-47 | the row-major data of the transpose: cell (i, j) is cell (j, i) of the argument |
| Matrices.Dot | src/matrix.js:82-85 | the sum over the first k terms of row i times column j |
| Matrices.Product | src/matrix.js:72-90 | the row-major data of the product: cell (i, j) is the full dot product |
| Matrices.FlatIndexBounds | src/matrix.js:97 | the row-major index i·cols + j of an in-range cell lies below rows·cols |
| Matrices.FlatIndexInjective | src/matrix.js:97 | distinct in-range cells have distinct flat indices |
| Matrices.Tabulate | src/matrix.js:12-16 | a row-major table has rows·cols entries |
| Matrices.TabulateAt | src/matrix.js:12-16 | the entry at i·cols + j is f(i, j) |
| Matrices.TabulateEntries | src/matrix.js:116-124 | tabulating a matrix's own entries gives its data back |
| Matrices.MapAt | src/matrix.js:127-133 | after `map`, cell (i, j) is func(old cell, i, j) |
| Matrices.GetAfterSet | src/matrix.js:93-106 | reading the cell just set gives the value; every other cell is unchanged |
| Matrices.TransposedAt | src/matrix.js:43-47 | cell (i, j) of the transpose is cell (j, i) of the matrix |
| Matrices.TransposeTwice | src/matrix.js:43-47 | transposing twice gives the matrix back |
| Matrices.SumProperties | src/matrix.js:50-69 | elementwise addition commutes and subtraction undoes it |
| Matrices.ScaledProperties | src/matrix.js:136-142 | multiplying by a scalar twice is multiplying by their product, and multiplying by 1 changes nothing |
| Matrices.ShiftedProperties | src/matrix.js:145-151 | adding a scalar and then its negation gives back the data, two added scalars add up, and adding 0 changes nothing |
| Matrices.ProductProperties | src/matrix.js:136-142 | the elementwise product commutes, and multiplying by a matrix of ones changes nothing |
| Matrices.ScalarIsElementwise | src/matrix.js:136-151 | the scalar branch of `multiply` and `add` gives what the elementwise branch gives with a matrix holding the scalar in every cell |
| Matrices.ProductAt | src/matrix.js:79-87 | cell (i, j) of the product is the dot product of row i and column j |
| Matrices.ProductWithIdentity | src/matrix.js:72-90 | multiplying by the identity on the right changes nothing |
| Matrices.JsonRoundTrip | src/matrix.js:29-33 | `fromJSON` of a matrix's rows, cols and data gives back that data |
| Matrices.SetAsWritten | src/matrix.js:93-98 | the as-written `set`: rejects only a flat index above rows·cols, and at rows·cols appends |
| Matrices.GetAsWritten | src/matrix.js:101-106 | the as-written `get`: the same guard; at rows·cols it yields undefined |
| Matrices.AsWrittenAcceptsRowPastEnd | src/matrix.js:94 | the guard accepts (rows, 0) and the data grows past rows·cols |
| Matrices.AsWrittenWrapsColumn | src/matrix.js:94-97 | the guard accepts (i, cols), and the write lands on cell (i + 1, 0) |
| Matrices.Matrix.constructor | src/matrix.js:7-17 | a rows × cols matrix of zeros |
| Matrices.Matrix.Get | src/matrix.js:101-106 | an in-range cell's value, else an out-of-range error |
| Matrices.Matrix.Set | src/matrix.js:93-98 | writes exactly the in-range cell, else fails and changes nothing |
| Matrices.Matrix.Map | src/matrix.js:127-133 | the new data is the table of func(old cell, i, j) |
| Matrices.Matrix.MultiplyScalar | src/matrix.js:136-142 | every cell is multiplied by the scalar |
| Matrices.Matrix.MultiplyElementwise | src/matrix.js:136-142 | every cell is multiplied by the same cell of the other matrix |
| Matrices.Matrix.AddScalar | src/matrix.js:145-151 | the scalar is added to every cell |
| Matrices.Matrix.AddElementwise | src/matrix.js:145-151 | the same cell of the other matrix is added to every cell |
| Matrices.Matrix.Copy | src/matrix.js:109-113 | a fresh matrix with the same shape and data |
| Matrices.Matrix.ToArray | src/matrix.js:116-124 | the row-major list of all cells |
| Matrices.Matrix.FromArray | src/matrix.js:20-26 | a fresh column matrix holding the array in order |
| Matrices.Matrix.FromJson | src/matrix.js:29-33 | a fresh matrix whose cell (i, j) is json.data[i·cols + j] |
| Matrices.Matrix.Mapped | src/matrix.js:36-40 | a fresh matrix of func applied to each cell; the argument is unchanged |
| Matrices.Matrix.Transpose | src/matrix.js:43-47 | a fresh cols × rows matrix holding the transpose |
| Matrices.Matrix.Add | src/matrix.js:50-58 | a dimension error when shapes differ, else a fresh matrix of cell sums |
| Matrices.Matrix.Subtract | src/matrix.js:61-69 | a dimension error when shapes differ, else a fresh matrix of cell differences |
| Matrices.Matrix.DotProduct | src/matrix.js:82-85 | the inner loop sums row i of a times column j of b |
| Matrices.Matrix.FillProductRow | src/matrix.js:80-87 | one pass of the middle loop fills row i with the dot products and leaves the rows below untouched |
| Matrices.Matrix.Multiply | src/matrix.js:72-90 | a dimension error when a.cols ≠ b.rows, else a fresh matrix holding the product |
| SnakeGame.Steered | src/snake.js:186-213 | the velocity after `passInput`: each command turns the snake unless that would reverse it; any other string leaves it |
| SnakeGame.GameOver | src/snake.js:84-123 | never while standing still; otherwise the head is past a wall or on a body part |
| SnakeGame.NextTail | src/snake.js:157-160 | the head pushed onto the parts, and the oldest part dropped when that exceeds the tail length |
| SnakeGame.SteeringIsSafe | src/snake.js:186-213 | steering keeps the velocity a unit step or zero and never reverses a moving snake. Any other string leaves it unchanged |
| SnakeGame.StandingIsNeverOver | src/snake.js:87-90 | a snake that is standing still is never over |
| SnakeGame.MoveStaysOnBoard | src/snake.js:92-104 | a unit move from the board that hits no wall stays on the board |
| SnakeGame.NextTailBounded | src/snake.js:155-160 | the tail stays within tailLength, ends with the head, and keeps the latest parts in order |
| SnakeGame.Snake.constructor | src/snake.js:30-51 | head (10, 10), no parts, tail length 2, apple (5, 5), standing still, score 0 |
| SnakeGame.Snake.PassInput | src/snake.js:186-213 | the velocity becomes `Steered` of the old velocity |
| SnakeGame.Snake.ChangeSnakePosition | src/snake.js:126-129 | the head moves by the velocity |
| SnakeGame.Snake.IsGameOver | src/snake.js:84-123 | true exactly when moving and the head is on a wall or on a body part |
| SnakeGame.Snake.CheckAppleCollision | src/snake.js:173-183 | eating moves the apple to the drawn cell on the board and grows tail and score by one, else nothing changes |
| SnakeGame.Snake.AdvanceTail | src/snake.js:157-160 | the parts become `NextTail` of the old parts |
| SnakeGame.Snake.Tick | src/snake.js:68-81 | one frame: steer, move, test. A frame that ends the game changes nothing else. One that does not keeps the game valid and advances the tail. If the head reached the apple, the apple moves to the drawn cell and tail length and score grow by one, else those stay |
| Vectors.Add | src/vector.js:15-17 | the coordinate-wise sum |
| Vectors.Sub | src/vector.js:20-22 | the coordinate-wise difference |
| Vectors.Scale | src/vector.js:25-27 | both coordinates times the scalar |
| Vectors.PlusMinusCancel | src/vector.js:15-22 | `minus` undoes `plus` and the other way round |
| Vectors.PlusCommutesAndAssociates | src/vector.js:15-17 | `plus` is commutative and associative |
| Vectors.TimesProperties | src/vector.js:25-27 | `times(1)` is the identity and `times` distributes over `plus` |
| Vectors.Vector.constructor | src/vector.js:4-7 | the vector holds the given coordinates |
| Vectors.Vector.Origin | src/vector.js:4-7 | with no arguments both coordinates are 0 |
| Vectors.Vector.OnXAxis | src/vector.js:4-7 | with one argument the second coordinate is 0 |
| Vectors.Vector.Copy | src/vector.js:10-12 | a fresh vector with the same value |
| Vectors.Vector.Plus | src/vector.js:15-17 | a fresh vector holding the sum |
| Vectors.Vector.Minus | src/vector.js:20-22 | a fresh vector holding the difference |
| Vectors.Vector.Times | src/vector.js:25-27 | a fresh vector holding the scaled value |
| Vectors.Vector.Equals | src/vector.js:30-32 | true exactly when both coordinates agree |
| Vectors.Vector.Set | src/vector.js:46-49 | both coordinates are overwritten |
| Vectors.EqualsReflexiveSymmetric | src/vector.js:30-32 | `equals` is reflexive and symmetric |

## Left out

- The user interface is not modelled: the web components, the canvas drawing and the display
  modules (header.js, navbar.js, footer.js, main.js, nndisplay.js, snakedisplay.js,
  xordisplay.js), the `app.js` wiring, and the XOR demo in xor.js.
- `Math.random()` is not modelled. Each random draw is a parameter. Weight draws are a function
  `nat -> real`; a pick of a species representative or an apple cell is a real in [0, 1). The
  helpers in utils.js are therefore not modelled.
- JavaScript numbers are modelled as mathematical reals and integers: no rounding, no NaN, no
  infinity.
- `mutate` and `breed` in src/nn.js:116-123 have empty bodies in the source, so there is nothing
  to model.
- NeuralNet.NN.Copy: `copy` in src/nn.js:53-55 throws "Not implemented yet". The model states
  the intended deep copy: a fresh network with the same genome. The population constructor
  relies on it.
- The static `NN.innovationNumber` is modelled as an `InnovationCounter` object passed to the
  methods that use it.
- `fitness` is read by src/species.js:24 but never defined on a network in src/nn.js, so it is a
  function parameter of `GetFittest`.
- Speciation.Species.GetFittest: the source's `reduce` throws a TypeError on an empty species.
  The model returns `None` there.
- Speciation.Species.PrepareForNextGen: on an empty species the source stores `undefined` as the
  representative. The model stores `None`.
- NNUtils.Distance: the size threshold `maxGenomeSizeToDisregardNormalization` is read from the
  options object, which never defines it (src/nnoptions.js:3-27). It is an `Option<int>`
  parameter here. `None` stands for the missing field, and then N is always the larger length,
  because comparing with undefined is false.
- NNUtils.ExcessGenes: it returns |maxA − maxB|, the gap between the two largest innovation
  numbers, not the number of genes beyond the other genome's maximum. The model follows the code.
- Gene fields: src/nn.js:103 stores the innovation number as `innovationNumber`, while every
  reader uses `innovationNum`. The main model has one field, `innovationNum`. The mismatch is
  covered under Findings.
- `Vector.magnitude` and `Vector.distance` (src/vector.js:35-43) need square roots, so they are
  not modelled.
- `Matrix.randomize` is a `map` with random draws, and `Matrix.print` is console output; neither
  is modelled.
- Matrix dimensions are natural numbers. Negative or fractional dimensions, and arrays or JSON
  data of the wrong shape, are not modelled.
- Matrices.Matrix.MultiplyElementwise: requires both matrices to have the same shape. With other
  shapes the source reads cells at the wrong place or undefined, or throws from `get` when the
  other matrix is smaller (a 3 × 3 matrix times a 1 × 1 one reads `get(0, 2)`, flat index 2 > 1).
- Matrices.Matrix.AddElementwise: requires both matrices to have the same shape, for the same
  reason: the source reads misplaced or undefined cells, or throws from `get` when the other
  matrix is smaller.
- Matrices.Matrix.FromJson: requires at least rows·cols data entries. With fewer, the source
  fills the matrix with undefined.
- Matrices.SetAsWritten: takes natural indices only. The source's guard also lets every negative
  flat index through, so `set(0, -1, v)` writes a property that is not a cell. This is not modelled.
- Matrices.GetAsWritten: takes natural indices only, so a negative flat index, which the source's
  guard accepts and reads as undefined, is not modelled.
- Matrices.Matrix.Get and Matrices.Matrix.Set use the full bounds check rather than the source's
  guard; see Findings.
- Snake game: the timer of the game loop and the speed, tile size and "Game Over" text are not
  modelled. They are drawing only. An undefined direction behaves like any other unknown string.

## Findings

| source | as written | input that shows it | evidently intended | confidence | as-written member | corrected member |
|---|---|---|---|---|---|---|
| src/matrix.js:94 | `set` rejects only a flat index strictly above rows·cols (negative flat indices pass too) | on a 1 × 1 matrix, `set(1, 0, v)` is accepted and appends a second entry. On a 2 × 2 matrix, `set(0, 2, v)` overwrites cell (1, 0) | reject every (i, j) outside [0, rows) × [0, cols) | not executed | Matrices.SetAsWritten | Matrices.Matrix.Set |
| src/matrix.js:102 | `get` has the same guard | on a 1 × 1 matrix, `get(1, 0)` is accepted and returns undefined | the same full bounds check | not executed | Matrices.GetAsWritten | Matrices.Matrix.Get |
| src/nn.js:103 | `addConnection` stores the gene's number as `innovationNumber`, but `distance` reads `innovationNum` | a network with two genes of weights 0 and 1, compared with itself under the default options, is at distance 0.2 instead of 0 | one field name, so genes match by their real innovation numbers | not executed | NNUtils.DistanceAsWritten | NNUtils.DistanceSelf |
