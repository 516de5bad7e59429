# Roguelike tower defense map generation: the genetic map brain and the map visualizer

This project models the core of the map generator of a Unity tower-defense game:

- **MapBrain** evolves candidate maps with a genetic algorithm. A candidate's
  genome is a row-major obstacle bit array over a `width x length` grid. Its
  fitness is an integer score computed from the repaired path, the corners of
  that path and the obstacle count. Each generation evaluates every candidate
  and keeps the all-time best (elitism). It then breeds the next generation
  pair by pair: two roulette-wheel selections, a single-point crossover of the
  obstacle bits, and a per-bit mutation.
- **MapVisualizer** turns a map's data into indicators. An indicator is a
  prefab tile with its rotation, or a coloured cube or sphere. Each one is
  recorded in a dictionary keyed by position, and the passes also assign cell
  types in the grid. The prefab pass paves the road, retypes obstacle cells and
  picks a tile per cell. A road cell's tile comes from the directions of its
  previous and next path cells. The primitive pass draws a start sphere, an
  exit sphere and one cube per obstacle, red on a knight piece.

Modules:

| file | module | what it holds |
|---|---|---|
| snapshot.dfy | Snapshot | `MapData` (the map snapshot), `Position`, bit counting and integer sums |
| fitness.dfy | Fitness | `CalculateFitness` and its properties |
| selection.dfy | Selection | roulette-wheel selection, a loop proved against the `IsRouletteChoice` specification |
| crossover.dfy | Crossover | `CrossoverParents` over cloned bit arrays, and mutation as a flip mask |
| evolution.dfy | Evolution | the generation step: evaluation, elitism, breeding, and the `MapBrain` class |
| grid.dfy | Grid | the cell table, `SetCell`, and row-major index/coordinate conversion |
| directions.dfy | Directions | `GetDirectionFromVectors` and the previous/next cell directions |
| tiles.dfy | Tiles | the road, start and exit tile tables |
| visualizer.dfy | Visualizer | the two passes as functions, and the `MapVisualizer` class whose methods are proved equal to them |
| pass_outcomes.dfy | PassOutcomes | the outcome each pass builds towards, as predicates over a pass state: the invariants of their loops |
| visualizer_properties.dfy | VisualizerProperties | what each pass produces when started from an empty dictionary |

Randomness is always an input:

- the roulette draw;
- the crossover coin and crossover index;
- the mutation flip mask;
- the environment tile chosen for each cell.

A thrown exception is modelled as follows. An `ok` flag or a `None` result
marks it, and nothing changes after it.
- `Dictionary.Add` on a key that is already present throws.
- `path[index + 1]` past the end of the path throws.

## Model

| member | source | states |
|---|---|---|
| Snapshot.CountTrue | Assets/Scripts/MapGeneration/MapBrain.cs:192 | the obstacle count lies between 0 and the array length; it is 0 exactly when no bit is set, and the length exactly when every bit is set |
| Fitness.TruncDiv | Assets/Scripts/MapGeneration/MapBrain.cs:193 | the `(int)` cast of the scaled obstacle count truncates toward zero; the bounds hold for both signs |
| Fitness.CornerAdjustment | Assets/Scripts/MapGeneration/MapBrain.cs:194-200 | the corner term in each of its three disjoint cases: inside the window, above it, below it |
| Fitness.CalculateFitness | Assets/Scripts/MapGeneration/MapBrain.cs:190-203 | the score is the path term plus the obstacle term plus the corner term of the one window case the corner count falls in, minus the near-corner penalty |
| Fitness.FitnessFlatBelowCornerMin | Assets/Scripts/MapGeneration/MapBrain.cs:199-200 | every corner count below `fitnessCornerMin` gets the same score, other metrics being equal |
| Fitness.FitnessCornerSlope | Assets/Scripts/MapGeneration/MapBrain.cs:195-198 | each extra corner adds `fitnessCornerWeight` inside the window and subtracts it above the window |
| Fitness.FitnessMonotoneInPathLength | Assets/Scripts/MapGeneration/MapBrain.cs:193 | with everything else fixed, a longer path never lowers the score; with path weight >= 1 it strictly raises it |
| Fitness.FitnessAntitoneInNearCorners | Assets/Scripts/MapGeneration/MapBrain.cs:201 | more clustered corners lower the score by exactly their count times `fitnessNearcornerWeight` |
| Fitness.ObstacleTerm | Assets/Scripts/MapGeneration/MapBrain.cs:192-193 | for a non-negative weight the term is the largest integer whose multiple of the weight's denominator does not exceed count times numerator: `(int)` of the scaled count; its bounds and monotonicity are `Fitness.ObstacleTermBounds` and `Fitness.ObstacleTermMonotone` |
| Fitness.ObstacleTermBounds | Assets/Scripts/MapGeneration/MapBrain.cs:192-193 | for a weight in [0, 1] the obstacle term lies between 0 and the obstacle count; for weight 1 it equals the count |
| Fitness.ObstacleTermMonotone | Assets/Scripts/MapGeneration/MapBrain.cs:192-193 | the obstacle term never decreases as the obstacle count grows |
| Fitness.StraightFiveCellPathScore | Assets/Scripts/MapGeneration/MapBrain.cs:28-33 | with the serialized defaults, a 5-cell straight path with no obstacles and no corners scores -1; with cornerMin 0 it scores 5 |
| Selection.Fitnesses | Assets/Scripts/MapGeneration/MapBrain.cs:97-101 | one fitness per candidate, in candidate order; element i is `CalculateFitness` of candidate i by `Selection.FitnessesAt` |
| Selection.FitnessesAt | Assets/Scripts/MapGeneration/MapBrain.cs:181 | the i-th fitness the roulette subtracts is `CalculateFitness` of candidate i |
| Selection.RouletteWheelSelection | Assets/Scripts/MapGeneration/MapBrain.cs:176-188 | returns the first index among the first `populationSize` whose prefix fitness sum reaches the draw, otherwise `populationSize - 1` |
| Selection.RouletteChoiceUnique | Assets/Scripts/MapGeneration/MapBrain.cs:176-188 | the fitness values and the draw determine the selected index |
| Selection.RouletteSmallDrawSelectsFirst | Assets/Scripts/MapGeneration/MapBrain.cs:178-185 | a draw no larger than the first fitness (for example 0) selects candidate 0 |
| Selection.RouletteFallback | Assets/Scripts/MapGeneration/MapBrain.cs:187 | when no prefix reaches the draw, the last index `populationSize - 1` is returned |
| Selection.RouletteSkipsZeroFitness | Assets/Scripts/MapGeneration/MapBrain.cs:179-185 | with non-negative fitness and a positive draw, a candidate chosen by the `<= 0` test has positive fitness |
| Selection.RouletteSoleHolder | Assets/Scripts/MapGeneration/MapBrain.cs:176-188 | if one candidate holds all the fitness, every draw in (0, its fitness] selects it, and draw 0 selects candidate 0 |
| Crossover.Crossed | Assets/Scripts/MapGeneration/MapBrain.cs:165-172 | a child's bits are its own parent's before the crossover index and the other parent's from it on |
| Crossover.CrossoverParents | Assets/Scripts/MapGeneration/MapBrain.cs:158-174 | without the coin the children are clones of the parents; with it, each child is its parent with the bits crossed at the index |
| Crossover.CrossoverKeepsBitPairs | Assets/Scripts/MapGeneration/MapBrain.cs:168-172 | at every index the two children hold the parents' two bits, possibly swapped |
| Crossover.CrossoverPreservesObstacleCount | Assets/Scripts/MapGeneration/MapBrain.cs:168-172 | the children together have exactly as many obstacles as the parents together |
| Crossover.CrossoverInvolution | Assets/Scripts/MapGeneration/MapBrain.cs:168-172 | crossing the children again at the same index gives back both parents |
| Crossover.CrossoverAtEnds | Assets/Scripts/MapGeneration/MapBrain.cs:166-172 | index 0 swaps all the bits; the end index swaps none |
| Crossover.AddMutation | Assets/Scripts/MapGeneration/MapBrain.cs:130-131 | mutation changes only the obstacle bits, keeps their number, and changes bit i exactly when the flip mask says so |
| Crossover.MutationWithoutFlipsIsIdentity | Assets/Scripts/MapGeneration/MapBrain.cs:130-131 | with no flips (mutation rate 0) the child is unchanged; the same mask applied twice undoes itself |
| Evolution.RoundUpEven | Assets/Scripts/MapGeneration/MapBrain.cs:122-134 | the size the pairwise breeding loop stops at: the least even number >= `populationSize` |
| Evolution.GenerationBestUnique | Assets/Scripts/MapGeneration/MapBrain.cs:96-110 | the generation's best score and candidate are uniquely determined |
| Evolution.GenerationBestBounds | Assets/Scripts/MapGeneration/MapBrain.cs:96-110 | the generation's best score is never negative, bounds every fitness, and is 0 (no best candidate) exactly when no fitness is positive |
| Evolution.AllTimeBestExtends | Assets/Scripts/MapGeneration/MapBrain.cs:111-116 | keeping the larger of the previous all-time best and the round's best bounds every score of every round so far, and is 0 exactly when no score so far is positive |
| Evolution.Offspring | Assets/Scripts/MapGeneration/MapBrain.cs:127-131 | each child keeps its own parent's path, corners and endpoints; its bit i is its own parent's, or the other parent's from the crossover index on when the coin came up, flipped exactly where its mask is set |
| Evolution.PairsAppended | Assets/Scripts/MapGeneration/MapBrain.cs:122-134 | adding one more bred pair leaves every earlier pair and its parents as they were |
| Evolution.EvaluateGeneration | Assets/Scripts/MapGeneration/MapBrain.cs:95-110 | the total is the sum of all fitnesses; the best is the earliest strict maximum if it is positive, otherwise none with score 0 |
| Evolution.BreedNextGeneration | Assets/Scripts/MapGeneration/MapBrain.cs:121-135 | the next generation has `RoundUpEven(populationSize)` candidates, each of the right size; pair j is the mutated crossover of two roulette choices for draw j |
| Evolution.MapBrain.constructor | Assets/Scripts/MapGeneration/MapBrain.cs:20-25 | the fields' declared initial values; generation number 1 |
| Evolution.MapBrain.ResetAlgorithmVariables | Assets/Scripts/MapGeneration/MapBrain.cs:71-78 | zeroes the totals, the best score and both generation numbers, clears the best map, and keeps the elitism invariant |
| Evolution.MapBrain.FindOptimalSolution | Assets/Scripts/MapGeneration/MapBrain.cs:80-91 | the initial population becomes the current generation; nothing else changes |
| Evolution.MapBrain.GenerationStep | Assets/Scripts/MapGeneration/MapBrain.cs:93-140 | evaluation totals; the best is replaced only on strict improvement, recording the generation number; the counter increments; the run ends exactly at the limit, otherwise the bred generation replaces the current one, pair j being the mutated crossover of the roulette choices for draw j |
| Evolution.MapBrain.ShowResults | Assets/Scripts/MapGeneration/MapBrain.cs:142-148 | stops the run and yields the best map's data; there is none exactly when the best score is 0 |
| Evolution.MapBrain.RunAlgorithm | Assets/Scripts/MapGeneration/MapBrain.cs:59-69 | runs exactly `generationLimit` generations; the all-time best bounds every evaluated fitness of every round; no best map exactly when no fitness was positive; otherwise the best map is a candidate some round evaluated, and its fitness is exactly the all-time best |
| Grid.WithCell | Assets/Scripts/MapGeneration/MapVisualizer.cs:43 | replacing one cell changes that cell and no other |
| Grid.IndexRoundTrip | Assets/Scripts/MapGeneration/MapVisualizer.cs:55 | the flat index of an in-grid cell is in range, and converting it back gives the cell |
| Grid.CoordinatesRoundTrip | Assets/Scripts/MapGeneration/MapVisualizer.cs:171 | an in-range index converts to an in-grid position whose index is the original |
| Grid.CoordinatesInjective | Assets/Scripts/MapGeneration/MapVisualizer.cs:167-171 | distinct obstacle indices give distinct grid positions |
| Grid.MapGrid.constructor | Assets/Scripts/MapGeneration/MapBrain.cs:63 | a `width x length` grid of empty, untaken cells |
| Grid.MapGrid.SetCell | Assets/Scripts/MapGeneration/MapVisualizer.cs:43 | assigns the type, marks the cell taken, and changes no other cell |
| Directions.GetDirectionFromVectors | Assets/Scripts/MapGeneration/MapVisualizer.cs:145-154 | Right/Left exactly when x grows/shrinks; otherwise Up exactly when z grows, and Down in every remaining case, equal positions included |
| Directions.DirectionOfStep | Assets/Scripts/MapGeneration/MapVisualizer.cs:145-154 | a one-step neighbour is classified as the direction of that step |
| Directions.DirectionAntisymmetric | Assets/Scripts/MapGeneration/MapVisualizer.cs:145-154 | swapping two distinct positions gives the opposite direction |
| Directions.FindIndex | Assets/Scripts/MapGeneration/MapVisualizer.cs:129 | the first index holding the position, or -1 exactly when it is absent |
| Directions.PreviousCellPosition | Assets/Scripts/MapGeneration/MapVisualizer.cs:134-143 | the path predecessor of the position's first occurrence when that is past index 0, otherwise the start position |
| Directions.GetDirectionOfPreviousCell | Assets/Scripts/MapGeneration/MapVisualizer.cs:134-143 | the direction of the path predecessor of the position's first occurrence, or of the start cell when that occurrence is index 0 or the position is off the path; never None |
| Directions.GetDirectionOfNextCell | Assets/Scripts/MapGeneration/MapVisualizer.cs:127-132 | throws exactly on an empty path or when the position first occurs last; otherwise the direction of `path[index + 1]` seen from the position, `index` being the first occurrence (-1 for an absent position, so `path[0]` is read) |
| Directions.NeighboursAlongPath | Assets/Scripts/MapGeneration/MapVisualizer.cs:127-143 | along a unit-step path, an inner cell sees its predecessor opposite to the incoming step and its successor along the outgoing step |
| Tiles.RoadTiles | Assets/Scripts/MapGeneration/MapVisualizer.cs:73-84 | every tile it places is a road corner or a straight road prefab; equal directions or a None place nothing |
| Tiles.RoadTilesSymmetric | Assets/Scripts/MapGeneration/MapVisualizer.cs:73-84 | the road table does not depend on which of the two directions is previous and which is next |
| Tiles.RoadTilesAtMostOne | Assets/Scripts/MapGeneration/MapVisualizer.cs:73-84 | the six `if`s never fire twice; exactly one fires when the two directions are distinct and not None |
| Tiles.RoadTilesStraight | Assets/Scripts/MapGeneration/MapVisualizer.cs:81-84 | a straight piece is placed exactly when the two directions are opposite; it is turned 90 degrees for a horizontal run |
| Tiles.Turn | Assets/Scripts/MapGeneration/MapVisualizer.cs:73-84 | a quarter turn clockwise seen from above (the sense of a positive y rotation) maps each direction to a perpendicular one and None to None |
| Tiles.RoadTileOrientation | Assets/Scripts/MapGeneration/MapVisualizer.cs:73-84 | every road piece placed has a rotation of -90, 0, 90 or 180, and joins exactly the cell's two neighbours: the unrotated corner (Left, Up) or straight piece (Up, Down) turned by that rotation |
| Tiles.RoadCornerForEveryTurn | Assets/Scripts/MapGeneration/MapVisualizer.cs:73-80 | for each of the four rotations, the corner turned by it is placed, at that rotation, for the pair of neighbours it joins |
| Tiles.StartIndicator | Assets/Scripts/MapGeneration/MapVisualizer.cs:90-97 | a start tile, turned 90 degrees exactly when the path is non-empty and its first cell differs in x from the start cell, otherwise 0 |
| Tiles.ExitIndicator | Assets/Scripts/MapGeneration/MapVisualizer.cs:98-117 | an exit tile; on a non-empty path the rotation is 90/-90/180/0 exactly when the previous cell lies right/left/down-or-same/up, and 0 on an empty path |
| Tiles.ExitFacesLastStep | Assets/Scripts/MapGeneration/MapVisualizer.cs:98-117 | on a unit-step path the exit tile faces back along the last step |
| Visualizer.Put | Assets/Scripts/MapGeneration/MapVisualizer.cs:156-162 | `Dictionary.Add`: adds the key exactly when it is absent; otherwise the pass throws and the dictionary is kept |
| Visualizer.PutAll | Assets/Scripts/MapGeneration/MapVisualizer.cs:65-113 | the `CreateIndicator` calls of one cell, in order, leave the grid cells alone; the keys they touch are stated by `Visualizer.PutAllKeys` |
| Visualizer.PutAllKeys | Assets/Scripts/MapGeneration/MapVisualizer.cs:156-162 | adding indicators under one key never removes a key and adds no key but that one |
| Visualizer.PaveRoad | Assets/Scripts/MapGeneration/MapVisualizer.cs:38-45 | every path cell other than the exit becomes a taken Road cell; every other cell is kept |
| Visualizer.Retyped | Assets/Scripts/MapGeneration/MapVisualizer.cs:55-59 | an obstacle bit turns an untaken cell into an Obstacle and keeps it untaken; any other cell is unchanged |
| Visualizer.CellTiles | Assets/Scripts/MapGeneration/MapVisualizer.cs:60-120 | throws only for a road cell whose next cell cannot be read; Empty gets the empty tile, Obstacle its drawn environment tile, Start `StartIndicator`, Exit `ExitIndicator`, and a road cell the `RoadTiles` of its previous and next directions (none on an empty path) |
| Visualizer.PrefabKey | Assets/Scripts/MapGeneration/MapVisualizer.cs:46-49 | the key `position + buffer` of cell (col, row), the buffer growing by 3 per row and per column; that distinct cells get distinct keys is used by `VisualizerProperties.DictStep` |
| Visualizer.VisitPrefab | Assets/Scripts/MapGeneration/MapVisualizer.cs:52-121 | one grid-loop cell keeps the grid's shape; its effect on cells and dictionary is stated by `VisualizerProperties.VisitCells`, `VisualizerProperties.VisitDict` and `Visualizer.VisitKeepsKeys` |
| Visualizer.VisitKeepsKeys | Assets/Scripts/MapGeneration/MapVisualizer.cs:52-121 | visiting a cell never removes a key, and the only key it can add is the cell's own, position plus buffer |
| Visualizer.PrefabColumn | Assets/Scripts/MapGeneration/MapVisualizer.cs:50-122 | the `row` loop of one column keeps the grid's shape; the invariant it keeps is `VisualizerProperties.ColumnKeepsProgress`, its keys `Visualizer.ColumnKeepsKeys` |
| Visualizer.PrefabColumns | Assets/Scripts/MapGeneration/MapVisualizer.cs:47-124 | the `col` loop keeps the grid's shape; the invariant it keeps is `VisualizerProperties.ColumnsKeepProgress`, its keys `Visualizer.ColumnsKeepKeys` |
| Visualizer.ColumnKeepsKeys | Assets/Scripts/MapGeneration/MapVisualizer.cs:50-122 | a column of the grid loop never removes a key |
| Visualizer.ColumnsKeepKeys | Assets/Scripts/MapGeneration/MapVisualizer.cs:47-124 | the whole grid loop never removes a key |
| Visualizer.PrefabPass | Assets/Scripts/MapGeneration/MapVisualizer.cs:36-125 | the prefab pass keeps the grid's shape and never removes an indicator; what it adds is stated by `VisualizerProperties.PrefabPassFromEmpty` |
| Visualizer.StartAndExitPoints | Assets/Scripts/MapGeneration/MapVisualizer.cs:198-202 | adds the start sphere and then the exit sphere, leaving the cells alone; it throws exactly when start equals exit or either key is already present |
| Visualizer.PrimitiveStep | Assets/Scripts/MapGeneration/MapVisualizer.cs:169-181 | a clear bit, or a pass that has thrown, changes nothing; a set bit can only add its own position as a key, and a throw is never undone |
| Visualizer.PrimitiveLoop | Assets/Scripts/MapGeneration/MapVisualizer.cs:167-182 | the bit loop never removes a key and never recovers from a throw |
| Visualizer.PrimitivePass | Assets/Scripts/MapGeneration/MapVisualizer.cs:164-183 | the primitive pass can succeed only when start and exit are distinct keys not yet present, and never removes an indicator; what it adds is stated by `VisualizerProperties.PrimitivePassFromEmpty` |
| Visualizer.ColumnStuck | Assets/Scripts/MapGeneration/MapVisualizer.cs:50-122 | once a cell of a column throws, the later rows of that column change nothing |
| Visualizer.ColumnsStuck | Assets/Scripts/MapGeneration/MapVisualizer.cs:47-124 | once a cell of the prefab pass throws, later columns change nothing |
| Visualizer.PrimitiveStuck | Assets/Scripts/MapGeneration/MapVisualizer.cs:167-182 | once the primitive pass throws, later bits change nothing |
| Visualizer.MapVisualizer.constructor | Assets/Scripts/MapGeneration/MapVisualizer.cs:17 | the indicator dictionary starts empty |
| Visualizer.MapVisualizer.CreateIndicator | Assets/Scripts/MapGeneration/MapVisualizer.cs:156-162 | succeeds exactly when the key is new, adding exactly that entry; otherwise the dictionary is unchanged |
| Visualizer.MapVisualizer.ClearMap | Assets/Scripts/MapGeneration/MapVisualizer.cs:214-221 | the dictionary is emptied |
| Visualizer.MapVisualizer.VisualizeMap | Assets/Scripts/MapGeneration/MapVisualizer.cs:24-34 | the grid and dictionary end as the pass that the flag selects leaves them |
| Visualizer.MapVisualizer.PlaceRoad | Assets/Scripts/MapGeneration/MapVisualizer.cs:38-45 | the in-place road loop leaves the cells `PaveRoad` describes |
| Visualizer.MapVisualizer.VisualizeUsingPrefabs | Assets/Scripts/MapGeneration/MapVisualizer.cs:36-125 | the in-place road loop and grid loop leave the grid and dictionary as `PrefabPass` describes |
| Visualizer.MapVisualizer.VisualizeColumn | Assets/Scripts/MapGeneration/MapVisualizer.cs:50-122 | one column of the grid loop, with the z buffer growing by 3 per row |
| Visualizer.MapVisualizer.VisualizeCell | Assets/Scripts/MapGeneration/MapVisualizer.cs:52-121 | one cell: obstacle retyping, the tile switch, and the indicator under position + buffer |
| Visualizer.MapVisualizer.VisualizeUsingPrimitives | Assets/Scripts/MapGeneration/MapVisualizer.cs:164-183 | the in-place bit loop leaves the grid and dictionary as `PrimitivePass` describes |
| Visualizer.MapVisualizer.PlaceKnightObstacle | Assets/Scripts/MapGeneration/MapVisualizer.cs:185-196 | true exactly when a knight piece is at the position; then a red cube is added there, throwing if the key is taken |
| Visualizer.MapVisualizer.PlaceStartAndExitPoints | Assets/Scripts/MapGeneration/MapVisualizer.cs:198-202 | both spheres are added; it throws exactly when start equals exit or either key is taken |
| VisualizerProperties.PrimitiveStepKeepsOutcome | Assets/Scripts/MapGeneration/MapVisualizer.cs:169-181 | one obstacle bit extends the outcome: a drawn obstacle gets its cube under a fresh key and its cell becomes a taken Obstacle |
| VisualizerProperties.PrimitiveLoopOutcome | Assets/Scripts/MapGeneration/MapVisualizer.cs:167-182 | the bit loop ends with one cube per drawn obstacle and no other new key |
| VisualizerProperties.PrimitivePassFromEmpty | Assets/Scripts/MapGeneration/MapVisualizer.cs:164-183 | after ClearMap the primitive pass throws exactly when start equals exit; otherwise it ends with two spheres, a red or white cube per drawn obstacle, and nothing else |
| VisualizerProperties.PrimitiveSkipsStartAndExit | Assets/Scripts/MapGeneration/MapVisualizer.cs:172-173 | the start and exit cells are never retyped by the primitive pass |
| VisualizerProperties.VisitCells | Assets/Scripts/MapGeneration/MapVisualizer.cs:52-59 | visiting a cell gives it its obstacle-rule type and changes no other cell |
| VisualizerProperties.VisitDict | Assets/Scripts/MapGeneration/MapVisualizer.cs:60-120 | visiting a cell throws when its tile decision does; otherwise it adds its one tile, if any, under the cell's key |
| VisualizerProperties.VisitKeepsProgress | Assets/Scripts/MapGeneration/MapVisualizer.cs:52-121 | the grid-loop invariant survives one cell: running exactly when no earlier cell threw, with the cells typed and keys filled so far |
| VisualizerProperties.ColumnKeepsProgress | Assets/Scripts/MapGeneration/MapVisualizer.cs:50-122 | the invariant survives a column |
| VisualizerProperties.RowKeepsProgress | Assets/Scripts/MapGeneration/MapVisualizer.cs:52-121 | visiting the next row of a column extends the grid-loop invariant by that cell |
| VisualizerProperties.WholeColumn | Assets/Scripts/MapGeneration/MapVisualizer.cs:47-123 | after a whole column the invariant holds before the first cell of the next column |
| VisualizerProperties.ColumnsKeepProgress | Assets/Scripts/MapGeneration/MapVisualizer.cs:47-124 | the invariant survives the whole grid loop |
| VisualizerProperties.PrefabPassFromEmpty | Assets/Scripts/MapGeneration/MapVisualizer.cs:36-125 | after ClearMap the prefab pass throws exactly when some cell's tile decision throws; otherwise each cell that got a tile holds it under its own key, and there are no other keys |
| VisualizerProperties.PrefabPassCellTypes | Assets/Scripts/MapGeneration/MapVisualizer.cs:38-59 | after a prefab pass that did not throw, path cells other than the exit are taken Road cells and every other cell follows the obstacle rule |

## Behaviour of the code worth knowing

- **Five-cell example.** With the default weights (`fitnessCornerMin` 6), a
  5x5 map with a straight 5-cell path, no obstacles and no corners scores
  5 - 6 = -1: the below-window penalty applies
  (`Fitness.StraightFiveCellPathScore`).
- **Draw 0.** The roulette's test is `randomValue <= 0`, so the draw 0
  selects candidate 0 even when its fitness is 0, and a candidate holding
  all the fitness is selected by every draw in (0, its fitness]
  (`Selection.RouletteSoleHolder`).
- **Size of the next generation.** Breeding adds children in pairs, so an odd
  `populationSize` gives a generation of `populationSize + 1`. The roulette
  walks only the first `populationSize` candidates.
- **Generation counter.** The counter is declared with 1 but restarted at 0
  by `ResetAlgorithmVariables`, which every run calls first.
- **Obstacle term.** The `(int)` cast truncates toward zero; for the
  non-negative weights of the inspector range this is the floor.

## Left out

- Randomness (`Random.value`, `Random.Range`) is not drawn by the model. The
  roulette draw, the crossover coin and index, the mutation flip masks and the
  environment tile per cell are inputs. Any draw value is allowed, not only
  one in `[0, total)`.
- `CandidateMap` is not part of this model: `CreateMap`, `FindPath`, `Repair`,
  `ReturnMapData`, `PlaceObstacle`, `IsObstacleAt`, `DeepClone` and
  `AddMutation`. Candidates are `MapData` values. A deep clone is a copy of the
  value. `Crossover.AddMutation` is an assumed contract: it changes only the
  obstacle bits and keeps the path, the corners, the start, the exit and the
  knight pieces. `Evolution.Offspring`'s statement that each child keeps its
  parent's other fields rests on that assumption.
- `Evolution.MapBrain.GenerationStep` and `Evolution.MapBrain.RunAlgorithm`: the
  population a round evaluates is an input (`repaired`, `repairs[g]`), standing
  for the candidates after `FindPath` and `Repair`. It is not related to the
  children the previous round bred, so no contract carries one round's breeding
  into the fitness values of the next.
- `Fitness.CalculateFitness`: C# `int` arithmetic wraps around at 2^31, the
  model's integers are unbounded, and wrap-around is not modelled. The score,
  `Evolution.EvaluateGeneration`'s total and the roulette's running value are
  exact only while every term stays within 32 bits; `fitnessCornerMin` and
  `fitnessCornerMax` have no inspector range, so large values can make the
  source's `fitnessCornerWeight * fitnessCornerMin` wrap, and
  `Fitness.FitnessMonotoneInPathLength` and `Fitness.FitnessFlatBelowCornerMin`
  describe the program only while nothing wraps.
- `Crossover.AddMutation`: the per-bit Bernoulli draw with `mutationRatePercent` is the flip mask input, so the contract does not state the flip probability.
- `MapHelper.RandomlyChooseAndSetStartAndExit`, the grid construction in
  `RunAlgorithm`, and the `mapVisualizer.ClearMap()` call it makes are not
  part of `Evolution.MapBrain.RunAlgorithm`.
- `MapGrid` is not part of this model. `Grid` states the contract the
  visualizer relies on, assumed rather than taken from its code:
  - the constructor (called at MapBrain.cs:63) gives `width x length` cells
    that are all Empty and untaken (`Grid.MapGrid.constructor`);
  - `SetCell` assigns a type and marks the cell taken;
  - assigning `cell.ObjectType = Obstacle` directly (MapVisualizer.cs:58)
    changes only the type and leaves `IsTaken` as it was (`Visualizer.Retyped`);
  - `GetCell(x, z)` addresses `cells[z][x]`, and the cell there has
    coordinates `X == x` and `Z == z`, so the prefab pass uses `(col, row)`
    where the source reads `cell.X` and `cell.Z` (MapVisualizer.cs:52-55);
  - index and coordinates convert row-major.
- Out-of-range grid and bit accesses are not modelled; they would throw in the
  source. The prefab pass requires in-grid path positions and at least
  `width * length` bits and tile choices. The primitive pass requires at most
  `width * length` bits.
- The coroutine scheduling is not modelled: `StartCoroutine` and
  `WaitForEndOfFrame`. `Evolution.MapBrain.RunAlgorithm` drives the
  generation steps as a loop.
- Clock reads and elapsed-time computation (`DateTime.Now`) are left out, and
  so are the commented-out log lines.
- `Evolution.MapBrain.ShowResults` returns the best map's data instead of
  calling `mapVisualizer.VisualizeMap(bestMap.grid, data, true)`. That call is
  `Visualizer.MapVisualizer.VisualizeMap`.
- `Start()`'s conversion of the rates to fractions is left out: the rates only
  shape the random inputs.
- Floating point is not modelled:
  - `fitnessObstacleWeight` is the rational `obstacleWeightNum / obstacleWeightDen`;
  - `Vector3` positions are integer `(x, z)` pairs;
  - the y coordinate and the primitives' `(0.5, 0.5, 0.5)` placement offset
    are dropped.
- Rendering is not modelled: `Instantiate`, `CreatePrimitive`, parenting,
  materials and colours, and `Destroy` in `ClearMap`. A created object is the
  `Indicator` value recorded under its key.
- After an exception, the model keeps the state at the point of the throw and
  runs nothing more of that pass.
- Two inspector ranges are assumed (MapBrain.cs:11 and 14): `Evolution.MapBrain.Valid` and
  the constructor require `populationSize > 0` and `generationLimit > 0`. The
  code itself would run one round and stop with `generationLimit <= 0`, and
  breed an empty generation with `populationSize == 0`; the model does not
  cover those. The other ranges are not enforced.
- The gameplay and editor files are not part of this model: `MapGenerator`,
  `MapBrainInspector`, turrets, enemies, waves and waypoints.
