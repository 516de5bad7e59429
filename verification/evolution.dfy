/**
 * The generation step of MapBrain's genetic algorithm: evaluate every
 * candidate, keep the all-time best (elitism), advance the generation
 * counter and breed the next population pair by pair.
 */
module Evolution {
  import opened Snapshot
  import opened Fitness
  import opened Selection
  import opened Crossover

  /** The random inputs that breeding one pair of children consumes: the two
      roulette draws, the crossover coin and index, and the mutation flip
      masks of the two children. */
  datatype PairDraws = PairDraws(
    select1: int,
    select2: int,
    coin: bool,
    crossoverIndex: int,
    flips1: seq<bool>,
    flips2: seq<bool>)

  predicate ValidDraws(d: PairDraws, cellCount: nat)
  {
    && (d.coin ==> 0 <= d.crossoverIndex <= cellCount)
    && |d.flips1| == cellCount
    && |d.flips2| == cellCount
  }

  /** Every candidate has one obstacle bit per grid cell. */
  predicate WellSized(generation: seq<MapData>, cellCount: nat)
  {
    forall i :: 0 <= i < |generation| ==> |generation[i].obstacleArray| == cellCount
  }

  /** populationSize rounded up to an even number: children come in pairs. */
  function RoundUpEven(n: nat): (m: nat)
    ensures m % 2 == 0 && n <= m <= n + 1
  {
    if n % 2 == 0 then n else n + 1
  }

  /** Among the first n fitness values, the best is the earliest candidate
      whose fitness is the strict maximum, provided it is positive;
      otherwise there is none and the score is 0. */
  predicate IsBestOfFirst(fs: seq<int>, n: int, bestScore: int, best: Option<nat>)
    requires 0 <= n <= |fs|
  {
    match best
    case None =>
      bestScore == 0 && forall i :: 0 <= i < n ==> fs[i] <= 0
    case Some(k) =>
      && k < n
      && bestScore == fs[k] > 0
      && (forall i :: 0 <= i < n ==> fs[i] <= fs[k])
      && (forall i :: 0 <= i < k ==> fs[i] < fs[k])
  }

  /** The generation's best, over all candidates. */
  predicate IsGenerationBest(fs: seq<int>, bestScore: int, best: Option<nat>)
  {
    IsBestOfFirst(fs, |fs|, bestScore, best)
  }

  /** The generation's best score is never negative and bounds every
      fitness; there is no best exactly when no fitness is positive. */
  lemma GenerationBestBounds(fs: seq<int>, bestScore: int, best: Option<nat>)
    requires IsGenerationBest(fs, bestScore, best)
    ensures bestScore >= 0
    ensures forall i :: 0 <= i < |fs| ==> fs[i] <= bestScore
    ensures best.None? <==> forall i :: 0 <= i < |fs| ==> fs[i] <= 0
    ensures bestScore == 0 <==> best.None?
  {
  }

  /** The all-time best over rounds 0 .. n, kept by elitism from the best
      `before` of rounds 0 .. n - 1 and the best `roundBest` of round n: it
      bounds every score so far, and it is 0 exactly when no score so far is
      positive. */
  lemma {:induction false} AllTimeBestExtends(scores: seq<seq<int>>, n: nat, before: int, roundBest: int, after: int)
    requires n < |scores| && before >= 0 && roundBest >= 0
    requires after == if roundBest > before then roundBest else before
    requires forall g, i :: 0 <= g < n && 0 <= i < |scores[g]| ==> scores[g][i] <= before
    requires before == 0 <==> forall g, i :: 0 <= g < n && 0 <= i < |scores[g]| ==> scores[g][i] <= 0
    requires forall i :: 0 <= i < |scores[n]| ==> scores[n][i] <= roundBest
    requires roundBest == 0 <==> forall i :: 0 <= i < |scores[n]| ==> scores[n][i] <= 0
    ensures forall g, i :: 0 <= g <= n && 0 <= i < |scores[g]| ==> scores[g][i] <= after
    ensures after == 0 <==> forall g, i :: 0 <= g <= n && 0 <= i < |scores[g]| ==> scores[g][i] <= 0
  {
    forall g, i | 0 <= g <= n && 0 <= i < |scores[g]|
      ensures scores[g][i] <= after
    {
      if g < n {
        assert scores[g][i] <= before;
      }
    }
    if after != 0 {
      if before > 0 {
        var g, i :| 0 <= g < n && 0 <= i < |scores[g]| && scores[g][i] > 0;
        assert 0 <= g <= n;
      } else {
        var i :| 0 <= i < |scores[n]| && scores[n][i] > 0;
        assert 0 <= n <= n;
      }
    }
  }

  lemma GenerationBestUnique(fs: seq<int>, s1: int, b1: Option<nat>, s2: int, b2: Option<nat>)
    requires IsGenerationBest(fs, s1, b1) && IsGenerationBest(fs, s2, b2)
    ensures s1 == s2 && b1 == b2
  {
  }

  /** The evaluation loop of GeneticAlgorithm over the already repaired
      candidates: the fitness total and the strictly best candidate. */
  method EvaluateGeneration(p: FitnessParams, generation: seq<MapData>)
    returns (totalFitness: int, bestScore: int, best: Option<nat>)
    requires ValidParams(p)
    ensures totalFitness == Sum(Fitnesses(p, generation))
    ensures IsGenerationBest(Fitnesses(p, generation), bestScore, best)
  {
    ghost var fs := Fitnesses(p, generation);
    totalFitness := 0;
    bestScore := 0;
    best := None;
    var i := 0;
    while i < |generation|
      invariant 0 <= i <= |generation|
      invariant totalFitness == Sum(fs[..i])
      invariant IsBestOfFirst(fs, i, bestScore, best)
    {
      var fitness := CalculateFitness(p, generation[i]);
      FitnessesAt(p, generation, i);
      SumPrefixStep(fs, i);
      totalFitness := totalFitness + fitness;
      if fitness > bestScore {
        bestScore := fitness;
        best := Some(i);
      }
      i := i + 1;
    }
    assert fs[..i] == fs;
  }

  /** The two children bred from two parents with one pair of draws. */
  /** Each child keeps its own parent's path, corners and endpoints; its bit
      i is the bit of its own parent, or of the other parent from the
      crossover index on when the coin came up, flipped exactly where its
      mask says. */
  function Offspring(parent1: MapData, parent2: MapData, d: PairDraws): (children: (MapData, MapData))
    requires |parent1.obstacleArray| == |parent2.obstacleArray|
    requires ValidDraws(d, |parent1.obstacleArray|)
    ensures children.0 == parent1.(obstacleArray := children.0.obstacleArray)
    ensures children.1 == parent2.(obstacleArray := children.1.obstacleArray)
    ensures |children.0.obstacleArray| == |children.1.obstacleArray| == |parent1.obstacleArray|
    ensures forall i :: 0 <= i < |parent1.obstacleArray| ==>
      children.0.obstacleArray[i]
        == ((if d.coin && i >= d.crossoverIndex then parent2.obstacleArray[i] else parent1.obstacleArray[i]) != d.flips1[i])
    ensures forall i :: 0 <= i < |parent1.obstacleArray| ==>
      children.1.obstacleArray[i]
        == ((if d.coin && i >= d.crossoverIndex then parent1.obstacleArray[i] else parent2.obstacleArray[i]) != d.flips2[i])
  {
    var bits1, bits2 := parent1.obstacleArray, parent2.obstacleArray;
    var child1 := if d.coin then parent1.(obstacleArray := Crossed(bits1, bits2, d.crossoverIndex)) else parent1;
    var child2 := if d.coin then parent2.(obstacleArray := Crossed(bits2, bits1, d.crossoverIndex)) else parent2;
    (AddMutation(child1, d.flips1), AddMutation(child2, d.flips2))
  }

  /** The j-th pair of children was bred from the parents at `sel`, each
      of them the roulette choice for its draw. */
  predicate PairBred(fs: seq<int>, populationSize: int, generation: seq<MapData>, d: PairDraws,
                     sel: (int, int), child1: MapData, child2: MapData)
  {
    && 0 < populationSize <= |fs|
    && IsRouletteChoice(fs, populationSize, d.select1, sel.0)
    && IsRouletteChoice(fs, populationSize, d.select2, sel.1)
    && 0 <= sel.0 < |generation| && 0 <= sel.1 < |generation|
    && |generation[sel.0].obstacleArray| == |generation[sel.1].obstacleArray|
    && ValidDraws(d, |generation[sel.0].obstacleArray|)
    && (child1, child2) == Offspring(generation[sel.0], generation[sel.1], d)
  }

  /** Appending one more bred pair keeps every earlier pair as it was. */
  lemma PairsAppended(fs: seq<int>, populationSize: int, generation: seq<MapData>, draws: seq<PairDraws>,
                      selections: seq<(int, int)>, children: seq<MapData>, sel: (int, int), child1: MapData, child2: MapData)
    requires |children| == 2 * |selections| && |selections| < |draws|
    requires forall j :: 0 <= j < |selections| ==>
      PairBred(fs, populationSize, generation, draws[j], selections[j], children[2 * j], children[2 * j + 1])
    requires PairBred(fs, populationSize, generation, draws[|selections|], sel, child1, child2)
    ensures var selections', children' := selections + [sel], children + [child1, child2];
      forall j :: 0 <= j < |selections'| ==>
        PairBred(fs, populationSize, generation, draws[j], selections'[j], children'[2 * j], children'[2 * j + 1])
  {
    var selections', children' := selections + [sel], children + [child1, child2];
    forall j | 0 <= j < |selections'|
      ensures PairBred(fs, populationSize, generation, draws[j], selections'[j], children'[2 * j], children'[2 * j + 1])
    {
      if j < |selections| {
        assert selections'[j] == selections[j];
        assert children'[2 * j] == children[2 * j] && children'[2 * j + 1] == children[2 * j + 1];
      } else {
        assert selections'[j] == sel;
        assert children'[2 * j] == child1 && children'[2 * j + 1] == child2;
      }
    }
  }

  /** The breeding loop of GeneticAlgorithm: pairs of children are added
      until the next population holds at least populationSize candidates.
      `selections[j]` are the two parents the j-th pair was bred from. */
  method BreedNextGeneration(p: FitnessParams, currentGeneration: seq<MapData>, populationSize: int,
                             cellCount: nat, draws: seq<PairDraws>)
    returns (nextGeneration: seq<MapData>, selections: seq<(int, int)>)
    requires ValidParams(p)
    requires 0 < populationSize <= |currentGeneration|
    requires WellSized(currentGeneration, cellCount)
    requires |draws| >= RoundUpEven(populationSize) / 2
    requires forall j :: 0 <= j < |draws| ==> ValidDraws(draws[j], cellCount)
    ensures |nextGeneration| == RoundUpEven(populationSize)
    ensures |selections| * 2 == |nextGeneration|
    ensures WellSized(nextGeneration, cellCount)
    ensures forall j :: 0 <= j < |selections| ==>
      PairBred(Fitnesses(p, currentGeneration), populationSize, currentGeneration, draws[j],
               selections[j], nextGeneration[2 * j], nextGeneration[2 * j + 1])
  {
    ghost var fs := Fitnesses(p, currentGeneration);
    nextGeneration := [];
    selections := [];
    while |nextGeneration| < populationSize
      invariant |nextGeneration| == 2 * |selections| <= RoundUpEven(populationSize)
      invariant WellSized(nextGeneration, cellCount)
      invariant forall j :: 0 <= j < |selections| ==>
        PairBred(fs, populationSize, currentGeneration, draws[j], selections[j],
                 nextGeneration[2 * j], nextGeneration[2 * j + 1])
      decreases populationSize - |nextGeneration|
    {
      var d := draws[|selections|];
      var i1 := RouletteWheelSelection(p, currentGeneration, populationSize, d.select1);
      var i2 := RouletteWheelSelection(p, currentGeneration, populationSize, d.select2);
      var parent1, parent2 := currentGeneration[i1], currentGeneration[i2];
      var child1, child2 := CrossoverParents(parent1, parent2, d.coin, d.crossoverIndex);
      child1 := AddMutation(child1, d.flips1);
      child2 := AddMutation(child2, d.flips2);
      assert PairBred(fs, populationSize, currentGeneration, d, (i1, i2), child1, child2);
      PairsAppended(fs, populationSize, currentGeneration, draws, selections, nextGeneration, (i1, i2), child1, child2);
      assert RoundUpEven(populationSize) == 2 * (RoundUpEven(populationSize) / 2);
      nextGeneration := nextGeneration + [child1, child2];
      selections := selections + [(i1, i2)];
    }
  }

  /** Row g holds the fitness of every candidate of round g. */
  function RoundFitnesses(p: FitnessParams, repairs: seq<seq<MapData>>): (scores: seq<seq<int>>)
    requires ValidParams(p)
    ensures |scores| == |repairs|
    ensures forall g :: 0 <= g < |repairs| ==> scores[g] == Fitnesses(p, repairs[g])
  {
    seq(|repairs|, g requires 0 <= g < |repairs| => Fitnesses(p, repairs[g]))
  }

  /** MapBrain's algorithm state. FindPath and Repair of each candidate are
      not part of this model: each generation step receives the candidates
      as they are after them. */
  class MapBrain {
    const populationSize: int
    const generationLimit: int
    const params: FitnessParams
    /** widthOfMap * lengthOfMap: the number of obstacle bits per candidate. */
    const cellCount: nat

    var currentGeneration: seq<MapData>
    var totalFitnessThisGeneration: int
    var bestFitnessScoreAllTime: int
    var bestMap: Option<MapData>
    var bestMapGenerationNumber: int
    var generationNumber: int
    var isAlgorithmRunning: bool

    /** The elitism invariant: the all-time best score is never negative,
        there is a best map exactly when that score is positive, and the
        best map scores exactly that much. */
    ghost predicate Valid()
      reads this
    {
      && populationSize > 0
      && generationLimit > 0
      && ValidParams(params)
      && WellSized(currentGeneration, cellCount)
      && bestFitnessScoreAllTime >= 0
      && (bestMap.None? <==> bestFitnessScoreAllTime == 0)
      && (bestMap.Some? ==> CalculateFitness(params, bestMap.value) == bestFitnessScoreAllTime)
    }

    /** A fresh MapBrain with the fields' declared initial values. */
    constructor (populationSize: int, generationLimit: int, params: FitnessParams, cellCount: nat)
      requires populationSize > 0 && generationLimit > 0 && ValidParams(params)
      ensures Valid()
      ensures this.populationSize == populationSize && this.generationLimit == generationLimit
      ensures this.params == params && this.cellCount == cellCount
      ensures currentGeneration == [] && totalFitnessThisGeneration == 0
      ensures bestFitnessScoreAllTime == 0 && bestMap == None
      ensures bestMapGenerationNumber == 0 && generationNumber == 1
      ensures !isAlgorithmRunning
    {
      this.populationSize := populationSize;
      this.generationLimit := generationLimit;
      this.params := params;
      this.cellCount := cellCount;
      currentGeneration := [];
      totalFitnessThisGeneration := 0;
      bestFitnessScoreAllTime := 0;
      bestMap := None;
      bestMapGenerationNumber := 0;
      generationNumber := 1;
      isAlgorithmRunning := false;
    }

    /** ResetAlgorithmVariables: note that the counter restarts at 0, not at
        the field's declared initial value 1. */
    method ResetAlgorithmVariables()
      requires Valid()
      modifies this
      ensures Valid()
      ensures totalFitnessThisGeneration == 0 && bestFitnessScoreAllTime == 0
      ensures bestMap == None && bestMapGenerationNumber == 0 && generationNumber == 0
      ensures currentGeneration == old(currentGeneration) && isAlgorithmRunning == old(isAlgorithmRunning)
    {
      totalFitnessThisGeneration := 0;
      bestFitnessScoreAllTime := 0;
      bestMap := None;
      bestMapGenerationNumber := 0;
      generationNumber := 0;
    }

    /** FindOptimalSolution: the initial population, created by CreateMap
        (not part of this model), becomes the current generation. */
    method FindOptimalSolution(initialPopulation: seq<MapData>)
      requires Valid()
      requires |initialPopulation| == populationSize && WellSized(initialPopulation, cellCount)
      modifies this
      ensures Valid()
      ensures currentGeneration == initialPopulation
      ensures totalFitnessThisGeneration == old(totalFitnessThisGeneration)
      ensures bestFitnessScoreAllTime == old(bestFitnessScoreAllTime) && bestMap == old(bestMap)
      ensures bestMapGenerationNumber == old(bestMapGenerationNumber) && generationNumber == old(generationNumber)
      ensures isAlgorithmRunning == old(isAlgorithmRunning)
    {
      currentGeneration := initialPopulation;
    }

    /** One run of the GeneticAlgorithm coroutine body. `repaired` is the
        current generation after FindPath and Repair of every candidate;
        `draws` are the random inputs of the breeding round. The result says
        whether the run is over (ShowResults is due). */
    method GenerationStep(repaired: seq<MapData>, draws: seq<PairDraws>)
      returns (finished: bool, ghost bestScore: int, ghost best: Option<nat>, ghost selections: seq<(int, int)>)
      requires Valid()
      requires |repaired| == |currentGeneration| && |repaired| >= populationSize
      requires WellSized(repaired, cellCount)
      requires |draws| >= RoundUpEven(populationSize) / 2
      requires forall j :: 0 <= j < |draws| ==> ValidDraws(draws[j], cellCount)
      modifies this
      ensures Valid()
      ensures totalFitnessThisGeneration == Sum(Fitnesses(params, repaired))
      ensures IsGenerationBest(Fitnesses(params, repaired), bestScore, best)
      // elitism: the all-time best changes only on strict improvement
      ensures bestScore > old(bestFitnessScoreAllTime) ==>
        && best.Some?
        && bestFitnessScoreAllTime == bestScore
        && bestMap == Some(repaired[best.value])
        && bestMapGenerationNumber == old(generationNumber)
      ensures bestScore <= old(bestFitnessScoreAllTime) ==>
        && bestFitnessScoreAllTime == old(bestFitnessScoreAllTime)
        && bestMap == old(bestMap)
        && bestMapGenerationNumber == old(bestMapGenerationNumber)
      ensures generationNumber == old(generationNumber) + 1
      ensures finished <==> generationNumber >= generationLimit
      ensures finished ==> currentGeneration == repaired
      ensures !finished ==> |currentGeneration| == RoundUpEven(populationSize)
      // the bred generation: pair j comes from the roulette choices for draw j
      ensures !finished ==>
        && |selections| * 2 == |currentGeneration|
        && forall j :: 0 <= j < |selections| ==>
             PairBred(Fitnesses(params, repaired), populationSize, repaired, draws[j],
                      selections[j], currentGeneration[2 * j], currentGeneration[2 * j + 1])
      ensures isAlgorithmRunning == old(isAlgorithmRunning)
    {
      currentGeneration := repaired;
      var total, score, bestIndex := EvaluateGeneration(params, currentGeneration);
      bestScore, best := score, bestIndex;
      totalFitnessThisGeneration := total;
      if score > bestFitnessScoreAllTime {
        bestFitnessScoreAllTime := score;
        bestMap := Some(currentGeneration[bestIndex.value]);
        FitnessesAt(params, currentGeneration, bestIndex.value);
        bestMapGenerationNumber := generationNumber;
      }
      generationNumber := generationNumber + 1;
      if generationNumber < generationLimit {
        var nextGeneration, pairs := BreedNextGeneration(params, currentGeneration, populationSize, cellCount, draws);
        currentGeneration := nextGeneration;
        selections := pairs;
        finished := false;
      } else {
        selections := [];
        finished := true;
      }
    }

    /** ShowResults: hands out the best map's data. With no best map the
        source dereferences null; that failure is the `None` result. */
    method ShowResults() returns (result: Option<MapData>)
      requires Valid()
      modifies this
      ensures Valid()
      ensures !isAlgorithmRunning
      ensures result == bestMap
      ensures result.None? <==> bestFitnessScoreAllTime == 0
      ensures currentGeneration == old(currentGeneration) && bestMap == old(bestMap)
      ensures bestFitnessScoreAllTime == old(bestFitnessScoreAllTime)
      ensures bestMapGenerationNumber == old(bestMapGenerationNumber) && generationNumber == old(generationNumber)
      ensures totalFitnessThisGeneration == old(totalFitnessThisGeneration)
    {
      isAlgorithmRunning := false;
      result := bestMap;
    }

    /** RunAlgorithm followed by the chain of coroutine steps, driven as a
        loop. `repairs[g]` is the population round g evaluates, standing for
        the candidates after FindPath and Repair (not part of this model), so
        it is an input and not derived from the children round g - 1 bred;
        `draws[g]` are the random inputs of round g's breeding. */
    method RunAlgorithm(initialPopulation: seq<MapData>, repairs: seq<seq<MapData>>, draws: seq<seq<PairDraws>>)
      returns (rounds: nat, result: Option<MapData>)
      requires Valid()
      requires |initialPopulation| == populationSize && WellSized(initialPopulation, cellCount)
      requires |repairs| >= generationLimit && |draws| >= generationLimit
      requires forall g :: 0 <= g < |repairs| ==>
        && |repairs[g]| == (if g == 0 then populationSize else RoundUpEven(populationSize))
        && WellSized(repairs[g], cellCount)
      requires forall g :: 0 <= g < |draws| ==>
        && |draws[g]| >= RoundUpEven(populationSize) / 2
        && forall j :: 0 <= j < |draws[g]| ==> ValidDraws(draws[g][j], cellCount)
      modifies this
      ensures Valid()
      ensures rounds == generationLimit == generationNumber
      ensures var scores := RoundFitnesses(params, repairs);
        forall g, i :: 0 <= g < rounds && 0 <= i < |scores[g]| ==> scores[g][i] <= bestFitnessScoreAllTime
      ensures result == bestMap
      // the best map is a candidate some round evaluated, scoring the all-time best
      ensures result.Some? ==>
        && CalculateFitness(params, result.value) == bestFitnessScoreAllTime
        && exists g, i :: 0 <= g < rounds && 0 <= i < |repairs[g]| && repairs[g][i] == result.value
      ensures var scores := RoundFitnesses(params, repairs);
        result.None? <==> forall g, i :: 0 <= g < rounds && 0 <= i < |scores[g]| ==> scores[g][i] <= 0
      ensures !isAlgorithmRunning
    {
      ResetAlgorithmVariables();
      FindOptimalSolution(initialPopulation);
      isAlgorithmRunning := true;
      rounds := 0;
      ghost var scores := RoundFitnesses(params, repairs);
      var finished := false;
      while !finished
        invariant Valid()
        invariant rounds == generationNumber <= generationLimit
        invariant finished <==> rounds == generationLimit
        invariant !finished ==> |currentGeneration| == (if rounds == 0 then populationSize else RoundUpEven(populationSize))
        invariant forall g, i :: 0 <= g < rounds && 0 <= i < |scores[g]| ==> scores[g][i] <= bestFitnessScoreAllTime
        invariant bestFitnessScoreAllTime == 0 <==>
          forall g, i :: 0 <= g < rounds && 0 <= i < |scores[g]| ==> scores[g][i] <= 0
        invariant bestMap.Some? ==>
          exists g, i :: 0 <= g < rounds && 0 <= i < |repairs[g]| && repairs[g][i] == bestMap.value
        decreases generationLimit - rounds
      {
        ghost var bestScore: int, best: Option<nat>, selections: seq<(int, int)>;
        ghost var previousBest := bestFitnessScoreAllTime;
        finished, bestScore, best, selections := GenerationStep(repairs[rounds], draws[rounds]);
        GenerationBestBounds(scores[rounds], bestScore, best);
        AllTimeBestExtends(scores, rounds, previousBest, bestScore, bestFitnessScoreAllTime);
        rounds := rounds + 1;
      }

      result := ShowResults();
    }
  }
}
