/**
 * Roulette-wheel selection of MapBrain: the drawn value is walked down by
 * each candidate's fitness until it drops to zero or below.
 */
module Selection {
  import opened Snapshot
  import opened Fitness

  /** The fitness of every candidate of a generation, in order. */
  function Fitnesses(p: FitnessParams, generation: seq<MapData>): (fs: seq<int>)
    requires ValidParams(p)
    ensures |fs| == |generation|
  {
    if generation == [] then []
    else Fitnesses(p, generation[..|generation| - 1]) + [CalculateFitness(p, generation[|generation| - 1])]
  }

  lemma {:induction false} FitnessesAt(p: FitnessParams, generation: seq<MapData>, i: int)
    requires ValidParams(p) && 0 <= i < |generation|
    ensures Fitnesses(p, generation)[i] == CalculateFitness(p, generation[i])
    decreases |generation|
  {
    if i < |generation| - 1 {
      var prefix := generation[..|generation| - 1];
      FitnessesAt(p, prefix, i);
    }
  }

  /** The cumulative fitness fs[0] + ... + fs[j]. */
  function Cumulative(fs: seq<int>, j: int): int
    requires 0 <= j < |fs|
  {
    Sum(fs[..j + 1])
  }

  /** r is the roulette choice among the first n fitness values for the
      draw: the first index whose prefix sum fs[0] + ... + fs[r] reaches the
      draw, or the last index n - 1 when no prefix reaches it. */
  predicate IsRouletteChoice(fs: seq<int>, n: int, draw: int, r: int)
    requires 0 < n <= |fs|
  {
    && 0 <= r < n
    && (forall j :: 0 <= j < r ==> Cumulative(fs, j) < draw)
    && (draw <= Cumulative(fs, r) || r == n - 1)
  }

  /** RouletteWheelSelection with the draw `Random.Range(0, total)` passed in. */
  method RouletteWheelSelection(p: FitnessParams, currentGeneration: seq<MapData>, populationSize: int, draw: int)
    returns (r: int)
    requires ValidParams(p)
    requires 0 < populationSize <= |currentGeneration|
    ensures IsRouletteChoice(Fitnesses(p, currentGeneration), populationSize, draw, r)
  {
    ghost var fs := Fitnesses(p, currentGeneration);
    var randomValue := draw;
    var i := 0;
    while i < populationSize
      invariant 0 <= i <= populationSize
      invariant randomValue == draw - Sum(fs[..i])
      invariant forall j :: 0 <= j < i ==> Cumulative(fs, j) < draw
    {
      SumPrefixStep(fs, i);
      FitnessesAt(p, currentGeneration, i);
      randomValue := randomValue - CalculateFitness(p, currentGeneration[i]);
      if randomValue <= 0 {
        return i;
      }
      i := i + 1;
    }
    return populationSize - 1;
  }

  /** The roulette choice is determined by the fitness values and the draw. */
  lemma RouletteChoiceUnique(fs: seq<int>, n: int, draw: int, r1: int, r2: int)
    requires 0 < n <= |fs|
    requires IsRouletteChoice(fs, n, draw, r1) && IsRouletteChoice(fs, n, draw, r2)
    ensures r1 == r2
  {
  }

  /** A draw no larger than the first candidate's fitness selects the first
      candidate; in particular the draw 0 does so whenever fs[0] >= 0. */
  lemma RouletteSmallDrawSelectsFirst(fs: seq<int>, n: int, draw: int, r: int)
    requires 0 < n <= |fs|
    requires draw <= fs[0]
    requires IsRouletteChoice(fs, n, draw, r)
    ensures r == 0
  {
    SumPrefixStep(fs, 0);
    assert fs[..0] == [];
    assert Cumulative(fs, 0) == fs[0];
  }

  /** When no prefix of the first n fitness values reaches the draw, the
      fallback `populationSize - 1` is taken. */
  lemma RouletteFallback(fs: seq<int>, n: int, draw: int, r: int)
    requires 0 < n <= |fs|
    requires forall j :: 0 <= j < n ==> Cumulative(fs, j) < draw
    requires IsRouletteChoice(fs, n, draw, r)
    ensures r == n - 1
  {
  }

  /** With non-negative fitness values and a positive draw, a candidate
      picked because its prefix reached the draw has positive fitness. */
  lemma {:induction false} RouletteSkipsZeroFitness(fs: seq<int>, n: int, draw: int, r: int)
    requires 0 < n <= |fs|
    requires forall i :: 0 <= i < |fs| ==> fs[i] >= 0
    requires draw > 0
    requires IsRouletteChoice(fs, n, draw, r)
    requires draw <= Cumulative(fs, r)
    ensures fs[r] > 0
  {
    SumPrefixStep(fs, r);
    if r > 0 {
      assert Cumulative(fs, r - 1) < draw;
      assert fs[..r] == fs[..(r - 1) + 1];
    } else {
      assert fs[..0] == [];
    }
  }

  /** When one candidate k holds all the fitness of the first n and all the
      others have none, every draw in (0, fs[k]] selects k; the draw 0
      selects the first candidate instead, even when k > 0 and that
      candidate's fitness is 0. */
  lemma {:induction false} RouletteSoleHolder(fs: seq<int>, n: int, k: int, draw: int, r: int)
    requires 0 < n <= |fs| && 0 <= k < n
    requires forall i :: 0 <= i < n && i != k ==> fs[i] == 0
    requires fs[k] > 0
    requires 0 <= draw <= fs[k]
    requires IsRouletteChoice(fs, n, draw, r)
    ensures draw > 0 ==> r == k
    ensures draw == 0 ==> r == 0
  {
    if draw == 0 {
      RouletteSmallDrawSelectsFirst(fs, n, draw, r);
    } else {
      forall j | 0 <= j < k
        ensures Cumulative(fs, j) == 0
      {
        SumOfZeros(fs[..j + 1]);
      }
      SumOfZeros(fs[..k]);
      SumPrefixStep(fs, k);
      assert Cumulative(fs, k) == fs[k];
    }
  }
}
