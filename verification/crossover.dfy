/**
 * Single-point crossover of MapBrain on the obstacle bits of two candidate
 * maps, and the per-bit mutation applied to each child afterwards.
 */
module Crossover {
  import opened Snapshot

  /** The obstacle bits of a child after crossover at index k: its own
      parent's bits before k, the other parent's bits from k on. */
  function Crossed(own: seq<bool>, other: seq<bool>, k: int): (c: seq<bool>)
    requires |own| == |other| && 0 <= k <= |own|
    ensures |c| == |own|
    ensures forall i :: 0 <= i < k ==> c[i] == own[i]
    ensures forall i :: k <= i < |c| ==> c[i] == other[i]
  {
    own[..k] + other[k..]
  }

  /** CrossoverParents. The coin `Random.value < crossoverRatePercent` and
      the index `Random.Range(0, numBits)` are inputs. Each child starts as a
      deep clone of its parent (a fresh bit array), and from the crossover
      index onward each child's bit is overwritten with the other parent's. */
  method CrossoverParents(parent1: MapData, parent2: MapData, coin: bool, crossoverIndex: int)
    returns (child1: MapData, child2: MapData)
    requires |parent1.obstacleArray| == |parent2.obstacleArray|
    requires coin ==> 0 <= crossoverIndex <= |parent1.obstacleArray|
    ensures !coin ==> child1 == parent1 && child2 == parent2
    ensures coin ==> child1 == parent1.(obstacleArray := Crossed(parent1.obstacleArray, parent2.obstacleArray, crossoverIndex))
    ensures coin ==> child2 == parent2.(obstacleArray := Crossed(parent2.obstacleArray, parent1.obstacleArray, crossoverIndex))
  {
    var bits1, bits2 := parent1.obstacleArray, parent2.obstacleArray;
    var numBits := |bits1|;
    var clone1 := new bool[numBits](i requires 0 <= i < numBits => bits1[i]);
    var clone2 := new bool[numBits](i requires 0 <= i < numBits => bits2[i]);
    if coin {
      var i := crossoverIndex;
      while i < numBits
        invariant crossoverIndex <= i <= numBits
        invariant forall j :: 0 <= j < numBits ==> clone1[j] == if crossoverIndex <= j < i then bits2[j] else bits1[j]
        invariant forall j :: 0 <= j < numBits ==> clone2[j] == if crossoverIndex <= j < i then bits1[j] else bits2[j]
      {
        clone1[i] := bits2[i];
        clone2[i] := bits1[i];
        i := i + 1;
      }
      assert clone1[..] == Crossed(bits1, bits2, crossoverIndex);
      assert clone2[..] == Crossed(bits2, bits1, crossoverIndex);
    } else {
      assert clone1[..] == bits1;
      assert clone2[..] == bits2;
    }
    child1 := parent1.(obstacleArray := clone1[..]);
    child2 := parent2.(obstacleArray := clone2[..]);
  }

  /** At every position the two children hold the same two bits as the two
      parents, possibly swapped. */
  lemma CrossoverKeepsBitPairs(a: seq<bool>, b: seq<bool>, k: int, i: int)
    requires |a| == |b| && 0 <= k <= |a| && 0 <= i < |a|
    ensures multiset{Crossed(a, b, k)[i], Crossed(b, a, k)[i]} == multiset{a[i], b[i]}
  {
  }

  /** Crossover neither creates nor destroys obstacles: the two children
      together have exactly as many as the two parents together. */
  lemma CrossoverPreservesObstacleCount(a: seq<bool>, b: seq<bool>, k: int)
    requires |a| == |b| && 0 <= k <= |a|
    ensures CountTrue(Crossed(a, b, k)) + CountTrue(Crossed(b, a, k)) == CountTrue(a) + CountTrue(b)
  {
    var a1, a2, b1, b2 := a[..k], a[k..], b[..k], b[k..];
    assert Crossed(a, b, k) == a1 + b2;
    assert Crossed(b, a, k) == b1 + a2;
    assert a == a1 + a2;
    assert b == b1 + b2;
    CountTrueConcat(a1, b2);
    CountTrueConcat(b1, a2);
    CountTrueConcat(a1, a2);
    CountTrueConcat(b1, b2);
  }

  /** Crossing the two children again at the same index gives back the
      parents. */
  lemma CrossoverInvolution(a: seq<bool>, b: seq<bool>, k: int)
    requires |a| == |b| && 0 <= k <= |a|
    ensures Crossed(Crossed(a, b, k), Crossed(b, a, k), k) == a
    ensures Crossed(Crossed(b, a, k), Crossed(a, b, k), k) == b
  {
  }

  /** Index 0 swaps the parents' bits wholesale; the end index swaps none. */
  lemma CrossoverAtEnds(a: seq<bool>, b: seq<bool>)
    requires |a| == |b|
    ensures Crossed(a, b, 0) == b
    ensures Crossed(a, b, |a|) == a
  {
  }

  /** AddMutation, with its random per-bit decisions passed in as a flip
      mask: bit i changes exactly when flips[i] is set. */
  function AddMutation(candidate: MapData, flips: seq<bool>): (mutated: MapData)
    requires |flips| == |candidate.obstacleArray|
    ensures mutated == candidate.(obstacleArray := mutated.obstacleArray)
    ensures |mutated.obstacleArray| == |candidate.obstacleArray|
    ensures forall i :: 0 <= i < |flips| ==>
      (mutated.obstacleArray[i] == candidate.obstacleArray[i] <==> !flips[i])
  {
    var bits := candidate.obstacleArray;
    candidate.(obstacleArray := seq(|bits|, i requires 0 <= i < |bits| => bits[i] != flips[i]))
  }

  /** With no bit flipped (mutation rate 0) the child is unchanged, and the
      same mask applied twice undoes itself. */
  lemma MutationWithoutFlipsIsIdentity(candidate: MapData, flips: seq<bool>)
    requires |flips| == |candidate.obstacleArray|
    ensures (forall i :: 0 <= i < |flips| ==> !flips[i]) ==> AddMutation(candidate, flips) == candidate
    ensures AddMutation(AddMutation(candidate, flips), flips) == candidate
  {
    var m := AddMutation(candidate, flips);
    if forall i :: 0 <= i < |flips| ==> !flips[i] {
      assert m.obstacleArray == candidate.obstacleArray;
    }
    assert AddMutation(m, flips).obstacleArray == candidate.obstacleArray;
  }
}
