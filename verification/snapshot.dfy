/**
 * The read-only snapshot (MapData) that a candidate map hands out, the grid
 * position type, and the counting and summing functions the genetic
 * algorithm uses over it.
 */
module Snapshot {

  datatype Option<+T> = None | Some(value: T)

  /** A grid position. The source uses Vector3 values whose y is always 0
      and whose x and z are whole numbers. */
  datatype Position = Position(x: int, z: int)

  /** MapData: the obstacle bit per cell, the path from start to exit, the
      corners of that path, the number of corners close to each other, the
      knight pieces, and the start and exit positions. */
  datatype MapData = MapData(
    obstacleArray: seq<bool>,
    path: seq<Position>,
    cornersList: seq<Position>,
    cornersNearEachOther: int,
    knightPiecesList: seq<Position>,
    startPosition: Position,
    exitPosition: Position)

  /** Number of `true` entries; `Where(isObstacle => isObstacle).Count()`. */
  function CountTrue(s: seq<bool>): (n: nat)
    ensures n <= |s|
    ensures n == 0 <==> forall i :: 0 <= i < |s| ==> !s[i]
    ensures n == |s| <==> forall i :: 0 <= i < |s| ==> s[i]
  {
    if s == [] then 0
    else
      assert forall i :: 0 <= i < |s| - 1 ==> s[..|s| - 1][i] == s[i];
      CountTrue(s[..|s| - 1]) + (if s[|s| - 1] then 1 else 0)
  }

  lemma {:induction false} CountTrueConcat(a: seq<bool>, b: seq<bool>)
    ensures CountTrue(a + b) == CountTrue(a) + CountTrue(b)
    decreases |b|
  {
    if b == [] {
      assert a + b == a;
    } else {
      var b' := b[..|b| - 1];
      assert (a + b)[..|a + b| - 1] == a + b';
      CountTrueConcat(a, b');
    }
  }

  /** Sum of a sequence of integers, accumulated from the front as the
      source's loops do. */
  function Sum(s: seq<int>): int
  {
    if s == [] then 0 else Sum(s[..|s| - 1]) + s[|s| - 1]
  }

  lemma SumPrefixStep(s: seq<int>, i: nat)
    requires i < |s|
    ensures Sum(s[..i + 1]) == Sum(s[..i]) + s[i]
  {
    assert s[..i + 1][..i] == s[..i];
  }

  /** A sequence of zeros sums to zero. */
  lemma {:induction false} SumOfZeros(s: seq<int>)
    requires forall i :: 0 <= i < |s| ==> s[i] == 0
    ensures Sum(s) == 0
    decreases |s|
  {
    if s != [] {
      SumOfZeros(s[..|s| - 1]);
    }
  }
}
