/**
 * The direction logic of MapVisualizer: which way one grid position lies
 * from another, and the directions of a path position's predecessor and
 * successor.
 */
module Directions {
  import opened Snapshot

  datatype Direction = Up | Down | Left | Right | None

  /** The neighbouring position one step in direction d (no step for None). */
  function Step(p: Position, d: Direction): Position
  {
    match d
    case Up => Position(p.x, p.z + 1)
    case Down => Position(p.x, p.z - 1)
    case Left => Position(p.x - 1, p.z)
    case Right => Position(p.x + 1, p.z)
    case None => p
  }

  function Opposite(d: Direction): Direction
  {
    match d
    case Up => Direction.Down
    case Down => Direction.Up
    case Left => Direction.Right
    case Right => Direction.Left
    case None => Direction.None
  }

  /** GetDirectionFromVectors: the x axis is decided first, then z; two
      equal positions give Down. */
  function GetDirectionFromVectors(positionToGoTo: Position, position: Position): (d: Direction)
    ensures d == Direction.Right <==> positionToGoTo.x > position.x
    ensures d == Direction.Left <==> positionToGoTo.x < position.x
    ensures d == Direction.Up <==> positionToGoTo.x == position.x && positionToGoTo.z > position.z
    ensures d == Direction.Down <==> positionToGoTo.x == position.x && positionToGoTo.z <= position.z
  {
    if positionToGoTo.x > position.x then Direction.Right
    else if positionToGoTo.x < position.x then Direction.Left
    else if positionToGoTo.z > position.z then Direction.Up
    else Direction.Down
  }

  /** A one-step neighbour is classified as the direction of that step. */
  lemma DirectionOfStep(p: Position, d: Direction)
    requires d != Direction.None
    ensures GetDirectionFromVectors(Step(p, d), p) == d
  {
  }

  /** Between two different positions the classification is antisymmetric:
      swapping them gives the opposite direction. Equal positions give Down
      both ways. */
  lemma DirectionAntisymmetric(a: Position, b: Position)
    ensures a != b ==> GetDirectionFromVectors(b, a) == Opposite(GetDirectionFromVectors(a, b))
    ensures a == b ==> GetDirectionFromVectors(a, b) == Direction.Down
  {
  }

  /** List.FindIndex for equality: the first index holding p, or -1. */
  function FindIndex(path: seq<Position>, p: Position): (i: int)
    ensures -1 <= i < |path|
    ensures i == -1 <==> p !in path
    ensures i >= 0 ==> path[i] == p && forall j :: 0 <= j < i ==> path[j] != p
  {
    if path == [] then -1
    else if path[0] == p then 0
    else
      var k := FindIndex(path[1..], p);
      assert forall j :: 0 <= j < |path| - 1 ==> path[1..][j] == path[j + 1];
      if k == -1 then -1 else k + 1
  }

  /** The position GetDirectionOfPreviousCell compares with: the path
      predecessor when the position sits at index > 0, otherwise (index 0
      or not on the path at all) the start position. */
  function PreviousCellPosition(position: Position, data: MapData): (q: Position)
    ensures position in data.path && data.path[0] != position ==>
      q == data.path[FindIndex(data.path, position) - 1]
    ensures position !in data.path || data.path[0] == position ==> q == data.startPosition
  {
    var index := FindIndex(data.path, position);
    if index > 0 then data.path[index - 1] else data.startPosition
  }

  /** GetDirectionOfPreviousCell: the direction, seen from the position, of
      its path predecessor, or of the start cell when the position is the
      first path cell or not on the path; it is never None. */
  function GetDirectionOfPreviousCell(position: Position, data: MapData): (d: Direction)
    ensures position in data.path && data.path[0] != position ==>
      d == GetDirectionFromVectors(data.path[FindIndex(data.path, position) - 1], position)
    ensures position !in data.path || data.path[0] == position ==>
      d == GetDirectionFromVectors(data.startPosition, position)
    ensures d != Direction.None
  {
    GetDirectionFromVectors(PreviousCellPosition(position, data), position)
  }

  /** GetDirectionOfNextCell. FindIndex gives -1 for a position that is not on
      the path, so path[0] is read then; a position whose first occurrence is
      the last path element, or an empty path, makes `path[index + 1]` throw,
      which is the `None` result. */
  function GetDirectionOfNextCell(position: Position, data: MapData): (r: Option<Direction>)
    ensures r.None? <==>
      |data.path| == 0 || (position in data.path && FindIndex(data.path, position) == |data.path| - 1)
    ensures |data.path| > 0 && position !in data.path ==>
      r == Some(GetDirectionFromVectors(data.path[0], position))
    ensures r.Some? ==>
      r.value == GetDirectionFromVectors(data.path[FindIndex(data.path, position) + 1], position)
  {
    var index := FindIndex(data.path, position);
    if index + 1 < |data.path| then Some(GetDirectionFromVectors(data.path[index + 1], position))
    else Option.None
  }

  /** Along a path that moves one step at a time, the first occurrence of an
      inner position sees its predecessor in the direction opposite to the
      step that reached it, and its successor in the direction of the next
      step. */
  lemma {:induction false} NeighboursAlongPath(data: MapData, k: int, dIn: Direction, dOut: Direction)
    requires 0 < k < |data.path| - 1
    requires dIn != Direction.None && dOut != Direction.None
    requires data.path[k] == Step(data.path[k - 1], dIn)
    requires data.path[k + 1] == Step(data.path[k], dOut)
    requires forall j :: 0 <= j < k ==> data.path[j] != data.path[k]
    ensures GetDirectionOfPreviousCell(data.path[k], data) == Opposite(dIn)
    ensures GetDirectionOfNextCell(data.path[k], data) == Some(dOut)
  {
    var p := data.path[k];
    assert FindIndex(data.path, p) == k;
    DirectionOfStep(data.path[k - 1], dIn);
    DirectionAntisymmetric(data.path[k - 1], p);
    DirectionOfStep(p, dOut);
  }
}
