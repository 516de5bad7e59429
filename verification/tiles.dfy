/**
 * The tile tables of MapVisualizer: which prefab, at which rotation about
 * the vertical axis, a road, start or exit cell receives, and the indicator
 * values the visualizer records.
 */
module Tiles {
  import opened Snapshot
  import opened Directions

  /** The prefabs; an environment tile carries the index of the drawn
      environment prefab. */
  datatype Tile = TileEmpty | RoadStraight | RoadTileCorner | StartTile | ExitTile | EnvironmentTile(choice: nat)

  datatype Shape = Cube | Sphere

  datatype Color = StartColor | ExitColor | White | Red

  /** What CreateIndicator records: a prefab with its rotation in degrees
      about y (0 is the default rotation), or a coloured primitive. */
  datatype Indicator = Prefab(tile: Tile, rotation: int) | Primitive(shape: Shape, color: Color)

  /** The unordered pair {a, b} is {previous, next}. */
  predicate IsPair(previous: Direction, next: Direction, a: Direction, b: Direction)
  {
    (previous == a && next == b) || (previous == b && next == a)
  }

  /** The six independent `if`s of the road case, in source order: every
      indicator whose condition holds, each a prefab at the road cell. */
  function RoadTiles(previous: Direction, next: Direction): (tiles: seq<Indicator>)
    ensures forall i :: 0 <= i < |tiles| ==>
      tiles[i].Prefab? && (tiles[i].tile == RoadTileCorner || tiles[i].tile == RoadStraight)
    ensures previous == next || previous == Direction.None || next == Direction.None ==> tiles == []
  {
    (if IsPair(previous, next, Direction.Down, Direction.Left) then [Prefab(RoadTileCorner, -90)] else [])
    + (if IsPair(previous, next, Direction.Up, Direction.Right) then [Prefab(RoadTileCorner, 90)] else [])
    + (if IsPair(previous, next, Direction.Right, Direction.Down) then [Prefab(RoadTileCorner, 180)] else [])
    + (if IsPair(previous, next, Direction.Left, Direction.Up) then [Prefab(RoadTileCorner, 0)] else [])
    + (if IsPair(previous, next, Direction.Right, Direction.Left) then [Prefab(RoadStraight, 90)] else [])
    + (if IsPair(previous, next, Direction.Up, Direction.Down) then [Prefab(RoadStraight, 0)] else [])
  }

  /** The road table is symmetric in its two directions. */
  lemma RoadTilesSymmetric(previous: Direction, next: Direction)
    ensures RoadTiles(previous, next) == RoadTiles(next, previous)
  {
  }

  /** The six pairs are disjoint, so a road cell receives at most one tile,
      and exactly one when its two directions are different real directions;
      equal directions or a None get none. */
  lemma RoadTilesAtMostOne(previous: Direction, next: Direction)
    ensures |RoadTiles(previous, next)| <= 1
    ensures |RoadTiles(previous, next)| == 1 <==>
      previous != next && previous != Direction.None && next != Direction.None
  {
  }

  /** A straight piece is placed exactly when the path goes straight through
      the cell (the two neighbours lie on opposite sides), and it is turned 90
      degrees exactly for the horizontal (x axis) run. */
  lemma RoadTilesStraight(previous: Direction, next: Direction)
    requires previous != Direction.None
    ensures (|RoadTiles(previous, next)| == 1 && RoadTiles(previous, next)[0].tile == RoadStraight)
            <==> next == Opposite(previous)
    ensures next == Opposite(previous) ==>
      RoadTiles(previous, next) == [Prefab(RoadStraight, if previous in {Direction.Left, Direction.Right} then 90 else 0)]
  {
    if next == Opposite(previous) {
      assert RoadTiles(previous, next) == [Prefab(RoadStraight, if previous in {Direction.Left, Direction.Right} then 90 else 0)];
    }
  }

  /** A quarter turn clockwise seen from above, which is the sense of a
      positive rotation about y: Up, Right, Down, Left, Up. */
  function Turn(d: Direction): (t: Direction)
    ensures t == Direction.None <==> d == Direction.None
    ensures d != Direction.None ==> t != d && t != Opposite(d)
  {
    match d
    case Up => Direction.Right
    case Right => Direction.Down
    case Down => Direction.Left
    case Left => Direction.Up
    case None => Direction.None
  }

  /** The direction d turned by a rotation of -90, 0, 90 or 180 degrees. */
  function TurnBy(d: Direction, degrees: int): Direction
  {
    if degrees == 90 then Turn(d)
    else if degrees == 180 then Turn(Turn(d))
    else if degrees == -90 then Turn(Turn(Turn(d)))
    else d
  }

  /** Every road piece is its unrotated shape turned by its rotation: an
      unrotated corner joins Left and Up, an unrotated straight piece joins
      Up and Down, and the piece placed for a cell joins exactly the cell's
      two neighbours. */
  lemma RoadTileOrientation(previous: Direction, next: Direction)
    requires |RoadTiles(previous, next)| == 1
    ensures var t := RoadTiles(previous, next)[0];
      && t.Prefab?
      && t.rotation in {-90, 0, 90, 180}
      && (t.tile == RoadTileCorner ==>
            IsPair(previous, next, TurnBy(Direction.Left, t.rotation), TurnBy(Direction.Up, t.rotation)))
      && (t.tile == RoadStraight ==>
            IsPair(previous, next, TurnBy(Direction.Up, t.rotation), TurnBy(Direction.Down, t.rotation)))
  {
  }

  /** Conversely, each of the four turns of the corner is placed for the
      pair of neighbours it joins. */
  lemma RoadCornerForEveryTurn(degrees: int)
    requires degrees in {-90, 0, 90, 180}
    ensures RoadTiles(TurnBy(Direction.Left, degrees), TurnBy(Direction.Up, degrees))
            == [Prefab(RoadTileCorner, degrees)]
  {
  }

  /** The start tile: rotated 90 degrees exactly when the first path step lies
      to the left or right of the start cell (computed only for a non-empty
      path). */
  function StartIndicator(data: MapData, position: Position): (ind: Indicator)
    ensures ind.Prefab? && ind.tile == StartTile
    ensures ind.rotation == 90 <==> |data.path| > 0 && data.path[0].x != position.x
    ensures ind.rotation != 90 ==> ind.rotation == 0
  {
    var nextDirection := if |data.path| > 0 then GetDirectionFromVectors(data.path[0], position) else Direction.None;
    if nextDirection == Direction.Right || nextDirection == Direction.Left then Prefab(StartTile, 90)
    else Prefab(StartTile, 0)
  }

  /** The exit tile, turned by the direction of the cell before it: Right 90,
      Left -90, Down 180, anything else (Up, or no path) 0. */
  function ExitIndicator(data: MapData, position: Position): (ind: Indicator)
    ensures ind.Prefab? && ind.tile == ExitTile
    ensures |data.path| > 0 ==> var q := PreviousCellPosition(position, data);
      && (ind.rotation == 90 <==> q.x > position.x)
      && (ind.rotation == -90 <==> q.x < position.x)
      && (ind.rotation == 180 <==> q.x == position.x && q.z <= position.z)
      && (ind.rotation == 0 <==> q.x == position.x && q.z > position.z)
    ensures |data.path| == 0 ==> ind.rotation == 0
  {
    var previousDirection := if |data.path| > 0 then GetDirectionOfPreviousCell(position, data) else Direction.None;
    match previousDirection
    case Right => Prefab(ExitTile, 90)
    case Left => Prefab(ExitTile, -90)
    case Down => Prefab(ExitTile, 180)
    case _ => Prefab(ExitTile, 0)
  }

  /** On a path whose last step reaches the exit from direction d, the exit
      tile faces back along that step. */
  lemma ExitFacesLastStep(data: MapData, d: Direction)
    requires |data.path| >= 2 && d != Direction.None
    requires data.path[|data.path| - 1] == Step(data.path[|data.path| - 2], d)
    requires forall j :: 0 <= j < |data.path| - 1 ==> data.path[j] != data.path[|data.path| - 1]
    ensures var exit := data.path[|data.path| - 1];
      ExitIndicator(data, exit).rotation == match Opposite(d)
        case Right => 90
        case Left => -90
        case Down => 180
        case _ => 0
  {
    var n := |data.path|;
    var exit := data.path[n - 1];
    assert FindIndex(data.path, exit) == n - 1;
    DirectionOfStep(data.path[n - 2], d);
    DirectionAntisymmetric(data.path[n - 2], exit);
  }
}
