/**
 * The outcomes the two visualization passes build towards, cell by cell and
 * key by key: the invariants their loops keep, stated as predicates over a
 * pass state.
 */
module PassOutcomes {
  import opened Snapshot
  import opened Grid
  import opened Directions
  import opened Tiles
  import opened Visualizer

  // ---------------------------------------------------------------------
  // Primitive pass
  // ---------------------------------------------------------------------

  /** Obstacle bit i is one the primitive pass draws: set, and not at the
      start or exit position. */
  predicate DrawnObstacle(data: MapData, w: nat, i: int)
    requires w > 0 && 0 <= i < |data.obstacleArray|
  {
    var p := CoordinatesFromIndex(w, i);
    data.obstacleArray[i] && p != data.startPosition && p != data.exitPosition
  }

  /** The cube an obstacle gets: red on a knight piece, white otherwise. */
  function ObstacleIndicator(data: MapData, p: Position): Indicator
  {
    if p in data.knightPiecesList then Primitive(Cube, Red) else Primitive(Cube, White)
  }

  /** A key the primitive pass may have added after the first n obstacle
      bits: a sphere position, or an in-grid cell whose bit among the first n
      is set. */
  predicate PrimitiveKey(data: MapData, w: nat, l: nat, n: nat, k: Position)
    requires n <= |data.obstacleArray|
  {
    k == data.startPosition || k == data.exitPosition
    || (InGrid(w, l, k) && IndexFromCoordinates(w, k.x, k.z) < n
        && data.obstacleArray[IndexFromCoordinates(w, k.x, k.z)])
  }

  /** The state of the primitive pass after the first n obstacle bits, from
      an empty dictionary: the two spheres; a cube at every drawn obstacle so
      far and no other key; every drawn obstacle cell typed Obstacle and
      taken, every other cell as it was. */
  ghost predicate PrimitiveOutcome(t: PassState, cells: seq<seq<Cell>>, data: MapData, w: nat, l: nat, n: nat)
    requires w > 0 && WellFormed(t.cells, w, l) && WellFormed(cells, w, l) && n <= |data.obstacleArray|
  {
    && t.ok
    && data.startPosition in t.dict && t.dict[data.startPosition] == Primitive(Sphere, StartColor)
    && data.exitPosition in t.dict && t.dict[data.exitPosition] == Primitive(Sphere, ExitColor)
    && (forall i :: 0 <= i < n && DrawnObstacle(data, w, i) ==>
          CoordinatesFromIndex(w, i) in t.dict
          && t.dict[CoordinatesFromIndex(w, i)] == ObstacleIndicator(data, CoordinatesFromIndex(w, i)))
    && (forall k :: k in t.dict ==> PrimitiveKey(data, w, l, n, k))
    && (forall z, x {:trigger t.cells[z][x]} :: 0 <= z < l && 0 <= x < w ==>
          t.cells[z][x] == if IndexFromCoordinates(w, x, z) < n && DrawnObstacle(data, w, IndexFromCoordinates(w, x, z))
                           then Cell(Obstacle, true) else cells[z][x])
  }

  // ---------------------------------------------------------------------
  // Prefab pass
  // ---------------------------------------------------------------------

  /** Cell (x, z) comes before (c, r) in the column-by-column order. */
  predicate Visited(x: int, z: int, c: int, r: int)
  {
    x < c || (x == c && z < r)
  }

  /** The type the grid loop gives cell (x, z) of the paved cells. */
  function TypedAt(paved: seq<seq<Cell>>, data: MapData, w: nat, l: nat, x: int, z: int): Cell
    requires WellFormed(paved, w, l) && 0 <= x < w && 0 <= z < l && |data.obstacleArray| >= w * l
  {
    IndexBounds(w, l, x, z);
    Retyped(paved[z][x], data.obstacleArray[IndexFromCoordinates(w, x, z)])
  }

  /** The indicators the grid loop creates for cell (x, z), or None if it throws there. */
  function DecisionAt(paved: seq<seq<Cell>>, data: MapData, choice: seq<nat>, w: nat, l: nat, x: int, z: int): Option<seq<Indicator>>
    requires WellFormed(paved, w, l) && 0 <= x < w && 0 <= z < l
    requires |data.obstacleArray| >= w * l && |choice| >= w * l
  {
    IndexBounds(w, l, x, z);
    CellTiles(data, TypedAt(paved, data, w, l, x, z).objectType, Position(x, z), choice[IndexFromCoordinates(w, x, z)])
  }

  /** No cell before (c, r) throws. */
  ghost predicate AllDecided(paved: seq<seq<Cell>>, data: MapData, choice: seq<nat>, w: nat, l: nat, c: int, r: int)
    requires WellFormed(paved, w, l) && |data.obstacleArray| >= w * l && |choice| >= w * l
  {
    forall x, z {:trigger DecisionAt(paved, data, choice, w, l, x, z)} ::
      0 <= x < w && 0 <= z < l && Visited(x, z, c, r) ==> DecisionAt(paved, data, choice, w, l, x, z).Some?
  }

  /** Before cell (c, r) the visited cells are retyped and the others are
      as paved. */
  ghost predicate CellsOutcome(cells: seq<seq<Cell>>, paved: seq<seq<Cell>>, data: MapData, w: nat, l: nat, c: int, r: int)
    requires WellFormed(cells, w, l) && WellFormed(paved, w, l) && |data.obstacleArray| >= w * l
  {
    forall z, x {:trigger cells[z][x]} :: 0 <= z < l && 0 <= x < w ==>
      cells[z][x] == if Visited(x, z, c, r) then TypedAt(paved, data, w, l, x, z) else paved[z][x]
  }

  /** A key of the prefab pass: both coordinates a multiple of 4 and inside
      the grid scaled by 4. */
  predicate ScaledGridKey(w: nat, l: nat, k: Position)
  {
    k.x % 4 == 0 && k.z % 4 == 0 && 0 <= k.x < 4 * w && 0 <= k.z < 4 * l
  }

  /** Before cell (c, r), from an empty dictionary: the key of every visited
      cell that got an indicator holds it, and there is no other key. */
  ghost predicate DictOutcome(dict: map<Position, Indicator>, paved: seq<seq<Cell>>, data: MapData, choice: seq<nat>,
                              w: nat, l: nat, c: int, r: int)
    requires WellFormed(paved, w, l) && |data.obstacleArray| >= w * l && |choice| >= w * l
  {
    && (forall z, x {:trigger PrefabKey(x, z)} :: 0 <= z < l && 0 <= x < w ==>
          (PrefabKey(x, z) in dict <==>
             Visited(x, z, c, r) && DecisionAt(paved, data, choice, w, l, x, z).Some?
             && DecisionAt(paved, data, choice, w, l, x, z).value != []))
    && (forall z, x {:trigger PrefabKey(x, z)} :: 0 <= z < l && 0 <= x < w && PrefabKey(x, z) in dict ==>
          DecisionAt(paved, data, choice, w, l, x, z).Some?
          && dict[PrefabKey(x, z)] == DecisionAt(paved, data, choice, w, l, x, z).value[0])
    && (forall k :: k in dict ==> ScaledGridKey(w, l, k))
  }

  ghost predicate PrefabOutcome(t: PassState, paved: seq<seq<Cell>>, data: MapData, choice: seq<nat>, w: nat, l: nat, c: int, r: int)
    requires WellFormed(t.cells, w, l) && WellFormed(paved, w, l) && |data.obstacleArray| >= w * l && |choice| >= w * l
  {
    CellsOutcome(t.cells, paved, data, w, l, c, r) && DictOutcome(t.dict, paved, data, choice, w, l, c, r)
  }

  /** The loop invariant of the prefab pass before cell (c, r): it is still
      running exactly when no earlier cell threw, and then it has the outcome. */
  ghost predicate PrefabProgress(t: PassState, paved: seq<seq<Cell>>, data: MapData, choice: seq<nat>, w: nat, l: nat, c: int, r: int)
    requires WellFormed(t.cells, w, l) && WellFormed(paved, w, l) && |data.obstacleArray| >= w * l && |choice| >= w * l
  {
    && (t.ok <==> AllDecided(paved, data, choice, w, l, c, r))
    && (t.ok ==> PrefabOutcome(t, paved, data, choice, w, l, c, r))
  }
}
