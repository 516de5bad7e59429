/**
 * MapVisualizer: the passes that type grid cells and record one indicator
 * per dictionary key. Instantiating a prefab or a primitive is abstracted to
 * recording an Indicator value under its key; Dictionary.Add on a key that
 * is already present throws, which ends the pass.
 */
module Visualizer {
  import opened Snapshot
  import opened Grid
  import opened Directions
  import opened Tiles

  /** What a pass works on: the grid's cells, the indicator dictionary, and
      whether the pass is still running (false once something has thrown;
      nothing changes after that). */
  datatype PassState = PassState(cells: seq<seq<Cell>>, dict: map<Position, Indicator>, ok: bool)

  /** CreateIndicator's `dictionaryOfObstacles.Add(position, element)`. */
  function Put(s: PassState, key: Position, ind: Indicator): (t: PassState)
    ensures t.cells == s.cells
    ensures t.ok <==> s.ok && key !in s.dict
    ensures t.ok ==> t.dict == s.dict[key := ind]
    ensures !t.ok ==> t.dict == s.dict
  {
    if s.ok && key !in s.dict then s.(dict := s.dict[key := ind]) else s.(ok := false)
  }

  /** One Put per indicator, in order. */
  function PutAll(s: PassState, key: Position, inds: seq<Indicator>): (t: PassState)
    ensures t.cells == s.cells
    decreases |inds|
  {
    if inds == [] then s else PutAll(Put(s, key, inds[0]), key, inds[1..])
  }

  /** Adding indicators under one key never removes a key, and adds at most
      that one. */
  lemma {:induction false} PutAllKeys(s: PassState, key: Position, inds: seq<Indicator>)
    ensures s.dict.Keys <= PutAll(s, key, inds).dict.Keys <= s.dict.Keys + {key}
    decreases |inds|
  {
    if inds != [] {
      PutAllKeys(Put(s, key, inds[0]), key, inds[1..]);
    }
  }

  // ---------------------------------------------------------------------
  // Prefab pass
  // ---------------------------------------------------------------------

  /** The road loop of VisualizeUsingPrefabs: every path position except the
      exit position is set to Road (and so marked taken); every other cell
      keeps what it had. */
  function PaveRoad(cells: seq<seq<Cell>>, w: nat, l: nat, path: seq<Position>, exit: Position): (r: seq<seq<Cell>>)
    requires WellFormed(cells, w, l)
    requires forall p :: p in path && p != exit ==> InGrid(w, l, p)
    ensures WellFormed(r, w, l)
    ensures forall z, x {:trigger r[z][x]} :: 0 <= z < l && 0 <= x < w ==>
      r[z][x] == if Position(x, z) in path && Position(x, z) != exit then Cell(Road, true) else cells[z][x]
    decreases |path|
  {
    if path == [] then cells
    else
      var front, last := path[..|path| - 1], path[|path| - 1];
      assert path == front + [last];
      var paved := PaveRoad(cells, w, l, front, exit);
      if last != exit then WithCell(paved, w, l, last, Cell(Road, true)) else paved
  }

  /** The obstacle rule of the prefab pass: an obstacle bit turns a cell
      that is not taken into an Obstacle (leaving it untaken); a taken cell,
      or a cell without the bit, is left as it is. */
  function Retyped(cell: Cell, bit: bool): (c: Cell)
    ensures c.isTaken == cell.isTaken
    ensures (bit && !cell.isTaken) ==> c.objectType == Obstacle
    ensures !(bit && !cell.isTaken) ==> c == cell
  {
    if bit && !cell.isTaken then cell.(objectType := Obstacle) else cell
  }

  /** The prefab switch for a cell of type t at `position`: the indicators
      created for it, or None when reading the next path cell throws. An
      Empty, Obstacle, Start or Exit cell gets exactly one indicator, a Road
      cell at most one. */
  function CellTiles(data: MapData, t: CellObjectType, position: Position, choice: nat): (r: Option<seq<Indicator>>)
    ensures r.None? <==> t == Road && |data.path| > 0 && GetDirectionOfNextCell(position, data).None?
    ensures r.Some? ==> |r.value| <= 1
    ensures r.Some? && t != Road ==> |r.value| == 1
    ensures t == Road && |data.path| == 0 ==> r == Some([])
    ensures t == Obstacle ==> r == Some([Prefab(EnvironmentTile(choice), 0)])
    ensures t == Empty ==> r == Some([Prefab(TileEmpty, 0)])
    ensures t == Start ==> r == Some([StartIndicator(data, position)])
    ensures t == Exit ==> r == Some([ExitIndicator(data, position)])
    ensures t == Road && r.Some? && |data.path| > 0 ==>
      r.value == RoadTiles(GetDirectionOfPreviousCell(position, data), GetDirectionOfNextCell(position, data).value)
  {
    match t
    case Empty => Some([Prefab(TileEmpty, 0)])
    case Road =>
      if |data.path| > 0 then
        var previousDirection := GetDirectionOfPreviousCell(position, data);
        match GetDirectionOfNextCell(position, data)
        case None => Option.None
        case Some(nextDirection) =>
          RoadTilesAtMostOne(previousDirection, nextDirection);
          Some(RoadTiles(previousDirection, nextDirection))
      else
        RoadTilesAtMostOne(Direction.None, Direction.None);
        Some(RoadTiles(Direction.None, Direction.None))
    case Obstacle => Some([Prefab(EnvironmentTile(choice), 0)])
    case Start => Some([StartIndicator(data, position)])
    case Exit => Some([ExitIndicator(data, position)])
  }

  /** The dictionary key of the cell (col, row): its position plus the
      buffer (3 * col, 3 * row). */
  function PrefabKey(col: int, row: int): Position
  {
    Position(col + 3 * col, row + 3 * row)
  }

  /** The grid loop body for the cell (col, row); `choice` holds the
      environment prefab drawn for each cell, by flat index. A pass that has
      thrown is left as it is; otherwise the only key the cell can add is its
      own, position plus buffer. */
  function VisitPrefab(s: PassState, data: MapData, choice: seq<nat>, w: nat, l: nat, col: int, row: int): (t: PassState)
    requires WellFormed(s.cells, w, l) && 0 <= col < w && 0 <= row < l
    requires |data.obstacleArray| >= w * l && |choice| >= w * l
    ensures WellFormed(t.cells, w, l)
  {
    if !s.ok then s
    else
      IndexBounds(w, l, col, row);
      var index := IndexFromCoordinates(w, col, row);
      var position := Position(col, row);
      var bit := data.obstacleArray[index];
      var cell := Retyped(s.cells[row][col], bit);
      var cells := if bit && !s.cells[row][col].isTaken then WithCell(s.cells, w, l, position, cell) else s.cells;
      match CellTiles(data, cell.objectType, position, choice[index])
      case None => PassState(cells, s.dict, false)
      case Some(inds) => PutAll(PassState(cells, s.dict, true), PrefabKey(col, row), inds)
  }

  /** The inner loop over rows 0 .. rows - 1 of column col. */
  function PrefabColumn(s: PassState, data: MapData, choice: seq<nat>, w: nat, l: nat, col: int, rows: nat): (t: PassState)
    requires WellFormed(s.cells, w, l) && 0 <= col < w && rows <= l
    requires |data.obstacleArray| >= w * l && |choice| >= w * l
    ensures WellFormed(t.cells, w, l)
  {
    if rows == 0 then s
    else VisitPrefab(PrefabColumn(s, data, choice, w, l, col, rows - 1), data, choice, w, l, col, rows - 1)
  }

  /** The outer loop over columns 0 .. cols - 1. */
  function PrefabColumns(s: PassState, data: MapData, choice: seq<nat>, w: nat, l: nat, cols: nat): (t: PassState)
    requires WellFormed(s.cells, w, l) && cols <= w
    requires |data.obstacleArray| >= w * l && |choice| >= w * l
    ensures WellFormed(t.cells, w, l)
  {
    if cols == 0 then s
    else PrefabColumn(PrefabColumns(s, data, choice, w, l, cols - 1), data, choice, w, l, cols - 1, l)
  }

  /** VisualizeUsingPrefabs from the grid cells and dictionary it starts
      with: the grid keeps its shape and no indicator is ever removed. */
  function PrefabPass(cells: seq<seq<Cell>>, dict: map<Position, Indicator>, data: MapData, choice: seq<nat>, w: nat, l: nat): (t: PassState)
    requires WellFormed(cells, w, l)
    requires forall p :: p in data.path && p != data.exitPosition ==> InGrid(w, l, p)
    requires |data.obstacleArray| >= w * l && |choice| >= w * l
    ensures WellFormed(t.cells, w, l)
    ensures dict.Keys <= t.dict.Keys
  {
    var paved := PaveRoad(cells, w, l, data.path, data.exitPosition);
    ColumnsKeepKeys(PassState(paved, dict, true), data, choice, w, l, w);
    PrefabColumns(PassState(paved, dict, true), data, choice, w, l, w)
  }

  /** A cell visit never removes a key, and the only key it can add is the
      cell's own. */
  lemma VisitKeepsKeys(s: PassState, data: MapData, choice: seq<nat>, w: nat, l: nat, col: int, row: int)
    requires WellFormed(s.cells, w, l) && 0 <= col < w && 0 <= row < l
    requires |data.obstacleArray| >= w * l && |choice| >= w * l
    ensures var t := VisitPrefab(s, data, choice, w, l, col, row);
      s.dict.Keys <= t.dict.Keys <= s.dict.Keys + {PrefabKey(col, row)}
  {
    if s.ok {
      IndexBounds(w, l, col, row);
      var index := IndexFromCoordinates(w, col, row);
      var cell := Retyped(s.cells[row][col], data.obstacleArray[index]);
      var cells := if data.obstacleArray[index] && !s.cells[row][col].isTaken
                   then WithCell(s.cells, w, l, Position(col, row), cell) else s.cells;
      var tiles := CellTiles(data, cell.objectType, Position(col, row), choice[index]);
      if tiles.Some? {
        PutAllKeys(PassState(cells, s.dict, true), PrefabKey(col, row), tiles.value);
      }
    }
  }

  lemma {:induction false} ColumnKeepsKeys(s: PassState, data: MapData, choice: seq<nat>, w: nat, l: nat, col: int, rows: nat)
    requires WellFormed(s.cells, w, l) && 0 <= col < w && rows <= l
    requires |data.obstacleArray| >= w * l && |choice| >= w * l
    ensures s.dict.Keys <= PrefabColumn(s, data, choice, w, l, col, rows).dict.Keys
  {
    if rows > 0 {
      ColumnKeepsKeys(s, data, choice, w, l, col, rows - 1);
      VisitKeepsKeys(PrefabColumn(s, data, choice, w, l, col, rows - 1), data, choice, w, l, col, rows - 1);
    }
  }

  lemma {:induction false} ColumnsKeepKeys(s: PassState, data: MapData, choice: seq<nat>, w: nat, l: nat, cols: nat)
    requires WellFormed(s.cells, w, l) && cols <= w
    requires |data.obstacleArray| >= w * l && |choice| >= w * l
    ensures s.dict.Keys <= PrefabColumns(s, data, choice, w, l, cols).dict.Keys
  {
    if cols > 0 {
      ColumnsKeepKeys(s, data, choice, w, l, cols - 1);
      ColumnKeepsKeys(PrefabColumns(s, data, choice, w, l, cols - 1), data, choice, w, l, cols - 1, l);
    }
  }

  // ---------------------------------------------------------------------
  // Primitive pass
  // ---------------------------------------------------------------------

  /** PlaceStartAndExitPoints: a start sphere, then an exit sphere. It
      throws when either key is taken, the exit's by the start sphere
      included. */
  function StartAndExitPoints(s: PassState, data: MapData): (t: PassState)
    ensures t.cells == s.cells
    ensures t.ok <==>
      s.ok && data.startPosition !in s.dict && data.exitPosition !in s.dict && data.startPosition != data.exitPosition
    ensures t.ok ==> t.dict == s.dict[data.startPosition := Primitive(Sphere, StartColor)]
                                     [data.exitPosition := Primitive(Sphere, ExitColor)]
  {
    Put(Put(s, data.startPosition, Primitive(Sphere, StartColor)), data.exitPosition, Primitive(Sphere, ExitColor))
  }

  /** The loop body of VisualizeUsingPrimitives for obstacle bit i: a
      clear bit, or a pass that has thrown, changes nothing; otherwise the
      only key it can add is the bit's own position. */
  function PrimitiveStep(s: PassState, data: MapData, w: nat, l: nat, i: int): (t: PassState)
    requires w > 0 && WellFormed(s.cells, w, l) && 0 <= i < |data.obstacleArray| <= w * l
    ensures WellFormed(t.cells, w, l)
    ensures !s.ok || !data.obstacleArray[i] ==> t == s
    ensures t.ok ==> s.ok
    ensures s.dict.Keys <= t.dict.Keys <= s.dict.Keys + {CoordinatesFromIndex(w, i)}
  {
    if !s.ok || !data.obstacleArray[i] then s
    else
      var p := CoordinatesFromIndex(w, i);
      if p == data.startPosition || p == data.exitPosition then s
      else
        CoordinatesRoundTrip(w, l, i);
        var s1 := s.(cells := WithCell(s.cells, w, l, p, Cell(Obstacle, true)));
        if p in data.knightPiecesList then Put(s1, p, Primitive(Cube, Red))
        else if p !in s1.dict then Put(s1, p, Primitive(Cube, White))
        else s1
  }

  /** The loop over obstacle bits 0 .. n - 1. */
  function PrimitiveLoop(s: PassState, data: MapData, w: nat, l: nat, n: nat): (t: PassState)
    requires w > 0 && WellFormed(s.cells, w, l) && n <= |data.obstacleArray| <= w * l
    ensures WellFormed(t.cells, w, l)
    ensures t.ok ==> s.ok
    ensures s.dict.Keys <= t.dict.Keys
  {
    if n == 0 then s else PrimitiveStep(PrimitiveLoop(s, data, w, l, n - 1), data, w, l, n - 1)
  }

  /** VisualizeUsingPrimitives from the grid cells and dictionary it starts
      with: it can only succeed when start and exit are distinct new keys,
      and no indicator is ever removed. */
  function PrimitivePass(cells: seq<seq<Cell>>, dict: map<Position, Indicator>, data: MapData, w: nat, l: nat): (t: PassState)
    requires w > 0 && WellFormed(cells, w, l) && |data.obstacleArray| <= w * l
    ensures WellFormed(t.cells, w, l)
    ensures t.ok ==>
      data.startPosition != data.exitPosition && data.startPosition !in dict && data.exitPosition !in dict
    ensures dict.Keys <= t.dict.Keys
  {
    PrimitiveLoop(StartAndExitPoints(PassState(cells, dict, true), data), data, w, l, |data.obstacleArray|)
  }

  // ---------------------------------------------------------------------
  // Once a pass has thrown it stays as it is
  // ---------------------------------------------------------------------

  lemma {:induction false} ColumnStuck(s: PassState, data: MapData, choice: seq<nat>, w: nat, l: nat, col: int, r: nat, rows: nat)
    requires WellFormed(s.cells, w, l) && 0 <= col < w && r <= rows <= l
    requires |data.obstacleArray| >= w * l && |choice| >= w * l
    requires !PrefabColumn(s, data, choice, w, l, col, r).ok
    ensures PrefabColumn(s, data, choice, w, l, col, rows) == PrefabColumn(s, data, choice, w, l, col, r)
    decreases rows
  {
    if rows > r {
      ColumnStuck(s, data, choice, w, l, col, r, rows - 1);
    }
  }

  lemma {:induction false} ColumnsStuck(s: PassState, data: MapData, choice: seq<nat>, w: nat, l: nat, c: nat, cols: nat)
    requires WellFormed(s.cells, w, l) && c <= cols <= w
    requires |data.obstacleArray| >= w * l && |choice| >= w * l
    requires !PrefabColumns(s, data, choice, w, l, c).ok
    ensures PrefabColumns(s, data, choice, w, l, cols) == PrefabColumns(s, data, choice, w, l, c)
    decreases cols
  {
    if cols > c {
      ColumnsStuck(s, data, choice, w, l, c, cols - 1);
      ColumnStuck(PrefabColumns(s, data, choice, w, l, cols - 1), data, choice, w, l, cols - 1, 0, l);
    }
  }

  lemma {:induction false} PrimitiveStuck(s: PassState, data: MapData, w: nat, l: nat, i: nat, n: nat)
    requires w > 0 && WellFormed(s.cells, w, l) && i <= n <= |data.obstacleArray| <= w * l
    requires !PrimitiveLoop(s, data, w, l, i).ok
    ensures PrimitiveLoop(s, data, w, l, n) == PrimitiveLoop(s, data, w, l, i)
    decreases n
  {
    if n > i {
      PrimitiveStuck(s, data, w, l, i, n - 1);
    }
  }

  // ---------------------------------------------------------------------
  // The visualizer object
  // ---------------------------------------------------------------------

  class MapVisualizer {
    /** Every indicator created since the last ClearMap, by position. */
    var dictionaryOfObstacles: map<Position, Indicator>

    constructor ()
      ensures dictionaryOfObstacles == map[]
    {
      dictionaryOfObstacles := map[];
    }

    /** Both CreateIndicator overloads: the indicator is added under its key,
        or, when the key is already present, Add throws and nothing changes. */
    method CreateIndicator(position: Position, indicator: Indicator) returns (ok: bool)
      modifies this
      ensures ok <==> position !in old(dictionaryOfObstacles)
      ensures ok ==> dictionaryOfObstacles == old(dictionaryOfObstacles)[position := indicator]
      ensures !ok ==> dictionaryOfObstacles == old(dictionaryOfObstacles)
    {
      if position in dictionaryOfObstacles {
        return false;
      }
      dictionaryOfObstacles := dictionaryOfObstacles[position := indicator];
      return true;
    }

    /** ClearMap: every indicator is destroyed and the dictionary emptied. */
    method ClearMap()
      modifies this
      ensures dictionaryOfObstacles == map[]
    {
      dictionaryOfObstacles := map[];
    }

    /** VisualizeMap: dispatches on the rendering mode; `ok` is false when the
        pass threw. */
    method VisualizeMap(grid: MapGrid, data: MapData, visualizeUsingPrefabs: bool, choice: seq<nat>)
      returns (ok: bool)
      requires grid.Valid()
      requires visualizeUsingPrefabs ==>
        && (forall p :: p in data.path && p != data.exitPosition ==> InGrid(grid.width, grid.length, p))
        && |data.obstacleArray| >= grid.width * grid.length && |choice| >= grid.width * grid.length
      requires !visualizeUsingPrefabs ==> |data.obstacleArray| <= grid.width * grid.length
      modifies this, grid
      ensures grid.Valid()
      ensures visualizeUsingPrefabs ==>
        (PassState(grid.cells, dictionaryOfObstacles, ok)
         == PrefabPass(old(grid.cells), old(dictionaryOfObstacles), data, choice, grid.width, grid.length))
      ensures !visualizeUsingPrefabs ==>
        (PassState(grid.cells, dictionaryOfObstacles, ok)
         == PrimitivePass(old(grid.cells), old(dictionaryOfObstacles), data, grid.width, grid.length))
    {
      if visualizeUsingPrefabs {
        ok := VisualizeUsingPrefabs(grid, data, choice);
      } else {
        ok := VisualizeUsingPrimitives(grid, data);
      }
    }

    /** VisualizeUsingPrefabs: the road loop, then the column/row loop over the
        grid with the buffer offset growing by 3 per column and per row. */
    method VisualizeUsingPrefabs(grid: MapGrid, data: MapData, choice: seq<nat>) returns (ok: bool)
      requires grid.Valid()
      requires forall p :: p in data.path && p != data.exitPosition ==> InGrid(grid.width, grid.length, p)
      requires |data.obstacleArray| >= grid.width * grid.length && |choice| >= grid.width * grid.length
      modifies this, grid
      ensures grid.Valid()
      ensures PassState(grid.cells, dictionaryOfObstacles, ok)
        == PrefabPass(old(grid.cells), old(dictionaryOfObstacles), data, choice, grid.width, grid.length)
    {
      var w, l := grid.width, grid.length;
      PlaceRoad(grid, data);
      ghost var s0 := PassState(grid.cells, dictionaryOfObstacles, true);
      var bufferX := 0;
      var col := 0;
      while col < w
        invariant 0 <= col <= w && bufferX == 3 * col
        invariant grid.Valid()
        invariant PassState(grid.cells, dictionaryOfObstacles, true) == PrefabColumns(s0, data, choice, w, l, col)
      {
        ok := VisualizeColumn(grid, data, choice, col, bufferX);
        if !ok {
          ColumnsStuck(s0, data, choice, w, l, col + 1, w);
          return false;
        }
        bufferX := bufferX + 3;
        col := col + 1;
      }
      ok := true;
    }

    /** The road loop of VisualizeUsingPrefabs: SetCell(Road) at every path
        position other than the exit position. */
    method PlaceRoad(grid: MapGrid, data: MapData)
      requires grid.Valid()
      requires forall p :: p in data.path && p != data.exitPosition ==> InGrid(grid.width, grid.length, p)
      modifies grid
      ensures grid.Valid()
      ensures grid.cells == PaveRoad(old(grid.cells), grid.width, grid.length, data.path, data.exitPosition)
    {
      var w, l := grid.width, grid.length;
      var i := 0;
      while i < |data.path|
        invariant 0 <= i <= |data.path|
        invariant grid.Valid()
        invariant grid.cells == PaveRoad(old(grid.cells), w, l, data.path[..i], data.exitPosition)
      {
        var position := data.path[i];
        if position != data.exitPosition {
          grid.SetCell(position.x, position.z, Road);
        }
        assert data.path[..i + 1][..i] == data.path[..i];
        i := i + 1;
      }
      assert data.path[..i] == data.path;
    }

    /** The inner loop of VisualizeUsingPrefabs over the rows of column col. */
    method VisualizeColumn(grid: MapGrid, data: MapData, choice: seq<nat>, col: int, bufferX: int) returns (ok: bool)
      requires grid.Valid() && 0 <= col < grid.width && bufferX == 3 * col
      requires |data.obstacleArray| >= grid.width * grid.length && |choice| >= grid.width * grid.length
      modifies this, grid
      ensures grid.Valid()
      ensures PassState(grid.cells, dictionaryOfObstacles, ok)
        == PrefabColumn(PassState(old(grid.cells), old(dictionaryOfObstacles), true), data, choice, grid.width, grid.length, col, grid.length)
    {
      var w, l := grid.width, grid.length;
      ghost var sc := PassState(grid.cells, dictionaryOfObstacles, true);
      var bufferZ := 0;
      var row := 0;
      while row < l
        invariant 0 <= row <= l && bufferZ == 3 * row
        invariant grid.Valid()
        invariant PassState(grid.cells, dictionaryOfObstacles, true) == PrefabColumn(sc, data, choice, w, l, col, row)
      {
        ok := VisualizeCell(grid, data, choice, col, row, bufferX, bufferZ);
        if !ok {
          ColumnStuck(sc, data, choice, w, l, col, row + 1, l);
          return false;
        }
        bufferZ := bufferZ + 3;
        row := row + 1;
      }
      ok := true;
    }

    /** The body of the grid loop of VisualizeUsingPrefabs for the cell
        (col, row), with the buffer offset it has reached. */
    method VisualizeCell(grid: MapGrid, data: MapData, choice: seq<nat>, col: int, row: int, bufferX: int, bufferZ: int)
      returns (ok: bool)
      requires grid.Valid() && 0 <= col < grid.width && 0 <= row < grid.length
      requires bufferX == 3 * col && bufferZ == 3 * row
      requires |data.obstacleArray| >= grid.width * grid.length && |choice| >= grid.width * grid.length
      modifies this, grid
      ensures grid.Valid()
      ensures PassState(grid.cells, dictionaryOfObstacles, ok)
        == VisitPrefab(PassState(old(grid.cells), old(dictionaryOfObstacles), true), data, choice, grid.width, grid.length, col, row)
    {
      var w, l := grid.width, grid.length;
      var cell := grid.cells[row][col];
      var position := Position(col, row);
      IndexBounds(w, l, col, row);
      var index := IndexFromCoordinates(w, position.x, position.z);
      if data.obstacleArray[index] && !cell.isTaken {
        cell := cell.(objectType := Obstacle);
        grid.cells := WithCell(grid.cells, w, l, position, cell);
      }
      var tiles := CellTiles(data, cell.objectType, position, choice[index]);
      var key := Position(position.x + bufferX, position.z + bufferZ);
      if tiles.None? {
        return false;
      }
      ghost var mid := PassState(grid.cells, dictionaryOfObstacles, true);
      assert key == PrefabKey(col, row);
      assert VisitPrefab(PassState(old(grid.cells), old(dictionaryOfObstacles), true), data, choice, w, l, col, row)
             == PutAll(mid, key, tiles.value);
      ok := true;
      if |tiles.value| == 1 {
        ok := CreateIndicator(key, tiles.value[0]);
        assert tiles.value[1..] == [];
        assert PutAll(mid, key, tiles.value) == Put(mid, key, tiles.value[0]);
      }
    }

    /** VisualizeUsingPrimitives: start and exit spheres, then one cube per
        obstacle bit, skipping the start and exit cells; a knight piece gets a
        red cube, any other obstacle a white one unless its key is present. */
    method VisualizeUsingPrimitives(grid: MapGrid, data: MapData) returns (ok: bool)
      requires grid.Valid()
      requires |data.obstacleArray| <= grid.width * grid.length
      modifies this, grid
      ensures grid.Valid()
      ensures PassState(grid.cells, dictionaryOfObstacles, ok)
        == PrimitivePass(old(grid.cells), old(dictionaryOfObstacles), data, grid.width, grid.length)
    {
      var w, l := grid.width, grid.length;
      ghost var s0 := StartAndExitPoints(PassState(grid.cells, dictionaryOfObstacles, true), data);
      ok := PlaceStartAndExitPoints(data);
      if !ok {
        PrimitiveStuck(s0, data, w, l, 0, |data.obstacleArray|);
        return;
      }
      for i := 0 to |data.obstacleArray|
        invariant grid.Valid()
        invariant PassState(grid.cells, dictionaryOfObstacles, true) == PrimitiveLoop(s0, data, w, l, i)
      {
        if data.obstacleArray[i] {
          var positionOnGrid := CoordinatesFromIndex(w, i);
          if positionOnGrid == data.startPosition || positionOnGrid == data.exitPosition {
            continue;
          }
          CoordinatesRoundTrip(w, l, i);
          grid.SetCell(positionOnGrid.x, positionOnGrid.z, Obstacle);
          var isKnight;
          isKnight, ok := PlaceKnightObstacle(data, positionOnGrid);
          if !ok {
            PrimitiveStuck(s0, data, w, l, i + 1, |data.obstacleArray|);
            return;
          }
          if isKnight {
            continue;
          }
          if positionOnGrid !in dictionaryOfObstacles {
            ok := CreateIndicator(positionOnGrid, Primitive(Cube, White));
          }
        }
      }
      ok := true;
    }

    /** PlaceKnightObstacle: scans the knight pieces; on the first one at the
        position a red cube is created there. */
    method PlaceKnightObstacle(data: MapData, positionOnGrid: Position) returns (isKnight: bool, ok: bool)
      modifies this
      ensures isKnight <==> positionOnGrid in data.knightPiecesList
      ensures isKnight ==> (ok <==> positionOnGrid !in old(dictionaryOfObstacles))
      ensures isKnight && ok ==> dictionaryOfObstacles == old(dictionaryOfObstacles)[positionOnGrid := Primitive(Cube, Red)]
      ensures !(isKnight && ok) ==> dictionaryOfObstacles == old(dictionaryOfObstacles)
      ensures !isKnight ==> ok
    {
      for k := 0 to |data.knightPiecesList|
        invariant positionOnGrid !in data.knightPiecesList[..k]
        invariant dictionaryOfObstacles == old(dictionaryOfObstacles)
      {
        if data.knightPiecesList[k] == positionOnGrid {
          ok := CreateIndicator(positionOnGrid, Primitive(Cube, Red));
          return true, ok;
        }
        assert data.knightPiecesList[..k + 1] == data.knightPiecesList[..k] + [data.knightPiecesList[k]];
      }
      assert data.knightPiecesList[..|data.knightPiecesList|] == data.knightPiecesList;
      return false, true;
    }

    /** PlaceStartAndExitPoints: fails when the start key is present, or the
        exit key is present or equal to the start. */
    method PlaceStartAndExitPoints(data: MapData) returns (ok: bool)
      modifies this
      ensures ok <==> data.startPosition != data.exitPosition
                      && data.startPosition !in old(dictionaryOfObstacles)
                      && data.exitPosition !in old(dictionaryOfObstacles)
      ensures forall cells :: StartAndExitPoints(PassState(cells, old(dictionaryOfObstacles), true), data)
                              == PassState(cells, dictionaryOfObstacles, ok)
    {
      ok := CreateIndicator(data.startPosition, Primitive(Sphere, StartColor));
      if ok {
        ok := CreateIndicator(data.exitPosition, Primitive(Sphere, ExitColor));
      }
    }
  }
}
