/**
 * What the two visualization passes produce when they start from an empty
 * dictionary (after ClearMap): which cells get which type, which keys get
 * which indicator, and exactly when a pass throws.
 */
module VisualizerProperties {
  import opened Snapshot
  import opened Grid
  import opened Directions
  import opened Tiles
  import opened Visualizer
  import opened PassOutcomes

  // ---------------------------------------------------------------------
  // Primitive pass
  // ---------------------------------------------------------------------

  /** One obstacle bit keeps the outcome. */
  lemma {:induction false} PrimitiveStepKeepsOutcome(t: PassState, cells: seq<seq<Cell>>, data: MapData, w: nat, l: nat, n: nat)
    requires w > 0 && WellFormed(t.cells, w, l) && WellFormed(cells, w, l) && n < |data.obstacleArray| <= w * l
    requires PrimitiveOutcome(t, cells, data, w, l, n)
    ensures PrimitiveOutcome(PrimitiveStep(t, data, w, l, n), cells, data, w, l, n + 1)
  {
    var t' := PrimitiveStep(t, data, w, l, n);
    var p := CoordinatesFromIndex(w, n);
    CoordinatesRoundTrip(w, l, n);
    forall z, x | 0 <= z < l && 0 <= x < w
      ensures IndexFromCoordinates(w, x, z) == n ==> Position(x, z) == p
    {
      IndexRoundTrip(w, l, x, z);
    }
    forall i | 0 <= i < n
      ensures CoordinatesFromIndex(w, i) != p
    {
      CoordinatesInjective(w, i, n);
    }
    if DrawnObstacle(data, w, n) {
      assert p !in t.dict;
      assert t'.dict == t.dict[p := ObstacleIndicator(data, p)];
    } else {
      assert t' == t;
    }
  }

  lemma {:induction false} PrimitiveLoopOutcome(s: PassState, cells: seq<seq<Cell>>, data: MapData, w: nat, l: nat, n: nat)
    requires w > 0 && WellFormed(s.cells, w, l) && WellFormed(cells, w, l) && n <= |data.obstacleArray| <= w * l
    requires PrimitiveOutcome(s, cells, data, w, l, 0)
    ensures PrimitiveOutcome(PrimitiveLoop(s, data, w, l, n), cells, data, w, l, n)
    decreases n
  {
    if n > 0 {
      PrimitiveLoopOutcome(s, cells, data, w, l, n - 1);
      PrimitiveStepKeepsOutcome(PrimitiveLoop(s, data, w, l, n - 1), cells, data, w, l, n - 1);
    }
  }

  /** After ClearMap, the primitive pass throws exactly when the start and
      exit positions coincide (the second sphere's key is taken); otherwise
      it ends with the spheres, one cube per drawn obstacle and nothing else,
      and the drawn obstacle cells typed Obstacle. */
  lemma PrimitivePassFromEmpty(cells: seq<seq<Cell>>, data: MapData, w: nat, l: nat)
    requires w > 0 && WellFormed(cells, w, l) && |data.obstacleArray| <= w * l
    ensures PrimitivePass(cells, map[], data, w, l).ok <==> data.startPosition != data.exitPosition
    ensures data.startPosition != data.exitPosition ==>
      PrimitiveOutcome(PrimitivePass(cells, map[], data, w, l), cells, data, w, l, |data.obstacleArray|)
  {
    var s := StartAndExitPoints(PassState(cells, map[], true), data);
    if data.startPosition == data.exitPosition {
      PrimitiveStuck(s, data, w, l, 0, |data.obstacleArray|);
    } else {
      PrimitiveLoopOutcome(s, cells, data, w, l, |data.obstacleArray|);
    }
  }

  /** The primitive pass never touches the start and exit cells. */
  lemma PrimitiveSkipsStartAndExit(cells: seq<seq<Cell>>, data: MapData, w: nat, l: nat)
    requires w > 0 && WellFormed(cells, w, l) && |data.obstacleArray| <= w * l
    requires data.startPosition != data.exitPosition
    ensures var t := PrimitivePass(cells, map[], data, w, l);
      && (InGrid(w, l, data.startPosition) ==>
            t.cells[data.startPosition.z][data.startPosition.x] == cells[data.startPosition.z][data.startPosition.x])
      && (InGrid(w, l, data.exitPosition) ==>
            t.cells[data.exitPosition.z][data.exitPosition.x] == cells[data.exitPosition.z][data.exitPosition.x])
  {
    PrimitivePassFromEmpty(cells, data, w, l);
    if InGrid(w, l, data.startPosition) {
      IndexRoundTrip(w, l, data.startPosition.x, data.startPosition.z);
    }
    if InGrid(w, l, data.exitPosition) {
      IndexRoundTrip(w, l, data.exitPosition.x, data.exitPosition.z);
    }
  }

  // ---------------------------------------------------------------------
  // Prefab pass
  // ---------------------------------------------------------------------

  /** One visit of a running pass at a cell still as paved gives that cell
      its type and leaves every other cell alone. */
  lemma VisitCells(t: PassState, paved: seq<seq<Cell>>, data: MapData, choice: seq<nat>, w: nat, l: nat, c: int, r: int)
    requires WellFormed(t.cells, w, l) && WellFormed(paved, w, l) && |data.obstacleArray| >= w * l && |choice| >= w * l
    requires 0 <= c < w && 0 <= r < l
    requires t.ok && t.cells[r][c] == paved[r][c]
    ensures var t' := VisitPrefab(t, data, choice, w, l, c, r);
      && t'.cells[r][c] == TypedAt(paved, data, w, l, c, r)
      && (forall z, x :: 0 <= z < l && 0 <= x < w && (z != r || x != c) ==> t'.cells[z][x] == t.cells[z][x])
  {
    IndexBounds(w, l, c, r);
    var bit := data.obstacleArray[IndexFromCoordinates(w, c, r)];
    var cell := Retyped(t.cells[r][c], bit);
    var cells := if bit && !t.cells[r][c].isTaken then WithCell(t.cells, w, l, Position(c, r), cell) else t.cells;
    assert VisitPrefab(t, data, choice, w, l, c, r).cells == cells;
  }

  /** One visit of a running pass: it throws when the cell's decision does;
      otherwise the decision's indicator, if any, is added under the cell's
      key, and the visit throws exactly when that key is already present. */
  lemma VisitDict(t: PassState, paved: seq<seq<Cell>>, data: MapData, choice: seq<nat>, w: nat, l: nat, c: int, r: int)
    requires WellFormed(t.cells, w, l) && WellFormed(paved, w, l) && |data.obstacleArray| >= w * l && |choice| >= w * l
    requires 0 <= c < w && 0 <= r < l
    requires t.ok && t.cells[r][c] == paved[r][c]
    ensures var t' := VisitPrefab(t, data, choice, w, l, c, r);
      var d := DecisionAt(paved, data, choice, w, l, c, r);
      && (d.None? ==> !t'.ok)
      && (d.Some? && d.value == [] ==> t'.ok && t'.dict == t.dict)
      && (d.Some? && d.value != [] ==>
            (t'.ok <==> PrefabKey(c, r) !in t.dict)
            && (t'.ok ==> t'.dict == t.dict[PrefabKey(c, r) := d.value[0]]))
  {
    IndexBounds(w, l, c, r);
    var index := IndexFromCoordinates(w, c, r);
    var bit := data.obstacleArray[index];
    var cell := Retyped(t.cells[r][c], bit);
    var cells := if bit && !t.cells[r][c].isTaken then WithCell(t.cells, w, l, Position(c, r), cell) else t.cells;
    var d := CellTiles(data, cell.objectType, Position(c, r), choice[index]);
    assert d == DecisionAt(paved, data, choice, w, l, c, r);
    var t' := VisitPrefab(t, data, choice, w, l, c, r);
    if d.Some? {
      var u := PassState(cells, t.dict, true);
      assert t' == PutAll(u, PrefabKey(c, r), d.value);
      if d.value != [] {
        assert d.value == [d.value[0]];
        assert PutAll(u, PrefabKey(c, r), d.value) == PutAll(Put(u, PrefabKey(c, r), d.value[0]), PrefabKey(c, r), []);
      }
    }
  }

  lemma CellsStep(cells: seq<seq<Cell>>, next: seq<seq<Cell>>, paved: seq<seq<Cell>>, data: MapData, w: nat, l: nat, c: int, r: int)
    requires WellFormed(cells, w, l) && WellFormed(next, w, l) && WellFormed(paved, w, l) && |data.obstacleArray| >= w * l
    requires 0 <= c < w && 0 <= r < l
    requires CellsOutcome(cells, paved, data, w, l, c, r)
    requires next[r][c] == TypedAt(paved, data, w, l, c, r)
    requires forall z, x :: 0 <= z < l && 0 <= x < w && (z != r || x != c) ==> next[z][x] == cells[z][x]
    ensures CellsOutcome(next, paved, data, w, l, c, r + 1)
  {
  }

  lemma DictStep(dict: map<Position, Indicator>, paved: seq<seq<Cell>>, data: MapData, choice: seq<nat>, w: nat, l: nat, c: int, r: int)
    requires WellFormed(paved, w, l) && |data.obstacleArray| >= w * l && |choice| >= w * l
    requires 0 <= c < w && 0 <= r < l
    requires DictOutcome(dict, paved, data, choice, w, l, c, r)
    requires DecisionAt(paved, data, choice, w, l, c, r).Some?
    ensures PrefabKey(c, r) !in dict
    ensures var d := DecisionAt(paved, data, choice, w, l, c, r).value;
      DictOutcome(if d == [] then dict else dict[PrefabKey(c, r) := d[0]], paved, data, choice, w, l, c, r + 1)
  {
    var key := PrefabKey(c, r);
    forall z, x | 0 <= z < l && 0 <= x < w && PrefabKey(x, z) == key
      ensures x == c && z == r
    {
    }
  }

  lemma {:induction false} VisitKeepsProgress(t: PassState, paved: seq<seq<Cell>>, data: MapData, choice: seq<nat>,
                                              w: nat, l: nat, c: int, r: int)
    requires WellFormed(t.cells, w, l) && WellFormed(paved, w, l) && |data.obstacleArray| >= w * l && |choice| >= w * l
    requires 0 <= c < w && 0 <= r < l
    requires PrefabProgress(t, paved, data, choice, w, l, c, r)
    ensures PrefabProgress(VisitPrefab(t, data, choice, w, l, c, r), paved, data, choice, w, l, c, r + 1)
  {
    var t' := VisitPrefab(t, data, choice, w, l, c, r);
    var d := DecisionAt(paved, data, choice, w, l, c, r);
    if !t.ok {
      assert t' == t;
      assert !AllDecided(paved, data, choice, w, l, c, r);
    } else {
      assert t.cells[r][c] == paved[r][c];
      VisitCells(t, paved, data, choice, w, l, c, r);
      VisitDict(t, paved, data, choice, w, l, c, r);
      if d.None? {
        assert !Visited(c, r, c, r);
      } else {
        DictStep(t.dict, paved, data, choice, w, l, c, r);
        CellsStep(t.cells, t'.cells, paved, data, w, l, c, r);
      }
    }
  }

  lemma {:induction false} ColumnKeepsProgress(t: PassState, paved: seq<seq<Cell>>, data: MapData, choice: seq<nat>,
                                               w: nat, l: nat, c: int, rows: nat)
    requires WellFormed(t.cells, w, l) && WellFormed(paved, w, l) && |data.obstacleArray| >= w * l && |choice| >= w * l
    requires 0 <= c < w && rows <= l
    requires PrefabProgress(t, paved, data, choice, w, l, c, 0)
    ensures PrefabProgress(PrefabColumn(t, data, choice, w, l, c, rows), paved, data, choice, w, l, c, rows)
    decreases rows
  {
    if rows > 0 {
      ColumnKeepsProgress(t, paved, data, choice, w, l, c, rows - 1);
      RowKeepsProgress(t, paved, data, choice, w, l, c, rows - 1);
    }
  }

  /** The step of the column induction: visiting row r extends the
      invariant from the column's first r rows to its first r + 1. */
  lemma RowKeepsProgress(t: PassState, paved: seq<seq<Cell>>, data: MapData, choice: seq<nat>,
                         w: nat, l: nat, c: int, r: nat)
    requires WellFormed(t.cells, w, l) && WellFormed(paved, w, l) && |data.obstacleArray| >= w * l && |choice| >= w * l
    requires 0 <= c < w && r < l
    requires PrefabProgress(PrefabColumn(t, data, choice, w, l, c, r), paved, data, choice, w, l, c, r)
    ensures PrefabProgress(PrefabColumn(t, data, choice, w, l, c, r + 1), paved, data, choice, w, l, c, r + 1)
  {
    VisitKeepsProgress(PrefabColumn(t, data, choice, w, l, c, r), paved, data, choice, w, l, c, r);
  }

  /** Finishing column c is the same as standing before column c + 1. */
  lemma NextColumn(t: PassState, paved: seq<seq<Cell>>, data: MapData, choice: seq<nat>, w: nat, l: nat, c: int)
    requires WellFormed(t.cells, w, l) && WellFormed(paved, w, l) && |data.obstacleArray| >= w * l && |choice| >= w * l
    requires PrefabProgress(t, paved, data, choice, w, l, c, l)
    ensures PrefabProgress(t, paved, data, choice, w, l, c + 1, 0)
  {
    assert forall x, z :: 0 <= z < l ==> (Visited(x, z, c, l) <==> Visited(x, z, c + 1, 0));
  }

  /** A whole column keeps the invariant, from before its first cell to
      before the first cell of the next column. */
  lemma WholeColumn(t: PassState, paved: seq<seq<Cell>>, data: MapData, choice: seq<nat>, w: nat, l: nat, c: int)
    requires WellFormed(t.cells, w, l) && WellFormed(paved, w, l) && |data.obstacleArray| >= w * l && |choice| >= w * l
    requires 0 <= c < w
    requires PrefabProgress(t, paved, data, choice, w, l, c, 0)
    ensures PrefabProgress(PrefabColumn(t, data, choice, w, l, c, l), paved, data, choice, w, l, c + 1, 0)
  {
    ColumnKeepsProgress(t, paved, data, choice, w, l, c, l);
    NextColumn(PrefabColumn(t, data, choice, w, l, c, l), paved, data, choice, w, l, c);
  }

  lemma {:induction false} ColumnsKeepProgress(s: PassState, paved: seq<seq<Cell>>, data: MapData, choice: seq<nat>,
                                               w: nat, l: nat, cols: nat)
    requires WellFormed(s.cells, w, l) && WellFormed(paved, w, l) && |data.obstacleArray| >= w * l && |choice| >= w * l
    requires cols <= w
    requires PrefabProgress(s, paved, data, choice, w, l, 0, 0)
    ensures PrefabProgress(PrefabColumns(s, data, choice, w, l, cols), paved, data, choice, w, l, cols, 0)
    decreases cols
  {
    if cols > 0 {
      ColumnsKeepProgress(s, paved, data, choice, w, l, cols - 1);
      WholeColumn(PrefabColumns(s, data, choice, w, l, cols - 1), paved, data, choice, w, l, cols - 1);
    }
  }

  /** Before the first cell, a running pass over the paved cells with an
      empty dictionary has the (empty) outcome. */
  lemma StartProgress(paved: seq<seq<Cell>>, data: MapData, choice: seq<nat>, w: nat, l: nat)
    requires WellFormed(paved, w, l) && |data.obstacleArray| >= w * l && |choice| >= w * l
    ensures PrefabProgress(PassState(paved, map[], true), paved, data, choice, w, l, 0, 0)
  {
    assert forall x, z :: 0 <= x < w && 0 <= z < l ==> !Visited(x, z, 0, 0);
  }

  /** Standing before column w, every grid cell has been visited. */
  lemma EndDecided(paved: seq<seq<Cell>>, data: MapData, choice: seq<nat>, w: nat, l: nat)
    requires WellFormed(paved, w, l) && |data.obstacleArray| >= w * l && |choice| >= w * l
    ensures AllDecided(paved, data, choice, w, l, w, 0) <==>
      forall x, z :: 0 <= x < w && 0 <= z < l ==> DecisionAt(paved, data, choice, w, l, x, z).Some?
  {
    assert forall x, z :: 0 <= x < w && 0 <= z < l ==> Visited(x, z, w, 0);
  }

  /** The whole grid loop over cells that are already paved, from an empty
      dictionary. */
  lemma ColumnsFromEmpty(paved: seq<seq<Cell>>, data: MapData, choice: seq<nat>, w: nat, l: nat)
    requires WellFormed(paved, w, l) && |data.obstacleArray| >= w * l && |choice| >= w * l
    ensures var t := PrefabColumns(PassState(paved, map[], true), data, choice, w, l, w);
      && (t.ok <==> forall x, z :: 0 <= x < w && 0 <= z < l ==> DecisionAt(paved, data, choice, w, l, x, z).Some?)
      && (t.ok ==> PrefabOutcome(t, paved, data, choice, w, l, w, 0))
  {
    StartProgress(paved, data, choice, w, l);
    ColumnsKeepProgress(PassState(paved, map[], true), paved, data, choice, w, l, w);
    EndDecided(paved, data, choice, w, l);
  }

  /** After ClearMap, with `paved` the cells after the road loop: the prefab
      pass throws exactly when some cell's tile decision throws (a Road cell
      whose next path cell cannot be read); otherwise every cell has its final
      type and every cell that got an indicator has it under its own key, with
      no other key. */
  lemma PrefabPassFromEmpty(cells: seq<seq<Cell>>, paved: seq<seq<Cell>>, data: MapData, choice: seq<nat>, w: nat, l: nat)
    requires WellFormed(cells, w, l)
    requires forall p :: p in data.path && p != data.exitPosition ==> InGrid(w, l, p)
    requires |data.obstacleArray| >= w * l && |choice| >= w * l
    requires paved == PaveRoad(cells, w, l, data.path, data.exitPosition)
    ensures PrefabPass(cells, map[], data, choice, w, l).ok <==>
      (forall x, z :: 0 <= x < w && 0 <= z < l ==> DecisionAt(paved, data, choice, w, l, x, z).Some?)
    ensures PrefabPass(cells, map[], data, choice, w, l).ok ==>
      PrefabOutcome(PrefabPass(cells, map[], data, choice, w, l), paved, data, choice, w, l, w, 0)
  {
    ColumnsFromEmpty(paved, data, choice, w, l);
  }

  /** After a prefab pass that did not throw, every path cell other than the
      exit is a taken Road cell (an obstacle bit there is ignored), and every
      other cell is typed by the obstacle rule from what it was before. */
  lemma PrefabPassCellTypes(cells: seq<seq<Cell>>, paved: seq<seq<Cell>>, data: MapData, choice: seq<nat>, w: nat, l: nat)
    requires WellFormed(cells, w, l)
    requires forall p :: p in data.path && p != data.exitPosition ==> InGrid(w, l, p)
    requires |data.obstacleArray| >= w * l && |choice| >= w * l
    requires paved == PaveRoad(cells, w, l, data.path, data.exitPosition)
    requires PrefabPass(cells, map[], data, choice, w, l).ok
    ensures var t := PrefabPass(cells, map[], data, choice, w, l);
      forall z, x {:trigger t.cells[z][x]} :: 0 <= z < l && 0 <= x < w ==>
        t.cells[z][x] == if Position(x, z) in data.path && Position(x, z) != data.exitPosition
                         then Cell(Road, true)
                         else TypedAt(cells, data, w, l, x, z)
  {
    var t := PrefabPass(cells, map[], data, choice, w, l);
    PrefabPassFromEmpty(cells, paved, data, choice, w, l);
    forall z, x | 0 <= z < l && 0 <= x < w
      ensures t.cells[z][x] == if Position(x, z) in data.path && Position(x, z) != data.exitPosition
                               then Cell(Road, true)
                               else TypedAt(cells, data, w, l, x, z)
    {
      assert Visited(x, z, w, 0);
      assert t.cells[z][x] == TypedAt(paved, data, w, l, x, z);
    }
  }
}
