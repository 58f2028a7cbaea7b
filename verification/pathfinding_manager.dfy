/** The pathfinding grid (Scripts/PathfindingManager.cs): a fixed 256 by 256
    grid of A* points with 8-neighbour connections, building occupancy that
    disables points, and the guards around the A* query. The A* search itself
    (Godot's `AStar2D.GetPointPath`) is an oracle supplied by the caller. */
module PathfindingManager {
  import opened Wrappers
  import opened Numeric
  import opened Geometry
  import opened EntityModels
  import GameState
  import IdMap

  const GridWidth := 256
  const GridHeight := 256

  /** A grid coordinate (Godot's `Vector2I`). */
  datatype Cell = Cell(x: int, y: int)

  predicate InBounds(c: Cell) {
    0 <= c.x < GridWidth && 0 <= c.y < GridHeight
  }

  /** `GetPointId`: the row-major point id `y * width + x`. */
  function PointId(c: Cell): (id: int)
    ensures InBounds(c) ==> 0 <= id < GridWidth * GridHeight
  {
    c.y * GridWidth + c.x
  }

  /** The cell a point id denotes. */
  function CellOf(id: int): Cell {
    Cell(id % GridWidth, id / GridWidth)
  }

  /** On in-bounds cells the point id is a bijection onto [0, width * height):
      it lands in that range and decoding it gives the cell back. */
  lemma PointIdIsBijective(c: Cell)
    requires InBounds(c)
    ensures 0 <= PointId(c) < GridWidth * GridHeight
    ensures CellOf(PointId(c)) == c
  {
  }

  /** Every id in [0, width * height) is the id of an in-bounds cell. */
  lemma PointIdIsOnto(id: int)
    requires 0 <= id < GridWidth * GridHeight
    ensures InBounds(CellOf(id)) && PointId(CellOf(id)) == id
  {
  }

  /** Two in-bounds cells with the same id are the same cell. */
  lemma PointIdIsInjective(a: Cell, b: Cell)
    requires InBounds(a) && InBounds(b) && PointId(a) == PointId(b)
    ensures a == b
  {
    PointIdIsBijective(a);
    PointIdIsBijective(b);
  }

  /** The ids `InitializeGrid` adds: one per in-bounds cell. */
  function GridPoints(): set<int> {
    set x, y | 0 <= x < GridWidth && 0 <= y < GridHeight :: PointId(Cell(x, y))
  }

  /** `astar.HasPoint(id)`. */
  function HasPoint(id: int): bool {
    id in GridPoints()
  }

  /** The grid's points are exactly the ids 0 to width * height - 1. */
  lemma HasPointIff(id: int)
    ensures HasPoint(id) <==> 0 <= id < GridWidth * GridHeight
  {
    if 0 <= id < GridWidth * GridHeight {
      var c := CellOf(id);
      PointIdIsOnto(id);
      assert PointId(Cell(c.x, c.y)) in GridPoints();
    }
  }

  /** The 3 by 3 block of cells at offsets -1..1 in each axis around `c`. */
  function Block(c: Cell): set<Cell> {
    { Cell(c.x - 1, c.y - 1), Cell(c.x - 1, c.y), Cell(c.x - 1, c.y + 1),
      Cell(c.x, c.y - 1), Cell(c.x, c.y), Cell(c.x, c.y + 1),
      Cell(c.x + 1, c.y - 1), Cell(c.x + 1, c.y), Cell(c.x + 1, c.y + 1) }
  }

  lemma BlockIff(a: Cell, c: Cell)
    ensures c in Block(a) <==> -1 <= c.x - a.x <= 1 && -1 <= c.y - a.y <= 1
  {
  }

  /** The cells `InitializeGrid` connects `c` to: the in-bounds cells of its
      block other than `c` itself. */
  function Neighbours(c: Cell): set<Cell> {
    set n | n in Block(c) && n != c && InBounds(n)
  }

  /** `ArePointsConnected` after `InitializeGrid`: `ConnectPoints` is
      bidirectional, so a pair is connected when either end listed the other. */
  predicate Connected(a: Cell, b: Cell) {
    (InBounds(a) && b in Neighbours(a)) || (InBounds(b) && a in Neighbours(b))
  }

  /** Each in-bounds cell is connected to exactly its in-bounds 8-neighbours. */
  lemma ConnectedIff(a: Cell, b: Cell)
    ensures Connected(a, b) <==>
      && InBounds(a) && InBounds(b) && a != b
      && -1 <= b.x - a.x <= 1 && -1 <= b.y - a.y <= 1
  {
    BlockIff(a, b);
    BlockIff(b, a);
  }

  /** Connectivity is symmetric and never links a cell to itself. */
  lemma ConnectedIsSymmetricAndIrreflexive(a: Cell, b: Cell)
    ensures Connected(a, b) <==> Connected(b, a)
    ensures !Connected(a, a)
  {
    ConnectedIff(a, b);
    ConnectedIff(b, a);
    ConnectedIff(a, a);
  }

  /** Occupancy state: the cells blocked by buildings and the A* points that
      are disabled. */
  datatype Grid = Grid(occupied: set<Cell>, disabled: set<int>)

  /** The grid right after `InitializeGrid`: nothing blocked, nothing disabled. */
  function InitialGrid(): (g: Grid)
    ensures Consistent(g) && g.occupied == {}
  {
    Grid({}, {})
  }

  /** A cell is disabled exactly when it is occupied. */
  ghost predicate Consistent(g: Grid) {
    && (forall c :: c in g.occupied ==> InBounds(c))
    && g.disabled == PointIds(g.occupied)
  }

  function PointIds(cells: set<Cell>): set<int> {
    set c | c in cells :: PointId(c)
  }

  /** The anchor cell of a building: its coordinates truncated by `(int)`. */
  function Anchor(b: Building): Cell {
    Cell(Trunc(b.x), Trunc(b.y))
  }

  /** The in-bounds part of the 3 by 3 block around a building's anchor. */
  function Footprint(b: Building): set<Cell> {
    set c | c in Block(Anchor(b)) && InBounds(c)
  }

  /** `c` lies in the 3 by 3 block around the anchor of `b`. */
  predicate Near(c: Cell, b: Building) {
    var a := Anchor(b);
    -1 <= c.x - a.x <= 1 && -1 <= c.y - a.y <= 1
  }

  lemma FootprintIff(b: Building, c: Cell)
    ensures c in Footprint(b) <==> InBounds(c) && Near(c, b)
  {
    BlockIff(Anchor(b), c);
  }

  /** Some visible own or visible enemy building has `c` in its 3 by 3 block. */
  ghost predicate Blocked(st: GameState.State, c: Cell) {
    || (exists id :: id in st.buildings && st.buildings[id].visible && Near(c, st.buildings[id]))
    || (exists id :: id in st.enemyBuildings && st.enemyBuildings[id].visible && Near(c, st.enemyBuildings[id]))
  }

  /** Reference definition of the occupied set: the in-bounds cells that some
      visible building blocks. */
  ghost function OccupiedBy(st: GameState.State): set<Cell> {
    set x, y | 0 <= x < GridWidth && 0 <= y < GridHeight && Blocked(st, Cell(x, y)) :: Cell(x, y)
  }

  /** The cells the footprints of the given buildings cover. */
  ghost function FootprintsOf(bs: map<int, Building>, ids: set<int>): set<Cell> {
    set id, c | id in ids && id in bs && c in Footprint(bs[id]) :: c
  }

  /** The occupancy `UpdateOccupiedTiles` leaves: blocks depend only on the
      mirror, and the points previously disabled for occupancy are re-enabled. */
  ghost function Occupancy(g: Grid, st: GameState.State): Grid {
    Grid(OccupiedBy(st), (g.disabled - PointIds(g.occupied)) + PointIds(OccupiedBy(st)))
  }

  /** Some element of a non-empty id set (the order a map is enumerated in). */
  method PickId(ids: set<int>) returns (id: int)
    requires ids != {}
    ensures id in ids
  {
    if forall k :: k !in ids {
      assert false;
    }
    id :| id in ids;
  }

  /** Marks the footprint of every building of `bs` as occupied and disabled. */
  method BlockFootprints(bs: map<int, Building>, occupied: set<Cell>, disabled: set<int>)
    returns (occupied': set<Cell>, disabled': set<int>)
    requires PointIds(occupied) <= disabled
    ensures occupied' == occupied + FootprintsOf(bs, bs.Keys)
    ensures disabled' == disabled + PointIds(occupied')
  {
    occupied', disabled' := occupied, disabled;
    var todo := bs.Keys;
    while todo != {}
      invariant todo <= bs.Keys
      invariant occupied' == occupied + FootprintsOf(bs, bs.Keys - todo)
      invariant disabled' == disabled + PointIds(occupied')
      decreases todo
    {
      var id := PickId(todo);
      var block := Footprint(bs[id]);
      assert FootprintsOf(bs, bs.Keys - (todo - {id})) == FootprintsOf(bs, bs.Keys - todo) + block;
      occupied' := occupied' + block;
      disabled' := disabled' + PointIds(block);
      todo := todo - {id};
    }
  }

  /** The occupied set is the union of the footprints of the visible own and
      visible enemy buildings. */
  lemma OccupiedIsUnionOfFootprints(st: GameState.State)
    ensures OccupiedBy(st) ==
      FootprintsOf(GameState.GetVisibleBuildings(st), GameState.GetVisibleBuildings(st).Keys)
      + FootprintsOf(GameState.GetVisibleEnemyBuildings(st), GameState.GetVisibleEnemyBuildings(st).Keys)
  {
    var own := GameState.GetVisibleBuildings(st);
    var enemy := GameState.GetVisibleEnemyBuildings(st);
    var u := FootprintsOf(own, own.Keys) + FootprintsOf(enemy, enemy.Keys);
    forall c | c in OccupiedBy(st)
      ensures c in u
    {
      if exists id :: id in st.buildings && st.buildings[id].visible && Near(c, st.buildings[id]) {
        var id :| id in st.buildings && st.buildings[id].visible && Near(c, st.buildings[id]);
        FootprintIff(own[id], c);
      } else {
        var id :| id in st.enemyBuildings && st.enemyBuildings[id].visible && Near(c, st.enemyBuildings[id]);
        FootprintIff(enemy[id], c);
      }
    }
    forall c | c in u
      ensures c in OccupiedBy(st)
    {
      if c in FootprintsOf(own, own.Keys) {
        var id :| id in own && c in Footprint(own[id]);
        FootprintIff(own[id], c);
      } else {
        var id :| id in enemy && c in Footprint(enemy[id]);
        FootprintIff(enemy[id], c);
      }
    }
  }

  /** `UpdateOccupiedTiles`: re-enable every previously occupied point, clear
      the occupied set, then block and disable the footprint of every visible
      own building and every visible enemy building. */
  method UpdateOccupiedTiles(g: Grid, st: GameState.State) returns (r: Grid)
    ensures r == Occupancy(g, st)
    ensures r.occupied == OccupiedBy(st)
  {
    var disabled := g.disabled;
    var released := g.occupied;
    while released != {}
      invariant released <= g.occupied
      invariant disabled == g.disabled - PointIds(g.occupied - released)
      decreases released
    {
      IdMap.NonEmptyHasElement(released);
      var c :| c in released;
      disabled := disabled - {PointId(c)};
      released := released - {c};
      assert PointIds(g.occupied - released) == PointIds(g.occupied - (released + {c})) + {PointId(c)};
    }
    var occupied: set<Cell> := {};
    occupied, disabled := BlockFootprints(GameState.GetVisibleBuildings(st), occupied, disabled);
    occupied, disabled := BlockFootprints(GameState.GetVisibleEnemyBuildings(st), occupied, disabled);
    OccupiedIsUnionOfFootprints(st);
    r := Grid(occupied, disabled);
  }

  /** Running `UpdateOccupiedTiles` again on the grid it produced, against the
      same mirror, changes nothing. */
  lemma OccupancyIsIdempotent(g: Grid, st: GameState.State)
    ensures Occupancy(Occupancy(g, st), st) == Occupancy(g, st)
  {
    var once := Occupancy(g, st);
    var base := g.disabled - PointIds(g.occupied);
    var blocked := PointIds(OccupiedBy(st));
    assert (base + blocked) - blocked + blocked == base + blocked;
  }

  /** Starting from a grid whose disabled points are exactly its occupied
      cells (as `InitializeGrid` leaves it), the update keeps that so, and an
      in-bounds cell is then disabled exactly when some visible building's
      3 by 3 block covers it. */
  lemma DisabledIffOccupied(g: Grid, st: GameState.State, c: Cell)
    requires Consistent(g)
    requires InBounds(c)
    ensures Consistent(Occupancy(g, st))
    ensures PointId(c) in Occupancy(g, st).disabled <==> Blocked(st, c)
  {
    var r := Occupancy(g, st);
    assert g.disabled - PointIds(g.occupied) == {};
    assert r.disabled == PointIds(r.occupied);
    assert forall o :: o in r.occupied ==> InBounds(o);
    if PointId(c) in r.disabled {
      var o :| o in r.occupied && PointId(o) == PointId(c);
      PointIdIsInjective(o, c);
    }
    if Blocked(st, c) {
      assert Cell(c.x, c.y) in OccupiedBy(st);
    }
  }

  /** The anchors of the visible own and visible enemy buildings. */
  ghost function VisibleAnchors(st: GameState.State): set<Cell> {
    (set id | id in st.buildings && st.buildings[id].visible :: Anchor(st.buildings[id]))
    + (set id | id in st.enemyBuildings && st.enemyBuildings[id].visible :: Anchor(st.enemyBuildings[id]))
  }

  /** Occupancy depends on nothing but the anchors of visible buildings: hidden
      buildings, the declared `OccupiedTiles` lists and every other field are
      irrelevant. */
  lemma OccupancyDependsOnlyOnVisibleAnchors(st1: GameState.State, st2: GameState.State)
    requires VisibleAnchors(st1) == VisibleAnchors(st2)
    ensures OccupiedBy(st1) == OccupiedBy(st2)
  {
    forall st: GameState.State, c: Cell
      ensures Blocked(st, c) <==> exists a :: a in VisibleAnchors(st) && -1 <= c.x - a.x <= 1 && -1 <= c.y - a.y <= 1
    {
      if Blocked(st, c) {
        if exists id :: id in st.buildings && st.buildings[id].visible && Near(c, st.buildings[id]) {
          var id :| id in st.buildings && st.buildings[id].visible && Near(c, st.buildings[id]);
          assert Anchor(st.buildings[id]) in VisibleAnchors(st);
        } else {
          var id :| id in st.enemyBuildings && st.enemyBuildings[id].visible && Near(c, st.enemyBuildings[id]);
          assert Anchor(st.enemyBuildings[id]) in VisibleAnchors(st);
        }
      }
    }
  }

  /** `GetPointPath`, which the model does not look into: any function from the
      disabled points and the two endpoint ids to a sequence of points. */
  type Oracle = (set<int>, int, int) -> seq<Vec2>

  /** The point id `FindPath` computes for a position: both coordinates are
      truncated and combined without a bounds check. */
  function PositionId(p: Vec2): int {
    PointId(Cell(Trunc(p.x), Trunc(p.y)))
  }

  /** `FindPath`: empty when either endpoint id is not a grid point or the
      search finds nothing, otherwise the search's path as it is. */
  function FindPath(g: Grid, from: Vec2, to: Vec2, oracle: Oracle): (path: seq<Vec2>)
    ensures !(0 <= PositionId(from) < GridWidth * GridHeight) ==> path == []
    ensures !(0 <= PositionId(to) < GridWidth * GridHeight) ==> path == []
    ensures 0 <= PositionId(from) < GridWidth * GridHeight && 0 <= PositionId(to) < GridWidth * GridHeight
      ==> path == oracle(g.disabled, PositionId(from), PositionId(to))
  {
    var fromId := PositionId(from);
    var toId := PositionId(to);
    HasPointIff(fromId);
    HasPointIff(toId);
    if !HasPoint(fromId) || !HasPoint(toId) then []
    else
      var path := oracle(g.disabled, fromId, toId);
      if |path| == 0 then [] else path
  }

  /** The guard only checks that the id exists, so a position just past the
      right edge of any row but the last is answered as if it were the first
      cell of the next row: x = 256 on row y is searched from cell (0, y + 1). */
  lemma OutOfRangeXAliasesNextRow(g: Grid, y: int, to: Vec2, oracle: Oracle)
    requires 0 <= y < GridHeight - 1
    ensures FindPath(g, Vec2(256.0, y as real), to, oracle) == FindPath(g, Vec2(0.0, (y + 1) as real), to, oracle)
    ensures !InBounds(Cell(Trunc(256.0), Trunc(y as real)))
  {
    TruncOfInt(256);
    TruncOfInt(0);
    TruncOfInt(y);
    TruncOfInt(y + 1);
    assert PositionId(Vec2(256.0, y as real)) == (y + 1) * 256;
    assert PositionId(Vec2(0.0, (y + 1) as real)) == (y + 1) * 256;
  }

  /** `GetNextWaypoint`: nothing for an empty path, the second point of a
      longer path, and the only point of a one-point path. */
  function GetNextWaypoint(g: Grid, current: Vec2, target: Vec2, oracle: Oracle): (w: Option<Vec2>)
    ensures var path := FindPath(g, current, target, oracle);
      && (w.None? <==> |path| == 0)
      && (|path| > 1 ==> w == Some(path[1]))
      && (|path| == 1 ==> w == Some(path[0]))
  {
    var path := FindPath(g, current, target, oracle);
    if |path| == 0 then None
    else if |path| > 1 then Some(path[1])
    else Some(path[0])
  }

  /** A one-point search result is handed back as the waypoint rather than
      treated as "no waypoint". */
  lemma SinglePointPathIsAWaypoint(g: Grid, current: Vec2, target: Vec2, oracle: Oracle, p: Vec2)
    requires HasPoint(PositionId(current)) && HasPoint(PositionId(target))
    requires oracle(g.disabled, PositionId(current), PositionId(target)) == [p]
    ensures GetNextWaypoint(g, current, target, oracle) == Some(p)
  {
    HasPointIff(PositionId(current));
    HasPointIff(PositionId(target));
  }

  /** A pathfinder: the occupancy grid and the search it consults. */
  datatype Pathfinder = Pathfinder(grid: Grid, oracle: Oracle)
}
