/** The deterministic skeleton of WarehouseRoguelike.generate_level: the
    passes that rewrite the map, each as a loop over the cells as in the
    original, proved against a cell-by-cell description of its result.
    Every random choice is an input (LevelDraws). */
module LevelGen {
  import opened Common
  import opened Grid
  import opened Placement

  /** Two grids that agree on every cell are equal. */
  lemma SameGrid(a: Grid, b: Grid)
    requires IsGrid(a) && IsGrid(b)
    requires forall y, x :: 0 <= y < Height && 0 <= x < Width ==> a[y][x] == b[y][x]
    ensures a == b
  {
    forall y | 0 <= y < Height
      ensures a[y] == b[y]
    {
      assert forall x :: 0 <= x < Width ==> a[y][x] == b[y][x];
    }
  }

  function AllWalls(): Grid {
    seq(Height, y => seq(Width, x => '#'))
  }

  /** The two-cell-wide horizontal aisles: row pairs starting at rows 3, 7,
      11 and 15, between the outer walls. */
  predicate HAisle(x: int, y: int) {
    1 <= x < Width - 1 && 3 <= y <= 16 && (y % 4 == 3 || y % 4 == 0)
  }

  /** The two-cell-wide vertical aisles: column pairs starting at columns 5,
      20, 35, 50 and 65, between the outer walls. */
  predicate VAisle(x: int, y: int) {
    1 <= y < Height - 1 && 5 <= x <= 66 && (x % 15 == 5 || x % 15 == 6)
  }

  /** What a map pass does to a single cell. */
  datatype Rule =
    | Painting(from: char, to: char, area: Area, draw: set<Pos>)  // a decoration pass
    | Clearing(p: Pos)                                            // walls around p become floor

  /** The cell (x, y) once the rule has been applied to g. */
  function Apply(rule: Rule, g: Grid, x: int, y: int): char
    requires IsGrid(g) && InBounds(x, y)
  {
    match rule
    case Painting(from, to, area, draw) => if area.Covers(x, y) && g[y][x] == from && Pos(x, y) in draw then to else g[y][x]
    case Clearing(p) => if Near(p, x, y) && g[y][x] == '#' then '.' else g[y][x]
  }

  /** The first n cells of row y of the rewritten map. */
  function RewriteRow(rule: Rule, g: Grid, y: int, n: nat): (r: seq<char>)
    requires IsGrid(g) && 0 <= y < Height && n <= Width
    ensures |r| == n
  {
    if n == 0 then [] else RewriteRow(rule, g, y, n - 1) + [Apply(rule, g, n - 1, y)]
  }

  /** The first n rows of the rewritten map. */
  function RewriteRows(rule: Rule, g: Grid, n: nat): (r: seq<seq<char>>)
    requires IsGrid(g) && n <= Height
    ensures |r| == n && forall y :: 0 <= y < n ==> |r[y]| == Width
  {
    if n == 0 then [] else RewriteRows(rule, g, n - 1) + [RewriteRow(rule, g, n - 1, Width)]
  }

  /** The map with the rule applied to every cell, each cell decided on the
      map as it was before the pass. Its cells are given by RewriteCells. */
  function Rewrite(rule: Rule, g: Grid): (r: Grid)
    requires IsGrid(g)
    ensures IsGrid(r)
  {
    RewriteRows(rule, g, Height)
  }

  lemma {:induction false} RewriteRowCells(rule: Rule, g: Grid, y: int, n: nat)
    requires IsGrid(g) && 0 <= y < Height && n <= Width
    ensures forall x :: 0 <= x < n ==> RewriteRow(rule, g, y, n)[x] == Apply(rule, g, x, y)
  {
    if n > 0 {
      RewriteRowCells(rule, g, y, n - 1);
    }
  }

  lemma {:induction false} RewriteRowsCells(rule: Rule, g: Grid, n: nat)
    requires IsGrid(g) && n <= Height
    ensures forall y, x :: 0 <= y < n && 0 <= x < Width ==> RewriteRows(rule, g, n)[y][x] == Apply(rule, g, x, y)
  {
    if n > 0 {
      RewriteRowsCells(rule, g, n - 1);
      RewriteRowCells(rule, g, n - 1, Width);
    }
  }

  /** Every cell of the rewritten map is the rule applied to that cell. */
  lemma RewriteCells(rule: Rule, g: Grid)
    requires IsGrid(g)
    ensures forall y, x :: 0 <= y < Height && 0 <= x < Width ==> Rewrite(rule, g)[y][x] == Apply(rule, g, x, y)
  {
    RewriteRowsCells(rule, g, Height);
  }

  /** The map once the aisles are carved. */
  function Carved(): (g: Grid)
    ensures IsGrid(g)
  {
    seq(Height, y => seq(Width, x => if HAisle(x, y) || VAisle(x, y) then '.' else '#'))
  }

  /** The first two loops of generate_level: start from solid wall, carve
      the horizontal aisles, then the vertical ones. */
  method Carve() returns (g: Grid)
    ensures g == Carved()
  {
    g := AllWalls();
    var y := 3;
    while y < Height - 3
      invariant 3 <= y <= Height - 3 && y % 4 == 3
      invariant IsGrid(g)
      invariant forall cy, cx :: 0 <= cy < Height && 0 <= cx < Width ==>
                  g[cy][cx] == if HAisle(cx, cy) && cy < y then '.' else '#'
    {
      var x := 1;
      while x < Width - 1
        invariant 1 <= x <= Width - 1
        invariant IsGrid(g)
        invariant forall cy, cx :: 0 <= cy < Height && 0 <= cx < Width ==>
                    g[cy][cx] == if HAisle(cx, cy) && (cy < y || ((cy == y || cy == y + 1) && cx < x)) then '.' else '#'
      {
        g := SetCell(g, x, y, '.');
        g := SetCell(g, x, y + 1, '.');
        x := x + 1;
      }
      y := y + 4;
    }
    var x := 5;
    while x < Width - 5
      invariant 5 <= x <= Width && x % 15 == 5
      invariant IsGrid(g)
      invariant forall cy, cx :: 0 <= cy < Height && 0 <= cx < Width ==>
                  g[cy][cx] == if HAisle(cx, cy) || (VAisle(cx, cy) && cx < x) then '.' else '#'
    {
      var y := 1;
      while y < Height - 1
        invariant 1 <= y <= Height - 1
        invariant IsGrid(g)
        invariant forall cy, cx :: 0 <= cy < Height && 0 <= cx < Width ==>
                    g[cy][cx] == if HAisle(cx, cy) || (VAisle(cx, cy) && (cx < x || ((cx == x || cx == x + 1) && cy < y)))
                                 then '.' else '#'
      {
        g := SetCell(g, x, y, '.');
        g := SetCell(g, x + 1, y, '.');
        y := y + 1;
      }
      x := x + 15;
    }
    SameGrid(g, Carved());
  }

  /** The rows and the columns the shelf pass looks at (remainders taken as
      in the original: rows with y % 4 in {0, 1} and columns with x % 15 in
      {5, 6} are skipped). */
  predicate ShelfRow(y: int) {
    1 <= y < Height - 1 && y % 4 != 0 && y % 4 != 1
  }

  predicate ShelfCol(x: int) {
    1 <= x < Width - 1 && x % 15 != 5 && x % 15 != 6
  }

  /** A wall cell the shelf pass turns into a shelf. */
  predicate Shelved(g: Grid, x: int, y: int)
    requires IsGrid(g) && InBounds(x, y)
  {
    ShelfRow(y) && ShelfCol(x) && g[y][x] == '#' && IsAdjacentTo(g, x, y, '.')
  }

  function Shelves(g: Grid): (r: Grid)
    requires IsGrid(g)
    ensures IsGrid(r)
  {
    seq(Height, y requires 0 <= y < Height => seq(Width, x requires 0 <= x < Width => if Shelved(g, x, y) then '=' else g[y][x]))
  }

  /** Two grids with the same floor cells agree on which cells lie next to
      floor. */
  lemma SameFloorSameAdjacency(a: Grid, b: Grid, x: int, y: int)
    requires IsGrid(a) && IsGrid(b)
    requires forall cy, cx :: 0 <= cy < Height && 0 <= cx < Width ==> (a[cy][cx] == '.' <==> b[cy][cx] == '.')
    ensures IsAdjacentTo(a, x, y, '.') == IsAdjacentTo(b, x, y, '.')
  {
  }

  /** The shelf pass: walls next to an aisle become shelves. It rewrites the
      map in place and tests adjacency on the partly rewritten map; since it
      never creates or removes floor, that is the same as testing the map
      it started from. */
  method ShelfPass(g: Grid) returns (r: Grid)
    requires IsGrid(g)
    ensures r == Shelves(g)
    // it rewrites walls into shelves and nothing else
    ensures forall y, x :: 0 <= y < Height && 0 <= x < Width ==>
              r[y][x] == g[y][x] || (g[y][x] == '#' && r[y][x] == '=')
  {
    r := g;
    var y := 1;
    while y < Height - 1
      invariant 1 <= y <= Height - 1
      invariant IsGrid(r)
      invariant forall cy, cx :: 0 <= cy < Height && 0 <= cx < Width ==>
                  r[cy][cx] == if Shelved(g, cx, cy) && cy < y then '=' else g[cy][cx]
    {
      if y % 4 != 0 && y % 4 != 1 {
        var x := 1;
        while x < Width - 1
          invariant 1 <= x <= Width - 1
          invariant IsGrid(r)
          invariant forall cy, cx :: 0 <= cy < Height && 0 <= cx < Width ==>
                      r[cy][cx] == if Shelved(g, cx, cy) && (cy < y || (cy == y && cx < x)) then '=' else g[cy][cx]
        {
          if x % 15 != 5 && x % 15 != 6 {
            SameFloorSameAdjacency(r, g, x, y);
            if r[y][x] == '#' && IsAdjacentTo(r, x, y, '.') {
              r := SetCell(r, x, y, '=');
            }
          }
          x := x + 1;
        }
      }
      y := y + 1;
    }
    SameGrid(r, Shelves(g));
  }

  /** Python's range(start, stop, step) for a positive step. */
  function Range(start: int, stop: int, step: int): (r: seq<int>)
    requires step > 0
    ensures forall k :: 0 <= k < |r| ==> start <= r[k] < stop
    ensures forall j, k :: 0 <= j < k < |r| ==> r[j] < r[k]
    decreases stop - start
  {
    if start >= stop then [] else [start] + Range(start + step, stop, step)
  }

  /** The cells a decoration pass visits: the listed rows, and in each the
      columns from left up to right (exclusive). */
  datatype Area = Area(rows: seq<int>, left: int, right: int) {
    predicate Covers(x: int, y: int) {
      y in rows && left <= x < right
    }
    predicate WellFormed() {
      (forall k :: 0 <= k < |rows| ==> 0 <= rows[k] < Height) &&
      (forall j, k :: 0 <= j < k < |rows| ==> rows[j] != rows[k]) &&
      0 <= left <= right <= Width
    }
  }

  /** Vertical shelves, packing stations and conveyor belts. */
  const VShelfArea := Area(Range(1, Height - 1, 1), 1, Width - 1)
  const PackArea := Area(Range(2, Height - 2, 1), 2, Width - 2)
  const ConveyorArea := Area(Range(3, Height - 3, 6), 10, Width - 10)

  /** A decoration pass: every visited cell holding `from` whose random
      test succeeds (a cell of `draw`) becomes `to`. */
  function Repainted(g: Grid, from: char, to: char, area: Area, draw: set<Pos>): (r: Grid)
    requires IsGrid(g)
    ensures IsGrid(r)
  {
    Rewrite(Painting(from, to, area, draw), g)
  }

  /** The inner loop of a decoration pass: one row, columns x0 up to x1. */
  method RepaintRow(g: Grid, from: char, to: char, y: int, x0: int, x1: int, draw: set<Pos>) returns (r: Grid)
    requires IsGrid(g) && 0 <= y < Height && 0 <= x0 <= x1 <= Width
    ensures IsGrid(r)
    ensures forall cy, cx :: 0 <= cy < Height && 0 <= cx < Width ==>
              r[cy][cx] == if cy == y && x0 <= cx < x1 && g[cy][cx] == from && Pos(cx, cy) in draw then to else g[cy][cx]
  {
    r := g;
    var x := x0;
    while x < x1
      invariant x0 <= x <= x1
      invariant IsGrid(r)
      invariant forall cy, cx :: 0 <= cy < Height && 0 <= cx < Width ==>
                  r[cy][cx] == if cy == y && x0 <= cx < x && g[cy][cx] == from && Pos(cx, cy) in draw then to else g[cy][cx]
    {
      if r[y][x] == from && Pos(x, y) in draw {
        r := SetCell(r, x, y, to);
      }
      x := x + 1;
    }
  }

  /** One decoration pass, as the nested loops of generate_level run it. */
  method Repaint(g: Grid, from: char, to: char, area: Area, draw: set<Pos>) returns (r: Grid)
    requires IsGrid(g) && area.WellFormed()
    ensures r == Repainted(g, from, to, area, draw)
    // each pass rewrites exactly one kind of cell into one other kind
    ensures forall y, x :: 0 <= y < Height && 0 <= x < Width ==>
              r[y][x] == g[y][x] || (g[y][x] == from && r[y][x] == to)
  {
    r := g;
    var i := 0;
    while i < |area.rows|
      invariant 0 <= i <= |area.rows|
      invariant IsGrid(r)
      invariant forall cy, cx :: 0 <= cy < Height && 0 <= cx < Width ==>
                  r[cy][cx] == if area.Covers(cx, cy) && cy in area.rows[..i] && g[cy][cx] == from && Pos(cx, cy) in draw
                               then to else g[cy][cx]
    {
      var y := area.rows[i];
      assert y !in area.rows[..i];
      assert area.rows[..i + 1] == area.rows[..i] + [y];
      r := RepaintRow(r, from, to, y, area.left, area.right, draw);
      i := i + 1;
    }
    assert area.rows[..i] == area.rows;
    ghost var spec := Repainted(g, from, to, area, draw);
    RewriteCells(Painting(from, to, area, draw), g);
    assert forall cy, cx :: 0 <= cy < Height && 0 <= cx < Width ==> r[cy][cx] == spec[cy][cx];
    SameGrid(r, spec);
  }

  /** The sorting-machine pass: each of the drawn cells becomes a machine if
      it is floor at the time. */
  function Machined(g: Grid, at: seq<Pos>): (r: Grid)
    requires IsGrid(g) && forall k :: 0 <= k < |at| ==> InBounds(at[k].x, at[k].y)
    ensures IsGrid(r)
  {
    if at == [] then g
    else
      var before := Machined(g, at[..|at| - 1]);
      var p := at[|at| - 1];
      assert InBounds(p.x, p.y);
      if before[p.y][p.x] == '.' then SetCell(before, p.x, p.y, 'o') else before
  }

  /** Machines replace floor cells and nothing else. */
  lemma {:induction false} MachinesReplaceFloor(g: Grid, at: seq<Pos>)
    requires IsGrid(g) && forall k :: 0 <= k < |at| ==> InBounds(at[k].x, at[k].y)
    ensures var r := Machined(g, at);
      forall y, x :: 0 <= y < Height && 0 <= x < Width ==>
        r[y][x] == g[y][x] || (g[y][x] == '.' && r[y][x] == 'o' && Pos(x, y) in at)
  {
    if at != [] {
      MachinesReplaceFloor(g, at[..|at| - 1]);
    }
  }

  method PlaceMachines(g: Grid, at: seq<Pos>) returns (r: Grid)
    requires IsGrid(g) && forall k :: 0 <= k < |at| ==> InBounds(at[k].x, at[k].y)
    ensures r == Machined(g, at)
  {
    r := g;
    var k := 0;
    while k < |at|
      invariant 0 <= k <= |at|
      invariant r == Machined(g, at[..k])
    {
      assert at[..k + 1][..k] == at[..k];
      var p := at[k];
      if r[p.y][p.x] == '.' {
        r := SetCell(r, p.x, p.y, 'o');
      }
      k := k + 1;
    }
    assert at[..|at|] == at;
  }

  /** The cells the machine and dock draws may name are on the grid. */
  predicate FixturesOnGrid(d: LevelDraws) {
    (forall k :: 0 <= k < |d.machines| ==> InBounds(d.machines[k].x, d.machines[k].y)) &&
    InBounds(d.dock.x, d.dock.y)
  }

  /** The map generate_level builds before the player, the monsters, the
      items and the stairs are placed. */
  function Layout(d: LevelDraws): (g: Grid)
    requires FixturesOnGrid(d)
    ensures IsGrid(g)
  {
    var shelved := Shelves(Carved());
    var vshelves := Repainted(shelved, '=', '|', VShelfArea, d.vshelf);
    var stations := Repainted(vshelves, '.', '[', PackArea, d.pack);
    var belts := Repainted(stations, '.', '-', ConveyorArea, d.conveyor);
    var machines := Machined(belts, d.machines);
    if d.dock.x > 0 && d.dock.y > 0 then SetCell(machines, d.dock.x, d.dock.y, 'T') else machines
  }

  /** The map-building passes of generate_level, in order. */
  method BuildLayout(d: LevelDraws) returns (g: Grid)
    requires FixturesOnGrid(d)
    ensures g == Layout(d)
  {
    g := Carve();
    g := ShelfPass(g);
    g := Repaint(g, '=', '|', VShelfArea, d.vshelf);
    g := Repaint(g, '.', '[', PackArea, d.pack);
    g := Repaint(g, '.', '-', ConveyorArea, d.conveyor);
    g := PlaceMachines(g, d.machines);
    if d.dock.x > 0 && d.dock.y > 0 {
      g := SetCell(g, d.dock.x, d.dock.y, 'T');
    }
  }

  /** The machine and dock draws always name cells of the grid. */
  lemma DrawsOnGrid(d: LevelDraws, level: int)
    requires ValidDraws(d, level)
    ensures FixturesOnGrid(d)
  {
    forall k | 0 <= k < |d.machines| ensures InBounds(d.machines[k].x, d.machines[k].y) {
      assert Within(d.machines[k], 5, Width - 5, 5, Height - 5);
    }
  }

  predicate OnBorder(x: int, y: int) {
    InBounds(x, y) && (x == 0 || x == Width - 1 || y == 0 || y == Height - 1)
  }

  /** No pass touches the outermost ring of cells, so every generated
      warehouse is enclosed by wall. */
  lemma LayoutEnclosed(d: LevelDraws, level: int)
    requires ValidDraws(d, level)
    ensures FixturesOnGrid(d)
    ensures forall y, x :: OnBorder(x, y) ==> Layout(d)[y][x] == '#'
  {
    DrawsOnGrid(d, level);
    var c := Carved();
    var shelved := Shelves(c);
    var vshelves := Repainted(shelved, '=', '|', VShelfArea, d.vshelf);
    var stations := Repainted(vshelves, '.', '[', PackArea, d.pack);
    var belts := Repainted(stations, '.', '-', ConveyorArea, d.conveyor);
    RewriteCells(Painting('=', '|', VShelfArea, d.vshelf), shelved);
    RewriteCells(Painting('.', '[', PackArea, d.pack), vshelves);
    RewriteCells(Painting('.', '-', ConveyorArea, d.conveyor), stations);
    assert forall y, x :: OnBorder(x, y) ==> belts[y][x] == '#';
    MachinesReplaceFloor(belts, d.machines);
  }

  /** Column 5 of row 1 lies on a vertical aisle that no later pass
      reaches (the decoration areas, the machines and the dock all start
      further down), so every generated warehouse has interior floor and
      the repositioning scan always finds a cell. */
  lemma LayoutHasFloor(d: LevelDraws, level: int)
    requires ValidDraws(d, level)
    ensures FixturesOnGrid(d)
    ensures Layout(d)[1][5] == '.' && !NoFloor(Layout(d))
  {
    DrawsOnGrid(d, level);
    var c := Carved();
    var shelved := Shelves(c);
    var vshelves := Repainted(shelved, '=', '|', VShelfArea, d.vshelf);
    var stations := Repainted(vshelves, '.', '[', PackArea, d.pack);
    var belts := Repainted(stations, '.', '-', ConveyorArea, d.conveyor);
    assert VAisle(5, 1);
    RewriteCells(Painting('=', '|', VShelfArea, d.vshelf), shelved);
    RewriteCells(Painting('.', '[', PackArea, d.pack), vshelves);
    RewriteCells(Painting('.', '-', ConveyorArea, d.conveyor), stations);
    assert 1 !in PackArea.rows && 1 !in ConveyorArea.rows;
    assert belts[1][5] == '.';
    MachinesReplaceFloor(belts, d.machines);
    assert Pos(5, 1) !in d.machines by {
      forall k | 0 <= k < |d.machines| ensures d.machines[k] != Pos(5, 1) {
        assert Within(d.machines[k], 5, Width - 5, 5, Height - 5);
      }
    }
  }

  /** The first entry of the tape that names a floor cell in column 5: the
      entrance row of a newly created player. */
  function SpawnIndex(g: Grid, rows: seq<int>): (r: Option<nat>)
    requires IsGrid(g) && forall k :: 0 <= k < |rows| ==> 0 <= rows[k] < Height
    ensures r.Some? ==> r.value < |rows| && g[rows[r.value]][5] == '.'
    ensures r.Some? ==> forall k :: 0 <= k < r.value ==> g[rows[k]][5] != '.'
    ensures r.None? <==> forall k :: 0 <= k < |rows| ==> g[rows[k]][5] != '.'
  {
    if rows == [] then None
    else if g[rows[0]][5] == '.' then Some(0)
    else match SpawnIndex(g, rows[1..])
      case None => None
      case Some(k) => Some(k + 1)
  }

  /** The entrance loop: redraw the row until column 5 of it is floor. */
  method PickSpawnRow(g: Grid, rows: seq<int>) returns (row: int)
    requires IsGrid(g) && forall k :: 0 <= k < |rows| ==> 0 <= rows[k] < Height
    requires SpawnIndex(g, rows).Some?
    ensures row == rows[SpawnIndex(g, rows).value]
  {
    var k := 0;
    while g[rows[k]][5] != '.'
      invariant 0 <= k <= SpawnIndex(g, rows).value
      decreases SpawnIndex(g, rows).value - k
    {
      k := k + 1;
    }
    row := rows[k];
  }

  /** The cells the repositioning scan visits: all but the outermost ring. */
  predicate Interior(x: int, y: int) {
    1 <= x < Width - 1 && 1 <= y < Height - 1
  }

  /** (x, y) is the first floor cell of the interior in row-major order. */
  ghost predicate IsFirstFloor(g: Grid, x: int, y: int)
    requires IsGrid(g)
  {
    Interior(x, y) && g[y][x] == '.' &&
    forall cy, cx :: Interior(cx, cy) && (cy < y || (cy == y && cx < x)) ==> g[cy][cx] != '.'
  }

  ghost predicate NoFloor(g: Grid)
    requires IsGrid(g)
  {
    forall cy, cx :: Interior(cx, cy) ==> g[cy][cx] != '.'
  }

  /** The entrance loop for a new player ends: the draws name a row whose
      cell in column 5 of the generated map is floor (the original redraws
      forever otherwise). */
  predicate EntranceFound(d: LevelDraws) {
    && FixturesOnGrid(d)
    && (forall k :: 0 <= k < |d.spawnRows| ==> 0 <= d.spawnRows[k] < Height)
    && SpawnIndex(Layout(d), d.spawnRows).Some?
  }

  /** The scan that moves an existing player to a new level: the first
      floor cell in row-major order, if there is one. */
  method FirstFloor(g: Grid) returns (p: Option<Pos>)
    requires IsGrid(g)
    ensures p.Some? ==> IsFirstFloor(g, p.value.x, p.value.y)
    ensures p.None? ==> NoFloor(g)
  {
    var y := 1;
    while y < Height - 1
      invariant 1 <= y <= Height - 1
      invariant forall cy, cx :: Interior(cx, cy) && cy < y ==> g[cy][cx] != '.'
    {
      var x := 1;
      while x < Width - 1
        invariant 1 <= x <= Width - 1
        invariant forall cx :: 1 <= cx < x ==> g[y][cx] != '.'
      {
        if g[y][x] == '.' {
          return Some(Pos(x, y));
        }
        x := x + 1;
      }
      y := y + 1;
    }
    return None;
  }

  predicate Near(p: Pos, x: int, y: int) {
    p.x - 1 <= x <= p.x + 1 && p.y - 1 <= y <= p.y + 1
  }

  /** The map with every wall in the 3x3 block around p turned to floor. */
  function Cleared(g: Grid, p: Pos): (r: Grid)
    requires IsGrid(g)
    ensures IsGrid(r)
  {
    Rewrite(Clearing(p), g)
  }

  /** Only walls are cleared, and only next to the player: shelves,
      stations, belts, machines and the dock next to the player stay, and
      no wall is left in the 3x3 block. */
  lemma ClearedOnlyWalls(g: Grid, p: Pos)
    requires IsGrid(g)
    ensures var r := Cleared(g, p);
      && (forall y, x :: 0 <= y < Height && 0 <= x < Width ==>
            r[y][x] == g[y][x] || (g[y][x] == '#' && r[y][x] == '.' && Near(p, x, y)))
      && (forall y, x :: 0 <= y < Height && 0 <= x < Width && Near(p, x, y) ==> r[y][x] != '#')
  {
    RewriteCells(Clearing(p), g);
  }

  /** Clearing never takes away a cell anything may stand on. */
  lemma ClearedKeepsWalkable(g: Grid, p: Pos, x: int, y: int)
    requires IsGrid(g) && InBounds(x, y) && Walkable(g[y][x])
    ensures Walkable(Cleared(g, p)[y][x])
  {
    RewriteCells(Clearing(p), g);
  }

  /** The clearing loop around the player. */
  method ClearAround(g: Grid, p: Pos) returns (r: Grid)
    requires IsGrid(g)
    ensures r == Cleared(g, p)
  {
    r := g;
    var dy := -1;
    while dy < 2
      invariant -1 <= dy <= 2
      invariant IsGrid(r)
      invariant forall cy, cx :: 0 <= cy < Height && 0 <= cx < Width ==>
                  r[cy][cx] == if Near(p, cx, cy) && cy < p.y + dy && g[cy][cx] == '#' then '.' else g[cy][cx]
    {
      var dx := -1;
      while dx < 2
        invariant -1 <= dx <= 2
        invariant IsGrid(r)
        invariant forall cy, cx :: 0 <= cy < Height && 0 <= cx < Width ==>
                    r[cy][cx] == if Near(p, cx, cy) && (cy < p.y + dy || (cy == p.y + dy && cx < p.x + dx)) && g[cy][cx] == '#'
                                 then '.' else g[cy][cx]
      {
        var nx, ny := p.x + dx, p.y + dy;
        if 0 <= nx < Width && 0 <= ny < Height && r[ny][nx] == '#' {
          r := SetCell(r, nx, ny, '.');
        }
        dx := dx + 1;
      }
      dy := dy + 1;
    }
    ghost var spec := Cleared(g, p);
    RewriteCells(Clearing(p), g);
    assert forall cy, cx :: 0 <= cy < Height && 0 <= cx < Width ==> r[cy][cx] == spec[cy][cx];
    SameGrid(r, spec);
  }

  /** Every random choice generate_level and place_entities make:
      - for each of the three decoration passes, the set of cells whose
        random test falls under the pass's threshold;
      - the three sorting-machine cells and the loading-dock cell;
      - the tape of candidate rows for the player's entrance on column 5;
      - how many monsters, the tape of their candidate cells and the kind
        of each placed monster;
      - the amulet's cell on level 5;
      - how many items, the tape of their candidate cells and the kind of
        each placed item;
      - the tape of candidate cells for the stairs. */
  datatype LevelDraws = LevelDraws(
    vshelf: set<Pos>, pack: set<Pos>, conveyor: set<Pos>,
    machines: seq<Pos>, dock: Pos,
    spawnRows: seq<int>,
    numMonsters: int, monsterCells: seq<Pos>, monsterKinds: seq<int>,
    amulet: Pos,
    numItems: int, itemCells: seq<Pos>, itemKinds: seq<int>,
    stairsCells: seq<Pos>)

  predicate Within(p: Pos, x0: int, x1: int, y0: int, y1: int) {
    x0 <= p.x <= x1 && y0 <= p.y <= y1
  }

  /** The ranges the original's random calls draw from on the given level. */
  predicate ValidDraws(d: LevelDraws, level: int) {
    && |d.machines| == 3
    && (forall k :: 0 <= k < 3 ==> Within(d.machines[k], 5, Width - 5, 5, Height - 5))
    && Within(d.dock, Width - 10, Width - 3, 3, Height - 3)
    && (forall k :: 0 <= k < |d.spawnRows| ==> 3 <= d.spawnRows[k] <= Height - 3)
    && 3 <= d.numMonsters <= 5 + level
    && (forall k :: 0 <= k < |d.monsterCells| ==> Within(d.monsterCells[k], 1, Width - 2, 1, Height - 2))
    && |d.monsterKinds| == d.numMonsters
    && (forall k :: 0 <= k < |d.monsterKinds| ==> 0 <= d.monsterKinds[k] < |EnemyTypes(level)|)
    && Within(d.amulet, 5, Width - 5, 5, Height - 5)
    && 2 <= d.numItems <= 4 + level / 2
    && (forall k :: 0 <= k < |d.itemCells| ==> Within(d.itemCells[k], 1, Width - 2, 1, Height - 2))
    && |d.itemKinds| == d.numItems
    && (forall k :: 0 <= k < |d.itemKinds| ==> 0 <= d.itemKinds[k] < |ItemTypes|)
    && (forall k :: 0 <= k < |d.stairsCells| ==> Within(d.stairsCells[k], Width / 2 - 10, Width / 2 + 10, Height / 2 - 5, Height / 2 + 5))
  }
}
