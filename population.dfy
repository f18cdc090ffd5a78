/** place_entities on values: which cells receive the monsters, the items
    and the stairs, given the random draws of LevelDraws. */
module Population {
  import opened Common
  import opened Grid
  import opened Entities
  import opened Monster
  import opened Placement
  import opened LevelGen

  /** The monster placed on each chosen cell: the k-th of kind kinds[k],
      at full health and with the chasing behaviour. */
  function Spawned(cells: seq<Pos>, kinds: seq<int>, level: int): seq<Mob>
    requires |cells| <= |kinds|
    requires forall k :: 0 <= k < |kinds| ==> 0 <= kinds[k] < |EnemyTypes(level)|
  {
    seq(|cells|, k requires 0 <= k < |cells| =>
      var kind := EnemyTypes(level)[kinds[k]];
      Mob(cells[k], kind.name, true, Stats(kind.hp, kind.hp, kind.defense, kind.power)))
  }

  /** The goal item lying on the level before the other items are placed. */
  function Preset(level: int, d: LevelDraws): seq<Pickup> {
    if level == 5 then [Amulet(d.amulet)] else []
  }

  /** Where place_entities puts things on map g: the monster cells, the
      floor items (the amulet first on level 5), and the stairs cell, if
      the stairs loop found one. */
  datatype Populated = Populated(monsters: seq<Pos>, items: seq<Pickup>, stairs: seq<Pos>)

  function Populate(g: Grid, level: int, d: LevelDraws): Populated
    requires IsGrid(g) && ValidDraws(d, level)
  {
    Populated(MonsterCells(g, d), FloorItems(g, level, d), StairsCell(g, level, d))
  }

  /** The cells of the monster loops. */
  function MonsterCells(g: Grid, d: LevelDraws): seq<Pos>
    requires IsGrid(g) && d.numMonsters >= 0
  {
    Select(g, [], d.monsterCells, d.numMonsters)
  }

  /** The items of the amulet and item loops, which avoid the monsters. */
  function FloorItems(g: Grid, level: int, d: LevelDraws): seq<Pickup>
    requires IsGrid(g) && ValidDraws(d, level)
  {
    var preset := Preset(level, d);
    preset + ItemsAt(Select(g, MonsterCells(g, d) + ItemCells(preset), d.itemCells, d.numItems), d.itemKinds)
  }

  /** The cell of the stairs loop, which avoids the monsters and items. */
  function StairsCell(g: Grid, level: int, d: LevelDraws): seq<Pos>
    requires IsGrid(g) && ValidDraws(d, level)
  {
    Select(g, MonsterCells(g, d) + ItemCells(FloorItems(g, level, d)), d.stairsCells, 1)
  }

  /** The map once the stairs are drawn on it (the stairs loop only
      accepts cells of the grid, so the guard never fails). */
  function WithStairs(g: Grid, stairs: seq<Pos>): (r: Grid)
    requires IsGrid(g)
    ensures IsGrid(r)
  {
    if stairs != [] && InBounds(stairs[0].x, stairs[0].y) then SetCell(g, stairs[0].x, stairs[0].y, '>') else g
  }

  /** The stairs replace floor by stairs, so a cell anything may stand on
      stays one. */
  lemma WithStairsKeepsWalkable(g: Grid, stairs: seq<Pos>, x: int, y: int)
    requires IsGrid(g) && InBounds(x, y) && Walkable(g[y][x])
    ensures Walkable(WithStairs(g, stairs)[y][x])
  {
  }

  /** The item and stairs loops of place_entities, once the monsters
      stand on `monsters`: the amulet on level 5, the items, then the
      stairs drawn on the map. */
  method PlaceItems(g: Grid, level: int, d: LevelDraws, monsters: seq<Pos>) returns (items: seq<Pickup>, r: Grid)
    requires IsGrid(g) && ValidDraws(d, level)
    requires monsters == MonsterCells(g, d)
    ensures items == FloorItems(g, level, d) && r == WithStairs(g, StairsCell(g, level, d))
  {
    items := Preset(level, d);
    var placed := PickCells(g, monsters + ItemCells(items), d.itemCells, d.numItems);
    items := items + ItemsAt(placed, d.itemKinds);
    var stairs := PickCells(g, monsters + ItemCells(items), d.stairsCells, 1);
    SelectSound(g, monsters + ItemCells(items), d.stairsCells, 1);
    r := g;
    if stairs != [] {
      r := SetCell(r, stairs[0].x, stairs[0].y, '>');
    }
  }

  /** The monster loops: at most the drawn number of monsters, each on a
      floor cell, no two on the same cell; fewer only when no candidate
      left on the tape would have been accepted. Monsters may still be
      placed on the player's cell, which is not in the entity list. */
  lemma MonstersPlaced(g: Grid, level: int, d: LevelDraws)
    requires IsGrid(g) && ValidDraws(d, level)
    ensures var ms := Populate(g, level, d).monsters;
      && |ms| <= d.numMonsters
      && (forall k :: 0 <= k < |ms| ==> Accepts(g, [], ms[k]))
      && (forall j, k :: 0 <= j < k < |ms| ==> ms[j] != ms[k])
      && (|ms| < d.numMonsters ==> forall k :: 0 <= k < |d.monsterCells| ==> !Accepts(g, ms, d.monsterCells[k]))
  {
    SelectSound(g, [], d.monsterCells, d.numMonsters);
    var ms := Populate(g, level, d).monsters;
    assert [] + ms == ms;
  }

  /** The item list is the preset followed by the items the loops placed:
      on level 5 the amulet comes first and lies where it was drawn,
      unchecked, and no placed item is an amulet. */
  lemma ItemsLaidOut(g: Grid, level: int, d: LevelDraws)
    requires IsGrid(g) && ValidDraws(d, level)
    ensures var p := Populate(g, level, d);
      var preset := Preset(level, d);
      var placed := Select(g, p.monsters + ItemCells(preset), d.itemCells, d.numItems);
      && (level == 5 <==> |preset| == 1) && (level == 5 ==> p.items[0] == Amulet(d.amulet))
      && ItemCells(p.items) == ItemCells(preset) + placed
      && |preset| <= |p.items| <= |preset| + d.numItems
      && (forall k :: |preset| <= k < |p.items| ==> p.items[k].glyph != '*')
  {
    var p := Populate(g, level, d);
    var preset := Preset(level, d);
    var placed := Select(g, p.monsters + ItemCells(preset), d.itemCells, d.numItems);
    var rest := ItemsAt(placed, d.itemKinds);
    assert p.items == preset + rest;
    assert ItemCells(rest) == placed;
    ItemCellsAppend(preset, rest);
    forall k | |preset| <= k < |p.items| ensures p.items[k].glyph != '*' {
      assert p.items[k] == rest[k - |preset|];
    }
  }

  /** A rejection loop run after some cells are already in use: what it
      places follows them, lies on acceptable cells, never twice on one
      cell, and falls short only when the tape has nothing acceptable
      left. */
  lemma SelectAfter(g: Grid, ms: seq<Pos>, pre: seq<Pos>, tape: seq<Pos>, n: nat)
    requires IsGrid(g)
    ensures var placed := Select(g, ms + pre, tape, n);
      var cells := pre + placed;
      && cells[..|pre|] == pre && cells[|pre|..] == placed
      && (forall k :: 0 <= k < |placed| ==> Accepts(g, ms + pre, placed[k]))
      && (forall j, k :: 0 <= j < k < |placed| ==> placed[j] != placed[k])
      && (|placed| < n ==> forall k :: 0 <= k < |tape| ==> !Accepts(g, ms + cells, tape[k]))
  {
    var placed := Select(g, ms + pre, tape, n);
    SelectSound(g, ms + pre, tape, n);
    assert ms + pre + placed == ms + (pre + placed);
    assert (pre + placed)[..|pre|] == pre;
  }

  /** The item loops: each item placed lies on a floor cell that holds no
      monster and no item placed before it; fewer than drawn only when no
      candidate left would have been accepted. */
  lemma ItemsPlaced(g: Grid, level: int, d: LevelDraws)
    requires IsGrid(g) && ValidDraws(d, level)
    ensures var p := Populate(g, level, d);
      var n := |Preset(level, d)|;
      var cells := ItemCells(p.items);
      n <= |cells| &&
      var placed := cells[n..];
      && (forall k :: 0 <= k < |placed| ==> Accepts(g, p.monsters + cells[..n], placed[k]))
      && (forall j, k :: 0 <= j < k < |placed| ==> placed[j] != placed[k])
      && (|placed| < d.numItems ==> forall k :: 0 <= k < |d.itemCells| ==> !Accepts(g, p.monsters + cells, d.itemCells[k]))
  {
    var p := Populate(g, level, d);
    ItemsLaidOut(g, level, d);
    SelectAfter(g, p.monsters, ItemCells(Preset(level, d)), d.itemCells, d.numItems);
  }

  /** The stairs loop: at most one staircase, on a floor cell that holds no
      monster and no item; none only when no candidate would have been
      accepted. */
  lemma StairsPlaced(g: Grid, level: int, d: LevelDraws)
    requires IsGrid(g) && ValidDraws(d, level)
    ensures var p := Populate(g, level, d);
      var cells := ItemCells(p.items);
      && |p.stairs| <= 1
      && (p.stairs != [] ==> Accepts(g, p.monsters + cells, p.stairs[0]))
      && (p.stairs == [] ==> forall k :: 0 <= k < |d.stairsCells| ==> !Accepts(g, p.monsters + cells, d.stairsCells[k]))
  {
    var p := Populate(g, level, d);
    SelectSound(g, p.monsters + ItemCells(p.items), d.stairsCells, 1);
  }
}
