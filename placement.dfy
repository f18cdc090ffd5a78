/** The rejection loops of WarehouseRoguelike.place_entities and the tables
    of what may be placed. The random draws are an input: each loop is
    given the tape of candidate cells the random module would have
    produced, and accepts the first suitable ones. */
module Placement {
  import opened Common
  import opened Grid
  import opened Entities

  /** A cell is acceptable when it is floor and no placed thing stands on it. */
  predicate Accepts(g: Grid, taken: seq<Pos>, p: Pos)
    requires IsGrid(g)
  {
    InBounds(p.x, p.y) && g[p.y][p.x] == '.' && p !in taken
  }

  /** The cells chosen by up to n rejection loops run one after the other
      over the candidate tape: each loop takes the first acceptable
      candidate, and a chosen cell counts as taken for the loops after it.
      A tape that runs out leaves the remaining loops unplaced. */
  function Select(g: Grid, taken: seq<Pos>, tape: seq<Pos>, n: nat): (r: seq<Pos>)
    requires IsGrid(g)
    ensures |r| <= n && |r| <= |tape|
    decreases |tape|
  {
    if n == 0 || tape == [] then []
    else if Accepts(g, taken, tape[0]) then [tape[0]] + Select(g, taken + [tape[0]], tape[1..], n - 1)
    else Select(g, taken, tape[1..], n)
  }

  /** Every chosen cell was a floor cell, free when chosen, and drawn from
      the tape; no cell is chosen twice; and a loop left unplaced means no
      candidate on the tape would have been accepted. */
  lemma {:induction false} SelectSound(g: Grid, taken: seq<Pos>, tape: seq<Pos>, n: nat)
    requires IsGrid(g)
    ensures var r := Select(g, taken, tape, n);
      && (forall k :: 0 <= k < |r| ==> Accepts(g, taken, r[k]) && r[k] in tape)
      && (forall j, k :: 0 <= j < k < |r| ==> r[j] != r[k])
      && (|r| < n ==> forall k :: 0 <= k < |tape| ==> !Accepts(g, taken + r, tape[k]))
    decreases |tape|
  {
    if n == 0 || tape == [] {
    } else if Accepts(g, taken, tape[0]) {
      var rest := Select(g, taken + [tape[0]], tape[1..], n - 1);
      SelectSound(g, taken + [tape[0]], tape[1..], n - 1);
      assert taken + [tape[0]] + rest == taken + ([tape[0]] + rest);
      forall k | 0 <= k < |rest| ensures rest[k] != tape[0] && Accepts(g, taken, rest[k]) {
        assert rest[k] !in taken + [tape[0]];
      }
    } else {
      SelectSound(g, taken, tape[1..], n);
      var r := Select(g, taken, tape, n);
      forall k | 0 <= k < |tape| && |r| < n ensures !Accepts(g, taken + r, tape[k]) {
        if k > 0 {
          assert tape[k] == tape[1..][k - 1];
        }
      }
    }
  }

  /** One candidate of the tape, as Select consumes it. */
  lemma SelectStep(g: Grid, taken: seq<Pos>, tape: seq<Pos>, t: nat, n: nat)
    requires IsGrid(g) && t < |tape| && n > 0
    ensures Select(g, taken, tape[t..], n) ==
              if Accepts(g, taken, tape[t]) then [tape[t]] + Select(g, taken + [tape[t]], tape[t + 1..], n - 1)
              else Select(g, taken, tape[t + 1..], n)
  {
    assert tape[t..][0] == tape[t] && tape[t..][1..] == tape[t + 1..];
  }

  /** The rejection loops as the original runs them: candidates are drawn
      until n cells are accepted (here: until the tape runs out). */
  method PickCells(g: Grid, taken: seq<Pos>, tape: seq<Pos>, n: nat) returns (picked: seq<Pos>)
    requires IsGrid(g)
    ensures picked == Select(g, taken, tape, n)
  {
    picked := [];
    var occupied := taken;
    var t := 0;
    ghost var rest := Select(g, taken, tape, n);
    assert tape[0..] == tape;
    while |picked| < n && t < |tape|
      invariant 0 <= t <= |tape| && |picked| <= n
      invariant occupied == taken + picked
      invariant rest == Select(g, occupied, tape[t..], n - |picked|)
      invariant picked + rest == Select(g, taken, tape, n)
      decreases |tape| - t
    {
      SelectStep(g, occupied, tape, t, n - |picked|);
      if Accepts(g, occupied, tape[t]) {
        var next := Select(g, occupied + [tape[t]], tape[t + 1..], n - |picked| - 1);
        assert rest == [tape[t]] + next;
        assert picked + rest == (picked + [tape[t]]) + next;
        picked, occupied, rest := picked + [tape[t]], occupied + [tape[t]], next;
      } else {
        rest := Select(g, occupied, tape[t + 1..], n - |picked|);
      }
      t := t + 1;
    }
    assert rest == [];
    assert picked + [] == picked;
  }

  /** A row of the enemy table: glyph, name, hit points, defense, power. */
  datatype EnemyKind = EnemyKind(glyph: char, name: string, hp: int, defense: int, power: int)

  /** A row of the item table. */
  datatype ItemKind = ItemKind(glyph: char, name: string, effect: ItemEffect)

  /** The enemies that may appear on a level: five kinds everywhere, two
      more from level 3 and three more from level 5. */
  function EnemyTypes(level: int): (r: seq<EnemyKind>)
    ensures |r| == if level >= 5 then 10 else if level >= 3 then 7 else 5
    ensures forall k :: 0 <= k < |r| ==> r[k].hp > 0 && r[k].defense >= 0 && r[k].power > 0
  {
    var base := [
      EnemyKind('r', "Sorting Bot", 8, 0, 3),
      EnemyKind('s', "Packing Robot", 10, 1, 4),
      EnemyKind('d', "Inventory Drone", 6, 0, 2),
      EnemyKind('g', "Security Guard", 12, 2, 5),
      EnemyKind('m', "Maintenance Bot", 7, 1, 3)];
    var managers := [
      EnemyKind('M', "Manager Bot", 15, 3, 7),
      EnemyKind('S', "Supervisor Drone", 18, 3, 8)];
    var executives := [
      EnemyKind('X', "Security System", 25, 4, 10),
      EnemyKind('A', "Executive Assistant", 20, 5, 9),
      EnemyKind('D', "Regional Director", 30, 6, 12)];
    base + (if level >= 3 then managers else []) + (if level >= 5 then executives else [])
  }

  /** The items that may appear on a level. */
  const ItemTypes: seq<ItemKind> := [
    ItemKind('!', "Energy Drink", ItemEffect(10, 0, 0)),
    ItemKind('/', "Box Cutter", ItemEffect(0, 3, 0)),
    ItemKind(']', "Safety Vest", ItemEffect(0, 0, 2)),
    ItemKind('$', "Paycheck", ItemEffect(0, 0, 0))]

  /** The goal item, placed on level 5 only; its item component is empty. */
  function Amulet(at: Pos): Pickup {
    Pickup(at.x, at.y, '*', "Promotion Amulet", ItemEffect(0, 0, 0))
  }

  /** The positions of a list of floor items. */
  function ItemCells(items: seq<Pickup>): (r: seq<Pos>)
    ensures |r| == |items|
    ensures forall k :: 0 <= k < |items| ==> r[k] == Pos(items[k].x, items[k].y)
  {
    if items == [] then [] else [Pos(items[0].x, items[0].y)] + ItemCells(items[1..])
  }

  /** The cells of two lists of items, one after the other. */
  lemma ItemCellsAppend(a: seq<Pickup>, b: seq<Pickup>)
    ensures ItemCells(a + b) == ItemCells(a) + ItemCells(b)
  {
    var l, r := ItemCells(a + b), ItemCells(a) + ItemCells(b);
    assert forall k :: 0 <= k < |l| ==> l[k] == r[k];
  }

  /** The items placed on the chosen cells, the k-th of kind kinds[k]. */
  function ItemsAt(cells: seq<Pos>, kinds: seq<int>): (r: seq<Pickup>)
    requires |cells| <= |kinds|
    requires forall k :: 0 <= k < |kinds| ==> 0 <= kinds[k] < |ItemTypes|
    ensures |r| == |cells| && ItemCells(r) == cells
    ensures forall k :: 0 <= k < |r| ==>
              r[k].glyph == ItemTypes[kinds[k]].glyph && r[k].name == ItemTypes[kinds[k]].name &&
              r[k].effect == ItemTypes[kinds[k]].effect
    ensures forall k :: 0 <= k < |r| ==> r[k].glyph != '*'
  {
    if cells == [] then []
    else
      var kind := ItemTypes[kinds[0]];
      [Pickup(cells[0].x, cells[0].y, kind.glyph, kind.name, kind.effect)] + ItemsAt(cells[1..], kinds[1..])
  }
}
