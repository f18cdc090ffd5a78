/** The position lookups of WarehouseRoguelike (get_blocking_entity_at,
    get_item_at) and the walk of move_max_distance, on values. */
module Lookup {
  import opened Common
  import opened Grid
  import opened Entities

  /** Where an entity stands and whether it blocks movement. */
  datatype Body = Body(pos: Pos, blocks: bool)

  function Bodies(es: seq<Entity>): (r: seq<Body>)
    reads es
    ensures |r| == |es|
    ensures forall k :: 0 <= k < |es| ==> r[k] == Body(es[k].Position(), es[k].blocks)
  {
    if es == [] then [] else [Body(es[0].Position(), es[0].blocks)] + Bodies(es[1..])
  }

  predicate BlocksAt(b: Body, x: int, y: int) {
    b.blocks && b.pos == Pos(x, y)
  }

  /** get_blocking_entity_at: the index of the first blocking entity at
      (x, y), if any. */
  function FindBlocker(bs: seq<Body>, x: int, y: int): (r: Option<nat>)
    ensures r.Some? ==> r.value < |bs|
  {
    if bs == [] then None
    else if BlocksAt(bs[0], x, y) then Some(0)
    else match FindBlocker(bs[1..], x, y)
      case None => None
      case Some(j) => Some(j + 1)
  }

  /** The lookup finds the first blocking body at (x, y), and finds none
      exactly when no body blocks there. */
  lemma {:induction false} FindBlockerFirst(bs: seq<Body>, x: int, y: int)
    ensures var r := FindBlocker(bs, x, y);
      && (r.Some? ==> BlocksAt(bs[r.value], x, y) && forall k :: 0 <= k < r.value ==> !BlocksAt(bs[k], x, y))
      && (r.None? <==> forall k :: 0 <= k < |bs| ==> !BlocksAt(bs[k], x, y))
  {
    if bs != [] && !BlocksAt(bs[0], x, y) {
      FindBlockerFirst(bs[1..], x, y);
      assert forall k :: 1 <= k < |bs| ==> bs[k] == bs[1..][k - 1];
    }
  }

  predicate ItemAt(p: Pickup, x: int, y: int) {
    p.x == x && p.y == y
  }

  /** get_item_at: the index of the first item lying at (x, y), if any. */
  function FindItem(items: seq<Pickup>, x: int, y: int): (r: Option<nat>)
    ensures r.Some? ==> r.value < |items|
  {
    if items == [] then None
    else if ItemAt(items[0], x, y) then Some(0)
    else match FindItem(items[1..], x, y)
      case None => None
      case Some(j) => Some(j + 1)
  }

  /** The lookup finds the first item lying at (x, y), and finds none
      exactly when nothing lies there. */
  lemma {:induction false} FindItemFirst(items: seq<Pickup>, x: int, y: int)
    ensures var r := FindItem(items, x, y);
      && (r.Some? ==> ItemAt(items[r.value], x, y) && forall k :: 0 <= k < r.value ==> !ItemAt(items[k], x, y))
      && (r.None? <==> forall k :: 0 <= k < |items| ==> !ItemAt(items[k], x, y))
  {
    if items != [] && !ItemAt(items[0], x, y) {
      FindItemFirst(items[1..], x, y);
      assert forall k :: 1 <= k < |items| ==> items[k] == items[1..][k - 1];
    }
  }

  /** Why a long move stopped. */
  datatype Stop = AtEdge | AtBlocker(index: nat) | AtObstacle(cell: char) | AtStairs | AtItem(index: nat)

  /** How many cells a long move advanced, and why it stopped. */
  datatype Dash = Dash(steps: nat, stop: Stop)

  predicate IsDir(dx: int, dy: int) {
    (dx == 0 && (dy == 1 || dy == -1)) || (dy == 0 && (dx == 1 || dx == -1))
  }

  /** v moved k cells in direction d (d is -1, 0 or 1). */
  function Shift(v: int, d: int, k: int): int {
    if d > 0 then v + k else if d < 0 then v - k else v
  }

  /** The number of cells between (x, y) and the edge in direction (dx, dy). */
  function Room(x: int, y: int, dx: int, dy: int): nat
    requires InBounds(x, y)
  {
    if dx > 0 then Width - 1 - x
    else if dx < 0 then x
    else if dy > 0 then Height - 1 - y
    else if dy < 0 then y
    else 0
  }

  /** move_max_distance on values: walk from (x, y) in direction (dx, dy)
      past the blocking bodies bs and the items on the floor. */
  function Run(g: Grid, bs: seq<Body>, items: seq<Pickup>, x: int, y: int, dx: int, dy: int): (r: Dash)
    requires IsGrid(g) && InBounds(x, y) && IsDir(dx, dy)
    // the walk ends on the grid, displaced by exactly steps * (dx, dy)
    ensures r.steps <= Room(x, y, dx, dy)
    ensures InBounds(Shift(x, dx, r.steps), Shift(y, dy, r.steps))
    ensures r.stop.AtBlocker? ==> r.stop.index < |bs|
    ensures r.stop.AtItem? ==> r.stop.index < |items|
    decreases Room(x, y, dx, dy)
  {
    var nx, ny := x + dx, y + dy;
    if !InBounds(nx, ny) then Dash(0, AtEdge)
    else match FindBlocker(bs, nx, ny)
      case Some(i) => Dash(0, AtBlocker(i))
      case None =>
        if !Walkable(g[ny][nx]) then Dash(0, AtObstacle(g[ny][nx]))
        else if g[ny][nx] == '>' then Dash(1, AtStairs)
        else match FindItem(items, nx, ny)
          case Some(j) => Dash(1, AtItem(j))
          case None =>
            var rest := Run(g, bs, items, nx, ny, dx, dy);
            Dash(rest.steps + 1, rest.stop)
  }

  /** The walk of move_max_distance from (x, y): advance while the next
      cell is on the grid, free of blocking bodies and walkable, and stop
      on stairs or an item. */
  method WalkFrom(g: Grid, bs: seq<Body>, items: seq<Pickup>, x0: int, y0: int, dx: int, dy: int)
    returns (steps: nat, halt: Stop)
    requires IsGrid(g) && InBounds(x0, y0) && IsDir(dx, dy)
    ensures Run(g, bs, items, x0, y0, dx, dy) == Dash(steps, halt)
  {
    var x, y := x0, y0;
    ghost var run := Run(g, bs, items, x, y, dx, dy);
    steps := 0;
    while true
      invariant InBounds(x, y)
      invariant run == Dash(steps + Run(g, bs, items, x, y, dx, dy).steps, Run(g, bs, items, x, y, dx, dy).stop)
      decreases Room(x, y, dx, dy)
    {
      var nx, ny := x + dx, y + dy;
      if !(0 <= nx < Width && 0 <= ny < Height) {
        halt := AtEdge;
        break;
      }
      var b := FindBlocker(bs, nx, ny);
      if b.Some? {
        halt := AtBlocker(b.value);
        break;
      }
      if !(g[ny][nx] == '.' || g[ny][nx] == '>') {
        halt := AtObstacle(g[ny][nx]);
        break;
      }
      steps := steps + 1;
      if g[ny][nx] == '>' {
        halt := AtStairs;
        break;
      }
      var it := FindItem(items, nx, ny);
      if it.Some? {
        halt := AtItem(it.value);
        break;
      }
      RunOneStep(g, bs, items, x, y, dx, dy);
      x, y := nx, ny;
    }
  }

  /** A cell a long move may step onto: on the grid, walkable, and not
      taken by a blocking entity. */
  predicate Open(g: Grid, bs: seq<Body>, x: int, y: int)
    requires IsGrid(g)
  {
    CanEnter(g, x, y) && FindBlocker(bs, x, y).None?
  }

  /** A cell a long move walks on without stopping: no stairs, no item. */
  predicate PassOver(g: Grid, items: seq<Pickup>, x: int, y: int)
    requires IsGrid(g) && InBounds(x, y)
  {
    g[y][x] != '>' && FindItem(items, x, y).None?
  }

  /** Every cell the long move steps onto is walkable and free of blocking
      entities, so the player never ends on a wall or an entity; in
      particular a move into an adjacent obstacle takes no step. */
  lemma {:induction false} RunStaysOpen(g: Grid, bs: seq<Body>, items: seq<Pickup>, x: int, y: int, dx: int, dy: int)
    requires IsGrid(g) && InBounds(x, y) && IsDir(dx, dy)
    ensures var r := Run(g, bs, items, x, y, dx, dy);
      forall k :: 1 <= k <= r.steps ==> Open(g, bs, Shift(x, dx, k), Shift(y, dy, k))
    decreases Room(x, y, dx, dy)
  {
    var nx, ny := x + dx, y + dy;
    assert Shift(x, dx, 1) == nx && Shift(y, dy, 1) == ny;
    if Continues(g, bs, items, x, y, dx, dy) {
      RunOneStep(g, bs, items, x, y, dx, dy);
      RunStaysOpen(g, bs, items, nx, ny, dx, dy);
      var r := Run(g, bs, items, x, y, dx, dy);
      forall k | 2 <= k <= r.steps
        ensures Open(g, bs, Shift(x, dx, k), Shift(y, dy, k))
      {
        assert Shift(x, dx, k) == Shift(nx, dx, k - 1) && Shift(y, dy, k) == Shift(ny, dy, k - 1);
      }
    }
  }

  /** The long move walks over no stairs and no item before its last cell. */
  lemma {:induction false} RunPassesOver(g: Grid, bs: seq<Body>, items: seq<Pickup>, x: int, y: int, dx: int, dy: int)
    requires IsGrid(g) && InBounds(x, y) && IsDir(dx, dy)
    ensures var r := Run(g, bs, items, x, y, dx, dy);
      forall k :: 1 <= k < r.steps ==> InBounds(Shift(x, dx, k), Shift(y, dy, k)) &&
                                       PassOver(g, items, Shift(x, dx, k), Shift(y, dy, k))
    decreases Room(x, y, dx, dy)
  {
    var nx, ny := x + dx, y + dy;
    var r := Run(g, bs, items, x, y, dx, dy);
    if Continues(g, bs, items, x, y, dx, dy) {
      RunOneStep(g, bs, items, x, y, dx, dy);
      RunPassesOver(g, bs, items, nx, ny, dx, dy);
      forall k | 1 <= k < r.steps
        ensures InBounds(Shift(x, dx, k), Shift(y, dy, k)) && PassOver(g, items, Shift(x, dx, k), Shift(y, dy, k))
      {
        if k == 1 {
          assert Shift(x, dx, 1) == nx && Shift(y, dy, 1) == ny;
        } else {
          assert Shift(x, dx, k) == Shift(nx, dx, k - 1) && Shift(y, dy, k) == Shift(ny, dy, k - 1);
        }
      }
    } else {
      RunStopFirst(g, bs, items, x, y, dx, dy);
    }
  }

  /** Whether `stop` is a true account of a long move that ended at
      (lx, ly) after `steps` steps: the edge, a blocking entity or a
      non-walkable cell just ahead, or stairs or an item underfoot. Stairs
      or an item underfoot end the move first, so a reason ahead counts
      only when the player has not moved or stands on neither. */
  predicate StopHolds(g: Grid, bs: seq<Body>, items: seq<Pickup>, lx: int, ly: int, dx: int, dy: int, steps: nat, stop: Stop)
    requires IsGrid(g) && InBounds(lx, ly)
  {
    match stop
    case AtEdge => (steps == 0 || PassOver(g, items, lx, ly)) && !InBounds(lx + dx, ly + dy)
    case AtBlocker(i) =>
      (steps == 0 || PassOver(g, items, lx, ly)) &&
      InBounds(lx + dx, ly + dy) && FindBlocker(bs, lx + dx, ly + dy) == Some(i)
    case AtObstacle(c) =>
      (steps == 0 || PassOver(g, items, lx, ly)) &&
      InBounds(lx + dx, ly + dy) && FindBlocker(bs, lx + dx, ly + dy).None? &&
      g[ly + dy][lx + dx] == c && !Walkable(c)
    case AtStairs => steps > 0 && g[ly][lx] == '>'
    case AtItem(j) => steps > 0 && g[ly][lx] != '>' && FindItem(items, lx, ly) == Some(j)
  }

  /** Whether a long move at (x, y) steps on to the next cell and keeps going. */
  predicate Continues(g: Grid, bs: seq<Body>, items: seq<Pickup>, x: int, y: int, dx: int, dy: int)
    requires IsGrid(g)
  {
    InBounds(x + dx, y + dy) && FindBlocker(bs, x + dx, y + dy).None? && Walkable(g[y + dy][x + dx]) &&
    g[y + dy][x + dx] != '>' && FindItem(items, x + dx, y + dy).None?
  }

  /** A long move that continues is one step followed by the long move
      from the next cell. */
  lemma RunOneStep(g: Grid, bs: seq<Body>, items: seq<Pickup>, x: int, y: int, dx: int, dy: int)
    requires IsGrid(g) && InBounds(x, y) && IsDir(dx, dy) && Continues(g, bs, items, x, y, dx, dy)
    ensures var rest := Run(g, bs, items, x + dx, y + dy, dx, dy);
      Run(g, bs, items, x, y, dx, dy) == Dash(rest.steps + 1, rest.stop)
  {
  }

  /** A long move that does not continue stops where it starts, or one
      step further on stairs or an item, for the reason it reports. */
  lemma RunStopFirst(g: Grid, bs: seq<Body>, items: seq<Pickup>, x: int, y: int, dx: int, dy: int)
    requires IsGrid(g) && InBounds(x, y) && IsDir(dx, dy)
    requires !Continues(g, bs, items, x, y, dx, dy)
    ensures Run(g, bs, items, x, y, dx, dy).steps <= 1
    ensures var r := Run(g, bs, items, x, y, dx, dy);
      StopHolds(g, bs, items, Shift(x, dx, r.steps), Shift(y, dy, r.steps), dx, dy, r.steps, r.stop)
  {
    var nx, ny := x + dx, y + dy;
    assert Shift(x, dx, 0) == x && Shift(y, dy, 0) == y;
    assert Shift(x, dx, 1) == nx && Shift(y, dy, 1) == ny;
  }

  /** A true account of the move from the next cell is a true account of
      the move from this one, which steps there first. */
  lemma StopHoldsBack(g: Grid, bs: seq<Body>, items: seq<Pickup>, x: int, y: int, dx: int, dy: int, rest: Dash, r: Dash)
    requires IsGrid(g) && InBounds(x, y) && IsDir(dx, dy) && Continues(g, bs, items, x, y, dx, dy)
    requires InBounds(Shift(x + dx, dx, rest.steps), Shift(y + dy, dy, rest.steps))
    requires r == Dash(rest.steps + 1, rest.stop)
    ensures InBounds(Shift(x, dx, r.steps), Shift(y, dy, r.steps))
    ensures StopHolds(g, bs, items, Shift(x + dx, dx, rest.steps), Shift(y + dy, dy, rest.steps), dx, dy, rest.steps, rest.stop) ==>
            StopHolds(g, bs, items, Shift(x, dx, r.steps), Shift(y, dy, r.steps), dx, dy, r.steps, r.stop)
  {
    assert Shift(x, dx, rest.steps + 1) == Shift(x + dx, dx, rest.steps);
    assert Shift(y, dy, rest.steps + 1) == Shift(y + dy, dy, rest.steps);
    if rest.steps == 0 {
      assert PassOver(g, items, x + dx, y + dy);
    }
  }

  /** The reported reason holds where the move ended, and stairs or an
      item underfoot take precedence over whatever lies ahead. */
  lemma {:induction false} RunStopReason(g: Grid, bs: seq<Body>, items: seq<Pickup>, x: int, y: int, dx: int, dy: int)
    requires IsGrid(g) && InBounds(x, y) && IsDir(dx, dy)
    ensures var r := Run(g, bs, items, x, y, dx, dy);
      StopHolds(g, bs, items, Shift(x, dx, r.steps), Shift(y, dy, r.steps), dx, dy, r.steps, r.stop)
    decreases Room(x, y, dx, dy)
  {
    if Continues(g, bs, items, x, y, dx, dy) {
      RunOneStep(g, bs, items, x, y, dx, dy);
      RunStopReason(g, bs, items, x + dx, y + dy, dx, dy);
      StopHoldsBack(g, bs, items, x, y, dx, dy, Run(g, bs, items, x + dx, y + dy, dx, dy), Run(g, bs, items, x, y, dx, dy));
    } else {
      RunStopFirst(g, bs, items, x, y, dx, dy);
    }
  }
}
