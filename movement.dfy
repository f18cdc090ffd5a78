/** Pure specifications of how an entity moves on the grid and how far
    apart two entities are. The class Entities.Entity implements the moves. */
module Movement {
  import opened Common
  import opened Grid

  function Sign(d: int): (s: int)
    ensures s == 0 <==> d == 0
    ensures s > 0 <==> d > 0
    ensures -1 <= s <= 1
  {
    if d > 0 then 1 else if d < 0 then -1 else 0
  }

  /** Entity.move_towards: the cell reached by one greedy step from `from`
      toward `target` - horizontal first, then vertical, diagonal last. */
  function ChaseStep(g: Grid, from: Pos, target: Pos): (p: Pos)
    requires IsGrid(g)
    // at most one cell, each coordinate moving only toward the target
    ensures p.x - from.x == 0 || p.x - from.x == Sign(target.x - from.x)
    ensures p.y - from.y == 0 || p.y - from.y == Sign(target.y - from.y)
    // a step only ever lands on an in-bounds walkable cell
    ensures p != from ==> CanEnter(g, p.x, p.y)
    // the horizontal step wins whenever it is possible
    ensures target.x != from.x && CanEnter(g, from.x + Sign(target.x - from.x), from.y) ==>
              p == Pos(from.x + Sign(target.x - from.x), from.y)
    // the diagonal is used only when both straight steps are blocked
    ensures p.x != from.x && p.y != from.y ==>
              !CanEnter(g, p.x, from.y) && !CanEnter(g, from.x, p.y)
    // staying put means every candidate step was blocked
    ensures p == from <==>
              (target.x == from.x || !CanEnter(g, from.x + Sign(target.x - from.x), from.y)) &&
              (target.y == from.y || !CanEnter(g, from.x, from.y + Sign(target.y - from.y))) &&
              (target.x == from.x || target.y == from.y ||
               !CanEnter(g, from.x + Sign(target.x - from.x), from.y + Sign(target.y - from.y)))
  {
    var sx, sy := Sign(target.x - from.x), Sign(target.y - from.y);
    if sx != 0 && CanEnter(g, from.x + sx, from.y) then Pos(from.x + sx, from.y)
    else if sy != 0 && CanEnter(g, from.x, from.y + sy) then Pos(from.x, from.y + sy)
    else if sx != 0 && sy != 0 && CanEnter(g, from.x + sx, from.y + sy) then Pos(from.x + sx, from.y + sy)
    else from
  }

  /** The square of Entity.distance_to; every comparison the game makes on
      the distance is made on this integer instead (see DistanceComparisons). */
  function DistSq(a: Pos, b: Pos): (d: int)
    ensures d >= 0
    ensures d == 0 <==> a == b
    ensures d <= 1 <==> Abs(a.x - b.x) + Abs(a.y - b.y) <= 1
  {
    var dx, dy := b.x - a.x, b.y - a.y;
    dx * dx + dy * dy
  }

  /** If s is the (exact) square root of the squared distance d2, the
      original's comparisons "distance < 6" and "distance > 1" on s agree
      with "d2 < 36" and "d2 > 1" on d2. */
  lemma DistanceComparisons(s: real, d2: int)
    requires 0.0 <= s && s * s == d2 as real
    ensures s < 6.0 <==> d2 < 36
    ensures s > 1.0 <==> d2 > 1
  {
    if s < 6.0 {
      assert s * s <= s * 6.0 < 36.0;
    } else {
      assert s * s >= 6.0 * s >= 36.0;
    }
    if s > 1.0 {
      assert s * s > s * 1.0;
    } else {
      assert s * s <= s * 1.0 <= 1.0;
    }
  }
}
