/** The warehouse floor plan: a Width x Height grid of cell characters,
    indexed as g[y][x] like the original list of rows. */
module Grid {

  const Width := 80
  const Height := 22

  type Grid = seq<seq<char>>

  predicate IsGrid(g: Grid) {
    |g| == Height && forall y :: 0 <= y < Height ==> |g[y]| == Width
  }

  predicate InBounds(x: int, y: int) {
    0 <= x < Width && 0 <= y < Height
  }

  /** Floor and stairs are the only cells anything may stand on. */
  predicate Walkable(c: char) {
    c == '.' || c == '>'
  }

  predicate CanEnter(g: Grid, x: int, y: int)
    requires IsGrid(g)
  {
    InBounds(x, y) && Walkable(g[y][x])
  }

  /** The grid with one cell replaced. */
  function SetCell(g: Grid, x: int, y: int, c: char): (r: Grid)
    requires IsGrid(g) && InBounds(x, y)
    ensures IsGrid(r)
    ensures r[y][x] == c
    ensures forall y', x' :: 0 <= y' < Height && 0 <= x' < Width && (y', x') != (y, x) ==> r[y'][x'] == g[y'][x']
  {
    g[y := g[y][x := c]]
  }

  function Abs(n: int): nat { if n < 0 then -n else n }

  predicate HasAt(g: Grid, x: int, y: int, c: char)
    requires IsGrid(g)
  {
    InBounds(x, y) && g[y][x] == c
  }

  /** WarehouseRoguelike.is_adjacent_to: one of the four orthogonal
      neighbours (below, right, above, left) lies on the grid and holds c. */
  function IsAdjacentTo(g: Grid, x: int, y: int, c: char): (r: bool)
    requires IsGrid(g)
    ensures r <==> exists nx, ny :: InBounds(nx, ny) && g[ny][nx] == c && Abs(nx - x) + Abs(ny - y) == 1
  {
    HasAt(g, x, y + 1, c) || HasAt(g, x + 1, y, c) || HasAt(g, x, y - 1, c) || HasAt(g, x - 1, y, c)
  }
}
