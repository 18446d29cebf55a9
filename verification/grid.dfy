/** The 12 x 12 tile map and the `clampGrid` helper that snaps a
    client-supplied position onto it (server/src/index.ts; the client keeps an
    identical copy in client/src/main.ts). */
module Grid {

  const MAP_W: int := 12
  const MAP_H: int := 12

  /** A tile position, `{ x, y }` in the source. */
  datatype Tile = Tile(x: int, y: int)

  predicate OnGrid(x: int, y: int) {
    0 <= x < MAP_W && 0 <= y < MAP_H
  }

  function Dist(a: int, b: int): nat {
    if a <= b then b - a else a - b
  }

  /** `Math.round` on a finite number: the nearest integer, halves rounding
      towards positive infinity. */
  function Round(v: real): (n: int)
    ensures n as real - 0.5 <= v < n as real + 0.5
  {
    (v + 0.5).Floor
  }

  /** `Math.max(0, Math.min(size - 1, n))`: the coordinate of the tile row or
      column closest to `n`, and `n` itself when it is already on the map. */
  function ClampAxis(n: int, size: int): (c: int)
    requires 0 < size
    ensures 0 <= c < size
    ensures 0 <= n < size ==> c == n
    ensures forall g :: 0 <= g < size ==> Dist(c, n) <= Dist(g, n)
  {
    var m := if size - 1 < n then size - 1 else n;
    if 0 < m then m else 0
  }

  /** `clampGrid(x, y)`: round each coordinate, then snap it into
      `[0, MAP_W - 1] x [0, MAP_H - 1]`. The result is on the map, is the tile
      nearest to the rounded point, and is the rounded point itself whenever
      that lies on the map. */
  function ClampGrid(x: real, y: real): (t: Tile)
    ensures OnGrid(t.x, t.y)
    ensures OnGrid(Round(x), Round(y)) ==> t == Tile(Round(x), Round(y))
    ensures forall gx :: 0 <= gx < MAP_W ==> Dist(t.x, Round(x)) <= Dist(gx, Round(x))
    ensures forall gy :: 0 <= gy < MAP_H ==> Dist(t.y, Round(y)) <= Dist(gy, Round(y))
  {
    Tile(ClampAxis(Round(x), MAP_W), ClampAxis(Round(y), MAP_H))
  }

  /** Any integer position already on the map is returned unchanged. */
  lemma ClampGridKeepsTiles(x: int, y: int)
    requires OnGrid(x, y)
    ensures ClampGrid(x as real, y as real) == Tile(x, y)
  {
    assert Round(x as real) == x;
    assert Round(y as real) == y;
  }

  /** Clamping a clamped position changes nothing. */
  lemma ClampGridIdempotent(x: real, y: real)
    ensures var t := ClampGrid(x, y); ClampGrid(t.x as real, t.y as real) == t
  {
    var t := ClampGrid(x, y);
    ClampGridKeepsTiles(t.x, t.y);
  }

  /** A negative coordinate and an overshooting fractional one land on the
      nearest edge tiles. */
  lemma ClampGridExample()
    ensures ClampGrid(-5.0, 99.7) == Tile(0, 11)
  {
  }
}
