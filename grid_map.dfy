/**
 * The explorer's world map: a sparse dictionary from integer cells
 * `(x, y)` to tiles, built by stitching generated rooms side by side.
 * A room is stored with its rows inverted, so that the last row of the
 * room (its bottom line) lands on the lowest `y` of its block.
 */
module WorldGrid {
  import opened Wrappers
  import opened Constants

  type Cell = (int, int)

  /** What `add_submap` answers: nothing on success, a `ValueError` value on a size mismatch. */
  datatype AddResult = Added | SizeMismatch

  /** A room as `add_submap` receives it: at least one row, no row shorter than the first. */
  predicate IsSubmap(grid: seq<seq<Tile>>)
  {
    |grid| > 0 && forall r | 0 <= r < |grid| :: |grid[r]| >= |grid[0]|
  }

  /** The cell `p` lies in the `w`×`h` block whose lower-left cell is `(xo, yo)`. */
  predicate InBlock(p: Cell, w: int, h: int, xo: int, yo: int)
  {
    xo <= p.0 < xo + w && yo <= p.1 < yo + h
  }

  /** The tile the room puts at cell `p` of its block: row `h - 1 - j`, column `i`. */
  function BlockTile(grid: seq<seq<Tile>>, p: Cell, xo: int, yo: int): Tile
    requires IsSubmap(grid) && InBlock(p, |grid[0]|, |grid|, xo, yo)
  {
    grid[|grid| - 1 - (p.1 - yo)][p.0 - xo]
  }

  /**
   * `tiles` is `before` with the room `grid` written into its block at
   * `(xo, yo)`: cells of the block hold the room's tiles, every other
   * cell is as it was, and no other cell is added.
   */
  ghost predicate Stitched(tiles: map<Cell, Tile>, before: map<Cell, Tile>, grid: seq<seq<Tile>>, xo: int, yo: int)
    requires IsSubmap(grid)
  {
    && (forall p | InBlock(p, |grid[0]|, |grid|, xo, yo) :: p in tiles && tiles[p] == BlockTile(grid, p, xo, yo))
    && (forall p | p in before && !InBlock(p, |grid[0]|, |grid|, xo, yo) :: p in tiles && tiles[p] == before[p])
    && (forall p | p in tiles :: p in before || InBlock(p, |grid[0]|, |grid|, xo, yo))
  }

  /** The part of the block written so far: rows below `j`, and row `j` left of column `i`. */
  predicate Written(p: Cell, w: int, xo: int, yo: int, j: int, i: int)
  {
    && xo <= p.0 < xo + w && yo <= p.1 <= yo + j
    && (p.1 < yo + j || p.0 < xo + i)
  }

  class GridMap {
    var tiles: map<Cell, Tile>
    var mapSize: Option<(int, int)>
    var offsetList: seq<Cell>

    /** A size is fixed exactly when some room has been added. */
    ghost predicate Valid()
      reads this
    {
      mapSize.None? <==> offsetList == []
    }

    constructor ()
      ensures Valid() && tiles == map[] && mapSize == None && offsetList == []
    {
      tiles := map[];
      mapSize := None;
      offsetList := [];
    }

    /**
     * Stitches a room in at room offset `offset`. The first room fixes
     * the size (row length, row count); a room of another size is refused
     * and nothing changes; otherwise the offset is recorded and the room
     * written into its block.
     */
    method AddSubmap(grid: seq<seq<Tile>>, offset: Cell) returns (r: AddResult)
      requires Valid() && IsSubmap(grid)
      modifies this
      ensures Valid()
      ensures old(mapSize).None? ==> r == Added
      ensures r == SizeMismatch <==> old(mapSize).Some? && old(mapSize).value != (|grid[0]|, |grid|)
      ensures r == SizeMismatch ==> tiles == old(tiles) && mapSize == old(mapSize) && offsetList == old(offsetList)
      ensures r == Added ==>
        && mapSize == Some((|grid[0]|, |grid|))
        && offsetList == old(offsetList) + [offset]
        && Stitched(tiles, old(tiles), grid, offset.0 * |grid[0]|, offset.1 * |grid|)
    {
      var w, h := |grid[0]|, |grid|;
      if mapSize.None? {
        mapSize := Some((w, h));
      } else if mapSize.value != (w, h) {
        return SizeMismatch;
      }
      var xo, yo := offset.0 * w, offset.1 * h;
      offsetList := offsetList + [offset];
      ghost var before := tiles;
      for j := 0 to h
        invariant mapSize == Some((w, h)) && offsetList == old(offsetList) + [offset]
        invariant forall p | Written(p, w, xo, yo, j, 0) :: p in tiles && tiles[p] == BlockTile(grid, p, xo, yo)
        invariant forall p | p in before && !Written(p, w, xo, yo, j, 0) :: p in tiles && tiles[p] == before[p]
        invariant forall p | p in tiles :: p in before || Written(p, w, xo, yo, j, 0)
      {
        WriteRow(grid, xo, yo, j, before);
      }
      return Added;
    }

    /** Writes row `j` of the block: the room's row `h - 1 - j`, left to right. */
    method WriteRow(grid: seq<seq<Tile>>, xo: int, yo: int, j: int, ghost before: map<Cell, Tile>)
      requires IsSubmap(grid) && 0 <= j < |grid|
      requires forall p | Written(p, |grid[0]|, xo, yo, j, 0) :: p in tiles && tiles[p] == BlockTile(grid, p, xo, yo)
      requires forall p | p in before && !Written(p, |grid[0]|, xo, yo, j, 0) :: p in tiles && tiles[p] == before[p]
      requires forall p | p in tiles :: p in before || Written(p, |grid[0]|, xo, yo, j, 0)
      modifies this
      ensures mapSize == old(mapSize) && offsetList == old(offsetList)
      ensures forall p | Written(p, |grid[0]|, xo, yo, j + 1, 0) :: p in tiles && tiles[p] == BlockTile(grid, p, xo, yo)
      ensures forall p | p in before && !Written(p, |grid[0]|, xo, yo, j + 1, 0) :: p in tiles && tiles[p] == before[p]
      ensures forall p | p in tiles :: p in before || Written(p, |grid[0]|, xo, yo, j + 1, 0)
    {
      var w, h := |grid[0]|, |grid|;
      for i := 0 to w
        invariant mapSize == old(mapSize) && offsetList == old(offsetList)
        invariant forall p | Written(p, w, xo, yo, j, i) :: p in tiles && tiles[p] == BlockTile(grid, p, xo, yo)
        invariant forall p | p in before && !Written(p, w, xo, yo, j, i) :: p in tiles && tiles[p] == before[p]
        invariant forall p | p in tiles :: p in before || Written(p, w, xo, yo, j, i)
      {
        tiles := tiles[(i + xo, j + yo) := grid[h - 1 - j][i]];
      }
    }

    /** The code drawn at `p`, the blank code `"O"` where nothing was ever written. */
    function GetTexture(p: Cell): (s: string)
      reads this
      ensures p in tiles ==> s == Code(tiles[p])
      ensures p !in tiles ==> s == BLANK
    {
      if p !in tiles then BLANK else Code(tiles[p])
    }

    /** The tile at `p`, `None` where nothing was ever written. */
    function GetTileType(p: Cell): (t: Option<Tile>)
      reads this`tiles
      ensures t.Some? <==> p in tiles
      ensures t.Some? ==> t.value == tiles[p]
    {
      if p !in tiles then None else Some(tiles[p])
    }

    /** Overwrites the tile at `p`, and only there. */
    method ReplaceTexture(p: Cell, t: Tile)
      modifies this
      ensures tiles == old(tiles)[p := t]
      ensures mapSize == old(mapSize) && offsetList == old(offsetList)
    {
      tiles := tiles[p := t];
    }

    /** Overwrites the tile at `p`, and only there. */
    method SetTileType(p: Cell, t: Tile)
      modifies this
      ensures tiles == old(tiles)[p := t]
      ensures mapSize == old(mapSize) && offsetList == old(offsetList)
    {
      tiles := tiles[p := t];
    }
  }

  /** The two accessors agree: blank exactly when no tile, the tile's code otherwise. */
  lemma TextureAgreesWithTileType(m: GridMap, p: Cell)
    ensures m.GetTexture(p) == BLANK <==> m.GetTileType(p) == None
    ensures m.GetTileType(p).Some? ==> m.GetTexture(p) == Code(m.GetTileType(p).value)
  {
    TextureCodesDisjoint();
  }

  /**
   * A stitched room reads back through the texture accessor: cell `(i, j)`
   * of the block shows row `h - 1 - j`, column `i` of the room, so the
   * room's last row is the block's bottom row.
   */
  lemma StitchedReadsBack(tiles: map<Cell, Tile>, before: map<Cell, Tile>, grid: seq<seq<Tile>>, xo: int, yo: int, i: int, j: int)
    requires IsSubmap(grid) && Stitched(tiles, before, grid, xo, yo)
    requires 0 <= i < |grid[0]| && 0 <= j < |grid|
    ensures (i + xo, j + yo) in tiles && tiles[(i + xo, j + yo)] == grid[|grid| - 1 - j][i]
    ensures j == 0 ==> tiles[(i + xo, yo)] == grid[|grid| - 1][i]
  {
    assert InBlock((i + xo, j + yo), |grid[0]|, |grid|, xo, yo);
  }

  /** Block membership, multiplied out: at most one offset's block holds a cell. */
  lemma BlockOfOffset(p: Cell, w: int, h: int, offset: Cell)
    requires w > 0 && h > 0
    ensures InBlock(p, w, h, offset.0 * w, offset.1 * h) <==> p.0 / w == offset.0 && p.1 / h == offset.1
  {
    DivOfBlock(p.0, w, offset.0);
    DivOfBlock(p.1, h, offset.1);
  }

  /** `k * n <= x < k * n + n` exactly when `x / n == k` (Euclidean division, `n > 0`). */
  lemma DivOfBlock(x: int, n: int, k: int)
    requires n > 0
    ensures k * n <= x < k * n + n <==> x / n == k
  {
    var q, r := x / n, x % n;
    assert x == q * n + r && 0 <= r < n;
    if k < q {
      assert k * n + n <= q * n by { MulLess(k, q, n); }
    } else if q < k {
      assert q * n + n <= k * n by { MulLess(q, k, n); }
    }
  }

  lemma {:induction false} MulLess(a: int, b: int, n: int)
    requires a < b && n > 0
    ensures a * n + n <= b * n
    decreases b - a
  {
    assert (a + 1) * n == a * n + n;
    if a + 1 < b {
      MulLess(a + 1, b, n);
    }
  }

  /** Distinct room offsets stitch into disjoint blocks, so a later room never overwrites an earlier one. */
  lemma DistinctOffsetsDisjoint(p: Cell, w: int, h: int, a: Cell, b: Cell)
    requires w > 0 && h > 0 && a != b
    ensures !(InBlock(p, w, h, a.0 * w, a.1 * h) && InBlock(p, w, h, b.0 * w, b.1 * h))
  {
    BlockOfOffset(p, w, h, a);
    BlockOfOffset(p, w, h, b);
  }

  /** Stitching a room elsewhere keeps every tile of another offset's block. */
  lemma StitchKeepsOtherRooms(tiles: map<Cell, Tile>, before: map<Cell, Tile>, grid: seq<seq<Tile>>, a: Cell, b: Cell, p: Cell)
    requires IsSubmap(grid) && |grid[0]| > 0 && a != b
    requires Stitched(tiles, before, grid, b.0 * |grid[0]|, b.1 * |grid|)
    requires p in before && InBlock(p, |grid[0]|, |grid|, a.0 * |grid[0]|, a.1 * |grid|)
    ensures p in tiles && tiles[p] == before[p]
  {
    DistinctOffsetsDisjoint(p, |grid[0]|, |grid|, a, b);
  }
}
