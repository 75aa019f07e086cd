/** Quadtree tile addressing and the prefetch windows of the map viewer.

    Zoom level z splits the embedding space into 2^z x 2^z tiles. Tiles of all zoom levels
    are numbered consecutively: zoom level z starts at sum_{i<z} 4^i, and inside a level
    the tile (x, y) sits at 2^z * x + y. The viewer fetches a funnel of tiles around the
    tile at the top-left of its window: a 5 x 5 neighbourhood at the current level, its
    subdivision plus a one-tile border ring at the next level, the subdivision of that at
    the level after, and 5 x 5 windows at the two coarser levels. */
module Tiles {

  /** A tile of the quadtree. Coordinates are integers: the windows below step off the
      grid on purpose and are clamped by the guards the source writes. */
  datatype Tile = Tile(x: int, y: int, zoom: nat)

  function Pow2(z: nat): (r: nat)
    ensures r >= 1
  {
    if z == 0 then 1 else 2 * Pow2(z - 1)
  }

  function Pow4(z: nat): (r: nat)
    ensures r >= 1
  {
    if z == 0 then 1 else 4 * Pow4(z - 1)
  }

  /** First index of zoom level z: sum_{i<z} 4^i. */
  function Offset(z: nat): nat
  {
    if z == 0 then 0 else Offset(z - 1) + Pow4(z - 1)
  }

  /** Number of a tile (the formula the source documents next to both conversions). */
  function IndexOf(t: Tile): int
  {
    Offset(t.zoom) + Pow2(t.zoom) * t.x + t.y
  }

  predicate OnGrid(t: Tile)
  {
    0 <= t.x < Pow2(t.zoom) && 0 <= t.y < Pow2(t.zoom)
  }

  lemma {:induction false} Pow4IsSquare(z: nat)
    ensures Pow4(z) == Pow2(z) * Pow2(z)
  {
    if z > 0 {
      Pow4IsSquare(z - 1);
      calc {
        Pow2(z) * Pow2(z);
        (2 * Pow2(z - 1)) * (2 * Pow2(z - 1));
        4 * (Pow2(z - 1) * Pow2(z - 1));
      }
    }
  }

  lemma {:induction false} OffsetGrows(a: nat, b: nat)
    requires a < b
    ensures Offset(a + 1) <= Offset(b)
  {
    if a + 1 < b {
      OffsetGrows(a, b - 1);
    }
  }

  lemma MulLe(n: nat, a: int, b: int)
    requires a <= b
    ensures n * a <= n * b
  {
  }

  /** Splitting 0 <= r < n*n into quotient and remainder by n gives two digits below n. */
  lemma DivDigits(r: int, n: int)
    requires n > 0 && 0 <= r < n * n
    ensures 0 <= r / n < n && r == n * (r / n) + r % n
  {
    if r / n >= n {
      MulLe(n, n, r / n);
    }
  }

  /** An on-grid tile's index lies in the block of its zoom level. */
  lemma IndexRange(t: Tile)
    requires OnGrid(t)
    ensures Offset(t.zoom) <= IndexOf(t) < Offset(t.zoom + 1)
    ensures Offset(t.zoom + 1) == Offset(t.zoom) + Pow4(t.zoom)
  {
    var n := Pow2(t.zoom);
    Pow4IsSquare(t.zoom);
    MulLe(n, 0, t.x);
    MulLe(n, t.x, n - 1);
    assert n * (n - 1) == n * n - n;
  }

  /** Different on-grid tiles have different indexes. */
  lemma IndexInjective(a: Tile, b: Tile)
    requires OnGrid(a) && OnGrid(b)
    requires IndexOf(a) == IndexOf(b)
    ensures a == b
  {
    IndexRange(a);
    IndexRange(b);
    if a.zoom < b.zoom {
      OffsetGrows(a.zoom, b.zoom);
    } else if b.zoom < a.zoom {
      OffsetGrows(b.zoom, a.zoom);
    } else {
      var n := Pow2(a.zoom);
      assert n * a.x + a.y == n * b.x + b.y;
      DivModUnique(n, a.x, a.y, b.x, b.y);
    }
  }

  lemma DivModUnique(n: int, x1: int, y1: int, x2: int, y2: int)
    requires n > 0 && 0 <= y1 < n && 0 <= y2 < n
    requires n * x1 + y1 == n * x2 + y2
    ensures x1 == x2 && y1 == y2
  {
    if x1 < x2 {
      MulLe(n, x1 + 1, x2);
    } else if x2 < x1 {
      MulLe(n, x2 + 1, x1);
    }
  }

  /** The zoom level whose block holds `index`, searched upwards from `z`. */
  function ZoomFrom(index: nat, z: nat): nat
    requires Offset(z) <= index
    decreases index - Offset(z)
  {
    if index < Offset(z + 1) then z else ZoomFrom(index, z + 1)
  }

  /** The tile numbered `index`: the reference definition of the inverse conversion. */
  function TileOf(index: nat): Tile
  {
    var z := ZoomFrom(index, 0);
    var r := index - Offset(z);
    Tile(r / Pow2(z), r % Pow2(z), z)
  }

  lemma {:induction false} ZoomFromFinds(index: nat, start: nat, z: nat)
    requires Offset(start) <= index && start <= z
    requires Offset(z) <= index < Offset(z + 1)
    ensures ZoomFrom(index, start) == z
    decreases z - start
  {
    if start < z {
      OffsetGrows(start, z);
      ZoomFromFinds(index, start + 1, z);
    }
  }

  lemma {:induction false} ZoomFromBlock(index: nat, start: nat)
    requires Offset(start) <= index
    ensures Offset(ZoomFrom(index, start)) <= index < Offset(ZoomFrom(index, start) + 1)
    decreases index - Offset(start)
  {
    if index >= Offset(start + 1) {
      ZoomFromBlock(index, start + 1);
    }
  }

  /** Every index names an on-grid tile: decoding and then encoding gives the index back. */
  lemma TileOfIndex(index: nat)
    ensures OnGrid(TileOf(index)) && IndexOf(TileOf(index)) == index
  {
    var z := ZoomFrom(index, 0);
    ZoomFromBlock(index, 0);
    var n := Pow2(z);
    var r := index - Offset(z);
    Pow4IsSquare(z);
    DivDigits(r, n);
  }

  /** Encoding an on-grid tile and decoding the index gives the tile back. */
  lemma IndexRoundTrip(t: Tile)
    requires OnGrid(t)
    ensures IndexOf(t) >= 0 && TileOf(IndexOf(t)) == t
  {
    IndexRange(t);
    TileOfIndex(IndexOf(t));
    IndexInjective(t, TileOf(IndexOf(t)));
  }

  /** Inside the block of level z, TileOf is the quotient and remainder by 2^z. */
  lemma SplitInLevel(index: nat, z: nat)
    requires Offset(z) <= index < Offset(z + 1)
    ensures var r := index - Offset(z);
      r == Pow2(z) * (r / Pow2(z)) + r % Pow2(z) &&
      TileOf(index) == Tile(r / Pow2(z), r % Pow2(z), z)
  {
    ZoomFromFinds(index, 0, z);
    Pow4IsSquare(z);
    DivDigits(index - Offset(z), Pow2(z));
  }

  /** Accumulates sum_{i<zoom} 4^i and adds the position inside the level
      (`convertTileToIndex`, and the server's `get_index_from_tile`). */
  method ConvertTileToIndex(tileX: int, tileY: int, zoom: nat) returns (index: int)
    ensures index == IndexOf(Tile(tileX, tileY, zoom))
  {
    index := 0;
    var i := 0;
    while i < zoom
      invariant 0 <= i <= zoom
      invariant index == Offset(i)
    {
      index := index + Pow4(i);
      i := i + 1;
    }
    index := index + Pow2(zoom) * tileX + tileY;
  }

  /** Walks the level offsets up past `index`, then splits the rest into column and row
      (`convertIndexToTile`). */
  method ConvertIndexToTile(index: nat) returns (t: Tile)
    ensures t == TileOf(index)
    ensures OnGrid(t) && IndexOf(t) == index
  {
    var i: nat := 0;
    var sum := 0;
    while sum < index
      invariant sum == Offset(i)
      invariant i > 0 ==> Offset(i - 1) < index
      decreases index - sum
    {
      sum := sum + Pow4(i);
      i := i + 1;
    }
    if sum == index {
      t := Tile(0, 0, i);
      SplitIsTileOf(index, sum, i, 0, 0);
      return;
    }
    sum := sum - Pow4(i - 1);
    var zoom: nat := i - 1;
    var tileX := (index - sum) / Pow2(zoom);
    var tileY := index - sum - Pow2(zoom) * tileX;
    t := Tile(tileX, tileY, zoom);
    SplitIsTileOf(index, sum, zoom, tileX, tileY);
  }

  /** The last step of the conversion: inside the block of level `zoom`, the column is the
      quotient and the row the remainder by 2^zoom. */
  lemma SplitIsTileOf(index: nat, sum: int, zoom: nat, tileX: int, tileY: int)
    requires sum == Offset(zoom) <= index < Offset(zoom + 1)
    requires tileX == (index - sum) / Pow2(zoom)
    requires tileY == index - sum - Pow2(zoom) * tileX
    ensures Tile(tileX, tileY, zoom) == TileOf(index)
    ensures OnGrid(TileOf(index)) && IndexOf(TileOf(index)) == index
  {
    SplitInLevel(index, zoom);
    TileOfIndex(index);
  }

  lemma LevelSeven()
    ensures Offset(2) == 5 && Offset(7) == 5461 && Pow2(7) == 128
  {
    assert Pow4(1) == 4 && Pow4(2) == 16 && Pow4(3) == 64;
    assert Pow4(4) == 256 && Pow4(5) == 1024 && Pow4(6) == 4096;
    assert Offset(1) == 1 && Offset(2) == 5 && Offset(3) == 21;
    assert Offset(4) == 85 && Offset(5) == 341 && Offset(6) == 1365;
    assert Pow2(1) == 2 && Pow2(2) == 4 && Pow2(3) == 8;
    assert Pow2(4) == 16 && Pow2(5) == 32 && Pow2(6) == 64;
  }

  /** The index/tile pairs the front-end's tests check. */
  lemma KnownIndexes()
    ensures TileOf(0) == Tile(0, 0, 0)
    ensures TileOf(5) == Tile(0, 0, 2)
    ensures TileOf(13390) == Tile(61, 121, 7)
    ensures TileOf(16085) == Tile(83, 0, 7)
    ensures TileOf(5461) == Tile(0, 0, 7)
  {
    assert TileOf(0) == Tile(0, 0, 0) by {
      assert Offset(1) == 1;
      assert ZoomFrom(0, 0) == 0;
      assert Pow2(0) == 1;
    }
    LevelSeven();
    assert TileOf(5) == Tile(0, 0, 2) by {
      assert IndexOf(Tile(0, 0, 2)) == 5;
      IndexRoundTrip(Tile(0, 0, 2));
    }
    assert TileOf(13390) == Tile(61, 121, 7) by {
      assert IndexOf(Tile(61, 121, 7)) == 13390;
      IndexRoundTrip(Tile(61, 121, 7));
    }
    assert TileOf(16085) == Tile(83, 0, 7) by {
      assert IndexOf(Tile(83, 0, 7)) == 16085;
      IndexRoundTrip(Tile(83, 0, 7));
    }
    assert TileOf(5461) == Tile(0, 0, 7) by {
      assert IndexOf(Tile(0, 0, 7)) == 5461;
      IndexRoundTrip(Tile(0, 0, 7));
    }
  }
}
