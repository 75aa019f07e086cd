/** The funnel of tiles the viewer prefetches around its window and the index lists it asks
    the server for (`getTilesToFetch`, `getTilesForTranslationTicker` and
    `getTilesForZoomTicker`). The tile cache is keyed by "zoom-x-y"; the key is modelled as
    the tile itself, and the cache as the set of tiles it holds. */
module Funnel {
  import opened Tiles
  import opened Seqs
  import opened Prefetch

  // ---------------------------------------------------------------------------------
  // The levels of the funnel

  /** The next level: the window's children followed by the border ring. */
  function NextLevel(x: int, y: int, z: nat, maxZoom: nat, bottomReach: int): seq<Tile>
  {
    Children(Neighbourhood(x, y, z), z, maxZoom) + Ring(x, y, z, maxZoom, bottomReach)
  }

  /** The window, the next level and the subdivision of the next level. */
  function FineLevels(x: int, y: int, z: nat, maxZoom: nat, bottomReach: int): seq<Tile>
  {
    Neighbourhood(x, y, z) + NextLevel(x, y, z, maxZoom, bottomReach)
    + Children(NextLevel(x, y, z, maxZoom, bottomReach), z + 1, maxZoom)
  }

  /** The 5 x 5 windows one and two levels up, present only when those levels exist. */
  function CoarseLevels(x: int, y: int, z: nat): seq<Tile>
  {
    (if z > 0 then Neighbourhood(x / 2, y / 2, z - 1) else [])
    + (if z > 1 then Neighbourhood(x / 4, y / 4, z - 2) else [])
  }

  function FunnelTiles(x: int, y: int, z: nat, maxZoom: nat, bottomReach: int): seq<Tile>
  {
    FineLevels(x, y, z, maxZoom, bottomReach) + CoarseLevels(x, y, z)
  }

  /** The tiles the zoom ticker asks for: the window, its children and the window above. */
  function ZoomTickerTiles(x: int, y: int, z: nat, maxZoom: nat): seq<Tile>
  {
    Neighbourhood(x, y, z) + Children(Neighbourhood(x, y, z), z, maxZoom)
    + (if z > 0 then Neighbourhood(x / 2, y / 2, z - 1) else [])
  }

  // ---------------------------------------------------------------------------------
  // Filtering against the cache

  /** The tiles whose key the cache does not hold, in order. */
  function Uncached(tiles: seq<Tile>, cache: set<Tile>): (r: seq<Tile>)
    ensures |r| <= |tiles|
    ensures forall t :: t in r <==> t in tiles && t !in cache
  {
    if tiles == [] then []
    else
      var last := tiles[|tiles| - 1];
      assert tiles == tiles[..|tiles| - 1] + [last];
      Uncached(tiles[..|tiles| - 1], cache) + (if last in cache then [] else [last])
  }

  function Indexes(tiles: seq<Tile>): seq<int>
  {
    seq(|tiles|, i requires 0 <= i < |tiles| => IndexOf(tiles[i]))
  }

  lemma IndexesAppend(tiles: seq<Tile>, t: Tile)
    ensures Indexes(tiles + [t]) == Indexes(tiles) + [IndexOf(t)]
  {
  }

  /** The loop that ends `getTilesToFetch` and both ticker helpers: the index of every tile
      whose key is absent from the cache, in order. */
  method IndexesToFetch(tiles: seq<Tile>, cache: set<Tile>) returns (indexes: seq<int>)
    ensures indexes == Indexes(Uncached(tiles, cache))
  {
    indexes := [];
    for i := 0 to |tiles|
      invariant indexes == Indexes(Uncached(tiles[..i], cache))
    {
      assert tiles[..i + 1][..i] == tiles[..i];
      if tiles[i] !in cache {
        var index := ConvertTileToIndex(tiles[i].x, tiles[i].y, tiles[i].zoom);
        IndexesAppend(Uncached(tiles[..i], cache), tiles[i]);
        indexes := indexes + [index];
      }
    }
    assert tiles[..|tiles|] == tiles;
  }

  // ---------------------------------------------------------------------------------
  // The three front-end helpers

  /** Gathers the funnel in the order the source concatenates it, with the bottom guard of
      the border ring as a parameter. */
  method CollectFunnel(tileX: int, tileY: int, zoom: nat, maxZoom: nat, bottomReach: int)
    returns (tiles: seq<Tile>)
    ensures tiles == FunnelTiles(tileX, tileY, zoom, maxZoom, bottomReach)
  {
    var fine := CollectFine(tileX, tileY, zoom, maxZoom, bottomReach);
    var coarse := CollectCoarse(tileX, tileY, zoom);
    tiles := fine + coarse;
  }

  /** The window, then its children and the border ring, then their children. */
  method CollectFine(tileX: int, tileY: int, zoom: nat, maxZoom: nat, bottomReach: int)
    returns (tiles: seq<Tile>)
    ensures tiles == FineLevels(tileX, tileY, zoom, maxZoom, bottomReach)
  {
    tiles := GetTilesFromZoomLevel(tileX, tileY, zoom);
    var next := GetTilesFromNextZoomLevel(tiles, zoom, maxZoom);
    var border := CollectBorder(tileX, tileY, zoom, maxZoom, bottomReach);
    next := next + border;
    var nextNext := GetTilesFromNextZoomLevel(next, zoom + 1, maxZoom);
    tiles := tiles + next;
    tiles := tiles + nextNext;
  }

  /** The windows one and two levels up, each only when that level exists. */
  method CollectCoarse(tileX: int, tileY: int, zoom: nat) returns (tiles: seq<Tile>)
    ensures tiles == CoarseLevels(tileX, tileY, zoom)
  {
    tiles := [];
    if zoom > 0 {
      tiles := GetTilesFromZoomLevel(tileX / 2, tileY / 2, zoom - 1);
    }
    if zoom > 1 {
      var prevPrev := GetTilesFromZoomLevel(tileX / 4, tileY / 4, zoom - 2);
      tiles := tiles + prevPrev;
    }
  }

  /** `getTilesToFetch` as written, with the bottom ring guard `tile_y + 3 < 2^zoom`. */
  method GetTilesToFetch(tileX: int, tileY: int, zoom: nat, maxZoom: nat, cache: set<Tile>)
    returns (indexes: seq<int>)
    ensures indexes == Indexes(Uncached(FunnelTiles(tileX, tileY, zoom, maxZoom, 3), cache))
  {
    var tiles := CollectFunnel(tileX, tileY, zoom, maxZoom, 3);
    indexes := IndexesToFetch(tiles, cache);
  }

  /** `getTilesToFetch` with the bottom ring guard corrected to `tile_y + 4 < 2^zoom`. */
  method GetTilesToFetchCorrected(tileX: int, tileY: int, zoom: nat, maxZoom: nat, cache: set<Tile>)
    returns (indexes: seq<int>)
    ensures indexes == Indexes(Uncached(FunnelTiles(tileX, tileY, zoom, maxZoom, 4), cache))
  {
    var tiles := CollectFunnel(tileX, tileY, zoom, maxZoom, 4);
    indexes := IndexesToFetch(tiles, cache);
  }

  method GetTilesForTranslationTicker(tileX: int, tileY: int, zoom: nat, cache: set<Tile>)
    returns (indexes: seq<int>)
    ensures indexes == Indexes(Uncached(Neighbourhood(tileX, tileY, zoom), cache))
  {
    var tiles := GetTilesFromZoomLevel(tileX, tileY, zoom);
    indexes := IndexesToFetch(tiles, cache);
  }

  method GetTilesForZoomTicker(tileX: int, tileY: int, zoom: nat, maxZoom: nat, cache: set<Tile>)
    returns (indexes: seq<int>)
    ensures indexes == Indexes(Uncached(ZoomTickerTiles(tileX, tileY, zoom, maxZoom), cache))
  {
    var tiles := GetTilesFromZoomLevel(tileX, tileY, zoom);
    var next := GetTilesFromNextZoomLevel(tiles, zoom, maxZoom);
    tiles := tiles + next;
    ghost var fine := tiles;
    if zoom > 0 {
      var prev := GetTilesFromZoomLevel(tileX / 2, tileY / 2, zoom - 1);
      tiles := tiles + prev;
    }
    assert tiles == fine + (if zoom > 0 then Neighbourhood(tileX / 2, tileY / 2, zoom - 1) else []);
    indexes := IndexesToFetch(tiles, cache);
  }

  // ---------------------------------------------------------------------------------
  // What the index lists contain

  /** With an empty cache nothing is filtered out. */
  lemma {:induction false} UncachedNoCache(tiles: seq<Tile>)
    ensures Uncached(tiles, {}) == tiles
  {
    if tiles != [] {
      UncachedNoCache(tiles[..|tiles| - 1]);
      assert tiles == tiles[..|tiles| - 1] + [tiles[|tiles| - 1]];
    }
  }

  lemma {:induction false} UncachedNoDup(tiles: seq<Tile>, cache: set<Tile>)
    requires NoDup(tiles)
    ensures NoDup(Uncached(tiles, cache))
  {
    if tiles != [] {
      var init, last := tiles[..|tiles| - 1], tiles[|tiles| - 1];
      assert NoDup(init) by {
        forall i, j | 0 <= i < j < |init|
          ensures init[i] != init[j]
        {
          assert init[i] == tiles[i] && init[j] == tiles[j];
        }
      }
      UncachedNoDup(init, cache);
      assert last !in init by {
        forall i | 0 <= i < |init|
          ensures init[i] != last
        {
          assert init[i] == tiles[i];
        }
      }
      NoDupConcat(Uncached(init, cache), if last in cache then [] else [last]);
    }
  }

  /** Distinct on-grid tiles have distinct indexes. */
  lemma IndexesNoDup(tiles: seq<Tile>)
    requires NoDup(tiles) && AllOnGrid(tiles)
    ensures NoDup(Indexes(tiles))
  {
    forall i, j | 0 <= i < j < |tiles|
      ensures Indexes(tiles)[i] != Indexes(tiles)[j]
    {
      if IndexOf(tiles[i]) == IndexOf(tiles[j]) {
        IndexInjective(tiles[i], tiles[j]);
      }
    }
  }

  /** For on-grid tiles, the index list names exactly the uncached tiles: every index
      decodes to a listed tile the cache lacks, every such tile's index is listed, and
      without repeated tiles no index repeats. */
  lemma FetchList(tiles: seq<Tile>, cache: set<Tile>)
    requires AllOnGrid(tiles)
    ensures forall i :: i in Indexes(Uncached(tiles, cache)) ==>
      i >= 0 && TileOf(i) in tiles && TileOf(i) !in cache
    ensures forall t :: t in tiles && t !in cache ==> IndexOf(t) in Indexes(Uncached(tiles, cache))
    ensures NoDup(tiles) ==> NoDup(Indexes(Uncached(tiles, cache)))
  {
    var u := Uncached(tiles, cache);
    forall i | i in Indexes(u)
      ensures i >= 0 && TileOf(i) in tiles && TileOf(i) !in cache
    {
      var k :| 0 <= k < |u| && Indexes(u)[k] == i;
      assert u[k] in u;
      IndexRoundTrip(u[k]);
    }
    forall t | t in tiles && t !in cache
      ensures IndexOf(t) in Indexes(u)
    {
      var k :| 0 <= k < |u| && u[k] == t;
      assert Indexes(u)[k] == IndexOf(t);
    }
    if NoDup(tiles) {
      UncachedNoDup(tiles, cache);
      IndexesNoDup(u);
    }
  }

  // ---------------------------------------------------------------------------------
  // The shape of the funnel

  /** The window one level up is anchored at an on-grid tile. */
  lemma HalfOrigin(x: int, y: int, z: nat)
    requires OnGrid(Tile(x, y, z)) && z > 0
    ensures OnGrid(Tile(x / 2, y / 2, z - 1))
  {
    assert Pow2(z) == 2 * Pow2(z - 1);
  }

  lemma QuarterOrigin(x: int, y: int, z: nat)
    requires OnGrid(Tile(x, y, z)) && z > 1
    ensures OnGrid(Tile(x / 4, y / 4, z - 2))
  {
    HalfOrigin(x, y, z);
    HalfOrigin(x / 2, y / 2, z - 1);
    assert x / 4 == x / 2 / 2 && y / 4 == y / 2 / 2;
  }

  /** A level of the funnel: no tile twice, every tile at zoom level z. */
  predicate Level(s: seq<Tile>, z: int)
  {
    NoDup(s) && forall t :: t in s ==> t.zoom == z
  }

  /** Every tile of s lies between zoom levels lo and hi. */
  predicate Within(s: seq<Tile>, lo: int, hi: int)
  {
    forall t :: t in s ==> lo <= t.zoom <= hi
  }

  lemma LevelWithin(s: seq<Tile>, z: int, lo: int, hi: int)
    requires Level(s, z) && lo <= z <= hi
    ensures Within(s, lo, hi)
  {
  }

  lemma JoinWithin(a: seq<Tile>, b: seq<Tile>, lo: int, hi: int)
    requires Within(a, lo, hi) && Within(b, lo, hi)
    ensures Within(a + b, lo, hi)
  {
  }

  /** Appending a level whose zoom lies outside the range of the tiles so far adds no
      repeated tile. */
  lemma AddLevel(a: seq<Tile>, b: seq<Tile>, lo: int, hi: int, zb: int)
    requires NoDup(a) && Within(a, lo, hi) && Level(b, zb) && (zb < lo || hi < zb)
    ensures NoDup(a + b)
  {
    NoDupConcat(a, b);
  }

  lemma WindowFacts(x: int, y: int, z: nat)
    requires OnGrid(Tile(x, y, z))
    ensures Level(Neighbourhood(x, y, z), z) && AllOnGrid(Neighbourhood(x, y, z))
  {
    NeighbourhoodNoDup(x, y, z);
    forall t | t in Neighbourhood(x, y, z)
      ensures t.zoom == z && OnGrid(t)
    {
      NeighbourhoodMembers(x, y, z, t);
    }
  }

  /** The subdivision of a level is a level one deeper, present only above maxZoom. */
  lemma ChildrenLevel(tiles: seq<Tile>, z: nat, maxZoom: nat)
    requires Level(tiles, z)
    ensures Level(Children(tiles, z, maxZoom), z + 1)
    ensures Children(tiles, z, maxZoom) != [] ==> z + 1 <= maxZoom
  {
    var r := Children(tiles, z, maxZoom);
    ChildrenNoDup(tiles, z, maxZoom);
    forall t | t in r
      ensures t.zoom == z + 1
    {
      var k :| 0 <= k < |r| && r[k] == t;
      assert r[4 * (k / 4) + k % 4] == t;
    }
  }

  /** The next level has no repeated tile and lies at level z + 1 <= maxZoom; with the
      corrected guard it stays on the grid. */
  lemma NextLevelFacts(x: int, y: int, z: nat, maxZoom: nat, bottomReach: int)
    requires OnGrid(Tile(x, y, z))
    ensures Level(NextLevel(x, y, z, maxZoom, bottomReach), z + 1)
    ensures NextLevel(x, y, z, maxZoom, bottomReach) != [] ==> z + 1 <= maxZoom
    ensures bottomReach >= 4 ==> AllOnGrid(NextLevel(x, y, z, maxZoom, bottomReach))
  {
    var window := Neighbourhood(x, y, z);
    var children := Children(window, z, maxZoom);
    var ring := Ring(x, y, z, maxZoom, bottomReach);
    WindowFacts(x, y, z);
    ChildrenLevel(window, z, maxZoom);
    ChildrenOnGrid(window, z, maxZoom);
    RingNoDup(x, y, z, maxZoom, bottomReach);
    RingShape(x, y, z, maxZoom, bottomReach);
    RingAvoidsChildren(x, y, z, maxZoom, bottomReach);
    NoDupConcat(children, ring);
    if bottomReach >= 4 {
      RingOnGrid(x, y, z, maxZoom, bottomReach);
    }
  }

  /** The windows one and two levels up are levels z - 1 and z - 2, on the grid. */
  lemma CoarseFacts(x: int, y: int, z: nat)
    requires OnGrid(Tile(x, y, z))
    ensures Level(if z > 0 then Neighbourhood(x / 2, y / 2, z - 1) else [], z - 1)
    ensures Level(if z > 1 then Neighbourhood(x / 4, y / 4, z - 2) else [], z - 2)
    ensures AllOnGrid(CoarseLevels(x, y, z))
  {
    if z > 0 {
      HalfOrigin(x, y, z);
      WindowFacts(x / 2, y / 2, z - 1);
    }
    if z > 1 {
      QuarterOrigin(x, y, z);
      WindowFacts(x / 4, y / 4, z - 2);
    }
  }

  /** The five levels of the funnel, each a level at its own zoom. */
  lemma LevelsFacts(x: int, y: int, z: nat, maxZoom: nat, bottomReach: int)
    requires OnGrid(Tile(x, y, z))
    ensures Level(Neighbourhood(x, y, z), z)
    ensures Level(NextLevel(x, y, z, maxZoom, bottomReach), z + 1)
    ensures NextLevel(x, y, z, maxZoom, bottomReach) != [] ==> z + 1 <= maxZoom
    ensures Level(Children(NextLevel(x, y, z, maxZoom, bottomReach), z + 1, maxZoom), z + 2)
    ensures Children(NextLevel(x, y, z, maxZoom, bottomReach), z + 1, maxZoom) != [] ==>
      z + 2 <= maxZoom
    ensures Level(if z > 0 then Neighbourhood(x / 2, y / 2, z - 1) else [], z - 1)
    ensures Level(if z > 1 then Neighbourhood(x / 4, y / 4, z - 2) else [], z - 2)
  {
    WindowFacts(x, y, z);
    NextLevelFacts(x, y, z, maxZoom, bottomReach);
    ChildrenLevel(NextLevel(x, y, z, maxZoom, bottomReach), z + 1, maxZoom);
    CoarseFacts(x, y, z);
  }

  /** Every tile of the funnel lies within two levels of the window and never below the
      deepest level. */
  lemma FunnelZooms(x: int, y: int, z: nat, maxZoom: nat, bottomReach: int)
    requires OnGrid(Tile(x, y, z)) && z <= maxZoom
    ensures forall t :: t in FunnelTiles(x, y, z, maxZoom, bottomReach) ==>
      z - 2 <= t.zoom <= z + 2 && t.zoom <= maxZoom
  {
    LevelsFacts(x, y, z, maxZoom, bottomReach);
  }

  /** Five levels at distinct zooms, joined in the order the funnel lists them. */
  lemma FiveLevels(window: seq<Tile>, next: seq<Tile>, nextNext: seq<Tile>,
                   prev: seq<Tile>, prevPrev: seq<Tile>, z: int)
    requires Level(window, z) && Level(next, z + 1) && Level(nextNext, z + 2)
    requires Level(prev, z - 1) && Level(prevPrev, z - 2)
    ensures NoDup(window + next + nextNext + (prev + prevPrev))
  {
    LevelWithin(window, z, z, z);
    AddLevel(window, next, z, z, z + 1);
    LevelWithin(window, z, z, z + 1);
    LevelWithin(next, z + 1, z, z + 1);
    JoinWithin(window, next, z, z + 1);
    AddLevel(window + next, nextNext, z, z + 1, z + 2);
    LevelWithin(nextNext, z + 2, z, z + 2);
    JoinWithin(window + next, nextNext, z, z + 2);
    var fine := window + next + nextNext;
    AddLevel(fine, prev, z, z + 2, z - 1);
    LevelWithin(prev, z - 1, z - 1, z + 2);
    JoinWithin(fine, prev, z - 1, z + 2);
    AddLevel(fine + prev, prevPrev, z - 1, z + 2, z - 2);
    assert fine + (prev + prevPrev) == fine + prev + prevPrev;
  }

  /** The funnel never lists a tile twice, whichever bottom guard the ring uses. */
  lemma FunnelNoDup(x: int, y: int, z: nat, maxZoom: nat, bottomReach: int)
    requires OnGrid(Tile(x, y, z))
    ensures NoDup(FunnelTiles(x, y, z, maxZoom, bottomReach))
  {
    LevelsFacts(x, y, z, maxZoom, bottomReach);
    FiveLevels(Neighbourhood(x, y, z), NextLevel(x, y, z, maxZoom, bottomReach),
      Children(NextLevel(x, y, z, maxZoom, bottomReach), z + 1, maxZoom),
      if z > 0 then Neighbourhood(x / 2, y / 2, z - 1) else [],
      if z > 1 then Neighbourhood(x / 4, y / 4, z - 2) else [], z);
  }

  /** With the corrected guard the funnel stays on the grid. */
  lemma FunnelOnGrid(x: int, y: int, z: nat, maxZoom: nat)
    requires OnGrid(Tile(x, y, z))
    ensures AllOnGrid(FunnelTiles(x, y, z, maxZoom, 4))
  {
    var next := NextLevel(x, y, z, maxZoom, 4);
    WindowFacts(x, y, z);
    NextLevelFacts(x, y, z, maxZoom, 4);
    ChildrenLevel(next, z + 1, maxZoom);
    forall u | u in next
      ensures u.zoom == z + 1 && OnGrid(u)
    {
    }
    ChildrenOnGrid(next, z + 1, maxZoom);
    CoarseFacts(x, y, z);
  }

  lemma OnGridNatural(tiles: seq<Tile>)
    requires AllOnGrid(tiles)
    ensures AllNatural(tiles)
  {
  }

  /** Whichever bottom guard the ring uses, no tile of the funnel has a negative
      coordinate, so every number `getTilesToFetch` computes is a tile index. */
  lemma FunnelNatural(x: int, y: int, z: nat, maxZoom: nat, bottomReach: int)
    requires OnGrid(Tile(x, y, z))
    ensures AllNatural(FunnelTiles(x, y, z, maxZoom, bottomReach))
  {
    var window := Neighbourhood(x, y, z);
    var next := NextLevel(x, y, z, maxZoom, bottomReach);
    WindowFacts(x, y, z);
    OnGridNatural(window);
    ChildrenNatural(window, z, maxZoom);
    RingNatural(x, y, z, maxZoom, bottomReach);
    assert AllNatural(next);
    ChildrenNatural(next, z + 1, maxZoom);
    CoarseFacts(x, y, z);
    OnGridNatural(CoarseLevels(x, y, z));
  }

  /** The funnel as written stays on the grid exactly when the window does not reach the
      grid's last row or no level lies below it. */
  lemma FunnelOnGridAsWritten(x: int, y: int, z: nat, maxZoom: nat)
    requires OnGrid(Tile(x, y, z))
    ensures AllOnGrid(FunnelTiles(x, y, z, maxZoom, 3)) <==> y + 4 != Pow2(z) || z + 1 > maxZoom
  {
    if y + 4 != Pow2(z) {
      GuardsAgree(x, y, z, maxZoom);
      FunnelOnGrid(x, y, z, maxZoom);
    } else if z + 1 > maxZoom {
      assert Ring(x, y, z, maxZoom, 3) == [] == Ring(x, y, z, maxZoom, 4);
      assert FunnelTiles(x, y, z, maxZoom, 3) == FunnelTiles(x, y, z, maxZoom, 4);
      FunnelOnGrid(x, y, z, maxZoom);
    } else {
      BottomRowOffGrid(x, y, z, maxZoom);
      assert Tile(2 * x, (y + 4) * 2, z + 1) in FunnelTiles(x, y, z, maxZoom, 3);
    }
  }

  /** The index list the corrected `getTilesToFetch` returns asks for every uncached tile of
      the funnel exactly once, and for nothing else: every index decodes to an uncached
      funnel tile no deeper than maxZoom. */
  lemma FetchIndexesCorrect(x: int, y: int, z: nat, maxZoom: nat, cache: set<Tile>)
    requires OnGrid(Tile(x, y, z)) && z <= maxZoom
    ensures AllOnGrid(FunnelTiles(x, y, z, maxZoom, 4))
    ensures var r := Indexes(Uncached(FunnelTiles(x, y, z, maxZoom, 4), cache));
      NoDup(r) &&
      (forall i :: i in r ==>
        (i >= 0 && TileOf(i) in FunnelTiles(x, y, z, maxZoom, 4) &&
         TileOf(i) !in cache && TileOf(i).zoom <= maxZoom)) &&
      (forall t :: t in FunnelTiles(x, y, z, maxZoom, 4) && t !in cache ==> IndexOf(t) in r)
  {
    FunnelOnGrid(x, y, z, maxZoom);
    FunnelNoDup(x, y, z, maxZoom, 4);
    FunnelZooms(x, y, z, maxZoom, 4);
    FetchList(FunnelTiles(x, y, z, maxZoom, 4), cache);
  }

  /** The two bottom guards give the same funnel unless the window's bottom edge sits
      exactly four tiles above the grid's edge. */
  lemma GuardsAgree(x: int, y: int, z: nat, maxZoom: nat)
    requires y + 4 != Pow2(z)
    ensures FunnelTiles(x, y, z, maxZoom, 3) == FunnelTiles(x, y, z, maxZoom, 4)
  {
    RingGuardsAgree(x, y, z, maxZoom);
  }

  /** Away from the grid's edges, with both coarser levels present and two levels below
      the window, the funnel holds 25 * 3 + (25 * 4 + 44) * 5 tiles. */
  lemma InteriorFunnelSize(x: int, y: int, z: nat, maxZoom: nat, bottomReach: int)
    requires 2 <= z && z + 2 <= maxZoom && bottomReach <= 4
    requires 2 <= x && x + 4 < Pow2(z) && 2 <= y && y + 4 < Pow2(z)
    requires 1 <= x / 4 && x / 4 + 4 <= Pow2(z - 2) && 1 <= y / 4 && y / 4 + 4 <= Pow2(z - 2)
    ensures |FunnelTiles(x, y, z, maxZoom, bottomReach)| == 25 * 3 + (25 * 4 + 44) * 5
  {
    InteriorNeighbourhoodSize(x, y, z);
    RingSize(x, y, z, maxZoom, bottomReach);
    assert |NextLevel(x, y, z, maxZoom, bottomReach)| == 144;
    CoarseSizes(x, y, z);
  }

  lemma HalfInterior(v: int, m: int)
    requires 2 <= v && 1 <= v / 4 && v / 4 + 4 <= m
    ensures 1 <= v / 2 <= 2 * m - 4
  {
  }

  lemma CoarseSizes(x: int, y: int, z: nat)
    requires 2 <= z && 2 <= x && 2 <= y
    requires 1 <= x / 4 && x / 4 + 4 <= Pow2(z - 2) && 1 <= y / 4 && y / 4 + 4 <= Pow2(z - 2)
    ensures |CoarseLevels(x, y, z)| == 50
  {
    assert Pow2(z - 1) == 2 * Pow2(z - 2);
    HalfInterior(x, Pow2(z - 2));
    HalfInterior(y, Pow2(z - 2));
    InteriorNeighbourhoodSize(x / 2, y / 2, z - 1);
    InteriorNeighbourhoodSize(x / 4, y / 4, z - 2);
  }

  /** Away from the bottom edge the funnel as written lists exactly what the corrected one
      does, so its index list has the same guarantees. */
  lemma FetchIndexesAsWritten(x: int, y: int, z: nat, maxZoom: nat, cache: set<Tile>)
    requires OnGrid(Tile(x, y, z)) && z <= maxZoom && y + 4 != Pow2(z)
    ensures Indexes(Uncached(FunnelTiles(x, y, z, maxZoom, 3), cache))
         == Indexes(Uncached(FunnelTiles(x, y, z, maxZoom, 4), cache))
    ensures NoDup(Indexes(Uncached(FunnelTiles(x, y, z, maxZoom, 3), cache)))
  {
    GuardsAgree(x, y, z, maxZoom);
    FetchIndexesCorrect(x, y, z, maxZoom, cache);
  }

  /** The front-end's test of `getTilesToFetch`: around tile (17, 18) at level 5 with seven
      levels and an empty cache it asks for 795 indexes ... */
  lemma FunnelTestSize()
    ensures |Indexes(Uncached(FunnelTiles(17, 18, 5, 7, 3), {}))| == 795
  {
    var x, y, z, maxZoom := 17, 18, 5, 7;
    assert Pow2(3) == 8 && Pow2(5) == 32;
    UncachedNoCache(FunnelTiles(x, y, z, maxZoom, 3));
    InteriorFunnelSize(x, y, z, maxZoom, 3);
  }

  /** ... and no index twice. */
  lemma FunnelTestDistinct()
    ensures NoDup(Indexes(Uncached(FunnelTiles(17, 18, 5, 7, 3), {})))
  {
    var x, y, z, maxZoom := 17, 18, 5, 7;
    assert Pow2(5) == 32;
    FetchIndexesAsWritten(x, y, z, maxZoom, {});
  }

  /** Two different listed tiles with one index make the index list repeat. */
  lemma SharedIndex(tiles: seq<Tile>, a: Tile, b: Tile)
    requires a in tiles && b in tiles && a != b && IndexOf(a) == IndexOf(b)
    ensures !NoDup(Indexes(tiles))
  {
    var p :| 0 <= p < |tiles| && tiles[p] == a;
    var q :| 0 <= q < |tiles| && tiles[q] == b;
    if p < q {
      assert !(Indexes(tiles)[p] != Indexes(tiles)[q]);
    } else {
      assert !(Indexes(tiles)[q] != Indexes(tiles)[p]);
    }
  }

  /** As written, the funnel around tile (0, 0) at level 2 with three levels asks for the
      same index twice: the ring's off-grid tile (0, 8) at level 3 shares its index with the
      child (1, 0). */
  lemma FunnelDuplicatesAsWritten()
    ensures !NoDup(Indexes(Uncached(FunnelTiles(0, 0, 2, 3, 3), {})))
  {
    var x, y, z, maxZoom := 0, 0, 2, 3;
    BorderLeavesGrid();
    assert Tile(0, 8, 3) in NextLevel(x, y, z, maxZoom, 3);
    assert Tile(1, 0, 3) in NextLevel(x, y, z, maxZoom, 3);
    UncachedNoCache(FunnelTiles(x, y, z, maxZoom, 3));
    SharedIndex(FunnelTiles(x, y, z, maxZoom, 3), Tile(0, 8, 3), Tile(1, 0, 3));
  }

  /** The zoom ticker's tiles are part of the funnel: it asks for nothing the funnel
      would not. */
  lemma ZoomTickerWithinFunnel(x: int, y: int, z: nat, maxZoom: nat, bottomReach: int)
    ensures forall t :: t in ZoomTickerTiles(x, y, z, maxZoom) ==>
      t in FunnelTiles(x, y, z, maxZoom, bottomReach)
  {
  }

  /** The ticker lists, like the funnel's: every index decodes to an uncached tile of the
      ticker's tiles, every such tile is asked for, and none twice. */
  lemma TickerFetchLists(x: int, y: int, z: nat, maxZoom: nat, cache: set<Tile>)
    requires OnGrid(Tile(x, y, z))
    ensures AllOnGrid(Neighbourhood(x, y, z)) && AllOnGrid(ZoomTickerTiles(x, y, z, maxZoom))
    ensures var r := Indexes(Uncached(Neighbourhood(x, y, z), cache));
      NoDup(r) &&
      (forall i :: i in r ==> (i >= 0 && TileOf(i) in Neighbourhood(x, y, z) && TileOf(i) !in cache)) &&
      (forall t :: t in Neighbourhood(x, y, z) && t !in cache ==> IndexOf(t) in r)
    ensures var r := Indexes(Uncached(ZoomTickerTiles(x, y, z, maxZoom), cache));
      NoDup(r) &&
      (forall i :: i in r ==>
        (i >= 0 && TileOf(i) in ZoomTickerTiles(x, y, z, maxZoom) && TileOf(i) !in cache)) &&
      (forall t :: t in ZoomTickerTiles(x, y, z, maxZoom) && t !in cache ==> IndexOf(t) in r)
  {
    var window := Neighbourhood(x, y, z);
    var children := Children(window, z, maxZoom);
    var prev := if z > 0 then Neighbourhood(x / 2, y / 2, z - 1) else [];
    WindowFacts(x, y, z);
    FetchList(window, cache);
    ChildrenLevel(window, z, maxZoom);
    ChildrenOnGrid(window, z, maxZoom);
    CoarseFacts(x, y, z);
    LevelWithin(window, z, z, z);
    AddLevel(window, children, z, z, z + 1);
    LevelWithin(window, z, z, z + 1);
    LevelWithin(children, z + 1, z, z + 1);
    JoinWithin(window, children, z, z + 1);
    AddLevel(window + children, prev, z, z + 1, z - 1);
    assert AllOnGrid(ZoomTickerTiles(x, y, z, maxZoom));
    FetchList(ZoomTickerTiles(x, y, z, maxZoom), cache);
  }
}
