/** The server-side twin of the prefetch helpers, used to plot the funnel
    (`backend/src/report/tiling.py`). Its neighbourhood, subdivision and border-ring
    functions are the same code as the front-end's and share their model; what is its own
    is the window one level up and the fine part of the funnel without coarser levels. */
module Report {
  import opened Tiles
  import opened Seqs
  import opened Prefetch
  import opened Funnel

  /** The 5 x 5 window one level up, or nothing at level 0. */
  function PrevLevel(x: int, y: int, z: nat): seq<Tile>
  {
    if z > 0 then Neighbourhood(x / 2, y / 2, z - 1) else []
  }

  /** `get_tiles_from_prev_zoom_level`. */
  method GetTilesFromPrevZoomLevel(tileX: int, tileY: int, zoom: nat) returns (tiles: seq<Tile>)
    ensures tiles == PrevLevel(tileX, tileY, zoom)
  {
    tiles := [];
    if zoom > 0 {
      var prev := GetTilesFromZoomLevel(tileX / 2, tileY / 2, zoom - 1);
      tiles := tiles + prev;
    }
  }

  /** `get_tiles`: the window, its next level with the border ring, and the subdivision of
      that level. */
  method GetTiles(tileX: int, tileY: int, zoom: nat, maxZoom: nat) returns (tiles: seq<Tile>)
    ensures tiles == FineLevels(tileX, tileY, zoom, maxZoom, 3)
  {
    tiles := GetTilesFromZoomLevel(tileX, tileY, zoom);
    var next := GetTilesFromNextZoomLevel(tiles, zoom, maxZoom);
    var border := GetTilesFromNextZoomLevelAtBorder(tileX, tileY, zoom, maxZoom);
    next := next + border;
    var nextNext := GetTilesFromNextZoomLevel(next, zoom + 1, maxZoom);
    tiles := tiles + next;
    tiles := tiles + nextNext;
  }

  /** The window one level up is empty at level 0 and otherwise a level z - 1 of on-grid
      tiles without repeats. */
  lemma PrevLevelFacts(x: int, y: int, z: nat)
    requires OnGrid(Tile(x, y, z))
    ensures z == 0 ==> PrevLevel(x, y, z) == []
    ensures Level(PrevLevel(x, y, z), z - 1) && AllOnGrid(PrevLevel(x, y, z))
  {
    CoarseFacts(x, y, z);
    if z > 0 {
      HalfOrigin(x, y, z);
      WindowFacts(x / 2, y / 2, z - 1);
    }
  }

  /** `get_tiles` lists no tile twice and nothing coarser than the window's level. */
  lemma FineLevelsFacts(x: int, y: int, z: nat, maxZoom: nat, bottomReach: int)
    requires OnGrid(Tile(x, y, z))
    ensures NoDup(FineLevels(x, y, z, maxZoom, bottomReach))
    ensures Within(FineLevels(x, y, z, maxZoom, bottomReach), z, z + 2)
  {
    var window := Neighbourhood(x, y, z);
    var next := NextLevel(x, y, z, maxZoom, bottomReach);
    var nextNext := Children(next, z + 1, maxZoom);
    LevelsFacts(x, y, z, maxZoom, bottomReach);
    LevelWithin(window, z, z, z);
    AddLevel(window, next, z, z, z + 1);
    LevelWithin(window, z, z, z + 1);
    LevelWithin(next, z + 1, z, z + 1);
    JoinWithin(window, next, z, z + 1);
    AddLevel(window + next, nextNext, z, z + 1, z + 2);
    LevelWithin(window, z, z, z + 2);
    LevelWithin(next, z + 1, z, z + 2);
    LevelWithin(nextNext, z + 2, z, z + 2);
    JoinWithin(window, next, z, z + 2);
    JoinWithin(window + next, nextNext, z, z + 2);
  }

  /** The plot script's own check: around tile (15, 18) at level 5 with seven levels,
      `get_tiles` lists no tile twice. */
  lemma PlotTilesDistinct()
    ensures NoDup(FineLevels(15, 18, 5, 7, 3))
  {
    var x, y, z, maxZoom := 15, 18, 5, 7;
    assert Pow2(5) == 32;
    FineLevelsFacts(x, y, z, maxZoom, 3);
  }
}
