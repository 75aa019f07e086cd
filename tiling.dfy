/** The base grid of the server's tiling (`get_index_from_tile` and `create_tiling` in
    `backend/src/db_utilities/create_and_populate_clusters_collection.py`): every entity
    is put in one cell of a `2^z x 2^z` grid over the bounding box of all entities, and
    `z` grows until no cell holds more than `MaxImagesPerTile` entities. Coordinates are
    exact reals. */
module Tiling {
  import opened Wrappers
  import opened Tiles

  /** `MAX_IMAGES_PER_TILE`. */
  const MaxImagesPerTile := 30

  /** `get_index_from_tile`: the sum of `4^i` for the coarser levels, then the position in
      the level. */
  method GetIndexFromTile(zoomLevel: nat, tileX: int, tileY: int) returns (index: int)
    ensures index == IndexOf(Tile(tileX, tileY, zoomLevel))
  {
    index := 0;
    var power := 1;
    for i := 0 to zoomLevel
      invariant index == Offset(i) && power == Pow4(i)
    {
      index := index + power;
      power := 4 * power;
    }
    var side := 1;
    for i := 0 to zoomLevel
      invariant side == Pow2(i)
    {
      side := 2 * side;
    }
    index := index + side * tileX + tileY;
  }

  /** The server and the client number tiles alike, so every index the server stores
      decodes on the client to the tile it was stored for. */
  lemma ServerIndexDecodes(t: Tile)
    requires OnGrid(t)
    ensures IndexOf(t) >= 0 && TileOf(IndexOf(t)) == t
  {
    IndexRoundTrip(t);
  }

  /** An entity of the collection: its number and its 2-D embedding. */
  datatype Entity = Entity(index: int, x: real, y: real)

  /** The bounding box of the entities. */
  datatype Box = Box(minX: real, maxX: real, minY: real, maxY: real)

  function MinX(es: seq<Entity>): real
    requires es != []
  {
    if |es| == 1 then es[0].x else var m := MinX(es[1..]); if es[0].x < m then es[0].x else m
  }

  function MaxX(es: seq<Entity>): real
    requires es != []
  {
    if |es| == 1 then es[0].x else var m := MaxX(es[1..]); if es[0].x > m then es[0].x else m
  }

  function MinY(es: seq<Entity>): real
    requires es != []
  {
    if |es| == 1 then es[0].y else var m := MinY(es[1..]); if es[0].y < m then es[0].y else m
  }

  function MaxY(es: seq<Entity>): real
    requires es != []
  {
    if |es| == 1 then es[0].y else var m := MaxY(es[1..]); if es[0].y > m then es[0].y else m
  }

  /** The box of `min`/`max` over both coordinates. */
  function BoxOf(es: seq<Entity>): (b: Box)
    requires es != []
    ensures forall e :: e in es ==> Inside(e, b)
  {
    BoxContains(es);
    Box(MinX(es), MaxX(es), MinY(es), MaxY(es))
  }

  predicate Inside(e: Entity, b: Box)
  {
    b.minX <= e.x <= b.maxX && b.minY <= e.y <= b.maxY
  }

  lemma {:induction false} BoxContains(es: seq<Entity>)
    requires es != []
    ensures forall e :: e in es ==> Inside(e, Box(MinX(es), MaxX(es), MinY(es), MaxY(es)))
  {
    if |es| > 1 {
      BoxContains(es[1..]);
      forall e | e in es
        ensures Inside(e, Box(MinX(es), MaxX(es), MinY(es), MaxY(es)))
      {
        if e != es[0] {
          assert e in es[1..];
        }
      }
    }
  }

  /** A box the cell computation can divide by. */
  predicate Proper(b: Box)
  {
    b.minX < b.maxX && b.minY < b.maxY
  }

  /** `min(int((v - lo) * n // (hi - lo)), n - 1)`: the cell of a coordinate along one
      axis. */
  function Cell(v: real, lo: real, hi: real, n: nat): (c: int)
    requires lo <= v <= hi && lo < hi && n >= 1
    ensures 0 <= c < n
  {
    var q := (v - lo) * (n as real) / (hi - lo);
    assert 0.0 <= q;
    var f := q.Floor;
    if f < n - 1 then f else n - 1
  }

  /** The cell of an entity in the `n x n` grid over a box. */
  function CellOf(e: Entity, b: Box, n: nat): (c: (int, int))
    requires Inside(e, b) && Proper(b) && n >= 1
    ensures 0 <= c.0 < n && 0 <= c.1 < n
  {
    (Cell(e.x, b.minX, b.maxX, n), Cell(e.y, b.minY, b.maxY, n))
  }

  predicate AllInside(es: seq<Entity>, b: Box)
  {
    forall e :: e in es ==> Inside(e, b)
  }

  /** The entities of cell `(i, j)`, in list order. */
  function Members(es: seq<Entity>, b: Box, n: nat, i: int, j: int): seq<Entity>
    requires AllInside(es, b) && Proper(b) && n >= 1
  {
    if es == [] then []
    else
      var last := es[|es| - 1];
      assert last in es;
      Members(es[..|es| - 1], b, n, i, j) + (if CellOf(last, b, n) == (i, j) then [last] else [])
  }

  type Grid = seq<seq<seq<Entity>>>

  /** Whether a grid is `n x n`. */
  predicate Square(g: Grid, n: nat)
  {
    |g| == n && forall i :: 0 <= i < n ==> |g[i]| == n
  }

  /** The grid `create_tiling` builds for `n` cells per side. */
  function GridOf(es: seq<Entity>, b: Box, n: nat): (g: Grid)
    requires AllInside(es, b) && Proper(b) && n >= 1
    ensures Square(g, n)
  {
    seq(n, i requires 0 <= i < n => seq(n, j requires 0 <= j < n => Members(es, b, n, i, j)))
  }

  /** The loop that fills the grid one entity at a time. */
  method FillGrid(es: seq<Entity>, b: Box, n: nat) returns (grid: Grid)
    requires AllInside(es, b) && Proper(b) && n >= 1
    ensures grid == GridOf(es, b, n)
  {
    grid := seq(n, i => seq(n, j => []));
    forall i | 0 <= i < n
      ensures grid[i] == GridOf(es[..0], b, n)[i]
    {
      forall j | 0 <= j < n
        ensures grid[i][j] == GridOf(es[..0], b, n)[i][j]
      {
      }
    }
    for k := 0 to |es|
      invariant AllInside(es[..k], b)
      invariant grid == GridOf(es[..k], b, n)
    {
      assert es[k] in es;
      var c := CellOf(es[k], b, n);
      grid := grid[c.0 := grid[c.0][c.1 := grid[c.0][c.1] + [es[k]]]];
      assert es[..k + 1][..k] == es[..k];
      GridStep(es[..k + 1], b, n);
    }
    assert es[..|es|] == es;
  }

  /** The grid of a list is the grid of all but its last entity with that entity added
      to its cell. */
  lemma GridStep(es: seq<Entity>, b: Box, n: nat)
    requires es != [] && AllInside(es, b) && Proper(b) && n >= 1
    ensures var init, last := es[..|es| - 1], es[|es| - 1];
      last in es && AllInside(init, b) &&
      var c := CellOf(last, b, n);
      var before := GridOf(init, b, n);
      GridOf(es, b, n) == before[c.0 := before[c.0][c.1 := before[c.0][c.1] + [last]]]
  {
    var init, last := es[..|es| - 1], es[|es| - 1];
    assert last in es;
    var c := CellOf(last, b, n);
    var before := GridOf(init, b, n);
    var after := before[c.0 := before[c.0][c.1 := before[c.0][c.1] + [last]]];
    forall i | 0 <= i < n
      ensures GridOf(es, b, n)[i] == after[i]
    {
      forall j | 0 <= j < n
        ensures GridOf(es, b, n)[i][j] == after[i][j]
      {
        assert GridOf(es, b, n)[i][j] == Members(es, b, n, i, j);
      }
    }
  }

  // ---------------------------------------------------------------------------------
  // Scanning a grid

  function RowTotal(row: seq<seq<Entity>>): nat
  {
    if row == [] then 0 else RowTotal(row[..|row| - 1]) + |row[|row| - 1]|
  }

  function Total(g: Grid): nat
  {
    if g == [] then 0 else Total(g[..|g| - 1]) + RowTotal(g[|g| - 1])
  }

  function RowMax(row: seq<seq<Entity>>): nat
  {
    if row == [] then 0
    else var m := RowMax(row[..|row| - 1]); if |row[|row| - 1]| > m then |row[|row| - 1]| else m
  }

  function GridMax(g: Grid): nat
  {
    if g == [] then 0
    else var m := GridMax(g[..|g| - 1]); if RowMax(g[|g| - 1]) > m then RowMax(g[|g| - 1]) else m
  }

  /** The loops that count the entities of a grid and find its fullest cell. */
  method Scan(grid: Grid) returns (maxImagesPerTile: nat, totImages: nat)
    ensures maxImagesPerTile == GridMax(grid) && totImages == Total(grid)
  {
    maxImagesPerTile, totImages := 0, 0;
    for r := 0 to |grid|
      invariant maxImagesPerTile == GridMax(grid[..r]) && totImages == Total(grid[..r])
    {
      var row := grid[r];
      ghost var maxBefore, totBefore := maxImagesPerTile, totImages;
      for t := 0 to |row|
        invariant maxImagesPerTile == (if RowMax(row[..t]) > maxBefore then RowMax(row[..t]) else maxBefore)
        invariant totImages == totBefore + RowTotal(row[..t])
      {
        if |row[t]| > maxImagesPerTile {
          maxImagesPerTile := |row[t]|;
        }
        totImages := totImages + |row[t]|;
        assert row[..t + 1][..t] == row[..t];
      }
      assert row[..|row|] == row;
      assert grid[..r + 1][..r] == grid[..r];
    }
    assert grid[..|grid|] == grid;
  }

  /** A cell holds no more entities than the fullest cell. */
  lemma {:induction false} CellBelowMax(g: Grid, i: nat, j: nat)
    requires i < |g| && j < |g[i]|
    ensures |g[i][j]| <= GridMax(g)
  {
    if i < |g| - 1 {
      assert g[..|g| - 1][i] == g[i];
      CellBelowMax(g[..|g| - 1], i, j);
    } else {
      RowCellBelowMax(g[i], j);
    }
  }

  lemma {:induction false} RowCellBelowMax(row: seq<seq<Entity>>, j: nat)
    requires j < |row|
    ensures |row[j]| <= RowMax(row)
  {
    if j < |row| - 1 {
      assert row[..|row| - 1][j] == row[j];
      RowCellBelowMax(row[..|row| - 1], j);
    }
  }

  /** The cell sizes sum to the number of entities: every entity is in exactly one cell. */
  lemma {:induction false} TotalIsCount(es: seq<Entity>, b: Box, n: nat)
    requires AllInside(es, b) && Proper(b) && n >= 1
    ensures Total(GridOf(es, b, n)) == |es|
  {
    if es == [] {
      EmptyTotal(GridOf(es, b, n));
    } else {
      var init, last := es[..|es| - 1], es[|es| - 1];
      assert last in es;
      TotalIsCount(init, b, n);
      var c := CellOf(last, b, n);
      GridStep(es, b, n);
      TotalGrows(GridOf(init, b, n), c.0, c.1, last);
    }
  }

  lemma {:induction false} EmptyTotal(g: Grid)
    requires forall i, j :: 0 <= i < |g| && 0 <= j < |g[i]| ==> g[i][j] == []
    ensures Total(g) == 0
  {
    if g != [] {
      EmptyTotal(g[..|g| - 1]);
      EmptyRowTotal(g[|g| - 1]);
    }
  }

  lemma {:induction false} EmptyRowTotal(row: seq<seq<Entity>>)
    requires forall j :: 0 <= j < |row| ==> row[j] == []
    ensures RowTotal(row) == 0
  {
    if row != [] {
      EmptyRowTotal(row[..|row| - 1]);
    }
  }

  /** Adding one entity to one cell adds one to the total. */
  lemma {:induction false} TotalGrows(g: Grid, i: nat, j: nat, e: Entity)
    requires i < |g| && j < |g[i]|
    ensures Total(g[i := g[i][j := g[i][j] + [e]]]) == Total(g) + 1
  {
    var g' := g[i := g[i][j := g[i][j] + [e]]];
    if i < |g| - 1 {
      assert g'[..|g| - 1] == g[..|g| - 1][i := g[i][j := g[i][j] + [e]]];
      TotalGrows(g[..|g| - 1], i, j, e);
    } else {
      assert g'[..|g| - 1] == g[..|g| - 1];
      RowTotalGrows(g[i], j, e);
    }
  }

  lemma {:induction false} RowTotalGrows(row: seq<seq<Entity>>, j: nat, e: Entity)
    requires j < |row|
    ensures RowTotal(row[j := row[j] + [e]]) == RowTotal(row) + 1
  {
    var row' := row[j := row[j] + [e]];
    if j < |row| - 1 {
      assert row'[..|row| - 1] == row[..|row| - 1][j := row[j] + [e]];
      RowTotalGrows(row[..|row| - 1], j, e);
    } else {
      assert row'[..|row| - 1] == row[..|row| - 1];
    }
  }

  // ---------------------------------------------------------------------------------
  // create_tiling

  /** Whether every cell of the grid for zoom `z` holds at most `MaxImagesPerTile`
      entities. */
  predicate Fits(es: seq<Entity>, b: Box, z: nat)
    requires AllInside(es, b) && Proper(b)
  {
    GridMax(GridOf(es, b, Pow2(z))) <= MaxImagesPerTile
  }

  /** `create_tiling`. The source loops without bound; here the search gives up past
      `bound`. An empty list and a box of zero width or height are errors. */
  method CreateTiling(es: seq<Entity>, bound: nat) returns (r: Result<(Grid, nat), string>)
    ensures es == [] ==> r.Err?
    ensures r.Ok? ==> es != [] && Proper(BoxOf(es))
    ensures r.Ok? ==> var (grid, z) := r.value;
      Fits(es, BoxOf(es), z) && (forall z': nat :: z' < z ==> !Fits(es, BoxOf(es), z')) &&
      grid == GridOf(es, BoxOf(es), Pow2(z)) && Total(grid) == |es|
    ensures r.Err? && es != [] && Proper(BoxOf(es)) ==> forall z: nat :: z <= bound ==> !Fits(es, BoxOf(es), z)
  {
    if es == [] {
      return Err("max() arg is an empty sequence");
    }
    var b := Box(MinX(es), MaxX(es), MinY(es), MaxY(es));
    assert b == BoxOf(es);
    if !Proper(b) {
      return Err("float division by zero");
    }
    var maxZoomLevel := 0;
    while maxZoomLevel <= bound
      invariant forall z: nat :: z < maxZoomLevel ==> !Fits(es, b, z)
      decreases bound - maxZoomLevel
    {
      var numberOfTiles := Pow2(maxZoomLevel);
      var grid := FillGrid(es, b, numberOfTiles);
      var maxImagesPerTile, totImages := Scan(grid);
      TotalIsCount(es, b, numberOfTiles);
      assert totImages == |es|;
      if maxImagesPerTile <= MaxImagesPerTile {
        return Ok((grid, maxZoomLevel));
      }
      maxZoomLevel := maxZoomLevel + 1;
    }
    return Err("no zoom level up to the bound");
  }

  /** The entities at exactly the point `(x, y)`. */
  function AtPoint(es: seq<Entity>, x: real, y: real): nat
  {
    if es == [] then 0
    else AtPoint(es[..|es| - 1], x, y) + (if es[|es| - 1].x == x && es[|es| - 1].y == y then 1 else 0)
  }

  /** Entities at one point share a cell at every zoom. */
  lemma {:induction false} PointInCell(es: seq<Entity>, b: Box, n: nat, x: real, y: real)
    requires AllInside(es, b) && Proper(b) && n >= 1 && Inside(Entity(0, x, y), b)
    ensures var c := CellOf(Entity(0, x, y), b, n); AtPoint(es, x, y) <= |Members(es, b, n, c.0, c.1)|
  {
    if es != [] {
      assert es[|es| - 1] in es;
      PointInCell(es[..|es| - 1], b, n, x, y);
    }
  }

  /** When more than `MaxImagesPerTile` entities share a point, no zoom fits, so the
      unbounded loop of the source never ends. */
  lemma NeverFits(es: seq<Entity>, x: real, y: real, z: nat)
    requires es != [] && Proper(BoxOf(es)) && AtPoint(es, x, y) > MaxImagesPerTile
    ensures !Fits(es, BoxOf(es), z)
  {
    var b, n := BoxOf(es), Pow2(z);
    var e :| e in es && e.x == x && e.y == y by {
      SomeAtPoint(es, x, y);
    }
    var c := CellOf(Entity(0, x, y), b, n);
    PointInCell(es, b, n, x, y);
    CellBelowMax(GridOf(es, b, n), c.0, c.1);
  }

  lemma {:induction false} SomeAtPoint(es: seq<Entity>, x: real, y: real)
    requires AtPoint(es, x, y) > 0
    ensures exists e :: e in es && e.x == x && e.y == y
  {
    var last := es[|es| - 1];
    if !(last.x == x && last.y == y) {
      SomeAtPoint(es[..|es| - 1], x, y);
      var e :| e in es[..|es| - 1] && e.x == x && e.y == y;
      assert e in es;
    }
  }
}
