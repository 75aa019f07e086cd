/** The windows of tiles the viewer asks the server for (the `getTiles*` helpers of the
    front-end and their Python twins used to plot the funnel). */
module Prefetch {
  import opened Tiles
  import opened Seqs

  lemma Reassociate<T>(a: seq<T>, b: seq<T>, c: seq<T>, d: seq<T>, e: seq<T>)
    ensures a + (b + (c + (d + e))) == a + b + c + d + e
  {
  }

  // ---------------------------------------------------------------------------------
  // The 5 x 5 neighbourhood at one zoom level

  /** The steps away from the origin tile, in the order the source pushes them. */
  const Steps: seq<int> := [0, -1, 1, 2, 3]

  /** The guard the source writes before stepping `d` away from coordinate `c` on a grid
      `n` tiles wide: none for the origin, `c > 0` to the left, `c < n - d` to the right. */
  predicate Admits(c: int, d: int, n: int)
  {
    d == 0 || (d < 0 && c + d >= 0) || (d > 0 && c + d < n)
  }

  /** Tiles of column `c` at the row steps `ds` from `y` that the guards admit. */
  function ColumnTiles(c: int, y: int, z: nat, ds: seq<int>): seq<Tile>
  {
    if ds == [] then []
    else (if Admits(y, ds[0], Pow2(z)) then [Tile(c, y + ds[0], z)] else [])
         + ColumnTiles(c, y, z, ds[1..])
  }

  /** Whole admitted columns at the column steps `ds` from `x`. */
  function BlockTiles(x: int, y: int, z: nat, ds: seq<int>): seq<Tile>
  {
    if ds == [] then []
    else (if Admits(x, ds[0], Pow2(z)) then ColumnTiles(x + ds[0], y, z, Steps) else [])
         + BlockTiles(x, y, z, ds[1..])
  }

  function Neighbourhood(x: int, y: int, z: nat): seq<Tile>
  {
    BlockTiles(x, y, z, Steps)
  }

  /** The five row pushes the source repeats for every column it visits. */
  method PushColumn(tiles: seq<Tile>, c: int, y: int, z: nat) returns (r: seq<Tile>)
    ensures r == tiles + ColumnTiles(c, y, z, Steps)
  {
    var n: int := Pow2(z);
    r := tiles + [Tile(c, y, z)];
    if y > 0 {
      r := r + [Tile(c, y - 1, z)];
    }
    if y < n - 1 {
      r := r + [Tile(c, y + 1, z)];
    }
    if y < n - 2 {
      r := r + [Tile(c, y + 2, z)];
    }
    if y < n - 3 {
      r := r + [Tile(c, y + 3, z)];
    }
    ColumnUnrolled(c, y, z);
  }

  lemma ColumnUnrolled(c: int, y: int, z: nat)
    ensures ColumnTiles(c, y, z, Steps) ==
      [Tile(c, y, z)]
      + (if y > 0 then [Tile(c, y - 1, z)] else [])
      + (if y < Pow2(z) - 1 then [Tile(c, y + 1, z)] else [])
      + (if y < Pow2(z) - 2 then [Tile(c, y + 2, z)] else [])
      + (if y < Pow2(z) - 3 then [Tile(c, y + 3, z)] else [])
  {
    var n: int := Pow2(z);
    var p0 := [Tile(c, y, z)];
    var p1 := if y > 0 then [Tile(c, y - 1, z)] else [];
    var p2 := if y < n - 1 then [Tile(c, y + 1, z)] else [];
    var p3 := if y < n - 2 then [Tile(c, y + 2, z)] else [];
    var p4 := if y < n - 3 then [Tile(c, y + 3, z)] else [];
    assert [3][1..] == [];
    assert ColumnTiles(c, y, z, [3]) == p4;
    assert [2, 3][1..] == [3];
    assert ColumnTiles(c, y, z, [2, 3]) == p3 + p4;
    assert [1, 2, 3][1..] == [2, 3];
    assert ColumnTiles(c, y, z, [1, 2, 3]) == p2 + (p3 + p4);
    assert [-1, 1, 2, 3][1..] == [1, 2, 3];
    assert ColumnTiles(c, y, z, [-1, 1, 2, 3]) == p1 + (p2 + (p3 + p4));
    assert Steps[1..] == [-1, 1, 2, 3];
    assert ColumnTiles(c, y, z, Steps) == p0 + (p1 + (p2 + (p3 + p4)));
    Reassociate(p0, p1, p2, p3, p4);
  }

  /** The clamped 5 x 5 window whose top-left corner is one tile up and left of the
      origin (`getTilesFromZoomLevel`, `get_tiles_from_zoom_level`). */
  method GetTilesFromZoomLevel(tileX: int, tileY: int, zoom: nat) returns (tiles: seq<Tile>)
    ensures tiles == Neighbourhood(tileX, tileY, zoom)
  {
    var n: int := Pow2(zoom);
    tiles := PushColumn([], tileX, tileY, zoom);
    assert tiles == ColumnTiles(tileX, tileY, zoom, Steps);
    ghost var done := tiles;
    if tileX > 0 {
      tiles := PushColumn(tiles, tileX - 1, tileY, zoom);
    }
    assert tiles == done + (if tileX > 0 then ColumnTiles(tileX - 1, tileY, zoom, Steps) else []);
    done := tiles;
    if tileX < n - 1 {
      tiles := PushColumn(tiles, tileX + 1, tileY, zoom);
    }
    assert tiles == done + (if tileX < n - 1 then ColumnTiles(tileX + 1, tileY, zoom, Steps) else []);
    done := tiles;
    if tileX < n - 2 {
      tiles := PushColumn(tiles, tileX + 2, tileY, zoom);
    }
    assert tiles == done + (if tileX < n - 2 then ColumnTiles(tileX + 2, tileY, zoom, Steps) else []);
    done := tiles;
    if tileX < n - 3 {
      tiles := PushColumn(tiles, tileX + 3, tileY, zoom);
    }
    assert tiles == done + (if tileX < n - 3 then ColumnTiles(tileX + 3, tileY, zoom, Steps) else []);
    BlockUnrolled(tileX, tileY, zoom);
  }

  lemma BlockUnrolled(x: int, y: int, z: nat)
    ensures Neighbourhood(x, y, z) ==
      ColumnTiles(x, y, z, Steps)
      + (if x > 0 then ColumnTiles(x - 1, y, z, Steps) else [])
      + (if x < Pow2(z) - 1 then ColumnTiles(x + 1, y, z, Steps) else [])
      + (if x < Pow2(z) - 2 then ColumnTiles(x + 2, y, z, Steps) else [])
      + (if x < Pow2(z) - 3 then ColumnTiles(x + 3, y, z, Steps) else [])
  {
    BlockFive(x, y, z, Steps);
    Reassociate(BlockColumn(x, y, z, 0), BlockColumn(x, y, z, -1), BlockColumn(x, y, z, 1),
                BlockColumn(x, y, z, 2), BlockColumn(x, y, z, 3));
  }

  /** The column `d` steps from `x`, if the guard admits it. */
  function BlockColumn(x: int, y: int, z: nat, d: int): seq<Tile>
  {
    if Admits(x, d, Pow2(z)) then ColumnTiles(x + d, y, z, Steps) else []
  }

  /** Five column steps, one after another. */
  lemma BlockFive(x: int, y: int, z: nat, ds: seq<int>)
    requires |ds| == 5
    ensures BlockTiles(x, y, z, ds) ==
      BlockColumn(x, y, z, ds[0]) + (BlockColumn(x, y, z, ds[1]) + (BlockColumn(x, y, z, ds[2]) +
      (BlockColumn(x, y, z, ds[3]) + BlockColumn(x, y, z, ds[4]))))
  {
    assert BlockTiles(x, y, z, ds[4..]) == BlockColumn(x, y, z, ds[4]) + BlockTiles(x, y, z, ds[5..]);
    assert BlockTiles(x, y, z, ds[3..]) == BlockColumn(x, y, z, ds[3]) + BlockTiles(x, y, z, ds[4..]);
    assert BlockTiles(x, y, z, ds[2..]) == BlockColumn(x, y, z, ds[2]) + BlockTiles(x, y, z, ds[3..]);
    assert BlockTiles(x, y, z, ds[1..]) == BlockColumn(x, y, z, ds[1]) + BlockTiles(x, y, z, ds[2..]);
    assert BlockTiles(x, y, z, ds) == BlockColumn(x, y, z, ds[0]) + BlockTiles(x, y, z, ds[1..]);
    assert BlockColumn(x, y, z, ds[4]) + [] == BlockColumn(x, y, z, ds[4]);
  }

  lemma {:induction false} ColumnMembers(c: int, y: int, z: nat, ds: seq<int>, t: Tile)
    ensures t in ColumnTiles(c, y, z, ds) <==>
      t.x == c && t.zoom == z && (t.y - y) in ds && Admits(y, t.y - y, Pow2(z))
  {
    if ds != [] {
      ColumnMembers(c, y, z, ds[1..], t);
      assert ds == [ds[0]] + ds[1..];
    }
  }

  lemma {:induction false} BlockMembers(x: int, y: int, z: nat, ds: seq<int>, t: Tile)
    ensures t in BlockTiles(x, y, z, ds) <==>
      t.zoom == z && (t.x - x) in ds && Admits(x, t.x - x, Pow2(z))
      && (t.y - y) in Steps && Admits(y, t.y - y, Pow2(z))
  {
    if ds != [] {
      BlockMembers(x, y, z, ds[1..], t);
      ColumnMembers(x + ds[0], y, z, Steps, t);
      assert ds == [ds[0]] + ds[1..];
    }
  }

  /** Around an on-grid origin the window is exactly the on-grid tiles of its level in
      columns x-1..x+3 and rows y-1..y+3. */
  lemma NeighbourhoodMembers(x: int, y: int, z: nat, t: Tile)
    requires OnGrid(Tile(x, y, z))
    ensures t in Neighbourhood(x, y, z) <==>
      t.zoom == z && OnGrid(t) && x - 1 <= t.x <= x + 3 && y - 1 <= t.y <= y + 3
  {
    BlockMembers(x, y, z, Steps, t);
    WindowStep(x, Pow2(z), t.x);
    WindowStep(y, Pow2(z), t.y);
  }

  /** From an on-grid coordinate `c`, the steps and guards admit exactly the on-grid
      coordinates `c - 1 .. c + 3`. */
  lemma WindowStep(c: int, n: int, v: int)
    requires 0 <= c < n
    ensures (v - c) in Steps && Admits(c, v - c, n) <==> c - 1 <= v <= c + 3 && 0 <= v < n
  {
  }

  lemma {:induction false} ColumnNoDup(c: int, y: int, z: nat, ds: seq<int>)
    requires NoDup(ds)
    ensures NoDup(ColumnTiles(c, y, z, ds))
  {
    if ds != [] {
      assert NoDup(ds[1..]) by {
        forall i, j | 0 <= i < j < |ds[1..]| ensures ds[1..][i] != ds[1..][j] {
          assert ds[1..][i] == ds[i + 1] && ds[1..][j] == ds[j + 1];
        }
      }
      ColumnNoDup(c, y, z, ds[1..]);
      forall t | t in ColumnTiles(c, y, z, ds[1..])
        ensures t != Tile(c, y + ds[0], z)
      {
        ColumnMembers(c, y, z, ds[1..], t);
      }
      NoDupConcat(if Admits(y, ds[0], Pow2(z)) then [Tile(c, y + ds[0], z)] else [],
                  ColumnTiles(c, y, z, ds[1..]));
    }
  }

  lemma {:induction false} BlockNoDup(x: int, y: int, z: nat, ds: seq<int>)
    requires NoDup(ds)
    ensures NoDup(BlockTiles(x, y, z, ds))
  {
    if ds != [] {
      assert NoDup(ds[1..]) by {
        forall i, j | 0 <= i < j < |ds[1..]| ensures ds[1..][i] != ds[1..][j] {
          assert ds[1..][i] == ds[i + 1] && ds[1..][j] == ds[j + 1];
        }
      }
      BlockNoDup(x, y, z, ds[1..]);
      ColumnNoDup(x + ds[0], y, z, Steps);
      var head := if Admits(x, ds[0], Pow2(z)) then ColumnTiles(x + ds[0], y, z, Steps) else [];
      forall t | t in head
        ensures t !in BlockTiles(x, y, z, ds[1..])
      {
        ColumnMembers(x + ds[0], y, z, Steps, t);
        BlockMembers(x, y, z, ds[1..], t);
      }
      NoDupConcat(head, BlockTiles(x, y, z, ds[1..]));
    }
  }

  /** No tile appears twice in a window, wherever its origin is. */
  lemma NeighbourhoodNoDup(x: int, y: int, z: nat)
    ensures NoDup(Neighbourhood(x, y, z))
  {
    BlockNoDup(x, y, z, Steps);
  }

  lemma {:induction false} ColumnFull(c: int, y: int, z: nat, ds: seq<int>)
    requires forall d :: d in ds ==> Admits(y, d, Pow2(z))
    ensures |ColumnTiles(c, y, z, ds)| == |ds|
  {
    if ds != [] {
      ColumnFull(c, y, z, ds[1..]);
    }
  }

  lemma {:induction false} BlockFull(x: int, y: int, z: nat, ds: seq<int>)
    requires forall d :: d in ds ==> Admits(x, d, Pow2(z))
    requires forall d :: d in Steps ==> Admits(y, d, Pow2(z))
    ensures |BlockTiles(x, y, z, ds)| == 5 * |ds|
  {
    if ds != [] {
      BlockFull(x, y, z, ds[1..]);
      ColumnFull(x + ds[0], y, z, Steps);
    }
  }

  /** Away from the right and bottom edges (and not in the first row or column) the window
      holds all 25 tiles. */
  lemma InteriorNeighbourhoodSize(x: int, y: int, z: nat)
    requires 1 <= x <= Pow2(z) - 4 && 1 <= y <= Pow2(z) - 4
    ensures |Neighbourhood(x, y, z)| == 25
  {
    BlockFull(x, y, z, Steps);
  }

  /** The sizes the front-end's tests ask about: 4 tiles at (1, 1, 1); at (5, 7, 5) the
      code yields 25 tiles (the test file expects 20). */
  lemma NeighbourhoodTestSizes()
    ensures |Neighbourhood(1, 1, 1)| == 4
    ensures |Neighbourhood(5, 7, 5)| == 25
  {
    assert Pow2(1) == 2;
    assert Pow2(5) == 32;
    InteriorNeighbourhoodSize(5, 7, 5);
    assert Steps[1..][1..][1..][1..][1..] == [];
  }

  // ---------------------------------------------------------------------------------
  // Subdivision at the next zoom level

  /** Child k (0..3) of a tile at level z, in the order the source pushes them: top-left,
      top-right, bottom-left, bottom-right. The children get level z + 1 whatever level the
      tile itself carries. */
  function Child(t: Tile, k: int, z: nat): Tile
  {
    Tile(2 * t.x + k % 2, 2 * t.y + k / 2, z + 1)
  }

  function Parent(t: Tile): Tile
    requires t.zoom > 0
  {
    Tile(t.x / 2, t.y / 2, t.zoom - 1)
  }

  /** The four children of every tile in order, or nothing past the deepest level. */
  function Children(tiles: seq<Tile>, z: nat, maxZoom: nat): (r: seq<Tile>)
    ensures |r| == if z + 1 <= maxZoom then 4 * |tiles| else 0
    ensures z + 1 <= maxZoom ==>
      forall i, k :: 0 <= i < |tiles| && 0 <= k < 4 ==> r[4 * i + k] == Child(tiles[i], k, z)
  {
    if z + 1 > maxZoom || tiles == [] then []
    else
      [Child(tiles[0], 0, z), Child(tiles[0], 1, z), Child(tiles[0], 2, z), Child(tiles[0], 3, z)]
      + Children(tiles[1..], z, maxZoom)
  }

  /** Splits every tile into its four children at the next level
      (`getTilesFromNextZoomLevel`, `get_tiles_from_next_zoom_level`). */
  method GetTilesFromNextZoomLevel(tiles: seq<Tile>, zoom: nat, maxZoom: nat) returns (next: seq<Tile>)
    ensures next == Children(tiles, zoom, maxZoom)
  {
    next := [];
    if zoom + 1 <= maxZoom {
      for i := 0 to |tiles|
        invariant |next| == 4 * i
        invariant forall j, k :: 0 <= j < i && 0 <= k < 4 ==> next[4 * j + k] == Child(tiles[j], k, zoom)
      {
        var nx := tiles[i].x * 2;
        var ny := tiles[i].y * 2;
        next := next + [Tile(nx, ny, zoom + 1)];
        next := next + [Tile(nx + 1, ny, zoom + 1)];
        next := next + [Tile(nx, ny + 1, zoom + 1)];
        next := next + [Tile(nx + 1, ny + 1, zoom + 1)];
      }
      ghost var want := Children(tiles, zoom, maxZoom);
      forall p | 0 <= p < |next|
        ensures next[p] == want[p]
      {
        var j, k := p / 4, p % 4;
        assert p == 4 * j + k && j < |tiles|;
        assert next[4 * j + k] == Child(tiles[j], k, zoom);
        assert want[4 * j + k] == Child(tiles[j], k, zoom);
      }
    }
  }

  lemma ParentOfChild(t: Tile, k: int, z: nat)
    requires 0 <= k < 4
    ensures Parent(Child(t, k, z)) == Tile(t.x, t.y, z)
  {
  }

  /** Every tile of a level above 0 is the child of its parent picked by the parities of
      its coordinates. */
  lemma ChildOfParent(t: Tile)
    requires t.zoom > 0
    ensures Child(Parent(t), t.x % 2 + 2 * (t.y % 2), t.zoom - 1) == t
  {
  }

  /** A tile is among the children of a list of level-z tiles exactly when it is at level
      z + 1 and its parent is in the list. */
  lemma ChildrenMembers(tiles: seq<Tile>, z: nat, maxZoom: nat, t: Tile)
    requires z + 1 <= maxZoom
    requires forall u :: u in tiles ==> u.zoom == z
    ensures t in Children(tiles, z, maxZoom) <==> t.zoom == z + 1 && Parent(t) in tiles
  {
    if t in Children(tiles, z, maxZoom) {
      ChildHasParent(tiles, z, maxZoom, t);
    }
    if t.zoom == z + 1 && Parent(t) in tiles {
      ParentHasChild(tiles, z, maxZoom, t);
    }
  }

  lemma ChildHasParent(tiles: seq<Tile>, z: nat, maxZoom: nat, t: Tile)
    requires z + 1 <= maxZoom && t in Children(tiles, z, maxZoom)
    requires forall u :: u in tiles ==> u.zoom == z
    ensures t.zoom == z + 1 && Parent(t) in tiles
  {
    var r := Children(tiles, z, maxZoom);
    var p :| 0 <= p < |r| && r[p] == t;
    var i, k := p / 4, p % 4;
    assert r[4 * i + k] == Child(tiles[i], k, z);
    ParentOfChild(tiles[i], k, z);
  }

  lemma ParentHasChild(tiles: seq<Tile>, z: nat, maxZoom: nat, t: Tile)
    requires z + 1 <= maxZoom && t.zoom == z + 1 && Parent(t) in tiles
    ensures t in Children(tiles, z, maxZoom)
  {
    var r := Children(tiles, z, maxZoom);
    var i :| 0 <= i < |tiles| && tiles[i] == Parent(t);
    var k := t.x % 2 + 2 * (t.y % 2);
    ChildOfParent(t);
    assert r[4 * i + k] == t;
  }

  /** Children of on-grid tiles are on the grid of the next level. */
  lemma ChildrenOnGrid(tiles: seq<Tile>, z: nat, maxZoom: nat)
    requires forall u :: u in tiles ==> u.zoom == z && OnGrid(u)
    ensures forall t :: t in Children(tiles, z, maxZoom) ==> t.zoom == z + 1 && OnGrid(t)
  {
    if z + 1 <= maxZoom {
      forall t | t in Children(tiles, z, maxZoom)
        ensures t.zoom == z + 1 && OnGrid(t)
      {
        ChildrenMembers(tiles, z, maxZoom, t);
        assert Pow2(z + 1) == 2 * Pow2(z);
      }
    }
  }

  /** Distinct tiles of one level have distinct children. */
  lemma ChildrenNoDup(tiles: seq<Tile>, z: nat, maxZoom: nat)
    requires NoDup(tiles)
    requires forall u :: u in tiles ==> u.zoom == z
    ensures NoDup(Children(tiles, z, maxZoom))
  {
    var r := Children(tiles, z, maxZoom);
    if z + 1 <= maxZoom {
      forall p, q | 0 <= p < q < |r|
        ensures r[p] != r[q]
      {
        var i, k := p / 4, p % 4;
        var j, l := q / 4, q % 4;
        assert r[p] == Child(tiles[i], k, z) by {
          assert p == 4 * i + k;
        }
        assert r[q] == Child(tiles[j], l, z) by {
          assert q == 4 * j + l;
        }
        ParentOfChild(tiles[i], k, z);
        ParentOfChild(tiles[j], l, z);
        assert tiles[i] in tiles && tiles[j] in tiles;
      }
    }
  }

  // ---------------------------------------------------------------------------------
  // The border ring at the next zoom level

  /** Column `cx` of the next level: rows 2(y+i) and 2(y+i)+1 for each i in [-1, hi) whose
      row y+i lies on the current grid. */
  function ColumnPairs(cx: int, y: int, z: nat, hi: int): seq<Tile>
    decreases hi + 1
  {
    if hi <= -1 then []
    else
      ColumnPairs(cx, y, z, hi - 1)
      + (if 0 <= y + hi - 1 < Pow2(z)
         then [Tile(cx, (y + hi - 1) * 2, z + 1), Tile(cx, (y + hi - 1) * 2 + 1, z + 1)]
         else [])
  }

  /** Row `ry` of the next level: columns 2(x+i) and 2(x+i)+1 for each i in [-1, hi) whose
      column x+i lies on the current grid. */
  function RowPairs(ry: int, x: int, z: nat, hi: int): seq<Tile>
    decreases hi + 1
  {
    if hi <= -1 then []
    else
      RowPairs(ry, x, z, hi - 1)
      + (if 0 <= x + hi - 1 < Pow2(z)
         then [Tile((x + hi - 1) * 2, ry, z + 1), Tile((x + hi - 1) * 2 + 1, ry, z + 1)]
         else [])
  }

  /** One side column of the ring with its two corner tiles. */
  function SideColumn(cx: int, y: int, z: nat): seq<Tile>
  {
    ColumnPairs(cx, y, z, 4)
    + Corner(y > 1, Tile(cx, (y - 2) * 2 + 1, z + 1))
    + Corner(y + 4 < Pow2(z), Tile(cx, (y + 4) * 2, z + 1))
  }

  /** A side of the ring, kept when its guard holds. */
  function When(present: bool, side: seq<Tile>): seq<Tile>
  {
    if present then side else []
  }

  /** The corner tile `t` of a side column, when its guard holds. */
  function Corner(present: bool, t: Tile): seq<Tile>
  {
    if present then [t] else []
  }

  /** The one-tile frame around the subdivided window at level z + 1: the column left of
      it, the column right of it (both with corners), the row above it and, when
      y + bottomReach < 2^z, the row below it. */
  function Ring(x: int, y: int, z: nat, maxZoom: nat, bottomReach: int): seq<Tile>
  {
    if z + 1 > maxZoom then []
    else
      When(x > 1, SideColumn((x - 2) * 2 + 1, y, z))
      + When(x + 4 < Pow2(z), SideColumn((x + 4) * 2, y, z))
      + When(y > 1, RowPairs((y - 2) * 2 + 1, x, z, 4))
      + When(y + bottomReach < Pow2(z), RowPairs((y + 4) * 2, x, z, 4))
  }

  method PushSideColumn(tiles: seq<Tile>, cx: int, y: int, z: nat) returns (r: seq<Tile>)
    ensures r == tiles + SideColumn(cx, y, z)
  {
    var n: int := Pow2(z);
    r := tiles;
    for i := -1 to 4
      invariant r == tiles + ColumnPairs(cx, y, z, i)
    {
      if y + i >= 0 && y + i < n {
        r := r + [Tile(cx, (y + i) * 2, z + 1)];
        r := r + [Tile(cx, (y + i) * 2 + 1, z + 1)];
      }
    }
    ghost var pairs := r;
    if y > 1 {
      r := r + [Tile(cx, (y - 2) * 2 + 1, z + 1)];
    }
    assert r == pairs + Corner(y > 1, Tile(cx, (y - 2) * 2 + 1, z + 1));
    ghost var upper := r;
    if y + 4 < n {
      r := r + [Tile(cx, (y + 4) * 2, z + 1)];
    }
    assert r == upper + Corner(y + 4 < n, Tile(cx, (y + 4) * 2, z + 1));
  }

  method PushRow(tiles: seq<Tile>, ry: int, x: int, z: nat) returns (r: seq<Tile>)
    ensures r == tiles + RowPairs(ry, x, z, 4)
  {
    var n: int := Pow2(z);
    r := tiles;
    for i := -1 to 4
      invariant r == tiles + RowPairs(ry, x, z, i)
    {
      if x + i >= 0 && x + i < n {
        r := r + [Tile((x + i) * 2, ry, z + 1)];
        r := r + [Tile((x + i) * 2 + 1, ry, z + 1)];
      }
    }
  }

  /** The border ring with the bottom row's guard as a parameter. */
  method CollectBorder(tileX: int, tileY: int, zoom: nat, maxZoom: nat, bottomReach: int)
    returns (tiles: seq<Tile>)
    ensures tiles == Ring(tileX, tileY, zoom, maxZoom, bottomReach)
  {
    tiles := [];
    if zoom + 1 <= maxZoom {
      var n: int := Pow2(zoom);
      tiles := PushSideColumnIf(tiles, tileX > 1, (tileX - 2) * 2 + 1, tileY, zoom);
      tiles := PushSideColumnIf(tiles, tileX + 4 < n, (tileX + 4) * 2, tileY, zoom);
      tiles := PushRowIf(tiles, tileY > 1, (tileY - 2) * 2 + 1, tileX, zoom);
      tiles := PushRowIf(tiles, tileY + bottomReach < n, (tileY + 4) * 2, tileX, zoom);
      assert [] + When(tileX > 1, SideColumn((tileX - 2) * 2 + 1, tileY, zoom))
        == When(tileX > 1, SideColumn((tileX - 2) * 2 + 1, tileY, zoom));
    }
  }

  /** One guarded side of the border: pushed only when the source's guard holds. */
  method PushSideColumnIf(tiles: seq<Tile>, present: bool, cx: int, y: int, z: nat) returns (r: seq<Tile>)
    ensures r == tiles + When(present, SideColumn(cx, y, z))
  {
    r := tiles;
    if present {
      r := PushSideColumn(tiles, cx, y, z);
    } else {
      assert tiles + [] == tiles;
    }
  }

  method PushRowIf(tiles: seq<Tile>, present: bool, ry: int, x: int, z: nat) returns (r: seq<Tile>)
    ensures r == tiles + When(present, RowPairs(ry, x, z, 4))
  {
    r := tiles;
    if present {
      r := PushRow(tiles, ry, x, z);
    } else {
      assert tiles + [] == tiles;
    }
  }

  /** The border ring as the source writes it (`getTilesFromNextZoomLevelAtBorder`,
      `get_tiles_from_next_zoom_level_at_border`): the row below is guarded by
      tileY + 3 < 2^zoom. */
  method GetTilesFromNextZoomLevelAtBorder(tileX: int, tileY: int, zoom: nat, maxZoom: nat)
    returns (tiles: seq<Tile>)
    ensures tiles == Ring(tileX, tileY, zoom, maxZoom, 3)
  {
    tiles := CollectBorder(tileX, tileY, zoom, maxZoom, 3);
  }

  /** The border ring with the row below guarded by tileY + 4 < 2^zoom, the guard the
      source itself uses for the corner tiles of that row. */
  method GetTilesAtBorder(tileX: int, tileY: int, zoom: nat, maxZoom: nat)
    returns (tiles: seq<Tile>)
    ensures tiles == Ring(tileX, tileY, zoom, maxZoom, 4)
  {
    tiles := CollectBorder(tileX, tileY, zoom, maxZoom, 4);
  }

  lemma {:induction false} ColumnPairsShape(cx: int, y: int, z: nat, hi: int)
    ensures forall t :: t in ColumnPairs(cx, y, z, hi) ==>
      t.x == cx && t.zoom == z + 1 && y - 1 <= t.y / 2 < y + hi && 0 <= t.y / 2 < Pow2(z)
    ensures forall i, j :: 0 <= i < j < |ColumnPairs(cx, y, z, hi)| ==>
      ColumnPairs(cx, y, z, hi)[i].y < ColumnPairs(cx, y, z, hi)[j].y
    decreases hi + 1
  {
    if hi > -1 {
      ColumnPairsShape(cx, y, z, hi - 1);
    }
  }

  lemma {:induction false} RowPairsShape(ry: int, x: int, z: nat, hi: int)
    ensures forall t :: t in RowPairs(ry, x, z, hi) ==>
      t.y == ry && t.zoom == z + 1 && x - 1 <= t.x / 2 < x + hi && 0 <= t.x / 2 < Pow2(z)
    ensures forall i, j :: 0 <= i < j < |RowPairs(ry, x, z, hi)| ==>
      RowPairs(ry, x, z, hi)[i].x < RowPairs(ry, x, z, hi)[j].x
    decreases hi + 1
  {
    if hi > -1 {
      RowPairsShape(ry, x, z, hi - 1);
    }
  }

  lemma {:induction false} ColumnPairsFull(cx: int, y: int, z: nat, hi: int)
    requires -1 <= hi <= 4 && 1 <= y && y + 3 < Pow2(z)
    ensures |ColumnPairs(cx, y, z, hi)| == 2 * (hi + 1)
    decreases hi + 1
  {
    if hi > -1 {
      ColumnPairsFull(cx, y, z, hi - 1);
    }
  }

  lemma {:induction false} RowPairsFull(ry: int, x: int, z: nat, hi: int)
    requires -1 <= hi <= 4 && 1 <= x && x + 3 < Pow2(z)
    ensures |RowPairs(ry, x, z, hi)| == 2 * (hi + 1)
    decreases hi + 1
  {
    if hi > -1 {
      RowPairsFull(ry, x, z, hi - 1);
    }
  }

  lemma HalfBound(v: int, n: int)
    requires 0 <= v / 2 < n
    ensures 0 <= v < 2 * n
  {
  }

  lemma SideColumnShape(cx: int, y: int, z: nat)
    ensures forall t :: t in SideColumn(cx, y, z) ==>
      t.x == cx && t.zoom == z + 1 && y - 2 <= t.y / 2 <= y + 4
  {
    ColumnPairsShape(cx, y, z, 4);
  }

  lemma SideColumnNoDup(cx: int, y: int, z: nat)
    ensures NoDup(SideColumn(cx, y, z))
  {
    var pairs := ColumnPairs(cx, y, z, 4);
    var upper := Corner(y > 1, Tile(cx, (y - 2) * 2 + 1, z + 1));
    var lower := Corner(y + 4 < Pow2(z), Tile(cx, (y + 4) * 2, z + 1));
    assert NoDup(pairs) && forall t :: t in pairs ==> y - 1 <= t.y / 2 < y + 4 by {
      ColumnPairsShape(cx, y, z, 4);
    }
    NoDupConcat(pairs, upper);
    NoDupConcat(pairs + upper, lower);
  }

  predicate AllOnGrid(tiles: seq<Tile>)
  {
    forall t :: t in tiles ==> OnGrid(t)
  }

  lemma WhenOnGrid(present: bool, side: seq<Tile>)
    requires present ==> AllOnGrid(side)
    ensures AllOnGrid(When(present, side))
  {
  }

  lemma JoinOnGrid(a: seq<Tile>, b: seq<Tile>, c: seq<Tile>, d: seq<Tile>)
    requires AllOnGrid(a) && AllOnGrid(b) && AllOnGrid(c) && AllOnGrid(d)
    ensures AllOnGrid(a + b + c + d)
  {
  }

  lemma SideColumnOnGrid(cx: int, y: int, z: nat)
    requires 0 <= cx < 2 * Pow2(z) && 0 <= y < Pow2(z)
    ensures AllOnGrid(SideColumn(cx, y, z))
  {
    var n := Pow2(z);
    var pairs := ColumnPairs(cx, y, z, 4);
    var upper := Corner(y > 1, Tile(cx, (y - 2) * 2 + 1, z + 1));
    var lower := Corner(y + 4 < n, Tile(cx, (y + 4) * 2, z + 1));
    assert Pow2(z + 1) == 2 * n;
    forall t | t in pairs
      ensures OnGrid(t)
    {
      ColumnPairsShape(cx, y, z, 4);
      HalfBound(t.y, n);
    }
  }

  lemma RowOnGrid(ry: int, x: int, z: nat)
    requires 0 <= ry < 2 * Pow2(z)
    ensures AllOnGrid(RowPairs(ry, x, z, 4))
  {
    RowFacts(ry, x, z);
    assert Pow2(z + 1) == 2 * Pow2(z);
  }

  lemma RowFacts(ry: int, x: int, z: nat)
    ensures forall t :: t in RowPairs(ry, x, z, 4) ==>
      t.y == ry && t.zoom == z + 1 && x - 1 <= t.x / 2 <= x + 3 && 0 <= t.x < 2 * Pow2(z)
    ensures NoDup(RowPairs(ry, x, z, 4))
  {
    RowPairsShape(ry, x, z, 4);
  }

  /** Every tile of the ring is one step outside the subdivided window: its parent is two
      columns left, four right, two rows up or four down of the origin. */
  lemma RingShape(x: int, y: int, z: nat, maxZoom: nat, bottomReach: int)
    ensures forall t :: t in Ring(x, y, z, maxZoom, bottomReach) ==>
      t.zoom == z + 1 && z + 1 <= maxZoom &&
      (t.x / 2 == x - 2 || t.x / 2 == x + 4 || t.y / 2 == y - 2 || t.y / 2 == y + 4)
  {
    if z + 1 <= maxZoom {
      SideColumnShape((x - 2) * 2 + 1, y, z);
      SideColumnShape((x + 4) * 2, y, z);
      RowFacts((y - 2) * 2 + 1, x, z);
      RowFacts((y + 4) * 2, x, z);
    }
  }

  /** The ring has no repeated tile: its four sides lie in different columns or rows of
      parents. */
  lemma RingNoDup(x: int, y: int, z: nat, maxZoom: nat, bottomReach: int)
    ensures NoDup(Ring(x, y, z, maxZoom, bottomReach))
  {
    if z + 1 <= maxZoom {
      var n := Pow2(z);
      SideColumnPart(x > 1, (x - 2) * 2 + 1, y, z);
      SideColumnPart(x + 4 < n, (x + 4) * 2, y, z);
      RowPart(y > 1, (y - 2) * 2 + 1, x, z);
      RowPart(y + bottomReach < n, (y + 4) * 2, x, z);
      FrameNoDup(When(x > 1, SideColumn((x - 2) * 2 + 1, y, z)), When(x + 4 < n, SideColumn((x + 4) * 2, y, z)),
        When(y > 1, RowPairs((y - 2) * 2 + 1, x, z, 4)), When(y + bottomReach < n, RowPairs((y + 4) * 2, x, z, 4)),
        x, (x - 2) * 2 + 1, (x + 4) * 2, (y - 2) * 2 + 1, (y + 4) * 2);
    }
  }

  lemma SideColumnPart(present: bool, cx: int, y: int, z: nat)
    ensures NoDup(When(present, SideColumn(cx, y, z)))
    ensures forall t :: t in When(present, SideColumn(cx, y, z)) ==> t.x == cx
  {
    if present {
      SideColumnShape(cx, y, z);
      SideColumnNoDup(cx, y, z);
    }
  }

  lemma RowPart(present: bool, ry: int, x: int, z: nat)
    ensures NoDup(When(present, RowPairs(ry, x, z, 4)))
    ensures forall t :: t in When(present, RowPairs(ry, x, z, 4)) ==>
      t.y == ry && x - 1 <= t.x / 2 <= x + 3
  {
    if present {
      RowFacts(ry, x, z);
    }
  }

  /** Four sides of a frame, told apart by their column or row and by the columns of the
      parents the rows span, join without repeats. */
  lemma FrameNoDup(left: seq<Tile>, right: seq<Tile>, top: seq<Tile>, bottom: seq<Tile>,
                   x: int, lx: int, rx: int, ty: int, bottomY: int)
    requires lx / 2 == x - 2 && rx / 2 == x + 4 && ty != bottomY
    requires NoDup(left) && forall t :: t in left ==> t.x == lx
    requires NoDup(right) && forall t :: t in right ==> t.x == rx
    requires NoDup(top) && forall t :: t in top ==> t.y == ty && x - 1 <= t.x / 2 <= x + 3
    requires NoDup(bottom) && forall t :: t in bottom ==> t.y == bottomY && x - 1 <= t.x / 2 <= x + 3
    ensures NoDup(left + right + top + bottom)
  {
    NoDupConcat(left, right);
    NoDupConcat(left + right, top);
    assert forall t: Tile :: t in left + right + top ==> t.x == lx || t.x == rx || t.y == ty;
    NoDupConcat(left + right + top, bottom);
  }

  /** Around an on-grid origin, with the corrected bottom guard, the ring stays on the grid. */
  lemma RingOnGrid(x: int, y: int, z: nat, maxZoom: nat, bottomReach: int)
    requires OnGrid(Tile(x, y, z)) && bottomReach >= 4
    ensures AllOnGrid(Ring(x, y, z, maxZoom, bottomReach))
  {
    if z + 1 <= maxZoom {
      var n := Pow2(z);
      LeftOnGrid(x, y, z);
      RightOnGrid(x, y, z);
      TopOnGrid(x, y, z);
      BottomOnGrid(x, y, z, bottomReach);
      JoinOnGrid(When(x > 1, SideColumn((x - 2) * 2 + 1, y, z)), When(x + 4 < n, SideColumn((x + 4) * 2, y, z)),
        When(y > 1, RowPairs((y - 2) * 2 + 1, x, z, 4)), When(y + bottomReach < n, RowPairs((y + 4) * 2, x, z, 4)));
    }
  }

  lemma LeftOnGrid(x: int, y: int, z: nat)
    requires OnGrid(Tile(x, y, z))
    ensures AllOnGrid(When(x > 1, SideColumn((x - 2) * 2 + 1, y, z)))
  {
    if x > 1 {
      SideColumnOnGrid((x - 2) * 2 + 1, y, z);
    }
    WhenOnGrid(x > 1, SideColumn((x - 2) * 2 + 1, y, z));
  }

  lemma RightOnGrid(x: int, y: int, z: nat)
    requires OnGrid(Tile(x, y, z))
    ensures AllOnGrid(When(x + 4 < Pow2(z), SideColumn((x + 4) * 2, y, z)))
  {
    if x + 4 < Pow2(z) {
      SideColumnOnGrid((x + 4) * 2, y, z);
    }
    WhenOnGrid(x + 4 < Pow2(z), SideColumn((x + 4) * 2, y, z));
  }

  lemma TopOnGrid(x: int, y: int, z: nat)
    requires OnGrid(Tile(x, y, z))
    ensures AllOnGrid(When(y > 1, RowPairs((y - 2) * 2 + 1, x, z, 4)))
  {
    if y > 1 {
      RowOnGrid((y - 2) * 2 + 1, x, z);
    }
    WhenOnGrid(y > 1, RowPairs((y - 2) * 2 + 1, x, z, 4));
  }

  lemma BottomOnGrid(x: int, y: int, z: nat, bottomReach: int)
    requires OnGrid(Tile(x, y, z)) && bottomReach >= 4
    ensures AllOnGrid(When(y + bottomReach < Pow2(z), RowPairs((y + 4) * 2, x, z, 4)))
  {
    if y + bottomReach < Pow2(z) {
      RowOnGrid((y + 4) * 2, x, z);
    }
    WhenOnGrid(y + bottomReach < Pow2(z), RowPairs((y + 4) * 2, x, z, 4));
  }

  /** No tile of `tiles` has a negative column or row, so none has a negative number. */
  predicate AllNatural(tiles: seq<Tile>)
  {
    forall t :: t in tiles ==> t.x >= 0 && t.y >= 0
  }

  /** The children of tiles without negative coordinates have none either. */
  lemma ChildrenNatural(tiles: seq<Tile>, z: nat, maxZoom: nat)
    requires AllNatural(tiles)
    ensures AllNatural(Children(tiles, z, maxZoom))
  {
    var r := Children(tiles, z, maxZoom);
    forall t | t in r
      ensures t.x >= 0 && t.y >= 0
    {
      var k :| 0 <= k < |r| && r[k] == t;
      assert 4 * (k / 4) + k % 4 == k;
      assert r[4 * (k / 4) + k % 4] == Child(tiles[k / 4], k % 4, z);
      assert tiles[k / 4] in tiles;
    }
  }

  /** Whichever bottom guard it uses, the ring around an on-grid origin has no negative
      coordinate: only its bottom row can leave the grid, and only past the last row. */
  lemma RingNatural(x: int, y: int, z: nat, maxZoom: nat, bottomReach: int)
    requires OnGrid(Tile(x, y, z))
    ensures AllNatural(Ring(x, y, z, maxZoom, bottomReach))
  {
    if z + 1 <= maxZoom {
      var n := Pow2(z);
      var left := When(x > 1, SideColumn((x - 2) * 2 + 1, y, z));
      var right := When(x + 4 < n, SideColumn((x + 4) * 2, y, z));
      var top := When(y > 1, RowPairs((y - 2) * 2 + 1, x, z, 4));
      var bottom := When(y + bottomReach < n, RowPairs((y + 4) * 2, x, z, 4));
      LeftOnGrid(x, y, z);
      RightOnGrid(x, y, z);
      TopOnGrid(x, y, z);
      BottomNatural(x, y, z, bottomReach);
      assert Ring(x, y, z, maxZoom, bottomReach) == left + right + top + bottom;
    }
  }

  lemma BottomNatural(x: int, y: int, z: nat, bottomReach: int)
    requires OnGrid(Tile(x, y, z))
    ensures AllNatural(When(y + bottomReach < Pow2(z), RowPairs((y + 4) * 2, x, z, 4)))
  {
    RowFacts((y + 4) * 2, x, z);
  }

  /** As written, when the window reaches the grid's last row, the ring's bottom row is
      kept, and its first tile lies one row past the edge of level z + 1. */
  lemma BottomRowOffGrid(x: int, y: int, z: nat, maxZoom: nat)
    requires OnGrid(Tile(x, y, z)) && y + 4 == Pow2(z) && z + 1 <= maxZoom
    ensures Tile(2 * x, (y + 4) * 2, z + 1) in Ring(x, y, z, maxZoom, 3)
    ensures !OnGrid(Tile(2 * x, (y + 4) * 2, z + 1))
  {
    var n := Pow2(z);
    var ry := (y + 4) * 2;
    var t := Tile(2 * x, ry, z + 1);
    assert Pow2(z + 1) == 2 * n;
    FirstRowPair(ry, x, z);
    RowPairsPrefix(ry, x, z, 1, 4);
    var bottom := RowPairs(ry, x, z, 4);
    assert t in bottom;
    var left := When(x > 1, SideColumn((x - 2) * 2 + 1, y, z));
    var right := When(x + 4 < n, SideColumn((x + 4) * 2, y, z));
    var top := When(y > 1, RowPairs((y - 2) * 2 + 1, x, z, 4));
    assert Ring(x, y, z, maxZoom, 3) == left + right + top + bottom;
  }

  lemma FirstRowPair(ry: int, x: int, z: nat)
    requires 0 <= x < Pow2(z)
    ensures Tile(2 * x, ry, z + 1) in RowPairs(ry, x, z, 1)
  {
    assert RowPairs(ry, x, z, 1) == RowPairs(ry, x, z, 0) + [Tile(2 * x, ry, z + 1), Tile(2 * x + 1, ry, z + 1)];
  }

  /** The ring never repeats a child of the window. */
  lemma RingAvoidsChildren(x: int, y: int, z: nat, maxZoom: nat, bottomReach: int)
    requires OnGrid(Tile(x, y, z))
    ensures forall t :: t in Ring(x, y, z, maxZoom, bottomReach) ==>
      t !in Children(Neighbourhood(x, y, z), z, maxZoom)
  {
    RingShape(x, y, z, maxZoom, bottomReach);
    var window := Neighbourhood(x, y, z);
    forall u | u in window
      ensures u.zoom == z
    {
      NeighbourhoodMembers(x, y, z, u);
    }
    forall t | t in Ring(x, y, z, maxZoom, bottomReach)
      ensures t !in Children(window, z, maxZoom)
    {
      ChildrenMembers(window, z, maxZoom, t);
      NeighbourhoodMembers(x, y, z, Parent(t));
    }
  }

  /** Away from every edge the ring has 2 * 12 column tiles and 2 * 10 row tiles. */
  lemma RingSize(x: int, y: int, z: nat, maxZoom: nat, bottomReach: int)
    requires 2 <= x && x + 4 < Pow2(z) && 2 <= y && y + 4 < Pow2(z)
    requires z + 1 <= maxZoom && bottomReach <= 4
    ensures |Ring(x, y, z, maxZoom, bottomReach)| == 44
  {
    ColumnPairsFull((x - 2) * 2 + 1, y, z, 4);
    ColumnPairsFull((x + 4) * 2, y, z, 4);
    RowPairsFull((y - 2) * 2 + 1, x, z, 4);
    RowPairsFull((y + 4) * 2, x, z, 4);
  }

  /** The two guards differ only when the origin is four rows above the bottom edge. */
  lemma RingGuardsAgree(x: int, y: int, z: nat, maxZoom: nat)
    requires y + 4 != Pow2(z)
    ensures Ring(x, y, z, maxZoom, 3) == Ring(x, y, z, maxZoom, 4)
  {
  }

  /** As written, the ring around (0, 0) at level 2 contains (0, 8) at level 3, below the
      8-row grid, and that tile's number is the number of (1, 0), a child of the origin. */
  lemma BorderLeavesGrid()
    ensures Tile(0, 8, 3) in Ring(0, 0, 2, 3, 3)
    ensures !OnGrid(Tile(0, 8, 3))
    ensures IndexOf(Tile(0, 8, 3)) == IndexOf(Tile(1, 0, 3))
    ensures OnGrid(Tile(1, 0, 3)) && Tile(1, 0, 3) in Children(Neighbourhood(0, 0, 2), 2, 3)
  {
    assert Pow2(2) == 4 && Pow2(3) == 8;
    assert Offset(3) == 21;
    CornerBottomRow();
    CornerChild();
  }

  /** At the top-left corner of level 2 only the bottom row of the ring is present. */
  lemma CornerBottomRow()
    ensures Tile(0, 8, 3) in Ring(0, 0, 2, 3, 3)
  {
    assert Pow2(2) == 4;
    assert RowPairs(8, 0, 2, -1) == [];
    assert RowPairs(8, 0, 2, 0) == [];
    assert RowPairs(8, 0, 2, 1) == [Tile(0, 8, 3), Tile(1, 8, 3)];
    assert RowPairs(8, 0, 2, 1) <= RowPairs(8, 0, 2, 4) by {
      RowPairsPrefix(8, 0, 2, 1, 4);
    }
    assert Ring(0, 0, 2, 3, 3) == RowPairs(8, 0, 2, 4);
  }

  lemma CornerChild()
    ensures Tile(1, 0, 3) in Children(Neighbourhood(0, 0, 2), 2, 3)
  {
    assert Pow2(2) == 4;
    var window := Neighbourhood(0, 0, 2);
    forall u | u in window
      ensures u.zoom == 2
    {
      NeighbourhoodMembers(0, 0, 2, u);
    }
    NeighbourhoodMembers(0, 0, 2, Tile(0, 0, 2));
    ChildrenMembers(window, 2, 3, Tile(1, 0, 3));
  }

  lemma {:induction false} RowPairsPrefix(ry: int, x: int, z: nat, lo: int, hi: int)
    requires -1 <= lo <= hi
    ensures RowPairs(ry, x, z, lo) <= RowPairs(ry, x, z, hi)
    decreases hi - lo
  {
    if lo < hi {
      RowPairsPrefix(ry, x, z, lo, hi - 1);
    }
  }
}
