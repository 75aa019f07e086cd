/** The zoom levels the server stores (`create_zoom_levels` and
    `get_previously_inserted_tile` in
    `backend/src/db_utilities/create_and_populate_clusters_collection.py`). A tile at
    zoom `z` gathers the `2^(m-z) x 2^(m-z)` base cells below it, where `m` is the finest
    zoom; a tile with few enough entities keeps all of them as representatives; every
    image is mapped to the first tile that shows it; and tiles of the previous level that
    were flushed to the database are fetched back in bounded batches. */
module ZoomLevels {
  import opened Seqs
  import opened Tiles
  import opened Tiling

  // ---------------------------------------------------------------------------------
  // The base cells of a tile

  /** Whether the base cell `(cx, cy)` lies under tile `(tx, ty)` of `zoom`. */
  predicate InBlock(maxZoom: nat, zoom: nat, tx: int, ty: int, cx: int, cy: int)
    requires zoom <= maxZoom
  {
    var side := Pow2(maxZoom - zoom);
    tx * side <= cx < tx * side + side && ty * side <= cy < ty * side + side
  }

  lemma Pow2Add(a: nat, b: nat)
    ensures Pow2(a + b) == Pow2(a) * Pow2(b)
  {
    if a > 0 {
      Pow2Add(a - 1, b);
    }
  }

  lemma MulDiv(k: int, side: int)
    requires side > 0
    ensures (k * side) / side == k
  {
    DivModUnique(side, k, 0, (k * side) / side, (k * side) % side);
  }

  lemma NextStart(k: int, side: int, count: int)
    requires side > 0 && k + 1 <= count
    ensures k * side + side <= count * side
  {
    MulLe(side, k + 1, count);
  }

  /** A cell under tile `t` of side `side` is under tile `t / 2` of side `2 * side`. */
  lemma HalfCovers(t: nat, side: nat, c: int)
    requires side > 0 && t * side <= c < t * side + side
    ensures (t / 2) * (2 * side) <= c < (t / 2) * (2 * side) + 2 * side
  {
    var h := t / 2;
    if t == 2 * h {
      assert t * side == h * (2 * side);
    } else {
      assert t == 2 * h + 1;
      assert t * side == h * (2 * side) + side;
    }
  }

  /** The loops over `range(0, 2^m, 2^(m-z))` visit `2^z` starts, the `k`-th of which is
      tile `k` and ends inside the grid. */
  lemma TileStarts(maxZoom: nat, zoom: nat, k: int)
    requires zoom <= maxZoom && 0 <= k < Pow2(zoom)
    ensures var side := Pow2(maxZoom - zoom);
      0 <= k * side && k * side + side <= Pow2(maxZoom) && (k * side) / side == k
  {
    var side := Pow2(maxZoom - zoom);
    Pow2Add(zoom, maxZoom - zoom);
    NextStart(k, side, Pow2(zoom));
    MulDiv(k, side);
  }

  /** Every base cell lies under exactly one tile of each zoom. */
  lemma OneOwner(maxZoom: nat, zoom: nat, cx: nat, cy: nat, tx: int, ty: int)
    requires zoom <= maxZoom
    ensures var side := Pow2(maxZoom - zoom);
      InBlock(maxZoom, zoom, cx / side, cy / side, cx, cy) &&
      (InBlock(maxZoom, zoom, tx, ty, cx, cy) ==> tx == cx / side && ty == cy / side)
  {
    var side := Pow2(maxZoom - zoom);
    if InBlock(maxZoom, zoom, tx, ty, cx, cy) {
      DivModUnique(side, tx, cx - tx * side, cx / side, cx % side);
      DivModUnique(side, ty, cy - ty * side, cy / side, cy % side);
    }
  }

  /** `prev_level = index // 2`: the tile of the previous zoom covers every base cell of
      the current one. */
  lemma ParentCovers(maxZoom: nat, zoom: nat, tx: nat, ty: nat, cx: int, cy: int)
    requires 0 < zoom <= maxZoom && InBlock(maxZoom, zoom, tx, ty, cx, cy)
    ensures InBlock(maxZoom, zoom - 1, tx / 2, ty / 2, cx, cy)
  {
    var side := Pow2(maxZoom - zoom);
    assert Pow2(maxZoom - (zoom - 1)) == 2 * side;
    HalfCovers(tx, side, cx);
    HalfCovers(ty, side, cy);
  }

  /** The cells `col[y0 .. y0 + h)` joined. */
  function ColumnCells(col: seq<seq<Entity>>, y0: nat, h: nat): seq<Entity>
    requires y0 + h <= |col|
  {
    if h == 0 then [] else ColumnCells(col, y0, h - 1) + col[y0 + h - 1]
  }

  /** The entities of the `w x h` block of base cells from `(x0, y0)`, column by column. */
  function Block(tiling: Grid, x0: nat, y0: nat, w: nat, h: nat): seq<Entity>
    requires x0 + w <= |tiling| && forall x :: x0 <= x < x0 + w ==> y0 + h <= |tiling[x]|
  {
    if w == 0 then [] else Block(tiling, x0, y0, w - 1, h) + ColumnCells(tiling[x0 + w - 1], y0, h)
  }

  lemma {:induction false} ColumnCellsMembers(col: seq<seq<Entity>>, y0: nat, h: nat, e: Entity)
    requires y0 + h <= |col|
    ensures e in ColumnCells(col, y0, h) <==> exists y :: y0 <= y < y0 + h && e in col[y]
  {
    if h > 0 {
      ColumnCellsMembers(col, y0, h - 1, e);
    }
  }

  /** An entity is in a block exactly when it is in one of the block's cells. */
  lemma {:induction false} BlockMembers(tiling: Grid, x0: nat, y0: nat, w: nat, h: nat, e: Entity)
    requires x0 + w <= |tiling| && forall x :: x0 <= x < x0 + w ==> y0 + h <= |tiling[x]|
    ensures e in Block(tiling, x0, y0, w, h) <==>
      exists x, y :: x0 <= x < x0 + w && y0 <= y < y0 + h && e in tiling[x][y]
  {
    if w > 0 {
      BlockMembers(tiling, x0, y0, w - 1, h, e);
      ColumnCellsMembers(tiling[x0 + w - 1], y0, h, e);
    }
  }

  /** The number of cells of `w` columns of `h` cells, counted column by column. */
  function Cells(w: nat, h: nat): nat
  {
    if w == 0 then 0 else Cells(w - 1, h) + h
  }

  lemma {:induction false} CellsIsProduct(w: nat, h: nat)
    ensures Cells(w, h) == w * h
  {
    if w > 0 {
      CellsIsProduct(w - 1, h);
    }
  }

  /** The inner loop of the gathering: the cells `col[y0 .. y0 + h)` are appended to
      `entities` in order, each counted once. */
  method GatherColumn(col: seq<seq<Entity>>, y0: nat, h: nat, entities: seq<Entity>, count: nat)
    returns (entities': seq<Entity>, count': nat)
    requires y0 + h <= |col|
    ensures entities' == entities + ColumnCells(col, y0, h)
    ensures count' == count + h
  {
    entities', count' := entities, count;
    for y := y0 to y0 + h
      invariant entities' == entities + ColumnCells(col, y0, y - y0)
      invariant count' == count + (y - y0)
    {
      entities' := entities' + col[y];
      count' := count' + 1;
    }
  }

  /** The loops that gather the entities of a tile from the base cells. */
  method EntitiesInTile(tiling: Grid, maxZoom: nat, zoom: nat, tileX: nat, tileY: nat)
    returns (entitiesInTile: seq<Entity>, count: nat)
    requires zoom <= maxZoom && Square(tiling, Pow2(maxZoom))
    requires tileX + Pow2(maxZoom - zoom) <= Pow2(maxZoom) && tileY + Pow2(maxZoom - zoom) <= Pow2(maxZoom)
    ensures count == Pow4(maxZoom - zoom)
    ensures var side := Pow2(maxZoom - zoom); entitiesInTile == Block(tiling, tileX, tileY, side, side)
  {
    var side := Pow2(maxZoom - zoom);
    entitiesInTile, count := [], 0;
    for x := tileX to tileX + side
      invariant entitiesInTile == Block(tiling, tileX, tileY, x - tileX, side)
      invariant count == Cells(x - tileX, side)
    {
      entitiesInTile, count := GatherColumn(tiling[x], tileY, side, entitiesInTile, count);
    }
    CellsIsProduct(side, side);
    Pow4IsSquare(maxZoom - zoom);
  }

  // ---------------------------------------------------------------------------------
  // Representatives of a tile with few entities

  /** An entry of a tile: the entity shown, how many others it stands for, and whether
      the previous zoom showed it too. */
  datatype Representative = Representative(representative: Entity, numberOfEntities: nat, inPrevious: bool)

  function Indexes(es: seq<Entity>): (r: seq<int>)
    ensures |r| == |es| && forall i :: 0 <= i < |es| ==> r[i] == es[i].index
  {
    seq(|es|, i requires 0 <= i < |es| => es[i].index)
  }

  /** The representatives of the parent tile whose entity lies in the current tile, in
      the parent's order. */
  function OldReps(prev: seq<Entity>, inTile: seq<Entity>): (r: seq<Entity>)
    ensures |r| <= |prev|
  {
    if prev == [] then []
    else
      var last := prev[|prev| - 1];
      OldReps(prev[..|prev| - 1], inTile) + (if last.index in Indexes(inTile) then [last] else [])
  }

  /** The oldReps representatives are exactly the parent's entries that lie in the tile, and
      they repeat no index when the parent's entries do not. */
  lemma {:induction false} OldRepsMeaning(prev: seq<Entity>, inTile: seq<Entity>)
    ensures forall e :: e in OldReps(prev, inTile) <==> e in prev && e.index in Indexes(inTile)
    ensures NoDup(Indexes(prev)) ==> NoDup(Indexes(OldReps(prev, inTile)))
  {
    if prev != [] {
      var init, last := prev[..|prev| - 1], prev[|prev| - 1];
      OldRepsMeaning(init, inTile);
      assert prev == init + [last];
      if NoDup(Indexes(prev)) {
        assert Indexes(init) == Indexes(prev)[..|init|];
        forall e | e in OldReps(init, inTile)
          ensures e.index != last.index
        {
          var i :| 0 <= i < |init| && init[i] == e;
          assert Indexes(prev)[i] == e.index;
        }
        var tail := if last.index in Indexes(inTile) then [last] else [];
        assert Indexes(OldReps(prev, inTile)) == Indexes(OldReps(init, inTile)) + Indexes(tail);
        forall t | t in Indexes(OldReps(init, inTile))
          ensures t !in Indexes(tail)
        {
          var i :| 0 <= i < |OldReps(init, inTile)| && Indexes(OldReps(init, inTile))[i] == t;
          assert OldReps(init, inTile)[i] in OldReps(init, inTile);
        }
        NoDupConcat(Indexes(OldReps(init, inTile)), Indexes(tail));
      }
    }
  }

  /** The loops that pick the parent's representatives lying in the tile: for each, the
      first entity of the tile with its index. */
  method OldRepresentatives(prev: seq<Entity>, inTile: seq<Entity>) returns (oldReps: seq<Entity>)
    ensures oldReps == OldReps(prev, inTile)
  {
    oldReps := [];
    for r := 0 to |prev|
      invariant oldReps == OldReps(prev[..r], inTile)
    {
      assert prev[..r + 1][..r] == prev[..r];
      for e := 0 to |inTile|
        invariant forall e' :: 0 <= e' < e ==> inTile[e'].index != prev[r].index
      {
        if inTile[e].index == prev[r].index {
          assert Indexes(inTile)[e] == prev[r].index;
          oldReps := oldReps + [prev[r]];
          break;
        }
      }
    }
    assert prev[..|prev|] == prev;
  }

  /** A tile with at most `MaxImagesPerTile` entities shows all of them, each standing
      for itself only and marked when the parent showed it. */
  function SmallTile(inTile: seq<Entity>, oldReps: seq<Entity>): (r: seq<Representative>)
    ensures |r| == |inTile|
  {
    seq(|inTile|, i requires 0 <= i < |inTile| =>
      Representative(inTile[i], 0, inTile[i].index in Indexes(oldReps)))
  }

  /** The loops of the small-tile branch. */
  method SmallTileRepresentatives(inTile: seq<Entity>, oldReps: seq<Entity>) returns (reps: seq<Representative>)
    requires |inTile| <= MaxImagesPerTile
    ensures reps == SmallTile(inTile, oldReps)
  {
    reps := [];
    for k := 0 to |inTile|
      invariant reps == SmallTile(inTile[..k], oldReps)
    {
      var inPrevious := false;
      for o := 0 to |oldReps|
        invariant forall o' :: 0 <= o' < o ==> oldReps[o'].index != inTile[k].index
      {
        if inTile[k].index == oldReps[o].index {
          assert Indexes(oldReps)[o] == inTile[k].index;
          inPrevious := true;
          break;
        }
      }
      reps := reps + [Representative(inTile[k], 0, inPrevious)];
    }
    assert inTile[..|inTile|] == inTile;
  }

  /** `sum(number_of_entities + 1)` over the representatives. */
  function Shown(reps: seq<Representative>): nat
  {
    if reps == [] then 0 else Shown(reps[..|reps| - 1]) + reps[|reps| - 1].numberOfEntities + 1
  }

  /** The number of representatives marked as shown by the parent. */
  function Marked(reps: seq<Representative>): nat
  {
    if reps == [] then 0 else Marked(reps[..|reps| - 1]) + if reps[|reps| - 1].inPrevious then 1 else 0
  }

  /** The entities whose index is in `s`. */
  function CountIn(es: seq<Entity>, s: set<int>): nat
  {
    if es == [] then 0 else CountIn(es[..|es| - 1], s) + if es[|es| - 1].index in s then 1 else 0
  }

  lemma {:induction false} CountInSkips(es: seq<Entity>, s: set<int>, t: int)
    requires t !in Indexes(es)
    ensures CountIn(es, s) == CountIn(es, s - {t})
  {
    if es != [] {
      assert Indexes(es)[|es| - 1] == es[|es| - 1].index;
      assert Indexes(es[..|es| - 1]) == Indexes(es)[..|es| - 1];
      CountInSkips(es[..|es| - 1], s, t);
    }
  }

  /** When the indexes of a list do not repeat, it holds every index of a subset of them
      exactly once. */
  lemma {:induction false} CountInAll(es: seq<Entity>, s: set<int>)
    requires NoDup(Indexes(es)) && forall t :: t in s ==> t in Indexes(es)
    ensures CountIn(es, s) == |s|
  {
    if es != [] {
      var init, last := es[..|es| - 1], es[|es| - 1];
      assert Indexes(init) == Indexes(es)[..|init|];
      assert last.index !in Indexes(init);
      if last.index in s {
        forall t | t in s - {last.index}
          ensures t in Indexes(init)
        {
          var i :| 0 <= i < |es| && Indexes(es)[i] == t;
        }
        CountInAll(init, s - {last.index});
        CountInSkips(init, s, last.index);
      } else {
        forall t | t in s
          ensures t in Indexes(init)
        {
          var i :| 0 <= i < |es| && Indexes(es)[i] == t;
        }
        CountInAll(init, s);
      }
    } else {
      assert forall t :: t !in s;
      assert s == {};
    }
  }

  lemma {:induction false} MarkedCounts(inTile: seq<Entity>, oldReps: seq<Entity>)
    ensures Marked(SmallTile(inTile, oldReps)) == CountIn(inTile, set t | t in Indexes(oldReps))
    ensures Shown(SmallTile(inTile, oldReps)) == |inTile|
  {
    if inTile != [] {
      var init := inTile[..|inTile| - 1];
      assert SmallTile(inTile, oldReps)[..|init|] == SmallTile(init, oldReps);
      MarkedCounts(init, oldReps);
    }
  }

  /** The checks the small-tile branch asserts: an entry is marked exactly when its
      entity was shown by the parent, as many entries are marked as the parent showed in
      the tile, and the entries stand for every entity of the tile once. */
  lemma SmallTileChecks(prev: seq<Entity>, inTile: seq<Entity>)
    requires NoDup(Indexes(prev)) && NoDup(Indexes(inTile))
    ensures var oldReps := OldReps(prev, inTile); var reps := SmallTile(inTile, oldReps);
      (forall i :: 0 <= i < |reps| ==> (reps[i].inPrevious <==> inTile[i].index in Indexes(prev))) &&
      Marked(reps) == |oldReps| && Shown(reps) == |inTile|
  {
    var oldReps := OldReps(prev, inTile);
    OldRepsMeaning(prev, inTile);
    forall i | 0 <= i < |inTile|
      ensures inTile[i].index in Indexes(oldReps) <==> inTile[i].index in Indexes(prev)
    {
      assert Indexes(inTile)[i] == inTile[i].index;
      if inTile[i].index in Indexes(prev) {
        var j :| 0 <= j < |prev| && Indexes(prev)[j] == inTile[i].index;
        assert prev[j] in oldReps;
        var k :| 0 <= k < |oldReps| && oldReps[k] == prev[j];
        assert Indexes(oldReps)[k] == inTile[i].index;
      }
      if inTile[i].index in Indexes(oldReps) {
        var k :| 0 <= k < |oldReps| && Indexes(oldReps)[k] == inTile[i].index;
        assert oldReps[k] in oldReps;
        var j :| 0 <= j < |prev| && prev[j] == oldReps[k];
        assert Indexes(prev)[j] == inTile[i].index;
      }
    }
    MarkedCounts(inTile, oldReps);
    var s := set t | t in Indexes(oldReps);
    forall t | t in s
      ensures t in Indexes(inTile)
    {
      var k :| 0 <= k < |oldReps| && Indexes(oldReps)[k] == t;
      assert oldReps[k] in oldReps;
    }
    CountInAll(inTile, s);
    NoDupCard(Indexes(oldReps));
  }

  // ---------------------------------------------------------------------------------
  // images_to_tile

  /** The tile each image is first shown on, after one tile's entries. */
  function Record(m: map<int, Tile>, reps: seq<Representative>, t: Tile): map<int, Tile>
  {
    if reps == [] then m
    else
      var inner := Record(m, reps[..|reps| - 1], t);
      var i := reps[|reps| - 1].representative.index;
      if i in inner then inner else inner[i := t]
  }

  function RepIndexes(reps: seq<Representative>): seq<int>
  {
    seq(|reps|, k requires 0 <= k < |reps| => reps[k].representative.index)
  }

  /** Recording never overwrites an image and adds the tile's images with the tile. */
  lemma {:induction false} RecordMeaning(m: map<int, Tile>, reps: seq<Representative>, t: Tile)
    ensures forall i :: i in Record(m, reps, t) <==> i in m || i in RepIndexes(reps)
    ensures forall i :: i in m ==> Record(m, reps, t)[i] == m[i]
    ensures forall i :: i in Record(m, reps, t) && i !in m ==> Record(m, reps, t)[i] == t
  {
    if reps != [] {
      var init := reps[..|reps| - 1];
      RecordMeaning(m, init, t);
      assert RepIndexes(reps) == RepIndexes(init) + [reps[|reps| - 1].representative.index];
    }
  }

  /** The loop that saves the mapping from images to tile. */
  method RecordImages(imagesToTile: map<int, Tile>, reps: seq<Representative>, t: Tile)
    returns (m: map<int, Tile>)
    ensures m == Record(imagesToTile, reps, t)
  {
    m := imagesToTile;
    for k := 0 to |reps|
      invariant m == Record(imagesToTile, reps[..k], t)
    {
      assert reps[..k + 1][..k] == reps[..k];
      if reps[k].representative.index !in m {
        m := m[reps[k].representative.index := t];
      }
    }
    assert reps[..|reps|] == reps;
  }

  /** One visited tile and its entries. */
  datatype Step = Step(tile: Tile, reps: seq<Representative>)

  /** The mapping after a run of tiles, in the order the loops visit them. */
  function History(steps: seq<Step>): map<int, Tile>
  {
    if steps == [] then map[] else
      var last := steps[|steps| - 1];
      Record(History(steps[..|steps| - 1]), last.reps, last.tile)
  }

  /** An image is mapped exactly when some tile shows it, and then to the first tile
      that does. */
  lemma {:induction false} FirstTileWins(steps: seq<Step>, i: int, k: nat)
    ensures i in History(steps) <==> exists j :: 0 <= j < |steps| && i in RepIndexes(steps[j].reps)
    ensures (k < |steps| && i in RepIndexes(steps[k].reps) &&
      (forall j :: 0 <= j < k ==> i !in RepIndexes(steps[j].reps))) ==>
      i in History(steps) && History(steps)[i] == steps[k].tile
  {
    if steps != [] {
      var init, last := steps[..|steps| - 1], steps[|steps| - 1];
      FirstTileWins(init, i, k);
      RecordMeaning(History(init), last.reps, last.tile);
      assert forall j :: 0 <= j < |init| ==> init[j] == steps[j];
    }
  }

  /** The loops visit the zoom levels from coarse to fine, so every image is mapped to
      the coarsest tile that shows it. */
  lemma CoarsestTile(steps: seq<Step>, i: int, k: nat)
    requires forall a, b :: 0 <= a < b < |steps| ==> steps[a].tile.zoom <= steps[b].tile.zoom
    requires k < |steps| && i in RepIndexes(steps[k].reps)
    ensures i in History(steps) && History(steps)[i].zoom <= steps[k].tile.zoom
  {
    var first := FirstShowing(steps, i, k);
    FirstTileWins(steps, i, first);
  }

  function FirstShowing(steps: seq<Step>, i: int, k: nat): (first: nat)
    requires k < |steps| && i in RepIndexes(steps[k].reps)
    ensures first <= k && i in RepIndexes(steps[first].reps)
    ensures forall j :: 0 <= j < first ==> i !in RepIndexes(steps[j].reps)
  {
    if k == 0 || forall j :: 0 <= j < k ==> i !in RepIndexes(steps[j].reps) then k
    else
      var j :| 0 <= j < k && i in RepIndexes(steps[j].reps);
      FirstShowing(steps, i, j)
  }

  // ---------------------------------------------------------------------------------
  // get_previously_inserted_tile

  /** `LIMIT_FOR_FETCH`: the most tile indexes one fetch should list. */
  const LimitForFetch := 200000

  /** The indexes the inner loop lists for column `x` from row `y` on, skipping the tiles
      of the previous level still held in memory (`present`). */
  function ColumnFrom(z: nat, x: int, y: int, present: set<(int, int)>): seq<int>
    decreases Pow2(z) - y
  {
    if y >= Pow2(z) then []
    else (if (x, y) in present then [] else [IndexOf(Tile(x, y, z))]) + ColumnFrom(z, x, y + 1, present)
  }

  /** The columns the outer loop visits from column `x` on; every column starts at row
      `y0`. */
  function ColumnsFrom(z: nat, x: int, y0: int, present: set<(int, int)>): seq<seq<int>>
    decreases Pow2(z) - x
  {
    if x >= Pow2(z) then [] else [ColumnFrom(z, x, y0, present)] + ColumnsFrom(z, x + 1, y0, present)
  }

  /** A column lists the absent tiles below its start, each once. */
  lemma {:induction false} ColumnFromMembers(z: nat, x: int, y: int, present: set<(int, int)>, i: int)
    ensures i in ColumnFrom(z, x, y, present) <==>
      exists y' :: y <= y' < Pow2(z) && (x, y') !in present && i == IndexOf(Tile(x, y', z))
    decreases Pow2(z) - y
  {
    if y < Pow2(z) {
      ColumnFromMembers(z, x, y + 1, present, i);
    }
  }

  /** The inner loop as written: append, and leave the column when the list has just
      reached `limit` entries. */
  function FillColumn(col: seq<int>, acc: seq<int>, limit: nat): seq<int>
  {
    if col == [] then acc
    else if |acc + [col[0]]| == limit then acc + [col[0]]
    else FillColumn(col[1..], acc + [col[0]], limit)
  }

  /** The outer loop as written: it goes on with the next column whatever the inner loop
      did. */
  function FillAll(cols: seq<seq<int>>, acc: seq<int>, limit: nat): seq<int>
  {
    if cols == [] then acc else FillAll(cols[1..], FillColumn(cols[0], acc, limit), limit)
  }

  /** The loops of `get_previously_inserted_tile` as written: the `break` on reaching the
      limit leaves only the inner loop. */
  method PreviouslyInsertedIndexes(z: nat, prevX: int, prevY: int, present: set<(int, int)>)
    returns (indexes: seq<int>)
    ensures indexes == FillAll(ColumnsFrom(z, prevX, prevY, present), [], LimitForFetch)
  {
    indexes := [];
    var tileX := prevX;
    while tileX < Pow2(z)
      invariant FillAll(ColumnsFrom(z, tileX, prevY, present), indexes, LimitForFetch) ==
        FillAll(ColumnsFrom(z, prevX, prevY, present), [], LimitForFetch)
      decreases Pow2(z) - tileX
    {
      ghost var start := indexes;
      var tileY := prevY;
      while tileY < Pow2(z)
        invariant FillColumn(ColumnFrom(z, tileX, tileY, present), indexes, LimitForFetch) ==
          FillColumn(ColumnFrom(z, tileX, prevY, present), start, LimitForFetch)
        decreases Pow2(z) - tileY
      {
        if (tileX, tileY) in present {
          assert ColumnFrom(z, tileX, tileY, present) == ColumnFrom(z, tileX, tileY + 1, present);
          tileY := tileY + 1;
          continue;
        }
        var index := GetIndexFromTile(z, tileX, tileY);
        var rest := ColumnFrom(z, tileX, tileY + 1, present);
        assert ColumnFrom(z, tileX, tileY, present) == [index] + rest;
        assert ([index] + rest)[0] == index && ([index] + rest)[1..] == rest;
        indexes := indexes + [index];
        if |indexes| == LimitForFetch {
          break;
        }
        tileY := tileY + 1;
      }
      tileX := tileX + 1;
    }
  }

  /** The first `n` elements, or all of them when there are fewer. */
  function Take(s: seq<int>, n: nat): (r: seq<int>)
    ensures |r| <= n && r <= s
  {
    if |s| <= n then s else s[..n]
  }

  /** The loops with the evident intent: stop listing once the limit is reached. */
  method PreviouslyInsertedIndexesCorrected(z: nat, prevX: int, prevY: int, present: set<(int, int)>)
    returns (indexes: seq<int>)
    ensures indexes == Take(Concat(ColumnsFrom(z, prevX, prevY, present)), LimitForFetch)
    ensures |indexes| <= LimitForFetch
  {
    ghost var all := Concat(ColumnsFrom(z, prevX, prevY, present));
    indexes := [];
    var tileX := prevX;
    label columns:
    while tileX < Pow2(z)
      invariant indexes + Concat(ColumnsFrom(z, tileX, prevY, present)) == all
      invariant |indexes| < LimitForFetch
      decreases Pow2(z) - tileX
    {
      ghost var later := Concat(ColumnsFrom(z, tileX + 1, prevY, present));
      assert Concat(ColumnsFrom(z, tileX, prevY, present)) == ColumnFrom(z, tileX, prevY, present) + later;
      Assoc(indexes, ColumnFrom(z, tileX, prevY, present), later);
      var tileY := prevY;
      while tileY < Pow2(z)
        invariant indexes + ColumnFrom(z, tileX, tileY, present) + later == all
        invariant |indexes| < LimitForFetch
        decreases Pow2(z) - tileY
      {
        if (tileX, tileY) in present {
          assert ColumnFrom(z, tileX, tileY, present) == ColumnFrom(z, tileX, tileY + 1, present);
          tileY := tileY + 1;
          continue;
        }
        var index := GetIndexFromTile(z, tileX, tileY);
        ghost var rest := ColumnFrom(z, tileX, tileY + 1, present);
        assert ColumnFrom(z, tileX, tileY, present) == [index] + rest;
        Assoc(indexes, [index], rest);
        indexes := indexes + [index];
        if |indexes| == LimitForFetch {
          Assoc(indexes, rest, later);
          assert all[..LimitForFetch] == indexes;
          break columns;
        }
        assert indexes + rest + later == all;
        tileY := tileY + 1;
      }
      assert indexes + [] == indexes;
      tileX := tileX + 1;
    }
    assert indexes + [] == indexes;
  }

  lemma {:induction false} FillColumnPast(col: seq<int>, acc: seq<int>, limit: nat)
    requires |acc| >= limit
    ensures FillColumn(col, acc, limit) == acc + col
  {
    if col != [] {
      FillColumnPast(col[1..], acc + [col[0]], limit);
      assert acc + [col[0]] + col[1..] == acc + col;
    }
  }

  /** Once the list is past the limit, the loops as written append every remaining tile. */
  lemma {:induction false} FillAllPast(cols: seq<seq<int>>, acc: seq<int>, limit: nat)
    requires |acc| >= limit
    ensures FillAll(cols, acc, limit) == acc + Concat(cols)
  {
    if cols != [] {
      FillColumnPast(cols[0], acc, limit);
      FillAllPast(cols[1..], acc + cols[0], limit);
    }
  }

  lemma {:induction false} FillColumnReaches(col: seq<int>, acc: seq<int>, limit: nat)
    ensures |FillColumn(col, acc, limit)| >= Min(limit, |acc| + |col|)
  {
    if col != [] && |acc + [col[0]]| != limit {
      FillColumnReaches(col[1..], acc + [col[0]], limit);
    }
  }

  lemma {:induction false} FillAllReaches(cols: seq<seq<int>>, acc: seq<int>, limit: nat)
    ensures |FillAll(cols, acc, limit)| >= Min(limit, |acc| + |Concat(cols)|)
  {
    if cols != [] {
      FillColumnReaches(cols[0], acc, limit);
      FillAllReaches(cols[1..], FillColumn(cols[0], acc, limit), limit);
    }
  }

  lemma {:induction false} FillAllSplit(a: seq<seq<int>>, b: seq<seq<int>>, acc: seq<int>, limit: nat)
    ensures FillAll(a + b, acc, limit) == FillAll(b, FillAll(a, acc, limit), limit)
  {
    if a != [] {
      assert (a + b)[1..] == a[1..] + b;
      FillAllSplit(a[1..], b, FillColumn(a[0], acc, limit), limit);
    } else {
      assert a + b == b;
    }
  }

  /** The loops as written overrun the limit whenever the columns before some non-empty
      column already hold `limit` tiles. */
  lemma Overflow(cols: seq<seq<int>>, k: nat, limit: nat)
    requires k < |cols| && |Concat(cols[..k])| >= limit && cols[k] != []
    ensures |FillAll(cols, [], limit)| > limit
  {
    assert cols == cols[..k] + cols[k..];
    FillAllSplit(cols[..k], cols[k..], [], limit);
    var acc := FillAll(cols[..k], [], limit);
    FillAllReaches(cols[..k], [], limit);
    FillAllPast(cols[k..], acc, limit);
    assert cols[k..][0] == cols[k];
  }

  lemma {:induction false} ColumnFromLength(z: nat, x: int, y: nat)
    requires y <= Pow2(z)
    ensures |ColumnFrom(z, x, y, {})| == Pow2(z) - y
    decreases Pow2(z) - y
  {
    if y < Pow2(z) {
      ColumnFromLength(z, x, y + 1);
    }
  }

  lemma {:induction false} ColumnsFromShape(z: nat, x: nat, y0: int, present: set<(int, int)>)
    requires x <= Pow2(z)
    ensures var cols := ColumnsFrom(z, x, y0, present);
      |cols| == Pow2(z) - x && forall j :: 0 <= j < |cols| ==> cols[j] == ColumnFrom(z, x + j, y0, present)
    decreases Pow2(z) - x
  {
    if x < Pow2(z) {
      ColumnsFromShape(z, x + 1, y0, present);
      var rest := ColumnsFrom(z, x + 1, y0, present);
      var cols := [ColumnFrom(z, x, y0, present)] + rest;
      assert ColumnsFrom(z, x, y0, present) == cols;
      forall j | 0 <= j < |cols|
        ensures cols[j] == ColumnFrom(z, x + j, y0, present)
      {
        if j > 0 {
          assert cols[j] == rest[j - 1];
        }
      }
    }
  }

  lemma {:induction false} ConcatUniform(cols: seq<seq<int>>, m: nat)
    requires forall j :: 0 <= j < |cols| ==> |cols[j]| == m
    ensures |Concat(cols)| == |cols| * m
  {
    if cols != [] {
      ConcatUniform(cols[1..], m);
    }
  }

  /** With nothing held in memory, every column from row 0 lists all `2^z` tiles. */
  lemma FullColumns(z: nat)
    ensures var cols := ColumnsFrom(z, 0, 0, {});
      |cols| == Pow2(z) && forall j :: 0 <= j < |cols| ==> |cols[j]| == Pow2(z)
  {
    ColumnsFromShape(z, 0, 0, {});
    forall j | 0 <= j < Pow2(z)
      ensures |ColumnsFrom(z, 0, 0, {})[j]| == Pow2(z)
    {
      ColumnFromLength(z, j, 0);
    }
  }

  /** Level 9 has 512 tiles a side. */
  lemma Pow2Of9()
    ensures Pow2(9) == 512
  {
    assert Pow2(1) == 2;
    assert Pow2(2) == 4;
    assert Pow2(3) == 8;
    assert Pow2(4) == 16;
    assert Pow2(5) == 32;
    assert Pow2(6) == 64;
    assert Pow2(7) == 128;
    assert Pow2(8) == 256;
  }

  /** With no tile of zoom 9 held in memory and the search starting at tile (0, 0), the
      loops as written list more than `LimitForFetch` indexes (261952 of them). */
  lemma FetchOverflowAsWritten(z: nat)
    requires z == 9
    ensures |FillAll(ColumnsFrom(z, 0, 0, {}), [], LimitForFetch)| > LimitForFetch
  {
    Pow2Of9();
    SquareOverflows(z);
  }

  /** A level of 512 x 512 tiles none of which is present overflows the limit once the
      loops as written are done with it. */
  lemma SquareOverflows(z: nat)
    requires Pow2(z) == 512
    ensures |FillAll(ColumnsFrom(z, 0, 0, {}), [], LimitForFetch)| > LimitForFetch
  {
    var cols := ColumnsFrom(z, 0, 0, {});
    FullColumns(z);
    var front := cols[..391];
    assert forall j :: 0 <= j < |front| ==> |front[j]| == 512;
    ConcatUniform(front, 512);
    Overflow(cols, 391, LimitForFetch);
  }

  lemma {:induction false} FillColumnWithin(col: seq<int>, acc: seq<int>, limit: nat)
    requires |acc| + |col| <= limit
    ensures FillColumn(col, acc, limit) == acc + col
  {
    if col != [] {
      if |acc + [col[0]]| == limit {
        assert col == [col[0]];
      } else {
        FillColumnWithin(col[1..], acc + [col[0]], limit);
        assert acc + [col[0]] + col[1..] == acc + col;
      }
    }
  }

  lemma {:induction false} FillAllWithin(cols: seq<seq<int>>, acc: seq<int>, limit: nat)
    requires |acc| + |Concat(cols)| <= limit
    ensures FillAll(cols, acc, limit) == acc + Concat(cols)
  {
    if cols != [] {
      FillColumnWithin(cols[0], acc, limit);
      FillAllWithin(cols[1..], acc + cols[0], limit);
    }
  }

  /** When the absent tiles fit in one fetch, the loops as written and the corrected ones
      list the same indexes: all of them. */
  lemma AgreeWithinLimit(z: nat, prevX: int, prevY: int, present: set<(int, int)>)
    requires |Concat(ColumnsFrom(z, prevX, prevY, present))| <= LimitForFetch
    ensures var all := Concat(ColumnsFrom(z, prevX, prevY, present));
      FillAll(ColumnsFrom(z, prevX, prevY, present), [], LimitForFetch) == all &&
      Take(all, LimitForFetch) == all
  {
    FillAllWithin(ColumnsFrom(z, prevX, prevY, present), [], LimitForFetch);
  }
}
