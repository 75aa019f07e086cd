/** The read side of the server (`backend/src/app/gets.py`): decoding the scatter-plot
    row for a pair of UMAP parameters, the paging loop that fetches the first tiles, and
    the normalisation of the tile of an image. Database queries are parameters. */
module Gets {
  import opened Wrappers
  import opened Seqs
  import opened Tiles
  import opened Umap

  // ---------------------------------------------------------------------------------
  // get_umap_data

  /** `s.index(v)`: the first position of `v`. */
  function Position<T(==)>(s: seq<T>, v: T): (i: nat)
    requires v in s
    ensures i < |s| && s[i] == v && v !in s[..i]
  {
    if s[0] == v then 0
    else
      assert s == [s[0]] + s[1..];
      Position(s[1..], v) + 1
  }

  /** In a sequence without repetitions, the element at `i` is found at `i`. */
  lemma PositionOfElement<T>(s: seq<T>, i: nat)
    requires NoDup(s) && i < |s|
    ensures Position(s, s[i]) == i
  {
    var p := Position(s, s[i]);
    assert forall m :: 0 <= m < p ==> s[..p][m] == s[m];
  }

  /** A recursive form of `NoDup` that the verifier can evaluate on a literal. */
  predicate Distinct<T(==)>(s: seq<T>)
  {
    |s| == 0 || (s[0] !in s[1..] && Distinct(s[1..]))
  }

  lemma {:induction false} DistinctNoDup<T>(s: seq<T>)
    requires Distinct(s)
    ensures NoDup(s)
  {
    if |s| > 0 {
      DistinctNoDup(s[1..]);
      forall i, j | 0 <= i < j < |s|
        ensures s[i] != s[j]
      {
        if i == 0 {
          assert s[j] == s[1..][j - 1];
        } else {
          assert s[i] == s[1..][i - 1] && s[j] == s[1..][j - 1];
        }
      }
    }
  }

  lemma ParametersDistinct()
    ensures NoDup(NNeighbors) && NoDup(MinDists)
  {
    NeighboursDistinct();
    DistancesDistinct();
    DistinctNoDup(NNeighbors);
    DistinctNoDup(MinDists);
  }

  lemma NeighboursDistinct()
    ensures Distinct(NNeighbors)
  {
  }

  lemma DistancesDistinct()
    ensures Distinct(MinDists)
  {
  }

  /** The validation and row number of `get_umap_data`. */
  function UmapIndex(nNeighbors: int, minDist: real): (r: Result<nat, string>)
    ensures r.Ok? <==> nNeighbors in NNeighbors && minDist in MinDists
    ensures r.Ok? ==> r.value < Pairs
  {
    if nNeighbors !in NNeighbors then Err("n_neighbors must be in N_NEIGHBORS")
    else if minDist !in MinDists then Err("min_dist must be in MIN_DISTS")
    else
      var i, j := Position(NNeighbors, nNeighbors), Position(MinDists, minDist);
      RowNumber(i, j, i * |MinDists| + j);
      Ok(PairNumber(NNeighbors, MinDists, nNeighbors, minDist))
  }

  /** The row number of a pair: its first parameter's position times the number of
      second parameters, plus its second parameter's position. */
  function PairNumber<A(==), B(==)>(firsts: seq<A>, seconds: seq<B>, a: A, b: B): nat
    requires a in firsts && b in seconds
  {
    Position(firsts, a) * |seconds| + Position(seconds, b)
  }

  lemma PairNumberOf<A, B>(firsts: seq<A>, seconds: seq<B>, i: nat, j: nat)
    requires NoDup(firsts) && NoDup(seconds) && i < |firsts| && j < |seconds|
    ensures PairNumber(firsts, seconds, firsts[i], seconds[j]) == i * |seconds| + j
  {
    PositionOfElement(firsts, i);
    PositionOfElement(seconds, j);
  }

  /** `[data[i] for i in range(len(data)) if i % 2 == 0]`. */
  function Evens(data: seq<real>): (xs: seq<real>)
    ensures |xs| == (|data| + 1) / 2 && forall k :: 0 <= k < |xs| ==> xs[k] == data[2 * k]
  {
    if |data| < 2 then data else [data[0]] + Evens(data[2..])
  }

  /** `[data[i] for i in range(len(data)) if i % 2 == 1]`. */
  function Odds(data: seq<real>): (ys: seq<real>)
    ensures |ys| == |data| / 2 && forall k :: 0 <= k < |ys| ==> ys[k] == data[2 * k + 1]
  {
    if |data| < 2 then [] else [data[1]] + Odds(data[2..])
  }

  /** The plot sent to the client. */
  datatype Plot = Plot(x: seq<real>, y: seq<real>)

  /** The first stored row with the given number. */
  function FindRow(rows: seq<Row>, index: nat): (r: Option<Row>)
    ensures r.Some? ==> r.value in rows && r.value.index == index
    ensures r.None? ==> forall row :: row in rows ==> row.index != index
  {
    if rows == [] then None
    else if rows[0].index == index then Some(rows[0])
    else FindRow(rows[1..], index)
  }

  /** `get_umap_data` on a table holding `rows`: a parameter outside the allowed lists and
      a missing row are errors. */
  function GetUmapData(rows: seq<Row>, nNeighbors: int, minDist: real): (r: Result<Plot, string>)
    ensures r.Ok? ==> nNeighbors in NNeighbors && minDist in MinDists
  {
    match UmapIndex(nNeighbors, minDist)
    case Err(e) => Err(e)
    case Ok(index) =>
      match FindRow(rows, index)
      case None => Err("list index out of range")
      case Some(row) => Ok(Plot(Evens(row.data), Odds(row.data)))
  }

  function Xs(points: seq<Point>): (r: seq<real>)
    ensures |r| == |points| && forall i :: 0 <= i < |points| ==> r[i] == points[i].0
  {
    seq(|points|, i requires 0 <= i < |points| => points[i].0)
  }

  function Ys(points: seq<Point>): (r: seq<real>)
    ensures |r| == |points| && forall i :: 0 <= i < |points| ==> r[i] == points[i].1
  {
    seq(|points|, i requires 0 <= i < |points| => points[i].1)
  }

  /** Splitting flattened points into even and odd positions gives back their x and y
      coordinates. */
  lemma UnflattenFlatten(points: seq<Point>)
    ensures Evens(Flatten(points)) == Xs(points) && Odds(Flatten(points)) == Ys(points)
  {
  }

  /** The number the server decodes for a pair is the number the table was written with. */
  lemma IndexOfPair(i: nat, j: nat)
    requires i < |NNeighbors| && j < |MinDists|
    ensures UmapIndex(NNeighbors[i], MinDists[j]) == Ok(i * |MinDists| + j)
  {
    ParametersDistinct();
    PairNumberOf(NNeighbors, MinDists, i, j);
    UmapIndexIsPair(NNeighbors[i], MinDists[j]);
  }

  lemma UmapIndexIsPair(nNeighbors: int, minDist: real)
    requires nNeighbors in NNeighbors && minDist in MinDists
    ensures UmapIndex(nNeighbors, minDist) == Ok(PairNumber(NNeighbors, MinDists, nNeighbors, minDist))
  {
  }

  /** Reading a generated table with any allowed pair of parameters gives back the
      coordinates the reduction produced for that pair; any other pair is an error. */
  lemma ReadBackPlot(reduce: (int, real) -> seq<Point>, nNeighbors: int, minDist: real)
    ensures GetUmapData(Rows(reduce), nNeighbors, minDist).Ok?
        <==> nNeighbors in NNeighbors && minDist in MinDists
    ensures nNeighbors in NNeighbors && minDist in MinDists ==>
      GetUmapData(Rows(reduce), nNeighbors, minDist)
        == Ok(Plot(Xs(reduce(nNeighbors, minDist)), Ys(reduce(nNeighbors, minDist))))
  {
    if nNeighbors in NNeighbors && minDist in MinDists {
      var i, j := Position(NNeighbors, nNeighbors), Position(MinDists, minDist);
      var k := i * |MinDists| + j;
      IndexOfPair(i, j);
      RowNumber(i, j, k);
      RowIndexes(reduce);
      var rows := Rows(reduce);
      var found := FindRow(rows, k);
      assert rows[k] in rows;
      FoundIsAt(rows, k);
      UnflattenFlatten(reduce(nNeighbors, minDist));
    }
  }

  /** In a table whose row `k` is numbered `k`, the search for `k` finds that row. */
  lemma FoundIsAt(rows: seq<Row>, k: nat)
    requires k < |rows| && forall m :: 0 <= m < |rows| ==> rows[m].index == m
    ensures FindRow(rows, k) == Some(rows[k])
  {
    var found := FindRow(rows, k);
    assert rows[k].index == k;
    var m :| 0 <= m < |rows| && rows[m] == found.value;
  }

  // ---------------------------------------------------------------------------------
  // get_first_tiles

  /** The most tiles fetched at start-up: every tile of zoom 0 to 5. */
  const FirstTiles := 1365

  /** The largest number of indexes in one query. */
  const QueryLimit := 16384

  /** `list(range(a, b))`. */
  function Range(a: nat, b: nat): (r: seq<nat>)
    requires a <= b
    ensures |r| == b - a && forall k :: 0 <= k < |r| ==> r[k] == a + k
  {
    seq(b - a, k requires 0 <= k < b - a => a + k)
  }

  /** The index lists the loop queries, from position `i` on. */
  function Batches(i: nat, limit: nat): seq<seq<nat>>
    decreases limit - i
  {
    if i >= limit then [] else [Range(i, i + Min(QueryLimit, limit - i))] + Batches(i + QueryLimit, limit)
  }

  /** The batches are at most `QueryLimit` long and together list `i .. limit - 1` in
      order. */
  lemma {:induction false} BatchesCover(i: nat, limit: nat)
    requires i <= limit
    ensures Concat(Batches(i, limit)) == Range(i, limit)
    ensures forall b :: b in Batches(i, limit) ==> 0 < |b| <= QueryLimit
    decreases limit - i
  {
    if i < limit {
      var n := Min(QueryLimit, limit - i);
      var rest := Batches(i + QueryLimit, limit);
      assert Batches(i, limit) == [Range(i, i + n)] + rest;
      ConcatCons(Range(i, i + n), rest);
      if i + QueryLimit <= limit {
        BatchesCover(i + QueryLimit, limit);
        RangeSplit(i, i + n, limit);
      } else {
        assert rest == [];
      }
    }
  }

  /** Two adjacent ranges make one. */
  lemma RangeSplit(a: nat, m: nat, b: nat)
    requires a <= m <= b
    ensures Range(a, m) + Range(m, b) == Range(a, b)
  {
    var r := Range(a, m) + Range(m, b);
    forall k | 0 <= k < b - a
      ensures r[k] == Range(a, b)[k]
    {
      if k >= m - a {
        assert r[k] == Range(m, b)[k - (m - a)];
      }
    }
  }

  /** `get_first_tiles` on a collection of `numEntities` tiles; `query` answers one
      batch of indexes. */
  method GetFirstTiles<T>(numEntities: nat, query: seq<nat> -> seq<T>) returns (results: seq<T>)
    ensures results == Concat(Answers(Batches(0, Min(numEntities, FirstTiles)), query))
  {
    var limit := Min(numEntities, FirstTiles);
    results := [];
    var i := 0;
    while i < limit
      invariant i % QueryLimit == 0
      invariant Concat(Answers(Batches(0, limit), query)) == results + Concat(Answers(Batches(i, limit), query))
      decreases limit - i
    {
      var searchLimit := Min(QueryLimit, limit - i);
      ConcatCons(query(Range(i, i + searchLimit)), Answers(Batches(i + QueryLimit, limit), query));
      results := results + query(Range(i, i + searchLimit));
      i := i + QueryLimit;
    }
  }

  /** The answers to each batch, in order. */
  function Answers<T>(batches: seq<seq<nat>>, query: seq<nat> -> seq<T>): (r: seq<seq<T>>)
    ensures |r| == |batches| && forall k :: 0 <= k < |r| ==> r[k] == query(batches[k])
  {
    seq(|batches|, k requires 0 <= k < |batches| => query(batches[k]))
  }

  lemma ConcatCons<T>(first: seq<T>, rest: seq<seq<T>>)
    ensures Concat([first] + rest) == first + Concat(rest)
  {
    assert ([first] + rest)[1..] == rest;
  }

  /** Fewer than `QueryLimit` tiles are ever asked for, so the loop sends a single query,
      or none for an empty collection. */
  lemma OneQuery(numEntities: nat)
    ensures Batches(0, Min(numEntities, FirstTiles))
         == if numEntities == 0 then [] else [Range(0, Min(numEntities, FirstTiles))]
  {
  }

  /** The indexes below `FirstTiles` are exactly those of the on-grid tiles of zoom 0 to 5. */
  lemma FirstTilesAreCoarse(t: Tile)
    requires OnGrid(t)
    ensures 0 <= IndexOf(t) < FirstTiles <==> t.zoom <= 5
  {
    assert Offset(6) == FirstTiles;
    IndexRange(t);
    if t.zoom > 5 {
      OffsetGrows(5, t.zoom);
    } else if t.zoom < 5 {
      OffsetGrows(t.zoom, 6);
    }
  }

  // ---------------------------------------------------------------------------------
  // get_tile_from_image

  /** A stored image-to-tile record: the image and `[zoom, x, y]` as stored numbers. */
  datatype Stored = Stored(index: int, zoomPlusTile: seq<real>)

  /** The record returned to the client, with the numbers converted to integers. */
  datatype Found = Found(index: int, zoomPlusTile: seq<int>)

  /** Python's `int` of a float: truncation towards zero. */
  function Truncate(r: real): (n: int)
    ensures r >= 0.0 ==> (n as real) <= r < (n as real) + 1.0
    ensures r < 0.0 ==> (n as real) - 1.0 < r <= n as real
  {
    if r >= 0.0 then r.Floor else -((-r).Floor)
  }

  /** `get_tile_from_image` on the records the query returned: nothing when there is
      none, otherwise the first with its tile converted to integers. */
  function GetTileFromImage(results: seq<Stored>): (r: Option<Found>)
    ensures r.None? <==> results == []
    ensures r.Some? ==> (r.value.index == results[0].index &&
      |r.value.zoomPlusTile| == |results[0].zoomPlusTile| &&
      forall k :: 0 <= k < |r.value.zoomPlusTile| ==> r.value.zoomPlusTile[k] == Truncate(results[0].zoomPlusTile[k]))
  {
    if |results| > 0 then
      var stored := results[0];
      Some(Found(stored.index, seq(|stored.zoomPlusTile|, k requires 0 <= k < |stored.zoomPlusTile| => Truncate(stored.zoomPlusTile[k]))))
    else None
  }

  /** A tile stored as whole numbers comes back as the same integers. */
  lemma WholeTileKept(index: int, t: Tile)
    ensures GetTileFromImage([Stored(index, [t.zoom as real, t.x as real, t.y as real])])
         == Some(Found(index, [t.zoom, t.x, t.y]))
  {
    var stored := [t.zoom as real, t.x as real, t.y as real];
    var r := GetTileFromImage([Stored(index, stored)]);
    var found := r.value.zoomPlusTile;
    assert found[0] == Truncate(stored[0]) == t.zoom;
    assert found[1] == Truncate(stored[1]) == t.x;
    assert found[2] == Truncate(stored[2]) == t.y;
    assert found == [t.zoom, t.x, t.y];
  }
}
