/** The scatter-plot table of the server (`generate_scatter_plots` in
    `backend/src/report/create_and_populate_umap_collection.py`): one row per pair of
    UMAP parameters, numbered in row-major order, holding the 2-D points flattened to
    `x0, y0, x1, y1, ...`. The UMAP reduction itself is a parameter. */
module Umap {
  import opened Wrappers
  import opened Seqs
  import opened Tiles

  /** `N_NEIGHBORS` and `MIN_DISTS` of `backend/src/CONSTANTS.py`. */
  const NNeighbors: seq<int> := [3, 5, 10, 15, 20, 50, 100, 200]
  const MinDists: seq<real> := [0.0, 0.1, 0.25, 0.5, 0.8, 0.99]

  /** The number of parameter pairs, one row each. */
  const Pairs := |NNeighbors| * |MinDists|

  type Point = (real, real)

  /** `[p for point in points for p in point]`. */
  function Flatten(points: seq<Point>): (data: seq<real>)
    ensures |data| == 2 * |points|
    ensures forall i :: 0 <= i < |points| ==> data[2 * i] == points[i].0 && data[2 * i + 1] == points[i].1
  {
    if points == [] then []
    else
      var last := points[|points| - 1];
      Flatten(points[..|points| - 1]) + [last.0, last.1]
  }

  /** A row of the table. */
  datatype Row = Row(nNeighbors: int, minDist: real, index: nat, data: seq<real>)

  /** The row numbered `k`: parameters `NNeighbors[k / |MinDists|]` and
      `MinDists[k % |MinDists|]`. */
  function RowAt(k: nat, reduce: (int, real) -> seq<Point>): Row
    requires k < Pairs
  {
    var i, j := k / |MinDists|, k % |MinDists|;
    assert i < |NNeighbors| by { DivBelow(k, |MinDists|, |NNeighbors|); }
    Row(NNeighbors[i], MinDists[j], k, Flatten(reduce(NNeighbors[i], MinDists[j])))
  }

  lemma DivBelow(k: nat, n: nat, m: nat)
    requires n > 0 && k < m * n
    ensures k / n < m
  {
    if k / n >= m {
      MulLe(n, m, k / n);
    }
  }

  /** The whole table. */
  function Rows(reduce: (int, real) -> seq<Point>): (rows: seq<Row>)
    ensures |rows| == Pairs && forall k :: 0 <= k < Pairs ==> rows[k] == RowAt(k, reduce)
  {
    seq(Pairs, k requires 0 <= k < Pairs => RowAt(k, reduce))
  }

  /** `generate_scatter_plots` past fetching the embeddings: nothing for an empty
      collection, else the rows built by the two nested loops over the parameters. */
  method GenerateScatterPlots(numEntities: nat, reduce: (int, real) -> seq<Point>) returns (r: Option<seq<Row>>)
    requires forall n, m :: n in NNeighbors && m in MinDists ==> |reduce(n, m)| == numEntities
    ensures numEntities == 0 <==> r.None?
    ensures r.Some? ==> r.value == Rows(reduce)
  {
    if numEntities == 0 {
      return None;
    }
    var umapData: seq<Row> := [];
    var index: nat := 0;
    for i := 0 to |NNeighbors|
      invariant index == i * |MinDists| && umapData == Rows(reduce)[..index]
    {
      var n := NNeighbors[i];
      for j := 0 to |MinDists|
        invariant index == i * |MinDists| + j && umapData == Rows(reduce)[..index]
      {
        var m := MinDists[j];
        var data := Flatten(reduce(n, m));
        assert |data| == 2 * numEntities;
        RowNumber(i, j, index);
        umapData := umapData + [Row(n, m, index, data)];
        assert umapData == Rows(reduce)[..index + 1];
        index := index + 1;
      }
    }
    assert umapData == Rows(reduce);
    return Some(umapData);
  }

  /** Row `i * |MinDists| + j` carries the `i`-th number of neighbours and the `j`-th
      minimum distance. */
  lemma RowNumber(i: nat, j: nat, k: nat)
    requires i < |NNeighbors| && j < |MinDists| && k == i * |MinDists| + j
    ensures k < Pairs && k / |MinDists| == i && k % |MinDists| == j
  {
    var n := |MinDists|;
    MulLe(n, i + 1, |NNeighbors|);
    DivModUnique(n, k / n, k % n, i, j);
  }

  /** The rows are numbered `0 .. Pairs - 1` in order, so their indexes are distinct and
      cover every pair. */
  lemma RowIndexes(reduce: (int, real) -> seq<Point>)
    ensures forall k :: 0 <= k < Pairs ==> Rows(reduce)[k].index == k
    ensures NoDup(Rows(reduce))
  {
    var rows := Rows(reduce);
    forall a, b | 0 <= a < b < |rows|
      ensures rows[a] != rows[b]
    {
      assert rows[a].index == a && rows[b].index == b;
    }
  }

  /** Every row holds two numbers per entity. */
  lemma RowLengths(numEntities: nat, reduce: (int, real) -> seq<Point>)
    requires forall n, m :: n in NNeighbors && m in MinDists ==> |reduce(n, m)| == numEntities
    ensures forall k :: 0 <= k < Pairs ==> |Rows(reduce)[k].data| == 2 * numEntities
  {
    forall k | 0 <= k < Pairs
      ensures |Rows(reduce)[k].data| == 2 * numEntities
    {
      var row := RowAt(k, reduce);
      assert row.nNeighbors in NNeighbors && row.minDist in MinDists;
    }
  }
}
