/** `modify_data` in `backend/src/db_utilities/create_and_populate_embeddings_collection.py`:
    the column-per-attribute dictionary produced by the embedding model is checked and
    turned into one record per image. Exiting the process is an `Err`. */
module Embeddings {
  import opened Wrappers

  /** A scalar or vector that a record field holds. */
  datatype Value = Int(i: int) | Str(s: string) | Reals(v: seq<real>)

  /** A column of the input: a numpy array with the number of its dimensions and its rows
      along the first one, or a list of values. */
  datatype Column = Array(dims: nat, rows: seq<seq<real>>) | List(values: seq<Value>)

  /** `len(column)`: its length along the first axis. */
  function Length(c: Column): nat
  {
    match c
    case Array(_, rows) => |rows|
    case List(values) => |values|
  }

  /** `column[i]`. */
  function Cell(c: Column, i: nat): Value
    requires i < Length(c)
  {
    match c
    case Array(_, rows) => Reals(rows[i])
    case List(values) => values[i]
  }

  type Data = map<string, Column>
  type Record = map<string, Value>

  /** The checks of `modify_data`: both the embeddings and the indexes are present, the
      embeddings form a matrix, and every other column has one entry per embedding. */
  predicate Conforming(data: Data)
  {
    "embeddings" in data && "index" in data && data["embeddings"].Array? && data["embeddings"].dims == 2 &&
    forall k :: k in data && k != "embeddings" ==> Length(data[k]) == |data["embeddings"].rows|
  }

  /** Record `i`: the index, the embedding row under `vectorField`, `x` and `y` at 0, then
      every other column, which wins over the earlier fields on a name clash. */
  function RecordAt(data: Data, vectorField: string, i: nat): Record
    requires Conforming(data) && i < |data["embeddings"].rows|
  {
    var rest := map k | k in data.Keys - {"embeddings", "index"} :: Cell(data[k], i);
    map["index" := Cell(data["index"], i), vectorField := Reals(data["embeddings"].rows[i]),
        "x" := Int(0), "y" := Int(0)] + rest
  }

  /** The loop that checks the length of every column except the embeddings. */
  method CheckLengths(data: Data, count: nat) returns (ok: bool)
    ensures ok <==> forall k :: k in data && k != "embeddings" ==> Length(data[k]) == count
  {
    var keys := data.Keys;
    while keys != {}
      invariant keys <= data.Keys
      invariant forall k :: k in data.Keys - keys && k != "embeddings" ==> Length(data[k]) == count
      decreases keys
    {
      var key :| key in keys;
      if key != "embeddings" && Length(data[key]) != count {
        return false;
      }
      keys := keys - {key};
    }
    return true;
  }

  /** `modify_data`. */
  method ModifyData(data: Data, vectorField: string) returns (r: Result<seq<Record>, string>)
    ensures r.Ok? <==> Conforming(data)
    ensures r.Ok? ==> (|r.value| == |data["embeddings"].rows| &&
      forall i :: 0 <= i < |r.value| ==> r.value[i] == RecordAt(data, vectorField, i))
  {
    if "embeddings" !in data {
      return Err("Embeddings are not in data.");
    }
    if "index" !in data {
      return Err("Indexes are not in data");
    }
    if !data["embeddings"].Array? {
      return Err("'embeddings' has no shape");
    }
    if data["embeddings"].dims != 2 {
      return Err("'embeddings' should form a matrix.");
    }
    var embeddings := data["embeddings"].rows;
    var ok := CheckLengths(data, |embeddings|);
    if !ok {
      return Err("Attributes should match the number of embeddings.");
    }
    var keys := data.Keys - {"embeddings", "index"};
    var newData := [];
    for i := 0 to |embeddings|
      invariant |newData| == i
      invariant forall j :: 0 <= j < i ==> newData[j] == RecordAt(data, vectorField, j)
    {
      var record := map["index" := Cell(data["index"], i), vectorField := Reals(embeddings[i]),
                        "x" := Int(0), "y" := Int(0)];
      var rest := map k | k in keys :: Cell(data[k], i);
      newData := newData + [record + rest];
    }
    return Ok(newData);
  }

  /** What record `i` holds: the index and embedding row `i` (unless a later field has
      the same name), `x` and `y` at 0 unless the input has such columns, and entry `i`
      of every other column; no other field. */
  lemma RecordMeaning(data: Data, vectorField: string, i: nat)
    requires Conforming(data) && i < |data["embeddings"].rows|
    ensures var rec := RecordAt(data, vectorField, i);
      rec.Keys == {"index", vectorField, "x", "y"} + (data.Keys - {"embeddings"}) &&
      (vectorField != "index" ==> rec["index"] == Cell(data["index"], i)) &&
      (vectorField !in data.Keys - {"embeddings", "index"} && vectorField != "x" && vectorField != "y" ==>
        rec[vectorField] == Reals(data["embeddings"].rows[i])) &&
      ("x" !in data && vectorField != "x" ==> rec["x"] == Int(0)) &&
      ("y" !in data && vectorField != "y" ==> rec["y"] == Int(0)) &&
      forall k :: k in data && k != "embeddings" && k != "index" ==> rec[k] == Cell(data[k], i)
  {
  }
}
