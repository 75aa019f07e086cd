/** The list of datasets served by the website (`datasets.json`) and how
    `backend/src/dataset_creation/add_dataset_to_list.py` adds or updates one. A name is
    optional: the script stores `null` when no dataset flag is given. */
module DatasetList {
  import opened Wrappers
  import opened Seqs

  datatype Dataset = Dataset(name: Option<string>, collateFn: string, zoomLevels: int,
                             datasetClass: string, dirName: string, websiteName: string)

  /** The command line: the database has a default and the dataset is `None` unless
      given; the other four keys exist only when given. */
  datatype Flags = Flags(database: string, dataset: Option<string>, dirName: Option<string>,
                         collateFn: Option<string>, datasetClass: Option<string>, websiteName: Option<string>)

  /** The four fields written for a dataset, in the order the script reads them. */
  datatype Fields = Fields(collateFn: string, datasetClass: string, dirName: string, websiteName: string)

  /** The key a getopt flag sets, by its short or long spelling. */
  datatype Key = Database | DatasetName | DirName | CollateFn | DatasetClass | WebsiteName | Unknown

  function KeyOf(arg: string): Key
  {
    if arg == "-d" || arg == "--database" then Database
    else if arg == "-c" || arg == "--dataset" then DatasetName
    else if arg == "-l" || arg == "--dir_name" then DirName
    else if arg == "-f" || arg == "--collate_fn" then CollateFn
    else if arg == "-s" || arg == "--dataset_class" then DatasetClass
    else if arg == "-w" || arg == "--website_name" then WebsiteName
    else Unknown
  }

  /** The flags after one getopt pair; unknown flags are ignored. */
  function ApplyFlag(f: Flags, flag: (string, string)): Flags
  {
    var (arg, val) := flag;
    match KeyOf(arg)
    case Database => f.(database := val)
    case DatasetName => f.(dataset := Some(val))
    case DirName => f.(dirName := Some(val))
    case CollateFn => f.(collateFn := Some(val))
    case DatasetClass => f.(datasetClass := Some(val))
    case WebsiteName => f.(websiteName := Some(val))
    case Unknown => f
  }

  function ParsedFlags(flags: seq<(string, string)>, defaultDatabase: string): Flags
  {
    if flags == [] then Flags(defaultDatabase, None, None, None, None, None)
    else ApplyFlag(ParsedFlags(flags[..|flags| - 1], defaultDatabase), flags[|flags| - 1])
  }

  /** The value of the last flag that sets `key`. */
  function LastValue(flags: seq<(string, string)>, key: Key): Option<string>
  {
    if flags == [] then None
    else if KeyOf(flags[|flags| - 1].0) == key then Some(flags[|flags| - 1].1)
    else LastValue(flags[..|flags| - 1], key)
  }

  /** Every key holds the value of its last flag; the database falls back to the
      default. */
  lemma {:induction false} ParsedFlagsMeaning(flags: seq<(string, string)>, defaultDatabase: string)
    ensures var f := ParsedFlags(flags, defaultDatabase);
      f.dataset == LastValue(flags, DatasetName) &&
      f.dirName == LastValue(flags, DirName) &&
      f.collateFn == LastValue(flags, CollateFn) &&
      f.datasetClass == LastValue(flags, DatasetClass) &&
      f.websiteName == LastValue(flags, WebsiteName) &&
      f.database == match LastValue(flags, Database) case Some(d) => d case None => defaultDatabase
  {
    if flags != [] {
      ParsedFlagsMeaning(flags[..|flags| - 1], defaultDatabase);
    }
  }

  /** `parsing`: the getopt pairs checked one by one. */
  method Parsing(flags: seq<(string, string)>, defaultDatabase: string) returns (f: Flags)
    ensures f == ParsedFlags(flags, defaultDatabase)
  {
    f := Flags(defaultDatabase, None, None, None, None, None);
    for i := 0 to |flags|
      invariant f == ParsedFlags(flags[..i], defaultDatabase)
    {
      assert flags[..i + 1][..i] == flags[..i];
      var (arg, val) := flags[i];
      if arg == "-d" || arg == "--database" {
        f := f.(database := val);
      } else if arg == "-c" || arg == "--dataset" {
        f := f.(dataset := Some(val));
      } else if arg == "-l" || arg == "--dir_name" {
        f := f.(dirName := Some(val));
      } else if arg == "-f" || arg == "--collate_fn" {
        f := f.(collateFn := Some(val));
      } else if arg == "-s" || arg == "--dataset_class" {
        f := f.(datasetClass := Some(val));
      } else if arg == "-w" || arg == "--website_name" {
        f := f.(websiteName := Some(val));
      }
    }
    assert flags[..|flags|] == flags;
  }

  /** The four fields, or the `KeyError` for the first of them that was not given. */
  function FieldsOf(f: Flags): Result<Fields, string>
  {
    if f.collateFn.None? then Err("collate_fn")
    else if f.datasetClass.None? then Err("dataset_class")
    else if f.dirName.None? then Err("dir_name")
    else if f.websiteName.None? then Err("website_name")
    else Ok(Fields(f.collateFn.value, f.datasetClass.value, f.dirName.value, f.websiteName.value))
  }

  function Names(ds: seq<Dataset>): (r: seq<Option<string>>)
    ensures |r| == |ds| && forall i :: 0 <= i < |ds| ==> r[i] == ds[i].name
  {
    if ds == [] then [] else [ds[0].name] + Names(ds[1..])
  }

  /** The list after the script: the first dataset with the name gets the four fields
      and keeps its zoom levels; without one, a new dataset with zoom levels -1 goes
      last. */
  function Upserted(ds: seq<Dataset>, name: Option<string>, fields: Fields): seq<Dataset>
  {
    if ds == [] then [Dataset(name, fields.collateFn, -1, fields.datasetClass, fields.dirName, fields.websiteName)]
    else if ds[0].name == name then
      [ds[0].(collateFn := fields.collateFn, datasetClass := fields.datasetClass,
              dirName := fields.dirName, websiteName := fields.websiteName)] + ds[1..]
    else [ds[0]] + Upserted(ds[1..], name, fields)
  }

  function Written(d: Dataset, fields: Fields): bool
  {
    d.collateFn == fields.collateFn && d.datasetClass == fields.datasetClass &&
    d.dirName == fields.dirName && d.websiteName == fields.websiteName
  }

  /** The names keep their order, and the list grows by the new name exactly when the
      name was absent. */
  lemma {:induction false} UpsertedNames(ds: seq<Dataset>, name: Option<string>, fields: Fields)
    ensures Names(Upserted(ds, name, fields)) == if name in Names(ds) then Names(ds) else Names(ds) + [name]
  {
    if ds != [] {
      UpsertedNames(ds[1..], name, fields);
      var r := Upserted(ds, name, fields);
      assert Names(ds) == [ds[0].name] + Names(ds[1..]);
      assert Names(r) == [r[0].name] + Names(r[1..]);
      if ds[0].name != name {
        assert r[1..] == Upserted(ds[1..], name, fields);
        assert name in Names(ds) <==> name in Names(ds[1..]);
      }
    }
  }

  /** A new name is appended with the fields and zoom levels -1, after the untouched
      list. */
  lemma {:induction false} UpsertedAppends(ds: seq<Dataset>, name: Option<string>, fields: Fields)
    requires name !in Names(ds)
    ensures var r := Upserted(ds, name, fields);
      |r| == |ds| + 1 && r[..|ds|] == ds && Written(r[|ds|], fields) && r[|ds|].zoomLevels == -1 &&
      r[|ds|].name == name
  {
    if ds != [] {
      assert Names(ds) == [ds[0].name] + Names(ds[1..]);
      UpsertedAppends(ds[1..], name, fields);
      var rest := Upserted(ds[1..], name, fields);
      assert Upserted(ds, name, fields) == [ds[0]] + rest;
      assert ([ds[0]] + rest)[..|ds|] == [ds[0]] + rest[..|ds| - 1];
      assert ds == [ds[0]] + ds[1..];
    }
  }

  /** The first dataset with the name gets the fields and keeps its zoom levels; every
      other dataset is unchanged. */
  lemma {:induction false} UpsertedUpdatesFirst(ds: seq<Dataset>, name: Option<string>, fields: Fields, i: nat)
    requires i < |ds| && ds[i].name == name && forall j :: 0 <= j < i ==> ds[j].name != name
    ensures var r := Upserted(ds, name, fields);
      |r| == |ds| && Written(r[i], fields) && r[i].zoomLevels == ds[i].zoomLevels && r[i].name == name &&
      forall j :: 0 <= j < |ds| && j != i ==> r[j] == ds[j]
  {
    if i > 0 {
      UpsertedUpdatesFirst(ds[1..], name, fields, i - 1);
      var r := Upserted(ds, name, fields);
      assert r == [ds[0]] + Upserted(ds[1..], name, fields);
    }
  }

  /** Names that were distinct stay distinct. */
  lemma UpsertedNoDup(ds: seq<Dataset>, name: Option<string>, fields: Fields)
    requires NoDup(Names(ds))
    ensures NoDup(Names(Upserted(ds, name, fields)))
  {
    UpsertedNames(ds, name, fields);
    if name !in Names(ds) {
      NoDupConcat(Names(ds), [name]);
    }
  }

  /** Running the script twice with the same flags leaves the list of running it once. */
  lemma {:induction false} UpsertedIdempotent(ds: seq<Dataset>, name: Option<string>, fields: Fields)
    ensures Upserted(Upserted(ds, name, fields), name, fields) == Upserted(ds, name, fields)
  {
    if ds != [] && ds[0].name != name {
      UpsertedIdempotent(ds[1..], name, fields);
    }
  }

  /** The contents of `datasets.json`, updated in place. */
  class DatasetsFile {
    var datasets: seq<Dataset>

    constructor (datasets: seq<Dataset>)
      ensures this.datasets == datasets
    {
      this.datasets := datasets;
    }

    /** Adds the dataset named by the flags or updates the first one with that name. A
        missing field raises a `KeyError` before the file is written, so the list on disk
        stays as it was. */
    method AddDataset(f: Flags) returns (r: Result<(), string>)
      modifies this
      ensures r.Err? <==> FieldsOf(f).Err?
      ensures r.Err? ==> r.error == FieldsOf(f).error && datasets == old(datasets)
      ensures r.Ok? ==> datasets == Upserted(old(datasets), f.dataset, FieldsOf(f).value)
    {
      var fields := FieldsOf(f);
      if fields.Err? {
        return Err(fields.error);
      }
      var i := 0;
      while i < |datasets|
        invariant 0 <= i <= |datasets| && datasets == old(datasets)
        invariant Upserted(datasets, f.dataset, fields.value) ==
          datasets[..i] + Upserted(datasets[i..], f.dataset, fields.value)
      {
        if datasets[i].name == f.dataset {
          var d := datasets[i];
          datasets := datasets[i := d.(collateFn := fields.value.collateFn, datasetClass := fields.value.datasetClass,
                                       dirName := fields.value.dirName, websiteName := fields.value.websiteName)];
          assert datasets == old(datasets)[..i] + Upserted(old(datasets)[i..], f.dataset, fields.value);
          return Ok(());
        }
        assert datasets[i..] == [datasets[i]] + datasets[i + 1..];
        assert datasets[..i + 1] == datasets[..i] + [datasets[i]];
        i := i + 1;
      }
      assert datasets[i..] == [];
      datasets := datasets + [Dataset(f.dataset, fields.value.collateFn, -1, fields.value.datasetClass,
                                      fields.value.dirName, fields.value.websiteName)];
      return Ok(());
    }
  }
}
