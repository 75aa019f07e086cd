/** The request-time helpers of the server (`backend/src/app/dependencies.py`): the
    getters that hand out database collections by name and keep each collection loaded in
    memory while it is in use, the updater that registers collections created after start-up,
    and the parser of the comma-separated tile indexes the client sends. The database is
    abstract: the names of its collections are a parameter, and `load()`/`release()` are
    recorded as events. */
module Dependencies {
  import opened Wrappers
  import opened Seqs
  import opened Strings

  /** A call made on a collection of the database. */
  datatype Event = Load(name: string) | Release(name: string)

  /** The usage state of one collection: its counter and whether it is loaded in memory. */
  datatype Helper = Helper(counter: nat, loaded: bool)

  /** A collection as it is registered: counter 0, not loaded. */
  const Fresh := Helper(0, false)

  /** A collection is loaded exactly while its counter is positive. */
  predicate Consistent(h: Helper)
  {
    h.loaded <==> h.counter > 0
  }

  /** One step of the counter update for a collection: the queried one is loaded if its
      counter was 0 and its counter is set to the maximum; any other one is released if its
      counter was 1 and its counter is decremented down to 0. */
  function Touch(h: Helper, queried: bool, counterMax: nat): Helper
  {
    if queried then Helper(counterMax, if h.counter == 0 then true else h.loaded)
    else Helper(if h.counter > 0 then h.counter - 1 else 0, if h.counter == 1 then false else h.loaded)
  }

  /** The calls to `load()` and `release()` that step makes. */
  function TouchEvents(key: string, h: Helper, queried: bool): seq<Event>
  {
    if queried then (if h.counter == 0 then [Load(key)] else [])
    else (if h.counter == 1 then [Release(key)] else [])
  }

  /** The calls made by one pass of the counter update over `keys`. */
  function PassEvents(keys: seq<string>, cols: map<string, Helper>, name: string): seq<Event>
  {
    if keys == [] then []
    else
      var last := keys[|keys| - 1];
      PassEvents(keys[..|keys| - 1], cols, name) + (if last in cols then TouchEvents(last, cols[last], last == name) else [])
  }

  /** The collections after one pass of the counter update. */
  function Touched(cols: map<string, Helper>, name: string, counterMax: nat): map<string, Helper>
  {
    map k | k in cols :: Touch(cols[k], k == name, counterMax)
  }

  /** After a pass the queried collection's counter is the maximum, every other counter is
      one less (but not below 0), and every collection stays loaded exactly while its
      counter is positive. */
  lemma TouchedCounters(cols: map<string, Helper>, name: string, counterMax: nat)
    requires counterMax > 0 && AllConsistent(cols)
    ensures Touched(cols, name, counterMax).Keys == cols.Keys
    ensures name in cols ==> Touched(cols, name, counterMax)[name].counter == counterMax
    ensures forall k :: k in cols && k != name ==>
      Touched(cols, name, counterMax)[k].counter == if cols[k].counter > 0 then cols[k].counter - 1 else 0
    ensures AllConsistent(Touched(cols, name, counterMax))
  {
  }

  /** `release()` is called exactly on the other collections whose counter was 1, and
      `load()` exactly on the queried collection when its counter was 0. */
  lemma {:induction false} PassEventsMeaning(keys: seq<string>, cols: map<string, Helper>, name: string, k: string)
    requires forall k :: k in keys ==> k in cols
    ensures Release(k) in PassEvents(keys, cols, name) <==> k in keys && k != name && cols[k].counter == 1
    ensures Load(k) in PassEvents(keys, cols, name) <==> k in keys && k == name && cols[k].counter == 0
  {
    if keys != [] {
      var init, last := keys[..|keys| - 1], keys[|keys| - 1];
      assert keys == init + [last];
      PassEventsMeaning(init, cols, name, k);
    }
  }

  /** Each collection is named at most once by the calls of a pass over distinct keys. */
  lemma {:induction false} PassEventsDistinct(keys: seq<string>, cols: map<string, Helper>, name: string)
    requires NoDup(keys) && forall k :: k in keys ==> k in cols
    ensures NoDup(PassEvents(keys, cols, name))
  {
    if keys != [] {
      var init, last := keys[..|keys| - 1], keys[|keys| - 1];
      assert keys == init + [last];
      PassEventsDistinct(init, cols, name);
      forall e | e in PassEvents(init, cols, name)
        ensures e !in TouchEvents(last, cols[last], last == name)
      {
        PassEventsMeaning(init, cols, name, last);
      }
      NoDupConcat(PassEvents(init, cols, name), TouchEvents(last, cols[last], last == name));
    }
  }

  /** One more key adds the calls made on it. */
  lemma PassEventsStep(keys: seq<string>, i: nat, cols: map<string, Helper>, name: string,
                       start: seq<Event>, before: seq<Event>, after: seq<Event>)
    requires i < |keys| && keys[i] in cols
    requires before == start + PassEvents(keys[..i], cols, name)
    requires after == before + TouchEvents(keys[i], cols[keys[i]], keys[i] == name)
    ensures after == start + PassEvents(keys[..i + 1], cols, name)
  {
    assert keys[..i + 1][..i] == keys[..i];
  }

  /** The collections once the keys in `done` have been touched in a pass. */
  function TouchedKeys(cols: map<string, Helper>, done: seq<string>, name: string, counterMax: nat)
    : map<string, Helper>
  {
    map k | k in cols :: if k in done then Touch(cols[k], k == name, counterMax) else cols[k]
  }

  /** Touching the next key extends the done prefix by one. */
  lemma TouchedUpTo(keys: seq<string>, i: nat, cols: map<string, Helper>, name: string, counterMax: nat)
    requires NoDup(keys) && i < |keys| && keys[i] in cols
    ensures var before := TouchedKeys(cols, keys[..i], name, counterMax);
      keys[i] in before &&
      TouchedKeys(cols, keys[..i + 1], name, counterMax) ==
        before[keys[i] := Touch(before[keys[i]], keys[i] == name, counterMax)]
  {
    FreshKey(keys, i);
  }

  /** Once every key is done, the collections are those of a whole pass. */
  lemma TouchedAll(keys: seq<string>, cols: map<string, Helper>, name: string, counterMax: nat)
    requires Keyed(keys, cols)
    ensures TouchedKeys(cols, keys[..|keys|], name, counterMax) == Touched(cols, name, counterMax)
    ensures Keyed(keys, Touched(cols, name, counterMax))
  {
    assert keys[..|keys|] == keys;
  }

  /** Among distinct keys, the key at position `i` is not among the earlier ones. */
  lemma FreshKey(keys: seq<string>, i: nat)
    requires NoDup(keys) && i < |keys|
    ensures keys[i] !in keys[..i] && forall k :: k in keys[..i + 1] <==> k in keys[..i] || k == keys[i]
  {
    assert keys[..i + 1] == keys[..i] + [keys[i]];
  }

  /** The keys list the registered collections, each once. */
  ghost predicate Keyed(keys: seq<string>, cols: map<string, Helper>)
  {
    NoDup(keys) && forall k :: k in keys <==> k in cols
  }

  /** Every collection is loaded exactly while its counter is positive. */
  ghost predicate AllConsistent(cols: map<string, Helper>)
  {
    forall k :: k in cols ==> Consistent(cols[k])
  }

  /** A collection getter (`CollectionNameGetter` and its three subclasses, which differ
      only in the suffix of the collection names). `keys` lists the registered names in the
      order the dictionary holds them; `log` records the calls made on the database. */
  class CollectionNameGetter {
    const counterMax: nat
    var keys: seq<string>
    var collections: map<string, Helper>
    var log: seq<Event>

    ghost predicate Valid()
      reads this
    {
      counterMax > 0 && Keyed(keys, collections) && AllConsistent(collections)
    }

    /** Registers the collection of every listed dataset that the database holds. */
    constructor (datasetNames: seq<string>, suffix: string, database: set<string>, counterMax: nat)
      requires counterMax > 0
      ensures Valid() && this.counterMax == counterMax && log == []
      ensures keys == Registered([], Suffixed(datasetNames, suffix), database)
      ensures forall k :: k in collections ==> collections[k] == Fresh
    {
      this.counterMax := counterMax;
      keys := [];
      collections := map[];
      log := [];
      new;
      for i := 0 to |datasetNames|
        invariant Valid() && this.counterMax == counterMax && log == []
        invariant keys == Registered([], Suffixed(datasetNames[..i], suffix), database)
        invariant forall k :: k in collections ==> collections[k] == Fresh
      {
        assert Suffixed(datasetNames[..i + 1], suffix)
            == Suffixed(datasetNames[..i], suffix) + [datasetNames[i] + suffix];
        Register(datasetNames[i] + suffix, database);
      }
      assert datasetNames[..|datasetNames|] == datasetNames;
    }

    /** Adds a fresh entry for a collection the database holds and the getter does not
        know yet; anything else leaves the getter unchanged. */
    method Register(name: string, database: set<string>)
      requires Valid()
      modifies this
      ensures Valid() && log == old(log)
      ensures keys == if name in database && name !in old(keys) then old(keys) + [name] else old(keys)
      ensures collections == if name in database && name !in old(collections)
                             then old(collections)[name := Fresh] else old(collections)
    {
      if name in database && name !in collections {
        assert forall i :: 0 <= i < |keys| ==> keys[i] in keys;
        collections := collections[name := Fresh];
        keys := keys + [name];
      }
    }

    /** Registers the offered names one after the other. */
    method RegisterAll(names: seq<string>, database: set<string>)
      requires Valid()
      modifies this
      ensures Valid() && log == old(log)
      ensures keys == Registered(old(keys), names, database)
      ensures Grown(old(collections), collections)
    {
      for i := 0 to |names|
        invariant Valid() && log == old(log)
        invariant keys == Registered(old(keys), names[..i], database)
        invariant Grown(old(collections), collections)
      {
        assert names[..i + 1] == names[..i] + [names[i]];
        Register(names[i], database);
      }
      assert names[..|names|] == names;
    }

    /** The body of the loop of `update_counters` for one registered collection. */
    method UpdateOne(key: string, name: string)
      requires key in collections
      modifies this
      ensures keys == old(keys)
      ensures collections == old(collections)[key := Touch(old(collections)[key], key == name, counterMax)]
      ensures log == old(log) + TouchEvents(key, old(collections)[key], key == name)
    {
      var h := collections[key];
      var loaded := h.loaded;
      if key != name {
        if h.counter == 1 {
          log := log + [Release(key)];
          loaded := false;
        }
        collections := collections[key := Helper(if h.counter > 0 then h.counter - 1 else 0, loaded)];
      } else {
        if h.counter == 0 {
          log := log + [Load(key)];
          loaded := true;
        }
        collections := collections[key := Helper(counterMax, loaded)];
      }
    }

    /** `update_counters`: one pass over the registered collections in dictionary order. */
    method UpdateCounters(name: string)
      requires Keyed(keys, collections)
      modifies this
      ensures keys == old(keys) && Keyed(keys, collections)
      ensures collections == Touched(old(collections), name, counterMax)
      ensures log == old(log) + PassEvents(keys, old(collections), name)
    {
      ghost var cols := collections;
      assert collections == TouchedKeys(cols, keys[..0], name, counterMax);
      for i := 0 to |keys|
        invariant keys == old(keys) && cols == old(collections)
        invariant collections == TouchedKeys(cols, keys[..i], name, counterMax)
        invariant log == old(log) + PassEvents(keys[..i], cols, name)
      {
        ghost var before := log;
        assert keys[i] in cols;
        TouchedUpTo(keys, i, cols, name, counterMax);
        UpdateOne(keys[i], name);
        PassEventsStep(keys, i, cols, name, old(log), before, log);
      }
      TouchedAll(keys, cols, name, counterMax);
      assert keys[..|keys|] == keys;
    }

    /** `_call`: a registered collection is handed out after the counters are updated;
        an unknown name gives nothing and changes nothing. */
    method Call(name: string) returns (r: Option<string>)
      requires Valid()
      modifies this
      ensures Valid() && keys == old(keys)
      ensures r == if name in old(collections) then Some(name) else None
      ensures r.Some? ==> (collections == Touched(old(collections), name, counterMax) &&
                           log == old(log) + PassEvents(keys, old(collections), name))
      ensures r.None? ==> collections == old(collections) && log == old(log)
    {
      if name in collections {
        TouchedCounters(collections, name, counterMax);
        UpdateCounters(name);
        r := Some(name);
      } else {
        r := None;
      }
    }
  }

  /** The names of the datasets with a suffix appended. */
  function Suffixed(names: seq<string>, suffix: string): (r: seq<string>)
    ensures |r| == |names| && forall i :: 0 <= i < |names| ==> r[i] == names[i] + suffix
  {
    if names == [] then [] else Suffixed(names[..|names| - 1], suffix) + [names[|names| - 1] + suffix]
  }

  /** The registered names after offering `names` one by one, starting from `keys`. */
  function Registered(keys: seq<string>, names: seq<string>, database: set<string>): (r: seq<string>)
  {
    if names == [] then keys
    else
      var before := Registered(keys, names[..|names| - 1], database);
      var name := names[|names| - 1];
      if name in database && name !in before then before + [name] else before
  }

  /** Registration only appends, never repeats a name, and ends with exactly the known
      names plus the offered names the database holds. */
  lemma {:induction false} RegisteredFacts(keys: seq<string>, names: seq<string>, database: set<string>)
    requires NoDup(keys)
    ensures keys <= Registered(keys, names, database)
    ensures NoDup(Registered(keys, names, database))
    ensures forall k :: k in Registered(keys, names, database) <==> k in keys || (k in names && k in database)
  {
    if names != [] {
      var init, name := names[..|names| - 1], names[|names| - 1];
      RegisteredFacts(keys, init, database);
      var before := Registered(keys, init, database);
      if name in database && name !in before {
        NoDupConcat(before, [name]);
      }
      assert names == init + [name];
    }
  }

  /** An entry of the list of datasets. */
  datatype Dataset = Dataset(name: string, websiteName: string)

  function Names(datasets: seq<Dataset>): (r: seq<string>)
    ensures |r| == |datasets| && forall i :: 0 <= i < |datasets| ==> r[i] == datasets[i].name
  {
    if datasets == [] then [] else Names(datasets[..|datasets| - 1]) + [datasets[|datasets| - 1].name]
  }

  /** The datasets listed to the client: those whose collection the database holds, in
      list order. */
  function Listed(datasets: seq<Dataset>, database: set<string>): (r: seq<Dataset>)
    ensures |r| <= |datasets|
    ensures forall d :: d in r <==> d in datasets && d.name in database
  {
    if datasets == [] then []
    else
      var last := datasets[|datasets| - 1];
      assert datasets == datasets[..|datasets| - 1] + [last];
      Listed(datasets[..|datasets| - 1], database) + (if last.name in database then [last] else [])
  }

  /** `Updater`: keeps the three getters in step with the collections of the database. */
  class Updater {
    const datasetGetter: CollectionNameGetter
    const clustersGetter: CollectionNameGetter
    const imageToTileGetter: CollectionNameGetter
    var datasets: seq<Dataset>

    ghost predicate Valid()
      reads this, datasetGetter, clustersGetter, imageToTileGetter
    {
      datasetGetter != clustersGetter && datasetGetter != imageToTileGetter &&
      clustersGetter != imageToTileGetter &&
      datasetGetter.Valid() && clustersGetter.Valid() && imageToTileGetter.Valid()
    }

    /** The three getters are of three different classes in the source, so they are three
        objects. */
    constructor (datasetGetter: CollectionNameGetter, clustersGetter: CollectionNameGetter,
                 imageToTileGetter: CollectionNameGetter)
      requires datasetGetter != clustersGetter && datasetGetter != imageToTileGetter
      requires clustersGetter != imageToTileGetter
      requires datasetGetter.Valid() && clustersGetter.Valid() && imageToTileGetter.Valid()
      ensures Valid()
      ensures this.datasetGetter == datasetGetter && this.clustersGetter == clustersGetter
      ensures this.imageToTileGetter == imageToTileGetter && datasets == []
    {
      this.datasetGetter := datasetGetter;
      this.clustersGetter := clustersGetter;
      this.imageToTileGetter := imageToTileGetter;
      datasets := [];
    }

    /** `__call__`: re-reads the list of datasets, registers every collection that
        appeared in the database since, and lists the datasets whose collection exists.
        Entries are only added; nothing registered before changes. */
    method Refresh(list: seq<Dataset>, database: set<string>) returns (listed: seq<Dataset>)
      requires Valid()
      modifies this, datasetGetter, clustersGetter, imageToTileGetter
      ensures Valid() && datasets == list && listed == Listed(list, database)
      ensures datasetGetter.keys == Registered(old(datasetGetter.keys), Names(list), database)
      ensures clustersGetter.keys
           == Registered(old(clustersGetter.keys), Suffixed(Names(list), "_zoom_levels_clusters"), database)
      ensures imageToTileGetter.keys
           == Registered(old(imageToTileGetter.keys), Suffixed(Names(list), "_image_to_tile"), database)
      ensures Grown(old(datasetGetter.collections), datasetGetter.collections)
      ensures Grown(old(clustersGetter.collections), clustersGetter.collections)
      ensures Grown(old(imageToTileGetter.collections), imageToTileGetter.collections)
      ensures datasetGetter.log == old(datasetGetter.log) && clustersGetter.log == old(clustersGetter.log)
      ensures imageToTileGetter.log == old(imageToTileGetter.log)
    {
      datasets := list;
      var names := Names(list);
      datasetGetter.RegisterAll(names, database);
      // The second loop of the source offers both suffixed names of each dataset in turn;
      // the two getters are distinct, so offering all names to one and then to the other
      // ends in the same state.
      clustersGetter.RegisterAll(Suffixed(names, "_zoom_levels_clusters"), database);
      imageToTileGetter.RegisterAll(Suffixed(names, "_image_to_tile"), database);
      listed := Listed(list, database);
    }
  }

  /** `after` keeps every entry of `before` and adds only fresh ones. */
  ghost predicate Grown(before: map<string, Helper>, after: map<string, Helper>)
  {
    (forall k :: k in before ==> k in after && after[k] == before[k]) &&
    forall k :: k in after && k !in before ==> after[k] == Fresh
  }

  // ---------------------------------------------------------------------------------
  // The tile indexes of a request

  /** `[int(value) for value in fields]`: fails on the first field that is not a number. */
  function ParseFields(fields: seq<string>): (r: Option<seq<int>>)
    ensures r.Some? <==> forall i :: 0 <= i < |fields| ==> ParseInt(fields[i]).Some?
    ensures r.Some? ==> (|r.value| == |fields| &&
      forall i :: 0 <= i < |fields| ==> Some(r.value[i]) == ParseInt(fields[i]))
  {
    if fields == [] then Some([])
    else
      var init, last := fields[..|fields| - 1], fields[|fields| - 1];
      match (ParseFields(init), ParseInt(last))
      case (Some(xs), Some(x)) => Some(xs + [x])
      case _ => None
  }

  /** `parse_comma_separated`: the integers of a comma-separated list; an empty or
      non-numeric field is an error. */
  function ParseCommaSeparated(indexes: string): (r: Result<seq<int>, string>)
  {
    match ParseFields(Split(indexes, ','))
    case Some(xs) => Ok(xs)
    case None => Err("invalid literal for int()")
  }

  /** The texts of numbers, as the client writes them. */
  function Texts(xs: seq<int>): (r: seq<string>)
    ensures |r| == |xs| && forall i :: 0 <= i < |xs| ==> r[i] == NumberText(xs[i])
  {
    seq(|xs|, i requires 0 <= i < |xs| => NumberText(xs[i]))
  }

  /** The server reads back exactly the indexes the client joined with commas. */
  lemma ParseJoined(xs: seq<int>)
    requires |xs| >= 1
    ensures ParseCommaSeparated(Join(Texts(xs), ',')) == Ok(xs)
  {
    var texts := Texts(xs);
    forall t | t in texts
      ensures ',' !in t
    {
      var i :| 0 <= i < |texts| && texts[i] == t;
    }
    SplitJoin(texts, ',');
    ParseTexts(xs);
  }

  lemma ParseTexts(xs: seq<int>)
    ensures ParseFields(Texts(xs)) == Some(xs)
  {
    var texts := Texts(xs);
    forall i | 0 <= i < |xs|
      ensures ParseInt(texts[i]) == Some(xs[i])
    {
      ParseNumberText(xs[i]);
    }
    var r := ParseFields(texts);
    assert r.value == xs;
  }

  /** Whitespace around a field is ignored: `"1, 2"` reads as [1, 2]. */
  lemma SpacedListParsed()
    ensures ParseCommaSeparated("1, 2") == Ok([1, 2])
  {
    SpacedListSplit();
    var empty, space, x, y := "", " ", 1, 2;
    assert NumberText(x) == "1" && NumberText(y) == "2";
    ParseSpaced(empty, x, empty);
    ParseSpaced(space, y, empty);
    assert empty + NumberText(x) + empty == "1" && space + NumberText(y) + empty == " 2";
    ParsePair("1", " 2", x, y);
  }

  lemma ParsePair(f: string, g: string, x: int, y: int)
    requires ParseInt(f) == Some(x) && ParseInt(g) == Some(y)
    ensures ParseFields([f, g]) == Some([x, y])
  {
    var fields := [f, g];
    assert fields[0] == f && fields[1] == g;
    var r := ParseFields(fields);
    assert r.Some? && |r.value| == 2 && Some(r.value[0]) == ParseInt(f) && Some(r.value[1]) == ParseInt(g);
    assert r.value == [x, y];
  }

  lemma SpacedListSplit()
    ensures Split("1, 2", ',') == ["1", " 2"]
  {
    var s := "1, 2";
    assert s[1] == ',' && s[..1] == "1" && ',' !in s[..1];
    FirstIndexAt(s, ',', 1);
    assert s[2..] == " 2" && ',' !in s[2..];
  }

  /** A request with an empty field (an empty list, a doubled or trailing comma) is an
      error. */
  lemma EmptyFieldRejected(indexes: string)
    requires "" in Split(indexes, ',')
    ensures ParseCommaSeparated(indexes).Err?
  {
    var fields := Split(indexes, ',');
    var i :| 0 <= i < |fields| && fields[i] == "";
    assert ParseInt(fields[i]).None?;
  }
}
