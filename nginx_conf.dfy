/** The nginx configuration kept as JSON (`backend/src/dataset_creation/generate_nginx_conf.py`
    and `add_location.py`): the JSON tree is printed as nginx directives, and a location
    for a new dataset is added to every `locations` block. A JSON object is a list of
    key/value pairs in insertion order with distinct keys; a scalar is kept as the text
    `str()` gives it. */
module NginxConf {
  import opened Wrappers
  import opened Strings

  datatype Conf = Dict(entries: seq<(string, Conf)>) | Leaf(text: string)

  /** `"    " * level`. */
  function Indent(level: nat): (r: string)
    ensures |r| == 4 * level && forall c :: c in r ==> c == ' '
  {
    seq(4 * level, _ => ' ')
  }

  /** The printed key: a leading digit is dropped. */
  function KeyText(key: string): (r: string)
    requires key != []
    ensures if IsDigit(key[0]) then r == key[1..] else r == key
  {
    if IsDigit(key[0]) then key[1..] else key
  }

  function Prefix(location: bool): string
  {
    if location then "location " else ""
  }

  // ---------------------------------------------------------------------------------
  // recursive_parse

  /** The objects `recursive_parse` prints without an exception: keys are non-empty
      (`key[0]`), an object that is not a `locations` block has a first key, and an object
      whose first key starts with `_` has no other key (the `assert`). */
  predicate PrintableEntries(es: seq<(string, Conf)>)
    decreases es, 1
  {
    forall i :: 0 <= i < |es| ==> PrintableEntry(es[i])
  }

  predicate PrintableEntry(e: (string, Conf))
    decreases e, 0
  {
    e.0 != [] &&
    match e.1
    case Leaf(_) => true
    case Dict(children) =>
      if KeyText(e.0) == "locations" then PrintableEntries(children)
      else if children == [] then false
      else if children[0].0 != [] && children[0].0[0] == '_' then
        |children| == 1 && (children[0].1.Dict? ==> PrintableEntries(children[0].1.entries))
      else PrintableEntries(children)
  }

  /** The lines printed for an object at `level`, with `location ` before each key when
      the object is a `locations` block. */
  function DictLines(es: seq<(string, Conf)>, level: nat, location: bool): seq<string>
    requires PrintableEntries(es)
    decreases es, 1
  {
    if es == [] then [] else EntryLines(es[0], level, location) + DictLines(es[1..], level, location)
  }

  function EntryLines(e: (string, Conf), level: nat, location: bool): seq<string>
    requires PrintableEntry(e)
    decreases e, 0
  {
    var key := KeyText(e.0);
    var head := Indent(level) + Prefix(location) + key;
    match e.1
    case Leaf(text) => [head + " " + text + ";"]
    case Dict(children) =>
      if key == "locations" then DictLines(children, level, true)
      else if !(children[0].0 != [] && children[0].0[0] == '_') then
        [head + " {"] + DictLines(children, level + 1, false) + [Indent(level) + "}"]
      else
        var name := children[0].0[1..];
        match children[0].1
        case Dict(inner) => [head + " " + name + " {"] + DictLines(inner, level + 1, false) + [Indent(level) + "}"]
        case Leaf(text) => [head + " " + name + " " + text + ";"]
  }

  predicate EndsWith(line: string, c: char)
  {
    line != [] && line[|line| - 1] == c
  }

  /** Blocks opened minus blocks closed. */
  function Depth(lines: seq<string>): int
  {
    if lines == [] then 0
    else Depth(lines[..|lines| - 1]) + Step(lines[|lines| - 1])
  }

  function Step(line: string): int
  {
    if EndsWith(line, '{') then 1 else if EndsWith(line, '}') then -1 else 0
  }

  /** Every block is closed, and never before it is opened. */
  predicate Balanced(lines: seq<string>)
  {
    Depth(lines) == 0 && forall k :: 0 <= k <= |lines| ==> Depth(lines[..k]) >= 0
  }

  /** Every line is a directive `...;`, a block opening `... {` or a block closing `}`. */
  predicate Directives(lines: seq<string>)
  {
    forall line :: line in lines ==> EndsWith(line, ';') || EndsWith(line, '{') || EndsWith(line, '}')
  }

  lemma {:induction false} DepthConcat(a: seq<string>, b: seq<string>)
    ensures Depth(a + b) == Depth(a) + Depth(b)
  {
    if b != [] {
      assert (a + b)[..|a + b| - 1] == a + b[..|b| - 1];
      DepthConcat(a, b[..|b| - 1]);
    } else {
      assert a + b == a;
    }
  }

  lemma BalancedConcat(a: seq<string>, b: seq<string>)
    requires Balanced(a) && Balanced(b)
    ensures Balanced(a + b)
  {
    DepthConcat(a, b);
    forall k | 0 <= k <= |a + b|
      ensures Depth((a + b)[..k]) >= 0
    {
      if k <= |a| {
        assert (a + b)[..k] == a[..k];
      } else {
        assert (a + b)[..k] == a + b[..k - |a|];
        DepthConcat(a, b[..k - |a|]);
      }
    }
  }

  lemma BalancedWrap(open: string, b: seq<string>, close: string)
    requires EndsWith(open, '{') && EndsWith(close, '}') && !EndsWith(close, '{') && Balanced(b)
    ensures Balanced([open] + b + [close])
  {
    var lines := [open] + b + [close];
    assert lines[..|lines| - 1] == [open] + b;
    DepthConcat([open], b);
    assert [open][..0] == [];
    assert Depth([open]) == 1;
    assert Step(close) == -1;
    assert Depth(lines) == 0;
    forall k | 0 <= k <= |lines|
      ensures Depth(lines[..k]) >= 0
    {
      if k == 0 {
        assert lines[..k] == [];
      } else if k <= |b| + 1 {
        assert lines[..k] == [open] + b[..k - 1];
        DepthConcat([open], b[..k - 1]);
      } else {
        assert lines[..k] == lines;
      }
    }
  }

  lemma BalancedLeaf(line: string)
    requires EndsWith(line, ';')
    ensures Balanced([line])
  {
    assert [line][..0] == [];
    assert [line][..1] == [line];
  }

  /** Balanced, made of directives, and indented at least to `level`. */
  predicate WellFormedAt(lines: seq<string>, level: nat)
  {
    Balanced(lines) && Directives(lines) && forall line :: line in lines ==> Indent(level) <= line
  }

  /** The printed configuration opens and closes its blocks in matching pairs, every line
      is a directive, an opening or a closing, and every line is indented at least to the
      object's level. */
  lemma {:induction false} DictLinesWellFormed(es: seq<(string, Conf)>, level: nat, location: bool)
    requires PrintableEntries(es)
    ensures WellFormedAt(DictLines(es, level, location), level)
    decreases es, 1
  {
    if es == [] {
      var none: seq<string> := [];
      assert DictLines(es, level, location) == none;
      assert none[..0] == none;
    } else {
      EntryLinesWellFormed(es[0], level, location);
      DictLinesWellFormed(es[1..], level, location);
      BalancedConcat(EntryLines(es[0], level, location), DictLines(es[1..], level, location));
    }
  }

  lemma {:induction false} EntryLinesWellFormed(e: (string, Conf), level: nat, location: bool)
    requires PrintableEntry(e)
    ensures WellFormedAt(EntryLines(e, level, location), level)
    decreases e, 0
  {
    var key := KeyText(e.0);
    var head := Indent(level) + Prefix(location) + key;
    match e.1
    case Leaf(text) =>
      DirectiveWellFormed(level, head + " " + text + ";");
    case Dict(children) =>
      if key == "locations" {
        DictLinesWellFormed(children, level, true);
      } else if !(children[0].0 != [] && children[0].0[0] == '_') {
        DictLinesWellFormed(children, level + 1, false);
        BlockWellFormed(level, head + " {", DictLines(children, level + 1, false));
      } else {
        var name := children[0].0[1..];
        match children[0].1
        case Dict(inner) =>
          DictLinesWellFormed(inner, level + 1, false);
          BlockWellFormed(level, head + " " + name + " {", DictLines(inner, level + 1, false));
        case Leaf(text) =>
          DirectiveWellFormed(level, head + " " + name + " " + text + ";");
      }
  }

  lemma DirectiveWellFormed(level: nat, line: string)
    requires Indent(level) <= line && EndsWith(line, ';')
    ensures WellFormedAt([line], level)
  {
    BalancedLeaf(line);
  }

  lemma BlockWellFormed(level: nat, open: string, body: seq<string>)
    requires Indent(level) <= open && EndsWith(open, '{') && WellFormedAt(body, level + 1)
    ensures WellFormedAt([open] + body + [Indent(level) + "}"], level)
  {
    var close := Indent(level) + "}";
    Closing(level);
    BalancedWrap(open, body, close);
    WrapIndented(level, open, body, close);
  }

  lemma IndentGrows(level: nat)
    ensures Indent(level) <= Indent(level + 1)
  {
  }

  lemma Closing(level: nat)
    ensures EndsWith(Indent(level) + "}", '}') && !EndsWith(Indent(level) + "}", '{')
  {
  }

  lemma WrapIndented(level: nat, open: string, b: seq<string>, close: string)
    requires Indent(level) <= open && Indent(level) <= close
    requires forall line :: line in b ==> Indent(level + 1) <= line
    ensures forall line :: line in [open] + b + [close] ==> Indent(level) <= line
  {
    forall line | line in b
      ensures Indent(level) <= line
    {
      assert Indent(level + 1)[..4 * level] == Indent(level);
    }
  }

  // ---------------------------------------------------------------------------------
  // add_location

  /** The parsed command line of `add_location.py`; `name` is absent when no `-n` flag
      was given. */
  datatype NewLocation = NewLocation(name: Option<string>, directory: string, resized: bool)

  function LowerText(s: string): (r: string)
    ensures |r| == |s| && forall i :: 0 <= i < |s| ==> r[i] == Lower(s[i])
  {
    if s == [] then [] else [Lower(s[0])] + LowerText(s[1..])
  }

  /** The new location after one flag; an `-r` value other than y or n (in either case)
      is an error. */
  function ApplyFlag(loc: NewLocation, flag: (string, string)): Result<NewLocation, string>
  {
    var (arg, val) := flag;
    if arg == "-n" || arg == "--name" then Ok(loc.(name := Some(val)))
    else if arg == "-d" || arg == "--directory" then Ok(loc.(directory := val))
    else if arg == "-r" || arg == "--resized" then
      if LowerText(val) == "y" then Ok(loc.(resized := true))
      else if LowerText(val) == "n" then Ok(loc.(resized := false))
      else Err("resized must be y or n.")
    else Ok(loc)
  }

  /** The flags applied in order, stopping at the first error. */
  function ParsedFlags(flags: seq<(string, string)>): Result<NewLocation, string>
  {
    if flags == [] then Ok(NewLocation(None, "", false))
    else match ParsedFlags(flags[..|flags| - 1])
      case Err(e) => Err(e)
      case Ok(loc) => ApplyFlag(loc, flags[|flags| - 1])
  }

  predicate IsResizedFlag(arg: string)
  {
    arg == "-r" || arg == "--resized"
  }

  predicate BadResized(flag: (string, string))
  {
    IsResizedFlag(flag.0) && LowerText(flag.1) != "y" && LowerText(flag.1) != "n"
  }

  /** Parsing fails exactly when some `-r` value is neither y nor n; otherwise the last
      `-r` flag decides whether the images are resized (not resized without one), and the
      last `-n` flag gives the name. */
  lemma ParsedFlagsMeaning(flags: seq<(string, string)>)
    ensures ParsedFlags(flags).Err? <==> exists i :: 0 <= i < |flags| && BadResized(flags[i])
    ensures ParsedFlags(flags).Ok? ==>
      var loc := ParsedFlags(flags).value;
      (loc.resized <==> exists i :: 0 <= i < |flags| && IsResizedFlag(flags[i].0) && LowerText(flags[i].1) == "y" &&
                          forall j :: i < j < |flags| ==> !IsResizedFlag(flags[j].0)) &&
      (loc.name.None? <==> forall i :: 0 <= i < |flags| ==> flags[i].0 != "-n" && flags[i].0 != "--name")
  {
    ParsedFlagsFail(flags);
    ParsedFlagsResized(flags);
    ParsedFlagsName(flags);
  }

  lemma {:induction false} ParsedFlagsFail(flags: seq<(string, string)>)
    ensures ParsedFlags(flags).Err? <==> exists i :: 0 <= i < |flags| && BadResized(flags[i])
  {
    if flags != [] {
      var init := flags[..|flags| - 1];
      ParsedFlagsFail(init);
      assert forall i :: 0 <= i < |init| ==> init[i] == flags[i];
    }
  }

  lemma {:induction false} ParsedFlagsResized(flags: seq<(string, string)>)
    ensures ParsedFlags(flags).Ok? ==>
      (ParsedFlags(flags).value.resized <==>
         exists i :: 0 <= i < |flags| && IsResizedFlag(flags[i].0) && LowerText(flags[i].1) == "y" &&
                     forall j :: i < j < |flags| ==> !IsResizedFlag(flags[j].0))
  {
    if flags != [] {
      var init := flags[..|flags| - 1];
      var last := flags[|flags| - 1];
      ParsedFlagsResized(init);
      assert forall i :: 0 <= i < |init| ==> init[i] == flags[i];
      if ParsedFlags(init).Ok? && ParsedFlags(flags).Ok? {
        var before := ParsedFlags(init).value;
        var loc := ParsedFlags(flags).value;
        if IsResizedFlag(last.0) {
          assert loc.resized <==> LowerText(last.1) == "y";
        } else {
          assert loc.resized == before.resized;
          if loc.resized {
            var i :| 0 <= i < |init| && IsResizedFlag(init[i].0) && LowerText(init[i].1) == "y" &&
              forall j :: i < j < |init| ==> !IsResizedFlag(init[j].0);
            assert IsResizedFlag(flags[i].0) && LowerText(flags[i].1) == "y" &&
              forall j :: i < j < |flags| ==> !IsResizedFlag(flags[j].0);
          }
        }
      }
    }
  }

  lemma {:induction false} ParsedFlagsName(flags: seq<(string, string)>)
    ensures ParsedFlags(flags).Ok? ==>
      (ParsedFlags(flags).value.name.None? <==> forall i :: 0 <= i < |flags| ==> flags[i].0 != "-n" && flags[i].0 != "--name")
  {
    if flags != [] {
      var init := flags[..|flags| - 1];
      ParsedFlagsName(init);
      assert forall i :: 0 <= i < |init| ==> init[i] == flags[i];
    }
  }

  /** `parsing`: the getopt pairs checked one by one. */
  method Parsing(flags: seq<(string, string)>) returns (r: Result<NewLocation, string>)
    ensures r == ParsedFlags(flags)
  {
    var loc := NewLocation(None, "", false);
    for i := 0 to |flags|
      invariant ParsedFlags(flags[..i]) == Ok(loc)
    {
      assert flags[..i + 1][..i] == flags[..i];
      var (arg, val) := flags[i];
      if arg == "-n" || arg == "--name" {
        loc := loc.(name := Some(val));
      } else if arg == "-d" || arg == "--directory" {
        loc := loc.(directory := val);
      } else if arg == "-r" || arg == "--resized" {
        var lowered := LowerText(val);
        if lowered == "y" {
          loc := loc.(resized := true);
        } else if lowered == "n" {
          loc := loc.(resized := false);
        } else {
          assert ParsedFlags(flags[..i + 1]) == Err("resized must be y or n.");
          ParsedFlagsStops(flags, i + 1);
          return Err("resized must be y or n.");
        }
      }
    }
    assert flags[..|flags|] == flags;
    return Ok(loc);
  }

  /** The value under `key`, the first pair with that key. */
  function Lookup(es: seq<(string, Conf)>, key: string): Option<Conf>
  {
    if es == [] then None else if es[0].0 == key then Some(es[0].1) else Lookup(es[1..], key)
  }

  function Keys(es: seq<(string, Conf)>): (r: seq<string>)
    ensures |r| == |es| && forall i :: 0 <= i < |es| ==> r[i] == es[i].0
  {
    if es == [] then [] else [es[0].0] + Keys(es[1..])
  }

  /** `d[key] = v`: an existing key keeps its place, a new one goes last. */
  function Assign(es: seq<(string, Conf)>, key: string, v: Conf): seq<(string, Conf)>
  {
    if es == [] then [(key, v)]
    else if es[0].0 == key then [(key, v)] + es[1..]
    else [es[0]] + Assign(es[1..], key, v)
  }

  /** After an assignment the key holds the value, every other key holds what it held,
      and the keys keep their order, the new key last. */
  lemma {:induction false} AssignMeaning(es: seq<(string, Conf)>, key: string, v: Conf)
    ensures Lookup(Assign(es, key, v), key) == Some(v)
    ensures forall k :: k != key ==> Lookup(Assign(es, key, v), k) == Lookup(es, k)
    ensures Keys(Assign(es, key, v)) == if key in Keys(es) then Keys(es) else Keys(es) + [key]
  {
    if es != [] {
      AssignMeaning(es[1..], key, v);
      assert Keys(es) == [es[0].0] + Keys(es[1..]);
      if es[0].0 != key {
        assert Keys(Assign(es, key, v)) == [es[0].0] + Keys(Assign(es[1..], key, v));
      }
    }
  }

  /** Assigning the same value twice is assigning it once. */
  lemma {:induction false} AssignTwice(es: seq<(string, Conf)>, key: string, v: Conf)
    ensures Assign(Assign(es, key, v), key, v) == Assign(es, key, v)
  {
    if es != [] && es[0].0 != key {
      AssignTwice(es[1..], key, v);
    }
  }

  function Path(name: string): string
  {
    "/" + name + "/"
  }

  /** The location block added for a dataset: the CORS header, the rewrite of
      `resized_images` paths when there is no resized directory, and the alias. */
  function LocationBlock(name: string, directory: string, resized: bool): Conf
  {
    var header := ("add_header", Leaf("Access-Control-Allow-Origin *"));
    var alias := ("alias", Leaf("/usr/share/nginx/" + directory + "/"));
    if !resized then
      Dict([header, ("rewrite", Leaf("(.*)/" + name + "/resized_images/(.*)$ $1/" + name + "/$2")), alias])
    else Dict([header, alias])
  }

  /** The block always sends the CORS header and aliases the dataset's directory; it
      rewrites paths exactly when the images are not resized. */
  lemma LocationBlockMeaning(name: string, directory: string, resized: bool)
    ensures var b := LocationBlock(name, directory, resized);
      b.Dict? &&
      Lookup(b.entries, "add_header") == Some(Leaf("Access-Control-Allow-Origin *")) &&
      Lookup(b.entries, "alias") == Some(Leaf("/usr/share/nginx/" + directory + "/")) &&
      (Lookup(b.entries, "rewrite").Some? <==> !resized)
  {
    var b := LocationBlock(name, directory, resized);
    assert "add_header"[0] != "rewrite"[0] && "add_header"[1] != "alias"[1] && "alias"[0] != "rewrite"[0];
    var rest := b.entries[1..];
    assert Lookup(b.entries, "alias") == Lookup(rest, "alias");
    assert Lookup(b.entries, "rewrite") == Lookup(rest, "rewrite");
    if !resized {
      assert Lookup(rest, "alias") == Lookup(rest[1..], "alias");
    } else {
      assert Lookup(rest, "rewrite") == Lookup(rest[1..], "rewrite");
      assert rest[1..] == [];
    }
  }

  /** `recursive_search_of_locations` on one object: every `locations` object reached
      through objects other than `locations` gets the new block. */
  function AddLocation(es: seq<(string, Conf)>, name: string, block: Conf): seq<(string, Conf)>
    decreases es, 1
  {
    if es == [] then [] else [AddToEntry(es[0], name, block)] + AddLocation(es[1..], name, block)
  }

  function AddToEntry(e: (string, Conf), name: string, block: Conf): (string, Conf)
    decreases e, 0
  {
    match e.1
    case Leaf(_) => e
    case Dict(children) =>
      if e.0 == "locations" then (e.0, Dict(Assign(children, Path(name), block)))
      else (e.0, Dict(AddLocation(children, name, block)))
  }

  /** Every `locations` object reachable without passing through another one maps the
      path to `block`. */
  predicate Serves(es: seq<(string, Conf)>, name: string, block: Conf)
    decreases es, 1
  {
    forall i :: 0 <= i < |es| ==> EntryServes(es[i], name, block)
  }

  predicate EntryServes(e: (string, Conf), name: string, block: Conf)
    decreases e, 0
  {
    e.1.Dict? ==>
      if e.0 == "locations" then Lookup(e.1.entries, Path(name)) == Some(block)
      else Serves(e.1.entries, name, block)
  }

  /** After the search every reachable `locations` object serves the new path, the
      object keeps its keys in order, and scalar values are untouched. */
  lemma {:induction false} AddLocationServes(es: seq<(string, Conf)>, name: string, block: Conf)
    ensures Serves(AddLocation(es, name, block), name, block)
    ensures Keys(AddLocation(es, name, block)) == Keys(es)
    ensures forall i :: 0 <= i < |es| && es[i].1.Leaf? ==> AddLocation(es, name, block)[i] == es[i]
    decreases es, 1
  {
    if es != [] {
      AddToEntryServes(es[0], name, block);
      AddLocationServes(es[1..], name, block);
      var r := AddLocation(es, name, block);
      assert r[1..] == AddLocation(es[1..], name, block);
      assert Keys(es) == [es[0].0] + Keys(es[1..]);
      assert Keys(r) == [r[0].0] + Keys(r[1..]);
    }
  }

  lemma {:induction false} AddToEntryServes(e: (string, Conf), name: string, block: Conf)
    ensures var u := AddToEntry(e, name, block);
      u.0 == e.0 && u.1.Dict? == e.1.Dict? && (e.1.Leaf? ==> u == e) && EntryServes(u, name, block)
    decreases e, 0
  {
    match e.1
    case Leaf(_) =>
    case Dict(children) =>
      if e.0 == "locations" {
        AssignMeaning(children, Path(name), block);
      } else {
        AddLocationServes(children, name, block);
      }
  }

  /** Once a flag fails, the later flags are not looked at. */
  lemma {:induction false} ParsedFlagsStops(flags: seq<(string, string)>, i: nat)
    requires i <= |flags| && ParsedFlags(flags[..i]).Err?
    ensures ParsedFlags(flags) == ParsedFlags(flags[..i])
    decreases |flags| - i
  {
    if i < |flags| {
      assert flags[..i + 1][..i] == flags[..i];
      ParsedFlagsStops(flags, i + 1);
    } else {
      assert flags[..i] == flags;
    }
  }

  /** Adding the same location twice gives the configuration of adding it once. */
  lemma {:induction false} AddLocationIdempotent(es: seq<(string, Conf)>, name: string, block: Conf)
    ensures AddLocation(AddLocation(es, name, block), name, block) == AddLocation(es, name, block)
    decreases es, 1
  {
    if es != [] {
      AddToEntryIdempotent(es[0], name, block);
      AddLocationIdempotent(es[1..], name, block);
      var once := AddLocation(es, name, block);
      assert once[0] == AddToEntry(es[0], name, block);
      assert once[1..] == AddLocation(es[1..], name, block);
    }
  }

  lemma {:induction false} AddToEntryIdempotent(e: (string, Conf), name: string, block: Conf)
    ensures AddToEntry(AddToEntry(e, name, block), name, block) == AddToEntry(e, name, block)
    decreases e, 0
  {
    match e.1
    case Leaf(_) =>
    case Dict(children) =>
      if e.0 == "locations" {
        AssignTwice(children, Path(name), block);
      } else {
        AddLocationIdempotent(children, name, block);
      }
  }

  /** The new block prints as an nginx location. */
  lemma BlockPrintable(name: string, directory: string, resized: bool)
    ensures PrintableEntry((Path(name), LocationBlock(name, directory, resized)))
  {
    assert KeyText(Path(name)) == Path(name);
    assert Path(name)[0] != "locations"[0];
  }

  lemma {:induction false} AssignPrintable(es: seq<(string, Conf)>, key: string, v: Conf)
    requires PrintableEntries(es) && PrintableEntry((key, v))
    ensures PrintableEntries(Assign(es, key, v))
  {
    if es != [] && es[0].0 != key {
      AssignPrintable(es[1..], key, v);
      assert Assign(es, key, v) == [es[0]] + Assign(es[1..], key, v);
    }
  }

  /** A configuration that `generate_nginx_conf.py` prints still prints after a location
      whose block prints is added. */
  lemma {:induction false} AddLocationPrintable(es: seq<(string, Conf)>, name: string, block: Conf)
    requires PrintableEntries(es) && PrintableEntry((Path(name), block))
    ensures PrintableEntries(AddLocation(es, name, block))
    decreases es, 1
  {
    if es != [] {
      AddToEntryPrintable(es[0], name, block);
      AddLocationPrintable(es[1..], name, block);
      assert AddLocation(es, name, block) == [AddToEntry(es[0], name, block)] + AddLocation(es[1..], name, block);
    }
  }

  lemma {:induction false} AddToEntryPrintable(e: (string, Conf), name: string, block: Conf)
    requires PrintableEntry(e) && PrintableEntry((Path(name), block))
    ensures PrintableEntry(AddToEntry(e, name, block))
    decreases e, 0
  {
    match e.1
    case Leaf(_) =>
    case Dict(children) =>
      if e.0 == "locations" {
        assert KeyText(e.0) == "locations";
        AssignPrintable(children, Path(name), block);
      } else {
        var updated := AddLocation(children, name, block);
        AddLocationServes(children, name, block);
        assert Keys(updated) == Keys(children);
        if KeyText(e.0) == "locations" || !(children[0].0 != [] && children[0].0[0] == '_') {
          AddLocationPrintable(children, name, block);
        } else {
          assert updated[0] == AddToEntry(children[0], name, block);
          assert updated[0].0 == children[0].0;
          assert children[0].0 != "locations";
          match children[0].1
          case Leaf(_) =>
          case Dict(inner) =>
            AddLocationPrintable(inner, name, block);
            assert updated[0].1 == Dict(AddLocation(inner, name, block));
        }
      }
  }
}
