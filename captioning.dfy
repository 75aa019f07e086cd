/** The image list the captioning script walks (`backend/src/captioning/captioning.py`):
    the files of a directory whose names start with a number, sorted by that number,
    optionally cut to a range, each reported with its position in the full list. The
    directory listing is a parameter; opening images and the captioning model are not
    part of this model. */
module Captioning {
  import opened Wrappers
  import opened Strings

  /** A directory entry. */
  datatype Entry = Entry(name: string, isDir: bool)

  /** The names of the entries that are not directories, in listing order. */
  function Files(entries: seq<Entry>): (files: seq<string>)
    ensures |files| <= |entries|
    ensures forall f :: f in files <==> exists e :: e in entries && !e.isDir && e.name == f
  {
    if entries == [] then []
    else
      var last := entries[|entries| - 1];
      assert entries == entries[..|entries| - 1] + [last];
      Files(entries[..|entries| - 1]) + (if last.isDir then [] else [last.name])
  }

  /** The loop of the constructor that keeps the non-directory entries. */
  method ListFiles(entries: seq<Entry>) returns (files: seq<string>)
    ensures files == Files(entries)
  {
    files := [];
    for i := 0 to |entries|
      invariant files == Files(entries[..i])
    {
      assert entries[..i + 1][..i] == entries[..i];
      if !entries[i].isDir {
        files := files + [entries[i].name];
      }
    }
    assert entries[..|entries|] == entries;
  }

  /** `name.split(sep)[0]`: the text before the first separator. */
  function Prefix(name: string, sep: char): (p: string)
    ensures p <= name && sep !in p
    ensures |p| < |name| ==> name[|p|] == sep
  {
    if name == [] then []
    else if name[0] == sep then []
    else [name[0]] + Prefix(name[1..], sep)
  }

  /** The sort key of a file: the number its name starts with. */
  function Key(name: string, sep: char): nat
  {
    DigitsValue(Prefix(name, sep))
  }

  /** The check the constructor runs on every file: the prefix is a number. */
  method CheckPrefixes(files: seq<string>, sep: char) returns (ok: bool)
    ensures ok <==> forall f :: f in files ==> AllDigits(Prefix(f, sep))
  {
    for i := 0 to |files|
      invariant forall k :: 0 <= k < i ==> AllDigits(Prefix(files[k], sep))
    {
      var p := Prefix(files[i], sep);
      var digits := |p| > 0;
      for j := 0 to |p|
        invariant digits <==> |p| > 0 && forall k :: 0 <= k < j ==> '0' <= p[k] <= '9'
      {
        if !('0' <= p[j] <= '9') {
          digits := false;
        }
      }
      if !digits {
        assert files[i] in files;
        assert !AllDigits(p) by {
          if |p| > 0 {
            var k :| 0 <= k < |p| && !('0' <= p[k] <= '9');
            assert p[k] in p;
          }
        }
        return false;
      }
      assert AllDigits(p) by {
        forall c | c in p
          ensures '0' <= c <= '9'
        {
          var k :| 0 <= k < |p| && p[k] == c;
        }
      }
    }
    return true;
  }

  predicate SortedBy<T>(s: seq<T>, key: T -> nat)
  {
    forall i, j :: 0 <= i < j < |s| ==> key(s[i]) <= key(s[j])
  }

  predicate SortedByKey(files: seq<string>, sep: char)
  {
    SortedBy(files, (f: string) => Key(f, sep))
  }

  /** Inserts `x` after every element whose key is not greater. */
  function Insert<T>(sorted: seq<T>, x: T, key: T -> nat): (r: seq<T>)
    requires SortedBy(sorted, key)
    ensures SortedBy(r, key) && multiset(r) == multiset(sorted) + multiset{x}
  {
    if sorted == [] then [x]
    else if key(sorted[0]) <= key(x) then
      var rest := Insert(sorted[1..], x, key);
      assert sorted == [sorted[0]] + sorted[1..];
      HeadBelow(sorted, x, rest, key);
      ConsSorted(sorted[0], rest, key);
      [sorted[0]] + rest
    else
      assert forall g :: g in sorted ==> key(x) <= key(g);
      ConsSorted(x, sorted, key);
      [x] + sorted
  }

  lemma HeadBelow<T>(sorted: seq<T>, x: T, rest: seq<T>, key: T -> nat)
    requires sorted != [] && SortedBy(sorted, key) && key(sorted[0]) <= key(x)
    requires multiset(rest) == multiset(sorted[1..]) + multiset{x}
    ensures forall g :: g in rest ==> key(sorted[0]) <= key(g)
  {
    forall g | g in rest
      ensures key(sorted[0]) <= key(g)
    {
      assert g in multiset(rest);
      if g != x {
        assert g in multiset(sorted[1..]);
        var k :| 0 <= k < |sorted[1..]| && sorted[1..][k] == g;
        assert sorted[k + 1] == g;
      }
    }
  }

  lemma ConsSorted<T>(h: T, rest: seq<T>, key: T -> nat)
    requires SortedBy(rest, key) && forall g :: g in rest ==> key(h) <= key(g)
    ensures SortedBy([h] + rest, key)
  {
    forall i, j | 0 <= i < j < |[h] + rest|
      ensures key(([h] + rest)[i]) <= key(([h] + rest)[j])
    {
      assert ([h] + rest)[j] == rest[j - 1];
      if i > 0 {
        assert ([h] + rest)[i] == rest[i - 1];
      } else {
        assert rest[j - 1] in rest;
      }
    }
  }

  /** `file_list.sort(key=...)`: the files ordered by the number their names start with. */
  method SortByKey(files: seq<string>, sep: char) returns (sorted: seq<string>)
    ensures SortedByKey(sorted, sep)
    ensures multiset(sorted) == multiset(files)
  {
    sorted := [];
    for i := 0 to |files|
      invariant SortedByKey(sorted, sep)
      invariant multiset(sorted) == multiset(files[..i])
    {
      assert files[..i + 1] == files[..i] + [files[i]];
      sorted := Insert(sorted, files[i], (f: string) => Key(f, sep));
    }
    assert files[..|files|] == files;
  }

  /** Python's reading of a slice bound on a list of length n. */
  function PyBound(i: int, n: nat): (b: nat)
    ensures b <= n
  {
    if i < 0 then (if n + i < 0 then 0 else n + i) else if i > n then n else i
  }

  /** `s[a:b]` with Python's slice semantics. */
  function PySlice<T>(s: seq<T>, a: int, b: int): seq<T>
  {
    var lo, hi := PyBound(a, |s|), PyBound(b, |s|);
    if lo <= hi then s[lo..hi] else []
  }

  class DatasetForImages {
    var start: int
    var fileList: seq<string>

    constructor (files: seq<string>)
      ensures start == 0 && fileList == files
    {
      start := 0;
      fileList := files;
    }

    /** `__getitem__`: the file at position idx of the current list, reported at position
        idx + start. */
    method GetItem(idx: int) returns (name: string, index: int)
      requires 0 <= idx < |fileList|
      ensures name == fileList[idx] && index == idx + start
    {
      name := fileList[idx];
      index := idx + start;
    }

    /** `do_slicing`. */
    method DoSlicing(s: int, e: int)
      modifies this
      ensures start == s && fileList == PySlice(old(fileList), s, e)
    {
      start := s;
      fileList := PySlice(fileList, s, e);
    }
  }

  /** The constructor: lists the files, rejects a name not starting with a number, and
      sorts the rest by that number. */
  method OpenDataset(entries: seq<Entry>, sep: char) returns (r: Result<DatasetForImages, string>)
    ensures r.Err? <==> exists f :: f in Files(entries) && !AllDigits(Prefix(f, sep))
    ensures r.Ok? ==> fresh(r.value) && r.value.start == 0
    ensures r.Ok? ==> SortedByKey(r.value.fileList, sep)
    ensures r.Ok? ==> multiset(r.value.fileList) == multiset(Files(entries))
  {
    var files := ListFiles(entries);
    var ok := CheckPrefixes(files, sep);
    if !ok {
      return Err("Filenames must start with a number.");
    }
    var sorted := SortByKey(files, sep);
    var ds := new DatasetForImages(sorted);
    return Ok(ds);
  }

  /** The checks `inference` makes on the requested range, as written: an end of -1 stands
      for the whole list. */
  function CheckRange(start: int, end: int, len: nat): (r: Result<(int, int), string>)
    ensures r.Ok? <==>
      (start < len && (end == -1 || end <= len) && start < (if end == -1 then len else end))
    ensures r.Ok? ==> r.value == (start, if end == -1 then len else end)
  {
    if start >= len then Err("Start index is out of range.")
    else
      var e := if end == -1 then len else end;
      if e > len then Err("End index is out of range.")
      else if start >= e then Err("Start index is greater than or equal to end index.")
      else Ok((start, e))
  }

  /** The checks with a negative start rejected as well. */
  function CheckRangeCorrected(start: int, end: int, len: nat): (r: Result<(int, int), string>)
    ensures r.Ok? <==> CheckRange(start, end, len).Ok? && start >= 0
    ensures r.Ok? ==> r == CheckRange(start, end, len)
  {
    if start < 0 then Err("Start index is out of range.") else CheckRange(start, end, len)
  }

  /** After an accepted range, every item of the cut list is reported at the position it
      has in the full list. */
  lemma ReportedIndexesCorrected(files: seq<string>, start: int, end: int)
    requires CheckRangeCorrected(start, end, |files|).Ok?
    ensures var (s, e) := CheckRangeCorrected(start, end, |files|).value;
      var cut := PySlice(files, s, e);
      |cut| == e - s && forall i :: 0 <= i < |cut| ==> cut[i] == files[i + s]
  {
  }

  /** As written, a negative start passes the checks, and the item at position 0 of the cut
      list is reported at position -1 although it is the last file. */
  lemma NegativeStartAsWritten(files: seq<string>)
    requires |files| >= 2
    ensures CheckRange(-1, -1, |files|) == Ok((-1, |files|))
    ensures PySlice(files, -1, |files|) == [files[|files| - 1]]
    ensures 0 + -1 != |files| - 1
  {
  }

  /** The item a data loader receives. */
  datatype Item<T> = Item(image: T, index: int)

  /** `collate_fn`: the images and the indexes of a batch as two parallel lists. */
  function Collate<T>(batch: seq<Item<T>>): (r: (seq<T>, seq<int>))
    ensures |r.0| == |batch| && |r.1| == |batch|
    ensures forall i :: 0 <= i < |batch| ==> r.0[i] == batch[i].image && r.1[i] == batch[i].index
  {
    (seq(|batch|, i requires 0 <= i < |batch| => batch[i].image),
     seq(|batch|, i requires 0 <= i < |batch| => batch[i].index))
  }

  /** Pairing the two lists again gives back the batch. */
  lemma CollateRoundTrip<T>(batch: seq<Item<T>>)
    ensures var (images, indexes) := Collate(batch);
      seq(|batch|, i requires 0 <= i < |batch| => Item(images[i], indexes[i])) == batch
  {
  }
}
