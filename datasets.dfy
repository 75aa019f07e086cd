/** Image metadata read from file names (`backend/src/db_utilities/datasets.py`): the
    image files of a dataset directory, the author of a BestArtworks image, and the genre,
    author, title and date of a WikiArt image. Opening the images is left out; the
    directory listing is a parameter. */
module Metadata {
  import opened Wrappers
  import opened Strings
  import opened Seqs

  // ---------------------------------------------------------------------------------
  // The file list

  /** A directory entry as `os.listdir` and `os.path.isdir` report it. */
  datatype Entry = Entry(name: string, isDir: bool)

  /** Whether an entry is an image of the dataset: a file other than the minimap. */
  predicate IsImage(e: Entry)
  {
    !e.isDir && e.name != "minimap.png" && e.name != "minimap.jpg"
  }

  function Kept(entries: seq<Entry>): seq<string>
  {
    if entries == [] then []
    else
      var last := entries[|entries| - 1];
      Kept(entries[..|entries| - 1]) + if IsImage(last) then [last.name] else []
  }

  /** The loop of `SupportDatasetForImages.__init__`. */
  method FileList(entries: seq<Entry>) returns (fileList: seq<string>)
    ensures fileList == Kept(entries)
  {
    fileList := [];
    for k := 0 to |entries|
      invariant fileList == Kept(entries[..k])
    {
      assert entries[..k + 1][..k] == entries[..k];
      if IsImage(entries[k]) {
        fileList := fileList + [entries[k].name];
      }
    }
    assert entries[..|entries|] == entries;
  }

  /** The file list holds exactly the names of the entries that are neither directories
      nor a minimap, and no more names than there are entries. */
  lemma {:induction false} KeptMeaning(entries: seq<Entry>)
    ensures |Kept(entries)| <= |entries|
    ensures forall f :: f in Kept(entries) <==> exists e :: e in entries && IsImage(e) && e.name == f
  {
    if entries != [] {
      var init := entries[..|entries| - 1];
      KeptMeaning(init);
      assert entries == init + [entries[|entries| - 1]];
    }
  }

  // ---------------------------------------------------------------------------------
  // Separators

  /** Every occurrence of `c` replaced by `d`. */
  function Replace(s: string, c: char, d: char): (r: string)
    ensures |r| == |s|
  {
    seq(|s|, i requires 0 <= i < |s| => if s[i] == c then d else s[i])
  }

  /** `d.join(s.split(c))` replaces every `c` by `d`. */
  lemma {:induction false} JoinSplitReplaces(s: string, c: char, d: char)
    ensures Join(Split(s, c), d) == Replace(s, c, d)
    decreases |s|
  {
    if c !in s {
      forall k | 0 <= k < |s|
        ensures Replace(s, c, d)[k] == s[k]
      {
        assert s[k] in s;
      }
    } else {
      var i := FirstIndex(s, c);
      var rest := s[i + 1..];
      JoinSplitReplaces(rest, c, d);
      assert Split(s, c) == [s[..i]] + Split(rest, c);
      assert Split(s, c)[1..] == Split(rest, c);
      assert Join(Split(s, c), d) == s[..i] + [d] + Join(Split(rest, c), d);
      ReplaceAt(s, c, d, i);
    }
  }

  /** Before its first `c` the text is unchanged; the `c` becomes `d`. */
  lemma ReplaceAt(s: string, c: char, d: char, i: nat)
    requires i < |s| && s[i] == c && c !in s[..i]
    ensures Replace(s, c, d) == s[..i] + [d] + Replace(s[i + 1..], c, d)
  {
    var r := s[..i] + [d] + Replace(s[i + 1..], c, d);
    forall k | 0 <= k < |s|
      ensures Replace(s, c, d)[k] == r[k]
    {
      if k < i {
        assert s[..i][k] == s[k];
      } else if k > i {
        assert s[i + 1..][k - i - 1] == s[k];
      }
    }
  }

  /** `s.removesuffix(suffix)`. */
  function RemoveSuffix(s: string, suffix: string): (r: string)
    ensures if |suffix| <= |s| && s[|s| - |suffix|..] == suffix then r + suffix == s else r == s
  {
    if |suffix| <= |s| && s[|s| - |suffix|..] == suffix then s[..|s| - |suffix|] else s
  }

  // ---------------------------------------------------------------------------------
  // BestArtworks

  /** `" ".join(name.split("-")[1].removesuffix(".jpg").split("_"))`; a name without `-`
      has no second field. */
  function BestArtworksAuthor(name: string): Result<string, string>
  {
    var fields := Split(name, '-');
    if |fields| < 2 then Err("list index out of range")
    else Ok(Join(Split(RemoveSuffix(fields[1], ".jpg"), '_'), ' '))
  }

  /** The text between the first and the second `-` (or the end). */
  function SecondField(name: string): string
    requires '-' in name
  {
    var rest := name[FirstIndex(name, '-') + 1..];
    if '-' in rest then rest[..FirstIndex(rest, '-')] else rest
  }

  /** The author is the second `-` field without `.jpg`, with every `_` made a space; a
      name without `-` is an error. */
  lemma BestArtworksAuthorMeaning(name: string)
    ensures BestArtworksAuthor(name).Ok? <==> '-' in name
    ensures '-' in name ==> BestArtworksAuthor(name) == Ok(Replace(RemoveSuffix(SecondField(name), ".jpg"), '_', ' '))
  {
    if '-' in name {
      var rest := name[FirstIndex(name, '-') + 1..];
      assert Split(name, '-')[1] == Split(rest, '-')[0];
      JoinSplitReplaces(RemoveSuffix(SecondField(name), ".jpg"), '_', ' ');
    }
  }

  /** For `number-author-rest` the author is the middle part with its `_` made spaces:
      a hyphen inside the painter's name ends it, so `2881-Henri_de_Toulouse-Lautrec.jpg`
      gives `Henri de Toulouse`. */
  lemma AuthorBeforeSecondHyphen(number: string, author: string, rest: string)
    requires '-' !in number && '-' !in author && !(|author| >= 4 && author[|author| - 4..] == ".jpg")
    ensures BestArtworksAuthor(number + "-" + author + "-" + rest) == Ok(Replace(author, '_', ' '))
  {
    var name := number + "-" + author + "-" + rest;
    assert name[|number|] == '-' && name[..|number|] == number;
    FirstIndexAt(name, '-', |number|);
    var tail := name[|number| + 1..];
    assert tail == author + "-" + rest;
    assert tail[|author|] == '-' && tail[..|author|] == author;
    FirstIndexAt(tail, '-', |author|);
    assert SecondField(name) == author;
    BestArtworksAuthorMeaning(name);
  }

  // ---------------------------------------------------------------------------------
  // WikiArt

  /** The metadata of a WikiArt image; `date` is -1 when the name has none. */
  datatype Artwork = Artwork(genre: string, author: string, title: string, date: int)

  /** `str.capitalize` on ASCII text: the first character upper case, the rest lower. */
  function Capitalize(s: string): (r: string)
    ensures |r| == |s|
  {
    if s == [] then [] else [Upper(s[0])] + seq(|s| - 1, i requires 0 <= i < |s| - 1 => Lower(s[i + 1]))
  }

  /** Capitalising twice changes nothing more. */
  lemma CapitalizeIdempotent(s: string)
    ensures Capitalize(Capitalize(s)) == Capitalize(s)
  {
    if s != [] {
      var r := Capitalize(s);
      assert Upper(r[0]) == r[0];
      forall i | 1 <= i < |s|
        ensures Lower(r[i]) == r[i]
      {
        assert r[i] == Lower(s[i]);
      }
    }
  }

  /** `" ".join(words)`, which is empty for no words. */
  function JoinWords(words: seq<string>): string
  {
    if words == [] then "" else Join(words, ' ')
  }

  /** `isdigit()` and four characters long: a year. */
  predicate IsYear(t: string)
  {
    AllDigits(t) && |t| == 4
  }

  /** The first pass over the title: a word followed by a standalone `s` gets `'s`. */
  function Possessive(words: seq<string>): (r: seq<string>)
    ensures |r| == |words|
  {
    seq(|words|, j requires 0 <= j < |words| =>
      if j + 1 < |words| && words[j + 1] == "s" then words[j] + "'s" else words[j])
  }

  /** The loop of the first pass, which rewrites the list in place. */
  method AttachS(words: seq<string>) returns (r: seq<string>)
    ensures r == Possessive(words)
  {
    r := words;
    for i := 0 to |words|
      invariant |r| == |words|
      invariant forall j {:trigger r[j]} :: 0 <= j < |r| ==>
        r[j] == if j + 1 < i && words[j + 1] == "s" then words[j] + "'s" else words[j]
    {
      if r[i] == "s" && i > 0 {
        r := r[i - 1 := r[i - 1] + "'s"];
      }
    }
  }

  /** The second pass: the word after a standalone `l` gets `l'`. The pass reads the list
      as the previous steps left it, so in `l l x` only the second word changes. */
  function Article(words: seq<string>): (r: seq<string>)
    ensures |r| == |words|
    decreases |words|
  {
    if |words| <= 1 then words
    else if words[0] == "l" then [words[0]] + Article(["l'" + words[1]] + words[2..])
    else [words[0]] + Article(words[1..])
  }

  /** A word gets `l'` exactly when the word before it, as rewritten, is `l`. */
  lemma {:induction false} ArticleMeaning(words: seq<string>)
    ensures var r := Article(words);
      (words != [] ==> r[0] == words[0]) &&
      forall i :: 0 <= i < |words| - 1 ==> r[i + 1] == if r[i] == "l" then "l'" + words[i + 1] else words[i + 1]
    decreases |words|
  {
    if |words| > 1 {
      var tail := if words[0] == "l" then ["l'" + words[1]] + words[2..] else words[1..];
      ArticleMeaning(tail);
      assert Article(words) == [words[0]] + Article(tail);
    }
  }

  /** The loop of the second pass, which rewrites the list in place. */
  method AttachL(words: seq<string>) returns (r: seq<string>)
    ensures r == Article(words)
  {
    r := words;
    for i := 0 to |r|
      invariant |r| == |words|
      invariant r[..i] + Article(r[i..]) == Article(words)
    {
      AttachStep(words, r, i);
      if r[i] == "l" && i < |r| - 1 {
        r := r[i + 1 := "l'" + r[i + 1]];
      }
    }
  }

  /** The list after the loop's step at `i`. */
  function Attached(r: seq<string>, i: nat): seq<string>
    requires i < |r|
  {
    if r[i] == "l" && i < |r| - 1 then r[i + 1 := "l'" + r[i + 1]] else r
  }

  /** A step of the loop keeps its invariant: what lies before the cursor, followed by
      the pass over the rest, is the pass over the whole list. */
  lemma AttachStep(words: seq<string>, r: seq<string>, i: nat)
    requires i < |r| == |words| && r[..i] + Article(r[i..]) == Article(words)
    ensures |Attached(r, i)| == |words|
    ensures Attached(r, i)[..i + 1] + Article(Attached(r, i)[i + 1..]) == Article(words)
  {
    if r[i] == "l" && i < |r| - 1 {
      ArticleAttaches(r, i);
    } else {
      ArticleSkips(r, i);
    }
    AttachedPrefix(r, i);
    Assoc(r[..i], [r[i]], Article(Attached(r, i)[i + 1..]));
  }

  /** The step at `i` leaves the words up to `i` alone. */
  lemma AttachedPrefix(r: seq<string>, i: nat)
    requires i < |r|
    ensures Attached(r, i)[..i + 1] == r[..i] + [r[i]]
  {
    var r' := Attached(r, i);
    assert forall k :: 0 <= k <= i ==> r'[k] == r[k];
  }

  /** A step of the loop at a standalone `l` with a word after it. */
  lemma ArticleAttaches(words: seq<string>, i: nat)
    requires i < |words| - 1 && words[i] == "l"
    ensures Article(words[i..]) == [words[i]] + Article(words[i + 1 := "l'" + words[i + 1]][i + 1..])
  {
    var r := words[i + 1 := "l'" + words[i + 1]];
    assert words[i..][0] == "l" && words[i..][1] == words[i + 1] && words[i..][2..] == words[i + 2..];
    assert r[i + 1..] == ["l'" + words[i + 1]] + words[i + 2..];
  }

  /** A step of the loop anywhere else. */
  lemma ArticleSkips(words: seq<string>, i: nat)
    requires i < |words| && !(words[i] == "l" && i < |words| - 1)
    ensures Article(words[i..]) == [words[i]] + Article(words[i + 1..])
  {
    assert |words[i..]| <= 1 || words[i..][0] != "l";
    assert words[i..][1..] == words[i + 1..];
  }

  /** The words other than `w`. */
  function Without(words: seq<string>, w: string): seq<string>
  {
    if words == [] then [] else (if words[0] == w then [] else [words[0]]) + Without(words[1..], w)
  }

  /** Exactly the words other than `w` are kept. */
  lemma {:induction false} WithoutMeaning(words: seq<string>, w: string)
    ensures forall x :: x in Without(words, w) <==> x in words && x != w
  {
    if words != [] {
      WithoutMeaning(words[1..], w);
      assert words == [words[0]] + words[1..];
    }
  }

  /** The title words after both passes and the removal of standalone `s` and `l`. */
  function TitleWords(words: seq<string>): seq<string>
  {
    Without(Without(Article(Possessive(words)), "s"), "l")
  }

  /** No standalone `s` or `l` is left in a title. */
  lemma NoParticles(words: seq<string>)
    ensures forall w :: w in TitleWords(words) ==> w != "s" && w != "l"
  {
    WithoutMeaning(Article(Possessive(words)), "s");
    WithoutMeaning(Without(Article(Possessive(words)), "s"), "l");
  }

  /** The title and date read from the `-` separated words of the third field. */
  function TitleAndDate(words: seq<string>): (string, int)
    requires |words| >= 1
  {
    var last := words[|words| - 1];
    var rest := if IsYear(last) then words[..|words| - 1] else words;
    (Capitalize(JoinWords(TitleWords(rest))), if IsYear(last) then DigitsValue(last) as int else -1)
  }

  /** The date is set exactly when the last word is a year, which then is not part of the
      title. */
  lemma DateMeaning(words: seq<string>)
    requires |words| >= 1
    ensures var (title, date) := TitleAndDate(words); var last := words[|words| - 1];
      (date != -1 <==> IsYear(last)) &&
      (IsYear(last) ==> (0 <= date <= 9999 && date == DigitsValue(last) &&
        title == Capitalize(JoinWords(TitleWords(words[..|words| - 1]))))) &&
      (!IsYear(last) ==> title == Capitalize(JoinWords(TitleWords(words))))
  {
    var last := words[|words| - 1];
    if IsYear(last) {
      DigitsBelow(last);
    }
  }

  lemma {:induction false} DigitsBelow(s: string)
    ensures DigitsValue(s) < Pow10(|s|)
  {
    if s != [] {
      DigitsBelow(s[..|s| - 1]);
    }
  }

  function Pow10(n: nat): nat
  {
    if n == 0 then 1 else 10 * Pow10(n - 1)
  }

  /** The title and date of the third field of a WikiArt name: a trailing year is
      dropped from the words and becomes the date. */
  method TitleLoops(field: string) returns (title: string, date: int)
    ensures (title, date) == TitleAndDate(Split(field, '-'))
  {
    var titleElements := Split(field, '-');
    title, date := TitleFromWords(titleElements);
  }

  /** The year test on the last word and the title of the words left. */
  method TitleFromWords(words: seq<string>) returns (title: string, date: int)
    requires |words| >= 1
    ensures (title, date) == TitleAndDate(words)
  {
    var titleElements := words;
    date := -1;
    var last := titleElements[|titleElements| - 1];
    if |titleElements| > 0 && AllDigits(last) && |last| == 4 {
      date := DigitsValue(last);
      titleElements := titleElements[..|titleElements| - 1];
    }
    title := TitleOf(titleElements);
  }

  /** The title words after the year is dropped: both passes, the removal of
      standalone `s` and `l`, then joined and capitalized. */
  method TitleOf(words: seq<string>) returns (title: string)
    ensures title == Capitalize(JoinWords(TitleWords(words)))
  {
    var titleElements := AttachS(words);
    titleElements := AttachL(titleElements);
    titleElements := Without(titleElements, "s");
    titleElements := Without(titleElements, "l");
    title := Capitalize(JoinWords(titleElements));
  }

  /** The fields of a WikiArt name: drop `.jpg`, split on `_`, drop the leading number. */
  function Elements(name: string): seq<string>
  {
    Split(RemoveSuffix(name, ".jpg"), '_')[1..]
  }

  /** The metadata read from the fields, with the defaults for the missing ones. */
  function FromElements(elements: seq<string>): Artwork
  {
    var genre := if |elements| > 0 then Join(Split(elements[0], '-'), ' ') else "";
    var author := if |elements| > 1 then Capitalize(Join(Split(elements[1], '-'), ' ')) else "";
    var (title, date) := if |elements| > 2 then TitleAndDate(Split(elements[2], '-')) else ("", -1);
    Artwork(genre, author, title, date)
  }

  /** `SupportDatasetForImagesWikiArt.__getitem__` without the image. */
  method WikiArtItem(name: string) returns (a: Artwork)
    ensures a == FromElements(Elements(name))
  {
    a := Artwork("", "", "", -1);
    var elements := Split(RemoveSuffix(name, ".jpg"), '_')[1..];
    if |elements| > 0 {
      a := a.(genre := Join(Split(elements[0], '-'), ' '));
    }
    if |elements| > 1 {
      a := a.(author := Capitalize(Join(Split(elements[1], '-'), ' ')));
    }
    if |elements| > 2 {
      var title, date := TitleLoops(elements[2]);
      a := a.(title := title, date := date);
    }
  }

  /** Missing fields keep their defaults, the genre and author have their `-` made
      spaces, and fields beyond the third are ignored. */
  lemma FieldsMeaning(elements: seq<string>)
    ensures var a := FromElements(elements);
      (|elements| == 0 ==> a.genre == "") &&
      (|elements| <= 1 ==> a.author == "") &&
      (|elements| <= 2 ==> a.title == "" && a.date == -1) &&
      (|elements| > 0 ==> a.genre == Replace(elements[0], '-', ' ')) &&
      (|elements| > 1 ==> a.author == Capitalize(Replace(elements[1], '-', ' '))) &&
      (|elements| > 3 ==> a == FromElements(elements[..3]))
  {
    if |elements| > 0 {
      JoinSplitReplaces(elements[0], '-', ' ');
    }
    if |elements| > 1 {
      JoinSplitReplaces(elements[1], '-', ' ');
    }
  }
}
