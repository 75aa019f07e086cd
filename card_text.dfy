/** The description shown under the main image of the carousel (`generateText` in
    `frontend/src/Carousel/MainImageCard.js`). */
module CardText {
  import opened Wrappers
  import opened Strings
  import opened Seqs

  /** The metadata of an image; a missing field is `None`. */
  datatype ImageInfo = ImageInfo(
    author: Option<string>,
    title: Option<string>,
    genre: Option<string>,
    date: Option<int>,
    caption: Option<string>)

  /** `word.charAt(0).toUpperCase() + word.slice(1)`. */
  function CapitalizeWord(w: string): string
  {
    if w == "" then "" else [Upper(w[0])] + w[1..]
  }

  function CapitalizeAll(words: seq<string>): (r: seq<string>)
    ensures |r| == |words|
  {
    if words == [] then [] else [CapitalizeWord(words[0])] + CapitalizeAll(words[1..])
  }

  /** The capitalisation `generateText` applies to author and title. */
  function CapitalizeWords(s: string): string
  {
    Join(CapitalizeAll(Split(s, ' ')), ' ')
  }

  /** Reference definition: the character at the start of the text and every character
      after a space upper-cased, every other character unchanged. */
  function WordStartsUpper(s: string): (r: string)
    ensures |r| == |s|
  {
    seq(|s|, i requires 0 <= i < |s| => if i == 0 || s[i - 1] == ' ' then Upper(s[i]) else s[i])
  }

  lemma NoSpaceWord(w: string)
    requires ' ' !in w
    ensures CapitalizeWord(w) == WordStartsUpper(w)
  {
    forall k | 0 <= k < |w|
      ensures w[k] != ' '
    {
      assert w[k] in w;
    }
  }

  lemma StartsAfterSpace(head: string, tail: string)
    ensures WordStartsUpper(head + " " + tail)
         == WordStartsUpper(head) + [Upper(' ')] + WordStartsUpper(tail)
  {
    var s := head + " " + tail;
    var r := WordStartsUpper(head) + [Upper(' ')] + WordStartsUpper(tail);
    forall j | 0 <= j < |s|
      ensures WordStartsUpper(s)[j] == r[j]
    {
      if j > |head| + 1 {
        assert s[j - 1] == tail[j - |head| - 2];
      }
    }
  }

  /** Splitting on spaces, capitalising each piece and joining again upper-cases exactly
      the first character and each character after a space. */
  lemma {:induction false} CapitalizeWordsMeaning(s: string)
    ensures CapitalizeWords(s) == WordStartsUpper(s)
    decreases |s|
  {
    if ' ' !in s {
      assert CapitalizeWords(s) == CapitalizeWord(s);
      NoSpaceWord(s);
    } else {
      var i := FirstIndex(s, ' ');
      var head, tail := s[..i], s[i + 1..];
      assert s == head + " " + tail;
      CapitalizeWordsMeaning(tail);
      assert Split(s, ' ') == [head] + Split(tail, ' ');
      assert CapitalizeAll(Split(s, ' ')) == [CapitalizeWord(head)] + CapitalizeAll(Split(tail, ' '));
      assert CapitalizeWords(s) == CapitalizeWord(head) + " " + CapitalizeWords(tail);
      NoSpaceWord(head);
      StartsAfterSpace(head, tail);
    }
  }

  function Line(heading: string, value: Option<string>): string
  {
    match value
    case None => ""
    case Some(v) => heading + v + ".\n"
  }

  function DateLine(date: Option<int>): string
  {
    match date
    case Some(d) => if d != -1 then "Date: " + NumberText(d) + ".\n" else ""
    case None => ""
  }

  function CaptionLine(caption: Option<string>): string
  {
    match caption
    case None => ""
    case Some(c) => "AI Caption: " + c
  }

  function Capitalized(value: Option<string>): Option<string>
  {
    match value
    case None => None
    case Some(v) => Some(CapitalizeWords(v))
  }

  /** The lines of the description, from already capitalised author and title. */
  function Lines(author: Option<string>, title: Option<string>, genre: Option<string>,
                 date: Option<int>, caption: Option<string>): string
  {
    Line("Artist: ", author) + Line("Title: ", title) + Line("Genre: ", genre)
    + DateLine(date) + CaptionLine(caption)
  }

  /** The description: artist, title, genre, date and caption lines, in that order, each
      present only when its field is. */
  function Text(img: ImageInfo): string
  {
    Lines(Capitalized(img.author), Capitalized(img.title), img.genre, img.date, img.caption)
  }

  /** `generateText`: appends the lines one by one. */
  method GenerateText(img: ImageInfo) returns (text: string)
    ensures text == Text(img)
  {
    text := "";
    if img.author.Some? {
      var author := CapitalizeWords(img.author.value);
      text := text + ("Artist: " + author + ".\n");
    }
    assert text == Line("Artist: ", Capitalized(img.author));
    ghost var upToAuthor := text;
    if img.title.Some? {
      var title := CapitalizeWords(img.title.value);
      text := text + ("Title: " + title + ".\n");
    }
    assert text == upToAuthor + Line("Title: ", Capitalized(img.title));
    ghost var upToTitle := text;
    if img.genre.Some? {
      text := text + ("Genre: " + img.genre.value + ".\n");
    }
    assert text == upToTitle + Line("Genre: ", img.genre);
    ghost var upToGenre := text;
    if img.date.Some? {
      if img.date.value != -1 {
        text := text + ("Date: " + NumberText(img.date.value) + ".\n");
      }
    }
    assert text == upToGenre + DateLine(img.date);
    ghost var upToDate := text;
    if img.caption.Some? {
      text := text + ("AI Caption: " + img.caption.value);
    }
    assert text == upToDate + CaptionLine(img.caption);
  }

  /** No metadata, no text. */
  lemma TextOfNothing()
    ensures Text(ImageInfo(None, None, None, None, None)) == ""
  {
  }

  /** A date of -1 stands for an unknown date and is left out like a missing one. */
  lemma UnknownDateOmitted(img: ImageInfo)
    requires img.date == Some(-1)
    ensures Text(img) == Text(img.(date := None))
  {
  }

  function Count(c: char, s: string): nat
  {
    if s == [] then 0 else (if s[0] == c then 1 else 0) + Count(c, s[1..])
  }

  lemma {:induction false} CountAppend(c: char, a: string, b: string)
    ensures Count(c, a + b) == Count(c, a) + Count(c, b)
  {
    if a != [] {
      assert (a + b)[0] == a[0] && (a + b)[1..] == a[1..] + b;
      CountAppend(c, a[1..], b);
    } else {
      assert a + b == b;
    }
  }

  lemma {:induction false} CountAbsent(c: char, s: string)
    requires c !in s
    ensures Count(c, s) == 0
  {
    if s != [] {
      assert s[0] in s && forall d :: d in s[1..] ==> d in s;
      CountAbsent(c, s[1..]);
    }
  }

  predicate NoNewline(value: Option<string>)
  {
    value.Some? ==> '\n' !in value.value
  }

  /** The number of lines the text ends: one per present author, title and genre and per
      known date; the caption ends none. */
  function EndedLines(img: ImageInfo): nat
  {
    (if img.author.Some? then 1 else 0) + (if img.title.Some? then 1 else 0)
    + (if img.genre.Some? then 1 else 0)
    + (if img.date.Some? && img.date.value != -1 then 1 else 0)
  }

  lemma CapitalizeKeepsNewlines(s: string)
    requires '\n' !in s
    ensures '\n' !in CapitalizeWords(s)
  {
    CapitalizeWordsMeaning(s);
    forall i | 0 <= i < |s|
      ensures WordStartsUpper(s)[i] != '\n'
    {
      assert s[i] in s;
    }
  }

  lemma LineCount(heading: string, value: Option<string>)
    requires '\n' !in heading && NoNewline(value)
    ensures Count('\n', Line(heading, value)) == if value.Some? then 1 else 0
  {
    if value.Some? {
      CountAppend('\n', heading + value.value, ".\n");
      CountAppend('\n', heading, value.value);
      CountAbsent('\n', heading);
      CountAbsent('\n', value.value);
    }
  }

  lemma CaptionLineCount(caption: Option<string>)
    requires NoNewline(caption)
    ensures Count('\n', CaptionLine(caption)) == 0
  {
    if caption.Some? {
      CountAppend('\n', "AI Caption: ", caption.value);
      CountAbsent('\n', caption.value);
    }
  }

  lemma DateLineCount(date: Option<int>)
    ensures Count('\n', DateLine(date)) == if date.Some? && date.value != -1 then 1 else 0
  {
    if date.Some? && date.value != -1 {
      LineCount("Date: ", Some(NumberText(date.value)));
    }
  }

  lemma LinesCount(author: Option<string>, title: Option<string>, genre: Option<string>,
                   date: Option<int>, caption: Option<string>)
    requires NoNewline(author) && NoNewline(title) && NoNewline(genre) && NoNewline(caption)
    ensures Count('\n', Lines(author, title, genre, date, caption))
         == EndedLines(ImageInfo(author, title, genre, date, caption))
  {
    var a := Line("Artist: ", author);
    var t := Line("Title: ", title);
    var g := Line("Genre: ", genre);
    var d := DateLine(date);
    var c := CaptionLine(caption);
    LineCount("Artist: ", author);
    LineCount("Title: ", title);
    LineCount("Genre: ", genre);
    DateLineCount(date);
    CaptionLineCount(caption);
    CountAppend('\n', a, t);
    CountAppend('\n', a + t, g);
    CountAppend('\n', a + t + g, d);
    CountAppend('\n', a + t + g + d, c);
  }

  lemma CapitalizedNoNewline(value: Option<string>)
    requires NoNewline(value)
    ensures NoNewline(Capitalized(value)) && Capitalized(value).Some? == value.Some?
  {
    if value.Some? {
      CapitalizeKeepsNewlines(value.value);
    }
  }

  /** When no field holds a line break, every line but the caption ends with ".\n": the
      text holds one line break per present author, title and genre and known date. */
  lemma TextLineBreaks(img: ImageInfo)
    requires NoNewline(img.author) && NoNewline(img.title) && NoNewline(img.genre)
    requires NoNewline(img.caption)
    ensures Count('\n', Text(img)) == EndedLines(img)
  {
    CapitalizedNoNewline(img.author);
    CapitalizedNoNewline(img.title);
    LinesCount(Capitalized(img.author), Capitalized(img.title), img.genre, img.date, img.caption);
  }

  /** The text opens with the artist line when there is an author and closes with the
      caption when there is one. */
  lemma TextEnds(img: ImageInfo)
    ensures img.author.Some? ==> "Artist: " <= Text(img)
    ensures img.caption.Some? ==>
      var c := "AI Caption: " + img.caption.value;
      |c| <= |Text(img)| && Text(img)[|Text(img)| - |c|..] == c
  {
    var author := Capitalized(img.author);
    var rest := Line("Title: ", Capitalized(img.title)) + Line("Genre: ", img.genre)
      + DateLine(img.date) + CaptionLine(img.caption);
    LinesSplit(author, Capitalized(img.title), img.genre, img.date, img.caption);
    if img.author.Some? {
      PrefixOfJoin("Artist: ", author.value + ".\n", rest);
    }
    if img.caption.Some? {
      SuffixOfJoin(Line("Artist: ", author) + rest[..|rest| - |CaptionLine(img.caption)|],
        "AI Caption: " + img.caption.value);
    }
  }

  lemma LinesSplit(author: Option<string>, title: Option<string>, genre: Option<string>,
                   date: Option<int>, caption: Option<string>)
    ensures var rest := Line("Title: ", title) + Line("Genre: ", genre) + DateLine(date)
      + CaptionLine(caption);
      Lines(author, title, genre, date, caption) == Line("Artist: ", author) + rest &&
      |CaptionLine(caption)| <= |rest| &&
      rest == rest[..|rest| - |CaptionLine(caption)|] + CaptionLine(caption) &&
      (author.Some? ==> Line("Artist: ", author) == "Artist: " + (author.value + ".\n"))
  {
    var a := Line("Artist: ", author);
    var t := Line("Title: ", title);
    var g := Line("Genre: ", genre);
    var d := DateLine(date);
    var c := CaptionLine(caption);
    var rest := t + g + d + c;
    Assoc(a, t, g);
    Assoc(a, t + g, d);
    Assoc(a, t + g + d, c);
    assert rest[..|rest| - |c|] == t + g + d;
    if author.Some? {
      assert a == "Artist: " + author.value + ".\n";
    }
  }

  lemma PrefixOfJoin(a: string, b: string, c: string)
    ensures a <= a + b + c
  {
    assert (a + b + c)[..|a|] == a;
  }

  lemma SuffixOfJoin(a: string, c: string)
    ensures |c| <= |a + c| && (a + c)[|a + c| - |c|..] == c
  {
  }
}
