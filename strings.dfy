/** Text helpers shared by the models: splitting on and joining with one separator
    character (`str.split`, `Array.prototype.join`), decimal numbers (`int(...)` on the
    server, number-to-text on the client) and ASCII letter case. */
module Strings {
  import opened Wrappers

  function FirstIndex(s: string, sep: char): (i: nat)
    requires sep in s
    ensures i < |s| && s[i] == sep && sep !in s[..i]
  {
    if s[0] == sep then 0
    else
      assert s == [s[0]] + s[1..];
      FirstIndex(s[1..], sep) + 1
  }

  /** The first separator is the one that no earlier character matches. */
  lemma FirstIndexAt(s: string, sep: char, k: nat)
    requires k < |s| && s[k] == sep && sep !in s[..k]
    ensures FirstIndex(s, sep) == k
  {
    var i := FirstIndex(s, sep);
    assert forall j :: 0 <= j < k ==> s[..k][j] == s[j];
    assert forall j :: 0 <= j < i ==> s[..i][j] == s[j];
  }

  /** `s.split(sep)`: the pieces between separators, empty pieces included; always at
      least one piece. */
  function Split(s: string, sep: char): (pieces: seq<string>)
    ensures |pieces| >= 1
    decreases |s|
  {
    if sep !in s then [s]
    else
      var i := FirstIndex(s, sep);
      [s[..i]] + Split(s[i + 1..], sep)
  }

  /** `pieces.join(sep)`. */
  function Join(pieces: seq<string>, sep: char): string
    requires |pieces| >= 1
  {
    if |pieces| == 1 then pieces[0] else pieces[0] + [sep] + Join(pieces[1..], sep)
  }

  /** Joining pieces free of the separator and splitting again gives the pieces back. */
  lemma {:induction false} SplitJoin(pieces: seq<string>, sep: char)
    requires |pieces| >= 1 && forall p :: p in pieces ==> sep !in p
    ensures Split(Join(pieces, sep), sep) == pieces
  {
    if |pieces| > 1 {
      var head, rest := pieces[0], Join(pieces[1..], sep);
      var s := head + [sep] + rest;
      assert pieces[0] in pieces;
      assert s[|head|] == sep && s[..|head|] == head;
      FirstIndexAt(s, sep, |head|);
      assert s[|head| + 1..] == rest;
      SplitJoin(pieces[1..], sep);
    }
  }

  /** Splitting and joining again gives the text back. */
  lemma {:induction false} JoinSplit(s: string, sep: char)
    ensures Join(Split(s, sep), sep) == s
    decreases |s|
  {
    if sep in s {
      var i := FirstIndex(s, sep);
      var head, tail := s[..i], s[i + 1..];
      JoinSplit(tail, sep);
      SplitAt(s, sep, i);
      JoinCons(head, Split(tail, sep), sep);
      assert s == head + [sep] + tail;
    }
  }

  /** `Split` cuts at the first separator. */
  lemma SplitAt(s: string, sep: char, i: nat)
    requires sep in s && i == FirstIndex(s, sep)
    ensures Split(s, sep) == [s[..i]] + Split(s[i + 1..], sep)
  {
  }

  /** `Join` puts the separator after the first piece. */
  lemma JoinCons(head: string, rest: seq<string>, sep: char)
    requires |rest| >= 1
    ensures Join([head] + rest, sep) == head + [sep] + Join(rest, sep)
  {
    var pieces := [head] + rest;
    assert pieces[0] == head && pieces[1..] == rest;
  }

  predicate IsDigit(c: char)
  {
    '0' <= c <= '9'
  }

  /** `str.isdigit` on ASCII text: not empty and all decimal digits. */
  predicate AllDigits(s: string)
  {
    |s| > 0 && forall c :: c in s ==> IsDigit(c)
  }

  function DigitValue(c: char): nat
  {
    if IsDigit(c) then c as int - '0' as int else 0
  }

  /** The number a digit string denotes. */
  function DigitsValue(s: string): nat
  {
    if s == [] then 0 else 10 * DigitsValue(s[..|s| - 1]) + DigitValue(s[|s| - 1])
  }

  function DigitChar(d: nat): (c: char)
    requires d < 10
    ensures IsDigit(c) && DigitValue(c) == d
  {
    ('0' as int + d) as char
  }

  /** Decimal digits of a natural number, without leading zeros. */
  function Digits(n: nat): (r: string)
    ensures AllDigits(r)
  {
    if n < 10 then [DigitChar(n)] else Digits(n / 10) + [DigitChar(n % 10)]
  }

  lemma {:induction false} DigitsRoundTrip(n: nat)
    ensures DigitsValue(Digits(n)) == n
  {
    if n >= 10 {
      DigitsRoundTrip(n / 10);
      var r := Digits(n);
      assert r[..|r| - 1] == Digits(n / 10);
    }
  }

  /** The text JavaScript gives an integer-valued number. */
  function NumberText(n: int): (r: string)
    ensures |r| > 0 && forall c :: c in r ==> IsDigit(c) || c == '-'
  {
    if n < 0 then "-" + Digits(-n) else Digits(n)
  }

  /** The ASCII whitespace `int(...)` ignores around a number: space, tab, line feed,
      vertical tab, form feed and carriage return. */
  predicate IsSpace(c: char)
  {
    c == ' ' || '\t' <= c <= '\r'
  }

  predicate AllSpace(s: string)
  {
    forall c :: c in s ==> IsSpace(c)
  }

  /** The text without its leading whitespace. */
  function TrimStart(s: string): string
  {
    if s != [] && IsSpace(s[0]) then TrimStart(s[1..]) else s
  }

  /** The text without its trailing whitespace. */
  function TrimEnd(s: string): string
  {
    if s != [] && IsSpace(s[|s| - 1]) then TrimEnd(s[..|s| - 1]) else s
  }

  /** `s.strip()` for ASCII whitespace. */
  function Strip(s: string): string
  {
    TrimEnd(TrimStart(s))
  }

  /** Decimal digits, with single underscores allowed between two digits. */
  predicate IsNumeral(s: string)
  {
    |s| > 0 && IsDigit(s[0]) && IsDigit(s[|s| - 1]) &&
    forall k :: 0 < k < |s| - 1 && !IsDigit(s[k]) ==> s[k] == '_' && IsDigit(s[k - 1]) && IsDigit(s[k + 1])
  }

  /** The digits of a numeral, the underscores dropped. */
  function WithoutUnderscores(s: string): (r: string)
    ensures forall c :: c in r <==> c in s && c != '_'
  {
    if s == [] then []
    else
      var last := s[|s| - 1];
      assert forall c :: c in s <==> c in s[..|s| - 1] || c == last;
      WithoutUnderscores(s[..|s| - 1]) + (if last == '_' then [] else [last])
  }

  function NumeralValue(s: string): nat
  {
    DigitsValue(WithoutUnderscores(s))
  }

  /** `int(...)` on text without surrounding whitespace: an optional sign followed by a
      numeral; anything else is an error. */
  function ParseSigned(t: string): (r: Option<int>)
    ensures r.Some? <==> IsNumeral(t) || (|t| > 1 && t[0] in "+-" && IsNumeral(t[1..]))
  {
    if IsNumeral(t) then Some(NumeralValue(t))
    else if |t| > 1 && t[0] == '-' && IsNumeral(t[1..]) then Some(0 - NumeralValue(t[1..]) as int)
    else if |t| > 1 && t[0] == '+' && IsNumeral(t[1..]) then Some(NumeralValue(t[1..]))
    else None
  }

  /** Python's `int(s)`: the surrounding whitespace is ignored. */
  function ParseInt(s: string): Option<int>
  {
    ParseSigned(Strip(s))
  }

  /** Text that neither starts nor ends with whitespace keeps what lies between any
      whitespace put around it. */
  lemma StripSurrounded(a: string, t: string, b: string)
    requires AllSpace(a) && AllSpace(b)
    requires t == [] || (!IsSpace(t[0]) && !IsSpace(t[|t| - 1]))
    ensures Strip(a + t + b) == t
  {
    if t == [] {
      assert a + t + b == (a + b) + [];
      TrimStartSpaces(a + b, []);
    } else {
      assert a + t + b == a + (t + b);
      assert (t + b)[0] == t[0];
      TrimStartSpaces(a, t + b);
      TrimEndSpaces(t, b);
    }
  }

  lemma {:induction false} TrimStartSpaces(a: string, u: string)
    requires AllSpace(a) && (u == [] || !IsSpace(u[0]))
    ensures TrimStart(a + u) == u
  {
    if a != [] {
      assert a[0] in a && (a + u)[1..] == a[1..] + u;
      TrimStartSpaces(a[1..], u);
    }
  }

  lemma {:induction false} TrimEndSpaces(t: string, b: string)
    requires AllSpace(b) && (t == [] || !IsSpace(t[|t| - 1]))
    ensures TrimEnd(t + b) == t
  {
    if b != [] {
      var s := t + b;
      assert b[|b| - 1] in b && s[|s| - 1] == b[|b| - 1];
      assert s[..|s| - 1] == t + b[..|b| - 1];
      TrimEndSpaces(t, b[..|b| - 1]);
    } else {
      assert t + b == t;
    }
  }

  /** A plain digit string is a numeral worth its digits. */
  lemma DigitsNumeral(d: string)
    requires AllDigits(d)
    ensures IsNumeral(d) && NumeralValue(d) == DigitsValue(d)
  {
    assert d[0] in d && d[|d| - 1] in d;
    NoUnderscores(d);
  }

  lemma {:induction false} NoUnderscores(d: string)
    requires forall c :: c in d ==> IsDigit(c)
    ensures WithoutUnderscores(d) == d
  {
    if d != [] {
      assert d[|d| - 1] in d;
      assert forall c :: c in d[..|d| - 1] ==> c in d;
      NoUnderscores(d[..|d| - 1]);
      assert d == d[..|d| - 1] + [d[|d| - 1]];
    }
  }

  /** `int(...)` of a stripped numeral is its value ... */
  lemma ParseNumeral(s: string)
    requires Strip(s) == s && IsNumeral(s)
    ensures ParseInt(s) == Some(NumeralValue(s))
  {
  }

  /** ... and with a minus sign in front, its negation. */
  lemma ParseMinusNumeral(s: string)
    requires Strip(s) == s && |s| > 1 && s[0] == '-' && IsNumeral(s[1..])
    ensures ParseInt(s) == Some(0 - NumeralValue(s[1..]) as int)
  {
    assert !IsDigit(s[0]);
  }

  /** The server reads back every number the client writes. */
  lemma ParseNumberText(n: int)
    ensures ParseInt(NumberText(n)) == Some(n)
  {
    NumberTextStripped(n);
    ParseStripped(NumberText(n));
    SignedNumberText(n);
  }

  /** Without surrounding whitespace, the text of a number reads back as it. */
  lemma SignedNumberText(n: int)
    ensures ParseSigned(NumberText(n)) == Some(n)
  {
    if n < 0 {
      SignedNegative(-n);
    } else {
      SignedNatural(n);
    }
  }

  lemma SignedNegative(m: nat)
    requires m > 0
    ensures ParseSigned("-" + Digits(m)) == Some(0 - m)
  {
    DigitsRoundTrip(m);
    DigitsNumeral(Digits(m));
    SignedMinus(Digits(m));
  }

  lemma SignedNatural(m: nat)
    ensures ParseSigned(Digits(m)) == Some(m)
  {
    DigitsRoundTrip(m);
    DigitsNumeral(Digits(m));
  }

  lemma ParseStripped(t: string)
    requires Strip(t) == t
    ensures ParseInt(t) == ParseSigned(t)
  {
  }

  /** A minus sign before a numeral negates it. */
  lemma SignedMinus(d: string)
    requires IsNumeral(d)
    ensures ParseSigned("-" + d) == Some(0 - NumeralValue(d) as int)
  {
    var t := "-" + d;
    assert t[0] == '-' && t[1..] == d && !IsDigit(t[0]);
  }

  /** The text of a number neither starts nor ends with whitespace. */
  lemma NumberTextStripped(n: int)
    ensures Strip(NumberText(n)) == NumberText(n)
  {
    var t := NumberText(n);
    assert t[0] in t && t[|t| - 1] in t;
    StripSurrounded([], t, []);
    assert [] + t + [] == t;
  }

  /** A minus sign before digits reads back as the negated value. */
  lemma ParseNegative(d: string, r: string)
    requires AllDigits(d) && r == "-" + d && Strip(r) == r
    ensures ParseInt(r) == Some(0 - DigitsValue(d) as int)
  {
    assert r[1..] == d;
    DigitsNumeral(d);
    ParseMinusNumeral(r);
  }

  /** Whitespace around a number the client writes is ignored: `int(" 2")` is 2. */
  lemma ParseSpaced(a: string, n: int, b: string)
    requires AllSpace(a) && AllSpace(b)
    ensures ParseInt(a + NumberText(n) + b) == Some(n)
  {
    var t := NumberText(n);
    assert t[0] in t && t[|t| - 1] in t;
    StripSurrounded(a, t, b);
    NumberTextStripped(n);
    ParseNumberText(n);
  }

  /** Underscores between digits are ignored: `int("1_000")` is 1000. */
  lemma ParseUnderscored()
    ensures ParseInt("1_000") == Some(1000)
  {
    var s := "1_000";
    StripSurrounded([], s, []);
    assert [] + s + [] == s;
    UnderscoredValue();
  }

  lemma UnderscoredValue()
    ensures IsNumeral("1_000") && NumeralValue("1_000") == 1000
  {
    var s := "1_000";
    assert IsNumeral(s) by {
      assert forall k :: 0 < k < 4 && !IsDigit(s[k]) ==> k == 1;
    }
    UnderscoresDropped();
    ThousandValue();
  }

  lemma UnderscoresDropped()
    ensures WithoutUnderscores("1_000") == "1000"
  {
    assert WithoutUnderscores("") == "";
    DropStep("", '1');
    assert "" + ['1'] == "1";
    DropStep("1", '_');
    assert "1" + ['_'] == "1_";
    DropStep("1_", '0');
    assert "1_" + ['0'] == "1_0";
    DropStep("1_0", '0');
    assert "1_0" + ['0'] == "1_00";
    DropStep("1_00", '0');
    assert "1_00" + ['0'] == "1_000";
  }

  /** `WithoutUnderscores` one character at a time. */
  lemma DropStep(s: string, c: char)
    ensures WithoutUnderscores(s + [c]) == WithoutUnderscores(s) + (if c == '_' then [] else [c])
  {
    assert (s + [c])[..|s|] == s;
  }

  lemma ThousandValue()
    ensures DigitsValue("1000") == 1000
  {
    assert "1"[..0] == [] && "10"[..1] == "1" && "100"[..2] == "10" && "1000"[..3] == "100";
    assert DigitsValue("1") == 1 && DigitsValue("10") == 10 && DigitsValue("100") == 100;
  }

  /** Upper case for the letters a to z; every other character is left alone. */
  function Upper(c: char): char
  {
    if 'a' <= c <= 'z' then (c as int - 32) as char else c
  }

  /** Lower case for the letters A to Z; every other character is left alone. */
  function Lower(c: char): char
  {
    if 'A' <= c <= 'Z' then (c as int + 32) as char else c
  }
}
