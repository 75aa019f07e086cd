/** The API host the front-end derives from its own address (`extractHost` in
    `frontend/src/App.js`): the scheme and host name of the page, with port 443. The page
    address, read from the browser in the source, is a parameter here. */
module Host {
  import opened Wrappers

  /** The address with one trailing '/' removed. */
  function Trimmed(href: string): (r: string)
    ensures |r| <= |href| && r == href[..|r|]
    ensures |r| == |href| - 1 <==> |href| > 0 && href[|href| - 1] == '/'
  {
    if |href| > 0 && href[|href| - 1] == '/' then href[..|href| - 1] else href
  }

  function Colons(s: string): nat
  {
    if s == [] then 0 else (if s[0] == ':' then 1 else 0) + Colons(s[1..])
  }

  /** The length of the shortest prefix of `s` holding `n` colons, if there is one. */
  function UpToColon(s: string, n: nat): (r: Option<nat>)
    ensures r.Some? ==> r.value <= |s|
  {
    if n == 0 then Some(0)
    else if s == [] then None
    else match UpToColon(s[1..], if s[0] == ':' then n - 1 else n)
      case None => None
      case Some(k) => Some(k + 1)
  }

  /** The prefix UpToColon finds holds exactly n colons and ends in one, and every shorter
      prefix holds fewer; when there is none, `s` holds fewer than n colons. */
  lemma {:induction false} UpToColonMeaning(s: string, n: nat)
    ensures UpToColon(s, n).None? <==> Colons(s) < n
    ensures UpToColon(s, n).Some? ==>
      var k := UpToColon(s, n).value;
      k <= |s| && Colons(s[..k]) == n && (n > 0 ==> s[k - 1] == ':') &&
      forall j :: 0 <= j < k ==> Colons(s[..j]) < n
  {
    if n > 0 && s != [] {
      var m := if s[0] == ':' then n - 1 else n;
      UpToColonMeaning(s[1..], m);
      if UpToColon(s, n).Some? {
        var k := UpToColon(s, n).value;
        assert s[..k][1..] == s[1..][..k - 1];
        forall j | 0 <= j < k
          ensures Colons(s[..j]) < n
        {
          if j > 0 {
            assert s[..j][1..] == s[1..][..j - 1];
          }
        }
      }
    }
  }

  /** What the source returns: the address up to and including its second colon followed
      by "443" or, when the scan runs to the end, the address, a colon and "443". */
  function HostAsWritten(href: string): string
  {
    var h := Trimmed(href);
    match UpToColon(h, 2)
    case Some(k) => if k < |h| then h[..k] + "443" else h + ":443"
    case None => h + ":443"
  }

  /** The loop of `extractHost`: scan to just past the second colon, or to the end. */
  method ExtractHost(href: string) returns (host: string)
    ensures host == HostAsWritten(href)
  {
    var inHost := href;
    if |inHost| > 0 && inHost[|inHost| - 1] == '/' {
      inHost := inHost[..|inHost| - 1];
    }
    ghost var h := inHost;
    var colonCount := 0;
    var i := 0;
    while colonCount < 2 && i < |inHost|
      invariant 0 <= i <= |inHost| && 0 <= colonCount <= 2
      invariant UpToColon(inHost, 2) == Shifted(i, UpToColon(inHost[i..], 2 - colonCount))
      decreases |inHost| - i
    {
      ScanStep(inHost, i, 2 - colonCount);
      if inHost[i] == ':' {
        colonCount := colonCount + 1;
      }
      i := i + 1;
    }
    ScanEnd(inHost, i, 2 - colonCount);
    if i == |inHost| {
      inHost := inHost + ":";
      i := i + 1;
    }
    host := inHost[..i] + "443";
    assert h == Trimmed(href);
  }

  lemma ScanStep(s: string, i: nat, need: nat)
    requires i < |s| && need > 0
    ensures Shifted(i, UpToColon(s[i..], need))
         == Shifted(i + 1, UpToColon(s[i + 1..], if s[i] == ':' then need - 1 else need))
  {
    assert s[i..][1..] == s[i + 1..];
  }

  lemma ScanEnd(s: string, i: nat, need: nat)
    requires i <= |s| && (need == 0 || i == |s|)
    ensures Shifted(i, UpToColon(s[i..], need)) == if need == 0 then Some(i) else None
  {
  }

  /** A search result moved `i` places to the right. */
  function Shifted(i: nat, r: Option<nat>): Option<nat>
  {
    match r
    case None => None
    case Some(k) => Some(i + k)
  }

  /** What the comment next to the check promises: no extra colon when the second colon
      already ends the address. */
  function HostIntended(href: string): string
  {
    var h := Trimmed(href);
    match UpToColon(h, 2)
    case Some(k) => h[..k] + "443"
    case None => h + ":443"
  }

  /** With two colons, the intended host is the shortest prefix of the address holding
      two colons (it ends in the second), followed by 443. Otherwise it is the address with
      ":443" appended. */
  lemma HostIntendedMeaning(href: string)
    ensures var h := Trimmed(href);
      var r := HostIntended(href);
      |r| >= 3 && r[|r| - 3..] == "443" &&
      (Colons(h) >= 2 ==>
        var pre := r[..|r| - 3];
        pre <= h && Colons(pre) == 2 && pre[|pre| - 1] == ':' &&
        forall j :: 0 <= j < |pre| ==> Colons(h[..j]) < 2) &&
      (Colons(h) < 2 ==> r == h + ":443")
  {
    var h := Trimmed(href);
    UpToColonMeaning(h, 2);
    if Colons(h) >= 2 {
      var k := UpToColon(h, 2).value;
      var r := HostIntended(href);
      assert r == h[..k] + "443";
      assert r[..|r| - 3] == h[..k];
    }
  }

  /** The source and the intended rule differ only when the second colon is the last
      character of the trimmed address. */
  lemma HostAgreement(href: string)
    ensures HostAsWritten(href) == HostIntended(href) <==>
      UpToColon(Trimmed(href), 2) != Some(|Trimmed(href)|)
  {
    var h := Trimmed(href);
    if UpToColon(h, 2) == Some(|h|) {
      assert HostAsWritten(href) == h + ":443";
      assert HostIntended(href) == h[..|h|] + "443";
      assert |HostAsWritten(href)| != |HostIntended(href)|;
    }
  }

  /** Colon-free text is skipped over. */
  lemma {:induction false} SkipPlain(a: string, b: string, n: nat)
    requires n > 0 && ':' !in a
    ensures UpToColon(a + b, n) == Shifted(|a|, UpToColon(b, n))
  {
    if a != [] {
      assert a[0] in a;
      assert (a + b)[0] == a[0] && (a + b)[1..] == a[1..] + b;
      assert forall c :: c in a[1..] ==> c in a;
      assert UpToColon(a + b, n) == Shifted(1, UpToColon(a[1..] + b, n));
      SkipPlain(a[1..], b, n);
      match UpToColon(b, n)
      case None =>
        assert UpToColon(a[1..] + b, n) == None;
      case Some(k) =>
        assert UpToColon(a[1..] + b, n) == Some(|a| - 1 + k);
    } else {
      assert a + b == b;
      match UpToColon(b, n)
      case None =>
      case Some(k) =>
    }
  }

  lemma TakeColon(b: string, n: nat)
    requires n > 0
    ensures UpToColon(":" + b, n) == Shifted(1, UpToColon(b, n - 1))
  {
    assert (":" + b)[1..] == b;
  }

  /** An address `scheme://host:port`, with or without a trailing '/', gives
      `scheme://host:443`. */
  lemma HostWithPort(scheme: string, host: string, port: string)
    requires ':' !in scheme && ':' !in host && ':' !in port && port != [] && port[0] != '/'
    ensures HostAsWritten(scheme + "://" + host + ":" + port) == scheme + "://" + host + ":443"
  {
    var href := scheme + "://" + host + ":" + port;
    var h := Trimmed(href);
    var k := |scheme| + |host| + 4;
    var rest := h[k..];
    assert href[..k] == scheme + "://" + host + ":";
    assert h[..k] == href[..k];
    assert h == h[..k] + rest;
    assert h == scheme + (":" + ("//" + host + (":" + rest)));
    SecondColonAt(scheme, host, rest, h);
    assert h[..|scheme| + |host| + 4] == scheme + "://" + host + ":";
  }

  /** In `scheme://host:rest` the scan stops just past the colon after the host. */
  lemma SecondColonAt(scheme: string, host: string, rest: string, h: string)
    requires ':' !in scheme && ':' !in host && h == scheme + (":" + ("//" + host + (":" + rest)))
    ensures UpToColon(h, 2) == Some(|scheme| + |host| + 4)
  {
    SkipPlain("//" + host, ":" + rest, 1);
    TakeColon("//" + host + (":" + rest), 2);
    SkipPlain(scheme, ":" + ("//" + host + (":" + rest)), 2);
  }

  /** An address `scheme://host` without a port gets ":443" appended. */
  lemma HostWithoutPort(scheme: string, host: string)
    requires ':' !in scheme && ':' !in host && host != [] && host[|host| - 1] != '/'
    ensures HostAsWritten(scheme + "://" + host) == scheme + "://" + host + ":443"
  {
    var h := scheme + "://" + host;
    assert Trimmed(h) == h;
    assert h == scheme + (":" + (("//" + host) + []));
    SkipPlain("//" + host, [], 1);
    TakeColon("//" + host + [], 2);
    SkipPlain(scheme, ":" + ("//" + host + []), 2);
  }

  /** An address whose second colon ends it, `scheme://host:`, gets a doubled colon as
      written; the intended rule keeps one. */
  lemma HostDoubleColon(scheme: string, host: string)
    requires ':' !in scheme && ':' !in host
    ensures HostAsWritten(scheme + "://" + host + ":") == scheme + "://" + host + "::443"
    ensures HostIntended(scheme + "://" + host + ":") == scheme + "://" + host + ":443"
  {
    var h := scheme + "://" + host + ":";
    assert Trimmed(h) == h;
    SecondColonLast(scheme, host, h);
    assert h[..|h|] == h;
  }

  /** In `scheme://host:` the second colon is the last character. */
  lemma SecondColonLast(scheme: string, host: string, h: string)
    requires ':' !in scheme && ':' !in host && h == scheme + "://" + host + ":"
    ensures UpToColon(h, 2) == Some(|h|)
  {
    assert h == scheme + (":" + ("//" + host + (":" + [])));
    TakeColon([], 1);
    SkipPlain("//" + host, ":" + [], 1);
    TakeColon("//" + host + (":" + []), 2);
    SkipPlain(scheme, ":" + ("//" + host + (":" + [])), 2);
    assert UpToColon(h, 2) == Some(|h|);
  }
}
