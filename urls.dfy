/**
 * The URL values the crawler passes around. Parsing is a simplified
 * `net/url.Parse`: `scheme://authority` followed by the path and the
 * query/fragment suffix. The URL-shape regular expression is not
 * interpreted: it is a parameter of every operation that consults it.
 */
module Urls {
  import opened Results
  import Paths

  /**
   * The URL-shape regular expression (`UrlRegex` in the internal package,
   * `URLRE` in the public one; the two literals are identical), as a
   * predicate on strings.
   */
  type Recognizer = string -> bool

  datatype Url = Url(scheme: string, authority: string, path: string, suffix: string)
  {
    /** `(*url.URL).String()` for the parts this model keeps. */
    function ToString(): string
    {
      scheme + "://" + authority + path + suffix
    }

    /** `(*url.URL).Hostname()`: the authority without user information and port. */
    function Hostname(): (h: string)
      ensures '@' !in h && ':' !in h
      ensures forall x :: x in h ==> x in authority
      ensures '@' !in authority && ':' !in authority ==> h == authority
    {
      HostOf(authority)
    }
  }

  /** Index of the first character of `s` in `cs`, or `|s|` if there is none. */
  function IndexOfAny(s: string, cs: set<char>): (i: nat)
    ensures i <= |s|
    ensures forall j :: 0 <= j < i ==> s[j] !in cs
    ensures i < |s| ==> s[i] in cs
  {
    if s == [] then 0
    else if s[0] in cs then 0
    else 1 + IndexOfAny(s[1..], cs)
  }

  /** The part of `s` after its last `c` (all of `s` if it has none). */
  function AfterLast(s: string, c: char): (r: string)
    ensures c !in r
    ensures c !in s ==> r == s
    ensures forall x :: x in r ==> x in s
  {
    if s == [] then []
    else if s[|s| - 1] == c then []
    else
      var r := AfterLast(s[..|s| - 1], c);
      assert s == s[..|s| - 1] + [s[|s| - 1]];
      r + [s[|s| - 1]]
  }

  /** Host name of an authority `user@host:port`. */
  function HostOf(authority: string): (h: string)
    ensures '@' !in h && ':' !in h
    ensures forall x :: x in h ==> x in authority
    ensures '@' !in authority && ':' !in authority ==> h == authority
  {
    var hostport := AfterLast(authority, '@');
    hostport[..IndexOfAny(hostport, {':'})]
  }

  predicate IsLetter(c: char)
  {
    ('a' <= c <= 'z') || ('A' <= c <= 'Z')
  }

  predicate SchemeChar(c: char)
  {
    IsLetter(c) || ('0' <= c <= '9') || c == '+' || c == '-' || c == '.'
  }

  /** A URI scheme: a letter followed by letters, digits, '+', '-' or '.'. */
  predicate ValidScheme(s: string)
  {
    |s| > 0 && IsLetter(s[0]) && forall i :: 0 <= i < |s| ==> SchemeChar(s[i])
  }

  /** No character of `s` is in `cs`. */
  predicate NoneOf(s: string, cs: set<char>)
  {
    forall i :: 0 <= i < |s| ==> s[i] !in cs
  }

  /** The shape of every URL that `Parse` produces. */
  predicate WellFormed(u: Url)
  {
    && ValidScheme(u.scheme)
    && NoneOf(u.authority, {'/', '?', '#'})
    && (u.path == "" || u.path[0] == '/')
    && NoneOf(u.path, {'?', '#'})
    && (u.suffix == "" || u.suffix[0] == '?' || u.suffix[0] == '#')
  }

  /** The four parts `Parse` cuts `s` into print back as `s`. */
  lemma PartsToString(s: string, i: nat, j: nat, k: nat)
    requires i + 3 <= |s| && s[i..i + 3] == "://"
    requires j <= |s[i + 3..]| && k <= |s[i + 3..][j..]|
    ensures Url(s[..i], s[i + 3..][..j], s[i + 3..][j..][..k], s[i + 3..][j..][k..]).ToString() == s
  {
    var rest := s[i + 3..];
    var tail := rest[j..];
    assert tail[..k] + tail[k..] == tail;
    assert rest[..j] + tail == rest;
    assert s[..i] + s[i..i + 3] + s[i + 3..] == s;
  }

  /** The text before the first character of `cs` contains none of them. */
  lemma PrefixNoneOf(s: string, cs: set<char>)
    ensures NoneOf(s[..IndexOfAny(s, cs)], cs)
  {
    var n := IndexOfAny(s, cs);
    forall m | 0 <= m < n ensures s[..n][m] !in cs { assert s[..n][m] == s[m]; }
  }

  /**
   * Simplified `url.Parse`: `None` unless `s` starts with a scheme followed
   * by "://". Whatever it returns is well formed and prints back as `s`.
   */
  function Parse(s: string): (r: Option<Url>)
    ensures r.Some? ==> r.value.ToString() == s && WellFormed(r.value)
  {
    var i := IndexOfAny(s, {':'});
    if i + 3 <= |s| && s[i..i + 3] == "://" && ValidScheme(s[..i]) then
      CutParts(s, i);
      Some(Cut(s, i))
    else None
  }

  /**
   * The parts of `s` once its scheme ends at `i`: the authority up to the
   * first '/', '?' or '#', then the path up to the first '?' or '#', then
   * the rest.
   */
  function Cut(s: string, i: nat): Url
    requires i + 3 <= |s|
  {
    var rest := s[i + 3..];
    var j := IndexOfAny(rest, {'/', '?', '#'});
    var tail := rest[j..];
    var k := IndexOfAny(tail, {'?', '#'});
    Url(s[..i], rest[..j], tail[..k], tail[k..])
  }

  /** The parts `Cut` finds are well formed and print back as `s`. */
  lemma CutParts(s: string, i: nat)
    requires i + 3 <= |s| && s[i..i + 3] == "://" && ValidScheme(s[..i])
    ensures Cut(s, i).ToString() == s && WellFormed(Cut(s, i))
  {
    var rest := s[i + 3..];
    var j := IndexOfAny(rest, {'/', '?', '#'});
    var tail := rest[j..];
    var k := IndexOfAny(tail, {'?', '#'});
    PartsToString(s, i, j, k);
    PrefixNoneOf(rest, {'/', '?', '#'});
    PrefixNoneOf(tail, {'?', '#'});
  }

  /** In a printed URL the first ':' is the one that ends the scheme. */
  lemma SchemeEnd(u: Url)
    requires ValidScheme(u.scheme)
    ensures IndexOfAny(u.ToString(), {':'}) == |u.scheme|
    ensures u.ToString()[..|u.scheme|] == u.scheme
    ensures u.ToString()[|u.scheme|..|u.scheme| + 3] == "://"
    ensures u.ToString()[|u.scheme| + 3..] == u.authority + u.path + u.suffix
  {
    var s := u.ToString();
    var n := |u.scheme|;
    assert s == u.scheme + ("://" + (u.authority + u.path + u.suffix));
    forall m | 0 <= m < n ensures s[m] !in {':'} {
      assert s[m] == u.scheme[m];
      assert SchemeChar(u.scheme[m]);
    }
    IndexOfAnyAt(s, {':'}, n);
  }

  /** The authority of a well-formed URL ends where its path or suffix starts. */
  lemma AuthorityEnd(authority: string, path: string, suffix: string)
    requires NoneOf(authority, {'/', '?', '#'})
    requires path == "" || path[0] == '/'
    requires suffix == "" || suffix[0] == '?' || suffix[0] == '#'
    ensures IndexOfAny(authority + path + suffix, {'/', '?', '#'}) == |authority|
  {
    var rest := authority + path + suffix;
    var a := |authority|;
    forall m | 0 <= m < a ensures rest[m] !in {'/', '?', '#'} {
      assert rest[m] == authority[m];
    }
    if a < |rest| {
      if path != "" { assert rest[a] == path[0]; }
      else { assert rest[a] == suffix[0]; }
    }
    IndexOfAnyAt(rest, {'/', '?', '#'}, a);
  }

  /** The path of a well-formed URL ends where its suffix starts. */
  lemma PathEnd(path: string, suffix: string)
    requires NoneOf(path, {'?', '#'})
    requires suffix == "" || suffix[0] == '?' || suffix[0] == '#'
    ensures IndexOfAny(path + suffix, {'?', '#'}) == |path|
  {
    var tail := path + suffix;
    var p := |path|;
    forall m | 0 <= m < p ensures tail[m] !in {'?', '#'} {
      assert tail[m] == path[m];
    }
    if p < |tail| { assert tail[p] == suffix[0]; }
    IndexOfAnyAt(tail, {'?', '#'}, p);
  }

  /** `Cut` finds the authority, path and suffix whose ends `IndexOfAny` locates. */
  lemma CutAt(s: string, i: nat, authority: string, path: string, suffix: string)
    requires i + 3 <= |s| && s[i + 3..] == authority + path + suffix
    requires IndexOfAny(authority + path + suffix, {'/', '?', '#'}) == |authority|
    requires IndexOfAny(path + suffix, {'?', '#'}) == |path|
    ensures Cut(s, i) == Url(s[..i], authority, path, suffix)
  {
    Thirds(authority, path, suffix);
    Halves(path, suffix);
  }

  /** A three-part concatenation splits after its first part. */
  lemma Thirds(a: string, b: string, c: string)
    ensures (a + b + c)[..|a|] == a && (a + b + c)[|a|..] == b + c
  {
    assert a + b + c == a + (b + c);
  }

  /** A concatenation splits back into its two halves. */
  lemma Halves(a: string, b: string)
    ensures (a + b)[..|a|] == a && (a + b)[|a|..] == b
  {
  }

  /** Cutting a printed well-formed URL after its scheme recovers the URL. */
  lemma CutToString(u: Url)
    requires WellFormed(u)
    ensures |u.scheme| + 3 <= |u.ToString()|
    ensures Cut(u.ToString(), |u.scheme|) == u
  {
    SchemeEnd(u);
    AuthorityEnd(u.authority, u.path, u.suffix);
    PathEnd(u.path, u.suffix);
    CutAt(u.ToString(), |u.scheme|, u.authority, u.path, u.suffix);
  }

  /** Printing a well-formed URL and parsing it back gives the same URL. */
  lemma ParseToString(u: Url)
    requires WellFormed(u)
    ensures Parse(u.ToString()) == Some(u)
  {
    var s := u.ToString();
    var n := |u.scheme|;
    SchemeEnd(u);
    CutToString(u);
    assert IndexOfAny(s, {':'}) == n && s[..n] == u.scheme && s[n..n + 3] == "://";
  }

  /** `IndexOfAny` finds the first matching position. */
  lemma {:induction false} IndexOfAnyAt(s: string, cs: set<char>, n: nat)
    requires n <= |s|
    requires forall j :: 0 <= j < n ==> s[j] !in cs
    requires n < |s| ==> s[n] in cs
    ensures IndexOfAny(s, cs) == n
  {
    if s != [] && n > 0 {
      IndexOfAnyAt(s[1..], cs, n - 1);
    }
  }

  /** `ParseUrl` of the internal package: the shape test, then `url.Parse`. */
  function ParseUrl(shaped: Recognizer, s: string): (r: Result<Url, string>)
    ensures r.Ok? <==> shaped(s) && Parse(s).Some?
    ensures r.Ok? ==> r.value.ToString() == s
  {
    if shaped(s) then
      match Parse(s)
      case Some(u) => Ok(u)
      case None => Err("parse " + s + ": invalid URL")
    else Err("Could not parse " + s + " as URL")
  }

  /**
   * The link rewrite shared by `SendLink` and `getFullURL`: a link that is
   * not URL-shaped becomes `scheme://` followed by `path.Join(hostname, link)`
   * of the page it was found on.
   */
  function Resolve(shaped: Recognizer, base: Url, link: string): (s: string)
    ensures shaped(link) ==> s == link
    ensures !shaped(link) ==> base.scheme + "://" <= s
  {
    if shaped(link) then link
    else base.scheme + "://" + Paths.Join([base.Hostname(), link])
  }

  /**
   * A scheme, "://", an authority and text starting with '/' (or nothing)
   * parse, and the authority is recovered.
   */
  lemma ParseAuthority(s: string, scheme: string, authority: string, more: string)
    requires s == scheme + "://" + authority + more
    requires ValidScheme(scheme)
    requires NoneOf(authority, {'/', '?', '#'})
    requires more == "" || more[0] == '/'
    ensures Parse(s).Some? && Parse(s).value.authority == authority
  {
    var u := Url(scheme, authority, more, "");
    assert u.ToString() == s;
    SchemeEnd(u);
    AuthorityEnd(authority, more, "");
    var rest := authority + more + "";
    assert rest[..|authority|] == authority;
  }

  /** A host name has none of the characters that end an authority. */
  lemma HostNoDelimiters(u: Url)
    requires WellFormed(u)
    ensures NoneOf(u.Hostname(), {'/', '?', '#'})
  {
    var h := u.Hostname();
    forall m | 0 <= m < |h| ensures h[m] !in {'/', '?', '#'} {
      assert h[m] in h;
      assert h[m] in u.authority;
      var t :| 0 <= t < |u.authority| && u.authority[t] == h[m];
    }
  }

  /**
   * A link that is not URL-shaped and has no ".." element resolves to a URL on
   * the same host as the page it was found on.
   */
  lemma ResolveStaysOnHost(shaped: Recognizer, base: Url, link: string)
    requires WellFormed(base)
    requires base.Hostname() != "" && base.Hostname() != "." && base.Hostname() != ".."
    requires !shaped(link)
    requires ".." !in Paths.PathElements(link)
    ensures Parse(Resolve(shaped, base, link)).Some?
    ensures Parse(Resolve(shaped, base, link)).value.Hostname() == base.Hostname()
  {
    var h := base.Hostname();
    HostNoDelimiters(base);
    NoneOfLacks(h, {'/', '?', '#'}, '/');
    Paths.JoinBeneath(h, link);
    var es := Paths.PathElements(link);
    var more := if es == [] then "" else "/" + Paths.Concat(es);
    var j := Paths.Join([h, link]);
    assert j == h + more;
    var s := Resolve(shaped, base, link);
    assert s == base.scheme + "://" + j;
    SeqAssoc(base.scheme + "://", h, more);
    ParseAuthority(s, base.scheme, h, more);
    assert HostOf(h) == h;
  }

  lemma SeqAssoc(a: string, b: string, c: string)
    ensures a + (b + c) == a + b + c
  {
  }

  /** A string with none of `cs` lacks each one of them. */
  lemma NoneOfLacks(s: string, cs: set<char>, c: char)
    requires NoneOf(s, cs) && c in cs
    ensures c !in s
  {
    assert forall m :: 0 <= m < |s| ==> s[m] != c;
  }

  /**
   * The ".." of a relative link is resolved against the host name as if it
   * were a directory: from a page on any host, the link `../other/x` resolves
   * to a URL on the host `other`.
   */
  lemma ResolveCanLeaveHost(shaped: Recognizer, base: Url, other: string, x: string)
    requires WellFormed(base)
    requires base.Hostname() != "" && base.Hostname() != "." && base.Hostname() != ".."
    requires NoneOf(other, {'/', '?', '#', '@', ':'}) && other != "" && other != "." && other != ".."
    requires '/' !in x && x != "" && x != "." && x != ".."
    requires !shaped("../" + (other + "/" + x))
    ensures Parse(Resolve(shaped, base, "../" + (other + "/" + x))).Some?
    ensures Parse(Resolve(shaped, base, "../" + (other + "/" + x))).value.Hostname() == other
  {
    var h := base.Hostname();
    HostNoDelimiters(base);
    NoneOfLacks(h, {'/', '?', '#'}, '/');
    NoneOfLacks(other, {'/', '?', '#', '@', ':'}, '/');
    NoneOfLacks(other, {'/', '?', '#', '@', ':'}, '@');
    NoneOfLacks(other, {'/', '?', '#', '@', ':'}, ':');
    var rest := other + "/" + x;
    Paths.TwoElements(other, x);
    assert rest[0] == other[0];
    Paths.JoinParentEscapes(h, rest);
    var j := Paths.Join([h, "../" + rest]);
    assert j == other + "/" + x;
    var s := Resolve(shaped, base, "../" + rest);
    assert s == base.scheme + "://" + j;
    SeqAssoc(base.scheme + "://", other, "/" + x);
    assert NoneOf(other, {'/', '?', '#'});
    ParseAuthority(s, base.scheme, other, "/" + x);
  }

  /** The file name `writeBytes` and `Handle` derive from a URL path. */
  function FileName(path: string): (name: string)
    ensures name == "index.html" <==> path == "" || path[|path| - 1] == '/' || path == "index.html"
    ensures name != ""
  {
    if |path| == 0 || path[|path| - 1] == '/' then "index.html" else path
  }

  /** Where a fetched page is stored: `path.Join(root, hostname, filename)`. */
  function SavePath(root: string, u: Url): (p: string)
    ensures p != ""
  {
    var elems := [root, u.Hostname(), FileName(u.path)];
    assert elems[2] in elems;
    Paths.Join(elems)
  }
}
