/**
 * Go's `path` package as far as the crawler uses it: `path.Join` over
 * slash-separated strings, with the lexical clean-up of `path.Clean`.
 */
module Paths {

  /** `strings.Split(s, "/")`: the pieces between slashes, empty ones included. */
  function Split(s: string): (parts: seq<string>)
    ensures |parts| >= 1
  {
    if s == [] then [""]
    else
      var rest := Split(s[1..]);
      if s[0] == '/' then [""] + rest
      else [[s[0]] + rest[0]] + rest[1..]
  }

  /** The pieces `path.Clean` keeps before it resolves "..": no empty piece, no ".". */
  function Elements(parts: seq<string>): (r: seq<string>)
    ensures forall e :: e in r ==> e in parts && e != "" && e != "."
  {
    if parts == [] then []
    else if parts[0] == "" || parts[0] == "." then Elements(parts[1..])
    else [parts[0]] + Elements(parts[1..])
  }

  /** No element is the empty string. */
  predicate NoEmptyElement(elems: seq<string>)
  {
    forall i :: 0 <= i < |elems| ==> elems[i] != ""
  }

  /**
   * Resolves each ".." against the element kept before it; a ".." with nothing
   * to cancel is dropped from a rooted path and kept in a relative one.
   */
  function Resolve(kept: seq<string>, rest: seq<string>, rooted: bool): (r: seq<string>)
    ensures NoEmptyElement(kept) && NoEmptyElement(rest) ==> NoEmptyElement(r)
    decreases |rest|
  {
    if rest == [] then kept
    else if rest[0] == ".." then
      if |kept| > 0 && kept[|kept| - 1] != ".." then
        Resolve(kept[..|kept| - 1], rest[1..], rooted)
      else if rooted then Resolve(kept, rest[1..], rooted)
      else Resolve(kept + [".."], rest[1..], rooted)
    else Resolve(kept + [rest[0]], rest[1..], rooted)
  }

  /** The elements written out with one slash between neighbours. */
  function Concat(elems: seq<string>): string
  {
    if elems == [] then ""
    else if |elems| == 1 then elems[0]
    else elems[0] + "/" + Concat(elems[1..])
  }

  /** `path.Clean`: the shortest lexically equivalent path; never empty. */
  function Clean(p: string): (c: string)
    ensures c != ""
    ensures p == "" ==> c == "."
    ensures p != "" && p[0] == '/' ==> c[0] == '/'
  {
    if p == "" then "."
    else
      var rooted := p[0] == '/';
      var es := Elements(Split(p));
      assert forall i :: 0 <= i < |es| ==> es[i] in es;
      var kept := Resolve([], es, rooted);
      if rooted then "/" + Concat(kept)
      else if kept == [] then "."
      else
        Concat(kept)
  }

  function NonEmpty(elems: seq<string>): (r: seq<string>)
    ensures forall e :: e in r ==> e in elems && e != ""
    ensures r == [] <==> forall e :: e in elems ==> e == ""
  {
    if elems == [] then []
    else if elems[0] == "" then
      assert forall e :: e in elems ==> e == elems[0] || e in elems[1..];
      assert forall e :: e in elems[1..] ==> e in elems;
      NonEmpty(elems[1..])
    else
      assert elems[0] in elems;
      [elems[0]] + NonEmpty(elems[1..])
  }

  /**
   * `path.Join`: the non-empty elements joined with slashes and cleaned; ""
   * when every element is empty.
   */
  function Join(elems: seq<string>): (j: string)
    ensures j == "" <==> forall e :: e in elems ==> e == ""
  {
    var present := NonEmpty(elems);
    if present == [] then "" else Clean(Concat(present))
  }

  /** `p` is `top` itself or a path below it. */
  predicate Beneath(p: string, top: string)
  {
    p == top || (|p| > |top| && p[..|top|] == top && p[|top|] == '/')
  }

  /** The elements of a path whose ".." pieces would have to be resolved. */
  function PathElements(p: string): seq<string>
  {
    Elements(Split(p))
  }

  lemma {:induction false} SplitNoSlash(a: string)
    requires '/' !in a
    ensures Split(a) == [a]
  {
    if a != [] {
      assert '/' !in a[1..] by {
        forall i | 0 <= i < |a[1..]| ensures a[1..][i] != '/' { assert a[1..][i] == a[i + 1]; }
      }
      SplitNoSlash(a[1..]);
      assert [a[0]] + a[1..] == a;
    }
  }

  lemma {:induction false} SplitAfter(a: string, b: string)
    requires '/' !in a
    ensures Split(a + "/" + b) == [a] + Split(b)
  {
    if a == [] {
      assert a + "/" + b == "/" + b;
      assert ("/" + b)[1..] == b;
    } else {
      assert '/' !in a[1..] by {
        forall i | 0 <= i < |a[1..]| ensures a[1..][i] != '/' { assert a[1..][i] == a[i + 1]; }
      }
      assert (a + "/" + b)[0] == a[0];
      assert (a + "/" + b)[1..] == a[1..] + "/" + b;
      SplitAfter(a[1..], b);
      assert [a[0]] + a[1..] == a;
    }
  }

  lemma {:induction false} ElementsAppend(x: seq<string>, y: seq<string>)
    ensures Elements(x + y) == Elements(x) + Elements(y)
  {
    if x == [] {
      assert x + y == y;
    } else {
      assert (x + y)[0] == x[0] && (x + y)[1..] == x[1..] + y;
      ElementsAppend(x[1..], y);
    }
  }

  lemma {:induction false} ResolvePlain(kept: seq<string>, rest: seq<string>, rooted: bool)
    requires ".." !in rest
    ensures Resolve(kept, rest, rooted) == kept + rest
    decreases |rest|
  {
    if rest != [] {
      assert ".." !in rest[1..] by {
        forall i | 0 <= i < |rest[1..]| ensures rest[1..][i] != ".." { assert rest[1..][i] == rest[i + 1]; }
      }
      ResolvePlain(kept + [rest[0]], rest[1..], rooted);
      assert kept + [rest[0]] + rest[1..] == kept + rest;
    }
  }

  lemma ConcatCons(h: string, r: seq<string>)
    ensures Concat([h] + r) == if r == [] then h else h + "/" + Concat(r)
  {
    assert ([h] + r)[1..] == r;
  }

  /** A path `a/b` of two plain names has exactly those two elements. */
  lemma TwoElements(a: string, b: string)
    requires '/' !in a && a != "" && a != "."
    requires '/' !in b && b != "" && b != "."
    ensures PathElements(a + "/" + b) == [a, b]
    ensures Concat([a, b]) == a + "/" + b
  {
    SplitNoSlash(b);
    SplitAfter(a, b);
    assert [a] + [b] == [a, b];
    ElementsAppend([a], [b]);
    assert [a][1..] == [] && [b][1..] == [];
    ConcatCons(a, [b]);
    ConcatCons(b, []);
  }

  /** The pieces of `host/link`: the host, then those of `link`. */
  lemma HostElements(host: string, link: string)
    requires '/' !in host && host != "" && host != "."
    ensures PathElements(host + "/" + link) == [host] + PathElements(link)
  {
    SplitNoSlash(host);
    SplitAfter(host, link);
    ElementsAppend([host], Split(link));
    assert Elements([host]) == [host] by { assert [host][1..] == []; }
  }

  /** A relative path without ".." cleans to its elements joined by single slashes. */
  lemma CleanPlain(p: string)
    requires p != "" && p[0] != '/'
    requires ".." !in PathElements(p) && PathElements(p) != []
    ensures Clean(p) == Concat(PathElements(p))
  {
    var es := PathElements(p);
    ResolvePlain([], es, false);
    assert [] + es == es;
  }

  /** Joining a host name with the empty link gives the host name. */
  lemma JoinHostOnly(host: string)
    requires '/' !in host && host != "" && host != "." && host != ".."
    ensures Join([host, ""]) == host
    ensures PathElements("") == []
  {
    assert NonEmpty([host, ""]) == [host] by {
      assert NonEmpty([host, ""][1..]) == NonEmpty([""]);
    }
    assert Concat([host]) == host;
    SplitNoSlash(host);
    assert Elements([host]) == [host] by { assert [host][1..] == []; }
    assert host[0] != '/' by { assert host[0] in host; }
    CleanPlain(host);
    assert Split("") == [""];
    assert Elements([""]) == Elements([""][1..]);
  }

  /** Joining a host name with a non-empty link without ".." puts the host first. */
  lemma JoinHostLink(host: string, link: string)
    requires '/' !in host && host != "" && host != "." && host != ".."
    requires link != "" && ".." !in PathElements(link)
    ensures Join([host, link]) == Concat([host] + PathElements(link))
  {
    var es := PathElements(link);
    assert NonEmpty([host, link]) == [host, link] by {
      assert [host, link][1..] == [link];
      assert NonEmpty([link]) == [link] + NonEmpty([link][1..]);
    }
    assert Concat([host, link]) == host + "/" + link by { ConcatCons(host, [link]); }
    var p := host + "/" + link;
    HostElements(host, link);
    assert p[0] == host[0];
    assert host[0] != '/' by { assert host[0] in host; }
    assert ".." !in [host] + es;
    CleanPlain(p);
  }

  /**
   * Joining a host name and a link with no ".." element keeps the host as
   * the first element: the result is the host or a path below it.
   */
  lemma {:induction false} JoinBeneath(host: string, link: string)
    requires '/' !in host && host != "" && host != "." && host != ".."
    requires ".." !in PathElements(link)
    ensures Join([host, link]) == host + (if PathElements(link) == [] then "" else "/" + Concat(PathElements(link)))
    ensures Beneath(Join([host, link]), host)
  {
    var es := PathElements(link);
    if link == "" {
      JoinHostOnly(host);
    } else {
      JoinHostLink(host, link);
      ConcatCons(host, es);
    }
    var j := Join([host, link]);
    if es != [] {
      assert j[..|host|] == host;
    }
  }

  /** The pieces of `host/../rest`: the host, one "..", then those of `rest`. */
  lemma ParentElements(host: string, rest: string)
    requires '/' !in host && host != "" && host != "." && host != ".."
    ensures PathElements(host + "/" + ("../" + rest)) == [host, ".."] + PathElements(rest)
  {
    var link := "../" + rest;
    var es := PathElements(rest);
    SplitNoSlash(host);
    SplitAfter(host, link);
    SplitAfter("..", rest);
    assert link == ".." + "/" + rest;
    ElementsAppend([host], Split(link));
    ElementsAppend([".."], Split(rest));
    assert Elements([host]) == [host] by { assert [host][1..] == []; }
    assert Elements([".."]) == [".."] by { assert [".."][1..] == []; }
    assert [host] + ([".."] + es) == [host, ".."] + es;
  }

  /**
   * A link that starts with ".." cancels the host it is joined to: what is
   * left is the link's own remainder, which can name another host.
   */
  lemma {:induction false} JoinParentEscapes(host: string, rest: string)
    requires '/' !in host && host != "" && host != "." && host != ".."
    requires rest != "" && rest[0] != '/'
    requires ".." !in PathElements(rest) && PathElements(rest) != []
    ensures Join([host, "../" + rest]) == Concat(PathElements(rest))
  {
    var link := "../" + rest;
    var es := PathElements(rest);
    assert NonEmpty([host, link]) == [host, link] by {
      assert [host, link][1..] == [link];
      assert NonEmpty([link]) == [link] + NonEmpty([link][1..]);
    }
    assert Concat([host, link]) == host + "/" + link by { ConcatCons(host, [link]); }
    var p := host + "/" + link;
    ParentElements(host, rest);
    assert p[0] == host[0];
    assert host[0] != '/' by { assert host[0] in host; }
    var all := [host, ".."] + es;
    assert all[0] == host && all[1..] == [".."] + es;
    assert Resolve([], all, false) == Resolve([host], [".."] + es, false);
    assert ([".."] + es)[1..] == es;
    assert Resolve([host], [".."] + es, false) == Resolve([], es, false);
    ResolvePlain([], es, false);
    assert es == [] + es;
    assert Join([host, link]) == Clean(p);
  }
}
