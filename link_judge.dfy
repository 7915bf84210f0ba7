/** `LocalLinkFilter`: the judge that keeps a crawl on the host it started on. */
module LinkJudge {
  import Urls
  import Paths
  import Discovery

  /** Accepts a discovered link exactly when it is on its page's host. */
  function LocalLinkFilter(link: Discovery.DiscoveredLink): (local: bool)
    ensures link.url == link.current ==> local
    ensures local ==> forall x :: x in link.url.Hostname() ==> x in link.current.authority
  {
    link.current.Hostname() == link.url.Hostname()
  }

  /** The text after the last `c` of `a + [c] + b`, when `b` has no `c`, is `b`. */
  lemma {:induction false} AfterLastSuffix(a: string, c: char, b: string)
    requires c !in b
    ensures Urls.AfterLast(a + [c] + b, c) == b
    decreases |b|
  {
    var s := a + [c] + b;
    if b == [] {
      assert s[|s| - 1] == c;
    } else {
      assert s[..|s| - 1] == a + [c] + b[..|b| - 1];
      assert b[|b| - 1] in b;
      var init := b[..|b| - 1];
      assert c !in init by {
        forall m | 0 <= m < |init| ensures init[m] != c { assert init[m] == b[m]; }
      }
      AfterLastSuffix(a, c, b[..|b| - 1]);
      assert b[..|b| - 1] + [b[|b| - 1]] == b;
    }
  }

  /**
   * The judge ignores user information and ports: a URL whose authority is
   * `user@host:port` is judged like one whose authority is just `host`.
   */
  lemma UserAndPortIgnored(page: Urls.Url, link: Urls.Url, user: string, host: string, port: string)
    requires '@' !in host && ':' !in host && '@' !in port
    requires link.authority == user + "@" + host + ":" + port
    ensures LocalLinkFilter(Discovery.DiscoveredLink(page, link))
        <==> LocalLinkFilter(Discovery.DiscoveredLink(page, link.(authority := host)))
  {
    var hp := host + ":" + port;
    assert link.authority == user + ['@'] + hp;
    assert '@' !in hp by {
      forall m | 0 <= m < |hp| ensures hp[m] != '@' {
        if m < |host| { assert hp[m] == host[m]; } else if m > |host| { assert hp[m] == port[m - |host| - 1]; }
      }
    }
    AfterLastSuffix(user, '@', hp);
    assert Urls.IndexOfAny(hp, {':'}) == |host| by {
      forall m | 0 <= m < |host| ensures hp[m] !in {':'} { assert hp[m] == host[m]; }
      Urls.IndexOfAnyAt(hp, {':'}, |host|);
    }
    assert hp[..|host|] == host;
  }

  /** The judge is symmetric: it does not matter which URL is the page. */
  lemma Symmetric(a: Urls.Url, b: Urls.Url)
    ensures LocalLinkFilter(Discovery.DiscoveredLink(a, b)) == LocalLinkFilter(Discovery.DiscoveredLink(b, a))
  {
  }

  /**
   * Every relative link without ".." that `SendLink` accepts passes the
   * judge; a link `../other/x` from a page on a different host is sent but
   * rejected by the judge.
   */
  lemma RelativeLinksAreLocal(shaped: Urls.Recognizer, curr: string, link: string)
    requires Urls.ParseUrl(shaped, curr).Ok?
    requires var h := Urls.ParseUrl(shaped, curr).value.Hostname(); h != "" && h != "." && h != ".."
    requires !shaped(link) && ".." !in Paths.PathElements(link)
    requires Discovery.SendLink(shaped, curr, link).Ok?
    ensures LocalLinkFilter(Discovery.SendLink(shaped, curr, link).value)
  {
    var c := Urls.ParseUrl(shaped, curr).value;
    Discovery.RelativeLinkStaysOnHost(shaped, curr, link);
  }

  lemma ParentLinkLeavesHost(shaped: Urls.Recognizer, curr: string, other: string, x: string)
    requires Urls.ParseUrl(shaped, curr).Ok?
    requires var h := Urls.ParseUrl(shaped, curr).value.Hostname(); h != "" && h != "." && h != ".." && h != other
    requires Urls.NoneOf(other, {'/', '?', '#', '@', ':'}) && other != "" && other != "." && other != ".."
    requires '/' !in x && x != "" && x != "." && x != ".."
    requires !shaped("../" + (other + "/" + x))
    requires Discovery.SendLink(shaped, curr, "../" + (other + "/" + x)).Ok?
    ensures !LocalLinkFilter(Discovery.SendLink(shaped, curr, "../" + (other + "/" + x)).value)
  {
    var c := Urls.ParseUrl(shaped, curr).value;
    Urls.ResolveCanLeaveHost(shaped, c, other, x);
  }
}
