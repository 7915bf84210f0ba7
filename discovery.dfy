/**
 * `DiscoveredChan.SendLink`: a link found on a page, resolved against that
 * page and checked, becomes the `DiscoveredLink` the supervisor receives.
 */
module Discovery {
  import opened Results
  import Urls
  import Paths

  /** The page a link was found on and the URL the link resolved to. */
  datatype DiscoveredLink = DiscoveredLink(current: Urls.Url, url: Urls.Url)

  /**
   * The link `SendLink` sends on the discovery channel, or the error it
   * returns instead of sending.
   */
  function SendLink(shaped: Urls.Recognizer, curr: string, link: string): (r: Result<DiscoveredLink, string>)
    ensures Urls.ParseUrl(shaped, curr).Err? ==> r == Err(Urls.ParseUrl(shaped, curr).error)
    ensures r.Ok? ==> r.value.current.ToString() == curr && shaped(r.value.url.ToString())
    ensures r.Ok? ==> r.value.url.ToString() == Urls.Resolve(shaped, r.value.current, link)
  {
    match Urls.ParseUrl(shaped, curr)
    case Err(e) => Err(e)
    case Ok(c) =>
      match Urls.ParseUrl(shaped, Urls.Resolve(shaped, c, link))
      case Err(e) => Err(e)
      case Ok(l) => Ok(DiscoveredLink(c, l))
  }

  /**
   * A link that is already URL-shaped is sent as it is, if it parses, from
   * any page that parses.
   */
  lemma ShapedLinkUnchanged(shaped: Urls.Recognizer, curr: string, link: string)
    requires Urls.ParseUrl(shaped, curr).Ok? && shaped(link)
    ensures SendLink(shaped, curr, link).Ok? <==> Urls.Parse(link).Some?
    ensures SendLink(shaped, curr, link).Ok? ==> SendLink(shaped, curr, link).value.url.ToString() == link
  {
  }

  /**
   * Only the page's scheme and host name matter: two pages with the same
   * scheme and host name (whatever their ports, user information, paths
   * and queries) send the same URL for the same link, or both fail.
   */
  lemma OnlySchemeAndHostMatter(shaped: Urls.Recognizer, curr1: string, curr2: string, link: string)
    requires Urls.ParseUrl(shaped, curr1).Ok? && Urls.ParseUrl(shaped, curr2).Ok?
    requires Urls.ParseUrl(shaped, curr1).value.scheme == Urls.ParseUrl(shaped, curr2).value.scheme
    requires Urls.ParseUrl(shaped, curr1).value.Hostname() == Urls.ParseUrl(shaped, curr2).value.Hostname()
    ensures SendLink(shaped, curr1, link).Ok? <==> SendLink(shaped, curr2, link).Ok?
    ensures SendLink(shaped, curr1, link).Ok? ==>
              SendLink(shaped, curr1, link).value.url == SendLink(shaped, curr2, link).value.url
  {
    var c1 := Urls.ParseUrl(shaped, curr1).value;
    var c2 := Urls.ParseUrl(shaped, curr2).value;
    assert Urls.Resolve(shaped, c1, link) == Urls.Resolve(shaped, c2, link);
  }

  /**
   * A relative link without ".." from a page with a proper host name stays
   * on that host, whenever the rebuilt text passes the shape test.
   */
  lemma RelativeLinkStaysOnHost(shaped: Urls.Recognizer, curr: string, link: string)
    requires Urls.ParseUrl(shaped, curr).Ok?
    requires var h := Urls.ParseUrl(shaped, curr).value.Hostname(); h != "" && h != "." && h != ".."
    requires !shaped(link) && ".." !in Paths.PathElements(link)
    requires shaped(Urls.Resolve(shaped, Urls.ParseUrl(shaped, curr).value, link))
    ensures SendLink(shaped, curr, link).Ok?
    ensures SendLink(shaped, curr, link).value.url.Hostname()
         == SendLink(shaped, curr, link).value.current.Hostname()
  {
    var c := Urls.ParseUrl(shaped, curr).value;
    Urls.ParseToString(c);
    Urls.ResolveStaysOnHost(shaped, c, link);
  }
}
