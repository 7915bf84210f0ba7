/**
 * `getFullURL` and the three `Get*URLs` extractors. The regular expressions
 * themselves are not modelled: an extractor receives the list of submatch
 * slices `FindAllStringSubmatch` returned, each slice holding the whole
 * match followed by one entry per capture group.
 */
module LinkUtils {
  import opened Results
  import Urls
  import Paths
  import Discovery

  /**
   * `getFullURL`: the parent must be URL-shaped and parse; a link that is
   * not URL-shaped is rewritten against the parent's scheme and host; the
   * outcome must be URL-shaped.
   */
  function GetFullURL(shaped: Urls.Recognizer, parent: string, link: string): (r: Result<string, string>)
    ensures !shaped(parent) ==> r == Err("Could not parse " + parent + " as URL")
    ensures r.Ok? ==> shaped(r.value) && Urls.ParseUrl(shaped, parent).Ok?
    ensures r.Ok? && shaped(link) ==> r.value == link
  {
    match Urls.ParseUrl(shaped, parent)
    case Err(e) => Err(e)
    case Ok(u) =>
      var full := Urls.Resolve(shaped, u, link);
      if shaped(full) then Ok(full) else Err("Could not parse " + full + " as URL")
  }

  /** A URL-shaped link from a parent that parses is returned as it is. */
  lemma ShapedLinkKept(shaped: Urls.Recognizer, parent: string, link: string)
    requires Urls.ParseUrl(shaped, parent).Ok? && shaped(link)
    ensures GetFullURL(shaped, parent, link) == Ok(link)
  {
  }

  /**
   * Any other link becomes the parent's scheme, "://" and the parent's host
   * name joined with the link, and fails exactly when that is not URL-shaped.
   */
  lemma RelativeLinkRewritten(shaped: Urls.Recognizer, parent: string, link: string)
    requires Urls.ParseUrl(shaped, parent).Ok? && !shaped(link)
    ensures var u := Urls.ParseUrl(shaped, parent).value;
            var full := u.scheme + "://" + Paths.Join([u.Hostname(), link]);
            GetFullURL(shaped, parent, link) == if shaped(full) then Ok(full) else Err("Could not parse " + full + " as URL")
  {
  }

  /**
   * `getFullURL` and the discovery channel's `SendLink` rewrite a link the
   * same way: whatever `SendLink` sends, `getFullURL` returns as text, and
   * a `getFullURL` result that parses is sent by `SendLink`.
   */
  lemma AgreesWithSendLink(shaped: Urls.Recognizer, parent: string, link: string)
    ensures Discovery.SendLink(shaped, parent, link).Ok? ==>
              GetFullURL(shaped, parent, link) == Ok(Discovery.SendLink(shaped, parent, link).value.url.ToString())
    ensures GetFullURL(shaped, parent, link).Ok? && Urls.Parse(GetFullURL(shaped, parent, link).value).Some? ==>
              Discovery.SendLink(shaped, parent, link).Ok?
  {
    var p := Urls.ParseUrl(shaped, parent);
    if p.Ok? {
      var full := Urls.Resolve(shaped, p.value, link);
      assert GetFullURL(shaped, parent, link) == (if shaped(full) then Ok(full) else Err("Could not parse " + full + " as URL"));
    }
  }

  /**
   * A relative link without ".." from a parent with a proper host name
   * stays on the parent's host.
   */
  lemma RelativeLinkSameHost(shaped: Urls.Recognizer, parent: string, link: string)
    requires Urls.ParseUrl(shaped, parent).Ok?
    requires var h := Urls.ParseUrl(shaped, parent).value.Hostname(); h != "" && h != "." && h != ".."
    requires !shaped(link) && ".." !in Paths.PathElements(link)
    requires GetFullURL(shaped, parent, link).Ok?
    ensures Urls.Parse(GetFullURL(shaped, parent, link).value).Some?
    ensures Urls.Parse(GetFullURL(shaped, parent, link).value).value.Hostname()
         == Urls.ParseUrl(shaped, parent).value.Hostname()
  {
    var u := Urls.ParseUrl(shaped, parent).value;
    assert Urls.Parse(parent) == Some(u);
    assert Urls.WellFormed(u);
    assert GetFullURL(shaped, parent, link).value == Urls.Resolve(shaped, u, link);
    Urls.ResolveStaysOnHost(shaped, u, link);
  }

  /** The URL one match contributes, if it has `arity` entries and its link resolves. */
  function Picked(shaped: Urls.Recognizer, parent: string, m: seq<string>, arity: nat, index: nat): (r: Option<string>)
    requires index < arity
    ensures r.Some? <==> |m| == arity && GetFullURL(shaped, parent, m[index]).Ok?
    ensures r.Some? ==> r.value == GetFullURL(shaped, parent, m[index]).value && shaped(r.value)
  {
    if |m| != arity then None
    else
      match GetFullURL(shaped, parent, m[index])
      case Ok(full) => Some(full)
      case Err(_) => None
  }

  /**
   * What an extractor collects from the first matches: the full URL of
   * submatch `index` of every match with exactly `arity` entries, for the
   * links `getFullURL` accepts, in match order.
   */
  function Collected(shaped: Urls.Recognizer, parent: string, matches: seq<seq<string>>, arity: nat, index: nat): (r: seq<string>)
    requires index < arity
    ensures |r| <= |matches|
    decreases |matches|
  {
    if matches == [] then []
    else
      var init := Collected(shaped, parent, matches[..|matches| - 1], arity, index);
      match Picked(shaped, parent, matches[|matches| - 1], arity, index)
      case Some(full) => init + [full]
      case None => init
  }

  /** The loop shared by the three extractors. */
  method CollectURLs(shaped: Urls.Recognizer, parent: string, matches: seq<seq<string>>, arity: nat, index: nat)
    returns (urls: seq<string>)
    requires index < arity
    ensures urls == Collected(shaped, parent, matches, arity, index)
  {
    urls := [];
    for n := 0 to |matches|
      invariant urls == Collected(shaped, parent, matches[..n], arity, index)
    {
      var m := matches[n];
      assert matches[..n + 1][..n] == matches[..n];
      if |m| == arity {
        var full := GetFullURL(shaped, parent, m[index]);
        if full.Ok? {
          urls := urls + [full.value];
        }
      }
      assert urls == Collected(shaped, parent, matches[..n + 1], arity, index);
    }
    assert matches[..|matches|] == matches;
  }

  /** `GetLinkURLs`: `<link ... href="...">` tags have six groups, the href is group 4. */
  method GetLinkURLs(shaped: Urls.Recognizer, parent: string, matches: seq<seq<string>>) returns (urls: seq<string>)
    ensures urls == Collected(shaped, parent, matches, 7, 4)
  {
    urls := CollectURLs(shaped, parent, matches, 7, 4);
  }

  /** `GetScriptURLs` as written: it keeps matches of 7 entries and reads entry 4. */
  method GetScriptURLs(shaped: Urls.Recognizer, parent: string, matches: seq<seq<string>>) returns (urls: seq<string>)
    ensures urls == Collected(shaped, parent, matches, 7, 4)
  {
    urls := CollectURLs(shaped, parent, matches, 7, 4);
  }

  /**
   * `GetScriptURLs` with the length test matching its pattern's seven
   * groups (eight entries with the whole match); the src is still group 4.
   */
  method GetScriptURLsIntended(shaped: Urls.Recognizer, parent: string, matches: seq<seq<string>>) returns (urls: seq<string>)
    ensures urls == Collected(shaped, parent, matches, 8, 4)
  {
    urls := CollectURLs(shaped, parent, matches, 8, 4);
  }

  /** `GetImageURLs`: `<img ... src="...">` tags have five groups, the src is group 3. */
  method GetImageURLs(shaped: Urls.Recognizer, parent: string, matches: seq<seq<string>>) returns (urls: seq<string>)
    ensures urls == Collected(shaped, parent, matches, 6, 3)
  {
    urls := CollectURLs(shaped, parent, matches, 6, 3);
  }

  /** Extraction distributes over concatenation of the match lists: match order is kept. */
  lemma {:induction false} CollectedAppend(shaped: Urls.Recognizer, parent: string, xs: seq<seq<string>>, ys: seq<seq<string>>, arity: nat, index: nat)
    requires index < arity
    ensures Collected(shaped, parent, xs + ys, arity, index)
         == Collected(shaped, parent, xs, arity, index) + Collected(shaped, parent, ys, arity, index)
    decreases |ys|
  {
    if ys == [] {
      assert xs + ys == xs;
    } else {
      var init := ys[..|ys| - 1];
      assert (xs + ys)[..|xs + ys| - 1] == xs + init;
      assert (xs + ys)[|xs + ys| - 1] == ys[|ys| - 1];
      CollectedAppend(shaped, parent, xs, init, arity, index);
    }
  }

  lemma CollectedSnoc(shaped: Urls.Recognizer, parent: string, matches: seq<seq<string>>, arity: nat, index: nat)
    requires index < arity && matches != []
    ensures Collected(shaped, parent, matches, arity, index)
         == Collected(shaped, parent, matches[..|matches| - 1], arity, index)
          + (var p := Picked(shaped, parent, matches[|matches| - 1], arity, index);
             if p.Some? then [p.value] else [])
  {
  }

  /** Everything collected comes from some match. */
  lemma {:induction false} CollectedSource(shaped: Urls.Recognizer, parent: string, matches: seq<seq<string>>, arity: nat, index: nat, x: string)
    returns (i: nat)
    requires index < arity && x in Collected(shaped, parent, matches, arity, index)
    ensures i < |matches| && Picked(shaped, parent, matches[i], arity, index) == Some(x)
    decreases |matches|
  {
    var init := matches[..|matches| - 1];
    CollectedSnoc(shaped, parent, matches, arity, index);
    if x in Collected(shaped, parent, init, arity, index) {
      i := CollectedSource(shaped, parent, init, arity, index, x);
      assert matches[i] == init[i];
    } else {
      i := |matches| - 1;
    }
  }

  /** Every match that contributes a URL has it collected. */
  lemma {:induction false} CollectedFrom(shaped: Urls.Recognizer, parent: string, matches: seq<seq<string>>, arity: nat, index: nat, i: nat)
    requires index < arity && i < |matches| && Picked(shaped, parent, matches[i], arity, index).Some?
    ensures Picked(shaped, parent, matches[i], arity, index).value in Collected(shaped, parent, matches, arity, index)
    decreases |matches|
  {
    var init := matches[..|matches| - 1];
    CollectedSnoc(shaped, parent, matches, arity, index);
    if i < |matches| - 1 {
      assert matches[i] == init[i];
      CollectedFrom(shaped, parent, init, arity, index, i);
    }
  }

  /**
   * A URL is collected exactly when some match contributes it; everything
   * collected is URL-shaped.
   */
  lemma CollectedMembers(shaped: Urls.Recognizer, parent: string, matches: seq<seq<string>>, arity: nat, index: nat, x: string)
    requires index < arity
    ensures x in Collected(shaped, parent, matches, arity, index) <==>
              exists i :: 0 <= i < |matches| && Picked(shaped, parent, matches[i], arity, index) == Some(x)
    ensures x in Collected(shaped, parent, matches, arity, index) ==> shaped(x)
  {
    if x in Collected(shaped, parent, matches, arity, index) {
      var i := CollectedSource(shaped, parent, matches, arity, index, x);
    }
    if exists i :: 0 <= i < |matches| && Picked(shaped, parent, matches[i], arity, index) == Some(x) {
      var i :| 0 <= i < |matches| && Picked(shaped, parent, matches[i], arity, index) == Some(x);
      CollectedFrom(shaped, parent, matches, arity, index, i);
    }
  }

  /**
   * `GetScriptURLs` as written collects nothing from the matches its
   * pattern produces, all of which have eight entries.
   */
  lemma {:induction false} ScriptURLsAlwaysEmpty(shaped: Urls.Recognizer, parent: string, matches: seq<seq<string>>)
    requires forall i :: 0 <= i < |matches| ==> |matches[i]| == 8
    ensures Collected(shaped, parent, matches, 7, 4) == []
    decreases |matches|
  {
    if matches != [] {
      var init := matches[..|matches| - 1];
      assert forall i :: 0 <= i < |init| ==> init[i] == matches[i];
      ScriptURLsAlwaysEmpty(shaped, parent, init);
    }
  }

  /**
   * With the intended length test, a script tag whose src resolves is
   * collected, where the code as written drops it.
   */
  lemma ScriptTagKeptWhenIntended(shaped: Urls.Recognizer, parent: string, m: seq<string>)
    requires |m| == 8 && GetFullURL(shaped, parent, m[4]).Ok?
    ensures Collected(shaped, parent, [m], 8, 4) == [GetFullURL(shaped, parent, m[4]).value]
    ensures Collected(shaped, parent, [m], 7, 4) == []
  {
    assert [m][..0] == [];
  }
}
