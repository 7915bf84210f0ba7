/**
 * The default duplicate filter and the default request processor of the
 * `anubis` package, and the content-type test of its response handler.
 */
module Types {
  import opened Results

  /** `strings.HasPrefix`. */
  predicate HasPrefix(s: string, prefix: string)
  {
    |prefix| <= |s| && s[..|prefix|] == prefix
  }

  /** `strings.Contains`: `sub` occurs somewhere in `s`. */
  function Contains(s: string, sub: string): (found: bool)
    ensures found ==> |sub| <= |s|
    decreases |s|
  {
    HasPrefix(s, sub) || (s != [] && Contains(s[1..], sub))
  }

  /** `sub` occurs in `s` starting at offset `i`. */
  predicate OccursAt(s: string, sub: string, i: int)
  {
    0 <= i <= |s| - |sub| && s[i..i + |sub|] == sub
  }

  /** `Contains` holds exactly when `sub` occurs at some offset. */
  lemma {:induction false} ContainsAt(s: string, sub: string)
    ensures Contains(s, sub) <==> exists i :: OccursAt(s, sub, i)
    decreases |s|
  {
    if s != [] {
      ContainsAt(s[1..], sub);
      if exists i :: OccursAt(s, sub, i) {
        var i :| OccursAt(s, sub, i);
        if i > 0 {
          assert OccursAt(s[1..], sub, i - 1);
        }
      }
      if exists i :: OccursAt(s[1..], sub, i) {
        var i :| OccursAt(s[1..], sub, i);
        assert OccursAt(s, sub, i + 1);
      }
      if HasPrefix(s, sub) {
        assert OccursAt(s, sub, 0);
      }
    } else {
      if exists i :: OccursAt(s, sub, i) {
        assert sub == [];
        assert HasPrefix(s, sub);
      }
      if Contains(s, sub) {
        assert OccursAt(s, sub, 0);
      }
    }
  }

  /** The handler treats a response as a page when its content type mentions "text/html". */
  function IsHtml(contentType: string): (html: bool)
    ensures HasPrefix(contentType, "text/html") ==> html
    ensures html ==> |contentType| >= 9
    ensures html <==> exists i :: OccursAt(contentType, "text/html", i)
  {
    ContainsAt(contentType, "text/html");
    Contains(contentType, "text/html")
  }

  /**
   * `DefaultDuplicateFilter`: the set of URLs seen so far, standing for the
   * `sync.Map` it stores them in.
   */
  class DefaultDuplicateFilter {
    var store: set<string>

    constructor ()
      ensures store == {}
    {
      store := {};
    }

    /** `TestURL`: whether `u` was seen before; afterwards it is seen. */
    method TestURL(u: string) returns (seen: bool)
      modifies this
      ensures seen <==> u in old(store)
      ensures store == old(store) + {u}
    {
      seen := u in store;
      store := store + {u};
    }
  }

  /** The GET request `Process` hands to the handler: its URL and headers. */
  datatype Request = Request(url: string, header: map<string, string>)

  /** What `Process` returns, and the request it handed to the handler, if any. */
  datatype Processed = Processed(err: Option<string>, handled: Option<Request>)

  /**
   * `DefaultRequestProcessor.Process`: `requestErr` is what building the
   * request returned, `response` what the driver returned (a status code or
   * an error), `handlerErr` what the handler returned.
   */
  function ProcessSpec(url: string, headers: map<string, string>, requestErr: Option<string>,
                       response: Result<int, string>, handlerErr: Option<string>): (p: Processed)
    ensures p.handled.Some? <==> p.err.None?
    ensures p.handled.Some? ==> p.handled.value.header == headers
  {
    if requestErr.Some? then Processed(requestErr, None)
    else if response.Err? then Processed(Some(response.error), None)
    else Processed(None, Some(Request(url, headers)))
  }

  /**
   * The processor's error policy: building and sending errors are
   * returned, and then the handler never runs; otherwise the handler gets
   * the request with every configured header and no error is returned,
   * whatever the handler reports.
   */
  lemma ProcessErrors(url: string, headers: map<string, string>, requestErr: Option<string>,
                      response: Result<int, string>, handlerErr: Option<string>)
    ensures var p := ProcessSpec(url, headers, requestErr, response, handlerErr);
            && (p.err.Some? <==> requestErr.Some? || response.Err?)
            && (p.handled.Some? <==> p.err.None?)
            && (p.handled.Some? ==> p.handled.value.url == url && p.handled.value.header == headers)
            && (forall e :: ProcessSpec(url, headers, requestErr, response, e) == p)
  {
  }

  /** `Process`, with its loop over the configured headers. */
  method Process(url: string, headers: map<string, string>, requestErr: Option<string>,
                 response: Result<int, string>, handlerErr: Option<string>) returns (p: Processed)
    ensures p == ProcessSpec(url, headers, requestErr, response, handlerErr)
  {
    if requestErr.Some? {
      return Processed(requestErr, None);
    }
    var header: map<string, string> := map[];
    var keys := headers.Keys;
    while keys != {}
      invariant keys <= headers.Keys
      invariant header.Keys == headers.Keys - keys
      invariant forall k :: k in header ==> header[k] == headers[k]
      decreases keys
    {
      var k :| k in keys;
      header := header[k := headers[k]];
      keys := keys - {k};
    }
    assert header == headers;
    if response.Err? {
      return Processed(Some(response.error), None);
    }
    // a handler error is only logged
    return Processed(None, Some(Request(url, header)));
  }
}
