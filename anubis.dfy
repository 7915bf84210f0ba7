/**
 * The `Anubis` crawler of the `anubis` package: its settings and options,
 * its duplicate-filtered URL queue, `Start`/`Cancel`, and the default
 * response handler that enqueues the links of a page and decides when the
 * crawl is over.
 */
module Anubis {
  import Results
  import opened Seqs
  import Urls
  import LinkUtils
  import Types

  // ---- settings and options ----

  /** The web driver in use: the default client, one built for a proxy, or another one. */
  datatype Driver = DefaultClient | ProxyClient(proxy: string) | CustomDriver

  /** The `Option` kinds; each sets one field. */
  datatype Option =
    | OutputOpt(output: string)
    | HeaderOpt(key: string, value: string)
    | NWorkerOpt(workers: int)
    | ProxyOpt(proxy: string)
    | WebDriverOpt
    | ResponseHandlerOpt

  /** The configurable fields of `Anubis`; `defaultHandler` says whether `Handler` is still the default one. */
  datatype Settings = Settings(output: string, workers: int, headers: map<string, string>, driver: Driver, defaultHandler: bool)

  /** What `NewAnubis` assigns before it applies any option. */
  const Defaults := Settings(".", 4, map[], DefaultClient, true)

  /** `SetOpt` of one option. */
  function SetOpt(s: Settings, o: Option): (t: Settings)
    ensures s.headers.Keys <= t.headers.Keys
    ensures !o.OutputOpt? ==> t.output == s.output
    ensures !o.NWorkerOpt? ==> t.workers == s.workers
    ensures !o.ResponseHandlerOpt? ==> t.defaultHandler == s.defaultHandler
  {
    match o
    case OutputOpt(p) => s.(output := p)
    case HeaderOpt(k, v) => s.(headers := s.headers[k := v])
    case NWorkerOpt(n) => s.(workers := n)
    case ProxyOpt(p) => if p == "" then s else s.(driver := ProxyClient(p))
    case WebDriverOpt => s.(driver := CustomDriver)
    case ResponseHandlerOpt => s.(defaultHandler := false)
  }

  /** The options applied in order. */
  function ApplyOptions(s: Settings, opts: seq<Option>): (t: Settings)
    ensures s.headers.Keys <= t.headers.Keys
    ensures |opts| > 0 && opts[|opts| - 1].OutputOpt? ==> t.output == opts[|opts| - 1].output
    decreases |opts|
  {
    if opts == [] then s else SetOpt(ApplyOptions(s, opts[..|opts| - 1]), opts[|opts| - 1])
  }

  /** The last `OutputOpt` decides the output directory. */
  lemma {:induction false} OutputLastWins(s: Settings, opts: seq<Option>, i: nat)
    requires i < |opts| && opts[i].OutputOpt?
    requires forall j :: i < j < |opts| ==> !opts[j].OutputOpt?
    ensures ApplyOptions(s, opts).output == opts[i].output
    decreases |opts|
  {
    if i < |opts| - 1 {
      var init := opts[..|opts| - 1];
      assert forall j :: i < j < |init| ==> init[j] == opts[j];
      OutputLastWins(s, init, i);
    }
  }

  /** The last `NWorkerOpt` decides the worker count. */
  lemma {:induction false} WorkersLastWins(s: Settings, opts: seq<Option>, i: nat)
    requires i < |opts| && opts[i].NWorkerOpt?
    requires forall j :: i < j < |opts| ==> !opts[j].NWorkerOpt?
    ensures ApplyOptions(s, opts).workers == opts[i].workers
    decreases |opts|
  {
    if i < |opts| - 1 {
      var init := opts[..|opts| - 1];
      assert forall j :: i < j < |init| ==> init[j] == opts[j];
      WorkersLastWins(s, init, i);
    }
  }

  /** The last `HeaderOpt` for a key decides that header. */
  lemma {:induction false} HeaderLastWins(s: Settings, opts: seq<Option>, i: nat)
    requires i < |opts| && opts[i].HeaderOpt?
    requires forall j :: i < j < |opts| ==> !(opts[j].HeaderOpt? && opts[j].key == opts[i].key)
    ensures opts[i].key in ApplyOptions(s, opts).headers
    ensures ApplyOptions(s, opts).headers[opts[i].key] == opts[i].value
    decreases |opts|
  {
    if i < |opts| - 1 {
      var init := opts[..|opts| - 1];
      assert forall j :: i < j < |init| ==> init[j] == opts[j];
      HeaderLastWins(s, init, i);
    }
  }

  /**
   * A field no option names keeps its value: the output, the worker count,
   * a header key no `HeaderOpt` sets, and the default handler.
   */
  lemma {:induction false} Untouched(s: Settings, opts: seq<Option>, k: string)
    ensures (forall j :: 0 <= j < |opts| ==> !opts[j].OutputOpt?) ==> ApplyOptions(s, opts).output == s.output
    ensures (forall j :: 0 <= j < |opts| ==> !opts[j].NWorkerOpt?) ==> ApplyOptions(s, opts).workers == s.workers
    ensures (forall j :: 0 <= j < |opts| ==> !(opts[j].HeaderOpt? && opts[j].key == k)) ==>
              (k in ApplyOptions(s, opts).headers <==> k in s.headers) &&
              (k in s.headers ==> ApplyOptions(s, opts).headers[k] == s.headers[k])
    ensures (forall j :: 0 <= j < |opts| ==> !opts[j].ResponseHandlerOpt?) ==> ApplyOptions(s, opts).defaultHandler == s.defaultHandler
    decreases |opts|
  {
    if opts != [] {
      var init := opts[..|opts| - 1];
      assert forall j :: 0 <= j < |init| ==> init[j] == opts[j];
      Untouched(s, init, k);
    }
  }

  // ---- the URL queue ----

  /**
   * The crawl state `AddURL`, `Start`, `Cancel` and the workers share: the
   * URLs the filter has seen, the queue channel's contents, whether `Start`
   * ran, whether the context is cancelled and whether the queue is closed.
   */
  datatype Crawl = Crawl(seen: set<string>, queue: seq<string>, started: bool, cancelled: bool, queueClosed: bool)

  /** The state `NewAnubis` leaves. */
  const Fresh := Crawl({}, [], false, false, false)

  /** The elements of a URL list, as a set. */
  function Elements(xs: seq<string>): set<string>
  {
    set x | x in xs
  }

  /** The state after `AddURL` and what it returned. */
  datatype Added = Added(crawl: Crawl, added: bool)

  /**
   * `AddURL`: nothing once the context is cancelled; otherwise the filter
   * records the URL and it is enqueued exactly when the filter had not seen it.
   */
  function AddSpec(c: Crawl, u: string): (r: Added)
    ensures r.added <==> !c.cancelled && u !in c.seen
    ensures !c.cancelled ==> r.crawl.seen == c.seen + {u}
    ensures c.cancelled ==> r.crawl == c
    ensures r.crawl.queue == c.queue + (if r.added then [u] else [])
    ensures r.crawl.cancelled == c.cancelled && r.crawl.started == c.started && r.crawl.queueClosed == c.queueClosed
  {
    if c.cancelled then Added(c, false)
    else if u in c.seen then Added(c, false)
    else Added(c.(seen := c.seen + {u}, queue := c.queue + [u]), true)
  }

  /** The state after `AddURL` of each URL in order, and the URLs for which it returned true. */
  datatype AddedAll = AddedAll(crawl: Crawl, accepted: seq<string>)

  function AddAll(c: Crawl, urls: seq<string>): (r: AddedAll)
    ensures |r.accepted| <= |urls| && c.seen <= r.crawl.seen
    ensures r.crawl.cancelled == c.cancelled && r.crawl.started == c.started && r.crawl.queueClosed == c.queueClosed
    decreases |urls|
  {
    if urls == [] then AddedAll(c, [])
    else
      var prev := AddAll(c, urls[..|urls| - 1]);
      var a := AddSpec(prev.crawl, urls[|urls| - 1]);
      AddedAll(a.crawl, prev.accepted + if a.added then [urls[|urls| - 1]] else [])
  }

  /**
   * Adding URLs to a live crawl accepts each URL the filter has not seen,
   * once, in order: they are what the queue grows by, and the filter
   * afterwards knows every URL offered.
   */
  lemma {:induction false} AddAllEffect(c: Crawl, urls: seq<string>)
    requires !c.cancelled
    ensures AddAll(c, urls).accepted == FirstSeen(c.seen, urls)
    ensures AddAll(c, urls).crawl == c.(seen := c.seen + Elements(urls), queue := c.queue + FirstSeen(c.seen, urls))
    decreases |urls|
  {
    if urls != [] {
      var init := urls[..|urls| - 1];
      var x := urls[|urls| - 1];
      assert init + [x] == urls;
      AddAllEffect(c, init);
      AddAllSnoc(c, init, x);
      FirstSeenSnoc(c.seen, init, x);
      ElementsSnoc(init, x);
      var prev := AddAll(c, init);
      var fs := FirstSeen(c.seen, init);
      if x in c.seen || x in init {
        assert c.seen + Elements(urls) == prev.crawl.seen;
      } else {
        assert c.queue + fs + [x] == c.queue + (fs + [x]);
      }
    }
  }

  /** Adding one more URL is one more `AddURL` after the others. */
  lemma AddAllSnoc(c: Crawl, urls: seq<string>, x: string)
    ensures var prev := AddAll(c, urls);
            var a := AddSpec(prev.crawl, x);
            AddAll(c, urls + [x]) == AddedAll(a.crawl, prev.accepted + if a.added then [x] else [])
  {
    assert (urls + [x])[..|urls|] == urls;
  }

  /** Whatever the crawl's state, the queue grows by exactly the accepted URLs. */
  lemma {:induction false} AddAllGrows(c: Crawl, urls: seq<string>)
    ensures AddAll(c, urls).crawl.queue == c.queue + AddAll(c, urls).accepted
    decreases |urls|
  {
    if urls != [] {
      var init := urls[..|urls| - 1];
      AddAllGrows(c, init);
      AddAllSnoc(c, init, urls[|urls| - 1]);
      assert init + [urls[|urls| - 1]] == urls;
    }
  }

  /** The elements of `xs + [x]` are those of `xs` and `x`. */
  lemma ElementsSnoc(xs: seq<string>, x: string)
    ensures Elements(xs + [x]) == Elements(xs) + {x}
    ensures x in Elements(xs) <==> x in xs
  {
  }

  /** After the context is cancelled, `AddURL` accepts nothing and changes nothing. */
  lemma {:induction false} AddAllCancelled(c: Crawl, urls: seq<string>)
    requires c.cancelled
    ensures AddAll(c, urls) == AddedAll(c, [])
    decreases |urls|
  {
    if urls != [] {
      AddAllCancelled(c, urls[..|urls| - 1]);
    }
  }

  /** A second `AddURL` of the same URL returns false and leaves the state as it was. */
  lemma AddTwice(c: Crawl, u: string)
    ensures var first := AddSpec(c, u);
            AddSpec(first.crawl, u) == Added(first.crawl, false)
  {
  }

  /** The state after a worker receives from the queue, and what it received. */
  datatype Taken = Taken(crawl: Crawl, url: Results.Option<string>)

  /** A worker's receive: the oldest queued URL, if there is one. */
  function TakeSpec(c: Crawl): (t: Taken)
    ensures t.url.Some? <==> c.queue != []
    ensures t.url.Some? ==> [t.url.value] + t.crawl.queue == c.queue
    ensures t.url.None? ==> t.crawl == c
    ensures t.crawl.seen == c.seen && t.crawl.cancelled == c.cancelled
  {
    if c.queue == [] then Taken(c, Results.None)
    else Taken(c.(queue := c.queue[1..]), Results.Some(c.queue[0]))
  }

  /** The URLs `n` receives hand to the workers, in order. */
  function Drain(c: Crawl, n: nat): seq<string>
    decreases n
  {
    if n == 0 then []
    else
      var t := TakeSpec(c);
      if t.url.None? then [] else [t.url.value] + Drain(t.crawl, n - 1)
  }

  /** Receiving hands out the queue's contents front first. */
  lemma {:induction false} DrainInOrder(c: Crawl, n: nat)
    requires n <= |c.queue|
    ensures Drain(c, n) == c.queue[..n]
    decreases n
  {
    if n > 0 {
      var t := TakeSpec(c);
      DrainInOrder(t.crawl, n - 1);
      assert c.queue[..n] == [c.queue[0]] + c.queue[1..][..n - 1];
    }
  }

  /** URLs come out of the queue in the order `AddURL` accepted them. */
  lemma AcceptedInOrder(c: Crawl, urls: seq<string>)
    requires !c.cancelled && c.queue == []
    ensures var a := AddAll(c, urls);
            Drain(a.crawl, |a.accepted|) == a.accepted
  {
    AddAllEffect(c, urls);
    var a := AddAll(c, urls);
    assert a.crawl.queue == a.accepted;
    DrainInOrder(a.crawl, |a.accepted|);
  }

  /** `Start`: a live context derived from the current one and the workers started. */
  function StartSpec(c: Crawl): (d: Crawl)
    ensures d.started && d.(started := c.started) == c
  {
    c.(started := true)
  }

  /** The state after `Cancel` and the panic it raised, if any. */
  datatype Cancelled = Cancelled(crawl: Crawl, panic: Results.Option<string>)

  /**
   * `Cancel`: before `Start` it panics; afterwards it cancels the context
   * and closes the queue, and closing an already closed queue panics.
   */
  function CancelSpec(c: Crawl): (k: Cancelled)
    ensures k.panic.None? ==> k.crawl.cancelled && k.crawl.queueClosed && !c.queueClosed
    ensures k.crawl.seen == c.seen && k.crawl.queue == c.queue && k.crawl.started == c.started
  {
    if !c.started then Cancelled(c, Results.Some("Anubis has not started, cannot cancel"))
    else if c.queueClosed then Cancelled(c.(cancelled := true), Results.Some("close of closed channel"))
    else Cancelled(c.(cancelled := true, queueClosed := true), Results.None)
  }

  /**
   * `Cancel` panics exactly before `Start` or when it already ran; after a
   * cancel that returned, `AddURL` refuses every URL and a second cancel panics.
   */
  lemma CancelEffect(c: Crawl, u: string)
    ensures CancelSpec(c).panic.Some? <==> !c.started || c.queueClosed
    ensures CancelSpec(c).panic.None? ==>
              var d := CancelSpec(c).crawl;
              d.queueClosed && AddSpec(d, u) == Added(d, false) && CancelSpec(d).panic.Some?
    ensures !c.started ==> CancelSpec(c).crawl == c && CancelSpec(StartSpec(c)).panic == (if c.queueClosed then Results.Some("close of closed channel") else Results.None)
  {
  }

  // ---- the default response handler ----

  type Bytes = seq<bv8>

  /** What `Handle` returns: the file it wrote, an error, or the panic it raised. */
  datatype HandleOutcome = Written(path: string, body: Bytes) | Failed(err: string) | Panicked(msg: string)

  /** The crawl, the needed links and the outcome after `Handle`. */
  datatype Handled = Handled(crawl: Crawl, needed: set<string>, outcome: HandleOutcome)

  /**
   * The links, scripts and images of a page, in that order, as the three
   * extractors collect them; scripts with the corrected length test of
   * `LinkUtils.GetScriptURLsIntended`.
   */
  function Found(shaped: Urls.Recognizer, parent: string, links: seq<seq<string>>, scripts: seq<seq<string>>, images: seq<seq<string>>): (r: seq<string>)
    ensures |r| <= |links| + |scripts| + |images|
  {
    LinkUtils.Collected(shaped, parent, links, 7, 4)
    + LinkUtils.Collected(shaped, parent, scripts, 8, 4)
    + LinkUtils.Collected(shaped, parent, images, 6, 3)
  }

  /**
   * `DefaultResponseHandler.Handle` for the request URL `req`: `body` is
   * the result of reading the response, `found` the URLs extracted from
   * it, `writeErr` the outcome of writing the file.
   */
  function HandleSpec(c: Crawl, needed: set<string>, output: string, req: Urls.Url, contentType: string,
                      body: Results.Result<Bytes, string>, found: seq<string>, writeErr: Results.Option<string>): (h: Handled)
    ensures body.Err? ==> h.crawl == c && h.needed == needed && h.outcome == Failed(body.error)
    ensures body.Ok? ==> req.ToString() !in h.needed
    ensures h.outcome.Written? ==> h.outcome.path == Urls.SavePath(output, req) && body == Results.Ok(h.outcome.body)
    ensures h.crawl.seen >= c.seen && c.queue <= h.crawl.queue
  {
    match body
    case Err(e) => Handled(c, needed, Failed(e))
    case Ok(b) =>
      AddAllGrows(c, found);
      var a := if Types.IsHtml(contentType) then AddAll(c, found) else AddedAll(c, []);
      var left := (needed + Elements(a.accepted)) - {req.ToString()};
      var k := if left == {} then CancelSpec(a.crawl) else Cancelled(a.crawl, Results.None);
      if k.panic.Some? then Handled(k.crawl, left, Panicked(k.panic.value))
      else if writeErr.Some? then Handled(k.crawl, left, Failed(writeErr.value))
      else Handled(k.crawl, left, Written(Urls.SavePath(output, req), b))
  }

  /**
   * Once the body is read, the request URL is no longer needed; a page of a
   * live crawl adds to the needed links exactly the URLs `AddURL` accepted,
   * and any other response, or any page handled after the crawl was
   * cancelled, adds nothing and queues nothing.
   */
  lemma HandleNeeded(c: Crawl, needed: set<string>, output: string, req: Urls.Url, contentType: string,
                     body: Results.Result<Bytes, string>, found: seq<string>, writeErr: Results.Option<string>)
    requires body.Ok?
    ensures var h := HandleSpec(c, needed, output, req, contentType, body, found, writeErr);
            && req.ToString() !in h.needed
            && (Types.IsHtml(contentType) && !c.cancelled ==>
                  h.needed == (needed + Elements(FirstSeen(c.seen, found))) - {req.ToString()}
                  && h.crawl.queue == c.queue + FirstSeen(c.seen, found))
            && (!Types.IsHtml(contentType) || c.cancelled ==>
                  h.needed == needed - {req.ToString()} && h.crawl.queue == c.queue)
  {
    if Types.IsHtml(contentType) {
      if c.cancelled {
        AddAllCancelled(c, found);
      } else {
        AddAllEffect(c, found);
      }
    }
  }

  /**
   * The crawl is cancelled by this response exactly when nothing is left
   * needed: then, if the crawl was started and its queue open, the queue is
   * closed; while something is still needed nothing is cancelled.
   */
  lemma HandleCancels(c: Crawl, needed: set<string>, output: string, req: Urls.Url, contentType: string,
                      body: Results.Result<Bytes, string>, found: seq<string>, writeErr: Results.Option<string>)
    requires body.Ok?
    ensures var h := HandleSpec(c, needed, output, req, contentType, body, found, writeErr);
            && (h.needed != {} ==> h.crawl.cancelled == c.cancelled && h.crawl.queueClosed == c.queueClosed && !h.outcome.Panicked?)
            && (h.needed == {} && c.started && !c.queueClosed ==> h.crawl.cancelled && h.crawl.queueClosed && !h.outcome.Panicked?)
            && (h.needed == {} && c.started && c.queueClosed ==> h.outcome == Panicked("close of closed channel"))
  {
    if Types.IsHtml(contentType) {
      if c.cancelled {
        AddAllCancelled(c, found);
      } else {
        AddAllEffect(c, found);
      }
    }
  }

  /**
   * A response whose body was read and whose write succeeded is stored at
   * `path.Join(Output, host, filename)`, with `index.html` for an empty path
   * or one ending in '/'.
   */
  lemma HandleWrites(c: Crawl, needed: set<string>, output: string, req: Urls.Url, contentType: string,
                     b: Bytes, found: seq<string>)
    requires !HandleSpec(c, needed, output, req, contentType, Results.Ok(b), found, Results.None).outcome.Panicked?
    ensures HandleSpec(c, needed, output, req, contentType, Results.Ok(b), found, Results.None).outcome
         == Written(Urls.SavePath(output, req), b)
    ensures req.path == "" || req.path[|req.path| - 1] == '/' ==>
              Urls.SavePath(output, req) == Urls.Paths.Join([output, req.Hostname(), "index.html"])
  {
  }

  /** A response whose body cannot be read changes nothing and returns the read error. */
  lemma HandleReadError(c: Crawl, needed: set<string>, output: string, req: Urls.Url, contentType: string,
                        e: string, found: seq<string>, writeErr: Results.Option<string>)
    ensures HandleSpec(c, needed, output, req, contentType, Results.Err(e), found, writeErr) == Handled(c, needed, Failed(e))
  {
  }

  // ---- the objects ----

  /** `Anubis`: its settings and its share of the crawl state. */
  class Anubis {
    var output: string
    var workers: int
    var headers: map<string, string>
    var driver: Driver
    var defaultHandler: bool
    const filter: Types.DefaultDuplicateFilter
    var queue: seq<string>
    var started: bool
    var cancelled: bool
    var queueClosed: bool

    function Config(): Settings
      reads this
    {
      Settings(output, workers, headers, driver, defaultHandler)
    }

    function Model(): Crawl
      reads this, filter
    {
      Crawl(filter.store, queue, started, cancelled, queueClosed)
    }

    /** `NewAnubis`: the defaults, then each option in order. */
    constructor (options: seq<Option>)
      ensures fresh(filter)
      ensures Config() == ApplyOptions(Defaults, options)
      ensures Model() == Fresh
    {
      output := ".";
      workers := 4;
      headers := map[];
      driver := DefaultClient;
      defaultHandler := true;
      filter := new Types.DefaultDuplicateFilter();
      queue := [];
      started := false;
      cancelled := false;
      queueClosed := false;
      new;
      for n := 0 to |options|
        invariant Config() == ApplyOptions(Defaults, options[..n])
        invariant Model() == Fresh
      {
        SetOption(options[n]);
        assert options[..n + 1][..n] == options[..n];
      }
      assert options[..|options|] == options;
    }

    /** `opt.SetOpt(a)`. */
    method SetOption(o: Option)
      modifies this
      ensures Config() == SetOpt(old(Config()), o)
      ensures Model() == old(Model())
    {
      match o
      case OutputOpt(p) =>
        output := p;
      case HeaderOpt(k, v) =>
        headers := headers[k := v];
      case NWorkerOpt(n) =>
        workers := n;
      case ProxyOpt(p) =>
        if p != "" {
          driver := ProxyClient(p);
        }
      case WebDriverOpt =>
        driver := CustomDriver;
      case ResponseHandlerOpt =>
        defaultHandler := false;
    }

    method Start()
      modifies this
      ensures Model() == StartSpec(old(Model()))
      ensures Config() == old(Config())
    {
      started := true;
    }

    method Cancel() returns (panic: Results.Option<string>)
      modifies this
      ensures Cancelled(Model(), panic) == CancelSpec(old(Model()))
      ensures Config() == old(Config())
    {
      if !started {
        return Results.Some("Anubis has not started, cannot cancel");
      }
      cancelled := true;
      if queueClosed {
        return Results.Some("close of closed channel");
      }
      queueClosed := true;
      return Results.None;
    }

    method AddURL(u: string) returns (added: bool)
      modifies this, filter
      ensures Added(Model(), added) == AddSpec(old(Model()), u)
      ensures Config() == old(Config())
    {
      if cancelled {
        return false;
      }
      var seen := filter.TestURL(u);
      if !seen {
        queue := queue + [u];
        return true;
      }
      return false;
    }

    /** One receive of a worker's `range queue`. */
    method Take() returns (u: Results.Option<string>)
      modifies this
      ensures Taken(Model(), u) == TakeSpec(old(Model()))
      ensures Config() == old(Config())
    {
      if queue == [] {
        return Results.None;
      }
      u := Results.Some(queue[0]);
      queue := queue[1..];
    }
  }

  /** `DefaultResponseHandler`: the owning instance and the links still needed. */
  class DefaultResponseHandler {
    const anubis: Anubis
    var neededLinks: set<string>

    constructor (a: Anubis)
      ensures anubis == a && neededLinks == {}
    {
      anubis := a;
      neededLinks := {};
    }

    /** The loop of `Handle` over the extracted URLs: each one `AddURL` accepts becomes needed. */
    method Enqueue(urls: seq<string>)
      modifies this, anubis, anubis.filter
      ensures anubis.Model() == AddAll(old(anubis.Model()), urls).crawl
      ensures neededLinks == old(neededLinks) + Elements(AddAll(old(anubis.Model()), urls).accepted)
      ensures anubis.Config() == old(anubis.Config())
    {
      ghost var c := anubis.Model();
      for n := 0 to |urls|
        invariant anubis.Model() == AddAll(c, urls[..n]).crawl
        invariant neededLinks == old(neededLinks) + Elements(AddAll(c, urls[..n]).accepted)
        invariant anubis.Config() == old(anubis.Config())
      {
        assert urls[..n + 1][..n] == urls[..n];
        var added := anubis.AddURL(urls[n]);
        if added {
          neededLinks := neededLinks + {urls[n]};
        }
        assert Elements(AddAll(c, urls[..n + 1]).accepted)
            == Elements(AddAll(c, urls[..n]).accepted) + (if added then {urls[n]} else {});
      }
      assert urls[..|urls|] == urls;
    }

    method Handle(shaped: Urls.Recognizer, req: Urls.Url, contentType: string, body: Results.Result<Bytes, string>,
                  links: seq<seq<string>>, scripts: seq<seq<string>>, images: seq<seq<string>>,
                  writeErr: Results.Option<string>) returns (outcome: HandleOutcome)
      modifies this, anubis, anubis.filter
      ensures Handled(anubis.Model(), neededLinks, outcome)
           == HandleSpec(old(anubis.Model()), old(neededLinks), anubis.output, req, contentType, body,
                         Found(shaped, req.ToString(), links, scripts, images), writeErr)
      ensures anubis.Config() == old(anubis.Config())
    {
      if body.Err? {
        return Failed(body.error);
      }
      ghost var c := anubis.Model();
      ghost var a := AddedAll(c, []);
      if Types.IsHtml(contentType) {
        var parent := req.ToString();
        var fromLinks := LinkUtils.GetLinkURLs(shaped, parent, links);
        var fromScripts := LinkUtils.GetScriptURLsIntended(shaped, parent, scripts);
        var fromImages := LinkUtils.GetImageURLs(shaped, parent, images);
        var urls := fromLinks + fromScripts + fromImages;
        assert urls == Found(shaped, parent, links, scripts, images);
        Enqueue(urls);
        a := AddAll(c, urls);
      }
      assert anubis.Model() == a.crawl && neededLinks == old(neededLinks) + Elements(a.accepted);
      neededLinks := neededLinks - {req.ToString()};
      if |neededLinks| == 0 {
        var panic := anubis.Cancel();
        if panic.Some? {
          return Panicked(panic.value);
        }
      }
      if writeErr.Some? {
        return Failed(writeErr.value);
      }
      return Written(Urls.SavePath(anubis.output, req), body.value);
    }
  }
}
