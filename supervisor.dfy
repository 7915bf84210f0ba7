/**
 * The supervisor of the internal package as a sequential event processor:
 * the recorded state of every worker, the URL store, what each worker's
 * inbox has been sent, and the `done` signals.
 */
module Supervisor {
  import opened Results
  import opened Seqs
  import Urls
  import UrlManager
  import Worker
  import Discovery

  type WorkerState = Worker.WorkerState

  /** A state announcement: worker `id` is now in `state`. */
  datatype StateEvent = StateEvent(id: nat, state: WorkerState)

  /**
   * The supervisor's state: the URL store, the state recorded for each
   * worker (`currentStates`), the URLs sent to each worker's inbox, whether
   * the inboxes are closed, how often `done` was signalled, and the errors
   * sent to the error channel.
   */
  datatype Sup = Sup(
    store: UrlManager.Store,
    states: seq<WorkerState>,
    inboxes: seq<seq<string>>,
    inboxesClosed: bool,
    done: nat,
    errors: seq<string>)

  /** Every worker's recorded state and inbox exist. */
  predicate WellSized(s: Sup)
  {
    |s.inboxes| == |s.states|
  }

  /** `NewSupervisor` with `workers` workers: every state is 0, that is Inactive. */
  function Initial(workers: nat): (s: Sup)
    ensures WellSized(s) && |s.states| == workers
  {
    Sup(UrlManager.EmptyStore, seq(workers, _ => Worker.Inactive), seq(workers, _ => []), false, 0, [])
  }

  /** A worker that counts as done for the exit check. */
  predicate Idle(st: WorkerState)
  {
    st == Worker.Inactive || st == Worker.Finished
  }

  predicate AllIdle(states: seq<WorkerState>)
  {
    forall i :: 0 <= i < |states| ==> Idle(states[i])
  }

  /** `sendWork`: the head of the queue goes to worker `id`, now Receiving. */
  function SendWorkSpec(s: Sup, id: nat): (r: Sup)
    requires WellSized(s) && id < |s.states|
    ensures WellSized(r) && |r.states| == |s.states|
  {
    var sh := UrlManager.ShiftSpec(s.store);
    if !sh.ok then s
    else s.(store := sh.store,
            states := s.states[id := Worker.Receiving],
            inboxes := s.inboxes[id := s.inboxes[id] + [sh.url]])
  }

  /** `checkExitCondition`: worker `id` is Inactive; signal `done` if all is finished. */
  function ExitCheckSpec(s: Sup, id: nat): (r: Sup)
    requires WellSized(s) && id < |s.states|
    ensures WellSized(r) && |r.states| == |s.states|
  {
    var states := s.states[id := Worker.Inactive];
    s.(states := states,
       done := s.done + if AllIdle(states) && s.store.queue == [] then 1 else 0)
  }

  /** One iteration of the `monitorWorkers` loop. */
  function HandleEventSpec(s: Sup, e: StateEvent): (r: Sup)
    requires WellSized(s) && e.id < |s.states|
    ensures WellSized(r) && |r.states| == |s.states|
  {
    match e.state
    case Inactive => SendWorkSpec(ExitCheckSpec(s, e.id), e.id)
    case Waiting => SendWorkSpec(s, e.id)
    case Stopping => s.(states := s.states[e.id := Worker.Stopping])
    case Finished => s.(states := s.states[e.id := Worker.Finished])
    case _ => s.(states := s.states[e.id := Worker.Running])
  }

  /** A worker the discovery loop hands work to. */
  predicate Available(st: WorkerState)
  {
    st == Worker.Inactive || st == Worker.Waiting
  }

  /** The discovery loop's scan over the first `k` workers, in id order. */
  function Scan(s: Sup, k: nat): (r: Sup)
    requires WellSized(s) && k <= |s.states|
    ensures WellSized(r) && |r.states| == |s.states|
  {
    if k == 0 then s
    else
      var t := Scan(s, k - 1);
      if Available(t.states[k - 1]) then SendWorkSpec(t, k - 1) else t
  }

  /** The scan only hands out work: it reports no error, closes nothing and signals nothing. */
  lemma {:induction false} ScanKeeps(s: Sup, k: nat)
    requires WellSized(s) && k <= |s.states|
    ensures var r := Scan(s, k);
            r.errors == s.errors && r.inboxesClosed == s.inboxesClosed && r.done == s.done
  {
    if k > 0 {
      ScanKeeps(s, k - 1);
    }
  }

  /** The error texts of a `QueueLinks` call. */
  function Messages(errs: seq<UrlManager.QueueError>): (m: seq<string>)
    ensures |m| == |errs| && forall i :: 0 <= i < |errs| ==> m[i] == errs[i].Message()
  {
    seq(|errs|, i requires 0 <= i < |errs| => errs[i].Message())
  }

  /**
   * One iteration of the discovery loop: a link the judge accepts is
   * queued, its errors are reported, and every available worker is sent
   * work; a rejected link changes nothing.
   */
  function DiscoverSpec(s: Sup, judge: Discovery.DiscoveredLink -> bool, f: Discovery.DiscoveredLink): (t: Sup)
    requires WellSized(s)
    ensures WellSized(t) && |t.states| == |s.states|
    ensures !judge(f) ==> t == s
    ensures s.errors <= t.errors && t.inboxesClosed == s.inboxesClosed && t.done == s.done
  {
    if !judge(f) then s
    else
      var q := UrlManager.QueueLinksSpec(s.store, [f.url.ToString()]);
      var queued := s.(store := q.store, errors := s.errors + Messages(q.errors));
      ScanKeeps(queued, |s.states|);
      Scan(queued, |s.states|)
  }

  /** `Terminate`: close every inbox, close the store and empty its queue. */
  function TerminateSpec(s: Sup): (t: Sup)
    ensures t.inboxesClosed && t.store.closed && t.store.queue == []
    ensures t.states == s.states && t.inboxes == s.inboxes && t.store.completed == s.store.completed
  {
    s.(inboxesClosed := true, store := s.store.(closed := true, queue := []))
  }

  /** The sent-channel consumer: record the response in the store. */
  function RecordSpec(s: Sup, c: Worker.CompletedRequest): (t: Sup)
    ensures t.store.completed.Keys == s.store.completed.Keys + {c.url}
    ensures t.store.completed[c.url] == c.statusCode
    ensures t.store.queue == s.store.queue && t.states == s.states && t.inboxes == s.inboxes
  {
    s.(store := s.store.(completed := s.store.completed[c.url := c.statusCode]))
  }

  // ---- the exit condition ----

  /**
   * `checkExitCondition(id)` records worker `id` as Inactive, changes no
   * other state, and signals `done` once exactly when every other worker is
   * Inactive or Finished and the queue is empty.
   */
  lemma ExitCondition(s: Sup, id: nat)
    requires WellSized(s) && id < |s.states|
    ensures ExitCheckSpec(s, id).states[id] == Worker.Inactive
    ensures forall j :: 0 <= j < |s.states| && j != id ==> ExitCheckSpec(s, id).states[j] == s.states[j]
    ensures ExitCheckSpec(s, id).done == s.done + 1 <==>
              (forall j :: 0 <= j < |s.states| && j != id ==> Idle(s.states[j])) && s.store.queue == []
    ensures ExitCheckSpec(s, id).done == s.done || ExitCheckSpec(s, id).done == s.done + 1
    ensures ExitCheckSpec(s, id).store == s.store && ExitCheckSpec(s, id).inboxes == s.inboxes
  {
    var states := s.states[id := Worker.Inactive];
    if forall j :: 0 <= j < |s.states| && j != id ==> Idle(s.states[j]) {
      forall j | 0 <= j < |states| ensures Idle(states[j]) {
        if j != id { assert states[j] == s.states[j]; }
      }
    } else {
      var j :| 0 <= j < |s.states| && j != id && !Idle(s.states[j]);
      assert states[j] == s.states[j];
    }
  }

  // ---- the effect of a state announcement ----

  /**
   * What one announcement does to the recorded states: Inactive and Waiting
   * lead to `sendWork`, so the worker is Receiving if the queue had a URL
   * (Inactive is recorded first, Waiting never is); Stopping and Finished
   * are recorded; Running and Receiving are recorded as Running. No other
   * worker's state changes, and only Inactive and Waiting touch the queue.
   */
  lemma EventEffect(s: Sup, e: StateEvent)
    requires WellSized(s) && e.id < |s.states|
    ensures var r := HandleEventSpec(s, e);
      && WellSized(r) && |r.states| == |s.states|
      && (forall j :: 0 <= j < |s.states| && j != e.id ==> r.states[j] == s.states[j])
      && r.states[e.id] == (match e.state
           case Inactive => if s.store.queue != [] then Worker.Receiving else Worker.Inactive
           case Waiting => if s.store.queue != [] then Worker.Receiving else s.states[e.id]
           case Stopping => Worker.Stopping
           case Finished => Worker.Finished
           case _ => Worker.Running)
      && (!Available(e.state) ==> r.store == s.store && r.inboxes == s.inboxes)
  {
  }

  // ---- exactly-once dispatch ----

  /** Every URL handed to a worker or still queued, counted with repetition. */
  ghost function Outstanding(s: Sup): multiset<string>
  {
    multiset(Flatten(s.inboxes)) + multiset(s.store.queue)
  }

  /**
   * The dispatch invariant: no URL is queued or handed out twice, and each
   * one is known to the store, which therefore refuses to queue it again.
   */
  ghost predicate Dispatched(s: Sup)
  {
    && (forall x :: Outstanding(s)[x] <= 1)
    && (forall x :: x in Outstanding(s) ==> x in s.store.completed)
  }

  /** The invariant survives any step that hands out or drops URLs but adds none and forgets no key. */
  lemma DispatchedFrame(s: Sup, t: Sup)
    requires Dispatched(s)
    requires Outstanding(t) <= Outstanding(s)
    requires s.store.completed.Keys <= t.store.completed.Keys
    ensures Dispatched(t)
  {
    forall x ensures Outstanding(t)[x] <= 1 {
      assert Outstanding(t)[x] <= Outstanding(s)[x];
    }
    forall x | x in Outstanding(t) ensures x in t.store.completed {
      assert x in Outstanding(s);
    }
  }

  lemma InitialDispatched(workers: nat)
    ensures Dispatched(Initial(workers))
  {
    var s := Initial(workers);
    FlattenEmpty(s.inboxes);
  }

  lemma {:induction false} FlattenEmpty<T>(ss: seq<seq<T>>)
    requires forall i :: 0 <= i < |ss| ==> ss[i] == []
    ensures Flatten(ss) == []
    decreases |ss|
  {
    if ss != [] {
      FlattenEmpty(ss[1..]);
    }
  }

  lemma SendWorkDispatched(s: Sup, id: nat)
    requires WellSized(s) && id < |s.states| && Dispatched(s)
    ensures Dispatched(SendWorkSpec(s, id))
    ensures Outstanding(SendWorkSpec(s, id)) == Outstanding(s)
  {
    var q := s.store.queue;
    if q != [] {
      FlattenUpdateAppend(s.inboxes, id, q[0]);
      assert q == [q[0]] + q[1..];
      assert multiset(q) == multiset{q[0]} + multiset(q[1..]);
    }
    DispatchedFrame(s, SendWorkSpec(s, id));
  }

  lemma ExitCheckDispatched(s: Sup, id: nat)
    requires WellSized(s) && id < |s.states| && Dispatched(s)
    ensures Dispatched(ExitCheckSpec(s, id)) && Outstanding(ExitCheckSpec(s, id)) == Outstanding(s)
  {
    DispatchedFrame(s, ExitCheckSpec(s, id));
  }

  lemma HandleEventDispatched(s: Sup, e: StateEvent)
    requires WellSized(s) && e.id < |s.states| && Dispatched(s)
    ensures Dispatched(HandleEventSpec(s, e))
  {
    match e.state
    case Inactive =>
      ExitCheckDispatched(s, e.id);
      SendWorkDispatched(ExitCheckSpec(s, e.id), e.id);
    case Waiting =>
      SendWorkDispatched(s, e.id);
    case _ =>
      DispatchedFrame(s, HandleEventSpec(s, e));
  }

  /** One step of the scan keeps the invariant and the outstanding URLs. */
  lemma ScanStepDispatched(s: Sup, k: nat)
    requires WellSized(s) && 0 < k <= |s.states| && Dispatched(Scan(s, k - 1))
    ensures Dispatched(Scan(s, k)) && Outstanding(Scan(s, k)) == Outstanding(Scan(s, k - 1))
  {
    var t := Scan(s, k - 1);
    if Available(t.states[k - 1]) {
      SendWorkDispatched(t, k - 1);
    }
  }

  lemma {:induction false} ScanDispatched(s: Sup, k: nat)
    requires WellSized(s) && k <= |s.states| && Dispatched(s)
    ensures Dispatched(Scan(s, k)) && Outstanding(Scan(s, k)) == Outstanding(s)
  {
    if k > 0 {
      ScanDispatched(s, k - 1);
      ScanStepDispatched(s, k);
    }
  }

  /** Queueing a discovered link adds it to the outstanding URLs only if the store did not know it. */
  lemma QueueOneDispatched(s: Sup, u: string)
    requires Dispatched(s)
    ensures var t := s.(store := UrlManager.QueueLinksSpec(s.store, [u]).store);
      Dispatched(t) && s.store.completed.Keys <= t.store.completed.Keys
  {
    if !s.store.closed {
      var k := s.store.completed.Keys;
      UrlManager.AcceptQueue(s.store, [u]);
      UrlManager.AcceptKeys(s.store, [u]);
      assert [u][1..] == [];
      var t := s.(store := UrlManager.QueueLinksSpec(s.store, [u]).store);
      if u !in k {
        assert t.store.queue == s.store.queue + [u];
        assert Outstanding(t) == Outstanding(s) + multiset{u};
        assert u !in Outstanding(s);
      } else {
        assert t.store.queue == s.store.queue;
      }
    }
  }

  lemma DiscoverDispatched(s: Sup, judge: Discovery.DiscoveredLink -> bool, f: Discovery.DiscoveredLink)
    requires WellSized(s) && Dispatched(s)
    ensures Dispatched(DiscoverSpec(s, judge, f))
  {
    if judge(f) {
      var u := f.url.ToString();
      var q := UrlManager.QueueLinksSpec(s.store, [u]);
      QueueOneDispatched(s, u);
      var t := s.(store := q.store, errors := s.errors + Messages(q.errors));
      assert Outstanding(t) == Outstanding(s.(store := q.store));
      ScanDispatched(t, |s.states|);
    }
  }

  lemma TerminateDispatched(s: Sup)
    requires Dispatched(s)
    ensures Dispatched(TerminateSpec(s))
  {
    assert multiset(TerminateSpec(s).store.queue) == multiset{};
    DispatchedFrame(s, TerminateSpec(s));
  }

  lemma RecordDispatched(s: Sup, c: Worker.CompletedRequest)
    requires Dispatched(s)
    ensures Dispatched(RecordSpec(s, c))
  {
    DispatchedFrame(s, RecordSpec(s, c));
  }

  /**
   * Exactly-once dispatch: under the invariant, no URL has been sent to
   * workers twice, whether to the same worker or to two of them.
   */
  lemma SentAtMostOnce(s: Sup, x: string)
    requires Dispatched(s)
    ensures multiset(Flatten(s.inboxes))[x] <= 1
  {
    assert Outstanding(s)[x] == multiset(Flatten(s.inboxes))[x] + multiset(s.store.queue)[x];
  }

  // ---- Waiting is never recorded ----

  /** No worker is recorded as Waiting. */
  predicate NoWaiting(s: Sup)
  {
    forall i :: 0 <= i < |s.states| ==> s.states[i] != Worker.Waiting
  }

  /**
   * A Waiting announcement is never recorded, and nothing else records
   * Waiting, so no recorded state is ever Waiting: the discovery loop's test
   * for Waiting never succeeds, and only Inactive workers are sent work.
   */
  lemma WaitingNeverRecorded(s: Sup, e: StateEvent, judge: Discovery.DiscoveredLink -> bool,
                              f: Discovery.DiscoveredLink, c: Worker.CompletedRequest)
    requires WellSized(s) && NoWaiting(s) && e.id < |s.states|
    ensures NoWaiting(HandleEventSpec(s, e))
    ensures NoWaiting(DiscoverSpec(s, judge, f))
    ensures NoWaiting(TerminateSpec(s)) && NoWaiting(RecordSpec(s, c))
    ensures forall i :: 0 <= i < |s.states| ==> (Available(s.states[i]) <==> s.states[i] == Worker.Inactive)
  {
    if judge(f) {
      var q := UrlManager.QueueLinksSpec(s.store, [f.url.ToString()]);
      ScanNoWaiting(s.(store := q.store, errors := s.errors + Messages(q.errors)), |s.states|);
    }
  }

  lemma {:induction false} ScanNoWaiting(s: Sup, k: nat)
    requires WellSized(s) && k <= |s.states| && NoWaiting(s)
    ensures NoWaiting(Scan(s, k))
  {
    if k > 0 {
      ScanNoWaiting(s, k - 1);
    }
  }

  // ---- who receives a discovered link ----

  /** With an empty queue the scan sends nothing. */
  lemma {:induction false} ScanIdle(s: Sup, k: nat)
    requires WellSized(s) && k <= |s.states| && s.store.queue == []
    ensures Scan(s, k) == s
  {
    if k > 0 {
      ScanIdle(s, k - 1);
    }
  }

  /** Once the scan has emptied the queue, the rest of it sends nothing. */
  lemma {:induction false} ScanRest(s: Sup, k: nat, m: nat)
    requires WellSized(s) && k <= m <= |s.states| && Scan(s, k).store.queue == []
    ensures Scan(s, m) == Scan(s, k)
    decreases m
  {
    if m > k {
      ScanRest(s, k, m - 1);
    }
  }

  /** Before the first available worker, the scan sends nothing. */
  lemma {:induction false} ScanBefore(s: Sup, k: nat)
    requires WellSized(s) && k <= |s.states|
    requires forall j :: 0 <= j < k ==> !Available(s.states[j])
    ensures Scan(s, k) == s
  {
    if k > 0 {
      ScanBefore(s, k - 1);
    }
  }

  /**
   * A link that is new to an open store with an empty queue goes to the
   * available worker with the lowest id, which is then Receiving; no other
   * worker's state or inbox changes and the queue is empty again. If no
   * worker is available, the link stays queued.
   */
  lemma NewLinkDispatch(s: Sup, judge: Discovery.DiscoveredLink -> bool, f: Discovery.DiscoveredLink, i: nat)
    requires WellSized(s) && judge(f) && !s.store.closed && s.store.queue == []
    requires f.url.ToString() !in s.store.completed
    requires i < |s.states| && Available(s.states[i])
    requires forall j :: 0 <= j < i ==> !Available(s.states[j])
    ensures var r := DiscoverSpec(s, judge, f);
      && r.store.queue == []
      && r.inboxes == s.inboxes[i := s.inboxes[i] + [f.url.ToString()]]
      && r.states == s.states[i := Worker.Receiving]
  {
    var u := f.url.ToString();
    UrlManager.AcceptQueue(s.store, [u]);
    assert [u][1..] == [];
    var q := UrlManager.QueueLinksSpec(s.store, [u]);
    assert q.store.queue == [u];
    var t := s.(store := q.store, errors := s.errors + Messages(q.errors));
    ScanBefore(t, i);
    assert Scan(t, i + 1) == SendWorkSpec(t, i);
    ScanRest(t, i + 1, |s.states|);
  }

  lemma NoWorkerAvailable(s: Sup, judge: Discovery.DiscoveredLink -> bool, f: Discovery.DiscoveredLink)
    requires WellSized(s) && judge(f)
    requires forall j :: 0 <= j < |s.states| ==> !Available(s.states[j])
    ensures DiscoverSpec(s, judge, f).store == UrlManager.QueueLinksSpec(s.store, [f.url.ToString()]).store
    ensures DiscoverSpec(s, judge, f).states == s.states && DiscoverSpec(s, judge, f).inboxes == s.inboxes
  {
    var q := UrlManager.QueueLinksSpec(s.store, [f.url.ToString()]);
    ScanBefore(s.(store := q.store, errors := s.errors + Messages(q.errors)), |s.states|);
  }

  // ---- termination ----

  /**
   * After `Terminate` the queue is empty, every later `QueueLinks` is
   * refused with one error, and a discovered link only adds that error:
   * no worker is sent anything.
   */
  lemma TerminateRefuses(s: Sup, links: seq<string>, judge: Discovery.DiscoveredLink -> bool,
                         f: Discovery.DiscoveredLink)
    requires WellSized(s)
    ensures TerminateSpec(s).store.queue == [] && TerminateSpec(s).inboxesClosed
    ensures UrlManager.QueueLinksSpec(TerminateSpec(s).store, links)
         == UrlManager.Queued(TerminateSpec(s).store, [UrlManager.QueueClosed])
    ensures var t := TerminateSpec(s);
      DiscoverSpec(t, judge, f) == if judge(f) then t.(errors := t.errors + ["Queue is not accepting new urls"]) else t
  {
    var t := TerminateSpec(s);
    if judge(f) {
      var t1 := t.(errors := t.errors + ["Queue is not accepting new urls"]);
      assert Messages([UrlManager.QueueClosed]) == ["Queue is not accepting new urls"];
      ScanIdle(t1, |s.states|);
    }
  }

  // ---- the monitor loop ----

  /** Every announcement comes from one of the workers. */
  predicate FromWorkers(events: seq<StateEvent>, workers: nat)
  {
    forall k :: 0 <= k < |events| ==> events[k].id < workers
  }

  /** `monitorWorkers` over the announcements `events`, in order. */
  function MonitorSpec(s: Sup, events: seq<StateEvent>): (r: Sup)
    requires WellSized(s) && FromWorkers(events, |s.states|)
    ensures WellSized(r) && |r.states| == |s.states|
    decreases |events|
  {
    if events == [] then s
    else HandleEventSpec(MonitorSpec(s, events[..|events| - 1]), events[|events| - 1])
  }

  /**
   * The monitor loop keeps both invariants: nothing is handed out twice and
   * no worker is ever recorded as Waiting.
   */
  lemma {:induction false} MonitorInvariants(s: Sup, events: seq<StateEvent>)
    requires WellSized(s) && FromWorkers(events, |s.states|)
    requires Dispatched(s) && NoWaiting(s)
    ensures Dispatched(MonitorSpec(s, events)) && NoWaiting(MonitorSpec(s, events))
    decreases |events|
  {
    if events != [] {
      var init := events[..|events| - 1];
      var e := events[|events| - 1];
      MonitorInvariants(s, init);
      var t := MonitorSpec(s, init);
      HandleEventDispatched(t, e);
      WaitingNeverRecorded(t, e, _ => false, Discovery.DiscoveredLink(Urls.Url("", "", "", ""), Urls.Url("", "", "", "")),
                           Worker.CompletedRequest("", 0));
    }
  }

  // ---- the seed URLs ----

  /** The result of requesting the sitemap: a transport error, or a status and the parsed URL list. */
  datatype SitemapFetch = SitemapFailed(err: string) | SitemapResponse(status: int, parsed: Result<seq<string>, string>)

  /** The configuration `buildSeedUrls` reads: `Sitemap`, `Seed` and `Url`. */
  datatype SeedConfig = SeedConfig(sitemap: string, seed: seq<string>, url: string)

  /** The sitemap's URLs, or none when no sitemap is configured or its status is 300 or more. */
  function SitemapUrls(c: SeedConfig, fetch: SitemapFetch): (r: Result<seq<string>, string>)
    ensures c.sitemap == "" ==> r == Ok([])
    ensures r.Err? ==> c.sitemap != "" && (fetch.SitemapFailed? || fetch.parsed.Err?)
  {
    if c.sitemap == "" then Ok([])
    else match fetch
      case SitemapFailed(e) => Err(e)
      case SitemapResponse(status, parsed) => if status < 300 then parsed else Ok([])
  }

  /**
   * The URL texts of `seeds` in order, or the error for the first seed that
   * is not URL-shaped or does not parse.
   */
  function ParseSeeds(shaped: Urls.Recognizer, seeds: seq<string>): (r: Result<seq<Urls.Url>, string>)
    ensures r.Ok? ==> UrlManager.Texts(r.value) == seeds
    decreases |seeds|
  {
    if seeds == [] then Ok([])
    else
      var init := seeds[..|seeds| - 1];
      var last := seeds[|seeds| - 1];
      var front := ParseSeeds(shaped, init);
      var p := Urls.ParseUrl(shaped, last);
      if front.Err? then front
      else if p.Err? then Err(last + " is not a valid url")
      else
        UrlManager.TextsSnoc(front.value, p.value);
        assert seeds == init + [last];
        Ok(front.value + [p.value])
  }

  /** `ParseSeeds` succeeds exactly when every seed passes `ParseUrl`. */
  lemma {:induction false} ParseSeedsOk(shaped: Urls.Recognizer, seeds: seq<string>)
    ensures ParseSeeds(shaped, seeds).Ok? <==> forall i :: 0 <= i < |seeds| ==> Urls.ParseUrl(shaped, seeds[i]).Ok?
    decreases |seeds|
  {
    if seeds != [] {
      var init := seeds[..|seeds| - 1];
      var last := seeds[|seeds| - 1];
      ParseSeedsOk(shaped, init);
      ParseSeedsSnocOk(shaped, seeds);
      AllParseSnoc(shaped, init, last);
      assert seeds == init + [last];
    }
  }

  /** One step of `ParseSeeds`: the whole list parses when its front does and its last seed does. */
  lemma ParseSeedsSnocOk(shaped: Urls.Recognizer, seeds: seq<string>)
    requires seeds != []
    ensures ParseSeeds(shaped, seeds).Ok? <==>
              ParseSeeds(shaped, seeds[..|seeds| - 1]).Ok? && Urls.ParseUrl(shaped, seeds[|seeds| - 1]).Ok?
  {
  }

  /** Every seed of `init + [last]` parses exactly when every seed of `init` does and `last` does. */
  lemma AllParseSnoc(shaped: Urls.Recognizer, init: seq<string>, last: string)
    ensures (forall i :: 0 <= i < |init + [last]| ==> Urls.ParseUrl(shaped, (init + [last])[i]).Ok?) <==>
              (forall i :: 0 <= i < |init| ==> Urls.ParseUrl(shaped, init[i]).Ok?) && Urls.ParseUrl(shaped, last).Ok?
  {
    var seeds := init + [last];
    if forall i :: 0 <= i < |seeds| ==> Urls.ParseUrl(shaped, seeds[i]).Ok? {
      forall i | 0 <= i < |init| ensures Urls.ParseUrl(shaped, init[i]).Ok? {
        assert seeds[i] == init[i];
      }
      assert seeds[|init|] == last;
    }
    if (forall i :: 0 <= i < |init| ==> Urls.ParseUrl(shaped, init[i]).Ok?) && Urls.ParseUrl(shaped, last).Ok? {
      forall i | 0 <= i < |seeds| ensures Urls.ParseUrl(shaped, seeds[i]).Ok? {
        if i < |init| {
          assert seeds[i] == init[i];
        }
      }
    }
  }

  /** The error text for failed queueing: a fixed prefix and each message followed by a newline. */
  function QueueErrorText(errs: seq<UrlManager.QueueError>): (t: string)
    ensures "Errors occurred when queueing urls: " <= t
    ensures |t| >= 36 + |errs|
    decreases |errs|
  {
    if errs == [] then "Errors occurred when queueing urls: "
    else QueueErrorText(errs[..|errs| - 1]) + errs[|errs| - 1].Message() + "\n"
  }

  /** The store after `buildSeedUrls` and the error it returns, if any. */
  datatype SeedOutcome = SeedOutcome(store: UrlManager.Store, err: Option<string>)

  /** The seed list: the sitemap's URLs, then `Seed`, then `Url` if it is set. */
  function SeedList(c: SeedConfig, fetch: SitemapFetch): (r: Result<seq<string>, string>)
    ensures r.Ok? <==> SitemapUrls(c, fetch).Ok?
    ensures r.Ok? ==> |r.value| >= |c.seed| + (if c.url != "" then 1 else 0)
    ensures r.Ok? && c.url != "" ==> r.value[|r.value| - 1] == c.url
  {
    match SitemapUrls(c, fetch)
    case Err(e) => Err(e)
    case Ok(sm) => Ok(sm + c.seed + (if c.url != "" then [c.url] else []))
  }

  /** The seeds parsed, then queued; an empty list is an error too. */
  function QueueSeedsSpec(shaped: Urls.Recognizer, st: UrlManager.Store, seeds: seq<string>): (o: SeedOutcome)
    ensures o.store.closed == st.closed && st.queue <= o.store.queue
    ensures o.err.None? ==> |seeds| > 0
  {
    match ParseSeeds(shaped, seeds)
    case Err(e) => SeedOutcome(st, Some(e))
    case Ok(urls) =>
      var q := UrlManager.QueueLinksSpec(st, UrlManager.Texts(urls));
      if q.errors != [] then SeedOutcome(q.store, Some(QueueErrorText(q.errors)))
      else if |seeds| == 0 then SeedOutcome(q.store, Some("No seed urls found. Exiting..."))
      else SeedOutcome(q.store, None)
  }

  function BuildSeedSpec(shaped: Urls.Recognizer, st: UrlManager.Store, c: SeedConfig, fetch: SitemapFetch): (o: SeedOutcome)
    ensures o.store.closed == st.closed && st.queue <= o.store.queue
    ensures o.err.None? ==> SeedList(c, fetch).Ok? && SeedList(c, fetch).value != []
  {
    match SeedList(c, fetch)
    case Err(e) => SeedOutcome(st, Some(e))
    case Ok(seeds) => QueueSeedsSpec(shaped, st, seeds)
  }

  /**
   * Queueing the seeds succeeds exactly when the list is non-empty, every
   * seed parses, the seeds are distinct, none is known to the store, and
   * the store is open; then the queue grows by the seeds in order.
   */
  lemma SeedSuccess(shaped: Urls.Recognizer, st: UrlManager.Store, seeds: seq<string>)
    ensures QueueSeedsSpec(shaped, st, seeds).err.None? <==>
        && |seeds| > 0
        && (forall i :: 0 <= i < |seeds| ==> Urls.ParseUrl(shaped, seeds[i]).Ok?)
        && NoDup(seeds)
        && (forall i :: 0 <= i < |seeds| ==> seeds[i] !in st.completed)
        && !st.closed
    ensures QueueSeedsSpec(shaped, st, seeds).err.None? ==> QueueSeedsSpec(shaped, st, seeds).store.queue == st.queue + seeds
  {
    ParseSeedsOk(shaped, seeds);
    if ParseSeeds(shaped, seeds).Ok? {
      var urls := ParseSeeds(shaped, seeds).value;
      assert UrlManager.Texts(urls) == seeds;
      if !st.closed {
        UrlManager.AcceptErrors(st, seeds);
        UrlManager.AcceptQueue(st, seeds);
        NoRepeats(st.completed.Keys, seeds);
      }
    }
  }

  /**
   * A seed that fails the shape test stops `buildSeedUrls` before anything
   * is queued, with that seed's error.
   */
  lemma BadSeedStops(shaped: Urls.Recognizer, st: UrlManager.Store, seeds: seq<string>, i: nat)
    requires i < |seeds| && !shaped(seeds[i])
    requires forall j :: 0 <= j < i ==> Urls.ParseUrl(shaped, seeds[j]).Ok?
    ensures QueueSeedsSpec(shaped, st, seeds) == SeedOutcome(st, Some(seeds[i] + " is not a valid url"))
  {
    ParseSeedsFirstError(shaped, seeds, i);
  }

  /**
   * A seed list with a repeated URL is refused, yet the seeds seen for the
   * first time stay queued.
   */
  lemma RepeatedSeedRefused(shaped: Urls.Recognizer, st: UrlManager.Store, seeds: seq<string>, i: nat, j: nat)
    requires forall k :: 0 <= k < |seeds| ==> Urls.ParseUrl(shaped, seeds[k]).Ok?
    requires !st.closed && j < i < |seeds| && seeds[j] == seeds[i]
    ensures QueueSeedsSpec(shaped, st, seeds).err.Some?
    ensures QueueSeedsSpec(shaped, st, seeds).store.queue == st.queue + FirstSeen(st.completed.Keys, seeds)
  {
    ParseSeedsOk(shaped, seeds);
    SeedStore(shaped, st, seeds);
    UrlManager.AcceptQueue(st, seeds);
    assert !NoDup(seeds) by {
      assert seeds[j] == seeds[i];
    }
    SeedSuccess(shaped, st, seeds);
  }

  /** Once the seeds parse, queueing them leaves the store `QueueLinks` of the seed texts leaves. */
  lemma SeedStore(shaped: Urls.Recognizer, st: UrlManager.Store, seeds: seq<string>)
    requires ParseSeeds(shaped, seeds).Ok?
    ensures QueueSeedsSpec(shaped, st, seeds).store == UrlManager.QueueLinksSpec(st, seeds).store
  {
    assert UrlManager.Texts(ParseSeeds(shaped, seeds).value) == seeds;
  }

  /** The error of `ParseSeeds` names the first seed that does not parse. */
  lemma {:induction false} ParseSeedsFirstError(shaped: Urls.Recognizer, seeds: seq<string>, i: nat)
    requires i < |seeds| && Urls.ParseUrl(shaped, seeds[i]).Err?
    requires forall j :: 0 <= j < i ==> Urls.ParseUrl(shaped, seeds[j]).Ok?
    ensures ParseSeeds(shaped, seeds) == Err(seeds[i] + " is not a valid url")
    decreases |seeds|
  {
    var init := seeds[..|seeds| - 1];
    if i < |seeds| - 1 {
      ParseSeedsFirstError(shaped, init, i);
    } else {
      ParseSeedsOk(shaped, init);
      assert forall j :: 0 <= j < |init| ==> init[j] == seeds[j];
    }
  }

  /**
   * The seed order is the sitemap's URLs, `Seed`, then `Url`; the sitemap
   * contributes only when it answered with a status below 300, and a
   * transport error or an unparsable sitemap stops `buildSeedUrls` with
   * that error and queues nothing.
   */
  lemma SitemapUse(shaped: Urls.Recognizer, st: UrlManager.Store, c: SeedConfig, fetch: SitemapFetch)
    requires c.sitemap != ""
    ensures fetch.SitemapResponse? && fetch.status >= 300 ==>
              SeedList(c, fetch) == Ok(c.seed + (if c.url != "" then [c.url] else []))
    ensures fetch.SitemapResponse? && fetch.status < 300 && fetch.parsed.Ok? ==>
              SeedList(c, fetch) == Ok(fetch.parsed.value + c.seed + (if c.url != "" then [c.url] else []))
    ensures (fetch.SitemapFailed? || (fetch.status < 300 && fetch.parsed.Err?)) ==>
              BuildSeedSpec(shaped, st, c, fetch).store == st && BuildSeedSpec(shaped, st, c, fetch).err.Some?
  {
    assert [] + c.seed == c.seed;
  }

  // ---- the supervisor object ----

  /**
   * `Supervisor` with the state its methods update in place: the URL
   * store, the `currentStates` array, and per worker the URLs its inbox was
   * sent; the workers themselves are not part of the object.
   */
  class Supervisor {
    var shouldAddLink: Discovery.DiscoveredLink -> bool
    const urls: UrlManager.DefaultUrlsManager
    const currentStates: array<WorkerState>
    const inboxes: array<seq<string>>
    var inboxesClosed: bool
    var done: nat
    var errors: seq<string>

    ghost predicate Valid()
      reads this
    {
      currentStates.Length == inboxes.Length
    }

    function Model(): (s: Sup)
      reads this, urls, currentStates, inboxes
    {
      Sup(urls.Model(), currentStates[..], inboxes[..], inboxesClosed, done, errors)
    }

    /** `NewSupervisor` followed by `startWorkers` with `workers` workers. */
    constructor (workers: nat)
      ensures Valid() && fresh(urls) && fresh(currentStates) && fresh(inboxes)
      ensures Model() == Initial(workers)
      ensures forall f :: shouldAddLink(f)
    {
      shouldAddLink := _ => true;
      urls := new UrlManager.DefaultUrlsManager();
      currentStates := new WorkerState[workers](_ => Worker.Inactive);
      inboxes := new seq<string>[workers](_ => []);
      inboxesClosed := false;
      done := 0;
      errors := [];
    }

    method SendWork(id: nat)
      requires Valid() && id < currentStates.Length
      modifies urls, currentStates, inboxes
      ensures Model() == SendWorkSpec(old(Model()), id)
    {
      var u, ok := urls.ShiftQueue();
      if ok {
        currentStates[id] := Worker.Receiving;
        inboxes[id] := inboxes[id] + [u];
      }
    }

    method CheckExitCondition(id: nat)
      requires Valid() && id < currentStates.Length
      modifies this`done, currentStates
      ensures Model() == ExitCheckSpec(old(Model()), id)
    {
      currentStates[id] := Worker.Inactive;
      var i := 0;
      while i < currentStates.Length
        invariant 0 <= i <= currentStates.Length
        invariant forall j :: 0 <= j < i ==> Idle(currentStates[j])
      {
        var st := currentStates[i];
        if st != Worker.Inactive && st != Worker.Finished {
          assert !AllIdle(currentStates[..]) by { assert currentStates[..][i] == st; }
          return;
        }
        i := i + 1;
      }
      var complete := urls.IsComplete();
      if complete {
        done := done + 1;
      }
    }

    /** One iteration of `monitorWorkers`. */
    method HandleEvent(e: StateEvent)
      requires Valid() && e.id < currentStates.Length
      modifies this`done, urls, currentStates, inboxes
      ensures Model() == HandleEventSpec(old(Model()), e)
    {
      match e.state
      case Inactive =>
        CheckExitCondition(e.id);
        SendWork(e.id);
      case Waiting =>
        SendWork(e.id);
      case Stopping =>
        currentStates[e.id] := Worker.Stopping;
      case Finished =>
        currentStates[e.id] := Worker.Finished;
      case _ =>
        currentStates[e.id] := Worker.Running;
    }

    /** `monitorWorkers` over the announcements received, in order. */
    method MonitorWorkers(events: seq<StateEvent>)
      requires Valid() && FromWorkers(events, currentStates.Length)
      modifies this`done, urls, currentStates, inboxes
      ensures Model() == MonitorSpec(old(Model()), events)
    {
      for n := 0 to |events|
        invariant Model() == MonitorSpec(old(Model()), events[..n])
      {
        HandleEvent(events[n]);
        assert events[..n + 1][..n] == events[..n];
      }
      assert events[..|events|] == events;
    }

    /** The sent-channel consumer: one completed request. */
    method RecordResponse(c: Worker.CompletedRequest)
      modifies urls
      ensures Model() == RecordSpec(old(Model()), c)
    {
      urls.RecordResponse(c);
    }

    /** Append the message of each queueing error to the supervisor's errors, in order. */
    method RecordErrors(errs: seq<UrlManager.QueueError>)
      modifies this`errors
      ensures errors == old(errors) + Messages(errs)
    {
      for k := 0 to |errs|
        invariant errors == old(errors) + Messages(errs[..k])
      {
        errors := errors + [errs[k].Message()];
        assert Messages(errs[..k + 1]) == Messages(errs[..k]) + [errs[k].Message()];
      }
      assert errs[..|errs|] == errs;
    }

    /** One iteration of the discovery loop. */
    method Discover(f: Discovery.DiscoveredLink)
      requires Valid()
      modifies this`errors, urls, currentStates, inboxes
      ensures Model() == DiscoverSpec(old(Model()), shouldAddLink, f)
    {
      if shouldAddLink(f) {
        ghost var q := UrlManager.QueueLinksSpec(urls.Model(), [f.url.ToString()]);
        assert UrlManager.Texts([f.url]) == [f.url.ToString()];
        var errs := urls.QueueLinks([f.url]);
        assert urls.Model() == q.store && errs == q.errors;
        RecordErrors(errs);
        ghost var queued := Model();
        assert queued == old(Model()).(store := q.store, errors := old(errors) + Messages(q.errors));
        for i := 0 to currentStates.Length
          invariant Model() == Scan(queued, i)
        {
          if currentStates[i] == Worker.Inactive || currentStates[i] == Worker.Waiting {
            SendWork(i);
          }
        }
      }
    }

    method Terminate()
      modifies this`inboxesClosed, urls
      ensures Model() == TerminateSpec(old(Model()))
    {
      inboxesClosed := true;
      urls.CloseQueue();
      urls.EmptyQueue();
    }

    /** `buildSeedUrls`: gather the seed list, then parse and queue it. */
    method BuildSeedUrls(shaped: Urls.Recognizer, c: SeedConfig, fetch: SitemapFetch) returns (err: Option<string>)
      modifies urls
      ensures SeedOutcome(urls.Model(), err) == BuildSeedSpec(shaped, old(urls.Model()), c, fetch)
    {
      var seed: seq<string> := [];
      if c.sitemap != "" {
        match fetch
        case SitemapFailed(e) =>
          return Some(e);
        case SitemapResponse(status, parsed) =>
          if status < 300 {
            match parsed
            case Err(e) =>
              return Some(e);
            case Ok(list) =>
              seed := list;
          }
      }
      assert SitemapUrls(c, fetch) == Ok(seed);
      ghost var sitemap := seed;
      if |c.seed| != 0 {
        seed := seed + c.seed;
      } else {
        assert seed == sitemap + c.seed;
      }
      if c.url != "" {
        seed := seed + [c.url];
      } else {
        assert seed == sitemap + c.seed + [];
      }
      err := QueueSeeds(shaped, seed);
    }

    /** The second half of `buildSeedUrls`: parse every seed, then queue them. */
    method QueueSeeds(shaped: Urls.Recognizer, seed: seq<string>) returns (err: Option<string>)
      modifies urls
      ensures SeedOutcome(urls.Model(), err) == QueueSeedsSpec(shaped, old(urls.Model()), seed)
    {
      var parsed := ParseSeedList(shaped, seed);
      if parsed.Err? {
        return Some(parsed.error);
      }
      var errs := urls.QueueLinks(parsed.value);
      if |errs| != 0 {
        var text := QueueErrorMessage(errs);
        return Some(text);
      }
      if |seed| > 0 {
        return None;
      }
      return Some("No seed urls found. Exiting...");
    }
  }

  /** One more seed that parses extends the parsed list. */
  lemma ParseSeedsExtend(shaped: Urls.Recognizer, seed: seq<string>, k: nat, us: seq<Urls.Url>)
    requires k < |seed| && ParseSeeds(shaped, seed[..k]) == Ok(us)
    requires Urls.ParseUrl(shaped, seed[k]).Ok?
    ensures ParseSeeds(shaped, seed[..k + 1]) == Ok(us + [Urls.ParseUrl(shaped, seed[k]).value])
  {
    assert seed[..k + 1][..k] == seed[..k] && seed[..k + 1][k] == seed[k];
  }

  /** The first seed that does not parse after a parsed prefix is the error of the whole list. */
  lemma ParseSeedsStop(shaped: Urls.Recognizer, seed: seq<string>, k: nat)
    requires k < |seed| && ParseSeeds(shaped, seed[..k]).Ok?
    requires Urls.ParseUrl(shaped, seed[k]).Err?
    ensures ParseSeeds(shaped, seed) == Err(seed[k] + " is not a valid url")
  {
    ParseSeedsOk(shaped, seed[..k]);
    assert forall j :: 0 <= j < k ==> seed[..k][j] == seed[j];
    ParseSeedsFirstError(shaped, seed, k);
  }

  /** The parsing loop of `buildSeedUrls`: stops at the first seed that is not a URL. */
  method ParseSeedList(shaped: Urls.Recognizer, seed: seq<string>) returns (r: Result<seq<Urls.Url>, string>)
    ensures r == ParseSeeds(shaped, seed)
  {
    var parsedUrls: seq<Urls.Url> := [];
    for k := 0 to |seed|
      invariant ParseSeeds(shaped, seed[..k]) == Ok(parsedUrls)
    {
      var p := Urls.ParseUrl(shaped, seed[k]);
      if p.Err? {
        ParseSeedsStop(shaped, seed, k);
        return Err(seed[k] + " is not a valid url");
      }
      ParseSeedsExtend(shaped, seed, k, parsedUrls);
      parsedUrls := parsedUrls + [p.value];
    }
    assert seed[..|seed|] == seed;
    return Ok(parsedUrls);
  }

  /** The error text `buildSeedUrls` builds from the queueing errors. */
  method QueueErrorMessage(errs: seq<UrlManager.QueueError>) returns (text: string)
    ensures text == QueueErrorText(errs)
  {
    text := "Errors occurred when queueing urls: ";
    for k := 0 to |errs|
      invariant text == QueueErrorText(errs[..k])
    {
      text := text + errs[k].Message() + "\n";
      assert errs[..k + 1][..k] == errs[..k];
    }
    assert errs[..|errs|] == errs;
  }
}
