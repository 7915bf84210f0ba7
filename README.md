# anubis crawler core in Dafny

This project models the crawling core of anubis, a Go web crawler that
downloads a site page by page and stores each response on disk (or posts
it to a remote output). anubis has two generations of this core, and the
model covers both.

* **The `internal` crawler.** A `Supervisor` owns a `DefaultUrlsManager`,
  which holds the URL queue and a map from each known URL to its status
  code. The supervisor hands URLs one at a time to a fixed set of workers.
  - Each worker announces its state on a shared channel: Inactive, Waiting,
    Running, Stopping, Finished (Receiving is set by the supervisor).
  - A worker fetches the URL, reports the completed request, and runs the
    page through a pipeline of steps before writing the bytes out.
  - Steps may discover links. `DiscoveredChan.SendLink` makes a relative
    link absolute and sends it to the supervisor. The supervisor asks its
    link judge (`LocalLinkFilter` of the `pkg` package, or accept-all),
    queues the link and dispatches work to idle workers.
  - The supervisor signals `done` when every worker is idle and the queue
    is empty.
* **The `pkg` crawler.** An `Anubis` value holds its options, a duplicate
  filter, a URL channel and a cancel function.
  - `DefaultRequestProcessor` fetches each URL with the configured headers.
  - `DefaultResponseHandler` extracts link, script and image URLs from HTML
    pages with `GetLinkURLs`, `GetScriptURLs` and `GetImageURLs`. It adds
    them through `AddURL` and keeps the set of links still needed.
  - It cancels the crawl when that set becomes empty, and writes the body
    under `output/host/path`.

How the model is laid out:

* **Results, Seqs, Paths, Urls: values and helpers.**
  - `Paths` is Go's `path.Clean`/`path.Join`.
  - `Urls` is a simplified `net/url` split into scheme, authority, path and
    suffix, with `Hostname`. It also has `ParseUrl` of the internal package
    and the link rewrite both generations share.
  - The URL-shape regular expression (`UrlRegex`, `URLRE`) is a parameter
    `shaped: string -> bool`. Every contract therefore holds for any
    recogniser.
* **UrlManager.** A pure `Store` specification and the class
  `DefaultUrlsManager`. The class has the source's fields (`queue`,
  `completed`, `isClosed`), and each method is proved against the
  specification.
* **Worker.**
  - `Start` runs two loops over shared variables: the receive loop and the
    notifier loop that counts pipeline completions. The worker's life is a
    function of one interleaving of their moves. The receive loop is cut
    wherever the notifier can observe it: after announcing Running, after the
    request, during the delay, after announcing Waiting or Inactive, after
    Stopping, and after `stopping` is set. One notifier iteration is one
    move. `Worker.Start` runs over such a sequence.
  - `runPipeline` and `writeBytes` are functions whose I/O outcomes are
    parameters.
* **Discovery and LinkJudge.** `SendLink` and `LocalLinkFilter`.
* **Supervisor.**
  - A pure state `Sup` with one specification function per operation.
  - The class `Supervisor`, whose `currentStates` and worker inboxes are
    arrays. Its methods (`SendWork`, `CheckExitCondition`, `HandleEvent`,
    `MonitorWorkers`, `Discover`, `Terminate`, `BuildSeedUrls`, ...) are
    proved against that state.
  - The dispatch invariant `Dispatched`: no URL is queued or handed to a
    worker twice.
* **LinkUtils.** `getFullURL` and the three extractors. A regular
  expression's matches are given as the list of submatch slices that
  `FindAllStringSubmatch` would return.
* **Types.** `DefaultDuplicateFilter`, `DefaultRequestProcessor.Process`
  and the content-type test.
* **Anubis.** The options, `NewAnubis`, `Start`, the cancel function,
  `AddURL`, a worker's receive, and `DefaultResponseHandler.Handle`. Each
  is specified on a `Crawl` state and implemented by the classes `Anubis`
  and `DefaultResponseHandler`.

Behaviour of the code worth noting:

* A pipeline step that reports an error still hands its returned bytes to
  the next step (internal/worker.go:122-127).
* `checkExitCondition` signals `done` every time its condition holds; there
  is no once-only guard (internal/supervisor.go:273-284). The model counts
  the signals.
* The comment at internal/supervisor.go:133 speaks of one idle worker, but
  the discovery loop calls `sendWork` for every available worker
  (internal/supervisor.go:134-138).
* `CompletedRequest` declares its fields as `U` and `S`, but its users read
  `Url` and `StatusCode` (internal/worker.go:42-45,
  internal/url_manager.go:100). The model uses the latter names.
* The supervisor never records a Waiting state: a Waiting announcement
  re-dispatches without touching `currentStates`. The Waiting test in the
  discovery loop can therefore never succeed (`Supervisor.WaitingNeverRecorded`).
* When `runPipeline` cannot parse the page URL it reports the error and
  returns without signalling the notifier (internal/worker.go:129-133).
  The worker's pipeline count then never reaches zero, so the worker never
  announces Finished (`Worker.PipelineOutcome`, `Worker.Lifecycle`).
* A pipeline that completes during the delay (internal/worker.go:89) finds
  `isWorking` set, so the notifier announces nothing. The worker then
  announces Inactive straight after Running (`Worker.DoneDuringDelay`).
* A pipeline that completes after Waiting is announced
  (internal/worker.go:92) and before `isWorking` is cleared
  (internal/worker.go:97) is never announced. The worker is then idle
  with nothing pending, and its last announcement is Waiting
  (`Worker.DoneAfterWaiting`). The supervisor recorded it as Running on its Running
  announcement (internal/supervisor.go:262-264), and a Waiting
  announcement with an empty queue changes nothing
  (internal/supervisor.go:253-255). Its exit check treats a Running worker
  as busy (internal/supervisor.go:273-284).
* A pipeline that completes after `stopping = true`
  (internal/worker.go:104) and before the final test
  (internal/worker.go:107) makes the notifier announce Inactive and
  Finished. The final test then sees no pipeline pending and announces
  Finished a second time (`Worker.FinishedTwice`, `Worker.AfterFinished`).
* A relative link is joined to the page's host name, not to the page's
  path. A link that starts with `../` can therefore leave the host
  (`LinkJudge.ParentLinkLeavesHost`).
* Calling the cancel function after it has already run closes a closed
  channel and panics with "close of closed channel". `Handle` does this
  when a second page finds nothing new after the needed set has once
  become empty (`Anubis.CancelEffect`, `Anubis.HandleCancels`).

## Model

| member | source | states |
|---|---|---|
| Worker.WorkerState.Code | internal/worker.go:33-40 | each state has its numeric code 0..5 |
| Worker.CodeInjective | internal/worker.go:33-40 | two states share a code exactly when they are the same state |
| Worker.Step | internal/worker.go:54-110 | one move of either loop announces at most two states (a completing pipeline's Inactive and Finished), reports at most one completed request and at most one error, and a pipeline completing never moves the receive loop |
| Worker.StepGrows | internal/worker.go:54-110 | a move only appends to the state, sent and errors channels |
| Worker.ChannelsOnlyGrow | internal/worker.go:47-111 | whatever the interleaving, what was sent before stays at the head of each channel |
| Worker.Start | internal/worker.go:47-111 | the worker, run over one interleaving of its receive loop and its notifier loop, ends in the state the step function `Apply` prescribes for that interleaving |
| Worker.ApplyAppend | internal/worker.go:47-111 | running two interleavings one after the other is running them joined |
| Worker.ApplySnoc | internal/worker.go:47-111 | running one more move is one more step after the run so far |
| Worker.InvStep | internal/worker.go:54-110 | every move of either loop keeps the worker invariant: `isWorking` is set exactly between a receive and its clearing, `stopping` exactly after it is set, pending pipelines never exceed the requests sent, Inactive is announced first, Stopping exactly once the inbox was seen closed, Running never after Stopping, Finished only once `stopping` is set with nothing pending and then last, at most once before `Start` returns and at most twice after |
| Worker.InvReceive | internal/worker.go:74-79 | receiving a URL, which sets `isWorking` and announces Running, keeps the invariant |
| Worker.InvWoke | internal/worker.go:89-95 | the end of the delay, with its Waiting or Inactive announcement, keeps the invariant |
| Worker.InvInboxClosed | internal/worker.go:98-103 | the inbox closing, with its Stopping announcement, keeps the invariant |
| Worker.InvCheck | internal/worker.go:107-110 | the final test, which announces Finished when nothing is pending, keeps the invariant |
| Worker.InvPipelineDone | internal/worker.go:55-69 | a pipeline completing keeps the invariant |
| Worker.InvQuietDone | internal/worker.go:57-60 | a completion that leaves pipelines pending, or comes while the receive loop works before `stopping` is set, announces nothing and keeps the invariant |
| Worker.InvIdleDone | internal/worker.go:57-62 | the last pending completion while the receive loop is idle and `stopping` unset announces Inactive and keeps the invariant |
| Worker.InvLastDone | internal/worker.go:57-65 | the last pending completion once `stopping` is set announces Inactive and then Finished and keeps the invariant |
| Worker.InvApply | internal/worker.go:47-111 | the invariant holds after any interleaving |
| Worker.AppendNoRunningAfterStopping | internal/worker.go:79-103 | announcements that never put Running after Stopping keep that property when extended that way |
| Worker.AppendOne | internal/worker.go:61-109 | one more announcement adds exactly that state, and one more Finished only when it is Finished |
| Worker.Lifecycle | internal/worker.go:47-111 | whatever the interleaving: Inactive is announced first; Stopping exactly once the inbox was seen closed, and Running never after it; Finished only once `stopping` is set and no pipeline is pending, and then it is the last announcement; Finished at most twice; once `Start` has returned, Finished has been announced exactly when no pipeline is pending; pending pipelines never exceed the completed requests sent |
| Worker.AfterFinished | internal/worker.go:63-110 | once Finished is announced, the only thing that can still change is the receive loop's final test, which announces Finished once more |
| Worker.StepAfterFinished | internal/worker.go:63-110 | with nothing pending and `stopping` set, a move changes nothing or is that final test |
| Worker.FinishedTwice | internal/worker.go:63-110 | a pipeline completing between `stopping = true` and the final test makes both loops announce Finished: Stopping, Inactive, Finished, Finished |
| Worker.ApplyUnfold | internal/worker.go:47-111 | running a non-empty interleaving is its first move and then the rest |
| Worker.FetchOne | internal/worker.go:74-98 | receiving a URL and fetching it with no pipeline completing announces Running and then Waiting; on success it sends one CompletedRequest and starts a pipeline; on failure it reports the error and announces Waiting only while other pipelines are pending, otherwise Inactive; `stopping` is unchanged |
| Worker.DoneDuringDelay | internal/worker.go:57-95 | a pipeline completing during the delay is not announced by the notifier, since `isWorking` is still set; the worker announces Running and then Inactive with no Waiting |
| Worker.DoneAfterWaiting | internal/worker.go:57-97 | a pipeline completing after Waiting is announced and before `isWorking` is cleared is never announced: the worker is idle with nothing pending, its last announcement is Waiting, and only a new URL or the inbox closing can move it |
| Worker.Dones | internal/worker.go:55-58 | n pipeline completions in a row |
| Worker.DrainPending | internal/worker.go:57-62 | when the last pending pipeline of an idle worker finishes, the worker announces Inactive exactly once and nothing else changes |
| Worker.DrainThenClose | internal/worker.go:55-110 | draining the pipelines of an idle worker and then closing the inbox announces (Inactive,) Stopping, Finished, in that order |
| Worker.DrainIdleThenClose | internal/worker.go:55-110 | the same for any idle worker whose `stopping` is unset |
| Worker.ApplyThree | internal/worker.go:47-111 | three moves run in order |
| Worker.Chain | internal/worker.go:122-127 | a pipeline of n steps reports at most n errors |
| Worker.ChainAppend | internal/worker.go:122-127 | running two lists of steps one after the other is the same as running them joined: bytes flow through and errors accumulate in order |
| Worker.RunSteps | internal/worker.go:122-127 | the step loop produces the chain's bytes and its errors in order |
| Worker.WriteTarget | internal/worker.go:145-162 | the bytes are posted exactly when the output starts with "http", to the output followed by the URL path; otherwise they go to a non-empty file path |
| Worker.FileTarget | internal/worker.go:145-162 | a non-http output writes to output/host/index.html for an empty path or one ending in '/', and to output/host/path otherwise |
| Worker.RunPipeline | internal/worker.go:113-142 | the bytes are written only if the notifier is signalled, and at most one error per step plus one is reported |
| Worker.PipelineOutcome | internal/worker.go:113-142 | a body read error is reported and signalled with nothing written; otherwise the steps' errors come first, the notifier is signalled iff the URL parses, and exactly then the chained bytes are written |
| UrlManager.Texts | internal/url_manager.go:83-87 | each queued link is keyed by its string form, position by position |
| UrlManager.TextsSnoc | internal/url_manager.go:83-87 | one more link adds its string form at the end |
| UrlManager.Rejections | internal/url_manager.go:89-90 | one AlreadyProcessed error per rejected link, in order |
| UrlManager.Accept | internal/url_manager.go:81-92 | queueing on an open store keeps it open and forgets no known URL; every link is either queued or reported |
| UrlManager.QueueLinksSpec | internal/url_manager.go:79-97 | queueing keeps the closed flag and only extends the queue; a closed store is unchanged and reports only QueueClosed |
| UrlManager.ShiftSpec | internal/url_manager.go:66-74 | ok exactly for a non-empty queue, and then the URL is the old head and the queue its tail; otherwise the store is unchanged and the URL empty; the known URLs and the closed flag never change |
| UrlManager.AcceptKeys | internal/url_manager.go:81-92 | queueing makes every link known (with placeholder status 0 for new ones), keeps the recorded statuses and does not close the store |
| UrlManager.AcceptQueue | internal/url_manager.go:81-92 | the queue grows by exactly the links not known before, first occurrence only, in order |
| UrlManager.AcceptErrors | internal/url_manager.go:81-92 | there is exactly one error per link that was known or repeated, in order |
| UrlManager.NoDupAppend | internal/url_manager.go:87 | appending distinct fresh links to a duplicate-free queue keeps it duplicate-free |
| UrlManager.QueueLinksValid | internal/url_manager.go:79-97 | queueing keeps the store invariant: no duplicates in the queue, and every queued URL is known |
| UrlManager.RepeatInOneCall | internal/url_manager.go:83-91 | the same new link twice in one call is queued once and rejected once |
| UrlManager.KnownLinkRejected | internal/url_manager.go:83-91 | a known link leaves the store unchanged and is reported as already processed |
| UrlManager.ShiftValid | internal/url_manager.go:66-74 | shifting keeps the store invariant, and the shifted URL is no longer queued |
| UrlManager.ShiftAfterQueue | internal/url_manager.go:66-97 | the queue is first-in first-out: after queueing, a shift yields the old head and leaves the rest followed by the new links |
| UrlManager.RecordKeepsKeys | internal/url_manager.go:99-101 | recording a response keeps the invariant and only adds its URL to the known set |
| UrlManager.DefaultUrlsManager.constructor | internal/supervisor.go:54-58 | a new manager is open, with an empty queue and nothing recorded |
| UrlManager.DefaultUrlsManager.IsComplete | internal/url_manager.go:52-54 | complete iff the queue is empty |
| UrlManager.DefaultUrlsManager.CloseQueue | internal/url_manager.go:57-59 | only the closed flag changes, and it is set |
| UrlManager.DefaultUrlsManager.EmptyQueue | internal/url_manager.go:62-64 | only the queue changes, and it becomes empty |
| UrlManager.DefaultUrlsManager.ShiftQueue | internal/url_manager.go:66-74 | pops the head of a non-empty queue with ok, else reports not ok and changes nothing |
| UrlManager.DefaultUrlsManager.QueueLinks | internal/url_manager.go:79-97 | queues the unknown links and reports the known ones, or reports only QueueClosed and changes nothing when closed |
| UrlManager.DefaultUrlsManager.RecordResponse | internal/url_manager.go:99-101 | stores the status code under the URL and changes nothing else |
| Urls.IndexOfAny | internal/util.go:16 | the index is the first delimiter position, or the length when there is none |
| Urls.AfterLast | pkg/link_judge.go:6 | the part after the last occurrence of a character contains none of it and comes from the input |
| Urls.Url.Hostname | pkg/link_judge.go:6 | a host name has no user part or port, is made of characters of the authority, and is the whole authority when there are none; it is cut at the first ':', see Left out |
| Urls.HostOf | pkg/link_judge.go:6 | a host name has no user part or port, and it is the whole authority when there are none; it is cut at the first ':', see Left out |
| Urls.PartsToString | internal/util.go:16 | a string split at "://" and two later points reassembles to itself |
| Urls.PrefixNoneOf | internal/util.go:16 | the prefix before the first delimiter holds no delimiter |
| Urls.Parse | internal/util.go:16 | a parsed URL is well formed and prints back to exactly the input |
| Urls.SchemeEnd | internal/util.go:16 | a valid scheme ends at the first ':' and is followed by "://" |
| Urls.AuthorityEnd | internal/util.go:16 | the authority ends at the first '/', '?' or '#' |
| Urls.PathEnd | internal/util.go:16 | the path ends at the first '?' or '#' |
| Urls.ParseToString | internal/util.go:16 | parsing the printed form of a well-formed URL gives it back |
| Urls.IndexOfAnyAt | internal/util.go:16 | the first delimiter index is characterised by its position |
| Urls.ParseUrl | internal/util.go:14-19 | succeeds iff the string has the URL shape and parses, and the result prints back to the input |
| Urls.ParseAuthority | internal/util.go:16 | a string scheme://authority/... parses with that authority |
| Urls.HostNoDelimiters | internal/util.go:16 | a parsed host name contains no '/', '?' or '#' |
| Urls.Resolve | internal/discovered_link.go:23-25 | a URL-shaped link is kept as it is; any other link becomes the page's scheme followed by "://" and the joined host and link |
| Urls.ResolveStaysOnHost | internal/discovered_link.go:23-25 | a relative link without ".." is rewritten to a URL on the page's own host |
| Urls.ResolveCanLeaveHost | internal/discovered_link.go:23-25 | a relative link "../other/x" is rewritten to a URL whose host is "other" |
| Urls.SavePath | pkg/types.go:85-92 | the file path joined from the output, host and file name is never empty |
| Urls.FileName | pkg/types.go:85-90 | the stored file is index.html exactly for an empty path, a path ending in '/' or the path index.html itself |
| Paths.Clean | internal/discovered_link.go:24 | a cleaned path is never empty, is "." for the empty path, and stays rooted when the input is |
| Paths.Join | internal/discovered_link.go:24 | joining gives "" exactly when every element is empty |
| Paths.Resolve | internal/discovered_link.go:24 | resolving ".." against kept elements introduces no empty element |
| Paths.Split | internal/discovered_link.go:24 | splitting at '/' yields at least one part |
| Paths.Elements | internal/discovered_link.go:24 | cleaning keeps only non-empty, non-"." parts of the input |
| Paths.NonEmpty | internal/discovered_link.go:24 | only non-empty elements are joined |
| Paths.SplitNoSlash | internal/discovered_link.go:24 | a string without '/' splits into itself |
| Paths.SplitAfter | internal/discovered_link.go:24 | splitting at the first '/' takes off the first element |
| Paths.ElementsAppend | internal/discovered_link.go:24 | cleaning distributes over concatenation of parts |
| Paths.ResolvePlain | internal/discovered_link.go:24 | without ".." the cleaned path keeps every element in order |
| Paths.ConcatCons | internal/discovered_link.go:24 | joining one more leading element inserts exactly one '/' |
| Paths.TwoElements | internal/discovered_link.go:24 | a/b has exactly the elements a and b and prints back to a/b |
| Paths.JoinBeneath | internal/discovered_link.go:24 | joining a host with a link without ".." stays beneath the host |
| Paths.JoinParentEscapes | internal/discovered_link.go:24 | joining a host with "../rest" drops the host |
| Seqs.FirstSeen | internal/url_manager.go:81-92 | at most as many accepted links as offered |
| Seqs.Repeats | internal/url_manager.go:81-92 | at most as many rejected links as offered |
| Seqs.FirstSeenRepeatsSplit | internal/url_manager.go:81-92 | every offered link is either accepted or rejected |
| Seqs.FirstSeenContents | internal/url_manager.go:81-92 | the accepted links are duplicate-free and are exactly the offered links not known before |
| Seqs.FirstSeenSnoc | internal/url_manager.go:81-92 | one more link is accepted iff neither known nor offered earlier |
| Seqs.RepeatsSnoc | internal/url_manager.go:81-92 | one more link is rejected iff known or offered earlier |
| Seqs.NoRepeats | internal/url_manager.go:81-92 | nothing is rejected iff the links are distinct and unknown, and then all are accepted in order |
| Seqs.FlattenUpdateAppend | internal/supervisor.go:295 | sending one URL to one inbox adds exactly that URL to all inboxes together |
| Discovery.SendLink | internal/discovered_link.go:17-33 | a page URL that does not parse is that error; a sent link carries the page URL and the rewritten link, which has the URL shape |
| Discovery.ShapedLinkUnchanged | internal/discovered_link.go:23-30 | an absolute link is sent unchanged iff it parses |
| Discovery.OnlySchemeAndHostMatter | internal/discovered_link.go:23-25 | pages with the same scheme and host resolve every link identically |
| Discovery.RelativeLinkStaysOnHost | internal/discovered_link.go:23-32 | a relative link without ".." is sent on the page's own host |
| LinkJudge.LocalLinkFilter | pkg/link_judge.go:5-7 | a link to the page itself is local, and a local link's host is made of characters of the page's authority |
| LinkJudge.AfterLastSuffix | pkg/link_judge.go:6 | the text after the last delimiter is the final delimiter-free part |
| LinkJudge.UserAndPortIgnored | pkg/link_judge.go:5-7 | user information and port do not affect the judgement |
| LinkJudge.Symmetric | pkg/link_judge.go:5-7 | swapping page and link gives the same judgement |
| LinkJudge.RelativeLinksAreLocal | pkg/link_judge.go:5-7 | every relative link without ".." that is sent is accepted as local |
| LinkJudge.ParentLinkLeavesHost | pkg/link_judge.go:5-7 | a relative link "../other/x" is sent for another host and refused |
| Supervisor.Initial | internal/supervisor.go:52-71 | a new supervisor has one recorded state and one inbox per worker |
| Supervisor.SendWorkSpec | internal/supervisor.go:288-297 | sending work keeps one state and one inbox per worker |
| Supervisor.ExitCheckSpec | internal/supervisor.go:273-284 | the exit check keeps one state and one inbox per worker |
| Supervisor.HandleEventSpec | internal/supervisor.go:248-265 | handling an announcement keeps one state and one inbox per worker |
| Supervisor.Scan | internal/supervisor.go:134-138 | the dispatch scan keeps one state and one inbox per worker |
| Supervisor.ScanKeeps | internal/supervisor.go:134-138 | the dispatch scan reports no error, closes no inbox and signals nothing |
| Supervisor.DiscoverSpec | internal/supervisor.go:122-143 | handling a discovered link keeps one state and one inbox per worker; a rejected link changes nothing; errors are only added, and inboxes and the done count are untouched |
| Supervisor.TerminateSpec | internal/supervisor.go:158-166 | terminating closes the inboxes and the store and empties the queue, and keeps the recorded states, the inboxes' contents and the known URLs |
| Supervisor.RecordSpec | internal/supervisor.go:116 | recording a response adds its URL to the known URLs with its status, and leaves the queue, states and inboxes alone |
| Supervisor.Messages | internal/supervisor.go:129-131 | one error message per queueing error, in order |
| Supervisor.ExitCondition | internal/supervisor.go:273-284 | the worker is recorded Inactive and no other state changes; done is signalled once iff every other worker is Inactive or Finished and the queue is empty; store and inboxes are untouched |
| Supervisor.EventEffect | internal/supervisor.go:248-265 | only the announcing worker's recorded state changes: Inactive or Waiting with queued work becomes Receiving, Stopping and Finished are recorded, anything else is Running; only Inactive and Waiting touch the store and inboxes |
| Supervisor.DispatchedFrame | internal/supervisor.go:288-297 | the dispatch invariant survives any step that adds no outstanding URL and forgets no known URL |
| Supervisor.InitialDispatched | internal/supervisor.go:52-71 | a new supervisor satisfies the dispatch invariant |
| Supervisor.FlattenEmpty | internal/supervisor.go:65 | empty inboxes hold nothing together |
| Supervisor.SendWorkDispatched | internal/supervisor.go:288-297 | sending work moves a URL from the queue to an inbox: outstanding URLs are unchanged and the invariant holds |
| Supervisor.ExitCheckDispatched | internal/supervisor.go:273-284 | the exit check keeps the invariant and the outstanding URLs |
| Supervisor.HandleEventDispatched | internal/supervisor.go:248-265 | handling any announcement keeps the invariant |
| Supervisor.ScanDispatched | internal/supervisor.go:134-138 | the dispatch scan keeps the invariant and the outstanding URLs |
| Supervisor.ScanStepDispatched | internal/supervisor.go:134-138 | handing work to one available worker, or skipping a busy one, keeps the invariant and the outstanding URLs |
| Supervisor.QueueOneDispatched | internal/supervisor.go:128 | queueing a discovered link keeps the invariant and forgets no known URL |
| Supervisor.DiscoverDispatched | internal/supervisor.go:122-143 | handling a discovered link keeps the invariant |
| Supervisor.TerminateDispatched | internal/supervisor.go:158-166 | terminating keeps the invariant |
| Supervisor.RecordDispatched | internal/supervisor.go:116 | recording a response keeps the invariant |
| Supervisor.SentAtMostOnce | internal/supervisor.go:288-297 | under the invariant, no URL has been sent to the workers twice |
| Supervisor.WaitingNeverRecorded | internal/supervisor.go:248-265 | no operation ever records Waiting, so a worker is available exactly when it is recorded Inactive |
| Supervisor.ScanNoWaiting | internal/supervisor.go:134-138 | the dispatch scan never records Waiting |
| Supervisor.ScanIdle | internal/supervisor.go:134-138 | with an empty queue the scan changes nothing |
| Supervisor.ScanRest | internal/supervisor.go:134-138 | once the queue is empty, scanning further workers changes nothing |
| Supervisor.ScanBefore | internal/supervisor.go:134-138 | workers that are not available are skipped |
| Supervisor.NewLinkDispatch | internal/supervisor.go:122-138 | a new accepted link, with nothing else queued, goes to the lowest-numbered available worker, which is recorded Receiving, and the queue is empty again |
| Supervisor.NoWorkerAvailable | internal/supervisor.go:127-138 | with no available worker an accepted link only enters the store |
| Supervisor.TerminateRefuses | internal/supervisor.go:158-166 | after terminating, the queue is empty and inboxes closed, queueing reports only QueueClosed, and a discovered link only adds the closed-queue error |
| Supervisor.MonitorSpec | internal/supervisor.go:244-268 | monitoring keeps one state and one inbox per worker |
| Supervisor.MonitorInvariants | internal/supervisor.go:244-268 | any sequence of announcements keeps the dispatch invariant and never records Waiting |
| Supervisor.SitemapUrls | internal/supervisor.go:176-189 | without a sitemap there are no sitemap URLs; an error comes only from a configured sitemap whose request or parse failed |
| Supervisor.SeedList | internal/supervisor.go:176-197 | the seed list fails exactly when the sitemap part fails, holds at least the configured seeds and the base URL, and ends with the base URL when one is set |
| Supervisor.QueueSeedsSpec | internal/supervisor.go:199-220 | seeding keeps the closed flag and only extends the queue, and succeeds only with at least one seed |
| Supervisor.BuildSeedSpec | internal/supervisor.go:170-221 | seeding only extends the queue, and succeeds only when the seed list was built and is not empty |
| Supervisor.QueueErrorText | internal/supervisor.go:207-212 | the combined text starts with "Errors occurred when queueing urls: " and holds at least one character per error |
| Supervisor.ParseSeeds | internal/supervisor.go:199-205 | parsed seeds print back to the seed strings, one for one |
| Supervisor.ParseSeedsOk | internal/supervisor.go:199-205 | the seeds parse iff every seed has the URL shape and parses |
| Supervisor.ParseSeedsFirstError | internal/supervisor.go:199-205 | the first bad seed is reported as "... is not a valid url" |
| Supervisor.ParseSeedsExtend | internal/supervisor.go:199-205 | a seed that parses extends the parsed list by its URL |
| Supervisor.ParseSeedsStop | internal/supervisor.go:199-205 | the first seed that does not parse decides the error for the whole list |
| Supervisor.SeedSuccess | internal/supervisor.go:199-220 | seeding succeeds iff there is a seed, all parse, they are distinct and unknown, and the store is open; then the queue grows by exactly the seeds |
| Supervisor.BadSeedStops | internal/supervisor.go:199-205 | a seed without the URL shape stops seeding before anything is queued |
| Supervisor.RepeatedSeedRefused | internal/supervisor.go:207-213 | a repeated seed is an error, yet the first occurrences stay queued |
| Supervisor.SeedStore | internal/supervisor.go:207 | once the seeds parse, the store is left as queueing their texts leaves it |
| Supervisor.SitemapUse | internal/supervisor.go:176-197 | a sitemap status of 300 or more is ignored; otherwise its URLs come first, then the seeds, then the base URL; a failed fetch or parse stops seeding with the store untouched |
| Supervisor.Supervisor.constructor | internal/supervisor.go:49-72 | a new supervisor accepts every link and starts from the initial state |
| Supervisor.Supervisor.SendWork | internal/supervisor.go:288-297 | the object changes as the send-work specification says |
| Supervisor.Supervisor.CheckExitCondition | internal/supervisor.go:273-284 | the object changes as the exit check specification says |
| Supervisor.Supervisor.HandleEvent | internal/supervisor.go:248-265 | the object changes as the announcement specification says |
| Supervisor.Supervisor.MonitorWorkers | internal/supervisor.go:244-268 | the object changes as the monitor specification says for the announcements received |
| Supervisor.Supervisor.RecordResponse | internal/supervisor.go:103-120 | only the store records the response |
| Supervisor.Supervisor.Discover | internal/supervisor.go:122-143 | the object changes as the discovery specification says |
| Supervisor.Supervisor.RecordErrors | internal/supervisor.go:129-131 | every queueing error is forwarded, in order, after the errors already recorded |
| Supervisor.Supervisor.Terminate | internal/supervisor.go:158-166 | inboxes are closed and the store closed and emptied |
| Supervisor.Supervisor.BuildSeedUrls | internal/supervisor.go:170-221 | the store and the error are those of the seeding specification |
| Supervisor.Supervisor.QueueSeeds | internal/supervisor.go:199-220 | parses and queues the seeds as the seeding specification says |
| Supervisor.ParseSeedList | internal/supervisor.go:199-205 | the loop yields the parsed seeds or the first error |
| Supervisor.QueueErrorMessage | internal/supervisor.go:207-212 | the loop builds the combined queueing error text |
| LinkUtils.GetFullURL | pkg/link_utils.go:18-37 | a parent without the URL shape is that error; a result has the URL shape and comes from a parsed parent; an absolute link is kept |
| LinkUtils.ShapedLinkKept | pkg/link_utils.go:29-36 | an absolute link is returned as is |
| LinkUtils.RelativeLinkRewritten | pkg/link_utils.go:29-36 | a relative link becomes scheme://host/link when that has the URL shape, otherwise "Could not parse ..." |
| LinkUtils.AgreesWithSendLink | pkg/link_utils.go:18-37 | the two generations resolve links alike: every link `SendLink` sends is what `getFullURL` returns, and every parseable `getFullURL` result is sent |
| LinkUtils.RelativeLinkSameHost | pkg/link_utils.go:29-31 | a relative link without ".." resolves to the parent's host |
| LinkUtils.Picked | pkg/link_utils.go:43-50 | a match yields a URL iff it has the expected length and its URL group resolves, and then the URL has the URL shape |
| LinkUtils.Collected | pkg/link_utils.go:39-54 | no more URLs than matches |
| LinkUtils.CollectURLs | pkg/link_utils.go:39-54 | the loop yields the collected URLs |
| LinkUtils.GetLinkURLs | pkg/link_utils.go:39-54 | link tags: matches of length 7, URL in group 4 |
| LinkUtils.GetScriptURLs | pkg/link_utils.go:56-71 | script tags as written: matches of length 7, URL in group 4 |
| LinkUtils.GetScriptURLsIntended | pkg/link_utils.go:56-71 | script tags: matches of length 8 (ScriptRE has seven groups), URL in group 4 |
| LinkUtils.GetImageURLs | pkg/link_utils.go:73-88 | image tags: matches of length 6, URL in group 3 |
| LinkUtils.CollectedAppend | pkg/link_utils.go:42-51 | collecting distributes over concatenated match lists |
| LinkUtils.CollectedSnoc | pkg/link_utils.go:42-51 | one more match adds its URL, if any, at the end |
| LinkUtils.CollectedSource | pkg/link_utils.go:42-51 | every collected URL comes from some match |
| LinkUtils.CollectedFrom | pkg/link_utils.go:42-51 | every match that yields a URL contributes it |
| LinkUtils.CollectedMembers | pkg/link_utils.go:39-88 | a URL is collected iff some match yields it, and every collected URL has the URL shape |
| LinkUtils.ScriptURLsAlwaysEmpty | pkg/link_utils.go:56-71 | with ScriptRE's matches, all of length 8, the length test as written collects nothing |
| LinkUtils.ScriptTagKeptWhenIntended | pkg/link_utils.go:56-71 | a script tag with a resolvable src is collected by the corrected test and lost by the test as written |
| Types.Contains | pkg/types.go:60 | a found substring is no longer than the string |
| Types.IsHtml | pkg/types.go:60 | a content type is HTML exactly when "text/html" occurs in it at some offset; one starting with "text/html" is HTML, and an HTML content type has at least nine characters |
| Types.ProcessSpec | pkg/types.go:111-131 | the handler runs exactly when no error is returned, and then on a request carrying exactly the configured headers |
| Types.ContainsAt | pkg/types.go:60 | the substring test holds iff the substring occurs at some offset |
| Types.DefaultDuplicateFilter.constructor | pkg/anubis.go:46 | a new filter has seen nothing |
| Types.DefaultDuplicateFilter.TestURL | pkg/types.go:144-147 | reports whether the URL was seen before, and afterwards it is seen |
| Types.ProcessErrors | pkg/types.go:111-131 | building and sending errors are returned and then the handler never runs; otherwise the handler gets the URL with every header and no error is returned, whatever the handler reports |
| Types.Process | pkg/types.go:111-131 | the header loop and error handling give the processor's specified outcome |
| Anubis.SetOpt | pkg/options.go:15-80 | an option never removes a header, and leaves the output, the worker count and the handler alone unless it is the option for that field |
| Anubis.ApplyOptions | pkg/anubis.go:59-61 | applying options never removes a header, and a last output option decides the output |
| Anubis.OutputLastWins | pkg/options.go:17 | the last output option decides the output |
| Anubis.WorkersLastWins | pkg/options.go:29 | the last worker-count option decides the count |
| Anubis.HeaderLastWins | pkg/options.go:23-25 | the last header option for a key decides its value |
| Anubis.Untouched | pkg/options.go:15-80 | a field no option sets keeps its default |
| Anubis.AddSpec | pkg/anubis.go:91-103 | a URL is accepted exactly when the crawl is live and the filter has not seen it; a live crawl's filter then has seen it; the queue grows by the URL exactly when it is accepted; a cancelled crawl is unchanged |
| Anubis.AddAll | pkg/types.go:71-75 | no more URLs are accepted than offered, nothing seen is forgotten, and the crawl's flags are kept |
| Anubis.AddAllGrows | pkg/types.go:71-75 | the queue grows by exactly the accepted URLs, in order |
| Anubis.AddAllEffect | pkg/anubis.go:91-103 | adding a list to a live crawl accepts and enqueues exactly the first occurrences of unseen URLs, in order, and marks every URL seen |
| Anubis.AddAllSnoc | pkg/anubis.go:91-103 | adding one more URL is one more `AddURL` on the state the earlier ones left |
| Anubis.AddAllCancelled | pkg/anubis.go:92-94 | a cancelled crawl accepts nothing and records nothing |
| Anubis.AddTwice | pkg/anubis.go:96-102 | the same URL is never accepted twice |
| Anubis.DrainInOrder | pkg/anubis.go:146-154 | workers receive queued URLs in queue order |
| Anubis.AcceptedInOrder | pkg/anubis.go:91-103 | the accepted URLs are received in the order they were accepted |
| Anubis.StartSpec | pkg/anubis.go:67-80 | starting sets the started flag and changes nothing else |
| Anubis.CancelSpec | pkg/anubis.go:51-74 | a cancel that does not panic marks the crawl cancelled and closes a queue that was open; the seen URLs, the queue and the started flag are kept |
| Anubis.TakeSpec | pkg/anubis.go:149 | a URL is received exactly when the queue is not empty, and it is the queue's head; otherwise nothing changes |
| Anubis.CancelEffect | pkg/anubis.go:51-74 | cancel panics iff the crawl has not started or the queue is already closed; otherwise it closes the queue, AddURL accepts nothing more, and a second cancel panics |
| Anubis.Found | pkg/types.go:64-69 | no more URLs are found than there are link, script and image matches |
| Anubis.HandleSpec | pkg/types.go:49-103 | a body read error is returned with nothing changed; otherwise the request URL is no longer needed; a written file goes to the saved path with the body read; no seen URL is forgotten and the queue only grows |
| Anubis.HandleNeeded | pkg/types.go:57-78 | once the body is read, the page leaves the needed set; an HTML page of a live crawl adds exactly the newly accepted links to the needed set and the queue; any other page, and any page handled after the crawl was cancelled, adds nothing and queues nothing |
| Anubis.HandleCancels | pkg/types.go:80-83 | the crawl is cancelled and the queue closed exactly when the needed set becomes empty; if the queue was already closed that panics |
| Anubis.HandleWrites | pkg/types.go:85-100 | when nothing fails the body is written to output/host/file, index.html for an empty or '/'-ending path |
| Anubis.HandleReadError | pkg/types.go:52-55 | a body read error is returned with nothing changed |
| Anubis.Anubis.constructor | pkg/anubis.go:40-63 | the settings are the defaults with the options applied in order, and the crawl is fresh |
| Anubis.Anubis.SetOption | pkg/options.go:15-80 | one option changes the settings as specified and the crawl not at all |
| Anubis.Anubis.Start | pkg/anubis.go:67-80 | the crawl is started |
| Anubis.Anubis.Cancel | pkg/anubis.go:51-74 | the crawl and panic are those of the cancel specification |
| Anubis.Anubis.AddURL | pkg/anubis.go:91-103 | the crawl and result are those of the add specification |
| Anubis.Anubis.Take | pkg/anubis.go:149 | the oldest queued URL is received, if any |
| Anubis.DefaultResponseHandler.constructor | pkg/anubis.go:56 | the handler belongs to its Anubis and needs nothing yet |
| Anubis.DefaultResponseHandler.Enqueue | pkg/types.go:71-75 | each accepted URL is enqueued and becomes needed |
| Anubis.DefaultResponseHandler.Handle | pkg/types.go:49-103 | crawl, needed set and outcome are those of the handler specification applied to the URLs the extractors find |

## Left out

- HTTP: `SendRequest`, `DefaultWebDriver`, `DoRequest`, the sitemap request and `http.NewRequest`. A fetch result, a body read result and a request-building error are parameters.
- `ProxyOpt`'s transport construction: the model records only that a non-empty proxy sets the driver.
- `WebDriverOpt` and `ResponseHandlerOpt` carry opaque values: the model records only that the driver is custom or the handler is no longer the default one.
- The regular expressions. The URL shape test is a parameter, and `FindAllStringSubmatch` results are given as submatch lists.
- `ParseSiteMap`'s XML decoding: its result is a parameter.
- Urls.Parse: it models `url.Parse` only for scheme://authority[path][?query|#fragment]. It does not model opaque URLs, percent-decoding, IPv6 host brackets or Go's exact error text. The differences below change what the crawler does; the list names the ones known, not necessarily all:
  - A non-numeric port such as "http://a.com:abc/" is accepted, where `url.Parse` fails with "invalid port". Such a link would then be sent by `SendLink` instead of dropped, and `buildSeedUrls` would queue it instead of reporting "... is not a valid url".
  - An upper-case scheme is kept as written, where `url.Parse` lowercases it.
  - `Url.ToString` prints the input back unchanged, where `String()` re-escapes it: "http://a.com/a b" prints back as is here but as "http://a.com/a%20b" in Go. This changes the keys `QueueLinks` records and the string `Handle` deletes from the needed set (pkg/types.go:78).
  - An authority with more than one ':' such as "http://x.y:b:80/" is accepted by `url.Parse`, which checks only the text after the last ':'. Go's `Hostname()` then gives "x.y:b", since it drops only a last ':' followed by digits, but `Urls.HostOf` cuts at the first ':' and gives "x.y". This changes the verdict of `LinkJudge.LocalLinkFilter` (pkg/link_judge.go:6), the host that relative links are joined to (internal/discovered_link.go:24, pkg/link_utils.go:29) and the directory that `Urls.SavePath` and `Worker.FileTarget` write to.
  - No character validation is done. `url.Parse` rejects an ASCII control byte anywhere in the URL, invalid user information, and a host character that Go escapes in host names, such as '^', '{', '}', '|', '\\', '`' or a space ("invalid character … in host name"). The model accepts them all: "http://a.com^x/" parses here with host name "a.com^x". It is URL-shaped, because the regular expression at internal/util.go:12 is not anchored. So `Discovery.SendLink` (internal/discovered_link.go:28) sends such a link where Go returns an error, and `Supervisor.QueueSeedsSpec` (internal/supervisor.go:200-203) queues such a seed where Go reports "… is not a valid url". `LinkUtils.GetFullURL` is unaffected, since it does not parse the rewritten link.
- Urls.HostOf: cuts the host at the first ':' after the user information, where Go's `Hostname()` cuts only at the last ':' followed by digits. For an authority with several ':' such as "x.y:b:80" the model gives "x.y" and Go gives "x.y:b". Its ensures `':' !in h` holds for the model only: Go's host name may contain ':'.
- Urls.Url.Hostname: inherits the first-':' cut of `Urls.HostOf`, so "http://x.y:b:80/" has host name "x.y" here and "x.y:b" in Go. The lemmas about the host of resolved links (`Urls.ResolveStaysOnHost`, `LinkUtils.RelativeLinkSameHost`, `Discovery.RelativeLinkStaysOnHost`) hold for the model's host names; for Go's, a host name such as "x.y:8" (from "x.y:8:80") would lose ":8" when a joined link is parsed again.
- Concurrency is modelled only as interleavings. A worker's two loops interleave at the points listed above, and each notifier iteration is atomic. The supervisor's goroutines are not interleaved with each other: each announcement and each discovered link is one atomic step of an event sequence. Goroutine scheduling, channel blocking, the mutex, the WaitGroup, the length of the delay, and torn reads and writes of the unsynchronised `pipelines`, `isWorking` and `NeededLinks` are not modelled.
- `done` is buffered with capacity one, so a second signal would block the monitor. The model only counts the signals.
- Supervisor.Supervisor.MonitorWorkers: the channel closing and the goroutine wiring of `Supervisor.Start` are not modelled. Each announcement is one `HandleEvent` call.
- `startWorkers` and `Supervisor.Start` are not modelled. Starting goroutines, the stats file, logging and the error printer are I/O.
- Link discovery by the pipeline steps of pkg/steps.go is not modelled. Steps are parameters of `Worker.Chain`.
- File-system writes (`MkdirAll`, `Create`, `WriteFile`) and the remote POST are not modelled: their outcomes are parameters, and `Worker.WriteTarget` names the target.
- `Anubis.Commit` (git), `Anubis.Wait`, configuration loading, authentication, the logger and `main` are not modelled.
- Types.Process: header keys are stored as given, without `http.Header` canonicalisation.
- Anubis.DefaultResponseHandler.Handle: `NeededLinks` is a set rather than a map to `true`. The content type is given as the header's value.
- Anubis.DefaultResponseHandler.Handle: it collects script URLs with the corrected length test (`LinkUtils.GetScriptURLsIntended`), where pkg/types.go:68 calls `GetScriptURLs` and so collects none (see Findings). The handler as written is the same with `LinkUtils.GetScriptURLs` in its place.
- Anubis.Found: it uses the corrected script extractor for the same reason.
- Anubis.Anubis.Cancel: the context is a `cancelled` flag and the cancel function a method. `Context.Err` becomes that flag.
- Anubis.Anubis.AddURL: blocking on a full 256-slot channel is not modelled.
- Anubis.Anubis.Take: an empty queue yields nothing, whether the channel is closed or would block.

## Findings

| source | as written | input that shows it | evidently intended | confidence | as-written member | corrected member |
|---|---|---|---|---|---|---|
| pkg/link_utils.go:61 | `GetScriptURLs` keeps only submatch slices of length 7 | any page with `<script src="a.js">`: ScriptRE (pkg/link_utils.go:14) has seven capture groups, so each match has 8 entries and the script is dropped | keep slices of length 8 and take group 4, as the other extractors do for their patterns | not executed | LinkUtils.ScriptURLsAlwaysEmpty | LinkUtils.ScriptTagKeptWhenIntended |

`Anubis.Found`, and through it `Anubis.DefaultResponseHandler.Handle`, uses
the corrected script extractor `LinkUtils.GetScriptURLsIntended`.
`LinkUtils.GetScriptURLs` models the code as written.
