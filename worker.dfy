/**
 * A crawler worker of the internal package: the state announcements of
 * `worker.Start`, the step chain of `runPipeline` and the output location
 * of `writeBytes`.
 *
 * `Start` runs two loops that share the `pipelines`, `isWorking` and
 * `stopping` variables: the receive loop over the inbox and the notifier
 * loop over pipeline completions. One interleaving of the two is a sequence
 * of `Input`s; `Step` is the effect of one of them. The receive loop is cut
 * at every point where the notifier's view of it changes: after the
 * request, during the delay, after the Waiting or Inactive announcement,
 * after Stopping and after `stopping` is set. The notifier's handling of
 * one completion (the decrement, its two tests and their announcements) is
 * one step.
 */
module Worker {
  import opened Results
  import Urls
  import Paths
  import Types

  /** What a worker tells the supervisor about itself. */
  datatype WorkerState = Inactive | Waiting | Running | Stopping | Finished | Receiving
  {
    /** The integer code the source sends on the state channel. */
    function Code(): (c: int)
      ensures 0 <= c <= 5
    {
      match this
      case Inactive => 0
      case Waiting => 1
      case Running => 2
      case Stopping => 3
      case Finished => 4
      case Receiving => 5
    }
  }

  /** Distinct states have distinct codes, so the channel loses nothing. */
  lemma CodeInjective(s: WorkerState, t: WorkerState)
    ensures s.Code() == t.Code() <==> s == t
  {
  }

  /** A finished request: the URL and the HTTP status code it returned. */
  datatype CompletedRequest = CompletedRequest(url: string, statusCode: int)

  /** The result of the HTTP request: a response status or a transport error. */
  datatype FetchOutcome = FetchOk(status: int) | FetchErr(err: string)

  /**
   * Where the receive loop of `Start` is. Each phase is a point between two
   * of its operations on shared variables or channels, where the notifier
   * loop may run.
   */
  datatype Phase =
    | Idle       // waiting on the inbox; `isWorking` is false
    | Fetching   // Running announced, the request under way
    | Sleeping   // the request done, the delay under way
    | Announced  // Waiting or Inactive announced, `isWorking` not yet cleared
    | Closing    // the inbox closed and Stopping announced, `stopping` not yet set
    | Stopped    // `stopping` set, the final test of `pipelines` not yet made
    | Ended      // `Start` has returned

  /** Whether the receive loop is between taking a URL and clearing `isWorking`. */
  predicate Busy(p: Phase)
  {
    p == Fetching || p == Sleeping || p == Announced
  }

  /** Whether the receive loop has seen its inbox closed. */
  predicate Closed(p: Phase)
  {
    p == Closing || p == Stopped || p == Ended
  }

  /** What happens next to a worker: a move of the receive loop, or of the notifier loop. */
  datatype Input =
    | Receive(url: string)           // the inbox yields a URL; Running is announced
    | Fetched(outcome: FetchOutcome) // the request returns
    | Woke                           // the delay ends; Waiting or Inactive is announced
    | Cleared                        // `isWorking` is cleared
    | InboxClosed                    // the inbox is closed; Stopping is announced
    | Stop                           // `stopping` is set
    | Check                          // the final test of `pipelines`
    | PipelineDone                   // a pipeline signals the notifier

  /** The worker's variables and everything it has sent so far. */
  datatype Run = Run(
    pending: nat,                 // `pipelines`: pipelines started and not yet signalled
    isWorking: bool,
    stopping: bool,
    phase: Phase,                 // where the receive loop is
    current: string,              // the URL being fetched
    announced: seq<WorkerState>,  // the state channel
    sent: seq<CompletedRequest>,  // the sent channel
    errors: seq<string>)          // the errors channel

  /** After the first announcement, before the first receive. */
  const Started := Run(0, false, false, Idle, "", [Inactive], [], [])

  /**
   * Whether `i` can happen in `r`; an input that cannot happen is ignored.
   * The notifier runs only while a pipeline is pending: once it breaks out
   * or its channel is closed, no pipeline is pending and none can start.
   */
  predicate Enabled(r: Run, i: Input)
  {
    match i
    case Receive(_) => r.phase == Idle
    case Fetched(_) => r.phase == Fetching
    case Woke => r.phase == Sleeping
    case Cleared => r.phase == Announced
    case InboxClosed => r.phase == Idle
    case Stop => r.phase == Closing
    case Check => r.phase == Stopped
    case PipelineDone => r.pending > 0
  }

  /**
   * One input's effect. A step announces at most two states (a completing
   * pipeline's Inactive and Finished), reports at most one request or error,
   * and only the receive loop's own moves change its phase.
   */
  function Step(r: Run, i: Input): (r2: Run)
    ensures |r.announced| <= |r2.announced| <= |r.announced| + 2
    ensures |r.sent| <= |r2.sent| <= |r.sent| + 1 && |r.errors| <= |r2.errors| <= |r.errors| + 1
    ensures i.PipelineDone? ==> r2.phase == r.phase
  {
    if !Enabled(r, i) then r
    else match i
      case Receive(u) =>
        r.(phase := Fetching, isWorking := true, current := u, announced := r.announced + [Running])
      case Fetched(outcome) =>
        if outcome.FetchOk? then
          r.(phase := Sleeping, sent := r.sent + [CompletedRequest(r.current, outcome.status)], pending := r.pending + 1)
        else r.(phase := Sleeping, errors := r.errors + [outcome.err])
      case Woke =>
        r.(phase := Announced, announced := r.announced + [if r.pending > 0 then Waiting else Inactive])
      case Cleared =>
        r.(phase := Idle, isWorking := false)
      case InboxClosed =>
        r.(phase := Closing, announced := r.announced + [Stopping])
      case Stop =>
        r.(phase := Stopped, stopping := true)
      case Check =>
        r.(phase := Ended, announced := r.announced + if r.pending == 0 then [Finished] else [])
      case PipelineDone =>
        var p := r.pending - 1;
        r.(pending := p,
           announced := r.announced
                        + (if p == 0 && !r.isWorking then [Inactive] else [])
                        + (if p == 0 && r.stopping then [Finished] else []))
  }

  /** The inputs `xs` applied in order. */
  function Apply(r: Run, xs: seq<Input>): Run
    decreases |xs|
  {
    if xs == [] then r else Apply(Step(r, xs[0]), xs[1..])
  }

  /** A step only appends to the three channels. */
  lemma StepGrows(r: Run, i: Input)
    ensures var r2 := Step(r, i);
            r.announced <= r2.announced && r.sent <= r2.sent && r.errors <= r2.errors
  {
  }

  /** Whatever happens, the three channels only grow: nothing sent is taken back. */
  lemma {:induction false} ChannelsOnlyGrow(r: Run, xs: seq<Input>)
    ensures var r2 := Apply(r, xs);
            r.announced <= r2.announced && r.sent <= r2.sent && r.errors <= r2.errors
    decreases |xs|
  {
    if xs != [] {
      StepGrows(r, xs[0]);
      ChannelsOnlyGrow(Step(r, xs[0]), xs[1..]);
    }
  }

  lemma {:induction false} ApplyAppend(r: Run, xs: seq<Input>, ys: seq<Input>)
    ensures Apply(r, xs + ys) == Apply(Apply(r, xs), ys)
    decreases |xs|
  {
    if xs == [] {
      assert xs + ys == ys;
    } else {
      assert (xs + ys)[0] == xs[0] && (xs + ys)[1..] == xs[1..] + ys;
      ApplyAppend(Step(r, xs[0]), xs[1..], ys);
    }
  }

  lemma ApplySnoc(r: Run, xs: seq<Input>, x: Input)
    ensures Apply(r, xs + [x]) == Step(Apply(r, xs), x)
  {
    ApplyAppend(r, xs, [x]);
    assert [x][1..] == [];
  }

  /**
   * `worker.Start`, driven by one interleaving of its inbox, its requests,
   * its delay and its pipelines' completions.
   */
  method Start(inputs: seq<Input>) returns (r: Run)
    ensures r == Apply(Started, inputs)
  {
    var pipelines: nat, isWorking, stopping, phase := 0, false, false, Idle;
    var u := "";
    var announced: seq<WorkerState> := [Inactive];
    var sent: seq<CompletedRequest> := [];
    var errors: seq<string> := [];
    for n := 0 to |inputs|
      invariant Run(pipelines, isWorking, stopping, phase, u, announced, sent, errors)
             == Apply(Started, inputs[..n])
    {
      ApplySnoc(Started, inputs[..n], inputs[n]);
      assert inputs[..n + 1] == inputs[..n] + [inputs[n]];
      match inputs[n]
      case Receive(next) =>
        if phase == Idle {
          u := next;
          isWorking := true;
          announced := announced + [Running];
          phase := Fetching;
        }
      case Fetched(outcome) =>
        if phase == Fetching {
          match outcome {
            case FetchOk(status) =>
              sent := sent + [CompletedRequest(u, status)];
              pipelines := pipelines + 1;
            case FetchErr(err) =>
              errors := errors + [err];
          }
          phase := Sleeping;
        }
      case Woke =>
        if phase == Sleeping {
          if pipelines > 0 {
            announced := announced + [Waiting];
          } else {
            announced := announced + [Inactive];
          }
          phase := Announced;
        }
      case Cleared =>
        if phase == Announced {
          isWorking := false;
          phase := Idle;
        }
      case InboxClosed =>
        if phase == Idle {
          announced := announced + [Stopping];
          phase := Closing;
        }
      case Stop =>
        if phase == Closing {
          stopping := true;
          phase := Stopped;
        }
      case Check =>
        if phase == Stopped {
          if pipelines == 0 {
            announced := announced + [Finished];
          }
          phase := Ended;
        }
      case PipelineDone =>
        if pipelines > 0 {
          pipelines := pipelines - 1;
          if pipelines == 0 {
            if !isWorking {
              announced := announced + [Inactive];
            }
            if stopping {
              announced := announced + [Finished];
            }
          }
        }
    }
    assert inputs[..|inputs|] == inputs;
    r := Run(pipelines, isWorking, stopping, phase, u, announced, sent, errors);
  }

  /** No `Running` is announced after `Stopping`. */
  predicate NoRunningAfterStopping(a: seq<WorkerState>)
  {
    forall k, j :: 0 <= k < j < |a| && a[k] == Stopping ==> a[j] != Running
  }

  /** What holds of every run of `Start`. */
  ghost predicate Inv(r: Run)
  {
    var a := r.announced;
    && (r.isWorking <==> Busy(r.phase))
    && (r.stopping <==> r.phase == Stopped || r.phase == Ended)
    && r.pending <= |r.sent|
    && |a| > 0 && a[0] == Inactive
    && (Stopping in a <==> Closed(r.phase))
    && (Finished in a ==> r.stopping && r.pending == 0 && a[|a| - 1] == Finished)
    && (r.phase == Ended ==> (Finished in a <==> r.pending == 0))
    && multiset(a)[Finished] <= (if r.phase == Ended then 2 else 1)
    && NoRunningAfterStopping(a)
  }

  lemma AppendNoRunningAfterStopping(a: seq<WorkerState>, b: seq<WorkerState>)
    requires NoRunningAfterStopping(a)
    requires Stopping in a ==> Running !in b
    requires Stopping in b ==> Running !in b && Stopping !in a
    ensures NoRunningAfterStopping(a + b)
  {
    forall k, j | 0 <= k < j < |a + b| && (a + b)[k] == Stopping ensures (a + b)[j] != Running {
      if j >= |a| {
        assert (a + b)[j] == b[j - |a|];
        if k < |a| { assert a[k] == Stopping; } else { assert b[k - |a|] == Stopping; }
      }
    }
  }

  /** Announcing `x` after `a`: what is in the result, and where Finished can be. */
  lemma AppendOne(a: seq<WorkerState>, x: WorkerState)
    requires |a| > 0
    ensures |a + [x]| > 0 && (a + [x])[0] == a[0] && (a + [x])[|a|] == x
    ensures forall y :: y in a + [x] <==> y in a || y == x
    ensures multiset(a + [x])[Finished] == multiset(a)[Finished] + if x == Finished then 1 else 0
  {
  }

  lemma InvStep(r: Run, i: Input)
    requires Inv(r)
    ensures Inv(Step(r, i))
  {
    if Enabled(r, i) {
      match i
      case Receive(u) => InvReceive(r, u);
      case Fetched(outcome) =>
      case Woke => InvWoke(r);
      case Cleared =>
      case InboxClosed => InvInboxClosed(r);
      case Stop =>
      case Check => InvCheck(r);
      case PipelineDone => InvPipelineDone(r);
    }
  }

  lemma InvReceive(r: Run, u: string)
    requires Inv(r) && Enabled(r, Receive(u))
    ensures Inv(Step(r, Receive(u)))
  {
    AppendOne(r.announced, Running);
    AppendNoRunningAfterStopping(r.announced, [Running]);
  }

  lemma InvWoke(r: Run)
    requires Inv(r) && Enabled(r, Woke)
    ensures Inv(Step(r, Woke))
  {
    var next := if r.pending > 0 then Waiting else Inactive;
    AppendOne(r.announced, next);
    AppendNoRunningAfterStopping(r.announced, [next]);
  }

  lemma InvInboxClosed(r: Run)
    requires Inv(r) && Enabled(r, InboxClosed)
    ensures Inv(Step(r, InboxClosed))
  {
    AppendOne(r.announced, Stopping);
    AppendNoRunningAfterStopping(r.announced, [Stopping]);
  }

  lemma InvCheck(r: Run)
    requires Inv(r) && Enabled(r, Check)
    ensures Inv(Step(r, Check))
  {
    if r.pending == 0 {
      AppendOne(r.announced, Finished);
      AppendNoRunningAfterStopping(r.announced, [Finished]);
    } else {
      assert r.announced + [] == r.announced;
    }
  }

  lemma InvPipelineDone(r: Run)
    requires Inv(r) && Enabled(r, PipelineDone)
    ensures Inv(Step(r, PipelineDone))
  {
    if r.pending > 1 || (r.isWorking && !r.stopping) {
      InvQuietDone(r);
    } else if !r.stopping {
      InvIdleDone(r);
    } else {
      InvLastDone(r);
    }
  }

  /** A pipeline completing while others are pending, or while the receive loop works: nothing is announced. */
  lemma InvQuietDone(r: Run)
    requires Inv(r) && r.pending > 0 && (r.pending > 1 || (r.isWorking && !r.stopping))
    ensures Inv(Step(r, PipelineDone))
  {
    assert Finished !in r.announced;
    assert Step(r, PipelineDone).announced == r.announced;
  }

  /** The last pipeline completing while the receive loop waits for work: Inactive. */
  lemma InvIdleDone(r: Run)
    requires Inv(r) && r.pending == 1 && !r.isWorking && !r.stopping
    ensures Inv(Step(r, PipelineDone))
  {
    var a := r.announced;
    assert Finished !in a;
    assert Step(r, PipelineDone).announced == a + [Inactive];
    AppendOne(a, Inactive);
    AppendNoRunningAfterStopping(a, [Inactive]);
  }

  /** The last pipeline completing once `stopping` is set: Inactive, then Finished. */
  lemma InvLastDone(r: Run)
    requires Inv(r) && r.pending == 1 && r.stopping
    ensures Inv(Step(r, PipelineDone))
  {
    var a := r.announced;
    assert Finished !in a && !r.isWorking;
    assert Step(r, PipelineDone).announced == (a + [Inactive]) + [Finished];
    AppendOne(a, Inactive);
    AppendOne(a + [Inactive], Finished);
    AppendNoRunningAfterStopping(a, [Inactive]);
    AppendNoRunningAfterStopping(a + [Inactive], [Finished]);
  }

  lemma {:induction false} InvApply(r: Run, xs: seq<Input>)
    requires Inv(r)
    ensures Inv(Apply(r, xs))
    decreases |xs|
  {
    if xs != [] {
      InvStep(r, xs[0]);
      InvApply(Step(r, xs[0]), xs[1..]);
    }
  }

  /**
   * The lifecycle of a worker, for every interleaving of its two loops: it
   * announces Inactive first; Stopping is announced exactly once the inbox
   * is closed, and Running never after it; Finished is announced only once
   * `stopping` is set and no pipeline is pending, and then it is the last
   * announcement; it is announced at most twice; once `Start` has returned,
   * it has been announced exactly when no pipeline is pending; and no
   * pipeline is pending that was not reported as a completed request.
   */
  lemma Lifecycle(xs: seq<Input>)
    ensures var r := Apply(Started, xs);
            var a := r.announced;
      && |a| > 0 && a[0] == Inactive
      && (Stopping in a <==> Closed(r.phase))
      && NoRunningAfterStopping(a)
      && (Finished in a ==> r.stopping && r.pending == 0 && a[|a| - 1] == Finished)
      && multiset(a)[Finished] <= 2
      && (r.phase == Ended ==> (Finished in a <==> r.pending == 0))
      && r.pending <= |r.sent|
  {
    InvApply(Started, xs);
  }

  /**
   * After Finished is announced, the only thing that can still happen is
   * the receive loop's own final test, which announces Finished once more
   * if the notifier announced it first.
   */
  lemma {:induction false} AfterFinished(xs: seq<Input>, more: seq<Input>)
    requires Finished in Apply(Started, xs).announced
    ensures var r0 := Apply(Started, xs);
            var r := Apply(Started, xs + more);
            || r == r0
            || (r0.phase == Stopped && r == r0.(phase := Ended, announced := r0.announced + [Finished]))
    decreases |more|
  {
    InvApply(Started, xs);
    if more == [] {
      assert xs + more == xs;
    } else {
      var init := more[..|more| - 1];
      var last := more[|more| - 1];
      AfterFinished(xs, init);
      assert xs + more == (xs + init) + [last];
      ApplySnoc(Started, xs + init, last);
      StepAfterFinished(Apply(Started, xs), Apply(Started, xs + init), last);
    }
  }

  /** Once nothing is pending and `stopping` is set, only the final test can still move the worker. */
  lemma StepAfterFinished(r0: Run, r1: Run, x: Input)
    requires r0.pending == 0 && (r0.phase == Stopped || r0.phase == Ended)
    requires r1 == r0 || (r0.phase == Stopped && r1 == r0.(phase := Ended, announced := r0.announced + [Finished]))
    ensures var r := Step(r1, x);
            || r == r0
            || (r0.phase == Stopped && r == r0.(phase := Ended, announced := r0.announced + [Finished]))
  {
  }

  /**
   * A pipeline that completes after `stopping` is set and before the final
   * test makes both loops announce Finished: the notifier after Inactive,
   * then the receive loop.
   */
  lemma FinishedTwice(r: Run)
    requires r.phase == Idle && !r.isWorking && r.pending == 1
    ensures Apply(r, [InboxClosed, Stop, PipelineDone, Check]).announced
         == r.announced + [Stopping, Inactive, Finished, Finished]
  {
    var r1 := Step(r, InboxClosed);
    var r2 := Step(r1, Stop);
    var r3 := Step(r2, PipelineDone);
    ApplyUnfold(r, [InboxClosed, Stop, PipelineDone, Check]);
    ApplyUnfold(r1, [Stop, PipelineDone, Check]);
    ApplyUnfold(r2, [PipelineDone, Check]);
    ApplyUnfold(r3, [Check]);
  }

  /** Applying a non-empty list is applying its first input and then the rest. */
  lemma ApplyUnfold(r: Run, xs: seq<Input>)
    requires xs != []
    ensures Apply(r, xs) == Apply(Step(r, xs[0]), xs[1..])
  {
  }

  /**
   * One URL through the receive loop while no pipeline completes: Running
   * is announced; a response is reported as a completed request for that
   * URL and starts a pipeline, after which the worker is Waiting; a
   * transport error is reported and the worker is Waiting only if earlier
   * pipelines are still pending.
   */
  lemma FetchOne(r: Run, u: string, outcome: FetchOutcome)
    requires r.phase == Idle
    ensures var r2 := Apply(r, [Receive(u), Fetched(outcome), Woke, Cleared]);
      && r2.phase == Idle && !r2.isWorking && r2.stopping == r.stopping
      && (outcome.FetchOk? ==>
            r2.sent == r.sent + [CompletedRequest(u, outcome.status)] && r2.pending == r.pending + 1
            && r2.errors == r.errors && r2.announced == r.announced + [Running, Waiting])
      && (outcome.FetchErr? ==>
            r2.sent == r.sent && r2.pending == r.pending && r2.errors == r.errors + [outcome.err]
            && r2.announced == r.announced + [Running, if r.pending > 0 then Waiting else Inactive])
  {
    var r1 := Step(r, Receive(u));
    var r2 := Step(r1, Fetched(outcome));
    var r3 := Step(r2, Woke);
    ApplyUnfold(r, [Receive(u), Fetched(outcome), Woke, Cleared]);
    ApplyUnfold(r1, [Fetched(outcome), Woke, Cleared]);
    ApplyUnfold(r2, [Woke, Cleared]);
    ApplyUnfold(r3, [Cleared]);
  }

  /**
   * A pipeline that completes during the delay is not announced by the
   * notifier, since `isWorking` is still set; the worker then announces
   * Inactive after Running, with no Waiting between.
   */
  lemma DoneDuringDelay(r: Run, u: string, status: int)
    requires Inv(r) && r.phase == Idle && r.pending == 0
    ensures var r2 := Apply(r, [Receive(u), Fetched(FetchOk(status)), PipelineDone, Woke, Cleared]);
      && r2.announced == r.announced + [Running, Inactive]
      && r2.pending == 0 && r2.phase == Idle
      && r2.sent == r.sent + [CompletedRequest(u, status)]
  {
    var r1 := Step(r, Receive(u));
    var r2 := Step(r1, Fetched(FetchOk(status)));
    var r3 := Step(r2, PipelineDone);
    var r4 := Step(r3, Woke);
    ApplyUnfold(r, [Receive(u), Fetched(FetchOk(status)), PipelineDone, Woke, Cleared]);
    ApplyUnfold(r1, [Fetched(FetchOk(status)), PipelineDone, Woke, Cleared]);
    ApplyUnfold(r2, [PipelineDone, Woke, Cleared]);
    ApplyUnfold(r3, [Woke, Cleared]);
    ApplyUnfold(r4, [Cleared]);
    assert r3.announced == r.announced + [Running];
    assert r4.announced == r.announced + [Running] + [Inactive];
  }

  /**
   * A pipeline that completes after Waiting is announced and before
   * `isWorking` is cleared is not announced either: the worker is idle with
   * nothing pending, its last announcement is Waiting, and nothing it can
   * do without a new URL or the inbox closing announces anything else.
   */
  lemma DoneAfterWaiting(r: Run, u: string, status: int)
    requires Inv(r) && r.phase == Idle && r.pending == 0
    ensures var r2 := Apply(r, [Receive(u), Fetched(FetchOk(status)), Woke, PipelineDone, Cleared]);
      && r2.announced == r.announced + [Running, Waiting]
      && r2.pending == 0 && r2.phase == Idle && !r2.isWorking
      && forall i :: Enabled(r2, i) ==> i.Receive? || i.InboxClosed?
  {
    var r1 := Step(r, Receive(u));
    var r2 := Step(r1, Fetched(FetchOk(status)));
    var r3 := Step(r2, Woke);
    var r4 := Step(r3, PipelineDone);
    ApplyUnfold(r, [Receive(u), Fetched(FetchOk(status)), Woke, PipelineDone, Cleared]);
    ApplyUnfold(r1, [Fetched(FetchOk(status)), Woke, PipelineDone, Cleared]);
    ApplyUnfold(r2, [Woke, PipelineDone, Cleared]);
    ApplyUnfold(r3, [PipelineDone, Cleared]);
    ApplyUnfold(r4, [Cleared]);
    assert r4.announced == r.announced + [Running] + [Waiting];
  }

  /** `n` pipeline completions. */
  function Dones(n: nat): (d: seq<Input>)
    ensures |d| == n && forall k :: 0 <= k < n ==> d[k] == PipelineDone
  {
    seq(n, _ => PipelineDone)
  }

  /**
   * An idle worker whose pending pipelines all complete announces Inactive
   * once, when the last one completes, and changes nothing else.
   */
  lemma {:induction false} DrainPending(r: Run)
    requires !r.isWorking && !r.stopping && r.pending > 0
    ensures Apply(r, Dones(r.pending)) == r.(pending := 0, announced := r.announced + [Inactive])
    decreases r.pending
  {
    var d := Dones(r.pending);
    assert d[1..] == Dones(r.pending - 1);
    if r.pending > 1 {
      DrainPending(Step(r, PipelineDone));
    } else {
      assert d[1..] == [];
    }
  }

  /**
   * Graceful end of an idle worker: once its pipelines complete and its
   * inbox closes, its last three announcements are Inactive, Stopping and
   * Finished (only Stopping and Finished if nothing was pending).
   */
  lemma DrainThenClose(r: Run)
    requires Inv(r) && r.phase == Idle
    ensures Apply(r, Dones(r.pending) + [InboxClosed, Stop, Check]).announced
         == r.announced + (if r.pending > 0 then [Inactive] else []) + [Stopping, Finished]
  {
    DrainIdleThenClose(r);
  }

  lemma DrainIdleThenClose(r: Run)
    requires r.phase == Idle && !r.isWorking && !r.stopping
    ensures Apply(r, Dones(r.pending) + [InboxClosed, Stop, Check]).announced
         == r.announced + (if r.pending > 0 then [Inactive] else []) + [Stopping, Finished]
  {
    ApplyAppend(r, Dones(r.pending), [InboxClosed, Stop, Check]);
    var r0 := Apply(r, Dones(r.pending));
    if r.pending > 0 {
      DrainPending(r);
    } else {
      assert Dones(0) == [];
    }
    assert r0.phase == Idle && r0.pending == 0;
    ApplyThree(r0, InboxClosed, Stop, Check);
  }

  /** Three inputs applied in order. */
  lemma ApplyThree(r: Run, a: Input, b: Input, c: Input)
    ensures Apply(r, [a, b, c]) == Step(Step(Step(r, a), b), c)
  {
    assert [a, b, c][1..] == [b, c];
    ApplyUnfold(r, [a, b, c]);
    assert [b, c][1..] == [c];
    ApplyUnfold(Step(r, a), [b, c]);
  }

  // ---- runPipeline ----

  type Bytes = seq<bv8>

  /** What a pipeline step returns: the bytes for the next step and maybe an error. */
  datatype StepResult = StepResult(out: Bytes, err: Option<string>)

  /** A pipeline step, given the bytes so far and the page URL. */
  type PipelineFunc = (Bytes, string) -> StepResult

  /** The bytes after a chain of steps and the errors the steps reported, in order. */
  datatype Chained = Chained(out: Bytes, errors: seq<string>)

  function ErrorList(e: Option<string>): seq<string>
  {
    if e.Some? then [e.value] else []
  }

  /**
   * The steps run in order, each on the bytes the previous one returned; a
   * step's error is reported and the chain goes on with the bytes that step
   * returned.
   */
  function Chain(b: Bytes, u: string, steps: seq<PipelineFunc>): (c: Chained)
    ensures |c.errors| <= |steps|
    decreases |steps|
  {
    if steps == [] then Chained(b, [])
    else
      var first := steps[0](b, u);
      var rest := Chain(first.out, u, steps[1..]);
      Chained(rest.out, ErrorList(first.err) + rest.errors)
  }

  /** Running two chains one after the other is running their concatenation. */
  lemma {:induction false} ChainAppend(b: Bytes, u: string, s1: seq<PipelineFunc>, s2: seq<PipelineFunc>)
    ensures Chain(b, u, s1 + s2)
         == Chained(Chain(Chain(b, u, s1).out, u, s2).out,
                    Chain(b, u, s1).errors + Chain(Chain(b, u, s1).out, u, s2).errors)
    decreases |s1|
  {
    if s1 == [] {
      assert s1 + s2 == s2;
    } else {
      assert (s1 + s2)[0] == s1[0] && (s1 + s2)[1..] == s1[1..] + s2;
      ChainAppend(s1[0](b, u).out, u, s1[1..], s2);
    }
  }

  /** The step loop of `runPipeline`. */
  method RunSteps(b0: Bytes, u: string, steps: seq<PipelineFunc>) returns (b: Bytes, errs: seq<string>)
    ensures Chained(b, errs) == Chain(b0, u, steps)
  {
    b, errs := b0, [];
    for n := 0 to |steps|
      invariant Chained(b, errs) == Chain(b0, u, steps[..n])
    {
      var r := steps[n](b, u);
      b := r.out;
      if r.err.Some? {
        errs := errs + [r.err.value];
      }
      ChainAppend(b0, u, steps[..n], [steps[n]]);
      assert steps[..n + 1] == steps[..n] + [steps[n]];
      assert [steps[n]][1..] == [];
    }
    assert steps[..|steps|] == steps;
  }

  /** Where `writeBytes` sends the page: a POST to a remote output, or a file. */
  datatype Target = Post(url: string) | File(path: string)

  function WriteTarget(output: string, u: Urls.Url): (t: Target)
    ensures t.Post? <==> Types.HasPrefix(output, "http")
    ensures t.Post? ==> Types.HasPrefix(t.url, output) && t.url[|output|..] == u.path
    ensures t.File? ==> t.path != ""
  {
    if Types.HasPrefix(output, "http") then Post(output + u.path)
    else File(Urls.SavePath(output, u))
  }

  /**
   * A local output stores a page under the output directory and its host
   * name; a page whose path is empty or names a directory is stored as
   * `index.html`, and any other path is kept.
   */
  lemma FileTarget(output: string, u: Urls.Url)
    requires !Types.HasPrefix(output, "http")
    ensures u.path == "" || u.path[|u.path| - 1] == '/' ==>
              WriteTarget(output, u) == File(Paths.Join([output, u.Hostname(), "index.html"]))
    ensures u.path != "" && u.path[|u.path| - 1] != '/' ==>
              WriteTarget(output, u) == File(Paths.Join([output, u.Hostname(), u.path]))
  {
  }

  /** What one pipeline run reports, writes and signals. */
  datatype PipelineRun = PipelineRun(
    errors: seq<string>,
    write: Option<(Target, Bytes)>,
    signalled: bool)            // whether it sends on the notifier

  /**
   * `runPipeline` for the page `u`: `body` is the result of reading the
   * response body, `writeErr` the outcome of the write, `shaped` the URL
   * shape test.
   */
  function RunPipeline(shaped: Urls.Recognizer, body: Result<Bytes, string>, u: string,
                       steps: seq<PipelineFunc>, output: string, writeErr: Option<string>): (p: PipelineRun)
    ensures p.write.Some? ==> p.signalled
    ensures |p.errors| <= |steps| + 1
  {
    match body
    case Err(e) => PipelineRun([e], None, true)
    case Ok(b) =>
      var c := Chain(b, u, steps);
      match Urls.ParseUrl(shaped, u)
      case Err(pe) => PipelineRun(c.errors + [pe], None, false)
      case Ok(page) => PipelineRun(c.errors + ErrorList(writeErr), Some((WriteTarget(output, page), c.out)), true)
  }

  /**
   * The outcomes of `runPipeline`: a body that cannot be read is reported,
   * runs no step and still signals completion; otherwise the steps' errors
   * come first, in order, and the chain's final bytes are written exactly
   * when the page URL parses, which is also exactly when completion is
   * signalled.
   */
  lemma PipelineOutcome(shaped: Urls.Recognizer, body: Result<Bytes, string>, u: string,
                        steps: seq<PipelineFunc>, output: string, writeErr: Option<string>)
    ensures var p := RunPipeline(shaped, body, u, steps, output, writeErr);
      && (body.Err? ==> p.errors == [body.error] && p.write.None? && p.signalled)
      && (body.Ok? ==>
            && var c := Chain(body.value, u, steps);
            && p.errors[..|c.errors|] == c.errors
            && (p.signalled <==> shaped(u) && Urls.Parse(u).Some?)
            && (p.write.Some? <==> p.signalled)
            && (p.write.Some? ==> p.write.value.1 == c.out)
            && (!p.signalled ==> |p.errors| == |c.errors| + 1))
  {
    if body.Ok? {
      var c := Chain(body.value, u, steps);
      assert (c.errors + ErrorList(writeErr))[..|c.errors|] == c.errors;
    }
  }
}
