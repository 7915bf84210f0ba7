/**
 * `DefaultUrlsManager`: the FIFO queue of URLs still to fetch and the map of
 * every URL ever accepted, which keeps a URL from being queued twice.
 */
module UrlManager {
  import opened Seqs
  import Urls
  import Worker

  /** The two errors `QueueLinks` reports, with the text the crawler logs. */
  datatype QueueError = AlreadyProcessed(link: string) | QueueClosed
  {
    function Message(): string
    {
      match this
      case AlreadyProcessed(link) => "Already processed link " + link + ", ignoring"
      case QueueClosed => "Queue is not accepting new urls"
    }
  }

  /** The manager's state: queue, status per accepted URL (0 while reserved), closed flag. */
  datatype Store = Store(queue: seq<string>, completed: map<string, int>, closed: bool)

  /** A new manager: nothing queued, nothing recorded, open. */
  const EmptyStore := Store([], map[], false)

  /** A store and the errors an operation on it reported. */
  datatype Queued = Queued(store: Store, errors: seq<QueueError>)

  /** The URLs of `links` as the strings the store keys on. */
  function Texts(links: seq<Urls.Url>): (r: seq<string>)
    ensures |r| == |links| && forall i :: 0 <= i < |links| ==> r[i] == links[i].ToString()
  {
    seq(|links|, i requires 0 <= i < |links| => links[i].ToString())
  }

  lemma TextsSnoc(links: seq<Urls.Url>, u: Urls.Url)
    ensures Texts(links + [u]) == Texts(links) + [u.ToString()]
  {
  }

  /**
   * Offering `links` one after the other to an open store: an unknown link
   * is reserved with status 0 and appended to the queue, a known one
   * (reserved or completed) is reported.
   */
  function Accept(st: Store, links: seq<string>): (r: Queued)
    ensures r.store.closed == st.closed
    ensures st.completed.Keys <= r.store.completed.Keys
    ensures |r.store.queue| + |r.errors| == |st.queue| + |links|
    decreases |links|
  {
    if links == [] then Queued(st, [])
    else
      var prev := Accept(st, links[..|links| - 1]);
      var link := links[|links| - 1];
      if link in prev.store.completed then
        Queued(prev.store, prev.errors + [AlreadyProcessed(link)])
      else
        Queued(prev.store.(queue := prev.store.queue + [link],
                           completed := prev.store.completed[link := 0]),
               prev.errors)
  }

  /** `QueueLinks`: a closed store changes nothing and reports one error. */
  function QueueLinksSpec(st: Store, links: seq<string>): (q: Queued)
    ensures q.store.closed == st.closed && st.queue <= q.store.queue
    ensures st.closed ==> q.store == st && q.errors == [QueueClosed]
  {
    if st.closed then Queued(st, [QueueClosed])
    else
      AcceptQueue(st, links);
      Accept(st, links)
  }

  /** The errors for a sequence of rejected links, in order. */
  function Rejections(links: seq<string>): (r: seq<QueueError>)
    ensures |r| == |links| && forall i :: 0 <= i < |links| ==> r[i] == AlreadyProcessed(links[i])
  {
    seq(|links|, i requires 0 <= i < |links| => AlreadyProcessed(links[i]))
  }

  /** `ShiftQueue`: the head of the queue, or ("", false) on an empty queue. */
  datatype Shifted = Shifted(store: Store, url: string, ok: bool)

  function ShiftSpec(st: Store): (s: Shifted)
    ensures s.ok <==> st.queue != []
    ensures s.ok ==> [s.url] + s.store.queue == st.queue
    ensures !s.ok ==> s.store == st && s.url == ""
    ensures s.store.completed == st.completed && s.store.closed == st.closed
  {
    if st.queue == [] then Shifted(st, "", false)
    else Shifted(st.(queue := st.queue[1..]), st.queue[0], true)
  }

  /**
   * The keys and statuses after `QueueLinks` on an open store: every link
   * becomes a key, recorded statuses are kept and new keys hold the
   * placeholder 0.
   */
  lemma {:induction false} AcceptKeys(st: Store, links: seq<string>)
    ensures Accept(st, links).store.completed.Keys == st.completed.Keys + set l | l in links
    ensures forall k :: k in st.completed ==> Accept(st, links).store.completed[k] == st.completed[k]
    ensures forall k :: k in Accept(st, links).store.completed && k !in st.completed ==>
              Accept(st, links).store.completed[k] == 0
    ensures Accept(st, links).store.closed == st.closed
    decreases |links|
  {
    if links != [] {
      var init := links[..|links| - 1];
      var link := links[|links| - 1];
      AcceptKeys(st, init);
      var prev := Accept(st, init);
      var r := Accept(st, links);
      if link in prev.store.completed {
        assert r.store == prev.store;
      } else {
        assert r.store.completed == prev.store.completed[link := 0];
      }
      assert links == init + [link];
      assert (set l | l in links) == (set l | l in init) + {link};
    }
  }

  /**
   * The queue after `QueueLinks` on an open store grows at its tail by the
   * links not seen before, in the order they were offered, once each.
   */
  lemma {:induction false} AcceptQueue(st: Store, links: seq<string>)
    ensures Accept(st, links).store.queue == st.queue + FirstSeen(st.completed.Keys, links)
    decreases |links|
  {
    if links != [] {
      var init := links[..|links| - 1];
      var link := links[|links| - 1];
      AcceptQueue(st, init);
      AcceptKeys(st, init);
      assert links == init + [link];
      FirstSeenSnoc(st.completed.Keys, init, link);
    }
  }

  /** The errors of `QueueLinks` on an open store: one per known link, in order. */
  lemma {:induction false} AcceptErrors(st: Store, links: seq<string>)
    ensures Accept(st, links).errors == Rejections(Repeats(st.completed.Keys, links))
    decreases |links|
  {
    if links != [] {
      var init := links[..|links| - 1];
      var link := links[|links| - 1];
      AcceptErrors(st, init);
      AcceptKeys(st, init);
      assert links == init + [link];
      RepeatsSnoc(st.completed.Keys, init, link);
      var reps := Repeats(st.completed.Keys, init);
      assert Rejections(reps + [link]) == Rejections(reps) + [AlreadyProcessed(link)];
    }
  }

  /** The store's invariant: each queued URL once, and each one reserved. */
  ghost predicate Valid(st: Store)
  {
    NoDup(st.queue) && forall u :: u in st.queue ==> u in st.completed
  }

  lemma NoDupAppend<T>(a: seq<T>, b: seq<T>)
    requires NoDup(a) && NoDup(b)
    requires forall x :: x in a ==> x !in b
    ensures NoDup(a + b)
  {
    forall i, j | 0 <= i < j < |a + b| ensures (a + b)[i] != (a + b)[j] {
      if i < |a| && j >= |a| {
        assert (a + b)[i] in a && (a + b)[j] == b[j - |a|];
      }
    }
  }

  /** `QueueLinks` keeps the invariant: no URL is ever queued twice. */
  lemma QueueLinksValid(st: Store, links: seq<string>)
    requires Valid(st)
    ensures Valid(QueueLinksSpec(st, links).store)
  {
    if !st.closed {
      AcceptQueue(st, links);
      AcceptKeys(st, links);
      FirstSeenContents(st.completed.Keys, links);
      NoDupAppend(st.queue, FirstSeen(st.completed.Keys, links));
    }
  }

  /**
   * A link offered twice in one call to an open store that has not seen it
   * is queued once, and the second offer is reported.
   */
  lemma RepeatInOneCall(st: Store, link: string)
    requires !st.closed && link !in st.completed
    ensures QueueLinksSpec(st, [link, link]).store.queue == st.queue + [link]
    ensures QueueLinksSpec(st, [link, link]).errors == [AlreadyProcessed(link)]
  {
    var k := st.completed.Keys;
    AcceptQueue(st, [link, link]);
    AcceptErrors(st, [link, link]);
    assert [link, link][1..] == [link] && [link][1..] == [];
    assert FirstSeen(k, [link, link]) == [link] + FirstSeen(k + {link}, [link]);
    assert Repeats(k, [link, link]) == Repeats(k + {link}, [link]) == [link];
  }

  /**
   * A link the store already knows, reserved or completed with any status,
   * is reported and changes nothing.
   */
  lemma KnownLinkRejected(st: Store, link: string)
    requires !st.closed && link in st.completed
    ensures QueueLinksSpec(st, [link]) == Queued(st, [AlreadyProcessed(link)])
  {
    assert [link][..0] == [];
    assert Accept(st, [link]) == Queued(st, [AlreadyProcessed(link)]);
  }

  /** Shifting takes the head, never touches the map, and keeps the invariant. */
  lemma ShiftValid(st: Store)
    requires Valid(st)
    ensures Valid(ShiftSpec(st).store)
    ensures ShiftSpec(st).ok ==> ShiftSpec(st).url !in ShiftSpec(st).store.queue
  {
    if st.queue != [] {
      forall i, j | 0 <= i < j < |st.queue[1..]| ensures st.queue[1..][i] != st.queue[1..][j] {
        assert st.queue[1..][i] == st.queue[i + 1] && st.queue[1..][j] == st.queue[j + 1];
      }
      forall k | 0 <= k < |st.queue[1..]| ensures st.queue[1..][k] != st.queue[0] {
        assert st.queue[1..][k] == st.queue[k + 1];
      }
    }
  }

  /**
   * First in, first out: links queued behind a non-empty queue do not
   * overtake its head, and what remains keeps their order.
   */
  lemma ShiftAfterQueue(st: Store, links: seq<string>)
    requires st.queue != []
    ensures ShiftSpec(QueueLinksSpec(st, links).store).url == st.queue[0]
    ensures ShiftSpec(QueueLinksSpec(st, links).store).store.queue
         == st.queue[1..] + (if st.closed then [] else FirstSeen(st.completed.Keys, links))
  {
    if !st.closed {
      AcceptQueue(st, links);
      var q := st.queue + FirstSeen(st.completed.Keys, links);
      assert q[1..] == st.queue[1..] + FirstSeen(st.completed.Keys, links);
    }
  }

  /** `RecordResponse` never drops a key, so a recorded URL can never be queued again. */
  lemma RecordKeepsKeys(st: Store, c: Worker.CompletedRequest)
    requires Valid(st)
    ensures Valid(st.(completed := st.completed[c.url := c.statusCode]))
    ensures st.completed.Keys + {c.url} == st.(completed := st.completed[c.url := c.statusCode]).completed.Keys
  {
  }

  /** `DefaultUrlsManager`, with the fields the source updates in place. */
  class DefaultUrlsManager {
    var queue: seq<string>
    var completed: map<string, int>
    var isClosed: bool

    function Model(): Store
      reads this
    {
      Store(queue, completed, isClosed)
    }

    constructor ()
      ensures Model() == EmptyStore
    {
      queue := [];
      completed := map[];
      isClosed := false;
    }

    /** No more work is queued. */
    method IsComplete() returns (complete: bool)
      ensures complete <==> queue == []
    {
      complete := |queue| == 0;
    }

    method CloseQueue()
      modifies this
      ensures Model() == old(Model()).(closed := true)
    {
      isClosed := true;
    }

    method EmptyQueue()
      modifies this
      ensures Model() == old(Model()).(queue := [])
    {
      queue := [];
    }

    method ShiftQueue() returns (s: string, ok: bool)
      modifies this
      ensures Shifted(Model(), s, ok) == ShiftSpec(old(Model()))
    {
      s, ok := "", false;
      if |queue| > 0 {
        s, ok := queue[0], true;
        queue := queue[1..];
      }
    }

    method QueueLinks(links: seq<Urls.Url>) returns (errs: seq<QueueError>)
      modifies this
      ensures Queued(Model(), errs) == QueueLinksSpec(old(Model()), Texts(links))
    {
      var texts := Texts(links);
      if !isClosed {
        errs := [];
        ghost var st := Model();
        for n := 0 to |links|
          invariant Queued(Model(), errs) == Accept(st, texts[..n])
        {
          var link := links[n].ToString();
          if link !in completed {
            completed := completed[link := 0];
            queue := queue + [link];
          } else {
            errs := errs + [AlreadyProcessed(link)];
          }
          assert texts[..n + 1][..n] == texts[..n];
        }
        assert texts[..|links|] == texts;
      } else {
        errs := [QueueClosed];
      }
    }

    method RecordResponse(c: Worker.CompletedRequest)
      modifies this
      ensures Model() == old(Model()).(completed := old(completed)[c.url := c.statusCode])
    {
      completed := completed[c.url := c.statusCode];
    }
  }
}
