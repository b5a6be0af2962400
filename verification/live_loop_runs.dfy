/** What holds at every point of every run of the live loop. */
module LiveLoopRuns {
  import opened StableQueue
  import opened LiveLoop
  import opened Prelude
  import opened QueueTrace

  /** The queue is what the log says, and every entry carries its event's own priority. */
  ghost predicate Sound<E>(c: Config<E>, st: State<E>) {
    && LegalTrace(st.log)
    && st.arr == Replay(st.log)
    && OwnPriorities(c, st.arr)
  }

  ghost predicate OwnPriorities<E>(c: Config<E>, arr: Arrivals<E>) {
    forall k :: 0 <= k < |arr| ==> c.InRange(arr[k].item) && arr[k].priority == AsSize(c.priority(arr[k].item))
  }

  /** Pops of `e` that no dispatch has followed. */
  ghost function Undispatched<E>(log: Log<E>, e: E): int {
    Pops(log, e) - Dispatches(log, e)
  }

  ghost function Held<E>(event: Option<E>, e: E): int {
    if event == Some(e) then 1 else 0
  }

  function DispatchCount<E>(log: Log<E>): nat {
    if log == [] then 0 else DispatchCount(log[..|log| - 1]) + if log[|log| - 1].Dispatched? then 1 else 0
  }

  /** Between `a` and `b` no event was popped and none dispatched, and everyone who waited in
      `a` still waits. */
  ghost predicate Grew<E>(c: Config<E>, a: State<E>, b: State<E>) {
    && Sound(c, b)
    && (forall k :: 0 <= k < |a.arr| ==> Queued(b.arr, a.arr[k].item))
    && SameServices(a.log, b.log)
  }

  ghost predicate SameServices<E>(a: Log<E>, b: Log<E>) {
    && |a| <= |b| && b[..|a|] == a
    && forall i :: |a| <= i < |b| ==> b[i].Enqueued? || b[i].Unlinked?
  }

  lemma {:induction false} SameServicesCounts<E>(a: Log<E>, b: Log<E>, e: E)
    requires SameServices(a, b)
    ensures Pops(a, e) == Pops(b, e) && Dispatches(a, e) == Dispatches(b, e)
  {
    if |a| < |b| {
      SameServicesCounts(a, b[..|b| - 1], e);
    } else {
      assert a == b;
    }
  }

  lemma {:induction false} SameServicesDispatchCount<E>(a: Log<E>, b: Log<E>)
    requires SameServices(a, b)
    ensures DispatchCount(a) == DispatchCount(b)
  {
    if |a| < |b| {
      SameServicesDispatchCount(a, b[..|b| - 1]);
    } else {
      assert a == b;
    }
  }

  /** An event can be queued if and only if its priority is not negative and below the number of
      buckets: a negative one becomes a size too large for any queue there is room for. */
  lemma InRangeIff<E>(c: Config<E>, e: E)
    requires c.nBuckets <= 0x8000_0000_0000_0000
    ensures c.InRange(e) <==> 0 <= c.priority(e) < c.nBuckets
  {
  }

  // ------------------------------------------------------------ each step

  lemma LoadEventSound<E>(c: Config<E>, st: State<E>, e: E)
    requires Sound(c, st)
    ensures Grew(c, st, LoadEvent(c, st, e))
    ensures c.InRange(e) ==> Queued(LoadEvent(c, st, e).arr, e)
  {
    var after := LoadEvent(c, st, e);
    if after != st {
      LogAppend(st.log, Enqueued(e, AsSize(c.priority(e))));
      assert after.arr[|st.arr|].item == e;
    }
    forall k | 0 <= k < |st.arr| ensures Queued(after.arr, st.arr[k].item) {
      assert after.arr[k].item == st.arr[k].item;
    }
  }

  lemma GrewTransitive<E>(c: Config<E>, a: State<E>, b: State<E>, d: State<E>)
    requires Grew(c, a, b) && Grew(c, b, d)
    ensures Grew(c, a, d)
  {
    forall k | 0 <= k < |a.arr| ensures Queued(d.arr, a.arr[k].item) {
      var j := IndexOf(b.arr, a.arr[k].item);
    }
  }

  lemma QueuedGrew<E>(c: Config<E>, a: State<E>, b: State<E>, e: E)
    requires Grew(c, a, b) && Queued(a.arr, e)
    ensures Queued(b.arr, e)
  {
    var j := IndexOf(a.arr, e);
  }

  lemma {:induction false} LoadReadySound<E>(c: Config<E>, st: State<E>, k: nat)
    requires Sound(c, st) && k <= |st.ready|
    ensures Grew(c, st, LoadReady(c, st, k))
    ensures forall i :: 0 <= i < k && st.ready[i] !in st.deleted && c.InRange(st.ready[i]) ==>
                          Queued(LoadReady(c, st, k).arr, st.ready[i])
  {
    if k == 0 {
      forall i | 0 <= i < |st.arr| ensures Queued(st.arr, st.arr[i].item) {}
    } else {
      var prior := LoadReady(c, st, k - 1);
      LoadReadySound(c, st, k - 1);
      if st.ready[k - 1] !in st.deleted {
        LoadEventSound(c, prior, st.ready[k - 1]);
        GrewTransitive(c, st, prior, LoadReady(c, st, k));
        forall i | 0 <= i < k - 1 && st.ready[i] !in st.deleted && c.InRange(st.ready[i])
          ensures Queued(LoadReady(c, st, k).arr, st.ready[i])
        {
          QueuedGrew(c, prior, LoadReady(c, st, k), st.ready[i]);
        }
      }
    }
  }

  /** Every event behind the snapshot gets queued; when the array shrank instead, nothing is. */
  lemma {:induction false} LoadInjectedSound<E>(c: Config<E>, st: State<E>, snapshot: nat, k: nat)
    requires Sound(c, st) && k <= |st.ready|
    ensures Grew(c, st, LoadInjected(c, st, snapshot, k))
    ensures forall i :: snapshot <= i < k && c.InRange(st.ready[i]) ==>
                          Queued(LoadInjected(c, st, snapshot, k).arr, st.ready[i])
  {
    if k == 0 || |st.ready| < snapshot {
      forall i | 0 <= i < |st.arr| ensures Queued(st.arr, st.arr[i].item) {}
    } else {
      var prior := LoadInjected(c, st, snapshot, k - 1);
      LoadInjectedSound(c, st, snapshot, k - 1);
      if k - 1 >= snapshot {
        LoadEventSound(c, prior, st.ready[k - 1]);
        GrewTransitive(c, st, prior, LoadInjected(c, st, snapshot, k));
        forall i | snapshot <= i < k - 1 && c.InRange(st.ready[i])
          ensures Queued(LoadInjected(c, st, snapshot, k).arr, st.ready[i])
        {
          QueuedGrew(c, prior, LoadInjected(c, st, snapshot, k), st.ready[i]);
        }
      }
    }
  }

  lemma PopSound<E>(c: Config<E>, st: State<E>)
    requires Sound(c, st)
    ensures var (after, event) := Pop(st);
            && Sound(c, after)
            && (event.None? <==> st.arr == [])
            && after.log == (if event.Some? then st.log + [Popped(event.value)] else st.log)
  {
    if st.arr != [] {
      var k := MinIndex(st.arr);
      var e := st.arr[k].item;
      WaitingIsQueued(st.log, e);
      assert Queued(st.arr, e);
      assert IndexOf(st.arr, e) == k;
      LogAppend(st.log, Popped(e));
    }
  }

  /** Nobody more urgent than the popped event was waiting, and nobody but it stopped waiting. */
  lemma PopsMostUrgent<E>(c: Config<E>, st: State<E>, e: E)
    requires Sound(c, st) && Queued(st.arr, e)
    ensures var (after, event) := Pop(st);
            && event.Some?
            && AsSize(c.priority(event.value)) <= AsSize(c.priority(e))
            && (event.value == e || Queued(after.arr, e))
  {
    var k, x := MinIndex(st.arr), IndexOf(st.arr, e);
    if st.arr[k].item != e {
      RemoveKeepsQueued(st.arr, k, e);
    }
  }

  lemma ActSound<E>(c: Config<E>, st: State<E>, a: Action<E>)
    requires Sound(c, st)
    ensures Sound(c, Act(st, a)) && SameServices(st.log, Act(st, a).log)
  {
    if a.Unlink? && Queued(st.arr, a.e) {
      LogAppend(st.log, Unlinked(a.e));
      hide LegalTrace, Replay, IndexOf, Queued, OwnPriorities;
      WithoutOwn(c, st.arr, IndexOf(st.arr, a.e));
    } else {
      hide LegalTrace, Replay, OwnPriorities;
    }
  }

  lemma WithoutOwn<E>(c: Config<E>, arr: Arrivals<E>, x: nat)
    requires x < |arr| && OwnPriorities(c, arr)
    ensures OwnPriorities(c, Without(arr, x))
  {
    assert forall k :: 0 <= k < |arr| - 1 ==> Without(arr, x)[k] == arr[Shifted(x, k)];
  }

  lemma {:induction false} BodySound<E>(c: Config<E>, st: State<E>, body: seq<Action<E>>, k: nat)
    requires Sound(c, st) && k <= |body|
    ensures Sound(c, Body(st, body, k)) && SameServices(st.log, Body(st, body, k).log)
  {
    if k > 0 {
      BodySound(c, st, body, k - 1);
      ActSound(c, Body(st, body, k - 1), body[k - 1]);
    }
  }

  // ------------------------------------------------------------ whole runs

  lemma CountsAppend<E>(log: Log<E>, h: Happening<E>, e: E)
    ensures Pops(log + [h], e) == Pops(log, e) + if h == Popped(e) then 1 else 0
    ensures Dispatches(log + [h], e) == Dispatches(log, e) + if h == Dispatched(e) then 1 else 0
  {
    assert (log + [h])[..|log|] == log;
  }

  lemma DispatchCountAppend<E>(log: Log<E>, h: Happening<E>)
    ensures DispatchCount(log + [h]) == DispatchCount(log) + if h.Dispatched? then 1 else 0
  {
    assert (log + [h])[..|log|] == log;
  }

  /** Loading and popping, as done both on entry and after each body. */
  lemma LoadAndPop<E>(c: Config<E>, st: State<E>)
    requires Sound(c, st)
    ensures var (after, event) := Pop(LoadReady(c, st, |st.ready|));
            && Sound(c, after)
            && DispatchCount(after.log) == DispatchCount(st.log)
            && (forall e :: Undispatched(after.log, e) == Undispatched(st.log, e) + Held(event, e))
  {
    var loaded := LoadReady(c, st, |st.ready|);
    LoadReadySound(c, st, |st.ready|);
    PopSound(c, loaded);
    var (after, event) := Pop(loaded);
    SameServicesDispatchCount(st.log, loaded.log);
    if event.Some? {
      DispatchCountAppend(loaded.log, Popped(event.value));
    }
    forall e ensures Undispatched(after.log, e) == Undispatched(st.log, e) + Held(event, e) {
      SameServicesCounts(st.log, loaded.log, e);
      if event.Some? {
        CountsAppend(loaded.log, Popped(event.value), e);
      }
    }
  }

  lemma BodyDoneSound<E>(c: Config<E>, l: Loop<E>, round: Round<E>)
    requires Sound(c, l.st) && l.event.Some?
    ensures var st := BodyDone(c, l, round);
            && Sound(c, st)
            && DispatchCount(st.log) == DispatchCount(l.st.log) + 1
            && (forall e :: Undispatched(st.log, e) == Undispatched(l.st.log, e) - Held(l.event, e))
  {
    var h := Dispatched(l.event.value);
    var st1 := l.st.(log := l.st.log + [h]);
    LogAppend(l.st.log, h);
    DispatchCountAppend(l.st.log, h);
    var st2 := Body(st1, round.body, |round.body|);
    BodySound(c, st1, round.body, |round.body|);
    SameServicesDispatchCount(st1.log, st2.log);
    var st := BodyDone(c, l, round);
    LoadInjectedSound(c, st2, l.snapshot, |st2.ready|);
    SameServicesDispatchCount(st2.log, st.log);
    forall e ensures Undispatched(st.log, e) == Undispatched(l.st.log, e) - Held(l.event, e) {
      CountsAppend(l.st.log, h, e);
      SameServicesCounts(st1.log, st2.log, e);
      SameServicesCounts(st2.log, st.log, e);
    }
  }

  /** What every point of a run keeps, relative to the state `st0` the loop was entered with:
      the dispatches are exactly the iterations, the budget is respected, and the loop has no
      event in hand only if none waits. */
  ghost predicate Accounted<E>(c: Config<E>, st0: State<E>, maxIter: int, l: Loop<E>) {
    && Sound(c, l.st)
    && DispatchCount(l.st.log) == DispatchCount(st0.log) + l.iter
    && (l.event.None? ==> l.st.arr == [])
    && (maxIter >= 0 ==> l.iter <= maxIter)
    && (maxIter < -1 ==> l.iter == 0)
  }

  lemma BeginAccounted<E>(c: Config<E>, st0: State<E>, maxIter: int)
    requires Sound(c, st0)
    ensures Accounted(c, st0, maxIter, Begin(c, st0))
    ensures forall e :: Undispatched(Begin(c, st0).st.log, e) == Undispatched(st0.log, e) + Held(Begin(c, st0).event, e)
  {
    LoadAndPop(c, st0);
  }

  lemma NextAccounted<E>(c: Config<E>, st0: State<E>, maxIter: int, l: Loop<E>, round: Round<E>)
    requires Accounted(c, st0, maxIter, l) && Continues(l, maxIter)
    ensures Accounted(c, st0, maxIter, Next(c, l, round))
    ensures forall e :: Undispatched(Next(c, l, round).st.log, e) - Held(Next(c, l, round).event, e)
                        == Undispatched(l.st.log, e) - Held(l.event, e)
  {
    BodyDoneSound(c, l, round);
    LoadAndPop(c, BodyDone(c, l, round).(ready := round.wait));
  }

  lemma {:induction false} AfterAccounted<E>(c: Config<E>, st0: State<E>, maxIter: int, rounds: seq<Round<E>>, k: nat)
    requires Sound(c, st0) && k <= |rounds|
    ensures Accounted(c, st0, maxIter, After(c, st0, maxIter, rounds, k))
    ensures var l := After(c, st0, maxIter, rounds, k);
            forall e :: Undispatched(l.st.log, e) == Undispatched(st0.log, e) + Held(l.event, e)
  {
    if k == 0 {
      BeginAccounted(c, st0, maxIter);
    } else {
      AfterAccounted(c, st0, maxIter, rounds, k - 1);
      var l := After(c, st0, maxIter, rounds, k - 1);
      if Continues(l, maxIter) {
        NextAccounted(c, st0, maxIter, l, rounds[k - 1]);
      }
    }
  }

  /** Event conservation, at every point of every run and for every event: each enqueue since
      the log began has led to one dispatch, one direct removal, a place in the queue, or the
      event being in hand, popped and not (yet) dispatched.  `Undispatched(st0.log, e)` counts
      what earlier runs of the loop left in hand when their budget ran out. */
  lemma EventConservation<E>(c: Config<E>, st0: State<E>, maxIter: int, rounds: seq<Round<E>>, k: nat, e: E)
    requires Sound(c, st0) && k <= |rounds|
    ensures var l := After(c, st0, maxIter, rounds, k);
            && NoDuplicates(l.st.arr)
            && Enqueues(l.st.log, e) == Dispatches(l.st.log, e) + Unlinks(l.st.log, e)
                                        + (if Queued(l.st.arr, e) then 1 else 0)
                                        + Held(l.event, e) + Undispatched(st0.log, e)
  {
    AfterAccounted(c, st0, maxIter, rounds, k);
    var l := After(c, st0, maxIter, rounds, k);
    Conservation(l.st.log, e);
    WaitingIsQueued(l.st.log, e);
  }

  /** The budget: never more than `maxIter` dispatches unless it is -1.  When the loop has
      stopped, either nothing waits, or the budget stopped it and one event that was already
      popped is dropped without being dispatched. */
  lemma Budget<E>(c: Config<E>, st0: State<E>, maxIter: int, rounds: seq<Round<E>>, k: nat)
    requires Sound(c, st0) && k <= |rounds|
    ensures var l := After(c, st0, maxIter, rounds, k);
            && (maxIter >= 0 ==> DispatchCount(l.st.log) - DispatchCount(st0.log) <= maxIter)
            && (!Continues(l, maxIter) ==>
                  || (l.event.None? && l.st.arr == [])
                  || (l.event.Some? && maxIter != -1 && l.iter == if maxIter < 0 then 0 else maxIter))
  {
    AfterAccounted(c, st0, maxIter, rounds, k);
  }

  // ------------------------------------------------------------ what a body leaves behind

  /** No action of the body replaces the ready array. */
  predicate Keeps<E>(body: seq<Action<E>>) {
    forall i :: 0 <= i < |body| ==> !body[i].Replace?
  }

  /** Who waits after a body waited before it and was not unlinked by it. */
  lemma {:induction false} BodyWaiting<E>(c: Config<E>, st: State<E>, body: seq<Action<E>>, k: nat, e: E)
    requires Sound(c, st) && k <= |body|
    ensures Queued(Body(st, body, k).arr, e) <==> Queued(st.arr, e) && Unlink(e) !in body[..k]
  {
    if k > 0 {
      BodyWaiting(c, st, body, k - 1, e);
      BodySound(c, st, body, k - 1);
      var prior, a := Body(st, body, k - 1), body[k - 1];
      assert body[..k] == body[..k - 1] + [a];
      if a.Unlink? && Queued(prior.arr, a.e) {
        WaitingIsQueued(prior.log, e);
        UnlinkedLeaves(prior.arr, a.e, e);
      }
    }
  }

  lemma UnlinkedLeaves<E>(arr: Arrivals<E>, u: E, e: E)
    requires NoDuplicates(arr) && Queued(arr, u)
    ensures Queued(Without(arr, IndexOf(arr, u)), e) <==> Queued(arr, e) && e != u
  {
    var x := IndexOf(arr, u);
    if Queued(arr, e) && e != u {
      RemoveKeepsQueued(arr, x, e);
    }
    if Queued(Without(arr, x), e) {
      var k :| 0 <= k < |arr| - 1 && Without(arr, x)[k].item == e;
      assert arr[Shifted(x, k)].item == e && Shifted(x, k) != x;
    }
  }

  lemma KeepsFront<E>(front: seq<Action<E>>, last: Action<E>)
    requires Keeps(front + [last])
    ensures Keeps(front) && !last.Replace?
  {
    assert (front + [last])[|front|] == last;
    forall j | 0 <= j < |front| ensures !front[j].Replace? {
      assert (front + [last])[j] == front[j];
    }
  }

  /** From action `i` on, where the ready array was `r`: as long as nobody replaces it, the array
      keeps `r` in front, and behind it are exactly the events injected since. */
  lemma {:induction false} BodyReady<E>(st: State<E>, body: seq<Action<E>>, i: nat, k: nat, e: E)
    requires i <= k <= |body| && Keeps(body[i..k])
    ensures var r, after := Body(st, body, i).ready, Body(st, body, k).ready;
            && |r| <= |after| && after[..|r|] == r
            && (e in after[|r|..] <==> Inject(e) in body[i..k])
  {
    if i < k {
      assert body[i..k] == body[i..k - 1] + [body[k - 1]];
      KeepsFront(body[i..k - 1], body[k - 1]);
      BodyReady(st, body, i, k - 1, e);
      var r, prior, after := Body(st, body, i).ready, Body(st, body, k - 1).ready, Body(st, body, k).ready;
      if body[k - 1].Inject? {
        assert after[|r|..] == prior[|r|..] + [body[k - 1].e];
      } else {
        assert after == prior;
      }
    }
  }

  /** The ready array after a body: behind what the wait reported, or what the last replacement put
      there, exactly what the body has injected since. */
  lemma BodyLeavesReady<E>(st: State<E>, body: seq<Action<E>>, e: E)
    ensures var after := Body(st, body, |body|).ready;
            && (Keeps(body) ==>
                  |st.ready| <= |after| && after[..|st.ready|] == st.ready && (e in after[|st.ready|..] <==> Inject(e) in body))
            && (forall i :: 0 <= i < |body| && body[i].Replace? && Keeps(body[i + 1..]) ==>
                  var r := body[i].ready;
                  |r| <= |after| && after[..|r|] == r && (e in after[|r|..] <==> Inject(e) in body[i + 1..]))
  {
    if Keeps(body) {
      assert body[0..|body|] == body;
      BodyReady(st, body, 0, |body|, e);
    }
    forall i | 0 <= i < |body| && body[i].Replace? && Keeps(body[i + 1..])
      ensures var r, after := body[i].ready, Body(st, body, |body|).ready;
              |r| <= |after| && after[..|r|] == r && (e in after[|r|..] <==> Inject(e) in body[i + 1..])
    {
      assert body[i + 1..|body|] == body[i + 1..];
      BodyReady(st, body, i + 1, |body|, e);
      assert Body(st, body, i + 1).ready == body[i].ready;
    }
  }

  predicate Marks<E(==)>(body: seq<Action<E>>, e: E) {
    SetStatus(e, true) in body || SetStatus(e, false) in body
  }

  /** Whether an event counts as deleted after a body: the last status the body gave it decides,
      and without one it stays what it was. */
  lemma {:induction false} BodyStatus<E>(st: State<E>, body: seq<Action<E>>, k: nat, e: E)
    requires k <= |body|
    ensures !Marks(body[..k], e) ==> (e in Body(st, body, k).deleted <==> e in st.deleted)
    ensures forall i, none :: 0 <= i < k && body[i] == SetStatus(e, none) && !Marks(body[i + 1..k], e) ==>
              (e in Body(st, body, k).deleted <==> none)
  {
    if k > 0 {
      BodyStatus(st, body, k - 1, e);
      assert body[..k] == body[..k - 1] + [body[k - 1]];
      forall i, none | 0 <= i < k && body[i] == SetStatus(e, none) && !Marks(body[i + 1..k], e)
        ensures e in Body(st, body, k).deleted <==> none
      {
        if i < k - 1 {
          assert body[i + 1..k] == body[i + 1..k - 1] + [body[k - 1]];
        }
      }
    }
  }

  // ------------------------------------------------------------ who is loaded

  lemma LoadEventWaiting<E>(c: Config<E>, st: State<E>, x: E, e: E)
    ensures Queued(LoadEvent(c, st, x).arr, e) <==> Queued(st.arr, e) || (e == x && c.InRange(x))
  {
    var after := LoadEvent(c, st, x);
    if after != st {
      assert after.arr[|st.arr|].item == x;
      if Queued(st.arr, e) {
        assert after.arr[IndexOf(st.arr, e)].item == e;
      }
    }
  }

  /** Loading the ready array queues exactly its events that are in range and not deleted. */
  lemma {:induction false} LoadReadyWaiting<E>(c: Config<E>, st: State<E>, k: nat, e: E)
    requires k <= |st.ready|
    ensures Queued(LoadReady(c, st, k).arr, e) <==>
            Queued(st.arr, e) || (c.InRange(e) && e in st.ready[..k] && e !in st.deleted)
  {
    if k > 0 {
      LoadReadyWaiting(c, st, k - 1, e);
      LoadEventWaiting(c, LoadReady(c, st, k - 1), st.ready[k - 1], e);
      assert st.ready[..k] == st.ready[..k - 1] + [st.ready[k - 1]];
    }
  }

  /** And loading the injected events exactly those in range from place `snapshot` on, deleted or
      not, and nobody when the array has become shorter than that. */
  lemma {:induction false} LoadInjectedWaiting<E>(c: Config<E>, st: State<E>, snapshot: nat, k: nat, e: E)
    requires k <= |st.ready|
    ensures Queued(LoadInjected(c, st, snapshot, k).arr, e) <==>
            Queued(st.arr, e) || (snapshot <= k && c.InRange(e) && e in st.ready[snapshot..k])
  {
    if k > 0 && |st.ready| >= snapshot {
      LoadInjectedWaiting(c, st, snapshot, k - 1, e);
      if k - 1 >= snapshot {
        LoadEventWaiting(c, LoadInjected(c, st, snapshot, k - 1), st.ready[k - 1], e);
        assert st.ready[snapshot..k] == st.ready[snapshot..k - 1] + [st.ready[k - 1]];
      }
    }
  }

  lemma {:induction false} LoadReadyGrows<E>(c: Config<E>, st: State<E>, j: nat, k: nat)
    requires j <= k <= |st.ready|
    ensures LoadReady(c, st, j).arr <= LoadReady(c, st, k).arr
  {
    if j < k {
      LoadReadyGrows(c, st, j, k - 1);
    }
  }

  lemma {:induction false} LoadInjectedGrows<E>(c: Config<E>, st: State<E>, snapshot: nat, j: nat, k: nat)
    requires j <= k <= |st.ready|
    ensures LoadInjected(c, st, snapshot, j).arr <= LoadInjected(c, st, snapshot, k).arr
  {
    if j < k && |st.ready| >= snapshot {
      LoadInjectedGrows(c, st, snapshot, j, k - 1);
    }
  }

  /** `a` waits, and nearer to the front than `b`. */
  ghost predicate Ahead<E>(arr: Arrivals<E>, a: E, b: E) {
    exists x, y :: 0 <= x < y < |arr| && arr[x].item == a && arr[y].item == b
  }

  lemma ArrivedLater<E>(early: Arrivals<E>, late: Arrivals<E>, a: E, b: E)
    requires early <= late && Queued(early, a) && !Queued(early, b) && Queued(late, b)
    ensures Ahead(late, a, b)
  {
    var x, y := IndexOf(early, a), IndexOf(late, b);
    assert forall j :: 0 <= j < |early| ==> late[j] == early[j];
  }

  /** Loading puts new arrivals behind everybody, in the order of the array: of two events the
      loading queues, the one that comes first in the array is ahead. */
  lemma LoadedInOrder<E>(c: Config<E>, st: State<E>, i: nat, a: E, b: E)
    requires i < |st.ready| && st.ready[i] == a && b !in st.ready[..i + 1]
    requires c.InRange(a) && a !in st.deleted && !Queued(st.arr, b)
    requires Queued(LoadReady(c, st, |st.ready|).arr, b)
    ensures Ahead(LoadReady(c, st, |st.ready|).arr, a, b)
  {
    hide LoadReady, Queued, Ahead;
    assert a in st.ready[..i + 1] by { assert st.ready[..i + 1][i] == a; }
    LoadReadyWaiting(c, st, i + 1, a);
    LoadReadyWaiting(c, st, i + 1, b);
    LoadReadyGrows(c, st, i + 1, |st.ready|);
    ArrivedLater(LoadReady(c, st, i + 1).arr, LoadReady(c, st, |st.ready|).arr, a, b);
  }

  /** And so are injected events. */
  lemma InjectedInOrder<E>(c: Config<E>, st: State<E>, snapshot: nat, i: nat, a: E, b: E)
    requires snapshot <= i < |st.ready| && st.ready[i] == a && b !in st.ready[snapshot..i + 1]
    requires c.InRange(a) && !Queued(st.arr, b)
    requires Queued(LoadInjected(c, st, snapshot, |st.ready|).arr, b)
    ensures Ahead(LoadInjected(c, st, snapshot, |st.ready|).arr, a, b)
  {
    hide LoadInjected, Queued, Ahead;
    assert a in st.ready[snapshot..i + 1] by { assert st.ready[snapshot..i + 1][i - snapshot] == a; }
    LoadInjectedWaiting(c, st, snapshot, i + 1, a);
    LoadInjectedWaiting(c, st, snapshot, i + 1, b);
    LoadInjectedGrows(c, st, snapshot, i + 1, |st.ready|);
    ArrivedLater(LoadInjected(c, st, snapshot, i + 1).arr, LoadInjected(c, st, snapshot, |st.ready|).arr, a, b);
  }

  // ------------------------------------------------------------ who is served

  /** How many ready events the last wait reported, or were there on entry. */
  function Reported<E>(st0: State<E>, rounds: seq<Round<E>>, k: nat): nat
    requires k <= |rounds|
  {
    if k == 0 then |st0.ready| else |rounds[k - 1].wait|
  }

  /** The state a loop body begins in. */
  function BodyStart<E>(l: Loop<E>): State<E>
    requires l.event.Some?
  {
    l.st.(log := l.st.log + [Dispatched(l.event.value)])
  }

  lemma {:induction false} ReadyIsReported<E>(c: Config<E>, st0: State<E>, maxIter: int, rounds: seq<Round<E>>, k: nat)
    requires k <= |rounds| && Continues(After(c, st0, maxIter, rounds, k), maxIter)
    ensures var l := After(c, st0, maxIter, rounds, k);
            && l.snapshot == |l.st.ready| == Reported(st0, rounds, k)
            && l.st.ready == if k == 0 then st0.ready else rounds[k - 1].wait
    ensures k > 0 ==> Continues(After(c, st0, maxIter, rounds, k - 1), maxIter)
  {
  }

  /** Who must be queued when the next event is chosen: those who waited and were not unlinked by
      the body, those in range it left behind the `reported` events, deleted or not, and those in
      range the wait reports that are not deleted. */
  ghost predicate Due<E>(c: Config<E>, l: Loop<E>, reported: nat, round: Round<E>, e: E)
    requires l.event.Some?
  {
    var left := Body(BodyStart(l), round.body, |round.body|);
    || (Queued(l.st.arr, e) && Unlink(e) !in round.body)
    || (c.InRange(e) && reported <= |left.ready| && e in left.ready[reported..])
    || (c.InRange(e) && e in round.wait && e !in left.deleted)
  }

  ghost predicate Chosen<E>(l: Loop<E>, e: E) {
    l.event == Some(e) || Queued(l.st.arr, e)
  }

  lemma WithoutKeeps<E>(arr: Arrivals<E>, x: nat, e: E)
    requires x < |arr| && Queued(Without(arr, x), e)
    ensures Queued(arr, e)
  {
    var k :| 0 <= k < |arr| - 1 && Without(arr, x)[k].item == e;
    assert arr[Shifted(x, k)].item == e;
  }

  lemma PopWaiting<E>(c: Config<E>, st: State<E>, e: E)
    requires Sound(c, st)
    ensures var (after, event) := Pop(st);
            && (event == Some(e) || Queued(after.arr, e) <==> Queued(st.arr, e))
            && (Queued(st.arr, e) ==> event.Some? && AsSize(c.priority(event.value)) <= AsSize(c.priority(e)))
  {
    if Queued(st.arr, e) {
      PopsMostUrgent(c, st, e);
    }
    if st.arr != [] {
      hide Sound, MinIndex;
      if Queued(Pop(st).0.arr, e) {
        WithoutKeeps(st.arr, MinIndex(st.arr), e);
      }
    }
  }

  /** Live priority order with no lost injection and no stranger, at every point of every run: the
      events due, measured by what the wait before the body reported, are exactly those who are the
      next event or wait behind it, and the next event is the most urgent of them. */
  lemma ServesExactly<E>(c: Config<E>, st0: State<E>, maxIter: int, rounds: seq<Round<E>>, k: nat, e: E)
    requires Sound(c, st0) && k < |rounds| && Continues(After(c, st0, maxIter, rounds, k), maxIter)
    ensures var l, n := After(c, st0, maxIter, rounds, k), After(c, st0, maxIter, rounds, k + 1);
            && (Chosen(n, e) <==> Due(c, l, Reported(st0, rounds, k), rounds[k], e))
            && (Chosen(n, e) ==> n.event.Some? && AsSize(c.priority(n.event.value)) <= AsSize(c.priority(e)))
  {
    AfterAccounted(c, st0, maxIter, rounds, k);
    ReadyIsReported(c, st0, maxIter, rounds, k);
    NextServesExactly(c, After(c, st0, maxIter, rounds, k), rounds[k], e);
  }

  lemma NextServesExactly<E>(c: Config<E>, l: Loop<E>, round: Round<E>, e: E)
    requires Sound(c, l.st) && l.event.Some? && l.snapshot == |l.st.ready|
    ensures var n := Next(c, l, round);
            && (Chosen(n, e) <==> Due(c, l, |l.st.ready|, round, e))
            && (Chosen(n, e) ==> n.event.Some? && AsSize(c.priority(n.event.value)) <= AsSize(c.priority(e)))
  {
    var start := BodyStart(l);
    LogAppend(l.st.log, Dispatched(l.event.value));
    var left := Body(start, round.body, |round.body|);
    BodySound(c, start, round.body, |round.body|);
    BodyWaiting(c, start, round.body, |round.body|, e);
    assert round.body[..|round.body|] == round.body;
    var injected := BodyDone(c, l, round);
    LoadInjectedSound(c, left, l.snapshot, |left.ready|);
    LoadInjectedWaiting(c, left, l.snapshot, |left.ready|, e);
    assert l.snapshot <= |left.ready| ==> left.ready[l.snapshot..|left.ready|] == left.ready[l.snapshot..];
    var waited := injected.(ready := round.wait);
    var loaded := LoadReady(c, waited, |round.wait|);
    LoadReadySound(c, waited, |round.wait|);
    LoadReadyWaiting(c, waited, |round.wait|, e);
    assert round.wait[..|round.wait|] == round.wait;
    hide Sound, Body, LoadInjected, LoadReady, Queued;
    PopWaiting(c, loaded, e);
  }

  /** In particular an injected event is never lost: if the array is not replaced, whatever is in
      range and injected by a body is the next event or waits behind it. */
  lemma InjectionNotLost<E>(c: Config<E>, st0: State<E>, maxIter: int, rounds: seq<Round<E>>, k: nat, e: E)
    requires Sound(c, st0) && k < |rounds| && Continues(After(c, st0, maxIter, rounds, k), maxIter)
    requires c.InRange(e) && Inject(e) in rounds[k].body && Keeps(rounds[k].body)
    ensures Chosen(After(c, st0, maxIter, rounds, k + 1), e)
  {
    var l := After(c, st0, maxIter, rounds, k);
    ReadyIsReported(c, st0, maxIter, rounds, k);
    BodyLeavesReady(BodyStart(l), rounds[k].body, e);
    ServesExactly(c, st0, maxIter, rounds, k, e);
  }

  lemma EnqueuesAppend<E>(log: Log<E>, h: Happening<E>, e: E)
    ensures Enqueues(log + [h], e) == Enqueues(log, e) + if h.Enqueued? && h.e == e then 1 else 0
  {
    assert (log + [h])[..|log|] == log;
  }

  function IfNew(before: bool, after: bool): nat {
    if after && !before then 1 else 0
  }

  lemma LoadEventEnqueues<E>(c: Config<E>, st: State<E>, x: E, e: E)
    ensures Enqueues(LoadEvent(c, st, x).log, e) ==
            Enqueues(st.log, e) + IfNew(Queued(st.arr, e), Queued(LoadEvent(c, st, x).arr, e))
    ensures Queued(st.arr, e) ==> Queued(LoadEvent(c, st, x).arr, e)
  {
    LoadEventWaiting(c, st, x, e);
    EnqueuesAppend(st.log, Enqueued(x, AsSize(c.priority(x))), e);
  }

  lemma {:induction false} LoadReadyEnqueues<E>(c: Config<E>, st: State<E>, k: nat, e: E)
    requires k <= |st.ready|
    ensures Enqueues(LoadReady(c, st, k).log, e) ==
            Enqueues(st.log, e) + IfNew(Queued(st.arr, e), Queued(LoadReady(c, st, k).arr, e))
    ensures Queued(st.arr, e) ==> Queued(LoadReady(c, st, k).arr, e)
  {
    if k > 0 {
      LoadReadyEnqueues(c, st, k - 1, e);
      LoadEventEnqueues(c, LoadReady(c, st, k - 1), st.ready[k - 1], e);
      hide LoadEvent, Enqueues, Queued;
    }
  }

  lemma {:induction false} LoadInjectedEnqueues<E>(c: Config<E>, st: State<E>, snapshot: nat, k: nat, e: E)
    requires k <= |st.ready|
    ensures Enqueues(LoadInjected(c, st, snapshot, k).log, e) ==
            Enqueues(st.log, e) + IfNew(Queued(st.arr, e), Queued(LoadInjected(c, st, snapshot, k).arr, e))
    ensures Queued(st.arr, e) ==> Queued(LoadInjected(c, st, snapshot, k).arr, e)
  {
    if k > 0 && |st.ready| >= snapshot {
      LoadInjectedEnqueues(c, st, snapshot, k - 1, e);
      LoadEventEnqueues(c, LoadInjected(c, st, snapshot, k - 1), st.ready[k - 1], e);
      hide LoadEvent, Enqueues, Queued;
    }
  }

  lemma {:induction false} BodyEnqueues<E>(st: State<E>, body: seq<Action<E>>, k: nat, e: E)
    requires k <= |body|
    ensures Enqueues(Body(st, body, k).log, e) == Enqueues(st.log, e)
  {
    if k > 0 {
      BodyEnqueues(st, body, k - 1, e);
      if body[k - 1].Unlink? {
        EnqueuesAppend(Body(st, body, k - 1).log, Unlinked(body[k - 1].e), e);
      }
    }
  }

  /** A round enqueues an event exactly once if it is due other than by having waited all along, and
      otherwise not at all. */
  lemma RoundEnqueues<E>(c: Config<E>, l: Loop<E>, round: Round<E>, e: E)
    requires Sound(c, l.st) && l.event.Some? && l.snapshot == |l.st.ready|
    ensures var n := Next(c, l, round);
            Enqueues(n.st.log, e) == Enqueues(l.st.log, e) + IfNew(Queued(l.st.arr, e) && Unlink(e) !in round.body, Chosen(n, e))
  {
    var start := BodyStart(l);
    LogAppend(l.st.log, Dispatched(l.event.value));
    EnqueuesAppend(l.st.log, Dispatched(l.event.value), e);
    var left := Body(start, round.body, |round.body|);
    BodySound(c, start, round.body, |round.body|);
    BodyEnqueues(start, round.body, |round.body|, e);
    BodyWaiting(c, start, round.body, |round.body|, e);
    assert round.body[..|round.body|] == round.body;
    var injected := BodyDone(c, l, round);
    LoadInjectedSound(c, left, l.snapshot, |left.ready|);
    LoadInjectedEnqueues(c, left, l.snapshot, |left.ready|, e);
    var waited := injected.(ready := round.wait);
    var loaded := LoadReady(c, waited, |round.wait|);
    LoadReadySound(c, waited, |round.wait|);
    LoadReadyEnqueues(c, waited, |round.wait|, e);
    hide Sound, Body, LoadInjected, LoadReady, Queued, Enqueues;
    PopWaiting(c, loaded, e);
    PopEnqueues(loaded, e);
  }

  lemma PopEnqueues<E>(st: State<E>, e: E)
    ensures Enqueues(Pop(st).0.log, e) == Enqueues(st.log, e)
  {
    if st.arr != [] {
      EnqueuesAppend(st.log, Popped(st.arr[MinIndex(st.arr)].item), e);
    }
  }

  /** On entry exactly those who waited already and the ready events in range that are not deleted
      are the first event or wait behind it, it is the most urgent of them, and each that did not
      wait is enqueued once. */
  lemma EntryServesExactly<E>(c: Config<E>, st0: State<E>, e: E)
    requires Sound(c, st0)
    ensures var l := Begin(c, st0);
            && (Chosen(l, e) <==> Queued(st0.arr, e) || (c.InRange(e) && e in st0.ready && e !in st0.deleted))
            && (Chosen(l, e) ==> l.event.Some? && AsSize(c.priority(l.event.value)) <= AsSize(c.priority(e)))
            && Enqueues(l.st.log, e) == Enqueues(st0.log, e) + if Chosen(l, e) && !Queued(st0.arr, e) then 1 else 0
  {
    var loaded := LoadReady(c, st0, |st0.ready|);
    LoadReadySound(c, st0, |st0.ready|);
    LoadReadyWaiting(c, st0, |st0.ready|, e);
    LoadReadyEnqueues(c, st0, |st0.ready|, e);
    assert st0.ready[..|st0.ready|] == st0.ready;
    hide Sound, LoadReady, Queued, Enqueues;
    PopWaiting(c, loaded, e);
    PopEnqueues(loaded, e);
  }

  /** So at every point of every run, a round enqueues nobody but those due by what its body left
      behind the reported events or by what the wait reports, and each of them once. */
  lemma EnqueuesExplained<E>(c: Config<E>, st0: State<E>, maxIter: int, rounds: seq<Round<E>>, k: nat, e: E)
    requires Sound(c, st0) && k < |rounds| && Continues(After(c, st0, maxIter, rounds, k), maxIter)
    ensures var l, n := After(c, st0, maxIter, rounds, k), After(c, st0, maxIter, rounds, k + 1);
            Enqueues(n.st.log, e) == Enqueues(l.st.log, e) +
              if Due(c, l, Reported(st0, rounds, k), rounds[k], e) && !(Queued(l.st.arr, e) && Unlink(e) !in rounds[k].body) then 1 else 0
  {
    AfterAccounted(c, st0, maxIter, rounds, k);
    ReadyIsReported(c, st0, maxIter, rounds, k);
    RoundEnqueues(c, After(c, st0, maxIter, rounds, k), rounds[k], e);
    ServesExactly(c, st0, maxIter, rounds, k, e);
    hide Due, Enqueues, Next, Queued;
  }
}
