/** A log of enqueues, pops and removals read as the trace of one stable priority queue, and
    what such a trace tells without looking at any queue: who waits, in which order events are
    served, and that nothing is lost or served twice. */
module QueueTrace {
  import opened StableQueue
  import opened LiveLoop
  import opened Prelude

  type Log<E> = seq<Happening<E>>

  /** What one happening does to the queue. */
  function Effect<E(==)>(arr: Arrivals<E>, h: Happening<E>): Arrivals<E> {
    match h
    case Enqueued(e, p) => arr + [Entry(e, p)]
    case Popped(e) => if Queued(arr, e) then Without(arr, IndexOf(arr, e)) else arr
    case Unlinked(e) => if Queued(arr, e) then Without(arr, IndexOf(arr, e)) else arr
    case Dispatched(_) => arr
  }

  /** The queue a log leads to, starting from nothing. */
  function Replay<E(==)>(log: Log<E>): Arrivals<E> {
    if log == [] then [] else Effect(Replay(log[..|log| - 1]), log[|log| - 1])
  }

  /** What a stable priority queue may do next. */
  ghost predicate Legal<E>(arr: Arrivals<E>, h: Happening<E>) {
    match h
    case Enqueued(e, p) => !Queued(arr, e)
    case Popped(e) => arr != [] && arr[MinIndex(arr)].item == e
    case Unlinked(e) => Queued(arr, e)
    case Dispatched(_) => true
  }

  ghost predicate LegalTrace<E>(log: Log<E>) {
    log == [] || (LegalTrace(log[..|log| - 1]) && Legal(Replay(log[..|log| - 1]), log[|log| - 1]))
  }

  ghost predicate NoDuplicates<E>(arr: Arrivals<E>) {
    forall i, j :: 0 <= i < j < |arr| ==> arr[i].item != arr[j].item
  }

  lemma LogAppend<E>(log: Log<E>, h: Happening<E>)
    requires LegalTrace(log) && Legal(Replay(log), h)
    ensures LegalTrace(log + [h])
    ensures Replay(log + [h]) == Effect(Replay(log), h)
  {
    assert (log + [h])[..|log|] == log;
  }

  // ------------------------------------------------------------ who waits, by the log alone

  /** The last thing the log says about `e` is that it was enqueued. */
  predicate Waiting<E(==)>(log: Log<E>, e: E) {
    log != [] &&
    match log[|log| - 1]
    case Enqueued(f, _) => e == f || Waiting(log[..|log| - 1], e)
    case Popped(f) => e != f && Waiting(log[..|log| - 1], e)
    case Unlinked(f) => e != f && Waiting(log[..|log| - 1], e)
    case Dispatched(_) => Waiting(log[..|log| - 1], e)
  }

  /** When the waiting event `e` was last enqueued, and with which priority. */
  function Since<E(==)>(log: Log<E>, e: E): (i: nat)
    requires Waiting(log, e)
    ensures i < |log| && log[i].Enqueued? && log[i].e == e
  {
    var n := |log| - 1;
    if log[n].Enqueued? && log[n].e == e then n else Since(log[..n], e)
  }

  function PriorityOf<E(==)>(log: Log<E>, e: E): nat
    requires Waiting(log, e)
  {
    log[Since(log, e)].priority
  }

  /** The queue of a legal trace: nobody is in it twice, who is in it is who waits, and its
      order is the order of enqueueing. */
  ghost predicate Tells<E>(arr: Arrivals<E>, log: Log<E>) {
    && NoDuplicates(arr)
    && (forall k :: 0 <= k < |arr| ==>
          Waiting(log, arr[k].item) && arr[k].priority == PriorityOf(log, arr[k].item))
    && (forall i, j :: 0 <= i < j < |arr| ==>
          Waiting(log, arr[i].item) && Waiting(log, arr[j].item) && Since(log, arr[i].item) < Since(log, arr[j].item))
    && (forall i :: 0 <= i < |log| && log[i].Enqueued? && Waiting(log, log[i].e) ==> Queued(arr, log[i].e))
  }

  lemma {:induction false} TraceTells<E>(log: Log<E>)
    requires LegalTrace(log)
    ensures Tells(Replay(log), log)
  {
    if log != [] {
      var n := |log| - 1;
      TraceTells(log[..n]);
      TellsStep(Replay(log[..n]), log[..n], log[n]);
      assert log == log[..n] + [log[n]];
    }
  }

  lemma TellsStep<E>(arr: Arrivals<E>, log: Log<E>, h: Happening<E>)
    requires Tells(arr, log) && Legal(arr, h)
    ensures Tells(Effect(arr, h), log + [h])
  {
    hide Tells;
    match h
    case Enqueued(e, p) => TellsEnqueue(arr, log, e, p);
    case Popped(e) => TellsRemove(arr, log, h, e);
    case Unlinked(e) => TellsRemove(arr, log, h, e);
    case Dispatched(_) => TellsNothing(arr, log, h);
  }

  lemma WaitingAppend<E>(log: Log<E>, h: Happening<E>, e: E)
    requires Waiting(log, e) && (h.Enqueued? || h.Popped? || h.Unlinked? ==> h.e != e)
    ensures Waiting(log + [h], e) && Since(log + [h], e) == Since(log, e)
  {
    assert (log + [h])[..|log|] == log;
  }

  lemma TellsNothing<E>(arr: Arrivals<E>, log: Log<E>, h: Happening<E>)
    requires Tells(arr, log) && h.Dispatched?
    ensures Tells(arr, log + [h])
  {
    forall k | 0 <= k < |arr| ensures Waiting(log + [h], arr[k].item) && Since(log + [h], arr[k].item) == Since(log, arr[k].item) {
      WaitingAppend(log, h, arr[k].item);
    }
    assert (log + [h])[..|log|] == log;
  }

  lemma TellsEnqueue<E>(arr: Arrivals<E>, log: Log<E>, e: E, p: nat)
    requires Tells(arr, log) && !Queued(arr, e)
    ensures Tells(arr + [Entry(e, p)], log + [Enqueued(e, p)])
  {
    var h, more := Enqueued(e, p), arr + [Entry(e, p)];
    assert (log + [h])[..|log|] == log;
    forall k | 0 <= k < |arr| ensures Waiting(log + [h], arr[k].item) && Since(log + [h], arr[k].item) == Since(log, arr[k].item) {
      WaitingAppend(log, h, arr[k].item);
    }
    forall i | 0 <= i < |log + [h]| && (log + [h])[i].Enqueued? && Waiting(log + [h], (log + [h])[i].e)
      ensures Queued(more, (log + [h])[i].e)
    {
      var f := (log + [h])[i].e;
      if f == e {
        assert more[|arr|].item == f;
      } else {
        assert Queued(arr, log[i].e);
        var k :| 0 <= k < |arr| && arr[k].item == f;
        assert more[k].item == f;
      }
    }
  }

  /** The entries left when entry `x` is taken out keep their order. */
  lemma OthersInOrder<E>(arr: Arrivals<E>, x: nat, i: nat, j: nat)
    requires x < |arr| && i < j < |arr| - 1
    ensures var i', j' := Shifted(x, i), Shifted(x, j);
            i' < j' < |arr| && Without(arr, x)[i] == arr[i'] && Without(arr, x)[j] == arr[j']
  {
  }

  function Shifted(x: nat, i: nat): nat {
    if i < x then i else i + 1
  }

  /** What holds of an entry left behind still holds when the log goes on without it. */
  lemma LeftBehind<E>(arr: Arrivals<E>, log: Log<E>, h: Happening<E>, x: nat, k: nat)
    requires Tells(arr, log) && x < |arr| && k < |arr| - 1 && (h == Popped(arr[x].item) || h == Unlinked(arr[x].item))
    ensures var entry := Without(arr, x)[k];
            && entry == arr[Shifted(x, k)]
            && Waiting(log, entry.item) && Waiting(log + [h], entry.item)
            && entry.priority == PriorityOf(log + [h], entry.item)
            && Since(log + [h], entry.item) == Since(log, entry.item)
  {
    var entry := arr[Shifted(x, k)];
    hide Waiting, Since;
    WaitingAppend(log, h, entry.item);
    assert (log + [h])[Since(log, entry.item)] == log[Since(log, entry.item)];
  }

  lemma TellsRemove<E>(arr: Arrivals<E>, log: Log<E>, h: Happening<E>, e: E)
    requires Tells(arr, log) && Queued(arr, e) && (h == Popped(e) || h == Unlinked(e))
    ensures Tells(Without(arr, IndexOf(arr, e)), log + [h])
  {
    var x := IndexOf(arr, e);
    var less := Without(arr, x);
    RemoveLosesOne(arr, log, h, e);
    hide Without, Waiting, Since, PriorityOf, IndexOf, Queued;
    forall k | 0 <= k < |less|
      ensures Waiting(log + [h], less[k].item) && less[k].priority == PriorityOf(log + [h], less[k].item)
    {
      LeftBehind(arr, log, h, x, k);
    }
    forall i, j | 0 <= i < j < |less|
      ensures less[i].item != less[j].item && Since(log + [h], less[i].item) < Since(log + [h], less[j].item)
    {
      OthersInOrder(arr, x, i, j);
      LeftBehind(arr, log, h, x, i);
      LeftBehind(arr, log, h, x, j);
    }
  }

  lemma RemoveLosesOne<E>(arr: Arrivals<E>, log: Log<E>, h: Happening<E>, e: E)
    requires Tells(arr, log) && Queued(arr, e) && (h == Popped(e) || h == Unlinked(e))
    ensures forall i :: 0 <= i < |log + [h]| && (log + [h])[i].Enqueued? && Waiting(log + [h], (log + [h])[i].e)
                        ==> Queued(Without(arr, IndexOf(arr, e)), (log + [h])[i].e)
  {
    assert (log + [h])[..|log|] == log;
    forall i | 0 <= i < |log + [h]| && (log + [h])[i].Enqueued? && Waiting(log + [h], (log + [h])[i].e)
      ensures Queued(Without(arr, IndexOf(arr, e)), (log + [h])[i].e)
    {
      RemoveKeepsQueued(arr, IndexOf(arr, e), log[i].e);
    }
  }

  lemma RemoveKeepsQueued<E>(arr: Arrivals<E>, x: nat, f: E)
    requires x < |arr| && Queued(arr, f) && arr[x].item != f
    ensures Queued(Without(arr, x), f)
  {
    var k :| 0 <= k < |arr| && arr[k].item == f;
    assert Without(arr, x)[if k < x then k else k - 1].item == f;
  }

  /** Who waits by the log is who is in the queue, once each. */
  lemma WaitingIsQueued<E>(log: Log<E>, e: E)
    requires LegalTrace(log)
    ensures Waiting(log, e) <==> Queued(Replay(log), e)
    ensures NoDuplicates(Replay(log))
  {
    TraceTells(log);
    if Waiting(log, e) {
      assert log[Since(log, e)].e == e;
    }
  }

  lemma {:induction false} LegalAt<E>(log: Log<E>, m: nat)
    requires LegalTrace(log) && m < |log|
    ensures LegalTrace(log[..m]) && Legal(Replay(log[..m]), log[m])
  {
    var n := |log| - 1;
    if m < n {
      LegalAt(log[..n], m);
      assert log[..n][..m] == log[..m];
    }
  }

  /** The order of service, by the log alone: whoever is popped was waiting, nobody waiting was
      more urgent, and nobody as urgent had waited longer. */
  lemma ServedInOrder<E>(log: Log<E>, m: nat, e: E)
    requires LegalTrace(log) && m < |log| && log[m].Popped?
    requires Waiting(log[..m], e) && e != log[m].e
    ensures Waiting(log[..m], log[m].e)
    ensures var f := log[m].e;
            || PriorityOf(log[..m], f) < PriorityOf(log[..m], e)
            || (PriorityOf(log[..m], f) == PriorityOf(log[..m], e) && Since(log[..m], f) < Since(log[..m], e))
  {
    LegalAt(log, m);
    var arr := Replay(log[..m]);
    TraceTells(log[..m]);
    WaitingIsQueued(log[..m], e);
    hide LegalTrace, Replay, Tells, Waiting, Since;
    ServedFirst(arr, log[..m], e);
  }

  lemma ServedFirst<E>(arr: Arrivals<E>, log: Log<E>, e: E)
    requires Tells(arr, log) && Queued(arr, e) && arr[MinIndex(arr)].item != e
    ensures var f := arr[MinIndex(arr)].item;
            && Waiting(log, e) && Waiting(log, f)
            && (|| PriorityOf(log, f) < PriorityOf(log, e)
                || (PriorityOf(log, f) == PriorityOf(log, e) && Since(log, f) < Since(log, e)))
  {
    var k, min := IndexOf(arr, e), MinIndex(arr);
    hide Waiting, Since, PriorityOf, IndexOf, MinIndex;
    assert arr[k].priority == PriorityOf(log, arr[k].item);
    assert arr[min].priority == PriorityOf(log, arr[min].item);
  }

  // ------------------------------------------------------------ conservation

  function Count<E(==)>(log: Log<E>, e: E, what: Happening<E> -> bool): nat {
    if log == [] then 0
    else Count(log[..|log| - 1], e, what) + if what(log[|log| - 1]) && log[|log| - 1].e == e then 1 else 0
  }

  function Enqueues<E(==)>(log: Log<E>, e: E): nat { Count(log, e, (h: Happening<E>) => h.Enqueued?) }
  function Pops<E(==)>(log: Log<E>, e: E): nat { Count(log, e, (h: Happening<E>) => h.Popped?) }
  function Unlinks<E(==)>(log: Log<E>, e: E): nat { Count(log, e, (h: Happening<E>) => h.Unlinked?) }
  function Dispatches<E(==)>(log: Log<E>, e: E): nat { Count(log, e, (h: Happening<E>) => h.Dispatched?) }

  /** Every enqueue of an event is accounted for: it was popped, or unlinked, or still waits. */
  lemma {:induction false} Conservation<E>(log: Log<E>, e: E)
    requires LegalTrace(log)
    ensures Enqueues(log, e) == Pops(log, e) + Unlinks(log, e) + if Waiting(log, e) then 1 else 0
  {
    if log != [] {
      var n := |log| - 1;
      Conservation(log[..n], e);
      WaitingIsQueued(log[..n], log[n].e);
    }
  }
}
