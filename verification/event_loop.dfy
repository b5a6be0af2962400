/** flb_event_loop.h on the heap: the bucket queue, the ready array and the links of the events
    themselves, proved to do what LiveLoop says.

    An event is identified with the list node it embeds (`_priority_head`; mk_list_entry turns
    one into the other), so its other fields are tables indexed by that node. */
module EventLoops {
  import opened MkList
  import opened StableQueue
  import opened BucketQueues
  import opened LiveLoop
  import opened Prelude
  import opened QueueTrace

  class EventLoop {
    const queue: BucketQueue
    const priority: ListNode -> CChar
    var ready: seq<ListNode>      // the first n_events slots of the backend's array
    var deleted: set<ListNode>    // events whose status is MK_EVENT_NONE

    ghost const events: set<ListNode>   // all events there are
    ghost const nodes: set<ListNode>    // and the queue's sentinels
    ghost var log: seq<Happening<ListNode>>

    ghost function Conf(): Config<ListNode> {
      Config(priority, queue.nBuckets)
    }

    ghost function Now(): State<ListNode>
      reads this, queue
    {
      State(queue.arr, ready, deleted, log)
    }

    /** An event is linked exactly while it waits. */
    ghost predicate Valid()
      reads this, queue, nodes, queue.home.Keys
    {
      && events <= nodes && queue.home.Keys <= nodes
      && queue.Valid()
      && (forall k :: 0 <= k < |queue.arr| ==> queue.arr[k].item in events)
      && (forall e :: e in events && e in queue.home ==> Queued(queue.arr, e))
      && (forall e :: e in events && e !in queue.home ==> e.prev == null)
      && (forall i :: 0 <= i < |ready| ==> ready[i] in events)
    }

    constructor (queue: BucketQueue, priority: ListNode -> CChar, ghost events: set<ListNode>)
      requires queue.Valid() && queue.arr == []
      requires forall e :: e in events ==> e !in queue.home && e.prev == null
      ensures Valid() && this.queue == queue && this.priority == priority && this.events == events
      ensures nodes == events + queue.home.Keys
      ensures Now() == State([], [], {}, [])
    {
      this.queue, this.priority, this.events := queue, priority, events;
      nodes := events + queue.home.Keys;
      ready, deleted, log := [], {}, [];
    }

    /** flb_event_load_bucket_queue_event */
    method LoadEvent(e: ListNode)
      requires Valid() && e in events
      modifies this`log, queue, nodes
      ensures Valid() && Now() == LiveLoop.LoadEvent(Conf(), old(Now()), e)
    {
      hide BucketQueue.Valid;
      WaitingIffLinked(e);
      if e.prev == null {
        ghost var before := queue.arr;
        var ret := queue.Add(e, AsSize(priority(e)));
        if ret == 0 {
          log := log + [Enqueued(e, AsSize(priority(e)))];
          QueuedAppend(before, Entry(e, AsSize(priority(e))));
        }
      }
    }

    /** flb_event_load_bucket_queue: every ready event that is not deleted. */
    method LoadBucketQueue()
      requires Valid()
      modifies this`log, queue, nodes
      ensures Valid() && Now() == LoadReady(Conf(), old(Now()), |ready|)
    {
      for i := 0 to |ready|
        invariant Valid() && Now() == LoadReady(Conf(), old(Now()), i)
      {
        var event := ready[i];
        if event !in deleted {
          LoadEvent(event);
        }
      }
    }

    /** flb_event_load_injected_events: what was appended behind the first `initial` slots; when
        the array shrank instead, an error is logged and nothing is loaded. */
    method LoadInjectedEvents(initial: nat)
      requires Valid()
      modifies this`log, queue, nodes
      ensures Valid() && Now() == LoadInjected(Conf(), old(Now()), initial, |ready|)
    {
      if |ready| < initial {
        return;
      }
      if |ready| > initial {
        var i := 0;
        while i < |ready|
          invariant 0 <= i <= |ready|
          invariant Valid() && Now() == LoadInjected(Conf(), old(Now()), initial, i)
        {
          var event := ready[i];
          if i >= initial {
            LoadEvent(event);
          }
          i := i + 1;
        }
      } else {
        NothingInjected(Conf(), Now(), initial, |ready|);
      }
    }

    /** find_min, then pop_min if it showed something. */
    method PopNext() returns (event: Option<ListNode>)
      requires Valid()
      modifies this`log, queue, nodes
      ensures Valid() && (Now(), event) == Pop(old(Now()))
    {
      hide BucketQueue.Valid;
      ghost var before := queue.arr;
      var min := queue.FindMin();
      if min == null {
        return None;
      }
      var item := queue.PopMin();
      log := log + [Popped(item)];
      QueuedRemove(before, MinIndex(before));
      return Some(item);
    }

    /** One action of a loop body.  Unlinking is guarded by the link, as mk_list_del on an event
        that is in no list would be an error. */
    method Perform(a: Action<ListNode>)
      requires Valid() && InScope(a)
      modifies this, queue, nodes
      ensures Valid() && Now() == Act(old(Now()), a)
    {
      hide BucketQueue.Valid;
      match a
      case Inject(e) => ready := ready + [e];
      case Unlink(e) =>
        WaitingIffLinked(e);
        if e.prev != null {
          ghost var before := queue.arr;
          queue.Unlink(e, IndexOf(queue.arr, e));
          log := log + [Unlinked(e)];
          QueuedRemove(before, IndexOf(before, e));
        }
      case SetStatus(e, none) => deleted := if none then deleted + {e} else deleted - {e};
      case Replace(r) => ready := r;
    }

    method RunBody(body: seq<Action<ListNode>>)
      requires Valid() && forall i :: 0 <= i < |body| ==> InScope(body[i])
      modifies this, queue, nodes
      ensures Valid() && Now() == Body(old(Now()), body, |body|)
    {
      for i := 0 to |body|
        invariant Valid() && Now() == Body(old(Now()), body, i)
      {
        Perform(body[i]);
      }
    }

    /** The init expression. */
    method Enter() returns (event: Option<ListNode>, iter: nat, nEvents: nat)
      requires Valid()
      modifies this`log, queue, nodes
      ensures Valid() && Loop(Now(), event, iter, nEvents) == Begin(Conf(), old(Now()))
    {
      iter, nEvents := 0, |ready|;
      LoadBucketQueue();
      event := PopNext();
    }

    /** One loop body and the update expression behind it. */
    method OneRound(event: Option<ListNode>, iter: nat, nEvents: nat, round: Round<ListNode>)
      returns (event': Option<ListNode>, iter': nat, nEvents': nat)
      requires Valid() && event.Some? && RoundInScope(round)
      modifies this, queue, nodes
      ensures Valid()
      ensures Loop(Now(), event', iter', nEvents') == Next(Conf(), Loop(old(Now()), event, iter, nEvents), round)
    {
      hide BucketQueue.Valid;
      log := log + [Dispatched(event.value)];
      RunBody(round.body);
      iter' := iter + 1;
      LoadInjectedEvents(nEvents);
      ready := round.wait;
      nEvents' := |ready|;
      LoadBucketQueue();
      event' := PopNext();
    }

    /** flb_event_priority_live_foreach.  `rounds` is everything the outside does: what each loop
        body does, and what the mk_event_wait_2 after it puts in the ready array.  The method
        stops when the loop does or when the rounds are used up. */
    method PriorityLiveForeach(maxIter: int, rounds: seq<Round<ListNode>>) returns (event: Option<ListNode>, iter: nat)
      requires Valid()
      requires forall k :: 0 <= k < |rounds| ==> RoundInScope(rounds[k])
      modifies this, queue, nodes
      ensures Valid()
      ensures var l := After(Conf(), old(Now()), maxIter, rounds, |rounds|);
              Now() == l.st && event == l.event && iter == l.iter
    {
      hide EventLoop.Valid, EventLoop.RoundInScope, Next, Begin;
      ghost var st0 := Now();
      var nEvents;
      event, iter, nEvents := Enter();
      var k := 0;
      while event.Some? && (iter < maxIter || maxIter == -1) && k < |rounds|
        invariant Valid() && k <= |rounds|
        invariant Loop(Now(), event, iter, nEvents) == After(Conf(), st0, maxIter, rounds, k)
        decreases |rounds| - k
      {
        event, iter, nEvents := OneRound(event, iter, nEvents, rounds[k]);
        k := k + 1;
      }
      Stopped(Conf(), st0, maxIter, rounds, k, |rounds|);
    }

    ghost predicate RoundInScope(round: Round<ListNode>) {
      && (forall i :: 0 <= i < |round.body| ==> InScope(round.body[i]))
      && (forall i :: 0 <= i < |round.wait| ==> round.wait[i] in events)
    }

    ghost predicate InScope(a: Action<ListNode>) {
      match a
      case Inject(e) => e in events
      case Unlink(e) => e in events
      case SetStatus(e, _) => e in events
      case Replace(r) => forall i :: 0 <= i < |r| ==> r[i] in events
    }

    lemma WaitingIffLinked(e: ListNode)
      requires Valid() && e in events
      ensures Queued(queue.arr, e) <==> e in queue.home
      ensures e.prev != null <==> e in queue.home
    {
      hide BucketQueue.Valid;
      if Queued(queue.arr, e) {
        queue.WaitingIsLinked(IndexOf(queue.arr, e));
      }
    }
  }

  lemma {:induction false} Stopped<E>(c: Config<E>, st: State<E>, maxIter: int, rounds: seq<Round<E>>, k: nat, m: nat)
    requires k <= m <= |rounds|
    requires k == m || !Continues(After(c, st, maxIter, rounds, k), maxIter)
    ensures After(c, st, maxIter, rounds, m) == After(c, st, maxIter, rounds, k)
  {
    if k < m {
      Stopped(c, st, maxIter, rounds, k, m - 1);
    }
  }

  lemma {:induction false} NothingInjected<E>(c: Config<E>, st: State<E>, snapshot: nat, k: nat)
    requires k <= |st.ready| <= snapshot
    ensures LoadInjected(c, st, snapshot, k) == st
  {
    if k > 0 {
      NothingInjected(c, st, snapshot, k - 1);
    }
  }

  lemma QueuedRemove<E>(arr: Arrivals<E>, k: nat)
    requires k < |arr|
    ensures forall e :: Queued(arr, e) && e != arr[k].item ==> Queued(Without(arr, k), e)
  {
    forall e | Queued(arr, e) && e != arr[k].item ensures Queued(Without(arr, k), e) {
      RemoveKeepsQueued(arr, k, e);
    }
  }

  lemma QueuedAppend<E>(arr: Arrivals<E>, x: Entry<E>)
    ensures forall e :: Queued(arr + [x], e) <==> Queued(arr, e) || e == x.item
  {
    forall e ensures Queued(arr + [x], e) <==> Queued(arr, e) || e == x.item {
      assert (arr + [x])[|arr|].item == x.item;
      if Queued(arr, e) {
        assert (arr + [x])[IndexOf(arr, e)].item == e;
      }
    }
  }
}
