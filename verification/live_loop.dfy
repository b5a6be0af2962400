/** What flb_event_priority_live_foreach promises, as a function of everything the outside
    does: the ready events of each wait and what each loop body does to the queue.

    A run is a list of rounds, one per loop body executed.  `After` gives the state reached
    after any number of rounds, so a statement about `After` is a statement about every point
    of every run.  The log records what happened to each event, in order. */
module LiveLoop {
  import opened Prelude
  import opened StableQueue

  /** mk_event.priority is a C `char`, signed or not as the platform likes; the queue takes a
      size_t, so a negative value becomes a huge one. */
  type CChar = c: int | -128 <= c <= 255

  function AsSize(c: CChar): (n: nat)
    ensures n < 0x1_0000_0000_0000_0000 && (n - c) % 0x1_0000_0000_0000_0000 == 0
  {
    if c < 0 then c + 0x1_0000_0000_0000_0000 else c
  }

  datatype Config<!E> = Config(priority: E -> CChar, nBuckets: nat) {
    predicate InRange(e: E) {
      AsSize(priority(e)) < nBuckets
    }
  }

  datatype Happening<E> =
    | Enqueued(e: E, priority: nat)
    | Popped(e: E)
    | Unlinked(e: E)
    | Dispatched(e: E)

  /** What one loop body may do: inject an event behind the ready ones, unlink a waiting event,
      mark an event deleted or registered, or disturb the ready array. */
  datatype Action<E> =
    | Inject(e: E)
    | Unlink(e: E)
    | SetStatus(e: E, deleted: bool)
    | Replace(ready: seq<E>)

  datatype Round<E> = Round(body: seq<Action<E>>, wait: seq<E>)

  datatype State<E> = State(arr: Arrivals<E>, ready: seq<E>, deleted: set<E>, log: seq<Happening<E>>)

  datatype Loop<E> = Loop(st: State<E>, event: Option<E>, iter: nat, snapshot: nat)

  // ---------------------------------------------------------------- one step at a time

  predicate Queued<E(==)>(arr: Arrivals<E>, e: E) {
    exists k :: 0 <= k < |arr| && arr[k].item == e
  }

  function IndexOf<E(==)>(arr: Arrivals<E>, e: E): (k: nat)
    requires Queued(arr, e)
    ensures k < |arr| && arr[k].item == e
  {
    if arr[0].item == e then 0 else (QueuedRest(arr, e); IndexOf(arr[1..], e) + 1)
  }

  lemma QueuedRest<E>(arr: Arrivals<E>, e: E)
    requires Queued(arr, e) && arr[0].item != e
    ensures Queued(arr[1..], e)
  {
    var k :| 0 <= k < |arr| && arr[k].item == e;
    assert arr[1..][k - 1].item == e;
  }

  /** flb_event_load_bucket_queue_event */
  function LoadEvent<E(==)>(c: Config<E>, st: State<E>, e: E): State<E> {
    if Queued(st.arr, e) || !c.InRange(e) then st
    else st.(arr := st.arr + [Entry(e, AsSize(c.priority(e)))], log := st.log + [Enqueued(e, AsSize(c.priority(e)))])
  }

  /** flb_event_load_bucket_queue, after the first `k` ready events. */
  function LoadReady<E(==)>(c: Config<E>, st: State<E>, k: nat): (r: State<E>)
    requires k <= |st.ready|
    ensures r.ready == st.ready && r.deleted == st.deleted
  {
    if k == 0 then st
    else
      var prior := LoadReady(c, st, k - 1);
      if st.ready[k - 1] in st.deleted then prior else LoadEvent(c, prior, st.ready[k - 1])
  }

  /** flb_event_load_injected_events, after the first `k` ready events.  Deleted events are not
      filtered here. */
  function LoadInjected<E(==)>(c: Config<E>, st: State<E>, snapshot: nat, k: nat): (r: State<E>)
    requires k <= |st.ready|
    ensures r.ready == st.ready && r.deleted == st.deleted
  {
    if k == 0 || |st.ready| < snapshot then st
    else
      var prior := LoadInjected(c, st, snapshot, k - 1);
      if k - 1 >= snapshot then LoadEvent(c, prior, st.ready[k - 1]) else prior
  }

  function Pop<E>(st: State<E>): (State<E>, Option<E>) {
    if st.arr == [] then (st, None)
    else
      var k := MinIndex(st.arr);
      (st.(arr := Without(st.arr, k), log := st.log + [Popped(st.arr[k].item)]), Some(st.arr[k].item))
  }

  function Act<E(==)>(st: State<E>, a: Action<E>): State<E> {
    match a
    case Inject(e) => st.(ready := st.ready + [e])
    case Unlink(e) =>
      if Queued(st.arr, e)
      then st.(arr := Without(st.arr, IndexOf(st.arr, e)), log := st.log + [Unlinked(e)])
      else st
    case SetStatus(e, deleted) => st.(deleted := if deleted then st.deleted + {e} else st.deleted - {e})
    case Replace(ready) => st.(ready := ready)
  }

  function Body<E(==)>(st: State<E>, body: seq<Action<E>>, k: nat): State<E>
    requires k <= |body|
  {
    if k == 0 then st else Act(Body(st, body, k - 1), body[k - 1])
  }

  // ---------------------------------------------------------------- the loop

  function Begin<E(==)>(c: Config<E>, st: State<E>): Loop<E> {
    var (popped, event) := Pop(LoadReady(c, st, |st.ready|));
    Loop(popped, event, 0, |st.ready|)
  }

  predicate Continues<E>(l: Loop<E>, maxIter: int) {
    l.event.Some? && (l.iter < maxIter || maxIter == -1)
  }

  /** The state when the body of this round is over and injected events have been looked at. */
  function BodyDone<E(==)>(c: Config<E>, l: Loop<E>, round: Round<E>): State<E>
    requires l.event.Some?
  {
    var st := Body(l.st.(log := l.st.log + [Dispatched(l.event.value)]), round.body, |round.body|);
    LoadInjected(c, st, l.snapshot, |st.ready|)
  }

  function Next<E(==)>(c: Config<E>, l: Loop<E>, round: Round<E>): Loop<E>
    requires l.event.Some?
  {
    var st := BodyDone(c, l, round).(ready := round.wait);
    var (popped, event) := Pop(LoadReady(c, st, |round.wait|));
    Loop(popped, event, l.iter + 1, |round.wait|)
  }

  function After<E(==)>(c: Config<E>, st: State<E>, maxIter: int, rounds: seq<Round<E>>, k: nat): Loop<E>
    requires k <= |rounds|
  {
    if k == 0 then Begin(c, st)
    else
      var l := After(c, st, maxIter, rounds, k - 1);
      if Continues(l, maxIter) then Next(c, l, rounds[k - 1]) else l
  }
}
