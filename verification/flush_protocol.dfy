/** The flush coroutines of flb_output.h and flb_coro.h as a state machine.

    Any number of coroutines on any number of threads take the steps below in any order the
    guards allow.  A co_switch is a change of the thread's active context; a mutex is an
    optional holder; the out_flush_params of a thread is one slot that every creation on that
    thread overwrites.  Each step is one access to shared state. */
module FlushProtocol {
  import opened Prelude
  import opened TaskRoutes

  type ThreadId = nat
  type FlushId = nat
  type TaskId = nat

  const FLB_ERROR: nat := 0
  const FLB_OK: nat := 1
  const FLB_RETRY: nat := 2

  /** What a thread can be running: its own stack, or a coroutine's. */
  datatype Context = Main | Coroutine(f: FlushId)

  /** struct flb_out_flush_params */
  datatype Params = Params(eventChunk: int, outFlush: FlushId, iIns: int, outPlugin: int, outContext: int,
                           config: int, coro: FlushId)

  /** Where a flush is in its code. */
  datatype Pc =
    | Born                     // created; its creator is about to fill the parameter slot
    | Stored                   // slot filled; the creator is about to switch to it
    | Started                  // at the top of output_pre_cb_flush
    | Persisted                // has copied the slot to its stack
    | Parked                   // has switched back to its creator
    | WantLock                 // resumed; about to lock the task
    | Holding
    | Seen(status: nat)        // has read its route's status
    | Activated                // has set it ACTIVE
    | InCallback               // inside cb_flush
    | Yielded                  // inside cb_flush, switched out
    | Rejected                 // saw DROPPED, has unlocked
    | RetWantLock(ret: nat)    // in flb_output_return, about to lock
    | RetHolding(ret: nat)
    | RetDeactivated(ret: nat)
    | RetReleased(ret: nat)
    | Signalled(ret: nat)      // has written to the pipe
    | Ended(ret: nat)          // has switched out for the last time

  datatype Flush = Flush(thread: ThreadId, task: TaskId, out: nat, args: Params, pc: Pc,
                         caller: Context,              // coro->caller
                         persisted: Option<Params>,    // persisted_params
                         resumer: Option<Context>,     // who last switched to it (history)
                         saw: Option<nat>)             // the status it read (history)

  datatype Thread = Thread(active: Context, current: Option<FlushId>, slot: Option<Params>, creating: Option<FlushId>)

  datatype Holder = ByFlush(f: FlushId) | ByOther

  datatype TaskState = TaskState(routes: Routes, lock: Option<Holder>)

  datatype Message = Message(f: FlushId, ret: nat, task: TaskId, out: nat)

  datatype State = State(threads: map<ThreadId, Thread>, flushes: map<FlushId, Flush>, tasks: map<TaskId, TaskState>,
                         sent: seq<Message>,
                         misdirected: Option<(FlushId, FlushId)>)

  datatype Label =
    | Create(f: FlushId, born: Flush)
    | Store(f: FlushId)
    | SwitchIn(f: FlushId)
    | Read(f: FlushId)
    | Park(f: FlushId)
    | Resume(f: FlushId)
    | Acquire(f: FlushId)
    | See(f: FlushId)
    | Activate(f: FlushId)
    | Release(f: FlushId)
    | Reject(f: FlushId)
    | Yield(f: FlushId)
    | Return(f: FlushId, ret: nat)
    | RetAcquire(f: FlushId)
    | Deactivate(f: FlushId)
    | RetRelease(f: FlushId)
    | Signal(f: FlushId)
    | End(f: FlushId)
    | OtherLock(k: TaskId)
    | OtherDrop(k: TaskId, o: nat)
    | OtherUnlock(k: TaskId)

  // ------------------------------------------------------------ reading and writing the state

  predicate Runs(s: State, f: FlushId, pc: Pc) {
    && f in s.flushes
    && s.flushes[f].pc == pc
    && s.flushes[f].thread in s.threads
    && s.flushes[f].task in s.tasks
    && s.threads[s.flushes[f].thread].active == Coroutine(f)
  }

  function Goto(s: State, f: FlushId, pc: Pc): State
    requires f in s.flushes
  {
    s.(flushes := s.flushes[f := s.flushes[f].(pc := pc)])
  }

  function Switch(s: State, t: ThreadId, to: Context): State
    requires t in s.threads
  {
    s.(threads := s.threads[t := s.threads[t].(active := to)])
  }

  function SetLock(s: State, k: TaskId, lock: Option<Holder>): State
    requires k in s.tasks
  {
    s.(tasks := s.tasks[k := s.tasks[k].(lock := lock)])
  }

  function SetRoute(s: State, k: TaskId, o: nat, status: nat): State
    requires k in s.tasks
  {
    s.(tasks := s.tasks[k := s.tasks[k].(routes := SetStatus(s.tasks[k].routes, o, status))])
  }

  function RouteStatus(s: State, k: TaskId, o: nat): nat
    requires k in s.tasks
  {
    Status(s.tasks[k].routes, o)
  }

  /** A context that can run engine or plugin code on this thread, as opposed to the few
      instructions before and after a callback. */
  predicate Free(s: State, t: ThreadId) {
    && t in s.threads
    && s.threads[t].creating.None?
    && (s.threads[t].active.Coroutine? ==>
          s.threads[t].active.f in s.flushes && s.flushes[s.threads[t].active.f].pc == InCallback)
  }

  // ------------------------------------------------------------ the steps

  predicate MayCreate(s: State, f: FlushId, born: Flush) {
    && f !in s.flushes
    && Free(s, born.thread) && born.task in s.tasks
    && born.pc == Born && born.caller == s.threads[born.thread].active
    && born.resumer == None && born.persisted == None && born.saw == None
    && born.args.coro == f && born.args.outFlush == f
    // the engine starts no second flush of a route while one is under way
    && (forall g :: g in s.flushes && s.flushes[g].task == born.task && s.flushes[g].out == born.out ==> s.flushes[g].pc.Ended?)
  }

  predicate Enabled(s: State, l: Label) {
    s.misdirected.None? &&
    match l
    case Create(f, born) => MayCreate(s, f, born)
    case Store(f) =>
      f in s.flushes && s.flushes[f].pc == Born && s.flushes[f].thread in s.threads
      && s.threads[s.flushes[f].thread].creating == Some(f)
    case SwitchIn(f) =>
      f in s.flushes && s.flushes[f].pc == Stored && s.flushes[f].thread in s.threads
      && s.threads[s.flushes[f].thread].creating == Some(f)
    case Read(f) => Runs(s, f, Started)
    case Park(f) =>
      Runs(s, f, Persisted) && s.flushes[f].persisted.Some? && s.flushes[f].persisted.value.coro in s.flushes
    case Resume(f) =>
      && f in s.flushes && s.flushes[f].pc in {Parked, Yielded}
      && Free(s, s.flushes[f].thread)
    case Acquire(f) => Runs(s, f, WantLock) && s.tasks[s.flushes[f].task].lock == None
    case See(f) => Runs(s, f, Holding)
    case Activate(f) => f in s.flushes && s.flushes[f].pc.Seen? && Runs(s, f, s.flushes[f].pc) && s.flushes[f].pc.status != DROPPED
    case Release(f) => Runs(s, f, Activated)
    case Reject(f) => Runs(s, f, Seen(DROPPED))
    case Yield(f) => Runs(s, f, InCallback) && Free(s, s.flushes[f].thread)
    case Return(f, ret) =>
      && (Runs(s, f, Rejected) || Runs(s, f, InCallback)) && s.threads[s.flushes[f].thread].creating.None?
      && s.threads[s.flushes[f].thread].current.Some?
      && ret <= FLB_RETRY && (s.flushes[f].pc == Rejected ==> ret == FLB_ERROR)
    case RetAcquire(f) =>
      f in s.flushes && s.flushes[f].pc.RetWantLock? && Runs(s, f, s.flushes[f].pc) && s.tasks[s.flushes[f].task].lock == None
    case Deactivate(f) => f in s.flushes && s.flushes[f].pc.RetHolding? && Runs(s, f, s.flushes[f].pc)
    case RetRelease(f) => f in s.flushes && s.flushes[f].pc.RetDeactivated? && Runs(s, f, s.flushes[f].pc)
    case Signal(f) => f in s.flushes && s.flushes[f].pc.RetReleased? && Runs(s, f, s.flushes[f].pc)
    case End(f) => f in s.flushes && s.flushes[f].pc.Signalled? && Runs(s, f, s.flushes[f].pc)
    case OtherLock(k) => k in s.tasks && s.tasks[k].lock == None
    case OtherDrop(k, _) => k in s.tasks && s.tasks[k].lock == Some(ByOther)
    case OtherUnlock(k) => k in s.tasks && s.tasks[k].lock == Some(ByOther)
  }

  function Do(s: State, l: Label): State
    requires Enabled(s, l)
  {
    match l
    case Create(f, born) =>
      s.(flushes := s.flushes[f := born], threads := s.threads[born.thread := s.threads[born.thread].(creating := Some(f))])
    case Store(f) =>
      var t := s.flushes[f].thread;
      Goto(s.(threads := s.threads[t := s.threads[t].(slot := Some(s.flushes[f].args))]), f, Stored)
    case SwitchIn(f) =>
      var t := s.flushes[f].thread;
      s.(flushes := s.flushes[f := s.flushes[f].(pc := Started, resumer := Some(s.threads[t].active))],
         threads := s.threads[t := s.threads[t].(creating := None, active := Coroutine(f))])
    case Read(f) =>
      var fl := s.flushes[f];
      s.(flushes := s.flushes[f := fl.(pc := Persisted, persisted := s.threads[fl.thread].slot)])
    case Park(f) =>
      var coro := s.flushes[f].persisted.value.coro;
      Goto(Switch(s, s.flushes[f].thread, s.flushes[coro].caller), f, Parked)
    case Resume(f) =>
      var fl := s.flushes[f];
      var th := s.threads[fl.thread];
      s.(flushes := s.flushes[f := fl.(pc := if fl.pc == Parked then WantLock else InCallback, caller := th.active, resumer := Some(th.active))],
         threads := s.threads[fl.thread := th.(active := Coroutine(f), current := Some(f))])
    case Acquire(f) => Goto(SetLock(s, s.flushes[f].task, Some(ByFlush(f))), f, Holding)
    case See(f) =>
      var fl := s.flushes[f];
      var status := RouteStatus(s, fl.task, fl.out);
      s.(flushes := s.flushes[f := fl.(pc := Seen(status), saw := Some(status))])
    case Activate(f) => Goto(SetRoute(s, s.flushes[f].task, s.flushes[f].out, ACTIVE), f, Activated)
    case Release(f) => Goto(SetLock(s, s.flushes[f].task, None), f, InCallback)
    case Reject(f) => Goto(SetLock(s, s.flushes[f].task, None), f, Rejected)
    case Yield(f) => Goto(Switch(s, s.flushes[f].thread, s.flushes[f].caller), f, Yielded)
    case Return(f, ret) =>
      // flb_output_return_do finishes the coroutine that flb_coro_get names
      var coro := s.threads[s.flushes[f].thread].current.value;
      if coro == f then Goto(s, f, RetWantLock(ret)) else s.(misdirected := Some((f, coro)))
    case RetAcquire(f) => Goto(SetLock(s, s.flushes[f].task, Some(ByFlush(f))), f, RetHolding(s.flushes[f].pc.ret))
    case Deactivate(f) => Goto(SetRoute(s, s.flushes[f].task, s.flushes[f].out, INACTIVE), f, RetDeactivated(s.flushes[f].pc.ret))
    case RetRelease(f) => Goto(SetLock(s, s.flushes[f].task, None), f, RetReleased(s.flushes[f].pc.ret))
    case Signal(f) =>
      var fl := s.flushes[f];
      Goto(s, f, Signalled(fl.pc.ret)).(sent := s.sent + [Message(f, fl.pc.ret, fl.task, fl.out)])
    case End(f) => Goto(Switch(s, s.flushes[f].thread, s.flushes[f].caller), f, Ended(s.flushes[f].pc.ret))
    case OtherLock(k) => SetLock(s, k, Some(ByOther))
    case OtherDrop(k, o) => SetRoute(s, k, o, DROPPED)
    case OtherUnlock(k) => SetLock(s, k, None)
  }

  /** Threads running their own stack, tasks unlocked with no ACTIVE route, nothing created yet. */
  ghost predicate Init(s: State) {
    && s.flushes == map[] && s.sent == [] && s.misdirected == None
    && (forall t :: t in s.threads ==> s.threads[t] == Thread(Main, None, None, None))
    && (forall k :: k in s.tasks ==> s.tasks[k].lock == None)
    && (forall k, o :: k in s.tasks ==> RouteStatus(s, k, o) != ACTIVE)
  }

  /** The state a sequence of steps leads to, if each of them may be taken. */
  ghost function Exec(s: State, labels: seq<Label>): Option<State> {
    if labels == [] then Some(s)
    else
      var n := |labels| - 1;
      var prior := Exec(s, labels[..n]);
      if prior.Some? && Enabled(prior.value, labels[n]) then Some(Do(prior.value, labels[n])) else None
  }

  ghost predicate Run(s: State, labels: seq<Label>, s': State) {
    Exec(s, labels) == Some(s')
  }
}
