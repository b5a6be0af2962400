/** What holds at every point of every run of the flush protocol. */
module FlushRuns {
  import opened Prelude
  import opened TaskRoutes
  import opened FlushProtocol
  import opened FlushSteps
  import opened FlushInvariants
  import opened FlushSafety
  import Signals

  // ------------------------------------------------------------ one message per finished flush

  predicate Done(pc: Pc) {
    pc.Signalled? || pc.Ended?
  }

  predicate MessageTrue(s: State, i: nat)
    requires i < |s.sent|
  {
    var m := s.sent[i];
    && m.f in s.flushes
    && Done(s.flushes[m.f].pc)
    && m == Message(m.f, s.flushes[m.f].pc.ret, s.flushes[m.f].task, s.flushes[m.f].out)
  }

  ghost predicate HasSent(s: State, f: FlushId) {
    exists i :: 0 <= i < |s.sent| && s.sent[i].f == f
  }

  /** The pipe holds one message for each flush that has finished, carrying its own return code,
      task and output, and none for any other. */
  ghost predicate Messages(s: State) {
    && (forall i :: 0 <= i < |s.sent| ==> MessageTrue(s, i))
    && (forall i, j :: 0 <= i < j < |s.sent| ==> s.sent[i].f != s.sent[j].f)
    && (forall f :: f in s.flushes && Done(s.flushes[f].pc) ==> HasSent(s, f))
  }

  /** What is done stays done, and only Signal adds to it. */
  lemma DoneMoves(l: Label, a: Pc, b: Pc)
    requires Moves(l, a, b) && !Outsider(l) && !l.Create?
    ensures Done(a) ==> Done(b) && b.ret == a.ret
    ensures Done(b) ==> Done(a) || l.Signal?
    ensures l.Signal? ==> b.Signalled? && !Done(a)
  {
  }

  ghost predicate DoneKept(s: State, l: Label, s': State, f: FlushId) {
    f in s.flushes && f in s'.flushes &&
    var a, b := s.flushes[f], s'.flushes[f];
    && b.task == a.task && b.out == a.out
    && (Done(a.pc) ==> Done(b.pc) && b.pc.ret == a.pc.ret)
    && (Done(b.pc) ==> Done(a.pc) || l == Signal(f))
  }

  lemma DoneStep(s: State, l: Label, s': State, f: FlushId)
    requires Framed(s, l, s') && f in s.flushes
    ensures DoneKept(s, l, s', f)
  {
    FlushesStay(s, l, s', f);
    if !Outsider(l) && f == l.f {
      var a, b := s.flushes[f], s'.flushes[f];
      DoneMoves(l, a.pc, b.pc);
    }
    hide Framed, Done;
  }

  /** Nothing but Signal writes to the pipe, and it writes what its flush has to say. */
  ghost predicate SentStep(s: State, l: Label, s': State) {
    if l.Signal? then
      && l.f in s.flushes && l.f in s'.flushes && s'.flushes[l.f].pc.Signalled? && !Done(s.flushes[l.f].pc)
      && s'.sent == s.sent + [Message(l.f, s'.flushes[l.f].pc.ret, s'.flushes[l.f].task, s'.flushes[l.f].out)]
    else s'.sent == s.sent
  }

  lemma SentStepped(s: State, l: Label, s': State)
    requires Framed(s, l, s')
    ensures SentStep(s, l, s')
  {
    if l.Signal? {
      var a, b := s.flushes[l.f], s'.flushes[l.f];
      DoneMoves(l, a.pc, b.pc);
    }
    hide TaskStep, Done;
  }

  lemma NewIsBorn(s: State, l: Label, s': State, f: FlushId)
    requires Framed(s, l, s') && f in s'.flushes && f !in s.flushes
    ensures !Done(s'.flushes[f].pc)
  {
    hide TaskStep, Changes;
  }

  lemma OneSender(s: State, i: nat, j: nat)
    requires Messages(s) && i < |s.sent| && j < |s.sent| && s.sent[i].f == s.sent[j].f
    ensures i == j
  {
  }

  lemma TrueStays(s: State, l: Label, s': State, i: nat)
    requires Framed(s, l, s') && SentStep(s, l, s') && i < |s.sent| && MessageTrue(s, i)
    ensures i < |s'.sent| && MessageTrue(s', i) && s'.sent[i] == s.sent[i]
    ensures l.Signal? ==> s.sent[i].f != l.f
  {
    DoneStep(s, l, s', s.sent[i].f);
    hide Framed, Done;
  }

  lemma SenderStays(s: State, l: Label, s': State, f: FlushId)
    requires Framed(s, l, s') && SentStep(s, l, s') && f in s'.flushes && Done(s'.flushes[f].pc)
    requires f in s.flushes && Done(s.flushes[f].pc) ==> HasSent(s, f)
    ensures HasSent(s', f)
  {
    if f in s.flushes {
      DoneStep(s, l, s', f);
    } else {
      NewIsBorn(s, l, s', f);
    }
    hide Framed, Done;
    if l == Signal(f) {
      assert s'.sent[|s.sent|].f == f;
    } else {
      var i :| 0 <= i < |s.sent| && s.sent[i].f == f;
      assert s'.sent[i].f == f;
    }
  }

  lemma MessagesKept(s: State, l: Label, s': State)
    requires Messages(s) && Framed(s, l, s')
    ensures Messages(s')
  {
    SentStepped(s, l, s');
    hide Framed, HasSent;
    forall f | f in s'.flushes && Done(s'.flushes[f].pc) ensures HasSent(s', f) {
      SenderStays(s, l, s', f);
    }
    forall i | 0 <= i < |s.sent|
      ensures i < |s'.sent| && MessageTrue(s', i) && s'.sent[i] == s.sent[i] && (l.Signal? ==> s.sent[i].f != l.f)
    {
      TrueStays(s, l, s', i);
    }
  }

  lemma MessagesStep(s: State, l: Label)
    requires Messages(s) && Enabled(s, l)
    ensures Messages(Do(s, l))
  {
    hide Messages, Enabled, Do, Framed;
    FramedStep(s, l);
    MessagesKept(s, l, Do(s, l));
  }

  // ------------------------------------------------------------ resumes from the engine only

  /** The discipline of the engine: coroutines are resumed from the thread's own stack. */
  predicate FromEngine(s: State, l: Label)
    requires Enabled(s, l)
  {
    l.Resume? ==> s.threads[s.flushes[l.f].thread].active == Main
  }

  /** The running coroutine is the one flb_coro_get names; one that is being started may have a
      creator waiting below it, which is. */
  predicate CurrentOk(s: State, t: ThreadId)
    requires t in s.threads
  {
    var th := s.threads[t];
    th.active.Coroutine? && th.active.f in s.flushes ==>
      var fl := s.flushes[th.active.f];
      if fl.pc.Started? || fl.pc.Persisted? then
        fl.caller.Coroutine? ==> th.current == Some(fl.caller.f) && fl.caller.f in s.flushes && s.flushes[fl.caller.f].caller == Main
      else th.current == Some(th.active.f) && fl.caller == Main
  }

  ghost predicate Flat(s: State) {
    forall t :: t in s.threads ==> CurrentOk(s, t)
  }

  predicate Starting(pc: Pc) {
    pc.Started? || pc.Persisted?
  }

  lemma StartingStays(l: Label, a: Pc, b: Pc)
    requires Moves(l, a, b) && !Switching(l) && !Outsider(l)
    ensures Starting(b) == Starting(a)
  {
  }

  lemma OwnStays(s: State, l: Label, s': State)
    requires OwnStep(s, l, s') && !Switching(l)
    ensures l.f in s.flushes && l.f in s'.flushes && s'.flushes == s.flushes[l.f := s'.flushes[l.f]]
    ensures s'.flushes[l.f].caller == s.flushes[l.f].caller && Starting(s'.flushes[l.f].pc) == Starting(s.flushes[l.f].pc)
    ensures forall t :: t in s'.threads ==> t in s.threads && s'.threads[t].active == s.threads[t].active
                                            && s'.threads[t].current == s.threads[t].current
  {
    var a, b := s.flushes[l.f], s'.flushes[l.f];
    hide Changes, Moves, MayCreate, StatusSeen;
    ChangesKeep(l, a, b, s.threads[b.thread], StatusSeen(s, a));
    StartingStays(l, a.pc, b.pc);
  }

  /** Steps that do not switch leave the running coroutine what it is. */
  lemma QuietFlat(s: State, l: Label, s': State, t: ThreadId)
    requires Framed(s, l, s') && !Switching(l) && t in s'.threads && (t in s.threads ==> CurrentOk(s, t))
    ensures CurrentOk(s', t)
  {
    if !Outsider(l) {
      OwnStays(s, l, s');
    }
    hide OwnStep, TaskStep, Starting;
  }

  predicate Knowing(s: State, f: FlushId, t: ThreadId) {
    && t in s.threads && CurrentOk(s, t) && ThreadOk(s, t)
    && f in s.flushes && FlushOk(s, f) && ParamsOk(s, f)
    && CurrentOk(s, s.flushes[f].thread) && ThreadOk(s, s.flushes[f].thread)
  }

  lemma CreateFlat(s: State, f: FlushId, born: Flush, t: ThreadId)
    requires Enabled(s, Create(f, born)) && t in s.threads && CurrentOk(s, t) && ThreadOk(s, t)
    ensures t in Do(s, Create(f, born)).threads && CurrentOk(Do(s, Create(f, born)), t)
  {
  }

  lemma SwitchInFlat(s: State, f: FlushId, t: ThreadId)
    requires Enabled(s, SwitchIn(f)) && Knowing(s, f, t)
    ensures t in Do(s, SwitchIn(f)).threads && CurrentOk(Do(s, SwitchIn(f)), t)
  {
  }

  lemma ResumeFlat(s: State, f: FlushId, t: ThreadId)
    requires Enabled(s, Resume(f)) && Knowing(s, f, t) && FromEngine(s, Resume(f))
    ensures t in Do(s, Resume(f)).threads && CurrentOk(Do(s, Resume(f)), t)
  {
  }

  lemma ParkFlat(s: State, f: FlushId, t: ThreadId)
    requires Enabled(s, Park(f)) && Knowing(s, f, t)
    ensures t in Do(s, Park(f)).threads && CurrentOk(Do(s, Park(f)), t)
  {
  }

  lemma YieldFlat(s: State, l: Label, t: ThreadId)
    requires (l.Yield? || l.End?) && Enabled(s, l) && Knowing(s, l.f, t)
    ensures t in Do(s, l).threads && CurrentOk(Do(s, l), t)
  {
  }

  lemma SwitchingFlat(s: State, l: Label, t: ThreadId)
    requires Enabled(s, l) && Switching(l) && FromEngine(s, l) && t in s.threads && CurrentOk(s, t) && ThreadOk(s, t)
    requires !l.Create? ==> Knowing(s, l.f, t)
    ensures t in Do(s, l).threads && CurrentOk(Do(s, l), t)
  {
    hide Enabled, Do, Knowing, CurrentOk, ThreadOk, FromEngine;
    match l
    case Create(f, born) => CreateFlat(s, f, born, t);
    case SwitchIn(f) => SwitchInFlat(s, f, t);
    case Resume(f) => ResumeFlat(s, f, t);
    case Park(f) => ParkFlat(s, f, t);
    case Yield(_) => YieldFlat(s, l, t);
    case End(_) => YieldFlat(s, l, t);
  }

  lemma FlatStep(s: State, l: Label)
    requires Stacks(s) && Isolated(s) && Flat(s) && Enabled(s, l) && FromEngine(s, l)
    ensures Flat(Do(s, l))
  {
    var s' := Do(s, l);
    FramedStep(s, l);
    hide Enabled, Do, FromEngine, Framed, ThreadOk, CurrentOk;
    SameThreads(s, l, s');
    forall t | t in s'.threads ensures CurrentOk(s', t) {
      assert CurrentOk(s, t) && ThreadOk(s, t);
      if Switching(l) {
        if !l.Create? {
          KnowingAll(s, l.f, t);
        }
        SwitchingFlat(s, l, t);
      } else {
        QuietFlat(s, l, s', t);
      }
    }
  }

  lemma KnowingAll(s: State, f: FlushId, t: ThreadId)
    requires Stacks(s) && Isolated(s) && Flat(s) && f in s.flushes && t in s.threads
    ensures Knowing(s, f, t)
  {
    assert FlushOk(s, f) && ParamsOk(s, f);
    hide CurrentOk, ThreadOk, ParamsOk, Below, Apart;
  }

  /** Under the engine's discipline a flush that returns is always the one flb_coro_get names. */
  lemma FlatReturn(s: State, l: Label)
    requires Stacks(s) && Flat(s) && Enabled(s, l)
    ensures Do(s, l).misdirected == None
  {
    FramedStep(s, l);
    hide Enabled, Do;
    if l.Return? {
      OwnFramed(s, l, Do(s, l));
      assert FlushOk(s, l.f) && CurrentOk(s, s.flushes[l.f].thread);
      hide Stacks, Flat, Framed, OwnStep, FlushOk, CurrentOk;
      ReturnFlat(s, l.f, l.ret);
    }
  }

  lemma ReturnFlat(s: State, f: FlushId, ret: nat)
    requires Enabled(s, Return(f, ret)) && FlushOk(s, f) && CurrentOk(s, s.flushes[f].thread)
    ensures Do(s, Return(f, ret)).misdirected == None
  {
    hide Below;
  }

  // ------------------------------------------------------------ every run

  ghost predicate Safe(s: State) {
    Stacks(s) && Isolated(s) && Locks(s) && RoutesSafe(s) && Messages(s)
  }

  lemma InitSafe(s: State)
    requires Init(s)
    ensures Safe(s) && Flat(s)
  {
    InitIsolated(s);
    hide Stacks, Isolated;
    forall k, o | k in s.tasks ensures RouteOwned(s, k, o) {
      assert RouteStatus(s, k, o) != ACTIVE;
    }
  }

  lemma SafeStep(s: State, l: Label)
    requires Safe(s) && Enabled(s, l)
    ensures Safe(Do(s, l))
  {
    hide Stacks, Isolated, Locks, RoutesSafe, Messages;
    StacksStep(s, l);
    IsolatedStep(s, l);
    LocksStep(s, l);
    RoutesStep(s, l);
    MessagesStep(s, l);
  }

  lemma {:induction false} EveryRunSafe(s0: State, labels: seq<Label>, s: State)
    requires Init(s0) && Run(s0, labels, s)
    ensures Safe(s)
  {
    if labels == [] {
      InitSafe(s0);
    } else {
      var n := |labels| - 1;
      var prior := Exec(s0, labels[..n]).value;
      EveryRunSafe(s0, labels[..n], prior);
      hide Safe, Enabled;
      SafeStep(prior, labels[n]);
    }
  }

  /** Parameter isolation: whatever the order of creations and resumes, a flush inside its
      callback runs with exactly the arguments of its own creation, although every creation on
      the thread has overwritten the slot they came through. */
  lemma ParameterIsolation(s0: State, labels: seq<Label>, s: State, f: FlushId)
    requires Init(s0) && Run(s0, labels, s) && f in s.flushes
    requires !(s.flushes[f].pc.Born? || s.flushes[f].pc.Stored? || s.flushes[f].pc.Started?)
    ensures s.flushes[f].persisted == Some(s.flushes[f].args)
  {
    EveryRunSafe(s0, labels, s);
    assert ParamsOk(s, f);
  }

  /** Every switch out lands: a flush that parks, yields or ends gives control back to whoever
      switched to it last, and that is the thread's own stack or a coroutine of the same thread
      waiting inside its callback. */
  lemma SwitchesLand(s0: State, labels: seq<Label>, s: State, l: Label)
    requires Init(s0) && Run(s0, labels, s) && Enabled(s, l) && Leaving(l)
    ensures Lands(s, l, Do(s, l))
  {
    EveryRunSafe(s0, labels, s);
    FramedStep(s, l);
    hide Enabled, Do, Init, Run, Lands;
    OwnFramed(s, l, Do(s, l));
    assert FlushOk(s, l.f) && ParamsOk(s, l.f);
    hide Safe, Framed, OwnStep;
    if l.Park? {
      ParkLands(s, l.f);
    } else {
      YieldLands(s, l);
    }
  }

  /** The flush of the step has given control to its last resumer, who is there to take it. */
  predicate Lands(s: State, l: Label, s': State)
    requires !Outsider(l)
  {
    && l.f in s.flushes && s.flushes[l.f].thread in s'.threads
    && var fl := s.flushes[l.f];
    && var to := s'.threads[fl.thread].active;
    && fl.resumer == Some(to)
    && (to.Coroutine? ==> to.f in s'.flushes && s'.flushes[to.f].thread == fl.thread && s'.flushes[to.f].pc == InCallback)
  }

  lemma YieldLands(s: State, l: Label)
    requires (l.Yield? || l.End?) && Enabled(s, l) && FlushOk(s, l.f)
    ensures Lands(s, l, Do(s, l))
  {
  }

  lemma ParkLands(s: State, f: FlushId)
    requires Enabled(s, Park(f)) && FlushOk(s, f) && ParamsOk(s, f)
    ensures Lands(s, Park(f), Do(s, Park(f)))
  {
  }

  /** Route safety at every point of every run: an ACTIVE route is that of a flush between
      activation and return; a flush between them has a route that is not INACTIVE; and a flush
      that saw DROPPED is never in its callback, and returns FLB_ERROR. */
  lemma RouteSafety(s0: State, labels: seq<Label>, s: State)
    requires Init(s0) && Run(s0, labels, s)
    ensures forall k, o :: k in s.tasks && RouteStatus(s, k, o) == ACTIVE ==> exists f :: Owns(s, f, k, o)
    ensures forall f :: f in s.flushes && OnRoute(s.flushes[f]) ==>
              s.flushes[f].task in s.tasks &&
              (Has(s.tasks[s.flushes[f].task].routes, s.flushes[f].out) ==>
                 RouteStatus(s, s.flushes[f].task, s.flushes[f].out) != INACTIVE)
    ensures forall f :: f in s.flushes && s.flushes[f].saw == Some(DROPPED) ==>
              var pc := s.flushes[f].pc;
              !pc.Activated? && !pc.InCallback? && !pc.Yielded? && (Returning(pc) ==> pc.ret == FLB_ERROR)
  {
    EveryRunSafe(s0, labels, s);
    forall k, o | k in s.tasks && RouteStatus(s, k, o) == ACTIVE ensures exists f :: Owns(s, f, k, o) {
      assert RouteOwned(s, k, o);
    }
    forall f | f in s.flushes ensures RouteKnown(s, f) {
    }
    hide Safe, Status, Has;
  }

  /** Every return leaves its route INACTIVE, right after it is deactivated and still when the
      lock is given up. */
  lemma ReturnLeavesInactive(s0: State, labels: seq<Label>, s: State, l: Label)
    requires Init(s0) && Run(s0, labels, s) && Enabled(s, l) && (l.Deactivate? || l.RetRelease?)
    ensures var fl := s.flushes[l.f];
            fl.task in Do(s, l).tasks && RouteStatus(Do(s, l), fl.task, fl.out) == INACTIVE
  {
    EveryRunSafe(s0, labels, s);
    var fl := s.flushes[l.f];
    assert RouteKnown(s, l.f);
    FramedStep(s, l);
    hide Safe, Enabled, Do;
    InactiveAfter(s, l, Do(s, l));
  }

  lemma InactiveAfter(s: State, l: Label, s': State)
    requires Framed(s, l, s') && (l.Deactivate? || l.RetRelease?) && l.f in s.flushes && RouteKnown(s, l.f)
    ensures var fl := s.flushes[l.f]; fl.task in s'.tasks && RouteStatus(s', fl.task, fl.out) == INACTIVE
  {
    var fl := s.flushes[l.f];
    FramedWriter(s, l, s');
    RouteStepped(s, l, s', fl.task, fl.out);
    hide RouteStatus, Has, TaskStep;
  }

  // ------------------------------------------------------------ no deadlock

  /** How many of its own steps a holder is away from unlocking. */
  function ToUnlock(pc: Pc): nat {
    match pc
    case Holding => 3
    case Seen(status) => if status == DROPPED then 1 else 2
    case Activated => 1
    case RetHolding(_) => 2
    case RetDeactivated(_) => 1
    case _ => 0
  }

  function HolderNext(s: State, h: FlushId): Label
    requires h in s.flushes && Locked(s.flushes[h].pc)
  {
    match s.flushes[h].pc
    case Holding => See(h)
    case Seen(status) => if status == DROPPED then Reject(h) else Activate(h)
    case Activated => Release(h)
    case RetHolding(_) => Deactivate(h)
    case RetDeactivated(_) => RetRelease(h)
  }

  /** A flush about to lock a task is never waiting for itself, nor for a coroutine of its own
      thread; and whoever holds the lock can take its next step, which brings the unlocking
      nearer.  So no flush waits for ever unless somebody outside keeps the lock. */
  lemma NoDeadlock(s0: State, labels: seq<Label>, s: State, f: FlushId, h: FlushId)
    requires Init(s0) && Run(s0, labels, s) && s.misdirected == None
    requires f in s.flushes && (s.flushes[f].pc.WantLock? || s.flushes[f].pc.RetWantLock?)
    requires s.flushes[f].task in s.tasks && s.tasks[s.flushes[f].task].lock == Some(ByFlush(h))
    ensures h in s.flushes && Locked(s.flushes[h].pc) && s.flushes[h].thread != s.flushes[f].thread
    ensures var l := HolderNext(s, h);
            Enabled(s, l) && h in Do(s, l).flushes && ToUnlock(Do(s, l).flushes[h].pc) < ToUnlock(s.flushes[h].pc)
  {
    hide Enabled, Do, RouteKnown, ToUnlock, Init, Run;
    EveryRunSafe(s0, labels, s);
    assert LockTold(s, s.flushes[f].task) && FlushOk(s, f) && FlushOk(s, h) && RouteKnown(s, h);
    hide Safe;
    HolderMoves(s, h);
  }

  lemma HolderMoves(s: State, h: FlushId)
    requires h in s.flushes && Locked(s.flushes[h].pc) && FlushOk(s, h) && RouteKnown(s, h) && s.misdirected == None
    ensures var l := HolderNext(s, h);
            Enabled(s, l) && h in Do(s, l).flushes && ToUnlock(Do(s, l).flushes[h].pc) < ToUnlock(s.flushes[h].pc)
  {
    HolderMay(s, h);
    var l := HolderNext(s, h);
    FramedStep(s, l);
    hide Enabled, Do;
    NextIsNearer(l, s.flushes[h].pc, Do(s, l).flushes[h].pc);
    hide Framed, Locked, ToUnlock;
  }

  lemma HolderMay(s: State, h: FlushId)
    requires h in s.flushes && Locked(s.flushes[h].pc) && FlushOk(s, h) && RouteKnown(s, h) && s.misdirected == None
    ensures Enabled(s, HolderNext(s, h))
  {
    hide RouteStatus, Has;
  }

  lemma NextIsNearer(l: Label, a: Pc, b: Pc)
    requires Moves(l, a, b) && (Inside(l) || Giving(l)) && (l.Activate? ==> a.status != DROPPED)
    ensures ToUnlock(b) < ToUnlock(a)
  {
  }

  // ------------------------------------------------------------ one faithful signal each

  /** Each finished flush has sent exactly one message, and decoding it gives back its own return
      code, task and output, when these ids fit their 14 bits. */
  lemma SignalsFaithful(s0: State, labels: seq<Label>, s: State, f: FlushId) returns (i: nat)
    requires Init(s0) && Run(s0, labels, s) && f in s.flushes && Done(s.flushes[f].pc)
    requires s.flushes[f].task < 0x4000 && s.flushes[f].out < 0x4000
    ensures i < |s.sent| && s.sent[i].f == f && forall j :: 0 <= j < |s.sent| && s.sent[j].f == f ==> j == i
    ensures var val := Signals.FlushMessage(s.sent[i].ret, s.sent[i].task, s.sent[i].out);
            && Signals.U64High(val) == Signals.ENGINE_TASK
            && Signals.TaskRet(Signals.U64Low(val)) == s.flushes[f].pc.ret
            && Signals.TaskId(Signals.U64Low(val)) == s.flushes[f].task
            && Signals.TaskOut(Signals.U64Low(val)) == s.flushes[f].out
  {
    EveryRunSafe(s0, labels, s);
    assert HasSent(s, f) && RouteKnown(s, f);
    i :| 0 <= i < |s.sent| && s.sent[i].f == f;
    assert MessageTrue(s, i);
    forall j | 0 <= j < |s.sent| && s.sent[j].f == f ensures j == i {
      OneSender(s, i, j);
    }
    var fl := s.flushes[f];
    assert s.sent[i] == Message(f, fl.pc.ret, fl.task, fl.out);
    hide Safe, Signals.FlushMessage, Signals.U64High, Signals.U64Low, Signals.TaskRet, Signals.TaskId, Signals.TaskOut;
    Signals.FlushMessageDecodes(fl.pc.ret, fl.task, fl.out);
  }

  // ------------------------------------------------------------ who flb_output_return_do finishes

  ghost predicate EngineRun(s: State, labels: seq<Label>, s': State)
    decreases |labels|
  {
    if labels == [] then s == s'
    else
      var n := |labels| - 1;
      var prior := Exec(s, labels[..n]);
      && Run(s, labels, s')
      && prior.Some? && EngineRun(s, labels[..n], prior.value)
      && Enabled(prior.value, labels[n]) && FromEngine(prior.value, labels[n])
  }

  lemma {:induction false} EngineRunFlat(s0: State, labels: seq<Label>, s: State)
    requires Init(s0) && EngineRun(s0, labels, s)
    ensures Safe(s) && Flat(s) && s.misdirected == None
  {
    if labels == [] {
      InitSafe(s0);
    } else {
      var n := |labels| - 1;
      var prior := Exec(s0, labels[..n]).value;
      EngineRunFlat(s0, labels[..n], prior);
      var l := labels[n];
      assert Stacks(prior) && Isolated(prior);
      hide Safe, Flat, Stacks, Isolated, Enabled, FromEngine;
      SafeStep(prior, l);
      FlatStep(prior, l);
      FlatReturn(prior, l);
    }
  }
}
