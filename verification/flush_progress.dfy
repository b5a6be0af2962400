/** The other side of safety: in every state a run can reach, whoever can be expected to take a step
    can take it, a flush gets into its callback and out of it, and what it reports is what its
    callback returned. */
module FlushProgress {
  import opened Prelude
  import opened TaskRoutes
  import opened FlushProtocol
  import opened FlushSteps
  import opened FlushInvariants
  import opened FlushSafety
  import opened FlushRuns
  import N = FlushNested

  // ------------------------------------------------------------ what has been

  predicate WasResumed(pc: Pc) {
    !(pc.Born? || pc.Stored? || pc.Started? || pc.Persisted? || pc.Parked?)
  }

  /** It has been resumed, so flb_coro_get names somebody. */
  predicate SomebodyCurrent(s: State, f: FlushId)
    requires f in s.flushes
  {
    s.flushes[f].thread in s.threads && (WasResumed(s.flushes[f].pc) ==> s.threads[s.flushes[f].thread].current.Some?)
  }

  /** It returns what its callback returned. */
  predicate TrulyReturned(s: State, labels: seq<Label>, f: FlushId)
    requires f in s.flushes
  {
    Returning(s.flushes[f].pc) ==> Return(f, s.flushes[f].pc.ret) in labels
  }

  /** Between activation and return its route is ACTIVE unless somebody has dropped it. */
  predicate StillActive(s: State, labels: seq<Label>, f: FlushId)
    requires f in s.flushes
  {
    var fl := s.flushes[f];
    && fl.task in s.tasks
    && (OnRoute(fl) && Has(s.tasks[fl.task].routes, fl.out) && RouteStatus(s, fl.task, fl.out) != ACTIVE ==>
          OtherDrop(fl.task, fl.out) in labels)
  }

  /** What a flush says of itself has happened in the run. */
  predicate Happened(s: State, labels: seq<Label>, f: FlushId)
    requires f in s.flushes
  {
    SomebodyCurrent(s, f) && TrulyReturned(s, labels, f) && StillActive(s, labels, f)
  }

  lemma HappenedMoves(l: Label, a: Pc, b: Pc)
    requires Moves(l, a, b) && !Outsider(l) && !l.Create?
    ensures WasResumed(b) ==> WasResumed(a) || l.Resume?
    ensures Returning(b) ==> (Returning(a) && b.ret == a.ret) || (l.Return? && b.ret == l.ret)
  {
  }

  lemma StaysActive(l: Label, a: Flush, b: Flush, th: Thread, status: nat)
    requires Changes(l, a, b, th, status) && !Outsider(l) && !l.Create? && OnRoute(b)
    requires a.pc.Rejected? ==> a.saw == Some(DROPPED)
    ensures OnRoute(a) || l.Activate?
    ensures !l.Deactivate?
  {
  }

  lemma OwnCurrent(s: State, l: Label, s': State)
    requires OwnStep(s, l, s') && (l.f in s.flushes ==> SomebodyCurrent(s, l.f))
    ensures SomebodyCurrent(s', l.f)
  {
    var b := s'.flushes[l.f];
    if !l.Create? {
      var a := s.flushes[l.f];
      hide Changes, Moves, MayCreate, StatusSeen;
      ChangesKeep(l, a, b, s.threads[b.thread], StatusSeen(s, a));
      HappenedMoves(l, a.pc, b.pc);
    }
  }

  lemma OwnReturned(s: State, l: Label, s': State, labels: seq<Label>)
    requires OwnStep(s, l, s') && (l.f in s.flushes ==> TrulyReturned(s, labels, l.f))
    ensures TrulyReturned(s', labels + [l], l.f)
  {
    var b := s'.flushes[l.f];
    if !l.Create? {
      var a := s.flushes[l.f];
      hide Changes, Moves, MayCreate, StatusSeen;
      ChangesKeep(l, a, b, s.threads[b.thread], StatusSeen(s, a));
      HappenedMoves(l, a.pc, b.pc);
      if Returning(b.pc) {
        InMore(labels, l, Return(l.f, b.pc.ret));
        assert l.Return? ==> l == Return(l.f, l.ret);
      }
    }
  }

  lemma OwnActive(s: State, l: Label, s': State, labels: seq<Label>)
    requires OwnStep(s, l, s') && TaskStep(s, l, s') && (l.f in s.flushes ==> StillActive(s, labels, l.f))
    requires l.f in s.flushes && s.flushes[l.f].pc.Rejected? ==> s.flushes[l.f].saw == Some(DROPPED)
    ensures StillActive(s', labels + [l], l.f)
  {
    var b := s'.flushes[l.f];
    hide TaskStep, Moves, Has, RouteStatus, OnRoute, Changes;
    SameTasks(s, l, s');
    if l.Create? {
      CreatedHappened(s, l, s');
    } else {
      hide MayCreate;
      var a, th := s.flushes[l.f], s.threads[b.thread];
      ChangesKeep(l, a, b, th, StatusSeen(s, a));
      RouteStepped(s, l, s', b.task, b.out);
      InMore(labels, l, OtherDrop(b.task, b.out));
      if OnRoute(b) {
        StaysActive(l, a, b, th, StatusSeen(s, a));
        WriterIsOwn(s, l);
      }
    }
  }

  lemma OwnHappened(s: State, l: Label, s': State, labels: seq<Label>)
    requires Framed(s, l, s') && !Outsider(l) && (l.f in s.flushes ==> Happened(s, labels, l.f))
    requires l.f in s.flushes && s.flushes[l.f].pc.Rejected? ==> s.flushes[l.f].saw == Some(DROPPED)
    ensures l.f in s'.flushes && Happened(s', labels + [l], l.f)
  {
    FramedWriter(s, l, s');
    OwnFramed(s, l, s');
    hide Framed, TaskStep, SomebodyCurrent, TrulyReturned, StillActive;
    OwnCurrent(s, l, s');
    OwnReturned(s, l, s', labels);
    OwnActive(s, l, s', labels);
  }

  lemma InMore(labels: seq<Label>, l: Label, x: Label)
    ensures x in labels + [l] <==> x in labels || x == l
  {
  }

  lemma CreatedHappened(s: State, l: Label, s': State)
    requires OwnStep(s, l, s') && l.Create?
    ensures var b := s'.flushes[l.f]; b.task in s.tasks && b.pc.Born? && !OnRoute(b)
  {
    hide Changes, StatusSeen;
  }

  lemma WriterIsOwn(s: State, l: Label)
    requires !Outsider(l) && l.f in s.flushes
    ensures TaskOf(s, l) == Some(s.flushes[l.f].task) && WrittenOut(s, l) == s.flushes[l.f].out
    ensures l.Activate? ==> WrittenStatus(l) == ACTIVE
  {
  }

  /** Somebody else's step. */
  lemma OtherHappened(s: State, l: Label, s': State, labels: seq<Label>, g: FlushId)
    requires Framed(s, l, s') && g in s.flushes && (Outsider(l) || g != l.f) && Happened(s, labels, g)
    requires !Outsider(l) && l.f in s.flushes ==> Alone(s, g, l.f)
    ensures g in s'.flushes && Happened(s', labels + [l], g)
  {
    var fl := s.flushes[g];
    FlushesStay(s, l, s', g);
    CurrentStays(s, l, s', fl.thread);
    InMore(labels, l, OtherDrop(fl.task, fl.out));
    if Returning(fl.pc) {
      InMore(labels, l, Return(g, fl.pc.ret));
    }
    FramedWriter(s, l, s');
    SameTasks(s, l, s');
    RouteStepped(s, l, s', fl.task, fl.out);
    if Writing(l) && TaskOf(s, l) == Some(fl.task) && WrittenOut(s, l) == fl.out {
      if Outsider(l) {
        assert l == OtherDrop(fl.task, fl.out);
      } else {
        NotEnded(l, s.flushes[l.f].pc, s'.flushes[l.f].pc);
      }
    }
    hide Framed, TaskStep, Moves, Has, RouteStatus;
  }

  lemma CurrentStays(s: State, l: Label, s': State, t: ThreadId)
    requires Framed(s, l, s') && t in s.threads
    ensures t in s'.threads && (s.threads[t].current.Some? ==> s'.threads[t].current.Some?)
  {
    hide TaskStep, Changes, MayCreate;
  }

  lemma HappenedStep(s: State, l: Label, s': State, labels: seq<Label>)
    requires Framed(s, l, s')
    requires forall f :: f in s.flushes ==> Happened(s, labels, f)
    requires forall f, g :: f in s.flushes && g in s.flushes ==> Alone(s, f, g)
    requires forall f :: f in s.flushes && s.flushes[f].pc.Rejected? ==> s.flushes[f].saw == Some(DROPPED)
    ensures forall f :: f in s'.flushes ==> Happened(s', labels + [l], f)
  {
    hide Framed, Happened, Alone;
    forall f | f in s'.flushes ensures Happened(s', labels + [l], f) {
      if !Outsider(l) && f == l.f {
        OwnHappened(s, l, s', labels);
      } else {
        KeptBefore(s, l, s', f);
        assert !Outsider(l) && l.f in s.flushes ==> Alone(s, f, l.f);
        OtherHappened(s, l, s', labels, f);
      }
    }
  }

  lemma {:induction false} AllHappened(s0: State, labels: seq<Label>, s: State)
    requires Init(s0) && Run(s0, labels, s)
    ensures forall f :: f in s.flushes ==> Happened(s, labels, f)
  {
    if labels != [] {
      var n := |labels| - 1;
      var prior, l := Exec(s0, labels[..n]).value, labels[n];
      assert Enabled(prior, l) && s == Do(prior, l);
      hide Enabled, Do, Init, Happened, Exec, Framed, Safe;
      AllHappened(s0, labels[..n], prior);
      EveryRunSafe(s0, labels[..n], prior);
      NobodyAlike(prior);
      FramedStep(prior, l);
      assert labels == labels[..n] + [l];
      HappenedStep(prior, l, s, labels[..n]);
    }
  }

  lemma NobodyAlike(s: State)
    requires Safe(s)
    ensures forall f, g :: f in s.flushes && g in s.flushes ==> Alone(s, f, g)
    ensures forall f :: f in s.flushes && s.flushes[f].pc.Rejected? ==> s.flushes[f].saw == Some(DROPPED)
  {
    hide Stacks, Isolated, Locks, Messages, Alone, RouteStatus, Has;
    forall f | f in s.flushes && s.flushes[f].pc.Rejected? ensures s.flushes[f].saw == Some(DROPPED) {
      assert RouteKnown(s, f);
    }
  }

  /** Every message carries the code that its flush's callback returned, in the run, or FLB_ERROR
      returned for it when it was rejected. */
  lemma MessageIsReturned(s0: State, labels: seq<Label>, s: State, i: nat)
    requires Init(s0) && Run(s0, labels, s) && i < |s.sent|
    ensures Return(s.sent[i].f, s.sent[i].ret) in labels
  {
    EveryRunSafe(s0, labels, s);
    assert MessageTrue(s, i);
    hide Safe, Init, Run;
    AllHappened(s0, labels, s);
    assert Happened(s, labels, s.sent[i].f);
  }

  /** Between activation and return the route is ACTIVE, unless somebody has dropped it in the run. */
  lemma ActiveUnlessDropped(s0: State, labels: seq<Label>, s: State, f: FlushId)
    requires Init(s0) && Run(s0, labels, s) && f in s.flushes && OnRoute(s.flushes[f])
    ensures var fl := s.flushes[f];
            && fl.task in s.tasks
            && (Has(s.tasks[fl.task].routes, fl.out) ==>
                  RouteStatus(s, fl.task, fl.out) == ACTIVE || OtherDrop(fl.task, fl.out) in labels)
  {
    AllHappened(s0, labels, s);
    assert Happened(s, labels, f);
  }

  // ------------------------------------------------------------ who can go on

  /** Flush `f` is the one its thread runs, and is not about to create another. */
  predicate Here(s: State, f: FlushId) {
    && s.misdirected == None && f in s.flushes && s.flushes[f].thread in s.threads && s.flushes[f].task in s.tasks
    && s.threads[s.flushes[f].thread].active == Coroutine(f)
    && s.threads[s.flushes[f].thread].creating == None
  }

  predicate Unlocked(s: State, f: FlushId)
    requires f in s.flushes && s.flushes[f].task in s.tasks
  {
    s.tasks[s.flushes[f].task].lock == None
  }

  /** The steps open to the flush its thread runs: one, wherever it is in its code, except that it
      waits for a lock that is held, and that its callback may yield or return what it likes. */
  predicate GoesOn(s: State, f: FlushId)
    requires Here(s, f)
  {
    match s.flushes[f].pc
    case Started => Enabled(s, Read(f))
    case Persisted => Enabled(s, Park(f))
    case WantLock => Unlocked(s, f) ==> Enabled(s, Acquire(f))
    case Holding => Enabled(s, See(f))
    case Seen(status) => if status == DROPPED then Enabled(s, Reject(f)) else Enabled(s, Activate(f))
    case Activated => Enabled(s, Release(f))
    case InCallback => Enabled(s, Yield(f)) && forall ret :: 0 <= ret <= FLB_RETRY ==> Enabled(s, Return(f, ret))
    case Rejected => Enabled(s, Return(f, FLB_ERROR))
    case RetWantLock(_) => Unlocked(s, f) ==> Enabled(s, RetAcquire(f))
    case RetHolding(_) => Enabled(s, Deactivate(f))
    case RetDeactivated(_) => Enabled(s, RetRelease(f))
    case RetReleased(_) => Enabled(s, Signal(f))
    case Signalled(_) => Enabled(s, End(f))
    case _ => false
  }

  lemma EarlyGoesOn(s: State, f: FlushId)
    requires Here(s, f) && ParamsOk(s, f) && OnStack(s.flushes[f].pc)
    requires WasResumed(s.flushes[f].pc) ==> s.threads[s.flushes[f].thread].current.Some?
    requires !Returning(s.flushes[f].pc)
    ensures GoesOn(s, f)
  {
    hide Has, Status;
  }

  lemma LateGoesOn(s: State, f: FlushId)
    requires Here(s, f) && Returning(s.flushes[f].pc) && OnStack(s.flushes[f].pc)
    ensures GoesOn(s, f)
  {
    hide Has, Status;
  }

  /** In every reachable state, the flush a thread runs can go on. */
  lemma RunningGoesOn(s0: State, labels: seq<Label>, s: State, f: FlushId)
    requires Init(s0) && Run(s0, labels, s) && Here(s, f)
    ensures GoesOn(s, f)
  {
    EveryRunSafe(s0, labels, s);
    AllHappened(s0, labels, s);
    assert Happened(s, labels, f) && ParamsOk(s, f) && ThreadOk(s, s.flushes[f].thread);
    hide Safe, Init, Run, GoesOn, Enabled;
    if Returning(s.flushes[f].pc) {
      LateGoesOn(s, f);
    } else {
      EarlyGoesOn(s, f);
    }
  }

  /** A thread that is not creating a flush and runs its own stack or a callback. */
  predicate AtLeisure(s: State, t: ThreadId) {
    && s.misdirected == None && t in s.threads && s.threads[t].creating == None
    && match s.threads[t].active
       case Main => true
       case Coroutine(f) => f in s.flushes && s.flushes[f].pc == InCallback
  }

  function NewFlush(t: ThreadId, k: TaskId, o: nat, args: Params, creator: Context): Flush {
    Flush(t, k, o, args, Born, creator, None, None, None)
  }

  /** Such a thread can resume every flush of its own that is parked or has yielded, and create one for
      any route that has none under way. */
  lemma LeisureServes(s: State, t: ThreadId)
    requires AtLeisure(s, t)
    ensures forall f :: f in s.flushes && s.flushes[f].thread == t && (s.flushes[f].pc.Parked? || s.flushes[f].pc.Yielded?) ==>
              Enabled(s, Resume(f))
    ensures forall f, k, o, args: Params ::
              f !in s.flushes && k in s.tasks && args.coro == f && args.outFlush == f
              && (forall g :: g in s.flushes && s.flushes[g].task == k && s.flushes[g].out == o ==> s.flushes[g].pc.Ended?) ==>
                Enabled(s, Create(f, NewFlush(t, k, o, args, s.threads[t].active)))
  {
  }

  /** A thread that is creating one can fill the slot and switch to it. */
  lemma CreatorGoesOn(s0: State, labels: seq<Label>, s: State, t: ThreadId)
    requires Init(s0) && Run(s0, labels, s) && s.misdirected == None && t in s.threads && s.threads[t].creating.Some?
    ensures var f := s.threads[t].creating.value; f in s.flushes && (Enabled(s, Store(f)) || Enabled(s, SwitchIn(f)))
  {
    EveryRunSafe(s0, labels, s);
    assert ThreadOk(s, t);
  }

  /** Anybody can lock a task that is not locked; whoever else has locked one can drop any of its
      routes and unlock it. */
  lemma OutsidersGoOn(s: State, k: TaskId)
    requires s.misdirected == None && k in s.tasks
    ensures s.tasks[k].lock == None ==> Enabled(s, OtherLock(k))
    ensures s.tasks[k].lock == Some(ByOther) ==> Enabled(s, OtherUnlock(k)) && forall o :: Enabled(s, OtherDrop(k, o))
  {
  }

  /** One more step of a run. */
  lemma Go(s0: State, labels: seq<Label>, s: State, l: Label) returns (s': State)
    requires Init(s0) && Run(s0, labels, s) && Enabled(s, l)
    ensures s' == Do(s, l) && Run(s0, labels + [l], s') && Framed(s, l, s')
  {
    s' := Do(s, l);
    assert (labels + [l])[..|labels|] == labels;
    FramedStep(s, l);
  }

  /** A step that does not switch leaves its flush in charge of its thread. */
  lemma StaysHere(s: State, l: Label, s': State)
    requires Framed(s, l, s') && !Outsider(l) && !Switching(l) && !l.Store? && Here(s, l.f) && s'.misdirected == None
    ensures Here(s', l.f) && Moves(l, s.flushes[l.f].pc, s'.flushes[l.f].pc) && s'.threads == s.threads
    ensures var a, b := s.flushes[l.f], s'.flushes[l.f];
            b.thread == a.thread && b.task == a.task && b.out == a.out && b.caller == a.caller
    ensures s'.tasks[s.flushes[l.f].task].lock ==
            if Taking(l) then Some(ByFlush(l.f)) else if Giving(l) then None else s.tasks[s.flushes[l.f].task].lock
    ensures SentStep(s, l, s')
  {
    OwnFramed(s, l, s');
    FramedWriter(s, l, s');
    SentStepped(s, l, s');
    LockStepped(s, l, s', s.flushes[l.f].task);
    var a, b := s.flushes[l.f], s'.flushes[l.f];
    hide Framed, TaskStep, Changes, Moves, MayCreate, StatusSeen, SentStep;
    ChangesKeep(l, a, b, s.threads[b.thread], StatusSeen(s, a));
  }

  // ------------------------------------------------------------ into the callback and out of it

  /** What stays of a flush while it goes through its critical sections. */
  datatype Passage = Passage(thread: ThreadId, task: TaskId, out: nat, caller: Context, has: bool)

  /** Where flush `f` is, who holds its task's lock, and what its route's status is. */
  predicate At(s: State, f: FlushId, p: Passage, pc: Pc, lock: Option<Holder>, status: nat, sent: seq<Message>) {
    && Here(s, f) && s.sent == sent
    && var fl := s.flushes[f];
    && fl.pc == pc && fl.thread == p.thread && fl.task == p.task && fl.out == p.out && fl.caller == p.caller
    && s.threads[fl.thread].current == Some(f)
    && s.tasks[fl.task].lock == lock && RouteStatus(s, fl.task, fl.out) == status
    && Has(s.tasks[fl.task].routes, fl.out) == p.has
  }

  predicate Inner(pc: Pc) {
    pc.WantLock? || pc.Holding? || pc.Seen? || pc.Activated? || pc.RetWantLock? || pc.RetHolding? || pc.RetDeactivated?
    || pc.RetReleased?
  }

  /** The one step such a flush takes next, and where that takes it. */
  function InnerLabel(f: FlushId, pc: Pc): Label
    requires Inner(pc)
  {
    match pc
    case WantLock => Acquire(f)
    case Holding => See(f)
    case Seen(status) => if status == DROPPED then Reject(f) else Activate(f)
    case Activated => Release(f)
    case RetWantLock(_) => RetAcquire(f)
    case RetHolding(_) => Deactivate(f)
    case RetDeactivated(_) => RetRelease(f)
    case RetReleased(_) => Signal(f)
  }

  function InnerPc(pc: Pc, status: nat): Pc
    requires Inner(pc)
  {
    match pc
    case WantLock => Holding
    case Holding => Seen(status)
    case Seen(seen) => if seen == DROPPED then Rejected else Activated
    case Activated => InCallback
    case RetWantLock(ret) => RetHolding(ret)
    case RetHolding(ret) => RetDeactivated(ret)
    case RetDeactivated(ret) => RetReleased(ret)
    case RetReleased(ret) => Signalled(ret)
  }

  function InnerLock(f: FlushId, pc: Pc, lock: Option<Holder>): Option<Holder>
    requires Inner(pc)
  {
    var l := InnerLabel(f, pc);
    if Taking(l) then Some(ByFlush(f)) else if Giving(l) then None else lock
  }

  function InnerStatus(pc: Pc, status: nat, has: bool): nat {
    if pc.Seen? && pc.status != DROPPED then (if has then ACTIVE else INACTIVE)
    else if pc.RetHolding? then INACTIVE
    else status
  }

  lemma InnerMoves(f: FlushId, a: Pc, b: Pc, status: nat)
    requires Inner(a) && Moves(InnerLabel(f, a), a, b) && (a.Holding? ==> b == Seen(status))
    ensures b == InnerPc(a, status)
  {
  }

  lemma InnerLabelIs(f: FlushId, pc: Pc)
    requires Inner(pc)
    ensures var l := InnerLabel(f, pc); !Outsider(l) && !Switching(l) && !l.Store? && !l.Return? && l.f == f
    ensures Taking(InnerLabel(f, pc)) <==> pc.WantLock? || pc.RetWantLock?
    ensures Writing(InnerLabel(f, pc)) <==> pc.RetHolding? || (pc.Seen? && pc.status != DROPPED)
    ensures Writing(InnerLabel(f, pc)) ==> WrittenStatus(InnerLabel(f, pc)) == if pc.Seen? then ACTIVE else INACTIVE
    ensures InnerLabel(f, pc).Signal? <==> pc.RetReleased?
    ensures InnerLabel(f, pc).See? <==> pc.Holding?
  {
  }

  lemma InnerEnabled(s: State, f: FlushId)
    requires Here(s, f) && Inner(s.flushes[f].pc) && GoesOn(s, f)
    requires s.flushes[f].pc.WantLock? || s.flushes[f].pc.RetWantLock? ==> Unlocked(s, f)
    ensures Enabled(s, InnerLabel(f, s.flushes[f].pc))
  {
    hide Enabled;
  }

  /** A flush in one of these places takes that step, in every reachable state. */
  lemma InnerStep(s0: State, labels: seq<Label>, s: State, f: FlushId, p: Passage, pc: Pc, lock: Option<Holder>,
                  status: nat, sent: seq<Message>)
    returns (s': State)
    requires Init(s0) && Run(s0, labels, s) && At(s, f, p, pc, lock, status, sent)
    requires Inner(pc) && (pc.WantLock? || pc.RetWantLock? ==> lock == None)
    ensures Run(s0, labels + [InnerLabel(f, pc)], s')
    ensures At(s', f, p, InnerPc(pc, status), InnerLock(f, pc, lock), InnerStatus(pc, status, p.has),
               if pc.RetReleased? then sent + [Message(f, pc.ret, p.task, p.out)] else sent)
  {
    hide Enabled, Do, Init, Run, Framed, GoesOn, RouteStatus, Has, Moves, InnerPc, InnerLabel, SentStep;
    RunningGoesOn(s0, labels, s, f);
    InnerEnabled(s, f);
    var l := InnerLabel(f, pc);
    InnerLabelIs(f, pc);
    s' := Go(s0, labels, s, l);
    InnerFrame(s, f, p, pc, lock, status, sent, s');
  }

  lemma InnerFrame(s: State, f: FlushId, p: Passage, pc: Pc, lock: Option<Holder>, status: nat, sent: seq<Message>, s': State)
    requires At(s, f, p, pc, lock, status, sent) && Inner(pc) && Framed(s, InnerLabel(f, pc), s')
    ensures At(s', f, p, InnerPc(pc, status), InnerLock(f, pc, lock), InnerStatus(pc, status, p.has),
               if pc.RetReleased? then sent + [Message(f, pc.ret, p.task, p.out)] else sent)
  {
    var l := InnerLabel(f, pc);
    InnerLabelIs(f, pc);
    NoMisdirection(s, l, s');
    hide Framed, RouteStatus, Has, Moves, InnerPc, InnerLabel, SentStep;
    StaysHere(s, l, s');
    if l.See? {
      SeenIs(s, l, s');
    }
    InnerMoves(f, pc, s'.flushes[f].pc, status);
    FramedWriter(s, l, s');
    RouteStepped(s, l, s', p.task, p.out);
    NoRouteStatus(s, p.task, p.out);
    WriterIsOwn(s, l);
    InnerSent(f, pc, status);
    SentBy(s, l, s');
  }

  lemma InnerSent(f: FlushId, pc: Pc, status: nat)
    requires Inner(pc)
    ensures pc.RetReleased? ==> InnerPc(pc, status) == Signalled(pc.ret)
  {
  }

  lemma SentBy(s: State, l: Label, s': State)
    requires SentStep(s, l, s')
    ensures !l.Signal? ==> s'.sent == s.sent
    ensures l.Signal? ==>
              && l.f in s'.flushes && s'.flushes[l.f].pc.Signalled?
              && s'.sent == s.sent + [Message(l.f, s'.flushes[l.f].pc.ret, s'.flushes[l.f].task, s'.flushes[l.f].out)]
  {
    hide Done;
  }

  lemma NoRouteStatus(s: State, k: TaskId, o: nat)
    requires k in s.tasks
    ensures !Has(s.tasks[k].routes, o) ==> RouteStatus(s, k, o) == INACTIVE
  {
    if !Has(s.tasks[k].routes, o) {
      NoRoute(s.tasks[k].routes, o);
    }
  }

  lemma SeenIs(s: State, l: Label, s': State)
    requires Framed(s, l, s') && l.See? && Here(s, l.f)
    ensures l.f in s'.flushes && s'.flushes[l.f].pc == Seen(RouteStatus(s, s.flushes[l.f].task, s.flushes[l.f].out))
  {
    hide TaskStep, RouteStatus, Moves;
  }

  lemma NoMisdirection(s: State, l: Label, s': State)
    requires Framed(s, l, s') && !l.Return?
    ensures s'.misdirected == None
  {
  }

  lemma ReturnStep(s: State, f: FlushId, ret: nat, p: Passage, lock: Option<Holder>, status: nat, sent: seq<Message>, pc: Pc)
    requires Enabled(s, Return(f, ret)) && At(s, f, p, pc, lock, status, sent)
    ensures At(Do(s, Return(f, ret)), f, p, RetWantLock(ret), lock, status, sent)
  {
    hide Has, Status;
  }

  lemma EndStep(s: State, f: FlushId)
    requires Enabled(s, End(f))
    ensures var fl, s' := s.flushes[f], Do(s, End(f));
            && s'.sent == s.sent && s'.tasks == s.tasks && f in s'.flushes && s'.flushes[f].pc == Ended(fl.pc.ret)
            && fl.thread in s'.threads && s'.threads[fl.thread].active == fl.caller
  {
  }

  lemma ReturnEnabled(s: State, f: FlushId, ret: nat)
    requires Here(s, f) && GoesOn(s, f) && ret <= FLB_RETRY
    requires s.flushes[f].pc == InCallback || (s.flushes[f].pc == Rejected && ret == FLB_ERROR)
    ensures Enabled(s, Return(f, ret))
  {
    hide Enabled;
  }

  lemma EndEnabled(s: State, f: FlushId)
    requires Here(s, f) && GoesOn(s, f) && s.flushes[f].pc.Signalled?
    ensures Enabled(s, End(f))
  {
    hide Enabled;
  }

  /** A flush in its callback, or rejected, whose task is not locked, and that is the one last
      resumed, can return any code, or FLB_ERROR, and then gets to its end by its own steps: the pipe
      has its message with that code, its route is INACTIVE, the task is unlocked again, and control
      is with its caller. */
  lemma Finishes(s0: State, labels: seq<Label>, s: State, f: FlushId, ret: nat, p: Passage, pc: Pc, status: nat, sent: seq<Message>)
    returns (more: seq<Label>, s': State)
    requires Init(s0) && Run(s0, labels, s) && At(s, f, p, pc, None, status, sent) && ret <= FLB_RETRY
    requires pc == InCallback || (pc == Rejected && ret == FLB_ERROR)
    ensures more == [Return(f, ret), RetAcquire(f), Deactivate(f), RetRelease(f), Signal(f), End(f)]
    ensures Run(s0, labels + more, s')
    ensures s'.sent == sent + [Message(f, ret, p.task, p.out)]
    ensures f in s'.flushes && s'.flushes[f].pc == Ended(ret)
    ensures p.task in s'.tasks && RouteStatus(s', p.task, p.out) == INACTIVE && s'.tasks[p.task].lock == None
    ensures p.thread in s'.threads && s'.threads[p.thread].active == p.caller
  {
    hide Enabled, Do, Init, Run, Framed, GoesOn, RouteStatus, Has, InnerPc, InnerLabel, InnerLock, InnerStatus;
    RunningGoesOn(s0, labels, s, f);
    ReturnEnabled(s, f, ret);
    var s1 := Go(s0, labels, s, Return(f, ret));
    ReturnStep(s, f, ret, p, None, status, sent, pc);
    var l1 := labels + [Return(f, ret)];
    var s4 := Deactivates(s0, l1, s1, f, ret, p, status, sent);
    var l4 := l1 + [RetAcquire(f), Deactivate(f), RetRelease(f)];
    s' := Reports(s0, l4, s4, f, ret, p, sent);
    more := [Return(f, ret), RetAcquire(f), Deactivate(f), RetRelease(f), Signal(f), End(f)];
    assert l4 + [Signal(f), End(f)] == labels + more;
  }

  /** Through the second critical section. */
  lemma Deactivates(s0: State, labels: seq<Label>, s: State, f: FlushId, ret: nat, p: Passage, status: nat, sent: seq<Message>)
    returns (s': State)
    requires Init(s0) && Run(s0, labels, s) && At(s, f, p, RetWantLock(ret), None, status, sent)
    ensures Run(s0, labels + [RetAcquire(f), Deactivate(f), RetRelease(f)], s')
    ensures At(s', f, p, RetReleased(ret), None, INACTIVE, sent)
  {
    hide Init, Run, At;
    var s1 := InnerStep(s0, labels, s, f, p, RetWantLock(ret), None, status, sent);
    var l1 := labels + [RetAcquire(f)];
    var s2 := InnerStep(s0, l1, s1, f, p, RetHolding(ret), Some(ByFlush(f)), status, sent);
    var l2 := l1 + [Deactivate(f)];
    s' := InnerStep(s0, l2, s2, f, p, RetDeactivated(ret), Some(ByFlush(f)), INACTIVE, sent);
    assert l2 + [RetRelease(f)] == labels + [RetAcquire(f), Deactivate(f), RetRelease(f)];
  }

  /** The signal, and out. */
  lemma Reports(s0: State, labels: seq<Label>, s: State, f: FlushId, ret: nat, p: Passage, sent: seq<Message>) returns (s': State)
    requires Init(s0) && Run(s0, labels, s) && At(s, f, p, RetReleased(ret), None, INACTIVE, sent)
    ensures Run(s0, labels + [Signal(f), End(f)], s')
    ensures s'.sent == sent + [Message(f, ret, p.task, p.out)]
    ensures f in s'.flushes && s'.flushes[f].pc == Ended(ret)
    ensures p.task in s'.tasks && RouteStatus(s', p.task, p.out) == INACTIVE && s'.tasks[p.task].lock == None
    ensures p.thread in s'.threads && s'.threads[p.thread].active == p.caller
  {
    hide Enabled, Do, Init, Run, Framed, GoesOn, RouteStatus, Has;
    var s1 := InnerStep(s0, labels, s, f, p, RetReleased(ret), None, INACTIVE, sent);
    var l1 := labels + [Signal(f)];
    RunningGoesOn(s0, l1, s1, f);
    EndEnabled(s1, f);
    s' := Go(s0, l1, s1, End(f));
    EndStep(s1, f);
    RoutesAlike(s1, s', p.task, p.out);
    assert l1 + [End(f)] == labels + [Signal(f), End(f)];
  }

  lemma RoutesAlike(s: State, s': State, k: TaskId, o: nat)
    requires k in s.tasks && s'.tasks == s.tasks
    ensures RouteStatus(s', k, o) == RouteStatus(s, k, o)
  {
  }

  lemma ResumeStep(s: State, f: FlushId)
    requires Enabled(s, Resume(f)) && s.flushes[f].task in s.tasks
    ensures var fl, s' := s.flushes[f], Do(s, Resume(f));
            && fl.thread in s.threads
            && var p := Passage(fl.thread, fl.task, fl.out, s.threads[fl.thread].active, Has(s.tasks[fl.task].routes, fl.out));
            At(s', f, p, if fl.pc.Parked? then WantLock else InCallback, s.tasks[fl.task].lock,
               RouteStatus(s, fl.task, fl.out), s.sent)
  {
    hide Has, Status;
  }

  /** A parked flush of a thread at leisure whose task is not locked gets by its own steps into its
      callback, with its route ACTIVE if it has one; or, if its route is DROPPED, past it, with nothing
      left to do but return FLB_ERROR. */
  lemma Enters(s0: State, labels: seq<Label>, s: State, f: FlushId) returns (more: seq<Label>, s': State)
    requires Init(s0) && Run(s0, labels, s) && f in s.flushes && s.flushes[f].pc == Parked && AtLeisure(s, s.flushes[f].thread)
    requires s.flushes[f].task in s.tasks && Unlocked(s, f)
    ensures var fl := s.flushes[f];
            && var has, status := Has(s.tasks[fl.task].routes, fl.out), RouteStatus(s, fl.task, fl.out);
            && var p := Passage(fl.thread, fl.task, fl.out, s.threads[fl.thread].active, has);
            && more == [Resume(f), Acquire(f), See(f)] + (if status == DROPPED then [Reject(f)] else [Activate(f), Release(f)])
            && Run(s0, labels + more, s')
            && if status == DROPPED then At(s', f, p, Rejected, None, DROPPED, s.sent)
               else At(s', f, p, InCallback, None, if has then ACTIVE else INACTIVE, s.sent)
  {
    hide Enabled, Do, Init, Run, Framed, RouteStatus, Has, At;
    var fl := s.flushes[f];
    LeisureServes(s, fl.thread);
    var s1 := Go(s0, labels, s, Resume(f));
    ResumeStep(s, f);
    var has, status := Has(s.tasks[fl.task].routes, fl.out), RouteStatus(s, fl.task, fl.out);
    var p := Passage(fl.thread, fl.task, fl.out, s.threads[fl.thread].active, has);
    var l1 := labels + [Resume(f)];
    var s3 := Sees(s0, l1, s1, f, p, status, s.sent);
    var l3 := l1 + [Acquire(f), See(f)];
    if status == DROPPED {
      s' := InnerStep(s0, l3, s3, f, p, Seen(status), Some(ByFlush(f)), status, s.sent);
      more := [Resume(f), Acquire(f), See(f)] + [Reject(f)];
      assert l3 + [Reject(f)] == labels + more;
    } else {
      s' := Activates(s0, l3, s3, f, p, status, s.sent);
      more := [Resume(f), Acquire(f), See(f)] + [Activate(f), Release(f)];
      assert l3 + [Activate(f), Release(f)] == labels + more;
    }
  }

  /** Through the first critical section: taking the lock and reading the status... */
  lemma Sees(s0: State, labels: seq<Label>, s: State, f: FlushId, p: Passage, status: nat, sent: seq<Message>) returns (s': State)
    requires Init(s0) && Run(s0, labels, s) && At(s, f, p, WantLock, None, status, sent)
    ensures Run(s0, labels + [Acquire(f), See(f)], s') && At(s', f, p, Seen(status), Some(ByFlush(f)), status, sent)
  {
    hide Init, Run, At;
    var s1 := InnerStep(s0, labels, s, f, p, WantLock, None, status, sent);
    var l1 := labels + [Acquire(f)];
    s' := InnerStep(s0, l1, s1, f, p, Holding, Some(ByFlush(f)), status, sent);
    assert l1 + [See(f)] == labels + [Acquire(f), See(f)];
  }

  /** ...and, unless it is DROPPED, activating the route. */
  lemma Activates(s0: State, labels: seq<Label>, s: State, f: FlushId, p: Passage, status: nat, sent: seq<Message>) returns (s': State)
    requires Init(s0) && Run(s0, labels, s) && At(s, f, p, Seen(status), Some(ByFlush(f)), status, sent) && status != DROPPED
    ensures Run(s0, labels + [Activate(f), Release(f)], s')
    ensures At(s', f, p, InCallback, None, if p.has then ACTIVE else INACTIVE, sent)
  {
    hide Init, Run, At;
    var s1 := InnerStep(s0, labels, s, f, p, Seen(status), Some(ByFlush(f)), status, sent);
    var l1 := labels + [Activate(f)];
    s' := InnerStep(s0, l1, s1, f, p, Activated, Some(ByFlush(f)), if p.has then ACTIVE else INACTIVE, sent);
    assert l1 + [Release(f)] == labels + [Activate(f), Release(f)];
  }

  // ------------------------------------------------------------ dropping a route

  /** Somebody else locks a task, drops a route and unlocks it again. */
  lemma Drops(s0: State, labels: seq<Label>, s: State, k: TaskId, o: nat) returns (s': State)
    requires Init(s0) && Run(s0, labels, s) && s.misdirected == None && k in s.tasks && s.tasks[k].lock == None
    ensures Run(s0, labels + [OtherLock(k), OtherDrop(k, o), OtherUnlock(k)], s')
    ensures s'.misdirected == None && s'.flushes == s.flushes && s'.threads == s.threads && s'.sent == s.sent
    ensures k in s'.tasks && s'.tasks[k].lock == None
    ensures Has(s.tasks[k].routes, o) ==> Has(s'.tasks[k].routes, o) && RouteStatus(s', k, o) == DROPPED
  {
    hide Enabled, Do, Init, Run, Framed, Has, RouteStatus;
    OutsidersGoOn(s, k);
    var s1 := Go(s0, labels, s, OtherLock(k));
    OutsiderEffect(s, OtherLock(k), s1, o);
    var l1 := labels + [OtherLock(k)];
    OutsidersGoOn(s1, k);
    var s2 := Go(s0, l1, s1, OtherDrop(k, o));
    OutsiderEffect(s1, OtherDrop(k, o), s2, o);
    var l2 := l1 + [OtherDrop(k, o)];
    OutsidersGoOn(s2, k);
    s' := Go(s0, l2, s2, OtherUnlock(k));
    OutsiderEffect(s2, OtherUnlock(k), s', o);
    assert l2 + [OtherUnlock(k)] == labels + [OtherLock(k), OtherDrop(k, o), OtherUnlock(k)];
  }

  lemma OutsiderEffect(s: State, l: Label, s': State, o: nat)
    requires Framed(s, l, s') && Outsider(l) && l.k in s.tasks && (l.OtherDrop? ==> l.o == o)
    ensures s'.misdirected == None && s'.flushes == s.flushes && s'.threads == s.threads && s'.sent == s.sent
    ensures l.k in s'.tasks
    ensures s'.tasks[l.k].lock == if l.OtherLock? then Some(ByOther) else if l.OtherUnlock? then None else s.tasks[l.k].lock
    ensures Has(s'.tasks[l.k].routes, o) == Has(s.tasks[l.k].routes, o)
    ensures RouteStatus(s', l.k, o) ==
            if l.OtherDrop? then (if Has(s.tasks[l.k].routes, o) then DROPPED else INACTIVE) else RouteStatus(s, l.k, o)
  {
    assert s'.misdirected == None && s'.sent == s.sent;
    FramedWriter(s, l, s');
    LockStepped(s, l, s', l.k);
    hide Framed, TaskStep, RouteStatus, Has;
    RouteStepped(s, l, s', l.k, o);
  }

  /** Whatever the state, when the route of a parked flush is dropped before the flush is resumed, the
      flush never gets into its callback and the pipe has an FLB_ERROR for it. */
  lemma DroppedReportsError(s0: State, labels: seq<Label>, s: State, f: FlushId) returns (more: seq<Label>, s': State)
    requires Init(s0) && Run(s0, labels, s) && f in s.flushes && s.flushes[f].pc == Parked && AtLeisure(s, s.flushes[f].thread)
    requires s.flushes[f].task in s.tasks && Unlocked(s, f) && Has(s.tasks[s.flushes[f].task].routes, s.flushes[f].out)
    ensures Run(s0, labels + more, s')
    ensures s'.sent == s.sent + [Message(f, FLB_ERROR, s.flushes[f].task, s.flushes[f].out)]
    ensures f in s'.flushes && s'.flushes[f].pc == Ended(FLB_ERROR)
  {
    var fl := s.flushes[f];
    hide Enabled, Do, Init, Run, Framed, Has, RouteStatus, At;
    var k, o := fl.task, fl.out;
    var s1 := Drops(s0, labels, s, k, o);
    var l1 := labels + [OtherLock(k), OtherDrop(k, o), OtherUnlock(k)];
    var m2, s2 := Enters(s0, l1, s1, f);
    var p := Passage(fl.thread, k, o, s1.threads[fl.thread].active, true);
    var m3;
    m3, s' := Finishes(s0, l1 + m2, s2, f, FLB_ERROR, p, Rejected, DROPPED, s.sent);
    more := [OtherLock(k), OtherDrop(k, o), OtherUnlock(k)] + m2 + m3;
    assert l1 + m2 + m3 == labels + more;
  }

  // ------------------------------------------------------------ one run from beginning to end

  lemma TakeResumeYielded(slot: Option<Params>)
    ensures var before := N.World(Thread(Main, Some(1), slot, None), map[1 := N.FlushAt(1, Yielded, Main)], None);
            var after := N.World(Thread(Coroutine(1), Some(1), slot, None), map[1 := N.FlushAt(1, InCallback, Main)], None);
            N.Takes(before, Resume(1), after)
  {
    var ends := map[1 := N.FlushAt(1, InCallback, Main)];
    assert map[1 := N.FlushAt(1, Yielded, Main)][1 := N.FlushAt(1, InCallback, Main)] == ends;
  }

  lemma AtCallback(slot: Option<Params>)
    ensures At(N.World(Thread(Coroutine(1), Some(1), slot, None), map[1 := N.FlushAt(1, InCallback, Main)], None), 1,
               Passage(0, 0, 1, Main, false), InCallback, None, INACTIVE, [])
    ensures FLB_OK <= FLB_RETRY
  {
  }

  /** The engine creates a flush and resumes it; its callback yields, is resumed, and returns FLB_OK;
      the flush ends, and the pipe holds its one message. */
  lemma YieldsAndFinishes() returns (s0: State, labels: seq<Label>, s: State)
    ensures Init(s0) && Run(s0, labels, s)
    ensures Yield(1) in labels && Return(1, FLB_OK) in labels
    ensures s.sent == [Message(1, FLB_OK, 0, 1)] && 1 in s.flushes && s.flushes[1].pc == Ended(FLB_OK)
  {
    hide *;
    s0 := N.World(Thread(Main, None, None, None), map[], None);
    labels := [];
    N.AtRest(s0);
    N.OneUsable(map[1 := N.FlushAt(1, InCallback, Main)]);
    labels := N.Launch(s0, labels, Main, None, None, map[], 1);
    assert map[][1 := N.FlushAt(1, InCallback, Main)] == map[1 := N.FlushAt(1, InCallback, Main)];
    assert map[][1 := N.FlushAt(1, Yielded, Main)] == map[1 := N.FlushAt(1, Yielded, Main)];
    var slot := Some(N.Args(1));
    var busy := N.World(Thread(Coroutine(1), Some(1), slot, None), map[1 := N.FlushAt(1, InCallback, Main)], None);
    var idle := N.World(Thread(Main, Some(1), slot, None), map[1 := N.FlushAt(1, Yielded, Main)], None);
    N.TakeYield(Main, Some(1), slot, map[], 1);
    var l1 := N.Extend(s0, labels, busy, Yield(1), idle);
    TakeResumeYielded(slot);
    var l2 := N.Extend(s0, l1, idle, Resume(1), busy);
    AtCallback(slot);
    var more;
    more, s := Finishes(s0, l2, busy, 1, FLB_OK, Passage(0, 0, 1, Main, false), InCallback, INACTIVE, []);
    assert l2 == labels + [Yield(1)] + [Resume(1)];
    assert more[0] == Return(1, FLB_OK);
    labels := l2 + more;
  }
}
