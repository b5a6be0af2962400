/** What one step of the flush protocol touches: one flush, its thread, one task, and of these only
    what its kind allows.  The invariants are proved from this, so that most of their proofs need
    not look into the steps again. */
module FlushSteps {
  import opened Prelude
  import opened TaskRoutes
  import opened FlushProtocol

  // ------------------------------------------------------------ kinds of steps

  /** Switching to a flush. */
  predicate Arriving(l: Label) {
    l.SwitchIn? || l.Resume?
  }

  /** Switching away from one. */
  predicate Leaving(l: Label) {
    l.Park? || l.Yield? || l.End?
  }

  predicate Switching(l: Label) {
    l.Create? || Arriving(l) || Leaving(l)
  }

  /** Taking a lock. */
  predicate Taking(l: Label) {
    l.Acquire? || l.RetAcquire?
  }

  /** Giving it up. */
  predicate Giving(l: Label) {
    l.Release? || l.Reject? || l.RetRelease?
  }

  predicate Locking(l: Label) {
    Taking(l) || Giving(l)
  }

  /** Inside a critical section. */
  predicate Inside(l: Label) {
    l.See? || l.Activate? || l.Deactivate?
  }

  /** Writing one route. */
  predicate Writing(l: Label) {
    l.Activate? || l.Deactivate? || l.OtherDrop?
  }

  predicate Outsider(l: Label) {
    l.OtherLock? || l.OtherDrop? || l.OtherUnlock?
  }

  predicate Private(l: Label) {
    l.Store? || l.Read? || l.Return? || l.Signal?
  }

  // ------------------------------------------------------------ one step, seen from outside

  /** From where to where a step takes its flush. */
  predicate Moves(l: Label, a: Pc, b: Pc) {
    match l
    case Create(_, _) => b.Born?
    case Store(_) => a.Born? && b.Stored?
    case SwitchIn(_) => a.Stored? && b.Started?
    case Read(_) => a.Started? && b.Persisted?
    case Park(_) => a.Persisted? && b.Parked?
    case Resume(_) => (a.Parked? && b.WantLock?) || (a.Yielded? && b.InCallback?)
    case Acquire(_) => a.WantLock? && b.Holding?
    case See(_) => a.Holding? && b.Seen?
    case Activate(_) => a.Seen? && a.status != DROPPED && b.Activated?
    case Release(_) => a.Activated? && b.InCallback?
    case Reject(_) => a == Seen(DROPPED) && b.Rejected?
    case Yield(_) => a.InCallback? && b.Yielded?
    case Return(_, ret) =>
      (a.Rejected? || a.InCallback?) && (b == RetWantLock(ret) || b == a) && ret <= FLB_RETRY && (a.Rejected? ==> ret == FLB_ERROR)
    case RetAcquire(_) => a.RetWantLock? && b == RetHolding(a.ret)
    case Deactivate(_) => a.RetHolding? && b == RetDeactivated(a.ret)
    case RetRelease(_) => a.RetDeactivated? && b == RetReleased(a.ret)
    case Signal(_) => a.RetReleased? && b == Signalled(a.ret)
    case End(_) => a.Signalled? && b == Ended(a.ret)
    case _ => true
  }

  /** What a step does to the record of its flush, reading the thread and the route. */
  predicate Changes(l: Label, a: Flush, b: Flush, th: Thread, status: nat) {
    && Moves(l, a.pc, b.pc)
    && a.thread == b.thread && a.task == b.task && a.out == b.out && a.args == b.args
    && (if l.See? then b.pc == Seen(status) && b.saw == Some(status) else b.saw == a.saw)
    && b.persisted == (if l.Read? then th.slot else a.persisted)
    && (Arriving(l) || (b.caller == a.caller && b.resumer == a.resumer))
  }

  function StatusSeen(s: State, fl: Flush): nat {
    if fl.task in s.tasks then RouteStatus(s, fl.task, fl.out) else INACTIVE
  }

  /** A step of a flush changes that flush, and its thread only where switching and creating do. */
  ghost predicate OwnStep(s: State, l: Label, s': State) {
    && !Outsider(l)
    && l.f in s'.flushes && s'.flushes == s.flushes[l.f := s'.flushes[l.f]]
    && var b := s'.flushes[l.f];
    && b.thread in s.threads && b.thread in s'.threads 
    && var th, th' := s.threads[b.thread], s'.threads[b.thread];
    && s'.threads == s.threads[b.thread := th']
    && (Switching(l) || th' == th.(slot := th'.slot))
    && th'.current == (if l.Resume? then Some(l.f) else th.current)
    && th'.slot == (if l.Store? then Some(b.args) else th.slot)
    && (if l.Create? then MayCreate(s, l.f, l.born) && b == l.born
        else l.f in s.flushes && Changes(l, s.flushes[l.f], b, th, StatusSeen(s, s.flushes[l.f])))
  }

  /** The task whose lock or route a step may touch. */
  function TaskOf(s: State, l: Label): Option<TaskId> {
    if Outsider(l) then Some(l.k)
    else if l.f in s.flushes then Some(s.flushes[l.f].task)
    else None
  }

  function WrittenOut(s: State, l: Label): nat
    requires Outsider(l) || l.f in s.flushes
  {
    if l.OtherDrop? then l.o else if Outsider(l) then 0 else s.flushes[l.f].out
  }

  function WrittenStatus(l: Label): nat {
    if l.OtherDrop? then DROPPED else if l.Activate? then ACTIVE else INACTIVE
  }

  /** A step touches one task, its lock or one of its routes. */
  ghost predicate TaskStep(s: State, l: Label, s': State) {
    if Switching(l) || Private(l) || l.See? then s'.tasks == s.tasks
    else
      && TaskOf(s, l).Some?
      && var k := TaskOf(s, l).value;
      && k in s.tasks && k in s'.tasks && s'.tasks == s.tasks[k := s'.tasks[k]]
      && var a, b := s.tasks[k], s'.tasks[k];
      && (Writing(l) ==> b.lock == a.lock)
      && b.routes == (if Writing(l) then SetStatus(a.routes, WrittenOut(s, l), WrittenStatus(l)) else a.routes)
      && (Taking(l) ==> a.lock == None && b.lock == Some(ByFlush(l.f)))
      && (Giving(l) || l.OtherUnlock? ==> b.lock == None)
      && (l.OtherLock? ==> a.lock == None && b.lock == Some(ByOther))
      && (l.OtherUnlock? || l.OtherDrop? ==> a.lock == Some(ByOther))
  }

  function MessageOf(f: FlushId, fl: Flush): Message {
    Message(f, if fl.pc.Signalled? then fl.pc.ret else 0, fl.task, fl.out)
  }

  ghost predicate Framed(s: State, l: Label, s': State) {
    && TaskStep(s, l, s')
    && (if Outsider(l) then s'.flushes == s.flushes && s'.threads == s.threads else OwnStep(s, l, s'))
    && s'.sent == s.sent + (if l.Signal? && l.f in s'.flushes then [MessageOf(l.f, s'.flushes[l.f])] else [])
    && (l.Return? || s'.misdirected == None)
  }

  lemma ArrivingFramed(s: State, l: Label)
    requires Enabled(s, l) && (l.Create? || Arriving(l))
    ensures Framed(s, l, Do(s, l))
  {
    hide SetStatus, Status;
  }

  lemma ParkFramed(s: State, l: Label)
    requires Enabled(s, l) && l.Park?
    ensures Framed(s, l, Do(s, l))
  {
    hide SetStatus, Status;
  }

  lemma YieldFramed(s: State, l: Label)
    requires Enabled(s, l) && (l.Yield? || l.End?)
    ensures Framed(s, l, Do(s, l))
  {
    hide SetStatus, Status;
  }

  lemma TakingFramed(s: State, l: Label)
    requires Enabled(s, l) && Taking(l)
    ensures Framed(s, l, Do(s, l))
  {
    hide SetStatus, Status;
  }

  lemma ReleaseFramed(s: State, l: Label)
    requires Enabled(s, l) && (l.Release? || l.Reject?)
    ensures Framed(s, l, Do(s, l))
  {
    hide SetStatus, Status;
  }

  lemma RetReleaseFramed(s: State, l: Label)
    requires Enabled(s, l) && l.RetRelease?
    ensures Framed(s, l, Do(s, l))
  {
    hide SetStatus, Status;
  }

  lemma SeeFramed(s: State, l: Label)
    requires Enabled(s, l) && l.See?
    ensures Framed(s, l, Do(s, l))
  {
    hide SetStatus, Status;
  }

  lemma WritingFramed(s: State, l: Label)
    requires Enabled(s, l) && (l.Activate? || l.Deactivate?)
    ensures Framed(s, l, Do(s, l))
  {
    hide SetStatus, Status;
  }

  lemma SlotFramed(s: State, l: Label)
    requires Enabled(s, l) && (l.Store? || l.Read?)
    ensures Framed(s, l, Do(s, l))
  {
    hide SetStatus, Status;
  }

  lemma ReturnFramed(s: State, l: Label)
    requires Enabled(s, l) && l.Return?
    ensures Framed(s, l, Do(s, l))
  {
    hide SetStatus, Status;
  }

  lemma SignalFramed(s: State, l: Label)
    requires Enabled(s, l) && l.Signal?
    ensures Framed(s, l, Do(s, l))
  {
    hide SetStatus, Status;
  }

  lemma OutsiderFramed(s: State, l: Label)
    requires Enabled(s, l) && Outsider(l)
    ensures Framed(s, l, Do(s, l))
  {
    hide SetStatus, Status;
  }

  lemma FramedStep(s: State, l: Label)
    requires Enabled(s, l)
    ensures Framed(s, l, Do(s, l))
  {
    hide Enabled, Do, Framed;
    if l.Create? || Arriving(l) {
      ArrivingFramed(s, l);
    } else if l.Park? {
      ParkFramed(s, l);
    } else if l.Yield? || l.End? {
      YieldFramed(s, l);
    } else if Taking(l) {
      TakingFramed(s, l);
    } else if l.Release? || l.Reject? {
      ReleaseFramed(s, l);
    } else if l.RetRelease? {
      RetReleaseFramed(s, l);
    } else if l.See? {
      SeeFramed(s, l);
    } else if l.Activate? || l.Deactivate? {
      WritingFramed(s, l);
    } else if Outsider(l) {
      OutsiderFramed(s, l);
    } else if l.Store? || l.Read? {
      SlotFramed(s, l);
    } else if l.Return? {
      ReturnFramed(s, l);
    } else {
      SignalFramed(s, l);
    }
  }

  // ------------------------------------------------------------ read off that

  /** A step is about one flush, or none; none disappears or moves to another thread, task or
      output. */
  lemma FlushesStay(s: State, l: Label, s': State, g: FlushId)
    requires Framed(s, l, s') && g in s.flushes
    ensures g in s'.flushes
    ensures Outsider(l) || g != l.f ==> s'.flushes[g] == s.flushes[g]
    ensures var a, b := s.flushes[g], s'.flushes[g];
            b.thread == a.thread && b.task == a.task && b.out == a.out && b.args == a.args
  {
  }

  lemma ChangesKeep(l: Label, a: Flush, b: Flush, th: Thread, status: nat)
    requires Changes(l, a, b, th, status)
    ensures b.thread == a.thread && b.task == a.task && b.out == a.out && b.args == a.args && Moves(l, a.pc, b.pc)
    ensures Arriving(l) || (b.caller == a.caller && b.resumer == a.resumer)
  {
    hide Moves;
  }

  lemma SameTasks(s: State, l: Label, s': State)
    requires TaskStep(s, l, s')
    ensures s'.tasks.Keys == s.tasks.Keys
  {
    hide SetStatus, WrittenOut, WrittenStatus;
  }

  lemma SameThreads(s: State, l: Label, s': State)
    requires Framed(s, l, s')
    ensures s'.threads.Keys == s.threads.Keys
    ensures !Outsider(l) && !l.Create? ==> l.f in s.flushes
  {
  }

  lemma RoutesAfter(s: State, l: Label, s': State, k: TaskId)
    requires TaskStep(s, l, s') && k in s.tasks
    ensures Writing(l) ==> Outsider(l) || l.f in s.flushes
    ensures k in s'.tasks
    ensures s'.tasks[k].routes == if Writing(l) && TaskOf(s, l) == Some(k)
                                  then SetStatus(s.tasks[k].routes, WrittenOut(s, l), WrittenStatus(l))
                                  else s.tasks[k].routes
  {
    hide SetStatus, WrittenOut, WrittenStatus;
  }

  /** Writing steps set the status of the one route they write; SetThenGet says what that does to
      any other.  Other steps leave all routes as they are. */
  lemma RouteStepped(s: State, l: Label, s': State, k: TaskId, o: nat)
    requires TaskStep(s, l, s') && k in s.tasks
    ensures Writing(l) ==> Outsider(l) || l.f in s.flushes
    ensures k in s'.tasks
    ensures Has(s'.tasks[k].routes, o) <==> Has(s.tasks[k].routes, o)
    ensures RouteStatus(s', k, o) ==
            if Writing(l) && TaskOf(s, l) == Some(k) && WrittenOut(s, l) == o
            then (if Has(s.tasks[k].routes, o) then WrittenStatus(l) else INACTIVE)
            else RouteStatus(s, k, o)
  {
    hide TaskStep, TaskOf, WrittenOut, WrittenStatus, Has, Status, SetStatus;
    RoutesAfter(s, l, s', k);
    if !Has(s.tasks[k].routes, o) {
      NoRoute(s.tasks[k].routes, o);
    }
    if Writing(l) {
      SetThenGet(s.tasks[k].routes, WrittenOut(s, l), WrittenStatus(l), o);
    }
  }
}
