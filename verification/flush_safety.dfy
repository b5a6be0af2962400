/** Locks, routes and signals of the flush protocol: what every step keeps. */
module FlushSafety {
  import opened Prelude
  import opened TaskRoutes
  import opened FlushProtocol
  import opened FlushSteps

  // ------------------------------------------------------------ the task lock

  /** Between flb_task_acquire_lock and flb_task_release_lock. */
  predicate Locked(pc: Pc) {
    pc.Holding? || pc.Seen? || pc.Activated? || pc.RetHolding? || pc.RetDeactivated?
  }

  predicate LockTold(s: State, k: TaskId)
    requires k in s.tasks
  {
    s.tasks[k].lock.Some? && s.tasks[k].lock.value.ByFlush? ==>
      var f := s.tasks[k].lock.value.f; f in s.flushes && s.flushes[f].task == k && Locked(s.flushes[f].pc)
  }

  predicate LockHeld(s: State, f: FlushId)
    requires f in s.flushes
  {
    s.flushes[f].task in s.tasks && (Locked(s.flushes[f].pc) ==> s.tasks[s.flushes[f].task].lock == Some(ByFlush(f)))
  }

  /** A flush holds its task's lock exactly inside the two critical sections. */
  ghost predicate Locks(s: State) {
    && (forall k :: k in s.tasks ==> LockTold(s, k))
    && (forall f :: f in s.flushes ==> LockHeld(s, f))
  }

  /** Which steps of a flush take it into a critical section and out of it. */
  lemma LockedMoves(l: Label, a: Pc, b: Pc)
    requires Moves(l, a, b) && !Outsider(l) && !l.Create?
    ensures Locked(b) <==> Taking(l) || Inside(l)
    ensures Locked(a) <==> Giving(l) || Inside(l)
  {
  }

  /** What a step does to the lock of task `k`. */
  ghost predicate LockStep(s: State, l: Label, s': State, k: TaskId)
    requires k in s.tasks && k in s'.tasks
  {
    var a, b := s.tasks[k].lock, s'.tasks[k].lock;
    if TaskOf(s, l) != Some(k) || !(Locking(l) || l.OtherLock? || l.OtherUnlock?) then b == a
    else
      && (Taking(l) ==> a == None && b == Some(ByFlush(l.f)))
      && (Giving(l) || l.OtherUnlock? ==> b == None)
      && (l.OtherLock? ==> a == None && b == Some(ByOther))
      && (l.OtherUnlock? ==> a == Some(ByOther))
  }

  lemma LockStepped(s: State, l: Label, s': State, k: TaskId)
    requires TaskStep(s, l, s') && k in s.tasks
    ensures k in s'.tasks && LockStep(s, l, s', k)
  {
    hide SetStatus, WrittenOut, WrittenStatus;
    if TaskOf(s, l) == Some(k) {
      hide TaskOf;
    } else {
      hide TaskOf, Taking, Giving, Writing, Switching, Private;
    }
  }

  /** A step of a flush, as far as locks are concerned. */
  ghost predicate PcStep(s: State, l: Label, s': State) {
    if Outsider(l) then s'.flushes == s.flushes
    else
      && l.f in s'.flushes && s'.flushes == s.flushes[l.f := s'.flushes[l.f]]
      && (if l.Create? then l.f !in s.flushes && s'.flushes[l.f].pc.Born? && s'.flushes[l.f].task in s.tasks
          else l.f in s.flushes && s'.flushes[l.f].task == s.flushes[l.f].task && Moves(l, s.flushes[l.f].pc, s'.flushes[l.f].pc))
  }

  lemma PcStepped(s: State, l: Label, s': State)
    requires Framed(s, l, s')
    ensures PcStep(s, l, s')
  {
    hide TaskStep, StatusSeen, Moves;
  }

  lemma HeldStep(s: State, l: Label, s': State, g: FlushId)
    requires PcStep(s, l, s') && TaskStep(s, l, s') && g in s'.flushes
    requires g in s.flushes ==> LockHeld(s, g)
    requires !Outsider(l) && l.f in s.flushes ==> LockHeld(s, l.f)
    ensures LockHeld(s', g)
  {
    if !Outsider(l) && !l.Create? {
      LockedMoves(l, s.flushes[l.f].pc, s'.flushes[l.f].pc);
    }
    LockStepped(s, l, s', s'.flushes[g].task);
    hide TaskStep, Moves;
  }

  lemma ToldStep(s: State, l: Label, s': State, k: TaskId)
    requires PcStep(s, l, s') && TaskStep(s, l, s') && k in s.tasks && LockTold(s, k)
    ensures k in s'.tasks && LockTold(s', k)
  {
    if !Outsider(l) && !l.Create? {
      LockedMoves(l, s.flushes[l.f].pc, s'.flushes[l.f].pc);
    }
    LockStepped(s, l, s', k);
    hide TaskStep, Moves;
  }

  lemma LocksStep(s: State, l: Label)
    requires Locks(s) && Enabled(s, l)
    ensures Locks(Do(s, l))
  {
    var s' := Do(s, l);
    FramedStep(s, l);
    hide Enabled, Do;
    PcStepped(s, l, s');
    SameTasks(s, l, s');
    assert TaskStep(s, l, s') && (!Outsider(l) && l.f in s.flushes ==> LockHeld(s, l.f));
    hide Framed, TaskStep, PcStep, LockHeld, LockTold;
    forall g | g in s'.flushes ensures LockHeld(s', g) {
      HeldStep(s, l, s', g);
    }
    forall k | k in s'.tasks ensures LockTold(s', k) {
      ToldStep(s, l, s', k);
    }
  }

  // ------------------------------------------------------------ the routes

  predicate Returning(pc: Pc) {
    pc.RetWantLock? || pc.RetHolding? || pc.RetDeactivated? || pc.RetReleased? || pc.Signalled? || pc.Ended?
  }

  /** Between activating its route and deactivating it. */
  predicate OnRoute(fl: Flush) {
    && fl.saw.Some? && fl.saw.value != DROPPED
    && (fl.pc.Activated? || fl.pc.InCallback? || fl.pc.Yielded? || fl.pc.RetWantLock? || fl.pc.RetHolding?)
  }

  /** What a flush knows of its route, which is there or not and has this status: a status read under
      the lock stays true under the lock; a flush that saw DROPPED is never in its callback and
      returns FLB_ERROR; from activation to return the route is not INACTIVE; once deactivated it
      is, until the lock is given up. */
  predicate Knows(fl: Flush, has: bool, status: nat) {
    && (fl.pc.Seen? ==> fl.saw == Some(fl.pc.status) && status == fl.pc.status)
    && (fl.pc.Activated? || fl.pc.InCallback? || fl.pc.Yielded? ==> fl.saw.Some? && fl.saw.value != DROPPED)
    && (fl.pc.Rejected? ==> fl.saw == Some(DROPPED))
    && (Returning(fl.pc) ==> fl.saw.Some? && fl.pc.ret <= FLB_RETRY && (fl.saw == Some(DROPPED) ==> fl.pc.ret == FLB_ERROR))
    && (fl.pc.Activated? && has ==> status == ACTIVE)
    && (OnRoute(fl) && has ==> status != INACTIVE)
    && (fl.pc.RetDeactivated? ==> status == INACTIVE)
  }

  predicate RouteKnown(s: State, f: FlushId)
    requires f in s.flushes
  {
    var fl := s.flushes[f];
    fl.task in s.tasks && Knows(fl, Has(s.tasks[fl.task].routes, fl.out), RouteStatus(s, fl.task, fl.out))
  }

  predicate SameRoute(a: Flush, b: Flush) {
    a.task == b.task && a.out == b.out
  }

  /** No two flushes of one route are under way at once. */
  predicate Alone(s: State, f: FlushId, g: FlushId)
    requires f in s.flushes && g in s.flushes
  {
    f != g && SameRoute(s.flushes[f], s.flushes[g]) ==> s.flushes[f].pc.Ended? || s.flushes[g].pc.Ended?
  }

  ghost predicate Owns(s: State, f: FlushId, k: TaskId, o: nat) {
    f in s.flushes && s.flushes[f].task == k && s.flushes[f].out == o && OnRoute(s.flushes[f])
  }

  /** An ACTIVE route is that of a flush between activation and return. */
  ghost predicate RouteOwned(s: State, k: TaskId, o: nat)
    requires k in s.tasks
  {
    RouteStatus(s, k, o) == ACTIVE ==> exists f :: Owns(s, f, k, o)
  }

  ghost predicate RoutesSafe(s: State) {
    && (forall f :: f in s.flushes ==> RouteKnown(s, f))
    && (forall f, g :: f in s.flushes && g in s.flushes ==> Alone(s, f, g))
    && (forall k, o :: k in s.tasks ==> RouteOwned(s, k, o))
  }

  lemma NotEnded(l: Label, a: Pc, b: Pc)
    requires Moves(l, a, b) && !Outsider(l) && !l.Create?
    ensures !a.Ended?
  {
  }

  lemma AloneStep(s: State, l: Label, s': State, f: FlushId, g: FlushId)
    requires Framed(s, l, s') && f in s'.flushes && g in s'.flushes
    requires f in s.flushes && g in s.flushes ==> Alone(s, f, g)
    ensures Alone(s', f, g)
  {
    if !Outsider(l) && !l.Create? {
      NotEnded(l, s.flushes[l.f].pc, s'.flushes[l.f].pc);
    }
    hide TaskStep, Moves, StatusSeen;
  }

  /** What the flush of the step knows afterwards: a step that writes no route... */
  lemma OwnKnows(l: Label, a: Flush, b: Flush, th: Thread, has: bool, status: nat)
    requires Changes(l, a, b, th, status) && !Outsider(l) && !l.Create? && !Writing(l) && Knows(a, has, status)
    ensures Knows(b, has, status)
  {
  }

  /** ...and one that does. */
  lemma WriterKnows(l: Label, a: Flush, b: Flush, th: Thread, has: bool, status: nat)
    requires Changes(l, a, b, th, status) && (l.Activate? || l.Deactivate?) && Knows(a, has, status)
    ensures Knows(b, has, if has then WrittenStatus(l) else INACTIVE)
  {
  }

  /** What a flush knows of a route that another step drops, or that another flush writes. */
  lemma OtherKnows(fl: Flush, has: bool, status: nat, after: nat)
    requires Knows(fl, has, status) && (fl.pc.Ended? || (!Locked(fl.pc) && after == DROPPED))
    ensures Knows(fl, has, after)
  {
  }

  lemma OwnKnown(s: State, l: Label, s': State)
    requires Framed(s, l, s') && !Outsider(l) && (l.f in s.flushes ==> RouteKnown(s, l.f))
    ensures l.f in s'.flushes && RouteKnown(s', l.f)
  {
    hide Knows, Changes, Has, RouteStatus, TaskStep;
    var b := s'.flushes[l.f];
    if l.Create? {
      SameTasks(s, l, s');
      NewKnows(b, Has(s'.tasks[b.task].routes, b.out), RouteStatus(s', b.task, b.out));
    } else {
      var a, th := s.flushes[l.f], s.threads[b.thread];
      ChangesKeep(l, a, b, th, StatusSeen(s, a));
      RouteStepped(s, l, s', b.task, b.out);
      var has, status := Has(s.tasks[b.task].routes, b.out), RouteStatus(s, b.task, b.out);
      if Writing(l) {
        WriterKnows(l, a, b, th, has, status);
      } else {
        OwnKnows(l, a, b, th, has, status);
      }
    }
  }

  lemma NewKnows(fl: Flush, has: bool, status: nat)
    requires fl.pc.Born?
    ensures Knows(fl, has, status)
  {
  }

  lemma OtherKnown(s: State, l: Label, s': State, g: FlushId)
    requires Framed(s, l, s') && g in s.flushes && (Outsider(l) || g != l.f) && RouteKnown(s, g) && LockHeld(s, g)
    requires !Outsider(l) && l.f in s.flushes ==> Alone(s, g, l.f) && LockHeld(s, l.f)
    ensures g in s'.flushes && RouteKnown(s', g)
  {
    var fl := s.flushes[g];
    FlushesStay(s, l, s', g);
    RouteStepped(s, l, s', fl.task, fl.out);
    if Writing(l) && TaskOf(s, l) == Some(fl.task) && WrittenOut(s, l) == fl.out {
      if !Outsider(l) {
        NotEnded(l, s.flushes[l.f].pc, s'.flushes[l.f].pc);
      }
      hide Knows, Moves;
      var has, status := Has(s.tasks[fl.task].routes, fl.out), RouteStatus(s, fl.task, fl.out);
      if has {
        OtherKnows(fl, has, status, WrittenStatus(l));
      } else {
        NoRoute(s.tasks[fl.task].routes, fl.out);
      }
    } else {
      hide Knows, Framed, RouteStatus, Has;
    }
  }

  lemma KnownStep(s: State, l: Label, s': State, g: FlushId)
    requires Locks(s) && RoutesSafe(s) && Framed(s, l, s') && g in s'.flushes
    ensures RouteKnown(s', g)
  {
    assert forall f :: f in s.flushes ==> RouteKnown(s, f) && LockHeld(s, f);
    if !Outsider(l) && g == l.f {
      hide Locks, RoutesSafe, RouteKnown, Framed, LockHeld;
      OwnKnown(s, l, s');
    } else {
      KeptBefore(s, l, s', g);
      assert !Outsider(l) && l.f in s.flushes ==> Alone(s, g, l.f);
      hide Locks, RoutesSafe, RouteKnown, Framed, LockHeld, Alone;
      OtherKnown(s, l, s', g);
    }
  }

  lemma KeptBefore(s: State, l: Label, s': State, g: FlushId)
    requires Framed(s, l, s') && g in s'.flushes && (Outsider(l) || g != l.f)
    ensures g in s.flushes
  {
    hide TaskStep;
  }

  /** Only Deactivate takes a flush off its route. */
  lemma StaysOnRoute(l: Label, a: Flush, b: Flush, th: Thread, status: nat)
    requires Changes(l, a, b, th, status) && !Outsider(l) && !l.Create? && !l.Deactivate? && OnRoute(a)
    ensures OnRoute(b)
  {
  }

  lemma OwnerStays(s: State, l: Label, s': State, f: FlushId, k: TaskId, o: nat)
    requires Framed(s, l, s') && Owns(s, f, k, o) && (l.Deactivate? ==> f != l.f)
    ensures Owns(s', f, k, o)
  {
    FlushesStay(s, l, s', f);
    if !Outsider(l) && !l.Create? && f == l.f {
      var b := s'.flushes[f];
      StaysOnRoute(l, s.flushes[f], b, s.threads[b.thread], StatusSeen(s, s.flushes[f]));
    }
    hide Framed, OnRoute, StatusSeen;
  }

  /** An ACTIVE route after the step was so before, or is the one just activated. */
  lemma ActivatedOwns(s: State, l: Label, s': State)
    requires Framed(s, l, s') && l.Activate? && RouteKnown(s, l.f)
    ensures Owns(s', l.f, s.flushes[l.f].task, s.flushes[l.f].out)
  {
    hide TaskStep, StatusSeen;
  }

  lemma OwnedStep(s: State, l: Label, s': State, k: TaskId, o: nat)
    requires Framed(s, l, s') && k in s.tasks && k in s'.tasks && RouteOwned(s, k, o)
    requires l.Activate? && l.f in s.flushes ==> RouteKnown(s, l.f)
    ensures RouteOwned(s', k, o)
  {
    hide Owns, RouteKnown, RouteStatus;
    if RouteStatus(s', k, o) == ACTIVE {
      FramedWriter(s, l, s');
      RouteStepped(s, l, s', k, o);
      if l.Activate? && TaskOf(s, l) == Some(k) && WrittenOut(s, l) == o {
        hide Framed;
        ActivatedOwns(s, l, s');
        assert Owns(s', l.f, k, o);
      } else {
        var f :| Owns(s, f, k, o);
        OwnsUnwritten(s, l, s', f, k, o);
        hide Framed;
        OwnerStays(s, l, s', f, k, o);
        assert Owns(s', f, k, o);
      }
    }
  }

  lemma FramedWriter(s: State, l: Label, s': State)
    requires Framed(s, l, s')
    ensures TaskStep(s, l, s')
    ensures Writing(l) && !Outsider(l) ==> l.f in s.flushes
  {
    hide TaskStep, Changes, MayCreate;
  }

  /** The owner of a route that is ACTIVE after the step is not the one that deactivates. */
  lemma OwnsUnwritten(s: State, l: Label, s': State, f: FlushId, k: TaskId, o: nat)
    requires Framed(s, l, s') && Owns(s, f, k, o) && k in s.tasks && k in s'.tasks && RouteStatus(s', k, o) == ACTIVE
    ensures l.Deactivate? ==> f != l.f
  {
    FramedWriter(s, l, s');
    RouteStepped(s, l, s', k, o);
    hide Framed, OnRoute, RouteStatus, Has;
  }

  lemma RoutesStep(s: State, l: Label)
    requires Locks(s) && RoutesSafe(s) && Enabled(s, l)
    ensures RoutesSafe(Do(s, l))
  {
    var s' := Do(s, l);
    FramedStep(s, l);
    hide Enabled, Do;
    RoutesKept(s, l, s');
  }

  lemma RoutesKept(s: State, l: Label, s': State)
    requires Locks(s) && RoutesSafe(s) && Framed(s, l, s')
    ensures RoutesSafe(s')
  {
    FramedWriter(s, l, s');
    SameTasks(s, l, s');
    hide Locks, Framed, RouteKnown, Alone, RouteOwned, TaskStep;
    forall f | f in s'.flushes ensures RouteKnown(s', f) {
      KnownStep(s, l, s', f);
    }
    forall f, g | f in s'.flushes && g in s'.flushes ensures Alone(s', f, g) {
      AloneStep(s, l, s', f, g);
    }
    forall k, o | k in s'.tasks ensures RouteOwned(s', k, o) {
      OwnedStep(s, l, s', k, o);
    }
  }
}
