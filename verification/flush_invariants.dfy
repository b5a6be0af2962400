/** What every step of the flush protocol keeps. */
module FlushInvariants {
  import opened Prelude
  import opened FlushProtocol
  import opened FlushSteps

  // ------------------------------------------------------------ who is on a thread's stack

  /** Switched to and not switched out since: running, or below the one that runs. */
  predicate OnStack(pc: Pc) {
    !(pc.Born? || pc.Stored? || pc.Parked? || pc.Yielded? || pc.Ended?)
  }

  /** Inside code that never switches to anybody else. */
  predicate Busy(pc: Pc) {
    OnStack(pc) && !pc.InCallback?
  }

  predicate Resumed(pc: Pc) {
    Busy(pc) && !pc.Started? && !pc.Persisted?
  }

  predicate Placed(s: State, f: FlushId)
    requires f in s.flushes
  {
    s.flushes[f].thread in s.threads && s.flushes[f].task in s.tasks
  }

  function Active(s: State, f: FlushId): Context
    requires f in s.flushes && Placed(s, f)
  {
    s.threads[s.flushes[f].thread].active
  }

  predicate Below(s: State, f: FlushId, c: Context)
    requires f in s.flushes
  {
    c.Coroutine? ==>
      && c.f in s.flushes && c.f != f
      && s.flushes[c.f].thread == s.flushes[f].thread
      && s.flushes[c.f].pc == InCallback
  }

  /** A thread runs a coroutine of its own that is on its stack; while it creates one it runs
      the creator. */
  predicate ThreadOk(s: State, t: ThreadId)
    requires t in s.threads
  {
    var th := s.threads[t];
    && (th.active.Coroutine? ==>
          th.active.f in s.flushes && s.flushes[th.active.f].thread == t && OnStack(s.flushes[th.active.f].pc))
    && (th.creating.Some? ==>
          && th.creating.value in s.flushes
          && s.flushes[th.creating.value].thread == t
          && (s.flushes[th.creating.value].pc.Born? || s.flushes[th.creating.value].pc.Stored?)
          && s.flushes[th.creating.value].caller == th.active
          && (th.active.Coroutine? ==> s.flushes[th.active.f].pc == InCallback))
  }

  /** Who is busy is running, and is the one flb_coro_get names once it has been resumed; who is
      on the stack returns to somebody waiting below it; `caller` is the last resumer. */
  predicate FlushOk(s: State, f: FlushId)
    requires f in s.flushes
  {
    var fl := s.flushes[f];
    && Placed(s, f)
    && (Busy(fl.pc) ==> Active(s, f) == Coroutine(f))
    && (Resumed(fl.pc) ==> s.threads[fl.thread].current == Some(f))
    && (fl.pc.Born? || fl.pc.Stored? ==> s.threads[fl.thread].creating == Some(f))
    && (OnStack(fl.pc) ==> Below(s, f, fl.caller) && fl.caller != Active(s, f))
    && (fl.pc.Born? || fl.pc.Stored? || fl.resumer == Some(fl.caller))
  }

  predicate Apart(s: State, f: FlushId, g: FlushId)
    requires f in s.flushes && g in s.flushes
  {
    f != g && OnStack(s.flushes[f].pc) && OnStack(s.flushes[g].pc) && s.flushes[f].thread == s.flushes[g].thread ==>
      s.flushes[f].caller != s.flushes[g].caller
  }

  /** The active contexts of a thread form a stack, linked by `caller`. */
  ghost predicate Stacks(s: State) {
    && (forall t :: t in s.threads ==> ThreadOk(s, t))
    && (forall f :: f in s.flushes ==> FlushOk(s, f))
    && (forall f, g :: f in s.flushes && g in s.flushes ==> Apart(s, f, g))
  }

  // ------------------------------------------------------------ the shared parameter slot

  /** Between filling the slot and copying it nothing else can touch it, so what a flush copies
      is what its own creator wrote. */
  predicate ParamsOk(s: State, f: FlushId)
    requires f in s.flushes
  {
    var fl := s.flushes[f];
    && fl.thread in s.threads
    && fl.args.coro == f && fl.args.outFlush == f
    && (fl.pc.Stored? || fl.pc.Started? ==> s.threads[fl.thread].slot == Some(fl.args))
    && (!(fl.pc.Born? || fl.pc.Stored? || fl.pc.Started?) ==> fl.persisted == Some(fl.args))
  }

  ghost predicate Isolated(s: State) {
    forall f :: f in s.flushes ==> ParamsOk(s, f)
  }

  lemma InitIsolated(s: State)
    requires Init(s)
    ensures Stacks(s) && Isolated(s)
  {
  }

  /** The only step that writes a slot is the creator's Store, and then nobody else on that
      thread is between filling and copying. */
  lemma StoreIsolated(s: State, l: Label, f: FlushId)
    requires Stacks(s) && Isolated(s) && Enabled(s, l) && l.Store? && f in s.flushes
    ensures ParamsOk(Do(s, l), f)
  {
    assert FlushOk(s, f) && ParamsOk(s, f) && FlushOk(s, l.f) && ParamsOk(s, l.f);
    assert ThreadOk(s, s.flushes[l.f].thread);
    hide Stacks, Isolated;
  }

  lemma OwnIsolated(s: State, l: Label, s': State)
    requires OwnStep(s, l, s') && !l.Store? && (l.f in s.flushes ==> ParamsOk(s, l.f))
    ensures ParamsOk(s', l.f)
  {
    hide StatusSeen;
  }

  lemma OthersIsolated(s: State, l: Label, s': State, f: FlushId)
    requires Framed(s, l, s') && !l.Store? && f in s'.flushes && (f in s.flushes ==> ParamsOk(s, f))
    ensures ParamsOk(s', f)
  {
    if Outsider(l) {
    } else if f == l.f {
      OwnIsolated(s, l, s');
    } else {
      hide TaskStep, Changes, MayCreate;
    }
  }

  lemma IsolatedStep(s: State, l: Label)
    requires Stacks(s) && Isolated(s) && Enabled(s, l)
    ensures Isolated(Do(s, l))
  {
    FramedStep(s, l);
    var s' := Do(s, l);
    forall f | f in s'.flushes ensures ParamsOk(s', f) {
      assert f in s.flushes ==> ParamsOk(s, f);
      if l.Store? {
        StoreFlushes(s, l);
        StoreIsolated(s, l, f);
      } else {
        hide Enabled, Do, Framed;
        OthersIsolated(s, l, s', f);
      }
    }
  }

  lemma StoreFlushes(s: State, l: Label)
    requires Enabled(s, l) && l.Store?
    ensures Do(s, l).flushes.Keys == s.flushes.Keys
  {
  }

  // ------------------------------------------------------------ stacks, step by step

  /** Steps that leave the threads alone and keep a flush on the stack where it is. */
  lemma SamePlace(s: State, s': State, f: FlushId)
    requires Stacks(s) && f in s.flushes
    requires s'.threads == s.threads && s'.tasks.Keys == s.tasks.Keys
    requires f in s'.flushes && s'.flushes == s.flushes[f := s'.flushes[f]]
    requires var a, b := s.flushes[f], s'.flushes[f];
             && b.thread == a.thread && b.task == a.task && b.caller == a.caller && b.resumer == a.resumer
             && Busy(a.pc) && OnStack(b.pc) && (Resumed(b.pc) ==> Resumed(a.pc))
    ensures Stacks(s')
  {
    assert FlushOk(s, f);
    forall t | t in s'.threads ensures ThreadOk(s', t) {
      assert ThreadOk(s, t);
    }
    forall g | g in s'.flushes ensures FlushOk(s', g) {
      assert FlushOk(s, g);
    }
    forall g, h | g in s'.flushes && h in s'.flushes ensures Apart(s', g, h) {
      assert Apart(s, g, h);
    }
  }

  lemma TasksOnly(s: State, s': State)
    requires Stacks(s)
    requires s'.threads == s.threads && s'.tasks.Keys == s.tasks.Keys && s'.flushes == s.flushes
    ensures Stacks(s')
  {
    forall t | t in s'.threads ensures ThreadOk(s', t) {
      assert ThreadOk(s, t);
    }
    forall g | g in s'.flushes ensures FlushOk(s', g) {
      assert FlushOk(s, g);
    }
    forall g, h | g in s'.flushes && h in s'.flushes ensures Apart(s', g, h) {
      assert Apart(s, g, h);
    }
  }

  lemma CreateStacks(s: State, f: FlushId, born: Flush)
    requires Stacks(s) && Enabled(s, Create(f, born))
    ensures Stacks(Do(s, Create(f, born)))
  {
    var s' := Do(s, Create(f, born));
    forall t | t in s'.threads ensures ThreadOk(s', t) {
      assert ThreadOk(s, t);
    }
    forall g | g in s'.flushes ensures FlushOk(s', g) {
      if g != f {
        assert FlushOk(s, g);
      }
    }
    forall g, h | g in s'.flushes && h in s'.flushes ensures Apart(s', g, h) {
      if g != f && h != f {
        assert Apart(s, g, h);
      }
    }
  }

  lemma StoreStacks(s: State, f: FlushId)
    requires Stacks(s) && Enabled(s, Store(f))
    ensures Stacks(Do(s, Store(f)))
  {
    var s' := Do(s, Store(f));
    assert FlushOk(s, f);
    forall t | t in s'.threads ensures ThreadOk(s', t) {
      assert ThreadOk(s, t);
    }
    forall g | g in s'.flushes ensures FlushOk(s', g) {
      assert FlushOk(s, g);
    }
    forall g, h | g in s'.flushes && h in s'.flushes ensures Apart(s', g, h) {
      assert Apart(s, g, h);
    }
  }

  /** Switching to `f`: the context that was active becomes the one `f` returns to. */
  ghost predicate Pushes(s: State, s': State, f: FlushId) {
    && f in s.flushes && !OnStack(s.flushes[f].pc)
    && f in s'.flushes && s'.flushes == s.flushes[f := s'.flushes[f]] && s'.tasks.Keys == s.tasks.Keys
    && var a, b := s.flushes[f], s'.flushes[f];
    && var t := a.thread;
    && t in s.threads && t in s'.threads && s'.threads == s.threads[t := s'.threads[t]]
    && var th, th' := s.threads[t], s'.threads[t];
    && th'.active == Coroutine(f) && th'.creating == None
    && (th.creating.Some? ==> th.creating == Some(f))
    && (th.active.Coroutine? ==> th.active.f in s.flushes && s.flushes[th.active.f].pc == InCallback)
    && b.thread == a.thread && b.task == a.task && b.caller == th.active && b.resumer == Some(b.caller)
    && OnStack(b.pc) && (Resumed(b.pc) ==> th'.current == Some(f))
  }

  lemma PushThread(s: State, s': State, f: FlushId, u: ThreadId)
    requires Pushes(s, s', f) && u in s'.threads && ThreadOk(s, u)
    ensures ThreadOk(s', u)
  {
  }

  lemma PushFlush(s: State, s': State, f: FlushId, g: FlushId)
    requires Pushes(s, s', f) && g in s'.flushes && g in s.flushes && FlushOk(s, g) && FlushOk(s, f)
    requires ThreadOk(s, s.flushes[f].thread)
    ensures FlushOk(s', g)
  {
  }

  lemma PushApart(s: State, s': State, f: FlushId, g: FlushId, h: FlushId)
    requires Pushes(s, s', f) && g in s.flushes && h in s.flushes && Apart(s, g, h) && FlushOk(s, g) && FlushOk(s, h)
    ensures g in s'.flushes && h in s'.flushes && Apart(s', g, h)
  {
  }

  lemma PushStacks(s: State, s': State, f: FlushId)
    requires Stacks(s) && Pushes(s, s', f)
    ensures Stacks(s')
  {
    assert s'.flushes.Keys == s.flushes.Keys && s'.threads.Keys == s.threads.Keys;
    assert forall g :: g in s.flushes ==> FlushOk(s, g);
    assert forall u :: u in s.threads ==> ThreadOk(s, u);
    assert Placed(s, f);
    hide Pushes, ThreadOk, FlushOk, Apart;
    forall u | u in s'.threads ensures ThreadOk(s', u) {
      PushThread(s, s', f, u);
    }
    forall g | g in s'.flushes ensures FlushOk(s', g) {
      PushFlush(s, s', f, g);
    }
    forall g, h | g in s'.flushes && h in s'.flushes ensures Apart(s', g, h) {
      PushApart(s, s', f, g, h);
    }
  }

  /** Switching back from the running `f` to its caller. */
  lemma PopStacks(s: State, s': State, f: FlushId)
    requires Stacks(s) && f in s.flushes && OnStack(s.flushes[f].pc)
    requires Placed(s, f) && Active(s, f) == Coroutine(f) && s.threads[s.flushes[f].thread].creating == None
    requires f in s'.flushes && s'.flushes == s.flushes[f := s'.flushes[f]] && s'.tasks == s.tasks
    requires var a, b := s.flushes[f], s'.flushes[f];
             && b.thread == a.thread && b.task == a.task && b.caller == a.caller && b.resumer == a.resumer
             && !OnStack(b.pc) && !b.pc.Born? && !b.pc.Stored?
             && s'.threads == s.threads[a.thread := s.threads[a.thread].(active := a.caller)]
    ensures Stacks(s')
  {
    assert FlushOk(s, f);
    forall u | u in s'.threads ensures ThreadOk(s', u) {
      assert ThreadOk(s, u);
    }
    forall g | g in s'.flushes ensures FlushOk(s', g) {
      assert FlushOk(s, g) && Apart(s, f, g) && Apart(s, g, f);
    }
    forall g, h | g in s'.flushes && h in s'.flushes ensures Apart(s', g, h) {
      assert Apart(s, g, h);
    }
  }

  /** A flush that returns from its callback is the active one, so nobody waits above it. */
  lemma ReturnStacks(s: State, f: FlushId, ret: nat)
    requires Stacks(s) && Enabled(s, Return(f, ret))
    ensures Stacks(Do(s, Return(f, ret)))
  {
    var s' := Do(s, Return(f, ret));
    if s'.misdirected.Some? {
      TasksOnly(s, s');
    } else {
      TopStacks(s, s', f);
    }
  }

  lemma TopStacks(s: State, s': State, f: FlushId)
    requires Stacks(s) && f in s.flushes && s'.threads == s.threads && s'.tasks == s.tasks
    requires f in s'.flushes && s'.flushes == s.flushes[f := s.flushes[f].(pc := s'.flushes[f].pc)]
    requires OnStack(s.flushes[f].pc) && Resumed(s'.flushes[f].pc)
    requires Placed(s, f) && Active(s, f) == Coroutine(f)
    requires s.threads[s.flushes[f].thread].current == Some(f) && s.threads[s.flushes[f].thread].creating == None
    ensures Stacks(s')
  {
    assert FlushOk(s, f);
    forall t | t in s'.threads ensures ThreadOk(s', t) {
      assert ThreadOk(s, t);
    }
    forall g | g in s'.flushes ensures FlushOk(s', g) {
      assert FlushOk(s, g);
    }
    forall g, h | g in s'.flushes && h in s'.flushes ensures Apart(s', g, h) {
      assert Apart(s, g, h);
    }
  }

  lemma NotCreating(s: State, f: FlushId)
    requires Stacks(s) && f in s.flushes && Placed(s, f) && Active(s, f) == Coroutine(f) && Busy(s.flushes[f].pc)
    ensures s.threads[s.flushes[f].thread].creating == None
  {
    assert ThreadOk(s, s.flushes[f].thread);
  }

  lemma OwnFramed(s: State, l: Label, s': State)
    requires Framed(s, l, s') && !Outsider(l)
    ensures OwnStep(s, l, s') && s'.tasks.Keys == s.tasks.Keys
  {
    SameTasks(s, l, s');
  }

  predicate Running(l: Label) {
    Locking(l) || Inside(l) || l.Read? || l.Signal?
  }

  lemma RunningOn(l: Label, a: Pc, b: Pc)
    requires Moves(l, a, b) && Running(l)
    ensures Busy(a) && OnStack(b) && (Resumed(b) ==> Resumed(a))
  {
  }

  lemma RunningKeeps(s: State, l: Label, s': State)
    requires OwnStep(s, l, s') && Running(l)
    ensures s'.threads == s.threads
    ensures l.f in s.flushes && l.f in s'.flushes && s'.flushes == s.flushes[l.f := s'.flushes[l.f]]
    ensures var a, b := s.flushes[l.f], s'.flushes[l.f];
            b.thread in s.threads && Changes(l, a, b, s.threads[b.thread], StatusSeen(s, a))
  {
    hide Changes, StatusSeen;
  }

  /** The running flush stays where it is. */
  lemma RunningStacks(s: State, l: Label, s': State)
    requires Stacks(s) && OwnStep(s, l, s') && Running(l) && s'.tasks.Keys == s.tasks.Keys
    ensures Stacks(s')
  {
    hide OwnStep, Changes, Moves, Stacks, Busy, OnStack, Resumed, ThreadOk, FlushOk, Apart;
    RunningKeeps(s, l, s');
    var a, b := s.flushes[l.f], s'.flushes[l.f];
    ChangesKeep(l, a, b, s.threads[b.thread], StatusSeen(s, a));
    RunningOn(l, a.pc, b.pc);
    SamePlace(s, s', l.f);
  }

  lemma OutsiderStacks(s: State, l: Label, s': State)
    requires Stacks(s) && Framed(s, l, s') && Outsider(l)
    ensures Stacks(s')
  {
    SameTasks(s, l, s');
    hide Stacks;
    TasksOnly(s, s');
  }

  lemma ResumeStacks(s: State, f: FlushId)
    requires Stacks(s) && Enabled(s, Resume(f))
    ensures Stacks(Do(s, Resume(f)))
  {
    assert ThreadOk(s, s.flushes[f].thread);
    PushStacks(s, Do(s, Resume(f)), f);
  }

  lemma LeavingStacks(s: State, l: Label)
    requires Stacks(s) && Enabled(s, l) && (l.Yield? || l.End?)
    ensures Stacks(Do(s, l))
  {
    if l.End? {
      NotCreating(s, l.f);
    }
    PopStacks(s, Do(s, l), l.f);
  }

  lemma StacksStep(s: State, l: Label)
    requires Stacks(s) && Isolated(s) && Enabled(s, l)
    ensures Stacks(Do(s, l))
  {
    hide Stacks, Isolated, Enabled, Do, Framed;
    if l.Create? {
      CreateStacks(s, l.f, l.born);
    } else if l.Store? {
      StoreStacks(s, l.f);
    } else if l.SwitchIn? {
      SwitchInStacks(s, l.f);
    } else if l.Park? {
      ParkStacks(s, l.f);
    } else if l.Resume? {
      ResumeStacks(s, l.f);
    } else if l.Yield? || l.End? {
      LeavingStacks(s, l);
    } else if l.Return? {
      ReturnStacks(s, l.f, l.ret);
    } else {
      FramedStep(s, l);
      if Outsider(l) {
        OutsiderStacks(s, l, Do(s, l));
      } else {
        OwnFramed(s, l, Do(s, l));
        RunningStacks(s, l, Do(s, l));
      }
    }
  }

  lemma SwitchInStacks(s: State, f: FlushId)
    requires Stacks(s) && Enabled(s, SwitchIn(f))
    ensures Stacks(Do(s, SwitchIn(f)))
  {
    assert FlushOk(s, f) && ThreadOk(s, s.flushes[f].thread);
    PushStacks(s, Do(s, SwitchIn(f)), f);
  }

  lemma ParkStacks(s: State, f: FlushId)
    requires Stacks(s) && Isolated(s) && Enabled(s, Park(f))
    ensures Stacks(Do(s, Park(f)))
  {
    assert ParamsOk(s, f);
    NotCreating(s, f);
    PopStacks(s, Do(s, Park(f)), f);
  }
}
