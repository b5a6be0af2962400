/** flb_output_return_do asks flb_coro_get which coroutine is returning, and that is the one last
    resumed on the thread.  When coroutines resume coroutines it can be the wrong one: here is
    exactly when, and a run where it happens. */
module FlushNested {
  import opened Prelude
  import opened TaskRoutes
  import opened FlushProtocol
  import opened FlushSteps
  import opened FlushInvariants
  import opened FlushRuns

  /** The flush of the last Resume on thread `t`. */
  ghost function LastResume(flushes: map<FlushId, Flush>, labels: seq<Label>, t: ThreadId): Option<FlushId> {
    if labels == [] then None
    else
      var l := labels[|labels| - 1];
      if l.Resume? && l.f in flushes && flushes[l.f].thread == t then Some(l.f)
      else LastResume(flushes, labels[..|labels| - 1], t)
  }

  lemma CurrentResume(s: State, f: FlushId, t: ThreadId)
    requires Enabled(s, Resume(f)) && t in s.threads
    ensures t in Do(s, Resume(f)).threads
    ensures Do(s, Resume(f)).threads[t].current == if s.flushes[f].thread == t then Some(f) else s.threads[t].current
  {
  }

  lemma CurrentElse(s: State, l: Label, s': State, t: ThreadId)
    requires Framed(s, l, s') && !l.Resume? && t in s.threads
    ensures t in s'.threads && s'.threads[t].current == s.threads[t].current
  {
    hide TaskStep, Changes, MayCreate;
  }

  /** Only a Resume changes what flb_coro_get names. */
  lemma CurrentStep(s: State, l: Label, t: ThreadId)
    requires Enabled(s, l) && t in s.threads && (l.Resume? ==> l.f in s.flushes)
    ensures t in Do(s, l).threads
    ensures Do(s, l).threads[t].current ==
            if l.Resume? && s.flushes[l.f].thread == t then Some(l.f) else s.threads[t].current
  {
    hide Enabled, Do, Framed;
    if l.Resume? {
      CurrentResume(s, l.f, t);
    } else {
      FramedStep(s, l);
      CurrentElse(s, l, Do(s, l), t);
    }
  }

  ghost predicate ResumesKnown(flushes: map<FlushId, Flush>, labels: seq<Label>) {
    forall i :: 0 <= i < |labels| && labels[i].Resume? ==> labels[i].f in flushes
  }

  lemma {:induction false} LastResumeStable(a: map<FlushId, Flush>, b: map<FlushId, Flush>, labels: seq<Label>, t: ThreadId)
    requires ResumesKnown(a, labels)
    requires forall f :: f in a ==> f in b && b[f].thread == a[f].thread
    ensures LastResume(a, labels, t) == LastResume(b, labels, t)
  {
    if labels != [] {
      var n := |labels| - 1;
      assert forall i :: 0 <= i < n ==> labels[..n][i] == labels[i];
      LastResumeStable(a, b, labels[..n], t);
    }
  }

  lemma FlushesGrow(prior: State, l: Label, s: State)
    requires Framed(prior, l, s)
    ensures forall f :: f in prior.flushes ==> f in s.flushes && s.flushes[f].thread == prior.flushes[f].thread
    ensures l.Resume? ==> l.f in prior.flushes
    ensures s.threads.Keys == prior.threads.Keys
  {
    SameThreads(prior, l, s);
    hide Framed;
    forall f | f in prior.flushes ensures f in s.flushes && s.flushes[f].thread == prior.flushes[f].thread {
      FlushesStay(prior, l, s, f);
    }
  }

  lemma {:induction false} CurrentIsLastResumed(s0: State, labels: seq<Label>, s: State, t: ThreadId)
    requires Init(s0) && Run(s0, labels, s) && t in s.threads
    ensures ResumesKnown(s.flushes, labels)
    ensures s.threads[t].current == LastResume(s.flushes, labels, t)
  {
    hide Enabled, Do, Framed;
    if labels != [] {
      var n := |labels| - 1;
      var prior := Exec(s0, labels[..n]).value;
      var l := labels[n];
      assert Enabled(prior, l) && s == Do(prior, l);
      FramedStep(prior, l);
      FlushesGrow(prior, l, s);
      CurrentIsLastResumed(s0, labels[..n], prior, t);
      CurrentStep(prior, l, t);
      hide Exec, Init;
      LastStep(prior, l, s, labels[..n], t);
      assert labels == labels[..n] + [l];
    }
  }

  /** What LastResume and ResumesKnown say after one more step. */
  lemma LastStep(prior: State, l: Label, s: State, labels: seq<Label>, t: ThreadId)
    requires ResumesKnown(prior.flushes, labels) && (l.Resume? ==> l.f in prior.flushes)
    requires forall f :: f in prior.flushes ==> f in s.flushes && s.flushes[f].thread == prior.flushes[f].thread
    ensures ResumesKnown(s.flushes, labels + [l])
    ensures LastResume(s.flushes, labels + [l], t) ==
            if l.Resume? && prior.flushes[l.f].thread == t then Some(l.f) else LastResume(prior.flushes, labels, t)
  {
    assert (labels + [l])[..|labels|] == labels;
    LastResumeStable(prior.flushes, s.flushes, labels, t);
  }

  /** A return finishes the flush that called it if and only if that flush is the one last
      resumed on its thread. */
  lemma ReturnFinishesItsOwn(s0: State, labels: seq<Label>, s: State, f: FlushId, ret: nat)
    requires Init(s0) && Run(s0, labels, s) && Enabled(s, Return(f, ret))
    ensures Do(s, Return(f, ret)).misdirected == None <==> LastResume(s.flushes, labels, s.flushes[f].thread) == Some(f)
  {
    CurrentIsLastResumed(s0, labels, s, s.flushes[f].thread);
  }

  /** Resumed from the engine's own stack only, as the engine does, it always is. */
  lemma EngineReturnsFinishTheirOwn(s0: State, labels: seq<Label>, s: State, f: FlushId, ret: nat)
    requires Init(s0) && EngineRun(s0, labels, s) && Enabled(s, Return(f, ret))
    ensures var s' := Do(s, Return(f, ret));
            s'.misdirected == None && f in s'.flushes && s'.flushes[f].pc == RetWantLock(ret)
  {
    EngineRunFlat(s0, labels, s);
    assert Stacks(s);
    FlatReturn(s, Return(f, ret));
  }

  // ------------------------------------------------------------ a run where it goes wrong

  /** Flush `f` of task 0 on thread 0, with output `f`. */
  function Args(f: FlushId): Params {
    Params(0, f, 0, 0, 0, 0, f)
  }

  function FlushAt(f: FlushId, pc: Pc, caller: Context): Flush {
    Flush(0, 0, f, Args(f), pc, caller,
          if pc.Born? || pc.Stored? || pc.Started? then None else Some(Args(f)),
          if pc.Born? || pc.Stored? then None else Some(caller),
          if pc.Activated? || pc.InCallback? || pc.Yielded? || pc.Seen? then Some(INACTIVE) else None)
  }

  function World(th: Thread, flushes: map<FlushId, Flush>, lock: Option<Holder>): State {
    State(map[0 := th], flushes, map[0 := TaskState([], lock)], [], None)
  }

  predicate Usable(rest: map<FlushId, Flush>, f: FlushId, c: Context) {
    && f !in rest
    && (c.Coroutine? ==> c.f in rest && rest[c.f].pc == InCallback)
    && (forall g :: g in rest ==> rest[g].out != f)
  }

  ghost predicate Takes(w: State, l: Label, w': State) {
    Enabled(w, l) && Do(w, l) == w'
  }

  lemma TakeCreate(c: Context, cur: Option<FlushId>, slot: Option<Params>, rest: map<FlushId, Flush>, f: FlushId)
    requires Usable(rest, f, c)
    ensures Takes(World(Thread(c, cur, slot, None), rest, None), Create(f, FlushAt(f, Born, c)),
                  World(Thread(c, cur, slot, Some(f)), rest[f := FlushAt(f, Born, c)], None))
  {
  }

  lemma TakeStore(c: Context, cur: Option<FlushId>, slot: Option<Params>, rest: map<FlushId, Flush>, f: FlushId)
    ensures Takes(World(Thread(c, cur, slot, Some(f)), rest[f := FlushAt(f, Born, c)], None), Store(f),
                  World(Thread(c, cur, Some(Args(f)), Some(f)), rest[f := FlushAt(f, Stored, c)], None))
  {
    assert rest[f := FlushAt(f, Born, c)][f := FlushAt(f, Stored, c)] == rest[f := FlushAt(f, Stored, c)];
  }

  lemma TakeSwitchIn(c: Context, cur: Option<FlushId>, slot: Option<Params>, rest: map<FlushId, Flush>, f: FlushId)
    ensures Takes(World(Thread(c, cur, slot, Some(f)), rest[f := FlushAt(f, Stored, c)], None), SwitchIn(f),
                  World(Thread(Coroutine(f), cur, slot, None), rest[f := FlushAt(f, Started, c)], None))
  {
    assert rest[f := FlushAt(f, Stored, c)][f := FlushAt(f, Started, c)] == rest[f := FlushAt(f, Started, c)];
  }

  lemma TakeRead(c: Context, cur: Option<FlushId>, rest: map<FlushId, Flush>, f: FlushId)
    ensures Takes(World(Thread(Coroutine(f), cur, Some(Args(f)), None), rest[f := FlushAt(f, Started, c)], None), Read(f),
                  World(Thread(Coroutine(f), cur, Some(Args(f)), None), rest[f := FlushAt(f, Persisted, c)], None))
  {
    assert rest[f := FlushAt(f, Started, c)][f := FlushAt(f, Persisted, c)] == rest[f := FlushAt(f, Persisted, c)];
  }

  lemma TakePark(c: Context, cur: Option<FlushId>, slot: Option<Params>, rest: map<FlushId, Flush>, f: FlushId)
    ensures Takes(World(Thread(Coroutine(f), cur, slot, None), rest[f := FlushAt(f, Persisted, c)], None), Park(f),
                  World(Thread(c, cur, slot, None), rest[f := FlushAt(f, Parked, c)], None))
  {
    assert rest[f := FlushAt(f, Persisted, c)][f := FlushAt(f, Parked, c)] == rest[f := FlushAt(f, Parked, c)];
  }

  lemma TakeResume(c: Context, cur: Option<FlushId>, slot: Option<Params>, rest: map<FlushId, Flush>, f: FlushId)
    requires Usable(rest, f, c)
    ensures Takes(World(Thread(c, cur, slot, None), rest[f := FlushAt(f, Parked, c)], None), Resume(f),
                  World(Thread(Coroutine(f), Some(f), slot, None), rest[f := FlushAt(f, WantLock, c)], None))
  {
    assert rest[f := FlushAt(f, Parked, c)][f := FlushAt(f, WantLock, c)] == rest[f := FlushAt(f, WantLock, c)];
  }

  lemma TakeAcquire(th: Thread, c: Context, rest: map<FlushId, Flush>, f: FlushId)
    requires th.active == Coroutine(f)
    ensures Takes(World(th, rest[f := FlushAt(f, WantLock, c)], None), Acquire(f),
                  World(th, rest[f := FlushAt(f, Holding, c)], Some(ByFlush(f))))
  {
    assert rest[f := FlushAt(f, WantLock, c)][f := FlushAt(f, Holding, c)] == rest[f := FlushAt(f, Holding, c)];
  }

  lemma TakeSee(th: Thread, c: Context, rest: map<FlushId, Flush>, f: FlushId)
    requires th.active == Coroutine(f)
    ensures Takes(World(th, rest[f := FlushAt(f, Holding, c)], Some(ByFlush(f))), See(f),
                  World(th, rest[f := FlushAt(f, Seen(INACTIVE), c)], Some(ByFlush(f))))
  {
    assert rest[f := FlushAt(f, Holding, c)][f := FlushAt(f, Seen(INACTIVE), c)] == rest[f := FlushAt(f, Seen(INACTIVE), c)];
  }

  lemma TakeActivate(th: Thread, c: Context, rest: map<FlushId, Flush>, f: FlushId)
    requires th.active == Coroutine(f)
    ensures Takes(World(th, rest[f := FlushAt(f, Seen(INACTIVE), c)], Some(ByFlush(f))), Activate(f),
                  World(th, rest[f := FlushAt(f, Activated, c)], Some(ByFlush(f))))
  {
    assert rest[f := FlushAt(f, Seen(INACTIVE), c)][f := FlushAt(f, Activated, c)] == rest[f := FlushAt(f, Activated, c)];
  }

  lemma TakeRelease(th: Thread, c: Context, rest: map<FlushId, Flush>, f: FlushId)
    requires th.active == Coroutine(f)
    ensures Takes(World(th, rest[f := FlushAt(f, Activated, c)], Some(ByFlush(f))), Release(f),
                  World(th, rest[f := FlushAt(f, InCallback, c)], None))
  {
    assert rest[f := FlushAt(f, Activated, c)][f := FlushAt(f, InCallback, c)] == rest[f := FlushAt(f, InCallback, c)];
  }

  lemma TakeYield(c: Context, cur: Option<FlushId>, slot: Option<Params>, rest: map<FlushId, Flush>, f: FlushId)
    ensures Takes(World(Thread(Coroutine(f), cur, slot, None), rest[f := FlushAt(f, InCallback, c)], None), Yield(f),
                  World(Thread(c, cur, slot, None), rest[f := FlushAt(f, Yielded, c)], None))
  {
    assert rest[f := FlushAt(f, InCallback, c)][f := FlushAt(f, Yielded, c)] == rest[f := FlushAt(f, Yielded, c)];
  }

  lemma Extend(s0: State, labels: seq<Label>, w: State, l: Label, w': State) returns (more: seq<Label>)
    requires Run(s0, labels, w) && Takes(w, l, w')
    ensures more == labels + [l] && Run(s0, more, w')
  {
    more := labels + [l];
    assert more[..|labels|] == labels;
  }

  /** Flush `f` is created from context `c` and resumed from it, and gets into its callback. */
  lemma Launch(s0: State, labels: seq<Label>, c: Context, cur: Option<FlushId>, slot: Option<Params>,
               rest: map<FlushId, Flush>, f: FlushId) returns (more: seq<Label>)
    requires Usable(rest, f, c)
    requires Run(s0, labels, World(Thread(c, cur, slot, None), rest, None))
    ensures Run(s0, more, World(Thread(Coroutine(f), Some(f), Some(Args(f)), None), rest[f := FlushAt(f, InCallback, c)], None))
  {
    hide *;
    var p, co := Some(Args(f)), Coroutine(f);
    var th := Thread(co, Some(f), p, None);
    var w0 := World(Thread(c, cur, slot, None), rest, None);
    var w1 := World(Thread(c, cur, slot, Some(f)), rest[f := FlushAt(f, Born, c)], None);
    var w2 := World(Thread(c, cur, p, Some(f)), rest[f := FlushAt(f, Stored, c)], None);
    var w3 := World(Thread(co, cur, p, None), rest[f := FlushAt(f, Started, c)], None);
    var w4 := World(Thread(co, cur, p, None), rest[f := FlushAt(f, Persisted, c)], None);
    var w5 := World(Thread(c, cur, p, None), rest[f := FlushAt(f, Parked, c)], None);
    var w6 := World(th, rest[f := FlushAt(f, WantLock, c)], None);
    var w7 := World(th, rest[f := FlushAt(f, Holding, c)], Some(ByFlush(f)));
    var w8 := World(th, rest[f := FlushAt(f, Seen(INACTIVE), c)], Some(ByFlush(f)));
    var w9 := World(th, rest[f := FlushAt(f, Activated, c)], Some(ByFlush(f)));
    var w10 := World(th, rest[f := FlushAt(f, InCallback, c)], None);
    TakeCreate(c, cur, slot, rest, f);
    more := Extend(s0, labels, w0, Create(f, FlushAt(f, Born, c)), w1);
    TakeStore(c, cur, slot, rest, f);
    more := Extend(s0, more, w1, Store(f), w2);
    TakeSwitchIn(c, cur, p, rest, f);
    more := Extend(s0, more, w2, SwitchIn(f), w3);
    TakeRead(c, cur, rest, f);
    more := Extend(s0, more, w3, Read(f), w4);
    TakePark(c, cur, p, rest, f);
    more := Extend(s0, more, w4, Park(f), w5);
    TakeResume(c, cur, p, rest, f);
    more := Extend(s0, more, w5, Resume(f), w6);
    TakeAcquire(th, c, rest, f);
    more := Extend(s0, more, w6, Acquire(f), w7);
    TakeSee(th, c, rest, f);
    more := Extend(s0, more, w7, See(f), w8);
    TakeActivate(th, c, rest, f);
    more := Extend(s0, more, w8, Activate(f), w9);
    TakeRelease(th, c, rest, f);
    more := Extend(s0, more, w9, Release(f), w10);
  }

  lemma TakeWrongReturn(flushes: map<FlushId, Flush>, slot: Option<Params>, c: Context)
    requires 1 in flushes && flushes[1] == FlushAt(1, InCallback, c)
    ensures Takes(World(Thread(Coroutine(1), Some(2), slot, None), flushes, None), Return(1, FLB_OK),
                  World(Thread(Coroutine(1), Some(2), slot, None), flushes, None).(misdirected := Some((1, 2))))
  {
  }

  lemma AtRest(s: State)
    requires s == World(Thread(Main, None, None, None), map[], None)
    ensures Init(s) && Run(s, [], s)
  {
  }

  lemma OneUsable(one: map<FlushId, Flush>)
    requires one == map[1 := FlushAt(1, InCallback, Main)]
    ensures Usable(map[], 1, Main) && Usable(one, 2, Coroutine(1))
  {
  }

  /** Flush 1, resumed by the engine, creates and resumes flush 2; when 2 has yielded back and 1
      returns FLB_OK, it is 2 that flb_coro_get names. */
  lemma NestedReturnGoesAstray() returns (s0: State, labels: seq<Label>, s: State)
    ensures Init(s0) && Run(s0, labels, s)
    ensures s.misdirected == Some((1, 2))
  {
    hide *;
    s0 := World(Thread(Main, None, None, None), map[], None);
    labels := [];
    AtRest(s0);
    var one := map[1 := FlushAt(1, InCallback, Main)];
    assert map[][1 := FlushAt(1, InCallback, Main)] == one;
    OneUsable(one);
    labels := Launch(s0, labels, Main, None, None, map[], 1);
    labels := Launch(s0, labels, Coroutine(1), Some(1), Some(Args(1)), one, 2);
    var slot := Some(Args(2));
    var inside := one[2 := FlushAt(2, InCallback, Coroutine(1))];
    var back := one[2 := FlushAt(2, Yielded, Coroutine(1))];
    TakeYield(Coroutine(1), Some(2), slot, one, 2);
    labels := Extend(s0, labels, World(Thread(Coroutine(2), Some(2), slot, None), inside, None), Yield(2),
                     World(Thread(Coroutine(1), Some(2), slot, None), back, None));
    TakeWrongReturn(back, slot, Main);
    s := World(Thread(Coroutine(1), Some(2), slot, None), back, None).(misdirected := Some((1, 2)));
    labels := Extend(s0, labels, World(Thread(Coroutine(1), Some(2), slot, None), back, None), Return(1, FLB_OK), s);
  }
}
