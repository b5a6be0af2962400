/** The input side of the parameter hand-off (flb_input.h).  Unlike the output side it makes a new
    thread-specific key for every collect and keeps it in one variable that all threads share, so
    another thread can change which slot the callback will look in.  This module says exactly when
    the callback gets its own arguments. */
module CollectHandoff {
  import opened Prelude

  type ThreadId = nat
  type Key = nat
  type Address = nat

  /** Where a thread is in flb_input_coro_collect, input_params_set and input_pre_cb_collect. */
  datatype Pc =
    | Idle
    | Keyed(args: int)                                   // pthread_key_create has been called
    | Allocated(args: int, params: Address)              // found no block for the key, made one
    | Registered(args: int, params: Address, key: Key)   // block found or set under `key`
    | Filled(args: int, params: Address, key: Key)       // arguments written; about to switch
    | Entered(args: int, copied: Option<int>, key: Key, found: Key)  // callback about to run

  datatype State = State(
    key: Key,                                   // libco_in_param_key
    nextKey: Key,
    slots: map<(Key, ThreadId), Address>,       // pthread_getspecific
    nextBlock: Address,
    blocks: map<Address, Option<int>>,          // what each block holds; calloc leaves no arguments
    pcs: map<ThreadId, Pc>)

  datatype Label =
    | CreateKey(t: ThreadId, args: int, made: bool)   // out of keys, it leaves the variable as it is
    | Lookup(t: ThreadId)
    | Register(t: ThreadId)
    | Fill(t: ThreadId)
    | Enter(t: ThreadId)
    | Finish(t: ThreadId)

  predicate Enabled(s: State, l: Label) {
    l.t in s.pcs &&
    var pc := s.pcs[l.t];
    match l
    case CreateKey(_, _, _) => pc.Idle?
    case Lookup(_) => pc.Keyed?
    case Register(_) => pc.Allocated?
    case Fill(_) => pc.Registered?
    case Enter(t) => pc.Filled? && ((s.key, t) in s.slots ==> s.slots[(s.key, t)] in s.blocks)
    case Finish(_) => pc.Entered?
  }

  function Do(s: State, l: Label): State
    requires Enabled(s, l)
  {
    var pc := s.pcs[l.t];
    match l
    case CreateKey(t, args, made) =>
      if made then s.(key := s.nextKey, nextKey := s.nextKey + 1, pcs := s.pcs[t := Keyed(args)])
      else s.(pcs := s.pcs[t := Keyed(args)])
    case Lookup(t) =>
      if (s.key, t) in s.slots then s.(pcs := s.pcs[t := Registered(pc.args, s.slots[(s.key, t)], s.key)])
      else s.(blocks := s.blocks[s.nextBlock := None], nextBlock := s.nextBlock + 1, pcs := s.pcs[t := Allocated(pc.args, s.nextBlock)])
    case Register(t) =>
      s.(slots := s.slots[(s.key, t) := pc.params], pcs := s.pcs[t := Registered(pc.args, pc.params, s.key)])
    case Fill(t) =>
      s.(blocks := s.blocks[pc.params := Some(pc.args)], pcs := s.pcs[t := Filled(pc.args, pc.params, pc.key)])
    case Enter(t) =>
      if (s.key, t) in s.slots
      then s.(pcs := s.pcs[t := Entered(pc.args, s.blocks[s.slots[(s.key, t)]], pc.key, s.key)])
      else s.(blocks := s.blocks[s.nextBlock := None], nextBlock := s.nextBlock + 1, slots := s.slots[(s.key, t) := s.nextBlock],
              pcs := s.pcs[t := Entered(pc.args, None, pc.key, s.key)])
    case Finish(t) => s.(pcs := s.pcs[t := Idle])
  }

  ghost predicate Init(s: State) {
    && s.key < s.nextKey && s.slots == map[] && s.blocks == map[] && s.nextBlock == 0
    && forall t :: t in s.pcs ==> s.pcs[t] == Idle
  }

  ghost function Exec(s: State, labels: seq<Label>): Option<State> {
    if labels == [] then Some(s)
    else
      var n := |labels| - 1;
      var prior := Exec(s, labels[..n]);
      if prior.Some? && Enabled(prior.value, labels[n]) then Some(Do(prior.value, labels[n])) else None
  }

  // ------------------------------------------------------------ what every step keeps

  predicate HasBlock(pc: Pc) {
    pc.Allocated? || pc.Registered? || pc.Filled?
  }

  /** A thread's slots are under keys no newer than the current one, its block is its own, and from
      registration on it is the one its registration key leads to. */
  ghost predicate ThreadOk(s: State, t: ThreadId)
    requires t in s.pcs
  {
    var pc := s.pcs[t];
    && (HasBlock(pc) ==> pc.params in s.blocks)
    && (pc.Registered? || pc.Filled? ==>
          && pc.key <= s.key && (pc.key, t) in s.slots && s.slots[(pc.key, t)] == pc.params
          && forall k :: k > pc.key ==> (k, t) !in s.slots)
    && (pc.Filled? ==> s.blocks[pc.params] == Some(pc.args))
    && (pc.Entered? ==> pc.key <= pc.found && pc.copied == if pc.found == pc.key then Some(pc.args) else None)
  }

  /** Blocks are not shared: a slot and the block a thread works on lead to different blocks unless
      they belong to the same thread. */
  ghost predicate Separate(s: State) {
    && (forall b :: b in s.blocks ==> b < s.nextBlock)
    && (forall t :: t in s.pcs && HasBlock(s.pcs[t]) ==> s.pcs[t].params in s.blocks)
    && (forall k, t :: (k, t) in s.slots ==> k <= s.key && s.slots[(k, t)] in s.blocks && t in s.pcs)
    && (forall k, t, j, u :: (k, t) in s.slots && (j, u) in s.slots && u != t ==> s.slots[(k, t)] != s.slots[(j, u)])
    && (forall k, t, u :: (k, t) in s.slots && u in s.pcs && u != t && HasBlock(s.pcs[u]) ==> s.pcs[u].params != s.slots[(k, t)])
    && (forall t, u :: t in s.pcs && u in s.pcs && u != t && HasBlock(s.pcs[t]) && HasBlock(s.pcs[u]) ==>
          s.pcs[t].params != s.pcs[u].params)
  }

  ghost predicate Ok(s: State) {
    s.key < s.nextKey && Separate(s) && forall t :: t in s.pcs ==> ThreadOk(s, t)
  }

  lemma CreateSeparate(s: State, l: Label)
    requires s.key < s.nextKey && Separate(s) && Enabled(s, l) && l.CreateKey?
    ensures Do(s, l).key < Do(s, l).nextKey && Separate(Do(s, l))
  {
  }

  lemma FillSeparate(s: State, l: Label)
    requires s.key < s.nextKey && Separate(s) && Enabled(s, l) && ThreadOk(s, l.t) && (l.Fill? || l.Finish?)
    ensures Do(s, l).key < Do(s, l).nextKey && Separate(Do(s, l))
  {
  }

  lemma LookupSeparate(s: State, l: Label)
    requires s.key < s.nextKey && Separate(s) && Enabled(s, l) && ThreadOk(s, l.t) && l.Lookup?
    ensures Do(s, l).key < Do(s, l).nextKey && Separate(Do(s, l))
  {
  }

  lemma RegisterSeparate(s: State, l: Label)
    requires s.key < s.nextKey && Separate(s) && Enabled(s, l) && ThreadOk(s, l.t) && l.Register?
    ensures Do(s, l).key < Do(s, l).nextKey && Separate(Do(s, l))
  {
  }

  lemma EnterSeparate(s: State, l: Label)
    requires s.key < s.nextKey && Separate(s) && Enabled(s, l) && ThreadOk(s, l.t) && l.Enter?
    ensures Do(s, l).key < Do(s, l).nextKey && Separate(Do(s, l))
  {
  }

  lemma SeparateStep(s: State, l: Label)
    requires Ok(s) && Enabled(s, l)
    ensures Do(s, l).key < Do(s, l).nextKey && Separate(Do(s, l))
  {
    assert ThreadOk(s, l.t);
    if l.Lookup? {
      LookupSeparate(s, l);
    } else if l.Register? {
      RegisterSeparate(s, l);
    } else if l.Enter? {
      EnterSeparate(s, l);
    } else if l.CreateKey? {
      CreateSeparate(s, l);
    } else {
      FillSeparate(s, l);
    }
  }

  lemma OwnThread(s: State, l: Label)
    requires s.key < s.nextKey && Separate(s) && Enabled(s, l) && ThreadOk(s, l.t)
    ensures l.t in Do(s, l).pcs && ThreadOk(Do(s, l), l.t)
  {
  }

  lemma OtherThread(s: State, l: Label, t: ThreadId)
    requires s.key < s.nextKey && Separate(s) && Enabled(s, l) && ThreadOk(s, l.t)
    requires t in s.pcs && ThreadOk(s, t) && t != l.t
    ensures t in Do(s, l).pcs && ThreadOk(Do(s, l), t)
  {
  }

  lemma SameThreads(s: State, l: Label)
    requires Enabled(s, l)
    ensures Do(s, l).pcs.Keys == s.pcs.Keys
  {
  }

  lemma ThreadStep(s: State, l: Label, t: ThreadId)
    requires Ok(s) && Enabled(s, l) && t in Do(s, l).pcs
    ensures ThreadOk(Do(s, l), t)
  {
    SameThreads(s, l);
    assert l.t in s.pcs;
    hide Enabled, Do;
    assert ThreadOk(s, t) && ThreadOk(s, l.t);
    hide ThreadOk, Separate;
    if t == l.t {
      OwnThread(s, l);
    } else {
      OtherThread(s, l, t);
    }
  }

  lemma {:induction false} EveryRunOk(s0: State, labels: seq<Label>, s: State)
    requires Init(s0) && Exec(s0, labels) == Some(s)
    ensures Ok(s)
  {
    if labels != [] {
      var n := |labels| - 1;
      var prior := Exec(s0, labels[..n]).value;
      EveryRunOk(s0, labels[..n], prior);
      SeparateStep(prior, labels[n]);
      forall t | t in s.pcs ensures ThreadOk(s, t) {
        ThreadStep(prior, labels[n], t);
      }
    }
  }

  /** The callback runs with the arguments of its own collect if and only if the key it looks
      under is the one its block was registered under; otherwise it finds a fresh empty block,
      never somebody else's arguments. */
  lemma OwnArgumentsIffKeyUnchanged(s0: State, labels: seq<Label>, s: State, t: ThreadId)
    requires Init(s0) && Exec(s0, labels) == Some(s) && t in s.pcs && s.pcs[t].Entered?
    ensures var pc := s.pcs[t];
            && (pc.copied == Some(pc.args) <==> pc.found == pc.key)
            && (pc.copied == Some(pc.args) || pc.copied == None)
  {
    EveryRunOk(s0, labels, s);
    assert ThreadOk(s, t);
  }

  // ------------------------------------------------------------ keys and blocks

  /** How many keys a run has made. */
  function KeysMade(labels: seq<Label>): nat {
    if labels == [] then 0
    else KeysMade(labels[..|labels| - 1]) + if labels[|labels| - 1].CreateKey? && labels[|labels| - 1].made then 1 else 0
  }

  /** The variable holds the last key made, and what it held before as long as none is. */
  lemma {:induction false} KeyIsLastMade(s0: State, labels: seq<Label>, s: State)
    requires Init(s0) && Exec(s0, labels) == Some(s)
    ensures s.nextKey == s0.nextKey + KeysMade(labels)
    ensures s.key == if KeysMade(labels) == 0 then s0.key else s.nextKey - 1
  {
    if labels != [] {
      var n := |labels| - 1;
      KeyIsLastMade(s0, labels[..n], Exec(s0, labels[..n]).value);
    }
  }

  /** Block `b` is registered, or in the hands of a thread about to register it. */
  ghost predicate InUse(s: State, b: Address) {
    || (exists k, t :: (k, t) in s.slots && s.slots[(k, t)] == b)
    || (exists t :: t in s.pcs && s.pcs[t].Allocated? && s.pcs[t].params == b)
  }

  /** A thread about to register a block has found none under the key as it was then. */
  ghost predicate Pending(s: State, t: ThreadId)
    requires t in s.pcs
  {
    s.pcs[t].Allocated? ==> (s.key, t) !in s.slots
  }

  lemma InUseStep(s: State, l: Label, b: Address)
    requires Enabled(s, l) && l.t in s.pcs && Pending(s, l.t) && b in Do(s, l).blocks && (b in s.blocks ==> InUse(s, b))
    requires HasBlock(s.pcs[l.t]) ==> s.pcs[l.t].params in s.blocks
    ensures InUse(Do(s, l), b)
  {
    var s' := Do(s, l);
    if b in s.blocks {
      if k, t :| (k, t) in s.slots && s.slots[(k, t)] == b {
        assert (k, t) in s'.slots && s'.slots[(k, t)] == b;
      } else {
        var t :| t in s.pcs && s.pcs[t].Allocated? && s.pcs[t].params == b;
        if l == Register(t) {
          assert s'.slots[(s.key, t)] == b;
        } else {
          assert t in s'.pcs && s'.pcs[t] == s.pcs[t];
        }
      }
    } else if l.Lookup? {
      assert s'.pcs[l.t].Allocated? && s'.pcs[l.t].params == b;
    } else {
      assert s'.slots[(s.key, l.t)] == b;
    }
  }

  lemma PendingStep(s: State, l: Label, t: ThreadId)
    requires Separate(s) && s.key < s.nextKey && Enabled(s, l) && t in s.pcs && Pending(s, t)
    ensures t in Do(s, l).pcs && Pending(Do(s, l), t)
  {
  }

  /** No block is ever lost: a thread that finds one under the key uses that, and makes one only when
      it finds none, so every block is where some thread will find it or is about to be put there. */
  lemma {:induction false} NoBlockLost(s0: State, labels: seq<Label>, s: State)
    requires Init(s0) && Exec(s0, labels) == Some(s)
    ensures forall b :: b in s.blocks ==> InUse(s, b)
    ensures forall t :: t in s.pcs ==> Pending(s, t)
  {
    if labels != [] {
      var n := |labels| - 1;
      var prior, l := Exec(s0, labels[..n]).value, labels[n];
      NoBlockLost(s0, labels[..n], prior);
      EveryRunOk(s0, labels[..n], prior);
      assert Enabled(prior, l) && s == Do(prior, l);
      SameThreads(prior, l);
      assert l.t in prior.pcs && (HasBlock(prior.pcs[l.t]) ==> prior.pcs[l.t].params in prior.blocks);
      hide Exec, InUse, Pending, Enabled, Do, Separate, ThreadOk, Init;
      forall b | b in s.blocks ensures InUse(s, b) {
        InUseStep(prior, l, b);
      }
      forall t | t in s.pcs ensures Pending(s, t) {
        PendingStep(prior, l, t);
      }
    }
  }

  // ------------------------------------------------------------ everybody can go on

  /** Where a step takes its thread. */
  predicate Follows(l: Label, a: Pc, b: Pc) {
    match l
    case CreateKey(_, args, _) => a.Idle? && b == Keyed(args)
    case Lookup(_) => a.Keyed? && (b.Allocated? || b.Registered?) && b.args == a.args
    case Register(_) => a.Allocated? && b.Registered? && b.args == a.args && b.params == a.params
    case Fill(_) => a.Registered? && b == Filled(a.args, a.params, a.key)
    case Enter(_) => a.Filled? && b.Entered? && b.args == a.args && b.key == a.key
    case Finish(_) => a.Entered? && b.Idle?
  }

  /** The step a thread takes next; between collects it may begin one with any arguments. */
  predicate NextIs(l: Label, pc: Pc) {
    match pc
    case Idle => l.CreateKey?
    case Keyed(_) => l.Lookup?
    case Allocated(_, _) => l.Register?
    case Registered(_, _, _) => l.Fill?
    case Filled(_, _, _) => l.Enter?
    case Entered(_, _, _, _) => l.Finish?
  }

  /** In every reachable state every thread can take its next step, which takes it to the next place
      with the same arguments and leaves the other threads where they are. */
  lemma ThreadsGoOn(s0: State, labels: seq<Label>, s: State, l: Label)
    requires Init(s0) && Exec(s0, labels) == Some(s) && l.t in s.pcs && NextIs(l, s.pcs[l.t])
    ensures Enabled(s, l) && l.t in Do(s, l).pcs && Follows(l, s.pcs[l.t], Do(s, l).pcs[l.t])
    ensures forall t :: t in s.pcs && t != l.t ==> t in Do(s, l).pcs && Do(s, l).pcs[t] == s.pcs[t]
  {
    EveryRunOk(s0, labels, s);
    assert ThreadOk(s, l.t);
    hide Exec, Init, ThreadOk;
  }

  // ------------------------------------------------------------ one collecting thread, or more

  predicate OnlyThread(labels: seq<Label>, t: ThreadId) {
    forall i :: 0 <= i < |labels| && labels[i].CreateKey? ==> labels[i].t == t
  }

  /** With a single collecting thread the key stays put from registration to callback. */
  ghost predicate KeyHeld(s: State, t: ThreadId) {
    t in s.pcs && match s.pcs[t]
                  case Registered(_, _, key) => key == s.key
                  case Filled(_, _, key) => key == s.key
                  case Entered(_, _, key, found) => found == key
                  case _ => true
  }

  lemma {:induction false} SingleThreadKeepsKey(s0: State, labels: seq<Label>, s: State, t: ThreadId)
    requires Init(s0) && Exec(s0, labels) == Some(s) && OnlyThread(labels, t) && t in s0.pcs
    ensures KeyHeld(s, t)
  {
    if labels != [] {
      var n := |labels| - 1;
      assert forall i :: 0 <= i < n ==> labels[..n][i] == labels[i];
      SingleThreadKeepsKey(s0, labels[..n], Exec(s0, labels[..n]).value, t);
    }
  }

  /** So when only one thread ever collects, every callback runs with its own arguments, whatever
      order its collects come in. */
  lemma SingleThreadIsolation(s0: State, labels: seq<Label>, s: State, t: ThreadId)
    requires Init(s0) && Exec(s0, labels) == Some(s) && OnlyThread(labels, t) && t in s0.pcs
    requires t in s.pcs && s.pcs[t].Entered?
    ensures s.pcs[t].copied == Some(s.pcs[t].args)
  {
    SingleThreadKeepsKey(s0, labels, s, t);
    OwnArgumentsIffKeyUnchanged(s0, labels, s, t);
  }

  lemma Extend(s0: State, labels: seq<Label>, s: State, l: Label) returns (more: seq<Label>)
    requires Exec(s0, labels) == Some(s) && Enabled(s, l)
    ensures Exec(s0, more) == Some(Do(s, l))
  {
    more := labels + [l];
    assert more[..|labels|] == labels;
  }

  /** With two it can fail: thread 1 starts a collect while thread 0 is between filling its block
      and entering its callback, and thread 0 finds no arguments. */
  lemma TwoThreadsCanLose() returns (s0: State, labels: seq<Label>, s: State)
    ensures Init(s0) && Exec(s0, labels) == Some(s)
    ensures 0 in s.pcs && s.pcs[0] == Entered(7, None, 1, 2)
  {
    s0 := State(0, 1, map[], 0, map[], map[0 := Idle, 1 := Idle]);
    labels := [];
    s := s0;
    hide Exec;
    assert Exec(s0, labels) == Some(s) by { NoSteps(s0); }
    labels := Extend(s0, labels, s, CreateKey(0, 7, true));
    s := Do(s, CreateKey(0, 7, true));
    labels := Extend(s0, labels, s, Lookup(0));
    s := Do(s, Lookup(0));
    labels := Extend(s0, labels, s, Register(0));
    s := Do(s, Register(0));
    labels := Extend(s0, labels, s, Fill(0));
    s := Do(s, Fill(0));
    labels := Extend(s0, labels, s, CreateKey(1, 8, true));
    s := Do(s, CreateKey(1, 8, true));
    labels := Extend(s0, labels, s, Enter(0));
    s := Do(s, Enter(0));
  }

  lemma NoSteps(s: State)
    ensures Exec(s, []) == Some(s)
  {
  }
}
