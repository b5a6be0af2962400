/** The users counter of a task (flb_task.h): who holds the task, and when it is destroyed. */
module TaskLifetime {
  import opened MkList
  import opened Prelude

  /** `destroyed` counts the calls of flb_task_destroy. */
  datatype Task = Task(users: int, retries: nat, destroyed: nat)

  datatype Op =
    | Inc                       // flb_task_users_inc
    | Dec(releaseCheck: bool)   // flb_task_users_dec
    | Release                   // flb_task_users_release
    | LinkRetry                 // a retry is created for the task
    | UnlinkRetry               // a retry is destroyed

  type History = seq<Op>

  const NEW_TASK := Task(0, 0, 0)

  function Released(t: Task): Task {
    if t.users == 0 && t.retries == 0 then t.(destroyed := t.destroyed + 1) else t
  }

  function Step(t: Task, op: Op): Task {
    match op
    case Inc => t.(users := t.users + 1)
    case Dec(check) => var u := t.(users := t.users - 1); if check then Released(u) else u
    case Release => Released(t)
    case LinkRetry => t.(retries := t.retries + 1)
    case UnlinkRetry => if t.retries > 0 then t.(retries := t.retries - 1) else t
  }

  function After(ops: History): Task {
    if ops == [] then NEW_TASK else Step(After(ops[..|ops| - 1]), ops[|ops| - 1])
  }

  // ------------------------------------------------------------ read off the history alone

  /** Increments without a decrement. */
  function Holders(ops: History): int {
    if ops == [] then 0
    else Holders(ops[..|ops| - 1]) + match ops[|ops| - 1] case Inc => 1 case Dec(_) => -1 case _ => 0
  }

  /** Retries linked and not unlinked. */
  function Linked(ops: History): int {
    if ops == [] then 0
    else Linked(ops[..|ops| - 1]) + match ops[|ops| - 1] case LinkRetry => 1 case UnlinkRetry => -1 case _ => 0
  }

  predicate Unheld(ops: History) {
    Holders(ops) == 0 && Linked(ops) == 0
  }

  predicate Checks(op: Op) {
    op.Release? || (op.Dec? && op.releaseCheck)
  }

  /** How often somebody checked when nobody held the task and no retry was linked. */
  function ZeroChecks(ops: History): nat {
    if ops == [] then 0
    else ZeroChecks(ops[..|ops| - 1]) + if Checks(ops[|ops| - 1]) && Unheld(ops) then 1 else 0
  }

  /** Each decrement matches an earlier increment and each unlinking an earlier link. */
  ghost predicate Matched(ops: History) {
    ops == [] ||
    var n := |ops| - 1;
    && Matched(ops[..n])
    && (ops[n].Dec? ==> Holders(ops[..n]) > 0)
    && (ops[n].UnlinkRetry? ==> Linked(ops[..n]) > 0)
  }

  lemma OneMore(ops: History, op: Op)
    ensures (ops + [op])[..|ops|] == ops
    ensures ZeroChecks(ops + [op]) == ZeroChecks(ops) + if Checks(op) && Unheld(ops + [op]) then 1 else 0
    ensures Holders(ops + [op]) == Holders(ops) + match op case Inc => 1 case Dec(_) => -1 case _ => 0
    ensures Linked(ops + [op]) == Linked(ops) + match op case LinkRetry => 1 case UnlinkRetry => -1 case _ => 0
  {
    assert (ops + [op])[..|ops|] == ops;
  }

  // ------------------------------------------------------------ when the task is destroyed

  /** Over every matched run the counters are what is outstanding, and the task is destroyed once
      for every check that finds it unheld: once at most exactly when there is one such check at
      most. */
  lemma {:induction false} DestroyedPerZeroCheck(ops: History)
    requires Matched(ops)
    ensures var t := After(ops); t.users == Holders(ops) >= 0 && t.retries == Linked(ops) && t.destroyed == ZeroChecks(ops)
    ensures After(ops).destroyed <= 1 <==> ZeroChecks(ops) <= 1
  {
    if ops != [] {
      DestroyedPerZeroCheck(ops[..|ops| - 1]);
    }
  }

  /** The next operation destroys the task if and only if it is a release while nobody holds the
      task, or the checked decrement of the last holder, and no retry is linked.  So the task is
      never destroyed under a holder or a retry, and a checked decrement to zero leaves it alive
      exactly when a retry is linked. */
  lemma NextDestroysIff(ops: History, op: Op)
    requires Matched(ops + [op])
    ensures After(ops + [op]).destroyed > After(ops).destroyed <==>
            Linked(ops) == 0 && ((op == Dec(true) && Holders(ops) == 1) || (op == Release && Holders(ops) == 0))
    ensures After(ops + [op]).destroyed > After(ops).destroyed ==> Unheld(ops + [op])
  {
    OneMore(ops, op);
    DestroyedPerZeroCheck(ops);
    DestroyedPerZeroCheck(ops + [op]);
  }

  /** Matching decrements to increments is not enough for a single destruction: two users who
      leave without a check and then both check destroy the task twice. */
  lemma DestroyedTwice() returns (ops: History)
    ensures Matched(ops) && After(ops).destroyed == 2
  {
    ops := [];
    hide Step;
    ops := Then(ops, Inc);
    ops := Then(ops, Inc);
    ops := Then(ops, Dec(false));
    ops := Then(ops, Dec(false));
    ops := Then(ops, Release);
    ops := Then(ops, Release);
    DestroyedPerZeroCheck(ops);
  }

  lemma Then(ops: History, op: Op) returns (more: History)
    requires Matched(ops) && (op.Dec? ==> Holders(ops) > 0) && (op.UnlinkRetry? ==> Linked(ops) > 0)
    ensures more == ops + [op] && Matched(more)
    ensures ZeroChecks(more) == ZeroChecks(ops) + if Checks(op) && Unheld(more) then 1 else 0
    ensures Holders(more) == Holders(ops) + match op case Inc => 1 case Dec(_) => -1 case _ => 0
    ensures Linked(more) == Linked(ops) + match op case LinkRetry => 1 case UnlinkRetry => -1 case _ => 0
  {
    more := ops + [op];
    OneMore(ops, op);
  }

  // ------------------------------------------------------------ a discipline that prevents it

  /** Somebody has just let go without checking. */
  predicate JustLetGo(ops: History) {
    ops != [] && (ops[|ops| - 1] == Dec(false) || ops[|ops| - 1] == UnlinkRetry)
  }

  /** References are passed on: after the first increment, who takes the task gets it from a
      holder or a retry, a retry is linked by a holder, and who releases either still has company
      or has just let go.  Each clause is about the moment of the call and nothing in it mentions
      destruction. */
  ghost predicate PassedOn(ops: History) {
    ops == [] ||
    var n := |ops| - 1;
    && PassedOn(ops[..n])
    && match ops[n]
       case Inc => n == 0 || !Unheld(ops[..n])
       case Dec(_) => Holders(ops[..n]) > 0
       case LinkRetry => Holders(ops[..n]) > 0
       case UnlinkRetry => Linked(ops[..n]) > 0
       case Release => !Unheld(ops[..n]) || JustLetGo(ops[..n])
  }

  lemma {:induction false} PassedOnMatched(ops: History)
    requires PassedOn(ops)
    ensures Matched(ops) && Linked(ops) >= 0
    ensures ZeroChecks(ops) <= 1
    ensures ZeroChecks(ops) == 1 ==> Unheld(ops) && Checks(ops[|ops| - 1])
  {
    if ops != [] {
      PassedOnMatched(ops[..|ops| - 1]);
    }
  }

  /** Under it the task is destroyed at most once, by the last operation of all: nobody is left
      who could do anything to it, release included. */
  lemma PassedOnDestroysOnce(ops: History)
    requires PassedOn(ops)
    ensures After(ops).destroyed <= 1
    ensures After(ops).destroyed == 1 ==> forall op :: !PassedOn(ops + [op])
  {
    PassedOnMatched(ops);
    DestroyedPerZeroCheck(ops);
    forall op ensures After(ops).destroyed == 1 ==> !PassedOn(ops + [op]) {
      OneMore(ops, op);
    }
  }

  // ------------------------------------------------------------ the functions

  /** A task with its list of retries on the heap. */
  class TaskUsers {
    var users: int
    const retries: ListNode          // the head of the list
    var destroyed: nat

    ghost var ring: seq<ListNode>    // that list, head first
    ghost var ops: History           // everything that was done to the task

    /** The fields are what the history says. */
    ghost predicate Valid()
      reads this, ring
    {
      && Ring(ring) && ring[0] == retries
      && users == Holders(ops)
      && |Entries(ring)| == Linked(ops)
      && destroyed == ZeroChecks(ops)
    }

    constructor ()
      ensures Valid() && ops == [] && fresh(ring)
    {
      users, destroyed, ops := 0, 0, [];
      retries := new ListNode();
      new;
      Init(retries);
      ring := [retries];
    }

    /** flb_task_users_release: destroys exactly if nobody holds the task and its list of retries
        has no entry. */
    method UsersRelease()
      requires Valid()
      modifies this
      ensures Valid() && ops == old(ops) + [Release] && ring == old(ring)
      ensures destroyed == old(destroyed) + if Unheld(old(ops)) then 1 else 0
    {
      OneMore(ops, Release);
      Check();
      ops := ops + [Release];
    }

    /** The test of flb_task_users_release. */
    method Check()
      requires Ring(ring) && ring[0] == retries
      modifies this`destroyed
      ensures destroyed == old(destroyed) + if users == 0 && Entries(ring) == [] then 1 else 0
    {
      var size := Size(retries, ring);
      if users == 0 && size == 0 {
        destroyed := destroyed + 1;
      }
    }

    /** flb_task_users_inc */
    method UsersInc()
      requires Valid()
      modifies this
      ensures Valid() && ops == old(ops) + [Inc] && ring == old(ring) && destroyed == old(destroyed)
    {
      OneMore(ops, Inc);
      users := users + 1;
      ops := ops + [Inc];
    }

    /** flb_task_users_dec: gives up one hold; checked, it destroys the task exactly if that was
        the last and no retry is in the list. */
    method UsersDec(releaseCheck: bool)
      requires Valid()
      modifies this
      ensures Valid() && ops == old(ops) + [Dec(releaseCheck)] && ring == old(ring)
      ensures destroyed == old(destroyed) + if releaseCheck && Holders(old(ops)) == 1 && Entries(ring) == [] then 1 else 0
    {
      OneMore(ops, Dec(releaseCheck));
      users := users - 1;
      if releaseCheck {
        Check();
      }
      ops := ops + [Dec(releaseCheck)];
    }

    /** A retry is linked behind the others. */
    method Link(retry: ListNode)
      requires Valid() && retry !in ring
      modifies this, ring, retry
      ensures Valid() && ops == old(ops) + [LinkRetry] && ring == old(ring) + [retry] && destroyed == old(destroyed)
    {
      OneMore(ops, LinkRetry);
      Add(retry, retries, ring);
      ring := ring + [retry];
      ops := ops + [LinkRetry];
    }

    /** A retry is unlinked, wherever it sits. */
    method Unlink(retry: ListNode, ghost k: nat)
      requires Valid() && 0 < k < |ring| && ring[k] == retry
      modifies this, ring
      ensures Valid() && ops == old(ops) + [UnlinkRetry] && ring == Without(old(ring), k) && destroyed == old(destroyed)
    {
      OneMore(ops, UnlinkRetry);
      assert retry.prev in ring && retry.next in ring;
      Del(retry, ring, k);
      ring := Without(ring, k);
      ops := ops + [UnlinkRetry];
    }
  }
}
