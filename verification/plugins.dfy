/** flb_plugins_unregister of flb_plugins.h: five lists, each drained by a loop that unlinks and frees
    the entry it stands on.  A plugin is identified with the list node it embeds. */
module Plugins {
  import opened Prelude
  import opened MkList

  datatype Call = Destroyed(plugin: ListNode) | Freed(plugin: ListNode)

  /** A plugin with a cb_destroy has it called once, right before it is unlinked and freed. */
  function CallsFor(plugin: ListNode, hasDestroy: set<ListNode>): seq<Call> {
    (if plugin in hasDestroy then [Destroyed(plugin)] else []) + [Freed(plugin)]
  }

  /** What draining `entries` does, in order. */
  ghost function DrainCalls(entries: seq<ListNode>, hasDestroy: set<ListNode>): seq<Call> {
    if entries == [] then [] else CallsFor(entries[0], hasDestroy) + DrainCalls(entries[1..], hasDestroy)
  }

  function CountOf<T(==)>(s: seq<T>, x: T): nat {
    if s == [] then 0 else (if s[0] == x then 1 else 0) + CountOf(s[1..], x)
  }

  lemma {:induction false} CountAppend<T>(s: seq<T>, t: seq<T>, x: T)
    ensures CountOf(s + t, x) == CountOf(s, x) + CountOf(t, x)
  {
    if s == [] {
      assert s + t == t;
    } else {
      assert (s + t)[1..] == s[1..] + t;
      CountAppend(s[1..], t, x);
    }
  }

  lemma CountOne<T>(y: T, x: T)
    ensures CountOf([y], x) == if y == x then 1 else 0
    ensures CountOf([], x) == 0
  {
  }

  lemma CountCalls(q: ListNode, hasDestroy: set<ListNode>, p: ListNode)
    ensures CountOf(CallsFor(q, hasDestroy), Freed(p)) == if p == q then 1 else 0
    ensures CountOf(CallsFor(q, hasDestroy), Destroyed(p)) == if p == q && q in hasDestroy then 1 else 0
  {
    hide CountOf;
    var before := if q in hasDestroy then [Destroyed(q)] else [];
    CountAppend(before, [Freed(q)], Freed(p));
    CountAppend(before, [Freed(q)], Destroyed(p));
    CountOne(Destroyed(q), Freed(p));
    CountOne(Destroyed(q), Destroyed(p));
    CountOne(Freed(q), Freed(p));
    CountOne(Freed(q), Destroyed(p));
  }

  lemma DistinctRest(entries: seq<ListNode>)
    requires Distinct(entries) && entries != []
    ensures Distinct(entries[1..]) && entries[0] !in entries[1..]
    ensures forall p :: p in entries <==> p == entries[0] || p in entries[1..]
  {
    assert entries == [entries[0]] + entries[1..];
  }

  /** Over a list without repetitions each entry is freed exactly once, and its cb_destroy is
      called exactly once if it has one and never otherwise. */
  lemma {:induction false} OncePerPlugin(entries: seq<ListNode>, hasDestroy: set<ListNode>, p: ListNode)
    requires Distinct(entries)
    ensures CountOf(DrainCalls(entries, hasDestroy), Freed(p)) == if p in entries then 1 else 0
    ensures CountOf(DrainCalls(entries, hasDestroy), Destroyed(p)) == if p in entries && p in hasDestroy then 1 else 0
  {
    hide CountOf, Distinct, CallsFor;
    if entries == [] {
      CountOne(Freed(p), Freed(p));
      CountOne(Freed(p), Destroyed(p));
    } else {
      var q, rest := entries[0], DrainCalls(entries[1..], hasDestroy);
      DistinctRest(entries);
      OncePerPlugin(entries[1..], hasDestroy, p);
      CountCalls(q, hasDestroy, p);
      CountAppend(CallsFor(q, hasDestroy), rest, Freed(p));
      CountAppend(CallsFor(q, hasDestroy), rest, Destroyed(p));
    }
  }

  /** The plugins freed, in order. */
  function FreedOf(calls: seq<Call>): seq<ListNode> {
    if calls == [] then []
    else FreedOf(calls[..|calls| - 1]) + if calls[|calls| - 1].Freed? then [calls[|calls| - 1].plugin] else []
  }

  lemma {:induction false} FreedAppend(a: seq<Call>, b: seq<Call>)
    ensures FreedOf(a + b) == FreedOf(a) + FreedOf(b)
  {
    if b == [] {
      assert a + b == a;
    } else {
      assert (a + b)[..|a + b| - 1] == a + b[..|b| - 1];
      FreedAppend(a, b[..|b| - 1]);
    }
  }

  /** Each cb_destroy is followed at once by the freeing of its plugin. */
  ghost predicate DestroyedThenFreed(calls: seq<Call>) {
    forall i :: 0 <= i < |calls| && calls[i].Destroyed? ==> i + 1 < |calls| && calls[i + 1] == Freed(calls[i].plugin)
  }

  lemma CallsForOrder(q: ListNode, hasDestroy: set<ListNode>)
    ensures FreedOf(CallsFor(q, hasDestroy)) == [q] && DestroyedThenFreed(CallsFor(q, hasDestroy))
  {
    var calls := CallsFor(q, hasDestroy);
    if q in hasDestroy {
      assert calls[..1] == [Destroyed(q)] && [Destroyed(q)][..0] == [];
      assert FreedOf([Destroyed(q)]) == [];
    } else {
      assert calls[..0] == [];
    }
  }

  /** The plugins are freed in the order of the list, and each cb_destroy is called right before its
      plugin is freed. */
  lemma {:induction false} DrainOrder(entries: seq<ListNode>, hasDestroy: set<ListNode>)
    ensures FreedOf(DrainCalls(entries, hasDestroy)) == entries && DestroyedThenFreed(DrainCalls(entries, hasDestroy))
  {
    if entries != [] {
      var first, rest := CallsFor(entries[0], hasDestroy), DrainCalls(entries[1..], hasDestroy);
      DrainOrder(entries[1..], hasDestroy);
      CallsForOrder(entries[0], hasDestroy);
      FreedAppend(first, rest);
      hide FreedOf, CallsFor;
      assert entries == [entries[0]] + entries[1..];
    }
  }

  /** Calls made so far, and those for the first of the entries left. */
  lemma DrainCallsFirst(calls: seq<Call>, entries: seq<ListNode>, hasDestroy: set<ListNode>)
    requires entries != []
    ensures var p := entries[0];
            calls + DrainCalls(entries, hasDestroy) ==
            (if p in hasDestroy then calls + [Destroyed(p)] else calls) + [Freed(p)] + DrainCalls(entries[1..], hasDestroy)
  {
  }

  lemma NoCalls(hasDestroy: set<ListNode>)
    ensures DrainCalls([], hasDestroy) == []
  {
  }

  ghost function First(head: ListNode, left: seq<ListNode>): ListNode {
    if left == [] then head else left[0]
  }

  lemma FirstTwo(head: ListNode, left: seq<ListNode>)
    requires Ring([head] + left)
    ensures head.next == First(head, left)
    ensures left != [] ==> left[0].next == First(head, left[1..])
    ensures left == [] ==> First(head, left).next == head
    ensures left != [] ==> First(head, left) != head
  {
    var r := [head] + left;
    assert left != [] ==> r[1] == left[0] && (|left| > 1 ==> r[2] == left[1]);
  }

  lemma InRing(head: ListNode, left: seq<ListNode>)
    requires Ring([head] + left)
    ensures head.prev != null && forall i :: 0 <= i < |left| ==> left[i].prev != null
  {
    assert forall i :: 0 <= i < |left| ==> left[i] == ([head] + left)[i + 1];
  }

  /** Unlinking the first entry: the list loses it, and it alone is cleared. */
  method DelFirst(entry: ListNode, head: ListNode, ghost left: seq<ListNode>)
    requires Ring([head] + left) && left != [] && left[0] == entry
    modifies entry, head, First(head, left[1..])
    ensures Ring([head] + left[1..])
    ensures entry.prev == null && entry.next == null
  {
    ghost var r := [head] + left;
    FirstTwo(head, left);
    assert r[1] == entry && entry.prev == r[0];
    Del(entry, r, 1);
    assert Without(r, 1) == [head] + left[1..];
  }

  /** One of the mk_list_foreach_safe loops; for custom, filter and processor plugins, which have
      no cb_destroy, `hasDestroy` is empty.  The next entry is read before the body unlinks the current
      one, so the walk never steps on a cleared link. */
  method Drain(head: ListNode, hasDestroy: set<ListNode>, ghost entries: seq<ListNode>) returns (calls: seq<Call>)
    requires Ring([head] + entries)
    modifies head, entries
    ensures calls == DrainCalls(entries, hasDestroy)
    ensures Ring([head])
    ensures forall x :: x in entries ==> x.prev == null && x.next == null
  {
    calls := [];
    ghost var left := entries;
    FirstTwo(head, left);
    hide Ring, DrainCalls;
    var curr := head.next;
    var tmp := curr.next;
    while curr != head
      invariant curr == First(head, left) && tmp == if left == [] then head else First(head, left[1..])
      invariant Ring([head] + left) && curr.next == tmp
      invariant forall x :: x in left ==> x in entries
      invariant forall x :: x in entries && x !in left ==> x.prev == null && x.next == null
      invariant calls + DrainCalls(left, hasDestroy) == DrainCalls(entries, hasDestroy)
      decreases |left|
    {
      DrainCallsFirst(calls, left, hasDestroy);
      if curr in hasDestroy {
        calls := calls + [Destroyed(curr)];
      }
      InRing(head, left);
      DelFirst(curr, head, left);
      calls := calls + [Freed(curr)];
      left := left[1..];
      FirstTwo(head, left);
      curr := tmp;
      tmp := curr.next;
    }
    FirstTwo(head, left);
    NoCalls(hasDestroy);
    assert [head] + left == [head];
  }

  // ------------------------------------------------------------ the five lists

  /** The plugin lists of a configuration, and which input and output plugins have a cb_destroy. */
  datatype Lists = Lists(custom: ListNode, inputs: ListNode, outputs: ListNode, filters: ListNode, processors: ListNode,
                         inDestroy: set<ListNode>, outDestroy: set<ListNode>) {
    function Heads(): (r: seq<ListNode>)
      ensures |r| == 5
    {
      [custom, inputs, outputs, filters, processors]
    }

    function HasDestroy(): (r: seq<set<ListNode>>)
      ensures |r| == 5
    {
      [{}, inDestroy, outDestroy, {}, {}]
    }
  }

  /** The calls for the first `n` lists, one list after the other. */
  ghost function UnregisterCalls(lists: Lists, rings: Rings, n: nat): seq<Call>
    requires n <= 5 == |rings| && forall k :: 0 <= k < 5 ==> |rings[k]| > 0
  {
    if n == 0 then []
    else UnregisterCalls(lists, rings, n - 1) + DrainCalls(Entries(rings[n - 1]), lists.HasDestroy()[n - 1])
  }

  ghost predicate Cleared(nodes: seq<ListNode>)
    reads nodes
  {
    forall i :: 0 <= i < |nodes| ==> nodes[i].prev == null && nodes[i].next == null
  }

  /** A list before its loop, and after it. */
  ghost predicate Emptied(ring: seq<ListNode>, done: bool)
    requires |ring| > 0
    reads ring
  {
    if done then Ring(ring[..1]) && Cleared(Entries(ring)) else Ring(ring)
  }

  /** The five lists are `rings`, apart from each other; the first `n` have been drained. */
  ghost predicate Drained(lists: Lists, rings: Rings, home: map<ListNode, nat>, n: nat)
    reads home.Keys
  {
    && |rings| == 5 && Indexed(rings, home)
    && (forall k :: 0 <= k < 5 ==> rings[k][0] == lists.Heads()[k])
    && (forall k :: 0 <= k < 5 ==> Emptied(rings[k], k < n))
  }

  method DrainList(head: ListNode, hasDestroy: set<ListNode>, ghost ring: seq<ListNode>) returns (calls: seq<Call>)
    requires |ring| > 0 && ring[0] == head && Emptied(ring, false)
    modifies ring
    ensures Emptied(ring, true) && calls == DrainCalls(Entries(ring), hasDestroy)
  {
    assert ring == [head] + Entries(ring) && ring[..1] == [head];
    hide Ring;
    calls := Drain(head, hasDestroy, Entries(ring));
  }

  /** One of the five loops. */
  method DrainNext(lists: Lists, head: ListNode, hasDestroy: set<ListNode>, before: seq<Call>,
                   ghost rings: Rings, ghost home: map<ListNode, nat>, ghost n: nat)
    returns (calls: seq<Call>)
    requires n < 5 && head == lists.Heads()[n] && hasDestroy == lists.HasDestroy()[n]
    requires Drained(lists, rings, home, n) && before == UnregisterCalls(lists, rings, n)
    modifies home.Keys
    ensures Drained(lists, rings, home, n + 1) && calls == UnregisterCalls(lists, rings, n + 1)
  {
    assert forall q, j :: 0 <= q < 5 && 0 <= j < |rings[q]| ==> rings[q][j] in home && home[rings[q][j]] == q;
    hide Emptied, DrainCalls;
    var more := DrainList(head, hasDestroy, rings[n]);
    calls := before + more;
  }

  /** flb_plugins_unregister: afterwards all five lists are empty and every plugin's links are
      cleared. */
  method Unregister(lists: Lists, ghost rings: Rings, ghost home: map<ListNode, nat>) returns (calls: seq<Call>)
    requires Drained(lists, rings, home, 0)
    modifies home.Keys
    ensures Drained(lists, rings, home, 5)
    ensures rings[0][0] == lists.custom && rings[1][0] == lists.inputs && rings[2][0] == lists.outputs
    ensures rings[3][0] == lists.filters && rings[4][0] == lists.processors
    ensures calls == UnregisterCalls(lists, rings, 5)
                  == DrainCalls(Entries(rings[0]), {}) + DrainCalls(Entries(rings[1]), lists.inDestroy)
                     + DrainCalls(Entries(rings[2]), lists.outDestroy) + DrainCalls(Entries(rings[3]), {})
                     + DrainCalls(Entries(rings[4]), {})
  {
    calls := DrainNext(lists, lists.custom, {}, [], rings, home, 0);
    calls := DrainNext(lists, lists.inputs, lists.inDestroy, calls, rings, home, 1);
    calls := DrainNext(lists, lists.outputs, lists.outDestroy, calls, rings, home, 2);
    calls := DrainNext(lists, lists.filters, {}, calls, rings, home, 3);
    calls := DrainNext(lists, lists.processors, {}, calls, rings, home, 4);
    CallsInOrder(lists, rings);
  }

  lemma CallsInOrder(lists: Lists, rings: Rings)
    requires |rings| == 5 && forall k :: 0 <= k < 5 ==> |rings[k]| > 0
    ensures UnregisterCalls(lists, rings, 5)
            == DrainCalls(Entries(rings[0]), {}) + DrainCalls(Entries(rings[1]), lists.inDestroy)
               + DrainCalls(Entries(rings[2]), lists.outDestroy) + DrainCalls(Entries(rings[3]), {})
               + DrainCalls(Entries(rings[4]), {})
  {
    hide DrainCalls, Entries;
    assert UnregisterCalls(lists, rings, 1) == DrainCalls(Entries(rings[0]), {});
    assert UnregisterCalls(lists, rings, 2) == UnregisterCalls(lists, rings, 1) + DrainCalls(Entries(rings[1]), lists.inDestroy);
    assert UnregisterCalls(lists, rings, 3) == UnregisterCalls(lists, rings, 2) + DrainCalls(Entries(rings[2]), lists.outDestroy);
    assert UnregisterCalls(lists, rings, 4) == UnregisterCalls(lists, rings, 3) + DrainCalls(Entries(rings[3]), {});
  }

  /** Over a whole unregistering every plugin of every list is freed exactly once; the cb_destroy of
      an input or output plugin that has one is called exactly once, and no other. */
  lemma {:induction false} UnregisterOncePerPlugin(lists: Lists, rings: Rings, home: map<ListNode, nat>, n: nat, k: nat, p: ListNode)
    requires n <= 5 == |rings| && Indexed(rings, home) && forall j :: 0 <= j < 5 ==> Distinct(rings[j])
    requires k < 5 && p in Entries(rings[k])
    ensures CountOf(UnregisterCalls(lists, rings, n), Freed(p)) == if k < n then 1 else 0
    ensures CountOf(UnregisterCalls(lists, rings, n), Destroyed(p)) ==
            if k < n && ((k == 1 && p in lists.inDestroy) || (k == 2 && p in lists.outDestroy)) then 1 else 0
  {
    if n > 0 {
      var entries, has := Entries(rings[n - 1]), lists.HasDestroy()[n - 1];
      UnregisterOncePerPlugin(lists, rings, home, n - 1, k, p);
      assert k == n - 1 || p !in entries by {
        forall i | 0 <= i < |entries| ensures rings[n - 1][i + 1] == entries[i] && home[entries[i]] == n - 1 {
        }
        var i :| 0 <= i < |Entries(rings[k])| && Entries(rings[k])[i] == p;
        assert rings[k][i + 1] == p;
      }
      OncePerPlugin(entries, has, p);
      hide DrainCalls, Distinct, Indexed;
      CountAppend(UnregisterCalls(lists, rings, n - 1), DrainCalls(entries, has), Freed(p));
      CountAppend(UnregisterCalls(lists, rings, n - 1), DrainCalls(entries, has), Destroyed(p));
    }
  }
}
