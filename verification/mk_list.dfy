/** The intrusive circular doubly linked list of mk_core/mk_list.h, on the heap.

    A list is a ring of nodes: the head (the sentinel the C code calls `head`) followed by
    its entries in order.  The ghost sequence `r` passed to each operation is that ring, with
    `r[0]` the head; what an operation does is stated as what happens to `r`.  The `modifies`
    clauses name the nodes whose links change, so every other ring is untouched.
 */
module MkList {
  import opened Prelude

  class ListNode {
    var prev: ListNode?
    var next: ListNode?

    /** mk_list_entry_init: a node that is in no list. */
    constructor ()
      ensures prev == null && next == null
    {
      prev, next := null, null;
    }
  }

  ghost predicate Distinct(r: seq<ListNode>) {
    forall i, j :: 0 <= i < j < |r| ==> r[i] != r[j]
  }

  /** `r` is a closed ring: following `next` visits `r` in order, following `prev` visits it
      in the opposite order, and both come back to where they started. */
  ghost predicate Ring(r: seq<ListNode>)
    reads r
  {
    && |r| > 0
    && Distinct(r)
    && r[0].prev == r[|r| - 1]
    && r[|r| - 1].next == r[0]
    && (forall i {:trigger r[i].next} :: 0 <= i < |r| - 1 ==> r[i].next == r[i + 1])
    && (forall i {:trigger r[i].prev} :: 0 < i < |r| ==> r[i].prev == r[i - 1])
  }

  /** The entries of the list headed by `r[0]`. */
  ghost function Entries(r: seq<ListNode>): seq<ListNode>
    requires |r| > 0
  {
    r[1..]
  }

  type Rings = seq<seq<ListNode>>

  /** Several rings without a common node: `home` tells for each linked node the one it is in. */
  ghost predicate Indexed(rings: Rings, home: map<ListNode, nat>) {
    && (forall p :: 0 <= p < |rings| ==> |rings[p]| > 0)
    && (forall p, i :: 0 <= p < |rings| && 0 <= i < |rings[p]| ==> rings[p][i] in home && home[rings[p][i]] == p)
  }

  ghost function Reversed<T>(s: seq<T>): (t: seq<T>)
    ensures |t| == |s|
  {
    if s == [] then [] else Reversed(s[1..]) + [s[0]]
  }

  lemma {:induction false} RingAgrees(r: seq<ListNode>, s: seq<ListNode>, i: nat)
    requires Ring(r) && Ring(s) && r[0] == s[0]
    requires i < |r| && i < |s|
    ensures r[i] == s[i]
  {
    if i > 0 {
      RingAgrees(r, s, i - 1);
      assert r[i - 1].next == r[i] && s[i - 1].next == s[i];
    }
  }

  lemma {:induction false} RingNotLonger(r: seq<ListNode>, s: seq<ListNode>)
    requires Ring(r) && Ring(s) && r[0] == s[0]
    ensures |r| <= |s|
  {
    if |s| < |r| {
      RingAgrees(r, s, |s| - 1);
    }
  }

  /** The heap determines the list: a head belongs to at most one ring.  So the ghost ring
      every operation takes is the list itself, not a choice of the caller. */
  lemma RingUnique(r: seq<ListNode>, s: seq<ListNode>)
    requires Ring(r) && Ring(s) && r[0] == s[0]
    ensures r == s
  {
    RingNotLonger(r, s);
    RingNotLonger(s, r);
    forall i | 0 <= i < |r| ensures r[i] == s[i] {
      RingAgrees(r, s, i);
    }
  }

  /** mk_list_init */
  method Init(list: ListNode)
    modifies list
    ensures Ring([list])
  {
    list.next := list;
    list.prev := list;
  }

  /** __mk_list_add: link `node` between the neighbours `prev` and `next`. */
  method LinkBetween(node: ListNode, prev: ListNode, next: ListNode, ghost r: seq<ListNode>, ghost k: nat)
    requires Ring(r) && node !in r
    requires k < |r| && prev == r[k] && next == (if k + 1 < |r| then r[k + 1] else r[0])
    modifies node, prev, next
    ensures Ring(r[..k + 1] + [node] + r[k + 1..])
  {
    next.prev := node;
    node.next := next;
    node.prev := prev;
    prev.next := node;
  }

  /** mk_list_add: `node` becomes the last entry. */
  method Add(node: ListNode, head: ListNode, ghost r: seq<ListNode>)
    requires Ring(r) && r[0] == head && node !in r
    modifies node, head, r[|r| - 1]
    ensures Ring(r + [node])
  {
    LinkBetween(node, head.prev, head, r, |r| - 1);
    assert r[..|r|] + [node] + r[|r|..] == r + [node];
  }

  /** mk_list_add_after: `node` goes right after `prev`, which sits at position `k` of the
      ring.  With exactly one entry the code appends whatever `prev` is, so asking for "after
      the head" then puts the node last instead of first. */
  method AddAfter(node: ListNode, prev: ListNode, head: ListNode, ghost r: seq<ListNode>, ghost k: nat)
    requires Ring(r) && r[0] == head && node !in r
    requires k < |r| && prev == r[k]
    modifies node, r
    ensures Ring(if |r| == 2 then r + [node] else r[..k + 1] + [node] + r[k + 1..])
  {
    assert r[..|r|] + [node] + r[|r|..] == r + [node];
    if head.prev == head.next || head.prev == prev {
      assert |r| <= 2 || k == |r| - 1;
      Add(node, head, r);
      return;
    }
    var next := prev.next;
    node.next := next;
    node.prev := prev;
    prev.next := node;
    next.prev := node;
  }

  /** mk_list_is_empty: 0 when the list has no entries, -1 otherwise. */
  method IsEmpty(head: ListNode, ghost r: seq<ListNode>) returns (ret: int)
    requires Ring(r) && r[0] == head
    ensures ret == if Entries(r) == [] then 0 else -1
  {
    if head.next == head {
      return 0;
    } else {
      return -1;
    }
  }

  /** mk_list_add_before: nothing happens on a null argument; "before the head" means last. */
  method AddBefore(node: ListNode?, next: ListNode?, head: ListNode?, ghost r: seq<ListNode>, ghost k: nat)
    requires Ring(r)
    requires head != null ==> r[0] == head
    requires node != null ==> node !in r
    requires next != null ==> k < |r| && next == r[k]
    modifies if node != null && next != null && head != null then {node} + (set x | x in r) else {}
    ensures node != null && next != null && head != null ==>
              Ring(if k == 0 then r + [node] else r[..k] + [node] + r[k..])
  {
    if node == null || next == null || head == null {
      return;
    }
    var e := IsEmpty(head, r);
    if e == 0 || next == head {
      Add(node, head, r);
      return;
    }
    var prev := next.prev;
    node.next := next;
    node.prev := prev;
    prev.next := node;
    next.prev := node;
  }

  /** mk_list_append: same meaning as Add. */
  method Append(node: ListNode, head: ListNode, ghost r: seq<ListNode>)
    requires Ring(r) && r[0] == head && node !in r
    modifies node, r
    ensures Ring(r + [node])
  {
    var e := IsEmpty(head, r);
    if e == 0 {
      LinkBetween(node, head.prev, head, r, |r| - 1);
    } else {
      AddAfter(node, head.prev, head, r, |r| - 1);
    }
    assert r[..|r|] + [node] + r[|r|..] == r + [node];
  }

  /** mk_list_prepend: `node` becomes the first entry. */
  method Prepend(node: ListNode, head: ListNode, ghost r: seq<ListNode>)
    requires Ring(r) && r[0] == head && node !in r
    modifies node, r
    ensures Ring([head, node] + Entries(r))
  {
    var e := IsEmpty(head, r);
    if e == 0 {
      LinkBetween(node, head.prev, head, r, |r| - 1);
      assert r[..|r|] + [node] + r[|r|..] == [head, node] + Entries(r);
    } else {
      AddBefore(node, head.next, head, r, 1);
      assert r[..1] + [node] + r[1..] == [head, node] + Entries(r);
    }
  }

  /** mk_list_del: unlink the node at position `k` and clear its links, which is how the
      event loop later sees that it is in no list. */
  method Del(entry: ListNode, ghost r: seq<ListNode>, ghost k: nat)
    requires Ring(r) && |r| >= 2 && k < |r| && r[k] == entry
    modifies entry, entry.prev, entry.next
    ensures Ring(Without(r, k))
    ensures entry.prev == null && entry.next == null
  {
    var prev, next := entry.prev, entry.next;
    prev.next := next;
    next.prev := prev;
    entry.prev := null;
    entry.next := null;
  }

  /** mk_list_size */
  method Size(head: ListNode, ghost r: seq<ListNode>) returns (ret: nat)
    requires Ring(r) && r[0] == head
    ensures ret == |Entries(r)|
  {
    ret := 0;
    var it := head.next;
    while it != head
      invariant ret < |r|
      invariant it == if ret + 1 < |r| then r[ret + 1] else r[0]
      decreases |r| - ret
    {
      it := it.next;
      ret := ret + 1;
    }
  }

  /** mk_list_foreach, collecting what the loop body sees. */
  method Forward(head: ListNode, ghost r: seq<ListNode>) returns (seen: seq<ListNode>)
    requires Ring(r) && r[0] == head
    ensures seen == Entries(r)
  {
    seen := [];
    var curr := head.next;
    while curr != head
      invariant |seen| < |r| && seen == r[1..|seen| + 1]
      invariant curr == if |seen| + 1 < |r| then r[|seen| + 1] else r[0]
      decreases |r| - |seen|
    {
      seen := seen + [curr];
      curr := curr.next;
    }
  }

  lemma ReversedCons<T>(x: T, s: seq<T>)
    ensures Reversed([x] + s) == Reversed(s) + [x]
  {
    assert ([x] + s)[1..] == s;
  }

  /** mk_list_foreach_r: the backward traversal sees the mirror image of the forward one. */
  method Backward(head: ListNode, ghost r: seq<ListNode>) returns (seen: seq<ListNode>)
    requires Ring(r) && r[0] == head
    ensures seen == Reversed(Entries(r))
  {
    seen := [];
    var curr := head.prev;
    ghost var k := |r| - 1;
    assert r[|r|..] == [];
    while curr != head
      invariant 0 <= k < |r| && curr == r[k]
      invariant seen == Reversed(r[k + 1..])
      decreases k
    {
      assert r[k..] == [r[k]] + r[k + 1..];
      ReversedCons(r[k], r[k + 1..]);
      seen := seen + [curr];
      curr := curr.prev;
      k := k - 1;
    }
  }

  /** mk_list_cat: the entries of `list` move behind those of `head`.  The sentinel `list`
      itself stays outside the resulting ring, also when it had no entries. */
  method Cat(list: ListNode, head: ListNode, ghost rl: seq<ListNode>, ghost rh: seq<ListNode>)
    requires Ring(rl) && rl[0] == list
    requires Ring(rh) && rh[0] == head
    requires forall x :: x in rl ==> x !in rh
    modifies rl, rh
    ensures Ring(rh + Entries(rl)) && list !in rh + Entries(rl)
  {
    ghost var r := rh + Entries(rl);
    assert Distinct(r) by {
      forall i, j | 0 <= i < |rh| && 0 <= j < |rl| ensures rh[i] != rl[j] {
        assert rl[j] in rl && rh[i] in rh;
      }
    }
    assert forall i :: 0 < i < |rl| ==> rl[i] == r[|rh| + i - 1];
    var last := head.prev;
    last.next := list.next;
    list.next.prev := last;
    list.prev.next := head;
    head.prev := list.prev;
  }
}
