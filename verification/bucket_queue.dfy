/** The bucket queue of flb_bucket_queue.h: one ring per priority, a cached `top` that is
    only moved up when somebody looks, and an item count.

    `arr` is the history the queue stands for: what was added and neither popped nor unlinked,
    oldest first.  Every operation is specified on `arr` alone, so the heap structure refines
    StableQueue. */
module BucketQueues {
  import opened Prelude
  import opened MkList
  import opened StableQueue

  /** Ring `p` lists the items of priority `p`, oldest first. */
  ghost predicate Mirrors(rings: Rings, arr: Arrivals<ListNode>) {
    && (forall p :: 0 <= p < |rings| ==> |rings[p]| > 0 && Entries(rings[p]) == Bucket(arr, p))
    && (forall k :: 0 <= k < |arr| ==> arr[k].priority < |rings|)
    && (forall i, j :: 0 <= i < j < |arr| ==> arr[i].item != arr[j].item)
  }

  /** Entry `k` of the history sits in its own bucket, right where its rank says. */
  lemma ItemLinked(rings: Rings, home: map<ListNode, nat>, arr: Arrivals<ListNode>, k: nat)
    requires Indexed(rings, home) && Mirrors(rings, arr) && k < |arr|
    ensures arr[k].item in home && home[arr[k].item] == arr[k].priority
    ensures Rank(arr, k) + 1 < |rings[arr[k].priority]|
    ensures rings[arr[k].priority][Rank(arr, k) + 1] == arr[k].item
  {
    RankHolds(arr, k);
    var p := arr[k].priority;
    assert Entries(rings[p])[Rank(arr, k)] == arr[k].item;
  }

  lemma AppendKeeps(rings: Rings, home: map<ListNode, nat>, arr: Arrivals<ListNode>, item: ListNode, p: nat)
    requires Indexed(rings, home) && Mirrors(rings, arr) && item !in home && p < |rings|
    ensures Indexed(rings[p := rings[p] + [item]], home[item := p])
    ensures Mirrors(rings[p := rings[p] + [item]], arr + [Entry(item, p)])
  {
    hide Indexed, Mirrors;
    AppendIndexed(rings, home, item, p);
    forall k | 0 <= k < |arr| ensures arr[k].item != item {
      ItemLinked(rings, home, arr, k);
    }
    AppendMirrors(rings, arr, item, p);
  }

  lemma AppendIndexed(rings: Rings, home: map<ListNode, nat>, item: ListNode, p: nat)
    requires Indexed(rings, home) && item !in home && p < |rings|
    ensures Indexed(rings[p := rings[p] + [item]], home[item := p])
  {
  }

  lemma AppendMirrors(rings: Rings, arr: Arrivals<ListNode>, item: ListNode, p: nat)
    requires Mirrors(rings, arr) && p < |rings|
    requires forall k :: 0 <= k < |arr| ==> arr[k].item != item
    ensures Mirrors(rings[p := rings[p] + [item]], arr + [Entry(item, p)])
  {
    var after := rings[p := rings[p] + [item]];
    forall q | 0 <= q < |rings| ensures |after[q]| > 0 && Entries(after[q]) == Bucket(arr + [Entry(item, p)], q) {
      BucketAppend(arr, Entry(item, p), q);
      hide Bucket;
      assert Entries(rings[q]) == Bucket(arr, q);
    }
    hide Bucket, Entries;
  }

  /** The node at place `Rank(arr, k) + 1` of its ring is the one to take out for entry `k`. */
  lemma RemoveKeeps(rings: Rings, home: map<ListNode, nat>, arr: Arrivals<ListNode>, k: nat)
    requires Indexed(rings, home) && Mirrors(rings, arr) && k < |arr|
    requires forall p :: 0 <= p < |rings| ==> Distinct(rings[p])
    ensures var p := arr[k].priority;
            && Rank(arr, k) + 1 < |rings[p]|
            && Indexed(rings[p := Without(rings[p], Rank(arr, k) + 1)], home - {arr[k].item})
            && Mirrors(rings[p := Without(rings[p], Rank(arr, k) + 1)], Without(arr, k))
  {
    ItemLinked(rings, home, arr, k);
    var p, r := arr[k].priority, Rank(arr, k);
    forall q ensures q != p ==> Bucket(Without(arr, k), q) == Bucket(arr, q) {
      BucketRemove(arr, k, q);
    }
    BucketRemove(arr, k, p);
    var rest := Without(rings[p], r + 1);
    assert Entries(rest) == Without(Entries(rings[p]), r);
  }

  lemma Neighbours(r: seq<ListNode>, i: nat)
    requires Ring(r) && i < |r|
    ensures r[i].prev in r && r[i].next in r
  {
  }

  ghost predicate NoneBelow<T>(arr: Arrivals<T>, top: nat) {
    forall p :: 0 <= p < top ==> Bucket(arr, p) == []
  }

  lemma NoneBelowAppend<T>(arr: Arrivals<T>, e: Entry<T>, top: nat)
    requires NoneBelow(arr, top)
    ensures NoneBelow(arr + [e], if e.priority < top then e.priority else top)
  {
    forall p | 0 <= p < top ensures Bucket(arr + [e], p) == if e.priority == p then [e.item] else [] {
      BucketAppend(arr, e, p);
    }
  }

  lemma NoneBelowRemove<T>(arr: Arrivals<T>, k: nat, top: nat)
    requires NoneBelow(arr, top) && k < |arr|
    ensures NoneBelow(Without(arr, k), top)
  {
    forall p | 0 <= p < top ensures Bucket(Without(arr, k), p) == [] {
      BucketRemove(arr, k, p);
    }
  }

  function Sum(s: seq<nat>): nat {
    if s == [] then 0 else Sum(s[..|s| - 1]) + s[|s| - 1]
  }

  lemma SumAppend(s: seq<nat>, x: nat)
    ensures Sum(s + [x]) == Sum(s) + x
  {
    assert (s + [x])[..|s|] == s;
  }

  lemma {:induction false} SumBound(s: seq<nat>, n: nat)
    requires forall i :: 0 <= i < |s| ==> s[i] <= n
    ensures Sum(s) <= |s| * n
  {
    if s != [] {
      SumBound(s[..|s| - 1], n);
    }
  }

  class BucketQueue {
    const nBuckets: nat
    var buckets: seq<ListNode>  // the sentinels of the bucket array
    var top: nat                // a C pointer into that array, kept as an index
    var nItems: nat

    ghost var arr: Arrivals<ListNode>
    ghost var rings: Rings                   // bucket by bucket, sentinel first
    ghost var home: map<ListNode, nat>       // every linked node, with its bucket
    ghost var unlinked: nat                  // direct mk_list_del calls so far
    ghost var steps: nat                     // iterations of the seek loop so far
    ghost var drops: seq<nat>                // for each add so far, how far it moved `top` down

    /** The rings in the heap are exactly the history. */
    ghost predicate Store()
      reads this`buckets, this`rings, this`home, this`arr, home.Keys
    {
      && |buckets| == |rings| == nBuckets
      && Indexed(rings, home)
      && Mirrors(rings, arr)
      && forall p :: 0 <= p < nBuckets ==> Ring(rings[p]) && rings[p][0] == buckets[p]
    }

    /** Nothing waits below `top`, and each iteration of the seek loop is paid for by an add
        that moved `top` down. */
    ghost predicate Settled()
      reads this`top, this`arr, this`steps, this`drops
    {
      && top <= nBuckets
      && NoneBelow(arr, top)
      && top + Sum(drops) == nBuckets + steps
      && (forall i :: 0 <= i < |drops| ==> drops[i] <= nBuckets)
    }

    /** What every operation keeps.  The count is off by exactly the direct removals. */
    ghost predicate Valid()
      reads this, home.Keys
    {
      Store() && Settled() && nItems == |arr| + unlinked
    }

    /** Right after initialisation every ring is its own sentinel. */
    lemma FreshStore()
      requires arr == [] && |buckets| == |rings| == nBuckets
      requires forall p :: 0 <= p < nBuckets ==> rings[p] == [buckets[p]]
      requires forall p :: 0 <= p < nBuckets ==> buckets[p].next == buckets[p].prev == buckets[p]
      requires forall p :: 0 <= p < nBuckets ==> buckets[p] in home && home[buckets[p]] == p
      ensures Store()
    {
    }

    /** flb_bucket_queue_create */
    constructor (priorities: nat)
      ensures Valid() && nBuckets == priorities && arr == [] && unlinked == 0 && drops == []
      ensures fresh(home.Keys) && home.Keys == set b | b in buckets
    {
      nBuckets := priorities;
      buckets, rings, home := [], [], map[];
      arr, unlinked, steps, drops := [], 0, 0, [];
      top, nItems := priorities, 0;
      new;
      var i := 0;
      while i < priorities
        modifies this`buckets, this`home, this`rings
        invariant i == |buckets| == |rings| <= priorities
        invariant forall p :: 0 <= p < i ==> rings[p] == [buckets[p]]
        invariant forall p :: 0 <= p < i ==> buckets[p].next == buckets[p].prev == buckets[p]
        invariant forall p :: 0 <= p < i ==> buckets[p] in home && home[buckets[p]] == p
        invariant fresh(home.Keys) && home.Keys == set b | b in buckets
      {
        var sentinel := new ListNode();
        MkList.Init(sentinel);
        buckets, rings, home := buckets + [sentinel], rings + [[sentinel]], home[sentinel := i];
        i := i + 1;
      }
      FreshStore();
    }

    /** Amortised cost: whatever happened before, the seek loop has turned at most as often as
        adds have moved `top` down, hence at most `nBuckets` times per add. */
    lemma SeekCost()
      requires Valid()
      ensures steps <= Sum(drops) <= |drops| * nBuckets
    {
      SumBound(drops, nBuckets);
    }

    /** flb_bucket_queue_is_empty looks at `top` only; it is exact right after a seek. */
    predicate AtEnd()
      reads this`top
    {
      top == nBuckets
    }

    /** A waiting item is linked, which is all flb_event_load_bucket_queue_event looks at. */
    lemma WaitingIsLinked(k: nat)
      requires Valid() && k < |arr|
      ensures arr[k].item in home && arr[k].item.prev != null
    {
      ItemLinked(rings, home, arr, k);
    }

    /** With nothing waiting below it, the first entry of a bucket is the one to serve... */
    lemma FrontServes()
      requires Store() && NoneBelow(arr, top) && top < nBuckets && Bucket(arr, top) != []
      ensures arr != [] && buckets[top].next == arr[MinIndex(arr)].item
    {
      FrontIsMin(arr, top);
      ItemLinked(rings, home, arr, MinIndex(arr));
    }

    /** ...and with nothing below the end there is none. */
    lemma NothingWaits()
      requires Store() && NoneBelow(arr, nBuckets)
      ensures arr == []
    {
      assert forall k :: 0 <= k < |arr| ==> arr[k].priority < nBuckets;
      EmptyBuckets(arr, nBuckets);
    }

    /** mk_list_is_empty of the bucket under `top`: 0 exactly when nothing of that priority waits. */
    method TopIsEmpty() returns (e: int)
      requires Store() && top < nBuckets
      ensures e == 0 <==> Bucket(arr, top) == []
    {
      e := MkList.IsEmpty(buckets[top], rings[top]);
    }

    /** flb_bucket_queue_seek */
    method Seek()
      requires Store() && Settled()
      modifies this`top, this`steps
      ensures Store() && Settled()
      ensures AtEnd() <==> arr == []
      ensures !AtEnd() ==> top < nBuckets && top < |buckets|
                           && buckets[top].next == arr[MinIndex(arr)].item
      ensures old(top) <= top && steps == old(steps) + (top - old(top))
    {
      assert |buckets| == nBuckets;
      hide BucketQueue.Store, Bucket, MinIndex;
      while !AtEnd()
        invariant Store() && Settled()
        invariant old(top) <= top && steps == old(steps) + (top - old(top))
        decreases nBuckets - top
      {
        var e := TopIsEmpty();
        if e != 0 {
          break;
        }
        top := top + 1;
        steps := steps + 1;
      }
      if AtEnd() {
        NothingWaits();
      } else {
        FrontServes();
      }
    }

    /** The list part of flb_bucket_queue_add. */
    method LinkLast(item: ListNode, priority: nat)
      requires Store() && item !in home && priority < nBuckets
      modifies this`rings, this`home, this`arr, home.Keys, item
      ensures Store()
      ensures arr == old(arr) + [Entry(item, priority)] && home == old(home)[item := priority]
    {
      hide Ring, Indexed, Mirrors, Bucket;
      AppendKeeps(rings, home, arr, item, priority);
      Attach(item, priority);
      rings := rings[priority := rings[priority] + [item]];
      home := home[item := priority];
      arr := arr + [Entry(item, priority)];
    }

    /** The links part of LinkLast: one ring gains one node, the others keep theirs. */
    method Attach(item: ListNode, priority: nat)
      requires Store() && item !in home && priority < nBuckets
      modifies home.Keys, item
      ensures rings[priority] != [] && Ring(rings[priority] + [item])
      ensures forall q :: 0 <= q < nBuckets && q != priority ==> Ring(rings[q])
    {
      assert forall q, j :: 0 <= q < nBuckets && 0 <= j < |rings[q]| ==> rings[q][j] in home && home[rings[q][j]] == q;
      hide Ring;
      MkList.Add(item, buckets[priority], rings[priority]);
    }

    /** flb_bucket_queue_add.  An out-of-range priority is refused and nothing changes, not
        even `top`. */
    method Add(item: ListNode, priority: nat) returns (ret: int)
      requires Valid() && item !in home
      modifies this, home.Keys, item
      ensures Valid() && unlinked == old(unlinked)
      ensures ret == if priority < nBuckets then 0 else -1
      ensures priority < nBuckets ==>
                && arr == old(arr) + [Entry(item, priority)]
                && home == old(home)[item := priority]
                && |drops| == |old(drops)| + 1
      ensures priority >= nBuckets ==> unchanged(this) && unchanged(old(home.Keys)) && unchanged(item)
    {
      hide BucketQueue.Store, NoneBelow, MinIndex, Bucket, Rank, Sum;
      if priority >= nBuckets {
        return -1;
      }
      Seek();
      NoneBelowAppend(arr, Entry(item, priority), top);
      LinkLast(item, priority);
      SumAppend(drops, if priority < top then top - priority else 0);
      drops := drops + [if priority < top then top - priority else 0];
      if priority < top {
        top := priority;
      }
      nItems := nItems + 1;
      assert Settled();
      return 0;
    }

    /** flb_bucket_queue_find_min: the oldest of the most urgent items, or null. */
    method FindMin() returns (item: ListNode?)
      requires Valid()
      modifies this`top, this`steps
      ensures Valid()
      ensures item == if arr == [] then null else arr[MinIndex(arr)].item
      ensures old(top) <= top && steps == old(steps) + (top - old(top))
      ensures top < nBuckets <==> arr != []
    {
      Seek();
      if AtEnd() {
        return null;
      }
      return buckets[top].next;
    }

    /** Where entry `k` sits, and what taking it out leaves. */
    lemma EntryOut(k: nat) returns (p: nat, i: nat, rest: seq<ListNode>)
      requires Store() && k < |arr|
      ensures p < nBuckets && 0 < i < |rings[p]| && rings[p][i] == arr[k].item
      ensures rest == Without(rings[p], i) && |rest| > 0 && rest[0] == buckets[p]
      ensures Indexed(rings[p := rest], home - {arr[k].item}) && Mirrors(rings[p := rest], Without(arr, k))
    {
      p, i := arr[k].priority, Rank(arr, k) + 1;
      ItemLinked(rings, home, arr, k);
      assert forall q :: 0 <= q < |rings| ==> Distinct(rings[q]);
      hide Indexed, Mirrors, Ring, Distinct, Bucket;
      RemoveKeeps(rings, home, arr, k);
      rest := Without(rings[p], i);
    }

    /** The mk_list_del of entry `k`, wherever it waits.  This is also how items leave the queue
        behind its back: `top` and `nItems` are not told. */
    method UnlinkEntry(item: ListNode, ghost k: nat)
      requires Store() && k < |arr| && arr[k].item == item
      modifies this`rings, this`home, this`arr, home.Keys
      ensures Store()
      ensures arr == Without(old(arr), k) && home == old(home) - {item}
      ensures item.prev == null && item.next == null
    {
      hide Indexed, Mirrors, Ring, Bucket, Without, Rank;
      ghost var p, i, rest := EntryOut(k);
      Detach(item, p, i);
      rings := rings[p := rest];
      home := home - {item};
      arr := Without(arr, k);
    }

    /** The links part of UnlinkEntry: one ring loses one node, the others keep theirs. */
    method Detach(item: ListNode, ghost p: nat, ghost i: nat)
      requires Store() && p < nBuckets && 0 < i < |rings[p]| && rings[p][i] == item
      modifies home.Keys
      ensures Ring(Without(rings[p], i))
      ensures forall q :: 0 <= q < nBuckets && q != p ==> Ring(rings[q])
      ensures item.prev == null && item.next == null
    {
      assert forall q, j :: 0 <= q < nBuckets && 0 <= j < |rings[q]| ==> rings[q][j] in home && home[rings[q][j]] == q;
      Neighbours(rings[p], i);
      hide Ring;
      MkList.Del(item, rings[p], i);
    }

    /** Direct removal: mk_list_del on an item that waits in the queue.  The queue's own count
        does not notice, which is why `nItems` exceeds the live items by `unlinked`. */
    method Unlink(item: ListNode, ghost k: nat)
      requires Valid() && k < |arr| && arr[k].item == item
      modifies this`rings, this`home, this`arr, this`unlinked, home.Keys
      ensures Valid() && unlinked == old(unlinked) + 1
      ensures arr == Without(old(arr), k) && home == old(home) - {item}
      ensures item.prev == null && item.next == null
    {
      hide BucketQueue.Store, NoneBelow;
      NoneBelowRemove(arr, k, top);
      UnlinkEntry(item, k);
      unlinked := unlinked + 1;
    }

    /** flb_bucket_queue_delete_min: nothing happens on an empty queue; otherwise exactly the
        item find_min would show goes away, and the count with it never wraps below zero. */
    method DeleteMin()
      requires Valid()
      modifies this, home.Keys
      ensures Valid() && unlinked == old(unlinked) && drops == old(drops) && buckets == old(buckets)
      ensures old(arr) == [] ==> arr == [] && home == old(home) && nItems == old(nItems) && unchanged(old(home.Keys))
      ensures old(arr) != [] ==>
                && var k := MinIndex(old(arr));
                && arr == Without(old(arr), k)
                && home == old(home) - {old(arr)[k].item}
                && old(arr)[k].item.prev == null && old(arr)[k].item.next == null
                && nItems == old(nItems) - 1
    {
      hide BucketQueue.Store, NoneBelow, MinIndex, Without, Bucket, Rank, Sum;
      Seek();
      if AtEnd() {
        return;
      }
      ghost var k := MinIndex(arr);
      NoneBelowRemove(arr, k, top);
      UnlinkEntry(buckets[top].next, k);
      Seek();
      nItems := nItems - 1;
    }

    /** flb_bucket_queue_pop_min: what find_min shows, then delete_min. */
    method PopMin() returns (item: ListNode?)
      requires Valid()
      modifies this, home.Keys
      ensures Valid() && unlinked == old(unlinked) && drops == old(drops) && buckets == old(buckets)
      ensures old(arr) == [] ==> item == null && arr == [] && home == old(home) && unchanged(old(home.Keys))
      ensures old(arr) != [] ==>
                && item == old(arr)[MinIndex(old(arr))].item
                && arr == Without(old(arr), MinIndex(old(arr)))
                && home == old(home) - {item}
                && item.prev == null && item.next == null
                && nItems == old(nItems) - 1
    {
      hide BucketQueue.Valid;
      item := FindMin();
      DeleteMin();
    }

    /** flb_bucket_queue_destroy refuses with -1 while anything waits; the emptiness it tests is
        that of the history, not of `nItems`. */
    method Destroy() returns (ret: int)
      requires Valid()
      modifies this`top, this`steps
      ensures Valid()
      ensures ret == if arr == [] then 0 else -1
    {
      Seek();
      return if AtEnd() then 0 else -1;
    }
  }
}
