/** The reference definition that flb_bucket_queue.h is measured against: a stable priority
    queue kept as the plain list of its arrivals, oldest first.  It knows nothing of buckets,
    of `top`, or of links between nodes. */
module StableQueue {
  import opened Prelude

  datatype Entry<T> = Entry(item: T, priority: nat)

  type Arrivals<T> = seq<Entry<T>>

  /** `k` is the entry to serve next: least priority number, and the oldest among equals. */
  ghost predicate IsMin<T>(arr: Arrivals<T>, k: nat) {
    && k < |arr|
    && (forall j :: 0 <= j < |arr| ==> arr[k].priority <= arr[j].priority)
    && (forall j :: 0 <= j < k ==> arr[k].priority < arr[j].priority)
  }

  function MinIndex<T>(arr: Arrivals<T>): (k: nat)
    requires arr != []
    ensures IsMin(arr, k)
  {
    if |arr| == 1 then 0
    else
      var k := MinIndex(arr[1..]) + 1;
      if arr[0].priority <= arr[k].priority then 0 else k
  }

  /** The items of priority `p`, oldest first. */
  function Bucket<T>(arr: Arrivals<T>, p: nat): (b: seq<T>) {
    if arr == [] then []
    else
      var last := arr[|arr| - 1];
      Bucket(arr[..|arr| - 1], p) + if last.priority == p then [last.item] else []
  }

  /** Where entry `k` sits among the entries of its own priority. */
  function Rank<T>(arr: Arrivals<T>, k: nat): nat
    requires k < |arr|
  {
    |Bucket(arr[..k], arr[k].priority)|
  }

  lemma BucketAppend<T>(arr: Arrivals<T>, e: Entry<T>, p: nat)
    ensures Bucket(arr + [e], p) == Bucket(arr, p) + if e.priority == p then [e.item] else []
  {
    assert (arr + [e])[..|arr|] == arr;
  }

  lemma {:induction false} RankHolds<T>(arr: Arrivals<T>, k: nat)
    requires k < |arr|
    ensures Rank(arr, k) < |Bucket(arr, arr[k].priority)|
    ensures Bucket(arr, arr[k].priority)[Rank(arr, k)] == arr[k].item
  {
    if k < |arr| - 1 {
      var init := arr[..|arr| - 1];
      RankHolds(init, k);
      assert init[..k] == arr[..k];
    }
  }

  lemma {:induction false} BucketHolds<T>(arr: Arrivals<T>, p: nat, i: nat) returns (k: nat)
    requires i < |Bucket(arr, p)|
    ensures k < |arr| && arr[k] == Entry(Bucket(arr, p)[i], p) && Rank(arr, k) == i
  {
    var n := |arr| - 1;
    if i < |Bucket(arr[..n], p)| {
      k := BucketHolds(arr[..n], p, i);
      assert arr[..n][..k] == arr[..k];
    } else {
      k := n;
    }
  }

  /** Removing one entry removes exactly its own place in its own bucket. */
  lemma {:induction false} BucketRemove<T>(arr: Arrivals<T>, k: nat, p: nat)
    requires k < |arr|
    ensures p != arr[k].priority ==> Bucket(Without(arr, k), p) == Bucket(arr, p)
    ensures p == arr[k].priority ==>
              && Rank(arr, k) < |Bucket(arr, p)|
              && Bucket(Without(arr, k), p) == Bucket(arr, p)[..Rank(arr, k)] + Bucket(arr, p)[Rank(arr, k) + 1..]
  {
    RankHolds(arr, k);
    var n := |arr| - 1;
    if k == n {
      assert Without(arr, k) == arr[..n];
    } else {
      var init := arr[..n];
      BucketRemove(init, k, p);
      assert Without(arr, k) == Without(init, k) + [arr[n]];
      BucketAppend(Without(init, k), arr[n], p);
      assert init[..k] == arr[..k];
      RankHolds(init, k);
    }
  }

  /** With every bucket below `p` empty, the front of bucket `p` is the entry to serve. */
  lemma FrontIsMin<T>(arr: Arrivals<T>, p: nat)
    requires forall q :: 0 <= q < p ==> Bucket(arr, q) == []
    requires Bucket(arr, p) != []
    ensures arr != [] && arr[MinIndex(arr)].priority == p && Rank(arr, MinIndex(arr)) == 0
    ensures arr[MinIndex(arr)].item == Bucket(arr, p)[0]
  {
    var f := BucketHolds(arr, p, 0);
    var k := MinIndex(arr);
    RankHolds(arr, k);
    assert arr[k].priority == p;
    if k < f {
      RankMonotone(arr, k, f);
    }
    assert k == f;
  }

  lemma {:induction false} RankMonotone<T>(arr: Arrivals<T>, j: nat, k: nat)
    requires j < k < |arr| && arr[j].priority == arr[k].priority
    ensures Rank(arr, j) < Rank(arr, k)
  {
    RankHolds(arr[..k], j);
    assert arr[..k][..j] == arr[..j];
  }

  lemma EmptyBuckets<T>(arr: Arrivals<T>, n: nat)
    requires forall e :: e in arr ==> e.priority < n
    requires forall p :: 0 <= p < n ==> Bucket(arr, p) == []
    ensures arr == []
  {
    if arr != [] {
      RankHolds(arr, 0);
      assert false;
    }
  }
}
