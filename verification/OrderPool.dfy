/** The fixed pool of orders with its stack of free indices, and the
    doubly linked lists threaded through it. */
module OrderPool {
  import opened Orders
  import opened Sequences

  const POOL: nat := 8192

  lemma PoolConstants()
    ensures POOL == 8192 && NIL == -1
  {
  }

  class Pool {
    const orders: array<Order>
    const freeList: array<nat>
    var freeCount: nat
    ghost var os: seq<Order>
    ghost var free: seq<nat>

    ghost predicate Valid()
      reads this, orders, freeList
      ensures Valid() ==> |os| == POOL
    {
      && orders.Length == POOL && freeList.Length == POOL
      && os == orders[..]
      && freeCount <= POOL && free == freeList[..freeCount]
      && Distinct(free)
      && forall k :: 0 <= k < |free| ==> free[k] < POOL
    }

    constructor (blank: Order)
      ensures Valid() && fresh(orders) && fresh(freeList)
      ensures |free| == 8192 && forall i: nat :: i < 8192 ==> i in free
    {
      orders := new Order[POOL](_ => blank);
      freeList := new nat[POOL](i => i);
      freeCount := POOL;
      new;
      os, free := orders[..], freeList[..];
      forall i: nat | i < POOL
        ensures i in free
      {
        assert free[i] == i;
      }
    }

    /** Take the most recently freed index, or NIL when the pool is exhausted. */
    method Alloc() returns (i: int)
      requires Valid()
      modifies this
      ensures Valid() && os == old(os)
      ensures old(free) == [] ==> i == NIL && free == old(free)
      ensures old(free) != [] ==> 0 <= i < POOL && old(free) == free + [i] && i !in free
    {
      if freeCount == 0 {
        return NIL;
      }
      freeCount := freeCount - 1;
      i := freeList[freeCount];
      free := free[..freeCount];
    }

    /** Give index `i` back.  The stack cannot overflow: its entries are distinct. */
    method Free(i: nat)
      requires Valid() && i < POOL && i !in free
      modifies this, freeList
      ensures Valid() && os == old(os) && free == old(free) + [i]
    {
      DistinctAppend(free, [i]);
      DistinctBelow(POOL, free + [i]);
      freeList[freeCount] := i;
      freeCount := freeCount + 1;
      free := free + [i];
    }

    function Get(i: nat): (o: Order)
      requires Valid() && i < POOL
      reads this, orders, freeList
      ensures o == os[i]
    {
      orders[i]
    }

    method Put(i: nat, o: Order)
      requires Valid() && i < POOL
      modifies this`os, orders
      ensures Valid() && os == old(os)[i := o]
    {
      orders[i] := o;
      os := os[i := o];
    }
  }

  // ----- Doubly linked lists -----

  ghost function After(ids: seq<nat>, k: nat): int {
    if k + 1 < |ids| then ids[k + 1] else NIL
  }

  ghost function Before(ids: seq<nat>, k: nat): int
    requires k <= |ids|
  {
    if k > 0 then ids[k - 1] else NIL
  }

  /** `ids` is the list from `head` to `tail`, linked in both directions. */
  ghost predicate Chain(os: seq<Order>, ids: seq<nat>, head: int, tail: int) {
    && Distinct(ids)
    && (forall k :: 0 <= k < |ids| ==> ids[k] < |os|)
    && head == (if ids == [] then NIL else ids[0])
    && tail == (if ids == [] then NIL else ids[|ids| - 1])
    && (forall k {:trigger os[ids[k]]} :: 0 <= k < |ids| ==> os[ids[k]].next == After(ids, k) && os[ids[k]].prev == Before(ids, k))
  }

  /** Nothing but list links differs. */
  ghost predicate SameButLinks(os: seq<Order>, os': seq<Order>) {
    |os| == |os'| && forall i :: 0 <= i < |os| ==> os'[i] == os[i].(next := os'[i].next, prev := os'[i].prev)
  }

  /** What unlinking order `p` does to the pool. */
  ghost function Unlink(os: seq<Order>, p: nat): seq<Order>
    requires p < |os| && -1 <= os[p].prev < |os| && -1 <= os[p].next < |os|
  {
    seq(|os|, i requires 0 <= i < |os| => os[i].(
      next := if i == p then NIL else if i == os[p].prev then os[p].next else os[i].next,
      prev := if i == p then NIL else if i == os[p].next then os[p].prev else os[i].prev))
  }

  lemma RemoveNeighbours(ids: seq<nat>, k: nat, j: nat)
    requires k < |ids| && j < |ids| - 1
    ensures var rest, i := RemoveAt(ids, k), if j < k then j else j + 1;
            && rest[j] == ids[i]
            && After(rest, j) == (if i + 1 == k then After(ids, k) else After(ids, i))
            && Before(rest, j) == (if i == k + 1 then Before(ids, k) else Before(ids, i))
  {
  }

  lemma UnlinkNeighbour(os: seq<Order>, ids: seq<nat>, head: int, tail: int, k: nat, j: nat)
    requires Chain(os, ids, head, tail) && k < |ids| && j < |ids| - 1
    requires -1 <= os[ids[k]].prev < |os| && -1 <= os[ids[k]].next < |os|
    ensures var x := RemoveAt(ids, k)[j];
            && x < |os|
            && Unlink(os, ids[k])[x].next == After(RemoveAt(ids, k), j)
            && Unlink(os, ids[k])[x].prev == Before(RemoveAt(ids, k), j)
  {
    RemoveNeighbours(ids, k, j);
    var i := if j < k then j else j + 1;
    var p, x := ids[k], ids[i];
    assert os[p].next == After(ids, k) && os[p].prev == Before(ids, k);
    assert os[x].next == After(ids, i) && os[x].prev == Before(ids, i);
    assert x != p;
    assert x == os[p].prev <==> i + 1 == k;
    assert x == os[p].next <==> i == k + 1;
  }

  lemma RemoveDistinct<T>(ids: seq<T>, k: nat)
    requires Distinct(ids) && k < |ids|
    ensures Distinct(RemoveAt(ids, k))
  {
    var rest := RemoveAt(ids, k);
    assert forall j :: 0 <= j < |rest| ==> rest[j] == if j < k then ids[j] else ids[j + 1];
  }

  /** Unlinking the `k`-th element leaves the list without it. */
  lemma UnlinkChain(os: seq<Order>, ids: seq<nat>, head: int, tail: int, k: nat)
    requires Chain(os, ids, head, tail) && k < |ids|
    ensures -1 <= os[ids[k]].prev < |os| && -1 <= os[ids[k]].next < |os|
    ensures var p := ids[k];
            Chain(Unlink(os, p), RemoveAt(ids, k),
                  if os[p].prev == NIL then os[p].next else head,
                  if os[p].next == NIL then os[p].prev else tail)
  {
    var p, rest := ids[k], RemoveAt(ids, k);
    assert os[p].prev == Before(ids, k) && os[p].next == After(ids, k);
    var os' := Unlink(os, p);
    RemoveDistinct(ids, k);
    forall j | 0 <= j < |rest|
      ensures rest[j] < |os| && os'[rest[j]].next == After(rest, j) && os'[rest[j]].prev == Before(rest, j)
    {
      UnlinkNeighbour(os, ids, head, tail, k, j);
    }
  }

  /** It touches only links, and only of orders in the list. */
  lemma UnlinkFrame(os: seq<Order>, ids: seq<nat>, head: int, tail: int, k: nat)
    requires Chain(os, ids, head, tail) && k < |ids|
    requires -1 <= os[ids[k]].prev < |os| && -1 <= os[ids[k]].next < |os|
    ensures SameButLinks(os, Unlink(os, ids[k]))
    ensures forall i: nat :: i < |os| && i !in ids ==> Unlink(os, ids[k])[i] == os[i]
  {
    assert os[ids[k]].prev == Before(ids, k) && os[ids[k]].next == After(ids, k);
    assert Before(ids, k) != NIL ==> Before(ids, k) in ids;
    assert After(ids, k) != NIL ==> After(ids, k) in ids;
  }

  /** What appending order `p` behind `tail` does to the pool. */
  ghost function Append(os: seq<Order>, tail: int, p: nat): seq<Order>
    requires p < |os| && -1 <= tail < |os| && tail != p
  {
    seq(|os|, i requires 0 <= i < |os| => os[i].(
      next := if i == p then NIL else if i == tail then p else os[i].next,
      prev := if i == p then tail else os[i].prev))
  }

  lemma AppendChain(os: seq<Order>, ids: seq<nat>, head: int, tail: int, p: nat)
    requires Chain(os, ids, head, tail) && p < |os| && p !in ids
    ensures -1 <= tail < |os| && tail != p
    ensures Chain(Append(os, tail, p), ids + [p], if head == NIL then p else head, p)
    ensures SameButLinks(os, Append(os, tail, p))
    ensures forall i: nat :: i < |os| && i !in ids + [p] ==> Append(os, tail, p)[i] == os[i]
  {
    assert ids != [] ==> tail in ids;
    var os', all := Append(os, tail, p), ids + [p];
    forall j | 0 <= j < |all|
      ensures os'[all[j]].next == After(all, j) && os'[all[j]].prev == Before(all, j)
    {
      if j < |ids| {
        assert os[ids[j]].next == After(ids, j) && os[ids[j]].prev == Before(ids, j);
      }
    }
  }

  /** A list survives any change that keeps its members' links. */
  lemma ChainFrame(os: seq<Order>, os': seq<Order>, ids: seq<nat>, head: int, tail: int)
    requires Chain(os, ids, head, tail) && |os'| == |os|
    requires forall i: nat :: i in ids && i < |os| ==> os'[i].next == os[i].next && os'[i].prev == os[i].prev
    ensures Chain(os', ids, head, tail)
  {
    assert forall k :: 0 <= k < |ids| ==> ids[k] in ids;
  }

  lemma NotBefore<T>(s: seq<T>, k: nat)
    requires Distinct(s) && k < |s|
    ensures s[k] in s && s[k] !in s[..k] && s[..k + 1] == s[..k] + [s[k]]
  {
  }

  /** Return every order of the list at `head` to the pool, in list order. */
  method FreeAll(pool: Pool, head: int, ghost tail: int, ghost ids: seq<nat>)
    requires pool.Valid()
    requires Chain(pool.os, ids, head, tail)
    requires |ids| < POOL
    requires forall i :: i in ids ==> i !in pool.free
    modifies pool, pool.freeList
    ensures pool.Valid() && pool.os == old(pool.os) && pool.free == old(pool.free) + ids
  {
    var current, count := head, 0;
    while current != NIL && count < POOL
      invariant pool.Valid() && pool.os == old(pool.os)
      invariant count <= |ids| && current == if count < |ids| then ids[count] else NIL
      invariant pool.free == old(pool.free) + ids[..count]
      decreases POOL - count
    {
      var next := pool.orders[current].next;
      assert next == After(ids, count);
      NotBefore(ids, count);
      pool.Free(current);
      current := next;
      count := count + 1;
    }
    assert ids[..count] == ids;
  }
}
