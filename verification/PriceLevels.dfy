/** One side of a book: a sorted array of price levels, each the head and tail
    of a list of pooled orders. */
module PriceLevels {
  import opened Orders
  import opened Sequences
  import opened PriceTime
  import opened OrderPool

  const MAX_LEVELS: nat := 512

  datatype Level = Level(price: u32, total: u32, head: int, tail: int)

  ghost predicate Sorted(side: Side, levels: seq<Level>) {
    forall i, j :: 0 <= i < j < |levels| ==> Better(side, levels[i].price, levels[j].price)
  }

  class BookSide {
    const side: Side
    const slots: array<Level>
    var num: nat
    ghost var levels: seq<Level>
    ghost var ids: seq<seq<nat>>  // the orders of each level, oldest first

    ghost predicate Valid()
      reads this, slots
      ensures Valid() ==> |levels| == |ids| == num <= MAX_LEVELS
    {
      && slots.Length == MAX_LEVELS && num <= MAX_LEVELS
      && levels == slots[..num]
      && |ids| == num
    }

    constructor (side: Side)
      ensures Valid() && this.side == side && levels == [] && ids == [] && fresh(slots) && slots.Length == 512
    {
      this.side := side;
      slots := new Level[MAX_LEVELS](_ => Level(0, 0, 0, 0));
      num, levels, ids := 0, [], [];
    }

    /** Binary search for a price: its index, or -1 when no level has it. */
    method Find(price: u32) returns (r: int)
      requires Valid() && Sorted(side, levels)
      ensures -1 <= r < |levels|
      ensures r == -1 ==> forall i :: 0 <= i < |levels| ==> levels[i].price != price
      ensures r != -1 ==> levels[r].price == price
    {
      if num == 0 {
        return -1;
      }
      var left, right := 0, num - 1;
      while left <= right
        invariant 0 <= left <= right + 1 <= num
        invariant forall i :: 0 <= i < left ==> Better(side, levels[i].price, price)
        invariant forall i :: right < i < num ==> Better(side, price, levels[i].price)
      {
        var mid := left + (right - left) / 2;
        if slots[mid].price == price {
          return mid;
        }
        if side == Buy {
          if slots[mid].price > price { left := mid + 1; } else { right := mid - 1; }
        } else {
          if slots[mid].price < price { left := mid + 1; } else { right := mid - 1; }
        }
      }
      return -1;
    }

    /** Open an empty level for a price that has none, keeping the order. */
    method Insert(price: u32) returns (pos: nat)
      requires Valid() && num < MAX_LEVELS && Sorted(side, levels)
      requires forall i :: 0 <= i < |levels| ==> levels[i].price != price
      modifies this, slots
      ensures Valid() && Sorted(side, levels) && pos <= |old(levels)|
      ensures levels == InsertAt(old(levels), pos, Level(price, 0, NIL, NIL))
      ensures ids == InsertAt(old(ids), pos, [])
    {
      pos := num;
      for i := 0 to num
        invariant forall k :: 0 <= k < i ==> !Better(side, price, levels[k].price)
        invariant pos == num
      {
        if Better(side, price, slots[i].price) {
          pos := i;
          break;
        }
      }
      InsertSorted(side, levels, pos, Level(price, 0, NIL, NIL));
      forall k | pos < k <= num {
        slots[k] := slots[k - 1];
      }
      slots[pos] := Level(price, 0, NIL, NIL);
      num := num + 1;
      levels := InsertAt(levels, pos, Level(price, 0, NIL, NIL));
      ids := InsertAt(ids, pos, []);
    }

    /** Drop level `i`, closing the gap. */
    method Remove(i: nat)
      requires Valid() && i < num
      modifies this, slots
      ensures Valid() && levels == RemoveAt(old(levels), i) && ids == RemoveAt(old(ids), i)
    {
      forall k | i <= k < num - 1 {
        slots[k] := slots[k + 1];
      }
      num := num - 1;
      levels, ids := RemoveAt(levels, i), RemoveAt(ids, i);
    }

    function Get(i: nat): (level: Level)
      requires Valid() && i < num
      reads this, slots
      ensures level == levels[i]
    {
      slots[i]
    }

    method Put(i: nat, level: Level, ghost list: seq<nat>)
      requires Valid() && i < num
      modifies this, slots
      ensures Valid() && levels == old(levels)[i := level] && ids == old(ids)[i := list]
    {
      slots[i] := level;
      levels, ids := levels[i := level], ids[i := list];
    }

    method Reset()
      requires Valid()
      modifies this
      ensures Valid() && levels == [] && ids == []
    {
      num, levels, ids := 0, [], [];
    }
  }

  lemma InsertSorted(side: Side, levels: seq<Level>, pos: nat, level: Level)
    requires Sorted(side, levels) && pos <= |levels|
    requires forall k :: 0 <= k < pos ==> Better(side, levels[k].price, level.price)
    requires pos < |levels| ==> Better(side, level.price, levels[pos].price)
    ensures Sorted(side, InsertAt(levels, pos, level))
  {
  }

  lemma RemoveSorted(side: Side, levels: seq<Level>, i: nat)
    requires Sorted(side, levels) && i < |levels|
    ensures Sorted(side, RemoveAt(levels, i))
  {
  }

  // ----- What a well-formed side is -----

  /** The orders with the given pool indices, without their links. */
  ghost function View(os: seq<Order>, ids: seq<nat>): seq<Resting> {
    seq(|ids|, k requires 0 <= k < |ids| => ViewAt(os, ids[k]))
  }

  ghost function ViewAt(os: seq<Order>, i: nat): Resting {
    if i < |os| then Strip(os[i]) else Resting(0, 0, 0, 0, 0, 0)
  }

  /** One level: its list is linked, its orders are live and at its price, and
      its total is the sum of their unfilled quantities modulo 2^32. */
  ghost predicate LevelOk(os: seq<Order>, side: Side, level: Level, ids: seq<nat>) {
    && Chain(os, ids, level.head, level.tail)
    && (forall k {:trigger os[ids[k]]} :: 0 <= k < |ids| ==> OrderOk(os[ids[k]], side, level.price))
    && level.total == Wrap32(TotalQty(View(os, ids)))
  }

  ghost predicate OrderOk(o: Order, side: Side, price: u32) {
    o.side == side && o.price == price && 0 < o.remaining <= o.quantity
  }

  ghost predicate SideOk(os: seq<Order>, side: Side, levels: seq<Level>, ids: seq<seq<nat>>) {
    && |levels| == |ids|
    && Sorted(side, levels)
    && forall l :: 0 <= l < |levels| ==> levels[l].price > 0 && LevelOk(os, side, levels[l], ids[l])
  }

  ghost predicate NoneEmpty(ids: seq<seq<nat>>) {
    forall l :: 0 <= l < |ids| ==> ids[l] != []
  }

  // ----- Framing: what a change elsewhere in the pool leaves alone -----

  lemma ViewFrame(os: seq<Order>, os': seq<Order>, ids: seq<nat>)
    requires |os| == |os'|
    requires forall i: nat :: i in ids && i < |os| ==> Strip(os'[i]) == Strip(os[i])
    ensures View(os', ids) == View(os, ids)
  {
    assert forall k :: 0 <= k < |ids| ==> ids[k] in ids;
  }

  lemma ViewUpdate(os: seq<Order>, ids: seq<nat>, n: nat, o: Order)
    requires Distinct(ids) && n < |ids| && ids[n] < |os|
    ensures View(os[ids[n] := o], ids) == View(os, ids)[n := Strip(o)]
  {
  }

  lemma LevelFrame(os: seq<Order>, os': seq<Order>, side: Side, level: Level, ids: seq<nat>)
    requires LevelOk(os, side, level, ids) && |os| == |os'|
    requires forall i: nat :: i in ids && i < |os| ==> os'[i] == os[i]
    ensures LevelOk(os', side, level, ids)
  {
    ChainFrame(os, os', ids, level.head, level.tail);
    ViewFrame(os, os', ids);
    assert forall k :: 0 <= k < |ids| ==> ids[k] in ids;
  }

  lemma SideFrame(os: seq<Order>, os': seq<Order>, side: Side, levels: seq<Level>, ids: seq<seq<nat>>)
    requires SideOk(os, side, levels, ids) && |os| == |os'|
    requires forall i: nat :: i in Concat(ids) && i < |os| ==> os'[i] == os[i]
    ensures SideOk(os', side, levels, ids)
    ensures View(os', Concat(ids)) == View(os, Concat(ids))
  {
    ViewFrame(os, os', Concat(ids));
    forall l | 0 <= l < |ids|
      ensures LevelOk(os', side, levels[l], ids[l])
    {
      ConcatSplit(ids, l);
      LevelFrame(os, os', side, levels[l], ids[l]);
    }
  }

  lemma LevelMembers(os: seq<Order>, side: Side, level: Level, ids: seq<nat>)
    requires LevelOk(os, side, level, ids)
    ensures forall i :: i in ids ==> i < |os| && OrderOk(os[i], side, level.price)
  {
  }

  /** Lists of different levels share no order: their prices differ. */
  lemma LevelsApart(os: seq<Order>, side: Side, levels: seq<Level>, ids: seq<seq<nat>>, l: nat, j: nat)
    requires SideOk(os, side, levels, ids) && l < |ids| && j < |ids| && l != j
    ensures forall i :: i in ids[l] ==> i !in ids[j]
  {
    LevelMembers(os, side, levels[l], ids[l]);
    LevelMembers(os, side, levels[j], ids[j]);
    assert levels[l].price != levels[j].price;
  }

  lemma OtherLevel(os: seq<Order>, os': seq<Order>, side: Side, levels: seq<Level>, ids: seq<seq<nat>>, l: nat, j: nat)
    requires SideOk(os, side, levels, ids) && |os| == |os'| && l < |ids| && j < |ids| && l != j
    requires forall i: nat :: i in Concat(ids) && i < |os| && i !in ids[l] ==> os'[i] == os[i]
    ensures LevelOk(os', side, levels[j], ids[j])
  {
    LevelsApart(os, side, levels, ids, j, l);
    ConcatSplit(ids, j);
    LevelFrame(os, os', side, levels[j], ids[j]);
  }

  /** Changing one level, and pool orders outside every list, keeps the side well formed. */
  lemma SideUpdate(os: seq<Order>, os': seq<Order>, side: Side, levels: seq<Level>, ids: seq<seq<nat>>,
                   l: nat, level: Level, list: seq<nat>)
    requires SideOk(os, side, levels, ids) && |os| == |os'| && l < |ids|
    requires level.price == levels[l].price && LevelOk(os', side, level, list)
    requires forall i: nat :: i in Concat(ids) && i < |os| && i !in ids[l] ==> os'[i] == os[i]
    ensures SideOk(os', side, levels[l := level], ids[l := list])
  {
    var levels', ids' := levels[l := level], ids[l := list];
    assert Sorted(side, levels') by {
      assert forall j :: 0 <= j < |levels| ==> levels'[j].price == levels[j].price;
    }
    forall j | 0 <= j < |ids|
      ensures levels'[j].price > 0 && LevelOk(os', side, levels'[j], ids'[j])
    {
      if j != l {
        OtherLevel(os, os', side, levels, ids, l, j);
      }
    }
  }

  lemma FlatMember(os: seq<Order>, side: Side, levels: seq<Level>, ids: seq<seq<nat>>, i: nat) returns (l: nat, k: nat)
    requires SideOk(os, side, levels, ids) && i in Concat(ids)
    ensures l < |ids| && k < |ids[l]| && ids[l][k] == i
    ensures i < |os| && OrderOk(os[i], side, levels[l].price) && levels[l].price > 0
  {
    l, k := InConcat(ids, i);
    assert OrderOk(os[ids[l][k]], side, levels[l].price);
  }

  /** No order is listed twice on a side. */
  lemma {:induction false} FlatDistinct(os: seq<Order>, side: Side, levels: seq<Level>, ids: seq<seq<nat>>)
    requires SideOk(os, side, levels, ids)
    ensures Distinct(Concat(ids))
  {
    if ids != [] {
      FlatDistinct(os, side, levels[1..], ids[1..]);
      LevelMembers(os, side, levels[0], ids[0]);
      forall i | i in Concat(ids[1..])
        ensures i !in ids[0]
      {
        var l, k := FlatMember(os, side, levels[1..], ids[1..], i);
        assert levels[1..][l].price != levels[0].price;
      }
      DistinctAppend(ids[0], Concat(ids[1..]));
    }
  }

  /** An empty level may be opened anywhere that keeps the prices sorted, and dropped. */
  lemma SideOpened(os: seq<Order>, side: Side, levels: seq<Level>, ids: seq<seq<nat>>, pos: nat, price: u32)
    requires SideOk(os, side, levels, ids) && pos <= |levels| && price > 0
    requires Sorted(side, InsertAt(levels, pos, Level(price, 0, NIL, NIL)))
    ensures SideOk(os, side, InsertAt(levels, pos, Level(price, 0, NIL, NIL)), InsertAt(ids, pos, []))
  {
    var levels', ids' := InsertAt(levels, pos, Level(price, 0, NIL, NIL)), InsertAt(ids, pos, []);
    assert LevelOk(os, side, Level(price, 0, NIL, NIL), []);
    forall j | 0 <= j < |levels'|
      ensures levels'[j].price > 0 && LevelOk(os, side, levels'[j], ids'[j])
    {
      if j != pos {
        var i := if j < pos then j else j - 1;
        assert levels'[j] == levels[i] && ids'[j] == ids[i];
      }
    }
  }

  lemma SideDropped(os: seq<Order>, side: Side, levels: seq<Level>, ids: seq<seq<nat>>, l: nat)
    requires SideOk(os, side, levels, ids) && l < |levels|
    ensures SideOk(os, side, RemoveAt(levels, l), RemoveAt(ids, l))
  {
    var levels', ids' := RemoveAt(levels, l), RemoveAt(ids, l);
    RemoveSorted(side, levels, l);
    forall j | 0 <= j < |levels'|
      ensures levels'[j].price > 0 && LevelOk(os, side, levels'[j], ids'[j])
    {
      var i := if j < l then j else j + 1;
      assert levels'[j] == levels[i] && ids'[j] == ids[i];
    }
  }

  // ----- Totals -----

  lemma WrapAdd(x: int, q: int)
    ensures Wrap32(Wrap32(x) + q) == Wrap32(x + q)
  {
  }

  lemma WrapSub(x: int, q: int)
    ensures Wrap32(Wrap32(x) - q) == Wrap32(x - q)
  {
  }

  lemma {:induction false} TotalSplit(a: seq<Resting>, b: seq<Resting>)
    ensures TotalQty(a + b) == TotalQty(a) + TotalQty(b)
  {
    if a == [] {
      assert a + b == b;
    } else {
      TotalSplit(a[1..], b);
      assert (a + b)[0] == a[0] && (a + b)[1..] == a[1..] + b;
    }
  }

  lemma TotalRemove(s: seq<Resting>, k: nat)
    requires k < |s|
    ensures TotalQty(RemoveAt(s, k)) == TotalQty(s) - s[k].rem
  {
    TotalSplit(s[..k], s[k + 1..]);
    TotalSplit(s[..k], [s[k]] + s[k + 1..]);
    assert s == s[..k] + ([s[k]] + s[k + 1..]);
    assert ([s[k]] + s[k + 1..])[1..] == s[k + 1..];
  }

  lemma TotalAppend(s: seq<Resting>, r: Resting)
    ensures TotalQty(s + [r]) == TotalQty(s) + r.rem
  {
    TotalSplit(s, [r]);
  }
}
