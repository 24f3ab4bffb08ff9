/** Open addressing with linear probing, tombstones and a bounded probe length,
    for an arbitrary hash function.  The order map of a book and the
    order-to-symbol map of the engine are both instances of this table. */
module ProbeTable {

  const EMPTY: nat := 0
  const TOMBSTONE: nat := 0xFFFF_FFFF_FFFF_FFFF

  datatype Slot<V> = Slot(key: nat, value: V)

  predicate Sentinel(key: nat) {
    key == EMPTY || key == TOMBSTONE
  }

  /** The slot `d` steps after `h`, wrapping at the end of the table. */
  function Probe(h: nat, d: nat, size: nat): (i: nat)
    requires h < size && d <= size
    ensures i < size
  {
    if h + d < size then h + d else h + d - size
  }

  /** For a power-of-two size this is the masked sum of the source. */
  lemma ProbeIsRemainder(h: nat, d: nat, size: nat)
    requires h < size && d <= size
    ensures Probe(h, d, size) == (h + d) % size
  {
    if h + d < size {
      assert (h + d) / size == 0;
    } else {
      var r := h + d - size;
      assert h + d == size * 1 + r;
      assert 1 <= (h + d) / size < 2;
    }
  }

  /** The slots of the first `d` probes. */
  ghost function Window(h: nat, d: nat, size: nat): set<nat>
    requires h < size && d <= size
  {
    set e: nat | e < d :: Probe(h, e, size)
  }

  lemma {:induction false} WindowSize(h: nat, d: nat, size: nat)
    requires h < size && d <= size
    ensures |Window(h, d, size)| == d
  {
    if d == 0 {
      assert Window(h, d, size) == {};
    } else {
      WindowSize(h, d - 1, size);
      var last := Probe(h, d - 1, size);
      assert last !in Window(h, d - 1, size);
      assert Window(h, d, size) == Window(h, d - 1, size) + {last};
    }
  }

  /** The slot a lookup stops at, or -1; `d` steps have been taken already. */
  ghost function FindIdx<V>(t: seq<Slot<V>>, h: nat, limit: nat, key: nat, d: nat): int
    requires h < |t| && d <= limit <= |t|
    decreases limit - d
  {
    if d == limit then -1
    else
      var i := Probe(h, d, |t|);
      if t[i].key == key then i
      else if t[i].key == EMPTY then -1
      else FindIdx(t, h, limit, key, d + 1)
  }

  /** The slot an insertion writes, or -1; `d` steps have been taken already. */
  ghost function FreeIdx<V>(t: seq<Slot<V>>, h: nat, limit: nat, key: nat, d: nat): int
    requires h < |t| && d <= limit <= |t|
    decreases limit - d
  {
    if d == limit then -1
    else
      var i := Probe(h, d, |t|);
      if Sentinel(t[i].key) || t[i].key == key then i
      else FreeIdx(t, h, limit, key, d + 1)
  }

  lemma {:induction false} FreeIdxInRange<V>(t: seq<Slot<V>>, h: nat, limit: nat, key: nat, d: nat)
    requires h < |t| && d <= limit <= |t|
    ensures -1 <= FreeIdx(t, h, limit, key, d) < |t|
    decreases limit - d
  {
    if d < limit {
      FreeIdxInRange(t, h, limit, key, d + 1);
    }
  }

  /** In any table at all, even one that already stores the key elsewhere, what a
      successful insertion wrote is what the next lookup of that key finds. */
  lemma {:induction false} InsertThenFind<V>(
    t: seq<Slot<V>>, h: nat, limit: nat, key: nat, v: V, d: nat)
    requires h < |t| && d <= limit <= |t| && !Sentinel(key)
    requires 0 <= FreeIdx(t, h, limit, key, d) < |t|
    requires FreeIdx(t, h, limit, key, 0) == FreeIdx(t, h, limit, key, d)
    ensures var i := FreeIdx(t, h, limit, key, 0);
            FindIdx(t[i := Slot(key, v)], h, limit, key, d) == i
    decreases limit - d
  {
    var i := FreeIdx(t, h, limit, key, 0);
    var p := Probe(h, d, |t|);
    if p != i {
      InsertThenFind(t, h, limit, key, v, d + 1);
    }
  }

  ghost predicate Holds<V>(s: Slot<V>, tombs: bool) {
    if tombs then s.key == TOMBSTONE else !Sentinel(s.key)
  }

  /** The number of tombstones, or of live slots. */
  ghost function Count<V>(t: seq<Slot<V>>, tombs: bool): nat {
    if t == [] then 0 else (if Holds(t[0], tombs) then 1 else 0) + Count(t[1..], tombs)
  }

  lemma {:induction false} CountUpdate<V>(t: seq<Slot<V>>, tombs: bool, i: nat, s: Slot<V>)
    requires i < |t|
    ensures Count(t[i := s], tombs) + (if Holds(t[i], tombs) then 1 else 0)
         == Count(t, tombs) + (if Holds(s, tombs) then 1 else 0)
  {
    if i == 0 {
      assert t[i := s][1..] == t[1..];
    } else {
      CountUpdate(t[1..], tombs, i - 1, s);
      assert t[i := s][1..] == t[1..][i - 1 := s];
    }
  }

  lemma {:induction false} CountNone<V>(t: seq<Slot<V>>)
    requires forall i :: 0 <= i < |t| ==> t[i].key == EMPTY
    ensures Count(t, true) == 0 && Count(t, false) == 0
  {
    if t != [] {
      CountNone(t[1..]);
    }
  }

  /** Every stored key is reachable, and stored once.  `at` gives the number of
      steps from a key's hash to its slot; no slot on the way was ever emptied. */
  ghost predicate Reachable<V>(t: seq<Slot<V>>, at: map<nat, nat>, hash: nat -> nat, limit: nat)
    requires limit <= |t| && forall k: nat :: hash(k) < |t|
  {
    && (forall k :: k in at ==>
          && !Sentinel(k) && at[k] < limit
          && t[Probe(hash(k), at[k], |t|)].key == k)
    && (forall k, e: nat :: k in at && e < at[k] && at[k] < limit ==> t[Probe(hash(k), e, |t|)].key != EMPTY)
    && (forall i :: 0 <= i < |t| && !Sentinel(t[i].key) ==>
          t[i].key in at && at[t[i].key] < limit && Probe(hash(t[i].key), at[t[i].key], |t|) == i)
  }

  ghost predicate Models<V>(t: seq<Slot<V>>, at: map<nat, nat>, m: map<nat, V>, hash: nat -> nat, limit: nat)
    requires limit <= |t| && forall k: nat :: hash(k) < |t|
  {
    && Reachable(t, at, hash, limit)
    && m.Keys == at.Keys
    && forall k :: k in m ==> m[k] == t[Probe(hash(k), at[k], |t|)].value
  }

  /** Lookups agree with the abstract map. */
  lemma {:induction false} FindIsMap<V>(
    t: seq<Slot<V>>, at: map<nat, nat>, m: map<nat, V>, hash: nat -> nat, limit: nat, key: nat, d: nat)
    requires limit <= |t| && forall k: nat :: hash(k) < |t|
    requires Models(t, at, m, hash, limit) && !Sentinel(key) && d <= limit
    requires forall e: nat :: e < d ==> t[Probe(hash(key), e, |t|)].key !in {key, EMPTY}
    ensures var r := FindIdx(t, hash(key), limit, key, d);
            if key in m then r == Probe(hash(key), at[key], |t|) && t[r] == Slot(key, m[key])
            else r == -1
    decreases limit - d
  {
    if d < limit {
      var i := Probe(hash(key), d, |t|);
      if t[i].key != key && t[i].key != EMPTY {
        FindIsMap(t, at, m, hash, limit, key, d + 1);
      }
    }
  }

  /** Some slot in the key's probe window is unused, or holds a key in `gone`. */
  ghost predicate Room<V>(t: seq<Slot<V>>, h: nat, limit: nat, gone: set<nat>)
    requires h < |t| && limit <= |t|
  {
    exists d: nat :: d < limit && RoomAt(t, h, d, gone)
  }

  ghost predicate RoomAt<V>(t: seq<Slot<V>>, h: nat, d: nat, gone: set<nat>)
    requires h < |t| && d <= |t|
  {
    var k := t[Probe(h, d, |t|)].key;
    Sentinel(k) || k in gone
  }

  lemma RoomAfterRemove<V>(t: seq<Slot<V>>, i: nat, h: nat, limit: nat, gone: set<nat>)
    requires h < |t| && limit <= |t| && i < |t|
    requires forall j :: 0 <= j < |t| && j != i ==> t[j].key != t[i].key
    requires Room(t, h, limit, {t[i].key} + gone)
    ensures Room(t[i := t[i].(key := TOMBSTONE)], h, limit, gone)
  {
    var d: nat :| d < limit && RoomAt(t, h, d, {t[i].key} + gone);
    assert RoomAt(t[i := t[i].(key := TOMBSTONE)], h, d, gone);
  }

  /** `after` is `before` with the only slot of `key`, number `i`, deleted. */
  ghost predicate Tombstoned<V>(before: seq<Slot<V>>, after: seq<Slot<V>>, i: nat, key: nat) {
    && i < |before| && before[i].key == key
    && (forall j :: 0 <= j < |before| && j != i ==> before[j].key != key)
    && after == before[i := before[i].(key := TOMBSTONE)]
  }

  /** With an absent key, insertion succeeds exactly when there is room. */
  lemma {:induction false} FreeIffRoom<V>(t: seq<Slot<V>>, h: nat, limit: nat, key: nat, d: nat)
    requires h < |t| && d <= limit <= |t|
    requires forall i :: 0 <= i < |t| ==> t[i].key != key
    requires forall e: nat :: e < d ==> !RoomAt(t, h, e, {})
    ensures FreeIdx(t, h, limit, key, d) >= 0 <==> Room(t, h, limit, {})
    decreases limit - d
  {
    if d < limit {
      if RoomAt(t, h, d, {}) {
      } else {
        FreeIffRoom(t, h, limit, key, d + 1);
      }
    }
  }

  lemma {:induction false} FreeDistance<V>(t: seq<Slot<V>>, h: nat, limit: nat, key: nat, d: nat) returns (n: nat)
    requires h < |t| && d <= limit <= |t|
    requires FreeIdx(t, h, limit, key, d) >= 0
    ensures d <= n < limit && FreeIdx(t, h, limit, key, d) == Probe(h, n, |t|)
    ensures Sentinel(t[Probe(h, n, |t|)].key) || t[Probe(h, n, |t|)].key == key
    ensures forall e: nat :: d <= e < n ==> !Sentinel(t[Probe(h, e, |t|)].key)
    decreases limit - d
  {
    var i := Probe(h, d, |t|);
    if Sentinel(t[i].key) || t[i].key == key {
      n := d;
    } else {
      n := FreeDistance(t, h, limit, key, d + 1);
    }
  }

  lemma ModelsInsert<V>(
    t: seq<Slot<V>>, at: map<nat, nat>, m: map<nat, V>, hash: nat -> nat, limit: nat, key: nat, v: V, n: nat)
    requires limit <= |t| && forall k: nat :: hash(k) < |t|
    requires Models(t, at, m, hash, limit) && !Sentinel(key) && key !in m && n < limit
    requires Sentinel(t[Probe(hash(key), n, |t|)].key)
    requires forall e: nat :: e < n ==> !Sentinel(t[Probe(hash(key), e, |t|)].key)
    ensures Models(t[Probe(hash(key), n, |t|) := Slot(key, v)], at[key := n], m[key := v], hash, limit)
  {
  }

  lemma AbsentEverywhere<V>(t: seq<Slot<V>>, at: map<nat, nat>, m: map<nat, V>, hash: nat -> nat, limit: nat, key: nat)
    requires limit <= |t| && forall k: nat :: hash(k) < |t|
    requires Models(t, at, m, hash, limit) && key !in m && !Sentinel(key)
    ensures forall i :: 0 <= i < |t| ==> t[i].key != key
  {
  }

  /** Where the insertion of a stored key stops: never behind the key's own slot. */
  lemma {:induction false} FreeNotBehind<V>(
    t: seq<Slot<V>>, at: map<nat, nat>, hash: nat -> nat, limit: nat, key: nat, d: nat)
    requires limit <= |t| && forall k: nat :: hash(k) < |t|
    requires Reachable(t, at, hash, limit) && key in at && d <= at[key]
    ensures 0 <= FreeIdx(t, hash(key), limit, key, d) < |t|
    decreases at[key] - d
  {
    if d < at[key] {
      FreeNotBehind(t, at, hash, limit, key, d + 1);
    }
  }

  /** No tombstone lies on the way from a stored key's hash to its slot. */
  ghost predicate Unbroken<V>(t: seq<Slot<V>>, at: map<nat, nat>, hash: nat -> nat, limit: nat, key: nat)
    requires limit <= |t| && (forall k: nat :: hash(k) < |t|) && key in at && at[key] <= limit
  {
    forall e: nat :: e < at[key] ==> t[Probe(hash(key), e, |t|)].key != TOMBSTONE
  }

  /** The insertion of a stored key stops at its own slot exactly when no tombstone comes first. */
  lemma {:induction false} FreeIsOwn<V>(
    t: seq<Slot<V>>, at: map<nat, nat>, hash: nat -> nat, limit: nat, key: nat, d: nat)
    requires limit <= |t| && forall k: nat :: hash(k) < |t|
    requires Reachable(t, at, hash, limit) && key in at && d <= at[key]
    ensures FreeIdx(t, hash(key), limit, key, d) == Probe(hash(key), at[key], |t|)
       <==> forall e: nat :: d <= e < at[key] ==> t[Probe(hash(key), e, |t|)].key != TOMBSTONE
    decreases at[key] - d
  {
    if d < at[key] {
      FreeIsOwn(t, at, hash, limit, key, d + 1);
    }
  }

  /** The table stands for some map. */
  ghost predicate SomeModel<V>(t: seq<Slot<V>>, hash: nat -> nat, limit: nat)
    requires limit <= |t| && forall k: nat :: hash(k) < |t|
  {
    exists at :: Reachable(t, at, hash, limit)
  }

  /** Inserting a key that is stored already: the table still stands for a map, with the key's
      value replaced, if and only if no tombstone lies before the key on its probe path.  Otherwise
      the key is stored twice. */
  lemma Reinsert<V>(
    t: seq<Slot<V>>, at: map<nat, nat>, m: map<nat, V>, hash: nat -> nat, limit: nat, key: nat, v: V)
    requires limit <= |t| && forall k: nat :: hash(k) < |t|
    requires Models(t, at, m, hash, limit) && key in m
    ensures var i, own := FreeIdx(t, hash(key), limit, key, 0), Probe(hash(key), at[key], |t|);
            && 0 <= i < |t| && t[own].key == key && !Sentinel(key)
            && (i == own <==> Unbroken(t, at, hash, limit, key))
            && (Unbroken(t, at, hash, limit, key) ==> Models(t[i := Slot(key, v)], at, m[key := v], hash, limit))
            && (SomeModel(t[i := Slot(key, v)], hash, limit) <==> Unbroken(t, at, hash, limit, key))
  {
    hide FreeIdx;
    FreeIsOwn(t, at, hash, limit, key, 0);
    FreeNotBehind(t, at, hash, limit, key, 0);
    var i, own := FreeIdx(t, hash(key), limit, key, 0), Probe(hash(key), at[key], |t|);
    var t' := t[i := Slot(key, v)];
    if i == own {
      assert Models(t', at, m[key := v], hash, limit);
    } else {
      assert t'[i].key == key && t'[own].key == key && !Sentinel(key);
    }
  }

  /** A table in which key 7 was deleted before key 5, which shares its hash: inserting key 5
      again stores it twice. */
  lemma StoredTwice<V>(v: V)
    ensures var t, hash := [Slot(TOMBSTONE, v), Slot(5, v)], (_: nat) => 0;
            && Models(t, map[5 := 1], map[5 := v], hash, 2) && FreeIdx(t, 0, 2, 5, 0) == 0
            && !SomeModel(t[0 := Slot(5, v)], hash, 2)
  {
    hide FreeIdx;
    var t, hash := [Slot(TOMBSTONE, v), Slot(5, v)], (_: nat) => 0;
    assert Models(t, map[5 := 1], map[5 := v], hash, 2);
    FirstUnused(t, 5);
    Reinsert(t, map[5 := 1], map[5 := v], hash, 2, 5, v);
  }

  lemma FirstUnused<V>(t: seq<Slot<V>>, key: nat)
    requires |t| == 2 && t[0].key == TOMBSTONE
    ensures FreeIdx(t, 0, 2, key, 0) == 0
  {
  }

  lemma ModelsRemove<V>(
    t: seq<Slot<V>>, at: map<nat, nat>, m: map<nat, V>, hash: nat -> nat, limit: nat, key: nat)
    requires limit <= |t| && forall k: nat :: hash(k) < |t|
    requires Models(t, at, m, hash, limit) && key in m
    ensures var i := Probe(hash(key), at[key], |t|);
            && Models(t[i := t[i].(key := TOMBSTONE)], at - {key}, m - {key}, hash, limit)
            && Tombstoned(t, t[i := t[i].(key := TOMBSTONE)], i, key)
            && t[i].key == key && !Sentinel(key)
  {
  }

  class ProbeMap<V(0)> {
    const slots: array<Slot<V>>
    const hash: nat -> nat
    const limit: nat
    const blank: V
    var count: nat
    var tombstones: nat
    ghost var t: seq<Slot<V>>
    ghost var at: map<nat, nat>
    ghost var m: map<nat, V>

    ghost predicate Valid()
      reads this, slots
      ensures Valid() ==> limit <= |t| == slots.Length && forall k: nat :: hash(k) < |t|
    {
      && limit <= slots.Length
      && (forall k: nat :: hash(k) < slots.Length)
      && t == slots[..]
      && Models(t, at, m, hash, limit)
      && count == Count(t, false)
      && tombstones == Count(t, true)
    }

    constructor (size: nat, probes: nat, hash: nat -> nat, blank: V)
      requires probes <= size && forall k: nat :: hash(k) < size
      ensures Valid() && m == map[] && fresh(slots)
      ensures this.hash == hash && limit == probes && slots.Length == size
      ensures forall i :: 0 <= i < |t| ==> t[i].key == EMPTY
    {
      slots := new Slot<V>[size](_ => Slot(EMPTY, blank));
      this.hash, limit, this.blank := hash, probes, blank;
      count, tombstones := 0, 0;
      at, m := map[], map[];
      new;
      t := slots[..];
      CountNone(t);
    }

    /** The index of the slot holding `key`, or -1. */
    method Find(key: nat) returns (r: int)
      requires Valid()
      ensures r == -1 <==> key !in m
      ensures r != -1 ==> r == Probe(hash(key), at[key], |t|) && t[r] == Slot(key, m[key])
    {
      if key == EMPTY || key == TOMBSTONE {
        return -1;
      }
      var h := hash(key);
      FindIsMap(t, at, m, hash, limit, key, 0);
      for i := 0 to limit
        invariant FindIdx(t, h, limit, key, 0) == FindIdx(t, h, limit, key, i)
      {
        var idx := Probe(h, i, slots.Length);
        if slots[idx].key == key {
          return idx;
        }
        if slots[idx].key == EMPTY {
          return -1;
        }
      }
      return -1;
    }

    function Get(i: nat): (s: Slot<V>)
      requires Valid() && i < |t|
      reads this, slots
      ensures s == t[i]
    {
      slots[i]
    }

    /** Fill the unused slot `idx`, which the probe for `key` stopped at. */
    method Store(idx: nat, key: nat, value: V)
      requires Valid() && !Sentinel(key)
      requires idx == FreeIdx(t, hash(key), limit, key, 0) && idx < |t| && Sentinel(t[idx].key)
      modifies this, slots
      ensures t == slots[..] == old(t)[idx := Slot(key, value)]
      ensures key !in old(m) ==> Valid() && m == old(m)[key := value]
    {
      hide Models, Count, FreeIdx;
      CountUpdate(t, true, idx, Slot(key, value));
      CountUpdate(t, false, idx, Slot(key, value));
      ghost var n := FreeDistance(t, hash(key), limit, key, 0);
      if key !in m {
        ModelsInsert(t, at, m, hash, limit, key, value, n);
      }
      if slots[idx].key == TOMBSTONE {
        tombstones := tombstones - 1;
      }
      slots[idx] := Slot(key, value);
      count := count + 1;
      t, at, m := t[idx := Slot(key, value)], at[key := n], m[key := value];
    }

    /** The key is stored, with no tombstone before it on its probe path. */
    ghost predicate Replaces(key: nat)
      requires Valid()
      reads this, slots
    {
      key in m && key in at && at[key] <= limit && Unbroken(t, at, hash, limit, key)
    }

    /** Store `value` under `key`; false when the probe window has no room. */
    method Insert(key: nat, value: V) returns (ok: bool)
      requires Valid() && !Sentinel(key)
      modifies this, slots
      ensures var i := FreeIdx(old(t), hash(key), limit, key, 0);
              -1 <= i < |old(t)| && (ok <==> i != -1)
              && t == slots[..] == (if ok then old(t)[i := Slot(key, value)] else old(t))
      ensures key !in old(m) ==> Valid() && (ok <==> Room(old(t), hash(key), limit, {}))
      ensures key !in old(m) ==> m == if ok then old(m)[key := value] else old(m)
      ensures old(Replaces(key)) ==> Valid() && ok && m == old(m)[key := value]
    {
      hide Room, Count, Models, Reachable, Unbroken;
      var h := hash(key);
      FreeIdxInRange(t, h, limit, key, 0);
      if key !in m {
        AbsentEverywhere(t, at, m, hash, limit, key);
        FreeIffRoom(t, h, limit, key, 0);
      } else {
        Reinsert(t, at, m, hash, limit, key, value);
      }
      for i := 0 to limit
        invariant FreeIdx(t, h, limit, key, 0) == FreeIdx(t, h, limit, key, i)
      {
        var idx := Probe(h, i, slots.Length);
        if slots[idx].key == EMPTY || slots[idx].key == TOMBSTONE {
          Store(idx, key, value);
          return true;
        }
        if slots[idx].key == key {
          CountUpdate(t, true, idx, Slot(key, value));
          CountUpdate(t, false, idx, Slot(key, value));
          slots[idx] := slots[idx].(value := value);
          t, m := t[idx := Slot(key, value)], if key in m then m[key := value] else m;
          return true;
        }
      }
      return false;
    }

    /** Delete the slot `idx`, which holds `key`. */
    method Bury(idx: nat, key: nat)
      requires Valid() && key in m && idx == Probe(hash(key), at[key], |t|)
      modifies this, slots
      ensures Valid() && m == old(m) - {key} && Tombstoned(old(t), t, idx, key)
    {
      hide Models, Count, Tombstoned, Probe;
      var dead := slots[idx].(key := TOMBSTONE);
      CountUpdate(t, true, idx, dead);
      CountUpdate(t, false, idx, dead);
      ModelsRemove(t, at, m, hash, limit, key);
      slots[idx] := dead;
      count, tombstones := count - 1, tombstones + 1;
      t, at, m := t[idx := dead], at - {key}, m - {key};
    }

    /** Replace the key's slot by a tombstone, if it is stored. */
    method Remove(key: nat) returns (found: bool)
      requires Valid()
      modifies this, slots
      ensures Valid() && (found <==> key in old(m)) && m == old(m) - {key}
      ensures !found ==> unchanged(this)
      ensures found ==> exists i: nat :: Tombstoned(old(t), t, i, key)
    {
      var idx := Find(key);
      if idx == -1 {
        assert m - {key} == m;
        return false;
      }
      Bury(idx, key);
      return true;
    }

    method Clear()
      requires Valid()
      modifies this, slots
      ensures Valid() && m == map[] && |t| == |old(t)|
    {
      forall i | 0 <= i < slots.Length {
        slots[i] := Slot(EMPTY, blank);
      }
      count, tombstones := 0, 0;
      t, at, m := slots[..], map[], map[];
      CountNone(t);
    }
  }
}
