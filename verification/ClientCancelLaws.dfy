/** When a client cancel removes exactly the client's orders: if and only if none of
    them stands behind 200 others at its price. */
module ClientCancelLaws {
  import opened Orders
  import opened PriceTime
  import opened PriceLevels
  import opened BookLaws
  import opened Ledger

  /** How many orders of `flat` are at `price`. */
  function CountAt(flat: seq<Resting>, price: int): nat {
    if flat == [] then 0 else (if flat[0].price == price then 1 else 0) + CountAt(flat[1..], price)
  }

  /** How many orders stand before order `i` at its price. */
  function Rank(flat: seq<Resting>, i: nat): nat
    requires i < |flat|
  {
    CountAt(flat[..i], flat[i].price)
  }

  /** Orders at one price stand together; those at `price` stand first. */
  ghost predicate Grouped(flat: seq<Resting>, price: int) {
    && (forall i, j :: 0 <= i < j < |flat| && flat[j].price == price ==> flat[i].price == price)
    && (forall i, j, k :: 0 <= i < j < k < |flat| && flat[i].price == flat[k].price ==> flat[j].price == flat[k].price)
  }

  lemma OrderedGrouped(side: Side, flat: seq<Resting>)
    requires Ordered(side, flat) && Sound(flat)
    ensures Grouped(flat, 0)
  {
    forall i, j, k | 0 <= i < j < k < |flat| && flat[i].price == flat[k].price
      ensures flat[j].price == flat[k].price
    {
      assert !Better(side, flat[j].price, flat[i].price) && !Better(side, flat[k].price, flat[j].price);
    }
  }

  lemma {:induction false} ReachWithin(flat: seq<Resting>, price: int, n: nat, r: Resting) returns (k: nat)
    requires r in Reach(flat, price, n)
    ensures k < |flat| && flat[k] == r
    decreases |flat|
  {
    var rank := if flat[0].price == price then n else 0;
    if r == flat[0] {
      k := 0;
    } else {
      k := ReachWithin(flat[1..], flat[0].price, rank + 1, r);
      k := k + 1;
    }
  }

  /** The scan reaches an order exactly when fewer than 200 stand before it at its price. */
  lemma {:induction false} ReachIsRank(flat: seq<Resting>, price: int, n: nat, i: nat)
    requires Grouped(flat, price) && Apart(flat) && i < |flat|
    ensures flat[i] in Reach(flat, price, n)
        <==> (if flat[i].price == price then n else 0) + Rank(flat, i) < 200
    decreases |flat|
  {
    var rank, rest := if flat[0].price == price then n else 0, flat[1..];
    if i == 0 {
      if flat[0] in Reach(rest, flat[0].price, rank + 1) {
        var j := ReachWithin(rest, flat[0].price, rank + 1, flat[0]);
      }
    } else {
      assert Grouped(rest, flat[0].price) by {
        forall x, y | 0 <= x < y < |rest| && rest[y].price == flat[0].price
          ensures rest[x].price == flat[0].price
        {
          assert flat[x + 1].price == flat[y + 1].price;
        }
        forall x, y, z | 0 <= x < y < z < |rest| && rest[x].price == rest[z].price
          ensures rest[y].price == rest[z].price
        {
          assert flat[y + 1].price == flat[z + 1].price;
        }
      }
      ReachIsRank(rest, flat[0].price, rank + 1, i - 1);
      assert rest[i - 1] == flat[i] && rest[..i - 1] == flat[..i][1..];
      assert flat[i] != flat[0];
    }
  }

  lemma {:induction false} InKeysOf(flat: seq<Resting>, client: u32, user: u32, oid: u32)
    ensures (user, oid) in KeysOf(flat, client)
        <==> exists i :: 0 <= i < |flat| && flat[i].client == client && flat[i].user == user && flat[i].oid == oid
  {
    if flat != [] {
      InKeysOf(flat[1..], client, user, oid);
      if i :| 0 <= i < |flat| && flat[i].client == client && flat[i].user == user && flat[i].oid == oid {
        if i > 0 {
          assert flat[1..][i - 1] == flat[i];
        }
      }
      if j :| 0 <= j < |flat[1..]| && flat[1..][j].client == client && flat[1..][j].user == user && flat[1..][j].oid == oid {
        assert flat[j + 1] == flat[1..][j];
      }
    }
  }

  /** A collected key is the key of a reached order of the client. */
  lemma CollectedFrom(flat: seq<Resting>, price: int, n: nat, client: u32, user: u32, oid: u32) returns (k: nat)
    requires (user, oid) in KeysOf(Reach(flat, price, n), client)
    ensures k < |flat| && flat[k] in Reach(flat, price, n)
    ensures flat[k].client == client && flat[k].user == user && flat[k].oid == oid && RestKey(flat[k]) == Key(user, oid)
  {
    var reach := Reach(flat, price, n);
    InKeysOf(reach, client, user, oid);
    var j :| 0 <= j < |reach| && reach[j].client == client && reach[j].user == user && reach[j].oid == oid;
    k := ReachWithin(flat, price, n, reach[j]);
  }

  lemma InKeySet(keys: seq<(u32, u32)>, user: u32, oid: u32)
    ensures Key(user, oid) in KeySet(keys) <==> (user, oid) in keys
  {
    if Key(user, oid) in KeySet(keys) {
      var i :| 0 <= i < |keys| && Key(user, oid) == Key(keys[i].0, keys[i].1);
      KeyInjective(user, oid, keys[i].0, keys[i].1);
      assert keys[i] == (user, oid);
    }
  }

  /** The key of order `i` is among those collected on its own side exactly when the
      order is the client's and the scan reaches it. */
  lemma OwnKeys(side: Side, flat: seq<Resting>, client: u32, i: nat)
    requires SideInv(side, flat) && i < |flat|
    ensures (flat[i].user, flat[i].oid) in KeysOf(Reach(flat, 0, 0), client)
        <==> flat[i].client == client && Rank(flat, i) < SCAN
  {
    OrderedGrouped(side, flat);
    var reach := Reach(flat, 0, 0);
    InKeysOf(reach, client, flat[i].user, flat[i].oid);
    ReachIsRank(flat, 0, 0, i);
    if (flat[i].user, flat[i].oid) in KeysOf(reach, client) {
      var k := CollectedFrom(flat, 0, 0, client, flat[i].user, flat[i].oid);
      assert k == i;
    }
  }

  lemma OtherKeys(flat: seq<Resting>, other: seq<Resting>, client: u32, i: nat)
    requires Disjoint(flat, other) || Disjoint(other, flat)
    requires i < |flat|
    ensures (flat[i].user, flat[i].oid) !in KeysOf(Reach(other, 0, 0), client)
  {
    if (flat[i].user, flat[i].oid) in KeysOf(Reach(other, 0, 0), client) {
      var k := CollectedFrom(other, 0, 0, client, flat[i].user, flat[i].oid);
    }
  }

  lemma CollectedIs(b: Book, client: u32, side: Side, i: nat)
    requires Inv(b) && i < |b.At(side)|
    ensures RestKey(b.At(side)[i]) in KeySet(Collected(b, client))
        <==> b.At(side)[i].client == client && Rank(b.At(side), i) < SCAN
  {
    hide Ordered, Sound, Apart, Uncrossed, Best, Rank;
    var r := b.At(side)[i];
    OwnKeys(side, b.At(side), client, i);
    OtherKeys(b.At(side), b.At(side.Opposite()), client, i);
    InKeySet(Collected(b, client), r.user, r.oid);
  }

  /** The orders of everybody else, in their old order. */
  function Others(flat: seq<Resting>, client: u32): seq<Resting> {
    if flat == [] then []
    else (if flat[0].client == client then [] else [flat[0]]) + Others(flat[1..], client)
  }

  /** A filter by keys is the filter by client exactly when it takes all the client's orders. */
  lemma {:induction false} FilterIsOthers(flat: seq<Resting>, keys: set<nat>, client: u32)
    requires forall i :: 0 <= i < |flat| && RestKey(flat[i]) in keys ==> flat[i].client == client
    ensures |Others(flat, client)| <= |FilterOut(flat, keys)|
    ensures FilterOut(flat, keys) == Others(flat, client)
        <==> forall i :: 0 <= i < |flat| && flat[i].client == client ==> RestKey(flat[i]) in keys
  {
    if flat != [] {
      FilterIsOthers(flat[1..], keys, client);
      var f, g := FilterOut(flat[1..], keys), Others(flat[1..], client);
      if forall i :: 0 <= i < |flat| && flat[i].client == client ==> RestKey(flat[i]) in keys {
        assert forall i :: 0 <= i < |flat[1..]| ==> flat[1..][i] == flat[i + 1];
      } else if flat[0].client == client && RestKey(flat[0]) !in keys {
        assert |FilterOut(flat, keys)| == 1 + |f| && |Others(flat, client)| == |g|;
      } else {
        var i :| 0 <= i < |flat| && flat[i].client == client && RestKey(flat[i]) !in keys;
        assert flat[1..][i - 1] == flat[i];
        assert f != g;
        if flat[0].client != client {
          assert ([flat[0]] + f)[1..] == f && ([flat[0]] + g)[1..] == g;
        } else {
          assert FilterOut(flat, keys) == f && Others(flat, client) == g;
        }
      }
    }
  }

  /** Every order of the client is among the first 200 at its price. */
  ghost predicate AllReached(flat: seq<Resting>, client: u32) {
    forall i :: 0 <= i < |flat| && flat[i].client == client ==> Rank(flat, i) < 200
  }

  /** A client cancel leaves a side without exactly that client's orders, all others in
      place, if and only if the scan bound hides none of them. */
  lemma ClientCancelExact(b: Book, client: u32, side: Side)
    requires Inv(b)
    ensures CancelClient(b, client).book.At(side) == Others(b.At(side), client) <==> AllReached(b.At(side), client)
  {
    hide Inv, CancelAll, FilterOut, Others, Rank, Collected;
    var keys, flat := Collected(b, client), b.At(side);
    CancelAllIsFilter(b, keys, side);
    forall i | 0 <= i < |flat|
      ensures RestKey(flat[i]) in KeySet(keys) <==> flat[i].client == client && Rank(flat, i) < SCAN
    {
      CollectedIs(b, client, side, i);
    }
    FilterIsOthers(flat, KeySet(keys), client);
  }

  lemma {:induction false} CountBound(flat: seq<Resting>, n: nat, price: int)
    requires n <= |flat|
    ensures CountAt(flat[..n], price) <= CountAt(flat, price)
  {
    if n > 0 {
      CountBound(flat[1..], n - 1, price);
      assert flat[..n][1..] == flat[1..][..n - 1];
    }
  }

  lemma {:induction false} CountSelf(flat: seq<Resting>, i: nat)
    requires i < |flat|
    ensures Rank(flat, i) < CountAt(flat, flat[i].price)
  {
    CountBound(flat, i + 1, flat[i].price);
    assert flat[..i + 1] == flat[..i] + [flat[i]];
    CountAppend(flat[..i], [flat[i]], flat[i].price);
  }

  lemma {:induction false} CountAppend(a: seq<Resting>, b: seq<Resting>, price: int)
    ensures CountAt(a + b, price) == CountAt(a, price) + CountAt(b, price)
  {
    if a == [] {
      assert a + b == b;
    } else {
      CountAppend(a[1..], b, price);
      assert (a + b)[0] == a[0] && (a + b)[1..] == a[1..] + b;
    }
  }

  /** In particular it is exact when no price level holds more than 200 orders. */
  lemma SmallLevelsExact(b: Book, client: u32, side: Side)
    requires Inv(b) && forall i :: 0 <= i < |b.At(side)| ==> CountAt(b.At(side), b.At(side)[i].price) <= 200
    ensures CancelClient(b, client).book.At(side) == Others(b.At(side), client)
  {
    hide Inv, CancelClient, Others, Rank, CountAt;
    var flat := b.At(side);
    forall i | 0 <= i < |flat|
      ensures Rank(flat, i) < SCAN
    {
      CountSelf(flat, i);
    }
    ClientCancelExact(b, client, side);
  }

  // ----- The returned number -----

  lemma KeysNone(price: int, n: nat, client: u32)
    ensures KeysOf(Reach([], price, n), client) == []
  {
  }

  lemma ApartTail(flat: seq<Resting>)
    requires Apart(flat) && flat != []
    ensures Apart(flat[1..])
    ensures forall i :: 0 <= i < |flat| - 1 ==> RestKey(flat[1..][i]) != RestKey(flat[0])
  {
  }

  /** What the first order contributes to the collected keys. */
  lemma KeysStep(flat: seq<Resting>, price: int, n: nat, client: u32) returns (head: seq<(u32, u32)>)
    requires flat != []
    ensures var rank := if flat[0].price == price then n else 0;
            KeysOf(Reach(flat, price, n), client) == head + KeysOf(Reach(flat[1..], flat[0].price, rank + 1), client)
    ensures head == [] || head == [(flat[0].user, flat[0].oid)]
  {
    var rank := if flat[0].price == price then n else 0;
    var reach := Reach(flat[1..], flat[0].price, rank + 1);
    head := if rank < SCAN && flat[0].client == client then [(flat[0].user, flat[0].oid)] else [];
    if rank < SCAN {
      assert Reach(flat, price, n) == [flat[0]] + reach && ([flat[0]] + reach)[1..] == reach;
    } else {
      assert Reach(flat, price, n) == reach;
    }
  }

  lemma {:induction false} KeysCount(flat: seq<Resting>, price: int, n: nat, client: u32, keys: set<nat>)
    requires Apart(flat)
    requires forall i :: 0 <= i < |flat| ==>
               (RestKey(flat[i]) in keys <==> (flat[i].user, flat[i].oid) in KeysOf(Reach(flat, price, n), client))
    ensures |KeysOf(Reach(flat, price, n), client)| + |FilterOut(flat, keys)| == |flat|
    decreases |flat|
  {
    hide Reach, KeysOf, Apart;
    if flat == [] {
      KeysNone(price, n, client);
    } else {
      var rank, rest := if flat[0].price == price then n else 0, flat[1..];
      var reach := Reach(rest, flat[0].price, rank + 1);
      ApartTail(flat);
      var head := KeysStep(flat, price, n, client);
      assert (flat[0].user, flat[0].oid) !in KeysOf(reach, client) by {
        HeadNotBehind(flat, flat[0].price, rank + 1, client);
      }
      forall i | 0 <= i < |rest|
        ensures RestKey(rest[i]) in keys <==> (rest[i].user, rest[i].oid) in KeysOf(reach, client)
      {
        assert rest[i] == flat[i + 1];
        KeyInjective(rest[i].user, rest[i].oid, flat[0].user, flat[0].oid);
      }
      KeysCount(rest, flat[0].price, rank + 1, client, keys);
    }
  }

  lemma HeadNotBehind(flat: seq<Resting>, price: int, n: nat, client: u32)
    requires Apart(flat) && flat != []
    ensures (flat[0].user, flat[0].oid) !in KeysOf(Reach(flat[1..], price, n), client)
  {
    if (flat[0].user, flat[0].oid) in KeysOf(Reach(flat[1..], price, n), client) {
      var k := CollectedFrom(flat[1..], price, n, client, flat[0].user, flat[0].oid);
    }
  }

  lemma SideCount(b: Book, client: u32, side: Side)
    requires Inv(b)
    ensures |KeysOf(Reach(b.At(side), 0, 0), client)| + |CancelClient(b, client).book.At(side)| == |b.At(side)|
  {
    hide Ordered, Sound, Apart, Uncrossed, Best, CancelAll, FilterOut, Reach, KeysOf, KeySet;
    var keys, flat := Collected(b, client), b.At(side);
    CancelAllIsFilter(b, keys, side);
    forall i | 0 <= i < |flat|
      ensures RestKey(flat[i]) in KeySet(keys) <==> (flat[i].user, flat[i].oid) in KeysOf(Reach(flat, 0, 0), client)
    {
      InKeySet(keys, flat[i].user, flat[i].oid);
      OtherKeys(flat, b.At(side.Opposite()), client, i);
    }
    KeysCount(flat, 0, 0, client, KeySet(keys));
  }

  /** The number reported is the number of orders that left the book. */
  lemma ClientCancelCount(b: Book, client: u32)
    requires Inv(b)
    ensures var after := CancelClient(b, client).book;
            |Collected(b, client)| + |after.bids| + |after.asks| == |b.bids| + |b.asks|
  {
    hide Inv, CancelClient, Reach, KeysOf;
    SideCount(b, client, Buy);
    SideCount(b, client, Sell);
  }

  // ----- The scan bound does bite -----

  /** 201 orders of client 1 at one price. */
  function Crowd(): seq<Resting> {
    seq(201, i requires 0 <= i < 201 => Resting(1, i + 1, 1, 100, 1, 1))
  }

  function CrowdedBook(): Book {
    Book("X", Crowd(), [], Best(Crowd()), Top(0, 0), true, false)
  }

  lemma {:induction false} CountUniform(flat: seq<Resting>, price: int)
    requires forall i :: 0 <= i < |flat| ==> flat[i].price == price
    ensures CountAt(flat, price) == |flat|
  {
    if flat != [] {
      CountUniform(flat[1..], price);
    }
  }

  /** Of a client with 201 orders at one price the first 200 are cancelled, and the last one stays. */
  lemma CrowdSurvives()
    ensures Inv(CrowdedBook()) && |Crowd()| == 201 && forall i :: 0 <= i < 201 ==> Crowd()[i].client == 1 && Crowd()[i].price == 100
    ensures CancelClient(CrowdedBook(), 1).book.bids == [Crowd()[200]] && |Collected(CrowdedBook(), 1)| == 200
  {
    hide CancelAll, Collected, FilterOut, Best, Inv;
    var b, flat, keys := CrowdedBook(), Crowd(), Collected(CrowdedBook(), 1);
    CrowdInv();
    CancelAllIsFilter(b, keys, Buy);
    forall i | 0 <= i < 201
      ensures RestKey(flat[i]) in KeySet(keys) <==> i < 200
    {
      CountUniform(flat[..i], 100);
      CollectedIs(b, 1, Buy, i);
    }
    FilterFirst(flat, KeySet(keys), 200);
    CancelAllIsFilter(b, keys, Sell);
    NothingFiltered(KeySet(keys));
    ClientCancelCount(b, 1);
  }

  lemma NothingFiltered(keys: set<nat>)
    ensures FilterOut([], keys) == []
  {
  }

  /** Filtering out exactly the first `n`. */
  lemma {:induction false} FilterFirst(flat: seq<Resting>, keys: set<nat>, n: nat)
    requires n <= |flat| && forall i :: 0 <= i < |flat| ==> (RestKey(flat[i]) in keys <==> i < n)
    ensures FilterOut(flat, keys) == flat[n..]
    decreases |flat|
  {
    if flat == [] {
    } else if n == 0 {
      FilterNone(flat, keys);
    } else {
      FilterFirst(flat[1..], keys, n - 1);
    }
  }

  lemma CrowdInv()
    ensures Inv(CrowdedBook())
  {
  }
}
