/** Sequence facts shared by the model: positional edits, duplicate-freedom,
    flattening of the per-level lists, and the pigeonhole bound. */
module Sequences {

  function InsertAt<T>(s: seq<T>, p: nat, x: T): seq<T>
    requires p <= |s|
  {
    s[..p] + [x] + s[p..]
  }

  function RemoveAt<T>(s: seq<T>, p: nat): seq<T>
    requires p < |s|
  {
    s[..p] + s[p + 1..]
  }

  ghost predicate Distinct<T>(s: seq<T>) {
    forall i, j :: 0 <= i < j < |s| ==> s[i] != s[j]
  }

  ghost function Elems<T>(s: seq<T>): set<T> {
    set x | x in s
  }

  /** All lists of `ss`, one after the other. */
  ghost function Concat<T>(ss: seq<seq<T>>): seq<T> {
    if ss == [] then [] else ss[0] + Concat(ss[1..])
  }

  lemma {:induction false} ConcatAppend<T>(a: seq<seq<T>>, b: seq<seq<T>>)
    ensures Concat(a + b) == Concat(a) + Concat(b)
  {
    if a == [] {
      assert a + b == b;
    } else {
      var c := a + b;
      assert c[0] == a[0] && c[1..] == a[1..] + b;
      ConcatAppend(a[1..], b);
      assert a[0] + (Concat(a[1..]) + Concat(b)) == (a[0] + Concat(a[1..])) + Concat(b);
    }
  }

  /** The list `ss[l]` sits between the flattened lists before and after it. */
  lemma ConcatSplit<T>(ss: seq<seq<T>>, l: nat)
    requires l < |ss|
    ensures Concat(ss) == Concat(ss[..l]) + ss[l] + Concat(ss[l + 1..])
  {
    hide Concat;
    SplitAround(ss, l);
    ConcatAppend(ss[..l], [ss[l]] + ss[l + 1..]);
    ConcatCons(ss[l], ss[l + 1..]);
    Associative(Concat(ss[..l]), ss[l], Concat(ss[l + 1..]));
  }

  lemma SplitAround<T>(s: seq<T>, i: nat)
    requires i < |s|
    ensures s == s[..i] + ([s[i]] + s[i + 1..])
  {
  }

  lemma ConcatCons<T>(x: seq<T>, ss: seq<seq<T>>)
    ensures Concat([x] + ss) == x + Concat(ss)
  {
    assert ([x] + ss)[1..] == ss;
  }

  lemma Associative<T>(a: seq<T>, b: seq<T>, c: seq<T>)
    ensures a + (b + c) == a + b + c
  {
  }

  /** Replacing the list at `l` replaces just that stretch of the flattening. */
  lemma ConcatUpdate<T>(ss: seq<seq<T>>, l: nat, s: seq<T>)
    requires l < |ss|
    ensures Concat(ss[l := s]) == Concat(ss[..l]) + s + Concat(ss[l + 1..])
  {
    ConcatSplit(ss[l := s], l);
    assert ss[l := s][..l] == ss[..l];
    assert ss[l := s][l + 1..] == ss[l + 1..];
  }

  lemma {:induction false} InConcat<T>(ss: seq<seq<T>>, x: T) returns (l: nat, k: nat)
    requires x in Concat(ss)
    ensures l < |ss| && k < |ss[l]| && ss[l][k] == x
  {
    if x in ss[0] {
      l := 0;
      k :| 0 <= k < |ss[0]| && ss[0][k] == x;
    } else {
      l, k := InConcat(ss[1..], x);
      l := l + 1;
    }
  }

  lemma {:induction false} DistinctElems<T>(s: seq<T>)
    requires Distinct(s)
    ensures |Elems(s)| == |s|
  {
    if s == [] {
      assert Elems(s) == {};
    } else {
      DistinctElems(s[1..]);
      assert Elems(s) == {s[0]} + Elems(s[1..]);
    }
  }

  lemma {:induction false} BelowSize(n: nat, s: set<nat>)
    requires forall x :: x in s ==> x < n
    ensures |s| <= n
  {
    if n == 0 {
      assert s == {};
    } else {
      BelowSize(n - 1, s - {n - 1});
      assert |s| <= |s - {n - 1}| + 1 by {
        if n - 1 in s { assert s == (s - {n - 1}) + {n - 1}; } else { assert s == s - {n - 1}; }
      }
    }
  }

  lemma SubsetSize<T>(a: set<T>, b: set<T>)
    requires a <= b
    ensures |a| <= |b|
  {
    assert b == a + (b - a);
  }

  /** Pigeonhole: duplicate-free numbers below `n` are at most `n` many. */
  lemma DistinctBelow(n: nat, s: seq<nat>)
    requires Distinct(s)
    requires forall i :: 0 <= i < |s| ==> s[i] < n
    ensures |s| <= n
  {
    DistinctElems(s);
    BelowSize(n, Elems(s));
  }

  lemma DistinctAppend<T>(s: seq<T>, t: seq<T>)
    requires Distinct(s) && Distinct(t)
    requires forall x :: x in s ==> x !in t
    ensures Distinct(s + t)
  {
    forall i, j | 0 <= i < j < |s + t|
      ensures (s + t)[i] != (s + t)[j]
    {
      if i < |s| <= j {
        assert s[i] in s && t[j - |s|] in t;
      }
    }
  }

  lemma DistinctParts<T>(a: seq<T>, b: seq<T>, c: seq<T>)
    requires Distinct(a + b + c)
    ensures Distinct(a) && Distinct(b) && Distinct(c) && Distinct(a + c)
    ensures forall x :: x in b ==> x !in a && x !in c
  {
    var s := a + b + c;
    assert forall i :: 0 <= i < |a| ==> a[i] == s[i];
    assert forall i :: 0 <= i < |b| ==> b[i] == s[|a| + i];
    assert forall i :: 0 <= i < |c| ==> c[i] == s[|a| + |b| + i];
  }

  lemma RemoveMembers<T>(s: seq<T>, p: nat)
    requires Distinct(s) && p < |s|
    ensures forall x :: x in RemoveAt(s, p) <==> x in s && x != s[p]
  {
    var r := RemoveAt(s, p);
    forall x | x in s && x != s[p]
      ensures x in r
    {
      var i :| 0 <= i < |s| && s[i] == x;
      assert r[if i < p then i else i - 1] == x;
    }
  }

  lemma InsertMembers<T>(s: seq<T>, p: nat, y: T)
    requires p <= |s|
    ensures forall x :: x in InsertAt(s, p, y) <==> x in s || x == y
  {
    assert s == s[..p] + s[p..];
  }

  /** Where `ss[l][k]` sits in the flattening. */
  ghost function Offset<T>(ss: seq<seq<T>>, l: nat, k: nat): nat
    requires l <= |ss|
  {
    |Concat(ss[..l])| + k
  }

  lemma SpliceRemove<T>(a: seq<T>, s: seq<T>, c: seq<T>, k: nat)
    requires k < |s|
    ensures (a + s + c)[|a| + k] == s[k]
    ensures RemoveAt(a + s + c, |a| + k) == a + RemoveAt(s, k) + c
  {
  }

  lemma FlatRemove<T>(ss: seq<seq<T>>, l: nat, k: nat)
    requires l < |ss| && k < |ss[l]|
    ensures Offset(ss, l, k) < |Concat(ss)| && Concat(ss)[Offset(ss, l, k)] == ss[l][k]
    ensures Concat(ss[l := RemoveAt(ss[l], k)]) == RemoveAt(Concat(ss), Offset(ss, l, k))
  {
    ConcatSplit(ss, l);
    ConcatUpdate(ss, l, RemoveAt(ss[l], k));
    SpliceRemove(Concat(ss[..l]), ss[l], Concat(ss[l + 1..]), k);
  }

  lemma SpliceAppend<T>(a: seq<T>, s: seq<T>, c: seq<T>, x: T)
    ensures InsertAt(a + s + c, |a| + |s|, x) == a + (s + [x]) + c
  {
  }

  lemma FlatAppend<T>(ss: seq<seq<T>>, l: nat, x: T)
    requires l < |ss|
    ensures Offset(ss, l, |ss[l]|) <= |Concat(ss)|
    ensures Concat(ss[l := ss[l] + [x]]) == InsertAt(Concat(ss), Offset(ss, l, |ss[l]|), x)
  {
    ConcatSplit(ss, l);
    ConcatUpdate(ss, l, ss[l] + [x]);
    SpliceAppend(Concat(ss[..l]), ss[l], Concat(ss[l + 1..]), x);
  }

  lemma ConcatSkip<T>(ss: seq<seq<T>>)
    requires ss != [] && ss[0] == []
    ensures Concat(ss) == Concat(ss[1..])
  {
  }

  /** An empty list contributes nothing. */
  lemma ConcatGap<T>(ss: seq<seq<T>>, l: nat)
    requires l <= |ss|
    ensures Concat(InsertAt(ss, l, [])) == Concat(ss)
  {
    var a, b := ss[..l], ss[l..];
    var gap: seq<seq<T>> := [[]];
    assert ss == a + b && InsertAt(ss, l, []) == a + (gap + b);
    ConcatAppend(a, gap + b);
    ConcatAppend(a, b);
    assert (gap + b)[0] == [] && (gap + b)[1..] == b;
    ConcatSkip(gap + b);
  }
}
