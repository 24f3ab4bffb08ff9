/** What the greedy match is, without recursion: the one allocation that fills a longest
    affordable prefix of the crossing orders and spends the rest on the next one. */
module MatchLaws {
  import opened Orders
  import opened Sequences
  import opened PriceTime
  import opened PriceLevels

  ghost predicate AllLive(flat: seq<Resting>) {
    forall i :: 0 <= i < |flat| ==> flat[i].rem > 0
  }

  /** The traded quantity in a message sequence. */
  function Volume(msgs: seq<Msg>): nat {
    if msgs == [] then 0 else (if msgs[0].Trade? then msgs[0].qty else 0) + Volume(msgs[1..])
  }

  /** The trades that fill every order of `flat` completely. */
  function Fills(symbol: string, o: NewOrder, flat: seq<Resting>): seq<Msg> {
    seq(|flat|, i requires 0 <= i < |flat| => TradeMsg(symbol, o, flat[i], flat[i].rem))
  }

  /** `m` fills the first `k` orders of `opp` and no more: they all cross and are affordable,
      what is left after them goes to order `k` if that crosses, and is too little to fill it. */
  ghost predicate Greedy(symbol: string, o: NewOrder, rem: u32, opp: seq<Resting>, m: Matched, k: nat) {
    && k <= |opp| && TotalQty(opp[..k]) <= rem
    && (forall i :: 0 <= i < k ==> Crosses(o.side, o.price, opp[i].price))
    && var rest := rem - TotalQty(opp[..k]);
       if rest > 0 && k < |opp| && Crosses(o.side, o.price, opp[k].price) then
         && rest < opp[k].rem
         && m == Matched(Fills(symbol, o, opp[..k]) + [TradeMsg(symbol, o, opp[k], rest)], 0,
                         [opp[k].(rem := opp[k].rem - rest)] + opp[k + 1..])
       else m == Matched(Fills(symbol, o, opp[..k]), rest, opp[k..])
  }

  /** How many orders the greedy match fills completely. */
  ghost function FilledCount(o: NewOrder, rem: u32, opp: seq<Resting>): nat
    decreases |opp|
  {
    if rem == 0 || opp == [] || !Crosses(o.side, o.price, opp[0].price) || opp[0].rem > rem then 0
    else 1 + FilledCount(o, rem - opp[0].rem, opp[1..])
  }

  lemma TotalFirst(opp: seq<Resting>, k: nat)
    requires opp != [] && k < |opp|
    ensures TotalQty(opp[..k + 1]) == opp[0].rem + TotalQty(opp[1..][..k])
  {
    assert opp[..k + 1][1..] == opp[1..][..k];
  }

  lemma FillsFirst(symbol: string, o: NewOrder, opp: seq<Resting>, k: nat)
    requires k < |opp|
    ensures Fills(symbol, o, opp[..k + 1]) == [TradeMsg(symbol, o, opp[0], opp[0].rem)] + Fills(symbol, o, opp[1..][..k])
  {
  }

  lemma ShiftOne<T>(s: seq<T>, k: nat)
    requires k < |s|
    ensures s[1..][k..] == s[k + 1..]
    ensures k + 1 < |s| ==> s[1..][k] == s[k + 1] && s[1..][k + 1..] == s[k + 2..]
  {
  }

  /** A greedy match of the rest, behind a first order that is filled completely. */
  lemma GreedyFirst(symbol: string, o: NewOrder, rem: u32, opp: seq<Resting>, m: Matched, k: nat)
    requires opp != [] && rem > 0 && Crosses(o.side, o.price, opp[0].price) && opp[0].rem <= rem
    requires Greedy(symbol, o, rem - opp[0].rem, opp[1..], m, k)
    ensures Greedy(symbol, o, rem, opp, m.(trades := [TradeMsg(symbol, o, opp[0], opp[0].rem)] + m.trades), k + 1)
  {
    hide Fills, TotalQty, Crosses, TradeMsg;
    TotalFirst(opp, k);
    FillsFirst(symbol, o, opp, k);
    ShiftOne(opp, k);
    var a, b := [TradeMsg(symbol, o, opp[0], opp[0].rem)], Fills(symbol, o, opp[1..][..k]);
    assert forall c: seq<Msg> :: a + (b + c) == (a + b) + c;
    assert forall i :: 0 <= i < k ==> opp[1..][i] == opp[i + 1];
    forall i | 0 <= i < k + 1
      ensures Crosses(o.side, o.price, opp[i].price)
    {
      if i > 0 {
        assert opp[1..][i - 1] == opp[i];
      }
    }
  }

  lemma {:induction false} MatchIsGreedy(symbol: string, o: NewOrder, rem: u32, opp: seq<Resting>)
    requires AllLive(opp)
    ensures Greedy(symbol, o, rem, opp, Match(symbol, o, rem, opp), FilledCount(o, rem, opp))
    decreases |opp|
  {
    if rem == 0 || opp == [] || !Crosses(o.side, o.price, opp[0].price) || opp[0].rem > rem {
      assert opp[..0] == [] && Fills(symbol, o, opp[..0]) == [];
    } else {
      hide Greedy;
      MatchIsGreedy(symbol, o, rem - opp[0].rem, opp[1..]);
      GreedyFirst(symbol, o, rem, opp, Match(symbol, o, rem - opp[0].rem, opp[1..]), FilledCount(o, rem - opp[0].rem, opp[1..]));
    }
  }

  lemma {:induction false} TotalPrefix(opp: seq<Resting>, j: nat, k: nat)
    requires j <= k <= |opp|
    ensures TotalQty(opp[..k]) == TotalQty(opp[..j]) + TotalQty(opp[j..k])
  {
    assert opp[..k] == opp[..j] + opp[j..k];
    TotalSplit(opp[..j], opp[j..k]);
  }

  /** If `k` orders are affordable, so is order `j < k` once the first `j` are paid for. */
  lemma Affordable(opp: seq<Resting>, j: nat, k: nat, rem: u32)
    requires j < k <= |opp| && TotalQty(opp[..k]) <= rem
    ensures opp[j].rem <= rem - TotalQty(opp[..j])
  {
    TotalPrefix(opp, j, k);
    assert opp[j..k][0] == opp[j];
  }

  lemma GreedyOrdered(symbol: string, o: NewOrder, rem: u32, opp: seq<Resting>, m: Matched, j: nat, n: Matched, k: nat)
    requires AllLive(opp) && Greedy(symbol, o, rem, opp, m, j) && Greedy(symbol, o, rem, opp, n, k)
    ensures k <= j
  {
    if j < k {
      Affordable(opp, j, k, rem);
    }
  }

  /** The greedy allocation exists, is unique, and is what `Match` computes. */
  lemma GreedyUnique(symbol: string, o: NewOrder, rem: u32, opp: seq<Resting>, m: Matched)
    requires AllLive(opp)
    ensures m == Match(symbol, o, rem, opp) <==> exists k :: Greedy(symbol, o, rem, opp, m, k)
  {
    var n, j := Match(symbol, o, rem, opp), FilledCount(o, rem, opp);
    MatchIsGreedy(symbol, o, rem, opp);
    if k: nat :| Greedy(symbol, o, rem, opp, m, k) {
      GreedyOrdered(symbol, o, rem, opp, n, j, m, k);
      GreedyOrdered(symbol, o, rem, opp, m, k, n, j);
    }
  }

  lemma {:induction false} VolumeAppend(a: seq<Msg>, b: seq<Msg>)
    ensures Volume(a + b) == Volume(a) + Volume(b)
  {
    if a == [] {
      assert a + b == b;
    } else {
      VolumeAppend(a[1..], b);
      assert (a + b)[0] == a[0] && (a + b)[1..] == a[1..] + b;
    }
  }

  /** What is traded leaves the incoming order and the opposite side alike. */
  lemma {:induction false} MatchConserves(symbol: string, o: NewOrder, rem: u32, opp: seq<Resting>)
    ensures var m := Match(symbol, o, rem, opp);
            && rem == m.rem + Volume(m.trades)
            && TotalQty(opp) == TotalQty(m.left) + Volume(m.trades)
    decreases |opp|
  {
    if rem == 0 || opp == [] || !Crosses(o.side, o.price, opp[0].price) {
    } else if opp[0].rem <= rem {
      MatchConserves(symbol, o, rem - opp[0].rem, opp[1..]);
      var m := Match(symbol, o, rem - opp[0].rem, opp[1..]);
      VolumeAppend([TradeMsg(symbol, o, opp[0], opp[0].rem)], m.trades);
      assert Volume([TradeMsg(symbol, o, opp[0], opp[0].rem)]) == opp[0].rem;
    } else {
      var left := [opp[0].(rem := opp[0].rem - rem)] + opp[1..];
      assert left[1..] == opp[1..];
    }
  }

  /** The match stops only when the order is filled, the side is empty, or the best
      remaining price does not cross. */
  lemma MatchStops(symbol: string, o: NewOrder, rem: u32, opp: seq<Resting>)
    requires AllLive(opp)
    ensures var m := Match(symbol, o, rem, opp);
            m.rem == 0 || m.left == [] || !Crosses(o.side, o.price, m.left[0].price)
  {
    MatchIsGreedy(symbol, o, rem, opp);
  }

  /** What is left is a suffix of the side, its first order perhaps reduced. */
  lemma MatchLeaves(symbol: string, o: NewOrder, rem: u32, opp: seq<Resting>) returns (k: nat)
    requires AllLive(opp)
    ensures var left := Match(symbol, o, rem, opp).left;
            && k + |left| == |opp|
            && forall i :: 0 <= i < |left| ==> 0 < left[i].rem <= opp[k + i].rem && left[i] == opp[k + i].(rem := left[i].rem)
    ensures |Match(symbol, o, rem, opp).trades| <= |opp|
  {
    hide Match, FilledCount, Crosses, TradeMsg, TotalQty;
    MatchIsGreedy(symbol, o, rem, opp);
    k := FilledCount(o, rem, opp);
    var left := Match(symbol, o, rem, opp).left;
    forall i | 0 <= i < |left|
      ensures k + i < |opp| && 0 < left[i].rem <= opp[k + i].rem && left[i] == opp[k + i].(rem := left[i].rem)
    {
    }
  }

  /** A key that does not rest before the match does not rest after it. */
  lemma NewStaysNew(b: Book, o: NewOrder)
    requires !Live(b, Key(o.user, o.oid))
    ensures !LiveAfter(b, o) && NewKey(b, o)
  {
    hide Match, HasKey;
    if HasKey(MatchIn(b, o).left, Key(o.user, o.oid)) {
      MatchKeys(b.symbol, o, o.quantity, b.At(o.side.Opposite()), Key(o.user, o.oid));
    }
  }

  /** A match brings no key into the side. */
  lemma {:induction false} MatchKeys(symbol: string, o: NewOrder, rem: u32, opp: seq<Resting>, key: nat)
    requires HasKey(Match(symbol, o, rem, opp).left, key)
    ensures HasKey(opp, key)
    decreases |opp|
  {
    var left := Match(symbol, o, rem, opp).left;
    var i :| 0 <= i < |left| && RestKey(left[i]) == key;
    if rem == 0 || opp == [] || !Crosses(o.side, o.price, opp[0].price) {
    } else if opp[0].rem <= rem {
      MatchKeys(symbol, o, rem - opp[0].rem, opp[1..], key);
      var j :| 0 <= j < |opp[1..]| && RestKey(opp[1..][j]) == key;
      assert RestKey(opp[j + 1]) == key;
    } else {
      assert RestKey(opp[i]) == key;
    }
  }
}
