/** When callers never use an order id twice, whatever the runs ask of their orders holds. */
module FreshIds {
  import opened Orders
  import opened Sequences
  import opened PriceTime
  import opened MatchLaws
  import opened BookLaws
  import EngineOps
  import FlushRounds
  import EngineLaws

  // ----- Where the keys of a book come from -----

  /** Every key of the book is a key of `before`, or `key`. */
  ghost predicate KeysFrom(after: Book, before: Book, key: nat) {
    forall k :: Live(after, k) ==> Live(before, k) || k == key
  }

  lemma {:induction false} DropKeys(flat: seq<Resting>, key: nat, k: nat)
    requires HasKey(DropKey(flat, key), k)
    ensures HasKey(flat, k)
    decreases |flat|
  {
    if flat != [] && RestKey(flat[0]) != key {
      var rest := DropKey(flat, key);
      var i :| 0 <= i < |rest| && RestKey(rest[i]) == k;
      if i == 0 {
        assert RestKey(flat[0]) == k;
      } else {
        assert RestKey(DropKey(flat[1..], key)[i - 1]) == k;
        DropKeys(flat[1..], key, k);
        TailHas(flat, k);
      }
    } else if flat != [] {
      TailHas(flat, k);
    }
  }

  lemma TailHas(flat: seq<Resting>, k: nat)
    requires flat != [] && HasKey(flat[1..], k)
    ensures HasKey(flat, k)
  {
    var i :| 0 <= i < |flat[1..]| && RestKey(flat[1..][i]) == k;
    assert RestKey(flat[i + 1]) == k;
  }

  lemma {:induction false} EnqueueKeys(side: Side, flat: seq<Resting>, r: Resting, k: nat)
    requires HasKey(Enqueue(side, flat, r), k)
    ensures HasKey(flat, k) || k == RestKey(r)
    decreases |flat|
  {
    hide Better;
    var q := Enqueue(side, flat, r);
    var i :| 0 <= i < |q| && RestKey(q[i]) == k;
    if flat == [] || Better(side, r.price, flat[0].price) {
      assert i > 0 ==> q[i] == flat[i - 1];
    } else if i == 0 {
      assert RestKey(flat[0]) == k;
    } else {
      assert RestKey(Enqueue(side, flat[1..], r)[i - 1]) == k;
      EnqueueKeys(side, flat[1..], r, k);
      if HasKey(flat[1..], k) {
        TailHas(flat, k);
      }
    }
  }

  lemma AddKeys(b: Book, o: NewOrder)
    ensures KeysFrom(PriceTime.AddOrder(b, o).book, b, Key(o.user, o.oid))
  {
    hide Match, Enqueue, HasKey;
    forall k | Live(PriceTime.AddOrder(b, o).book, k)
      ensures Live(b, k) || k == Key(o.user, o.oid)
    {
      var m := MatchIn(b, o);
      if HasKey(m.left, k) {
        MatchKeys(b.symbol, o, o.quantity, b.At(o.side.Opposite()), k);
      }
      var r := Resting(o.user, o.oid, o.client, o.price, o.quantity, m.rem);
      if HasKey(Enqueue(o.side, b.At(o.side), r), k) {
        EnqueueKeys(o.side, b.At(o.side), r, k);
      }
    }
  }

  lemma CancelKeys(b: Book, user: u32, oid: u32)
    ensures forall k :: Live(PriceTime.CancelOrder(b, user, oid).book, k) ==> Live(b, k)
  {
    hide HasKey, DropKey, Best;
    forall k | Live(PriceTime.CancelOrder(b, user, oid).book, k)
      ensures Live(b, k)
    {
      if HasKey(DropKey(b.bids, Key(user, oid)), k) {
        DropKeys(b.bids, Key(user, oid), k);
      }
      if HasKey(DropKey(b.asks, Key(user, oid)), k) {
        DropKeys(b.asks, Key(user, oid), k);
      }
    }
  }

  lemma {:induction false} CancelAllKeys(b: Book, keys: seq<(u32, u32)>)
    ensures forall k :: Live(CancelAll(b, keys).book, k) ==> Live(b, k)
    decreases |keys|
  {
    hide PriceTime.CancelOrder, Live;
    if keys != [] {
      CancelKeys(b, keys[0].0, keys[0].1);
      CancelAllKeys(PriceTime.CancelOrder(b, keys[0].0, keys[0].1).book, keys[1..]);
    }
  }

  lemma StepKeys(b: Book, op: Op, k: nat)
    requires Live(Step(b, op).book, k)
    ensures Live(b, k) || (op.Add? && k == Key(op.o.user, op.o.oid))
  {
    hide PriceTime.AddOrder, PriceTime.CancelOrder, CancelAll;
    match op {
      case Add(o) => AddKeys(b, o);
      case Cancel(user, oid) => CancelKeys(b, user, oid);
      case CancelFor(client) => CancelAllKeys(b, Collected(b, client));
      case FlushAll =>
    }
  }

  /** What rests was added. */
  lemma {:induction false} RunKeys(symbol: string, ops: seq<Op>, k: nat) returns (i: nat)
    requires Live(Run(symbol, ops).book, k)
    ensures i < |ops| && ops[i].Add? && k == Key(ops[i].o.user, ops[i].o.oid)
    decreases |ops|
  {
    hide Live, Step;
    if ops == [] {
      i := 0;
      EmptyDead(symbol, k);
      assert false;
    } else {
      var n := |ops| - 1;
      StepKeys(Run(symbol, ops[..n]).book, ops[n], k);
      if Live(Run(symbol, ops[..n]).book, k) {
        i := RunKeys(symbol, ops[..n], k);
      } else {
        i := n;
      }
    }
  }

  lemma EmptyDead(symbol: string, k: nat)
    ensures !Live(EmptyBook(symbol), k)
  {
  }

  /** If every order has a positive quantity and no pair of user and order id is used twice, the run
      meets what the book's laws ask for, whatever is cancelled or flushed in between. */
  lemma {:induction false} DistinctIsFresh(symbol: string, ops: seq<Op>)
    requires forall i :: 0 <= i < |ops| && ops[i].Add? ==> ops[i].o.quantity > 0
    requires forall i, j :: 0 <= i < j < |ops| && ops[i].Add? && ops[j].Add? ==>
               ops[i].o.user != ops[j].o.user || ops[i].o.oid != ops[j].o.oid
    ensures FreshRun(symbol, ops)
    decreases |ops|
  {
    hide Run, Live, NewKey;
    if ops != [] {
      var n := |ops| - 1;
      var b := Run(symbol, ops[..n]).book;
      DistinctIsFresh(symbol, ops[..n]);
      if ops[n].Add? {
        var o := ops[n].o;
        if Live(b, Key(o.user, o.oid)) {
          var i := RunKeys(symbol, ops[..n], Key(o.user, o.oid));
          KeyInjective(o.user, o.oid, ops[i].o.user, ops[i].o.oid);
        } else {
          NewStaysNew(b, o);
        }
      }
    }
  }

  // ----- The same for a whole engine -----

  ghost predicate LiveIn(s: EngineLaws.State, k: nat) {
    exists symbol :: symbol in s.books && Live(s.books[symbol], k)
  }

  predicate Brings(input: EngineLaws.Input, k: nat) {
    input.New? && k == Key(input.o.user, input.o.oid)
  }

  lemma BookKeys(b: Book, input: EngineLaws.Input, k: nat)
    ensures input.New? && Live(PriceTime.AddOrder(b, input.o).book, k) ==> Live(b, k) || Brings(input, k)
    ensures input.CancelKey? && Live(PriceTime.CancelOrder(b, input.user, input.oid).book, k) ==> Live(b, k)
    ensures input.SweepClient? && Live(CancelClient(b, input.client).book, k) ==> Live(b, k)
    ensures !Live(EmptyBook(b.symbol), k)
  {
    hide PriceTime.AddOrder, PriceTime.CancelOrder, CancelAll;
    match input {
      case New(_, o, _, _, _) => AddKeys(b, o);
      case CancelKey(user, oid, _) => CancelKeys(b, user, oid);
      case SweepClient(client) => CancelAllKeys(b, Collected(b, client));
      case FlushBooks =>
    }
  }

  lemma ProcessKeys(s: EngineLaws.State, input: EngineLaws.Input, k: nat)
    requires LiveIn(EngineLaws.Process(s, input).state, k)
    ensures LiveIn(s, k) || Brings(input, k)
  {
    hide PriceTime.AddOrder, PriceTime.CancelOrder, CancelClient, EngineLaws.ClientMsgs, FlushRounds.Transcript, EmptyBook, Live;
    var t := EngineLaws.Process(s, input).state;
    var symbol :| symbol in t.books && Live(t.books[symbol], k);
    EmptyDead(symbol, k);
    if symbol in s.books {
      BookKeys(s.books[symbol], input, k);
    } else {
      BookKeys(EmptyBook(symbol), input, k);
    }
  }

  /** If every order has a positive quantity and its ids rest nowhere and are not used again, the
      requests meet what the engine's laws ask for. */
  lemma {:induction false} DistinctInputs(s: EngineLaws.State, inputs: seq<EngineLaws.Input>)
    requires forall i :: 0 <= i < |inputs| && inputs[i].New? ==>
               inputs[i].o.quantity > 0 && !LiveIn(s, Key(inputs[i].o.user, inputs[i].o.oid))
    requires forall i, j :: 0 <= i < j < |inputs| && inputs[i].New? && inputs[j].New? ==>
               Key(inputs[i].o.user, inputs[i].o.oid) != Key(inputs[j].o.user, inputs[j].o.oid)
    ensures EngineLaws.FreshInputs(s, inputs)
    decreases |inputs|
  {
    hide EngineLaws.Process, Live, NewKey, Key, EmptyBook;
    if inputs != [] {
      var next, rest := EngineLaws.Process(s, inputs[0]).state, inputs[1..];
      FirstFresh(s, inputs[0]);
      forall i | 0 <= i < |rest| && rest[i].New?
        ensures !LiveIn(next, Key(rest[i].o.user, rest[i].o.oid))
      {
        assert rest[i] == inputs[i + 1];
        if LiveIn(next, Key(rest[i].o.user, rest[i].o.oid)) {
          ProcessKeys(s, inputs[0], Key(rest[i].o.user, rest[i].o.oid));
        }
      }
      DistinctInputs(next, rest);
    }
  }

  lemma FirstFresh(s: EngineLaws.State, input: EngineLaws.Input)
    requires input.New? ==> input.o.quantity > 0 && !LiveIn(s, Key(input.o.user, input.o.oid))
    ensures EngineLaws.FreshInput(s, input)
  {
    hide Live, NewKey, EmptyBook;
    if input.New? {
      var b := EngineOps.BookOf(s.books, EngineLaws.HomeOf(s, input.symbol));
      EmptyDead(EngineLaws.HomeOf(s, input.symbol), Key(input.o.user, input.o.oid));
      NewStaysNew(b, input.o);
    }
  }
}
