/** Runs of the engine object: requests one after the other, each drained before the next. */
module EngineRuns {
  import opened Orders
  import opened Sequences
  import opened PriceTime
  import opened ProbeTable
  import opened SymbolTable
  import opened OrderPool
  import opened BookLaws
  import OrderBook
  import BookOps
  import BookRuns
  import Flushing
  import FlushRounds
  import Engine
  import EngineOps
  import EngineFlush
  import opened EngineLaws

  // ----- One request after a run -----

  /** What the messages of a request are once drained: a flush is drained round by round. */
  ghost function Drained(s: State, input: Input): seq<Msg> {
    if input.FlushBooks? then Process(s, input).msgs else OrderBook.Keep(Process(s, input).msgs)
  }

  lemma {:induction false} ProcessLast(s: State, inputs: seq<Input>, input: Input)
    ensures ProcessAll(s, inputs + [input]) == Process(ProcessAll(s, inputs), input).state
    ensures FreshInputs(s, inputs + [input]) <==> FreshInputs(s, inputs) && FreshInput(ProcessAll(s, inputs), input)
    decreases |inputs|
  {
    hide Process, FreshInput;
    if inputs == [] {
      assert [] + [input] == [input] && [input][1..] == [];
    } else {
      assert (inputs + [input])[0] == inputs[0] && (inputs + [input])[1..] == inputs[1..] + [input];
      ProcessLast(Process(s, inputs[0]).state, inputs[1..], input);
    }
  }

  /** Serve one request after a run: the object is in the state of the longer run, valid with its
      partition of the pool, and every book satisfies the book invariant.  What a run keeps
      besides is kept, so another request can follow. */
  method ServeNext(e: Engine.MatchingEngine, out: OrderBook.OutputBuffer, input: Input, ghost s: State, ghost inputs: seq<Input>)
    returns (msgs: seq<Msg>)
    requires e.Valid() && out.Valid() && EngineOps.Separate(e, out) && out.sent == [] && Admissible(e, input)
    requires Good(s) && StateOf(e) == ProcessAll(s, inputs) && FreshInputs(s, inputs + [input])
    requires EngineOps.Idle(e.books) && EngineOps.Standard(e.books) && EngineOps.Anchored(e.tracking.m, |e.books|)
    modifies e, e.own, e.pool, e.pool.orders, e.pool.freeList, e.symbols, e.symbols.slots, e.tracking, e.tracking.slots
    modifies out, out.messages
    ensures e.Valid() && out.Valid() && EngineOps.Separate(e, out) && out.sent == []
    ensures StateOf(e) == ProcessAll(s, inputs + [input]) && Good(StateOf(e)) && msgs == Drained(ProcessAll(s, inputs), input)
    ensures EngineOps.Idle(e.books) && EngineOps.Standard(e.books) && EngineOps.Anchored(e.tracking.m, |e.books|)
    ensures fresh(e.own - old(e.own))
  {
    hide *;
    ProcessLast(s, inputs, input);
    EngineRunInv(s, inputs + [input]);
    DrainedIs(ProcessAll(s, inputs), input);
    msgs := Serve(e, out, input);
  }

  lemma DrainedIs(s: State, input: Input)
    ensures Drained(s, input) == if input.FlushBooks? then Process(s, input).msgs else OrderBook.Keep(Process(s, input).msgs)
  {
  }

  // ----- Whole runs -----

  /** A small engine: fewer than 64 books, each with at most 127 orders, and fewer tracked keys
      than the key map probes. */
  ghost predicate Small(s: State) {
    && |s.names| < MAX_SYMBOLS && |s.tracking| < Engine.TRACKING_PROBES
    && forall symbol :: symbol in s.books ==> BookRuns.Few(s.books[symbol])
  }

  /** A request that a small engine can meet: a usable key that is not tracked, a symbol of at most
      15 characters, and some book for the empty one.  Nothing is full. */
  ghost predicate Mild(s: State, input: Input) {
    match input
    case New(symbol, o, roomy, spare, gap) =>
      && roomy && spare && gap && EngineOps.Name(symbol) && (symbol == "" ==> s.names != [])
      && !Sentinel(Key(o.user, o.oid)) && Key(o.user, o.oid) !in s.tracking
    case CancelKey(_, _, gap) => gap
    case SweepClient(_) => true
    case FlushBooks => true
  }

  ghost predicate Modest(s: State, inputs: seq<Input>) {
    forall i :: 0 <= i < |inputs| ==> Small(ProcessAll(s, inputs[..i])) && Mild(ProcessAll(s, inputs[..i]), inputs[i])
  }

  lemma FewInEach(e: Engine.MatchingEngine, i: nat)
    requires e.Valid() && Small(StateOf(e)) && i < |e.books|
    ensures e.books[i].Valid() && BookRuns.Few(e.books[i].V())
  {
    hide Engine.MatchingEngine.Valid, Engine.MatchingEngine.E, OrderBook.Book.V, OrderBook.Book.Valid, BookRuns.Few;
    EngineOps.EngineParts(e);
    EngineOps.EngineView(e);
    assert StateOf(e).books[e.books[i].symbol] == e.books[i].V();
  }

  lemma {:induction false} FewSum(views: seq<Book>, n: nat)
    requires n <= |views| && forall i :: 0 <= i < n ==> BookRuns.Few(views[i])
    ensures FlushRounds.RestingIn(views, n) <= 127 * n
  {
    if n > 0 {
      FewSum(views, n - 1);
    }
  }

  lemma NotAllHeld(e: Engine.MatchingEngine)
    requires e.Valid() && e.pool.free == []
    ensures e.Layout() && FlushRounds.RestingIn(EngineFlush.ViewsOf(e), |e.books|) >= POOL
  {
    hide Engine.Held, Flushing.All, OrderBook.Book.V, OrderBook.Book.Valid, Engine.LayoutOf, Pool.Valid, SymbolMap.Valid, ProbeMap.Valid,
      FlushRounds.RestingIn, EngineFlush.ViewsOf;
    EngineOps.LayoutHolds(e);
    var u := EngineFlush.UnionSize(e.HeldBy(), |e.books|);
    WindowSize(0, POOL, POOL);
    forall x | x in Window(0, POOL, POOL)
      ensures x in u
    {
      assert x < POOL && x !in Elems(e.pool.free);
      var i :| 0 <= i < |e.books| && x in e.HeldBy()[i];
    }
    SubsetSize(Window(0, POOL, POOL), u);
    EngineFlush.RestingHeld(e);
  }

  /** Some order of the pool is free. */
  lemma SpareLeft(e: Engine.MatchingEngine)
    requires e.Valid() && Small(StateOf(e))
    ensures e.pool.free != []
  {
    hide Engine.MatchingEngine.Valid, Engine.MatchingEngine.E, OrderBook.Book.V, Engine.MatchingEngine.Layout, FlushRounds.RestingIn, BookRuns.Few;
    ViewsMeans(e);
    forall i | 0 <= i < |e.books|
      ensures BookRuns.Few(EngineFlush.ViewsOf(e)[i])
    {
      FewInEach(e, i);
      EngineFlush.ViewsAre(e);
    }
    FewSum(EngineFlush.ViewsOf(e), |e.books|);
    if e.pool.free == [] {
      NotAllHeld(e);
    }
  }

  /** The key map takes any key. */
  lemma RoomLeft(e: Engine.MatchingEngine, key: nat)
    requires e.Valid() && e.tracking.limit == Engine.TRACKING_PROBES && |e.tracking.m| < Engine.TRACKING_PROBES
    ensures EngineOps.Roomy(e, key)
  {
    hide Engine.MatchingEngine.Valid, ProbeTable.Room, Models;
    EngineOps.EngineParts(e);
    EngineOps.RoomyIs(e, key);
    MapParts(e.tracking);
    BookRuns.WindowRoom(e.tracking.t, e.tracking.at, e.tracking.m, e.tracking.hash, e.tracking.limit, e.tracking.hash(key), {});
  }

  lemma MapParts(table: ProbeMap<string>)
    requires table.Valid()
    ensures Models(table.t, table.at, table.m, table.hash, table.limit)
  {
    hide Models;
  }

  /** The book that takes an order can take it. */
  lemma MildReady(e: Engine.MatchingEngine, symbol: string, o: NewOrder)
    requires e.Valid() && Small(StateOf(e)) && EngineOps.Standard(e.books) && (symbol == "" ==> e.books != [])
    requires !Sentinel(Key(o.user, o.oid)) && o.quantity > 0
    requires NewKey(EngineOps.BookOf(e.E(), EngineOps.Home(e, symbol)), o)
    ensures EngineOps.Ready(e, symbol, o)
  {
    hide Engine.MatchingEngine.Valid, Engine.MatchingEngine.E, OrderBook.Book.V, OrderBook.Book.Valid, EngineOps.Shut, EngineOps.Home, LiveAfter,
      BookRuns.Few, Small, BookOps.Fits, Rests;
    var home := EngineOps.Home(e, symbol);
    EngineOps.EngineViewAt(e, home);
    EngineOps.EngineParts(e);
    if home in e.symbols.m {
      FewInEach(e, e.symbols.m[home]);
      if Rests(e.books[e.symbols.m[home]].V(), o) {
        BookRuns.FewFits(e.books[e.symbols.m[home]], o);
      }
    }
  }

  lemma MildShort(e: Engine.MatchingEngine)
    requires e.Valid() && Small(StateOf(e)) && EngineOps.Idle(e.books)
    ensures EngineFlush.Begins(e)
  {
    hide Engine.MatchingEngine.Valid, Engine.MatchingEngine.E, OrderBook.Book.V, OrderBook.Book.Valid, Engine.LayoutOf, Small, BookRuns.Few,
      Flushing.ShortLists;
    EngineOps.LayoutHolds(e);
    EngineOps.EngineParts(e);
    forall i | 0 <= i < |e.books|
      ensures Flushing.ShortLists(e.books[i].bids.ids) && Flushing.ShortLists(e.books[i].asks.ids)
    {
      FewInEach(e, i);
      BookRuns.FewLevels(e.books[i], Buy);
      BookRuns.FewLevels(e.books[i], Sell);
      BookRuns.SidesOf(e.books[i]);
    }
  }

  /** Whatever the source asserts holds of a mild request to a small engine, and nothing is full. */
  lemma MildAdmissible(e: Engine.MatchingEngine, input: Input)
    requires e.Valid() && Small(StateOf(e)) && Mild(StateOf(e), input) && FreshInput(StateOf(e), input)
    requires e.tracking.limit == Engine.TRACKING_PROBES
    requires EngineOps.Idle(e.books) && EngineOps.Standard(e.books) && EngineOps.Anchored(e.tracking.m, |e.books|)
    ensures Admissible(e, input)
  {
    hide Engine.MatchingEngine.Valid, Engine.MatchingEngine.E, EngineOps.Ready, EngineOps.Shut, EngineOps.Home, NewKey, EngineOps.BookOf,
      EngineOps.Roomy, EngineOps.Idle, EngineOps.Standard, EngineOps.Anchored, EngineFlush.Begins, BookRuns.Few, SymbolMap.Valid, SymbolMap.Gap,
      ProbeMap.Valid, HomeOf, EngineOps.Name;
    EngineOps.EngineParts(e);
    EngineOps.EngineSize(e);
    GapHere(e);
    match input {
      case New(symbol, o, _, _, gap) =>
        ShutMeans(e, symbol, gap);
        RoomLeft(e, Key(o.user, o.oid));
        SpareLeft(e);
        EngineOps.TrackableIs(e, Key(o.user, o.oid));
        MildReady(e, symbol, o);
      case CancelKey(_, _, _) =>
      case SweepClient(_) =>
      case FlushBooks => MildShort(e);
    }
  }

  lemma GapHere(e: Engine.MatchingEngine)
    requires e.Valid() && |e.Names()| < MAX_SYMBOLS
    ensures e.symbols.Valid() && e.symbols.Gap()
  {
    hide Engine.MatchingEngine.Valid, Engine.MatchingEngine.E, OrderBook.Book.V, SymbolMap.Valid, SymbolMap.Gap;
    EngineOps.EngineParts(e);
    EngineOps.EngineView(e);
    GapLeft(e.symbols);
  }

  /** What is drained over a whole run. */
  ghost function Replies(s: State, inputs: seq<Input>): seq<Msg> {
    if inputs == [] then []
    else Replies(s, inputs[..|inputs| - 1]) + Drained(ProcessAll(s, inputs[..|inputs| - 1]), inputs[|inputs| - 1])
  }

  /** Serve a list of requests on an engine that stays small: no assertion of the source fails, the
      engine ends in the state of the abstract run, valid with its partition of the pool, with the
      book invariant in every book, and what was drained is what the run says. */
  method ServeAll(e: Engine.MatchingEngine, out: OrderBook.OutputBuffer, inputs: seq<Input>) returns (msgs: seq<Msg>)
    requires e.Valid() && out.Valid() && EngineOps.Separate(e, out) && out.sent == [] && Good(StateOf(e))
    requires e.tracking.limit == Engine.TRACKING_PROBES
    requires EngineOps.Idle(e.books) && EngineOps.Standard(e.books) && EngineOps.Anchored(e.tracking.m, |e.books|)
    requires FreshInputs(StateOf(e), inputs) && Modest(StateOf(e), inputs)
    modifies e, e.own, e.pool, e.pool.orders, e.pool.freeList, e.symbols, e.symbols.slots, e.tracking, e.tracking.slots
    modifies out, out.messages
    ensures e.Valid() && out.Valid() && EngineOps.Separate(e, out) && out.sent == []
    ensures StateOf(e) == ProcessAll(old(StateOf(e)), inputs) && Good(StateOf(e))
    ensures msgs == Replies(old(StateOf(e)), inputs)
    ensures EngineOps.Idle(e.books) && EngineOps.Standard(e.books) && EngineOps.Anchored(e.tracking.m, |e.books|)
  {
    hide *;
    ghost var s := StateOf(e);
    msgs := [];
    Nothing(s, inputs);
    for i := 0 to |inputs|
      invariant e.Valid() && out.Valid() && EngineOps.Separate(e, out) && out.sent == []
      invariant StateOf(e) == ProcessAll(s, inputs[..i]) && Good(StateOf(e)) && msgs == Replies(s, inputs[..i])
      invariant EngineOps.Idle(e.books) && EngineOps.Standard(e.books) && EngineOps.Anchored(e.tracking.m, |e.books|)
      invariant fresh(e.own - old(e.own))
    {
      NextMild(s, inputs, i);
      MildAdmissible(e, inputs[i]);
      var batch := ServeNext(e, out, inputs[i], s, inputs[..i]);
      msgs := msgs + batch;
    }
    Whole(inputs);
  }

  lemma Nothing(s: State, inputs: seq<Input>)
    ensures inputs[..0] == [] && ProcessAll(s, []) == s && Replies(s, []) == []
  {
  }

  lemma Whole(inputs: seq<Input>)
    ensures inputs[..|inputs|] == inputs
  {
  }

  lemma {:induction false} FreshUpto(s: State, inputs: seq<Input>, i: nat)
    requires FreshInputs(s, inputs) && i <= |inputs|
    ensures FreshInputs(s, inputs[..i])
    decreases |inputs| - i
  {
    hide Process, FreshInput, FreshInputs;
    if i < |inputs| {
      FreshUpto(s, inputs, i + 1);
      assert inputs[..i + 1] == inputs[..i] + [inputs[i]];
      ProcessLast(s, inputs[..i], inputs[i]);
    } else {
      assert inputs[..i] == inputs;
    }
  }

  lemma NextMild(s: State, inputs: seq<Input>, i: nat)
    requires FreshInputs(s, inputs) && Modest(s, inputs) && i < |inputs|
    ensures inputs[..i + 1] == inputs[..i] + [inputs[i]] && FreshInputs(s, inputs[..i] + [inputs[i]])
    ensures var t := ProcessAll(s, inputs[..i]); Small(t) && Mild(t, inputs[i]) && FreshInput(t, inputs[i])
    ensures Replies(s, inputs[..i + 1]) == Replies(s, inputs[..i]) + Drained(ProcessAll(s, inputs[..i]), inputs[i])
  {
    hide Process, FreshInput, FreshInputs, Small, Mild, ProcessAll, Drained;
    assert inputs[..i + 1] == inputs[..i] + [inputs[i]];
    assert inputs[..i + 1][..i] == inputs[..i];
    FreshUpto(s, inputs, i + 1);
    ProcessLast(s, inputs[..i], inputs[i]);
  }
}
