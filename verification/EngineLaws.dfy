/** What the engine's operations guarantee over runs: every book keeps its invariant, and a
    cancel takes its own order out exactly when it reaches the order's book. */
module EngineLaws {
  import opened Orders
  import opened Sequences
  import opened PriceTime
  import opened SymbolTable
  import opened ProbeTable
  import opened BookLaws
  import OrderBook
  import FlushRounds
  import Engine
  import EngineOps
  import EngineFlush

  // ----- The abstract engine -----

  /** The symbols of the books in the order they were opened, the abstract book of each, and
      the symbol tracked for every order key. */
  datatype State = State(names: seq<string>, books: map<string, Book>, tracking: map<nat, string>)

  /** What an engine is asked, and the circumstances it meets: `roomy` says that the key map
      takes the key, `spare` that the pool has a free order, and `gap` that the lookup of an
      empty symbol meets an unused slot. */
  datatype Input =
    | New(symbol: string, o: NewOrder, roomy: bool, spare: bool, gap: bool)
    | CancelKey(user: u32, oid: u32, gap: bool)
    | SweepClient(client: u32)
    | FlushBooks

  datatype Reply = Reply(state: State, msgs: seq<Msg>)

  /** Whose book takes the orders of a symbol. */
  function HomeOf(s: State, symbol: string): string {
    if symbol == "" && s.names != [] then s.names[0] else symbol
  }

  predicate IsShut(s: State, symbol: string, gap: bool) {
    if symbol == "" then !gap else symbol !in s.books && |s.books| == MAX_SYMBOLS
  }

  /** The books in the order they were opened. */
  function Views(names: seq<string>, books: map<string, Book>): (v: seq<Book>)
    ensures |v| == |names|
  {
    seq(|names|, i requires 0 <= i < |names| => EngineOps.BookOf(books, names[i]))
  }

  function ClientMsgs(views: seq<Book>, client: u32): seq<Msg> {
    if views == [] then []
    else ClientMsgs(views[..|views| - 1], client) + CancelClient(views[|views| - 1], client).msgs
  }

  /** No book has begun to flush. */
  function Unbegun(n: nat): (pos: seq<nat>)
    ensures |pos| == n && forall i :: 0 <= i < n ==> pos[i] == 0
  {
    seq(n, _ => 0)
  }

  /** One input, exactly as the engine object is proved to process it.  A flush is run to its end. */
  ghost function Process(s: State, input: Input): Reply {
    match input
    case New(symbol, o, roomy, spare, gap) =>
      if IsShut(s, symbol, gap) then Reply(s, [Ack(symbol, o.user, o.oid)])
      else
        var home := HomeOf(s, symbol);
        var b, names := EngineOps.BookOf(s.books, home), EngineOps.Opened(s.names, home);
        var tracking := if roomy then s.tracking[Key(o.user, o.oid) := Engine.Tracked(symbol)] else s.tracking;
        if spare then
          var r := PriceTime.AddOrder(b, o);
          Reply(State(names, s.books[home := r.book], tracking), r.msgs)
        else Reply(State(names, s.books[home := b], tracking), [])
    case CancelKey(user, oid, gap) =>
      var key := Key(user, oid);
      if key !in s.tracking then Reply(s, [CancelAck("UNKNOWN", user, oid)])
      else
        var symbol, tracking := s.tracking[key], s.tracking - {key};
        var home := HomeOf(s, symbol);
        if (symbol == "" && !gap) || home !in s.books then
          Reply(State(s.names, s.books, tracking), [CancelAck(symbol, user, oid)])
        else
          var r := PriceTime.CancelOrder(s.books[home], user, oid);
          Reply(State(s.names, s.books[home := r.book], tracking), r.msgs)
    case SweepClient(client) =>
      Reply(s.(books := map symbol | symbol in s.books :: CancelClient(s.books[symbol], client).book),
            ClientMsgs(Views(s.names, s.books), client))
    case FlushBooks =>
      Reply(State(s.names, map symbol | symbol in s.books :: EmptyBook(symbol), map[]),
            FlushRounds.Transcript([], Views(s.names, s.books), Unbegun(|s.names|)))
  }

  // ----- The engine object follows it -----

  /** The abstract state of an engine object. */
  ghost function StateOf(e: Engine.MatchingEngine): State
    requires e.Valid()
    reads e, e.own, e.pool, e.pool.orders, e.pool.freeList, e.symbols, e.symbols.slots, e.tracking, e.tracking.slots
  {
    State(e.Names(), e.E(), e.tracking.m)
  }

  /** What the source demands of a request, and the circumstances it meets. */
  ghost predicate Admissible(e: Engine.MatchingEngine, input: Input)
    requires e.Valid()
    reads e, e.own, e.pool, e.pool.orders, e.pool.freeList, e.symbols, e.symbols.slots, e.tracking, e.tracking.slots
  {
    match input
    case New(symbol, o, roomy, spare, gap) =>
      && EngineOps.Name(symbol) && EngineOps.Ready(e, symbol, o) && !Sentinel(Key(o.user, o.oid))
      && e.tracking.Valid() && EngineOps.Trackable(e, Key(o.user, o.oid))
      && roomy == EngineOps.Roomy(e, Key(o.user, o.oid)) && spare == (e.pool.free != [])
      && e.symbols.Valid() && gap == e.symbols.Gap()
    case CancelKey(_, _, gap) =>
      EngineOps.Anchored(e.tracking.m, |e.books|) && e.symbols.Valid() && gap == e.symbols.Gap()
    case SweepClient(_) => true
    case FlushBooks => EngineFlush.Begins(e)
  }

  lemma ShutMeans(e: Engine.MatchingEngine, symbol: string, gap: bool)
    requires e.Valid() && e.symbols.Valid() && gap == e.symbols.Gap()
    ensures EngineOps.Shut(e, symbol) <==> IsShut(StateOf(e), symbol, gap)
    ensures HomeOf(StateOf(e), symbol) == EngineOps.Home(e, symbol)
    ensures |e.Names()| == |e.books| && (e.books == [] <==> e.Names() == [])
  {
    hide Engine.MatchingEngine.Valid, Engine.MatchingEngine.E, EngineOps.Shut, SymbolMap.Gap, SymbolMap.Valid;
    EngineOps.ShutIs(e, symbol);
    EngineOps.EngineSize(e);
    EngineOps.EngineViewAt(e, symbol);
  }

  lemma KnownMeans(e: Engine.MatchingEngine, symbol: string, gap: bool)
    requires e.Valid() && e.symbols.Valid() && gap == e.symbols.Gap() && (symbol == "" ==> e.books != [])
    ensures EngineOps.Known(e, symbol) <==> (symbol != "" || gap) && HomeOf(StateOf(e), symbol) in e.E()
    ensures HomeOf(StateOf(e), symbol) == EngineOps.Home(e, symbol)
  {
    hide Engine.MatchingEngine.Valid, Engine.MatchingEngine.E, EngineOps.Known, SymbolMap.Gap, SymbolMap.Valid;
    EngineOps.KnownIs(e, symbol);
    EngineOps.HomeIs(e, symbol);
    EngineOps.EngineViewAt(e, EngineOps.Home(e, symbol));
  }

  /** New orders and cancels: up to the capacity of the output buffer the engine object does and
      sends what `Process` says. */
  method ProcessOrder(e: Engine.MatchingEngine, out: OrderBook.OutputBuffer, input: Input)
    requires e.Valid() && out.Valid() && EngineOps.Separate(e, out) && Admissible(e, input)
    requires input.New? || input.CancelKey?
    modifies e, e.own, e.pool, e.pool.orders, e.pool.freeList, e.symbols, e.symbols.slots, e.tracking, e.tracking.slots
    modifies out, out.messages
    ensures e.Valid() && out.Valid() && EngineOps.Separate(e, out)
    ensures StateOf(e) == Process(old(StateOf(e)), input).state
    ensures out.sent == OrderBook.Keep(old(out.sent) + Process(old(StateOf(e)), input).msgs)
    ensures (old(EngineOps.Idle(e.books)) ==> EngineOps.Idle(e.books)) && (old(EngineOps.Standard(e.books)) ==> EngineOps.Standard(e.books))
    ensures old(EngineOps.Anchored(e.tracking.m, |e.books|)) ==> EngineOps.Anchored(e.tracking.m, |e.books|)
    ensures fresh(e.own - old(e.own))
  {
    hide Engine.MatchingEngine.Valid, Engine.MatchingEngine.E, OrderBook.OutputBuffer.Valid, EngineOps.Separate, OrderBook.Keep,
      PriceTime.AddOrder, PriceTime.CancelOrder, EngineOps.BookOf, EngineOps.Ready, EngineOps.Roomy, EngineOps.Anchored, EngineOps.Name,
      EngineOps.Trackable, EngineOps.Shut, EngineOps.Known, EngineOps.Home, HomeOf, IsShut, SymbolMap.Gap, SymbolMap.Valid,
      ProbeMap.Valid, EngineOps.Opened, Engine.Tracked;
    KeepNothing(out);
    match input {
      case New(symbol, o, _, _, gap) =>
        ShutMeans(e, symbol, gap);
        EngineOps.ProcessNewOrder(e, out, symbol, o);
      case CancelKey(user, oid, gap) =>
        ghost var m, key := e.tracking.m, Key(user, oid);
        EngineOps.AnchoredIs(m, |e.books|, key);
        if key in m {
          KnownMeans(e, m[key], gap);
        }
        EngineOps.ProcessCancel(e, out, user, oid);
        assert key !in m ==> m - {key} == m;
    }
  }

  /** The dispatcher: orders and cancels as `Process` says; a flush message sends the next batch
      of every book, `start` orders into its flush, and forgets all keys. */
  method ProcessMessage(e: Engine.MatchingEngine, out: OrderBook.OutputBuffer, input: Input, ghost start: seq<nat>)
    requires e.Valid() && e.Layout() && out.Valid() && EngineOps.Separate(e, out) && !input.SweepClient?
    requires if input.FlushBooks? then EngineFlush.Cursors(e, start) && |start| == |e.Now().views| else Admissible(e, input)
    modifies e, e.own, e.pool, e.pool.orders, e.pool.freeList, e.symbols, e.symbols.slots, e.tracking, e.tracking.slots
    modifies out, out.messages
    ensures e.Valid() && out.Valid() && EngineOps.Separate(e, out)
    ensures !input.FlushBooks? ==>
      && StateOf(e) == Process(old(StateOf(e)), input).state
      && out.sent == OrderBook.Keep(old(out.sent) + Process(old(StateOf(e)), input).msgs)
    ensures input.FlushBooks? ==>
      var views, go := old(e.Now().views), FlushRounds.Everyone(|start|);
      && |go| == |start| && e.Layout() && e.Names() == old(e.Names()) && e.tracking.m == map[]
      && e.Now().views == FlushRounds.ViewsUpto(views, start, go, |views|)
      && EngineFlush.Cursors(e, FlushRounds.PosUpto(views, start, go, |views|))
      && out.sent == OrderBook.Keep(old(out.sent) + FlushRounds.MsgsUpto(views, start, go, |views|))
    ensures !input.FlushBooks? && old(EngineOps.Idle(e.books)) ==> EngineOps.Idle(e.books)
  {
    hide *;
    if input.FlushBooks? {
      ghost var names := e.Names();
      EngineFlush.ProcessFlush(e, out, start);
      assert e.Names() == names;
    } else {
      ProcessOrder(e, out, input);
    }
  }

  lemma KeepNothing(out: OrderBook.OutputBuffer)
    requires out.Valid()
    ensures OrderBook.Keep(out.sent + []) == out.sent
  {
    assert out.sent + [] == out.sent;
  }

  lemma {:induction false} SweptIs(v: map<string, Book>, names: seq<string>, client: u32)
    requires forall s :: s in names ==> s in v
    ensures EngineOps.SweptMsgs(v, names, client)
         == ClientMsgs(Views(names, v), client)
  {
    hide CancelClient;
    if names != [] {
      var last := |names| - 1;
      SweptIs(v, names[..last], client);
      assert Views(names, v)[..last] == Views(names[..last], v);
    }
  }

  lemma ViewsMeans(e: Engine.MatchingEngine)
    requires e.Valid()
    ensures e.Layout() && Views(e.Names(), e.E()) == EngineFlush.ViewsOf(e) && |e.Names()| == |e.books|
    ensures forall s :: s in e.Names() ==> s in e.E()
    ensures forall s :: s in e.E() ==> e.symbols.m[s] < |e.books| && e.books[e.symbols.m[s]].symbol == s && s in e.symbols.m
    ensures forall s :: s in e.E() ==> e.E()[s] == EngineFlush.ViewsOf(e)[e.symbols.m[s]]
  {
    hide Engine.MatchingEngine.Valid, Engine.MatchingEngine.E, OrderBook.Book.V, Engine.MatchingEngine.Layout;
    EngineOps.LayoutHolds(e);
    EngineOps.EngineView(e);
    EngineFlush.ViewsAre(e);
  }

  lemma EmptiedMeans(e: Engine.MatchingEngine)
    requires EngineFlush.Emptied(e)
    ensures e.Valid() && e.E() == map s | s in e.E() :: EmptyBook(s)
  {
    hide Engine.MatchingEngine.Valid, Engine.MatchingEngine.E, OrderBook.Book.V, Engine.MatchingEngine.Layout, Engine.MatchingEngine.Now, EmptyBook;
    ViewsMeans(e);
    EngineFlush.ViewsAre(e);
  }

  /** The keys of the engine's books are the symbols in the table. */
  lemma BookKeys(e: Engine.MatchingEngine)
    requires e.Valid()
    ensures e.E().Keys == e.symbols.m.Keys
  {
    hide Engine.MatchingEngine.Valid, Engine.MatchingEngine.E, OrderBook.Book.V;
    EngineOps.EngineView(e);
  }

  /** One request from an empty output buffer to the next, with everything drained: the engine
      object does exactly what `Process` says; an order or cancel sends at most 8192 messages,
      and so does each round of a flush. */
  method Serve(e: Engine.MatchingEngine, out: OrderBook.OutputBuffer, input: Input) returns (msgs: seq<Msg>)
    requires e.Valid() && out.Valid() && EngineOps.Separate(e, out) && Admissible(e, input) && out.sent == []
    modifies e, e.own, e.pool, e.pool.orders, e.pool.freeList, e.symbols, e.symbols.slots, e.tracking, e.tracking.slots
    modifies out, out.messages
    ensures e.Valid() && out.Valid() && EngineOps.Separate(e, out) && out.sent == []
    ensures StateOf(e) == Process(old(StateOf(e)), input).state
    ensures msgs == if input.FlushBooks? then Process(old(StateOf(e)), input).msgs
                    else OrderBook.Keep(Process(old(StateOf(e)), input).msgs)
    ensures (old(EngineOps.Idle(e.books)) ==> EngineOps.Idle(e.books)) && (old(EngineOps.Standard(e.books)) ==> EngineOps.Standard(e.books))
    ensures old(EngineOps.Anchored(e.tracking.m, |e.books|)) ==> EngineOps.Anchored(e.tracking.m, |e.books|)
    ensures fresh(e.own - old(e.own))
  {
    hide *;
    if input.FlushBooks? {
      AdmissibleParts(e, input);
      msgs := ServeFlush(e, out);
    } else if input.SweepClient? {
      msgs := ServeSweep(e, out, input.client);
    } else {
      ghost var s := StateOf(e);
      ProcessOrder(e, out, input);
      Sent([], Process(s, input).msgs);
      msgs := DrainAll(e, out);
    }
  }

  /** A client's orders cancelled in every book. */
  method ServeSweep(e: Engine.MatchingEngine, out: OrderBook.OutputBuffer, client: u32) returns (msgs: seq<Msg>)
    requires e.Valid() && out.Valid() && EngineOps.Separate(e, out) && out.sent == []
    modifies e.own, e.pool, e.pool.orders, e.pool.freeList, out, out.messages
    ensures e.Valid() && out.Valid() && EngineOps.Separate(e, out) && out.sent == []
    ensures StateOf(e) == Process(old(StateOf(e)), SweepClient(client)).state
    ensures msgs == OrderBook.Keep(Process(old(StateOf(e)), SweepClient(client)).msgs)
    ensures (old(EngineOps.Idle(e.books)) ==> EngineOps.Idle(e.books)) && (old(EngineOps.Standard(e.books)) ==> EngineOps.Standard(e.books))
    ensures old(EngineOps.Anchored(e.tracking.m, |e.books|)) ==> EngineOps.Anchored(e.tracking.m, |e.books|)
    ensures e.own == old(e.own)
  {
    hide *;
    ghost var s, names := StateOf(e), e.Names();
    ReplyParts(s, SweepClient(client));
    ViewsMeans(e);
    StateParts(e);
    SweptIs(e.E(), e.Names(), client);
    Sent([], Process(s, SweepClient(client)).msgs);
    var _ := EngineOps.CancelClientOrders(e, out, client);
    assert e.Names() == names;
    StateParts(e);
    msgs := DrainAll(e, out);
  }

  /** Everything flushed, round by round. */
  method ServeFlush(e: Engine.MatchingEngine, out: OrderBook.OutputBuffer) returns (msgs: seq<Msg>)
    requires e.Valid() && out.Valid() && EngineOps.Separate(e, out) && out.sent == []
    requires EngineFlush.Cursors(e, Unbegun(|e.books|))
    modifies e.own, e.pool, e.pool.freeList, e.tracking, e.tracking.slots, out, out.messages
    ensures e.Valid() && out.Valid() && EngineOps.Separate(e, out) && out.sent == []
    ensures StateOf(e) == Process(old(StateOf(e)), FlushBooks).state && msgs == Process(old(StateOf(e)), FlushBooks).msgs
    ensures EngineOps.Idle(e.books) && (old(EngineOps.Standard(e.books)) ==> EngineOps.Standard(e.books))
    ensures EngineOps.Anchored(e.tracking.m, |e.books|)
    ensures e.own == old(e.own)
  {
    hide *;
    ghost var s, names, keys := StateOf(e), e.Names(), e.symbols.m.Keys;
    ReplyParts(s, FlushBooks);
    ViewsMeans(e);
    EngineFlush.CursorsWithin(e, Unbegun(|e.books|));
    BookKeys(e);
    NamesKeys(e);
    StateParts(e);
    msgs := EngineFlush.FlushEverything(e, out, Unbegun(|e.books|));
    EmptiedMeans(e);
    NoneAnchored(|e.books|);
    assert e.Names() == names;
    NamesKeys(e);
    StateParts(e);
  }

  lemma NoneAnchored(books: nat)
    ensures EngineOps.Anchored(map[], books)
  {
  }

  lemma NamesKeys(e: Engine.MatchingEngine)
    requires e.Valid()
    ensures forall s :: s in e.E() <==> s in e.Names()
  {
    hide Engine.MatchingEngine.Valid, Engine.MatchingEngine.E;
    EngineOps.NamesOf(e);
  }

  method DrainAll(e: Engine.MatchingEngine, out: OrderBook.OutputBuffer) returns (msgs: seq<Msg>)
    requires e.Valid() && out.Valid() && EngineOps.Separate(e, out)
    modifies out
    ensures e.Valid() && out.Valid() && EngineOps.Separate(e, out) && out.sent == [] && msgs == old(out.sent)
    ensures StateOf(e) == old(StateOf(e))
    ensures e.books == old(e.books) && e.tracking.m == old(e.tracking.m) && (old(EngineOps.Idle(e.books)) ==> EngineOps.Idle(e.books))
    ensures e.own == old(e.own)
  {
    hide *;
    EngineOps.OutFrame(e, out);
    msgs := out.Drain();
  }

  lemma Sent(a: seq<Msg>, b: seq<Msg>)
    requires a == []
    ensures a + b == b
  {
  }

  lemma StateParts(e: Engine.MatchingEngine)
    requires e.Valid()
    ensures StateOf(e) == State(e.Names(), e.E(), e.tracking.m)
  {
  }

  lemma AdmissibleParts(e: Engine.MatchingEngine, input: Input)
    requires e.Valid() && Admissible(e, input)
    ensures input.FlushBooks? ==> EngineFlush.Cursors(e, Unbegun(|e.books|))
  {
    hide Engine.MatchingEngine.Valid, EngineOps.Ready, EngineFlush.Begins, EngineFlush.Cursors;
    if input.FlushBooks? {
      EngineFlush.IdleCursors(e, Unbegun(|e.books|));
    }
  }

  lemma ReplyParts(s: State, input: Input)
    ensures input.SweepClient? ==>
      Process(s, input) == Reply(State(s.names, map symbol | symbol in s.books :: CancelClient(s.books[symbol], input.client).book, s.tracking),
                                 ClientMsgs(Views(s.names, s.books), input.client))
    ensures |Unbegun(|s.names|)| == |Views(s.names, s.books)| && FlushRounds.Within(Views(s.names, s.books), Unbegun(|s.names|))
    ensures input.FlushBooks? ==>
      Process(s, input) == Reply(State(s.names, map symbol | symbol in s.books :: EmptyBook(symbol), map[]),
                                 FlushRounds.Transcript([], Views(s.names, s.books), Unbegun(|s.names|)))
  {
    hide PriceTime.AddOrder, PriceTime.CancelOrder, CancelClient, FlushRounds.Transcript, EmptyBook;
  }

  // ----- Runs -----

  ghost function ProcessAll(s: State, inputs: seq<Input>): State
    decreases |inputs|
  {
    if inputs == [] then s else ProcessAll(Process(s, inputs[0]).state, inputs[1..])
  }

  /** The input replaces or forgets what is tracked for the key. */
  predicate Forgets(input: Input, key: nat) {
    match input
    case New(_, o, _, _, _) => Key(o.user, o.oid) == key
    case CancelKey(user, oid, _) => Key(user, oid) == key
    case SweepClient(_) => false
    case FlushBooks => true
  }

  /** Other inputs leave a key's tracking, keep every known symbol known, and keep the first. */
  lemma {:induction false} TrackingStays(s: State, inputs: seq<Input>, key: nat)
    requires forall i :: 0 <= i < |inputs| ==> !Forgets(inputs[i], key)
    ensures var t := ProcessAll(s, inputs);
            && (key in t.tracking <==> key in s.tracking) && (key in s.tracking ==> t.tracking[key] == s.tracking[key])
            && s.books.Keys <= t.books.Keys && s.names <= t.names
    decreases |inputs|
  {
    hide PriceTime.AddOrder, PriceTime.CancelOrder, CancelClient, ClientMsgs, FlushRounds.Transcript;
    if inputs != [] {
      TrackingStays(Process(s, inputs[0]).state, inputs[1..], key);
    }
  }

  /** Whether the cancel of an accepted order reaches the order's book: the key was tracked, with
      the whole symbol, and an empty symbol is still found. */
  predicate Reaches(symbol: string, roomy: bool, gap: bool) {
    roomy && |symbol| <= 14 && (symbol != "" || gap)
  }

  lemma NewTracks(s: State, symbol: string, o: NewOrder, roomy: bool, spare: bool, gap: bool)
    requires !IsShut(s, symbol, gap) && (symbol == "" ==> s.names != [])
    requires roomy || Key(o.user, o.oid) !in s.tracking
    ensures var s1, key := Process(s, New(symbol, o, roomy, spare, gap)).state, Key(o.user, o.oid);
            && HomeOf(s, symbol) in s1.books && s.names <= s1.names && (key in s1.tracking <==> roomy)
            && (roomy ==> s1.tracking[key] == Engine.Tracked(symbol))
  {
    hide PriceTime.AddOrder;
  }

  /** What a cancel does with the symbol that it finds tracked. */
  lemma CancelFinds(t: State, user: u32, oid: u32, gap: bool)
    ensures Key(user, oid) !in t.tracking ==> Process(t, CancelKey(user, oid, gap)) == Reply(t, [CancelAck("UNKNOWN", user, oid)])
    ensures Key(user, oid) in t.tracking ==>
      var symbol, r := t.tracking[Key(user, oid)], Process(t, CancelKey(user, oid, gap));
      var home := HomeOf(t, symbol);
      if (symbol != "" || gap) && home in t.books then
        && r.state.books == t.books[home := PriceTime.CancelOrder(t.books[home], user, oid).book]
        && r.msgs == PriceTime.CancelOrder(t.books[home], user, oid).msgs
      else r.state.books == t.books
  {
    hide PriceTime.CancelOrder;
  }

  /** After an order is accepted, and any inputs that do not touch its tracking, cancelling it
      runs the cancel in the book that took the order, and there alone, if `Reaches` holds; if not,
      it leaves that book as it is. */
  lemma CancelReaches(s: State, symbol: string, o: NewOrder, roomy: bool, spare: bool, gap: bool, inputs: seq<Input>, later: bool)
    requires !IsShut(s, symbol, gap) && EngineOps.Name(symbol) && (symbol == "" ==> s.names != [])
    requires roomy || Key(o.user, o.oid) !in s.tracking
    requires forall i :: 0 <= i < |inputs| ==> !Forgets(inputs[i], Key(o.user, o.oid))
    ensures var home, t := HomeOf(s, symbol), ProcessAll(Process(s, New(symbol, o, roomy, spare, gap)).state, inputs);
            var r := Process(t, CancelKey(o.user, o.oid, later));
            && home in t.books && home in r.state.books
            && (Reaches(symbol, roomy, later) ==>
                  && r.state.books == t.books[home := PriceTime.CancelOrder(t.books[home], o.user, o.oid).book]
                  && r.msgs == PriceTime.CancelOrder(t.books[home], o.user, o.oid).msgs)
            && (!Reaches(symbol, roomy, later) ==> r.state.books[home] == t.books[home])
            && (!roomy ==> r == Reply(t, [CancelAck("UNKNOWN", o.user, o.oid)]))
  {
    hide Process, PriceTime.CancelOrder, ProcessAll, IsShut;
    var s1, key := Process(s, New(symbol, o, roomy, spare, gap)).state, Key(o.user, o.oid);
    NewTracks(s, symbol, o, roomy, spare, gap);
    TrackingStays(s1, inputs, key);
    var t := ProcessAll(s1, inputs);
    assert symbol == "" ==> HomeOf(t, symbol) == HomeOf(s, symbol);
    CancelFinds(t, o.user, o.oid, later);
  }

  /** A cancel of a resting order takes out that order, and leaves the other side and every
      other order of its own side where it was. */
  lemma CancelRemovesOne(b: Book, user: u32, oid: u32) returns (side: Side, n: nat)
    requires Inv(b) && Live(b, Key(user, oid))
    ensures n < |b.At(side)| && RestKey(b.At(side)[n]) == Key(user, oid)
    ensures var after := PriceTime.CancelOrder(b, user, oid).book;
            && after.At(side) == RemoveAt(b.At(side), n) && after.At(side.Opposite()) == b.At(side.Opposite())
            && !Live(after, Key(user, oid)) && Inv(after)
  {
    hide Ordered, Sound, Uncrossed, Best;
    var key := Key(user, oid);
    side := SideOf(b, key);
    n := DropKeyIs(b.At(side), key);
    CancelInv(b, user, oid);
    var after := PriceTime.CancelOrder(b, user, oid).book;
    forall i | 0 <= i < |after.At(side)|
      ensures RestKey(after.At(side)[i]) != key
    {
      assert after.At(side)[i] == b.At(side)[if i < n then i else i + 1];
    }
  }

  // ----- Every book of the engine, over every run -----

  /** Every book satisfies the book invariant and carries its own symbol. */
  ghost predicate Good(s: State) {
    forall symbol :: symbol in s.books ==> Inv(s.books[symbol]) && s.books[symbol].symbol == symbol
  }

  /** A new order has a positive quantity, and its key does not rest in the book where it comes to
      rest. */
  predicate FreshInput(s: State, input: Input) {
    input.New? ==>
      input.o.quantity > 0 && NewKey(EngineOps.BookOf(s.books, HomeOf(s, input.symbol)), input.o)
  }

  ghost predicate FreshInputs(s: State, inputs: seq<Input>)
    decreases |inputs|
  {
    inputs != [] ==> FreshInput(s, inputs[0]) && FreshInputs(Process(s, inputs[0]).state, inputs[1..])
  }

  lemma ProcessGood(s: State, input: Input)
    requires Good(s) && FreshInput(s, input)
    ensures Good(Process(s, input).state)
  {
    hide Inv, PriceTime.AddOrder, PriceTime.CancelOrder, CancelClient, NewKey, ClientMsgs, FlushRounds.Transcript, EmptyBook;
    match input {
      case New(symbol, o, _, _, _) =>
        EmptyGood(HomeOf(s, symbol));
        StepInv(EngineOps.BookOf(s.books, HomeOf(s, symbol)), Add(o));
      case CancelKey(user, oid, _) =>
        if Key(user, oid) in s.tracking && HomeOf(s, s.tracking[Key(user, oid)]) in s.books {
          StepInv(s.books[HomeOf(s, s.tracking[Key(user, oid)])], Cancel(user, oid));
        }
      case SweepClient(client) =>
        forall symbol | symbol in s.books
          ensures Inv(CancelClient(s.books[symbol], client).book) && CancelClient(s.books[symbol], client).book.symbol == symbol
        {
          StepInv(s.books[symbol], CancelFor(client));
        }
      case FlushBooks =>
        forall symbol | symbol in s.books
          ensures Inv(EmptyBook(symbol)) && EmptyBook(symbol).symbol == symbol
        {
          EmptyGood(symbol);
        }
    }
  }

  lemma EmptyGood(symbol: string)
    ensures Inv(EmptyBook(symbol)) && EmptyBook(symbol).symbol == symbol
  {
    EmptyInv(symbol);
  }

  /** In every run of an engine, with client cancels and flushes, every book stays sorted, sound,
      uncrossed and correctly announced. */
  lemma {:induction false} EngineRunInv(s: State, inputs: seq<Input>)
    requires Good(s) && FreshInputs(s, inputs)
    ensures Good(ProcessAll(s, inputs))
    decreases |inputs|
  {
    hide Good, Process, FreshInput;
    if inputs != [] {
      ProcessGood(s, inputs[0]);
      EngineRunInv(Process(s, inputs[0]).state, inputs[1..]);
    }
  }

  /** `after` is `before` without the order with this key: the order is gone from its place,
      and every other order of either side keeps its neighbours. */
  ghost predicate TakenOut(before: Book, after: Book, key: nat, side: Side, n: nat) {
    && n < |before.At(side)| && RestKey(before.At(side)[n]) == key
    && after.At(side) == RemoveAt(before.At(side), n) && after.At(side.Opposite()) == before.At(side.Opposite())
    && !Live(after, key)
  }

  /** An order with a fresh key is accepted; any inputs that do not touch its tracking follow.  If
      it still rests in its book, cancelling it takes it out, and exactly it, if and only if
      `Reaches` holds; otherwise it goes on resting.  If it rests no more, a cancel that reaches
      the book changes nothing. */
  lemma EngineCancel(
    s: State, symbol: string, o: NewOrder, roomy: bool, gap: bool, inputs: seq<Input>, later: bool, t: State, r: Reply)
    returns (side: Side, n: nat)
    requires Good(s) && !IsShut(s, symbol, gap) && EngineOps.Name(symbol) && (symbol == "" ==> s.names != [])
    requires roomy || Key(o.user, o.oid) !in s.tracking
    requires FreshInputs(s, [New(symbol, o, roomy, true, gap)] + inputs)
    requires forall i :: 0 <= i < |inputs| ==> !Forgets(inputs[i], Key(o.user, o.oid))
    requires t == ProcessAll(s, [New(symbol, o, roomy, true, gap)] + inputs) && r == Process(t, CancelKey(o.user, o.oid, later))
    ensures Good(t) && Good(r.state) && HomeOf(s, symbol) in t.books && HomeOf(s, symbol) in r.state.books
    ensures var key, before, after := Key(o.user, o.oid), t.books[HomeOf(s, symbol)], r.state.books[HomeOf(s, symbol)];
            && (Live(before, key) ==> (!Live(after, key) <==> Reaches(symbol, roomy, later)))
            && (Live(before, key) && Reaches(symbol, roomy, later) ==> TakenOut(before, after, key, side, n))
            && (Reaches(symbol, roomy, later) ==> r.state.books == t.books[HomeOf(s, symbol) := after])
            && (!Live(before, key) && Reaches(symbol, roomy, later) ==>
                  r.state.books == t.books && r.msgs == [CancelAck(HomeOf(s, symbol), o.user, o.oid)])
  {
    hide Inv, Good, FreshInputs, Process, Live, PriceTime.CancelOrder, Engine.Tracked, IsShut, EngineOps.Name, Reaches;
    side, n := Buy, 0;
    var first, home := New(symbol, o, roomy, true, gap), HomeOf(s, symbol);
    assert ([first] + inputs)[1..] == inputs;
    EngineRunInv(s, [first] + inputs);
    CancelReaches(s, symbol, o, roomy, true, gap, inputs, later);
    GoodAt(t, home);
    ProcessGood(t, CancelKey(o.user, o.oid, later));
    if Live(t.books[home], Key(o.user, o.oid)) {
      if Reaches(symbol, roomy, later) {
        side, n := CancelRemovesOne(t.books[home], o.user, o.oid);
      }
    } else {
      CancelNothing(t.books[home], o.user, o.oid);
    }
  }

  lemma GoodAt(s: State, symbol: string)
    requires Good(s) && symbol in s.books
    ensures Inv(s.books[symbol]) && s.books[symbol].symbol == symbol
  {
  }

  lemma CancelNothing(b: Book, user: u32, oid: u32)
    requires !Live(b, Key(user, oid))
    ensures PriceTime.CancelOrder(b, user, oid) == Outcome(b, [CancelAck(b.symbol, user, oid)])
  {
  }

  /** Three orders that outlive their cancel: one of a symbol with 15 characters, one whose key
      found no room in the key map, and one of the empty symbol, which is found no more. */
  lemma CancelMisses(o: NewOrder)
    requires o.quantity > 0 && o.price > 0
    ensures var long := "ABCDEFGHIJKLMNO";
            var t := Process(State([], map[], map[]), New(long, o, true, true, true)).state;
            var r := Process(t, CancelKey(o.user, o.oid, true));
            && |long| == 15 && long in r.state.books && Live(r.state.books[long], Key(o.user, o.oid))
            && r.msgs == [CancelAck("ABCDEFGHIJKLMN", o.user, o.oid)]
    ensures var t := Process(State([], map[], map[]), New("IBM", o, false, true, true)).state;
            var r := Process(t, CancelKey(o.user, o.oid, true));
            && "IBM" in r.state.books && Live(r.state.books["IBM"], Key(o.user, o.oid))
            && r.msgs == [CancelAck("UNKNOWN", o.user, o.oid)]
    ensures var t := Process(State(["IBM"], map["IBM" := EmptyBook("IBM")], map[]), New("", o, true, true, true)).state;
            var r := Process(t, CancelKey(o.user, o.oid, false));
            && "IBM" in r.state.books && Live(r.state.books["IBM"], Key(o.user, o.oid))
            && r.msgs == [CancelAck("", o.user, o.oid)]
  {
    hide PriceTime.AddOrder, PriceTime.CancelOrder, Live, ClientMsgs, FlushRounds.Transcript;
    FirstRests("ABCDEFGHIJKLMNO", o);
    FirstRests("IBM", o);
    assert "ABCDEFGHIJKLMNO"[..14] == "ABCDEFGHIJKLMN";
  }

  /** An order of the empty symbol rests in the book of the symbol that came first, and is
      acknowledged in that symbol's name. */
  lemma EmptySymbolTrades(o: NewOrder)
    requires o.quantity > 0 && o.price > 0
    ensures var r := Process(State(["IBM"], map["IBM" := EmptyBook("IBM")], map[]), New("", o, true, true, true));
            && r.state.books.Keys == {"IBM"} && Live(r.state.books["IBM"], Key(o.user, o.oid))
            && r.msgs != [] && r.msgs[0] == Ack("IBM", o.user, o.oid)
  {
    hide Live, Settle, MatchIn, Announce;
    FirstRests("IBM", o);
  }

  /** The first limit order of a book rests in it. */
  lemma FirstRests(symbol: string, o: NewOrder)
    requires o.quantity > 0 && o.price > 0
    ensures Live(PriceTime.AddOrder(EmptyBook(symbol), o).book, Key(o.user, o.oid))
  {
    var b, r := PriceTime.AddOrder(EmptyBook(symbol), o).book, Resting(o.user, o.oid, o.client, o.price, o.quantity, o.quantity);
    assert b.At(o.side) == [r];
    assert RestKey(b.At(o.side)[0]) == Key(o.user, o.oid);
  }
}
