/** Two engines, each with the requests that the listener routes to it, against a single engine:
    when every cancel reaches the engines that track its key, each symbol sees the same
    messages in the same order. */
module EngineSplit {
  import opened Orders
  import opened Sequences
  import opened PriceTime
  import opened SymbolTable
  import Engine
  import EngineOps
  import opened BookLaws
  import opened EngineLaws

  // ----- Routing by symbol -----

  /** The branchless routing of the source: 1 for symbols that start with N to Z in either
      case, 0 for everything else. */
  function Route(symbol: string): (id: int)
    ensures id == 0 || id == 1
  {
    if symbol == "" then 0
    else
      var c := symbol[0] as int;
      var isLower := if c >= 97 && c <= 122 then 1 else 0;
      var u := c - isLower * 32;
      if u >= 78 && u <= 90 then 1 else 0
  }

  /** Valid symbols start with a letter. */
  predicate Letter(symbol: string) {
    symbol != "" && (('A' <= symbol[0] <= 'Z') || ('a' <= symbol[0] <= 'z'))
  }

  lemma RouteByLetter(symbol: string)
    ensures Route(symbol) == 1 <==> symbol != "" && ('N' <= symbol[0] <= 'Z' || 'n' <= symbol[0] <= 'z')
    ensures Letter(symbol) <==>
              symbol != "" && ('A' <= symbol[0] <= 'M' || 'a' <= symbol[0] <= 'm' || 'N' <= symbol[0] <= 'Z' || 'n' <= symbol[0] <= 'z')
  {
  }

  /** The listener hands a new order to processor `id`: by its symbol's letter, or to both
      processors when the symbol does not start with a letter. */
  predicate Goes(symbol: string, id: int) {
    Letter(symbol) ==> Route(symbol) == id
  }

  lemma GoesTracked(symbol: string, id: int)
    ensures Goes(Engine.Tracked(symbol), id) <==> Goes(symbol, id)
  {
    assert symbol != "" ==> Engine.Tracked(symbol) != "" && Engine.Tracked(symbol)[0] == symbol[0];
  }

  /** Every processor that gets `t` gets `symbol`. */
  predicate Covers(symbol: string, t: string) {
    forall id :: 0 <= id <= 1 && Goes(t, id) ==> Goes(symbol, id)
  }

  // ----- Feeds -----

  /** A new order, or a cancel with the symbol that it carries, which only the routing reads. */
  datatype Request =
    | Place(symbol: string, o: NewOrder)
    | Withdraw(symbol: string, user: u32, oid: u32)

  type Feed = seq<Request>

  function KeyOf(r: Request): nat {
    match r
    case Place(_, o) => Key(o.user, o.oid)
    case Withdraw(_, user, oid) => Key(user, oid)
  }

  function Front(feed: Feed): (r: Feed)
    requires feed != []
    ensures |r| < |feed| && feed == r + [feed[|feed| - 1]]
  {
    feed[..|feed| - 1]
  }

  function Last(feed: Feed): Request
    requires feed != []
  {
    feed[|feed| - 1]
  }

  /** What the engine is asked; its key map, its pool and its symbol table have room. */
  function Asks(r: Request): Input {
    match r
    case Place(symbol, o) => New(symbol, o, true, true, true)
    case Withdraw(_, user, oid) => CancelKey(user, oid, true)
  }

  /** What an engine with room makes of a feed. */
  ghost function FeedState(feed: Feed): State {
    if feed == [] then State([], map[], map[])
    else Process(FeedState(Front(feed)), Asks(Last(feed))).state
  }

  /** The symbols that are ordered. */
  ghost function Symbols(feed: Feed): set<string> {
    set i | 0 <= i < |feed| && feed[i].Place? :: feed[i].symbol
  }

  ghost predicate Roomy(feed: Feed) {
    |Symbols(feed)| <= 64 && "" !in Symbols(feed)
  }

  function Noted(tracks: map<nat, string>, r: Request): map<nat, string> {
    if r.Place? then tracks[KeyOf(r) := Engine.Tracked(r.symbol)] else tracks - {KeyOf(r)}
  }

  /** The symbol of every key that was ordered and not cancelled since. */
  function Tracks(feed: Feed): map<nat, string> {
    if feed == [] then map[] else Noted(Tracks(Front(feed)), Last(feed))
  }

  /** With these keys tracked, the request is about this symbol. */
  predicate About(tracks: map<nat, string>, r: Request, symbol: string) {
    if r.Place? then r.symbol == symbol
    else KeyOf(r) in tracks && tracks[KeyOf(r)] == symbol
  }

  /** The messages that an engine sends about one symbol, in order. */
  ghost function FeedMsgs(feed: Feed, symbol: string): seq<Msg> {
    if feed == [] then []
    else
      FeedMsgs(Front(feed), symbol)
      + (if About(Tracks(Front(feed)), Last(feed), symbol) then Process(FeedState(Front(feed)), Asks(Last(feed))).msgs else [])
  }

  /** The part of a feed that one processor receives. */
  function Routed(feed: Feed, id: int): Feed {
    if feed == [] then []
    else Routed(Front(feed), id) + (if Goes(Last(feed).symbol, id) then [Last(feed)] else [])
  }

  predicate Heard(tracks: map<nat, string>, r: Request) {
    KeyOf(r) in tracks ==> Covers(r.symbol, tracks[KeyOf(r)])
  }

  /** Every request reaches the processors that track its key. */
  predicate Proper(feed: Feed) {
    feed != [] ==> Proper(Front(feed)) && Heard(Tracks(Front(feed)), Last(feed))
  }

  // ----- Which feeds are proper -----

  /** What is tracked was ordered, under its own symbol. */
  lemma {:induction false} TracksFrom(feed: Feed, k: nat) returns (i: nat)
    requires k in Tracks(feed)
    ensures i < |feed| && feed[i].Place? && KeyOf(feed[i]) == k && Tracks(feed)[k] == Engine.Tracked(feed[i].symbol)
    decreases |feed|
  {
    var r := Last(feed);
    if r.Place? && KeyOf(r) == k {
      i := |feed| - 1;
    } else {
      i := TracksFrom(Front(feed), k);
    }
  }

  /** If no pair of user and order id is ordered twice, and every cancel of an order carries the
      order's symbol or one that is no valid symbol, like the empty one, every request reaches the
      processors that track its key. */
  lemma {:induction false} ProperWhen(feed: Feed)
    requires forall i, j :: 0 <= i < j < |feed| && feed[i].Place? && feed[j].Place? ==> KeyOf(feed[i]) != KeyOf(feed[j])
    requires forall i, j :: 0 <= i < j < |feed| && feed[i].Place? && feed[j].Withdraw? && KeyOf(feed[i]) == KeyOf(feed[j]) ==>
               feed[j].symbol == feed[i].symbol || !Letter(feed[j].symbol)
    ensures Proper(feed)
    decreases |feed|
  {
    hide Letter, Route, Tracks, KeyOf;
    if feed != [] {
      var front, r := Front(feed), Last(feed);
      ProperWhen(front);
      if KeyOf(r) in Tracks(front) {
        var i := TracksFrom(front, KeyOf(r));
        GoesTracked(feed[i].symbol, 0);
        GoesTracked(feed[i].symbol, 1);
        assert feed[i] == front[i] && feed[|feed| - 1] == r;
      }
    }
  }

  // ----- Each symbol alone -----

  function Take(b: Book, r: Request): Outcome {
    match r
    case Place(_, o) => PriceTime.AddOrder(b, o)
    case Withdraw(_, user, oid) => PriceTime.CancelOrder(b, user, oid)
  }

  /** The requests about one symbol alone, for a book of its own. */
  function Alone(feed: Feed, symbol: string): Outcome {
    if feed == [] then Outcome(EmptyBook(symbol), [])
    else
      var before := Alone(Front(feed), symbol);
      if !About(Tracks(Front(feed)), Last(feed), symbol) then before
      else
        var r := Take(before.book, Last(feed));
        Outcome(r.book, before.msgs + r.msgs)
  }

  lemma SymbolsFront(feed: Feed)
    requires feed != []
    ensures Symbols(Front(feed)) <= Symbols(feed)
    ensures Last(feed).Place? ==> Last(feed).symbol in Symbols(feed)
    ensures Roomy(feed) ==> Roomy(Front(feed))
  {
    forall s | s in Symbols(Front(feed))
      ensures s in Symbols(feed)
    {
      var i :| 0 <= i < |Front(feed)| && Front(feed)[i].Place? && Front(feed)[i].symbol == s;
      assert feed[i].Place? && feed[i].symbol == s;
    }
    if Last(feed).Place? {
      assert feed[|feed| - 1].Place?;
    }
    SubsetSize(Symbols(Front(feed)), Symbols(feed));
  }

  lemma {:induction false} TracksNamed(feed: Feed)
    requires "" !in Symbols(feed)
    ensures "" !in Tracks(feed).Values
    decreases |feed|
  {
    hide Symbols;
    if feed != [] {
      SymbolsFront(feed);
      TracksNamed(Front(feed));
    }
  }

  /** The book of each symbol takes the requests about it, and no other. */
  ghost predicate OwnBook(s: State, r: Request, symbol: string) {
    var p := Process(s, Asks(r));
    if About(s.tracking, r, symbol) then Outcome(EngineOps.BookOf(p.state.books, symbol), p.msgs) == Take(EngineOps.BookOf(s.books, symbol), r)
    else EngineOps.BookOf(p.state.books, symbol) == EngineOps.BookOf(s.books, symbol)
  }

  lemma PlaceAlone(s: State, r: Request, symbol: string)
    requires r.Place? && r.symbol != "" && !IsShut(s, r.symbol, true)
    ensures var after := Process(s, Asks(r)).state;
            && after.tracking == Noted(s.tracking, r)
            && after.books.Keys == s.books.Keys + {r.symbol}
            && OwnBook(s, r, symbol)
  {
    hide PriceTime.AddOrder, Engine.Tracked, EngineOps.Opened;
  }

  lemma WithdrawAlone(s: State, r: Request, symbol: string)
    requires r.Withdraw? && "" !in s.tracking.Values
    ensures var after := Process(s, Asks(r)).state;
            && after.tracking == Noted(s.tracking, r)
            && after.books.Keys == s.books.Keys
            && OwnBook(s, r, symbol)
  {
    hide PriceTime.CancelOrder;
    if KeyOf(r) in s.tracking {
      var t := s.tracking[KeyOf(r)];
      assert t != "";
      CancelNothing(EmptyBook(t), r.user, r.oid);
    }
  }

  /** With at most 64 symbols nothing is refused: an engine treats each symbol as if it were
      alone, and tracks exactly the keys that were ordered and not cancelled since. */
  lemma {:induction false} EngineIsAlone(feed: Feed, symbol: string)
    requires Roomy(feed)
    ensures FeedState(feed).tracking == Tracks(feed) && FeedState(feed).books.Keys <= Symbols(feed)
    ensures EngineOps.BookOf(FeedState(feed).books, symbol) == Alone(feed, symbol).book
    ensures FeedMsgs(feed, symbol) == Alone(feed, symbol).msgs
    decreases |feed|
  {
    hide PriceTime.AddOrder, Symbols, Process, Take, About, Noted;
    if feed != [] {
      SymbolsFront(feed);
      EngineIsAlone(Front(feed), symbol);
      TracksNamed(Front(feed));
      NeverRefused(feed);
      if Last(feed).Place? {
        PlaceAlone(FeedState(Front(feed)), Last(feed), symbol);
      } else {
        WithdrawAlone(FeedState(Front(feed)), Last(feed), symbol);
      }
    }
  }

  lemma NeverRefused(feed: Feed)
    requires feed != [] && Roomy(feed) && FeedState(Front(feed)).books.Keys <= Symbols(Front(feed))
    ensures Last(feed).Place? ==> Last(feed).symbol != "" && !IsShut(FeedState(Front(feed)), Last(feed).symbol, true)
  {
    hide FeedState;
    var books, symbol := FeedState(Front(feed)).books, Last(feed).symbol;
    SymbolsFront(feed);
    if Last(feed).Place? && symbol !in books {
      assert books.Keys + {symbol} <= Symbols(feed);
      SubsetSize(books.Keys + {symbol}, Symbols(feed));
    }
  }

  // ----- Two engines equal one -----

  lemma RoutedFront(feed: Feed, id: int)
    requires feed != []
    ensures var r := Routed(feed, id);
            if Goes(Last(feed).symbol, id) then r != [] && Front(r) == Routed(Front(feed), id) && Last(r) == Last(feed)
            else r == Routed(Front(feed), id)
  {
    hide Goes;
  }

  /** An engine tracks no key with a symbol that is not routed to it. */
  lemma {:induction false} TracksOwn(feed: Feed, id: int)
    ensures forall k :: k in Tracks(Routed(feed, id)) ==> Goes(Tracks(Routed(feed, id))[k], id)
    decreases |feed|
  {
    hide Goes;
    if feed != [] {
      TracksOwn(Front(feed), id);
      GoesTracked(Last(feed).symbol, id);
      RoutedFront(feed, id);
    }
  }

  /** `part` has just those keys of `one` whose symbols are routed to `id`. */
  ghost predicate Part(part: map<nat, string>, one: map<nat, string>, id: int) {
    forall k :: (k in part <==> k in one && Goes(one[k], id)) && (k in part ==> part[k] == one[k])
  }

  lemma PartNoted(part: map<nat, string>, one: map<nat, string>, r: Request, id: int)
    requires Part(part, one, id) && Heard(one, r) && 0 <= id <= 1
    ensures Part(if Goes(r.symbol, id) then Noted(part, r) else part, Noted(one, r), id)
  {
    hide Goes;
    GoesTracked(r.symbol, id);
  }

  /** A processor to which a symbol is routed gets the requests about it, and knows them as such. */
  lemma PartAbout(part: map<nat, string>, one: map<nat, string>, r: Request, symbol: string, id: int)
    requires Part(part, one, id) && Heard(one, r) && 0 <= id <= 1 && Goes(symbol, id)
    ensures About(one, r, symbol) <==> Goes(r.symbol, id) && About(part, r, symbol)
  {
    hide Goes;
  }

  /** An engine tracks just those keys of a single engine whose symbols are routed to it. */
  lemma {:induction false} TracksSplit(feed: Feed, id: int)
    requires Proper(feed) && 0 <= id <= 1
    ensures Part(Tracks(Routed(feed, id)), Tracks(feed), id)
    decreases |feed|
  {
    hide Goes, Noted, Heard;
    if feed == [] {
      assert Tracks(feed) == map[];
    } else {
      hide Part;
      TracksSplit(Front(feed), id);
      PartNoted(Tracks(Routed(Front(feed), id)), Tracks(Front(feed)), Last(feed), id);
      RoutedFront(feed, id);
    }
  }

  lemma {:induction false} RoutedAlone(feed: Feed, symbol: string, id: int)
    requires Proper(feed) && 0 <= id <= 1 && Goes(symbol, id)
    ensures Alone(Routed(feed, id), symbol) == Alone(feed, symbol)
    decreases |feed|
  {
    hide Take, Goes, Tracks, About, Heard;
    if feed != [] {
      RoutedAlone(Front(feed), symbol, id);
      TracksSplit(Front(feed), id);
      RoutedFront(feed, id);
      PartAbout(Tracks(Routed(Front(feed), id)), Tracks(Front(feed)), Last(feed), symbol, id);
    }
  }

  lemma {:induction false} RoutedSymbols(feed: Feed, id: int)
    requires Roomy(feed)
    ensures Roomy(Routed(feed, id)) && Symbols(Routed(feed, id)) <= Symbols(feed)
    decreases |feed|
  {
    hide Goes;
    if feed != [] {
      SymbolsFront(feed);
      RoutedSymbols(Front(feed), id);
      RoutedFront(feed, id);
      if Goes(Last(feed).symbol, id) {
        SymbolsLast(Routed(feed, id));
      }
      SubsetSize(Symbols(Routed(feed, id)), Symbols(feed));
    }
  }

  lemma SymbolsLast(feed: Feed)
    requires feed != []
    ensures Symbols(feed) <= Symbols(Front(feed)) + (if Last(feed).Place? then {Last(feed).symbol} else {})
  {
    forall s | s in Symbols(feed)
      ensures s in Symbols(Front(feed)) || (Last(feed).Place? && s == Last(feed).symbol)
    {
      var i :| 0 <= i < |feed| && feed[i].Place? && feed[i].symbol == s;
      if i < |Front(feed)| {
        assert Front(feed)[i].Place? && Front(feed)[i].symbol == s;
      }
    }
  }

  /** A processor that receives a symbol's requests treats them as if it were the only engine. */
  lemma SameAsOneEngine(feed: Feed, symbol: string, id: int)
    requires Roomy(feed) && Proper(feed) && 0 <= id <= 1 && Goes(symbol, id)
    ensures FeedMsgs(Routed(feed, id), symbol) == FeedMsgs(feed, symbol)
    ensures EngineOps.BookOf(FeedState(Routed(feed, id)).books, symbol) == EngineOps.BookOf(FeedState(feed).books, symbol)
  {
    hide *;
    RoutedSymbols(feed, id);
    EngineIsAlone(feed, symbol);
    EngineIsAlone(Routed(feed, id), symbol);
    RoutedAlone(feed, symbol, id);
  }

  lemma {:induction false} OtherEngineSilent(feed: Feed, symbol: string, id: int)
    requires !Goes(symbol, id)
    ensures FeedMsgs(Routed(feed, id), symbol) == []
    decreases |feed|
  {
    hide Process, FeedState, Goes, Tracks;
    if feed != [] {
      OtherEngineSilent(Front(feed), symbol, id);
      TracksOwn(Front(feed), id);
      RoutedFront(feed, id);
    }
  }

  /** Splitting a feed over two engines: for a symbol that starts with A to M or a to m engine 0
      sends the acknowledgements, trades and top-of-book messages of a single engine, in the same
      order, and engine 1 sends nothing; from N to Z or n to z it is the other way round; for any
      other symbol both engines send all of them, so the output is doubled. */
  lemma TwoEnginesEqualOne(feed: Feed, symbol: string)
    requires Roomy(feed) && Proper(feed)
    ensures var one, a, b := FeedMsgs(feed, symbol), FeedMsgs(Routed(feed, 0), symbol), FeedMsgs(Routed(feed, 1), symbol);
            if symbol != "" && ('A' <= symbol[0] <= 'M' || 'a' <= symbol[0] <= 'm') then a == one && b == []
            else if symbol != "" && ('N' <= symbol[0] <= 'Z' || 'n' <= symbol[0] <= 'z') then a == [] && b == one
            else a == one && b == one
  {
    hide FeedMsgs, Routed, Symbols, Proper;
    if Goes(symbol, 0) { SameAsOneEngine(feed, symbol, 0); } else { OtherEngineSilent(feed, symbol, 0); }
    if Goes(symbol, 1) { SameAsOneEngine(feed, symbol, 1); } else { OtherEngineSilent(feed, symbol, 1); }
  }

  /** One order of a symbol that starts with a digit: both engines answer it, alike. */
  lemma BothAnswer(o: NewOrder)
    ensures var feed := [Place("9X", o)];
            FeedMsgs(Routed(feed, 0), "9X") == FeedMsgs(Routed(feed, 1), "9X") == FeedMsgs(feed, "9X") != []
  {
    hide FeedMsgs, Routed, Symbols, Tracks, Settle, MatchIn, Announce;
    var feed := [Place("9X", o)];
    OneOrder("9X", o);
    TwoEnginesEqualOne(feed, "9X");
    EngineIsAlone(feed, "9X");
  }

  // ----- Where a cancel goes -----

  lemma OneMore(feed: Feed, r: Request, id: int)
    ensures Front(feed + [r]) == feed && Last(feed + [r]) == r
    ensures Routed(feed + [r], id) == if Goes(r.symbol, id) then Routed(feed, id) + [r] else Routed(feed, id)
  {
    hide Goes;
    assert Front(feed + [r]) == feed;
  }

  lemma RoomyMore(feed: Feed, r: Request)
    requires Roomy(feed) && r.Withdraw?
    ensures Roomy(feed + [r])
  {
    OneMore(feed, r, 0);
    SymbolsLast(feed + [r]);
    SubsetSize(Symbols(feed + [r]), Symbols(feed));
  }

  lemma {:induction false} AloneSymbol(feed: Feed, symbol: string)
    ensures Alone(feed, symbol).book.symbol == symbol
    decreases |feed|
  {
    hide PriceTime.CancelOrder, PriceTime.AddOrder, About;
    if feed != [] {
      AloneSymbol(Front(feed), symbol);
      match Last(feed)
      case Place(_, o) => AddSymbol(Alone(Front(feed), symbol).book, o);
      case Withdraw(_, user, oid) => CancelSymbol(Alone(Front(feed), symbol).book, user, oid);
    }
  }

  lemma AddSymbol(b: Book, o: NewOrder)
    ensures PriceTime.AddOrder(b, o).book.symbol == b.symbol
  {
    hide Announce, Settle;
    SameSymbol(b, o);
  }

  /** An engine that tracks the key of a cancel answers in the symbol it tracks, and any other
      engine knows nothing of it, whatever symbol the cancel carries. */
  lemma CancelAnswer(feed: Feed, symbol: string, user: u32, oid: u32)
    requires Roomy(feed)
    ensures var key, msgs := Key(user, oid), Process(FeedState(feed), CancelKey(user, oid, true)).msgs;
            if key in Tracks(feed) then msgs != [] && msgs[0] == CancelAck(Tracks(feed)[key], user, oid)
            else msgs == [CancelAck("UNKNOWN", user, oid)]
  {
    hide FeedState, Symbols, Tracks, Announce, DropKey, Live;
    EngineIsAlone(feed, symbol);
    TracksNamed(feed);
    if Key(user, oid) in Tracks(feed) {
      EngineIsAlone(feed, Tracks(feed)[Key(user, oid)]);
      AloneSymbol(feed, Tracks(feed)[Key(user, oid)]);
    }
  }

  /** One more cancel of a tracked key, whatever symbol it carries: the engines that the tracked
      symbol is routed to go on like a single engine if and only if all of them get the cancel. */
  lemma CancelRouted(feed: Feed, symbol: string, user: u32, oid: u32)
    requires Roomy(feed) && Proper(feed) && Key(user, oid) in Tracks(feed)
    ensures var t, more := Tracks(feed)[Key(user, oid)], feed + [Withdraw(symbol, user, oid)];
            && ((forall id :: 0 <= id <= 1 && Goes(t, id) ==> FeedMsgs(Routed(more, id), t) == FeedMsgs(more, t))
                <==> Covers(symbol, t))
            && forall id :: 0 <= id <= 1 && Goes(t, id) && !Goes(symbol, id) ==>
                 EngineOps.BookOf(FeedState(Routed(more, id)).books, t) == EngineOps.BookOf(FeedState(feed).books, t)
  {
    hide Goes, Process, FeedState, Routed, Symbols, Roomy, Tracks, EngineOps.BookOf;
    var t, r := Tracks(feed)[Key(user, oid)], Withdraw(symbol, user, oid);
    var more := feed + [r];
    RoomyMore(feed, r);
    CancelAnswer(feed, symbol, user, oid);
    forall id | 0 <= id <= 1 && Goes(t, id)
      ensures Covers(symbol, t) ==> FeedMsgs(Routed(more, id), t) == FeedMsgs(more, t)
      ensures !Goes(symbol, id) ==> FeedMsgs(Routed(more, id), t) != FeedMsgs(more, t)
      ensures !Goes(symbol, id) ==>
                EngineOps.BookOf(FeedState(Routed(more, id)).books, t) == EngineOps.BookOf(FeedState(feed).books, t)
    {
      OneMore(feed, r, id);
      SameAsOneEngine(feed, t, id);
      if Covers(symbol, t) {
        SameAsOneEngine(more, t, id);
      }
    }
  }

  lemma OneOrder(symbol: string, o: NewOrder)
    requires symbol != "" && |symbol| <= 14
    ensures var feed := [Place(symbol, o)];
            && Roomy(feed) && Proper(feed) && Tracks(feed) == map[Key(o.user, o.oid) := symbol]
            && Alone(feed, symbol) == PriceTime.AddOrder(EmptyBook(symbol), o)
            && forall id :: Goes(symbol, id) ==> Routed(feed, id) == feed
  {
    hide PriceTime.AddOrder, Goes;
    var feed := [Place(symbol, o)];
    assert Front(feed) == [] && Last(feed) == Place(symbol, o);
    assert feed[0].Place?;
    assert Symbols(feed) == {symbol};
  }

  /** A first order that rests is withdrawn by a cancel of its key. */
  lemma FirstWithdrawn(symbol: string, o: NewOrder)
    requires o.quantity > 0 && o.price > 0
    ensures !Live(PriceTime.CancelOrder(PriceTime.AddOrder(EmptyBook(symbol), o).book, o.user, o.oid).book, Key(o.user, o.oid))
  {
    var b, r := PriceTime.AddOrder(EmptyBook(symbol), o).book, Resting(o.user, o.oid, o.client, o.price, o.quantity, o.quantity);
    assert b.At(o.side) == [r] && b.At(o.side.Opposite()) == [];
    assert DropKey([r], RestKey(r)) == [];
  }

  /** A cancel that carries another symbol than its order's: the single engine withdraws the
      order, and of two engines the one that has it lets it rest. */
  lemma Misrouted(o: NewOrder)
    requires o.quantity > 0 && o.price > 0
    ensures var feed := [Place("AAPL", o), Withdraw("NVDA", o.user, o.oid)];
            && !Live(EngineOps.BookOf(FeedState(feed).books, "AAPL"), Key(o.user, o.oid))
            && Live(EngineOps.BookOf(FeedState(Routed(feed, 0)).books, "AAPL"), Key(o.user, o.oid))
  {
    hide FeedState, Roomy, Proper, Tracks, Alone, Routed, Live, PriceTime.AddOrder, PriceTime.CancelOrder, EngineOps.BookOf;
    var first, r := [Place("AAPL", o)], Withdraw("NVDA", o.user, o.oid);
    assert first + [r] == [Place("AAPL", o), Withdraw("NVDA", o.user, o.oid)];
    assert Goes("AAPL", 0) && !Goes("NVDA", 0);
    OneOrder("AAPL", o);
    RoomyMore(first, r);
    EngineIsAlone(first + [r], "AAPL");
    EngineIsAlone(first, "AAPL");
    CancelRouted(first, "NVDA", o.user, o.oid);
    AloneMore(first, r, "AAPL");
    FirstRests("AAPL", o);
    FirstWithdrawn("AAPL", o);
  }

  lemma AloneMore(feed: Feed, r: Request, symbol: string)
    requires About(Tracks(feed), r, symbol)
    ensures Alone(feed + [r], symbol).book == Take(Alone(feed, symbol).book, r).book
  {
    assert Front(feed + [r]) == feed;
  }

  // ----- Cancels without a symbol -----

  /** Orders of symbols that start with a letter, and cancels as both parsers deliver them: with
      an empty symbol. */
  predicate Parsed(feed: Feed) {
    forall i :: 0 <= i < |feed| ==> if feed[i].Place? then Letter(feed[i].symbol) else feed[i].symbol == ""
  }

  function Withdrawals(feed: Feed): nat {
    if feed == [] then 0 else Withdrawals(Front(feed)) + if Last(feed).Withdraw? then 1 else 0
  }

  /** The cancels that an engine answers in the name of the symbol "UNKNOWN", for want of their key. */
  function Unknowns(feed: Feed): nat {
    if feed == [] then 0
    else Unknowns(Front(feed)) + if Last(feed).Withdraw? && KeyOf(Last(feed)) !in Tracks(Front(feed)) then 1 else 0
  }

  lemma {:induction false} TracksLetters(feed: Feed)
    requires Parsed(feed)
    ensures forall k :: k in Tracks(feed) ==> Letter(Tracks(feed)[k])
    decreases |feed|
  {
    if feed != [] {
      TracksLetters(Front(feed));
      assert Last(feed).Place? ==> Engine.Tracked(Last(feed).symbol)[0] == Last(feed).symbol[0];
    }
  }

  /** The price of the split: a cancel goes to both engines, and one of them answers it as unknown
      although the other knows it. */
  lemma {:induction false} UnknownAnswers(feed: Feed)
    requires Parsed(feed) && Proper(feed)
    ensures Unknowns(Routed(feed, 0)) + Unknowns(Routed(feed, 1)) == Unknowns(feed) + Withdrawals(feed)
    decreases |feed|
  {
    hide Tracks, Heard;
    if feed != [] {
      UnknownAnswers(Front(feed));
      TracksLetters(Front(feed));
      RoutedFront(feed, 0);
      RoutedFront(feed, 1);
      TracksSplit(Front(feed), 0);
      TracksSplit(Front(feed), 1);
    }
  }
}
