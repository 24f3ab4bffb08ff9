/** The symbol map of the engine: open addressing over strings, never deleted from. */
module SymbolTable {
  import opened Sequences
  import opened ProbeTable

  const SYMBOL_SLOTS: nat := 512
  const SYMBOL_PROBES: nat := 64
  const MAX_SYMBOLS: nat := 64

  /** An empty symbol marks an unused slot. */
  datatype SymbolSlot = SymbolSlot(symbol: string, book: nat)

  ghost function FindSymbol(t: seq<SymbolSlot>, h: nat, symbol: string, d: nat): int
    requires |t| == SYMBOL_SLOTS && h < SYMBOL_SLOTS && d <= SYMBOL_PROBES
    decreases SYMBOL_PROBES - d
  {
    if d == SYMBOL_PROBES then -1
    else
      var i := Probe(h, d, SYMBOL_SLOTS);
      if t[i].symbol == symbol then i
      else if t[i].symbol == "" then -1
      else FindSymbol(t, h, symbol, d + 1)
  }

  /** Every stored symbol is stored once, reachable without crossing an unused slot. */
  ghost predicate Placed(t: seq<SymbolSlot>, at: map<string, nat>, hash: string -> nat) {
    && |t| == SYMBOL_SLOTS && (forall s: string :: hash(s) < SYMBOL_SLOTS)
    && (forall s :: s in at ==> s != "" && at[s] < SYMBOL_PROBES && t[Probe(hash(s), at[s], SYMBOL_SLOTS)].symbol == s)
    && (forall s, e: nat :: s in at && e < at[s] && at[s] < SYMBOL_PROBES ==> t[Probe(hash(s), e, SYMBOL_SLOTS)].symbol != "")
    && (forall i :: 0 <= i < |t| && t[i].symbol != "" ==>
          t[i].symbol in at && at[t[i].symbol] < SYMBOL_PROBES && Probe(hash(t[i].symbol), at[t[i].symbol], SYMBOL_SLOTS) == i)
  }

  lemma {:induction false} FindSymbolIs(t: seq<SymbolSlot>, at: map<string, nat>, hash: string -> nat, symbol: string, d: nat)
    requires Placed(t, at, hash) && symbol != "" && d <= SYMBOL_PROBES
    requires forall e: nat :: e < d ==> t[Probe(hash(symbol), e, SYMBOL_SLOTS)].symbol !in {symbol, ""}
    ensures FindSymbol(t, hash(symbol), symbol, d)
         == if symbol in at then Probe(hash(symbol), at[symbol], SYMBOL_SLOTS) else -1
    decreases SYMBOL_PROBES - d
  {
    if d < SYMBOL_PROBES {
      var i := Probe(hash(symbol), d, SYMBOL_SLOTS);
      if t[i].symbol != symbol && t[i].symbol != "" {
        FindSymbolIs(t, at, hash, symbol, d + 1);
      }
    }
  }

  /** An unused slot among the first 64 probes. */
  ghost predicate GapIn(t: seq<SymbolSlot>, h: nat)
    requires |t| == SYMBOL_SLOTS && h < SYMBOL_SLOTS
  {
    exists e: nat :: e < SYMBOL_PROBES && t[Probe(h, e, SYMBOL_SLOTS)].symbol == ""
  }

  /** The empty symbol is never stored, and yet a lookup finds it: in the first unused slot. */
  lemma {:induction false} EmptyIsFound(t: seq<SymbolSlot>, h: nat, d: nat)
    requires |t| == SYMBOL_SLOTS && h < SYMBOL_SLOTS && d <= SYMBOL_PROBES
    requires forall e: nat :: e < d ==> t[Probe(h, e, SYMBOL_SLOTS)].symbol != ""
    ensures var r := FindSymbol(t, h, "", d);
            if GapIn(t, h) then 0 <= r < SYMBOL_SLOTS && t[r].symbol == "" else r == -1
    decreases SYMBOL_PROBES - d
  {
    if d < SYMBOL_PROBES && t[Probe(h, d, SYMBOL_SLOTS)].symbol != "" {
      EmptyIsFound(t, h, d + 1);
    }
  }

  /** The symbols met by the first `d` probes. */
  ghost function Met(t: seq<SymbolSlot>, h: nat, d: nat): set<string>
    requires |t| == SYMBOL_SLOTS && h < SYMBOL_SLOTS && d <= SYMBOL_PROBES
  {
    set e: nat | e < d :: t[Probe(h, e, SYMBOL_SLOTS)].symbol
  }

  lemma {:induction false} MetSize(t: seq<SymbolSlot>, at: map<string, nat>, hash: string -> nat, h: nat, d: nat)
    requires Placed(t, at, hash) && h < SYMBOL_SLOTS && d <= SYMBOL_PROBES
    requires forall e: nat :: e < d ==> t[Probe(h, e, SYMBOL_SLOTS)].symbol != ""
    ensures |Met(t, h, d)| == d && Met(t, h, d) <= at.Keys
  {
    if d == 0 {
      assert Met(t, h, d) == {};
    } else {
      MetSize(t, at, hash, h, d - 1);
      var last := t[Probe(h, d - 1, SYMBOL_SLOTS)].symbol;
      assert Met(t, h, d) == Met(t, h, d - 1) + {last};
      assert last !in Met(t, h, d - 1) by {
        forall e: nat | e < d - 1
          ensures t[Probe(h, e, SYMBOL_SLOTS)].symbol != last
        {
          assert Probe(h, e, SYMBOL_SLOTS) != Probe(h, d - 1, SYMBOL_SLOTS);
        }
      }
    }
  }

  /** Pigeonhole: with fewer than 64 symbols stored, some slot among the first 64 probes is unused. */
  lemma SlotLeft(t: seq<SymbolSlot>, at: map<string, nat>, hash: string -> nat, h: nat)
    requires Placed(t, at, hash) && h < SYMBOL_SLOTS && |at| < 64
    ensures GapIn(t, h)
  {
    if forall e: nat :: e < SYMBOL_PROBES ==> t[Probe(h, e, SYMBOL_SLOTS)].symbol != "" {
      MetSize(t, at, hash, h, SYMBOL_PROBES);
      SubsetSize(Met(t, h, SYMBOL_PROBES), at.Keys);
    }
  }

  lemma PlacedInsert(t: seq<SymbolSlot>, at: map<string, nat>, hash: string -> nat, symbol: string, n: nat, book: nat)
    requires Placed(t, at, hash) && symbol != "" && symbol !in at && n < SYMBOL_PROBES
    requires t[Probe(hash(symbol), n, SYMBOL_SLOTS)].symbol == ""
    requires forall e: nat :: e < n ==> t[Probe(hash(symbol), e, SYMBOL_SLOTS)].symbol != ""
    ensures Placed(t[Probe(hash(symbol), n, SYMBOL_SLOTS) := SymbolSlot(symbol, book)], at[symbol := n], hash)
  {
  }

  /** Unused slots refer to book 0. */
  ghost predicate Zeroed(t: seq<SymbolSlot>) {
    forall i :: 0 <= i < |t| && t[i].symbol == "" ==> t[i].book == 0
  }

  /** The slots stand for the map `m` of symbols to books. */
  ghost predicate Table(t: seq<SymbolSlot>, at: map<string, nat>, m: map<string, nat>, hash: string -> nat)
    ensures Table(t, at, m, hash) ==> |t| == SYMBOL_SLOTS && "" !in m && forall s: string :: hash(s) < SYMBOL_SLOTS
  {
    && Placed(t, at, hash) && m.Keys == at.Keys && Zeroed(t)
    && forall s :: s in m ==> m[s] == t[Probe(hash(s), at[s], SYMBOL_SLOTS)].book
  }

  lemma TableNew(t: seq<SymbolSlot>, at: map<string, nat>, m: map<string, nat>, hash: string -> nat, symbol: string, n: nat, book: nat)
    requires Table(t, at, m, hash) && symbol != "" && symbol !in m && n < SYMBOL_PROBES
    requires t[Probe(hash(symbol), n, SYMBOL_SLOTS)].symbol == ""
    requires forall e: nat :: e < n ==> t[Probe(hash(symbol), e, SYMBOL_SLOTS)].symbol != ""
    ensures Table(t[Probe(hash(symbol), n, SYMBOL_SLOTS) := SymbolSlot(symbol, book)], at[symbol := n], m[symbol := book], hash)
  {
    hide Placed;
    var i := Probe(hash(symbol), n, SYMBOL_SLOTS);
    PlacedInsert(t, at, hash, symbol, n, book);
    Undisturbed(t, at, hash, i);
  }

  lemma TableAgain(t: seq<SymbolSlot>, at: map<string, nat>, m: map<string, nat>, hash: string -> nat, i: nat, book: nat)
    requires Table(t, at, m, hash) && i < |t| && t[i].symbol != ""
    ensures t[i].symbol in m && Table(t[i := t[i].(book := book)], at, m[t[i].symbol := book], hash)
  {
    hide Placed;
    PlacedSame(t, at, hash, i, book);
  }

  class SymbolMap {
    const slots: array<SymbolSlot>
    const hash: string -> nat
    var count: nat
    ghost var t: seq<SymbolSlot>
    ghost var at: map<string, nat>
    ghost var m: map<string, nat>

    ghost predicate Valid()
      reads this, slots
      ensures Valid() ==> "" !in m && forall s: string :: hash(s) < SYMBOL_SLOTS
    {
      && slots.Length == SYMBOL_SLOTS && t == slots[..]
      && Table(t, at, m, hash) && count == |m|
    }

    /** A lookup of the empty symbol meets an unused slot. */
    ghost predicate Gap()
      requires Valid()
      reads this, slots
    {
      GapIn(t, hash(""))
    }

    constructor (hash: string -> nat)
      requires forall s: string :: hash(s) < SYMBOL_SLOTS
      ensures Valid() && m == map[] && fresh(slots) && slots.Length == 512
    {
      slots := new SymbolSlot[SYMBOL_SLOTS](_ => SymbolSlot("", 0));
      this.hash, count, at, m := hash, 0, map[], map[];
      new;
      t := slots[..];
    }

    /** The book index of a symbol, or -1.  The empty symbol, which no book has, is taken for
        any unused slot and answered with book 0. */
    method Find(symbol: string) returns (r: int)
      requires Valid()
      ensures r == if symbol in m then m[symbol] else if symbol == "" && Gap() then 0 else -1
    {
      var h := hash(symbol);
      if symbol == "" {
        EmptyIsFound(t, h, 0);
      } else {
        FindSymbolIs(t, at, hash, symbol, 0);
      }
      for i := 0 to SYMBOL_PROBES
        invariant FindSymbol(t, h, symbol, 0) == FindSymbol(t, h, symbol, i)
      {
        var idx := Probe(h, i, SYMBOL_SLOTS);
        if slots[idx].symbol == symbol {
          return slots[idx].book;
        }
        if slots[idx].symbol == "" {
          return -1;
        }
      }
      return -1;
    }

    /** Use the unused slot `n` steps from the symbol's hash. */
    method StoreNew(symbol: string, n: nat, book: nat)
      requires Valid() && symbol != "" && symbol !in m && n < SYMBOL_PROBES
      requires t[Probe(hash(symbol), n, SYMBOL_SLOTS)].symbol == ""
      requires forall e: nat :: e < n ==> t[Probe(hash(symbol), e, SYMBOL_SLOTS)].symbol != ""
      modifies this, slots
      ensures Valid() && m == old(m)[symbol := book]
    {
      hide Table, Probe;
      var idx := Probe(hash(symbol), n, SYMBOL_SLOTS);
      TableNew(t, at, m, hash, symbol, n, book);
      slots[idx] := SymbolSlot(symbol, book);
      count := count + 1;
      t, at, m := t[idx := SymbolSlot(symbol, book)], at[symbol := n], m[symbol := book];
    }

    /** Replace the book of a symbol that is stored in slot `idx`. */
    method StoreAgain(symbol: string, idx: nat, book: nat)
      requires Valid() && symbol != "" && idx < SYMBOL_SLOTS && t[idx].symbol == symbol
      modifies this, slots
      ensures Valid() && symbol in old(m) && m == old(m)[symbol := book]
    {
      hide Table, Probe;
      TableAgain(t, at, m, hash, idx, book);
      slots[idx] := slots[idx].(book := book);
      t, m := t[idx := t[idx].(book := book)], m[symbol := book];
    }

    /** Store a symbol.  With fewer than 64 stored, this cannot fail. */
    method Insert(symbol: string, book: nat) returns (ok: bool)
      requires Valid() && symbol != ""
      modifies this, slots
      ensures Valid() && m == if ok then old(m)[symbol := book] else old(m)
      ensures |old(m)| < MAX_SYMBOLS || symbol in old(m) ==> ok
    {
      hide Placed, Probe;
      var h := hash(symbol);
      KeysSize(m, at);
      if |m| < MAX_SYMBOLS {
        SlotLeft(t, at, hash, h);
      }
      PlacedShape(t, at, hash);
      for i := 0 to SYMBOL_PROBES
        invariant Valid() && t == old(t) && m == old(m) && at == old(at)
        invariant forall e: nat :: e < i ==> t[Probe(h, e, SYMBOL_SLOTS)].symbol !in {symbol, ""}
      {
        var idx := Probe(h, i, SYMBOL_SLOTS);
        if slots[idx].symbol == "" {
          NotBeyond(t, at, hash, symbol, i);
          StoreNew(symbol, i, book);
          return true;
        }
        if slots[idx].symbol == symbol {
          StoreAgain(symbol, idx, book);
          return true;
        }
      }
      NowhereElse(t, at, hash, symbol);
      return false;
    }
  }

  /** A symbol not met before an unused slot is not stored at all. */
  lemma NotBeyond(t: seq<SymbolSlot>, at: map<string, nat>, hash: string -> nat, symbol: string, n: nat)
    requires Placed(t, at, hash) && n < SYMBOL_PROBES && t[Probe(hash(symbol), n, SYMBOL_SLOTS)].symbol == ""
    requires forall e: nat :: e < n ==> t[Probe(hash(symbol), e, SYMBOL_SLOTS)].symbol !in {symbol, ""}
    ensures symbol !in at
  {
  }

  lemma NowhereElse(t: seq<SymbolSlot>, at: map<string, nat>, hash: string -> nat, symbol: string)
    requires Placed(t, at, hash)
    requires forall e: nat :: e < SYMBOL_PROBES ==> t[Probe(hash(symbol), e, SYMBOL_SLOTS)].symbol !in {symbol, ""}
    ensures symbol !in at
  {
  }

  lemma PlacedSame(t: seq<SymbolSlot>, at: map<string, nat>, hash: string -> nat, i: nat, book: nat)
    requires Placed(t, at, hash) && i < |t| && t[i].symbol != ""
    ensures Placed(t[i := t[i].(book := book)], at, hash) && t[i].symbol in at
    ensures forall s :: s in at ==> hash(s) < SYMBOL_SLOTS && at[s] < SYMBOL_PROBES
                                    && (Probe(hash(s), at[s], SYMBOL_SLOTS) == i <==> s == t[i].symbol)
  {
  }

  lemma KeysSize<K, V, W>(a: map<K, V>, b: map<K, W>)
    requires a.Keys == b.Keys
    ensures |a| == |b|
  {
    assert |a| == |a.Keys| && |b| == |b.Keys|;
  }

  lemma PlacedShape(t: seq<SymbolSlot>, at: map<string, nat>, hash: string -> nat)
    requires Placed(t, at, hash)
    ensures |t| == SYMBOL_SLOTS && forall s :: s in at ==> hash(s) < SYMBOL_SLOTS && at[s] < SYMBOL_PROBES
  {
  }

  /** An unused slot holds no stored symbol. */
  lemma Undisturbed(t: seq<SymbolSlot>, at: map<string, nat>, hash: string -> nat, i: nat)
    requires Placed(t, at, hash) && i < |t| && t[i].symbol == ""
    ensures forall s :: s in at ==> hash(s) < SYMBOL_SLOTS && at[s] < SYMBOL_PROBES && Probe(hash(s), at[s], SYMBOL_SLOTS) != i
  {
  }

  /** With fewer than 64 symbols stored, every lookup of the empty symbol meets an unused slot. */
  lemma GapLeft(table: SymbolMap)
    requires table.Valid() && |table.m| < MAX_SYMBOLS
    ensures table.Gap()
  {
    KeysSize(table.m, table.at);
    SlotLeft(table.t, table.at, table.hash, table.hash(""));
  }
}
