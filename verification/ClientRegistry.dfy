/** The client registry: a probe table without tombstones, shared under a lock.  Each
    method is one critical section (or one atomic counter update), so a run of calls in
    any order is a locked interleaving of the threads. */
module ClientRegistry {
  import opened Orders
  import opened ProbeTable
  import opened Sequences

  const SLOTS: nat := 16384
  const LOOKUP_PROBES: nat := 256
  const UDP_BASE: nat := 0x8000_0000
  const ID_LIMIT: nat := 0x1_0000_0000

  datatype Transport = Unknown | Tcp | Udp
  datatype Protocol = Undecided | Csv | Binary
  datatype Addr = Addr(host: u32, port: int)

  datatype Entry = Entry(active: bool, id: nat, transport: Transport, fd: int, addr: Addr, protocol: Protocol)

  function Vacant(): Entry {
    Entry(false, 0, Unknown, -1, Addr(0, 0), Undecided)
  }

  // ----- Probing -----

  /** Where a lookup by id stops: the first active entry with that id, or -1. */
  ghost function FindFrom(es: seq<Entry>, h: nat, id: nat, d: nat): int
    requires |es| == SLOTS && h < SLOTS && d <= LOOKUP_PROBES
    decreases LOOKUP_PROBES - d
  {
    if d == LOOKUP_PROBES then -1
    else
      var i := Probe(h, d, SLOTS);
      if es[i].active && es[i].id == id then i else FindFrom(es, h, id, d + 1)
  }

  /** The number of steps from `h` to the first vacant slot, or -1. */
  ghost function VacantFrom(es: seq<Entry>, h: nat, d: nat): int
    requires |es| == SLOTS && h < SLOTS && d <= SLOTS
    decreases SLOTS - d
  {
    if d == SLOTS then -1
    else if !es[Probe(h, d, SLOTS)].active then d
    else VacantFrom(es, h, d + 1)
  }

  ghost function ActiveSlots(es: seq<Entry>): set<nat> {
    set i: nat | i < |es| && es[i].active
  }

  ghost function OfTransport(es: seq<Entry>, t: Transport): set<nat> {
    set i: nat | i < |es| && es[i].active && es[i].transport == t
  }

  lemma {:induction false} VacantAt(es: seq<Entry>, h: nat, d: nat)
    requires |es| == SLOTS && h < SLOTS && d <= SLOTS
    ensures var v := VacantFrom(es, h, d);
            if v == -1 then forall e: nat :: d <= e < SLOTS ==> es[Probe(h, e, SLOTS)].active
            else d <= v < SLOTS && !es[Probe(h, v, SLOTS)].active
                 && forall e: nat :: d <= e < v ==> es[Probe(h, e, SLOTS)].active
    decreases SLOTS - d
  {
    if d < SLOTS {
      VacantAt(es, h, d + 1);
    }
  }

  /** Pigeonhole: the first vacant slot is no further away than the number of clients. */
  lemma VacantNear(es: seq<Entry>, h: nat)
    requires |es| == SLOTS && h < SLOTS && |ActiveSlots(es)| < SLOTS
    ensures 0 <= VacantFrom(es, h, 0) <= |ActiveSlots(es)|
  {
    VacantAt(es, h, 0);
    var v := VacantFrom(es, h, 0);
    var n := if v == -1 then SLOTS else v;
    WindowSize(h, n, SLOTS);
    assert Window(h, n, SLOTS) <= ActiveSlots(es);
    SubsetSize(Window(h, n, SLOTS), ActiveSlots(es));
  }

  /** The number of steps from `h` to slot `i`. */
  ghost function Steps(h: nat, i: nat): (d: nat)
    requires h < SLOTS && i < SLOTS
    ensures d < SLOTS && Probe(h, d, SLOTS) == i
  {
    if i >= h then i - h else i + SLOTS - h
  }

  ghost predicate UniqueIds(es: seq<Entry>) {
    forall i, j :: 0 <= i < |es| && 0 <= j < |es| && es[i].active && es[j].active && es[i].id == es[j].id ==> i == j
  }

  /** With unique ids, a lookup finds a client exactly when it sits within 256 steps. */
  lemma {:induction false} FindUnique(es: seq<Entry>, h: nat, i: nat, d: nat)
    requires |es| == SLOTS && h < SLOTS && i < SLOTS && es[i].active && UniqueIds(es) && d <= LOOKUP_PROBES
    requires d <= Steps(h, i)
    ensures FindFrom(es, h, es[i].id, d) == if Steps(h, i) < 256 then i else -1
    decreases LOOKUP_PROBES - d
  {
    if d < LOOKUP_PROBES && d < Steps(h, i) {
      FindUnique(es, h, i, d + 1);
    }
  }

  lemma {:induction false} FindSound(es: seq<Entry>, h: nat, id: nat, d: nat)
    requires |es| == SLOTS && h < SLOTS && d <= LOOKUP_PROBES
    ensures var r := FindFrom(es, h, id, d);
            r == -1 || (0 <= r < SLOTS && es[r].active && es[r].id == id && Steps(h, r) < 256)
    decreases LOOKUP_PROBES - d
  {
    if d < LOOKUP_PROBES {
      FindSound(es, h, id, d + 1);
    }
  }

  // ----- What the registry keeps -----

  /** Ids below the counters, each transport in its own range. */
  ghost predicate InRange(e: Entry, nextTcp: nat, nextUdp: nat) {
    e.active ==>
      (e.transport == Tcp && 0 < e.id < nextTcp) || (e.transport == Udp && UDP_BASE < e.id < nextUdp)
  }

  ghost predicate UniqueAddrs(es: seq<Entry>) {
    forall i, j :: 0 <= i < |es| && 0 <= j < |es| && IsUdp(es[i]) && IsUdp(es[j]) && es[i].addr == es[j].addr ==> i == j
  }

  ghost predicate IsUdp(e: Entry) {
    e.active && e.transport == Udp
  }

  /** Every active entry has a transport. */
  ghost predicate Typed(es: seq<Entry>) {
    forall i :: 0 <= i < |es| && es[i].active ==> es[i].transport != Unknown
  }

  /** Before any counter has wrapped: ids are in range and unique, also against the ids
      handed out but not yet registered. */
  ghost predicate IdsOk(es: seq<Entry>, nextTcp: nat, nextUdp: nat, pending: set<nat>) {
    && UniqueIds(es)
    && (forall i :: 0 <= i < |es| ==> InRange(es[i], nextTcp, nextUdp))
    && (forall p :: p in pending ==> 0 < p < nextTcp)
    && (forall i :: 0 <= i < |es| && es[i].active ==> es[i].id !in pending)
  }

  lemma TransportsSplit(es: seq<Entry>)
    requires Typed(es)
    ensures |ActiveSlots(es)| == |OfTransport(es, Tcp)| + |OfTransport(es, Udp)|
  {
    assert ActiveSlots(es) == OfTransport(es, Tcp) + OfTransport(es, Udp);
  }

  lemma CountFilled(es: seq<Entry>, i: nat, e: Entry, t: Transport)
    requires i < |es| && !es[i].active && e.active
    ensures |OfTransport(es[i := e], t)| == |OfTransport(es, t)| + (if e.transport == t then 1 else 0)
  {
    var es' := es[i := e];
    assert OfTransport(es', t) == OfTransport(es, t) + (if e.transport == t then {i} else {});
  }

  lemma CountVacated(es: seq<Entry>, i: nat, t: Transport)
    requires i < |es| && es[i].active
    ensures |OfTransport(es[i := Vacant()], t)| == |OfTransport(es, t)| - (if es[i].transport == t then 1 else 0)
  {
    var es' := es[i := Vacant()];
    assert OfTransport(es, t) == OfTransport(es', t) + (if es[i].transport == t then {i} else {});
  }

  /** A protocol decision changes nothing that the registry keeps track of. */
  lemma DecidedKeeps(es: seq<Entry>, i: nat, protocol: Protocol, nextTcp: nat, nextUdp: nat, pending: set<nat>)
    requires i < |es|
    ensures var es' := es[i := es[i].(protocol := protocol)];
            && (forall t :: OfTransport(es', t) == OfTransport(es, t)) && (Typed(es) ==> Typed(es'))
            && (UniqueAddrs(es) ==> UniqueAddrs(es'))
            && (IdsOk(es, nextTcp, nextUdp, pending) ==> IdsOk(es', nextTcp, nextUdp, pending))
  {
    var es' := es[i := es[i].(protocol := protocol)];
    assert forall t :: OfTransport(es', t) == OfTransport(es, t);
  }

  class Registry {
    const entries: array<Entry>
    const hash: nat -> nat
    var nextTcp: nat
    var nextUdp: nat
    var tcpCount: nat
    var udpCount: nat
    ghost var es: seq<Entry>
    ghost var pending: set<nat>  // TCP ids taken but not yet registered
    ghost var wrapped: bool      // some id counter has started over

    ghost predicate Valid()
      reads this, entries
      ensures Valid() ==> |es| == SLOTS && (forall k: nat :: hash(k) < SLOTS) && Typed(es)
    {
      && entries.Length == SLOTS && es == entries[..]
      && (forall k: nat :: hash(k) < SLOTS)
      && Typed(es) && UniqueAddrs(es)
      && tcpCount == |OfTransport(es, Tcp)| && udpCount == |OfTransport(es, Udp)|
      && 0 < nextTcp <= UDP_BASE && UDP_BASE < nextUdp <= ID_LIMIT
      && (!wrapped ==> IdsOk(es, nextTcp, nextUdp, pending))
    }

    constructor (hash: nat -> nat)
      requires forall k: nat :: hash(k) < SLOTS
      ensures Valid() && !wrapped && pending == {} && tcpCount == udpCount == 0
      ensures fresh(entries) && |es| == 16384 && forall i :: 0 <= i < |es| ==> !es[i].active
    {
      entries := new Entry[SLOTS](_ => Vacant());
      this.hash := hash;
      nextTcp, nextUdp, tcpCount, udpCount := 1, UDP_BASE + 1, 0, 0;
      pending, wrapped := {}, false;
      new;
      es := entries[..];
      assert OfTransport(es, Tcp) == {} && OfTransport(es, Udp) == {};
    }

    /** The entry a client id is found at, if it is. */
    ghost function Lookup(id: nat): (r: int)
      requires Valid()
      reads this, entries
      ensures -1 <= r < SLOTS
    {
      FindSound(es, hash(id), id, 0);
      FindFrom(es, hash(id), id, 0)
    }

    /** Probe up to 256 slots for an id; vacated slots do not stop the search. */
    method FindSlot(id: nat) returns (r: int)
      requires Valid()
      ensures r == Lookup(id) && -1 <= r < SLOTS
      ensures r != -1 ==> es[r].active && es[r].id == id
    {
      FindSound(es, hash(id), id, 0);
      var start := hash(id);
      for i := 0 to LOOKUP_PROBES
        invariant FindFrom(es, start, id, 0) == FindFrom(es, start, id, i)
      {
        var idx := Probe(start, i, SLOTS);
        if entries[idx].active && entries[idx].id == id {
          return idx;
        }
      }
      return -1;
    }

    /** Probe the whole table for a vacant slot. */
    method FindEmpty(id: nat) returns (r: int)
      requires Valid()
      ensures -1 <= r < SLOTS && (r == -1 <==> VacantFrom(es, hash(id), 0) == -1)
      ensures r != -1 ==> !es[r].active && Steps(hash(id), r) == VacantFrom(es, hash(id), 0)
    {
      VacantAt(es, hash(id), 0);
      var start := hash(id);
      for i := 0 to SLOTS
        invariant VacantFrom(es, start, 0) == VacantFrom(es, start, i)
      {
        var idx := Probe(start, i, SLOTS);
        if !entries[idx].active {
          return idx;
        }
      }
      return -1;
    }

    /** Scan for the entry of a UDP address. */
    method FindAddr(addr: Addr) returns (r: int)
      requires Valid()
      ensures -1 <= r < SLOTS
      ensures r != -1 ==> IsUdp(es[r]) && es[r].addr == addr
      ensures r == -1 ==> forall i :: 0 <= i < SLOTS && IsUdp(es[i]) ==> es[i].addr != addr
    {
      for i := 0 to SLOTS
        invariant forall j :: 0 <= j < i && IsUdp(es[j]) ==> es[j].addr != addr
      {
        var e := entries[i];
        if e.active && e.transport == Udp && e.addr == addr {
          return i;
        }
      }
      return -1;
    }

    /** Write a new entry into a vacant slot. */
    method Fill(i: nat, e: Entry)
      requires Valid() && i < SLOTS && !es[i].active && e.active && e.transport != Unknown
      requires e.transport == Udp ==> forall j :: 0 <= j < SLOTS && IsUdp(es[j]) ==> es[j].addr != e.addr
      requires !wrapped ==> InRange(e, nextTcp, nextUdp)
      requires !wrapped ==> forall j :: 0 <= j < SLOTS && es[j].active ==> es[j].id != e.id
      modifies this`es, this`tcpCount, this`udpCount, this`pending, entries
      ensures Valid() && es == old(es)[i := e] && pending == old(pending) - {e.id}
    {
      hide OfTransport;
      CountFilled(es, i, e, Tcp);
      CountFilled(es, i, e, Udp);
      entries[i] := e;
      if e.transport == Tcp {
        tcpCount := tcpCount + 1;
      } else {
        udpCount := udpCount + 1;
      }
      es, pending := es[i := e], pending - {e.id};
    }

    /** Take the next TCP id: an atomic step of its own, outside the lock. */
    method TakeTcpId() returns (id: nat)
      requires Valid()
      modifies this`nextTcp, this`pending, this`wrapped
      ensures Valid() && 0 < id < 0x8000_0000 && es == old(es)
      ensures !wrapped ==> !old(wrapped) && pending == old(pending) + {id} && id !in old(pending)
      ensures wrapped <==> old(wrapped) || old(nextTcp) == 0x8000_0000
      ensures id == (if old(nextTcp) == 0x8000_0000 then 1 else old(nextTcp)) && nextTcp == id + 1
    {
      id := nextTcp;
      nextTcp := nextTcp + 1;
      if id >= UDP_BASE {
        id := 1;
        nextTcp := 2;
        wrapped := true;
      }
      pending := pending + {id};
    }

    /** Register a TCP client under the lock; 0 when the table is full. */
    method InsertTcp(id: nat, fd: int) returns (r: nat)
      requires Valid() && 0 < id < UDP_BASE && (!wrapped ==> id in pending)
      modifies this`es, this`tcpCount, this`udpCount, this`pending, entries
      ensures Valid() && (r == 0 <==> |ActiveSlots(old(es))| == 16384) && (r != 0 ==> r == id)
      ensures pending == if r != 0 then old(pending) - {id} else old(pending)
      ensures es == Placed(old(es), hash(id), Entry(true, id, Tcp, fd, Addr(0, 0), Undecided))
      ensures r == 0 ==> es == old(es) && tcpCount == old(tcpCount)
      ensures r != 0 ==> Registered(old(es), es, hash(id), Entry(true, id, Tcp, fd, Addr(0, 0), Undecided))
    {
      var slot := FindEmpty(id);
      SlotFor(es, hash(id), slot);
      if slot < 0 {
        return 0;
      }
      Fill(slot, Entry(true, id, Tcp, fd, Addr(0, 0), Undecided));
      return id;
    }

    /** The first, read-locked half of get-or-add: the id of an address, or 0. */
    method LookupUdp(addr: Addr) returns (id: nat)
      requires Valid()
      ensures id != 0 ==> exists i :: 0 <= i < SLOTS && IsUdp(es[i]) && es[i].addr == addr && es[i].id == id
      ensures id == 0 && !wrapped ==> forall i :: 0 <= i < SLOTS && IsUdp(es[i]) ==> es[i].addr != addr
    {
      var slot := FindAddr(addr);
      if slot >= 0 {
        return entries[slot].id;
      }
      return 0;
    }

    /** Take the next UDP id; the caller holds the lock. */
    method TakeUdpId() returns (id: nat)
      requires Valid()
      modifies this`nextUdp, this`wrapped
      ensures Valid() && 0x8000_0000 < id < 0x1_0000_0000 && es == old(es)
      ensures wrapped <==> old(wrapped) || old(nextUdp) == 0x1_0000_0000
      ensures id == (if old(nextUdp) == 0x1_0000_0000 then 0x8000_0000 + 1 else old(nextUdp)) && nextUdp == id + 1
      ensures !wrapped ==> id < nextUdp && forall j :: 0 <= j < SLOTS && es[j].active ==> es[j].id != id
    {
      id := nextUdp % ID_LIMIT;
      nextUdp := nextUdp + 1;
      if id == 0 {
        id := UDP_BASE + 1;
        nextUdp := UDP_BASE + 2;
        wrapped := true;
      }
    }

    /** Some active entry has this address. */
    ghost predicate Known(addr: Addr)
      requires Valid()
      reads this, entries
    {
      exists i :: 0 <= i < SLOTS && IsUdp(es[i]) && es[i].addr == addr
    }

    /** The write-locked half: look again, and only then add. */
    method AddUdp(addr: Addr) returns (id: nat)
      requires Valid()
      modifies this`nextUdp, this`wrapped, this`es, this`tcpCount, this`udpCount, this`pending, entries
      ensures Valid() && (!wrapped ==> pending == old(pending))
      ensures wrapped <==> old(wrapped) || (!old(Known(addr)) && old(nextUdp) == 0x1_0000_0000)
      ensures old(Known(addr)) ==> nextUdp == old(nextUdp)
      ensures !old(Known(addr)) ==>
        var next := if old(nextUdp) == 0x1_0000_0000 then 0x8000_0000 + 1 else old(nextUdp);
        nextUdp == next + 1 && es == Placed(old(es), hash(next), Entry(true, next, Udp, -1, addr, Undecided))
      ensures old(Known(addr)) ==>
                es == old(es) && exists i :: 0 <= i < SLOTS && IsUdp(es[i]) && es[i].addr == addr && es[i].id == id
      ensures !old(Known(addr)) && |ActiveSlots(old(es))| == SLOTS ==> id == 0 && es == old(es)
      ensures !old(Known(addr)) && |ActiveSlots(old(es))| < SLOTS ==>
                0x8000_0000 < id < 0x1_0000_0000
                && Registered(old(es), es, hash(id), Entry(true, id, Udp, -1, addr, Undecided))
    {
      hide IdsOk, OfTransport, Typed, UniqueAddrs, ActiveSlots, InRange;
      var slot := FindAddr(addr);
      if slot >= 0 {
        return entries[slot].id;
      }
      id := TakeUdpId();
      slot := FindEmpty(id);
      SlotFor(es, hash(id), slot);
      ActiveBound(es);
      if slot < 0 {
        return 0;
      }
      ghost var e := Entry(true, id, Udp, -1, addr, Undecided);
      UdpNotPending(es, nextTcp, nextUdp, pending, id);
      assert !wrapped ==> InRange(e, nextTcp, nextUdp) by { UdpInRange(e, nextTcp, nextUdp); }
      Fill(slot, Entry(true, id, Udp, -1, addr, Undecided));
    }

    /** Remove a client by id; the vacated slot leaves a hole in the probe sequences. */
    method Remove(id: nat) returns (ok: bool)
      requires Valid()
      modifies this`es, this`tcpCount, this`udpCount, entries
      ensures Valid() && (ok <==> id != 0 && old(Lookup(id)) != -1)
      ensures !ok ==> es == old(es)
      ensures ok ==> es == old(es)[old(Lookup(id)) := Vacant()]
    {
      if id == 0 {
        return false;
      }
      var slot := FindSlot(id);
      if slot < 0 {
        return false;
      }
      CountVacated(es, slot, Tcp);
      CountVacated(es, slot, Udp);
      if entries[slot].transport == Tcp {
        tcpCount := tcpCount - 1;
      } else if entries[slot].transport == Udp {
        udpCount := udpCount - 1;
      }
      entries[slot] := Vacant();
      es := es[slot := Vacant()];
      return true;
    }

    method Find(id: nat) returns (found: bool, entry: Entry)
      requires Valid()
      ensures found <==> id != 0 && Lookup(id) != -1
      ensures found ==> 0 <= Lookup(id) < SLOTS && entry == es[Lookup(id)] && entry.active && entry.id == id
    {
      entry := Vacant();
      if id == 0 {
        return false, entry;
      }
      var slot := FindSlot(id);
      if slot < 0 || !entries[slot].active {
        return false, entry;
      }
      return true, entries[slot];
    }

    /** Fix a client's protocol, once. */
    method SetProtocol(id: nat, protocol: Protocol) returns (ok: bool)
      requires Valid()
      modifies this`es, entries
      ensures Valid() && (ok <==> id != 0 && old(Lookup(id)) != -1)
      ensures !ok ==> es == old(es)
      ensures ok ==> var i := old(Lookup(id));
        && 0 <= i < SLOTS
        && es == old(es)[i := old(es)[i].(protocol := if old(es)[i].protocol == Undecided then protocol else old(es)[i].protocol)]
    {
      hide Typed, UniqueAddrs, IdsOk, OfTransport;
      if id == 0 {
        return false;
      }
      var slot := FindSlot(id);
      if slot < 0 || !entries[slot].active {
        return false;
      }
      if entries[slot].protocol == Undecided {
        var e := entries[slot].(protocol := protocol);
        DecidedKeeps(es, slot, protocol, nextTcp, nextUdp, pending);
        entries[slot] := e;
        es := es[slot := e];
      }
      return true;
    }
  }

  lemma UdpInRange(e: Entry, nextTcp: nat, nextUdp: nat)
    requires e.transport == Udp && UDP_BASE < e.id
    ensures e.id < nextUdp ==> InRange(e, nextTcp, nextUdp)
  {
  }

  lemma ActiveBound(es: seq<Entry>)
    requires |es| == SLOTS
    ensures |ActiveSlots(es)| <= SLOTS
  {
    WindowSize(0, SLOTS, SLOTS);
    assert ActiveSlots(es) <= Window(0, SLOTS, SLOTS) by {
      forall i | i in ActiveSlots(es)
        ensures i in Window(0, SLOTS, SLOTS)
      {
        assert Probe(0, Steps(0, i), SLOTS) == i;
      }
    }
    SubsetSize(ActiveSlots(es), Window(0, SLOTS, SLOTS));
  }

  /** A UDP id is none of the TCP ids taken but not yet registered. */
  lemma UdpNotPending(es: seq<Entry>, nextTcp: nat, nextUdp: nat, pending: set<nat>, id: nat)
    requires UDP_BASE < id && nextTcp <= UDP_BASE
    ensures IdsOk(es, nextTcp, nextUdp, pending) ==> id !in pending
  {
  }

  /** The table with `e` in the first vacant slot on its probe sequence, if there is one. */
  ghost function Placed(es: seq<Entry>, h: nat, e: Entry): (r: seq<Entry>)
    requires |es| == SLOTS && h < SLOTS
    ensures |r| == SLOTS
  {
    VacantAt(es, h, 0);
    if VacantFrom(es, h, 0) == -1 then es else es[Probe(h, VacantFrom(es, h, 0), SLOTS) := e]
  }

  /** `after` is `before` with `e` in the first vacant slot on its probe sequence. */
  ghost predicate Registered(before: seq<Entry>, after: seq<Entry>, h: nat, e: Entry) {
    && |before| == SLOTS && h < SLOTS
    && exists i :: 0 <= i < SLOTS && !before[i].active && after == before[i := e] && Steps(h, i) == VacantFrom(before, h, 0)
  }

  lemma SlotFor(es: seq<Entry>, h: nat, slot: int)
    requires |es| == SLOTS && h < SLOTS && -1 <= slot < SLOTS
    requires slot == -1 <==> VacantFrom(es, h, 0) == -1
    requires slot != -1 ==> !es[slot].active && Steps(h, slot) == VacantFrom(es, h, 0)
    ensures slot == -1 <==> |ActiveSlots(es)| == SLOTS
  {
    VacantAt(es, h, 0);
    WindowSize(h, SLOTS, SLOTS);
    assert ActiveSlots(es) <= Window(h, SLOTS, SLOTS) by {
      forall i | i in ActiveSlots(es)
        ensures i in Window(h, SLOTS, SLOTS)
      {
        assert Probe(h, Steps(h, i), SLOTS) == i;
      }
    }
    SubsetSize(ActiveSlots(es), Window(h, SLOTS, SLOTS));
    if slot == -1 {
      assert Window(h, SLOTS, SLOTS) <= ActiveSlots(es);
      assert Window(h, SLOTS, SLOTS) == ActiveSlots(es);
    } else {
      var rest := Window(h, SLOTS, SLOTS) - {slot};
      assert slot in Window(h, SLOTS, SLOTS);
      assert ActiveSlots(es) <= rest;
      SubsetSize(ActiveSlots(es), rest);
    }
  }

  // ----- Findable until removed -----

  /** What one critical section does to the table. */
  datatype Event = Joined(slot: nat, entry: Entry) | Left(slot: nat) | Decided(slot: nat, protocol: Protocol)

  ghost predicate Legal(es: seq<Entry>, ev: Event) {
    ev.slot < |es| &&
    match ev
    case Joined(i, e) => !es[i].active && e.active && forall j :: 0 <= j < |es| && es[j].active ==> es[j].id != e.id
    case Left(i) => es[i].active
    case Decided(i, _) => es[i].active
  }

  ghost function Apply(es: seq<Entry>, ev: Event): seq<Entry>
    requires Legal(es, ev)
  {
    match ev
    case Joined(i, e) => es[i := e]
    case Left(i) => es[i := Vacant()]
    case Decided(i, p) => es[i := es[i].(protocol := p)]
  }

  /** `es'` is reached from `es` by events none of which removes the client in slot `i`. */
  ghost predicate Through(es: seq<Entry>, events: seq<Event>, es': seq<Entry>, i: nat)
    decreases |events|
  {
    if events == [] then es' == es
    else events[0] != Left(i) && Legal(es, events[0]) && Through(Apply(es, events[0]), events[1..], es', i)
  }

  /** A registration is an event; removals and protocol decisions are events by their contracts. */
  lemma RegistrationIsEvent(before: seq<Entry>, after: seq<Entry>, h: nat, e: Entry) returns (ev: Event)
    requires Registered(before, after, h, e) && e.active && UniqueIds(after)
    ensures ev.Joined? && ev.entry == e && Legal(before, ev) && Apply(before, ev) == after
  {
    var i :| 0 <= i < SLOTS && !before[i].active && after == before[i := e] && Steps(h, i) == VacantFrom(before, h, 0);
    ev := Joined(i, e);
    forall j | 0 <= j < |before| && before[j].active
      ensures before[j].id != e.id
    {
      assert after[j] == before[j] && after[i] == e;
    }
  }

  lemma {:induction false} StaysPut(es: seq<Entry>, events: seq<Event>, es': seq<Entry>, i: nat)
    requires |es| == SLOTS && i < SLOTS && es[i].active && UniqueIds(es) && Through(es, events, es', i)
    ensures |es'| == SLOTS && es'[i].active && es'[i].id == es[i].id && UniqueIds(es')
    decreases |events|
  {
    if events != [] {
      StaysPut(Apply(es, events[0]), events[1..], es', i);
    }
  }

  /** A client registered while at most 255 are active is found by its id after any events
      other than its own removal, however many holes they leave on the way. */
  lemma FoundUntilRemoved(before: seq<Entry>, es: seq<Entry>, h: nat, e: Entry, i: nat, events: seq<Event>, es': seq<Entry>)
    requires Registered(before, es, h, e) && UniqueIds(es) && e.active
    requires |ActiveSlots(before)| <= 255
    requires i < SLOTS && es == before[i := e] && !before[i].active && Steps(h, i) == VacantFrom(before, h, 0)
    requires Through(es, events, es', i)
    ensures |es'| == SLOTS && FindFrom(es', h, e.id, 0) == i && es'[i].id == e.id
  {
    VacantNear(before, h);
    StaysPut(es, events, es', i);
    FindUnique(es', h, i, 0);
  }

  /** In general a registered client is found by id if and only if its slot is less than
      256 steps from its hash, which is decided when it registers. */
  lemma FoundIffNear(es: seq<Entry>, h: nat, i: nat, events: seq<Event>, es': seq<Entry>)
    requires |es| == SLOTS && h < SLOTS && i < SLOTS && es[i].active && UniqueIds(es) && Through(es, events, es', i)
    ensures |es'| == SLOTS && (FindFrom(es', h, es[i].id, 0) != -1 <==> Steps(h, i) < 256)
  {
    StaysPut(es, events, es', i);
    FindUnique(es', h, i, 0);
  }

  /** 256 clients with ids 1 to 256 in the slots from `h` on. */
  ghost function Crowd(h: nat): (es: seq<Entry>)
    requires h < SLOTS
    ensures |es| == SLOTS
  {
    seq(SLOTS, i requires 0 <= i < SLOTS =>
      if Steps(h, i) < LOOKUP_PROBES then Entry(true, Steps(h, i) + 1, Tcp, -1, Addr(0, 0), Undecided) else Vacant())
  }

  lemma CrowdAt(h: nat, d: nat)
    requires h < SLOTS && d < SLOTS
    ensures Steps(h, Probe(h, d, SLOTS)) == d
    ensures Crowd(h)[Probe(h, d, SLOTS)].active <==> d < 256
  {
  }

  lemma CrowdVacant(h: nat)
    requires h < SLOTS
    ensures VacantFrom(Crowd(h), h, 0) == 256
  {
    hide Crowd, VacantFrom, Probe;
    VacantAt(Crowd(h), h, 0);
    CrowdAt(h, LOOKUP_PROBES);
    var v := VacantFrom(Crowd(h), h, 0);
    if 0 <= v < LOOKUP_PROBES {
      CrowdAt(h, v);
    }
  }

  lemma CrowdUnique(h: nat, i: nat, e: Entry)
    requires h < SLOTS && i < SLOTS && e.id > LOOKUP_PROBES
    ensures UniqueIds(Crowd(h)[i := e])
  {
  }

  /** Behind such a crowd a newcomer with hash `h` registers, but no lookup ever finds it. */
  lemma CrowdedOut(h: nat, fd: int) returns (i: nat)
    requires h < SLOTS
    ensures i < SLOTS && Steps(h, i) == 256
    ensures var e := Entry(true, 257, Tcp, fd, Addr(0, 0), Undecided);
            && Registered(Crowd(h), Crowd(h)[i := e], h, e) && UniqueIds(Crowd(h)[i := e])
            && FindFrom(Crowd(h)[i := e], h, e.id, 0) == -1
  {
    hide Crowd, VacantFrom, UniqueIds;
    var e := Entry(true, LOOKUP_PROBES + 1, Tcp, fd, Addr(0, 0), Undecided);
    i := Probe(h, LOOKUP_PROBES, SLOTS);
    CrowdAt(h, LOOKUP_PROBES);
    CrowdVacant(h);
    CrowdUnique(h, i, e);
    FindUnique(Crowd(h)[i := e], h, i, 0);
  }
}
