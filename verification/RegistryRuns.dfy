/** Every locked interleaving of the registry's callers: threads take an id and insert it later,
    and anything may happen in between. */
module RegistryRuns {
  import opened ClientRegistry
  import opened ProbeTable

  // ----- The steps of the threads -----

  /** One atomic step of some thread.  Adding a TCP client takes two: the id counter is read
      before the lock is taken.  The read-locked lookups change nothing and are not listed. */
  datatype Call =
    | TakeId(thread: nat)
    | Insert(thread: nat, fd: int)
    | GetOrAdd(addr: Addr)
    | RemoveId(id: nat)
    | Decide(id: nat, protocol: Protocol)

  /** The table, the id counters, and the id that each thread holds between its two steps. */
  datatype State = State(es: seq<Entry>, nextTcp: nat, nextUdp: nat, wrapped: bool, held: map<nat, nat>)

  ghost predicate Formed(s: State, hash: nat -> nat) {
    |s.es| == SLOTS && (forall id: nat :: hash(id) < SLOTS) && 0 < s.nextTcp <= UDP_BASE && UDP_BASE < s.nextUdp <= ID_LIMIT
  }

  ghost predicate KnownIn(es: seq<Entry>, addr: Addr) {
    exists i :: 0 <= i < |es| && IsUdp(es[i]) && es[i].addr == addr
  }

  /** A thread that has an id takes no other before it has inserted it, and one that has none
      has nothing to insert. */
  ghost function Step(s: State, hash: nat -> nat, call: Call): (s': State)
    requires Formed(s, hash)
    ensures Formed(s', hash)
  {
    match call
    case TakeId(thread) =>
      if thread in s.held then s
      else
        var id := if s.nextTcp == UDP_BASE then 1 else s.nextTcp;
        s.(nextTcp := id + 1, wrapped := s.wrapped || s.nextTcp == UDP_BASE, held := s.held[thread := id])
    case Insert(thread, fd) =>
      if thread !in s.held then s
      else
        var id := s.held[thread];
        s.(es := Placed(s.es, hash(id), Entry(true, id, Tcp, fd, Addr(0, 0), Undecided)), held := s.held - {thread})
    case GetOrAdd(addr) =>
      if KnownIn(s.es, addr) then s
      else
        var id := if s.nextUdp == ID_LIMIT then UDP_BASE + 1 else s.nextUdp;
        s.(es := Placed(s.es, hash(id), Entry(true, id, Udp, -1, addr, Undecided)),
           nextUdp := id + 1, wrapped := s.wrapped || s.nextUdp == ID_LIMIT)
    case RemoveId(id) =>
      FindSound(s.es, hash(id), id, 0);
      var i := FindFrom(s.es, hash(id), id, 0);
      if id == 0 || i == -1 then s else s.(es := s.es[i := Vacant()])
    case Decide(id, protocol) =>
      FindSound(s.es, hash(id), id, 0);
      var i := FindFrom(s.es, hash(id), id, 0);
      if id == 0 || i == -1 || s.es[i].protocol != Undecided then s else s.(es := s.es[i := s.es[i].(protocol := protocol)])
  }

  ghost function RunAll(s: State, hash: nat -> nat, calls: seq<Call>): (s': State)
    requires Formed(s, hash)
    ensures Formed(s', hash)
    decreases |calls|
  {
    if calls == [] then s else Step(RunAll(s, hash, calls[..|calls| - 1]), hash, calls[|calls| - 1])
  }

  // ----- What every run keeps -----

  /** Until a counter wraps: ids are unique and in range, also against those held by threads. */
  ghost predicate Sound(s: State) {
    !s.wrapped ==>
      && IdsOk(s.es, s.nextTcp, s.nextUdp, {})
      && (forall t :: t in s.held ==> 0 < s.held[t] < s.nextTcp)
      && (forall t, u :: t in s.held && u in s.held && s.held[t] == s.held[u] ==> t == u)
      && (forall t, i :: t in s.held && 0 <= i < |s.es| && s.es[i].active ==> s.es[i].id != s.held[t])
  }

  lemma PlacedIs(es: seq<Entry>, h: nat, e: Entry) returns (i: int)
    requires |es| == SLOTS && h < SLOTS
    ensures -1 <= i < SLOTS && (i == -1 ==> Placed(es, h, e) == es)
    ensures i != -1 ==> !es[i].active && Placed(es, h, e) == es[i := e] && Steps(h, i) == VacantFrom(es, h, 0)
  {
    VacantAt(es, h, 0);
    i := if VacantFrom(es, h, 0) == -1 then -1 else Probe(h, VacantFrom(es, h, 0), SLOTS);
  }

  lemma TakeSound(s: State, hash: nat -> nat, thread: nat)
    requires Formed(s, hash) && Sound(s)
    ensures Sound(Step(s, hash, TakeId(thread)))
  {
  }

  lemma InsertSound(s: State, hash: nat -> nat, thread: nat, fd: int)
    requires Formed(s, hash) && Sound(s)
    ensures Sound(Step(s, hash, Insert(thread, fd)))
  {
    hide Placed, VacantFrom;
    if thread in s.held {
      var i := PlacedIs(s.es, hash(s.held[thread]), Entry(true, s.held[thread], Tcp, fd, Addr(0, 0), Undecided));
    }
  }

  lemma AddSound(s: State, hash: nat -> nat, addr: Addr)
    requires Formed(s, hash) && Sound(s)
    ensures Sound(Step(s, hash, GetOrAdd(addr)))
  {
    hide Placed, VacantFrom, KnownIn;
    var id := if s.nextUdp == ID_LIMIT then UDP_BASE + 1 else s.nextUdp;
    var i := PlacedIs(s.es, hash(id), Entry(true, id, Udp, -1, addr, Undecided));
  }

  lemma ChangeSound(s: State, hash: nat -> nat, call: Call)
    requires Formed(s, hash) && Sound(s) && (call.RemoveId? || call.Decide?)
    ensures Sound(Step(s, hash, call))
  {
    hide FindFrom;
    FindSound(s.es, hash(call.id), call.id, 0);
  }

  lemma StepSound(s: State, hash: nat -> nat, call: Call)
    requires Formed(s, hash) && Sound(s)
    ensures Sound(Step(s, hash, call))
  {
    hide Sound, Step;
    match call {
      case TakeId(thread) => TakeSound(s, hash, thread);
      case Insert(thread, fd) => InsertSound(s, hash, thread, fd);
      case GetOrAdd(addr) => AddSound(s, hash, addr);
      case RemoveId(_) => ChangeSound(s, hash, call);
      case Decide(_, _) => ChangeSound(s, hash, call);
    }
  }

  lemma {:induction false} RunSound(s: State, hash: nat -> nat, calls: seq<Call>)
    requires Formed(s, hash) && Sound(s)
    ensures Sound(RunAll(s, hash, calls))
    decreases |calls|
  {
    hide Sound, Step;
    if calls != [] {
      RunSound(s, hash, calls[..|calls| - 1]);
      StepSound(RunAll(s, hash, calls[..|calls| - 1]), hash, calls[|calls| - 1]);
    }
  }

  // ----- Found until removed -----

  /** Call number `i` registers a client with this id in slot `slot`. */
  ghost predicate Registers(s: State, hash: nat -> nat, calls: seq<Call>, i: nat, id: nat, slot: nat)
    requires Formed(s, hash)
  {
    && i < |calls| && slot < SLOTS
    && var before, after := RunAll(s, hash, calls[..i]).es, RunAll(s, hash, calls[..i + 1]).es;
       && !before[slot].active && after[slot].active && after[slot].id == id
  }

  /** The client in a slot stays there, step by step, unless it is removed by its id. */
  lemma StepKeeps(s: State, hash: nat -> nat, call: Call, slot: nat)
    requires Formed(s, hash) && slot < SLOTS && s.es[slot].active && call != RemoveId(s.es[slot].id)
    ensures Step(s, hash, call).es[slot].active && Step(s, hash, call).es[slot].id == s.es[slot].id
  {
    hide Placed;
    match call {
      case TakeId(_) =>
      case Insert(thread, fd) =>
        if thread in s.held {
          var i := PlacedIs(s.es, hash(s.held[thread]), Entry(true, s.held[thread], Tcp, fd, Addr(0, 0), Undecided));
        }
      case GetOrAdd(addr) =>
        var id := if s.nextUdp == ID_LIMIT then UDP_BASE + 1 else s.nextUdp;
        var i := PlacedIs(s.es, hash(id), Entry(true, id, Udp, -1, addr, Undecided));
      case RemoveId(id) => FindSound(s.es, hash(id), id, 0);
      case Decide(id, _) => FindSound(s.es, hash(id), id, 0);
    }
  }

  /** A registration fills the first vacant slot behind the client's own hash. */
  lemma RegistersNear(s: State, hash: nat -> nat, call: Call, slot: nat)
    requires Formed(s, hash) && slot < SLOTS && !s.es[slot].active && Step(s, hash, call).es[slot].active
    ensures Steps(hash(Step(s, hash, call).es[slot].id), slot) == VacantFrom(s.es, hash(Step(s, hash, call).es[slot].id), 0)
  {
    hide Placed;
    match call {
      case TakeId(_) =>
      case Insert(thread, fd) =>
        if thread in s.held {
          var i := PlacedIs(s.es, hash(s.held[thread]), Entry(true, s.held[thread], Tcp, fd, Addr(0, 0), Undecided));
        }
      case GetOrAdd(addr) =>
        var id := if s.nextUdp == ID_LIMIT then UDP_BASE + 1 else s.nextUdp;
        var i := PlacedIs(s.es, hash(id), Entry(true, id, Udp, -1, addr, Undecided));
      case RemoveId(_) =>
      case Decide(_, _) =>
    }
  }

  lemma {:induction false} Stays(s: State, hash: nat -> nat, calls: seq<Call>, i: nat, j: nat, id: nat, slot: nat)
    requires Formed(s, hash) && i < j <= |calls| && slot < SLOTS
    requires var es := RunAll(s, hash, calls[..i + 1]).es; es[slot].active && es[slot].id == id
    requires forall k :: i < k < j ==> calls[k] != RemoveId(id)
    ensures var es := RunAll(s, hash, calls[..j]).es; es[slot].active && es[slot].id == id
    decreases j
  {
    hide Step;
    if i + 1 < j {
      Stays(s, hash, calls, i, j - 1, id, slot);
      assert calls[..j][..j - 1] == calls[..j - 1];
      StepKeeps(RunAll(s, hash, calls[..j - 1]), hash, calls[j - 1], slot);
    }
  }

  /** In every run from a sound state, as long as no id counter has wrapped: a client that no step
      has removed by its id is found under it if and only if its slot is less than 256 steps from
      its hash, however many holes other removals leave.  With at most 255 active when it
      registered, it always is. */
  lemma FoundInRun(s: State, hash: nat -> nat, calls: seq<Call>, i: nat, id: nat, slot: nat)
    requires Formed(s, hash) && Sound(s) && Registers(s, hash, calls, i, id, slot)
    requires forall k :: i < k < |calls| ==> calls[k] != RemoveId(id)
    requires !RunAll(s, hash, calls).wrapped
    ensures FindFrom(RunAll(s, hash, calls).es, hash(id), id, 0) == if Steps(hash(id), slot) < 256 then slot else -1
    ensures |ActiveSlots(RunAll(s, hash, calls[..i]).es)| <= 255 ==> Steps(hash(id), slot) < 256
    ensures RunAll(s, hash, calls).es[slot].active && RunAll(s, hash, calls).es[slot].id == id
  {
    hide Step;
    var before := RunAll(s, hash, calls[..i]);
    assert calls[..i + 1][..i] == calls[..i] && calls[..|calls|] == calls;
    RegistersNear(before, hash, calls[i], slot);
    if |ActiveSlots(before.es)| < LOOKUP_PROBES {
      ActiveFew(before.es);
      VacantNear(before.es, hash(id));
    }
    Stays(s, hash, calls, i, |calls|, id, slot);
    RunSound(s, hash, calls);
    FindUnique(RunAll(s, hash, calls).es, hash(id), slot, 0);
  }

  lemma ActiveFew(es: seq<Entry>)
    ensures |ActiveSlots(es)| < LOOKUP_PROBES ==> |ActiveSlots(es)| < SLOTS
  {
  }

  // ----- The registry object runs the same steps -----

  ghost function StateOf(r: Registry, held: map<nat, nat>): State
    reads r
  {
    State(r.es, r.nextTcp, r.nextUdp, r.wrapped, held)
  }

  /** Every id that a thread holds is pending in the registry. */
  ghost predicate Waiting(r: Registry, held: map<nat, nat>)
    reads r
  {
    && (forall t :: t in held ==> 0 < held[t] < UDP_BASE)
    && (!r.wrapped ==>
          && (forall t :: t in held ==> held[t] in r.pending)
          && (forall t, u :: t in held && u in held && held[t] == held[u] ==> t == u))
  }

  lemma ObjectFormed(r: Registry, held: map<nat, nat>)
    requires r.Valid()
    ensures Formed(StateOf(r, held), r.hash)
  {
  }

  /** One step of some thread. */
  method Perform(r: Registry, held: map<nat, nat>, call: Call) returns (held': map<nat, nat>)
    requires r.Valid() && Waiting(r, held)
    modifies r, r.entries
    ensures r.Valid() && Waiting(r, held') && Formed(old(StateOf(r, held)), r.hash)
    ensures StateOf(r, held') == Step(old(StateOf(r, held)), r.hash, call)
  {
    hide IdsOk, OfTransport, Typed, UniqueAddrs, ActiveSlots, Placed;
    held' := held;
    match call {
      case TakeId(thread) =>
        if thread !in held {
          var id := r.TakeTcpId();
          held' := held[thread := id];
        }
      case Insert(thread, fd) =>
        if thread in held {
          var _ := r.InsertTcp(held[thread], fd);
          held' := held - {thread};
        }
      case GetOrAdd(addr) =>
        var _ := r.AddUdp(addr);
      case RemoveId(id) =>
        var _ := r.Remove(id);
      case Decide(id, protocol) =>
        var _ := r.SetProtocol(id, protocol);
    }
  }

  /** Any schedule of the threads' steps, in any order. */
  method Execute(r: Registry, calls: seq<Call>) returns (held: map<nat, nat>)
    requires r.Valid()
    modifies r, r.entries
    ensures r.Valid() && Formed(old(StateOf(r, map[])), r.hash)
    ensures StateOf(r, held) == RunAll(old(StateOf(r, map[])), r.hash, calls)
    ensures r.tcpCount + r.udpCount == |ActiveSlots(r.es)|
  {
    hide Registry.Valid, Step, IdsOk, ActiveSlots;
    ObjectFormed(r, map[]);
    held := map[];
    ghost var start := StateOf(r, map[]);
    assert calls[..0] == [];
    for i := 0 to |calls|
      invariant r.Valid() && Waiting(r, held) && StateOf(r, held) == RunAll(start, r.hash, calls[..i])
    {
      assert calls[..i + 1][..i] == calls[..i];
      held := Perform(r, held, calls[i]);
    }
    assert calls[..|calls|] == calls;
    CountsSplit(r);
  }

  lemma CountsSplit(r: Registry)
    requires r.Valid()
    ensures r.tcpCount + r.udpCount == |ActiveSlots(r.es)|
  {
    hide IdsOk, UniqueAddrs, ActiveSlots, OfTransport;
    TransportsSplit(r.es);
  }

  /** After any schedule on a new registry, before an id counter wraps: a client that registered
      with at most 255 active, and was not removed since, is found. */
  method ExecuteAndFind(r: Registry, calls: seq<Call>, ghost i: nat, id: nat, ghost slot: nat) returns (found: int)
    requires r.Valid() && !r.wrapped && r.pending == {} && Formed(StateOf(r, map[]), r.hash)
    requires Registers(StateOf(r, map[]), r.hash, calls, i, id, slot)
    requires forall k :: i < k < |calls| ==> calls[k] != RemoveId(id)
    modifies r, r.entries
    ensures r.Valid() && (!r.wrapped ==> r.es[slot].active && r.es[slot].id == id)
    ensures !r.wrapped && |ActiveSlots(RunAll(old(StateOf(r, map[])), r.hash, calls[..i]).es)| <= 255 ==> found == slot
  {
    hide Registry.Valid, Step, RunAll, Registers, FindFrom;
    ghost var start := StateOf(r, map[]);
    StartSound(r);
    var held := Execute(r, calls);
    if !r.wrapped {
      FoundInRun(start, r.hash, calls, i, id, slot);
    }
    found := r.FindSlot(id);
    LookupIs(r, id);
  }

  lemma StartSound(r: Registry)
    requires r.Valid() && r.pending == {}
    ensures Sound(StateOf(r, map[]))
  {
  }

  lemma LookupIs(r: Registry, id: nat)
    requires r.Valid()
    ensures |r.es| == SLOTS && r.hash(id) < SLOTS && r.Lookup(id) == FindFrom(r.es, r.hash(id), id, 0)
  {
    hide Registry.Valid, FindFrom;
  }
}
