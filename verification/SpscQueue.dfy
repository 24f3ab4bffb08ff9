/** The single-producer single-consumer ring queue as a machine of atomic steps.  A load
    of the other side's index may return any value that index has had since the last
    load: the producer and the consumer work with possibly stale views. */
module SpscQueue {

  const SIZE: nat := 65536

  /** The slot of the `n`-th item ever enqueued. */
  function Slot(n: nat): (i: nat)
    ensures i < SIZE
  {
    n % SIZE
  }

  /** The masked difference of two indices. */
  function Distance(to: nat, from: nat): (d: nat)
    ensures d < SIZE
  {
    (to - from) % SIZE
  }

  /** Where the producer is inside `enqueue`. */
  datatype Producer<T> =
    | Idle
    | Loaded(item: T, tail: nat)                // own tail read
    | Granted(item: T, tail: nat, head: nat)    // head read, not full
    | Stored(item: T, tail: nat, head: nat)     // item written
    | Published(next: nat, head: nat)           // tail advanced, statistics pending

  /** Where the consumer is inside `dequeue` or `dequeue_batch`. */
  datatype Consumer<T> =
    | Resting
    | Begun(max: nat, head: nat, batch: bool)                        // own head read
    | Copying(head: nat, count: nat, got: seq<T>, batch: bool)       // tail read, items available
    | Advanced(count: nat, got: seq<T>, batch: bool)                 // head advanced, statistics pending

  datatype Stats = Stats(enqueues: nat, failed: nat, peak: nat, dequeues: nat, batches: nat)

  /** `sent` and `taken` record every item published and every item handed out;
      `headView` and `tailView` count what the producer and the consumer know of them. */
  datatype Queue<T> = Queue(
    buffer: seq<T>, head: nat, tail: nat, p: Producer<T>, c: Consumer<T>, stats: Stats,
    sent: seq<T>, taken: seq<T>, headView: nat, tailView: nat)

  function Init<T>(buffer: seq<T>): Queue<T>
    requires |buffer| == SIZE
  {
    Queue(buffer, 0, 0, Idle, Resting, Stats(0, 0, 0, 0, 0), [], [], 0, 0)
  }

  datatype Action<T> =
    | Enqueue(item: T)        // producer: call, read own tail
    | LoadHead(view: nat)     // producer: read the consumer's head, check for full
    | Store                   // producer: write the item
    | Publish                 // producer: store the tail
    | CountIn                 // producer: update its statistics
    | Dequeue                 // consumer: call, read own head
    | DequeueBatch(max: nat)  // consumer: batch call, read own head
    | LoadTail(view: nat)     // consumer: read the producer's tail, check for empty
    | Copy                    // consumer: copy one item
    | Advance                 // consumer: store the head
    | CountOut                // consumer: update its statistics

  predicate Enabled<T>(q: Queue<T>, a: Action<T>) {
    |q.buffer| == SIZE && match a
    case Enqueue(_) => q.p.Idle?
    case LoadHead(view) => q.p.Loaded? && q.headView <= view <= |q.taken|
    case Store => q.p.Granted? && q.p.tail < SIZE
    case Publish => q.p.Stored?
    case CountIn => q.p.Published?
    case Dequeue => q.c.Resting?
    case DequeueBatch(_) => q.c.Resting?
    case LoadTail(view) => q.c.Begun? && q.tailView <= view <= |q.sent|
    case Copy => q.c.Copying? && |q.c.got| < q.c.count
    case Advance => q.c.Copying? && |q.c.got| == q.c.count
    case CountOut => q.c.Advanced?
  }

  function Min(x: nat, y: nat): nat {
    if x < y then x else y
  }

  function Do<T>(q: Queue<T>, a: Action<T>): Queue<T>
    requires Enabled(q, a)
  {
    match a
    case Enqueue(item) => q.(p := Loaded(item, q.tail))
    case LoadHead(view) =>
      if Slot(q.p.tail + 1) == Slot(view) then
        q.(p := Idle, headView := view, stats := q.stats.(failed := q.stats.failed + 1))
      else q.(p := Granted(q.p.item, q.p.tail, Slot(view)), headView := view)
    case Store => q.(buffer := q.buffer[q.p.tail := q.p.item], p := Stored(q.p.item, q.p.tail, q.p.head))
    case Publish =>
      q.(tail := Slot(q.p.tail + 1), p := Published(Slot(q.p.tail + 1), q.p.head), sent := q.sent + [q.p.item])
    case CountIn =>
      var size := Distance(q.p.next, q.p.head);
      q.(p := Idle, stats := q.stats.(enqueues := q.stats.enqueues + 1,
                                      peak := if size > q.stats.peak then size else q.stats.peak))
    case Dequeue => q.(c := Begun(1, q.head, false))
    case DequeueBatch(max) => if max == 0 then q else q.(c := Begun(max, q.head, true))
    case LoadTail(view) =>
      var count := Min(Distance(Slot(view), q.c.head), q.c.max);
      if count == 0 then q.(c := Resting, tailView := view)
      else q.(c := Copying(q.c.head, count, [], q.c.batch), tailView := view)
    case Copy => q.(c := Copying(q.c.head, q.c.count, q.c.got + [q.buffer[Slot(q.c.head + |q.c.got|)]], q.c.batch))
    case Advance =>
      q.(head := Slot(q.c.head + q.c.count), c := Advanced(q.c.count, q.c.got, q.c.batch), taken := q.taken + q.c.got)
    case CountOut =>
      q.(c := Resting, stats := q.stats.(dequeues := q.stats.dequeues + q.c.count,
                                         batches := q.stats.batches + if q.c.batch then 1 else 0))
  }

  // ----- The invariant -----

  ghost predicate Indices<T>(q: Queue<T>) {
    && |q.buffer| == SIZE
    && q.head == Slot(|q.taken|) && q.tail == Slot(|q.sent|)
    && q.headView <= |q.taken| <= q.tailView <= |q.sent| <= q.headView + (SIZE - 1)
  }

  /** Items handed out are the oldest items published, in order. */
  ghost predicate Fifo<T>(q: Queue<T>) {
    |q.taken| <= |q.sent| && q.taken == q.sent[..|q.taken|]
  }

  /** Every item published but not yet handed out is in its slot. */
  ghost predicate Buffered<T>(q: Queue<T>) {
    && |q.buffer| == SIZE
    && forall k: nat :: |q.taken| <= k < |q.sent| ==> q.buffer[Slot(k)] == q.sent[k]
  }

  ghost predicate ProducerOk<T>(q: Queue<T>) {
    match q.p
    case Idle => true
    case Loaded(_, tail) => tail == q.tail
    case Granted(_, tail, head) => tail == q.tail && head == Slot(q.headView) && |q.sent| < q.headView + (SIZE - 1)
    case Stored(item, tail, head) =>
      && tail == q.tail && head == Slot(q.headView) && |q.sent| < q.headView + (SIZE - 1)
      && tail < |q.buffer| && q.buffer[tail] == item
    case Published(next, head) => next == q.tail && head == Slot(q.headView)
  }

  ghost predicate ConsumerOk<T>(q: Queue<T>) {
    match q.c
    case Resting => true
    case Begun(max, head, _) => head == q.head && max > 0
    case Copying(head, count, got, _) =>
      && head == q.head && 0 < count && |q.taken| + count <= q.tailView && |got| <= count
      && |q.taken| + |got| <= |q.sent| && got == q.sent[|q.taken|..|q.taken| + |got|]
    case Advanced(count, got, _) =>
      0 < count == |got| <= |q.taken| && got == q.taken[|q.taken| - count..]
  }

  ghost predicate Counted<T>(q: Queue<T>) {
    && q.stats.enqueues + (if q.p.Published? then 1 else 0) == |q.sent|
    && q.stats.dequeues + (if q.c.Advanced? then q.c.count else 0) == |q.taken|
    && q.stats.peak <= SIZE - 1
  }

  ghost predicate Inv<T>(q: Queue<T>) {
    Indices(q) && Fifo(q) && Buffered(q) && ProducerOk(q) && ConsumerOk(q) && Counted(q)
  }

  lemma InitInv<T>(buffer: seq<T>)
    requires |buffer| == SIZE
    ensures Inv(Init(buffer))
  {
  }

  /** Items at most one lap apart share a slot only at distance zero or a full lap. */
  lemma SlotsApart(a: nat, b: nat)
    requires a <= b <= a + SIZE
    ensures Slot(a) == Slot(b) <==> a == b || b == a + SIZE
  {
  }

  lemma NextSlot(n: nat, k: nat)
    ensures Slot(Slot(n) + k) == Slot(n + k)
  {
  }

  lemma DistanceIs(a: nat, b: nat)
    requires a <= b < a + SIZE
    ensures Distance(Slot(b), Slot(a)) == b - a
  {
  }

  lemma LoadHeadInv<T>(q: Queue<T>, a: Action<T>)
    requires Inv(q) && a.LoadHead? && Enabled(q, a)
    ensures Inv(Do(q, a))
  {
    hide Slot;
    NextSlot(|q.sent|, 1);
    SlotsApart(a.view, |q.sent| + 1);
  }

  /** Writing the item touches no slot that holds an unread item. */
  lemma WriteSafe<T>(q: Queue<T>, k: nat)
    requires Inv(q) && (q.p.Granted? || q.p.Stored?) && |q.taken| <= k < |q.sent|
    ensures q.p.tail != Slot(k)
  {
    SlotsApart(k, |q.sent|);
  }

  lemma StoreInv<T>(q: Queue<T>)
    requires Inv(q) && q.p.Granted?
    ensures Inv(Do(q, Store))
  {
    var q' := Do(q, Store);
    forall k: nat | |q.taken| <= k < |q.sent|
      ensures q'.buffer[Slot(k)] == q.sent[k]
    {
      WriteSafe(q, k);
    }
  }

  lemma PublishInv<T>(q: Queue<T>)
    requires Inv(q) && q.p.Stored?
    ensures Inv(Do(q, Publish))
  {
    hide Slot;
    NextSlot(|q.sent|, 1);
    var q' := Do(q, Publish);
    assert q'.sent[..|q.taken|] == q.sent[..|q.taken|];
    if q.c.Copying? {
      assert q'.sent[|q.taken|..|q.taken| + |q.c.got|] == q.sent[|q.taken|..|q.taken| + |q.c.got|];
    }
  }

  lemma CountInInv<T>(q: Queue<T>)
    requires Inv(q) && q.p.Published?
    ensures Inv(Do(q, CountIn))
  {
  }

  lemma LoadTailInv<T>(q: Queue<T>, a: Action<T>)
    requires Inv(q) && a.LoadTail? && Enabled(q, a)
    ensures Inv(Do(q, a))
    ensures var count := Min(a.view - |q.taken|, q.c.max);
            Do(q, a).c == if count == 0 then Resting else Copying(q.c.head, count, [], q.c.batch)
  {
    DistanceIs(|q.taken|, a.view);
  }

  lemma CopyInv<T>(q: Queue<T>)
    requires Inv(q) && Enabled(q, Copy)
    ensures Inv(Do(q, Copy))
  {
    hide Slot;
    var k := |q.taken| + |q.c.got|;
    NextSlot(|q.taken|, |q.c.got|);
    assert q.buffer[Slot(k)] == q.sent[k];
    assert q.sent[|q.taken|..k + 1] == q.sent[|q.taken|..k] + [q.sent[k]];
  }

  lemma AdvanceInv<T>(q: Queue<T>)
    requires Inv(q) && Enabled(q, Advance)
    ensures Inv(Do(q, Advance))
  {
    hide Slot;
    NextSlot(|q.taken|, q.c.count);
    var q' := Do(q, Advance);
    assert q.sent[..|q'.taken|] == q.sent[..|q.taken|] + q.c.got;
  }

  lemma StepInv<T>(q: Queue<T>, a: Action<T>)
    requires Inv(q) && Enabled(q, a)
    ensures Inv(Do(q, a))
  {
    match a {
      case Enqueue(_) =>
      case LoadHead(_) => LoadHeadInv(q, a);
      case Store => StoreInv(q);
      case Publish => PublishInv(q);
      case CountIn => CountInInv(q);
      case Dequeue =>
      case DequeueBatch(_) =>
      case LoadTail(_) => LoadTailInv(q, a);
      case Copy => CopyInv(q);
      case Advance => AdvanceInv(q);
      case CountOut =>
    }
  }

  // ----- Every run -----

  /** `run`, an interleaving of producer and consumer steps, leads from `q` to `q'`. */
  ghost predicate Leads<T>(q: Queue<T>, run: seq<Action<T>>, q': Queue<T>)
    decreases |run|
  {
    if run == [] then q' == q
    else Enabled(q, run[0]) && Leads(Do(q, run[0]), run[1..], q')
  }

  lemma {:induction false} LeadsInv<T>(q: Queue<T>, run: seq<Action<T>>, q': Queue<T>)
    requires Inv(q) && Leads(q, run, q')
    ensures Inv(q')
    decreases |run|
  {
    hide Inv, Enabled, Do;
    if run != [] {
      StepInv(q, run[0]);
      LeadsInv(Do(q, run[0]), run[1..], q');
    }
  }

  /** The items in the ring, oldest first. */
  ghost function Contents<T>(q: Queue<T>): seq<T>
    requires Indices(q)
  {
    seq(|q.sent| - |q.taken|, i requires 0 <= i < |q.sent| - |q.taken| => q.buffer[Slot(q.head + i)])
  }

  /** The self-check of the source: indices in range, and no more dequeues than enqueues. */
  predicate SelfCheck<T>(q: Queue<T>) {
    q.head < SIZE && q.tail < SIZE && Distance(q.tail, q.head) < SIZE && q.stats.enqueues >= q.stats.dequeues
  }

  /** Over every interleaving: what was dequeued followed by what is buffered is what was
      enqueued; at most 65535 items are held; the dequeue count exceeds the enqueue count by at
      most one; and the self-check fails exactly while an enqueue is published but not yet
      counted, the ring is empty, and no dequeue is waiting to be counted. */
  lemma QueueSafe<T>(buffer: seq<T>, run: seq<Action<T>>, q: Queue<T>)
    requires |buffer| == SIZE && Leads(Init(buffer), run, q)
    ensures Indices(q) && q.taken + Contents(q) == q.sent
    ensures |Contents(q)| <= 65535 && |Contents(q)| == Distance(q.tail, q.head)
    ensures q.stats.dequeues <= q.stats.enqueues + 1
    ensures !SelfCheck(q) <==> q.p.Published? && q.head == q.tail && !q.c.Advanced?
    ensures q.stats.peak <= 65535
  {
    hide Leads, Init, Slot, Distance, ProducerOk;
    assert SIZE - 1 == 65535;
    InitInv(buffer);
    LeadsInv(Init(buffer), run, q);
    SlotsApart(|q.taken|, |q.sent|);
    DistanceIs(|q.taken|, |q.sent|);
    forall i | 0 <= i < |Contents(q)|
      ensures Contents(q)[i] == q.sent[|q.taken| + i]
    {
      NextSlot(|q.taken|, i);
    }
  }

  /** A dequeue gives nothing exactly when, as far as the consumer can see, nothing is held. */
  lemma EmptyOnlyWhenEmpty<T>(q: Queue<T>, a: Action<T>)
    requires Inv(q) && a.LoadTail? && Enabled(q, a)
    ensures Do(q, a).c.Resting? <==> a.view == |q.taken|
    ensures Do(q, a).c.Copying? ==> Do(q, a).c.count == if a.view - |q.taken| < q.c.max then a.view - |q.taken| else q.c.max
  {
    hide Slot, Distance;
    LoadTailInv(q, a);
  }

  /** Neither side ever waits for the other: whatever the other side does, the next step of a
      started operation can be taken, with any value of the other's index since the last look. */
  lemma NeverStuck<T>(q: Queue<T>)
    requires Inv(q)
    ensures match q.p
      case Idle => forall item: T :: Enabled(q, Enqueue(item))
      case Loaded(_, _) => forall view :: q.headView <= view <= |q.taken| ==> Enabled(q, LoadHead(view))
      case Granted(_, _, _) => Enabled(q, Store)
      case Stored(_, _, _) => Enabled(q, Publish)
      case Published(_, _) => Enabled(q, CountIn)
    ensures match q.c
      case Resting => Enabled(q, Dequeue) && forall max :: Enabled(q, DequeueBatch(max))
      case Begun(_, _, _) => forall view :: q.tailView <= view <= |q.sent| ==> Enabled(q, LoadTail(view))
      case Copying(_, count, got, _) => Enabled(q, if |got| < count then Copy else Advance)
      case Advanced(_, _, _) => Enabled(q, CountOut)
  {
  }

  // ----- What goes in comes out -----

  /** What a run publishes, read off its actions alone: at each publication the argument of the
      last enqueue.  `held` is that argument, if there was one. */
  function PublishedFrom<T>(run: seq<Action<T>>, held: seq<T>): seq<T> {
    if run == [] then []
    else match run[0]
      case Enqueue(item) => PublishedFrom(run[1..], [item])
      case Publish => held + PublishedFrom(run[1..], held)
      case _ => PublishedFrom(run[1..], held)
  }

  function PublishedBy<T>(run: seq<Action<T>>): seq<T> {
    PublishedFrom(run, [])
  }

  /** The item that the producer is busy with, not published yet. */
  ghost predicate Holding<T>(q: Queue<T>, held: seq<T>) {
    q.p.Loaded? || q.p.Granted? || q.p.Stored? ==> held == [q.p.item]
  }

  lemma {:induction false} SentFrom<T>(q: Queue<T>, run: seq<Action<T>>, q': Queue<T>, held: seq<T>)
    requires Leads(q, run, q') && Holding(q, held)
    ensures q'.sent == q.sent + PublishedFrom(run, held)
    decreases |run|
  {
    hide Distance, Slot;
    if run != [] {
      SentFrom(Do(q, run[0]), run[1..], q', if run[0].Enqueue? then [run[0].item] else held);
    }
  }

  /** From end to end, over every interleaving: what is published is what the callers passed to the
      enqueues that were published, in order, and what the consumer is handed is a prefix of it. */
  lemma SentIsPublished<T>(buffer: seq<T>, run: seq<Action<T>>, q: Queue<T>)
    requires |buffer| == SIZE && Leads(Init(buffer), run, q)
    ensures q.sent == PublishedBy(run) && q.taken <= PublishedBy(run)
    ensures q.c.Advanced? ==> |q.c.got| <= |q.taken| && q.c.got == q.taken[|q.taken| - |q.c.got|..]
  {
    hide Leads, Slot;
    InitInv(buffer);
    LeadsInv(Init(buffer), run, q);
    SentFrom(Init(buffer), run, q, []);
  }

  // ----- The statistics -----

  function Enqueues<T>(run: seq<Action<T>>): nat {
    if run == [] then 0 else (if run[0].Enqueue? then 1 else 0) + Enqueues(run[1..])
  }

  /** Every enqueue that was called succeeded, failed, or is still on its way. */
  function Entered<T>(q: Queue<T>): nat {
    |q.sent| + q.stats.failed + if q.p.Loaded? || q.p.Granted? || q.p.Stored? then 1 else 0
  }

  lemma {:induction false} EnteredFrom<T>(q: Queue<T>, run: seq<Action<T>>, q': Queue<T>)
    requires Leads(q, run, q')
    ensures Entered(q') == Entered(q) + Enqueues(run)
    decreases |run|
  {
    hide Distance, Slot;
    if run != [] {
      EnteredFrom(Do(q, run[0]), run[1..], q');
    }
  }

  /** The largest number of items that the producer saw in the ring after one of its publications,
      read off the actions: `sent` were published so far and `view` known to be taken. */
  function PeakFrom<T>(run: seq<Action<T>>, sent: nat, view: nat, peak: nat): int {
    if run == [] then peak
    else match run[0]
      case LoadHead(seen) => PeakFrom(run[1..], sent, seen, peak)
      case Publish => PeakFrom(run[1..], sent + 1, view, peak)
      case CountIn => PeakFrom(run[1..], sent, view, if sent - view > peak then sent - view else peak)
      case _ => PeakFrom(run[1..], sent, view, peak)
  }

  lemma {:induction false} PeakIs<T>(q: Queue<T>, run: seq<Action<T>>, q': Queue<T>)
    requires Inv(q) && Leads(q, run, q')
    ensures q'.stats.peak == PeakFrom(run, |q.sent|, q.headView, q.stats.peak)
    decreases |run|
  {
    hide Distance, Slot, Inv;
    if run != [] {
      StepInv(q, run[0]);
      if run[0].CountIn? {
        PublishedSize(q);
      }
      PeakIs(Do(q, run[0]), run[1..], q');
    }
  }

  lemma PublishedSize<T>(q: Queue<T>)
    requires Inv(q) && q.p.Published?
    ensures Distance(q.p.next, q.p.head) == |q.sent| - q.headView
  {
    DistanceIs(q.headView, |q.sent|);
  }

  /** The batches that handed out items, read off the actions; `batch` says whether the consumer is
      in one. */
  function BatchesFrom<T>(run: seq<Action<T>>, batch: bool): nat {
    if run == [] then 0
    else match run[0]
      case Dequeue => BatchesFrom(run[1..], false)
      case DequeueBatch(max) => BatchesFrom(run[1..], max > 0)
      case CountOut => BatchesFrom(run[1..], batch) + if batch then 1 else 0
      case _ => BatchesFrom(run[1..], batch)
  }

  lemma {:induction false} BatchesIs<T>(q: Queue<T>, run: seq<Action<T>>, q': Queue<T>, batch: bool)
    requires Leads(q, run, q') && (!q.c.Resting? ==> q.c.batch == batch)
    ensures q'.stats.batches == q.stats.batches + BatchesFrom(run, batch)
    decreases |run|
  {
    hide Distance, Slot;
    if run != [] {
      var next := if run[0].Dequeue? then false else if run[0].DequeueBatch? then run[0].max > 0 else batch;
      BatchesIs(Do(q, run[0]), run[1..], q', next);
    }
  }

  /** The statistics over every interleaving, once neither side is busy. */
  lemma StatisticsAre<T>(buffer: seq<T>, run: seq<Action<T>>, q: Queue<T>)
    requires |buffer| == SIZE && Leads(Init(buffer), run, q) && q.p.Idle? && q.c.Resting?
    ensures q.stats.enqueues == |PublishedBy(run)| && q.stats.enqueues + q.stats.failed == Enqueues(run)
    ensures q.stats.peak == PeakFrom(run, 0, 0, 0)
    ensures q.stats.dequeues == |q.taken| && q.stats.batches == BatchesFrom(run, false)
  {
    hide Leads, Slot;
    InitInv(buffer);
    LeadsInv(Init(buffer), run, q);
    SentFrom(Init(buffer), run, q, []);
    EnteredFrom(Init(buffer), run, q);
    PeakIs(Init(buffer), run, q);
    BatchesIs(Init(buffer), run, q, false);
  }

  /** The self-check as its caller runs it: the head, the tail, the enqueue count and the dequeue
      count are read at four moments. */
  predicate ReadCheck<T>(head: Queue<T>, tail: Queue<T>, enqueues: Queue<T>, dequeues: Queue<T>) {
    && head.head < SIZE && tail.tail < SIZE && Distance(tail.tail, head.head) < SIZE
    && enqueues.stats.enqueues >= dequeues.stats.dequeues
  }

  /** The items handed out that the consumer has not counted yet. */
  function Pending<T>(q: Queue<T>): nat {
    if q.c.Advanced? then q.c.count else 0
  }

  lemma {:induction false} SentGrows<T>(q: Queue<T>, run: seq<Action<T>>, q': Queue<T>)
    requires Leads(q, run, q')
    ensures |q.sent| <= |q'.sent|
    decreases |run|
  {
    hide Distance, Slot;
    if run != [] {
      SentGrows(Do(q, run[0]), run[1..], q');
    }
  }

  lemma {:induction false} OneSideRuns<T>(q: Queue<T>, run: seq<Action<T>>, q': Queue<T>)
    requires Leads(q, run, q')
    ensures (forall i :: 0 <= i < |run| ==> ByProducer(run[i])) ==>
              q'.taken == q.taken && q'.c == q.c && q'.stats.dequeues == q.stats.dequeues
    ensures (forall i :: 0 <= i < |run| ==> !ByProducer(run[i])) ==>
              q'.sent == q.sent && q'.p == q.p && q'.stats.enqueues == q.stats.enqueues
    decreases |run|
  {
    hide Distance, Slot;
    if run != [] {
      assert forall i :: 0 <= i < |run| - 1 ==> run[1..][i] == run[i + 1];
      OneSideRuns(Do(q, run[0]), run[1..], q');
    }
  }

  /** The four readings of the self-check at any moments, the counts in either order.  Its
      checks of the indices never fail.  If the dequeue count is read first, the check fails
      exactly when by then the ring was empty, no dequeue was waiting to be counted, and since then
      the producer has not even counted what it had published.  If the enqueue count is read
      first, it fails exactly when since then the consumer counted an item beyond the producer's
      count. */
  lemma ReadsApart<T>(h: Queue<T>, t: Queue<T>, first: Queue<T>, run: seq<Action<T>>, second: Queue<T>)
    requires Inv(h) && Inv(t) && Inv(first) && Leads(first, run, second)
    ensures !ReadCheck(h, t, second, first) <==>
              second.p.Published? && |second.sent| == |first.taken| && !first.c.Advanced?
    ensures !ReadCheck(h, t, first, second) <==>
              |second.taken| - Pending(second) > |first.sent| - (if first.p.Published? then 1 else 0)
  {
    hide Leads, Distance, Slot;
    LeadsInv(first, run, second);
    SentGrows(first, run, second);
  }

  /** The producer's own thread never sees the check fail, and the consumer's thread does exactly
      when the ring is empty and an enqueue is published but not counted at the reading of the
      enqueue count. */
  lemma OwnThreadChecks<T>(h: Queue<T>, t: Queue<T>, first: Queue<T>, run: seq<Action<T>>, second: Queue<T>)
    requires Inv(h) && Inv(t) && Inv(first) && Leads(first, run, second)
    ensures first.p.Idle? && (forall i :: 0 <= i < |run| ==> !ByProducer(run[i])) ==>
              ReadCheck(h, t, first, second) && ReadCheck(h, t, second, first)
    ensures first.c.Resting? && (forall i :: 0 <= i < |run| ==> ByProducer(run[i])) ==>
              && (!ReadCheck(h, t, first, second) <==> first.p.Published? && first.head == first.tail)
              && (!ReadCheck(h, t, second, first) <==> second.p.Published? && second.head == second.tail)
  {
    hide Leads, Distance, Slot, ReadCheck;
    ReadsApart(h, t, first, run, second);
    OneSideRuns(first, run, second);
    LeadsInv(first, run, second);
    SlotsApart(|first.taken|, |first.sent|);
    SlotsApart(|second.taken|, |second.sent|);
  }

  /** In no interleaving does the consumer read the slot that the producer is writing. */
  lemma NoRace<T>(buffer: seq<T>, run: seq<Action<T>>, q: Queue<T>)
    requires |buffer| == SIZE && Leads(Init(buffer), run, q)
    requires q.p.Granted? && q.c.Copying? && |q.c.got| < q.c.count
    ensures q.p.tail != Slot(q.c.head + |q.c.got|)
  {
    hide Leads, Slot, Init;
    InitInv(buffer);
    LeadsInv(Init(buffer), run, q);
    NextSlot(|q.taken|, |q.c.got|);
    WriteSafe(q, |q.taken| + |q.c.got|);
  }

  /** An enqueue fails only if, as far as the producer can see, 65535 items are held. */
  lemma FullOnlyAtCapacity<T>(q: Queue<T>, a: Action<T>)
    requires Inv(q) && a.LoadHead? && Enabled(q, a)
    ensures Do(q, a).p.Idle? <==> |q.sent| - a.view == 65535
  {
    NextSlot(|q.sent|, 1);
    SlotsApart(a.view, |q.sent| + 1);
  }

  // ----- A batch is so many single dequeues -----

  lemma {:induction false} LeadsAppend<T>(q: Queue<T>, a: seq<Action<T>>, q1: Queue<T>, b: seq<Action<T>>, q2: Queue<T>)
    requires Leads(q, a, q1) && Leads(q1, b, q2)
    ensures Leads(q, a + b, q2)
    decreases |a|
  {
    hide Enabled, Do;
    if a == [] {
      assert a + b == b;
    } else {
      assert (a + b)[0] == a[0] && (a + b)[1..] == a[1..] + b;
      LeadsAppend(Do(q, a[0]), a[1..], q1, b, q2);
    }
  }

  function Copies<T>(n: nat): seq<Action<T>> {
    seq(n, _ => Copy)
  }

  function BatchRun<T>(max: nat, view: nat, n: nat): seq<Action<T>> {
    [DequeueBatch(max), LoadTail(view)] + Copies(n) + [Advance, CountOut]
  }

  function SingleRun<T>(view: nat): seq<Action<T>> {
    [Dequeue, LoadTail(view)] + Copies(1) + [Advance, CountOut]
  }

  function SinglesRun<T>(view: nat, n: nat): seq<Action<T>> {
    if n == 0 then [] else SingleRun(view) + SinglesRun(view, n - 1)
  }

  /** The queue once the consumer alone has taken `n` items, seeing `view` published. */
  function Taken<T>(q: Queue<T>, view: nat, n: nat, batches: nat): Queue<T>
    requires |q.taken| + n <= |q.sent|
  {
    q.(head := Slot(|q.taken| + n), taken := q.sent[..|q.taken| + n], tailView := view, c := Resting,
       stats := q.stats.(dequeues := q.stats.dequeues + n, batches := q.stats.batches + batches))
  }

  lemma {:induction false} CopiesLead<T>(q: Queue<T>, n: nat)
    requires Inv(q) && q.c.Copying? && |q.c.got| + n <= q.c.count
    ensures Leads(q, Copies(n), q.(c := Copying(q.c.head, q.c.count, q.sent[|q.taken|..|q.taken| + |q.c.got| + n], q.c.batch)))
    decreases n
  {
    hide Buffered, ProducerOk, Counted, Slot, Leads;
    if n == 0 {
      NoSteps(q);
    } else {
      CopyInv(q);
      CopiesLead(Do(q, Copy), n - 1);
      assert Copies<T>(n) == [Copy] + Copies<T>(n - 1);
      FirstStep(q, Copy, Copies(n - 1), q.(c := Copying(q.c.head, q.c.count, q.sent[|q.taken|..|q.taken| + |q.c.got| + n], q.c.batch)));
    }
  }

  lemma NoSteps<T>(q: Queue<T>)
    ensures Leads(q, Copies(0), q)
  {
  }

  lemma FirstStep<T>(q: Queue<T>, a: Action<T>, run: seq<Action<T>>, q': Queue<T>)
    requires Enabled(q, a) && Leads(Do(q, a), run, q')
    ensures Leads(q, [a] + run, q')
  {
    hide Enabled, Do;
    assert ([a] + run)[1..] == run;
  }

  lemma EndLeads<T>(q: Queue<T>)
    requires Inv(q) && q.c.Copying? && |q.c.got| == q.c.count
    ensures Leads(q, [Advance, CountOut], Taken(q, q.tailView, q.c.count, if q.c.batch then 1 else 0))
  {
    hide Leads, Do, Enabled, Taken, Inv;
    EndIs(q);
    TwoSteps(q, Advance, CountOut);
  }

  lemma EndIs<T>(q: Queue<T>)
    requires Inv(q) && q.c.Copying? && |q.c.got| == q.c.count
    ensures |q.taken| + q.c.count <= |q.sent| && Enabled(q, Advance) && Enabled(Do(q, Advance), CountOut)
    ensures Do(Do(q, Advance), CountOut) == Taken(q, q.tailView, q.c.count, if q.c.batch then 1 else 0)
  {
    hide Buffered, ProducerOk, Counted, Slot;
    NextSlot(|q.taken|, q.c.count);
    assert q.taken + q.c.got == q.sent[..|q.taken| + q.c.count];
  }

  lemma TwoSteps<T>(q: Queue<T>, a: Action<T>, b: Action<T>)
    requires Enabled(q, a) && Enabled(Do(q, a), b)
    ensures Leads(q, [a, b], Do(Do(q, a), b))
  {
    hide Enabled, Do;
    var run := [a, b];
    assert run[1..] == [b] && [b][1..] == [];
    assert Leads(Do(q, a), [b], Do(Do(q, a), b));
  }

  /** The call has read both indices and found `n` items to take. */
  function Started<T>(q: Queue<T>, view: nat, n: nat, batch: bool): Queue<T> {
    q.(c := Copying(q.head, n, [], batch), tailView := view)
  }

  lemma StartLeads<T>(q: Queue<T>, call: Action<T>, view: nat, max: nat, n: nat)
    requires Inv(q) && q.c.Resting? && q.tailView <= view <= |q.sent|
    requires (call == Dequeue && max == 1) || call == DequeueBatch(max)
    requires 0 < n == Min(view - |q.taken|, max)
    ensures Leads(q, [call, LoadTail(view)], Started(q, view, n, call != Dequeue))
  {
    hide Leads, Buffered, ProducerOk, Counted;
    DistanceIs(|q.taken|, view);
    TwoSteps(q, call, LoadTail(view));
  }

  /** A call that sees `view` items published takes as many as there are, up to `max`. */
  lemma CallLeads<T>(q: Queue<T>, call: Action<T>, view: nat, max: nat, n: nat)
    requires Inv(q) && q.c.Resting? && q.tailView <= view <= |q.sent|
    requires (call == Dequeue && max == 1) || call == DequeueBatch(max)
    requires 0 < n == Min(view - |q.taken|, max)
    ensures Leads(q, [call, LoadTail(view)] + Copies(n) + [Advance, CountOut],
                  Taken(q, view, n, if call == Dequeue then 0 else 1))
  {
    hide Leads, Do, Enabled, Copies, Buffered, ProducerOk, Counted, Slot;
    var q2 := Started(q, view, n, call != Dequeue);
    StartLeads(q, call, view, max, n);
    LeadsInv(q, [call, LoadTail(view)], q2);
    CopiesLead(q2, n);
    var q3 := q2.(c := Copying(q.head, n, q.sent[|q.taken|..|q.taken| + n], call != Dequeue));
    LeadsInv(q2, Copies(n), q3);
    EndLeads(q3);
    var end := Taken(q, view, n, if call == Dequeue then 0 else 1);
    assert Taken(q3, q3.tailView, q3.c.count, if q3.c.batch then 1 else 0) == end;
    LeadsAppend(q, [call, LoadTail(view)], q2, Copies(n), q3);
    LeadsAppend(q, [call, LoadTail(view)] + Copies(n), q3, [Advance, CountOut], end);
  }

  lemma SingleIs<T>(view: nat)
    ensures SingleRun<T>(view) == [Dequeue, LoadTail(view)] + Copies(1) + [Advance, CountOut]
  {
  }

  lemma {:induction false} SinglesLead<T>(q: Queue<T>, view: nat, n: nat)
    requires Inv(q) && q.c.Resting? && q.tailView <= view <= |q.sent| && |q.taken| + n <= view
    ensures n > 0 ==> Leads(q, SinglesRun(view, n), Taken(q, view, n, 0))
    decreases n
  {
    hide Leads, Buffered, ProducerOk, Counted, Slot, SingleRun;
    if n > 0 {
      var q1 := Taken(q, view, 1, 0);
      assert SingleRun<T>(view) == [Dequeue, LoadTail(view)] + Copies(1) + [Advance, CountOut] by { SingleIs<T>(view); }
      CallLeads(q, Dequeue, view, 1, 1);
      LeadsInv(q, SingleRun(view), q1);
      if n == 1 {
        assert SingleRun<T>(view) + [] == SingleRun<T>(view);
      } else {
        SinglesLead(q1, view, n - 1);
        assert Taken(q1, view, n - 1, 0) == Taken(q, view, n, 0);
        LeadsAppend(q, SingleRun(view), q1, SinglesRun(view, n - 1), Taken(q, view, n, 0));
      }
    }
  }

  lemma InvTaken<T>(q: Queue<T>)
    requires Inv(q)
    ensures |q.taken| <= |q.sent| && q.taken == q.sent[..|q.taken|]
  {
    hide Buffered, ProducerOk, ConsumerOk, Counted;
  }

  /** A batch dequeue of `n` items and `n` single dequeues lead to the same queue and hand
      out the same items; only the batch counter tells them apart. */
  lemma BatchIsSingles<T>(q: Queue<T>, view: nat, max: nat, n: nat)
    requires Inv(q) && q.c.Resting? && q.tailView <= view <= |q.sent|
    requires 0 < n == Min(view - |q.taken|, max)
    ensures Leads(q, BatchRun(max, view, n), Taken(q, view, n, 1))
    ensures Leads(q, SinglesRun(view, n), Taken(q, view, n, 0))
    ensures Taken(q, view, n, 0).taken == Taken(q, view, n, 1).taken == q.taken + q.sent[|q.taken|..|q.taken| + n]
  {
    hide Leads, Inv, SinglesRun, Copies;
    InvTaken(q);
    CallLeads(q, DequeueBatch(max), view, max, n);
    SinglesLead(q, view, n);
    assert q.sent[..|q.taken| + n] == q.sent[..|q.taken|] + q.sent[|q.taken|..|q.taken| + n];
  }

  // ----- ... in every interleaving with the producer -----

  predicate ByProducer<T>(a: Action<T>) {
    a.Enqueue? || a.LoadHead? || a.Store? || a.Publish? || a.CountIn?
  }

  /** The actions of one side, in order. */
  function Part<T>(run: seq<Action<T>>, producer: bool): seq<Action<T>> {
    if run == [] then []
    else (if ByProducer(run[0]) == producer then [run[0]] else []) + Part(run[1..], producer)
  }

  /** `q` with what belongs to the consumer alone taken from `s`. */
  function WithConsumer<T>(q: Queue<T>, s: Queue<T>): Queue<T> {
    q.(c := s.c, tailView := s.tailView,
       stats := q.stats.(dequeues := s.stats.dequeues, batches := s.stats.batches))
  }

  /** A producer step neither reads nor writes what belongs to the consumer alone. */
  lemma ProducerCommutes<T>(q: Queue<T>, s: Queue<T>, a: Action<T>)
    requires ByProducer(a) && Enabled(q, a)
    ensures Enabled(WithConsumer(q, s), a) && Do(WithConsumer(q, s), a) == WithConsumer(Do(q, a), s)
    ensures Do(q, a) == WithConsumer(Do(q, a), q) && Do(q, a).taken == q.taken && Do(q, a).head == q.head
    ensures |Do(q, a).sent| >= |q.sent| && Do(q, a).sent[..|q.sent|] == q.sent
  {
    hide Slot, Distance;
  }

  lemma PartStep<T>(run: seq<Action<T>>, producer: bool)
    requires run != []
    ensures Part(run, producer) == if ByProducer(run[0]) == producer then [run[0]] + Part(run[1..], producer) else Part(run[1..], producer)
  {
  }

  lemma {:induction false} PartAppend<T>(a: seq<Action<T>>, b: seq<Action<T>>, producer: bool)
    ensures Part(a + b, producer) == Part(a, producer) + Part(b, producer)
  {
    if a == [] {
      assert a + b == b;
    } else {
      assert (a + b)[0] == a[0] && (a + b)[1..] == a[1..] + b;
      PartAppend(a[1..], b, producer);
    }
  }

  lemma {:induction false} PartOfConsumer<T>(run: seq<Action<T>>)
    requires forall i :: 0 <= i < |run| ==> !ByProducer(run[i])
    ensures Part(run, true) == [] && Part(run, false) == run
  {
    if run != [] {
      PartOfConsumer(run[1..]);
    }
  }

  lemma {:induction false} SinglesByConsumer<T>(view: nat, n: nat)
    ensures forall i :: 0 <= i < |SinglesRun<T>(view, n)| ==> !ByProducer(SinglesRun<T>(view, n)[i])
  {
    if n > 0 {
      SinglesByConsumer<T>(view, n - 1);
    }
  }

  /** `s` is `q` but for the batch call that `q` has finished, but perhaps not yet counted. */
  ghost predicate Ahead<T>(q: Queue<T>, s: Queue<T>) {
    && s == WithConsumer(q, s) && s.c.Resting? && s.tailView == q.tailView
    && match q.c
       case Advanced(count, _, batch) =>
         batch && s.stats.dequeues == q.stats.dequeues + count && s.stats.batches == q.stats.batches
       case Resting => s.stats.dequeues == q.stats.dequeues && s.stats.batches + 1 == q.stats.batches
       case _ => false
  }

  function Uncounted<T>(c: Consumer<T>): seq<Action<T>> {
    if c.Advanced? then [CountOut] else []
  }

  /** Once the batch has advanced the head, only its counting and the producer are left. */
  lemma {:induction false} BatchEnds<T>(q: Queue<T>, s: Queue<T>, run: seq<Action<T>>, q': Queue<T>) returns (r: Queue<T>)
    requires Ahead(q, s) && Leads(q, run, q') && Part(run, false) == Uncounted(q.c)
    ensures Leads(s, Part(run, true), r) && Ahead(q', r) && q'.c.Resting?
    decreases |run|
  {
    hide Do, Enabled;
    if run == [] {
      r := s;
    } else {
      PartStep(run, true);
      PartStep(run, false);
      var q1 := Do(q, run[0]);
      if ByProducer(run[0]) {
        ProducerCommutes(q, s, run[0]);
        r := BatchEnds(q1, Do(s, run[0]), run[1..], q');
        FirstStep(s, run[0], Part(run[1..], true), r);
      } else {
        var todo := Part(run, false);
        assert todo[0] == run[0] && todo[1..] == Part(run[1..], false);
        assert run[0] == CountOut && Part(run[1..], false) == [];
        Counting(q, s);
        r := BatchEnds(q1, s, run[1..], q');
      }
    }
  }

  lemma Counting<T>(q: Queue<T>, s: Queue<T>)
    requires Ahead(q, s) && q.c.Advanced? && Enabled(q, CountOut)
    ensures Ahead(Do(q, CountOut), s) && Do(q, CountOut).c.Resting?
  {
  }

  /** The consumer of `q` is inside a batch call and will still do `todo`. */
  ghost predicate Doing<T>(q: Queue<T>, todo: seq<Action<T>>, max: nat, view: nat, n: nat) {
    match q.c
    case Resting => |q.taken| <= view && n == Min(view - |q.taken|, max) && todo == BatchRun(max, view, n)
    case Begun(m, _, batch) =>
      batch && m == max && |q.taken| <= view && n == Min(view - |q.taken|, max)
      && todo == [LoadTail(view)] + Copies(n) + [Advance, CountOut]
    case Copying(_, count, got, batch) =>
      batch && count == n && q.tailView == view && |got| <= n && todo == Copies(n - |got|) + [Advance, CountOut]
    case Advanced(_, _, _) => false
  }

  /** `s` is `q` with no batch call begun. */
  ghost predicate Behind<T>(q: Queue<T>, s: Queue<T>) {
    && s == WithConsumer(q, s) && s.c.Resting? && s.tailView <= q.tailView
    && s.stats.dequeues == q.stats.dequeues && s.stats.batches == q.stats.batches
  }

  /** A consumer step of the batch before its head moves is invisible to everyone else. */
  lemma BatchStep<T>(q: Queue<T>, s: Queue<T>, todo: seq<Action<T>>, max: nat, view: nat, n: nat)
    requires Inv(q) && Behind(q, s) && n > 0 && todo != [] && todo[0] != Advance
    requires Doing(q, todo, max, view, n) && Enabled(q, todo[0])
    ensures Behind(Do(q, todo[0]), s) && Doing(Do(q, todo[0]), todo[1..], max, view, n)
  {
    hide Buffered, ProducerOk, Counted, Slot, Distance;
    match q.c {
      case Resting => assert todo[1..] == [LoadTail(view)] + Copies(n) + [Advance, CountOut];
      case Begun(_, _, _) =>
        assert todo[1..] == Copies(n) + [Advance, CountOut];
        ViewedCount(q, view);
      case Copying(_, _, got, _) =>
        if |got| < n {
          assert todo[1..] == Copies(n - |got| - 1) + [Advance, CountOut];
        }
      case Advanced(_, _, _) =>
    }
  }

  lemma ViewedCount<T>(q: Queue<T>, view: nat)
    requires Inv(q) && q.c.Begun? && q.tailView <= view <= |q.sent|
    ensures Distance(Slot(view), q.c.head) == view - |q.taken|
  {
    DistanceIs(|q.taken|, view);
  }

  /** The batch moves the head where the single calls move it. */
  lemma BatchAdvances<T>(q: Queue<T>, s: Queue<T>, view: nat, n: nat)
    requires Inv(q) && Inv(s) && Behind(q, s) && n > 0 && q.c.Copying? && q.c.batch && q.c.count == n == |q.c.got| && q.tailView == view
    ensures |s.taken| + n <= view <= |s.sent| && Leads(s, SinglesRun(view, n), Taken(s, view, n, 0))
    ensures Enabled(q, Advance) && Ahead(Do(q, Advance), Taken(s, view, n, 0))
  {
    hide Leads, Buffered, ProducerOk, Counted, Slot;
    SinglesLead(s, view, n);
    NextSlot(|q.taken|, n);
    assert q.taken + q.c.got == q.sent[..|q.taken| + n];
  }

  lemma DoingAdvance<T>(q: Queue<T>, todo: seq<Action<T>>, max: nat, view: nat, n: nat)
    requires Doing(q, todo, max, view, n) && todo != [] && todo[0] == Advance
    ensures q.c.Copying? && q.c.batch && q.c.count == n == |q.c.got| && q.tailView == view && todo == [Advance, CountOut]
  {
    assert forall k: nat, i: nat :: i < k ==> Copies<T>(k)[i] == Copy;
  }

  lemma {:induction false} BatchFollows<T>(
    q: Queue<T>, s: Queue<T>, run: seq<Action<T>>, q': Queue<T>, max: nat, view: nat, n: nat)
    returns (run': seq<Action<T>>, r: Queue<T>)
    requires Inv(q) && Inv(s) && Behind(q, s) && n > 0 && Leads(q, run, q') && Doing(q, Part(run, false), max, view, n)
    ensures Leads(s, run', r) && Ahead(q', r) && q'.c.Resting?
    ensures Part(run', true) == Part(run, true) && Part(run', false) == SinglesRun(view, n)
    decreases |run|
  {
    hide Do, Enabled, Inv, Taken, SinglesRun, Behind, Ahead, Doing;
    DoingNotDone(q, Part(run, false), max, view, n);
    PartStep(run, true);
    PartStep(run, false);
    var q1 := Do(q, run[0]);
    StepInv(q, run[0]);
    if ByProducer(run[0]) {
      BehindProducer(q, s, run[0], Part(run, false), max, view, n);
      StepInv(s, run[0]);
      run', r := BatchFollows(q1, Do(s, run[0]), run[1..], q', max, view, n);
      FirstStep(s, run[0], run', r);
      PartStep([run[0]] + run', true);
      PartStep([run[0]] + run', false);
      assert ([run[0]] + run')[1..] == run';
      run' := [run[0]] + run';
    } else if run[0] != Advance {
      assert Part(run, false)[1..] == Part(run[1..], false);
      BatchStep(q, s, Part(run, false), max, view, n);
      run', r := BatchFollows(q1, s, run[1..], q', max, view, n);
    } else {
      DoingAdvance(q, Part(run, false), max, view, n);
      BatchAdvances(q, s, view, n);
      AheadAdvanced(q, Taken(s, view, n, 0));
      assert Part(run[1..], false) == [CountOut];
      r := BatchEnds(q1, Taken(s, view, n, 0), run[1..], q');
      LeadsAppend(s, SinglesRun(view, n), Taken(s, view, n, 0), Part(run[1..], true), r);
      run' := SinglesRun(view, n) + Part(run[1..], true);
      SinglesByConsumer<T>(view, n);
      PartOfConsumer(SinglesRun<T>(view, n));
      PartAppend(SinglesRun(view, n), Part(run[1..], true), true);
      PartAppend(SinglesRun(view, n), Part(run[1..], true), false);
      PartOfPart(run[1..]);
    }
  }

  lemma DoingNotDone<T>(q: Queue<T>, todo: seq<Action<T>>, max: nat, view: nat, n: nat)
    requires Doing(q, todo, max, view, n)
    ensures todo != []
  {
  }

  lemma AheadAdvanced<T>(q: Queue<T>, s: Queue<T>)
    requires Enabled(q, Advance)
    ensures Do(q, Advance).c.Advanced?
  {
  }

  lemma BehindProducer<T>(q: Queue<T>, s: Queue<T>, a: Action<T>, todo: seq<Action<T>>, max: nat, view: nat, n: nat)
    requires Behind(q, s) && ByProducer(a) && Enabled(q, a) && Doing(q, todo, max, view, n)
    ensures Enabled(s, a) && Behind(Do(q, a), Do(s, a)) && Doing(Do(q, a), todo, max, view, n)
  {
    hide Do, Enabled;
    ProducerCommutes(q, s, a);
  }

  lemma {:induction false} PartOfPart<T>(run: seq<Action<T>>)
    ensures Part(Part(run, true), true) == Part(run, true) && Part(Part(run, true), false) == []
  {
    if run != [] {
      PartOfPart(run[1..]);
      PartStep(run, true);
      if ByProducer(run[0]) {
        var p := Part(run, true);
        assert p[0] == run[0] && p[1..] == Part(run[1..], true);
        PartStep(p, true);
        PartStep(p, false);
      }
    }
  }

  /** However the producer's steps fall between those of a batch dequeue of `n` items, `n` single
      dequeues fit between the same producer steps, in the same order, with the same outcome:
      the same items handed out, the same ring, and only the batch counter one lower. */
  lemma BatchAnywhere<T>(q: Queue<T>, run: seq<Action<T>>, q': Queue<T>, max: nat, view: nat, n: nat)
    returns (run': seq<Action<T>>, r: Queue<T>)
    requires Inv(q) && q.c.Resting? && |q.taken| <= view && 0 < n == Min(view - |q.taken|, max)
    requires Leads(q, run, q') && Part(run, false) == BatchRun(max, view, n)
    ensures Leads(q, run', r) && Part(run', true) == Part(run, true) && Part(run', false) == SinglesRun(view, n)
    ensures q' == r.(stats := r.stats.(batches := r.stats.batches + 1))
  {
    hide Inv, Leads, Part, SinglesRun, BatchRun;
    run', r := BatchFollows(q, q, run, q', max, view, n);
  }

  // ----- The invariant check of the source may fail -----

  /** One item goes all the way through before its enqueue is counted. */
  function Overtaking(): seq<Action<int>> {
    [Enqueue(7), LoadHead(0), Store, Publish, Dequeue, LoadTail(1), Copy, Advance, CountOut]
  }

  function Overtaken(buffer: seq<int>): Queue<int>
    requires |buffer| == SIZE
  {
    Queue(buffer[0 := 7], 1, 1, Published(1, 0), Resting, Stats(0, 0, 0, 1, 0), [7], [7], 0, 1)
  }

  /** The same run, up to the publication. */
  function HalfWay(buffer: seq<int>): Queue<int>
    requires |buffer| == SIZE
  {
    Queue(buffer[0 := 7], 0, 1, Published(1, 0), Resting, Stats(0, 0, 0, 0, 0), [7], [], 0, 0)
  }

  lemma FirstHalf(buffer: seq<int>, end: Queue<int>)
    requires |buffer| == SIZE && Leads(HalfWay(buffer), Overtaking()[4..], end)
    ensures Leads(Init(buffer), Overtaking(), end)
  {
    hide Leads;
    var run, q0 := Overtaking(), Init(buffer);
    assert Do(q0.(buffer := buffer[0 := 7], p := Stored(7, 0, 0)), Publish) == HalfWay(buffer) && run[3 + 1..] == run[4..];
    LeadsFrom(q0.(buffer := buffer[0 := 7], p := Stored(7, 0, 0)), run, 3, end);
    LeadsFrom(q0.(p := Granted(7, 0, 0)), run, 2, end);
    LeadsFrom(q0.(p := Loaded(7, 0)), run, 1, end);
    LeadsFrom(q0, run, 0, end);
    assert run[0..] == run;
  }

  lemma SecondHalf(buffer: seq<int>)
    requires |buffer| == SIZE
    ensures Leads(HalfWay(buffer), Overtaking()[4..], Overtaken(buffer))
  {
    var run, q, end := Overtaking(), HalfWay(buffer), Overtaken(buffer);
    LeadsFrom(end, run, 9, end);
    hide Leads;
    LeadsFrom(end.(c := Advanced(1, [7], false), stats := Stats(0, 0, 0, 0, 0)), run, 8, end);
    LeadsFrom(q.(c := Copying(0, 1, [7], false), tailView := 1), run, 7, end);
    LeadsFrom(q.(c := Copying(0, 1, [], false), tailView := 1), run, 6, end);
    LeadsFrom(q.(c := Begun(1, 0, false)), run, 5, end);
    LeadsFrom(q, run, 4, end);
  }

  /** `verify_invariants` calls more dequeues than enqueues impossible; this run reaches it. */
  lemma DequeuesOvertake(buffer: seq<int>)
    requires |buffer| == SIZE
    ensures Leads(Init(buffer), Overtaking(), Overtaken(buffer))
    ensures !SelfCheck(Overtaken(buffer))
  {
    SecondHalf(buffer);
    FirstHalf(buffer, Overtaken(buffer));
  }

  lemma LeadsFrom<T>(q: Queue<T>, run: seq<Action<T>>, i: nat, q': Queue<T>)
    requires i <= |run|
    requires if i == |run| then q == q' else Enabled(q, run[i]) && Leads(Do(q, run[i]), run[i + 1..], q')
    ensures Leads(q, run[i..], q')
  {
    if i < |run| {
      assert run[i..][0] == run[i] && run[i..][1..] == run[i + 1..];
    }
  }
}
