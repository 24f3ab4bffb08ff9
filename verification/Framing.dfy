/** Length-prefixed framing over a byte stream: a writer that may be drained in pieces
    and a reader that is fed in arbitrary chunks. */
module Framing {

  const HEADER: nat := 4
  const MAX_MESSAGE: nat := 4096
  const CAPACITY: nat := 4356

  type byte = x: int | 0 <= x < 256

  // ----- The wire format -----

  predicate Sendable(m: seq<byte>) {
    0 < |m| <= MAX_MESSAGE
  }

  /** A 32-bit length in network byte order. */
  function BigEndian(n: nat): (h: seq<byte>)
    requires n < 0x1_0000_0000
    ensures |h| == HEADER
  {
    [n / 0x100_0000, n / 0x1_0000 % 0x100, n / 0x100 % 0x100, n % 0x100]
  }

  function Length(h: seq<byte>): (n: nat)
    requires |h| >= HEADER
    ensures n < 0x1_0000_0000
  {
    var a: int, b: int, c: int, d: int := h[0], h[1], h[2], h[3];
    a * 0x100_0000 + b * 0x1_0000 + c * 0x100 + d
  }

  /** Parsing a length undoes writing it. */
  lemma LengthOfBigEndian(n: nat, rest: seq<byte>)
    requires n < 0x1_0000_0000
    ensures Length(BigEndian(n) + rest) == n
  {
    hide Length;
    var h := BigEndian(n);
    assert (h + rest)[..HEADER] == h;
    LengthPrefix(h + rest);
    Digits(n);
    LengthIs(h[0], h[1], h[2], h[3]);
  }

  lemma LengthPrefix(h: seq<byte>)
    requires |h| >= HEADER
    ensures Length(h) == Length(h[..HEADER])
  {
  }

  lemma LengthIs(a: byte, b: byte, c: byte, d: byte)
    ensures Length([a, b, c, d]) == 0x100 * (0x100 * (0x100 * a as int + b as int) + c as int) + d as int
  {
  }

  lemma Digits(n: nat)
    ensures n / 0x1_0000 == n / 0x100 / 0x100 && n / 0x100_0000 == n / 0x1_0000 / 0x100
    ensures n == 0x100 * (n / 0x100) + n % 0x100
  {
  }

  function Frame(m: seq<byte>): (f: seq<byte>)
    requires Sendable(m)
    ensures |f| == HEADER + |m|
  {
    BigEndian(|m|) + m
  }

  /** The bytes of a list of messages on the wire. */
  ghost function Wire(ms: seq<seq<byte>>): seq<byte>
    requires forall i :: 0 <= i < |ms| ==> Sendable(ms[i])
  {
    if ms == [] then [] else Frame(ms[0]) + Wire(ms[1..])
  }

  datatype Result = NeedMore | Ready(message: seq<byte>) | Error

  /** What the reader makes of the bytes it has buffered. */
  function Next(b: seq<byte>): Result {
    if |b| < HEADER then NeedMore
    else
      var n := Length(b);
      if n == 0 || n > MAX_MESSAGE then Error
      else if |b| < HEADER + n then NeedMore
      else Ready(b[HEADER..HEADER + n])
  }

  /** What stays buffered afterwards. */
  function Rest(b: seq<byte>): seq<byte> {
    match Next(b)
    case NeedMore => b
    case Ready(m) => if HEADER + |m| <= |b| then b[HEADER + |m|..] else []
    case Error => []
  }

  /** A complete frame at the front is recognised, whatever follows; an incomplete one is not. */
  lemma NextFrame(m: seq<byte>, b: seq<byte>, later: seq<byte>, tail: seq<byte>)
    requires Sendable(m) && b + later == Frame(m) + tail
    ensures |b| < |Frame(m)| ==> Next(b) == NeedMore && Rest(b) == b
    ensures |b| >= |Frame(m)| ==> Next(b) == Ready(m) && Rest(b) + later == tail && b == Frame(m) + Rest(b)
  {
    var f := Frame(m);
    assert forall i :: 0 <= i < |b| ==> b[i] == (b + later)[i];
    if |b| >= HEADER {
      LengthOfBigEndian(|m|, m);
      assert b[0] == f[0] && b[1] == f[1] && b[2] == f[2] && b[3] == f[3];
      assert Length(b) == |m|;
      if |b| >= |f| {
        assert b[HEADER..HEADER + |m|] == m;
        assert Rest(b) == b[|f|..];
        assert b[|f|..] + later == (b + later)[|f|..] == tail;
        assert b[..|f|] == f;
      }
    }
  }

  /** A frame is the length, most significant byte first, and the message. */
  lemma FrameBytes(m: seq<byte>)
    requires 1 <= |m| <= 4096
    ensures Sendable(m) && Frame(m) == [0, 0, |m| / 256, |m| % 256] + m
  {
  }

  /** What is read depends on the number in the first four bytes, most significant first: 1 to 4096
      bytes are waited for and handed out, any other number is an error. */
  lemma ReadsLength(b: seq<byte>)
    ensures |b| < 4 ==> Next(b) == NeedMore
    ensures |b| >= 4 ==>
      var n := b[0] as int * 16777216 + b[1] as int * 65536 + b[2] as int * 256 + b[3] as int;
      if n == 0 || n > 4096 then Next(b) == Error && Rest(b) == []
      else if |b| < 4 + n then Next(b) == NeedMore && Rest(b) == b
      else Next(b) == Ready(b[4..4 + n]) && Rest(b) == b[4 + n..]
  {
  }

  /** The longest message is read, and a frame of one byte more is an error. */
  lemma LongestMessage(m: seq<byte>, tail: seq<byte>)
    ensures |m| == 4096 ==> Next([0, 0, 16, 0] + m + tail) == Ready(m)
    ensures |m| == 4097 ==> Next([0, 0, 16, 1] + m + tail) == Error
  {
    var b, c := [0, 0, 16, 0] + m + tail, [0, 0, 16, 1] + m + tail;
    ReadsLength(b);
    ReadsLength(c);
    assert |m| == 4096 ==> b[4..4 + 4096] == m;
  }

  /** Parsing, case by case. */
  lemma Parsed(b: seq<byte>)
    ensures |b| < HEADER ==> Next(b) == NeedMore && Rest(b) == b
    ensures |b| >= HEADER ==>
      var n := Length(b[..HEADER]);
      && (n == 0 || n > MAX_MESSAGE ==> Next(b) == Error && Rest(b) == [])
      && (0 < n <= MAX_MESSAGE && |b| < HEADER + n ==> Next(b) == NeedMore && Rest(b) == b)
      && (0 < n <= MAX_MESSAGE && |b| >= HEADER + n ==> Next(b) == Ready(b[HEADER..HEADER + n]) && Rest(b) == b[HEADER + n..])
  {
    if |b| >= HEADER {
      LengthPrefix(b);
    }
  }

  // ----- The reader -----

  class Reader {
    const buffer: array<byte>
    const extract: array<byte>
    var pos: nat

    ghost predicate Valid()
      reads this
    {
      buffer.Length == CAPACITY && extract.Length == MAX_MESSAGE && pos <= CAPACITY && buffer != extract
    }

    ghost function Buffered(): seq<byte>
      reads this, buffer
      requires Valid()
    {
      buffer[..pos]
    }

    constructor ()
      ensures Valid() && Buffered() == [] && fresh(buffer) && fresh(extract)
    {
      buffer := new byte[CAPACITY](_ => 0);
      extract := new byte[MAX_MESSAGE](_ => 0);
      pos := 0;
    }

    /** Take as much of `data` as there is space for. */
    method Append(data: seq<byte>) returns (n: nat)
      requires Valid()
      modifies this, buffer
      ensures Valid() && n == (if |data| < CAPACITY - |old(Buffered())| then |data| else CAPACITY - |old(Buffered())|)
      ensures Buffered() == old(Buffered()) + data[..n]
    {
      var space := CAPACITY - pos;
      n := if |data| < space then |data| else space;
      var start := pos;
      forall i | 0 <= i < n {
        buffer[start + i] := data[i];
      }
      pos := pos + n;
    }

    /** Take the next message, if it is complete.  A length of zero or above the maximum
        is an error and discards everything buffered. */
    method Extract() returns (r: Result)
      requires Valid()
      modifies this, buffer, extract
      ensures Valid() && r == Next(old(Buffered())) && Buffered() == Rest(old(Buffered()))
      ensures r.Ready? ==> |r.message| <= extract.Length && extract[..|r.message|] == r.message
    {
      hide Next, Rest, Length;
      ghost var b := Buffered();
      Parsed(b);
      if pos < HEADER {
        return NeedMore;
      }
      assert buffer[..HEADER] == b[..HEADER];
      var n := Length(buffer[..HEADER]);
      if n == 0 || n > MAX_MESSAGE {
        pos := 0;
        return Error;
      }
      var total := HEADER + n;
      if pos < total {
        return NeedMore;
      }
      forall i | 0 <= i < n {
        extract[i] := buffer[HEADER + i];
      }
      assert extract[..n] == b[HEADER..total];
      Discard(total);
      return Ready(extract[..n]);
    }

    /** Move what follows the first `total` bytes to the front. */
    method Discard(total: nat)
      requires Valid() && total <= pos
      modifies this, buffer
      ensures Valid() && Buffered() == old(Buffered())[total..]
    {
      ghost var rest := Buffered()[total..];
      var remaining := pos - total;
      forall i | 0 <= i < remaining {
        buffer[i] := buffer[total + i];
      }
      pos := remaining;
      assert |Buffered()| == |rest| && forall i :: 0 <= i < remaining ==> Buffered()[i] == rest[i];
    }

    /** Whether the next extraction would yield a message or an error. */
    method HasData() returns (has: bool)
      requires Valid()
      ensures has <==> Next(Buffered()) != NeedMore
    {
      if pos < HEADER {
        return false;
      }
      var n := Length(buffer[..HEADER]);
      assert n == Length(Buffered());
      if n == 0 || n > MAX_MESSAGE {
        return true;
      }
      return pos >= HEADER + n;
    }
  }

  // ----- The writer -----

  class Writer {
    const buffer: array<byte>
    var total: nat
    var written: nat
    ghost var frame: seq<byte>

    ghost predicate Valid()
      reads this, buffer
    {
      buffer.Length == CAPACITY && written <= total <= CAPACITY && frame == buffer[..total]
    }

    constructor ()
      ensures Valid() && frame == [] && fresh(buffer)
    {
      buffer := new byte[CAPACITY](_ => 0);
      total, written, frame := 0, 0, [];
    }

    /** Prepare a message for sending; empty and oversized messages are refused. */
    method Begin(m: seq<byte>) returns (ok: bool)
      requires Valid()
      modifies this, buffer
      ensures Valid() && (ok <==> Sendable(m)) && (ok <==> 1 <= |m| <= 4096)
      ensures ok ==> frame == Frame(m) && written == 0
      ensures !ok ==> frame == old(frame) && written == old(written)
    {
      if |m| == 0 {
        return false;
      }
      if |m| > MAX_MESSAGE {
        return false;
      }
      var h := BigEndian(|m|);
      forall i | 0 <= i < HEADER {
        buffer[i] := h[i];
      }
      forall i | 0 <= i < |m| {
        buffer[HEADER + i] := m[i];
      }
      total, written := HEADER + |m|, 0;
      frame := Frame(m);
      return true;
    }

    /** The bytes still to be sent. */
    method Remaining() returns (data: seq<byte>)
      requires Valid()
      ensures data == frame[written..]
    {
      data := buffer[written..total];
    }

    method MarkWritten(n: nat)
      requires Valid() && written + n <= total
      modifies this`written
      ensures Valid() && written == old(written) + n
    {
      written := written + n;
    }

    method IsComplete() returns (done: bool)
      requires Valid()
      ensures done <==> written == |frame|
    {
      done := written >= total;
    }
  }

  /** Frame a message in one piece. */
  method FrameMessage(m: seq<byte>, out: array<byte>) returns (ok: bool, len: nat)
    requires Sendable(m) ==> out.Length >= HEADER + |m|
    modifies out
    ensures (ok <==> Sendable(m)) && (ok <==> 1 <= |m| <= 4096)
    ensures ok ==> len == |Frame(m)| <= out.Length && out[..len] == Frame(m)
  {
    if |m| == 0 || |m| > MAX_MESSAGE {
      return false, 0;
    }
    var h := BigEndian(|m|);
    forall i | 0 <= i < HEADER {
      out[i] := h[i];
    }
    forall i | 0 <= i < |m| {
      out[HEADER + i] := m[i];
    }
    return true, HEADER + |m|;
  }

  // ----- Sending -----

  /** Send one message through any pattern of partial writes: the transport accepts
      `accepts[0]` bytes, then `accepts[1]`, and so on, then everything. */
  method Send(w: Writer, m: seq<byte>, accepts: seq<nat>) returns (sent: seq<byte>)
    requires w.Valid() && Sendable(m)
    modifies w, w.buffer
    ensures w.Valid() && sent == Frame(m)
  {
    var ok := w.Begin(m);
    sent := [];
    var i := 0;
    var done := w.IsComplete();
    while !done
      invariant w.Valid() && w.frame == Frame(m) && sent == Frame(m)[..w.written] && (done <==> w.written == |w.frame|)
      decreases if i < |accepts| then |accepts| - i else 0, !done
    {
      var data := w.Remaining();
      var n := if i < |accepts| && accepts[i] < |data| then accepts[i] else |data|;
      sent := sent + data[..n];
      w.MarkWritten(n);
      i := i + 1;
      done := w.IsComplete();
    }
  }

  /** Send a list of messages, each with its own pattern of partial writes. */
  method SendAll(w: Writer, ms: seq<seq<byte>>, accepts: seq<seq<nat>>) returns (wire: seq<byte>)
    requires w.Valid() && |accepts| == |ms| && forall i :: 0 <= i < |ms| ==> Sendable(ms[i])
    modifies w, w.buffer
    ensures w.Valid() && wire == Wire(ms)
  {
    wire := [];
    for i := 0 to |ms|
      invariant w.Valid() && wire == Wire(ms[..i])
    {
      var sent := Send(w, ms[i], accepts[i]);
      WireSnoc(ms, i);
      wire := wire + sent;
    }
    assert ms[..|ms|] == ms;
  }

  lemma {:induction false} WireSnoc(ms: seq<seq<byte>>, i: nat)
    requires i < |ms| && forall j :: 0 <= j < |ms| ==> Sendable(ms[j])
    ensures Wire(ms[..i + 1]) == Wire(ms[..i]) + Frame(ms[i])
    decreases i
  {
    if i == 0 {
      assert ms[..1][1..] == [];
      assert Frame(ms[0]) + [] == [] + Frame(ms[0]);
    } else {
      WireSnoc(ms[1..], i - 1);
      assert ms[..i + 1][1..] == ms[1..][..i] && ms[..i][1..] == ms[1..][..i - 1];
      assert Frame(ms[0]) + (Wire(ms[1..][..i - 1]) + Frame(ms[i])) == (Frame(ms[0]) + Wire(ms[1..][..i - 1])) + Frame(ms[i]);
    }
  }

  // ----- Receiving -----

  /** Whatever the bytes are, a reader that asks for more holds at most 4099 of them, so
      at least 257 more fit and feeding always makes progress. */
  lemma NeedMoreRoom(b: seq<byte>)
    requires Next(b) == NeedMore
    ensures |b| <= 4099 && CAPACITY - |b| >= 257
  {
  }

  /** A stream of whole frames, the last of which may have been cut short by the sender. */
  /** Both bounds are met. */
  lemma NeedMoreMost() returns (b: seq<byte>)
    ensures Next(b) == NeedMore && |b| == 4099 && CAPACITY - |b| == 257
  {
    b := [0, 0, 16, 0] + seq(4095, _ => 0);
    ReadsLength(b);
  }

  ghost predicate Stream(ms: seq<seq<byte>>, last: seq<byte>, cut: nat) {
    (forall i :: 0 <= i < |ms| ==> Sendable(ms[i])) && Sendable(last) && cut < |Frame(last)|
  }

  /** After `k` messages, what is buffered and what is still to come are the rest of the stream. */
  ghost predicate OnTrack(ms: seq<seq<byte>>, last: seq<byte>, cut: nat, k: nat, b: seq<byte>, later: seq<byte>)
    requires Stream(ms, last, cut)
    ensures OnTrack(ms, last, cut, k, b, later) ==> k <= |ms|
  {
    k <= |ms| && b + later == Wire(ms[k..]) + Frame(last)[..cut]
  }

  lemma TrackNext(ms: seq<seq<byte>>, last: seq<byte>, cut: nat, k: nat, b: seq<byte>, later: seq<byte>)
    requires Stream(ms, last, cut) && OnTrack(ms, last, cut, k, b, later)
    ensures if k < |ms| && |b| >= |Frame(ms[k])| then
              Next(b) == Ready(ms[k]) && OnTrack(ms, last, cut, k + 1, Rest(b), later)
            else Next(b) == NeedMore && Rest(b) == b
  {
    var end := Frame(last)[..cut];
    if k < |ms| {
      var tail := Wire(ms[k + 1..]) + end;
      assert ms[k..][1..] == ms[k + 1..];
      assert Wire(ms[k..]) + end == Frame(ms[k]) + tail;
      NextFrame(ms[k], b, later, tail);
    } else {
      var later' := later + Frame(last)[cut..];
      assert Wire(ms[k..]) + end == end;
      assert b + later' == (b + later) + Frame(last)[cut..] == Frame(last) + [];
      NextFrame(last, b, later', []);
    }
  }

  lemma TrackDone(ms: seq<seq<byte>>, last: seq<byte>, cut: nat, k: nat, b: seq<byte>)
    requires Stream(ms, last, cut) && OnTrack(ms, last, cut, k, b, []) && Next(b) == NeedMore
    ensures k == |ms| && b == Frame(last)[..cut]
  {
    TrackNext(ms, last, cut, k, b, []);
    assert b + [] == b;
  }

  /** Extract until more data is needed. */
  method Drain(r: Reader, ghost ms: seq<seq<byte>>, ghost last: seq<byte>, ghost cut: nat, ghost k: nat, ghost later: seq<byte>)
    returns (got: seq<seq<byte>>, ok: bool)
    requires r.Valid() && Stream(ms, last, cut) && OnTrack(ms, last, cut, k, r.Buffered(), later)
    modifies r, r.buffer, r.extract
    ensures r.Valid() && ok && k + |got| <= |ms| && got == ms[k..k + |got|]
    ensures OnTrack(ms, last, cut, k + |got|, r.Buffered(), later) && Next(r.Buffered()) == NeedMore
  {
    got, ok := [], true;
    while true
      invariant r.Valid() && ok && k + |got| <= |ms| && got == ms[k..k + |got|]
      invariant OnTrack(ms, last, cut, k + |got|, r.Buffered(), later)
      decreases |ms| - |got|
    {
      TrackNext(ms, last, cut, k + |got|, r.Buffered(), later);
      var next := r.Extract();
      if next.Error? {
        ok := false;
        return;
      }
      if next.NeedMore? {
        return;
      }
      got := got + [next.message];
    }
  }

  /** Moving bytes from what is to come into the buffer keeps the reader on track. */
  lemma TrackAppend(ms: seq<seq<byte>>, last: seq<byte>, cut: nat, k: nat, b: seq<byte>, rest: seq<byte>, later: seq<byte>, n: nat)
    requires Stream(ms, last, cut) && OnTrack(ms, last, cut, k, b, rest + later) && n <= |rest|
    ensures OnTrack(ms, last, cut, k, b + rest[..n], rest[n..] + later)
  {
    assert (b + rest[..n]) + (rest[n..] + later) == b + (rest + later);
  }

  lemma SliceJoin<T>(s: seq<T>, k: nat, m: nat, n: nat)
    requires k <= m <= n <= |s|
    ensures s[k..m] + s[m..n] == s[k..n]
  {
  }

  /** Feed one chunk, re-feeding whatever the reader had no room for. */
  method Feed(r: Reader, chunk: seq<byte>, ghost ms: seq<seq<byte>>, ghost last: seq<byte>, ghost cut: nat,
              ghost k: nat, ghost later: seq<byte>)
    returns (got: seq<seq<byte>>, ok: bool)
    requires r.Valid() && Stream(ms, last, cut) && OnTrack(ms, last, cut, k, r.Buffered(), chunk + later)
    requires Next(r.Buffered()) == NeedMore
    modifies r, r.buffer, r.extract
    ensures r.Valid() && ok && k + |got| <= |ms| && got == ms[k..k + |got|]
    ensures OnTrack(ms, last, cut, k + |got|, r.Buffered(), later) && Next(r.Buffered()) == NeedMore
  {
    hide OnTrack, Stream, Next, Rest, Wire, Frame, Sendable;
    got, ok := [], true;
    var rest := chunk;
    while rest != []
      invariant r.Valid() && ok && k + |got| <= |ms| && got == ms[k..k + |got|] && Next(r.Buffered()) == NeedMore
      invariant OnTrack(ms, last, cut, k + |got|, r.Buffered(), rest + later)
      decreases |rest|
    {
      NeedMoreRoom(r.Buffered());
      ghost var b := r.Buffered();
      var n := r.Append(rest);
      TrackAppend(ms, last, cut, k + |got|, b, rest, later, n);
      rest := rest[n..];
      var more;
      more, ok := Drain(r, ms, last, cut, k + |got|, rest + later);
      SliceJoin(ms, k, k + |got|, k + |got| + |more|);
      got := got + more;
    }
    assert [] + later == later;
  }

  ghost function Joined(chunks: seq<seq<byte>>): seq<byte> {
    if chunks == [] then [] else chunks[0] + Joined(chunks[1..])
  }

  /** However the stream is cut into chunks, the reader yields exactly the messages that
      were framed, in order, and holds on to the unfinished frame. */
  method Receive(r: Reader, chunks: seq<seq<byte>>, ghost ms: seq<seq<byte>>, ghost last: seq<byte>, ghost cut: nat)
    returns (got: seq<seq<byte>>, ok: bool)
    requires r.Valid() && r.Buffered() == [] && Stream(ms, last, cut)
    requires Joined(chunks) == Wire(ms) + Frame(last)[..cut]
    modifies r, r.buffer, r.extract
    ensures ok && got == ms && r.Valid() && r.Buffered() == Frame(last)[..cut]
  {
    got, ok := [], true;
    assert chunks[0..] == chunks && ms[0..] == ms;
    for i := 0 to |chunks|
      invariant r.Valid() && ok && |got| <= |ms| && got == ms[..|got|] && Next(r.Buffered()) == NeedMore
      invariant OnTrack(ms, last, cut, |got|, r.Buffered(), Joined(chunks[i..]))
    {
      assert chunks[i..][1..] == chunks[i + 1..];
      var more;
      more, ok := Feed(r, chunks[i], ms, last, cut, |got|, Joined(chunks[i + 1..]));
      got := got + more;
    }
    TrackDone(ms, last, cut, |got|, r.Buffered());
  }

  /** The round trip: messages sent through any partial writes and received in any chunks. */
  method RoundTrip(ms: seq<seq<byte>>, accepts: seq<seq<nat>>, cuts: seq<nat>) returns (got: seq<seq<byte>>)
    requires |accepts| == |ms| && forall i :: 0 <= i < |ms| ==> Sendable(ms[i])
    ensures got == ms
  {
    var w := new Writer();
    var wire := SendAll(w, ms, accepts);
    var chunks := Cut(wire, cuts);
    var r := new Reader();
    var ok;
    assert Frame([0])[..0] == [];
    got, ok := Receive(r, chunks, ms, [0], 0);
  }

  /** Cut a stream into chunks of the given sizes, the rest in one piece. */
  method Cut(s: seq<byte>, cuts: seq<nat>) returns (chunks: seq<seq<byte>>)
    ensures Joined(chunks) == s
  {
    chunks := [];
    var rest := s;
    for i := 0 to |cuts|
      invariant Joined(chunks) + rest == s
    {
      var n := if cuts[i] < |rest| then cuts[i] else |rest|;
      JoinedSnoc(chunks, rest[..n]);
      assert rest == rest[..n] + rest[n..];
      chunks, rest := chunks + [rest[..n]], rest[n..];
    }
    JoinedSnoc(chunks, rest);
    chunks := chunks + [rest];
  }

  lemma {:induction false} JoinedSnoc(chunks: seq<seq<byte>>, c: seq<byte>)
    ensures Joined(chunks + [c]) == Joined(chunks) + c
  {
    if chunks == [] {
      assert (chunks + [c])[1..] == [];
    } else {
      JoinedSnoc(chunks[1..], c);
      assert (chunks + [c])[0] == chunks[0] && (chunks + [c])[1..] == chunks[1..] + [c];
    }
  }
}
