/** The circular receive buffer of include/ring_buffer.h as a first-in first-out
    queue of bytes, and the receive window that tcp_sock_read derives from it. */
module RingBuffers {
  import opened Base

  /** memcpy of n bytes between different buffers */
  method Copy(dst: array<byte>, to: nat, src: array<byte>, from: nat, n: nat)
    requires dst != src && to + n <= dst.Length && from + n <= src.Length
    modifies dst
    ensures forall j :: 0 <= j < dst.Length ==> dst[j] == if to <= j < to + n then src[from + (j - to)] else old(dst[j])
  {
    forall i | 0 <= i < n {
      dst[to + i] := src[from + i];
    }
  }

  function Min(x: int, y: int): int {
    if x < y then x else y
  }

  /** The bytes of a circular buffer from head up to tail. */
  function Between(s: seq<byte>, head: nat, tail: nat): seq<byte>
    requires head < |s| && tail < |s|
  {
    if head <= tail then s[head..tail] else s[head..] + s[..tail]
  }

  /** Position p of a circular buffer, which may lie past its end. */
  function Wrap(p: nat, size: nat): nat
    requires p < 2 * size
    ensures Wrap(p, size) < size
  {
    if p < size then p else p - size
  }

  lemma ModIsWrap(p: nat, size: nat)
    requires p < 2 * size
    ensures p % size == Wrap(p, size)
  {
  }

  /** How many steps forward lead from tail to j. */
  function Steps(tail: nat, j: nat, size: nat): nat
    requires tail < size && j < size
  {
    if j >= tail then j - tail else j - tail + size
  }

  lemma BetweenLength(s: seq<byte>, head: nat, tail: nat)
    requires head < |s| && tail < |s|
    ensures |Between(s, head, tail)| == Steps(head, tail, |s|) == (tail - head + |s|) % |s|
    ensures forall i :: 0 <= i < Steps(head, tail, |s|) ==> Between(s, head, tail)[i] == s[Wrap(head + i, |s|)]
  {
    ModIsWrap(tail - head + |s|, |s|);
  }

  /** Taking len bytes off the front moves the head, around the end if need be. */
  lemma DropFront(s: seq<byte>, head: nat, tail: nat, len: nat)
    requires head < |s| && tail < |s| && len <= |Between(s, head, tail)|
    ensures head + len < 2 * |s|
    ensures Between(s, Wrap(head + len, |s|), tail) == Between(s, head, tail)[len..]
  {
    BetweenLength(s, head, tail);
    BetweenLength(s, Wrap(head + len, |s|), tail);
  }

  /** t is s with b written after the tail, around the end if need be. */
  ghost predicate WrittenAt(s: seq<byte>, t: seq<byte>, tail: nat, b: seq<byte>)
    requires tail < |s| && |b| <= |s|
  {
    |t| == |s| && forall j :: 0 <= j < |s| ==>
      t[j] == if Steps(tail, j, |s|) < |b| then b[Steps(tail, j, |s|)] else s[j]
  }

  /** Writing after the tail appends. */
  lemma AppendBack(s: seq<byte>, t: seq<byte>, head: nat, tail: nat, b: seq<byte>)
    requires head < |s| && tail < |s| && |Between(s, head, tail)| + |b| < |s|
    requires WrittenAt(s, t, tail, b)
    ensures Between(t, head, Wrap(tail + |b|, |s|)) == Between(s, head, tail) + b
  {
    var tail' := Wrap(tail + |b|, |s|);
    BetweenLength(s, head, tail);
    BetweenLength(t, head, tail');
    var u := Steps(head, tail, |s|);
    assert Steps(head, tail', |s|) == u + |b|;
    forall i | 0 <= i < u + |b| ensures t[Wrap(head + i, |s|)] == (Between(s, head, tail) + b)[i] {
      if i < u {
        assert Steps(tail, Wrap(head + i, |s|), |s|) >= |b|;
      } else {
        assert Steps(tail, Wrap(head + i, |s|), |s|) == i - u;
      }
    }
  }

  class RingBuffer {
    const size: nat
    const buf: array<byte>
    var head: nat
    var tail: nat
    ghost var written: seq<byte>
    ghost var taken: seq<byte>

    /** Everything written so far has been read or is still in the buffer, in order. */
    ghost predicate Valid()
      reads this, buf
    {
      && buf.Length == size && head < size && tail < size
      && written == taken + Contents()
    }

    ghost function Contents(): seq<byte>
      requires buf.Length == size && head < size && tail < size
      reads this, buf
    {
      Between(buf[..], head, tail)
    }

    function Used(): int
      requires size > 0
      reads this
    {
      (tail - head + size) % size
    }

    function Free(): int
      requires size > 0
      reads this
    {
      size - Used() - 1
    }

    constructor (capacity: nat)
      ensures Valid() && size == capacity + 1 && Contents() == [] && written == [] && fresh(buf)
    {
      size := capacity + 1;
      buf := new byte[capacity + 1](_ => 0);
      head, tail := 0, 0;
      written, taken := [], [];
    }

    /** The space accounts for the contents and nothing else. */
    lemma Space()
      requires Valid()
      ensures Used() == |Contents()| && Free() + Used() == size - 1 && 0 <= Free()
    {
      BetweenLength(buf[..], head, tail);
    }

    /** The copies of read_ring_buffer: two when the bytes wrap around. */
    method CopyOut(dst: array<byte>, len: nat)
      requires Valid() && dst != buf && len <= dst.Length && len <= |Contents()|
      modifies dst
      ensures dst[..] == Contents()[..len] + old(dst[..])[len..]
    {
      BetweenLength(buf[..], head, tail);
      if head + len > size {
        var right := size - head;
        var left := len - right;
        Copy(dst, 0, buf, head, right);
        Copy(dst, right, buf, 0, left);
      } else {
        Copy(dst, 0, buf, head, len);
      }
      ghost var c := Contents();
      assert forall i :: 0 <= i < len ==> dst[i] == c[i];
    }

    /** The copies of write_ring_buffer. */
    method CopyIn(src: array<byte>, n: nat)
      requires buf.Length == size && tail < size && src != buf && n <= src.Length && n <= size
      modifies buf
      ensures WrittenAt(old(buf[..]), buf[..], tail, src[..n])
    {
      if tail + n > size {
        var right := size - tail;
        var left := n - right;
        Copy(buf, tail, src, 0, right);
        Copy(buf, 0, src, right, left);
      } else {
        Copy(buf, tail, src, 0, n);
      }
    }

    /** read_ring_buffer */
    method Read(dst: array<byte>, n: int) returns (len: int)
      requires Valid() && dst != buf && Min(|Contents()|, n) <= dst.Length
      modifies this`head, this`taken, dst
      ensures Valid() && written == old(written)
      ensures len == Min(|old(Contents())|, n)
      ensures len <= 0 ==> Contents() == old(Contents()) && taken == old(taken) && dst[..] == old(dst[..])
      ensures len > 0 ==> Contents() == old(Contents())[len..] && taken == old(taken) + old(Contents())[..len]
      ensures len > 0 ==> dst[..] == old(Contents())[..len] + old(dst[..])[len..]
    {
      Space();
      len := Min(Used(), n);
      if len > 0 {
        CopyOut(dst, len);
        Skip(len);
      }
    }

    /** The head moves past len bytes, which count as taken. */
    method Skip(len: nat)
      requires Valid() && len <= |Contents()|
      modifies this`head, this`taken
      ensures Valid() && Contents() == old(Contents())[len..] && taken == old(taken) + old(Contents())[..len]
    {
      ghost var c := Contents();
      DropFront(buf[..], head, tail, len);
      ModIsWrap(head + len, size);
      assert taken + c == (taken + c[..len]) + c[len..];
      taken := taken + c[..len];
      head := (head + len) % size;
    }

    /** write_ring_buffer, whose assertion is the precondition */
    method Write(src: array<byte>, n: nat)
      requires Valid() && src != buf && 0 < n <= src.Length && n <= Free()
      modifies this`tail, this`written, buf
      ensures Valid() && taken == old(taken)
      ensures Contents() == old(Contents()) + src[..n] && written == old(written) + src[..n]
    {
      Space();
      ghost var s := buf[..];
      CopyIn(src, n);
      AppendBack(s, buf[..], head, tail, src[..n]);
      ModIsWrap(tail + n, size);
      written := written + src[..n];
      tail := (tail + n) % size;
    }
  }

  // The receive window

  const CAPACITY: nat := 65535

  /** Window and contents fill the capacity again after the 16-bit addition,
      unless a negative size was asked for. */
  lemma WindowSum(wnd: u16, used: nat, size: int)
    requires wnd + used == CAPACITY
    ensures var len := Min(used, size);
      && (size >= 0 ==> (wnd + len) % TWO16 == wnd + len == CAPACITY - (used - len))
      && (size < 0 ==> len == size && ((wnd + len) % TWO16 == wnd <==> size % TWO16 == 0))
  {
    if size < 0 {
      assert (wnd + size) % TWO16 == (wnd + size % TWO16) % TWO16;
    } else {
      assert 0 <= wnd + Min(used, size) < TWO16;
    }
  }

  /** What tcp_sock keeps for reading: the buffer and the advertised window. */
  class Receiver {
    const ring: RingBuffer
    var rcvWnd: u16

    ghost predicate Valid()
      reads this, ring, ring.buf
    {
      ring.Valid() && ring.size == CAPACITY + 1
    }

    /** The window is exactly the room that the contents leave. */
    ghost predicate WindowExact()
      requires Valid()
      reads this, ring, ring.buf
    {
      rcvWnd + |ring.Contents()| == CAPACITY
    }

    /** That room is what ring_buffer_free computes. */
    lemma WindowIsFree()
      requires Valid()
      ensures WindowExact() <==> rcvWnd == ring.Free()
    {
      ring.Space();
    }

    constructor ()
      ensures Valid() && WindowExact() && ring.written == [] && ring.Contents() == [] && fresh(ring) && fresh(ring.buf)
    {
      ring := new RingBuffer(CAPACITY);
      rcvWnd := CAPACITY;
    }

    /** Data arriving within the window; the environment's step. */
    method Deliver(src: array<byte>, k: nat)
      requires Valid() && WindowExact() && src != ring.buf && 0 < k <= src.Length && k <= rcvWnd
      modifies this, ring, ring.buf
      ensures Valid() && WindowExact()
      ensures ring.Contents() == old(ring.Contents()) + src[..k]
      ensures ring.written == old(ring.written) + src[..k] && ring.taken == old(ring.taken)
      ensures rcvWnd == old(rcvWnd) - k
    {
      ring.Space();
      ring.Write(src, k);
      rcvWnd := rcvWnd - k;
    }

    /** tcp_sock_read, which returns the new window. For a size that is not
        negative the 16-bit sum does not wrap and the window stays exact; a
        negative size is taken off the window instead. */
    method Read(dst: array<byte>, size: int) returns (r: int)
      requires Valid() && WindowExact() && dst != ring.buf && Min(|ring.Contents()|, size) <= dst.Length
      modifies this, ring`head, ring`taken, dst
      ensures Valid() && r == rcvWnd && ring.written == old(ring.written)
      ensures WindowExact() <==> size >= 0 || size % TWO16 == 0
      ensures size >= 0 ==> var k := Min(|old(ring.Contents())|, size);
        && r == old(rcvWnd) + k && ring.Contents() == old(ring.Contents())[k..]
        && ring.taken == old(ring.taken) + old(ring.Contents())[..k]
        && dst[..] == old(ring.Contents())[..k] + old(dst[..])[k..]
      ensures size < 0 ==>
        ring.Contents() == old(ring.Contents()) && ring.taken == old(ring.taken) && dst[..] == old(dst[..])
    {
      WindowSum(rcvWnd, |ring.Contents()|, size);
      var len := ring.Read(dst, size);
      rcvWnd := (rcvWnd + len) % TWO16;
      r := rcvWnd;
    }
  }

  // Runs of arrivals and reads

  /** What happens to a receiver: bytes come in, or the application asks for some. */
  datatype Event = Arrives(bytes: seq<byte>) | Asks(size: nat)

  /** The plain queue of a run: what is queued, and what has been handed out. */
  datatype Fifo = Fifo(queue: seq<byte>, out: seq<byte>)

  /** Bytes arrive if the window has room for them; a read takes from the front. */
  function Step(q: Fifo, e: Event): Fifo {
    match e
    case Arrives(bytes) => if 0 < |bytes| <= CAPACITY - |q.queue| then q.(queue := q.queue + bytes) else q
    case Asks(size) =>
      var k := Min(|q.queue|, size);
      Fifo(q.queue[k..], q.out + q.queue[..k])
  }

  function Run(events: seq<Event>): Fifo {
    if events == [] then Fifo([], []) else Step(Run(events[..|events| - 1]), events[|events| - 1])
  }

  /** The bytes of the arrivals that the window had room for, in order */
  function Arrived(events: seq<Event>): seq<byte> {
    if events == [] then []
    else
      var e, before := events[|events| - 1], events[..|events| - 1];
      Arrived(before) + if e.Arrives? && 0 < |e.bytes| <= CAPACITY - |Run(before).queue| then e.bytes else []
  }

  /** Nothing is lost, doubled or reordered on the way through the queue. */
  lemma {:induction false} AllPassThrough(events: seq<Event>)
    ensures Run(events).out + Run(events).queue == Arrived(events)
  {
    if events != [] {
      var q, e := Run(events[..|events| - 1]), events[|events| - 1];
      AllPassThrough(events[..|events| - 1]);
      if e.Asks? {
        var k := Min(|q.queue|, e.size);
        assert q.queue == q.queue[..k] + q.queue[k..];
      }
    }
  }

  /** An arrival that the window has room for, or none */
  method Arrive(r: Receiver, bytes: seq<byte>)
    requires r.Valid() && r.WindowExact()
    modifies r, r.ring, r.ring.buf
    ensures r.Valid() && r.WindowExact()
    ensures r.ring.Contents() ==
      old(r.ring.Contents()) + if 0 < |bytes| <= CAPACITY - |old(r.ring.Contents())| then bytes else []
  {
    if 0 < |bytes| && |bytes| <= r.rcvWnd {
      var src := new byte[|bytes|](i requires 0 <= i < |bytes| => bytes[i]);
      assert src[..|bytes|] == bytes;
      r.Deliver(src, |bytes|);
    }
  }

  /** The application's side of tcp_sock_read: a destination of the size it asks
      for, of which it keeps as many bytes as the returned window has grown. */
  method Ask(r: Receiver, size: nat) returns (bytes: seq<byte>)
    requires r.Valid() && r.WindowExact()
    modifies r, r.ring, r.ring.buf
    ensures r.Valid() && r.WindowExact()
    ensures var k := Min(|old(r.ring.Contents())|, size);
      bytes == old(r.ring.Contents())[..k] && r.ring.Contents() == old(r.ring.Contents())[k..]
  {
    var before := r.rcvWnd;
    var dst := new byte[size](_ => 0);
    var after := r.Read(dst, size);
    bytes := dst[..after - before];
  }

  /** Any run of arrivals and reads: what the application has got, followed by
      what is still in the buffer, is what has arrived. */
  method Transfer(events: seq<Event>) returns (r: Receiver, got: seq<byte>)
    ensures r.Valid() && r.WindowExact()
    ensures Fifo(r.ring.Contents(), got) == Run(events) && got + r.ring.Contents() == Arrived(events)
  {
    r := new Receiver();
    got := [];
    for i := 0 to |events|
      invariant fresh(r) && fresh(r.ring) && fresh(r.ring.buf)
      invariant r.Valid() && r.WindowExact() && Fifo(r.ring.Contents(), got) == Run(events[..i])
    {
      assert events[..i + 1][..i] == events[..i];
      match events[i]
      case Arrives(bytes) => Arrive(r, bytes);
      case Asks(size) =>
        var bytes := Ask(r, size);
        got := got + bytes;
    }
    assert events[..|events|] == events;
    AllPassThrough(events);
  }
}
