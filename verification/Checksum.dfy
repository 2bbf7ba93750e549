/** The Internet checksum of include/checksum.h against RFC 1071, and the TCP
    checksum of include/tcp.h against section 3.1 of RFC 9293. */
module Checksum {
  import opened Base

  const ONES: int := 65535

  // RFC 1071

  /** One's complement addition: a carry out of 16 bits comes back in. */
  function OnesAdd(x: u16, y: u16): u16 {
    if x + y > ONES then x + y - ONES else x + y
  }

  function OnesSum(ws: seq<u16>): u16 {
    if ws == [] then 0 else OnesAdd(OnesSum(ws[..|ws| - 1]), ws[|ws| - 1])
  }

  /** The 16-bit words of a buffer as a little-endian host reads them; an odd
      last byte is padded with zero. */
  function Words(b: seq<byte>): seq<u16> {
    if |b| == 0 then []
    else if |b| == 1 then [b[0]]
    else [Word(b[0], b[1])] + Words(b[2..])
  }

  function Word(lo: int, hi: int): int {
    lo + 256 * hi
  }

  function Total(ws: seq<u16>): nat {
    if ws == [] then 0 else Total(ws[..|ws| - 1]) + ws[|ws| - 1]
  }

  /** The 16-bit value that represents a total in one's complement: carries come
      back in until none is left. */
  function Canonical(t: nat): u16 {
    if t <= ONES then t else Canonical(t - ONES)
  }

  /** Equal modulo 65535 */
  predicate Congruent(a: int, b: int)
    decreases if a > b then a - b else b - a
  {
    if a - b >= ONES then Congruent(a - ONES, b)
    else if b - a >= ONES then Congruent(a + ONES, b)
    else a == b
  }

  lemma {:induction false} Quotient(a: int, b: int) returns (k: int)
    requires Congruent(a, b)
    ensures a - b == ONES * k
    decreases if a > b then a - b else b - a
  {
    if a - b >= ONES {
      k := Quotient(a - ONES, b);
      k := k + 1;
    } else if b - a >= ONES {
      k := Quotient(a + ONES, b);
      k := k - 1;
    } else {
      k := 0;
    }
  }

  lemma {:induction false} CongruentBy(a: int, b: int, k: int)
    requires a - b == ONES * k
    ensures Congruent(a, b)
    decreases if k < 0 then -k else k
  {
    if k > 0 {
      CongruentBy(a - ONES, b, k - 1);
    } else if k < 0 {
      CongruentBy(a + ONES, b, k + 1);
    }
  }

  lemma {:induction false} CanonicalClass(t: nat)
    ensures Congruent(Canonical(t), t) && (Canonical(t) == 0 <==> t == 0)
    decreases t
  {
    if t > ONES {
      CanonicalClass(t - ONES);
      var k := Quotient(Canonical(t - ONES), t - ONES);
      CongruentBy(Canonical(t), t, k - 1);
    }
  }

  /** Canonical is the one value of its class that is zero only for zero. */
  lemma CanonicalUnique(t: nat, v: u16)
    ensures v == Canonical(t) <==> Congruent(v, t) && (v == 0 <==> t == 0)
  {
    CanonicalClass(t);
    if Congruent(v, t) && (v == 0 <==> t == 0) {
      var j := Quotient(v, t);
      var k := Quotient(Canonical(t), t);
      assert v - Canonical(t) == ONES * (j - k);
    }
  }

  lemma {:induction false} OnesSumIsCanonical(ws: seq<u16>)
    ensures OnesSum(ws) == Canonical(Total(ws))
  {
    if ws != [] {
      OnesSumIsCanonical(ws[..|ws| - 1]);
      OnesAddCanonical(Total(ws[..|ws| - 1]), ws[|ws| - 1]);
    }
  }

  lemma OnesAddCanonical(t: nat, w: u16)
    ensures OnesAdd(Canonical(t), w) == Canonical(t + w)
  {
    CanonicalClass(t);
    var k := Quotient(Canonical(t), t);
    var v := OnesAdd(Canonical(t), w);
    CongruentBy(v, t + w, if Canonical(t) + w > ONES then k - 1 else k);
    CanonicalUnique(t + w, v);
  }

  // Order and byte order do not matter

  lemma {:induction false} TotalAppend(a: seq<u16>, b: seq<u16>)
    ensures Total(a + b) == Total(a) + Total(b)
  {
    if b == [] {
      assert a + b == a;
    } else {
      assert (a + b)[..|a + b| - 1] == a + b[..|b| - 1];
      TotalAppend(a, b[..|b| - 1]);
    }
  }

  lemma {:induction false} TotalPermuted(a: seq<u16>, b: seq<u16>)
    requires multiset(a) == multiset(b)
    ensures Total(a) == Total(b)
    decreases |a|
  {
    if a == [] {
      assert |multiset(b)| == 0;
    } else {
      var x := a[|a| - 1];
      assert a == a[..|a| - 1] + [x];
      assert x in multiset(b);
      var i :| 0 <= i < |b| && b[i] == x;
      var rest := b[..i] + b[i + 1..];
      assert b == b[..i] + [x] + b[i + 1..];
      assert multiset(a[..|a| - 1]) == multiset(a) - multiset{x};
      assert multiset(rest) == multiset(b) - multiset{x};
      TotalPermuted(a[..|a| - 1], rest);
      TotalAppend(b[..i] + [x], b[i + 1..]);
      TotalAppend(b[..i], [x]);
      TotalAppend(b[..i], b[i + 1..]);
      assert Total([x]) == x by { assert [x][..0] == []; }
    }
  }

  lemma OrderIndependent(a: seq<u16>, b: seq<u16>)
    requires multiset(a) == multiset(b)
    ensures OnesSum(a) == OnesSum(b)
  {
    TotalPermuted(a, b);
    OnesSumIsCanonical(a);
    OnesSumIsCanonical(b);
  }

  function Swap(w: u16): u16 {
    w % 256 * 256 + w / 256
  }

  function SwapAll(ws: seq<u16>): seq<u16> {
    if ws == [] then [] else SwapAll(ws[..|ws| - 1]) + [Swap(ws[|ws| - 1])]
  }

  /** Swapping the bytes of a word multiplies it by 256, modulo 65535. */
  lemma SwapScales(w: u16)
    ensures Congruent(Swap(w), 256 * (w as int)) && (Swap(w) == 0 <==> w == 0)
  {
    CongruentBy(Swap(w), 256 * (w as int), -(w / 256));
  }

  lemma {:induction false} SwapTotal(ws: seq<u16>)
    ensures Congruent(Total(SwapAll(ws)), 256 * Total(ws)) && (Total(SwapAll(ws)) == 0 <==> Total(ws) == 0)
  {
    if ws != [] {
      SwapTotal(ws[..|ws| - 1]);
      SwapScales(ws[|ws| - 1]);
      ScaledOneMore(Total(SwapAll(ws[..|ws| - 1])), Total(ws[..|ws| - 1]), Swap(ws[|ws| - 1]), ws[|ws| - 1]);
      SwapAllLast(ws);
    }
  }

  lemma ScaledOneMore(swapped: nat, t: nat, v: nat, w: nat)
    requires Congruent(swapped, 256 * t) && (swapped == 0 <==> t == 0)
    requires Congruent(v, 256 * w) && (v == 0 <==> w == 0)
    ensures Congruent(swapped + v, 256 * (t + w)) && (swapped + v == 0 <==> t + w == 0)
  {
    AddCongruent(swapped, 256 * t, v, 256 * w);
  }

  lemma SwapAllLast(ws: seq<u16>)
    requires ws != []
    ensures Total(SwapAll(ws)) == Total(SwapAll(ws[..|ws| - 1])) + Swap(ws[|ws| - 1])
  {
    assert SwapAll(ws)[..|SwapAll(ws)| - 1] == SwapAll(ws[..|ws| - 1]);
  }

  /** The sum of byte-swapped words is the byte-swapped sum. */
  lemma ByteOrderIndependent(ws: seq<u16>)
    ensures OnesSum(SwapAll(ws)) == Swap(OnesSum(ws))
  {
    OnesSumIsCanonical(ws);
    OnesSumIsCanonical(SwapAll(ws));
    SwapTotal(ws);
    SwapScales(OnesSum(ws));
    CanonicalUnique(Total(ws), OnesSum(ws));
    ScaleCongruent(OnesSum(ws), Total(ws));
    JoinCongruent(Swap(OnesSum(ws)), 256 * (OnesSum(ws) as int), 256 * Total(ws));
    JoinCongruent(Swap(OnesSum(ws)), 256 * Total(ws), Total(SwapAll(ws)));
    CanonicalUnique(Total(SwapAll(ws)), Swap(OnesSum(ws)));
  }

  lemma ScaleCongruent(a: int, b: int)
    requires Congruent(a, b)
    ensures Congruent(256 * a, 256 * b)
  {
    var k := Quotient(a, b);
    CongruentBy(256 * a, 256 * b, 256 * k);
  }

  lemma JoinCongruent(a: int, b: int, c: int)
    requires Congruent(a, b) && (Congruent(b, c) || Congruent(c, b))
    ensures Congruent(a, c)
  {
    var k := Quotient(a, b);
    if Congruent(b, c) {
      var j := Quotient(b, c);
      CongruentBy(a, c, k + j);
    } else {
      var j := Quotient(c, b);
      CongruentBy(a, c, k - j);
    }
  }

  lemma AddCongruent(a: int, b: int, c: int, d: int)
    requires Congruent(a, b) && Congruent(c, d)
    ensures Congruent(a + c, b + d)
  {
    var j := Quotient(a, b);
    var k := Quotient(c, d);
    CongruentBy(a + c, b + d, j + k);
  }

  lemma ShiftCongruent(a: int, b: int, d: int)
    requires Congruent(a, b)
    ensures Congruent(a + d, b + d)
  {
    AddCongruent(a, b, d, d);
  }

  // The C function

  /** sum = (sum >> 16) + (sum & 0xffff), then sum + (sum >> 16) */
  function Folded(sum: u32): nat {
    var once := sum / TWO16 + sum % TWO16;
    once + once / TWO16
  }

  /** Two folds bring any 32-bit sum into one's complement. */
  lemma FoldedIsCanonical(sum: u32)
    ensures Folded(sum) % TWO16 == Canonical(sum)
  {
    var q, r := sum / TWO16, sum % TWO16;
    var once := q + r;
    assert sum == TWO16 * q + r && q < TWO16 && r < TWO16;
    var v := if once < TWO16 then once else once - ONES;
    FoldOnce(once);
    CongruentBy(v, sum, if once < TWO16 then -q else -q - 1);
    CanonicalUnique(sum, v);
  }

  lemma FoldOnce(once: nat)
    requires once < 2 * TWO16 - 1
    ensures (once + once / TWO16) % TWO16 == if once < TWO16 then once else once - ONES
  {
  }

  /** What checksum returns for n bytes and an initial sum. */
  function CheckValue(b: seq<byte>, sum: int): u16 {
    Finish(b, (sum + Total(Words(Even(b)))) % TWO32)
  }

  /** The whole words of a buffer. */
  function Even(b: seq<byte>): seq<byte> {
    b[..2 * (|b| / 2)]
  }

  /** From the 32-bit sum of the whole words to the result. */
  function Finish(b: seq<byte>, sum: u32): u16 {
    ONES - (Canonical(sum) + if |b| % 2 == 1 then b[|b| - 1] else 0) % TWO16
  }

  lemma {:induction false} WordsFromBack(b: seq<byte>)
    requires |b| % 2 == 0 && |b| >= 2
    ensures Words(b) == Words(b[..|b| - 2]) + [Word(b[|b| - 2], b[|b| - 1])]
    decreases |b|
  {
    if |b| > 2 {
      WordsFromBack(b[2..]);
      assert b[2..][..|b| - 4] == b[..|b| - 2][2..];
    } else {
      assert b[2..] == [] && b[..0] == [];
    }
  }

  lemma {:induction false} WordsOdd(b: seq<byte>)
    requires |b| % 2 == 1
    ensures Words(b) == Words(b[..|b| - 1]) + [b[|b| - 1] as int]
    decreases |b|
  {
    if |b| > 1 {
      WordsOdd(b[2..]);
      assert b[2..][..|b| - 3] == b[..|b| - 1][2..];
    }
  }

  /** One turn of the loop adds one word. */
  lemma WordAdded(b: seq<byte>, i: nat)
    requires 2 * i + 2 <= |b|
    ensures Total(Words(b[..2 * i + 2])) == Total(Words(b[..2 * i])) + Word(b[2 * i], b[2 * i + 1])
  {
    WordsFromBack(b[..2 * i + 2]);
    assert b[..2 * i + 2][..2 * i] == b[..2 * i];
    TotalAppend(Words(b[..2 * i]), [Word(b[2 * i], b[2 * i + 1])]);
    TotalOne(Word(b[2 * i], b[2 * i + 1]));
  }

  lemma SumWraps(a: nat, b: nat)
    ensures (a % TWO32 + b) % TWO32 == (a + b) % TWO32
  {
  }

  /** The words of n pairs of bytes from off on, added up modulo 2^32 */
  method SumWords(buf: array<byte>, off: nat, n: nat, initial: u32) returns (sum: u32)
    requires off + 2 * n <= buf.Length
    ensures sum == (initial + Total(Words(buf[off..off + 2 * n]))) % TWO32
  {
    sum := initial;
    ghost var total := initial as int;
    for i := 0 to n
      invariant sum == total % TWO32 && total == initial + Total(Words(buf[off..off + 2 * i]))
    {
      var w := Word(buf[off + 2 * i], buf[off + 2 * i + 1]);
      assert Total(Words(buf[off..off + 2 * (i + 1)])) == Total(Words(buf[off..off + 2 * i])) + w by {
        ghost var b := buf[off..off + 2 * (i + 1)];
        WordAdded(b, i);
        assert b[..2 * i] == buf[off..off + 2 * i] && b[..2 * i + 2] == b;
      }
      SumWraps(total, w);
      sum, total := (sum + w) % TWO32, total + w;
    }
  }

  /** Fold twice, then add the odd byte, if any, and complement. */
  method FoldAndFinish(sum: u32, last: byte) returns (c: u16)
    ensures c == ONES - (Canonical(sum) + last) % TWO16
  {
    FoldedIsCanonical(sum);
    LowBits(Folded(sum), last);
    var s := sum;
    s := s / TWO16 + s % TWO16;
    s := s + s / TWO16;
    s := s + last;
    c := ONES - s % TWO16;
  }

  /** checksum of nbytes bytes from off on */
  method Compute(buf: array<byte>, off: nat, nbytes: nat, initial: u32) returns (c: u16)
    requires off + nbytes <= buf.Length
    ensures c == CheckValue(buf[off..off + nbytes], initial)
  {
    var half := nbytes / 2;
    var sum := SumWords(buf, off, half, initial);
    var last: byte := if nbytes % 2 == 1 then buf[off + nbytes - 1] else 0;
    c := FoldAndFinish(sum, last);
    ghost var b := buf[off..off + nbytes];
    assert buf[off..off + 2 * half] == Even(b);
    ValueFinished(b, initial, sum, last);
  }

  lemma ValueFinished(b: seq<byte>, initial: u32, sum: u32, last: byte)
    requires sum == (initial + Total(Words(Even(b)))) % TWO32
    requires last == if |b| % 2 == 1 then b[|b| - 1] else 0
    ensures CheckValue(b, initial) == ONES - (Canonical(sum) + last) % TWO16
  {
  }

  lemma TotalOne(w: u16)
    ensures Total([w]) == w
  {
    assert [w][..0] == [];
  }

  // When it is the RFC 1071 checksum

  /** The checksum RFC 1071 asks for, for data that follows words of total sum. */
  function RfcValue(b: seq<byte>, sum: nat): u16 {
    ONES - Canonical(sum + Total(Words(b)))
  }

  /** With nothing before the data this is the complement of the one's
      complement sum of its words. */
  lemma RfcIsComplement(b: seq<byte>)
    ensures RfcValue(b, 0) == ONES - OnesSum(Words(b))
  {
    OnesSumIsCanonical(Words(b));
  }

  /** No carry is dropped: not out of the 32-bit sum, and for an odd length not
      out of 16 bits when the last byte is added after folding. */
  predicate CarriesKept(b: seq<byte>, sum: nat) {
    var t := sum + Total(Words(Even(b)));
    t < TWO32 && (|b| % 2 == 1 ==> Canonical(t) + b[|b| - 1] <= ONES)
  }

  lemma {:induction false} TotalBound(ws: seq<u16>)
    ensures Total(ws) <= ONES * |ws|
  {
    if ws != [] {
      TotalBound(ws[..|ws| - 1]);
    }
  }

  lemma {:induction false} WordsLength(b: seq<byte>)
    ensures |Words(b)| == (|b| + 1) / 2
    decreases |b|
  {
    if |b| >= 2 {
      WordsLength(b[2..]);
    }
  }

  /** Dropping 1 to 65534 carries of 2^32 or of 2^16 changes the class. */
  lemma DroppedCarries(t: nat, v: u16, k: nat)
    requires Congruent(v, t - k) && k < ONES
    ensures Congruent(v, t) <==> k == 0
  {
    var j := Quotient(v, t - k);
    if Congruent(v, t) {
      var i := Quotient(v, t);
      assert k == ONES * (j - i);
    }
  }

  lemma WrapCarries(t: nat)
    requires t < TWO32 * (ONES - 1)
    ensures t / TWO32 < ONES - 1
    ensures Congruent(Canonical(t % TWO32), t - t / TWO32)
  {
    var k, r := t / TWO32, t % TWO32;
    CanonicalClass(r);
    assert t == TWO32 * k + r;
    CongruentBy(r, t - k, -65537 * k);
    JoinCongruent(Canonical(r), r, t - k);
  }

  lemma TotalEven(b: seq<byte>, sum: nat)
    requires |b| < 0x8000_0000 && sum < 4 * TWO32
    ensures sum + Total(Words(Even(b))) < TWO32 * (ONES - 1)
    ensures Total(Words(b)) == Total(Words(Even(b))) + if |b| % 2 == 1 then b[|b| - 1] else 0
  {
    var even := Even(b);
    TotalBound(Words(even));
    WordsLength(even);
    assert |Words(even)| <= 0x4000_0000;
    assert ONES * |Words(even)| <= ONES * 0x4000_0000;
    if |b| % 2 == 1 {
      assert even == b[..|b| - 1];
      WordsOdd(b);
      TotalAppend(Words(even), [b[|b| - 1] as int]);
      TotalOne(b[|b| - 1]);
    } else {
      assert even == b;
    }
  }

  /** The arithmetic of the odd last byte, after t has been reduced to c. */
  lemma LastByte(t: nat, c: u16, k: nat, last: nat)
    requires Congruent(c, t - k) && k + 1 < ONES && last < 256 && (k == 0 ==> c == Canonical(t))
    ensures (c + last) % TWO16 == Canonical(t + last) <==> k == 0 && c + last <= ONES
  {
    ShiftCongruent(c, t - k, last);
    if c + last <= ONES {
      var v := c + last;
      assert v % TWO16 == v;
      DroppedCarries(t + last, v, k);
      CanonicalUnique(t + last, v);
      CanonicalUnique(t, c);
    } else {
      var v := c + last - TWO16;
      assert (c + last) % TWO16 == v;
      var j := Quotient(c + last, t - k + last);
      CongruentBy(v, t + last - (k + 1), j - 1);
      DroppedCarries(t + last, v, k + 1);
      CanonicalUnique(t + last, v);
    }
  }

  /** The C function gives the RFC 1071 checksum if and only if it drops no
      carry, for any int length and any initial sum of a few 32-bit words. */
  lemma ChecksumExact(b: seq<byte>, sum: nat)
    requires |b| < 0x8000_0000 && sum < 4 * TWO32
    ensures CheckValue(b, sum) == RfcValue(b, sum) <==> CarriesKept(b, sum)
  {
    var t := sum + Total(Words(Even(b)));
    var last := if |b| % 2 == 1 then b[|b| - 1] as int else 0;
    TotalEven(b, sum);
    SumExact(t, last);
  }

  lemma LowBits(f: nat, last: nat)
    ensures (f + last) % TWO16 == (f % TWO16 + last) % TWO16
  {
  }

  lemma SumExact(t: nat, last: nat)
    requires t < TWO32 * (ONES - 1) && last < 256
    ensures (Canonical(t % TWO32) + last) % TWO16 == Canonical(t + last) <==> t < TWO32 && Canonical(t) + last <= ONES
  {
    WrapCarries(t);
    LastByte(t, Canonical(t % TWO32), t / TWO32, last);
  }

  // The TCP checksum

  /** A 32-bit number read from memory by a little-endian host. */
  function Long(b: seq<byte>): nat
    requires |b| == 4
  {
    Word(b[0], b[1]) + TWO16 * Word(b[2], b[3])
  }

  /** The 12 bytes of the pseudo-header in section 3.1 of RFC 9293. */
  function PseudoHeader(saddr: seq<byte>, daddr: seq<byte>, proto: byte, len: u16): seq<byte>
    requires |saddr| == |daddr| == 4
  {
    saddr + daddr + [0, proto, len / 256, len % 256]
  }

  /** What tcp_checksum adds up before the segment. */
  function PseudoSum(saddr: seq<byte>, daddr: seq<byte>, proto: byte, len: u16): nat
    requires |saddr| == |daddr| == 4
  {
    Long(saddr) + Long(daddr) + Swap(proto) + Swap(len)
  }

  /** The segment as it is summed: the checksum field counts as zero. */
  function ZeroField(seg: seq<byte>): seq<byte>
    requires |seg| >= 18
  {
    seg[..16] + [0, 0] + seg[18..]
  }

  /** tcp_checksum of the len bytes from off on: zero the field, sum, restore
      the field. */
  method TcpChecksum(saddr: seq<byte>, daddr: seq<byte>, proto: byte, p: array<byte>, off: nat, len: u16) returns (c: u16)
    requires |saddr| == |daddr| == 4 && off + 18 <= p.Length && off + len <= p.Length
    modifies p
    ensures p[..] == old(p[..])
    ensures c == CheckValue(ZeroField(p[off..])[..len], PseudoSum(saddr, daddr, proto, len))
  {
    ghost var before, seg := p[..], p[off..];
    var lo, hi := p[off + 16], p[off + 17];
    p[off + 16], p[off + 17] := 0, 0;
    var sum := PseudoSum(saddr, daddr, proto, len);
    c := Compute(p, off, len, sum % TWO32);
    assert p[off..] == ZeroField(seg);
    assert p[off..off + len] == ZeroField(seg)[..len];
    CheckValueWraps(p[off..off + len], sum);
    p[off + 16], p[off + 17] := lo, hi;
    assert p[..] == before && p[off..] == seg;
  }

  lemma CheckValueWraps(b: seq<byte>, sum: nat)
    ensures CheckValue(b, sum % TWO32) == CheckValue(b, sum)
  {
    SumWraps(sum, Total(Words(Even(b))));
  }

  lemma {:induction false} WordsConcat(a: seq<byte>, b: seq<byte>)
    requires |a| % 2 == 0
    ensures Words(a + b) == Words(a) + Words(b)
    decreases |a|
  {
    if a == [] {
      assert a + b == b;
    } else {
      WordsConcat(a[2..], b);
      assert (a + b)[2..] == a[2..] + b;
    }
  }

  lemma TwoWords(a: byte, b: byte, c: byte, d: byte)
    ensures Total(Words([a, b, c, d])) == Word(a, b) + Word(c, d)
  {
    assert [a, b, c, d][2..] == [c, d] && [c, d][2..] == [];
    assert Words([c, d]) == [Word(c, d)];
    assert Words([a, b, c, d]) == [Word(a, b)] + [Word(c, d)];
    TotalAppend([Word(a, b)], [Word(c, d)]);
    TotalOne(Word(a, b));
    TotalOne(Word(c, d));
  }

  /** Adding an address as one 32-bit number adds its two words, modulo 65535. */
  lemma {:induction false} AddressWords(addr: seq<byte>)
    requires |addr| == 4
    ensures Congruent(Long(addr), Total(Words(addr))) && (Long(addr) == 0 <==> Total(Words(addr)) == 0)
  {
    assert addr == [addr[0], addr[1], addr[2], addr[3]];
    TwoWords(addr[0], addr[1], addr[2], addr[3]);
    CongruentBy(Long(addr), Total(Words(addr)), Word(addr[2], addr[3]));
  }

  lemma PseudoTotal(saddr: seq<byte>, daddr: seq<byte>, proto: byte, len: u16)
    requires |saddr| == |daddr| == 4
    ensures Total(Words(PseudoHeader(saddr, daddr, proto, len))) == Total(Words(saddr)) + Total(Words(daddr)) + Swap(proto) + Swap(len)
  {
    var tail: seq<byte> := [0, proto, len / 256, len % 256];
    WordsConcat(saddr + daddr, tail);
    WordsConcat(saddr, daddr);
    TotalAppend(Words(saddr) + Words(daddr), Words(tail));
    TotalAppend(Words(saddr), Words(daddr));
    TwoWords(0, proto, len / 256, len % 256);
    SwapWords(proto, len);
  }

  lemma SwapWords(proto: byte, len: u16)
    ensures Swap(proto) == Word(0, proto) && Swap(len) == Word(len / 256, len % 256)
  {
  }

  lemma {:induction false} PseudoClass(saddr: seq<byte>, daddr: seq<byte>, proto: byte, len: u16)
    requires |saddr| == |daddr| == 4
    ensures var pre, t := PseudoSum(saddr, daddr, proto, len), Total(Words(PseudoHeader(saddr, daddr, proto, len)));
      Congruent(pre, t) && (pre == 0 <==> t == 0)
  {
    AddressWords(saddr);
    AddressWords(daddr);
    PseudoTotal(saddr, daddr, proto, len);
    ThreeParts(Long(saddr), Total(Words(saddr)), Long(daddr), Total(Words(daddr)), Swap(proto) + Swap(len));
  }

  lemma ThreeParts(a: nat, b: nat, c: nat, d: nat, rest: nat)
    requires Congruent(a, b) && (a == 0 <==> b == 0)
    requires Congruent(c, d) && (c == 0 <==> d == 0)
    ensures Congruent(a + c + rest, b + d + rest) && (a + c + rest == 0 <==> b + d + rest == 0)
  {
    AddCongruent(a, b, c, d);
    ShiftCongruent(a + c, b + d, rest);
  }

  /** tcp_checksum is the checksum over pseudo-header and segment that section
      3.1 of RFC 9293 asks for, if and only if no carry is dropped; z is the
      segment as it is summed. */
  lemma {:induction false} TcpChecksumExact(saddr: seq<byte>, daddr: seq<byte>, proto: byte, z: seq<byte>, pre: nat, ph: seq<byte>)
    requires |saddr| == |daddr| == 4 && |z| < TWO16
    requires pre == PseudoSum(saddr, daddr, proto, |z|) && ph == PseudoHeader(saddr, daddr, proto, |z|)
    ensures CheckValue(z, pre) == RfcValue(ph + z, 0) <==> CarriesKept(z, pre)
  {
    ChecksumExact(z, pre);
    PseudoRfc(saddr, daddr, proto, |z|, z);
  }

  /** Summing the pseudo-header as 32-bit numbers first comes to the same. */
  lemma {:induction false} PseudoRfc(saddr: seq<byte>, daddr: seq<byte>, proto: byte, len: u16, z: seq<byte>)
    requires |saddr| == |daddr| == 4
    ensures RfcValue(PseudoHeader(saddr, daddr, proto, len) + z, 0) == RfcValue(z, PseudoSum(saddr, daddr, proto, len))
  {
    PseudoClass(saddr, daddr, proto, len);
    TotalConcat(PseudoHeader(saddr, daddr, proto, len), z);
    PrefixClass(PseudoHeader(saddr, daddr, proto, len), PseudoSum(saddr, daddr, proto, len), z);
  }

  lemma {:induction false} PrefixClass(b: seq<byte>, pre: nat, z: seq<byte>)
    requires Congruent(pre, Total(Words(b))) && (pre == 0 <==> Total(Words(b)) == 0)
    requires Total(Words(b + z)) == Total(Words(b)) + Total(Words(z))
    ensures RfcValue(b + z, 0) == RfcValue(z, pre)
  {
    SameClass(pre, Total(Words(b)), Total(Words(z)), 0 + Total(Words(b + z)));
  }

  lemma TotalConcat(a: seq<byte>, b: seq<byte>)
    requires |a| % 2 == 0
    ensures Total(Words(a + b)) == Total(Words(a)) + Total(Words(b))
  {
    WordsConcat(a, b);
    TotalAppend(Words(a), Words(b));
  }

  lemma SameClass(a: nat, b: nat, t: nat, u: nat)
    requires Congruent(a, b) && (a == 0 <==> b == 0) && u == b + t
    ensures Canonical(a + t) == Canonical(u)
  {
    CanonicalClass(a + t);
    ShiftCongruent(a, b, t);
    JoinCongruent(Canonical(a + t), a + t, b + t);
    CanonicalUnique(b + t, Canonical(a + t));
  }

  /** Two addresses whose last octets add up to 256 or more make the 32-bit sum
      drop a carry, so the stored value is not the one RFC 9293 asks for. */
  lemma {:induction false} HighOctetsDropCarry(saddr: seq<byte>, daddr: seq<byte>, proto: byte, z: seq<byte>, pre: nat, ph: seq<byte>)
    requires |saddr| == |daddr| == 4 && |z| < TWO16 && saddr[3] as int + daddr[3] >= 256
    requires pre == PseudoSum(saddr, daddr, proto, |z|) && ph == PseudoHeader(saddr, daddr, proto, |z|)
    ensures CheckValue(z, pre) != RfcValue(ph + z, 0)
  {
    TcpChecksumExact(saddr, daddr, proto, z, pre, ph);
    assert Long(saddr) + Long(daddr) >= TWO32;
  }

  /** An odd length can drop a carry as well. */
  lemma OddByteDropsCarry()
    ensures CheckValue([255, 255, 1], 0) != RfcValue([255, 255, 1], 0)
  {
    var b: seq<byte> := [255, 255, 1];
    ChecksumExact(b, 0);
    assert Even(b) == [255, 255] && Words([255, 255]) == [ONES] by { assert [255, 255][2..] == []; }
    TotalOne(ONES);
  }

  /** The value does not depend on the field it is stored in. */
  lemma StoredFieldIgnored(seg: seq<byte>, lo: byte, hi: byte)
    requires |seg| >= 18
    ensures ZeroField(seg[16 := lo][17 := hi]) == ZeroField(seg)
  {
  }

  /** A segment with its checksum stored in it */
  function Stored(seg: seq<byte>, c: u16): seq<byte>
    requires |seg| >= 18
  {
    seg[16 := c % 256][17 := c / 256]
  }

  /** Recomputing over a segment that stores its own checksum gives the stored
      word, so the receiver's test passes. */
  lemma StoredPasses(seg: seq<byte>, len: nat, pre: nat)
    requires len <= |seg| && |seg| >= 18
    ensures var c := CheckValue(ZeroField(seg)[..len], pre); var seg' := Stored(seg, c);
      CheckValue(ZeroField(seg')[..len], pre) == Word(seg'[16], seg'[17]) == c
  {
    var c := CheckValue(ZeroField(seg)[..len], pre);
    StoredFieldIgnored(seg, c % 256, c / 256);
    TwoBytes(c);
  }

  lemma TwoBytes(c: u16)
    ensures Word(c % 256, c / 256) == c
  {
  }

  /** Over an IP header no carry is ever dropped. */
  lemma HeaderExact(b: seq<byte>)
    requires |b| % 2 == 0 && |b| <= 60
    ensures CheckValue(b, 0) == ONES - OnesSum(Words(b))
  {
    assert Even(b) == b;
    TotalBound(Words(b));
    WordsLength(b);
    ChecksumExact(b, 0);
    RfcIsComplement(b);
  }

  // One wrong byte is always noticed

  lemma {:induction false} TotalSet(ws: seq<u16>, i: nat, w: u16)
    requires i < |ws|
    ensures Total(ws[i := w]) == Total(ws) - ws[i] + w
    decreases |ws|
  {
    var n := |ws| - 1;
    if i == n {
      assert ws[i := w][..n] == ws[..n];
    } else {
      TotalSet(ws[..n], i, w);
      assert ws[i := w][..n] == ws[..n][i := w];
    }
  }

  /** Changing a byte changes the word it is in. */
  lemma {:induction false} WordsSetLow(b: seq<byte>, i: nat, v: byte)
    requires 2 * i + 1 < |b|
    ensures i < |Words(b)| && Words(b)[i] == Word(b[2 * i], b[2 * i + 1])
    ensures Words(b[2 * i := v]) == Words(b)[i := Word(v, b[2 * i + 1])]
    decreases i
  {
    if i == 0 {
      assert b[0 := v][2..] == b[2..];
    } else {
      WordsSetLow(b[2..], i - 1, v);
      assert b[2 * i := v][2..] == b[2..][2 * (i - 1) := v];
    }
  }

  lemma {:induction false} WordsSetHigh(b: seq<byte>, i: nat, v: byte)
    requires 2 * i + 1 < |b|
    ensures i < |Words(b)| && Words(b)[i] == Word(b[2 * i], b[2 * i + 1])
    ensures Words(b[2 * i + 1 := v]) == Words(b)[i := Word(b[2 * i], v)]
    decreases i
  {
    if i == 0 {
      assert b[1 := v][2..] == b[2..];
    } else {
      WordsSetHigh(b[2..], i - 1, v);
      assert b[2 * i + 1 := v][2..] == b[2..][2 * (i - 1) + 1 := v];
    }
  }

  /** By how much the total moves */
  function Shift(k: nat, was: byte, now: byte): int {
    if k % 2 == 0 then now as int - was else 256 * (now as int - was)
  }

  lemma TotalMoves(b: seq<byte>, k: nat, v: byte)
    requires 2 * (k / 2) + 1 < |b| && k < |b|
    ensures Total(Words(b[k := v])) == Total(Words(b)) + Shift(k, b[k], v)
  {
    var i := k / 2;
    if k == 2 * i {
      WordsSetLow(b, i, v);
      TotalSet(Words(b), i, Word(v, b[2 * i + 1]));
    } else {
      WordsSetHigh(b, i, v);
      TotalSet(Words(b), i, Word(b[2 * i], v));
    }
  }

  /** Totals that differ by at most 65280 have different canonical sums, whatever
      32-bit overflow does to them. */
  lemma CanonicalMoves(t: nat, t': nat)
    requires 0 < t' - t <= 65280
    ensures Canonical(t % TWO32) != Canonical(t' % TWO32)
  {
    ModuloMoves(t, t');
    if Canonical(t % TWO32) == Canonical(t' % TWO32) {
      var k := SameCanonical(t % TWO32, t' % TWO32);
      NoMultiple(t' - t, k);
    }
  }

  lemma ModuloMoves(t: nat, t': nat)
    requires 0 < t' - t <= 65280
    ensures t' % TWO32 - t % TWO32 == t' - t || t' % TWO32 - t % TWO32 == t' - t - TWO32
  {
  }

  /** Equal canonical sums: a multiple of 65535 apart, and zero together. */
  lemma SameCanonical(r: u32, r': u32) returns (k: int)
    requires Canonical(r) == Canonical(r')
    ensures r' - r == ONES * k && (r == 0 <==> r' == 0)
  {
    CanonicalClass(r);
    CanonicalClass(r');
    var i := Quotient(Canonical(r), r);
    var j := Quotient(Canonical(r'), r');
    k := i - j;
  }

  lemma NoMultiple(d: nat, k: int)
    requires 0 < d <= 65280
    ensures d != ONES * k
    ensures d - TWO32 == ONES * k ==> d == 1
  {
    assert TWO32 == ONES * 65537 + 1;
    if d - TWO32 == ONES * k {
      assert d - 1 == ONES * (k + 65537);
    }
  }

  /** A changed byte among the words changes their canonical sum. */
  lemma WordByteChanges(b: seq<byte>, k: nat, v: byte, sum: nat)
    requires 2 * (k / 2) + 1 < |b| && k < |b| && v != b[k]
    ensures Canonical((sum + Total(Words(b))) % TWO32) != Canonical((sum + Total(Words(b[k := v]))) % TWO32)
  {
    var t, t' := Total(Words(b)), Total(Words(b[k := v]));
    TotalMoves(b, k, v);
    ShiftBound(k, b[k], v);
    if t < t' { CanonicalMoves(sum + t, sum + t'); } else { CanonicalMoves(sum + t', sum + t); }
  }

  /** The checksum of a buffer changes with any one of its bytes, for any initial
      sum, odd lengths and overflow included. */
  lemma OneByteChanges(b: seq<byte>, k: nat, v: byte, sum: nat)
    requires k < |b| && v != b[k]
    ensures CheckValue(b[k := v], sum) != CheckValue(b, sum)
  {
    var last := if |b| % 2 == 1 then b[|b| - 1] else 0;
    var c := b[k := v];
    if k < |Even(b)| {
      assert Even(c) == Even(b)[k := v];
      WordByteChanges(Even(b), k, v, sum);
      AddLast(Canonical((sum + Total(Words(Even(b)))) % TWO32), Canonical((sum + Total(Words(Even(c)))) % TWO32), last);
    } else {
      assert Even(c) == Even(b);
      AddDifferent(Canonical((sum + Total(Words(Even(b)))) % TWO32), b[k], v);
    }
  }

  lemma ShiftBound(k: nat, was: byte, now: byte)
    requires was != now
    ensures Shift(k, was, now) != 0 && -65280 <= Shift(k, was, now) <= 65280
  {
  }

  lemma AddLast(x: u16, y: u16, last: byte)
    requires x != y
    ensures (x + last) % TWO16 != (y + last) % TWO16
  {
  }

  lemma AddDifferent(x: u16, last: byte, last': byte)
    requires last != last'
    ensures (x + last) % TWO16 != (x + last') % TWO16
  {
  }
}
