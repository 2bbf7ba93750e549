/** Sequence numbers: the 32-bit comparisons of include/tcp.h and the window
    test of tcp_in.c against section 3.4 of RFC 9293. */
module SeqSpace {
  import opened Base

  const HALF: int := 0x8000_0000

  /** The int32_t difference of two sequence numbers, with wrap-around. */
  function Diff32(a: u32, b: u32): int {
    var d := a - b;
    if d >= HALF then d - TWO32 else if d < -HALF then d + TWO32 else d
  }

  predicate LessThan(a: u32, b: u32) {
    Diff32(a, b) < 0
  }

  predicate LessOrEqual(a: u32, b: u32) {
    Diff32(a, b) <= 0
  }

  function Max(x: int, y: int): int {
    if x > y then x else y
  }

  /** is_tcp_seq_valid */
  predicate SeqValid(rcvNxt: u32, rcvWnd: u16, seqNo: u32, seqEnd: u32) {
    var rcvEnd: u32 := (rcvNxt + Max(rcvWnd, 1)) % TWO32;
    LessThan(seqNo, rcvEnd) && LessOrEqual(rcvNxt, seqEnd)
  }

  /** The longest segment an IP packet carries: its length field has 16 bits,
      and a SYN or FIN takes one more sequence number. */
  const MAX_SEGMENT: int := 0x1_0000

  /** RCV.NXT =< x < RCV.NXT+RCV.WND, modulo 2^32 */
  predicate InWindow(rcvNxt: u32, rcvWnd: u16, x: int) {
    (x - rcvNxt) % TWO32 < rcvWnd
  }

  /** The four cases of the acceptability test in section 3.4 of RFC 9293. */
  predicate Acceptable(rcvNxt: u32, rcvWnd: u16, seqNo: u32, len: nat) {
    if len == 0 then
      if rcvWnd == 0 then seqNo == rcvNxt else InWindow(rcvNxt, rcvWnd, seqNo)
    else
      rcvWnd > 0 && (InWindow(rcvNxt, rcvWnd, seqNo) || InWindow(rcvNxt, rcvWnd, seqNo + len - 1))
  }

  /** How far, going forward, rcvNxt lies behind seqNo. */
  function Ahead(rcvNxt: u32, seqNo: u32): nat {
    (rcvNxt - seqNo) % TWO32
  }

  /** The segments the stack accepts although RFC 9293 does not. */
  predicate Extra(rcvNxt: u32, rcvWnd: u16, seqNo: u32, len: nat) {
    && len > 0
    && var before := Ahead(rcvNxt, seqNo);
       if rcvWnd == 0 then
         before <= len                                  // touches the one-byte window at rcvNxt
       else
         || before == len                               // ends exactly at rcvNxt
         || (0 < before && before + rcvWnd < len)       // strictly covers the window on both sides
  }

  /** Serial order: b follows a exactly when it is 1 to 2^31 steps ahead. */
  lemma SerialOrder(a: u32, k: nat)
    requires k < TWO32
    ensures LessThan(a, (a + k) % TWO32) <==> 1 <= k <= HALF
    ensures LessOrEqual(a, (a + k) % TWO32) <==> k <= HALF
  {
    Wrapped(a, k);
  }

  /** Modular addition without the modulo. */
  lemma Wrapped(a: u32, k: nat)
    requires k < TWO32
    ensures (a + k) % TWO32 == if a + k < TWO32 then a + k else a + k - TWO32
  {
  }

  /** The signed position of seqNo relative to rcvNxt decides the window test. */
  lemma ValidByDistance(rcvNxt: u32, rcvWnd: u16, seqNo: u32, len: nat)
    requires len <= MAX_SEGMENT
    ensures SeqValid(rcvNxt, rcvWnd, seqNo, (seqNo + len) % TWO32)
       <==> 0 <= Diff32(seqNo, rcvNxt) + len && Diff32(seqNo, rcvNxt) < Max(rcvWnd, 1)
  {
    Wrapped(rcvNxt, Max(rcvWnd, 1));
    Wrapped(seqNo, len);
  }

  /** The stack's test accepts everything RFC 9293 accepts, for every pair of
      sequence numbers, and beyond that exactly the extra segments. */
  lemma SeqValidExact(rcvNxt: u32, rcvWnd: u16, seqNo: u32, len: nat)
    requires len <= MAX_SEGMENT
    ensures SeqValid(rcvNxt, rcvWnd, seqNo, (seqNo + len) % TWO32)
       <==> Acceptable(rcvNxt, rcvWnd, seqNo, len) || Extra(rcvNxt, rcvWnd, seqNo, len)
    ensures !(Acceptable(rcvNxt, rcvWnd, seqNo, len) && Extra(rcvNxt, rcvWnd, seqNo, len))
  {
    ValidByDistance(rcvNxt, rcvWnd, seqNo, len);
    var d := Diff32(seqNo, rcvNxt);
    Modulo(seqNo - rcvNxt, d);
    Modulo(rcvNxt - seqNo, -d);
    Modulo(seqNo + len - 1 - rcvNxt, d + len - 1);
  }

  lemma Modulo(x: int, d: int)
    requires -TWO32 <= d < TWO32 && (x == d || x == d - TWO32 || x == d + TWO32)
    ensures x % TWO32 == if d < 0 then d + TWO32 else d
  {
  }
}
