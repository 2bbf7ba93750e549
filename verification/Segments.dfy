/** Segments as the stack sees them: the flags and fields of include/tcp.h that
    tcp_cb_init extracts. */
module Segments {
  import opened Base
  import opened TcpHash

  const FIN: byte := 0x01
  const SYN: byte := 0x02
  const RST: byte := 0x04
  const PSH: byte := 0x08
  const ACK: byte := 0x10

  /** The flags occupy distinct bits, so | on them is +. */
  const SYN_ACK: byte := SYN + ACK
  const RST_ACK: byte := RST + ACK
  const PSH_ACK: byte := PSH + ACK

  /** A connection as its own sock names it: local address and port, peer address and port. */
  datatype Tuple = Tuple(sip: u32, dip: u32, sport: u16, dport: u16)

  /** The same connection as the peer names it. */
  function Mirror(t: Tuple): Tuple {
    Tuple(t.dip, t.sip, t.dport, t.sport)
  }

  /** A segment in flight; from is the connection as the sender names it. */
  datatype Segment = Segment(from: Tuple, seqNo: u32, ack: u32, flags: byte, rwnd: u16, len: int)

  /** flags & (TCP_SYN|TCP_FIN) */
  predicate TakesNumber(flags: byte) {
    flags % 2 == 1 || flags / 2 % 2 == 1
  }

  function SeqEnd(g: Segment): u32 {
    (g.seqNo + g.len + if TakesNumber(g.flags) then 1 else 0) % TWO32
  }

  /** By the bits of the flags byte: a number is taken exactly when FIN (bit 0)
      or SYN (bit 1) is set. */
  lemma TakesNumberBits(flags: byte)
    ensures TakesNumber(flags) <==> Bit(flags, 0) == 1 || Bit(flags, 1) == 1
  {
    assert Bit(flags, 1) == Bit(flags / 2, 0);
  }

  /** The flags of include/tcp.h and the combinations the stack sends, and which of
      them take a number */
  lemma FlagNumbers()
    ensures FIN == 0x01 && SYN == 0x02 && RST == 0x04 && PSH == 0x08 && ACK == 0x10
    ensures SYN_ACK == 0x12 && RST_ACK == 0x14 && PSH_ACK == 0x18
    ensures TakesNumber(0x01) && TakesNumber(0x02) && TakesNumber(0x11) && TakesNumber(0x12)
    ensures !TakesNumber(0x04) && !TakesNumber(0x10) && !TakesNumber(0x14) && !TakesNumber(0x18)
  {
  }

  /** Where a segment ends: after its data, and after its FIN or SYN if it has one. */
  lemma SeqEndBits(g: Segment)
    ensures SeqEnd(g) == (g.seqNo + g.len + if Bit(g.flags, 0) == 1 || Bit(g.flags, 1) == 1 then 1 else 0) % TWO32
  {
    TakesNumberBits(g.flags);
  }
}
