/** Headers on the wire: what tcp_out.c writes into a packet and what tcp_cb_init
    reads out of it, and how a run of sends walks through sequence space. */
module Headers {
  import opened Base
  import opened Segments
  import opened Hosts
  import opened Checksum
  import opened TcpHash

  const ETHER_HDR_SIZE: int := 14
  const IP_BASE_HDR_SIZE: int := 20
  const TCP_BASE_HDR_SIZE: int := 20
  const HEADERS: int := 54

  /** htons and htonl: big-endian bytes */
  function Be16(x: u16): seq<byte> {
    [x / 256, x % 256]
  }

  function Be32(x: u32): seq<byte> {
    Be16(x / TWO16) + Be16(x % TWO16)
  }

  function De16(b: seq<byte>): u16
    requires |b| == 2
  {
    b[0] as int * 256 + b[1]
  }

  function De32(b: seq<byte>): u32
    requires |b| == 4
  {
    De16(b[..2]) * TWO16 + De16(b[2..])
  }

  lemma Network(x: u32, y: u16)
    ensures De32(Be32(x)) == x && De16(Be16(y)) == y
  {
    assert Be32(x)[..2] == Be16(x / TWO16) && Be32(x)[2..] == Be16(x % TWO16);
  }

  /** tcp_init_hdr: the 20 bytes of a header without options; the data offset is
      the high nibble of byte 12. */
  function TcpHeader(sport: u16, dport: u16, seqNo: u32, ack: u32, flags: byte, rwnd: u16): (h: seq<byte>)
    ensures |h| == TCP_BASE_HDR_SIZE
  {
    Be16(sport) + Be16(dport) + Be32(seqNo) + Be32(ack) + [0x50, flags] + Be16(rwnd) + [0, 0, 0, 0]
  }

  /** The header byte by byte, as section 3.1 of RFC 9293 lays it out: ports,
      sequence and acknowledgement number, offset and flags, window, and zero for
      checksum and urgent pointer. */
  lemma HeaderLayout(sport: u16, dport: u16, seqNo: u32, ack: u32, flags: byte, rwnd: u16)
    ensures var h := TcpHeader(sport, dport, seqNo, ack, flags, rwnd);
      && Number(h[0..2]) == sport && Number(h[2..4]) == dport
      && Number(h[4..8]) == seqNo && Number(h[8..12]) == ack
      && h[12] == 5 * 16 && h[13] == flags && Number(h[14..16]) == rwnd
      && h[16] == 0 && h[17] == 0 && h[18] == 0 && h[19] == 0
  {
    var h := TcpHeader(sport, dport, seqNo, ack, flags, rwnd);
    assert h[0..2] == Be16(sport) && h[2..4] == Be16(dport) && h[4..8] == Be32(seqNo);
    assert h[8..12] == Be32(ack) && h[14..16] == Be16(rwnd);
    NumberBe(sport);
    NumberBe(dport);
    NumberBe(rwnd);
    NumberBe32(seqNo);
    NumberBe32(ack);
  }

  /** The number that bytes spell, most significant first */
  function Number(b: seq<byte>): nat {
    if b == [] then 0 else 256 * Number(b[..|b| - 1]) + b[|b| - 1]
  }

  lemma NumberStep(b: seq<byte>, x: byte)
    ensures Number(b + [x]) == 256 * Number(b) + x
  {
    assert (b + [x])[..|b + [x]| - 1] == b;
  }

  lemma Number2(b: seq<byte>)
    requires |b| == 2
    ensures Number(b) == 256 * b[0] as int + b[1]
  {
    NumberStep([], b[0]);
    NumberStep(b[..1], b[1]);
    assert b[..1] == [] + [b[0]] && b == b[..1] + [b[1]];
  }

  lemma Number4(b: seq<byte>)
    requires |b| == 4
    ensures Number(b) == 0x100_0000 * b[0] as int + TWO16 * b[1] as int + 256 * b[2] as int + b[3]
  {
    Number2(b[..2]);
    NumberStep(b[..2], b[2]);
    NumberStep(b[..3], b[3]);
    assert b[..3] == b[..2] + [b[2]] && b == b[..3] + [b[3]];
  }

  lemma NumberBe(x: u16)
    ensures Number(Be16(x)) == x
  {
    Number2(Be16(x));
  }

  lemma NumberBe32(x: u32)
    ensures Number(Be32(x)) == x
  {
    Number4(Be32(x));
    var hi, lo := x / TWO16, x % TWO16;
    assert 256 * (hi / 256) + hi % 256 == hi && 256 * (lo / 256) + lo % 256 == lo;
  }

  /** What the parser sees of a segment's headers in packet p: the fields of the
      IP header and all of the TCP header before its checksum. */
  ghost predicate Carries(p: seq<byte>, t: Tuple, seqNo: u32, ack: u32, flags: byte, rwnd: u16, total: u16) {
    && |p| >= HEADERS
    && p[14] == 0x45 && p[23] == 6 && p[16..18] == Be16(total) && p[26..30] == Be32(t.sip) && p[30..34] == Be32(t.dip)
    && p[34..50] == TcpHeader(t.sport, t.dport, seqNo, ack, flags, rwnd)[..16]
  }

  /** tcp_cb_init */
  function Parse(p: seq<byte>): Segment
    requires |p| >= HEADERS && |p| >= ETHER_HDR_SIZE + p[14] % 16 * 4 + TCP_BASE_HDR_SIZE
  {
    var ihl := p[14] % 16 * 4;
    var tcp := p[ETHER_HDR_SIZE + ihl..];
    var len := De16(p[16..18]) - ihl - tcp[12] / 16 * 4;
    Segment(Tuple(De32(p[26..30]), De32(p[30..34]), De16(tcp[0..2]), De16(tcp[2..4])),
            De32(tcp[4..8]), De32(tcp[8..12]), tcp[13], De16(tcp[14..16]), len)
  }

  /** tcp_cb_init field by field, for headers of any length: where it reads, and
      that the data is what is left of the IP length after both headers. */
  lemma ParseLayout(p: seq<byte>)
    requires |p| >= HEADERS && |p| >= ETHER_HDR_SIZE + p[14] % 16 * 4 + TCP_BASE_HDR_SIZE
    ensures var at, g := 14 + p[14] as int % 16 * 4, Parse(p);
      && g.from.sip == Number(p[26..30]) && g.from.dip == Number(p[30..34])
      && g.from.sport == Number(p[at..at + 2]) && g.from.dport == Number(p[at + 2..at + 4])
      && g.seqNo == Number(p[at + 4..at + 8]) && g.ack == Number(p[at + 8..at + 12])
      && g.flags == p[at + 13] && g.rwnd == Number(p[at + 14..at + 16])
      && g.len == Number(p[16..18]) - p[14] as int % 16 * 4 - p[at + 12] as int / 16 * 4
  {
    var at := 14 + p[14] as int % 16 * 4;
    var tcp := p[at..];
    DeNumbers(p[26..30], p[16..18]);
    DeNumbers(p[30..34], p[at..at + 2]);
    DeNumbers(p[at + 4..at + 8], p[at + 2..at + 4]);
    DeNumbers(p[at + 8..at + 12], p[at + 14..at + 16]);
    assert tcp[0..2] == p[at..at + 2] && tcp[2..4] == p[at + 2..at + 4] && tcp[4..8] == p[at + 4..at + 8];
    assert tcp[8..12] == p[at + 8..at + 12] && tcp[14..16] == p[at + 14..at + 16];
  }

  lemma DeNumbers(x: seq<byte>, y: seq<byte>)
    requires |x| == 4 && |y| == 2
    ensures De32(x) == Number(x) && De16(y) == Number(y)
  {
    Number4(x);
    Number2(y);
    assert x[..2] == [x[0], x[1]] && x[2..] == [x[2], x[3]];
  }

  lemma HeaderSlices(sport: u16, dport: u16, seqNo: u32, ack: u32, flags: byte, rwnd: u16)
    ensures var h := TcpHeader(sport, dport, seqNo, ack, flags, rwnd)[..16];
      && h[0..2] == Be16(sport) && h[2..4] == Be16(dport) && h[4..8] == Be32(seqNo) && h[8..12] == Be32(ack)
      && h[12..14] == [0x50, flags] && h[14..16] == Be16(rwnd)
  {
    var p, q, r, s, o, w := Be16(sport), Be16(dport), Be32(seqNo), Be32(ack), [0x50, flags], Be16(rwnd);
    assert TcpHeader(sport, dport, seqNo, ack, flags, rwnd)[..16] == p + q + r + s + o + w;
    assert |p + q + r + s| == 12 && |p + q + r + s + o| == 14;
  }

  lemma TailSlice(p: seq<byte>, a: nat, b: nat)
    requires |p| >= 50 && a < b <= 16
    ensures p[34..][a..b] == p[34..50][a..b] && p[34..][a] == p[34..50][a..b][0] && p[34..][b - 1] == p[34..50][a..b][b - 1 - a]
  {
    var h := p[34..50];
    assert |p[34..][a..b]| == b - a == |h[a..b]|;
    forall i | 0 <= i < b - a ensures p[34..][a..b][i] == p[34 + a + i] == h[a..b][i] {
    }
    assert h[a..b][0] == h[a] && h[a..b][b - 1 - a] == h[b - 1];
  }

  /** Every header field survives building and parsing. */
  lemma FieldsSurvive(p: seq<byte>, t: Tuple, seqNo: u32, ack: u32, flags: byte, rwnd: u16, total: u16)
    requires Carries(p, t, seqNo, ack, flags, rwnd, total)
    ensures Parse(p) == Segment(t, seqNo, ack, flags, rwnd, total - IP_BASE_HDR_SIZE - TCP_BASE_HDR_SIZE)
  {
    HeaderSlices(t.sport, t.dport, seqNo, ack, flags, rwnd);
    TailSlice(p, 0, 2);
    TailSlice(p, 2, 4);
    TailSlice(p, 4, 8);
    TailSlice(p, 8, 12);
    TailSlice(p, 12, 14);
    TailSlice(p, 14, 16);
    Network(t.sip, t.sport);
    Network(t.dip, t.dport);
    Network(seqNo, rwnd);
    Network(ack, total);
  }

  /** Storing the TCP checksum later changes nothing that is parsed. */
  lemma ChecksumFieldApart(p: seq<byte>, t: Tuple, seqNo: u32, ack: u32, flags: byte, rwnd: u16, total: u16, c: u16)
    requires Carries(p, t, seqNo, ack, flags, rwnd, total)
    ensures Carries(p[50 := c % 256][51 := c / 256], t, seqNo, ack, flags, rwnd, total)
  {
    var q := p[50 := c % 256][51 := c / 256];
    assert q[16..18] == p[16..18] && q[26..30] == p[26..30] && q[30..34] == p[30..34] && q[34..50] == p[34..50];
  }

  /** Write b into the packet at position i. */
  method Put(p: array<byte>, i: nat, b: seq<byte>)
    requires i + |b| <= p.Length
    modifies p
    ensures p[i..i + |b|] == b
    ensures forall j :: 0 <= j < p.Length && !(i <= j < i + |b|) ==> p[j] == old(p[j])
  {
    forall j | 0 <= j < |b| {
      p[i + j] := b[j];
    }
  }

  /** ip_init_hdr, as far as tcp_cb_init reads it: a 20-byte header with length
      and addresses in network order. */
  method IpInitHdr(p: array<byte>, t: Tuple, total: u16)
    requires p.Length >= HEADERS
    modifies p
    ensures p[14] == 0x45 && p[23] == 6 && p[16..18] == Be16(total) && p[26..30] == Be32(t.sip) && p[30..34] == Be32(t.dip)
    ensures forall j :: 0 <= j < p.Length && !(14 <= j < 34) ==> p[j] == old(p[j])
  {
    Put(p, 30, Be32(t.dip));
    Put(p, 26, Be32(t.sip));
    Put(p, 16, Be16(total));
    p[14] := 0x45;
    p[23] := 6;
    assert forall j :: 26 <= j < 34 ==> p[j] == (Be32(t.sip) + Be32(t.dip))[j - 26];
  }

  /** Both headers, IP first as in tcp_send_control_packet. */
  method FillHeaders(p: array<byte>, t: Tuple, seqNo: u32, ack: u32, flags: byte, rwnd: u16, total: u16)
    requires p.Length >= HEADERS
    modifies p
    ensures Carries(p[..], t, seqNo, ack, flags, rwnd, total)
    ensures p[50..HEADERS] == [0, 0, 0, 0] && p[HEADERS..] == old(p[HEADERS..])
  {
    IpInitHdr(p, t, total);
    ghost var q := p[..];
    Put(p, 34, TcpHeader(t.sport, t.dport, seqNo, ack, flags, rwnd));
    assert p[..][16..18] == q[16..18] && p[..][26..30] == q[26..30] && p[..][30..34] == q[30..34];
    assert p[..][34..50] == p[34..54][..16] && p[50..HEADERS] == p[34..54][16..];
  }

  // Checksums in a packet

  /** Where the TCP header starts, by the header length of the IP header */
  function TcpAt(p: seq<byte>): nat
    requires |p| >= HEADERS
  {
    ETHER_HDR_SIZE + p[14] as int % 16 * 4
  }

  /** The 16-bit length that tcp_checksum works with */
  function TcpLen(p: seq<byte>): u16
    requires |p| >= HEADERS
  {
    (De16(p[16..18]) - p[14] as int % 16 * 4) % TWO16
  }

  /** The bytes that tcp_checksum reads are there. */
  predicate Summable(p: seq<byte>) {
    |p| >= HEADERS && TcpAt(p) + 18 <= |p| && TcpAt(p) + TcpLen(p) <= |p|
  }

  /** tcp_checksum as a function of the packet */
  function PacketCheck(p: seq<byte>): u16
    requires Summable(p)
  {
    CheckValue(ZeroField(p[TcpAt(p)..])[..TcpLen(p)], PseudoSum(p[26..30], p[30..34], p[23], TcpLen(p)))
  }

  /** The test at the start of handle_tcp_packet */
  predicate PassesCheck(p: seq<byte>)
    requires Summable(p)
  {
    PacketCheck(p) == Word(p[TcpAt(p) + 16], p[TcpAt(p) + 17])
  }

  /** p with two bytes stored in the checksum field of a TCP header at at */
  function WithField(p: seq<byte>, at: nat, lo: byte, hi: byte): (q: seq<byte>)
    requires at + 18 <= |p|
    ensures |q| == |p|
  {
    p[at + 16 := lo][at + 17 := hi]
  }

  /** Nothing before the TCP header changes. */
  lemma FieldApart(p: seq<byte>, at: nat, lo: byte, hi: byte)
    requires 34 <= at && at + 18 <= |p|
    ensures var q := WithField(p, at, lo, hi);
      && q[14] == p[14] && q[16..18] == p[16..18] && q[23] == p[23] && q[26..30] == p[26..30] && q[30..34] == p[30..34]
      && q[at..at + 16] == p[at..at + 16] && q[at + 18..] == p[at + 18..]
      && q[at..] == p[at..][16 := lo][17 := hi]
  {
  }

  function Sealed(p: seq<byte>): (q: seq<byte>)
    requires Summable(p)
    ensures |q| == |p|
  {
    WithField(p, TcpAt(p), PacketCheck(p) % 256, PacketCheck(p) / 256)
  }

  /** The field does not enter its own checksum. */
  lemma FieldUnread(p: seq<byte>, lo: byte, hi: byte)
    requires Summable(p) && TcpAt(p) >= 34
    ensures var q := WithField(p, TcpAt(p), lo, hi);
      TcpAt(q) == TcpAt(p) && TcpLen(q) == TcpLen(p) && Summable(q) && PacketCheck(q) == PacketCheck(p)
  {
    FieldApart(p, TcpAt(p), lo, hi);
    StoredFieldIgnored(p[TcpAt(p)..], lo, hi);
  }

  /** A packet that stores its TCP checksum passes the receiver's test. */
  lemma SealedPasses(p: seq<byte>)
    requires Summable(p) && TcpAt(p) >= 34
    ensures Summable(Sealed(p)) && PassesCheck(Sealed(p))
  {
    var c := PacketCheck(p);
    FieldUnread(p, c % 256, c / 256);
    TwoBytes(c);
  }

  /** The writes of a checksum over len bytes from at on into its field */
  method StoreChecksum(p: array<byte>, at: nat, len: u16) returns (c: u16)
    requires p.Length >= HEADERS && at + 18 <= p.Length && at + len <= p.Length
    modifies p
    ensures c == CheckValue(ZeroField(old(p[at..]))[..len], PseudoSum(old(p[26..30]), old(p[30..34]), old(p[23]), len))
    ensures p[..] == WithField(old(p[..]), at, c % 256, c / 256)
  {
    c := TcpChecksum(p[26..30], p[30..34], p[23], p, at, len);
    assert p[at..] == old(p[..])[at..] && p[26..30] == old(p[..])[26..30] && p[30..34] == old(p[..])[30..34];
    p[at + 16], p[at + 17] := c % 256, c / 256;
  }

  /** tcp->checksum = tcp_checksum(ip, tcp) */
  method SealTcp(p: array<byte>)
    requires Summable(p[..])
    modifies p
    ensures p[..] == Sealed(old(p[..]))
  {
    ghost var before := p[..];
    var at, len := TcpAt(p[..]), TcpLen(p[..]);
    assert before[at..] == p[at..] && before[26..30] == p[26..30] && before[30..34] == p[30..34];
    var c := StoreChecksum(p, at, len);
  }

  /** The IP header with its own checksum field counted as zero */
  function IpHeader(p: seq<byte>): seq<byte>
    requires |p| >= HEADERS
  {
    p[14..24] + [0, 0] + p[26..34]
  }

  /** ip->checksum = ip_checksum(ip) for a header without options */
  method SealIp(p: array<byte>)
    requires p.Length >= HEADERS
    modifies p
    ensures var c := CheckValue(IpHeader(old(p[..])), 0); p[..] == old(p[..])[24 := c % 256][25 := c / 256]
  {
    ghost var before := p[..];
    p[24], p[25] := 0, 0;
    assert p[14..34] == IpHeader(before);
    var c := Compute(p, 14, IP_BASE_HDR_SIZE, 0);
    p[24], p[25] := c % 256, c / 256;
    assert forall j :: 0 <= j < p.Length && j != 24 && j != 25 ==> p[j] == before[j];
  }

  /** What it stores is the checksum of RFC 1071 over the header. */
  lemma IpChecksumExact(p: seq<byte>)
    requires |p| >= HEADERS
    ensures CheckValue(IpHeader(p), 0) == ONES - OnesSum(Words(IpHeader(p)))
  {
    HeaderExact(IpHeader(p));
  }

  lemma SealedCarries(p: seq<byte>, t: Tuple, seqNo: u32, ack: u32, flags: byte, rwnd: u16, total: u16)
    requires Carries(p, t, seqNo, ack, flags, rwnd, total)
    ensures TcpAt(p) == 34 && TcpLen(p) == (total - 20) % TWO16
    ensures Summable(p) ==> Carries(Sealed(p), t, seqNo, ack, flags, rwnd, total)
  {
    Network(0, total);
    if Summable(p) {
      FieldApart(p, 34, PacketCheck(p) % 256, PacketCheck(p) / 256);
    }
  }

  /** Storing the IP checksum changes nothing that the TCP checksum reads. */
  lemma IpFieldUnread(p: seq<byte>, lo: byte, hi: byte)
    requires Summable(p) && TcpAt(p) == 34
    ensures var q := p[24 := lo][25 := hi]; Summable(q) && TcpAt(q) == 34 && PacketCheck(q) == PacketCheck(p)
  {
    var q := p[24 := lo][25 := hi];
    assert q[16..18] == p[16..18] && q[26..30] == p[26..30] && q[30..34] == p[30..34] && q[34..] == p[34..];
  }

  lemma {:induction false} IpFieldApart(p: seq<byte>, t: Tuple, seqNo: u32, ack: u32, flags: byte, rwnd: u16, total: u16, lo: byte, hi: byte)
    requires Carries(p, t, seqNo, ack, flags, rwnd, total) && Summable(p)
    ensures var q := p[24 := lo][25 := hi];
      Carries(q, t, seqNo, ack, flags, rwnd, total) && Summable(q) && (PassesCheck(p) ==> PassesCheck(q))
  {
    var q := p[24 := lo][25 := hi];
    IpFieldUnread(p, lo, hi);
    assert q[16..18] == p[16..18] && q[26..30] == p[26..30] && q[30..34] == p[30..34] && q[34..50] == p[34..50];
  }

  // Sending

  /** Both headers and the TCP checksum */
  method FillSealed(p: array<byte>, t: Tuple, seqNo: u32, ack: u32, flags: byte, rwnd: u16, total: u16)
    requires p.Length >= HEADERS && 34 + (total - 20) % TWO16 <= p.Length
    modifies p
    ensures Carries(p[..], t, seqNo, ack, flags, rwnd, total) && Summable(p[..]) && PassesCheck(p[..])
    ensures p[HEADERS..] == old(p[HEADERS..])
  {
    FillHeaders(p, t, seqNo, ack, flags, rwnd, total);
    ghost var q := p[..];
    SealedCarries(q, t, seqNo, ack, flags, rwnd, total);
    SealTcp(p);
    SealedPasses(q);
    assert p[HEADERS..] == q[HEADERS..] by { FieldApart(q, 34, PacketCheck(q) % 256, PacketCheck(q) / 256); }
  }

  /** The IP checksum of a finished packet is that of RFC 1071 over its header. */
  predicate IpSumRight(p: seq<byte>)
    requires |p| >= HEADERS
  {
    Word(p[24], p[25]) == ONES - OnesSum(Words(p[14..24] + [0, 0] + p[26..34]))
  }

  lemma IpStored(p: seq<byte>, lo: byte, hi: byte)
    requires |p| >= HEADERS && Word(lo, hi) == CheckValue(IpHeader(p), 0)
    ensures IpSumRight(p[24 := lo][25 := hi])
  {
    var q := p[24 := lo][25 := hi];
    IpChecksumExact(p);
    assert q[14..24] == p[14..24] && q[26..34] == p[26..34];
  }

  /** Headers with both checksums, as tcp_send_packet leaves them */
  method FillBoth(p: array<byte>, t: Tuple, seqNo: u32, ack: u32, flags: byte, rwnd: u16, total: u16)
    requires p.Length >= HEADERS && 34 + (total - 20) % TWO16 <= p.Length
    modifies p
    ensures Carries(p[..], t, seqNo, ack, flags, rwnd, total) && Summable(p[..]) && PassesCheck(p[..])
    ensures IpSumRight(p[..]) && p[HEADERS..] == old(p[HEADERS..])
  {
    FillSealed(p, t, seqNo, ack, flags, rwnd, total);
    ghost var q := p[..];
    SealIp(p);
    TwoBytes(CheckValue(IpHeader(q), 0));
    IpStored(q, p[24], p[25]);
    IpFieldApart(q, t, seqNo, ack, flags, rwnd, total, p[24], p[25]);
    assert p[HEADERS..] == q[HEADERS..];
  }

  /** The send variables after len bytes of data, and after a control packet */
  method MoveByData(s: Sock, len: nat) returns (s': Sock)
    ensures s' == AfterData(s, len) == s.(sndNxt := (s.sndNxt + len) % TWO32, sndWnd := (s.sndWnd - len) % TWO32)
  {
    s' := s.(sndNxt := (s.sndNxt + len) % TWO32, sndWnd := (s.sndWnd - len) % TWO32);
  }

  method MoveByControl(s: Sock, flags: byte) returns (s': Sock)
    ensures s' == AfterControl(s, flags)
  {
    s' := s;
    if TakesNumber(flags) {
      s' := s.(sndNxt := (s.sndNxt + 1) % TWO32);
    }
  }

  /** tcp_send_packet on a packet of len bytes whose payload is in place */
  method SendPacket(s: Sock, p: array<byte>, len: nat) returns (s': Sock)
    requires HEADERS <= len <= p.Length
    modifies p
    ensures s' == AfterData(s, len - HEADERS) && p[HEADERS..] == old(p[HEADERS..])
    ensures Carries(p[..], s.tuple, s.sndNxt, s.rcvNxt, PSH_ACK, s.rcvWnd, (len - ETHER_HDR_SIZE) % TWO16)
    ensures Summable(p[..]) && PassesCheck(p[..]) && IpSumRight(p[..])
    ensures s' == s.(sndNxt := (s.sndNxt + (len - 54)) % TWO32, sndWnd := (s.sndWnd - (len - 54)) % TWO32)
  {
    var total := len - ETHER_HDR_SIZE;
    var stored := LengthWraps(total);
    assert 34 + (stored - 20) % TWO16 <= p.Length;
    FillBoth(p, s.tuple, s.sndNxt, s.rcvNxt, PSH_ACK, s.rcvWnd, stored);
    assert Carries(p[..], s.tuple, s.sndNxt, s.rcvNxt, PSH_ACK, s.rcvWnd, (len - ETHER_HDR_SIZE) % TWO16);
    s' := MoveByData(s, total - IP_BASE_HDR_SIZE - TCP_BASE_HDR_SIZE);
  }

  /** The length field, and the room that the length read from it needs */
  method LengthWraps(total: nat) returns (stored: u16)
    requires total >= 40
    ensures stored == total % TWO16 && (stored - 20) % TWO16 <= total - 20
  {
    stored := total % TWO16;
  }

  /** A packet without data */
  method NewPacket(t: Tuple, seqNo: u32, ack: u32, flags: byte, rwnd: u16) returns (p: array<byte>)
    ensures fresh(p) && p.Length == HEADERS
    ensures Carries(p[..], t, seqNo, ack, flags, rwnd, IP_BASE_HDR_SIZE + TCP_BASE_HDR_SIZE)
    ensures Summable(p[..]) && PassesCheck(p[..])
  {
    p := new byte[HEADERS](_ => 0);
    FillSealed(p, t, seqNo, ack, flags, rwnd, IP_BASE_HDR_SIZE + TCP_BASE_HDR_SIZE);
  }

  /** tcp_send_control_packet; without memory for the packet nothing happens. */
  method SendControl(s: Sock, flags: byte, memory: bool) returns (p: array?<byte>, s': Sock)
    ensures !memory ==> p == null && s' == s
    ensures memory ==> p != null && fresh(p) && s' == AfterControl(s, flags) && p.Length == HEADERS
    ensures memory ==> Carries(p[..], s.tuple, s.sndNxt, s.rcvNxt, flags, s.rcvWnd, IP_BASE_HDR_SIZE + TCP_BASE_HDR_SIZE)
    ensures memory ==> Summable(p[..]) && PassesCheck(p[..])
    ensures memory ==> s' == s.(sndNxt := if Bit(flags, 0) == 1 || Bit(flags, 1) == 1 then (s.sndNxt + 1) % TWO32 else s.sndNxt)
  {
    TakesNumberBits(flags);
    p, s' := null, s;
    if memory {
      s' := MoveByControl(s, flags);
      p := NewPacket(s.tuple, s.sndNxt, s.rcvNxt, flags, s.rcvWnd);
    }
  }

  /** tcp_send_reset */
  method SendReset(g: Segment, memory: bool) returns (p: array?<byte>)
    ensures !memory ==> p == null
    ensures memory ==> p != null && fresh(p) && p.Length == HEADERS
    ensures memory ==> Carries(p[..], Mirror(g.from), 0, SeqEnd(g), RST_ACK, 0, IP_BASE_HDR_SIZE + TCP_BASE_HDR_SIZE)
    ensures memory ==> Summable(p[..]) && PassesCheck(p[..])
  {
    p := null;
    if memory {
      p := NewPacket(Mirror(g.from), 0, SeqEnd(g), RST_ACK, 0);
    }
  }

  /** A control packet parses to the segment the protocol model sends. */
  lemma ControlOnWire(s: Sock, flags: byte, p: seq<byte>)
    requires Carries(p, s.tuple, s.sndNxt, s.rcvNxt, flags, s.rcvWnd, IP_BASE_HDR_SIZE + TCP_BASE_HDR_SIZE)
    ensures Parse(p) == ControlSegment(s, flags) && SeqEnd(Parse(p)) == AfterControl(s, flags).sndNxt
  {
    FieldsSurvive(p, s.tuple, s.sndNxt, s.rcvNxt, flags, s.rcvWnd, IP_BASE_HDR_SIZE + TCP_BASE_HDR_SIZE);
  }

  /** A FIN, with or without ACK, takes a number at both ends. */
  lemma FinOnWire(s: Sock, flags: byte, p: seq<byte>)
    requires flags == 0x01 || flags == 0x11
    requires Carries(p, s.tuple, s.sndNxt, s.rcvNxt, flags, s.rcvWnd, IP_BASE_HDR_SIZE + TCP_BASE_HDR_SIZE)
    ensures SeqEnd(Parse(p)) == (s.sndNxt + 1) % TWO32 == AfterControl(s, flags).sndNxt
  {
    ControlOnWire(s, flags, p);
    FlagNumbers();
  }

  /** The receiver's idea of where a data packet ends is the sender's next
      sequence number if and only if the length fits the 16-bit length field. */
  lemma DataOnWire(s: Sock, len: nat, p: seq<byte>)
    requires HEADERS <= len < 0x8000_0000
    requires Carries(p, s.tuple, s.sndNxt, s.rcvNxt, PSH_ACK, s.rcvWnd, (len - ETHER_HDR_SIZE) % TWO16)
    ensures SeqEnd(Parse(p)) == AfterData(s, len - HEADERS).sndNxt <==> len - ETHER_HDR_SIZE < TWO16
    ensures len - ETHER_HDR_SIZE < TWO16 ==> Parse(p) == DataSegment(s, len - HEADERS)
  {
    var total := len - ETHER_HDR_SIZE;
    FieldsSurvive(p, s.tuple, s.sndNxt, s.rcvNxt, PSH_ACK, s.rcvWnd, total % TWO16);
    DataEnds(s, Parse(p), total);
  }

  lemma DataEnds(s: Sock, g: Segment, total: nat)
    requires 40 <= total < 0x8000_0000
    requires g == Segment(s.tuple, s.sndNxt, s.rcvNxt, PSH_ACK, s.rcvWnd, total % TWO16 - 40)
    ensures SeqEnd(g) == AfterData(s, total - 40).sndNxt <==> total < TWO16
    ensures total < TWO16 ==> g == DataSegment(s, total - 40)
  {
    ShortEnd(s, g, total % TWO16 - 40, total - 40);
    ShortByMultiples(s.sndNxt, total);
  }

  /** Where a segment ends, and where the sender says it does. */
  lemma ShortEnd(s: Sock, g: Segment, short: int, data: nat)
    requires g.seqNo == s.sndNxt && g.flags == PSH_ACK && g.len == short
    ensures SeqEnd(g) == (s.sndNxt + short) % TWO32 && AfterData(s, data).sndNxt == (s.sndNxt + data) % TWO32
  {
  }

  lemma ShortByMultiples(a: u32, total: nat)
    requires 40 <= total < 0x8000_0000
    ensures (a + (total % TWO16 - 40)) % TWO32 == (a + (total - 40)) % TWO32 <==> total < TWO16
  {
    var k := total / TWO16;
    assert total == TWO16 * k + total % TWO16;
    var x, y := a + (total % TWO16 - 40), a + (total - 40);
    assert y - x == TWO16 * k;
    SameModulo(x, y);
  }

  lemma SameModulo(x: int, y: int)
    requires 0 <= y - x < TWO32
    ensures x % TWO32 == y % TWO32 <==> x == y
  {
  }

  // Runs of sends

  datatype Send = Data(len: nat) | Control(flags: byte)

  function Emitted(s: Sock, a: Send): Segment {
    match a
    case Data(len) => DataSegment(s, len)
    case Control(flags) => ControlSegment(s, flags)
  }

  function AfterSend(s: Sock, a: Send): Sock {
    match a
    case Data(len) => AfterData(s, len)
    case Control(flags) => AfterControl(s, flags)
  }

  function EmittedAll(s: Sock, sends: seq<Send>): (gs: seq<Segment>)
    ensures |gs| == |sends|
    decreases |sends|
  {
    if sends == [] then [] else [Emitted(s, sends[0])] + EmittedAll(AfterSend(s, sends[0]), sends[1..])
  }

  function AfterAll(s: Sock, sends: seq<Send>): Sock
    decreases |sends|
  {
    if sends == [] then s else AfterAll(AfterSend(s, sends[0]), sends[1..])
  }

  /** How many of the sends are control packets that take a sequence number. */
  function Numbered(sends: seq<Send>): nat {
    if sends == [] then 0
    else (if sends[0].Control? && TakesNumber(sends[0].flags) then 1 else 0) + Numbered(sends[1..])
  }

  /** The segments of a run tile sequence space: each starts where the one
      before it ends, and the last ends at snd_nxt. */
  lemma {:induction false} SendsTile(s: Sock, sends: seq<Send>)
    ensures var gs := EmittedAll(s, sends);
      && (gs != [] ==> gs[0].seqNo == s.sndNxt && SeqEnd(gs[|gs| - 1]) == AfterAll(s, sends).sndNxt)
      && forall i :: 0 <= i < |gs| - 1 ==> gs[i + 1].seqNo == SeqEnd(gs[i])
    decreases |sends|
  {
    if sends != [] {
      var s1 := AfterSend(s, sends[0]);
      SendsTile(s1, sends[1..]);
      SendEnds(s, sends[0]);
      var gs, rest := EmittedAll(s, sends), EmittedAll(s1, sends[1..]);
      assert forall i :: 0 < i < |gs| ==> gs[i] == rest[i - 1];
    }
  }

  lemma SendEnds(s: Sock, a: Send)
    ensures SeqEnd(Emitted(s, a)) == AfterSend(s, a).sndNxt
  {
  }

  /** snd_nxt + snd_wnd moves only with numbered control packets; data sends
      take from one what they add to the other. */
  lemma {:induction false} WindowConserved(s: Sock, sends: seq<Send>)
    ensures var s' := AfterAll(s, sends);
      (s'.sndNxt + s'.sndWnd) % TWO32 == (s.sndNxt + s.sndWnd + Numbered(sends)) % TWO32
    decreases |sends|
  {
    if sends != [] {
      var s1 := AfterSend(s, sends[0]);
      WindowConserved(s1, sends[1..]);
      WindowStep(s, sends[0]);
      var n := Numbered(sends[1..]);
      AddModulo(s1.sndNxt + s1.sndWnd, s.sndNxt + s.sndWnd + Numbered(sends) - n, n);
    }
  }

  lemma WindowStep(s: Sock, a: Send)
    ensures var s1, d := AfterSend(s, a), if a.Control? && TakesNumber(a.flags) then 1 else 0;
      (s1.sndNxt + s1.sndWnd) % TWO32 == (s.sndNxt + s.sndWnd + d) % TWO32
  {
    match a
    case Data(len) => WrapsAdd(s.sndNxt + len, s.sndWnd - len);
    case Control(_) => WrapsAdd(s.sndNxt + 1, s.sndWnd);
  }

  lemma WrapsAdd(x: int, y: int)
    ensures (x % TWO32 + y % TWO32) % TWO32 == (x + y) % TWO32
    ensures (x % TWO32 + y) % TWO32 == (x + y) % TWO32
  {
    AddModulo(x % TWO32, x, y);
    AddModulo(y % TWO32, y, x % TWO32);
  }

  lemma AddModulo(a: int, b: int, n: int)
    requires a % TWO32 == b % TWO32
    ensures (a + n) % TWO32 == (b + n) % TWO32
  {
  }

  // The packets of a run

  /** p is a packet that sock s puts on the wire for this send. */
  ghost predicate OnWire(s: Sock, a: Send, p: seq<byte>) {
    match a
    case Data(len) => Carries(p, s.tuple, s.sndNxt, s.rcvNxt, PSH_ACK, s.rcvWnd, (len + 40) % TWO16)
    case Control(flags) => Carries(p, s.tuple, s.sndNxt, s.rcvNxt, flags, s.rcvWnd, 40)
  }

  ghost predicate AllOnWire(s: Sock, sends: seq<Send>, ps: seq<seq<byte>>)
    decreases |sends|
  {
    && |ps| == |sends|
    && (sends != [] ==> OnWire(s, sends[0], ps[0]) && AllOnWire(AfterSend(s, sends[0]), sends[1..], ps[1..]))
  }

  /** The IP length of the packet fits its 16-bit field. */
  predicate Fits(a: Send) {
    a.Data? ==> a.len + 40 < TWO16
  }

  predicate Parsable(p: seq<byte>) {
    |p| >= HEADERS && |p| >= ETHER_HDR_SIZE + p[14] % 16 * 4 + TCP_BASE_HDR_SIZE
  }

  /** As the receiver parses them, the packets cover sequence space from start to
      end: each begins where the one before it ends. */
  predicate Tiles(start: u32, ps: seq<seq<byte>>, end: u32)
    decreases |ps|
  {
    if ps == [] then start == end
    else Parsable(ps[0]) && Parse(ps[0]).seqNo == start && Tiles(SeqEnd(Parse(ps[0])), ps[1..], end)
  }

  /** One packet: where it starts, and when its end is understood. */
  lemma PacketEnds(s: Sock, a: Send, p: seq<byte>)
    requires OnWire(s, a, p) && (a.Data? ==> a.len + HEADERS < 0x8000_0000)
    ensures Parsable(p) && Parse(p).seqNo == s.sndNxt
    ensures SeqEnd(Parse(p)) == AfterSend(s, a).sndNxt <==> Fits(a)
  {
    match a
    case Data(len) =>
      DataOnWire(s, len + HEADERS, p);
      FieldsSurvive(p, s.tuple, s.sndNxt, s.rcvNxt, PSH_ACK, s.rcvWnd, (len + 40) % TWO16);
    case Control(flags) => ControlOnWire(s, flags, p);
  }

  /** The parsed packets of a run of sends tile sequence space from the old to the
      new snd_nxt if and only if every one of them fits its length field. */
  lemma {:induction false} PacketsTile(s: Sock, sends: seq<Send>, ps: seq<seq<byte>>)
    requires AllOnWire(s, sends, ps)
    requires forall i :: 0 <= i < |sends| && sends[i].Data? ==> sends[i].len + HEADERS < 0x8000_0000
    ensures Tiles(s.sndNxt, ps, AfterAll(s, sends).sndNxt) <==> forall i :: 0 <= i < |sends| ==> Fits(sends[i])
    decreases |sends|
  {
    if sends != [] {
      var s1 := AfterSend(s, sends[0]);
      PacketEnds(s, sends[0], ps[0]);
      PacketsTile(s1, sends[1..], ps[1..]);
      if Fits(sends[0]) {
        assert forall i :: 0 < i < |sends| ==> sends[i] == sends[1..][i - 1];
      } else if |sends| > 1 {
        PacketEnds(s1, sends[1], ps[1]);
      }
    }
  }
}
