/** The network of packets: what hosts emit is bytes, what arrives is checked and
    parsed. It refines the network of segments. */
module ByteNet {
  import opened Base
  import opened Segments
  import opened Hosts
  import opened Headers
  import opened Checksum
  import opened Net
  import opened Handshake

  /** p is a packet that carries segment g and its checksum. */
  ghost predicate Carrier(p: seq<byte>, g: Segment) {
    && 0 <= g.len && g.len + 40 < TWO16
    && Carries(p, g.from, g.seqNo, g.ack, g.flags, g.rwnd, g.len + 40)
    && Summable(p) && PassesCheck(p)
  }

  lemma CarrierParses(p: seq<byte>, g: Segment)
    requires 0 <= g.len && g.len + 40 < TWO16 && Carries(p, g.from, g.seqNo, g.ack, g.flags, g.rwnd, g.len + 40)
    ensures Parsable(p) && Parse(p) == g
  {
    FieldsSurvive(p, g.from, g.seqNo, g.ack, g.flags, g.rwnd, g.len + 40);
  }

  /** What the send functions build are such packets. */
  method EmitControl(s: Sock, flags: byte) returns (p: array<byte>, s': Sock)
    ensures Carrier(p[..], ControlSegment(s, flags)) && s' == AfterControl(s, flags)
  {
    var q, t := SendControl(s, flags, true);
    p, s' := q, t;
  }

  method EmitReset(g: Segment) returns (p: array<byte>)
    ensures Carrier(p[..], ResetSegment(g))
  {
    var q := SendReset(g, true);
    p := q;
  }

  method EmitData(s: Sock, p: array<byte>, len: nat) returns (s': Sock)
    requires HEADERS + len <= p.Length && len + 40 < TWO16
    modifies p
    ensures Carrier(p[..], DataSegment(s, len)) && s' == AfterData(s, len)
  {
    ghost var total: u16 := len + 40;
    FitsLength(len, total);
    s' := SendPacket(s, p, len + HEADERS);
    DataCarrier(s, p[..], len, total);
  }

  lemma FitsLength(len: nat, total: u16)
    requires total == len + 40
    ensures (len + HEADERS - ETHER_HDR_SIZE) % TWO16 == total
  {
  }

  lemma DataCarrier(s: Sock, p: seq<byte>, len: nat, total: u16)
    requires total == len + 40 && Carries(p, s.tuple, s.sndNxt, s.rcvNxt, PSH_ACK, s.rcvWnd, total)
    ensures Summable(p) && PassesCheck(p) ==> Carrier(p, DataSegment(s, len))
  {
  }

  /** handle_tcp_packet up to the lookup: test the checksum, then parse. A packet
      too short for its own lengths is not accepted. */
  function Accepted(p: seq<byte>): Option<Segment> {
    if Summable(p) && Parsable(p) && PassesCheck(p) then Some(Parse(p)) else None
  }

  lemma CarrierAccepted(p: seq<byte>, g: Segment)
    requires 0 <= g.len && g.len + 40 < TWO16 && Carries(p, g.from, g.seqNo, g.ack, g.flags, g.rwnd, g.len + 40)
    ensures Summable(p) && PassesCheck(p) ==> Accepted(p) == Some(g)
  {
    CarrierParses(p, g);
  }

  // What is not accepted

  /** A packet whose stored checksum is not what the sum over its bytes gives is
      dropped. */
  lemma MismatchDropped(p: seq<byte>, at: nat, len: u16)
    requires |p| >= HEADERS && at == TcpAt(p) && len == TcpLen(p) && at + 18 <= |p| && at + len <= |p|
    ensures CheckValue(ZeroField(p[at..])[..len], PseudoSum(p[26..30], p[30..34], p[23], len)) != Word(p[at + 16], p[at + 17])
      ==> Accepted(p) == None
  {
  }

  /** The start of handle_tcp_packet on the bytes of a packet */
  method Screen(p: array<byte>) returns (seen: Option<Segment>)
    requires Summable(p[..]) && Parsable(p[..])
    modifies p
    ensures p[..] == old(p[..]) && seen == Accepted(p[..])
  {
    ghost var before := p[..];
    var at, len := TcpAt(p[..]), TcpLen(p[..]);
    var c := TcpChecksum(p[26..30], p[30..34], p[23], p, at, len);
    Unchanged(before, p[..], p[26..30], p[30..34], p[at..], at);
    if c != Word(p[at + 16], p[at + 17]) {
      return None;
    }
    seen := Some(Parse(p[..]));
  }

  lemma Unchanged(before: seq<byte>, after: seq<byte>, s: seq<byte>, d: seq<byte>, seg: seq<byte>, at: nat)
    requires before == after && |before| >= HEADERS && at <= |before|
    requires s == after[26..30] && d == after[30..34] && seg == after[at..]
    ensures s == before[26..30] && d == before[30..34] && seg == before[at..]
  {
  }

  /** A packet that carries a segment and has one byte of its TCP header or data
      changed in transit is dropped, whichever byte it is. */
  lemma {:induction false} OneByteCaught(p: seq<byte>, g: Segment, q: seq<byte>, i: nat)
    requires 0 <= g.len && g.len + 40 < TWO16 && Carries(p, g.from, g.seqNo, g.ack, g.flags, g.rwnd, g.len + 40)
    requires 34 <= i < HEADERS + g.len && i < |p| == |q| && p[i] != q[i]
    requires forall k :: 0 <= k < |p| && k != i ==> p[k] == q[k]
    ensures Summable(p) && PassesCheck(p) ==> Accepted(q) == None
  {
    assert q == p[i := q[i]];
    CarrierShape(p, g);
    if Summable(p) && PassesCheck(p) {
      if i == 50 || i == 51 {
        FieldDamage(p, i, q[i]);
      } else {
        BodyDamage(p, q, i);
      }
    }
  }

  lemma CarrierShape(p: seq<byte>, g: Segment)
    requires 0 <= g.len && g.len + 40 < TWO16 && Carries(p, g.from, g.seqNo, g.ack, g.flags, g.rwnd, g.len + 40)
    ensures TcpAt(p) == 34 && TcpLen(p) == g.len + 20
  {
    var total: u16 := g.len + 40;
    SealedCarries(p, g.from, g.seqNo, g.ack, g.flags, g.rwnd, total);
    TcpPart(total);
  }

  lemma TcpPart(total: u16)
    requires total >= 20
    ensures (total - 20) % TWO16 == total - 20
  {
  }

  lemma DamageKeepsShape(p: seq<byte>, i: nat, v: byte)
    requires Summable(p) && TcpAt(p) == 34 && 34 <= i < |p|
    ensures var q := p[i := v]; Summable(q) && TcpAt(q) == 34 && TcpLen(q) == TcpLen(p)
    ensures var q := p[i := v]; q[23] == p[23] && q[26..30] == p[26..30] && q[30..34] == p[30..34] && q[34..] == p[34..][i - 34 := v]
  {
    var q := p[i := v];
    assert q[16..18] == p[16..18];
  }

  /** Damage to the checksum field: the sum is the same, the field is not. */
  lemma FieldDamage(p: seq<byte>, i: nat, v: byte)
    requires Summable(p) && TcpAt(p) == 34 && (i == 50 || i == 51) && v != p[i]
    ensures Summable(p[i := v]) && (PassesCheck(p) ==> !PassesCheck(p[i := v]))
  {
    DamageKeepsShape(p, i, v);
    var q := p[i := v];
    assert ZeroField(q[34..]) == ZeroField(p[34..]);
    assert q[50] != p[50] || q[51] != p[51];
    WordsDiffer(p[50], p[51], q[50], q[51]);
  }

  lemma WordsDiffer(a: byte, b: byte, c: byte, d: byte)
    requires a != c || b != d
    ensures Word(a, b) != Word(c, d)
  {
  }

  /** Damage elsewhere: the field is the same, the sum is not. */
  lemma BodyDamage(p: seq<byte>, q: seq<byte>, i: nat)
    requires Summable(p) && TcpAt(p) == 34 && 34 <= i < 34 + TcpLen(p) && i != 50 && i != 51
    requires |q| == |p| && q == p[i := q[i]] && q[i] != p[i]
    ensures Summable(q) && PacketCheck(q) != PacketCheck(p)
  {
    var len := TcpLen(p);
    DamageKeepsShape(p, i, q[i]);
    SumsDiffer(p[34..], q[34..], i - 34, len, PseudoSum(p[26..30], p[30..34], p[23], len));
  }

  lemma SumsDiffer(x: seq<byte>, y: seq<byte>, i: nat, len: nat, sum: nat)
    requires 18 <= |x| && len <= |x| && i < len && i != 16 && i != 17 && |y| == |x| && y == x[i := y[i]] && x[i] != y[i]
    ensures CheckValue(ZeroField(x)[..len], sum) != CheckValue(ZeroField(y)[..len], sum)
  {
    var z := ZeroField(x)[..len];
    assert ZeroField(y)[..len] == z[i := y[i]];
    OneByteChanges(z, i, y[i], sum);
  }

  /** A packet, together with the segment it was built from */
  datatype Packet = Packet(p: seq<byte>, g: Segment)

  /** wire holds every packet ever emitted. */
  datatype Wires = Wires(hosts: seq<Host>, halted: set<nat>, wire: set<Packet>, log: seq<Event>)

  /** seen is what the receiver makes of the arriving bytes p. */
  datatype Move =
    | Call(a: Action, out: set<Packet>)
    | Arrive(x: nat, p: seq<byte>, seen: Option<Segment>, out: set<Packet>)

  ghost predicate AllCarried(ps: set<Packet>) {
    forall e {:trigger Carrier(e.p, e.g)} :: e in ps ==> Carrier(e.p, e.g)
  }

  /** The packets are built from exactly the segments that the step sends. */
  predicate Emitted(out: set<Packet>, sent: set<Segment>) {
    (set e | e in out :: e.g) == sent
  }

  /** What arrives may have been corrupted or made up, but then the test fails:
      bytes that are accepted are those of an emitted packet. */
  ghost predicate Front(b: Wires, m: Move) {
    match m
    case Call(a, out) => AllCarried(out)
    case Arrive(x, p, seen, out) => AllCarried(out) && seen == Accepted(p) && (seen.Some? ==> exists e :: e in b.wire && e.p == p)
  }

  /** The step itself, once it is known what was seen. */
  ghost predicate Core(b: Wires, m: Move, b': Wires) {
    match m
    case Call(a, out) =>
      && a.x < |b.hosts| && a.x !in b.halted && !a.Deliver? && HostEnabled(b.hosts[a.x], a) && HostReady(b.hosts[a.x], a)
      && Emitted(out, Sends(b.hosts[a.x], a))
      && b' == Wires(b.hosts[a.x := HostNext(b.hosts[a.x], a)], b.halted, b.wire + out, b.log + Logs(b.hosts[a.x], a))
    case Arrive(x, p, seen, out) =>
      && x < |b.hosts| && x !in b.halted
      && match seen
         case None => b' == b
         case Some(g) =>
           var h, a := b.hosts[x], Deliver(x, g);
           && HostReady(h, a) && Emitted(out, Sends(h, a))
           && b' == Wires(b.hosts[x := HostNext(h, a)], if Halts(h, a) then b.halted + {x} else b.halted, b.wire + out, b.log + Logs(h, a))
  }

  /** The packets on the wire carry exactly the segments that were sent. */
  ghost predicate Abstracts(b: Wires, w: World) {
    w.hosts == b.hosts && w.halted == b.halted && w.log == b.log && Emitted(b.wire, w.sent)
  }

  lemma EmittedGrow(ps: set<Packet>, out: set<Packet>, sent: set<Segment>, more: set<Segment>)
    requires Emitted(ps, sent) && Emitted(out, more)
    ensures Emitted(ps + out, sent + more)
  {
  }

  /** Accepted bytes are a segment that was sent. */
  lemma SeenWasSent(b: Wires, m: Move, w: World)
    requires Abstracts(b, w) && AllCarried(b.wire) && Front(b, m) && m.Arrive? && m.seen.Some?
    ensures m.seen.value in w.sent
  {
    var e :| e in b.wire && e.p == m.p;
    assert Carrier(e.p, e.g);
    CarrierAccepted(e.p, e.g);
  }

  lemma CarriedGrow(ps: set<Packet>, out: set<Packet>)
    requires AllCarried(ps) && AllCarried(out)
    ensures AllCarried(ps + out)
  {
  }

  lemma CoreCarried(b: Wires, m: Move, b': Wires)
    requires AllCarried(b.wire) && AllCarried(m.out) && Core(b, m, b')
    ensures AllCarried(b'.wire)
  {
    CarriedGrow(b.wire, m.out);
  }

  lemma CallRefines(b: Wires, m: Move, b': Wires, w: World) returns (w': World)
    requires Abstracts(b, w) && m.Call? && Core(b, m, b')
    ensures Abstracts(b', w') && Step(w, w')
  {
    assert Enabled(w, m.a);
    w' := Next(w, m.a);
    EmittedGrow(b.wire, m.out, w.sent, Sends(b.hosts[m.a.x], m.a));
  }

  lemma ArrivalRefines(b: Wires, m: Move, b': Wires, w: World) returns (w': World)
    requires Abstracts(b, w) && m.Arrive? && m.seen.Some? && m.seen.value in w.sent && Core(b, m, b')
    ensures Abstracts(b', w') && Step(w, w')
  {
    var a := Deliver(m.x, m.seen.value);
    assert Enabled(w, a);
    w' := Next(w, a);
    EmittedGrow(b.wire, m.out, w.sent, Sends(b.hosts[m.x], a));
  }

  /** A move of packets is a step of segments, or nothing. */
  lemma MoveRefines(b: Wires, m: Move, b': Wires, w: World) returns (w': World)
    requires Abstracts(b, w) && Core(b, m, b') && (m.Arrive? && m.seen.Some? ==> m.seen.value in w.sent)
    ensures Abstracts(b', w') && (w' == w || Step(w, w'))
  {
    if m.Call? {
      w' := CallRefines(b, m, b', w);
    } else if m.seen.Some? {
      w' := ArrivalRefines(b, m, b', w);
    } else {
      w' := w;
    }
  }

  /** Bytes that are not accepted may arrive at any host that is up, at any time ... */
  lemma DamageArrives(b: Wires, x: nat, p: seq<byte>)
    requires x < |b.hosts| && x !in b.halted && Accepted(p) == None
    ensures Moved(b, b) && Front(b, Arrive(x, p, None, {})) && Core(b, Arrive(x, p, None, {}), b)
  {
    var m := Arrive(x, p, None, {});
    assert Front(b, m) && Core(b, m, b);
  }

  /** ... and never change anything. */
  lemma DamageChangesNothing(b: Wires, m: Move, b': Wires)
    requires m.Arrive? && Accepted(m.p) == None && Front(b, m) && Core(b, m, b')
    ensures b' == b
  {
    match m
    case Arrive(x, p, seen, out) => assert seen == None;
  }

  ghost predicate Moved(b: Wires, b': Wires) {
    exists m :: Front(b, m) && Core(b, m, b')
  }

  lemma MovedRefines(b: Wires, b': Wires, w: World) returns (w': World)
    requires Abstracts(b, w) && AllCarried(b.wire) && Moved(b, b')
    ensures Abstracts(b', w') && AllCarried(b'.wire) && (w' == w || Step(w, w'))
  {
    var m :| Front(b, m) && Core(b, m, b');
    CoreCarried(b, m, b');
    if m.Arrive? && m.seen.Some? {
      SeenWasSent(b, m, w);
    }
    w' := MoveRefines(b, m, b', w);
  }

  ghost predicate ByteRun(bs: seq<Wires>) {
    && |bs| > 0 && bs[0] == Wires(Initial(|bs[0].hosts|).hosts, {}, {}, [])
    && forall i :: 0 <= i < |bs| - 1 ==> Moved(bs[i], bs[i + 1])
  }

  /** Every run of packets is a run of segments: each of its states has its
      counterpart, in order. */
  lemma {:induction false} ByteRunRefines(bs: seq<Wires>) returns (ws: seq<World>, at: seq<nat>)
    requires ByteRun(bs)
    ensures IsRun(ws) && Follows(bs, ws, at) && AllCarried(bs[|bs| - 1].wire)
    decreases |bs|
  {
    if |bs| == 1 {
      ws, at := [Initial(|bs[0].hosts|)], [0];
    } else {
      var front := bs[..|bs| - 1];
      FrontRuns(bs);
      var vs, bt := ByteRunRefines(front);
      ws, at := RunOneMore(bs, vs, bt);
    }
  }

  lemma FrontRuns(bs: seq<Wires>)
    requires ByteRun(bs) && |bs| > 1
    ensures ByteRun(bs[..|bs| - 1])
  {
    var front := bs[..|bs| - 1];
    forall i | 0 <= i < |front| - 1 ensures Moved(front[i], front[i + 1]) {
      assert Moved(bs[i], bs[i + 1]);
    }
  }

  /** State i of the packets is state at[i] of the segments. */
  ghost predicate Follows(bs: seq<Wires>, ws: seq<World>, at: seq<nat>) {
    && |at| == |bs| > 0 && at[|bs| - 1] == |ws| - 1
    && (forall i :: 0 <= i < |bs| ==> at[i] < |ws| && Abstracts(bs[i], ws[at[i]]))
    && (forall i, j :: 0 <= i <= j < |bs| ==> at[i] <= at[j])
  }

  lemma RunOneMore(bs: seq<Wires>, vs: seq<World>, bt: seq<nat>) returns (ws: seq<World>, at: seq<nat>)
    requires ByteRun(bs) && |bs| > 1 && IsRun(vs) && Follows(bs[..|bs| - 1], vs, bt) && AllCarried(bs[|bs| - 2].wire)
    ensures IsRun(ws) && Follows(bs, ws, at) && AllCarried(bs[|bs| - 1].wire)
  {
    var n := |bs| - 1;
    var front := bs[..n];
    assert Moved(bs[n - 1], bs[n - 1 + 1]);
    assert Abstracts(front[n - 1], vs[bt[n - 1]]) && front[n - 1] == bs[n - 1];
    var w := MovedRefines(bs[n - 1], bs[n], Last(vs));
    if w == Last(vs) {
      ws, at := vs, bt + [|vs| - 1];
    } else {
      RunGrows(vs, w);
      ws, at := vs + [w], bt + [|vs|];
    }
    FollowsMore(front, vs, bt, bs, ws, at);
  }

  lemma FollowsMore(front: seq<Wires>, vs: seq<World>, bt: seq<nat>, bs: seq<Wires>, ws: seq<World>, at: seq<nat>)
    requires Follows(front, vs, bt) && |bs| == |front| + 1 && bs[..|front|] == front
    requires vs <= ws && |ws| > 0 && at == bt + [|ws| - 1] && Abstracts(bs[|front|], ws[|ws| - 1])
    ensures Follows(bs, ws, at)
  {
    forall i | 0 <= i < |bs| ensures at[i] < |ws| && Abstracts(bs[i], ws[at[i]]) {
      if i < |front| { assert Abstracts(front[i], vs[bt[i]]); }
    }
  }

  /** So what holds in every run of segments holds on the wire: a child is
      established only after its peer was. */
  lemma EstablishedOnWire(bs: seq<Wires>, j: nat, x: nat, c: SockId, t: Tuple) returns (ws: seq<World>, at: seq<nat>, i: nat)
    requires ByteRun(bs) && j < |bs| && x < |bs[j].hosts| && IsChild(bs[j].hosts[x], c, t) && bs[j].hosts[x].socks[c].state == Established
    ensures IsRun(ws) && Follows(bs, ws, at)
    ensures i < at[j] && HasConnected(ws[i], Mirror(t))
  {
    ws, at := ByteRunRefines(bs);
    assert Abstracts(bs[j], ws[at[j]]);
    i := EstablishedAfterPeer(ws, at[j], x, c, t);
  }

  // The other direction: every step of segments is a move of packets

  /** A packet for g, its checksum field still zero */
  function Frame(g: Segment): seq<byte>
    requires 0 <= g.len && g.len + 40 < TWO16
  {
    seq(14, _ => 0 as byte)
      + ([0x45, 0] + Be16(g.len + 40) + [0, 0, 0, 0, 0, 6, 0, 0] + Be32(g.from.sip) + Be32(g.from.dip))
      + TcpHeader(g.from.sport, g.from.dport, g.seqNo, g.ack, g.flags, g.rwnd)
      + seq(g.len, _ => 0 as byte)
  }

  lemma FrameCarries(g: Segment)
    requires 0 <= g.len && g.len + 40 < TWO16
    ensures |Frame(g)| == HEADERS + g.len
    ensures Carries(Frame(g), g.from, g.seqNo, g.ack, g.flags, g.rwnd, g.len + 40)
  {
    var p := Frame(g);
    assert p[16..18] == Be16(g.len + 40) && p[26..30] == Be32(g.from.sip) && p[30..34] == Be32(g.from.dip);
    assert p[34..50] == TcpHeader(g.from.sport, g.from.dport, g.seqNo, g.ack, g.flags, g.rwnd)[..16];
  }

  lemma FrameSummable(p: seq<byte>, g: Segment)
    requires 0 <= g.len && g.len + 40 < TWO16 && |p| == HEADERS + g.len
    requires Carries(p, g.from, g.seqNo, g.ack, g.flags, g.rwnd, g.len + 40)
    ensures Summable(p) && TcpAt(p) == 34
  {
    SealedCarries(p, g.from, g.seqNo, g.ack, g.flags, g.rwnd, g.len + 40);
  }

  lemma FrameSealed(g: Segment)
    requires 0 <= g.len && g.len + 40 < TWO16
    ensures Summable(Frame(g)) && Carrier(Sealed(Frame(g)), g)
  {
    FrameCarries(g);
    FrameSummable(Frame(g), g);
    SealedCarries(Frame(g), g.from, g.seqNo, g.ack, g.flags, g.rwnd, g.len + 40);
    SealedPasses(Frame(g));
  }

  /** The segments of a step fit packets, if its data does. */
  predicate DataFits(a: Action) {
    a.SendData? ==> a.len + 40 < TWO16
  }

  lemma SegmentsFit(h: Host, a: Action, g: Segment)
    requires HostReady(h, a) && DataFits(a) && g in Sends(h, a)
    ensures 0 <= g.len && g.len + 40 < TWO16
  {
  }

  lemma PacketsFor(sent: set<Segment>) returns (out: set<Packet>)
    requires forall g :: g in sent ==> 0 <= g.len && g.len + 40 < TWO16
    ensures AllCarried(out) && Emitted(out, sent)
  {
    out := {};
    var rest := sent;
    while rest != {}
      invariant rest <= sent && AllCarried(out) && Emitted(out, sent - rest)
      decreases rest
    {
      var g :| g in rest;
      var p := OnePacket(g);
      CarriedGrow(out, {Packet(p, g)});
      EmittedGrow(out, {Packet(p, g)}, sent - rest, {g});
      assert sent - (rest - {g}) == (sent - rest) + {g};
      out, rest := out + {Packet(p, g)}, rest - {g};
    }
    assert sent - rest == sent;
  }

  lemma OnePacket(g: Segment) returns (p: seq<byte>)
    requires 0 <= g.len && g.len + 40 < TWO16
    ensures AllCarried({Packet(p, g)}) && Emitted({Packet(p, g)}, {g})
  {
    FrameSealed(g);
    p := Sealed(Frame(g));
  }

  lemma StepHasMove(b: Wires, w: World, a: Action) returns (b': Wires)
    requires Abstracts(b, w) && AllCarried(b.wire) && Enabled(w, a) && HostReady(w.hosts[a.x], a) && DataFits(a)
    ensures Moved(b, b') && Abstracts(b', Next(w, a))
  {
    var h := w.hosts[a.x];
    forall g | g in Sends(h, a) ensures 0 <= g.len && g.len + 40 < TWO16 { SegmentsFit(h, a, g); }
    var out := PacketsFor(Sends(h, a));
    if a.Deliver? {
      b' := DeliveryHasMove(b, w, a, out);
    } else {
      var m := Call(a, out);
      b' := Wires(b.hosts[a.x := HostNext(h, a)], b.halted, b.wire + out, b.log + Logs(h, a));
      assert Front(b, m) && Core(b, m, b');
      EmittedGrow(b.wire, out, w.sent, Sends(h, a));
    }
  }

  lemma DeliveryHasMove(b: Wires, w: World, a: Action, out: set<Packet>) returns (b': Wires)
    requires Abstracts(b, w) && AllCarried(b.wire) && Enabled(w, a) && a.Deliver? && HostReady(w.hosts[a.x], a)
    requires AllCarried(out) && Emitted(out, Sends(w.hosts[a.x], a))
    ensures Moved(b, b') && Abstracts(b', Next(w, a))
  {
    var h := w.hosts[a.x];
    var e := PacketOf(b.wire, w.sent, a.g);
    var m := Arrive(a.x, e.p, Some(a.g), out);
    b' := Wires(b.hosts[a.x := HostNext(h, a)], if Halts(h, a) then b.halted + {a.x} else b.halted, b.wire + out, b.log + Logs(h, a));
    assert Front(b, m);
    assert Core(b, m, b');
    EmittedGrow(b.wire, out, w.sent, Sends(h, a));
  }

  lemma PacketOf(ps: set<Packet>, sent: set<Segment>, g: Segment) returns (e: Packet)
    requires AllCarried(ps) && Emitted(ps, sent) && g in sent
    ensures e in ps && e.g == g && Accepted(e.p) == Some(g)
  {
    assert g in (set e | e in ps :: e.g);
    e :| e in ps && e.g == g;
    assert Carrier(e.p, e.g);
    CarrierAccepted(e.p, e.g);
  }
}
