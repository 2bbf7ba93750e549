/** The handshake can complete: from every reachable state with a listener and
    an opener, and there are such states. */
module Completion {
  import opened Base
  import opened SeqSpace
  import opened Segments
  import opened Hosts
  import opened Tables
  import opened Queues
  import opened Net
  import opened Handshake

  // What each delivery does

  lemma EstablishedFound(h: Host, id: SockId)
    requires TablesOk(h) && InEstablished(h, id)
    ensures LookupEstablished(h, h.socks[id].tuple) == Some(id)
  {
    FindTupleFinds(h, ListOf(h, EstKey(h.socks[id].tuple)), h.socks[id].tuple);
  }

  /** A sock whose receive variables are as alloc_tcp_sock set them. */
  predicate FreshWindow(s: Sock) {
    s.rcvNxt == 0 && s.rcvWnd == TCP_DEFAULT_WINDOW
  }

  function SynOf(t: Tuple): Segment { Segment(t, 0, 0, SYN, TCP_DEFAULT_WINDOW, 0) }
  function SynAckOf(t: Tuple): Segment { Segment(Mirror(t), 0, 0, SYN_ACK, TCP_DEFAULT_WINDOW, 0) }
  function AckOf(t: Tuple): Segment { Segment(t, 1, 0, ACK, TCP_DEFAULT_WINDOW, 0) }

  lemma FreshAccepts(s: Sock, g: Segment)
    requires FreshWindow(s) && g.seqNo <= 1 && g.len == 0
    ensures SeqValid(s.rcvNxt, s.rcvWnd, g.seqNo, SeqEnd(g))
  {
    assert SeqEnd(g) <= 2;
  }

  /** What one delivered segment does to a host, in full. */
  ghost predicate DeliverGives(h: Host, g: Segment, h': Host, reply: set<Segment>) {
    var a := Deliver(0, g);
    HostReady(h, a) && !Halts(h, a) && HostNext(h, a) == h' && Sends(h, a) == reply
  }

  lemma SynSpawns(h: Host, l: SockId, t: Tuple)
    requires HostOk(h) && LookupEstablished(h, Mirror(t)).None? && LookupListen(h, t.dport) == Some(l)
    requires l < |h.socks| && FreshWindow(h.socks[l])
    ensures DeliverGives(h, SynOf(t), Spawn(h, l, SynOf(t)), {SynAckOf(t)})
  {
    LookupResult(h, SynOf(t));
    FreshAccepts(h.socks[l], SynOf(t));
    EffectHost(h, Deliver(0, SynOf(t)));
    ClosingFlags(h, Deliver(0, SynOf(t)));
    assert Process(h, l, SynOf(t)).sent == [SynAckOf(t)];
  }

  lemma SynAckOpens(h: Host, o: SockId, t: Tuple)
    requires HostOk(h) && IsOpener(h, o, t) && InEstablished(h, o) && h.socks[o].state == SynSent
    requires FreshWindow(h.socks[o]) && h.socks[o].sndNxt == 1
    ensures DeliverGives(h, SynAckOf(t), Update(h, o, h.socks[o].(state := Established)), {AckOf(t)})
  {
    EstablishedFound(h, o);
    FreshAccepts(h.socks[o], SynAckOf(t));
    assert Process(h, o, SynAckOf(t)).sent == [AckOf(t)];
  }

  lemma AckEstablishes(h: Host, c: SockId, t: Tuple)
    requires HostOk(h) && InEstablished(h, c) && IsChild(h, c, Mirror(t)) && h.socks[c].state == SynRecv && FreshWindow(h.socks[c])
    ensures h.socks[c].parent.value < |h.socks|
    ensures DeliverGives(h, AckOf(t), Acked(h, c), {})
  {
    EstablishedFound(h, c);
    FreshAccepts(h.socks[c], AckOf(t));
    EffectHost(h, Deliver(0, AckOf(t)));
    assert Process(h, c, AckOf(t)).sent == [];
  }

  lemma DeliverStep(w: World, x: nat, g: Segment, h': Host, reply: set<Segment>) returns (w': World)
    requires x < |w.hosts| && x !in w.halted && g in w.sent && DeliverGives(w.hosts[x], g, h', reply)
    ensures Step(w, w') && w'.hosts == w.hosts[x := h'] && w'.sent == w.sent + reply && w'.halted == w.halted
  {
    var a := Deliver(x, g);
    assert Enabled(w, a) && HostReady(w.hosts[x], a);
    w' := Next(w, a);
  }

  // The sequence variables of every run

  /** Nothing has moved the receive variables, and the send variable counts the
      SYN of an active opener. */
  predicate Numbered(s: Sock) {
    && FreshWindow(s)
    && (s.state == Closed || s.state == Listen ==> s.sndNxt == 0)
    && (s.state == SynSent ==> s.sndNxt == 1)
  }

  ghost predicate AllNumbered(h: Host) {
    forall i :: 0 <= i < |h.socks| ==> Numbered(h.socks[i])
  }

  lemma BindNumbers(h: Host, id: SockId, port: u16)
    requires AllNumbered(h) && id < |h.socks| && SetSport(h, id, port).Some?
    ensures AllNumbered(SetSport(h, id, port).value)
  {
  }

  lemma ListenNumbers(h: Host, id: SockId, backlog: int)
    requires AllNumbered(h) && Idle(h, id) && ListenOn(h, id, backlog).Some?
    ensures AllNumbered(ListenOn(h, id, backlog).value)
  {
  }

  lemma ConnectNumbers(h: Host, id: SockId, t: Tuple)
    requires AllNumbered(h) && Idle(h, id)
    ensures AllNumbered(Connect(h, id, t)) && ConnectSegment(h, id, t) == SynOf(t)
  {
  }

  /** A delivery moves a sock to ESTABLISHED or adds a child; it touches no
      sequence variable. */
  predicate Delivered(s: Sock, s': Sock) {
    && s'.tuple == s.tuple && s'.sndNxt == s.sndNxt && s'.rcvNxt == s.rcvNxt && s'.rcvWnd == s.rcvWnd
    && (s'.state == s.state || s'.state == Established)
  }

  ghost predicate OnlyDelivered(h: Host, h': Host) {
    && |h.socks| <= |h'.socks| <= |h.socks| + 1
    && (forall i :: 0 <= i < |h.socks| ==> Delivered(h.socks[i], h'.socks[i]))
    && (|h'.socks| == |h.socks| + 1 ==> FreshWindow(h'.socks[|h.socks|]) && h'.socks[|h.socks|].state == SynRecv)
  }

  lemma AckDelivers(h: Host, id: SockId)
    requires id < |h.socks| && h.socks[id].parent.Some? && h.socks[id].parent.value < |h.socks|
    ensures OnlyDelivered(h, Acked(h, id))
  {
  }

  lemma SpawnDelivers(h: Host, h': Host, l: SockId, g: Segment)
    requires h'.socks == h.socks + [NewChild(l, g)]
    ensures OnlyDelivered(h, h')
  {
  }

  lemma DeliveryIs(h: Host, a: Action)
    requires HostOk(h) && a.Deliver? && HostReady(h, a)
    ensures OnlyDelivered(h, HostNext(h, a))
  {
    LookupResult(h, a.g);
    EffectHost(h, a);
    match EffectOf(h, a.g)
    case Same =>
    case Opens(_) =>
    case Spawns(id) => SpawnHost(h, id, a.g); SpawnDelivers(h, Spawn(h, id, a.g), id, a.g);
    case Acks(id) => AckDelivers(h, id);
  }

  lemma DeliveredNumbers(h: Host, h': Host)
    requires AllNumbered(h) && OnlyDelivered(h, h')
    ensures AllNumbered(h')
  {
    forall i | 0 <= i < |h'.socks| ensures Numbered(h'.socks[i]) {
      assert i < |h.socks| ==> Delivered(h.socks[i], h'.socks[i]) && Numbered(h.socks[i]);
    }
  }

  lemma CallNumbers(h: Host, a: Action)
    requires AllNumbered(h) && HostEnabled(h, a) && HostReady(h, a) && !a.Deliver?
    ensures AllNumbered(HostNext(h, a))
  {
    match a
    case NewSock(_) =>
    case Bind(_, id, port) => if SetSport(h, id, port).Some? { BindNumbers(h, id, port); }
    case Listening(_, id, backlog) => if ListenOn(h, id, backlog).Some? { ListenNumbers(h, id, backlog); }
    case Connecting(_, id, t) => ConnectNumbers(h, id, t);
    case Accept(_, id) =>
    case SendData(_, id, len) =>
  }

  lemma StepNumbers(h: Host, a: Action)
    requires HostOk(h) && AllNumbered(h) && HostEnabled(h, a) && HostReady(h, a)
    ensures AllNumbered(HostNext(h, a))
  {
    if a.Deliver? {
      DeliveryIs(h, a);
      DeliveredNumbers(h, HostNext(h, a));
    } else {
      CallNumbers(h, a);
    }
  }

  /** The SYN of an opener in the handshake has been sent. */
  ghost predicate SynsSent(h: Host, sent: set<Segment>) {
    forall i :: 0 <= i < |h.socks| && h.socks[i].state == SynSent ==> SynOf(h.socks[i].tuple) in sent
  }

  /** A sock that is in SYN_SENT now was there before under the same tuple. */
  predicate OpenBefore(h: Host, h': Host, i: nat)
    requires i < |h'.socks|
  {
    h'.socks[i].state == SynSent ==> i < |h.socks| && h.socks[i].state == SynSent && h'.socks[i].tuple == h.socks[i].tuple
  }

  lemma BindOpensNone(h: Host, id: SockId, port: u16, i: nat)
    requires Idle(h, id) && SetSport(h, id, port).Some? && i < |SetSport(h, id, port).value.socks|
    ensures OpenBefore(h, SetSport(h, id, port).value, i)
  {
  }

  lemma ListenOpensNone(h: Host, id: SockId, backlog: int, i: nat)
    requires Idle(h, id) && ListenOn(h, id, backlog).Some? && i < |ListenOn(h, id, backlog).value.socks|
    ensures OpenBefore(h, ListenOn(h, id, backlog).value, i)
  {
  }

  lemma ConnectOpensOne(h: Host, id: SockId, t: Tuple, i: nat)
    requires Idle(h, id) && i < |Connect(h, id, t).socks|
    ensures if i == id then Connect(h, id, t).socks[i].tuple == t else OpenBefore(h, Connect(h, id, t), i)
  {
  }

  lemma DeliveredOpensNone(h: Host, h': Host, i: nat)
    requires OnlyDelivered(h, h') && i < |h'.socks|
    ensures OpenBefore(h, h', i)
  {
    assert i < |h.socks| ==> Delivered(h.socks[i], h'.socks[i]);
  }

  lemma CallOpens(h: Host, a: Action, i: nat)
    requires HostEnabled(h, a) && HostReady(h, a) && !a.Deliver? && i < |HostNext(h, a).socks|
    ensures if a.Connecting? && a.id == i then HostNext(h, a).socks[i].tuple == a.t else OpenBefore(h, HostNext(h, a), i)
  {
    match a
    case NewSock(_) =>
    case Bind(_, id, port) => if SetSport(h, id, port).Some? { BindOpensNone(h, id, port, i); }
    case Listening(_, id, backlog) => if ListenOn(h, id, backlog).Some? { ListenOpensNone(h, id, backlog, i); }
    case Connecting(_, id, t) => ConnectOpensOne(h, id, t, i);
    case Accept(_, id) =>
    case SendData(_, id, len) =>
  }

  /** Only connect brings a sock into SYN_SENT. */
  lemma OpensByConnect(h: Host, a: Action, i: nat)
    requires HostOk(h) && HostEnabled(h, a) && HostReady(h, a) && i < |HostNext(h, a).socks|
    ensures if a.Connecting? && a.id == i then HostNext(h, a).socks[i].tuple == a.t else OpenBefore(h, HostNext(h, a), i)
  {
    if a.Deliver? {
      DeliveryIs(h, a);
      DeliveredOpensNone(h, HostNext(h, a), i);
    } else {
      CallOpens(h, a, i);
    }
  }

  lemma StepSyns(h: Host, a: Action, sent: set<Segment>)
    requires HostOk(h) && AllNumbered(h) && HostEnabled(h, a) && HostReady(h, a) && SynsSent(h, sent)
    ensures SynsSent(HostNext(h, a), sent + Sends(h, a))
  {
    forall i | 0 <= i < |HostNext(h, a).socks| && HostNext(h, a).socks[i].state == SynSent
      ensures SynOf(HostNext(h, a).socks[i].tuple) in sent + Sends(h, a)
    {
      OpensByConnect(h, a, i);
      if a.Connecting? && a.id == i {
        ConnectNumbers(h, i, a.t);
      }
    }
  }

  ghost predicate WorldNumbered(w: World) {
    forall x :: 0 <= x < |w.hosts| ==> AllNumbered(w.hosts[x]) && SynsSent(w.hosts[x], w.sent)
  }

  /** In every state of every run the sequence variables are as the handshake
      needs them, and the SYN of every waiting opener is in the network. */
  lemma {:induction false} RunNumbers(ws: seq<World>, i: nat)
    requires IsRun(ws) && i < |ws|
    ensures WorldNumbered(ws[i])
  {
    if i == 0 {
      assert EmptyHost.socks == [];
    } else {
      RunNumbers(ws, i - 1);
      assert HostsOk(ws[i - 1]) by { RunOk(ws, i - 1); }
      assert Step(ws[i - 1], ws[i - 1 + 1]);
      var a :| Enabled(ws[i - 1], a) && HostReady(ws[i - 1].hosts[a.x], a) && ws[i] == Next(ws[i - 1], a);
      NumberedStep(ws[i - 1], a);
    }
  }

  lemma NumberedStep(w: World, a: Action)
    requires HostsOk(w) && WorldNumbered(w) && Enabled(w, a) && HostReady(w.hosts[a.x], a)
    ensures WorldNumbered(Next(w, a))
  {
    var h := w.hosts[a.x];
    assert HostOk(h);
    StepNumbers(h, a);
    StepSyns(h, a, w.sent);
  }

  // Three deliveries

  /** An opener in the handshake, where the SYN|ACK will find it */
  predicate Waits(h: Host, o: SockId, t: Tuple) {
    IsOpener(h, o, t) && InEstablished(h, o) && h.socks[o].state == SynSent && h.socks[o].sndNxt == 1 && FreshWindow(h.socks[o])
  }

  /** A child in the handshake, where the ACK will find it */
  predicate Offers(h: Host, c: SockId, l: SockId, t: Tuple) {
    && IsChild(h, c, Mirror(t)) && InEstablished(h, c)
    && h.socks[c].state == SynRecv && h.socks[c].parent == Some(l) && FreshWindow(h.socks[c])
  }

  lemma SpawnedChild(h: Host, l: SockId, t: Tuple)
    requires HostOk(h) && l < |h.socks| && LookupEstablished(h, Mirror(t)).None?
    ensures var h1 := Spawn(h, l, SynOf(t)); HostOk(h1) && Offers(h1, |h.socks|, l, t)
  {
    SpawnHost(h, l, SynOf(t));
    SpawnTables(h, l, SynOf(t));
  }

  lemma SpawnKeepsOpener(h: Host, l: SockId, o: SockId, t: Tuple)
    requires HostOk(h) && l < |h.socks| && LookupEstablished(h, Mirror(t)).None? && Waits(h, o, t)
    ensures Waits(Spawn(h, l, SynOf(t)), o, t)
  {
    SpawnHost(h, l, SynOf(t));
    SpawnTables(h, l, SynOf(t));
  }

  lemma OpeningKeepsChild(h: Host, o: SockId, c: SockId, l: SockId, t: Tuple)
    requires HostOk(h) && Waits(h, o, t) && Offers(h, c, l, t)
    ensures var h' := Update(h, o, h.socks[o].(state := Established)); HostOk(h') && Offers(h', c, l, t) && IsConnected(h', o, t)
  {
    OpenedHost(h, o);
  }

  lemma AckedChild(h: Host, c: SockId, l: SockId, t: Tuple)
    requires HostOk(h) && Offers(h, c, l, t)
    ensures l < |h.socks|
    ensures IsChild(Acked(h, c), c, Mirror(t)) && Acked(h, c).socks[c].state == Established && c in ListOf(Acked(h, c), AcceptQueue(l))
    ensures forall o: SockId, u: Tuple :: o != c && IsConnected(h, o, u) ==> IsConnected(Acked(h, c), o, u)
  {
    AckedHost(h, c);
  }

  /** From any state in which a stack listens and an opener there or elsewhere
      has sent its SYN, delivering SYN, SYN|ACK and ACK establishes both ends and
      queues the child for accept. */
  lemma HandshakeCompletes(w: World, x: nat, y: nat, l: SockId, o: SockId, t: Tuple) returns (w1: World, w2: World, w': World)
    requires x < |w.hosts| && y < |w.hosts| && x !in w.halted && y !in w.halted
    requires HostOk(w.hosts[x]) && HostOk(w.hosts[y]) && SynOf(t) in w.sent && Waits(w.hosts[y], o, t)
    requires LookupEstablished(w.hosts[x], Mirror(t)).None? && LookupListen(w.hosts[x], t.dport) == Some(l)
    requires l < |w.hosts[x].socks| && FreshWindow(w.hosts[x].socks[l])
    ensures Step(w, w1) && Step(w1, w2) && Step(w2, w') && |w'.hosts| == |w.hosts|
    ensures ChildEstablished(w', x, |w.hosts[x].socks|, Mirror(t)) && IsConnected(w'.hosts[y], o, t)
    ensures |w.hosts[x].socks| in ListOf(w'.hosts[x], AcceptQueue(l))
  {
    var h, c := w.hosts[x], |w.hosts[x].socks|;
    assert DeliverGives(h, SynOf(t), Spawn(h, l, SynOf(t)), {SynAckOf(t)}) by { SynSpawns(h, l, t); }
    w1 := DeliverStep(w, x, SynOf(t), Spawn(h, l, SynOf(t)), {SynAckOf(t)});
    assert Waits(w1.hosts[y], o, t) by { if x == y { SpawnKeepsOpener(h, l, o, t); } }
    SpawnedChild(h, l, t);
    w2, w' := SecondHalf(w1, x, y, c, l, o, t);
  }

  /** The rest, once the child is there */
  lemma SecondHalf(w1: World, x: nat, y: nat, c: SockId, l: SockId, o: SockId, t: Tuple) returns (w2: World, w': World)
    requires x < |w1.hosts| && y < |w1.hosts| && x !in w1.halted && y !in w1.halted && SynAckOf(t) in w1.sent
    requires HostOk(w1.hosts[x]) && HostOk(w1.hosts[y]) && Waits(w1.hosts[y], o, t) && Offers(w1.hosts[x], c, l, t)
    ensures Step(w1, w2) && Step(w2, w') && |w'.hosts| == |w1.hosts|
    ensures ChildEstablished(w', x, c, Mirror(t)) && IsConnected(w'.hosts[y], o, t) && c in ListOf(w'.hosts[x], AcceptQueue(l))
  {
    var k := w1.hosts[y];
    var k1 := Update(k, o, k.socks[o].(state := Established));
    assert DeliverGives(k, SynAckOf(t), k1, {AckOf(t)}) by { SynAckOpens(k, o, t); }
    w2 := DeliverStep(w1, y, SynAckOf(t), k1, {AckOf(t)});
    assert IsConnected(k1, o, t);
    if x == y { OpeningKeepsChild(k, o, c, l, t); }
    w' := LastAck(w2, x, c, l, t);
    if x == y { AckedChild(k1, c, l, t); }
  }

  lemma LastAck(w2: World, x: nat, c: SockId, l: SockId, t: Tuple) returns (w': World)
    requires x < |w2.hosts| && x !in w2.halted && AckOf(t) in w2.sent && HostOk(w2.hosts[x]) && Offers(w2.hosts[x], c, l, t)
    ensures l < |w2.hosts[x].socks| && Step(w2, w') && w'.hosts == w2.hosts[x := Acked(w2.hosts[x], c)]
    ensures ChildEstablished(w', x, c, Mirror(t)) && c in ListOf(w'.hosts[x], AcceptQueue(l))
  {
    var h := w2.hosts[x];
    AckEstablishes(h, c, t);
    AckedChild(h, c, l, t);
    w' := DeliverStep(w2, x, AckOf(t), Acked(h, c), {});
  }

  /** In every state of every run: whoever listens and whoever is opening a
      connection there can complete it with three deliveries. */
  lemma HandshakeCanComplete(ws: seq<World>, j: nat, x: nat, y: nat, l: SockId, o: SockId, t: Tuple)
    returns (w1: World, w2: World, w': World)
    requires IsRun(ws) && j < |ws| && x < |ws[j].hosts| && y < |ws[j].hosts| && x !in ws[j].halted && y !in ws[j].halted
    requires IsOpener(ws[j].hosts[y], o, t) && InEstablished(ws[j].hosts[y], o) && ws[j].hosts[y].socks[o].state == SynSent
    requires LookupEstablished(ws[j].hosts[x], Mirror(t)).None? && LookupListen(ws[j].hosts[x], t.dport) == Some(l)
    ensures Step(ws[j], w1) && Step(w1, w2) && Step(w2, w') && |w'.hosts| == |ws[j].hosts|
    ensures ChildEstablished(w', x, |ws[j].hosts[x].socks|, Mirror(t)) && IsConnected(w'.hosts[y], o, t)
    ensures |ws[j].hosts[x].socks| in ListOf(w'.hosts[x], AcceptQueue(l))
  {
    var w := ws[j];
    assert HostOk(w.hosts[x]) && HostOk(w.hosts[y]) by { RunOk(ws, j); }
    assert l < |w.hosts[x].socks| by { LookupResult(w.hosts[x], SynOf(t)); }
    assert FreshWindow(w.hosts[x].socks[l]) && Waits(w.hosts[y], o, t) && SynOf(t) in w.sent by { RunNumbers(ws, j); }
    w1, w2, w' := HandshakeCompletes(w, x, y, l, o, t);
  }

  // Such runs exist

  lemma CallStep(ws: seq<World>, a: Action, h: Host) returns (ws': seq<World>)
    requires IsRun(ws) && !a.Deliver? && a.x < |Last(ws).hosts| && a.x !in Last(ws).halted
    requires HostEnabled(Last(ws).hosts[a.x], a) && HostReady(Last(ws).hosts[a.x], a) && HostNext(Last(ws).hosts[a.x], a) == h
    ensures IsRun(ws') && Last(ws').hosts == Last(ws).hosts[a.x := h] && Last(ws').halted == Last(ws).halted
    ensures Last(ws').sent == Last(ws).sent + Sends(Last(ws).hosts[a.x], a)
  {
    assert Step(Last(ws), Next(Last(ws), a));
    RunGrows(ws, Next(Last(ws), a));
    ws' := ws + [Next(Last(ws), a)];
  }

  /** A host with one sock, just allocated. */
  ghost predicate OneUnused(h: Host) {
    |h.socks| == 1 && h.socks[0] == EmptySock && forall k :: ListOf(h, k) == []
  }

  ghost predicate JustAllocated(h: Host) {
    HostOk(h) && OneUnused(h)
  }

  lemma NewHost()
    ensures JustAllocated(Alloc(EmptyHost))
  {
    EmptyWellLinked();
    assert HostOk(EmptyHost) by { InitialOk(1); assert HostOk(Initial(1).hosts[0]); }
    AllocHost(EmptyHost);
  }

  lemma UnusedIsIdle(h: Host)
    requires OneUnused(h)
    ensures Idle(h, 0) && !InBind(h, 0)
  {
    assert ListOf(h, EstKey(h.socks[0].tuple)) == [] && ListOf(h, ListenKey(0)) == [] && ListOf(h, BindKey(0)) == [];
  }

  /** Binding does not touch the other lists. */
  lemma BindHashLists(h: Host, id: SockId, k: ListId)
    requires id < |h.socks| && (k.Bucket? ==> k.table != BindTable)
    ensures ListOf(BindHash(h, id), k) == ListOf(h, k)
  {
  }

  lemma UnusedBound(h: Host, port: u16)
    requires OneUnused(h) && port != 0
    ensures var h1 := BindHash(Update(h, 0, EmptySock.(tuple := EmptySock.tuple.(sport := port))), 0);
      && SetSport(h, 0, port) == Some(h1) && Idle(h1, 0)
      && |h1.socks| == 1 && h1.socks[0].tuple.sport == port && FreshWindow(h1.socks[0])
  {
    var h0 := Update(h, 0, EmptySock.(tuple := EmptySock.tuple.(sport := port)));
    assert ListOf(h, BindKey(port)) == [];
    assert ListOf(h0, ListenKey(port)) == ListOf(h, ListenKey(port)) == [];
    assert ListOf(h0, EstKey(h0.socks[0].tuple)) == ListOf(h, EstKey(h0.socks[0].tuple)) == [];
    BindHashLists(h0, 0, ListenKey(port));
    BindHashLists(h0, 0, EstKey(h0.socks[0].tuple));
  }

  lemma NewBound(h: Host, port: u16) returns (h1: Host)
    requires JustAllocated(h) && port != 0
    ensures Idle(h, 0) && !InBind(h, 0) && SetSport(h, 0, port) == Some(h1) && HostOk(h1) && Idle(h1, 0)
    ensures |h1.socks| == 1 && h1.socks[0].tuple.sport == port && FreshWindow(h1.socks[0])
  {
    UnusedIsIdle(h);
    UnusedBound(h, port);
    BindHost(h, 0, port);
    h1 := SetSport(h, 0, port).value;
  }

  /** Listening makes the only sock the listener of its port. */
  lemma NewListener(h1: Host, port: u16) returns (h2: Host)
    requires HostOk(h1) && Idle(h1, 0) && |h1.socks| == 1 && h1.socks[0].tuple.sport == port && FreshWindow(h1.socks[0])
    ensures ListenOn(h1, 0, 1) == Some(h2) && HostOk(h2) && |h2.socks| == 1 && FreshWindow(h2.socks[0])
    ensures LookupListen(h2, port) == Some(0) && forall t :: LookupEstablished(h2, t).None?
  {
    ListenHost(h1, 0, 1);
    h2 := ListenOn(h1, 0, 1).value;
    OnlyListener(h2, port);
  }

  lemma OnlyListener(h: Host, port: u16)
    requires TablesOk(h) && |h.socks| == 1 && h.socks[0].state == Listen && 0 in ListOf(h, ListenKey(port)) && h.socks[0].tuple.sport == port
    ensures LookupListen(h, port) == Some(0) && forall t :: LookupEstablished(h, t).None?
  {
    FindPortFinds(h, ListOf(h, ListenKey(port)), port);
    forall t ensures LookupEstablished(h, t).None? {
      FindTupleFinds(h, ListOf(h, EstKey(t)), t);
    }
  }

  lemma UnusedOpens(h: Host, t: Tuple)
    requires OneUnused(h)
    ensures ConnectSegment(h, 0, t) == SynOf(t)
    ensures |Connect(h, 0, t).socks| == 1 && Waits(Connect(h, 0, t), 0, t)
  {
    var h0 := Update(h, 0, EmptySock.(tuple := t));
    assert ListOf(h0, EstKey(t)) == ListOf(h, EstKey(t)) == [];
    BindHashLists(h0, 0, EstKey(t));
    OpenerHashed(BindHash(h0, 0), t);
  }

  lemma OpenerHashed(h1: Host, t: Tuple)
    requires |h1.socks| == 1 && ListOf(h1, EstKey(t)) == []
    requires h1.socks[0].tuple == t && h1.socks[0].parent.None? && h1.socks[0].sndNxt == 0 && FreshWindow(h1.socks[0])
    ensures var h' := HashAnyway(Update(h1, 0, AfterControl(h1.socks[0], SYN).(state := SynSent)), 0);
      |h'.socks| == 1 && Waits(h', 0, t)
  {
    var h2 := Update(h1, 0, AfterControl(h1.socks[0], SYN).(state := SynSent));
    assert ListOf(h2, EstKey(t)) == [] && LookupEstablished(h2, t).None?;
  }

  lemma NewOpener(h: Host, t: Tuple)
    requires JustAllocated(h)
    ensures Idle(h, 0) && !InBind(h, 0) && ConnectSegment(h, 0, t) == SynOf(t)
    ensures HostOk(Connect(h, 0, t)) && |Connect(h, 0, t).socks| == 1 && Waits(Connect(h, 0, t), 0, t)
  {
    UnusedIsIdle(h);
    UnusedOpens(h, t);
    ConnectHost(h, 0, t);
  }

  /** Binding and then listening lead from h over h1 to h2. */
  predicate Leads(h: Host, port: u16, h1: Host, h2: Host) {
    && Idle(h, 0) && !InBind(h, 0) && SetSport(h, 0, port) == Some(h1)
    && Idle(h1, 0) && ListenOn(h1, 0, 1) == Some(h2)
  }

  lemma ListeningHost(h: Host, port: u16) returns (h1: Host, h2: Host)
    requires JustAllocated(h) && port != 0
    ensures Leads(h, port, h1, h2)
    ensures HostOk(h2) && |h2.socks| == 1 && FreshWindow(h2.socks[0])
    ensures LookupListen(h2, port) == Some(0) && forall t :: LookupEstablished(h2, t).None?
  {
    h1 := NewBound(h, port);
    h2 := NewListener(h1, port);
  }

  lemma StartListening(ws: seq<World>, h: Host, port: u16, h1: Host, h2: Host) returns (ws': seq<World>)
    requires IsRun(ws) && 0 < |Last(ws).hosts| && 0 !in Last(ws).halted && Last(ws).hosts[0] == h && Leads(h, port, h1, h2)
    ensures IsRun(ws') && Last(ws').hosts == Last(ws).hosts[0 := h2] && Last(ws').halted == Last(ws).halted
  {
    ws' := BindStep(ws, port, h1);
    ws' := ListenStep(ws', h2);
  }

  lemma BindStep(ws: seq<World>, port: u16, h1: Host) returns (ws': seq<World>)
    requires IsRun(ws) && 0 < |Last(ws).hosts| && 0 !in Last(ws).halted
    requires Idle(Last(ws).hosts[0], 0) && !InBind(Last(ws).hosts[0], 0) && SetSport(Last(ws).hosts[0], 0, port) == Some(h1)
    ensures IsRun(ws') && Last(ws').hosts == Last(ws).hosts[0 := h1] && Last(ws').halted == Last(ws).halted
  {
    ws' := CallStep(ws, Bind(0, 0, port), h1);
  }

  lemma ListenStep(ws: seq<World>, h2: Host) returns (ws': seq<World>)
    requires IsRun(ws) && 0 < |Last(ws).hosts| && 0 !in Last(ws).halted
    requires Idle(Last(ws).hosts[0], 0) && ListenOn(Last(ws).hosts[0], 0, 1) == Some(h2)
    ensures IsRun(ws') && Last(ws').hosts == Last(ws).hosts[0 := h2] && Last(ws').halted == Last(ws).halted
  {
    ws' := CallStep(ws, Listening(0, 0, 1), h2);
  }

  lemma StartConnecting(ws: seq<World>, h: Host, t: Tuple) returns (ws': seq<World>)
    requires IsRun(ws) && 1 < |Last(ws).hosts| && 1 !in Last(ws).halted && Last(ws).hosts[1] == h && JustAllocated(h)
    ensures IsRun(ws') && Last(ws').hosts == Last(ws).hosts[1 := Connect(h, 0, t)] && Last(ws').halted == Last(ws).halted
    ensures SynOf(t) in Last(ws').sent
  {
    NewOpener(h, t);
    ws' := CallStep(ws, Connecting(1, 0, t), Connect(h, 0, t));
  }

  /** Two stacks, each with one new sock. */
  lemma TwoStacks() returns (ws: seq<World>, h: Host)
    ensures JustAllocated(h) && IsRun(ws) && Last(ws).hosts == [h, h] && Last(ws).halted == {}
  {
    NewHost();
    h := Alloc(EmptyHost);
    ws := [Initial(2)];
    ws := CallStep(ws, NewSock(0), h);
    ws := CallStep(ws, NewSock(1), h);
  }

  /** For every 4-tuple there is a run that establishes the connection at both
      ends, so the theorems about established children speak of real runs. */
  lemma ConnectionsHappen(t: Tuple) returns (ws: seq<World>)
    requires t.dport != 0
    ensures IsRun(ws) && |Last(ws).hosts| == 2
    ensures ChildEstablished(Last(ws), 0, 1, Mirror(t)) && IsConnected(Last(ws).hosts[1], 0, t)
    ensures 1 in ListOf(Last(ws).hosts[0], AcceptQueue(0))
  {
    var h;
    ws, h := TwoStacks();
    var h1, h2 := ListeningHost(h, t.dport);
    ws := StartListening(ws, h, t.dport, h1, h2);
    ws := StartConnecting(ws, h, t);
    NewOpener(h, t);
    var w1, w2, w' := HandshakeCompletes(Last(ws), 0, 1, 0, 0, t);
    ws := ThreeSteps(ws, w1, w2, w');
  }

  lemma ThreeSteps(ws: seq<World>, w1: World, w2: World, w3: World) returns (ws': seq<World>)
    requires IsRun(ws) && Step(Last(ws), w1) && Step(w1, w2) && Step(w2, w3)
    ensures IsRun(ws') && Last(ws') == w3 && |w3.hosts| == |Last(ws).hosts|
  {
    RunGrows(ws, w1);
    RunGrows(ws + [w1], w2);
    RunGrows(ws + [w1] + [w2], w3);
    ws' := ws + [w1] + [w2] + [w3];
    assert |w3.hosts| == |w2.hosts| && |w2.hosts| == |w1.hosts|;
  }
}
