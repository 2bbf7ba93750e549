/** Any number of stacks over a network that may lose, duplicate, reorder and
    misdeliver segments but not forge them. One call of tcp_process, or one call
    of the socket interface, is one step. */
module Net {
  import opened Base
  import opened SeqSpace
  import opened Segments
  import opened Hosts
  import opened Tables
  import opened Queues
  import TableRuns

  datatype Event =
    | AckArrived(host: nat, listener: SockId, child: SockId)
    | Accepted(host: nat, listener: SockId, child: SockId)

  /** sent holds every segment ever sent. A halted host has dereferenced the
      null sock that tcp_process gets when the lookup finds none, or has gone on
      to tcp_sock_close. */
  datatype World = World(hosts: seq<Host>, halted: set<nat>, sent: set<Segment>, log: seq<Event>)

  datatype Action =
    | NewSock(x: nat)
    | Bind(x: nat, id: SockId, port: u16)
    | Listening(x: nat, id: SockId, backlog: int)
    | Connecting(x: nat, id: SockId, t: Tuple)
    | Accept(x: nat, id: SockId)
    | SendData(x: nat, id: SockId, len: nat)
    | Deliver(x: nat, g: Segment)

  /** Calls that the interface allows: socks are opened once, and accept is
      called on a listener whose queue is not empty. */
  predicate HostEnabled(h: Host, a: Action) {
    match a
    case NewSock(_) => true
    case Bind(_, id, _) => Idle(h, id) && !InBind(h, id)
    case Listening(_, id, _) => Idle(h, id)
    case Connecting(_, id, _) => Idle(h, id) && !InBind(h, id)
    case Accept(_, id) => id < |h.socks| && h.socks[id].state == Listen && ListOf(h, AcceptQueue(id)) != []
    case SendData(_, id, _) => id < |h.socks| && h.socks[id].state == Established
    case Deliver(_, _) => true
  }

  predicate Enabled(w: World, a: Action) {
    && a.x < |w.hosts| && a.x !in w.halted
    && HostEnabled(w.hosts[a.x], a)
    && (a.Deliver? ==> a.g in w.sent)
  }

  /** The segments a call puts on the network. */
  function Sends(h: Host, a: Action): set<Segment>
    requires HostReady(h, a)
  {
    match a
    case Connecting(_, id, t) => {ConnectSegment(h, id, t)}
    case SendData(_, id, len) => {DataSegment(h.socks[id], len)}
    case Deliver(_, g) =>
      (match Lookup(h, g)
       case None => {}
       case Some(id) => set s | s in Process(h, id, g).sent)
    case _ => {}
  }

  /** The host after a call. */
  function HostNext(h: Host, a: Action): Host
    requires HostReady(h, a)
  {
    match a
    case NewSock(_) => Alloc(h)
    case Bind(_, id, port) => (match SetSport(h, id, port) case Some(h') => h' case None => h)
    case Listening(_, id, backlog) => (match ListenOn(h, id, backlog) case Some(h') => h' case None => h)
    case Connecting(_, id, t) => Connect(h, id, t)
    case Accept(_, id) => AcceptDequeue(h, id)
    case SendData(_, id, len) => Update(h, id, AfterData(h.socks[id], len))
    case Deliver(_, g) =>
      (match Lookup(h, g)
       case None => h
       case Some(id) => Process(h, id, g).host)
  }

  /** What the functions of a call rely on; every well-ordered host has it. */
  predicate HostReady(h: Host, a: Action) {
    match a
    case NewSock(_) => true
    case Bind(_, id, _) => id < |h.socks|
    case Listening(_, id, _) => id < |h.socks|
    case Connecting(_, id, _) => id < |h.socks|
    case Accept(_, id) => id < |h.socks| && ListOf(h, AcceptQueue(id)) != []
    case SendData(_, id, _) => id < |h.socks|
    case Deliver(_, g) =>
      (match Lookup(h, g)
       case None => true
       case Some(id) =>
         id < |h.socks| && (h.socks[id].state == SynRecv ==> h.socks[id].parent.Some? && h.socks[id].parent.value < |h.socks|))
  }

  predicate Halts(h: Host, a: Action)
    requires HostReady(h, a)
  {
    a.Deliver? && (Lookup(h, a.g).None? || Process(h, Lookup(h, a.g).value, a.g).closes)
  }

  /** What a delivered segment brings about on a host. */
  datatype Effect = Same | Spawns(id: SockId) | Acks(id: SockId) | Opens(id: SockId)

  function EffectOf(h: Host, g: Segment): Effect
    requires Lookup(h, g).Some? ==> Lookup(h, g).value < |h.socks|
  {
    match Lookup(h, g)
    case None => Same
    case Some(id) =>
      var s := h.socks[id];
      if !SeqValid(s.rcvNxt, s.rcvWnd, g.seqNo, SeqEnd(g)) then Same
      else if s.state == Listen && g.flags == SYN then Spawns(id)
      else if s.state == SynRecv && g.flags == ACK then Acks(id)
      else if s.state == SynSent && g.flags == SYN_ACK then Opens(id)
      else Same
  }

  function Logs(h: Host, a: Action): seq<Event>
    requires HostReady(h, a)
  {
    if a.Accept? then [Accepted(a.x, a.id, ListOf(h, AcceptQueue(a.id))[0])]
    else if a.Deliver? && EffectOf(h, a.g).Acks? then
      var id := EffectOf(h, a.g).id;
      [AckArrived(a.x, h.socks[id].parent.value, id)]
    else []
  }

  function Next(w: World, a: Action): World
    requires a.x < |w.hosts| && HostReady(w.hosts[a.x], a)
  {
    var h := w.hosts[a.x];
    World(w.hosts[a.x := HostNext(h, a)],
          if Halts(h, a) then w.halted + {a.x} else w.halted,
          w.sent + Sends(h, a),
          w.log + Logs(h, a))
  }

  // One step on one host

  lemma LookupResult(h: Host, g: Segment)
    requires HostOk(h)
    ensures match Lookup(h, g)
            case None => true
            case Some(id) =>
              && id < |h.socks|
              && if LookupEstablished(h, Mirror(g.from)).None? then h.socks[id].state == Listen
                 else InEstablished(h, id) && h.socks[id].tuple == Mirror(g.from) && h.socks[id].state != Closed && h.socks[id].state != Listen
  {
    var t := Mirror(g.from);
    FindTupleFinds(h, ListOf(h, EstKey(t)), t);
    FindPortFinds(h, ListOf(h, ListenKey(t.sport)), t.sport);
  }

  lemma EnabledReady(h: Host, a: Action)
    requires HostOk(h) && HostEnabled(h, a)
    ensures HostReady(h, a)
  {
    if a.Deliver? {
      LookupResult(h, a.g);
      var id := Lookup(h, a.g);
      assert id.Some? && h.socks[id.value].state == SynRecv ==> InQueue(h, id.value);
    }
  }

  lemma EffectHost(h: Host, a: Action)
    requires a.Deliver? && HostReady(h, a)
    ensures HostNext(h, a) ==
      match EffectOf(h, a.g)
      case Same => h
      case Spawns(id) => Spawn(h, id, a.g)
      case Acks(id) => Acked(h, id)
      case Opens(id) => Update(h, id, h.socks[id].(state := Established))
  {
  }

  /** Delivering a segment keeps the host in order. */
  lemma DeliverHost(h: Host, a: Action)
    requires HostOk(h) && a.Deliver? && HostReady(h, a)
    ensures HostOk(HostNext(h, a)) && Extends(h, HostNext(h, a))
  {
    LookupResult(h, a.g);
    EffectHost(h, a);
    match EffectOf(h, a.g)
    case Same =>
    case Spawns(id) => SpawnHost(h, id, a.g);
    case Acks(id) => AckedHost(h, id);
    case Opens(id) => OpenedHost(h, id);
  }

  lemma StepHost(h: Host, a: Action)
    requires HostOk(h) && HostEnabled(h, a) && HostReady(h, a)
    ensures HostOk(HostNext(h, a)) && Extends(h, HostNext(h, a))
  {
    match a
    case NewSock(_) => AllocHost(h);
    case Bind(_, id, port) => BindHost(h, id, port);
    case Listening(_, id, backlog) => ListenHost(h, id, backlog);
    case Connecting(_, id, t) => ConnectHost(h, id, t);
    case Accept(_, id) => DequeuedHost(h, id);
    case SendData(_, id, len) => DataHost(h, id, len);
    case Deliver(_, _) => DeliverHost(h, a);
  }

  // What a segment or a sock proves about the other end

  predicate IsOpener(h: Host, o: SockId, t: Tuple) {
    o < |h.socks| && h.socks[o].parent.None? && h.socks[o].tuple == t && (h.socks[o].state == SynSent || h.socks[o].state == Established)
  }

  predicate IsConnected(h: Host, o: SockId, t: Tuple) {
    IsOpener(h, o, t) && h.socks[o].state == Established
  }

  predicate IsChild(h: Host, c: SockId, t: Tuple) {
    c < |h.socks| && h.socks[c].parent.Some? && h.socks[c].tuple == t
  }

  ghost predicate HasOpener(w: World, t: Tuple) {
    exists y, o: SockId :: 0 <= y < |w.hosts| && IsOpener(w.hosts[y], o, t)
  }

  ghost predicate HasConnected(w: World, t: Tuple) {
    exists y, o: SockId :: 0 <= y < |w.hosts| && IsConnected(w.hosts[y], o, t)
  }

  ghost predicate HasChild(w: World, t: Tuple) {
    exists y, c: SockId :: 0 <= y < |w.hosts| && IsChild(w.hosts[y], c, t)
  }

  /** A SYN comes from an active opener, a SYN|ACK from a child, and a bare ACK
      from an active opener that is established; nothing carries a bare FIN or RST. */
  ghost predicate Vouched(w: World, g: Segment) {
    || (g.flags == SYN && HasOpener(w, g.from))
    || (g.flags == SYN_ACK && HasChild(w, g.from))
    || (g.flags == ACK && HasConnected(w, g.from))
    || g.flags == RST_ACK
    || g.flags == PSH_ACK
  }

  /** What the state of a sock says about the other end of its connection. */
  ghost predicate Paired(w: World, s: Sock) {
    && (s.parent.Some? ==> HasOpener(w, Mirror(s.tuple)))
    && (s.parent.Some? && s.state == Established ==> HasConnected(w, Mirror(s.tuple)))
    && (s.parent.None? && s.state == Established ==> HasChild(w, Mirror(s.tuple)))
  }

  ghost predicate HostsOk(w: World) {
    forall x :: 0 <= x < |w.hosts| ==> HostOk(w.hosts[x])
  }

  ghost predicate SegmentsOk(w: World) {
    forall g :: g in w.sent ==> Vouched(w, g)
  }

  ghost predicate PairsOk(w: World) {
    forall x, i :: 0 <= x < |w.hosts| && 0 <= i < |w.hosts[x].socks| ==> Paired(w, w.hosts[x].socks[i])
  }

  // Facts about the other end stay true

  ghost predicate Grows(w: World, w': World) {
    |w'.hosts| == |w.hosts| && forall x :: 0 <= x < |w.hosts| ==> Extends(w.hosts[x], w'.hosts[x])
  }

  lemma OpenerStays(w: World, w': World, t: Tuple)
    requires Grows(w, w') && HasOpener(w, t)
    ensures HasOpener(w', t)
  {
    var y, o: SockId :| 0 <= y < |w.hosts| && IsOpener(w.hosts[y], o, t);
    assert Extends(w.hosts[y], w'.hosts[y]) && Later(w.hosts[y].socks[o], w'.hosts[y].socks[o]);
    assert IsOpener(w'.hosts[y], o, t);
  }

  lemma ConnectedStays(w: World, w': World, t: Tuple)
    requires Grows(w, w') && HasConnected(w, t)
    ensures HasConnected(w', t)
  {
    var y, o: SockId :| 0 <= y < |w.hosts| && IsConnected(w.hosts[y], o, t);
    assert Extends(w.hosts[y], w'.hosts[y]) && Later(w.hosts[y].socks[o], w'.hosts[y].socks[o]);
    assert IsConnected(w'.hosts[y], o, t);
  }

  lemma ChildStays(w: World, w': World, t: Tuple)
    requires HostsOk(w) && Grows(w, w') && HasChild(w, t)
    ensures HasChild(w', t)
  {
    var y, c: SockId :| 0 <= y < |w.hosts| && IsChild(w.hosts[y], c, t);
    assert HostOk(w.hosts[y]);
    assert Extends(w.hosts[y], w'.hosts[y]) && Later(w.hosts[y].socks[c], w'.hosts[y].socks[c]);
    assert IsChild(w'.hosts[y], c, t);
  }

  lemma VouchedStays(w: World, w': World, g: Segment)
    requires HostsOk(w) && Grows(w, w') && Vouched(w, g)
    ensures Vouched(w', g)
  {
    if g.flags == SYN { OpenerStays(w, w', g.from); }
    if g.flags == SYN_ACK { ChildStays(w, w', g.from); }
    if g.flags == ACK { ConnectedStays(w, w', g.from); }
  }

  lemma PairedStays(w: World, w': World, s: Sock)
    requires HostsOk(w) && Grows(w, w') && Paired(w, s)
    ensures Paired(w', s)
  {
    if s.parent.Some? { OpenerStays(w, w', Mirror(s.tuple)); }
    if s.parent.Some? && s.state == Established { ConnectedStays(w, w', Mirror(s.tuple)); }
    if s.parent.None? && s.state == Established { ChildStays(w, w', Mirror(s.tuple)); }
  }

  // One step of the world

  lemma StepGrows(w: World, a: Action)
    requires HostsOk(w) && Enabled(w, a)
    ensures HostReady(w.hosts[a.x], a)
    ensures HostsOk(Next(w, a)) && Grows(w, Next(w, a))
  {
    EnabledReady(w.hosts[a.x], a);
    StepHost(w.hosts[a.x], a);
    OneHostGrows(w, Next(w, a), a.x, HostNext(w.hosts[a.x], a));
  }

  lemma OneHostGrows(w: World, w': World, x: nat, h: Host)
    requires HostsOk(w) && x < |w.hosts| && w'.hosts == w.hosts[x := h] && HostOk(h) && Extends(w.hosts[x], h)
    ensures HostsOk(w') && Grows(w, w')
  {
    forall y | 0 <= y < |w.hosts| ensures Extends(w.hosts[y], w'.hosts[y]) {}
  }

  lemma StepSegments(w: World, a: Action)
    requires HostsOk(w) && SegmentsOk(w) && Enabled(w, a)
    ensures HostReady(w.hosts[a.x], a)
    ensures SegmentsOk(Next(w, a))
  {
    StepGrows(w, a);
    var w', h := Next(w, a), w.hosts[a.x];
    forall g | g in w'.sent ensures Vouched(w', g) {
      if g in w.sent {
        VouchedStays(w, w', g);
      } else {
        NewSegment(w, a, g);
      }
    }
  }

  lemma NewSegment(w: World, a: Action, g: Segment)
    requires HostsOk(w) && SegmentsOk(w) && Enabled(w, a) && HostReady(w.hosts[a.x], a) && g in Sends(w.hosts[a.x], a)
    ensures Vouched(Next(w, a), g)
  {
    var w', h := Next(w, a), w.hosts[a.x];
    if a.Connecting? {
      ConnectHost(h, a.id, a.t);
      assert IsOpener(w'.hosts[a.x], a.id, g.from);
    } else if a.Deliver? {
      assert Vouched(w, a.g);
      NewReply(w, a, g);
    }
  }

  /** Who a reply speaks for, on the host that sends it. */
  ghost predicate ReplyFrom(h: Host, g: Segment) {
    || (g.flags == SYN_ACK && exists c: SockId :: IsChild(h, c, g.from))
    || (g.flags == ACK && exists o: SockId :: IsConnected(h, o, g.from))
    || g.flags == RST_ACK
  }

  lemma SpawnReply(h: Host, id: SockId, syn: Segment, g: Segment)
    requires HostOk(h) && id < |h.socks| && LookupEstablished(h, Mirror(syn.from)).None? && g == ControlSegment(ChildSock(id, syn), SYN_ACK)
    ensures ReplyFrom(Spawn(h, id, syn), g)
  {
    SpawnHost(h, id, syn);
    assert IsChild(Spawn(h, id, syn), |h.socks|, g.from);
  }

  lemma OpenReply(h: Host, id: SockId, g: Segment)
    requires id < |h.socks| && h.socks[id].parent.None? && g == ControlSegment(h.socks[id], ACK)
    ensures ReplyFrom(Update(h, id, h.socks[id].(state := Established)), g)
  {
    assert IsConnected(Update(h, id, h.socks[id].(state := Established)), id, g.from);
  }

  /** What a delivery sends, by its effect. */
  lemma EffectSends(h: Host, a: Action, g: Segment)
    requires a.Deliver? && a.g.flags != RST && HostReady(h, a) && g in Sends(h, a)
    ensures match EffectOf(h, a.g)
            case Spawns(id) => id < |h.socks| && g == ControlSegment(ChildSock(id, a.g), SYN_ACK)
            case Opens(id) => id < |h.socks| && g == ControlSegment(h.socks[id], ACK)
            case Same => g.flags == RST_ACK
            case Acks(_) => false
  {
  }

  lemma HostReply(h: Host, a: Action, g: Segment)
    requires HostOk(h) && a.Deliver? && a.g.flags != RST && HostReady(h, a) && g in Sends(h, a)
    ensures ReplyFrom(HostNext(h, a), g)
  {
    EffectHost(h, a);
    EffectSends(h, a, g);
    EffectFinds(h, a.g);
    match EffectOf(h, a.g)
    case Spawns(id) => SpawnReply(h, id, a.g, g);
    case Opens(id) => OpenReply(h, id, g);
    case Same =>
  }

  /** What the lookup has found for each effect. */
  lemma EffectFinds(h: Host, g: Segment)
    requires HostOk(h)
    ensures Lookup(h, g).Some? ==> Lookup(h, g).value < |h.socks|
    ensures EffectOf(h, g).Spawns? ==> LookupEstablished(h, Mirror(g.from)).None?
    ensures EffectOf(h, g).Opens? ==> h.socks[EffectOf(h, g).id].parent.None?
  {
    LookupResult(h, g);
  }

  lemma NewReply(w: World, a: Action, g: Segment)
    requires HostsOk(w) && Enabled(w, a) && a.Deliver? && a.g.flags != RST
    requires HostReady(w.hosts[a.x], a) && g in Sends(w.hosts[a.x], a)
    ensures Vouched(Next(w, a), g)
  {
    var h' := HostNext(w.hosts[a.x], a);
    assert ReplyFrom(h', g) by { HostReply(w.hosts[a.x], a, g); }
    ReplyVouched(Next(w, a), a.x, g);
  }

  lemma ReplyVouched(w: World, x: nat, g: Segment)
    requires x < |w.hosts| && ReplyFrom(w.hosts[x], g)
    ensures Vouched(w, g)
  {
  }

  /** A step asks nothing new of the other end of this sock's connection. */
  predicate AsksNoMore(s: Sock, s': Sock) {
    && s'.parent == s.parent
    && (s'.state == Established ==> s.state == Established)
    && (s.parent.Some? || s.state == Established ==> s'.tuple == s.tuple)
  }

  lemma BindChanges(h: Host, id: SockId, port: u16, i: nat)
    requires Idle(h, id) && i < |h.socks|
    ensures SetSport(h, id, port).Some? ==>
      |SetSport(h, id, port).value.socks| == |h.socks| && AsksNoMore(h.socks[i], SetSport(h, id, port).value.socks[i])
  {
  }

  lemma ListenChanges(h: Host, id: SockId, backlog: int, i: nat)
    requires Idle(h, id) && i < |h.socks|
    ensures ListenOn(h, id, backlog).Some? ==>
      |ListenOn(h, id, backlog).value.socks| == |h.socks| && AsksNoMore(h.socks[i], ListenOn(h, id, backlog).value.socks[i])
  {
  }

  lemma ConnectChanges(h: Host, id: SockId, t: Tuple, i: nat)
    requires Idle(h, id) && i < |h.socks|
    ensures |Connect(h, id, t).socks| == |h.socks| && AsksNoMore(h.socks[i], Connect(h, id, t).socks[i])
  {
  }

  /** No call of the interface establishes a connection by itself. */
  lemma CallChanges(h: Host, a: Action, i: nat)
    requires HostEnabled(h, a) && HostReady(h, a) && !a.Deliver? && i < |HostNext(h, a).socks|
    ensures var s' := HostNext(h, a).socks[i];
      if i < |h.socks| then AsksNoMore(h.socks[i], s') else s'.parent.None? && s'.state != Established
  {
    match a
    case Bind(_, id, port) => if i < |h.socks| { BindChanges(h, id, port, i); } else { BindChanges(h, id, port, 0); }
    case Listening(_, id, backlog) =>
      if i < |h.socks| { ListenChanges(h, id, backlog, i); } else { ListenChanges(h, id, backlog, 0); }
    case Connecting(_, id, t) =>
      if i < |h.socks| { ConnectChanges(h, id, t, i); } else { ConnectChanges(h, id, t, 0); }
    case _ =>
  }

  lemma DeliveryChanges(h: Host, a: Action, i: nat)
    requires HostOk(h) && a.Deliver? && HostReady(h, a) && i < |HostNext(h, a).socks|
    ensures var s', e, t := HostNext(h, a).socks[i], EffectOf(h, a.g), Mirror(a.g.from);
      if e.Spawns? && i == |h.socks| then s' == NewChild(e.id, a.g) && a.g.flags == SYN
      else
        && i < |h.socks|
        && if e == Acks(i) then s'.parent == h.socks[i].parent && s'.parent.Some? && s'.tuple == h.socks[i].tuple == t && a.g.flags == ACK
           else if e == Opens(i) then s'.parent.None? && s'.tuple == h.socks[i].tuple == t && a.g.flags == SYN_ACK
           else AsksNoMore(h.socks[i], s')
  {
    LookupResult(h, a.g);
    EffectHost(h, a);
    match EffectOf(h, a.g)
    case Same =>
    case Spawns(id) => SpawnHost(h, id, a.g);
    case Acks(id) => assert InQueue(h, id);
    case Opens(id) =>
  }

  lemma StepPairs(w: World, a: Action)
    requires HostsOk(w) && SegmentsOk(w) && PairsOk(w) && Enabled(w, a)
    ensures HostReady(w.hosts[a.x], a)
    ensures PairsOk(Next(w, a))
  {
    StepGrows(w, a);
    var w' := Next(w, a);
    forall x, i | 0 <= x < |w'.hosts| && 0 <= i < |w'.hosts[x].socks| ensures Paired(w', w'.hosts[x].socks[i]) {
      if x != a.x {
        PairedStays(w, w', w.hosts[x].socks[i]);
      } else if a.Deliver? {
        PairedAfterDelivery(w, a, i);
      } else {
        CallChanges(w.hosts[x], a, i);
        if i < |w.hosts[x].socks| {
          PairedStays(w, w', w.hosts[x].socks[i]);
        }
      }
    }
  }

  lemma PairedAfterDelivery(w: World, a: Action, i: nat)
    requires HostsOk(w) && SegmentsOk(w) && PairsOk(w) && Enabled(w, a) && a.Deliver?
    requires HostReady(w.hosts[a.x], a) && i < |HostNext(w.hosts[a.x], a).socks| && Grows(w, Next(w, a))
    ensures Paired(Next(w, a), HostNext(w.hosts[a.x], a).socks[i])
  {
    var w', h, g := Next(w, a), w.hosts[a.x], a.g;
    assert HostOk(h) && Vouched(w, g);
    DeliveryChanges(h, a, i);
    if g.flags == SYN { OpenerStays(w, w', g.from); }
    if g.flags == SYN_ACK { ChildStays(w, w', g.from); }
    if g.flags == ACK { ConnectedStays(w, w', g.from); }
    if i < |h.socks| {
      assert Paired(w, h.socks[i]);
      PairedStays(w, w', h.socks[i]);
    }
  }

  // The order of acknowledgement and of acceptance

  function AckOrder(log: seq<Event>, x: nat, l: SockId): seq<SockId> {
    if log == [] then []
    else
      var e := log[|log| - 1];
      var before := AckOrder(log[..|log| - 1], x, l);
      if e.AckArrived? && e.host == x && e.listener == l then before + [e.child] else before
  }

  function AcceptOrder(log: seq<Event>, x: nat, l: SockId): seq<SockId> {
    if log == [] then []
    else
      var e := log[|log| - 1];
      var before := AcceptOrder(log[..|log| - 1], x, l);
      if e.Accepted? && e.host == x && e.listener == l then before + [e.child] else before
  }

  /** Children are accepted in the order in which their ACKs arrived: what has
      been accepted, then the queue, is what has been acknowledged. */
  ghost predicate InOrder(w: World, x: nat, l: SockId)
    requires x < |w.hosts|
  {
    var acked, h := AckOrder(w.log, x, l), w.hosts[x];
    && acked == AcceptOrder(w.log, x, l) + ListOf(h, AcceptQueue(l))
    && Distinct(acked)
    && forall c :: c in acked ==> Queues.Ready(h, l, c)
  }

  ghost predicate LogOk(w: World) {
    forall x, l: SockId :: 0 <= x < |w.hosts| ==> InOrder(w, x, l)
  }

  lemma LogExtended(w: World, a: Action, x: nat, l: SockId)
    requires a.x < |w.hosts| && HostReady(w.hosts[a.x], a)
    ensures var e := Logs(w.hosts[a.x], a);
      && AckOrder(Next(w, a).log, x, l) == AckOrder(w.log, x, l) +
           (if e != [] && e[0].AckArrived? && e[0].host == x && e[0].listener == l then [e[0].child] else [])
      && AcceptOrder(Next(w, a).log, x, l) == AcceptOrder(w.log, x, l) +
           (if e != [] && e[0].Accepted? && e[0].host == x && e[0].listener == l then [e[0].child] else [])
  {
    var e := Logs(w.hosts[a.x], a);
    if e == [] {
      assert w.log + e == w.log;
    } else {
      assert (w.log + e)[..|w.log + e| - 1] == w.log;
    }
  }

  lemma BindQueues(h: Host, id: SockId, port: u16, l: SockId)
    requires id < |h.socks|
    ensures SetSport(h, id, port).Some? ==> ListOf(SetSport(h, id, port).value, AcceptQueue(l)) == ListOf(h, AcceptQueue(l))
  {
  }

  lemma ListenQueues(h: Host, id: SockId, backlog: int, l: SockId)
    requires id < |h.socks|
    ensures ListenOn(h, id, backlog).Some? ==> ListOf(ListenOn(h, id, backlog).value, AcceptQueue(l)) == ListOf(h, AcceptQueue(l))
  {
  }

  lemma ConnectQueues(h: Host, id: SockId, t: Tuple, l: SockId)
    requires id < |h.socks|
    ensures ListOf(Connect(h, id, t), AcceptQueue(l)) == ListOf(h, AcceptQueue(l))
  {
  }

  lemma DeliveryQueues(h: Host, a: Action, l: SockId)
    requires HostOk(h) && a.Deliver? && HostReady(h, a)
    ensures ListOf(HostNext(h, a), AcceptQueue(l)) ==
      match EffectOf(h, a.g)
      case Acks(c) => if h.socks[c].parent == Some(l) then ListOf(h, AcceptQueue(l)) + [c] else ListOf(h, AcceptQueue(l))
      case _ => ListOf(h, AcceptQueue(l))
  {
    LookupResult(h, a.g);
    EffectHost(h, a);
    match EffectOf(h, a.g)
    case Same =>
    case Opens(_) =>
    case Spawns(id) =>
      SpawnTables(h, id, a.g);
      assert AcceptQueue(|h.socks|) !in h.lists && ListenQueue(|h.socks|) !in h.lists;
      SpawnLists(h, id, a.g);
    case Acks(id) =>
      assert InQueue(h, id);
      AckedLists(h, id);
  }

  lemma QueueAfter(h: Host, a: Action, l: SockId)
    requires HostOk(h) && HostEnabled(h, a) && HostReady(h, a) && !a.Deliver?
    ensures ListOf(HostNext(h, a), AcceptQueue(l)) ==
      if a.Accept? && a.id == l then ListOf(h, AcceptQueue(l))[1..] else ListOf(h, AcceptQueue(l))
  {
    match a
    case NewSock(_) => AllocNeutral(h);
    case Bind(_, id, port) => BindQueues(h, id, port, l);
    case Listening(_, id, backlog) => ListenQueues(h, id, backlog, l);
    case Connecting(_, id, t) => ConnectQueues(h, id, t, l);
    case Accept(_, id) => DequeuedHost(h, id);
    case SendData(_, _, _) =>
  }

  lemma ReadyStays(h: Host, h': Host, l: SockId)
    requires Extends(h, h')
    ensures forall c: SockId :: Queues.Ready(h, l, c) ==> Queues.Ready(h', l, c)
  {
    forall c: SockId | Queues.Ready(h, l, c) ensures Queues.Ready(h', l, c) {
      assert Later(h.socks[c], h'.socks[c]);
    }
  }

  lemma AckStep(acked: seq<SockId>, accepted: seq<SockId>, q: seq<SockId>, c: SockId)
    requires acked == accepted + q && Distinct(acked) && c !in acked
    ensures acked + [c] == accepted + (q + [c]) && Distinct(acked + [c])
  {
  }

  lemma AcceptStep(acked: seq<SockId>, accepted: seq<SockId>, q: seq<SockId>)
    requires acked == accepted + q && q != []
    ensures acked == (accepted + [q[0]]) + q[1..]
  {
  }

  /** The final ACK of a child of l puts it last in both orders. */
  lemma OrderAfterAck(w: World, a: Action, l: SockId)
    requires a.x < |w.hosts| && HostOk(w.hosts[a.x]) && a.Deliver? && HostReady(w.hosts[a.x], a) && InOrder(w, a.x, l)
    requires EffectOf(w.hosts[a.x], a.g).Acks? && w.hosts[a.x].socks[EffectOf(w.hosts[a.x], a.g).id].parent == Some(l)
    requires Extends(w.hosts[a.x], Next(w, a).hosts[a.x])
    ensures InOrder(Next(w, a), a.x, l)
  {
    var h, c := w.hosts[a.x], EffectOf(w.hosts[a.x], a.g).id;
    LogExtended(w, a, a.x, l);
    DeliveryQueues(h, a, l);
    ReadyStays(h, Next(w, a).hosts[a.x], l);
    var acked, accepted, q := AckOrder(w.log, a.x, l), AcceptOrder(w.log, a.x, l), ListOf(h, AcceptQueue(l));
    assert c !in acked by { assert !Queues.Ready(h, l, c); }
    AckStep(acked, accepted, q, c);
    assert Queues.Ready(Next(w, a).hosts[a.x], l, c) by { BecomesReady(h, a); }
  }

  lemma BecomesReady(h: Host, a: Action)
    requires HostOk(h) && a.Deliver? && HostReady(h, a) && EffectOf(h, a.g).Acks?
    ensures var c := EffectOf(h, a.g).id; h.socks[c].parent.Some? && Queues.Ready(HostNext(h, a), h.socks[c].parent.value, c)
  {
    EffectHost(h, a);
    assert InQueue(h, EffectOf(h, a.g).id);
  }

  lemma OrderAfterAccept(w: World, a: Action)
    requires a.x < |w.hosts| && HostOk(w.hosts[a.x]) && HostEnabled(w.hosts[a.x], a) && HostReady(w.hosts[a.x], a)
    requires a.Accept? && InOrder(w, a.x, a.id) && Extends(w.hosts[a.x], Next(w, a).hosts[a.x])
    ensures InOrder(Next(w, a), a.x, a.id)
  {
    var h, l := w.hosts[a.x], a.id;
    LogExtended(w, a, a.x, l);
    QueueAfter(h, a, l);
    ReadyStays(h, Next(w, a).hosts[a.x], l);
    AcceptStep(AckOrder(w.log, a.x, l), AcceptOrder(w.log, a.x, l), ListOf(h, AcceptQueue(l)));
  }

  /** Nothing happened to the queue of l, here or elsewhere. */
  lemma OrderElsewhere(w: World, a: Action, x: nat, l: SockId)
    requires a.x < |w.hosts| && x < |w.hosts| && HostReady(w.hosts[a.x], a) && InOrder(w, x, l)
    requires Extends(w.hosts[x], Next(w, a).hosts[x])
    requires Logs(w.hosts[a.x], a) != [] ==> Logs(w.hosts[a.x], a)[0].host != x || Logs(w.hosts[a.x], a)[0].listener != l
    requires ListOf(Next(w, a).hosts[x], AcceptQueue(l)) == ListOf(w.hosts[x], AcceptQueue(l))
    ensures InOrder(Next(w, a), x, l)
  {
    LogExtended(w, a, x, l);
    OrderCarried(w, Next(w, a), x, l);
  }

  lemma OrderCarried(w: World, w': World, x: nat, l: SockId)
    requires x < |w.hosts| == |w'.hosts| && InOrder(w, x, l) && Extends(w.hosts[x], w'.hosts[x])
    requires AckOrder(w'.log, x, l) == AckOrder(w.log, x, l) && AcceptOrder(w'.log, x, l) == AcceptOrder(w.log, x, l)
    requires ListOf(w'.hosts[x], AcceptQueue(l)) == ListOf(w.hosts[x], AcceptQueue(l))
    ensures InOrder(w', x, l)
  {
    ReadyStays(w.hosts[x], w'.hosts[x], l);
  }

  lemma StepOrder(w: World, a: Action, x: nat, l: SockId)
    requires HostsOk(w) && Enabled(w, a) && x < |w.hosts| && HostReady(w.hosts[a.x], a) && InOrder(w, x, l)
    requires Grows(w, Next(w, a))
    ensures InOrder(Next(w, a), x, l)
  {
    assert Extends(w.hosts[x], Next(w, a).hosts[x]) && HostOk(w.hosts[x]);
    if x != a.x {
      OrderElsewhere(w, a, x, l);
    } else if a.Accept? && a.id == l {
      OrderAfterAccept(w, a);
    } else if !a.Deliver? {
      QueueAfter(w.hosts[x], a, l);
      OrderElsewhere(w, a, x, l);
    } else if EffectOf(w.hosts[x], a.g).Acks? && w.hosts[x].socks[EffectOf(w.hosts[x], a.g).id].parent == Some(l) {
      OrderAfterAck(w, a, l);
    } else {
      DeliveryQueues(w.hosts[x], a, l);
      OrderElsewhere(w, a, x, l);
    }
  }

  lemma StepLog(w: World, a: Action)
    requires HostsOk(w) && LogOk(w) && Enabled(w, a)
    ensures HostReady(w.hosts[a.x], a)
    ensures LogOk(Next(w, a))
  {
    StepGrows(w, a);
    forall x, l: SockId | 0 <= x < |w.hosts| ensures InOrder(Next(w, a), x, l) {
      StepOrder(w, a, x, l);
    }
  }

  // Runs

  ghost predicate WorldOk(w: World) {
    HostsOk(w) && SegmentsOk(w) && PairsOk(w) && LogOk(w)
  }

  /** n hosts that have just initialised their stacks. */
  function Initial(n: nat): World {
    World(seq(n, _ => EmptyHost), {}, {}, [])
  }

  lemma InitialOk(n: nat)
    ensures WorldOk(Initial(n))
  {
    TableRuns.EmptyRefines();
    forall x, l: SockId | 0 <= x < n ensures InOrder(Initial(n), x, l) {
      assert AcceptQueue(l) !in EmptyHost.lists;
    }
    assert forall k: ListId :: ListOf(EmptyHost, k) == [];
  }

  lemma StepOk(w: World, a: Action)
    requires WorldOk(w) && Enabled(w, a)
    ensures HostReady(w.hosts[a.x], a)
    ensures WorldOk(Next(w, a)) && Grows(w, Next(w, a))
  {
    StepGrows(w, a);
    StepSegments(w, a);
    StepPairs(w, a);
    StepLog(w, a);
  }
}
