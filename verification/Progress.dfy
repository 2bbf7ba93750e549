/** However far the handshake of a connection has got, and whatever has been
    lost, it can still be completed by deliveries of segments already sent. */
module Progress {
  import opened Base
  import opened Segments
  import opened Hosts
  import opened Tables
  import opened Queues
  import opened Net
  import opened Handshake
  import opened Completion

  // What has been sent for each sock

  /** The segments that the state of a sock says were sent for it */
  predicate Announced(s: Sock, sent: set<Segment>) {
    && (s.parent.Some? ==> SynAckOf(Mirror(s.tuple)) in sent)
    && (s.parent.None? && (s.state == SynSent || s.state == Established) ==> SynOf(s.tuple) in sent)
    && (s.parent.None? && s.state == Established ==> AckOf(s.tuple) in sent)
  }

  ghost predicate AllAnnounced(h: Host, sent: set<Segment>) {
    forall i :: 0 <= i < |h.socks| ==> Announced(h.socks[i], sent)
  }

  /** Nothing new has to have been sent for s'. */
  predicate Settled(s: Sock, s': Sock) {
    && s'.parent == s.parent
    && ((s'.state == s.state && s'.tuple == s.tuple) || (s.parent.None? && (s'.state == Closed || s'.state == Listen)))
  }

  lemma BindSettles(h: Host, id: SockId, port: u16, i: nat)
    requires Idle(h, id) && SetSport(h, id, port).Some? && i < |SetSport(h, id, port).value.socks|
    ensures i < |h.socks| && Settled(h.socks[i], SetSport(h, id, port).value.socks[i])
  {
  }

  lemma ListenSettles(h: Host, id: SockId, backlog: int, i: nat)
    requires Idle(h, id) && ListenOn(h, id, backlog).Some? && i < |ListenOn(h, id, backlog).value.socks|
    ensures i < |h.socks| && Settled(h.socks[i], ListenOn(h, id, backlog).value.socks[i])
  {
  }

  lemma ConnectSettles(h: Host, id: SockId, t: Tuple, i: nat)
    requires Idle(h, id) && i < |Connect(h, id, t).socks|
    ensures i < |h.socks|
    ensures var s' := Connect(h, id, t).socks[i];
      if i == id then s'.parent.None? && s'.state == SynSent && s'.tuple == t else Settled(h.socks[i], s')
  {
  }

  lemma CallAnnounces(h: Host, a: Action, sent: set<Segment>, i: nat)
    requires AllNumbered(h) && AllAnnounced(h, sent) && HostEnabled(h, a) && HostReady(h, a) && !a.Deliver?
    requires i < |HostNext(h, a).socks|
    ensures Announced(HostNext(h, a).socks[i], sent + Sends(h, a))
  {
    match a
    case NewSock(_) =>
    case Bind(_, id, port) => if SetSport(h, id, port).Some? { BindSettles(h, id, port, i); }
    case Listening(_, id, backlog) => if ListenOn(h, id, backlog).Some? { ListenSettles(h, id, backlog, i); }
    case Connecting(_, id, t) => ConnectSettles(h, id, t, i); ConnectNumbers(h, id, t);
    case Accept(_, id) =>
    case SendData(_, id, len) =>
  }

  /** The replies that a delivery is bound to send, by its effect */
  lemma EffectEmits(h: Host, a: Action)
    requires a.Deliver? && HostReady(h, a)
    ensures EffectOf(h, a.g).Spawns? ==> ControlSegment(ChildSock(EffectOf(h, a.g).id, a.g), SYN_ACK) in Sends(h, a)
    ensures EffectOf(h, a.g).Opens? ==>
      EffectOf(h, a.g).id < |h.socks| && h.socks[EffectOf(h, a.g).id].state == SynSent
      && ControlSegment(h.socks[EffectOf(h, a.g).id], ACK) in Sends(h, a)
  {
    if EffectOf(h, a.g).Spawns? {
      assert ControlSegment(ChildSock(EffectOf(h, a.g).id, a.g), SYN_ACK) in Process(h, EffectOf(h, a.g).id, a.g).sent;
    }
    if EffectOf(h, a.g).Opens? {
      assert ControlSegment(h.socks[EffectOf(h, a.g).id], ACK) in Process(h, EffectOf(h, a.g).id, a.g).sent;
    }
  }

  lemma MirrorTwice(t: Tuple)
    ensures Mirror(Mirror(t)) == t
  {
  }

  lemma OpenedAnnounces(h: Host, id: SockId, sent: set<Segment>, i: nat)
    requires id < |h.socks| && h.socks[id].parent.None? && h.socks[id].state == SynSent && AllNumbered(h) && AllAnnounced(h, sent)
    requires i < |h.socks|
    ensures Announced(Update(h, id, h.socks[id].(state := Established)).socks[i], sent + {ControlSegment(h.socks[id], ACK)})
  {
    assert Numbered(h.socks[id]) && Announced(h.socks[i], sent);
  }

  lemma AckedAnnounces(h: Host, id: SockId, sent: set<Segment>, i: nat)
    requires id < |h.socks| && h.socks[id].parent.Some? && h.socks[id].parent.value < |h.socks| && AllAnnounced(h, sent)
    requires i < |Acked(h, id).socks|
    ensures Announced(Acked(h, id).socks[i], sent)
  {
  }

  lemma SpawnAnnounces(h: Host, h': Host, l: SockId, g: Segment, sent: set<Segment>, i: nat)
    requires AllAnnounced(h, sent) && h'.socks == h.socks + [NewChild(l, g)] && i < |h'.socks|
    ensures Announced(h'.socks[i], sent + {ControlSegment(ChildSock(l, g), SYN_ACK)})
  {
    MirrorTwice(g.from);
  }

  lemma MoreAnnounced(s: Sock, sent: set<Segment>, more: set<Segment>)
    requires Announced(s, sent) && sent <= more
    ensures Announced(s, more)
  {
  }

  lemma DeliveryAnnounces(h: Host, a: Action, sent: set<Segment>, i: nat)
    requires HostOk(h) && AllNumbered(h) && AllAnnounced(h, sent) && a.Deliver? && HostReady(h, a) && i < |HostNext(h, a).socks|
    ensures Announced(HostNext(h, a).socks[i], sent + Sends(h, a))
  {
    EffectHost(h, a);
    EffectEmits(h, a);
    EffectFinds(h, a.g);
    var s', all := HostNext(h, a).socks[i], sent + Sends(h, a);
    match EffectOf(h, a.g)
    case Same => MoreAnnounced(s', sent, all);
    case Acks(id) => AckedAnnounces(h, id, sent, i); MoreAnnounced(s', sent, all);
    case Opens(id) =>
      OpenedAnnounces(h, id, sent, i);
      MoreAnnounced(s', sent + {ControlSegment(h.socks[id], ACK)}, all);
    case Spawns(id) =>
      SpawnedSocks(h, a);
      SpawnAnnounces(h, Spawn(h, id, a.g), id, a.g, sent, i);
      MoreAnnounced(s', sent + {ControlSegment(ChildSock(id, a.g), SYN_ACK)}, all);
  }

  lemma SpawnedSocks(h: Host, a: Action)
    requires HostOk(h) && a.Deliver? && HostReady(h, a) && EffectOf(h, a.g).Spawns?
    ensures Spawn(h, EffectOf(h, a.g).id, a.g).socks == h.socks + [NewChild(EffectOf(h, a.g).id, a.g)]
  {
    LookupResult(h, a.g);
    SpawnHost(h, EffectOf(h, a.g).id, a.g);
  }

  lemma StepAnnounces(h: Host, a: Action, sent: set<Segment>)
    requires HostOk(h) && AllNumbered(h) && AllAnnounced(h, sent) && HostEnabled(h, a) && HostReady(h, a)
    ensures AllAnnounced(HostNext(h, a), sent + Sends(h, a))
  {
    forall i | 0 <= i < |HostNext(h, a).socks| ensures Announced(HostNext(h, a).socks[i], sent + Sends(h, a)) {
      if a.Deliver? { DeliveryAnnounces(h, a, sent, i); } else { CallAnnounces(h, a, sent, i); }
    }
  }

  ghost predicate WorldAnnounced(w: World) {
    forall x :: 0 <= x < |w.hosts| ==> AllAnnounced(w.hosts[x], w.sent)
  }

  /** In every state of every run: the SYN|ACK of every child, the SYN of every
      opener and the ACK of every established opener are in the network. */
  lemma {:induction false} RunAnnounced(ws: seq<World>, i: nat)
    requires IsRun(ws) && i < |ws|
    ensures WorldAnnounced(ws[i])
  {
    if i == 0 {
      assert EmptyHost.socks == [];
    } else {
      RunAnnounced(ws, i - 1);
      RunNumbers(ws, i - 1);
      assert HostsOk(ws[i - 1]) by { RunOk(ws, i - 1); }
      assert Step(ws[i - 1], ws[i - 1 + 1]);
      var a :| Enabled(ws[i - 1], a) && HostReady(ws[i - 1].hosts[a.x], a) && ws[i] == Next(ws[i - 1], a);
      AnnouncedStep(ws[i - 1], a);
    }
  }

  lemma AnnouncedStep(w: World, a: Action)
    requires HostsOk(w) && WorldNumbered(w) && WorldAnnounced(w) && Enabled(w, a) && HostReady(w.hosts[a.x], a)
    ensures WorldAnnounced(Next(w, a))
  {
    var w' := Next(w, a);
    assert HostOk(w.hosts[a.x]);
    StepAnnounces(w.hosts[a.x], a, w.sent);
    forall x | 0 <= x < |w'.hosts| ensures AllAnnounced(w'.hosts[x], w'.sent) {
      if x != a.x {
        forall i | 0 <= i < |w.hosts[x].socks| ensures Announced(w.hosts[x].socks[i], w'.sent) {
          MoreAnnounced(w.hosts[x].socks[i], w.sent, w'.sent);
        }
      }
    }
  }

  // The stages that are left

  /** Both stacks are up, and the opener at y can be answered. */
  ghost predicate Underway(w: World, x: nat, y: nat, o: SockId, t: Tuple) {
    && x < |w.hosts| && y < |w.hosts| && x !in w.halted && y !in w.halted
    && HostOk(w.hosts[x]) && HostOk(w.hosts[y]) && IsOpener(w.hosts[y], o, t)
    && SynOf(t) in w.sent
    && (if w.hosts[y].socks[o].state == SynSent then Waits(w.hosts[y], o, t) else AckOf(t) in w.sent)
  }

  /** The child at x, in the handshake or past it */
  ghost predicate Served(w: World, x: nat, c: SockId, t: Tuple)
    requires x < |w.hosts|
  {
    && IsChild(w.hosts[x], c, Mirror(t)) && SynAckOf(t) in w.sent
    && (w.hosts[x].socks[c].state == Established || Offers(w.hosts[x], c, w.hosts[x].socks[c].parent.value, t))
  }

  /** No child yet: the SYN makes one. */
  lemma Meet(w: World, x: nat, y: nat, l: SockId, o: SockId, t: Tuple) returns (w': World, c: SockId)
    requires Underway(w, x, y, o, t) && LookupEstablished(w.hosts[x], Mirror(t)).None? && LookupListen(w.hosts[x], t.dport) == Some(l)
    requires l < |w.hosts[x].socks| && FreshWindow(w.hosts[x].socks[l])
    ensures Step(w, w') && Underway(w', x, y, o, t) && Served(w', x, c, t)
  {
    var h := w.hosts[x];
    c := |h.socks|;
    assert DeliverGives(h, SynOf(t), Spawn(h, l, SynOf(t)), {SynAckOf(t)}) by { SynSpawns(h, l, t); }
    w' := DeliverStep(w, x, SynOf(t), Spawn(h, l, SynOf(t)), {SynAckOf(t)});
    assert HostOk(w'.hosts[x]) && Served(w', x, c, t) by { SpawnedChild(h, l, t); }
    if x == y { SpawnKeepsEither(h, l, o, t); }
  }

  lemma SpawnKeepsEither(h: Host, l: SockId, o: SockId, t: Tuple)
    requires HostOk(h) && l < |h.socks| && LookupEstablished(h, Mirror(t)).None? && IsOpener(h, o, t)
    ensures var h' := Spawn(h, l, SynOf(t)); IsOpener(h', o, t) && h'.socks[o].state == h.socks[o].state
    ensures Waits(h, o, t) ==> Waits(Spawn(h, l, SynOf(t)), o, t)
  {
    SpawnHost(h, l, SynOf(t));
    if Waits(h, o, t) { SpawnKeepsOpener(h, l, o, t); }
  }

  /** The opener has not been answered yet: the SYN|ACK establishes it. */
  lemma Answer(w: World, x: nat, y: nat, c: SockId, o: SockId, t: Tuple) returns (w': World)
    requires Underway(w, x, y, o, t) && Served(w, x, c, t) && w.hosts[y].socks[o].state == SynSent
    ensures Step(w, w') && Underway(w', x, y, o, t) && Served(w', x, c, t) && IsConnected(w'.hosts[y], o, t)
  {
    var k := w.hosts[y];
    var k' := Update(k, o, k.socks[o].(state := Established));
    assert DeliverGives(k, SynAckOf(t), k', {AckOf(t)}) by { SynAckOpens(k, o, t); }
    w' := DeliverStep(w, y, SynAckOf(t), k', {AckOf(t)});
    assert HostOk(k') by { OpenedHost(k, o); }
    if x == y && k.socks[c].state != Established {
      OpeningKeepsChild(k, o, c, k.socks[c].parent.value, t);
    }
  }

  /** The child has not been acknowledged yet: the ACK establishes it. */
  lemma Acknowledge(w: World, x: nat, y: nat, c: SockId, o: SockId, t: Tuple) returns (w': World)
    requires Underway(w, x, y, o, t) && Served(w, x, c, t) && IsConnected(w.hosts[y], o, t) && w.hosts[x].socks[c].state != Established
    ensures Step(w, w') && |w'.hosts| == |w.hosts| && ChildEstablished(w', x, c, Mirror(t)) && IsConnected(w'.hosts[y], o, t)
  {
    var l := w.hosts[x].socks[c].parent.value;
    w' := Completion.LastAck(w, x, c, l, t);
    if x == y { AckedChild(w.hosts[x], c, l, t); }
  }

  /** A sequence of steps from one state on */
  ghost predicate Path(path: seq<World>) {
    |path| > 0 && forall i :: 0 <= i < |path| - 1 ==> Step(path[i], path[i + 1])
  }

  lemma PathGrows(path: seq<World>, w: World)
    requires Path(path) && Step(Last(path), w)
    ensures Path(path + [w]) && Last(path + [w]) == w && (path + [w])[0] == path[0]
  {
    var p := path + [w];
    forall i | 0 <= i < |p| - 1 ensures Step(p[i], p[i + 1]) {
      assert i < |path| - 1 ==> Step(path[i], path[i + 1]);
    }
  }

  /** What is left once the child is there: at most two deliveries. */
  lemma FinishFrom(w: World, x: nat, y: nat, c: SockId, o: SockId, t: Tuple) returns (path: seq<World>)
    requires Underway(w, x, y, o, t) && Served(w, x, c, t)
    ensures Path(path) && path[0] == w && |path| <= 3
    ensures ChildEstablished(Last(path), x, c, Mirror(t)) && y < |Last(path).hosts| && IsConnected(Last(path).hosts[y], o, t)
  {
    path := [w];
    var w1 := w;
    if w.hosts[y].socks[o].state == SynSent {
      w1 := Answer(w, x, y, c, o, t);
      PathGrows(path, w1);
      path := path + [w1];
    }
    if w1.hosts[x].socks[c].state != Established {
      var w2 := Acknowledge(w1, x, y, c, o, t);
      PathGrows(path, w2);
      path := path + [w2];
    }
  }

  /** A SYN of t finds a listener or the child it made before. */
  predicate Answers(h: Host, t: Tuple) {
    match Lookup(h, SynOf(t))
    case None => false
    case Some(id) => id < |h.socks| && (h.socks[id].state == Listen || h.socks[id].parent.Some?)
  }

  /** In every state of every run, a connection whose SYN is answered at x and
      whose opener can be found at y can be completed in at most three deliveries,
      whether or not the child exists, the opener is established or segments have
      been lost. */
  lemma ConnectionCanComplete(ws: seq<World>, j: nat, x: nat, y: nat, o: SockId, t: Tuple) returns (path: seq<World>, c: SockId)
    requires IsRun(ws) && j < |ws| && x < |ws[j].hosts| && y < |ws[j].hosts| && x !in ws[j].halted && y !in ws[j].halted
    requires IsOpener(ws[j].hosts[y], o, t) && (ws[j].hosts[y].socks[o].state == SynSent ==> InEstablished(ws[j].hosts[y], o))
    requires Answers(ws[j].hosts[x], t)
    ensures Path(path) && path[0] == ws[j] && |path| <= 4
    ensures ChildEstablished(Last(path), x, c, Mirror(t)) && y < |Last(path).hosts| && IsConnected(Last(path).hosts[y], o, t)
  {
    StartUnderway(ws, j, x, y, o, t);
    var id := StartFound(ws, j, x, t);
    path, c := CompleteFrom(ws[j], x, y, id, o, t);
  }

  /** What the SYN finds: a listener, if there is no child, or the child */
  ghost predicate Found(w: World, x: nat, id: SockId, t: Tuple)
    requires x < |w.hosts|
  {
    if LookupEstablished(w.hosts[x], Mirror(t)).None? then
      LookupListen(w.hosts[x], t.dport) == Some(id) && id < |w.hosts[x].socks| && FreshWindow(w.hosts[x].socks[id])
    else Served(w, x, id, t)
  }

  lemma CompleteFrom(w: World, x: nat, y: nat, id: SockId, o: SockId, t: Tuple) returns (path: seq<World>, c: SockId)
    requires Underway(w, x, y, o, t) && Found(w, x, id, t)
    ensures Path(path) && path[0] == w && |path| <= 4
    ensures ChildEstablished(Last(path), x, c, Mirror(t)) && y < |Last(path).hosts| && IsConnected(Last(path).hosts[y], o, t)
  {
    if LookupEstablished(w.hosts[x], Mirror(t)).None? {
      path, c := CompleteFromListener(w, x, y, id, o, t);
    } else {
      c := id;
      path := FinishFrom(w, x, y, c, o, t);
    }
  }

  lemma StartFound(ws: seq<World>, j: nat, x: nat, t: Tuple) returns (id: SockId)
    requires IsRun(ws) && j < |ws| && x < |ws[j].hosts| && Answers(ws[j].hosts[x], t)
    ensures Found(ws[j], x, id, t)
  {
    id := Lookup(ws[j].hosts[x], SynOf(t)).value;
    if LookupEstablished(ws[j].hosts[x], Mirror(t)).None? {
      assert FreshWindow(ws[j].hosts[x].socks[id]) by { RunNumbers(ws, j); }
    } else {
      StartServed(ws, j, x, id, t);
    }
  }

  lemma CompleteFromListener(w: World, x: nat, y: nat, l: SockId, o: SockId, t: Tuple) returns (path: seq<World>, c: SockId)
    requires Underway(w, x, y, o, t) && LookupEstablished(w.hosts[x], Mirror(t)).None? && LookupListen(w.hosts[x], t.dport) == Some(l)
    requires l < |w.hosts[x].socks| && FreshWindow(w.hosts[x].socks[l])
    ensures Path(path) && path[0] == w && |path| <= 4
    ensures ChildEstablished(Last(path), x, c, Mirror(t)) && y < |Last(path).hosts| && IsConnected(Last(path).hosts[y], o, t)
  {
    var w1;
    w1, c := Meet(w, x, y, l, o, t);
    path := FinishFrom(w1, x, y, c, o, t);
    path := PathBefore(w, path);
  }

  lemma PathBefore(w: World, path: seq<World>) returns (p: seq<World>)
    requires Path(path) && Step(w, path[0])
    ensures Path(p) && p[0] == w && |p| == |path| + 1 && Last(p) == Last(path)
  {
    p := [w] + path;
    forall i | 0 <= i < |p| - 1 ensures Step(p[i], p[i + 1]) {
      if i > 0 { assert Step(path[i - 1], path[i - 1 + 1]); }
    }
  }

  lemma StartUnderway(ws: seq<World>, j: nat, x: nat, y: nat, o: SockId, t: Tuple)
    requires IsRun(ws) && j < |ws| && x < |ws[j].hosts| && y < |ws[j].hosts| && x !in ws[j].halted && y !in ws[j].halted
    requires IsOpener(ws[j].hosts[y], o, t) && (ws[j].hosts[y].socks[o].state == SynSent ==> InEstablished(ws[j].hosts[y], o))
    ensures Underway(ws[j], x, y, o, t)
  {
    var s := ws[j].hosts[y].socks[o];
    assert HostOk(ws[j].hosts[x]) && HostOk(ws[j].hosts[y]) by { RunOk(ws, j); }
    assert Numbered(s) by { RunNumbers(ws, j); }
    assert Announced(s, ws[j].sent) by { RunAnnounced(ws, j); }
  }

  lemma StartServed(ws: seq<World>, j: nat, x: nat, c: SockId, t: Tuple)
    requires IsRun(ws) && j < |ws| && x < |ws[j].hosts| && LookupEstablished(ws[j].hosts[x], Mirror(t)) == Some(c)
    requires c < |ws[j].hosts[x].socks| && (ws[j].hosts[x].socks[c].state == Listen || ws[j].hosts[x].socks[c].parent.Some?)
    ensures Served(ws[j], x, c, t)
  {
    var h := ws[j].hosts[x];
    assert HostOk(h) by { RunOk(ws, j); }
    assert Numbered(h.socks[c]) by { RunNumbers(ws, j); }
    assert Announced(h.socks[c], ws[j].sent) by { RunAnnounced(ws, j); }
    LookupResult(h, SynOf(t));
    MirrorTwice(t);
  }
}
