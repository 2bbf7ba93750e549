/** What tcp_process answers, state by state, without reference to how it is
    computed. */
module Replies {
  import opened Base
  import opened SeqSpace
  import opened Segments
  import opened Hosts
  import opened Tables
  import opened Queues
  import opened Net
  import opened Handshake
  import opened Completion

  /** The segment that the branch for the state of s waits for */
  predicate Expected(s: Sock, flags: byte) {
    || (s.state == Listen && flags == 0x02)
    || (s.state == SynRecv && flags == 0x10)
    || (s.state == SynSent && flags == 0x12)
  }

  /** The states that answer anything else with a reset */
  predicate Opening(s: Sock) {
    s.state == Closed || s.state == Listen || s.state == SynRecv || s.state == SynSent
  }

  /** RST|ACK with the ends of g exchanged, sequence number 0, and acknowledging all of g */
  function ResetOf(g: Segment): Segment {
    Segment(Tuple(g.from.dip, g.from.sip, g.from.dport, g.from.sport), 0, SeqEnd(g), 0x14, 0, 0)
  }

  predicate InWindow(s: Sock, g: Segment) {
    SeqValid(s.rcvNxt, s.rcvWnd, g.seqNo, SeqEnd(g))
  }

  /** A segment outside the window is dropped without a trace. */
  lemma OutsideWindow(h: Host, x: nat, g: Segment, id: SockId)
    requires HostReady(h, Deliver(x, g)) && Lookup(h, g) == Some(id) && !InWindow(h.socks[id], g)
    ensures var a := Deliver(x, g); Sends(h, a) == {} && HostNext(h, a) == h && !Halts(h, a) && Logs(h, a) == []
  {
  }

  /** A bare RST is answered with one ACK, a bare FIN with nothing; both go on to
      close the sock. */
  lemma Closing(h: Host, x: nat, g: Segment, id: SockId)
    requires HostReady(h, Deliver(x, g)) && Lookup(h, g) == Some(id) && InWindow(h.socks[id], g) && (g.flags == 0x04 || g.flags == 0x01)
    ensures var a, s := Deliver(x, g), h.socks[id];
      && Halts(h, a) && HostNext(h, a) == h
      && Sends(h, a) == if g.flags == 0x04 then {Segment(s.tuple, s.sndNxt, s.rcvNxt, 0x10, s.rcvWnd, 0)} else {}
  {
    var s := h.socks[id];
    if g.flags == 0x04 {
      assert Process(h, id, g).sent == [Segment(s.tuple, s.sndNxt, s.rcvNxt, 0x10, s.rcvWnd, 0)];
    }
  }

  /** Whatever else is unexpected in an opening state draws exactly one reset and
      changes nothing. */
  lemma Unexpected(h: Host, x: nat, g: Segment, id: SockId)
    requires HostReady(h, Deliver(x, g)) && Lookup(h, g) == Some(id) && InWindow(h.socks[id], g)
    requires g.flags != 0x04 && g.flags != 0x01 && Opening(h.socks[id]) && !Expected(h.socks[id], g.flags)
    ensures var a := Deliver(x, g); Sends(h, a) == {ResetOf(g)} && HostNext(h, a) == h && !Halts(h, a) && Logs(h, a) == []
  {
    assert Process(h, id, g).sent == [ResetOf(g)];
  }

  /** In the remaining states nothing is sent and nothing changes. */
  lemma Ignored(h: Host, x: nat, g: Segment, id: SockId)
    requires HostReady(h, Deliver(x, g)) && Lookup(h, g) == Some(id) && InWindow(h.socks[id], g)
    requires g.flags != 0x04 && g.flags != 0x01 && !Opening(h.socks[id])
    ensures var a := Deliver(x, g); Sends(h, a) == {} && HostNext(h, a) == h && !Halts(h, a) && Logs(h, a) == []
  {
  }

  /** SYN at a listener: one SYN|ACK from the other end ... */
  lemma SynReply(h: Host, x: nat, g: Segment, id: SockId)
    requires HostReady(h, Deliver(x, g)) && Lookup(h, g) == Some(id) && InWindow(h.socks[id], g)
    requires h.socks[id].state == Listen && g.flags == 0x02
    ensures var a, t := Deliver(x, g), Tuple(g.from.dip, g.from.sip, g.from.dport, g.from.sport);
      && Sends(h, a) == {Segment(t, 0, 0, 0x12, 65535, 0)} && !Halts(h, a)
      && HostNext(h, a) == Spawn(h, id, g)
  {
    assert Process(h, id, g).sent == [Segment(Tuple(g.from.dip, g.from.sip, g.from.dport, g.from.sport), 0, 0, 0x12, 65535, 0)];
  }

  /** ... which is a new child in SYN_RECV, hashed, and last in the listen queue. */
  lemma ExpectedSyn(h: Host, x: nat, g: Segment, id: SockId)
    requires HostOk(h) && HostReady(h, Deliver(x, g)) && Lookup(h, g) == Some(id) && InWindow(h.socks[id], g)
    requires h.socks[id].state == Listen && g.flags == 0x02
    ensures var h', t := HostNext(h, Deliver(x, g)), Tuple(g.from.dip, g.from.sip, g.from.dport, g.from.sport);
      && h'.socks == h.socks + [Sock(t, Some(id), 1, false, 0, 0, SynRecv, 1, 0, 0, 65535)]
      && InEstablished(h', |h.socks|)
      && (forall q: SockId :: ListOf(h', AcceptQueue(q)) == ListOf(h, AcceptQueue(q)))
      && (forall q: SockId :: ListOf(h', ListenQueue(q)) == if q == id then ListOf(h, ListenQueue(q)) + [|h.socks|] else ListOf(h, ListenQueue(q)))
  {
    SynReply(h, x, g, id);
    LookupResult(h, g);
    SpawnedInFull(h, id, g);
  }

  lemma SpawnedInFull(h: Host, id: SockId, g: Segment)
    requires HostOk(h) && id < |h.socks| && LookupEstablished(h, Mirror(g.from)).None?
    ensures var h', t := Spawn(h, id, g), Tuple(g.from.dip, g.from.sip, g.from.dport, g.from.sport);
      && h'.socks == h.socks + [Sock(t, Some(id), 1, false, 0, 0, SynRecv, 1, 0, 0, 65535)]
      && InEstablished(h', |h.socks|)
      && (forall q: SockId :: ListOf(h', AcceptQueue(q)) == ListOf(h, AcceptQueue(q)))
      && (forall q: SockId :: ListOf(h', ListenQueue(q)) == if q == id then ListOf(h, ListenQueue(q)) + [|h.socks|] else ListOf(h, ListenQueue(q)))
  {
    SpawnHost(h, id, g);
    SpawnTables(h, id, g);
    assert ListenQueue(|h.socks|) !in h.lists && AcceptQueue(|h.socks|) !in h.lists;
    SpawnLists(h, id, g);
  }

  /** ACK at a child: not answered ... */
  lemma AckReply(h: Host, x: nat, g: Segment, id: SockId)
    requires HostReady(h, Deliver(x, g)) && Lookup(h, g) == Some(id) && InWindow(h.socks[id], g)
    requires h.socks[id].state == SynRecv && g.flags == 0x10
    ensures var a := Deliver(x, g); Sends(h, a) == {} && !Halts(h, a) && HostNext(h, a) == Acked(h, id)
  {
    assert Process(h, id, g).sent == [];
  }

  /** ... but the child is established, moved from the one queue to the end of the
      other, and counted. */
  lemma ExpectedAck(h: Host, x: nat, g: Segment, id: SockId)
    requires HostOk(h) && HostReady(h, Deliver(x, g)) && Lookup(h, g) == Some(id) && InWindow(h.socks[id], g)
    requires h.socks[id].state == SynRecv && g.flags == 0x10
    ensures h.socks[id].parent.Some? && h.socks[id].parent.value < id
    ensures var h', p := HostNext(h, Deliver(x, g)), h.socks[id].parent.value;
      && h'.socks == h.socks[p := h.socks[p].(acceptBacklog := h.socks[p].acceptBacklog + 1)][id := h.socks[id].(state := Established)]
      && (forall q: SockId :: ListOf(h', ListenQueue(q)) == Without(ListOf(h, ListenQueue(q)), id))
      && (forall q: SockId :: ListOf(h', AcceptQueue(q)) == if q == p then ListOf(h, AcceptQueue(q)) + [id] else ListOf(h, AcceptQueue(q)))
  {
    AckReply(h, x, g, id);
    AckedInFull(h, id);
  }

  lemma AckedInFull(h: Host, id: SockId)
    requires HostOk(h) && id < |h.socks| && h.socks[id].state == SynRecv
    ensures h.socks[id].parent.Some? && h.socks[id].parent.value < id
    ensures var h', p := Acked(h, id), h.socks[id].parent.value;
      && h'.socks == h.socks[p := h.socks[p].(acceptBacklog := h.socks[p].acceptBacklog + 1)][id := h.socks[id].(state := Established)]
      && (forall q: SockId :: ListOf(h', ListenQueue(q)) == Without(ListOf(h, ListenQueue(q)), id))
      && (forall q: SockId :: ListOf(h', AcceptQueue(q)) == if q == p then ListOf(h, AcceptQueue(q)) + [id] else ListOf(h, AcceptQueue(q)))
  {
    ChildQueuedOnce(h, id);
    assert InQueue(h, id);
    AckedLists(h, id);
  }

  /** SYN|ACK at an opener: established, and one ACK. */
  lemma ExpectedSynAck(h: Host, x: nat, g: Segment, id: SockId)
    requires HostReady(h, Deliver(x, g)) && Lookup(h, g) == Some(id) && InWindow(h.socks[id], g)
    requires h.socks[id].state == SynSent && g.flags == 0x12
    ensures var a, s := Deliver(x, g), h.socks[id];
      && Sends(h, a) == {Segment(s.tuple, s.sndNxt, s.rcvNxt, 0x10, s.rcvWnd, 0)} && !Halts(h, a)
      && HostNext(h, a) == Host(h.socks[id := s.(state := Established)], h.lists)
  {
    var s := h.socks[id];
    assert Process(h, id, g).sent == [Segment(s.tuple, s.sndNxt, s.rcvNxt, 0x10, s.rcvWnd, 0)];
  }

  /** No sock at all: nothing is sent, and the host halts. */
  lemma Unanswered(h: Host, x: nat, g: Segment)
    requires Lookup(h, g) == None
    ensures var a := Deliver(x, g); HostReady(h, a) && Sends(h, a) == {} && HostNext(h, a) == h && Halts(h, a)
  {
  }

  /** In every run, a SYN that is delivered again to its child in SYN_RECV puts a
      reset into the network and changes no host. */
  lemma ReplayedSyn(ws: seq<World>, j: nat, x: nat, c: SockId, t: Tuple)
    requires IsRun(ws) && j < |ws| && x < |ws[j].hosts| && x !in ws[j].halted && SynOf(t) in ws[j].sent
    requires IsChild(ws[j].hosts[x], c, Mirror(t)) && ws[j].hosts[x].socks[c].state == SynRecv
    ensures var a := Deliver(x, SynOf(t));
      && Enabled(ws[j], a) && HostReady(ws[j].hosts[x], a)
      && Next(ws[j], a).hosts == ws[j].hosts && Next(ws[j], a).halted == ws[j].halted
      && Next(ws[j], a).sent == ws[j].sent + {Segment(Tuple(t.dip, t.sip, t.dport, t.sport), 0, 1, 0x14, 0, 0)}
  {
    assert HostOk(ws[j].hosts[x]) by { RunOk(ws, j); }
    assert FreshWindow(ws[j].hosts[x].socks[c]) by { RunNumbers(ws, j); }
    ReplayOn(ws[j].hosts[x], x, c, t);
  }

  lemma ReplayOn(h: Host, x: nat, c: SockId, t: Tuple)
    requires HostOk(h) && IsChild(h, c, Mirror(t)) && h.socks[c].state == SynRecv && FreshWindow(h.socks[c])
    ensures Replayed(h, Deliver(x, SynOf(t)), t)
  {
    EnabledReady(h, Deliver(x, SynOf(t)));
    ChildFound(h, c, t);
    ReplayAt(h, x, c, t);
  }

  /** The delivery draws the reset and nothing else. */
  predicate Replayed(h: Host, a: Action, t: Tuple) {
    && HostReady(h, a) && HostNext(h, a) == h && !Halts(h, a) && Logs(h, a) == []
    && Sends(h, a) == {Segment(Tuple(t.dip, t.sip, t.dport, t.sport), 0, 1, 0x14, 0, 0)}
  }

  lemma ReplayAt(h: Host, x: nat, c: SockId, t: Tuple)
    requires HostReady(h, Deliver(x, SynOf(t))) && Lookup(h, SynOf(t)) == Some(c) && h.socks[c].state == SynRecv && FreshWindow(h.socks[c])
    ensures Replayed(h, Deliver(x, SynOf(t)), t)
  {
    FreshAccepts(h.socks[c], SynOf(t));
    Unexpected(h, x, SynOf(t), c);
    assert ResetOf(SynOf(t)) == Segment(Tuple(t.dip, t.sip, t.dport, t.sport), 0, 1, 0x14, 0, 0);
  }

  lemma ChildFound(h: Host, c: SockId, t: Tuple)
    requires HostOk(h) && IsChild(h, c, Mirror(t))
    ensures Lookup(h, SynOf(t)) == Some(c)
  {
    EstablishedFound(h, c);
  }
}
