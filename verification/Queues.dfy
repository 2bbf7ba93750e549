/** Listeners, their children and the two queues: what each call keeps on one
    host while no sock is closed. */
module Queues {
  import opened Base
  import opened Segments
  import opened Hosts
  import opened Tables

  /** A passively opened sock is in the established table and is either in the
      handshake or established. */
  ghost predicate ChildrenOk(h: Host) {
    forall i :: 0 <= i < |h.socks| && h.socks[i].parent.Some? ==>
      && h.socks[i].parent.value < i
      && (h.socks[i].state == SynRecv || h.socks[i].state == Established)
      && InEstablished(h, i)
  }

  predicate Waiting(h: Host, p: SockId, i: SockId) {
    i < |h.socks| && h.socks[i].state == SynRecv && h.socks[i].parent == Some(p)
  }

  predicate Ready(h: Host, p: SockId, i: SockId) {
    i < |h.socks| && h.socks[i].state == Established && h.socks[i].parent == Some(p)
  }

  predicate InQueue(h: Host, i: SockId)
    requires i < |h.socks|
  {
    h.socks[i].parent.Some? && i in ListOf(h, ListenQueue(h.socks[i].parent.value))
  }

  /** Exactly the SYN_RECV children of p wait in its listen queue; its accept
      queue holds established children of p. */
  ghost predicate QueuesOk(h: Host) {
    && (forall i :: 0 <= i < |h.socks| && h.socks[i].state == SynRecv ==> InQueue(h, i))
    && (forall p: SockId, i {:trigger i in ListOf(h, ListenQueue(p))} :: i in ListOf(h, ListenQueue(p)) ==> Waiting(h, p, i))
    && (forall p: SockId, i {:trigger i in ListOf(h, AcceptQueue(p))} :: i in ListOf(h, AcceptQueue(p)) ==> Ready(h, p, i))
  }

  ghost predicate BacklogsOk(h: Host) {
    forall p :: 0 <= p < |h.socks| ==> h.socks[p].acceptBacklog == |ListOf(h, AcceptQueue(p))|
  }

  ghost predicate HostOk(h: Host) {
    TablesOk(h) && ChildrenOk(h) && QueuesOk(h) && BacklogsOk(h)
  }

  /** Nobody has two children for one connection. */
  lemma ChildrenUnique(h: Host, i: SockId, j: SockId)
    requires HostOk(h) && i < |h.socks| && j < |h.socks|
    requires h.socks[i].parent.Some? && h.socks[j].parent.Some? && h.socks[i].tuple == h.socks[j].tuple
    ensures i == j
  {
  }

  /** A child in the handshake is queued once, with its listener, and nowhere else. */
  lemma ChildQueuedOnce(h: Host, i: SockId)
    requires HostOk(h) && i < |h.socks| && h.socks[i].state == SynRecv
    ensures h.socks[i].parent.Some?
    ensures multiset(ListOf(h, ListenQueue(h.socks[i].parent.value)))[i] == 1
    ensures forall p: SockId :: i in ListOf(h, ListenQueue(p)) ==> p == h.socks[i].parent.value
    ensures forall p: SockId :: i !in ListOf(h, AcceptQueue(p))
  {
    assert InQueue(h, i);
    OnceIfDistinct(ListOf(h, ListenQueue(h.socks[i].parent.value)), i);
  }

  lemma OnceIfDistinct<T>(q: seq<T>, x: T)
    requires Distinct(q) && x in q
    ensures multiset(q)[x] == 1
  {
    var k :| 0 <= k < |q| && q[k] == x;
    assert q == q[..k] + [x] + q[k + 1..];
    assert x !in q[..k] && x !in q[k + 1..];
  }

  // How a sock may change from one call to the next

  predicate StateLater(a: State, b: State) {
    || a == b
    || (a == Closed && (b == Listen || b == SynSent))
    || ((a == SynSent || a == SynRecv) && b == Established)
  }

  predicate Later(s: Sock, s': Sock) {
    s'.parent == s.parent && (s.state == Closed || s'.tuple == s.tuple) && StateLater(s.state, s'.state)
  }

  ghost predicate Extends(h: Host, h': Host) {
    |h.socks| <= |h'.socks| && forall i :: 0 <= i < |h.socks| ==> Later(h.socks[i], h'.socks[i])
  }

  // Calls that leave the queues alone

  /** The queue lists are as they were; socks keep parent and backlog, and only
      socks without parent move between states outside the handshake queue. */
  ghost predicate QueueNeutral(h: Host, h': Host) {
    && |h.socks| <= |h'.socks|
    && (forall p: SockId :: ListOf(h', ListenQueue(p)) == ListOf(h, ListenQueue(p)))
    && (forall p: SockId :: ListOf(h', AcceptQueue(p)) == ListOf(h, AcceptQueue(p)))
    && (forall i :: 0 <= i < |h.socks| ==> Steady(h.socks[i], h'.socks[i]))
    && (forall i :: |h.socks| <= i < |h'.socks| ==> h'.socks[i].parent.None? && h'.socks[i].state != SynRecv && h'.socks[i].acceptBacklog == 0)
    && (forall i: SockId :: InEstablished(h, i) ==> InEstablished(h', i))
  }

  predicate Steady(s: Sock, s': Sock) {
    && s'.parent == s.parent && s'.acceptBacklog == s.acceptBacklog
    && (s'.state == s.state || (s.parent.None? && s.state != SynRecv && s'.state != SynRecv))
  }

  lemma NeutralKeeps(h: Host, h': Host)
    requires HostOk(h) && TablesOk(h') && QueueNeutral(h, h')
    ensures HostOk(h')
  {
    assert QueuesOk(h') by { NeutralQueues(h, h'); }
    forall p | |h.socks| <= p < |h'.socks| ensures ListOf(h', AcceptQueue(p)) == [] {
      assert AcceptQueue(p) !in h.lists;
    }
  }

  lemma NeutralQueues(h: Host, h': Host)
    requires QueuesOk(h) && QueueNeutral(h, h')
    ensures QueuesOk(h')
  {
    forall p: SockId, i | i in ListOf(h', ListenQueue(p))
      ensures Waiting(h', p, i)
    {
      assert Waiting(h, p, i) && Steady(h.socks[i], h'.socks[i]);
    }
    forall p: SockId, i | i in ListOf(h', AcceptQueue(p))
      ensures Ready(h', p, i)
    {
      assert Ready(h, p, i) && Steady(h.socks[i], h'.socks[i]);
    }
    forall i | 0 <= i < |h'.socks| && h'.socks[i].state == SynRecv
      ensures InQueue(h', i)
    {
      assert i < |h.socks| ==> Steady(h.socks[i], h'.socks[i]) && (h.socks[i].state == SynRecv ==> InQueue(h, i));
    }
  }

  lemma AllocHost(h: Host)
    requires HostOk(h)
    ensures HostOk(Alloc(h)) && Extends(h, Alloc(h))
  {
    AllocKeeps(h);
    assert QueueNeutral(h, Alloc(h)) by { AllocNeutral(h); }
    NeutralKeeps(h, Alloc(h));
  }

  lemma AllocNeutral(h: Host)
    requires WellLinked(h)
    ensures QueueNeutral(h, Alloc(h))
  {
    assert ListenQueue(|h.socks|) !in h.lists && AcceptQueue(|h.socks|) !in h.lists;
    forall i: SockId | InEstablished(h, i) ensures InEstablished(Alloc(h), i) {
      AllocStanding(h, i);
    }
  }

  lemma UpdateNeutral(h: Host, id: SockId, s: Sock)
    requires id < |h.socks| && Steady(h.socks[id], s) && (s.tuple == h.socks[id].tuple || !InEstablished(h, id))
    ensures QueueNeutral(h, Update(h, id, s))
  {
    var h' := Update(h, id, s);
    assert forall g :: ListOf(h', g) == ListOf(h, g);
  }

  lemma EnteredNeutral(h: Host, k: ListId, id: SockId)
    requires id < |h.socks| && k.Bucket?
    ensures QueueNeutral(h, Entered(h, k, id))
  {
    EnteredMembers(h, k, id);
  }

  /** tcp_hash, whether or not it succeeds. */
  lemma HashHost(h: Host, id: SockId)
    requires HostOk(h) && id < |h.socks| && !Hashed(h, id) && !h.socks[id].released
    ensures HostOk(HashAnyway(h, id))
  {
    HashKeeps(h, id);
    EnteredNeutral(h, EstKey(h.socks[id].tuple), id);
    EnteredNeutral(h, ListenKey(h.socks[id].tuple.sport), id);
    if HashSock(h, id).Some? {
      NeutralKeeps(h, HashSock(h, id).value);
    }
  }

  lemma BindHashHost(h: Host, id: SockId)
    requires HostOk(h) && id < |h.socks| && !InBind(h, id) && !h.socks[id].released
    ensures HostOk(BindHash(h, id)) && (Hashed(BindHash(h, id), id) <==> Hashed(h, id))
  {
    BindHashKeeps(h, id);
    EnteredNeutral(h, BindKey(h.socks[id].tuple.sport), id);
    NeutralKeeps(h, BindHash(h, id));
  }

  /** A sock without parent, outside the hash tables, takes a new tuple and state. */
  lemma ReconfigureHost(h: Host, id: SockId, s: Sock)
    requires HostOk(h) && id < |h.socks| && !Hashed(h, id)
    requires Steady(h.socks[id], s) && s.refCnt == h.socks[id].refCnt && s.released == h.socks[id].released
    requires InBind(h, id) ==> s.tuple.sport == h.socks[id].tuple.sport
    ensures HostOk(Update(h, id, s)) && !Hashed(Update(h, id, s), id)
    ensures InBind(Update(h, id, s), id) <==> InBind(h, id)
  {
    ReconfigureKeeps(h, id, s);
    UpdateNeutral(h, id, s);
    NeutralKeeps(h, Update(h, id, s));
  }

  /** A sock the application has not opened yet. */
  predicate Idle(h: Host, id: SockId) {
    && id < |h.socks| && h.socks[id].state == Closed && h.socks[id].parent.None?
    && !h.socks[id].released && !Hashed(h, id)
  }

  lemma BindHost(h: Host, id: SockId, port: u16)
    requires HostOk(h) && Idle(h, id) && !InBind(h, id)
    ensures SetSport(h, id, port).Some? ==> HostOk(SetSport(h, id, port).value) && Extends(h, SetSport(h, id, port).value)
  {
    var p := ChoosePort(h, port);
    if p.Some? {
      var s := h.socks[id].(tuple := h.socks[id].tuple.(sport := p.value));
      ReconfigureHost(h, id, s);
      BindHashHost(Update(h, id, s), id);
    }
  }

  /** listen never fails on a sock that is not hashed yet. */
  lemma ListenHost(h: Host, id: SockId, backlog: int)
    requires HostOk(h) && Idle(h, id)
    ensures ListenOn(h, id, backlog).Some?
    ensures HostOk(ListenOn(h, id, backlog).value) && Extends(h, ListenOn(h, id, backlog).value)
  {
    var s := h.socks[id].(backlog := backlog, state := Listen);
    ReconfigureHost(h, id, s);
    HashHost(Update(h, id, s), id);
    ListenLater(h, id, backlog);
  }

  lemma ListenLater(h: Host, id: SockId, backlog: int)
    requires Idle(h, id)
    ensures ListenOn(h, id, backlog) == Some(HashAnyway(Update(h, id, h.socks[id].(backlog := backlog, state := Listen)), id))
    ensures Extends(h, ListenOn(h, id, backlog).value)
  {
  }

  lemma ConnectBinds(h: Host, id: SockId, t: Tuple)
    requires HostOk(h) && Idle(h, id) && !InBind(h, id)
    ensures var h1 := BindHash(Update(h, id, h.socks[id].(tuple := t)), id); HostOk(h1) && !Hashed(h1, id)
  {
    ReconfigureHost(h, id, h.socks[id].(tuple := t));
    BindHashHost(Update(h, id, h.socks[id].(tuple := t)), id);
  }

  lemma ConnectHashes(h1: Host, id: SockId)
    requires HostOk(h1) && id < |h1.socks| && !Hashed(h1, id)
    requires h1.socks[id].state == Closed && h1.socks[id].parent.None? && !h1.socks[id].released
    ensures var h' := HashAnyway(Update(h1, id, AfterControl(h1.socks[id], SYN).(state := SynSent)), id); HostOk(h')
  {
    var s1 := AfterControl(h1.socks[id], SYN).(state := SynSent);
    ReconfigureHost(h1, id, s1);
    HashHost(Update(h1, id, s1), id);
  }

  lemma ConnectHost(h: Host, id: SockId, t: Tuple)
    requires HostOk(h) && Idle(h, id) && !InBind(h, id)
    ensures HostOk(Connect(h, id, t)) && Extends(h, Connect(h, id, t))
    ensures Connect(h, id, t).socks[id].tuple == t && Connect(h, id, t).socks[id].state == SynSent
  {
    ConnectBinds(h, id, t);
    ConnectHashes(BindHash(Update(h, id, h.socks[id].(tuple := t)), id), id);
    ConnectLater(h, id, t);
  }

  lemma ConnectLater(h: Host, id: SockId, t: Tuple)
    requires Idle(h, id)
    ensures Extends(h, Connect(h, id, t))
    ensures Connect(h, id, t).socks[id].tuple == t && Connect(h, id, t).socks[id].state == SynSent
  {
  }

  /** Updates of the sequence variables alone. */
  lemma DataHost(h: Host, id: SockId, len: nat)
    requires HostOk(h) && id < |h.socks|
    ensures HostOk(Update(h, id, AfterData(h.socks[id], len))) && Extends(h, Update(h, id, AfterData(h.socks[id], len)))
  {
    UpdateKeeps(h, id, AfterData(h.socks[id], len));
    UpdateNeutral(h, id, AfterData(h.socks[id], len));
    NeutralKeeps(h, Update(h, id, AfterData(h.socks[id], len)));
  }

  /** An active opener completes the handshake. */
  lemma OpenedHost(h: Host, id: SockId)
    requires HostOk(h) && id < |h.socks| && h.socks[id].state == SynSent
    ensures var h' := Update(h, id, h.socks[id].(state := Established)); HostOk(h') && Extends(h, h')
  {
    var s := h.socks[id].(state := Established);
    UpdateKeeps(h, id, s);
    UpdateNeutral(h, id, s);
    NeutralKeeps(h, Update(h, id, s));
  }

  // The LISTEN branch

  lemma AppendedMembers(h: Host, k: ListId, id: SockId)
    ensures forall g, i :: i in ListOf(Append(h, k, id), g) <==> i in ListOf(h, g) || (g == k && i == id)
  {
  }

  /** Queueing a sock does not concern the tables. */
  lemma AppendQueueTables(h: Host, k: ListId, id: SockId)
    requires TablesOk(h) && k in h.lists && !k.Bucket? && id < |h.socks| && !LinkedBy(h, QueueList, id)
    ensures TablesOk(Append(h, k, id))
    ensures forall i: SockId :: SameTables(h, Append(h, k, id), i)
  {
    var h' := Append(h, k, id);
    PushKeepsLinks(h, k, id);
    AppendedMembers(h, k, id);
    forall i | 0 <= i < |h'.socks| ensures RefExact(h', i) {
      assert RefExact(h, i) && SameTables(h, h', i);
    }
    forall i: SockId ensures InEstablished(h', i) == InEstablished(h, i) {
      assert SameTables(h, h', i);
    }
  }

  /** The host as the LISTEN branch has it before tcp_hash. */
  function Offered(h: Host, listener: SockId, g: Segment): Host {
    var id := |h.socks|;
    var child := ChildSock(listener, g);
    var h1 := Append(Update(Alloc(h), id, child), ListenQueue(listener), id);
    Update(h1, id, AfterControl(child, SYN_ACK).(state := SynRecv))
  }

  lemma ChildAllocated(h: Host, child: Sock)
    requires TablesOk(h) && child.refCnt == 0 && !child.released
    ensures var h1 := Update(Alloc(h), |h.socks|, child);
      && TablesOk(h1) && !Hashed(h1, |h.socks|) && !InBind(h1, |h.socks|)
      && forall i: SockId :: i < |h.socks| ==> InEstablished(h1, i) == InEstablished(h, i)
  {
    AllocKeeps(h);
    ReconfigureKeeps(Alloc(h), |h.socks|, child);
    forall i: SockId | i < |h.socks| ensures InEstablished(Update(Alloc(h), |h.socks|, child), i) == InEstablished(h, i) {
      AllocStanding(h, i);
    }
  }

  lemma OfferedTables(h: Host, listener: SockId, g: Segment)
    requires TablesOk(h) && listener < |h.socks|
    ensures var h' := Offered(h, listener, g); TablesOk(h') && !Hashed(h', |h.socks|)
    ensures forall i: SockId :: i < |h.socks| ==> InEstablished(Offered(h, listener, g), i) == InEstablished(h, i)
  {
    var id, child := |h.socks|, ChildSock(listener, g);
    ChildAllocated(h, child);
    AllocWellLinked(h);
    var h1 := Update(Alloc(h), id, child);
    var h2 := Append(h1, ListenQueue(listener), id);
    AppendQueueTables(h1, ListenQueue(listener), id);
    assert SameTables(h1, h2, id);
    ReconfigureKeeps(h2, id, AfterControl(child, SYN_ACK).(state := SynRecv));
    forall i: SockId | i < |h.socks| ensures InEstablished(Offered(h, listener, g), i) == InEstablished(h, i) {
      assert SameTables(h1, h2, i);
    }
  }

  /** The child as the LISTEN branch leaves it. */
  function NewChild(listener: SockId, g: Segment): Sock {
    ChildSock(listener, g).(state := SynRecv, sndNxt := 1, refCnt := 1)
  }

  /** Where no established sock answers for the tuple, tcp_hash accepts the child. */
  lemma SpawnTables(h: Host, listener: SockId, g: Segment)
    requires TablesOk(h) && listener < |h.socks| && LookupEstablished(h, Mirror(g.from)).None?
    ensures HashSock(Offered(h, listener, g), |h.socks|).Some?
    ensures TablesOk(Spawn(h, listener, g))
    ensures forall i: SockId :: InEstablished(Spawn(h, listener, g), i) <==> InEstablished(h, i) || i == |h.socks|
  {
    var h', id, t := Offered(h, listener, g), |h.socks|, Mirror(g.from);
    OfferedTables(h, listener, g);
    FindTupleFinds(h, ListOf(h, EstKey(t)), t);
    assert TupleFree(h', t) by {
      forall i: SockId | InEstablished(h', i) ensures h'.socks[i].tuple != t {
        assert i < id && InEstablished(h, i);
      }
    }
    HashKeeps(h', id);
    EnteredStanding(h', EstKey(t), id);
  }

  lemma SpawnLists(h: Host, listener: SockId, g: Segment)
    requires ListenQueue(|h.socks|) !in h.lists && AcceptQueue(|h.socks|) !in h.lists
    requires listener < |h.socks| && HashSock(Offered(h, listener, g), |h.socks|).Some?
    ensures var h', id := Spawn(h, listener, g), |h.socks|;
      && h'.socks == h.socks + [NewChild(listener, g)]
      && (forall p: SockId :: ListOf(h', AcceptQueue(p)) == ListOf(h, AcceptQueue(p)))
      && (forall p: SockId :: ListOf(h', ListenQueue(p)) == if p == listener then ListOf(h, ListenQueue(p)) + [id] else ListOf(h, ListenQueue(p)))
  {
    var h2 := Offered(h, listener, g);
    assert Spawn(h, listener, g) == Entered(h2, EstKey(h2.socks[|h.socks|].tuple), |h.socks|);
  }

  lemma SpawnHost(h: Host, listener: SockId, g: Segment)
    requires HostOk(h) && listener < |h.socks| && LookupEstablished(h, Mirror(g.from)).None?
    ensures HashSock(Offered(h, listener, g), |h.socks|).Some?
    ensures HostOk(Spawn(h, listener, g)) && Extends(h, Spawn(h, listener, g))
    ensures Spawn(h, listener, g).socks == h.socks + [NewChild(listener, g)]
  {
    SpawnTables(h, listener, g);
    assert AcceptQueue(|h.socks|) !in h.lists && ListenQueue(|h.socks|) !in h.lists;
    SpawnLists(h, listener, g);
    SpawnQueues(h, Spawn(h, listener, g), listener, NewChild(listener, g));
  }

  lemma SpawnQueues(h: Host, h': Host, listener: SockId, child: Sock)
    requires ChildrenOk(h) && QueuesOk(h) && listener < |h.socks|
    requires child.parent == Some(listener) && child.state == SynRecv && h'.socks == h.socks + [child]
    requires forall i: SockId :: InEstablished(h', i) <==> InEstablished(h, i) || i == |h.socks|
    requires forall p: SockId :: ListOf(h', AcceptQueue(p)) == ListOf(h, AcceptQueue(p))
    requires forall p: SockId :: ListOf(h', ListenQueue(p)) == if p == listener then ListOf(h, ListenQueue(p)) + [|h.socks|] else ListOf(h, ListenQueue(p))
    requires BacklogsOk(h) && ListOf(h, AcceptQueue(|h.socks|)) == [] && child.acceptBacklog == 0
    ensures ChildrenOk(h') && QueuesOk(h') && BacklogsOk(h')
  {
    forall p: SockId, i | i in ListOf(h', ListenQueue(p))
      ensures Waiting(h', p, i)
    {
      assert i == |h.socks| || Waiting(h, p, i);
    }
    forall p: SockId, i | i in ListOf(h', AcceptQueue(p))
      ensures Ready(h', p, i)
    {
      assert Ready(h, p, i);
    }
    forall i | 0 <= i < |h'.socks| && h'.socks[i].state == SynRecv
      ensures InQueue(h', i)
    {
      assert i < |h.socks| ==> h'.socks[i] == h.socks[i] && InQueue(h, i);
    }
  }

  // The SYN_RECV branch and accept

  lemma UnlinkQueueTables(h: Host, id: SockId)
    requires TablesOk(h)
    ensures TablesOk(Unlink(h, QueueList, id)) && !LinkedBy(Unlink(h, QueueList, id), QueueList, id)
    ensures forall i: SockId :: SameTables(h, Unlink(h, QueueList, id), i)
  {
    var h' := Unlink(h, QueueList, id);
    UnlinkKeepsLinks(h, QueueList, id);
    assert forall k: ListId :: k.Bucket? ==> ListOf(h', k) == ListOf(h, k);
    forall i | 0 <= i < |h'.socks| ensures RefExact(h', i) {
      assert RefExact(h, i) && SameTables(h, h', i);
    }
    forall i: SockId ensures InEstablished(h', i) == InEstablished(h, i) {
      assert SameTables(h, h', i);
    }
    assert Placed(h');
  }

  /** The host after the final ACK of a child's handshake. */
  function Acked(h: Host, id: SockId): Host
    requires id < |h.socks| && h.socks[id].parent.Some? && h.socks[id].parent.value < |h.socks|
  {
    var h1 := AcceptEnqueue(h, id);
    Update(h1, id, h1.socks[id].(state := Established))
  }

  lemma UnlinkedQueue(h: Host, id: SockId, k: ListId)
    requires MemberOf(k) == QueueList
    ensures ListOf(Unlink(h, QueueList, id), k) == Without(ListOf(h, k), id)
    ensures id !in ListOf(h, k) ==> ListOf(Unlink(h, QueueList, id), k) == ListOf(h, k)
  {
    if id !in ListOf(h, k) {
      WithoutAbsent(ListOf(h, k), id);
    }
  }

  lemma RequeuedTables(h: Host, id: SockId, k: ListId)
    requires TablesOk(h) && id < |h.socks| && k in h.lists && !k.Bucket?
    ensures var h' := Append(Unlink(h, QueueList, id), k, id);
      TablesOk(h') && forall i: SockId :: InEstablished(h', i) == InEstablished(h, i)
  {
    var h0 := Unlink(h, QueueList, id);
    UnlinkQueueTables(h, id);
    AppendQueueTables(h0, k, id);
    forall i: SockId ensures InEstablished(Append(h0, k, id), i) == InEstablished(h, i) {
      assert SameTables(h, h0, i) && SameTables(h0, Append(h0, k, id), i);
    }
  }

  lemma AckedTables(h: Host, id: SockId)
    requires TablesOk(h) && id < |h.socks| && h.socks[id].state == SynRecv
    requires h.socks[id].parent.Some? && h.socks[id].parent.value < id
    ensures TablesOk(Acked(h, id))
    ensures forall i: SockId :: InEstablished(Acked(h, id), i) == InEstablished(h, i)
  {
    var p := h.socks[id].parent.value;
    var h1 := Append(Unlink(h, QueueList, id), AcceptQueue(p), id);
    RequeuedTables(h, id, AcceptQueue(p));
    RetouchKeeps(h1, Acked(h, id));
  }

  /** The same lists over socks whose keys have not changed. */
  lemma RetouchKeeps(h: Host, h': Host)
    requires TablesOk(h) && h'.lists == h.lists && |h'.socks| == |h.socks|
    requires forall i :: 0 <= i < |h.socks| ==> SameKeys(h.socks[i], h'.socks[i])
    ensures TablesOk(h')
    ensures forall i: SockId :: InEstablished(h', i) == InEstablished(h, i)
  {
    RetouchPlaced(h, h');
    forall i: SockId ensures SameTables(h, h', i) {
      RetouchStanding(h, h', i);
    }
    forall i | 0 <= i < |h'.socks| ensures RefExact(h', i) {
      assert RefExact(h, i) && SameTables(h, h', i);
    }
    forall i: SockId ensures InEstablished(h', i) == InEstablished(h, i) {
      assert SameTables(h, h', i);
    }
  }

  lemma RetouchPlaced(h: Host, h': Host)
    requires WellLinked(h) && Placed(h) && h'.lists == h.lists && |h'.socks| == |h.socks|
    requires forall i :: 0 <= i < |h.socks| ==> SameKeys(h.socks[i], h'.socks[i])
    ensures WellLinked(h') && Placed(h')
  {
  }

  lemma RetouchStanding(h: Host, h': Host, i: SockId)
    requires h'.lists == h.lists && |h'.socks| == |h.socks|
    requires i < |h.socks| ==> SameKeys(h.socks[i], h'.socks[i])
    ensures SameTables(h, h', i)
  {
  }

  /** The child leaves the listen queue for the end of the accept queue. */
  lemma AckedLists(h: Host, id: SockId)
    requires id < |h.socks| && h.socks[id].parent.Some? && h.socks[id].parent.value < id
    requires forall q: SockId :: id !in ListOf(h, AcceptQueue(q))
    ensures var h', p := Acked(h, id), h.socks[id].parent.value;
      && h'.socks == h.socks[p := h.socks[p].(acceptBacklog := h.socks[p].acceptBacklog + 1)][id := h.socks[id].(state := Established)]
      && (forall q: SockId :: ListOf(h', ListenQueue(q)) == Without(ListOf(h, ListenQueue(q)), id))
      && (forall q: SockId :: ListOf(h', AcceptQueue(q)) == if q == p then ListOf(h, AcceptQueue(q)) + [id] else ListOf(h, AcceptQueue(q)))
  {
    var h', p := Acked(h, id), h.socks[id].parent.value;
    forall q: SockId
      ensures ListOf(h', ListenQueue(q)) == Without(ListOf(h, ListenQueue(q)), id)
      ensures ListOf(h', AcceptQueue(q)) == if q == p then ListOf(h, AcceptQueue(q)) + [id] else ListOf(h, AcceptQueue(q))
    {
      UnlinkedQueue(h, id, ListenQueue(q));
      UnlinkedQueue(h, id, AcceptQueue(q));
    }
  }

  lemma AckedMembers(h: Host, h': Host, id: SockId)
    requires WellLinked(h) && forall q: SockId :: ListOf(h', ListenQueue(q)) == Without(ListOf(h, ListenQueue(q)), id)
    ensures forall q: SockId, i {:trigger i in ListOf(h', ListenQueue(q))} ::
      i in ListOf(h', ListenQueue(q)) <==> i in ListOf(h, ListenQueue(q)) && i != id
  {
    forall q: SockId, i ensures i in ListOf(h', ListenQueue(q)) <==> i in ListOf(h, ListenQueue(q)) && i != id {
      assert ListenQueue(q) in h.lists || ListOf(h, ListenQueue(q)) == [];
      WithoutKeeps(ListOf(h, ListenQueue(q)), id);
    }
  }

  lemma AckedExtends(h: Host, id: SockId)
    requires id < |h.socks| && h.socks[id].state == SynRecv && h.socks[id].parent.Some? && h.socks[id].parent.value < id
    ensures Extends(h, Acked(h, id))
  {
  }

  lemma AckedHost(h: Host, id: SockId)
    requires HostOk(h) && id < |h.socks| && h.socks[id].state == SynRecv
    ensures h.socks[id].parent.Some? && h.socks[id].parent.value < id
    ensures HostOk(Acked(h, id)) && Extends(h, Acked(h, id))
  {
    assert forall q: SockId :: id !in ListOf(h, AcceptQueue(q));
    AckedLists(h, id);
    AckedExtends(h, id);
    assert BacklogsOk(Acked(h, id));
    assert ChildrenOk(Acked(h, id)) && QueuesOk(Acked(h, id)) by {
      assert forall i: SockId :: InEstablished(Acked(h, id), i) == InEstablished(h, i) by { AckedTables(h, id); }
      AckedMembers(h, Acked(h, id), id);
      AckedQueues(h, Acked(h, id), id);
    }
    AckedTables(h, id);
  }

  lemma AckedQueues(h: Host, h': Host, id: SockId)
    requires ChildrenOk(h) && QueuesOk(h) && id < |h.socks| && h.socks[id].state == SynRecv
    requires h.socks[id].parent.Some? && h.socks[id].parent.value < id
    requires var p := h.socks[id].parent.value;
      && h'.socks == h.socks[p := h.socks[p].(acceptBacklog := h.socks[p].acceptBacklog + 1)][id := h.socks[id].(state := Established)]
      && (forall q: SockId :: ListOf(h', AcceptQueue(q)) == if q == p then ListOf(h, AcceptQueue(q)) + [id] else ListOf(h, AcceptQueue(q)))
    requires forall q: SockId, i {:trigger i in ListOf(h', ListenQueue(q))} ::
      i in ListOf(h', ListenQueue(q)) <==> i in ListOf(h, ListenQueue(q)) && i != id
    requires forall i: SockId :: InEstablished(h', i) == InEstablished(h, i)
    ensures ChildrenOk(h') && QueuesOk(h')
  {
    forall q: SockId, i | i in ListOf(h', ListenQueue(q))
      ensures Waiting(h', q, i)
    {
      assert Waiting(h, q, i);
    }
    forall q: SockId, i | i in ListOf(h', AcceptQueue(q))
      ensures Ready(h', q, i)
    {
      assert i == id || Ready(h, q, i);
    }
    forall i | 0 <= i < |h'.socks| && h'.socks[i].state == SynRecv
      ensures InQueue(h', i)
    {
      assert i != id && InQueue(h, i);
    }
  }

  lemma DequeuedTables(h: Host, listener: SockId)
    requires TablesOk(h) && listener < |h.socks| && ListOf(h, AcceptQueue(listener)) != []
    ensures TablesOk(AcceptDequeue(h, listener))
    ensures forall i: SockId :: InEstablished(AcceptDequeue(h, listener), i) == InEstablished(h, i)
  {
    var h0 := Unlink(h, QueueList, ListOf(h, AcceptQueue(listener))[0]);
    UnlinkQueueTables(h, ListOf(h, AcceptQueue(listener))[0]);
    var s := h0.socks[listener].(acceptBacklog := h0.socks[listener].acceptBacklog - 1);
    UpdateKeeps(h0, listener, s);
    assert AcceptDequeue(h, listener) == Update(h0, listener, s);
    forall i: SockId ensures InEstablished(Update(h0, listener, s), i) == InEstablished(h, i) {
      assert SameTables(h, h0, i);
    }
  }

  lemma DequeuedHost(h: Host, listener: SockId)
    requires HostOk(h) && listener < |h.socks| && ListOf(h, AcceptQueue(listener)) != []
    ensures var h', q := AcceptDequeue(h, listener), ListOf(h, AcceptQueue(listener));
      && HostOk(h') && Extends(h, h')
      && (forall p: SockId :: ListOf(h', AcceptQueue(p)) == if p == listener then q[1..] else ListOf(h, AcceptQueue(p)))
  {
    DequeuedTables(h, listener);
    FrontQueuedOnce(h, listener);
    DequeuedLists(h, listener);
    DequeuedQueues(h, AcceptDequeue(h, listener), listener);
  }

  /** The front of an accept queue is in no other queue. */
  lemma FrontQueuedOnce(h: Host, listener: SockId)
    requires WellLinked(h) && QueuesOk(h) && ListOf(h, AcceptQueue(listener)) != []
    ensures Distinct(ListOf(h, AcceptQueue(listener)))
    ensures forall p: SockId :: ListOf(h, AcceptQueue(listener))[0] !in ListOf(h, ListenQueue(p))
    ensures forall p: SockId :: p != listener ==> ListOf(h, AcceptQueue(listener))[0] !in ListOf(h, AcceptQueue(p))
  {
    assert ListOf(h, AcceptQueue(listener))[0] in ListOf(h, AcceptQueue(listener));
  }

  /** Only the front of this one queue goes. */
  lemma DequeuedLists(h: Host, listener: SockId)
    requires listener < |h.socks| && ListOf(h, AcceptQueue(listener)) != [] && Distinct(ListOf(h, AcceptQueue(listener)))
    requires forall p: SockId :: ListOf(h, AcceptQueue(listener))[0] !in ListOf(h, ListenQueue(p))
    requires forall p: SockId :: p != listener ==> ListOf(h, AcceptQueue(listener))[0] !in ListOf(h, AcceptQueue(p))
    ensures var h', q := AcceptDequeue(h, listener), ListOf(h, AcceptQueue(listener));
      && (forall p: SockId :: ListOf(h', ListenQueue(p)) == ListOf(h, ListenQueue(p)))
      && (forall p: SockId :: ListOf(h', AcceptQueue(p)) == if p == listener then q[1..] else ListOf(h, AcceptQueue(p)))
  {
    var h', q := AcceptDequeue(h, listener), ListOf(h, AcceptQueue(listener));
    WithoutAt(q, 0);
    forall p: SockId
      ensures ListOf(h', ListenQueue(p)) == ListOf(h, ListenQueue(p))
      ensures ListOf(h', AcceptQueue(p)) == if p == listener then q[1..] else ListOf(h, AcceptQueue(p))
    {
      UnlinkedQueue(h, q[0], ListenQueue(p));
      UnlinkedQueue(h, q[0], AcceptQueue(p));
    }
  }

  lemma DequeuedQueues(h: Host, h': Host, listener: SockId)
    requires ChildrenOk(h) && QueuesOk(h) && BacklogsOk(h) && listener < |h.socks| && ListOf(h, AcceptQueue(listener)) != []
    requires h'.socks == h.socks[listener := h.socks[listener].(acceptBacklog := h.socks[listener].acceptBacklog - 1)]
    requires forall p: SockId :: ListOf(h', ListenQueue(p)) == ListOf(h, ListenQueue(p))
    requires forall p: SockId :: ListOf(h', AcceptQueue(p)) == if p == listener then ListOf(h, AcceptQueue(p))[1..] else ListOf(h, AcceptQueue(p))
    requires forall i: SockId :: InEstablished(h', i) == InEstablished(h, i)
    ensures ChildrenOk(h') && QueuesOk(h') && BacklogsOk(h')
  {
    forall q: SockId, i | i in ListOf(h', ListenQueue(q))
      ensures Waiting(h', q, i)
    {
      assert Waiting(h, q, i);
    }
    forall q: SockId, i | i in ListOf(h', AcceptQueue(q))
      ensures Ready(h', q, i)
    {
      assert q == listener ==> ListOf(h', AcceptQueue(q)) == ListOf(h, AcceptQueue(q))[1..];
      assert i in ListOf(h, AcceptQueue(q));
    }
    forall i | 0 <= i < |h'.socks| && h'.socks[i].state == SynRecv
      ensures InQueue(h', i)
    {
      assert InQueue(h, i);
    }
  }
}
