/** The stack as it lives on the heap: socks with embedded list nodes, three
    tables of list heads, and the calls of tcp_sock.c and tcp_in.c that change
    them in place. Each call is proved to do what its function on Host says. */
module TcpStack {
  import opened Base
  import opened SeqSpace
  import opened Segments
  import opened TcpHash
  import opened Hosts
  import opened Tables
  import opened ListHeads
  import opened Layout

  /** struct tcp_sock */
  class TcpSock {
    const id: SockId
    const hashList: ListHead
    const bindHashList: ListHead
    const list: ListHead
    const listenQueue: ListHead
    const acceptQueue: ListHead
    var sip: u32
    var sport: u16
    var dip: u32
    var dport: u16
    var parent: Option<SockId>
    var refCnt: int
    var released: bool
    var backlog: int
    var acceptBacklog: int
    var state: State
    var sndNxt: u32
    var sndWnd: u32
    var rcvNxt: u32
    var rcvWnd: u16

    function Val(): Sock
      reads this
    {
      Sock(Tuple(sip, dip, sport, dport), parent, refCnt, released, backlog, acceptBacklog, state, sndNxt, sndWnd, rcvNxt, rcvWnd)
    }

    function Node(m: Member): ListHead {
      match m
      case HashList => hashList
      case BindHashList => bindHashList
      case QueueList => list
    }

    /** Each embedded list_head stands where its name says. */
    ghost predicate Placed() {
      && (forall m :: Node(m).place == Place.Node(m, id))
      && listenQueue.place == Head(ListenQueue(id))
      && acceptQueue.place == Head(AcceptQueue(id))
    }

    /** tcp_sock_inc_ref_cnt */
    method Hold()
      modifies this
      ensures Val() == old(Val()).(refCnt := old(Val()).refCnt + 1)
    {
      refCnt := refCnt + 1;
    }

    method SetState(state: State)
      modifies this
      ensures Val() == old(Val()).(state := state)
    {
      this.state := state;
    }

    method SetListen(backlog: int)
      modifies this
      ensures Val() == old(Val()).(backlog := backlog, state := Listen)
    {
      this.backlog := backlog;
      state := Listen;
    }

    method SetPort(port: u16)
      modifies this
      ensures Val() == old(Val()).(tuple := old(Val()).tuple.(sport := port))
    {
      sport := port;
    }

    method SetTuple(t: Tuple)
      modifies this
      ensures Val() == old(Val()).(tuple := t)
    {
      sip, dip, sport, dport := t.sip, t.dip, t.sport, t.dport;
    }

    method SetParent(p: SockId)
      modifies this
      ensures Val() == old(Val()).(parent := Some(p))
    {
      parent := Some(p);
    }

    method Count(d: int)
      modifies this
      ensures Val() == old(Val()).(acceptBacklog := old(Val()).acceptBacklog + d)
    {
      acceptBacklog := acceptBacklog + d;
    }

    /** tcp_send_control_packet's effect on the sock and the segment it emits. */
    method SendControl(flags: byte) returns (g: Segment)
      modifies this
      ensures Val() == AfterControl(old(Val()), flags) && g == ControlSegment(old(Val()), flags)
      ensures sndNxt == if Bit(flags, 0) == 1 || Bit(flags, 1) == 1 then (old(sndNxt) + 1) % TWO32 else old(sndNxt)
      ensures SeqEnd(g) == sndNxt
    {
      TakesNumberBits(flags);
      g := Segment(Tuple(sip, dip, sport, dport), sndNxt, rcvNxt, flags, rcvWnd, 0);
      if TakesNumber(flags) {
        sndNxt := (sndNxt + 1) % TWO32;
      }
    }

    /** tcp_send_packet with len bytes of data. */
    method SendData(len: nat) returns (g: Segment)
      modifies this
      ensures Val() == AfterData(old(Val()), len) && g == DataSegment(old(Val()), len)
    {
      g := Segment(Tuple(sip, dip, sport, dport), sndNxt, rcvNxt, PSH_ACK, rcvWnd, len);
      sndNxt := (sndNxt + len) % TWO32;
      sndWnd := (sndWnd - len) % TWO32;
    }

    /** free_tcp_sock; a released sock is only marked. */
    method Drop()
      modifies this
      ensures Val() == Dropped(old(Val()))
    {
      refCnt := refCnt - 1;
      if refCnt <= 0 {
        released := true;
      }
    }

    constructor (id: SockId)
      ensures this.id == id && Placed() && Val() == EmptySock
      ensures sip == 0 && sport == 0 && dip == 0 && dport == 0 && parent == None && refCnt == 0 && !released
      ensures backlog == 0 && acceptBacklog == 0 && state == Closed && sndNxt == 0 && sndWnd == 0 && rcvNxt == 0 && rcvWnd == 65535
      ensures fresh(hashList) && fresh(bindHashList) && fresh(list) && fresh(listenQueue) && fresh(acceptQueue)
      ensures list.next == list && listenQueue.next == listenQueue && listenQueue.prev == listenQueue
      ensures acceptQueue.next == acceptQueue && acceptQueue.prev == acceptQueue
    {
      this.id := id;
      hashList := new ListHead(Place.Node(HashList, id));
      bindHashList := new ListHead(Place.Node(BindHashList, id));
      list := new ListHead(Place.Node(QueueList, id));
      listenQueue := new ListHead(Head(ListenQueue(id)));
      acceptQueue := new ListHead(Head(AcceptQueue(id)));
      sip, sport, dip, dport := 0, 0, 0, 0;
      parent, refCnt, released, backlog, acceptBacklog := None, 0, false, 0, 0;
      state, sndNxt, sndWnd, rcvNxt, rcvWnd := Closed, 0, 0, 0, TCP_DEFAULT_WINDOW;
      new;
      InitListHead(list);
      InitListHead(listenQueue);
      InitListHead(acceptQueue);
    }
  }

  lemma SameListsLinked(h: Host, h': Host, id: SockId)
    requires h'.lists == h.lists
    ensures forall m: Member :: LinkedBy(h', m, id) == LinkedBy(h, m, id)
  {
  }

  /** Entering the bind table links no other member. */
  lemma BindAside(h: Host, id: SockId)
    requires id < |h.socks|
    ensures LinkedBy(BindHash(h, id), HashList, id) == LinkedBy(h, HashList, id)
  {
    if LinkedBy(h, HashList, id) {
      var k :| k in h.lists && MemberOf(k) == HashList && id in h.lists[k];
      assert k in BindHash(h, id).lists && BindHash(h, id).lists[k] == h.lists[k];
    }
  }

  /** Joining a queue links no other member. */
  lemma QueueAside(h: Host, k: ListId, id: SockId)
    requires MemberOf(k) == QueueList
    ensures forall m: Member :: m != QueueList ==> LinkedBy(Append(h, k, id), m, id) == LinkedBy(h, m, id)
  {
    forall m: Member | m != QueueList ensures LinkedBy(Append(h, k, id), m, id) == LinkedBy(h, m, id) {
      if LinkedBy(h, m, id) {
        var g :| g in h.lists && MemberOf(g) == m && id in h.lists[g];
        assert g in Append(h, k, id).lists && Append(h, k, id).lists[g] == h.lists[g];
      }
    }
  }

  lemma RealisedLaid(h: Host, at: Cells)
    requires Realised(h, at)
    ensures Laid(at, |h.socks|)
  {
    RealisedIsLinkage(h, at);
  }

  /** A new child is in no list, and joining a queue links no other member. */
  lemma ChildUnlinked(h: Host, at: Cells, listener: SockId, g: Segment)
    requires Realised(h, at)
    ensures var h1 := Update(Alloc(h), |h.socks|, ChildSock(listener, g));
      && (forall m: Member :: !LinkedBy(h1, m, |h.socks|))
      && !LinkedBy(Append(h1, ListenQueue(listener), |h.socks|), HashList, |h.socks|)
  {
    RealisedIsLinkage(h, at);
    AllocWellLinked(h);
    var h1 := Update(Alloc(h), |h.socks|, ChildSock(listener, g));
    SameListsLinked(Alloc(h), h1, |h.socks|);
    QueueAside(h1, ListenQueue(listener), |h.socks|);
  }

  lemma UpdateSame(h: Host, id: SockId)
    requires id < |h.socks|
    ensures Update(h, id, AfterControl(h.socks[id], ACK)) == h
  {
  }

  /** The LISTEN branch, up to its queue and from there on */
  lemma SpawnIsAnnounced(h: Host, listener: SockId, g: Segment)
    ensures var n, child := |h.socks|, ChildSock(listener, g);
      var h1 := Append(Update(Alloc(h), n, child), ListenQueue(listener), n);
      h1.socks[n] == child && Spawn(h, listener, g) == HashAnyway(Update(h1, n, AfterControl(child, SYN_ACK).(state := SynRecv)), n)
  {
  }

  function HeadAmong(socks: seq<TcpSock>, established: seq<ListHead>, listening: seq<ListHead>, bound: seq<ListHead>, k: ListId): ListHead
    requires TablesSized(established, listening, bound) && ProperList(k, |socks|)
  {
    match k
    case Bucket(EstablishedTable, i) => established[i]
    case Bucket(ListenTable, i) => listening[i]
    case Bucket(BindTable, i) => bound[i]
    case ListenQueue(s) => socks[s].listenQueue
    case AcceptQueue(s) => socks[s].acceptQueue
  }

  predicate TablesSized(e: seq<ListHead>, l: seq<ListHead>, b: seq<ListHead>) {
    |e| == |l| == |b| == TCP_HASH_SIZE
  }

  /** The list_heads of this sock are the cells of its places. */
  ghost predicate SockWired(t: TcpSock, at: Cells) {
    && (forall m :: Place.Node(m, t.id) in at && t.Node(m) == at[Place.Node(m, t.id)])
    && Head(ListenQueue(t.id)) in at && t.listenQueue == at[Head(ListenQueue(t.id))]
    && Head(AcceptQueue(t.id)) in at && t.acceptQueue == at[Head(AcceptQueue(t.id))]
  }

  /** The heads of the tables, and the list_heads of the first n socks, are the
      cells of their places. */
  ghost predicate Wired(socks: seq<TcpSock>, e: seq<ListHead>, l: seq<ListHead>, b: seq<ListHead>, at: Cells, n: nat)
    requires TablesSized(e, l, b) && n <= |socks|
    decreases n
  {
    if n == 0 then
      && (forall p :: ProperPlace(p, 0) ==> p in at)
      && (forall i :: 0 <= i < TCP_HASH_SIZE ==>
            && e[i] == at[Head(Bucket(EstablishedTable, i))]
            && l[i] == at[Head(Bucket(ListenTable, i))]
            && b[i] == at[Head(Bucket(BindTable, i))])
    else
      Wired(socks, e, l, b, at, n - 1) && socks[n - 1].id == n - 1 && SockWired(socks[n - 1], at)
  }

  lemma {:induction false} WiredSock(socks: seq<TcpSock>, e: seq<ListHead>, l: seq<ListHead>, b: seq<ListHead>, at: Cells, n: nat, i: nat)
    requires TablesSized(e, l, b) && n <= |socks| && Wired(socks, e, l, b, at, n) && i < n
    ensures socks[i].id == i && SockWired(socks[i], at)
    decreases n
  {
    if i < n - 1 {
      WiredSock(socks, e, l, b, at, n - 1, i);
    }
  }

  lemma {:induction false} WiredTables(socks: seq<TcpSock>, e: seq<ListHead>, l: seq<ListHead>, b: seq<ListHead>, at: Cells, n: nat)
    requires TablesSized(e, l, b) && n <= |socks| && Wired(socks, e, l, b, at, n)
    ensures Wired(socks, e, l, b, at, 0)
    decreases n
  {
    if n > 0 {
      WiredTables(socks, e, l, b, at, n - 1);
    }
  }

  /** HeadAmong finds the cell of the list's head. */
  lemma WiredHead(socks: seq<TcpSock>, e: seq<ListHead>, l: seq<ListHead>, b: seq<ListHead>, at: Cells, k: ListId)
    requires TablesSized(e, l, b) && Wired(socks, e, l, b, at, |socks|) && ProperList(k, |socks|)
    ensures Head(k) in at && HeadAmong(socks, e, l, b, k) == at[Head(k)]
  {
    match k
    case Bucket(t, i) =>
      WiredTables(socks, e, l, b, at, |socks|);
      assert ProperPlace(Head(k), 0);
    case ListenQueue(i) => WiredSock(socks, e, l, b, at, |socks|, i);
    case AcceptQueue(i) => WiredSock(socks, e, l, b, at, |socks|, i);
  }

  lemma {:induction false} WiredExtended(socks: seq<TcpSock>, e: seq<ListHead>, l: seq<ListHead>, b: seq<ListHead>, at: Cells,
                                         socks': seq<TcpSock>, at': Cells, n: nat)
    requires TablesSized(e, l, b) && n <= |socks| && Wired(socks, e, l, b, at, n)
    requires socks <= socks' && Extended(at, at')
    ensures Wired(socks', e, l, b, at', n)
    decreases n
  {
    if n > 0 {
      WiredExtended(socks, e, l, b, at, socks', at', n - 1);
    } else {
      forall i | 0 <= i < TCP_HASH_SIZE
        ensures e[i] == at'[Head(Bucket(EstablishedTable, i))] && l[i] == at'[Head(Bucket(ListenTable, i))] && b[i] == at'[Head(Bucket(BindTable, i))]
      {
        assert ProperPlace(Head(Bucket(EstablishedTable, i)), 0) && ProperPlace(Head(Bucket(ListenTable, i)), 0) && ProperPlace(Head(Bucket(BindTable, i)), 0);
      }
    }
  }

  /** The cells once sock t has joined. */
  ghost function Joined(at: Cells, t: TcpSock): Cells {
    at[Place.Node(HashList, t.id) := t.hashList][Place.Node(BindHashList, t.id) := t.bindHashList]
      [Place.Node(QueueList, t.id) := t.list][Head(ListenQueue(t.id)) := t.listenQueue][Head(AcceptQueue(t.id)) := t.acceptQueue]
  }

  lemma JoinedLaid(at: Cells, t: TcpSock)
    requires Laid(at, t.id) && t.Placed()
    ensures Laid(Joined(at, t), t.id + 1) && Extended(at, Joined(at, t))
    ensures forall m :: Joined(at, t)[Place.Node(m, t.id)] == t.Node(m)
  {
    var at', n := Joined(at, t), t.id;
    forall p | ProperPlace(p, n + 1) ensures p in at' {
      assert ProperPlace(p, n) || p == Head(ListenQueue(n)) || p == Head(AcceptQueue(n)) || (p.Node? && p.sock == n);
      if p.Node? && p.sock == n {
        match p.member
        case HashList =>
        case BindHashList =>
        case QueueList =>
      }
    }
    assert t.Node(HashList).place == Place.Node(HashList, n) && t.Node(BindHashList).place == Place.Node(BindHashList, n)
        && t.Node(QueueList).place == Place.Node(QueueList, n);
  }

  lemma WiredJoined(socks: seq<TcpSock>, e: seq<ListHead>, l: seq<ListHead>, b: seq<ListHead>, at: Cells, t: TcpSock)
    requires TablesSized(e, l, b) && Wired(socks, e, l, b, at, |socks|) && Laid(at, |socks|) && t.id == |socks| && t.Placed()
    ensures Wired(socks + [t], e, l, b, Joined(at, t), |socks| + 1)
  {
    JoinedLaid(at, t);
    WiredExtended(socks, e, l, b, at, socks + [t], Joined(at, t), |socks|);
  }

  lemma JoinedWired(socks: seq<TcpSock>, e: seq<ListHead>, l: seq<ListHead>, b: seq<ListHead>, h: Host, at: Cells, t: TcpSock)
    requires TablesSized(e, l, b) && Wired(socks, e, l, b, at, |socks|) && Realised(h, at) && |h.socks| == |socks|
    requires t.id == |socks| && t.Placed()
    ensures Wired(socks + [t], e, l, b, Joined(at, t), |socks| + 1)
  {
    RealisedLaid(h, at);
    WiredJoined(socks, e, l, b, at, t);
  }

  lemma JoinedRealised(h: Host, at: Cells, t: TcpSock)
    requires Realised(h, at) && t.id == |h.socks| && t.Placed()
    requires t.list.next == t.list && t.listenQueue.next == t.listenQueue.prev == t.listenQueue
    requires t.acceptQueue.next == t.acceptQueue.prev == t.acceptQueue
    ensures Realised(Alloc(h), Joined(at, t))
  {
    RealisedLaid(h, at);
    JoinedLaid(at, t);
    assert t.Node(QueueList) == t.list;
    GrowLinks(h, at, Joined(at, t));
  }

  /** Every cell of Joined is old or belongs to t. */
  lemma JoinedValues(at: Cells, t: TcpSock)
    ensures Joined(at, t).Values <= at.Values + {t.hashList, t.bindHashList, t.list, t.listenQueue, t.acceptQueue}
  {
  }

  // The empty tables

  /** One table of 256 empty lists */
  method InitTable(t: Table) returns (heads: seq<ListHead>)
    ensures |heads| == TCP_HASH_SIZE
    ensures fresh(heads)
    ensures forall i :: 0 <= i < TCP_HASH_SIZE ==> EmptyBucket(heads[i], Bucket(t, i))
  {
    heads := [];
    for i := 0 to TCP_HASH_SIZE
      invariant |heads| == i && fresh(heads)
      invariant forall j :: 0 <= j < i ==> EmptyBucket(heads[j], Bucket(t, j))
    {
      var head := new ListHead(Head(Bucket(t, i)));
      InitListHead(head);
      heads := heads + [head];
    }
  }

  ghost predicate EmptyBucket(c: ListHead, k: ListId)
    reads c
  {
    c.place == Head(k) && c.next == c && c.prev == c
  }

  ghost predicate EmptyTables(e: seq<ListHead>, l: seq<ListHead>, b: seq<ListHead>)
    reads e, l, b
  {
    && TablesSized(e, l, b)
    && forall i :: 0 <= i < TCP_HASH_SIZE ==>
         EmptyBucket(e[i], Bucket(EstablishedTable, i)) && EmptyBucket(l[i], Bucket(ListenTable, i)) && EmptyBucket(b[i], Bucket(BindTable, i))
  }

  method InitTables() returns (e: seq<ListHead>, l: seq<ListHead>, b: seq<ListHead>)
    ensures EmptyTables(e, l, b) && fresh(e) && fresh(l) && fresh(b)
  {
    e := InitTable(EstablishedTable);
    l := InitTable(ListenTable);
    b := InitTable(BindTable);
  }

  ghost function EmptyCells(e: seq<ListHead>, l: seq<ListHead>, b: seq<ListHead>): Cells
    requires TablesSized(e, l, b)
  {
    map k | k in EmptyHost.lists.Keys && ProperList(k, 0) :: Head(k) := HeadAmong([], e, l, b, k)
  }

  lemma EmptyLaid(e: seq<ListHead>, l: seq<ListHead>, b: seq<ListHead>)
    requires EmptyTables(e, l, b)
    ensures Laid(EmptyCells(e, l, b), 0)
    ensures forall k :: ProperList(k, 0) ==> EmptyCells(e, l, b)[Head(k)] == HeadAmong([], e, l, b, k)
    ensures forall c :: c in EmptyCells(e, l, b).Values ==> c.next == c && c.prev == c
  {
    EmptyWellLinked();
    var at := EmptyCells(e, l, b);
    forall p | ProperPlace(p, 0) ensures p in at {
      assert p == Head(p.list) && p.list in EmptyHost.lists;
    }
    forall k | ProperList(k, 0) ensures at[Head(k)] == HeadAmong([], e, l, b, k) && EmptyBucket(at[Head(k)], k) {
      assert k in EmptyHost.lists;
    }
    forall c | c in at.Values ensures c.next == c && c.prev == c {
      var p :| p in at && at[p] == c;
      assert EmptyBucket(at[Head(p.list)], p.list);
    }
  }

  /** The cells are the bucket heads. */
  lemma EmptyValues(e: seq<ListHead>, l: seq<ListHead>, b: seq<ListHead>)
    requires TablesSized(e, l, b)
    ensures forall c :: c in EmptyCells(e, l, b).Values ==> c in e || c in l || c in b
  {
  }

  lemma EmptyWired(e: seq<ListHead>, l: seq<ListHead>, b: seq<ListHead>)
    requires EmptyTables(e, l, b)
    ensures Wired([], e, l, b, EmptyCells(e, l, b), 0)
  {
    EmptyLaid(e, l, b);
    forall i | 0 <= i < TCP_HASH_SIZE
      ensures var at := EmptyCells(e, l, b);
        e[i] == at[Head(Bucket(EstablishedTable, i))] && l[i] == at[Head(Bucket(ListenTable, i))] && b[i] == at[Head(Bucket(BindTable, i))]
    {
      assert ProperList(Bucket(EstablishedTable, i), 0) && ProperList(Bucket(ListenTable, i), 0) && ProperList(Bucket(BindTable, i), 0);
    }
  }

  lemma EmptyRealised(e: seq<ListHead>, l: seq<ListHead>, b: seq<ListHead>)
    requires EmptyTables(e, l, b)
    ensures Realised(EmptyHost, EmptyCells(e, l, b))
  {
    EmptyWellLinked();
    EmptyLaid(e, l, b);
    var at := EmptyCells(e, l, b);
    var f := ForestOf(EmptyHost, at);
    forall c | c in f ensures f[c] == [] && c in at.Values {
      HeadPresent(EmptyHost, at, c.place.list);
    }
    EmptyCircles(f, Nexts(at.Values), Prevs(at.Values));
    RealisedNeeds(EmptyHost, at, 0);
  }

  lemma EmptyCircles(f: Forest, next: Pointers, prev: Pointers)
    requires forall c :: c in f ==> f[c] == [] && c in next && c in prev && next[c] == c && prev[c] == c
    ensures Circular(f, next, prev)
  {
  }

  /** The socks, each under its own name, hold these values. */
  ghost predicate ValuesAre(socks: seq<TcpSock>, vals: seq<Sock>)
    reads socks
  {
    |vals| == |socks| && forall i :: 0 <= i < |socks| ==> socks[i].id == i && socks[i].Val() == vals[i]
  }

  lemma ValuesJoined(socks: seq<TcpSock>, vals: seq<Sock>, t: TcpSock)
    requires ValuesAre(socks, vals) && t.id == |socks|
    ensures ValuesAre(socks + [t], vals + [t.Val()])
  {
  }

  class Stack {
    var socks: seq<TcpSock>
    const established: seq<ListHead>
    const listening: seq<ListHead>
    const bound: seq<ListHead>
    ghost var host: Host
    ghost var at: Cells

    /** init_tcp_stack */
    constructor ()
      ensures Valid() && host == EmptyHost && socks == [] && fresh(at.Values)
    {
      var e, l, b := InitTables();
      established, listening, bound := e, l, b;
      socks := [];
      host := EmptyHost;
      at := EmptyCells(e, l, b);
      new;
      EmptyWired(e, l, b);
      EmptyRealised(e, l, b);
      EmptyValues(e, l, b);
    }

    function HeadOf(k: ListId): ListHead
      requires TablesSized(established, listening, bound) && ProperList(k, |socks|)
      reads this`socks
    {
      HeadAmong(socks, established, listening, bound, k)
    }

    /** The socks hold the values, and their nodes the links, that the host says. */
    ghost predicate Valid()
      reads this, at.Values, socks
    {
      && TablesSized(established, listening, bound)
      && Wired(socks, established, listening, bound, at, |socks|)
      && Realised(host, at)
      && ValuesOk()
    }

    lemma FindHead(k: ListId)
      requires Valid() && ProperList(k, |socks|)
      ensures Head(k) in at && HeadOf(k) == at[Head(k)]
    {
      WiredHead(socks, established, listening, bound, at, k);
    }

    lemma FindNode(m: Member, id: SockId)
      requires Valid() && id < |socks|
      ensures Place.Node(m, id) in at && socks[id].Node(m) == at[Place.Node(m, id)]
    {
      WiredSock(socks, established, listening, bound, at, |socks|, id);
    }

    ghost predicate ValuesOk()
      reads this`host, this`socks, socks
    {
      ValuesAre(socks, host.socks)
    }

    /** list_add_head of sock id on list k */
    method AddHead(k: ListId, id: SockId)
      requires Valid() && ProperList(k, |socks|) && id < |socks| && !LinkedBy(host, MemberOf(k), id)
      modifies this`host, at.Values
      ensures Valid() && host == Push(old(host), k, id)
    {
      FindHead(k);
      FindNode(MemberOf(k), id);
      LinkHead(socks[id].Node(MemberOf(k)), HeadOf(k), host, at, k, id);
      host := Push(host, k, id);
    }

    method AddTail(k: ListId, id: SockId)
      requires Valid() && ProperList(k, |socks|) && id < |socks| && !LinkedBy(host, MemberOf(k), id)
      modifies this`host, at.Values
      ensures Valid() && host == Append(old(host), k, id)
    {
      FindHead(k);
      FindNode(MemberOf(k), id);
      LinkTail(socks[id].Node(MemberOf(k)), HeadOf(k), host, at, k, id);
      host := Append(host, k, id);
    }

    // Reference counts

    method IncRef(id: SockId)
      requires Valid() && id < |socks|
      modifies this`host, socks[id]
      ensures Valid() && host == AddRef(old(host), id)
    {
      SameLinks(host, AddRef(host, id), at);
      host := AddRef(host, id);
      socks[id].Hold();
    }

    method FreeSock(id: SockId)
      requires Valid() && id < |socks|
      modifies this`host, socks[id]
      ensures Valid() && host == DropRef(old(host), id)
    {
      SameLinks(host, DropRef(host, id), at);
      host := DropRef(host, id);
      socks[id].Drop();
    }

    // Lookups

    method FindEstablished(t: Tuple) returns (r: Option<SockId>)
      requires Valid()
      ensures r == LookupEstablished(host, t)
    {
      var k := EstKey(t);
      FindHead(k);
      var head := HeadOf(k);
      ghost var i, ids := 0, ListOf(host, k);
      WalkStarts(host, at, k);
      var pos := head.next;
      while pos != head
        invariant AtCell(host, at, k, i, pos)
        invariant FindTuple(host, ids[i..], t) == FindTuple(host, ids, t)
        decreases |ids| - i
      {
        WalkGoesOn(host, at, k, i, pos);
        var s := socks[pos.place.sock];
        if s.sip == t.sip && s.sport == t.sport && s.dip == t.dip && s.dport == t.dport {
          return Some(s.id);
        }
        pos := pos.next;
        i := i + 1;
      }
      return None;
    }

    /** The first sock on list k with the given source port. */
    method FindOnPort(k: ListId, port: u16) returns (r: Option<SockId>)
      requires Valid() && ProperList(k, |socks|)
      ensures r == FindPort(host, ListOf(host, k), port)
    {
      FindHead(k);
      var head := HeadOf(k);
      ghost var i, ids := 0, ListOf(host, k);
      WalkStarts(host, at, k);
      var pos := head.next;
      while pos != head
        invariant AtCell(host, at, k, i, pos)
        invariant FindPort(host, ids[i..], port) == FindPort(host, ids, port)
        decreases |ids| - i
      {
        WalkGoesOn(host, at, k, i, pos);
        var s := socks[pos.place.sock];
        if s.sport == port {
          return Some(s.id);
        }
        pos := pos.next;
        i := i + 1;
      }
      return None;
    }

    /** tcp_sock_lookup */
    method Find(g: Segment) returns (r: Option<SockId>)
      requires Valid()
      ensures r == Lookup(host, g)
    {
      r := FindEstablished(Mirror(g.from));
      if r == None {
        r := FindOnPort(ListenKey(g.from.dport), g.from.dport);
      }
    }

    // The tables

    /** Where tcp_hash would link the sock, if it would. */
    method Slot(id: SockId) returns (k: Option<ListId>)
      requires Valid() && id < |socks|
      ensures HashSock(host, id) == if k.Some? then Some(AddRef(Push(host, k.value, id), id)) else None
      ensures k.Some? ==> ProperList(k.value, |socks|) && MemberOf(k.value) == HashList
    {
      var s := socks[id];
      if s.state == Closed {
        return None;
      } else if s.state == Listen {
        return Some(ListenKey(s.sport));
      } else {
        var t := Tuple(s.sip, s.dip, s.sport, s.dport);
        var other := FindEstablished(t);
        return if other == None then Some(EstKey(t)) else None;
      }
    }

    method Enter(k: ListId, id: SockId)
      requires Valid() && ProperList(k, |socks|) && id < |socks| && !LinkedBy(host, MemberOf(k), id)
      modifies this`host, at.Values, socks[id]
      ensures Valid() && host == AddRef(Push(old(host), k, id), id)
    {
      AddHead(k, id);
      IncRef(id);
    }

    /** tcp_hash */
    method Hash(id: SockId) returns (ok: bool)
      requires Valid() && id < |socks| && !LinkedBy(host, HashList, id)
      modifies this`host, at.Values, socks[id]
      ensures Valid() && host == HashAnyway(old(host), id)
      ensures ok <==> HashSock(old(host), id).Some?
    {
      var k := Slot(id);
      ok := k.Some?;
      if ok {
        Enter(k.value, id);
      }
    }

    /** list_delete_entry on a linked node of sock id */
    method Remove(m: Member, id: SockId)
      requires Valid() && m != QueueList && id < |socks| && LinkedBy(host, m, id)
      modifies this`host, at.Values
      ensures Valid() && host == Unlink(old(host), m, id)
    {
      FindNode(m, id);
      UnlinkNode(socks[id].Node(m), host, at, m, id);
      host := Unlink(host, m, id);
    }

    /** tcp_unhash */
    method Unhash(id: SockId)
      requires Valid() && id < |socks| && LinkedBy(host, HashList, id)
      modifies this`host, at.Values, socks[id]
      ensures Valid() && host == UnhashSock(old(host), id)
    {
      Remove(HashList, id);
      FreeSock(id);
    }

    /** tcp_bind_hash */
    method EnterBind(id: SockId)
      requires Valid() && id < |socks| && !LinkedBy(host, BindHashList, id)
      modifies this`host, at.Values, socks[id]
      ensures Valid() && host == BindHash(old(host), id)
    {
      Enter(BindKey(socks[id].sport), id);
    }

    /** tcp_bind_unhash */
    method LeaveBind(id: SockId)
      requires Valid() && id < |socks| && LinkedBy(host, BindHashList, id)
      modifies this`host, at.Values, socks[id]
      ensures Valid() && host == BindUnhash(old(host), id)
    {
      Remove(BindHashList, id);
      FreeSock(id);
    }

    method PortTaken(port: u16) returns (taken: bool)
      requires Valid()
      ensures taken == PortInUse(host, port)
    {
      var r := FindOnPort(BindKey(port), port);
      taken := r != None;
    }

    /** tcp_get_port, scanning from first */
    method FreePort(first: u16) returns (port: u16)
      requires Valid() && first <= PORT_MAX
      ensures port == GetPort(host, first)
    {
      port := first;
      while port < PORT_MAX
        invariant first <= port <= PORT_MAX
        invariant forall p: u16 :: first <= p < port ==> PortInUse(host, p)
      {
        var taken := PortTaken(port);
        if !taken {
          GetPortScan(host, first, port);
          return;
        }
        port := port + 1;
      }
      GetPortScan(host, first, port);
      port := 0;
    }

    method PickPort(port: u16) returns (r: Option<u16>)
      requires Valid()
      ensures r == ChoosePort(host, port)
    {
      if port != 0 {
        var taken := PortTaken(port);
        r := if taken then None else Some(port);
      } else {
        var p := FreePort(PORT_MIN);
        r := if p == 0 then None else Some(p);
      }
    }

    method StorePort(id: SockId, port: u16)
      requires Valid() && id < |socks|
      modifies this`host, socks[id]
      ensures Valid()
      ensures host == Update(old(host), id, old(host).socks[id].(tuple := old(host).socks[id].tuple.(sport := port)))
    {
      ghost var h := Update(host, id, host.socks[id].(tuple := host.socks[id].tuple.(sport := port)));
      SameLinks(host, h, at);
      host := h;
      socks[id].SetPort(port);
    }

    /** tcp_sock_set_sport */
    method BindPort(id: SockId, port: u16) returns (ok: bool)
      requires Valid() && id < |socks| && !LinkedBy(host, BindHashList, id)
      modifies this`host, at.Values, socks[id]
      ensures Valid() && ok == SetSport(old(host), id, port).Some?
      ensures host == if ok then SetSport(old(host), id, port).value else old(host)
    {
      var p := PickPort(port);
      if p == None {
        return false;
      }
      StorePort(id, p.value);
      EnterBind(id);
      return true;
    }

    // Opening

    method StoreState(id: SockId, state: State)
      requires Valid() && id < |socks|
      modifies this`host, socks[id]
      ensures Valid() && host == Update(old(host), id, old(host).socks[id].(state := state))
    {
      ghost var h := Update(host, id, host.socks[id].(state := state));
      SameLinks(host, h, at);
      host := h;
      socks[id].SetState(state);
    }

    /** tcp_sock_listen */
    method ListenAt(id: SockId, backlog: int) returns (ok: bool)
      requires Valid() && id < |socks| && !LinkedBy(host, HashList, id)
      modifies this`host, at.Values, socks[id]
      ensures Valid() && ok && ListenOn(old(host), id, backlog) == Some(host)
      ensures socks[id].state == Listen && socks[id].backlog == backlog
    {
      StoreListen(id, backlog);
      ok := Hash(id);
    }

    method StoreListen(id: SockId, backlog: int)
      requires Valid() && id < |socks|
      modifies this`host, socks[id]
      ensures Valid() && host == Update(old(host), id, old(host).socks[id].(backlog := backlog, state := Listen))
    {
      ghost var h := Update(host, id, host.socks[id].(backlog := backlog, state := Listen));
      SameLinks(host, h, at);
      host := h;
      socks[id].SetListen(backlog);
    }

    method StoreTuple(id: SockId, t: Tuple)
      requires Valid() && id < |socks|
      modifies this`host, socks[id]
      ensures Valid() && host == Update(old(host), id, old(host).socks[id].(tuple := t))
    {
      ghost var h := Update(host, id, host.socks[id].(tuple := t));
      SameLinks(host, h, at);
      host := h;
      socks[id].SetTuple(t);
    }

    method Control(id: SockId, flags: byte) returns (g: Segment)
      requires Valid() && id < |socks|
      modifies this`host, socks[id]
      ensures Valid() && host == Update(old(host), id, AfterControl(old(host).socks[id], flags))
      ensures g == ControlSegment(old(host).socks[id], flags)
    {
      ghost var h := Update(host, id, AfterControl(host.socks[id], flags));
      SameLinks(host, h, at);
      host := h;
      g := socks[id].SendControl(flags);
    }

    /** The first half of tcp_sock_connect: take the 4-tuple and the port. */
    method TakeTuple(id: SockId, t: Tuple)
      requires Valid() && id < |socks| && !LinkedBy(host, HashList, id) && !LinkedBy(host, BindHashList, id)
      modifies this`host, at.Values, socks[id]
      ensures Valid() && host == BindHash(Update(old(host), id, old(host).socks[id].(tuple := t)), id)
      ensures !LinkedBy(host, HashList, id)
    {
      StoreTuple(id, t);
      SameListsLinked(old(host), host, id);
      ghost var h := host;
      EnterBind(id);
      BindAside(h, id);
    }

    /** What both ends do to enter the handshake: send, change state, and enter
        the established table. */
    method Announce(id: SockId, flags: byte, state: State) returns (g: Segment)
      requires Valid() && id < |socks| && !LinkedBy(host, HashList, id)
      modifies this`host, at.Values, socks[id]
      ensures Valid() && g == ControlSegment(old(host).socks[id], flags)
      ensures host == HashAnyway(Update(old(host), id, AfterControl(old(host).socks[id], flags).(state := state)), id)
    {
      SameListsLinked(host, Update(host, id, AfterControl(host.socks[id], flags).(state := state)), id);
      g := ControlThen(id, flags, state);
      var ok := Hash(id);
    }

    method ControlThen(id: SockId, flags: byte, state: State) returns (g: Segment)
      requires Valid() && id < |socks|
      modifies this`host, socks[id]
      ensures Valid() && g == ControlSegment(old(host).socks[id], flags)
      ensures host == Update(old(host), id, AfterControl(old(host).socks[id], flags).(state := state))
    {
      ghost var h := Update(host, id, AfterControl(host.socks[id], flags).(state := state));
      SameLinks(host, h, at);
      host := h;
      g := socks[id].SendControl(flags);
      socks[id].SetState(state);
    }

    method Data(id: SockId, len: nat) returns (g: Segment)
      requires Valid() && id < |socks|
      modifies this`host, socks[id]
      ensures Valid() && host == Update(old(host), id, AfterData(old(host).socks[id], len))
      ensures g == DataSegment(old(host).socks[id], len)
    {
      ghost var h := Update(host, id, AfterData(host.socks[id], len));
      SameLinks(host, h, at);
      host := h;
      g := socks[id].SendData(len);
    }

    /** tcp_sock_connect up to its sleep */
    method ConnectTo(id: SockId, t: Tuple) returns (g: Segment)
      requires Valid() && id < |socks| && !LinkedBy(host, HashList, id) && !LinkedBy(host, BindHashList, id)
      modifies this`host, at.Values, socks[id]
      ensures Valid() && host == Connect(old(host), id, t) && g == ConnectSegment(old(host), id, t)
    {
      TakeTuple(id, t);
      g := Announce(id, SYN, SynSent);
    }

    // Queues

    method StoreBacklog(id: SockId, d: int)
      requires Valid() && id < |socks|
      modifies this`host, socks[id]
      ensures Valid() && host == AddBacklog(old(host), id, d)
    {
      SameLinks(host, AddBacklog(host, id, d), at);
      host := AddBacklog(host, id, d);
      socks[id].Count(d);
    }

    method MoveTo(k: ListId, id: SockId)
      requires Valid() && ProperList(k, |socks|) && MemberOf(k) == QueueList && id < |socks|
      modifies this`host, at.Values
      ensures Valid() && host == Append(Unlink(old(host), QueueList, id), k, id)
    {
      FindHead(k);
      FindNode(QueueList, id);
      Requeue(socks[id].Node(QueueList), HeadOf(k), host, at, k, id);
      host := Append(Unlink(host, QueueList, id), k, id);
    }

    /** tcp_sock_accept_enqueue */
    method Enqueue(id: SockId)
      requires Valid() && id < |socks| && host.socks[id].parent.Some? && host.socks[id].parent.value < |socks|
      modifies this`host, at.Values, socks[host.socks[id].parent.value]
      ensures Valid() && host == AcceptEnqueue(old(host), id)
    {
      var p := socks[id].parent.value;
      MoveTo(AcceptQueue(p), id);
      StoreBacklog(p, 1);
    }

    method TakeOut(id: SockId)
      requires Valid() && id < |socks| && LinkedBy(host, QueueList, id)
      modifies this`host, at.Values
      ensures Valid() && host == Unlink(old(host), QueueList, id)
    {
      FindNode(QueueList, id);
      DequeueNode(socks[id].Node(QueueList), host, at, id);
      host := Unlink(host, QueueList, id);
    }

    /** tcp_sock_accept_dequeue on a queue that is not empty */
    method Dequeue(listener: SockId) returns (id: SockId)
      requires Valid() && listener < |socks| && ListOf(host, AcceptQueue(listener)) != []
      modifies this`host, at.Values, socks[listener]
      ensures Valid() && id == ListOf(old(host), AcceptQueue(listener))[0]
      ensures host == AcceptDequeue(old(host), listener)
    {
      id := Front(listener);
      TakeOut(id);
      StoreBacklog(listener, -1);
    }

    method Front(listener: SockId) returns (id: SockId)
      requires Valid() && listener < |socks| && ListOf(host, AcceptQueue(listener)) != []
      ensures id == ListOf(host, AcceptQueue(listener))[0] && id < |socks| && LinkedBy(host, QueueList, id)
    {
      FindHead(AcceptQueue(listener));
      WalkStarts(host, at, AcceptQueue(listener));
      id := HeadOf(AcceptQueue(listener)).next.place.sock;
      assert AcceptQueue(listener) in host.lists && id in host.lists[AcceptQueue(listener)];
    }

    // New socks

    /** Take a new sock, initialised by its constructor, into the stack. */
    method Adopt(t: TcpSock)
      requires Valid() && t.id == |socks| && t.Placed() && t.Val() == EmptySock
      requires t.list.next == t.list && t.listenQueue.next == t.listenQueue.prev == t.listenQueue
      requires t.acceptQueue.next == t.acceptQueue.prev == t.acceptQueue
      modifies this`host, this`at, this`socks
      ensures Valid() && host == Alloc(old(host)) && at == Joined(old(at), t) && socks == old(socks) + [t]
    {
      assert Wired(socks + [t], established, listening, bound, Joined(at, t), |socks| + 1) by {
        JoinedWired(socks, established, listening, bound, host, at, t);
      }
      assert Realised(Alloc(host), Joined(at, t)) by { JoinedRealised(host, at, t); }
      assert ValuesAre(socks + [t], Alloc(host).socks) by { ValuesJoined(socks, host.socks, t); }
      Store(Alloc(host), Joined(at, t), socks + [t]);
    }

    method Store(ghost h: Host, ghost cells: Cells, ts: seq<TcpSock>)
      requires TablesSized(established, listening, bound) && Wired(ts, established, listening, bound, cells, |ts|)
      requires Realised(h, cells) && ValuesAre(ts, h.socks)
      modifies this`host, this`at, this`socks
      ensures Valid() && host == h && at == cells && socks == ts
    {
      host, at, socks := h, cells, ts;
    }

    /** alloc_tcp_sock */
    method AllocSock() returns (id: SockId)
      requires Valid()
      modifies this`host, this`at, this`socks
      ensures Valid() && host == Alloc(old(host)) && id == |old(host).socks|
      ensures |socks| == |old(socks)| + 1 && old(socks) <= socks && fresh(socks[id]) && fresh(at.Values - old(at.Values))
    {
      id := |socks|;
      var t := new TcpSock(id);
      Adopt(t);
      assert fresh(at.Values - old(at.Values)) by { JoinedValues(old(at), t); }
    }

    // Receiving

    /** A sock for the child of the LISTEN branch */
    method MakeChild(listener: SockId, g: Segment) returns (id: SockId)
      requires Valid()
      modifies this`host, this`at, this`socks
      ensures Valid() && id == |old(host).socks| && |socks| == id + 1 && old(socks) <= socks
      ensures fresh(socks[id]) && fresh(at.Values - old(at.Values))
      ensures host == Update(Alloc(old(host)), id, ChildSock(listener, g))
    {
      id := AllocSock();
      StoreChild(id, Mirror(g.from), listener);
    }

    method StoreChild(id: SockId, t: Tuple, p: SockId)
      requires Valid() && id < |socks|
      modifies this`host, socks[id]
      ensures Valid() && host == Update(old(host), id, old(host).socks[id].(tuple := t, parent := Some(p)))
    {
      ghost var h := Update(host, id, host.socks[id].(tuple := t, parent := Some(p)));
      SameLinks(host, h, at);
      host := h;
      socks[id].SetTuple(t);
      socks[id].SetParent(p);
    }

    /** It joins its listener's queue; its other nodes are not linked. */
    method QueueChild(listener: SockId, g: Segment) returns (id: SockId)
      requires Valid() && listener < |socks|
      modifies this, at.Values
      ensures Valid() && id == |old(host).socks| && |socks| == id + 1 && old(socks) <= socks
      ensures fresh(socks[id]) && fresh(at.Values - old(at.Values))
      ensures host == Append(Update(Alloc(old(host)), id, ChildSock(listener, g)), ListenQueue(listener), id)
      ensures !LinkedBy(host, HashList, id)
    {
      ChildUnlinked(host, at, listener, g);
      id := MakeChild(listener, g);
      AddTail(ListenQueue(listener), id);
    }

    /** The LISTEN branch of tcp_process */
    method SpawnChild(listener: SockId, g: Segment) returns (reply: Segment)
      requires Valid() && listener < |socks|
      modifies this, at.Values
      ensures Valid() && host == Spawn(old(host), listener, g)
      ensures old(socks) <= socks && fresh(socks[|old(socks)|..]) && fresh(at.Values - old(at.Values))
      ensures reply == ControlSegment(ChildSock(listener, g), SYN_ACK)
    {
      var id := QueueChild(listener, g);
      reply := Announce(id, SYN_ACK, SynRecv);
      SpawnIsAnnounced(old(host), listener, g);
    }

    /** The SYN_RECV branch of tcp_process on the final ACK */
    method Complete(id: SockId)
      requires Valid() && id < |socks| && host.socks[id].parent.Some? && host.socks[id].parent.value < |socks|
      modifies this`host, at.Values, socks[id], socks[host.socks[id].parent.value]
      ensures Valid()
      ensures var h1 := AcceptEnqueue(old(host), id); host == Update(h1, id, h1.socks[id].(state := Established))
    {
      Enqueue(id);
      StoreState(id, Established);
    }

    /** The SYN_SENT branch of tcp_process on SYN|ACK */
    method Opened(id: SockId) returns (ack: Segment)
      requires Valid() && id < |socks|
      modifies this`host, socks[id]
      ensures Valid() && host == Update(old(host), id, old(host).socks[id].(state := Established))
      ensures ack == ControlSegment(old(host).socks[id], ACK)
    {
      StoreState(id, Established);
      ack := SendAck(id);
    }

    /** An ACK takes no sequence number. */
    method SendAck(id: SockId) returns (ack: Segment)
      requires Valid() && id < |socks|
      modifies this`host, socks[id]
      ensures Valid() && host == old(host) && ack == ControlSegment(host.socks[id], ACK)
    {
      UpdateSame(host, id);
      ack := Control(id, ACK);
    }

    /** tcp_process once the segment is in the window and asks for no close */
    method Dispatch(id: SockId, g: Segment) returns (sent: seq<Segment>)
      requires Valid() && id < |socks|
      requires host.socks[id].state == SynRecv ==> host.socks[id].parent.Some? && host.socks[id].parent.value < |socks|
      requires SeqValid(host.socks[id].rcvNxt, host.socks[id].rcvWnd, g.seqNo, SeqEnd(g)) && g.flags != RST && g.flags != FIN
      modifies this, at.Values, socks
      ensures Valid() && Outcome(host, sent, false) == Process(old(host), id, g) && |sent| <= 1
      ensures old(socks) <= socks && fresh(socks[|old(socks)|..]) && fresh(at.Values - old(at.Values))
    {
      var state := socks[id].state;
      if state == Listen && g.flags == SYN {
        var reply := SpawnChild(id, g);
        sent := [reply];
      } else if state == SynRecv && g.flags == ACK {
        Complete(id);
        sent := [];
      } else if state == SynSent && g.flags == SYN_ACK {
        var ack := Opened(id);
        sent := [ack];
      } else if state == Closed || state == Listen || state == SynRecv || state == SynSent {
        sent := [ResetSegment(g)];
      } else {
        sent := [];
      }
    }

    /** tcp_process */
    method ProcessSegment(id: SockId, g: Segment) returns (sent: seq<Segment>, closes: bool)
      requires Valid() && id < |socks|
      requires host.socks[id].state == SynRecv ==> host.socks[id].parent.Some? && host.socks[id].parent.value < |socks|
      modifies this, at.Values, socks
      ensures Valid() && Outcome(host, sent, closes) == Process(old(host), id, g) && |sent| <= 1
      ensures old(socks) <= socks && fresh(socks[|old(socks)|..]) && fresh(at.Values - old(at.Values))
    {
      var s := socks[id];
      sent, closes := [], false;
      if !SeqValid(s.rcvNxt, s.rcvWnd, g.seqNo, SeqEnd(g)) {
        return;
      } else if g.flags == RST {
        var ack := SendAck(id);
        sent, closes := [ack], true;
      } else if g.flags == FIN {
        closes := true;
      } else {
        sent := Dispatch(id, g);
      }
    }
  }
}
