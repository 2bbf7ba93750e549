/** Every run of table operations agrees with a plain reference: a map from
    4-tuples, a most-recent-first list of listeners and a map from ports. */
module TableRuns {
  import opened Base
  import opened Segments
  import opened TcpHash
  import opened Hosts
  import opened Tables

  datatype Reference = Reference(established: map<Tuple, SockId>, listeners: seq<SockId>, bound: map<u16, SockId>)

  datatype Op =
    | NewSock
    | Configure(id: SockId, tuple: Tuple, state: State)
    | Hash(id: SockId)
    | Unhash(id: SockId)
    | Bind(id: SockId, port: u16)
    | UnhashBind(id: SockId)

  /** Only live socks are touched; a linked node is not linked again, only
      linked nodes are unlinked, and keys stay fixed while linked. */
  predicate Allowed(h: Host, op: Op) {
    op.NewSock? || (
      && op.id < |h.socks| && !h.socks[op.id].released
      && match op
         case Configure(id, t, _) => !Hashed(h, id) && (InBind(h, id) ==> t.sport == h.socks[id].tuple.sport)
         case Hash(id) => !Hashed(h, id)
         case Unhash(id) => Hashed(h, id)
         case Bind(id, _) => !Hashed(h, id) && !InBind(h, id)
         case UnhashBind(id) => InBind(h, id))
  }

  function After(h: Host, op: Op): Host
    requires Allowed(h, op)
  {
    match op
    case NewSock => Alloc(h)
    case Configure(id, t, st) => Update(h, id, h.socks[id].(tuple := t, state := st))
    case Hash(id) => HashAnyway(h, id)
    case Unhash(id) => UnhashSock(h, id)
    case Bind(id, port) => (match SetSport(h, id, port) case Some(h') => h' case None => h)
    case UnhashBind(id) => BindUnhash(h, id)
  }

  // The reference: the socks say what their keys are, the tables are not consulted

  function FirstFree(taken: set<u16>, p: u16): Option<u16>
    decreases PORT_MAX - p
  {
    if p >= PORT_MAX then None else if p !in taken then Some(p) else FirstFree(taken, p + 1)
  }

  function PortFor(taken: set<u16>, port: u16): Option<u16> {
    if port == 0 then FirstFree(taken, PORT_MIN) else if port in taken then None else Some(port)
  }

  function Reckon(r: Reference, socks: seq<Sock>, op: Op): Reference
    requires op.NewSock? || op.id < |socks|
  {
    match op
    case NewSock => r
    case Configure(_, _, _) => r
    case Hash(id) =>
      var s := socks[id];
      if s.state == Closed then r
      else if s.state == Listen then r.(listeners := [id] + r.listeners)
      else if s.tuple in r.established then r
      else r.(established := r.established[s.tuple := id])
    case Unhash(id) =>
      if socks[id].state == Listen then r.(listeners := Without(r.listeners, id))
      else r.(established := r.established - {socks[id].tuple})
    case Bind(id, port) =>
      (match PortFor(r.bound.Keys, port)
       case None => r
       case Some(p) => r.(bound := r.bound[p := id]))
    case UnhashBind(id) => r.(bound := r.bound - {socks[id].tuple.sport})
  }

  // Refinement

  ghost predicate EstablishedAgrees(h: Host, m: map<Tuple, SockId>) {
    && (forall t :: t in m ==> InEstablished(h, m[t]) && h.socks[m[t]].tuple == t)
    && (forall id: SockId :: InEstablished(h, id) ==> h.socks[id].tuple in m && m[h.socks[id].tuple] == id)
  }

  ghost predicate BoundAgrees(h: Host, m: map<u16, SockId>) {
    && (forall p :: p in m ==> InBind(h, m[p]) && h.socks[m[p]].tuple.sport == p)
    && (forall id: SockId :: InBind(h, id) ==> h.socks[id].tuple.sport in m && m[h.socks[id].tuple.sport] == id)
  }

  /** The listeners that belong in listen bucket k, in the same order. */
  function Chain(socks: seq<Sock>, ids: seq<SockId>, k: ListId): seq<SockId> {
    if ids == [] then []
    else if ids[0] < |socks| && ListenKey(socks[ids[0]].tuple.sport) == k then [ids[0]] + Chain(socks, ids[1..], k)
    else Chain(socks, ids[1..], k)
  }

  ghost predicate ListenersAgree(h: Host, order: seq<SockId>) {
    && Distinct(order)
    && (forall id :: id in order ==> InListen(h, id))
    && (forall b :: 0 <= b < TCP_HASH_SIZE ==> ListOf(h, Bucket(ListenTable, b)) == Chain(h.socks, order, Bucket(ListenTable, b)))
  }

  ghost predicate Refines(h: Host, r: Reference) {
    EstablishedAgrees(h, r.established) && ListenersAgree(h, r.listeners) && BoundAgrees(h, r.bound)
  }

  // What agreement says of the lookups

  lemma {:induction false} ChainSearch(h: Host, ids: seq<SockId>, port: u16)
    ensures FindPort(h, Chain(h.socks, ids, ListenKey(port)), port) == FindPort(h, ids, port)
  {
    if ids != [] {
      ChainSearch(h, ids[1..], port);
      var rest := Chain(h.socks, ids[1..], ListenKey(port));
      assert ([ids[0]] + rest)[1..] == rest;
    }
  }

  /** The established table is the partial map. */
  lemma EstablishedLookup(h: Host, r: Reference, t: Tuple)
    requires EstablishedAgrees(h, r.established)
    ensures LookupEstablished(h, t) == if t in r.established then Some(r.established[t]) else None
  {
    FindTupleFinds(h, ListOf(h, EstKey(t)), t);
  }

  /** The listen table gives the listener on the port that was hashed last. */
  lemma ListenLookup(h: Host, r: Reference, port: u16)
    requires ListenersAgree(h, r.listeners)
    ensures LookupListen(h, port) == FindPort(h, r.listeners, port)
    ensures match LookupListen(h, port)
            case Some(l) => l < |h.socks| && h.socks[l].tuple.sport == port && FirstOn(h, r.listeners, port, l)
            case None => forall l :: l in r.listeners && l < |h.socks| ==> h.socks[l].tuple.sport != port
  {
    ChainSearch(h, r.listeners, port);
    FindPortFinds(h, r.listeners, port);
  }

  lemma PortLookup(h: Host, r: Reference, port: u16)
    requires BoundAgrees(h, r.bound)
    ensures PortInUse(h, port) <==> port in r.bound
  {
    FindPortFinds(h, ListOf(h, BindKey(port)), port);
  }

  lemma {:induction false} GetPortIsFirstFree(h: Host, r: Reference, p: u16)
    requires BoundAgrees(h, r.bound) && p > 0
    ensures GetPort(h, p) == (match FirstFree(r.bound.Keys, p) case Some(q) => q case None => 0)
    ensures FirstFree(r.bound.Keys, p).Some? ==> FirstFree(r.bound.Keys, p).value > 0
    decreases PORT_MAX - p
  {
    if p < PORT_MAX {
      PortLookup(h, r, p);
      GetPortIsFirstFree(h, r, p + 1);
    }
  }

  lemma PortChoice(h: Host, r: Reference, port: u16)
    requires BoundAgrees(h, r.bound)
    ensures ChoosePort(h, port) == PortFor(r.bound.Keys, port)
  {
    PortLookup(h, r, port);
    GetPortIsFirstFree(h, r, PORT_MIN);
  }

  // Each operation keeps the agreement

  lemma EstablishedFrame(h: Host, h': Host, m: map<Tuple, SockId>)
    requires EstablishedAgrees(h, m)
    requires forall i: SockId :: InEstablished(h', i) <==> InEstablished(h, i)
    requires forall i: SockId :: i < |h.socks| && InEstablished(h, i) ==> i < |h'.socks| && h'.socks[i].tuple == h.socks[i].tuple
    ensures EstablishedAgrees(h', m)
  {
    forall t | t in m ensures InEstablished(h', m[t]) && h'.socks[m[t]].tuple == t {
      assert InEstablished(h, m[t]);
    }
    forall id: SockId | InEstablished(h', id) ensures h'.socks[id].tuple in m && m[h'.socks[id].tuple] == id {
      assert InEstablished(h, id);
    }
  }

  lemma BoundFrame(h: Host, h': Host, m: map<u16, SockId>)
    requires BoundAgrees(h, m)
    requires forall i: SockId :: InBind(h', i) <==> InBind(h, i)
    requires forall i: SockId :: i < |h.socks| && InBind(h, i) ==> i < |h'.socks| && h'.socks[i].tuple.sport == h.socks[i].tuple.sport
    ensures BoundAgrees(h', m)
  {
    forall p | p in m ensures InBind(h', m[p]) && h'.socks[m[p]].tuple.sport == p {
      assert InBind(h, m[p]);
    }
    forall id: SockId | InBind(h', id) ensures h'.socks[id].tuple.sport in m && m[h'.socks[id].tuple.sport] == id {
      assert InBind(h, id);
    }
  }

  lemma {:induction false} ChainFrame(socks: seq<Sock>, socks': seq<Sock>, ids: seq<SockId>, k: ListId)
    requires forall i :: i in ids ==> i < |socks| && i < |socks'| && socks'[i].tuple.sport == socks[i].tuple.sport
    ensures Chain(socks', ids, k) == Chain(socks, ids, k)
  {
    if ids != [] {
      assert forall i :: i in ids[1..] ==> i in ids;
      ChainFrame(socks, socks', ids[1..], k);
    }
  }

  lemma ListenersFrame(h: Host, h': Host, order: seq<SockId>)
    requires ListenersAgree(h, order)
    requires forall i: SockId :: InListen(h, i) ==> InListen(h', i) && h'.socks[i].tuple.sport == h.socks[i].tuple.sport
    requires forall b :: 0 <= b < TCP_HASH_SIZE ==> ListOf(h', Bucket(ListenTable, b)) == ListOf(h, Bucket(ListenTable, b))
    ensures ListenersAgree(h', order)
  {
    forall b | 0 <= b < TCP_HASH_SIZE
      ensures ListOf(h', Bucket(ListenTable, b)) == Chain(h'.socks, order, Bucket(ListenTable, b))
    {
      ChainFrame(h.socks, h'.socks, order, Bucket(ListenTable, b));
    }
  }

  /** Nothing the reference looks at has changed. */
  lemma AllFrames(h: Host, h': Host, r: Reference)
    requires Refines(h, r) && |h.socks| <= |h'.socks|
    requires forall i: SockId :: SameTables(h, h', i)
    requires forall i: SockId :: i < |h.socks| && Hashed(h, i) ==> h'.socks[i].tuple == h.socks[i].tuple
    requires forall i: SockId :: i < |h.socks| && InBind(h, i) ==> h'.socks[i].tuple.sport == h.socks[i].tuple.sport
    requires forall b :: 0 <= b < TCP_HASH_SIZE ==> ListOf(h', Bucket(ListenTable, b)) == ListOf(h, Bucket(ListenTable, b))
    ensures Refines(h', r)
  {
    forall i: SockId ensures InEstablished(h', i) <==> InEstablished(h, i) { assert SameTables(h, h', i); }
    forall i: SockId ensures InListen(h', i) <==> InListen(h, i) { assert SameTables(h, h', i); }
    forall i: SockId ensures InBind(h', i) <==> InBind(h, i) { assert SameTables(h, h', i); }
    EstablishedFrame(h, h', r.established);
    ListenersFrame(h, h', r.listeners);
    BoundFrame(h, h', r.bound);
  }

  lemma NewSockRefines(h: Host, r: Reference)
    requires TablesOk(h) && Refines(h, r)
    ensures Refines(Alloc(h), r)
  {
    forall i: SockId ensures SameTables(h, Alloc(h), i) { AllocStanding(h, i); }
    AllFrames(h, Alloc(h), r);
  }

  lemma ConfigureRefines(h: Host, r: Reference, id: SockId, s: Sock)
    requires TablesOk(h) && Refines(h, r) && id < |h.socks| && !Hashed(h, id)
    requires InBind(h, id) ==> s.tuple.sport == h.socks[id].tuple.sport
    ensures Refines(Update(h, id, s), r)
  {
    var h' := Update(h, id, s);
    UpdateOthers(h, id, s);
    UpdateStanding(h, id, s);
    forall i: SockId ensures SameTables(h, h', i) {}
    AllFrames(h, h', r);
  }

  /** A sock joins the map under a free tuple. */
  lemma MapPlus(h: Host, h': Host, m: map<Tuple, SockId>, id: SockId)
    requires EstablishedAgrees(h, m) && SameTuples(h, h') && id < |h.socks| && h.socks[id].tuple !in m
    requires forall i: SockId :: InEstablished(h', i) <==> InEstablished(h, i) || i == id
    ensures EstablishedAgrees(h', m[h.socks[id].tuple := id])
  {
    forall i: SockId | InEstablished(h', i) && i != id ensures m[h'.socks[i].tuple] == i {
      assert InEstablished(h, i);
    }
  }

  lemma MapMinus(h: Host, h': Host, m: map<Tuple, SockId>, id: SockId)
    requires EstablishedAgrees(h, m) && SameTuples(h, h') && InEstablished(h, id)
    requires forall i: SockId :: InEstablished(h', i) <==> InEstablished(h, i) && i != id
    ensures EstablishedAgrees(h', m - {h.socks[id].tuple})
  {
    forall i: SockId | InEstablished(h', i) ensures m[h'.socks[i].tuple] == i {
      assert InEstablished(h, i);
    }
  }

  lemma PortPlus(h: Host, h': Host, m: map<u16, SockId>, id: SockId)
    requires BoundAgrees(h, m) && SameTuples(h, h') && id < |h.socks| && h.socks[id].tuple.sport !in m
    requires forall i: SockId :: InBind(h', i) <==> InBind(h, i) || i == id
    ensures BoundAgrees(h', m[h.socks[id].tuple.sport := id])
  {
    forall i: SockId | InBind(h', i) && i != id ensures m[h'.socks[i].tuple.sport] == i {
      assert InBind(h, i);
    }
  }

  lemma PortMinus(h: Host, h': Host, m: map<u16, SockId>, id: SockId)
    requires BoundAgrees(h, m) && SameTuples(h, h') && InBind(h, id)
    requires forall i: SockId :: InBind(h', i) <==> InBind(h, i) && i != id
    ensures BoundAgrees(h', m - {h.socks[id].tuple.sport})
  {
    forall i: SockId | InBind(h', i) ensures m[h'.socks[i].tuple.sport] == i {
      assert InBind(h, i);
    }
  }

  ghost predicate SameTuples(h: Host, h': Host) {
    |h'.socks| == |h.socks| && forall i :: 0 <= i < |h.socks| ==> h'.socks[i].tuple == h.socks[i].tuple
  }

  lemma EnterListen(h: Host, order: seq<SockId>, id: SockId)
    requires ListenersAgree(h, order) && id < |h.socks| && !Hashed(h, id) && h.socks[id].state == Listen
    ensures ListenersAgree(Entered(h, ListenKey(h.socks[id].tuple.sport), id), [id] + order)
  {
    var k := ListenKey(h.socks[id].tuple.sport);
    var h' := Entered(h, k, id);
    EnteredOthers(h, k, id);
    EnteredSelf(h, k, id);
    forall i | i in [id] + order ensures InListen(h', i) {
      if i != id {
        assert InListen(h, i) && SameTables(h, h', i);
      }
    }
    forall b | 0 <= b < TCP_HASH_SIZE
      ensures ListOf(h', Bucket(ListenTable, b)) == Chain(h'.socks, [id] + order, Bucket(ListenTable, b))
    {
      assert ([id] + order)[1..] == order;
      ChainFrame(h.socks, h'.socks, order, Bucket(ListenTable, b));
    }
  }

  lemma {:induction false} ChainWithout(socks: seq<Sock>, ids: seq<SockId>, k: ListId, id: SockId)
    ensures Chain(socks, Without(ids, id), k) == Without(Chain(socks, ids, k), id)
  {
    if ids != [] {
      ChainWithout(socks, ids[1..], k, id);
      var rest, kept := Chain(socks, ids[1..], k), Without(ids[1..], id);
      assert ([ids[0]] + rest)[1..] == rest;
      assert ([ids[0]] + kept)[1..] == kept;
    }
  }

  lemma LeaveListen(h: Host, order: seq<SockId>, id: SockId)
    requires WellLinked(h) && ListenersAgree(h, order) && id < |h.socks|
    ensures ListenersAgree(Left(h, HashList, id), Without(order, id))
  {
    var h' := Left(h, HashList, id);
    LeftOthers(h, HashList, id);
    WithoutKeeps(order, id);
    forall i | i in Without(order, id) ensures InListen(h', i) {
      assert InListen(h, i) && SameTables(h, h', i);
    }
    forall b | 0 <= b < TCP_HASH_SIZE
      ensures ListOf(h', Bucket(ListenTable, b)) == Chain(h'.socks, Without(order, id), Bucket(ListenTable, b))
    {
      ChainFrame(h.socks, h'.socks, order, Bucket(ListenTable, b));
      ChainWithout(h'.socks, order, Bucket(ListenTable, b), id);
      assert Bucket(ListenTable, b) in h.lists;
    }
  }

  /** Entering one table leaves the agreement on the others. */
  lemma EnterFrames(h: Host, r: Reference, k: ListId, id: SockId)
    requires Refines(h, r) && id < |h.socks| && k.Bucket? && Fits(h.socks[id], k)
    ensures var h' := Entered(h, k, id);
      && (k.table != EstablishedTable ==> EstablishedAgrees(h', r.established))
      && (k.table != ListenTable ==> ListenersAgree(h', r.listeners))
      && (k.table != BindTable ==> BoundAgrees(h', r.bound))
  {
    var h' := Entered(h, k, id);
    EnteredStanding(h, k, id);
    if k.table != EstablishedTable { EstablishedFrame(h, h', r.established); }
    if k.table != ListenTable { ListenersFrame(h, h', r.listeners); }
    if k.table != BindTable { BoundFrame(h, h', r.bound); }
  }

  lemma HashRefines(h: Host, r: Reference, id: SockId)
    requires TablesOk(h) && Refines(h, r) && Allowed(h, Hash(id))
    ensures Refines(HashAnyway(h, id), Reckon(r, h.socks, Hash(id)))
    ensures HashSock(h, id).None? <==>
      h.socks[id].state == Closed || (h.socks[id].state != Listen && h.socks[id].tuple in r.established)
  {
    var s := h.socks[id];
    EstablishedLookup(h, r, s.tuple);
    if s.state == Listen {
      EnterFrames(h, r, ListenKey(s.tuple.sport), id);
      EnterListen(h, r.listeners, id);
    } else if s.state != Closed && s.tuple !in r.established {
      EnterFrames(h, r, EstKey(s.tuple), id);
      EnteredStanding(h, EstKey(s.tuple), id);
      MapPlus(h, Entered(h, EstKey(s.tuple), id), r.established, id);
    }
  }

  /** Leaving by one member leaves the agreement on the other tables. */
  lemma LeaveFrames(h: Host, r: Reference, m: Member, id: SockId)
    requires WellLinked(h) && Refines(h, r) && id < |h.socks|
    ensures var h' := Left(h, m, id);
      && (m != HashList || !InEstablished(h, id) ==> EstablishedAgrees(h', r.established))
      && (m != HashList ==> ListenersAgree(h', r.listeners))
      && (m != BindHashList ==> BoundAgrees(h', r.bound))
  {
    if m != HashList || !InEstablished(h, id) { LeaveKeepsMap(h, r.established, m, id); }
    if m != HashList { LeaveKeepsOrder(h, r.listeners, m, id); }
    if m != BindHashList { LeaveKeepsPorts(h, r.bound, m, id); }
  }

  lemma LeaveKeepsMap(h: Host, established: map<Tuple, SockId>, m: Member, id: SockId)
    requires WellLinked(h) && EstablishedAgrees(h, established) && id < |h.socks| && (m != HashList || !InEstablished(h, id))
    ensures EstablishedAgrees(Left(h, m, id), established)
  {
    LeftStanding(h, m, id);
    EstablishedFrame(h, Left(h, m, id), established);
  }

  lemma LeaveKeepsOrder(h: Host, listeners: seq<SockId>, m: Member, id: SockId)
    requires WellLinked(h) && ListenersAgree(h, listeners) && id < |h.socks| && m != HashList
    ensures ListenersAgree(Left(h, m, id), listeners)
  {
    LeftStanding(h, m, id);
    ListenersFrame(h, Left(h, m, id), listeners);
  }

  lemma LeaveKeepsPorts(h: Host, bound: map<u16, SockId>, m: Member, id: SockId)
    requires WellLinked(h) && BoundAgrees(h, bound) && id < |h.socks| && m != BindHashList
    ensures BoundAgrees(Left(h, m, id), bound)
  {
    LeftStanding(h, m, id);
    BoundFrame(h, Left(h, m, id), bound);
  }

  lemma UnhashEstablished(h: Host, r: Reference, id: SockId)
    requires WellLinked(h) && Refines(h, r) && InEstablished(h, id) && !InListen(h, id)
    ensures var h' := Left(h, HashList, id);
      EstablishedAgrees(h', r.established - {h.socks[id].tuple}) && ListenersAgree(h', r.listeners)
  {
    LeaveListen(h, r.listeners, id);
    WithoutAbsent(r.listeners, id);
    LeaveMap(h, r.established, id);
  }

  lemma LeaveMap(h: Host, m: map<Tuple, SockId>, id: SockId)
    requires WellLinked(h) && EstablishedAgrees(h, m) && InEstablished(h, id)
    ensures EstablishedAgrees(Left(h, HashList, id), m - {h.socks[id].tuple})
  {
    LeftStanding(h, HashList, id);
    MapMinus(h, Left(h, HashList, id), m, id);
  }

  lemma LeavePorts(h: Host, m: map<u16, SockId>, id: SockId)
    requires WellLinked(h) && BoundAgrees(h, m) && InBind(h, id)
    ensures BoundAgrees(Left(h, BindHashList, id), m - {h.socks[id].tuple.sport})
  {
    LeftStanding(h, BindHashList, id);
    PortMinus(h, Left(h, BindHashList, id), m, id);
  }

  lemma UnhashRefines(h: Host, r: Reference, id: SockId)
    requires TablesOk(h) && Refines(h, r) && Allowed(h, Unhash(id))
    ensures Refines(UnhashSock(h, id), Reckon(r, h.socks, Unhash(id)))
  {
    LeaveFrames(h, r, HashList, id);
    if h.socks[id].state == Listen {
      assert !InEstablished(h, id);
      LeaveListen(h, r.listeners, id);
    } else {
      assert InEstablished(h, id) && !InListen(h, id);
      UnhashEstablished(h, r, id);
    }
  }

  lemma UnhashBindRefines(h: Host, r: Reference, id: SockId)
    requires TablesOk(h) && Refines(h, r) && Allowed(h, UnhashBind(id))
    ensures Refines(BindUnhash(h, id), Reckon(r, h.socks, UnhashBind(id)))
  {
    LeaveFrames(h, r, BindHashList, id);
    LeavePorts(h, r.bound, id);
  }

  lemma BindRefines(h: Host, r: Reference, id: SockId, port: u16)
    requires TablesOk(h) && Refines(h, r) && Allowed(h, Bind(id, port))
    ensures Refines(After(h, Bind(id, port)), Reckon(r, h.socks, Bind(id, port)))
    ensures TablesOk(After(h, Bind(id, port)))
  {
    PortChoice(h, r, port);
    PortForFree(r.bound.Keys, port);
    if ChoosePort(h, port).Some? {
      BindToRefines(h, r, id, ChoosePort(h, port).value);
    }
  }

  lemma BindToRefines(h: Host, r: Reference, id: SockId, p: u16)
    requires TablesOk(h) && Refines(h, r) && id < |h.socks| && !h.socks[id].released && !Hashed(h, id) && !InBind(h, id)
    requires p !in r.bound
    ensures var h' := BindHash(Update(h, id, h.socks[id].(tuple := h.socks[id].tuple.(sport := p))), id);
      TablesOk(h') && Refines(h', r.(bound := r.bound[p := id]))
  {
    var s := h.socks[id].(tuple := h.socks[id].tuple.(sport := p));
    var h1 := Update(h, id, s);
    ReconfigureKeeps(h, id, s);
    ConfigureRefines(h, r, id, s);
    BindHashKeeps(h1, id);
    EnterFrames(h1, r, BindKey(p), id);
    EnteredStanding(h1, BindKey(p), id);
    PortPlus(h1, Entered(h1, BindKey(p), id), r.bound, id);
  }

  lemma {:induction false} FirstFreeLeast(taken: set<u16>, p: u16)
    ensures match FirstFree(taken, p)
            case Some(q) => p <= q < PORT_MAX && q !in taken && forall x: u16 :: p <= x < q ==> x in taken
            case None => forall x: u16 :: p <= x < PORT_MAX ==> x in taken
    decreases PORT_MAX - p
  {
    if p < PORT_MAX && p in taken {
      FirstFreeLeast(taken, p + 1);
    }
  }

  lemma PortForFree(taken: set<u16>, port: u16)
    ensures PortFor(taken, port).Some? ==> PortFor(taken, port).value !in taken
  {
    FirstFreeLeast(taken, PORT_MIN);
  }

  // Runs

  lemma StepRefines(h: Host, r: Reference, op: Op)
    requires TablesOk(h) && Refines(h, r) && Allowed(h, op)
    ensures TablesOk(After(h, op)) && Refines(After(h, op), Reckon(r, h.socks, op))
  {
    match op
    case NewSock => AllocKeeps(h); NewSockRefines(h, r);
    case Configure(id, t, st) =>
      ReconfigureKeeps(h, id, h.socks[id].(tuple := t, state := st));
      ConfigureRefines(h, r, id, h.socks[id].(tuple := t, state := st));
    case Hash(id) => HashKeeps(h, id); HashRefines(h, r, id);
    case Unhash(id) => UnhashKeeps(h, id); UnhashRefines(h, r, id);
    case Bind(id, port) => BindRefines(h, r, id, port);
    case UnhashBind(id) => BindUnhashKeeps(h, id); UnhashBindRefines(h, r, id);
  }

  predicate AllowedRun(h: Host, ops: seq<Op>)
    decreases |ops|
  {
    ops == [] || (Allowed(h, ops[0]) && AllowedRun(After(h, ops[0]), ops[1..]))
  }

  function RunHost(h: Host, ops: seq<Op>): Host
    requires AllowedRun(h, ops)
    decreases |ops|
  {
    if ops == [] then h else RunHost(After(h, ops[0]), ops[1..])
  }

  function RunReference(r: Reference, h: Host, ops: seq<Op>): Reference
    requires AllowedRun(h, ops)
    decreases |ops|
  {
    if ops == [] then r else RunReference(Reckon(r, h.socks, ops[0]), After(h, ops[0]), ops[1..])
  }

  lemma {:induction false} RunFrom(h: Host, r: Reference, ops: seq<Op>)
    requires TablesOk(h) && Refines(h, r) && AllowedRun(h, ops)
    ensures TablesOk(RunHost(h, ops)) && Refines(RunHost(h, ops), RunReference(r, h, ops))
    decreases |ops|
  {
    if ops != [] {
      StepRefines(h, r, ops[0]);
      RunFrom(After(h, ops[0]), Reckon(r, h.socks, ops[0]), ops[1..]);
    }
  }

  lemma EmptyRefines()
    ensures TablesOk(EmptyHost) && Refines(EmptyHost, Reference(map[], [], map[]))
  {
    EmptyWellLinked();
  }

  /** Any interleaving of table operations from an empty stack: the chains
      answer every lookup as the reference does, and bound ports are distinct. */
  lemma TablesAgree(ops: seq<Op>)
    requires AllowedRun(EmptyHost, ops)
    ensures var h, r := RunHost(EmptyHost, ops), RunReference(Reference(map[], [], map[]), EmptyHost, ops);
      && TablesOk(h)
      && (forall t :: LookupEstablished(h, t) == if t in r.established then Some(r.established[t]) else None)
      && (forall port: u16 :: LookupListen(h, port) == FindPort(h, r.listeners, port))
      && (forall port: u16, l: SockId :: LookupListen(h, port) == Some(l) ==> FirstOn(h, r.listeners, port, l))
      && (forall port: u16 :: PortInUse(h, port) <==> port in r.bound)
      && (forall i: SockId, j: SockId :: InBind(h, i) && InBind(h, j) && h.socks[i].tuple.sport == h.socks[j].tuple.sport ==> i == j)
  {
    EmptyRefines();
    var r0 := Reference(map[], [], map[]);
    RunFrom(EmptyHost, r0, ops);
    var h, r := RunHost(EmptyHost, ops), RunReference(r0, EmptyHost, ops);
    forall t ensures LookupEstablished(h, t) == if t in r.established then Some(r.established[t]) else None {
      EstablishedLookup(h, r, t);
    }
    forall port: u16
      ensures LookupListen(h, port) == FindPort(h, r.listeners, port)
      ensures LookupListen(h, port).Some? ==> FirstOn(h, r.listeners, port, LookupListen(h, port).value)
    {
      ListenLookup(h, r, port);
    }
    forall port: u16 ensures PortInUse(h, port) <==> port in r.bound {
      PortLookup(h, r, port);
    }
  }

  /** A segment goes to the established sock of its mirrored tuple, and to the
      newest listener on its port exactly when there is none. */
  lemma SegmentLookup(h: Host, r: Reference, g: Segment)
    requires Refines(h, r)
    ensures Lookup(h, g) ==
      if Mirror(g.from) in r.established then Some(r.established[Mirror(g.from)]) else FindPort(h, r.listeners, g.from.dport)
  {
    EstablishedLookup(h, r, Mirror(g.from));
    ListenLookup(h, r, g.from.dport);
  }

  // Reference counts

  ghost predicate Holds(h: Host, t: Table, id: SockId) {
    exists b :: 0 <= b < TCP_HASH_SIZE && id in ListOf(h, Bucket(t, b))
  }

  ghost function TablesHolding(h: Host, id: SockId): set<Table> {
    OnlyIf(Holds(h, EstablishedTable, id), EstablishedTable)
      + OnlyIf(Holds(h, ListenTable, id), ListenTable)
      + OnlyIf(Holds(h, BindTable, id), BindTable)
  }

  function OnlyIf(held: bool, t: Table): set<Table> {
    if held then {t} else {}
  }

  lemma HoldsByKey(h: Host, id: SockId)
    requires WellLinked(h) && Placed(h) && id < |h.socks|
    ensures Holds(h, EstablishedTable, id) <==> InEstablished(h, id)
    ensures Holds(h, ListenTable, id) <==> InListen(h, id)
    ensures Holds(h, BindTable, id) <==> InBind(h, id)
    ensures !(InEstablished(h, id) && InListen(h, id))
  {
  }

  /** ref_cnt is the number of tables that hold the sock, and no table holds a
      released one. */
  lemma CountIsHolding(h: Host, id: SockId)
    requires TablesOk(h) && id < |h.socks|
    ensures h.socks[id].refCnt == |TablesHolding(h, id)|
    ensures h.socks[id].released ==> TablesHolding(h, id) == {}
  {
    HoldsByKey(h, id);
    assert RefExact(h, id);
    HoldingSize(Holds(h, EstablishedTable, id), Holds(h, ListenTable, id), Holds(h, BindTable, id));
  }

  lemma HoldingSize(e: bool, l: bool, b: bool)
    ensures |OnlyIf(e, EstablishedTable) + OnlyIf(l, ListenTable) + OnlyIf(b, BindTable)|
         == (if e then 1 else 0) + (if l then 1 else 0) + (if b then 1 else 0)
  {
    var s := OnlyIf(e, EstablishedTable) + OnlyIf(l, ListenTable);
    assert |s| == (if e then 1 else 0) + (if l then 1 else 0);
    assert BindTable !in s;
  }

  /** The counter drops by one only in a step that may release. */
  lemma CounterSteps(h: Host, op: Op, id: SockId)
    requires Allowed(h, op) && id < |h.socks| && !h.socks[id].released
    ensures |After(h, op).socks| >= |h.socks|
    ensures var s, s' := h.socks[id], After(h, op).socks[id];
      s'.released <==> s'.refCnt < s.refCnt && s'.refCnt <= 0
  {
  }

  /** A step releases a sock exactly when it takes it out of its last table. */
  lemma ReleasedOnLeavingLast(h: Host, r: Reference, op: Op, id: SockId)
    requires TablesOk(h) && Refines(h, r) && Allowed(h, op) && id < |h.socks| && !h.socks[id].released
    ensures |After(h, op).socks| >= |h.socks|
    ensures After(h, op).socks[id].released <==>
      TablesHolding(h, id) != {} && TablesHolding(After(h, op), id) == {}
  {
    StepRefines(h, r, op);
    CounterSteps(h, op, id);
    CountIsHolding(h, id);
    CountIsHolding(After(h, op), id);
  }

  // Ports

  function BoundSocks(h: Host): set<SockId> {
    set id | 0 <= id < |h.socks| && InBind(h, id)
  }

  /** As many socks as there are ports in use. */
  lemma {:induction false} PortsTakeSocks(h: Host, r: Reference, n: nat) returns (users: set<SockId>)
    requires BoundAgrees(h, r.bound) && n <= PORT_MAX - PORT_MIN
    requires forall p: u16 :: PORT_MIN <= p < PORT_MIN + n ==> p in r.bound
    ensures |users| == n && users <= BoundSocks(h)
    ensures forall id :: id in users ==> PORT_MIN <= h.socks[id].tuple.sport < PORT_MIN + n
  {
    if n == 0 {
      users := {};
    } else {
      var rest := PortsTakeSocks(h, r, n - 1);
      var p: u16 := PORT_MIN + n - 1;
      assert InBind(h, r.bound[p]) && r.bound[p] !in rest;
      users := rest + {r.bound[p]};
    }
  }

  /** Binding to port 0 takes the least free port of the dynamic range, and
      cannot fail while fewer socks are bound than the range has ports. */
  lemma BindToZero(h: Host, r: Reference)
    requires BoundAgrees(h, r.bound)
    ensures match ChoosePort(h, 0)
            case Some(p) => 12345 <= p < 23456 && p !in r.bound && forall x: u16 :: 12345 <= x < p ==> x in r.bound
            case None => |BoundSocks(h)| >= 11111
  {
    PortChoice(h, r, 0);
    FirstFreeLeast(r.bound.Keys, PORT_MIN);
    if ChoosePort(h, 0).None? {
      AllPortsTaken(h, r);
    }
  }

  lemma AllPortsTaken(h: Host, r: Reference)
    requires BoundAgrees(h, r.bound) && forall p: u16 :: PORT_MIN <= p < PORT_MAX ==> p in r.bound
    ensures |BoundSocks(h)| >= 11111
  {
    var users := PortsTakeSocks(h, r, 11111);
    SubsetSize(users, BoundSocks(h));
  }

  /** Binding to a given port takes exactly that port, unless it is in use. */
  lemma BindToPort(h: Host, r: Reference, id: SockId, port: u16)
    requires TablesOk(h) && BoundAgrees(h, r.bound) && id < |h.socks| && port != 0
    ensures SetSport(h, id, port).None? <==> port in r.bound
    ensures SetSport(h, id, port).Some? ==>
      var h' := SetSport(h, id, port).value;
      InBind(h', id) && h'.socks[id].tuple == h.socks[id].tuple.(sport := port) && h'.socks[id].refCnt == h.socks[id].refCnt + 1
  {
    PortLookup(h, r, port);
    if SetSport(h, id, port).Some? {
      assert id in ListOf(SetSport(h, id, port).value, BindKey(port));
    }
  }

  lemma {:induction false} SubsetSize<T>(a: set<T>, b: set<T>)
    requires a <= b
    ensures |a| <= |b|
  {
    if a != {} {
      var x :| x in a;
      SubsetSize(a - {x}, b - {x});
    }
  }
}
