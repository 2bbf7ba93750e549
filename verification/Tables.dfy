/** What every operation on the socket tables keeps. */
module Tables {
  import opened Base
  import opened Segments
  import opened TcpHash
  import opened Hosts

  predicate ProperList(k: ListId, n: nat) {
    match k
    case Bucket(_, i) => i < TCP_HASH_SIZE
    case ListenQueue(s) => s < n
    case AcceptQueue(s) => s < n
  }

  /** The lists are those of the tables and of the allocated socks; each holds
      allocated socks; a member of a sock is linked at most once overall. */
  ghost predicate WellLinked(h: Host) {
    && (forall k :: k in h.lists <==> ProperList(k, |h.socks|))
    && (forall k, id :: k in h.lists && id in h.lists[k] ==> id < |h.socks|)
    && (forall k :: k in h.lists ==> Distinct(h.lists[k]))
    && (forall k, g, id :: k in h.lists && g in h.lists && k != g && MemberOf(k) == MemberOf(g) && id in h.lists[k]
          ==> id !in h.lists[g])
  }

  lemma EmptyWellLinked()
    ensures WellLinked(EmptyHost)
    ensures forall k :: k in EmptyHost.lists ==> EmptyHost.lists[k] == []
  {
    forall k | ProperList(k, 0) ensures k in EmptyHost.lists {
      match k.table
      case EstablishedTable => assert k == Bucket(EstablishedTable, k.index);
      case ListenTable => assert k == Bucket(ListenTable, k.index);
      case BindTable => assert k == Bucket(BindTable, k.index);
    }
  }

  ghost predicate LinkedBy(h: Host, m: Member, id: SockId) {
    exists k :: k in h.lists && MemberOf(k) == m && id in h.lists[k]
  }

  /** A sock in a bucket has the state and key that the bucket is for. */
  predicate Fits(s: Sock, k: ListId) {
    match k
    case Bucket(EstablishedTable, _) => k == EstKey(s.tuple) && s.state != Closed && s.state != Listen
    case Bucket(ListenTable, _) => k == ListenKey(s.tuple.sport) && s.state == Listen
    case Bucket(BindTable, _) => k == BindKey(s.tuple.sport)
    case _ => true
  }

  ghost predicate Placed(h: Host)
    requires WellLinked(h)
  {
    forall k, id :: k in h.lists && id in h.lists[k] ==> Fits(h.socks[id], k)
  }

  predicate InEstablished(h: Host, id: SockId) {
    id < |h.socks| && id in ListOf(h, EstKey(h.socks[id].tuple))
  }

  predicate InListen(h: Host, id: SockId) {
    id < |h.socks| && id in ListOf(h, ListenKey(h.socks[id].tuple.sport))
  }

  predicate InBind(h: Host, id: SockId) {
    id < |h.socks| && id in ListOf(h, BindKey(h.socks[id].tuple.sport))
  }

  predicate Hashed(h: Host, id: SockId) {
    InEstablished(h, id) || InListen(h, id)
  }

  /** No two socks of the established table have the same 4-tuple. */
  ghost predicate TuplesUnique(h: Host) {
    forall i: SockId, j: SockId ::
      InEstablished(h, i) && InEstablished(h, j) && h.socks[i].tuple == h.socks[j].tuple ==> i == j
  }

  /** The number of tables that hold the sock. */
  function Count(h: Host, id: SockId): nat {
    (if Hashed(h, id) then 1 else 0) + (if InBind(h, id) then 1 else 0)
  }

  predicate RefExact(h: Host, id: SockId)
    requires id < |h.socks|
  {
    h.socks[id].refCnt == Count(h, id) && (h.socks[id].released ==> Count(h, id) == 0)
  }

  ghost predicate RefsExact(h: Host) {
    forall id :: 0 <= id < |h.socks| ==> RefExact(h, id)
  }

  ghost predicate TablesOk(h: Host) {
    WellLinked(h) && Placed(h) && TuplesUnique(h) && RefsExact(h)
  }

  // Membership of a chain, stated without the search

  lemma {:induction false} FindTupleFinds(h: Host, ids: seq<SockId>, t: Tuple)
    ensures match FindTuple(h, ids, t)
            case Some(id) => id in ids && id < |h.socks| && h.socks[id].tuple == t
            case None => forall id :: id in ids && id < |h.socks| ==> h.socks[id].tuple != t
  {
    if ids != [] {
      FindTupleFinds(h, ids[1..], t);
    }
  }

  /** id is in the chain, and no sock before it has the port. */
  ghost predicate FirstOn(h: Host, ids: seq<SockId>, port: u16, id: SockId) {
    exists i :: 0 <= i < |ids| && ids[i] == id && NoneBefore(h, ids, port, i)
  }

  predicate NoneBefore(h: Host, ids: seq<SockId>, port: u16, i: nat) {
    forall j :: 0 <= j < i && j < |ids| && ids[j] < |h.socks| ==> h.socks[ids[j]].tuple.sport != port
  }

  lemma {:induction false} FindPortFinds(h: Host, ids: seq<SockId>, port: u16)
    ensures match FindPort(h, ids, port)
            case Some(id) => id < |h.socks| && h.socks[id].tuple.sport == port && FirstOn(h, ids, port, id)
            case None => forall id :: id in ids && id < |h.socks| ==> h.socks[id].tuple.sport != port
  {
    if ids != [] {
      FindPortFinds(h, ids[1..], port);
    }
  }

  lemma {:induction false} WithoutKeeps<T>(s: seq<T>, x: T)
    requires Distinct(s)
    ensures Distinct(Without(s, x))
    ensures forall y :: y in Without(s, x) <==> y in s && y != x
  {
    if x in s {
      var i :| 0 <= i < |s| && s[i] == x;
      WithoutAt(s, i);
    } else {
      WithoutAbsent(s, x);
    }
  }

  lemma HashedIsLinked(h: Host, id: SockId)
    requires WellLinked(h) && Placed(h) && id < |h.socks|
    ensures Hashed(h, id) <==> LinkedBy(h, HashList, id)
    ensures InBind(h, id) <==> LinkedBy(h, BindHashList, id)
  {
  }

  // Linking and unlinking

  lemma PushKeepsLinks(h: Host, k: ListId, id: SockId)
    requires WellLinked(h) && k in h.lists && id < |h.socks| && !LinkedBy(h, MemberOf(k), id)
    ensures WellLinked(Push(h, k, id))
    ensures WellLinked(Append(h, k, id))
  {
  }

  lemma UnlinkKeepsLinks(h: Host, m: Member, id: SockId)
    requires WellLinked(h)
    ensures WellLinked(Unlink(h, m, id))
    ensures !LinkedBy(Unlink(h, m, id), m, id)
    ensures forall k, i :: k in h.lists && (MemberOf(k) != m || i != id) ==>
      (i in h.lists[k] <==> i in Unlink(h, m, id).lists[k])
  {
    forall k | k in h.lists
      ensures Distinct(Without(h.lists[k], id))
      ensures forall y :: y in Without(h.lists[k], id) <==> y in h.lists[k] && y != id
    {
      WithoutKeeps(h.lists[k], id);
    }
  }

  // The operations keep the tables in order

  /** A step that concerns one sock and leaves every other where it was. */
  ghost predicate OthersKept(h: Host, h': Host, id: SockId) {
    && |h.socks| == |h'.socks|
    && forall i :: 0 <= i < |h.socks| && i != id ==> h'.socks[i] == h.socks[i] && SameTables(h, h', i)
  }

  /** The same tables hold the sock before and after. */
  predicate SameTables(h: Host, h': Host, id: SockId) {
    && InEstablished(h', id) == InEstablished(h, id)
    && InListen(h', id) == InListen(h, id)
    && InBind(h', id) == InBind(h, id)
  }

  ghost predicate TupleFree(h: Host, t: Tuple) {
    forall i: SockId :: InEstablished(h, i) ==> h.socks[i].tuple != t
  }

  lemma Settle(h: Host, h': Host, id: SockId)
    requires TuplesUnique(h) && RefsExact(h) && OthersKept(h, h', id) && id < |h.socks| && RefExact(h', id)
    requires InEstablished(h', id) ==>
      TupleFree(h, h'.socks[id].tuple) || (InEstablished(h, id) && h'.socks[id].tuple == h.socks[id].tuple)
    ensures TuplesUnique(h') && RefsExact(h')
  {
    forall i | 0 <= i < |h'.socks| ensures RefExact(h', i) {
      assert i != id ==> RefExact(h, i) && SameTables(h, h', i);
    }
    forall i: SockId | i != id && InEstablished(h', i) ensures InEstablished(h, i) && h'.socks[i] == h.socks[i] {
      assert SameTables(h, h', i);
    }
  }

  lemma AllocWellLinked(h: Host)
    requires WellLinked(h)
    ensures WellLinked(Alloc(h))
    ensures forall m: Member :: !LinkedBy(Alloc(h), m, |h.socks|)
  {
  }

  lemma AllocLinks(h: Host)
    requires WellLinked(h) && Placed(h)
    ensures WellLinked(Alloc(h)) && Placed(Alloc(h))
  {
    AllocWellLinked(h);
  }

  lemma AllocMembers(h: Host)
    requires WellLinked(h)
    ensures forall g, i :: i in ListOf(Alloc(h), g) <==> i in ListOf(h, g)
    ensures forall g :: |h.socks| !in ListOf(h, g)
  {
  }

  lemma AllocStanding(h: Host, i: SockId)
    requires WellLinked(h)
    ensures SameTables(h, Alloc(h), i)
  {
    AllocMembers(h);
  }

  lemma AllocCounts(h: Host)
    requires WellLinked(h) && TuplesUnique(h) && RefsExact(h)
    ensures TuplesUnique(Alloc(h)) && RefsExact(Alloc(h))
  {
    var h' := Alloc(h);
    forall i | 0 <= i < |h'.socks| ensures RefExact(h', i) {
      AllocStanding(h, i);
      assert i < |h.socks| ==> RefExact(h, i);
    }
    forall i: SockId, j: SockId | InEstablished(h', i) && InEstablished(h', j) && h'.socks[i].tuple == h'.socks[j].tuple
      ensures i == j
    {
      AllocStanding(h, i);
      AllocStanding(h, j);
    }
  }

  lemma AllocKeeps(h: Host)
    requires TablesOk(h)
    ensures TablesOk(Alloc(h)) && Count(Alloc(h), |h.socks|) == 0
  {
    AllocLinks(h);
    AllocCounts(h);
    AllocStanding(h, |h.socks|);
  }

  /** Updates of what the tables do not look at. */
  predicate SameKeys(s: Sock, s': Sock) {
    && s'.tuple == s.tuple && s'.refCnt == s.refCnt && s'.released == s.released
    && (s'.state == Listen <==> s.state == Listen) && (s'.state == Closed <==> s.state == Closed)
  }

  lemma UpdatePlaced(h: Host, id: SockId, s: Sock)
    requires WellLinked(h) && Placed(h) && id < |h.socks|
    requires SameKeys(h.socks[id], s) || (!Hashed(h, id) && (InBind(h, id) ==> s.tuple.sport == h.socks[id].tuple.sport))
    ensures WellLinked(Update(h, id, s)) && Placed(Update(h, id, s))
  {
    HashedIsLinked(h, id);
  }

  lemma UpdateOthers(h: Host, id: SockId, s: Sock)
    requires id < |h.socks|
    ensures OthersKept(h, Update(h, id, s), id)
  {
    assert forall g :: ListOf(Update(h, id, s), g) == ListOf(h, g);
  }

  lemma UpdateKeeps(h: Host, id: SockId, s: Sock)
    requires TablesOk(h) && id < |h.socks| && SameKeys(h.socks[id], s)
    ensures TablesOk(Update(h, id, s))
  {
    UpdatePlaced(h, id, s);
    assert RefExact(h, id);
    UpdateOthers(h, id, s);
    Settle(h, Update(h, id, s), id);
  }

  lemma UpdateStanding(h: Host, id: SockId, s: Sock)
    requires WellLinked(h) && Placed(h) && id < |h.socks| && !Hashed(h, id)
    requires InBind(h, id) ==> s.tuple.sport == h.socks[id].tuple.sport
    ensures !Hashed(Update(h, id, s), id)
    ensures InBind(Update(h, id, s), id) <==> InBind(h, id)
  {
    HashedIsLinked(h, id);
    assert forall g :: ListOf(Update(h, id, s), g) == ListOf(h, g);
  }

  /** A sock in neither hash table may take any state, and any tuple that
      agrees with the port it is bound to. */
  lemma ReconfigureKeeps(h: Host, id: SockId, s: Sock)
    requires TablesOk(h) && id < |h.socks| && !Hashed(h, id)
    requires s.refCnt == h.socks[id].refCnt && s.released == h.socks[id].released
    requires InBind(h, id) ==> s.tuple.sport == h.socks[id].tuple.sport
    ensures TablesOk(Update(h, id, s)) && !Hashed(Update(h, id, s), id)
    ensures InBind(Update(h, id, s), id) <==> InBind(h, id)
  {
    var h' := Update(h, id, s);
    UpdatePlaced(h, id, s);
    UpdateOthers(h, id, s);
    UpdateStanding(h, id, s);
    assert RefExact(h, id);
    Settle(h, h', id);
  }

  /** The host with id newly linked at the head of bucket k and counted. */
  function Entered(h: Host, k: ListId, id: SockId): Host
    requires id < |h.socks|
  {
    AddRef(Push(h, k, id), id)
  }

  lemma EnteredMembers(h: Host, k: ListId, id: SockId)
    requires id < |h.socks|
    ensures forall g, i :: i in ListOf(Entered(h, k, id), g) <==> i in ListOf(h, g) || (g == k && i == id)
  {
  }

  lemma EnteredPlaced(h: Host, k: ListId, id: SockId)
    requires WellLinked(h) && Placed(h) && id < |h.socks| && k in h.lists && Fits(h.socks[id], k)
    requires !LinkedBy(h, MemberOf(k), id)
    ensures WellLinked(Entered(h, k, id)) && Placed(Entered(h, k, id))
  {
    PushKeepsLinks(h, k, id);
    EnteredMembers(h, k, id);
  }

  lemma EnteredOthers(h: Host, k: ListId, id: SockId)
    requires id < |h.socks| && k.Bucket?
    ensures OthersKept(h, Entered(h, k, id), id)
  {
    EnteredMembers(h, k, id);
  }

  lemma EnteredSelf(h: Host, k: ListId, id: SockId)
    requires id < |h.socks| && k.Bucket? && Fits(h.socks[id], k)
    ensures var h' := Entered(h, k, id);
      && (InEstablished(h', id) <==> InEstablished(h, id) || k.table == EstablishedTable)
      && (InListen(h', id) <==> InListen(h, id) || k.table == ListenTable)
      && (InBind(h', id) <==> InBind(h, id) || k.table == BindTable)
  {
    EnteredMembers(h, k, id);
  }

  lemma EnteredKeeps(h: Host, k: ListId, id: SockId)
    requires TablesOk(h) && id < |h.socks| && !h.socks[id].released && k in h.lists && k.Bucket? && Fits(h.socks[id], k)
    requires if k.table == BindTable then !InBind(h, id) else !Hashed(h, id)
    requires k.table == EstablishedTable ==> TupleFree(h, h.socks[id].tuple)
    ensures TablesOk(Entered(h, k, id))
  {
    HashedIsLinked(h, id);
    assert RefExact(h, id);
    EnteredPlaced(h, k, id);
    EnteredOthers(h, k, id);
    EnteredSelf(h, k, id);
    Settle(h, Entered(h, k, id), id);
  }

  /** Which tables hold which sock after id has entered k. */
  lemma EnteredStanding(h: Host, k: ListId, id: SockId)
    requires id < |h.socks| && k.Bucket? && Fits(h.socks[id], k)
    ensures var h' := Entered(h, k, id);
      && (forall i: SockId :: InEstablished(h', i) <==> InEstablished(h, i) || (i == id && k.table == EstablishedTable))
      && (forall i: SockId :: InListen(h', i) <==> InListen(h, i) || (i == id && k.table == ListenTable))
      && (forall i: SockId :: InBind(h', i) <==> InBind(h, i) || (i == id && k.table == BindTable))
  {
    var h' := Entered(h, k, id);
    EnteredOthers(h, k, id);
    EnteredSelf(h, k, id);
    forall i: SockId | i != id ensures SameTables(h, h', i) {}
  }

  /** tcp_hash fails exactly on a closed sock or a 4-tuple that is taken. */
  lemma HashKeeps(h: Host, id: SockId)
    requires TablesOk(h) && id < |h.socks| && !Hashed(h, id) && !h.socks[id].released
    ensures HashSock(h, id).None? <==>
      h.socks[id].state == Closed || (h.socks[id].state != Listen && !TupleFree(h, h.socks[id].tuple))
    ensures HashSock(h, id).Some? ==> TablesOk(HashSock(h, id).value) && Hashed(HashSock(h, id).value, id)
  {
    var s := h.socks[id];
    FindTupleFinds(h, ListOf(h, EstKey(s.tuple)), s.tuple);
    if s.state == Listen {
      EnteredKeeps(h, ListenKey(s.tuple.sport), id);
      EnteredSelf(h, ListenKey(s.tuple.sport), id);
    } else if HashSock(h, id).Some? {
      EnteredKeeps(h, EstKey(s.tuple), id);
      EnteredSelf(h, EstKey(s.tuple), id);
    }
  }

  lemma BindHashKeeps(h: Host, id: SockId)
    requires TablesOk(h) && id < |h.socks| && !InBind(h, id) && !h.socks[id].released
    ensures TablesOk(BindHash(h, id)) && InBind(BindHash(h, id), id)
    ensures Hashed(BindHash(h, id), id) <==> Hashed(h, id)
  {
    EnteredKeeps(h, BindKey(h.socks[id].tuple.sport), id);
    EnteredSelf(h, BindKey(h.socks[id].tuple.sport), id);
  }

  /** The host with id unlinked by one member and its reference dropped. */
  function Left(h: Host, m: Member, id: SockId): Host
    requires id < |h.socks|
  {
    DropRef(Unlink(h, m, id), id)
  }

  lemma LeftMembers(h: Host, m: Member, id: SockId)
    requires WellLinked(h) && id < |h.socks|
    ensures WellLinked(Left(h, m, id))
    ensures forall g, i :: i in ListOf(Left(h, m, id), g) <==> i in ListOf(h, g) && (MemberOf(g) != m || i != id)
  {
    UnlinkKeepsLinks(h, m, id);
  }

  lemma LeftPlaced(h: Host, m: Member, id: SockId)
    requires WellLinked(h) && Placed(h) && id < |h.socks|
    ensures WellLinked(Left(h, m, id)) && Placed(Left(h, m, id))
  {
    var h' := Left(h, m, id);
    LeftMembers(h, m, id);
    forall k, i | k in h'.lists && i in h'.lists[k] ensures Fits(h'.socks[i], k) {
      assert i in ListOf(h', k);
      assert i in h.lists[k];
    }
  }

  lemma LeftOthers(h: Host, m: Member, id: SockId)
    requires WellLinked(h) && id < |h.socks|
    ensures OthersKept(h, Left(h, m, id), id)
  {
    LeftMembers(h, m, id);
  }

  lemma LeftSelf(h: Host, m: Member, id: SockId)
    requires WellLinked(h) && id < |h.socks|
    ensures var h' := Left(h, m, id);
      && (InEstablished(h', id) <==> InEstablished(h, id) && m != HashList)
      && (InListen(h', id) <==> InListen(h, id) && m != HashList)
      && (InBind(h', id) <==> InBind(h, id) && m != BindHashList)
  {
    LeftMembers(h, m, id);
  }

  /** Which tables hold which sock after id has left by member m. */
  lemma LeftStanding(h: Host, m: Member, id: SockId)
    requires WellLinked(h) && id < |h.socks|
    ensures var h' := Left(h, m, id);
      && (forall i: SockId :: InEstablished(h', i) <==> InEstablished(h, i) && !(i == id && m == HashList))
      && (forall i: SockId :: InListen(h', i) <==> InListen(h, i) && !(i == id && m == HashList))
      && (forall i: SockId :: InBind(h', i) <==> InBind(h, i) && !(i == id && m == BindHashList))
  {
    var h' := Left(h, m, id);
    LeftOthers(h, m, id);
    LeftSelf(h, m, id);
    forall i: SockId | i != id ensures SameTables(h, h', i) {}
  }

  /** Leaving a table releases the sock exactly when no other table holds it. */
  lemma UnhashKeeps(h: Host, id: SockId)
    requires TablesOk(h) && Hashed(h, id)
    ensures TablesOk(UnhashSock(h, id)) && !Hashed(UnhashSock(h, id), id)
    ensures UnhashSock(h, id).socks[id].released <==> !InBind(h, id)
  {
    LeftPlaced(h, HashList, id);
    LeftOthers(h, HashList, id);
    LeftSelf(h, HashList, id);
    assert RefExact(h, id);
    Settle(h, Left(h, HashList, id), id);
  }

  lemma BindUnhashKeeps(h: Host, id: SockId)
    requires TablesOk(h) && InBind(h, id)
    ensures TablesOk(BindUnhash(h, id)) && !InBind(BindUnhash(h, id), id)
    ensures BindUnhash(h, id).socks[id].released <==> !Hashed(h, id)
  {
    LeftPlaced(h, BindHashList, id);
    LeftOthers(h, BindHashList, id);
    LeftSelf(h, BindHashList, id);
    assert RefExact(h, id);
    Settle(h, Left(h, BindHashList, id), id);
  }
}
