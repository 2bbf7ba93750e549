/** What each call of the socket interface leaves behind, in full. */
module Calls {
  import opened Base
  import opened Segments
  import opened Hosts
  import opened Tables
  import opened Queues

  /** listen: the sock keeps everything but its backlog, state and count, and the
      next lookup on its port finds it, whoever listened there before. */
  lemma ListenFinds(h: Host, id: SockId, backlog: int)
    requires HostOk(h) && Idle(h, id)
    ensures ListenOn(h, id, backlog).Some?
    ensures var h', s := ListenOn(h, id, backlog).value, h.socks[id];
      && h'.socks == h.socks[id := s.(backlog := backlog, state := Listen, refCnt := s.refCnt + 1)]
      && InListen(h', id) && LookupListen(h', s.tuple.sport) == Some(id)
  {
    ListenHost(h, id, backlog);
    ListenLater(h, id, backlog);
    ListenFirst(h, id, backlog);
  }

  lemma ListenFirst(h: Host, id: SockId, backlog: int)
    requires Idle(h, id) && ListenOn(h, id, backlog).Some?
    ensures var h', s := ListenOn(h, id, backlog).value, h.socks[id];
      && h'.socks == h.socks[id := s.(backlog := backlog, state := Listen, refCnt := s.refCnt + 1)]
      && InListen(h', id) && LookupListen(h', s.tuple.sport) == Some(id)
  {
    var h', port := ListenOn(h, id, backlog).value, h.socks[id].tuple.sport;
    assert ListOf(h', ListenKey(port)) == [id] + ListOf(h, ListenKey(port));
  }

  /** connect: the sock is bound under its 4-tuple, has sent one SYN, and is in the
      established table if and only if nobody there had the 4-tuple. */
  lemma ConnectEnters(h: Host, id: SockId, t: Tuple)
    requires HostOk(h) && Idle(h, id) && !InBind(h, id)
    ensures var h', s := Connect(h, id, t), h.socks[id];
      && (InEstablished(h', id) <==> TupleFree(h, t)) && InBind(h', id)
      && h'.socks == h.socks[id := s.(tuple := t, state := SynSent, sndNxt := (s.sndNxt + 1) % TWO32,
           refCnt := s.refCnt + if TupleFree(h, t) then 2 else 1)]
    ensures ConnectSegment(h, id, t) == Segment(t, h.socks[id].sndNxt, h.socks[id].rcvNxt, 0x02, h.socks[id].rcvWnd, 0)
  {
    var h1 := ConnectHalf(h, id, t);
    ConnectSecond(h, h1, id, t);
  }

  /** Between the two halves: bound under the tuple, and not hashed yet. */
  ghost predicate Halfway(h: Host, h1: Host, id: SockId, t: Tuple) {
    && id < |h.socks| && h1.socks == h.socks[id := h.socks[id].(tuple := t, refCnt := h.socks[id].refCnt + 1)]
    && TablesOk(h1) && !Hashed(h1, id) && InBind(h1, id) && (TupleFree(h1, t) <==> TupleFree(h, t))
  }

  function SecondHalf(h1: Host, id: SockId): Host
    requires id < |h1.socks|
  {
    HashAnyway(Update(h1, id, AfterControl(h1.socks[id], SYN).(state := SynSent)), id)
  }

  lemma ConnectHalf(h: Host, id: SockId, t: Tuple) returns (h1: Host)
    requires HostOk(h) && Idle(h, id) && !InBind(h, id)
    ensures Halfway(h, h1, id, t) && Connect(h, id, t) == SecondHalf(h1, id)
    ensures ConnectSegment(h, id, t) == Segment(t, h.socks[id].sndNxt, h.socks[id].rcvNxt, 0x02, h.socks[id].rcvWnd, 0)
  {
    h1 := BindHash(Update(h, id, h.socks[id].(tuple := t)), id);
    ConnectBound(h, id, t);
    SameFree(h, h1, id, t);
    ConnectIs(h, h1, id, t);
  }

  lemma ConnectSecond(h: Host, h1: Host, id: SockId, t: Tuple)
    requires Halfway(h, h1, id, t)
    ensures var h', s := SecondHalf(h1, id), h.socks[id];
      && (InEstablished(h', id) <==> TupleFree(h, t)) && InBind(h', id)
      && h'.socks == h.socks[id := s.(tuple := t, state := SynSent, sndNxt := (s.sndNxt + 1) % TWO32,
           refCnt := s.refCnt + if TupleFree(h, t) then 2 else 1)]
  {
    ConnectHashed(h1, id);
    SocksJoined(h.socks, h1.socks, SecondHalf(h1, id).socks, id, t, TupleFree(h, t));
  }

  lemma ConnectIs(h: Host, h1: Host, id: SockId, t: Tuple)
    requires id < |h.socks| && h1 == BindHash(Update(h, id, h.socks[id].(tuple := t)), id)
    ensures h1.socks == h.socks[id := h.socks[id].(tuple := t, refCnt := h.socks[id].refCnt + 1)]
    ensures Connect(h, id, t) == HashAnyway(Update(h1, id, AfterControl(h1.socks[id], SYN).(state := SynSent)), id)
    ensures ConnectSegment(h, id, t) == Segment(t, h.socks[id].sndNxt, h.socks[id].rcvNxt, 0x02, h.socks[id].rcvWnd, 0)
  {
  }

  lemma SocksJoined(socks: seq<Sock>, bound: seq<Sock>, final: seq<Sock>, id: SockId, t: Tuple, free: bool)
    requires id < |socks| && bound == socks[id := socks[id].(tuple := t, refCnt := socks[id].refCnt + 1)]
    requires final == bound[id := bound[id].(state := SynSent, sndNxt := (bound[id].sndNxt + 1) % TWO32,
      refCnt := bound[id].refCnt + if free then 1 else 0)]
    ensures final == socks[id := socks[id].(tuple := t, state := SynSent, sndNxt := (socks[id].sndNxt + 1) % TWO32,
      refCnt := socks[id].refCnt + if free then 2 else 1)]
  {
  }

  lemma ConnectBound(h: Host, id: SockId, t: Tuple)
    requires HostOk(h) && Idle(h, id) && !InBind(h, id)
    ensures var h1 := BindHash(Update(h, id, h.socks[id].(tuple := t)), id);
      && TablesOk(h1) && !Hashed(h1, id) && InBind(h1, id)
      && (forall i: SockId :: i != id ==> InEstablished(h1, i) == InEstablished(h, i))
  {
    var s := h.socks[id].(tuple := t);
    ReconfigureKeeps(h, id, s);
    UpdateOthers(h, id, s);
    BindHashKeeps(Update(h, id, s), id);
    EnteredStanding(Update(h, id, s), BindKey(t.sport), id);
    forall i: SockId | i != id ensures InEstablished(BindHash(Update(h, id, s), id), i) == InEstablished(h, i) {
      assert SameTables(h, Update(h, id, s), i);
    }
  }

  lemma SameFree(h: Host, h1: Host, id: SockId, t: Tuple)
    requires id < |h.socks| && !Hashed(h, id) && !Hashed(h1, id) && |h1.socks| == |h.socks|
    requires forall i: SockId :: i != id ==> InEstablished(h1, i) == InEstablished(h, i)
    requires forall i :: 0 <= i < |h.socks| && i != id ==> h1.socks[i] == h.socks[i]
    ensures TupleFree(h1, t) <==> TupleFree(h, t)
  {
    forall i: SockId ensures InEstablished(h1, i) && h1.socks[i].tuple == t <==> InEstablished(h, i) && h.socks[i].tuple == t {
      assert i != id ==> InEstablished(h1, i) == InEstablished(h, i);
    }
    if TupleFree(h, t) {
      forall i: SockId | InEstablished(h1, i) ensures h1.socks[i].tuple != t {}
    }
    if TupleFree(h1, t) {
      forall i: SockId | InEstablished(h, i) ensures h.socks[i].tuple != t {}
    }
  }

  /** The second half: SYN, state, established table. */
  lemma ConnectHashed(h1: Host, id: SockId)
    requires TablesOk(h1) && id < |h1.socks| && !Hashed(h1, id) && InBind(h1, id)
    ensures var s := h1.socks[id];
      var h' := SecondHalf(h1, id);
      && (InEstablished(h', id) <==> TupleFree(h1, s.tuple)) && InBind(h', id)
      && h'.socks == h1.socks[id := s.(state := SynSent, sndNxt := (s.sndNxt + 1) % TWO32,
           refCnt := s.refCnt + if TupleFree(h1, s.tuple) then 1 else 0)]
  {
    var s := h1.socks[id];
    var s2 := AfterControl(s, SYN).(state := SynSent);
    var h2 := Update(h1, id, s2);
    FreeIffNotFound(h1, h2, id);
    FlagNumbers();
    HashPlain(h1, h2, id);
  }

  /** tcp_hash on a sock in SYN_SENT */
  lemma HashPlain(h1: Host, h2: Host, id: SockId)
    requires id < |h2.socks| == |h1.socks| && h2.socks[id].state == SynSent && !Hashed(h1, id) && InBind(h1, id)
    requires h2.lists == h1.lists && h2.socks[id].tuple == h1.socks[id].tuple
    ensures var h', free := HashAnyway(h2, id), LookupEstablished(h2, h2.socks[id].tuple).None?;
      && (InEstablished(h', id) <==> free) && InBind(h', id)
      && h'.socks == h2.socks[id := h2.socks[id].(refCnt := h2.socks[id].refCnt + if free then 1 else 0)]
  {
  }

  lemma FreeIffNotFound(h1: Host, h2: Host, id: SockId)
    requires TablesOk(h1) && id < |h1.socks| && !Hashed(h1, id) && h2.lists == h1.lists && |h2.socks| == |h1.socks|
    requires h2.socks[id].tuple == h1.socks[id].tuple && forall i :: 0 <= i < |h1.socks| ==> h2.socks[i].tuple == h1.socks[i].tuple
    ensures LookupEstablished(h2, h1.socks[id].tuple).None? <==> TupleFree(h1, h1.socks[id].tuple)
  {
    var t := h1.socks[id].tuple;
    FindTupleFinds(h2, ListOf(h2, EstKey(t)), t);
    var r := LookupEstablished(h2, t);
    if r.Some? {
      assert InEstablished(h1, r.value);
    } else {
      forall i: SockId | InEstablished(h1, i) ensures h1.socks[i].tuple != t {}
    }
  }

  /** accept: the front of the listener's queue goes, the count drops, and nothing
      else changes. */
  lemma AcceptTakes(h: Host, l: SockId)
    requires HostOk(h) && l < |h.socks| && ListOf(h, AcceptQueue(l)) != []
    ensures var h', q := AcceptDequeue(h, l), ListOf(h, AcceptQueue(l));
      && h'.socks == h.socks[l := h.socks[l].(acceptBacklog := |q| - 1)]
      && (forall p: SockId :: ListOf(h', AcceptQueue(p)) == if p == l then q[1..] else ListOf(h, AcceptQueue(p)))
      && (forall p: SockId :: ListOf(h', ListenQueue(p)) == ListOf(h, ListenQueue(p)))
  {
    FrontQueuedOnce(h, l);
    DequeuedLists(h, l);
  }
}
