/** How the lists of a host lie on the heap: every head and every node has its
    cell, and the host's lists spell out a forest of circular lists. */
module Layout {
  import opened Base
  import opened Hosts
  import opened Tables
  import opened ListHeads

  type Cells = map<Place, ListHead>

  predicate ProperPlace(p: Place, n: nat) {
    match p
    case Head(k) => ProperList(k, n)
    case Node(_, i) => i < n
  }

  /** Each place of a host with n socks has a cell of its own. */
  ghost predicate Laid(at: Cells, n: nat) {
    && (forall p :: p in at <==> ProperPlace(p, n))
    && (forall p :: p in at ==> at[p].place == p)
  }

  /** The nodes that link these socks by member m. */
  ghost function Row(at: Cells, m: Member, ids: seq<SockId>): seq<ListHead>
    requires forall i :: i in ids ==> Node(m, i) in at
  {
    if ids == [] then [] else [at[Node(m, ids[0])]] + Row(at, m, ids[1..])
  }

  ghost predicate Fitting(at: Cells, h: Host) {
    Laid(at, |h.socks|) && WellLinked(h)
  }

  ghost function HeadsOf(at: Cells): set<ListHead> {
    set p | p in at && p.Head? :: at[p]
  }

  /** The forest that the lists of h spell out. */
  ghost function ForestOf(h: Host, at: Cells): Forest
    requires Fitting(at, h)
  {
    map c | c in HeadsOf(at) :: Row(at, MemberOf(c.place.list), h.lists[c.place.list])
  }

  lemma {:induction false} RowAt(at: Cells, m: Member, ids: seq<SockId>)
    requires forall i :: i in ids ==> Node(m, i) in at
    ensures |Row(at, m, ids)| == |ids|
    ensures forall i :: 0 <= i < |ids| ==> Row(at, m, ids)[i] == at[Node(m, ids[i])]
  {
    if ids != [] {
      RowAt(at, m, ids[1..]);
    }
  }

  lemma {:induction false} RowAppend(at: Cells, m: Member, a: seq<SockId>, b: seq<SockId>)
    requires forall i :: i in a + b ==> Node(m, i) in at
    ensures (forall i :: i in a ==> i in a + b) && (forall i :: i in b ==> i in a + b)
    ensures Row(at, m, a + b) == Row(at, m, a) + Row(at, m, b)
  {
    if a == [] {
      assert a + b == b;
    } else {
      assert (a + b)[1..] == a[1..] + b;
      RowAppend(at, m, a[1..], b);
    }
  }

  lemma {:induction false} RowWithout(at: Cells, m: Member, ids: seq<SockId>, id: SockId)
    requires (forall i :: i in ids ==> Node(m, i) in at) && Node(m, id) in at
    requires forall p :: p in at ==> at[p].place == p
    ensures forall i :: i in Without(ids, id) ==> i in ids
    ensures Row(at, m, Without(ids, id)) == Without(Row(at, m, ids), at[Node(m, id)])
  {
    if ids != [] {
      RowWithout(at, m, ids[1..], id);
      var rest, kept := Row(at, m, ids[1..]), Without(ids[1..], id);
      assert ([at[Node(m, ids[0])]] + rest)[1..] == rest;
      assert ([ids[0]] + kept)[1..] == kept;
      assert at[Node(m, ids[0])].place == Node(m, ids[0]) && at[Node(m, id)].place == Node(m, id);
    }
  }

  /** A row of another member does not hold this node. */
  lemma {:induction false} RowForeign(at: Cells, m: Member, ids: seq<SockId>, n: ListHead)
    requires forall i :: i in ids ==> Node(m, i) in at
    requires forall p :: p in at ==> at[p].place == p
    requires n.place.Node? && n.place.member != m
    ensures n !in Row(at, m, ids)
  {
    RowAt(at, m, ids);
  }

  lemma HeadPresent(h: Host, at: Cells, k: ListId)
    requires Fitting(at, h) && k in h.lists
    ensures Head(k) in at && at[Head(k)].place == Head(k) && at[Head(k)] in ForestOf(h, at)
    ensures ForestOf(h, at)[at[Head(k)]] == Row(at, MemberOf(k), h.lists[k])
  {
  }

  lemma NodePresent(h: Host, at: Cells, m: Member, id: SockId)
    requires Fitting(at, h) && id < |h.socks|
    ensures Node(m, id) in at && at[Node(m, id)].place == Node(m, id) && at[Node(m, id)] !in ForestOf(h, at)
  {
  }

  /** A node is in the forest exactly when its sock is in one of the lists. */
  lemma LinkedInForest(h: Host, at: Cells, m: Member, id: SockId)
    requires Fitting(at, h) && id < |h.socks|
    ensures Node(m, id) in at && at[Node(m, id)] !in ForestOf(h, at)
    ensures Linked(ForestOf(h, at), at[Node(m, id)]) <==> LinkedBy(h, m, id)
  {
    NodePresent(h, at, m, id);
    var n, f := at[Node(m, id)], ForestOf(h, at);
    if LinkedBy(h, m, id) {
      var k :| k in h.lists && MemberOf(k) == m && id in h.lists[k];
      HeadPresent(h, at, k);
      RowAt(at, m, h.lists[k]);
      var i :| 0 <= i < |h.lists[k]| && h.lists[k][i] == id;
      assert f[at[Head(k)]][i] == n;
    }
    if Linked(f, n) {
      var c :| c in f && n in f[c];
      var k := c.place.list;
      HeadPresent(h, at, k);
      RowAt(at, MemberOf(k), h.lists[k]);
      var i :| 0 <= i < |f[c]| && f[c][i] == n;
      assert n.place == Node(MemberOf(k), h.lists[k][i]);
    }
  }

  lemma ForestPush(h: Host, at: Cells, k: ListId, id: SockId)
    requires Fitting(at, h) && Fitting(at, Push(h, k, id)) && k in h.lists && id < |h.socks|
    ensures Head(k) in at && Node(MemberOf(k), id) in at && at[Head(k)] in ForestOf(h, at)
    ensures var f, c := ForestOf(h, at), at[Head(k)];
      ForestOf(Push(h, k, id), at) == f[c := [at[Node(MemberOf(k), id)]] + f[c]]
  {
    HeadPresent(h, at, k);
    assert ([id] + h.lists[k])[1..] == h.lists[k];
  }

  lemma ForestAppend(h: Host, at: Cells, k: ListId, id: SockId)
    requires Fitting(at, h) && Fitting(at, Append(h, k, id)) && k in h.lists && id < |h.socks|
    ensures Head(k) in at && Node(MemberOf(k), id) in at && at[Head(k)] in ForestOf(h, at)
    ensures var f, c := ForestOf(h, at), at[Head(k)];
      ForestOf(Append(h, k, id), at) == f[c := f[c] + [at[Node(MemberOf(k), id)]]]
  {
    HeadPresent(h, at, k);
    RowAppend(at, MemberOf(k), h.lists[k], [id]);
    assert Row(at, MemberOf(k), [id]) == [at[Node(MemberOf(k), id)]];
  }

  lemma ForestUnlink(h: Host, at: Cells, m: Member, id: SockId)
    requires Fitting(at, h) && Fitting(at, Unlink(h, m, id)) && id < |h.socks|
    ensures Node(m, id) in at
    ensures ForestOf(Unlink(h, m, id), at) == Deleted(ForestOf(h, at), at[Node(m, id)])
  {
    NodePresent(h, at, m, id);
    var n, f := at[Node(m, id)], ForestOf(h, at);
    forall c | c in f ensures ForestOf(Unlink(h, m, id), at)[c] == Without(f[c], n) {
      var k := c.place.list;
      HeadPresent(h, at, k);
      if MemberOf(k) == m {
        RowWithout(at, m, h.lists[k], id);
      } else {
        RowForeign(at, MemberOf(k), h.lists[k], n);
        WithoutAbsent(f[c], n);
      }
    }
  }

  /** The pointers realise the lists of h, and a queue node that is in no queue
      points at itself. */
  ghost predicate Linkage(h: Host, at: Cells)
    reads at.Values
  {
    && Fitting(at, h)
    && WellFormed(ForestOf(h, at), at.Values)
    && Loops(h, at, Nexts(at.Values))
  }

  ghost predicate Loops(h: Host, at: Cells, next: Pointers)
    requires Fitting(at, h)
  {
    forall i :: 0 <= i < |h.socks| && !LinkedBy(h, QueueList, i) ==> SelfLoop(at, i, next)
  }

  ghost predicate SelfLoop(at: Cells, i: SockId, next: Pointers) {
    Node(QueueList, i) in at && at[Node(QueueList, i)] in next && next[at[Node(QueueList, i)]] == at[Node(QueueList, i)]
  }

  /** Linkage, sock by sock: the lists are realised, and those of the first n
      socks that are in no queue point at themselves. */
  ghost predicate RealisedUpTo(h: Host, at: Cells, n: nat)
    requires n <= |h.socks|
    reads at.Values
    decreases n
  {
    if n == 0 then
      Fitting(at, h) && WellFormed(ForestOf(h, at), at.Values)
    else
      RealisedUpTo(h, at, n - 1) && (!LinkedBy(h, QueueList, n - 1) ==> SelfLoop(at, n - 1, Nexts(at.Values)))
  }

  ghost predicate Realised(h: Host, at: Cells)
    reads at.Values
  {
    RealisedUpTo(h, at, |h.socks|)
  }

  lemma {:induction false} RealisedGives(h: Host, at: Cells, n: nat)
    requires n <= |h.socks| && RealisedUpTo(h, at, n)
    ensures Fitting(at, h) && WellFormed(ForestOf(h, at), at.Values)
    ensures forall i :: 0 <= i < n && !LinkedBy(h, QueueList, i) ==> SelfLoop(at, i, Nexts(at.Values))
    decreases n
  {
    if n > 0 {
      RealisedGives(h, at, n - 1);
    }
  }

  lemma {:induction false} RealisedNeeds(h: Host, at: Cells, n: nat)
    requires n <= |h.socks| && Fitting(at, h) && WellFormed(ForestOf(h, at), at.Values)
    requires forall i :: 0 <= i < n && !LinkedBy(h, QueueList, i) ==> SelfLoop(at, i, Nexts(at.Values))
    ensures RealisedUpTo(h, at, n)
    decreases n
  {
    if n > 0 {
      RealisedNeeds(h, at, n - 1);
    }
  }

  lemma RealisedIsLinkage(h: Host, at: Cells)
    ensures Realised(h, at) <==> Linkage(h, at)
  {
    if Realised(h, at) {
      RealisedGives(h, at, |h.socks|);
    }
    if Linkage(h, at) {
      RealisedNeeds(h, at, |h.socks|);
    }
  }

  /** The links do not depend on what else the socks hold. */
  lemma SameLinks(h: Host, h': Host, at: Cells)
    requires Realised(h, at) && h'.lists == h.lists && |h'.socks| == |h.socks|
    ensures Realised(h', at)
  {
    RealisedIsLinkage(h, at);
    RealisedIsLinkage(h', at);
    assert ForestOf(h', at) == ForestOf(h, at);
    assert forall m, i :: LinkedBy(h', m, i) == LinkedBy(h, m, i);
  }

  /** Whoever is still unlinked was unlinked before and kept its pointer. */
  lemma LoopsStay(h: Host, h': Host, at: Cells, next: Pointers, next': Pointers, n: ListHead)
    requires Fitting(at, h) && Fitting(at, h') && |h'.socks| == |h.socks| && Loops(h, at, next)
    requires n.place.Node? && n.place in at && at[n.place] == n
    requires forall i :: 0 <= i < |h.socks| && !LinkedBy(h', QueueList, i) ==>
      !LinkedBy(h, QueueList, i) && n.place != Node(QueueList, i)
    requires forall x :: x in next && x != n && Unlinked(ForestOf(h, at), x) ==> x in next' && next'[x] == next[x]
    ensures Loops(h', at, next')
  {
    forall i | 0 <= i < |h.socks| && !LinkedBy(h', QueueList, i) ensures SelfLoop(at, i, next') {
      LinkedInForest(h, at, QueueList, i);
      assert SelfLoop(at, i, next);
      assert at[Node(QueueList, i)].place == Node(QueueList, i);
    }
  }

  lemma LinkedGrows(h: Host, h': Host, k: ListId, id: SockId)
    requires WellLinked(h) && k in h.lists && id < |h.socks|
    requires h' == Push(h, k, id) || h' == Append(h, k, id)
    ensures LinkedBy(h', MemberOf(k), id)
    ensures forall m, i :: LinkedBy(h, m, i) ==> LinkedBy(h', m, i)
  {
    assert id in h'.lists[k];
    forall m, i | LinkedBy(h, m, i) ensures LinkedBy(h', m, i) {
      var g :| g in h.lists && MemberOf(g) == m && i in h.lists[g];
      assert i in h'.lists[g];
    }
  }

  /** list_add_head of sock id on list k */
  method LinkHead(n: ListHead, head: ListHead, ghost h: Host, ghost at: Cells, ghost k: ListId, ghost id: SockId)
    requires Realised(h, at) && ProperList(k, |h.socks|) && id < |h.socks| && !LinkedBy(h, MemberOf(k), id)
    requires Head(k) in at && Node(MemberOf(k), id) in at && head == at[Head(k)] && n == at[Node(MemberOf(k), id)]
    modifies at.Values
    ensures Realised(Push(h, k, id), at)
  {
    RealisedIsLinkage(h, at);
    ghost var f, cells, next := ForestOf(h, at), at.Values, Nexts(at.Values);
    LinkedInForest(h, at, MemberOf(k), id);
    HeadPresent(h, at, k);
    EndsInside(f, cells, head);
    PushKeepsLinks(h, k, id);
    ForestPush(h, at, k, id);
    LinkedGrows(h, Push(h, k, id), k, id);
    ListAddHead(n, head, f, cells);
    LoopsStay(h, Push(h, k, id), at, next, Nexts(cells), n);
    RealisedIsLinkage(Push(h, k, id), at);
  }

  method LinkTail(n: ListHead, head: ListHead, ghost h: Host, ghost at: Cells, ghost k: ListId, ghost id: SockId)
    requires Realised(h, at) && ProperList(k, |h.socks|) && id < |h.socks| && !LinkedBy(h, MemberOf(k), id)
    requires Head(k) in at && Node(MemberOf(k), id) in at && head == at[Head(k)] && n == at[Node(MemberOf(k), id)]
    modifies at.Values
    ensures Realised(Append(h, k, id), at)
  {
    RealisedIsLinkage(h, at);
    ghost var next := Nexts(at.Values);
    LinkedGrows(h, Append(h, k, id), k, id);
    AppendNode(n, head, h, at, k, id);
    LoopsStay(h, Append(h, k, id), at, next, Nexts(at.Values), n);
    RealisedIsLinkage(Append(h, k, id), at);
  }

  /** list_add_tail, with what it leaves of the other pointers. */
  method AppendNode(n: ListHead, head: ListHead, ghost h: Host, ghost at: Cells, ghost k: ListId, ghost id: SockId)
    requires Fitting(at, h) && WellFormed(ForestOf(h, at), at.Values)
    requires k in h.lists && id < |h.socks| && !LinkedBy(h, MemberOf(k), id)
    requires head == at[Head(k)] && n == at[Node(MemberOf(k), id)]
    modifies at.Values
    ensures Fitting(at, Append(h, k, id)) && WellFormed(ForestOf(Append(h, k, id), at), at.Values)
    ensures forall x :: x in at.Values && x != n && Unlinked(ForestOf(h, at), x) ==> x.next == old(x.next)
  {
    ghost var f, cells := ForestOf(h, at), at.Values;
    LinkedInForest(h, at, MemberOf(k), id);
    HeadPresent(h, at, k);
    EndsInside(f, cells, head);
    PushKeepsLinks(h, k, id);
    ForestAppend(h, at, k, id);
    ListAddTail(n, head, f, cells);
  }

  /** list_delete_entry of a linked node, with what it leaves of the other pointers. */
  method DeleteNode(n: ListHead, ghost h: Host, ghost at: Cells, ghost m: Member, ghost id: SockId)
    requires Fitting(at, h) && WellFormed(ForestOf(h, at), at.Values)
    requires id < |h.socks| && LinkedBy(h, m, id) && n == at[Node(m, id)]
    modifies at.Values
    ensures Fitting(at, Unlink(h, m, id)) && WellFormed(ForestOf(Unlink(h, m, id), at), at.Values)
    ensures forall x :: x in at.Values && Unlinked(ForestOf(h, at), x) ==> x.next == old(x.next)
  {
    ghost var f, cells := ForestOf(h, at), at.Values;
    LinkedInForest(h, at, m, id);
    Neighbours(f, cells, n);
    UnlinkKeepsLinks(h, m, id);
    ForestUnlink(h, at, m, id);
    ListDeleteEntry(n, f, cells);
  }

  lemma UnlinkShrinks(h: Host, m: Member, id: SockId)
    requires WellLinked(h)
    ensures forall g, i :: LinkedBy(Unlink(h, m, id), g, i) <==> LinkedBy(h, g, i) && (g != m || i != id)
  {
    UnlinkKeepsLinks(h, m, id);
    forall g, i ensures LinkedBy(Unlink(h, m, id), g, i) <==> LinkedBy(h, g, i) && (g != m || i != id) {
      if LinkedBy(h, g, i) && (g != m || i != id) {
        var k :| k in h.lists && MemberOf(k) == g && i in h.lists[k];
        assert i in Unlink(h, m, id).lists[k];
      }
      if LinkedBy(Unlink(h, m, id), g, i) && (g != m || i != id) {
        var k :| k in h.lists && MemberOf(k) == g && i in Unlink(h, m, id).lists[k];
        assert i in h.lists[k];
      }
    }
  }

  /** Leaving a hash table by list_delete_entry. */
  method UnlinkNode(n: ListHead, ghost h: Host, ghost at: Cells, ghost m: Member, ghost id: SockId)
    requires Realised(h, at) && m != QueueList && id < |h.socks| && LinkedBy(h, m, id) && Node(m, id) in at && n == at[Node(m, id)]
    modifies at.Values
    ensures Realised(Unlink(h, m, id), at)
  {
    RealisedIsLinkage(h, at);
    ghost var next := Nexts(at.Values);
    UnlinkShrinks(h, m, id);
    NodePresent(h, at, m, id);
    DeleteNode(n, h, at, m, id);
    LoopsStay(h, Unlink(h, m, id), at, next, Nexts(at.Values), n);
    RealisedIsLinkage(Unlink(h, m, id), at);
  }

  /** Taking a sock out of its queue: list_delete_entry, then init_list_head. */
  method DequeueNode(n: ListHead, ghost h: Host, ghost at: Cells, ghost id: SockId)
    requires Realised(h, at) && id < |h.socks| && LinkedBy(h, QueueList, id) && Node(QueueList, id) in at && n == at[Node(QueueList, id)]
    modifies at.Values
    ensures Realised(Unlink(h, QueueList, id), at)
  {
    RealisedIsLinkage(h, at);
    ghost var next, h' := Nexts(at.Values), Unlink(h, QueueList, id);
    UnlinkShrinks(h, QueueList, id);
    DeleteNode(n, h, at, QueueList, id);
    LinkedInForest(h', at, QueueList, id);
    InitUnlinked(n, ForestOf(h', at), at.Values);
    forall i | 0 <= i < |h.socks| && !LinkedBy(h', QueueList, i) ensures SelfLoop(at, i, Nexts(at.Values)) {
      NodePresent(h, at, QueueList, i);
      if i != id {
        assert SelfLoop(at, i, next);
        LinkedInForest(h, at, QueueList, i);
      }
    }
    RealisedIsLinkage(Unlink(h, QueueList, id), at);
  }

  /** init_list_head on a node in no list leaves every list alone. */
  method InitUnlinked(n: ListHead, ghost f: Forest, ghost cells: set<ListHead>)
    requires WellFormed(f, cells) && n in cells && Unlinked(f, n)
    modifies n
    ensures WellFormed(f, cells) && n.next == n
  {
    ghost var next, prev := Nexts(cells), Prevs(cells);
    InitListHead(n);
    forall h | h in f ensures Chained(Circle(h, f[h]), Nexts(cells), Prevs(cells)) {
      assert n !in Circle(h, f[h]);
    }
  }

  lemma UnlinkAbsent(h: Host, m: Member, id: SockId)
    requires !LinkedBy(h, m, id)
    ensures Unlink(h, m, id) == h
  {
    forall k | k in h.lists && MemberOf(k) == m ensures Without(h.lists[k], id) == h.lists[k] {
      assert id !in h.lists[k];
      WithoutAbsent(h.lists[k], id);
    }
  }

  /** list_empty on a queue node tells whether it is in a queue. */
  lemma LoopsAlone(n: ListHead, h: Host, at: Cells, id: SockId)
    requires Realised(h, at) && id < |h.socks| && Node(QueueList, id) in at && n == at[Node(QueueList, id)]
    ensures n.next == n <==> !LinkedBy(h, QueueList, id)
  {
    RealisedIsLinkage(h, at);
    LinkedInForest(h, at, QueueList, id);
    if LinkedBy(h, QueueList, id) {
      Neighbours(ForestOf(h, at), at.Values, n);
    } else {
      assert SelfLoop(at, id, Nexts(at.Values));
    }
  }

  /** tcp_sock_accept_enqueue's list work: leave the queue one is in, if any,
      and join the end of queue k. */
  method Requeue(n: ListHead, head: ListHead, ghost h: Host, ghost at: Cells, ghost k: ListId, ghost id: SockId)
    requires Realised(h, at) && ProperList(k, |h.socks|) && MemberOf(k) == QueueList && id < |h.socks|
    requires Head(k) in at && Node(QueueList, id) in at && head == at[Head(k)] && n == at[Node(QueueList, id)]
    modifies at.Values
    ensures Realised(Append(Unlink(h, QueueList, id), k, id), at)
  {
    RealisedIsLinkage(h, at);
    ghost var next, h' := Nexts(at.Values), Unlink(h, QueueList, id);
    UnlinkShrinks(h, QueueList, id);
    LeaveQueue(n, h, at, id);
    AppendNode(n, head, h', at, k, id);
    forall i | 0 <= i < |h.socks| && !LinkedBy(Append(h', k, id), QueueList, i) ensures SelfLoop(at, i, Nexts(at.Values)) {
      StillLoops(h, at, k, id, i, next);
    }
    RealisedIsLinkage(Append(h', k, id), at);
  }

  /** list_delete_entry if the node is in a queue */
  method LeaveQueue(n: ListHead, ghost h: Host, ghost at: Cells, ghost id: SockId)
    requires Realised(h, at) && id < |h.socks| && Node(QueueList, id) in at && n == at[Node(QueueList, id)]
    modifies at.Values
    ensures Fitting(at, h) && Fitting(at, Unlink(h, QueueList, id))
    ensures WellFormed(ForestOf(Unlink(h, QueueList, id), at), at.Values)
    ensures forall x :: x in at.Values && Unlinked(ForestOf(h, at), x) ==> x.next == old(x.next)
  {
    RealisedIsLinkage(h, at);
    LoopsAlone(n, h, at, id);
    if n.next != n {
      DeleteNode(n, h, at, QueueList, id);
    } else {
      UnlinkAbsent(h, QueueList, id);
    }
  }

  /** Who is in no queue after the move was in none before. */
  lemma StillLoops(h: Host, at: Cells, k: ListId, id: SockId, i: SockId, next: Pointers)
    requires var h' := Unlink(h, QueueList, id);
      Fitting(at, h) && Fitting(at, h') && k in h'.lists && MemberOf(k) == QueueList && !LinkedBy(Append(h', k, id), QueueList, i)
    requires id < |h.socks| && i < |h.socks| && Loops(h, at, next)
    ensures i != id && SelfLoop(at, i, next) && Node(QueueList, i) in at
    ensures Unlinked(ForestOf(h, at), at[Node(QueueList, i)]) && Unlinked(ForestOf(Unlink(h, QueueList, id), at), at[Node(QueueList, i)])
    ensures Node(QueueList, id) in at && at[Node(QueueList, i)] != at[Node(QueueList, id)]
  {
    var h' := Unlink(h, QueueList, id);
    UnlinkShrinks(h, QueueList, id);
    LinkedGrows(h', Append(h', k, id), k, id);
    LinkedInForest(h, at, QueueList, i);
    LinkedInForest(h', at, QueueList, i);
    NodePresent(h, at, QueueList, i);
  }

  // Growing

  ghost predicate Extended(at: Cells, at': Cells) {
    forall p :: p in at ==> p in at' && at'[p] == at[p]
  }

  lemma {:induction false} RowExtended(at: Cells, at': Cells, m: Member, ids: seq<SockId>)
    requires Extended(at, at') && forall i :: i in ids ==> Node(m, i) in at
    ensures Row(at', m, ids) == Row(at, m, ids)
  {
    if ids != [] {
      RowExtended(at, at', m, ids[1..]);
    }
  }

  lemma HeadsExtended(at: Cells, at': Cells, n: nat)
    requires Laid(at, n) && Laid(at', n + 1) && Extended(at, at')
    ensures HeadsOf(at') == HeadsOf(at) + {at'[Head(ListenQueue(n))], at'[Head(AcceptQueue(n))]}
  {
    forall c | c in HeadsOf(at') ensures c in HeadsOf(at) + {at'[Head(ListenQueue(n))], at'[Head(AcceptQueue(n))]} {
      var p :| p in at' && p.Head? && at'[p] == c;
      if ProperPlace(p, n) {
        assert at[p] == c;
      } else {
        assert p == Head(ListenQueue(n)) || p == Head(AcceptQueue(n));
      }
    }
    forall c | c in HeadsOf(at) ensures c in HeadsOf(at') {
      var p :| p in at && p.Head? && at[p] == c;
      assert at'[p] == c;
    }
  }

  lemma RowsExtended(h: Host, at: Cells, at': Cells, k: ListId)
    requires Fitting(at, h) && Fitting(at', Alloc(h)) && Extended(at, at') && k in Alloc(h).lists
    ensures Head(k) in at' && at'[Head(k)] in ForestOf(Alloc(h), at')
    ensures ForestOf(Alloc(h), at')[at'[Head(k)]] ==
      if k in h.lists then Row(at, MemberOf(k), h.lists[k]) else []
  {
    HeadPresent(Alloc(h), at', k);
    if k in h.lists {
      RowExtended(at, at', MemberOf(k), h.lists[k]);
    }
  }

  lemma ForestAllocKeys(h: Host, at: Cells, at': Cells)
    requires Fitting(at, h) && Fitting(at', Alloc(h)) && Extended(at, at')
    ensures var n := |h.socks|; ForestOf(Alloc(h), at').Keys == ForestOf(h, at).Keys + {at'[Head(ListenQueue(n))], at'[Head(AcceptQueue(n))]}
  {
    HeadsExtended(at, at', |h.socks|);
  }

  lemma ForestAllocNew(h: Host, at: Cells, at': Cells, k: ListId)
    requires Fitting(at, h) && Fitting(at', Alloc(h)) && Extended(at, at') && k in Alloc(h).lists && k !in h.lists
    ensures Head(k) in at' && at'[Head(k)] in ForestOf(Alloc(h), at') && ForestOf(Alloc(h), at')[at'[Head(k)]] == []
    ensures at'[Head(k)].place == Head(k) && at'[Head(k)] !in ForestOf(h, at)
  {
    RowsExtended(h, at, at', k);
    if at'[Head(k)] in ForestOf(h, at) {
      HeadPlaced(h, at, at'[Head(k)]);
    }
  }

  lemma HeadPlaced(h: Host, at: Cells, c: ListHead)
    requires Fitting(at, h) && c in ForestOf(h, at)
    ensures c.place.Head? && c.place.list in h.lists && Head(c.place.list) in at && at[Head(c.place.list)] == c
  {
  }

  /** A new sock brings two empty lists. */
  lemma ForestAlloc(h: Host, at: Cells, at': Cells)
    requires Fitting(at, h) && Fitting(at', Alloc(h)) && Extended(at, at')
    ensures var n := |h.socks|;
      ForestOf(Alloc(h), at') == ForestOf(h, at)[at'[Head(ListenQueue(n))] := []][at'[Head(AcceptQueue(n))] := []]
  {
    var n, f, f' := |h.socks|, ForestOf(h, at), ForestOf(Alloc(h), at');
    ForestAllocKeys(h, at, at');
    ForestAllocNew(h, at, at', ListenQueue(n));
    ForestAllocNew(h, at, at', AcceptQueue(n));
    forall c | c in f ensures c in f' && f'[c] == f[c] {
      ForestAllocOld(h, at, at', c);
    }
    TwoMore(f, f', at'[Head(ListenQueue(n))], at'[Head(AcceptQueue(n))]);
  }

  lemma ForestAllocOld(h: Host, at: Cells, at': Cells, c: ListHead)
    requires Fitting(at, h) && Fitting(at', Alloc(h)) && Extended(at, at') && c in ForestOf(h, at)
    ensures c.place.Head? && c.place.list in h.lists
    ensures c in ForestOf(Alloc(h), at') && ForestOf(Alloc(h), at')[c] == ForestOf(h, at)[c]
  {
    HeadPresent(h, at, c.place.list);
    RowsExtended(h, at, at', c.place.list);
  }

  lemma TwoMore(f: Forest, f': Forest, a: ListHead, b: ListHead)
    requires f'.Keys == f.Keys + {a, b} && a !in f && b !in f
    requires f'[a] == [] && f'[b] == [] && forall c :: c in f ==> f'[c] == f[c]
    ensures f' == f[a := []][b := []]
  {
  }

  lemma ForestNodes(h: Host, at: Cells)
    requires Fitting(at, h)
    ensures forall c, i :: c in ForestOf(h, at) && 0 <= i < |ForestOf(h, at)[c]| ==>
      ForestOf(h, at)[c][i].place.Node? && ForestOf(h, at)[c][i] in at.Values
  {
    forall c, i | c in ForestOf(h, at) && 0 <= i < |ForestOf(h, at)[c]|
      ensures ForestOf(h, at)[c][i].place.Node? && ForestOf(h, at)[c][i] in at.Values
    {
      HeadPresent(h, at, c.place.list);
      RowAt(at, MemberOf(c.place.list), h.lists[c.place.list]);
      assert h.lists[c.place.list][i] in h.lists[c.place.list];
      NodePresent(h, at, MemberOf(c.place.list), h.lists[c.place.list][i]);
    }
  }

  /** Adding an empty circle to a forest. */
  lemma EmptyCircleJoins(f: Forest, next: Pointers, prev: Pointers, head: ListHead)
    requires Circular(f, next, prev) && head !in f && !Linked(f, head)
    requires head in next && head in prev && next[head] == head && prev[head] == head
    ensures Circular(f[head := []], next, prev)
  {
  }

  lemma CircularIn(f: Forest, next: Pointers, prev: Pointers, next': Pointers, prev': Pointers)
    requires Circular(f, next, prev)
    requires forall x :: x in next ==> x in next' && next'[x] == next[x]
    requires forall x :: x in prev ==> x in prev' && prev'[x] == prev[x]
    ensures Circular(f, next', prev')
  {
    forall h | h in f ensures Chained(Circle(h, f[h]), next', prev') {
      assert Chained(Circle(h, f[h]), next, prev);
    }
  }

  /** alloc_tcp_sock: the new sock's queues are empty circles and its queue node
      a loop. */
  lemma GrowLinks(h: Host, at: Cells, at': Cells)
    requires Realised(h, at) && Laid(at', |h.socks| + 1) && Extended(at, at')
    requires var lq, aq := at'[Head(ListenQueue(|h.socks|))], at'[Head(AcceptQueue(|h.socks|))];
      lq.next == lq.prev == lq && aq.next == aq.prev == aq
    requires at'[Node(QueueList, |h.socks|)].next == at'[Node(QueueList, |h.socks|)]
    ensures Realised(Alloc(h), at')
  {
    RealisedIsLinkage(h, at);
    AllocWellLinked(h);
    assert WellFormed(ForestOf(Alloc(h), at'), at'.Values) by { GrowForest(h, at, at'); }
    assert Loops(Alloc(h), at', Nexts(at'.Values)) by { GrowLoops(h, at, at', Nexts(at.Values), Nexts(at'.Values)); }
    RealisedIsLinkage(Alloc(h), at');
  }

  lemma GrowLoops(h: Host, at: Cells, at': Cells, next: Pointers, next': Pointers)
    requires Fitting(at, h) && Fitting(at', Alloc(h)) && Extended(at, at') && Loops(h, at, next)
    requires forall x :: x in next && x in next' ==> next'[x] == next[x]
    requires forall p :: p in at' ==> at'[p] in next'
    requires next'[at'[Node(QueueList, |h.socks|)]] == at'[Node(QueueList, |h.socks|)]
    ensures Loops(Alloc(h), at', next')
  {
    forall i | 0 <= i < |Alloc(h).socks| && !LinkedBy(Alloc(h), QueueList, i) ensures SelfLoop(at', i, next') {
      assert Node(QueueList, i) in at';
      if i < |h.socks| {
        AllocKeepsLinked(h, QueueList, i);
        assert SelfLoop(at, i, next);
      }
    }
  }

  lemma AllocKeepsLinked(h: Host, m: Member, i: SockId)
    requires WellLinked(h)
    ensures LinkedBy(h, m, i) ==> LinkedBy(Alloc(h), m, i)
  {
    if LinkedBy(h, m, i) {
      var k :| k in h.lists && MemberOf(k) == m && i in h.lists[k];
      assert k in Alloc(h).lists && i in Alloc(h).lists[k];
    }
  }

  lemma ExtendedValues(at: Cells, at': Cells)
    requires Extended(at, at')
    ensures at.Values <= at'.Values
  {
    forall x | x in at.Values ensures x in at'.Values {
      var p :| p in at && at[p] == x;
      assert at'[p] == x;
    }
  }

  /** The heads of the new queues were in no list. */
  lemma NewHeadFree(h: Host, at: Cells, c: ListHead)
    requires Fitting(at, h) && c.place.Head? && c.place !in at
    ensures c !in ForestOf(h, at) && !Linked(ForestOf(h, at), c)
  {
    if c in ForestOf(h, at) { HeadPlaced(h, at, c); }
    ForestNodes(h, at);
  }

  lemma GrowForest(h: Host, at: Cells, at': Cells)
    requires Fitting(at, h) && Laid(at', |h.socks| + 1) && Extended(at, at')
    requires WellFormed(ForestOf(h, at), at.Values)
    requires var lq, aq := at'[Head(ListenQueue(|h.socks|))], at'[Head(AcceptQueue(|h.socks|))];
      lq.next == lq.prev == lq && aq.next == aq.prev == aq
    ensures Fitting(at', Alloc(h)) && WellFormed(ForestOf(Alloc(h), at'), at'.Values)
  {
    AllocWellLinked(h);
    var n, f, cells := |h.socks|, ForestOf(h, at), at'.Values;
    var lq, aq := at'[Head(ListenQueue(n))], at'[Head(AcceptQueue(n))];
    ExtendedValues(at, at');
    CircularIn(f, Nexts(at.Values), Prevs(at.Values), Nexts(cells), Prevs(cells));
    assert lq.place == Head(ListenQueue(n)) && aq.place == Head(AcceptQueue(n));
    NewHeadFree(h, at, lq);
    NewHeadFree(h, at, aq);
    EmptyCircleJoins(f, Nexts(cells), Prevs(cells), lq);
    EmptyCircleJoins(f[lq := []], Nexts(cells), Prevs(cells), aq);
    ForestAlloc(h, at, at');
  }

  // Walking a list

  /** pos is what list_for_each_entry has in hand after i turns on list k. */
  ghost predicate AtCell(h: Host, at: Cells, k: ListId, i: nat, pos: ListHead?) {
    && Head(k) in at && i <= |ListOf(h, k)|
    && if i == |ListOf(h, k)| then pos == at[Head(k)]
       else
         && Node(MemberOf(k), ListOf(h, k)[i]) in at
         && pos == at[Node(MemberOf(k), ListOf(h, k)[i])]
         && pos != at[Head(k)] && pos.place == Node(MemberOf(k), ListOf(h, k)[i])
         && ListOf(h, k)[i] < |h.socks|
  }

  lemma CellInHand(h: Host, at: Cells, k: ListId, i: nat)
    requires Linkage(h, at) && k in h.lists && i <= |h.lists[k]|
    ensures Head(k) in at && at[Head(k)] in ForestOf(h, at)
    ensures var c := Circle(at[Head(k)], ForestOf(h, at)[at[Head(k)]]);
      |c| == |h.lists[k]| + 2 && AtCell(h, at, k, i, c[i + 1]) && c[i].next == c[i + 1]
  {
    HeadPresent(h, at, k);
    RowAt(at, MemberOf(k), h.lists[k]);
    NextAt(ForestOf(h, at), at.Values, at[Head(k)], i);
    if i < |h.lists[k]| {
      assert h.lists[k][i] in h.lists[k];
      NodePresent(h, at, MemberOf(k), h.lists[k][i]);
    }
  }

  lemma WalkStarts(h: Host, at: Cells, k: ListId)
    requires Realised(h, at) && ProperList(k, |h.socks|)
    ensures Head(k) in at && AtCell(h, at, k, 0, at[Head(k)].next)
  {
    RealisedIsLinkage(h, at);
    CellInHand(h, at, k, 0);
  }

  lemma WalkGoesOn(h: Host, at: Cells, k: ListId, i: nat, pos: ListHead)
    requires Realised(h, at) && ProperList(k, |h.socks|) && AtCell(h, at, k, i, pos) && i < |ListOf(h, k)|
    ensures AtCell(h, at, k, i + 1, pos.next)
  {
    RealisedIsLinkage(h, at);
    CellInHand(h, at, k, i);
    CellInHand(h, at, k, i + 1);
  }
}
