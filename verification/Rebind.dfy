/** Linking a node that is linked already: what connect does to a sock that was
    bound before. */
module Rebind {
  import opened Base
  import opened Segments
  import opened Hosts
  import opened Tables
  import opened Queues
  import opened ListHeads
  import opened Layout

  /** Two chains that agree from position s of c on, as far as position q. */
  lemma {:induction false} SameWalk(c: seq<ListHead>, d: seq<ListHead>, next: Pointers, next': Pointers, s: nat, off: nat, q: nat)
    requires s <= q < |c| && s + off < |d| && d[s + off] == c[s]
    requires forall i :: s <= i < q ==> c[i] in next && next[c[i]] == c[i + 1]
    requires forall i :: 0 <= i < |d| - 1 ==> d[i] in next' && next'[d[i]] == d[i + 1]
    requires forall i :: s <= i < q ==> c[i] in next' && next'[c[i]] == next[c[i]] && c[i] != d[|d| - 1]
    ensures q + off < |d| && d[q + off] == c[q]
    decreases q
  {
    if s < q {
      SameWalk(c, d, next, next', s, off, q - 1);
    }
  }

  /** The pointers after list_add_head of n on head's list */
  ghost function NextsAfter(next: Pointers, head: ListHead, n: ListHead): Pointers
    requires head in next
  {
    next[head := n][n := next[head]]
  }

  ghost function PrevsAfter(next: Pointers, prev: Pointers, head: ListHead, n: ListHead): Pointers
    requires head in next && next[head] != null
  {
    prev[next[head] := n][n := head]
  }

  lemma CircleStep(f: Forest, next: Pointers, prev: Pointers, h: ListHead, i: nat)
    requires Circular(f, next, prev) && h in f && i <= |f[h]|
    ensures var c := Circle(h, f[h]); c[i] in next && next[c[i]] == c[i + 1]
  {
    assert Chained(Circle(h, f[h]), next, prev);
  }

  /** Added to the list it is in, the node comes up twice on the way around. */
  lemma RelinkedHere(f: Forest, f': Forest, next: Pointers, prev: Pointers, head: ListHead, n: ListHead)
    requires Circular(f, next, prev) && head in f && n in f[head] && f'.Keys == f.Keys
    ensures head in next && next[head] != null
    ensures !Circular(f', NextsAfter(next, head, n), PrevsAfter(next, prev, head, n))
  {
    CircleStep(f, next, prev, head, 0);
    var next', prev' := NextsAfter(next, head, n), PrevsAfter(next, prev, head, n);
    if Circular(f', next', prev') {
      var p :| 0 <= p < |f[head]| && f[head][p] == n;
      var c, d := Circle(head, f[head]), Circle(head, f'[head]);
      CircleClosed(f, head);
      CircleClosed(f', head);
      assert n == c[p + 1] && n != head;
      CircleStep(f', next', prev', head, 0);
      CircleStep(f', next', prev', head, 1);
      assert d[1] == n && d[2] == c[1];
      assert Chained(c, next, prev) && Chained(d, next', prev');
      assert forall i :: 1 <= i <= p ==> c[i] == f[head][i - 1] && c[i] != head && c[i] != n;
      SameWalk(c, d, next, next', 1, 1, p + 1);
    }
  }

  /** Added to another list, it is on the way around that one ... */
  lemma RelinkedFirst(f: Forest, f': Forest, next: Pointers, prev: Pointers, head: ListHead, n: ListHead)
    requires Circular(f, next, prev) && head in f && n !in f && f'.Keys == f.Keys
    requires head in next && next[head] != null && Circular(f', NextsAfter(next, head, n), PrevsAfter(next, prev, head, n))
    ensures |f'[head]| > 0 && f'[head][0] == n
  {
    CircleStep(f', NextsAfter(next, head, n), PrevsAfter(next, prev, head, n), head, 0);
    assert Circle(head, f'[head])[1] == n;
  }

  /** ... and still on the way around the one it was in. */
  lemma RelinkedStill(f: Forest, f': Forest, next: Pointers, prev: Pointers, head: ListHead, g: ListHead, p: nat)
    requires Circular(f, next, prev) && head in f && g in f && g != head && p < |f[g]| && f'.Keys == f.Keys
    requires head in next && next[head] != null && Circular(f', NextsAfter(next, head, f[g][p]), PrevsAfter(next, prev, head, f[g][p]))
    ensures p < |f'[g]| && f'[g][p] == f[g][p]
  {
    var n, c, d := f[g][p], Circle(g, f[g]), Circle(g, f'[g]);
    var next', prev' := NextsAfter(next, head, n), PrevsAfter(next, prev, head, n);
    CircleClosed(f, g);
    assert n == c[p + 1] && n != head && n != g;
    CircleStep(f, next, prev, g, 0);
    CircleStep(f', next', prev', g, 0);
    assert d[1] == c[1];
    assert Chained(c, next, prev) && Chained(d, next', prev');
    assert forall i :: 1 <= i <= p ==> c[i] == f[g][i - 1] && c[i] != head && c[i] != g && c[i] != n;
    SameWalk(c, d, next, next', 1, 0, p + 1);
  }

  lemma RelinkedElsewhere(f: Forest, f': Forest, next: Pointers, prev: Pointers, head: ListHead, g: ListHead, n: ListHead)
    requires Circular(f, next, prev) && head in f && g in f && g != head && n in f[g] && f'.Keys == f.Keys
    ensures head in next && next[head] != null
    ensures !Circular(f', NextsAfter(next, head, n), PrevsAfter(next, prev, head, n))
  {
    CircleStep(f, next, prev, head, 0);
    if Circular(f', NextsAfter(next, head, n), PrevsAfter(next, prev, head, n)) {
      var p :| 0 <= p < |f[g]| && f[g][p] == n;
      RelinkedStill(f, f', next, prev, head, g, p);
      RelinkedFirst(f, f', next, prev, head, n);
    }
  }

  lemma Relinked(f: Forest, next: Pointers, prev: Pointers, head: ListHead, n: ListHead)
    requires Circular(f, next, prev) && head in f && Linked(f, n)
    ensures head in next && next[head] != null
    ensures forall f': Forest :: f'.Keys == f.Keys ==> !Circular(f', NextsAfter(next, head, n), PrevsAfter(next, prev, head, n))
  {
    CircleStep(f, next, prev, head, 0);
    var g :| g in f && n in f[g];
    forall f': Forest | f'.Keys == f.Keys ensures !Circular(f', NextsAfter(next, head, n), PrevsAfter(next, prev, head, n)) {
      if g == head { RelinkedHere(f, f', next, prev, head, n); } else { RelinkedElsewhere(f, f', next, prev, head, g, n); }
    }
  }

  /** list_add_head leaves circles, whatever they hold, exactly when the node was
      in no list. */
  lemma AddHeadIff(f: Forest, next: Pointers, prev: Pointers, head: ListHead, n: ListHead)
    requires Circular(f, next, prev) && head in f && n !in f
    ensures head in next && next[head] != null
    ensures (exists f': Forest :: f'.Keys == f.Keys && Circular(f', NextsAfter(next, head, n), PrevsAfter(next, prev, head, n)))
       <==> !Linked(f, n)
  {
    CircleStep(f, next, prev, head, 0);
    if Linked(f, n) {
      Relinked(f, next, prev, head, n);
    } else {
      InsertKeepsCircular(f, next, prev, head, 0, n);
      assert Inserted(f, head, 0, n).Keys == f.Keys;
    }
  }

  /** The writes of list_add_head, without its precondition */
  method ListAddHeadAgain(n: ListHead, head: ListHead, ghost f: Forest, ghost cells: set<ListHead>)
    requires WellFormed(f, cells) && head in f && n in cells && Linked(f, n)
    modifies n, head, head.next
    ensures forall f': Forest :: f'.Keys == f.Keys ==> !WellFormed(f', cells)
  {
    ghost var next, prev := Nexts(cells), Prevs(cells);
    assert n !in f && head != n;
    EndsInside(f, cells, head);
    ListInsert(n, head, head.next, cells);
    Relinked(f, next, prev, head, n);
    assert Nexts(cells) == NextsAfter(next, head, n) && Prevs(cells) == PrevsAfter(next, prev, head, n);
  }

  /** The list_add_head that connect does on a sock that is bound already: no
      lists of any socks are what is then on the heap. */
  method ConnectBound(n: ListHead, head: ListHead, h: Host, ghost at: Cells, id: SockId, t: Tuple)
    requires Realised(h, at) && TablesOk(h) && InBind(h, id)
    requires Head(BindKey(t.sport)) in at && Node(BindHashList, id) in at
    requires head == at[Head(BindKey(t.sport))] && n == at[Node(BindHashList, id)]
    modifies at.Values
    ensures forall h': Host :: !Realised(h', at)
  {
    RealisedIsLinkage(h, at);
    HashedIsLinked(h, id);
    LinkedInForest(h, at, BindHashList, id);
    assert BindKey(t.sport) in h.lists;
    HeadPresent(h, at, BindKey(t.sport));
    EndsInside(ForestOf(h, at), at.Values, head);
    ListAddHeadAgain(n, head, ForestOf(h, at), at.Values);
    forall h': Host ensures !Realised(h', at) {
      RealisedIsLinkage(h', at);
    }
  }

  /** Binding to a free port and connecting is such a sequence of calls. */
  lemma BindThenConnect(h: Host, id: SockId, port: u16)
    requires HostOk(h) && Idle(h, id) && !InBind(h, id) && SetSport(h, id, port).Some?
    ensures var h1 := SetSport(h, id, port).value; HostOk(h1) && Idle(h1, id) && InBind(h1, id)
  {
    BindHost(h, id, port);
    var s := h.socks[id];
    var h0 := Update(h, id, s.(tuple := s.tuple.(sport := ChoosePort(h, port).value)));
    UpdateStanding(h, id, h0.socks[id]);
    ReconfigureKeeps(h, id, h0.socks[id]);
    BindHashKeeps(h0, id);
  }
}
