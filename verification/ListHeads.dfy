/** Intrusive circular lists (include/list.h) on the heap. A forest of lists is
    described by a ghost map from each list's head to its nodes in order. */
module ListHeads {
  import opened Base

  /** What the address of a list_head stands for: the head of a list or a
      member of a sock. */
  datatype Place = Head(list: ListId) | Node(member: Member, sock: SockId)

  class ListHead {
    const place: Place
    var next: ListHead?
    var prev: ListHead?

    // memset leaves both pointers null
    constructor (place: Place)
      ensures this.place == place && next == null && prev == null
    {
      this.place := place;
      next := null;
      prev := null;
    }
  }

  type Forest = map<ListHead, seq<ListHead>>
  type Pointers = map<ListHead, ListHead?>

  ghost function Nexts(cells: set<ListHead>): Pointers
    reads cells
  {
    map x | x in cells :: x.next
  }

  ghost function Prevs(cells: set<ListHead>): Pointers
    reads cells
  {
    map x | x in cells :: x.prev
  }

  /** The nodes of a list between two occurrences of its head. */
  ghost function Circle(h: ListHead, s: seq<ListHead>): seq<ListHead> {
    [h] + s + [h]
  }

  /** Neighbours in c point at each other. */
  ghost predicate Chained(c: seq<ListHead>, next: Pointers, prev: Pointers) {
    && (forall i :: 0 <= i < |c| - 1 ==> c[i] in next && next[c[i]] == c[i + 1])
    && (forall i :: 0 < i < |c| ==> c[i] in prev && prev[c[i]] == c[i - 1])
  }

  /** Only the two ends of c may be the same cell. */
  ghost predicate OnlyEndsMeet(c: seq<ListHead>) {
    forall i, j :: 0 <= i < j < |c| && c[i] == c[j] ==> i == 0 && j == |c| - 1
  }

  /** No node is a head and no node occurs twice, in one list or in two. */
  ghost predicate Separate(f: Forest) {
    && (forall h, i :: h in f && 0 <= i < |f[h]| ==> f[h][i] !in f)
    && (forall h, i, g, j :: h in f && g in f && 0 <= i < |f[h]| && 0 <= j < |f[g]| && f[h][i] == f[g][j]
          ==> h == g && i == j)
  }

  ghost predicate Linked(f: Forest, n: ListHead) {
    exists h :: h in f && n in f[h]
  }

  ghost predicate Unlinked(f: Forest, n: ListHead) {
    n !in f && !Linked(f, n)
  }

  /** Every list of f is a circle of these pointers, and the lists are apart. */
  ghost predicate Circular(f: Forest, next: Pointers, prev: Pointers) {
    && Separate(f)
    && forall h :: h in f ==> Chained(Circle(h, f[h]), next, prev)
  }

  ghost predicate WellFormed(f: Forest, cells: set<ListHead>)
    reads cells
  {
    Circular(f, Nexts(cells), Prevs(cells))
  }

  /** f with n inserted before position p of head's list. */
  ghost function Inserted(f: Forest, head: ListHead, p: nat, n: ListHead): Forest
    requires head in f && p <= |f[head]|
  {
    f[head := f[head][..p] + [n] + f[head][p..]]
  }

  /** f with n deleted from whichever list holds it. */
  ghost function Deleted(f: Forest, n: ListHead): Forest {
    map h | h in f :: Without(f[h], n)
  }

  lemma CircleClosed(f: Forest, h: ListHead)
    requires Separate(f) && h in f
    ensures OnlyEndsMeet(Circle(h, f[h]))
  {
  }

  lemma CirclesApart(f: Forest, h: ListHead, g: ListHead, p: nat)
    requires Separate(f) && h in f && g in f && h != g && p < |f[g]| + 2
    ensures Circle(g, f[g])[p] !in Circle(h, f[h])
  {
  }

  lemma SeparateInsert(f: Forest, head: ListHead, n: ListHead, p: nat)
    requires Separate(f) && head in f && p <= |f[head]| && Unlinked(f, n)
    ensures Separate(Inserted(f, head, p, n))
  {
    var f' := Inserted(f, head, p, n);
    forall h, i | h in f' && 0 <= i < |f'[h]| ensures f'[h][i] !in f' {}
  }

  lemma CircleGrown(h: ListHead, s: seq<ListHead>, n: ListHead, p: nat)
    requires p <= |s|
    ensures var c := Circle(h, s); Circle(h, s[..p] + [n] + s[p..]) == c[..p + 1] + [n] + c[p + 1..]
  {
  }

  lemma CircleCut(h: ListHead, s: seq<ListHead>, p: nat)
    requires p < |s|
    ensures var c := Circle(h, s); Circle(h, s[..p] + s[p + 1..]) == c[..p + 1] + c[p + 2..]
  {
  }

  lemma ChainGrown(c: seq<ListHead>, next: Pointers, prev: Pointers, n: ListHead, p: nat)
    requires p + 1 < |c| && OnlyEndsMeet(c) && n !in c && Chained(c, next, prev)
    ensures Chained(c[..p + 1] + [n] + c[p + 1..], next[c[p] := n][n := c[p + 1]], prev[c[p + 1] := n][n := c[p]])
  {
  }

  /** The pointer writes of list_insert keep every list a circle: the one at
      head gains n at position p and the others stay as they are. */
  lemma InsertKeepsCircular(f: Forest, next: Pointers, prev: Pointers, head: ListHead, p: nat, n: ListHead)
    requires Circular(f, next, prev) && head in f && p <= |f[head]| && Unlinked(f, n)
    ensures var c := Circle(head, f[head]);
      Circular(Inserted(f, head, p, n), next[c[p] := n][n := c[p + 1]], prev[c[p + 1] := n][n := c[p]])
  {
    var c, f' := Circle(head, f[head]), Inserted(f, head, p, n);
    SeparateInsert(f, head, n, p);
    CircleClosed(f, head);
    ChainGrown(c, next, prev, n, p);
    CircleGrown(head, f[head], n, p);
    forall h | h in f' && h != head
      ensures Chained(Circle(h, f'[h]), next[c[p] := n][n := c[p + 1]], prev[c[p + 1] := n][n := c[p]])
    {
      CirclesApart(f, h, head, p);
      CirclesApart(f, h, head, p + 1);
      assert n !in Circle(h, f[h]);
    }
  }

  lemma ChainCut(c: seq<ListHead>, next: Pointers, prev: Pointers, p: nat)
    requires 0 < p < |c| - 1 && OnlyEndsMeet(c) && Chained(c, next, prev)
    ensures Chained(c[..p] + c[p + 1..], next[c[p - 1] := c[p + 1]], prev[c[p + 1] := c[p - 1]])
  {
  }

  lemma DeletedAt(f: Forest, head: ListHead, p: nat)
    requires Separate(f) && head in f && p < |f[head]|
    ensures Deleted(f, f[head][p]) == f[head := f[head][..p] + f[head][p + 1..]]
  {
    var n := f[head][p];
    WithoutAt(f[head], p);
    forall h | h in f && h != head ensures Without(f[h], n) == f[h] {
      WithoutAbsent(f[h], n);
    }
  }

  /** A linked node and its two neighbours, none of which is the node itself. */
  lemma NeighboursAt(f: Forest, next: Pointers, prev: Pointers, head: ListHead, p: nat)
    requires Circular(f, next, prev) && head in f && p < |f[head]|
    ensures var c, n := Circle(head, f[head]), f[head][p];
      && n in next && n in prev && next[n] == c[p + 2] && prev[n] == c[p]
      && c[p + 2] in next && c[p] in next && c[p + 2] != n && c[p] != n
      && !Unlinked(f, c[p + 2]) && !Unlinked(f, c[p])
  {
    var c := Circle(head, f[head]);
    CircleClosed(f, head);
    assert c[p + 1] == f[head][p] && c[|c| - 1] == c[0] == head;
    assert c[0] in next;
  }

  lemma SeparateCut(f: Forest, head: ListHead, p: nat)
    requires Separate(f) && head in f && p < |f[head]|
    ensures Separate(f[head := f[head][..p] + f[head][p + 1..]])
  {
    var s := f[head][..p] + f[head][p + 1..];
    forall i | 0 <= i < |s| ensures s[i] == f[head][if i < p then i else i + 1] {}
  }

  lemma CutKeepsCircular(f: Forest, next: Pointers, prev: Pointers, head: ListHead, p: nat)
    requires Circular(f, next, prev) && head in f && p < |f[head]|
    ensures var c := Circle(head, f[head]);
      Circular(Deleted(f, f[head][p]), next[c[p] := c[p + 2]], prev[c[p + 2] := c[p]])
  {
    var c, f' := Circle(head, f[head]), f[head := f[head][..p] + f[head][p + 1..]];
    DeletedAt(f, head, p);
    SeparateCut(f, head, p);
    CircleClosed(f, head);
    ChainCut(c, next, prev, p + 1);
    CircleCut(head, f[head], p);
    forall h | h in f' && h != head
      ensures Chained(Circle(h, f'[h]), next[c[p] := c[p + 2]], prev[c[p + 2] := c[p]])
    {
      CirclesApart(f, h, head, p);
      CirclesApart(f, h, head, p + 2);
    }
  }

  /** The pointer writes of list_delete_entry keep every list a circle: the one
      that held n closes over the gap and the others stay as they are. */
  lemma DeleteKeepsCircular(f: Forest, next: Pointers, prev: Pointers, n: ListHead)
    requires Circular(f, next, prev) && Linked(f, n)
    ensures n in next && n in prev && next[n] != null && prev[n] != null
    ensures next[n] in next && prev[n] in next && next[n] != n && prev[n] != n
    ensures !Unlinked(f, next[n]) && !Unlinked(f, prev[n])
    ensures Circular(Deleted(f, n), next[prev[n] := next[n]], prev[next[n] := prev[n]])
  {
    var head :| head in f && n in f[head];
    var p :| 0 <= p < |f[head]| && f[head][p] == n;
    NeighboursAt(f, next, prev, head, p);
    CutKeepsCircular(f, next, prev, head, p);
  }

  lemma Neighbours(f: Forest, cells: set<ListHead>, n: ListHead)
    requires WellFormed(f, cells) && Linked(f, n)
    ensures n in cells && n.next != null && n.prev != null && n.next in cells && n.prev in cells && n.next != n
  {
    DeleteKeepsCircular(f, Nexts(cells), Prevs(cells), n);
  }

  method InitListHead(list: ListHead)
    modifies list
    ensures list.next == list && list.prev == list
  {
    list.prev := list;
    list.next := list.prev;
  }

  method ListInsert(n: ListHead, prev: ListHead, next: ListHead, ghost cells: set<ListHead>)
    requires n in cells && prev in cells && next in cells && n != prev
    modifies n, prev`next, next`prev
    ensures Nexts(cells) == old(Nexts(cells))[prev := n][n := next]
    ensures Prevs(cells) == old(Prevs(cells))[next := n][n := prev]
  {
    next.prev := n;
    prev.next := n;
    n.next := next;
    n.prev := prev;
  }

  method ListAddHead(n: ListHead, head: ListHead, ghost f: Forest, ghost cells: set<ListHead>)
    requires WellFormed(f, cells) && head in f && n in cells && Unlinked(f, n)
    modifies n, head, head.next
    ensures WellFormed(f[head := [n] + f[head]], cells)
    ensures forall x :: x in cells && x != n && Unlinked(f, x) ==> x.next == old(x.next) && x.prev == old(x.prev)
  {
    ghost var c := Circle(head, f[head]);
    assert Chained(c, Nexts(cells), Prevs(cells)) && c[0] == head;
    InsertKeepsCircular(f, Nexts(cells), Prevs(cells), head, 0, n);
    assert Inserted(f, head, 0, n)[head] == [n] + f[head];
    ListInsert(n, head, head.next, cells);
  }

  method ListAddTail(n: ListHead, head: ListHead, ghost f: Forest, ghost cells: set<ListHead>)
    requires WellFormed(f, cells) && head in f && n in cells && Unlinked(f, n)
    modifies n, head, head.prev
    ensures WellFormed(f[head := f[head] + [n]], cells)
    ensures forall x :: x in cells && x != n && Unlinked(f, x) ==> x.next == old(x.next) && x.prev == old(x.prev)
  {
    ghost var c, p := Circle(head, f[head]), |f[head]|;
    assert Chained(c, Nexts(cells), Prevs(cells)) && c[p + 1] == head;
    InsertKeepsCircular(f, Nexts(cells), Prevs(cells), head, p, n);
    assert Inserted(f, head, p, n)[head] == f[head] + [n];
    ListInsert(n, head.prev, head, cells);
  }

  /** The removed node keeps its own, now stale, pointers. */
  method ListDeleteEntry(n: ListHead, ghost f: Forest, ghost cells: set<ListHead>)
    requires WellFormed(f, cells) && Linked(f, n)
    requires n.next != null && n.prev != null
    modifies n.next`prev, n.prev`next
    ensures WellFormed(Deleted(f, n), cells)
    ensures forall x :: x in cells && (x == n || Unlinked(f, x)) ==> x.next == old(x.next) && x.prev == old(x.prev)
  {
    DeleteKeepsCircular(f, Nexts(cells), Prevs(cells), n);
    ghost var next, prev := Nexts(cells), Prevs(cells);
    n.next.prev := n.prev;
    n.prev.next := n.next;
    assert Nexts(cells) == next[prev[n] := next[n]];
    assert Prevs(cells) == prev[next[n] := prev[n]];
  }

  // Runs of list operations

  datatype ListOp = AddHead(n: ListHead, head: ListHead) | AddTail(n: ListHead, head: ListHead) | Delete(n: ListHead)

  /** What an operation does to the forest. */
  ghost function Apply(f: Forest, op: ListOp): Forest
    requires Allowed(f, op)
  {
    match op
    case AddHead(n, head) => f[head := [n] + f[head]]
    case AddTail(n, head) => f[head := f[head] + [n]]
    case Delete(n) => Deleted(f, n)
  }

  /** list.h inserts only unlinked nodes into known lists and deletes only linked ones. */
  ghost predicate Allowed(f: Forest, op: ListOp) {
    match op
    case AddHead(n, head) => head in f && Unlinked(f, n)
    case AddTail(n, head) => head in f && Unlinked(f, n)
    case Delete(n) => Linked(f, n)
  }

  ghost predicate AllowedRun(f: Forest, ops: seq<ListOp>) {
    ops == [] || (Allowed(f, ops[0]) && AllowedRun(Apply(f, ops[0]), ops[1..]))
  }

  ghost function ApplyAll(f: Forest, ops: seq<ListOp>): Forest
    requires AllowedRun(f, ops)
  {
    if ops == [] then f else ApplyAll(Apply(f, ops[0]), ops[1..])
  }

  method Perform(op: ListOp, ghost f: Forest, ghost cells: set<ListHead>)
    requires WellFormed(f, cells) && Allowed(f, op) && op.n in cells
    modifies cells
    ensures WellFormed(Apply(f, op), cells)
  {
    match op
    case AddHead(n, head) => NextAt(f, cells, head, 0); EndsInside(f, cells, head); ListAddHead(n, head, f, cells);
    case AddTail(n, head) => EndsInside(f, cells, head); ListAddTail(n, head, f, cells);
    case Delete(n) => Neighbours(f, cells, n); ListDeleteEntry(n, f, cells);
  }

  /** After any run of insertions and deletions every list is again a circle
      holding exactly what the run left in it. */
  method PerformAll(ops: seq<ListOp>, ghost f: Forest, ghost cells: set<ListHead>)
    requires WellFormed(f, cells) && AllowedRun(f, ops)
    requires forall i :: 0 <= i < |ops| ==> ops[i].n in cells
    modifies cells
    ensures WellFormed(ApplyAll(f, ops), cells)
  {
    ghost var g := f;
    var i := 0;
    while i < |ops|
      invariant 0 <= i <= |ops| && AllowedRun(g, ops[i..]) && ApplyAll(g, ops[i..]) == ApplyAll(f, ops)
      invariant WellFormed(g, cells)
    {
      assert ops[i..][1..] == ops[i + 1..];
      Perform(ops[i], g, cells);
      g := Apply(g, ops[i]);
      i := i + 1;
    }
  }

  lemma EndsInside(f: Forest, cells: set<ListHead>, h: ListHead)
    requires WellFormed(f, cells) && h in f
    ensures h in cells && h.next != null && h.next in cells && h.prev != null && h.prev in cells
  {
    NextAt(f, cells, h, 0);
    NextAt(f, cells, h, |f[h]|);
    if |f[h]| > 0 {
      NextAt(f, cells, h, 1);
    }
  }

  // Iteration

  /** The body of list_for_each_entry_safe may delete the node it is at. Which
      nodes it deletes is the caller's choice, here victims. */
  function Survivors(s: seq<ListHead>, victims: set<ListHead>): seq<ListHead> {
    if s == [] then []
    else Survivors(s[..|s| - 1], victims) + if s[|s| - 1] in victims then [] else [s[|s| - 1]]
  }

  lemma {:induction false} SurvivorsWithin(s: seq<ListHead>, victims: set<ListHead>)
    ensures forall x :: x in Survivors(s, victims) <==> x in s && x !in victims
  {
    if s != [] {
      SurvivorsWithin(s[..|s| - 1], victims);
      assert s == s[..|s| - 1] + [s[|s| - 1]];
    }
  }

  /** The forest once the first k nodes of head's list have been visited. */
  ghost function Sweeping(f: Forest, head: ListHead, victims: set<ListHead>, k: nat): Forest
    requires head in f && k <= |f[head]|
  {
    f[head := Survivors(f[head][..k], victims) + f[head][k..]]
  }

  lemma SweepStep(f: Forest, head: ListHead, victims: set<ListHead>, k: nat)
    requires Separate(f) && head in f && k < |f[head]| && Separate(Sweeping(f, head, victims, k))
    ensures var n, g := f[head][k], Sweeping(f, head, victims, k);
      && Linked(g, n)
      && Sweeping(f, head, victims, k + 1) == if n in victims then Deleted(g, n) else g
  {
    var s, n, g := f[head], f[head][k], Sweeping(f, head, victims, k);
    var kept := Survivors(s[..k], victims);
    assert s[..k + 1][..k] == s[..k] && s[..k + 1][k] == n;
    assert Survivors(s[..k + 1], victims) == if n in victims then kept else kept + [n];
    assert g[head][|kept|] == n;
    assert n in g[head];
    if n in victims {
      DeletedAt(g, head, |kept|);
      assert g[head][..|kept|] + g[head][|kept| + 1..] == kept + s[k + 1..];
      assert Deleted(g, n) == f[head := kept + s[k + 1..]];
    } else {
      assert kept + [n] + s[k + 1..] == g[head];
    }
  }

  lemma NextAt(f: Forest, cells: set<ListHead>, h: ListHead, i: nat)
    requires WellFormed(f, cells) && h in f && i <= |f[h]|
    ensures var c := Circle(h, f[h]);
      && c[i] in cells && c[i].next == c[i + 1] && c[i + 1].prev == c[i]
      && (0 < i ==> c[i] != h)
  {
    var c := Circle(h, f[h]);
    assert Chained(c, Nexts(cells), Prevs(cells));
    assert c[i] in Nexts(cells) && c[i + 1] in Prevs(cells);
  }

  lemma SweepEnds(f: Forest, head: ListHead, victims: set<ListHead>)
    requires head in f
    ensures Sweeping(f, head, victims, 0) == f
    ensures Sweeping(f, head, victims, |f[head]|) == f[head := Survivors(f[head], victims)]
  {
    assert f[head] == Survivors(f[head][..0], victims) + f[head][0..];
    assert f[head][..|f[head]|] == f[head];
    assert Survivors(f[head], victims) == Survivors(f[head], victims) + f[head][|f[head]|..];
  }

  /** The cursor of a sweep that has visited k nodes, and the saved successor. */
  ghost predicate AtNode(f: Forest, head: ListHead, k: nat, pos: ListHead, q: ListHead?)
    requires head in f
  {
    && k <= |f[head]|
    && pos == Circle(head, f[head])[k + 1]
    && (pos == head <==> k == |f[head]|)
    && q != null
    && (k < |f[head]| ==> q == Circle(head, f[head])[k + 2])
  }

  lemma Cursor(f: Forest, cells: set<ListHead>, head: ListHead, victims: set<ListHead>, k: nat)
    requires Separate(f) && head in f && k <= |f[head]| && WellFormed(Sweeping(f, head, victims, k), cells)
    ensures var pos := Circle(head, f[head])[k + 1]; AtNode(f, head, k, pos, pos.next)
  {
    var g, j := Sweeping(f, head, victims, k), |Survivors(f[head][..k], victims)|;
    if k < |f[head]| {
      NextAt(g, cells, head, j + 1);
      assert Circle(head, g[head])[j + 1] == f[head][k];
      assert Circle(head, g[head])[j + 2] == Circle(head, f[head])[k + 2];
    } else {
      NextAt(g, cells, head, 0);
    }
  }

  lemma SweepStarts(f: Forest, cells: set<ListHead>, head: ListHead, victims: set<ListHead>)
    requires WellFormed(f, cells) && head in f
    ensures head.next != null && AtNode(f, head, 0, head.next, head.next.next)
  {
    SweepEnds(f, head, victims);
    NextAt(f, cells, head, 0);
    Cursor(f, cells, head, victims, 0);
  }

  lemma TakeNext(f: Forest, head: ListHead, k: nat, pos: ListHead, q: ListHead?)
    requires head in f && AtNode(f, head, k, pos, q) && pos != head
    ensures f[head][..k + 1] == f[head][..k] + [pos]
  {
  }

  /** One turn of the loop: the body at pos, then the step to the saved q. */
  method VisitSafe(pos: ListHead, q: ListHead, victims: set<ListHead>,
                   ghost f: Forest, ghost cells: set<ListHead>, ghost head: ListHead, ghost k: nat, ghost g: Forest)
    returns (q': ListHead, ghost g': Forest)
    requires Separate(f) && head in f && AtNode(f, head, k, pos, q) && pos != head
    requires g == Sweeping(f, head, victims, k) && WellFormed(g, cells)
    modifies cells
    ensures g' == Sweeping(f, head, victims, k + 1) && WellFormed(g', cells)
    ensures AtNode(f, head, k + 1, q, q')
  {
    SweepStep(f, head, victims, k);
    Neighbours(g, cells, pos);
    if pos in victims {
      ListDeleteEntry(pos, g, cells);
    }
    Cursor(f, cells, head, victims, k + 1);
    q', g' := q.next, Sweeping(f, head, victims, k + 1);
  }

  method ForEachSafe(head: ListHead, victims: set<ListHead>, ghost f: Forest, ghost cells: set<ListHead>)
    returns (visited: seq<ListHead>)
    requires WellFormed(f, cells) && head in f
    modifies cells
    ensures visited == f[head]
    ensures WellFormed(f[head := Survivors(f[head], victims)], cells)
  {
    ghost var k, g := 0, f;
    visited := [];
    SweepEnds(f, head, victims);
    SweepStarts(f, cells, head, victims);
    var pos: ListHead := head.next;
    var q: ListHead := pos.next;
    while pos != head
      invariant Separate(f) && 0 <= k <= |f[head]| && visited == f[head][..k]
      invariant g == Sweeping(f, head, victims, k) && WellFormed(g, cells)
      invariant AtNode(f, head, k, pos, q)
      decreases |f[head]| - k
    {
      TakeNext(f, head, k, pos, q);
      visited := visited + [pos];
      var q';
      q', g := VisitSafe(pos, q, victims, f, cells, head, k, g);
      k, pos, q := k + 1, q, q';
    }
  }
}
