/** Whole runs on the heap: any number of stacks that share no object carry out
    every run of the network model. */
module StackRuns {
  import opened Base
  import opened Segments
  import opened Hosts
  import opened Queues
  import opened Net
  import opened Handshake
  import opened Layout
  import opened TcpStack
  import opened StackSteps

  /** Every object that a stack's steps may change */
  ghost function Owned(st: Stack): set<object>
    reads st
  {
    {st} + st.at.Values + set s | s in st.socks
  }

  /** The links on the heap are those of host h, and its first n socks hold their
      values. */
  ghost predicate ShowsFirst(st: Stack, h: Host, n: nat)
    reads Owned(st)
  {
    if n == 0 then
      && TablesSized(st.established, st.listening, st.bound)
      && Wired(st.socks, st.established, st.listening, st.bound, st.at, |st.socks|)
      && Realised(h, st.at) && st.host == h && |h.socks| == |st.socks|
    else
      ShowsFirst(st, h, n - 1) && (n <= |st.socks| == |h.socks| ==> st.socks[n - 1].id == n - 1 && st.socks[n - 1].Val() == h.socks[n - 1])
  }

  /** The stack on the heap is host h. */
  ghost predicate Shows(st: Stack, h: Host)
    reads Owned(st)
  {
    ShowsFirst(st, h, |st.socks|)
  }

  lemma {:induction false} ShowsGives(st: Stack, h: Host, n: nat)
    requires ShowsFirst(st, h, n) && n <= |st.socks|
    ensures ShowsFirst(st, h, 0) && |h.socks| == |st.socks|
    ensures forall i :: 0 <= i < n ==> st.socks[i].id == i && st.socks[i].Val() == h.socks[i]
  {
    if n > 0 {
      ShowsGives(st, h, n - 1);
    }
  }

  lemma {:induction false} ShowsNeeds(st: Stack, h: Host, n: nat)
    requires ShowsFirst(st, h, 0) && n <= |st.socks|
    requires forall i :: 0 <= i < n ==> st.socks[i].id == i && st.socks[i].Val() == h.socks[i]
    ensures ShowsFirst(st, h, n)
  {
    if n > 0 {
      ShowsNeeds(st, h, n - 1);
    }
  }

  lemma ShowsMeans(st: Stack, h: Host)
    ensures Shows(st, h) <==> st.Valid() && st.host == h
  {
    if Shows(st, h) { ShowsGives(st, h, |st.socks|); }
    if st.Valid() && st.host == h { ShowsNeeds(st, h, |st.socks|); }
  }

  twostate lemma OwnedFresh(st: Stack)
    requires old(st.socks) <= st.socks && fresh(st.socks[|old(st.socks)|..]) && fresh(st.at.Values - old(st.at.Values))
    ensures fresh(Owned(st) - old(Owned(st)))
  {
    forall s | s in st.socks && s !in old(st.socks) ensures fresh(s) {
      assert s in st.socks[|old(st.socks)|..];
    }
  }

  /** One call or arriving segment on one stack. */
  method StepOne(st: Stack, a: Action, ghost h: Host) returns (sent: seq<Segment>, halts: bool)
    requires Shows(st, h) && HostOk(h) && HostEnabled(h, a) && HostReady(h, a)
    modifies Owned(st)
    ensures Shows(st, HostNext(h, a)) && fresh(Owned(st) - old(Owned(st)))
    ensures (set s | s in sent) == Sends(h, a) && halts == Halts(h, a)
  {
    ShowsMeans(st, h);
    sent, halts := Perform(st, a);
    ShowsMeans(st, HostNext(h, a));
    OwnedFresh(st);
  }

  ghost function OwnedEach(stacks: seq<Stack>): (r: seq<set<object>>)
    reads stacks
    ensures |r| == |stacks| && forall x :: 0 <= x < |stacks| ==> r[x] == Owned(stacks[x])
  {
    if stacks == [] then [] else [Owned(stacks[0])] + OwnedEach(stacks[1..])
  }

  /** No two of the sets meet, and all of them lie in one. */
  ghost predicate Apart(owned: seq<set<object>>, all: set<object>) {
    && (forall x, y :: 0 <= x < |owned| && 0 <= y < |owned| && x != y ==> owned[x] !! owned[y])
    && (forall x :: 0 <= x < |owned| ==> owned[x] <= all)
  }

  lemma GrowsApart(owned: seq<set<object>>, all: set<object>, x: nat, more: set<object>)
    requires Apart(owned, all) && x < |owned| && (more - owned[x]) !! all
    ensures Apart(owned[x := more], all + more) && (more - all) == more - owned[x]
  {
  }

  /** One step of one of several stacks: every other stack is as it was. */
  method StepAmong(stacks: seq<Stack>, a: Action, ghost hosts: seq<Host>, ghost all: set<object>)
    returns (sent: seq<Segment>, halts: bool, ghost more: set<object>)
    requires |stacks| == |hosts| && a.x < |stacks|
    requires forall x :: 0 <= x < |stacks| ==> Shows(stacks[x], hosts[x])
    requires forall x :: 0 <= x < |stacks| && x != a.x ==> Owned(stacks[x]) !! Owned(stacks[a.x])
    requires HostOk(hosts[a.x]) && HostEnabled(hosts[a.x], a) && HostReady(hosts[a.x], a)
    modifies Owned(stacks[a.x])
    ensures more == Owned(stacks[a.x]) && fresh(more - old(Owned(stacks[a.x]))) && (more - old(Owned(stacks[a.x]))) !! all
    ensures Shows(stacks[a.x], HostNext(hosts[a.x], a))
    ensures forall x :: 0 <= x < |stacks| && x != a.x ==> Shows(stacks[x], hosts[x]) && Owned(stacks[x]) == old(Owned(stacks[x]))
    ensures (set s | s in sent) == Sends(hosts[a.x], a) && halts == Halts(hosts[a.x], a)
  {
    sent, halts := StepOne(stacks[a.x], a, hosts[a.x]);
    more := Owned(stacks[a.x]);
  }

  lemma OwnedStepped(stacks: seq<Stack>, owned: seq<set<object>>, x: nat)
    requires |owned| == |stacks| && x < |stacks|
    requires forall y :: 0 <= y < |stacks| && y != x ==> Owned(stacks[y]) == owned[y]
    ensures OwnedEach(stacks) == owned[x := Owned(stacks[x])]
  {
  }

  /** The stacks stay apart. */
  method StepOn(stacks: seq<Stack>, a: Action, ghost hosts: seq<Host>, ghost all: set<object>)
    returns (sent: seq<Segment>, halts: bool, ghost more: set<object>)
    requires |stacks| == |hosts| && a.x < |stacks| && Apart(OwnedEach(stacks), all)
    requires forall x :: 0 <= x < |stacks| ==> Shows(stacks[x], hosts[x])
    requires HostOk(hosts[a.x]) && HostEnabled(hosts[a.x], a) && HostReady(hosts[a.x], a)
    modifies all
    ensures fresh(more - all) && Apart(OwnedEach(stacks), all + more)
    ensures Shows(stacks[a.x], HostNext(hosts[a.x], a))
    ensures forall x :: 0 <= x < |stacks| && x != a.x ==> Shows(stacks[x], hosts[x])
    ensures (set s | s in sent) == Sends(hosts[a.x], a) && halts == Halts(hosts[a.x], a)
  {
    ghost var owned := OwnedEach(stacks);
    assert owned[a.x] <= all;
    sent, halts, more := StepAmong(stacks, a, hosts, all);
    OwnedStepped(stacks, owned, a.x);
    GrowsApart(owned, all, a.x, more);
  }

  /** One step of the network, from w to w'. */
  method Advance(stacks: seq<Stack>, a: Action, ghost w: World, ghost w': World, ghost all: set<object>)
    returns (sent: seq<Segment>, halts: bool, ghost more: set<object>)
    requires StepBy(w, a, w') && HostOk(w.hosts[a.x])
    requires |stacks| == |w.hosts| && Apart(OwnedEach(stacks), all)
    requires forall x :: 0 <= x < |stacks| ==> Shows(stacks[x], w.hosts[x])
    modifies all
    ensures fresh(more - all) && Apart(OwnedEach(stacks), all + more)
    ensures |stacks| == |w'.hosts| && forall x :: 0 <= x < |stacks| ==> Shows(stacks[x], w'.hosts[x])
    ensures w'.sent == w.sent + (set s | s in sent) && w'.halted == if halts then w.halted + {a.x} else w.halted
  {
    sent, halts, more := StepOn(stacks, a, w.hosts, all);
  }

  /** The i-th step of a run */
  method AdvanceRun(stacks: seq<Stack>, acts: seq<Action>, i: nat, ghost ws: seq<World>, ghost all: set<object>)
    returns (out: seq<Segment>, halts: bool, ghost all': set<object>)
    requires IsRun(ws) && Trace(ws, acts) && i < |acts|
    requires |stacks| == |ws[i].hosts| && Apart(OwnedEach(stacks), all)
    requires forall x :: 0 <= x < |stacks| ==> Shows(stacks[x], ws[i].hosts[x])
    modifies all
    ensures fresh(all' - all) && Apart(OwnedEach(stacks), all')
    ensures |stacks| == |ws[i + 1].hosts| && forall x :: 0 <= x < |stacks| ==> Shows(stacks[x], ws[i + 1].hosts[x])
    ensures ws[i + 1].sent == ws[i].sent + (set s | s in out)
    ensures ws[i + 1].halted == if halts then ws[i].halted + {acts[i].x} else ws[i].halted
  {
    assert StepBy(ws[i], acts[i], ws[i + 1]);
    assert HostOk(ws[i].hosts[acts[i].x]) by { RunOk(ws, i); }
    ghost var more;
    out, halts, more := Advance(stacks, acts[i], ws[i], ws[i + 1], all);
    all' := all + more;
  }

  lemma JoinsApart(owned: seq<set<object>>, all: set<object>, own: set<object>)
    requires Apart(owned, all) && own !! all
    ensures Apart(owned + [own], all + own)
  {
  }

  method BootOne(ghost h: Host) returns (st: Stack)
    requires h == EmptyHost
    ensures Shows(st, h) && fresh(Owned(st))
  {
    st := new Stack();
    ShowsMeans(st, h);
    NewOwned(st);
  }

  twostate lemma NewOwned(new st: Stack)
    requires fresh(st) && fresh(st.at.Values) && st.socks == []
    ensures fresh(Owned(st))
  {
  }

  /** A further stack leaves the others alone. */
  method BootNext(stacks: seq<Stack>, ghost h: Host, ghost all: set<object>) returns (st: Stack)
    requires h == EmptyHost && Apart(OwnedEach(stacks), all) && forall x :: 0 <= x < |stacks| ==> Shows(stacks[x], h)
    ensures Shows(st, h) && fresh(Owned(st)) && Owned(st) !! all && OwnedEach(stacks) == old(OwnedEach(stacks))
    ensures forall x :: 0 <= x < |stacks| ==> Shows(stacks[x], h)
  {
    assert forall x :: 0 <= x < |stacks| ==> Owned(stacks[x]) <= all;
    st := BootOne(h);
  }

  method BootMore(stacks: seq<Stack>, ghost h: Host, ghost all: set<object>) returns (stacks': seq<Stack>, ghost all': set<object>)
    requires h == EmptyHost && Apart(OwnedEach(stacks), all) && forall x :: 0 <= x < |stacks| ==> Shows(stacks[x], h)
    ensures |stacks'| == |stacks| + 1 && all <= all' && fresh(all' - all) && Apart(OwnedEach(stacks'), all')
    ensures forall x :: 0 <= x < |stacks'| ==> Shows(stacks'[x], h)
  {
    ghost var owned := OwnedEach(stacks);
    var st := BootNext(stacks, h, all);
    stacks', all' := stacks + [st], all + Owned(st);
    OwnedAppend(stacks, st);
    JoinsApart(owned, all, Owned(st));
  }

  lemma OwnedAppend(stacks: seq<Stack>, st: Stack)
    ensures OwnedEach(stacks + [st]) == OwnedEach(stacks) + [Owned(st)]
  {
    assert forall x :: 0 <= x < |stacks| + 1 ==> OwnedEach(stacks + [st])[x] == Owned((stacks + [st])[x]);
  }

  /** k freshly initialised stacks beside those there are */
  method Boot(k: nat, stacks: seq<Stack>, ghost h: Host, ghost all: set<object>) returns (stacks': seq<Stack>, ghost all': set<object>)
    requires h == EmptyHost && Apart(OwnedEach(stacks), all) && forall x :: 0 <= x < |stacks| ==> Shows(stacks[x], h)
    ensures |stacks'| == |stacks| + k && all <= all' && fresh(all' - all) && Apart(OwnedEach(stacks'), all')
    ensures forall x :: 0 <= x < |stacks'| ==> Shows(stacks'[x], h)
  {
    if k == 0 {
      return stacks, all;
    }
    ghost var more;
    stacks', more := BootMore(stacks, h, all);
    stacks', all' := Boot(k - 1, stacks', h, more);
  }

  method BootWorld(n: nat, ghost w: World) returns (stacks: seq<Stack>, ghost all: set<object>)
    requires w == Initial(n)
    ensures |stacks| == |w.hosts| && fresh(all) && Apart(OwnedEach(stacks), all)
    ensures forall x :: 0 <= x < |stacks| ==> Shows(stacks[x], w.hosts[x])
  {
    ghost var h := EmptyHost;
    stacks, all := [], {};
    assert Apart(OwnedEach(stacks), all);
    stacks, all := Boot(n, stacks, h, all);
  }

  lemma Unveil(stacks: seq<Stack>, hosts: seq<Host>)
    requires |stacks| == |hosts| && forall x :: 0 <= x < |stacks| ==> Shows(stacks[x], hosts[x])
    ensures forall x :: 0 <= x < |stacks| ==> stacks[x].Valid() && stacks[x].host == hosts[x]
  {
    forall x | 0 <= x < |stacks| ensures stacks[x].Valid() && stacks[x].host == hosts[x] {
      ShowsMeans(stacks[x], hosts[x]);
    }
  }

  /** Stacks that are the hosts of a run after i steps end as its last hosts. */
  method CarryOn(stacks: seq<Stack>, acts: seq<Action>, i: nat, sent: set<Segment>, halted: set<nat>,
                 ghost ws: seq<World>, ghost all: set<object>)
    returns (sent': set<Segment>, halted': set<nat>)
    requires IsRun(ws) && Trace(ws, acts) && i <= |acts|
    requires sent == ws[i].sent && halted == ws[i].halted
    requires |stacks| == |ws[i].hosts| && Apart(OwnedEach(stacks), all)
    requires forall x :: 0 <= x < |stacks| ==> Shows(stacks[x], ws[i].hosts[x])
    modifies all
    ensures |stacks| == |ws[|acts|].hosts| && forall x :: 0 <= x < |stacks| ==> Shows(stacks[x], ws[|acts|].hosts[x])
    ensures sent' == ws[|acts|].sent && halted' == ws[|acts|].halted
    decreases |acts| - i
  {
    if i == |acts| {
      return sent, halted;
    }
    var out, halts, all' := AdvanceRun(stacks, acts, i, ws, all);
    sent', halted' := CarryOn(stacks, acts, i + 1, sent + (set s | s in out), if halts then halted + {acts[i].x} else halted, ws, all');
  }

  /** Boot n stacks and carry out a run: the stacks end as the hosts of the
      network model, having sent what it sent, and ws is that run. */
  method Simulate(n: nat, acts: seq<Action>)
    returns (stacks: seq<Stack>, sent: set<Segment>, halted: set<nat>, ghost ws: seq<World>)
    requires Playable(Initial(n), acts)
    ensures IsRun(ws) && ws[0] == Initial(n) && Last(ws) == Play(Initial(n), acts) && Trace(ws, acts)
    ensures |stacks| == |Last(ws).hosts| && sent == Last(ws).sent && halted == Last(ws).halted
    ensures forall x :: 0 <= x < |stacks| ==> stacks[x].Valid() && stacks[x].host == Last(ws).hosts[x]
  {
    ws := PlayIsRun(n, acts);
    ghost var all;
    stacks, all := BootWorld(n, ws[0]);
    sent, halted := CarryOn(stacks, acts, 0, {}, {}, ws, all);
    Unveil(stacks, Last(ws).hosts);
  }

  /** What the run theorems say of the objects: a child on the heap is
      established only after its peer was. */
  lemma EstablishedOnHeap(st: Stack, ws: seq<World>, x: nat, c: SockId) returns (i: nat)
    requires IsRun(ws) && x < |Last(ws).hosts| && st.Valid() && st.host == Last(ws).hosts[x] && c < |st.socks|
    requires st.socks[c].parent.Some? && st.socks[c].state == Established
    ensures i < |ws| - 1 && HasConnected(ws[i], Mirror(st.socks[c].Val().tuple))
  {
    assert st.socks[c].Val() == st.host.socks[c];
    i := EstablishedAfterPeer(ws, |ws| - 1, x, c, st.socks[c].Val().tuple);
  }
}
