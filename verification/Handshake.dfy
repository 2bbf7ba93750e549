/** What holds in every run of the network. */
module Handshake {
  import opened Base
  import opened Segments
  import opened Hosts
  import opened Tables
  import opened Queues
  import opened Net

  ghost predicate Step(w: World, w': World) {
    exists a :: Enabled(w, a) && HostReady(w.hosts[a.x], a) && w' == Next(w, a)
  }

  /** A run starts from any number of freshly initialised stacks. */
  ghost predicate IsRun(ws: seq<World>) {
    && |ws| > 0
    && ws[0] == Initial(|ws[0].hosts|)
    && forall i :: 0 <= i < |ws| - 1 ==> Step(ws[i], ws[i + 1])
  }

  lemma {:induction false} RunOk(ws: seq<World>, i: nat)
    requires IsRun(ws) && i < |ws|
    ensures WorldOk(ws[i])
  {
    if i == 0 {
      InitialOk(|ws[0].hosts|);
    } else {
      RunOk(ws, i - 1);
      assert Step(ws[i - 1], ws[i - 1 + 1]);
      var a :| Enabled(ws[i - 1], a) && HostReady(ws[i - 1].hosts[a.x], a) && ws[i] == Next(ws[i - 1], a);
      StepOk(ws[i - 1], a);
    }
  }

  /** Sock c of host x is a child with tuple t that has completed its handshake. */
  predicate ChildEstablished(w: World, x: nat, c: SockId, t: Tuple) {
    x < |w.hosts| && IsChild(w.hosts[x], c, t) && w.hosts[x].socks[c].state == Established
  }

  /** On one host: the child is acknowledged by a bare ACK of its peer. */
  lemma AckedByPeer(h: Host, a: Action, c: SockId, t: Tuple)
    requires HostOk(h) && HostEnabled(h, a) && HostReady(h, a) && c < |HostNext(h, a).socks|
    requires IsChild(HostNext(h, a), c, t) && HostNext(h, a).socks[c].state == Established
    requires !(IsChild(h, c, t) && h.socks[c].state == Established)
    ensures a.Deliver? && a.g.flags == ACK && a.g.from == Mirror(t)
  {
    StepHost(h, a);
    assert c < |h.socks| ==> Later(h.socks[c], HostNext(h, a).socks[c]);
    if a.Deliver? {
      DeliveryChanges(h, a, c);
    } else {
      CallChanges(h, a, c);
    }
  }

  /** The step that establishes a child finds its peer already established. */
  lemma ChildEstablishedBy(w: World, w': World, x: nat, c: SockId, t: Tuple)
    requires WorldOk(w) && Step(w, w') && !ChildEstablished(w, x, c, t) && ChildEstablished(w', x, c, t)
    ensures HasConnected(w, Mirror(t))
  {
    var a :| Enabled(w, a) && HostReady(w.hosts[a.x], a) && w' == Next(w, a);
    assert x == a.x && HostOk(w.hosts[x]);
    AckedByPeer(w.hosts[x], a, c, t);
    assert Vouched(w, a.g);
  }

  lemma NobodyAtStart(n: nat, x: nat, c: SockId, t: Tuple)
    ensures !ChildEstablished(Initial(n), x, c, t)
  {
    assert EmptyHost.socks == [];
  }

  lemma NobodyYet(ws: seq<World>, x: nat, c: SockId, t: Tuple)
    requires IsRun(ws)
    ensures !ChildEstablished(ws[0], x, c, t)
  {
    NobodyAtStart(|ws[0].hosts|, x, c, t);
  }

  /** Between a state without and a state with the established child one step
      establishes it. */
  lemma {:induction false} EstablishingStep(ws: seq<World>, j: nat, x: nat, c: SockId, t: Tuple) returns (i: nat)
    requires j < |ws| && !ChildEstablished(ws[0], x, c, t) && ChildEstablished(ws[j], x, c, t)
    ensures i < j && !ChildEstablished(ws[i], x, c, t) && ChildEstablished(ws[i + 1], x, c, t)
  {
    if ChildEstablished(ws[j - 1], x, c, t) {
      i := EstablishingStep(ws, j - 1, x, c, t);
    } else {
      i := j - 1;
    }
  }

  /** A passively opened sock is established only after the active opener at
      the other end, which sent the SYN, is established. */
  lemma EstablishedAfterPeer(ws: seq<World>, j: nat, x: nat, c: SockId, t: Tuple) returns (i: nat)
    requires IsRun(ws) && j < |ws| && ChildEstablished(ws[j], x, c, t)
    ensures i < j && HasConnected(ws[i], Mirror(t)) && !ChildEstablished(ws[i], x, c, t)
  {
    NobodyYet(ws, x, c, t);
    i := EstablishingStep(ws, j, x, c, t);
    JustEstablished(ws, i, x, c, t);
  }

  lemma JustEstablished(ws: seq<World>, i: nat, x: nat, c: SockId, t: Tuple)
    requires IsRun(ws) && i + 1 < |ws| && !ChildEstablished(ws[i], x, c, t) && ChildEstablished(ws[i + 1], x, c, t)
    ensures HasConnected(ws[i], Mirror(t))
  {
    assert WorldOk(ws[i]) by { RunOk(ws, i); }
    assert Step(ws[i], ws[i + 1]);
    ChildEstablishedBy(ws[i], ws[i + 1], x, c, t);
  }

  /** In every reachable state the two ends of a connection are in step: a child
      has an opener, an established child an established opener, and an
      established opener a child. */
  lemma EndsInStep(ws: seq<World>, j: nat, x: nat, i: nat)
    requires IsRun(ws) && j < |ws| && x < |ws[j].hosts| && i < |ws[j].hosts[x].socks|
    ensures Paired(ws[j], ws[j].hosts[x].socks[i])
  {
    RunOk(ws, j);
  }

  /** Every bare ACK ever sent came from an established active opener, every
      SYN|ACK from a child and every SYN from an opener. */
  lemma SegmentsVouched(ws: seq<World>, j: nat, g: Segment)
    requires IsRun(ws) && j < |ws| && g in ws[j].sent
    ensures Vouched(ws[j], g)
  {
    RunOk(ws, j);
  }

  /** A SYN that reaches a listener gets a child: tcp_hash does not fail, and
      the connection had no child before. */
  lemma SpawnSucceeds(h: Host, g: Segment)
    requires HostOk(h) && Lookup(h, g).Some? && Lookup(h, g).value < |h.socks| && EffectOf(h, g).Spawns?
    ensures HashSock(Offered(h, EffectOf(h, g).id, g), |h.socks|).Some?
    ensures forall c: SockId :: !IsChild(h, c, Mirror(g.from))
  {
    LookupResult(h, g);
    SpawnTables(h, EffectOf(h, g).id, g);
    NoChildYet(h, Mirror(g.from));
  }

  lemma NoChildYet(h: Host, t: Tuple)
    requires HostOk(h) && LookupEstablished(h, t).None?
    ensures forall c: SockId :: !IsChild(h, c, t)
  {
    FindTupleFinds(h, ListOf(h, EstKey(t)), t);
    forall c: SockId ensures !IsChild(h, c, t) {
      assert IsChild(h, c, t) ==> InEstablished(h, c);
    }
  }

  lemma SpawnNeverFails(ws: seq<World>, j: nat, x: nat, g: Segment)
    requires IsRun(ws) && j < |ws| && x < |ws[j].hosts|
    requires Lookup(ws[j].hosts[x], g).Some?
    ensures Lookup(ws[j].hosts[x], g).value < |ws[j].hosts[x].socks|
    ensures var h := ws[j].hosts[x];
      EffectOf(h, g).Spawns? ==>
        HashSock(Offered(h, EffectOf(h, g).id, g), |h.socks|).Some? && forall c: SockId :: !IsChild(h, c, Mirror(g.from))
  {
    assert HostOk(ws[j].hosts[x]) by { RunOk(ws, j); }
    LookupResult(ws[j].hosts[x], g);
    if EffectOf(ws[j].hosts[x], g).Spawns? {
      SpawnSucceeds(ws[j].hosts[x], g);
    }
  }

  /** However often a SYN is delivered, a connection has one child per host. */
  lemma OneChild(ws: seq<World>, j: nat, x: nat, c: SockId, d: SockId, t: Tuple)
    requires IsRun(ws) && j < |ws| && x < |ws[j].hosts| && IsChild(ws[j].hosts[x], c, t) && IsChild(ws[j].hosts[x], d, t)
    ensures c == d
  {
    RunOk(ws, j);
    ChildrenUnique(ws[j].hosts[x], c, d);
  }

  /** The queues of every listener at every point of a run. */
  lemma QueuesInOrder(ws: seq<World>, j: nat, x: nat, l: SockId)
    requires IsRun(ws) && j < |ws| && x < |ws[j].hosts| && l < |ws[j].hosts[x].socks|
    ensures var w, h := ws[j], ws[j].hosts[x];
      && h.socks[l].acceptBacklog == |ListOf(h, AcceptQueue(l))|
      && AckOrder(w.log, x, l) == AcceptOrder(w.log, x, l) + ListOf(h, AcceptQueue(l))
      && Distinct(AckOrder(w.log, x, l))
      && (h.socks[l].state == SynRecv ==>
            && h.socks[l].parent.Some?
            && multiset(ListOf(h, ListenQueue(h.socks[l].parent.value)))[l] == 1
            && (forall p: SockId :: l in ListOf(h, ListenQueue(p)) ==> p == h.socks[l].parent.value)
            && forall p: SockId :: l !in ListOf(h, AcceptQueue(p)))
  {
    RunOk(ws, j);
    var h := ws[j].hosts[x];
    assert HostOk(h) && InOrder(ws[j], x, l);
    if h.socks[l].state == SynRecv {
      ChildQueuedOnce(h, l);
    }
  }

  /** Without a close by the application no stack closes a sock either: a host
      halts only on a segment that no sock answers for. */
  lemma NothingCloses(ws: seq<World>, j: nat, a: Action)
    requires IsRun(ws) && j < |ws| && Enabled(ws[j], a) && HostReady(ws[j].hosts[a.x], a)
    ensures Halts(ws[j].hosts[a.x], a) <==> a.Deliver? && Lookup(ws[j].hosts[a.x], a.g).None?
  {
    if a.Deliver? {
      assert Vouched(ws[j], a.g) by { RunOk(ws, j); }
      if Lookup(ws[j].hosts[a.x], a.g).Some? {
        ClosingFlags(ws[j].hosts[a.x], a);
      }
    }
  }

  lemma ClosingFlags(h: Host, a: Action)
    requires a.Deliver? && HostReady(h, a) && Lookup(h, a.g).Some?
    ensures Halts(h, a) ==> a.g.flags == RST || a.g.flags == FIN
  {
  }

  // Runs as sequences of actions

  function Last(ws: seq<World>): World
    requires |ws| > 0
  {
    ws[|ws| - 1]
  }

  lemma RunGrows(ws: seq<World>, w: World)
    requires IsRun(ws) && Step(Last(ws), w)
    ensures IsRun(ws + [w]) && Last(ws + [w]) == w
  {
    var vs := ws + [w];
    forall i | 0 <= i < |vs| - 1 ensures Step(vs[i], vs[i + 1]) {
      assert i < |ws| - 1 ==> Step(ws[i], ws[i + 1]);
    }
  }

  /** Each action is enabled where the ones before it lead. */
  predicate Playable(w: World, acts: seq<Action>)
    decreases |acts|, 0
  {
    acts == [] || (Playable(w, acts[..|acts| - 1]) && Follows(Play(w, acts[..|acts| - 1]), acts[|acts| - 1]))
  }

  predicate Follows(w: World, a: Action) {
    Enabled(w, a) && HostReady(w.hosts[a.x], a)
  }

  function Play(w: World, acts: seq<Action>): World
    requires Playable(w, acts)
    decreases |acts|, 1
  {
    if acts == [] then w else Next(Play(w, acts[..|acts| - 1]), acts[|acts| - 1])
  }

  lemma PlayOneMore(w: World, acts: seq<Action>, a: Action)
    requires Playable(w, acts) && Follows(Play(w, acts), a)
    ensures Playable(w, acts + [a]) && Play(w, acts + [a]) == Next(Play(w, acts), a)
  {
    assert (acts + [a])[..|acts + [a]| - 1] == acts;
  }

  predicate StepBy(w: World, a: Action, w': World) {
    Follows(w, a) && w' == Next(w, a)
  }

  /** ws are the states through which acts lead. */
  ghost predicate Trace(ws: seq<World>, acts: seq<Action>) {
    |ws| == |acts| + 1 && forall i {:trigger StepBy(ws[i], acts[i], ws[i + 1])} :: 0 <= i < |acts| ==> StepBy(ws[i], acts[i], ws[i + 1])
  }

  lemma {:induction false} PlayFrom(w: World, acts: seq<Action>) returns (ws: seq<World>)
    requires Playable(w, acts) && IsRun([w])
    ensures IsRun(ws) && ws[0] == w && Last(ws) == Play(w, acts) && Trace(ws, acts)
    decreases |acts|
  {
    if acts == [] {
      ws := [w];
    } else {
      var vs := PlayFrom(w, acts[..|acts| - 1]);
      ws := PlayOn(w, acts, vs);
    }
  }

  lemma PlayOn(w: World, acts: seq<Action>, vs: seq<World>) returns (ws: seq<World>)
    requires acts != [] && Playable(w, acts)
    requires var front := acts[..|acts| - 1]; IsRun(vs) && vs[0] == w && Last(vs) == Play(w, front) && Trace(vs, front)
    ensures IsRun(ws) && ws[0] == w && Last(ws) == Play(w, acts) && Trace(ws, acts)
  {
    ws := PlayStep(vs, acts[..|acts| - 1], acts[|acts| - 1]);
    assert acts[..|acts| - 1] + [acts[|acts| - 1]] == acts;
  }

  /** What is played from the initial state is a run. */
  lemma PlayIsRun(n: nat, acts: seq<Action>) returns (ws: seq<World>)
    requires Playable(Initial(n), acts)
    ensures IsRun(ws) && ws[0] == Initial(n) && Last(ws) == Play(Initial(n), acts) && Trace(ws, acts)
  {
    assert IsRun([Initial(n)]);
    ws := PlayFrom(Initial(n), acts);
  }

  lemma PlayStep(vs: seq<World>, acts: seq<Action>, a: Action) returns (ws: seq<World>)
    requires IsRun(vs) && Trace(vs, acts) && Follows(Last(vs), a)
    ensures IsRun(ws) && ws[0] == vs[0] && Last(ws) == Next(Last(vs), a) && Trace(ws, acts + [a])
  {
    var w := Next(Last(vs), a);
    ws := vs + [w];
    assert StepBy(Last(vs), a, w) && Step(Last(vs), w);
    RunGrows(vs, w);
    TraceGrows(vs, acts, a, w);
  }

  lemma TraceGrows(ws: seq<World>, acts: seq<Action>, a: Action, w: World)
    requires Trace(ws, acts) && StepBy(ws[|ws| - 1], a, w)
    ensures Trace(ws + [w], acts + [a])
  {
    var vs, bs := ws + [w], acts + [a];
    forall i | 0 <= i < |bs| ensures StepBy(vs[i], bs[i], vs[i + 1]) {
      assert i < |acts| ==> StepBy(ws[i], acts[i], ws[i + 1]);
    }
  }

  /** Every run is played by some sequence of actions. */
  lemma {:induction false} RunIsPlayed(ws: seq<World>) returns (acts: seq<Action>)
    requires IsRun(ws)
    ensures Playable(ws[0], acts) && Play(ws[0], acts) == Last(ws)
    decreases |ws|
  {
    if |ws| == 1 {
      acts := [];
    } else {
      var front := ws[..|ws| - 1];
      assert IsRun(front) by {
        forall i | 0 <= i < |front| - 1 ensures Step(front[i], front[i + 1]) { assert Step(ws[i], ws[i + 1]); }
      }
      var rest := RunIsPlayed(front);
      assert Step(ws[|ws| - 2], ws[|ws| - 2 + 1]);
      var a :| Enabled(Last(front), a) && HostReady(Last(front).hosts[a.x], a) && Last(ws) == Next(Last(front), a);
      PlayOneMore(ws[0], rest, a);
      acts := rest + [a];
    }
  }
}
