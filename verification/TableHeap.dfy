/** Runs of table operations on the heap: the socks and chains end as the plain
    reference says. */
module TableHeap {
  import opened Base
  import opened Segments
  import opened Hosts
  import opened Tables
  import opened TableRuns
  import opened TcpStack
  import opened StackRuns

  /** Linked nodes are those of socks that the tables hold. */
  ghost predicate NodesMatch(h: Host, op: Op) {
    match op
    case Hash(id) => !LinkedBy(h, HashList, id)
    case Unhash(id) => LinkedBy(h, HashList, id)
    case Bind(id, _) => !LinkedBy(h, BindHashList, id)
    case UnhashBind(id) => LinkedBy(h, BindHashList, id)
    case _ => true
  }

  lemma AllowedMatches(h: Host, op: Op)
    requires WellLinked(h) && Placed(h) && Allowed(h, op)
    ensures NodesMatch(h, op)
  {
    if !op.NewSock? {
      HashedIsLinked(h, op.id);
    }
  }

  /** One table operation on the heap */
  method PerformOp(st: Stack, op: Op)
    requires st.Valid() && Allowed(st.host, op) && NodesMatch(st.host, op)
    modifies st, st.at.Values, st.socks
    ensures st.Valid() && st.host == After(old(st.host), op)
    ensures old(st.socks) <= st.socks && fresh(st.socks[|old(st.socks)|..]) && fresh(st.at.Values - old(st.at.Values))
  {
    if op.NewSock? {
      var _ := st.AllocSock();
    } else {
      PerformHere(st, op);
      assert st.socks[|st.socks|..] == [] && st.at.Values - old(st.at.Values) == {};
    }
  }

  /** The operations that add no sock */
  method PerformHere(st: Stack, op: Op)
    requires st.Valid() && Allowed(st.host, op) && NodesMatch(st.host, op) && !op.NewSock?
    modifies st`host, st.at.Values, st.socks
    ensures st.Valid() && st.host == After(old(st.host), op)
  {
    if op.Configure? {
      Configured(st, op.id, op.tuple, op.state);
    } else {
      PerformLink(st, op);
    }
  }

  /** The operations on the chains */
  method PerformLink(st: Stack, op: Op)
    requires st.Valid() && Allowed(st.host, op) && NodesMatch(st.host, op) && !op.NewSock? && !op.Configure?
    modifies st`host, st.at.Values, st.socks
    ensures st.Valid() && st.host == After(old(st.host), op)
  {
    match op
    case Hash(id) => var _ := st.Hash(id);
    case Unhash(id) => st.Unhash(id);
    case Bind(id, port) => var _ := st.BindPort(id, port);
    case UnhashBind(id) => st.LeaveBind(id);
  }

  method Configured(st: Stack, id: SockId, t: Tuple, state: State)
    requires st.Valid() && id < |st.socks|
    modifies st`host, st.socks[id]
    ensures st.Valid() && st.host == Update(old(st.host), id, old(st.host).socks[id].(tuple := t, state := state))
  {
    st.StoreTuple(id, t);
    st.StoreState(id, state);
  }

  ghost predicate OpStep(h: Host, op: Op, h': Host) {
    TablesOk(h) && Allowed(h, op) && h' == After(h, op)
  }

  /** hosts are the states through which ops lead. */
  ghost predicate OpTrace(hosts: seq<Host>, ops: seq<Op>) {
    |hosts| == |ops| + 1 &&
    forall i {:trigger OpStep(hosts[i], ops[i], hosts[i + 1])} :: 0 <= i < |ops| ==> OpStep(hosts[i], ops[i], hosts[i + 1])
  }

  lemma StepAt(hosts: seq<Host>, ops: seq<Op>, i: nat)
    requires OpTrace(hosts, ops) && i < |ops|
    ensures OpStep(hosts[i], ops[i], hosts[i + 1])
  {
  }

  lemma {:induction false} RunTrace(h: Host, r: Reference, ops: seq<Op>) returns (hosts: seq<Host>)
    requires TablesOk(h) && Refines(h, r) && AllowedRun(h, ops)
    ensures OpTrace(hosts, ops) && hosts[0] == h && hosts[|ops|] == RunHost(h, ops)
    decreases |ops|
  {
    if ops == [] {
      hosts := [h];
    } else {
      StepRefines(h, r, ops[0]);
      var rest := RunTrace(After(h, ops[0]), Reckon(r, h.socks, ops[0]), ops[1..]);
      assert OpStep(h, ops[0], rest[0]);
      hosts := [h] + rest;
      forall i | 0 <= i < |ops| ensures OpStep(hosts[i], ops[i], hosts[i + 1]) {
        if i > 0 { StepAt(rest, ops[1..], i - 1); }
      }
    }
  }

  method PerformStep(st: Stack, op: Op, ghost h: Host, ghost h': Host)
    requires Shows(st, h) && OpStep(h, op, h')
    modifies Owned(st)
    ensures Shows(st, h') && fresh(Owned(st) - old(Owned(st)))
  {
    ShowsMeans(st, h);
    AllowedMatches(h, op);
    PerformOp(st, op);
    ShowsMeans(st, h');
    OwnedFresh(st);
  }

  method PerformAt(st: Stack, ops: seq<Op>, i: nat, ghost hosts: seq<Host>)
    requires OpTrace(hosts, ops) && i < |ops| && Shows(st, hosts[i])
    modifies Owned(st)
    ensures Shows(st, hosts[i + 1]) && fresh(Owned(st) - old(Owned(st)))
  {
    StepAt(hosts, ops, i);
    PerformStep(st, ops[i], hosts[i], hosts[i + 1]);
  }

  /** The rest of a run, from its i-th state on */
  method PerformFrom(st: Stack, ops: seq<Op>, i: nat, ghost hosts: seq<Host>)
    requires OpTrace(hosts, ops) && i <= |ops| && Shows(st, hosts[i])
    modifies Owned(st)
    ensures Shows(st, hosts[|ops|])
    decreases |ops| - i
  {
    if i < |ops| {
      PerformAt(st, ops, i, hosts);
      PerformFrom(st, ops, i + 1, hosts);
    }
  }

  /** Any run of table operations on a fresh stack: the heap is the host of the
      run and agrees with the plain reference of the run. */
  method Exercise(ops: seq<Op>) returns (st: Stack)
    requires AllowedRun(EmptyHost, ops)
    ensures st.Valid() && st.host == RunHost(EmptyHost, ops)
    ensures TablesOk(st.host) && Refines(st.host, RunReference(Reference(map[], [], map[]), EmptyHost, ops))
  {
    st := RunOnHeap(ops);
    EmptyRefines();
    RunFrom(EmptyHost, Reference(map[], [], map[]), ops);
  }

  method RunOnHeap(ops: seq<Op>) returns (st: Stack)
    requires AllowedRun(EmptyHost, ops)
    ensures st.Valid() && st.host == RunHost(EmptyHost, ops)
  {
    EmptyRefines();
    ghost var hosts := RunTrace(EmptyHost, Reference(map[], [], map[]), ops);
    st := new Stack();
    NewOwned(st);
    ShowsMeans(st, hosts[0]);
    PerformFrom(st, ops, 0, hosts);
    ShowsMeans(st, hosts[|ops|]);
  }

  /** On the objects themselves: the count of a sock is the number of tables whose
      chains hold it, and a released one is in none. */
  lemma CountOnHeap(st: Stack, id: SockId)
    requires st.Valid() && TablesOk(st.host) && id < |st.socks|
    ensures st.socks[id].refCnt == |TablesHolding(st.host, id)|
    ensures st.socks[id].released ==> TablesHolding(st.host, id) == {}
  {
    assert st.socks[id].Val() == st.host.socks[id];
    CountIsHolding(st.host, id);
  }

  /** What the pointer walk of tcp_sock_lookup finds after a run is what the
      reference says. */
  method Answer(st: Stack, g: Segment, ghost r: Reference) returns (found: Option<SockId>)
    requires st.Valid() && Refines(st.host, r)
    ensures found ==
      if Mirror(g.from) in r.established then Some(r.established[Mirror(g.from)]) else FindPort(st.host, r.listeners, g.from.dport)
  {
    SegmentLookup(st.host, r, g);
    found := st.Find(g);
  }
}
