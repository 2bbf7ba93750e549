/** The stack on the heap carries out every step of the network model and
    stays in order while it does. */
module StackSteps {
  import opened Base
  import opened Segments
  import opened Hosts
  import opened Tables
  import opened Queues
  import opened Net
  import opened TcpStack

  /** The nodes that a call links are free. */
  ghost predicate NodesFree(h: Host, a: Action) {
    match a
    case Bind(_, id, _) => !LinkedBy(h, BindHashList, id)
    case Listening(_, id, _) => !LinkedBy(h, HashList, id)
    case Connecting(_, id, _) => !LinkedBy(h, HashList, id) && !LinkedBy(h, BindHashList, id)
    case _ => true
  }

  lemma EnabledFree(h: Host, a: Action)
    requires HostOk(h) && HostEnabled(h, a)
    ensures NodesFree(h, a)
  {
    match a
    case Bind(_, id, _) => HashedIsLinked(h, id);
    case Listening(_, id, _) => HashedIsLinked(h, id);
    case Connecting(_, id, _) => HashedIsLinked(h, id);
    case _ =>
  }

  /** handle_tcp_packet after the checksum: look the segment up and process it.
      A segment that no sock answers for is reported instead of dereferenced. */
  method Receive(st: Stack, a: Action) returns (sent: seq<Segment>, halts: bool)
    requires st.Valid() && HostReady(st.host, a) && a.Deliver?
    modifies st, st.at.Values, st.socks
    ensures st.Valid() && st.host == HostNext(old(st.host), a)
    ensures old(st.socks) <= st.socks && fresh(st.socks[|old(st.socks)|..]) && fresh(st.at.Values - old(st.at.Values))
    ensures (set s | s in sent) == Sends(old(st.host), a) && |sent| <= 1 && halts == Halts(old(st.host), a)
  {
    var id := st.Find(a.g);
    if id == None {
      return [], true;
    }
    sent, halts := st.ProcessSegment(id.value, a.g);
  }

  /** One call of the socket interface. */
  method Call(st: Stack, a: Action) returns (sent: seq<Segment>)
    requires st.Valid() && HostReady(st.host, a) && NodesFree(st.host, a) && !a.Deliver?
    modifies st, st.at.Values, st.socks
    ensures st.Valid() && st.host == HostNext(old(st.host), a)
    ensures old(st.socks) <= st.socks && fresh(st.socks[|old(st.socks)|..]) && fresh(st.at.Values - old(st.at.Values))
    ensures (set s | s in sent) == Sends(old(st.host), a) && |sent| <= 1
  {
    if a.NewSock? || a.Bind? || a.Listening? {
      CallQuietly(st, a);
      sent := [];
    } else {
      sent := CallOn(st, a);
    }
  }

  /** The calls that send nothing and concern no connection */
  method CallQuietly(st: Stack, a: Action)
    requires st.Valid() && HostReady(st.host, a) && NodesFree(st.host, a) && (a.NewSock? || a.Bind? || a.Listening?)
    modifies st, st.at.Values, st.socks
    ensures st.Valid() && st.host == HostNext(old(st.host), a)
    ensures old(st.socks) <= st.socks && fresh(st.socks[|old(st.socks)|..]) && fresh(st.at.Values - old(st.at.Values))
  {
    match a
    case NewSock(_) => var _ := st.AllocSock();
    case Bind(_, id, port) => var _ := st.BindPort(id, port);
    case Listening(_, id, backlog) => var _ := st.ListenAt(id, backlog);
  }

  /** The calls that open or use a connection */
  method CallOn(st: Stack, a: Action) returns (sent: seq<Segment>)
    requires st.Valid() && HostReady(st.host, a) && NodesFree(st.host, a) && (a.Connecting? || a.Accept? || a.SendData?)
    modifies st`host, st.at.Values, st.socks
    ensures st.Valid() && st.host == HostNext(old(st.host), a)
    ensures (set s | s in sent) == Sends(old(st.host), a) && |sent| <= 1
  {
    match a
    case Connecting(_, id, t) => var syn := st.ConnectTo(id, t); sent := [syn];
    case Accept(_, id) => var _ := st.Dequeue(id); sent := [];
    case SendData(_, id, len) => var g := st.Data(id, len); sent := [g];
  }

  /** A call or an arriving segment does to the heap what the network model
      says, and leaves the host in order. */
  method Perform(st: Stack, a: Action) returns (sent: seq<Segment>, halts: bool)
    requires st.Valid() && HostOk(st.host) && HostEnabled(st.host, a) && HostReady(st.host, a)
    modifies st, st.at.Values, st.socks
    ensures st.Valid() && HostOk(st.host) && st.host == HostNext(old(st.host), a)
    ensures old(st.socks) <= st.socks && fresh(st.socks[|old(st.socks)|..]) && fresh(st.at.Values - old(st.at.Values))
    ensures (set s | s in sent) == Sends(old(st.host), a) && |sent| <= 1 && halts == Halts(old(st.host), a)
  {
    ghost var h := st.host;
    if a.Deliver? {
      sent, halts := Receive(st, a);
    } else {
      EnabledFree(h, a);
      sent := Call(st, a);
      halts := false;
    }
    StepHost(h, a);
  }
}
