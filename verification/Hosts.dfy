/** One host: its socks and every list they are linked into, as values, with
    the operations of tcp_sock.c, tcp_out.c and tcp_in.c as functions. */
module Hosts {
  import opened Base
  import opened SeqSpace
  import opened Segments
  import opened TcpHash

  datatype State =
    | Closed | Listen | SynRecv | SynSent | Established | CloseWait | LastAck
    | FinWait1 | FinWait2 | Closing | TimeWait

  datatype Sock = Sock(
    tuple: Tuple,
    parent: Option<SockId>,
    refCnt: int,
    released: bool,
    backlog: int,
    acceptBacklog: int,
    state: State,
    sndNxt: u32,
    sndWnd: u32,
    rcvNxt: u32,
    rcvWnd: u16)

  datatype Host = Host(socks: seq<Sock>, lists: map<ListId, seq<SockId>>)

  /** init_tcp_stack */
  const EmptyHost: Host :=
    Host([], map k | k in (set t, i | t in {EstablishedTable, ListenTable, BindTable} && 0 <= i < TCP_HASH_SIZE :: Bucket(t, i)) :: [])

  const TCP_DEFAULT_WINDOW: u16 := 65535
  const PORT_MIN: u16 := 12345
  const PORT_MAX: u16 := 23456

  // Lists and socks

  function ListOf(h: Host, k: ListId): seq<SockId> {
    if k in h.lists then h.lists[k] else []
  }

  function Push(h: Host, k: ListId, id: SockId): Host {
    h.(lists := h.lists[k := [id] + ListOf(h, k)])
  }

  function Append(h: Host, k: ListId, id: SockId): Host {
    h.(lists := h.lists[k := ListOf(h, k) + [id]])
  }

  /** list_delete_entry on one member of sock id. */
  function Unlink(h: Host, m: Member, id: SockId): Host {
    h.(lists := map k | k in h.lists :: if MemberOf(k) == m then Without(h.lists[k], id) else h.lists[k])
  }

  function Update(h: Host, id: SockId, s: Sock): Host
    requires id < |h.socks|
  {
    h.(socks := h.socks[id := s])
  }

  const EmptySock: Sock :=
    Sock(Tuple(0, 0, 0, 0), None, 0, false, 0, 0, Closed, 0, 0, 0, TCP_DEFAULT_WINDOW)

  /** alloc_tcp_sock: the new sock's name is |h.socks|. */
  function Alloc(h: Host): Host {
    Host(h.socks + [EmptySock], h.lists[ListenQueue(|h.socks|) := []][AcceptQueue(|h.socks|) := []])
  }

  function AddRef(h: Host, id: SockId): Host
    requires id < |h.socks|
  {
    Update(h, id, h.socks[id].(refCnt := h.socks[id].refCnt + 1))
  }

  /** free_tcp_sock */
  function Dropped(s: Sock): Sock {
    s.(refCnt := s.refCnt - 1, released := s.released || s.refCnt - 1 <= 0)
  }

  function DropRef(h: Host, id: SockId): Host
    requires id < |h.socks|
  {
    Update(h, id, Dropped(h.socks[id]))
  }

  // Hash tables

  function EstKey(t: Tuple): ListId {
    Bucket(EstablishedTable, HashIndex(t.sip, t.dip, t.sport, t.dport))
  }

  function ListenKey(port: u16): ListId {
    Bucket(ListenTable, HashIndex(0, 0, port, 0))
  }

  function BindKey(port: u16): ListId {
    Bucket(BindTable, HashIndex(0, 0, port, 0))
  }

  /** The first sock of a chain with the given 4-tuple. */
  function FindTuple(h: Host, ids: seq<SockId>, t: Tuple): Option<SockId> {
    if ids == [] then None
    else if ids[0] < |h.socks| && h.socks[ids[0]].tuple == t then Some(ids[0])
    else FindTuple(h, ids[1..], t)
  }

  /** The first sock of a chain with the given source port. */
  function FindPort(h: Host, ids: seq<SockId>, port: u16): Option<SockId> {
    if ids == [] then None
    else if ids[0] < |h.socks| && h.socks[ids[0]].tuple.sport == port then Some(ids[0])
    else FindPort(h, ids[1..], port)
  }

  function LookupEstablished(h: Host, t: Tuple): Option<SockId> {
    FindTuple(h, ListOf(h, EstKey(t)), t)
  }

  function LookupListen(h: Host, port: u16): Option<SockId> {
    FindPort(h, ListOf(h, ListenKey(port)), port)
  }

  /** tcp_sock_lookup: the established table wins over the listen table. */
  function Lookup(h: Host, g: Segment): Option<SockId> {
    var t := Mirror(g.from);
    var e := LookupEstablished(h, t);
    if e.Some? then e else LookupListen(h, t.sport)
  }

  /** tcp_hash; None is its error return, which leaves the host as it was. */
  function HashSock(h: Host, id: SockId): Option<Host>
    requires id < |h.socks|
  {
    var s := h.socks[id];
    if s.state == Closed then None
    else if s.state == Listen then Some(AddRef(Push(h, ListenKey(s.tuple.sport), id), id))
    else if LookupEstablished(h, s.tuple).Some? then None
    else Some(AddRef(Push(h, EstKey(s.tuple), id), id))
  }

  function UnhashSock(h: Host, id: SockId): Host
    requires id < |h.socks|
  {
    DropRef(Unlink(h, HashList, id), id)
  }

  function BindHash(h: Host, id: SockId): Host
    requires id < |h.socks|
  {
    AddRef(Push(h, BindKey(h.socks[id].tuple.sport), id), id)
  }

  function BindUnhash(h: Host, id: SockId): Host
    requires id < |h.socks|
  {
    DropRef(Unlink(h, BindHashList, id), id)
  }

  predicate PortInUse(h: Host, port: u16) {
    FindPort(h, ListOf(h, BindKey(port)), port).Some?
  }

  /** The first free port from p on, or 0. */
  function GetPort(h: Host, p: u16): u16
    decreases PORT_MAX - p
  {
    if p >= PORT_MAX then 0
    else if !PortInUse(h, p) then p
    else GetPort(h, p + 1)
  }

  lemma {:induction false} GetPortScan(h: Host, p: u16, q: u16)
    requires p <= q <= PORT_MAX && (forall x: u16 :: p <= x < q ==> PortInUse(h, x))
    requires q < PORT_MAX ==> !PortInUse(h, q)
    ensures GetPort(h, p) == if q < PORT_MAX then q else 0
    decreases q - p
  {
    if p < q {
      GetPortScan(h, p + 1, q);
    }
  }

  /** The port that tcp_sock_set_sport settles on, if any. */
  function ChoosePort(h: Host, port: u16): Option<u16> {
    if port != 0 then if PortInUse(h, port) then None else Some(port)
    else var p := GetPort(h, PORT_MIN); if p == 0 then None else Some(p)
  }

  function SetSport(h: Host, id: SockId, port: u16): Option<Host>
    requires id < |h.socks|
  {
    match ChoosePort(h, port)
    case None => None
    case Some(p) =>
      var s := h.socks[id];
      Some(BindHash(Update(h, id, s.(tuple := s.tuple.(sport := p))), id))
  }

  // Sending

  function ControlSegment(s: Sock, flags: byte): Segment {
    Segment(s.tuple, s.sndNxt, s.rcvNxt, flags, s.rcvWnd, 0)
  }

  /** tcp_send_control_packet on the sending sock. */
  function AfterControl(s: Sock, flags: byte): Sock {
    if TakesNumber(flags) then s.(sndNxt := (s.sndNxt + 1) % TWO32) else s
  }

  /** tcp_send_reset answers the received segment g. */
  function ResetSegment(g: Segment): Segment {
    Segment(Mirror(g.from), 0, SeqEnd(g), RST_ACK, 0, 0)
  }

  /** tcp_send_packet with len bytes of data. */
  function DataSegment(s: Sock, len: nat): Segment {
    Segment(s.tuple, s.sndNxt, s.rcvNxt, PSH_ACK, s.rcvWnd, len)
  }

  function AfterData(s: Sock, len: nat): Sock {
    s.(sndNxt := (s.sndNxt + len) % TWO32, sndWnd := (s.sndWnd - len) % TWO32)
  }

  // Opening connections

  function ListenOn(h: Host, id: SockId, backlog: int): Option<Host>
    requires id < |h.socks|
  {
    HashSock(Update(h, id, h.socks[id].(backlog := backlog, state := Listen)), id)
  }

  /** tcp_hash with its result ignored. */
  function HashAnyway(h: Host, id: SockId): Host
    requires id < |h.socks|
  {
    match HashSock(h, id)
    case Some(h') => h'
    case None => h
  }

  /** tcp_sock_connect up to its sleep; t is the 4-tuple it settles on. */
  function Connect(h: Host, id: SockId, t: Tuple): Host
    requires id < |h.socks|
  {
    var h1 := BindHash(Update(h, id, h.socks[id].(tuple := t)), id);
    HashAnyway(Update(h1, id, AfterControl(h1.socks[id], SYN).(state := SynSent)), id)
  }

  function ConnectSegment(h: Host, id: SockId, t: Tuple): Segment
    requires id < |h.socks|
  {
    ControlSegment(h.socks[id].(tuple := t), SYN)
  }

  /** The child that a listener makes for a SYN. */
  function ChildSock(listener: SockId, g: Segment): Sock {
    EmptySock.(tuple := Mirror(g.from), parent := Some(listener))
  }

  /** The LISTEN branch of tcp_process. */
  function Spawn(h: Host, listener: SockId, g: Segment): Host {
    var id := |h.socks|;
    var child := ChildSock(listener, g);
    var h1 := Append(Update(Alloc(h), id, child), ListenQueue(listener), id);
    HashAnyway(Update(h1, id, AfterControl(child, SYN_ACK).(state := SynRecv)), id)
  }

  function AddBacklog(h: Host, id: SockId, d: int): Host
    requires id < |h.socks|
  {
    Update(h, id, h.socks[id].(acceptBacklog := h.socks[id].acceptBacklog + d))
  }

  function AcceptEnqueue(h: Host, id: SockId): Host
    requires id < |h.socks| && h.socks[id].parent.Some? && h.socks[id].parent.value < |h.socks|
  {
    var p := h.socks[id].parent.value;
    AddBacklog(Append(Unlink(h, QueueList, id), AcceptQueue(p), id), p, 1)
  }

  /** tcp_sock_accept_dequeue takes the first sock of the queue. */
  function AcceptDequeue(h: Host, listener: SockId): Host
    requires listener < |h.socks| && ListOf(h, AcceptQueue(listener)) != []
  {
    AddBacklog(Unlink(h, QueueList, ListOf(h, AcceptQueue(listener))[0]), listener, -1)
  }

  // Receiving

  /** What tcp_process does: the host it leaves, what it sends, and whether it
      goes on to close the sock. */
  datatype Outcome = Outcome(host: Host, sent: seq<Segment>, closes: bool)

  function Process(h: Host, id: SockId, g: Segment): Outcome
    requires id < |h.socks|
    requires h.socks[id].state == SynRecv ==> h.socks[id].parent.Some? && h.socks[id].parent.value < |h.socks|
  {
    var s := h.socks[id];
    if !SeqValid(s.rcvNxt, s.rcvWnd, g.seqNo, SeqEnd(g)) then Outcome(h, [], false)
    else if g.flags == RST then Outcome(h, [ControlSegment(s, ACK)], true)
    else if g.flags == FIN then Outcome(h, [], true)
    else match s.state
      case Closed => Outcome(h, [ResetSegment(g)], false)
      case Listen =>
        if g.flags == SYN then Outcome(Spawn(h, id, g), [ControlSegment(ChildSock(id, g), SYN_ACK)], false)
        else Outcome(h, [ResetSegment(g)], false)
      case SynRecv =>
        if g.flags == ACK then
          var h1 := AcceptEnqueue(h, id);
          Outcome(Update(h1, id, h1.socks[id].(state := Established)), [], false)
        else Outcome(h, [ResetSegment(g)], false)
      case SynSent =>
        if g.flags == SYN_ACK then
          Outcome(Update(h, id, s.(state := Established)), [ControlSegment(s, ACK)], false)
        else Outcome(h, [ResetSegment(g)], false)
      case _ => Outcome(h, [], false)
  }
}
