# A verified model of a user-level TCP stack

This Dafny project models the core of a user-level TCP stack written in C: its
socket tables over intrusive circular lists, the handshake and accept pipeline
as a step system over an unreliable network, the sleep and wake-up protocol, the
receive ring buffer, sequence-space arithmetic, packet headers and the Internet
checksum. `dafny verify dfyconfig.toml` checks all of it.

## How the modules fit together

- `ListHeads` is `include/list.h` on the heap: `ListHead` objects with `next` and
  `prev`, and a ghost forest that says which sequence each head carries.
- `Hosts` holds the state of one stack as a value (socks and lists) with every
  operation of `tcp_sock.c`, `tcp_out.c` and `tcp_in.c` as a function; `Tables`
  and `Queues` are what each operation keeps, `Calls` and `Replies` what each call
  and each arriving segment does in full, and `TableRuns` compares whole runs
  with a plain reference: a map from 4-tuples, an order of listeners, a map from
  ports.
- `Layout` says when the heap cells realise the lists of such a host, and
  `TcpStack` is the stack itself: `TcpSock` and `Stack` objects whose methods
  update fields and links in place, each proved equal to the function of `Hosts`.
  `StackSteps` carries out every step of `Net` on such a stack, and `StackRuns`
  boots any number of stacks on one heap and carries out whole runs. `TableHeap`
  does the same for runs of table operations, with unhashes.
- `Net` composes any number of hosts with a network that keeps every segment
  ever sent and may deliver it never, late, repeatedly, out of order and to any
  host. `Handshake` states what holds in every run; `Completion` and `Progress`
  show that a connection can be completed from every reachable state in which its
  SYN is answered and its opener can be found, and that such states exist.
- `ByteNet` is the same network over packets that are built, checked and parsed; it
  refines `Net`.
- `Rebind` is about linking a node that is linked already, as bind followed by
  connect does.
- `SeqSpace`, `Segments`, `TcpHash`, `Headers`, `Checksum`, `RingBuffers`,
  `SynchWait`, `AcceptWait`, `ConnectWait` and `WindowUpdate` are the remaining
  components.

## Properties that hold only under a condition

Where the code misses what it is meant to do, the exact condition is proved.

- The checksum is that of RFC 1071 if and only if no carry is dropped
  (`Checksum.ChecksumExact`); addresses whose last octets add up to 256 or more
  always drop one (`Checksum.HighOctetsDropCarry`).
- A data packet's end is understood by the receiver if and only if its IP length
  fits 16 bits (`Headers.DataOnWire`).
- `tcp_sock_read` keeps the window equal to the free space if and only if the size
  is not negative or is a multiple of 65536 (`RingBuffers.Receiver.Read`).
- A wake-up or an exit can be lost if and only if at least two threads sleep on a
  wait structure (`SynchWait.LostIffShared`); no later one then reaches the blocked
  thread unless another thread sleeps first (`SynchWait.LostStays`).
- `tcp_sock_connect` returns on a sock that is not established if and only if
  something other than the SYN-ACK lets it through its wait in time
  (`ConnectWait.EarlyReturnIff`).
- `tcp_sock_accept` takes from an empty queue if and only if its thread is let
  through `sleep_on` while the queue is empty, by a notification left over from an
  earlier connection, a dead structure, a spurious wake-up, an exit or a late
  `wake_up`, and nothing is enqueued before it takes (`AcceptWait.EmptyTakeIff`).
- `list_add_head` keeps the lists well-formed if and only if the node is in no list
  (`Rebind.AddHeadIff`). Bind followed by connect links a bound sock a second time
  and leaves no well-formed lists (`Rebind.ConnectBound`).
- The packets of a run of sends are parsed as a tiling of sequence space if and only
  if each fits its length field (`Headers.PacketsTile`).
- `tcp_update_window` wakes a waiting sender if and only if the old window is a
  multiple of 65536, not only when it is zero (`WindowUpdate.Sender.Update`).
- The window test accepts more than RFC 9293; the surplus is characterised for
  all sequence numbers (`SeqSpace.SeqValidExact`).

## Readings

The source is unfinished in places. These readings were chosen.

- `tcp_in.c:122` is read as equality with `SYN|ACK`; as written it would always be
  true. `LISTEN`, `cb->flag` and the declaration at `tcp_in.c:83` are read as the
  evident names.
- `tcp_in.c:92` queues a child on the listener's own `listen_queue`, as
  `include/tcp_sock.h:46-49` documents, not on that of the listener's parent.
- `tcp_sock.c:206` is read as walking the bind chain by `bind_hash_list`, the
  member that `tcp_sock.c:184` links, so that it does what `tcp_sock.c:200` says.
- `tcp_sock.c:401` is read as "the accept queue is not empty", as
  `tcp_sock.c:394` says.
- `alloc_tcp_sock` does not initialise `hash_list` and `bind_hash_list`, and
  `list_delete_entry` leaves stale pointers, so `list_empty` does not tell whether
  such a node is linked. Unhashing therefore requires a linked node, and hashing an
  unlinked one.
- The comparison macros subtract with 32-bit wrap-around.
- `tcp_process` on a lookup that found no sock would follow a null pointer: the
  host halts in the model. The RST and FIN branches end in a close and also halt
  it; `Handshake.NothingCloses` shows that they are not reached while no
  application closes.
- One call of `tcp_process` or of the socket interface is one step; only in
  `AcceptWait` and `ConnectWait` are the change of state and the `wake_up` that
  follows it separate turns.
- The host is little-endian. Of the IP header only what `tcp_cb_init` reads is
  modelled: a 20-byte header with length and addresses in network order.
- The 4-tuple that `tcp_sock_connect` settles on and the receiver's arrivals of data
  are parameters.

## Model

| member | source | states |
|---|---|---|
| `ListHeads.InitListHead` | include/list.h:32-35 | the node becomes a circle of its own |
| `ListHeads.ListInsert` | include/list.h:38-46 | as maps over all cells, next changes at exactly prev and the new node, and prev at exactly next and the new node |
| `ListHeads.InsertKeepsCircular` | include/list.h:37-46 | the four writes of an insertion turn a forest of disjoint circles into the forest in which one list has gained the node at that position and every other list is the same |
| `ListHeads.DeleteKeepsCircular` | include/list.h:60-66 | the two writes of a deletion close the gap in the one list that held the node; the neighbours exist, are not the node itself, and every other list is the same |
| `ListHeads.ListAddHead` | include/list.h:49-52 | prepend on one list; all other lists, and the pointers of unlinked nodes, unchanged |
| `ListHeads.ListAddTail` | include/list.h:55-58 | append on one list; all other lists, and the pointers of unlinked nodes, unchanged |
| `ListHeads.ListDeleteEntry` | include/list.h:62-66 | removal from the list that holds the node; the removed node keeps its stale pointers |
| `ListHeads.Perform` | include/list.h:49-66 | one operation on the heap is the operation on the sequences |
| `ListHeads.PerformAll` | include/list.h:32-66 | after any run of head insertions, tail insertions and deletions all lists are disjoint circles holding exactly what the run on sequences leaves |
| `ListHeads.SurvivorsWithin` | include/list.h:24-29 | what a deleting sweep is to leave: exactly the elements that are not deleted |
| `ListHeads.ForEachSafe` | include/list.h:24-29 | deletion-safe iteration terminates, visits every original node once and in order, and leaves exactly the undeleted nodes in a well-formed list, all other lists unchanged |
| `TcpHash.XorBits` | include/hash.h:11-18 | the exclusive or used for hashing acts bit by bit |
| `TcpHash.Hash8` | include/hash.h:11-18 | the loop computes the exclusive or of all bytes |
| `TcpHash.XorAllMemory` | include/hash.h:11-18 | hash8 over the bytes of a number in memory is the arithmetic function used in the bucket index |
| `TcpHash.HashFunction` | include/tcp_hash.h:18-26 | the four hash8 loops over the bytes of the parts, combined and masked, give the bucket index of the model, which is below 256 |
| `TcpHash.MaskIdle` | include/tcp_hash.h:22-25 | the four hashes combined already fit eight bits, so the mask takes nothing away |
| `TcpHash.HashIndexBits` | include/tcp_hash.h:18-26 | a bit of the bucket index is set exactly when it is set in an odd number of the twelve bytes of the key |
| `Segments.TakesNumberBits` | tcp_out.c:87-88 | a sequence number is taken exactly when bit 0 (FIN) or bit 1 (SYN) of the flags is set |
| `Segments.FlagNumbers` | include/tcp.h:29-34 | the values of the flags and of the combinations sent, and which of them take a number |
| `Segments.SeqEndBits` | tcp.c:58 | a segment ends after its data, and one later if FIN or SYN is set, modulo 2^32 |
| `SeqSpace.SerialOrder` | include/tcp.h:10-13 | the wrapping int32_t comparisons: b follows a exactly when it is 1 to 2^31 steps ahead, for all 2^32 distances |
| `SeqSpace.ValidByDistance` | tcp_in.c:31-43 | the window test is exactly a condition on the signed distance from rcv_nxt, despite two modular additions and wrap-around |
| `SeqSpace.SeqValidExact` | tcp_in.c:31-43 | for every pair of sequence numbers the test accepts exactly what section 3.4 of RFC 9293 accepts plus the segments of Extra (ending at rcv_nxt, covering a non-zero window on both sides, or touching the one-byte window used when rcv_wnd is 0), and the two kinds never overlap |
| `WindowUpdate.Sender.Update` | tcp_in.c:12-18 | the window is replaced, and a wake-up is due exactly when the low 16 bits of the old one were zero |
| `WindowUpdate.Sender.UpdateSafely` | tcp_in.c:21-25 | the same if the acknowledgement lies between snd_una and snd_nxt, and nothing otherwise |
| `WindowUpdate.BetweenExact` | tcp_in.c:23 | with n at most 2^31 outstanding, the test accepts exactly the acknowledgements of 0 to n, and one 2^31 ahead when n is 0 |
| `Tables.EmptyWellLinked` | tcp_sock.c:29-38 | after initialisation there are exactly the 3 x 256 lists and all are empty |
| `Tables.FindTupleFinds` | tcp_sock.c:112-120 | the chain search returns a member with that 4-tuple, and fails only if there is none |
| `Tables.FindPortFinds` | tcp_sock.c:151-161 | the chain search by port returns the first member with that port, and fails only if there is none |
| `Tables.AllocKeeps` | tcp_sock.c:46-67 | a new sock is in no table, is counted 0 times, and the table invariant holds |
| `Tables.HashKeeps` | tcp_sock.c:241-272 | tcp_hash fails exactly for a closed sock or a taken 4-tuple; otherwise the sock is hashed, tuples stay unique over all buckets, and reference counts stay exact |
| `Tables.UnhashKeeps` | tcp_sock.c:275-281 | the invariant is kept, the sock is out, and it is released exactly when it is not bound |
| `Tables.BindHashKeeps` | tcp_sock.c:180-189 | the invariant is kept and the sock is bound, without changing whether it is hashed |
| `Tables.BindUnhashKeeps` | tcp_sock.c:192-198 | the invariant is kept, the sock is unbound, and it is released exactly when it is not hashed |
| `TableRuns.EstablishedLookup` | tcp_sock.c:97-121 | the bucketed established table answers like a partial map from 4-tuples: the mapped sock, or NULL |
| `TableRuns.ListenLookup` | tcp_sock.c:126-162 | lookup gives a listener on the port such that every listener hashed later and still linked is on another port, and NULL only if no linked listener is on the port |
| `TableRuns.SegmentLookup` | tcp_sock.c:165-177 | a packet goes to the established sock of its mirrored tuple, and to the newest listener on its port exactly when there is none |
| `TableRuns.PortLookup` | tcp_sock.c:200-212 | a port is in use exactly when the map of bound ports has it |
| `TableRuns.GetPortIsFirstFree` | tcp_sock.c:215-223 | the port scan over the buckets is the first free port over the plain set of bound ports |
| `TableRuns.PortChoice` | tcp_sock.c:226-230 | the port a bind settles on, or its failure, depends on the set of bound ports alone |
| `TableRuns.HashRefines` | tcp_sock.c:241-272 | tcp_hash acts as insertion into the reference and a rejected duplicate changes nothing; it fails exactly on a closed sock or a mapped tuple |
| `TableRuns.UnhashRefines` | tcp_sock.c:275-281 | tcp_unhash acts as removal from the reference map or from the order of listeners |
| `TableRuns.BindRefines` | tcp_sock.c:226-237 | a bind adds the chosen port to the reference map, or changes nothing if there is none, and keeps the invariant |
| `TableRuns.UnhashBindRefines` | tcp_sock.c:192-198 | leaving the bind table frees exactly the sock's port |
| `TableRuns.StepRefines` | tcp_sock.c:97-292 | every table operation keeps the invariant and the agreement with the reference |
| `TableRuns.RunFrom` | tcp_sock.c:97-292 | the same for whole runs, by induction, from any agreeing state |
| `TableRuns.TablesAgree` | tcp_sock.c:97-292 | after any interleaving of allocations, hashes, unhashes, binds and bind-unhashes from an empty stack all three lookups answer as the reference does, the listener found is the newest on its port, and bound ports are distinct |
| `TableRuns.FirstFreeLeast` | tcp_sock.c:214-223 | the chosen port is the least free one, and failure means that none is free |
| `TableRuns.BindToZero` | tcp_sock.c:214-237 | a bind to port 0 takes the least free port of 12345..23455 and fails only if at least 11111 socks are bound |
| `TableRuns.BindToPort` | tcp_sock.c:226-237 | a bind to a given port fails exactly when it is in use, and otherwise takes exactly that port, once |
| `TableRuns.CountIsHolding` | include/tcp_sock.h:37-39 | ref_cnt is the number of tables that hold the sock, over all buckets, and no table holds a released sock |
| `TableRuns.ReleasedOnLeavingLast` | tcp_sock.c:69-92 | a step releases a sock exactly when it takes it out of its last table |
| `Queues.AllocHost` | tcp_sock.c:46-67 | allocation keeps tables, children, queues and backlogs in order |
| `Queues.BindHost` | tcp_sock.c:226-237 | bind keeps the host in order and only moves socks forward |
| `Queues.ListenHost` | tcp_sock.c:347-361 | listen on an idle sock never fails and keeps the host in order |
| `Queues.ConnectHost` | tcp_sock.c:303-336 | connect keeps the host in order and leaves the sock in SYN_SENT with its 4-tuple |
| `Queues.DataHost` | tcp_out.c:56-57 | moving the send variables keeps the host in order |
| `Queues.SpawnHost` | tcp_in.c:77-99 | where no established sock answers for the tuple, the child of the LISTEN branch is hashed, queued once and the host stays in order |
| `Queues.AckedHost` | tcp_in.c:106-114 | the final ACK keeps the host in order: the child changes queue, the backlog follows |
| `Queues.OpenedHost` | tcp_in.c:120-127 | completing an active open keeps the host in order |
| `Queues.DequeuedHost` | tcp_sock.c:384-392 | accept takes the front of one accept queue, leaves every other queue alone and keeps the host in order |
| `Queues.ChildrenUnique` | tcp_in.c:77-99 | two children with the same 4-tuple are the same sock |
| `Queues.ChildQueuedOnce` | include/tcp_sock.h:46-53 | a SYN_RECV child is in its listener's listen queue exactly once, in no other listen queue and in no accept queue |
| `Calls.ListenFinds` | tcp_sock.c:347-361 | listen changes only backlog, state and count of the sock, and the next lookup on its port finds it, whoever listened there before |
| `Calls.ConnectEnters` | tcp_sock.c:323-336 | connect binds the sock, sends one SYN, and enters it into the established table if and only if nobody there has the 4-tuple; nothing else changes |
| `Calls.AcceptTakes` | tcp_sock.c:384-392 | accept takes the front of the listener's queue and counts down; no other queue and no other field changes |
| `Net.LookupResult` | tcp_sock.c:165-177 | on an ordered host a lookup yields a live sock: a listener, or a hashed sock with exactly the mirrored tuple |
| `Net.EnabledReady` | tcp.c:66-81 | on an ordered host processing never follows a missing parent |
| `Net.StepHost` | tcp_in.c:46-134 | every call and every delivered segment keeps the host in order and moves socks only forward |
| `Net.HostReply` | tcp_in.c:70-133 | every reply is a reset, a SYN-ACK of a child, or an ACK of an active opener that is now established |
| `Replies.OutsideWindow` | tcp_in.c:52-55 | a segment outside the window sends nothing and changes nothing |
| `Replies.Closing` | tcp_in.c:57-68 | a bare RST is answered with exactly one ACK, a bare FIN with nothing, and both go on to close |
| `Replies.Unexpected` | tcp_in.c:72-132 | in CLOSED, LISTEN, SYN_RECV and SYN_SENT anything but the expected segment draws exactly one RST-ACK with sequence number 0 that acknowledges all of it, and changes nothing |
| `Replies.Ignored` | tcp_in.c:72-134 | in every other state nothing is sent and nothing changes |
| `Replies.SynReply` | tcp_in.c:79-94 | a SYN at a listener draws exactly one SYN-ACK from the ends exchanged |
| `Replies.ExpectedSyn` | tcp_in.c:79-99 | the child is given field by field, hashed, and last in the listen queue |
| `Replies.AckReply` | tcp_in.c:108-114 | an ACK at a child is not answered |
| `Replies.ExpectedAck` | tcp_in.c:108-114 | the child is established, leaves the listen queue for the end of the accept queue and is counted; nothing else changes |
| `Replies.ExpectedSynAck` | tcp_in.c:122-127 | a SYN-ACK at an opener establishes it and draws exactly one ACK; nothing else changes |
| `Replies.Unanswered` | tcp.c:78-80 | a segment that finds no sock sends nothing and halts the host |
| `Replies.ReplayedSyn` | tcp_in.c:115-118 | in every run a SYN delivered again to its child in SYN_RECV puts that reset into the network and changes no host |
| `Net.StepSegments` | tcp_in.c:46-134 | one step keeps the invariant on all segments ever sent |
| `Net.StepPairs` | tcp_in.c:77-133 | one step keeps both ends of every connection in step |
| `Net.StepLog` | tcp_sock.c:374-392 | one step keeps the order of acceptance |
| `Net.InitialOk` | tcp_sock.c:29-42 | freshly initialised stacks satisfy the whole invariant |
| `Net.StepOk` | tcp_in.c:46-134 | one step of any stack keeps the whole invariant of the network |
| `Handshake.RunOk` | tcp_in.c:46-134 | the invariant holds in every state of every run of any number of stacks over a network that loses, duplicates, reorders and misdelivers |
| `Handshake.ChildEstablishedBy` | tcp_in.c:106-114 | the step that establishes a child finds a sock with the mirrored 4-tuple already established |
| `Handshake.EstablishedAfterPeer` | tcp_in.c:77-133 | in every run a child is ESTABLISHED only after an earlier state in which a sock with the mirrored 4-tuple was ESTABLISHED and the child was not |
| `Handshake.EndsInStep` | tcp_in.c:77-133 | in every reachable state a child has an opener, an established child an established opener, and an established opener a child |
| `Handshake.SegmentsVouched` | tcp_out.c:62-91 | every bare ACK ever sent came from an established opener, every SYN-ACK from a child, every SYN from an opener |
| `Handshake.SpawnSucceeds` | tcp_in.c:79-99 | when a SYN reaches the LISTEN branch, tcp_hash succeeds and the connection has no child yet |
| `Handshake.SpawnNeverFails` | tcp_in.c:79-99 | the same in every state of every run, however often SYNs are replayed |
| `Handshake.OneChild` | tcp_in.c:79-99 | in every run a connection has at most one child per host |
| `Handshake.QueuesInOrder` | tcp_sock.c:374-392 | in every run accept_backlog is the accept queue's length, the accepted children followed by the queue are the children in order of ACK arrival, each once, and a SYN_RECV child is queued once with its listener and in no accept queue |
| `Handshake.NothingCloses` | tcp_in.c:57-68 | in every run without application closes the RST and FIN branches are never taken; a host stops only on a segment that no sock answers for |
| `Handshake.RunIsPlayed` | tcp_in.c:46-134 | every run is what some sequence of enabled calls and deliveries leads to |
| `Handshake.PlayIsRun` | tcp_in.c:46-134 | and every such sequence leads through a run |
| `Completion.SynSpawns` | tcp_in.c:77-99 | a SYN at a fresh listener gives exactly one child and exactly one SYN-ACK |
| `Completion.SynAckOpens` | tcp_in.c:120-127 | the SYN-ACK establishes the opener, which answers exactly one ACK |
| `Completion.AckEstablishes` | tcp_in.c:106-114 | the ACK establishes the child and is not answered |
| `Completion.HandshakeCompletes` | tcp_in.c:77-133 | from a state with a listener and an opener, on the same stack or another, three deliveries establish both ends and put the child into the accept queue |
| `Completion.RunNumbers` | tcp_sock.c:46-59 | in every state of every run the receive variables are as allocated, an opener in SYN_SENT has sent exactly its SYN, and that SYN is in the network |
| `Completion.OpensByConnect` | tcp_sock.c:323-336 | only connect brings a sock into SYN_SENT, and the sock keeps its 4-tuple there |
| `Completion.HandshakeCanComplete` | tcp_in.c:77-133 | in every state of every run a listener without a child and a hashed opener for it can complete the connection in three deliveries, and the child is queued for accept |
| `Progress.RunAnnounced` | tcp_out.c:67-91 | in every state of every run the SYN-ACK of every child, the SYN of every opener and the ACK of every established opener are in the network |
| `Progress.ConnectionCanComplete` | tcp_in.c:77-133 | in every state of every run, whatever has been lost and whether or not the child exists or the opener is established, a connection whose SYN is answered at one stack and whose opener can be found can be completed by at most three deliveries |
| `Completion.ConnectionsHappen` | tcp_sock.c:283-361 | for every 4-tuple with a non-zero port there is a run from two fresh stacks, through bind, listen and connect, that establishes both ends and queues the child for accept |
| `Layout.LinkHead` | include/list.h:49-52 | prepending on the heap realises prepending in the host's lists, for all lists of all socks at once |
| `Layout.LinkTail` | include/list.h:55-58 | the same for appending |
| `Layout.UnlinkNode` | include/list.h:62-66 | deleting a hash node on the heap realises removal from its chain |
| `Layout.DequeueNode` | tcp_sock.c:387-388 | deleting and re-initialising a queue node realises removal and leaves the node a loop |
| `Layout.LoopsAlone` | tcp_sock.c:377 | list_empty on a sock's queue node is true exactly when the sock is in no queue |
| `Layout.Requeue` | tcp_sock.c:377-379 | leaving the queue one is in, if any, and joining the end of another |
| `Layout.GrowLinks` | tcp_sock.c:55-57 | a new sock adds two empty circles and a looped node and disturbs no list |
| `Layout.WalkGoesOn` | include/list.h:19-22 | following next from the i-th node of a chain leads to the next one, and from the last to the head |
| `TcpStack.TcpSock.Hold` | include/tcp_sock.h:117-120 | ref_cnt goes up by one and nothing else changes |
| `TcpStack.TcpSock.Drop` | tcp_sock.c:75-92 | ref_cnt goes down by one and the sock is released at zero or below |
| `TcpStack.TcpSock.SendControl` | tcp_out.c:67-91 | the emitted segment carries the old sequence number and ends at the new snd_nxt, which moves by one modulo 2^32 exactly when the FIN or the SYN bit is set |
| `TcpStack.TcpSock.SendData` | tcp_out.c:32-60 | the emitted segment carries the old sequence number; snd_nxt and snd_wnd move by the data length modulo 2^32 |
| `TcpStack.TcpSock.constructor` | tcp_sock.c:46-67 | every field zero but the window of 65535, with the queue node and both queues initialised |
| `TcpStack.InitTable` | tcp_sock.c:31-32 | 256 distinct empty circles |
| `TcpStack.Stack.constructor` | tcp_sock.c:29-38 | the heap realises the empty host with fresh cells |
| `TcpStack.Stack.FindEstablished` | tcp_sock.c:97-121 | the pointer walk over the chain returns what the lookup specification says |
| `TcpStack.Stack.FindOnPort` | tcp_sock.c:151-161 | the pointer walk by port returns the first sock of the chain with that port |
| `TcpStack.Stack.Find` | tcp_sock.c:165-177 | the combined lookup on the heap |
| `TcpStack.Stack.Hash` | tcp_sock.c:241-272 | the heap realises HashSock, its error return included |
| `TcpStack.Stack.Unhash` | tcp_sock.c:275-281 | the heap realises UnhashSock on a linked node |
| `TcpStack.Stack.EnterBind` | tcp_sock.c:180-189 | the heap realises BindHash |
| `TcpStack.Stack.LeaveBind` | tcp_sock.c:192-198 | the heap realises BindUnhash on a linked node |
| `TcpStack.Stack.PortTaken` | tcp_sock.c:201-212 | whether a bound sock has the port |
| `TcpStack.Stack.FreePort` | tcp_sock.c:215-223 | the scanning loop finds the first free port, or 0 |
| `TcpStack.Stack.BindPort` | tcp_sock.c:226-237 | the heap realises SetSport; on failure nothing changes |
| `TcpStack.Stack.ListenAt` | tcp_sock.c:347-361 | the heap realises ListenOn, which succeeds, and the sock object has the backlog and the state |
| `TcpStack.Stack.ConnectTo` | tcp_sock.c:303-336 | the heap realises Connect and the SYN it sends |
| `TcpStack.Stack.Enqueue` | tcp_sock.c:375-381 | the heap realises AcceptEnqueue: queue change and backlog |
| `TcpStack.Stack.Dequeue` | tcp_sock.c:384-392 | the front of the queue is returned and the heap realises AcceptDequeue |
| `TcpStack.Stack.AllocSock` | tcp_sock.c:46-67 | the heap realises Alloc; only fresh cells are added |
| `TcpStack.Stack.SpawnChild` | tcp_in.c:79-98 | the heap realises the LISTEN branch and its reply |
| `TcpStack.Stack.Complete` | tcp_in.c:108-112 | the heap realises the SYN_RECV branch |
| `TcpStack.Stack.Opened` | tcp_in.c:122-125 | the heap realises the SYN_SENT branch and its reply |
| `TcpStack.Stack.ProcessSegment` | tcp_in.c:46-134 | tcp_process on the heap gives the host, the at most one reply and the closing decision of the specification that the rows on replies pin down |
| `StackSteps.Receive` | tcp.c:75-80 | lookup and processing on the heap do what the network model's delivery step does, replies and halting included |
| `StackSteps.Call` | tcp_sock.c:283-416 | each socket call on the heap does what the network model's step does |
| `StackSteps.Perform` | tcp_in.c:46-134 | every enabled step of the network model is carried out by the heap with the same segments, keeps the host in order and adds only fresh objects to the stack |
| `StackRuns.StepOn` | tcp_in.c:46-134 | a step of one of several stacks that share no object leaves every other stack as it was, and they still share none |
| `StackRuns.Simulate` | tcp_in.c:46-134 | any number of stacks, booted on the heap, carry out any sequence of enabled steps: there is a run of the network model whose last state has exactly their hosts, the segments they sent and the stacks that halted |
| `StackRuns.EstablishedOnHeap` | tcp_in.c:106-114 | a child object found ESTABLISHED on the heap after a run had its peer ESTABLISHED in an earlier state of the run |
| `TableHeap.PerformOp` | tcp_sock.c:180-292 | each table operation on the heap, unhashes included, is the operation of the table runs |
| `TableHeap.Exercise` | tcp_sock.c:97-292 | any run of table operations on a fresh stack ends with a heap that agrees with the plain reference of the run |
| `TableHeap.CountOnHeap` | include/tcp_sock.h:37-39 | the ref_cnt field of a sock object is the number of tables whose chains hold it, and a released object is in none |
| `TableHeap.Answer` | tcp_sock.c:165-177 | after such a run the pointer walk of the lookup answers as the reference does |
| `RingBuffers.BetweenLength` | include/ring_buffer.h:31-34 | the modular difference is the number of bytes from head to tail, and byte i is at head + i around the end |
| `RingBuffers.DropFront` | include/ring_buffer.h:70 | moving the head drops exactly the front bytes, across the wrap as well |
| `RingBuffers.AppendBack` | include/ring_buffer.h:82-92 | the two copies after the tail append, across the wrap as well |
| `RingBuffers.RingBuffer.constructor` | include/ring_buffer.h:15-24 | an empty buffer of the requested capacity |
| `RingBuffers.RingBuffer.Space` | include/ring_buffer.h:31-40 | used is the number of bytes held, and used + free is the requested capacity |
| `RingBuffers.RingBuffer.CopyOut` | include/ring_buffer.h:60-68 | the wrapped or straight copy delivers the front bytes and nothing else of the target changes |
| `RingBuffers.RingBuffer.CopyIn` | include/ring_buffer.h:82-90 | the wrapped or straight copy writes the source bytes after the tail and nothing else |
| `RingBuffers.RingBuffer.Read` | include/ring_buffer.h:56-74 | the front min(used, size) bytes are returned and removed, a size of zero or below changes nothing, and all bytes taken followed by the contents remain all bytes written |
| `RingBuffers.RingBuffer.Write` | include/ring_buffer.h:77-94 | the bytes are appended, and all bytes taken followed by the contents are all bytes written |
| `RingBuffers.WindowSum` | tcp_sock.c:428-432 | the 16-bit addition does not wrap for a size of zero or more; for a negative size the window is unchanged exactly when 65536 divides it |
| `RingBuffers.Receiver.constructor` | tcp_sock.c:53-59 | window and buffer start equal |
| `RingBuffers.Receiver.WindowIsFree` | include/ring_buffer.h:36-40 | the window invariant says that rcv_wnd is ring_buffer_free |
| `RingBuffers.Receiver.Deliver` | include/ring_buffer.h:76-94 | an arrival within the window keeps rcv_wnd equal to the free space |
| `RingBuffers.Receiver.Read` | tcp_sock.c:421-432 | the first min(held, size) bytes held are put at the front of the destination, whose rest is unchanged; rcv_wnd stays equal to the free space if and only if size is not negative or is a multiple of 65536; a negative size moves no byte |
| `RingBuffers.AllPassThrough` | include/ring_buffer.h:56-94 | on the plain queue of a run, what was handed out followed by what is queued is what arrived |
| `RingBuffers.Ask` | tcp_sock.c:421-432 | the application gets the next bytes in order, and can tell how many by the growth of the returned window |
| `RingBuffers.Transfer` | tcp_sock.c:421-432 | in every run of arrivals and reads the bytes put into the destinations, followed by the contents, are all bytes that arrived, in order |
| `SynchWait.Synch.constructor` | include/synch_wait.h:16-23 | all flags clear |
| `SynchWait.SectionTable` | include/synch_wait.h:26-72 | flag by flag, what each critical section does on a dead, a notified and a fresh structure |
| `SynchWait.Synch.Enter` | include/synch_wait.h:42-52 | sleep_on up to the condition wait, or through it when notified or dead |
| `SynchWait.Synch.Leave` | include/synch_wait.h:48-51 | sleep_on after the condition wait |
| `SynchWait.Synch.WakeUp` | include/synch_wait.h:57-72 | sets notified once and signals exactly when somebody is marked asleep |
| `SynchWait.Synch.Exit` | include/synch_wait.h:26-37 | sets dead once and broadcasts exactly when somebody is marked asleep |
| `SynchWait.OneSleeperRun` | include/synch_wait.h:26-72 | with at most one sleeper, in every run with any wakers, exits and spurious wake-ups, a blocked unsignalled sleeper implies sleep = 1, notified = 0 and dead = 0 |
| `SynchWait.TwoSleepersLose` | include/synch_wait.h:40-72 | with two or more sleepers a five-step run ends lost: a thread is blocked, the structure is notified and no thread has been signalled |
| `SynchWait.LostIffShared` | include/synch_wait.h:26-72 | a lost state (a thread blocked although the structure is notified or dead, and none signalled) can be reached if and only if at least two threads sleep on the structure |
| `SynchWait.LostStays` | include/synch_wait.h:26-72 | in a reachable lost state no wake_up and no wait_exit reaches any thread, and the state stays lost |
| `SynchWait.ReturnsMatchWakes` | include/synch_wait.h:40-72 | without spurious wake-ups and exits, effective wake-ups equal finished sleeps plus the pending notification, through every run |
| `SynchWait.WakesAccounted` | include/synch_wait.h:40-72 | the same from the initial state: each finished sleep consumed exactly one effective wake-up |
| `AcceptWait.EmptyTakesCounted` | tcp_sock.c:394-416 | in every run of arrivals, their separate wake_up calls, exits, spurious wake-ups and accepts, the takes from an empty queue are exactly as many as the times the thread is let through sleep_on on an empty queue and takes before anything is enqueued |
| `AcceptWait.EmptyTakeIff` | tcp_sock.c:407-411 | a run takes from an empty queue if and only if at some turn a stale or dead structure, a spurious wake-up, an exit or a late wake_up lets the thread through on an empty queue and nothing is enqueued before its take |
| `AcceptWait.CarefulNeverEmpty` | tcp_sock.c:394-416 | a run in which nothing lets the thread through on an empty queue never takes from one |
| `AcceptWait.EmptyTakeIffStale` | tcp_sock.c:407-411 | an accept that nothing interrupts takes from an empty queue if and only if it was called with the queue empty and the structure notified or dead |
| `AcceptWait.NeverStuck` | tcp_in.c:111-113 | whenever the thread sleeps beside a queued child, a wake_up that will release it is still to come |
| `AcceptWait.StaleArises` | tcp_sock.c:401-405 | one connection accepted without sleeping leaves a stale notification |
| `AcceptWait.SpuriousArises` | include/synch_wait.h:46-51 | from the start, a spurious wake-up of the sleeping thread leads to a take from an empty queue |
| `AcceptWait.LateNotifyArises` | tcp_in.c:111-113 | from the start, so does a wake_up that comes after its child was taken |
| `AcceptWait.AcceptedInOrder` | tcp_sock.c:374-416 | in every run, sleeping or not, children are accepted in the order in which they were enqueued, each once, and the queue holds the rest |
| `ConnectWait.EarlyReturnIff` | tcp_sock.c:338-341 | connect returns on a sock that is not established if and only if a spurious wake-up, an exit or a dead structure lets it through before the SYN-ACK is processed and it returns before that |
| `ConnectWait.ReturnsEstablished` | tcp_sock.c:338-341 | without spurious wake-ups and exits connect returns on an established sock |
| `ConnectWait.EarlyArises` | include/synch_wait.h:46-51 | a spurious wake-up makes connect return success in SYN_SENT |
| `ConnectWait.NeverMissed` | tcp_in.c:124-126 | whenever connect sleeps on an established sock, the wake_up that releases it is still to come |
| `Checksum.CanonicalUnique` | include/checksum.h:13-14 | the canonical sum is the one 16-bit value congruent to the total modulo 65535 that is zero only for a zero total |
| `Checksum.OnesSumIsCanonical` | include/checksum.h:10-14 | adding words with end-around carry gives the canonical value of the plain total |
| `Checksum.OrderIndependent` | include/checksum.h:10-14 | the sum of section 2 of RFC 1071 does not depend on the order of the words |
| `Checksum.ByteOrderIndependent` | include/checksum.h:10-14 | byte-swapping every word byte-swaps the sum |
| `Checksum.FoldedIsCanonical` | include/checksum.h:13-14 | two folds bring any 32-bit sum to its canonical value |
| `Checksum.SumWords` | include/checksum.h:10-11 | the loop computes the total of the words modulo 2^32 |
| `Checksum.FoldAndFinish` | include/checksum.h:13-19 | the two folds, the late odd byte and the complement give the complement of the canonical sum plus that byte, in 16 bits |
| `Checksum.Compute` | include/checksum.h:8-20 | the function's value in terms of the buffer's words and last byte |
| `Checksum.RfcIsComplement` | include/checksum.h:8-20 | the reference value is the complement of the one's complement sum of RFC 1071 |
| `Checksum.ChecksumExact` | include/checksum.h:8-20 | for every buffer and initial sum, odd lengths and overflow included, the result is the RFC 1071 checksum if and only if no carry is dropped: the total is below 2^32 and an odd last byte fits into 16 bits after folding |
| `Checksum.OddByteDropsCarry` | include/checksum.h:16-19 | the bytes 255, 255, 1 give a wrong checksum |
| `Checksum.PseudoRfc` | include/tcp.h:82 | adding whole 32-bit addresses comes to the same canonical sum as the 12-byte pseudo-header |
| `Checksum.TcpChecksum` | include/tcp.h:74-88 | the checksum is taken over len bytes with the field counted as zero, anywhere in a packet, and memory is left as it was |
| `Checksum.TcpChecksumExact` | include/tcp.h:74-88 | the TCP checksum is that of section 3.1 of RFC 9293 over pseudo-header and segment if and only if no carry is dropped |
| `Checksum.HighOctetsDropCarry` | include/tcp.h:82 | addresses whose last octets add up to 256 or more always give a value other than that of RFC 9293 |
| `Checksum.StoredPasses` | tcp.c:70-73 | for every segment, recomputing after the value has been stored gives the stored word |
| `Checksum.OneByteChanges` | include/checksum.h:8-20 | changing any one byte of any buffer changes its checksum, odd lengths and 32-bit overflow included |
| `Checksum.HeaderExact` | include/ip.h:74-82 | over an IP header of at most 60 bytes the checksum is always that of RFC 1071 |
| `Headers.FieldsSurvive` | tcp.c:50-64 | every header field survives building and parsing |
| `Headers.HeaderLayout` | tcp_out.c:16-24 | the header that is built, number by number at the positions of section 3.1 of RFC 9293 |
| `Headers.ParseLayout` | tcp.c:52-63 | the positions that tcp_cb_init reads, for headers of any length, and the data length that is left |
| `Headers.FinOnWire` | tcp_out.c:87-88 | a FIN, with or without ACK, moves snd_nxt by one, and the receiver parses that end |
| `Headers.ChecksumFieldApart` | tcp_out.c:52 | storing the checksum afterwards changes nothing that is parsed |
| `Headers.FillHeaders` | tcp_out.c:13-25 | both headers are in place, checksum and urgent pointer zero, and the payload is untouched |
| `Headers.SealTcp` | tcp_out.c:52 | the TCP checksum of the packet is stored in its field and nothing else changes |
| `Headers.SealedPasses` | tcp.c:70-73 | every packet that stores its checksum passes the receiver's test, whatever its contents and length |
| `Headers.FillBoth` | tcp_out.c:49-54 | headers with both checksums: the packet passes the receiver's test and its IP checksum is that of RFC 1071 over the header |
| `Headers.SealIp` | tcp_out.c:54 | the IP checksum of the header is stored in its field and nothing else changes |
| `Headers.IpChecksumExact` | include/ip.h:74-82 | the stored IP checksum is that of RFC 1071 over the header |
| `Headers.SendPacket` | tcp_out.c:32-60 | the packet carries the old send variables, passes the receiver's test and stores the RFC 1071 checksum of its IP header, the payload is untouched, and only snd_nxt and snd_wnd move, by the data length modulo 2^32 |
| `Headers.SendControl` | tcp_out.c:67-91 | the packet carries the sock's fields and the flags and passes the receiver's test; SYN and FIN take one number; without memory nothing is sent and the sock is unchanged |
| `Headers.SendReset` | tcp_out.c:97-115 | the packet answers the received segment (mirrored tuple, sequence number 0, acknowledging seq_end) and passes the receiver's test; without memory nothing is sent |
| `Headers.ControlOnWire` | tcp_out.c:67-91 | a control packet parses to the segment of the protocol model and its parsed seq_end is the sender's new snd_nxt |
| `Headers.DataOnWire` | tcp_out.c:37-57 | the parsed seq_end of a data packet is the sender's new snd_nxt if and only if the IP length fits 16 bits, and then it parses to the segment sent |
| `Headers.SendsTile` | tcp_out.c:45-57 | over any run of sends each segment starts where the previous one ends and the last ends at snd_nxt, modulo 2^32 |
| `Headers.PacketsTile` | tcp.c:50-64 | for any run of sends the packets, as the receiver parses them, tile sequence space from the old to the new snd_nxt if and only if every one of them fits its 16-bit length field |
| `Headers.WindowConserved` | tcp_out.c:56-57 | over any run of sends snd_nxt + snd_wnd moves by exactly the number of numbered control packets, so data sends conserve it |
| `ByteNet.CarrierAccepted` | tcp.c:68-76 | a packet that carries a segment and passes the checksum test is parsed to that segment |
| `ByteNet.MismatchDropped` | tcp.c:70-73 | a packet whose stored checksum is not the one its bytes give is dropped |
| `ByteNet.OneByteCaught` | tcp.c:70-73 | a packet with any one byte of its TCP header or data changed in transit is dropped |
| `ByteNet.Screen` | tcp.c:68-76 | the test and the parse on the bytes of a packet, which are left as they were |
| `ByteNet.DamageArrives` | tcp.c:70-73 | dropped bytes may arrive at any host that is up, at any time |
| `ByteNet.DamageChangesNothing` | tcp.c:70-73 | and never change anything |
| `ByteNet.EmitControl` | tcp_out.c:67-91 | the bytes of a control packet carry the segment of the protocol model |
| `ByteNet.EmitReset` | tcp_out.c:97-115 | the bytes of a reset carry the segment of the protocol model |
| `ByteNet.EmitData` | tcp_out.c:32-60 | the bytes of a data packet that fits carry the segment of the protocol model |
| `ByteNet.MovedRefines` | tcp.c:66-81 | a move of the packet network (a call, an accepted packet, or bytes that fail the test) is a step of the segment network or nothing |
| `ByteNet.ByteRunRefines` | tcp.c:66-81 | every run of packets, loss, duplication, reordering and detected corruption included, is a run of segments, state by state |
| `ByteNet.StepHasMove` | tcp.c:66-81 | every step of segments whose data fits its packet is a move of packets |
| `ByteNet.EstablishedOnWire` | tcp_in.c:106-114 | in every run of packets a child is ESTABLISHED only after its peer was |
| `Rebind.AddHeadIff` | include/list.h:49-52 | the writes of list_add_head leave circular lists, whatever they hold, if and only if the node was in no list |
| `Rebind.ListAddHeadAgain` | include/list.h:49-52 | the writes done on a linked node leave no well-formed lists under these heads |
| `Rebind.ConnectBound` | tcp_sock.c:324-327 | connect's list_add_head on a sock that is bound already leaves a heap that realises no host at all, whatever the 4-tuple |
| `Rebind.BindThenConnect` | tcp_sock.c:226-237 | after every successful bind the sock is still idle and bound, so a connect would do so |

## Left out

- `tcp_sock_close` and the teardown states: its LISTEN path drops references that the unhash calls have already dropped and its SYN_RECV path leaves the sock linked, so no table or queue invariant survives it.
- `tcp_timer.c`: it uses an undeclared name, treats every timer as a time-wait timer and never advances time.
- Data transfer, retransmission and congestion control: `tcp_sock_write` is empty and `cwnd`, `ssthresh` and `recovery_point` are never used.
- `tcp_sock_accept_queue_full` is never called, so `backlog` bounds nothing and no bound on the accept queue is stated.
- The port choice inside `tcp_sock_connect`, which stores a byte-swapped port without checking it; distinct ports are proved for runs of bind and bind-unhash without connect.
- `main.c`, `ip.c`, `tcp_apps.c`, ARP, routing and ICMP.
- `include/async_wait.h`, which repeats `include/synch_wait.h`, and `hash16`, which nothing here uses.
- Logging, flag printing, scripts and the Python peer.
- TcpStack.TcpSock.Drop: a released sock is only marked; freeing its memory is not modelled.
- RingBuffers.Receiver.Deliver: models the environment, since the source never writes to the receive buffer.
- Headers.SealIp: an IP header with options is not modelled.
- AcceptWait.EmptyTakeIff: one accepting thread; several would share one wait structure, where `SynchWait.TwoSleepersLose` already loses wake-ups.
- Queues.ConnectHost: asks for an unbound sock, since on a bound one `tcp_sock_connect` leaves no lists at all (`Rebind.ConnectBound`); for the same reason binding a bound sock, or opening one twice, is no step of `Net`.
- TcpStack.Stack.ConnectTo: asks for an unbound sock, for the same reason.
- ByteNet.ByteRunRefines: bytes that pass the checksum test are those of an emitted packet, so undetected corruption is not modelled, and data is sent only if it fits its packet (`Headers.DataOnWire` says what happens otherwise).
- ConnectWait.EarlyReturnIff: the connecting thread is the only sleeper on its wait structure.
- SynchWait.Synch.Enter: the return values of `sleep_on` and `wake_up`, which the callers ignore, are not modelled.
