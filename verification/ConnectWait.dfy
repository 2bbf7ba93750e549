/** tcp_sock_connect after its SYN: it sleeps once and returns, without looking
    whether the sock has been established. */
module ConnectWait {
  import S = SynchWait

  /** Where the connecting thread is: on its way to sleep_on, in the condition
      wait, released from it, or returned. */
  datatype Where = Sent | Asleep | Woken | Returned

  /** owed: the SYN|ACK has been processed and its wake_up is still to come.
      early: connect returned while the sock was not established. */
  datatype Connecting = Connecting(established: bool, owed: bool, w: S.Wait, at: Where, early: bool)

  /** Establish and Notify are the two halves of the SYN_SENT branch. */
  datatype Turn = Establish | Notify | Sleep | Spurious | Exit | Wake

  const Start: Connecting := Connecting(false, false, S.Wait(false, false, false), Sent, false)

  predicate Possible(s: Connecting, t: Turn) {
    match t
    case Establish => !s.established
    case Notify => s.owed
    case Sleep => s.at == Sent
    case Spurious => s.at == Asleep
    case Exit => true
    case Wake => s.at == Woken
  }

  function Signalled(at: Where, signals: bool): Where {
    if signals && at == Asleep then Woken else at
  }

  function Return(s: Connecting): Connecting {
    s.(at := Returned, early := s.early || !s.established)
  }

  function After(s: Connecting, t: Turn): Connecting
    requires Possible(s, t)
  {
    match t
    case Establish => s.(established := true, owed := true)
    case Notify =>
      var (w, signals) := S.WakeSection(s.w);
      s.(owed := false, w := w, at := Signalled(s.at, signals))
    case Sleep =>
      var (w, waits) := S.EnterSection(s.w);
      if waits then s.(w := w, at := Asleep) else Return(s.(w := w))
    case Spurious => s.(at := Woken)
    case Exit =>
      var (w, broadcasts) := S.ExitSection(s.w);
      s.(w := w, at := Signalled(s.at, broadcasts))
    case Wake => Return(s.(w := S.LeaveSection(s.w)))
  }

  predicate Feasible(s: Connecting, turns: seq<Turn>)
    decreases |turns|
  {
    turns == [] || (Possible(s, turns[0]) && Feasible(After(s, turns[0]), turns[1..]))
  }

  function Played(s: Connecting, turns: seq<Turn>): Connecting
    requires Feasible(s, turns)
    decreases |turns|
  {
    if turns == [] then s else Played(After(s, turns[0]), turns[1..])
  }

  // When connect returns too early

  /** The turn lets the thread through sleep_on before the sock is established:
      it sleeps on a dead structure, or a spurious wake-up or an exit comes. */
  predicate LetThrough(s: Connecting, t: Turn) {
    !s.established &&
    match t
    case Sleep => s.w.dead
    case Spurious => true
    case Exit => s.at == Asleep
    case _ => false
  }

  /** The thread, once let through, returns before the sock is established; on a
      dead structure it has returned already. */
  predicate ReturnsFirst(t: Turn, rest: seq<Turn>) {
    t == Sleep || WakesFirst(rest)
  }

  predicate WakesFirst(turns: seq<Turn>) {
    turns != [] && (turns[0] == Wake || (turns[0] != Establish && WakesFirst(turns[1..])))
  }

  predicate Slips(s: Connecting, turns: seq<Turn>)
    requires Feasible(s, turns)
    decreases |turns|
  {
    turns != [] && (
      || (LetThrough(s, turns[0]) && ReturnsFirst(turns[0], turns[1..]))
      || Slips(After(s, turns[0]), turns[1..]))
  }

  /** Only an established sock is notified, and whoever sleeps can be woken. */
  ghost predicate Sound(s: Connecting) {
    && (s.w.notified || s.owed ==> s.established)
    && (s.at == Asleep ==> s.w.sleep && !s.w.notified && !s.w.dead)
  }

  lemma {:induction false} EarlyFrom(s: Connecting, turns: seq<Turn>)
    requires Sound(s) && Feasible(s, turns)
    ensures Played(s, turns).early <==>
      s.early || Slips(s, turns) || (s.at == Woken && !s.established && WakesFirst(turns))
    decreases |turns|
  {
    if turns != [] {
      EarlyFrom(After(s, turns[0]), turns[1..]);
    }
  }

  /** connect returns on a sock that is not established if and only if a spurious
      wake-up, an exit or a dead structure lets it through before the SYN|ACK is
      processed and it returns before that. */
  lemma EarlyReturnIff(turns: seq<Turn>)
    requires Feasible(Start, turns)
    ensures Played(Start, turns).early <==> Slips(Start, turns)
  {
    EarlyFrom(Start, turns);
  }

  /** Such a turn must occur in the run. */
  lemma {:induction false} SlipNeedsCause(s: Connecting, turns: seq<Turn>)
    requires Feasible(s, turns) && !s.w.dead && Spurious !in turns && Exit !in turns
    ensures !Slips(s, turns)
    decreases |turns|
  {
    if turns != [] {
      SlipNeedsCause(After(s, turns[0]), turns[1..]);
    }
  }

  /** Without spurious wake-ups and exits connect returns established. */
  lemma ReturnsEstablished(turns: seq<Turn>)
    requires Feasible(Start, turns) && Spurious !in turns && Exit !in turns
    ensures !Played(Start, turns).early
  {
    EarlyReturnIff(turns);
    SlipNeedsCause(Start, turns);
  }

  lemma TurnFirst(s: Connecting, turns: seq<Turn>)
    requires turns != [] && Possible(s, turns[0]) && Feasible(After(s, turns[0]), turns[1..])
    ensures Feasible(s, turns) && Played(s, turns) == Played(After(s, turns[0]), turns[1..])
  {
  }

  /** A spurious wake-up makes connect report success on a sock in SYN_SENT. */
  lemma EarlyArises()
    ensures Feasible(Start, [Sleep, Spurious, Wake]) && Played(Start, [Sleep, Spurious, Wake]).early
  {
    var s1 := After(Start, Sleep);
    var s2 := After(s1, Spurious);
    TurnFirst(s2, [Wake]);
    TurnFirst(s1, [Spurious, Wake]);
    TurnFirst(Start, [Sleep, Spurious, Wake]);
  }

  /** The wake_up of the SYN|ACK is not missed: once it has come, a thread that is
      still in the call is past its wait or will not wait. */
  lemma {:induction false} HeardFrom(s: Connecting, turns: seq<Turn>)
    requires Heard(s) && Feasible(s, turns)
    ensures Heard(Played(s, turns))
    decreases |turns|
  {
    if turns != [] {
      HeardFrom(After(s, turns[0]), turns[1..]);
    }
  }

  ghost predicate Heard(s: Connecting) {
    && (s.w.notified || s.owed ==> s.established)
    && (s.at == Asleep ==> s.w.sleep && !s.w.notified && !s.w.dead)
    && (s.established && !s.owed && s.at == Sent ==> s.w.notified || s.w.dead)
    && (s.established && s.at == Asleep ==> s.owed)
  }

  lemma NeverMissed(turns: seq<Turn>)
    requires Feasible(Start, turns)
    ensures var s := Played(Start, turns);
      s.established && s.at == Asleep ==> s.owed && After(s, Notify).at == Woken
  {
    HeardFrom(Start, turns);
  }
}
