/** tcp_sock_accept over the accept queue and its wait structure. The call
    dequeues after sleeping without looking at the queue again. */
module AcceptWait {
  import S = SynchWait

  /** Where the accepting thread is: outside the call, past the test that found
      the queue empty, in the condition wait, released from it, or past sleep_on
      with the dequeue still to come. */
  datatype Where = Away | Resolved | Asleep | Woken | Through

  /** arrived and taken are the children enqueued and accepted so far, in order;
      owed counts the enqueued ones whose wake_up is still to come; empties
      counts the times the thread took from an empty queue. */
  datatype Accepting =
    Accepting(queue: seq<nat>, arrived: seq<nat>, taken: seq<nat>, owed: nat, w: S.Wait, at: Where, empties: nat)

  /** Enqueue and Notify are the two halves of the SYN_RECV branch; Check, Sleep,
      Wake and Take are the accepting thread; Spurious and Exit are the others. */
  datatype Turn = Enqueue(child: nat) | Notify | Check | Sleep | Spurious | Exit | Wake | Take

  const Start: Accepting := Accepting([], [], [], 0, S.Wait(false, false, false), Away, 0)

  predicate Possible(s: Accepting, t: Turn) {
    match t
    case Enqueue(_) => true
    case Notify => s.owed > 0
    case Check => s.at == Away
    case Sleep => s.at == Resolved
    case Spurious => s.at == Asleep
    case Exit => true
    case Wake => s.at == Woken
    case Take => s.at == Through
  }

  function Dequeued(s: Accepting): Accepting {
    if s.queue != [] then s.(queue := s.queue[1..], taken := s.taken + [s.queue[0]]) else s.(empties := s.empties + 1)
  }

  /** A signal or broadcast reaches the thread if it is in the condition wait. */
  function Signalled(at: Where, signals: bool): Where {
    if signals && at == Asleep then Woken else at
  }

  function After(s: Accepting, t: Turn): Accepting
    requires Possible(s, t)
  {
    match t
    case Enqueue(c) => s.(queue := s.queue + [c], arrived := s.arrived + [c], owed := s.owed + 1)
    case Notify =>
      var (w, signals) := S.WakeSection(s.w);
      s.(owed := s.owed - 1, w := w, at := Signalled(s.at, signals))
    case Check => if s.queue != [] then Dequeued(s) else s.(at := Resolved)
    case Sleep =>
      var (w, waits) := S.EnterSection(s.w);
      s.(w := w, at := if waits then Asleep else Through)
    case Spurious => s.(at := Woken)
    case Exit =>
      var (w, broadcasts) := S.ExitSection(s.w);
      s.(w := w, at := Signalled(s.at, broadcasts))
    case Wake => s.(w := S.LeaveSection(s.w), at := Through)
    case Take => Dequeued(s).(at := Away)
  }

  predicate Feasible(s: Accepting, turns: seq<Turn>)
    decreases |turns|
  {
    turns == [] || (Possible(s, turns[0]) && Feasible(After(s, turns[0]), turns[1..]))
  }

  function Played(s: Accepting, turns: seq<Turn>): Accepting
    requires Feasible(s, turns)
    decreases |turns|
  {
    if turns == [] then s else Played(After(s, turns[0]), turns[1..])
  }

  // When the queue is empty at the dequeue

  /** The turn lets the thread through sleep_on although the queue is empty: it
      sleeps on a notification left over from a child already taken or on a dead
      structure, or is in the condition wait when a spurious wake-up, an exit or
      the late wake_up for a child already taken comes. */
  predicate LetThrough(s: Accepting, t: Turn) {
    s.queue == [] &&
    match t
    case Sleep => s.w.notified || s.w.dead
    case Spurious => true
    case Exit => s.at == Asleep
    case Notify => s.at == Asleep
    case _ => false
  }

  /** The thread takes before anything is enqueued. */
  predicate TakenFirst(turns: seq<Turn>) {
    turns != [] && (turns[0] == Take || (!turns[0].Enqueue? && TakenFirst(turns[1..])))
  }

  /** How often the thread is let through on an empty queue and takes before
      anything is enqueued. */
  function Hazards(s: Accepting, turns: seq<Turn>): nat
    requires Feasible(s, turns)
    decreases |turns|
  {
    if turns == [] then 0
    else (if LetThrough(s, turns[0]) && TakenFirst(turns[1..]) then 1 else 0) + Hazards(After(s, turns[0]), turns[1..])
  }

  /** Whoever is in the condition wait can be woken. A child that waits beside a
      sleeping thread still has its wake_up to come. */
  ghost predicate Sound(s: Accepting) {
    && (s.at == Asleep ==> s.w.sleep && !s.w.notified && !s.w.dead && (s.queue != [] ==> s.owed > 0))
    && (s.at == Resolved && s.queue != [] ==> s.owed > 0 || s.w.notified || s.w.dead)
  }

  /** The thread has been let through already and will take from an empty queue. */
  predicate Pending(s: Accepting, turns: seq<Turn>) {
    (s.at == Woken || s.at == Through) && s.queue == [] && TakenFirst(turns)
  }

  lemma {:induction false} EmptyTakesFrom(s: Accepting, turns: seq<Turn>)
    requires Sound(s) && Feasible(s, turns)
    ensures Sound(Played(s, turns))
    ensures Played(s, turns).empties == s.empties + Hazards(s, turns) + if Pending(s, turns) then 1 else 0
    decreases |turns|
  {
    if turns != [] {
      EmptyTakesFrom(After(s, turns[0]), turns[1..]);
    }
  }

  /** In every run, each take from an empty queue belongs to one turn that let the
      thread through on an empty queue with nothing enqueued before the take,
      and every such turn leads to one. */
  lemma EmptyTakesCounted(turns: seq<Turn>)
    requires Feasible(Start, turns)
    ensures Played(Start, turns).empties == Hazards(Start, turns)
  {
    EmptyTakesFrom(Start, turns);
  }

  /** Turn k of the run lets the thread through on an empty queue, and it takes
      before anything is enqueued. */
  predicate HazardAt(s: Accepting, turns: seq<Turn>, k: nat)
    requires k < |turns|
  {
    Feasible(s, turns[..k]) && LetThrough(Played(s, turns[..k]), turns[k]) && TakenFirst(turns[k + 1..])
  }

  lemma HazardLater(s: Accepting, turns: seq<Turn>, k: nat)
    requires Feasible(s, turns) && 0 < k < |turns|
    ensures HazardAt(s, turns, k) <==> HazardAt(After(s, turns[0]), turns[1..], k - 1)
  {
    assert turns[..k][1..] == turns[1..][..k - 1] && turns[1..][k..] == turns[k + 1..];
    Unfold(s, turns[..k]);
  }

  lemma {:induction false} HazardsFound(s: Accepting, turns: seq<Turn>)
    requires Feasible(s, turns)
    ensures Hazards(s, turns) > 0 <==> exists k :: 0 <= k < |turns| && HazardAt(s, turns, k)
    decreases |turns|
  {
    if turns != [] {
      var s1, rest := After(s, turns[0]), turns[1..];
      HazardsFound(s1, rest);
      assert HazardAt(s, turns, 0) <==> LetThrough(s, turns[0]) && TakenFirst(rest) by { assert turns[..0] == []; }
      forall k | 0 < k < |turns| ensures HazardAt(s, turns, k) <==> HazardAt(s1, rest, k - 1) {
        HazardLater(s, turns, k);
      }
      if k :| 0 <= k < |rest| && HazardAt(s1, rest, k) {
        assert HazardAt(s, turns, k + 1);
      }
    }
  }

  /** A run takes from an empty queue if and only if some turn lets the thread
      through on an empty queue and it takes before anything is enqueued. */
  lemma EmptyTakeIff(turns: seq<Turn>)
    requires Feasible(Start, turns)
    ensures Played(Start, turns).empties > 0 <==> exists k :: 0 <= k < |turns| && HazardAt(Start, turns, k)
  {
    EmptyTakesCounted(turns);
    HazardsFound(Start, turns);
  }

  /** accept never sleeps on beside a waiting child without a wake_up to come. */
  lemma NeverStuck(turns: seq<Turn>)
    requires Feasible(Start, turns)
    ensures var s := Played(Start, turns);
      s.at == Asleep && s.queue != [] ==> s.owed > 0 && LetGo(s, Notify)
  {
    EmptyTakesFrom(Start, turns);
  }

  /** The turn ends the condition wait. */
  predicate LetGo(s: Accepting, t: Turn) {
    s.at == Asleep && Possible(s, t) && After(s, t).at == Woken
  }

  /** No turn lets the thread through on an empty queue. */
  predicate Careful(s: Accepting, turns: seq<Turn>)
    requires Feasible(s, turns)
    decreases |turns|
  {
    turns == [] || (!LetThrough(s, turns[0]) && Careful(After(s, turns[0]), turns[1..]))
  }

  lemma {:induction false} CarefulHasNoHazard(s: Accepting, turns: seq<Turn>)
    requires Feasible(s, turns) && Careful(s, turns)
    ensures Hazards(s, turns) == 0
    decreases |turns|
  {
    if turns != [] {
      CarefulHasNoHazard(After(s, turns[0]), turns[1..]);
    }
  }

  lemma CarefulNeverEmpty(turns: seq<Turn>)
    requires Feasible(Start, turns) && Careful(Start, turns)
    ensures Played(Start, turns).empties == 0
  {
    EmptyTakesCounted(turns);
    CarefulHasNoHazard(Start, turns);
  }

  // Each cause arises

  /** Nothing to accept, but sleep_on will not wait. */
  predicate Stale(s: Accepting) {
    s.queue == [] && (s.w.notified || s.w.dead)
  }

  lemma Unfold(s: Accepting, turns: seq<Turn>)
    requires turns != []
    ensures Feasible(s, turns) <==> Possible(s, turns[0]) && Feasible(After(s, turns[0]), turns[1..])
    ensures Feasible(s, turns) ==> Played(s, turns) == Played(After(s, turns[0]), turns[1..])
  {
  }

  lemma ThreeTurns(s: Accepting, a: Turn, b: Turn, c: Turn)
    ensures Feasible(s, [a, b, c]) <==> Possible(s, a) && Possible(After(s, a), b) && Possible(After(After(s, a), b), c)
    ensures Feasible(s, [a, b, c]) ==> Played(s, [a, b, c]) == After(After(After(s, a), b), c)
  {
    assert [a, b, c][1..] == [b, c] && [b, c][1..] == [c] && [c][1..] == [];
    Unfold(s, [a, b, c]);
    if Possible(s, a) {
      Unfold(After(s, a), [b, c]);
      if Possible(After(s, a), b) {
        Unfold(After(After(s, a), b), [c]);
      }
    }
  }

  /** An accept that nothing interrupts takes from an empty queue exactly when it
      was called on a stale structure. */
  lemma EmptyTakeIffStale(s: Accepting)
    requires s.at == Away
    ensures Stale(s) <==> Feasible(s, [Check, Sleep, Take]) && Played(s, [Check, Sleep, Take]).empties > s.empties
  {
    ThreeTurns(s, Check, Sleep, Take);
  }

  /** One connection accepted without sleeping leaves a stale notification. */
  lemma StaleArises(c: nat)
    ensures Feasible(Start, [Enqueue(c), Notify, Check])
    ensures Stale(Played(Start, [Enqueue(c), Notify, Check])) && Played(Start, [Enqueue(c), Notify, Check]).at == Away
  {
    ThreeTurns(Start, Enqueue(c), Notify, Check);
  }

  lemma TurnFirst(s: Accepting, turns: seq<Turn>)
    requires turns != [] && Possible(s, turns[0]) && Feasible(After(s, turns[0]), turns[1..])
    ensures Feasible(s, turns) && Played(s, turns) == Played(After(s, turns[0]), turns[1..])
  {
  }

  /** A spurious wake-up takes from an empty queue at once. */
  lemma SpuriousTakes(s: Accepting)
    requires Sound(s) && s.at == Asleep && s.queue == []
    ensures Feasible(s, [Spurious, Wake, Take]) && Played(s, [Spurious, Wake, Take]).empties == s.empties + 1
  {
    ThreeTurns(s, Spurious, Wake, Take);
  }

  /** So does a wake_up that comes after its child was taken. */
  lemma LateNotifyTakes(s: Accepting)
    requires Sound(s) && s.at == Asleep && s.queue == [] && s.owed > 0
    ensures Feasible(s, [Notify, Wake, Take]) && Played(s, [Notify, Wake, Take]).empties == s.empties + 1
  {
    ThreeTurns(s, Notify, Wake, Take);
  }

  lemma SpuriousArises()
    ensures var turns := [Check, Sleep, Spurious, Wake, Take]; Feasible(Start, turns) && Played(Start, turns).empties == 1
  {
    var s1 := After(Start, Check);
    var s2 := After(s1, Sleep);
    SpuriousTakes(s2);
    TurnFirst(s1, [Sleep, Spurious, Wake, Take]);
    TurnFirst(Start, [Check, Sleep, Spurious, Wake, Take]);
  }

  lemma LateNotifyArises(c: nat)
    ensures var turns := [Enqueue(c), Check, Check, Sleep, Notify, Wake, Take];
      Feasible(Start, turns) && Played(Start, turns).empties == 1
  {
    var s1 := After(Start, Enqueue(c));
    var s2 := After(s1, Check);
    var s3 := After(s2, Check);
    var s4 := After(s3, Sleep);
    LateNotifyTakes(s4);
    TurnFirst(s3, [Sleep, Notify, Wake, Take]);
    TurnFirst(s2, [Check, Sleep, Notify, Wake, Take]);
    TurnFirst(s1, [Check, Check, Sleep, Notify, Wake, Take]);
    TurnFirst(Start, [Enqueue(c), Check, Check, Sleep, Notify, Wake, Take]);
  }

  // The order of acceptance

  lemma {:induction false} OrderFrom(s: Accepting, turns: seq<Turn>)
    requires Feasible(s, turns) && s.arrived == s.taken + s.queue
    ensures var s' := Played(s, turns); s'.arrived == s'.taken + s'.queue
    decreases |turns|
  {
    if turns != [] {
      var s1 := After(s, turns[0]);
      if s.queue != [] {
        assert s.taken + s.queue == (s.taken + [s.queue[0]]) + s.queue[1..];
      }
      assert s1.arrived == s1.taken + s1.queue;
      OrderFrom(s1, turns[1..]);
    }
  }

  /** In every run, sleeping or not, children are accepted in the order in which
      they were enqueued, each once; the queue holds the rest. */
  lemma AcceptedInOrder(turns: seq<Turn>)
    requires Feasible(Start, turns)
    ensures var s := Played(Start, turns); s.arrived == s.taken + s.queue
  {
    OrderFrom(Start, turns);
  }
}
