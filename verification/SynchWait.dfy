/** The sleep and wake-up protocol of include/synch_wait.h: the critical
    sections under the mutex are atomic, and the condition wait splits sleep_on
    into the section before it and the section after it. */
module SynchWait {

  datatype Wait = Wait(notified: bool, dead: bool, sleep: bool)

  // The critical sections

  /** sleep_on up to the condition wait; the flag says whether it waits. */
  function EnterSection(w: Wait): (Wait, bool) {
    if w.dead then (w, false)
    else if w.notified then (w.(notified := false, sleep := false), false)
    else (w.(sleep := true), true)
  }

  /** sleep_on after the condition wait */
  function LeaveSection(w: Wait): Wait {
    w.(notified := false, sleep := false)
  }

  /** wake_up; the flag says whether it signals. */
  function WakeSection(w: Wait): (Wait, bool) {
    if w.dead || w.notified then (w, false) else (w.(notified := true), w.sleep)
  }

  /** wait_exit; the flag says whether it broadcasts. */
  function ExitSection(w: Wait): (Wait, bool) {
    if w.dead then (w, false) else (w.(dead := true), w.sleep)
  }

  /** What each section does, flag by flag: sleep_on on a dead structure does
      nothing, on a notified one clears both flags and does not wait, and
      otherwise marks itself asleep and waits; wake_up and wait_exit set their
      flag once and tell whoever is marked asleep. */
  lemma SectionTable(w: Wait)
    ensures w.dead ==> EnterSection(w) == (w, false) && WakeSection(w) == (w, false) && ExitSection(w) == (w, false)
    ensures !w.dead && w.notified ==> EnterSection(w) == (Wait(false, false, false), false) && WakeSection(w) == (w, false)
    ensures !w.dead && !w.notified ==>
      EnterSection(w) == (Wait(false, false, true), true) && WakeSection(w) == (Wait(true, false, w.sleep), w.sleep)
    ensures !w.dead ==> ExitSection(w) == (Wait(w.notified, true, w.sleep), w.sleep)
    ensures LeaveSection(w) == Wait(false, w.dead, false)
  {
  }

  class Synch {
    var notified: bool
    var dead: bool
    var sleep: bool

    function Val(): Wait
      reads this
    {
      Wait(notified, dead, sleep)
    }

    constructor ()
      ensures Val() == Wait(false, false, false)
    {
      notified, dead, sleep := false, false, false;
    }

    method Enter() returns (waits: bool)
      modifies this
      ensures (Val(), waits) == EnterSection(old(Val()))
    {
      if dead {
        return false;
      }
      sleep := true;
      if !notified {
        return true;
      }
      notified := false;
      sleep := false;
      return false;
    }

    method Leave()
      modifies this
      ensures Val() == LeaveSection(old(Val()))
    {
      notified := false;
      sleep := false;
    }

    method WakeUp() returns (signals: bool)
      modifies this
      ensures (Val(), signals) == WakeSection(old(Val()))
    {
      signals := false;
      if !dead && !notified {
        notified := true;
        signals := sleep;
      }
    }

    method Exit() returns (broadcasts: bool)
      modifies this
      ensures (Val(), broadcasts) == ExitSection(old(Val()))
    {
      broadcasts := false;
      if !dead {
        dead := true;
        broadcasts := sleep;
      }
    }
  }

  // The step system, with any number of sleepers and wakers

  /** Leaving: past the last section, before the return value is read. */
  datatype Pc = Outside | Blocked | Signalled | Leaving

  /** wakes counts the wake_up calls that set notified; finished counts the
      sleep_on calls that cleared it. */
  datatype State = State(w: Wait, pcs: seq<Pc>, wakes: nat, finished: nat)

  datatype Action =
    | Sleep(i: nat)
    | Spurious(i: nat)
    | Resume(i: nat)
    | Return(i: nat)
    | Wake(i: nat)   // i is the waiter that a signal reaches
    | Exit

  function Initial(n: nat): State {
    State(Wait(false, false, false), seq(n, _ => Outside), 0, 0)
  }

  /** A signal reaches some waiter if there is one. */
  predicate Enabled(s: State, a: Action) {
    match a
    case Sleep(i) => i < |s.pcs| && s.pcs[i] == Outside
    case Spurious(i) => i < |s.pcs| && s.pcs[i] == Blocked
    case Resume(i) => i < |s.pcs| && s.pcs[i] == Signalled
    case Return(i) => i < |s.pcs| && s.pcs[i] == Leaving
    case Wake(i) => Blocked in s.pcs ==> i < |s.pcs| && s.pcs[i] == Blocked
    case Exit => true
  }

  function Roused(pcs: seq<Pc>): (r: seq<Pc>)
    ensures |r| == |pcs|
    ensures forall i :: 0 <= i < |pcs| ==> r[i] == if pcs[i] == Blocked then Signalled else pcs[i]
  {
    seq(|pcs|, i requires 0 <= i < |pcs| => if pcs[i] == Blocked then Signalled else pcs[i])
  }

  function Next(s: State, a: Action): State
    requires Enabled(s, a)
  {
    match a
    case Sleep(i) =>
      var (w, waits) := EnterSection(s.w);
      State(w, s.pcs[i := if waits then Blocked else Leaving], s.wakes,
            s.finished + if s.w.notified && !s.w.dead then 1 else 0)
    case Spurious(i) => s.(pcs := s.pcs[i := Signalled])
    case Resume(i) => State(LeaveSection(s.w), s.pcs[i := Leaving], s.wakes, s.finished + 1)
    case Return(i) => s.(pcs := s.pcs[i := Outside])
    case Wake(i) =>
      var (w, signals) := WakeSection(s.w);
      State(w, if signals && Blocked in s.pcs then s.pcs[i := Signalled] else s.pcs,
            s.wakes + if w.notified && !s.w.notified then 1 else 0, s.finished)
    case Exit =>
      var (w, broadcasts) := ExitSection(s.w);
      s.(w := w, pcs := if broadcasts then Roused(s.pcs) else s.pcs)
  }

  predicate Legal(s: State, acts: seq<Action>)
    decreases |acts|
  {
    acts == [] || (Enabled(s, acts[0]) && Legal(Next(s, acts[0]), acts[1..]))
  }

  function Run(s: State, acts: seq<Action>): State
    requires Legal(s, acts)
    decreases |acts|
  {
    if acts == [] then s else Run(Next(s, acts[0]), acts[1..])
  }

  ghost predicate Reachable(n: nat, s: State) {
    exists acts :: Legal(Initial(n), acts) && Run(Initial(n), acts) == s
  }

  // No wake-up is lost on a single sleeper

  /** A sleeper that is blocked and unsignalled has nothing to be woken for, and
      the next waker or exit will see it. */
  ghost predicate NothingLost(s: State) {
    forall i :: 0 <= i < |s.pcs| && s.pcs[i] == Blocked ==> s.w.sleep && !s.w.notified && !s.w.dead
  }

  ghost predicate OneSleeper(s: State) {
    |s.pcs| <= 1 && NothingLost(s)
  }

  lemma {:induction false} OneSleeperRun(s: State, acts: seq<Action>)
    requires OneSleeper(s) && Legal(s, acts)
    ensures OneSleeper(Run(s, acts))
    decreases |acts|
  {
    if acts != [] {
      OneSleeperRun(Next(s, acts[0]), acts[1..]);
    }
  }

  // A wake-up that is lost

  /** A thread is blocked although the structure is notified or dead, and no
      thread has been signalled: the wake-up has reached nobody. */
  predicate Lost(s: State) {
    Blocked in s.pcs && Signalled !in s.pcs && (s.w.notified || s.w.dead)
  }

  /** While a thread is blocked, a set sleep flag means that the notification has
      been signalled, or that a waker or exit would still signal. */
  ghost predicate SleepTold(s: State) {
    Blocked in s.pcs && s.w.sleep ==> !s.w.dead && (s.w.notified ==> Signalled in s.pcs)
  }

  lemma SleepToldStep(s: State, a: Action)
    requires SleepTold(s) && Enabled(s, a)
    ensures SleepTold(Next(s, a))
  {
    var s' := Next(s, a);
    match a
    case Sleep(i) => StillThere(s.pcs, i, s'.pcs[i]);
    case Spurious(i) => assert s'.pcs[i] == Signalled;
    case Resume(i) =>
    case Return(i) => StillThere(s.pcs, i, Outside);
    case Wake(i) =>
      if s'.pcs != s.pcs { assert s'.pcs[i] == Signalled; }
    case Exit =>
  }

  /** Overwriting an entry that is neither keeps who is blocked or signalled. */
  lemma StillThere(pcs: seq<Pc>, i: nat, pc: Pc)
    requires i < |pcs| && pcs[i] != Blocked && pcs[i] != Signalled
    ensures Signalled in pcs ==> Signalled in pcs[i := pc]
    ensures Blocked in pcs[i := pc] ==> Blocked in pcs || pc == Blocked
  {
    if Signalled in pcs {
      var k :| 0 <= k < |pcs| && pcs[k] == Signalled;
      assert pcs[i := pc][k] == Signalled;
    }
  }

  lemma {:induction false} SleepToldRun(s: State, acts: seq<Action>)
    requires SleepTold(s) && Legal(s, acts)
    ensures SleepTold(Run(s, acts))
    decreases |acts|
  {
    if acts != [] {
      SleepToldStep(s, acts[0]);
      SleepToldRun(Next(s, acts[0]), acts[1..]);
    }
  }

  /** Lost for good: in a reachable lost state no wake_up and no wait_exit reaches
      any thread, and the state stays lost. */
  lemma LostStays(n: nat, s: State, a: Action)
    requires Reachable(n, s) && Lost(s) && Enabled(s, a) && (a.Wake? || a.Exit? || a.Return?)
    ensures Lost(Next(s, a)) && (!a.Return? ==> Next(s, a).pcs == s.pcs)
  {
    var acts :| Legal(Initial(n), acts) && Run(Initial(n), acts) == s;
    SleepToldRun(Initial(n), acts);
    if a.Return? {
      var k :| 0 <= k < |s.pcs| && s.pcs[k] == Blocked;
      assert Next(s, a).pcs[k] == Blocked;
    }
  }

  /** Two sleepers: the first to leave clears sleep, and the next wake-up
      passes the second by. */
  const LOSING: seq<Action> := [Sleep(0), Sleep(1), Wake(0), Resume(0), Wake(1)]

  lemma TwoSleepersLose(n: nat)
    requires n >= 2
    ensures Legal(Initial(n), LOSING) && Lost(Run(Initial(n), LOSING))
  {
    var s0 := Initial(n);
    var s1 := Next(s0, Sleep(0));
    var s2 := Next(s1, Sleep(1));
    assert s2.pcs[0] == Blocked && s2.pcs[1] == Blocked;
    var s3 := Next(s2, Wake(0));
    var s4 := Next(s3, Resume(0));
    assert s4.pcs[1] == Blocked && !s4.w.sleep;
    var s5 := Next(s4, Wake(1));
    assert s5.pcs[1] == Blocked && s5.w.notified;
    assert Signalled !in s5.pcs;
    RunsTo(s4, [Wake(1)]);
    RunsTo(s3, [Resume(0), Wake(1)]);
    RunsTo(s2, [Wake(0), Resume(0), Wake(1)]);
    RunsTo(s1, [Sleep(1), Wake(0), Resume(0), Wake(1)]);
    RunsTo(s0, LOSING);
  }

  lemma RunsTo(s: State, acts: seq<Action>)
    requires acts != [] && Enabled(s, acts[0]) && Legal(Next(s, acts[0]), acts[1..])
    ensures Legal(s, acts) && Run(s, acts) == Run(Next(s, acts[0]), acts[1..])
  {
  }

  /** A run can lose a wake-up or an exit, spurious wake-ups included, if and only
      if at least two threads sleep on the structure. */
  lemma LostIffShared(n: nat)
    ensures (exists s :: Reachable(n, s) && Lost(s)) <==> n >= 2
  {
    if n >= 2 {
      TwoSleepersLose(n);
      assert Reachable(n, Run(Initial(n), LOSING));
    } else {
      forall s | Reachable(n, s) ensures !Lost(s) {
        var acts :| Legal(Initial(n), acts) && Run(Initial(n), acts) == s;
        OneSleeperRun(Initial(n), acts);
      }
    }
  }

  // Each return consumes one wake-up

  predicate Calm(a: Action) {
    !a.Spurious? && !a.Exit?
  }

  ghost predicate Balanced(s: State) {
    && OneSleeper(s) && !s.w.dead
    && s.wakes == s.finished + (if s.w.notified then 1 else 0)
    && (|s.pcs| == 1 && s.pcs[0] == Signalled ==> s.w.notified)
  }

  /** Without spurious wake-ups and exits, the sleeps that have returned and the
      pending notification account for every effective wake-up. */
  lemma {:induction false} ReturnsMatchWakes(s: State, acts: seq<Action>)
    requires Balanced(s) && Legal(s, acts) && forall i :: 0 <= i < |acts| ==> Calm(acts[i])
    ensures Balanced(Run(s, acts))
    decreases |acts|
  {
    if acts != [] {
      ReturnsMatchWakes(Next(s, acts[0]), acts[1..]);
    }
  }

  lemma WakesAccounted(acts: seq<Action>)
    requires Legal(Initial(1), acts) && forall i :: 0 <= i < |acts| ==> Calm(acts[i])
    ensures var s := Run(Initial(1), acts); s.wakes == s.finished + if s.w.notified then 1 else 0
  {
    ReturnsMatchWakes(Initial(1), acts);
  }
}
