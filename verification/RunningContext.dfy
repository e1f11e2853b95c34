/**
 One successfully started agent process: its AgentRunningContext, the goroutine that waits on it,
 and any number of concurrent Stop calls, as a state machine over their atomic sections
 (agents/command_handler.go).
 */
module RunningContext {
  import opened Prelude

  /** The program counter of WaitOnAgentCommand: the step it has last completed. */
  datatype Waiter = Waiting | Reaped | Cleared | Closed | Cancelled | Decided

  /** The program counter of one Stop call, after its locked guard. */
  datatype Caller =
    | Declined
    | Claimed
    | AwaitingExit
    | TimedOut
    | Killed
    | Woken
    | Returned(afterKill: bool)

  datatype State = State(
    alive: bool,            // the operating system process exists
    exited: bool,           // meaningful once reaped: ProcessState.Exited(), false after a signal
    cmd: bool,              // cmd is non-nil
    stopping: bool,
    stopped: bool,          // the stopped channel is closed
    cancelCalled: bool,     // the context's own cancel function was called
    waiter: Waiter,
    callers: seq<Caller>)   // every Stop call so far, in the order of their guards

  datatype Event =
    | Exit
    | Reap(exited: bool)
    | ClearCmd
    | CloseStopped
    | Cancel
    | Decide(restart: bool)
    | Guard(i: nat, claimed: bool)
    | Term(i: nat)
    | Timeout(i: nat)
    | Kill(i: nat)
    | Wake(i: nat)
    | Return(i: nat)

  const STARTED := State(true, false, true, false, false, false, Waiting, [])

  predicate IsRunning(s: State) {
    s.cmd && (s.waiter == Waiting || !s.exited)
  }

  predicate At(s: State, i: nat, pc: Caller) {
    i < |s.callers| && s.callers[i] == pc
  }

  predicate Enabled(s: State, e: Event) {
    match e
    case Exit => s.alive
    case Reap(_) => s.waiter == Waiting && !s.alive
    case ClearCmd => s.waiter == Reaped
    case CloseStopped => s.waiter == Cleared
    case Cancel => s.waiter == Closed
    case Decide(restart) => s.waiter == Cancelled && restart == !s.stopping
    case Guard(i, claimed) => i == |s.callers| && claimed == (!s.stopping && IsRunning(s))
    case Term(i) => At(s, i, Claimed)
    case Timeout(i) => At(s, i, AwaitingExit)
    case Kill(i) => At(s, i, TimedOut)
    case Wake(i) => At(s, i, AwaitingExit) && s.stopped
    case Return(i) => At(s, i, Killed) || At(s, i, Woken)
  }

  function Apply(s: State, e: Event): State
    requires Enabled(s, e)
  {
    match e
    case Exit => s.(alive := false)
    case Reap(exited) => s.(waiter := Reaped, exited := exited)
    case ClearCmd => s.(waiter := Cleared, cmd := false)
    case CloseStopped => s.(waiter := Closed, stopped := true)
    case Cancel => s.(waiter := Cancelled, cancelCalled := true)
    case Decide(_) => s.(waiter := Decided)
    case Guard(_, claimed) =>
      s.(stopping := s.stopping || claimed, callers := s.callers + [if claimed then Claimed else Declined])
    case Term(i) => s.(callers := s.callers[i := AwaitingExit])
    case Timeout(i) => s.(callers := s.callers[i := TimedOut])
    case Kill(i) => s.(callers := s.callers[i := Killed])
    case Wake(i) => s.(callers := s.callers[i := Woken])
    case Return(i) => s.(callers := s.callers[i := Returned(s.callers[i] == Killed)], cancelCalled := true)
  }

  /** The state after a whole trace from the moment the start succeeded, if the trace can happen. */
  function Exec(es: seq<Event>): Option<State> {
    if es == [] then Some(STARTED)
    else
      var s := Exec(es[..|es| - 1]);
      var e := es[|es| - 1];
      if s.Some? && Enabled(s.value, e) then Some(Apply(s.value, e)) else None
  }

  predicate IsClaim(e: Event) { e.Guard? && e.claimed }
  predicate IsRestart(e: Event) { e.Decide? && e.restart }
  predicate IsTerm(e: Event) { e.Term? }
  predicate IsKill(e: Event) { e.Kill? }

  /** The waiter's progress and the fields it writes go together; a live process looks running. */
  predicate Inv(s: State) {
    && (s.alive ==> s.waiter == Waiting)
    && (s.cmd <==> s.waiter in {Waiting, Reaped})
    && (s.stopped <==> s.waiter in {Closed, Cancelled, Decided})
    && (s.stopping <==> exists i :: 0 <= i < |s.callers| && s.callers[i] != Declined)
    && (forall i, j | 0 <= i < |s.callers| && 0 <= j < |s.callers| ::
          s.callers[i] != Declined && s.callers[j] != Declined ==> i == j)
    && (forall i :: 0 <= i < |s.callers| && s.callers[i] in {Woken, Returned(false)} ==> s.stopped)
    && (s.cancelCalled <==> s.waiter in {Cancelled, Decided} || exists i :: 0 <= i < |s.callers| && s.callers[i].Returned?)
  }

  lemma CallersStep(s: State, e: Event, i: nat)
    requires Enabled(s, e) && i < |s.callers|
    ensures i < |Apply(s, e).callers| && (Apply(s, e).callers[i] != Declined <==> s.callers[i] != Declined)
  {
    match e
    case Guard(j, _) =>
    case Term(j) =>
    case Timeout(j) =>
    case Kill(j) =>
    case Wake(j) =>
    case Return(j) =>
    case _ =>
  }

  lemma CancelledStep(s: State, e: Event)
    requires Inv(s) && Enabled(s, e)
    ensures var t := Apply(s, e);
            t.cancelCalled <==> t.waiter in {Cancelled, Decided} || exists i :: 0 <= i < |t.callers| && t.callers[i].Returned?
  {
    var t := Apply(s, e);
    if i :| 0 <= i < |s.callers| && s.callers[i].Returned? {
      assert t.callers[i].Returned?;
    }
    if e.Return? {
      assert t.callers[e.i].Returned?;
    }
    assert forall i | 0 <= i < |t.callers| && t.callers[i].Returned? ::
      e == Return(i) || (i < |s.callers| && s.callers[i].Returned?);
  }

  lemma StepInv(s: State, e: Event)
    requires Inv(s) && Enabled(s, e)
    ensures Inv(Apply(s, e))
    ensures s.stopping ==> Apply(s, e).stopping
    ensures Apply(s, e).alive ==> s.alive
  {
    var t := Apply(s, e);
    CancelledStep(s, e);
    forall i: nat | i < |s.callers|
      ensures t.callers[i] != Declined <==> s.callers[i] != Declined
    {
      CallersStep(s, e, i);
    }
    if e.Guard? && e.claimed {
      assert t.callers[|s.callers|] == Claimed;
    } else if s.stopping {
      var i :| 0 <= i < |s.callers| && s.callers[i] != Declined;
      assert t.callers[i] != Declined;
    }
  }

  lemma {:induction false} ReachableInv(es: seq<Event>)
    requires Exec(es).Some?
    ensures Inv(Exec(es).value)
  {
    if es != [] {
      ReachableInv(es[..|es| - 1]);
      StepInv(Exec(es[..|es| - 1]).value, es[|es| - 1]);
    }
  }

  // ---------------------------------------------------------------- restart exactly when not stopped

  lemma ClaimStep(s: State, e: Event)
    requires Enabled(s, e)
    ensures Apply(s, e).stopping == (s.stopping || IsClaim(e)) && !(s.stopping && IsClaim(e))
  {
  }

  lemma {:induction false} ClaimCount(es: seq<Event>)
    requires Exec(es).Some?
    ensures Count(es, IsClaim) == if Exec(es).value.stopping then 1 else 0
  {
    if es != [] {
      ClaimCount(es[..|es| - 1]);
      ClaimStep(Exec(es[..|es| - 1]).value, es[|es| - 1]);
    }
  }

  /**
   In every interleaving the waiter schedules one restart if its decision has been made and no Stop
   ever claimed the context, and none otherwise. Since this holds of every longer trace too, no
   claim can follow a scheduled restart and no restart can follow a claim.
   */
  lemma {:induction false} RestartExactlyWhenNotStopped(es: seq<Event>)
    requires Exec(es).Some?
    ensures Count(es, IsRestart) ==
            if Exec(es).value.waiter == Decided && Count(es, IsClaim) == 0 then 1 else 0
  {
    if es != [] {
      var front := es[..|es| - 1];
      RestartExactlyWhenNotStopped(front);
      ClaimCount(front);
      ReachableInv(front);
    }
  }

  // ---------------------------------------------------------------- the Stop protocol

  predicate ByCaller(e: Event, i: nat) {
    match e
    case Guard(j, _) => i == j
    case Term(j) => i == j
    case Timeout(j) => i == j
    case Kill(j) => i == j
    case Wake(j) => i == j
    case Return(j) => i == j
    case _ => false
  }

  /** What a Stop call at a given program counter has done, from its guard on. */
  function Script(i: nat, pc: Caller): seq<Event> {
    match pc
    case Declined => [Guard(i, false)]
    case Claimed => [Guard(i, true)]
    case AwaitingExit => [Guard(i, true), Term(i)]
    case TimedOut => [Guard(i, true), Term(i), Timeout(i)]
    case Killed => [Guard(i, true), Term(i), Timeout(i), Kill(i)]
    case Woken => [Guard(i, true), Term(i), Wake(i)]
    case Returned(true) => [Guard(i, true), Term(i), Timeout(i), Kill(i), Return(i)]
    case Returned(false) => [Guard(i, true), Term(i), Wake(i), Return(i)]
  }

  /** The part of a trace that one Stop call performed. */
  function CallerEvents(es: seq<Event>, i: nat): seq<Event> {
    if es == [] then []
    else CallerEvents(es[..|es| - 1], i) + (if ByCaller(es[|es| - 1], i) then [es[|es| - 1]] else [])
  }

  function Done(s: State, i: nat): seq<Event> {
    if i < |s.callers| then Script(i, s.callers[i]) else []
  }

  lemma ScriptStep(s: State, e: Event, i: nat)
    requires Enabled(s, e)
    ensures Done(Apply(s, e), i) == Done(s, i) + (if ByCaller(e, i) then [e] else [])
  {
    match e
    case Guard(j, _) =>
    case Term(j) =>
    case Timeout(j) =>
    case Kill(j) =>
    case Wake(j) =>
    case Return(j) =>
    case _ =>
  }

  /** The events of one Stop call in any trace are exactly its script, whoever else runs in between. */
  lemma {:induction false} CallerFollowsScript(es: seq<Event>, i: nat)
    requires Exec(es).Some?
    ensures CallerEvents(es, i) == Done(Exec(es).value, i)
  {
    if es != [] {
      CallerFollowsScript(es[..|es| - 1], i);
      ScriptStep(Exec(es[..|es| - 1]).value, es[|es| - 1], i);
    }
  }

  /** How many TERM and KILL signals the calls of a state have attempted, claimer by claimer. */
  predicate SignalsMatch(s: State, terms: nat, kills: nat) {
    && (!s.stopping ==> terms == kills == 0)
    && (forall i | 0 <= i < |s.callers| && s.callers[i] != Declined ::
          && terms == (if s.callers[i] == Claimed then 0 else 1)
          && kills == (if s.callers[i] in {Killed, Returned(true)} then 1 else 0))
  }

  lemma SignalsStep(s: State, e: Event, terms: nat, kills: nat)
    requires Inv(s) && Enabled(s, e) && SignalsMatch(s, terms, kills)
    ensures SignalsMatch(Apply(s, e), terms + (if IsTerm(e) then 1 else 0), kills + (if IsKill(e) then 1 else 0))
  {
    StepInv(s, e);
    match e
    case Guard(j, _) =>
    case Term(j) =>
    case Timeout(j) =>
    case Kill(j) =>
    case Wake(j) =>
    case Return(j) =>
    case _ =>
  }

  lemma {:induction false} SignalCounts(es: seq<Event>)
    requires Exec(es).Some?
    ensures SignalsMatch(Exec(es).value, Count(es, IsTerm), Count(es, IsKill))
  {
    if es != [] {
      var front := es[..|es| - 1];
      SignalCounts(front);
      ReachableInv(front);
      SignalsStep(Exec(front).value, es[|es| - 1], Count(front, IsTerm), Count(front, IsKill));
    }
  }

  /**
   Over any number of concurrent Stop calls at most one passes the guard, TERM and KILL are each
   attempted at most once, KILL never without TERM and TERM never without a claim.
   */
  lemma SignalsAtMostOnce(es: seq<Event>)
    requires Exec(es).Some?
    ensures Count(es, IsKill) <= Count(es, IsTerm) <= Count(es, IsClaim) <= 1
  {
    ClaimCount(es);
    SignalCounts(es);
    ReachableInv(es);
    var s := Exec(es).value;
    if s.stopping {
      var i :| 0 <= i < |s.callers| && s.callers[i] != Declined;
    }
  }

  /**
   The claiming call returns only after the stopped channel is closed, or after it attempted KILL
   (which its script puts after TERM and a timeout), and with its cancel function called.
   */
  lemma ReturnMeansStoppedOrKilled(es: seq<Event>, i: nat)
    requires Exec(es).Some?
    requires i < |Exec(es).value.callers| && Exec(es).value.callers[i].Returned?
    ensures Exec(es).value.stopped || Kill(i) in CallerEvents(es, i)
    ensures Exec(es).value.cancelCalled
  {
    ReachableInv(es);
    CallerFollowsScript(es, i);
    var s := Exec(es).value;
    if s.callers[i].afterKill {
      assert Script(i, s.callers[i])[3] == Kill(i);
    }
  }

  /** A claiming call that has not returned always has a next step of its own: Stop never hangs. */
  lemma StopNeverHangs(es: seq<Event>, i: nat)
    requires Exec(es).Some? && i < |Exec(es).value.callers|
    requires !Exec(es).value.callers[i].Returned? && Exec(es).value.callers[i] != Declined
    ensures exists e :: ByCaller(e, i) && Enabled(Exec(es).value, e)
  {
    var s := Exec(es).value;
    match s.callers[i]
    case Claimed => assert Enabled(s, Term(i)) && ByCaller(Term(i), i);
    case AwaitingExit => assert Enabled(s, Timeout(i)) && ByCaller(Timeout(i), i);
    case TimedOut => assert Enabled(s, Kill(i)) && ByCaller(Kill(i), i);
    case Killed => assert Enabled(s, Return(i)) && ByCaller(Return(i), i);
    case Woken => assert Enabled(s, Return(i)) && ByCaller(Return(i), i);
    case _ =>
  }
  /**
   A Stop call claims the context exactly when no other did and the waiter has not yet seen the process
   end, or has seen it killed by a signal and not yet cleared cmd.
   */
  lemma StopClaimsExactlyWhen(es: seq<Event>, claimed: bool)
    requires Exec(es).Some?
    ensures var s := Exec(es).value;
            Enabled(s, Guard(|s.callers|, claimed)) <==>
            claimed == (Count(es, IsClaim) == 0 && (s.waiter == Waiting || (s.waiter == Reaped && !s.exited)))
  {
    ReachableInv(es);
    ClaimCount(es);
  }

  lemma Walk(es: seq<Event>, e: Event) returns (longer: seq<Event>)
    requires Exec(es).Some? && Enabled(Exec(es).value, e)
    ensures longer == es + [e] && Exec(longer) == Some(Apply(Exec(es).value, e))
  {
    longer := es + [e];
    assert longer[..|es|] == es;
  }

  function Ahead(s: State): nat {
    match s.waiter
    case Waiting => if s.alive then 6 else 5
    case Reaped => 4 case Cleared => 3 case Closed => 2 case Cancelled => 1 case Decided => 0
  }

  /** Whatever the Stop calls do, the process can end and its waiter run on to its decision. */
  lemma {:induction false} WaiterCanFinish(es: seq<Event>) returns (longer: seq<Event>)
    requires Exec(es).Some?
    ensures es <= longer && Exec(longer).Some?
    ensures var s := Exec(longer).value;
            s.waiter == Decided && s.stopped && s.cancelCalled && !s.cmd && !s.alive
            && s.callers == Exec(es).value.callers && s.stopping == Exec(es).value.stopping
    decreases Ahead(Exec(es).value)
  {
    ReachableInv(es);
    var s := Exec(es).value;
    if s.waiter == Decided {
      longer := es;
    } else {
      var e := match s.waiter
        case Waiting => if s.alive then Exit else Reap(true)
        case Reaped => ClearCmd
        case Cleared => CloseStopped
        case Closed => Cancel
        case Cancelled => Decide(!s.stopping)
        case Decided => Exit;
      longer := Walk(es, e);
      longer := WaiterCanFinish(longer);
    }
  }

  /** A claiming call can return without KILL when the process ends after TERM. */
  lemma StopCanReturnInTime(es: seq<Event>, i: nat) returns (longer: seq<Event>)
    requires Exec(es).Some? && At(Exec(es).value, i, Claimed)
    ensures es <= longer && Exec(longer).Some?
    ensures CallerEvents(longer, i) == [Guard(i, true), Term(i), Wake(i), Return(i)]
  {
    longer := Walk(es, Term(i));
    longer := WaiterCanFinish(longer);
    longer := Walk(longer, Wake(i));
    longer := Walk(longer, Return(i));
    CallerFollowsScript(longer, i);
  }

  /** And with KILL after a timeout, whatever the process does. */
  lemma StopCanKill(es: seq<Event>, i: nat) returns (longer: seq<Event>)
    requires Exec(es).Some? && At(Exec(es).value, i, Claimed)
    ensures longer == es + [Term(i)] + [Timeout(i)] + [Kill(i)] + [Return(i)] && Exec(longer).Some?
    ensures CallerEvents(longer, i) == [Guard(i, true), Term(i), Timeout(i), Kill(i), Return(i)]
  {
    longer := Walk(es, Term(i));
    longer := Walk(longer, Timeout(i));
    longer := Walk(longer, Kill(i));
    longer := Walk(longer, Return(i));
    CallerFollowsScript(longer, i);
  }
}
