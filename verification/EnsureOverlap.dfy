/**
 What AgentMachine leaves out by taking each EnsureRunningState and each Stop as one step. The call
 looks at the tracked process, starts another, and only then tracks it; a Stop claims the tracked
 process and only later forgets it (agents/telegraf.go, agents/pkgagent.go). An instruction makes its
 call under the router's mutex; the restart timer of an exited process and the stop of a detach do
 not take it (agents/command_handler.go, agents/agents_router.go). Here all of these steps
 interleave, for one agent whose files let it start. A process is alive until its waiter reaps it.
 */
module EnsureOverlap {
  import opened Prelude

  /** A process, its waiter's decision and restart timer, the call that started it, and whether running let go of it. */
  datatype Process = Process(alive: bool, claimed: bool, decided: bool, timer: bool, starter: nat, dropped: bool)

  /** Stopping the old process to apply configs, about to start, about to track what it started, or over. */
  datatype Phase = Stopping | Starting | Started(k: nat) | Over

  /** One EnsureRunningState call, and which earlier calls were unfinished when it looked. */
  datatype Call = Call(instruction: bool, phase: Phase, unfinished: set<nat>)

  datatype State = State(processes: seq<Process>, running: Option<nat>, calls: seq<Call>, stops: nat)

  datatype Event =
    | Instruct(restart: bool)     // an instruction's call; restart for packages and oracle applying configs
    | TimerFires(k: nat)          // the call of a restart timer
    | Forget(i: nat) | Start(i: nat) | Track(i: nat)
    | Exit(k: nat) | Decide(k: nat)
    | StopClaim | StopForget      // a runner's Stop, by the detach or an install

  const NONE := State([], None, [], 0)

  predicate IsRunning(s: State) {
    s.running.Some? && s.running.value < |s.processes| && s.processes[s.running.value].alive
  }

  predicate LiveAt(s: State, k: nat) {
    k < |s.processes| && s.processes[k].alive && !s.processes[k].claimed
  }

  predicate InPhase(s: State, i: nat, phase: Phase) {
    i < |s.calls| && s.calls[i].phase == phase
  }

  predicate Enabled(s: State, e: Event) {
    match e
    case Instruct(_) => forall c | 0 <= c < |s.calls| && s.calls[c].instruction :: s.calls[c].phase.Over?
    case TimerFires(k) => k < |s.processes| && s.processes[k].timer
    case Forget(i) => InPhase(s, i, Stopping)
    case Start(i) => InPhase(s, i, Starting)
    case Track(i) => i < |s.calls| && s.calls[i].phase.Started?
    case Exit(k) => k < |s.processes| && s.processes[k].alive
    case Decide(k) => k < |s.processes| && !s.processes[k].alive && !s.processes[k].decided
    case StopClaim => true
    case StopForget => s.stops > 0
  }

  /** CommandHandler.Stop on the tracked process: its guard. */
  function Claim(s: State): State {
    if IsRunning(s)
    then s.(processes := s.processes[s.running.value := s.processes[s.running.value].(claimed := true)])
    else s
  }

  function Look(s: State, instruction: bool, restart: bool): State {
    var phase := if !IsRunning(s) then Starting else if restart then Stopping else Over;
    var unfinished := set c | 0 <= c < |s.calls| && !s.calls[c].phase.Over?;
    (if phase.Stopping? then Claim(s) else s).(calls := s.calls + [Call(instruction, phase, unfinished)])
  }

  /** running is assigned: the process it named, if another, is dropped. */
  function SetRunning(s: State, running: Option<nat>): State {
    var ps := if s.running.Some? && s.running != running && s.running.value < |s.processes|
              then s.processes[s.running.value := s.processes[s.running.value].(dropped := true)] else s.processes;
    s.(processes := ps, running := running)
  }

  function Move(s: State, i: nat, phase: Phase): State
    requires i < |s.calls|
  {
    s.(calls := s.calls[i := s.calls[i].(phase := phase)])
  }

  function Apply(s: State, e: Event): State
    requires Enabled(s, e)
  {
    match e
    case Instruct(restart) => Look(s, true, restart)
    case TimerFires(k) =>
      Look(s.(processes := s.processes[k := s.processes[k].(timer := false)]), false, false)
    case Forget(i) => Move(SetRunning(s, None), i, Starting)
    case Start(i) =>
      Move(s.(processes := s.processes + [Process(true, false, false, false, i, false)]), i, Started(|s.processes|))
    case Track(i) => Move(SetRunning(s, Some(s.calls[i].phase.k)), i, Over)
    case Exit(k) => s.(processes := s.processes[k := s.processes[k].(alive := false)])
    case Decide(k) =>
      s.(processes := s.processes[k := s.processes[k].(decided := true, timer := !s.processes[k].claimed)])
    case StopClaim => Claim(s).(stops := s.stops + 1)
    case StopForget => SetRunning(s, None).(stops := s.stops - 1)
  }

  function Exec(es: seq<Event>): Option<State> {
    if es == [] then Some(NONE)
    else
      var s := Exec(es[..|es| - 1]);
      if s.Some? && Enabled(s.value, es[|es| - 1]) then Some(Apply(s.value, es[|es| - 1])) else None
  }

  predicate SingleLive(s: State) {
    forall j: nat, k: nat | j < |s.processes| && k < |s.processes| :: LiveAt(s, j) && LiveAt(s, k) ==> j == k
  }

  predicate AlwaysSingle(es: seq<Event>)
    requires Exec(es).Some?
  {
    SingleLive(Exec(es).value) && (es != [] ==> AlwaysSingle(es[..|es| - 1]))
  }

  // ---------------------------------------------------------------- the exact condition

  /** Call c was unfinished when call i looked, or looked only later. */
  predicate Overlaps(s: State, i: nat, c: nat)
    requires i < |s.calls|
  {
    c > i || c in s.calls[i].unfinished
  }

  /**
   A start next to a live process that the call's look could not tell it of: the call that started
   that process overlaps this one, or a Stop or a later call has overwritten running since.
   */
  predicate BlindStart(s: State, e: Event)
    requires Enabled(s, e)
  {
    e.Start? && exists k :: 0 <= k < |s.processes| && LiveAt(s, k)
                         && (Overlaps(s, e.i, s.processes[k].starter) || s.processes[k].dropped)
  }

  predicate NoBlindStart(es: seq<Event>)
    requires Exec(es).Some?
  {
    es != [] ==> NoBlindStart(es[..|es| - 1]) && !BlindStart(Exec(es[..|es| - 1]).value, es[|es| - 1])
  }

  predicate Pending(phase: Phase) {
    phase.Stopping? || phase.Starting?
  }

  predicate RefsInv(s: State) {
    && (s.running.Some? ==> s.running.value < |s.processes|)
    && (forall i | 0 <= i < |s.calls| && s.calls[i].phase.Started? ::
          s.calls[i].phase.k < |s.processes| && s.processes[s.calls[i].phase.k].starter == i)
    && (forall k | 0 <= k < |s.processes| :: s.processes[k].starter < |s.calls|)
  }

  /** Earlier calls that are unfinished now were unfinished when a later one looked. */
  predicate LooksInv(s: State) {
    forall i, c | 0 <= c < i < |s.calls| && !s.calls[c].phase.Over? :: c in s.calls[i].unfinished
  }

  /** A live process is tracked, or about to be, unless running has let go of it. */
  predicate TrackedInv(s: State)
    requires RefsInv(s)
  {
    forall k | 0 <= k < |s.processes| && LiveAt(s, k) ::
      s.running == Some(k) || s.processes[k].dropped || s.calls[s.processes[k].starter].phase == Started(k)
  }

  /** What a call that is about to start does not know of. */
  predicate BlindInv(s: State) {
    forall i, k | 0 <= i < |s.calls| && Pending(s.calls[i].phase) && 0 <= k < |s.processes| && LiveAt(s, k) ::
      Overlaps(s, i, s.processes[k].starter) || s.processes[k].dropped
  }

  predicate Inv(s: State) {
    RefsInv(s) && LooksInv(s) && TrackedInv(s) && BlindInv(s)
  }

  lemma LookInv(s: State, instruction: bool, restart: bool)
    requires Inv(s)
    ensures Inv(Look(s, instruction, restart))
  {
    var t := Look(s, instruction, restart);
    var n := |s.calls|;
    assert forall k | 0 <= k < |t.processes| && LiveAt(t, k) :: LiveAt(s, k) && (Pending(t.calls[n].phase) ==> s.running != Some(k));
    assert forall i | 0 <= i < n :: t.calls[i] == s.calls[i];
  }

  lemma ProcessInv(s: State, t: State, k: nat)
    requires Inv(s) && k < |s.processes| == |t.processes| && t == s.(processes := s.processes[k := t.processes[k]])
    requires t.processes[k].starter == s.processes[k].starter && (s.processes[k].dropped ==> t.processes[k].dropped)
    requires LiveAt(t, k) ==> LiveAt(s, k)
    ensures Inv(t)
  {
    assert forall j | 0 <= j < |t.processes| && LiveAt(t, j) :: LiveAt(s, j);
  }

  lemma SetRunningInv(s: State, running: Option<nat>)
    requires Inv(s) && (running.Some? ==> running.value < |s.processes|)
    ensures Inv(SetRunning(s, running))
    ensures var t := SetRunning(s, running); t == s.(processes := t.processes, running := running)
    ensures forall k | 0 <= k < |s.processes| :: LiveAt(s, k) == LiveAt(SetRunning(s, running), k)
  {
    var t := SetRunning(s, running);
    assert forall k | 0 <= k < |s.processes| :: t.processes[k] == s.processes[k].(dropped := t.processes[k].dropped);
  }

  lemma StartInv(s: State, i: nat)
    requires Inv(s) && Enabled(s, Start(i))
    ensures Inv(Apply(s, Start(i)))
  {
    var t := Apply(s, Start(i));
    assert forall k | 0 <= k < |s.processes| :: t.processes[k] == s.processes[k] && LiveAt(t, k) == LiveAt(s, k);
    assert forall c | 0 <= c < |s.calls| && c != i :: t.calls[c] == s.calls[c];
  }

  lemma MoveInv(s: State, i: nat, phase: Phase)
    requires Inv(s) && i < |s.calls|
    requires phase.Over? || (s.calls[i].phase.Stopping? && phase.Starting?)
    requires phase.Over? ==> forall k | 0 <= k < |s.processes| && s.calls[i].phase == Started(k) :: s.running == Some(k)
    ensures Inv(Move(s, i, phase))
  {
    var t := Move(s, i, phase);
    assert forall c | 0 <= c < |s.calls| && c != i :: t.calls[c] == s.calls[c];
    assert forall k | 0 <= k < |s.processes| :: LiveAt(t, k) == LiveAt(s, k);
  }

  lemma StepInv(s: State, e: Event)
    requires Inv(s) && Enabled(s, e)
    ensures Inv(Apply(s, e))
  {
    match e {
      case Instruct(restart) => LookInv(s, true, restart);
      case TimerFires(k) => {
        var t := s.(processes := s.processes[k := s.processes[k].(timer := false)]);
        ProcessInv(s, t, k);
        LookInv(t, false, false);
      }
      case Forget(i) => { SetRunningInv(s, None); MoveInv(SetRunning(s, None), i, Starting); }
      case Start(i) => StartInv(s, i);
      case Track(i) => {
        var k := s.calls[i].phase.k;
        SetRunningInv(s, Some(k));
        MoveInv(SetRunning(s, Some(k)), i, Over);
      }
      case Exit(k) => ProcessInv(s, Apply(s, e), k);
      case Decide(k) => ProcessInv(s, Apply(s, e), k);
      case StopClaim => if IsRunning(s) { ProcessInv(s, Claim(s), s.running.value); }
      case StopForget => SetRunningInv(s, None);
    }
  }

  lemma {:induction false} RunInv(es: seq<Event>)
    requires Exec(es).Some?
    ensures Inv(Exec(es).value)
  {
    if es != [] {
      RunInv(es[..|es| - 1]);
      StepInv(Exec(es[..|es| - 1]).value, es[|es| - 1]);
    }
  }

  lemma OnlyStartsAdd(s: State, e: Event)
    requires Enabled(s, e)
    ensures var t := Apply(s, e);
            && |t.processes| == |s.processes| + (if e.Start? then 1 else 0)
            && (forall k | 0 <= k < |s.processes| && LiveAt(t, k) :: LiveAt(s, k))
            && (e.Start? ==> LiveAt(t, |s.processes|) && forall k | 0 <= k < |s.processes| :: LiveAt(t, k) == LiveAt(s, k))
  {
  }

  lemma SingleStep(s: State, e: Event)
    requires Inv(s) && SingleLive(s) && Enabled(s, e)
    ensures SingleLive(Apply(s, e)) <==> !BlindStart(s, e)
  {
    OnlyStartsAdd(s, e);
    if BlindStart(s, e) {
      var k :| 0 <= k < |s.processes| && LiveAt(s, k);
      assert LiveAt(Apply(s, e), k) && LiveAt(Apply(s, e), |s.processes|);
    } else if e.Start? {
      assert forall k | 0 <= k < |s.processes| :: !LiveAt(s, k);
    }
  }

  /** At most one process is ever alive and unclaimed if and only if no call starts blindly. */
  lemma {:induction false} SingleExactlyWithoutBlindStart(es: seq<Event>)
    requires Exec(es).Some?
    ensures AlwaysSingle(es) <==> NoBlindStart(es)
  {
    if es != [] {
      var front := es[..|es| - 1];
      SingleExactlyWithoutBlindStart(front);
      RunInv(front);
      if AlwaysSingle(front) {
        SingleStep(Exec(front).value, es[|es| - 1]);
      }
    }
  }

  /** A call that finds a process running lets it be, or claims it to apply configs; otherwise it goes on to start one. */
  lemma LookOutcome(s: State, restart: bool)
    requires Enabled(s, Instruct(restart))
    ensures var t := Apply(s, Instruct(restart));
            && |t.calls| == |s.calls| + 1 && t.running == s.running
            && t.calls[|s.calls|].phase == (if !IsRunning(s) then Starting else if restart then Stopping else Over)
            && (IsRunning(s) && restart ==> !LiveAt(t, s.running.value))
            && (!(IsRunning(s) && restart) ==> t.processes == s.processes)
  {
  }

  /** Processes end, waiters decide and timers fire without asking what the runner tracks. */
  lemma WaiterOutcome(s: State, k: nat)
    requires k < |s.processes|
    ensures s.processes[k].alive ==> Enabled(s, Exit(k)) && !Apply(s, Exit(k)).processes[k].alive
    ensures !s.processes[k].alive && !s.processes[k].decided ==>
              Enabled(s, Decide(k)) && Apply(s, Decide(k)).processes[k].timer == !s.processes[k].claimed
    ensures s.processes[k].timer ==>
              Enabled(s, TimerFires(k)) && !Apply(s, TimerFires(k)).processes[k].timer
  {
  }

  predicate TimersInv(s: State) {
    && forall k | 0 <= k < |s.processes| ::
         && (s.processes[k].timer ==> s.processes[k].decided && !s.processes[k].claimed)
         && (s.processes[k].decided ==> !s.processes[k].alive)
  }

  lemma TimersStep(s: State, e: Event)
    requires TimersInv(s) && Enabled(s, e)
    ensures TimersInv(Apply(s, e))
  {
    assert IsRunning(s) ==> !s.processes[s.running.value].decided;
  }

  /** Only a process that ended without being claimed is ever restarted. */
  lemma {:induction false} TimersOnlyUnclaimed(es: seq<Event>)
    requires Exec(es).Some?
    ensures TimersInv(Exec(es).value)
  {
    if es != [] {
      TimersOnlyUnclaimed(es[..|es| - 1]);
      TimersStep(Exec(es[..|es| - 1]).value, es[|es| - 1]);
    }
  }

  // ---------------------------------------------------------------- two runs that break it

  lemma Walk(es: seq<Event>, s: State, e: Event) returns (longer: seq<Event>, t: State)
    requires Exec(es) == Some(s) && Enabled(s, e)
    ensures longer == es + [e] && t == Apply(s, e) && Exec(longer) == Some(t)
  {
    longer := es + [e];
    t := Apply(s, e);
    assert longer[..|es|] == es;
  }

  /** An instruction started a process, which exited on its own: its restart timer is running. */
  lemma ExitedOnce() returns (es: seq<Event>, s: State)
    ensures Exec(es) == Some(s) && s.calls == [Call(true, Over, {})] && s.stops == 0
    ensures s.processes == [Process(false, false, true, true, 0, false)] && s.running == Some(0)
    ensures forall e | e in es :: !e.StopClaim?
  {
    es, s := Walk([], NONE, Instruct(false));
    assert s.calls[0].unfinished == {};
    es, s := Walk(es, s, Start(0));
    es, s := Walk(es, s, Track(0));
    es, s := Walk(es, s, Exit(0));
    es, s := Walk(es, s, Decide(0));
  }

  /** The timer's call has looked but not yet started when the next instruction looks. */
  lemma TimerOverlapsInstruction() returns (es: seq<Event>)
    ensures Exec(es).Some? && !AlwaysSingle(es)
    ensures forall e | e in es :: !e.StopClaim?
    ensures forall k | 0 <= k < |Exec(es).value.processes| :: !Exec(es).value.processes[k].dropped
  {
    var s;
    es, s := ExitedOnce();
    es, s := Walk(es, s, TimerFires(0));
    es, s := Walk(es, s, Instruct(false));
    es, s := Walk(es, s, Start(1));
    es, s := Walk(es, s, Start(2));
    assert LiveAt(s, 1) && LiveAt(s, 2);
  }

  /** No two calls overlap, but a Stop that found nothing to claim forgets what the timer's call started meanwhile. */
  lemma StopForgetsStart() returns (es: seq<Event>)
    ensures Exec(es).Some? && !AlwaysSingle(es)
    ensures forall c | 0 <= c < |Exec(es).value.calls| :: Exec(es).value.calls[c].unfinished == {}
  {
    var s;
    es, s := ExitedOnce();
    es, s := Walk(es, s, StopClaim);
    es, s := Walk(es, s, TimerFires(0));
    es, s := Walk(es, s, Start(1));
    es, s := Walk(es, s, Track(1));
    es, s := Walk(es, s, StopForget);
    es, s := Walk(es, s, Instruct(false));
    es, s := Walk(es, s, Start(2));
    assert LiveAt(s, 1) && LiveAt(s, 2);
  }

  // ---------------------------------------------------------------- calls and stops one at a time

  predicate AtRest(s: State) {
    s.stops == 0 && forall i | 0 <= i < |s.calls| :: s.calls[i].phase.Over?
  }

  /** Each call and each Stop begins only once every other is over: the steps of AgentMachine. */
  predicate OneAtATime(es: seq<Event>)
    requires Exec(es).Some?
  {
    es != [] ==>
      && OneAtATime(es[..|es| - 1])
      && (es[|es| - 1].Instruct? || es[|es| - 1].TimerFires? || es[|es| - 1].StopClaim? ==>
            AtRest(Exec(es[..|es| - 1]).value))
  }

  predicate NothingLive(s: State) {
    forall k | 0 <= k < |s.processes| :: !LiveAt(s, k)
  }

  /** Only the last call may be unfinished, and nothing is live while a call or a Stop is about to change running. */
  predicate SerialInv(s: State) {
    && (forall i | 0 <= i < |s.calls| - 1 :: s.calls[i].phase.Over?)
    && (s.stops > 0 ==> NothingLive(s) && forall i | 0 <= i < |s.calls| :: s.calls[i].phase.Over?)
    && (s.calls != [] && Pending(s.calls[|s.calls| - 1].phase) ==> NothingLive(s))
    && (forall k | 0 <= k < |s.processes| && LiveAt(s, k) && s.calls != [] && s.calls[|s.calls| - 1].phase.Started? ::
          s.calls[|s.calls| - 1].phase == Started(k))
    && (forall k | 0 <= k < |s.processes| && LiveAt(s, k) :: !s.processes[k].dropped)
    && SingleLive(s)
  }

  lemma SerialLook(s: State, instruction: bool, restart: bool)
    requires Inv(s) && SerialInv(s) && AtRest(s)
    ensures SerialInv(Look(s, instruction, restart))
  {
    var t := Look(s, instruction, restart);
    assert forall k | 0 <= k < |t.processes| && LiveAt(t, k) :: LiveAt(s, k) && !t.calls[|s.calls|].phase.Stopping?;
    assert forall i | 0 <= i < |s.calls| :: t.calls[i] == s.calls[i];
  }

  lemma SerialTimer(s: State, k: nat)
    requires Inv(s) && SerialInv(s) && AtRest(s) && Enabled(s, TimerFires(k))
    ensures SerialInv(Apply(s, TimerFires(k)))
  {
    var t := s.(processes := s.processes[k := s.processes[k].(timer := false)]);
    ProcessInv(s, t, k);
    assert forall j | 0 <= j < |s.processes| :: LiveAt(t, j) == LiveAt(s, j);
    SerialLook(t, false, false);
  }

  lemma SerialTrack(s: State, i: nat)
    requires Inv(s) && SerialInv(s) && Enabled(s, Track(i))
    ensures SerialInv(Apply(s, Track(i)))
  {
    OnlyStartsAdd(s, Track(i));
    assert i == |s.calls| - 1;
  }

  lemma SerialStop(s: State, e: Event)
    requires Inv(s) && SerialInv(s) && Enabled(s, e) && (e.StopClaim? || e.StopForget? || e.Forget?)
    requires e.StopClaim? ==> AtRest(s)
    ensures SerialInv(Apply(s, e))
  {
    OnlyStartsAdd(s, e);
  }

  lemma SerialStep(s: State, e: Event)
    requires Inv(s) && SerialInv(s) && Enabled(s, e)
    requires e.Instruct? || e.TimerFires? || e.StopClaim? ==> AtRest(s)
    ensures SerialInv(Apply(s, e))
  {
    match e {
      case Instruct(restart) => SerialLook(s, true, restart);
      case TimerFires(k) => SerialTimer(s, k);
      case Track(i) => SerialTrack(s, i);
      case StopClaim => SerialStop(s, e);
      case StopForget => SerialStop(s, e);
      case Forget(_) => SerialStop(s, e);
      case _ => OnlyStartsAdd(s, e);
    }
  }

  lemma {:induction false} SerialRunInv(es: seq<Event>)
    requires Exec(es).Some? && OneAtATime(es)
    ensures SerialInv(Exec(es).value) && AlwaysSingle(es)
  {
    if es != [] {
      SerialRunInv(es[..|es| - 1]);
      RunInv(es[..|es| - 1]);
      SerialStep(Exec(es[..|es| - 1]).value, es[|es| - 1]);
    }
  }
}
