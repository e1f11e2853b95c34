/**
 What one step of the supervision machine comes to, kind by kind: when an agent is started, replaced,
 left alone or stopped, what a configuration operation leaves behind, and how an exited process comes
 back (the four runners in agents/).
 */
module AgentOutcomes {
  import opened Prelude
  import opened AgentMachine
  import Properties = AgentProperties
  import RunningContext

  /** CURRENT leads to an executable of that name. */
  predicate Links(a: Agent, exe: string) {
    a.current.Some? && a.current.value in a.dirs && exe in a.dirs[a.current.value]
  }

  ghost predicate Configured(a: Agent) {
    a.configs.Some? && exists id :: id in a.configs.value
  }

  /** The files a runner asks for, by kind: telegraf is configured over HTTP, oracle asks for nothing but to be startable. */
  ghost predicate FilesThere(a: Agent) {
    match a.kind
    case Telegraf => Links(a, "telegraf")
    case Filebeat => Links(a, "filebeat") && Configured(a)
    case Packages => Links(a, "salus-packages-agent") && Configured(a)
    case Oracle => Links(a, "salus-oracle-agent")
  }

  /** A running agent is only started again where that is how it takes up its configs. */
  predicate MayStart(kind: Kind, running: bool, applyConfigs: bool) {
    match kind
    case Telegraf => !running
    case Filebeat => !running
    case Packages => !running || applyConfigs
    case Oracle => !running || applyConfigs
  }

  lemma ConfiguredExactlyWhen(a: Agent)
    ensures Configured(a) <==> HasConfig(a)
  {
    if HasConfig(a) {
      var id :| id in a.configs.value;
    }
  }

  /** A runner takes its agent for running until the waiter has seen the process end, even while a Stop waits for it. */
  lemma RunningExactlyWhen(a: Agent)
    requires ProcessesInv(a)
    ensures TracksRunning(a) <==>
            && a.running.Some? && a.running.value < |a.contexts|
            && var c := a.contexts[a.running.value].ctx;
               c.waiter == RunningContext.Waiting || (c.waiter == RunningContext.Reaped && !c.exited)
  {
  }

  /** EnsureRunningState can start a process exactly when the files are there and a running one need not stay. */
  lemma StartsExactlyWhen(a: Agent, applyConfigs: bool)
    ensures StartPossible(a, applyConfigs, true) <==> FilesThere(a) && MayStart(a.kind, TracksRunning(a), applyConfigs)
  {
    ConfiguredExactlyWhen(a);
  }

  /** A start appends one process of CURRENT's version, tracks it, and leaves no other one live. */
  lemma StartedOutcome(a: Agent, applyConfigs: bool)
    requires ProcessesInv(a) && SingleLive(a) && StartPossible(a, applyConfigs, true)
    ensures var b := Ensure(a, applyConfigs, true);
            && |b.contexts| == |a.contexts| + 1 && b.running == Some(|a.contexts|)
            && b.contexts[|a.contexts|] == Launched(a.current.value, RunningContext.STARTED, false)
            && (forall k | 0 <= k < |a.contexts| :: !Live(b.contexts[k]))
            && (TracksRunning(a) ==> b.contexts[a.running.value].ctx.stopping)
  {
    HandlerStopClaims(a);
    if TracksRunning(a) {
      TrackedStops(a);
    } else {
      NotRunningNotLive(a);
    }
  }

  /** Stopping marks a tracked running context as stopping, claimed by this call or an earlier one. */
  lemma TrackedStops(a: Agent)
    requires TracksRunning(a)
    ensures var b := HandlerStop(a); |b.contexts| == |a.contexts| && b.contexts[a.running.value].ctx.stopping
  {
  }

  /** Telegraf takes up new configs by a signal, filebeat by itself: while they run nothing is replaced. */
  lemma RunningIsLeft(a: Agent, applyConfigs: bool)
    requires (a.kind.Telegraf? || a.kind.Filebeat? || !applyConfigs) && FilesThere(a) && TracksRunning(a)
    ensures !StartPossible(a, applyConfigs, true) && Ensure(a, applyConfigs, false) == a
  {
    ConfiguredExactlyWhen(a);
  }

  /** Packages and oracle take up new configs by a new process: the running one is claimed and not live any more. */
  lemma RunningIsReplaced(a: Agent, started: bool)
    requires ProcessesInv(a) && SingleLive(a) && StartPossible(a, true, started)
    requires (a.kind.Packages? || a.kind.Oracle?) && FilesThere(a) && TracksRunning(a)
    ensures StartPossible(a, true, true)
    ensures var b := Ensure(a, true, started);
            && a.running.value < |a.contexts| <= |b.contexts| && b.contexts[a.running.value].ctx.stopping
            && (forall k | 0 <= k < |a.contexts| :: !Live(b.contexts[k]))
            && b.running == (if started then Some(|a.contexts|) else None)
            && (!started ==> b.halted == (a.halted || a.kind.Oracle?))
  {
    ConfiguredExactlyWhen(a);
    HandlerStopClaims(a);
    TrackedStops(a);
  }

  /** A start that fails changes nothing, but ends the Envoy for oracle, which tries without its files too. */
  lemma FailedStartOutcome(a: Agent, applyConfigs: bool)
    requires !TracksRunning(a) && (FilesThere(a) || a.kind.Oracle?)
    ensures Ensure(a, applyConfigs, false) == if a.kind.Oracle? then a.(halted := true) else a
  {
    ConfiguredExactlyWhen(a);
  }

  /** Without the files telegraf, filebeat and packages are stopped. */
  lemma UnreadyIsStopped(a: Agent, applyConfigs: bool)
    requires ProcessesInv(a) && SingleLive(a) && !a.kind.Oracle? && !FilesThere(a)
    ensures var b := Ensure(a, applyConfigs, false);
            && NothingLive(b) && |b.contexts| == |a.contexts| && b.halted == a.halted
            && (TracksRunning(a) ==> b.contexts[a.running.value].ctx.stopping)
            && b.running == (if a.kind.Packages? then None else a.running)
  {
    ConfiguredExactlyWhen(a);
    HandlerStopClaims(a);
    if TracksRunning(a) {
      TrackedStops(a);
    }
  }

  /** After an applied configure nothing started before it is live, for the kinds that restart to apply configs. */
  lemma AppliedReplaces(a: Agent, started: bool)
    requires Inv(a) && (a.kind.Packages? || a.kind.Oracle?)
    requires Enabled(a, FinishConfigure(started)) && a.op.applied > 0
    ensures var b := Apply(a, FinishConfigure(started));
            |a.contexts| <= |b.contexts| && forall k | 0 <= k < |a.contexts| :: !Live(b.contexts[k])
  {
    ConfiguredExactlyWhen(a);
    HandlerStopClaims(a);
    if !TracksRunning(a) {
      NotRunningNotLive(a);
    }
  }

  lemma NotRunningNotLive(a: Agent)
    requires ProcessesInv(a) && SingleLive(a) && !TracksRunning(a)
    ensures NothingLive(a)
  {
  }

  /** Whatever else goes on, processes, waiters and Stop calls already begun run freely, each on its own context. */
  lemma ContextsRunFreely(a: Agent, k: nat, e: RunningContext.Event)
    requires !a.halted && k < |a.contexts| && RunningContext.Enabled(a.contexts[k].ctx, e) && !e.Guard?
    ensures Enabled(a, Process(k, e))
    ensures var b := Apply(a, Process(k, e));
            && b == a.(contexts := a.contexts[k := b.contexts[k]]) && b.contexts[k].ctx == RunningContext.Apply(a.contexts[k].ctx, e)
            && b.contexts[k].timer == (a.contexts[k].timer || e == RunningContext.Decide(true))
  {
  }

  /** A detach's stop forgets the tracked context, having claimed it if it runs. */
  lemma RouterStopOutcome(a: Agent)
    requires Inv(a) && Enabled(a, RouterStop)
    ensures var b := Apply(a, RouterStop);
            && b == a.(contexts := b.contexts, running := None) && NothingLive(b)
            && |b.contexts| == |a.contexts| && (TracksRunning(a) ==> b.contexts[a.running.value].ctx.stopping)
  {
    HandlerStopClaims(a);
    if TracksRunning(a) {
      TrackedStops(a);
    }
  }

  // ---------------------------------------------------------------- one configuration operation

  predicate HasFile(a: Agent, id: string) {
    a.configs.Some? && id in a.configs.value
  }

  /** Other files stay as they are, and so does everything else but the instruction's progress. */
  ghost predicate OnlyFile(a: Agent, b: Agent, id: string) {
    b == a.(configs := b.configs, op := b.op) && forall other | other != id :: HasFile(b, other) == HasFile(a, other)
  }

  /** A file that was opened is there; an operation is counted if written; packages and oracle give up if not. */
  lemma WriteOutcome(a: Agent, id: string, result: WriteResult)
    requires Enabled(a, WriteConfig(id, result))
    ensures var b := Apply(a, WriteConfig(id, result));
            && OnlyFile(a, b, id)
            && HasFile(b, id) == (result == Written || result == Created || HasFile(a, id))
            && b.op == match result
                       case Written => Configuring(a.op.applied + 1)
                       case _ => if a.kind.Packages? || a.kind.Oracle? then Idle else a.op
  {
  }

  /** A file that could be removed is gone. Filebeat counts a needless removal, the others do not. */
  lemma RemoveOutcome(a: Agent, id: string, ok: bool)
    requires Enabled(a, RemoveConfig(id, ok))
    ensures var b := Apply(a, RemoveConfig(id, ok));
            && OnlyFile(a, b, id)
            && HasFile(b, id) == (HasFile(a, id) && !ok)
            && b.op == if ok then (if a.kind.Filebeat? || HasFile(a, id) then Configuring(a.op.applied + 1) else a.op)
                       else if a.kind.Packages? || a.kind.Oracle? then Idle else a.op
  {
  }

  /** Opening an instruction keeps the files there are; a purge leaves none. */
  lemma OpenAndPurgeOutcome(a: Agent, e: Event)
    requires Enabled(a, e) && (e.BeginConfigure? || e.RouterPurge?)
    ensures var b := Apply(a, e);
            && b == a.(configs := b.configs, op := b.op)
            && (e.BeginConfigure? ==> b.op == (if e.opening == Opened then Configuring(0) else a.op))
            && (e.RouterPurge? ==> b.op == a.op)
            && (forall id :: HasFile(b, id) == (HasFile(a, id) && e != RouterPurge(true)))
  {
  }

  // ---------------------------------------------------------------- an exited process comes back

  /**
   The tracked process has exited without a Stop: its waiter and its timer, by themselves, can bring a
   live process of CURRENT's version back, as long as the files are there.
   */
  lemma ExitedComesBack(a: Agent, k: nat) returns (es: seq<Event>)
    requires Inv(a) && !a.halted && a.running == Some(k) && k < |a.contexts| && FilesThere(a)
    requires !a.contexts[k].ctx.alive && !a.contexts[k].ctx.stopping
    requires a.contexts[k].ctx.waiter != RunningContext.Decided && !a.contexts[k].timer
    ensures forall e | e in es :: e.Process? || e.Fire?
    ensures Exec(a, es).Some?
    ensures var b := Exec(a, es).value;
            && b.running == Some(|a.contexts|) && |b.contexts| == |a.contexts| + 1
            && Live(b.contexts[|a.contexts|]) && b.contexts[|a.contexts|].version == a.current.value
  {
    var wait := Properties.WaiterSchedules(a, k);
    ReachableInv(a, wait);
    var s := Exec(a, wait).value;
    assert !TracksRunning(s);
    assert Configured(s) == Configured(a);
    StartsExactlyWhen(s, false);
    StartedOutcome(s, false);
    es := wait + [Fire(k, true)];
    Properties.ExecSnoc(a, wait, Fire(k, true));
  }
}
