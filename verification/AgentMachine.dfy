/**
 The supervision of one agent type as a state machine: the version directories, the CURRENT link and
 the config files on disk, every process ever started, the runner's reference to the one it tracks,
 and the instruction that holds the router's mutex (agents/agents_router.go and the four runners).

 Each EnsureRunningState and each runner Stop is one step. Everything else interleaves freely: the
 fine steps of every process and its waiter, restart timers, each stage of an install, each
 operation of a configure, and the stop and purge of a detach, which do not take the mutex.
 */
module AgentMachine {
  import opened Prelude
  import RunningContext

  datatype Kind = Telegraf | Filebeat | Packages | Oracle

  /** A successfully started process, the version CURRENT named then, and its pending restart timer. */
  datatype Launched = Launched(version: string, ctx: RunningContext.State, timer: bool)

  /** The next stage of ProcessInstall. */
  datatype Stage =
    | CheckDir | MakeDir | Download | Cleanup | PostInstall
    | CheckLink | RemoveLink | StopPrevious | Relink | EnsureRunning

  /** What holds the router's mutex. */
  datatype Op =
    | Idle
    | Installing(version: string, exe: string, stage: Stage)
    | Configuring(applied: nat)

  datatype Agent = Agent(
    kind: Kind,
    dirs: map<string, set<string>>,   // version directory -> executables extracted into its bin
    current: Option<string>,          // target of the CURRENT link
    configs: Option<set<string>>,     // ids with a file in config.d, None when the directory is absent;
                                      // for telegraf the keys of its map, None once purged
    contexts: seq<Launched>,
    running: Option<nat>,
    op: Op,
    halted: bool)                     // log.Fatal ended the Envoy

  /** How far ProcessConfig gets before its first operation; only filebeat has a main config file. */
  datatype Opening = NoDirectory | NoMainConfig | Opened

  datatype WriteResult = NotOpened | Created | Written

  datatype Event =
    | Process(k: nat, e: RunningContext.Event)
    | Fire(k: nat, started: bool)
    | BeginInstall(version: string, exe: string)
    | InstallStep(ok: bool)
    | InstallStop
    | InstallEnsure(started: bool)
    | BeginConfigure(opening: Opening)
    | WriteConfig(id: string, result: WriteResult)
    | RemoveConfig(id: string, ok: bool)
    | OtherConfig                       // an operation of an unknown type
    | FinishConfigure(started: bool)
    | RouterStop
    | RouterPurge(ok: bool)

  function ExeName(kind: Kind): string {
    match kind
    case Telegraf => "telegraf"
    case Filebeat => "filebeat"
    case Packages => "salus-packages-agent"
    case Oracle => "salus-oracle-agent"
  }

  predicate Live(l: Launched) {
    l.ctx.alive && !l.ctx.stopping
  }

  predicate ExePresent(a: Agent) {
    && a.current.Some?
    && a.current.value in a.dirs
    && ExeName(a.kind) in a.dirs[a.current.value]
  }

  predicate HasConfig(a: Agent) {
    a.configs.Some? && a.configs.value != {}
  }

  /** What the runner of each kind checks before it starts anything. */
  predicate Ready(a: Agent) {
    match a.kind
    case Telegraf => ExePresent(a)
    case Filebeat => HasConfig(a) && ExePresent(a)
    case Packages => HasConfig(a) && ExePresent(a)
    case Oracle => true
  }

  predicate RestartsToApply(kind: Kind) {
    kind.Packages? || kind.Oracle?
  }

  predicate TracksRunning(a: Agent) {
    a.running.Some? && a.running.value < |a.contexts| && RunningContext.IsRunning(a.contexts[a.running.value].ctx)
  }

  /** CommandHandler.Stop on the tracked context: its locked guard. */
  function HandlerStop(a: Agent): Agent {
    if a.running.None? || a.running.value >= |a.contexts| then a
    else
      var l := a.contexts[a.running.value];
      var e := RunningContext.Guard(|l.ctx.callers|, !l.ctx.stopping && RunningContext.IsRunning(l.ctx));
      a.(contexts := a.contexts[a.running.value := l.(ctx := RunningContext.Apply(l.ctx, e))])
  }

  /** A runner's Stop: stop the tracked context and forget it. */
  function RunnerStop(a: Agent): Agent {
    HandlerStop(a).(running := None)
  }

  /** Whether EnsureRunningState gets as far as starting a command. */
  predicate Attempts(a: Agent, applyConfigs: bool) {
    Ready(a) && (TracksRunning(a) ==> applyConfigs && RestartsToApply(a.kind))
  }

  /** A start may fail; it can only succeed when the executable is there. */
  predicate StartPossible(a: Agent, applyConfigs: bool, started: bool) {
    started ==> Attempts(a, applyConfigs) && ExePresent(a)
  }

  function Ensure(a: Agent, applyConfigs: bool, started: bool): Agent
    requires StartPossible(a, applyConfigs, started)
  {
    if !Ready(a) then
      if a.kind.Packages? then RunnerStop(a) else HandlerStop(a)
    else if !Attempts(a, applyConfigs) then a
    else
      var b := if TracksRunning(a) then RunnerStop(a) else a;
      if started then
        b.(contexts := b.contexts + [Launched(a.current.value, RunningContext.STARTED, false)],
           running := Some(|b.contexts|))
      else if a.kind.Oracle? then b.(halted := true)
      else b
  }

  predicate Enabled(a: Agent, e: Event) {
    && !a.halted
    && match e
       case Process(k, pe) =>
         k < |a.contexts| && !pe.Guard? && RunningContext.Enabled(a.contexts[k].ctx, pe)
       case Fire(k, started) =>
         k < |a.contexts| && a.contexts[k].timer && StartPossible(a, false, started)
       case BeginInstall(_, _) => a.op.Idle?
       case InstallStep(_) => a.op.Installing? && a.op.stage !in {StopPrevious, EnsureRunning}
       case InstallStop => a.op.Installing? && a.op.stage == StopPrevious
       case InstallEnsure(started) =>
         a.op.Installing? && a.op.stage == EnsureRunning && StartPossible(a, false, started)
       case BeginConfigure(opening) =>
         && a.op.Idle?
         && (opening.NoDirectory? ==> !a.kind.Telegraf?) && (opening.NoMainConfig? ==> a.kind.Filebeat?)
       case WriteConfig(_, result) => a.op.Configuring? && WritePossible(a, result)
       case RemoveConfig(_, _) => a.op.Configuring?
       case OtherConfig => a.op.Configuring?
       case FinishConfigure(started) =>
         a.op.Configuring? && if a.op.applied == 0 then !started else StartPossible(a, true, started)
       case RouterStop => true
       case RouterPurge(ok) => a.kind.Telegraf? ==> ok
  }

  function ProcessStep(l: Launched, e: RunningContext.Event): Launched
    requires RunningContext.Enabled(l.ctx, e)
  {
    l.(ctx := RunningContext.Apply(l.ctx, e), timer := l.timer || RunningContext.IsRestart(e))
  }

  function To(a: Agent, stage: Stage): Agent
    requires a.op.Installing?
  {
    a.(op := a.op.(stage := stage))
  }

  function InstallStage(a: Agent, ok: bool): Agent
    requires a.op.Installing? && a.op.stage !in {StopPrevious, EnsureRunning}
  {
    var v := a.op.version;
    var quit := a.(op := Idle);
    match a.op.stage
    case CheckDir => To(a, if v in a.dirs then CheckLink else MakeDir)
    case MakeDir => if ok then To(a.(dirs := a.dirs[v := {}]), Download) else quit
    case Download => if ok then To(a.(dirs := a.dirs[v := {a.op.exe}]), PostInstall) else To(a, Cleanup)
    case Cleanup => quit.(dirs := a.dirs - {v})
    case PostInstall => if ok then To(a, CheckLink) else quit
    case CheckLink =>
      if !ok then quit
      else if a.current.None? then To(a, StopPrevious)
      else if a.current.value == v then To(a, EnsureRunning)
      else To(a, RemoveLink)
    case RemoveLink => if ok then To(a.(current := None), StopPrevious) else quit
    case Relink => if ok then To(a.(current := Some(v)), EnsureRunning) else quit
  }

  function Applied(a: Agent): Agent
    requires a.op.Configuring?
  {
    a.(op := Configuring(a.op.applied + 1))
  }

  function Ids(a: Agent): set<string> {
    if a.configs.Some? then a.configs.value else {}
  }

  /** A file can only be created in an existing directory; a map entry is stored or not. */
  predicate WritePossible(a: Agent, result: WriteResult) {
    match result
    case NotOpened => true
    case Created => a.configs.Some? && !a.kind.Telegraf?
    case Written => a.configs.Some? || a.kind.Telegraf?
  }

  function Write(a: Agent, id: string, result: WriteResult): Agent
    requires a.op.Configuring?
  {
    var b := if result.NotOpened? then a else a.(configs := Some(Ids(a) + {id}));
    if result.Written? then Applied(b)
    else if RestartsToApply(a.kind) then b.(op := Idle)   // these two abandon the instruction
    else b
  }

  function Remove(a: Agent, id: string, ok: bool): Agent
    requires a.op.Configuring?
  {
    var present := id in Ids(a);
    var b := if present && ok then a.(configs := Some(Ids(a) - {id})) else a;
    match a.kind
    case Filebeat => if ok then Applied(b) else a           // removing an absent file counts
    case Telegraf => if ok && present then Applied(b) else a
    case _ => if !ok then a.(op := Idle) else if present then Applied(b) else a
  }

  function Apply(a: Agent, e: Event): Agent
    requires Enabled(a, e)
  {
    match e
    case Process(k, pe) => a.(contexts := a.contexts[k := ProcessStep(a.contexts[k], pe)])
    case Fire(k, started) => Ensure(a, false, started).(contexts := Fired(Ensure(a, false, started).contexts, k))
    case BeginInstall(v, exe) => a.(op := Installing(v, exe, CheckDir))
    case InstallStep(ok) => InstallStage(a, ok)
    case InstallStop => To(RunnerStop(a), Relink)
    case InstallEnsure(started) => Ensure(a, false, started).(op := Idle)
    case BeginConfigure(NoDirectory) => a
    case BeginConfigure(NoMainConfig) => a.(configs := Some(Ids(a)))
    case BeginConfigure(Opened) => a.(op := Configuring(0), configs := Some(Ids(a)))
    case WriteConfig(id, result) => Write(a, id, result)
    case RemoveConfig(id, ok) => Remove(a, id, ok)
    case OtherConfig => a
    case FinishConfigure(started) =>
      (if a.op.applied == 0 then a else Ensure(a, true, started)).(op := Idle)
    case RouterStop => RunnerStop(a)
    case RouterPurge(ok) => if ok then a.(configs := None) else a
  }

  function Fired(ls: seq<Launched>, k: nat): seq<Launched> {
    if k < |ls| then ls[k := ls[k].(timer := false)] else ls
  }

  /** The state after a trace from a, if the trace can happen. */
  function Exec(a: Agent, es: seq<Event>): Option<Agent> {
    if es == [] then Some(a)
    else
      var s := Exec(a, es[..|es| - 1]);
      var e := es[|es| - 1];
      if s.Some? && Enabled(s.value, e) then Some(Apply(s.value, e)) else None
  }

  /** The Envoy has just started: earlier installs may be on disk, configs are purged, nothing runs. */
  predicate Initial(a: Agent) {
    && a.configs.None? && a.contexts == [] && a.running.None? && a.op.Idle? && !a.halted
    && (forall v | v in a.dirs :: a.dirs[v] != {})
    && (a.current.Some? ==> a.current.value in a.dirs)
  }

  // ---------------------------------------------------------------- the invariant of every run

  predicate ProcessesInv(a: Agent) {
    forall k | 0 <= k < |a.contexts| :: RunningContext.Inv(a.contexts[k].ctx)
  }

  /** Every live process that no Stop has claimed is the one the runner tracks. */
  predicate SingleLive(a: Agent) {
    && (a.running.Some? ==> a.running.value < |a.contexts|)
    && (forall k | 0 <= k < |a.contexts| :: Live(a.contexts[k]) ==> a.running == Some(k))
  }

  /** While CURRENT names a version, every live unclaimed process was launched from it. */
  predicate VersionsAgree(a: Agent) {
    a.current.Some? ==>
      forall k | 0 <= k < |a.contexts| :: Live(a.contexts[k]) ==> a.contexts[k].version == a.current.value
  }

  predicate NothingLive(a: Agent) {
    forall k | 0 <= k < |a.contexts| :: !Live(a.contexts[k])
  }

  predicate Extracted(a: Agent, v: string) {
    v in a.dirs && a.dirs[v] != {}
  }

  /** Which stage of an install still lacks the executable, and where the link may stand. */
  predicate InstallInv(a: Agent) {
    && (forall v | v in a.dirs ::
          a.dirs[v] != {} || (a.op.Installing? && a.op.version == v && a.op.stage in {Download, Cleanup}))
    && (a.current.Some? ==> Extracted(a, a.current.value))
    && (a.op.Installing? ==>
          var v := a.op.version;
          match a.op.stage
          case CheckDir => true
          case MakeDir => v !in a.dirs
          case Download => v in a.dirs && a.dirs[v] == {}
          case Cleanup => v in a.dirs && a.dirs[v] == {}
          case PostInstall => Extracted(a, v)
          case CheckLink => Extracted(a, v)
          case RemoveLink => Extracted(a, v) && a.current.Some? && a.current.value != v
          case StopPrevious => Extracted(a, v) && a.current.None?
          case Relink => Extracted(a, v) && a.current.None? && NothingLive(a)
          case EnsureRunning => Extracted(a, v) && a.current == Some(v))
  }

  predicate Inv(a: Agent) {
    ProcessesInv(a) && SingleLive(a) && VersionsAgree(a) && InstallInv(a)
  }

  lemma HandlerStopClaims(a: Agent)
    requires ProcessesInv(a) && SingleLive(a)
    ensures var b := HandlerStop(a);
            && b == a.(contexts := b.contexts) && |b.contexts| == |a.contexts|
            && ProcessesInv(b) && NothingLive(b)
            && (forall k | 0 <= k < |a.contexts| ::
                  && b.contexts[k] == a.contexts[k].(ctx := b.contexts[k].ctx)
                  && b.contexts[k].ctx.waiter == a.contexts[k].ctx.waiter)
  {
    if a.running.Some? {
      var l := a.contexts[a.running.value];
      var e := RunningContext.Guard(|l.ctx.callers|, !l.ctx.stopping && RunningContext.IsRunning(l.ctx));
      RunningContext.StepInv(l.ctx, e);
    }
  }

  lemma EnsureKeeps(a: Agent, applyConfigs: bool, started: bool)
    requires ProcessesInv(a) && SingleLive(a) && VersionsAgree(a) && StartPossible(a, applyConfigs, started)
    ensures var b := Ensure(a, applyConfigs, started);
            && b == a.(contexts := b.contexts, running := b.running, halted := b.halted)
            && |b.contexts| == |a.contexts| + (if started then 1 else 0)
            && ProcessesInv(b) && SingleLive(b) && VersionsAgree(b)
            && (!Ready(a) ==> NothingLive(b))
            && (NothingLive(a) && !started ==> NothingLive(b))
            && (Ready(a) && (started || !Attempts(a, applyConfigs)) ==> TracksRunning(b))
  {
    HandlerStopClaims(a);
  }

  lemma ProcessStepKeeps(a: Agent, k: nat, e: RunningContext.Event)
    requires Inv(a) && Enabled(a, Process(k, e))
    ensures Inv(Apply(a, Process(k, e)))
  {
    RunningContext.StepInv(a.contexts[k].ctx, e);
    var b := Apply(a, Process(k, e));
    assert forall j | 0 <= j < |b.contexts| :: Live(b.contexts[j]) ==> Live(a.contexts[j]);
    assert forall j | 0 <= j < |b.contexts| :: b.contexts[j].version == a.contexts[j].version;
  }

  lemma FireKeeps(a: Agent, k: nat, started: bool)
    requires Inv(a) && Enabled(a, Fire(k, started))
    ensures Inv(Apply(a, Fire(k, started)))
  {
    EnsureKeeps(a, false, started);
    var m := Ensure(a, false, started);
    var b := Apply(a, Fire(k, started));
    assert forall j | 0 <= j < |b.contexts| ::
      b.contexts[j] == m.contexts[j].(timer := b.contexts[j].timer);
  }

  lemma InstallStageAgrees(a: Agent, ok: bool)
    requires ProcessesInv(a) && SingleLive(a) && VersionsAgree(a) && Enabled(a, InstallStep(ok))
    requires a.op.stage == Relink ==> NothingLive(a)
    ensures var b := InstallStage(a, ok);
            ProcessesInv(b) && SingleLive(b) && VersionsAgree(b)
  {
    var b := InstallStage(a, ok);
    assert b == a.(dirs := b.dirs, current := b.current, op := b.op);
    if a.op.stage == Relink {
      assert NothingLive(b);
    } else {
      assert b.current.Some? ==> b.current == a.current;
    }
  }

  lemma InstallStageLinks(a: Agent, ok: bool)
    requires InstallInv(a) && Enabled(a, InstallStep(ok))
    ensures InstallInv(InstallStage(a, ok))
  {
    var b := InstallStage(a, ok);
    match a.op.stage {
      case CheckDir =>
      case MakeDir =>
      case Download =>
      case Cleanup => assert a.current.Some? ==> a.current.value != a.op.version;
      case PostInstall =>
      case CheckLink =>
      case RemoveLink =>
      case Relink =>
    }
  }

  /** A step that leaves processes, directories and the link alone and opens no install. */
  lemma ConfigKeeps(a: Agent, b: Agent)
    requires Inv(a) && b == a.(configs := b.configs, op := b.op)
    requires b.op == a.op || (!a.op.Installing? && (b.op.Installing? ==> b.op.stage == CheckDir))
    ensures Inv(b)
  {
  }

  lemma StepInv(a: Agent, e: Event)
    requires Inv(a) && Enabled(a, e)
    ensures Inv(Apply(a, e))
  {
    var b := Apply(a, e);
    match e {
      case Process(k, pe) => ProcessStepKeeps(a, k, pe);
      case Fire(k, started) => FireKeeps(a, k, started);
      case InstallStep(ok) => { InstallStageAgrees(a, ok); InstallStageLinks(a, ok); }
      case InstallStop => HandlerStopClaims(a);
      case InstallEnsure(started) => EnsureKeeps(a, false, started);
      case FinishConfigure(started) => if a.op.applied != 0 { EnsureKeeps(a, true, started); }
      case RouterStop => HandlerStopClaims(a);
      case BeginInstall(_, _) => ConfigKeeps(a, b);
      case BeginConfigure(_) => ConfigKeeps(a, b);
      case WriteConfig(_, _) => ConfigKeeps(a, b);
      case RemoveConfig(_, _) => ConfigKeeps(a, b);
      case OtherConfig =>
      case RouterPurge(_) => ConfigKeeps(a, b);
    }
  }

  lemma {:induction false} ReachableInv(a: Agent, es: seq<Event>)
    requires Inv(a) && Exec(a, es).Some?
    ensures Inv(Exec(a, es).value)
  {
    if es != [] {
      ReachableInv(a, es[..|es| - 1]);
      StepInv(Exec(a, es[..|es| - 1]).value, es[|es| - 1]);
    }
  }
}
