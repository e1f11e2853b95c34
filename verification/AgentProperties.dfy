/** What every run of the supervision machine keeps, and what its instructions and detaches achieve. */
module AgentProperties {
  import opened Prelude
  import opened AgentMachine
  import RunningContext

  // ---------------------------------------------------------------- safety over whole runs

  /** While CURRENT points to v, the live process a runner tracks, if no Stop claimed it, was launched from v. */
  lemma VersionConsistency(a: Agent, es: seq<Event>, k: nat)
    requires Initial(a) && Exec(a, es).Some?
    requires var s := Exec(a, es).value; s.running == Some(k) && k < |s.contexts| && Live(s.contexts[k])
    ensures var s := Exec(a, es).value; s.current.Some? ==> s.contexts[k].version == s.current.value
  {
    ReachableInv(a, es);
  }

  /** At most one successfully started process is alive and unclaimed, and it is the tracked one. */
  lemma SingleLiveProcess(a: Agent, es: seq<Event>, j: nat, k: nat)
    requires Initial(a) && Exec(a, es).Some?
    requires j < |Exec(a, es).value.contexts| && k < |Exec(a, es).value.contexts|
    requires Live(Exec(a, es).value.contexts[j]) && Live(Exec(a, es).value.contexts[k])
    ensures j == k && Exec(a, es).value.running == Some(k)
  {
    ReachableInv(a, es);
  }

  /** CURRENT is absent or names a version directory with an extracted executable. */
  lemma CurrentIsInstalled(a: Agent, es: seq<Event>)
    requires Initial(a) && Exec(a, es).Some?
    ensures var s := Exec(a, es).value; s.current.Some? ==> Extracted(s, s.current.value)
  {
    ReachableInv(a, es);
  }

  lemma {:induction false} ExecConcat(a: Agent, es: seq<Event>, fs: seq<Event>)
    ensures Exec(a, es + fs) == if Exec(a, es).Some? then Exec(Exec(a, es).value, fs) else None
  {
    if fs == [] {
      assert es + fs == es;
    } else {
      assert (es + fs)[..|es + fs| - 1] == es + fs[..|fs| - 1];
      ExecConcat(a, es, fs[..|fs| - 1]);
    }
  }

  lemma ExecSnoc(a: Agent, es: seq<Event>, e: Event)
    requires Exec(a, es).Some? && Enabled(Exec(a, es).value, e)
    ensures Exec(a, es + [e]) == Some(Apply(Exec(a, es).value, e))
  {
    assert (es + [e])[..|es|] == es;
  }

  ghost predicate IsPath(a: Agent, es: seq<Event>, b: Agent) {
    Exec(a, es) == Some(b)
  }

  /** One more step along a path. */
  lemma Walk(a: Agent, es: seq<Event>, s: Agent, e: Event, t: Agent) returns (longer: seq<Event>)
    requires IsPath(a, es, s) && Enabled(s, e) && t == Apply(s, e)
    ensures longer == es + [e] && IsPath(a, longer, t)
  {
    longer := es + [e];
    ExecSnoc(a, es, e);
  }

  lemma JoinPaths(a: Agent, es: seq<Event>, b: Agent, fs: seq<Event>, c: Agent)
    requires IsPath(a, es, b) && IsPath(b, fs, c)
    ensures IsPath(a, es + fs, c)
  {
    ExecConcat(a, es, fs);
  }

  // ---------------------------------------------------------------- one restart per exit

  function FiresOf(es: seq<Event>, k: nat): nat {
    Count(es, (e: Event) => e.Fire? && e.k == k)
  }

  /** The waiter of context k has decided to restart it: no Stop had claimed it. */
  predicate RestartDecided(a: Agent, k: nat) {
    k < |a.contexts| && a.contexts[k].ctx.waiter == RunningContext.Decided && !a.contexts[k].ctx.stopping
  }

  predicate TimerSet(a: Agent, k: nat) {
    k < |a.contexts| && a.contexts[k].timer
  }

  /** Stopping and starting leave what context k has decided, and its timer, as they are. */
  ghost predicate SameTimers(a: Agent, b: Agent) {
    |a.contexts| <= |b.contexts| && forall k | 0 <= k < |a.contexts| ::
      RestartDecided(b, k) == RestartDecided(a, k) && b.contexts[k].timer == a.contexts[k].timer
  }

  lemma StopTimers(a: Agent)
    requires Inv(a)
    ensures SameTimers(a, HandlerStop(a))
  {
  }

  lemma EnsureTimers(a: Agent, applyConfigs: bool, started: bool)
    requires Inv(a) && StartPossible(a, applyConfigs, started)
    ensures SameTimers(a, Ensure(a, applyConfigs, started))
  {
    StopTimers(a);
  }

  lemma FireTimers(a: Agent, k: nat, started: bool, j: nat)
    requires Inv(a) && Enabled(a, Fire(k, started)) && j < |a.contexts|
    ensures var b := Apply(a, Fire(k, started));
            && j < |b.contexts| && RestartDecided(b, j) == RestartDecided(a, j)
            && b.contexts[j].timer == (a.contexts[j].timer && j != k)
  {
    EnsureTimers(a, false, started);
  }

  lemma ContextStep(a: Agent, e: Event, k: nat)
    requires Inv(a) && Enabled(a, e) && k < |a.contexts| && !(e.Process? && e.k == k)
    ensures var b := Apply(a, e);
            && k < |b.contexts| && RestartDecided(b, k) == RestartDecided(a, k)
            && b.contexts[k].timer == (a.contexts[k].timer && !(e.Fire? && e.k == k))
  {
    match e
    case Fire(j, started) => FireTimers(a, j, started, k);
    case InstallEnsure(started) => EnsureTimers(a, false, started);
    case FinishConfigure(started) => if a.op.applied > 0 { EnsureTimers(a, true, started); }
    case InstallStop => StopTimers(a);
    case RouterStop => StopTimers(a);
    case _ =>
  }

  lemma ProcessTimers(a: Agent, k: nat, e: RunningContext.Event)
    requires Inv(a) && Enabled(a, Process(k, e))
    requires TimerSet(a, k) ==> RestartDecided(a, k)
    ensures var b := Apply(a, Process(k, e));
            && |b.contexts| == |a.contexts| && (RestartDecided(a, k) ==> RestartDecided(b, k))
            && TimerSet(b, k) == (TimerSet(a, k) || (RestartDecided(b, k) && !RestartDecided(a, k)))
  {
    RunningContext.StepInv(a.contexts[k].ctx, e);
  }

  lemma FiresStep(a: Agent, e: Event, k: nat, fires: nat)
    requires Inv(a) && Enabled(a, e)
    requires fires + (if TimerSet(a, k) then 1 else 0) == (if RestartDecided(a, k) then 1 else 0)
    ensures var b := Apply(a, e);
            fires + (if e.Fire? && e.k == k then 1 else 0) + (if TimerSet(b, k) then 1 else 0)
            == (if RestartDecided(b, k) then 1 else 0)
  {
    if k >= |a.contexts| {
      NewContexts(a, e, k);
    } else if e.Process? && e.k == k {
      ProcessTimers(a, k, e.e);
    } else {
      ContextStep(a, e, k);
    }
  }

  lemma NewContexts(a: Agent, e: Event, k: nat)
    requires Inv(a) && Enabled(a, e) && k >= |a.contexts|
    ensures var b := Apply(a, e); !TimerSet(b, k) && !RestartDecided(b, k)
  {
    HandlerStopClaims(a);
  }

  /**
   A context's restart timer fires at most once in any run, and only if its waiter decided to restart it:
   every decision is pending until it has fired.
   */
  lemma {:induction false} FiresOncePerExit(a: Agent, es: seq<Event>, k: nat)
    requires Initial(a) && Exec(a, es).Some?
    ensures var s := Exec(a, es).value;
            FiresOf(es, k) + (if TimerSet(s, k) then 1 else 0) == (if RestartDecided(s, k) then 1 else 0)
  {
    if es != [] {
      var front := es[..|es| - 1];
      FiresOncePerExit(a, front, k);
      ReachableInv(a, front);
      FiresStep(Exec(a, front).value, es[|es| - 1], k, FiresOf(front, k));
    }
  }

  // ---------------------------------------------------------------- one install, whatever interleaves

  /** Where CURRENT stands and how often Stop was called, stage by stage, given where the link stood first. */
  predicate InstallProgress(v: string, before: Option<string>, now: Agent, stops: nat) {
    now.op.Installing? ==>
      && now.op.version == v
      && match now.op.stage
         case RemoveLink => now.current == before && before.Some? && before.value != v && stops == 0
         case StopPrevious => now.current.None? && before != Some(v) && stops == 0
         case Relink => now.current.None? && before != Some(v) && stops == 1
         case EnsureRunning => now.current == Some(v) && stops == (if before == Some(v) then 0 else 1)
         case _ => now.current == before && stops == 0
  }

  predicate IsInstallStop(e: Event) { e.InstallStop? }

  lemma EnsureFrame(a: Agent, applyConfigs: bool, started: bool)
    requires StartPossible(a, applyConfigs, started)
    ensures var b := Ensure(a, applyConfigs, started);
            b == a.(contexts := b.contexts, running := b.running, halted := b.halted)
  {
  }

  lemma InstallProgressStep(v: string, before: Option<string>, s: Agent, e: Event, stops: nat)
    requires Enabled(s, e) && !e.BeginInstall? && InstallProgress(v, before, s, stops)
    ensures InstallProgress(v, before, Apply(s, e), stops + (if IsInstallStop(e) then 1 else 0))
  {
    match e
    case Fire(_, started) => EnsureFrame(s, false, started);
    case InstallEnsure(started) => EnsureFrame(s, false, started);
    case FinishConfigure(started) => if s.op.applied != 0 { EnsureFrame(s, true, started); }
    case _ =>
  }

  lemma {:induction false} InstallProgresses(a: Agent, v: string, exe: string, es: seq<Event>)
    requires a.op.Idle? && !a.halted
    requires Exec(Apply(a, BeginInstall(v, exe)), es).Some?
    requires forall e | e in es :: !e.BeginInstall?
    ensures InstallProgress(v, a.current, Exec(Apply(a, BeginInstall(v, exe)), es).value, Count(es, IsInstallStop))
  {
    if es != [] {
      var front := es[..|es| - 1];
      InstallProgresses(a, v, exe, front);
      InstallProgressStep(v, a.current, Exec(Apply(a, BeginInstall(v, exe)), front).value, es[|es| - 1],
                          Count(front, IsInstallStop));
    }
  }

  /**
   Whatever timers, exits, detaches and failures come in between: an install that reaches its
   EnsureRunningState leaves CURRENT at the requested version, and has called the runner's Stop
   exactly when the link was missing or pointed elsewhere when it began.
   */
  lemma InstallReachesItsVersion(a: Agent, v: string, exe: string, es: seq<Event>, started: bool)
    requires a.op.Idle? && !a.halted
    requires forall e | e in es :: !e.BeginInstall?
    requires Exec(Apply(a, BeginInstall(v, exe)), es + [InstallEnsure(started)]).Some?
    ensures var s := Exec(Apply(a, BeginInstall(v, exe)), es + [InstallEnsure(started)]).value;
            s.current == Some(v)
    ensures Count(es, IsInstallStop) == if a.current == Some(v) then 0 else 1
  {
    var b := Apply(a, BeginInstall(v, exe));
    assert (es + [InstallEnsure(started)])[..|es|] == es;
    InstallProgresses(a, v, exe, es);
    EnsureFrame(Exec(b, es).value, false, started);
  }

  // ---------------------------------------------------------------- the configuration contract

  /** The kinds whose runner looks for a config file before it starts anything. */
  predicate WaitsForConfigs(kind: Kind) {
    kind.Filebeat? || kind.Packages?
  }

  predicate CreatesConfig(e: Event) {
    e.WriteConfig? && !e.result.NotOpened?
  }

  lemma LaunchNeedsConfig(s: Agent, e: Event)
    requires WaitsForConfigs(s.kind) && Enabled(s, e) && !HasConfig(s) && !CreatesConfig(e)
    ensures var t := Apply(s, e); !HasConfig(t) && |t.contexts| == |s.contexts| && t.kind == s.kind
  {
  }

  lemma {:induction false} NoConfigNoLaunch(s: Agent, es: seq<Event>)
    requires WaitsForConfigs(s.kind) && !HasConfig(s) && Exec(s, es).Some?
    requires forall e | e in es :: !CreatesConfig(e)
    ensures var t := Exec(s, es).value; !HasConfig(t) && |t.contexts| == |s.contexts| && t.kind == s.kind
  {
    if es != [] {
      NoConfigNoLaunch(s, es[..|es| - 1]);
      LaunchNeedsConfig(Exec(s, es[..|es| - 1]).value, es[|es| - 1]);
    }
  }

  /** No process starts between a successful purge and the next config written, in any run of this kind. */
  ghost predicate PurgeHoldsBackStarts(kind: Kind) {
    forall a, before, after | Initial(a) && a.kind == kind && Exec(a, before + [RouterPurge(true)] + after).Some?
                              && Exec(a, before).Some? && (forall e | e in after :: !CreatesConfig(e)) ::
      |Exec(a, before + [RouterPurge(true)] + after).value.contexts| == |Exec(a, before).value.contexts|
  }

  /** After an applied configure a live process means configs, CURRENT and the executable are there. */
  ghost predicate ConfigureLeavesContract(kind: Kind) {
    forall a, es, started | Initial(a) && a.kind == kind && Exec(a, es + [FinishConfigure(started)]).Some?
                            && Exec(a, es).Some? && Exec(a, es).value.op.Configuring?
                            && Exec(a, es).value.op.applied > 0 ::
      var t := Exec(a, es + [FinishConfigure(started)]).value;
      NothingLive(t) || (HasConfig(t) && ExePresent(t))
  }

  lemma KindNeverChanges(a: Agent, es: seq<Event>)
    requires Exec(a, es).Some?
    ensures Exec(a, es).value.kind == a.kind
  {
  }

  lemma PurgeHolds(kind: Kind)
    requires WaitsForConfigs(kind)
    ensures PurgeHoldsBackStarts(kind)
  {
    forall a, before, after | Initial(a) && a.kind == kind && Exec(a, before + [RouterPurge(true)] + after).Some?
                              && Exec(a, before).Some? && (forall e | e in after :: !CreatesConfig(e))
      ensures |Exec(a, before + [RouterPurge(true)] + after).value.contexts| == |Exec(a, before).value.contexts|
    {
      KindNeverChanges(a, before);
      ExecConcat(a, before + [RouterPurge(true)], after);
      assert (before + [RouterPurge(true)])[..|before|] == before;
      var s := Exec(a, before + [RouterPurge(true)]).value;
      NoConfigNoLaunch(s, after);
    }
  }

  lemma ConfigureHolds(kind: Kind)
    requires WaitsForConfigs(kind)
    ensures ConfigureLeavesContract(kind)
  {
    forall a, es, started | Initial(a) && a.kind == kind && Exec(a, es + [FinishConfigure(started)]).Some?
                            && Exec(a, es).Some? && Exec(a, es).value.op.Configuring?
                            && Exec(a, es).value.op.applied > 0
      ensures var t := Exec(a, es + [FinishConfigure(started)]).value;
              NothingLive(t) || (HasConfig(t) && ExePresent(t))
    {
      KindNeverChanges(a, es);
      ReachableInv(a, es);
      assert (es + [FinishConfigure(started)])[..|es|] == es;
      var s := Exec(a, es).value;
      EnsureKeeps(s, true, started);
      EnsureFrame(s, true, started);
    }
  }

  /** Version "1" is installed and linked, and the Envoy has just started. */
  function Disk(kind: Kind): Agent {
    Agent(kind, map["1" := {ExeName(kind)}], Some("1"), None, [], None, Idle, false)
  }

  lemma ExecCons(a: Agent, e: Event, es: seq<Event>)
    requires Enabled(a, e)
    ensures Exec(a, [e] + es) == Exec(Apply(a, e), es)
  {
    ExecSnoc(a, [], e);
    assert [] + [e] == [e];
    ExecConcat(a, [e], es);
  }

  lemma InstallStarts(kind: Kind)
    requires !WaitsForConfigs(kind)
    ensures var s := Exec(Disk(kind), [BeginInstall("1", ExeName(kind))] + ([InstallStep(true)] + ([InstallStep(true)] + ([InstallEnsure(true)] + []))));
            s.Some? && |s.value.contexts| == 1
  {
    var a := Disk(kind);
    var s1 := a.(op := Installing("1", ExeName(kind), CheckDir));
    var s2 := a.(op := Installing("1", ExeName(kind), CheckLink));
    var s3 := a.(op := Installing("1", ExeName(kind), EnsureRunning));
    ExecCons(a, BeginInstall("1", ExeName(kind)), [InstallStep(true)] + ([InstallStep(true)] + ([InstallEnsure(true)] + [])));
    ExecCons(s1, InstallStep(true), [InstallStep(true)] + ([InstallEnsure(true)] + []));
    ExecCons(s2, InstallStep(true), [InstallEnsure(true)] + []);
    ExecCons(s3, InstallEnsure(true), []);
  }

  /** A kind that does not look at its configs is started by an install right after a purge. */
  lemma StartsAfterPurge(kind: Kind)
    requires !WaitsForConfigs(kind)
    ensures !PurgeHoldsBackStarts(kind)
  {
    var a := Disk(kind);
    var before: seq<Event> := [];
    var after := [BeginInstall("1", ExeName(kind))] + ([InstallStep(true)] + ([InstallStep(true)] + ([InstallEnsure(true)] + [])));
    InstallStarts(kind);
    ExecCons(a, RouterPurge(true), after);
    assert Apply(a, RouterPurge(true)) == a;
    assert before + [RouterPurge(true)] + after == [RouterPurge(true)] + after;
    assert Exec(a, before) == Some(a);
    assert |Exec(a, before + [RouterPurge(true)] + after).value.contexts| == 1;
  }

  lemma ConfigureEmptied(kind: Kind)
    requires !WaitsForConfigs(kind)
    ensures Exec(Disk(kind), [BeginConfigure(Opened)] + ([WriteConfig("x", Written)] + ([RemoveConfig("x", true)] + [])))
            == Some(Disk(kind).(op := Configuring(2), configs := Some({})))
  {
    var a := Disk(kind);
    var s1 := a.(op := Configuring(0), configs := Some({}));
    var s2 := a.(op := Configuring(1), configs := Some({"x"}));
    assert {"x"} - {"x"} == {};
    ExecCons(a, BeginConfigure(Opened), [WriteConfig("x", Written)] + ([RemoveConfig("x", true)] + []));
    ExecCons(s1, WriteConfig("x", Written), [RemoveConfig("x", true)] + []);
    ExecCons(s2, RemoveConfig("x", true), []);
  }

  /** Creating and removing one config in one instruction starts such a kind with no config left. */
  lemma RunsWithoutConfig(kind: Kind)
    requires !WaitsForConfigs(kind)
    ensures !ConfigureLeavesContract(kind)
  {
    var a := Disk(kind);
    var es := [BeginConfigure(Opened)] + ([WriteConfig("x", Written)] + ([RemoveConfig("x", true)] + []));
    ConfigureEmptied(kind);
    var s := a.(op := Configuring(2), configs := Some({}));
    assert Exec(a, es) == Some(s);
    assert ExePresent(s) && !TracksRunning(s);
    ExecSnoc(a, es, FinishConfigure(true));
    var t := Exec(a, es + [FinishConfigure(true)]).value;
    assert t == s.(contexts := [Launched("1", RunningContext.STARTED, false)], running := Some(0), op := Idle);
    assert Live(t.contexts[0]) && !HasConfig(t);
    assert Initial(a) && a.kind == kind;
  }

  /** Starts wait for configs, after a purge and in an applied configure, for exactly two of the kinds. */
  lemma StartsWaitForConfigsExactlyFor(kind: Kind)
    ensures PurgeHoldsBackStarts(kind) <==> WaitsForConfigs(kind)
    ensures ConfigureLeavesContract(kind) <==> WaitsForConfigs(kind)
  {
    if WaitsForConfigs(kind) {
      PurgeHolds(kind);
      ConfigureHolds(kind);
    } else {
      StartsAfterPurge(kind);
      RunsWithoutConfig(kind);
    }
  }

  // ---------------------------------------------------------------- the contract at rest, over whole runs

  /** Between the removal of the link and the runner's Stop an old process may still run. */
  predicate LinkTaken(a: Agent) {
    a.op.Installing? && a.op.stage == StopPrevious
  }

  predicate LiveHasExe(a: Agent) {
    NothingLive(a) || ExePresent(a) || LinkTaken(a)
  }

  lemma ProcessRevivesNothing(a: Agent, k: nat, e: RunningContext.Event)
    requires Enabled(a, Process(k, e))
    ensures var b := Apply(a, Process(k, e));
            b == a.(contexts := b.contexts) && (NothingLive(a) ==> NothingLive(b))
  {
    var b := Apply(a, Process(k, e));
    assert forall j | 0 <= j < |b.contexts| :: Live(b.contexts[j]) ==> Live(a.contexts[j]);
  }

  lemma FireIsEnsure(a: Agent, k: nat, started: bool)
    requires Enabled(a, Fire(k, started))
    ensures var b := Apply(a, Fire(k, started)); var m := Ensure(a, false, started);
            b == m.(contexts := b.contexts) && NothingLive(b) == NothingLive(m)
  {
    var b := Apply(a, Fire(k, started));
    var m := Ensure(a, false, started);
    assert forall j | 0 <= j < |b.contexts| :: Live(b.contexts[j]) == Live(m.contexts[j]);
  }

  lemma EnsureNeedsExe(a: Agent, applyConfigs: bool, started: bool)
    requires Inv(a) && !LinkTaken(a) && LiveHasExe(a) && StartPossible(a, applyConfigs, started)
    ensures LiveHasExe(Ensure(a, applyConfigs, started))
  {
    EnsureKeeps(a, applyConfigs, started);
  }

  lemma FireNeedsExe(a: Agent, k: nat, started: bool)
    requires Inv(a) && LiveHasExe(a) && Enabled(a, Fire(k, started))
    ensures LiveHasExe(Apply(a, Fire(k, started)))
  {
    FireIsEnsure(a, k, started);
    EnsureFrame(a, false, started);
    if !LinkTaken(a) {
      EnsureNeedsExe(a, false, started);
    }
  }

  lemma InstallStepNeedsExe(a: Agent, ok: bool)
    requires Inv(a) && LiveHasExe(a) && Enabled(a, InstallStep(ok))
    ensures LiveHasExe(Apply(a, InstallStep(ok)))
  {
    var b := Apply(a, InstallStep(ok));
    assert b == a.(dirs := b.dirs, current := b.current, op := b.op);
    if a.op.stage == Relink {
      assert NothingLive(b);
    } else {
      assert ExePresent(a) ==> ExePresent(b) || LinkTaken(b);
    }
  }

  lemma LiveHasExeStep(a: Agent, e: Event)
    requires Inv(a) && LiveHasExe(a) && Enabled(a, e)
    ensures LiveHasExe(Apply(a, e))
  {
    match e {
      case Process(k, pe) => ProcessRevivesNothing(a, k, pe);
      case Fire(k, started) => FireNeedsExe(a, k, started);
      case InstallStep(ok) => InstallStepNeedsExe(a, ok);
      case InstallEnsure(started) => EnsureNeedsExe(a, false, started);
      case FinishConfigure(started) => if a.op.applied != 0 { EnsureNeedsExe(a, true, started); }
      case InstallStop => HandlerStopClaims(a);
      case RouterStop => HandlerStopClaims(a);
      case BeginInstall(_, _) =>
      case BeginConfigure(_) =>
      case WriteConfig(_, _) =>
      case RemoveConfig(_, _) =>
      case OtherConfig =>
      case RouterPurge(_) =>
    }
  }

  /** A live unclaimed process of any kind has its executable, except while its link is being replaced. */
  lemma {:induction false} LiveHasExecutable(a: Agent, es: seq<Event>)
    requires Initial(a) && Exec(a, es).Some?
    ensures LiveHasExe(Exec(a, es).value)
  {
    if es != [] {
      ReachableInv(a, es[..|es| - 1]);
      LiveHasExecutable(a, es[..|es| - 1]);
      LiveHasExeStep(Exec(a, es[..|es| - 1]).value, es[|es| - 1]);
    }
  }

  /** What the runner interface asks for: no process without a config and the executable. */
  predicate Honoured(a: Agent) {
    NothingLive(a) || (HasConfig(a) && ExePresent(a))
  }

  /** The contract holds whenever no instruction is in progress, all along a run. */
  predicate HonouredAtRest(a: Agent, es: seq<Event>)
    requires Exec(a, es).Some?
  {
    && (es != [] ==> HonouredAtRest(a, es[..|es| - 1]))
    && (Exec(a, es).value.op.Idle? ==> Honoured(Exec(a, es).value))
  }

  /** Steps that end an instruction without an EnsureRunningState and leave the configs as they were. */
  predicate GivesUp(a: Agent, e: Event)
    requires Enabled(a, e)
  {
    match e
    case InstallStep(ok) =>
      a.op.stage == Cleanup || (!ok && a.op.stage in {MakeDir, PostInstall, CheckLink, RemoveLink, Relink})
    case WriteConfig(_, result) => result.NotOpened? && RestartsToApply(a.kind)
    case RemoveConfig(_, ok) => !ok && RestartsToApply(a.kind)
    case FinishConfigure(_) => a.op.applied == 0
    case _ => false
  }

  /** A purge at rest, or an instruction given up with no config left, while a process is live. */
  predicate Breach(a: Agent, e: Event)
    requires Enabled(a, e)
  {
    && !NothingLive(a)
    && if e == RouterPurge(true) then a.op.Idle? else GivesUp(a, e) && !HasConfig(a)
  }

  predicate NoBreach(a: Agent, es: seq<Event>)
    requires Exec(a, es).Some?
  {
    es != [] ==>
      NoBreach(a, es[..|es| - 1]) && !Breach(Exec(a, es[..|es| - 1]).value, es[|es| - 1])
  }

  lemma EnsureHonours(a: Agent, applyConfigs: bool, started: bool)
    requires Inv(a) && WaitsForConfigs(a.kind) && StartPossible(a, applyConfigs, started)
    ensures Honoured(Ensure(a, applyConfigs, started))
  {
    EnsureKeeps(a, applyConfigs, started);
  }

  lemma InstallBreach(a: Agent, ok: bool)
    requires Inv(a) && Enabled(a, InstallStep(ok)) && LiveHasExe(Apply(a, InstallStep(ok)))
    ensures var b := Apply(a, InstallStep(ok)); (b.op.Idle? ==> Honoured(b)) <==> !Breach(a, InstallStep(ok))
  {
    var b := Apply(a, InstallStep(ok));
    assert b.contexts == a.contexts && b.configs == a.configs;
    assert NothingLive(a) == NothingLive(b) && HasConfig(a) == HasConfig(b);
    assert b.op.Idle? <==> GivesUp(a, InstallStep(ok));
  }

  /** Steps that touch config files only: what is live afterwards was live before. */
  lemma ConfigBreach(a: Agent, e: Event)
    requires WaitsForConfigs(a.kind) && Enabled(a, e) && LiveHasExe(Apply(a, e))
    requires e.WriteConfig? || e.RemoveConfig? || e.RouterPurge? || e.BeginConfigure?
    requires a.op.Idle? ==> Honoured(a)
    ensures var b := Apply(a, e); (b.op.Idle? ==> Honoured(b)) <==> !Breach(a, e)
  {
    var b := Apply(a, e);
    assert b.contexts == a.contexts;
    assert NothingLive(a) == NothingLive(b) && ExePresent(a) == ExePresent(b);
    match e {
      case BeginConfigure(_) => assert HasConfig(a) == HasConfig(b);
      case WriteConfig(id, result) => assert !result.NotOpened? ==> id in b.configs.value;
      case RemoveConfig(_, _) =>
      case RouterPurge(_) =>
    }
  }

  /** From an honoured state, exactly a breach leads to a resting state that is not. */
  lemma BreachStep(a: Agent, e: Event)
    requires Inv(a) && WaitsForConfigs(a.kind) && LiveHasExe(a) && Enabled(a, e)
    requires a.op.Idle? ==> Honoured(a)
    ensures var b := Apply(a, e); (b.op.Idle? ==> Honoured(b)) <==> !Breach(a, e)
  {
    LiveHasExeStep(a, e);
    match e {
      case Process(k, pe) => ProcessRevivesNothing(a, k, pe);
      case Fire(k, started) => { FireIsEnsure(a, k, started); EnsureHonours(a, false, started); }
      case InstallEnsure(started) => EnsureHonours(a, false, started);
      case FinishConfigure(started) => if a.op.applied != 0 { EnsureHonours(a, true, started); }
      case InstallStop =>
      case RouterStop => HandlerStopClaims(a);
      case BeginInstall(_, _) =>
      case OtherConfig =>
      case InstallStep(ok) => InstallBreach(a, ok);
      case _ => ConfigBreach(a, e);
    }
  }

  /**
   In a run of filebeat or packages, a process is live at rest only with a config and the executable
   there, if and only if no purge meets a live process at rest and no instruction is given up, with a
   process live, after the last config is gone.
   */
  lemma {:induction false} HonouredExactlyWithoutBreach(a: Agent, es: seq<Event>)
    requires Initial(a) && WaitsForConfigs(a.kind) && Exec(a, es).Some?
    ensures HonouredAtRest(a, es) <==> NoBreach(a, es)
  {
    if es != [] {
      var front := es[..|es| - 1];
      HonouredExactlyWithoutBreach(a, front);
      if HonouredAtRest(a, front) {
        ReachableInv(a, front);
        LiveHasExecutable(a, front);
        KindNeverChanges(a, front);
        BreachStep(Exec(a, front).value, es[|es| - 1]);
      }
    }
  }

  lemma ConfigureRuns(kind: Kind) returns (es: seq<Event>)
    requires WaitsForConfigs(kind)
    ensures IsPath(Disk(kind), es, Disk(kind).(
              configs := Some({"x"}), contexts := [Launched("1", RunningContext.STARTED, false)], running := Some(0)))
  {
    var a := Disk(kind);
    var s1 := a.(op := Configuring(0), configs := Some({}));
    var s2 := a.(op := Configuring(1), configs := Some({"x"}));
    assert {} + {"x"} == {"x"};
    es := Walk(a, [], a, BeginConfigure(Opened), s1);
    es := Walk(a, es, s1, WriteConfig("x", Written), s2);
    assert "x" in s2.configs.value;
    es := Walk(a, es, s2, FinishConfigure(true),
               s2.(op := Idle, contexts := [Launched("1", RunningContext.STARTED, false)], running := Some(0)));
  }

  /** Packages: an instruction that removes the last config and then fails leaves the process running. */
  lemma AbandonedInstruction() returns (es: seq<Event>)
    ensures Exec(Disk(Packages), es).Some?
    ensures var s := Exec(Disk(Packages), es).value; s.op.Idle? && !NothingLive(s) && s.configs == Some({})
  {
    es := ConfigureRuns(Packages);
    var a := Disk(Packages);
    var s0 := a.(configs := Some({"x"}), contexts := [Launched("1", RunningContext.STARTED, false)], running := Some(0));
    var s1 := s0.(op := Configuring(0));
    assert {"x"} - {"x"} == {};
    var s2 := s0.(op := Configuring(1), configs := Some({}));
    es := Walk(a, es, s0, BeginConfigure(Opened), s1);
    es := Walk(a, es, s1, RemoveConfig("x", true), s2);
    es := Walk(a, es, s2, WriteConfig("y", NotOpened), s2.(op := Idle));
    assert Live(s2.contexts[0]);
  }

  // ---------------------------------------------------------------- what a detach leaves behind

  /** Steps that take up no further instruction; those of the instruction in progress are among them. */
  predicate NoInstruction(e: Event) {
    !e.BeginInstall? && !e.BeginConfigure?
  }

  predicate RestartPending(l: Launched) {
    l.timer || (!l.ctx.stopping && l.ctx.waiter != RunningContext.Decided)
  }

  predicate PendingDespiteStop(a: Agent, k: nat)
    requires k < |a.contexts|
  {
    a.contexts[k].timer || (RestartPending(a.contexts[k]) && !(a.running == Some(k) && TracksRunning(a)))
  }

  predicate Startable(a: Agent) {
    Ready(a) && ExePresent(a)
  }

  /** What the version's directory will hold if no further stage of the install fails. */
  function Target(a: Agent): set<string>
    requires a.op.Installing?
  {
    if a.op.version in a.dirs && a.op.stage != Download then a.dirs[a.op.version] else {a.op.exe}
  }

  /** The instruction in progress can still come to start the agent, as far as its files go. */
  predicate OpLaunches(a: Agent) {
    match a.op
    case Idle => false
    case Installing(_, _, stage) =>
      && stage != Cleanup && ExeName(a.kind) in Target(a)
      && (HasConfig(a) || a.kind.Telegraf? || a.kind.Oracle?)
    case Configuring(applied) =>
      && ExePresent(a)
      && (a.configs.Some? || a.kind.Telegraf? || (a.kind.Oracle? && applied > 0))
  }

  /**
   A process other than the one being stopped has exited without a Stop, its restart is still to come
   and the files let it start; or the instruction in progress can still start one. All of this can be
   read off before the detach is handled.
   */
  predicate Relaunchable(a: Agent) {
    || (Startable(a) && exists k :: 0 <= k < |a.contexts| && PendingDespiteStop(a, k))
    || OpLaunches(a)
  }

  /** The router's handling of a detach: stop, whatever other steps come, purge. */
  function DetachTrace(mid: seq<Event>): seq<Event> {
    [RouterStop] + mid + [RouterPurge(true)]
  }

  /** Nothing is live after the purge, nor later until another instruction is taken up. */
  ghost predicate DetachCleansUp(a: Agent) {
    forall mid, after | (forall e | e in mid + after :: NoInstruction(e)) && Exec(a, DetachTrace(mid) + after).Some? ::
      NothingLive(Exec(a, DetachTrace(mid) + after).value)
  }

  predicate Quiet(s: Agent) {
    && NothingLive(s) && !OpLaunches(s)
    && (Startable(s) ==> forall k | 0 <= k < |s.contexts| :: !RestartPending(s.contexts[k]))
  }

  lemma QuietProcess(s: Agent, k: nat, e: RunningContext.Event)
    requires Quiet(s) && Enabled(s, Process(k, e))
    ensures Quiet(Apply(s, Process(k, e)))
  {
    var t := Apply(s, Process(k, e));
    assert !Live(t.contexts[k]) && (RestartPending(t.contexts[k]) ==> RestartPending(s.contexts[k]));
    assert forall j | 0 <= j < |s.contexts| && j != k :: t.contexts[j] == s.contexts[j];
  }

  lemma StopAddsNoPending(s: Agent)
    ensures var t := HandlerStop(s);
            && t == s.(contexts := t.contexts) && |t.contexts| == |s.contexts|
            && forall k | 0 <= k < |s.contexts| :: RestartPending(t.contexts[k]) ==> RestartPending(s.contexts[k])
  {
  }

  /** An EnsureRunningState that starts nothing adds no pending restart. */
  lemma QuietEnsure(s: Agent, applyConfigs: bool)
    requires Inv(s) && Quiet(s)
    ensures Quiet(Ensure(s, applyConfigs, false))
  {
    EnsureKeeps(s, applyConfigs, false);
    StopAddsNoPending(s);
    var t := Ensure(s, applyConfigs, false);
    assert forall k | 0 <= k < |s.contexts| :: RestartPending(t.contexts[k]) ==> RestartPending(s.contexts[k]);
  }

  lemma QuietFire(s: Agent, k: nat, started: bool)
    requires Inv(s) && Quiet(s) && Enabled(s, Fire(k, started))
    ensures Quiet(Apply(s, Fire(k, started)))
  {
    assert RestartPending(s.contexts[k]);
    assert !started;
    QuietEnsure(s, false);
    var m := Ensure(s, false, false);
    var t := Apply(s, Fire(k, started));
    assert forall j | 0 <= j < |t.contexts| :: RestartPending(t.contexts[j]) ==> RestartPending(m.contexts[j]);
  }

  lemma QuietInstall(s: Agent, ok: bool)
    requires Inv(s) && Quiet(s) && Enabled(s, InstallStep(ok))
    ensures Quiet(Apply(s, InstallStep(ok)))
  {
    var t := Apply(s, InstallStep(ok));
    assert t == s.(dirs := t.dirs, current := t.current, op := t.op);
    assert OpLaunches(t) ==> OpLaunches(s);
    assert Startable(t) ==> Startable(s) || OpLaunches(t);
  }

  lemma QuietStop(s: Agent)
    requires Inv(s) && Quiet(s)
    ensures Quiet(RunnerStop(s))
  {
    HandlerStopClaims(s);
    StopAddsNoPending(s);
  }

  lemma QuietConfigs(s: Agent, e: Event)
    requires Quiet(s) && Enabled(s, e) && (e.WriteConfig? || e.RemoveConfig? || e.RouterPurge?)
    ensures Quiet(Apply(s, e))
  {
    var t := Apply(s, e);
    assert t == s.(configs := t.configs, op := t.op);
    assert OpLaunches(t) ==> OpLaunches(s);
    assert Startable(t) ==> Startable(s) || OpLaunches(s);
  }

  /** The EnsureRunningState that ends an instruction does not start anything either. */
  lemma QuietEnd(s: Agent, e: Event)
    requires Inv(s) && Quiet(s) && Enabled(s, e) && (e.InstallEnsure? || e.FinishConfigure?)
    ensures Quiet(Apply(s, e))
  {
    assert !e.started;
    if e.InstallEnsure? {
      QuietEnsure(s, false);
    } else if s.op.applied != 0 {
      QuietEnsure(s, true);
    }
  }

  lemma QuietStep(s: Agent, e: Event)
    requires Inv(s) && Quiet(s) && Enabled(s, e) && NoInstruction(e)
    ensures Quiet(Apply(s, e))
  {
    match e
    case Process(k, pe) => QuietProcess(s, k, pe);
    case Fire(k, started) => QuietFire(s, k, started);
    case InstallStep(ok) => QuietInstall(s, ok);
    case InstallStop => QuietStop(s);
    case RouterStop => QuietStop(s);
    case InstallEnsure(_) => QuietEnd(s, e);
    case FinishConfigure(_) => QuietEnd(s, e);
    case WriteConfig(_, _) => QuietConfigs(s, e);
    case RemoveConfig(_, _) => QuietConfigs(s, e);
    case OtherConfig =>
    case RouterPurge(_) => QuietConfigs(s, e);
  }

  lemma {:induction false} StaysQuiet(s: Agent, es: seq<Event>)
    requires Inv(s) && Quiet(s) && Exec(s, es).Some?
    requires forall e | e in es :: NoInstruction(e)
    ensures Quiet(Exec(s, es).value)
  {
    if es != [] {
      StaysQuiet(s, es[..|es| - 1]);
      ReachableInv(s, es[..|es| - 1]);
      QuietStep(Exec(s, es[..|es| - 1]).value, es[|es| - 1]);
    }
  }

  lemma StopLeavesPending(a: Agent)
    requires Inv(a)
    ensures var b := RunnerStop(a);
            && b == a.(contexts := b.contexts, running := None) && |b.contexts| == |a.contexts|
            && ProcessesInv(b) && NothingLive(b)
            && (forall k | 0 <= k < |a.contexts| :: RestartPending(b.contexts[k]) == PendingDespiteStop(a, k))
  {
    HandlerStopClaims(a);
  }

  /** The waiter of an exited, unclaimed process can always run on to schedule its restart. */
  lemma {:induction false} WaiterSchedules(s: Agent, k: nat) returns (es: seq<Event>)
    requires !s.halted && k < |s.contexts| && RestartPending(s.contexts[k])
    requires RunningContext.Inv(s.contexts[k].ctx) && !Live(s.contexts[k])
    ensures forall e | e in es :: e.Process? && NoInstruction(e)
    ensures Exec(s, es).Some?
    ensures var t := Exec(s, es).value;
            && t == s.(contexts := t.contexts) && |t.contexts| == |s.contexts| && t.contexts[k].timer
            && (if s.contexts[k].timer then es == [] else t.contexts[k].ctx.waiter == RunningContext.Decided)
    decreases match s.contexts[k].ctx.waiter
              case Waiting => 5 case Reaped => 4 case Cleared => 3 case Closed => 2
              case Cancelled => 1 case Decided => 0
  {
    var l := s.contexts[k];
    if l.timer {
      es := [];
    } else {
      var pe := match l.ctx.waiter
        case Waiting => RunningContext.Reap(true)
        case Reaped => RunningContext.ClearCmd
        case Cleared => RunningContext.CloseStopped
        case Closed => RunningContext.Cancel
        case Cancelled => RunningContext.Decide(true)
        case Decided => RunningContext.Exit;
      var e := Process(k, pe);
      RunningContext.StepInv(l.ctx, pe);
      var rest := WaiterSchedules(Apply(s, e), k);
      es := [e] + rest;
      ExecCons(s, e, rest);
      assert rest == [] ==> Exec(Apply(s, e), rest) == Some(Apply(s, e));
    }
  }

  /** A restart that is pending after the stop ends in a start. */
  lemma PendingLaunches(s: Agent, k: nat) returns (es: seq<Event>)
    requires ProcessesInv(s) && NothingLive(s) && !s.halted && s.running.None? && Startable(s)
    requires k < |s.contexts| && RestartPending(s.contexts[k])
    ensures (forall e | e in es :: NoInstruction(e)) && Exec(s, es).Some? && !Exec(s, es).value.halted
    ensures !NothingLive(Exec(s, es).value)
  {
    var wait := WaiterSchedules(s, k);
    var t := Exec(s, wait).value;
    es := wait + [Fire(k, true)];
    ExecSnoc(s, wait, Fire(k, true));
    assert Live(Exec(s, es).value.contexts[|t.contexts|]);
  }

  function Remaining(stage: Stage): nat {
    match stage
    case CheckDir => 9 case MakeDir => 8 case Download => 7 case Cleanup => 6 case PostInstall => 5
    case CheckLink => 4 case RemoveLink => 3 case StopPrevious => 2 case Relink => 1 case EnsureRunning => 0
  }

  /** An install in progress whose executable and configs suit the agent can run on and start it. */
  lemma {:induction false} InstallLaunches(s: Agent) returns (es: seq<Event>)
    requires Inv(s) && !s.halted && s.running.None? && s.op.Installing? && OpLaunches(s)
    ensures (forall e | e in es :: NoInstruction(e)) && Exec(s, es).Some? && !Exec(s, es).value.halted
    ensures !NothingLive(Exec(s, es).value)
    decreases Remaining(s.op.stage)
  {
    if s.op.stage == EnsureRunning {
      es := [InstallEnsure(true)];
      ExecCons(s, InstallEnsure(true), []);
      assert es == [InstallEnsure(true)] + [];
      assert Live(Exec(s, es).value.contexts[|s.contexts|]);
    } else {
      var e := if s.op.stage == StopPrevious then InstallStop else InstallStep(true);
      StepInv(s, e);
      var rest := InstallLaunches(Apply(s, e));
      es := [e] + rest;
      ExecCons(s, e, rest);
    }
  }

  lemma ConfigureStarts(s: Agent) returns (e: Event)
    requires !s.halted && s.running.None? && s.op.Configuring? && s.op.applied > 0 && Startable(s)
    ensures NoInstruction(e) && Enabled(s, e)
    ensures var t := Apply(s, e); !NothingLive(t) && !t.halted
  {
    e := FinishConfigure(true);
    var t := Apply(s, e);
    assert t.contexts == s.contexts + [Launched(s.current.value, RunningContext.STARTED, false)];
    assert Live(t.contexts[|s.contexts|]);
  }

  /** A configure in progress can still apply an operation and start the agent. */
  lemma ConfigureLaunches(s: Agent) returns (es: seq<Event>)
    requires !s.halted && s.running.None? && s.op.Configuring? && OpLaunches(s)
    ensures (forall e | e in es :: NoInstruction(e)) && Exec(s, es).Some? && !Exec(s, es).value.halted
    ensures !NothingLive(Exec(s, es).value)
  {
    if s.kind.Oracle? && s.op.applied > 0 {
      var e := ConfigureStarts(s);
      es := Walk(s, [], s, e, Apply(s, e));
    } else {
      var w := WriteConfig("x", Written);
      var t := Apply(s, w);
      assert t == s.(op := Configuring(s.op.applied + 1), configs := t.configs) && "x" in t.configs.value;
      var e := ConfigureStarts(t);
      es := Walk(s, [], s, w, t);
      es := Walk(s, es, t, e, Apply(t, e));
    }
  }

  lemma RelaunchWitness(a: Agent) returns (mid: seq<Event>)
    requires Inv(a) && !a.halted && Relaunchable(a)
    ensures (forall e | e in mid :: NoInstruction(e)) && Exec(a, DetachTrace(mid)).Some?
    ensures var s := Exec(a, DetachTrace(mid)).value; !NothingLive(s) && s.configs.None?
  {
    StopLeavesPending(a);
    StepInv(a, RouterStop);
    var b := RunnerStop(a);
    if OpLaunches(a) && a.op.Installing? {
      mid := InstallLaunches(b);
    } else if OpLaunches(a) {
      mid := ConfigureLaunches(b);
    } else {
      var k :| 0 <= k < |a.contexts| && PendingDespiteStop(a, k);
      mid := PendingLaunches(b, k);
    }
    ExecCons(a, RouterStop, mid);
    ExecSnoc(a, [RouterStop] + mid, RouterPurge(true));
  }

  lemma QuietCleansUp(a: Agent)
    requires Inv(a) && !a.halted && !Relaunchable(a)
    ensures DetachCleansUp(a)
  {
    StopLeavesPending(a);
    StepInv(a, RouterStop);
    forall mid, after | (forall e | e in mid + after :: NoInstruction(e)) && Exec(a, DetachTrace(mid) + after).Some?
      ensures NothingLive(Exec(a, DetachTrace(mid) + after).value)
    {
      var rest := mid + [RouterPurge(true)] + after;
      assert DetachTrace(mid) + after == [RouterStop] + rest;
      ExecCons(a, RouterStop, rest);
      StaysQuiet(RunnerStop(a), rest);
    }
  }

  /**
   A detach is meant to leave no agent running and no configuration. Whatever comes between its stop
   and its purge and after them, short of a new instruction, it does so if and only if neither a
   pending restart of an already exited process nor the instruction in progress can start the agent.
   */
  lemma DetachCleansUpExactlyWhen(a: Agent)
    requires Inv(a) && !a.halted
    ensures DetachCleansUp(a) <==> !Relaunchable(a)
  {
    if Relaunchable(a) {
      var mid := RelaunchWitness(a);
      assert DetachTrace(mid) + [] == DetachTrace(mid);
      assert mid + [] == mid;
    } else {
      QuietCleansUp(a);
    }
  }

  lemma {:induction false} IdleStays(s: Agent, es: seq<Event>)
    requires s.op.Idle? && Exec(s, es).Some? && forall e | e in es :: NoInstruction(e)
    ensures Exec(s, es).value.op.Idle?
  {
    if es != [] {
      IdleStays(s, es[..|es| - 1]);
      assert NoInstruction(es[|es| - 1]);
      match es[|es| - 1]
      case Fire(_, started) => EnsureFrame(Exec(s, es[..|es| - 1]).value, false, started);
      case _ =>
    }
  }

  /** The process of a configured filebeat has exited and been reaped; its restart is to come. */
  lemma ReapedUnclaimed() returns (es: seq<Event>, s: Agent)
    ensures IsPath(Disk(Filebeat), es, s) && Inv(s) && s.op.Idle? && !s.halted && Relaunchable(s)
  {
    es := ConfigureRuns(Filebeat);
    var a := Disk(Filebeat);
    var s0 := a.(configs := Some({"x"}), contexts := [Launched("1", RunningContext.STARTED, false)], running := Some(0));
    var c1 := RunningContext.Apply(RunningContext.STARTED, RunningContext.Exit);
    var c2 := RunningContext.Apply(c1, RunningContext.Reap(true));
    var s1 := s0.(contexts := [Launched("1", c1, false)]);
    s := s0.(contexts := [Launched("1", c2, false)]);
    es := Walk(a, es, s0, Process(0, RunningContext.Exit), s1);
    es := Walk(a, es, s1, Process(0, RunningContext.Reap(true)), s);
    ReachableInv(a, es);
    assert "x" in s.configs.value && PendingDespiteStop(s, 0);
  }

  /** Filebeat: that restart fires within a detach, whose purge then leaves it running without configs. */
  lemma PurgedWhileLive() returns (es: seq<Event>)
    ensures Exec(Disk(Filebeat), es).Some?
    ensures var s := Exec(Disk(Filebeat), es).value; s.op.Idle? && !NothingLive(s) && s.configs.None?
  {
    var s;
    es, s := ReapedUnclaimed();
    var mid := RelaunchWitness(s);
    assert forall e | e in DetachTrace(mid) :: NoInstruction(e);
    IdleStays(s, DetachTrace(mid));
    ExecConcat(Disk(Filebeat), es, DetachTrace(mid));
    es := es + DetachTrace(mid);
  }
}
