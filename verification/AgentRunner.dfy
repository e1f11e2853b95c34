/**
 The four runners and the router's install and configure handling as the statements they execute,
 each proved to be steps of the supervision machine.
 */
module AgentRunner {
  import opened Prelude
  import opened AgentMachine
  import Outcomes = AgentOutcomes
  import Properties = AgentProperties
  import RunningContext

  function Extension(kind: Kind): string {
    if kind.Filebeat? then ".yml" else ".json"
  }

  predicate HasExtension(name: string, ext: string) {
    |ext| <= |name| && name[|name| - |ext|..] == ext
  }

  lemma SameName(a: string, b: string, ext: string)
    requires a + ext == b + ext
    ensures a == b
  {
    assert |a| == |b| && a == (a + ext)[..|a|] && b == (b + ext)[..|b|];
  }

  /** An operation of an instruction, with what comes of it where it is tried. */
  predicate OpPossible(kind: Kind, e: Event) {
    match e
    case WriteConfig(_, result) => !(kind.Telegraf? && result.Created?)
    case RemoveConfig(_, ok) => kind.Telegraf? ==> ok
    case OtherConfig => true
    case _ => false
  }

  /** The operations that make packages and oracle give up. */
  predicate OpFails(e: Event) {
    (e.WriteConfig? && e.result != Written) || (e.RemoveConfig? && !e.ok)
  }

  /** Whether ProcessConfig returns an error other than that nothing was applied. */
  ghost predicate Fails(kind: Kind, opening: Opening, ops: seq<Event>) {
    !opening.Opened? || (RestartsToApply(kind) && exists e :: e in ops && OpFails(e))
  }

  function OpeningOf(kind: Kind, dirOk: bool, mainOk: bool): Opening {
    if !kind.Telegraf? && !dirOk then NoDirectory else if kind.Filebeat? && !mainOk then NoMainConfig else Opened
  }

  /** A start succeeds when the files are there, a running process need not stay, and the command comes up. */
  ghost predicate Starts(a: Agent, applyConfigs: bool, startOk: bool) {
    startOk && Outcomes.FilesThere(a) && Outcomes.MayStart(a.kind, TracksRunning(a), applyConfigs)
  }

  lemma StartsIsPossible(a: Agent, applyConfigs: bool, startOk: bool)
    ensures Starts(a, applyConfigs, startOk) <==> startOk && StartPossible(a, applyConfigs, true)
    ensures Outcomes.Configured(a) <==> HasConfig(a)
  {
    Outcomes.StartsExactlyWhen(a, applyConfigs);
    Outcomes.ConfiguredExactlyWhen(a);
  }

  lemma EnsureKeepsFiles(a: Agent, applyConfigs: bool, started: bool)
    requires StartPossible(a, applyConfigs, started)
    ensures Outcomes.FilesThere(Ensure(a, applyConfigs, started)) <==> Outcomes.FilesThere(a)
  {
    Properties.EnsureFrame(a, applyConfigs, started);
    Outcomes.ConfiguredExactlyWhen(a);
    Outcomes.ConfiguredExactlyWhen(Ensure(a, applyConfigs, started));
  }

  lemma AppliedAfter(a: Agent, es: seq<Event>, s: Agent, started: bool)
    requires Inv(a) && Properties.IsPath(a, es, s)
    requires s.op.Configuring? && s.op.applied > 0 && Enabled(s, FinishConfigure(started))
    ensures var b := Apply(s, FinishConfigure(started));
            && (Properties.WaitsForConfigs(s.kind) ==> Properties.Honoured(b))
            && (s.kind.Packages? || s.kind.Oracle? ==>
                  |s.contexts| <= |b.contexts| && forall k | 0 <= k < |s.contexts| :: !Live(b.contexts[k]))
  {
    ReachableInv(a, es);
    if Properties.WaitsForConfigs(s.kind) {
      Properties.EnsureHonours(s, true, started);
    }
    if s.kind.Packages? || s.kind.Oracle? {
      Outcomes.AppliedReplaces(s, started);
    }
  }

  class Runner {
    const kind: Kind
    var dirs: map<string, set<string>>
    var current: Option<string>
    var configs: Option<set<string>>
    var contexts: seq<Launched>
    var running: Option<nat>
    var halted: bool
    ghost var op: Op   // which instruction holds the router's mutex, and how far it is

    ghost function State(): Agent
      reads this
    {
      Agent(kind, dirs, current, configs, contexts, running, op, halted)
    }

    constructor (kind: Kind, dirs: map<string, set<string>>, current: Option<string>)
      ensures State() == Agent(kind, dirs, current, None, [], None, Idle, false)
    {
      this.kind, this.dirs, this.current := kind, dirs, current;
      configs, contexts, running, halted, op := None, [], None, false, Idle;
    }

    predicate IsRunning()
      reads this
    {
      running.Some? && running.value < |contexts| && RunningContext.IsRunning(contexts[running.value].ctx)
    }

    predicate ExeExists()
      reads this
    {
      current.Some? && current.value in dirs && ExeName(kind) in dirs[current.value]
    }

    /** CommandHandler.Stop up to its claim; the signals and the wait are steps of the context. */
    method StopTracked()
      modifies this`contexts
      ensures State() == HandlerStop(old(State()))
    {
      if running.Some? && running.value < |contexts| {
        var l := contexts[running.value];
        var claimed := !l.ctx.stopping && RunningContext.IsRunning(l.ctx);
        var ctx := l.ctx.(stopping := l.ctx.stopping || claimed,
                          callers := l.ctx.callers + [if claimed then RunningContext.Claimed else RunningContext.Declined]);
        contexts := contexts[running.value := l.(ctx := ctx)];
      }
    }

    method Stop()
      modifies this`contexts, this`running
      ensures State() == RunnerStop(old(State()))
    {
      StopTracked();
      running := None;
    }

    /** StartAgentCommand, the waiter's goroutine and the assignment to running. */
    method Track()
      requires current.Some?
      modifies this`contexts, this`running
      ensures running == Some(|old(contexts)|)
      ensures contexts == old(contexts) + [Launched(current.value, RunningContext.STARTED, false)]
    {
      running := Some(|contexts|);
      contexts := contexts + [Launched(current.value, RunningContext.STARTED, false)];
    }

    /** startOk is what starting the command would give, if it comes to that and the executable exists. */
    method EnsureTelegraf(applyConfigs: bool, startOk: bool) returns (started: bool, signalled: bool)
      requires kind.Telegraf?
      modifies this
      ensures started == Starts(old(State()), applyConfigs, startOk)
      ensures State() == Ensure(old(State()), applyConfigs, started)
      ensures signalled <==> ExePresent(old(State())) && TracksRunning(old(State())) && applyConfigs
    {
      StartsIsPossible(State(), applyConfigs, startOk);
      if !ExeExists() {
        StopTracked();
        return false, false;
      }
      if IsRunning() {
        return false, applyConfigs;   // HUP makes it reload its configuration
      }
      if startOk {
        Track();
      }
      return startOk, false;
    }

    /** A listing of config.d that holds, possibly among other files, one named file per config id. */
    ghost predicate Lists(names: seq<string>)
      reads this
    {
      configs.Some? ==> forall id :: id in configs.value <==> id + Extension(kind) in names
    }

    method Readdirnames() returns (names: seq<string>)
      requires configs.Some?
      ensures Lists(names)
    {
      names := [];
      var rest := configs.value;
      while rest != {}
        invariant rest <= configs.value
        invariant forall id :: id in configs.value && id !in rest <==> id + Extension(kind) in names
      {
        var next :| next in rest;
        forall id
          ensures id + Extension(kind) == next + Extension(kind) ==> id == next
        {
          if id + Extension(kind) == next + Extension(kind) {
            SameName(id, next, Extension(kind));
          }
        }
        names := names + [next + Extension(kind)];
        rest := rest - {next};
      }
    }

    /** The readiness test filebeat and packages share: the link, a config file and the executable. */
    method HasConfigsAndExeReady() returns (ready: bool)
      ensures ready == (HasConfig(State()) && ExePresent(State()))
    {
      if current.None? || current.value !in dirs {
        return false;
      }
      if configs.None? {
        return false;
      }
      var names := Readdirnames();
      var hasConfigs := false;
      for i := 0 to |names|
        invariant !hasConfigs && forall j | 0 <= j < i :: !HasExtension(names[j], Extension(kind))
      {
        if HasExtension(names[i], Extension(kind)) {
          hasConfigs := true;
          ghost var id := names[i][..|names[i]| - |Extension(kind)|];
          assert id + Extension(kind) == names[i];
          assert id in configs.value;
          break;
        }
      }
      if !hasConfigs {
        forall id | id in configs.value
          ensures false
        {
          assert HasExtension(id + Extension(kind), Extension(kind));
        }
        return false;
      }
      return ExeExists();
    }

    method EnsureFilebeat(applyConfigs: bool, startOk: bool) returns (started: bool)
      requires kind.Filebeat?
      modifies this
      ensures started == Starts(old(State()), applyConfigs, startOk)
      ensures State() == Ensure(old(State()), applyConfigs, started)
    {
      StartsIsPossible(State(), applyConfigs, startOk);
      var ready := HasConfigsAndExeReady();
      if !ready {
        StopTracked();
        return false;
      }
      if IsRunning() {
        return false;
      }
      if startOk {
        Track();
      }
      return startOk;
    }

    method EnsurePackages(applyConfigs: bool, startOk: bool) returns (started: bool)
      requires kind.Packages?
      modifies this
      ensures started == Starts(old(State()), applyConfigs, startOk)
      ensures State() == Ensure(old(State()), applyConfigs, started)
    {
      StartsIsPossible(State(), applyConfigs, startOk);
      var ready := HasConfigsAndExeReady();
      if !ready {
        Stop();
        return false;
      }
      if IsRunning() {
        if applyConfigs {
          Stop();
        } else {
          return false;
        }
      }
      if startOk {
        Track();
      }
      return startOk;
    }

    method EnsureOracle(applyConfigs: bool, startOk: bool) returns (started: bool)
      requires kind.Oracle?
      modifies this
      ensures started == Starts(old(State()), applyConfigs, startOk)
      ensures State() == Ensure(old(State()), applyConfigs, started)
    {
      StartsIsPossible(State(), applyConfigs, startOk);
      if IsRunning() {
        if applyConfigs {
          Stop();
        } else {
          return false;
        }
      }
      started := startOk && ExeExists();
      if started {
        Track();
      } else {
        halted := true;   // log.Fatal
      }
    }

    /** Every kind: what it starts, replaces and signals, and the machine's step. */
    method EnsureRunningState(applyConfigs: bool, startOk: bool) returns (started: bool, signalled: bool)
      modifies this
      ensures started == Starts(old(State()), applyConfigs, startOk)
      ensures State() == Ensure(old(State()), applyConfigs, started)
      ensures signalled <==> kind.Telegraf? && ExePresent(old(State())) && old(IsRunning()) && applyConfigs
      ensures started ==> |contexts| == |old(contexts)| + 1 && running == Some(|old(contexts)|)
                          && contexts[|old(contexts)|] == Launched(current.value, RunningContext.STARTED, false)
    {
      signalled := false;
      match kind
      case Telegraf => started, signalled := EnsureTelegraf(applyConfigs, startOk);
      case Filebeat => started := EnsureFilebeat(applyConfigs, startOk);
      case Packages => started := EnsurePackages(applyConfigs, startOk);
      case Oracle => started := EnsureOracle(applyConfigs, startOk);
    }

    /** handleContentConfigurationOp: one operation on its file, counted unless the file system refused it. */
    method HandleContentOp(e: Event) returns (applied: bool)
      requires kind.Filebeat? && op.Configuring? && !halted && configs.Some? && OpPossible(kind, e)
      modifies this`configs, this`op
      ensures Enabled(old(State()), e) && State() == Apply(old(State()), e) && configs.Some?
      ensures op == Configuring(old(op).applied + (if applied then 1 else 0))
      ensures applied <==> !e.OtherConfig? && !OpFails(e)
    {
      match e {
        case WriteConfig(id, result) =>
          if result != NotOpened {
            configs := Some(configs.value + {id});
          }
          applied := result == Written;
        case RemoveConfig(id, ok) =>
          if ok && id in configs.value {
            configs := Some(configs.value - {id});
          }
          applied := ok;
        case _ =>
          applied := false;
      }
      op := Configuring(op.applied + (if applied then 1 else 0));
    }

    /** handleTelegrafConfigurationOp on the keys of the map; a failed conversion opens nothing. */
    method HandleTelegrafOp(e: Event) returns (applied: bool)
      requires kind.Telegraf? && op.Configuring? && !halted && configs.Some? && OpPossible(kind, e)
      modifies this`configs, this`op
      ensures Enabled(old(State()), e) && State() == Apply(old(State()), e) && configs.Some?
      ensures op == Configuring(old(op).applied + (if applied then 1 else 0))
      ensures applied <==> (e.WriteConfig? && e.result == Written) || (e.RemoveConfig? && e.id in old(configs).value)
    {
      applied := false;
      match e {
        case WriteConfig(id, result) =>
          if result == Written {
            configs := Some(configs.value + {id});
            applied := true;
          }
        case RemoveConfig(id, ok) =>
          if id in configs.value {
            configs := Some(configs.value - {id});
            applied := true;
          }
        case _ =>
      }
      op := Configuring(op.applied + (if applied then 1 else 0));
    }

    /** One operation of packages or oracle: a file the JSON was written to, or the reason to give up. */
    method HandleJsonOp(e: Event) returns (applied: bool, failed: bool)
      requires RestartsToApply(kind) && op.Configuring? && !halted && configs.Some? && OpPossible(kind, e)
      modifies this`configs, this`op
      ensures Enabled(old(State()), e) && State() == Apply(old(State()), e) && configs.Some?
      ensures failed == OpFails(e)
      ensures op == if failed then Idle else Configuring(old(op).applied + (if applied then 1 else 0))
    {
      applied, failed := false, false;
      match e {
        case WriteConfig(id, result) =>
          if result != NotOpened {
            configs := Some(configs.value + {id});
          }
          applied, failed := result == Written, result != Written;
        case RemoveConfig(id, ok) =>
          if !ok {
            failed := true;
          } else if id in configs.value {
            configs := Some(configs.value - {id});
            applied := true;
          }
        case _ =>
      }
      op := if failed then Idle else Configuring(op.applied + (if applied then 1 else 0));
    }

    /** ensureConfigsDir: MkdirAll keeps what an existing directory holds. */
    method EnsureConfigsDir(ok: bool)
      modifies this`configs
      ensures configs == if ok then Some(Ids(old(State()))) else old(configs)
    {
      if ok && configs.None? {
        configs := Some({});
      }
    }

    /** The loop of filebeat and telegraf: every operation is tried, and a failed one is only not counted. */
    method ProcessEveryOp(ops: seq<Event>) returns (applied: nat)
      requires !RestartsToApply(kind) && op == Configuring(0) && !halted && configs.Some?
      requires forall e | e in ops :: OpPossible(kind, e)
      modifies this`configs, this`op
      ensures op == Configuring(applied)
      ensures Exec(old(State()), ops) == Some(State())
    {
      applied := 0;
      ghost var begun := State();
      for i := 0 to |ops|
        invariant configs.Some? && op == Configuring(applied)
        invariant Exec(begun, ops[..i]) == Some(State())
      {
        assert ops[i] in ops;
        var ok;
        if kind.Filebeat? {
          ok := HandleContentOp(ops[i]);
        } else {
          ok := HandleTelegrafOp(ops[i]);
        }
        if ok {
          applied := applied + 1;
        }
        Properties.ExecSnoc(begun, ops[..i], ops[i]);
        assert ops[..i] + [ops[i]] == ops[..i + 1];
      }
      assert ops[..|ops|] == ops;
    }

    /** The same operation as one more step of a run. */
    method StepJsonOp(ghost begun: Agent, ghost done: seq<Event>, e: Event) returns (applied: bool, failed: bool)
      requires RestartsToApply(kind) && op.Configuring? && !halted && configs.Some? && OpPossible(kind, e)
      requires Properties.IsPath(begun, done, State())
      modifies this`configs, this`op
      ensures Properties.IsPath(begun, done + [e], State()) && configs.Some? && failed == OpFails(e)
      ensures op == if failed then Idle else Configuring(old(op).applied + (if applied then 1 else 0))
    {
      applied, failed := HandleJsonOp(e);
      Properties.ExecSnoc(begun, done, e);
    }

    /** The loop of packages and oracle: the first operation that fails abandons the rest. */
    method ProcessJsonOps(ops: seq<Event>) returns (applied: nat, failed: bool, ghost tried: nat)
      requires RestartsToApply(kind) && op == Configuring(0) && !halted && configs.Some?
      requires forall e | e in ops :: OpPossible(kind, e)
      modifies this`configs, this`op
      ensures tried <= |ops| && if failed then 0 < tried else tried == |ops|
      ensures failed <==> Fails(kind, Opened, ops)
      ensures forall i | 0 <= i < tried :: OpFails(ops[i]) <==> failed && i == tried - 1
      ensures op == if failed then Idle else Configuring(applied)
      ensures Properties.IsPath(old(State()), ops[..tried], State())
    {
      applied, failed := 0, false;
      ghost var begun := State();
      for i := 0 to |ops|
        invariant configs.Some? && op == Configuring(applied) && !failed
        invariant forall j | 0 <= j < i :: !OpFails(ops[j])
        invariant Properties.IsPath(begun, ops[..i], State())
      {
        assert ops[i] in ops;
        var ok;
        ok, failed := StepJsonOp(begun, ops[..i], ops[i]);
        assert ops[..i] + [ops[i]] == ops[..i + 1];
        if failed {
          assert OpFails(ops[i]);
          tried := i + 1;
          return;
        }
        if ok {
          applied := applied + 1;
        }
      }
      tried := |ops|;
    }

    method ProcessOps(ops: seq<Event>) returns (applied: nat, failed: bool, ghost tried: nat)
      requires op == Configuring(0) && !halted && configs.Some?
      requires forall e | e in ops :: OpPossible(kind, e)
      modifies this`configs, this`op
      ensures tried <= |ops| && (!failed ==> tried == |ops|)
      ensures failed <==> Fails(kind, Opened, ops)
      ensures op == if failed then Idle else Configuring(applied)
      ensures Properties.IsPath(old(State()), ops[..tried], State())
    {
      if RestartsToApply(kind) {
        applied, failed, tried := ProcessJsonOps(ops);
      } else {
        applied := ProcessEveryOp(ops);
        failed, tried := false, |ops|;
        assert ops[..|ops|] == ops;
      }
    }

    /**
     ProcessConfig of every kind. It fails when the configs directory or filebeat's main config file
     cannot be made, before any operation, or when packages or oracle give up on one.
     */
    method ProcessConfig(ops: seq<Event>, dirOk: bool, mainOk: bool) returns (applied: nat, failed: bool, ghost trace: seq<Event>)
      requires op.Idle? && !halted
      requires forall e | e in ops :: OpPossible(kind, e)
      modifies this`configs, this`op
      ensures Properties.IsPath(old(State()), trace, State())
      ensures trace != [] && trace[0] == BeginConfigure(OpeningOf(kind, dirOk, mainOk)) && trace[1..] <= ops
      ensures failed <==> Fails(kind, OpeningOf(kind, dirOk, mainOk), ops)
      ensures !failed ==> trace[1..] == ops
      ensures op == if failed then Idle else Configuring(applied)
    {
      ghost var s0 := State();
      ghost var opening := OpeningOf(kind, dirOk, mainOk);
      EnsureConfigsDir(kind.Telegraf? || dirOk);   // telegraf's map is always there
      if (!kind.Telegraf? && !dirOk) || (kind.Filebeat? && !mainOk) {
        trace := Properties.Walk(s0, [], s0, BeginConfigure(opening), State());
        return 0, true, trace;
      }
      op := Configuring(0);
      ghost var begun, tried := State(), 0;
      ghost var head := Properties.Walk(s0, [], s0, BeginConfigure(opening), begun);
      applied, failed, tried := ProcessOps(ops);
      Properties.JoinPaths(s0, head, begun, ops[..tried], State());
      trace := head + ops[..tried];
      assert ops[..|ops|] == ops && trace[1..] == ops[..tried];
    }

    /** What follows a ProcessConfig that did not fail: nothing if nothing was applied. */
    method ApplyConfigs(applied: nat, startOk: bool) returns (started: bool, signalled: bool)
      requires op == Configuring(applied) && !halted
      modifies this
      ensures Enabled(old(State()), FinishConfigure(started)) && State() == Apply(old(State()), FinishConfigure(started))
      ensures applied == 0 ==> State() == old(State()).(op := Idle)
      ensures started <==> applied > 0 && startOk && Outcomes.FilesThere(State()) && Outcomes.MayStart(kind, old(IsRunning()), true)
      ensures signalled <==> applied > 0 && kind.Telegraf? && Outcomes.FilesThere(State()) && old(IsRunning())
    {
      started, signalled := false, false;
      if applied > 0 {
        StartsIsPossible(State(), true, startOk);
        ghost var s := State();
        started, signalled := EnsureRunningState(true, startOk);
        EnsureKeepsFiles(s, true, started);
      }
      op := Idle;
    }

    /**
     The router's ProcessConfigure when nothing interleaves: a path of the machine that ends with an
     EnsureRunningState to apply configs exactly when ProcessConfig did not fail and applied something.
     Then a running telegraf is signalled, a running filebeat left alone, a running packages or oracle
     replaced, and filebeat and packages are within the interface's contract.
     */
    method ProcessConfigure(ops: seq<Event>, dirOk: bool, mainOk: bool, startOk: bool)
        returns (applied: nat, failed: bool, started: bool, signalled: bool, ghost trace: seq<Event>)
      requires op.Idle? && !halted
      requires forall e | e in ops :: OpPossible(kind, e)
      modifies this
      ensures Properties.IsPath(old(State()), trace, State()) && op.Idle?
      ensures trace != [] && trace[0] == BeginConfigure(OpeningOf(kind, dirOk, mainOk))
      ensures failed <==> Fails(kind, OpeningOf(kind, dirOk, mainOk), ops)
      ensures if failed then trace[1..] <= ops else trace[1..] == ops + [FinishConfigure(started)]
      ensures failed || applied == 0 ==> contexts == old(contexts) && running == old(running) && !halted
      ensures started <==> !failed && applied > 0 && startOk && Outcomes.FilesThere(State())
                           && Outcomes.MayStart(kind, old(IsRunning()), true)
      ensures signalled <==> !failed && applied > 0 && kind.Telegraf? && Outcomes.FilesThere(State()) && old(IsRunning())
      ensures !failed && applied > 0 && Inv(old(State())) && (kind.Packages? || kind.Oracle?) ==>
                |old(contexts)| <= |contexts| && forall k | 0 <= k < |old(contexts)| :: !Live(contexts[k])
      ensures !failed && applied > 0 && Inv(old(State())) && Properties.WaitsForConfigs(kind) ==> Properties.Honoured(State())
    {
      ghost var s0 := State();
      started, signalled := false, false;
      applied, failed, trace := ProcessConfig(ops, dirOk, mainOk);
      if failed {
        return;
      }
      ghost var front, s := trace, State();
      started, signalled := ApplyConfigs(applied, startOk);
      trace := Properties.Walk(s0, front, s, FinishConfigure(started), State());
      if applied > 0 && Inv(s0) {
        AppliedAfter(s0, front, s, started);
      }
    }

    /** Lstat and Readlink: whether the link is missing, right, or has to go. */
    method CheckCurrentLink(version: string, ok: bool) returns (ghost e: Event)
      requires op.Installing? && op.version == version && op.stage == CheckLink && !halted
      modifies this`op
      ensures e == InstallStep(ok) && Enabled(old(State()), e) && State() == Apply(old(State()), e)
      ensures op == if !ok then Idle
                    else old(op).(stage := if current.None? then StopPrevious
                                           else if current.value == version then EnsureRunning else RemoveLink)
    {
      e := InstallStep(ok);
      op := if !ok then Idle
            else op.(stage := if current.None? then StopPrevious
                              else if current.value == version then EnsureRunning else RemoveLink);
    }

    method RemoveCurrentLink(ok: bool) returns (ghost e: Event)
      requires op.Installing? && op.stage == RemoveLink && !halted
      modifies this`op, this`current
      ensures e == InstallStep(ok) && Enabled(old(State()), e) && State() == Apply(old(State()), e)
      ensures op == if ok then old(op).(stage := StopPrevious) else Idle
      ensures ok ==> current.None?
    {
      e := InstallStep(ok);
      if ok {
        current := None;
      }
      op := if ok then op.(stage := StopPrevious) else Idle;
    }

    method StopPreviousVersion() returns (ghost e: Event)
      requires op.Installing? && op.stage == StopPrevious && !halted
      modifies this`contexts, this`running, this`op
      ensures e == InstallStop && Enabled(old(State()), e) && State() == Apply(old(State()), e)
      ensures op == old(op).(stage := Relink)
    {
      e := InstallStop;
      Stop();
      op := op.(stage := Relink);
    }

    method LinkVersion(version: string, ok: bool) returns (ghost e: Event)
      requires op.Installing? && op.version == version && op.stage == Relink && !halted
      modifies this`op, this`current
      ensures e == InstallStep(ok) && Enabled(old(State()), e) && State() == Apply(old(State()), e)
      ensures op == if ok then old(op).(stage := EnsureRunning) else Idle
      ensures ok ==> current == Some(version)
    {
      e := InstallStep(ok);
      if ok {
        current := Some(version);
      }
      op := if ok then op.(stage := EnsureRunning) else Idle;
    }

    /**
     ensureCurrentSymlink: remove the old link, stop the old process, and only then link the new
     version. The flags are what each file system call returns.
     */
    method EnsureCurrentSymlink(version: string, lstatOk: bool, removeOk: bool, symlinkOk: bool)
        returns (linked: bool, ghost trace: seq<Event>)
      requires op.Installing? && op.version == version && op.stage == CheckLink && !halted
      modifies this`current, this`contexts, this`running, this`op
      ensures Properties.IsPath(old(State()), trace, State())
      ensures op == if linked then old(op).(stage := EnsureRunning) else Idle
      ensures linked <==> lstatOk && (old(current) == Some(version) || (symlinkOk && (old(current).Some? ==> removeOk)))
      ensures linked ==> current == Some(version)
      ensures InstallStop in trace <==>
              lstatOk && old(current) != Some(version) && (old(current).Some? ==> removeOk)
    {
      ghost var s0, s := State(), State();
      ghost var e := CheckCurrentLink(version, lstatOk);
      trace := Properties.Walk(s0, [], s, e, State());
      if !lstatOk {
        return false, trace;
      }
      if current.Some? {
        if current.value == version {
          return true, trace;
        }
        s := State();
        e := RemoveCurrentLink(removeOk);
        trace := Properties.Walk(s0, trace, s, e, State());
        if !removeOk {
          return false, trace;
        }
      }
      s := State();
      e := StopPreviousVersion();
      trace := Properties.Walk(s0, trace, s, e, State());
      s := State();
      e := LinkVersion(version, symlinkOk);
      trace := Properties.Walk(s0, trace, s, e, State());
      return symlinkOk, trace;
    }

    /** Download into a fresh directory: a failure removes it again, a success is post-processed. */
    method FetchVersion(version: string, exe: string, downloadOk: bool, postOk: bool)
        returns (ready: bool, ghost trace: seq<Event>)
      requires op == Installing(version, exe, Download) && !halted
      modifies this`dirs, this`op
      ensures Properties.IsPath(old(State()), trace, State()) && InstallStop !in trace
      ensures op == if ready then Installing(version, exe, CheckLink) else Idle
      ensures ready <==> downloadOk && postOk
      ensures dirs == if downloadOk then old(dirs)[version := {exe}] else old(dirs) - {version}
    {
      ghost var s0, s := State(), State();
      if !downloadOk {
        op := op.(stage := Cleanup);
        trace := Properties.Walk(s0, [], s, InstallStep(false), State());
        s := State();
        dirs, op := dirs - {version}, Idle;
        trace := Properties.Walk(s0, trace, s, InstallStep(true), State());
        return false, trace;
      }
      dirs, op := dirs[version := {exe}], op.(stage := PostInstall);
      trace := Properties.Walk(s0, [], s, InstallStep(true), State());
      s := State();
      op := if postOk then op.(stage := CheckLink) else Idle;
      trace := Properties.Walk(s0, trace, s, InstallStep(postOk), State());
      return postOk, trace;
    }

    method MakeVersionDir(version: string, exe: string, mkdirOk: bool) returns (ghost trace: seq<Event>)
      requires op == Installing(version, exe, CheckDir) && !halted && version !in dirs
      modifies this`dirs, this`op
      ensures Properties.IsPath(old(State()), trace, State()) && InstallStop !in trace
      ensures op == if mkdirOk then Installing(version, exe, Download) else Idle
      ensures dirs == if mkdirOk then old(dirs)[version := {}] else old(dirs)
    {
      ghost var s0, s := State(), State();
      op := op.(stage := MakeDir);
      trace := Properties.Walk(s0, [], s, InstallStep(true), State());
      s := State();
      if mkdirOk {
        dirs := dirs[version := {}];
      }
      op := if mkdirOk then op.(stage := Download) else Idle;
      trace := Properties.Walk(s0, trace, s, InstallStep(mkdirOk), State());
    }

    /** Fetch a version that is not on disk yet; a failed download leaves the directories as they were. */
    method InstallVersionDir(version: string, exe: string, mkdirOk: bool, downloadOk: bool, postOk: bool)
        returns (ready: bool, ghost trace: seq<Event>)
      requires op == Installing(version, exe, CheckDir) && !halted
      modifies this`dirs, this`op
      ensures Properties.IsPath(old(State()), trace, State()) && InstallStop !in trace
      ensures op == if ready then Installing(version, exe, CheckLink) else Idle
      ensures ready <==> version in old(dirs) || (mkdirOk && downloadOk && postOk)
      ensures dirs == if version in old(dirs) || !mkdirOk || !downloadOk then old(dirs) else old(dirs)[version := {exe}]
    {
      ghost var s0 := State();
      if version in dirs {
        op := op.(stage := CheckLink);
        trace := Properties.Walk(s0, [], s0, InstallStep(true), State());
        return true, trace;
      }
      trace := MakeVersionDir(version, exe, mkdirOk);
      if !mkdirOk {
        return false, trace;
      }
      ghost var s, more := State(), [];
      ready, more := FetchVersion(version, exe, downloadOk, postOk);
      Properties.JoinPaths(s0, trace, s, more, State());
      trace := trace + more;
      assert dirs == if downloadOk then old(dirs)[version := {exe}] else old(dirs);
    }

    /** The last stage of an install. */
    method EnsureInstalled(startOk: bool) returns (started: bool)
      requires op.Installing? && op.stage == EnsureRunning && !halted
      modifies this
      ensures Enabled(old(State()), InstallEnsure(started)) && State() == Apply(old(State()), InstallEnsure(started))
      ensures started == Starts(old(State()), false, startOk)
      ensures op.Idle? && current == old(current)
    {
      var signalled;
      started, signalled := EnsureRunningState(false, startOk);
      op := Idle;
    }

    /**
     ProcessInstall when nothing interleaves: a path of the machine that reaches EnsureRunningState
     exactly when no stage failed, with CURRENT at the version.
     */
    method ProcessInstall(version: string, exe: string, mkdirOk: bool, downloadOk: bool, postOk: bool,
                          lstatOk: bool, removeOk: bool, symlinkOk: bool, startOk: bool)
        returns (reached: bool, ghost trace: seq<Event>)
      requires op.Idle? && !halted
      modifies this
      ensures Properties.IsPath(Apply(old(State()), BeginInstall(version, exe)), trace, State())
      ensures op.Idle?
      ensures reached <==>
              && (version in old(dirs) || (mkdirOk && downloadOk && postOk))
              && lstatOk && (old(current) == Some(version) || (symlinkOk && (old(current).Some? ==> removeOk)))
      ensures reached ==> current == Some(version)
    {
      op := Installing(version, exe, CheckDir);
      ghost var s0 := State();
      ghost var more: seq<Event>;
      reached, trace := InstallVersionDir(version, exe, mkdirOk, downloadOk, postOk);
      if !reached {
        return;
      }
      ghost var s := State();
      reached, more := EnsureCurrentSymlink(version, lstatOk, removeOk, symlinkOk);
      Properties.JoinPaths(s0, trace, s, more, State());
      trace := trace + more;
      if !reached {
        return;
      }
      s := State();
      var started := EnsureInstalled(startOk);
      trace := Properties.Walk(s0, trace, s, InstallEnsure(started), State());
    }
  }
}
