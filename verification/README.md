# Envoy verification

The Envoy supervises telegraf, filebeat, packages and oracle agents on behalf of a remote Ambassador.
This project models the parts of it in which many things happen at once, or in which a text must be
understood exactly, and proves what every run and every input keeps.

`dafny verify dfyconfig.toml` checks the whole project.

| file | models |
|---|---|
| `RunningContext.dfy`, `CommandHandler.dfy` | one agent process, its waiter and any number of concurrent Stop calls |
| `AgentMachine.dfy`, `AgentProperties.dfy` | the supervision of an agent type: installs, the CURRENT link, configures, exits, restart timers, detaches |
| `AgentOutcomes.dfy` | what each step of that machine comes to, kind by kind |
| `AgentRunner.dfy` | the four runners and the router's handling, statement by statement, as steps of that machine |
| `EnsureOverlap.dfy` | `EnsureRunningState` and Stop in their separate steps, called by instructions, restart timers and detaches |
| `StartPhrase.dfy` | waiting for a phrase on two pipes |
| `Connection.dfy`, `ConnectionProperties.dfy` | attachments to an Ambassador and the goroutines they leave behind |
| `LineLexer.dfy`, `LexicalGrammar.dfy` | Influx line protocol: the lexer, and the declared lexical grammar it is exact for |
| `LineParser.dfy`, `LineMetrics.dfy`, `LineValues.dfy`, `LineRoundTrip.dfy` | its grammar and parser, captured values and metrics, which numbers and texts are read as what, and a printer |
| `Console.dfy` | from an agent's console output to metrics |
| `TelegrafConfigs.dfy`, `ConfigFiles.dfy` | the telegraf configuration store, and config files written without truncation |
| `IngestQueue.dfy`, `LineProtocolIngest.dfy`, `IngestPaths.dfy` | the bounded ingest queues, and the two conversions that feed them |

A concurrent part is a transition system: a state, events that carry their outcome, `Enabled` and
`Apply`, and `Exec` for a whole trace. Statements about runs hold for every trace, so for every
interleaving. Where the code updates an object in place, a class has the same fields and its methods
are proved to be steps of that system.

## What the code does not keep

Some promises hold only under a condition; the condition is proved to be exact.

- A detach is meant to leave no agent running (agents/agents_router.go:43-47). The restart timer of a
  process that exited earlier can fire between the stop and the purge, and an instruction still in
  progress can run on to its start; then a process outlives the detach. It cannot exactly when neither
  of the two can start the agent. `AgentProperties.DetachCleansUpExactlyWhen`.
- A process is meant to run only while configs and the executable are available
  (agents/agents.go:54-59). The executable is always there at rest. Telegraf and oracle never wait
  for configs: `AgentProperties.StartsWaitForConfigsExactlyFor`. Filebeat and packages do, and then the
  contract holds in every resting state of a run exactly when no purge at rest meets a live process and no
  instruction is given up, with a process live, after its last config is gone:
  `AgentProperties.HonouredExactlyWithoutBreach`. Both can happen: `AbandonedInstruction` (packages:
  a later operation fails after the last config was removed), `PurgedWhileLive` (filebeat: a restart
  fires within a detach).
- A restart timer takes no lock, and a Stop forgets the tracked process only after it has waited for it.
  Two live processes arise exactly when a call starts one next to a live process whose own call it
  overlaps or whose reference has been overwritten. `EnsureOverlap.SingleExactlyWithoutBlindStart`;
  `TimerOverlapsInstruction` and `StopForgetsStart` are runs in which they do.
- A Ready that was received but acted upon only after its attach returned raises `attached` with no
  attachment left, or for a next one that has not said Ready.
  `ConnectionProperties.DisciplineExactlyWithoutLateReady`, `LateReadyHappens`, `StaleReadyRaises`.
- From ten Ready instructions on, a goroutine can be left blocked on `errChan` for good.
  `ConnectionProperties.SenderSticksExactlyFromTen`.
- A string field that spells a boolean, quoted or not, does not come back as a string; a false one
  vanishes. `LineRoundTrip.StringKeptUnlessBoolean`.
- A packages or oracle config file holds its latest encoding exactly when no earlier one was longer.
  `ConfigFiles.HoldsLatestExactlyWhen`.
- The line protocol and the JSON path give one producer metric the same strings exactly when it has no
  boolean field other than those the grammar drops (`f`, `F`, `False`, `FALSE`) and no string field that
  spells one of the grammar's booleans: the string "F" survives only as JSON, the boolean `false` only as
  a line. They give it the same tags exactly when no tag value reads as an integer: the tag "5i" is "5" on
  the line path. `IngestPaths.PathsAgreeExactlyWhen`, `PathsDiffer`.

## Model

| member | source | states |
|---|---|---|
| `RunningContext.ReachableInv` | agents/command_handler.go:116-147 | in every interleaving a live process has a non-nil cmd and an open stopped channel, stopped closes only after cmd is cleared, its own cancel function is called exactly by the waiter or a returned claim, and at most one Stop call has claimed |
| `RunningContext.StopClaimsExactlyWhen` | agents/command_handler.go:220-225 | a Stop claims exactly when none did before and the process has not been seen to end, or was seen killed by a signal with cmd not yet cleared |
| `RunningContext.WaiterCanFinish` | agents/command_handler.go:116-147 | from every reachable state the process can end and its waiter run on to its decision, whatever the Stop calls do |
| `RunningContext.RestartExactlyWhenNotStopped` | agents/command_handler.go:134-146 | the waiter schedules exactly one restart if no Stop ever claimed the context, and none otherwise, in every interleaving |
| `RunningContext.SignalsAtMostOnce` | agents/command_handler.go:215-248 | over any number of concurrent Stop calls, at most one claims, TERM and KILL are each attempted at most once, never KILL without TERM nor TERM without a claim |
| `RunningContext.CallerFollowsScript` | agents/command_handler.go:222-247 | each Stop call's own events are exactly guard, TERM, then timeout and KILL or the wake-up, then the return, whatever else runs |
| `RunningContext.StopCanReturnInTime` | agents/command_handler.go:232-244 | from every reachable state a claiming call can return without KILL once the process ends |
| `RunningContext.StopCanKill` | agents/command_handler.go:232-239 | and with KILL after a timeout, without any step of others |
| `RunningContext.ReturnMeansStoppedOrKilled` | agents/command_handler.go:232-244 | the claiming call returns only once stopped is closed or KILL was attempted, and has called the cancel function |
| `CommandHandler.AgentRunningContext.StopGuard` | agents/command_handler.go:220-225 | the locked section claims exactly when not stopping and running, and is one step of the context |
| `CommandHandler.AgentRunningContext.Reap` | agents/command_handler.go:117 | reaping keeps the context's invariant and is its step |
| `CommandHandler.AgentRunningContext.ClearCmd` | agents/command_handler.go:135 | clearing cmd keeps the context's invariant and is its step |
| `CommandHandler.AgentRunningContext.CloseStopped` | agents/command_handler.go:136 | the channel is still open when it is closed, so close cannot panic |
| `CommandHandler.AgentRunningContext.CancelContext` | agents/command_handler.go:137 | calling cancel keeps the context's invariant and is its step |
| `CommandHandler.AgentRunningContext.DecideRestart` | agents/command_handler.go:139-146 | the decision keeps the context's invariant and restarts exactly when the machine does |
| `CommandHandler.AgentRunningContext.WaitOnAgentCommand` | agents/command_handler.go:116-147 | run alone, the waiter clears, closes, cancels and restarts exactly if no stop was under way |
| `AgentMachine.HandlerStopClaims` | agents/command_handler.go:215-248 | stopping the tracked context leaves no live unclaimed process and moves no waiter |
| `AgentMachine.EnsureKeeps` | agents/agents.go:54-59 | EnsureRunningState keeps one live process at most, of CURRENT's version, launches at most one, leaves none live when the agent is not ready, and leaves the agent running when it is ready and either was running with nothing to restart or the start worked |
| `AgentMachine.ReachableInv` | agents/agents_router.go:75-186 | every step of installs, configures, exits, waiters, timers and detaches keeps the invariant on processes, link and directories |
| `AgentOutcomes.StartsExactlyWhen` | agents/filebeat.go:80-115 | by kind and executable name, EnsureRunningState can start a process exactly when the files it asks for are there and a running process need not stay |
| `AgentOutcomes.StartedOutcome` | agents/telegraf.go:231-254 | a start appends one process of CURRENT's version, tracks it, and leaves no earlier one live |
| `AgentOutcomes.RunningIsLeft` | agents/telegraf.go:218-229 | a running telegraf or filebeat is left as it is even to apply configs, and every kind without configs to apply |
| `AgentOutcomes.RunningIsReplaced` | agents/pkgagent.go:75-103 | applying configs to a running packages or oracle agent leaves the old process stopping and none of the old ones live, and a start can follow |
| `AgentOutcomes.AppliedReplaces` | agents/oracle.go:55-83 | after an applied configure of packages or oracle no process started before it is live, in every state of the invariant |
| `AgentOutcomes.UnreadyIsStopped` | agents/filebeat.go:83-87 | without their files telegraf, filebeat and packages end with nothing live, a running process claimed, and only packages forgets it |
| `AgentOutcomes.FailedStartOutcome` | agents/oracle.go:74-79 | a start that fails changes nothing, but ends the Envoy for oracle, with or without its files |
| `AgentOutcomes.WriteOutcome` | agents/pkgagent.go:124-132 | by kind, a written or merely created config is there, no other file changes, and what is not written is not counted or makes packages and oracle give up |
| `AgentOutcomes.RemoveOutcome` | agents/agents.go:197-208 | by kind, a config that could be removed is gone, no other file changes, and only filebeat counts a needless removal |
| `AgentOutcomes.OpenAndPurgeOutcome` | agents/agents.go:216-224 | opening a configure keeps every file, a purge none, and neither touches anything else |
| `AgentOutcomes.RouterStopOutcome` | agents/agents_router.go:94-99 | a detach's stop leaves nothing live, claims a running process and forgets it |
| `AgentOutcomes.ExitedComesBack` | agents/command_handler.go:134-146 | a tracked process that exits without a Stop is followed, by its waiter and timer alone, by a live one of CURRENT's version while the files are there |
| `AgentProperties.VersionConsistency` | agents/agents_router.go:222-270 | in every reachable state, while CURRENT points to v, a tracked live process that no Stop claimed was launched from v |
| `AgentProperties.SingleLiveProcess` | agents/telegraf.go:209-265 | at most one successfully started process is alive and unclaimed, and the runner tracks it |
| `AgentProperties.FiresOncePerExit` | agents/command_handler.go:139-146 | in every run each context's restart timer fires at most once, only after its waiter decided on it, and is pending until then |
| `AgentProperties.CurrentIsInstalled` | agents/agents_router.go:113-148 | CURRENT is absent or names a directory with an extracted executable, after installs failing at any stage |
| `AgentProperties.InstallReachesItsVersion` | agents/agents_router.go:101-151 | an install that reaches EnsureRunningState leaves CURRENT at its version and called the runner's Stop exactly when the link was missing or different, whatever interleaves |
| `AgentProperties.NoConfigNoLaunch` | agents/agents.go:226-274 | without a config file filebeat and packages start nothing until one is created, timers included |
| `AgentProperties.PurgeHolds` | agents/agents.go:216-224 | for filebeat and packages, no process starts between a purge and the next config file, in any run |
| `AgentProperties.ConfigureHolds` | agents/agents_router.go:153-186 | for filebeat and packages, after an applied configure a live unclaimed process means a config, CURRENT and the executable exist |
| `AgentProperties.StartsAfterPurge` | agents/telegraf.go:209-255 | telegraf and oracle can be started after a purge with nothing configured |
| `AgentProperties.RunsWithoutConfig` | agents/oracle.go:55-85 | telegraf and oracle are started by a configure that leaves no config |
| `AgentProperties.StartsWaitForConfigsExactlyFor` | agents/agents.go:226-274 | for filebeat and packages, and for no other kind, no process starts between a purge and the next config, and an applied configure leaves a process only with a config and the executable |
| `AgentProperties.LiveHasExecutable` | agents/agents_router.go:222-270 | in every run of every kind a live unclaimed process has CURRENT and its executable, except between the removal of the link and the Stop that follows |
| `AgentProperties.HonouredExactlyWithoutBreach` | agents/agents.go:54-59 | in a run of filebeat or packages every resting state has a live process only with a config and the executable, if and only if no purge at rest meets a live process and no instruction is given up without configs while one is live |
| `AgentProperties.AbandonedInstruction` | agents/pkgagent.go:124-143 | a packages run in which an instruction removes the last config, then fails, and leaves the process live at rest |
| `AgentProperties.PurgedWhileLive` | agents/agents_router.go:84-90 | a filebeat run in which a restart fires between a detach's stop and purge and leaves the process live at rest without configs |
| `AgentProperties.DetachCleansUpExactlyWhen` | agents/agents_router.go:75-98 | nothing is live after a detach's purge, nor until another instruction begins, whatever timers, waiters and steps of the instruction in progress come between and after, if and only if neither a pending restart nor that instruction can start the agent |
| `AgentProperties.RelaunchWitness` | agents/command_handler.go:139-146 | whenever a pending restart or the instruction in progress can start the agent, some such run ends with a live process and the configs purged |
| `AgentRunner.Runner.constructor` | agents/agents_router.go:48-73 | the state the machine's runs begin in: configs purged, nothing running |
| `AgentRunner.Runner.StopTracked` | agents/command_handler.go:215-225 | CommandHandler.Stop on the tracked context, as the machine has it |
| `AgentRunner.Runner.Stop` | agents/telegraf.go:262-265 | a runner's Stop, as the machine has it |
| `AgentRunner.Runner.EnsureTelegraf` | agents/telegraf.go:209-255 | telegraf's EnsureRunningState: starts exactly with its executable and nothing running, signals a reload exactly when configs are applied to a running one |
| `AgentRunner.Runner.HasConfigsAndExeReady` | agents/agents.go:228-274 | ready exactly when CURRENT, at least one config file of the right extension in the listing, and the executable exist |
| `AgentRunner.Runner.EnsureFilebeat` | agents/filebeat.go:80-115 | filebeat's EnsureRunningState: starts exactly with a config, its executable and nothing running |
| `AgentRunner.Runner.EnsurePackages` | agents/pkgagent.go:66-105 | packages' EnsureRunningState: starts exactly with a config, its executable, and nothing running or configs to apply |
| `AgentRunner.Runner.EnsureOracle` | agents/oracle.go:55-85 | oracle's EnsureRunningState: tries whenever nothing runs or configs are to be applied, without any readiness test, and a failed start is fatal |
| `AgentRunner.Runner.EnsureRunningState` | agents/agents.go:54-59 | for every kind: when it starts and when it signals, and a start appends and tracks one process of CURRENT's version |
| `AgentRunner.Runner.EnsureConfigsDir` | agents/agents.go:284-291 | the directory exists afterwards with what it held, or, when it cannot be made, nothing changes |
| `AgentRunner.Runner.HandleContentOp` | agents/agents.go:172-212 | one filebeat operation of any type is the machine's step, counted unless refused by the file system or of an unknown type |
| `AgentRunner.Runner.HandleTelegrafOp` | agents/telegraf.go:173-194 | one telegraf operation of any type is the machine's step, counted exactly when it stored a conversion or removed a present key |
| `AgentRunner.Runner.ProcessEveryOp` | agents/filebeat.go:136-145 | filebeat and telegraf try every operation: the loop is a run of the machine and the counter is the machine's |
| `AgentRunner.Runner.HandleJsonOp` | agents/pkgagent.go:124-143 | one packages or oracle operation of any type is the machine's step: written, removed, not counted, or a reason to give up |
| `AgentRunner.Runner.ProcessJsonOps` | agents/pkgagent.go:118-144 | the loop is a run of the machine that stops at exactly the first failing operation |
| `AgentRunner.Runner.ProcessConfig` | agents/filebeat.go:122-152 | of every kind: a path of the machine that fails exactly when the directory or filebeat's main config cannot be made or packages or oracle meet a failing operation, and otherwise has handled every operation |
| `AgentRunner.Runner.ApplyConfigs` | agents/agents_router.go:162-171 | nothing happens when nothing was applied; otherwise, by kind, a process is started or signalled exactly when its files are there |
| `AgentRunner.Runner.ProcessConfigure` | agents/agents_router.go:153-175 | run alone, a configure is a path of the machine ending in EnsureRunningState exactly when it did not fail and applied something; then telegraf is signalled, filebeat left alone, no older packages or oracle process is live, and filebeat and packages keep the interface's contract |
| `AgentRunner.Runner.InstallVersionDir` | agents/agents_router.go:117-139 | a version is fetched only when its directory is missing, and a failed download leaves the directories as they were |
| `AgentRunner.Runner.FetchVersion` | agents/agents_router.go:124-138 | a failed download removes the directory, a success extracts the executable |
| `AgentRunner.Runner.EnsureCurrentSymlink` | agents/agents_router.go:222-270 | a run of the machine that links the version exactly when no call it needs fails, and stops the old process exactly when the link was missing or different |
| `AgentRunner.Runner.EnsureInstalled` | agents/agents_router.go:150 | the last stage starts the agent exactly when it is ready, not running and the start works |
| `AgentRunner.Runner.ProcessInstall` | agents/agents_router.go:101-151 | run alone, an install is a run of the machine that reaches EnsureRunningState exactly when no stage it needs fails |
| `EnsureOverlap.SingleExactlyWithoutBlindStart` | agents/telegraf.go:218-265 | over all interleavings of instructions, restart timers and Stops, at most one process is alive and unclaimed in every state if and only if no call starts one next to a live process whose call overlaps it or that running no longer names |
| `EnsureOverlap.TimersOnlyUnclaimed` | agents/command_handler.go:139-146 | in every interleaving only a process that ended unclaimed has its restart timer set |
| `EnsureOverlap.SerialRunInv` | agents/agents_router.go:110-111 | calls and Stops that begin only when every other is over never leave two live processes |
| `EnsureOverlap.TimerOverlapsInstruction` | agents/command_handler.go:139-146 | a restart timer's call that overlaps an instruction's leaves two live processes, without any Stop |
| `EnsureOverlap.StopForgetsStart` | agents/telegraf.go:262-265 | without overlapping calls, a Stop that clears running after the timer's call has set it leads to two live processes |
| `StartPhrase.StartIsSound` | agents/command_handler.go:77-108 | a start succeeds only with an empty phrase or when some line of stdout or stderr contained it; with an empty phrase it never reports an early exit |
| `StartPhrase.HitIsSent` | agents/command_handler.go:189-210 | in every run a reader goes on to send true exactly when the line it reads is the first of its own to contain the phrase |
| `StartPhrase.EarlyExitIsSound` | agents/command_handler.go:98-107 | a start reports an early exit only after a reader's first word was false, at the end of its pipe, with no line read there having the phrase |
| `StartPhrase.ReaderAlone` | agents/command_handler.go:181-213 | a reader running alone reads its whole pipe; the start succeeds if some line has the phrase and otherwise reports an early exit, and it sends exactly true then false, or false |
| `StartPhrase.StartSucceedsExactlyWhen` | agents/command_handler.go:77-108 | a start can succeed if and only if the phrase is empty or stands somewhere in a line of stdout or stderr |
| `StartPhrase.ReaderSends` | agents/command_handler.go:181-213 | each reader sends at most one true, then at most one false |
| `StartPhrase.OneSendAfterReturn` | agents/command_handler.go:98-107 | after the start has returned at most one more send succeeds |
| `Connection.Accounting` | ambassador/connection.go:258-283 | every goroutine accounts for one unsent error, every error is queued or taken, every taken error is answered by one detach |
| `Connection.ErrorsBoundDetaches` | ambassador/connection.go:340-411 | per attachment, detaches are at most errors taken, at most errors sent, at most one more than its Readys |
| `Connection.ReturnSignalsDetach` | ambassador/connection.go:261-282 | attach returning with the application live has sent a detach, if there is a channel for it |
| `ConnectionProperties.ErrorEndsAttachment` | ambassador/connection.go:261-282 | an attachment with a queued error can signal its one detach, cancel and return, with the flag down, and attach or dial again |
| `ConnectionProperties.InstructionsAreTaken` | ambassador/connection.go:377-411 | any sequence of instructions can be received and acted upon in a live attachment: a Ready among them raises the flag and each Ready starts one keep alive |
| `ConnectionProperties.PostedExactlyAfterReady` | ambassador/connection.go:285-315 | in every run a metric or log is posted exactly when a Ready came after the last error taken or attachment ended, and dropped otherwise |
| `ConnectionProperties.TornDownByOwnErrors` | ambassador/connection.go:272-281 | while the application lives, an attachment is cancelled only by an error its own goroutines sent |
| `ConnectionProperties.BlockedNeedsTenReadies` | ambassador/connection.go:258-260 | with at most nine Readys no goroutine ever finds errChan full |
| `ConnectionProperties.SenderSticksExactlyFromTen` | ambassador/connection.go:340-357 | a run with n Readys that leaves a sender blocked for good exists if and only if n is at least ten |
| `ConnectionProperties.DisciplineExactlyWithoutLateReady` | ambassador/connection.go:263-281 | in every state of a run attached is up only while attach loops, and by a Ready of the very stream it serves, exactly when no Ready is acted upon after its attach returned |
| `ConnectionProperties.PromptReadyIsCurrent` | ambassador/connection.go:377-395 | if instructions are acted upon only while their context is live, every Ready comes from the last attachment, before its attach returns |
| `ConnectionProperties.PromptIsNeverLate` | ambassador/connection.go:377-395 | such runs have no late Ready |
| `ConnectionProperties.PostsOnlyWhileServing` | ambassador/connection.go:285-315 | with prompt dispatch nothing is posted between attachments or before a Ready of the stream being served |
| `ConnectionProperties.LateReadyHappens` | ambassador/connection.go:379-395 | a run in which a late Ready raises attached with no attachment left |
| `ConnectionProperties.StaleReadyRaises` | ambassador/connection.go:379-395 | a run in which a late Ready of an ended attachment raises attached for the next, whose stream has said nothing |
| `LineLexer.LexIsLossless` | lineproto/influx_line_protocol.go:86-100 | the tokens' texts put together are the input |
| `LineLexer.NextAppend` | lineproto/influx_line_protocol.go:86-95 | a token is read the same whatever follows its boundary |
| `LineLexer.LexText` | lineproto/influx_line_protocol.go:86-100 | tokens that keep their boundaries are read back from their text |
| `LexicalGrammar.LengthIsLongest` | lineproto/influx_line_protocol.go:87-100 | each production's matcher finds exactly the longest beginning that the declared production derives |
| `LexicalGrammar.NextIsExact` | lineproto/influx_line_protocol.go:87-100 | a token is read if and only if it is the longest text of the first production, in the declared order, that derives any beginning of the input |
| `LineParser.ParseSound` | lineproto/influx_line_protocol.go:55-83 | what the parser accepts the grammar derives, as the tree returned |
| `LineParser.ParseComplete` | lineproto/influx_line_protocol.go:55-83 | what the grammar derives the parser accepts, as that tree |
| `LineParser.ParserIsExact` | lineproto/influx_line_protocol.go:55-83 | the parser returns a tree if and only if the grammar derives the tokens from it |
| `LineMetrics.ConvertTags` | lineproto/influx_line_protocol.go:130-133 | the tag map holds exactly the last value of every key |
| `LineMetrics.ConvertFields` | lineproto/influx_line_protocol.go:135-149 | each value map holds exactly the last value of its kind of every key |
| `LineMetrics.ParseInfluxLineProtocolMetrics` | lineproto/influx_line_protocol.go:115-155 | one metric per parsed line, in order, with its name, the milliseconds that contain its nanoseconds, tags and values, or the parser's error |
| `LineMetrics.MillisFitInt64` | lineproto/influx_line_protocol.go:127 | every accepted timestamp fits int64 once converted |
| `LineMetrics.FieldsAllOrNothing` | lineproto/influx_line_protocol.go:73-84 | the fields of a line are captured in order, all of them or none |
| `LineMetrics.LineAllOrNothing` | lineproto/influx_line_protocol.go:59-66 | a line is captured exactly when its fields and timestamp are, each tag keeping its text but for an integer's final i |
| `LineMetrics.LinesAllOrNothing` | lineproto/influx_line_protocol.go:55-57 | the lines are captured in order, and one that cannot be makes the input an error |
| `LineValues.FloatSyntaxExact` | lineproto/influx_line_protocol.go:81 | of the texts the Float production derives, exactly those with a digit, at most one dot and no empty exponent are numbers |
| `LineValues.SignedFloatsRead` | lineproto/influx_line_protocol.go:89 | every signed decimal, whole or fractional, with or without an exponent, is one Float token captured as it stands |
| `LineValues.IntegersRead` | lineproto/influx_line_protocol.go:88 | every signed integer with its i is one Int token; it is its number when unsigned and below 2 to the 64th, and an error otherwise |
| `LineValues.DecimalsRead` | lineproto/influx_line_protocol.go:65 | without a leading zero exactly the decimal numerals below 2 to the 64th are read, as their number |
| `LineValues.OctalsRead` | lineproto/influx_line_protocol.go:65 | after a leading zero a numeral is read as octal, within the same bound |
| `LineValues.SpellingsRead` | lineproto/influx_line_protocol.go:105 | a quoted string is its characters, whichever of them are written as escapes |
| `LineValues.TextsRead` | lineproto/influx_line_protocol.go:82-83 | a string, bare or quoted, is a true or a false boolean for exactly the eight literals and otherwise itself |
| `LineRoundTrip.ValueCaptured` | lineproto/influx_line_protocol.go:78-83 | what is captured from a printed value is the value |
| `LineRoundTrip.RoundTrip` | lineproto/influx_line_protocol.go:55-113 | lexing and parsing printed lines returns exactly those lines, with any decimal floats, tag values and strings of the stated domain, with or without prefixes, for any newlines, with or without a final one |
| `LineRoundTrip.StringKeptUnlessBoolean` | lineproto/influx_line_protocol.go:82-83 | a string value in any field of any printed line comes back as itself, except that it is true or dropped for exactly the literals that say so |
| `Console.FilterLines` | agents/agents.go:308-321 | the kept lines of the scanner, each with a newline, in order |
| `Console.ReportExactlyWhen` | agents/pkgagent.go:208-210 | a line is kept exactly when it is "> " followed by anything |
| `Console.LongLineEndsScan` | agents/agents.go:312-313 | a line of 65536 bytes or more ends the scan, and what follows is lost |
| `Console.FilterKeepsReports` | agents/agents.go:308-321 | filtering any mix of prefixed lines and other lines, ended by newlines with or without carriage returns, leaves exactly the prefixed ones |
| `Console.ReportMetrics` | agents/pkgagent.go:205-223 | one metric per record parsed from the filtered output, or the parser's error |
| `Console.ConsoleRoundTrip` | agents/pkgagent.go:205-215 | any mix of log lines and metric lines gives exactly the metric lines' records in order, and an error if there is none |
| `TelegrafConfigs.Store.constructor` | agents/telegraf.go:119 | the store starts empty |
| `TelegrafConfigs.Store.HandleOp` | agents/telegraf.go:173-194 | one operation keeps the store at the latest conversions; a failed conversion or needless removal changes nothing |
| `TelegrafConfigs.Store.ProcessConfig` | agents/telegraf.go:141-156 | however operations are batched, each id has its latest converted CREATE or MODIFY since its removal or a purge; the no-applied error means exactly that every operation was inert, and then nothing changed |
| `TelegrafConfigs.Store.PurgeConfig` | agents/telegraf.go:83-86 | a purge empties the store |
| `TelegrafConfigs.Store.ConcatConfigs` | agents/telegraf.go:158-171 | the served document is the main config, one header and every body once, for some order of the map |
| `TelegrafConfigs.ServedLength` | agents/telegraf.go:158-171 | for every iteration order the length is that of the main config, eight, and each value's less eight |
| `TelegrafConfigs.BodyExact` | agents/telegraf.go:163-169 | of a stored config exactly one leading [inputs] is taken off, and nothing from any other |
| `ConfigFiles.OverwriteLayers` | agents/pkgagent.go:165-179 | writing without truncation keeps each position at the latest write that reached it |
| `ConfigFiles.HoldsLatestExactlyWhen` | agents/oracle.go:137-160 | the file is the latest encoding if and only if no write since it was absent was longer |
| `ConfigFiles.ConfigDir.WriteConfigFile` | agents/pkgagent.go:153-180 | a write adds a layer to its file and leaves the others alone |
| `ConfigFiles.ConfigDir.Purge` | agents/agents.go:216-224 | a purge removes every file |
| `IngestQueue.PostedThenQueued` | ingest/lineproto.go:80-89 | what was posted followed by what is queued is what was enqueued, and the queue never exceeds its slots |
| `IngestQueue.ContributionIsPrefix` | ingest/telegraf_json.go:109-134 | a connection's share of the log is a prefix of its well-formed lines' metrics, and all of them in the end |
| `IngestQueue.MalformedContributeNothing` | ingest/lineproto.go:110-116 | leaving malformed lines out gives the same metrics |
| `IngestQueue.EverythingCanBePosted` | ingest/lineproto.go:80-122 | from every reachable state of a live ingestor, with any number of slots, some continuation posts every metric of every connection's well-formed lines in order |
| `IngestQueue.QueueCanFill` | ingest/lineproto.go:76 | as many metrics as there are slots can be queued with none posted |
| `LineProtocolIngest.ContributesItsMetrics` | ingest/lineproto.go:105-122 | from the bytes of a stream: what a connection contributes is a prefix of the metrics it printed, in order |
| `LineProtocolIngest.AllMetricsCanArrive` | ingest/lineproto.go:80-122 | whatever a live ingestor is doing, every metric a connection printed can still be posted, in order |
| `LineProtocolIngest.HundredCanWait` | ingest/lineproto.go:33 | up to a hundred metrics can wait in the queue, and never more |
| `IngestPaths.ProcessMetric` | ingest/telegraf_json.go:136-163 | the fields split by type into disjoint maps, all else unchanged |
| `IngestPaths.PathsAgreeExactlyWhen` | ingest/telegraf_json.go:136-148 | from one producer metric with distinct field keys, printed as a line and as JSON, both paths give the same name, milliseconds and numbers, the same tags if and only if no tag value that counts reads as an integer, and the same strings if and only if no field is a bare boolean other than the grammar's false literals and no quoted string spells one of its booleans |
| `IngestPaths.FieldArrives` | lineproto/influx_line_protocol.go:135-149 | every field arrives as its number or string, t, T, True and TRUE as "true", and f, F, False and FALSE not at all |
| `IngestPaths.PathsDiffer` | lineproto/influx_line_protocol.go:138-141 | the string "F" reaches the Ambassador from JSON only, the boolean false from a line only |

## Left out

- AgentProperties.SingleLiveProcess: takes each EnsureRunningState and each runner Stop as one step; `EnsureOverlap` has their separate steps and the exact condition. It counts successfully started contexts only, because a start that times out waiting for its phrase leaves an untracked process.
- AgentProperties.VersionConsistency: takes each EnsureRunningState and each runner Stop as one step; each agent type is modelled on its own, so the mutex the types share appears as one instruction at a time.
- AgentProperties.CurrentIsInstalled: stat, RemoveAll and Readlink are taken not to fail by themselves, versions are plain distinct names, and a crash in the middle of an install is not modelled.
- AgentProperties.DetachCleansUpExactlyWhen: an instruction in progress runs on, but none begins during the detach or after it; nothing is claimed about a next attachment's instructions overtaking the detach.
- EnsureOverlap.SingleExactlyWithoutBlindStart: for an agent whose files let it start and whose starts succeed; files that come and go, versions and failing starts are in `AgentMachine` only.
- RunningContext.ReachableInv: the context also ends with its parent, the application's; that end is not in the state, only the calls of its own cancel function are.
- RunningContext.SignalsAtMostOnce: reads of cmd.Process after the unlock count as part of the claim; their safety against the waiter clearing cmd is not claimed, nor is the Go memory model.
- AgentMachine.EnsureKeeps: the environment and arguments of commands are not modelled; the reload signal to telegraf changes no state and is in `AgentRunner.Runner.EnsureTelegraf` only.
- AgentRunner.Runner.ProcessConfigure: locking, and the other agents' instructions, are taken as given; what each operation meets in the file system is an input.
- StartPhrase.StartIsSound: says nothing about a phrase in a last line without newline, which the reader never looks at, nor about how long anything takes.
- ConnectionProperties.PostsOnlyWhileServing: assumes that receiving and dispatching an instruction is one step of a live context; without it `DisciplineExactlyWithoutLateReady` gives the exact condition.
- LineRoundTrip.RoundTrip: bare strings that begin with a digit, sign, dot, quote, '>' or newline, or that contain a backslash, are outside the printer's domain.
- LineMetrics.Capture: float64 rounding and range errors are not modelled; a float keeps its text. Signed integers are rejected, as they do not fit uint64.
- LineMetrics.Unquote: hexadecimal, octal and Unicode escapes are treated as errors.
- LineMetrics.ParseUint: a leading zero means octal, as the parser library's conversion has it; the library itself is not part of this model.
- LineLexer.Lex: an empty match of String, such as at a backslash that ends the input, is an error.
- TelegrafConfigs.Store: the JSON to TOML conversion is any partial function whose results begin with the header; the main config template and the HTTP server are not modelled.
- ConfigFiles.ConfigDir: the JSON encoding of a config is any text; a write is taken to be complete.
- StartPhrase.StartCanSucceed: a command that cannot be started at all is a failed start in `AgentMachine`, not a state of `StartPhrase`.
- Connection, StartPhrase and IngestQueue: goroutines and channels are steps over values; the objects and channels themselves, and sharing of `client` and `outgoingContext` between attachments, are not modelled.
- IngestQueue: the JSON decoder is any parse function; a line longer than the scanner's buffer ends a connection.
- gRPC, TLS, dialing, backoff, HTTP downloads, archives and file capabilities: only whether they succeed.
- Timeouts and delays: any step may happen at any time.
- Posting of test monitor results, the refresh instruction, the lumberjack ingestor, the detached runner and authentication: they would add only easy members.
