/**
 The AgentRunningContext object and the statements of Stop and WaitOnAgentCommand that touch it, each
 atomic section proved to be a step of the context's state machine (agents/command_handler.go).
 */
module CommandHandler {
  import opened RunningContext

  class AgentRunningContext {
    var cmd: bool          // the reference is non-nil
    var exited: bool       // ProcessState.Exited(), once the process is reaped
    var reaped: bool       // ProcessState is non-nil
    var stopping: bool
    var stopped: bool
    var cancelCalled: bool
    ghost var alive: bool
    ghost var waiter: Waiter
    ghost var callers: seq<Caller>

    ghost function State(): RunningContext.State
      reads this
    {
      RunningContext.State(alive, exited, cmd, stopping, stopped, cancelCalled, waiter, callers)
    }

    ghost predicate Valid()
      reads this
    {
      Inv(State()) && (reaped <==> waiter != Waiting)
    }

    constructor ()
      ensures Valid() && State() == STARTED
    {
      cmd, exited, reaped, stopping, stopped, cancelCalled := true, false, false, false, false, false;
      alive, waiter, callers := true, Waiting, [];
    }

    predicate IsRunning()
      reads this
    {
      cmd && (!reaped || !exited)
    }

    /** The section of Stop under the lock. */
    method StopGuard() returns (claimed: bool)
      requires Valid()
      modifies this`stopping, this`callers
      ensures Valid() && claimed == (!old(stopping) && old(IsRunning()))
      ensures var e := Guard(|old(callers)|, claimed);
              Enabled(old(State()), e) && State() == Apply(old(State()), e)
    {
      claimed := false;
      if !stopping && IsRunning() {
        stopping, claimed := true, true;
      }
      StepInv(State().(stopping := old(stopping)), Guard(|callers|, claimed));
      callers := callers + [if claimed then Claimed else Declined];
    }

    /** cmd.Wait returning: the process is reaped. */
    method Reap(exitedNormally: bool)
      requires Valid() && !alive && waiter == Waiting
      modifies this`exited, this`reaped, this`waiter
      ensures Valid() && State() == Apply(old(State()), RunningContext.Reap(exitedNormally))
    {
      StepInv(State(), RunningContext.Reap(exitedNormally));
      exited, reaped, waiter := exitedNormally, true, Reaped;
    }

    method ClearCmd()
      requires Valid() && waiter == Reaped
      modifies this`cmd, this`waiter
      ensures Valid() && State() == Apply(old(State()), RunningContext.ClearCmd)
    {
      StepInv(State(), RunningContext.ClearCmd);
      cmd, waiter := false, Cleared;
    }

    /** close panics on a closed channel; here it is open. */
    method CloseStopped()
      requires Valid() && waiter == Cleared
      modifies this`stopped, this`waiter
      ensures Valid() && !old(stopped) && State() == Apply(old(State()), RunningContext.CloseStopped)
    {
      StepInv(State(), RunningContext.CloseStopped);
      stopped, waiter := true, Closed;
    }

    method CancelContext()
      requires Valid() && waiter == Closed
      modifies this`cancelCalled, this`waiter
      ensures Valid() && State() == Apply(old(State()), Cancel)
    {
      StepInv(State(), Cancel);
      cancelCalled, waiter := true, Cancelled;
    }

    /** Whether to schedule a restart. */
    method DecideRestart() returns (restart: bool)
      requires Valid() && waiter == Cancelled
      modifies this`waiter
      ensures Valid() && Enabled(old(State()), Decide(restart)) && State() == Apply(old(State()), Decide(restart))
    {
      restart := !stopping;
      StepInv(State(), Decide(restart));
      waiter := Decided;
    }

    /** WaitOnAgentCommand when nothing interleaves after the process has exited. */
    method WaitOnAgentCommand(exitedNormally: bool) returns (restart: bool)
      requires Valid() && !alive && waiter == Waiting
      modifies this
      ensures Valid() && restart == !old(stopping) && callers == old(callers)
      ensures !cmd && stopped && cancelCalled && waiter == Decided
    {
      Reap(exitedNormally);
      ClearCmd();
      CloseStopped();
      CancelContext();
      restart := DecideRestart();
    }
  }
}
