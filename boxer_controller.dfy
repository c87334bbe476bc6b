/**
 * The VM lifecycle controller of boxer/internal/vmcontroller/vmcontroller.go,
 * the later of the two iterations. Each operation checks the VM's state,
 * builds the argv of its command template, takes the padded mutex (released
 * by a deferred Release), runs the command and maps how the run went onto
 * the VM's state. The run itself is an input (`CommandRun`).
 *
 * `Start`, `Stop` and `Restore` say what each operation returns, which state
 * it leaves the VM in and whether it takes the mutex; the methods of
 * `VMController` are proved to follow them.
 */
module BoxerVMController {
  import opened Errors
  import opened Strings
  import opened Config
  import opened VMStates
  import opened VMContexts
  import opened PaddedMutexes
  import opened Commands

  /** replaceReservedKeyword: nil for a nil context or an empty command;
      otherwise the command is split on single spaces first, and `$machine`
      and then `$snapshot` are substituted inside each piece, so the argv
      has one element per space of the command plus one. */
  function ReplaceReservedKeyword(command: string, vctx: Option<VMContext>): (argv: seq<string>)
    ensures argv == [] <==> vctx.None? || command == ""
    ensures vctx.Some? && command != "" ==> |argv| == CountChar(command, ' ') + 1
  {
    if vctx.None? || command == "" then []
    else
      SplitShape(command, ' ');
      var pieces := Split(command, ' ');
      ReplaceEach(ReplaceEach(pieces, MachineKeyword, vctx.value.Machine()), SnapshotKeyword, vctx.value.Snapshot())
  }

  /** Joined back with single spaces, the argv is the command with
      `$machine` and then `$snapshot` substituted in the whole command line,
      whatever the names hold: substituting piece by piece loses nothing,
      because neither keyword holds a space. */
  lemma ArgvRejoined(command: string, vctx: VMContext)
    ensures Join(ReplaceReservedKeyword(command, Some(vctx)), ' ') ==
            ReplaceAll(ReplaceAll(command, MachineKeyword, vctx.Machine()), SnapshotKeyword, vctx.Snapshot())
  {
    if command != "" {
      var pieces := Split(command, ' ');
      KeywordsHaveNoSpace();
      JoinSplit(command, ' ');
      ReplaceAllJoin(pieces, ' ', MachineKeyword, vctx.Machine());
      ReplaceAllJoin(ReplaceEach(pieces, MachineKeyword, vctx.Machine()), ' ', SnapshotKeyword, vctx.Snapshot());
    }
  }

  /** What an operation returns, the state it leaves the VM in, and whether
      it took (and released) the mutex. */
  datatype Transition = Transition(result: Outcome, state: VMState, locked: bool)

  /** StartVM: needs STOPPED (InvalidState) and a non-empty argv
      (InvalidArgument), both checked before locking. A launch failure is a
      SystemError that leaves the state alone; a failed wait or a nonzero exit
      is a SystemError that sets ERROR; success sets RUNNING. */
  function Start(state: VMState, argv: seq<string>, run: CommandRun): (t: Transition)
    ensures t.locked <==> state == STOPPED && argv != []
    ensures !t.locked ==> t.state == state && t.result == Fail(if state != STOPPED then InvalidState else InvalidArgument)
    ensures t.locked ==>
      && (t.result == Pass <==> Succeeded(run))
      && (Succeeded(run) ==> t.state == RUNNING)
      && (!Succeeded(run) ==> t.result == Fail(SystemError) && t.state == (if run == LaunchFail then state else ERROR))
  {
    if state != STOPPED then Transition(Fail(InvalidState), state, false)
    else if |argv| == 0 then Transition(Fail(InvalidArgument), state, false)
    else match run
      case LaunchFail => Transition(Fail(SystemError), state, true)
      case WaitFail => Transition(Fail(SystemError), ERROR, true)
      case Exit(code) =>
        if code != 0 then Transition(Fail(SystemError), ERROR, true)
        else Transition(Pass, RUNNING, true)
  }

  /** StopVM: needs RUNNING and a non-empty argv; every failure of the
      command sets ERROR with a SystemError; success sets STOPPED. */
  function Stop(state: VMState, argv: seq<string>, run: CommandRun): (t: Transition)
    ensures t.locked <==> state == RUNNING && argv != []
    ensures !t.locked ==> t.state == state && t.result == Fail(if state != RUNNING then InvalidState else InvalidArgument)
    ensures t.locked ==>
      && (t.result == Pass <==> Succeeded(run))
      && (Succeeded(run) ==> t.state == STOPPED)
      && (!Succeeded(run) ==> t.result == Fail(SystemError) && t.state == ERROR)
  {
    if state != RUNNING then Transition(Fail(InvalidState), state, false)
    else if |argv| == 0 then Transition(Fail(InvalidArgument), state, false)
    else match run
      case LaunchFail => Transition(Fail(SystemError), ERROR, true)
      case WaitFail => Transition(Fail(SystemError), ERROR, true)
      case Exit(code) =>
        if code != 0 then Transition(Fail(SystemError), ERROR, true)
        else Transition(Pass, STOPPED, true)
  }

  /** RestoreSnapshot: needs STOPPED and a non-empty argv; every failure of
      the command sets ERROR with a SystemError (the state is RESTORING while
      the command runs); success sets RUNNING. */
  function Restore(state: VMState, argv: seq<string>, run: CommandRun): (t: Transition)
    ensures t.locked <==> state == STOPPED && argv != []
    ensures !t.locked ==> t.state == state && t.result == Fail(if state != STOPPED then InvalidState else InvalidArgument)
    ensures t.locked ==>
      && (t.result == Pass <==> Succeeded(run))
      && (Succeeded(run) ==> t.state == RUNNING)
      && (!Succeeded(run) ==> t.result == Fail(SystemError) && t.state == ERROR)
  {
    if state != STOPPED then Transition(Fail(InvalidState), state, false)
    else if |argv| == 0 then Transition(Fail(InvalidArgument), state, false)
    else match run
      case LaunchFail => Transition(Fail(SystemError), ERROR, true)
      case WaitFail => Transition(Fail(SystemError), ERROR, true)
      case Exit(code) =>
        if code != 0 then Transition(Fail(SystemError), ERROR, true)
        else Transition(Pass, RUNNING, true)
  }

  /** ERROR is absorbing: every operation refuses a VM in ERROR with
      InvalidState and leaves it in ERROR. */
  lemma ErrorIsAbsorbing(argv: seq<string>, run: CommandRun)
    ensures Start(ERROR, argv, run) == Transition(Fail(InvalidState), ERROR, false)
    ensures Stop(ERROR, argv, run) == Transition(Fail(InvalidState), ERROR, false)
    ensures Restore(ERROR, argv, run) == Transition(Fail(InvalidState), ERROR, false)
  {
  }

  /** The states a VM can be seen in between operations: RESTORING is only
      held while the restore command runs, and OFFLINE and ONLINE are never
      set. */
  predicate Settled(state: VMState)
  {
    state == STOPPED || state == RUNNING || state == ERROR
  }

  /** Every operation maps a settled state to a settled state. */
  lemma OperationsKeepSettled(state: VMState, argv: seq<string>, run: CommandRun)
    requires Settled(state)
    ensures Settled(Start(state, argv, run).state)
    ensures Settled(Stop(state, argv, run).state)
    ensures Settled(Restore(state, argv, run).state)
  {
  }

  class VMController {
    const vmControl: VMControlConfig
    const mux: PaddedMutex

    /** The mutex is consistent, and held only while a release is pending:
        between operations nobody owns it. */
    ghost predicate Valid()
      reads this, mux
    {
      mux.Valid() && (mux.held ==> mux.isWaiting)
    }

    /** NewVMController: keeps the command templates and creates a padded
        mutex whose period is the policy's interval. */
    constructor (vmControl: VMControlConfig, vmPolicy: VMControlPolicyConfig)
      ensures this.vmControl == vmControl
      ensures fresh(mux) && mux.period == vmPolicy.intervalSec && !mux.held
      ensures Valid()
    {
      this.vmControl := vmControl;
      mux := new PaddedMutex(vmPolicy.intervalSec);
    }

    /** Takes the mutex, waiting for a pending release first: the command
        starts at least `period` seconds after the previous operation's
        release. */
    method Acquire()
      requires Valid()
      modifies mux
      ensures mux.held && !mux.isWaiting && mux.Valid()
      ensures mux.lastRelease == old(mux.lastRelease)
      ensures mux.locks == old(mux.locks) + 1 && mux.releases == old(mux.releases)
      ensures old(mux.lastRelease).Some? ==> mux.now >= old(mux.lastRelease).value + mux.period
    {
      mux.AwaitLock();
    }

    /** The deferred Release after a Lock, which is never refused. */
    method Relinquish()
      requires mux.Valid() && mux.held && !mux.isWaiting
      modifies mux
      ensures Valid()
      ensures mux.now == old(mux.now) && mux.lastRelease == Some(mux.now)
      ensures mux.locks == old(mux.locks) && mux.releases == old(mux.releases) + 1
    {
      var released := mux.Release();
      assert released == Pass;
    }

    /** StartVM, following `Start`. When the mutex is taken it is released
        once, and the command ran at least `period` seconds after the
        previous release. */
    method StartVM(vctx: VMContext, run: CommandRun) returns (r: Outcome)
      requires Valid()
      modifies vctx, mux
      ensures Valid()
      ensures var t := Start(old(vctx.State()), ReplaceReservedKeyword(vmControl.startCmd, Some(vctx)), run);
        && r == t.result && vctx.State() == t.state
        && (!t.locked ==> unchanged(vctx))
        && (t.locked ==> vctx.trace == old(vctx.trace) + (if run == LaunchFail then [] else [t.state]))
        && mux.locks == old(mux.locks) + (if t.locked then 1 else 0)
        && mux.releases == old(mux.releases) + (if t.locked then 1 else 0)
        && (!t.locked ==> unchanged(mux))
        && (t.locked ==> mux.lastRelease == Some(mux.now)
                         && (old(mux.lastRelease).Some? ==> mux.now >= old(mux.lastRelease).value + mux.period))
    {
      if vctx.State() != STOPPED {
        return Fail(InvalidState);
      }
      var argv := ReplaceReservedKeyword(vmControl.startCmd, Some(vctx));
      if |argv| == 0 {
        return Fail(InvalidArgument);
      }
      Acquire();
      if run == LaunchFail {
        r := Fail(SystemError);
      } else if run == WaitFail {
        vctx.SetState(ERROR);
        r := Fail(SystemError);
      } else if run.code != 0 {
        vctx.SetState(ERROR);
        r := Fail(SystemError);
      } else {
        vctx.SetState(RUNNING);
        r := Pass;
      }
      Relinquish();
    }

    /** StopVM, following `Stop`, with the same mutex discipline. */
    method StopVM(vctx: VMContext, run: CommandRun) returns (r: Outcome)
      requires Valid()
      modifies vctx, mux
      ensures Valid()
      ensures var t := Stop(old(vctx.State()), ReplaceReservedKeyword(vmControl.stopCmd, Some(vctx)), run);
        && r == t.result && vctx.State() == t.state
        && (!t.locked ==> unchanged(vctx))
        && (t.locked ==> vctx.trace == old(vctx.trace) + [t.state])
        && mux.locks == old(mux.locks) + (if t.locked then 1 else 0)
        && mux.releases == old(mux.releases) + (if t.locked then 1 else 0)
        && (!t.locked ==> unchanged(mux))
        && (t.locked ==> mux.lastRelease == Some(mux.now)
                         && (old(mux.lastRelease).Some? ==> mux.now >= old(mux.lastRelease).value + mux.period))
    {
      if vctx.State() != RUNNING {
        return Fail(InvalidState);
      }
      var argv := ReplaceReservedKeyword(vmControl.stopCmd, Some(vctx));
      if |argv| == 0 {
        return Fail(InvalidArgument);
      }
      Acquire();
      if run == LaunchFail {
        vctx.SetState(ERROR);
        r := Fail(SystemError);
      } else if run == WaitFail {
        vctx.SetState(ERROR);
        r := Fail(SystemError);
      } else if run.code != 0 {
        vctx.SetState(ERROR);
        r := Fail(SystemError);
      } else {
        vctx.SetState(STOPPED);
        r := Pass;
      }
      Relinquish();
    }

    /** RestoreSnapshot, following `Restore`, with the same mutex
        discipline. Once the command is launched the VM passes through
        RESTORING before it reaches its final state. */
    method RestoreSnapshot(vctx: VMContext, run: CommandRun) returns (r: Outcome)
      requires Valid()
      modifies vctx, mux
      ensures Valid()
      ensures var t := Restore(old(vctx.State()), ReplaceReservedKeyword(vmControl.restoreSnapshotCmd, Some(vctx)), run);
        && r == t.result && vctx.State() == t.state
        && (!t.locked ==> unchanged(vctx))
        && (t.locked && run == LaunchFail ==> vctx.trace == old(vctx.trace) + [ERROR])
        && (t.locked && run != LaunchFail ==> vctx.trace == old(vctx.trace) + [RESTORING, t.state])
        && mux.locks == old(mux.locks) + (if t.locked then 1 else 0)
        && mux.releases == old(mux.releases) + (if t.locked then 1 else 0)
        && (!t.locked ==> unchanged(mux))
        && (t.locked ==> mux.lastRelease == Some(mux.now)
                         && (old(mux.lastRelease).Some? ==> mux.now >= old(mux.lastRelease).value + mux.period))
    {
      if vctx.State() != STOPPED {
        return Fail(InvalidState);
      }
      var argv := ReplaceReservedKeyword(vmControl.restoreSnapshotCmd, Some(vctx));
      if |argv| == 0 {
        return Fail(InvalidArgument);
      }
      Acquire();
      if run == LaunchFail {
        vctx.SetState(ERROR);
        r := Fail(SystemError);
      } else {
        vctx.SetState(RESTORING);
        if run == WaitFail {
          vctx.SetState(ERROR);
          r := Fail(SystemError);
        } else if run.code != 0 {
          vctx.SetState(ERROR);
          r := Fail(SystemError);
        } else {
          // the Go comment here announces STOPPED; the code sets RUNNING
          vctx.SetState(RUNNING);
          r := Pass;
        }
      }
      Relinquish();
    }
  }
}
