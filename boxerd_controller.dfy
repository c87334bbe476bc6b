/**
 * The VM lifecycle controller of boxerd/internal/vmcontroller/vmcontroller.go,
 * the earlier of the two iterations. Its structure is that of the later one
 * (guard, argv, padded mutex, command, state update) but the details differ:
 * the argv is built by substituting on the whole command and then splitting,
 * Start ends OFFLINE, Stop admits every state from OFFLINE up, failures of
 * Stop and Restore do not set ERROR, and Restore ends STOPPED.
 */
module BoxerdVMController {
  import opened Errors
  import opened Strings
  import opened Config
  import opened VMStates
  import opened VMContexts
  import opened PaddedMutexes
  import opened Commands
  import Later = BoxerVMController

  /** replaceReservedKeyword: `$machine` and then `$snapshot` are substituted
      in the whole command, which is then split on single spaces. The argv
      is never empty, even for an empty command, so the InvalidArgument
      branches of the three operations are unreachable; and no argument
      holds a space, even where a substituted name did. */
  function ReplaceReservedKeyword(command: string, vctx: VMContext): (argv: seq<string>)
    ensures |argv| >= 1
    ensures forall k :: 0 <= k < |argv| ==> CountChar(argv[k], ' ') == 0
  {
    var substituted := ReplaceAll(ReplaceAll(command, MachineKeyword, vctx.Machine()), SnapshotKeyword, vctx.Snapshot());
    SplitShape(substituted, ' ');
    Split(substituted, ' ')
  }

  /** When neither the machine name nor the snapshot name holds a space, the
      two iterations build the same argv from a non-empty command:
      substituting before or after splitting makes no difference. */
  lemma IterationsAgreeWithoutSpaces(command: string, vctx: VMContext)
    requires command != ""
    requires CountChar(vctx.Machine(), ' ') == 0 && CountChar(vctx.Snapshot(), ' ') == 0
    ensures ReplaceReservedKeyword(command, vctx) == Later.ReplaceReservedKeyword(command, Some(vctx))
  {
    var machined := ReplaceAll(command, MachineKeyword, vctx.Machine());
    KeywordsHaveNoSpace();
    SplitReplaceCommute(machined, ' ', SnapshotKeyword, vctx.Snapshot());
    SplitReplaceCommute(command, ' ', MachineKeyword, vctx.Machine());
  }

  /** For every command and whatever the names hold, the argvs of the two
      iterations join back to the same command line: they differ only in
      where the line is cut into arguments. */
  lemma IterationsJoinAlike(command: string, vctx: VMContext)
    ensures Join(ReplaceReservedKeyword(command, vctx), ' ') == Join(Later.ReplaceReservedKeyword(command, Some(vctx)), ' ')
  {
    var substituted := ReplaceAll(ReplaceAll(command, MachineKeyword, vctx.Machine()), SnapshotKeyword, vctx.Snapshot());
    JoinSplit(substituted, ' ');
    Later.ArgvRejoined(command, vctx);
  }

  /** A snapshot name holding a space, such as "Snapshot 1", in the
      command "$snapshot": the earlier iteration passes it as two arguments,
      the later one as a single argument. */
  lemma IterationsDifferOnSpacedSnapshot(command: string, vctx: VMContext, first: string, second: string)
    requires command == SnapshotKeyword
    requires vctx.Snapshot() == first + [' '] + second
    requires CountChar(first, ' ') == 0 && CountChar(second, ' ') == 0
    ensures ReplaceReservedKeyword(command, vctx) == [first, second]
    ensures Later.ReplaceReservedKeyword(command, Some(vctx)) == [vctx.Snapshot()]
  {
    var snapshot := vctx.Snapshot();
    KeywordAlone(command, vctx.Machine(), snapshot);
    SplitAtSeparator(first, second, ' ');
    CountCharZero(second, ' ');
    assert Split(second, ' ') == [second];
    var machined := ReplaceEach([command], MachineKeyword, vctx.Machine());
    assert machined == [command];
    assert ReplaceEach(machined, SnapshotKeyword, snapshot) == [snapshot];
  }

  /** The command "$snapshot": $machine does not occur in it, splitting
      leaves it whole, and substituting the snapshot name replaces it whole. */
  lemma KeywordAlone(command: string, machine: string, snapshot: string)
    requires command == SnapshotKeyword
    ensures ReplaceAll(command, MachineKeyword, machine) == command
    ensures ReplaceAll(command, SnapshotKeyword, snapshot) == snapshot
    ensures Split(command, ' ') == [command]
  {
    MachineNotInSnapshotKeyword(command, machine);
    SnapshotKeywordReplacedWhole(command, snapshot);
    SnapshotKeywordNotSplit(command);
  }

  /** Substituting in "$snapshot" gives the snapshot name. Helper for
      KeywordAlone. */
  lemma SnapshotKeywordReplacedWhole(command: string, snapshot: string)
    requires command == SnapshotKeyword
    ensures ReplaceAll(command, SnapshotKeyword, snapshot) == snapshot
  {
    assert command[..|SnapshotKeyword|] == SnapshotKeyword && command[|SnapshotKeyword|..] == [];
  }

  /** Splitting "$snapshot" on spaces leaves it whole. Helper for
      KeywordAlone. */
  lemma SnapshotKeywordNotSplit(command: string)
    requires command == SnapshotKeyword
    ensures Split(command, ' ') == [command]
  {
    NoSpaceIn(command);
  }

  /** "$snapshot" does not contain "$machine". Helper for KeywordAlone. */
  lemma MachineNotInSnapshotKeyword(command: string, machine: string)
    requires command == SnapshotKeyword
    ensures ReplaceAll(command, MachineKeyword, machine) == command
  {
    SnapshotKeywordShape(command);
    ReplaceAllHead(command, MachineKeyword, machine);
    var rest := command[1..];
    NotContainsWithoutHead(rest, MachineKeyword);
    ReplaceAllAbsent(rest, MachineKeyword, machine);
  }

  /** "$snapshot" does not start with "$machine", and its only `$` is the
      first character. Helper for MachineNotInSnapshotKeyword. */
  lemma SnapshotKeywordShape(command: string)
    requires command == SnapshotKeyword
    ensures command != [] && !StartsWith(command, MachineKeyword)
    ensures MachineKeyword != [] && CountChar(command[1..], MachineKeyword[0]) == 0
  {
    assert command[1] != MachineKeyword[1];
    CountCharZero(command[1..], '$');
  }

  /** What an operation returns, the state it leaves the VM in, and whether
      it took (and released) the mutex. */
  datatype Transition = Transition(result: Outcome, state: VMState, locked: bool)

  /** StartVM: needs STOPPED (InvalidState) and a non-empty argv
      (InvalidArgument), both checked before locking. A launch failure is a
      SystemError that leaves the state alone; a failed wait or a nonzero exit
      is a SystemError that sets ERROR; success sets OFFLINE. */
  function Start(state: VMState, argv: seq<string>, run: CommandRun): (t: Transition)
    ensures t.locked <==> state == STOPPED && argv != []
    ensures !t.locked ==> t.state == state && t.result == Fail(if state != STOPPED then InvalidState else InvalidArgument)
    ensures t.locked ==>
      && (t.result == Pass <==> Succeeded(run))
      && (Succeeded(run) ==> t.state == OFFLINE)
      && (!Succeeded(run) ==> t.result == Fail(SystemError) && t.state == (if run == LaunchFail then state else ERROR))
  {
    if state != STOPPED then Transition(Fail(InvalidState), state, false)
    else if |argv| == 0 then Transition(Fail(InvalidArgument), state, false)
    else match run
      case LaunchFail => Transition(Fail(SystemError), state, true)
      case WaitFail => Transition(Fail(SystemError), ERROR, true)
      case Exit(code) =>
        if code != 0 then Transition(Fail(SystemError), ERROR, true)
        else Transition(Pass, OFFLINE, true)
  }

  /** StopVM: refuses only states below OFFLINE; every failure of the command
      is a SystemError that leaves the state alone; success sets STOPPED. */
  function Stop(state: VMState, argv: seq<string>, run: CommandRun): (t: Transition)
    ensures t.locked <==> state >= OFFLINE && argv != []
    ensures !t.locked ==> t.state == state && t.result == Fail(if state < OFFLINE then InvalidState else InvalidArgument)
    ensures t.locked ==>
      && (t.result == Pass <==> Succeeded(run))
      && (Succeeded(run) ==> t.state == STOPPED)
      && (!Succeeded(run) ==> t.result == Fail(SystemError) && t.state == state)
  {
    if state < OFFLINE then Transition(Fail(InvalidState), state, false)
    else if |argv| == 0 then Transition(Fail(InvalidArgument), state, false)
    else match run
      case LaunchFail => Transition(Fail(SystemError), state, true)
      case WaitFail => Transition(Fail(SystemError), state, true)
      case Exit(code) =>
        if code != 0 then Transition(Fail(SystemError), state, true)
        else Transition(Pass, STOPPED, true)
  }

  /** RestoreSnapshot: needs STOPPED and a non-empty argv; a launch failure
      leaves the state alone; once launched the VM is RESTORING and stays so
      if the wait fails or the exit code is nonzero; success sets STOPPED. */
  function Restore(state: VMState, argv: seq<string>, run: CommandRun): (t: Transition)
    ensures t.locked <==> state == STOPPED && argv != []
    ensures !t.locked ==> t.state == state && t.result == Fail(if state != STOPPED then InvalidState else InvalidArgument)
    ensures t.locked ==>
      && (t.result == Pass <==> Succeeded(run))
      && (Succeeded(run) ==> t.state == STOPPED)
      && (!Succeeded(run) ==> t.result == Fail(SystemError) && t.state == (if run == LaunchFail then state else RESTORING))
  {
    if state != STOPPED then Transition(Fail(InvalidState), state, false)
    else if |argv| == 0 then Transition(Fail(InvalidArgument), state, false)
    else match run
      case LaunchFail => Transition(Fail(SystemError), state, true)
      case WaitFail => Transition(Fail(SystemError), RESTORING, true)
      case Exit(code) =>
        if code != 0 then Transition(Fail(SystemError), RESTORING, true)
        else Transition(Pass, STOPPED, true)
  }

  /** Among the named states, Stop refuses only STOPPED: OFFLINE, ONLINE,
      RUNNING, RESTORING and ERROR are all admitted. */
  lemma StopGuard(state: VMState, argv: seq<string>, run: CommandRun)
    requires IsNamed(state)
    ensures Stop(state, argv, run).result == Fail(InvalidState) <==> state == STOPPED
  {
    BelowOfflineIsStopped(state);
  }

  /** An operation takes the mutex exactly when it gets past the state guard
      (the argv guard never refuses), and a refused operation leaves the
      state alone. */
  lemma LockedIffStateGuardPasses(state: VMState, command: string, vctx: VMContext, run: CommandRun)
    ensures var argv := ReplaceReservedKeyword(command, vctx);
      && (Start(state, argv, run).locked <==> state == STOPPED)
      && (Stop(state, argv, run).locked <==> state >= OFFLINE)
      && (Restore(state, argv, run).locked <==> state == STOPPED)
      && (!Start(state, argv, run).locked ==> Start(state, argv, run) == Transition(Fail(InvalidState), state, false))
      && (!Stop(state, argv, run).locked ==> Stop(state, argv, run) == Transition(Fail(InvalidState), state, false))
      && (!Restore(state, argv, run).locked ==> Restore(state, argv, run) == Transition(Fail(InvalidState), state, false))
  {
  }

  /** A VM in ERROR, refused by Start and Restore, is brought back to STOPPED
      by a Stop whose command succeeds, and stays in ERROR when it fails. */
  lemma StopRecoversFromError(argv: seq<string>, run: CommandRun)
    requires argv != []
    ensures Start(ERROR, argv, run) == Transition(Fail(InvalidState), ERROR, false)
    ensures Restore(ERROR, argv, run) == Transition(Fail(InvalidState), ERROR, false)
    ensures Stop(ERROR, argv, run).state == (if Succeeded(run) then STOPPED else ERROR)
  {
  }

  /** The states a VM can be seen in between operations: ONLINE and RUNNING
      are never set by this iteration. */
  predicate Reachable(state: VMState)
  {
    state == STOPPED || state == OFFLINE || state == RESTORING || state == ERROR
  }

  /** Every operation maps a reachable state to a reachable state. */
  lemma OperationsKeepReachable(state: VMState, argv: seq<string>, run: CommandRun)
    requires Reachable(state)
    ensures Reachable(Start(state, argv, run).state)
    ensures Reachable(Stop(state, argv, run).state)
    ensures Reachable(Restore(state, argv, run).state)
  {
  }

  class VMController {
    const vmControl: VMControlConfig
    const mux: PaddedMutex

    /** The mutex is consistent, and held only while a release is pending:
        between operations nobody owns it. */
    ghost predicate Valid()
      reads this, mux
    {
      mux.Valid() && (mux.held ==> mux.isWaiting)
    }

    /** NewVMController: keeps the command templates and creates a padded
        mutex whose period is the policy's interval. */
    constructor (vmControl: VMControlConfig, vmPolicy: VMControlPolicyConfig)
      ensures this.vmControl == vmControl
      ensures fresh(mux) && mux.period == vmPolicy.intervalSec && !mux.held
      ensures Valid()
    {
      this.vmControl := vmControl;
      mux := new PaddedMutex(vmPolicy.intervalSec);
    }

    /** Takes the mutex, waiting for a pending release first. */
    method Acquire()
      requires Valid()
      modifies mux
      ensures mux.held && !mux.isWaiting && mux.Valid()
      ensures mux.lastRelease == old(mux.lastRelease)
      ensures mux.locks == old(mux.locks) + 1 && mux.releases == old(mux.releases)
      ensures old(mux.lastRelease).Some? ==> mux.now >= old(mux.lastRelease).value + mux.period
    {
      mux.AwaitLock();
    }

    /** The deferred Release after a Lock, which is never refused. */
    method Relinquish()
      requires mux.Valid() && mux.held && !mux.isWaiting
      modifies mux
      ensures Valid()
      ensures mux.now == old(mux.now) && mux.lastRelease == Some(mux.now)
      ensures mux.locks == old(mux.locks) && mux.releases == old(mux.releases) + 1
    {
      var released := mux.Release();
      assert released == Pass;
    }

    /** StartVM, following `Start`. When the mutex is taken it is released
        once, and the command ran at least `period` seconds after the
        previous release. */
    method StartVM(vctx: VMContext, run: CommandRun) returns (r: Outcome)
      requires Valid()
      modifies vctx, mux
      ensures Valid()
      ensures var t := Start(old(vctx.State()), ReplaceReservedKeyword(vmControl.startCmd, vctx), run);
        && r == t.result && vctx.State() == t.state
        && (!t.locked ==> unchanged(vctx))
        && (t.locked ==> vctx.trace == old(vctx.trace) + (if run == LaunchFail then [] else [t.state]))
        && mux.locks == old(mux.locks) + (if t.locked then 1 else 0)
        && mux.releases == old(mux.releases) + (if t.locked then 1 else 0)
        && (!t.locked ==> unchanged(mux))
        && (t.locked ==> mux.lastRelease == Some(mux.now)
                         && (old(mux.lastRelease).Some? ==> mux.now >= old(mux.lastRelease).value + mux.period))
    {
      if vctx.State() != STOPPED {
        return Fail(InvalidState);
      }
      var argv := ReplaceReservedKeyword(vmControl.startCmd, vctx);
      if |argv| == 0 {
        return Fail(InvalidArgument);
      }
      Acquire();
      if run == LaunchFail {
        r := Fail(SystemError);
      } else if run == WaitFail {
        vctx.SetState(ERROR);
        r := Fail(SystemError);
      } else if run.code != 0 {
        vctx.SetState(ERROR);
        r := Fail(SystemError);
      } else {
        vctx.SetState(OFFLINE);
        r := Pass;
      }
      Relinquish();
    }

    /** StopVM, following `Stop`, with the same mutex discipline. */
    method StopVM(vctx: VMContext, run: CommandRun) returns (r: Outcome)
      requires Valid()
      modifies vctx, mux
      ensures Valid()
      ensures var t := Stop(old(vctx.State()), ReplaceReservedKeyword(vmControl.stopCmd, vctx), run);
        && r == t.result && vctx.State() == t.state
        && (!t.locked ==> unchanged(vctx))
        && (t.locked ==> vctx.trace == old(vctx.trace) + (if Succeeded(run) then [STOPPED] else []))
        && mux.locks == old(mux.locks) + (if t.locked then 1 else 0)
        && mux.releases == old(mux.releases) + (if t.locked then 1 else 0)
        && (!t.locked ==> unchanged(mux))
        && (t.locked ==> mux.lastRelease == Some(mux.now)
                         && (old(mux.lastRelease).Some? ==> mux.now >= old(mux.lastRelease).value + mux.period))
    {
      if vctx.State() < OFFLINE {
        return Fail(InvalidState);
      }
      var argv := ReplaceReservedKeyword(vmControl.stopCmd, vctx);
      if |argv| == 0 {
        return Fail(InvalidArgument);
      }
      Acquire();
      if run == LaunchFail {
        r := Fail(SystemError);
      } else if run == WaitFail {
        r := Fail(SystemError);
      } else if run.code != 0 {
        r := Fail(SystemError);
      } else {
        vctx.SetState(STOPPED);
        r := Pass;
      }
      Relinquish();
    }

    /** RestoreSnapshot, following `Restore`, with the same mutex
        discipline. Once the command is launched the VM is RESTORING, and
        only a successful run moves it on to STOPPED. */
    method RestoreSnapshot(vctx: VMContext, run: CommandRun) returns (r: Outcome)
      requires Valid()
      modifies vctx, mux
      ensures Valid()
      ensures var t := Restore(old(vctx.State()), ReplaceReservedKeyword(vmControl.restoreSnapshotCmd, vctx), run);
        && r == t.result && vctx.State() == t.state
        && (!t.locked ==> unchanged(vctx))
        && (t.locked && run == LaunchFail ==> vctx.trace == old(vctx.trace))
        && (t.locked && run != LaunchFail ==>
              vctx.trace == old(vctx.trace) + (if Succeeded(run) then [RESTORING, STOPPED] else [RESTORING]))
        && mux.locks == old(mux.locks) + (if t.locked then 1 else 0)
        && mux.releases == old(mux.releases) + (if t.locked then 1 else 0)
        && (!t.locked ==> unchanged(mux))
        && (t.locked ==> mux.lastRelease == Some(mux.now)
                         && (old(mux.lastRelease).Some? ==> mux.now >= old(mux.lastRelease).value + mux.period))
    {
      if vctx.State() != STOPPED {
        return Fail(InvalidState);
      }
      var argv := ReplaceReservedKeyword(vmControl.restoreSnapshotCmd, vctx);
      if |argv| == 0 {
        return Fail(InvalidArgument);
      }
      Acquire();
      if run == LaunchFail {
        r := Fail(SystemError);
      } else {
        vctx.SetState(RESTORING);
        if run == WaitFail {
          r := Fail(SystemError);
        } else if run.code != 0 {
          r := Fail(SystemError);
        } else {
          vctx.SetState(STOPPED);
          r := Pass;
        }
      }
      Relinquish();
    }
  }
}
