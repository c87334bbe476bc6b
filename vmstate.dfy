/**
 * The VM lifecycle states of boxerd/vmstate/state.go. `VMState` is a Go `int`,
 * so the model keeps it an `int`: the six named states are the values 0..5 in
 * declaration order and every other value is a legal, unnamed state.
 */
module VMStates {

  type VMState = int

  const STOPPED: VMState := 0    // not running
  const OFFLINE: VMState := 1    // running but not reachable
  const ONLINE: VMState := 2     // running and reachable
  const RUNNING: VMState := 3    // running and executing commands
  const RESTORING: VMState := 4  // restoring a snapshot
  const ERROR: VMState := 5      // failed

  /** One of the six named states. */
  predicate IsNamed(s: VMState)
  {
    STOPPED <= s <= ERROR
  }

  /** VMState.String: a named state gets its own name, any other value "UNKNOWN". */
  function String(s: VMState): (r: string)
    ensures IsNamed(s) <==> r != "UNKNOWN"
  {
    if s == STOPPED then "STOPPED"
    else if s == OFFLINE then "OFFLINE"
    else if s == ONLINE then "ONLINE"
    else if s == RUNNING then "RUNNING"
    else if s == RESTORING then "RESTORING"
    else if s == ERROR then "ERROR"
    else "UNKNOWN"
  }

  /** No two named states share a name. */
  lemma StringInjective(s: VMState, t: VMState)
    requires IsNamed(s) && IsNamed(t)
    requires String(s) == String(t)
    ensures s == t
  {
  }

  /** The declaration order is a strict order of the six states. */
  lemma StatesOrdered()
    ensures STOPPED < OFFLINE < ONLINE < RUNNING < RESTORING < ERROR
  {
  }

  /** Among the named states, only STOPPED lies below OFFLINE. */
  lemma BelowOfflineIsStopped(s: VMState)
    requires IsNamed(s)
    ensures s < OFFLINE <==> s == STOPPED
  {
  }
}
