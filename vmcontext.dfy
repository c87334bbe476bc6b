/**
 * VMContext of boxerd/vmcontroller/vmcontext.go: a VM description plus a
 * lifecycle state. The description is a `const` field, so no operation can
 * modify it; the state is the only mutable part.
 */
module VMContexts {
  import opened Config
  import opened VMStates

  class VMContext {
    const info: VMInfoConfig
    var state: VMState
    /** Every state set since the context was made, in order. */
    ghost var trace: seq<VMState>

    /** NewVMContext: wraps the description; every VM starts STOPPED. */
    constructor (info: VMInfoConfig)
      ensures this.info == info
      ensures Machine() == info.name && Snapshot() == info.snapshot && IP() == info.ip
      ensures OS() == info.os && Group() == info.group
      ensures State() == STOPPED && trace == []
    {
      this.info := info;
      this.state := STOPPED;
      this.trace := [];
    }

    function Machine(): string { info.name }

    function Snapshot(): string { info.snapshot }

    function IP(): string { info.ip }

    function OS(): string { info.os }

    function Group(): string { info.group }

    function State(): VMState
      reads this
    {
      state
    }

    /** setState: afterwards State() is the state just set, and the trace
        records it; the description (a const field) is untouched. */
    method SetState(s: VMState)
      modifies this
      ensures State() == s && trace == old(trace) + [s]
    {
      state := s;
      trace := trace + [s];
    }
  }
}
