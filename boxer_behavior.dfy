/**
 * The request and response vocabulary of the client facade,
 * boxer/boxerclient/boxerbehavior.go: the operations a caller may ask for, the
 * return codes it gets back, and `Box`, the caller's copy of a VM context.
 * `BoxerOp` and `ReturnCode` are Go `int`s, so every integer is a legal value
 * and only some of them have names.
 */
module BoxerBehavior {
  import opened Errors
  import opened VMStates
  import opened VMContexts

  type BoxerOp = int

  const STOP: BoxerOp := 0
  const START: BoxerOp := 1
  const RESTORE: BoxerOp := 2

  /** One of the three named operations. */
  predicate IsNamedOp(op: BoxerOp)
  {
    STOP <= op <= RESTORE
  }

  /** BoxerOp.String: a named operation gets its own name, any other value
      "UNKNOWN". */
  function OpString(op: BoxerOp): (r: string)
    ensures IsNamedOp(op) <==> r != "UNKNOWN"
  {
    if op == STOP then "STOP"
    else if op == START then "START"
    else if op == RESTORE then "RESTORE"
    else "UNKNOWN"
  }

  /** No two named operations share a name. */
  lemma OpStringInjective(a: BoxerOp, b: BoxerOp)
    requires IsNamedOp(a) && IsNamedOp(b)
    requires OpString(a) == OpString(b)
    ensures a == b
  {
  }

  type ReturnCode = int

  const NOT_INITIALIZED: ReturnCode := 0
  const SUCCESS: ReturnCode := 1
  const INTERNAL_ERROR: ReturnCode := 2
  const NOT_FOUND: ReturnCode := 3
  const INVALID_REQUEST: ReturnCode := 4
  const ALREADY_EXISTS: ReturnCode := 5

  /** One of the six named return codes. */
  predicate IsNamedCode(rc: ReturnCode)
  {
    NOT_INITIALIZED <= rc <= ALREADY_EXISTS
  }

  /** ReturnCode.String: a named code gets its own name, any other value
      "UNKNOWN". */
  function CodeString(rc: ReturnCode): (r: string)
    ensures IsNamedCode(rc) <==> r != "UNKNOWN"
  {
    if rc == NOT_INITIALIZED then "NOT_INITIALIZED"
    else if rc == SUCCESS then "SUCCESS"
    else if rc == INTERNAL_ERROR then "INTERNAL_ERROR"
    else if rc == NOT_FOUND then "NOT_FOUND"
    else if rc == INVALID_REQUEST then "INVALID_REQUEST"
    else if rc == ALREADY_EXISTS then "ALREADY_EXISTS"
    else "UNKNOWN"
  }

  /** No two named return codes share a name. */
  lemma CodeStringInjective(a: ReturnCode, b: ReturnCode)
    requires IsNamedCode(a) && IsNamedCode(b)
    requires CodeString(a) == CodeString(b)
    ensures a == b
  {
  }

  /** The caller's view of a VM: a plain value, so it keeps what the context
      held when it was made and never follows the context afterwards. */
  datatype Box = Box(group: string, machine: string, ip: string, os: string, state: VMState)

  /** NewBox: a copy of the context's description and current state. */
  function NewBox(ctx: VMContext): (box: Box)
    reads ctx
    ensures box.group == ctx.Group() && box.machine == ctx.Machine()
    ensures box.ip == ctx.IP() && box.os == ctx.OS()
    ensures box.state == ctx.State()
  {
    Box(ctx.Group(), ctx.Machine(), ctx.IP(), ctx.OS(), ctx.State())
  }

  /** A request names an operation and a box; the box may be nil. */
  datatype BoxerRequest = BoxerRequest(op: BoxerOp, boxInfo: Option<Box>)

  /** A response carries a return code and a box, which may be nil. */
  datatype BoxerResponse = BoxerResponse(code: ReturnCode, boxInfo: Option<Box>)
}
