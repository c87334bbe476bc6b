/**
 * The client facade of boxer/boxerclient/boxerclient.go. A `BoxerClient`
 * keeps the contexts it has handed out in `ctxPool`, keyed by
 * "group:machine", in front of the resource pool (`VMCompose`) and the later
 * VM controller. `Balloc` and `Bfree` wrap the pool's allocate and free, and
 * `Do` sends an operation on an allocated box to the controller.
 *
 * The client's pool and controller are the ones modelled in VMComposition and
 * BoxerVMController; the command each operation runs is an input, as it is
 * there.
 */
module BoxerClients {
  import opened Errors
  import opened Strings
  import opened Config
  import opened VMStates
  import opened VMContexts
  import opened Commands
  import opened VMComposition
  import opened BoxerBehavior
  import Later = BoxerVMController

  /** generateContextPoolKey: the group name, one ':' and the machine name. */
  function GenerateContextPoolKey(group: string, machine: string): (key: string)
    ensures |key| == |group| + 1 + |machine|
    ensures key[..|group|] == group && key[|group|] == ':' && key[|group| + 1..] == machine
  {
    group + ":" + machine
  }

  /** The key a box is filed under. */
  function KeyOf(box: Box): string
  {
    GenerateContextPoolKey(box.group, box.machine)
  }

  /** When the group name holds no ':', the key can be taken apart again:
      its first ':'-separated piece is the group and what follows that
      piece's ':' is the machine name. */
  lemma KeyParts(group: string, machine: string)
    requires CountChar(group, ':') == 0
    ensures Split(GenerateContextPoolKey(group, machine), ':')[0] == group
    ensures GenerateContextPoolKey(group, machine)[|group| + 1..] == machine
  {
    SplitAtSeparator(group, machine, ':');
    assert GenerateContextPoolKey(group, machine) == group + [':'] + machine;
  }

  /** Hence two (group, machine) pairs whose groups hold no ':' share a key
      exactly when they are the same pair. */
  lemma KeyInjective(group1: string, machine1: string, group2: string, machine2: string)
    requires CountChar(group1, ':') == 0 && CountChar(group2, ':') == 0
    ensures GenerateContextPoolKey(group1, machine1) == GenerateContextPoolKey(group2, machine2)
            <==> group1 == group2 && machine1 == machine2
  {
    KeyParts(group1, machine1);
    KeyParts(group2, machine2);
  }

  /** A ':' may move between the group and the machine name without changing
      the key: group "a:b" with machine "c" and group "a" with machine "b:c"
      are filed under the same key. */
  lemma KeyCollision(group: string, middle: string, machine: string)
    ensures GenerateContextPoolKey(group + ":" + middle, machine) == GenerateContextPoolKey(group, middle + ":" + machine)
  {
  }

  /** The controller call Do makes: STOP, START and RESTORE go to StopVM,
      StartVM and RestoreSnapshot; any other operation calls nothing and
      succeeds. The VM's state changes only through a controller call that
      took the mutex. */
  function Dispatch(op: BoxerOp, control: VMControlConfig, ctx: VMContext, state: VMState, run: CommandRun): (t: Later.Transition)
    ensures !IsNamedOp(op) ==> t == Later.Transition(Pass, state, false)
    ensures t.state != state ==> IsNamedOp(op) && t.locked
  {
    if op == STOP then Later.Stop(state, Later.ReplaceReservedKeyword(control.stopCmd, Some(ctx)), run)
    else if op == START then Later.Start(state, Later.ReplaceReservedKeyword(control.startCmd, Some(ctx)), run)
    else if op == RESTORE then Later.Restore(state, Later.ReplaceReservedKeyword(control.restoreSnapshotCmd, Some(ctx)), run)
    else Later.Transition(Pass, state, false)
  }

  /** Every context in the client's pool is filed under its own key and is
      the very context the resource pool records as allocated in its group. */
  ghost predicate Tracked(ctxPool: map<string, VMContext>, groups: map<string, VMContextGroup>)
  {
    forall k :: k in ctxPool ==>
      && k == GenerateContextPoolKey(ctxPool[k].Group(), ctxPool[k].Machine())
      && ctxPool[k].Group() in groups
      && ctxPool[k].Machine() in groups[ctxPool[k].Group()].allocatedVMInfo
      && groups[ctxPool[k].Group()].allocatedVMInfo[ctxPool[k].Machine()] == ctxPool[k]
  }

  /** Allocating from a group keeps every tracked context allocated, and the
      context handed out belongs to that group and may be tracked under its
      key. */
  lemma TrackedAllocate(ctxPool: map<string, VMContext>, groups: map<string, VMContextGroup>, group: string)
    requires forall g {:trigger GroupSound(groups, g)} :: GroupSound(groups, g)
    requires Tracked(ctxPool, groups)
    requires group in groups && groups[group].vmInfoPool != []
    ensures
      var head := groups[group].vmInfoPool[0];
      var next := groups[group := GroupAllocate(groups[group]).group];
      && head.Group() == group
      && Tracked(ctxPool, next)
      && (GenerateContextPoolKey(group, head.Machine()) !in ctxPool ==>
            Tracked(ctxPool[GenerateContextPoolKey(group, head.Machine()) := head], next))
  {
    assert GroupSound(groups, group);
    AllocateKeepsGroup(groups[group]);
  }

  /** Freeing a tracked context: its group exists and holds it as allocated,
      so the pool accepts the free, and dropping its key keeps every other
      tracked context allocated. */
  lemma TrackedFree(ctxPool: map<string, VMContext>, groups: map<string, VMContextGroup>, key: string)
    requires forall g {:trigger GroupSound(groups, g)} :: GroupSound(groups, g)
    requires Tracked(ctxPool, groups)
    requires key in ctxPool
    ensures
      var ctx := ctxPool[key];
      && ctx.Group() in groups
      && ctx.Machine() in groups[ctx.Group()].allocatedVMInfo
      && Tracked(ctxPool - {key}, groups[ctx.Group() := GroupFree(groups[ctx.Group()], ctx).group])
  {
    var ctx := ctxPool[key];
    assert GroupSound(groups, ctx.Group());
    FreeKeepsGroup(groups[ctx.Group()], ctx);
    var rest := ctxPool - {key};
    var next := groups[ctx.Group() := GroupFree(groups[ctx.Group()], ctx).group];
    forall k | k in rest
      ensures rest[k].Group() in next && rest[k].Machine() in next[rest[k].Group()].allocatedVMInfo
      ensures next[rest[k].Group()].allocatedVMInfo[rest[k].Machine()] == rest[k]
    {
      assert k != key;
      if rest[k].Group() == ctx.Group() {
        assert rest[k].Machine() != ctx.Machine();
      }
    }
  }

  /** When no group name holds a ':', the context a group hands out is never
      already tracked: Balloc's "already in the context pool" error needs a
      ':' in a group name. */
  lemma NoDuplicateWithoutColons(ctxPool: map<string, VMContext>, groups: map<string, VMContextGroup>, group: string)
    requires forall g {:trigger GroupSound(groups, g)} :: GroupSound(groups, g)
    requires Tracked(ctxPool, groups)
    requires forall g :: g in groups ==> CountChar(g, ':') == 0
    requires group in groups && groups[group].vmInfoPool != []
    ensures GenerateContextPoolKey(group, groups[group].vmInfoPool[0].Machine()) !in ctxPool
  {
    var head := groups[group].vmInfoPool[0];
    var key := GenerateContextPoolKey(group, head.Machine());
    assert GroupSound(groups, group);
    forall k | k in ctxPool
      ensures k != key
    {
      var ctx := ctxPool[k];
      if ctx.Group() == group {
        assert ctx.Machine() != head.Machine();
      }
      KeyInjective(group, head.Machine(), ctx.Group(), ctx.Machine());
    }
  }

  class BoxerClient {
    const vc: VMCompose
    const vmc: Later.VMController
    // context pool key: group:machine
    var ctxPool: map<string, VMContext>

    /** The pool and the controller keep their invariants, and every tracked
        context is allocated in the pool. */
    ghost predicate Valid()
      reads this, vc, vmc, vmc.mux
    {
      vc.Valid() && vmc.Valid() && Tracked(ctxPool, vc.groupMap)
    }

    /** NewBoxerClient: an empty context pool in front of the given resource
        pool and controller. */
    constructor (vc: VMCompose, vmc: Later.VMController)
      requires vc.Valid() && vmc.Valid()
      ensures this.vc == vc && this.vmc == vmc && ctxPool == map[]
      ensures Valid()
    {
      this.vc := vc;
      this.vmc := vmc;
      ctxPool := map[];
    }

    /** The context a request's box is tracked under, if any. */
    ghost function Touched(req: BoxerRequest): set<VMContext>
      reads this
    {
      if req.boxInfo.Some? && KeyOf(req.boxInfo.value) in ctxPool then {ctxPool[KeyOf(req.boxInfo.value)]} else {}
    }

    /** Balloc. An empty group name is refused with InvalidArgument before
        the pool is asked; a pool error becomes InternalError and a nil
        context becomes Full; a context whose key is already tracked is
        InternalError, and the allocation the pool made stays in place;
        otherwise the context is tracked under its key and the caller gets a
        box mirroring it. */
    method Balloc(group: string) returns (r: Result<Box>)
      requires Valid()
      modifies this, vc
      ensures Valid()
      ensures vc.maxVMOperations == old(vc.maxVMOperations)
      ensures group == "" ==> r == Err(InvalidArgument) && ctxPool == old(ctxPool) && unchanged(vc)
      ensures group != "" && group !in old(vc.groupMap) ==>
        && r == Err(InternalError) && ctxPool == old(ctxPool)
        && vc.groupMap == old(vc.groupMap) && vc.currentVMOperations == old(vc.currentVMOperations)
      ensures group != "" && group in old(vc.groupMap)
              && (old(vc.currentVMOperations) >= vc.maxVMOperations || old(vc.groupMap)[group].vmInfoPool == []) ==>
        && r == Err(Full) && ctxPool == old(ctxPool)
        && vc.groupMap == old(vc.groupMap) && vc.currentVMOperations == old(vc.currentVMOperations)
      ensures group != "" && group in old(vc.groupMap)
              && old(vc.currentVMOperations) < vc.maxVMOperations && old(vc.groupMap)[group].vmInfoPool != [] ==>
        var ctx := old(vc.groupMap)[group].vmInfoPool[0];
        var key := GenerateContextPoolKey(group, ctx.Machine());
        && vc.groupMap == old(vc.groupMap)[group := GroupAllocate(old(vc.groupMap)[group]).group]
        && vc.currentVMOperations == old(vc.currentVMOperations) + 1
        && (key in old(ctxPool) ==> r == Err(InternalError) && ctxPool == old(ctxPool))
        && (key !in old(ctxPool) ==> r == Ok(NewBox(ctx)) && ctxPool == old(ctxPool)[key := ctx])
    {
      if group == "" {
        return Err(InvalidArgument);
      }
      if group in vc.groupMap && vc.currentVMOperations < vc.maxVMOperations && vc.groupMap[group].vmInfoPool != [] {
        TrackedAllocate(ctxPool, vc.groupMap, group);
      }
      var reply := vc.AllocateVMContext(group);
      if reply.Err? {
        return Err(InternalError);
      }
      if reply.value.None? {
        return Err(Full);
      }
      var vmCtx := reply.value.value;
      var key := GenerateContextPoolKey(vmCtx.Group(), vmCtx.Machine());
      if key in ctxPool {
        return Err(InternalError);
      }
      ctxPool := ctxPool[key := vmCtx];
      return Ok(NewBox(vmCtx));
    }

    /** Bfree. A nil box is refused with InvalidArgument and a box whose key
        is not tracked with InternalError, before the pool is asked; a
        tracked context is allocated in the pool, so the pool's free always
        succeeds: the context goes back to its group and its key is dropped. */
    method Bfree(box: Option<Box>) returns (r: Outcome)
      requires Valid()
      modifies this, vc
      ensures Valid()
      ensures vc.maxVMOperations == old(vc.maxVMOperations)
      ensures box.None? ==> r == Fail(InvalidArgument) && ctxPool == old(ctxPool) && unchanged(vc)
      ensures box.Some? && KeyOf(box.value) !in old(ctxPool) ==>
        r == Fail(InternalError) && ctxPool == old(ctxPool) && unchanged(vc)
      ensures box.Some? && KeyOf(box.value) in old(ctxPool) ==>
        var ctx := old(ctxPool)[KeyOf(box.value)];
        && r == Pass
        && ctxPool == old(ctxPool) - {KeyOf(box.value)}
        && vc.groupMap == old(vc.groupMap)[ctx.Group() := GroupFree(old(vc.groupMap)[ctx.Group()], ctx).group]
        && vc.currentVMOperations == old(vc.currentVMOperations) - 1
    {
      if box.None? {
        return Fail(InvalidArgument);
      }
      var key := GenerateContextPoolKey(box.value.group, box.value.machine);
      if key !in ctxPool {
        return Fail(InternalError);
      }
      TrackedFree(ctxPool, vc.groupMap, key);
      var freed := vc.FreeVMContext(ctxPool[key]);
      if freed.Fail? {
        // a tracked context is always allocated in the pool
        assert false;
        return Fail(InternalError);
      }
      ctxPool := ctxPool - {key};
      return Pass;
    }

    /** The switch of Do: the controller call for `op`, or none. */
    method Operate(op: BoxerOp, vmCtx: VMContext, run: CommandRun) returns (opErr: Outcome)
      requires vmc.Valid()
      modifies vmCtx, vmc.mux
      ensures vmc.Valid()
      ensures var t := Dispatch(op, vmc.vmControl, vmCtx, old(vmCtx.State()), run);
        && opErr == t.result && vmCtx.State() == t.state
        && vmc.mux.locks == old(vmc.mux.locks) + (if t.locked then 1 else 0)
        && vmc.mux.releases == old(vmc.mux.releases) + (if t.locked then 1 else 0)
    {
      opErr := Pass;
      if op == STOP {
        opErr := vmc.StopVM(vmCtx, run);
      } else if op == START {
        opErr := vmc.StartVM(vmCtx, run);
      } else if op == RESTORE {
        opErr := vmc.RestoreSnapshot(vmCtx, run);
      }
    }

    /** Do. A nil box is INVALID_REQUEST with InvalidArgument and an untracked
        box NOT_FOUND with InvalidState, both before the controller is
        called; otherwise the operation is dispatched on the tracked context
        and a controller error becomes INTERNAL_ERROR with InternalError. The
        response then carries a box made after the operation. */
    method Do(req: BoxerRequest, run: CommandRun) returns (resp: BoxerResponse, err: Outcome)
      requires Valid()
      modifies vmc.mux, Touched(req)
      ensures Valid()
      ensures req.boxInfo.None? ==>
        resp == BoxerResponse(INVALID_REQUEST, None) && err == Fail(InvalidArgument) && unchanged(vmc.mux)
      ensures req.boxInfo.Some? && KeyOf(req.boxInfo.value) !in ctxPool ==>
        resp == BoxerResponse(NOT_FOUND, req.boxInfo) && err == Fail(InvalidState) && unchanged(vmc.mux)
      ensures req.boxInfo.Some? && KeyOf(req.boxInfo.value) in ctxPool ==>
        var ctx := ctxPool[KeyOf(req.boxInfo.value)];
        var t := Dispatch(req.op, vmc.vmControl, ctx, old(ctx.State()), run);
        && ctx.State() == t.state
        && vmc.mux.locks == old(vmc.mux.locks) + (if t.locked then 1 else 0)
        && vmc.mux.releases == old(vmc.mux.releases) + (if t.locked then 1 else 0)
        && (t.result == Pass ==> resp == BoxerResponse(SUCCESS, Some(NewBox(ctx))) && err == Pass)
        && (t.result.Fail? ==> resp == BoxerResponse(INTERNAL_ERROR, Some(NewBox(ctx))) && err == Fail(InternalError))
    {
      if req.boxInfo.None? {
        return BoxerResponse(INVALID_REQUEST, req.boxInfo), Fail(InvalidArgument);
      }
      var key := GenerateContextPoolKey(req.boxInfo.value.group, req.boxInfo.value.machine);
      if key !in ctxPool {
        return BoxerResponse(NOT_FOUND, req.boxInfo), Fail(InvalidState);
      }
      var vmCtx := ctxPool[key];
      var opErr := Operate(req.op, vmCtx, run);
      if opErr.Fail? {
        return BoxerResponse(INTERNAL_ERROR, Some(NewBox(vmCtx))), Fail(InternalError);
      }
      return BoxerResponse(SUCCESS, Some(NewBox(vmCtx))), Pass;
    }
  }
}
