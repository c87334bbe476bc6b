/**
 * The resource pool of boxerd/vmcontroller/vmcompose.go.
 *
 * A `VMCompose` owns named groups. Each group keeps a FIFO free list
 * (`vmInfoPool`) and a map from machine name to the contexts handed out
 * (`allocatedVMInfo`), and re-checks `size == |vmInfoPool| + |allocatedVMInfo|`
 * after every mutation. A counter shared by all groups caps the number of
 * contexts handed out. The Go counter is a `uint32` updated with atomic adds;
 * here the operations are sequential and the wrap-around of the adds is
 * written out.
 *
 * A group is only ever reachable through the compose's `groupMap` (its type
 * is unexported and no pointer to it leaves the compose), so it is modelled
 * as a value: each group operation returns its result together with the
 * group as the Go method leaves it, and the compose stores that group back.
 */
module VMComposition {
  import opened Errors
  import opened Config
  import opened VMStates
  import opened VMContexts

  /** uint32 arithmetic is modulo 2^32. */
  const Uint32Modulus: int := 0x1_0000_0000

  /** atomic.AddUint32 on values: the sum wraps around 2^32. Adding
      ^uint32(0) = 2^32 - 1 is how the Go code subtracts one. */
  function AddUint32(a: int, b: int): (r: int)
    requires 0 <= a < Uint32Modulus && 0 <= b < Uint32Modulus
    ensures 0 <= r < Uint32Modulus
    ensures a + b < Uint32Modulus ==> r == a + b
    ensures a + b >= Uint32Modulus ==> r == a + b - Uint32Modulus
  {
    (a + b) % Uint32Modulus
  }

  /** vmContextGroup. */
  datatype VMContextGroup = VMContextGroup(
    groupName: string,
    size: int,
    vmInfoPool: seq<VMContext>,
    allocatedVMInfo: map<string, VMContext>)

  /** What a group method returns, next to the group as it leaves it. */
  datatype GroupStep<T> = GroupStep(result: T, group: VMContextGroup)

  /** No machine name occurs twice in a free list. */
  predicate DistinctMachines(pool: seq<VMContext>)
  {
    forall i, j :: 0 <= i < j < |pool| ==> pool[i].Machine() != pool[j].Machine()
  }

  /** Some context of the free list carries the machine name `name`. */
  predicate HasMachine(pool: seq<VMContext>, name: string)
  {
    exists i :: 0 <= i < |pool| && pool[i].Machine() == name
  }

  /** The bookkeeping of one group: the size equation the Go code re-checks
      after every mutation, and the facts that keep it true: names are unique
      in the free list, a free name is never allocated, every allocated
      context is stored under its own name, and every context belongs to
      the group. */
  predicate GroupInvariant(g: VMContextGroup)
  {
    && g.size == |g.vmInfoPool| + |g.allocatedVMInfo|
    && DistinctMachines(g.vmInfoPool)
    && (forall i :: 0 <= i < |g.vmInfoPool| ==> g.vmInfoPool[i].Machine() !in g.allocatedVMInfo)
    && (forall m :: m in g.allocatedVMInfo ==> g.allocatedVMInfo[m].Machine() == m)
    && (forall i :: 0 <= i < |g.vmInfoPool| ==> g.vmInfoPool[i].Group() == g.groupName)
    && (forall m :: m in g.allocatedVMInfo ==> g.allocatedVMInfo[m].Group() == g.groupName)
  }

  /** vmContextGroup.AllocateVMContext: an empty free list answers "nil, no
      error" and leaves the group alone; otherwise the head of the free list
      leaves it and is recorded as allocated under its machine name, and it
      is the context handed out unless the size check fails. */
  function GroupAllocate(g: VMContextGroup): (r: GroupStep<Result<Option<VMContext>>>)
    ensures r.group.groupName == g.groupName && r.group.size == g.size
    ensures r.result == Ok(None) <==> g.vmInfoPool == []
    ensures r.result == Ok(None) ==> r.group == g
    ensures g.vmInfoPool != [] ==>
      var c := g.vmInfoPool[0];
      && g.vmInfoPool == [c] + r.group.vmInfoPool
      && c.Machine() in r.group.allocatedVMInfo && r.group.allocatedVMInfo[c.Machine()] == c
      && (r.result.Ok? ==> r.result == Ok(Some(c)))
    ensures r.result.Err? ==> r.result.code == InvalidOperation
  {
    if |g.vmInfoPool| == 0 then
      GroupStep(Ok(None), g)
    else
      var vmContext := g.vmInfoPool[0];
      var next := g.(vmInfoPool := g.vmInfoPool[1..],
                     allocatedVMInfo := g.allocatedVMInfo[vmContext.Machine() := vmContext]);
      if |next.vmInfoPool| + |next.allocatedVMInfo| != next.size then
        GroupStep(Err(InvalidOperation), next)
      else
        GroupStep(Ok(Some(vmContext)), next)
  }

  /** vmContextGroup.FreeVMContext: a name that is not allocated is refused
      with InvalidArgument and leaves the group alone; otherwise the name
      leaves the allocated map and the context joins the back of the free
      list, and the answer is Pass unless the size check fails. */
  function GroupFree(g: VMContextGroup, vmContext: VMContext): (r: GroupStep<Outcome>)
    ensures r.group.groupName == g.groupName && r.group.size == g.size
    ensures r.result == Fail(InvalidArgument) <==> vmContext.Machine() !in g.allocatedVMInfo
    ensures r.result == Fail(InvalidArgument) ==> r.group == g
    ensures vmContext.Machine() in g.allocatedVMInfo ==>
      && vmContext.Machine() !in r.group.allocatedVMInfo
      && r.group.vmInfoPool == g.vmInfoPool + [vmContext]
      && (r.result == Pass || r.result == Fail(InvalidOperation))
  {
    if vmContext.Machine() !in g.allocatedVMInfo then
      GroupStep(Fail(InvalidArgument), g)
    else
      var next := g.(allocatedVMInfo := g.allocatedVMInfo - {vmContext.Machine()},
                     vmInfoPool := g.vmInfoPool + [vmContext]);
      if |next.vmInfoPool| + |next.allocatedVMInfo| != next.size then
        GroupStep(Fail(InvalidOperation), next)
      else
        GroupStep(Pass, next)
  }

  /** Allocating from a group: an empty free list answers "nil, no error" and
      changes nothing; otherwise the head of the free list is handed out and
      recorded under its machine name, the rest of the free list keeps its
      order, one more context is allocated, and the bookkeeping still holds,
      so the size-mismatch error is never returned. */
  lemma AllocateKeepsGroup(g: VMContextGroup)
    requires GroupInvariant(g)
    ensures g.vmInfoPool == [] ==> GroupAllocate(g) == GroupStep(Ok(None), g)
    ensures g.vmInfoPool != [] ==>
      var step := GroupAllocate(g);
      var head := g.vmInfoPool[0];
      && step.result == Ok(Some(head))
      && step.group.groupName == g.groupName && step.group.size == g.size
      && step.group.vmInfoPool == g.vmInfoPool[1..]
      && head.Machine() !in g.allocatedVMInfo
      && step.group.allocatedVMInfo == g.allocatedVMInfo[head.Machine() := head]
      && |step.group.allocatedVMInfo| == |g.allocatedVMInfo| + 1
    ensures GroupInvariant(GroupAllocate(g).group)
  {
    if g.vmInfoPool != [] {
      var next := GroupAllocate(g).group;
      forall i | 0 <= i < |next.vmInfoPool|
        ensures next.vmInfoPool[i].Machine() !in next.allocatedVMInfo
      {
        assert next.vmInfoPool[i] == g.vmInfoPool[i + 1];
      }
    }
  }

  /** Freeing into a group: a name that is not allocated is refused with
      InvalidArgument and changes nothing; otherwise the name leaves the
      allocated map, the given context goes to the back of the free list, one
      context fewer is allocated, and the bookkeeping still holds, so the
      size-mismatch error is never returned. */
  lemma FreeKeepsGroup(g: VMContextGroup, free: VMContext)
    requires GroupInvariant(g) && free.Group() == g.groupName
    ensures free.Machine() !in g.allocatedVMInfo ==> GroupFree(g, free) == GroupStep(Fail(InvalidArgument), g)
    ensures free.Machine() in g.allocatedVMInfo ==>
      var step := GroupFree(g, free);
      && step.result == Pass
      && step.group.groupName == g.groupName && step.group.size == g.size
      && step.group.vmInfoPool == g.vmInfoPool + [free]
      && step.group.allocatedVMInfo == g.allocatedVMInfo - {free.Machine()}
      && |step.group.allocatedVMInfo| + 1 == |g.allocatedVMInfo|
    ensures GroupInvariant(GroupFree(g, free).group)
  {
    if free.Machine() in g.allocatedVMInfo {
      var next := GroupFree(g, free).group;
      forall i | 0 <= i < |g.vmInfoPool|
        ensures g.vmInfoPool[i].Machine() != free.Machine()
      {
      }
      forall i | 0 <= i < |next.vmInfoPool|
        ensures next.vmInfoPool[i].Machine() !in next.allocatedVMInfo && next.vmInfoPool[i].Group() == g.groupName
      {
        if i < |g.vmInfoPool| {
          assert next.vmInfoPool[i] == g.vmInfoPool[i];
        }
      }
    }
  }

  /** Freeing the context just allocated restores the allocated map and moves
      that context from the front of the free list to its back. */
  lemma AllocateThenFreeRotates(g: VMContextGroup)
    requires GroupInvariant(g) && g.vmInfoPool != []
    ensures
      var head := g.vmInfoPool[0];
      var back := GroupFree(GroupAllocate(g).group, head);
      && back.result == Pass
      && back.group.allocatedVMInfo == g.allocatedVMInfo
      && back.group.vmInfoPool == g.vmInfoPool[1..] + [head]
  {
    var head := g.vmInfoPool[0];
    AllocateKeepsGroup(g);
    assert head.Group() == g.groupName;
    FreeKeepsGroup(GroupAllocate(g).group, head);
    assert g.allocatedVMInfo[head.Machine() := head] - {head.Machine()} == g.allocatedVMInfo;
  }

  /** vmContextGroup.AppendVMContext. A name already allocated or already in
      the free list is refused with InvalidArgument and the group is left as
      it was; otherwise a fresh STOPPED context for the description joins the
      back of the free list and the size grows by one. The result is Pass
      exactly when the size equation held before, so on a group that keeps
      its bookkeeping the size-mismatch error is never returned, and the
      bookkeeping still holds afterwards. */
  method GroupAppend(g: VMContextGroup, added: VMInfoConfig) returns (r: Outcome, next: VMContextGroup)
    ensures added.name in g.allocatedVMInfo || HasMachine(g.vmInfoPool, added.name) ==>
      r == Fail(InvalidArgument) && next == g
    ensures !(added.name in g.allocatedVMInfo || HasMachine(g.vmInfoPool, added.name)) ==>
      && next.groupName == g.groupName && next.size == g.size + 1
      && next.allocatedVMInfo == g.allocatedVMInfo
      && |next.vmInfoPool| == |g.vmInfoPool| + 1
      && next.vmInfoPool == g.vmInfoPool + [next.vmInfoPool[|g.vmInfoPool|]]
      && fresh(next.vmInfoPool[|g.vmInfoPool|])
      && next.vmInfoPool[|g.vmInfoPool|].info == added && next.vmInfoPool[|g.vmInfoPool|].state == STOPPED
      && (r == Pass <==> g.size == |g.vmInfoPool| + |g.allocatedVMInfo|)
      && (r != Pass ==> r == Fail(InvalidOperation))
    ensures GroupInvariant(g) && added.group == g.groupName ==> GroupInvariant(next)
  {
    if added.name in g.allocatedVMInfo {
      return Fail(InvalidArgument), g;
    }
    var i := 0;
    while i < |g.vmInfoPool|
      invariant 0 <= i <= |g.vmInfoPool|
      invariant forall j :: 0 <= j < i ==> g.vmInfoPool[j].Machine() != added.name
    {
      if g.vmInfoPool[i].Machine() == added.name {
        return Fail(InvalidArgument), g;
      }
      i := i + 1;
    }
    var addedVMContext := new VMContext(added);
    next := g.(vmInfoPool := g.vmInfoPool + [addedVMContext], size := g.size + 1);
    if |next.vmInfoPool| + |next.allocatedVMInfo| != next.size {
      return Fail(InvalidOperation), next;
    }
    return Pass, next;
  }

  /** No two descriptions in the list carry the same machine name. */
  predicate DistinctNames(vmInfos: seq<VMInfoConfig>)
  {
    forall i, j :: 0 <= i < j < |vmInfos| ==> vmInfos[i].name != vmInfos[j].name
  }

  /** newVMGroup: an empty group name is refused with InvalidArgument, so is a
      description of another group, and an empty list with InvalidOperation.
      Otherwise the group holds one fresh STOPPED context per description, in
      order, nothing allocated, and a size equal to the number of
      descriptions; its bookkeeping holds exactly when the names are distinct
      (the function itself does not check that). */
  method NewVMGroup(groupName: string, vmInfos: seq<VMInfoConfig>) returns (r: Result<VMContextGroup>)
    ensures groupName == "" ==> r == Err(InvalidArgument)
    ensures groupName != "" && (exists i :: 0 <= i < |vmInfos| && vmInfos[i].group != groupName) ==> r == Err(InvalidArgument)
    ensures groupName != "" && vmInfos == [] ==> r == Err(InvalidOperation)
    ensures r.Ok? <==> groupName != "" && vmInfos != [] && forall i :: 0 <= i < |vmInfos| ==> vmInfos[i].group == groupName
    ensures r.Ok? ==>
      var g := r.value;
      && g.groupName == groupName
      && g.size == |vmInfos| && |g.vmInfoPool| == |vmInfos| && g.allocatedVMInfo == map[]
      && (forall i :: 0 <= i < |vmInfos| ==>
            fresh(g.vmInfoPool[i]) && g.vmInfoPool[i].info == vmInfos[i] && g.vmInfoPool[i].state == STOPPED)
      && (GroupInvariant(g) <==> DistinctNames(vmInfos))
  {
    if groupName == "" {
      return Err(InvalidArgument);
    }
    var vmInfoPool: seq<VMContext> := [];
    var idx := 0;
    while idx < |vmInfos|
      invariant 0 <= idx <= |vmInfos|
      invariant |vmInfoPool| == idx
      invariant forall i :: 0 <= i < idx ==> vmInfos[i].group == groupName
      invariant forall i :: 0 <= i < idx ==>
        fresh(vmInfoPool[i]) && vmInfoPool[i].info == vmInfos[i] && vmInfoPool[i].state == STOPPED
    {
      if groupName != vmInfos[idx].group {
        return Err(InvalidArgument);
      }
      var vmContext := new VMContext(vmInfos[idx]);
      vmInfoPool := vmInfoPool + [vmContext];
      idx := idx + 1;
    }
    if |vmInfoPool| == 0 {
      return Err(InvalidOperation);
    }
    assert DistinctMachines(vmInfoPool) <==> DistinctNames(vmInfos) by {
      assert forall i :: 0 <= i < |vmInfoPool| ==> vmInfoPool[i].Machine() == vmInfos[i].name;
    }
    return Ok(VMContextGroup(groupName, |vmInfos|, vmInfoPool, map[]));
  }

  /** The sum of the values of a map. */
  ghost function SumValues(m: map<string, nat>): nat
    decreases |m|
  {
    if m == map[] then 0
    else
      var k :| k in m;
      m[k] + SumValues(m - {k})
  }

  /** The sum does not depend on which key is taken out first. */
  lemma {:induction false} SumValuesRemove(m: map<string, nat>, k: string)
    requires k in m
    ensures SumValues(m) == m[k] + SumValues(m - {k})
    decreases |m|
  {
    var j :| j in m && SumValues(m) == m[j] + SumValues(m - {j});
    if j != k {
      var mj, mk := m - {j}, m - {k};
      assert |mj| < |m| && |mk| < |m|;
      SumValuesRemove(mj, k);
      SumValuesRemove(mk, j);
      assert mj - {k} == mk - {j};
    }
  }

  /** Changing one value changes the sum by the difference. */
  lemma SumValuesUpdate(m: map<string, nat>, k: string, v: nat)
    requires k in m
    ensures SumValues(m[k := v]) + m[k] == SumValues(m) + v
  {
    SumValuesRemove(m, k);
    SumValuesRemove(m[k := v], k);
    assert m[k := v] - {k} == m - {k};
  }

  /** Adding a key with value zero leaves the sum unchanged. */
  lemma SumValuesAddZero(m: map<string, nat>, k: string)
    requires k !in m
    ensures SumValues(m[k := 0]) == SumValues(m)
  {
    SumValuesRemove(m[k := 0], k);
    assert m[k := 0] - {k} == m;
  }

  /** How many contexts each group has handed out. */
  ghost function AllocatedCounts(groups: map<string, VMContextGroup>): map<string, nat>
  {
    map g | g in groups :: |groups[g].allocatedVMInfo|
  }

  /** The number of contexts handed out over all groups. */
  ghost function TotalAllocated(groups: map<string, VMContextGroup>): nat
  {
    SumValues(AllocatedCounts(groups))
  }

  /** Replacing one group changes the total by the change in that group, and
      no group holds more than the total. */
  lemma TotalAllocatedUpdate(groups: map<string, VMContextGroup>, name: string, g: VMContextGroup)
    requires name in groups
    ensures TotalAllocated(groups[name := g]) + |groups[name].allocatedVMInfo| == TotalAllocated(groups) + |g.allocatedVMInfo|
    ensures |groups[name].allocatedVMInfo| <= TotalAllocated(groups)
  {
    var counts := AllocatedCounts(groups);
    assert AllocatedCounts(groups[name := g]) == counts[name := |g.allocatedVMInfo|];
    SumValuesUpdate(counts, name, |g.allocatedVMInfo|);
    SumValuesRemove(counts, name);
  }

  /** The group stored under `g`, if there is one, is called `g` and keeps
      its bookkeeping. */
  predicate GroupSound(groups: map<string, VMContextGroup>, g: string)
  {
    g in groups ==> groups[g].groupName == g && GroupInvariant(groups[g])
  }

  /** The invariant of the whole pool: every group keeps its bookkeeping, the
      counter equals the number of contexts handed out over all groups, and
      it never exceeds the maximum, which is a uint32. */
  ghost predicate ComposeInvariant(groups: map<string, VMContextGroup>, maxOps: int, currentOps: int)
  {
    && (forall g {:trigger GroupSound(groups, g)} :: GroupSound(groups, g))
    && 0 <= currentOps <= maxOps < Uint32Modulus
    && currentOps == TotalAllocated(groups)
  }

  /** Storing a group that keeps its bookkeeping under its own name keeps
      every group sound. */
  lemma StoreGroupKeepsSound(groups: map<string, VMContextGroup>, name: string, g: VMContextGroup)
    requires forall h {:trigger GroupSound(groups, h)} :: GroupSound(groups, h)
    requires g.groupName == name && GroupInvariant(g)
    ensures forall h {:trigger GroupSound(groups[name := g], h)} :: GroupSound(groups[name := g], h)
  {
    var updated := groups[name := g];
    forall h
      ensures GroupSound(updated, h)
    {
      assert GroupSound(groups, h);
    }
  }

  /** Replacing one group by a group that keeps its bookkeeping, with the
      counter moved by the change in that group's allocated count, keeps the
      pool invariant. */
  lemma ReplaceGroupKeepsInvariant(groups: map<string, VMContextGroup>, maxOps: int, currentOps: int,
                                   name: string, g: VMContextGroup, newOps: int)
    requires ComposeInvariant(groups, maxOps, currentOps)
    requires name in groups && g.groupName == name && GroupInvariant(g)
    requires newOps + |groups[name].allocatedVMInfo| == currentOps + |g.allocatedVMInfo|
    requires newOps <= maxOps
    ensures ComposeInvariant(groups[name := g], maxOps, newOps)
  {
    TotalAllocatedUpdate(groups, name, g);
    StoreGroupKeepsSound(groups, name, g);
  }

  /** A new group with nothing allocated adds nothing to the total. */
  lemma TotalAllocatedAddEmpty(groups: map<string, VMContextGroup>, name: string, g: VMContextGroup)
    requires name !in groups && g.allocatedVMInfo == map[]
    ensures TotalAllocated(groups[name := g]) == TotalAllocated(groups)
  {
    var counts := AllocatedCounts(groups);
    assert AllocatedCounts(groups[name := g]) == counts[name := 0];
    SumValuesAddZero(counts, name);
  }

  /** Adding a new group with nothing allocated keeps the pool invariant and
      the counter. */
  lemma AddGroupKeepsInvariant(groups: map<string, VMContextGroup>, maxOps: int, currentOps: int,
                               name: string, g: VMContextGroup)
    requires ComposeInvariant(groups, maxOps, currentOps)
    requires name !in groups && g.groupName == name && GroupInvariant(g) && g.allocatedVMInfo == map[]
    ensures ComposeInvariant(groups[name := g], maxOps, currentOps)
  {
    TotalAllocatedAddEmpty(groups, name, g);
    StoreGroupKeepsSound(groups, name, g);
  }

  /** Allocating through the pool, below the maximum, from a known group: the
      group answers with the head of its free list, or with "nil" and no
      change when that list is empty, never with an error; storing the group
      back and counting one more operation keeps the pool invariant. */
  lemma ComposeAllocateStep(groups: map<string, VMContextGroup>, maxOps: int, currentOps: int, name: string)
    requires ComposeInvariant(groups, maxOps, currentOps)
    requires name in groups && currentOps < maxOps
    ensures groups[name].vmInfoPool == [] ==> GroupAllocate(groups[name]) == GroupStep(Ok(None), groups[name])
    ensures groups[name].vmInfoPool != [] ==>
      && GroupAllocate(groups[name]).result == Ok(Some(groups[name].vmInfoPool[0]))
      && ComposeInvariant(groups[name := GroupAllocate(groups[name]).group], maxOps, currentOps + 1)
  {
    assert GroupSound(groups, name);
    AllocateKeepsGroup(groups[name]);
    if groups[name].vmInfoPool != [] {
      ReplaceGroupKeepsInvariant(groups, maxOps, currentOps, name, GroupAllocate(groups[name]).group, currentOps + 1);
    }
  }

  /** Freeing through the pool into the context's own group: a name the group
      has not handed out is refused by the group; otherwise the group accepts
      it, at least one operation is counted, and storing the group back with
      one operation fewer keeps the pool invariant. */
  lemma ComposeFreeStep(groups: map<string, VMContextGroup>, maxOps: int, currentOps: int, free: VMContext)
    requires ComposeInvariant(groups, maxOps, currentOps)
    requires free.Group() in groups
    ensures free.Machine() !in groups[free.Group()].allocatedVMInfo ==>
      GroupFree(groups[free.Group()], free) == GroupStep(Fail(InvalidArgument), groups[free.Group()])
    ensures free.Machine() in groups[free.Group()].allocatedVMInfo ==>
      && GroupFree(groups[free.Group()], free).result == Pass
      && currentOps >= 1
      && ComposeInvariant(groups[free.Group() := GroupFree(groups[free.Group()], free).group], maxOps, currentOps - 1)
  {
    var name := free.Group();
    assert GroupSound(groups, name);
    FreeKeepsGroup(groups[name], free);
    if free.Machine() in groups[name].allocatedVMInfo {
      TotalAllocatedUpdate(groups, name, groups[name]);
      ReplaceGroupKeepsInvariant(groups, maxOps, currentOps, name, GroupFree(groups[name], free).group, currentOps - 1);
    }
  }

  /** The descriptions of `m`, among the keys in `done`, that name group `g`. */
  ghost function InfosIn(m: map<string, VMInfoConfig>, done: set<string>, g: string): set<VMInfoConfig>
  {
    set k | k in done && k in m && m[k].group == g :: m[k]
  }

  /** The group names used by the descriptions of `m` among the keys in `done`. */
  ghost function GroupsOf(m: map<string, VMInfoConfig>, done: set<string>): set<string>
  {
    set k | k in done && k in m :: m[k].group
  }

  /** The descriptions behind a free list. */
  ghost function PoolInfos(pool: seq<VMContext>): set<VMInfoConfig>
  {
    set i | 0 <= i < |pool| :: pool[i].info
  }

  /** Among the keys in `done`: every description names a group, and two
      descriptions of the same group never share a machine name. */
  ghost predicate WellFormedOn(m: map<string, VMInfoConfig>, done: set<string>)
  {
    && (forall k :: k in done && k in m ==> m[k].group != "")
    && (forall k1, k2 :: k1 in done && k2 in done && k1 in m && k2 in m && k1 != k2 && m[k1].group == m[k2].group
          ==> m[k1].name != m[k2].name)
  }

  /** The VM descriptions NewVMCompose accepts. */
  ghost predicate WellFormed(m: map<string, VMInfoConfig>)
  {
    WellFormedOn(m, m.Keys)
  }

  /** The group map holds exactly the groups of the descriptions in `done`,
      each with nothing allocated and a free list holding exactly the
      descriptions of that group. */
  ghost predicate Built(groupMap: map<string, VMContextGroup>, m: map<string, VMInfoConfig>, done: set<string>)
  {
    && groupMap.Keys == GroupsOf(m, done)
    && forall g :: g in groupMap ==>
         && groupMap[g].allocatedVMInfo == map[]
         && PoolInfos(groupMap[g].vmInfoPool) == InfosIn(m, done, g)
  }

  class VMCompose {
    var groupMap: map<string, VMContextGroup>
    var maxVMOperations: int
    var currentVMOperations: int

    ghost predicate Valid()
      reads this
    {
      ComposeInvariant(groupMap, maxVMOperations, currentVMOperations)
    }

    /** A pool over the given groups whose maximum is the policy's maximum
        truncated to 32 bits and whose counter starts at zero. */
    constructor (groupMap: map<string, VMContextGroup>, maxOps: nat)
      requires ComposeInvariant(groupMap, maxOps % Uint32Modulus, 0)
      ensures this.groupMap == groupMap
      ensures maxVMOperations == maxOps % Uint32Modulus && currentVMOperations == 0
      ensures Valid()
    {
      this.groupMap := groupMap;
      maxVMOperations := maxOps % Uint32Modulus;
      currentVMOperations := 0;
    }

    /** vmCompose.AllocateVMContext. An unknown group is refused with
        InvalidArgument; when the counter has reached the maximum, or the
        group's free list is empty, the answer is "nil, no error"; otherwise
        the group hands out the head of its free list and the counter goes up
        by one. Nothing changes except on that last path, and the invariant
        (counter == contexts handed out <= maximum) is kept. */
    method AllocateVMContext(groupName: string) returns (r: Result<Option<VMContext>>)
      requires Valid()
      modifies this
      ensures Valid()
      ensures maxVMOperations == old(maxVMOperations)
      ensures groupName !in old(groupMap) ==>
        r == Err(InvalidArgument) && groupMap == old(groupMap) && currentVMOperations == old(currentVMOperations)
      ensures groupName in old(groupMap) && old(currentVMOperations) >= maxVMOperations ==>
        r == Ok(None) && groupMap == old(groupMap) && currentVMOperations == old(currentVMOperations)
      ensures groupName in old(groupMap) && old(currentVMOperations) < maxVMOperations
              && old(groupMap)[groupName].vmInfoPool == [] ==>
        r == Ok(None) && groupMap == old(groupMap) && currentVMOperations == old(currentVMOperations)
      ensures groupName in old(groupMap) && old(currentVMOperations) < maxVMOperations
              && old(groupMap)[groupName].vmInfoPool != [] ==>
        var g := old(groupMap)[groupName];
        && r == Ok(Some(g.vmInfoPool[0]))
        && groupMap == old(groupMap)[groupName := GroupAllocate(g).group]
        && currentVMOperations == old(currentVMOperations) + 1
    {
      if groupName !in groupMap {
        return Err(InvalidArgument);
      }
      if currentVMOperations >= maxVMOperations {
        return Ok(None);
      }
      ComposeAllocateStep(groupMap, maxVMOperations, currentVMOperations, groupName);
      var step := GroupAllocate(groupMap[groupName]);
      if step.result.Err? {
        assert false;
        return Err(InvalidOperation);
      }
      if step.result.value.None? {
        return Ok(None);
      }
      groupMap, currentVMOperations := groupMap[groupName := step.group], AddUint32(currentVMOperations, 1);
      return Ok(step.result.value);
    }

    /** vmCompose.FreeVMContext. The context's group must exist
        (InvalidArgument otherwise) and hold its name in the allocated map
        (InvalidOperation otherwise, which covers a double free); then the
        name leaves the allocated map, the context joins the back of the free
        list and the counter goes down by one, without wrapping. */
    method FreeVMContext(free: VMContext) returns (r: Outcome)
      requires Valid()
      modifies this
      ensures Valid()
      ensures maxVMOperations == old(maxVMOperations)
      ensures free.Group() !in old(groupMap) ==>
        r == Fail(InvalidArgument) && groupMap == old(groupMap) && currentVMOperations == old(currentVMOperations)
      ensures free.Group() in old(groupMap) && free.Machine() !in old(groupMap)[free.Group()].allocatedVMInfo ==>
        r == Fail(InvalidOperation) && groupMap == old(groupMap) && currentVMOperations == old(currentVMOperations)
      ensures free.Group() in old(groupMap) && free.Machine() in old(groupMap)[free.Group()].allocatedVMInfo ==>
        && r == Pass
        && groupMap == old(groupMap)[free.Group() := GroupFree(old(groupMap)[free.Group()], free).group]
        && currentVMOperations == old(currentVMOperations) - 1
    {
      if free.Group() !in groupMap {
        return Fail(InvalidArgument);
      }
      ComposeFreeStep(groupMap, maxVMOperations, currentVMOperations, free);
      var step := GroupFree(groupMap[free.Group()], free);
      if step.result.Fail? {
        return Fail(InvalidOperation);
      }
      // adding ^uint32(0) subtracts one modulo 2^32
      groupMap, currentVMOperations := groupMap[free.Group() := step.group], AddUint32(currentVMOperations, Uint32Modulus - 1);
      return Pass;
    }
  }

  /** Adding one more key to the processed set adds its description to its
      group and its group to the group names. */
  lemma ProcessedOneMore(m: map<string, VMInfoConfig>, done: set<string>, k: string)
    requires k in m && k !in done
    ensures GroupsOf(m, done + {k}) == GroupsOf(m, done) + {m[k].group}
    ensures InfosIn(m, done + {k}, m[k].group) == InfosIn(m, done, m[k].group) + {m[k]}
    ensures forall h :: h != m[k].group ==> InfosIn(m, done + {k}, h) == InfosIn(m, done, h)
  {
  }

  /** Appending a context adds its description to those behind the free list. */
  lemma PoolInfosAppend(pool: seq<VMContext>, c: VMContext)
    ensures PoolInfos(pool + [c]) == PoolInfos(pool) + {c.info}
  {
    var extended := pool + [c];
    forall x | x in PoolInfos(extended)
      ensures x in PoolInfos(pool) + {c.info}
    {
      var i :| 0 <= i < |extended| && extended[i].info == x;
      if i < |pool| {
        assert pool[i].info == x;
      }
    }
    forall x | x in PoolInfos(pool)
      ensures x in PoolInfos(extended)
    {
      var i :| 0 <= i < |pool| && pool[i].info == x;
      assert extended[i].info == x;
    }
    assert extended[|pool|].info == c.info;
  }

  /** A free list built from the processed descriptions that already carries
      the machine name of a further description of the same group shows two
      keys of one group sharing a name. */
  lemma DuplicateBreaksWellFormed(m: map<string, VMInfoConfig>, done: set<string>, k: string, pool: seq<VMContext>)
    requires k in m && k !in done && done <= m.Keys
    requires PoolInfos(pool) == InfosIn(m, done, m[k].group)
    requires HasMachine(pool, m[k].name)
    ensures !WellFormed(m)
  {
    var i :| 0 <= i < |pool| && pool[i].Machine() == m[k].name;
    assert pool[i].info in PoolInfos(pool);
    var k2 :| k2 in done && k2 in m && m[k2].group == m[k].group && m[k2] == pool[i].info;
    assert k2 != k && m[k2].name == m[k].name;
  }

  /** What grouping the descriptions of the keys in `done` has established:
      those descriptions are well formed, the group map is built from exactly
      them, and it is a sound pool with nothing handed out. */
  ghost predicate Grouped(m: map<string, VMInfoConfig>, done: set<string>,
                          groupMap: map<string, VMContextGroup>, maxOps: int)
  {
    && done <= m.Keys
    && WellFormedOn(m, done)
    && Built(groupMap, m, done)
    && ComposeInvariant(groupMap, maxOps, 0)
  }

  /** Appending the description of key `k` to its existing group, whose free
      list does not yet carry that machine name, extends the grouping to `k`. */
  lemma GroupedAppend(m: map<string, VMInfoConfig>, done: set<string>,
                      groupMap: map<string, VMContextGroup>, maxOps: int,
                      k: string, c: VMContext, appended: VMContextGroup)
    requires Grouped(m, done, groupMap, maxOps)
    requires k in m && k !in done && m[k].group in groupMap
    requires !HasMachine(groupMap[m[k].group].vmInfoPool, m[k].name)
    requires c.info == m[k]
    requires appended.groupName == m[k].group && GroupInvariant(appended)
    requires appended.allocatedVMInfo == map[]
    requires appended.vmInfoPool == groupMap[m[k].group].vmInfoPool + [c]
    ensures Grouped(m, done + {k}, groupMap[m[k].group := appended], maxOps)
  {
    var g := m[k].group;
    var pool := groupMap[g].vmInfoPool;
    assert GroupSound(groupMap, g);
    ReplaceGroupKeepsInvariant(groupMap, maxOps, 0, g, appended, 0);
    forall k2 | k2 in done && k2 in m && m[k2].group == g
      ensures m[k2].name != m[k].name
    {
      assert m[k2] in InfosIn(m, done, g);
      var i :| 0 <= i < |pool| && pool[i].info == m[k2];
    }
    WellFormedOnMore(m, done, k);
    PoolInfosAppend(pool, c);
    BuiltMore(groupMap, m, done, k, appended);
  }

  /** Starting a new group for the description of key `k`, whose group name
      no processed description uses, extends the grouping to `k`. */
  lemma GroupedNewGroup(m: map<string, VMInfoConfig>, done: set<string>,
                        groupMap: map<string, VMContextGroup>, maxOps: int,
                        k: string, created: VMContextGroup)
    requires Grouped(m, done, groupMap, maxOps)
    requires k in m && k !in done && m[k].group !in groupMap && m[k].group != ""
    requires created.groupName == m[k].group && GroupInvariant(created)
    requires created.allocatedVMInfo == map[]
    requires PoolInfos(created.vmInfoPool) == {m[k]}
    ensures Grouped(m, done + {k}, groupMap[m[k].group := created], maxOps)
  {
    var g := m[k].group;
    AddGroupKeepsInvariant(groupMap, maxOps, 0, g, created);
    forall k2 | k2 in done && k2 in m
      ensures m[k2].group != g
    {
      assert m[k2].group in GroupsOf(m, done);
    }
    WellFormedOnMore(m, done, k);
    assert InfosIn(m, done, g) == {};
    BuiltMore(groupMap, m, done, k, created);
  }

  /** A further key whose description names a group and shares its machine
      name with no processed description of that group keeps the
      descriptions well formed. */
  lemma WellFormedOnMore(m: map<string, VMInfoConfig>, done: set<string>, k: string)
    requires WellFormedOn(m, done) && k in m && m[k].group != ""
    requires forall k2 :: k2 in done && k2 in m && m[k2].group == m[k].group ==> m[k2].name != m[k].name
    ensures WellFormedOn(m, done + {k})
  {
  }

  /** Storing under the group of key `k` a group with nothing allocated whose
      free list holds the processed descriptions of that group plus the one
      of `k` keeps the group map built from the processed keys. */
  lemma BuiltMore(groupMap: map<string, VMContextGroup>, m: map<string, VMInfoConfig>, done: set<string>,
                  k: string, stored: VMContextGroup)
    requires Built(groupMap, m, done) && k in m && k !in done
    requires stored.allocatedVMInfo == map[]
    requires PoolInfos(stored.vmInfoPool) == InfosIn(m, done, m[k].group) + {m[k]}
    ensures Built(groupMap[m[k].group := stored], m, done + {k})
  {
    ProcessedOneMore(m, done, k);
    var updated := groupMap[m[k].group := stored];
    forall h | h in updated
      ensures updated[h].allocatedVMInfo == map[]
      ensures PoolInfos(updated[h].vmInfoPool) == InfosIn(m, done + {k}, h)
    {
      if h != m[k].group {
        assert updated[h] == groupMap[h];
      }
    }
  }

  /** One step of the NewVMCompose loop: the description of key `k` joins
      its group if the group exists (AppendVMContext) or starts a new group
      (newVMGroup). Either step fails only when the descriptions are not well
      formed, and NewVMCompose reports every such failure as
      InvalidOperation; otherwise the grouping extends to `k`. */
  method PlaceDescription(groupMap: map<string, VMContextGroup>, vmInfo: VMInfoConfig,
                          ghost m: map<string, VMInfoConfig>, ghost done: set<string>, ghost k: string,
                          ghost maxOps: int)
    returns (r: Outcome, next: map<string, VMContextGroup>)
    requires Grouped(m, done, groupMap, maxOps) && k in m && k !in done && m[k] == vmInfo
    ensures r.Pass? ==> Grouped(m, done + {k}, next, maxOps)
    ensures r.Fail? ==> r == Fail(InvalidOperation) && !WellFormed(m)
  {
    if vmInfo.group in groupMap {
      var group := groupMap[vmInfo.group];
      assert GroupSound(groupMap, vmInfo.group);
      var res, appended := GroupAppend(group, vmInfo);
      if res.Fail? {
        DuplicateBreaksWellFormed(m, done, k, group.vmInfoPool);
        return Fail(InvalidOperation), groupMap;
      }
      GroupedAppend(m, done, groupMap, maxOps, k, appended.vmInfoPool[|group.vmInfoPool|], appended);
      return Pass, groupMap[vmInfo.group := appended];
    } else {
      var res := NewVMGroup(vmInfo.group, [vmInfo]);
      if res.Err? {
        return Fail(InvalidOperation), groupMap;
      }
      assert PoolInfos(res.value.vmInfoPool) == {vmInfo} by {
        assert res.value.vmInfoPool[0].info == vmInfo;
      }
      GroupedNewGroup(m, done, groupMap, maxOps, k, res.value);
      return Pass, groupMap[vmInfo.group := res.value];
    }
  }

  /** NewVMCompose. A missing policy is refused with InvalidArgument. With a
      policy, the descriptions are grouped one by one (in the map's
      unspecified order); the result is a pool exactly when every description
      names a group and no two descriptions of a group share a machine name,
      and otherwise the error is InvalidOperation, whatever the order. The
      pool has one group per group name used, each holding exactly the
      descriptions of that group in its free list with nothing allocated; the
      maximum is the policy's maximum truncated to uint32 and the counter
      starts at zero. */
  method NewVMCompose(vmInfoMap: map<string, VMInfoConfig>, vmPolicy: Option<VMControlPolicyConfig>)
    returns (r: Result<VMCompose>)
    ensures vmPolicy.None? ==> r == Err(InvalidArgument)
    ensures vmPolicy.Some? ==> (r.Ok? <==> WellFormed(vmInfoMap))
    ensures vmPolicy.Some? && r.Err? ==> r.code == InvalidOperation
    ensures r.Ok? ==>
      && fresh(r.value) && r.value.Valid()
      && r.value.maxVMOperations == vmPolicy.value.maxVMOperations % Uint32Modulus
      && r.value.currentVMOperations == 0
      && Built(r.value.groupMap, vmInfoMap, vmInfoMap.Keys)
  {
    if vmPolicy.None? {
      return Err(InvalidArgument);
    }
    var maxOps := vmPolicy.value.maxVMOperations % Uint32Modulus;
    var groupMap: map<string, VMContextGroup> := map[];
    var remaining := vmInfoMap.Keys;
    ghost var done: set<string> := {};
    SumValuesEmpty();
    while remaining != {}
      invariant remaining <= vmInfoMap.Keys && done == vmInfoMap.Keys - remaining
      invariant Grouped(vmInfoMap, done, groupMap, maxOps)
      decreases |remaining|
    {
      var k :| k in remaining;
      var placed, next := PlaceDescription(groupMap, vmInfoMap[k], vmInfoMap, done, k, maxOps);
      if placed.Fail? {
        return Err(InvalidOperation);
      }
      groupMap := next;
      remaining := remaining - {k};
      done := done + {k};
    }
    var compose := new VMCompose(groupMap, vmPolicy.value.maxVMOperations);
    return Ok(compose);
  }

  /** The empty pool has nothing handed out. */
  lemma SumValuesEmpty()
    ensures TotalAllocated(map[]) == 0
  {
    assert AllocatedCounts(map[]) == map[];
  }
}
