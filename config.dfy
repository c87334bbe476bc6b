/**
 * The configuration records of boxerd/config/config.go and their validators.
 * Every validator returns a `ConfigCheck`: `Accepted` for a nil error, or
 * `Rejected` with the error code and the reason the Go code reports (the
 * reason stands in for the error message, which is not modelled).
 * `net.ParseIP` is not modelled: it is passed in as the predicate `parsesIP`.
 */
module Config {
  import opened Errors
  import opened Strings

  const MachineKeyword: string := "$machine"
  const SnapshotKeyword: string := "$snapshot"

  /** The three command templates. */
  datatype VMControlConfig = VMControlConfig(startCmd: string, stopCmd: string, restoreSnapshotCmd: string)

  /** The control policy; the Go fields are `uint`. */
  datatype VMControlPolicyConfig = VMControlPolicyConfig(intervalSec: nat, timeoutSec: nat, maxVMOperations: nat)

  /** The static description of one VM. */
  datatype VMInfoConfig = VMInfoConfig(name: string, snapshot: string, ip: string, os: string, group: string)

  datatype BoxerConfig = BoxerConfig(
    vmInfo: map<string, VMInfoConfig>,
    vmControl: VMControlConfig,
    vmControlPolicy: VMControlPolicyConfig)

  /** Which check a validator reports. */
  datatype Reason =
    | MissingKeyword
    | ZeroInterval | ZeroTimeout | ZeroMaxVMOperations
    | EmptyName | EmptySnapshot | EmptyOS | EmptyGroup | EmptyIP | MalformedIP
    | InvalidVMInfo(vm: string, cause: Reason)

  datatype ConfigCheck = Accepted | Rejected(code: ErrorCode, reason: Reason)

  /** VMControlConfig.CheckReservedKeyword: the start and stop commands name the
      machine, and the restore command names both the machine and the snapshot. */
  function CheckReservedKeyword(c: VMControlConfig): (ok: bool)
    ensures ok <==>
      && Contains(c.startCmd, MachineKeyword)
      && Contains(c.stopCmd, MachineKeyword)
      && Contains(c.restoreSnapshotCmd, MachineKeyword)
      && Contains(c.restoreSnapshotCmd, SnapshotKeyword)
  {
    if !Contains(c.startCmd, MachineKeyword) then false
    else if !Contains(c.stopCmd, MachineKeyword) then false
    else if !Contains(c.restoreSnapshotCmd, SnapshotKeyword) || !Contains(c.restoreSnapshotCmd, MachineKeyword) then false
    else true
  }

  /** VMControlPolicyConfig.Validate: the interval, the timeout and the maximum
      number of operations must all be nonzero; the first zero, in that order,
      is reported, always as InvalidConfig. */
  function ValidatePolicy(p: VMControlPolicyConfig): (r: ConfigCheck)
    ensures r == Accepted <==> p.intervalSec != 0 && p.timeoutSec != 0 && p.maxVMOperations != 0
    ensures r.Rejected? ==> r.code == InvalidConfig
    ensures r.Rejected? && r.reason == ZeroInterval <==> p.intervalSec == 0
    ensures r.Rejected? && r.reason == ZeroTimeout <==> p.intervalSec != 0 && p.timeoutSec == 0
    ensures r.Rejected? && r.reason == ZeroMaxVMOperations <==>
      p.intervalSec != 0 && p.timeoutSec != 0 && p.maxVMOperations == 0
  {
    if p.intervalSec == 0 then Rejected(InvalidConfig, ZeroInterval)
    else if p.timeoutSec == 0 then Rejected(InvalidConfig, ZeroTimeout)
    else if p.maxVMOperations == 0 then Rejected(InvalidConfig, ZeroMaxVMOperations)
    else Accepted
  }

  /** All five fields of a VM description are present. */
  predicate FieldsPresent(v: VMInfoConfig)
  {
    v.name != "" && v.snapshot != "" && v.os != "" && v.group != "" && v.ip != ""
  }

  /** VMInfoConfig.Validate: an empty name, snapshot, OS, group or IP is
      reported, in that order; once all are present, the description is
      rejected exactly when its IP does not parse. */
  function ValidateVMInfo(v: VMInfoConfig, parsesIP: string -> bool): (r: ConfigCheck)
    ensures r == Accepted <==> FieldsPresent(v) && parsesIP(v.ip)
    ensures r.Rejected? ==> r.code == InvalidConfig
    ensures FieldsPresent(v) ==> (r.Rejected? <==> !parsesIP(v.ip)) && (r.Rejected? ==> r.reason == MalformedIP)
    ensures v.name == "" ==> r.reason == EmptyName
    ensures v.name != "" && v.snapshot == "" ==> r.reason == EmptySnapshot
    ensures v.name != "" && v.snapshot != "" && v.os == "" ==> r.reason == EmptyOS
    ensures v.name != "" && v.snapshot != "" && v.os != "" && v.group == "" ==> r.reason == EmptyGroup
    ensures v.name != "" && v.snapshot != "" && v.os != "" && v.group != "" && v.ip == "" ==> r.reason == EmptyIP
  {
    if v.name == "" then Rejected(InvalidConfig, EmptyName)
    else if v.snapshot == "" then Rejected(InvalidConfig, EmptySnapshot)
    else if v.os == "" then Rejected(InvalidConfig, EmptyOS)
    else if v.group == "" then Rejected(InvalidConfig, EmptyGroup)
    else if v.ip == "" then Rejected(InvalidConfig, EmptyIP)
    else if !parsesIP(v.ip) then Rejected(InvalidConfig, MalformedIP)
    else Accepted
  }

  /** BoxerConfig.Validate. The keyword check comes first; then every VM
      description is checked, in Go's unspecified map order, so which failing
      VM is reported is left open; the policy is consulted only when all of
      that passes, and its verdict is returned as it is. */
  method ValidateBoxerConfig(bc: BoxerConfig, parsesIP: string -> bool) returns (r: ConfigCheck)
    ensures !CheckReservedKeyword(bc.vmControl) ==> r == Rejected(InvalidConfig, MissingKeyword)
    ensures CheckReservedKeyword(bc.vmControl) && (exists k :: k in bc.vmInfo && ValidateVMInfo(bc.vmInfo[k], parsesIP).Rejected?) ==>
      && r.Rejected? && r.code == InvalidConfig && r.reason.InvalidVMInfo?
      && exists k :: k in bc.vmInfo && bc.vmInfo[k].name == r.reason.vm &&
                     ValidateVMInfo(bc.vmInfo[k], parsesIP) == Rejected(InvalidConfig, r.reason.cause)
    ensures CheckReservedKeyword(bc.vmControl) && (forall k :: k in bc.vmInfo ==> ValidateVMInfo(bc.vmInfo[k], parsesIP) == Accepted) ==>
      r == ValidatePolicy(bc.vmControlPolicy)
  {
    if !CheckReservedKeyword(bc.vmControl) {
      return Rejected(InvalidConfig, MissingKeyword);
    }
    var remaining := bc.vmInfo.Keys;
    while remaining != {}
      invariant remaining <= bc.vmInfo.Keys
      invariant forall k :: k in bc.vmInfo && k !in remaining ==> ValidateVMInfo(bc.vmInfo[k], parsesIP) == Accepted
      decreases remaining
    {
      var k :| k in remaining;
      var vmInfo := bc.vmInfo[k];
      var check := ValidateVMInfo(vmInfo, parsesIP);
      if check.Rejected? {
        return Rejected(InvalidConfig, InvalidVMInfo(vmInfo.name, check.reason));
      }
      remaining := remaining - {k};
    }
    r := ValidatePolicy(bc.vmControlPolicy);
  }

  /** Commands that embed the keywords pass the keyword check, whatever
      surrounds them: `$snapshot` is needed in the restore command only.
      The commands of the configuration test ("echo $machine" twice and
      "echo $machine $snapshot") are one instance. */
  lemma SnapshotOnlyNeededForRestore(start: string, startRest: string, stop: string, stopRest: string,
                                     restore: string, middle: string, restoreRest: string)
    ensures CheckReservedKeyword(VMControlConfig(
      start + MachineKeyword + startRest,
      stop + MachineKeyword + stopRest,
      restore + MachineKeyword + middle + SnapshotKeyword + restoreRest))
  {
    KeywordInside(start, MachineKeyword, startRest);
    KeywordInside(stop, MachineKeyword, stopRest);
    var restoreCmd := restore + MachineKeyword + middle + SnapshotKeyword + restoreRest;
    assert restoreCmd == restore + MachineKeyword + (middle + SnapshotKeyword + restoreRest);
    KeywordInside(restore, MachineKeyword, middle + SnapshotKeyword + restoreRest);
    assert restoreCmd == (restore + MachineKeyword + middle) + SnapshotKeyword + restoreRest;
    KeywordInside(restore + MachineKeyword + middle, SnapshotKeyword, restoreRest);
  }

  /** A keyword placed between two strings is contained in the result.
      Helper for SnapshotOnlyNeededForRestore. */
  lemma KeywordInside(before: string, keyword: string, after: string)
    ensures Contains(before + keyword + after, keyword)
  {
    assert (before + keyword + after)[|before|..|before| + |keyword|] == keyword;
    ContainsAt(before + keyword + after, keyword, |before|);
  }

  /** A command without any `$` names no keyword, so it fails the keyword
      check; the commands of the configuration test that spell `machine`
      without the `$` are one instance. */
  lemma CommandWithoutDollarFails(c: VMControlConfig)
    requires CountChar(c.startCmd, '$') == 0 || CountChar(c.stopCmd, '$') == 0
             || CountChar(c.restoreSnapshotCmd, '$') == 0
    ensures !CheckReservedKeyword(c)
  {
    assert MachineKeyword[0] == '$';
    if CountChar(c.startCmd, '$') == 0 {
      NotContainsWithoutHead(c.startCmd, MachineKeyword);
    } else if CountChar(c.stopCmd, '$') == 0 {
      NotContainsWithoutHead(c.stopCmd, MachineKeyword);
    } else {
      NotContainsWithoutHead(c.restoreSnapshotCmd, MachineKeyword);
    }
  }

  /** Neither keyword holds a space, so splitting a command on spaces never
      cuts through one. */
  lemma KeywordsHaveNoSpace()
    ensures CountChar(MachineKeyword, ' ') == 0 && CountChar(SnapshotKeyword, ' ') == 0
  {
    NoSpaceIn(MachineKeyword);
    NoSpaceIn(SnapshotKeyword);
  }

  /** A keyword holds no space. Helper for KeywordsHaveNoSpace. */
  lemma NoSpaceIn(keyword: string)
    requires keyword == MachineKeyword || keyword == SnapshotKeyword
    ensures CountChar(keyword, ' ') == 0
  {
    assert forall j :: 0 <= j < |keyword| ==> keyword[j] != ' ';
    CountCharZero(keyword, ' ');
  }
}
