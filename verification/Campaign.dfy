/** The campaign definition and its structural check: include/chaoslab/fault.h,
    include/chaoslab/campaign.h and src/campaign.cpp. */
module Campaign {
  import opened Words
  import opened Text

  /** The value of a 64-bit identity. */
  type Id = x: nat | x < U64

  datatype FaultCategory =
    | PROCESS_TERMINATION | PROCESS_CRASH | PROCESS_STALL | COORDINATOR_DEATH | WORKER_DEATH
    | SOCKET_CLOSE | SOCKET_RESET | SOCKET_HALF_CLOSE | CONNECTION_DROP
    | FRAME_TRUNCATION | FRAME_CORRUPTION | FRAME_DUPLICATION | FRAME_REORDER | FRAME_DELAY
    | STALE_EPOCH | STALE_BOOT | STALE_ATTEMPT | STALE_GENERATION | STALE_DISPATCH
    | DUPLICATE_MESSAGE | CONFLICTING_DUPLICATE
    | PARTIAL_FILE_WRITE | PERSISTENCE_TRUNCATION | PERSISTENCE_CORRUPTION
    | BAD_CHECKSUM | BAD_VERSION | DISK_WRITE_FAILURE
    | RESOURCE_EXHAUSTION | HOST_MEMORY_PRESSURE | DEVICE_MEMORY_PRESSURE
    | RESERVATION_EXHAUSTION | CAPACITY_REDUCTION
    | CUDA_APPLICATION_FAILURE | CUDA_VERIFICATION_FAILURE | CUDA_ALLOCATION_FAILURE
    | DEPENDENCY_FAILURE | RECOVERY_FAILURE | ROLLBACK_FAILURE
    | SHUTDOWN_RACE | RESTART_RACE | CLOCK_SKEW_SIMULATION | INVALID_STATE_INJECTION

  datatype FaultScope =
    | SCOPE_PROCESS | SCOPE_WORKER | SCOPE_COORDINATOR | SCOPE_CONNECTION | SCOPE_PERSISTENCE
    | SCOPE_FILE | SCOPE_ALLOCATION | SCOPE_RESERVATION | SCOPE_ACCELERATOR | SCOPE_HOST_MEMORY
    | SCOPE_DEVICE_MEMORY | SCOPE_HOST | SCOPE_DEVICE | SCOPE_GENERATION | SCOPE_EPOCH
    | SCOPE_PROTOCOL | SCOPE_AUTHORITY | SCOPE_UNSPECIFIED

  datatype Timing =
    IMMEDIATE | DELAYED | AT_EVENT | AT_BARRIER | AFTER_SIDE_EFFECT | BEFORE_ACK | AT_PHASE | TIMING_UNSPECIFIED

  /** Source and severity are constant in everything modelled here and are left out. */
  datatype FaultSpec = FaultSpec(
    id: Id, category: FaultCategory, scope: FaultScope, timing: Timing,
    target: Id, targets: seq<Id>, params: map<string, string>)

  datatype TargetKind = PROCESS | WORKER | COORDINATOR | TRANSPORT_PROXY | PERSISTENCE_FILE | RESOURCE | DEVICE

  datatype TargetSpec = TargetSpec(
    id: Id, kind: TargetKind, name: string, executable: string, ownsProcess: bool, restartBudget: int)

  datatype Precondition = Precondition(name: string, description: string, target: Id, stateName: string)

  datatype CleanupKind = KILL_PROCESS | CLOSE_SOCKET | DELETE_FILE | RMDIR | FREE_ALLOCATION | CLEANUP_UNSPECIFIED

  datatype CleanupAction = CleanupAction(kind: CleanupKind, target: Id)

  datatype ResourceEnvelope = ResourceEnvelope(
    maxChildProcesses: int, maxOpenSockets: int, maxRestarts: int,
    allowedExecutables: seq<string>, allowedTempRoot: string)

  datatype ChaosCampaign = ChaosCampaign(
    id: Id, seed: Id, purpose: string,
    targets: seq<TargetSpec>, preconditions: seq<Precondition>,
    faults: seq<FaultSpec>, assertions: seq<string>, cleanup: seq<CleanupAction>,
    envelope: ResourceEnvelope, repetitionCount: int)

  // ----- what a valid campaign is -----

  predicate EnvelopeValid(e: ResourceEnvelope) {
    && e.maxChildProcesses >= 1 && e.maxRestarts >= 1 && e.maxOpenSockets >= 1
    && |e.allowedTempRoot| <= 512
  }

  predicate DistinctTargets(ts: seq<TargetSpec>) {
    forall i, j :: 0 <= i < j < |ts| ==> ts[i].id != ts[j].id
  }

  predicate Executables(ts: seq<TargetSpec>) {
    forall i :: 0 <= i < |ts| && ts[i].kind == PROCESS ==> ts[i].executable != ""
  }

  predicate Owns(ts: seq<TargetSpec>, id: Id) {
    exists i :: 0 <= i < |ts| && ts[i].id == id
  }

  predicate FaultOwned(ts: seq<TargetSpec>, f: FaultSpec) {
    forall k :: 0 <= k < |f.targets| ==> Owns(ts, f.targets[k])
  }

  predicate AllOwned(ts: seq<TargetSpec>, fs: seq<FaultSpec>) {
    forall i :: 0 <= i < |fs| ==> FaultOwned(ts, fs[i])
  }

  predicate CampaignValid(c: ChaosCampaign) {
    && EnvelopeValid(c.envelope) && c.seed != 0 && c.repetitionCount >= 1
    && DistinctTargets(c.targets) && Executables(c.targets)
    && AllOwned(c.targets, c.faults)
  }

  /** Validity over plain fields: at least one child, restart, socket and repetition, a short temporary root,
      a seed, as many target ids as targets, an executable for every process, and no fault that refers to
      an id outside of them. */
  lemma ValidMeans(c: ChaosCampaign)
    ensures var ids := set i | 0 <= i < |c.targets| :: c.targets[i].id;
            CampaignValid(c) <==>
            && c.envelope.maxChildProcesses > 0 && c.envelope.maxRestarts > 0 && c.envelope.maxOpenSockets > 0
            && |c.envelope.allowedTempRoot| < 513 && c.seed > 0 && c.repetitionCount > 0
            && |ids| == |c.targets|
            && (forall i :: 0 <= i < |c.targets| && c.targets[i].executable == "" ==> c.targets[i].kind != PROCESS)
            && forall i, k :: 0 <= i < |c.faults| && 0 <= k < |c.faults[i].targets| ==> c.faults[i].targets[k] in ids
  {
    IdsCount(c.targets);
    var ids := set i | 0 <= i < |c.targets| :: c.targets[i].id;
    forall id: Id ensures id in ids <==> Owns(c.targets, id) { }
    if AllOwned(c.targets, c.faults) {
      forall i, k | 0 <= i < |c.faults| && 0 <= k < |c.faults[i].targets| ensures c.faults[i].targets[k] in ids {
        assert FaultOwned(c.targets, c.faults[i]);
      }
    }
  }

  function Ids(ts: seq<TargetSpec>): set<Id> { set i | 0 <= i < |ts| :: ts[i].id }

  lemma {:induction false} IdsCount(ts: seq<TargetSpec>)
    ensures |Ids(ts)| <= |ts| && (|Ids(ts)| == |ts| <==> DistinctTargets(ts))
  {
    hide Ids, DistinctTargets;
    if ts == [] {
      NoIds();
    } else {
      IdsCount(ts[..|ts| - 1]);
      IdsSnoc(ts);
      DistinctSnoc(ts);
    }
  }

  lemma NoIds()
    ensures Ids([]) == {} && DistinctTargets([])
  {
  }

  lemma DistinctSnoc(ts: seq<TargetSpec>)
    requires ts != []
    ensures DistinctTargets(ts) <==>
            DistinctTargets(ts[..|ts| - 1]) && !(exists i :: 0 <= i < |ts| - 1 && ts[i].id == ts[|ts| - 1].id)
  {
  }

  lemma IdsSnoc(ts: seq<TargetSpec>)
    requires ts != []
    ensures Ids(ts) == Ids(ts[..|ts| - 1]) + {ts[|ts| - 1].id}
    ensures ts[|ts| - 1].id in Ids(ts[..|ts| - 1]) <==> exists i :: 0 <= i < |ts| - 1 && ts[i].id == ts[|ts| - 1].id
  {
    var n := |ts| - 1;
    forall id: Id ensures id in Ids(ts) <==> id in Ids(ts[..n]) || id == ts[n].id {
      if i :| 0 <= i < n && ts[i].id == id { assert ts[..n][i] == ts[i]; }
    }
  }

  // ----- what a rejection says -----

  /** Target `i` shares its id with a later one, or is a process without an executable. */
  predicate TargetBad(ts: seq<TargetSpec>, i: nat)
    requires i < |ts|
  {
    Twin(ts, i) || (ts[i].kind == PROCESS && ts[i].executable == "")
  }

  predicate Twin(ts: seq<TargetSpec>, i: nat)
    requires i < |ts|
  {
    exists j :: i < j < |ts| && ts[j].id == ts[i].id
  }

  function TargetError(ts: seq<TargetSpec>, i: nat): string
    requires i < |ts|
  {
    if Twin(ts, i) then "duplicate target id: target:" + ToHex(ts[i].id)
    else "process target '" + ts[i].name + "' has no executable"
  }

  /** The message is that of the first bad target. */
  predicate NamesTarget(ts: seq<TargetSpec>, error: string) {
    exists i :: 0 <= i < |ts| && TargetBad(ts, i) && (forall h :: 0 <= h < i ==> !TargetBad(ts, h)) && error == TargetError(ts, i)
  }

  /** The message is that of the first reference to a missing target in the first fault that has one. */
  predicate NamesFault(ts: seq<TargetSpec>, fs: seq<FaultSpec>, error: string) {
    exists i :: 0 <= i < |fs| && (forall h :: 0 <= h < i ==> FaultOwned(ts, fs[h])) && NamesReference(ts, fs[i], error)
  }

  predicate NamesReference(ts: seq<TargetSpec>, f: FaultSpec, error: string) {
    exists k :: 0 <= k < |f.targets| && !Owns(ts, f.targets[k]) && (forall h :: 0 <= h < k ==> Owns(ts, f.targets[h]))
                && error == "fault targets non-owned target: target:" + ToHex(f.targets[k])
  }

  /** The message of the first violation, in the order the checks are made. */
  predicate Explains(c: ChaosCampaign, error: string) {
    if !EnvelopeValid(c.envelope) then error == "resource envelope invalid"
    else if c.seed == 0 then error == "deterministic seed must be non-zero"
    else if c.repetitionCount < 1 then error == "repetition_count must be >= 1"
    else if exists i :: 0 <= i < |c.targets| && TargetBad(c.targets, i) then NamesTarget(c.targets, error)
    else NamesFault(c.targets, c.faults, error)
  }

  /** `validate` stops at the first violation it meets. */
  method Validate(c: ChaosCampaign) returns (ok: bool, error: string)
    ensures ok <==> CampaignValid(c)
    ensures ok ==> error == ""
    ensures !ok ==> error != "" && Explains(c, error)
  {
    hide ToHex;
    if !EnvelopeValid(c.envelope) { return false, "resource envelope invalid"; }
    if c.seed == 0 { return false, "deterministic seed must be non-zero"; }
    if c.repetitionCount < 1 { return false, "repetition_count must be >= 1"; }
    ok, error := ValidateTargets(c.targets);
    if ok { ok, error := ValidateFaults(c.targets, c.faults); }
  }

  method ValidateTargets(ts: seq<TargetSpec>) returns (ok: bool, error: string)
    ensures ok <==> DistinctTargets(ts) && Executables(ts)
    ensures ok <==> forall i :: 0 <= i < |ts| ==> !TargetBad(ts, i)
    ensures ok ==> error == ""
    ensures !ok ==> error != "" && NamesTarget(ts, error)
  {
    hide ToHex;
    for i := 0 to |ts|
      invariant forall h :: 0 <= h < i ==> !TargetBad(ts, h)
    {
      for j := i + 1 to |ts|
        invariant forall b :: i < b < j ==> ts[b].id != ts[i].id
      {
        if ts[i].id == ts[j].id {
          assert Twin(ts, i) && TargetBad(ts, i);
          BadBreaks(ts, i);
          return false, "duplicate target id: target:" + ToHex(ts[i].id);
        }
      }
      assert !Twin(ts, i);
      if ts[i].kind == PROCESS && ts[i].executable == "" {
        assert TargetBad(ts, i);
        BadBreaks(ts, i);
        return false, "process target '" + ts[i].name + "' has no executable";
      }
    }
    NoneBad(ts);
    return true, "";
  }

  lemma BadBreaks(ts: seq<TargetSpec>, i: nat)
    requires i < |ts| && TargetBad(ts, i)
    ensures !(DistinctTargets(ts) && Executables(ts))
  {
  }

  lemma NoneBad(ts: seq<TargetSpec>)
    requires forall i :: 0 <= i < |ts| ==> !TargetBad(ts, i)
    ensures DistinctTargets(ts) && Executables(ts)
  {
    forall i, j | 0 <= i < j < |ts| ensures ts[i].id != ts[j].id { assert !TargetBad(ts, i); }
    forall i | 0 <= i < |ts| && ts[i].kind == PROCESS ensures ts[i].executable != "" { assert !TargetBad(ts, i); }
  }

  method ValidateFaults(ts: seq<TargetSpec>, fs: seq<FaultSpec>) returns (ok: bool, error: string)
    ensures ok <==> AllOwned(ts, fs)
    ensures ok ==> error == ""
    ensures !ok ==> error != "" && NamesFault(ts, fs, error)
  {
    hide ToHex, Owns;
    for i := 0 to |fs|
      invariant forall h :: 0 <= h < i ==> FaultOwned(ts, fs[h])
    {
      var f := fs[i];
      for k := 0 to |f.targets|
        invariant forall h :: 0 <= h < k ==> Owns(ts, f.targets[h])
      {
        if !Owns(ts, f.targets[k]) {
          assert !FaultOwned(ts, fs[i]);
          error := "fault targets non-owned target: target:" + ToHex(f.targets[k]);
          assert NamesReference(ts, fs[i], error);
          return false, error;
        }
      }
    }
    return true, "";
  }
}
