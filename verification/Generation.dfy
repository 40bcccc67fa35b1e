/** What a generated campaign holds, entry by entry (src/fuzz.cpp, lines 10-139). */
module Generation {
  import opened Words
  import opened Text
  import opened Campaign
  import opened Fuzz
  import SplitMix

  /** The draw that yields each category: the coordinator's death on two of twenty, all others on one. */
  lemma PoolByDraw(d: nat)
    requires d < 20
    ensures POOL[d] == WORKER_DEATH <==> d == 0
    ensures POOL[d] == COORDINATOR_DEATH <==> d == 1 || d == 14
    ensures POOL[d] == STALE_EPOCH <==> d == 2
    ensures POOL[d] == STALE_BOOT <==> d == 3
    ensures POOL[d] == STALE_ATTEMPT <==> d == 4
    ensures POOL[d] == STALE_GENERATION <==> d == 5
    ensures POOL[d] == DUPLICATE_MESSAGE <==> d == 6
    ensures POOL[d] == CONFLICTING_DUPLICATE <==> d == 7
    ensures POOL[d] == PERSISTENCE_TRUNCATION <==> d == 8
    ensures POOL[d] == PERSISTENCE_CORRUPTION <==> d == 9
    ensures POOL[d] == RESOURCE_EXHAUSTION <==> d == 10
    ensures POOL[d] == CONNECTION_DROP <==> d == 11
    ensures POOL[d] == FRAME_CORRUPTION <==> d == 12
    ensures POOL[d] == RECOVERY_FAILURE <==> d == 13
    ensures POOL[d] == SOCKET_CLOSE <==> d == 15
    ensures POOL[d] == FRAME_TRUNCATION <==> d == 16
    ensures POOL[d] == BAD_CHECKSUM <==> d == 17
    ensures POOL[d] == PARTIAL_FILE_WRITE <==> d == 18
    ensures POOL[d] == DEVICE_MEMORY_PRESSURE <==> d == 19
  {
    hide POOL;
    PoolFirst(d);
    PoolSecond(d);
  }

  lemma PoolFirst(d: nat)
    requires d < 20
    ensures POOL[d] == WORKER_DEATH <==> d == 0
    ensures POOL[d] == COORDINATOR_DEATH <==> d == 1 || d == 14
    ensures POOL[d] == STALE_EPOCH <==> d == 2
    ensures POOL[d] == STALE_BOOT <==> d == 3
    ensures POOL[d] == STALE_ATTEMPT <==> d == 4
    ensures POOL[d] == STALE_GENERATION <==> d == 5
    ensures POOL[d] == DUPLICATE_MESSAGE <==> d == 6
    ensures POOL[d] == CONFLICTING_DUPLICATE <==> d == 7
    ensures POOL[d] == PERSISTENCE_TRUNCATION <==> d == 8
    ensures POOL[d] == PERSISTENCE_CORRUPTION <==> d == 9
  {
  }

  lemma PoolSecond(d: nat)
    requires d < 20
    ensures POOL[d] == RESOURCE_EXHAUSTION <==> d == 10
    ensures POOL[d] == CONNECTION_DROP <==> d == 11
    ensures POOL[d] == FRAME_CORRUPTION <==> d == 12
    ensures POOL[d] == RECOVERY_FAILURE <==> d == 13
    ensures POOL[d] == SOCKET_CLOSE <==> d == 15
    ensures POOL[d] == FRAME_TRUNCATION <==> d == 16
    ensures POOL[d] == BAD_CHECKSUM <==> d == 17
    ensures POOL[d] == PARTIAL_FILE_WRITE <==> d == 18
    ensures POOL[d] == DEVICE_MEMORY_PRESSURE <==> d == 19
  {
  }

  /** For positive bounds the first draw settles the workers and the second the faults. */
  lemma CountsDrawn(seed: Id, state: nat, maxWorkers: Int32, maxFaults: Int32)
    requires maxWorkers >= 1 && maxFaults >= 1
    ensures var c := Generated(seed, state, maxWorkers, maxFaults);
            && |c.targets| == 2 + SplitMix.Draw(state, 0) % maxWorkers
            && |c.faults| == 1 + SplitMix.Draw(state, 1) % maxFaults
  {
    hide SplitMix.Draw, SplitMix.State, CountDrawn, StateAfter, Targets, Faults, KillAll, FuzzedEnvelope, CampaignId;
    CountIs(state, maxWorkers);
    CountIs(SplitMix.State(state, 1), maxFaults);
    SplitMix.DrawRestart(state, 1, 0);
  }

  lemma CountIs(state: nat, max: Int32)
    requires max >= 1
    ensures CountDrawn(state, max) == 1 + SplitMix.Draw(state, 0) % max && StateAfter(state, max) == SplitMix.State(state, 1)
  {
    hide SplitMix.Draw, SplitMix.State;
  }

  /** Workers are numbered from one above 2^63, and the coordinator comes last. */
  lemma TargetsAre(seed: Id, state: nat, maxWorkers: Int32, maxFaults: Int32)
    ensures var ts := Generated(seed, state, maxWorkers, maxFaults).targets;
            && |ts| >= 1
            && |ts| <= 0x8000_0000
            && (forall k :: 0 <= k < |ts| - 1 ==>
                  ts[k] == TargetSpec(0x8000_0000_0000_0001 + k, WORKER, "worker_" + Decimal(k), "target_worker", true, 2))
            && ts[|ts| - 1] == TargetSpec(0x8000_0000_0000_8001, COORDINATOR, "coordinator", "target_coordinator", true, 0)
  {
    hide CountDrawn, Faults, KillAll, FuzzedEnvelope, CampaignId, Decimal;
  }

  /** Faults are numbered from one and go around the first three worker ids; the category is that of the
      draw after the two counts, and the scope and parameters follow the category. */
  lemma FaultsAre(seed: Id, state: nat, maxWorkers: Int32, maxFaults: Int32, k: nat)
    requires maxWorkers != 0 && maxFaults != 0
    requires k < |Generated(seed, state, maxWorkers, maxFaults).faults|
    ensures var f := Generated(seed, state, maxWorkers, maxFaults).faults[k];
            && f.id == k + 1 && f.target == 0x8000_0000_0000_0001 + k % 3 && f.targets == [f.target] && f.timing == AT_EVENT
            && f.category == POOL[SplitMix.Draw(state, k + 2) % 20]
            && (f.scope == SCOPE_AUTHORITY <==>
                  f.category in {STALE_EPOCH, STALE_BOOT, STALE_ATTEMPT, STALE_GENERATION})
            && (f.scope == SCOPE_CONNECTION <==>
                  f.category in {DUPLICATE_MESSAGE, CONFLICTING_DUPLICATE, CONNECTION_DROP, FRAME_CORRUPTION})
            && (f.scope == SCOPE_PERSISTENCE <==> f.category in {PERSISTENCE_TRUNCATION, PERSISTENCE_CORRUPTION})
            && (f.scope == SCOPE_RESERVATION <==> f.category == RESOURCE_EXHAUSTION)
            && f.scope in {SCOPE_AUTHORITY, SCOPE_CONNECTION, SCOPE_PERSISTENCE, SCOPE_RESERVATION, SCOPE_PROCESS}
            && (forall p :: p in f.params <==> (p == "offset" && f.category == PERSISTENCE_TRUNCATION)
                                               || (p == "percent" && f.category == RESOURCE_EXHAUSTION))
            && ("offset" in f.params ==> f.params["offset"] == "16")
            && ("percent" in f.params ==> f.params["percent"] == "90")
  {
    hide SplitMix.Draw, SplitMix.State, CountDrawn, Targets, KillAll, FuzzedEnvelope, CampaignId, FuzzedFault;
    var after := SplitMix.State(SplitMix.State(state, 1), 1);
    SplitMix.StateRestart(state, 1, 1);
    SplitMix.DrawRestart(state, 2, k);
    assert Generated(seed, state, maxWorkers, maxFaults).faults[k] == FuzzedFault(k, Picked(after, k));
    FaultIs(k, Picked(after, k));
  }

  lemma FaultIs(k: nat, c: FaultCategory)
    requires k < 0x8000_0000
    ensures var f := FuzzedFault(k, c);
            && f.id == k + 1 && f.target == 0x8000_0000_0000_0001 + k % 3 && f.targets == [f.target] && f.timing == AT_EVENT
            && f.category == c
            && (f.scope == SCOPE_AUTHORITY <==> c in {STALE_EPOCH, STALE_BOOT, STALE_ATTEMPT, STALE_GENERATION})
            && (f.scope == SCOPE_CONNECTION <==>
                  c in {DUPLICATE_MESSAGE, CONFLICTING_DUPLICATE, CONNECTION_DROP, FRAME_CORRUPTION})
            && (f.scope == SCOPE_PERSISTENCE <==> c in {PERSISTENCE_TRUNCATION, PERSISTENCE_CORRUPTION})
            && (f.scope == SCOPE_RESERVATION <==> c == RESOURCE_EXHAUSTION)
            && f.scope in {SCOPE_AUTHORITY, SCOPE_CONNECTION, SCOPE_PERSISTENCE, SCOPE_RESERVATION, SCOPE_PROCESS}
            && (forall p :: p in f.params <==> (p == "offset" && c == PERSISTENCE_TRUNCATION)
                                               || (p == "percent" && c == RESOURCE_EXHAUSTION))
            && ("offset" in f.params ==> f.params["offset"] == "16")
            && ("percent" in f.params ==> f.params["percent"] == "90")
  {
  }

  lemma {:induction false} EachKilled(ts: seq<TargetSpec>)
    requires forall k :: 0 <= k < |ts| ==> ts[k].ownsProcess
    ensures |KillAll(ts)| == |ts| && forall k :: 0 <= k < |ts| ==> KillAll(ts)[k] == CleanupAction(KILL_PROCESS, ts[k].id)
  {
    if ts != [] { EachKilled(ts[..|ts| - 1]); }
  }

  /** Every target is killed exactly once, in the order of the targets. */
  lemma CleanupIs(seed: Id, state: nat, maxWorkers: Int32, maxFaults: Int32)
    ensures var c := Generated(seed, state, maxWorkers, maxFaults);
            && |c.cleanup| == |c.targets|
            && forall k :: 0 <= k < |c.targets| ==> c.cleanup[k] == CleanupAction(KILL_PROCESS, c.targets[k].id)
  {
    hide CountDrawn, Faults, KillAll, FuzzedEnvelope, CampaignId, Decimal;
    EachKilled(Generated(seed, state, maxWorkers, maxFaults).targets);
  }

  /** The rest: the seed, the id it is mixed into, and the limits, which count two processes more than workers. */
  lemma RestIs(seed: Id, state: nat, maxWorkers: Int32, maxFaults: Int32)
    ensures var c := Generated(seed, state, maxWorkers, maxFaults);
            && c.seed == seed && SplitMix.Xor(c.id, 0x5EED_5EED_5EED_5EED) == seed
            && c.purpose == "fuzzed campaign seed=" + Decimal(seed) && c.repetitionCount == 1
            && c.preconditions == [Precondition("registered", "all targets registered", 0x8000_0000_0000_8001, "registered")]
            && c.envelope.maxChildProcesses == CountDrawn(state, maxWorkers) + 2
            && c.envelope.maxRestarts == 8 && c.envelope.maxOpenSockets == 64 && c.envelope.allowedTempRoot == ""
            && c.envelope.allowedExecutables == ["target_worker", "target_coordinator"]
  {
    hide CountDrawn, Targets, Faults, KillAll, Decimal, SplitMix.Xor;
    SplitMix.XorUndoes(seed, 0x5EED_5EED_5EED_5EED);
  }
}
