/** When the faults of a campaign fire, told over their category and parameters (src/scheduler.cpp). */
module Triggers {
  import opened Words
  import opened Text
  import opened Campaign
  import opened Scheduler
  import SplitMix

  /** Fault `i` of a campaign has fired after these observations. */
  predicate Fires(seed: nat, fs: seq<FaultSpec>, h: seq<Observation>, i: nat)
    requires i < |fs|
  {
    Run(Plan(seed, fs), h).0[i].fired
  }

  /** The name a fault waits for when it does not choose its own. */
  predicate Waits(f: FaultSpec, default: string, n: string) {
    n != "" && if "trigger_name" in f.params then f.params["trigger_name"] == n else n == default
  }

  lemma TextName(k: TriggerKind)
    ensures TriggerName(k) != ""
  {
  }

  /** A planned fault with a name fires on that name alone. */
  lemma FiresOnName(seed: nat, fs: seq<FaultSpec>, h: seq<Observation>, i: nat, k: TriggerKind, n: string)
    requires i < |fs| && n != "" && Trigger(fs[i]) == k
    requires n == if "trigger_name" in fs[i].params then fs[i].params["trigger_name"] else TriggerName(k)
    ensures Fires(seed, fs, h, i) <==>
            if k == EVENT_COUNT then Event(n) in h && multiset(h)[Event(n)] >= AtCount(fs[i])
            else || Event(n) in h
                 || (k == STATE_TRANSITION && Entered(n) in h) || (k == PROTOCOL_MESSAGE && Message(n) in h)
  {
    hide Trigger, AtCount, TriggerName, Run, SplitMix.Draw;
    var s := Plan(seed, fs);
    assert forall j :: 0 <= j < |s| ==> !s[j].fired;
    FiredWhenDue(s, h, i);
    Seen(h, Event(n));
    Seen(h, Entered(n));
    Seen(h, Message(n));
    assert DueUnder(s[i], n, multiset(h)) <==>
            if k == EVENT_COUNT then Event(n) in h && multiset(h)[Event(n)] >= AtCount(fs[i])
            else || Event(n) in h
                 || (k == STATE_TRANSITION && Entered(n) in h) || (k == PROTOCOL_MESSAGE && Message(n) in h);
    assert forall e: string :: DueUnder(s[i], e, multiset(h)) ==> e == n;
  }

  lemma Seen(h: seq<Observation>, o: Observation)
    ensures multiset(h)[o] > 0 <==> o in h
  {
  }

  // ----- by category, without the trigger and at_count parameters -----

  /** A process, worker or coordinator death and a failed recovery or rollback fires on "completion_boundary". */
  lemma DeathsFire(seed: nat, fs: seq<FaultSpec>, h: seq<Observation>, i: nat, n: string)
    requires i < |fs| && "trigger" !in fs[i].params && "at_count" !in fs[i].params && Waits(fs[i], "completion_boundary", n)
    requires fs[i].category in {
               PROCESS_TERMINATION, PROCESS_CRASH, PROCESS_STALL, WORKER_DEATH, COORDINATOR_DEATH,
               RECOVERY_FAILURE, ROLLBACK_FAILURE}
    ensures Fires(seed, fs, h, i) <==> Event(n) in h
  {
    hide Fires;
    assert TriggerName(COMPLETION_BOUNDARY) == "completion_boundary";
    FiresOnName(seed, fs, h, i, COMPLETION_BOUNDARY, n);
  }

  /** A fault of sockets, frames or messages fires on "protocol_message". */
  lemma TrafficFire(seed: nat, fs: seq<FaultSpec>, h: seq<Observation>, i: nat, n: string)
    requires i < |fs| && "trigger" !in fs[i].params && "at_count" !in fs[i].params && Waits(fs[i], "protocol_message", n)
    requires fs[i].category in {
               SOCKET_CLOSE, SOCKET_RESET, SOCKET_HALF_CLOSE, CONNECTION_DROP, FRAME_TRUNCATION,
               FRAME_CORRUPTION, FRAME_DUPLICATION, FRAME_REORDER, FRAME_DELAY, DUPLICATE_MESSAGE,
               CONFLICTING_DUPLICATE}
    ensures Fires(seed, fs, h, i) <==> Event(n) in h || Message(n) in h
  {
    hide Fires;
    assert TriggerName(PROTOCOL_MESSAGE) == "protocol_message";
    FiresOnName(seed, fs, h, i, PROTOCOL_MESSAGE, n);
  }

  /** A stale authority fires on "explicit_barrier". */
  lemma StaleAuthorityFire(seed: nat, fs: seq<FaultSpec>, h: seq<Observation>, i: nat, n: string)
    requires i < |fs| && "trigger" !in fs[i].params && "at_count" !in fs[i].params && Waits(fs[i], "explicit_barrier", n)
    requires fs[i].category in {
               STALE_EPOCH, STALE_BOOT, STALE_ATTEMPT, STALE_GENERATION, STALE_DISPATCH}
    ensures Fires(seed, fs, h, i) <==> Event(n) in h
  {
    hide Fires;
    assert TriggerName(EXPLICIT_BARRIER) == "explicit_barrier";
    FiresOnName(seed, fs, h, i, EXPLICIT_BARRIER, n);
  }

  /** A fault of files fires on "persistence_phase". */
  lemma PersistenceFire(seed: nat, fs: seq<FaultSpec>, h: seq<Observation>, i: nat, n: string)
    requires i < |fs| && "trigger" !in fs[i].params && "at_count" !in fs[i].params && Waits(fs[i], "persistence_phase", n)
    requires fs[i].category in {
               PARTIAL_FILE_WRITE, PERSISTENCE_TRUNCATION, PERSISTENCE_CORRUPTION, BAD_CHECKSUM,
               BAD_VERSION, DISK_WRITE_FAILURE}
    ensures Fires(seed, fs, h, i) <==> Event(n) in h
  {
    hide Fires;
    assert TriggerName(PERSISTENCE_PHASE) == "persistence_phase";
    FiresOnName(seed, fs, h, i, PERSISTENCE_PHASE, n);
  }

  /** A fault of resources fires on "resource_threshold". */
  lemma ResourcesFire(seed: nat, fs: seq<FaultSpec>, h: seq<Observation>, i: nat, n: string)
    requires i < |fs| && "trigger" !in fs[i].params && "at_count" !in fs[i].params && Waits(fs[i], "resource_threshold", n)
    requires fs[i].category in {
               RESOURCE_EXHAUSTION, HOST_MEMORY_PRESSURE, DEVICE_MEMORY_PRESSURE,
               RESERVATION_EXHAUSTION, CAPACITY_REDUCTION, CUDA_ALLOCATION_FAILURE}
    ensures Fires(seed, fs, h, i) <==> Event(n) in h
  {
    hide Fires;
    assert TriggerName(RESOURCE_THRESHOLD) == "resource_threshold";
    FiresOnName(seed, fs, h, i, RESOURCE_THRESHOLD, n);
  }

  /** A race, a skewed clock or an invalid state fires on "state_transition". */
  lemma RacesFire(seed: nat, fs: seq<FaultSpec>, h: seq<Observation>, i: nat, n: string)
    requires i < |fs| && "trigger" !in fs[i].params && "at_count" !in fs[i].params && Waits(fs[i], "state_transition", n)
    requires fs[i].category in {
               SHUTDOWN_RACE, RESTART_RACE, CLOCK_SKEW_SIMULATION, INVALID_STATE_INJECTION}
    ensures Fires(seed, fs, h, i) <==> Event(n) in h || Entered(n) in h
  {
    hide Fires;
    assert TriggerName(STATE_TRANSITION) == "state_transition";
    FiresOnName(seed, fs, h, i, STATE_TRANSITION, n);
  }

  /** An application, verification or dependency failure fires on "event_count". */
  lemma CountedFire(seed: nat, fs: seq<FaultSpec>, h: seq<Observation>, i: nat, n: string)
    requires i < |fs| && "trigger" !in fs[i].params && "at_count" !in fs[i].params && Waits(fs[i], "event_count", n)
    requires fs[i].category in {
               CUDA_APPLICATION_FAILURE, CUDA_VERIFICATION_FAILURE, DEPENDENCY_FAILURE}
    ensures Fires(seed, fs, h, i) <==> Event(n) in h
  {
    hide Fires;
    assert TriggerName(EVENT_COUNT) == "event_count";
    FiresOnName(seed, fs, h, i, EVENT_COUNT, n);
    Seen(h, Event(n));
  }

  // ----- by parameters -----

  /** Letter for letter the same but for upper and lower case; `name` is in lower case. */
  predicate Spells(s: string, name: string) {
    && |s| == |name|
    && forall j :: 0 <= j < |s| ==> s[j] == name[j] || ('a' <= name[j] <= 'z' && s[j] as int == name[j] as int - 32)
  }

  predicate LowerCase(name: string) { forall j :: 0 <= j < |name| ==> 'a' <= name[j] <= 'z' || name[j] == '_' }

  lemma SpelledLower(s: string, name: string)
    requires Spells(s, name) && LowerCase(name)
    ensures Lower(s) == name
  {
    forall j | 0 <= j < |s| ensures Lower(s)[j] == name[j] { }
  }

  /** The trigger parameter, in any case, overrides the category. */
  lemma Overrides(f: FaultSpec)
    requires "trigger" in f.params
    ensures Lower(f.params["trigger"]) == "event_count" ==> Trigger(f) == EVENT_COUNT
    ensures Lower(f.params["trigger"]) == "state_transition" ==> Trigger(f) == STATE_TRANSITION
    ensures Lower(f.params["trigger"]) == "protocol_message" ==> Trigger(f) == PROTOCOL_MESSAGE
    ensures Lower(f.params["trigger"]) == "dispatch" ==> Trigger(f) == DISPATCH
    ensures Lower(f.params["trigger"]) == "completion_boundary" ==> Trigger(f) == COMPLETION_BOUNDARY
    ensures Lower(f.params["trigger"]) == "persistence_phase" ==> Trigger(f) == PERSISTENCE_PHASE
    ensures Lower(f.params["trigger"]) == "explicit_barrier" ==> Trigger(f) == EXPLICIT_BARRIER
    ensures Lower(f.params["trigger"]) == "resource_threshold" ==> Trigger(f) == RESOURCE_THRESHOLD
    ensures Lower(f.params["trigger"]) == "process_registration" ==> Trigger(f) == PROCESS_REGISTRATION
  {
  }

  /** Any other trigger parameter, `operation_phase` and `none` among them, is ignored. */
  lemma OthersIgnored(f: FaultSpec)
    requires "trigger" in f.params
    requires Lower(f.params["trigger"]) !in ["event_count", "state_transition", "protocol_message", "dispatch",
               "completion_boundary", "persistence_phase", "explicit_barrier", "resource_threshold", "process_registration"]
    ensures Trigger(f) == Trigger(f.(params := f.params - {"trigger"}))
  {
    var name := Lower(f.params["trigger"]);
    var names := ["event_count", "state_transition", "protocol_message", "dispatch", "completion_boundary",
                  "persistence_phase", "explicit_barrier", "resource_threshold", "process_registration"];
    assert name != names[0] && name != names[1] && name != names[2] && name != names[3] && name != names[4];
    assert name != names[5] && name != names[6] && name != names[7] && name != names[8];
  }

  /** A fault told to count events fires from the `m`-th observation of its name, `m` being the at_count
      parameter in hexadecimal; without a legible one, or with zero, from the first. */
  lemma CountedFromAtCount(seed: nat, fs: seq<FaultSpec>, h: seq<Observation>, i: nat, n: string, m: nat)
    requires i < |fs| && "trigger" in fs[i].params && Spells(fs[i].params["trigger"], "event_count")
    requires Waits(fs[i], "event_count", n) && m < U64
    requires if "at_count" in fs[i].params
             then FromHex(fs[i].params["at_count"]) == Some(m) || (FromHex(fs[i].params["at_count"]) == None && m == 1)
             else m == 1
    ensures Fires(seed, fs, h, i) <==> multiset(h)[Event(n)] >= if m == 0 then 1 else m
  {
    hide Fires, FromHex, Trigger, Lower;
    SpelledLower(fs[i].params["trigger"], "event_count");
    Overrides(fs[i]);
    assert TriggerName(EVENT_COUNT) == "event_count";
    FiresOnName(seed, fs, h, i, EVENT_COUNT, n);
    Seen(h, Event(n));
  }

  lemma StateTransitionOverrides(seed: nat, fs: seq<FaultSpec>, h: seq<Observation>, i: nat, n: string)
    requires i < |fs| && "trigger" in fs[i].params && Spells(fs[i].params["trigger"], "state_transition") && Waits(fs[i], "state_transition", n)
    ensures Fires(seed, fs, h, i) <==> Event(n) in h || Entered(n) in h
  {
    hide Fires, Trigger, Lower;
    SpelledLower(fs[i].params["trigger"], "state_transition");
    Overrides(fs[i]);
    assert TriggerName(STATE_TRANSITION) == "state_transition";
    FiresOnName(seed, fs, h, i, STATE_TRANSITION, n);
  }

  lemma ProtocolMessageOverrides(seed: nat, fs: seq<FaultSpec>, h: seq<Observation>, i: nat, n: string)
    requires i < |fs| && "trigger" in fs[i].params && Spells(fs[i].params["trigger"], "protocol_message") && Waits(fs[i], "protocol_message", n)
    ensures Fires(seed, fs, h, i) <==> Event(n) in h || Message(n) in h
  {
    hide Fires, Trigger, Lower;
    SpelledLower(fs[i].params["trigger"], "protocol_message");
    Overrides(fs[i]);
    assert TriggerName(PROTOCOL_MESSAGE) == "protocol_message";
    FiresOnName(seed, fs, h, i, PROTOCOL_MESSAGE, n);
  }

  lemma DispatchOverrides(seed: nat, fs: seq<FaultSpec>, h: seq<Observation>, i: nat, n: string)
    requires i < |fs| && "trigger" in fs[i].params && Spells(fs[i].params["trigger"], "dispatch") && Waits(fs[i], "dispatch", n)
    ensures Fires(seed, fs, h, i) <==> Event(n) in h
  {
    hide Fires, Trigger, Lower;
    SpelledLower(fs[i].params["trigger"], "dispatch");
    Overrides(fs[i]);
    assert TriggerName(DISPATCH) == "dispatch";
    FiresOnName(seed, fs, h, i, DISPATCH, n);
  }

  lemma CompletionBoundaryOverrides(seed: nat, fs: seq<FaultSpec>, h: seq<Observation>, i: nat, n: string)
    requires i < |fs| && "trigger" in fs[i].params && Spells(fs[i].params["trigger"], "completion_boundary") && Waits(fs[i], "completion_boundary", n)
    ensures Fires(seed, fs, h, i) <==> Event(n) in h
  {
    hide Fires, Trigger, Lower;
    SpelledLower(fs[i].params["trigger"], "completion_boundary");
    Overrides(fs[i]);
    assert TriggerName(COMPLETION_BOUNDARY) == "completion_boundary";
    FiresOnName(seed, fs, h, i, COMPLETION_BOUNDARY, n);
  }

  lemma PersistencePhaseOverrides(seed: nat, fs: seq<FaultSpec>, h: seq<Observation>, i: nat, n: string)
    requires i < |fs| && "trigger" in fs[i].params && Spells(fs[i].params["trigger"], "persistence_phase") && Waits(fs[i], "persistence_phase", n)
    ensures Fires(seed, fs, h, i) <==> Event(n) in h
  {
    hide Fires, Trigger, Lower;
    SpelledLower(fs[i].params["trigger"], "persistence_phase");
    Overrides(fs[i]);
    assert TriggerName(PERSISTENCE_PHASE) == "persistence_phase";
    FiresOnName(seed, fs, h, i, PERSISTENCE_PHASE, n);
  }

  lemma ExplicitBarrierOverrides(seed: nat, fs: seq<FaultSpec>, h: seq<Observation>, i: nat, n: string)
    requires i < |fs| && "trigger" in fs[i].params && Spells(fs[i].params["trigger"], "explicit_barrier") && Waits(fs[i], "explicit_barrier", n)
    ensures Fires(seed, fs, h, i) <==> Event(n) in h
  {
    hide Fires, Trigger, Lower;
    SpelledLower(fs[i].params["trigger"], "explicit_barrier");
    Overrides(fs[i]);
    assert TriggerName(EXPLICIT_BARRIER) == "explicit_barrier";
    FiresOnName(seed, fs, h, i, EXPLICIT_BARRIER, n);
  }

  lemma ResourceThresholdOverrides(seed: nat, fs: seq<FaultSpec>, h: seq<Observation>, i: nat, n: string)
    requires i < |fs| && "trigger" in fs[i].params && Spells(fs[i].params["trigger"], "resource_threshold") && Waits(fs[i], "resource_threshold", n)
    ensures Fires(seed, fs, h, i) <==> Event(n) in h
  {
    hide Fires, Trigger, Lower;
    SpelledLower(fs[i].params["trigger"], "resource_threshold");
    Overrides(fs[i]);
    assert TriggerName(RESOURCE_THRESHOLD) == "resource_threshold";
    FiresOnName(seed, fs, h, i, RESOURCE_THRESHOLD, n);
  }

  lemma ProcessRegistrationOverrides(seed: nat, fs: seq<FaultSpec>, h: seq<Observation>, i: nat, n: string)
    requires i < |fs| && "trigger" in fs[i].params && Spells(fs[i].params["trigger"], "process_registration") && Waits(fs[i], "process_registration", n)
    ensures Fires(seed, fs, h, i) <==> Event(n) in h
  {
    hide Fires, Trigger, Lower;
    SpelledLower(fs[i].params["trigger"], "process_registration");
    Overrides(fs[i]);
    assert TriggerName(PROCESS_REGISTRATION) == "process_registration";
    FiresOnName(seed, fs, h, i, PROCESS_REGISTRATION, n);
  }

  /** A fault that chooses the empty name fires on the first event whatever its name, unless it counts. */
  lemma AnyNameFires(seed: nat, fs: seq<FaultSpec>, h: seq<Observation>, i: nat)
    requires i < |fs| && "trigger_name" in fs[i].params && fs[i].params["trigger_name"] == ""
    requires "trigger" !in fs[i].params && fs[i].category in {PROCESS_TERMINATION, PROCESS_CRASH, WORKER_DEATH, COORDINATOR_DEATH}
    ensures Fires(seed, fs, h, i) <==> exists j :: 0 <= j < |h| && h[j].Event?
  {
    hide AtCount, Run, SplitMix.Draw;
    var s := Plan(seed, fs);
    assert forall j :: 0 <= j < |s| ==> !s[j].fired;
    FiredWhenDue(s, h, i);
    if j :| 0 <= j < |h| && h[j].Event? {
      Seen(h, h[j]);
      assert DueUnder(s[i], h[j].name, multiset(h));
    }
    if e: string :| DueUnder(s[i], e, multiset(h)) {
      Seen(h, Event(e));
      var j :| 0 <= j < |h| && h[j] == Event(e);
    }
  }

  /** What a plan takes over from the campaign, fault by fault, in order. */
  lemma PlanFollows(seed: nat, fs: seq<FaultSpec>, i: nat)
    requires i < |fs|
    ensures var s := Plan(seed, fs);
            && |s| == |fs| && s[i].fault == fs[i].id && s[i].category == fs[i].category && s[i].target == fs[i].target
            && s[i].timing == fs[i].timing && s[i].order == i && !s[i].fired && s[i].id == SplitMix.Draw(seed, i)
  {
    hide SplitMix.Draw;
  }
}
