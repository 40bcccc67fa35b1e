/** The event-driven fault scheduler of src/scheduler.cpp. */
module Scheduler {
  import opened Words
  import opened Text
  import opened Campaign
  import SplitMix

  datatype TriggerKind =
    | EVENT_COUNT | STATE_TRANSITION | PROTOCOL_MESSAGE | OPERATION_PHASE | PROCESS_REGISTRATION
    | DISPATCH | COMPLETION_BOUNDARY | PERSISTENCE_PHASE | EXPLICIT_BARRIER | RESOURCE_THRESHOLD | NONE

  const KINDS: seq<TriggerKind> := [
    EVENT_COUNT, STATE_TRANSITION, PROTOCOL_MESSAGE, OPERATION_PHASE, PROCESS_REGISTRATION,
    DISPATCH, COMPLETION_BOUNDARY, PERSISTENCE_PHASE, EXPLICIT_BARRIER, RESOURCE_THRESHOLD, NONE
  ]

  datatype Injection = Injection(
    id: nat, fault: Id, category: FaultCategory, target: Id, timing: Timing,
    trigger: TriggerKind, triggerName: string, atCount: nat, order: nat, fired: bool)

  /** One call of an observe operation.  The target of a state observation is ignored by the source. */
  datatype Observation = Event(name: string) | Entered(name: string) | Message(name: string)

  // ----- planning -----

  function TriggerName(k: TriggerKind): string {
    match k
    case EVENT_COUNT => "event_count"
    case STATE_TRANSITION => "state_transition"
    case PROTOCOL_MESSAGE => "protocol_message"
    case OPERATION_PHASE => "operation_phase"
    case PROCESS_REGISTRATION => "process_registration"
    case DISPATCH => "dispatch"
    case COMPLETION_BOUNDARY => "completion_boundary"
    case PERSISTENCE_PHASE => "persistence_phase"
    case EXPLICIT_BARRIER => "explicit_barrier"
    case RESOURCE_THRESHOLD => "resource_threshold"
    case NONE => "none"
  }

  function DefaultTrigger(c: FaultCategory): TriggerKind {
    match c
    case PROCESS_TERMINATION | PROCESS_CRASH | PROCESS_STALL | WORKER_DEATH | COORDINATOR_DEATH
         | RECOVERY_FAILURE | ROLLBACK_FAILURE => COMPLETION_BOUNDARY
    case SOCKET_CLOSE | SOCKET_RESET | SOCKET_HALF_CLOSE | CONNECTION_DROP
         | FRAME_TRUNCATION | FRAME_CORRUPTION | FRAME_DUPLICATION | FRAME_REORDER | FRAME_DELAY
         | DUPLICATE_MESSAGE | CONFLICTING_DUPLICATE => PROTOCOL_MESSAGE
    case STALE_EPOCH | STALE_BOOT | STALE_ATTEMPT | STALE_GENERATION | STALE_DISPATCH => EXPLICIT_BARRIER
    case PARTIAL_FILE_WRITE | PERSISTENCE_TRUNCATION | PERSISTENCE_CORRUPTION
         | BAD_CHECKSUM | BAD_VERSION | DISK_WRITE_FAILURE => PERSISTENCE_PHASE
    case RESOURCE_EXHAUSTION | HOST_MEMORY_PRESSURE | DEVICE_MEMORY_PRESSURE
         | RESERVATION_EXHAUSTION | CAPACITY_REDUCTION | CUDA_ALLOCATION_FAILURE => RESOURCE_THRESHOLD
    case SHUTDOWN_RACE | RESTART_RACE | CLOCK_SKEW_SIMULATION | INVALID_STATE_INJECTION => STATE_TRANSITION
    case CUDA_APPLICATION_FAILURE | CUDA_VERIFICATION_FAILURE | DEPENDENCY_FAILURE => EVENT_COUNT
  }

  function Lower(s: string): string {
    seq(|s|, i requires 0 <= i < |s| => if 'A' <= s[i] <= 'Z' then (s[i] as int + 32) as char else s[i])
  }

  /** The `trigger` parameter overrides the default; `operation_phase`, `none` and unknown names do not. */
  function Trigger(f: FaultSpec): TriggerKind {
    if "trigger" !in f.params then DefaultTrigger(f.category)
    else
      var name := Lower(f.params["trigger"]);
      if name == "event_count" then EVENT_COUNT
      else if name == "state_transition" then STATE_TRANSITION
      else if name == "protocol_message" then PROTOCOL_MESSAGE
      else if name == "dispatch" then DISPATCH
      else if name == "completion_boundary" then COMPLETION_BOUNDARY
      else if name == "persistence_phase" then PERSISTENCE_PHASE
      else if name == "explicit_barrier" then EXPLICIT_BARRIER
      else if name == "resource_threshold" then RESOURCE_THRESHOLD
      else if name == "process_registration" then PROCESS_REGISTRATION
      else DefaultTrigger(f.category)
  }

  function AtCount(f: FaultSpec): nat {
    if "at_count" !in f.params then 1
    else match FromHex(f.params["at_count"]) case Some(v) => v case None => 1
  }

  function Planned(seed: nat, f: FaultSpec, i: nat): Injection {
    Injection(SplitMix.Draw(seed, i), f.id, f.category, f.target, f.timing, Trigger(f),
              if "trigger_name" in f.params then f.params["trigger_name"] else TriggerName(Trigger(f)),
              AtCount(f), i, false)
  }

  function Plan(seed: nat, fs: seq<FaultSpec>): (s: seq<Injection>)
    ensures |s| == |fs|
  {
    seq(|fs|, i requires 0 <= i < |fs| => Planned(seed, fs[i], i))
  }

  lemma PlanSnoc(seed: nat, fs: seq<FaultSpec>, i: nat)
    requires i < |fs|
    ensures Plan(seed, fs[..i + 1]) == Plan(seed, fs[..i]) + [Planned(seed, fs[i], i)]
  {
    hide Planned;
  }

  ghost predicate DistinctIds(s: seq<Injection>) {
    forall i, j :: 0 <= i < j < |s| ==> s[i].id != s[j].id
  }

  ghost predicate Unfired(s: seq<Injection>) {
    forall i :: 0 <= i < |s| ==> !s[i].fired
  }

  /** No two injections of a plan share an id, for any seed. */
  lemma PlanIdsDistinct(seed: nat, fs: seq<FaultSpec>)
    requires seed < U64 && |fs| <= U64
    ensures DistinctIds(Plan(seed, fs)) && Unfired(Plan(seed, fs))
  {
    var s := Plan(seed, fs);
    forall i, j | 0 <= i < j < |s| ensures s[i].id != s[j].id {
      SplitMix.DrawsDistinct(seed, i, j);
    }
  }

  // ----- one pass over the schedule -----

  predicate Named(x: Injection, name: string) { x.triggerName == "" || x.triggerName == name }

  predicate Armed(x: Injection, k: TriggerKind, name: string, count: nat) {
    && x.trigger == k && Named(x, name)
    && (k == EVENT_COUNT ==> count >= x.atCount)
  }

  predicate Hit(x: Injection, k: TriggerKind, name: string, count: nat) {
    !x.fired && Armed(x, k, name, count)
  }

  function MarkOne(x: Injection, k: TriggerKind, name: string, count: nat): Injection {
    if Hit(x, k, name, count) then x.(fired := true) else x
  }

  function Mark(s: seq<Injection>, k: TriggerKind, name: string, count: nat): (r: seq<Injection>)
    ensures |r| == |s|
  {
    seq(|s|, i requires 0 <= i < |s| => MarkOne(s[i], k, name, count))
  }

  function Hits(s: seq<Injection>, k: TriggerKind, name: string, count: nat): seq<nat> {
    if s == [] then []
    else
      var x := s[|s| - 1];
      Hits(s[..|s| - 1], k, name, count) + if Hit(x, k, name, count) then [x.id] else []
  }

  // ----- whole observations and whole runs -----

  /** An event tries every trigger kind in declaration order. */
  function FireKinds(s: seq<Injection>, name: string, count: nat, n: nat): (r: (seq<Injection>, seq<nat>))
    requires n <= |KINDS|
    ensures |r.0| == |s|
  {
    if n == 0 then (s, [])
    else
      var p := FireKinds(s, name, count, n - 1);
      (Mark(p.0, KINDS[n - 1], name, count), p.1 + Hits(p.0, KINDS[n - 1], name, count))
  }

  /** The schedule and the returned ids after observing `o`, `h` having been observed before. */
  function Observe(s: seq<Injection>, h: seq<Observation>, o: Observation): (r: (seq<Injection>, seq<nat>))
    ensures |r.0| == |s|
  {
    match o
    case Event(name) => FireKinds(s, name, multiset(h)[o] + 1, |KINDS|)
    case Entered(name) => (Mark(s, STATE_TRANSITION, name, 1), Hits(s, STATE_TRANSITION, name, 1))
    case Message(name) => (Mark(s, PROTOCOL_MESSAGE, name, 1), Hits(s, PROTOCOL_MESSAGE, name, 1))
  }

  /** A run of observations from a fresh plan: final schedule and all returned ids in order. */
  function Run(s: seq<Injection>, h: seq<Observation>): (r: (seq<Injection>, seq<nat>))
    ensures |r.0| == |s|
  {
    if h == [] then (s, [])
    else
      var n := |h| - 1;
      var p := Run(s, h[..n]);
      var q := Observe(p.0, h[..n], h[n]);
      (q.0, p.1 + q.1)
  }

  // ----- the closed form -----

  /** Observations under the name `e` are reason enough for `x` to fire. */
  predicate DueUnder(x: Injection, e: string, seen: multiset<Observation>) {
    && Named(x, e)
    && match x.trigger
       case EVENT_COUNT => seen[Event(e)] > 0 && seen[Event(e)] >= x.atCount
       case STATE_TRANSITION => seen[Event(e)] > 0 || seen[Entered(e)] > 0
       case PROTOCOL_MESSAGE => seen[Event(e)] > 0 || seen[Message(e)] > 0
       case _ => seen[Event(e)] > 0
  }

  /** When the history alone says that an injection has fired: some matching observation was made,
      and for an event counter it was made often enough under one name. */
  ghost predicate Due(x: Injection, seen: multiset<Observation>) {
    exists e: string :: DueUnder(x, e, seen)
  }

  /** Whether observation `o` after history `h` sets off an injection that is still waiting. */
  predicate SetsOff(x: Injection, h: seq<Observation>, o: Observation) {
    match o
    case Event(name) => Armed(x, x.trigger, name, multiset(h)[o] + 1)
    case Entered(name) => Armed(x, STATE_TRANSITION, name, 1)
    case Message(name) => Armed(x, PROTOCOL_MESSAGE, name, 1)
  }

  function KindIndex(k: TriggerKind): (i: nat)
    ensures i < |KINDS| && KINDS[i] == k
  {
    match k
    case EVENT_COUNT => 0
    case STATE_TRANSITION => 1
    case PROTOCOL_MESSAGE => 2
    case OPERATION_PHASE => 3
    case PROCESS_REGISTRATION => 4
    case DISPATCH => 5
    case COMPLETION_BOUNDARY => 6
    case PERSISTENCE_PHASE => 7
    case EXPLICIT_BARRIER => 8
    case RESOURCE_THRESHOLD => 9
    case NONE => 10
  }

  lemma KindAt(n: nat)
    requires n < |KINDS|
    ensures KindIndex(KINDS[n]) == n
  {
  }

  lemma {:induction false} FireKindsAt(s: seq<Injection>, name: string, count: nat, n: nat, i: nat)
    requires n <= |KINDS| && i < |s|
    ensures var x := s[i];
            FireKinds(s, name, count, n).0[i]
            == x.(fired := x.fired || (KindIndex(x.trigger) < n && Armed(x, x.trigger, name, count)))
  {
    if n > 0 {
      FireKindsAt(s, name, count, n - 1, i);
      KindAt(n - 1);
    }
  }

  lemma ObserveAt(s: seq<Injection>, h: seq<Observation>, o: Observation, i: nat)
    requires i < |s|
    ensures Observe(s, h, o).0[i] == s[i].(fired := s[i].fired || SetsOff(s[i], h, o))
  {
    match o {
      case Event(name) => FireKindsAt(s, name, multiset(h)[o] + 1, |KINDS|, i);
      case Entered(name) =>
      case Message(name) =>
    }
  }

  lemma SeenStep(h: seq<Observation>, o: Observation, p: Observation)
    ensures multiset(h + [o])[p] == multiset(h)[p] + if p == o then 1 else 0
  {
  }

  lemma DueUnderStep(x: Injection, e: string, h: seq<Observation>, o: Observation)
    ensures DueUnder(x, e, multiset(h + [o]))
            <==> DueUnder(x, e, multiset(h)) || (o.name == e && SetsOff(x, h, o))
  {
    SeenStep(h, o, Event(e));
    SeenStep(h, o, Entered(e));
    SeenStep(h, o, Message(e));
  }

  /** One more observation makes an injection due exactly when it was due or is set off now. */
  lemma DueStep(x: Injection, h: seq<Observation>, o: Observation)
    ensures Due(x, multiset(h + [o])) <==> Due(x, multiset(h)) || SetsOff(x, h, o)
  {
    hide DueUnder, SetsOff;
    forall e: string
      ensures DueUnder(x, e, multiset(h + [o]))
              <==> DueUnder(x, e, multiset(h)) || (o.name == e && SetsOff(x, h, o))
    {
      DueUnderStep(x, e, h, o);
    }
    DueUnderStep(x, o.name, h, o);
  }

  lemma FiredFlagIrrelevant(x: Injection, fired: bool, h: seq<Observation>, o: Observation)
    ensures SetsOff(x.(fired := fired), h, o) == SetsOff(x, h, o)
  {
  }

  /** After any run of observations since the plan, an injection has fired exactly when the closed
      form says so; nothing else about it has changed. */
  lemma {:induction false} FiredWhenDue(s: seq<Injection>, h: seq<Observation>, i: nat)
    requires Unfired(s) && i < |s|
    ensures Run(s, h).0[i] == s[i].(fired := Due(s[i], multiset(h)))
  {
    if h == [] {
      forall e: string ensures !DueUnder(s[i], e, multiset(h)) { }
    } else {
      hide Due, SetsOff, Observe;
      var front, o := h[..|h| - 1], h[|h| - 1];
      FiredWhenDue(s, front, i);
      var p := Run(s, front).0;
      ObserveAt(p, front, o, i);
      FiredFlagIrrelevant(s[i], p[i].fired, front, o);
      DueStep(s[i], front, o);
      assert h == front + [o];
    }
  }

  /** The order in which observations arrive does not matter to what has fired at the end. */
  lemma OrderIrrelevant(s: seq<Injection>, h: seq<Observation>, g: seq<Observation>)
    requires Unfired(s) && multiset(h) == multiset(g)
    ensures Run(s, h).0 == Run(s, g).0
  {
    forall i | 0 <= i < |s| ensures Run(s, h).0[i] == Run(s, g).0[i] {
      FiredWhenDue(s, h, i);
      FiredWhenDue(s, g, i);
    }
  }

  // ----- conservation of ids -----

  function FiredIds(s: seq<Injection>): seq<nat> {
    if s == [] then []
    else FiredIds(s[..|s| - 1]) + if s[|s| - 1].fired then [s[|s| - 1].id] else []
  }

  lemma FiredIdsSnoc(s: seq<Injection>, x: Injection)
    ensures FiredIds(s + [x]) == FiredIds(s) + IdIf(x.fired, x.id)
  {
    assert (s + [x])[..|s|] == s;
  }

  function IdIf(b: bool, id: nat): seq<nat> { if b then [id] else [] }

  lemma HitsSnoc(s: seq<Injection>, x: Injection, k: TriggerKind, name: string, count: nat)
    ensures Hits(s + [x], k, name, count) == Hits(s, k, name, count) + IdIf(Hit(x, k, name, count), x.id)
  {
    assert (s + [x])[..|s|] == s;
  }

  lemma SumsExtend(a: seq<nat>, b: seq<nat>, c: seq<nat>, x: seq<nat>, y: seq<nat>, z: seq<nat>)
    requires multiset(a) == multiset(b) + multiset(c) && multiset(x) == multiset(y) + multiset(z)
    ensures multiset(a + x) == multiset(b + y) + multiset(c + z)
  {
  }

  lemma {:induction false} MarkConserves(s: seq<Injection>, k: TriggerKind, name: string, count: nat)
    ensures multiset(FiredIds(Mark(s, k, name, count))) == multiset(FiredIds(s)) + multiset(Hits(s, k, name, count))
  {
    if s != [] {
      hide *;
      var front, x := s[..|s| - 1], s[|s| - 1];
      MarkConserves(front, k, name, count);
      assert s == front + [x];
      MarkSnoc(front, x, k, name, count);
      var y := MarkOne(x, k, name, count);
      FiredIdsSnoc(front, x);
      FiredIdsSnoc(Mark(front, k, name, count), y);
      HitsSnoc(front, x, k, name, count);
      MarkOneConserves(x, k, name, count);
      SumsExtend(FiredIds(Mark(front, k, name, count)), FiredIds(front), Hits(front, k, name, count),
                 IdIf(y.fired, y.id), IdIf(x.fired, x.id), IdIf(Hit(x, k, name, count), x.id));
    }
  }

  lemma MarkOneConserves(x: Injection, k: TriggerKind, name: string, count: nat)
    ensures var y := MarkOne(x, k, name, count);
            multiset(IdIf(y.fired, y.id)) == multiset(IdIf(x.fired, x.id)) + multiset(IdIf(Hit(x, k, name, count), x.id))
  {
  }

  lemma MarkSnoc(s: seq<Injection>, x: Injection, k: TriggerKind, name: string, count: nat)
    ensures Mark(s + [x], k, name, count) == Mark(s, k, name, count) + [MarkOne(x, k, name, count)]
  {
  }

  lemma SumsChain(f0: seq<nat>, f1: seq<nat>, f2: seq<nat>, p: seq<nat>, h: seq<nat>)
    requires multiset(f1) == multiset(f0) + multiset(p) && multiset(f2) == multiset(f1) + multiset(h)
    ensures multiset(f2) == multiset(f0) + multiset(p + h)
  {
  }

  lemma {:induction false} FireKindsConserves(s: seq<Injection>, name: string, count: nat, n: nat)
    requires n <= |KINDS|
    ensures multiset(FiredIds(FireKinds(s, name, count, n).0))
            == multiset(FiredIds(s)) + multiset(FireKinds(s, name, count, n).1)
  {
    if n == 0 {
      FireNone(s, name, count);
    } else {
      hide *;
      FireKindsConserves(s, name, count, n - 1);
      var p, k := FireKinds(s, name, count, n - 1), KINDS[n - 1];
      MarkConserves(p.0, k, name, count);
      FireOneMore(s, name, count, n - 1);
      SumsChain(FiredIds(s), FiredIds(p.0), FiredIds(Mark(p.0, k, name, count)), p.1, Hits(p.0, k, name, count));
    }
  }

  lemma {:induction false} ObserveConserves(s: seq<Injection>, h: seq<Observation>, o: Observation)
    ensures multiset(FiredIds(Observe(s, h, o).0)) == multiset(FiredIds(s)) + multiset(Observe(s, h, o).1)
  {
    hide FireKinds, Mark, Hits, FiredIds;
    match o {
      case Event(name) => FireKindsConserves(s, name, multiset(h)[o] + 1, |KINDS|);
      case Entered(name) => MarkConserves(s, STATE_TRANSITION, name, 1);
      case Message(name) => MarkConserves(s, PROTOCOL_MESSAGE, name, 1);
    }
  }

  lemma {:induction false} UnfiredHasNone(s: seq<Injection>)
    requires Unfired(s)
    ensures FiredIds(s) == []
  {
    if s != [] { UnfiredHasNone(s[..|s| - 1]); }
  }

  /** The ids handed out over a run are exactly those of the injections that have fired. */
  lemma {:induction false} RunConserves(s: seq<Injection>, h: seq<Observation>)
    requires Unfired(s)
    ensures multiset(Run(s, h).1) == multiset(FiredIds(Run(s, h).0))
    ensures |Run(s, h).1| == |FiredIds(Run(s, h).0)|
  {
    if h == [] {
      UnfiredHasNone(s);
    } else {
      var n := |h| - 1;
      RunConserves(s, h[..n]);
      ObserveConserves(Run(s, h[..n]).0, h[..n], h[n]);
    }
    assert |multiset(Run(s, h).1)| == |Run(s, h).1|;
    assert |multiset(FiredIds(Run(s, h).0))| == |FiredIds(Run(s, h).0)|;
  }

  lemma {:induction false} FiredIdsOnce(s: seq<Injection>, id: nat)
    requires DistinctIds(s)
    ensures multiset(FiredIds(s))[id] <= 1
    ensures id in FiredIds(s) ==> exists i :: 0 <= i < |s| && s[i].id == id
  {
    if s != [] {
      var n := |s| - 1;
      FiredIdsOnce(s[..n], id);
      if id in FiredIds(s[..n]) {
        var i :| 0 <= i < |s[..n]| && s[..n][i].id == id;
        assert s[i].id == id;
      }
    }
  }

  /** Over a whole run no id is returned twice. */
  lemma NoIdTwice(seed: nat, fs: seq<FaultSpec>, h: seq<Observation>, a: nat, b: nat)
    requires seed < U64 && |fs| <= U64
    requires a < b < |Run(Plan(seed, fs), h).1|
    ensures Run(Plan(seed, fs), h).1[a] != Run(Plan(seed, fs), h).1[b]
  {
    PlanIdsDistinct(seed, fs);
    NoIdTwiceFrom(Plan(seed, fs), h, a, b);
  }

  lemma NoIdTwiceFrom(s: seq<Injection>, h: seq<Observation>, a: nat, b: nat)
    requires Unfired(s) && DistinctIds(s)
    requires a < b < |Run(s, h).1|
    ensures Run(s, h).1[a] != Run(s, h).1[b]
  {
    hide Run, FiredIds;
    var ids := Run(s, h).1;
    RunConserves(s, h);
    RunKeepsIds(s, h);
    FiredIdsOnce(Run(s, h).0, ids[a]);
    if ids[a] == ids[b] { TwiceCounts(ids, a, b); }
  }

  lemma RunKeepsIds(s: seq<Injection>, h: seq<Observation>)
    requires Unfired(s) && DistinctIds(s)
    ensures DistinctIds(Run(s, h).0)
  {
    var r := Run(s, h).0;
    forall i | 0 <= i < |r| ensures r[i].id == s[i].id { FiredWhenDue(s, h, i); }
  }

  lemma TwiceCounts(ids: seq<nat>, a: nat, b: nat)
    requires a < b < |ids| && ids[a] == ids[b]
    ensures multiset(ids)[ids[a]] >= 2
  {
    assert ids == ids[..b] + ids[b..];
    assert multiset(ids) == multiset(ids[..b]) + multiset(ids[b..]);
    assert ids[..b][a] == ids[a] && ids[b..][0] == ids[b];
    assert ids[a] in multiset(ids[..b]) && ids[b] in multiset(ids[b..]);
  }

  // ----- the scheduler object -----

  /** The count stored for a name, zero when there is none. */
  function Lookup(counts: seq<(string, nat)>, name: string): nat {
    if counts == [] then 0
    else if counts[0].0 == name then counts[0].1
    else Lookup(counts[1..], name)
  }

  ghost predicate Tallies(counts: seq<(string, nat)>, h: seq<Observation>) {
    forall name: string :: Lookup(counts, name) == multiset(h)[Event(name)]
  }

  lemma {:induction false} LookupFirst(counts: seq<(string, nat)>, i: nat)
    requires i < |counts| && forall j :: 0 <= j < i ==> counts[j].0 != counts[i].0
    ensures Lookup(counts, counts[i].0) == counts[i].1
  {
    if i > 0 { LookupFirst(counts[1..], i - 1); }
  }

  lemma {:induction false} LookupAbsent(counts: seq<(string, nat)>, name: string)
    requires forall j :: 0 <= j < |counts| ==> counts[j].0 != name
    ensures Lookup(counts, name) == 0
  {
    if counts != [] { LookupAbsent(counts[1..], name); }
  }

  lemma {:induction false} LookupUpdated(counts: seq<(string, nat)>, i: nat, n: nat, name: string)
    requires i < |counts| && forall j :: 0 <= j < i ==> counts[j].0 != counts[i].0
    ensures Lookup(counts[i := (counts[i].0, n)], name) == if name == counts[i].0 then n else Lookup(counts, name)
  {
    if i > 0 {
      LookupUpdated(counts[1..], i - 1, n, name);
      assert counts[i := (counts[i].0, n)][1..] == counts[1..][i - 1 := (counts[i].0, n)];
    }
  }

  lemma {:induction false} LookupAppended(counts: seq<(string, nat)>, key: string, n: nat, name: string)
    requires forall j :: 0 <= j < |counts| ==> counts[j].0 != key
    ensures Lookup(counts + [(key, n)], name) == if name == key then n else Lookup(counts, name)
  {
    if counts != [] {
      LookupAppended(counts[1..], key, n, name);
      assert (counts + [(key, n)])[1..] == counts[1..] + [(key, n)];
    }
  }

  lemma TallyEvent(counts: seq<(string, nat)>, after: seq<(string, nat)>, h: seq<Observation>, event: string)
    requires Tallies(counts, h)
    requires forall name: string :: Lookup(after, name) == Lookup(counts, name) + if name == event then 1 else 0
    ensures Tallies(after, h + [Event(event)])
  {
    forall name: string ensures Lookup(after, name) == multiset(h + [Event(event)])[Event(name)] {
      SeenStep(h, Event(event), Event(name));
    }
  }

  lemma TallyOther(counts: seq<(string, nat)>, h: seq<Observation>, o: Observation)
    requires Tallies(counts, h) && !o.Event?
    ensures Tallies(counts, h + [o])
  {
    forall name: string ensures Lookup(counts, name) == multiset(h + [o])[Event(name)] {
      SeenStep(h, o, Event(name));
    }
  }

  lemma RunSnoc(s: seq<Injection>, h: seq<Observation>, o: Observation)
    ensures var p := Run(s, h); var q := Observe(p.0, h, o);
            Run(s, h + [o]) == (q.0, p.1 + q.1)
  {
    assert (h + [o])[..|h|] == h;
  }

  class FaultScheduler {
    const seed: nat
    var schedule: seq<Injection>
    var counts: seq<(string, nat)>
    /** The schedule as planned, what was observed since, and the ids returned since. */
    ghost var planned: seq<Injection>
    ghost var history: seq<Observation>
    ghost var returned: seq<nat>

    ghost predicate Valid()
      reads this
    {
      && seed < U64
      && Unfired(planned)
      && (schedule, returned) == Run(planned, history)
      && Tallies(counts, history)
    }

    constructor (seed: nat)
      requires seed < U64
      ensures Valid() && this.seed == seed && schedule == [] && history == []
    {
      this.seed := seed;
      schedule, counts, planned, history, returned := [], [], [], [], [];
    }

    /** Draws one id for every fault, in order, from a generator started at the seed. */
    method PlanCampaign(faults: seq<FaultSpec>)
      requires Valid()
      modifies this
      ensures Valid() && planned == schedule == Plan(seed, faults) && history == [] && returned == []
    {
      schedule, counts := [], [];
      var rng := new SplitMix.Stream(seed);
      for i := 0 to |faults|
        invariant fresh(rng) && rng.state == SplitMix.State(seed, i) && rng.state < U64
        invariant schedule == Plan(seed, faults[..i]) && counts == []
      {
        hide SplitMix.Draw, Trigger, AtCount, Plan;
        var id := rng.Next();
        SplitMix.StateRestart(seed, i, 1);
        SplitMix.DrawRestart(seed, i, 0);
        PlanSnoc(seed, faults, i);
        var f := faults[i];
        var name := TriggerName(Trigger(f));
        if "trigger_name" in f.params { name := f.params["trigger_name"]; }
        var injection := Injection(id, f.id, f.category, f.target, f.timing, Trigger(f), name, AtCount(f), i, false);
        assert injection == Planned(seed, f, i);
        schedule := schedule + [injection];
      }
      assert faults[..|faults|] == faults;
      planned, history, returned := schedule, [], [];
    }

    /** Marks in place every waiting injection that matches, collecting the ids in schedule order. */
    method TryFire(k: TriggerKind, name: string, count: nat) returns (fired: seq<nat>)
      modifies this`schedule
      ensures schedule == Mark(old(schedule), k, name, count)
      ensures fired == Hits(old(schedule), k, name, count)
    {
      fired := [];
      ghost var s := schedule;
      for i := 0 to |schedule|
        invariant schedule == Mark(s[..i], k, name, count) + s[i..]
        invariant fired == Hits(s[..i], k, name, count)
      {
        hide Mark, Hits;
        var x := schedule[i];
        PassStep(s, i, k, name, count);
        if !x.fired && x.trigger == k && (x.triggerName == "" || x.triggerName == name)
           && !(k == EVENT_COUNT && count < x.atCount)
        {
          schedule := schedule[i := x.(fired := true)];
          fired := fired + [x.id];
        }
      }
      assert s[..|s|] == s;
    }

    method ObserveEvent(event: string) returns (fired: seq<nat>)
      requires Valid()
      modifies this`schedule, this`counts, this`history, this`returned
      ensures Valid() && history == old(history) + [Event(event)] && returned == old(returned) + fired
    {
      hide Observe, FireKinds, Run, Mark, Hits;
      var count := Bump(event);
      ghost var s, o := schedule, Event(event);
      fired := [];
      FireNone(s, event, count);
      for t := 0 to |KINDS|
        invariant (schedule, fired) == FireKinds(s, event, count, t)
        invariant planned == old(planned) && history == old(history) && returned == old(returned)
        invariant Tallies(counts, history + [o])
      {
        FireOneMore(s, event, count, t);
        var f := TryFire(KINDS[t], event, count);
        fired := fired + f;
      }
      ObserveIs(s, history, event);
      RunSnoc(planned, history, o);
      history := history + [o];
      returned := returned + fired;
    }

    /** Counts the event, adding an entry on its first occurrence. */
    method Bump(event: string) returns (count: nat)
      requires Tallies(counts, history)
      modifies this`counts
      ensures count == multiset(history)[Event(event)] + 1
      ensures Tallies(counts, history + [Event(event)])
    {
      ghost var before := counts;
      var i := 0;
      while i < |counts| && counts[i].0 != event
        invariant 0 <= i <= |counts|
        invariant forall j :: 0 <= j < i ==> counts[j].0 != event
      {
        i := i + 1;
      }
      count := 1;
      if i < |counts| {
        count := counts[i].1 + 1;
        LookupFirst(counts, i);
        forall name: string ensures Lookup(counts[i := (event, count)], name) == Lookup(before, name) + if name == event then 1 else 0 {
          LookupUpdated(counts, i, count, name);
        }
        counts := counts[i := (event, count)];
      } else {
        LookupAbsent(counts, event);
        forall name: string ensures Lookup(counts + [(event, 1)], name) == Lookup(before, name) + if name == event then 1 else 0 {
          LookupAppended(counts, event, 1, name);
        }
        counts := counts + [(event, 1)];
      }
      TallyEvent(before, counts, history, event);
    }

    method ObserveState(target: Id, state: string) returns (fired: seq<nat>)
      requires Valid()
      modifies this`schedule, this`history, this`returned
      ensures Valid() && history == old(history) + [Entered(state)] && returned == old(returned) + fired
    {
      RunSnoc(planned, history, Entered(state));
      fired := TryFire(STATE_TRANSITION, state, 1);
      TallyOther(counts, history, Entered(state));
      history := history + [Entered(state)];
      returned := returned + fired;
    }

    method ObserveMessage(message: string) returns (fired: seq<nat>)
      requires Valid()
      modifies this`schedule, this`history, this`returned
      ensures Valid() && history == old(history) + [Message(message)] && returned == old(returned) + fired
    {
      RunSnoc(planned, history, Message(message));
      fired := TryFire(PROTOCOL_MESSAGE, message, 1);
      TallyOther(counts, history, Message(message));
      history := history + [Message(message)];
      returned := returned + fired;
    }

    method EventCount(event: string) returns (count: nat)
      requires Valid()
      ensures count == multiset(history)[Event(event)]
    {
      for i := 0 to |counts|
        invariant forall j :: 0 <= j < i ==> counts[j].0 != event
      {
        if counts[i].0 == event {
          LookupFirst(counts, i);
          return counts[i].1;
        }
      }
      LookupAbsent(counts, event);
      count := 0;
    }

    /** The number of fired injections is the number of ids returned so far. */
    method FiredCount() returns (n: nat)
      requires Valid()
      ensures n == |returned|
    {
      n := 0;
      for i := 0 to |schedule|
        invariant n == |FiredIds(schedule[..i])|
      {
        assert schedule[..i + 1] == schedule[..i] + [schedule[i]];
        FiredIdsSnoc(schedule[..i], schedule[i]);
        if schedule[i].fired { n := n + 1; }
      }
      assert schedule[..|schedule|] == schedule;
      RunConserves(planned, history);
    }

    method AllFired() returns (all: bool)
      requires Valid()
      ensures all <==> forall i :: 0 <= i < |planned| ==> Due(planned[i], multiset(history))
    {
      forall i | 0 <= i < |planned| ensures schedule[i].fired == Due(planned[i], multiset(history)) {
        FiredWhenDue(planned, history, i);
      }
      for i := 0 to |schedule|
        invariant forall j :: 0 <= j < i ==> schedule[j].fired
      {
        if !schedule[i].fired {
          assert !Due(planned[i], multiset(history));
          return false;
        }
      }
      all := true;
    }
  }

  /** One step of a pass in place: entry `i` is replaced, the ids so far may grow by one. */
  lemma PassStep(s: seq<Injection>, i: nat, k: TriggerKind, name: string, count: nat)
    requires i < |s|
    ensures (Mark(s[..i], k, name, count) + s[i..])[i] == s[i]
    ensures Mark(s[..i + 1], k, name, count) + s[i + 1..]
            == (Mark(s[..i], k, name, count) + s[i..])[i := MarkOne(s[i], k, name, count)]
    ensures Hits(s[..i + 1], k, name, count) == Hits(s[..i], k, name, count) + IdIf(Hit(s[i], k, name, count), s[i].id)
  {
    hide Hits;
    assert s[..i + 1] == s[..i] + [s[i]];
    HitsSnoc(s[..i], s[i], k, name, count);
  }

  lemma FireNone(s: seq<Injection>, name: string, count: nat)
    ensures FireKinds(s, name, count, 0) == (s, [])
  {
  }

  lemma FireOneMore(s: seq<Injection>, name: string, count: nat, n: nat)
    requires n < |KINDS|
    ensures var p := FireKinds(s, name, count, n);
            FireKinds(s, name, count, n + 1)
            == (Mark(p.0, KINDS[n], name, count), p.1 + Hits(p.0, KINDS[n], name, count))
  {
  }

  lemma ObserveIs(s: seq<Injection>, h: seq<Observation>, name: string)
    ensures Observe(s, h, Event(name)) == FireKinds(s, name, multiset(h)[Event(name)] + 1, |KINDS|)
  {
  }
}
