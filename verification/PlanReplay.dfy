/** Which ids a replayed plan is expected to inject, told by when its injections are due (src/replay.cpp,
    lines 94-111). */
module PlanReplay {
  import opened Text
  import opened Campaign
  import opened Scheduler
  import opened Replay
  import SplitMix

  /** The ids of the injections of one trigger kind that are due after `o` and were not before, in the
      order of the plan. */
  ghost function NewlyDue(s: seq<Injection>, k: TriggerKind, h: seq<Observation>, o: Observation): seq<nat> {
    if s == [] then []
    else
      var x := s[|s| - 1];
      NewlyDue(s[..|s| - 1], k, h, o)
      + if x.trigger == k && Due(x, multiset(h + [o])) && !Due(x, multiset(h)) then [x.id] else []
  }

  /** What one event sets off: kind after kind in the order of the trigger kinds. */
  ghost function SetOff(s: seq<Injection>, h: seq<Observation>, name: string): seq<nat> {
    var o := Event(name);
    NewlyDue(s, EVENT_COUNT, h, o) + NewlyDue(s, STATE_TRANSITION, h, o) + NewlyDue(s, PROTOCOL_MESSAGE, h, o)
    + NewlyDue(s, OPERATION_PHASE, h, o) + NewlyDue(s, PROCESS_REGISTRATION, h, o) + NewlyDue(s, DISPATCH, h, o)
    + NewlyDue(s, COMPLETION_BOUNDARY, h, o) + NewlyDue(s, PERSISTENCE_PHASE, h, o)
    + NewlyDue(s, EXPLICIT_BARRIER, h, o) + NewlyDue(s, RESOURCE_THRESHOLD, h, o) + NewlyDue(s, NONE, h, o)
  }

  /** What all the events set off, one after the other. */
  ghost function AllSetOff(s: seq<Injection>, names: seq<string>): seq<nat> {
    if names == [] then []
    else AllSetOff(s, names[..|names| - 1]) + SetOff(s, Events(names[..|names| - 1]), names[|names| - 1])
  }

  lemma {:induction false} HitsAreDue(s: seq<Injection>, now: seq<Injection>, k: TriggerKind, h: seq<Observation>, name: string)
    requires |now| == |s|
    requires forall i :: 0 <= i < |s| && s[i].trigger == k ==> now[i] == s[i].(fired := Due(s[i], multiset(h)))
    requires forall i :: 0 <= i < |s| ==> now[i].trigger == s[i].trigger
    ensures Hits(now, k, name, multiset(h)[Event(name)] + 1) == NewlyDue(s, k, h, Event(name))
  {
    hide Due;
    if s != [] {
      var n := |s| - 1;
      HitsAreDue(s[..n], now[..n], k, h, name);
      if s[n].trigger == k { DueStep(s[n], h, Event(name)); }
    }
  }

  /** The ids of the kinds before the `n`-th. */
  ghost function UpToKind(s: seq<Injection>, h: seq<Observation>, name: string, n: nat): seq<nat>
    requires n <= |KINDS|
  {
    if n == 0 then [] else UpToKind(s, h, name, n - 1) + NewlyDue(s, KINDS[n - 1], h, Event(name))
  }

  lemma {:induction false} KindsFire(s: seq<Injection>, h: seq<Observation>, name: string, n: nat)
    requires Unfired(s) && n <= |KINDS|
    ensures var now, count := Run(s, h).0, multiset(h)[Event(name)] + 1;
            FireKinds(now, name, count, n).1 == UpToKind(s, h, name, n)
  {
    hide Run, Due, NewlyDue, Hits, Mark;
    if n > 0 {
      var now, count, k := Run(s, h).0, multiset(h)[Event(name)] + 1, KINDS[n - 1];
      KindsFire(s, h, name, n - 1);
      var p := FireKinds(now, name, count, n - 1).0;
      forall i | 0 <= i < |s|
        ensures p[i].trigger == s[i].trigger
        ensures s[i].trigger == k ==> p[i] == s[i].(fired := Due(s[i], multiset(h)))
      {
        FireKindsAt(now, name, count, n - 1, i);
        FiredWhenDue(s, h, i);
        KindAt(n - 1);
      }
      HitsAreDue(s, p, k, h, name);
    }
  }

  lemma AllKinds(s: seq<Injection>, h: seq<Observation>, name: string)
    ensures UpToKind(s, h, name, |KINDS|) == SetOff(s, h, name)
  {
    hide NewlyDue;
    SixKinds(s, h, name);
    var a := UpToKind(s, h, name, 6);
    assert UpToKind(s, h, name, 7) == a + NewlyDue(s, COMPLETION_BOUNDARY, h, Event(name));
    assert UpToKind(s, h, name, 8) == UpToKind(s, h, name, 7) + NewlyDue(s, PERSISTENCE_PHASE, h, Event(name));
    assert UpToKind(s, h, name, 9) == UpToKind(s, h, name, 8) + NewlyDue(s, EXPLICIT_BARRIER, h, Event(name));
    assert UpToKind(s, h, name, 10) == UpToKind(s, h, name, 9) + NewlyDue(s, RESOURCE_THRESHOLD, h, Event(name));
    assert UpToKind(s, h, name, 11) == UpToKind(s, h, name, 10) + NewlyDue(s, NONE, h, Event(name));
  }

  lemma SixKinds(s: seq<Injection>, h: seq<Observation>, name: string)
    ensures var o := Event(name);
            UpToKind(s, h, name, 6) ==
            NewlyDue(s, EVENT_COUNT, h, o) + NewlyDue(s, STATE_TRANSITION, h, o) + NewlyDue(s, PROTOCOL_MESSAGE, h, o)
            + NewlyDue(s, OPERATION_PHASE, h, o) + NewlyDue(s, PROCESS_REGISTRATION, h, o) + NewlyDue(s, DISPATCH, h, o)
  {
    hide NewlyDue;
    var o := Event(name);
    var a := NewlyDue(s, EVENT_COUNT, h, o);
    assert UpToKind(s, h, name, 0) == [] && [] + a == a;
    assert UpToKind(s, h, name, 1) == a;
    assert UpToKind(s, h, name, 2) == a + NewlyDue(s, STATE_TRANSITION, h, o);
    assert UpToKind(s, h, name, 3) == UpToKind(s, h, name, 2) + NewlyDue(s, PROTOCOL_MESSAGE, h, o);
    assert UpToKind(s, h, name, 4) == UpToKind(s, h, name, 3) + NewlyDue(s, OPERATION_PHASE, h, o);
    assert UpToKind(s, h, name, 5) == UpToKind(s, h, name, 4) + NewlyDue(s, PROCESS_REGISTRATION, h, o);
  }

  lemma {:induction false} EventsSetOff(s: seq<Injection>, names: seq<string>)
    requires Unfired(s)
    ensures Run(s, Events(names)).1 == AllSetOff(s, names)
  {
    hide Observe, FireKinds, SetOff, UpToKind;
    if names != [] {
      var n := |names| - 1;
      var h := Events(names[..n]);
      EventsSetOff(s, names[..n]);
      assert Events(names)[..n] == h && Events(names)[n] == Event(names[n]);
      ObserveIs(Run(s, h).0, h, names[n]);
      KindsFire(s, h, names[n], |KINDS|);
      AllKinds(s, h, names[n]);
    }
  }

  /** Without events the ids are those of the whole plan, the draws of the seed in order; with events they
      are those of the injections as they become due, event by event and kind by kind. */
  lemma ReplayedExactly(seed: nat, faults: seq<FaultSpec>, events: seq<string>)
    ensures events == [] ==> |Replayed(seed, faults, events)| == |faults|
                             && forall i :: 0 <= i < |faults| ==> Replayed(seed, faults, events)[i] == SplitMix.Draw(seed, i)
    ensures events != [] ==> Replayed(seed, faults, events) == AllSetOff(Plan(seed, faults), events)
  {
    hide SplitMix.Draw, Run, AllSetOff;
    if events != [] { EventsSetOff(Plan(seed, faults), events); }
  }
}
