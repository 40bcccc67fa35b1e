/** Campaign generation and greedy reduction: src/fuzz.cpp. */
module Fuzz {
  import opened Words
  import opened Text
  import opened Campaign
  import SplitMix

  // ----- sub-sequences -----

  /** `a` keeps some elements of `b`, in order. */
  predicate Within<T(==)>(a: seq<T>, b: seq<T>)
    decreases |b|
  {
    if a == [] then true
    else if b == [] then false
    else (a[0] == b[0] && Within(a[1..], b[1..])) || Within(a, b[1..])
  }

  function Without<T>(s: seq<T>, i: nat): (r: seq<T>)
    requires i < |s|
    ensures |r| == |s| - 1
  {
    s[..i] + s[i + 1..]
  }

  lemma {:induction false} WithinSelf<T>(a: seq<T>)
    ensures Within(a, a)
  {
    if a != [] { WithinSelf(a[1..]); }
  }

  lemma {:induction false} WithinTrans<T>(a: seq<T>, b: seq<T>, c: seq<T>)
    requires Within(a, b) && Within(b, c)
    ensures Within(a, c)
    decreases |c|
  {
    if a != [] && b != [] {
      if b[0] == c[0] && Within(b[1..], c[1..]) {
        if a[0] == b[0] && Within(a[1..], b[1..]) {
          WithinTrans(a[1..], b[1..], c[1..]);
        } else {
          WithinTrans(a, b[1..], c[1..]);
        }
      } else {
        WithinTrans(a, b, c[1..]);
      }
    }
  }

  lemma {:induction false} WithoutWithin<T>(s: seq<T>, i: nat)
    requires i < |s|
    ensures Within(Without(s, i), s)
  {
    if i == 0 {
      assert Without(s, 0) == s[1..];
      WithinSelf(s[1..]);
      if s[1..] != [] { }
    } else {
      WithoutWithin(s[1..], i - 1);
      assert Without(s, i)[1..] == Without(s[1..], i - 1);
    }
  }

  /** A proper sub-sequence misses some position altogether. */
  lemma {:induction false} ProperMisses<T>(a: seq<T>, b: seq<T>) returns (i: nat)
    requires Within(a, b) && a != b
    ensures i < |b| && Within(a, Without(b, i))
    decreases |b|
  {
    if a != [] && a[0] == b[0] && Within(a[1..], b[1..]) {
      assert a == [a[0]] + a[1..] && b == [b[0]] + b[1..];
      var j := ProperMisses(a[1..], b[1..]);
      i := j + 1;
      assert Without(b, i)[1..] == Without(b[1..], j);
    } else {
      i := 0;
      assert Without(b, 0) == b[1..];
    }
  }

  lemma {:induction false} WithinMember<T>(a: seq<T>, b: seq<T>, x: T)
    requires Within(a, b) && x in a
    ensures x in b
    decreases |b|
  {
    if a[0] == b[0] && Within(a[1..], b[1..]) {
      if x != a[0] { WithinMember(a[1..], b[1..], x); }
    } else {
      WithinMember(a, b[1..], x);
    }
  }

  // ----- reduction -----

  /** `c` keeps some faults and some targets of `d` and is otherwise the same. */
  ghost predicate Smaller(c: ChaosCampaign, d: ChaosCampaign) {
    && Within(c.faults, d.faults) && Within(c.targets, d.targets)
    && c == d.(faults := c.faults, targets := c.targets)
  }

  lemma SmallerTrans(c: ChaosCampaign, d: ChaosCampaign, e: ChaosCampaign)
    requires Smaller(c, d) && Smaller(d, e)
    ensures Smaller(c, e)
  {
    WithinTrans(c.faults, d.faults, e.faults);
    WithinTrans(c.targets, d.targets, e.targets);
  }

  lemma SmallerSelf(c: ChaosCampaign)
    ensures Smaller(c, c)
  {
    WithinSelf(c.faults);
    WithinSelf(c.targets);
  }

  /** Adding faults or targets never makes a failure go away. */
  ghost predicate Monotone(p: ChaosCampaign -> bool) {
    forall c, d :: Smaller(c, d) && p(c) ==> p(d)
  }

  function DropFault(c: ChaosCampaign, i: nat): ChaosCampaign
    requires i < |c.faults|
  {
    c.(faults := Without(c.faults, i))
  }

  function DropTarget(c: ChaosCampaign, i: nat): ChaosCampaign
    requires i < |c.targets|
  {
    c.(targets := Without(c.targets, i))
  }

  lemma DropSmaller(c: ChaosCampaign, i: nat)
    ensures i < |c.faults| ==> Smaller(DropFault(c, i), c)
    ensures i < |c.targets| ==> Smaller(DropTarget(c, i), c)
  {
    WithinSelf(c.faults);
    WithinSelf(c.targets);
    if i < |c.faults| { WithoutWithin(c.faults, i); }
    if i < |c.targets| { WithoutWithin(c.targets, i); }
  }

  predicate Referenced(fs: seq<FaultSpec>, id: Id) {
    exists f :: f in fs && id in f.targets
  }

  /** A target the reducer may try to erase. */
  predicate Erasable(c: ChaosCampaign, i: nat)
    requires i < |c.targets|
  {
    !Referenced(c.faults, c.targets[i].id) && c.targets[i].kind != COORDINATOR
  }

  /** Erasing one of the first `n` faults loses the failure. */
  ghost predicate FaultsNeeded(p: ChaosCampaign -> bool, c: ChaosCampaign, n: nat) {
    forall j :: 0 <= j < n && j < |c.faults| ==> !p(DropFault(c, j))
  }

  ghost predicate TargetsNeeded(p: ChaosCampaign -> bool, c: ChaosCampaign, n: nat) {
    forall j :: 0 <= j < n && j < |c.targets| && Erasable(c, j) ==> !p(DropTarget(c, j))
  }

  /** A fault that was needed stays needed when a later fault goes. */
  lemma StillNeeded(p: ChaosCampaign -> bool, c: ChaosCampaign, i: nat)
    requires Monotone(p) && i < |c.faults| && FaultsNeeded(p, c, i)
    ensures FaultsNeeded(p, DropFault(c, i), i)
  {
    var d := DropFault(c, i);
    forall j | 0 <= j < i && j < |d.faults| ensures !p(DropFault(d, j)) {
      DropSmaller(DropFault(c, j), i - 1);
      assert DropFault(d, j) == DropFault(DropFault(c, j), i - 1);
      assert Smaller(DropFault(d, j), DropFault(c, j));
    }
  }

  lemma TargetStillNeeded(p: ChaosCampaign -> bool, c: ChaosCampaign, i: nat)
    requires Monotone(p) && i < |c.targets| && TargetsNeeded(p, c, i)
    ensures TargetsNeeded(p, DropTarget(c, i), i)
  {
    var d := DropTarget(c, i);
    forall j | 0 <= j < i && j < |d.targets| && Erasable(d, j) ensures !p(DropTarget(d, j)) {
      assert d.targets[j] == c.targets[j];
      DropSmaller(DropTarget(c, j), i - 1);
      assert DropTarget(d, j) == DropTarget(DropTarget(c, j), i - 1);
      assert Smaller(DropTarget(d, j), DropTarget(c, j));
    }
  }

  // ----- what the greedy pass keeps -----

  /** The entries whose flag is set. */
  ghost function Kept<T>(s: seq<T>, keep: seq<bool>): seq<T>
    requires |keep| == |s|
  {
    if s == [] then [] else Kept(s[..|s| - 1], keep[..|s| - 1]) + if keep[|s| - 1] then [s[|s| - 1]] else []
  }

  /** Entry `i` is tried with the entries kept before it and all the entries after it. */
  ghost function TriedWithout<T>(s: seq<T>, keep: seq<bool>, i: nat): seq<T>
    requires i < |s| == |keep|
  {
    Kept(s[..i], keep[..i]) + s[i + 1..]
  }

  /** A fault stays exactly when without it the failure is lost, faults being tried from the first to the last. */
  ghost predicate GreedyFaults(p: ChaosCampaign -> bool, c: ChaosCampaign, keep: seq<bool>) {
    |keep| == |c.faults|
    && forall i :: 0 <= i < |keep| ==> (keep[i] <==> !p(c.(faults := TriedWithout(c.faults, keep, i))))
  }

  /** A target stays exactly when it is a coordinator, a fault refers to it, or without it the failure is lost. */
  ghost predicate GreedyTargets(p: ChaosCampaign -> bool, c: ChaosCampaign, keep: seq<bool>) {
    |keep| == |c.targets|
    && forall i :: 0 <= i < |keep| ==>
         (keep[i] <==> || c.targets[i].kind == COORDINATOR
                       || (exists f :: f in c.faults && c.targets[i].id in f.targets)
                       || !p(c.(targets := TriedWithout(c.targets, keep, i))))
  }

  lemma KeptSnoc<T>(s: seq<T>, keep: seq<bool>, j: nat, b: bool)
    requires |keep| == j < |s|
    ensures Kept(s[..j + 1], keep + [b]) == Kept(s[..j], keep) + if b then [s[j]] else []
  {
    assert s[..j + 1][..j] == s[..j] && (keep + [b])[..j] == keep;
  }

  lemma KeptDropped<T>(s: seq<T>, keep: seq<bool>)
    requires |keep| < |s|
    ensures var more := keep + [false];
            |more| == |keep| + 1 && Kept(s[..|more|], more) + s[|more|..] == Kept(s[..|keep|], keep) + s[|keep| + 1..]
    ensures |Kept(s[..|keep| + 1], keep + [false])| == |Kept(s[..|keep|], keep)|
  {
    KeptSnoc(s, keep, |keep|, false);
  }

  /** What is tried for an entry does not depend on the flags after it. */
  lemma TriedEarlier<T>(s: seq<T>, keep: seq<bool>, more: seq<bool>, i: nat)
    requires |more| == |s| && keep <= more && i < |keep|
    ensures TriedWithout(s, more, i) == Kept(s[..i], keep[..i]) + s[i + 1..]
  {
    assert more[..i] == keep[..i];
  }

  /** The flags of the greedy pass, and so its result, are settled by the campaign and the predicate. */
  lemma {:induction false} GreedySettled(p: ChaosCampaign -> bool, c: ChaosCampaign, a: seq<bool>, b: seq<bool>, i: nat)
    requires GreedyFaults(p, c, a) && GreedyFaults(p, c, b) && i <= |a|
    ensures a[..i] == b[..i]
  {
    if i > 0 {
      GreedySettled(p, c, a, b, i - 1);
      assert TriedWithout(c.faults, a, i - 1) == TriedWithout(c.faults, b, i - 1);
    }
  }

  /** The flags set so far agree with the greedy rule. */
  ghost predicate FaultsSoFar(p: ChaosCampaign -> bool, c: ChaosCampaign, keep: seq<bool>) {
    |keep| <= |c.faults|
    && forall i :: 0 <= i < |keep| ==> (keep[i] <==> !p(c.(faults := Kept(c.faults[..i], keep[..i]) + c.faults[i + 1..])))
  }

  ghost predicate TargetsSoFar(p: ChaosCampaign -> bool, c: ChaosCampaign, keep: seq<bool>) {
    |keep| <= |c.targets|
    && forall i :: 0 <= i < |keep| ==>
         (keep[i] <==> !Erasable(c, i) || !p(c.(targets := Kept(c.targets[..i], keep[..i]) + c.targets[i + 1..])))
  }

  lemma OneMoreFault(p: ChaosCampaign -> bool, c: ChaosCampaign, keep: seq<bool>, b: bool)
    requires FaultsSoFar(p, c, keep) && |keep| < |c.faults|
    requires b <==> !p(c.(faults := Kept(c.faults[..|keep|], keep) + c.faults[|keep| + 1..]))
    ensures FaultsSoFar(p, c, keep + [b])
  {
    hide Kept;
    var more := keep + [b];
    forall i | 0 <= i < |more|
      ensures more[i] <==> !p(c.(faults := Kept(c.faults[..i], more[..i]) + c.faults[i + 1..]))
    {
      assert more[..i] == keep[..i];
      assert keep[..|keep|] == keep;
    }
  }

  lemma OneMoreTarget(p: ChaosCampaign -> bool, c: ChaosCampaign, keep: seq<bool>, b: bool)
    requires TargetsSoFar(p, c, keep) && |keep| < |c.targets|
    requires b <==> !Erasable(c, |keep|) || !p(c.(targets := Kept(c.targets[..|keep|], keep) + c.targets[|keep| + 1..]))
    ensures TargetsSoFar(p, c, keep + [b])
  {
    hide Kept, Erasable;
    var more := keep + [b];
    forall i | 0 <= i < |more|
      ensures more[i] <==> !Erasable(c, i) || !p(c.(targets := Kept(c.targets[..i], more[..i]) + c.targets[i + 1..]))
    {
      assert more[..i] == keep[..i];
      assert keep[..|keep|] == keep;
    }
  }

  lemma AllFaults(p: ChaosCampaign -> bool, c: ChaosCampaign, keep: seq<bool>)
    requires FaultsSoFar(p, c, keep) && |keep| == |c.faults|
    ensures GreedyFaults(p, c, keep)
  {
    forall i | 0 <= i < |keep| ensures keep[i] <==> !p(c.(faults := TriedWithout(c.faults, keep, i))) {
      TriedEarlier(c.faults, keep, keep, i);
    }
  }

  lemma AllTargets(p: ChaosCampaign -> bool, c: ChaosCampaign, keep: seq<bool>)
    requires TargetsSoFar(p, c, keep) && |keep| == |c.targets|
    ensures GreedyTargets(p, c, keep)
  {
    forall i | 0 <= i < |keep|
      ensures keep[i] <==> || c.targets[i].kind == COORDINATOR
                           || (exists f :: f in c.faults && c.targets[i].id in f.targets)
                           || !p(c.(targets := TriedWithout(c.targets, keep, i)))
    {
      TriedEarlier(c.targets, keep, keep, i);
    }
  }

  /** Where the entry being tried stands in the reduced list. */
  lemma AtTried<T>(s: seq<T>, keep: seq<bool>, r: seq<T>, i: nat)
    requires |keep| < |s| && r == Kept(s[..|keep|], keep) + s[|keep|..] && i == |Kept(s[..|keep|], keep)|
    ensures i < |r| && r[i] == s[|keep|] && Without(r, i) == Kept(s[..|keep|], keep) + s[|keep| + 1..]
    ensures r == Kept(s[..|keep|], keep) + [s[|keep|]] + s[|keep| + 1..]
  {
  }

  /** Halfway through the faults: the flags so far, the list they leave, and what holds of it. */
  ghost predicate FaultsHalfway(p: ChaosCampaign -> bool, c: ChaosCampaign, r: ChaosCampaign, keep: seq<bool>, i: nat) {
    && FaultsSoFar(p, c, keep)
    && r == c.(faults := Kept(c.faults[..|keep|], keep) + c.faults[|keep|..])
    && i == |Kept(c.faults[..|keep|], keep)|
    && (r == c || p(r)) && Smaller(r, c)
    && (Monotone(p) ==> FaultsNeeded(p, r, i))
  }

  lemma FaultsStart(p: ChaosCampaign -> bool, c: ChaosCampaign)
    ensures FaultsHalfway(p, c, c, [], 0)
  {
    StartKept(c.faults);
    SmallerSelf(c);
  }

  /** The entry being tried. */
  lemma FaultTried(p: ChaosCampaign -> bool, c: ChaosCampaign, r: ChaosCampaign, keep: seq<bool>, i: nat)
    requires FaultsHalfway(p, c, r, keep, i) && i < |r.faults|
    ensures |keep| < |c.faults|
    ensures DropFault(r, i) == c.(faults := Kept(c.faults[..|keep|], keep) + c.faults[|keep| + 1..])
    ensures r == c.(faults := Kept(c.faults[..|keep|], keep) + [c.faults[|keep|]] + c.faults[|keep| + 1..])
  {
    hide Smaller, Monotone, FaultsNeeded, Kept;
    assert |keep| < |c.faults|;
    AtTried(c.faults, keep, r.faults, i);
  }

  lemma FaultDropped(p: ChaosCampaign -> bool, c: ChaosCampaign, r: ChaosCampaign, keep: seq<bool>, i: nat)
    requires FaultsHalfway(p, c, r, keep, i) && i < |r.faults| && p(DropFault(r, i))
    ensures FaultsHalfway(p, c, DropFault(r, i), keep + [false], i)
  {
    hide Smaller, Monotone, FaultsNeeded, Kept, FaultsSoFar;
    FaultTried(p, c, r, keep, i);
    DropSmaller(r, i);
    SmallerTrans(DropFault(r, i), r, c);
    if Monotone(p) { StillNeeded(p, r, i); }
    OneMoreFault(p, c, keep, false);
    KeptDropped(c.faults, keep);
  }

  lemma FaultStays(p: ChaosCampaign -> bool, c: ChaosCampaign, r: ChaosCampaign, keep: seq<bool>, i: nat)
    requires FaultsHalfway(p, c, r, keep, i) && i < |r.faults| && !p(DropFault(r, i))
    ensures FaultsHalfway(p, c, r, keep + [true], i + 1)
  {
    hide Smaller, Monotone, FaultsNeeded, Kept, FaultsSoFar;
    FaultTried(p, c, r, keep, i);
    NeededOneMore(p, r, i);
    OneMoreFault(p, c, keep, true);
    KeptSnoc(c.faults, keep, |keep|, true);
  }

  lemma FaultsDone(p: ChaosCampaign -> bool, c: ChaosCampaign, r: ChaosCampaign, keep: seq<bool>, i: nat)
    requires FaultsHalfway(p, c, r, keep, i) && i >= |r.faults|
    ensures GreedyFaults(p, c, keep) && r == c.(faults := Kept(c.faults, keep))
    ensures (r == c || p(r)) && Smaller(r, c) && r.targets == c.targets
    ensures Monotone(p) ==> FaultsNeeded(p, r, |r.faults|)
  {
    hide Smaller, Monotone, FaultsNeeded, Kept;
    assert |keep| == |c.faults| && c.faults[..|c.faults|] == c.faults;
    AllFaults(p, c, keep);
  }

  method ReduceFaults(original: ChaosCampaign, stillFails: ChaosCampaign -> bool)
    returns (reduced: ChaosCampaign, ghost keep: seq<bool>)
    ensures GreedyFaults(stillFails, original, keep)
    ensures reduced == original.(faults := Kept(original.faults, keep))
    ensures reduced == original || stillFails(reduced)
    ensures Smaller(reduced, original) && reduced.targets == original.targets
    ensures Monotone(stillFails) ==> FaultsNeeded(stillFails, reduced, |reduced.faults|)
  {
    hide FaultsHalfway, GreedyFaults, Kept, Smaller, Monotone, FaultsNeeded;
    reduced, keep := original, [];
    FaultsStart(stillFails, original);
    var i := 0;
    while i < |reduced.faults|
      invariant FaultsHalfway(stillFails, original, reduced, keep, i)
      decreases |reduced.faults| - i
    {
      var trial := DropFault(reduced, i);
      if stillFails(trial) {
        FaultDropped(stillFails, original, reduced, keep, i);
        reduced, keep := trial, keep + [false];
      } else {
        FaultStays(stillFails, original, reduced, keep, i);
        keep := keep + [true];
        i := i + 1;
      }
    }
    FaultsDone(stillFails, original, reduced, keep, i);
  }

  lemma StartKept<T>(s: seq<T>)
    ensures s[..0] == [] && s[0..] == s && Kept(s[..0], []) == [] && [] + s == s
  {
  }

  lemma NeededOneMore(p: ChaosCampaign -> bool, c: ChaosCampaign, i: nat)
    requires i < |c.faults| && !p(DropFault(c, i))
    ensures FaultsNeeded(p, c, i) ==> FaultsNeeded(p, c, i + 1)
  {
  }

  ghost predicate TargetsHalfway(p: ChaosCampaign -> bool, c: ChaosCampaign, r: ChaosCampaign, keep: seq<bool>, i: nat) {
    && TargetsSoFar(p, c, keep)
    && r == c.(targets := Kept(c.targets[..|keep|], keep) + c.targets[|keep|..])
    && i == |Kept(c.targets[..|keep|], keep)|
    && (r == c || p(r)) && Smaller(r, c)
    && (forall t :: t in c.targets && (t.kind == COORDINATOR || Referenced(c.faults, t.id)) ==> t in r.targets)
    && (Monotone(p) ==> TargetsNeeded(p, r, i))
  }

  lemma TargetsStart(p: ChaosCampaign -> bool, c: ChaosCampaign)
    ensures TargetsHalfway(p, c, c, [], 0)
  {
    StartKept(c.targets);
    SmallerSelf(c);
  }

  lemma TargetTried(p: ChaosCampaign -> bool, c: ChaosCampaign, r: ChaosCampaign, keep: seq<bool>, i: nat)
    requires TargetsHalfway(p, c, r, keep, i) && i < |r.targets|
    ensures |keep| < |c.targets| && Erasable(r, i) == Erasable(c, |keep|)
    ensures DropTarget(r, i) == c.(targets := Kept(c.targets[..|keep|], keep) + c.targets[|keep| + 1..])
    ensures r == c.(targets := Kept(c.targets[..|keep|], keep) + [c.targets[|keep|]] + c.targets[|keep| + 1..])
  {
    hide Smaller, Monotone, TargetsNeeded, Kept, Referenced;
    assert |keep| < |c.targets|;
    AtTried(c.targets, keep, r.targets, i);
  }

  lemma TargetDropped(p: ChaosCampaign -> bool, c: ChaosCampaign, r: ChaosCampaign, keep: seq<bool>, i: nat)
    requires TargetsHalfway(p, c, r, keep, i) && i < |r.targets| && Erasable(r, i) && p(DropTarget(r, i))
    ensures TargetsHalfway(p, c, DropTarget(r, i), keep + [false], i)
  {
    hide Smaller, Monotone, TargetsNeeded, Kept, TargetsSoFar, Referenced, Without, Erasable;
    TargetTried(p, c, r, keep, i);
    DropSmaller(r, i);
    SmallerTrans(DropTarget(r, i), r, c);
    if Monotone(p) { TargetStillNeeded(p, r, i); }
    OwnersStay(c, r, i);
    OneMoreTarget(p, c, keep, false);
    KeptDropped(c.targets, keep);
  }

  /** Erasing an erasable target takes no coordinator and no target a fault refers to. */
  lemma OwnersStay(c: ChaosCampaign, r: ChaosCampaign, i: nat)
    requires r.faults == c.faults && i < |r.targets| && Erasable(r, i)
    requires forall t :: t in c.targets && (t.kind == COORDINATOR || Referenced(c.faults, t.id)) ==> t in r.targets
    ensures forall t :: t in c.targets && (t.kind == COORDINATOR || Referenced(c.faults, t.id)) ==> t in DropTarget(r, i).targets
  {
    hide Referenced, Without;
    OthersStay(r.targets, i);
  }

  lemma TargetStays(p: ChaosCampaign -> bool, c: ChaosCampaign, r: ChaosCampaign, keep: seq<bool>, i: nat)
    requires TargetsHalfway(p, c, r, keep, i) && i < |r.targets| && (!Erasable(r, i) || !p(DropTarget(r, i)))
    ensures TargetsHalfway(p, c, r, keep + [true], i + 1)
  {
    hide Smaller, Monotone, TargetsNeeded, Kept, TargetsSoFar, Referenced, Erasable, Without;
    TargetTried(p, c, r, keep, i);
    TargetOneMore(p, r, i);
    OneMoreTarget(p, c, keep, true);
    KeptSnoc(c.targets, keep, |keep|, true);
  }

  lemma TargetsDone(p: ChaosCampaign -> bool, c: ChaosCampaign, r: ChaosCampaign, keep: seq<bool>, i: nat)
    requires TargetsHalfway(p, c, r, keep, i) && i >= |r.targets|
    ensures GreedyTargets(p, c, keep) && r == c.(targets := Kept(c.targets, keep))
    ensures (r == c || p(r)) && Smaller(r, c) && r.faults == c.faults
    ensures forall t :: t in c.targets && (t.kind == COORDINATOR || Referenced(c.faults, t.id)) ==> t in r.targets
    ensures Monotone(p) ==> TargetsNeeded(p, r, |r.targets|)
  {
    hide Smaller, Monotone, TargetsNeeded, Kept, Referenced;
    assert |keep| == |c.targets| && c.targets[..|c.targets|] == c.targets;
    AllTargets(p, c, keep);
  }

  method ReduceTargets(original: ChaosCampaign, stillFails: ChaosCampaign -> bool)
    returns (reduced: ChaosCampaign, ghost keep: seq<bool>)
    ensures GreedyTargets(stillFails, original, keep)
    ensures reduced == original.(targets := Kept(original.targets, keep))
    ensures reduced == original || stillFails(reduced)
    ensures Smaller(reduced, original) && reduced.faults == original.faults
    ensures forall t :: t in original.targets && (t.kind == COORDINATOR || Referenced(original.faults, t.id))
                        ==> t in reduced.targets
    ensures Monotone(stillFails) ==> TargetsNeeded(stillFails, reduced, |reduced.targets|)
  {
    hide TargetsHalfway, GreedyTargets, Kept, Smaller, Monotone, TargetsNeeded, Referenced;
    reduced, keep := original, [];
    TargetsStart(stillFails, original);
    var i := 0;
    while i < |reduced.targets|
      invariant TargetsHalfway(stillFails, original, reduced, keep, i)
      decreases |reduced.targets| - i
    {
      var erased := false;
      if Erasable(reduced, i) {
        var trial := DropTarget(reduced, i);
        if stillFails(trial) {
          TargetDropped(stillFails, original, reduced, keep, i);
          reduced, keep := trial, keep + [false];
          erased := true;
        }
      }
      if !erased {
        TargetStays(stillFails, original, reduced, keep, i);
        keep := keep + [true];
        i := i + 1;
      }
    }
    TargetsDone(stillFails, original, reduced, keep, i);
  }

  lemma TargetOneMore(p: ChaosCampaign -> bool, c: ChaosCampaign, i: nat)
    requires i < |c.targets| && (!Erasable(c, i) || !p(DropTarget(c, i)))
    ensures TargetsNeeded(p, c, i) ==> TargetsNeeded(p, c, i + 1)
  {
  }

  lemma OthersStay<T>(s: seq<T>, i: nat)
    requires i < |s|
    ensures forall x :: x in s && x != s[i] ==> x in Without(s, i)
  {
    forall x | x in s && x != s[i] ensures x in Without(s, i) {
      var k :| 0 <= k < |s| && s[k] == x;
      assert k != i;
      assert x == Without(s, i)[if k < i then k else k - 1];
    }
  }

  /** With every single fault needed, no proper part of the faults fails, not even with fewer targets. */
  lemma NoProperPartFails(p: ChaosCampaign -> bool, full: ChaosCampaign, c: ChaosCampaign, fs: seq<FaultSpec>)
    requires Monotone(p) && FaultsNeeded(p, full, |full.faults|)
    requires Smaller(c, full) && c.faults == full.faults
    requires Within(fs, c.faults) && fs != c.faults
    ensures !p(c.(faults := fs))
  {
    var i := ProperMisses(fs, c.faults);
    assert Smaller(c.(faults := fs), DropFault(full, i));
  }

  // ----- reduction keeps a campaign valid -----

  lemma FewerFaultsOwned(ts: seq<TargetSpec>, fs: seq<FaultSpec>, gs: seq<FaultSpec>)
    requires AllOwned(ts, gs) && Within(fs, gs)
    ensures AllOwned(ts, fs)
  {
    forall i | 0 <= i < |fs| ensures FaultOwned(ts, fs[i]) {
      WithinMember(fs, gs, fs[i]);
    }
  }

  lemma {:induction false} WithinIndices<T>(a: seq<T>, b: seq<T>, i: nat, j: nat) returns (k: nat, l: nat)
    requires Within(a, b) && i < j < |a|
    ensures k < l < |b| && b[k] == a[i] && b[l] == a[j]
    decreases |b|
  {
    if a[0] == b[0] && Within(a[1..], b[1..]) {
      if i > 0 {
        k, l := WithinIndices(a[1..], b[1..], i - 1, j - 1);
        k, l := k + 1, l + 1;
      } else {
        WithinMember(a[1..], b[1..], a[1..][j - 1]);
        var m :| 0 <= m < |b[1..]| && b[1..][m] == a[1..][j - 1];
        k, l := 0, m + 1;
      }
    } else {
      k, l := WithinIndices(a, b[1..], i, j);
      k, l := k + 1, l + 1;
    }
  }

  lemma FewerTargetsDistinct(ts: seq<TargetSpec>, us: seq<TargetSpec>)
    requires Within(ts, us) && DistinctTargets(us) && Executables(us)
    ensures DistinctTargets(ts) && Executables(ts)
  {
    forall i, j | 0 <= i < j < |ts| ensures ts[i].id != ts[j].id {
      var k, l := WithinIndices(ts, us, i, j);
    }
    forall i | 0 <= i < |ts| && ts[i].kind == PROCESS ensures ts[i].executable != "" {
      WithinMember(ts, us, ts[i]);
    }
  }

  /** Keeping every target a remaining fault refers to keeps the campaign valid. */
  lemma SmallerStaysValid(c: ChaosCampaign, d: ChaosCampaign)
    requires CampaignValid(d) && Smaller(c, d)
    requires forall t :: t in d.targets && Referenced(c.faults, t.id) ==> t in c.targets
    ensures CampaignValid(c)
  {
    FewerTargetsDistinct(c.targets, d.targets);
    FewerFaultsOwned(d.targets, c.faults, d.faults);
    forall i, k | 0 <= i < |c.faults| && 0 <= k < |c.faults[i].targets|
      ensures Owns(c.targets, c.faults[i].targets[k])
    {
      var f := c.faults[i];
      var id := f.targets[k];
      assert FaultOwned(d.targets, f) && Owns(d.targets, id);
      var n :| 0 <= n < |d.targets| && d.targets[n].id == id;
      assert f in c.faults && id in f.targets;
      assert Referenced(c.faults, d.targets[n].id);
      assert d.targets[n] in c.targets;
    }
  }

  /** `reduce_campaign`: faults first, then targets no remaining fault refers to. */
  method ReduceCampaign(original: ChaosCampaign, stillFails: ChaosCampaign -> bool)
    returns (reduced: ChaosCampaign, ghost keepFaults: seq<bool>, ghost keepTargets: seq<bool>)
    ensures GreedyFaults(stillFails, original, keepFaults)
    ensures var fewer := original.(faults := Kept(original.faults, keepFaults));
            && GreedyTargets(stillFails, fewer, keepTargets)
            && reduced == fewer.(targets := Kept(original.targets, keepTargets))
    ensures reduced == original || stillFails(reduced)
    ensures Smaller(reduced, original)
    ensures forall t :: t in original.targets && (t.kind == COORDINATOR || Referenced(reduced.faults, t.id))
                        ==> t in reduced.targets
    ensures CampaignValid(original) ==> CampaignValid(reduced)
    ensures Monotone(stillFails) ==>
      forall fs :: Within(fs, reduced.faults) && fs != reduced.faults ==> !stillFails(reduced.(faults := fs))
    ensures Monotone(stillFails) ==> TargetsNeeded(stillFails, reduced, |reduced.targets|)
  {
    hide GreedyFaults, GreedyTargets, Kept;
    var fewer;
    fewer, keepFaults := ReduceFaults(original, stillFails);
    reduced, keepTargets := ReduceTargets(fewer, stillFails);
    SmallerTrans(reduced, fewer, original);
    if CampaignValid(original) { SmallerStaysValid(reduced, original); }
    if Monotone(stillFails) {
      forall fs | Within(fs, reduced.faults) && fs != reduced.faults ensures !stillFails(reduced.(faults := fs)) {
        NoProperPartFails(stillFails, fewer, reduced, fs);
      }
    }
  }

  // ----- generation -----

  const POOL: seq<FaultCategory> := [
    WORKER_DEATH, COORDINATOR_DEATH, STALE_EPOCH, STALE_BOOT, STALE_ATTEMPT, STALE_GENERATION,
    DUPLICATE_MESSAGE, CONFLICTING_DUPLICATE, PERSISTENCE_TRUNCATION, PERSISTENCE_CORRUPTION,
    RESOURCE_EXHAUSTION, CONNECTION_DROP, FRAME_CORRUPTION, RECOVERY_FAILURE, COORDINATOR_DEATH,
    SOCKET_CLOSE, FRAME_TRUNCATION, BAD_CHECKSUM, PARTIAL_FILE_WRITE, DEVICE_MEMORY_PRESSURE
  ]

  function ScopeFor(c: FaultCategory): FaultScope {
    match c
    case STALE_EPOCH | STALE_BOOT | STALE_ATTEMPT | STALE_GENERATION => SCOPE_AUTHORITY
    case DUPLICATE_MESSAGE | CONFLICTING_DUPLICATE | CONNECTION_DROP | FRAME_CORRUPTION => SCOPE_CONNECTION
    case PERSISTENCE_TRUNCATION | PERSISTENCE_CORRUPTION => SCOPE_PERSISTENCE
    case RESOURCE_EXHAUSTION => SCOPE_RESERVATION
    case _ => SCOPE_PROCESS
  }

  /** A C `int`. */
  type Int32 = x: int | -0x8000_0000 <= x < 0x8000_0000

  /** Conversion of a C `int` to a 64-bit word, and of a 64-bit word to a C `int`. */
  function ToWord(x: Int32): nat { if x < 0 then U64 + x else x }

  function ToInt(w: nat): Int32 {
    var low := w % 0x1_0000_0000;
    if low < 0x8000_0000 then low else low - 0x1_0000_0000
  }

  const HIGH_BIT: nat := 0x8000_0000_0000_0000

  function TargetId(n: nat): Id
    requires n < HIGH_BIT
  {
    HIGH_BIT + n
  }

  const COORDINATOR_ID: Id := HIGH_BIT + 0x8001

  function WorkerTarget(i: nat): TargetSpec
    requires i < 0x8000_0000
  {
    TargetSpec(TargetId(i + 1), WORKER, "worker_" + Decimal(i), "target_worker", true, 2)
  }

  const COORDINATOR_TARGET := TargetSpec(COORDINATOR_ID, COORDINATOR, "coordinator", "target_coordinator", true, 0)

  function FaultParams(c: FaultCategory): map<string, string> {
    if c == PERSISTENCE_TRUNCATION then map["offset" := "16"]
    else if c == RESOURCE_EXHAUSTION then map["percent" := "90"]
    else map[]
  }

  function FuzzedFault(i: nat, c: FaultCategory): FaultSpec
    requires i < 0x8000_0000
  {
    FaultSpec(i + 1, c, ScopeFor(c), AT_EVENT, TargetId(i % 3 + 1), [TargetId(i % 3 + 1)], FaultParams(c))
  }

  /** `static_cast<int>(1 + rng.below(max))`, as a function of the generator state. */
  function CountDrawn(state: nat, max: Int32): Int32 {
    ToInt((1 + if max == 0 then 0 else SplitMix.Draw(state, 0) % ToWord(max)) % U64)
  }

  function StateAfter(state: nat, max: Int32): nat {
    if max == 0 then state else SplitMix.State(state, 1)
  }

  function Targets(workers: int): (ts: seq<TargetSpec>)
    requires workers < 0x8000_0000
    ensures |ts| == 1 + if workers > 0 then workers else 0
  {
    var n := if workers > 0 then workers else 0;
    seq(n, i requires 0 <= i < n => WorkerTarget(i)) + [COORDINATOR_TARGET]
  }

  function Faults(state: nat, faults: int): (fs: seq<FaultSpec>)
    requires faults < 0x8000_0000
    ensures |fs| == if faults > 0 then faults else 0
  {
    var n := if faults > 0 then faults else 0;
    seq(n, i requires 0 <= i < n => FuzzedFault(i, Picked(state, i)))
  }

  /** `pick_category`, on the `i`-th draw. */
  function Picked(state: nat, i: nat): FaultCategory { POOL[SplitMix.Draw(state, i) % 20] }

  lemma FaultsSnoc(state: nat, i: nat)
    requires i + 1 < 0x8000_0000
    ensures Faults(state, i + 1) == Faults(state, i) + [FuzzedFault(i, Picked(state, i))]
  {
    hide FuzzedFault, Picked;
  }

  lemma NoFaults(state: nat, faults: int)
    requires faults <= 0
    ensures Faults(state, faults) == []
  {
  }

  function FuzzedEnvelope(workers: int): ResourceEnvelope {
    ResourceEnvelope(workers + 2, 64, 8, ["target_worker", "target_coordinator"], "")
  }

  /** The minimum of the fault count and three: how many worker ids the faults refer to. */
  function TargetsUsed(faults: int): int { if faults > 3 then 3 else faults }

  /** When a generated campaign passes validation. */
  predicate Sound(seed: nat, workers: int, faults: int) {
    seed != 0 && -1 <= workers <= 0x8000 && (faults <= 0 || TargetsUsed(faults) <= workers)
  }

  lemma TargetsDistinct(workers: int)
    requires workers < 0x8000_0000
    ensures DistinctTargets(Targets(workers)) <==> workers <= 0x8000
    ensures Executables(Targets(workers))
  {
    var ts := Targets(workers);
    if workers > 0x8000 {
      assert ts[0x8000].id == ts[|ts| - 1].id;
    }
  }

  lemma TargetOwned(workers: int, n: nat)
    requires workers < 0x8000_0000 && 1 <= n <= 3
    ensures Owns(Targets(workers), TargetId(n)) <==> n <= workers
  {
    var ts := Targets(workers);
    if n <= workers { assert ts[n - 1].id == TargetId(n); }
  }

  lemma FaultsOwned(state: nat, workers: int, faults: int)
    requires workers < 0x8000_0000 && faults < 0x8000_0000
    ensures AllOwned(Targets(workers), Faults(state, faults)) <==> faults <= 0 || TargetsUsed(faults) <= workers
  {
    hide FaultOwned, Owns, Targets;
    var ts, fs := Targets(workers), Faults(state, faults);
    forall i | 0 <= i < |fs| ensures FaultOwned(ts, fs[i]) <==> i % 3 + 1 <= workers {
      FaultOwnedIs(ts, fs[i], i % 3 + 1);
      TargetOwned(workers, i % 3 + 1);
    }
    assert forall i :: 0 <= i < |fs| ==> i % 3 + 1 <= TargetsUsed(faults);
    if faults > 0 {
      var last := TargetsUsed(faults) - 1;
      assert last % 3 + 1 == TargetsUsed(faults);
      assert FaultOwned(ts, fs[last]) <==> TargetsUsed(faults) <= workers;
    }
  }

  lemma FaultOwnedIs(ts: seq<TargetSpec>, f: FaultSpec, n: nat)
    requires n < HIGH_BIT && f.targets == [TargetId(n)]
    ensures FaultOwned(ts, f) <==> Owns(ts, TargetId(n))
  {
    assert FaultOwned(ts, f) ==> Owns(ts, f.targets[0]);
  }

  /** The campaign generated from a generator in state `state`. */
  function Generated(seed: Id, state: nat, maxWorkers: Int32, maxFaults: Int32): ChaosCampaign {
    var workers := CountDrawn(state, maxWorkers);
    var afterWorkers := StateAfter(state, maxWorkers);
    var faults := CountDrawn(afterWorkers, maxFaults);
    var ts := Targets(workers);
    ChaosCampaign(
      CampaignId(seed), seed, "fuzzed campaign seed=" + Decimal(seed),
      ts, [Precondition("registered", "all targets registered", COORDINATOR_ID, "registered")],
      Faults(StateAfter(afterWorkers, maxFaults), faults), ["exactly_one_authority"],
      KillAll(ts), FuzzedEnvelope(workers), 1)
  }

  lemma PickedRestart(state: nat, i: nat)
    ensures Picked(SplitMix.State(state, i), 0) == Picked(state, i)
  {
    hide SplitMix.Draw;
    SplitMix.DrawRestart(state, i, 0);
  }

  function CampaignId(seed: Id): Id {
    SplitMix.WordWidth();
    SplitMix.XorBound(seed, 0x5EED_5EED_5EED_5EED, 64);
    SplitMix.Xor(seed, 0x5EED_5EED_5EED_5EED)
  }

  function KillAll(ts: seq<TargetSpec>): seq<CleanupAction> {
    if ts == [] then []
    else
      var t := ts[|ts| - 1];
      KillAll(ts[..|ts| - 1]) + if t.ownsProcess then [CleanupAction(KILL_PROCESS, t.id)] else []
  }

  /** A generated campaign passes validation exactly when the seed is not zero, the workers leave
      the coordinator's id free, and every worker a fault refers to exists. */
  lemma GeneratedValid(seed: Id, state: nat, maxWorkers: Int32, maxFaults: Int32)
    ensures CampaignValid(Generated(seed, state, maxWorkers, maxFaults)) <==>
            Sound(seed, CountDrawn(state, maxWorkers), CountDrawn(StateAfter(state, maxWorkers), maxFaults))
  {
    hide CountDrawn, Targets, Faults;
    var workers := CountDrawn(state, maxWorkers);
    var afterWorkers := StateAfter(state, maxWorkers);
    var faults := CountDrawn(afterWorkers, maxFaults);
    TargetsDistinct(workers);
    FaultsOwned(StateAfter(afterWorkers, maxFaults), workers, faults);
  }

  /** For a positive bound the count drawn lies between one and the bound. */
  lemma CountRange(state: nat, max: Int32)
    requires max >= 1
    ensures 1 <= CountDrawn(state, max) <= max
  {
    hide SplitMix.Draw;
  }

  /** With at most one fault and no more workers than ids before the coordinator's, every non-zero
      seed generates a valid campaign. */
  lemma OneFaultAlwaysValid(seed: Id, state: nat, maxWorkers: Int32)
    requires seed != 0 && 1 <= maxWorkers <= 0x8000
    ensures CampaignValid(Generated(seed, state, maxWorkers, 1))
  {
    hide CountDrawn, Generated;
    CountRange(state, maxWorkers);
    CountRange(StateAfter(state, maxWorkers), 1);
    GeneratedValid(seed, state, maxWorkers, 1);
  }

  class CampaignFuzzer {
    const seed: Id
    const rng: SplitMix.Stream

    constructor (seed: Id)
      ensures this.seed == seed && fresh(rng) && rng.state == seed
    {
      this.seed := seed;
      rng := new SplitMix.Stream(seed);
    }

    method Generate(maxWorkers: Int32, maxFaults: Int32) returns (c: ChaosCampaign)
      requires rng.state < U64
      modifies rng
      ensures rng.state < U64
      ensures c == Generated(seed, old(rng.state), maxWorkers, maxFaults)
      ensures CampaignValid(c) <==>
              Sound(seed, CountDrawn(old(rng.state), maxWorkers),
                    CountDrawn(StateAfter(old(rng.state), maxWorkers), maxFaults))
    {
      hide CountDrawn, StateAfter, Targets, Faults, KillAll, FuzzedEnvelope, CampaignId, Sound, CampaignValid;
      GeneratedValid(seed, rng.state, maxWorkers, maxFaults);
      var workers := DrawCount(maxWorkers);
      var targets := WorkersThenCoordinator(workers);
      var faults := DrawCount(maxFaults);
      var schedule := AddFaults(targets, faults);
      var cleanup := CleanupFor(targets);
      c := ChaosCampaign(
        CampaignId(seed), seed, "fuzzed campaign seed=" + Decimal(seed),
        targets, [Precondition("registered", "all targets registered", COORDINATOR_ID, "registered")],
        schedule, ["exactly_one_authority"], cleanup, FuzzedEnvelope(workers), 1);
    }

    method DrawCount(max: Int32) returns (n: Int32)
      requires rng.state < U64
      modifies rng
      ensures rng.state < U64 && rng.state == StateAfter(old(rng.state), max)
      ensures n == CountDrawn(old(rng.state), max)
    {
      hide SplitMix.Draw, SplitMix.State;
      var w := rng.Below(ToWord(max));
      n := ToInt((1 + w) % U64);
    }

    method WorkersThenCoordinator(workers: Int32) returns (targets: seq<TargetSpec>)
      ensures targets == Targets(workers)
    {
      targets := [];
      var i := 0;
      while i < workers
        invariant 0 <= i && (workers > 0 ==> i <= workers) && (workers <= 0 ==> i == 0)
        invariant |targets| == i && forall j :: 0 <= j < i ==> targets[j] == WorkerTarget(j)
      {
        targets := targets + [WorkerTarget(i)];
        i := i + 1;
      }
      targets := targets + [COORDINATOR_TARGET];
    }

    /** One draw from the pool for every fault; the target cycles through the first three workers. */
    method AddFaults(targets: seq<TargetSpec>, faults: Int32) returns (schedule: seq<FaultSpec>)
      requires rng.state < U64 && targets != []
      modifies rng
      ensures rng.state < U64
      ensures schedule == Faults(old(rng.state), faults)
    {
      hide *;
      schedule := [];
      ghost var start := rng.state;
      NoFaults(start, 0);
      var i := 0;
      SplitMix.NoStep(start);
      while i < faults
        invariant 0 <= i && (faults > 0 ==> i <= faults) && (faults <= 0 ==> i == 0)
        invariant rng.state < U64 && rng.state == SplitMix.State(start, i)
        invariant schedule == Faults(start, i)
      {
        SplitMix.StateRestart(start, i, 1);
        SplitMix.DrawRestart(start, i, 0);
        var category := PickCategory();
        PickedRestart(start, i);
        FaultsSnoc(start, i);
        schedule := schedule + [FuzzedFault(i, category)];
        i := i + 1;
      }
      if faults <= 0 { NoFaults(start, faults); }
    }

    method PickCategory() returns (c: FaultCategory)
      requires rng.state < U64
      modifies rng
      ensures rng.state < U64 && rng.state == SplitMix.State(old(rng.state), 1)
      ensures c == Picked(old(rng.state), 0)
    {
      hide SplitMix.Draw, SplitMix.State;
      var pick := rng.Below(20);
      c := POOL[pick];
    }

    method CleanupFor(targets: seq<TargetSpec>) returns (cleanup: seq<CleanupAction>)
      ensures cleanup == KillAll(targets)
    {
      cleanup := [];
      for i := 0 to |targets|
        invariant cleanup == KillAll(targets[..i])
      {
        assert targets[..i + 1][..i] == targets[..i];
        if targets[i].ownsProcess { cleanup := cleanup + [CleanupAction(KILL_PROCESS, targets[i].id)]; }
      }
      assert targets[..|targets|] == targets;
    }
  }
}
