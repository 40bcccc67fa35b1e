/** The replay checks of src/replay.cpp. */
module Replay {
  import opened Words
  import opened Bytes
  import opened Text
  import opened Escape
  import opened Evidence
  import opened Recorder
  import opened EvidenceRoundTrip
  import Campaign
  import Digest
  import Fips180
  import Scheduler

  datatype Report = Report(
    samePlan: bool, sameInjections: bool, sameAssertions: bool, sameTerminal: bool, sameDigest: bool,
    differences: seq<string>)

  const CLEAN := Report(true, true, true, true, true, [])

  predicate AllSame(r: Report) {
    r.samePlan && r.sameInjections && r.sameAssertions && r.sameTerminal && r.sameDigest
  }

  // ----- comparing two runs -----

  predicate SameRecord(a: Record, b: Record)
    requires InRange(a) && InRange(b)
  {
    a.id == b.id && a.kind == b.kind && a.phase == b.phase && ToText(a) == ToText(b)
  }

  predicate SameRecords(a: seq<Record>, b: seq<Record>)
    requires AllInRange(a) && AllInRange(b)
  {
    |a| == |b| && forall i :: 0 <= i < |a| ==> SameRecord(a[i], b[i])
  }

  function CountKind(rs: seq<Record>, k: Kind): nat {
    if rs == [] then 0
    else CountKind(rs[..|rs| - 1], k) + if rs[|rs| - 1].kind == k then 1 else 0
  }

  /** `field_or` */
  function FieldOr(fs: Fields, key: string, fallback: string): string {
    if fs == [] then fallback
    else if fs[0].0 == key then fs[0].1
    else FieldOr(fs[1..], key, fallback)
  }

  /** The phase field of the last final result. */
  function Terminal(rs: seq<Record>): string {
    if rs == [] then ""
    else
      var last := rs[|rs| - 1];
      if last.kind == FINAL_RESULT then FieldOr(last.fields, "phase", "") else Terminal(rs[..|rs| - 1])
  }

  /** What `record_raw` needs so that the next sequence number stays in range. */
  predicate Recordable(rs: seq<Record>) {
    AllInRange(rs) && forall i :: 0 <= i < |rs| ==> rs[i].seqNo < SEQ_LIMIT
  }

  method CountKindScan(rs: seq<Record>, k: Kind) returns (c: nat)
    ensures c == CountKind(rs, k)
  {
    c := 0;
    for i := 0 to |rs|
      invariant c == CountKind(rs[..i], k)
    {
      assert rs[..i + 1][..i] == rs[..i];
      if rs[i].kind == k { c := c + 1; }
    }
    assert rs[..|rs|] == rs;
  }

  method TerminalScan(rs: seq<Record>) returns (t: string)
    ensures t == Terminal(rs)
  {
    t := "";
    for i := 0 to |rs|
      invariant t == Terminal(rs[..i])
    {
      hide FieldOr;
      assert rs[..i + 1][..i] == rs[..i];
      if rs[i].kind == FINAL_RESULT { t := FieldOr(rs[i].fields, "phase", ""); }
    }
    assert rs[..|rs|] == rs;
  }

  method DigestOf(rs: seq<Record>) returns (d: seq<Byte>)
    requires Recordable(rs)
    ensures d == StreamDigest(rs) && |d| == 32
  {
    hide StreamDigest, InRange;
    var rec := new EvidenceRecorder();
    for i := 0 to |rs|
      invariant fresh(rec) && rec.Valid() && rec.records == rs[..i]
    {
      rec.RecordRaw(rs[i]);
    }
    assert rs[..|rs|] == rs;
    d := rec.Digest();
    DigestSize(rs);
  }

  lemma DigestSize(rs: seq<Record>)
    requires AllInRange(rs)
    ensures |StreamDigest(rs)| == 32
  {
    hide StreamText, OfString, InRange;
  }

  function Note(same: bool, text: string): seq<string> { if same then [] else [text] }

  /** One note for each of the first `n` pairs of records that are not the same, in order. */
  function RecordNotes(a: seq<Record>, b: seq<Record>, n: nat): seq<string>
    requires AllInRange(a) && AllInRange(b) && n <= |a| && n <= |b|
  {
    if n == 0 then []
    else RecordNotes(a, b, n - 1) + Note(SameRecord(a[n - 1], b[n - 1]), "record " + Decimal(n - 1) + " differs")
  }

  function Common(a: seq<Record>, b: seq<Record>): nat { if |a| < |b| then |a| else |b| }

  /** What a comparison lists: the counts first, then the records, then the totals, the phase and the digest. */
  function Differences(a: seq<Record>, b: seq<Record>): seq<string>
    requires AllInRange(a) && AllInRange(b)
  {
    PlanNotes(a, b)
    + Note(CountKind(a, INJECTION) == CountKind(b, INJECTION), "injection counts differ")
    + Note(CountKind(a, ASSERTION) == CountKind(b, ASSERTION), "assertion counts differ")
    + Note(Terminal(a) == Terminal(b), "terminal phase differs: " + Terminal(a) + " vs " + Terminal(b))
    + Note(StreamDigest(a) == StreamDigest(b), "state digest differs")
  }

  function PlanNotes(a: seq<Record>, b: seq<Record>): seq<string>
    requires AllInRange(a) && AllInRange(b)
  {
    Note(|a| == |b|, "evidence record count differs: " + Decimal(|a|) + " vs " + Decimal(|b|))
    + RecordNotes(a, b, Common(a, b))
  }

  /** A note stands for every differing pair, and for nothing else. */
  lemma {:induction false} NotedExactly(a: seq<Record>, b: seq<Record>, n: nat)
    requires AllInRange(a) && AllInRange(b) && n <= |a| && n <= |b|
    ensures RecordNotes(a, b, n) == [] <==> forall j :: 0 <= j < n ==> SameRecord(a[j], b[j])
  {
    hide SameRecord, InRange, Decimal;
    if n > 0 { NotedExactly(a, b, n - 1); }
  }

  method SamePair(a: Record, b: Record) returns (same: bool)
    requires InRange(a) && InRange(b)
    ensures same == SameRecord(a, b)
  {
    hide ToText, InRange;
    var left := ToTextScan(a);
    var right := ToTextScan(b);
    same := !(a.id != b.id || a.kind != b.kind || a.phase != b.phase || left != right);
  }

  /** Goes over the records both runs have. */
  method CompareRecords(a: seq<Record>, b: seq<Record>) returns (same: bool, notes: seq<string>)
    requires AllInRange(a) && AllInRange(b)
    ensures same == SameRecords(a, b) && notes == PlanNotes(a, b) && (same <==> notes == [])
  {
    hide SameRecord, InRange, Decimal;
    same, notes := true, [];
    if |a| != |b| {
      same := false;
      notes := notes + ["evidence record count differs: " + Decimal(|a|) + " vs " + Decimal(|b|)];
    }
    ghost var first := notes;
    var n := if |a| < |b| then |a| else |b|;
    for i := 0 to n
      invariant same <==> |a| == |b| && forall j :: 0 <= j < i ==> SameRecord(a[j], b[j])
      invariant notes == first + RecordNotes(a, b, i)
    {
      var pair := SamePair(a[i], b[i]);
      if !pair {
        same := false;
        notes := notes + ["record " + Decimal(i) + " differs"];
      }
    }
    NotedExactly(a, b, n);
  }

  method AddNote(notes: seq<string>, same: bool, text: string) returns (more: seq<string>)
    ensures more == notes + Note(same, text)
    ensures more == [] <==> notes == [] && same
  {
    more := notes;
    if !same { more := more + [text]; }
  }

  method CompareRuns(a: seq<Record>, b: seq<Record>) returns (r: Report)
    requires Recordable(a) && Recordable(b)
    ensures r.samePlan == SameRecords(a, b)
    ensures r.sameInjections == (CountKind(a, INJECTION) == CountKind(b, INJECTION))
    ensures r.sameAssertions == (CountKind(a, ASSERTION) == CountKind(b, ASSERTION))
    ensures r.sameTerminal == (Terminal(a) == Terminal(b))
    ensures r.sameDigest == (StreamDigest(a) == StreamDigest(b))
    ensures r.differences == Differences(a, b)
    ensures AllSame(r) <==> r.differences == []
  {
    hide SameRecords, CountKind, Terminal, StreamDigest, InRange, PlanNotes, Note;
    var samePlan, notes := CompareRecords(a, b);
    var injectionsA := CountKindScan(a, INJECTION);
    var injectionsB := CountKindScan(b, INJECTION);
    var sameInjections := injectionsA == injectionsB;
    notes := AddNote(notes, sameInjections, "injection counts differ");
    var assertionsA := CountKindScan(a, ASSERTION);
    var assertionsB := CountKindScan(b, ASSERTION);
    var sameAssertions := assertionsA == assertionsB;
    notes := AddNote(notes, sameAssertions, "assertion counts differ");
    var termA := TerminalScan(a);
    var termB := TerminalScan(b);
    var sameTerminal := termA == termB;
    notes := AddNote(notes, sameTerminal, "terminal phase differs: " + termA + " vs " + termB);
    var digestA := DigestOf(a);
    var digestB := DigestOf(b);
    var sameDigest := Digest.SameWords(digestA, digestB);
    Digest.SameWordsIsEquality(digestA, digestB);
    notes := AddNote(notes, sameDigest, "state digest differs");
    r := Report(samePlan, sameInjections, sameAssertions, sameTerminal, sameDigest, notes);
  }

  // ----- what the totals are -----

  function OfKind(rs: seq<Record>, k: Kind): set<nat> { set i: nat | i < |rs| && rs[i].kind == k }

  /** The count of a kind is the number of places that hold it. */
  lemma {:induction false} CountsPlaces(rs: seq<Record>, k: Kind)
    ensures CountKind(rs, k) == |OfKind(rs, k)|
  {
    if rs != [] {
      var n := |rs| - 1;
      hide OfKind;
      CountsPlaces(rs[..n], k);
      OnePlaceMore(rs, k);
    } else {
      assert OfKind(rs, k) == {};
    }
  }

  lemma OnePlaceMore(rs: seq<Record>, k: Kind)
    requires rs != []
    ensures var n := |rs| - 1;
            var front := OfKind(rs[..n], k);
            n !in front && OfKind(rs, k) == if rs[n].kind == k then front + {n} else front
  {
    var n := |rs| - 1;
    forall i: nat ensures i in OfKind(rs, k) <==> i in OfKind(rs[..n], k) || (i == n && rs[n].kind == k) {
      if i < n { assert rs[..n][i] == rs[i]; }
    }
  }

  /** The terminal phase is that of the last final result: its phase field, or nothing without one;
      a run without final results has none. */
  lemma {:induction false} TerminalIs(rs: seq<Record>, i: nat)
    requires AllInRange(rs)
    requires i < |rs| && rs[i].kind == FINAL_RESULT && forall j :: i < j < |rs| ==> rs[j].kind != FINAL_RESULT
    ensures forall k :: 0 <= k < |rs[i].fields| && rs[i].fields[k].0 == "phase" ==> Terminal(rs) == rs[i].fields[k].1
    ensures (forall k :: 0 <= k < |rs[i].fields| ==> rs[i].fields[k].0 != "phase") ==> Terminal(rs) == ""
  {
    hide FieldOr;
    if i == |rs| - 1 {
      assert InRange(rs[i]);
      FieldOrIs(rs[i].fields, "phase");
    } else {
      TerminalIs(rs[..|rs| - 1], i);
    }
  }

  lemma {:induction false} NoTerminal(rs: seq<Record>)
    requires forall j :: 0 <= j < |rs| ==> rs[j].kind != FINAL_RESULT
    ensures Terminal(rs) == ""
  {
    if rs != [] { NoTerminal(rs[..|rs| - 1]); }
  }

  lemma {:induction false} FieldOrIs(fs: Fields, key: string)
    requires Sorted(fs)
    ensures forall k :: 0 <= k < |fs| && fs[k].0 == key ==> FieldOr(fs, key, "") == fs[k].1
    ensures (forall k :: 0 <= k < |fs| ==> fs[k].0 != key) ==> FieldOr(fs, key, "") == ""
  {
    if fs != [] {
      FieldOrIs(fs[1..], key);
      LessIrreflexive(key);
      assert forall k :: 1 <= k < |fs| ==> Less(fs[0].0, fs[k].0) && fs[k] == fs[1..][k - 1];
    }
  }

  // ----- what agreement means -----

  /** Record-by-record agreement settles the injection and assertion counts and the digest. */
  lemma {:induction false} SamePlanSettles(a: seq<Record>, b: seq<Record>, k: Kind)
    requires AllInRange(a) && AllInRange(b) && SameRecords(a, b)
    ensures CountKind(a, k) == CountKind(b, k) && StreamText(a) == StreamText(b)
    ensures StreamDigest(a) == StreamDigest(b)
  {
    hide ToText, InRange, Fips180.Sha256, OfString;
    if a != [] {
      var n := |a| - 1;
      SamePlanSettles(a[..n], b[..n], k);
      assert SameRecord(a[n], b[n]);
    }
  }

  lemma {:induction false} SameTextSameTerminal(a: seq<Record>, b: seq<Record>)
    requires |a| == |b| && forall i :: 0 <= i < |a| ==> a[i].kind == b[i].kind && a[i].fields == b[i].fields
    ensures Terminal(a) == Terminal(b)
  {
    if a != [] { SameTextSameTerminal(a[..|a| - 1], b[..|b| - 1]); }
  }

  /** On surviving records the text and the id determine everything but the timestamp. */
  lemma TextDetermines(a: Record, b: Record)
    requires InRange(a) && InRange(b) && Survives(a) && Survives(b)
    ensures SameRecord(a, b) <==> Untimed(a) == Untimed(b)
  {
    hide ToText, Survives, Legible, ReadBack, ParseLine;
    if SameRecord(a, b) {
      SurvivesIsLegible(a);
      SurvivesIsLegible(b);
      LineReads(a);
      LineReads(b);
    }
    if Untimed(a) == Untimed(b) {
      assert a == b.(timestamp := a.timestamp);
      TextUntimed(a, b);
    }
  }

  lemma TextUntimed(a: Record, b: Record)
    requires InRange(a) && InRange(b) && Untimed(a) == Untimed(b)
    ensures ToText(a) == ToText(b)
  {
  }

  predicate Agree(a: seq<Record>, b: seq<Record>)
    requires AllInRange(a) && AllInRange(b)
  {
    && SameRecords(a, b)
    && CountKind(a, INJECTION) == CountKind(b, INJECTION) && CountKind(a, ASSERTION) == CountKind(b, ASSERTION)
    && Terminal(a) == Terminal(b) && StreamDigest(a) == StreamDigest(b)
  }

  /** Two runs of surviving records compare equal exactly when they are equal up to timestamps. */
  lemma AgreeExactly(a: seq<Record>, b: seq<Record>)
    requires AllInRange(a) && AllInRange(b)
    requires forall i :: 0 <= i < |a| ==> Survives(a[i])
    requires forall i :: 0 <= i < |b| ==> Survives(b[i])
    ensures Agree(a, b) <==> UntimedAll(a) == UntimedAll(b)
  {
    hide InRange, Survives, StreamDigest, CountKind, Terminal, SameRecord;
    if |a| == |b| {
      forall i | 0 <= i < |a| ensures SameRecord(a[i], b[i]) <==> UntimedAll(a)[i] == UntimedAll(b)[i] {
        TextDetermines(a[i], b[i]);
      }
      if SameRecords(a, b) {
        SamePlanSettles(a, b, INJECTION);
        SamePlanSettles(a, b, ASSERTION);
        forall i | 0 <= i < |a| ensures a[i].kind == b[i].kind && a[i].fields == b[i].fields {
          assert UntimedAll(a)[i] == UntimedAll(b)[i];
        }
        SameTextSameTerminal(a, b);
      }
    }
  }

  lemma {:induction false} EscConcat(a: string, b: string)
    ensures Esc(a + b) == Esc(a) + Esc(b)
  {
    hide Esc, EscChar;
    if a == "" {
      assert a + b == b;
      EscEmpty();
    } else {
      EscCons(a[0], a[1..]);
      EscCons(a[0], a[1..] + b);
      EscConcat(a[1..], b);
      assert a == [a[0]] + a[1..] && a + b == [a[0]] + (a[1..] + b);
    }
  }

  lemma EscEmpty()
    ensures Esc("") == ""
  {
  }

  /** Commas and equal signs are not escaped, so one field holding them prints like two fields. */
  lemma FieldsBlur(k: string, u: string, z: string, w: string)
    ensures FieldsText([(k, u + "," + z + "=" + w)]) == FieldsText([(k, u), (z, w)])
  {
    hide Esc;
    EscConcat(u + "," + z + "=", w);
    EscConcat(u + "," + z, "=");
    EscConcat(u + ",", z);
    EscConcat(u, ",");
    EscOne(',');
    EscOne('=');
    var one, two := [(k, u + "," + z + "=" + w)], [(k, u), (z, w)];
    assert Items(one) == [Item(one[0])];
    assert Items(two) == [Item(two[0]), Item(two[1])];
    assert Items(two)[1..] == [Item(two[1])];
    assert Join([Item(two[1])], ',') == Item(two[1]) && Join([Item(one[0])], ',') == Item(one[0]);
    assert Item(one[0]) == Item(two[0]) + "," + Item(two[1]);
  }

  lemma EscOne(c: char)
    requires c == ',' || c == '='
    ensures Esc([c]) == [c]
  {
    assert [c][1..] == "";
  }

  /** Outside the surviving records agreement on every record does not settle the terminal state:
      whenever a final result's phase field reads `u,z=w`, some other record has the same text and
      ends in phase `u`. */
  lemma TerminalNotSettled(r: Record, u: string, z: string, w: string)
    requires InRange(r) && r.kind == FINAL_RESULT && Less("phase", z) && r.fields == [("phase", u + "," + z + "=" + w)]
    ensures var s := r.(fields := [("phase", u), (z, w)]);
            InRange(s) && SameRecords([r], [s]) && Terminal([r]) != Terminal([s])
  {
    hide Esc, KindName, ToHex, Less, FieldsText, Join;
    var s := r.(fields := [("phase", u), (z, w)]);
    FieldsBlur("phase", u, z, w);
    assert Parts(r) == Parts(s);
    OneTerminal(r);
    OneTerminal(s);
    assert |FieldOr(r.fields, "phase", "")| > |u|;
  }

  lemma OneTerminal(r: Record)
    requires r.kind == FINAL_RESULT && r.fields != [] && r.fields[0].0 == "phase"
    ensures Terminal([r]) == r.fields[0].1 == FieldOr(r.fields, "phase", "")
  {
  }

  // ----- replaying evidence -----

  method ReplayEvidence(records: seq<Record>, expected: seq<Byte>) returns (r: Report)
    requires Recordable(records) && |expected| == 32
    ensures r.sameDigest == (StreamDigest(records) == expected)
    ensures AllSame(r) <==> r.sameDigest
    ensures r.sameDigest <==> r.differences == []
  {
    hide StreamDigest, InRange, Digest.Hex;
    r := CLEAN;
    var actual := DigestOf(records);
    Digest.SameWordsIsEquality(actual, expected);
    r := r.(sameDigest := Digest.SameWords(actual, expected));
    if !r.sameDigest {
      r := r.(differences := ["recomputed digest differs: " + Digest.Hex(actual) + " vs expected " + Digest.Hex(expected)]);
    }
  }

  lemma {:induction false} DigestTextKept(rs: seq<Record>)
    requires AllInRange(rs) && forall i :: 0 <= i < |rs| ==> Legible(rs[i])
    ensures AllInRange(ReadBackAll(rs)) && StreamText(ReadBackAll(rs)) == StreamText(rs)
  {
    hide InRange, Legible, ReadBack, ToText;
    var back := ReadBackAll(rs);
    forall i | 0 <= i < |rs| ensures InRange(back[i]) && ToText(back[i]) == ToText(rs[i]) {
      TextKept(rs[i]);
    }
    if rs != [] {
      var n := |rs| - 1;
      DigestTextKept(rs[..n]);
      assert ReadBackAll(rs[..n]) == back[..n];
    }
  }

  /** Written evidence whose values and payloads hold any backslashes is parsed, and its recomputed
      digest is the original one. */
  lemma ReplayAccepts(rs: seq<Record>)
    requires AllInRange(rs) && forall i :: 0 <= i < |rs| ==> Legible(rs[i])
    ensures var back := ParseText(Serialize(rs));
            back.Some? && AllInRange(back.value) && StreamDigest(back.value) == StreamDigest(rs)
  {
    hide InRange, Legible, ReadBack, ParseText, Serialize, Fips180.Sha256, OfString;
    StreamReads(rs);
    DigestTextKept(rs);
  }

  /** A whole replay of stored evidence: printed, parsed again, checked against the digest. */
  method StoreAndReplay(rec: EvidenceRecorder) returns (r: Report)
    requires rec.Valid() && Recordable(rec.records)
    requires forall i :: 0 <= i < |rec.records| ==> Legible(rec.records[i])
    ensures AllSame(r)
  {
    hide InRange, Legible, ParseText, Serialize, StreamDigest;
    var expected := rec.Digest();
    var text := rec.SerializeText();
    var back := ParseTextScan(text);
    ReplayAccepts(rec.records);
    StreamReads(rec.records);
    SeqKept(rec.records);
    DigestSize(rec.records);
    r := ReplayEvidence(back.value, expected);
  }

  lemma SeqKept(rs: seq<Record>)
    ensures forall i :: 0 <= i < |rs| ==> ReadBackAll(rs)[i].seqNo == rs[i].seqNo
  {
  }

  // ----- replaying a plan -----

  function Events(names: seq<string>): (h: seq<Scheduler.Observation>)
    ensures |h| == |names|
  {
    seq(|names|, i requires 0 <= i < |names| => Scheduler.Event(names[i]))
  }

  function HexIds(ids: seq<nat>): (s: seq<string>)
    ensures |s| == |ids|
  {
    seq(|ids|, i requires 0 <= i < |ids| => ToHex(ids[i]))
  }

  function PlanIds(s: seq<Scheduler.Injection>): (ids: seq<nat>)
    ensures |ids| == |s|
  {
    seq(|s|, i requires 0 <= i < |s| => s[i].id)
  }

  /** The ids a plan injects: all of them without events, else those the events set off. */
  function Replayed(seed: nat, faults: seq<Campaign.FaultSpec>, events: seq<string>): seq<nat> {
    var plan := Scheduler.Plan(seed, faults);
    if events == [] then PlanIds(plan) else Scheduler.Run(plan, Events(events)).1
  }

  method PushIds(front: seq<string>, ids: seq<nat>) returns (out: seq<string>)
    ensures out == front + HexIds(ids)
  {
    out := front;
    for i := 0 to |ids|
      invariant out == front + HexIds(ids[..i])
    {
      var text := ToHexScan(ids[i]);
      assert HexIds(ids[..i + 1]) == HexIds(ids[..i]) + [text];
      out := out + [text];
    }
    assert ids[..|ids|] == ids;
  }

  /** The injections of a plan are replayed in the same order exactly when the report says so. */
  method ReplayPlan(seed: nat, faults: seq<Campaign.FaultSpec>, events: seq<string>, expected: seq<string>)
    returns (r: Report)
    requires seed < U64
    ensures r.sameInjections <==> expected == HexIds(Replayed(seed, faults, events))
    ensures AllSame(r) <==> r.sameInjections
    ensures r.sameInjections <==> r.differences == []
  {
    hide Scheduler.Plan, Scheduler.Run, ToHex, Decimal;
    var sched := new Scheduler.FaultScheduler(seed);
    sched.PlanCampaign(faults);
    var fired: seq<string> := [];
    if events == [] {
      fired := PushIds(fired, PlanIds(sched.schedule));
    } else {
      fired := StepThrough(sched, events);
    }
    r := CompareIds(fired, expected);
  }

  method CompareIds(fired: seq<string>, expected: seq<string>) returns (r: Report)
    ensures r.sameInjections <==> expected == fired
    ensures AllSame(r) <==> r.sameInjections
    ensures r.sameInjections <==> r.differences == []
  {
    hide Decimal;
    r := CLEAN;
    if |fired| != |expected| {
      r := r.(sameInjections := false,
              differences := ["injection count differs: " + Decimal(|fired|) + " vs " + Decimal(|expected|)]);
    } else {
      for i := 0 to |fired|
        invariant r == CLEAN.(sameInjections := r.sameInjections, differences := r.differences)
        invariant r.sameInjections <==> forall j :: 0 <= j < i ==> fired[j] == expected[j]
        invariant r.sameInjections <==> r.differences == []
      {
        if fired[i] != expected[i] {
          r := r.(sameInjections := false, differences := r.differences + ["injection " + Decimal(i) + " differs"]);
        }
      }
    }
  }

  method StepThrough(sched: Scheduler.FaultScheduler, events: seq<string>) returns (fired: seq<string>)
    requires sched.Valid() && sched.history == [] && sched.returned == []
    modifies sched
    ensures fired == HexIds(Scheduler.Run(old(sched.planned), Events(events)).1)
  {
    hide Scheduler.Run, ToHex;
    fired := [];
    for i := 0 to |events|
      invariant sched.Valid() && sched.planned == old(sched.planned)
      invariant sched.history == Events(events[..i])
      invariant fired == HexIds(sched.returned)
    {
      ghost var before := sched.returned;
      var ids := sched.ObserveEvent(events[i]);
      assert Events(events[..i + 1]) == Events(events[..i]) + [Scheduler.Event(events[i])];
      fired := PushIds(fired, ids);
      assert HexIds(before + ids) == HexIds(before) + HexIds(ids);
    }
    assert events[..|events|] == events;
  }
}
