/** When equal evidence settles the terminal phase that a comparison reports (src/replay.cpp, lines 59-66). */
module TerminalState {
  import opened Text
  import opened Escape
  import opened Evidence
  import opened EvidenceRoundTrip
  import opened Replay

  /** A phase that is written as it is and can be read in one way only. */
  predicate PlainPhase(v: string) { Clean(v) && '\n' !in v && '\r' !in v }

  predicate LegibleRun(rs: seq<Record>) { forall i :: 0 <= i < |rs| ==> Legible(rs[i]) }

  // ----- values that look the same when written -----

  lemma {:induction false} RawWritten(v: string)
    requires Raw(v)
    ensures Esc(v) == v
  {
    if v != "" {
      RawWritten(v[1..]);
      assert v == [v[0]] + v[1..];
    }
  }

  lemma {:induction false} WrittenClean(v: string)
    requires '|' !in v
    ensures Clean(Esc(v)) <==> PlainPhase(v)
  {
    if PlainPhase(v) { RawWritten(v); }
    if v != "" && Clean(Esc(v)) {
      hide Clean;
      var c, rest := v[0], v[1..];
      assert v == [c] + rest;
      EscCons(c, rest);
      CleanFront(c, Esc(rest));
      WrittenClean(rest);
      RawWritten(rest);
    }
    CleanEmpty();
  }

  lemma CleanEmpty()
    ensures Clean("")
  {
  }

  lemma CleanFront(c: char, w: string)
    requires c != '|' && Clean(EscChar(c) + w)
    ensures c != '\n' && c != '\r' && EscChar(c) == [c] && Clean(w)
  {
    var s := EscChar(c) + w;
    if c == '\n' || c == '\r' {
      assert Ambiguous(s[0], s[1]);
    } else {
      CleanCons(c, w);
    }
  }

  lemma SameWritten(u: string, v: string)
    requires '|' !in u && '|' !in v && Esc(u) == Esc(v) && PlainPhase(u)
    ensures u == v
  {
    hide Clean;
    WrittenClean(u);
    WrittenClean(v);
    RawWritten(u);
    RawWritten(v);
  }

  /** Any other value has a different one that is written the same. */
  lemma OtherValue(v: string) returns (w: string)
    requires Separable(v) && !PlainPhase(v)
    ensures w != v && Separable(w) && Esc(w) == Esc(v)
  {
    hide Esc, Unesc;
    var x := Esc(v);
    EscMembers(v, '|');
    EscMembers(v, ',');
    EscMembers(v, '\n');
    EscMembers(v, '\r');
    if Clean(v) {
      w := x;
      RawWritten(x);
    } else {
      w := Unesc(x);
      EscUndone(v);
      EscKept(v);
      UnescLacks(x, '|');
      UnescLacks(x, ',');
    }
  }

  // ----- one record -----

  /** Same keys, and values that are written the same. */
  predicate WrittenAlike(fs: Fields, gs: Fields) {
    |fs| == |gs| && forall i :: 0 <= i < |fs| ==> fs[i].0 == gs[i].0 && Esc(fs[i].1) == Esc(gs[i].1)
  }

  lemma SameTextAlike(r: Record, s: Record)
    requires InRange(r) && InRange(s) && Legible(r) && Legible(s) && SameRecord(r, s)
    ensures WrittenAlike(r.fields, s.fields)
  {
    hide ToText, ParseLine, Esc, Unesc, KeyOk;
    LineReads(r);
    LineReads(s);
    assert Line(r) == Line(s);
    assert ReadFields(r.fields) == ReadFields(s.fields);
    forall i | 0 <= i < |r.fields| ensures r.fields[i].0 == s.fields[i].0 && Esc(r.fields[i].1) == Esc(s.fields[i].1) {
      assert ReadFields(r.fields)[i] == ReadFields(s.fields)[i];
      EscKept(r.fields[i].1);
      EscKept(s.fields[i].1);
    }
  }

  lemma {:induction false} FieldOrAlike(fs: Fields, gs: Fields, key: string)
    requires FieldsLegible(fs) && FieldsLegible(gs) && WrittenAlike(fs, gs)
    ensures Separable(FieldOr(fs, key, "")) && Separable(FieldOr(gs, key, ""))
    ensures Esc(FieldOr(fs, key, "")) == Esc(FieldOr(gs, key, ""))
  {
    hide Esc, KeyOk;
    if fs != [] { FieldOrAlike(fs[1..], gs[1..], key); }
  }

  lemma {:induction false} FieldAt(fs: Fields, key: string, w: string) returns (i: nat)
    requires FieldOr(fs, key, "") != ""
    ensures i < |fs| && fs[i].0 == key && fs[i].1 == FieldOr(fs, key, "")
    ensures FieldOr(fs[i := (key, w)], key, "") == w
  {
    i := 0;
    if fs[0].0 != key {
      i := FieldAt(fs[1..], key, w);
      assert fs[i + 1 := (key, w)][1..] == fs[1..][i := (key, w)];
      i := i + 1;
    }
  }

  /** Replacing a value by one that is written the same changes nothing in the text. */
  lemma SameTextReplaced(r: Record, i: nat, w: string)
    requires InRange(r) && Legible(r) && i < |r.fields| && Separable(w) && Esc(w) == Esc(r.fields[i].1)
    ensures var s := r.(fields := r.fields[i := (r.fields[i].0, w)]);
            InRange(s) && Legible(s) && SameRecord(r, s)
  {
    hide Esc, KindName, ToHex, Less, KeyOk, Join;
    var s := r.(fields := r.fields[i := (r.fields[i].0, w)]);
    assert Items(s.fields) == Items(r.fields);
    assert Parts(s) == Parts(r);
  }

  lemma AnotherPhase(r: Record) returns (s: Record)
    requires InRange(r) && Legible(r) && r.kind == FINAL_RESULT && !PlainPhase(FieldOr(r.fields, "phase", ""))
    ensures InRange(s) && Legible(s) && SameRecord(r, s)
    ensures FieldOr(s.fields, "phase", "") != FieldOr(r.fields, "phase", "")
  {
    hide Esc, Less, KeyOk, ToText, FieldOr;
    var v := FieldOr(r.fields, "phase", "");
    FieldOrAlike(r.fields, r.fields, "phase");
    CleanEmpty();
    var w := OtherValue(v);
    var i := FieldAt(r.fields, "phase", w);
    SameTextReplaced(r, i, w);
    s := r.(fields := r.fields[i := (r.fields[i].0, w)]);
  }

  // ----- whole runs -----

  lemma {:induction false} PlainSettles(a: seq<Record>, b: seq<Record>)
    requires AllInRange(a) && AllInRange(b) && LegibleRun(a) && LegibleRun(b) && SameRecords(a, b)
    requires PlainPhase(Terminal(a))
    ensures Terminal(b) == Terminal(a)
  {
    hide ToText, InRange, Legible, FieldOr, PlainPhase;
    if a != [] {
      var n := |a| - 1;
      assert SameRecord(a[n], b[n]);
      if a[n].kind == FINAL_RESULT {
        LastSettled(a[n], b[n]);
      } else {
        PlainSettles(a[..n], b[..n]);
      }
    }
  }

  lemma LastSettled(r: Record, s: Record)
    requires InRange(r) && InRange(s) && Legible(r) && Legible(s) && SameRecord(r, s)
    requires PlainPhase(FieldOr(r.fields, "phase", ""))
    ensures FieldOr(s.fields, "phase", "") == FieldOr(r.fields, "phase", "")
  {
    hide Esc, FieldOr, ToText, KeyOk, Clean;
    SameTextAlike(r, s);
    FieldOrAlike(r.fields, s.fields, "phase");
    SameWritten(FieldOr(r.fields, "phase", ""), FieldOr(s.fields, "phase", ""));
  }

  lemma {:induction false} OtherRun(a: seq<Record>) returns (b: seq<Record>)
    requires AllInRange(a) && LegibleRun(a) && !PlainPhase(Terminal(a))
    ensures AllInRange(b) && LegibleRun(b) && SameRecords(a, b) && Terminal(b) != Terminal(a)
  {
    hide ToText, InRange, Legible, FieldOr;
    var n := |a| - 1;
    if a == [] {
      CleanEmpty();
      b := [];
    } else if a[n].kind == FINAL_RESULT {
      hide PlainPhase;
      var s := AnotherPhase(a[n]);
      b := a[..n] + [s];
      assert b[..n] == a[..n];
    } else {
      hide PlainPhase;
      var front := OtherRun(a[..n]);
      b := front + [a[n]];
      assert b[..n] == front;
    }
  }

  /** Among legible runs, agreement on every record settles the terminal phase exactly when that phase
      holds no newline, no carriage return and no backslash before n or r. */
  lemma SettledExactly(a: seq<Record>)
    requires AllInRange(a) && LegibleRun(a)
    ensures (forall b :: AllInRange(b) && LegibleRun(b) && SameRecords(a, b) ==> Terminal(b) == Terminal(a))
            <==> PlainPhase(Terminal(a))
  {
    hide InRange, Legible, SameRecords, Terminal, PlainPhase;
    if PlainPhase(Terminal(a)) {
      forall b | AllInRange(b) && LegibleRun(b) && SameRecords(a, b) ensures Terminal(b) == Terminal(a) {
        PlainSettles(a, b);
      }
    } else {
      var b := OtherRun(a);
    }
  }
}
