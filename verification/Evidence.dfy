/** Evidence records and their text form: src/evidence.cpp. */
module Evidence {
  import opened Words
  import opened Text
  import opened Escape

  datatype Kind =
    | CAMPAIGN_DEFINITION | PROCESS_LAUNCH | PROCESS_EXIT | STDOUT_STDERR | PROTOCOL_EVENT
    | INJECTION | ASSERTION | STATE_SNAPSHOT | AUTHORITY_ENVELOPE | PERSISTENCE_DIGEST
    | RECOVERY_EVENT | CLEANUP | FINAL_RESULT | MACHINE_INFO | TARGET_VERSION | SEED | MISC

  const KINDS: seq<Kind> := [
    CAMPAIGN_DEFINITION, PROCESS_LAUNCH, PROCESS_EXIT, STDOUT_STDERR, PROTOCOL_EVENT,
    INJECTION, ASSERTION, STATE_SNAPSHOT, AUTHORITY_ENVELOPE, PERSISTENCE_DIGEST,
    RECOVERY_EVENT, CLEANUP, FINAL_RESULT, MACHINE_INFO, TARGET_VERSION, SEED, MISC
  ]

  function KindName(k: Kind): string {
    match k
    case CAMPAIGN_DEFINITION => "campaign_definition"
    case PROCESS_LAUNCH => "process_launch"
    case PROCESS_EXIT => "process_exit"
    case STDOUT_STDERR => "stdout_stderr"
    case PROTOCOL_EVENT => "protocol_event"
    case INJECTION => "injection"
    case ASSERTION => "assertion"
    case STATE_SNAPSHOT => "state_snapshot"
    case AUTHORITY_ENVELOPE => "authority_envelope"
    case PERSISTENCE_DIGEST => "persistence_digest"
    case RECOVERY_EVENT => "recovery_event"
    case CLEANUP => "cleanup"
    case FINAL_RESULT => "final_result"
    case MACHINE_INFO => "machine_info"
    case TARGET_VERSION => "target_version"
    case SEED => "seed"
    case MISC => "misc"
  }

  /** The first kind of that name; an unknown name becomes `MISC`. */
  function KindNamed(name: string, i: nat := 0): Kind
    decreases |KINDS| - i
  {
    if i >= |KINDS| then MISC
    else if name == KindName(KINDS[i]) then KINDS[i]
    else KindNamed(name, i + 1)
  }

  function KindIndex(k: Kind): (i: nat)
    ensures i < |KINDS| && KINDS[i] == k
  {
    match k
    case CAMPAIGN_DEFINITION => 0
    case PROCESS_LAUNCH => 1
    case PROCESS_EXIT => 2
    case STDOUT_STDERR => 3
    case PROTOCOL_EVENT => 4
    case INJECTION => 5
    case ASSERTION => 6
    case STATE_SNAPSHOT => 7
    case AUTHORITY_ENVELOPE => 8
    case PERSISTENCE_DIGEST => 9
    case RECOVERY_EVENT => 10
    case CLEANUP => 11
    case FINAL_RESULT => 12
    case MACHINE_INFO => 13
    case TARGET_VERSION => 14
    case SEED => 15
    case MISC => 16
  }

  /** Length, first and fourth letter: enough to tell the names apart. */
  function Signature(k: Kind): (nat, char, char) {
    match k
    case CAMPAIGN_DEFINITION => (19, 'c', 'p')
    case PROCESS_LAUNCH => (14, 'p', 'c')
    case PROCESS_EXIT => (12, 'p', 'c')
    case STDOUT_STDERR => (13, 's', 'o')
    case PROTOCOL_EVENT => (14, 'p', 't')
    case INJECTION => (9, 'i', 'e')
    case ASSERTION => (9, 'a', 'e')
    case STATE_SNAPSHOT => (14, 's', 't')
    case AUTHORITY_ENVELOPE => (18, 'a', 'h')
    case PERSISTENCE_DIGEST => (18, 'p', 's')
    case RECOVERY_EVENT => (14, 'r', 'o')
    case CLEANUP => (7, 'c', 'a')
    case FINAL_RESULT => (12, 'f', 'a')
    case MACHINE_INFO => (12, 'm', 'h')
    case TARGET_VERSION => (14, 't', 'g')
    case SEED => (4, 's', 'd')
    case MISC => (4, 'm', 'c')
  }

  lemma NameSignature(k: Kind)
    ensures var s := KindName(k); |s| >= 4 && (|s|, s[0], s[3]) == Signature(k)
  {
  }

  predicate Plain(s: string) { forall i :: 0 <= i < |s| ==> '_' <= s[i] <= 'z' }

  lemma FirstNamesPlain(k: Kind)
    requires KindIndex(k) < 6
    ensures Plain(KindName(k))
  {
  }

  lemma MiddleNamesPlain(k: Kind)
    requires 6 <= KindIndex(k) < 12
    ensures Plain(KindName(k))
  {
  }

  lemma LastNamesPlain(k: Kind)
    requires KindIndex(k) >= 12
    ensures Plain(KindName(k))
  {
  }

  lemma NamesDiffer(j: Kind, k: Kind)
    requires KindName(j) == KindName(k)
    ensures j == k
  {
    hide KindName;
    NameSignature(j);
    NameSignature(k);
  }

  lemma {:induction false} KindNamedFrom(k: Kind, i: nat)
    requires i <= KindIndex(k)
    ensures KindNamed(KindName(k), i) == k
    decreases |KINDS| - i
  {
    hide KindName, KindIndex;
    if KindName(k) == KindName(KINDS[i]) {
      NamesDiffer(k, KINDS[i]);
    } else {
      assert i != KindIndex(k);
      KindNamedFrom(k, i + 1);
    }
  }

  lemma KindReads(k: Kind)
    ensures KindNamed(KindName(k)) == k
    ensures '|' !in KindName(k) && '\n' !in KindName(k)
  {
    hide KindName, KindNamed;
    KindNamedFrom(k, 0);
    if KindIndex(k) < 6 {
      FirstNamesPlain(k);
    } else if KindIndex(k) < 12 {
      MiddleNamesPlain(k);
    } else {
      LastNamesPlain(k);
    }
  }

  /** What each name stands for; any other stands for `MISC`. */
  lemma NamesStandFor(name: string)
    ensures KindNamed(name) == CAMPAIGN_DEFINITION <==> name == "campaign_definition"
    ensures KindNamed(name) == PROCESS_LAUNCH <==> name == "process_launch"
    ensures KindNamed(name) == PROCESS_EXIT <==> name == "process_exit"
    ensures KindNamed(name) == STDOUT_STDERR <==> name == "stdout_stderr"
    ensures KindNamed(name) == PROTOCOL_EVENT <==> name == "protocol_event"
    ensures KindNamed(name) == INJECTION <==> name == "injection"
    ensures KindNamed(name) == ASSERTION <==> name == "assertion"
    ensures KindNamed(name) == STATE_SNAPSHOT <==> name == "state_snapshot"
    ensures KindNamed(name) == AUTHORITY_ENVELOPE <==> name == "authority_envelope"
    ensures KindNamed(name) == PERSISTENCE_DIGEST <==> name == "persistence_digest"
    ensures KindNamed(name) == RECOVERY_EVENT <==> name == "recovery_event"
    ensures KindNamed(name) == CLEANUP <==> name == "cleanup"
    ensures KindNamed(name) == FINAL_RESULT <==> name == "final_result"
    ensures KindNamed(name) == MACHINE_INFO <==> name == "machine_info"
    ensures KindNamed(name) == TARGET_VERSION <==> name == "target_version"
    ensures KindNamed(name) == SEED <==> name == "seed"
  {
    hide KindNamed;
    var k := KindNamed(name);
    NamedOrMisc(name, 0);
    KindReads(CAMPAIGN_DEFINITION); KindReads(PROCESS_LAUNCH); KindReads(PROCESS_EXIT); KindReads(STDOUT_STDERR);
    KindReads(PROTOCOL_EVENT); KindReads(INJECTION); KindReads(ASSERTION); KindReads(STATE_SNAPSHOT);
    KindReads(AUTHORITY_ENVELOPE); KindReads(PERSISTENCE_DIGEST); KindReads(RECOVERY_EVENT); KindReads(CLEANUP);
    KindReads(FINAL_RESULT); KindReads(MACHINE_INFO); KindReads(TARGET_VERSION); KindReads(SEED);
  }

  lemma {:induction false} NamedOrMisc(name: string, i: nat)
    ensures KindNamed(name, i) != MISC ==> name == KindName(KindNamed(name, i))
    decreases |KINDS| - i
  {
    hide KindName;
    if i < |KINDS| && name != KindName(KINDS[i]) { NamedOrMisc(name, i + 1); }
  }

  // ----- ordered fields (std::map<string, string>) -----

  /** Byte-wise lexicographic order. */
  predicate Less(a: string, b: string) {
    b != "" && (a == "" || a[0] < b[0] || (a[0] == b[0] && Less(a[1..], b[1..])))
  }

  lemma {:induction false} LessIrreflexive(a: string)
    ensures !Less(a, a)
  {
    if a != "" { LessIrreflexive(a[1..]); }
  }

  lemma {:induction false} LessTrans(a: string, b: string, c: string)
    requires Less(a, b) && Less(b, c)
    ensures Less(a, c)
  {
    if a != "" && a[0] == b[0] == c[0] { LessTrans(a[1..], b[1..], c[1..]); }
  }

  lemma {:induction false} LessTotal(a: string, b: string)
    ensures Less(a, b) || a == b || Less(b, a)
  {
    if a != "" && b != "" && a[0] == b[0] {
      LessTotal(a[1..], b[1..]);
      assert a == [a[0]] + a[1..] && b == [b[0]] + b[1..];
    }
  }

  type Fields = seq<(string, string)>

  /** The iteration order of the map: strictly increasing keys. */
  predicate Sorted(fs: Fields) {
    forall i, j :: 0 <= i < j < |fs| ==> Less(fs[i].0, fs[j].0)
  }

  /** `fields[k] = v` */
  function Put(fs: Fields, k: string, v: string): (r: Fields)
    ensures forall p :: p in r ==> p in fs || p == (k, v)
  {
    if fs == [] then [(k, v)]
    else if k == fs[0].0 then [(k, v)] + fs[1..]
    else if Less(k, fs[0].0) then [(k, v)] + fs
    else [fs[0]] + Put(fs[1..], k, v)
  }

  lemma {:induction false} PutLast(fs: Fields, k: string, v: string)
    requires forall i :: 0 <= i < |fs| ==> Less(fs[i].0, k)
    ensures Put(fs, k, v) == fs + [(k, v)]
  {
    if fs != [] {
      assert Less(fs[0].0, k);
      LessIrreflexive(k);
      if Less(k, fs[0].0) { LessTrans(k, fs[0].0, k); }
      PutLast(fs[1..], k, v);
      assert fs == [fs[0]] + fs[1..];
    }
  }

  /** Assignment keeps the keys strictly increasing. */
  lemma {:induction false} PutSorted(fs: Fields, k: string, v: string)
    requires Sorted(fs)
    ensures Sorted(Put(fs, k, v))
  {
    if fs != [] && k != fs[0].0 {
      if Less(k, fs[0].0) {
        forall j | 0 <= j < |fs| ensures Less(k, fs[j].0) {
          if j > 0 { LessTrans(k, fs[0].0, fs[j].0); }
        }
      } else {
        LessTotal(k, fs[0].0);
        PutSorted(fs[1..], k, v);
        var rest := Put(fs[1..], k, v);
        forall j | 0 <= j < |rest| ensures Less(fs[0].0, rest[j].0) {
          assert rest[j] in rest;
          if rest[j] in fs[1..] {
            var i :| 0 <= i < |fs[1..]| && fs[1..][i] == rest[j];
            assert fs[i + 1] == rest[j];
          }
        }
      }
    }
  }

  // ----- records -----

  datatype Record = Record(
    id: nat, kind: Kind, seqNo: int, timestamp: nat, phase: string, fields: Fields, payload: string)

  /** The ranges of the C++ fields. */
  predicate InRange(r: Record) {
    && r.id < U64 && -0x8000_0000_0000_0000 <= r.seqNo < 0x8000_0000_0000_0000 && r.timestamp < U64
    && Sorted(r.fields)
  }

  function SeqWord(n: int): nat
    requires -0x8000_0000_0000_0000 <= n < 0x8000_0000_0000_0000
  {
    if n < 0 then n + U64 else n
  }

  function WordSeq(w: nat): int { if w < 0x8000_0000_0000_0000 then w else w - U64 }

  function Item(f: (string, string)): string { Esc(f.0) + "=" + Esc(f.1) }

  function Items(fs: Fields): (s: seq<string>)
    ensures |s| == |fs|
  {
    seq(|fs|, i requires 0 <= i < |fs| => Item(fs[i]))
  }

  function FieldsText(fs: Fields): string { Join(Items(fs), ',') }

  function Parts(r: Record): seq<string>
    requires InRange(r)
  {
    [ToHex(SeqWord(r.seqNo)), KindName(r.kind), r.phase, FieldsText(r.fields), Esc(r.payload)]
  }

  /** `to_text` */
  function ToText(r: Record): string
    requires InRange(r)
  {
    Join(Parts(r), '|')
  }

  lemma TextShape(r: Record)
    requires InRange(r)
    ensures ToText(r) == ToHex(SeqWord(r.seqNo)) + "|" + KindName(r.kind) + "|" + r.phase + "|"
                         + FieldsText(r.fields) + "|" + Esc(r.payload)
  {
    hide ToHex, KindName, FieldsText, Esc;
    var p := Parts(r);
    assert p[1..] == [p[1], p[2], p[3], p[4]];
    assert p[1..][1..] == [p[2], p[3], p[4]];
    assert p[1..][1..][1..] == [p[3], p[4]];
    assert p[1..][1..][1..][1..] == [p[4]];
    assert Join([p[3], p[4]], '|') == p[3] + "|" + p[4];
    assert Join([p[2], p[3], p[4]], '|') == p[2] + "|" + (p[3] + "|" + p[4]);
    assert Join([p[1], p[2], p[3], p[4]], '|') == p[1] + "|" + (p[2] + "|" + (p[3] + "|" + p[4]));
  }

  function Line(r: Record): string
    requires InRange(r)
  {
    ToHex(r.id) + ":" + ToText(r)
  }

  predicate AllInRange(rs: seq<Record>) { forall i :: 0 <= i < |rs| ==> InRange(rs[i]) }

  /** `serialize_text` */
  function Serialize(rs: seq<Record>): string
    requires AllInRange(rs)
  {
    if rs == [] then "" else Line(rs[0]) + "\n" + Serialize(rs[1..])
  }

  // ----- parsing -----

  function ParseItem(item: string): Option<(string, string)> {
    var eq := IndexOf(item, '=');
    if eq == |item| then None else Some((Unesc(item[..eq]), Unesc(item[eq + 1..])))
  }

  function ParseItems(items: seq<string>): Option<Fields> {
    if items == [] then Some([])
    else
      var n := |items| - 1;
      match (ParseItems(items[..n]), ParseItem(items[n]))
      case (Some(fs), Some(f)) => Some(Put(fs, f.0, f.1))
      case _ => None
  }

  lemma NoItems()
    ensures ParseItems([]) == Some([])
  {
  }

  function ParseFields(s: string): Option<Fields> {
    if s == "" then Some([]) else ParseItems(Split(s, ','))
  }

  function ParseParts(id: nat, parts: seq<string>): Option<Record> {
    if |parts| != 5 then None
    else
      match (FromHex(parts[0]), ParseFields(parts[3]))
      case (Some(w), Some(fs)) =>
        Some(Record(id, KindNamed(parts[1]), WordSeq(w), 0, Unesc(parts[2]), fs, Unesc(parts[4])))
      case _ => None
  }

  function ParseLine(line: string): Option<Record> {
    var colon := IndexOf(line, ':');
    if colon == |line| then None
    else
      match FromHex(line[..colon])
      case None => None
      case Some(id) => ParseParts(id, Split(line[colon + 1..], '|'))
  }

  function Prepend(r: Option<Record>, rs: Option<seq<Record>>): Option<seq<Record>> {
    if r.Some? && rs.Some? then Some([r.value] + rs.value) else None
  }

  /** `parse_text`: one record a line, blank lines skipped. */
  function ParseText(text: string): Option<seq<Record>>
    decreases |text|
  {
    if text == "" then Some([])
    else
      var nl := IndexOf(text, '\n');
      var rest := if nl == |text| then "" else text[nl + 1..];
      var line := Trim(text[..nl]);
      if line == "" then ParseText(rest) else Prepend(ParseLine(line), ParseText(rest))
  }

  lemma ParseTextStep(text: string)
    requires text != ""
    ensures var nl := IndexOf(text, '\n');
            var rest := if nl == |text| then "" else text[nl + 1..];
            var line := Trim(text[..nl]);
            ParseText(text) == if line == "" then ParseText(rest) else Prepend(ParseLine(line), ParseText(rest))
  {
    hide Trim, ParseLine;
  }

  // ----- the exact domain of the round trip -----

  /** The round trip loses the timestamp, which is not written. */
  function Untimed(r: Record): Record { r.(timestamp := 0) }

  function UntimedAll(rs: seq<Record>): (s: seq<Record>)
    ensures |s| == |rs|
  {
    seq(|rs|, i requires 0 <= i < |rs| => Untimed(rs[i]))
  }

  predicate KeyOk(k: string) { '|' !in k && ',' !in k && '=' !in k && Clean(k) }

  predicate ValueOk(v: string) { '|' !in v && ',' !in v && Clean(v) }

  predicate FieldsOk(fs: Fields) {
    forall i :: 0 <= i < |fs| ==> KeyOk(fs[i].0) && ValueOk(fs[i].1)
  }

  predicate PayloadOk(p: string) { '|' !in p && Clean(p) && !BlankEnd(p) }

  predicate PhaseOk(p: string) { '|' !in p && Clean(p) }

  /** What holds of every parsed record. */
  predicate Readable(r: Record) { PhaseOk(r.phase) && FieldsOk(r.fields) && PayloadOk(r.payload) }

  /** What makes a record survive printing and parsing. */
  predicate Survives(r: Record) { Readable(r) && '\n' !in r.phase }
}
