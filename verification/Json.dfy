/** The JSON form of an evidence stream: src/evidence.cpp, lines 16-30 and 127-173. */
module Json {
  import opened Text
  import opened Evidence

  // ----- strings -----

  function JsonChar(c: char): string {
    if c == '"' then "\\\""
    else if c == '\\' then "\\\\"
    else if c as int < 0x20 then "\\u00" + [HexDigit(c as int / 16), HexDigit(c as int % 16)]
    else [c]
  }

  /** `json_escape` */
  function JsonEscape(v: string): string {
    if v == "" then "" else JsonChar(v[0]) + JsonEscape(v[1..])
  }

  method JsonEscapeScan(v: string) returns (out: string)
    ensures out == JsonEscape(v)
  {
    hide JsonEscape, JsonChar;
    out := "";
    assert v[0..] == v;
    for i := 0 to |v|
      invariant out + JsonEscape(v[i..]) == JsonEscape(v)
    {
      EscapeStep(v, i);
      out := PushEscaped(out, v[i]);
    }
    EscapeEmpty();
    assert v[|v|..] == "";
  }

  method PushEscaped(front: string, c: char) returns (out: string)
    ensures out == front + JsonChar(c)
  {
    out := front;
    if c == '"' {
      out := out + "\\\"";
    } else if c == '\\' {
      out := out + "\\\\";
    } else if c as int < 0x20 {
      out := out + ("\\u00" + [HexDigit(c as int / 16 % 16), HexDigit(c as int % 16)]);
    } else {
      out := out + [c];
    }
  }

  lemma EscapeEmpty()
    ensures JsonEscape("") == ""
  {
  }

  lemma EscapeStep(v: string, i: nat)
    requires i < |v|
    ensures JsonEscape(v[i..]) == JsonChar(v[i]) + JsonEscape(v[i + 1..])
  {
    assert v[i..][0] == v[i] && v[i..][1..] == v[i + 1..];
  }

  /** The letter escapes of section 7 of RFC 8259. */
  function Short(c: char): Option<char> {
    if c == '"' || c == '\\' || c == '/' then Some(c)
    else if c == 'b' then Some(8 as char)
    else if c == 'f' then Some(12 as char)
    else if c == 'n' then Some('\n')
    else if c == 'r' then Some('\r')
    else if c == 't' then Some('\t')
    else None
  }

  /** The code unit after `\u`, outside the surrogates. */
  function CodeUnit(s: string): Option<char>
    requires |s| == 4
  {
    if exists i :: 0 <= i < 4 && Nibble(s[i]) < 0 then None
    else
      var v := ((Nibble(s[0]) * 16 + Nibble(s[1])) * 16 + Nibble(s[2])) * 16 + Nibble(s[3]);
      if 0xd800 <= v < 0xe000 then None else Some(v as char)
  }

  datatype Token = Quote | Unit(c: char, size: nat) | Malformed

  /** What stands at the front of the inside of a string literal. */
  function Next(s: string): (t: Token)
    ensures t.Unit? ==> 0 < t.size <= |s|
  {
    if s == "" || s[0] as int < 0x20 then Malformed
    else if s[0] == '"' then Quote
    else if s[0] != '\\' then Unit(s[0], 1)
    else if |s| >= 2 && Short(s[1]).Some? then Unit(Short(s[1]).value, 2)
    else if |s| >= 6 && s[1] == 'u' && CodeUnit(s[2..6]).Some? then Unit(CodeUnit(s[2..6]).value, 6)
    else Malformed
  }

  /** Reads the rest of a string literal by the standard's rules: its value and what follows. */
  function ReadString(s: string): Option<(string, string)>
    decreases |s|
  {
    match Next(s)
    case Malformed => None
    case Quote => Some(("", s[1..]))
    case Unit(c, size) =>
      match ReadString(s[size..])
      case None => None
      case Some((v, rest)) => Some(([c] + v, rest))
  }

  lemma NextOfChar(c: char, x: string)
    ensures Next(JsonChar(c) + x) == Unit(c, |JsonChar(c)|)
  {
    var s := JsonChar(c) + x;
    if c != '"' && c != '\\' && c as int < 0x20 {
      var h, l := HexDigit(c as int / 16), HexDigit(c as int % 16);
      assert JsonChar(c) == ['\\', 'u', '0', '0', h, l];
      assert s[2..6] == ['0', '0', h, l];
      assert CodeUnit(['0', '0', h, l]) == Some(c) by { UnitOf(c, h, l); }
    }
  }

  lemma UnitOf(c: char, h: char, l: char)
    requires c as int < 0x20 && Nibble(h) == c as int / 16 && Nibble(l) == c as int % 16
    ensures CodeUnit(['0', '0', h, l]) == Some(c)
  {
  }

  /** An escaped string closed by a quote reads back, whatever follows: escaping leaves no bare
      quote, backslash or control character and loses nothing. */
  lemma {:induction false} EscapeReads(v: string, rest: string)
    ensures ReadString(JsonEscape(v) + "\"" + rest) == Some((v, rest))
  {
    hide Next, ReadString, JsonEscape, JsonChar;
    if v == "" {
      EscapeEmpty();
      ReadQuote(rest);
      assert JsonEscape(v) + "\"" + rest == "\"" + rest;
    } else {
      var x := JsonEscape(v[1..]) + "\"" + rest;
      EscapeReads(v[1..], rest);
      EscapeStep(v, 0);
      assert v[0..] == v;
      ReadChar(v[0], x);
      assert JsonEscape(v) + "\"" + rest == JsonChar(v[0]) + x;
      assert v == [v[0]] + v[1..];
    }
  }

  lemma ReadQuote(rest: string)
    ensures ReadString("\"" + rest) == Some(("", rest))
  {
    hide Next;
    NextQuote(rest);
    assert ("\"" + rest)[1..] == rest;
  }

  lemma ReadChar(c: char, x: string)
    requires ReadString(x).Some?
    ensures ReadString(JsonChar(c) + x) == Some(([c] + ReadString(x).value.0, ReadString(x).value.1))
  {
    hide Next, JsonChar;
    NextOfChar(c, x);
    assert (JsonChar(c) + x)[|JsonChar(c)|..] == x;
  }

  lemma NextQuote(rest: string)
    ensures Next("\"" + rest) == Quote
  {
  }

  // ----- cutting a known front off two equal texts -----

  lemma Cancel(p: string, x: string, y: string)
    requires p + x == p + y
    ensures x == y
  {
    assert x == (p + x)[|p|..] && y == (p + y)[|p|..];
  }

  /** A string value closed by a quote and followed by `p` can be cut off in one way only. */
  lemma StringPrefix(a: string, b: string, p: string, x: string, y: string)
    requires JsonEscape(a) + "\"" + p + x == JsonEscape(b) + "\"" + p + y
    ensures a == b && x == y
  {
    hide JsonEscape, ReadString;
    assert JsonEscape(a) + "\"" + p + x == JsonEscape(a) + "\"" + (p + x);
    assert JsonEscape(b) + "\"" + p + y == JsonEscape(b) + "\"" + (p + y);
    EscapeReads(a, p + x);
    EscapeReads(b, p + y);
    Cancel(p, x, y);
  }

  lemma NumberPrefix(a: nat, b: nat, p: string, x: string, y: string)
    requires p != "" && !IsDigit(p[0]) && Decimal(a) + p + x == Decimal(b) + p + y
    ensures a == b && x == y
  {
    hide Decimal;
    assert Decimal(a) + p + x == Decimal(a) + (p + x);
    assert Decimal(b) + p + y == Decimal(b) + (p + y);
    DecimalPrefix(a, p + x, b, p + y);
    Cancel(p, x, y);
  }

  /** A raw key is cut off at its closing quote when it holds none itself. */
  lemma KeyPrefix(a: string, b: string, x: string, y: string)
    requires '"' !in a && '"' !in b && a + "\"" + x == b + "\"" + y
    ensures a == b && x == y
  {
    IndexOfConcat(a, '"', x);
    IndexOfConcat(b, '"', y);
  }

  // ----- fields -----

  /** `json_field` with the key as it is: only the value is escaped. */
  function Member(key: string, value: string): string {
    "\"" + key + "\":\"" + JsonEscape(value) + "\""
  }

  function MoreMembers(fs: Fields): string {
    if fs == [] then "" else "," + Member(fs[0].0, fs[0].1) + MoreMembers(fs[1..])
  }

  function Members(fs: Fields): string {
    if fs == [] then "" else Member(fs[0].0, fs[0].1) + MoreMembers(fs[1..])
  }

  predicate PlainKeys(fs: Fields) { forall i :: 0 <= i < |fs| ==> '"' !in fs[i].0 }

  lemma MemberPrefix(f: (string, string), g: (string, string), x: string, y: string)
    requires '"' !in f.0 && '"' !in g.0
    requires Member(f.0, f.1) + x == Member(g.0, g.1) + y
    ensures f == g && x == y
  {
    hide JsonEscape;
    var vx, vy := JsonEscape(f.1) + "\"" + "" + x, JsonEscape(g.1) + "\"" + "" + y;
    assert Member(f.0, f.1) + x == "\"" + (f.0 + "\"" + (":\"" + vx));
    assert Member(g.0, g.1) + y == "\"" + (g.0 + "\"" + (":\"" + vy));
    Cancel("\"", f.0 + "\"" + (":\"" + vx), g.0 + "\"" + (":\"" + vy));
    KeyPrefix(f.0, g.0, ":\"" + vx, ":\"" + vy);
    Cancel(":\"", vx, vy);
    StringPrefix(f.1, g.1, "", x, y);
  }

  lemma {:induction false} MoreMembersPrefix(fs: Fields, gs: Fields, x: string, y: string)
    requires PlainKeys(fs) && PlainKeys(gs)
    requires MoreMembers(fs) + "}" + x == MoreMembers(gs) + "}" + y
    ensures fs == gs && x == y
  {
    hide Member;
    MoreMembersHead(fs, x);
    MoreMembersHead(gs, y);
    if fs == [] || gs == [] {
      assert fs == gs == [];
      Cancel("}", x, y);
    } else {
      var p, q := MoreMembers(fs[1..]) + "}" + x, MoreMembers(gs[1..]) + "}" + y;
      var f, g := fs[0], gs[0];
      assert MoreMembers(fs) + "}" + x == "," + (Member(f.0, f.1) + p);
      assert MoreMembers(gs) + "}" + y == "," + (Member(g.0, g.1) + q);
      Cancel(",", Member(f.0, f.1) + p, Member(g.0, g.1) + q);
      MemberPrefix(f, g, p, q);
      MoreMembersPrefix(fs[1..], gs[1..], x, y);
      assert fs == [f] + fs[1..] && gs == [g] + gs[1..];
    }
  }

  lemma MoreMembersHead(fs: Fields, x: string)
    ensures fs == [] ==> MoreMembers(fs) + "}" + x == "}" + x
    ensures (MoreMembers(fs) + "}" + x)[0] == if fs == [] then '}' else ','
  {
    hide Member;
  }

  lemma MembersPrefix(fs: Fields, gs: Fields, x: string, y: string)
    requires PlainKeys(fs) && PlainKeys(gs)
    requires Members(fs) + "}" + x == Members(gs) + "}" + y
    ensures fs == gs && x == y
  {
    hide MoreMembers, JsonEscape, Member;
    MembersHead(fs, x);
    MembersHead(gs, y);
    if fs == [] || gs == [] {
      assert fs == gs == [];
      Cancel("}", x, y);
    } else {
      var p, q := MoreMembers(fs[1..]) + "}" + x, MoreMembers(gs[1..]) + "}" + y;
      assert Members(fs) + "}" + x == Member(fs[0].0, fs[0].1) + p;
      assert Members(gs) + "}" + y == Member(gs[0].0, gs[0].1) + q;
      MemberPrefix(fs[0], gs[0], p, q);
      MoreMembersPrefix(fs[1..], gs[1..], x, y);
      assert fs == [fs[0]] + fs[1..] && gs == [gs[0]] + gs[1..];
    }
  }

  lemma MembersHead(fs: Fields, x: string)
    ensures fs == [] ==> Members(fs) + "}" + x == "}" + x
    ensures (Members(fs) + "}" + x)[0] == if fs == [] then '}' else '"'
  {
    hide MoreMembers, JsonEscape;
  }

  // ----- records and streams -----

  // The text of a record from some point to its end, followed by `x`.
  function FromPayload(r: Record, x: string): string { JsonEscape(r.payload) + "\"" + "}" + x }
  function FromFields(r: Record, x: string): string { Members(r.fields) + "}" + (",\"payload\":\"" + FromPayload(r, x)) }
  function FromTime(r: Record, x: string): string { Decimal(r.timestamp) + ",\"fields\":{" + FromFields(r, x) }
  function FromPhase(r: Record, x: string): string { JsonEscape(r.phase) + "\"" + ",\"timestamp_ns\":" + FromTime(r, x) }
  function FromKind(r: Record, x: string): string { JsonEscape(KindName(r.kind)) + "\"" + ",\"phase\":\"" + FromPhase(r, x) }
  function FromSeq(r: Record, x: string): string requires InRange(r) { Decimal(SeqWord(r.seqNo)) + ",\"kind\":\"" + FromKind(r, x) }
  function FromId(r: Record, x: string): string requires InRange(r) { Decimal(r.id) + ",\"seq\":" + FromSeq(r, x) }

  function JsonRecord(r: Record): string
    requires InRange(r)
  {
    "{\"id\":" + FromId(r, "")
  }

  function MoreRecords(rs: seq<Record>): string
    requires AllInRange(rs)
  {
    if rs == [] then "" else "," + JsonRecord(rs[0]) + MoreRecords(rs[1..])
  }

  /** `serialize_json` */
  function SerializeJson(rs: seq<Record>): string
    requires AllInRange(rs)
  {
    "[" + (if rs == [] then "" else JsonRecord(rs[0]) + MoreRecords(rs[1..])) + "]"
  }

  lemma Append4(a: string, b: string, c: string, d: string, e: string, x: string)
    requires d + x == e
    ensures a + b + c + d + x == a + b + c + e
  {
  }

  lemma Append3(a: string, b: string, c: string, d: string, x: string)
    requires c + x == d
    ensures a + b + c + x == a + b + d
  {
  }

  lemma RecordFromId(r: Record, x: string)
    requires InRange(r)
    ensures JsonRecord(r) + x == "{\"id\":" + FromId(r, x)
  {
    hide Decimal, JsonEscape, KindName, Members, SeqWord;
    assert FromPayload(r, "") + x == FromPayload(r, x);
    Append3(Members(r.fields), "}", ",\"payload\":\"" + FromPayload(r, ""), ",\"payload\":\"" + FromPayload(r, x), x);
    Append3(Decimal(r.timestamp), ",\"fields\":{", FromFields(r, ""), FromFields(r, x), x);
    Append4(JsonEscape(r.phase), "\"", ",\"timestamp_ns\":", FromTime(r, ""), FromTime(r, x), x);
    Append4(JsonEscape(KindName(r.kind)), "\"", ",\"phase\":\"", FromPhase(r, ""), FromPhase(r, x), x);
    Append3(Decimal(SeqWord(r.seqNo)), ",\"kind\":\"", FromKind(r, ""), FromKind(r, x), x);
    Append3(Decimal(r.id), ",\"seq\":", FromSeq(r, ""), FromSeq(r, x), x);
  }

  lemma SeqWordInjective(m: int, n: int)
    requires -0x8000_0000_0000_0000 <= m < 0x8000_0000_0000_0000
    requires -0x8000_0000_0000_0000 <= n < 0x8000_0000_0000_0000
    requires SeqWord(m) == SeqWord(n)
    ensures m == n
  {
  }

  /** Up to their fields two records are cut off in one way only, whatever keys they have. */
  lemma SameUpToFields(r: Record, s: Record, x: string, y: string)
    requires InRange(r) && InRange(s) && JsonRecord(r) + x == JsonRecord(s) + y
    ensures r == s.(fields := r.fields, payload := r.payload) && FromFields(r, x) == FromFields(s, y)
  {
    hide Decimal, JsonEscape, KindName, Members, JsonRecord, SeqWord, FromFields;
    RecordFromId(r, x);
    RecordFromId(s, y);
    Cancel("{\"id\":", FromId(r, x), FromId(s, y));
    NumberPrefix(r.id, s.id, ",\"seq\":", FromSeq(r, x), FromSeq(s, y));
    NumberPrefix(SeqWord(r.seqNo), SeqWord(s.seqNo), ",\"kind\":\"", FromKind(r, x), FromKind(s, y));
    SeqWordInjective(r.seqNo, s.seqNo);
    StringPrefix(KindName(r.kind), KindName(s.kind), ",\"phase\":\"", FromPhase(r, x), FromPhase(s, y));
    NamesDiffer(r.kind, s.kind);
    StringPrefix(r.phase, s.phase, ",\"timestamp_ns\":", FromTime(r, x), FromTime(s, y));
    NumberPrefix(r.timestamp, s.timestamp, ",\"fields\":{", FromFields(r, x), FromFields(s, y));
  }

  lemma RecordPrefix(r: Record, s: Record, x: string, y: string)
    requires InRange(r) && InRange(s) && PlainKeys(r.fields) && PlainKeys(s.fields)
    requires JsonRecord(r) + x == JsonRecord(s) + y
    ensures r == s && x == y
  {
    hide JsonEscape, Members, JsonRecord, InRange;
    SameUpToFields(r, s, x, y);
    MembersPrefix(r.fields, s.fields, ",\"payload\":\"" + FromPayload(r, x), ",\"payload\":\"" + FromPayload(s, y));
    Cancel(",\"payload\":\"", FromPayload(r, x), FromPayload(s, y));
    StringPrefix(r.payload, s.payload, "}", x, y);
  }

  predicate AllPlainKeys(rs: seq<Record>) { forall i :: 0 <= i < |rs| ==> PlainKeys(rs[i].fields) }

  lemma {:induction false} MoreRecordsInjective(rs: seq<Record>, ss: seq<Record>)
    requires AllInRange(rs) && AllInRange(ss) && AllPlainKeys(rs) && AllPlainKeys(ss)
    requires MoreRecords(rs) + "]" == MoreRecords(ss) + "]"
    ensures rs == ss
  {
    hide JsonRecord, InRange, PlainKeys, MoreRecords;
    MoreRecordsHead(rs);
    MoreRecordsHead(ss);
    if rs == [] || ss == [] {
      assert rs == ss == [];
    } else {
      var x, y := MoreRecords(rs[1..]) + "]", MoreRecords(ss[1..]) + "]";
      MoreSplit(rs);
      MoreSplit(ss);
      Cancel(",", JsonRecord(rs[0]) + x, JsonRecord(ss[0]) + y);
      RecordPrefix(rs[0], ss[0], x, y);
      MoreRecordsInjective(rs[1..], ss[1..]);
      assert rs == [rs[0]] + rs[1..] && ss == [ss[0]] + ss[1..];
    }
  }

  lemma MoreRecordsHead(rs: seq<Record>)
    requires AllInRange(rs)
    ensures (MoreRecords(rs) + "]")[0] == if rs == [] then ']' else ','
  {
    hide JsonRecord, InRange;
  }

  lemma MoreSplit(rs: seq<Record>)
    requires rs != [] && AllInRange(rs)
    ensures MoreRecords(rs) + "]" == "," + (JsonRecord(rs[0]) + (MoreRecords(rs[1..]) + "]"))
  {
    hide JsonRecord, InRange;
  }

  /** The whole text and the text of records each after a comma say the same. */
  lemma JsonIsMore(rs: seq<Record>, ss: seq<Record>)
    requires AllInRange(rs) && AllInRange(ss)
    ensures SerializeJson(rs) == SerializeJson(ss) <==> MoreRecords(rs) + "]" == MoreRecords(ss) + "]"
  {
    hide JsonRecord, InRange, MoreRecords, SerializeJson;
    JsonText(rs);
    JsonText(ss);
    MoreRecordsHead(rs);
    MoreRecordsHead(ss);
    StreamHead(rs);
    StreamHead(ss);
    if rs != [] && ss != [] {
      MoreSplit(rs);
      MoreSplit(ss);
      var x, y := JsonRecord(rs[0]) + (MoreRecords(rs[1..]) + "]"), JsonRecord(ss[0]) + (MoreRecords(ss[1..]) + "]");
      if "[" + x == "[" + y { Cancel("[", x, y); }
      if "," + x == "," + y { Cancel(",", x, y); }
    }
  }

  lemma JsonText(rs: seq<Record>)
    requires AllInRange(rs)
    ensures rs != [] ==> SerializeJson(rs) == "[" + (JsonRecord(rs[0]) + (MoreRecords(rs[1..]) + "]"))
  {
    hide JsonRecord, InRange, MoreRecords;
  }

  /** Different streams, timestamps included, have different JSON as long as no field key holds a quote:
      a stream with the JSON of a quote-free one is that stream exactly when it is quote-free too. */
  lemma JsonInjective(rs: seq<Record>, ss: seq<Record>)
    requires AllInRange(rs) && AllInRange(ss) && AllPlainKeys(rs)
    requires SerializeJson(rs) == SerializeJson(ss)
    ensures rs == ss <==> AllPlainKeys(ss)
  {
    hide *;
    if AllPlainKeys(ss) {
      JsonIsMore(rs, ss);
      MoreRecordsInjective(rs, ss);
    }
  }

  lemma StreamHead(rs: seq<Record>)
    requires AllInRange(rs)
    ensures |SerializeJson(rs)| >= 2 && SerializeJson(rs)[1] == if rs == [] then ']' else '{'
  {
    hide MoreRecords;
    if rs != [] { RecordHead(rs[0]); }
  }

  lemma RecordHead(r: Record)
    requires InRange(r)
    ensures JsonRecord(r) != "" && JsonRecord(r)[0] == '{'
  {
    hide Decimal, JsonEscape, KindName, Members;
  }

  // ----- the writer -----

  method PushMember(front: string, name: string, value: string) returns (out: string)
    ensures out == front + Member(name, value)
  {
    hide JsonEscape;
    out := front + "\"" + name + "\"" + ":";
    var escaped := JsonEscapeScan(value);
    out := out + "\"" + escaped + "\"";
  }

  method PushMembers(front: string, fields: Fields) returns (out: string)
    ensures out == front + Members(fields)
  {
    hide Member, Members, MoreMembers;
    out := front;
    var first := true;
    NoMembers();
    assert fields[..0] == [];
    for i := 0 to |fields|
      invariant first == (i == 0)
      invariant out == front + Members(fields[..i])
    {
      MembersSnoc(fields, i);
      if !first { out := out + ","; }
      first := false;
      out := PushMember(out, fields[i].0, fields[i].1);
    }
    assert fields[..|fields|] == fields;
  }

  lemma NoMembers()
    ensures Members([]) == "" && MoreMembers([]) == ""
  {
  }

  lemma MembersSnoc(fs: Fields, i: nat)
    requires i < |fs|
    ensures Members(fs[..i + 1]) ==
            Members(fs[..i]) + (if i == 0 then "" else ",") + Member(fs[i].0, fs[i].1)
  {
    hide Member, MoreMembers;
    NoMembers();
    if i > 0 {
      assert fs[..i + 1][1..] == fs[..i][1..] + [fs[i]];
      MoreMembersSnoc(fs[..i][1..], fs[i]);
    } else {
      assert fs[..1][1..] == [] && fs[..0] == [];
    }
  }

  lemma {:induction false} MoreMembersSnoc(fs: Fields, f: (string, string))
    ensures MoreMembers(fs + [f]) == MoreMembers(fs) + "," + Member(f.0, f.1)
  {
    hide Member;
    if fs == [] {
      assert [f][1..] == [];
      assert fs + [f] == [f];
    } else {
      assert (fs + [f])[1..] == fs[1..] + [f];
      MoreMembersSnoc(fs[1..], f);
    }
  }

  method PushRecord(front: string, r: Record) returns (out: string)
    requires InRange(r)
    ensures out == front + JsonRecord(r)
  {
    hide Decimal, JsonEscape, KindName, FromTime, SeqWord;
    ghost var goal := front + JsonRecord(r);
    out := front + "{\"id\":";
    assert out + FromId(r, "") == goal;
    out := out + (Decimal(r.id) + ",\"seq\":");
    assert out + FromSeq(r, "") == goal;
    out := out + (Decimal(SeqWord(r.seqNo)) + ",\"kind\":\"");
    assert out + FromKind(r, "") == goal;
    var kind := JsonEscapeScan(KindName(r.kind));
    out := out + (kind + "\"" + ",\"phase\":\"");
    assert out + FromPhase(r, "") == goal;
    var phase := JsonEscapeScan(r.phase);
    out := out + (phase + "\"" + ",\"timestamp_ns\":");
    out := PushFromTime(out, r);
  }

  method PushFromTime(front: string, r: Record) returns (out: string)
    ensures out == front + FromTime(r, "")
  {
    hide Decimal, JsonEscape, Members;
    ghost var goal := front + FromTime(r, "");
    out := front + (Decimal(r.timestamp) + ",\"fields\":{");
    assert out + FromFields(r, "") == goal;
    out := PushMembers(out, r.fields);
    out := out + "}";
    out := out + ",\"payload\":\"";
    assert out + FromPayload(r, "") == goal;
    var payload := JsonEscapeScan(r.payload);
    out := out + (payload + "\"" + "}");
  }

  method SerializeJsonScan(records: seq<Record>) returns (out: string)
    requires AllInRange(records)
    ensures out == SerializeJson(records)
  {
    hide JsonRecord, MoreRecords, InRange;
    out := "[";
    var first := true;
    ghost var goal := SerializeJson(records);
    assert records[0..] == records;
    for i := 0 to |records|
      invariant first == (i == 0)
      invariant AllInRange(records[i..])
      invariant i == 0 ==> out == "["
      invariant i > 0 ==> out + MoreRecords(records[i..]) + "]" == goal
    {
      MoreRecordsStep(records, i);
      if !first { out := out + ","; }
      first := false;
      out := PushRecord(out, records[i]);
    }
    NoRecords();
    assert records[|records|..] == [];
    assert out + "" == out && "[" + "" == "[";
    out := out + "]";
  }

  lemma NoRecords()
    ensures MoreRecords([]) == ""
  {
  }

  lemma MoreRecordsStep(rs: seq<Record>, i: nat)
    requires i < |rs| && AllInRange(rs[i..])
    ensures InRange(rs[i]) && AllInRange(rs[i + 1..])
    ensures MoreRecords(rs[i..]) == "," + JsonRecord(rs[i]) + MoreRecords(rs[i + 1..])
  {
    hide JsonRecord, InRange;
    assert rs[i..][0] == rs[i] && rs[i..][1..] == rs[i + 1..];
  }

  // ----- a quote in a key makes two streams collide -----

  /** All fields but the last value, as one raw key. */
  function MergedKey(fs: Fields): string
    requires fs != []
  {
    if |fs| == 1 then fs[0].0
    else fs[0].0 + "\":\"" + JsonEscape(fs[0].1) + "\",\"" + MergedKey(fs[1..])
  }

  function MergedFields(fs: Fields): Fields
    requires fs != []
  {
    [(MergedKey(fs), fs[|fs| - 1].1)]
  }

  lemma {:induction false} MergedLooksSame(fs: Fields)
    requires fs != []
    ensures Members(MergedFields(fs)) == Members(fs)
  {
    hide JsonEscape, Member, MoreMembers, Members;
    var last := fs[|fs| - 1].1;
    OneMember(MergedKey(fs), last);
    if |fs| == 1 {
      OneMember(fs[0].0, last);
      assert fs == MergedFields(fs);
    } else {
      MergedLooksSame(fs[1..]);
      OneMember(MergedKey(fs[1..]), last);
      MembersCons(fs);
      MergeTwo(fs[0], MergedKey(fs[1..]), last);
    }
  }

  lemma OneMember(k: string, v: string)
    ensures Members([(k, v)]) == Member(k, v)
  {
    hide Member;
    assert [(k, v)][1..] == [];
  }

  lemma MembersCons(fs: Fields)
    requires |fs| >= 2
    ensures Members(fs) == Member(fs[0].0, fs[0].1) + "," + Members(fs[1..])
  {
    hide Member;
  }

  lemma MergeTwo(f: (string, string), k: string, v: string)
    ensures Member(f.0 + "\":\"" + JsonEscape(f.1) + "\",\"" + k, v) == Member(f.0, f.1) + "," + Member(k, v)
  {
    hide JsonEscape;
  }

  /** Keys are written raw, so a stream with a record of two or more fields always has the same
      JSON as the different stream that holds those fields under one key. */
  lemma JsonCollides(rs: seq<Record>, i: nat)
    requires AllInRange(rs) && i < |rs| && |rs[i].fields| >= 2
    ensures var ss := rs[i := rs[i].(fields := MergedFields(rs[i].fields))];
            AllInRange(ss) && ss != rs && SerializeJson(ss) == SerializeJson(rs)
  {
    hide JsonRecord, Members, MoreRecords, MergedKey;
    var r := rs[i];
    var s := r.(fields := MergedFields(r.fields));
    var ss := rs[i := s];
    assert ss[i].fields != rs[i].fields;
    SameRecord(r, s);
    forall j | 0 <= j < |rs| ensures InRange(ss[j]) && JsonRecord(ss[j]) == JsonRecord(rs[j]) {}
    if i == 0 { assert ss[0] == s; }
    SameRecords(rs[1..], ss[1..]);
  }

  lemma SameRecord(r: Record, s: Record)
    requires InRange(r) && r.fields != [] && s == r.(fields := MergedFields(r.fields))
    ensures InRange(s) && JsonRecord(s) == JsonRecord(r)
  {
    hide Members, MergedKey, JsonEscape, Decimal, KindName, Less;
    MergedLooksSame(r.fields);
  }

  lemma {:induction false} SameRecords(rs: seq<Record>, ss: seq<Record>)
    requires AllInRange(rs) && AllInRange(ss) && |rs| == |ss|
    requires forall j :: 0 <= j < |rs| ==> JsonRecord(rs[j]) == JsonRecord(ss[j])
    ensures MoreRecords(rs) == MoreRecords(ss)
  {
    hide JsonRecord, InRange;
    if rs != [] {
      SameRecords(rs[1..], ss[1..]);
    }
  }
}
