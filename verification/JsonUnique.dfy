/** Exactly which evidence streams without quotes in their keys are told by their JSON. */
module JsonUnique {
  import opened Text
  import opened Evidence
  import opened Json

  function FieldCount(rs: seq<Record>): nat {
    if rs == [] then 0 else |rs[0].fields| + FieldCount(rs[1..])
  }

  /** No other stream has the same JSON. */
  ghost predicate Told(rs: seq<Record>)
    requires AllInRange(rs)
  {
    forall ss :: AllInRange(ss) && SerializeJson(ss) == SerializeJson(rs) ==> ss == rs
  }

  // ----- where the last field of a record can end -----

  predicate ClosesFields(t: string) { |t| >= 3 && t[0] == '}' && t[1] == ',' && t[2] == '"' }

  /** The end of a key, a colon and a string value that closes the fields of a record. */
  predicate Hit(t: string) {
    && |t| >= 3 && t[0] == '"' && t[1] == ':' && t[2] == '"'
    && ReadString(t[3..]).Some? && ClosesFields(ReadString(t[3..]).value.1)
  }

  /** No such place anywhere in the text. */
  predicate Clear(t: string) { !Hit(t) && (t != "" ==> Clear(t[1..])) }

  lemma ClearCons(c: char, t: string)
    ensures Clear([c] + t) <==> !Hit([c] + t) && Clear(t)
  {
    hide Hit;
    assert ([c] + t)[1..] == t;
  }

  lemma NoHit(t: string)
    requires t == "" || t[0] != '"'
    ensures !Hit(t)
  {
  }

  lemma {:induction false} SkipPlain(s: string, t: string)
    requires '"' !in s && Clear(t)
    ensures Clear(s + t)
  {
    hide Hit, Clear;
    if s == "" {
      assert s + t == t;
    } else {
      SkipPlain(s[1..], t);
      assert s + t == [s[0]] + (s[1..] + t);
      NoHit(s + t);
      ClearCons(s[0], s[1..] + t);
    }
  }

  lemma SkipQuote(t: string)
    requires Clear(t) && !Hit("\"" + t)
    ensures Clear("\"" + t)
  {
    hide Hit, Clear;
    ClearCons('"', t);
  }

  lemma QuoteNot(t: string)
    requires Clear(t) && (|t| < 2 || t[0] != ':' || t[1] != '"')
    ensures Clear("\"" + t)
  {
    hide Clear;
    var s := "\"" + t;
    assert |t| >= 2 ==> s[1] == t[0] && s[2] == t[1];
    SkipQuote(t);
  }

  /** Nothing after a clear text's front is a hit. */
  lemma {:induction false} ClearTail(b: string, t: string)
    requires Clear(b + t)
    ensures !Hit(t)
  {
    hide Hit;
    if b == "" {
      assert b + t == t;
    } else {
      assert (b + t)[1..] == b[1..] + t;
      ClearTail(b[1..], t);
    }
  }

  lemma HitReads(v: string, u: string)
    ensures Hit("\":\"" + (JsonEscape(v) + "\"" + u)) <==> ClosesFields(u)
  {
    hide JsonEscape, ReadString, ClosesFields;
    EscapeReads(v, u);
    var s := JsonEscape(v) + "\"" + u;
    assert ("\":\"" + s)[3..] == s;
  }

  /** A quote before a string: a hit there could only start the string that begins at its end. */
  lemma QuoteBefore(v: string, u: string)
    requires Clear(JsonEscape(v) + "\"" + u) && !Hit("\":\"" + u)
    ensures Clear("\"" + (JsonEscape(v) + "\"" + u))
  {
    hide Clear, Hit;
    var t := JsonEscape(v) + "\"" + u;
    if |t| >= 2 && t[0] == ':' && t[1] == '"' {
      ColonOnly(v, u);
      assert "\"" + t == "\":\"" + u;
      SkipQuote(t);
    } else {
      QuoteNot(t);
    }
  }

  lemma ColonOnly(v: string, u: string)
    requires var t := JsonEscape(v) + "\"" + u; |t| >= 2 && t[0] == ':' && t[1] == '"'
    ensures JsonEscape(v) + "\"" + u == ":\"" + u
  {
    hide JsonEscape;
    EscapeEmpty();
    if v != "" {
      EscapeStep(v, 0);
      assert v[0..] == v;
      CharHead(v[0]);
      if v[1..] != "" {
        EscapeStep(v[1..], 0);
        assert v[1..][0..] == v[1..];
        CharHead(v[1..][0]);
      }
    }
  }

  lemma CharHead(c: char)
    ensures JsonChar(c) != "" && JsonChar(c)[0] != '"' && (JsonChar(c)[0] == ':' ==> JsonChar(c) == ":")
  {
  }

  lemma CharShape(c: char)
    ensures c != '"' ==> '"' !in JsonChar(c)
    ensures c == '"' ==> JsonChar(c) == "\\" + "\""
  {
    var n := c as int;
    if n < 0x20 {
      assert Nibble(HexDigit(n / 16)) >= 0 && Nibble(HexDigit(n % 16)) >= 0;
    }
  }

  /** Inside a string there is nothing, provided nothing starts at its end. */
  lemma {:induction false} StringClear(v: string, u: string)
    requires Clear("\"" + u) && !Hit("\":\"" + u)
    ensures Clear(JsonEscape(v) + "\"" + u)
  {
    hide Clear, Hit, JsonEscape, JsonChar;
    if v == "" {
      EscapeEmpty();
      assert JsonEscape(v) + "\"" + u == "\"" + u;
    } else {
      StringClear(v[1..], u);
      EscapeStep(v, 0);
      assert v[0..] == v;
      var t := JsonEscape(v[1..]) + "\"" + u;
      CharShape(v[0]);
      assert JsonEscape(v) + "\"" + u == JsonChar(v[0]) + t;
      if v[0] == '"' {
        QuoteBefore(v[1..], u);
        assert JsonChar(v[0]) + t == "\\" + ("\"" + t);
        SkipPlain("\\", "\"" + t);
      } else {
        SkipPlain(JsonChar(v[0]), t);
      }
    }
  }

  /** The end of a key and a string value that does not close the fields. */
  lemma ValueClear(v: string, u: string)
    requires Clear("\"" + u) && !Hit("\":\"" + u) && !ClosesFields(u)
    ensures Clear("\":\"" + (JsonEscape(v) + "\"" + u))
  {
    hide Clear, Hit, JsonEscape, ClosesFields;
    var s := JsonEscape(v) + "\"" + u;
    StringClear(v, u);
    QuoteBefore(v, u);
    HitReads(v, u);
    SkipPlain(":", "\"" + s);
    assert "\"" + (":" + ("\"" + s)) == "\":\"" + s;
    SkipQuote(":" + ("\"" + s));
  }

  lemma KeyClear(name: string, t: string)
    requires name != "" && name[0] != ':' && '"' !in name && Clear(t)
    ensures Clear("\"" + (name + t))
  {
    hide Clear, Hit;
    SkipPlain(name, t);
    QuoteNot(name + t);
  }

  lemma NumberClear(t: string)
    requires Clear(t) && (t == "" || t[0] != '"')
    ensures Clear("\"" + (":" + t))
  {
    hide Clear, Hit;
    SkipPlain(":", t);
    assert t != "" ==> (":" + t)[1] == t[0];
    QuoteNot(":" + t);
  }

  /** After a key's end nothing can start if the next quote comes after `w`, before `t`. */
  lemma NoStringHere(w: string, t: string)
    requires JsonEscape(w) == w && !ClosesFields(t)
    ensures !Hit("\":\"" + (w + "\"" + t))
  {
    hide Hit, JsonEscape, ClosesFields;
    HitReads(w, t);
  }

  // ----- records without fields -----

  predicate Ends(x: string) { x == "]" || (|x| > 7 && x[..7] == ",{\"id\":") }

  lemma Short2()
    ensures JsonEscape("},") == "}," && JsonEscape(",") == ","
  {
    assert "},"[1..] == "," && ","[1..] == "";
    assert JsonEscape(",") == ",";
  }

  lemma Short3()
    ensures JsonEscape("},{") == "},{"
  {
    assert "},{"[1..] == ",{" && ",{"[1..] == "{" && "{"[1..] == "";
    assert JsonEscape("{") == "{";
    assert JsonEscape(",{") == ",{";
  }

  lemma BracketMalformed()
    ensures ReadString("}]").None?
  {
    assert "}]"[1..] == "]" && "]"[1..] == "";
    assert ReadString("").None?;
    assert ReadString("]").None?;
  }

  lemma NothingAtEnd(x: string)
    requires Ends(x)
    ensures !Hit("\":\"" + ("}" + x)) && !ClosesFields("}" + x)
  {
    hide Hit, JsonEscape, ReadString;
    if x == "]" {
      BracketMalformed();
      assert "}" + x == "}]";
      NoReadNoHit("}" + x);
    } else {
      var t := x[3..];
      assert x == ",{" + ("\"" + t) by { assert x[..7][..3] == ",{\""; }
      assert t[0] == x[3] == x[..7][3];
      Short3();
      NoStringHere("},{", t);
      assert "}" + x == "},{" + "\"" + t;
      assert ("}" + x)[2] == x[1] == x[..7][1];
    }
  }

  lemma NoReadNoHit(t: string)
    requires ReadString(t).None?
    ensures !Hit("\":\"" + t)
  {
    hide ReadString;
    assert ("\":\"" + t)[3..] == t;
  }

  lemma PayloadClear(r: Record, x: string)
    requires Clear(x) && Ends(x)
    ensures Clear("\":\"" + FromPayload(r, x))
  {
    hide Clear, Hit, JsonEscape, Ends;
    NothingAtEnd(x);
    SkipPlain("}", x);
    QuoteNot("}" + x);
    ValueClear(r.payload, "}" + x);
    assert FromPayload(r, x) == JsonEscape(r.payload) + "\"" + ("}" + x);
  }

  lemma ClosePayloadClear(r: Record, x: string)
    requires Clear(x) && Ends(x)
    ensures Clear("}" + (",\"payload\":\"" + FromPayload(r, x)))
  {
    hide Clear, Hit, JsonEscape, Ends, FromPayload;
    var t := "\":\"" + FromPayload(r, x);
    PayloadClear(r, x);
    KeyClear("payload", t);
    SkipPlain("},", "\"" + ("payload" + t));
    assert "}" + (",\"payload\":\"" + FromPayload(r, x)) == "}," + ("\"" + ("payload" + t));
  }

  lemma TimeClear(r: Record, x: string)
    requires r.fields == [] && Clear(x) && Ends(x)
    ensures Clear(FromTime(r, x)) && FromTime(r, x) != "" && FromTime(r, x)[0] != '"'
  {
    hide Clear, Hit, Ends, FromPayload, Decimal, MoreMembers, Member;
    var f := FromFields(r, x);
    ClosePayloadClear(r, x);
    assert f == "}" + (",\"payload\":\"" + FromPayload(r, x));
    SkipPlain("{", f);
    NumberClear("{" + f);
    KeyClear("fields", "\"" + (":" + ("{" + f)));
    var d := Decimal(r.timestamp);
    assert IsDigit(d[0]);
    NoQuote(r.timestamp);
    SkipPlain(d + ",", "\"" + ("fields" + ("\"" + (":" + ("{" + f)))));
    assert FromTime(r, x) == (d + ",") + ("\"" + ("fields" + ("\"" + (":" + ("{" + f)))));
  }

  lemma NoQuote(n: nat)
    ensures '"' !in Decimal(n) && '"' !in Decimal(n) + ","
  {
    hide Decimal;
  }

  /** A string value followed by a comma and another key. */
  lemma StringThenKey(v: string, name: string, t: string)
    requires name != "" && name[0] != ':' && name[0] != '}' && '"' !in name && Clear(t)
    ensures Clear("\":\"" + (JsonEscape(v) + "\"" + ("," + ("\"" + (name + t)))))
  {
    hide Clear, Hit, JsonEscape;
    var u := "," + ("\"" + (name + t));
    KeyClear(name, t);
    SkipPlain(",", "\"" + (name + t));
    QuoteNot(u);
    Short2();
    NoStringHere(",", name + t);
    assert "," + "\"" + (name + t) == u;
    ValueClear(v, u);
  }

  lemma PhaseClear(r: Record, x: string)
    requires r.fields == [] && Clear(x) && Ends(x)
    ensures Clear("\":\"" + FromPhase(r, x))
  {
    hide Clear, Hit, Ends, FromTime, JsonEscape;
    var f := FromTime(r, x);
    TimeClear(r, x);
    NumberClear(f);
    StringThenKey(r.phase, "timestamp_ns", "\"" + (":" + f));
    assert FromPhase(r, x) == JsonEscape(r.phase) + "\"" + ("," + ("\"" + ("timestamp_ns" + ("\"" + (":" + f)))));
  }

  lemma KindClear(r: Record, x: string)
    requires r.fields == [] && Clear(x) && Ends(x)
    ensures Clear("\":\"" + FromKind(r, x))
  {
    hide Clear, Hit, Ends, FromPhase, JsonEscape, KindName;
    var f := FromPhase(r, x);
    PhaseClear(r, x);
    StringThenKey(KindName(r.kind), "phase", "\":\"" + f);
    assert FromKind(r, x) == JsonEscape(KindName(r.kind)) + "\"" + ("," + ("\"" + ("phase" + ("\":\"" + f))));
  }

  lemma SeqClear(r: Record, x: string)
    requires InRange(r) && r.fields == [] && Clear(x) && Ends(x)
    ensures Clear(FromSeq(r, x)) && FromSeq(r, x) != "" && FromSeq(r, x)[0] != '"'
  {
    hide Clear, Hit, Ends, FromKind, Decimal, SeqWord;
    var f := FromKind(r, x);
    KindClear(r, x);
    KeyClear("kind", "\":\"" + f);
    var d := Decimal(SeqWord(r.seqNo));
    assert IsDigit(d[0]);
    NoQuote(SeqWord(r.seqNo));
    SkipPlain(d + ",", "\"" + ("kind" + ("\":\"" + f)));
    assert FromSeq(r, x) == (d + ",") + ("\"" + ("kind" + ("\":\"" + f)));
  }

  lemma RecordClear(r: Record, x: string)
    requires InRange(r) && r.fields == [] && Clear(x) && Ends(x)
    ensures Clear(JsonRecord(r) + x)
  {
    hide Clear, Hit, Ends, FromSeq, Decimal, JsonRecord, InRange;
    var f := FromSeq(r, x);
    SeqClear(r, x);
    NumberClear(f);
    KeyClear("seq", "\"" + (":" + f));
    var d := Decimal(r.id);
    assert IsDigit(d[0]);
    NoQuote(r.id);
    SkipPlain(d + ",", "\"" + ("seq" + ("\"" + (":" + f))));
    var g := FromId(r, x);
    assert g == (d + ",") + ("\"" + ("seq" + ("\"" + (":" + f))));
    NumberClear(g);
    KeyClear("id", "\"" + (":" + g));
    SkipPlain("{", "\"" + ("id" + ("\"" + (":" + g))));
    RecordFromId(r, x);
    assert JsonRecord(r) + x == "{" + ("\"" + ("id" + ("\"" + (":" + g))));
  }

  predicate Fieldless(rs: seq<Record>) { forall i :: 0 <= i < |rs| ==> rs[i].fields == [] }

  lemma {:induction false} RestClear(rs: seq<Record>)
    requires AllInRange(rs) && Fieldless(rs)
    ensures Clear(MoreRecords(rs) + "]")
  {
    hide Clear, Hit, JsonRecord, InRange, MoreRecords, Ends;
    if rs == [] {
      NoRecords();
      ClearBracket();
      assert MoreRecords(rs) + "]" == "]";
    } else {
      var x := MoreRecords(rs[1..]) + "]";
      RestClear(rs[1..]);
      RestEnds(rs[1..]);
      RecordClear(rs[0], x);
      SkipPlain(",", JsonRecord(rs[0]) + x);
      MoreSplit(rs);
    }
  }

  lemma RestEnds(rs: seq<Record>)
    requires AllInRange(rs)
    ensures Ends(MoreRecords(rs) + "]")
  {
    hide JsonRecord, InRange, MoreRecords, FromId;
    if rs == [] {
      NoRecords();
      assert MoreRecords(rs) + "]" == "]";
    } else {
      var x := MoreRecords(rs[1..]) + "]";
      MoreSplit(rs);
      RecordFromId(rs[0], x);
      IdFollows(rs[0], x);
      assert MoreRecords(rs) + "]" == ",{\"id\":" + FromId(rs[0], x);
    }
  }

  lemma IdFollows(r: Record, x: string)
    requires InRange(r)
    ensures FromId(r, x) != ""
  {
    hide FromSeq;
  }

  lemma ClearBracket()
    ensures Clear("]")
  {
    assert "]"[1..] == "";
  }

  // ----- at most one field: nothing else has this JSON -----

  /** A record without fields is read off in one way only, whatever keys the other stream has. */
  lemma EmptyPrefix(r: Record, s: Record, x: string, y: string)
    requires InRange(r) && InRange(s) && r.fields == [] && JsonRecord(r) + x == JsonRecord(s) + y
    ensures r == s && x == y
  {
    hide JsonRecord, InRange, Members, FromPayload;
    SameUpToFields(r, s, x, y);
    MembersHead(r.fields, ",\"payload\":\"" + FromPayload(r, x));
    MembersHead(s.fields, ",\"payload\":\"" + FromPayload(s, y));
    RecordPrefix(r, s, x, y);
  }

  lemma {:induction false} MergedKeyQuoted(fs: Fields)
    requires |fs| >= 2
    ensures '"' in MergedKey(fs)
  {
    hide JsonEscape;
    assert MergedKey(fs)[|fs[0].0|] == '"';
  }

  /** What follows a single field of a quote-free key, if only records without fields come after it. */
  lemma AfterKeyClear(v: string, r: Record, x: string)
    requires Clear(x) && Ends(x)
    ensures Clear(":\"" + (JsonEscape(v) + "\"" + ("}" + (",\"payload\":\"" + FromPayload(r, x)))))
  {
    hide Clear, Hit, Ends, JsonEscape, FromPayload;
    var u := "}" + (",\"payload\":\"" + FromPayload(r, x));
    ClosePayloadClear(r, x);
    QuoteNot(u);
    Short2();
    var t := "payload\":\"" + FromPayload(r, x);
    NoStringHere("},", t);
    assert u == "}," + "\"" + t;
    StringClear(v, u);
    QuoteBefore(v, u);
    var s := JsonEscape(v) + "\"" + u;
    SkipPlain(":", "\"" + s);
    assert ":\"" + s == ":" + ("\"" + s);
  }

  lemma MemberThen(k: string, v: string, u: string)
    ensures Member(k, v) + u == "\"" + (k + "\"" + (":\"" + (JsonEscape(v) + "\"" + u)))
    ensures Member(k, v) + u == "\"" + (k + ("\":\"" + (JsonEscape(v) + "\"" + u)))
  {
    hide JsonEscape;
  }

  /** The other stream's fields merge into a quote-free key: a quote in it would be a place where fields
      can close, and there is none but the right one. */
  lemma OtherKeyPlain(k: string, v: string, r: Record, x: string, key: string, w: string, s: Record, y: string)
    requires '"' !in k && Clear(x) && Ends(x)
    requires Member(k, v) + ("}" + (",\"payload\":\"" + FromPayload(r, x)))
             == Member(key, w) + ("}" + (",\"payload\":\"" + FromPayload(s, y)))
    ensures '"' !in key
  {
    hide Clear, Hit, Ends, JsonEscape, FromPayload, Member;
    var u, z := "}" + (",\"payload\":\"" + FromPayload(r, x)), "}" + (",\"payload\":\"" + FromPayload(s, y));
    MemberThen(k, v, u);
    MemberThen(key, w, z);
    if '"' in key {
      var q := IndexOf(key, '"');
      var a, b := key[..q], key[q + 1..];
      assert key == a + "\"" + b;
      var hit := "\":\"" + (JsonEscape(w) + "\"" + z);
      var left := ":\"" + (JsonEscape(v) + "\"" + u);
      assert key + hit == a + "\"" + (b + hit);
      Cancel("\"", k + "\"" + left, a + "\"" + (b + hit));
      KeyPrefix(k, a, left, b + hit);
      AfterKeyClear(v, r, x);
      ClearTail(b, hit);
      HitReads(w, z);
    }
  }

  lemma SinglePrefix(r: Record, s: Record, x: string, y: string)
    requires InRange(r) && InRange(s) && |r.fields| == 1 && PlainKeys(r.fields) && Clear(x) && Ends(x)
    requires JsonRecord(r) + x == JsonRecord(s) + y
    ensures r == s && x == y
  {
    hide JsonRecord, InRange, Clear, Ends, Member, Members, FromPayload, MergedKey;
    SameUpToFields(r, s, x, y);
    var px, py := ",\"payload\":\"" + FromPayload(r, x), ",\"payload\":\"" + FromPayload(s, y);
    MembersHead(r.fields, px);
    MembersHead(s.fields, py);
    var (k, v) := r.fields[0];
    assert r.fields == [(k, v)];
    OneMember(k, v);
    var gs := s.fields;
    MergedLooksSame(gs);
    var key, w := MergedKey(gs), gs[|gs| - 1].1;
    OneMember(key, w);
    assert Member(k, v) + "}" + px == Member(k, v) + ("}" + px) && Member(key, w) + "}" + py == Member(key, w) + ("}" + py);
    OtherKeyPlain(k, v, r, x, key, w, s, y);
    OneKey(gs);
    RecordPrefix(r, s, x, y);
  }

  lemma OneKey(gs: Fields)
    requires gs != [] && '"' !in MergedKey(gs)
    ensures PlainKeys(gs)
  {
    if |gs| >= 2 { MergedKeyQuoted(gs); }
  }

  lemma {:induction false} NoFields(rs: seq<Record>)
    requires FieldCount(rs) == 0
    ensures Fieldless(rs)
  {
    if rs != [] {
      NoFields(rs[1..]);
      assert forall i :: 1 <= i < |rs| ==> rs[i] == rs[1..][i - 1];
    }
  }

  lemma {:induction false} FewFieldsTold(rs: seq<Record>, ss: seq<Record>)
    requires AllInRange(rs) && AllInRange(ss) && AllPlainKeys(rs) && FieldCount(rs) <= 1
    requires MoreRecords(rs) + "]" == MoreRecords(ss) + "]"
    ensures rs == ss
  {
    hide JsonRecord, InRange, PlainKeys, MoreRecords, Clear, Ends;
    MoreRecordsHead(rs);
    MoreRecordsHead(ss);
    if rs == [] || ss == [] {
      assert rs == ss == [];
    } else {
      var x, y := MoreRecords(rs[1..]) + "]", MoreRecords(ss[1..]) + "]";
      MoreSplit(rs);
      MoreSplit(ss);
      Cancel(",", JsonRecord(rs[0]) + x, JsonRecord(ss[0]) + y);
      if rs[0].fields == [] {
        EmptyPrefix(rs[0], ss[0], x, y);
      } else {
        NoFields(rs[1..]);
        RestClear(rs[1..]);
        RestEnds(rs[1..]);
        SinglePrefix(rs[0], ss[0], x, y);
      }
      FewFieldsTold(rs[1..], ss[1..]);
      assert rs == [rs[0]] + rs[1..] && ss == [ss[0]] + ss[1..];
    }
  }

  // ----- two fields: another stream has this JSON -----

  /** Fields of one record, everything after them, and fields of a later record make one raw key. */
  lemma MergeAcross(k: string, v: string, between: string, key: string, w: string, z: string)
    ensures Member(k + "\":\"" + JsonEscape(v) + "\"" + between + "\"" + key, w) + z
            == Member(k, v) + (between + (Member(key, w) + z))
  {
    hide JsonEscape;
  }

  ghost predicate EndsWith(t: string, s: string) { exists p: string :: t == p + s }

  lemma EndsTrans(t: string, p: string, s: string, u: string)
    requires t == p + s && EndsWith(s, u)
    ensures EndsWith(t, u)
  {
    var q: string :| s == q + u;
    assert t == (p + q) + u;
  }

  lemma EndsSelf(t: string)
    ensures EndsWith(t, t)
  {
    assert t == "" + t;
  }

  lemma RecordEndsWithFields(r: Record, x: string)
    requires InRange(r)
    ensures EndsWith(JsonRecord(r) + x, FromFields(r, x))
  {
    hide EndsWith, FromFields, Decimal, JsonEscape, KindName, SeqWord, JsonRecord;
    var f := FromFields(r, x);
    EndsSelf(f);
    EndsTrans(FromTime(r, x), Decimal(r.timestamp) + ",\"fields\":{", f, f);
    EndsTrans(FromPhase(r, x), JsonEscape(r.phase) + "\"" + ",\"timestamp_ns\":", FromTime(r, x), f);
    EndsTrans(FromKind(r, x), JsonEscape(KindName(r.kind)) + "\"" + ",\"phase\":\"", FromPhase(r, x), f);
    EndsTrans(FromSeq(r, x), Decimal(SeqWord(r.seqNo)) + ",\"kind\":\"", FromKind(r, x), f);
    EndsTrans(FromId(r, x), Decimal(r.id) + ",\"seq\":", FromSeq(r, x), f);
    RecordFromId(r, x);
    EndsTrans(JsonRecord(r) + x, "{\"id\":", FromId(r, x), f);
  }

  lemma SameFront(r: Record, m: Record, x: string, y: string)
    requires InRange(r) && InRange(m) && m == r.(fields := m.fields, payload := m.payload)
    requires FromFields(r, x) == FromFields(m, y)
    ensures JsonRecord(r) + x == JsonRecord(m) + y
  {
    hide FromFields, Decimal, JsonEscape, KindName, SeqWord, JsonRecord;
    RecordFromId(r, x);
    RecordFromId(m, y);
  }

  /** Two records with fields, and what stands between them, read as one record. */
  lemma Swallow(r: Record, s: Record, between: string, z: string) returns (m: Record)
    requires InRange(r) && InRange(s) && r.fields != [] && s.fields != []
    ensures InRange(m) && JsonRecord(m) + z == JsonRecord(r) + (between + (JsonRecord(s) + z))
  {
    hide JsonRecord, InRange, Members, Member, MergedKey, JsonEscape;
    RecordEndsWithFields(s, z);
    var p: string :| JsonRecord(s) + z == p + FromFields(s, z);
    var k, v := MergedKey(r.fields), r.fields[|r.fields| - 1].1;
    var key, w := MergedKey(s.fields), s.fields[|s.fields| - 1].1;
    var gap := "}" + (",\"payload\":\"" + (JsonEscape(r.payload) + "\"" + "}")) + between + p;
    m := r.(fields := [(k + "\":\"" + JsonEscape(v) + "\"" + gap + "\"" + key, w)], payload := s.payload);
    OneFieldInRange(r, m);
    MergedLooksSame(r.fields);
    MergedLooksSame(s.fields);
    OneMember(k, v);
    OneMember(key, w);
    OneMember(m.fields[0].0, w);
    var end := "}" + (",\"payload\":\"" + FromPayload(s, z));
    MergeAcross(k, v, gap, key, w, end);
    var x := between + (p + FromFields(s, z));
    assert FromFields(m, z) == Member(m.fields[0].0, w) + end;
    assert FromFields(s, z) == Member(key, w) + end;
    GapIs(r, k, v, between, p, FromFields(s, z));
    SameFront(r, m, x, z);
  }

  lemma GapIs(r: Record, k: string, v: string, between: string, p: string, t: string)
    requires Members(r.fields) == Member(k, v)
    ensures FromFields(r, between + (p + t)) ==
            Member(k, v) + ("}" + (",\"payload\":\"" + (JsonEscape(r.payload) + "\"" + "}")) + between + p + t)
  {
    hide Member, Members, JsonEscape;
    var e := JsonEscape(r.payload) + "\"" + "}";
    assert FromPayload(r, between + (p + t)) == e + (between + (p + t));
    assert Member(k, v) + "}" + (",\"payload\":\"" + (e + (between + (p + t))))
        == Member(k, v) + ("}" + (",\"payload\":\"" + e) + between + p + t);
  }

  lemma OneFieldInRange(r: Record, m: Record)
    requires InRange(r) && m == r.(fields := m.fields, payload := m.payload) && |m.fields| == 1
    ensures InRange(m)
  {
  }

  lemma {:induction false} MoreConcat(a: seq<Record>, b: seq<Record>)
    requires AllInRange(a) && AllInRange(b)
    ensures AllInRange(a + b) && MoreRecords(a + b) == MoreRecords(a) + MoreRecords(b)
  {
    hide JsonRecord, InRange;
    if a == [] {
      assert a + b == b;
    } else {
      MoreConcat(a[1..], b);
      assert (a + b)[1..] == a[1..] + b;
    }
  }

  lemma MoreFrom(rs: seq<Record>, i: nat)
    requires AllInRange(rs) && i < |rs|
    ensures MoreRecords(rs) + "]" == MoreRecords(rs[..i]) + ("," + (JsonRecord(rs[i]) + (MoreRecords(rs[i + 1..]) + "]")))
  {
    hide JsonRecord, InRange, MoreRecords;
    assert rs == rs[..i] + rs[i..] && rs[i..][1..] == rs[i + 1..];
    MoreConcat(rs[..i], rs[i..]);
    MoreSplit(rs[i..]);
    assert MoreRecords(rs) + "]" == MoreRecords(rs[..i]) + (MoreRecords(rs[i..]) + "]");
  }

  /** Two records with fields make room for a shorter stream of the same JSON. */
  lemma TwoHoldersCollide(rs: seq<Record>, i: nat, j: nat) returns (ss: seq<Record>)
    requires AllInRange(rs) && i < j < |rs| && rs[i].fields != [] && rs[j].fields != []
    ensures AllInRange(ss) && |ss| < |rs| && SerializeJson(ss) == SerializeJson(rs)
  {
    hide JsonRecord, InRange, MoreRecords, SerializeJson;
    var z := MoreRecords(rs[j + 1..]) + "]";
    var between := MoreRecords(rs[i + 1..j]) + ",";
    var m := Swallow(rs[i], rs[j], between, z);
    ss := rs[..i] + [m] + rs[j + 1..];
    assert ss[..i] == rs[..i] && ss[i] == m && ss[i + 1..] == rs[j + 1..];
    MoreFrom(rs, i);
    MoreFrom(rs[i + 1..], j - i - 1);
    assert rs[i + 1..][..j - i - 1] == rs[i + 1..j] && rs[i + 1..][j - i - 1] == rs[j];
    assert rs[i + 1..][j - i..] == rs[j + 1..];
    assert MoreRecords(rs[i + 1..]) + "]" == between + (JsonRecord(rs[j]) + z);
    MoreFrom(ss, i);
    JsonIsMore(rs, ss);
  }

  lemma {:induction false} Holder(rs: seq<Record>) returns (i: nat)
    requires FieldCount(rs) >= 1
    ensures i < |rs| && rs[i].fields != []
  {
    i := 0;
    if rs[0].fields == [] {
      i := Holder(rs[1..]);
      i := i + 1;
    }
  }

  /** Two fields are in one record or in two. */
  lemma {:induction false} Holders(rs: seq<Record>) returns (i: nat, j: nat)
    requires FieldCount(rs) >= 2
    ensures i <= j < |rs| && rs[i].fields != [] && rs[j].fields != [] && (i == j ==> |rs[i].fields| >= 2)
  {
    i, j := 0, 0;
    if rs[0].fields == [] {
      i, j := Holders(rs[1..]);
      i, j := i + 1, j + 1;
    } else if |rs[0].fields| == 1 {
      j := Holder(rs[1..]);
      j := j + 1;
    }
  }

  lemma ManyFieldsCollide(rs: seq<Record>) returns (ss: seq<Record>)
    requires AllInRange(rs) && FieldCount(rs) >= 2
    ensures AllInRange(ss) && ss != rs && SerializeJson(ss) == SerializeJson(rs)
  {
    hide InRange, SerializeJson, FieldCount, MergedKey;
    var i, j := Holders(rs);
    if i == j {
      JsonCollides(rs, i);
      ss := rs[i := rs[i].(fields := MergedFields(rs[i].fields))];
    } else {
      ss := TwoHoldersCollide(rs, i, j);
    }
  }

  /** Among all streams, the JSON of a stream without quotes in its keys tells it exactly when it has
      at most one field altogether. */
  lemma ToldExactly(rs: seq<Record>)
    requires AllInRange(rs) && AllPlainKeys(rs)
    ensures Told(rs) <==> FieldCount(rs) <= 1
  {
    hide InRange, SerializeJson, FieldCount, PlainKeys, MoreRecords;
    if FieldCount(rs) <= 1 {
      forall ss | AllInRange(ss) && SerializeJson(ss) == SerializeJson(rs) ensures ss == rs {
        JsonIsMore(rs, ss);
        FewFieldsTold(rs, ss);
      }
    } else {
      var ss := ManyFieldsCollide(rs);
    }
  }
}
