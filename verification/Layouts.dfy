/** The bytes and texts other programs see, spelled out. */
module Layouts {
  import opened Words
  import opened Bytes
  import opened Text
  import opened Escape
  import opened Evidence
  import opened Frames
  import opened Payloads
  import Json
  import Recorder
  import Wire

  // ----- numerals -----

  /** The sixteen digits are `0` to `9` and then `a` to `f`, in the order of their codes. */
  lemma HexDigitsAre(n: nat)
    requires n < 16
    ensures n < 10 ==> HexDigit(n) as int == '0' as int + n
    ensures n >= 10 ==> HexDigit(n) as int == 'a' as int + n - 10
  {
  }

  /** The worth of a digit in either case; nothing else is a digit. */
  lemma NibblesAre(c: char)
    ensures '0' <= c <= '9' ==> Nibble(c) == c as int - 48
    ensures 'a' <= c <= 'f' ==> Nibble(c) == c as int - 87
    ensures 'A' <= c <= 'F' ==> Nibble(c) == c as int - 55
    ensures Nibble(c) >= 0 <==> '0' <= c <= '9' || 'a' <= c <= 'f' || 'A' <= c <= 'F'
  {
  }

  /** Blank, tab, newline, vertical tab, form feed and carriage return. */
  lemma SpacesAre(c: char)
    ensures IsSpace(c) <==> c as int == 32 || 9 <= c as int <= 13
  {
  }

  lemma StoullReadsExactly(n: nat)
    ensures Stoull(Decimal(n)) == if n < U64 then Some(n) else None
  {
    hide Decimal, LeadingDigits, DecimalValue;
    var s := Decimal(n);
    assert IsDigit(s[0]);
    LeadingDigitsOf(s, "");
    assert s + "" == s && s[..|s|] == s;
    DecimalReads(n);
  }

  /** White space before a number and a sign are accepted, a minus wraps, and what follows is ignored. */
  lemma StoullForms(n: nat, rest: string)
    requires n < U64 && StopsNumber(rest)
    ensures Stoull(" " + ("+" + (Decimal(n) + rest))) == Some(n)
    ensures Stoull("-" + (Decimal(n) + rest)) == Some((U64 - n) % U64)
    ensures rest != "" && !IsSpace(rest[0]) && rest[0] != '-' && rest[0] != '+' ==> Stoull(rest) == None
    ensures Stoull("") == None
  {
    hide Decimal, LeadingDigits, DecimalValue;
    var d := Decimal(n) + rest;
    LeadingDigitsOf(Decimal(n), rest);
    assert d[..|Decimal(n)|] == Decimal(n);
    DecimalReads(n);
    assert TrimStart(" " + ("+" + d)) == "+" + d by { OneBlank("+" + d); }
    assert ("+" + d)[1..] == d && ("-" + d)[1..] == d;
    NoDigits(rest);
    NoDigits("");
  }

  lemma OneBlank(s: string)
    requires s != "" && !IsSpace(s[0])
    ensures TrimStart(" " + s) == s
  {
    assert (" " + s)[1..] == s;
  }

  lemma NoDigits(s: string)
    requires StopsNumber(s)
    ensures LeadingDigits(s) == 0
  {
  }

  // ----- frames -----

  function LittleWord(a: Byte, b: Byte, c: Byte, d: Byte): nat {
    a as nat + 0x100 * b as nat + 0x1_0000 * c as nat + 0x100_0000 * d as nat
  }

  /** `OAHC`, the type and the payload length, each least significant byte first, then the payload. */
  lemma FrameOnTheWire(f: Frame)
    requires Fits(f)
    ensures var b := Encode(f);
            && |b| == 12 + |f.payload| && b[..4] == [0x4f, 0x41, 0x48, 0x43] && b[12..] == f.payload
            && LittleWord(b[4], b[5], b[6], b[7]) == f.kind && LittleWord(b[8], b[9], b[10], b[11]) == |f.payload|
  {
    hide Word, LittleEndian, LittleEndianValue;
    var b := Encode(f);
    assert b[0..4] == Word(MAGIC) && b[4..8] == Word(f.kind) && b[8..12] == Word(|f.payload|);
    WordIs(MAGIC);
    WordIs(f.kind);
    WordIs(|f.payload|);
    assert b[4..8][0] == b[4] && b[4..8][1] == b[5] && b[4..8][2] == b[6] && b[4..8][3] == b[7];
    assert b[8..12][0] == b[8] && b[8..12][1] == b[9] && b[8..12][2] == b[10] && b[8..12][3] == b[11];
    FourAre(Word(MAGIC), [0x4f, 0x41, 0x48, 0x43]);
  }

  lemma ValueOfFour(w: seq<Byte>)
    requires |w| == 4
    ensures LittleEndianValue(w) == LittleWord(w[0], w[1], w[2], w[3])
  {
    var x, y := w[1..], w[2..];
    assert x[1..] == y && y[1..] == w[3..] && w[3..][1..] == [];
    assert LittleEndianValue(w[3..]) == w[3] as int;
    assert LittleEndianValue(y) == y[0] as int + 256 * LittleEndianValue(w[3..]);
    assert LittleEndianValue(x) == x[0] as int + 256 * LittleEndianValue(y);
  }

  lemma WordIs(v: nat)
    requires v < U32
    ensures var w := Word(v); LittleWord(w[0], w[1], w[2], w[3]) == v
  {
    hide LittleWord, LittleEndianValue, Word;
    ValueOfFour(Word(v));
    WordReads(v);
  }

  lemma FourAre(u: seq<Byte>, v: seq<Byte>)
    requires |u| == |v| == 4 && LittleWord(u[0], u[1], u[2], u[3]) == LittleWord(v[0], v[1], v[2], v[3])
    ensures u == v
  {
    hide LittleWord, LittleEndianValue, Word;
    ValueOfFour(u);
    ValueOfFour(v);
    WordWrites(u);
    WordWrites(v);
  }

  /** A frame cut short is reported as closed in the header or in the body; 64 MiB is the limit. */
  lemma ReceiveCut(f: Frame, m: nat)
    requires Fits(f) && m < |Encode(f)|
    ensures var r := Wire.Receive(Encode(f)[..m]).0;
            if m < 12 then r == Wire.ClosedInHeader
            else if |f.payload| > 67_108_864 then r == Wire.TooLarge
            else r == Wire.ClosedInBody
  {
    hide DecodeHeader, Header;
    var b := Encode(f)[..m];
    if m >= 12 {
      HeaderReads(f.kind, |f.payload|, []);
      assert b[..HEADER] == Header(f.kind, |f.payload|) + [];
    }
  }

  /** Anything but the magic number at the front is a bad header. */
  lemma ReceiveBad(b: seq<Byte>)
    requires |b| >= 12
    ensures Wire.Receive(b).0 == Wire.BadHeader <==> b[..4] != [0x4f, 0x41, 0x48, 0x43]
  {
    hide LittleEndianValue;
    var h := b[..HEADER];
    assert h[0..4] == b[..4];
    WordIs(MAGIC);
    FourAre(Word(MAGIC), [0x4f, 0x41, 0x48, 0x43]);
    WordReads(MAGIC);
    WordWrites(b[..4]);
  }

  // ----- payloads of the runtime -----

  lemma PayloadsAre(r: Registration, s: Submission, d: Dispatch, c: Completion)
    ensures RegisterText(r) == r.name + "|" + (Decimal(r.id) + "|" + Decimal(r.boot))
    ensures SubmitText(s) == Decimal(s.worker) + "|" + s.work
    ensures DispatchText(d) == Decimal(d.epoch) + "|" + (Decimal(d.attempt) + "|" + (Decimal(d.gen) + "|"
                               + (Decimal(d.dispatch) + "|" + d.work)))
    ensures CompleteText(c) == Decimal(c.epoch) + "|" + (Decimal(c.attempt) + "|" + (Decimal(c.gen) + "|"
                               + (Decimal(c.dispatch) + "|" + (Decimal(c.worker) + "|" + (Decimal(c.boot) + "|" + c.result)))))
  {
    hide Decimal, Join;
    JoinTwo(Decimal(r.id), Decimal(r.boot));
    JoinMore([r.name, Decimal(r.id), Decimal(r.boot)], [Decimal(r.id), Decimal(r.boot)]);
    JoinTwo(Decimal(s.worker), s.work);
    var d4 := [Decimal(d.dispatch), d.work];
    var d3 := [Decimal(d.gen)] + d4;
    var d2 := [Decimal(d.attempt)] + d3;
    JoinTwo(Decimal(d.dispatch), d.work);
    JoinMore(d3, d4);
    JoinMore(d2, d3);
    JoinMore([Decimal(d.epoch), Decimal(d.attempt), Decimal(d.gen), Decimal(d.dispatch), d.work], d2);
    var c6 := [Decimal(c.boot), c.result];
    var c5 := [Decimal(c.worker)] + c6;
    var c4 := [Decimal(c.dispatch)] + c5;
    var c3 := [Decimal(c.gen)] + c4;
    var c2 := [Decimal(c.attempt)] + c3;
    JoinTwo(Decimal(c.boot), c.result);
    JoinMore(c5, c6);
    JoinMore(c4, c5);
    JoinMore(c3, c4);
    JoinMore(c2, c3);
    JoinMore([Decimal(c.epoch), Decimal(c.attempt), Decimal(c.gen), Decimal(c.dispatch),
              Decimal(c.worker), Decimal(c.boot), c.result], c2);
  }

  lemma JoinTwo(a: string, b: string)
    ensures Join([a, b], '|') == a + "|" + b
  {
    assert [a, b][1..] == [b];
    assert Join([b], '|') == b;
  }

  lemma JoinMore(parts: seq<string>, rest: seq<string>)
    requires |parts| >= 2 && parts[1..] == rest
    ensures Join(parts, '|') == parts[0] + "|" + Join(rest, '|')
  {
  }

  // ----- evidence -----

  /** The marks of a newline, a carriage return and a bar. */
  lemma MarksAre()
    ensures Esc("\n") == "\\n" && Esc("\r") == "\\r" && Esc("|") == "\\|"
    ensures Unesc("\\n") == "\n" && Unesc("\\r") == "\r" && Unesc("\\|") == "|"
  {
    hide Esc, Unesc;
    EscNothing();
    EscCons('\n', "");
    EscCons('\r', "");
    EscCons('|', "");
    UnescPair('n', "");
    UnescPair('r', "");
    UnescPair('|', "");
    assert ['\n'] + "" == "\n" && ['\r'] + "" == "\r" && ['|'] + "" == "|";
    assert ['\\', 'n'] + "" == "\\n" && ['\\', 'r'] + "" == "\\r" && ['\\', '|'] + "" == "\\|";
  }

  lemma EscNothing()
    ensures Esc("") == "" && Unesc("") == ""
  {
  }

  /** One line of the text form, for a record of two fields. */
  lemma LineIs(r: Record, k: string, u: string, l: string, v: string)
    requires InRange(r) && r.fields == [(k, u), (l, v)]
    ensures Serialize([r]) ==
            ToHex(r.id) + ":"
            + (ToHex(if r.seqNo < 0 then r.seqNo + U64 else r.seqNo) + "|" + KindName(r.kind) + "|" + r.phase + "|"
               + (Esc(k) + "=" + Esc(u) + "," + (Esc(l) + "=" + Esc(v))) + "|" + Esc(r.payload)) + "\n"
    ensures Recorder.StreamText([r]) == ToText(r) + "\n"
  {
    hide ToHex, KindName, Esc, FieldsText, ToText;
    TextShape(r);
    TwoFields(k, u, l, v);
    OneLine(r);
  }

  lemma OneLine(r: Record)
    requires InRange(r)
    ensures Serialize([r]) == ToHex(r.id) + ":" + ToText(r) + "\n"
    ensures Recorder.StreamText([r]) == ToText(r) + "\n"
  {
    hide ToHex, ToText, InRange;
    assert [r][1..] == [] && [r][..0] == [];
    Recorder.EmptyStream();
    assert "" + ToText(r) == ToText(r);
  }

  lemma TwoFields(k: string, u: string, l: string, v: string)
    ensures FieldsText([(k, u), (l, v)]) == Esc(k) + "=" + Esc(u) + "," + (Esc(l) + "=" + Esc(v))
    ensures FieldsText([]) == ""
  {
    hide Esc, Join;
    var fs := [(k, u), (l, v)];
    assert Items(fs) == [Item(fs[0]), Item(fs[1])] && Items([]) == [];
    JoinCommas(Item(fs[0]), Item(fs[1]));
  }

  lemma JoinCommas(a: string, b: string)
    ensures Join([a, b], ',') == a + "," + b && Join([], ',') == ""
  {
    assert [a, b][1..] == [b];
    assert Join([b], ',') == b;
  }

  /** The byte-wise order of the fields: at the first difference the smaller byte, or the end, comes first. */
  lemma {:induction false} FirstDifference(a: string, b: string, i: nat)
    requires i <= |a| && i <= |b| && a[..i] == b[..i]
    ensures i == |a| < |b| ==> Less(a, b) && !Less(b, a)
    ensures i < |a| && i < |b| && a[i] < b[i] ==> Less(a, b) && !Less(b, a)
  {
    if i > 0 {
      assert a[0] == a[..i][0] == b[..i][0] == b[0];
      assert a[1..][..i - 1] == a[..i][1..] && b[1..][..i - 1] == b[..i][1..];
      FirstDifference(a[1..], b[1..], i - 1);
    }
  }

  /** The JSON form of a stream of one record with two fields. */
  lemma JsonIs(r: Record, k: string, u: string, l: string, v: string)
    requires InRange(r) && r.fields == [(k, u), (l, v)]
    ensures var number := Decimal(if r.seqNo < 0 then r.seqNo + U64 else r.seqNo);
            var payload := ",\"payload\":\"" + (Json.JsonEscape(r.payload) + "\"" + "}");
            var fields := "\"" + k + "\":\"" + Json.JsonEscape(u) + "\""
                          + ("," + ("\"" + l + "\":\"" + Json.JsonEscape(v) + "\"")) + "}" + payload;
            var time := Decimal(r.timestamp) + ",\"fields\":{" + fields;
            var phase := Json.JsonEscape(r.phase) + "\"" + ",\"timestamp_ns\":" + time;
            var kind := Json.JsonEscape(KindName(r.kind)) + "\"" + ",\"phase\":\"" + phase;
            Json.SerializeJson([r]) ==
            "[" + ("{\"id\":" + (Decimal(r.id) + ",\"seq\":" + (number + ",\"kind\":\"" + kind))) + "]"
  {
    hide Decimal, Json.JsonEscape, KindName, Json.Members;
    assert [r][1..] == [];
    Json.NoRecords();
    JsonTwo(k, u, l, v);
    var j := Json.JsonRecord(r);
    assert j + "" == j;
    assert Json.FromPayload(r, "") == Json.JsonEscape(r.payload) + "\"" + "}";
    assert Json.SerializeJson([r]) == "[" + j + "]";
    assert SeqWord(r.seqNo) == if r.seqNo < 0 then r.seqNo + U64 else r.seqNo;
  }

  lemma JsonTwo(k: string, u: string, l: string, v: string)
    ensures Json.Members([(k, u), (l, v)]) ==
            "\"" + k + "\":\"" + Json.JsonEscape(u) + "\"" + ("," + ("\"" + l + "\":\"" + Json.JsonEscape(v) + "\""))
  {
    hide Json.JsonEscape;
    var fs := [(k, u), (l, v)];
    var more := fs[1..];
    assert more == [(l, v)] && more[1..] == [];
    Json.NoMembers();
    var m := Json.Member(l, v);
    assert Json.MoreMembers(more) == "," + m + "" == "," + m;
  }
}
