/** Exactly which evidence streams survive being written as text and read again. */
module EvidenceRoundTrip {
  import opened Words
  import opened Text
  import opened Escape
  import opened Evidence

  // ----- reading back what was written -----

  /** Values and payloads may hold any backslash here; keys and phases may not. */
  predicate Legible(r: Record) {
    && PhaseOk(r.phase) && '\n' !in r.phase
    && (forall i :: 0 <= i < |r.fields| ==> KeyOk(r.fields[i].0) && Separable(r.fields[i].1))
    && '|' !in r.payload && !BlankEnd(r.payload)
  }

  predicate Separable(v: string) { '|' !in v && ',' !in v }

  function ReadField(f: (string, string)): (string, string) { (f.0, Unesc(Esc(f.1))) }

  function ReadFields(fs: Fields): (r: Fields)
    ensures |r| == |fs|
  {
    seq(|fs|, i requires 0 <= i < |fs| => ReadField(fs[i]))
  }

  /** The record that comes back for a legible one. */
  function ReadBack(r: Record): Record {
    r.(timestamp := 0, fields := ReadFields(r.fields), payload := Unesc(Esc(r.payload)))
  }

  function ReadBackAll(rs: seq<Record>): (s: seq<Record>)
    ensures |s| == |rs|
  {
    seq(|rs|, i requires 0 <= i < |rs| => ReadBack(rs[i]))
  }

  lemma ItemReads(f: (string, string))
    requires KeyOk(f.0)
    ensures ParseItem(Item(f)) == Some(ReadField(f))
  {
    hide Esc, Unesc;
    EscMembers(f.0, '=');
    IndexOfConcat(Esc(f.0), '=', Esc(f.1));
    EscUndone(f.0);
  }

  lemma ItemSeparable(f: (string, string))
    requires KeyOk(f.0) && Separable(f.1)
    ensures ',' !in Item(f) && '|' !in Item(f) && '\n' !in Item(f) && Item(f) != ""
  {
    hide Esc;
    ItemHas(f, ',');
    ItemHas(f, '|');
    ItemHas(f, '\n');
  }

  lemma ItemHas(f: (string, string), c: char)
    requires c != '='
    ensures c == ',' || c == '|' ==> (c in Item(f) <==> c in f.0 || c in f.1)
    ensures c == '\n' ==> c !in Item(f)
  {
    hide Esc;
    EscMembers(f.0, c);
    EscMembers(f.1, c);
    InConcat(Esc(f.0) + "=", Esc(f.1), c);
    InConcat(Esc(f.0), "=", c);
  }

  predicate FieldsLegible(fs: Fields) {
    forall i :: 0 <= i < |fs| ==> KeyOk(fs[i].0) && Separable(fs[i].1)
  }

  lemma {:induction false} ItemsRead(fs: Fields, n: nat)
    requires n <= |fs| && Sorted(fs) && FieldsLegible(fs)
    ensures ParseItems(Items(fs)[..n]) == Some(ReadFields(fs)[..n])
  {
    hide Item, ReadField, ParseItem, ParseItems, Put, Less;
    if n == 0 {
      NoItems();
    } else {
      var m := n - 1;
      ItemsRead(fs, m);
      var items, before := Items(fs)[..n], ReadFields(fs)[..m];
      assert items[..m] == Items(fs)[..m] && items[m] == Item(fs[m]);
      ItemReads(fs[m]);
      KeysKept(fs);
      ParseItemsSnoc(items, before, ReadField(fs[m]));
      PutLast(before, fs[m].0, ReadField(fs[m]).1);
      assert ReadFields(fs)[..n] == before + [ReadFields(fs)[m]];
    }
  }

  lemma ParseItemsSnoc(items: seq<string>, before: Fields, f: (string, string))
    requires items != [] && ParseItems(items[..|items| - 1]) == Some(before)
    requires ParseItem(items[|items| - 1]) == Some(f)
    ensures ParseItems(items) == Some(Put(before, f.0, f.1))
  {
  }

  lemma KeysKept(fs: Fields)
    ensures forall i :: 0 <= i < |fs| ==> ReadFields(fs)[i] == ReadField(fs[i]) && ReadField(fs[i]).0 == fs[i].0
  {
  }

  lemma FieldsRead(fs: Fields)
    requires Sorted(fs) && FieldsLegible(fs)
    ensures ParseFields(FieldsText(fs)) == Some(ReadFields(fs))
  {
    hide Item, ParseItem;
    var items := Items(fs);
    if fs == [] {
      assert items == [];
    } else {
      forall i | 0 <= i < |items| ensures ',' !in items[i] { ItemSeparable(fs[i]); }
      ItemSeparable(fs[0]);
      JoinNonEmpty(items, ',');
      SplitJoin(items, ',');
      ItemsRead(fs, |fs|);
      assert items[..|fs|] == items && ReadFields(fs)[..|fs|] == ReadFields(fs);
    }
  }

  lemma JoinNonEmpty(parts: seq<string>, d: char)
    requires parts != [] && parts[0] != ""
    ensures Join(parts, d) != ""
  {
  }

  lemma FieldsTextHas(fs: Fields, c: char)
    requires c == '|' || c == '\n'
    ensures c == '\n' ==> c !in FieldsText(fs)
    ensures c == '|' && FieldsLegible(fs) ==> c !in FieldsText(fs)
  {
    hide Item;
    InJoin(Items(fs), ',', c);
    if c in FieldsText(fs) {
      var i :| 0 <= i < |Items(fs)| && c in Items(fs)[i];
      ItemHas(fs[i], c);
    }
  }

  lemma HexHas(v: nat, c: char)
    requires Nibble(c) < 0
    ensures c !in ToHex(v)
  {
  }

  /** A legible line is one line, ends in a solid character and splits into its five parts. */
  lemma PartsSeparate(r: Record)
    requires InRange(r) && Legible(r)
    ensures Split(ToText(r), '|') == Parts(r)
  {
    hide Esc, KindName, FieldsText, Join, Split, ToHex, HexFixed;
    KindReads(r.kind);
    HexHas(SeqWord(r.seqNo), '|');
    FieldsTextHas(r.fields, '|');
    EscMembers(r.payload, '|');
    SplitJoin(Parts(r), '|');
  }

  lemma LineOneLine(r: Record)
    requires InRange(r) && '\n' !in r.phase
    ensures '\n' !in Line(r)
  {
    hide Esc, KindName, FieldsText, Join, ToHex;
    KindReads(r.kind);
    HexHas(SeqWord(r.seqNo), '\n');
    HexHas(r.id, '\n');
    FieldsTextHas(r.fields, '\n');
    EscMembers(r.payload, '\n');
    InJoin(Parts(r), '|', '\n');
    InConcat(ToHex(r.id) + ":", ToText(r), '\n');
    InConcat(ToHex(r.id), ":", '\n');
  }

  /** Everything of a line before its phase. */
  function Head(r: Record): string
    requires InRange(r)
  {
    ToHex(r.id) + ":" + ToHex(SeqWord(r.seqNo)) + "|" + KindName(r.kind) + "|"
  }

  lemma LineShape(r: Record)
    requires InRange(r)
    ensures Line(r) == Head(r) + r.phase + "|" + FieldsText(r.fields) + "|" + Esc(r.payload)
  {
    hide ToHex, KindName, FieldsText, Esc, ToText;
    TextShape(r);
  }

  lemma HeadSolid(r: Record)
    requires InRange(r)
    ensures Head(r) != "" && !IsSpace(Head(r)[0]) && !IsSpace(Head(r)[|Head(r)| - 1])
  {
    hide KindName;
    var h := ToHex(r.id);
    assert Head(r)[0] == h[0] && Nibble(h[0]) >= 0;
  }

  lemma LineSolid(r: Record)
    requires InRange(r) && !BlankEnd(r.payload)
    ensures Trim(Line(r)) == Line(r) && Line(r) != ""
  {
    hide Esc, KindName, FieldsText, Line;
    var front := Head(r) + r.phase + "|" + FieldsText(r.fields) + "|";
    LineShape(r);
    HeadSolid(r);
    assert front[0] == Head(r)[0];
    EscEnd(r.payload);
    EscHead(r.payload);
    TrimAfter(front, Esc(r.payload));
    NoTrim(Esc(r.payload));
  }

  lemma NoTrim(s: string)
    requires s != "" ==> !IsSpace(s[|s| - 1])
    ensures TrimEnd(s) == s
  {
  }

  lemma SeqReads(n: int)
    requires -0x8000_0000_0000_0000 <= n < 0x8000_0000_0000_0000
    ensures SeqWord(n) < U64 && WordSeq(SeqWord(n)) == n
  {
  }

  lemma LineReads(r: Record)
    requires InRange(r) && Legible(r)
    ensures ParseLine(Line(r)) == Some(ReadBack(r))
  {
    hide Esc, Unesc, KindName, FieldsText, ToText, ToHex, FromHex, Split, ParseFields, KindNamed;
    HexHas(r.id, ':');
    IndexOfConcat(ToHex(r.id), ':', ToText(r));
    HexRoundTrip(r.id);
    PartsSeparate(r);
    SeqReads(r.seqNo);
    HexRoundTrip(SeqWord(r.seqNo));
    KindReads(r.kind);
    FieldsRead(r.fields);
    PhaseReads(r.phase);
  }

  lemma PhaseReads(p: string)
    requires PhaseOk(p)
    ensures Unesc(p) == p
  {
    PlainUnesc(p);
  }

  lemma {:induction false} PlainUnesc(p: string)
    requires '|' !in p && Clean(p)
    ensures Unesc(p) == p
  {
    if p != "" {
      var rest := p[1..];
      assert p == [p[0]] + rest;
      CleanCons(p[0], rest);
      PlainUnesc(rest);
      assert |p| > 1 ==> p[1] == rest[0] && p[1] in p;
    }
  }

  // ----- one line at a time -----

  lemma FirstLine(line: string, rest: string)
    requires '\n' !in line && Trim(line) != ""
    ensures ParseText(line + "\n" + rest) == Prepend(ParseLine(Trim(line)), ParseText(rest))
  {
    hide Trim, ParseLine;
    IndexOfConcat(line, '\n', rest);
  }

  /** A legible stream is read back record by record. */
  lemma {:induction false} StreamReads(rs: seq<Record>)
    requires AllInRange(rs) && forall i :: 0 <= i < |rs| ==> Legible(rs[i])
    ensures ParseText(Serialize(rs)) == Some(ReadBackAll(rs))
  {
    hide Line, ParseLine, Trim, ParseText, ReadBack, Serialize, Legible, InRange;
    if rs == [] {
      NoLines();
    } else {
      SerializeCons(rs);
      StreamReads(rs[1..]);
      LegibleParts(rs[0]);
      LineOneLine(rs[0]);
      LineSolid(rs[0]);
      FirstLine(Line(rs[0]), Serialize(rs[1..]));
      LineReads(rs[0]);
      assert ReadBackAll(rs) == [ReadBack(rs[0])] + ReadBackAll(rs[1..]);
    }
  }

  lemma LegibleParts(r: Record)
    requires Legible(r)
    ensures '\n' !in r.phase && !BlankEnd(r.payload)
  {
  }

  lemma NoLines()
    ensures ParseText("") == Some([]) && Serialize([]) == ""
  {
  }

  // ----- what every parsed record satisfies -----

  lemma ItemReadable(item: string)
    requires '|' !in item && ',' !in item && ParseItem(item).Some?
    ensures KeyOk(ParseItem(item).value.0) && ValueOk(ParseItem(item).value.1)
  {
    hide Unesc;
    var eq := IndexOf(item, '=');
    var k, v := item[..eq], item[eq + 1..];
    UnescClean(k);
    UnescClean(v);
    UnescLacks(k, '|');
    UnescLacks(k, ',');
    UnescLacks(k, '=');
    UnescLacks(v, '|');
    UnescLacks(v, ',');
  }

  lemma UnescLacks(x: string, c: char)
    requires c != '\n' && c != '\r' && c !in x
    ensures c !in Unesc(x)
  {
    if c in Unesc(x) { UnescMembers(x, c); }
  }

  predicate PairOk(p: (string, string)) { KeyOk(p.0) && ValueOk(p.1) }

  lemma {:induction false} ItemsReadable(items: seq<string>)
    requires FreeOf(items, ',') && FreeOf(items, '|') && ParseItems(items).Some?
    ensures forall p :: p in ParseItems(items).value ==> PairOk(p)
  {
    if items != [] {
      hide ParseItem, Put, KeyOk, ValueOk;
      var n := |items| - 1;
      ItemsReadable(items[..n]);
      ItemReadable(items[n]);
      var f := ParseItem(items[n]).value;
      assert PairOk(f);
      PutFrom(ParseItems(items[..n]).value, f.0, f.1);
    }
  }

  lemma PutFrom(fs: Fields, k: string, v: string)
    ensures forall p :: p in Put(fs, k, v) ==> p in fs || p == (k, v)
  {
  }

  lemma FieldsReadable(s: string)
    requires '|' !in s && ParseFields(s).Some?
    ensures FieldsOk(ParseFields(s).value)
  {
    hide ParseItems, Split, KeyOk, ValueOk, Join;
    if s != "" {
      var items := Split(s, ',');
      SplitPieces(s, ',');
      InJoin(items, ',', '|');
      ItemsReadable(items);
      var fs := ParseFields(s).value;
      forall i | 0 <= i < |fs| ensures KeyOk(fs[i].0) && ValueOk(fs[i].1) {
        assert fs[i] in fs;
        assert PairOk(fs[i]);
      }
    }
  }

  /** The last piece of a text that does not end in white space does not either. */
  lemma {:induction false} LastPieceEnd(parts: seq<string>, d: char)
    requires parts != [] && (Join(parts, d) != "" ==> !Blank(Join(parts, d)[|Join(parts, d)| - 1]))
    ensures !BlankEnd(parts[|parts| - 1])
  {
    if |parts| > 1 {
      var s, t := Join(parts, d), Join(parts[1..], d);
      assert t != "" ==> s[|s| - 1] == t[|t| - 1];
      LastPieceEnd(parts[1..], d);
    }
  }

  lemma PartsReadable(id: nat, parts: seq<string>)
    requires FreeOf(parts, '|') && |parts| == 5 && !BlankEnd(parts[4]) && ParseParts(id, parts).Some?
    ensures Readable(ParseParts(id, parts).value)
  {
    hide Unesc, ParseFields, FromHex, KindNamed, KeyOk, ValueOk;
    UnescClean(parts[2]);
    UnescLacks(parts[2], '|');
    FieldsReadable(parts[3]);
    UnescClean(parts[4]);
    UnescLacks(parts[4], '|');
    PayloadEnd(parts[4]);
  }

  lemma PayloadEnd(p: string)
    requires !BlankEnd(p)
    ensures !BlankEnd(Unesc(p))
  {
    if p != "" { UnescEnd(p); }
  }

  lemma LineReadable(line: string)
    requires (line != "" ==> !IsSpace(line[|line| - 1])) && ParseLine(line).Some?
    ensures Readable(ParseLine(line).value)
  {
    hide ParseParts, FromHex, Readable, Split, Join;
    var colon := IndexOf(line, ':');
    var rest := line[colon + 1..];
    var parts := Split(rest, '|');
    SplitPieces(rest, '|');
    assert rest != "" ==> rest[|rest| - 1] == line[|line| - 1];
    LastPieceEnd(parts, '|');
    FivePieces(FromHex(line[..colon]).value, parts);
    PartsReadable(FromHex(line[..colon]).value, parts);
  }

  lemma FivePieces(id: nat, parts: seq<string>)
    requires ParseParts(id, parts).Some?
    ensures |parts| == 5
  {
  }

  /** Whatever text is parsed, every record of the result is readable. */
  lemma {:induction false} TextReadable(text: string)
    requires ParseText(text).Some?
    ensures forall i :: 0 <= i < |ParseText(text).value| ==> Readable(ParseText(text).value[i])
    decreases |text|
  {
    hide ParseLine, Readable, Trim, ParseText, Prepend;
    if text == "" {
      NoLines();
    } else {
      var nl := IndexOf(text, '\n');
      var rest := if nl == |text| then "" else text[nl + 1..];
      var line := Trim(text[..nl]);
      ParseTextStep(text);
      TrimSolid(text[..nl]);
      if line == "" {
        TextReadable(rest);
      } else {
        PrependSome(ParseLine(line), ParseText(rest));
        TextReadable(rest);
        LineReadable(line);
      }
    }
  }

  lemma PrependSome(r: Option<Record>, rs: Option<seq<Record>>)
    ensures Prepend(r, rs).Some? <==> r.Some? && rs.Some?
    ensures r.Some? && rs.Some? ==> Prepend(r, rs) == Some([r.value] + rs.value)
  {
  }

  lemma TrimSolid(s: string)
    ensures Trim(s) != "" ==> !IsSpace(Trim(s)[|Trim(s)| - 1])
  {
  }

  // ----- a newline in a phase breaks the record -----

  lemma ThirdPiece(a: string, b: string, t: string)
    requires '|' !in a && '|' !in b
    ensures |Split(a + "|" + b + "|" + t, '|')| >= 3
    ensures |Split(a + "|" + b + "|" + t, '|')[2]| <= |t|
  {
    hide Split;
    assert a + "|" + b + "|" + t == a + "|" + (b + "|" + t);
    SplitHead(a, '|', b + "|" + t);
    SplitHead(b, '|', t);
    FirstPieceShort(t, '|');
  }

  lemma SplitHead(a: string, d: char, rest: string)
    requires d !in a
    ensures Split(a + [d] + rest, d) == [a] + Split(rest, d)
  {
    IndexOfConcat(a, d, rest);
  }

  lemma FirstPieceShort(t: string, d: char)
    ensures |Split(t, d)[0]| <= |t|
  {
  }

  /** A line cut short inside the phase yields, if anything, a shorter phase. */
  lemma CutLine(r: Record, start: string)
    requires InRange(r) && ParseLine(Trim(Head(r) + start)).Some?
    ensures |ParseLine(Trim(Head(r) + start)).value.phase| <= |start|
  {
    hide ToHex, KindName, Split, FromHex, ParseFields, Trim, IsSpace;
    HeadSolid(r);
    TrimAfter(Head(r), start);
    var t := TrimEnd(start);
    var seqHex, name := ToHex(SeqWord(r.seqNo)), KindName(r.kind);
    var body := seqHex + "|" + name + "|" + t;
    assert Head(r) + t == ToHex(r.id) + ":" + body;
    HexHas(r.id, ':');
    IndexOfConcat(ToHex(r.id), ':', body);
    HexHas(SeqWord(r.seqNo), '|');
    KindReads(r.kind);
    ThirdPiece(seqHex, name, t);
  }

  lemma NewlineBreaks(r: Record, rest: string)
    requires InRange(r) && '\n' in r.phase
    ensures var out := ParseText(Line(r) + "\n" + rest);
            out.Some? ==> out.value != [] && |out.value[0].phase| < |r.phase|
  {
    hide Head, FieldsText, Esc, Line, ParseLine, Trim, ParseText, InRange;
    var nl := IndexOf(r.phase, '\n');
    PhaseHasNewline(r.phase);
    var start, tail := r.phase[..nl], r.phase[nl + 1..];
    LineShape(r);
    var after := tail + "|" + FieldsText(r.fields) + "|" + Esc(r.payload) + "\n" + rest;
    assert r.phase == start + "\n" + tail;
    assert Line(r) + "\n" + rest == (Head(r) + start) + "\n" + after;
    HeadOneLine(r, start);
    HeadTrims(r, start);
    FirstLine(Head(r) + start, after);
    PrependSome(ParseLine(Trim(Head(r) + start)), ParseText(after));
    if ParseText(Line(r) + "\n" + rest).Some? { CutLine(r, start); }
  }

  lemma PhaseHasNewline(p: string)
    requires '\n' in p
    ensures IndexOf(p, '\n') < |p| && '\n' !in p[..IndexOf(p, '\n')]
  {
  }

  lemma HeadOneLine(r: Record, start: string)
    requires InRange(r) && '\n' !in start
    ensures '\n' !in Head(r) + start
  {
    hide ToHex, KindName;
    KindReads(r.kind);
    HexHas(SeqWord(r.seqNo), '\n');
    HexHas(r.id, '\n');
  }

  lemma HeadTrims(r: Record, start: string)
    requires InRange(r)
    ensures Trim(Head(r) + start) != ""
  {
    hide Head, Trim;
    HeadSolid(r);
    TrimAfter(Head(r), start);
  }

  // ----- the theorems -----

  lemma SurvivesIsLegible(r: Record)
    requires Survives(r)
    ensures Legible(r) && ReadBack(r) == Untimed(r)
  {
    hide Esc, Unesc;
    EscUndone(r.payload);
    forall i | 0 <= i < |r.fields| ensures ReadFields(r.fields)[i] == r.fields[i] {
      EscUndone(r.fields[i].1);
    }
    assert ReadFields(r.fields) == r.fields;
  }

  /** `parse_text(serialize_text(rs))` gives back `rs` up to timestamps exactly when every record
      survives: bars nowhere, commas in no key or value, equal signs in no key, no backslash before
      n or r, no newline in a phase, no payload ending in a blank. */
  lemma {:induction false} RoundTrip(rs: seq<Record>)
    requires AllInRange(rs)
    ensures ParseText(Serialize(rs)) == Some(UntimedAll(rs)) <==> forall i :: 0 <= i < |rs| ==> Survives(rs[i])
  {
    if forall i :: 0 <= i < |rs| ==> Survives(rs[i]) {
      forall i | 0 <= i < |rs| ensures Legible(rs[i]) && ReadBackAll(rs)[i] == UntimedAll(rs)[i] {
        SurvivesIsLegible(rs[i]);
      }
      StreamReads(rs);
      assert ReadBackAll(rs) == UntimedAll(rs);
    }
    if ParseText(Serialize(rs)) == Some(UntimedAll(rs)) { OnlySurvivors(rs); }
  }

  lemma {:induction false} OnlySurvivors(rs: seq<Record>)
    requires AllInRange(rs) && ParseText(Serialize(rs)) == Some(UntimedAll(rs))
    ensures forall i :: 0 <= i < |rs| ==> Survives(rs[i])
  {
    hide *;
    if rs != [] {
      FirstSurvives(rs);
      OnlySurvivors(rs[1..]);
      assert forall i :: 1 <= i < |rs| ==> rs[i] == rs[1..][i - 1];
    }
  }

  lemma FirstSurvives(rs: seq<Record>)
    requires rs != [] && AllInRange(rs) && ParseText(Serialize(rs)) == Some(UntimedAll(rs))
    ensures AllInRange(rs[1..])
    ensures Survives(rs[0]) && ParseText(Serialize(rs[1..])) == Some(UntimedAll(rs[1..]))
  {
    hide Line, ParseLine, Readable, ParseText, Serialize, Trim, InRange, Prepend;
    var r, rest := rs[0], Serialize(rs[1..]);
    SerializeCons(rs);
    TextReadable(Serialize(rs));
    assert Readable(UntimedAll(rs)[0]);
    ReadableUntimed(r);
    assert UntimedAll(rs)[0].phase == r.phase;
    if '\n' in r.phase {
      NewlineBreaks(r, rest);
    } else {
      LineOneLine(r);
      LineNotBlank(r);
      FirstLine(Line(r), rest);
      PrependSome(ParseLine(Trim(Line(r))), ParseText(rest));
      assert UntimedAll(rs)[1..] == UntimedAll(rs[1..]);
    }
  }

  lemma SerializeCons(rs: seq<Record>)
    requires rs != [] && AllInRange(rs)
    ensures Serialize(rs) == Line(rs[0]) + "\n" + Serialize(rs[1..])
  {
  }

  lemma ReadableUntimed(r: Record)
    ensures Readable(Untimed(r)) == Readable(r)
  {
  }

  lemma LineNotBlank(r: Record)
    requires InRange(r)
    ensures Trim(Line(r)) != ""
  {
    hide Trim, Line, Head, FieldsText, Esc;
    LineShape(r);
    var tail := r.phase + "|" + FieldsText(r.fields) + "|" + Esc(r.payload);
    assert Line(r) == Head(r) + tail;
    HeadTrims(r, tail);
  }

  /** Reading back a legible record does not change its text, whatever its backslashes. */
  lemma TextKept(r: Record)
    requires InRange(r) && Legible(r)
    ensures InRange(ReadBack(r)) && ToText(ReadBack(r)) == ToText(r)
  {
    hide Esc, Unesc;
    EscKept(r.payload);
    KeysKept(r.fields);
    assert Sorted(ReadFields(r.fields));
    forall i | 0 <= i < |r.fields| ensures Items(ReadFields(r.fields))[i] == Items(r.fields)[i] {
      EscKept(r.fields[i].1);
    }
    assert Items(ReadFields(r.fields)) == Items(r.fields);
  }

  lemma EscKept(v: string)
    requires '|' !in v
    ensures Esc(Unesc(Esc(v))) == Esc(v)
  {
    EscMembers(v, '|');
    EscMembers(v, '\n');
    EscMembers(v, '\r');
    UnescUndone(Esc(v));
  }

  /** The text domain is strictly larger than the round-trip domain. */
  lemma LegibleNotSurviving()
    ensures var r := Record(1, MISC, 0, 0, "p", [], "\\n");
            InRange(r) && Legible(r) && !Survives(r)
  {
    assert Ambiguous("\\n"[0], "\\n"[1]);
  }
}
