/** The evidence recorder of src/evidence.cpp: the loops that print, parse and digest a stream. */
module Recorder {
  import opened Bytes
  import opened Text
  import opened Escape
  import opened Evidence
  import Fips180
  import Sha256

  // ----- printing -----

  method ToTextScan(r: Record) returns (out: string)
    requires InRange(r)
    ensures out == ToText(r)
  {
    var number := ToHexScan(SeqWord(r.seqNo));
    hide *;
    out := number + "|" + KindName(r.kind) + "|" + r.phase + "|";
    out := PushFields(out, r.fields);
    var payload := EscScan(r.payload);
    TextShape(r);
    out := out + "|" + payload;
  }

  method PushFields(front: string, fields: Fields) returns (out: string)
    ensures out == front + FieldsText(fields)
  {
    hide *;
    out := front;
    var first := true;
    NoFieldsText();
    assert fields[..0] == [];
    for i := 0 to |fields|
      invariant first == (i == 0)
      invariant out == front + FieldsText(fields[..i])
    {
      if !first { out := out + ","; }
      first := false;
      var key := EscScan(fields[i].0);
      var value := EscScan(fields[i].1);
      FieldsTextSnoc(fields, i);
      ItemIs(fields[i]);
      out := out + (key + "=" + value);
    }
    assert fields[..|fields|] == fields;
  }

  lemma NoFieldsText()
    ensures FieldsText([]) == ""
  {
    assert Items([]) == [];
  }

  lemma ItemIs(f: (string, string))
    ensures Item(f) == Esc(f.0) + "=" + Esc(f.1)
  {
  }

  lemma FieldsTextSnoc(fs: Fields, i: nat)
    requires i < |fs|
    ensures FieldsText(fs[..i + 1]) == if i == 0 then Item(fs[0]) else FieldsText(fs[..i]) + "," + Item(fs[i])
  {
    hide Item, Join;
    JoinSnoc(Items(fs[..i]), Item(fs[i]), ',');
    assert Items(fs[..i + 1]) == Items(fs[..i]) + [Item(fs[i])];
  }

  // ----- parsing -----

  method ParseFieldsScan(s: string) returns (r: Option<Fields>)
    ensures r == ParseFields(s)
  {
    hide *;
    ParseFieldsIs(s);
    if s == "" { return Some([]); }
    var items := SplitScan(s, ',');
    var fs: Fields := [];
    NoItems();
    assert items[..0] == [];
    for i := 0 to |items|
      invariant ParseItems(items[..i]) == Some(fs)
    {
      var eq := IndexOf(items[i], '=');
      ParseItemsStep(items, i);
      if eq == |items[i]| {
        ParseItemsStuck(items, i + 1);
        return None;
      }
      var key := UnescScan(items[i][..eq]);
      var value := UnescScan(items[i][eq + 1..]);
      fs := Put(fs, key, value);
    }
    assert items[..|items|] == items;
    r := Some(fs);
  }

  lemma ParseFieldsIs(s: string)
    ensures ParseFields(s) == if s == "" then Some([]) else ParseItems(Split(s, ','))
  {
  }

  lemma ParseItemsStep(items: seq<string>, i: nat)
    requires i < |items| && ParseItems(items[..i]).Some?
    ensures var eq := IndexOf(items[i], '=');
            ParseItems(items[..i + 1]) ==
            if eq == |items[i]| then None
            else Some(Put(ParseItems(items[..i]).value, Unesc(items[i][..eq]), Unesc(items[i][eq + 1..])))
  {
    hide Unesc, Put;
    assert items[..i + 1][..i] == items[..i];
  }

  lemma {:induction false} ParseItemsStuck(items: seq<string>, i: nat)
    requires i <= |items| && ParseItems(items[..i]).None?
    ensures ParseItems(items).None?
    decreases |items| - i
  {
    hide ParseItem, Put;
    if i < |items| {
      assert items[..i + 1][..i] == items[..i];
      ParseItemsStuck(items, i + 1);
    } else {
      assert items[..i] == items;
    }
  }

  method KindScan(name: string) returns (k: Kind)
    ensures k == KindNamed(name)
  {
    k := MISC;
    for i := 0 to |KINDS|
      invariant k == MISC && KindNamed(name, i) == KindNamed(name)
    {
      hide KindName;
      if name == KindName(KINDS[i]) { return KINDS[i]; }
    }
  }

  method ParseLineScan(line: string) returns (r: Option<Record>)
    ensures r == ParseLine(line)
  {
    hide *;
    var colon := IndexOf(line, ':');
    ParseLineIs(line);
    if colon == |line| { return None; }
    var id := FromHexScan(line[..colon]);
    if id.None? { return None; }
    var parts := SplitScan(line[colon + 1..], '|');
    ParsePartsIs(id.value, parts);
    if |parts| != 5 { return None; }
    var word := FromHexScan(parts[0]);
    if word.None? { return None; }
    var kind := KindScan(parts[1]);
    var phase := UnescScan(parts[2]);
    var fields := ParseFieldsScan(parts[3]);
    if fields.None? { return None; }
    var payload := UnescScan(parts[4]);
    r := Some(Record(id.value, kind, WordSeq(word.value), 0, phase, fields.value, payload));
  }

  lemma ParseLineIs(line: string)
    ensures var colon := IndexOf(line, ':');
            ParseLine(line) ==
            if colon == |line| || FromHex(line[..colon]).None? then None
            else ParseParts(FromHex(line[..colon]).value, Split(line[colon + 1..], '|'))
  {
    hide FromHex, Split, ParseParts;
  }

  lemma ParsePartsIs(id: nat, parts: seq<string>)
    ensures ParseParts(id, parts) ==
            if |parts| != 5 || FromHex(parts[0]).None? || ParseFields(parts[3]).None? then None
            else Some(Record(id, KindNamed(parts[1]), WordSeq(FromHex(parts[0]).value), 0, Unesc(parts[2]),
                             ParseFields(parts[3]).value, Unesc(parts[4])))
  {
    hide FromHex, KindNamed, ParseFields, Unesc;
  }

  /** `goal` once the records of `out` are put before those of `rest`. */
  ghost function After(out: seq<Record>, rest: Option<seq<Record>>): Option<seq<Record>> {
    if rest.None? then None else Some(out + rest.value)
  }

  /** `parse_text`: line after line, stopping at the first malformed one. */
  method ParseTextScan(text: string) returns (r: Option<seq<Record>>)
    ensures r == ParseText(text)
  {
    hide *;
    var out: seq<Record> := [];
    var pos := 0;
    assert text[0..] == text;
    AfterNone(ParseText(text));
    while pos < |text|
      invariant 0 <= pos <= |text|
      invariant After(out, ParseText(text[pos..])) == ParseText(text)
    {
      var nl := pos + IndexOf(text[pos..], '\n');
      var line := TrimScan(text[pos..nl]);
      NextLine(text, pos, nl);
      ghost var rest := ParseText(if nl == |text| then "" else text[nl + 1..]);
      ghost var here := ParseText(text[pos..]);
      if nl == |text| {
        pos := |text|;
        assert text[|text|..] == "";
      } else {
        pos := nl + 1;
      }
      assert rest == ParseText(text[pos..]);
      if line != "" {
        var record := ParseLineScan(line);
        AfterOne(out, record, rest);
        if record.None? { return None; }
        out := out + [record.value];
      }
    }
    assert text[|text|..] == "";
    AfterAll(out);
    r := Some(out);
  }

  lemma NextLine(text: string, pos: nat, nl: nat)
    requires pos < |text| && nl == pos + IndexOf(text[pos..], '\n')
    ensures nl <= |text|
    ensures var rest := ParseText(if nl == |text| then "" else text[nl + 1..]);
            var line := Trim(text[pos..nl]);
            ParseText(text[pos..]) == if line == "" then rest else Prepend(ParseLine(line), rest)
  {
    hide Trim, ParseLine, Prepend, ParseText;
    ParseTextStep(text[pos..]);
    assert text[pos..][..nl - pos] == text[pos..nl];
    if nl < |text| { assert text[pos..][nl - pos + 1..] == text[nl + 1..]; }
  }

  lemma AfterNone(goal: Option<seq<Record>>)
    ensures After([], goal) == goal
  {
    if goal.Some? { assert [] + goal.value == goal.value; }
  }

  lemma AfterOne(out: seq<Record>, record: Option<Record>, rest: Option<seq<Record>>)
    ensures record.None? ==> After(out, Prepend(record, rest)) == None
    ensures record.Some? ==> After(out, Prepend(record, rest)) == After(out + [record.value], rest)
  {
    if record.Some? && rest.Some? {
      assert out + ([record.value] + rest.value) == out + [record.value] + rest.value;
    }
  }

  lemma AfterAll(out: seq<Record>)
    ensures After(out, ParseText("")) == Some(out)
  {
    assert out + [] == out;
  }

  // ----- the digest -----

  /** What the digest is taken over: every record's text and a newline; ids are not included. */
  function StreamText(rs: seq<Record>): string
    requires AllInRange(rs)
  {
    if rs == [] then "" else StreamText(rs[..|rs| - 1]) + ToText(rs[|rs| - 1]) + "\n"
  }

  function StreamDigest(rs: seq<Record>): seq<Byte>
    requires AllInRange(rs)
  {
    Fips180.Sha256(OfString(StreamText(rs)))
  }

  lemma StreamTextSnoc(rs: seq<Record>, i: nat)
    requires AllInRange(rs) && i < |rs|
    ensures AllInRange(rs[..i]) && AllInRange(rs[..i + 1])
    ensures StreamText(rs[..i + 1]) == StreamText(rs[..i]) + ToText(rs[i]) + "\n"
  {
    hide ToText, InRange;
    assert rs[..i + 1][..i] == rs[..i];
  }

  lemma SerializeSnoc(rs: seq<Record>, i: nat)
    requires AllInRange(rs) && i < |rs|
    ensures AllInRange(rs[..i]) && AllInRange(rs[..i + 1])
    ensures Serialize(rs[..i + 1]) == Serialize(rs[..i]) + Line(rs[i]) + "\n"
  {
    hide Line, InRange;
    assert rs[..i + 1] == rs[..i] + [rs[i]];
    SerializeConcat(rs[..i], rs[i]);
  }

  lemma {:induction false} SerializeConcat(rs: seq<Record>, r: Record)
    requires AllInRange(rs) && InRange(r)
    ensures AllInRange(rs + [r])
    ensures Serialize(rs + [r]) == Serialize(rs) + Line(r) + "\n"
  {
    hide Line, InRange;
    if rs == [] {
      assert [r][1..] == [];
      assert Serialize([r]) == Line(r) + "\n";
    } else {
      SerializeConcat(rs[1..], r);
      assert (rs + [r])[1..] == rs[1..] + [r];
    }
  }

  lemma EmptyStream()
    ensures Serialize([]) == "" && StreamText([]) == "" && OfString("") == []
  {
  }

  const SEQ_LIMIT: int := 0x7fff_ffff_ffff_ffff

  class EvidenceRecorder {
    var records: seq<Record>
    var nextSeq: int

    /** Every record is behind the next sequence number. */
    ghost predicate Valid()
      reads this
    {
      && AllInRange(records) && 0 <= nextSeq <= SEQ_LIMIT
      && forall i :: 0 <= i < |records| ==> records[i].seqNo < nextSeq
    }

    constructor ()
      ensures Valid() && records == [] && nextSeq == 0
    {
      records, nextSeq := [], 0;
    }

    method Record(kind: Kind, phase: string, fields: Fields, payload: string) returns (id: nat)
      requires Valid() && nextSeq < SEQ_LIMIT && Sorted(fields)
      modifies this
      ensures Valid() && nextSeq == old(nextSeq) + 1 && id == old(nextSeq) + 1
      ensures records == old(records) + [Evidence.Record(id, kind, old(nextSeq), 0, phase, fields, payload)]
    {
      id := nextSeq + 1;
      var ev := Evidence.Record(id, kind, nextSeq, 0, phase, fields, payload);
      nextSeq := nextSeq + 1;
      records := records + [ev];
    }

    method RecordRaw(ev: Record)
      requires Valid() && InRange(ev) && ev.seqNo < SEQ_LIMIT
      modifies this
      ensures Valid() && records == old(records) + [ev]
      ensures nextSeq >= old(nextSeq) && nextSeq > ev.seqNo
      ensures nextSeq == old(nextSeq) || nextSeq == ev.seqNo + 1
    {
      if ev.seqNo >= nextSeq { nextSeq := ev.seqNo + 1; }
      records := records + [ev];
    }

    method SerializeText() returns (out: string)
      requires Valid()
      ensures out == Serialize(records)
    {
      hide Serialize, ToText, InRange, ToHex;
      out := "";
      EmptyStream();
      assert records[..0] == [];
      for i := 0 to |records|
        invariant AllInRange(records[..i]) && out == Serialize(records[..i])
      {
        SerializeSnoc(records, i);
        var id := ToHexScan(records[i].id);
        var text := ToTextScan(records[i]);
        out := out + (id + ":" + text) + "\n";
      }
      assert records[..|records|] == records;
    }

    /** One hash over the whole stream, fed two updates a record. */
    method Digest() returns (d: seq<Byte>)
      requires Valid()
      ensures d == StreamDigest(records)
    {
      hide StreamText, ToText, InRange, OfString, Fips180.Sha256;
      var h := new Sha256.Hasher();
      EmptyStream();
      assert records[..0] == [];
      for i := 0 to |records|
        invariant h.Valid() && fresh(h) && fresh(h.state) && fresh(h.buffer)
        invariant AllInRange(records[..i]) && h.Consumed() == OfString(StreamText(records[..i]))
      {
        StreamTextSnoc(records, i);
        var text := ToTextScan(records[i]);
        OfStringConcat(StreamText(records[..i]), text);
        OfStringConcat(StreamText(records[..i]) + text, "\n");
        h.Update(OfString(text));
        h.Update(OfString("\n"));
      }
      assert records[..|records|] == records;
      d := h.Finish();
    }
  }
}
