/** Which texts are accepted and what they are read as, told from the characters alone. */
module Acceptance {
  import opened Words
  import opened Text
  import opened Evidence
  import opened Payloads

  // ----- pieces and blanks -----

  function CountOf(s: string, d: char): nat { multiset(s)[d] }

  /** Every delimiter makes one more piece. */
  lemma {:induction false} SplitCount(s: string, d: char)
    ensures |Split(s, d)| == 1 + CountOf(s, d)
    decreases |s|
  {
    var i := IndexOf(s, d);
    if i < |s| {
      SplitCount(s[i + 1..], d);
      assert s == s[..i] + [d] + s[i + 1..];
      assert multiset(s)[d] == multiset(s[..i])[d] + 1 + multiset(s[i + 1..])[d];
    }
  }

  predicate AllBlank(s: string) { forall i :: 0 <= i < |s| ==> IsSpace(s[i]) }

  /** Trimming takes white space off both ends and stops at the first other character from each. */
  lemma {:induction false} TrimMiddle(s: string) returns (a: string, b: string)
    ensures s == a + Trim(s) + b && AllBlank(a) && AllBlank(b)
    ensures Trim(s) != "" ==> !IsSpace(Trim(s)[0]) && !IsSpace(Trim(s)[|Trim(s)| - 1])
  {
    a := StartBlank(s);
    var t := TrimStart(s);
    b := t[|TrimEnd(t)|..];
    assert t == TrimEnd(t) + b;
    assert s == a + (TrimEnd(t) + b);
    if Trim(s) != "" { assert Trim(s)[0] == t[0]; }
  }

  lemma {:induction false} StartBlank(s: string) returns (a: string)
    ensures s == a + TrimStart(s) && AllBlank(a)
    ensures TrimStart(s) != "" ==> !IsSpace(TrimStart(s)[0])
  {
    if s != "" && IsSpace(s[0]) {
      var front := StartBlank(s[1..]);
      a := [s[0]] + front;
    } else {
      a := "";
    }
  }

  // ----- hexadecimal numbers -----

  predicate HexText(s: string) { s != "" && forall i :: 0 <= i < |s| ==> Nibble(s[i]) >= 0 }

  /** The number a text of digits stands for, of whatever size. */
  function HexNumber(s: string): nat {
    if s == "" then 0 else 16 * HexNumber(s[..|s| - 1]) + if Nibble(s[|s| - 1]) >= 0 then Nibble(s[|s| - 1]) else 0
  }

  lemma {:induction false} FoldIs(s: string)
    ensures HexFold(s, 0).Some? ==> HexFold(s, 0).value < U64
    ensures HexFold(s, 0) == if s == "" || HexText(s) then Some(HexNumber(s) % U64) else None
  {
    if s != "" {
      hide HexFold, HexNumber, Nibble, HexText;
      var front, c := s[..|s| - 1], s[|s| - 1];
      assert s == front + [c];
      HexSnoc(s);
      FoldIs(front);
      HexFoldSnoc(front, c, 0);
      NumberSnoc(s);
      ShiftIn(HexNumber(front), Nibble(c));
    } else {
      NoFold();
    }
  }

  lemma HexSnoc(s: string)
    requires s != ""
    ensures HexText(s) <==> (|s| == 1 || HexText(s[..|s| - 1])) && Nibble(s[|s| - 1]) >= 0
  {
    hide Nibble;
  }

  lemma NoFold()
    ensures HexFold("", 0) == Some(0) && HexNumber("") == 0
  {
  }

  lemma NumberSnoc(s: string)
    requires s != ""
    ensures HexNumber(s) == 16 * HexNumber(s[..|s| - 1]) + if Nibble(s[|s| - 1]) >= 0 then Nibble(s[|s| - 1]) else 0
  {
  }

  lemma ShiftIn(x: nat, n: int)
    ensures 0 <= n < 16 ==> (x % U64) * 16 % U64 + n == (16 * x + n) % U64
  {
    if 0 <= n < 16 {
      var q, r := x / U64, x % U64;
      ShiftRoom(r);
      var p := r * 16 / U64;
      assert 16 * x + n == (16 * q + p) * U64 + (r * 16 % U64 + n);
      assert r * 16 % U64 + n < U64;
      Remainder(16 * q + p, r * 16 % U64 + n);
    }
  }

  lemma Remainder(q: nat, r: nat)
    requires r < U64
    ensures (q * U64 + r) % U64 == r
  {
    WrapMultiple(r, q);
  }

  /** A hexadecimal number is accepted when it is all digits and not empty, in either case, and is taken
      modulo 2^64 when it is longer than sixteen digits. */
  lemma HexAccepted(s: string)
    ensures FromHex(s) == if HexText(s) then Some(HexNumber(s) % U64) else None
  {
    hide HexFold, HexNumber;
    FoldIs(s);
  }

  // ----- payloads -----

  /** A payload is malformed exactly when it holds the wrong number of bars. */
  lemma BarsDecide(payload: string, id: nat, boot: nat)
    ensures ReadRegister(payload) == Malformed <==> CountOf(payload, '|') != 2
    ensures ReadSubmit(payload) == Malformed <==> CountOf(payload, '|') != 1
    ensures ReadComplete(payload) == Malformed <==> CountOf(payload, '|') != 6
    ensures DispatchReply(payload, id, boot) == None <==> CountOf(payload, '|') != 4
  {
    hide Split, Stoull, CountOf, Join;
    SplitCount(payload, '|');
  }

  // ----- evidence -----

  /** Every comma-separated item has an equal sign. */
  predicate FieldsWell(s: string) {
    s == "" || forall i :: 0 <= i < |Split(s, ',')| ==> '=' in Split(s, ',')[i]
  }

  lemma {:induction false} ItemsAccepted(items: seq<string>)
    ensures ParseItems(items).Some? <==> forall i :: 0 <= i < |items| ==> '=' in items[i]
  {
    if items != [] {
      hide ParseItem, Put;
      var n := |items| - 1;
      ItemsAccepted(items[..n]);
      ItemAccepted(items[n]);
    }
  }

  lemma ItemAccepted(item: string)
    ensures ParseItem(item).Some? <==> '=' in item
  {
    var i := IndexOf(item, '=');
    if i < |item| { assert item[i] == '='; }
  }

  lemma FieldsAccepted(s: string)
    ensures ParseFields(s).Some? <==> FieldsWell(s)
  {
    hide ParseItems, Split;
    ItemsAccepted(Split(s, ','));
  }

  /** An id, a colon, and five parts between bars: a hexadecimal number, a kind, a phase, fields, a payload. */
  predicate WellFormed(line: string, id: string, parts: seq<string>) {
    && |parts| == 5 && FreeOf(parts, '|') && ':' !in id && line == id + ":" + Join(parts, '|')
    && HexText(id) && HexText(parts[0]) && FieldsWell(parts[3])
  }

  /** A line is accepted exactly when it has that form. */
  lemma LineAccepted(line: string)
    ensures ParseLine(line).Some? <==> exists id, parts :: WellFormed(line, id, parts)
  {
    hide FromHex, ParseFields, Split, Join, HexText, FieldsWell, KindNamed;
    var colon := IndexOf(line, ':');
    if colon < |line| {
      var id, rest := line[..colon], line[colon + 1..];
      HexAccepted(id);
      SplitPieces(rest, '|');
      var parts := Split(rest, '|');
      if |parts| == 5 {
        HexAccepted(parts[0]);
        FieldsAccepted(parts[3]);
        assert line == id + ":" + rest;
        if ParseLine(line).Some? { assert WellFormed(line, id, parts); }
      }
    }
    forall id, parts | WellFormed(line, id, parts) ensures ParseLine(line).Some? { FormAccepted(line, id, parts); }
  }

  lemma FormAccepted(line: string, id: string, parts: seq<string>)
    requires WellFormed(line, id, parts)
    ensures ParseLine(line).Some?
  {
    hide FromHex, ParseFields, Split, Join, HexText, FieldsWell, KindNamed;
    IndexOfConcat(id, ':', Join(parts, '|'));
    SplitJoin(parts, '|');
    HexAccepted(id);
    HexAccepted(parts[0]);
    FieldsAccepted(parts[3]);
  }

  /** The lines that are not blank, trimmed. */
  function SolidLines(lines: seq<string>): seq<string> {
    if lines == [] then []
    else (if Trim(lines[0]) == "" then [] else [Trim(lines[0])]) + SolidLines(lines[1..])
  }

  /** Accepted exactly when every line is, with one record for each. */
  predicate ReadsAs(lines: seq<string>, r: Option<seq<Record>>) {
    && (r.Some? <==> forall i :: 0 <= i < |lines| ==> ParseLine(lines[i]).Some?)
    && (r.Some? ==> |r.value| == |lines| && forall i :: 0 <= i < |lines| ==> ParseLine(lines[i]) == Some(r.value[i]))
  }

  lemma OneMoreLine(t: string, lines: seq<string>, r: Option<seq<Record>>)
    requires ReadsAs(lines, r)
    ensures ReadsAs([t] + lines, Prepend(ParseLine(t), r))
  {
    hide ParseLine;
    var all, p := [t] + lines, Prepend(ParseLine(t), r);
    assert all[0] == t && forall i :: 0 <= i < |lines| ==> all[i + 1] == lines[i];
    if p.Some? {
      forall i | 0 <= i < |all| ensures ParseLine(all[i]) == Some(p.value[i]) {
        if i > 0 { assert all[i] == lines[i - 1]; }
      }
    } else if ParseLine(t).Some? {
      var i :| 0 <= i < |lines| && ParseLine(lines[i]).None?;
      assert ParseLine(all[i + 1]).None?;
    } else {
      assert ParseLine(all[0]).None?;
    }
  }

  /** A text is accepted exactly when every line that is not blank is, and yields one record for each. */
  lemma {:induction false} TextAccepted(text: string)
    ensures ReadsAs(SolidLines(Split(text, '\n')), ParseText(text))
    decreases |text|
  {
    hide Trim, ParseLine, ParseText, Prepend, ReadsAs, SolidLines, Split;
    if text == "" {
      EmptyText();
    } else {
      var nl := IndexOf(text, '\n');
      var line := text[..nl];
      var rest := if nl == |text| then "" else text[nl + 1..];
      ParseTextStep(text);
      TextAccepted(rest);
      LinesOf(text);
      var more := SolidLines(Split(rest, '\n'));
      if Trim(line) == "" {
        assert [] + more == more;
      } else {
        OneMoreLine(Trim(line), more, ParseText(rest));
      }
    }
  }

  lemma EmptyText()
    ensures SolidLines(Split("", '\n')) == [] && ReadsAs([], ParseText(""))
  {
    assert Split("", '\n') == [""] && [""][1..] == [];
    assert Trim("") == "";
  }

  lemma LinesOf(text: string)
    ensures var nl := IndexOf(text, '\n');
            var rest := if nl == |text| then "" else text[nl + 1..];
            var t := Trim(text[..nl]);
            SolidLines(Split(text, '\n')) == (if t == "" then [] else [t]) + SolidLines(Split(rest, '\n'))
  {
    hide Trim;
    var nl := IndexOf(text, '\n');
    if nl == |text| {
      EmptyText();
      assert text[..nl] == text && [text][1..] == [];
      assert SolidLines([]) == [];
    } else {
      var lines := Split(text, '\n');
      assert lines[1..] == Split(text[nl + 1..], '\n');
    }
  }
}
