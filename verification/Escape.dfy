/** The escaping of evidence text: `esc` and `unesc` of src/evidence.cpp. */
module Escape {
  import opened Text

  function EscChar(c: char): string {
    if c == '\n' then "\\n" else if c == '\r' then "\\r" else if c == '|' then "\\|" else [c]
  }

  function Esc(v: string): string {
    if v == "" then "" else EscChar(v[0]) + Esc(v[1..])
  }

  /** The character a backslash and `c` stand for, if any. */
  function Named(c: char): Option<char> {
    if c == 'n' then Some('\n') else if c == 'r' then Some('\r') else if c == '|' then Some('|') else None
  }

  /** A backslash before anything else, or at the end, stays as it is. */
  function Unesc(v: string): (r: string)
    ensures |r| <= |v|
    decreases |v|
  {
    if v == "" then ""
    else if v[0] == '\\' && |v| > 1 && Named(v[1]).Some? then [Named(v[1]).value] + Unesc(v[2..])
    else [v[0]] + Unesc(v[1..])
  }

  method EscScan(v: string) returns (o: string)
    ensures o == Esc(v)
  {
    o := "";
    assert v[0..] == v;
    for i := 0 to |v|
      invariant o + Esc(v[i..]) == Esc(v)
    {
      hide Esc;
      EscStep(v, i);
      assert o + (EscChar(v[i]) + Esc(v[i + 1..])) == (o + EscChar(v[i])) + Esc(v[i + 1..]);
      if v[i] == '\n' { o := o + "\\n"; }
      else if v[i] == '\r' { o := o + "\\r"; }
      else if v[i] == '|' { o := o + "\\|"; }
      else { o := o + [v[i]]; }
    }
    assert v[|v|..] == "";
  }

  lemma EscStep(v: string, i: nat)
    requires i < |v|
    ensures Esc(v[i..]) == EscChar(v[i]) + Esc(v[i + 1..])
  {
    assert v[i..][0] == v[i] && v[i..][1..] == v[i + 1..];
  }

  method UnescScan(v: string) returns (o: string)
    ensures o == Unesc(v)
  {
    hide Unesc;
    o := "";
    var i := 0;
    ghost var goal, rest := Unesc(v), Unesc(v);
    assert v[0..] == v;
    while i < |v|
      invariant 0 <= i <= |v|
      invariant rest == Unesc(v[i..]) && o + rest == goal
    {
      UnescStep(v, i);
      var c, step := v[i], 1;
      if v[i] == '\\' && i + 1 < |v| {
        var n := v[i + 1];
        if n == 'n' { c, step := '\n', 2; }
        else if n == 'r' { c, step := '\r', 2; }
        else if n == '|' { c, step := '|', 2; }
      }
      assert rest == [c] + Unesc(v[i + step..]);
      o := o + [c];
      i := i + step;
      rest := rest[1..];
    }
    assert v[|v|..] == "";
    UnescEmpty();
  }

  lemma UnescEmpty()
    ensures Unesc("") == ""
  {
  }

  lemma UnescStep(v: string, i: nat)
    requires i < |v|
    ensures Unesc(v[i..]) ==
            if v[i] == '\\' && i + 1 < |v| && Named(v[i + 1]).Some? then [Named(v[i + 1]).value] + Unesc(v[i + 2..])
            else [v[i]] + Unesc(v[i + 1..])
  {
    var w := v[i..];
    assert w[0] == v[i] && w[1..] == v[i + 1..];
    if i + 1 < |v| { assert w[1] == v[i + 1] && w[2..] == v[i + 2..]; }
  }

  // ----- when one undoes the other -----

  /** A backslash followed by the letter n or r. */
  predicate Ambiguous(a: char, b: char) { a == '\\' && (b == 'n' || b == 'r') }

  predicate Clean(v: string) {
    forall i :: 0 <= i < |v| - 1 ==> !Ambiguous(v[i], v[i + 1])
  }

  lemma CleanCons(c: char, v: string)
    ensures Clean([c] + v) <==> Clean(v) && (v != "" ==> !Ambiguous(c, v[0]))
  {
    var w := [c] + v;
    if Clean(w) {
      forall i | 0 <= i < |v| - 1 ensures !Ambiguous(v[i], v[i + 1]) {
        assert !Ambiguous(w[i + 1], w[i + 2]);
      }
      if v != "" { assert !Ambiguous(w[0], w[1]); }
    }
  }

  lemma UnescHead(v: string)
    requires v != ""
    ensures Unesc(v) != ""
    ensures Unesc(v)[0] == if v[0] == '\\' && |v| > 1 && Named(v[1]).Some? then Named(v[1]).value else v[0]
  {
  }

  /** Whatever is unescaped, the result holds no ambiguous pair. */
  lemma {:induction false} UnescClean(v: string)
    ensures Clean(Unesc(v))
    decreases |v|
  {
    if v != "" {
      if v[0] == '\\' && |v| > 1 && Named(v[1]).Some? {
        UnescClean(v[2..]);
        CleanCons(Named(v[1]).value, Unesc(v[2..]));
      } else {
        UnescClean(v[1..]);
        CleanCons(v[0], Unesc(v[1..]));
        if |v| > 1 { UnescHead(v[1..]); }
      }
    }
  }

  lemma EscHead(v: string)
    ensures v == "" <==> Esc(v) == ""
    ensures v != "" ==> Esc(v)[0] == if v[0] == '\n' || v[0] == '\r' || v[0] == '|' then '\\' else v[0]
  {
  }

  lemma {:induction false} CleanUndone(v: string)
    requires Clean(v)
    ensures Unesc(Esc(v)) == v
  {
    if v != "" {
      hide Unesc;
      var rest := v[1..];
      assert v == [v[0]] + rest;
      CleanCons(v[0], rest);
      CleanUndone(rest);
      EscHead(rest);
      if |EscChar(v[0])| == 2 {
        UnescPair(EscChar(v[0])[1], Esc(rest));
        assert EscChar(v[0]) == ['\\', EscChar(v[0])[1]];
      } else {
        UnescPlain(v[0], Esc(rest));
      }
    }
  }

  lemma UnescPair(b: char, w: string)
    requires Named(b).Some?
    ensures Unesc(['\\', b] + w) == [Named(b).value] + Unesc(w)
  {
    assert (['\\', b] + w)[2..] == w;
  }

  lemma UnescPlain(c: char, w: string)
    requires c == '\\' && w != "" ==> Named(w[0]).None?
    ensures Unesc([c] + w) == [c] + Unesc(w)
  {
    assert ([c] + w)[1..] == w;
  }

  /** `unesc(esc(v))` is `v` exactly when no backslash of `v` is followed by n or r. */
  lemma EscUndone(v: string)
    ensures Unesc(Esc(v)) == v <==> Clean(v)
  {
    if Clean(v) { CleanUndone(v); }
    UnescClean(Esc(v));
  }

  /** The pair that is lost: a backslash and the letter n come back as a newline. */
  lemma EscNotAlwaysUndone()
    ensures Unesc(Esc("\\n")) == "\n"
  {
    assert "\\n"[1..] == "n" && "n"[1..] == "";
    assert Esc("n") == "n";
    assert Esc("\\n") == "\\n";
    assert "\\n"[2..] == "";
  }

  predicate Raw(v: string) { '\n' !in v && '\r' !in v && '|' !in v }

  /** `esc(unesc(x))` is `x` for every `x` without a raw newline, carriage return or bar. */
  lemma {:induction false} UnescUndone(x: string)
    requires Raw(x)
    ensures Esc(Unesc(x)) == x
    decreases |x|
  {
    if x != "" {
      hide Esc, Unesc;
      if x[0] == '\\' && |x| > 1 && Named(x[1]).Some? {
        var w := x[2..];
        assert x == [x[0], x[1]] + w && x[1] in x;
        UnescUndone(w);
        UnescPair(x[1], w);
        EscCons(Named(x[1]).value, Unesc(w));
      } else {
        var w := x[1..];
        assert x == [x[0]] + w && x[0] in x;
        UnescUndone(w);
        UnescPlain(x[0], w);
        EscCons(x[0], Unesc(w));
      }
    }
  }

  lemma EscCons(c: char, w: string)
    ensures Esc([c] + w) == EscChar(c) + Esc(w)
  {
    assert ([c] + w)[1..] == w;
  }

  // ----- which characters pass through -----

  /** Characters that neither function adds or removes. */
  predicate Ordinary(c: char) {
    c != '\n' && c != '\r' && c != '\\' && c != 'n' && c != 'r' && c != '|'
  }

  lemma {:induction false} EscMembers(v: string, c: char)
    ensures Ordinary(c) || c == '|' ==> (c in Esc(v) <==> c in v)
    ensures c == '\n' || c == '\r' ==> c !in Esc(v)
  {
    if v != "" {
      EscMembers(v[1..], c);
      assert v == [v[0]] + v[1..];
      assert c in Esc(v) <==> c in EscChar(v[0]) || c in Esc(v[1..]);
    }
  }

  lemma {:induction false} UnescMembers(x: string, c: char)
    requires c != '\n' && c != '\r' && c in Unesc(x)
    ensures c in x
    decreases |x|
  {
    if x != "" {
      if x[0] == '\\' && |x| > 1 && Named(x[1]).Some? {
        if c != Named(x[1]).value { UnescMembers(x[2..], c); } else { assert c == x[1]; }
      } else if c != x[0] {
        UnescMembers(x[1..], c);
      }
    }
  }

  /** White space that escaping leaves alone. */
  predicate Blank(c: char) { IsSpace(c) && c != '\n' && c != '\r' }

  predicate BlankEnd(v: string) { v != "" && Blank(v[|v| - 1]) }

  lemma {:induction false} EscEnd(v: string)
    ensures BlankEnd(Esc(v)) <==> BlankEnd(v)
    ensures v != "" ==> (IsSpace(Esc(v)[|Esc(v)| - 1]) <==> Blank(v[|v| - 1]))
  {
    if v != "" {
      var rest := v[1..];
      EscEnd(rest);
      EscHead(rest);
      var e := Esc(v);
      if rest == "" {
        assert e == EscChar(v[0]);
      } else {
        assert e[|e| - 1] == Esc(rest)[|Esc(rest)| - 1];
      }
    }
  }

  lemma {:induction false} UnescEnd(x: string)
    requires x != "" && !Blank(x[|x| - 1])
    ensures Unesc(x) != "" && !Blank(Unesc(x)[|Unesc(x)| - 1])
    decreases |x|
  {
    var u := Unesc(x);
    if x[0] == '\\' && |x| > 1 && Named(x[1]).Some? {
      if |x| > 2 {
        UnescEnd(x[2..]);
        assert u[|u| - 1] == Unesc(x[2..])[|Unesc(x[2..])| - 1];
      } else {
        assert x[2..] == "";
      }
    } else if |x| > 1 {
      UnescEnd(x[1..]);
      assert u[|u| - 1] == Unesc(x[1..])[|Unesc(x[1..])| - 1];
    } else {
      assert x[1..] == "";
    }
  }
}
