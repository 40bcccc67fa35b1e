/** Text helpers of the laboratory (src/text.cpp): search, split, join, trim, hexadecimal
    and decimal numerals.  A byte string is modelled as a Dafny `string`. */
module Text {
  import opened Words

  datatype Option<+T> = None | Some(value: T)

  // ----- first occurrence -----

  /** Index of the first `c`, or `|s|` when there is none. */
  function IndexOf(s: string, c: char): (i: nat)
    ensures i <= |s|
    ensures forall k :: 0 <= k < i ==> s[k] != c
    ensures i < |s| ==> s[i] == c
  {
    if s == "" || s[0] == c then 0 else 1 + IndexOf(s[1..], c)
  }

  lemma IndexOfAt(s: string, c: char, i: nat)
    requires i < |s| && s[i] == c && forall k :: 0 <= k < i ==> s[k] != c
    ensures IndexOf(s, c) == i
  {
  }

  lemma IndexOfConcat(a: string, c: char, b: string)
    requires c !in a
    ensures IndexOf(a + [c] + b, c) == |a|
    ensures (a + [c] + b)[..|a|] == a && (a + [c] + b)[|a| + 1..] == b
  {
    var s := a + [c] + b;
    forall k | 0 <= k < |a| ensures s[k] != c { assert s[k] == a[k]; }
    IndexOfAt(s, c, |a|);
  }

  // ----- split and join -----

  /** The maximal pieces of `s` between delimiters; never empty as a list. */
  function Split(s: string, d: char): (parts: seq<string>)
    ensures |parts| >= 1
    decreases |s|
  {
    var i := IndexOf(s, d);
    if i == |s| then [s] else [s[..i]] + Split(s[i + 1..], d)
  }

  function Join(parts: seq<string>, d: char): string
  {
    if |parts| == 0 then ""
    else if |parts| == 1 then parts[0]
    else parts[0] + [d] + Join(parts[1..], d)
  }

  predicate FreeOf(parts: seq<string>, d: char) {
    forall i :: 0 <= i < |parts| ==> d !in parts[i]
  }

  lemma {:induction false} SplitPieces(s: string, d: char)
    ensures FreeOf(Split(s, d), d)
    ensures Join(Split(s, d), d) == s
    decreases |s|
  {
    var i := IndexOf(s, d);
    if i < |s| {
      SplitPieces(s[i + 1..], d);
      var rest := Split(s[i + 1..], d);
      assert Split(s, d)[1..] == rest;
      assert s == s[..i] + [d] + s[i + 1..];
    }
  }

  lemma {:induction false} SplitJoin(parts: seq<string>, d: char)
    requires |parts| >= 1 && FreeOf(parts, d)
    ensures Split(Join(parts, d), d) == parts
  {
    if |parts| > 1 {
      SplitJoin(parts[1..], d);
      IndexOfConcat(parts[0], d, Join(parts[1..], d));
    }
  }

  // Membership in concatenations, stated once because strings are built from many pieces.
  lemma InConcat(a: string, b: string, c: char)
    ensures c in a + b <==> c in a || c in b
  {
  }

  lemma {:induction false} InJoin(parts: seq<string>, d: char, c: char)
    requires c != d
    ensures c in Join(parts, d) <==> exists i :: 0 <= i < |parts| && c in parts[i]
  {
    if |parts| == 1 {
      assert c in parts[0] ==> 0 < |parts|;
    } else if |parts| > 1 {
      InJoin(parts[1..], d, c);
      forall i | 0 <= i < |parts| && c in parts[i] ensures c in Join(parts, d) {
        if i > 0 { assert parts[1..][i - 1] == parts[i]; }
      }
      if c in Join(parts, d) && c !in parts[0] {
        var i :| 0 <= i < |parts[1..]| && c in parts[1..][i];
        assert c in parts[i + 1];
      }
    }
  }

  /** `split` scans once, cutting a piece at every delimiter. */
  method SplitScan(s: string, d: char) returns (out: seq<string>)
    ensures out == Split(s, d)
  {
    hide Split;
    out := [];
    var start: nat := 0;
    ghost var goal, rest := Split(s, d), Split(s, d);
    assert s[0..] == s;
    for i := 0 to |s|
      invariant start <= i
      invariant forall k :: start <= k < i ==> s[k] != d
      invariant rest == Split(s[start..], d) && out + rest == goal
    {
      if s[i] == d {
        SplitCut(s, d, start, i);
        out := out + [s[start..i]];
        start := i + 1;
        rest := rest[1..];
      }
    }
    SplitRest(s, d, start);
    out := out + [s[start..]];
  }

  lemma SplitCut(s: string, d: char, start: nat, i: nat)
    requires start <= i < |s| && s[i] == d && forall k :: start <= k < i ==> s[k] != d
    ensures Split(s[start..], d) == [s[start..i]] + Split(s[i + 1..], d)
  {
    var rest := s[start..];
    IndexOfAt(rest, d, i - start);
    assert rest[..i - start] == s[start..i];
    assert rest[i - start + 1..] == s[i + 1..];
  }

  lemma SplitRest(s: string, d: char, start: nat)
    requires start <= |s| && forall k :: start <= k < |s| ==> s[k] != d
    ensures Split(s[start..], d) == [s[start..]]
  {
  }

  /** `join` puts the delimiter before every piece but the first. */
  method JoinScan(parts: seq<string>, d: char) returns (out: string)
    ensures out == Join(parts, d)
  {
    out := "";
    for i := 0 to |parts|
      invariant out == Join(parts[..i], d)
    {
      JoinSnoc(parts[..i], parts[i], d);
      assert parts[..i + 1] == parts[..i] + [parts[i]];
      if i != 0 { out := out + [d]; }
      out := out + parts[i];
    }
    assert parts[..|parts|] == parts;
  }

  lemma {:induction false} JoinSnoc(parts: seq<string>, last: string, d: char)
    ensures Join(parts + [last], d) == if parts == [] then last else Join(parts, d) + [d] + last
  {
    if |parts| > 0 {
      JoinSnoc(parts[1..], last, d);
      assert (parts + [last])[1..] == parts[1..] + [last];
    }
  }

  // ----- trim -----

  /** `isspace` in the C locale. */
  predicate IsSpace(c: char) {
    c == ' ' || c == '\t' || c == '\n' || c == '\r' || c as int == 11 || c as int == 12
  }

  function TrimStart(s: string): string {
    if s != "" && IsSpace(s[0]) then TrimStart(s[1..]) else s
  }

  function TrimEnd(s: string): (r: string)
    ensures r <= s
    ensures r != "" ==> !IsSpace(r[|r| - 1])
    ensures forall i :: |r| <= i < |s| ==> IsSpace(s[i])
  {
    if s != "" && IsSpace(s[|s| - 1]) then TrimEnd(s[..|s| - 1]) else s
  }

  function Trim(s: string): string { TrimEnd(TrimStart(s)) }

  /** Trimming cannot reach past a solid head: only white space after it goes. */
  lemma {:induction false} TrimAfter(head: string, tail: string)
    requires head != "" && !IsSpace(head[0]) && !IsSpace(head[|head| - 1])
    ensures Trim(head + tail) == head + TrimEnd(tail)
    decreases |tail|
  {
    var s := head + tail;
    assert s[0] == head[0];
    assert TrimStart(s) == s;
    TrimEndAfter(head, tail);
  }

  lemma {:induction false} TrimEndAfter(head: string, tail: string)
    requires head != "" && !IsSpace(head[|head| - 1])
    ensures TrimEnd(head + tail) == head + TrimEnd(tail)
    decreases |tail|
  {
    var s := head + tail;
    if tail == "" {
      assert s == head;
    } else {
      assert s[|s| - 1] == tail[|tail| - 1];
      assert s[..|s| - 1] == head + tail[..|tail| - 1];
      if IsSpace(tail[|tail| - 1]) {
        TrimEndAfter(head, tail[..|tail| - 1]);
      }
    }
  }

  /** `trim` walks in from each end. */
  method TrimScan(s: string) returns (r: string)
    ensures r == Trim(s)
  {
    var b := 0;
    while b < |s| && IsSpace(s[b])
      invariant 0 <= b <= |s|
      invariant TrimStart(s[b..]) == TrimStart(s)
    {
      assert s[b..][0] == s[b] && s[b..][1..] == s[b + 1..];
      b := b + 1;
    }
    assert b < |s| ==> s[b..][0] == s[b];
    var t := s[b..];
    assert TrimStart(s) == t;
    r := t;
    while r != "" && IsSpace(r[|r| - 1])
      invariant TrimEnd(r) == TrimEnd(t)
      decreases |r|
    {
      r := r[..|r| - 1];
    }
  }

  // ----- hexadecimal numerals -----

  function HexDigit(n: nat): (c: char)
    requires n < 16
    ensures Nibble(c) == n
  {
    "0123456789abcdef"[n]
  }

  function Nibble(c: char): (n: int)
    ensures -1 <= n < 16
  {
    if '0' <= c <= '9' then c as int - '0' as int
    else if 'a' <= c <= 'f' then c as int - 'a' as int + 10
    else if 'A' <= c <= 'F' then c as int - 'A' as int + 10
    else -1
  }

  /** The low `n` hexadecimal digits of `v`, most significant first. */
  function HexFixed(v: nat, n: nat): (s: string)
    ensures |s| == n
    ensures forall i :: 0 <= i < n ==> Nibble(s[i]) >= 0
  {
    if n == 0 then "" else HexFixed(v / 16, n - 1) + [HexDigit(v % 16)]
  }

  function ToHex(v: nat): string { HexFixed(v, 16) }

  /** Left-to-right accumulation in a 64-bit word; `None` at the first non-digit. */
  function HexFold(s: string, acc: nat): Option<nat>
    requires acc < U64
  {
    if s == "" then Some(acc)
    else if Nibble(s[0]) < 0 then None
    else HexFold(s[1..], acc * 16 % U64 + Nibble(s[0]))
  }

  function FromHex(s: string): Option<nat> { if s == "" then None else HexFold(s, 0) }

  function Pow16(n: nat): nat { if n == 0 then 1 else 16 * Pow16(n - 1) }

  lemma {:induction false} HexFoldSnoc(s: string, c: char, acc: nat)
    requires acc < U64
    ensures HexFold(s + [c], acc) ==
            match HexFold(s, acc)
            case None => None
            case Some(v) => if v < U64 && Nibble(c) >= 0 then Some(v * 16 % U64 + Nibble(c)) else None
    ensures HexFold(s, acc).Some? ==> HexFold(s, acc).value < U64
  {
    if s == "" {
      assert s + [c] == [c];
    } else {
      assert (s + [c])[1..] == s[1..] + [c];
      assert acc * 16 % U64 + 15 < U64 by { ShiftRoom(acc); }
      if Nibble(s[0]) >= 0 { HexFoldSnoc(s[1..], c, acc * 16 % U64 + Nibble(s[0])); }
    }
  }

  lemma ShiftRoom(acc: nat)
    ensures acc * 16 % U64 <= U64 - 16
  {
    var q := acc * 16 / U64;
    assert acc * 16 % U64 == 16 * (acc - q * (U64 / 16));
  }

  lemma {:induction false} HexFoldFixed(v: nat, n: nat)
    requires v < Pow16(n) <= U64
    ensures HexFold(HexFixed(v, n), 0) == Some(v)
  {
    if n > 0 {
      var w := v / 16;
      HexFoldFixed(w, n - 1);
      HexFoldSnoc(HexFixed(w, n - 1), HexDigit(v % 16), 0);
      ModSmall(w * 16);
    }
  }

  lemma ModSmall(x: nat)
    requires x < U64
    ensures x % U64 == x
  {
  }

  /** The sixteen-digit numeral of a 64-bit value reads back exactly. */
  lemma HexRoundTrip(v: nat)
    requires v < U64
    ensures FromHex(ToHex(v)) == Some(v)
    ensures |ToHex(v)| == 16
  {
    assert Pow16(4) == 0x1_0000;
    assert Pow16(8) == 0x1_0000_0000;
    assert Pow16(12) == 0x1_0000_0000_0000;
    assert Pow16(16) == U64;
    HexFoldFixed(v, 16);
  }

  /** `to_hex` fills sixteen places from the last to the first. */
  method ToHexScan(value: nat) returns (s: string)
    ensures s == ToHex(value)
  {
    s := "";
    var v, i := value, 16;
    while i > 0
      invariant 0 <= i <= 16
      invariant HexFixed(v, i) + s == ToHex(value)
    {
      i := i - 1;
      s := [HexDigit(v % 16)] + s;
      v := v / 16;
    }
  }

  /** `from_hex` shifts a 64-bit word left by four for every digit. */
  method FromHexScan(s: string) returns (r: Option<nat>)
    ensures r == FromHex(s)
  {
    if s == "" { return None; }
    var v: nat := 0;
    for i := 0 to |s|
      invariant v < U64
      invariant HexFold(s[i..], v) == HexFold(s, 0)
    {
      var nib := Nibble(s[i]);
      assert s[i..][0] == s[i];
      assert s[i..][1..] == s[i + 1..];
      if nib < 0 { return None; }
      ShiftRoom(v);
      v := v * 16 % U64 + nib;
    }
    r := Some(v);
  }

  // ----- decimal numerals (std::to_string) -----

  predicate IsDigit(c: char) { '0' <= c <= '9' }

  function Decimal(n: nat): (s: string)
    ensures s != ""
    ensures forall i :: 0 <= i < |s| ==> IsDigit(s[i])
  {
    if n < 10 then ["0123456789"[n]] else Decimal(n / 10) + ["0123456789"[n % 10]]
  }

  function DecimalValue(s: string): int {
    if s == "" then 0 else 10 * DecimalValue(s[..|s| - 1]) + (s[|s| - 1] as int - '0' as int)
  }

  lemma {:induction false} DecimalReads(n: nat)
    ensures DecimalValue(Decimal(n)) == n
  {
    if n < 10 {
      assert Decimal(n)[..0] == "";
    } else {
      DecimalReads(n / 10);
      assert Decimal(n)[..|Decimal(n)| - 1] == Decimal(n / 10);
    }
  }

  predicate StopsNumber(s: string) { s == "" || !IsDigit(s[0]) }

  function LeadingDigits(s: string): nat {
    if s == "" || !IsDigit(s[0]) then 0 else 1 + LeadingDigits(s[1..])
  }

  lemma {:induction false} LeadingDigitsOf(p: string, x: string)
    requires (forall i :: 0 <= i < |p| ==> IsDigit(p[i])) && StopsNumber(x)
    ensures LeadingDigits(p + x) == |p|
  {
    if p == "" {
      assert p + x == x;
    } else {
      assert (p + x)[1..] == p[1..] + x;
      LeadingDigitsOf(p[1..], x);
    }
  }

  /** A numeral followed by a non-digit can be cut off the front of a text in one way only. */
  lemma DecimalPrefix(a: nat, x: string, b: nat, y: string)
    requires StopsNumber(x) && StopsNumber(y)
    requires Decimal(a) + x == Decimal(b) + y
    ensures a == b && x == y
  {
    var p, q := Decimal(a), Decimal(b);
    LeadingDigitsOf(p, x);
    LeadingDigitsOf(q, y);
    assert p == (p + x)[..|p|];
    assert q == (q + y)[..|q|];
    assert x == (p + x)[|p|..];
    assert y == (q + y)[|q|..];
    DecimalReads(a);
    DecimalReads(b);
  }
}
