/** The ASCII part of the Python string operations the display generator
    relies on: substring search, `str.split`, `str.strip`/`lstrip`,
    `str.replace` of one character, `str.title`, and the decimal and
    hexadecimal renderings of integers. */
module Text {
  import opened Wrappers

  // ----- searching ---------------------------------------------------------

  /** `sub` occurs in `s` starting at index `i`. */
  predicate OccursAt(s: string, sub: string, i: nat) {
    i + |sub| <= |s| && s[i..i + |sub|] == sub
  }

  /** Python's `sub in s`. */
  predicate Contains(s: string, sub: string) {
    exists i :: 0 <= i <= |s| && OccursAt(s, sub, i)
  }

  /** The first index at or after `from` where `sub` occurs (`str.find`). */
  function IndexFrom(s: string, sub: string, from: nat): (r: Option<nat>)
    ensures r.Some? ==> from <= r.value && OccursAt(s, sub, r.value)
    ensures r.Some? ==> forall j: nat :: from <= j < r.value ==> !OccursAt(s, sub, j)
    ensures r.None? ==> forall j: nat :: from <= j ==> !OccursAt(s, sub, j)
    decreases |s| - from
  {
    if from + |sub| > |s| then None
    else if OccursAt(s, sub, from) then Some(from)
    else IndexFrom(s, sub, from + 1)
  }

  /** `Join(parts, sep)` is Python's `sep.join(parts)`. */
  function Join(parts: seq<string>, sep: string): string
    decreases |parts|
  {
    if |parts| == 0 then ""
    else if |parts| == 1 then parts[0]
    else parts[0] + sep + Join(parts[1..], sep)
  }

  /** Python's `s.split(sep)` for a non-empty separator: cut at every
      occurrence, scanning left to right without overlap. */
  function Split(s: string, sep: string): (parts: seq<string>)
    requires sep != []
    ensures |parts| >= 1
    ensures Join(parts, sep) == s
    ensures forall k :: 0 <= k < |parts| ==> !Contains(parts[k], sep)
    ensures |parts| > 1 <==> Contains(s, sep)
    decreases |s|
  {
    match IndexFrom(s, sep, 0)
    case None => [s]
    case Some(i) =>
      var rest := Split(s[i + |sep|..], sep);
      assert s == s[..i] + sep + s[i + |sep|..];
      assert !Contains(s[..i], sep) by {
        forall j: nat | OccursAt(s[..i], sep, j) ensures false {
          assert s[..i][j..j + |sep|] == s[j..j + |sep|];
          assert OccursAt(s, sep, j);
        }
      }
      [s[..i]] + rest
  }

  /** `sep` first occurs in `part + sep` at its end, not inside `part`. */
  predicate CutsLeftmost(part: string, sep: string) {
    forall j :: 0 <= j < |part| ==> !OccursAt(part + sep, sep, j)
  }

  /** Split cuts at the leftmost occurrence each time: the separator never
      starts inside a part that it follows. */
  lemma {:induction false} SplitCutsLeftmost(s: string, sep: string)
    requires sep != []
    ensures var parts := Split(s, sep);
      forall k :: 0 <= k < |parts| - 1 ==> CutsLeftmost(parts[k], sep)
    decreases |s|
  {
    match IndexFrom(s, sep, 0)
    case None =>
    case Some(i) =>
      var rest := s[i + |sep|..];
      var parts := Split(s, sep);
      assert parts == [s[..i]] + Split(rest, sep);
      SplitCutsLeftmost(rest, sep);
      FirstCutLeftmost(s, sep, i);
  }

  lemma FirstCutLeftmost(s: string, sep: string, i: nat)
    requires IndexFrom(s, sep, 0) == Some(i)
    ensures CutsLeftmost(s[..i], sep)
  {
    var t := s[..i] + sep;
    assert t == s[..i + |sep|];
    forall j | 0 <= j < i ensures !OccursAt(t, sep, j) {
      assert !OccursAt(s, sep, j);
      assert t[j..j + |sep|] == s[j..j + |sep|];
    }
  }

  /** `s.split(c, 1)`: the text before the first `c` and the text after it,
      or `s` alone when `c` does not occur. */
  function SplitOnce(s: string, c: char): (r: seq<string>)
    ensures |r| == 1 || |r| == 2
    ensures |r| == 1 <==> c !in s
    ensures |r| == 1 ==> r[0] == s
    ensures |r| == 2 ==> s == r[0] + [c] + r[1] && c !in r[0]
  {
    match IndexFrom(s, [c], 0)
    case None =>
      assert c !in s by {
        forall j | 0 <= j < |s| ensures s[j] != c {
          assert !OccursAt(s, [c], j);
          assert s[j..j + 1] == [s[j]];
        }
      }
      [s]
    case Some(i) =>
      assert s[i] == c by { assert s[i..i + 1] == [c]; }
      assert c !in s[..i] by {
        forall j | 0 <= j < i ensures s[j] != c {
          assert !OccursAt(s, [c], j);
          assert s[j..j + 1] == [s[j]];
        }
      }
      assert s == s[..i] + [c] + s[i + 1..];
      [s[..i], s[i + 1..]]
  }

  /** The split happens at the first occurrence of `c`. */
  lemma SplitOnceAt(s: string, c: char, n: nat)
    requires n < |s| && s[n] == c && c !in s[..n]
    ensures SplitOnce(s, c) == [s[..n], s[n + 1..]]
  {
    assert s[n] in s;
    var r := SplitOnce(s, c);
    assert s[|r[0]|] == c;
    assert |r[0]| == n;
    assert s[..n] == r[0];
    assert s[n + 1..] == r[1];
  }

  // ----- stripping ---------------------------------------------------------

  /** The characters Python's `str.isspace()` accepts, restricted to ASCII. */
  const Whitespace: set<char> :=
    {' ', '\t', '\n', '\r', '\U{0B}', '\U{0C}', '\U{1C}', '\U{1D}', '\U{1E}', '\U{1F}'}

  /** `s.lstrip(chars)`. */
  function LStrip(s: string, cs: set<char>): (r: string)
    ensures |r| <= |s| && r == s[|s| - |r|..]
    ensures forall i :: 0 <= i < |s| - |r| ==> s[i] in cs
    ensures r != [] ==> r[0] !in cs
    decreases |s|
  {
    if s != [] && s[0] in cs then
      var r := LStrip(s[1..], cs);
      assert s[1..][|s| - 1 - |r|..] == s[|s| - |r|..];
      assert forall i :: 1 <= i < |s| - |r| ==> s[i] == s[1..][i - 1];
      r
    else s
  }

  /** `s.rstrip(chars)`. */
  function RStrip(s: string, cs: set<char>): (r: string)
    ensures |r| <= |s| && r == s[..|r|]
    ensures forall i :: |r| <= i < |s| ==> s[i] in cs
    ensures r != [] ==> r[|r| - 1] !in cs
    decreases |s|
  {
    if s != [] && s[|s| - 1] in cs then RStrip(s[..|s| - 1], cs) else s
  }

  /** Every character of `s` is in `cs`. */
  predicate AllIn(s: string, cs: set<char>) {
    forall i :: 0 <= i < |s| ==> s[i] in cs
  }

  /** `r` is the slice `s[k..k + |r|]`. */
  predicate InfixAt(r: string, s: string, k: nat) {
    k + |r| <= |s| && s[k..k + |r|] == r
  }

  /** `r` is `s[k..k + |r|]` and every character of `s` outside it is in `cs`. */
  predicate StrippedAt(r: string, s: string, cs: set<char>, k: nat) {
    && InfixAt(r, s, k)
    && (forall i :: 0 <= i < k ==> s[i] in cs)
    && (forall i :: k + |r| <= i < |s| ==> s[i] in cs)
  }

  ghost predicate StrippedFrom(r: string, s: string, cs: set<char>) {
    exists k: nat :: StrippedAt(r, s, cs, k)
  }

  /** `s.strip(chars)`: the longest infix of `s` that neither starts nor ends
      with a character of `cs`, everything around it being from `cs`. */
  function StripChars(s: string, cs: set<char>): (r: string)
    ensures r == [] <==> AllIn(s, cs)
    ensures EndsOutside(r, cs)
    ensures StrippedFrom(r, s, cs)
  {
    StripEmpty(s, cs);
    StripEnds(s, cs);
    StripAround(s, cs);
    RStrip(LStrip(s, cs), cs)
  }

  lemma StripAround(s: string, cs: set<char>)
    ensures StrippedAt(RStrip(LStrip(s, cs), cs), s, cs, |s| - |LStrip(s, cs)|)
  {
    StripInfix(s, cs);
    StripTail(s, cs);
  }

  lemma StripEmpty(s: string, cs: set<char>)
    ensures RStrip(LStrip(s, cs), cs) == [] <==> AllIn(s, cs)
  {
    var l := LStrip(s, cs);
    var r := RStrip(l, cs);
  }

  /** Neither the first nor the last character of `r` is in `cs`. */
  predicate EndsOutside(r: string, cs: set<char>) {
    r != [] ==> r[0] !in cs && r[|r| - 1] !in cs
  }

  lemma StripEnds(s: string, cs: set<char>)
    ensures EndsOutside(RStrip(LStrip(s, cs), cs), cs)
  {
    var l := LStrip(s, cs);
    var r := RStrip(l, cs);
    assert r != [] ==> r[0] == l[0];
  }

  lemma StripInfix(s: string, cs: set<char>)
    ensures InfixAt(RStrip(LStrip(s, cs), cs), s, |s| - |LStrip(s, cs)|)
  {
    var l := LStrip(s, cs);
    var r := RStrip(l, cs);
    var k := |s| - |l|;
    SliceOfSuffix(s, k, |r|);
  }

  lemma SliceOfSuffix(s: string, k: nat, n: nat)
    requires k + n <= |s|
    ensures s[k..][..n] == s[k..k + n]
  {
  }

  lemma StripTail(s: string, cs: set<char>)
    ensures var l := LStrip(s, cs);
      forall i :: |s| - |l| + |RStrip(l, cs)| <= i < |s| ==> s[i] in cs
  {
    var l := LStrip(s, cs);
    var r := RStrip(l, cs);
    var k := |s| - |l|;
    assert l == s[k..];
    forall i | k + |r| <= i < |s| ensures s[i] in cs {
      assert |r| <= i - k < |l|;
      assert s[i] == l[i - k];
    }
  }

  /** `s.strip()`. */
  function Strip(s: string): string {
    StripChars(s, Whitespace)
  }

  // ----- replacing and title-casing ----------------------------------------

  /** `s.replace(c, rep)` for a single-character pattern. */
  function ReplaceChar(s: string, c: char, rep: string): (r: string)
    ensures c !in s ==> r == s
    decreases |s|
  {
    if s == [] then []
    else (if s[0] == c then rep else [s[0]]) + ReplaceChar(s[1..], c, rep)
  }

  /** What `ReplaceChar` keeps and what it puts in. */
  lemma {:induction false} ReplaceCharSpec(s: string, c: char, rep: string)
    ensures var r := ReplaceChar(s, c, rep);
      && (forall x :: x in r ==> x in rep || (x in s && x != c))
      && (|rep| == 1 ==> |r| == |s|)
      && (|rep| == 1 ==> forall i :: 0 <= i < |s| ==> r[i] == (if s[i] == c then rep[0] else s[i]))
    decreases |s|
  {
    if s != [] {
      ReplaceCharSpec(s[1..], c, rep);
      var head := if s[0] == c then rep else [s[0]];
      var tail := ReplaceChar(s[1..], c, rep);
      var r := ReplaceChar(s, c, rep);
      assert r == head + tail;
      forall x | x in r
        ensures x in rep || (x in s && x != c)
      {
        if x in tail && x !in rep {
          var j :| 0 <= j < |s[1..]| && s[1..][j] == x;
          assert s[j + 1] == x;
        }
      }
      if |rep| == 1 {
        assert |r| == |s|;
        forall i | 0 <= i < |s|
          ensures r[i] == (if s[i] == c then rep[0] else s[i])
        {
          if i > 0 {
            assert r[i] == tail[i - 1];
            assert s[1..][i - 1] == s[i];
          }
        }
      }
    }
  }

  predicate IsLower(c: char) { 'a' <= c <= 'z' }
  predicate IsUpper(c: char) { 'A' <= c <= 'Z' }

  /** An ASCII cased character. */
  predicate IsLetter(c: char) { IsLower(c) || IsUpper(c) }

  function ToUpper(c: char): char {
    if IsLower(c) then (c as int - 32) as char else c
  }

  function ToLower(c: char): char {
    if IsUpper(c) then (c as int + 32) as char else c
  }

  /** How `str.title` maps one character, given whether the character
      before it is cased. */
  function TitleChar(c: char, afterLetter: bool): char {
    if !IsLetter(c) then c else if afterLetter then ToLower(c) else ToUpper(c)
  }

  function TitleFrom(s: string, afterLetter: bool): (r: string)
    ensures |r| == |s|
    ensures forall i :: 0 <= i < |s| ==>
      r[i] == TitleChar(s[i], if i == 0 then afterLetter else IsLetter(s[i - 1]))
    decreases |s|
  {
    if s == [] then [] else [TitleChar(s[0], afterLetter)] + TitleFrom(s[1..], IsLetter(s[0]))
  }

  /** `s.title()` on ASCII text: a letter at the start or after a non-letter
      is upper-cased, every other letter lower-cased, the rest kept. */
  function Title(s: string): (r: string)
    ensures |r| == |s|
    ensures forall i :: 0 <= i < |s| ==>
      r[i] == TitleChar(s[i], i > 0 && IsLetter(s[i - 1]))
  {
    TitleFrom(s, false)
  }

  // ----- numerals ----------------------------------------------------------

  predicate IsDigit(c: char) { '0' <= c <= '9' }

  predicate AllDigits(s: string) { forall i :: 0 <= i < |s| ==> IsDigit(s[i]) }

  /** The number a string of decimal digits denotes. */
  function DecimalValue(s: string): nat
    requires AllDigits(s)
    decreases |s|
  {
    if s == [] then 0 else DecimalValue(s[..|s| - 1]) * 10 + (s[|s| - 1] as int - '0' as int)
  }

  function DigitChar(d: nat): (c: char)
    requires d < 10
    ensures IsDigit(c) && c as int - '0' as int == d
  {
    ('0' as int + d) as char
  }

  /** Python's `str(n)` for a natural number: its canonical decimal form. */
  function NatToString(n: nat): (r: string)
    ensures r != [] && AllDigits(r)
    ensures |r| > 1 ==> r[0] != '0'
    ensures DecimalValue(r) == n
    decreases n
  {
    if n < 10 then [DigitChar(n)]
    else
      var r := NatToString(n / 10) + [DigitChar(n % 10)];
      assert r[..|r| - 1] == NatToString(n / 10);
      r
  }

  /** Python's `str(i)` for any integer. */
  function IntToString(i: int): (r: string)
    ensures r != []
    ensures r[0] == '-' <==> i < 0
    ensures i >= 0 ==> AllDigits(r) && DecimalValue(r) == i && (|r| > 1 ==> r[0] != '0')
    ensures i < 0 ==> |r| >= 2 && AllDigits(r[1..]) && DecimalValue(r[1..]) == -i
                      && (|r| > 2 ==> r[1] != '0')
  {
    if i < 0 then
      var r := "-" + NatToString(-i);
      assert r[1..] == NatToString(-i);
      r
    else NatToString(i)
  }

  predicate IsHexDigit(c: char) { IsDigit(c) || 'a' <= c <= 'f' || 'A' <= c <= 'F' }

  predicate AllHex(s: string) { forall i :: 0 <= i < |s| ==> IsHexDigit(s[i]) }

  function HexDigitValue(c: char): (v: nat)
    requires IsHexDigit(c)
    ensures v < 16
  {
    if IsDigit(c) then c as int - '0' as int
    else if 'a' <= c <= 'f' then c as int - 'a' as int + 10
    else c as int - 'A' as int + 10
  }

  /** `int(s, 16)` for a string of ASCII hexadecimal digits. */
  function HexValue(s: string): (v: nat)
    requires AllHex(s)
    ensures |s| == 1 ==> v < 16
    ensures |s| == 2 ==> v < 256
    decreases |s|
  {
    if s == [] then 0 else HexValue(s[..|s| - 1]) * 16 + HexDigitValue(s[|s| - 1])
  }

  /** The lower-case hexadecimal digit for `d`. */
  function HexDigitChar(d: nat): (c: char)
    requires d < 16
    ensures IsHexDigit(c) && !IsUpper(c) && HexDigitValue(c) == d
  {
    if d < 10 then DigitChar(d) else ('a' as int + d - 10) as char
  }

  /** Python's `f"{v:02x}"` for a byte value. */
  function Hex2(v: nat): (r: string)
    requires v < 256
    ensures |r| == 2 && AllHex(r) && !IsUpper(r[0]) && !IsUpper(r[1])
    ensures HexValue(r) == v
  {
    var r := [HexDigitChar(v / 16), HexDigitChar(v % 16)];
    assert r[..1] == [r[0]];
    r
  }
}
