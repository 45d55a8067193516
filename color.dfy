/** `_darken_color`, as the page header's hover rule calls it: the factor is
    always 0.1, so each channel `c` becomes `int(c * 0.9)`, which for a byte
    is the integer `9 * c / 10` rounded down. */
module Color {
  import opened Wrappers
  import opened Text

  /** Python's slice `s[i:j]` for `0 <= i <= j`: clipped to the string. */
  function Slice(s: string, i: nat, j: nat): (r: string)
    requires i <= j
    ensures |r| <= j - i
  {
    if i >= |s| then [] else if j >= |s| then s[i..] else s[i..j]
  }

  /** `int(t, 16)` succeeds (on ASCII text without sign or spaces). */
  predicate ParsesHex(t: string) {
    t != [] && AllHex(t)
  }

  /** The three channel slices `s[0:2]`, `s[2:4]`, `s[4:6]`, each parsed as
      hexadecimal; `None` when one of them does not parse. */
  function ParseChannels(s: string): (r: Option<(nat, nat, nat)>)
    ensures r.Some? <==> |s| >= 5 && forall i :: 0 <= i < 6 && i < |s| ==> IsHexDigit(s[i])
    ensures r.Some? ==> r.value.0 < 256 && r.value.1 < 256 && r.value.2 < 256
  {
    var r, g, b := Slice(s, 0, 2), Slice(s, 2, 4), Slice(s, 4, 6);
    if ParsesHex(r) && ParsesHex(g) && ParsesHex(b) then
      assert |s| >= 5 && r == s[0..2] && g == s[2..4] && b == s[4..if |s| < 6 then |s| else 6];
      assert forall i :: 0 <= i < 6 && i < |s| ==> IsHexDigit(s[i]) by {
        forall i | 0 <= i < 6 && i < |s| ensures IsHexDigit(s[i]) {
          if i < 2 { assert s[i] == r[i]; }
          else if i < 4 { assert s[i] == g[i - 2]; }
          else { assert s[i] == b[i - 4]; }
        }
      }
      Some((HexValue(r), HexValue(g), HexValue(b)))
    else
      assert ParsesHex(b) ==> |s| >= 5;
      assert !ParsesHex(r) || !ParsesHex(g) || !ParsesHex(b) ==>
        !(|s| >= 5 && forall i :: 0 <= i < 6 && i < |s| ==> IsHexDigit(s[i])) by {
        if ParsesHex(r) && ParsesHex(g) && !ParsesHex(b) && |s| >= 5 {
          var k :| 0 <= k < |b| && !IsHexDigit(b[k]);
          assert b[k] == s[4 + k];
        } else if ParsesHex(r) && !ParsesHex(g) && |s| >= 5 {
          var k :| 0 <= k < |g| && !IsHexDigit(g[k]);
          assert g[k] == s[2 + k];
        } else if !ParsesHex(r) && |s| >= 5 {
          var k :| 0 <= k < |r| && !IsHexDigit(r[k]);
          assert r[k] == s[k];
        }
      }
      None
  }

  /** `int(c * (1 - 0.1))` for a byte `c`. */
  function Darken(c: nat): (d: nat)
    ensures d <= c
    ensures 10 * d <= 9 * c < 10 * d + 10
  {
    9 * c / 10
  }

  /** `f"#{r:02x}{g:02x}{b:02x}"`. */
  function FormatColor(r: nat, g: nat, b: nat): (s: string)
    requires r < 256 && g < 256 && b < 256
    ensures |s| == 7 && s[0] == '#' && AllHex(s[1..])
    ensures forall i :: 1 <= i < 7 ==> !IsUpper(s[i])
  {
    "#" + Hex2(r) + Hex2(g) + Hex2(b)
  }

  const HashSign: set<char> := {'#'}

  /** `_darken_color(hex_color, 0.1)`: strip the leading `#` characters, parse
      three channels, scale each and print them again; on a parse failure
      return the stripped text. */
  function DarkenColor(hexColor: string): string {
    var s := LStrip(hexColor, HashSign);
    match ParseChannels(s)
    case Some((r, g, b)) =>
      FormatColor(Darken(r), Darken(g), Darken(b))
    case None => s
  }

  /** Parsing what FormatColor prints gives back its three channels. */
  lemma FormatColorParses(r: nat, g: nat, b: nat)
    requires r < 256 && g < 256 && b < 256
    ensures var s := FormatColor(r, g, b);
      LStrip(s, HashSign) == s[1..] && ParseChannels(s[1..]) == Some((r, g, b))
  {
    var s := FormatColor(r, g, b);
    var t := s[1..];
    assert t == Hex2(r) + Hex2(g) + Hex2(b);
    assert s[1] !in HashSign by { assert IsHexDigit(s[1]); }
    assert LStrip(s, HashSign) == LStrip(t, HashSign);
    assert Slice(t, 0, 2) == Hex2(r);
    assert Slice(t, 2, 4) == Hex2(g);
    assert Slice(t, 4, 6) == Hex2(b);
  }

  /** On a parseable colour the result is a lower-case `#rrggbb` colour
      whose channels are the darkened ones, none brighter than before. */
  lemma DarkenColorDarkens(hexColor: string)
    requires ParseChannels(LStrip(hexColor, HashSign)).Some?
    ensures var (r, g, b) := ParseChannels(LStrip(hexColor, HashSign)).value;
      var d := DarkenColor(hexColor);
      && |d| == 7 && d[0] == '#'
      && (forall i :: 1 <= i < 7 ==> IsHexDigit(d[i]) && !IsUpper(d[i]))
      && ParseChannels(d[1..]) == Some((Darken(r), Darken(g), Darken(b)))
      && Darken(r) <= r && Darken(g) <= g && Darken(b) <= b
  {
    var (r, g, b) := ParseChannels(LStrip(hexColor, HashSign)).value;
    FormatColorParses(Darken(r), Darken(g), Darken(b));
    var d := DarkenColor(hexColor);
    forall i | 1 <= i < 7 ensures IsHexDigit(d[i]) { assert d[1..][i - 1] == d[i]; }
  }

  /** Only the first six characters after the `#` signs matter. */
  lemma DarkenColorUsesSixDigits(hexColor: string, extra: string)
    requires var s := LStrip(hexColor, HashSign); |s| == 6 && AllHex(s)
    ensures DarkenColor(hexColor + extra) == DarkenColor(hexColor)
  {
    var s := LStrip(hexColor, HashSign);
    LStripAppend(hexColor, extra);
    ParseChannelsIgnoresTail(s, extra);
  }

  lemma ParseChannelsIgnoresTail(s: string, extra: string)
    requires |s| == 6
    ensures ParseChannels(s + extra) == ParseChannels(s)
  {
    var t := s + extra;
    assert Slice(t, 0, 2) == s[0..2] == Slice(s, 0, 2);
    assert Slice(t, 2, 4) == s[2..4] == Slice(s, 2, 4);
    assert Slice(t, 4, 6) == s[4..6] == Slice(s, 4, 6);
  }

  /** Stripping leading `#` signs from a string whose stripped form is not
      empty is not affected by what follows. */
  lemma {:induction false} LStripAppend(s: string, extra: string)
    requires LStrip(s, HashSign) != []
    ensures LStrip(s + extra, HashSign) == LStrip(s, HashSign) + extra
    decreases |s|
  {
    if s != [] && s[0] in HashSign {
      assert (s + extra)[1..] == s[1..] + extra;
      LStripAppend(s[1..], extra);
    }
  }

  /** When the channels do not parse (fewer than five characters after the
      `#` signs, or a non-hexadecimal character among the first six), the
      result is the input without its leading `#` signs, not the input. */
  lemma DarkenColorFallback(hexColor: string)
    requires var s := LStrip(hexColor, HashSign);
      |s| < 5 || exists i :: 0 <= i < 6 && i < |s| && !IsHexDigit(s[i])
    ensures DarkenColor(hexColor) == LStrip(hexColor, HashSign)
  {
  }
}
