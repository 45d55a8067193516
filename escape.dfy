/** `_escape_html`: five literal replacements applied in order, the
    ampersand first, and the entity decoding that undoes them. */
module HtmlEscape {
  import opened Text

  /** The escaper as the source writes it: a chain of `str.replace` calls. */
  function EscapeHtml(text: string): string {
    var a := ReplaceChar(text, '&', "&amp;");
    var b := ReplaceChar(a, '<', "&lt;");
    var c := ReplaceChar(b, '>', "&gt;");
    var d := ReplaceChar(c, '"', "&quot;");
    ReplaceChar(d, '\'', "&#39;")
  }

  /** A character the escaper rewrites. */
  predicate IsSpecial(c: char) {
    c == '&' || c == '<' || c == '>' || c == '"' || c == '\''
  }

  /** What one character becomes: the reference definition of the escaper
      as a single left-to-right pass. */
  function EscapeChar(c: char): (r: string)
    ensures r != [] && (IsSpecial(c) <==> r[0] == '&')
  {
    if c == '&' then "&amp;"
    else if c == '<' then "&lt;"
    else if c == '>' then "&gt;"
    else if c == '"' then "&quot;"
    else if c == '\'' then "&#39;"
    else [c]
  }

  function EscapeEach(s: string): string
    decreases |s|
  {
    if s == [] then [] else EscapeChar(s[0]) + EscapeEach(s[1..])
  }

  /** Position `i` of `t` starts one of the five entities. */
  predicate BeginsEntity(t: string, i: nat)
    requires i <= |t|
  {
    var rest := t[i..];
    "&amp;" <= rest || "&lt;" <= rest || "&gt;" <= rest || "&quot;" <= rest || "&#39;" <= rest
  }

  /** Every `&` in `t` begins an entity. */
  predicate AmpersandsBeginEntities(t: string) {
    forall i :: 0 <= i < |t| && t[i] == '&' ==> BeginsEntity(t, i)
  }

  /** Decoding of the five entities; any other character stands for
      itself. */
  function Unescape(t: string): string
    decreases |t|
  {
    if t == [] then []
    else if "&amp;" <= t then "&" + Unescape(t[5..])
    else if "&lt;" <= t then "<" + Unescape(t[4..])
    else if "&gt;" <= t then ">" + Unescape(t[4..])
    else if "&quot;" <= t then "\"" + Unescape(t[6..])
    else if "&#39;" <= t then "'" + Unescape(t[5..])
    else [t[0]] + Unescape(t[1..])
  }

  lemma {:induction false} ReplaceCharAppend(a: string, b: string, c: char, rep: string)
    ensures ReplaceChar(a + b, c, rep) == ReplaceChar(a, c, rep) + ReplaceChar(b, c, rep)
    decreases |a|
  {
    if a == [] {
      assert a + b == b;
    } else {
      assert (a + b)[1..] == a[1..] + b;
      ReplaceCharAppend(a[1..], b, c, rep);
    }
  }

  /** The escaper works character by character. */
  lemma EscapeHtmlAppend(a: string, b: string)
    ensures EscapeHtml(a + b) == EscapeHtml(a) + EscapeHtml(b)
  {
    var a1, b1 := ReplaceChar(a, '&', "&amp;"), ReplaceChar(b, '&', "&amp;");
    ReplaceCharAppend(a, b, '&', "&amp;");
    var a2, b2 := ReplaceChar(a1, '<', "&lt;"), ReplaceChar(b1, '<', "&lt;");
    ReplaceCharAppend(a1, b1, '<', "&lt;");
    var a3, b3 := ReplaceChar(a2, '>', "&gt;"), ReplaceChar(b2, '>', "&gt;");
    ReplaceCharAppend(a2, b2, '>', "&gt;");
    var a4, b4 := ReplaceChar(a3, '"', "&quot;"), ReplaceChar(b3, '"', "&quot;");
    ReplaceCharAppend(a3, b3, '"', "&quot;");
    ReplaceCharAppend(a4, b4, '\'', "&#39;");
  }

  lemma ReplaceCharSingle(c: char, x: char, rep: string)
    ensures ReplaceChar([c], x, rep) == if c == x then rep else [c]
  {
    assert [c][1..] == [];
  }

  lemma EscapeHtmlChar(c: char)
    ensures EscapeHtml([c]) == EscapeChar(c)
  {
    ReplaceCharSingle(c, '&', "&amp;");
    if c == '&' {
      assert '<' !in "&amp;" && '>' !in "&amp;" && '"' !in "&amp;" && '\'' !in "&amp;";
    } else {
      ReplaceCharSingle(c, '<', "&lt;");
      if c == '<' {
        assert '>' !in "&lt;" && '"' !in "&lt;" && '\'' !in "&lt;";
      } else {
        ReplaceCharSingle(c, '>', "&gt;");
        if c == '>' {
          assert '"' !in "&gt;" && '\'' !in "&gt;";
        } else {
          ReplaceCharSingle(c, '"', "&quot;");
          if c == '"' {
            assert '\'' !in "&quot;";
          } else {
            ReplaceCharSingle(c, '\'', "&#39;");
          }
        }
      }
    }
  }

  /** The chain of five replacements equals the single-pass escaper: the
      ampersand going first means no entity is escaped twice. */
  lemma {:induction false} EscapeHtmlIsEscapeEach(s: string)
    ensures EscapeHtml(s) == EscapeEach(s)
    decreases |s|
  {
    if s == [] {
    } else {
      assert s == [s[0]] + s[1..];
      EscapeHtmlAppend([s[0]], s[1..]);
      EscapeHtmlChar(s[0]);
      EscapeHtmlIsEscapeEach(s[1..]);
    }
  }

  lemma EntityOfSpecial(c: char, rest: string)
    requires IsSpecial(c)
    ensures BeginsEntity(EscapeChar(c) + rest, 0)
  {
    var t := EscapeChar(c) + rest;
    assert t[0..] == t;
    assert EscapeChar(c) <= t;
  }

  lemma {:induction false} EscapeEachSafe(s: string)
    ensures var t := EscapeEach(s); '<' !in t && '>' !in t && '"' !in t && '\'' !in t
    decreases |s|
  {
    if s != [] {
      EscapeEachSafe(s[1..]);
      var h := EscapeChar(s[0]);
      assert '<' !in h && '>' !in h && '"' !in h && '\'' !in h;
    }
  }

  /** The escaper's output contains no `<`, `>`, `"` or `'`. */
  lemma EscapeHtmlSafe(s: string)
    ensures var t := EscapeHtml(s); '<' !in t && '>' !in t && '"' !in t && '\'' !in t
  {
    EscapeHtmlIsEscapeEach(s);
    EscapeEachSafe(s);
  }

  lemma {:induction false} EscapeEachPlain(s: string)
    requires forall c :: c in s ==> !IsSpecial(c)
    ensures EscapeEach(s) == s
    decreases |s|
  {
    if s != [] {
      assert s[0] in s;
      assert forall c :: c in s[1..] ==> c in s;
      EscapeEachPlain(s[1..]);
      assert s == [s[0]] + s[1..];
    }
  }

  /** Text with none of the five characters is left as it is. */
  lemma EscapeHtmlPlain(s: string)
    requires forall c :: c in s ==> !IsSpecial(c)
    ensures EscapeHtml(s) == s
  {
    EscapeHtmlIsEscapeEach(s);
    EscapeEachPlain(s);
  }

  lemma {:induction false} EscapeEachAmpersands(s: string)
    ensures AmpersandsBeginEntities(EscapeEach(s))
    decreases |s|
  {
    if s != [] {
      var head, tail := EscapeChar(s[0]), EscapeEach(s[1..]);
      var t := head + tail;
      EscapeEachAmpersands(s[1..]);
      assert AmpersandsBeginEntities(tail);
      forall i | 0 <= i < |t| && t[i] == '&' ensures BeginsEntity(t, i) {
        assert t[i] == '&';
        if i < |head| {
          assert i == 0 && IsSpecial(s[0]);
          EntityOfSpecial(s[0], tail);
        } else {
          assert t[i..] == tail[i - |head|..];
          assert tail[i - |head|] == '&';
          assert BeginsEntity(tail, i - |head|);
        }
      }
    }
  }

  /** Every `&` in the escaper's output begins one of the five entities. */
  lemma EscapedAmpersandsBeginEntities(s: string)
    ensures AmpersandsBeginEntities(EscapeHtml(s))
  {
    EscapeHtmlIsEscapeEach(s);
    EscapeEachAmpersands(s);
  }

  lemma UnescapeEscapeChar(c: char, rest: string)
    ensures Unescape(EscapeChar(c) + rest) == [c] + Unescape(rest)
  {
    var t := EscapeChar(c) + rest;
    if c == '&' {
      assert "&amp;" <= t && t[5..] == rest;
    } else if c == '<' {
      assert t[1] == 'l' && t[2] == 't';
      assert !("&amp;" <= t) && "&lt;" <= t && t[4..] == rest;
    } else if c == '>' {
      assert t[1] == 'g';
      assert !("&amp;" <= t) && !("&lt;" <= t) && "&gt;" <= t && t[4..] == rest;
    } else if c == '"' {
      assert t[1] == 'q';
      assert !("&amp;" <= t) && !("&lt;" <= t) && !("&gt;" <= t);
      assert "&quot;" <= t && t[6..] == rest;
    } else if c == '\'' {
      assert t[1] == '#';
      assert !("&amp;" <= t) && !("&lt;" <= t) && !("&gt;" <= t) && !("&quot;" <= t);
      assert "&#39;" <= t && t[5..] == rest;
    } else {
      assert t[0] == c && t[1..] == rest;
    }
  }

  lemma {:induction false} UnescapeEscapeEach(s: string)
    ensures Unescape(EscapeEach(s)) == s
    decreases |s|
  {
    if s != [] {
      UnescapeEscapeChar(s[0], EscapeEach(s[1..]));
      UnescapeEscapeEach(s[1..]);
      assert s == [s[0]] + s[1..];
    }
  }

  /** Decoding the entities of escaped text gives the text back. */
  lemma UnescapeEscapeHtml(s: string)
    ensures Unescape(EscapeHtml(s)) == s
  {
    EscapeHtmlIsEscapeEach(s);
    UnescapeEscapeEach(s);
  }
}
