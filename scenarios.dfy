/** Concrete inputs of the pipeline, like those of the repository's test
    scripts. */
module Scenarios {
  import opened Wrappers
  import opened Text
  import opened JsonValue
  import opened SectionParser
  import opened PageRenderer
  import opened Frontends

  /** A line of text that is not decoded is shown whole, as "Output"; the
      test scripts' "Simple single-line text without any structure" is one. */
  lemma SingleLineIsOutput(s: string, autoParse: bool, lib: JsonLib)
    requires '\n' !in s
    requires !autoParse || lib.loads(s) == Malformed
    ensures Parse(s, autoParse, lib) == Success([Section("Output", s)])
  {
    NoNewlineNoBlankLine(s);
    ParseSingleOutput(s, autoParse, lib);
  }

  /** Text without a newline holds no blank line. */
  lemma NoNewlineNoBlankLine(s: string)
    requires '\n' !in s
    ensures !Contains(s, BlankLine)
  {
    forall i | 0 <= i <= |s| ensures !OccursAt(s, BlankLine, i) {
      if i + 2 <= |s| {
        assert s[i..i + 2][0] == s[i];
      }
    }
  }

  /** The collapsed-mode test, end to end: an object of five members with
      `collapsed` on gives five sections, the page holds each one's card,
      every card opens with the class that carries "collapsed", and the
      status reads "Generated display with 5 section(s)". */
  lemma CollapsedFiveSections(t: Template, data: string, title: string, themeColor: string,
                              lib: JsonLib, members: seq<(string, Json)>)
    requires lib.loads(data) == Decoded(JObject(members)) && |members| == 5
    ensures Parse(data, true, lib).Success?
    ensures var secs := Parse(data, true, lib).value;
      var page := Display(t, data, title, themeColor, true, true, lib);
      var cc := CollapsedClass(true);
      && |secs| == 5
      && (forall k :: 0 <= k < 5 ==>
            Contains(page, Card(t, k, secs[k], cc)) && CardOpening(cc) <= Card(t, k, secs[k], cc))
      && Contains(CardOpening(cc), "collapsed")
      && StatusLine(|secs|) == "Generated display with 5 section(s)"
  {
    ParseObject(data, lib, members);
    var secs := Parse(data, true, lib).value;
    var cc := CollapsedClass(true);
    var page := Display(t, data, title, themeColor, true, true, lib);
    assert page == RenderPage(t, title, themeColor, true, secs);
    forall k | 0 <= k < 5
      ensures Contains(page, Card(t, k, secs[k], cc)) && CardOpening(cc) <= Card(t, k, secs[k], cc)
    {
      PageHoldsEveryCard(t, title, themeColor, true, secs, k);
      CardOpensWithSharedClass(t, k, secs[k], true);
    }
    OpeningMarksCollapsed(true);
    FiveSectionsStatus();
  }

  /** The status line of five sections. */
  lemma FiveSectionsStatus()
    ensures StatusLine(5) == "Generated display with 5 section(s)"
  {
  }
}
