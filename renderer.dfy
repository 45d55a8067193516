/** `generate_html`: the page around the cards is a fixed template; the part
    modelled closely is the loop that emits one card per section. */
module PageRenderer {
  import opened Text
  import opened HtmlEscape
  import opened Color
  import opened SectionParser

  /** The fixed text of a page and of its cards, cut at the places where
      values are inserted. The style rules, the browser script, the viewport
      tag and the copy icon's drawing are abbreviated to comments; the
      markup around every inserted value is kept. The short tags around a card's title and content are
      spelled out below, since properties depend on them. */
  datatype Template = Template(
    head: string,              // up to the title in <title>
    afterTitle: string,        // up to the header background colour
    afterHeaderColor: string,  // up to the darkened hover colour
    afterHoverColor: string,   // up to the content border colour
    afterBorderColor: string,  // up to the title in <h1>
    afterHeading: string,      // up to the cards
    tail: string,              // after the cards: toast, script, end of page
    cardToToggle: string,      // after a card's opening tag, up to toggleSection('
    cardToIcon: string,        // after the id, up to the toggle glyph
    toggleIcon: string,        // the glyph in each card header
    cardToTitle: string,       // after the glyph, up to <h3>
    cardToCopy: string,        // after </h3>, up to copyText('
    cardToContentId: string,   // after the id, up to the content div's id
    cardToContent: string,     // after that id, up to <pre class="content-text">
    cardFoot: string)          // after </pre>, to the end of the card

  /** Where the two pages of the system, this one and the error page,
      start to differ. */
  const DocStart: string := "\n<!DOCTYPE html>\n<html"
  const PageHead: string := DocStart + " " + HtmlTagRest
  const HtmlTagRest: string :=
    "lang=\"en\">\n<head>\n    <meta charset=\"UTF-8\">\n    <title>"
  const PageAfterTitle: string :=
    "</title>\n    <style>\n        /* ... */\n        .section-header {\n            background: "
  const PageAfterHeaderColor: string :=
    ";\n            /* ... */\n        }\n        .section-header:hover {\n            background: "
  const PageAfterHoverColor: string :=
    ";\n        }\n        /* ... */\n        .content-text {\n            /* ... */\n            border-left: 4px solid "
  const PageAfterBorderColor: string :=
    ";\n            /* ... */\n        }\n        /* ... */\n    </style>\n</head>\n<body>\n    <div class=\"container\">\n        <div class=\"header\">\n            <h1>"
  const PageTail: string :=
    "\n        </div>\n    </div>\n    <div class=\"toast\" id=\"toast\">Copied to clipboard!</div>\n    <script>/* ... */</script>\n</body>\n</html>\n        "
  const CardToToggle: string :=
    "\n                <div class=\"section-header\" onclick=\"toggleSection('"
  const CardToIcon: string :=
    "')\">\n                    <div class=\"section-title\">\n                        <span class=\"toggle-icon\">"
  const CardToTitle: string :=
    "</span>\n                        "
  const CardToCopy: string :=
    "\n                    </div>\n                    <button class=\"copy-btn\" onclick=\"copyText('"
  const CardToContentId: string :=
    "', event)\" title=\"Copy to clipboard\">\n                        <svg><!-- ... --></svg>\n                        Copy\n                    </button>\n                </div>\n                <div class=\"section-content\" id=\""
  const CardToContent: string :=
    "\">\n                    "
  const CardFoot: string :=
    "\n                </div>\n            </div>\n            "

  /** The page of the plugin component. */
  const ComponentTemplate: Template := Template(
    PageHead, PageAfterTitle, PageAfterHeaderColor, PageAfterHoverColor, PageAfterBorderColor,
    "</h1>\n            <p>Click on sections to expand/collapse \U{2022} Click copy to copy text</p>\n        </div>\n        <div class=\"sections-container\">\n            ",
    PageTail,
    CardToToggle, CardToIcon, "\U{25BC}", CardToTitle, CardToCopy, CardToContentId, CardToContent,
    CardFoot)

  /** The page of the web application: its header adds a link back to the
      form, and its glyphs are the characters stored in that file. */
  const AppTemplate: Template := Template(
    PageHead, PageAfterTitle, PageAfterHeaderColor, PageAfterHoverColor, PageAfterBorderColor,
    "</h1>\n            <p>Click on sections to expand/collapse \U{201A}\U{C4}\U{A2} Click copy to copy text</p>\n            <br>\n            <a href=\"/\" class=\"back-link\">\U{201A}\U{DC}\U{EA} Enter New Data</a>\n        </div>\n        <div class=\"sections-container\">\n            ",
    PageTail,
    CardToToggle, CardToIcon, "\U{201A}\U{F1}\U{BA}", CardToTitle, CardToCopy, CardToContentId,
    CardToContent, CardFoot)

  /** `collapsed_class`: one class string shared by every card. */
  function CollapsedClass(collapsed: bool): string {
    if collapsed then "collapsed" else ""
  }

  /** `f"section-{idx}"`. */
  function SectionId(k: nat): string {
    "section-" + NatToString(k)
  }

  /** The opening tag of a card, carrying the shared class string. */
  function CardOpening(cc: string): string {
    "\n            <div class=\"section-card " + cc + "\">"
  }

  const PreOpen: string := "<pre class=\"content-text\">"
  const PreClose: string := "</pre>"

  /** The card's title element; the title goes in as it is, unescaped. */
  function TitleElement(title: string): string {
    "<h3>" + title + "</h3>"
  }

  /** The clickable header of a card with the given id, with its copy
      button. */
  function CardHeader(t: Template, id: string, title: string): string {
    (t.cardToToggle + id + t.cardToIcon + t.toggleIcon + t.cardToTitle)
      + TitleElement(title)
      + (t.cardToCopy + id + t.cardToContentId)
  }

  /** Everything of a card before its escaped content. */
  function CardHead(t: Template, id: string, title: string, cc: string): string {
    CardOpening(cc) + CardHeader(t, id, title) + (id + t.cardToContent + PreOpen)
  }

  /** The f-string of the loop body of `generate_html`, with the four values
      it inserts: the class string, the id, the raw title and the escaped
      content. */
  function CardLayout(t: Template, id: string, title: string, escaped: string, cc: string): string {
    CardHead(t, id, title, cc) + (escaped + PreClose + t.cardFoot)
  }

  /** The `k`-th card (0-based) for section `sec`. */
  function Card(t: Template, k: nat, sec: Section, cc: string): string {
    CardLayout(t, SectionId(k), sec.title, EscapeHtml(sec.content), cc)
  }

  /** The cards of `secs`, one per section, in order. */
  function CardList(t: Template, secs: seq<Section>, cc: string): seq<string> {
    seq(|secs|, k requires 0 <= k < |secs| => Card(t, k, secs[k], cc))
  }

  /** The strings of `ss` one after the other. */
  function Concat(ss: seq<string>): string
    decreases |ss|
  {
    if ss == [] then "" else Concat(ss[..|ss| - 1]) + ss[|ss| - 1]
  }

  /** `sections_html` after the loop has run over all of `secs`. */
  function Cards(t: Template, secs: seq<Section>, cc: string): string {
    Concat(CardList(t, secs, cc))
  }

  /** The text of the page before its cards. */
  function PageBeforeCards(t: Template, title: string, themeColor: string): string {
    t.head + PageSettings(t, title, themeColor)
  }

  /** The part of the page before the cards that carries the title, the
      theme colour and its darkened form. */
  function PageSettings(t: Template, title: string, themeColor: string): string {
    title + t.afterTitle + themeColor + t.afterHeaderColor + DarkenColor(themeColor)
      + t.afterHoverColor + themeColor + t.afterBorderColor + title + t.afterHeading
  }

  /** The whole page for `secs` with the given title, theme colour and
      initial collapsed state. */
  function RenderPage(t: Template, title: string, themeColor: string, collapsed: bool,
                      secs: seq<Section>): string
  {
    PageBeforeCards(t, title, themeColor) + Cards(t, secs, CollapsedClass(collapsed)) + t.tail
  }

  /** `generate_html`: the page around the cards the loop accumulates. */
  method GenerateHtml(t: Template, title: string, themeColor: string, collapsed: bool,
                      sections: seq<Section>) returns (html: string)
    ensures html == RenderPage(t, title, themeColor, collapsed, sections)
  {
    var collapsedClass := CollapsedClass(collapsed);
    var sectionsHtml := SectionsHtml(t, sections, collapsedClass);
    html := PageBeforeCards(t, title, themeColor) + sectionsHtml + t.tail;
  }

  /** The loop of `generate_html` that appends one card per section. */
  method SectionsHtml(t: Template, sections: seq<Section>, collapsedClass: string)
    returns (sectionsHtml: string)
    ensures sectionsHtml == Cards(t, sections, collapsedClass)
  {
    ghost var cards := CardList(t, sections, collapsedClass);
    sectionsHtml := "";
    var idx := 0;
    while idx < |sections|
      invariant 0 <= idx <= |sections|
      invariant sectionsHtml == Concat(cards[..idx])
    {
      ConcatStep(cards, idx);
      sectionsHtml := sectionsHtml + Card(t, idx, sections[idx], collapsedClass);
      idx := idx + 1;
    }
    assert cards[..idx] == cards;
  }

  // ----- properties -------------------------------------------------------

  /** One more string extends the concatenation by that string. */
  lemma ConcatStep(ss: seq<string>, k: nat)
    requires k < |ss|
    ensures Concat(ss[..k + 1]) == Concat(ss[..k]) + ss[k]
  {
    assert ss[..k + 1][..k] == ss[..k];
  }

  /** A prefix of the strings gives a prefix of their concatenation. */
  lemma {:induction false} ConcatPrefix(ss: seq<string>, k: nat)
    requires k <= |ss|
    ensures Concat(ss[..k]) <= Concat(ss)
    decreases |ss|
  {
    if k < |ss| {
      var n := |ss| - 1;
      assert ss[..n][..k] == ss[..k];
      ConcatPrefix(ss[..n], k);
    } else {
      assert ss[..k] == ss;
    }
  }

  /** The `k`-th string sits right after the first `k`. */
  lemma ConcatHolds(ss: seq<string>, k: nat)
    requires k < |ss|
    ensures OccursAt(Concat(ss), ss[k], |Concat(ss[..k])|)
  {
    assert ss[..k + 1][..k] == ss[..k];
    ConcatPrefix(ss, k + 1);
    PrefixSlice(Concat(ss[..k]), ss[k], Concat(ss));
  }

  /** The cards of the first `k` sections are the first `k` cards. */
  lemma CardListPrefix(t: Template, secs: seq<Section>, k: nat, cc: string)
    requires k <= |secs|
    ensures CardList(t, secs, cc)[..k] == CardList(t, secs[..k], cc)
  {
  }

  /** One card per section, in order: the `k`-th card sits right after the
      cards of the first `k` sections. */
  lemma CardsInOrder(t: Template, secs: seq<Section>, k: nat, cc: string)
    requires k < |secs|
    ensures OccursAt(Cards(t, secs, cc), Card(t, k, secs[k], cc), |Cards(t, secs[..k], cc)|)
  {
    CardListPrefix(t, secs, k, cc);
    ConcatHolds(CardList(t, secs, cc), k);
  }

  lemma PrefixSlice(a: string, b: string, c: string)
    requires a + b <= c
    ensures |a| + |b| <= |c| && c[|a|..|a| + |b|] == b
  {
    forall i | 0 <= i < |b|
      ensures c[|a|..|a| + |b|][i] == b[i]
    {
      assert c[|a| + i] == (a + b)[|a| + i];
    }
  }

  /** Cards of different sections have different ids, so toggling or copying
      one card never reaches another. */
  lemma SectionIdsDistinct(j: nat, k: nat)
    requires j != k
    ensures SectionId(j) != SectionId(k)
  {
    SectionIdEndsInNumber(j);
    SectionIdEndsInNumber(k);
  }

  lemma SectionIdEndsInNumber(k: nat)
    ensures SectionId(k)[|"section-"|..] == NatToString(k)
  {
  }

  /** Every card of a page starts with the same opening tag; it carries the
      class "collapsed" exactly when the page starts collapsed. */
  lemma CardOpensWithSharedClass(t: Template, k: nat, sec: Section, collapsed: bool)
    ensures CardOpening(CollapsedClass(collapsed)) <= Card(t, k, sec, CollapsedClass(collapsed))
    ensures Contains(CardOpening(CollapsedClass(collapsed)), "collapsed") <==> collapsed
  {
    LayoutOpens(t, SectionId(k), sec.title, EscapeHtml(sec.content), CollapsedClass(collapsed));
    OpeningMarksCollapsed(collapsed);
  }

  lemma LayoutOpens(t: Template, id: string, title: string, e: string, cc: string)
    ensures CardOpening(cc) <= CardLayout(t, id, title, e, cc)
  {
    PrefixOfAppend(CardOpening(cc), CardHeader(t, id, title) + (id + t.cardToContent + PreOpen),
      e + PreClose + t.cardFoot);
  }

  lemma OpeningMarksCollapsed(collapsed: bool)
    ensures Contains(CardOpening(CollapsedClass(collapsed)), "collapsed") <==> collapsed
  {
    var op := CardOpening(CollapsedClass(collapsed));
    var pre := "\n            <div class=\"section-card ";
    if collapsed {
      assert OccursAt(op, "collapsed", |pre|);
    } else {
      assert op == pre + "\">";
      assert 'p' !in op;
      if Contains(op, "collapsed") {
        CollapsedNeedsP(op);
      }
    }
  }

  lemma PrefixOfAppend(a: string, b: string, c: string)
    ensures a <= a + b + c
  {
    assert a + b + c == a + (b + c);
  }

  lemma CollapsedNeedsP(s: string)
    requires Contains(s, "collapsed")
    ensures 'p' in s
  {
    var i :| 0 <= i <= |s| && OccursAt(s, "collapsed", i);
    assert s[i..i + 9][5] == 'p';
  }

  /** The content sits right after the card's `<pre class="content-text">`
      tag, escaped, and the `</pre>` follows it. */
  lemma CardPlacesContent(t: Template, k: nat, sec: Section, cc: string)
    ensures var card := Card(t, k, sec, cc);
      var h := |CardHead(t, SectionId(k), sec.title, cc)|;
      var e := EscapeHtml(sec.content);
      && OccursAt(card, PreOpen, h - |PreOpen|)
      && OccursAt(card, e, h)
      && OccursAt(card, PreClose, h + |e|)
  {
    LayoutPlacesContent(t, SectionId(k), sec.title, EscapeHtml(sec.content), cc);
  }

  lemma LayoutPlacesContent(t: Template, id: string, title: string, e: string, cc: string)
    ensures var card := CardLayout(t, id, title, e, cc);
      var h := |CardHead(t, id, title, cc)|;
      && OccursAt(card, PreOpen, h - |PreOpen|)
      && OccursAt(card, e, h)
      && OccursAt(card, PreClose, h + |e|)
  {
    var head := CardHead(t, id, title, cc);
    HeadEndsWithPreOpen(t, id, title, cc);
    OccursLeft(head, e + PreClose + t.cardFoot, PreOpen, |head| - |PreOpen|);
    TailPlacesContent(e, t.cardFoot);
    OccursRight(head, e + PreClose + t.cardFoot, e, 0);
    OccursRight(head, e + PreClose + t.cardFoot, PreClose, |e|);
  }

  lemma HeadEndsWithPreOpen(t: Template, id: string, title: string, cc: string)
    ensures |PreOpen| <= |CardHead(t, id, title, cc)|
    ensures OccursAt(CardHead(t, id, title, cc), PreOpen, |CardHead(t, id, title, cc)| - |PreOpen|)
  {
    OccursAtEnd(CardOpening(cc) + CardHeader(t, id, title), id + t.cardToContent, PreOpen);
  }

  /** `x` ends `a + (b + x)`. */
  lemma OccursAtEnd(a: string, b: string, x: string)
    ensures OccursAt(a + (b + x), x, |a| + |b|)
  {
    OccursRight(b, x, x, 0);
    OccursRight(a, b + x, x, |b|);
  }

  lemma TailPlacesContent(e: string, foot: string)
    ensures OccursAt(e + PreClose + foot, e, 0)
    ensures OccursAt(e + PreClose + foot, PreClose, |e|)
  {
    OccursLeft(e, PreClose, e, 0);
    OccursLeft(e + PreClose, foot, e, 0);
    OccursRight(e, PreClose, PreClose, 0);
    OccursLeft(e + PreClose, foot, PreClose, |e|);
  }

  /** The escaped content holds no `<`, so the `<pre>` element ends exactly
      at the `</pre>` after it, and decoding its entities gives the section's
      content back. */
  lemma CardShowsContent(t: Template, k: nat, sec: Section, cc: string)
    ensures var card := Card(t, k, sec, cc);
      var h := |CardHead(t, SectionId(k), sec.title, cc)|;
      var e := EscapeHtml(sec.content);
      && OccursAt(card, e, h)
      && (forall i :: h <= i < h + |e| ==> card[i] != '<')
      && Unescape(card[h..h + |e|]) == sec.content
  {
    CardPlacesContent(t, k, sec, cc);
    EscapeHtmlSafe(sec.content);
    UnescapeEscapeHtml(sec.content);
  }

  /** An occurrence in `a` is one in `a + b`, at the same place. */
  lemma OccursLeft(a: string, b: string, x: string, i: nat)
    requires OccursAt(a, x, i)
    ensures OccursAt(a + b, x, i)
  {
    assert (a + b)[i..i + |x|] == a[i..i + |x|];
  }

  /** An occurrence in `b` is one in `a + b`, shifted by `|a|`. */
  lemma OccursRight(a: string, b: string, x: string, i: nat)
    requires OccursAt(b, x, i)
    ensures OccursAt(a + b, x, |a| + i)
  {
    assert (a + b)[|a| + i..|a| + i + |x|] == b[i..i + |x|];
  }

  /** The title is put in the card's `<h3>` as it is, without escaping. */
  lemma CardShowsRawTitle(t: Template, k: nat, sec: Section, cc: string)
    ensures Contains(Card(t, k, sec, cc), "<h3>" + sec.title + "</h3>")
  {
    LayoutShowsTitle(t, SectionId(k), sec.title, EscapeHtml(sec.content), cc);
  }

  lemma LayoutShowsTitle(t: Template, id: string, title: string, e: string, cc: string)
    ensures Contains(CardLayout(t, id, title, e, cc), TitleElement(title))
  {
    var lead := t.cardToToggle + id + t.cardToIcon + t.toggleIcon + t.cardToTitle;
    var el := TitleElement(title);
    var op := CardOpening(cc);
    var header := CardHeader(t, id, title);
    var head := CardHead(t, id, title, cc);
    OccursBetween(lead, el, t.cardToCopy + id + t.cardToContentId);
    OccursRight(op, header, el, |lead|);
    OccursLeft(op + header, id + t.cardToContent + PreOpen, el, |op| + |lead|);
    OccursLeft(head, e + PreClose + t.cardFoot, el, |op| + |lead|);
  }

  /** The `k`-th card names its id `section-k` three times: in the call
      that toggles it, in the call that copies it and as the id of its
      content element. */
  lemma CardUsesId(t: Template, k: nat, sec: Section, cc: string)
    ensures var card := Card(t, k, sec, cc);
      && Contains(card, t.cardToToggle + SectionId(k) + t.cardToIcon)
      && Contains(card, t.cardToCopy + SectionId(k) + t.cardToContentId)
      && Contains(card, t.cardToContentId + SectionId(k) + t.cardToContent)
  {
    LayoutUsesId(t, SectionId(k), sec.title, EscapeHtml(sec.content), cc);
  }

  lemma LayoutUsesId(t: Template, id: string, title: string, e: string, cc: string)
    ensures var card := CardLayout(t, id, title, e, cc);
      && Contains(card, t.cardToToggle + id + t.cardToIcon)
      && Contains(card, t.cardToCopy + id + t.cardToContentId)
      && Contains(card, t.cardToContentId + id + t.cardToContent)
  {
    LayoutTogglesId(t, id, title, e, cc);
    LayoutCopiesId(t, id, title, e, cc);
    LayoutNamesContent(t, id, title, e, cc);
  }

  lemma LayoutTogglesId(t: Template, id: string, title: string, e: string, cc: string)
    ensures Contains(CardLayout(t, id, title, e, cc), t.cardToToggle + id + t.cardToIcon)
  {
    var op := CardOpening(cc);
    var toggle := t.cardToToggle + id + t.cardToIcon;
    var lead := toggle + t.toggleIcon + t.cardToTitle;
    var el := TitleElement(title);
    var header := CardHeader(t, id, title);
    var head := CardHead(t, id, title, cc);
    OccursLeft(toggle, t.toggleIcon, toggle, 0);
    OccursLeft(toggle + t.toggleIcon, t.cardToTitle, toggle, 0);
    OccursLeft(lead, el, toggle, 0);
    OccursLeft(lead + el, t.cardToCopy + id + t.cardToContentId, toggle, 0);
    OccursRight(op, header, toggle, 0);
    OccursLeft(op + header, id + t.cardToContent + PreOpen, toggle, |op|);
    OccursLeft(head, e + PreClose + t.cardFoot, toggle, |op|);
  }

  lemma LayoutCopiesId(t: Template, id: string, title: string, e: string, cc: string)
    ensures Contains(CardLayout(t, id, title, e, cc), t.cardToCopy + id + t.cardToContentId)
  {
    var op := CardOpening(cc);
    var lead := t.cardToToggle + id + t.cardToIcon + t.toggleIcon + t.cardToTitle;
    var el := TitleElement(title);
    var copy := t.cardToCopy + id + t.cardToContentId;
    var header := CardHeader(t, id, title);
    var head := CardHead(t, id, title, cc);
    OccursRight(lead + el, copy, copy, 0);
    OccursRight(op, header, copy, |lead + el|);
    OccursLeft(op + header, id + t.cardToContent + PreOpen, copy, |op| + |lead + el|);
    OccursLeft(head, e + PreClose + t.cardFoot, copy, |op| + |lead + el|);
  }

  lemma LayoutNamesContent(t: Template, id: string, title: string, e: string, cc: string)
    ensures Contains(CardLayout(t, id, title, e, cc), t.cardToContentId + id + t.cardToContent)
  {
    var op := CardOpening(cc);
    var lead := t.cardToToggle + id + t.cardToIcon + t.toggleIcon + t.cardToTitle;
    var el := TitleElement(title);
    var head := CardHead(t, id, title, cc);
    OccursAcross(op, lead + el, t.cardToCopy + id, t.cardToContentId, id, t.cardToContent, PreOpen);
    OccursLeft(head, e + PreClose + t.cardFoot, t.cardToContentId + id + t.cardToContent,
      |op| + |lead + el| + |t.cardToCopy + id|);
  }

  /** `x + y1 + y2` occurs where the inner `x` ends one group and `y1 + y2`
      starts the next. */
  lemma OccursAcross(o: string, p: string, q: string, x: string, y1: string, y2: string, r: string)
    ensures OccursAt((o + (p + (q + x))) + ((y1 + y2) + r), x + y1 + y2, |o| + |p| + |q|)
  {
    var s := (o + (p + (q + x))) + ((y1 + y2) + r);
    var i := |o| + |p| + |q|;
    assert s == (o + p + q) + (x + y1 + y2) + r;
    OccursBetween(o + p + q, x + y1 + y2, r);
  }

  /** `x` occurs in `a + x + b` right after `a`. */
  lemma OccursBetween(a: string, x: string, b: string)
    ensures OccursAt(a + x + b, x, |a|)
  {
    assert (a + x + b)[|a|..|a| + |x|] == x;
  }

  /** The page holds the card of every section. */
  lemma PageHoldsEveryCard(t: Template, title: string, themeColor: string, collapsed: bool,
                           secs: seq<Section>, k: nat)
    requires k < |secs|
    ensures Contains(RenderPage(t, title, themeColor, collapsed, secs),
                     Card(t, k, secs[k], CollapsedClass(collapsed)))
  {
    var cc := CollapsedClass(collapsed);
    CardsInOrder(t, secs, k, cc);
    OccursInside(PageBeforeCards(t, title, themeColor), Cards(t, secs, cc), t.tail,
      Card(t, k, secs[k], cc), |Cards(t, secs[..k], cc)|);
  }

  lemma OccursInside(a: string, b: string, c: string, x: string, i: nat)
    requires OccursAt(b, x, i)
    ensures Contains(a + b + c, x)
  {
    OccursRight(a, b, x, i);
    OccursLeft(a + b, c, x, |a| + i);
  }

  /** Every page starts with its template's head. */
  lemma PageStartsWithHead(t: Template, title: string, themeColor: string, collapsed: bool,
                           secs: seq<Section>)
    ensures t.head <= RenderPage(t, title, themeColor, collapsed, secs)
  {
    PrefixOfFour(t.head, PageSettings(t, title, themeColor), Cards(t, secs, CollapsedClass(collapsed)),
      t.tail);
  }

  lemma PrefixOfFour(a: string, b: string, c: string, d: string)
    ensures a <= a + b + c + d
  {
    assert a + b + c + d == a + (b + c + d);
  }
}
