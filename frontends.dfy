/** The two front ends of the pipeline: the web application's
    `DataDisplayGenerator`, whose `generate` stores its settings and renders a
    page, and the plugin component `InteractiveDataDisplay`, whose
    `build_display` renders a page or, when an exception escapes, an error
    page. */
module Frontends {
  import opened Wrappers
  import opened Text
  import opened JsonValue
  import opened HtmlEscape
  import opened SectionParser
  import opened PageRenderer

  const DefaultTitle: string := "LLM Data Display"
  const DefaultThemeColor: string := "#4F46E5"

  /** Python's truth test on an optional string argument: `None` and `""`
      are both false. */
  predicate Given(arg: Option<string>) {
    arg.Some? && arg.value != []
  }

  /** The web application's generator; its fields are the settings of the
      next page. */
  class DataDisplayGenerator {
    /** The fixed text of the pages this generator writes. */
    const template: Template
    var title: string
    var themeColor: string
    var autoParseJson: bool
    var collapsedByDefault: bool

    constructor()
      ensures template == AppTemplate
      ensures title == DefaultTitle && themeColor == DefaultThemeColor
      ensures autoParseJson && !collapsedByDefault
    {
      template := AppTemplate;
      title := DefaultTitle;
      themeColor := DefaultThemeColor;
      autoParseJson := true;
      collapsedByDefault := false;
    }

    /** `generate`: a given, non-empty title or colour replaces the stored
        one, the two flags are always replaced, and the page is rendered from
        the stored settings. An exception raised by the JSON decoder reaches
        the caller as a failure. */
    method Generate(data: string, newTitle: Option<string>, newThemeColor: Option<string>,
                    autoParse: bool, collapsed: bool, lib: JsonLib)
      returns (r: Result<string, string>)
      modifies this
      ensures title == (if Given(newTitle) then newTitle.value else old(title))
      ensures themeColor == (if Given(newThemeColor) then newThemeColor.value else old(themeColor))
      ensures autoParseJson == autoParse && collapsedByDefault == collapsed
      ensures r == GeneratedPage(template, data, title, themeColor, autoParse, collapsed, lib)
    {
      if Given(newTitle) {
        title := newTitle.value;
      }
      if Given(newThemeColor) {
        themeColor := newThemeColor.value;
      }
      autoParseJson := autoParse;
      collapsedByDefault := collapsed;
      var sections := ParseData(data, autoParseJson, lib);
      if sections.Failure? {
        return Failure(sections.error);
      }
      var html := GenerateHtml(template, title, themeColor, collapsedByDefault, sections.value);
      r := Success(html);
    }
  }

  /** What `generate` returns for the settings it has stored. */
  function GeneratedPage(t: Template, data: string, title: string, themeColor: string,
                         autoParse: bool, collapsed: bool, lib: JsonLib): Result<string, string>
  {
    match Parse(data, autoParse, lib)
    case Success(secs) => Success(RenderPage(t, title, themeColor, collapsed, secs))
    case Failure(message) => Failure(message)
  }

  /** The plugin component; its fields are the component's inputs and the
      status line the host shows. */
  class InteractiveDataDisplay {
    /** The fixed text of the page this component writes. */
    const template: Template
    var dataInput: string
    var title: string
    var themeColor: string
    var autoParseJson: bool
    var collapsedByDefault: bool
    var status: Option<string>

    /** A component with the given inputs; the host's defaults are
        `DefaultTitle`, `DefaultThemeColor`, `true` and `false`. */
    constructor(dataInput: string, title: string, themeColor: string, autoParseJson: bool,
                collapsedByDefault: bool)
      ensures this.dataInput == dataInput && this.title == title && this.themeColor == themeColor
      ensures this.autoParseJson == autoParseJson && this.collapsedByDefault == collapsedByDefault
      ensures template == ComponentTemplate
      ensures status == None
    {
      template := ComponentTemplate;
      this.dataInput := dataInput;
      this.title := title;
      this.themeColor := themeColor;
      this.autoParseJson := autoParseJson;
      this.collapsedByDefault := collapsedByDefault;
      status := None;
    }

    /** `build_display`: the rendered page and a status line counting the
        sections, or, when the decoder raises, the error page with the status
        left as it was. */
    method BuildDisplay(lib: JsonLib) returns (text: string)
      modifies this`status
      ensures text == Display(template, dataInput, title, themeColor, autoParseJson, collapsedByDefault, lib)
      ensures status == match Parse(dataInput, autoParseJson, lib)
                        case Success(secs) => Some(StatusLine(|secs|))
                        case Failure(_) => old(status)
    {
      var sections := ParseData(dataInput, autoParseJson, lib);
      if sections.Failure? {
        text := ErrorPage(sections.error, dataInput);
        return;
      }
      text := GenerateHtml(template, title, themeColor, collapsedByDefault, sections.value);
      status := Some(StatusLine(|sections.value|));
    }
  }

  /** `f"Generated display with {len(sections)} section(s)"`. */
  function StatusLine(n: nat): string {
    StatusPrefix + NatToString(n) + StatusSuffix
  }

  const StatusPrefix: string := "Generated display with "
  const StatusSuffix: string := " section(s)"

  /** The text `build_display` returns. */
  function Display(t: Template, data: string, title: string, themeColor: string, autoParse: bool,
                   collapsed: bool, lib: JsonLib): string
  {
    match Parse(data, autoParse, lib)
    case Success(secs) => RenderPage(t, title, themeColor, collapsed, secs)
    case Failure(message) => ErrorPage(message, data)
  }

  /** The part of the input the error page shows: its first 500 characters. */
  function InputPreview(data: string): (r: string)
    ensures r <= data
    ensures |r| <= 500
    ensures |data| <= 500 ==> r == data
    ensures |data| > 500 ==> |r| == 500
  {
    if |data| <= 500 then data else data[..500]
  }

  const ErrorHead: string := DocStart + ">" + ErrorHtmlTagRest
  const ErrorHtmlTagRest: string :=
    "\n<head>\n    <title>Error</title>\n    <style>\n        /* ... */\n    </style>\n</head>\n<body>\n    <div class=\"error\">\n        <h2>Error Processing Data</h2>\n        <p><strong>Error:</strong> "
  const ErrorMiddle: string :=
    "</p>\n        <p><strong>Input received:</strong></p>\n        <pre>"
  const ErrorTail: string :=
    "</pre>\n    </div>\n</body>\n</html>\n            "

  /** The error page of `build_display`, showing the escaped message and
      the escaped start of the input. */
  function ErrorPage(message: string, data: string): string {
    ErrorHead + EscapeHtml(message) + ErrorMiddle + EscapeHtml(InputPreview(data)) + ErrorTail
  }

  // ----- properties -------------------------------------------------------

  /** The status line gives the number of sections back. */
  lemma StatusLineCounts(n: nat)
    ensures var s := StatusLine(n);
      |StatusPrefix| + |StatusSuffix| < |s|
      && StatusPrefix <= s
      && s[|s| - |StatusSuffix|..] == StatusSuffix
      && AllDigits(s[|StatusPrefix|..|s| - |StatusSuffix|])
      && DecimalValue(s[|StatusPrefix|..|s| - |StatusSuffix|]) == n
  {
    var s := StatusLine(n);
    assert s[|StatusPrefix|..|s| - |StatusSuffix|] == NatToString(n);
  }

  /** The error page shows the message and the start of the input escaped,
      each between fixed markup, so decoding each region gives them back. */
  lemma ErrorPageShowsMessageAndInput(message: string, data: string)
    ensures var page := ErrorPage(message, data);
      var m := EscapeHtml(message);
      var d := EscapeHtml(InputPreview(data));
      && OccursAt(page, m, |ErrorHead|)
      && OccursAt(page, d, |ErrorHead| + |m| + |ErrorMiddle|)
      && Unescape(m) == message
      && Unescape(d) == InputPreview(data)
      && '<' !in m && '<' !in d
  {
    var m := EscapeHtml(message);
    var d := EscapeHtml(InputPreview(data));
    MessageInErrorPage(m, d);
    PreviewInErrorPage(m, d);
    UnescapeEscapeHtml(message);
    UnescapeEscapeHtml(InputPreview(data));
    EscapeHtmlSafe(message);
    EscapeHtmlSafe(InputPreview(data));
  }

  lemma MessageInErrorPage(m: string, d: string)
    ensures OccursAt(ErrorHead + m + ErrorMiddle + d + ErrorTail, m, |ErrorHead|)
  {
    OccursLeft(ErrorHead + m, ErrorMiddle, m, |ErrorHead|);
    OccursLeft(ErrorHead + m + ErrorMiddle, d, m, |ErrorHead|);
    OccursLeft(ErrorHead + m + ErrorMiddle + d, ErrorTail, m, |ErrorHead|);
  }

  lemma PreviewInErrorPage(m: string, d: string)
    ensures OccursAt(ErrorHead + m + ErrorMiddle + d + ErrorTail, d, |ErrorHead| + |m| + |ErrorMiddle|)
  {
    OccursLeft(ErrorHead + m + ErrorMiddle + d, ErrorTail, d, |ErrorHead| + |m| + |ErrorMiddle|);
  }

  /** The component shows its error page exactly when the decoder raised:
      its own page starts differently. */
  lemma DisplayIsErrorPageIff(t: Template, data: string, title: string, themeColor: string,
                              autoParse: bool, collapsed: bool, lib: JsonLib)
    requires t.head == PageHead
    ensures ErrorHead <= Display(t, data, title, themeColor, autoParse, collapsed, lib)
        <==> autoParse && lib.loads(data).Raised?
  {
    match Parse(data, autoParse, lib)
    case Success(secs) =>
      PageStartsWithHead(t, title, themeColor, collapsed, secs);
      HeadsDiffer();
      DifferentPrefixes(t.head, ErrorHead, RenderPage(t, title, themeColor, collapsed, secs),
        |DocStart|);
    case Failure(message) =>
      PrefixOfChain(ErrorHead, EscapeHtml(message), ErrorMiddle, EscapeHtml(InputPreview(data)),
        ErrorTail);
  }

  /** The two pages part at their `<html` tag. */
  lemma HeadsDiffer()
    ensures |DocStart| < |PageHead| && |DocStart| < |ErrorHead|
    ensures PageHead[|DocStart|] != ErrorHead[|DocStart|]
  {
    assert PageHead[|DocStart|] == (DocStart + " ")[|DocStart|];
    assert ErrorHead[|DocStart|] == (DocStart + ">")[|DocStart|];
  }

  lemma DifferentPrefixes(x: string, y: string, s: string, i: nat)
    requires x <= s && i < |x| && i < |y| && x[i] != y[i]
    ensures !(y <= s)
  {
  }

  lemma PrefixOfChain(a: string, b: string, c: string, d: string, e: string)
    ensures a <= a + b + c + d + e
  {
    assert a + b + c + d + e == a + (b + c + d + e);
  }

  /** `generate` fails exactly when the component would show its error page,
      and then with the message the error page shows. */
  lemma FrontEndsAgree(app: Template, component: Template, data: string, title: string,
                       themeColor: string, autoParse: bool, collapsed: bool, lib: JsonLib)
    ensures GeneratedPage(app, data, title, themeColor, autoParse, collapsed, lib).Failure?
        <==> autoParse && lib.loads(data).Raised?
    ensures GeneratedPage(app, data, title, themeColor, autoParse, collapsed, lib).Failure? ==>
      Display(component, data, title, themeColor, autoParse, collapsed, lib)
        == ErrorPage(GeneratedPage(app, data, title, themeColor, autoParse, collapsed, lib).error,
                     data)
  {
  }
}
