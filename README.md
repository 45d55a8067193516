# Interactive data display, modelled in Dafny

The system turns raw text, such as an LLM's answer, into one self-contained
HTML page. The page shows the text as a list of collapsible "cards", each
with a copy button. The pipeline has three stages:

1. **Parse.** `parse_data` cuts the text into titled sections.
   - If JSON auto-parsing is on, a decoded object gives one section per key.
   - A decoded array gives one section per item, titled "Item k".
   - Any other decoded value gives one section titled "Data".
   - Otherwise the text is split on blank lines and each paragraph's short
     first line becomes its title. Text without a blank line becomes a single
     "Output" section.
2. **Escape and colour.** `_escape_html` escapes each section's content.
   `_darken_color` computes the hover colour from the theme colour.
3. **Render.** `generate_html` fills a fixed page template and appends one
   card per section.

The same pipeline has two front ends:

- the web application's `DataDisplayGenerator` (`app.py`). Its `generate`
  stores the title, colour and flags it is given, then renders;
- the plugin component `InteractiveDataDisplay` (`data_display_component.py`).
  Its `build_display` renders the page and sets a status line. If an
  exception escapes, it renders an error page instead.

The two files hold the same pipeline almost line for line. It is modelled
once and both front ends call it.

Modules:

- `Wrappers` (`wrappers.dfy`): `Option` and `Result`.
- `Text` (`text.dfy`): the ASCII string operations the code relies on.
  - substring search and `str.split`;
  - `split("\n", 1)`;
  - `strip`/`lstrip`/`rstrip` over a set of characters;
  - one-character `str.replace` and `str.title`;
  - decimal and hexadecimal numerals.
- `JsonValue` (`json.dfy`): decoded JSON values and `_format_value`.
  - The library calls `json.loads` and `json.dumps(indent=2)` are the two
    fields of a `JsonLib` parameter.
  - `loads` either returns a value, raises a decoding error (which the parser
    catches), or raises any other exception (which escapes).
- `HtmlEscape` (`escape.dfy`): `_escape_html`, as the five chained
  replacements, with an entity decoder `Unescape` as its inverse.
- `Color` (`color.dfy`): `_darken_color` with its one argument in use, 0.1.
  Each channel `c` becomes `int(c * 0.9)`, which is `9 * c / 10` rounded down.
- `SectionParser` (`parser.dfy`): `parse_data`.
  - A specification function, `Parse`.
  - The method `ParseData`, with its append loops over members, items and
    paragraphs.
  - The lemmas.
- `PageRenderer` (`renderer.dfy`): `generate_html`.
  - A specification function, `RenderPage`.
  - The methods `GenerateHtml` and `SectionsHtml`, the latter being the loop
    that accumulates `sections_html`.
  - The card and page lemmas.
- `Frontends` (`frontends.dfy`): the two classes.
  - Their fields are the settings that `generate` overwrites and the `status`
    that `build_display` sets.
  - It also holds the status line and the error page.
- `Scenarios` (`scenarios.dfy`): concrete inputs like those of the
  repository's test scripts.

## Model

| member | source | states |
|---|---|---|
| SectionParser.ParseData | app.py:22-81 | the result of `parse_data` is `Parse`: decoded JSON sections, a failure carrying the message of an exception other than a decoding error, or the text sections |
| SectionParser.SectionsFromJson | app.py:31-51 | the JSON branch yields the sections of the decoded value, dispatching on object, array and other value |
| SectionParser.SectionsFromMembers | app.py:31-37 | the loop over `parsed.items()` appends, in order, one section per member, titled by its key |
| SectionParser.SectionsFromItems | app.py:38-44 | the loop over `enumerate(parsed)` appends "Item k+1" for the k-th item, in order |
| SectionParser.SectionsFromText | app.py:55-79 | with a blank line the text is split and its parts turned into sections; without one the result is the single section "Output" holding the unchanged text |
| SectionParser.SectionsFromParts | app.py:58-73 | the loop over the parts appends one section per part, skipping blank parts, and the result equals `PartSections` |
| SectionParser.SectionFromPart | app.py:59-68 | one pass of that loop: the part counts as non-blank exactly when `part.strip()` is non-empty, and then its section is the one `PartSection` gives by the short-first-line rule |
| SectionParser.ParseObject | app.py:31-37 | a decoded object with N members gives exactly N sections, in member order, each titled by `KeyTitle` of its key and holding the formatted value |
| SectionParser.KeyTitleChars | app.py:35 | `str(key).replace("_", " ").title()`, character by character: `_` becomes a space, and a letter at the start or after a non-letter is upper-cased while every other letter is lower-cased; the length is kept |
| SectionParser.KeyTitleTwoWords | app.py:35 | two lower-case words joined by `_` (such as `key_findings`) become both words capitalised, separated by a space |
| SectionParser.ParseArray | app.py:38-44 | a decoded array of N items gives sections "Item 1" .. "Item N", in order, with each item's formatted value |
| SectionParser.ParseEmptyCollection | app.py:51 | an empty object or array gives zero sections, and the text fallback is not tried |
| SectionParser.ParseScalar | app.py:45-49 | a decoded scalar gives exactly one section, "Data", holding its `str()` |
| SectionParser.ParseSingleOutput | app.py:52-53 | when auto-parsing is off, or decoding fails, and the text has no blank line, the result is exactly one section "Output" holding the text unchanged; the decoding error does not reach the caller |
| SectionParser.ParseRaises | app.py:27-53 | an exception other than a decoding error escapes as a failure with its message, and with auto-parsing off the decoder is never consulted |
| SectionParser.ParseEmptyText | app.py:74-79 | the empty text, when not decoded, gives one "Output" section with empty content |
| SectionParser.ParseWhitespaceOnly | app.py:56-73 | whitespace-only text that contains a blank line gives zero sections |
| SectionParser.PartSectionsMatchNonBlank | app.py:58-73 | the paragraph sections correspond one to one, and in order, to the non-blank parts of the split; the number in "Section k" is the part's 1-based index among all parts, blank ones included |
| SectionParser.NonBlankIndicesSound | app.py:60 | every index listed is that of a part containing something besides whitespace |
| SectionParser.NonBlankIndicesIncreasing | app.py:59 | the listed indices are strictly increasing, so the order of the parts is kept |
| SectionParser.NonBlankIndicesComplete | app.py:60 | every non-blank part is listed |
| SectionParser.PartSectionHeuristic | app.py:62-68 | when the stripped part has a first newline at position n < 100, the title is the text before it stripped of `#`, `*` and spaces, and the content is the text after it; otherwise the title is "Section k" and the content is the original, unstripped part |
| SectionParser.JoinKeepsChars | app.py:57 | every part of a split is made of characters in the text |
| SectionParser.AllBlankNoSections | app.py:60 | parts that are all blank give no section |
| JsonValue.FormatValue | app.py:83-87 | an object or list is shown as its indented JSON text; any other value as its `str()` form (`ScalarString`), so a string as itself |
| JsonValue.ScalarString | app.py:87 | Python's `str()` of a scalar: `None`, `True`/`False`, a string unchanged, and an integer in canonical decimal (no leading zero), preceded by `-` exactly when negative |
| Text.Split | app.py:57 | `str.split("\n\n")`: joining the parts with the separator gives the text back, no part contains the separator, and there is more than one part exactly when the text contains it |
| Text.SplitCutsLeftmost | app.py:57 | `str.split` cuts at the leftmost occurrence each time: the separator never starts inside a part it follows, which, with the contract of `Split`, fixes every cut |
| Text.SplitOnce | app.py:62 | `split("\n", 1)`: one piece exactly when there is no newline; otherwise the text before the first newline and the text after it |
| Text.SplitOnceAt | app.py:62 | when the first newline is at n, the two pieces are `s[..n]` and `s[n+1..]` |
| Text.StripChars | app.py:64 | `strip(chars)` returns the infix left after removing the characters of the set at both ends, and neither of its ends is in the set |
| Text.ReplaceCharSpec | app.py:35 | `replace(c, rep)` with a one-character `rep` keeps the length and replaces exactly the occurrences of `c` |
| Text.Title | app.py:35 | `str.title` on ASCII text, character by character |
| Text.NatToString | app.py:42 | `str(n)`: decimal digits without a leading zero, which denote `n` |
| HtmlEscape.EscapeHtmlSafe | data_display_component.py:447-454 | the output of `_escape_html` contains no `<`, `>`, `"` or `'` |
| HtmlEscape.EscapedAmpersandsBeginEntities | data_display_component.py:447-454 | every `&` in the output begins `&amp;`, `&lt;`, `&gt;`, `&quot;` or `&#39;`, because `&` is replaced first |
| HtmlEscape.UnescapeEscapeHtml | data_display_component.py:447-454 | decoding the five entities of `_escape_html(s)` gives `s` back |
| HtmlEscape.EscapeHtmlPlain | data_display_component.py:447-454 | `_escape_html` is the identity on text containing none of the five characters |
| HtmlEscape.EscapeHtmlIsEscapeEach | data_display_component.py:447-454 | the five chained replacements equal escaping each character on its own |
| HtmlEscape.EscapeHtmlAppend | data_display_component.py:447-454 | escaping distributes over concatenation |
| HtmlEscape.EscapeHtmlChar | data_display_component.py:447-454 | the chain maps a single character to its entity, or keeps it |
| HtmlEscape.EscapeChar | data_display_component.py:449-454 | a character's replacement begins with `&` exactly when it is one of the five special characters |
| Color.ParseChannels | data_display_component.py:460 | the three slices `[0:2]`, `[2:4]`, `[4:6]` parse as hexadecimal exactly when there are at least five characters and each of the first six is a hex digit; each channel is below 256 |
| Color.Darken | data_display_component.py:461-463 | `int(c * 0.9)`: the largest `d` with `10 d <= 9 c`, never above `c` |
| Color.FormatColor | data_display_component.py:464 | `#` followed by six lower-case hex digits |
| Color.FormatColorParses | data_display_component.py:460-464 | reading back what is printed gives the same three channels |
| Color.DarkenColorDarkens | data_display_component.py:456-464 | on a colour that parses, the result is `#` plus three lower-case two-digit channels, each the darkened channel and no brighter than before |
| Color.DarkenColorUsesSixDigits | data_display_component.py:460 | only the first six characters after the `#` signs matter |
| Color.DarkenColorFallback | data_display_component.py:459-466 | when the channels do not parse, the result is the input with its leading `#` signs already stripped, not the original input |
| PageRenderer.GenerateHtml | data_display_component.py:125-445 | `generate_html` returns `RenderPage`: the template around the title, the theme colour and its darkened form, and the cards |
| PageRenderer.SectionsHtml | data_display_component.py:128-153 | the loop accumulates exactly the concatenation of the cards of all sections, in order |
| PageRenderer.CardsInOrder | data_display_component.py:132-153 | one card per section, in input order: the k-th card sits right after the cards of the first k sections |
| PageRenderer.PageHoldsEveryCard | data_display_component.py:155-390 | the page contains the card of every section |
| PageRenderer.CardUsesId | data_display_component.py:133-149 | the k-th card (0-based) uses `section-k` in its `toggleSection` call, in its `copyText` call and as the id of its content element |
| PageRenderer.SectionIdsDistinct | data_display_component.py:133 | different cards get different ids |
| PageRenderer.CardOpensWithSharedClass | data_display_component.py:128-135 | every card opens with the same tag, which carries "collapsed" exactly when the page starts collapsed |
| PageRenderer.CardPlacesContent | data_display_component.py:150 | the escaped content sits right after `<pre class="content-text">`, and `</pre>` follows it |
| PageRenderer.CardShowsContent | data_display_component.py:150 | the content region holds no `<`, so the `<pre>` element ends at its own `</pre>`, and decoding its five entities gives the section's content back |
| PageRenderer.CardShowsRawTitle | data_display_component.py:139 | the title is inserted into `<h3>` as it is, without escaping |
| PageRenderer.PageStartsWithHead | data_display_component.py:155-161 | the page starts with the template's fixed head |
| Frontends.DataDisplayGenerator.constructor | app.py:16-20 | the defaults are "LLM Data Display", `#4F46E5`, auto-parse on and not collapsed |
| Frontends.DataDisplayGenerator.Generate | app.py:450-461 | a given, non-empty title or colour replaces the stored one; otherwise the stored one is kept; both flags are always overwritten; the result is the page for the parsed sections under the new settings, or a failure carrying the message of an exception that escapes the parser |
| Frontends.FrontEndsAgree | app.py:450-461 | `generate` fails exactly when the decoder raises something other than a decoding error, and it then fails with the message the component's error page shows |
| Frontends.InteractiveDataDisplay.constructor | data_display_component.py:18-48 | the component holds its five inputs and has no status yet |
| Frontends.InteractiveDataDisplay.BuildDisplay | data_display_component.py:468-513 | the text is the rendered page, or the error page on an exception; on success the status becomes "Generated display with N section(s)", and on an exception it is left as it was |
| Frontends.StatusLineCounts | data_display_component.py:486 | the status line carries the number of sections in decimal, between its fixed words |
| Frontends.InputPreview | data_display_component.py:508 | the error page shows the input's first 500 characters, or all of it when it is shorter |
| Frontends.ErrorPageShowsMessageAndInput | data_display_component.py:490-513 | the error page holds the escaped message and the escaped input preview at fixed places; both are free of `<` and decode back to the message and the preview |
| Frontends.DisplayIsErrorPageIff | data_display_component.py:472-513 | `build_display` shows the error page exactly when the decoder raised something other than a decoding error |
| Scenarios.SingleLineIsOutput | data_display_component.py:92-117 | any text without a newline that is not decoded (auto-parse off, or a decoding error) becomes the single section "Output" holding it unchanged |
| Scenarios.CollapsedFiveSections | data_display_component.py:128-153 | an object of five members with `collapsed` on gives five sections, the page holds each one's card, every card opens with the class carrying "collapsed", and the status (data_display_component.py:486) reads "Generated display with 5 section(s)" |

## Left out

- The Flask routes, the page templates they render and the server start-up
  (`app.py` from line 464) are HTTP glue. This includes the 400 reply for an
  empty `data` field.
- The Langflow registration is a foreign framework and is not modelled: the
  class attributes, the input and output declarations, and the `Message`
  wrapper. `build_display` returns the page text itself.
- The page template is held as fixed strings with comments in place of the
  CSS rules, the browser script (`toggleSection`, `copyText`, `showToast` and
  the clipboard calls), the viewport tag and the copy icon's SVG drawing.
  - The markup right around every inserted value is kept character for
    character.
  - The error page's style rules are abbreviated the same way.
  - Properties about the page hold for any template of the same shape. They
    are stated over a `Template` value, not the two literal templates.
- `json.loads` and `json.dumps(indent=2)` are parameters, the `JsonLib`
  value. Their grammar and layout are library internals.
- Floats are not modelled. A JSON float carries the text its `str()` gives.
  `_darken_color`'s general `amount` is fixed at 0.1, its only use.
- `int(x, 16)` also accepts a sign, surrounding whitespace and underscores.
  The model accepts plain ASCII hex digits only.
- `str.strip()` and `str.title()` follow Unicode's whitespace and letter
  classes. The model uses the ASCII ones.
- The browser's handling of the page, which is event-driven and
  asynchronous, is not modelled.
- CardShowsContent: is about decoding the five entities only. An HTML parser
  makes changes of its own that the model leaves out. It drops a line feed
  that comes right after the `<pre>` start tag, and it turns CR and CRLF
  into LF. So for content such as "\nfoo" or "a\r\nb", the text the page
  shows and `copyText` copies differs from the section's content.
- The concrete templates are constants held by each class. Properties of a
  whole page are proved for any template, not by computing on these
  literals.
- Python's `except (json.JSONDecodeError, ValueError)` also covers
  `_format_value`. The model's `dumps` is total, so only the decoding step
  can fail. `json.dumps(indent=2)` can, however, raise `RecursionError` on a
  value nested more deeply than its encoder can re-encode, and `json.loads`
  may return such a value. That exception is not caught at app.py:52 or
  data_display_component.py:88: `generate` raises, and `build_display` shows
  its error page. The model leaves out this exception.
- DisplayIsErrorPageIff: states "error page exactly when the decoder raised
  something other than a decoding error". This holds only under the total
  `dumps` above: in the program, a `RecursionError` from `json.dumps` on very
  deep nesting also leads to the error page.
- FrontEndsAgree: states "`generate` fails exactly when the decoder raises".
  This holds only under the same total `dumps`: a `RecursionError` from
  `json.dumps` also makes `generate` raise.
- Generate: the Python defaults `auto_parse=True` and `collapsed=False` at
  app.py:450-451 are not modelled. Dafny has no default arguments here, so
  the caller always passes both flags.
- The model keeps these behaviours of the code, though a reader might expect
  otherwise:
  - card titles are inserted unescaped;
  - "Section k" counts blank parts too (PartSectionsMatchNonBlank);
  - on failure `_darken_color` returns the text with its `#` signs stripped
    (DarkenColorFallback);
  - five hex digits are accepted, because the slice `[4:6]` then has one
    digit (ParseChannels);
  - an empty JSON object or array gives a page with no card;
  - a paragraph whose first line is only `#`, `*` and spaces gets an empty
    title.
