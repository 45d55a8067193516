/** `parse_data`: turns the raw input into an ordered list of titled
    sections, trying JSON first (when enabled) and falling back to
    blank-line-separated paragraphs or one section holding everything. */
module SectionParser {
  import opened Wrappers
  import opened Text
  import opened JsonValue

  datatype Section = Section(title: string, content: string)

  const BlankLine: string := "\n\n"

  /** The characters `str.strip("#* ")` removes from a candidate title. */
  const TitleMarks: set<char> := {'#', '*', ' '}

  /** A paragraph title candidate must be shorter than this. */
  const MaxTitleLength: nat := 100

  // ----- the specification ------------------------------------------------

  /** `str(key).replace("_", " ").title()`. */
  function KeyTitle(key: string): string {
    Title(ReplaceChar(key, '_', " "))
  }

  function ObjectSection(member: (string, Json), lib: JsonLib): Section {
    Section(KeyTitle(member.0), FormatValue(member.1, lib))
  }

  function ItemSection(k: nat, item: Json, lib: JsonLib): Section {
    Section("Item " + NatToString(k + 1), FormatValue(item, lib))
  }

  /** The sections of a decoded JSON value. */
  function JsonSections(v: Json, lib: JsonLib): seq<Section> {
    match v
    case JObject(members) =>
      seq(|members|, k requires 0 <= k < |members| => ObjectSection(members[k], lib))
    case JArray(items) =>
      seq(|items|, k requires 0 <= k < |items| => ItemSection(k, items[k], lib))
    case _ => [Section("Data", FormatValue(v, lib))]
  }

  /** A part of the blank-line split that holds something besides
      whitespace, which is when `part.strip()` is not empty (StripChars). */
  predicate IsNonBlank(part: string) {
    !AllIn(part, Whitespace)
  }

  /** The section made from the non-blank part at index `idx` of the split:
      a short first line of the stripped part becomes the title. */
  function PartSection(part: string, idx: nat): Section {
    var lines := SplitOnce(Strip(part), '\n');
    if |lines| > 1 && |lines[0]| < MaxTitleLength then
      Section(StripChars(lines[0], TitleMarks), lines[1])
    else
      Section("Section " + NatToString(idx + 1), part)
  }

  /** The sections of the first `|parts|` parts, in the order of the loop
      over `enumerate(parts)`. */
  function PartSections(parts: seq<string>): seq<Section>
    decreases |parts|
  {
    if parts == [] then []
    else
      var n := |parts| - 1;
      PartSections(parts[..n]) + (if IsNonBlank(parts[n]) then [PartSection(parts[n], n)] else [])
  }

  /** The sections of the text when JSON is not used. */
  function TextSections(data: string): seq<Section> {
    if Contains(data, BlankLine) then PartSections(Split(data, BlankLine))
    else [Section("Output", data)]
  }

  /** What `parse_data` returns, or the exception it lets escape. */
  function Parse(data: string, autoParse: bool, lib: JsonLib): Result<seq<Section>, string> {
    if autoParse && lib.loads(data).Decoded? then Success(JsonSections(lib.loads(data).value, lib))
    else if autoParse && lib.loads(data).Raised? then Failure(lib.loads(data).message)
    else Success(TextSections(data))
  }

  // ----- the operation ----------------------------------------------------

  /** `parse_data`. A decoding error is swallowed and the text fallback
      used; any other exception escapes as a Failure. */
  method ParseData(data: string, autoParse: bool, lib: JsonLib)
    returns (r: Result<seq<Section>, string>)
    ensures r == Parse(data, autoParse, lib)
  {
    if autoParse {
      var outcome := lib.loads(data);
      if outcome.Raised? {
        return Failure(outcome.message);
      }
      if outcome.Decoded? {
        var sections := SectionsFromJson(outcome.value, lib);
        return Success(sections);
      }
    }
    var sections := SectionsFromText(data);
    return Success(sections);
  }

  /** The JSON branch of `parse_data`: one section per member or item,
      appended in a loop, or one "Data" section. */
  method SectionsFromJson(parsed: Json, lib: JsonLib) returns (sections: seq<Section>)
    ensures sections == JsonSections(parsed, lib)
  {
    match parsed {
      case JObject(members) =>
        sections := SectionsFromMembers(members, lib);
      case JArray(items) =>
        sections := SectionsFromItems(items, lib);
      case _ =>
        sections := [Section("Data", FormatValue(parsed, lib))];
    }
  }

  /** The loop over `parsed.items()`. */
  method SectionsFromMembers(members: seq<(string, Json)>, lib: JsonLib)
    returns (sections: seq<Section>)
    ensures sections == JsonSections(JObject(members), lib)
  {
    sections := [];
    var i := 0;
    while i < |members|
      invariant 0 <= i <= |members|
      invariant |sections| == i
      invariant forall k :: 0 <= k < i ==> sections[k] == ObjectSection(members[k], lib)
    {
      sections := sections + [ObjectSection(members[i], lib)];
      i := i + 1;
    }
  }

  /** The loop over `enumerate(parsed)`. */
  method SectionsFromItems(items: seq<Json>, lib: JsonLib) returns (sections: seq<Section>)
    ensures sections == JsonSections(JArray(items), lib)
  {
    sections := [];
    var idx := 0;
    while idx < |items|
      invariant 0 <= idx <= |items|
      invariant |sections| == idx
      invariant forall k :: 0 <= k < idx ==> sections[k] == ItemSection(k, items[k], lib)
    {
      sections := sections + [ItemSection(idx, items[idx], lib)];
      idx := idx + 1;
    }
  }

  /** The text branch of `parse_data`: split on blank lines, or one
      "Output" section holding the text unchanged. */
  method SectionsFromText(data: string) returns (sections: seq<Section>)
    ensures sections == TextSections(data)
  {
    if IndexFrom(data, BlankLine, 0).Some? {
      assert Contains(data, BlankLine) by {
        var i := IndexFrom(data, BlankLine, 0).value;
        assert OccursAt(data, BlankLine, i) && i <= |data|;
      }
      sections := SectionsFromParts(Split(data, BlankLine));
    } else {
      assert !Contains(data, BlankLine);
      sections := [Section("Output", data)];
    }
  }

  /** The loop over `enumerate(parts)`: one section per non-blank part. */
  method SectionsFromParts(parts: seq<string>) returns (sections: seq<Section>)
    ensures sections == PartSections(parts)
  {
    sections := [];
    var idx := 0;
    while idx < |parts|
      invariant 0 <= idx <= |parts|
      invariant sections == PartSections(parts[..idx])
    {
      PartSectionsSnoc(parts, idx);
      var nonBlank, section := SectionFromPart(parts[idx], idx);
      if nonBlank {
        sections := sections + [section];
      }
      idx := idx + 1;
    }
    assert parts[..idx] == parts;
  }

  /** One more part adds its section exactly when it is non-blank. */
  lemma PartSectionsSnoc(parts: seq<string>, n: nat)
    requires n < |parts|
    ensures PartSections(parts[..n + 1]) == PartSections(parts[..n])
      + (if IsNonBlank(parts[n]) then [PartSection(parts[n], n)] else [])
  {
    assert parts[..n + 1][..n] == parts[..n];
  }

  /** The body of that loop for the part at index `idx`: whether
      `part.strip()` is non-empty, and if so the section it gives, a short
      first line of the stripped part becoming the title. */
  method SectionFromPart(part: string, idx: nat) returns (nonBlank: bool, section: Section)
    ensures nonBlank == IsNonBlank(part)
    ensures nonBlank ==> section == PartSection(part, idx)
  {
    var stripped := Strip(part);
    nonBlank := stripped != [];
    section := Section("", "");
    if nonBlank {
      var lines := SplitOnce(stripped, '\n');
      if |lines| > 1 && |lines[0]| < MaxTitleLength {
        section := Section(StripChars(lines[0], TitleMarks), lines[1]);
      } else {
        section := Section("Section " + NatToString(idx + 1), part);
      }
    }
  }

  // ----- properties -------------------------------------------------------

  /** A decoded object gives one section per member, in member order, titled
      by its key with underscores turned into spaces and title-cased. */
  lemma ParseObject(data: string, lib: JsonLib, members: seq<(string, Json)>)
    requires lib.loads(data) == Decoded(JObject(members))
    ensures Parse(data, true, lib).Success?
    ensures var secs := Parse(data, true, lib).value;
      && |secs| == |members|
      && forall k :: 0 <= k < |members| ==>
           secs[k] == Section(KeyTitle(members[k].0), FormatValue(members[k].1, lib))
  {
  }

  /** The title of a key, character by character: `_` becomes a space, a
      letter at the start or after a non-letter is upper-cased, any other
      letter lower-cased. */
  lemma KeyTitleChars(key: string)
    ensures var t := KeyTitle(key);
      && |t| == |key|
      && forall i :: 0 <= i < |key| ==>
           t[i] == (if key[i] == '_' then ' ' else TitleChar(key[i], i > 0 && IsLetter(key[i - 1])))
  {
    var u := ReplaceChar(key, '_', " ");
    ReplaceCharSpec(key, '_', " ");
    forall i | 0 <= i < |key|
      ensures KeyTitle(key)[i] == (if key[i] == '_' then ' ' else TitleChar(key[i], i > 0 && IsLetter(key[i - 1])))
    {
      assert u[i] == (if key[i] == '_' then ' ' else key[i]);
      if i > 0 {
        assert u[i - 1] == (if key[i - 1] == '_' then ' ' else key[i - 1]);
      }
    }
  }

  /** A key made of two lower-case words joined by `_`, such as
      `key_findings`, becomes the two words capitalised and separated by a
      space. */
  lemma KeyTitleTwoWords(a: string, b: string)
    requires a != [] && b != []
    requires forall i :: 0 <= i < |a| ==> IsLower(a[i])
    requires forall i :: 0 <= i < |b| ==> IsLower(b[i])
    ensures KeyTitle(a + "_" + b) == [ToUpper(a[0])] + a[1..] + " " + [ToUpper(b[0])] + b[1..]
  {
    var key := a + "_" + b;
    var want := [ToUpper(a[0])] + a[1..] + " " + [ToUpper(b[0])] + b[1..];
    KeyTitleChars(key);
    var t := KeyTitle(key);
    forall i | 0 <= i < |key| ensures t[i] == want[i] {
      if i == 0 {
        assert key[0] == a[0] && want[0] == ToUpper(a[0]);
      } else if i < |a| {
        assert key[i] == a[i] && key[i - 1] == a[i - 1] && want[i] == a[i];
      } else if i == |a| {
        assert key[i] == '_' && want[i] == ' ';
        var u := ReplaceChar(key, '_', " ");
        ReplaceCharSpec(key, '_', " ");
        assert u[i] == ' ';
        assert t[i] == TitleChar(u[i], IsLetter(u[i - 1]));
      } else if i == |a| + 1 {
        assert key[i] == b[0] && key[i - 1] == '_' && want[i] == ToUpper(b[0]);
      } else {
        var j := i - |a| - 1;
        assert key[i] == b[j] && key[i - 1] == b[j - 1] && want[i] == b[j];
      }
    }
  }

  /** A decoded array gives sections "Item 1" .. "Item N" in order. */
  lemma ParseArray(data: string, lib: JsonLib, items: seq<Json>)
    requires lib.loads(data) == Decoded(JArray(items))
    ensures Parse(data, true, lib).Success?
    ensures var secs := Parse(data, true, lib).value;
      && |secs| == |items|
      && forall k :: 0 <= k < |items| ==>
           secs[k] == Section("Item " + NatToString(k + 1), FormatValue(items[k], lib))
  {
  }

  /** An empty array or object gives no section at all: the text fallback
      is not tried. */
  lemma ParseEmptyCollection(data: string, lib: JsonLib)
    requires lib.loads(data) == Decoded(JArray([])) || lib.loads(data) == Decoded(JObject([]))
    ensures Parse(data, true, lib) == Success([])
  {
    assert JsonSections(lib.loads(data).value, lib) == [];
  }

  /** A decoded scalar gives the single section "Data" holding its `str()`. */
  lemma ParseScalar(data: string, lib: JsonLib, v: Json)
    requires lib.loads(data) == Decoded(v) && !IsComposite(v)
    ensures Parse(data, true, lib) == Success([Section("Data", ScalarString(v))])
  {
  }

  /** Without JSON (turned off, or the text did not decode) and without a
      blank line the whole text is the single section "Output"; a decoding
      error never reaches the caller. */
  lemma ParseSingleOutput(data: string, autoParse: bool, lib: JsonLib)
    requires !autoParse || lib.loads(data) == Malformed
    requires !Contains(data, BlankLine)
    ensures Parse(data, autoParse, lib) == Success([Section("Output", data)])
  {
  }

  /** Any exception other than a decoding error escapes the parser. */
  lemma ParseRaises(data: string, lib: JsonLib, message: string)
    requires lib.loads(data) == Raised(message)
    ensures Parse(data, true, lib) == Failure(message)
    ensures Parse(data, false, lib).Success?
  {
  }

  /** The empty text, when not decoded as JSON, is one empty "Output". */
  lemma ParseEmptyText(autoParse: bool, lib: JsonLib)
    requires !autoParse || lib.loads("") == Malformed
    ensures Parse("", autoParse, lib) == Success([Section("Output", "")])
  {
    assert !Contains("", BlankLine) by {
      forall i | 0 <= i <= 0 ensures !OccursAt("", BlankLine, i) { }
    }
  }

  /** The indices of the non-blank parts, in increasing order. */
  function NonBlankIndices(parts: seq<string>): seq<nat>
    decreases |parts|
  {
    if parts == [] then []
    else
      var n := |parts| - 1;
      NonBlankIndices(parts[..n]) + (if IsNonBlank(parts[n]) then [n] else [])
  }

  /** NonBlankIndices holds only indices of non-blank parts. */
  lemma {:induction false} NonBlankIndicesSound(parts: seq<string>)
    ensures forall j :: 0 <= j < |NonBlankIndices(parts)| ==>
      NonBlankIndices(parts)[j] < |parts| && IsNonBlank(parts[NonBlankIndices(parts)[j]])
    decreases |parts|
  {
    if parts != [] {
      var n := |parts| - 1;
      var front := parts[..n];
      NonBlankIndicesSound(front);
      var ix := NonBlankIndices(front);
      forall j | 0 <= j < |ix| ensures ix[j] < n && IsNonBlank(parts[ix[j]]) {
        assert front[ix[j]] == parts[ix[j]];
      }
    }
  }

  /** NonBlankIndices is strictly increasing: the parts keep their order. */
  lemma {:induction false} NonBlankIndicesIncreasing(parts: seq<string>)
    ensures forall j, j' :: 0 <= j < j' < |NonBlankIndices(parts)| ==>
      NonBlankIndices(parts)[j] < NonBlankIndices(parts)[j']
    decreases |parts|
  {
    if parts != [] {
      var n := |parts| - 1;
      NonBlankIndicesIncreasing(parts[..n]);
      NonBlankIndicesSound(parts[..n]);
    }
  }

  /** Every non-blank part's index is in NonBlankIndices. */
  lemma {:induction false} NonBlankIndicesComplete(parts: seq<string>)
    ensures forall k :: 0 <= k < |parts| && IsNonBlank(parts[k]) ==> k in NonBlankIndices(parts)
    decreases |parts|
  {
    if parts != [] {
      var n := |parts| - 1;
      var front := parts[..n];
      NonBlankIndicesComplete(front);
      forall k | 0 <= k < |parts| && IsNonBlank(parts[k]) ensures k in NonBlankIndices(parts) {
        assert NonBlankIndices(parts) == NonBlankIndices(front) + (if IsNonBlank(parts[n]) then [n] else []);
        if k < n {
          assert front[k] == parts[k];
        }
      }
    }
  }

  /** The paragraph sections correspond one to one and in order to the
      non-blank parts; the k in "Section k" counts blank parts too. */
  lemma {:induction false} PartSectionsMatchNonBlank(parts: seq<string>)
    ensures |PartSections(parts)| == |NonBlankIndices(parts)|
    ensures forall j :: 0 <= j < |NonBlankIndices(parts)| ==>
      NonBlankIndices(parts)[j] < |parts| &&
      PartSections(parts)[j] == PartSection(parts[NonBlankIndices(parts)[j]], NonBlankIndices(parts)[j])
    decreases |parts|
  {
    if parts != [] {
      var n := |parts| - 1;
      var front := parts[..n];
      PartSectionsMatchNonBlank(front);
      NonBlankIndicesSound(front);
      var ix := NonBlankIndices(front);
      var secs := PartSections(front);
      var ixAll := NonBlankIndices(parts);
      var secsAll := PartSections(parts);
      assert secsAll == secs + (if IsNonBlank(parts[n]) then [PartSection(parts[n], n)] else []);
      assert ixAll == ix + (if IsNonBlank(parts[n]) then [n] else []);
      forall j | 0 <= j < |ixAll|
        ensures ixAll[j] < |parts| && secsAll[j] == PartSection(parts[ixAll[j]], ixAll[j])
      {
        if j < |ix| {
          assert ixAll[j] == ix[j] && secsAll[j] == secs[j];
          assert front[ix[j]] == parts[ix[j]];
        } else {
          assert ixAll[j] == n;
        }
      }
    }
  }

  /** The title heuristic for one non-blank part `part`, whose stripped form
      is `t`: when the first newline of `t` comes before column 100, the text
      before it (minus `#`, `*` and spaces at both ends) is the title and the
      text after it the content; otherwise the title is "Section k" and the
      content is the whole part, not stripped. */
  lemma PartSectionHeuristic(part: string, idx: nat)
    ensures var t := Strip(part); var sec := PartSection(part, idx);
      (forall n :: 0 <= n < |t| && t[n] == '\n' && '\n' !in t[..n] ==>
         (n < MaxTitleLength ==> sec == Section(StripChars(t[..n], TitleMarks), t[n + 1..]))
         && (n >= MaxTitleLength ==> sec == Section("Section " + NatToString(idx + 1), part)))
      && ('\n' !in t ==> sec == Section("Section " + NatToString(idx + 1), part))
  {
    var t := Strip(part);
    forall n | 0 <= n < |t| && t[n] == '\n' && '\n' !in t[..n]
      ensures SplitOnce(t, '\n') == [t[..n], t[n + 1..]]
    {
      SplitOnceAt(t, '\n', n);
    }
  }

  /** Every character of each part is a character of the joined text. */
  lemma {:induction false} JoinKeepsChars(parts: seq<string>, sep: string, cs: set<char>)
    requires AllIn(Join(parts, sep), cs)
    ensures forall k :: 0 <= k < |parts| ==> AllIn(parts[k], cs)
    decreases |parts|
  {
    if |parts| > 1 {
      var j := Join(parts, sep);
      assert j == parts[0] + sep + Join(parts[1..], sep);
      assert AllIn(parts[0], cs) by {
        forall i | 0 <= i < |parts[0]| ensures parts[0][i] in cs { assert j[i] == parts[0][i]; }
      }
      assert AllIn(Join(parts[1..], sep), cs) by {
        var off := |parts[0]| + |sep|;
        forall i | 0 <= i < |Join(parts[1..], sep)| ensures Join(parts[1..], sep)[i] in cs {
          assert j[off + i] == Join(parts[1..], sep)[i];
        }
      }
      JoinKeepsChars(parts[1..], sep, cs);
      forall k | 0 <= k < |parts| ensures AllIn(parts[k], cs) {
        if k > 0 { assert parts[k] == parts[1..][k - 1]; }
      }
    }
  }

  lemma {:induction false} AllBlankNoSections(parts: seq<string>)
    requires forall k :: 0 <= k < |parts| ==> !IsNonBlank(parts[k])
    ensures PartSections(parts) == []
    decreases |parts|
  {
    if parts != [] {
      AllBlankNoSections(parts[..|parts| - 1]);
    }
  }

  /** Text made only of whitespace that contains a blank line gives no
      section at all (unless it decodes as JSON). */
  lemma ParseWhitespaceOnly(data: string, autoParse: bool, lib: JsonLib)
    requires !autoParse || lib.loads(data) == Malformed
    requires AllIn(data, Whitespace) && Contains(data, BlankLine)
    ensures Parse(data, autoParse, lib) == Success([])
  {
    var parts := Split(data, BlankLine);
    JoinKeepsChars(parts, BlankLine, Whitespace);
    AllBlankNoSections(parts);
  }
}
