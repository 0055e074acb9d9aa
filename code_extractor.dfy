/** `utils/code_extractor.py`: pull the most likely code snippet and a
    language hint out of a free-form chat message.

    The regular expressions of the source are written out as explicit scans
    that follow Python's `re.search` semantics: the leftmost start position
    that can match wins, and at that position greedy and lazy quantifiers
    choose as the regex engine would. */
module CodeExtractor {
  import opened Wrappers
  import opened Text

  /** Regex `\w`, restricted to ASCII letters, digits and underscore. */
  predicate IsWordChar(c: char) {
    'a' <= c <= 'z' || 'A' <= c <= 'Z' || '0' <= c <= '9' || c == '_'
  }

  /** End of the run of word characters starting at `i`. */
  function WordRunEnd(s: string, i: nat): (e: nat)
    requires i <= |s|
    ensures i <= e <= |s|
    ensures forall k | i <= k < e :: IsWordChar(s[k])
    ensures e == |s| || !IsWordChar(s[e])
    decreases |s| - i
  {
    if i < |s| && IsWordChar(s[i]) then WordRunEnd(s, i + 1) else i
  }

  /** End of the run of backticks starting at `i`. */
  function BacktickRunEnd(s: string, i: nat): (e: nat)
    requires i <= |s|
    ensures i <= e <= |s|
    ensures forall k | i <= k < e :: s[k] == '`'
    ensures e == |s| || s[e] != '`'
    decreases |s| - i
  {
    if i < |s| && s[i] == '`' then BacktickRunEnd(s, i + 1) else i
  }

  /** First index at or after `i` holding a backtick or a newline (or the end). */
  function StopAt(s: string, i: nat): (q: nat)
    requires i <= |s|
    ensures i <= q <= |s|
    ensures forall k | i <= k < q :: s[k] != '`' && s[k] != '\n'
    ensures q == |s| || s[q] == '`' || s[q] == '\n'
    decreases |s| - i
  {
    if i < |s| && s[i] != '`' && s[i] != '\n' then StopAt(s, i + 1) else i
  }

  /** The two groups of a fenced-block match: the optional tag and the body. */
  datatype Fence = Fence(tag: string, body: string)

  /** `re.search(r"```(\w+)?\n(.*?)\n```", s, re.DOTALL)` from start position
      `i`. At a start holding three backticks, the greedy `(\w+)?` can only
      succeed with the whole run of word characters (a shorter run or none is
      followed by a word character, not by the newline), and the lazy body
      ends at the first `"\n```"` after the opening newline. */
  function FencedFrom(s: string, i: nat): (r: Option<Fence>)
    decreases |s| - i
  {
    if i + 3 > |s| then None
    else if OccursAt(s, "```", i) then
      var p := WordRunEnd(s, i + 3);
      if p < |s| && s[p] == '\n' then
        match IndexOfFrom(s, "\n```", p + 1)
        case Some(j) => Some(Fence(s[i + 3..p], s[p + 1..j]))
        case None => FencedFrom(s, i + 1)
      else FencedFrom(s, i + 1)
    else FencedFrom(s, i + 1)
  }

  /** `re.search(r"`{1,3}(?!`)(.*?)(?<!`)`{1,3}", s)` from start position `i`,
      giving group 1. At a backtick, the greedy `{1,3}` followed by the
      negative lookahead only passes when the whole run of backticks is
      taken, so runs longer than three fail there. The lazy body cannot
      cross a newline (no DOTALL) and stops at the first backtick, whose
      predecessor is then never a backtick, so the lookbehind holds. */
  function InlineFrom(s: string, i: nat): (r: Option<string>)
    decreases |s| - i
  {
    if i >= |s| then None
    else if s[i] == '`' then
      var start := BacktickRunEnd(s, i);
      if start - i <= 3 then
        var q := StopAt(s, start);
        if q < |s| && s[q] == '`' then Some(s[start..q]) else InlineFrom(s, i + 1)
      else InlineFrom(s, i + 1)
    else InlineFrom(s, i + 1)
  }

  /** `re.match(r"^ {4,}|\t", line)`: four spaces or a tab at the start. */
  predicate IsIndented(line: string) {
    StartsWith(line, "    ") || StartsWith(line, "\t")
  }

  /** The line without its leading spaces. */
  function DropLeadingSpaces(line: string): (r: string)
    ensures |r| <= |line| && r == line[|line| - |r|..]
    ensures forall k | 0 <= k < |line| - |r| :: line[k] == ' '
    ensures r == [] || r[0] != ' '
  {
    if line != [] && line[0] == ' ' then DropLeadingSpaces(line[1..]) else line
  }

  /** `re.sub(r"^ {4,}|\t", "", line, count=1)` on an indented line: the
      leftmost match is at index 0, either the whole run of leading spaces
      (greedy) or a single leading tab. */
  function Dedent(line: string): (r: string)
    requires IsIndented(line)
    ensures StartsWith(line, "    ") ==> r == DropLeadingSpaces(line)
    ensures !StartsWith(line, "    ") ==> r == line[1..]
  {
    if StartsWith(line, "    ") then DropLeadingSpaces(line) else line[1..]
  }

  /** The indented lines, in their original order. */
  function IndentedLines(lines: seq<string>): (r: seq<string>)
    ensures |r| <= |lines|
    ensures forall l :: l in r <==> l in lines && IsIndented(l)
  {
    if lines == [] then []
    else
      var last := lines[|lines| - 1];
      assert lines == lines[..|lines| - 1] + [last];
      IndentedLines(lines[..|lines| - 1]) + (if IsIndented(last) then [last] else [])
  }

  /** Each indented line with its leading run removed. */
  function DedentAll(lines: seq<string>): (r: seq<string>)
    requires forall k | 0 <= k < |lines| :: IsIndented(lines[k])
    ensures |r| == |lines|
    ensures forall k | 0 <= k < |lines| :: r[k] == Dedent(lines[k])
  {
    if lines == [] then [] else [Dedent(lines[0])] + DedentAll(lines[1..])
  }

  /** True when `text` contains at least one of `needles`. */
  predicate AnyIn(text: string, needles: seq<string>) {
    exists k | 0 <= k < |needles| :: Contains(text, needles[k])
  }

  const CodeKeywords: seq<string> := [
    "def ", "function ", "const ", "let ", "var ", "class ", "import ", "from ",
    "async ", "await ", "return ", "if ", "for ", "while ", "select ", "insert ",
    "=>", "->", "{", "}", "(", ")", "[", "]", "=", "==", "+=", ":", ";", "#"
  ]

  /** `_is_likely_code_line`: the lower-cased line holds a code keyword or symbol. */
  predicate IsLikelyCodeLine(line: string) {
    AnyIn(Lower(line), CodeKeywords)
  }

  /** A line the keyword heuristic keeps: non-blank once stripped, and its
      stripped text looks like code. */
  predicate IsCodeLine(line: string) {
    Strip(line) != "" && IsLikelyCodeLine(Strip(line))
  }

  /** The lines the keyword heuristic keeps, in their original order. */
  function CodeLines(lines: seq<string>): (r: seq<string>)
    ensures |r| <= |lines|
    ensures forall l :: l in r <==> l in lines && IsCodeLine(l)
  {
    if lines == [] then []
    else
      var last := lines[|lines| - 1];
      assert lines == lines[..|lines| - 1] + [last];
      CodeLines(lines[..|lines| - 1]) + (if IsCodeLine(last) then [last] else [])
  }

  const PythonMarkers: seq<string> := ["def ", "print(", "import ", "from ", "self."]
  const JavaScriptMarkers: seq<string> := ["function ", "const ", "let ", "var ", "=>", "console.log"]
  const GoMarkers: seq<string> := ["func ", "package ", "import ", "type ", "struct "]
  const SqlMarkers: seq<string> := ["select ", "from ", "where ", "insert into", "update ", "delete "]
  const JavaMarkers: seq<string> := ["public class", "void ", "new ", "return "]
  const ShellMarkers: seq<string> := ["echo ", "$", "export ", "sudo "]

  const Languages: set<string> := {"python", "javascript", "go", "sql", "java", "bash", "unknown"}

  /** `_detect_language`: a fixed-priority keyword classifier. Markers are
      matched in the lower-cased code; the brace and fence tests look at the
      code as given. */
  function DetectLanguage(code: string): (lang: string)
    ensures lang in Languages
    ensures lang == "java" ==> Contains(code, "{")
    ensures lang == "bash" ==> !Contains(code, "```")
    ensures code != "" && (Contains(Lower(code), "import ") || Contains(Lower(code), "from ")) ==> lang == "python"
  {
    if code == "" then "unknown"
    else
      var low := Lower(code);
      assert Contains(low, "import ") ==> Contains(low, PythonMarkers[2]);
      assert Contains(low, "from ") ==> Contains(low, PythonMarkers[3]);
      if AnyIn(low, PythonMarkers) then "python"
      else if AnyIn(low, JavaScriptMarkers) then "javascript"
      else if AnyIn(low, GoMarkers) then "go"
      else if AnyIn(low, SqlMarkers) then "sql"
      else if AnyIn(low, JavaMarkers) && Contains(code, "{") then "java"
      else if AnyIn(low, ShellMarkers) && !Contains(code, "```") then "bash"
      else "unknown"
  }

  /** Step 1 of `extract_code`: the first fenced block, if its right-stripped
      body is non-empty; the tag is lower-cased, `"unknown"` when absent. */
  function FencedStep(t: string): Option<(string, string)> {
    match FencedFrom(t, 0)
    case Some(f) =>
      var code := RStrip(f.body);
      var lang := Lower(f.tag);
      if code != "" then Some((code, if lang == "" then "unknown" else lang)) else None
    case None => None
  }

  /** Step 2: the first inline span, stripped, if non-empty. */
  function InlineStep(t: string): Option<(string, string)> {
    match InlineFrom(t, 0)
    case Some(span) => if Strip(span) != "" then Some((Strip(span), "unknown")) else None
    case None => None
  }

  /** Step 3: the indented lines, dedented, joined and stripped, if non-empty. */
  function IndentedStep(lines: seq<string>): Option<(string, string)> {
    var indented := IndentedLines(lines);
    if indented == [] then None
    else
      var code := Strip(Join(DedentAll(indented), "\n"));
      if code != "" then Some((code, DetectLanguage(code))) else None
  }

  /** Step 4: the heuristic code lines, joined and stripped. The source does
      not test this code for emptiness; `HeuristicCodeNonEmpty` shows it
      never is. */
  function HeuristicStep(lines: seq<string>): Option<(string, string)> {
    var kept := CodeLines(lines);
    if kept == [] then None
    else
      var code := Strip(Join(kept, "\n"));
      Some((code, DetectLanguage(code)))
  }

  /** The steps after the fenced block, in priority order, on stripped text. */
  function LaterSteps(t: string): (string, string) {
    var lines := Split(t, '\n');
    if InlineStep(t).Some? then InlineStep(t).value
    else if IndentedStep(lines).Some? then IndentedStep(lines).value
    else if HeuristicStep(lines).Some? then HeuristicStep(lines).value
    else ("", "")
  }

  /** `extract_code(text)`: the first heuristic that yields code wins;
      `("", "")` means no code. Lines are split at `'\n'`. */
  function Extraction(text: string): (string, string) {
    if text == "" then ("", "")
    else
      var t := Strip(text);
      if t == "" then ("", "")
      else if FencedStep(t).Some? then FencedStep(t).value
      else LaterSteps(t)
  }

  /** The first pass of `extract_code` over the lines: collect, in order,
      the lines that start with four spaces or a tab. */
  method CollectIndented(lines: seq<string>) returns (indented: seq<string>)
    ensures indented == IndentedLines(lines)
  {
    indented := [];
    for i := 0 to |lines|
      invariant indented == IndentedLines(lines[..i])
    {
      assert lines[..i + 1] == lines[..i] + [lines[i]];
      if IsIndented(lines[i]) {
        indented := indented + [lines[i]];
      }
    }
    assert lines[..|lines|] == lines;
  }

  /** The second pass: skip blank lines and collect, in order, the lines
      whose stripped text looks like code. */
  method CollectCodeLines(lines: seq<string>) returns (codeLines: seq<string>)
    ensures codeLines == CodeLines(lines)
  {
    codeLines := [];
    for i := 0 to |lines|
      invariant codeLines == CodeLines(lines[..i])
    {
      assert lines[..i + 1] == lines[..i] + [lines[i]];
      var stripped := Strip(lines[i]);
      if stripped == "" {
        continue;
      }
      if IsLikelyCodeLine(stripped) {
        codeLines := codeLines + [lines[i]];
      }
    }
    assert lines[..|lines|] == lines;
  }

  /** `extract_code`, as the source runs it: the fenced and inline searches,
      then the two passes over the lines. */
  method ExtractCode(text: string) returns (code: string, lang: string)
    ensures (code, lang) == Extraction(text)
  {
    if text == "" {
      return "", "";
    }
    var t := Strip(text);
    if t == "" {
      return "", "";
    }
    var fenced := FencedFrom(t, 0);
    if fenced.Some? {
      var tag := Lower(fenced.value.tag);
      code := RStrip(fenced.value.body);
      if code != "" {
        lang := if tag == "" then "unknown" else tag;
        return;
      }
    }
    assert FencedStep(t).None?;
    code, lang := ExtractUnfenced(t);
  }

  /** The rest of `extract_code` once no fenced block has won: the inline
      search, then the two passes over the lines. */
  method ExtractUnfenced(t: string) returns (code: string, lang: string)
    ensures (code, lang) == LaterSteps(t)
  {
    var inline := InlineFrom(t, 0);
    if inline.Some? {
      code := Strip(inline.value);
      if code != "" {
        return code, "unknown";
      }
    }
    assert InlineStep(t).None?;
    var lines := Split(t, '\n');
    var indented := CollectIndented(lines);
    if indented != [] {
      code := Strip(Join(DedentAll(indented), "\n"));
      if code != "" {
        lang := DetectLanguage(code);
        return;
      }
    }
    assert IndentedStep(lines).None?;
    var codeLines := CollectCodeLines(lines);
    if codeLines != [] {
      code := Strip(Join(codeLines, "\n"));
      lang := DetectLanguage(code);
      return;
    }
    return "", "";
  }

  // ---------------------------------------------------------------------
  // Properties of `extract_code`
  // ---------------------------------------------------------------------

  /** Empty or whitespace-only input yields no code and no language. */
  lemma BlankInputYieldsNothing(text: string)
    requires AllSpace(text)
    ensures Extraction(text) == ("", "")
  {
    StripIsTrimmedSlice(text);
  }

  /** The indented pass is a filter: it keeps a single line exactly when it is
      indented, and the lines of two blocks of text in the order of the
      blocks, so every indented line is kept, in order and as often as it
      occurs. */
  lemma {:induction false} IndentedLinesFilter(a: seq<string>, b: seq<string>)
    ensures IndentedLines(a + b) == IndentedLines(a) + IndentedLines(b)
    ensures |a| == 1 ==> IndentedLines(a) == if IsIndented(a[0]) then a else []
    decreases |b|
  {
    if |a| == 1 {
      assert a[..0] == [];
    }
    if b == [] {
      assert a + b == a;
    } else {
      var init := b[..|b| - 1];
      assert (a + b)[..|a + b| - 1] == a + init;
      IndentedLinesFilter(a, init);
    }
  }

  /** The keyword pass is a filter in the same way: a single line is kept
      exactly when it is a code line, and the lines of two blocks are kept in
      the order of the blocks. */
  lemma {:induction false} CodeLinesFilter(a: seq<string>, b: seq<string>)
    ensures CodeLines(a + b) == CodeLines(a) + CodeLines(b)
    ensures |a| == 1 ==> CodeLines(a) == if IsCodeLine(a[0]) then a else []
    decreases |b|
  {
    if |a| == 1 {
      assert a[..0] == [];
    }
    if b == [] {
      assert a + b == a;
    } else {
      var init := b[..|b| - 1];
      assert (a + b)[..|a + b| - 1] == a + init;
      CodeLinesFilter(a, init);
    }
  }

  /** The heuristic step keeps only lines with a non-blank stripped text, so
      its joined and stripped code is never empty. */
  lemma HeuristicCodeNonEmpty(lines: seq<string>)
    requires CodeLines(lines) != []
    ensures Strip(Join(CodeLines(lines), "\n")) != ""
  {
    var kept := CodeLines(lines);
    assert kept[0] in kept;
    var line := kept[0];
    StripIsTrimmedSlice(line);
    var j :| 0 <= j < |line| && !IsSpace(line[j]);
    JoinKeepsChars(kept, "\n", 0, j);
    var joined := Join(kept, "\n");
    var i :| 0 <= i < |joined| && joined[i] == line[j];
    StripIsTrimmedSlice(joined);
  }

  /** Every language `DetectLanguage` returns is a non-empty name. */
  lemma DetectedLanguageNamed(code: string)
    ensures DetectLanguage(code) != ""
  {
    assert forall l | l in Languages :: l != "";
  }

  /** Each step that finds code also names a language. */
  lemma FencedStepNamesLanguage(t: string)
    requires FencedStep(t).Some?
    ensures FencedStep(t).value.0 != "" && FencedStep(t).value.1 != ""
  {
  }

  lemma InlineStepNamesLanguage(t: string)
    requires InlineStep(t).Some?
    ensures InlineStep(t).value.0 != "" && InlineStep(t).value.1 != ""
  {
  }

  lemma IndentedStepNamesLanguage(lines: seq<string>)
    requires IndentedStep(lines).Some?
    ensures IndentedStep(lines).value.0 != "" && IndentedStep(lines).value.1 != ""
  {
    DetectedLanguageNamed(IndentedStep(lines).value.0);
  }

  lemma HeuristicStepNamesLanguage(lines: seq<string>)
    requires HeuristicStep(lines).Some?
    ensures HeuristicStep(lines).value.0 != "" && HeuristicStep(lines).value.1 != ""
  {
    HeuristicCodeNonEmpty(lines);
    DetectedLanguageNamed(HeuristicStep(lines).value.0);
  }

  /** The later steps yield code exactly when they name a language. */
  lemma LaterStepsCodeIffLang(t: string)
    ensures LaterSteps(t).0 == "" <==> LaterSteps(t).1 == ""
  {
    var lines := Split(t, '\n');
    if InlineStep(t).Some? {
      InlineStepNamesLanguage(t);
    } else if IndentedStep(lines).Some? {
      IndentedStepNamesLanguage(lines);
    } else if HeuristicStep(lines).Some? {
      HeuristicStepNamesLanguage(lines);
    }
  }

  /** The returned code is empty exactly when the returned language is: every
      branch that finds code names a language, and only the no-code result
      leaves both empty. */
  lemma CodeEmptyIffLangEmpty(text: string)
    ensures Extraction(text).0 == "" <==> Extraction(text).1 == ""
  {
    var t := Strip(text);
    if text != "" && t != "" {
      if FencedStep(t).Some? {
        FencedStepNamesLanguage(t);
      } else {
        LaterStepsCodeIffLang(t);
      }
    }
  }

  /** A text that is its own strip: empty, or non-blank at both ends. */
  lemma StripOfTrimmed(s: string)
    requires s != [] && !IsSpace(s[0]) && !IsSpace(s[|s| - 1])
    ensures Strip(s) == s
  {
    StripFramed("", s, "");
    assert "" + s + "" == s;
  }

  /** A fenced match cannot start where there is no backtick. */
  lemma {:induction false} FencedSkipsPlainText(s: string, i: nat, k: nat)
    requires i <= k <= |s|
    requires forall m | i <= m < k :: s[m] != '`'
    ensures FencedFrom(s, i) == FencedFrom(s, k)
    decreases k - i
  {
    if i < k {
      if i + 3 <= |s| {
        assert s[i..i + 3][0] == s[i];
      }
      FencedSkipsPlainText(s, i + 1, k);
    }
  }

  /** Without three backticks in a row there is no fenced block. */
  lemma {:induction false} NoFenceWithoutTicks(s: string, i: nat)
    requires !Contains(s, "```")
    ensures FencedFrom(s, i) == None
    decreases |s| - i
  {
    if i + 3 <= |s| {
      assert !OccursAt(s, "```", i);
      NoFenceWithoutTicks(s, i + 1);
    }
  }

  /** The closing `"\n```"` cannot start inside a body that does not contain
      it, nor straddle the body's end: its leading newline would have to
      coincide with one of the backticks that follow. */
  lemma NoCloseInsideBody(s: string, from: nat, body: string)
    requires from + |body| + 4 <= |s|
    requires s[from..from + |body|] == body
    requires s[from + |body|..from + |body| + 4] == "\n```"
    requires !Contains(body, "\n```")
    ensures forall j | from <= j < from + |body| :: !OccursAt(s, "\n```", j)
  {
    var m := from + |body|;
    forall j | from <= j < m
      ensures !OccursAt(s, "\n```", j)
    {
      if j + 4 <= m {
        SliceWithin(s, from, body, j, 4);
        assert !OccursAt(body, "\n```", j - from);
      } else if j + 4 <= |s| {
        var d := m - j;
        assert 1 <= d <= 3;
        assert s[m..m + 4][0] == s[m];
        assert s[j..j + 4][d] == s[m];
        assert "\n```"[d] == '`';
      }
    }
  }

  /** The tag run after an opening fence ends at the newline. */
  lemma TagEndsAtNewline(s: string, i: nat, p: nat)
    requires i + 3 <= p < |s|
    requires forall k | i + 3 <= k < p :: IsWordChar(s[k])
    requires s[p] == '\n'
    ensures WordRunEnd(s, i + 3) == p
  {
  }

  /** The lazy body ends at the first closing sequence. */
  lemma BodyEndsAtClose(s: string, p: nat, m: nat)
    requires p < m + 4 <= |s| && p + 1 <= m
    requires s[m..m + 4] == "\n```"
    requires !Contains(s[p + 1..m], "\n```")
    ensures IndexOfFrom(s, "\n```", p + 1) == Some(m)
  {
    NoCloseInsideBody(s, p + 1, s[p + 1..m]);
    assert OccursAt(s, "\n```", m);
  }

  /** A fenced block that opens at `i`, as the regex engine matches it there. */
  lemma FencedMatchHere(s: string, i: nat, p: nat, m: nat)
    requires i + 3 <= p < m + 4 <= |s| && p + 1 <= m
    requires s[i..i + 3] == "```"
    requires forall k | i + 3 <= k < p :: IsWordChar(s[k])
    requires s[p] == '\n'
    requires s[m..m + 4] == "\n```"
    requires !Contains(s[p + 1..m], "\n```")
    ensures FencedFrom(s, i) == Some(Fence(s[i + 3..p], s[p + 1..m]))
  {
    TagEndsAtNewline(s, i, p);
    BodyEndsAtClose(s, p, m);
    assert OccursAt(s, "```", i);
  }

  /** The fenced search, stated on positions: three backticks at `i` with no
      backtick before them, a word-character tag up to the newline at `p`,
      and a body up to the first closing sequence at `m`. */
  lemma FencedMatchAt(s: string, i: nat, p: nat, m: nat)
    requires i + 3 <= p < m + 4 <= |s| && p + 1 <= m
    requires forall k | 0 <= k < i :: s[k] != '`'
    requires s[i..i + 3] == "```"
    requires forall k | i + 3 <= k < p :: IsWordChar(s[k])
    requires s[p] == '\n'
    requires s[m..m + 4] == "\n```"
    requires !Contains(s[p + 1..m], "\n```")
    ensures FencedFrom(s, 0) == Some(Fence(s[i + 3..p], s[p + 1..m]))
  {
    FencedSkipsPlainText(s, 0, i);
    FencedMatchHere(s, i, p, m);
  }

  /** `extract_code` on a text that is already stripped and non-empty: the
      fenced step, else the later steps. */
  lemma ExtractionOfTrimmed(t: string)
    requires t != [] && !IsSpace(t[0]) && !IsSpace(t[|t| - 1])
    ensures Extraction(t) == if FencedStep(t).Some? then FencedStep(t).value else LaterSteps(t)
  {
    StripOfTrimmed(t);
  }

  /** Where the parts of a fenced message sit in the joined text. */
  lemma FencedLayout(text: string, pre: string, tag: string, body: string, post: string)
    requires text == pre + "```" + tag + "\n" + body + "\n```" + post
    ensures var i, p, m := |pre|, |pre| + 3 + |tag|, |pre| + 3 + |tag| + 1 + |body|;
      && m + 4 <= |text|
      && text[..i] == pre
      && text[i..i + 3] == "```"
      && text[i + 3..p] == tag
      && text[p] == '\n'
      && text[p + 1..m] == body
      && text[m..m + 4] == "\n```"
  {
  }

  /** The characters before a fence and in its tag, read in the joined text. */
  lemma FencedLayoutChars(text: string, pre: string, tag: string, i: nat, p: nat)
    requires i == |pre| && p == i + 3 + |tag| && p <= |text|
    requires text[..i] == pre && text[i + 3..p] == tag
    requires '`' !in pre
    requires forall k | 0 <= k < |tag| :: IsWordChar(tag[k])
    ensures forall k | 0 <= k < i :: text[k] != '`'
    ensures forall k | i + 3 <= k < p :: IsWordChar(text[k])
  {
    forall k | 0 <= k < i
      ensures text[k] != '`'
    {
      assert text[..i][k] == pre[k];
    }
    forall k | i + 3 <= k < p
      ensures IsWordChar(text[k])
    {
      assert text[i + 3..p][k - i - 3] == tag[k - i - 3];
    }
  }

  /** The fenced block of such a message is the one the search finds. */
  lemma FencedBlockFound(text: string, pre: string, tag: string, body: string, post: string)
    requires text == pre + "```" + tag + "\n" + body + "\n```" + post
    requires '`' !in pre
    requires forall k | 0 <= k < |tag| :: IsWordChar(tag[k])
    requires !Contains(body, "\n```")
    ensures FencedFrom(text, 0) == Some(Fence(tag, body))
  {
    var i, p, m := |pre|, |pre| + 3 + |tag|, |pre| + 3 + |tag| + 1 + |body|;
    FencedLayout(text, pre, tag, body, post);
    FencedLayoutChars(text, pre, tag, i, p);
    FencedMatchAt(text, i, p, m);
    assert Fence(text[i + 3..p], text[p + 1..m]) == Fence(tag, body);
  }

  /** A non-empty text whose first and last characters are not blank, given
      by its first and last parts. */
  lemma TrimmedEnds(text: string, pre: string, mid: string, post: string)
    requires mid != [] && !IsSpace(mid[0]) && !IsSpace(mid[|mid| - 1])
    requires pre == [] || !IsSpace(pre[0])
    requires post == [] || !IsSpace(post[|post| - 1])
    requires text == pre + mid + post
    ensures text != [] && !IsSpace(text[0]) && !IsSpace(text[|text| - 1])
  {
    assert text[0] == if pre == [] then mid[0] else pre[0];
    assert text[|text| - 1] == if post == [] then mid[|mid| - 1] else post[|post| - 1];
  }

  /** On a stripped text, the fenced block the search finds decides the
      result when its right-stripped body is non-empty. */
  lemma FoundFenceDecides(text: string, tag: string, body: string)
    requires text != [] && !IsSpace(text[0]) && !IsSpace(text[|text| - 1])
    requires FencedFrom(text, 0) == Some(Fence(tag, body))
    ensures RStrip(body) != "" ==>
      Extraction(text) == (RStrip(body), if Lower(tag) == "" then "unknown" else Lower(tag))
    ensures RStrip(body) == "" ==> Extraction(text) == LaterSteps(text)
  {
    ExtractionOfTrimmed(text);
  }

  /** A fenced block opened after backtick-free text, with a word-character
      tag and a body that does not contain the closing sequence, is the block
      the search finds. When its right-stripped body is non-empty it wins
      over every other form, with the lower-cased tag (or `"unknown"`) as its
      language; when the body is blank the later heuristics decide. */
  lemma FencedBlockWins(pre: string, tag: string, body: string, post: string)
    requires '`' !in pre
    requires forall k | 0 <= k < |tag| :: IsWordChar(tag[k])
    requires !Contains(body, "\n```")
    requires pre == [] || !IsSpace(pre[0])
    requires post == [] || !IsSpace(post[|post| - 1])
    ensures var text := pre + "```" + tag + "\n" + body + "\n```" + post;
      && FencedFrom(text, 0) == Some(Fence(tag, body))
      && (RStrip(body) != "" ==>
            Extraction(text) == (RStrip(body), if Lower(tag) == "" then "unknown" else Lower(tag)))
      && (RStrip(body) == "" ==> Extraction(text) == LaterSteps(text))
  {
    var text := pre + "```" + tag + "\n" + body + "\n```" + post;
    FencedBlockFound(text, pre, tag, body, post);
    FencedTextTrimmed(text, pre, tag, body, post);
    FoundFenceDecides(text, tag, body);
  }

  /** A fenced message is trimmed when what precedes and follows the block
      is. */
  lemma FencedTextTrimmed(text: string, pre: string, tag: string, body: string, post: string)
    requires text == pre + "```" + tag + "\n" + body + "\n```" + post
    requires pre == [] || !IsSpace(pre[0])
    requires post == [] || !IsSpace(post[|post| - 1])
    ensures text != [] && !IsSpace(text[0]) && !IsSpace(text[|text| - 1])
  {
    var mid := "```" + tag + "\n" + body + "\n```";
    assert text == pre + mid + post;
    assert mid[0] == '`' && mid[|mid| - 1] == '`';
    TrimmedEnds(text, pre, mid, post);
  }

  /** An inline match cannot start where there is no backtick. */
  lemma {:induction false} InlineSkipsPlainText(s: string, i: nat, k: nat)
    requires i <= k <= |s|
    requires forall m | i <= m < k :: s[m] != '`'
    ensures InlineFrom(s, i) == InlineFrom(s, k)
    decreases k - i
  {
    if i < k {
      InlineSkipsPlainText(s, i + 1, k);
    }
  }

  /** The inline search, stated on positions: a lone backtick at `i` with no
      backtick before it, then a backtick-free, newline-free span up to the
      backtick at `q`. */
  lemma InlineMatchAt(s: string, i: nat, q: nat)
    requires i + 1 < q < |s|
    requires forall k | 0 <= k < i :: s[k] != '`'
    requires s[i] == '`' && s[q] == '`'
    requires forall k | i + 1 <= k < q :: s[k] != '`' && s[k] != '\n'
    ensures InlineFrom(s, 0) == Some(s[i + 1..q])
  {
    InlineSkipsPlainText(s, 0, i);
    assert s[i + 1] != '`';
    var start := BacktickRunEnd(s, i);
    assert start == i + 1;
    var stop := StopAt(s, start);
    assert stop == q;
  }

  /** A single-backtick span on one line, after backtick-free text, is the
      span the inline search finds. */
  lemma InlineSpanFound(pre: string, span: string, post: string)
    requires '`' !in pre && '`' !in span && '\n' !in span && span != []
    ensures InlineFrom(pre + "`" + span + "`" + post, 0) == Some(span)
  {
    var text := pre + "`" + span + "`" + post;
    var i := |pre|;
    var q := i + 1 + |span|;
    assert text[..i] == pre;
    assert text[i + 1..q] == span;
    forall k | 0 <= k < i
      ensures text[k] != '`'
    {
      assert text[..i][k] == pre[k];
    }
    forall k | i + 1 <= k < q
      ensures text[k] != '`' && text[k] != '\n'
    {
      assert text[i + 1..q][k - i - 1] == span[k - i - 1];
    }
    InlineMatchAt(text, i, q);
  }

  /** On a stripped text without a triple backtick, the inline span the
      search finds, when non-blank, is returned stripped with language
      `"unknown"`; `InlineSpanFound` says which span that is. */
  lemma InlineSpanWins(text: string, span: string)
    requires text != [] && !IsSpace(text[0]) && !IsSpace(text[|text| - 1])
    requires !Contains(text, "```")
    requires InlineFrom(text, 0) == Some(span)
    requires Strip(span) != ""
    ensures Extraction(text) == (Strip(span), "unknown")
  {
    UnfencedExtraction(text);
    InlineStepDecides(text, span);
  }

  /** A trimmed text without a fence goes straight to the later steps. */
  lemma UnfencedExtraction(text: string)
    requires text != [] && !IsSpace(text[0]) && !IsSpace(text[|text| - 1])
    requires !Contains(text, "```")
    ensures Extraction(text) == LaterSteps(text)
  {
    NoFenceWithoutTicks(text, 0);
    ExtractionOfTrimmed(text);
  }

  /** A non-blank inline span decides the later steps. */
  lemma InlineStepDecides(t: string, span: string)
    requires InlineFrom(t, 0) == Some(span)
    requires Strip(span) != ""
    ensures LaterSteps(t) == (Strip(span), "unknown")
  {
    assert InlineStep(t) == Some((Strip(span), "unknown"));
  }
}
