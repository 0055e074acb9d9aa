/** `utils/diff.py`: a unified diff between the submitted code and the fixed
    code, wrapped in a fenced `diff` block.

    `difflib.unified_diff` itself is not modelled: it is a `DiffEngine`
    handed in by the caller, which yields the diff lines or `None` when it
    raises. The model states what `create_diff` does around it: the
    normalisation of missing inputs, the line splitting with a final newline
    forced on the last line, and the three shapes of the result. */
module Diff {
  import opened Wrappers
  import opened Text

  /** `difflib.unified_diff(a, b, fromfile="original", tofile="fixed",
      lineterm="", n=3)` collected into a list; `None` stands for an
      exception raised while it runs. */
  datatype DiffEngine = DiffEngine(unified: (seq<string>, seq<string>) -> Option<seq<string>>)

  /** A diff engine that, like `difflib`, reports nothing between equal inputs. */
  ghost predicate Lawful(engine: DiffEngine) {
    forall a: seq<string> :: engine.unified(a, a) == Some([])
  }

  const DiffOpen: string := "```diff\n"
  const DiffClose: string := "\n```"
  const NoChangesBlock: string := DiffOpen + "# No changes detected" + DiffClose
  const ErrorBlock: string := DiffOpen + "# Error generating diff" + DiffClose

  /** A text between the opening and the closing fence is framed by them. */
  lemma Framed(body: string)
    ensures StartsWith(DiffOpen + body + DiffClose, DiffOpen)
    ensures EndsWith(DiffOpen + body + DiffClose, DiffClose)
  {
    var r := DiffOpen + body + DiffClose;
    assert r[..|DiffOpen|] == DiffOpen;
    assert r[|r| - |DiffClose|..] == DiffClose;
  }

  /** `value or ""` for an optional string. */
  function OrEmpty(s: Option<string>): (r: string)
    ensures s.Some? ==> r == s.value
    ensures s.None? ==> r == ""
  {
    if s.Some? then s.value else ""
  }

  /** `line.endswith('\n')`. */
  predicate EndsInNewline(line: string) {
    line != [] && line[|line| - 1] == '\n'
  }

  /** The last line gets a `'\n'` appended unless it already ends with one;
      every other line is kept. */
  function EnsureFinalNewline(lines: seq<string>): (r: seq<string>)
    ensures |r| == |lines|
    ensures forall k | 0 <= k < |lines| - 1 :: r[k] == lines[k]
    ensures lines != [] ==> EndsInNewline(r[|r| - 1])
    ensures lines != [] ==> StartsWith(r[|r| - 1], lines[|lines| - 1])
    ensures lines != [] && EndsInNewline(lines[|lines| - 1]) ==> r == lines
  {
    if lines == [] then []
    else
      var last := lines[|lines| - 1];
      if EndsInNewline(last) then lines
      else
        assert (last + "\n")[..|last|] == last;
        lines[..|lines| - 1] + [last + "\n"]
  }

  /** The lines `create_diff` hands to the diff engine for one input. */
  function DiffInput(s: Option<string>): seq<string> {
    EnsureFinalNewline(SplitLinesKeepEnds(OrEmpty(s)))
  }

  /** Lines 30-41 of `create_diff` as the source runs them: normalise, split
      keeping line ends, and patch the last line in place when it lacks its
      newline. */
  method PrepareLines(s: Option<string>) returns (lines: seq<string>)
    ensures lines == DiffInput(s)
  {
    var text := if s.Some? then s.value else "";
    lines := SplitLinesKeepEnds(text);
    if lines != [] && !EndsInNewline(lines[|lines| - 1]) {
      lines := lines[|lines| - 1 := lines[|lines| - 1] + "\n"];
    }
  }

  /** `create_diff(original, fixed)`: the no-changes block when the engine
      reports nothing, the error block when it raises, otherwise the joined
      diff lines with trailing whitespace replaced by one newline. */
  function CreateDiff(original: Option<string>, fixed: Option<string>, engine: DiffEngine): (r: string)
    ensures StartsWith(r, DiffOpen) && EndsWith(r, DiffClose)
    ensures engine.unified(DiffInput(original), DiffInput(fixed)).None? ==> r == ErrorBlock
    ensures engine.unified(DiffInput(original), DiffInput(fixed)) == Some([]) ==> r == NoChangesBlock
  {
    match engine.unified(DiffInput(original), DiffInput(fixed))
    case None =>
      Framed("# Error generating diff");
      ErrorBlock
    case Some(lines) =>
      if lines == [] then
        Framed("# No changes detected");
        NoChangesBlock
      else
        Framed(RStrip(Concat(lines)));
        DiffOpen + RStrip(Concat(lines)) + DiffClose
  }

  /** Between a changed input and its fix, the block holds the engine's
      lines joined, with no trailing whitespace before the closing fence. */
  lemma ChangedDiffBody(original: Option<string>, fixed: Option<string>, engine: DiffEngine, lines: seq<string>)
    requires engine.unified(DiffInput(original), DiffInput(fixed)) == Some(lines)
    requires lines != []
    ensures var r := CreateDiff(original, fixed, engine);
      var body := r[|DiffOpen|..|r| - |DiffClose|];
      && StartsWith(Concat(lines), body)
      && (body == [] || !IsSpace(body[|body| - 1]))
      && AllSpace(Concat(lines)[|body|..])
  {
    var r := CreateDiff(original, fixed, engine);
    var stripped := RStrip(Concat(lines));
    assert r == DiffOpen + stripped + DiffClose;
    assert r[|DiffOpen|..|r| - |DiffClose|] == stripped;
  }

  /** A lawful engine reports no changes between an input and itself. */
  lemma SameCodeNoChanges(code: Option<string>, engine: DiffEngine)
    requires Lawful(engine)
    ensures CreateDiff(code, code, engine) == NoChangesBlock
  {
    assert engine.unified(DiffInput(code), DiffInput(code)) == Some([]);
  }

  /** A missing input is the empty input. */
  lemma MissingIsEmpty(code: Option<string>, engine: DiffEngine)
    ensures CreateDiff(None, code, engine) == CreateDiff(Some(""), code, engine)
    ensures CreateDiff(code, None, engine) == CreateDiff(code, Some(""), engine)
  {
    assert DiffInput(None) == DiffInput(Some(""));
  }

  /** Every line of the split but the last ends with a newline, and the last
      one does exactly when the text does. */
  lemma {:induction false} SplitLinesEnds(s: string)
    ensures var lines := SplitLinesKeepEnds(s);
      && (forall k | 0 <= k < |lines| - 1 :: EndsInNewline(lines[k]))
      && (lines != [] ==> (EndsInNewline(lines[|lines| - 1]) <==> s[|s| - 1] == '\n'))
    decreases |s|
  {
    if s != [] && '\n' in s {
      var i := IndexOfChar(s, '\n');
      var first := s[..i + 1];
      var rest := s[i + 1..];
      var tail := SplitLinesKeepEnds(rest);
      assert SplitLinesKeepEnds(s) == [first] + tail;
      assert EndsInNewline(first);
      SplitLinesEnds(rest);
      if rest != [] {
        assert s[|s| - 1] == rest[|rest| - 1];
      }
    }
  }

  /** The split of a text with a newline: its first line, then the split of
      what follows. */
  lemma SplitLinesFirst(s: string, i: nat)
    requires i < |s| && s[i] == '\n' && '\n' !in s[..i]
    ensures SplitLinesKeepEnds(s) == [s[..i + 1]] + SplitLinesKeepEnds(s[i + 1..])
  {
    IndexOfCharIs(s, '\n', i);
  }

  /** Forcing the final newline only touches the last line. */
  lemma EnsureFinalNewlineCons(first: string, tail: seq<string>)
    requires tail != []
    ensures EnsureFinalNewline([first] + tail) == [first] + EnsureFinalNewline(tail)
  {
    var lines := [first] + tail;
    assert lines[|lines| - 1] == tail[|tail| - 1];
    if !EndsInNewline(tail[|tail| - 1]) {
      assert lines[..|lines| - 1] == [first] + tail[..|tail| - 1];
    }
  }

  /** Appending the newline that is missing at the end of a text only
      extends its last line. */
  lemma {:induction false} SplitLinesNewlineAppended(s: string)
    requires s != [] && s[|s| - 1] != '\n'
    ensures SplitLinesKeepEnds(s + "\n") == EnsureFinalNewline(SplitLinesKeepEnds(s))
    decreases |s|
  {
    if '\n' in s {
      var j := IndexOfChar(s, '\n');
      var rest := s[j + 1..];
      AppendedSlices(s, j);
      SplitLinesFirst(s + "\n", j);
      SplitLinesNewlineAppended(rest);
      SplitLinesFirst(s, j);
      EnsureFinalNewlineCons(s[..j + 1], SplitLinesKeepEnds(rest));
    } else {
      SplitLinesFirst(s + "\n", |s|);
      assert (s + "\n")[..|s| + 1] == s + "\n";
    }
  }

  /** How the slices around a newline at `j` read once a newline is appended. */
  lemma AppendedSlices(s: string, j: nat)
    requires j < |s| - 1 && s[|s| - 1] != '\n'
    ensures (s + "\n")[..j] == s[..j]
    ensures (s + "\n")[..j + 1] == s[..j + 1]
    ensures (s + "\n")[j + 1..] == s[j + 1..] + "\n"
    ensures s[j + 1..] != [] && s[j + 1..][|s[j + 1..]| - 1] == s[|s| - 1]
  {
  }

  /** Forcing the final newline twice is forcing it once. */
  lemma EnsureFinalNewlineIdempotent(lines: seq<string>)
    ensures EnsureFinalNewline(EnsureFinalNewline(lines)) == EnsureFinalNewline(lines)
  {
  }

  /** The diff input of a text does not depend on whether the text ends with
      a newline: `create_diff` adds the missing one itself. */
  lemma FinalNewlineIrrelevant(s: string)
    requires s != [] && s[|s| - 1] != '\n'
    ensures DiffInput(Some(s + "\n")) == DiffInput(Some(s))
  {
    SplitLinesNewlineAppended(s);
    EnsureFinalNewlineIdempotent(SplitLinesKeepEnds(s));
  }

  /** So the whole block is the same for a text with or without its final
      newline, on either side. */
  lemma DiffIgnoresFinalNewline(s: string, other: Option<string>, engine: DiffEngine)
    requires s != [] && s[|s| - 1] != '\n'
    ensures CreateDiff(Some(s + "\n"), other, engine) == CreateDiff(Some(s), other, engine)
    ensures CreateDiff(other, Some(s + "\n"), engine) == CreateDiff(other, Some(s), engine)
  {
    FinalNewlineIrrelevant(s);
    SameInputSameDiff(Some(s + "\n"), Some(s), other, engine);
  }

  /** The block depends on the inputs only through the lines handed to the
      engine. */
  lemma SameInputSameDiff(a: Option<string>, b: Option<string>, other: Option<string>, engine: DiffEngine)
    requires DiffInput(a) == DiffInput(b)
    ensures CreateDiff(a, other, engine) == CreateDiff(b, other, engine)
    ensures CreateDiff(other, a, engine) == CreateDiff(other, b, engine)
  {
  }

  /** The lines handed to the engine spell out the input, plus a newline
      when it did not end with one. */
  lemma DiffInputSpellsInput(s: string)
    ensures s == [] ==> Concat(DiffInput(Some(s))) == ""
    ensures s != [] && s[|s| - 1] == '\n' ==> Concat(DiffInput(Some(s))) == s
    ensures s != [] && s[|s| - 1] != '\n' ==> Concat(DiffInput(Some(s))) == s + "\n"
  {
    ConcatSplitLines(s);
    if s != [] {
      SplitLinesEnds(s);
      if s[|s| - 1] != '\n' {
        SplitLinesNewlineAppended(s);
        ConcatSplitLines(s + "\n");
      }
    }
  }

  /** Under a lawful engine, two texts that differ only by a missing final
      newline give the no-changes block. */
  lemma MissingFinalNewlineNoChanges(s: string, engine: DiffEngine)
    requires Lawful(engine)
    requires s != [] && s[|s| - 1] != '\n'
    ensures CreateDiff(Some(s), Some(s + "\n"), engine) == NoChangesBlock
    ensures CreateDiff(Some(s + "\n"), Some(s), engine) == NoChangesBlock
  {
    DiffIgnoresFinalNewline(s, Some(s), engine);
    SameCodeNoChanges(Some(s), engine);
  }
}
