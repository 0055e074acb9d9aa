/** The handful of Python `str` operations the bot relies on, written out
    over `seq<char>`: whitespace stripping, ASCII lower-casing, substring
    search (`t in s`), `str.split`, `str.join` and `str.splitlines(keepends=True)`. */
module Text {
  import opened Wrappers

  /** `str.isspace()` for one character: the ASCII separators and controls
      U+0009..U+000D and U+001C..U+001F, the space, and the Unicode spaces. */
  predicate IsSpace(c: char) {
    || ('\t' <= c <= '\r')
    || ('\U{1C}' <= c <= '\U{1F}')
    || c == ' ' || c == '\U{85}' || c == '\U{A0}' || c == '\U{1680}'
    || ('\U{2000}' <= c <= '\U{200A}')
    || c == '\U{2028}' || c == '\U{2029}' || c == '\U{202F}' || c == '\U{205F}' || c == '\U{3000}'
  }

  /** True when every character of `s` is whitespace (so `s.strip()` is empty). */
  predicate AllSpace(s: string) {
    forall i | 0 <= i < |s| :: IsSpace(s[i])
  }

  /** `s.lstrip()`: a suffix of `s` that is empty or starts with a non-space;
      everything dropped was whitespace. */
  function LStrip(s: string): (r: string)
    ensures |r| <= |s| && r == s[|s| - |r|..]
    ensures r == [] || !IsSpace(r[0])
    ensures forall i | 0 <= i < |s| - |r| :: IsSpace(s[i])
  {
    if |s| > 0 && IsSpace(s[0]) then LStrip(s[1..]) else s
  }

  /** `s.rstrip()`: a prefix of `s` that is empty or ends with a non-space;
      everything dropped was whitespace. */
  function RStrip(s: string): (r: string)
    ensures |r| <= |s| && r == s[..|r|]
    ensures r == [] || !IsSpace(r[|r| - 1])
    ensures forall i | |r| <= i < |s| :: IsSpace(s[i])
  {
    if |s| > 0 && IsSpace(s[|s| - 1]) then RStrip(s[..|s| - 1]) else s
  }

  /** `s.strip()`. */
  function Strip(s: string): string {
    RStrip(LStrip(s))
  }

  /** `s.strip()` is a slice of `s` with no whitespace at either end, and it
      is empty exactly when `s` is all whitespace. */
  lemma StripIsTrimmedSlice(s: string)
    ensures exists a, b :: 0 <= a <= b <= |s| && Strip(s) == s[a..b]
    ensures Strip(s) == [] || (!IsSpace(Strip(s)[0]) && !IsSpace(Strip(s)[|Strip(s)| - 1]))
    ensures Strip(s) == [] <==> AllSpace(s)
  {
    var l := LStrip(s);
    var a := |s| - |l|;
    var r := RStrip(l);
    assert r == s[a..a + |r|];
    StripEmptyOnlyIfAllSpace(s);
    StripStartsUnspaced(s);
  }

  /** A non-empty strip starts where the left strip does. */
  lemma StripStartsUnspaced(s: string)
    ensures Strip(s) != [] ==> !IsSpace(Strip(s)[0]) && (forall i | 0 <= i < |s| - |LStrip(s)| :: IsSpace(s[i]))
  {
    var l := LStrip(s);
    var r := RStrip(l);
    assert r != [] ==> r[0] == l[0];
  }

  /** The strip is empty exactly when every character is whitespace. */
  lemma StripEmptyOnlyIfAllSpace(s: string)
    ensures Strip(s) == [] <==> AllSpace(s)
  {
    var l := LStrip(s);
    var a := |s| - |l|;
    var r := RStrip(l);
    forall i | a <= i < |s| ensures s[i] == l[i - a] {
    }
  }

  /** Stripping a text framed by whitespace whose inner part starts and ends
      with a non-space gives exactly that inner part. */
  lemma {:induction false} StripFramed(pre: string, inner: string, post: string)
    requires AllSpace(pre) && AllSpace(post)
    requires inner != [] && !IsSpace(inner[0]) && !IsSpace(inner[|inner| - 1])
    ensures Strip(pre + inner + post) == inner
  {
    LStripSpacePrefix(pre, inner + post);
    assert pre + inner + post == pre + (inner + post);
    RStripSpaceSuffix(inner, post);
  }

  lemma {:induction false} LStripSpacePrefix(pre: string, rest: string)
    requires AllSpace(pre)
    requires rest != [] && !IsSpace(rest[0])
    ensures LStrip(pre + rest) == rest
  {
    if pre != [] {
      assert (pre + rest)[1..] == pre[1..] + rest;
      LStripSpacePrefix(pre[1..], rest);
    }
  }

  lemma {:induction false} RStripSpaceSuffix(rest: string, post: string)
    requires AllSpace(post)
    requires rest != [] && !IsSpace(rest[|rest| - 1])
    ensures RStrip(rest + post) == rest
  {
    if post != [] {
      assert (rest + post)[..|rest + post| - 1] == rest + post[..|post| - 1];
      RStripSpaceSuffix(rest, post[..|post| - 1]);
    }
  }

  /** `c.lower()` for the ASCII letters; every other character is kept. */
  function LowerChar(c: char): char {
    if 'A' <= c <= 'Z' then (c as int + 32) as char else c
  }

  /** `s.lower()`, restricted to ASCII case mapping: same length, each
      character lower-cased in place. */
  function Lower(s: string): (r: string)
    ensures |r| == |s|
    ensures forall i | 0 <= i < |s| :: r[i] == LowerChar(s[i])
  {
    seq(|s|, i requires 0 <= i < |s| => LowerChar(s[i]))
  }

  /** `t` occurs in `s` starting at index `i`. */
  predicate OccursAt(s: string, t: string, i: int) {
    0 <= i && i + |t| <= |s| && s[i..i + |t|] == t
  }

  /** Python's `t in s`. */
  predicate Contains(s: string, t: string) {
    exists i | 0 <= i <= |s| - |t| :: OccursAt(s, t, i)
  }

  /** The first index at or after `from` where `t` occurs in `s`, if any
      (`s.find(t, from)`). */
  function IndexOfFrom(s: string, t: string, from: nat): (r: Option<nat>)
    decreases |s| - from
    ensures r.Some? ==> from <= r.value && OccursAt(s, t, r.value)
    ensures r.Some? ==> forall j | from <= j < r.value :: !OccursAt(s, t, j)
    ensures r.None? ==> forall j | from <= j :: !OccursAt(s, t, j)
  {
    if from + |t| > |s| then None
    else if OccursAt(s, t, from) then Some(from)
    else IndexOfFrom(s, t, from + 1)
  }

  /** `s.find(t)` as an option. */
  function IndexOf(s: string, t: string): (r: Option<nat>)
    ensures r.Some? <==> Contains(s, t)
    ensures r.Some? ==> OccursAt(s, t, r.value) && forall j | 0 <= j < r.value :: !OccursAt(s, t, j)
  {
    IndexOfFrom(s, t, 0)
  }

  /** An occurrence of `t` inside `s` is an occurrence inside any text that
      has `s` at offset `|p|`. */
  lemma ContainsInContext(p: string, s: string, q: string, t: string)
    requires Contains(s, t)
    ensures Contains(p + s + q, t)
  {
    var i :| 0 <= i <= |s| - |t| && OccursAt(s, t, i);
    assert (p + s + q)[|p| + i..|p| + i + |t|] == s[i..i + |t|];
    assert OccursAt(p + s + q, t, |p| + i);
  }

  /** A window inside a slice is the same window of the whole text. */
  lemma SliceWithin(s: string, from: nat, part: string, j: nat, n: nat)
    requires from + |part| <= |s| && s[from..from + |part|] == part
    requires from <= j && j + n <= from + |part|
    ensures s[j..j + n] == part[j - from..j - from + n]
  {
    var a := s[j..j + n];
    var b := part[j - from..j - from + n];
    forall k | 0 <= k < n ensures a[k] == b[k] {
      assert s[from..from + |part|][j - from + k] == s[j + k];
    }
  }

  /** An occurrence inside a slice is an occurrence in the whole text. */
  lemma ContainsFromSlice(s: string, a: nat, b: nat, t: string)
    requires a <= b <= |s|
    requires Contains(s[a..b], t)
    ensures Contains(s, t)
  {
    assert s == s[..a] + s[a..b] + s[b..];
    ContainsInContext(s[..a], s[a..b], s[b..], t);
  }

  /** A text lacking one of the characters of `t` does not contain `t`. */
  lemma MissingCharNotContained(s: string, t: string, k: nat)
    requires k < |t| && t[k] !in s
    ensures !Contains(s, t)
  {
    forall i | 0 <= i <= |s| - |t|
      ensures !OccursAt(s, t, i)
    {
      assert s[i + k] in s;
      assert s[i..i + |t|][k] != t[k];
    }
  }

  /** Containment is transitive. */
  lemma ContainsTrans(s: string, t: string, u: string)
    requires Contains(s, t) && Contains(t, u)
    ensures Contains(s, u)
  {
    var i :| 0 <= i <= |s| - |t| && OccursAt(s, t, i);
    var j :| 0 <= j <= |t| - |u| && OccursAt(t, u, j);
    SliceWithin(s, i, t, i + j, |u|);
    assert OccursAt(s, u, i + j);
  }

  /** A text contains itself. */
  lemma ContainsSelf(t: string)
    ensures Contains(t, t)
  {
    assert OccursAt(t, t, 0);
  }

  /** `s.startswith(p)`. */
  predicate StartsWith(s: string, p: string) {
    |p| <= |s| && s[..|p|] == p
  }

  /** `s.endswith(p)`. */
  predicate EndsWith(s: string, p: string) {
    |p| <= |s| && s[|s| - |p|..] == p
  }

  /** Index of the first `c` in `s`. */
  function IndexOfChar(s: string, c: char): (r: nat)
    requires c in s
    ensures r < |s| && s[r] == c && c !in s[..r]
  {
    if s[0] == c then 0 else 1 + IndexOfChar(s[1..], c)
  }

  /** The first `c` in `s` is at `i` when `s[i]` is `c` and no earlier
      character is. */
  lemma {:induction false} IndexOfCharIs(s: string, c: char, i: nat)
    requires i < |s| && s[i] == c && c !in s[..i]
    ensures IndexOfChar(s, c) == i
  {
    assert s[i] in s;
    if i > 0 {
      assert s[..i][0] == s[0];
      assert s[1..][..i - 1] == s[..i][1..];
      IndexOfCharIs(s[1..], c, i - 1);
    }
  }

  /** `sep.join(parts)`. */
  function Join(parts: seq<string>, sep: string): string {
    if |parts| == 0 then ""
    else if |parts| == 1 then parts[0]
    else parts[0] + sep + Join(parts[1..], sep)
  }

  /** `s.split(sep)` for a one-character separator: at least one piece, no
      piece holds the separator. `JoinSplit` shows nothing is lost. */
  function Split(s: string, sep: char): (r: seq<string>)
    ensures |r| >= 1
    ensures forall i | 0 <= i < |r| :: sep !in r[i]
    decreases |s|
  {
    if sep !in s then [s]
    else
      var i := IndexOfChar(s, sep);
      [s[..i]] + Split(s[i + 1..], sep)
  }

  /** Joining the pieces of a split with the separator gives back the text. */
  lemma {:induction false} JoinSplit(s: string, sep: char)
    ensures Join(Split(s, sep), [sep]) == s
    decreases |s|
  {
    if sep in s {
      var i := IndexOfChar(s, sep);
      var head, tail := s[..i], s[i + 1..];
      var rest := Split(tail, sep);
      assert Split(s, sep) == [head] + rest;
      JoinSplit(tail, sep);
      assert ([head] + rest)[1..] == rest;
      assert Join([head] + rest, [sep]) == head + [sep] + Join(rest, [sep]);
      assert s == head + [sep] + tail;
    }
  }

  /** A character of one part of a join is a character of the join. */
  lemma {:induction false} JoinKeepsChars(parts: seq<string>, sep: string, k: nat, j: nat)
    requires k < |parts| && j < |parts[k]|
    ensures exists i | 0 <= i < |Join(parts, sep)| :: Join(parts, sep)[i] == parts[k][j]
  {
    var joined := Join(parts, sep);
    if |parts| == 1 {
      assert joined[j] == parts[0][j];
    } else if k == 0 {
      assert joined[j] == parts[0][j];
    } else {
      JoinKeepsChars(parts[1..], sep, k - 1, j);
      var rest := Join(parts[1..], sep);
      var i :| 0 <= i < |rest| && rest[i] == parts[k][j];
      assert joined[|parts[0] + sep| + i] == rest[i];
    }
  }

  /** Each part of a join occurs in the joined text. */
  lemma {:induction false} JoinHasPart(parts: seq<string>, sep: string, k: nat)
    requires k < |parts|
    ensures Contains(Join(parts, sep), parts[k])
  {
    ContainsSelf(parts[k]);
    if |parts| > 1 {
      var rest := Join(parts[1..], sep);
      if k == 0 {
        ContainsInContext("", parts[0], sep + rest, parts[0]);
        assert "" + parts[0] + (sep + rest) == Join(parts, sep);
      } else {
        JoinHasPart(parts[1..], sep, k - 1);
        ContainsInContext(parts[0] + sep, rest, "", parts[k]);
        assert parts[0] + sep + rest + "" == Join(parts, sep);
      }
    }
  }

  /** A join starts with its first part. */
  lemma JoinStarts(parts: seq<string>, sep: string)
    requires |parts| >= 1
    ensures StartsWith(Join(parts, sep), parts[0])
  {
    if |parts| > 1 {
      var joined := Join(parts, sep);
      assert joined == parts[0] + (sep + Join(parts[1..], sep));
      assert joined[..|parts[0]|] == parts[0];
    }
  }

  /** A join ends with its last part. */
  lemma {:induction false} JoinEnds(parts: seq<string>, sep: string)
    requires |parts| >= 1
    ensures EndsWith(Join(parts, sep), parts[|parts| - 1])
  {
    if |parts| > 1 {
      var joined, rest, last := Join(parts, sep), Join(parts[1..], sep), parts[|parts| - 1];
      JoinEnds(parts[1..], sep);
      assert parts[1..][|parts| - 2] == last;
      assert joined == (parts[0] + sep) + rest;
      assert joined[|joined| - |last|..] == rest[|rest| - |last|..];
    }
  }

  /** `s.splitlines(keepends=True)` for `'\n'` line ends: the lines, each
      keeping its terminating newline; the empty text has no lines. */
  function SplitLinesKeepEnds(s: string): (r: seq<string>)
    ensures s != [] <==> r != []
    decreases |s|
  {
    if s == [] then []
    else if '\n' !in s then [s]
    else
      var i := IndexOfChar(s, '\n');
      [s[..i + 1]] + SplitLinesKeepEnds(s[i + 1..])
  }

  /** `"".join(parts)`. */
  function Concat(parts: seq<string>): string {
    if parts == [] then "" else parts[0] + Concat(parts[1..])
  }

  /** Splitting into lines with their ends loses nothing. */
  lemma {:induction false} ConcatSplitLines(s: string)
    ensures Concat(SplitLinesKeepEnds(s)) == s
    decreases |s|
  {
    if s != [] && '\n' in s {
      var i := IndexOfChar(s, '\n');
      ConcatSplitLines(s[i + 1..]);
      assert s == s[..i + 1] + s[i + 1..];
    }
  }

  /** The decimal spelling of a natural number, as `str(n)` prints it. */
  function NatToString(n: nat): (r: string)
    ensures r != []
    ensures forall i | 0 <= i < |r| :: '0' <= r[i] <= '9'
  {
    if n < 10 then [DigitChar(n)] else NatToString(n / 10) + [DigitChar(n % 10)]
  }

  function DigitChar(d: nat): (c: char)
    requires d < 10
    ensures '0' <= c <= '9'
  {
    ('0' as int + d) as char
  }
}
