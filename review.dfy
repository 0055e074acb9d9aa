/** The analysis half of `agent.py`: the Groq call behind `_analyze_with_groq`,
    the fallback record, `_extract_json`, and the bounded retry loop of
    `_analyze_with_retry`.

    The HTTP exchange with Groq is an oracle: `Env.replies(k)` is what the
    `k`-th call of one retry run got back, and `Env.parseJson` stands for
    `json.loads` (`None` when it raises `JSONDecodeError`). An analysis is
    the JSON object it decodes to, with each of the fields the agent reads
    present or missing. */
module Review {
  import opened Wrappers
  import opened Text
  import opened Diff

  /** The decoded analysis dictionary; `None` is a missing key. */
  datatype Analysis = Analysis(
    severity: Option<string>,
    explanation: Option<string>,
    fixedCode: Option<string>,
    commitMessage: Option<string>,
    diff: Option<string>)

  /** The body of a status-200 response, as `resp.json()` and the
      `["choices"][0]["message"]["content"]` lookup see it. */
  datatype Envelope =
    | NotJson                 // `resp.json()` raises `JSONDecodeError`
    | NoContent               // a lookup on the way to the content fails
    | Content(text: string)

  /** What one POST to the chat-completions endpoint produced. */
  datatype GroqReply =
    | Response(status: nat, envelope: Envelope)
    | TimedOut                // `httpx.TimeoutException`
    | Unreachable             // any other exception raised by the client

  datatype Env = Env(
    engine: DiffEngine,
    replies: nat -> GroqReply,
    parseJson: string -> Option<Analysis>)

  const BotNotConfigured: string := "Bot not configured"
  /** The words the retry loop looks for in a lower-cased explanation. */
  const RateLimitWords: string := "rate limit"
  const RateLimitReached: string := "AI " + RateLimitWords + " reached — try again soon"
  const TimedOutText: string := "AI timed out — try shorter code"
  const InvalidJson: string := "AI returned invalid JSON"
  const AnalysisFailed: string := "AI analysis failed"
  const MaxRetriesExceeded: string := "Max retries exceeded"
  const RetryCommit: string := "chore: retry analysis"

  function ServiceError(status: nat): string {
    "AI service error (" + NatToString(status) + ")"
  }

  /** `_fallback_result(explanation, code)`: a medium-severity record that
      keeps the code unchanged and carries the no-change diff. */
  function FallbackResult(explanation: string, code: string, engine: DiffEngine): (a: Analysis)
    ensures a.severity == Some("Medium") && a.explanation == Some(explanation)
    ensures a.fixedCode == Some(code) && a.commitMessage == Some(RetryCommit)
    ensures a.diff == Some(CreateDiff(Some(code), Some(code), engine))
  {
    Analysis(Some("Medium"), Some(explanation), Some(code), Some(RetryCommit),
             Some(CreateDiff(Some(code), Some(code), engine)))
  }

  /** Under a lawful diff engine the fallback's diff reports no changes. */
  lemma FallbackDiffUnchanged(explanation: string, code: string, engine: DiffEngine)
    requires Lawful(engine)
    ensures FallbackResult(explanation, code, engine).diff == Some(NoChangesBlock)
  {
    SameCodeNoChanges(Some(code), engine);
  }

  // ---------------------------------------------------------------------
  // _extract_json
  // ---------------------------------------------------------------------

  /** `s.split(sep, 1)[1]`: what follows the first `sep`. With
      `split(sep, 1)[0]` it splits `s` back into its two halves around that
      separator. */
  function After(s: string, sep: string): (r: string)
    requires Contains(s, sep)
    ensures exists i :: IndexOf(s, sep) == Some(i) && r == s[i + |sep|..]
    ensures sep != "" ==> s == Before(s, sep) + sep + r
  {
    var i := IndexOf(s, sep).value;
    s[i + |sep|..]
  }

  /** `s.split(sep, 1)[0]`: what precedes the first `sep`, or all of `s`. */
  function Before(s: string, sep: string): (r: string)
    requires sep != ""
    ensures |r| <= |s| && r == s[..|r|]
    ensures !Contains(r, sep)
    ensures !Contains(s, sep) ==> r == s
    ensures Contains(s, sep) ==> OccursAt(s, sep, |r|)
  {
    match IndexOf(s, sep)
    case Some(i) =>
      forall j | 0 <= j <= i - |sep| ensures !OccursAt(s[..i], sep, j) {
        assert !OccursAt(s, sep, j);
        assert s[..i][j..j + |sep|] == s[j..j + |sep|];
      }
      s[..i]
    case None => s
  }

  /** `_extract_json(text)`: the content of the first ```` ```json ```` fence,
      else of the first bare fence, else the whole text; stripped. */
  function ExtractJson(text: string): (r: string)
    ensures !Contains(r, "```")
  {
    var inner :=
      if Contains(text, "```json") then Before(After(text, "```json"), "```")
      else if Contains(text, "```") then Before(After(text, "```"), "```")
      else text;
    StrippedKeepsAbsence(inner, "```");
    Strip(inner)
  }

  /** Stripping cannot create an occurrence. */
  lemma StrippedKeepsAbsence(s: string, t: string)
    requires !Contains(s, t)
    ensures !Contains(Strip(s), t)
  {
    StripIsTrimmedSlice(s);
    var a, b :| 0 <= a <= b <= |s| && Strip(s) == s[a..b];
    if Contains(s[a..b], t) {
      ContainsFromSlice(s, a, b, t);
    }
  }

  /** Without any fence the whole reply is decoded, stripped. */
  lemma ExtractJsonUnfenced(text: string)
    requires !Contains(text, "```")
    ensures ExtractJson(text) == Strip(text)
  {
    if Contains(text, "```json") {
      var i :| 0 <= i <= |text| - 7 && OccursAt(text, "```json", i);
      assert text[i..i + 3] == text[i..i + 7][..3];
      assert OccursAt(text, "```", i);
    }
  }

  /** The first ```` ```json ```` fence decides, even when a bare fence comes
      earlier: its body, up to the next three backticks, is decoded. The body
      may hold backticks, as long as three of them first follow it. */
  lemma ExtractJsonPrefersJsonFence(pre: string, body: string, post: string)
    requires IndexOf(pre + "```json" + body + "```" + post, "```json") == Some(|pre|)
    requires IndexOf(body + "```" + post, "```") == Some(|body|)
    ensures ExtractJson(pre + "```json" + body + "```" + post) == Strip(body)
  {
    var text := pre + "```json" + body + "```" + post;
    var rest := text[|pre| + 7..];
    assert rest == body + "```" + post;
    BeforeFirstFence(body, post);
  }

  /** Lacking the ```` ```json ```` fence, the first bare fence is decoded,
      up to the next three backticks. */
  lemma ExtractJsonBareFence(pre: string, body: string, post: string)
    requires !Contains(pre + "```" + body + "```" + post, "```json")
    requires IndexOf(pre + "```" + body + "```" + post, "```") == Some(|pre|)
    requires IndexOf(body + "```" + post, "```") == Some(|body|)
    ensures ExtractJson(pre + "```" + body + "```" + post) == Strip(body)
  {
    var text := pre + "```" + body + "```" + post;
    var rest := text[|pre| + 3..];
    assert rest == body + "```" + post;
    BeforeFirstFence(body, post);
  }

  /** A body ends at the three backticks that follow it when they are the
      first three in a row. */
  lemma BeforeFirstFence(body: string, post: string)
    requires IndexOf(body + "```" + post, "```") == Some(|body|)
    ensures Before(body + "```" + post, "```") == body
  {
    assert (body + "```" + post)[..|body|] == body;
  }

  /** A backtick-free body (the usual JSON reply) meets that condition: the
      fence after it holds the first three backticks of the rest. */
  lemma BacktickFreeBodyEndsAtFence(body: string, post: string)
    requires '`' !in body
    ensures IndexOf(body + "```" + post, "```") == Some(|body|)
  {
    var s := body + "```" + post;
    assert OccursAt(s, "```", |body|);
    forall j | 0 <= j < |body|
      ensures !OccursAt(s, "```", j)
    {
      assert s[j] == body[j];
      assert s[j] in body;
    }
  }

  // ---------------------------------------------------------------------
  // _analyze_with_groq
  // ---------------------------------------------------------------------

  /** `_analyze_with_groq(code, lang)` given the API key and what the call
      got back: the decoded record when everything succeeds, otherwise the
      fallback record naming what went wrong. */
  function AnalyzeWithGroq(apiKey: Option<string>, code: string, reply: GroqReply, env: Env): (a: Analysis)
    ensures (apiKey.None? || apiKey.value == "") ==> a == FallbackResult(BotNotConfigured, code, env.engine)
  {
    if apiKey.None? || apiKey.value == "" then FallbackResult(BotNotConfigured, code, env.engine)
    else
      match reply
      case TimedOut => FallbackResult(TimedOutText, code, env.engine)
      case Unreachable => FallbackResult(AnalysisFailed, code, env.engine)
      case Response(status, envelope) =>
        if status == 429 then FallbackResult(RateLimitReached, code, env.engine)
        else if status != 200 then FallbackResult(ServiceError(status), code, env.engine)
        else
          match envelope
          case NotJson => FallbackResult(InvalidJson, code, env.engine)
          case NoContent => FallbackResult(AnalysisFailed, code, env.engine)
          case Content(content) =>
            match env.parseJson(ExtractJson(Strip(content)))
            case None => FallbackResult(InvalidJson, code, env.engine)
            case Some(decoded) => decoded
  }

  // ---------------------------------------------------------------------
  // _analyze_with_retry
  // ---------------------------------------------------------------------

  /** What the retry loop makes of one analysis: keep it, try again, or fail
      with a `KeyError` on the key it reads and does not find. */
  datatype Verdict = Accept | Retry | MissingKey(key: string)

  /** The loop's test: an analysis is retried when its severity is
      `"Medium"` and its lower-cased explanation mentions a rate limit. The
      severity is read first and the explanation only when it is medium. */
  function Judge(a: Analysis): (v: Verdict)
    ensures v.MissingKey? <==> a.severity.None? || (a.severity == Some("Medium") && a.explanation.None?)
  {
    match a.severity
    case None => MissingKey("severity")
    case Some(severity) =>
      if severity != "Medium" then Accept
      else
        match a.explanation
        case None => MissingKey("explanation")
        case Some(explanation) => if Contains(Lower(explanation), RateLimitWords) then Retry else Accept
  }

  /** The loop retries exactly a medium analysis whose lower-cased
      explanation mentions a rate limit. */
  lemma RetriedIffMediumRateLimit(a: Analysis)
    ensures Judge(a) == Retry <==>
      a.severity == Some("Medium") && a.explanation.Some? && Contains(Lower(a.explanation.value), RateLimitWords)
  {
  }

  /** The result of a retry run: an analysis, or the `KeyError` it raised. */
  datatype Outcome = Done(analysis: Analysis) | KeyError(key: string)

  /** One run of the retry loop: its outcome and how many calls it made. */
  datatype RetryRun = RetryRun(outcome: Outcome, calls: nat)

  /** The outcome a settled verdict leads to. */
  function Settle(a: Analysis): Outcome
    requires Judge(a) != Retry
  {
    if Judge(a) == Accept then Done(a) else KeyError(Judge(a).key)
  }

  /** The analyses the calls of one run produce, by attempt number. */
  function Attempts(apiKey: Option<string>, code: string, env: Env): nat -> Analysis {
    (k: nat) => AnalyzeWithGroq(apiKey, code, env.replies(k), env)
  }

  /** The retry loop from attempt `k` on, counting calls from the start of
      the run: the first attempt that does not ask for a retry settles the
      run; when all `maxRetries` attempts ask for one, `exhausted` is
      returned. */
  function RetryFrom(attempts: nat -> Analysis, exhausted: Analysis, k: nat, maxRetries: nat): (r: RetryRun)
    requires k <= maxRetries
    ensures k <= r.calls <= maxRetries
    decreases maxRetries - k
  {
    if k == maxRetries then RetryRun(Done(exhausted), k)
    else
      var a := attempts(k);
      if Judge(a) == Retry then RetryFrom(attempts, exhausted, k + 1, maxRetries)
      else RetryRun(Settle(a), k + 1)
  }

  /** What a run from attempt `k` does: every attempt before its last call
      asked for a retry; a run that stops early stops at an attempt that
      settled, and its outcome is that attempt's; a run in which every
      attempt asks for a retry makes all its calls and returns `exhausted`. */
  lemma {:induction false} RetryFromRun(attempts: nat -> Analysis, exhausted: Analysis, k: nat, maxRetries: nat)
    requires k <= maxRetries
    ensures var r := RetryFrom(attempts, exhausted, k, maxRetries);
      && (forall j | k <= j < r.calls - 1 :: Judge(attempts(j)) == Retry)
      && (r.calls < maxRetries ==> r.calls > k && Judge(attempts(r.calls - 1)) != Retry)
      && (r.calls > k && Judge(attempts(r.calls - 1)) != Retry ==> r.outcome == Settle(attempts(r.calls - 1)))
      && ((forall j | k <= j < maxRetries :: Judge(attempts(j)) == Retry) ==> r == RetryRun(Done(exhausted), maxRetries))
    decreases maxRetries - k
  {
    if k < maxRetries && Judge(attempts(k)) == Retry {
      RetryFromRun(attempts, exhausted, k + 1, maxRetries);
    }
  }

  /** The first `n` attempts all asked for a retry. */
  predicate AllRetried(attempts: nat -> Analysis, n: nat) {
    n == 0 || (AllRetried(attempts, n - 1) && Judge(attempts(n - 1)) == Retry)
  }

  /** `AllRetried` is the verdict of each of those attempts. */
  lemma {:induction false} AllRetriedEach(attempts: nat -> Analysis, n: nat)
    ensures AllRetried(attempts, n) <==> forall j | 0 <= j < n :: Judge(attempts(j)) == Retry
  {
    if n > 0 {
      AllRetriedEach(attempts, n - 1);
    }
  }

  /** One step of the loop: a retried attempt passes on to the next one, a
      settled attempt ends the run. */
  lemma RetryFromStep(attempts: nat -> Analysis, exhausted: Analysis, k: nat, maxRetries: nat)
    requires k < maxRetries
    ensures Judge(attempts(k)) == Retry ==>
      RetryFrom(attempts, exhausted, k, maxRetries) == RetryFrom(attempts, exhausted, k + 1, maxRetries)
    ensures Judge(attempts(k)) != Retry ==>
      RetryFrom(attempts, exhausted, k, maxRetries) == RetryRun(Settle(attempts(k)), k + 1)
  {
  }

  /** `_analyze_with_retry(code, lang, max_retries)` as a run over the
      replies the Groq calls get. */
  function AnalyzeWithRetrySpec(apiKey: Option<string>, code: string, env: Env, maxRetries: nat): RetryRun {
    RetryFrom(Attempts(apiKey, code, env), FallbackResult(MaxRetriesExceeded, code, env.engine), 0, maxRetries)
  }

  /** `2 ** k`, the base of the wait after the `k`-th retried attempt. */
  function Pow2(k: nat): (r: nat)
    ensures r >= 1
  {
    if k == 0 then 1 else 2 * Pow2(k - 1)
  }

  /** The base waits slept after the first `n` retried attempts, in order. */
  function Backoff(n: nat): (r: seq<nat>)
    ensures |r| == n
  {
    if n == 0 then [] else Backoff(n - 1) + [Pow2(n - 1)]
  }

  /** The wait after the `k`-th retried attempt is `2 ** k`, so each wait
      doubles the one before. */
  lemma {:induction false} BackoffDoubles(n: nat)
    ensures forall k | 0 <= k < n :: Backoff(n)[k] == Pow2(k)
    ensures forall k | 0 < k < n :: Backoff(n)[k] == 2 * Backoff(n)[k - 1]
  {
    if n > 0 {
      BackoffDoubles(n - 1);
    }
  }

  /** `text` lower-cased contains `w` when `w` sits in it and is already
      lower-case. */
  lemma LowerKeepsLowerWord(pre: string, w: string, post: string)
    requires forall i | 0 <= i < |w| :: LowerChar(w[i]) == w[i]
    ensures Contains(Lower(pre + w + post), w)
  {
    var t := pre + w + post;
    var s := Lower(t);
    forall i | 0 <= i < |w| ensures s[|pre| + i] == w[i] {
      assert t[|pre| + i] == w[i];
    }
    assert s[|pre|..|pre| + |w|] == w;
    assert OccursAt(s, w, |pre|);
  }

  /** The rate-limit fallback mentions a rate limit ... */
  lemma RateLimitMentioned()
    ensures Contains(Lower(RateLimitReached), RateLimitWords)
  {
    LowerKeepsLowerWord("AI ", RateLimitWords, " reached — try again soon");
  }

  /** ... so it is retried by the loop. */
  lemma RateLimitFallbackRetried(code: string, engine: DiffEngine)
    ensures Judge(FallbackResult(RateLimitReached, code, engine)) == Retry
  {
    RateLimitMentioned();
  }

  /** A fallback whose explanation lacks one of the letters of
      `"rate limit"`, in either case, is not retried. */
  lemma FallbackLackingLetterAccepted(explanation: string, k: nat, code: string, engine: DiffEngine)
    requires k < 10
    requires forall i | 0 <= i < |explanation| :: LowerChar(explanation[i]) != RateLimitWords[k]
    ensures Judge(FallbackResult(explanation, code, engine)) == Accept
  {
    var low := Lower(explanation);
    forall i | 0 <= i < |low| ensures low[i] != RateLimitWords[k] {
      assert low[i] == LowerChar(explanation[i]);
    }
    MissingCharNotContained(low, RateLimitWords, k);
  }

  /** The service-error text holds letters, digits and punctuation but no
      `m`. */
  lemma ServiceErrorLacksM(status: nat)
    ensures forall i | 0 <= i < |ServiceError(status)| :: LowerChar(ServiceError(status)[i]) != 'm'
  {
    var head, digits, tail := "AI service error (", NatToString(status), ")";
    var s := ServiceError(status);
    assert s == head + digits + tail;
    forall i | 0 <= i < |s| ensures LowerChar(s[i]) != 'm' {
      if i < |head| {
        assert s[i] == head[i];
      } else if i < |head| + |digits| {
        assert s[i] == digits[i - |head|];
      } else {
        assert s[i] == tail[i - |head| - |digits|];
      }
    }
  }

  /** The fallbacks other than the rate-limit one settle the run. */
  lemma NotConfiguredAccepted(code: string, engine: DiffEngine)
    ensures Judge(FallbackResult(BotNotConfigured, code, engine)) == Accept
  {
    FallbackLackingLetterAccepted(BotNotConfigured, 7, code, engine);
  }

  lemma TimedOutAccepted(code: string, engine: DiffEngine)
    ensures Judge(FallbackResult(TimedOutText, code, engine)) == Accept
  {
    FallbackLackingLetterAccepted(TimedOutText, 5, code, engine);
  }

  lemma AnalysisFailedAccepted(code: string, engine: DiffEngine)
    ensures Judge(FallbackResult(AnalysisFailed, code, engine)) == Accept
  {
    FallbackLackingLetterAccepted(AnalysisFailed, 7, code, engine);
  }

  lemma InvalidJsonAccepted(code: string, engine: DiffEngine)
    ensures Judge(FallbackResult(InvalidJson, code, engine)) == Accept
  {
    FallbackLackingLetterAccepted(InvalidJson, 7, code, engine);
  }

  lemma ServiceErrorAccepted(status: nat, code: string, engine: DiffEngine)
    ensures Judge(FallbackResult(ServiceError(status), code, engine)) == Accept
  {
    ServiceErrorLacksM(status);
    FallbackLackingLetterAccepted(ServiceError(status), 7, code, engine);
  }

  /** Only two things make the loop retry: a 429 from Groq, and a decoded
      record that is itself medium and mentions a rate limit. Every other
      fallback settles the run. */
  lemma RetryOnlyOnRateLimit(apiKey: Option<string>, code: string, reply: GroqReply, env: Env)
    ensures Judge(AnalyzeWithGroq(apiKey, code, reply, env)) == Retry ==>
      && apiKey.Some? && apiKey.value != "" && reply.Response?
      && (reply.status == 429 ||
          (reply.status == 200 && reply.envelope.Content? &&
           env.parseJson(ExtractJson(Strip(reply.envelope.text))).Some?))
  {
    var e := env.engine;
    if apiKey.None? || apiKey.value == "" {
      NotConfiguredAccepted(code, e);
    } else {
      match reply
      case TimedOut => TimedOutAccepted(code, e);
      case Unreachable => AnalysisFailedAccepted(code, e);
      case Response(status, envelope) =>
        if status != 429 && status != 200 {
          ServiceErrorAccepted(status, code, e);
        } else if status == 200 {
          InvalidJsonAccepted(code, e);
          AnalysisFailedAccepted(code, e);
        }
    }
  }

  /** An unconfigured bot settles on its first call. */
  lemma UnconfiguredSettlesAtOnce(apiKey: Option<string>, code: string, env: Env, maxRetries: nat)
    requires apiKey.None? || apiKey.value == ""
    requires maxRetries >= 1
    ensures AnalyzeWithRetrySpec(apiKey, code, env, maxRetries) ==
      RetryRun(Done(FallbackResult(BotNotConfigured, code, env.engine)), 1)
  {
    NotConfiguredAccepted(code, env.engine);
    assert Attempts(apiKey, code, env)(0) == AnalyzeWithGroq(apiKey, code, env.replies(0), env);
    assert Attempts(apiKey, code, env)(0) == FallbackResult(BotNotConfigured, code, env.engine);
  }

  /** With every reply a 429, every attempt is retried: the run makes all its
      calls and returns the max-retries fallback. */
  lemma RateLimitedEverywhereExhausts(apiKey: Option<string>, code: string, env: Env, maxRetries: nat)
    requires apiKey.Some? && apiKey.value != ""
    requires forall k :: env.replies(k) == Response(429, NotJson) || env.replies(k) == Response(429, NoContent)
    ensures AnalyzeWithRetrySpec(apiKey, code, env, maxRetries) ==
      RetryRun(Done(FallbackResult(MaxRetriesExceeded, code, env.engine)), maxRetries)
  {
    RateLimitFallbackRetried(code, env.engine);
    forall j | 0 <= j < maxRetries
      ensures Judge(Attempts(apiKey, code, env)(j)) == Retry
    {
      assert Attempts(apiKey, code, env)(j) == FallbackResult(RateLimitReached, code, env.engine);
    }
    RetryFromRun(Attempts(apiKey, code, env), FallbackResult(MaxRetriesExceeded, code, env.engine), 0, maxRetries);
  }
}
