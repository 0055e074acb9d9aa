# SniffBot A2A — a Dafny model

SniffBot is a code-review bot that speaks JSON-RPC 2.0 over the A2A (agent to agent)
protocol. A chat message that says `@sniffbot sniff this` and holds some code gets a
review from a language model hosted by Groq: a severity, a one-sentence explanation,
a unified diff from the code to the fixed code, and a commit message.
`@sniffbot fix last` reviews the latest code sent earlier. Greetings, help requests
and thanks get canned replies. Once a week a scheduler posts a "Smell of the Week".

This project models the core of that system and proves properties of the model:

| file | models |
|---|---|
| `wrappers.dfy` | `Option` |
| `text.dfy` | the Python string operations the core relies on: `strip`, `lower`, `in`, `split`, `join`, `splitlines` |
| `a2a.dfy` | messages, parts, artifacts, task results |
| `code_extractor.dfy` | `utils/code_extractor.py`: fenced block, inline span, indented block and keyword heuristic, in that priority, with the language guess |
| `diff.dfy` | `utils/diff.py`: the input normalisation and the three shapes of the diff block around `difflib` |
| `review.dfy` | `agent.py`: the Groq call with all its error paths, `_extract_json`, `_fallback_result` and the retry loop |
| `agent.dfy` | `process_messages` with its decision list, the reply builders, the intent tests and `_CONVERSATION_MEMORY` |
| `gateway.dfy` | `main.py`: the sliding-window rate limiter, `jsonrpc_error`, and the `/a2a/sniff` endpoint |
| `scheduler.dfy` | `scheduler.py`: `TAG_EMOJI` and `build_smell_message` |

The Python code that changes state step by step is modelled in the same form:

- the loops of `extract_code`, `_analyze_with_retry`, the fix-last scan, the follow-up
  scan and `is_rate_limited` are methods with loops;
- `_CONVERSATION_MEMORY` and `_request_log` are fields of classes that the methods update;
- every method is proved equal to a specification function;
- the properties are lemmas about those functions.

Things the core cannot see become parameters:

- what each Groq call returns (`Review.Env.replies`);
- `json.loads` (`Review.Env.parseJson`);
- `difflib.unified_diff` (`Diff.DiffEngine`, with the law that equal inputs give no lines);
- Pydantic validation of the request parameters (`Gateway.Validators`);
- the clock (`now`, in microseconds);
- `uuid4` (`Agent.Ids`, `Gateway.Fresh`).

Where a property depends on one of these parameters, the lemma says which law it assumes.

Behaviour reproduced exactly as the code has it:

- On the `message/send` path `task_id` is never assigned. Every validated `message/send`
  therefore ends in the `-32000` server error (`Gateway.SendNeverSucceeds`).
- Intents are matched by substring. `"this"` contains the greeting `"hi"`
  (`Agent.ThisGreets`). A `?` or `how` anywhere in a review request turns it into a help
  request (`Agent.HelpPreemptsReview`).
- A missing `severity`, `explanation` or `commit_message` in the decoded analysis raises
  `KeyError`. The endpoint turns that into a server error (`Agent.Reply.Raised`).
- The fix-last branch has a third reply, "No code found in the last message.". It can never
  be sent, because the scan only stops at a message whose code is not blank
  (`Agent.FixLastReviewsLatest`).

## Model

| member | source | states |
|---|---|---|
| CodeExtractor.IndentedLines | sniffbot-a2a/utils/code_extractor.py:61-64 | every kept line starts with four spaces or a tab, and every such line is kept |
| CodeExtractor.IndentedLinesFilter | sniffbot-a2a/utils/code_extractor.py:61-64 | the indented pass is a filter: one line is kept exactly when indented, and the result for joined runs of lines is the two results joined, so lines keep their order and multiplicity |
| CodeExtractor.DedentAll | sniffbot-a2a/utils/code_extractor.py:68-69 | each indented line loses its leading run of spaces or its one tab, order kept |
| CodeExtractor.CodeLines | sniffbot-a2a/utils/code_extractor.py:79-85 | every kept line is non-blank once stripped and holds a code keyword, and every such line is kept |
| CodeExtractor.CodeLinesFilter | sniffbot-a2a/utils/code_extractor.py:79-85 | the keyword pass is a filter: one line is kept exactly when it is a code line, and the result for joined runs of lines is the two results joined, so lines keep their order and multiplicity |
| CodeExtractor.DetectLanguage | sniffbot-a2a/utils/code_extractor.py:111-142 | the guess is one of seven names; `java` needs a brace, `bash` no fence; `import` or `from` always means python |
| CodeExtractor.CollectIndented | sniffbot-a2a/utils/code_extractor.py:61-64 | the loop collects exactly `IndentedLines` |
| CodeExtractor.CollectCodeLines | sniffbot-a2a/utils/code_extractor.py:79-85 | the loop, skipping blank lines, collects exactly `CodeLines` |
| CodeExtractor.ExtractCode | sniffbot-a2a/utils/code_extractor.py:10-98 | `extract_code` returns what the priority list `Extraction` specifies |
| CodeExtractor.ExtractUnfenced | sniffbot-a2a/utils/code_extractor.py:48-97 | after the fenced search, the inline search and the two line passes give `LaterSteps` |
| CodeExtractor.BlankInputYieldsNothing | sniffbot-a2a/utils/code_extractor.py:28-34 | empty or all-whitespace input gives `("", "")` |
| CodeExtractor.HeuristicCodeNonEmpty | sniffbot-a2a/utils/code_extractor.py:87-91 | code the heuristic step finds is never blank, so the missing emptiness test is harmless |
| CodeExtractor.LaterStepsCodeIffLang | sniffbot-a2a/utils/code_extractor.py:48-97 | without a fence, code is empty exactly when the language is |
| CodeExtractor.CodeEmptyIffLangEmpty | sniffbot-a2a/utils/code_extractor.py:10-98 | the returned code is empty exactly when the returned language is |
| CodeExtractor.FencedSkipsPlainText | sniffbot-a2a/utils/code_extractor.py:40 | the fenced search cannot start a match on a non-backtick character |
| CodeExtractor.NoFenceWithoutTicks | sniffbot-a2a/utils/code_extractor.py:40 | text without three backticks holds no fenced block |
| CodeExtractor.FencedMatchAt | sniffbot-a2a/utils/code_extractor.py:40 | the first opening fence with a word tag and newline, body up to the first closing fence, is the match |
| CodeExtractor.FencedBlockFound | sniffbot-a2a/utils/code_extractor.py:40 | a block after backtick-free text is found with exactly its tag and body |
| CodeExtractor.FoundFenceDecides | sniffbot-a2a/utils/code_extractor.py:41-46 | a found block with a non-blank body decides the result, tag lower-cased or `unknown`; a blank one defers |
| CodeExtractor.FencedBlockWins | sniffbot-a2a/utils/code_extractor.py:40-46 | a fenced block after backtick-free text, in a message whose ends are not whitespace, is found exactly; with a non-blank body it wins over every other form, with its right-stripped body and lower-cased tag (or `unknown`), and with a blank body it defers to the later steps (`FoundFenceDecides` states the general case) |
| CodeExtractor.FencedTextTrimmed | sniffbot-a2a/utils/code_extractor.py:32 | stripping leaves a fenced message as it is when its ends are not blank |
| CodeExtractor.InlineSkipsPlainText | sniffbot-a2a/utils/code_extractor.py:51 | the inline search cannot start a match on a non-backtick character |
| CodeExtractor.InlineMatchAt | sniffbot-a2a/utils/code_extractor.py:51 | the first single backtick with a closing backtick on the same line gives the span between |
| CodeExtractor.InlineSpanFound | sniffbot-a2a/utils/code_extractor.py:51 | a span after backtick-free text is found exactly |
| CodeExtractor.InlineSpanWins | sniffbot-a2a/utils/code_extractor.py:40-56 | without any fence, a non-blank inline span is the code, language `unknown` |
| CodeExtractor.UnfencedExtraction | sniffbot-a2a/utils/code_extractor.py:40-47 | text without three backticks goes straight to the later steps |
| CodeExtractor.InlineStepDecides | sniffbot-a2a/utils/code_extractor.py:51-56 | a non-blank inline span decides the later steps |
| Diff.EnsureFinalNewline | sniffbot-a2a/utils/diff.py:38-41 | only the last line changes; it ends with a newline and starts with its old text; unchanged if it had one |
| Diff.PrepareLines | sniffbot-a2a/utils/diff.py:30-41 | the in-place patch of the last line yields `DiffInput` |
| Diff.CreateDiff | sniffbot-a2a/utils/diff.py:9-65 | the result is always a `diff` fenced block; engine failure gives the error block, no lines the no-changes block |
| Diff.ChangedDiffBody | sniffbot-a2a/utils/diff.py:59-61 | a real diff is the joined lines with only trailing whitespace dropped |
| Diff.SameCodeNoChanges | sniffbot-a2a/utils/diff.py:55-57 | diffing code against itself gives the no-changes block |
| Diff.MissingIsEmpty | sniffbot-a2a/utils/diff.py:30-31 | a missing input and the empty input give the same block |
| Diff.SplitLinesEnds | sniffbot-a2a/utils/diff.py:34-35 | every split line but the last ends in a newline; the last does exactly when the text does |
| Diff.SplitLinesNewlineAppended | sniffbot-a2a/utils/diff.py:34-41 | splitting a text with its missing newline appended equals patching the last line |
| Diff.EnsureFinalNewlineIdempotent | sniffbot-a2a/utils/diff.py:38-41 | patching the last line twice equals patching it once |
| Diff.FinalNewlineIrrelevant | sniffbot-a2a/utils/diff.py:34-41 | a text and the same text with its final newline give the same diff input |
| Diff.DiffIgnoresFinalNewline | sniffbot-a2a/utils/diff.py:9-65 | the diff block does not depend on a missing final newline, on either side |
| Diff.SameInputSameDiff | sniffbot-a2a/utils/diff.py:43-61 | the block depends on the inputs only through the prepared lines |
| Diff.DiffInputSpellsInput | sniffbot-a2a/utils/diff.py:34-41 | the prepared lines spell the input, plus a newline when it lacked one |
| Diff.MissingFinalNewlineNoChanges | sniffbot-a2a/utils/diff.py:38-57 | code that differs only by its final newline shows no changes |
| Review.FallbackResult | sniffbot-a2a/agent.py:120-129 | the fallback is medium, keeps the code, commits `chore: retry analysis` and carries the self-diff |
| Review.FallbackDiffUnchanged | sniffbot-a2a/agent.py:121 | the fallback's diff is the no-changes block |
| Review.After | sniffbot-a2a/agent.py:115 | `split(sep, 1)[1]` is the text after the first separator, and the text is the part before it, the separator and this part, in that order |
| Review.Before | sniffbot-a2a/agent.py:115 | `split(sep, 1)[0]` is the longest prefix without the separator, ending where the first one starts |
| Review.ExtractJson | sniffbot-a2a/agent.py:112-118 | the extracted JSON text never holds three backticks |
| Review.ExtractJsonUnfenced | sniffbot-a2a/agent.py:118 | without a fence the whole reply, stripped, is decoded |
| Review.ExtractJsonPrefersJsonFence | sniffbot-a2a/agent.py:114-115 | the first `json` fence wins, even after a bare fence, and its body up to the next three backticks is decoded, stripped, backticks included, as long as the first three backticks after it are its closing fence |
| Review.ExtractJsonBareFence | sniffbot-a2a/agent.py:116-117 | without a `json` fence the first bare fence's body up to the next three backticks is decoded, stripped, backticks included, as long as the first three backticks after it are its closing fence |
| Review.AnalyzeWithGroq | sniffbot-a2a/agent.py:38-39 | without an API key the call returns the not-configured fallback |
| Review.Judge | sniffbot-a2a/agent.py:103 | the test raises `KeyError` exactly when severity is missing, or it is medium and explanation is missing |
| Review.RetriedIffMediumRateLimit | sniffbot-a2a/agent.py:103 | an analysis is retried exactly when it is medium and mentions a rate limit |
| Review.RetryFrom | sniffbot-a2a/agent.py:100-110 | the loop makes at least the calls already made and at most `max_retries` |
| Review.RetryFromRun | sniffbot-a2a/agent.py:100-110 | every call before the last was retried; an early stop returns the settling analysis; all retried gives the max-retries fallback |
| Review.RetryFromStep | sniffbot-a2a/agent.py:100-104 | a retried attempt passes on to the next, a settled one ends the run |
| Review.Backoff | sniffbot-a2a/agent.py:106 | one wait per retried attempt |
| Review.BackoffDoubles | sniffbot-a2a/agent.py:106 | the k-th wait is `2 ** k`, twice the one before |
| Review.RateLimitMentioned | sniffbot-a2a/agent.py:79 | the rate-limit fallback mentions `rate limit` once lower-cased |
| Review.RateLimitFallbackRetried | sniffbot-a2a/agent.py:78-79 | a 429 from Groq is retried |
| Review.FallbackLackingLetterAccepted | sniffbot-a2a/agent.py:103 | a fallback lacking a letter of `rate limit` settles the run |
| Review.NotConfiguredAccepted | sniffbot-a2a/agent.py:38-39 | the not-configured fallback settles the run |
| Review.TimedOutAccepted | sniffbot-a2a/agent.py:88-89 | the timeout fallback settles the run |
| Review.AnalysisFailedAccepted | sniffbot-a2a/agent.py:92-94 | the analysis-failed fallback settles the run |
| Review.InvalidJsonAccepted | sniffbot-a2a/agent.py:90-91 | the invalid-JSON fallback settles the run |
| Review.ServiceErrorAccepted | sniffbot-a2a/agent.py:80-82 | a non-200, non-429 status settles the run |
| Review.RetryOnlyOnRateLimit | sniffbot-a2a/agent.py:36-104 | only a 429, or a decoded analysis that itself says rate limit, is retried |
| Review.UnconfiguredSettlesAtOnce | sniffbot-a2a/agent.py:96-110 | without an API key the run makes one call and returns the not-configured fallback |
| Review.RateLimitedEverywhereExhausts | sniffbot-a2a/agent.py:96-110 | when every reply is a 429 the run makes all its calls and returns the max-retries fallback |
| Agent.PartTextsAppend | sniffbot-a2a/agent.py:158 | the message text is read as a filter over its parts: one part gives its text (`""` when missing) exactly when its kind is `text`, and runs of parts give their texts joined in order |
| Agent.LatestIndex | sniffbot-a2a/agent.py:240-247 | the index found satisfies the test and none after it does; none found means none satisfies it |
| Agent.LatestIndexIs | sniffbot-a2a/agent.py:240-247 | the latest passing element is the one with no passing element after it |
| Agent.LatestIndexNone | sniffbot-a2a/agent.py:240-247 | with no passing element the scan finds nothing |
| Agent.Recent | sniffbot-a2a/agent.py:319 | the recent memory is the last min(5, n) of the n stored messages, in stored order |
| Agent.ReviewTurnAnswers | sniffbot-a2a/agent.py:180-228 | a review raises leaving memory alone, or completes with three artifacts and stores the history with its reply |
| Agent.ReviewReplyAnswers | sniffbot-a2a/agent.py:181-228 | the reply built from an analysis raises, or completes, stores the history and appends one agent message |
| Agent.FixLastTurnAnswers | sniffbot-a2a/agent.py:230-315 | fix-last answers like a review, or asks for input leaving memory alone |
| Agent.RespondAnswers | sniffbot-a2a/agent.py:156-350 | each branch keeps the ids, appends one agent message and never fails; only a command can complete |
| Agent.DispatchResult | sniffbot-a2a/agent.py:131-350 | the result keeps the ids, appends one agent message, fails exactly on an empty history, completes only on a command |
| Agent.DispatchRaisesOnlyOnHistory | sniffbot-a2a/agent.py:150-154 | an empty history gets the error result and never raises |
| Agent.DispatchMemory | sniffbot-a2a/agent.py:143-306 | new messages replace the context's history, a completed review stores its reply, other contexts are untouched |
| Agent.EmptyInputOnlyReads | sniffbot-a2a/agent.py:144-145 | with no new messages only a completed review writes memory |
| Agent.CommandsAreNotGreetings | sniffbot-a2a/agent.py:450-457 | a message with either command is not a greeting |
| Agent.ThisGreets | sniffbot-a2a/agent.py:450-457 | naming the bot and saying `this`, with no command, is a greeting |
| Agent.HelpPreemptsReview | sniffbot-a2a/agent.py:166-180 | a review request holding a help word gets the help text |
| Agent.FixLastReviewsLatest | sniffbot-a2a/agent.py:240-268 | fix-last reviews the latest earlier user message with code; the no-code-in-last reply cannot occur |
| Agent.FixLastWithoutCode | sniffbot-a2a/agent.py:240-254 | with no earlier code fix-last says it found none |
| Agent.ReviewTextIsBody | sniffbot-a2a/agent.py:184-196 | stripping the review template removes only its framing newlines; the text holds the heading |
| Agent.HeadingsRecognised | sniffbot-a2a/agent.py:324 | both headings hold a phrase the follow-up check looks for |
| Agent.ReviewReplyRecognised | sniffbot-a2a/agent.py:271-324 | a review or re-review reply is recognised as one by the follow-up check |
| Agent.ThanksAfterReview | sniffbot-a2a/agent.py:317-329 | after a stored review reply a non-command message is thanked |
| Agent.RetryLoop | sniffbot-a2a/agent.py:100-110 | the loop's outcome and calls are `RetryFrom`'s; its waits are the doubling backoff, one per retried attempt |
| Agent.FindPreviousCode | sniffbot-a2a/agent.py:240-247 | the backward scan finds the latest earlier user message with code |
| Agent.LatestMatch | sniffbot-a2a/agent.py:241-247 | the backward scan with a break finds `LatestIndex` |
| Agent.FollowUpSeen | sniffbot-a2a/agent.py:321-324 | the scan says yes exactly when a recent agent message names a review |
| Agent.ConversationMemory.constructor | sniffbot-a2a/agent.py:23 | the memory starts empty |
| Agent.SniffBot.constructor | sniffbot-a2a/agent.py:27-29 | a new agent has no API key |
| Agent.SniffBot.Initialize | sniffbot-a2a/agent.py:31-34 | the key is stored |
| Agent.SniffBot.AnalyzeWithRetry | sniffbot-a2a/agent.py:96-110 | the run is `AnalyzeWithRetrySpec` with its waits |
| Agent.SniffBot.ReviewAndStore | sniffbot-a2a/agent.py:180-228 | reply and new memory are `ReviewTurn`'s |
| Agent.SniffBot.ProcessMessages | sniffbot-a2a/agent.py:131-350 | reply and new memory are `Dispatch`'s |
| Agent.SniffBot.RespondTo | sniffbot-a2a/agent.py:156-350 | reply and new memory are `Respond`'s |
| Agent.SniffBot.FixLastAndStore | sniffbot-a2a/agent.py:230-315 | reply and new memory are `FixLastTurn`'s |
| Agent.SniffBot.Execute | sniffbot-a2a/agent.py:352-367 | `execute` behaves as `process_messages` |
| Gateway.Unexpired | sniffbot-a2a/main.py:51 | pruning keeps only timestamps inside the window |
| Gateway.UnexpiredIsFilter | sniffbot-a2a/main.py:51 | each timestamp inside the window is kept as often as it occurs, the others dropped |
| Gateway.AdmittedIffUnderLimit | sniffbot-a2a/main.py:42-59 | a request is admitted exactly when fewer than the limit are in the window; only admission records `now` |
| Gateway.ResetInBounds | sniffbot-a2a/main.py:55 | the reset time is at least one second, and at most 61 when no timestamp is in the future |
| Gateway.LogStaysBounded | sniffbot-a2a/main.py:51-59 | an identifier's log never exceeds the limit |
| Gateway.BurstAdmitsLimit | sniffbot-a2a/main.py:42-59 | of a burst at one instant exactly the first `limit` requests are admitted |
| Gateway.SameInstantStep | sniffbot-a2a/main.py:42-59 | one more request at the same instant is admitted while the log is under the limit |
| Gateway.AllFresh | sniffbot-a2a/main.py:51 | timestamps at `now` are never pruned |
| Gateway.RateLimiter.constructor | sniffbot-a2a/main.py:40 | the log starts empty |
| Gateway.RateLimiter.IsRateLimited | sniffbot-a2a/main.py:42-59 | the answer is `RateDecision` and the identifier's log becomes `LogAfter`, others kept; the limit invariant is kept |
| Gateway.JsonRpcError | sniffbot-a2a/main.py:99-109 | status 400 exactly for codes -32768..-32600, else 500; id, code and message echoed; data only when non-empty |
| Gateway.ErrorCodeStatuses | sniffbot-a2a/main.py:107-108 | the four protocol errors answer 400, the server error 500 |
| Gateway.ScreenOrder | sniffbot-a2a/main.py:157-173 | parse, envelope and method are checked in order; early answers are 400s; an accepted request names a known method |
| Gateway.ScreenDecides | sniffbot-a2a/main.py:164-173 | a bad envelope gets -32600 with the body's `id` (or none); a valid envelope with an unknown method gets -32601 with its `id`; a valid envelope naming `message/send` or `execute` is accepted with its `id`, method and `params` |
| Gateway.IdentifierChoice | sniffbot-a2a/main.py:176-179 | a non-empty user id wins; otherwise a present non-empty channel, `unknown` when the channel is absent, and the forwarded address (default `unknown`) exactly when the channel header is present and empty |
| Gateway.RejectedBeforeRateLimit | sniffbot-a2a/main.py:157-184 | a rejected request is answered before the limiter and is not counted |
| Gateway.AcceptedIsCounted | sniffbot-a2a/main.py:176-199 | every screened request prunes its identifier's log; `now` is appended exactly when it goes on |
| Gateway.LimitedGets429 | sniffbot-a2a/main.py:184-199 | a limited request gets 429, a wait of at least a second and code -32000 under its id |
| Gateway.SendNeverSucceeds | sniffbot-a2a/main.py:202-232 | `message/send` always ends in an error: invalid params, or the server error when they validate |
| Gateway.OnlyExecuteReachesAgent | sniffbot-a2a/main.py:156-232 | only an admitted, validated `execute` can change the conversation memory |
| Gateway.EndpointLogIsGateLog | sniffbot-a2a/main.py:156-236 | steps after the rate limit never touch the log |
| Gateway.ExecuteAnswers | sniffbot-a2a/main.py:208-236 | a validated `execute` gets a 200 with the agent's result under the request id, or a 500 server error |
| Gateway.Gateway.Admit | sniffbot-a2a/main.py:156-199 | steps 1 to 5 give `Gate` and leave its log |
| Gateway.Gateway.CallAgent | sniffbot-a2a/main.py:208-236 | the answer and new memory are `ExecuteCall`'s |
| Gateway.Gateway.Handle | sniffbot-a2a/main.py:156-236 | the answer, log and memory are `Endpoint`'s |
| Scheduler.TagDefaults | sniffbot-a2a/scheduler.py:68-69 | a missing tag is `general`; an unknown tag gets `question` |
| Scheduler.TagDisplayEmptyIffGeneral | sniffbot-a2a/scheduler.py:70 | the tag display is empty exactly for `general`, otherwise emoji and hashtag |
| Scheduler.SmellMessageFramed | sniffbot-a2a/scheduler.py:72-90 | stripping drops only the framing newlines; the post opens with the heading and ends with the back-quoted commit |
| Scheduler.SmellMessageHasSection | sniffbot-a2a/scheduler.py:72-90 | every paragraph of the template appears in the post |
| Scheduler.SmellMessageShowsCode | sniffbot-a2a/scheduler.py:76-86 | both code samples appear right-stripped in language fences, and the explanation is quoted |
| Scheduler.SmellMessageShowsTag | sniffbot-a2a/scheduler.py:70-74 | a tag other than `general` is shown with its emoji as a hashtag |

## Left out

- The HTTP call to Groq is not modelled: the prompt, the headers, the model name and the payload. Each call's outcome is a parameter.
- `json.loads` is a parameter. A decoded value that is not an object, or whose fields are not strings, is not modelled. A JSON `null` field reads as a missing one.
- `difflib.unified_diff` is a parameter. Its output is not modelled beyond the law that equal inputs give no lines.
- The random jitter added to each wait and the `asyncio.sleep` itself are left out. Only the base waits `2 ** attempt` are modelled.
- The language hint passed to the analysis only feeds the prompt, so it is not modelled.
- `str.lower` is modelled on ASCII letters only.
- Regex `\w` is modelled as ASCII letters, digits and underscore.
- `str.splitlines` is modelled as a split at `'\n'` only. The other line breaks Python recognises (`\r`, `\r\n`, form feed, …) are not.
- Clocks and `uuid4` are parameters.
- The limit taken from `RATE_LIMIT_PER_MINUTE` is a parameter; its default of 10 is `Gateway.DefaultLimit`.
- Logging and concurrency between requests are left out. Each request runs alone.
- HTTP header names are matched case-insensitively by the framework. The model takes the headers already lower-cased.
- Pydantic validation of `MessageParams` and `ExecuteParams` is a parameter, and so is the text of its errors.
- `models/a2a.py` is not part of this model. The `kind` field of a task result and the validation done by `JSONRPCResponse` (for example of an id that is an array) are not modelled.
- The text of the `UnboundLocalError` (`Gateway.UnboundTaskId`) is written as Python 3.11 and later print it; older versions word it differently.
- The `/health` route, the application lifespan (reading `GROQ_API_KEY`, starting the scheduler) and the example files are left out.
- `scheduler.py` is modelled only as far as `build_smell_message` and `TAG_EMOJI`. Loading the smells file, picking a smell, posting it and the scheduler jobs are I/O.
- A smell whose `tag` is present but `null` is not modelled. Neither is a smell missing a required key, which raises `KeyError`.
- The in-place list updates of `_CONVERSATION_MEMORY` and `_request_log` are modelled on sequence values. The aliasing between the stored list and the caller's list is not.
