/** `agent.py`: the SniffBot agent. `process_messages` loads or seeds the
    conversation of a context, then answers the latest message through a
    first-match decision list: greeting, help, code review on
    "@sniffbot sniff this", re-review on "@sniffbot fix last", follow-up
    acknowledgement, the no-code hint, and the default reply.

    The process-wide `_CONVERSATION_MEMORY` dictionary is the
    `ConversationMemory` object the agent is handed; `Dispatch` is the
    specification the method `SniffBot.ProcessMessages` is proved against. */
module Agent {
  import opened Wrappers
  import opened Text
  import opened A2A
  import opened CodeExtractor
  import opened Diff
  import opened Review

  // ---------------------------------------------------------------------
  // Reading messages and intents
  // ---------------------------------------------------------------------

  /** The texts of the `"text"` parts, a missing text read as `""`. */
  function PartTexts(parts: seq<Part>): (r: seq<string>)
    ensures |r| <= |parts|
  {
    if parts == [] then []
    else (if parts[0].kind == "text" then [parts[0].text.GetOr("")] else []) + PartTexts(parts[1..])
  }

  /** Reading the texts is a filter over the parts: a single part gives its
      text exactly when it is a text part, and the texts of a run of parts are
      those of its pieces, in order. */
  lemma {:induction false} PartTextsAppend(a: seq<Part>, b: seq<Part>)
    ensures PartTexts(a + b) == PartTexts(a) + PartTexts(b)
    ensures |a| == 1 ==> PartTexts(a) == if a[0].kind == "text" then [a[0].text.GetOr("")] else []
    decreases |a|
  {
    if |a| == 1 { assert a[1..] == []; }
    if a == [] { assert a + b == b; }
    else {
      assert (a + b)[1..] == a[1..] + b;
      PartTextsAppend(a[1..], b);
    }
  }

  /** The text parts of a message joined with single spaces. */
  function TextOf(m: Message): string {
    Join(PartTexts(m.parts), " ")
  }

  const Greetings: seq<string> := ["hi", "hello", "hey", "yo", "sup", "morning", "evening"]
  const HelpWords: seq<string> := ["help", "?", "how", "what", "usage", "commands"]
  const BotHandle: string := "@sniffbot"
  const SniffThis: string := "sniff this"
  const FixLast: string := "fix last"
  /** The two commands, `"@sniffbot sniff this"` and `"@sniffbot fix last"`. */
  const SniffTrigger: string := BotHandle + " " + SniffThis
  const FixLastTrigger: string := BotHandle + " " + FixLast

  /** `_is_greeting`: a greeting word anywhere, the bot's handle, and
      neither command. Matching is by substring, so `"hi"` also matches
      inside `"this"`. */
  predicate IsGreeting(text: string) {
    && AnyIn(text, Greetings)
    && Contains(text, BotHandle)
    && !Contains(text, SniffThis)
    && !Contains(text, FixLast)
  }

  /** `_is_help_command`: any help word anywhere. */
  predicate IsHelpCommand(text: string) {
    AnyIn(text, HelpWords)
  }

  /** The lower-cased, stripped text the intents are tested on. */
  function Normalised(m: Message): string {
    Strip(Lower(TextOf(m)))
  }

  // ---------------------------------------------------------------------
  // Replies
  // ---------------------------------------------------------------------

  const GreetingText: string :=
    "**Hello! I'm SniffBot**  \nYour AI-powered code reviewer.\n\n**How to use me:**\n"
    + "1. Paste any code\n2. Say `@SniffBot sniff this`\n"
    + "3. I’ll return severity, fix, diff, and commit message\n\n"
    + "**Example:**\n```\n@SniffBot sniff this\n    print(\"Hello \" + 42)\n```\n\n"
    + "Every Friday → **Smell of the Week**\n\nTry it now!"

  const HelpText: string :=
    "**SniffBot Help**\n\n**Trigger:**\n```\n@SniffBot sniff this\n[your code]\n```\n"
    + "@SniffBot fix last\n→ Re-analyze the last code you sent\n\n"
    + "**Code Formats Supported:**\n- ```python\n...\n```\n- `inline code`\n- 4-space indent\n"
    + "- Raw lines with `def`, `function`, etc.\n\n"
    + "**I return:**\n- Severity (Low/Medium/High)\n- 1-sentence explanation\n"
    + "- Fixed code diff\n- Conventional commit message\n\n"
    + "**Weekly:** Smell of the Week (Fri 10 AM UTC)"

  const NoMessageProvided: string := "No message provided"
  const NoPreviousCode: string := "No previous code to fix! Send some code first."
  const CouldNotFindCode: string := "I couldn't find any previous code to fix."
  const NoCodeInLast: string := "No code found in the last message."
  const YoureWelcome: string := "You're welcome! Got more code to sniff?"
  const NoCodeDetected: string :=
    "**No code detected!**\n\nYou said `sniff this` but no code was found.\n\n**Example:**\n"
    + "```\n@SniffBot sniff this\n    x = 1 + \"hello\"\n```"
  const DefaultReply: string := "Say `@SniffBot sniff this` + code to analyze."

  const ReviewHeading: string := "SniffBot Code Review"
  const FixLastHeading: string := "SniffBot Code Re-Review (Fix Last)"

  /** A reply from the agent holding one text part. */
  function AgentMessage(text: string, taskId: string, contextId: Option<string>): Message {
    Message(Agent, [TextPart(text)], Some(taskId), contextId)
  }

  /** `_build_greeting_result` and `_build_help_result`: input is required,
      and the reply names the context. */
  function PromptResult(text: string, taskId: string, contextId: string, history: seq<Message>): TaskResult {
    var msg := AgentMessage(text, taskId, Some(contextId));
    TaskResult(taskId, contextId, InputRequired, msg, None, history + [msg])
  }

  /** `_build_fallback_result`: input is required; the reply carries no
      context id. */
  function FallbackReply(text: string, taskId: string, contextId: string, history: seq<Message>): TaskResult {
    var msg := AgentMessage(text, taskId, None);
    TaskResult(taskId, contextId, InputRequired, msg, None, history + [msg])
  }

  /** `_build_error_result`: the task failed. */
  function ErrorResult(error: string, taskId: string, contextId: string, history: seq<Message>): TaskResult {
    var msg := AgentMessage("**Error:** " + error + "\n\nType `help` for usage.", taskId, None);
    TaskResult(taskId, contextId, Failed, msg, None, history + [msg])
  }

  /** The severity badge; an unknown severity gets the blue circle. */
  function SeverityEmoji(severity: string): string {
    var badges := map["Low" := "\U{1F7E2}", "Medium" := "\U{1F7E1}", "High" := "\U{1F534}"];
    if severity in badges then badges[severity] else "\U{1F535}"
  }

  /** The review reply before `.strip()`: heading, badge and severity, the
      quoted explanation, the diff in a `diff` fence, the commit message. */
  function ReviewBody(heading: string, severity: string, explanation: string, diff: string, commit: string): string {
    "**" + heading + "** " + SeverityEmoji(severity) + " **" + severity + "**\n\n> " + explanation
    + "\n\n**Fixed Code (Diff)**\n```diff\n" + diff + "\n```\n\n**Commit Message**  \n`" + commit + "`"
  }

  /** The review reply as the source builds it: the template opens and closes
      with a newline, which `.strip()` removes. */
  function ReviewText(heading: string, severity: string, explanation: string, diff: string, commit: string): string {
    Strip("\n" + ReviewBody(heading, severity, explanation, diff, commit) + "\n")
  }

  /** The three artifacts of a completed review. */
  function ReviewArtifacts(severity: string, explanation: string, diff: string, commit: string): seq<Artifact> {
    [ Artifact("review", [TextPart("Severity: " + severity + "\nExplanation: " + explanation)]),
      Artifact("diff", [TextPart(diff)]),
      Artifact("commit", [TextPart(commit)]) ]
  }

  // ---------------------------------------------------------------------
  // The decision list
  // ---------------------------------------------------------------------

  /** What `process_messages` hands back: a task result, or the `KeyError`
      it raises when the analysis lacks a field the reply needs. */
  datatype Reply = Finished(result: TaskResult) | Raised(key: string)

  /** A reply together with the conversation memory it leaves behind. */
  datatype Turn = Turn(reply: Reply, memory: map<string, seq<Message>>)

  /** The ids `process_messages` is called with, and the fresh ids
      `str(uuid4())` would supply in their place. */
  datatype Ids = Ids(contextId: Option<string>, taskId: Option<string>, freshContext: string, freshTask: string)

  /** `given or str(uuid4())`, the new id being `minted`. */
  function OrFresh(given: Option<string>, minted: string): string {
    if given.Some? && given.value != "" then given.value else minted
  }

  /** The stored history of a context, `[]` when there is none. */
  function Stored(memory: map<string, seq<Message>>, contextId: string): seq<Message> {
    if contextId in memory then memory[contextId] else []
  }

  /** The messages the turn works on: the input, or the stored history when
      the input is empty. */
  function Loaded(memory: map<string, seq<Message>>, messages: seq<Message>, contextId: string): seq<Message> {
    if messages == [] then Stored(memory, contextId) else messages
  }

  /** The memory after loading: a non-empty input replaces the context's
      history with a copy of it. */
  function Seeded(memory: map<string, seq<Message>>, messages: seq<Message>, contextId: string): map<string, seq<Message>> {
    if messages == [] then memory else memory[contextId := messages]
  }

  /** A message the fix-last scan accepts: from the user, with code that
      is not blank. */
  predicate HasCode(m: Message) {
    m.role == User && Strip(Extraction(TextOf(m)).0) != ""
  }

  /** The index of the last element of `s` that satisfies `p`. */
  function LatestIndex<T>(s: seq<T>, p: T -> bool): (r: Option<nat>)
    ensures r.Some? ==> r.value < |s| && p(s[r.value])
    ensures r.Some? ==> forall j | r.value < j < |s| :: !p(s[j])
    ensures r.None? ==> forall j | 0 <= j < |s| :: !p(s[j])
  {
    if s == [] then None
    else if p(s[|s| - 1]) then Some(|s| - 1)
    else LatestIndex(s[..|s| - 1], p)
  }

  /** The last element that satisfies `p` is the one at `i` when none
      after it does. */
  lemma {:induction false} LatestIndexIs<T>(s: seq<T>, p: T -> bool, i: nat)
    requires i < |s| && p(s[i])
    requires forall j | i < j < |s| :: !p(s[j])
    ensures LatestIndex(s, p) == Some(i)
  {
    if i < |s| - 1 {
      LatestIndexIs(s[..|s| - 1], p, i);
    }
  }

  /** No element satisfies `p`: there is no latest one. */
  lemma {:induction false} LatestIndexNone<T>(s: seq<T>, p: T -> bool)
    requires forall j | 0 <= j < |s| :: !p(s[j])
    ensures LatestIndex(s, p) == None
  {
    if s != [] {
      LatestIndexNone(s[..|s| - 1], p);
    }
  }

  /** The latest message of `earlier` with code, scanning back from the end. */
  function LatestCodeIndex(earlier: seq<Message>): Option<nat> {
    LatestIndex(earlier, HasCode)
  }

  /** The last five messages of a context's stored history: all of it when
      it holds fewer, in their stored order. */
  function Recent(memory: map<string, seq<Message>>, contextId: string): (r: seq<Message>)
    ensures |r| <= 5
    ensures |r| == if |Stored(memory, contextId)| < 5 then |Stored(memory, contextId)| else 5
    ensures r == Stored(memory, contextId)[|Stored(memory, contextId)| - |r|..]
  {
    var h := Stored(memory, contextId);
    if |h| <= 5 then h else h[|h| - 5..]
  }

  /** An agent message that was a review or a re-review. */
  predicate IsReviewReply(m: Message) {
    m.role == Agent && (Contains(TextOf(m), "SniffBot Code Review") || Contains(TextOf(m), "SniffBot Code Re-Review"))
  }

  /** The follow-up check: some recent message is a review reply. */
  predicate ReviewSeen(recent: seq<Message>) {
    exists k | 0 <= k < |recent| :: IsReviewReply(recent[k])
  }

  /** A review of `code`: run the analysis, diff the code against the fix,
      build the reply, and store the history with the reply appended. A
      missing severity, explanation or commit message raises `KeyError`
      at the point the reply reads it, leaving the memory as it was. */
  function ReviewTurn(heading: string, code: string, memory: map<string, seq<Message>>, history: seq<Message>,
                      contextId: string, taskId: string, apiKey: Option<string>, env: Env): Turn
  {
    ReviewReply(heading, code, AnalyzeWithRetrySpec(apiKey, code, env, 3).outcome, env.engine, memory, history, contextId, taskId)
  }

  /** The review reply built from the outcome of the retry loop. The diff is
      taken first; then the reply reads severity, explanation and commit
      message in that order. */
  function ReviewReply(heading: string, code: string, outcome: Outcome, engine: DiffEngine,
                       memory: map<string, seq<Message>>, history: seq<Message>, contextId: string, taskId: string): Turn
  {
    match outcome
    case KeyError(key) => Turn(Raised(key), memory)
    case Done(a) =>
      var diff := CreateDiff(Some(code), Some(a.fixedCode.GetOr(code)), engine);
      if a.severity.None? then Turn(Raised("severity"), memory)
      else if a.explanation.None? then Turn(Raised("explanation"), memory)
      else if a.commitMessage.None? then Turn(Raised("commit_message"), memory)
      else
        var severity, explanation, commit := a.severity.value, a.explanation.value, a.commitMessage.value;
        var msg := AgentMessage(ReviewText(heading, severity, explanation, diff, commit), taskId, Some(contextId));
        var result := TaskResult(taskId, contextId, Completed, msg,
                                 Some(ReviewArtifacts(severity, explanation, diff, commit)), history + [msg]);
        Turn(Finished(result), memory[contextId := history + [msg]])
  }

  /** The "@sniffbot fix last" branch: re-review the latest earlier user
      message with code. */
  function FixLastTurn(memory: map<string, seq<Message>>, history: seq<Message>, contextId: string, taskId: string,
                       apiKey: Option<string>, env: Env): Turn
    requires history != []
  {
    if |history| < 2 then Turn(Finished(FallbackReply(NoPreviousCode, taskId, contextId, history)), memory)
    else
      match LatestCodeIndex(history[..|history| - 1])
      case None => Turn(Finished(FallbackReply(CouldNotFindCode, taskId, contextId, history)), memory)
      case Some(i) =>
        var code := Extraction(TextOf(history[i])).0;
        if Strip(code) == "" then Turn(Finished(FallbackReply(NoCodeInLast, taskId, contextId, history)), memory)
        else ReviewTurn(FixLastHeading, code, memory, history, contextId, taskId, apiKey, env)
  }

  /** The decision list on a non-empty history, after loading. */
  function Respond(memory: map<string, seq<Message>>, history: seq<Message>, contextId: string, taskId: string,
                   apiKey: Option<string>, env: Env): Turn
    requires history != []
  {
    var text := TextOf(history[|history| - 1]);
    var lower := Strip(Lower(text));
    var code := Extraction(text).0;
    var trigger := Contains(lower, SniffTrigger);
    if IsGreeting(lower) then Turn(Finished(PromptResult(GreetingText, taskId, contextId, history)), memory)
    else if IsHelpCommand(lower) then Turn(Finished(PromptResult(HelpText, taskId, contextId, history)), memory)
    else if trigger && Strip(code) != "" then ReviewTurn(ReviewHeading, code, memory, history, contextId, taskId, apiKey, env)
    else if Contains(lower, FixLastTrigger) then FixLastTurn(memory, history, contextId, taskId, apiKey, env)
    else Turn(Finished(FallbackReply(LastResort(memory, history, contextId, trigger), taskId, contextId, history)), memory)
  }

  /** The reply when no command applies: thanks after a recent review, the
      no-code hint after a bare "sniff this", otherwise the usage line. */
  function LastResort(memory: map<string, seq<Message>>, history: seq<Message>, contextId: string, trigger: bool): string {
    if |history| > 1 && ReviewSeen(Recent(memory, contextId)) then YoureWelcome
    else if trigger then NoCodeDetected
    else DefaultReply
  }

  /** `process_messages(messages, context_id, task_id)`. */
  function Dispatch(memory: map<string, seq<Message>>, messages: seq<Message>, ids: Ids, apiKey: Option<string>, env: Env): Turn {
    var contextId := OrFresh(ids.contextId, ids.freshContext);
    var history := Loaded(memory, messages, contextId);
    var seeded := Seeded(memory, messages, contextId);
    var taskId := OrFresh(ids.taskId, ids.freshTask);
    if history == [] then Turn(Finished(ErrorResult(NoMessageProvided, taskId, contextId, history)), seeded)
    else Respond(seeded, history, contextId, taskId, apiKey, env)
  }

  // ---------------------------------------------------------------------
  // Properties of the decision list
  // ---------------------------------------------------------------------

  /** The three artifacts of a review, named in order. */
  predicate ReviewArtifactNames(artifacts: Option<seq<Artifact>>) {
    && artifacts.Some? && |artifacts.value| == 3
    && artifacts.value[0].name == "review" && artifacts.value[1].name == "diff" && artifacts.value[2].name == "commit"
  }

  /** What every answer to a non-empty history looks like: a `KeyError`
      leaves the memory alone; a result carries the task and context ids,
      appends exactly one agent message to the history, never fails, and is
      completed exactly when it has the three review artifacts, in which
      case (and only then) the history with the reply is stored. */
  predicate Answers(t: Turn, memory: map<string, seq<Message>>, history: seq<Message>, contextId: string, taskId: string) {
    match t.reply
    case Raised(_) => t.memory == memory
    case Finished(r) =>
      && r.id == taskId && r.contextId == contextId
      && r.message.role == Agent && r.message.taskId == Some(taskId)
      && r.history == history + [r.message]
      && r.state != Failed
      && (r.state == Completed ==> ReviewArtifactNames(r.artifacts) && t.memory == memory[contextId := r.history])
      && (r.state != Completed ==> r.artifacts.None? && t.memory == memory)
  }

  /** A review either raises or completes, storing the history with its
      reply. */
  lemma ReviewTurnAnswers(heading: string, code: string, memory: map<string, seq<Message>>, history: seq<Message>,
                          contextId: string, taskId: string, apiKey: Option<string>, env: Env)
    ensures var t := ReviewTurn(heading, code, memory, history, contextId, taskId, apiKey, env);
      Answers(t, memory, history, contextId, taskId) && (t.reply.Finished? ==> t.reply.result.state == Completed)
  {
    var outcome := AnalyzeWithRetrySpec(apiKey, code, env, 3).outcome;
    ReviewReplyAnswers(heading, code, outcome, env.engine, memory, history, contextId, taskId);
  }

  lemma ReviewReplyAnswers(heading: string, code: string, outcome: Outcome, engine: DiffEngine,
                           memory: map<string, seq<Message>>, history: seq<Message>, contextId: string, taskId: string)
    ensures var t := ReviewReply(heading, code, outcome, engine, memory, history, contextId, taskId);
      Answers(t, memory, history, contextId, taskId) && (t.reply.Finished? ==> t.reply.result.state == Completed)
  {
    match outcome
    case KeyError(_) =>
    case Done(a) =>
      if a.severity.Some? && a.explanation.Some? && a.commitMessage.Some? {
        var diff := CreateDiff(Some(code), Some(a.fixedCode.GetOr(code)), engine);
        var artifacts := ReviewArtifacts(a.severity.value, a.explanation.value, diff, a.commitMessage.value);
        assert ReviewArtifactNames(Some(artifacts));
      }
  }

  /** Fix-last answers like a review, or with a reply that asks for input. */
  lemma FixLastTurnAnswers(memory: map<string, seq<Message>>, history: seq<Message>, contextId: string, taskId: string,
                           apiKey: Option<string>, env: Env)
    requires history != []
    ensures Answers(FixLastTurn(memory, history, contextId, taskId, apiKey, env), memory, history, contextId, taskId)
  {
    if |history| >= 2 {
      match LatestCodeIndex(history[..|history| - 1])
      case None =>
      case Some(i) =>
        ReviewTurnAnswers(FixLastHeading, Extraction(TextOf(history[i])).0, memory, history, contextId, taskId, apiKey, env);
    }
  }

  /** Every branch of the decision list answers in that shape; only the two
      review branches complete, and they need one of the two commands. */
  lemma RespondAnswers(memory: map<string, seq<Message>>, history: seq<Message>, contextId: string, taskId: string,
                       apiKey: Option<string>, env: Env)
    requires history != []
    ensures var t := Respond(memory, history, contextId, taskId, apiKey, env);
      && Answers(t, memory, history, contextId, taskId)
      && (t.reply.Finished? && t.reply.result.state == Completed ==>
            (Contains(Normalised(history[|history| - 1]), SniffTrigger)
             || Contains(Normalised(history[|history| - 1]), FixLastTrigger)))
  {
    var text := TextOf(history[|history| - 1]);
    var lower := Strip(Lower(text));
    var code := Extraction(text).0;
    if IsGreeting(lower) || IsHelpCommand(lower) {
    } else if Contains(lower, SniffTrigger) && Strip(code) != "" {
      ReviewTurnAnswers(ReviewHeading, code, memory, history, contextId, taskId, apiKey, env);
    } else if Contains(lower, FixLastTrigger) {
      FixLastTurnAnswers(memory, history, contextId, taskId, apiKey, env);
    }
  }

  /** `process_messages` returns a result whose history is the loaded
      messages plus exactly one agent message carrying the task id; it fails
      exactly when there is nothing to answer; it completes only on a
      command, with the three review artifacts. */
  lemma DispatchResult(memory: map<string, seq<Message>>, messages: seq<Message>, ids: Ids, apiKey: Option<string>, env: Env)
    ensures var t := Dispatch(memory, messages, ids, apiKey, env);
      var contextId, taskId := OrFresh(ids.contextId, ids.freshContext), OrFresh(ids.taskId, ids.freshTask);
      var history := Loaded(memory, messages, contextId);
      t.reply.Finished? ==>
        var r := t.reply.result;
        && r.id == taskId && r.contextId == contextId
        && r.message.role == Agent && r.message.taskId == Some(taskId)
        && r.history == history + [r.message]
        && (r.state == Failed <==> history == [])
        && (r.state == Completed ==>
              && ReviewArtifactNames(r.artifacts)
              && (Contains(Normalised(history[|history| - 1]), SniffTrigger)
                  || Contains(Normalised(history[|history| - 1]), FixLastTrigger)))
  {
    var contextId := OrFresh(ids.contextId, ids.freshContext);
    var history := Loaded(memory, messages, contextId);
    if history != [] {
      RespondAnswers(Seeded(memory, messages, contextId), history, contextId, OrFresh(ids.taskId, ids.freshTask), apiKey, env);
    }
  }

  /** Only an empty history is refused, and it never raises. */
  lemma DispatchRaisesOnlyOnHistory(memory: map<string, seq<Message>>, messages: seq<Message>, ids: Ids, apiKey: Option<string>, env: Env)
    ensures var contextId := OrFresh(ids.contextId, ids.freshContext);
      Loaded(memory, messages, contextId) == [] ==> Dispatch(memory, messages, ids, apiKey, env).reply.Finished?
  {
  }

  /** The memory after a turn: a non-empty input replaces the context's
      history, an empty one leaves it; on top of that only a completed review
      stores the history with its reply. Other contexts are never touched. */
  lemma DispatchMemory(memory: map<string, seq<Message>>, messages: seq<Message>, ids: Ids, apiKey: Option<string>, env: Env)
    ensures var t := Dispatch(memory, messages, ids, apiKey, env);
      var contextId := OrFresh(ids.contextId, ids.freshContext);
      var seeded := Seeded(memory, messages, contextId);
      && (t.reply.Finished? && t.reply.result.state == Completed ==> t.memory == seeded[contextId := t.reply.result.history])
      && (!(t.reply.Finished? && t.reply.result.state == Completed) ==> t.memory == seeded)
      && (forall c | c != contextId :: (c in t.memory <==> c in memory) && (c in memory ==> t.memory[c] == memory[c]))
  {
    var contextId := OrFresh(ids.contextId, ids.freshContext);
    var history := Loaded(memory, messages, contextId);
    if history != [] {
      RespondAnswers(Seeded(memory, messages, contextId), history, contextId, OrFresh(ids.taskId, ids.freshTask), apiKey, env);
    }
  }

  /** A turn with no new messages reads the stored history and, unless it
      completes a review, writes nothing. */
  lemma EmptyInputOnlyReads(memory: map<string, seq<Message>>, ids: Ids, apiKey: Option<string>, env: Env)
    ensures var t := Dispatch(memory, [], ids, apiKey, env);
      !(t.reply.Finished? && t.reply.result.state == Completed) ==> t.memory == memory
  {
    DispatchMemory(memory, [], ids, apiKey, env);
  }

  // ---------------------------------------------------------------------
  // How the intents interact
  // ---------------------------------------------------------------------

  /** A message holding either command is never taken for a greeting. */
  lemma CommandsAreNotGreetings(text: string)
    ensures Contains(text, SniffTrigger) || Contains(text, FixLastTrigger) ==> !IsGreeting(text)
  {
    ContainsSelf(SniffThis);
    ContainsInContext(BotHandle + " ", SniffThis, "", SniffThis);
    assert BotHandle + " " + SniffThis + "" == SniffTrigger;
    ContainsSelf(FixLast);
    ContainsInContext(BotHandle + " ", FixLast, "", FixLast);
    assert BotHandle + " " + FixLast + "" == FixLastTrigger;
    if Contains(text, SniffTrigger) {
      ContainsTrans(text, SniffTrigger, SniffThis);
    }
    if Contains(text, FixLastTrigger) {
      ContainsTrans(text, FixLastTrigger, FixLast);
    }
  }

  /** Greeting words match as substrings: a message naming the bot and
      containing `"this"` (which holds `"hi"`) greets unless it carries a
      command word. */
  lemma ThisGreets(text: string)
    requires Contains(text, "this") && Contains(text, BotHandle)
    requires !Contains(text, SniffThis) && !Contains(text, FixLast)
    ensures IsGreeting(text)
  {
    assert OccursAt("this", "hi", 1);
    ContainsTrans(text, "this", "hi");
    assert Contains(text, Greetings[0]);
  }

  /** The help check comes before the review: a "sniff this" command whose
      message holds any help word — a `?` or a `how` in the code, say — gets
      the help text and no review. */
  lemma HelpPreemptsReview(memory: map<string, seq<Message>>, history: seq<Message>, contextId: string, taskId: string,
                           apiKey: Option<string>, env: Env)
    requires history != []
    requires Contains(Normalised(history[|history| - 1]), SniffTrigger)
    requires IsHelpCommand(Normalised(history[|history| - 1]))
    ensures Respond(memory, history, contextId, taskId, apiKey, env) == Turn(Finished(PromptResult(HelpText, taskId, contextId, history)), memory)
  {
    CommandsAreNotGreetings(Normalised(history[|history| - 1]));
  }

  /** Fix-last re-reviews the latest earlier user message with code: the
      no-code-in-last reply cannot occur, because the scan only stops at a
      message whose code is not blank. */
  lemma FixLastReviewsLatest(memory: map<string, seq<Message>>, history: seq<Message>, contextId: string, taskId: string,
                             apiKey: Option<string>, env: Env, i: nat)
    requires i < |history| - 1 && HasCode(history[i])
    requires forall j | i < j < |history| - 1 :: !HasCode(history[j])
    ensures FixLastTurn(memory, history, contextId, taskId, apiKey, env)
         == ReviewTurn(FixLastHeading, Extraction(TextOf(history[i])).0, memory, history, contextId, taskId, apiKey, env)
  {
    var earlier := history[..|history| - 1];
    LatestIndexIs(earlier, HasCode, i);
  }

  /** With no earlier user message holding code, fix-last says so. */
  lemma FixLastWithoutCode(memory: map<string, seq<Message>>, history: seq<Message>, contextId: string, taskId: string,
                           apiKey: Option<string>, env: Env)
    requires |history| >= 2
    requires forall j | 0 <= j < |history| - 1 :: !HasCode(history[j])
    ensures FixLastTurn(memory, history, contextId, taskId, apiKey, env)
         == Turn(Finished(FallbackReply(CouldNotFindCode, taskId, contextId, history)), memory)
  {
    LatestIndexNone(history[..|history| - 1], HasCode);
  }

  /** The text of a one-part agent message is that part's text. */
  lemma TextOfAgentMessage(text: string, taskId: string, contextId: Option<string>)
    ensures TextOf(AgentMessage(text, taskId, contextId)) == text
  {
    assert PartTexts([TextPart(text)]) == [text] by {
      assert [TextPart(text)][1..] == [];
    }
  }

  /** The review template, once stripped, is exactly its body: the body
      starts with `*`, ends with a backquote and holds the heading. */
  lemma ReviewTextIsBody(heading: string, severity: string, explanation: string, diff: string, commit: string)
    ensures var body := ReviewBody(heading, severity, explanation, diff, commit);
      ReviewText(heading, severity, explanation, diff, commit) == body && Contains(body, heading)
  {
    var body := ReviewBody(heading, severity, explanation, diff, commit);
    var rest := body[2 + |heading|..];
    assert body == "**" + heading + rest;
    assert body[0] == '*' && body[|body| - 1] == '`';
    StripFramed("\n", body, "\n");
    ContainsSelf(heading);
    ContainsInContext("**", heading, rest, heading);
  }

  /** Both headings hold the phrase the follow-up check looks for. */
  lemma HeadingsRecognised(heading: string)
    requires heading == ReviewHeading || heading == FixLastHeading
    ensures Contains(heading, "SniffBot Code Review") || Contains(heading, "SniffBot Code Re-Review")
  {
    if heading == ReviewHeading {
      assert OccursAt(heading, "SniffBot Code Review", 0);
    } else {
      assert OccursAt(heading, "SniffBot Code Re-Review", 0);
    }
  }

  /** A review or re-review reply is recognised as one by the follow-up
      check: its stripped text still holds the heading. */
  lemma ReviewReplyRecognised(heading: string, severity: string, explanation: string, diff: string, commit: string,
                              taskId: string, contextId: Option<string>)
    requires heading == ReviewHeading || heading == FixLastHeading
    ensures IsReviewReply(AgentMessage(ReviewText(heading, severity, explanation, diff, commit), taskId, contextId))
  {
    var text := ReviewText(heading, severity, explanation, diff, commit);
    ReviewTextIsBody(heading, severity, explanation, diff, commit);
    TextOfAgentMessage(text, taskId, contextId);
    HeadingsRecognised(heading);
    if Contains(heading, "SniffBot Code Review") {
      ContainsTrans(text, heading, "SniffBot Code Review");
    } else {
      ContainsTrans(text, heading, "SniffBot Code Re-Review");
    }
  }

  /** Once the context's stored history ends with a review reply, a later
      message that is no command is thanked, not told how to use the bot. */
  lemma ThanksAfterReview(memory: map<string, seq<Message>>, history: seq<Message>, contextId: string, trigger: bool)
    requires |history| > 1
    requires contextId in memory && memory[contextId] != [] && IsReviewReply(memory[contextId][|memory[contextId]| - 1])
    ensures LastResort(memory, history, contextId, trigger) == YoureWelcome
  {
    var h := memory[contextId];
    var recent := Recent(memory, contextId);
    assert Stored(memory, contextId) == h;
    assert 0 < |recent| && recent == h[|h| - |recent|..];
    assert recent[|recent| - 1] == h[|h| - 1];
    assert IsReviewReply(recent[|recent| - 1]);
  }

  /** The loop of `_analyze_with_retry` over the analyses its calls return:
      stop at the first that settles, sleeping `2 ** attempt` (plus jitter)
      after each that asks for a retry; `exhausted` when none settles. */
  method RetryLoop(attempts: nat -> Analysis, exhausted: Analysis, maxRetries: nat)
    returns (outcome: Outcome, calls: nat, delays: seq<nat>)
    ensures RetryRun(outcome, calls) == RetryFrom(attempts, exhausted, 0, maxRetries)
    ensures |delays| <= calls <= maxRetries
    ensures delays == Backoff(|delays|)
    ensures |delays| == calls ==> AllRetried(attempts, calls)
    ensures |delays| < calls ==> |delays| == calls - 1 && AllRetried(attempts, calls - 1) && Judge(attempts(calls - 1)) != Retry
  {
    delays := [];
    var attempt := 0;
    while attempt < maxRetries
      invariant attempt <= maxRetries
      invariant RetryFrom(attempts, exhausted, 0, maxRetries) == RetryFrom(attempts, exhausted, attempt, maxRetries)
      invariant |delays| == attempt
      invariant delays == Backoff(attempt)
      invariant AllRetried(attempts, attempt)
    {
      var analysis := attempts(attempt);
      RetryFromStep(attempts, exhausted, attempt, maxRetries);
      var verdict := Judge(analysis);
      if verdict != Retry {
        outcome := Settle(analysis);
        calls := attempt + 1;
        return;
      }
      delays := delays + [Pow2(attempt)];
      attempt := attempt + 1;
    }
    outcome := Done(exhausted);
    calls := attempt;
  }

  /** The scan of fix-last over the earlier messages, latest first: the
      index of the first user message whose extracted code is not blank. */
  method FindPreviousCode(earlier: seq<Message>) returns (found: Option<nat>)
    ensures found == LatestCodeIndex(earlier)
  {
    found := LatestMatch(earlier, HasCode);
  }

  /** The backward scan with a break: walk `s` from its end and stop at the
      first element that passes `test`. */
  method LatestMatch<T>(s: seq<T>, test: T -> bool) returns (found: Option<nat>)
    ensures found == LatestIndex(s, test)
  {
    var k := |s|;
    while k > 0
      invariant 0 <= k <= |s|
      invariant forall j | k <= j < |s| :: !test(s[j])
    {
      k := k - 1;
      if test(s[k]) {
        LatestIndexIs(s, test, k);
        return Some(k);
      }
    }
    LatestIndexNone(s, test);
    return None;
  }

  /** The follow-up scan over the recent messages, in order: does one of
      them come from the agent and name a review? */
  method FollowUpSeen(recent: seq<Message>) returns (seen: bool)
    ensures seen == ReviewSeen(recent)
  {
    for i := 0 to |recent|
      invariant forall k | 0 <= k < i :: !IsReviewReply(recent[k])
    {
      var msg := recent[i];
      if msg.role == Agent {
        var text := TextOf(msg);
        if Contains(text, "SniffBot Code Review") || Contains(text, "SniffBot Code Re-Review") {
          return true;
        }
      }
    }
    return false;
  }

  // ---------------------------------------------------------------------
  // The agent's state and its methods
  // ---------------------------------------------------------------------

  /** `_CONVERSATION_MEMORY`: context id to the messages of that conversation. */
  class ConversationMemory {
    var conversations: map<string, seq<Message>>

    constructor()
      ensures conversations == map[]
    {
      conversations := map[];
    }
  }

  class SniffBot {
    var groqApiKey: Option<string>

    /** A new agent has no API key. */
    constructor()
      ensures groqApiKey == None
    {
      groqApiKey := None;
    }

    /** `initialize(api_key)`. */
    method Initialize(apiKey: string)
      modifies this
      ensures groqApiKey == Some(apiKey)
    {
      groqApiKey := Some(apiKey);
    }

    /** `_analyze_with_retry(code, lang, max_retries)`: call the analyser
        until an attempt settles, at most `maxRetries` times; `delays` are
        the base waits `2 ** attempt` slept after each retried attempt. */
    method AnalyzeWithRetry(code: string, maxRetries: nat, env: Env) returns (outcome: Outcome, calls: nat, delays: seq<nat>)
      ensures RetryRun(outcome, calls) == AnalyzeWithRetrySpec(groqApiKey, code, env, maxRetries)
      ensures |delays| <= calls <= maxRetries
      ensures delays == Backoff(|delays|)
      ensures |delays| == calls ==> AllRetried(Attempts(groqApiKey, code, env), calls)
      ensures |delays| < calls ==>
        |delays| == calls - 1 && AllRetried(Attempts(groqApiKey, code, env), calls - 1)
        && Judge(Attempts(groqApiKey, code, env)(calls - 1)) != Retry
    {
      outcome, calls, delays := RetryLoop(Attempts(groqApiKey, code, env), FallbackResult(MaxRetriesExceeded, code, env.engine), maxRetries);
    }

    /** The review branch after the analysis: build the reply from the
        analysis, then store the history with the reply appended. */
    method ReviewAndStore(memory: ConversationMemory, heading: string, code: string, history: seq<Message>,
                          contextId: string, taskId: string, env: Env) returns (reply: Reply)
      modifies memory
      ensures Turn(reply, memory.conversations) ==
        ReviewTurn(heading, code, old(memory.conversations), history, contextId, taskId, groqApiKey, env)
    {
      var outcome, _, _ := AnalyzeWithRetry(code, 3, env);
      if outcome.KeyError? {
        return Raised(outcome.key);
      }
      var a := outcome.analysis;
      var diff := CreateDiff(Some(code), Some(a.fixedCode.GetOr(code)), env.engine);
      if a.severity.None? {
        return Raised("severity");
      }
      if a.explanation.None? {
        return Raised("explanation");
      }
      if a.commitMessage.None? {
        return Raised("commit_message");
      }
      var severity, explanation, commit := a.severity.value, a.explanation.value, a.commitMessage.value;
      var msg := AgentMessage(ReviewText(heading, severity, explanation, diff, commit), taskId, Some(contextId));
      var artifacts := ReviewArtifacts(severity, explanation, diff, commit);
      memory.conversations := memory.conversations[contextId := history + [msg]];
      reply := Finished(TaskResult(taskId, contextId, Completed, msg, Some(artifacts), history + [msg]));
    }

    /** `process_messages(messages, context_id, task_id)` against the
        conversation memory. */
    method ProcessMessages(memory: ConversationMemory, messages: seq<Message>, ids: Ids, env: Env) returns (reply: Reply)
      modifies memory
      ensures Turn(reply, memory.conversations) == Dispatch(old(memory.conversations), messages, ids, groqApiKey, env)
    {
      var contextId := OrFresh(ids.contextId, ids.freshContext);
      var history := messages;
      if messages == [] {
        history := if contextId in memory.conversations then memory.conversations[contextId] else [];
      } else {
        memory.conversations := memory.conversations[contextId := messages];
      }
      var taskId := OrFresh(ids.taskId, ids.freshTask);
      if history == [] {
        return Finished(ErrorResult(NoMessageProvided, taskId, contextId, history));
      }
      reply := RespondTo(memory, history, contextId, taskId, env);
    }

    /** The decision list on the loaded history. */
    method RespondTo(memory: ConversationMemory, history: seq<Message>, contextId: string, taskId: string, env: Env)
      returns (reply: Reply)
      requires history != []
      modifies memory
      ensures Turn(reply, memory.conversations) == Respond(old(memory.conversations), history, contextId, taskId, groqApiKey, env)
    {
      var fullText := TextOf(history[|history| - 1]);
      var lower := Strip(Lower(fullText));
      var code, _ := ExtractCode(fullText);
      if IsGreeting(lower) {
        return Finished(PromptResult(GreetingText, taskId, contextId, history));
      }
      if IsHelpCommand(lower) {
        return Finished(PromptResult(HelpText, taskId, contextId, history));
      }
      var trigger := Contains(lower, SniffTrigger);
      if trigger && Strip(code) != "" {
        reply := ReviewAndStore(memory, ReviewHeading, code, history, contextId, taskId, env);
        return;
      }
      if Contains(lower, FixLastTrigger) {
        reply := FixLastAndStore(memory, history, contextId, taskId, env);
        return;
      }
      if |history| > 1 {
        var seen := FollowUpSeen(Recent(memory.conversations, contextId));
        if seen {
          return Finished(FallbackReply(YoureWelcome, taskId, contextId, history));
        }
      }
      if trigger {
        return Finished(FallbackReply(NoCodeDetected, taskId, contextId, history));
      }
      return Finished(FallbackReply(DefaultReply, taskId, contextId, history));
    }

    /** The "@sniffbot fix last" branch: find the latest earlier message with
        code and review it again. */
    method FixLastAndStore(memory: ConversationMemory, history: seq<Message>, contextId: string, taskId: string, env: Env)
      returns (reply: Reply)
      requires history != []
      modifies memory
      ensures Turn(reply, memory.conversations) ==
        FixLastTurn(old(memory.conversations), history, contextId, taskId, groqApiKey, env)
    {
      if |history| < 2 {
        return Finished(FallbackReply(NoPreviousCode, taskId, contextId, history));
      }
      var found := FindPreviousCode(history[..|history| - 1]);
      if found.None? {
        return Finished(FallbackReply(CouldNotFindCode, taskId, contextId, history));
      }
      var previous, _ := ExtractCode(TextOf(history[found.value]));
      if Strip(previous) == "" {
        return Finished(FallbackReply(NoCodeInLast, taskId, contextId, history));
      }
      reply := ReviewAndStore(memory, FixLastHeading, previous, history, contextId, taskId, env);
    }

    /** `execute(messages, context_id, task_id)`: the same as
        `process_messages`. */
    method Execute(memory: ConversationMemory, messages: seq<Message>, ids: Ids, env: Env) returns (reply: Reply)
      modifies memory
      ensures Turn(reply, memory.conversations) == Dispatch(old(memory.conversations), messages, ids, groqApiKey, env)
    {
      reply := ProcessMessages(memory, messages, ids, env);
    }
  }
}
