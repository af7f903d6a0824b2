/**
 * The assistant-turn client: one call forwards a user utterance to the
 * assistant service (thread, message, run, status polling, message list) and
 * hands back the cleaned reply together with the thread it used. Every
 * request to the service is an oracle: the `Backend` value says what each
 * request answers, or that it threw.
 */
module Api {
  import opened Common
  import opened Spacing
  import opened Citations

  /** The fixed apology shown for a missing reply and for every failed turn. */
  const Apology: string := "죄송합니다. 답변을 생성하는 중 오류가 발생했습니다."

  // ---------------------------------------------------------------------
  // Cleaning the reply text
  // ---------------------------------------------------------------------

  /**
   * Removes every citation marker (one left-to-right pass), turns each run
   * of white space into one space and trims both ends. The result is the
   * sequence of words of the marker-free text, separated by single spaces.
   */
  function CleanResponseText(text: string): (r: string)
    ensures r == Join(Words(StripMarkers(text)))
    ensures IsNormalized(r)
  {
    var stripped := StripMarkers(text);
    CollapseTrimIsJoinedWords(stripped);
    JoinIsNormalized(Words(stripped));
    Trim(Collapse(stripped))
  }

  /** Cleaning keeps every visible character of the marker-free text, in order. */
  lemma CleanKeepsVisibleText(text: string)
    ensures Visible(CleanResponseText(text)) == Visible(StripMarkers(text))
  {
    var stripped := StripMarkers(text);
    VisibleOfJoin(Words(stripped));
    WordsKeepVisible(stripped);
  }

  /**
   * A normalized text in which no marker occurs comes back unchanged, even
   * when it holds stray `【` brackets.
   */
  lemma CleanLeavesUnmarkedText(text: string)
    requires NoMarkerIn(text) && IsNormalized(text)
    ensures CleanResponseText(text) == text
  {
    NoMarkerUnchanged(text);
    NormalizedIsFixed(text);
  }

  /** Bracketed text that is not a citation, such as `【x】`, is kept. */
  lemma CleanKeepsStrayBracket()
    ensures CleanResponseText("【x】") == "【x】"
  {
    ShortTextHasNoMarker("【x】");
    CleanLeavesUnmarkedText("【x】");
  }

  /** A normalized text without a `【` comes back unchanged. */
  lemma CleanLeavesCleanText(text: string)
    requires Open !in text && IsNormalized(text)
    ensures CleanResponseText(text) == text
  {
    StripPlainText(text);
    NormalizedIsFixed(text);
  }

  /** Words free of markers, joined by single spaces, are left as they are. */
  lemma {:induction false} CleanLeavesJoinedWords(ws: seq<seq<char>>)
    requires forall k :: 0 <= k < |ws| ==> IsWord(ws[k]) && Open !in ws[k]
    ensures CleanResponseText(Join(ws)) == Join(ws)
  {
    JoinIsNormalized(ws);
    JoinHasNoBracket(ws);
    CleanLeavesCleanText(Join(ws));
  }

  lemma {:induction false} JoinHasNoBracket(ws: seq<seq<char>>)
    requires forall k :: 0 <= k < |ws| ==> Open !in ws[k]
    ensures Open !in Join(ws)
    decreases |ws|
  {
    if |ws| > 1 {
      JoinHasNoBracket(ws[1..]);
    }
  }

  /** The apology's words. */
  const ApologyWords: seq<string> := ["죄송합니다.", "답변을", "생성하는", "중", "오류가", "발생했습니다."]

  lemma ApologySpelled()
    ensures Apology == Join(ApologyWords)
  {
    var ws := ApologyWords;
    ApologyConcatenated();
    JoinCons(ws[0], ws[1..]);
    JoinCons(ws[1], ws[2..]);
    JoinCons(ws[2], ws[3..]);
    JoinCons(ws[3], ws[4..]);
    JoinCons(ws[4], ws[5..]);
    assert [ws[0]] + ws[1..] == ws;
    assert [ws[1]] + ws[2..] == ws[1..];
    assert [ws[2]] + ws[3..] == ws[2..];
    assert [ws[3]] + ws[4..] == ws[3..];
    assert [ws[4]] + ws[5..] == ws[4..];
  }

  lemma ApologyConcatenated()
    ensures Apology == "죄송합니다." + " " + ("답변을" + " " + ("생성하는" + " " + ("중" + " " + ("오류가" + " " + "발생했습니다."))))
  {
  }

  lemma ApologyWordsAreWords()
    ensures forall k :: 0 <= k < |ApologyWords| ==> IsWord(ApologyWords[k]) && Open !in ApologyWords[k]
  {
  }

  /** The apology is itself clean text: cleaning it changes nothing. */
  lemma ApologyIsClean()
    ensures CleanResponseText(Apology) == Apology
  {
    ApologySpelled();
    ApologyWordsAreWords();
    CleanLeavesJoinedWords(ApologyWords);
  }

  /**
   * A marker between two bracket-free pieces is cleaned away as if it had
   * never been there: the result is the cleaning of the two pieces side by
   * side.
   */
  lemma CleanAroundMarker(a: string, w: string, b: string)
    requires Open !in a && IsMarker(w) && Open !in b
    ensures CleanResponseText(a + w + b) == CleanResponseText(a + b)
  {
    StripGluesNeighbours(a, w, b);
    assert Open !in a + b;
    StripPlainText(a + b);
  }

  /**
   * A marker glued between two words leaves them glued: no space takes its
   * place, so `Take aspirin【1:2†source】daily` becomes `Take aspirindaily`.
   */
  lemma CleanGluesWordsAroundMarker()
    ensures CleanResponseText("Take aspirin" + Marker("1", "2") + "daily") == "Take aspirindaily"
  {
    var ws := ["Take", "aspirindaily"];
    GlueExampleWords();
    forall k | 0 <= k < |ws| ensures IsWord(ws[k]) && Open !in ws[k] {
    }
    GlueExampleJoined();
    GlueExampleHasNoBracket();
    CleanAroundMarker("Take aspirin", Marker("1", "2"), "daily");
    CleanLeavesJoinedWords(ws);
  }

  lemma GlueExampleWords()
    ensures IsWord("Take") && Open !in "Take"
    ensures IsWord("aspirindaily") && Open !in "aspirindaily"
  {
  }

  lemma GlueExampleHasNoBracket()
    ensures Open !in "Take aspirin" && Open !in "daily"
  {
  }

  lemma GlueExampleJoined()
    ensures "Take aspirin" + "daily" == Join(["Take", "aspirindaily"]) == "Take aspirindaily"
  {
    var ws := ["Take", "aspirindaily"];
    JoinCons(ws[0], ws[1..]);
    assert [ws[0]] + ws[1..] == ws;
    assert Join(ws[1..]) == "aspirindaily";
  }

  // ---------------------------------------------------------------------
  // Waiting for a run
  // ---------------------------------------------------------------------

  /** The cap on status polls of one run. */
  const MaxAttempts: nat := 60

  /** How waiting for a run ends: normally, or with one of three exceptions. */
  datatype RunWait =
    | Completed          // the loop ended on a status other than queued, in_progress, failed
    | RunFailed          // a poll answered `failed`
    | TimedOut           // the poll count reached the cap
    | StatusFetchFailed  // a status request threw

  /** What waiting ends with, and how many status requests it issued. */
  datatype Waited = Waited(outcome: RunWait, polls: nat)

  /** A status that keeps the loop going. */
  predicate IsPending(status: string) {
    status == "queued" || status == "in_progress"
  }

  /** A status poll that answered with a pending status. */
  predicate PendingAnswer(answer: Reply<string>) {
    answer.Ok? && IsPending(answer.value)
  }

  /**
   * The end of waiting after `done` polls that all answered pending:
   * `getStatus(k)` is what the k-th poll (from 0) answers.
   */
  function Settle(getStatus: nat -> Reply<string>, done: nat): (r: Waited)
    requires done < MaxAttempts
    ensures done < r.polls <= MaxAttempts
    ensures forall k :: done <= k < r.polls - 1 ==> PendingAnswer(getStatus(k))
    ensures getStatus(r.polls - 1).Thrown? <==> r.outcome == StatusFetchFailed
    ensures getStatus(r.polls - 1) == Ok("failed") <==> r.outcome == RunFailed
    ensures PendingAnswer(getStatus(r.polls - 1)) ==> r.polls == MaxAttempts
    ensures r.outcome == TimedOut <==>
              r.polls == MaxAttempts && getStatus(r.polls - 1).Ok? && getStatus(r.polls - 1).value != "failed"
    ensures r.outcome == Completed <==>
              r.polls < MaxAttempts && getStatus(r.polls - 1).Ok? && getStatus(r.polls - 1).value != "failed"
    decreases MaxAttempts - done
  {
    match getStatus(done)
    case Thrown => Waited(StatusFetchFailed, done + 1)
    case Ok(status) =>
      if status == "failed" then Waited(RunFailed, done + 1)
      else if IsPending(status) && done + 1 < MaxAttempts then Settle(getStatus, done + 1)
      else if done + 1 < MaxAttempts then Waited(Completed, done + 1)
      else Waited(TimedOut, done + 1)
  }

  /**
   * `runAPI.waitForCompletion`: polls the run status until it leaves
   * queued/in_progress, at most MaxAttempts times. A `failed` status stops
   * the loop at once; reaching the cap is a time-out even when the last
   * status was a terminal one.
   */
  method WaitForCompletion(getStatus: nat -> Reply<string>) returns (outcome: RunWait, polls: nat)
    ensures Waited(outcome, polls) == Settle(getStatus, 0)
  {
    var status := "queued";
    var attempts := 0;
    while IsPending(status) && attempts < MaxAttempts
      invariant attempts <= MaxAttempts
      invariant attempts == 0 ==> status == "queued"
      invariant attempts > 0 ==> getStatus(attempts - 1) == Ok(status) && status != "failed"
      invariant attempts > 0 ==> Settle(getStatus, 0) == Settle(getStatus, attempts - 1)
      decreases MaxAttempts - attempts
    {
      if attempts > 0 {
        SettleStep(getStatus, attempts - 1);
      }
      var answer := getStatus(attempts);
      if answer.Thrown? {
        return StatusFetchFailed, attempts + 1;
      }
      status := answer.value;
      attempts := attempts + 1;
      if status == "failed" {
        return RunFailed, attempts;
      }
    }
    if attempts >= MaxAttempts {
      return TimedOut, attempts;
    }
    return Completed, attempts;
  }

  /** A pending answer before the cap hands the decision to the next poll. */
  lemma SettleStep(getStatus: nat -> Reply<string>, done: nat)
    requires done + 1 < MaxAttempts && PendingAnswer(getStatus(done))
    ensures Settle(getStatus, done) == Settle(getStatus, done + 1)
  {
  }

  /**
   * A terminal status that arrives only on the last allowed poll is still
   * reported as a time-out.
   */
  lemma LateCompletionTimesOut(getStatus: nat -> Reply<string>)
    requires forall k :: 0 <= k < MaxAttempts - 1 ==> PendingAnswer(getStatus(k))
    requires getStatus(MaxAttempts - 1) == Ok("completed")
    ensures Settle(getStatus, 0) == Waited(TimedOut, MaxAttempts)
  {
  }

  // ---------------------------------------------------------------------
  // One assistant turn
  // ---------------------------------------------------------------------

  /** The two settings read from the environment; either may be unset. */
  datatype Config = Config(apiKey: Option<string>, assistantId: Option<string>)

  /** A content block of a thread message: `text.value`, when present. */
  datatype ContentBlock = ContentBlock(text: Option<string>)

  /** A message of the thread as the service lists it. */
  datatype ThreadMessage = ThreadMessage(role: string, content: seq<ContentBlock>)

  /** What a turn hands back to the screen. */
  datatype ChatResponse = ChatResponse(output: string, threadId: Option<string>)

  /** The requests a turn can send to the service. */
  datatype Request =
    | CreateThread
    | AddMessage(threadId: string, content: string)
    | CreateRun(threadId: string, assistantId: string)
    | GetStatus(threadId: string, runId: string)
    | GetMessages(threadId: string)

  /**
   * What the service answers to each request of one turn (a value, or an
   * exception for a failed fetch or a non-ok HTTP status);
   * `getStatus(k)` answers the k-th status poll.
   */
  datatype Backend = Backend(
    createThread: Reply<string>,
    addMessage: Reply<()>,
    createRun: Reply<string>,
    getStatus: nat -> Reply<string>,
    getMessages: Reply<seq<ThreadMessage>>)

  /** The answer of every failed turn: the apology, and no thread. */
  const Failed: ChatResponse := ChatResponse(Apology, None)

  /** Both settings are present and non-empty. */
  predicate Configured(config: Config) {
    Truthy(config.apiKey) && Truthy(config.assistantId)
  }

  /**
   * `messages.find(msg => msg.role === 'assistant')`, as an index: the
   * first assistant message, if there is one.
   */
  function FindAssistant(messages: seq<ThreadMessage>): (r: Option<nat>)
    ensures r.Some? ==> r.value < |messages| && messages[r.value].role == "assistant"
    ensures r.Some? ==> forall j :: 0 <= j < r.value ==> messages[j].role != "assistant"
    ensures r.None? <==> forall j :: 0 <= j < |messages| ==> messages[j].role != "assistant"
  {
    if messages == [] then None
    else if messages[0].role == "assistant" then Some(0)
    else
      match FindAssistant(messages[1..])
      case None => None
      case Some(i) => Some(i + 1)
  }

  /**
   * `content[0]?.text?.value || Apology`: the first block's text, unless it
   * is missing or empty.
   */
  function RawReply(message: ThreadMessage): (r: string)
    ensures r != ""
    ensures message.content != [] && message.content[0].text.Some? && message.content[0].text.value != "" ==>
              r == message.content[0].text.value
    ensures r == Apology <==>
              || message.content == []
              || message.content[0].text.None?
              || message.content[0].text.value in {"", Apology}
  {
    if message.content != [] && message.content[0].text.Some? && message.content[0].text.value != ""
    then message.content[0].text.value
    else Apology
  }

  /** The thread a turn works on: the given one, or else the one it creates. */
  function UsedThread(threadId: Option<string>, backend: Backend): string
    requires Truthy(threadId) || backend.createThread.Ok?
  {
    if Truthy(threadId) then threadId.value else backend.createThread.value
  }

  /** Every request of a turn succeeds and the thread holds an assistant message. */
  predicate TurnSucceeds(threadId: Option<string>, config: Config, backend: Backend) {
    && Configured(config)
    && (Truthy(threadId) || backend.createThread.Ok?)
    && backend.addMessage.Ok?
    && backend.createRun.Ok?
    && Settle(backend.getStatus, 0).outcome == Completed
    && backend.getMessages.Ok?
    && FindAssistant(backend.getMessages.value).Some?
  }

  /** The reply of a successful turn: the first assistant message's text, cleaned. */
  function SuccessfulReply(threadId: Option<string>, config: Config, backend: Backend): ChatResponse
    requires TurnSucceeds(threadId, config, backend)
  {
    var messages := backend.getMessages.value;
    var raw := RawReply(messages[FindAssistant(messages).value]);
    ChatResponse(CleanResponseText(raw), Some(UsedThread(threadId, backend)))
  }

  /**
   * `sendMessageToBot`: one turn against the service. It never throws: a
   * missing setting, any failed request, a failed or timed-out run and a
   * missing assistant message all give the apology without a thread.
   * Besides the response it returns the requests it sent, in order.
   */
  method SendMessageToBot(utterance: string, threadId: Option<string>, config: Config, backend: Backend)
    returns (response: ChatResponse, requests: seq<Request>)
    ensures TurnSucceeds(threadId, config, backend) ==> response == SuccessfulReply(threadId, config, backend)
    ensures !TurnSucceeds(threadId, config, backend) ==> response == Failed
    ensures !Configured(config) ==> requests == []
    ensures multiset(requests)[CreateThread] == if Configured(config) && !Truthy(threadId) then 1 else 0
    ensures Configured(config) ==> requests != [] && requests[0] == if Truthy(threadId) then AddMessage(threadId.value, utterance) else CreateThread
    ensures Configured(config) && (Truthy(threadId) || backend.createThread.Ok?) ==>
              AddMessage(UsedThread(threadId, backend), utterance) in requests
    ensures |requests| <= 4 + MaxAttempts
  {
    response := Failed;
    requests := [];
    if !Truthy(config.apiKey) || !Truthy(config.assistantId) {
      return;
    }
    var assistantId := config.assistantId.value;

    var currentThreadId := threadId;
    if !Truthy(currentThreadId) {
      requests := requests + [CreateThread];
      if backend.createThread.Thrown? {
        return;
      }
      currentThreadId := Some(backend.createThread.value);
    }
    var thread := currentThreadId.value;
    assert thread == UsedThread(threadId, backend);

    requests := requests + [AddMessage(thread, utterance)];
    if backend.addMessage.Thrown? {
      return;
    }

    requests := requests + [CreateRun(thread, assistantId)];
    if backend.createRun.Thrown? {
      return;
    }
    var runId := backend.createRun.value;

    var outcome, polls := WaitForCompletion(backend.getStatus);
    requests := requests + seq(polls, _ => GetStatus(thread, runId));
    if outcome != Completed {
      return;
    }

    requests := requests + [GetMessages(thread)];
    if backend.getMessages.Thrown? {
      return;
    }
    var messages := backend.getMessages.value;
    var found := FindAssistant(messages);
    if found.None? {
      return;
    }

    var raw := RawReply(messages[found.value]);
    response := ChatResponse(CleanResponseText(raw), Some(thread));
  }

  /** What a successful turn shows is always clean, normalized text. */
  lemma SuccessfulReplyIsNormalized(threadId: Option<string>, config: Config, backend: Backend)
    requires TurnSucceeds(threadId, config, backend)
    ensures IsNormalized(SuccessfulReply(threadId, config, backend).output)
    ensures SuccessfulReply(threadId, config, backend).threadId.Some?
  {
  }
}
