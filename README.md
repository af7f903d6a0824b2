# Health chatbot: assistant-turn client and chat-screen session

This project models the logic of a small health-advice chat client. It has
two parts.

- **The assistant-turn client (`lib/api.ts`).** One call forwards a user
  utterance to a hosted assistant service. It creates a thread unless one is
  given, adds the message, starts a run and polls the run status up to 60
  times. Then it takes the first assistant message of the thread and cleans
  its text. Cleaning deletes the citation markers `【<digits>:<digits>†source】`
  in one left-to-right pass, turns every run of white space into one space
  and trims both ends. Any failure gives a fixed Korean apology and no thread.
- **The chat screen's session state (`health-chatbot.tsx`).** This covers the
  carousel of five suggested questions, the input field, the message list,
  the loading flag and the thread id kept between turns.

Modules:

- `Common` (`common.dfy`) holds the optional value and the "value or thrown"
  reply, and JavaScript truthiness of an optional string.
- `Spacing` (`spacing.dfy`) holds JavaScript's `\s` white space, `trim`, the
  `replace(/\s+/g, ' ')` collapse, and a reference description of their
  combined effect: the text's words joined by single spaces.
- `Citations` (`citations.dfy`) holds the marker pattern, a matcher that is
  proved equal to the pattern, and the one-pass global replace.
- `Api` (`api.dfy`) holds `cleanResponseText`, the polling loop
  `waitForCompletion` as a method with loop invariants, and `sendMessageToBot`
  run against an oracle of service answers.
- `HealthChatbot` (`chatbot.dfy`) holds the slide arithmetic and a
  `ChatSession` class whose fields are the screen's five pieces of state.

Every request to the service is an input. A `Backend` value says what each
request answers, or that it threw. The k-th status poll answers
`getStatus(k)`. The two environment settings are an optional `Config`.
`SendMessageToBot` also returns the requests it sent, in order. This lets the
model state which calls happen.

On three points the code does something other than one might expect: that
cleaning removes every marker, that a space stands where a marker was, and
that only a `completed` status ends polling as a success. The model follows
the code on all three.

- Removing citations is not idempotent. Deleting an inner marker can splice
  a new marker together, and that marker survives the single pass
  (`Citations.StripNotIdempotent`).
- A marker between two words is deleted without leaving a space.
  `Take aspirin【1:2†source】daily` becomes `Take aspirindaily`, not
  `Take aspirin daily` (`Api.CleanGluesWordsAroundMarker`).
- A status other than `queued`, `in_progress` and `failed` ends the polling
  loop as a success on any poll before the 60th. On the 60th poll every
  status gives the time-out (`Api.Settle`, `Api.LateCompletionTimesOut`).

## Model

| member | source | states |
|---|---|---|
| Spacing.TrimStart | lib/api.ts:136 | The result is a suffix of the input that is empty or starts with a non-white-space character. Every dropped character is white space. |
| Spacing.TrimEnd | lib/api.ts:136 | The result is a prefix of the input that is empty or ends with a non-white-space character. Every dropped character is white space. |
| Spacing.Trim | lib/api.ts:136 | The trimmed text is a slice of the input with only white space before and after it, and it has no white space at either of its own ends. |
| Spacing.BlankIffTrimsToEmpty | health-chatbot.tsx:63 | `trim()` gives the empty string exactly when the text is all white space. |
| Spacing.Collapse | lib/api.ts:135 | Collapsing gives the empty string only for the empty string. The result starts with white space exactly when the input does. |
| Spacing.CollapseTrimIsJoinedWords | lib/api.ts:135-136 | For every text, collapsing runs of white space and then trimming gives the text's words joined by single spaces. |
| Spacing.JoinIsNormalized | lib/api.ts:135-136 | Words joined by single spaces have no edge white space, no two adjacent white-space characters, and only plain `' '` as white space. |
| Spacing.WordsKeepVisible | lib/api.ts:135-136 | The words of a text hold exactly its non-white-space characters, in order. |
| Spacing.VisibleOfJoin | lib/api.ts:135-136 | Joining words with spaces adds no visible character. |
| Spacing.CollapseKeepsPlainText | lib/api.ts:135 | A text whose only white space is single plain spaces is unchanged by collapsing. |
| Spacing.NormalizedIsFixed | lib/api.ts:135-136 | A normalized text is unchanged by collapsing and trimming. |
| Citations.DigitRun | lib/api.ts:130 | Gives the length of the maximal run of ASCII digits at the start of the text, the run that `\d+` consumes. |
| Citations.MarkerAt | lib/api.ts:130 | A match at the current position has a length between 1 and the remaining length. |
| Citations.MarkerAtSound | lib/api.ts:130 | Every match of the matcher is a citation marker. |
| Citations.MarkerAtComplete | lib/api.ts:130 | Every marker at the start of the text is found, with its exact length. |
| Citations.MarkerAtIff | lib/api.ts:130 | The matcher matches `n` characters exactly when the first `n` characters form one marker. |
| Citations.StripMarkers | lib/api.ts:130-134 | The global replace never makes the text longer. |
| Citations.StripDropsMarker | lib/api.ts:134 | A marker at the scan position is deleted whole, and the scan resumes right after it. |
| Citations.StripKeepsChar | lib/api.ts:134 | Where no marker begins, the character is kept and the scan moves on by one. |
| Citations.StripPlainText | lib/api.ts:134 | A text without the opening bracket `【` passes through unchanged. |
| Citations.NoMarkerUnchanged | lib/api.ts:130-134 | A text in which no slice is a marker passes through unchanged, even when it holds a stray `【`. |
| Citations.ShortTextHasNoMarker | lib/api.ts:130 | A text shorter than twelve characters, the length of the shortest marker, holds no marker. |
| Citations.StripPlainPrefix | lib/api.ts:134 | A prefix without `【` is kept, and the scan continues behind it. |
| Citations.StripGluesNeighbours | lib/api.ts:134 | A marker between two texts without `【` disappears, and the two texts become adjacent. |
| Citations.Marker | lib/api.ts:130 | `【a:b†source】` built from two digit strings is a marker. |
| Citations.StripNotIdempotent | lib/api.ts:130-134 | One pass over `【a:【b:c†source】d†source】` leaves `【a:d†source】`. A second pass removes that to the empty string, so the replace is not idempotent. |
| Api.CleanResponseText | lib/api.ts:128-139 | The cleaned text equals the words of the marker-free text joined by single spaces. It has no edge white space, no double white space and only plain spaces. |
| Api.CleanKeepsVisibleText | lib/api.ts:128-139 | Cleaning keeps every visible character of the marker-free text, in order. |
| Api.CleanLeavesUnmarkedText | lib/api.ts:128-139 | A normalized text in which no marker occurs is returned unchanged. |
| Api.CleanKeepsStrayBracket | lib/api.ts:128-139 | `【x】` is not a citation and is returned unchanged. |
| Api.CleanLeavesCleanText | lib/api.ts:128-139 | A text with no `【` that is already normalized is returned unchanged. |
| Api.CleanLeavesJoinedWords | lib/api.ts:128-139 | Words without `【`, joined by single spaces, are returned unchanged. |
| Api.ApologySpelled | lib/api.ts:177 | The apology is its six words joined by single spaces. |
| Api.ApologyIsClean | lib/api.ts:177-178 | Cleaning returns the apology unchanged. |
| Api.CleanAroundMarker | lib/api.ts:133-136 | For a marker between any two texts without `【`, cleaning gives the cleaning of the two texts placed side by side. |
| Api.CleanGluesWordsAroundMarker | lib/api.ts:133-136 | `Take aspirin【1:2†source】daily` is cleaned to `Take aspirindaily`. |
| Api.Settle | lib/api.ts:106-124 | Polling that has already seen `done` pending answers stops after poll number `polls`, with `done < polls <= 60`. Every poll before the last answered `queued` or `in_progress`. The run fails exactly when the last poll threw or answered `failed`. It times out exactly when the 60th poll answered anything else, and completes exactly when an earlier poll did. |
| Api.WaitForCompletion | lib/api.ts:106-124 | The loop's outcome and its number of polls are those that `Settle` gives from the first poll. |
| Api.SettleStep | lib/api.ts:111-114 | A pending answer before the cap leaves the decision to the next poll. |
| Api.LateCompletionTimesOut | lib/api.ts:111-123 | If `completed` arrives only on the 60th poll, the result is still a time-out after 60 polls. |
| Api.FindAssistant | lib/api.ts:170 | Gives the index of the first message whose role is `assistant`, or nothing exactly when there is no such message. |
| Api.RawReply | lib/api.ts:177 | The reply text is never empty. It is the first content block's text whenever that text is present and non-empty. It is the apology exactly when the first content block is missing, has no text, or has empty (or apology) text. |
| Api.SendMessageToBot | lib/api.ts:142-190 | On success the response is the cleaned first assistant text together with the thread used. Any missing setting or failure gives the apology with no thread. Missing settings send no request. A thread is created exactly when the incoming id is falsy. The first request is the thread creation or the message, and the message goes to the thread used. At most 64 requests are sent. |
| Api.SuccessfulReplyIsNormalized | lib/api.ts:178-182 | A successful reply's text is normalized, and it carries a thread id. |
| HealthChatbot.JsRem | health-chatbot.tsx:45-51 | JavaScript `%` with a positive divisor matches the mathematical remainder for a non-negative dividend. For a negative dividend the result lies in (-n, 0]. |
| HealthChatbot.NextSlide | health-chatbot.tsx:45-47 | From a valid index the next slide is in [0, 5). It advances by one and wraps from 4 to 0. |
| HealthChatbot.PrevSlide | health-chatbot.tsx:49-51 | The previous slide is in [0, 5). It steps back by one and wraps from 0 to 4. |
| HealthChatbot.SlidesUndoEachOther | health-chatbot.tsx:45-51 | Going forward then back, or back then forward, returns to the same slide. |
| HealthChatbot.SlidesCycle | health-chatbot.tsx:45-51 | Going forward five times returns to the starting slide. |
| HealthChatbot.ChatSession.constructor | health-chatbot.tsx:20-24 | The first render has empty input, slide 0, no messages, no loading and no thread. |
| HealthChatbot.ChatSession.ShowWelcome | health-chatbot.tsx:35-43 | After the mount effect the list is exactly the one non-user welcome message. |
| HealthChatbot.ChatSession.ShownQuestion | health-chatbot.tsx:207 | The carousel always shows one of the five suggested questions. |
| HealthChatbot.ChatSession.Next | health-chatbot.tsx:45-47 | The slide becomes the next slide and stays a valid index. |
| HealthChatbot.ChatSession.Prev | health-chatbot.tsx:49-51 | The slide becomes the previous slide and stays a valid index. |
| HealthChatbot.ChatSession.EditInput | health-chatbot.tsx:171 | Typing sets the input to the typed text. |
| HealthChatbot.ChatSession.HandleQuestionClick | health-chatbot.tsx:53-55 | The input becomes the given question. |
| HealthChatbot.ChatSession.UseShownQuestion | health-chatbot.tsx:222 | The input becomes the question the carousel was showing. |
| HealthChatbot.ChatSession.HandleSendMessage | health-chatbot.tsx:61-116 | Blank text changes nothing. Otherwise the untrimmed user message and then the bot message are appended, and earlier messages are unchanged. The input ends empty and loading ends false. The thread id changes only by adopting a reply's id when none was held. |
| HealthChatbot.ChatSession.HandleSubmit | health-chatbot.tsx:121-123 | Submitting sends the current input, with the same guarantees as sending. |
| HealthChatbot.ChatSession.SendWithAssistant | health-chatbot.tsx:61-116 | Blank text changes nothing and sends no request. Otherwise the user's message and then the reply are appended, the input is cleared and loading ends. The reply is the successful reply, or the apology when the turn fails. A held thread is always kept. On success with no thread held, the thread the turn created is adopted. |
| HealthChatbot.BotMessage | health-chatbot.tsx:91-111 | The bot bubble is a non-user message holding the reply's output, or the fixed error text when the call threw. |
| HealthChatbot.AdoptedThread | health-chatbot.tsx:86-89 | A held, non-empty thread id never changes. Otherwise a non-empty id from a successful reply is adopted. |

## Left out

- The HTTP layer is not modelled. That is `makeOpenAIRequest`, `createHeaders`, `fetch`, JSON parsing and the `threadAPI`/`runAPI` request builders (lib/api.ts:27-103). Each request is an oracle answer in `Api.Backend`, and a non-ok status or a network error is a `Thrown` answer.
- The one-second sleep before each status poll is not modelled (lib/api.ts:112). Only polls are counted.
- `process.env` reads are the optional input `Api.Config`.
- `console.error` logging is not modelled.
- Malformed service data is not modelled: a message whose `content` is missing rather than empty, or fields that are not strings. `content[0]?.text?.value` is modelled as an optional text of the first block.
- lib/api.js is not part of this model. It is an alternative client that posts to a webhook. The model takes the chat screen's `@/lib/api` import to be lib/api.ts.
- components/ChatDisplay.jsx is not part of this model. It only renders the list and scrolls into view.
- JSX layout and styling are not modelled, apart from the question display and the buttons' handlers. The send button's `disabled` state is not modelled either (health-chatbot.tsx:184).
- Message ids and timestamps from `Date.now()` and `new Date()` are not modelled. A message is its text and its author flag.
- React's asynchronous state updates are not modelled. `HandleSendMessage` runs a send to completion, so two sends cannot overlap. This matters because pressing Enter does not check `isLoading`.
- The awaited call inside the send handler is an input, `Ok` with the response or `Thrown`. `SendWithAssistant` connects the handler to `Api.SendMessageToBot`, which never throws.
