/**
 * The chat screen's session state and its non-rendering transitions: the
 * suggested-question carousel, the input field, the message list, the
 * loading flag and the thread handle kept between turns.
 */
module HealthChatbot {
  import opened Common
  import Spacing
  import Api

  /** A chat bubble: its text and whether the user wrote it. */
  datatype Message = Message(text: string, isUser: bool)

  /** The greeting shown when the screen opens. */
  const Welcome: Message := Message("안녕하세요! 건강에 대한 어떤 고민이든 자유롭게 말씀해 주세요.", false)

  /** The bubble shown when sending itself throws. */
  const ErrorText: string := "죄송합니다. 메시지 처리 중 오류가 발생했습니다. 다시 시도해 주세요."

  /** The suggested questions of the carousel. */
  const RecommendedQuestions: seq<string> := [
    "간암 진단 받고 수술 날짜 잡았는데, 당분간 어떤 음식은 꼭 피해야 하나요?",
    "당뇨병 환자인데 혈당 관리를 위해 어떤 운동이 좋을까요?",
    "고혈압 약을 복용 중인데 함께 먹으면 안 되는 음식이 있나요?",
    "위암 수술 후 회복기간 동안 주의해야 할 점들이 궁금해요",
    "갑상선 기능 저하증 진단받았는데 일상생활에서 어떤 점을 조심해야 하나요?"
  ]

  /** The number of suggested questions. */
  const SlideCount: nat := |RecommendedQuestions|

  /**
   * JavaScript's `%` on integers: the remainder of truncating division,
   * which takes the sign of the dividend.
   */
  function JsRem(a: int, n: int): (r: int)
    requires n > 0
    ensures 0 <= a ==> r == a % n && 0 <= r < n
    ensures a < 0 ==> -n < r <= 0
  {
    if a >= 0 then a % n else -((-a) % n)
  }

  /** The slide after `prev`, wrapping from the last to the first. */
  function NextSlide(prev: int): (r: int)
    ensures 0 <= prev ==> 0 <= r < SlideCount
    ensures 0 <= prev < SlideCount - 1 ==> r == prev + 1
    ensures prev == SlideCount - 1 ==> r == 0
  {
    JsRem(prev + 1, SlideCount)
  }

  /** The slide before `prev`, wrapping from the first to the last. */
  function PrevSlide(prev: int): (r: int)
    ensures 1 - SlideCount <= prev ==> 0 <= r < SlideCount
    ensures 0 < prev < SlideCount ==> r == prev - 1
    ensures prev == 0 ==> r == SlideCount - 1
  {
    JsRem(prev - 1 + SlideCount, SlideCount)
  }

  /** Going forward and back, or back and forward, returns to the same slide. */
  lemma SlidesUndoEachOther(i: int)
    requires 0 <= i < SlideCount
    ensures PrevSlide(NextSlide(i)) == i
    ensures NextSlide(PrevSlide(i)) == i
  {
  }

  /** Going forward once per question comes back to the start. */
  lemma SlidesCycle(i: int)
    requires 0 <= i < SlideCount
    ensures NextSlide(NextSlide(NextSlide(NextSlide(NextSlide(i))))) == i
  {
  }

  /** The screen's state. */
  class ChatSession {
    var inputText: string
    var currentSlide: int
    var messages: seq<Message>
    var isLoading: bool
    var threadId: Option<string>

    /** The slide index is a valid question index; a held thread id is non-empty. */
    ghost predicate Valid()
      reads this
    {
      && 0 <= currentSlide < SlideCount
      && (threadId.Some? ==> threadId.value != "")
    }

    /** The state of the first render. */
    constructor ()
      ensures Valid()
      ensures inputText == "" && currentSlide == 0 && messages == []
      ensures !isLoading && threadId == None
    {
      inputText := "";
      currentSlide := 0;
      messages := [];
      isLoading := false;
      threadId := None;
    }

    /** The mount effect: the list becomes the welcome message alone. */
    method ShowWelcome()
      modifies this`messages
      ensures messages == [Welcome]
    {
      messages := [Welcome];
    }

    /** The question the carousel currently shows. */
    function ShownQuestion(): (q: string)
      reads this
      requires Valid()
      ensures q in RecommendedQuestions
    {
      RecommendedQuestions[currentSlide]
    }

    method Next()
      requires Valid()
      modifies this`currentSlide
      ensures Valid()
      ensures currentSlide == NextSlide(old(currentSlide))
    {
      currentSlide := NextSlide(currentSlide);
    }

    method Prev()
      requires Valid()
      modifies this`currentSlide
      ensures Valid()
      ensures currentSlide == PrevSlide(old(currentSlide))
    {
      currentSlide := PrevSlide(currentSlide);
    }

    /** Typing into the input field. */
    method EditInput(text: string)
      modifies this`inputText
      ensures inputText == text
    {
      inputText := text;
    }

    /** Copies a question into the input field. */
    method HandleQuestionClick(question: string)
      modifies this`inputText
      ensures inputText == question
    {
      inputText := question;
    }

    /** The "use" button: copies the question on show into the input field. */
    method UseShownQuestion()
      requires Valid()
      modifies this`inputText
      ensures Valid()
      ensures inputText == old(ShownQuestion())
    {
      HandleQuestionClick(RecommendedQuestions[currentSlide]);
    }

    /**
     * Sends `messageText`; `reply` is what the awaited call to the assistant
     * client gave back, or `Thrown` when it threw. Blank text changes
     * nothing and asks nothing. Otherwise the user's bubble and then the
     * bot's bubble are appended, the input is cleared, loading ends, and the
     * reply's thread id is adopted if the session held none.
     */
    method HandleSendMessage(messageText: string, reply: Reply<Api.ChatResponse>) returns (sent: bool)
      requires Valid()
      modifies this`messages, this`inputText, this`isLoading, this`threadId
      ensures Valid()
      ensures sent <==> !Spacing.IsBlank(messageText)
      ensures !sent ==> unchanged(this)
      ensures sent ==> messages == old(messages) + [Message(messageText, true), BotMessage(reply)]
      ensures sent ==> inputText == "" && !isLoading
      ensures sent ==> threadId == AdoptedThread(old(threadId), reply)
    {
      if Spacing.IsBlank(messageText) {
        return false;
      }
      sent := true;
      messages := messages + [Message(messageText, true)];
      inputText := "";
      isLoading := true;
      match reply {
        case Ok(response) =>
          if Truthy(response.threadId) && !Truthy(threadId) {
            threadId := response.threadId;
          }
          messages := messages + [Message(response.output, false)];
        case Thrown =>
          messages := messages + [Message(ErrorText, false)];
      }
      isLoading := false;
    }

    /** Submitting the form (Enter or the send button) sends the current input. */
    method HandleSubmit(reply: Reply<Api.ChatResponse>) returns (sent: bool)
      requires Valid()
      modifies this`messages, this`inputText, this`isLoading, this`threadId
      ensures Valid()
      ensures sent <==> !Spacing.IsBlank(old(inputText))
      ensures !sent ==> unchanged(this)
      ensures sent ==> messages == old(messages) + [Message(old(inputText), true), BotMessage(reply)]
      ensures sent ==> inputText == "" && !isLoading
      ensures sent ==> threadId == AdoptedThread(old(threadId), reply)
    {
      sent := HandleSendMessage(inputText, reply);
    }

    /**
     * Sends `messageText` through the assistant client of lib/api.ts, passing
     * the session's thread, against the service answers in `backend`;
     * `requests` are the requests the client sent to the service.
     */
    method SendWithAssistant(messageText: string, config: Api.Config, backend: Api.Backend)
      returns (sent: bool, requests: seq<Api.Request>)
      requires Valid()
      modifies this`messages, this`inputText, this`isLoading, this`threadId
      ensures Valid()
      ensures sent <==> !Spacing.IsBlank(messageText)
      ensures !sent ==> unchanged(this) && requests == []
      ensures sent ==> |messages| == |old(messages)| + 2 && messages[..|old(messages)|] == old(messages)
      ensures sent ==> messages[|old(messages)|] == Message(messageText, true)
      ensures sent && !Api.TurnSucceeds(old(threadId), config, backend) ==>
                messages[|messages| - 1] == Message(Api.Apology, false) && threadId == old(threadId)
      ensures sent && Api.TurnSucceeds(old(threadId), config, backend) ==>
                messages[|messages| - 1] == Message(Api.SuccessfulReply(old(threadId), config, backend).output, false)
      ensures sent ==> inputText == "" && !isLoading
      ensures sent && Truthy(old(threadId)) ==> threadId == old(threadId)
      ensures sent && Api.TurnSucceeds(old(threadId), config, backend) ==>
                threadId == AdoptedThread(old(threadId), Ok(Api.SuccessfulReply(old(threadId), config, backend)))
      ensures sent && Api.TurnSucceeds(old(threadId), config, backend) && !Truthy(old(threadId)) ==>
                backend.createThread.value != "" ==> threadId == Some(backend.createThread.value)
    {
      if Spacing.IsBlank(messageText) {
        return false, [];
      }
      var response;
      response, requests := Api.SendMessageToBot(messageText, threadId, config, backend);
      sent := HandleSendMessage(messageText, Ok(response));
    }
  }

  /** The bot's bubble for a reply: its output, or the error text when sending threw. */
  function BotMessage(reply: Reply<Api.ChatResponse>): (m: Message)
    ensures !m.isUser
    ensures m.text == if reply.Ok? then reply.value.output else ErrorText
  {
    match reply
    case Ok(response) => Message(response.output, false)
    case Thrown => Message(ErrorText, false)
  }

  /**
   * The thread id the session holds after a reply: a held id never changes;
   * otherwise a non-empty id from a successful reply is adopted.
   */
  function AdoptedThread(held: Option<string>, reply: Reply<Api.ChatResponse>): (r: Option<string>)
    ensures Truthy(held) ==> r == held
    ensures !Truthy(held) && reply.Ok? && Truthy(reply.value.threadId) ==> r == reply.value.threadId
    ensures !Truthy(held) && !(reply.Ok? && Truthy(reply.value.threadId)) ==> r == held
  {
    if reply.Ok? && Truthy(reply.value.threadId) && !Truthy(held) then reply.value.threadId else held
  }
}
