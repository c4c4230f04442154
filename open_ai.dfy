/**
 * OpenAiService: choose the system prompt, map the transcript to chat-model
 * messages, call the model, and fall back to a fixed apology when anything
 * throws. The chat model itself is a parameter.
 */
module OpenAi {
  import opened Wrappers
  import opened Text
  import opened Chat

  datatype Role = SystemRole | UserRole | AssistantRole

  /** A Spring AI SystemMessage, UserMessage or AssistantMessage. */
  datatype PromptMessage = PromptMessage(role: Role, text: Option<string>)

  /** What one call of the chat model gives: the output text (which may be null), or an exception. */
  datatype Completion = Answered(output: Option<string>) | Threw

  /** The chat model: the prompt in, a completion out. */
  type ChatModel = seq<PromptMessage> -> Completion

  const SYSTEM_PROMPT: string :=
    "당신은 사용자의 이야기를 들어주고 공감하며, 가끔은 조언을 해주는 AI 상담가 입니다.\n"
    + "대화의 전체 맥락을 파악하고, 사용자와 더 깊은 대화를 할 수 있도록 유도한다.\n"
    + "너무 말은 딱딱하게 하지 말고 부드럽게 답변해줘.\n"
    + "답변은 항상 한국어로, 두문장에서 세문장 정도로 대답하며 상황에 따라 공감하고 조언을 할 수도 있고 그에 대한 질문도 던질 수 있어.\n"

  const APOLOGY: string :=
    "죄송합니다. 시스템에 오류가 발생하여 답변을 드릴 수 없습니다. 잠시 후 다시 시도해주세요."

  /** The custom prompt when it has text, the default prompt otherwise. */
  function SystemText(custom: Option<string>): (r: string)
    ensures HasText(custom) ==> r == custom.value
    ensures !HasText(custom) ==> r == SYSTEM_PROMPT
  {
    if HasText(custom) then custom.value else SYSTEM_PROMPT
  }

  /** A speaker "AI" (in any case) becomes an assistant message, anyone else a user message. */
  function ToPromptMessage(m: ChatMessage): (r: PromptMessage)
    ensures r.text == m.message
    ensures r.role == (if IsAiTurn(m) then AssistantRole else UserRole)
  {
    if IsAiTurn(m) then PromptMessage(AssistantRole, m.message) else PromptMessage(UserRole, m.message)
  }

  function MapToPrompt(h: seq<ChatMessage>): (r: seq<PromptMessage>)
    ensures |r| == |h|
    ensures forall i :: 0 <= i < |h| ==> r[i] == ToPromptMessage(h[i])
  {
    if h == [] then [] else [ToPromptMessage(h[0])] + MapToPrompt(h[1..])
  }

  /** The message list sent to the model: the system message, then the transcript in order. */
  function BuildPrompt(history: seq<ChatMessage>, custom: Option<string>): (r: seq<PromptMessage>)
    ensures |r| == |history| + 1
    ensures r[0] == PromptMessage(SystemRole, Some(SystemText(custom)))
    ensures forall i :: 0 <= i < |history| ==> r[i + 1] == ToPromptMessage(history[i])
  {
    [PromptMessage(SystemRole, Some(SystemText(custom)))] + MapToPrompt(history)
  }

  /** getChatResponse(history, customSystemPrompt): the model's text, or the apology when it throws. */
  function GetChatResponse(history: seq<ChatMessage>, custom: Option<string>, model: ChatModel): (r: Option<string>)
    ensures model(BuildPrompt(history, custom)).Threw? ==> r == Some(APOLOGY)
    ensures model(BuildPrompt(history, custom)).Answered? ==> r == model(BuildPrompt(history, custom)).output
  {
    match model(BuildPrompt(history, custom))
    case Threw => Some(APOLOGY)
    case Answered(t) => t
  }

  /** getChatResponse(history): the default system prompt. */
  function GetChatResponseForHistory(history: seq<ChatMessage>, model: ChatModel): (r: Option<string>)
    ensures r == GetChatResponse(history, None, model)
  {
    GetChatResponse(history, None, model)
  }

  /** getChatResponse(userQuestion): one user message under the default system prompt. */
  function GetChatResponseForQuestion(question: string, model: ChatModel): (r: Option<string>)
    ensures r == GetChatResponse([ChatMessage(USER, Some(question))], None, model)
  {
    GetChatResponse([ChatMessage(USER, Some(question))], None, model)
  }

  /** The single-question overload sends exactly [system(default), user(question)]. */
  lemma QuestionPrompt(question: string)
    ensures BuildPrompt([ChatMessage(USER, Some(question))], None)
         == [PromptMessage(SystemRole, Some(SYSTEM_PROMPT)), PromptMessage(UserRole, Some(question))]
  {
    var h := [ChatMessage(USER, Some(question))];
    assert !IsAiTurn(h[0]) by {
      assert ToLowerAscii(AI[0]) != ToLowerAscii(USER[0]);
    }
    assert !HasText(None);
  }

  /** A blank custom prompt (only whitespace) falls back to the default one. */
  lemma {:induction false} BlankPromptUsesDefault(custom: string)
    requires forall i :: 0 <= i < |custom| ==> IsJavaWhitespace(custom[i])
    ensures SystemText(Some(custom)) == SYSTEM_PROMPT
  {
  }
}
