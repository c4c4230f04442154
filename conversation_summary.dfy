/**
 * ConversationSummaryService: the member's calls of the last seven days,
 * each readable transcript written as "speaker: message" lines followed by
 * a blank line, summarised in one sentence by the chat model. Without calls,
 * or when nothing could be read, a fixed message is returned instead.
 */
module Summary {
  import opened Wrappers
  import opened Text
  import opened Chat
  import opened OpenAi
  import opened CallLogs
  import opened Store

  const NO_RECENT_CALLS: string := "최근 7일간의 대화 기록이 없습니다."
  const NOTHING_TO_ANALYZE: string := "분석할 대화 내용이 없습니다."

  const SUMMARY_SYSTEM_PROMPT: string :=
    "당신은 대화 요약 전문가입니다.\n"
    + "주어진 대화 내용을 분석하여, 전체 맥락을 포괄하는 핵심적인 내용으로 한줄의 짧은 문장으로 요약해주세요.\n"
    + "반드시 한국어로 요약해야 합니다. 최대 글자수 제한은 30자 입니다.\n"

  /** One message as "speaker: message" (a null message prints as "null"). */
  function SummaryLine(m: ChatMessage): string {
    m.speaker + ": " + Shown(m.message)
  }

  /** The lines of a transcript, in order. */
  function SummaryLines(h: seq<ChatMessage>): (r: seq<string>)
    ensures |r| == |h|
    ensures forall i :: 0 <= i < |h| ==> r[i] == SummaryLine(h[i])
  {
    if h == [] then [] else [SummaryLine(h[0])] + SummaryLines(h[1..])
  }

  /**
   * What one call log adds: its lines joined by newlines and then a blank
   * line, or nothing when there is no readable transcript.
   */
  function LogSummary(callData: Option<string>, decode: Decoder): string {
    match ReadTranscript(callData, decode)
    case None => ""
    case Some(h) => Join(SummaryLines(h), "\n") + "\n\n"
  }

  /** The aggregated conversation of a list of logs, in log order. */
  function SummaryText(logs: seq<LogRow>, decode: Decoder): string {
    if logs == [] then "" else SummaryText(logs[..|logs| - 1], decode) + LogSummary(logs[|logs| - 1].callData, decode)
  }

  /**
   * The aggregation is empty exactly when no log has a readable transcript;
   * a transcript with no messages still adds its blank line.
   */
  lemma {:induction false} SummaryTextEmptyIff(logs: seq<LogRow>, decode: Decoder)
    ensures SummaryText(logs, decode) == "" <==>
      forall i :: 0 <= i < |logs| ==> ReadTranscript(logs[i].callData, decode).None?
  {
    if logs != [] {
      var n := |logs| - 1;
      var init := logs[..n];
      SummaryTextEmptyIff(init, decode);
      SummaryTextSnocEmpty(logs, decode);
      assert forall i :: 0 <= i < n ==> init[i] == logs[i];
    }
  }

  /** The aggregation of a non-empty list is empty iff that of all but the last log is and the last log is unreadable. */
  lemma SummaryTextSnocEmpty(logs: seq<LogRow>, decode: Decoder)
    requires logs != []
    ensures SummaryText(logs, decode) == "" <==>
      SummaryText(logs[..|logs| - 1], decode) == "" && ReadTranscript(logs[|logs| - 1].callData, decode).None?
  {
    var last := LogSummary(logs[|logs| - 1].callData, decode);
    if ReadTranscript(logs[|logs| - 1].callData, decode).Some? {
      assert |last| >= 2;
    }
  }

  /** The aggregation loop: each readable transcript's lines, then a blank line. */
  method AggregateSummary(logs: seq<LogRow>, decode: Decoder) returns (text: string)
    ensures text == SummaryText(logs, decode)
  {
    text := "";
    for i := 0 to |logs|
      invariant text == SummaryText(logs[..i], decode)
    {
      assert logs[..i + 1][..i] == logs[..i];
      var callData := logs[i].callData;
      if callData.Some? && callData.value != "" {
        match decode(callData.value)
        case None =>
        case Some(history) =>
          var conversationText := Join(SummaryLines(history), "\n");
          text := text + conversationText + "\n\n";
      }
    }
    assert logs[..|logs|] == logs;
  }

  /**
   * getConversationSummary at time `now`: the fixed message without calls
   * in the window or without anything read, otherwise the model's summary
   * of the aggregated text (sent as one user message).
   */
  function SummaryFor(rows: seq<LogRow>, memberId: string, now: Timestamp, decode: Decoder, model: ChatModel): (r: Option<string>)
    ensures LastSevenDays(rows, memberId, now) == [] ==> r == Some(NO_RECENT_CALLS)
  {
    var logs := LastSevenDays(rows, memberId, now);
    if logs == [] then Some(NO_RECENT_CALLS)
    else
      var aggregated := SummaryText(logs, decode);
      if aggregated == "" then Some(NOTHING_TO_ANALYZE)
      else GetChatResponse([ChatMessage(USER, Some(aggregated))], Some(SUMMARY_SYSTEM_PROMPT), model)
  }

  /**
   * Calls in the window but no readable transcript: the fixed message,
   * whatever the model would have said.
   */
  lemma NothingReadableSkipsModel(rows: seq<LogRow>, memberId: string, now: Timestamp, decode: Decoder, model: ChatModel)
    requires LastSevenDays(rows, memberId, now) != []
    requires forall i :: 0 <= i < |LastSevenDays(rows, memberId, now)| ==>
      ReadTranscript(LastSevenDays(rows, memberId, now)[i].callData, decode).None?
    ensures SummaryFor(rows, memberId, now, decode, model) == Some(NOTHING_TO_ANALYZE)
  {
    SummaryTextEmptyIff(LastSevenDays(rows, memberId, now), decode);
  }

  /**
   * One readable transcript is enough for the model to be asked, even an
   * empty one: its blank line makes the aggregation non-empty.
   */
  lemma ReadableTranscriptAsksModel(rows: seq<LogRow>, memberId: string, now: Timestamp, decode: Decoder, model: ChatModel, k: nat)
    requires k < |LastSevenDays(rows, memberId, now)|
    requires ReadTranscript(LastSevenDays(rows, memberId, now)[k].callData, decode).Some?
    ensures SummaryFor(rows, memberId, now, decode, model)
         == GetChatResponse([ChatMessage(USER, Some(SummaryText(LastSevenDays(rows, memberId, now), decode)))],
                            Some(SUMMARY_SYSTEM_PROMPT), model)
  {
    SummaryTextEmptyIff(LastSevenDays(rows, memberId, now), decode);
  }

  /** A single call whose transcript is one exchange: the text sent is its two lines and a blank line. */
  lemma OneCallText(row: LogRow, decode: Decoder, q: string, a: string)
    requires ReadTranscript(row.callData, decode) == Some([ChatMessage(AI, Some(q)), ChatMessage(USER, Some(a))])
    ensures SummaryText([row], decode) == "AI: " + q + "\nUser: " + a + "\n\n"
  {
    var h := [ChatMessage(AI, Some(q)), ChatMessage(USER, Some(a))];
    assert AI + ": " == "AI: " && USER + ": " == "User: ";
    assert SummaryLine(h[0]) == "AI: " + q;
    assert SummaryLine(h[1]) == "User: " + a;
    assert SummaryLines(h) == ["AI: " + q, "User: " + a];
    assert Join(SummaryLines(h), "\n") == "AI: " + q + "\n" + ("User: " + a);
    assert [row][..0] == [];
    assert SummaryText([row], decode) == "" + LogSummary(row.callData, decode);
  }

  /** getConversationSummary, reading the rows stored now. */
  method GetConversationSummary(db: Database, memberId: string, now: Timestamp, decode: Decoder, model: ChatModel)
    returns (r: Option<string>)
    ensures r == SummaryFor(db.LogRows(), memberId, now, decode, model)
  {
    var recentCallLogs := LastSevenDays(db.LogRows(), memberId, now);
    if recentCallLogs == [] {
      return Some(NO_RECENT_CALLS);
    }
    var aggregated := AggregateSummary(recentCallLogs, decode);
    if aggregated == "" {
      return Some(NOTHING_TO_ANALYZE);
    }
    r := GetChatResponse([ChatMessage(USER, Some(aggregated))], Some(SUMMARY_SYSTEM_PROMPT), model);
  }
}
