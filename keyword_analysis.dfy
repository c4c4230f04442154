/**
 * KeywordAnalysisService: gather what the member said in the last seven
 * days, ask the chat model for four items written as
 * ['keywords', 'mood', 'feedback', 'question'], parse that list, and store
 * the result (as JSON) in the member's keyword row.
 */
module KeywordAnalysis {
  import opened Wrappers
  import opened Text
  import opened Chat
  import opened OpenAi
  import opened CallLogs
  import opened Store

  /** AnalysisResponse: the four items of an analysis. */
  datatype AnalysisResponse = AnalysisResponse(keywords: string, currentMood: string, feedback: string, summaryQuestion: string)

  /** Jackson's writeValueAsString / readValue on an AnalysisResponse; None when it throws. */
  type AnalysisEncoder = AnalysisResponse -> Option<string>
  type AnalysisDecoder = string -> Option<AnalysisResponse>

  const NO_AI_RESPONSE: AnalysisResponse := AnalysisResponse("분석 실패", "오류", "AI 응답이 없습니다.", "분석 실패")
  const BAD_FORMAT: AnalysisResponse := AnalysisResponse("분석 실패", "오류", "AI 응답 형식에 문제가 있습니다.", "분석 실패")
  const NO_CALLS: AnalysisResponse := AnalysisResponse("통화 기록 없음", "정보 없음", "최근 통화 기록이 없어 분석할 수 없습니다.", "분석 데이터 없음")
  const NO_VALID_CONVERSATION: AnalysisResponse :=
    AnalysisResponse("유효 대화 없음", "정보 없음", "최근 통화에서 유효한 대화 내용이 없어 분석할 수 없습니다.", "분석 데이터 없음")

  /** The separator between two items of the list. */
  const ITEM_SEPARATOR: string := "', '"

  /** The prefix of the one user message sent to the model. */
  const CONVERSATION_PREFIX: string := "대화:\n"

  const ANALYSIS_SYSTEM_PROMPT: string :=
    "\"너는 대화 내용을 분석하고 네 가지 항목을 추출하는 전문가야.\n"
    + "사용자의 대화 내용이 주어지면 다음 규칙을 반드시 지켜서 결과를 반환해줘.\n"
    + "\n"
    + "1. 주요 키워드들을 공백으로 구분하여 한 줄로 요약. 키워드는 초대 5개로 제한한다.\n"
    + "2. 대화의 전반적인 분위기나 감정을 '긍정', '부정', '중립' 등 한 단어로 표현.\n"
    + "3. 분석 내용을 바탕으로 사용자에게 전달할 격려나 조언의 피드백을 한 문장으로 작성하되, 15글자로 제한한다.\n"
    + "4. 전체 대화의 핵심을 관통하는, 안부를 묻는 질문을 한 문장으로 작성하되, 15글자로 제한한다.\n"
    + "\n"
    + "결과는 반드시 ['키워드 목록', '감정', '피드백 문장', '요약 질문'] 형태의 파싱 가능한 단일 리스트 문자열로만 반환해야 해. 다른 부가적인 설명은 절대 추가하지 마.\"\n"

  /** The text the model is asked to produce for an analysis: the four items in the list notation. */
  function Render(a: AnalysisResponse): string {
    "['" + Join([a.keywords, a.currentMood, a.feedback, a.summaryQuestion], ITEM_SEPARATOR) + "']"
  }

  /** Whether the trimmed text has the list's brackets: starts with "['" and ends with "']". */
  predicate Bracketed(content: string) {
    StartsWith(content, "['") && EndsWith(content, "']")
  }

  /**
   * The list inside trimmed model output: the text between the brackets cut
   * at its first three separators, which succeeds only with four pieces.
   * The length guard is the corrected behaviour (see ParseAiResponseAsWritten).
   */
  function ParseItems(content: string): (r: Option<AnalysisResponse>)
    ensures !Bracketed(content) ==> r.None?
    ensures r.Some? ==> Render(r.value) == content
  {
    if Bracketed(content) && |content| >= 4 then
      var parts := SplitN(content[2..|content| - 2], ITEM_SEPARATOR, 4);
      if |parts| == 4 then
        SplitNParts(content[2..|content| - 2], ITEM_SEPARATOR, 4);
        RenderOfParts(content, parts);
        Some(AnalysisResponse(parts[0], parts[1], parts[2], parts[3]))
      else None
    else None
  }

  /** Four pieces that join back into the text between the brackets render back to the whole text. */
  lemma RenderOfParts(content: string, parts: seq<string>)
    requires Bracketed(content) && |content| >= 4
    requires |parts| == 4 && Join(parts, ITEM_SEPARATOR) == content[2..|content| - 2]
    ensures Render(AnalysisResponse(parts[0], parts[1], parts[2], parts[3])) == content
  {
    var inner := content[2..|content| - 2];
    assert parts == [parts[0], parts[1], parts[2], parts[3]];
    assert content[..2] == "['" && content[|content| - 2..] == "']";
    calc {
      content;
      content[..2] + inner + content[|content| - 2..];
      "['" + inner + "']";
    }
  }

  /**
   * parseAiResponse, corrected: null or blank output is "no AI response", a
   * four-item list is the analysis, anything else is "format problem".
   */
  function ParseAiResponse(aiResponse: Option<string>): (r: AnalysisResponse)
    ensures aiResponse.None? || IsBlank(aiResponse.value) ==> r == NO_AI_RESPONSE
    ensures aiResponse.Some? && !IsBlank(aiResponse.value) && !Bracketed(Trim(aiResponse.value)) ==> r == BAD_FORMAT
    ensures aiResponse.Some? && !IsBlank(aiResponse.value) && ParseItems(Trim(aiResponse.value)).None? ==> r == BAD_FORMAT
    ensures aiResponse.Some? && !IsBlank(aiResponse.value) && ParseItems(Trim(aiResponse.value)).Some? ==>
      Render(r) == Trim(aiResponse.value)
  {
    if aiResponse.None? || IsBlank(aiResponse.value) then NO_AI_RESPONSE
    else ParseItems(Trim(aiResponse.value)).GetOr(BAD_FORMAT)
  }

  /**
   * parseAiResponse as written: None stands for the exception that
   * `substring(2, length - 2)` throws when the bracket checks overlap.
   */
  function ParseAiResponseAsWritten(aiResponse: Option<string>): Option<AnalysisResponse> {
    if aiResponse.None? || IsBlank(aiResponse.value) then Some(NO_AI_RESPONSE)
    else
      var content := Trim(aiResponse.value);
      if Bracketed(content) then
        if |content| - 2 < 2 then None
        else
          var parts := SplitN(content[2..|content| - 2], ITEM_SEPARATOR, 4);
          if |parts| == 4 then Some(AnalysisResponse(parts[0], parts[1], parts[2], parts[3])) else Some(BAD_FORMAT)
      else Some(BAD_FORMAT)
  }

  /** The output "[']" passes both bracket checks and then throws; the corrected parser reports a format problem. */
  lemma LoneQuoteThrows()
    ensures ParseAiResponseAsWritten(Some("[']")) == None
    ensures ParseAiResponse(Some("[']")) == BAD_FORMAT
  {
    var s := "[']";
    assert IsTrimmed(s);
    TrimOfTrimmed(s);
    AsWrittenAgreesElsewhere(Some(s));
    if ParseItems(s).Some? {
      RenderLength(ParseItems(s).value);
    }
  }

  /** The list notation is never shorter than its brackets and three separators. */
  lemma RenderLength(a: AnalysisResponse)
    ensures |Render(a)| >= 16
  {
    JoinCons(a.keywords, [a.currentMood, a.feedback, a.summaryQuestion], ITEM_SEPARATOR);
    JoinCons(a.currentMood, [a.feedback, a.summaryQuestion], ITEM_SEPARATOR);
    JoinCons(a.feedback, [a.summaryQuestion], ITEM_SEPARATOR);
  }

  /** The two parsers differ only where the one as written throws, and it throws only on a trimmed "[']". */
  lemma {:induction false} AsWrittenAgreesElsewhere(aiResponse: Option<string>)
    ensures ParseAiResponseAsWritten(aiResponse).Some? ==> ParseAiResponseAsWritten(aiResponse).value == ParseAiResponse(aiResponse)
    ensures ParseAiResponseAsWritten(aiResponse).None? <==> (aiResponse.Some? && Trim(aiResponse.value) == "[']")
  {
    if aiResponse.Some? && !IsBlank(aiResponse.value) {
      var content := Trim(aiResponse.value);
      if Bracketed(content) && |content| < 4 {
        var n := |content|;
        assert content[0] == '[' && content[1] == '\'' by {
          assert content[..2] == "['";
        }
        assert content[n - 2] == '\'' && content[n - 1] == ']' by {
          assert content[n - 2..] == "']";
        }
        assert n == 3;
        assert content == "[']";
      }
    }
  }

  /** Round trip: the list notation of an analysis parses back to it when no item's end can be mistaken for a separator. */
  lemma RenderThenParse(a: AnalysisResponse)
    requires CutsCleanly(a.keywords, ITEM_SEPARATOR)
    requires CutsCleanly(a.currentMood, ITEM_SEPARATOR)
    requires CutsCleanly(a.feedback, ITEM_SEPARATOR)
    ensures ParseAiResponse(Some(Render(a))) == a
  {
    RenderNeedsNoTrim(a);
    ParseItemsOfRender(a);
  }

  /** The list notation is not blank and trim() leaves it alone. */
  lemma RenderNeedsNoTrim(a: AnalysisResponse)
    ensures Trim(Render(a)) == Render(a) && !IsBlank(Render(a))
  {
    RenderShape(a);
    TrimOfTrimmed(Render(a));
  }

  /** The list notation is bracketed, has the joined items between its brackets, and needs no trimming. */
  lemma RenderShape(a: AnalysisResponse)
    ensures var s := Render(a);
      && |s| >= 4 && Bracketed(s) && IsTrimmed(s)
      && s[2..|s| - 2] == Join([a.keywords, a.currentMood, a.feedback, a.summaryQuestion], ITEM_SEPARATOR)
  {
    var s := Render(a);
    var inner := Join([a.keywords, a.currentMood, a.feedback, a.summaryQuestion], ITEM_SEPARATOR);
    assert s == "['" + inner + "']";
    assert s[..2] == "['" && s[|s| - 2..] == "']";
    assert s[0] == '[' && s[|s| - 1] == ']';
    assert s[2..|s| - 2] == inner;
  }

  /** The items between the brackets of the list notation are cut back into the four items. */
  lemma ParseItemsOfRender(a: AnalysisResponse)
    requires CutsCleanly(a.keywords, ITEM_SEPARATOR)
    requires CutsCleanly(a.currentMood, ITEM_SEPARATOR)
    requires CutsCleanly(a.feedback, ITEM_SEPARATOR)
    ensures ParseItems(Render(a)) == Some(a)
  {
    var xs := [a.keywords, a.currentMood, a.feedback, a.summaryQuestion];
    var s := Render(a);
    RenderShape(a);
    SplitNJoin(xs, ITEM_SEPARATOR);
    assert SplitN(s[2..|s| - 2], ITEM_SEPARATOR, 4) == xs;
  }

  /** An item without an apostrophe can never be mistaken for the start of a separator. */
  lemma NoQuoteCutsCleanly(x: string)
    requires forall i :: 0 <= i < |x| ==> x[i] != '\''
    ensures CutsCleanly(x, ITEM_SEPARATOR)
  {
    forall k | 0 <= k < |x|
      ensures !OccursAt(x + ITEM_SEPARATOR, ITEM_SEPARATOR, k)
    {
      assert (x + ITEM_SEPARATOR)[k..k + 4][0] == x[k];
    }
  }

  /** Items without apostrophes come back unchanged from their list notation. */
  lemma PlainItemsRoundTrip(a: AnalysisResponse)
    requires forall i :: 0 <= i < |a.keywords| ==> a.keywords[i] != '\''
    requires forall i :: 0 <= i < |a.currentMood| ==> a.currentMood[i] != '\''
    requires forall i :: 0 <= i < |a.feedback| ==> a.feedback[i] != '\''
    ensures ParseAiResponse(Some(Render(a))) == a
  {
    NoQuoteCutsCleanly(a.keywords);
    NoQuoteCutsCleanly(a.currentMood);
    NoQuoteCutsCleanly(a.feedback);
    RenderThenParse(a);
  }

  /** Extra separators stay inside the last item: a fifth item is glued to the fourth, separator and all. */
  lemma SeparatorsStayInLastItem(a: AnalysisResponse, extra: string)
    requires forall i :: 0 <= i < |a.keywords| ==> a.keywords[i] != '\''
    requires forall i :: 0 <= i < |a.currentMood| ==> a.currentMood[i] != '\''
    requires forall i :: 0 <= i < |a.feedback| ==> a.feedback[i] != '\''
    ensures ParseAiResponse(Some("['" + Join([a.keywords, a.currentMood, a.feedback, a.summaryQuestion, extra], ITEM_SEPARATOR) + "']"))
         == a.(summaryQuestion := a.summaryQuestion + ITEM_SEPARATOR + extra)
  {
    var b := a.(summaryQuestion := a.summaryQuestion + ITEM_SEPARATOR + extra);
    PlainItemsRoundTrip(b);
    JoinCons(a.keywords, [a.currentMood, a.feedback, a.summaryQuestion, extra], ITEM_SEPARATOR);
    JoinCons(a.currentMood, [a.feedback, a.summaryQuestion, extra], ITEM_SEPARATOR);
    JoinCons(a.feedback, [a.summaryQuestion, extra], ITEM_SEPARATOR);
    JoinCons(a.summaryQuestion, [extra], ITEM_SEPARATOR);
    JoinCons(a.keywords, [a.currentMood, a.feedback, b.summaryQuestion], ITEM_SEPARATOR);
    JoinCons(a.currentMood, [a.feedback, b.summaryQuestion], ITEM_SEPARATOR);
    JoinCons(a.feedback, [b.summaryQuestion], ITEM_SEPARATOR);
  }

  /**
   * extractUserMessagesFromCallLog: the user turns of a stored transcript,
   * one per line; "" for a null, empty or unreadable transcript.
   */
  function ExtractUserMessages(callData: Option<string>, decode: Decoder): (r: string)
    ensures callData.None? || callData.value == "" ==> r == ""
    ensures callData.Some? && callData.value != "" && decode(callData.value).None? ==> r == ""
    ensures callData.Some? && callData.value != "" && decode(callData.value).Some? ==>
      r == Join(UserMessages(decode(callData.value).value), "\n")
  {
    if callData.None? || callData.value == "" then ""
    else match decode(callData.value)
      case None => ""
      case Some(h) => Join(UserMessages(h), "\n")
  }

  /** The per-log texts, in log order. */
  function UserTexts(logs: seq<LogRow>, decode: Decoder): (r: seq<string>)
    ensures |r| == |logs|
    ensures forall i :: 0 <= i < |logs| ==> r[i] == ExtractUserMessages(logs[i].callData, decode)
  {
    if logs == [] then [] else [ExtractUserMessages(logs[0].callData, decode)] + UserTexts(logs[1..], decode)
  }

  /** performAnalysis, at time `now` over the stored rows. */
  function PerformAnalysis(rows: seq<LogRow>, memberId: string, now: Timestamp, decode: Decoder, model: ChatModel): (r: AnalysisResponse)
    ensures LastSevenDays(rows, memberId, now) == [] ==> r == NO_CALLS
    ensures (LastSevenDays(rows, memberId, now) != []
             && IsBlank(Join(UserTexts(LastSevenDays(rows, memberId, now), decode), "\n"))) ==> r == NO_VALID_CONVERSATION
    ensures (LastSevenDays(rows, memberId, now) != []
             && !IsBlank(Join(UserTexts(LastSevenDays(rows, memberId, now), decode), "\n"))) ==>
      r == ParseAiResponse(GetChatResponse(
             [ChatMessage(USER, Some(CONVERSATION_PREFIX + Join(UserTexts(LastSevenDays(rows, memberId, now), decode), "\n")))],
             Some(ANALYSIS_SYSTEM_PROMPT), model))
  {
    var logs := LastSevenDays(rows, memberId, now);
    if logs == [] then NO_CALLS
    else
      var aggregated := Join(UserTexts(logs, decode), "\n");
      if IsBlank(aggregated) then NO_VALID_CONVERSATION
      else ParseAiResponse(GetChatResponse([ChatMessage(USER, Some(CONVERSATION_PREFIX + aggregated))], Some(ANALYSIS_SYSTEM_PROMPT), model))
  }

  /** Lines that are all empty join into a blank text. */
  lemma {:induction false} JoinOfEmptiesIsBlank(xs: seq<string>)
    requires forall i :: 0 <= i < |xs| ==> xs[i] == ""
    ensures IsBlank(Join(xs, "\n"))
  {
    var s := Join(xs, "\n");
    assert forall k :: 0 <= k < |s| ==> s[k] == '\n' by {
      JoinOfEmptiesIsNewlines(xs);
    }
    BlankIffAllTrimmable(s);
  }

  lemma {:induction false} JoinOfEmptiesIsNewlines(xs: seq<string>)
    requires forall i :: 0 <= i < |xs| ==> xs[i] == ""
    ensures forall k :: 0 <= k < |Join(xs, "\n")| ==> Join(xs, "\n")[k] == '\n'
  {
    if |xs| > 1 {
      JoinOfEmptiesIsNewlines(xs[1..]);
    }
  }

  /**
   * When no log in the window holds a user turn (or every transcript is
   * missing or unreadable), the analysis stops before the model is asked:
   * the answer is the same whatever the model would say.
   */
  lemma NoUserSpeechSkipsModel(rows: seq<LogRow>, memberId: string, now: Timestamp, decode: Decoder, m1: ChatModel, m2: ChatModel)
    requires forall i :: 0 <= i < |LastSevenDays(rows, memberId, now)| ==>
      ExtractUserMessages(LastSevenDays(rows, memberId, now)[i].callData, decode) == ""
    ensures PerformAnalysis(rows, memberId, now, decode, m1) == PerformAnalysis(rows, memberId, now, decode, m2)
    ensures PerformAnalysis(rows, memberId, now, decode, m1) in {NO_CALLS, NO_VALID_CONVERSATION}
  {
    var logs := LastSevenDays(rows, memberId, now);
    JoinOfEmptiesIsBlank(UserTexts(logs, decode));
  }

  /**
   * The same, stated over the transcripts: when every readable transcript
   * in the window has no User turn, the model is never consulted.
   */
  lemma NoUserTurnSkipsModel(rows: seq<LogRow>, memberId: string, now: Timestamp, decode: Decoder, m1: ChatModel, m2: ChatModel)
    requires forall i :: 0 <= i < |LastSevenDays(rows, memberId, now)| ==>
      ReadTranscript(LastSevenDays(rows, memberId, now)[i].callData, decode).None?
      || UserTurns(ReadTranscript(LastSevenDays(rows, memberId, now)[i].callData, decode).value) == 0
    ensures PerformAnalysis(rows, memberId, now, decode, m1) == PerformAnalysis(rows, memberId, now, decode, m2)
    ensures PerformAnalysis(rows, memberId, now, decode, m1) in {NO_CALLS, NO_VALID_CONVERSATION}
  {
    var logs := LastSevenDays(rows, memberId, now);
    forall i | 0 <= i < |logs|
      ensures ExtractUserMessages(logs[i].callData, decode) == ""
    {
      var t := ReadTranscript(logs[i].callData, decode);
      if t.Some? {
        NoUserTurnsNoText(t.value);
      }
    }
    NoUserSpeechSkipsModel(rows, memberId, now, decode, m1, m2);
  }

  /**
   * saveKeywords: the analysis as JSON into the member's keyword row. A
   * serialisation failure is swallowed and writes nothing; a missing row is
   * reported only after serialisation succeeded.
   */
  method SaveKeywords(db: Database, memberId: string, response: AnalysisResponse, encode: AnalysisEncoder)
    returns (r: Result<(), ServiceError>)
    modifies db
    ensures encode(response).None? ==> r.Ok? && db.keywords == old(db.keywords)
    ensures encode(response).Some? && memberId in old(db.keywords) ==>
      r.Ok? && db.keywords == old(db.keywords)[memberId := encode(response)]
    ensures encode(response).Some? && memberId !in old(db.keywords) ==>
      r == Err(EntityNotFound("MemberKeyword not found for memberId: " + memberId)) && db.keywords == old(db.keywords)
    ensures db.members == old(db.members) && db.statusTags == old(db.statusTags)
    ensures db.callLogs == old(db.callLogs) && db.schedules == old(db.schedules)
    ensures db.nextScheduleId == old(db.nextScheduleId)
  {
    var json := encode(response);
    if json.None? {
      return Ok(());
    }
    if memberId in db.keywords {
      db.keywords := db.keywords[memberId := json];
      r := Ok(());
    } else {
      r := Err(EntityNotFound("MemberKeyword not found for memberId: " + memberId));
    }
  }
}
