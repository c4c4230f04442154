/**
 * MemberStatusAnalysisService: read the member's calls of the last seven
 * days, write every stored transcript out as "speaker: message" lines, ask
 * the chat model for one of three status tags, and store the tag in the
 * member's status row. Without calls or without any readable transcript the
 * tag is "안전" and the model is not asked; an answer outside the three
 * tags becomes "확인 필요".
 */
module StatusAnalysis {
  import opened Wrappers
  import opened Text
  import opened Chat
  import opened OpenAi
  import opened CallLogs
  import opened Store

  const SAFE: string := "안전"
  const CAUTION: string := "주의"
  const NEEDS_CHECK: string := "확인 필요"

  /** The only tags ever written. */
  const VALID_STATUSES: set<string> := {SAFE, CAUTION, NEEDS_CHECK}

  /** The text put before the conversation in the one user message sent to the model. */
  const STATUS_REQUEST_PREFIX: string := "다음 대화를 분석하여 사용자의 심리 상태를 판단해주세요:\n"

  const MEMBER_STATUS_SYSTEM_PROMPT: string :=
    "당신은 사용자의 통화 대화를 분석하여 현재 심리 상태를 \"안전\", \"주의\", \"확인 필요\" 중 하나의 태그로 분류하는 전문가입니다.\n"
    + "대화는 사용자(User)와 AI의 상호작용으로 구성됩니다.\n"
    + "각 상태 태그의 기준은 다음과 같습니다:\n"
    + "- \"안전\": 사용자가 긍정적이거나 안정적인 감정을 표현하며, 특별한 우려 사항이 감지되지 않습니다. 일상적인 대화가 주를 이룹니다.\n"
    + "- \"주의\": 사용자가 약간의 외로움, 스트레스, 불안감, 또는 가벼운 부정적인 감정을 표현합니다. 직접적인 위험은 없지만 지속적인 관심이 필요해 보입니다.\n"
    + "- \"확인 필요\": 사용자가 심각한 우울감, 극심한 외로움, 자살 암시, 무기력감, 또는 기타 즉각적인 개입이나 확인이 필요한 심각한 심리적 어려움을 표현합니다.\n"
    + "\n"
    + "분석 결과는 오직 다음 세 가지 단어 중 하나로만 응답해야 합니다: \"안전\", \"주의\", \"확인 필요\".\n"
    + "다른 어떤 추가적인 설명이나 문장 없이 오직 상태 태그 단어 하나만 출력해주세요.\n"

  /** One message as the aggregation writes it (a null message prints as "null"). */
  function MessageLine(m: ChatMessage): string {
    m.speaker + ": " + Shown(m.message) + "\n"
  }

  /** The lines of a whole transcript, in order. */
  function TranscriptText(h: seq<ChatMessage>): string {
    if h == [] then "" else TranscriptText(h[..|h| - 1]) + MessageLine(h[|h| - 1])
  }

  /** What one call log adds: its transcript's lines, or nothing when there is no readable transcript. */
  function LogText(callData: Option<string>, decode: Decoder): string {
    match ReadTranscript(callData, decode)
    case None => ""
    case Some(h) => TranscriptText(h)
  }

  /** The aggregated conversation of a list of logs, in log order. */
  function Aggregated(logs: seq<LogRow>, decode: Decoder): string {
    if logs == [] then "" else Aggregated(logs[..|logs| - 1], decode) + LogText(logs[|logs| - 1].callData, decode)
  }

  /** A message line is never empty, so a transcript writes nothing exactly when it has no messages. */
  lemma {:induction false} TranscriptTextEmptyIff(h: seq<ChatMessage>)
    ensures TranscriptText(h) == "" <==> h == []
  {
    if h != [] {
      assert |MessageLine(h[|h| - 1])| > 0;
    }
  }

  /**
   * The aggregation is empty exactly when no log in the window has a
   * readable, non-empty transcript.
   */
  lemma {:induction false} AggregatedEmptyIff(logs: seq<LogRow>, decode: Decoder)
    ensures Aggregated(logs, decode) == "" <==>
      forall i :: 0 <= i < |logs| ==> ReadTranscript(logs[i].callData, decode) in {None, Some([])}
  {
    if logs != [] {
      var n := |logs| - 1;
      AggregatedEmptyIff(logs[..n], decode);
      var t := ReadTranscript(logs[n].callData, decode);
      if t.Some? {
        TranscriptTextEmptyIff(t.value);
      }
      assert forall i :: 0 <= i < n ==> logs[..n][i] == logs[i];
    }
  }

  /**
   * The aggregation loop: for each log with a readable transcript, one
   * "speaker: message" line per message, logs and messages in order.
   */
  method Aggregate(logs: seq<LogRow>, decode: Decoder) returns (text: string)
    ensures text == Aggregated(logs, decode)
  {
    text := "";
    for i := 0 to |logs|
      invariant text == Aggregated(logs[..i], decode)
    {
      AggregatedStep(logs, i, decode);
      var callData := logs[i].callData;
      if callData.Some? && callData.value != "" {
        match decode(callData.value)
        case None =>
        case Some(history) =>
          text := AppendTranscript(text, history);
      }
    }
    assert logs[..|logs|] == logs;
  }

  /** The inner loop: one line per message of a transcript, appended in order. */
  method AppendTranscript(text: string, history: seq<ChatMessage>) returns (r: string)
    ensures r == text + TranscriptText(history)
  {
    r := text;
    for j := 0 to |history|
      invariant r == text + TranscriptText(history[..j])
    {
      TranscriptTextStep(history, j);
      r := r + MessageLine(history[j]);
    }
    assert history[..|history|] == history;
  }

  lemma AggregatedStep(logs: seq<LogRow>, i: nat, decode: Decoder)
    requires i < |logs|
    ensures Aggregated(logs[..i + 1], decode) == Aggregated(logs[..i], decode) + LogText(logs[i].callData, decode)
  {
    assert logs[..i + 1][..i] == logs[..i];
  }

  lemma TranscriptTextStep(h: seq<ChatMessage>, j: nat)
    requires j < |h|
    ensures TranscriptText(h[..j + 1]) == TranscriptText(h[..j]) + MessageLine(h[j])
  {
    assert h[..j + 1][..j] == h[..j];
  }

  /**
   * The tag taken from the model's answer: the trimmed answer when it is one
   * of the three tags, "확인 필요" for a null, blank or any other answer.
   */
  function ChooseTag(aiResponse: Option<string>): (tag: string)
    ensures tag in VALID_STATUSES
    ensures aiResponse.Some? && Trim(aiResponse.value) in VALID_STATUSES ==> tag == Trim(aiResponse.value)
    ensures aiResponse.None? || Trim(aiResponse.value) !in VALID_STATUSES ==> tag == NEEDS_CHECK
  {
    if aiResponse.Some? && !IsBlank(aiResponse.value) && Trim(aiResponse.value) in VALID_STATUSES then Trim(aiResponse.value)
    else NEEDS_CHECK
  }

  /** An answer that is a tag with surrounding whitespace yields that tag. */
  lemma PaddedTagAccepted(tag: string, pad: string)
    requires tag in VALID_STATUSES
    requires forall i :: 0 <= i < |pad| ==> IsTrimmable(pad[i])
    ensures ChooseTag(Some(pad + tag + pad)) == tag
  {
    PaddedTrim(tag, pad);
  }

  /** Trimming undoes padding on both sides of a text that starts and ends with a visible char. */
  lemma PaddedTrim(tag: string, pad: string)
    requires tag in VALID_STATUSES
    requires forall i :: 0 <= i < |pad| ==> IsTrimmable(pad[i])
    ensures Trim(pad + tag + pad) == tag
  {
    TagIsTrimmed(tag);
    assert (tag + pad)[0] == tag[0];
    PaddedTrimStart(pad, tag + pad);
    assert pad + tag + pad == pad + (tag + pad);
    PaddedTrimEnd(tag, pad);
  }

  /** Each tag starts and ends with a visible char. */
  lemma TagIsTrimmed(tag: string)
    requires tag in VALID_STATUSES
    ensures tag != [] && !IsTrimmable(tag[0]) && !IsTrimmable(tag[|tag| - 1])
  {
    if tag == SAFE {
      assert tag[0] == '안' && tag[|tag| - 1] == '전';
    } else if tag == CAUTION {
      assert tag[0] == '주' && tag[|tag| - 1] == '의';
    } else {
      assert tag[0] == '확' && tag[|tag| - 1] == '요';
    }
  }

  lemma {:induction false} PaddedTrimStart(pad: string, rest: string)
    requires forall i :: 0 <= i < |pad| ==> IsTrimmable(pad[i])
    requires rest != [] && !IsTrimmable(rest[0])
    ensures TrimStart(pad + rest) == rest
  {
    if pad == [] {
      assert pad + rest == rest;
      TrimStartKeepsNonBlank(rest);
    } else {
      assert (pad + rest)[1..] == pad[1..] + rest;
      PaddedTrimStart(pad[1..], rest);
    }
  }

  lemma {:induction false} PaddedTrimEnd(text: string, pad: string)
    requires forall i :: 0 <= i < |pad| ==> IsTrimmable(pad[i])
    requires text != [] && !IsTrimmable(text[|text| - 1])
    ensures TrimEnd(text + pad) == text
  {
    if pad == [] {
      assert text + pad == text;
    } else {
      var n := |pad| - 1;
      assert (text + pad)[..|text + pad| - 1] == text + pad[..n];
      PaddedTrimEnd(text, pad[..n]);
    }
  }

  /**
   * The tag analyzeAndSaveMemberStatus settles on for the rows at time
   * `end`: "안전" without calls in the window or without anything to
   * aggregate, otherwise the tag chosen from the model's answer.
   */
  function StatusFor(rows: seq<LogRow>, memberId: string, end: Timestamp, decode: Decoder, model: ChatModel): (tag: string)
    ensures tag in VALID_STATUSES
  {
    var logs := LastSevenDays(rows, memberId, end);
    if logs == [] then SAFE
    else
      var aggregated := Aggregated(logs, decode);
      if aggregated == "" then SAFE
      else ChooseTag(GetChatResponse([ChatMessage(USER, Some(STATUS_REQUEST_PREFIX + aggregated))], Some(MEMBER_STATUS_SYSTEM_PROMPT), model))
  }

  /**
   * Without a readable, non-empty transcript in the window the tag is
   * "안전" whatever the model would have answered: the model is not asked.
   */
  lemma NothingToReadIsSafe(rows: seq<LogRow>, memberId: string, end: Timestamp, decode: Decoder, m1: ChatModel, m2: ChatModel)
    requires forall i :: 0 <= i < |LastSevenDays(rows, memberId, end)| ==>
      ReadTranscript(LastSevenDays(rows, memberId, end)[i].callData, decode) in {None, Some([])}
    ensures StatusFor(rows, memberId, end, decode, m1) == SAFE
    ensures StatusFor(rows, memberId, end, decode, m2) == SAFE
  {
    AggregatedEmptyIff(LastSevenDays(rows, memberId, end), decode);
  }

  /**
   * With something to read, the tag is exactly the one the model answers
   * (trimmed) when that is a valid tag.
   */
  lemma ModelTagIsStored(rows: seq<LogRow>, memberId: string, end: Timestamp, decode: Decoder, model: ChatModel, k: nat)
    requires k < |LastSevenDays(rows, memberId, end)|
    requires ReadTranscript(LastSevenDays(rows, memberId, end)[k].callData, decode).Some?
    requires ReadTranscript(LastSevenDays(rows, memberId, end)[k].callData, decode).value != []
    ensures var aggregated := Aggregated(LastSevenDays(rows, memberId, end), decode);
      var answer := GetChatResponse([ChatMessage(USER, Some(STATUS_REQUEST_PREFIX + aggregated))], Some(MEMBER_STATUS_SYSTEM_PROMPT), model);
      answer.Some? && Trim(answer.value) in VALID_STATUSES ==> StatusFor(rows, memberId, end, decode, model) == Trim(answer.value)
  {
    AggregatedEmptyIff(LastSevenDays(rows, memberId, end), decode);
  }

  /** updateMemberStatus: the member's status row takes the tag; without a row nothing is written. */
  method UpdateMemberStatus(db: Database, memberId: string, statusTag: string)
    modifies db
    ensures db.statusTags == if memberId in old(db.statusTags) then old(db.statusTags)[memberId := statusTag] else old(db.statusTags)
    ensures db.members == old(db.members) && db.keywords == old(db.keywords)
    ensures db.callLogs == old(db.callLogs) && db.schedules == old(db.schedules)
    ensures db.nextScheduleId == old(db.nextScheduleId)
  {
    if memberId in db.statusTags {
      db.statusTags := db.statusTags[memberId := statusTag];
    }
  }

  /** analyzeAndSaveMemberStatus at `analysisEnd`: the member's status row takes StatusFor. */
  method AnalyzeAndSaveMemberStatus(db: Database, memberId: string, analysisEnd: Timestamp, decode: Decoder, model: ChatModel)
    modifies db
    ensures db.statusTags == if memberId in old(db.statusTags)
      then old(db.statusTags)[memberId := StatusFor(old(db.LogRows()), memberId, analysisEnd, decode, model)]
      else old(db.statusTags)
    ensures db.members == old(db.members) && db.keywords == old(db.keywords)
    ensures db.callLogs == old(db.callLogs) && db.schedules == old(db.schedules)
    ensures db.nextScheduleId == old(db.nextScheduleId)
  {
    var recentCallLogs := LastSevenDays(db.LogRows(), memberId, analysisEnd);
    if recentCallLogs == [] {
      UpdateMemberStatus(db, memberId, SAFE);
      return;
    }
    var aggregated := Aggregate(recentCallLogs, decode);
    if aggregated == "" {
      UpdateMemberStatus(db, memberId, SAFE);
      return;
    }
    var aiResponse := GetChatResponse([ChatMessage(USER, Some(STATUS_REQUEST_PREFIX + aggregated))], Some(MEMBER_STATUS_SYSTEM_PROMPT), model);
    var determinedStatus := ChooseTag(aiResponse);
    UpdateMemberStatus(db, memberId, determinedStatus);
  }
}
