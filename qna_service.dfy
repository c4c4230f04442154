/**
 * QnaService: the conversation state machine of one phone call. Each call id
 * has an in-memory transcript; every recognised utterance either ends the
 * call (silence, the hang-up word, or the tenth user turn) or is answered by
 * the chat model and stored. Ending a call writes the transcript and the
 * final status into the call's CallLog row and forgets the transcript.
 */
module Qna {
  import opened Wrappers
  import opened Text
  import opened Chat
  import opened OpenAi
  import opened CallLogs
  import opened Store
  import opened Twilio

  /** The number of user turns after which the call is ended. */
  const MAX_TURNS: nat := 10
  /** An utterance containing this word ends the call at the caller's request. */
  const HANGUP_KEYWORD: string := "종료"
  const FIRST_QUESTION: string := "안녕하세요, AI 상담가입니다. 오늘 어떤 이야기를 나누고 싶으신가요?"
  const FINAL_MESSAGE: string := "오늘 함께 이야기 나눌 수 있어서 의미 있는 시간이었습니다. 편안한 하루 보내시고, 다음에 또 뵙겠습니다."
  const TIMEOUT_MESSAGE: string := "응답이 없어 통화를 종료합니다."
  const HANGUP_MESSAGE: string := "요청에 따라 통화를 종료합니다."
  /** What is stored instead of the transcript when it cannot be serialised. */
  const SERIALIZATION_ERROR: string := "{\"error\": \"Failed to process conversation data.\"}"

  /** The greeting a fresh session holds. */
  function Greeting(): ChatMessage {
    ChatMessage(AI, Some(FIRST_QUESTION))
  }

  /** The caller's utterance as a transcript entry. */
  function UserMessage(speech: string): ChatMessage {
    ChatMessage(USER, Some(speech))
  }

  /** The transcript of a call, or a fresh empty one (getOrDefault). */
  function SessionOf(storage: map<string, seq<ChatMessage>>, callSid: string): seq<ChatMessage> {
    if callSid in storage then storage[callSid] else []
  }

  /** A stored session ends with an AI turn and has not reached the turn limit. */
  predicate SessionShaped(h: seq<ChatMessage>) {
    h != [] && h[|h| - 1].speaker == AI && UserTurns(h) < MAX_TURNS
  }

  /**
   * The call data and status that finalising a transcript writes: the JSON
   * and the requested status, or the error JSON and FAILED when the
   * transcript cannot be serialised.
   */
  function Outcome(history: seq<ChatMessage>, status: CallStatus, encode: Encoder): (r: (Option<string>, CallStatus))
    ensures encode(history).Some? ==> r == (encode(history), status)
    ensures encode(history).None? ==> r == (Some(SERIALIZATION_ERROR), FAILED)
  {
    match encode(history)
    case Some(json) => (Some(json), status)
    case None => (Some(SERIALIZATION_ERROR), FAILED)
  }

  /**
   * The call_log rows after finalising `callSid`: nothing changes without a
   * session or without a row carrying that id; otherwise that row gets the
   * outcome of the session's transcript.
   */
  function Finalized(rows: seq<LogRow>, storage: map<string, seq<ChatMessage>>, callSid: string,
                     status: CallStatus, encode: Encoder): (r: seq<LogRow>)
    ensures |r| == |rows|
  {
    if callSid !in storage then rows
    else match FindBySid(rows, callSid)
      case None => rows
      case Some(k) =>
        var out := Outcome(storage[callSid], status, encode);
        rows[k := rows[k].(callData := out.0, status := out.1)]
  }

  /**
   * Finalising writes exactly one row, the one carrying the call id: its
   * transcript and status become the outcome, and every other row is as it was.
   */
  lemma FinalizeWritesOnlyTheCall(rows: seq<LogRow>, storage: map<string, seq<ChatMessage>>, callSid: string,
                                  status: CallStatus, encode: Encoder, k: nat)
    requires SidsUnique(rows) && callSid in storage
    requires k < |rows| && rows[k].callSid == Some(callSid)
    ensures Finalized(rows, storage, callSid, status, encode)[k]
         == rows[k].(callData := Outcome(storage[callSid], status, encode).0, status := Outcome(storage[callSid], status, encode).1)
    ensures forall i :: 0 <= i < |rows| && i != k ==> Finalized(rows, storage, callSid, status, encode)[i] == rows[i]
  {
    FindBySidIsTheRow(rows, callSid, k);
  }

  /**
   * Finalising never touches the fixed columns or the provider call ids, so
   * the unique constraint on call ids still holds.
   */
  lemma FinalizeKeepsIdentity(rows: seq<LogRow>, storage: map<string, seq<ChatMessage>>, callSid: string,
                              status: CallStatus, encode: Encoder)
    requires SidsUnique(rows)
    ensures var r := Finalized(rows, storage, callSid, status, encode);
      SidsUnique(r)
      && forall i :: 0 <= i < |rows| ==>
           r[i].callSid == rows[i].callSid && r[i].member == rows[i].member
           && r[i].callType == rows[i].callType && r[i].requestedAt == rows[i].requestedAt
  {
    var r := Finalized(rows, storage, callSid, status, encode);
    assert forall i :: 0 <= i < |rows| ==> r[i].callSid == rows[i].callSid;
  }

  /** Finalising a second time, once the session is gone, changes nothing. */
  lemma FinalizeTwiceIsOnce(rows: seq<LogRow>, storage: map<string, seq<ChatMessage>>, callSid: string,
                            first: CallStatus, second: CallStatus, encode: Encoder)
    ensures Finalized(Finalized(rows, storage, callSid, first, encode), storage - {callSid}, callSid, second, encode)
         == Finalized(rows, storage, callSid, first, encode)
  {
  }

  /**
   * With a codec that reads back what it writes, the stored call data of a
   * finalised call is exactly the session transcript.
   */
  lemma SavedTranscriptReadsBack(rows: seq<LogRow>, storage: map<string, seq<ChatMessage>>, callSid: string,
                                 status: CallStatus, encode: Encoder, decode: Decoder, k: nat)
    requires forall h :: encode(h).Some? ==> decode(encode(h).value) == Some(h)
    requires SidsUnique(rows) && callSid in storage
    requires k < |rows| && rows[k].callSid == Some(callSid)
    requires encode(storage[callSid]).Some?
    ensures Finalized(rows, storage, callSid, status, encode)[k].callData.Some?
    ensures decode(Finalized(rows, storage, callSid, status, encode)[k].callData.value) == Some(storage[callSid])
    ensures Finalized(rows, storage, callSid, status, encode)[k].status == status
  {
    FinalizeWritesOnlyTheCall(rows, storage, callSid, status, encode, k);
  }

  /** A user message adds one user turn; an AI message adds none. */
  lemma TurnsAfterExchange(h: seq<ChatMessage>, speech: string, answer: Option<string>)
    ensures UserTurns(h + [UserMessage(speech)]) == UserTurns(h) + 1
    ensures UserTurns(h + [UserMessage(speech)] + [ChatMessage(AI, answer)]) == UserTurns(h) + 1
  {
    UserTurnsAppend(h, UserMessage(speech));
    UserTurnsAppend(h + [UserMessage(speech)], ChatMessage(AI, answer));
    AiIsNotUser(ChatMessage(AI, answer));
  }

  /** The greeting holds no user turn. */
  lemma GreetingShaped()
    ensures SessionShaped([Greeting()])
  {
    UserTurnsAppend([], Greeting());
    AiIsNotUser(Greeting());
    assert [] + [Greeting()] == [Greeting()];
  }

  /** Rewrite the transcript and status of the k-th call log: no other row and no call id changes. */
  method RewriteLog(db: Database, k: nat, callData: Option<string>, status: CallStatus)
    requires db.Valid() && k < |db.callLogs|
    modifies db.callLogs[k]
    ensures db.Valid()
    ensures db.LogRows() == old(db.LogRows())[k := old(db.LogRows())[k].(callData := callData, status := status)]
  {
    ghost var rows0 := db.LogRows();
    RowsAt(db.callLogs);
    var log := db.callLogs[k];
    log.SetCallData(callData);
    log.SetStatus(status);
    RowsAt(db.callLogs);
    ghost var rows1 := db.LogRows();
    forall i | 0 <= i < |rows1| && i != k
      ensures rows1[i] == rows0[i]
    {
      assert db.callLogs[i] != log;
    }
    assert rows1 == rows0[k := rows0[k].(callData := callData, status := status)];
    assert forall i :: 0 <= i < |rows1| ==> rows1[i].callSid == rows0[i].callSid;
  }

  class QnaService {
    /** callSid -> the transcript of the call in progress. */
    var conversationStorage: map<string, seq<ChatMessage>>
    /** Every transcript sent to the chat model, in order. */
    var requests: seq<seq<ChatMessage>>
    const db: Database
    const model: ChatModel
    const encode: Encoder

    constructor (db: Database, model: ChatModel, encode: Encoder)
      ensures conversationStorage == map[] && requests == []
      ensures this.db == db && this.model == model && this.encode == encode
      ensures Valid()
    {
      conversationStorage := map[];
      requests := [];
      this.db := db;
      this.model := model;
      this.encode := encode;
    }

    /** Every stored session ends with an AI turn and has fewer than MAX_TURNS user turns. */
    predicate Valid()
      reads this
    {
      forall sid :: sid in conversationStorage ==> SessionShaped(conversationStorage[sid])
    }

    /** startSurvey: the call's session becomes the greeting alone, and the greeting is said. */
    method StartSurvey(callSid: string, baseUrl: string) returns (reply: Reply)
      requires Valid()
      modifies this
      ensures Valid()
      ensures conversationStorage == old(conversationStorage)[callSid := [Greeting()]]
      ensures requests == old(requests)
      ensures reply == GatherReply(Some(FIRST_QUESTION), baseUrl)
    {
      GreetingShaped();
      conversationStorage := conversationStorage[callSid := [Greeting()]];
      reply := GatherReply(Some(FIRST_QUESTION), baseUrl);
    }

    /**
     * finalizeAndSaveCallLog: without a session nothing happens; otherwise
     * the call's row (if any) gets the transcript and status, and the
     * session is removed either way.
     */
    method FinalizeAndSaveCallLog(callSid: string, finalStatus: CallStatus)
      requires db.Valid()
      modifies this, db.callLogs
      ensures db.Valid()
      ensures conversationStorage == old(conversationStorage) - {callSid}
      ensures requests == old(requests)
      ensures db.LogRows() == Finalized(old(db.LogRows()), old(conversationStorage), callSid, finalStatus, encode)
    {
      if callSid !in conversationStorage {
        return;
      }
      ghost var rows0 := db.LogRows();
      ghost var storage0 := conversationStorage;
      var history := conversationStorage[callSid];
      var k := FindBySid(db.LogRows(), callSid);
      // The session is dropped first: the two writes touch disjoint state.
      conversationStorage := conversationStorage - {callSid};
      if k.Some? {
        var out := Outcome(history, finalStatus, encode);
        RewriteLog(db, k.value, out.0, out.1);
        assert db.LogRows() == rows0[k.value := rows0[k.value].(callData := out.0, status := out.1)];
      }
      assert db.LogRows() == Finalized(rows0, storage0, callSid, finalStatus, encode);
    }

    /** The model's answer to the transcript is stored after it and said. */
    method AskNextQuestion(callSid: string, history: seq<ChatMessage>, baseUrl: string) returns (reply: Reply)
      requires Valid() && UserTurns(history) < MAX_TURNS
      modifies this
      ensures Valid()
      ensures reply == GatherReply(GetChatResponseForHistory(history, model), baseUrl)
      ensures requests == old(requests) + [history]
      ensures conversationStorage == old(conversationStorage)[callSid := history + [ChatMessage(AI, GetChatResponseForHistory(history, model))]]
    {
      var nextQuestion := GetChatResponseForHistory(history, model);
      UserTurnsAppend(history, ChatMessage(AI, nextQuestion));
      AiIsNotUser(ChatMessage(AI, nextQuestion));
      requests := requests + [history];
      conversationStorage := conversationStorage[callSid := history + [ChatMessage(AI, nextQuestion)]];
      reply := GatherReply(nextQuestion, baseUrl);
    }

    /**
     * processSurveyResponse: silence ends the call as FAILED, the hang-up
     * word ends it as COMPLETED, and anything else is one more turn.
     */
    method ProcessSurveyResponse(callSid: string, speech: Option<string>, baseUrl: string) returns (reply: Reply)
      requires Valid() && db.Valid()
      modifies this, db.callLogs
      ensures Valid() && db.Valid()
      // silence: FAILED, nothing appended, the model is not asked
      ensures !HasText(speech) ==>
        reply == Hangup(TIMEOUT_MESSAGE) && requests == old(requests)
        && conversationStorage == old(conversationStorage) - {callSid}
        && db.LogRows() == Finalized(old(db.LogRows()), old(conversationStorage), callSid, FAILED, encode)
      // the hang-up word: COMPLETED, the utterance is not appended, the model is not asked
      ensures HasText(speech) && Contains(speech.value, HANGUP_KEYWORD) ==>
        reply == Hangup(HANGUP_MESSAGE) && requests == old(requests)
        && conversationStorage == old(conversationStorage) - {callSid}
        && db.LogRows() == Finalized(old(db.LogRows()), old(conversationStorage), callSid, COMPLETED, encode)
      ensures HasText(speech) && !Contains(speech.value, HANGUP_KEYWORD) ==>
        TurnTaken(old(conversationStorage), old(requests), old(db.LogRows()), callSid, speech.value, baseUrl,
                  conversationStorage, requests, db.LogRows(), reply)
    {
      if !HasText(speech) {
        FinalizeAndSaveCallLog(callSid, FAILED);
        return Hangup(TIMEOUT_MESSAGE);
      }
      if Contains(speech.value, HANGUP_KEYWORD) {
        FinalizeAndSaveCallLog(callSid, COMPLETED);
        return Hangup(HANGUP_MESSAGE);
      }
      reply := TakeTurn(callSid, speech.value, baseUrl);
    }

    /**
     * What one more turn does, from the old storage, model log and rows to
     * the new ones: the utterance is appended; below MAX_TURNS user turns
     * the model's answer to that transcript is appended, stored and said;
     * at MAX_TURNS (only reachable from a stored session with one turn to
     * go) the stored session takes the utterance and the call ends as
     * COMPLETED without asking the model.
     */
    ghost predicate TurnTaken(storage0: map<string, seq<ChatMessage>>, requests0: seq<seq<ChatMessage>>, rows0: seq<LogRow>,
                              callSid: string, said: string, baseUrl: string,
                              storage: map<string, seq<ChatMessage>>, requests: seq<seq<ChatMessage>>, rows: seq<LogRow>, reply: Reply)
    {
      var history := SessionOf(storage0, callSid) + [UserMessage(said)];
      if UserTurns(history) < MAX_TURNS then
        var answer := GetChatResponseForHistory(history, model);
        reply == GatherReply(answer, baseUrl) && requests == requests0 + [history]
        && storage == storage0[callSid := history + [ChatMessage(AI, answer)]]
        && rows == rows0
      else
        callSid in storage0 && UserTurns(storage0[callSid]) == MAX_TURNS - 1
        && reply == Hangup(FINAL_MESSAGE) && requests == requests0
        && storage == storage0 - {callSid}
        && rows == Finalized(rows0, storage0[callSid := history], callSid, COMPLETED, encode)
    }

    /** One more turn with a non-blank utterance that is not a hang-up request. */
    method TakeTurn(callSid: string, said: string, baseUrl: string) returns (reply: Reply)
      requires Valid() && db.Valid()
      modifies this, db.callLogs
      ensures Valid() && db.Valid()
      ensures TurnTaken(old(conversationStorage), old(requests), old(db.LogRows()), callSid, said, baseUrl,
                        conversationStorage, requests, db.LogRows(), reply)
    {
      var history := SessionOf(conversationStorage, callSid) + [UserMessage(said)];
      TurnsAfterExchange(SessionOf(conversationStorage, callSid), said, None);
      var userTurns := UserTurns(history);
      if userTurns < MAX_TURNS {
        reply := AskNextQuestion(callSid, history, baseUrl);
      } else {
        reply := EndAtTurnLimit(callSid, history);
      }
    }

    /**
     * The turn limit is reached: the appended list is the stored one when
     * the session exists, so the saved transcript ends with the utterance.
     */
    method EndAtTurnLimit(callSid: string, history: seq<ChatMessage>) returns (reply: Reply)
      requires Valid() && db.Valid()
      modifies this, db.callLogs
      ensures Valid() && db.Valid()
      ensures reply == Hangup(FINAL_MESSAGE) && requests == old(requests)
      ensures conversationStorage == old(conversationStorage) - {callSid}
      ensures callSid in old(conversationStorage) ==>
        db.LogRows() == Finalized(old(db.LogRows()), old(conversationStorage)[callSid := history], callSid, COMPLETED, encode)
    {
      if callSid in conversationStorage {
        conversationStorage := conversationStorage[callSid := history];
      }
      FinalizeAndSaveCallLog(callSid, COMPLETED);
      reply := Hangup(FINAL_MESSAGE);
    }
  }
}
