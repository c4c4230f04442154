/**
 * MemberService: registering members, placing manual and automatic calls,
 * creating and changing call schedules, and the two read-only views of a
 * member (the stored analysis and the latest automatic call).
 */
module Members {
  import opened Wrappers
  import opened Text
  import opened CallLogs
  import opened Schedules
  import opened Store
  import opened Twilio
  import opened KeywordAnalysis

  const DUPLICATE_PHONE: string := "이미 등록된 전화번호입니다."
  const MEMBER_NOT_FOUND: string := "해당 ID의 회원을 찾을 수 없습니다: "
  const KEYWORD_NOT_FOUND: string := "해당 ID의 회원 키워드 정보를 찾을 수 없습니다: "
  const SCHEDULE_NOT_FOUND: string := "해당 ID의 스케줄을 찾을 수 없습니다: "
  const NOT_OWNER: string := "해당 스케줄을 변경할 권한이 없습니다."

  /** The keyword row of a new member: an empty JSON array. */
  const INITIAL_KEYWORD: string := "[]"
  /** The status row of a new member. */
  const INITIAL_STATUS: string := "안전"

  const NO_ANALYSIS: AnalysisResponse := AnalysisResponse("분석 데이터 없음", "정보 없음", "아직 분석된 대화 내용이 없습니다.", "해당 없음")
  const UNREADABLE_ANALYSIS: AnalysisResponse :=
    AnalysisResponse("데이터 파싱 오류", "오류", "저장된 분석 데이터를 읽는 중 문제가 발생했습니다.", "오류")

  // ---------------------------------------------------------------------
  // Phone numbers

  predicate IsDigit(c: char) {
    '0' <= c <= '9'
  }

  predicate AllDigits(s: string) {
    forall i :: 0 <= i < |s| ==> IsDigit(s[i])
  }

  /** `replaceAll("[^0-9]", "")`: the digits of s, in order. */
  function DigitsOnly(s: string): (r: string)
    ensures AllDigits(r) && |r| <= |s|
  {
    if s == [] then [] else (if IsDigit(s[0]) then [s[0]] else []) + DigitsOnly(s[1..])
  }

  /** A string of digits passes through unchanged. */
  lemma {:induction false} DigitsOnlyOfDigits(s: string)
    requires AllDigits(s)
    ensures DigitsOnly(s) == s
  {
    if s != [] {
      DigitsOnlyOfDigits(s[1..]);
    }
  }

  /** Removing non-digits works piece by piece. */
  lemma {:induction false} DigitsOnlyConcat(a: string, b: string)
    ensures DigitsOnly(a + b) == DigitsOnly(a) + DigitsOnly(b)
  {
    if a == [] {
      assert a + b == b;
    } else {
      assert (a + b)[0] == a[0];
      assert (a + b)[1..] == a[1..] + b;
      DigitsOnlyConcat(a[1..], b);
    }
  }

  /** formatPhoneNumber: keep the digits, then turn a leading 0 into the +82 country code. */
  function FormatPhoneNumber(phone: string): (r: string)
    ensures r == [] || r[0] != '0'
    ensures AllDigits(r) || (StartsWith(r, "+82") && AllDigits(r[3..]))
  {
    var digits := DigitsOnly(phone);
    if StartsWith(digits, "0") then "+82" + digits[1..] else digits
  }

  /** The national form of a formatted number: "+82" back to the leading 0. */
  function NationalNumber(r: string): string {
    if StartsWith(r, "+82") then "0" + r[3..] else r
  }

  /** Formatting loses nothing but the non-digits: the national form gives the digits back. */
  lemma FormatThenNational(phone: string)
    ensures NationalNumber(FormatPhoneNumber(phone)) == DigitsOnly(phone)
  {
    var digits := DigitsOnly(phone);
    if StartsWith(digits, "0") {
      var r := "+82" + digits[1..];
      assert r[..3] == "+82" && r[3..] == digits[1..];
      assert digits == [digits[0]] + digits[1..];
    } else if |digits| >= 3 {
      assert digits[..3][0] == digits[0];
    }
  }

  /** A separator such as '-' or ' ' anywhere in the number does not change the formatted result. */
  lemma FormatIgnoresSeparator(a: string, c: char, b: string)
    requires !IsDigit(c)
    ensures FormatPhoneNumber(a + [c] + b) == FormatPhoneNumber(a + b)
  {
    DigitsIgnoreSeparator(a, c, b);
  }

  lemma DigitsIgnoreSeparator(a: string, c: char, b: string)
    requires !IsDigit(c)
    ensures DigitsOnly(a + [c] + b) == DigitsOnly(a + b)
  {
    DigitsOnlyConcat(a + [c], b);
    DigitsOnlyConcat(a, [c]);
    DigitsOnlyConcat(a, b);
    assert DigitsOnly([c]) == [];
  }

  /** Formatting is not idempotent: an already formatted number loses its "+". */
  lemma FormatOfFormatted(x: string)
    requires AllDigits(x)
    ensures FormatPhoneNumber("+82" + x) == "82" + x
  {
    DigitsOnlyConcat("+82", x);
    DigitsOnlyOfDigits(x);
    assert DigitsOnly("+82") == "82" by {
      assert "+82"[1..] == "82";
      DigitsOnlyOfDigits("82");
    }
    assert ("82" + x)[..1] != "0" by {
      assert ("82" + x)[0] == '8';
    }
  }

  // ---------------------------------------------------------------------
  // Members

  /** The position of the first draw that is not a member id yet (the do/while id loop). */
  function FirstFree(draws: seq<string>, taken: map<string, string>): (i: nat)
    requires exists k :: 0 <= k < |draws| && draws[k] !in taken
    ensures i < |draws| && draws[i] !in taken
    ensures forall k :: 0 <= k < i ==> draws[k] in taken
  {
    if draws[0] !in taken then 0 else 1 + FirstFree(draws[1..], taken)
  }

  /**
   * createMember: reject a phone number already registered; otherwise draw
   * ids until one is free and store the member with keyword "[]" and status
   * "안전". `draws` are the successive random ids.
   */
  method CreateMember(db: Database, phone: string, draws: seq<string>) returns (r: Result<string, ServiceError>)
    requires db.Valid()
    requires exists k :: 0 <= k < |draws| && draws[k] !in db.members
    modifies db
    ensures db.Valid()
    ensures PhoneTaken(old(db.members), phone) ==>
      r == Err(IllegalArgument(DUPLICATE_PHONE))
      && db.members == old(db.members) && db.keywords == old(db.keywords) && db.statusTags == old(db.statusTags)
    ensures !PhoneTaken(old(db.members), phone) ==>
      var id := draws[FirstFree(draws, old(db.members))];
      r == Ok(id) && id !in old(db.members)
      && db.members == old(db.members)[id := phone]
      && db.keywords == old(db.keywords)[id := Some(INITIAL_KEYWORD)]
      && db.statusTags == old(db.statusTags)[id := INITIAL_STATUS]
    ensures db.callLogs == old(db.callLogs) && db.schedules == old(db.schedules)
    ensures db.nextScheduleId == old(db.nextScheduleId)
  {
    if PhoneTaken(db.members, phone) {
      return Err(IllegalArgument(DUPLICATE_PHONE));
    }
    var newId := DrawFreeId(db.members, draws);
    SaveNewMember(db, newId, phone);
    r := Ok(newId);
  }

  /** Save the member with its initial keyword and status rows. */
  method SaveNewMember(db: Database, id: string, phone: string)
    requires db.Valid() && id !in db.members && !PhoneTaken(db.members, phone)
    modifies db
    ensures db.Valid()
    ensures db.members == old(db.members)[id := phone]
    ensures db.keywords == old(db.keywords)[id := Some(INITIAL_KEYWORD)]
    ensures db.statusTags == old(db.statusTags)[id := INITIAL_STATUS]
    ensures db.callLogs == old(db.callLogs) && db.schedules == old(db.schedules)
    ensures db.nextScheduleId == old(db.nextScheduleId)
  {
    AddMemberKeepsConsistent(db.members, db.keywords, db.statusTags, db.LogRows(), ScheduleRows(db.schedules), db.nextScheduleId, id, phone);
    db.members := db.members[id := phone];
    db.keywords := db.keywords[id := Some(INITIAL_KEYWORD)];
    db.statusTags := db.statusTags[id := INITIAL_STATUS];
  }

  /** A fresh id with a phone number nobody has keeps the rows consistent. */
  lemma AddMemberKeepsConsistent(members: map<string, string>, keywords: map<string, Option<string>>, statusTags: map<string, string>,
                                 logRows: seq<LogRow>, scheduleRows: seq<ScheduleRow>, nextId: int, id: string, phone: string)
    requires Consistent(members, keywords, statusTags, logRows, scheduleRows, nextId)
    requires !PhoneTaken(members, phone) && id !in members
    ensures Consistent(members[id := phone], keywords[id := Some(INITIAL_KEYWORD)], statusTags[id := INITIAL_STATUS],
                       logRows, scheduleRows, nextId)
  {
  }

  /** The do/while loop of createMember: draw ids until one is not taken. */
  method DrawFreeId(taken: map<string, string>, draws: seq<string>) returns (id: string)
    requires exists k :: 0 <= k < |draws| && draws[k] !in taken
    ensures id == draws[FirstFree(draws, taken)] && id !in taken
  {
    var i := 0;
    id := draws[i];
    while id in taken
      invariant 0 <= i < |draws| && id == draws[i]
      invariant forall k :: 0 <= k < i ==> draws[k] in taken
      decreases |draws| - i
    {
      i := i + 1;
      id := draws[i];
    }
    FirstFreeIsFirst(draws, taken, i);
  }

  lemma {:induction false} FirstFreeIsFirst(draws: seq<string>, taken: map<string, string>, i: nat)
    requires i < |draws| && draws[i] !in taken
    requires forall k :: 0 <= k < i ==> draws[k] in taken
    ensures FirstFree(draws, taken) == i
  {
    if i > 0 {
      FirstFreeIsFirst(draws[1..], taken, i - 1);
    }
  }

  /** A stored analysis is absent when the row is null, blank or the initial "[]". */
  predicate NoAnalysisYet(json: Option<string>) {
    json.None? || IsBlank(json.value) || json.value == INITIAL_KEYWORD
  }

  /** getMemberAnalysis over the keyword rows. */
  function MemberAnalysis(keywords: map<string, Option<string>>, memberId: string, decode: AnalysisDecoder): (r: Result<AnalysisResponse, ServiceError>)
    ensures memberId !in keywords <==> r == Err(EntityNotFound(KEYWORD_NOT_FOUND + memberId))
    ensures memberId in keywords && NoAnalysisYet(keywords[memberId]) ==> r == Ok(NO_ANALYSIS)
    ensures memberId in keywords && !NoAnalysisYet(keywords[memberId]) ==>
      r == Ok(decode(keywords[memberId].value).GetOr(UNREADABLE_ANALYSIS))
  {
    if memberId !in keywords then Err(EntityNotFound(KEYWORD_NOT_FOUND + memberId))
    else
      var json := keywords[memberId];
      if NoAnalysisYet(json) then Ok(NO_ANALYSIS)
      else Ok(decode(json.value).GetOr(UNREADABLE_ANALYSIS))
  }

  /** A member just registered has no analysis yet, whatever the decoder would make of "[]". */
  lemma NewMemberHasNoAnalysis(keywords: map<string, Option<string>>, id: string, decode: AnalysisDecoder)
    ensures MemberAnalysis(keywords[id := Some(INITIAL_KEYWORD)], id, decode) == Ok(NO_ANALYSIS)
  {
  }

  /**
   * What saveKeywords stores is what getMemberAnalysis reads back, when the
   * JSON codec round-trips and the stored text is neither blank nor "[]".
   */
  lemma SavedAnalysisReadsBack(keywords: map<string, Option<string>>, id: string, a: AnalysisResponse,
                               encode: AnalysisEncoder, decode: AnalysisDecoder)
    requires encode(a).Some? && decode(encode(a).value) == Some(a)
    requires !IsBlank(encode(a).value) && encode(a).value != INITIAL_KEYWORD
    ensures MemberAnalysis(keywords[id := encode(a)], id, decode) == Ok(a)
  {
  }

  // ---------------------------------------------------------------------
  // Latest automatic call

  /** LatestCallStatusResponse. */
  datatype LatestCallStatus = LatestCallStatus(callResult: string, time: string)

  const NO_RECORD: LatestCallStatus := LatestCallStatus("기록 없음", "")
  const DONE: string := "완료"
  const MISSED: string := "부재중"

  predicate IsAutoCallOf(row: LogRow, memberId: string) {
    row.member == memberId && row.callType == AUTO
  }

  /** The member's most recent automatic call: the latest requestedAt, the first in store order among equals. */
  function LatestAutoCall(rows: seq<LogRow>, memberId: string): (r: Option<nat>)
    ensures r.None? <==> forall i :: 0 <= i < |rows| ==> !IsAutoCallOf(rows[i], memberId)
    ensures r.Some? ==> r.value < |rows| && IsAutoCallOf(rows[r.value], memberId)
    ensures r.Some? ==> forall i :: 0 <= i < |rows| && IsAutoCallOf(rows[i], memberId) ==>
      rows[i].requestedAt <= rows[r.value].requestedAt
  {
    if rows == [] then None
    else
      var rest := LatestAutoCall(rows[..|rows| - 1], memberId);
      var last := rows[|rows| - 1];
      if IsAutoCallOf(last, memberId) && (rest.None? || last.requestedAt > rows[rest.value].requestedAt) then Some(|rows| - 1)
      else rest
  }

  /** The value of a decimal digit. */
  function DigitValue(c: char): int {
    c as int - '0' as int
  }

  /** Two decimal digits with a leading zero. */
  function TwoDigits(n: int): (r: string)
    requires 0 <= n < 100
    ensures |r| == 2 && DigitValue(r[0]) * 10 + DigitValue(r[1]) == n
  {
    [DigitChar(n / 10), DigitChar(n % 10)]
  }

  /** `format("HH:mm")` of a timestamp: the hour and minute of its day. */
  function HourMinute(t: Timestamp): (r: string)
    ensures |r| == 5 && r[2] == ':'
    ensures DigitValue(r[0]) * 10 + DigitValue(r[1]) == (t % SECONDS_PER_DAY) / 3600
    ensures DigitValue(r[3]) * 10 + DigitValue(r[4]) == ((t % SECONDS_PER_DAY) % 3600) / 60
  {
    var ofDay := t % SECONDS_PER_DAY;
    TwoDigits(ofDay / 3600) + ":" + TwoDigits((ofDay % 3600) / 60)
  }

  /** getLatestAutoCallStatus. */
  function LatestAutoCallStatus(rows: seq<LogRow>, memberId: string): (r: LatestCallStatus)
    ensures LatestAutoCall(rows, memberId).None? ==> r == NO_RECORD
    ensures LatestAutoCall(rows, memberId).Some? ==>
      var row := rows[LatestAutoCall(rows, memberId).value];
      r.callResult == (if row.status == COMPLETED then DONE else MISSED) && r.time == HourMinute(row.requestedAt)
  {
    match LatestAutoCall(rows, memberId)
    case None => NO_RECORD
    case Some(k) => LatestCallStatus(if rows[k].status == COMPLETED then DONE else MISSED, HourMinute(rows[k].requestedAt))
  }

  /**
   * The display is one of three words, and "완료" exactly when the latest
   * automatic call completed; a call still queued or failed shows as missed.
   */
  lemma LatestStatusWords(rows: seq<LogRow>, memberId: string)
    ensures LatestAutoCallStatus(rows, memberId).callResult in {NO_RECORD.callResult, DONE, MISSED}
    ensures LatestAutoCallStatus(rows, memberId).callResult == DONE <==>
      (LatestAutoCall(rows, memberId).Some? && rows[LatestAutoCall(rows, memberId).value].status == COMPLETED)
    ensures LatestAutoCallStatus(rows, memberId) == NO_RECORD <==>
      forall i :: 0 <= i < |rows| ==> !IsAutoCallOf(rows[i], memberId)
  {
  }

  // ---------------------------------------------------------------------
  // Placing calls

  /** The call id the new record keeps: the provider's answer, unless there is none or another record has it. */
  function LinkedSid(answer: Option<string>, rows: seq<LogRow>): (r: Option<string>)
    ensures r.Some? ==> r == answer && FindBySid(rows, r.value).None?
    ensures answer.Some? && FindBySid(rows, answer.value).None? ==> r == answer
  {
    if answer.Some? && FindBySid(rows, answer.value).None? then answer else None
  }

  /** The call records and the provider's requests together. */
  datatype CallState = CallState(rows: seq<LogRow>, placed: seq<(string, string)>)

  /**
   * The effect of initiateCall: a QUEUED record of the given type at `now`,
   * one request to the formatted number, and the answer's id on the record.
   */
  function Dispatch(st: CallState, answers: nat -> Option<string>, phone: string, memberId: string,
                    callType: CallType, baseUrl: string, now: Timestamp): CallState
  {
    var sid := LinkedSid(answers(|st.placed|), st.rows);
    CallState(st.rows + [LogRow(sid, memberId, callType, QUEUED, now, None, None, None)],
              st.placed + [(FormatPhoneNumber(phone), baseUrl + WELCOME_PATH)])
  }

  /** A dispatch keeps every call id unique. */
  lemma DispatchKeepsSidsUnique(st: CallState, answers: nat -> Option<string>, phone: string, memberId: string,
                                callType: CallType, baseUrl: string, now: Timestamp)
    requires SidsUnique(st.rows)
    ensures SidsUnique(Dispatch(st, answers, phone, memberId, callType, baseUrl, now).rows)
  {
    var rows := Dispatch(st, answers, phone, memberId, callType, baseUrl, now).rows;
    var n := |st.rows|;
    forall i, j | 0 <= i < |rows| && 0 <= j < |rows| && i != j && rows[i].callSid.Some?
      ensures rows[i].callSid != rows[j].callSid
    {
      if i == n {
        assert rows[j] == st.rows[j];
      } else if j == n {
        assert rows[i] == st.rows[i];
      }
    }
  }

  /**
   * initiateCall: save a QUEUED record, ask the provider to call the member's
   * formatted number, and store the returned call id on the record. When
   * the provider fails, or its id is already on another record, the record
   * stays QUEUED with no id and the failure is returned.
   */
  method InitiateCall(db: Database, provider: Provider, memberId: string, callType: CallType, baseUrl: string, now: Timestamp)
    returns (r: Result<nat, ServiceError>)
    requires db.Valid() && memberId in db.members
    modifies db, provider
    ensures db.members == old(db.members) && db.keywords == old(db.keywords) && db.statusTags == old(db.statusTags)
    ensures db.schedules == old(db.schedules) && db.nextScheduleId == old(db.nextScheduleId)
    ensures db.Valid()
    ensures CallState(db.LogRows(), provider.placed)
         == Dispatch(CallState(old(db.LogRows()), old(provider.placed)), provider.answers, db.members[memberId], memberId, callType, baseUrl, now)
    ensures r.Ok? <==> LinkedSid(provider.answers(|old(provider.placed)|), old(db.LogRows())).Some?
    ensures r.Ok? ==> r.value == |old(db.callLogs)|
    ensures r.Err? ==> r.error == (if provider.answers(|old(provider.placed)|).None? then ProviderFailure else ConstraintViolation)
  {
    ghost var st0 := CallState(db.LogRows(), provider.placed);
    var logs0 := db.callLogs;
    var log := new CallLog(memberId, callType, QUEUED, now);
    var phone := db.members[memberId];
    var answer := provider.MakeCall(FormatPhoneNumber(phone), baseUrl);
    var sid := LinkedSid(answer, Rows(logs0));
    log.SetCallSid(sid);
    assert Rows(logs0) == st0.rows;
    DispatchKeepsSidsUnique(st0, provider.answers, phone, memberId, callType, baseUrl, now);
    SaveLog(db, log);
    if sid.Some? {
      r := Ok(|logs0|);
    } else if answer.None? {
      r := Err(ProviderFailure);
    } else {
      r := Err(ConstraintViolation);
    }
  }

  /** callLogRepository.save of a new record: it is appended to the table. */
  method SaveLog(db: Database, log: CallLog)
    requires db.Valid() && log !in db.callLogs && SidsUnique(db.LogRows() + [log.Row()])
    modifies db
    ensures db.Valid()
    ensures db.callLogs == old(db.callLogs) + [log]
    ensures db.LogRows() == old(db.LogRows()) + [log.Row()]
    ensures db.members == old(db.members) && db.keywords == old(db.keywords) && db.statusTags == old(db.statusTags)
    ensures db.schedules == old(db.schedules) && db.nextScheduleId == old(db.nextScheduleId)
  {
    ghost var scheduleRows := ScheduleRows(db.schedules);
    var logs0 := db.callLogs;
    db.callLogs := logs0 + [log];
    assert ScheduleRows(db.schedules) == scheduleRows;
    RowsSnoc(logs0, log);
  }

  /** initiateManualCall: a MANUAL call to a registered member. */
  method InitiateManualCall(db: Database, provider: Provider, memberId: string, baseUrl: string, now: Timestamp)
    returns (r: Result<nat, ServiceError>)
    requires db.Valid()
    modifies db, provider
    ensures db.Valid()
    ensures memberId !in db.members ==>
      r == Err(EntityNotFound(MEMBER_NOT_FOUND + memberId))
      && db.LogRows() == old(db.LogRows()) && provider.placed == old(provider.placed)
    ensures memberId in db.members ==>
      CallState(db.LogRows(), provider.placed)
      == Dispatch(CallState(old(db.LogRows()), old(provider.placed)), provider.answers, db.members[memberId], memberId, MANUAL, baseUrl, now)
    ensures memberId in db.members ==>
      (r.Ok? <==> LinkedSid(provider.answers(|old(provider.placed)|), old(db.LogRows())).Some?)
    ensures memberId in db.members && r.Ok? ==> r.value == |old(db.callLogs)|
    ensures memberId in db.members && r.Err? ==>
      r.error == (if provider.answers(|old(provider.placed)|).None? then ProviderFailure else ConstraintViolation)
    ensures db.members == old(db.members) && db.keywords == old(db.keywords) && db.statusTags == old(db.statusTags)
    ensures db.schedules == old(db.schedules) && db.nextScheduleId == old(db.nextScheduleId)
  {
    if memberId !in db.members {
      return Err(EntityNotFound(MEMBER_NOT_FOUND + memberId));
    }
    r := InitiateCall(db, provider, memberId, MANUAL, baseUrl, now);
  }

  /** initiateAutoCall: an AUTO call to the schedule's member. */
  method InitiateAutoCall(db: Database, provider: Provider, schedule: CallSchedule, baseUrl: string, now: Timestamp)
    returns (r: Result<nat, ServiceError>)
    requires db.Valid() && schedule.member in db.members
    modifies db, provider
    ensures db.members == old(db.members) && db.keywords == old(db.keywords) && db.statusTags == old(db.statusTags)
    ensures db.schedules == old(db.schedules) && db.nextScheduleId == old(db.nextScheduleId)
    ensures db.Valid()
    ensures CallState(db.LogRows(), provider.placed)
         == Dispatch(CallState(old(db.LogRows()), old(provider.placed)), provider.answers, db.members[schedule.member], schedule.member, AUTO, baseUrl, now)
  {
    r := InitiateCall(db, provider, schedule.member, AUTO, baseUrl, now);
  }

  // ---------------------------------------------------------------------
  // Schedules

  /** findById on call_schedule: the position of the schedule with this id. */
  function FindSchedule(rows: seq<ScheduleRow>, scheduleId: int): (r: Option<nat>)
    ensures r.Some? ==> r.value < |rows| && rows[r.value].scheduleId == scheduleId
    ensures r.None? ==> forall i :: 0 <= i < |rows| ==> rows[i].scheduleId != scheduleId
  {
    if rows == [] then None
    else if rows[0].scheduleId == scheduleId then Some(0)
    else match FindSchedule(rows[1..], scheduleId)
      case None => None
      case Some(i) => Some(i + 1)
  }

  /** Appending a schedule adds its row at the end and leaves the earlier rows as they were. */
  lemma ScheduleRowsSnoc(ss: seq<CallSchedule>, x: CallSchedule)
    ensures ScheduleRows(ss + [x]) == ScheduleRows(ss) + [ScheduleRow(x.scheduleId, x.member, x.Fields())]
  {
    var l := ss + [x];
    ScheduleRowsAt(l);
    ScheduleRowsAt(ss);
    assert forall i :: 0 <= i < |ss| ==> l[i] == ss[i];
  }

  /** A new schedule under the next identity value, for a member, keeps the schedule rows consistent. */
  lemma AddScheduleKeepsConsistent(members: map<string, string>, keywords: map<string, Option<string>>, statusTags: map<string, string>,
                                    logRows: seq<LogRow>, rows: seq<ScheduleRow>, row: ScheduleRow)
    requires Consistent(members, keywords, statusTags, logRows, rows, row.scheduleId) && row.member in members
    ensures Consistent(members, keywords, statusTags, logRows, rows + [row], row.scheduleId + 1)
  {
  }

  /**
   * createCallSchedule: a schedule for a registered member, active unless
   * the request says otherwise. A request without a start date, frequency
   * or time is refused by the non-null columns and saves nothing.
   */
  method CreateCallSchedule(db: Database, memberId: string, request: ScheduleUpdate) returns (r: Result<int, ServiceError>)
    requires db.Valid()
    modifies db
    ensures db.Valid()
    ensures memberId !in db.members ==>
      r == Err(EntityNotFound(MEMBER_NOT_FOUND + memberId)) && db.schedules == old(db.schedules)
      && db.nextScheduleId == old(db.nextScheduleId)
    ensures memberId in db.members && (request.startDate.None? || request.frequency.None? || request.callTime.None?) ==>
      r == Err(ConstraintViolation) && db.schedules == old(db.schedules) && db.nextScheduleId == old(db.nextScheduleId)
    ensures memberId in db.members && request.startDate.Some? && request.frequency.Some? && request.callTime.Some? ==>
      r == Ok(old(db.nextScheduleId)) && db.nextScheduleId == old(db.nextScheduleId) + 1
      && ScheduleRows(db.schedules) == old(ScheduleRows(db.schedules)) + [ScheduleRow(old(db.nextScheduleId), memberId,
           ScheduleFields(request.startDate.value, request.frequency.value, request.callTime.value, request.isActive.GetOr(true)))]
    ensures db.members == old(db.members) && db.keywords == old(db.keywords) && db.statusTags == old(db.statusTags)
    ensures db.callLogs == old(db.callLogs)
  {
    if memberId !in db.members {
      return Err(EntityNotFound(MEMBER_NOT_FOUND + memberId));
    }
    if request.startDate.None? || request.frequency.None? || request.callTime.None? {
      return Err(ConstraintViolation);
    }
    var isActive := if request.isActive.Some? then request.isActive.value else true;
    var id := SaveSchedule(db, memberId, ScheduleFields(request.startDate.value, request.frequency.value, request.callTime.value, isActive));
    r := Ok(id);
  }

  /** callScheduleRepository.save of a new schedule: it gets the next identity value and is appended. */
  method SaveSchedule(db: Database, memberId: string, fields: ScheduleFields) returns (id: int)
    requires db.Valid() && memberId in db.members
    modifies db
    ensures db.Valid()
    ensures id == old(db.nextScheduleId) && db.nextScheduleId == id + 1
    ensures ScheduleRows(db.schedules) == old(ScheduleRows(db.schedules)) + [ScheduleRow(id, memberId, fields)]
    ensures db.members == old(db.members) && db.keywords == old(db.keywords) && db.statusTags == old(db.statusTags)
    ensures db.callLogs == old(db.callLogs)
  {
    ghost var logRows := db.LogRows();
    ghost var rows0 := ScheduleRows(db.schedules);
    var ss0 := db.schedules;
    id := db.nextScheduleId;
    AddScheduleKeepsConsistent(db.members, db.keywords, db.statusTags, logRows, rows0, ScheduleRow(id, memberId, fields));
    var schedule := new CallSchedule(id, memberId, fields.startDate, fields.frequency, fields.callTime, fields.isActive);
    assert ScheduleRows(ss0) == rows0 && Rows(db.callLogs) == logRows;
    db.schedules := ss0 + [schedule];
    db.nextScheduleId := id + 1;
    ScheduleRowsSnoc(ss0, schedule);
    assert Rows(db.callLogs) == logRows;
  }

  /**
   * updateCallSchedule: apply the request's non-null fields to the schedule,
   * but only for the member who owns it.
   */
  method UpdateCallSchedule(db: Database, memberId: string, scheduleId: int, request: ScheduleUpdate)
    returns (r: Result<ScheduleRow, ServiceError>)
    requires db.Valid()
    modifies db.schedules
    ensures db.Valid()
    ensures var k := FindSchedule(old(ScheduleRows(db.schedules)), scheduleId);
      && (k.None? ==>
            r == Err(EntityNotFound(SCHEDULE_NOT_FOUND + Decimal(scheduleId)))
            && ScheduleRows(db.schedules) == old(ScheduleRows(db.schedules)))
      && (k.Some? && old(ScheduleRows(db.schedules))[k.value].member != memberId ==>
            r == Err(IllegalState(NOT_OWNER))
            && ScheduleRows(db.schedules) == old(ScheduleRows(db.schedules)))
      && (k.Some? && old(ScheduleRows(db.schedules))[k.value].member == memberId ==>
            var row := old(ScheduleRows(db.schedules))[k.value];
            var updated := row.(fields := Apply(row.fields, request));
            r == Ok(updated) && ScheduleRows(db.schedules) == old(ScheduleRows(db.schedules))[k.value := updated])
  {
    var rows := ScheduleRows(db.schedules);
    ScheduleRowsAt(db.schedules);
    var k := FindSchedule(rows, scheduleId);
    if k.None? {
      return Err(EntityNotFound(SCHEDULE_NOT_FOUND + Decimal(scheduleId)));
    }
    var schedule := db.schedules[k.value];
    if schedule.member != memberId {
      return Err(IllegalState(NOT_OWNER));
    }
    var updated := rows[k.value].(fields := Apply(rows[k.value].fields, request));
    assert forall i :: 0 <= i < |db.schedules| && i != k.value ==> db.schedules[i] != schedule by {
      assert Consistent(db.members, db.keywords, db.statusTags, db.LogRows(), rows, db.nextScheduleId);
    }
    ghost var logRows := db.LogRows();
    schedule.Update(request.startDate, request.frequency, request.callTime, request.isActive);
    ScheduleRowsAt(db.schedules);
    assert ScheduleRows(db.schedules) == rows[k.value := updated];
    assert db.LogRows() == logRows;
    UpdateKeepsConsistent(db.members, db.keywords, db.statusTags, logRows, rows, db.nextScheduleId, k.value, updated.fields);
    r := Ok(updated);
  }

  /** New field values for one schedule keep the rows consistent: its id and member stay. */
  lemma UpdateKeepsConsistent(members: map<string, string>, keywords: map<string, Option<string>>, statusTags: map<string, string>,
                              logRows: seq<LogRow>, rows: seq<ScheduleRow>, nextId: int, k: nat, fields: ScheduleFields)
    requires Consistent(members, keywords, statusTags, logRows, rows, nextId) && k < |rows|
    ensures Consistent(members, keywords, statusTags, logRows, rows[k := rows[k].(fields := fields)], nextId)
  {
    var rows' := rows[k := rows[k].(fields := fields)];
    assert forall i :: 0 <= i < |rows| ==> rows'[i].scheduleId == rows[i].scheduleId && rows'[i].member == rows[i].member;
  }
}
