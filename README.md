# Wellness-call back end, modelled in Dafny

This project models the core of a Spring back end that phones elderly members
on a schedule and talks with them through a chat model. It covers these parts:

- **Conversation state machine** (`QnaService`). Each call id has an in-memory
  transcript of `ChatMessage` turns. An utterance can end the call in three
  ways: silence, the hang-up word "종료", or the tenth user turn. Otherwise the
  chat model answers and the answer is stored. Ending a call writes the
  transcript and the final status into the call's `CallLog` row and forgets
  the transcript.
- **Minute tick** (`CallScheduler`). It dispatches an automatic call for every
  active schedule that is due: started, at this minute, and on the right day
  for its DAILY, WEEKLY or MONTHLY rule. A failing dispatch does not stop the
  tick.
- **Members, calls and schedules** (`MemberService`):
  - phone normalisation;
  - registration with its initial keyword and status rows;
  - call records created QUEUED and then linked to the provider's call id;
  - schedule creation and owner-checked update;
  - the stored-analysis view and the latest-automatic-call view.
- **Entities**. `CallSchedule` with its partial `update`, `CallLog` with its
  setters, and the in-memory survey progress store `CallDataRepository`.
- **Text code around the chat model**:
  - prompt assembly (`OpenAiService`);
  - the `['a', 'b', 'c', 'd']` parser and user-message extraction
    (`KeywordAnalysisService`);
  - the status-tag choice among a closed set (`MemberStatusAnalysisService`);
  - the summary aggregation (`ConversationSummaryService`);
  - the `keyword: topic` line parser (`TopicRecommendationService`).

## How the model is built

**Modules.** There is one module per source class:

| module | source class |
|---|---|
| `Qna` | QnaService |
| `Scheduler` | CallScheduler |
| `Members` | MemberService |
| `Schedules` | CallSchedule |
| `CallLogs` | CallLog |
| `Progress` | CallDataRepository |
| `KeywordAnalysis` | KeywordAnalysisService |
| `StatusAnalysis` | MemberStatusAnalysisService |
| `Summary` | ConversationSummaryService |
| `Topics` | TopicRecommendationService |
| `OpenAi` | OpenAiService |

Shared modules:

- `Wrappers`: Option and Result.
- `Text`: the Java `String` operations the code uses, listed below.
- `Chat`: the transcript entry and its JSON codec as parameters.
- `Dates`: `LocalDate`/`LocalTime` arithmetic.
- `Store`: the database tables.
- `Twilio`: the provider.

The `Text` module covers `trim`, `hasText`, `contains`, `split(sep, n)`,
`split(sep)`, `Collectors.joining`, ASCII `equalsIgnoreCase`, and
string-concatenation of a null.

**Classes and functions.** Objects whose fields the source updates in place
are classes with `modifies` frames:

- `Qna.QnaService` and its conversation map;
- `Progress.CallDataRepository` and its two maps;
- `CallLogs.CallLog`;
- `Schedules.CallSchedule`;
- `Store.Database`: the JPA tables, with `callLogs` and `schedules` as sequences of
  entity objects and the other tables as maps;
- `Twilio.Provider`.

Pure stream code is modelled as functions. The `StringBuilder` loops are
methods proved equal to those functions.

**External services as parameters:**

- The chat model is a function from a prompt to a completion. A completion
  is either a possibly-null text or an exception.
- Jackson is an encoder and a decoder that may fail.
- The provider's answers are a script that gives the n-th `makeCall` an id,
  or null for a failure.
- The wall clock (`now`, `today`) is a parameter.
- The random member ids are a sequence of draws.

**"The model is not asked".** In the pure services this is stated as
independence from the model parameter, or as the result being a fixed
constant. In `QnaService` it is stated through `requests`, the log of the
transcripts sent to the model, which is left unchanged.

## Model

| member | source | states |
|---|---|---|
| Qna.QnaService.constructor | src/main/java/com/example/demo5/service/QnaService.java:35-42 | The service starts with no session and an empty model log, holding the given store, model and codec. |
| Qna.QnaService.StartSurvey | src/main/java/com/example/demo5/service/QnaService.java:48-59 | The call's session becomes exactly the AI greeting, replacing any earlier one. The greeting is said in a gather reply, and the model is not asked. |
| Qna.QnaService.ProcessSurveyResponse | src/main/java/com/example/demo5/service/QnaService.java:64-101 | Blank or null speech finalizes FAILED and hangs up with the timeout message. Speech containing "종료" finalizes COMPLETED and hangs up with the hang-up message. In both cases nothing is appended and the model is not asked. Any other speech is one turn (TurnTaken). The session invariant is kept. |
| Qna.QnaService.TakeTurn | src/main/java/com/example/demo5/service/QnaService.java:82-100 | One User message is appended to the stored session, or to a fresh list. Below 10 user turns the model gets exactly that transcript, its answer is appended, stored and said. At 10 the stored session takes the utterance and the call is finalized COMPLETED without asking the model. |
| Qna.QnaService.AskNextQuestion | src/main/java/com/example/demo5/service/QnaService.java:88-94 | The model is asked once with the history. The history plus the AI answer becomes the stored session, and the answer is said in a gather reply. |
| Qna.QnaService.EndAtTurnLimit | src/main/java/com/example/demo5/service/QnaService.java:95-99 | The aliased stored list holds the tenth utterance. The saved transcript therefore ends with it, the session is removed and the final message is said. |
| Qna.QnaService.FinalizeAndSaveCallLog | src/main/java/com/example/demo5/service/QnaService.java:108-138 | The rows become Finalized of the old rows and sessions. The session is removed in every case, and the model log is unchanged. |
| Qna.RewriteLog | src/main/java/com/example/demo5/service/QnaService.java:120-130 | The setters rewrite the transcript and status of one row. Every other row and every call id stay as they were. |
| Qna.Outcome | src/main/java/com/example/demo5/service/QnaService.java:117-131 | If serialization succeeds, its text and the requested status are written. If it fails, the fixed error JSON and FAILED are written. |
| Qna.Finalized | src/main/java/com/example/demo5/service/QnaService.java:110-134 | Finalizing keeps the number of rows. |
| Qna.FinalizeWritesOnlyTheCall | src/main/java/com/example/demo5/service/QnaService.java:116-131 | With unique call ids and a session, the row carrying the call id gets the Outcome. Every other row is unchanged. |
| Qna.FinalizeKeepsIdentity | src/main/java/com/example/demo5/service/QnaService.java:116-131 | Finalizing keeps call ids unique and never changes a row's call id, member, type or request time. |
| Qna.FinalizeTwiceIsOnce | src/main/java/com/example/demo5/service/QnaService.java:110-114 | A second finalize after the session has been removed changes nothing, whatever its status. |
| Qna.SavedTranscriptReadsBack | src/main/java/com/example/demo5/service/QnaService.java:119-121 | With a codec that round-trips, the stored callData decodes back to the session, and the status is the requested one. |
| Qna.TurnsAfterExchange | src/main/java/com/example/demo5/service/QnaService.java:83-92 | An exchange adds exactly one user turn: the User message counts and the AI answer does not. |
| Qna.GreetingShaped | src/main/java/com/example/demo5/service/QnaService.java:54-56 | The greeting session ends with an AI turn and has no user turn, so it satisfies the session invariant. |
| Chat.UserTurnsAppend | src/main/java/com/example/demo5/service/QnaService.java:86 | Counting User turns case-insensitively is additive over appends. |
| Chat.AiIsNotUser | src/main/java/com/example/demo5/service/QnaService.java:86 | An "AI" entry is never counted as a user turn. |
| Chat.UserMessages | src/main/java/com/example/demo5/service/KeywordAnalysisService.java:100-102 | There is one text per User turn. |
| Chat.UserMessagesAppend | src/main/java/com/example/demo5/service/KeywordAnalysisService.java:100-102 | Filtering and mapping distribute over concatenation: the texts of a + b are those of a, then those of b. |
| Chat.UserMessagesSnoc | src/main/java/com/example/demo5/service/KeywordAnalysisService.java:100-102 | Appending a message adds its text if it is a User turn (case-insensitively), and adds nothing otherwise. |
| Chat.UserMessagesPointwise | src/main/java/com/example/demo5/service/KeywordAnalysisService.java:100-102 | Every text kept is the message of some User turn of the transcript. |
| Chat.NoUserTurnsNoText | src/main/java/com/example/demo5/service/KeywordAnalysisService.java:100-103 | A transcript with no User turn joins to "". |
| Chat.ReadTranscript | src/main/java/com/example/demo5/service/KeywordAnalysisService.java:95-107 | A null or empty callData reads as nothing. Otherwise the decoder's result is used, where a failure is nothing. |
| Scheduler.CheckSchedules | src/main/java/com/example/demo5/scheduler/CallScheduler.java:35-86 | The new call rows and provider requests are DispatchAll over the selected positions, in list order. Schedules, members and the other tables are not written. |
| Scheduler.CheckSchedule | src/main/java/com/example/demo5/scheduler/CallScheduler.java:43-83 | One schedule is dispatched as an AUTO call of its member exactly when it is active and due. Otherwise nothing changes, and a failed dispatch is discarded. |
| Scheduler.DueExactlyOnceInOrder | src/main/java/com/example/demo5/scheduler/CallScheduler.java:43-84 | The dispatched positions are exactly the selected schedules, each once, in strictly increasing list order. |
| Scheduler.DuePositionsInRange | src/main/java/com/example/demo5/scheduler/CallScheduler.java:43 | Every dispatched position is a position of the fetched list. |
| Scheduler.DueIff | src/main/java/com/example/demo5/scheduler/CallScheduler.java:48-72 | A schedule is due iff its start date is not after today and its hour and minute equal now's. In addition, DAILY always matches, WEEKLY matches a whole number of weeks after the start date, and MONTHLY matches the same day of the month. |
| Scheduler.MonthlySkipsShortMonths | src/main/java/com/example/demo5/scheduler/CallScheduler.java:69-71 | A MONTHLY schedule started on a day the current month lacks is never due in that month. |
| Scheduler.SecondsIgnored | src/main/java/com/example/demo5/scheduler/CallScheduler.java:37-57 | Two clock readings in the same minute select the same schedules. |
| Scheduler.WeeklyExample | src/main/java/com/example/demo5/scheduler/CallScheduler.java:66-68 | A weekly schedule started on a Saturday fires the next Saturday at any second of its minute, and not on the Friday. |
| Scheduler.DispatchAllAppends | src/main/java/com/example/demo5/scheduler/CallScheduler.java:74-80 | The tick appends one QUEUED AUTO record and one provider request per selected schedule, in order, for that schedule's member. Earlier rows are left as they were. |
| Scheduler.DuePositionsStep | src/main/java/com/example/demo5/scheduler/CallScheduler.java:43-84 | Looking at one more schedule adds its position exactly when it is selected. |
| Scheduler.DispatchAllStep | src/main/java/com/example/demo5/scheduler/CallScheduler.java:74-80 | Looking at one more schedule dispatches it after the earlier ones exactly when it is selected. |
| Scheduler.DispatchAllSnoc | src/main/java/com/example/demo5/scheduler/CallScheduler.java:77 | Dispatching one more position is one more Dispatch after the earlier ones. |
| Scheduler.AllDialable | src/main/java/com/example/demo5/scheduler/CallScheduler.java:77 | Every schedule belongs to a member, so every selected one can be dialled. |
| Dates.SameWeekdayIffWholeWeeks | src/main/java/com/example/demo5/scheduler/CallScheduler.java:67 | Two dates share a weekday iff they are a whole number of weeks apart. |
| Dates.EpochIsThursday | src/main/java/com/example/demo5/scheduler/CallScheduler.java:67 | 1970-01-01 is epoch day 0 and a Thursday. |
| Dates.SameMinuteIff | src/main/java/com/example/demo5/scheduler/CallScheduler.java:54 | Times truncated to minutes are equal iff their hours and minutes agree. |
| Dates.TruncatedToMinutes | src/main/java/com/example/demo5/scheduler/CallScheduler.java:37 | Truncation keeps the hour and minute and zeroes the second and nanosecond. |
| Dates.DayOfWeek | src/main/java/com/example/demo5/scheduler/CallScheduler.java:67 | The ISO weekday is between 1 and 7. |
| Dates.DaysInMonth | src/main/java/com/example/demo5/scheduler/CallScheduler.java:70 | A month has 28 to 31 days. |
| Members.FormatPhoneNumber | src/main/java/com/example/demo5/service/MemberService.java:223-229 | The result never starts with '0'. It is all digits, or "+82" followed by digits. |
| Members.FormatThenNational | src/main/java/com/example/demo5/service/MemberService.java:223-229 | Turning "+82" back into the leading 0 gives exactly the digits of the input, so formatting loses only the non-digits. |
| Members.FormatIgnoresSeparator | src/main/java/com/example/demo5/service/MemberService.java:224 | A non-digit anywhere in the number does not change the formatted result. |
| Members.DigitsIgnoreSeparator | src/main/java/com/example/demo5/service/MemberService.java:224 | Removing non-digits ignores any one separator. |
| Members.FormatOfFormatted | src/main/java/com/example/demo5/service/MemberService.java:224-228 | Formatting an already formatted "+82…" number drops the '+', so formatting is not idempotent. |
| Members.DigitsOnly | src/main/java/com/example/demo5/service/MemberService.java:224 | The result is all digits and no longer than the input. |
| Members.DigitsOnlyOfDigits | src/main/java/com/example/demo5/service/MemberService.java:224 | A string of digits passes through unchanged. |
| Members.DigitsOnlyConcat | src/main/java/com/example/demo5/service/MemberService.java:224 | Removing non-digits distributes over concatenation. |
| Members.CreateMember | src/main/java/com/example/demo5/service/MemberService.java:58-85 | A registered phone number gives IllegalArgument and writes nothing. Otherwise the first drawn id not yet taken is used, and the member, keyword "[]" and status "안전" rows are added. |
| Members.SaveNewMember | src/main/java/com/example/demo5/service/MemberService.java:67-82 | The three rows are added under the new id and the store stays consistent. |
| Members.DrawFreeId | src/main/java/com/example/demo5/service/MemberService.java:63-65 | The do/while loop returns the first draw that is not a member id. |
| Members.FirstFree | src/main/java/com/example/demo5/service/MemberService.java:63-65 | The position found is free and every earlier draw is taken. |
| Members.FirstFreeIsFirst | src/main/java/com/example/demo5/service/MemberService.java:63-65 | The first free draw is unique. |
| Members.AddMemberKeepsConsistent | src/main/java/com/example/demo5/service/MemberService.java:59-82 | A fresh id with an unused phone number keeps phone numbers unique and every member's keyword and status rows present. |
| Members.MemberAnalysis | src/main/java/com/example/demo5/service/MemberService.java:88-105 | A missing keyword row is EntityNotFound. Null, blank or "[]" give the fixed empty analysis. Otherwise the decoded analysis is returned, or the fixed parse-error analysis. |
| Members.NewMemberHasNoAnalysis | src/main/java/com/example/demo5/service/MemberService.java:75-97 | A member just registered has no analysis, whatever the decoder does. |
| Members.SavedAnalysisReadsBack | src/main/java/com/example/demo5/service/MemberService.java:99-100 | An analysis saved with a round-tripping codec reads back unchanged. |
| Members.LatestAutoCall | src/main/java/com/example/demo5/service/MemberService.java:124 | The chosen row is one of the member's AUTO calls with the greatest request time. There is none iff the member has no AUTO call. |
| Members.LatestAutoCallStatus | src/main/java/com/example/demo5/service/MemberService.java:123-135 | No AUTO call gives ("기록 없음", ""). Otherwise COMPLETED gives "완료" and anything else "부재중", with the row's HH:mm. |
| Members.LatestStatusWords | src/main/java/com/example/demo5/service/MemberService.java:126-131 | The display word is one of three. It is "완료" iff the latest AUTO call completed, and it is the no-record response iff there is no AUTO call. |
| Members.HourMinute | src/main/java/com/example/demo5/service/MemberService.java:132 | Five characters with ':' in the middle, spelling the hour and minute of the request time. |
| Members.TwoDigits | src/main/java/com/example/demo5/service/MemberService.java:132 | Two characters whose decimal value is the number. |
| Members.LinkedSid | src/main/java/com/example/demo5/service/MemberService.java:182-184 | The record keeps the provider's id unless there is none or another record already has it. |
| Members.DispatchKeepsSidsUnique | src/main/java/com/example/demo5/service/MemberService.java:174-184 | Adding a call record keeps non-null call ids unique. |
| Members.InitiateCall | src/main/java/com/example/demo5/service/MemberService.java:173-187 | A QUEUED record of the given type is appended, and one request goes to the formatted number. The returned id is stored on success. A provider failure leaves the record QUEUED with a null id and is returned as the error. |
| Members.SaveLog | src/main/java/com/example/demo5/service/MemberService.java:179 | A new record is appended after the existing rows, and nothing else changes. |
| Members.InitiateManualCall | src/main/java/com/example/demo5/service/MemberService.java:155-159 | An unknown member gives EntityNotFound with no record and no request. Otherwise a MANUAL call is placed. It succeeds with the new record's position iff the provider answered with a call id not yet stored. A provider failure gives ProviderFailure, and a duplicate id gives ConstraintViolation. Members, keywords, status tags, schedules and the schedule id counter are unchanged. |
| Members.InitiateAutoCall | src/main/java/com/example/demo5/service/MemberService.java:163-171 | An AUTO call is placed to the schedule's member. |
| Members.FindSchedule | src/main/java/com/example/demo5/service/MemberService.java:207-208 | The position found carries the id; none iff no schedule has it. |
| Members.ScheduleRowsSnoc | src/main/java/com/example/demo5/service/MemberService.java:201 | Saving a schedule appends its row and keeps the earlier ones. |
| Members.AddScheduleKeepsConsistent | src/main/java/com/example/demo5/service/MemberService.java:194-201 | A schedule under the next identity value for a member keeps schedule ids unique and owned. |
| Members.CreateCallSchedule | src/main/java/com/example/demo5/service/MemberService.java:190-203 | An unknown member gives EntityNotFound. A missing date, frequency or time is refused by the non-null columns. Otherwise one schedule is appended under the next id, with isActive true when omitted, and the id counter advances by one. On either error the schedules and the counter are unchanged. |
| Members.SaveSchedule | src/main/java/com/example/demo5/service/MemberService.java:201 | The new schedule gets the next identity value, and only the schedule table and the counter change. |
| Members.UpdateCallSchedule | src/main/java/com/example/demo5/service/MemberService.java:206-221 | An unknown id gives EntityNotFound and another member's schedule gives IllegalState, both changing nothing. Otherwise only that row's fields become Apply(fields, request). |
| Schedules.CallSchedule.constructor | src/main/java/com/example/demo5/entity/CallSchedule.java:47-54 | The builder stores exactly the given member, start date, frequency, time and active flag. |
| Schedules.CallSchedule.Update | src/main/java/com/example/demo5/entity/CallSchedule.java:40-45 | The fields become Apply(old fields, arguments). The id and member are not writable. |
| Schedules.ApplyNothing | src/main/java/com/example/demo5/entity/CallSchedule.java:40-45 | An all-null update is the identity. |
| Schedules.ApplyIdempotent | src/main/java/com/example/demo5/entity/CallSchedule.java:40-45 | Applying an update twice equals applying it once. |
| Schedules.ApplyThen | src/main/java/com/example/demo5/entity/CallSchedule.java:40-45 | Two updates in a row are one merged update in which the later non-null value wins. |
| CallLogs.CallLog.constructor | src/main/java/com/example/demo5/entity/CallLog.java:71-76 | The builder sets member, type and status. The request time is the save time, and the call id, data, sentiment and summary start null. |
| CallLogs.CallLog.SetCallSid | src/main/java/com/example/demo5/entity/CallLog.java:51-53 | Only callSid changes. |
| CallLogs.CallLog.SetCallData | src/main/java/com/example/demo5/entity/CallLog.java:55-57 | Only callData changes. |
| CallLogs.CallLog.SetStatus | src/main/java/com/example/demo5/entity/CallLog.java:59-61 | Only status changes. |
| CallLogs.CallLog.SetCallResultSentiment | src/main/java/com/example/demo5/entity/CallLog.java:63-65 | Only the sentiment changes. |
| CallLogs.CallLog.SetSimpleSummary | src/main/java/com/example/demo5/entity/CallLog.java:67-69 | Only the summary changes. |
| CallLogs.Rows | src/main/java/com/example/demo5/repository/CallLogRepository.java:10 | The table has one row per entity, in order. |
| CallLogs.RowsAt | src/main/java/com/example/demo5/repository/CallLogRepository.java:10 | Each row is the current state of the entity at the same position. |
| CallLogs.FindBySid | src/main/java/com/example/demo5/repository/CallLogRepository.java:11 | The position found carries the call id; none iff no row has it. |
| CallLogs.FindBySidIsTheRow | src/main/java/com/example/demo5/entity/CallLog.java:23-24 | Under the unique constraint, lookup by call id finds the one row carrying it. |
| CallLogs.InWindow | src/main/java/com/example/demo5/repository/CallLogRepository.java:12 | Every row returned is the member's and was requested within [start, end]. Every such row of the table is returned. |
| CallLogs.InWindowSingle | src/main/java/com/example/demo5/repository/CallLogRepository.java:12 | A one-row table gives that row exactly when it is the member's and inside the window. |
| CallLogs.InWindowAppend | src/main/java/com/example/demo5/repository/CallLogRepository.java:12 | The matches of a + b are the matches of a, then those of b. The result keeps table order and drops nothing. |
| Store.Database.constructor | src/main/java/com/example/demo5/repository/CallLogRepository.java:10 | The store starts empty and consistent, with the schedule identity at 1. |
| Store.ScheduleRows | src/main/java/com/example/demo5/repository/CallScheduleRepository.java:8 | The table has one row per schedule, in order. |
| Store.ScheduleRowAt | src/main/java/com/example/demo5/repository/CallScheduleRepository.java:8 | The i-th row is the current state of the i-th schedule. |
| Store.ScheduleRowsAt | src/main/java/com/example/demo5/repository/CallScheduleRepository.java:8 | Every row is the current state of its schedule. |
| Store.RowsSnoc | src/main/java/com/example/demo5/service/MemberService.java:179 | Appending a log appends its row. |
| Twilio.Provider.constructor | src/main/java/com/example/demo5/service/TwilioService.java:28-31 | No call has been placed yet. |
| Twilio.Provider.MakeCall | src/main/java/com/example/demo5/service/TwilioService.java:33-43 | One request to the number is recorded, fetching baseUrl + "/api/twilio/call/welcome". The answer is the next scripted one. |
| Progress.CallDataRepository.constructor | src/main/java/com/example/demo5/repository/CallDataRepository.java:14-17 | Both maps start empty and in step. |
| Progress.CallDataRepository.StartSurvey | src/main/java/com/example/demo5/repository/CallDataRepository.java:19-22 | The index becomes 0 and the results an empty list, discarding any earlier data. The maps stay in step. |
| Progress.CallDataRepository.CurrentQuestionIndex | src/main/java/com/example/demo5/repository/CallDataRepository.java:24-26 | An unknown call gives 0. A started call gives its number of answers. |
| Progress.CallDataRepository.SaveAnswerAndProceed | src/main/java/com/example/demo5/repository/CallDataRepository.java:28-33 | Succeeds iff the survey was started. It then appends exactly one entry and increments the index; otherwise it changes nothing. |
| Progress.CallDataRepository.SurveyResults | src/main/java/com/example/demo5/repository/CallDataRepository.java:35-37 | A started call's answers, null otherwise. |
| Progress.CallDataRepository.ClearCallData | src/main/java/com/example/demo5/repository/CallDataRepository.java:39-42 | Both entries of the call are removed and nothing else. |
| Progress.RunKeepsInStep | src/main/java/com/example/demo5/repository/CallDataRepository.java:19-42 | After any sequence of starts, saves and clears, each started call's index equals its number of answers. |
| Progress.StartThenSaves | src/main/java/com/example/demo5/repository/CallDataRepository.java:19-33 | A start followed by n saves leaves index n and exactly those answers, in order. |
| Progress.RunSnoc | src/main/java/com/example/demo5/repository/CallDataRepository.java:19-42 | One more operation is one more step after the run. |
| Progress.ClearIsLocal | src/main/java/com/example/demo5/repository/CallDataRepository.java:39-42 | Clearing one call leaves every other call's entries as they were. |
| KeywordAnalysis.ParseAiResponse | src/main/java/com/example/demo5/service/KeywordAnalysisService.java:110-129 | Null or blank gives the no-response failure. Missing brackets or fewer than four parts give the format failure. Otherwise the four parts are returned in order. Trimmed "[']" is reported as a format failure (see Findings). |
| KeywordAnalysis.ParseAiResponseAsWritten | src/main/java/com/example/demo5/service/KeywordAnalysisService.java:110-129 | The parser as written, with the throw of substring(2, 1) as None. |
| KeywordAnalysis.LoneQuoteThrows | src/main/java/com/example/demo5/service/KeywordAnalysisService.java:118-119 | "[']" passes both bracket checks and makes the parser as written throw. The corrected one reports a format failure. |
| KeywordAnalysis.AsWrittenAgreesElsewhere | src/main/java/com/example/demo5/service/KeywordAnalysisService.java:110-129 | The two parsers agree on every input except a trimmed "[']", which is the only input on which the parser as written throws. |
| KeywordAnalysis.ParseItems | src/main/java/com/example/demo5/service/KeywordAnalysisService.java:118-124 | Unbracketed text fails, and a successful parse renders back to the text. |
| KeywordAnalysis.RenderOfParts | src/main/java/com/example/demo5/service/KeywordAnalysisService.java:119-123 | Four pieces joined by "', '" inside the brackets render back to the whole text. |
| KeywordAnalysis.RenderLength | src/main/java/com/example/demo5/service/KeywordAnalysisService.java:118-119 | A rendered list is at least 16 characters long. |
| KeywordAnalysis.RenderThenParse | src/main/java/com/example/demo5/service/KeywordAnalysisService.java:117-124 | When the first three items cannot be mistaken for a separator, rendering and then parsing gives the analysis back. |
| KeywordAnalysis.NoQuoteCutsCleanly | src/main/java/com/example/demo5/service/KeywordAnalysisService.java:120 | An item without an apostrophe cannot be cut early by "', '". |
| KeywordAnalysis.PlainItemsRoundTrip | src/main/java/com/example/demo5/service/KeywordAnalysisService.java:117-124 | Items without apostrophes round-trip, whatever the fourth holds. |
| KeywordAnalysis.SeparatorsStayInLastItem | src/main/java/com/example/demo5/service/KeywordAnalysisService.java:120-123 | With the limit 4, extra items stay glued to the fourth, separator included. |
| KeywordAnalysis.ExtractUserMessages | src/main/java/com/example/demo5/service/KeywordAnalysisService.java:94-108 | Null, empty or unparseable data gives "". Otherwise the User messages, in order, are joined by "\n". |
| KeywordAnalysis.UserTexts | src/main/java/com/example/demo5/service/KeywordAnalysisService.java:58-59 | There is one extracted text per log, in order. |
| KeywordAnalysis.PerformAnalysis | src/main/java/com/example/demo5/service/KeywordAnalysisService.java:47-72 | No logs gives the no-calls response. A blank aggregate gives the no-valid-conversation response. Otherwise the model's parsed answer to "대화:\n" + aggregate is returned. |
| KeywordAnalysis.JoinOfEmptiesIsBlank | src/main/java/com/example/demo5/service/KeywordAnalysisService.java:58-62 | Empty per-log texts join into a blank aggregate. |
| KeywordAnalysis.JoinOfEmptiesIsNewlines | src/main/java/com/example/demo5/service/KeywordAnalysisService.java:58-60 | Empty texts join into newlines only. |
| KeywordAnalysis.NoUserSpeechSkipsModel | src/main/java/com/example/demo5/service/KeywordAnalysisService.java:53-65 | When no log has user speech, the result is one of the two fixed responses, whatever the model. |
| KeywordAnalysis.NoUserTurnSkipsModel | src/main/java/com/example/demo5/service/KeywordAnalysisService.java:53-108 | When every readable transcript in the window has no User turn, the result is one of the two fixed responses, whatever the model. |
| KeywordAnalysis.SaveKeywords | src/main/java/com/example/demo5/service/KeywordAnalysisService.java:78-92 | A failed serialization is swallowed and writes nothing. A missing keyword row gives EntityNotFound. Otherwise only that row takes the JSON. |
| StatusAnalysis.Aggregate | src/main/java/com/example/demo5/service/MemberStatusAnalysisService.java:57-69 | The StringBuilder loop produces Aggregated(logs). |
| StatusAnalysis.AppendTranscript | src/main/java/com/example/demo5/service/MemberStatusAnalysisService.java:62-64 | The inner loop appends one "speaker: message\n" line per message, in order. |
| StatusAnalysis.AggregatedStep | src/main/java/com/example/demo5/service/MemberStatusAnalysisService.java:58-68 | One more log adds its text at the end. |
| StatusAnalysis.TranscriptTextStep | src/main/java/com/example/demo5/service/MemberStatusAnalysisService.java:62-64 | One more message adds its line at the end. |
| StatusAnalysis.TranscriptTextEmptyIff | src/main/java/com/example/demo5/service/MemberStatusAnalysisService.java:63 | A transcript writes nothing iff it has no messages. |
| StatusAnalysis.AggregatedEmptyIff | src/main/java/com/example/demo5/service/MemberStatusAnalysisService.java:57-71 | The aggregate is empty iff no log has a readable non-empty transcript. |
| StatusAnalysis.ChooseTag | src/main/java/com/example/demo5/service/MemberStatusAnalysisService.java:84-95 | The tag is always one of the three valid ones. A trimmed answer in the set is used as is. Null, blank or anything else gives "확인 필요". |
| StatusAnalysis.PaddedTagAccepted | src/main/java/com/example/demo5/service/MemberStatusAnalysisService.java:85-89 | A valid tag with surrounding whitespace is accepted. |
| StatusAnalysis.PaddedTrim | src/main/java/com/example/demo5/service/MemberStatusAnalysisService.java:86 | Trim removes equal padding on both sides of a tag. |
| StatusAnalysis.PaddedTrimStart | src/main/java/com/example/demo5/service/MemberStatusAnalysisService.java:86 | Trim removes leading padding. |
| StatusAnalysis.PaddedTrimEnd | src/main/java/com/example/demo5/service/MemberStatusAnalysisService.java:86 | Trim removes trailing padding. |
| StatusAnalysis.StatusFor | src/main/java/com/example/demo5/service/MemberStatusAnalysisService.java:44-98 | The tag written is always one of "안전", "주의", "확인 필요". |
| StatusAnalysis.NothingToReadIsSafe | src/main/java/com/example/demo5/service/MemberStatusAnalysisService.java:50-74 | With no logs, or no readable message, the tag is "안전" whatever the model says. |
| StatusAnalysis.ModelTagIsStored | src/main/java/com/example/demo5/service/MemberStatusAnalysisService.java:77-98 | With one readable message, the tag is ChooseTag of the model's answer to the prefix plus the aggregate. |
| StatusAnalysis.UpdateMemberStatus | src/main/java/com/example/demo5/service/MemberStatusAnalysisService.java:101-111 | The member's status row takes the tag. Without a row nothing is written. |
| StatusAnalysis.AnalyzeAndSaveMemberStatus | src/main/java/com/example/demo5/service/MemberStatusAnalysisService.java:43-99 | The member's status row becomes StatusFor the window ending at analysisEnd, and no other table changes. |
| Summary.SummaryLines | src/main/java/com/example/demo5/service/ConversationSummaryService.java:49-50 | There is one "speaker: message" line per message, in order. |
| Summary.SummaryTextEmptyIff | src/main/java/com/example/demo5/service/ConversationSummaryService.java:45-59 | The aggregate is empty iff no log has a readable transcript. An empty transcript still adds "\n\n". |
| Summary.AggregateSummary | src/main/java/com/example/demo5/service/ConversationSummaryService.java:44-57 | The StringBuilder loop produces SummaryText(logs). |
| Summary.SummaryFor | src/main/java/com/example/demo5/service/ConversationSummaryService.java:34-65 | No logs in the window gives the fixed no-records message. |
| Summary.NothingReadableSkipsModel | src/main/java/com/example/demo5/service/ConversationSummaryService.java:59-61 | Logs without a readable transcript give the fixed nothing-to-analyse message. |
| Summary.ReadableTranscriptAsksModel | src/main/java/com/example/demo5/service/ConversationSummaryService.java:59-64 | One readable transcript, even an empty one, sends the aggregate to the model. |
| Summary.OneCallText | src/main/java/com/example/demo5/service/ConversationSummaryService.java:49-52 | A single exchange aggregates to "AI: q\nUser: a\n\n". |
| Summary.GetConversationSummary | src/main/java/com/example/demo5/service/ConversationSummaryService.java:34-65 | The result is SummaryFor the stored rows. |
| Topics.ParseLineIsSplit | src/main/java/com/example/demo5/service/TopicRecommendationService.java:43-47 | split(":", 2) has two parts iff the line has a colon. The parse is then the trimmed halves around the first colon, and null otherwise. |
| Topics.ParseEach | src/main/java/com/example/demo5/service/TopicRecommendationService.java:42-48 | Each line is parsed on its own, in order. |
| Topics.NonNull | src/main/java/com/example/demo5/service/TopicRecommendationService.java:49 | The filter keeps at most as many values as it is given. |
| Topics.ParseLines | src/main/java/com/example/demo5/service/TopicRecommendationService.java:41-50 | There are no more topics than lines. |
| Topics.RecommendTopics | src/main/java/com/example/demo5/service/TopicRecommendationService.java:36-59 | A null answer makes split throw and gives exactly the three default topics. |
| Topics.NonNullAppend | src/main/java/com/example/demo5/service/TopicRecommendationService.java:49 | The filter keeps order across concatenation. |
| Topics.ParseLinesAppend | src/main/java/com/example/demo5/service/TopicRecommendationService.java:41-50 | The topics follow line order. |
| Topics.NonNullFrom | src/main/java/com/example/demo5/service/TopicRecommendationService.java:49 | Every kept value was present in the input. |
| Topics.ParseLinesFromLines | src/main/java/com/example/demo5/service/TopicRecommendationService.java:41-50 | Every topic comes from some line, and lines without ':' give none. |
| Topics.ParseRenderedLine | src/main/java/com/example/demo5/service/TopicRecommendationService.java:43-45 | "k: t" parses back to (k, t) when k has no colon and both are trimmed. A colon in t stays in the sub-topic. |
| Topics.RenderedLineHasNoBreak | src/main/java/com/example/demo5/service/TopicRecommendationService.java:41 | A written topic line holds no line break. |
| Topics.ParseRenderedLines | src/main/java/com/example/demo5/service/TopicRecommendationService.java:41-50 | Written lines parse back one topic each, in order. |
| Topics.ParseJoinedLines | src/main/java/com/example/demo5/service/TopicRecommendationService.java:41 | Splitting a newline-joined answer gives its lines back. |
| Topics.RenderedLinesAreLines | src/main/java/com/example/demo5/service/TopicRecommendationService.java:41-50 | Written topics joined by "\n" are parsed line by line as written. |
| Topics.TopicsRoundTrip | src/main/java/com/example/demo5/service/TopicRecommendationService.java:41-50 | Topics written one per line as "keyword: topic" are recommended back exactly, in order. |
| Topics.ApologyIsItsPieces | src/main/java/com/example/demo5/service/OpenAiService.java:92 | The apology text is the concatenation of its three pieces. |
| Topics.ApologyPiecesArePlain | src/main/java/com/example/demo5/service/OpenAiService.java:92 | No piece of the apology holds ':' or a line break. |
| Topics.ApologyIsOneLineWithoutColon | src/main/java/com/example/demo5/service/OpenAiService.java:92 | The apology has neither ':' nor a line break. |
| Topics.ApologyGivesNoTopics | src/main/java/com/example/demo5/service/TopicRecommendationService.java:38-50 | When the model throws, the apology comes back as text and parses to no topics at all, not to the defaults. |
| OpenAi.SystemText | src/main/java/com/example/demo5/service/OpenAiService.java:60-65 | The custom prompt is used iff it has text; otherwise the default prompt is used. |
| OpenAi.ToPromptMessage | src/main/java/com/example/demo5/service/OpenAiService.java:68-76 | "AI" in any case maps to an assistant message and any other speaker to a user message, keeping the text. |
| OpenAi.MapToPrompt | src/main/java/com/example/demo5/service/OpenAiService.java:68-76 | One prompt message per entry, in order. |
| OpenAi.BuildPrompt | src/main/java/com/example/demo5/service/OpenAiService.java:78-81 | The system message comes first, then the mapped history in order, for |history| + 1 messages. |
| OpenAi.GetChatResponse | src/main/java/com/example/demo5/service/OpenAiService.java:57-94 | The model's text (possibly null) is returned. Any exception gives the fixed apology. |
| OpenAi.GetChatResponseForHistory | src/main/java/com/example/demo5/service/OpenAiService.java:47-49 | The history overload passes a null custom prompt. |
| OpenAi.GetChatResponseForQuestion | src/main/java/com/example/demo5/service/OpenAiService.java:38-40 | The question overload sends one User message with a null custom prompt. |
| OpenAi.QuestionPrompt | src/main/java/com/example/demo5/service/OpenAiService.java:38-40 | The question overload sends exactly [system(default), user(question)]. |
| OpenAi.BlankPromptUsesDefault | src/main/java/com/example/demo5/service/OpenAiService.java:61 | A whitespace-only custom prompt falls back to the default. |
| Text.SplitN | src/main/java/com/example/demo5/service/KeywordAnalysisService.java:120 | split(sep, n) gives 1 to n parts. |
| Text.SplitNParts | src/main/java/com/example/demo5/service/KeywordAnalysisService.java:120 | The parts of split(sep, n) join back to the input. Only the last part may contain the separator, and it does not when fewer than n parts came back. |
| Text.SplitNJoin | src/main/java/com/example/demo5/service/KeywordAnalysisService.java:120 | Splitting a joined list of cleanly cut pieces gives the pieces back. |
| Text.Split | src/main/java/com/example/demo5/service/TopicRecommendationService.java:41 | No piece of split(sep) contains the separator. Without an occurrence the input comes back whole. Otherwise the result is the full split with its trailing empty pieces dropped: a prefix of SplitAll, ending in a non-empty piece, with only empty pieces after it. |
| Text.SplitJoin | src/main/java/com/example/demo5/service/TopicRecommendationService.java:41 | split(sep) of a joined list whose last piece is non-empty gives the list back. |
| Text.Trim | src/main/java/com/example/demo5/service/MemberStatusAnalysisService.java:86 | The result is no longer than the input, and neither end is a character at or below ' '. |
| Text.TrimIsMiddle | src/main/java/com/example/demo5/service/MemberStatusAnalysisService.java:86 | trim() returns a middle slice of the input, and every character before or after that slice is at or below ' '. |
| Text.TrimOfTrimmed | src/main/java/com/example/demo5/service/TopicRecommendationService.java:45 | Trim leaves trimmed text unchanged. |
| Text.IndexOf | src/main/java/com/example/demo5/service/TopicRecommendationService.java:43 | The first occurrence is found, or none exists. |

## Left out

- `@Transactional` rollback is not modelled. With it, a `makeCall` exception would also undo the QUEUED record; the model keeps the record, as the code's statement order does.
- `@Async`, `@Scheduled` and the thread safety of `ConcurrentHashMap` are left out. Everything runs sequentially.
- Logging, TwiML/XML rendering and the Say voice settings are left out. A reply is `Gather(text, action URL)` or `Hangup(text)`.
- The chat model, Jackson and the provider SDK are left out. They are parameters, as described above.
- `SecureRandom` and Base64 id generation are left out. Ids are a sequence of draws, and `createMember` requires that one of them is free.
- `LocalDateTime.now()` is a parameter. A tick uses one timestamp for every record it creates.
- `CallScheduler` calls `findActiveSchedulesWithMember(true)`, which the repository interface does not declare. It is modelled as the table filtered on `isActive`, in table order.
- `findByMember_MemberIdAndRequestedAtBetween` is a derived query with no `OrderBy`, so the database may return rows in any order. The model returns them in table order.
- Timestamps are whole seconds. The sub-second part of `LocalDateTime` is not modelled. So the model does not cover rows that fall within one second of a window edge. It also does not cover `LatestAutoCall` ties that differ only below a second.
- `getLatestAutoCallStatus` calls a finder the call-log repository does not declare. It is modelled as the latest AUTO call by request time, the first in table order among ties.
- `getCallHistory`, `getMemberStatusTag` and `MemberService.getConversationSummary` are left out. They are read-only lookups, formatting and a delegation.
- `generateRandomId` is left out. It is covered by the id draws.
- `KeywordAiService`, `QuestionGenerationService`, `ScheduleService`, the controllers and the DTOs are not part of this model.
- `CallLog.member` and `callType` have no setter, and `requestedAt` is not updatable. The model gives them no setter methods, so they cannot change after creation.
- `equalsIgnoreCase` is modelled for ASCII letters only. Java's Unicode case folding is not modelled.
- A null speaker in a stored transcript is not modelled; speakers are strings. A null message is modelled and prints as "null".
- `Map.of(question, answer)` throws on a null question or answer. Strings here are never null, so that exception is not modelled.
- `int` overflow of `getCurrentQuestionIndex` is not modelled; the index is unbounded.
- A voicemail check, a provider status callback and a "transcript already present" guard do not exist in the code, and none is modelled. Repeated finalization is safe only because the session is removed.
- Finalize writes the row before removing the session. The model removes the session first; the two writes touch disjoint state.
- Qna.Finalized: its own contract states only that the number of rows is kept. The row-by-row effect is stated by FinalizeWritesOnlyTheCall, FinalizeKeepsIdentity and SavedTranscriptReadsBack.
- Summary.SummaryFor: its own contract states only the no-records case. The other two outcomes are stated by NothingReadableSkipsModel and ReadableTranscriptAsksModel.
- Topics.ParseLines: its own contract states only the length bound. Order and provenance are stated by ParseLinesAppend, ParseLinesFromLines and TopicsRoundTrip.
- Topics.RecommendTopics: its own contract states only the null-answer case. The exception case is ApologyGivesNoTopics, and the text case is TopicsRoundTrip.
- StatusAnalysis.StatusFor: its own contract states only the closed tag set. The outcomes are stated by NothingToReadIsSafe and ModelTagIsStored.

## Findings

| source | as written | input that shows it | evidently intended | confidence | as-written member | corrected member |
|---|---|---|---|---|---|---|
| src/main/java/com/example/demo5/service/KeywordAnalysisService.java:118-119 | `startsWith("['") && endsWith("']")` accepts a three-character text whose two checks overlap, and then `substring(2, length - 2)` is `substring(2, 1)`, which throws | the model answers `[']` | report the answer as badly formatted, like any other unparseable answer | not executed | KeywordAnalysis.ParseAiResponseAsWritten | KeywordAnalysis.ParseAiResponse |
