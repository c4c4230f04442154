/**
 * CallScheduler.checkSchedules: once a minute, look at every active
 * schedule and place an automatic call for each one that is due now. A
 * schedule is due when its start date is not in the future, its call time
 * matches the current time to the minute, and its frequency's day rule
 * holds. A failing call is logged and the remaining schedules are still
 * looked at.
 */
module Scheduler {
  import opened Wrappers
  import opened Dates
  import opened CallLogs
  import opened Schedules
  import opened Store
  import opened Twilio
  import opened Members

  /** The day rule of each frequency. */
  predicate DayMatches(f: ScheduleFields, today: Date) {
    match f.frequency
    case DAILY => true
    case WEEKLY => DayOfWeek(today) == DayOfWeek(f.startDate)
    case MONTHLY => DayOfMonth(today) == DayOfMonth(f.startDate)
  }

  /** The three conditions, checked in this order, on a clock reading `now`. */
  predicate IsDue(f: ScheduleFields, today: Date, now: Time) {
    !IsAfter(f.startDate, today)
    && TruncatedToMinutes(f.callTime) == TruncatedToMinutes(now)
    && DayMatches(f, today)
  }

  /** A schedule the tick dispatches: active (the repository's filter) and due. */
  predicate Selected(row: ScheduleRow, today: Date, now: Time) {
    row.fields.isActive && IsDue(row.fields, today, now)
  }

  /** The positions of the selected schedules, in list order. */
  function DuePositions(rows: seq<ScheduleRow>, today: Date, now: Time): seq<nat> {
    if rows == [] then []
    else
      var n := |rows| - 1;
      var rest := DuePositions(rows[..n], today, now);
      if Selected(rows[n], today, now) then rest + [n] else rest
  }

  /**
   * The dispatched schedules are exactly the selected ones, each once, in
   * list order: the positions are selected, strictly increasing, and miss
   * no selected schedule.
   */
  lemma {:induction false} DueExactlyOnceInOrder(rows: seq<ScheduleRow>, today: Date, now: Time)
    ensures forall k :: 0 <= k < |DuePositions(rows, today, now)| ==>
      DuePositions(rows, today, now)[k] < |rows| && Selected(rows[DuePositions(rows, today, now)[k]], today, now)
    ensures forall k, l :: 0 <= k < l < |DuePositions(rows, today, now)| ==>
      DuePositions(rows, today, now)[k] < DuePositions(rows, today, now)[l]
    ensures forall i :: 0 <= i < |rows| && Selected(rows[i], today, now) ==> i in DuePositions(rows, today, now)
  {
    if rows != [] {
      var n := |rows| - 1;
      DueExactlyOnceInOrder(rows[..n], today, now);
      var rest := DuePositions(rows[..n], today, now);
      forall k | 0 <= k < |rest|
        ensures rest[k] < n && rows[..n][rest[k]] == rows[rest[k]]
      {
      }
      forall i | 0 <= i < n
        ensures rows[..n][i] == rows[i]
      {
      }
    }
  }

  /** Every position in the selection is a position of the table. */
  lemma DuePositionsInRange(rows: seq<ScheduleRow>, today: Date, now: Time)
    ensures forall k :: 0 <= k < |DuePositions(rows, today, now)| ==> DuePositions(rows, today, now)[k] < |rows|
  {
    DueExactlyOnceInOrder(rows, today, now);
  }

  /** Every selected schedule belongs to a member, so its member's phone number can be looked up. */
  predicate Dialable(rows: seq<ScheduleRow>, positions: seq<nat>, members: map<string, string>) {
    forall k :: 0 <= k < |positions| ==> positions[k] < |rows| && rows[positions[k]].member in members
  }

  /** The effect of the tick: one automatic call per selected schedule, in order. */
  function DispatchAll(st: CallState, answers: nat -> Option<string>, members: map<string, string>,
                       rows: seq<ScheduleRow>, positions: seq<nat>, baseUrl: string, stamp: Timestamp): CallState
    requires Dialable(rows, positions, members)
  {
    if positions == [] then st
    else
      var n := |positions| - 1;
      var row := rows[positions[n]];
      var before := DispatchAll(st, answers, members, rows, positions[..n], baseUrl, stamp);
      Dispatch(before, answers, members[row.member], row.member, AUTO, baseUrl, stamp)
  }

  /**
   * checkSchedules for the date `today` and the clock reading `clock`;
   * `stamp` is the request time written on each new call record. The
   * outcome of each call is discarded, whether it succeeded or not.
   */
  method CheckSchedules(db: Database, provider: Provider, today: Date, clock: Time, baseUrl: string, stamp: Timestamp)
    requires db.Valid()
    modifies db, provider
    ensures db.Valid()
    ensures db.members == old(db.members) && db.keywords == old(db.keywords) && db.statusTags == old(db.statusTags)
    ensures db.schedules == old(db.schedules) && db.nextScheduleId == old(db.nextScheduleId)
    ensures ScheduleRows(db.schedules) == old(ScheduleRows(db.schedules))
    ensures Dialable(ScheduleRows(db.schedules), DuePositions(ScheduleRows(db.schedules), today, clock), db.members)
    ensures CallState(db.LogRows(), provider.placed)
         == DispatchAll(CallState(old(db.LogRows()), old(provider.placed)), provider.answers, db.members,
                        ScheduleRows(db.schedules), DuePositions(ScheduleRows(db.schedules), today, clock), baseUrl, stamp)
  {
    var active := db.schedules;
    ghost var rows := ScheduleRows(active);
    ghost var st0 := CallState(db.LogRows(), provider.placed);
    ghost var members, answers := db.members, provider.answers;
    assert forall j :: 0 <= j < |rows| ==> rows[j].member in members;
    var i := 0;
    while i < |active|
      invariant 0 <= i <= |active|
      invariant db.Valid()
      invariant db.members == members && db.keywords == old(db.keywords) && db.statusTags == old(db.statusTags)
      invariant db.schedules == active && db.nextScheduleId == old(db.nextScheduleId)
      invariant ScheduleRows(active) == rows
      invariant Dialable(rows, DuePositions(rows[..i], today, clock), members)
      invariant CallState(db.LogRows(), provider.placed)
             == DispatchAll(st0, answers, members, rows, DuePositions(rows[..i], today, clock), baseUrl, stamp)
    {
      ghost var before := CallState(db.LogRows(), provider.placed);
      DispatchAllStep(st0, answers, members, rows, i, today, clock, baseUrl, stamp);
      CheckSchedule(db, provider, i, today, clock, baseUrl, stamp);
      assert ScheduleRows(db.schedules)[i] == rows[i];
      ghost var after := CallState(db.LogRows(), provider.placed);
      assert after
          == if Selected(rows[i], today, clock)
             then Dispatch(before, answers, members[rows[i].member], rows[i].member, AUTO, baseUrl, stamp)
             else before;
      i := i + 1;
    }
    assert rows[..|active|] == rows;
    DuePositionsInRange(rows, today, clock);
    AllDialable(rows, DuePositions(rows, today, clock), db.members);
  }

  /**
   * The body of the loop for one schedule: skip it unless it is active and
   * due, otherwise place an automatic call and ignore how it ended.
   */
  method CheckSchedule(db: Database, provider: Provider, i: nat, today: Date, clock: Time, baseUrl: string, stamp: Timestamp)
    requires db.Valid() && i < |db.schedules|
    modifies db, provider
    ensures db.Valid()
    ensures db.members == old(db.members) && db.keywords == old(db.keywords) && db.statusTags == old(db.statusTags)
    ensures db.schedules == old(db.schedules) && db.nextScheduleId == old(db.nextScheduleId)
    ensures ScheduleRows(db.schedules) == old(ScheduleRows(db.schedules))
    ensures ScheduleRows(db.schedules)[i].member in db.members
    ensures var row := ScheduleRows(db.schedules)[i];
      CallState(db.LogRows(), provider.placed)
      == if Selected(row, today, clock)
         then Dispatch(CallState(old(db.LogRows()), old(provider.placed)), provider.answers,
                       db.members[row.member], row.member, AUTO, baseUrl, stamp)
         else CallState(old(db.LogRows()), old(provider.placed))
  {
    var schedule := db.schedules[i];
    ScheduleRowAt(db.schedules, i);
    ghost var rows := ScheduleRows(db.schedules);
    assert rows[i].member in db.members;
    var now := TruncatedToMinutes(clock);
    if !schedule.isActive {
      return;
    }
    if IsAfter(schedule.startDate, today) {
      return;
    }
    if TruncatedToMinutes(schedule.callTime) != now {
      return;
    }
    var shouldCall := false;
    match schedule.frequency {
      case DAILY =>
        shouldCall := true;
      case WEEKLY =>
        if DayOfWeek(today) == DayOfWeek(schedule.startDate) {
          shouldCall := true;
        }
      case MONTHLY =>
        if DayOfMonth(today) == DayOfMonth(schedule.startDate) {
          shouldCall := true;
        }
    }
    if shouldCall {
      var _ := InitiateAutoCall(db, provider, schedule, baseUrl, stamp);
      assert ScheduleRows(db.schedules) == rows;
    }
  }

  /** One more schedule looked at: its position joins the selection exactly when it is selected. */
  lemma DuePositionsStep(rows: seq<ScheduleRow>, i: nat, today: Date, now: Time)
    requires i < |rows|
    ensures DuePositions(rows[..i + 1], today, now)
         == DuePositions(rows[..i], today, now) + (if Selected(rows[i], today, now) then [i] else [])
  {
    assert rows[..i + 1][..i] == rows[..i];
  }

  /** One more schedule looked at: it is dispatched after the earlier ones exactly when it is selected. */
  lemma DispatchAllStep(st: CallState, answers: nat -> Option<string>, members: map<string, string>,
                        rows: seq<ScheduleRow>, i: nat, today: Date, now: Time, baseUrl: string, stamp: Timestamp)
    requires i < |rows| && forall j :: 0 <= j < |rows| ==> rows[j].member in members
    ensures Dialable(rows, DuePositions(rows[..i], today, now), members)
    ensures Dialable(rows, DuePositions(rows[..i + 1], today, now), members)
    ensures var before := DispatchAll(st, answers, members, rows, DuePositions(rows[..i], today, now), baseUrl, stamp);
      DispatchAll(st, answers, members, rows, DuePositions(rows[..i + 1], today, now), baseUrl, stamp)
      == if Selected(rows[i], today, now)
         then Dispatch(before, answers, members[rows[i].member], rows[i].member, AUTO, baseUrl, stamp)
         else before
  {
    var p := DuePositions(rows[..i], today, now);
    DuePositionsStep(rows, i, today, now);
    DuePositionsInRange(rows[..i], today, now);
    AllDialable(rows, p, members);
    AllDialable(rows, DuePositions(rows[..i + 1], today, now), members);
    if Selected(rows[i], today, now) {
      DispatchAllSnoc(st, answers, members, rows, p, i, baseUrl, stamp);
    } else {
      assert DuePositions(rows[..i + 1], today, now) == p;
    }
  }

  /** Any positions inside a table whose every row has a member are dialable. */
  lemma AllDialable(rows: seq<ScheduleRow>, p: seq<nat>, members: map<string, string>)
    requires forall j :: 0 <= j < |rows| ==> rows[j].member in members
    requires forall k :: 0 <= k < |p| ==> p[k] < |rows|
    ensures Dialable(rows, p, members)
  {
  }

  /** Dispatching one more position dispatches it after all the earlier ones. */
  lemma DispatchAllSnoc(st: CallState, answers: nat -> Option<string>, members: map<string, string>,
                        rows: seq<ScheduleRow>, p: seq<nat>, i: nat, baseUrl: string, stamp: Timestamp)
    requires i < |rows| && Dialable(rows, p, members) && rows[i].member in members
    ensures Dialable(rows, p + [i], members)
    ensures DispatchAll(st, answers, members, rows, p + [i], baseUrl, stamp)
      == Dispatch(DispatchAll(st, answers, members, rows, p, baseUrl, stamp), answers, members[rows[i].member], rows[i].member, AUTO, baseUrl, stamp)
  {
    assert (p + [i])[..|p|] == p;
  }

  /**
   * The due rule in plain terms: the start date is today or earlier, the
   * hour and minute agree (seconds and nanoseconds do not matter), and a
   * weekly schedule fires a whole number of weeks after its start date, a
   * monthly one on the same day of the month.
   */
  lemma DueIff(f: ScheduleFields, today: Date, now: Time)
    ensures IsDue(f, today, now) <==>
      && !IsAfter(f.startDate, today)
      && f.callTime.hour == now.hour && f.callTime.minute == now.minute
      && match f.frequency
         case DAILY => true
         case WEEKLY => (EpochDay(today) - EpochDay(f.startDate)) % 7 == 0
         case MONTHLY => today.day == f.startDate.day
  {
    SameMinuteIff(f.callTime, now);
    SameWeekdayIffWholeWeeks(today, f.startDate);
  }

  /** A monthly schedule started on a day the current month does not have never fires this month. */
  lemma MonthlySkipsShortMonths(f: ScheduleFields, today: Date, now: Time)
    requires f.frequency == MONTHLY && f.startDate.day > DaysInMonth(today.year, today.month)
    ensures !IsDue(f, today, now)
  {
  }

  /** Two clock readings in the same minute select the same schedules. */
  lemma {:induction false} SecondsIgnored(rows: seq<ScheduleRow>, today: Date, a: Time, b: Time)
    requires a.hour == b.hour && a.minute == b.minute
    ensures DuePositions(rows, today, a) == DuePositions(rows, today, b)
  {
    if rows != [] {
      SecondsIgnored(rows[..|rows| - 1], today, a, b);
    }
  }

  /**
   * A weekly schedule started on Saturday 2025-11-15 at 10:00 fires on the
   * following Saturday at any second of 10:00, and not on the Friday before.
   */
  lemma WeeklyExample()
    ensures var f := ScheduleFields(LocalDate(2025, 11, 15), WEEKLY, LocalTime(10, 0, 0, 0), true);
      && IsDue(f, LocalDate(2025, 11, 22), LocalTime(10, 0, 42, 0))
      && !IsDue(f, LocalDate(2025, 11, 21), LocalTime(10, 0, 0, 0))
  {
    var start, saturday, friday := LocalDate(2025, 11, 15), LocalDate(2025, 11, 22), LocalDate(2025, 11, 21);
    SameMonthDays(saturday, start);
    SameWeekdayIffWholeWeeks(saturday, start);
    SameMonthDays(friday, start);
    SameWeekdayIffWholeWeeks(friday, start);
  }

  /**
   * The tick adds one QUEUED automatic record per selected schedule, for
   * that schedule's member, after the existing records, and one request to
   * that member's formatted number per selected schedule.
   */
  lemma {:induction false} DispatchAllAppends(st: CallState, answers: nat -> Option<string>, members: map<string, string>,
                                              rows: seq<ScheduleRow>, p: seq<nat>, baseUrl: string, stamp: Timestamp)
    requires Dialable(rows, p, members)
    ensures var r := DispatchAll(st, answers, members, rows, p, baseUrl, stamp);
      && |r.rows| == |st.rows| + |p| && r.rows[..|st.rows|] == st.rows
      && |r.placed| == |st.placed| + |p| && r.placed[..|st.placed|] == st.placed
      && forall k :: 0 <= k < |p| ==>
           var row := r.rows[|st.rows| + k];
           && row.member == rows[p[k]].member && row.callType == AUTO && row.status == QUEUED
           && row.requestedAt == stamp && row.callData == None
           && r.placed[|st.placed| + k] == (FormatPhoneNumber(members[rows[p[k]].member]), baseUrl + WELCOME_PATH)
  {
    if p != [] {
      var n := |p| - 1;
      var q := p[..n];
      assert Dialable(rows, q, members) by {
        forall k | 0 <= k < |q|
          ensures q[k] < |rows| && rows[q[k]].member in members
        {
          assert q[k] == p[k];
        }
      }
      DispatchAllAppends(st, answers, members, rows, q, baseUrl, stamp);
      var before := DispatchAll(st, answers, members, rows, q, baseUrl, stamp);
      var row := rows[p[n]];
      var r := DispatchAll(st, answers, members, rows, p, baseUrl, stamp);
      assert r == Dispatch(before, answers, members[row.member], row.member, AUTO, baseUrl, stamp);
      var added := LogRow(LinkedSid(answers(|before.placed|), before.rows), row.member, AUTO, QUEUED, stamp, None, None, None);
      var call := (FormatPhoneNumber(members[row.member]), baseUrl + WELCOME_PATH);
      assert r.rows == before.rows + [added];
      assert r.placed == before.placed + [call];
      forall k | 0 <= k < |p|
        ensures r.rows[|st.rows| + k].member == rows[p[k]].member && r.rows[|st.rows| + k].callType == AUTO
        ensures r.rows[|st.rows| + k].status == QUEUED && r.rows[|st.rows| + k].requestedAt == stamp
        ensures r.rows[|st.rows| + k].callData == None
        ensures r.placed[|st.placed| + k] == (FormatPhoneNumber(members[rows[p[k]].member]), baseUrl + WELCOME_PATH)
      {
        if k < n {
          assert q[k] == p[k];
          assert r.rows[|st.rows| + k] == before.rows[|st.rows| + k];
          assert r.placed[|st.placed| + k] == before.placed[|st.placed| + k];
        } else {
          assert r.rows[|st.rows| + k] == added;
          assert r.placed[|st.placed| + k] == call;
        }
      }
      assert r.rows[..|st.rows|] == before.rows[..|st.rows|];
      assert r.placed[..|st.placed|] == before.placed[..|st.placed|];
    }
  }
}
