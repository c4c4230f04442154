/**
 * The persistent store the services share: the member table with its keyword
 * and status rows, the call_log table and the call_schedule table. A JPA
 * repository query becomes a read of these fields; a save becomes an update.
 */
module Store {
  import opened Wrappers
  import opened CallLogs
  import opened Schedules

  /** The exceptions the services throw to their callers, with their messages. */
  datatype ServiceError =
    | EntityNotFound(message: string)
    | IllegalArgument(message: string)
    | IllegalState(message: string)
    /** The provider refused or failed to place the call. */
    | ProviderFailure
    /** The store refused a row: a null in a non-null column or a duplicate unique value. */
    | ConstraintViolation

  /** The values of one call_schedule row at one moment. */
  datatype ScheduleRow = ScheduleRow(scheduleId: int, member: string, fields: ScheduleFields)

  /** The rows of a list of CallSchedule objects, in order. */
  function ScheduleRows(ss: seq<CallSchedule>): (r: seq<ScheduleRow>)
    reads ss
    ensures |r| == |ss|
  {
    if ss == [] then [] else [ScheduleRow(ss[0].scheduleId, ss[0].member, ss[0].Fields())] + ScheduleRows(ss[1..])
  }

  /** The row at position i is the row of the i-th schedule. */
  lemma {:induction false} ScheduleRowAt(ss: seq<CallSchedule>, i: nat)
    requires i < |ss|
    ensures ScheduleRows(ss)[i] == ScheduleRow(ss[i].scheduleId, ss[i].member, ss[i].Fields())
  {
    if i > 0 {
      ScheduleRowAt(ss[1..], i - 1);
    }
  }

  /** Each row is the row of the schedule at the same position. */
  lemma {:induction false} ScheduleRowsAt(ss: seq<CallSchedule>)
    ensures forall i :: 0 <= i < |ss| ==> ScheduleRows(ss)[i] == ScheduleRow(ss[i].scheduleId, ss[i].member, ss[i].Fields())
  {
    if ss != [] {
      ScheduleRowsAt(ss[1..]);
    }
  }

  /** No two distinct members share a phone number (the unique constraint on phone_number). */
  predicate PhonesUnique(members: map<string, string>) {
    forall a, b :: a in members && b in members && members[a] == members[b] ==> a == b
  }

  /** Some member already has this phone number (existsByPhoneNumber). */
  predicate PhoneTaken(members: map<string, string>, phone: string) {
    exists id :: id in members && members[id] == phone
  }

  class Database {
    /** member: member_id -> phone_number. */
    var members: map<string, string>
    /** member_keyword: member_id -> keyword (a JSON text, nullable). */
    var keywords: map<string, Option<string>>
    /** member_status: member_id -> status_tag. */
    var statusTags: map<string, string>
    /** call_log, in insertion order. */
    var callLogs: seq<CallLog>
    /** call_schedule, in insertion order. */
    var schedules: seq<CallSchedule>
    /** The next value of the call_schedule identity column. */
    var nextScheduleId: int

    constructor ()
      ensures members == map[] && keywords == map[] && statusTags == map[]
      ensures callLogs == [] && schedules == [] && nextScheduleId == 1
      ensures Valid()
    {
      members := map[];
      keywords := map[];
      statusTags := map[];
      callLogs := [];
      schedules := [];
      nextScheduleId := 1;
    }

    function LogRows(): seq<LogRow>
      reads this, callLogs
    {
      Rows(callLogs)
    }

    /** The constraints the schema and the services keep: every log is its own object, and the rows are consistent. */
    ghost predicate Valid()
      reads this, callLogs, schedules
    {
      LogsDistinct(callLogs)
      && Consistent(members, keywords, statusTags, Rows(callLogs), ScheduleRows(schedules), nextScheduleId)
    }
  }

  /**
   * The row-level constraints: call ids are unique, the schedule rows are
   * consistent, phone numbers are unique, and every member has exactly one
   * keyword row and one status row.
   */
  predicate Consistent(members: map<string, string>, keywords: map<string, Option<string>>, statusTags: map<string, string>,
                       logRows: seq<LogRow>, scheduleRows: seq<ScheduleRow>, nextScheduleId: int)
  {
    SidsUnique(logRows)
    && SchedulesConsistent(scheduleRows, nextScheduleId, members)
    && PhonesUnique(members)
    && keywords.Keys == members.Keys
    && statusTags.Keys == members.Keys
  }

  predicate LogsDistinct(logs: seq<CallLog>) {
    forall i, j :: 0 <= i < j < |logs| ==> logs[i] != logs[j]
  }

  /** Schedule ids are unique and below the next identity value, and every schedule belongs to a member. */
  predicate SchedulesConsistent(rows: seq<ScheduleRow>, nextId: int, members: map<string, string>) {
    (forall i, j :: 0 <= i < j < |rows| ==> rows[i].scheduleId != rows[j].scheduleId)
    && (forall i :: 0 <= i < |rows| ==> rows[i].scheduleId < nextId && rows[i].member in members)
  }

  /** Appending a log adds its row at the end and leaves the earlier rows as they were. */
  lemma RowsSnoc(logs: seq<CallLog>, x: CallLog)
    ensures Rows(logs + [x]) == Rows(logs) + [x.Row()]
  {
    var l := logs + [x];
    RowsAt(l);
    RowsAt(logs);
    assert forall i :: 0 <= i < |logs| ==> l[i] == logs[i];
  }
}
