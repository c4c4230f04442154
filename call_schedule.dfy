/**
 * The CallSchedule entity: a member's recurring call. The id and the member
 * are fixed; `update` overwrites each of the other four fields only when it
 * is given a non-null value for it.
 */
module Schedules {
  import opened Wrappers
  import opened Dates

  datatype Frequency = DAILY | WEEKLY | MONTHLY

  /** The four fields `update` may change. */
  datatype ScheduleFields = ScheduleFields(startDate: Date, frequency: Frequency, callTime: Time, isActive: bool)

  /** The four (nullable) arguments of `update`; also the fields of a schedule request. */
  datatype ScheduleUpdate = ScheduleUpdate(
    startDate: Option<Date>,
    frequency: Option<Frequency>,
    callTime: Option<Time>,
    isActive: Option<bool>)

  const NO_CHANGE: ScheduleUpdate := ScheduleUpdate(None, None, None, None)

  /** The fields after `update(u)`: a given value replaces its field, null keeps it. */
  function Apply(f: ScheduleFields, u: ScheduleUpdate): ScheduleFields {
    ScheduleFields(
      u.startDate.GetOr(f.startDate),
      u.frequency.GetOr(f.frequency),
      u.callTime.GetOr(f.callTime),
      u.isActive.GetOr(f.isActive))
  }

  /** Two updates in a row: the later non-null value wins. */
  function Then(u1: ScheduleUpdate, u2: ScheduleUpdate): ScheduleUpdate {
    ScheduleUpdate(
      if u2.startDate.Some? then u2.startDate else u1.startDate,
      if u2.frequency.Some? then u2.frequency else u1.frequency,
      if u2.callTime.Some? then u2.callTime else u1.callTime,
      if u2.isActive.Some? then u2.isActive else u1.isActive)
  }

  /** An update with every argument null changes nothing. */
  lemma ApplyNothing(f: ScheduleFields)
    ensures Apply(f, NO_CHANGE) == f
  {
  }

  /** Applying the same update twice is the same as applying it once. */
  lemma ApplyIdempotent(f: ScheduleFields, u: ScheduleUpdate)
    ensures Apply(Apply(f, u), u) == Apply(f, u)
  {
  }

  /** Two updates in a row are one merged update. */
  lemma ApplyThen(f: ScheduleFields, u1: ScheduleUpdate, u2: ScheduleUpdate)
    ensures Apply(Apply(f, u1), u2) == Apply(f, Then(u1, u2))
  {
  }

  class CallSchedule {
    /** The identity the store assigned on first save. */
    const scheduleId: int
    /** The owning member's id; the entity has no setter for it. */
    const member: string
    var startDate: Date
    var frequency: Frequency
    var callTime: Time
    var isActive: bool

    function Fields(): ScheduleFields
      reads this
    {
      ScheduleFields(startDate, frequency, callTime, isActive)
    }

    /** The builder (member, startDate, frequency, callTime, isActive), saved under `scheduleId`. */
    constructor (scheduleId: int, member: string, startDate: Date, frequency: Frequency, callTime: Time, isActive: bool)
      ensures this.scheduleId == scheduleId && this.member == member
      ensures Fields() == ScheduleFields(startDate, frequency, callTime, isActive)
    {
      this.scheduleId := scheduleId;
      this.member := member;
      this.startDate := startDate;
      this.frequency := frequency;
      this.callTime := callTime;
      this.isActive := isActive;
    }

    /** update(startDate, frequency, callTime, isActive). */
    method Update(startDate: Option<Date>, frequency: Option<Frequency>, callTime: Option<Time>, isActive: Option<bool>)
      modifies this
      ensures Fields() == Apply(old(Fields()), ScheduleUpdate(startDate, frequency, callTime, isActive))
    {
      if startDate.Some? { this.startDate := startDate.value; }
      if frequency.Some? { this.frequency := frequency.value; }
      if callTime.Some? { this.callTime := callTime.value; }
      if isActive.Some? { this.isActive := isActive.value; }
    }
  }
}
