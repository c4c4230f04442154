/**
 * The CallLog entity: one row per placed call. The member, the call type and
 * the creation time are fixed once the row exists; the provider call id,
 * the transcript, the status and the two analysis fields have setters.
 */
module CallLogs {
  import opened Wrappers

  datatype CallType = MANUAL | AUTO

  datatype CallStatus = QUEUED | COMPLETED | FAILED

  /** A LocalDateTime, as whole seconds on the local time line. */
  type Timestamp = int

  const SECONDS_PER_DAY: int := 86400

  /** The values of one CallLog row at one moment. */
  datatype LogRow = LogRow(
    callSid: Option<string>,
    member: string,
    callType: CallType,
    status: CallStatus,
    requestedAt: Timestamp,
    callData: Option<string>,
    callResultSentiment: Option<string>,
    simpleSummary: Option<string>)

  class CallLog {
    var callSid: Option<string>
    const member: string
    const callType: CallType
    var status: CallStatus
    /** Set by the creation timestamp when the row is first saved and never updated. */
    const requestedAt: Timestamp
    var callData: Option<string>
    var callResultSentiment: Option<string>
    var simpleSummary: Option<string>

    function Row(): LogRow
      reads this
    {
      LogRow(callSid, member, callType, status, requestedAt, callData, callResultSentiment, simpleSummary)
    }

    /** The builder (member, callType, status), saved at `requestedAt`: everything else starts null. */
    constructor (member: string, callType: CallType, status: CallStatus, requestedAt: Timestamp)
      ensures Row() == LogRow(None, member, callType, status, requestedAt, None, None, None)
    {
      this.member := member;
      this.callType := callType;
      this.status := status;
      this.requestedAt := requestedAt;
      this.callSid := None;
      this.callData := None;
      this.callResultSentiment := None;
      this.simpleSummary := None;
    }

    method SetCallSid(callSid: Option<string>)
      modifies this
      ensures Row() == old(Row()).(callSid := callSid)
    {
      this.callSid := callSid;
    }

    method SetCallData(callData: Option<string>)
      modifies this
      ensures Row() == old(Row()).(callData := callData)
    {
      this.callData := callData;
    }

    method SetStatus(status: CallStatus)
      modifies this
      ensures Row() == old(Row()).(status := status)
    {
      this.status := status;
    }

    method SetCallResultSentiment(sentiment: Option<string>)
      modifies this
      ensures Row() == old(Row()).(callResultSentiment := sentiment)
    {
      this.callResultSentiment := sentiment;
    }

    method SetSimpleSummary(summary: Option<string>)
      modifies this
      ensures Row() == old(Row()).(simpleSummary := summary)
    {
      this.simpleSummary := summary;
    }
  }

  /** The rows of a list of CallLog objects, in order. */
  function Rows(logs: seq<CallLog>): (r: seq<LogRow>)
    reads logs
    ensures |r| == |logs|
  {
    if logs == [] then [] else [logs[0].Row()] + Rows(logs[1..])
  }

  /** Each row is the row of the log at the same position. */
  lemma {:induction false} RowsAt(logs: seq<CallLog>)
    ensures forall i :: 0 <= i < |logs| ==> Rows(logs)[i] == logs[i].Row()
  {
    if logs != [] {
      RowsAt(logs[1..]);
    }
  }

  /** The unique constraint on call_sid: no two rows share a non-null provider call id. */
  predicate SidsUnique(rows: seq<LogRow>) {
    forall i, j :: 0 <= i < |rows| && 0 <= j < |rows| && i != j && rows[i].callSid.Some? ==>
      rows[i].callSid != rows[j].callSid
  }

  /** findByCallSid: the position of the row carrying `sid`, if any. */
  function FindBySid(rows: seq<LogRow>, sid: string): (r: Option<nat>)
    ensures r.Some? ==> r.value < |rows| && rows[r.value].callSid == Some(sid)
    ensures r.None? ==> forall i :: 0 <= i < |rows| ==> rows[i].callSid != Some(sid)
  {
    if rows == [] then None
    else if rows[0].callSid == Some(sid) then Some(0)
    else match FindBySid(rows[1..], sid)
      case None => None
      case Some(i) => Some(i + 1)
  }

  /** With the unique constraint, the lookup finds the one row that carries the id. */
  lemma FindBySidIsTheRow(rows: seq<LogRow>, sid: string, k: nat)
    requires SidsUnique(rows)
    requires k < |rows| && rows[k].callSid == Some(sid)
    ensures FindBySid(rows, sid) == Some(k)
  {
  }

  /** findByMember_MemberIdAndRequestedAtBetween: the member's rows with start <= requestedAt <= end, in store order. */
  function InWindow(rows: seq<LogRow>, member: string, start: Timestamp, end: Timestamp): (r: seq<LogRow>)
    ensures |r| <= |rows|
    ensures forall i :: 0 <= i < |r| ==> r[i] in rows && r[i].member == member && start <= r[i].requestedAt <= end
    ensures forall x :: x in rows && x.member == member && start <= x.requestedAt <= end ==> x in r
  {
    if rows == [] then []
    else
      var rest := InWindow(rows[1..], member, start, end);
      if Matches(rows[0], member, start, end) then [rows[0]] + rest else rest
  }

  /** Whether one row is in the member's window. */
  predicate Matches(x: LogRow, member: string, start: Timestamp, end: Timestamp) {
    x.member == member && start <= x.requestedAt <= end
  }

  /** One row alone: it is returned exactly when it matches. */
  lemma InWindowSingle(x: LogRow, member: string, start: Timestamp, end: Timestamp)
    ensures InWindow([x], member, start, end) == if Matches(x, member, start, end) then [x] else []
  {
    assert [x][1..] == [];
  }

  /**
   * The query distributes over the table: the matches of a + b are the
   * matches of a followed by those of b, so the result keeps store order
   * and drops nothing.
   */
  lemma {:induction false} InWindowAppend(a: seq<LogRow>, b: seq<LogRow>, member: string, start: Timestamp, end: Timestamp)
    ensures InWindow(a + b, member, start, end) == InWindow(a, member, start, end) + InWindow(b, member, start, end)
  {
    if a == [] {
      assert a + b == b;
    } else {
      assert (a + b)[0] == a[0];
      assert (a + b)[1..] == a[1..] + b;
      InWindowAppend(a[1..], b, member, start, end);
    }
  }

  /** The seven-day window [end - 7 days, end] that the analysis services read. */
  function LastSevenDays(rows: seq<LogRow>, member: string, end: Timestamp): seq<LogRow> {
    InWindow(rows, member, end - 7 * SECONDS_PER_DAY, end)
  }
}
