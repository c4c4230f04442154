/**
 * CallDataRepository: an in-memory store of survey progress per call. For
 * each call id it keeps the index of the current question and the list of
 * {question: answer} entries given so far; the two maps are kept in step.
 */
module Progress {
  import opened Wrappers

  /** One `Map.of(question, answer)` entry. */
  datatype Answer = Answer(question: string, answer: string)

  class CallDataRepository {
    /** callSid -> index of the question in progress. */
    var callProgress: map<string, int>
    /** callSid -> the answers given so far, in order. */
    var surveyResults: map<string, seq<Answer>>

    constructor ()
      ensures callProgress == map[] && surveyResults == map[]
      ensures Valid()
    {
      callProgress := map[];
      surveyResults := map[];
    }

    /** The two maps know the same calls, and each call's index is the number of answers it has. */
    predicate Valid()
      reads this
    {
      callProgress.Keys == surveyResults.Keys
      && forall sid :: sid in callProgress ==> callProgress[sid] == |surveyResults[sid]|
    }

    /** startSurvey: index 0 and no answers, whatever was there before. */
    method StartSurvey(callSid: string)
      requires Valid()
      modifies this
      ensures Valid()
      ensures callProgress == old(callProgress)[callSid := 0]
      ensures surveyResults == old(surveyResults)[callSid := []]
      ensures (callProgress, surveyResults) == Step(old(callProgress), old(surveyResults), Start(callSid))
    {
      callProgress := callProgress[callSid := 0];
      surveyResults := surveyResults[callSid := []];
    }

    /** getCurrentQuestionIndex: the stored index, or 0 for a call never started. */
    function CurrentQuestionIndex(callSid: string): (r: int)
      reads this
      ensures callSid !in callProgress ==> r == 0
      ensures Valid() && callSid in surveyResults ==> r == |surveyResults[callSid]|
    {
      if callSid in callProgress then callProgress[callSid] else 0
    }

    /**
     * saveAnswerAndProceed: append one entry and move to the next question.
     * For a call never started, `surveyResults.get` gives null and the call
     * throws before changing anything; `ok` is false then.
     */
    method SaveAnswerAndProceed(callSid: string, question: string, answer: string) returns (ok: bool)
      requires Valid()
      modifies this
      ensures Valid()
      ensures ok <==> callSid in old(surveyResults)
      ensures ok ==> surveyResults == old(surveyResults)[callSid := old(surveyResults)[callSid] + [Answer(question, answer)]]
      ensures ok ==> callProgress == old(callProgress)[callSid := old(callProgress)[callSid] + 1]
      ensures !ok ==> surveyResults == old(surveyResults) && callProgress == old(callProgress)
      ensures (callProgress, surveyResults) == Step(old(callProgress), old(surveyResults), Save(callSid, question, answer))
    {
      if callSid !in surveyResults {
        return false;
      }
      surveyResults := surveyResults[callSid := surveyResults[callSid] + [Answer(question, answer)]];
      if callSid in callProgress {
        callProgress := callProgress[callSid := callProgress[callSid] + 1];
      }
      ok := true;
    }

    /** getSurveyResults: the answers of a started call, null otherwise. */
    function SurveyResults(callSid: string): (r: Option<seq<Answer>>)
      reads this
      ensures r.Some? <==> callSid in surveyResults
      ensures r.Some? ==> r.value == surveyResults[callSid]
    {
      if callSid in surveyResults then Some(surveyResults[callSid]) else None
    }

    /** clearCallData: forget this call and nothing else. */
    method ClearCallData(callSid: string)
      requires Valid()
      modifies this
      ensures Valid()
      ensures callProgress == old(callProgress) - {callSid}
      ensures surveyResults == old(surveyResults) - {callSid}
      ensures (callProgress, surveyResults) == Step(old(callProgress), old(surveyResults), Clear(callSid))
    {
      callProgress := callProgress - {callSid};
      surveyResults := surveyResults - {callSid};
    }
  }

  /** One operation on the repository, for reasoning about sequences of them. */
  datatype Op = Start(callSid: string) | Save(callSid: string, question: string, answer: string) | Clear(callSid: string)

  /** The maps after one operation, as the methods above leave them. */
  function Step(progress: map<string, int>, results: map<string, seq<Answer>>, op: Op): (map<string, int>, map<string, seq<Answer>>) {
    match op
    case Start(sid) => (progress[sid := 0], results[sid := []])
    case Save(sid, q, a) =>
      if sid !in results then (progress, results)
      else (if sid in progress then progress[sid := progress[sid] + 1] else progress,
            results[sid := results[sid] + [Answer(q, a)]])
    case Clear(sid) => (progress - {sid}, results - {sid})
  }

  /** The maps after a sequence of operations. */
  function Run(progress: map<string, int>, results: map<string, seq<Answer>>, ops: seq<Op>): (map<string, int>, map<string, seq<Answer>>)
    decreases |ops|
  {
    if ops == [] then (progress, results)
    else
      var next := Step(progress, results, ops[0]);
      Run(next.0, next.1, ops[1..])
  }

  /** The maps know the same calls and each index is its call's answer count. */
  predicate InStep(progress: map<string, int>, results: map<string, seq<Answer>>) {
    progress.Keys == results.Keys && forall sid :: sid in progress ==> progress[sid] == |results[sid]|
  }

  /** After any sequence of starts, saves and clears, a started call's index is its answer count. */
  lemma {:induction false} RunKeepsInStep(progress: map<string, int>, results: map<string, seq<Answer>>, ops: seq<Op>)
    requires InStep(progress, results)
    ensures InStep(Run(progress, results, ops).0, Run(progress, results, ops).1)
    decreases |ops|
  {
    if ops != [] {
      var next := Step(progress, results, ops[0]);
      assert InStep(next.0, next.1);
      RunKeepsInStep(next.0, next.1, ops[1..]);
    }
  }

  /** A survey started and then answered n times has index n and exactly those answers, in order. */
  lemma {:induction false} StartThenSaves(progress: map<string, int>, results: map<string, seq<Answer>>, sid: string, answers: seq<Answer>)
    ensures var ops := [Start(sid)] + seq(|answers|, i requires 0 <= i < |answers| => Save(sid, answers[i].question, answers[i].answer));
      var r := Run(progress, results, ops);
      sid in r.0 && sid in r.1 && r.0[sid] == |answers| && r.1[sid] == answers
    decreases |answers|
  {
    if answers == [] {
      var ops := [Start(sid)];
      assert ops[1..] == [];
    } else {
      var n := |answers| - 1;
      StartThenSaves(progress, results, sid, answers[..n]);
      var saves := seq(|answers|, i requires 0 <= i < |answers| => Save(sid, answers[i].question, answers[i].answer));
      var savesBefore := seq(n, i requires 0 <= i < n => Save(sid, answers[..n][i].question, answers[..n][i].answer));
      assert saves == savesBefore + [Save(sid, answers[n].question, answers[n].answer)];
      var r0 := Run(progress, results, [Start(sid)] + savesBefore);
      RunSnoc(progress, results, [Start(sid)] + savesBefore, Save(sid, answers[n].question, answers[n].answer));
      assert [Start(sid)] + saves == ([Start(sid)] + savesBefore) + [Save(sid, answers[n].question, answers[n].answer)];
      assert answers == answers[..n] + [answers[n]];
    }
  }

  /** Running one more operation is one more step after the run. */
  lemma {:induction false} RunSnoc(progress: map<string, int>, results: map<string, seq<Answer>>, ops: seq<Op>, op: Op)
    ensures var r := Run(progress, results, ops);
      Run(progress, results, ops + [op]) == Step(r.0, r.1, op)
    decreases |ops|
  {
    if ops == [] {
      assert [op][1..] == [];
    } else {
      var next := Step(progress, results, ops[0]);
      assert (ops + [op])[0] == ops[0];
      assert (ops + [op])[1..] == ops[1..] + [op];
      RunSnoc(next.0, next.1, ops[1..], op);
    }
  }

  /** Clearing one call leaves every other call's progress and answers as they were. */
  lemma ClearIsLocal(progress: map<string, int>, results: map<string, seq<Answer>>, sid: string, other: string)
    requires other != sid
    ensures var r := Step(progress, results, Clear(sid));
      (other in r.0 <==> other in progress) && (other in r.1 <==> other in results)
      && (other in progress ==> r.0[other] == progress[other])
      && (other in results ==> r.1[other] == results[other])
  {
  }
}
