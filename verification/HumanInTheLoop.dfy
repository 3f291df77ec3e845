/** The pause and answer calls of the job client, as patches. */
module HumanInTheLoop {
  import opened Wrappers
  import opened JsonValues
  import opened JobStore
  import opened JobHistories
  import RowLock

  function AddPendingQuestions(questions: seq<Json>, resumeToken: Option<string>): Patch {
    var flag := map["waiting_for_answers" := Json.Bool(true)];
    Patch(if resumeToken.Some? then flag["resume_token" := Str(resumeToken.value)] else flag,
          [], [("pending_questions", questions)], [])
  }

  function SubmitAnswers(answers: seq<Json>): Patch {
    Patch(map["pending_questions" := Arr([]), "waiting_for_answers" := Json.Bool(false)],
          [], [("submitted_answers", answers)], [])
  }

  function AppendSubmittedAnswers(answers: seq<Json>): Patch {
    Patch(map[], [], [("submitted_answers", answers)], [])
  }

  const ANSWERS := "submitted_answers"

  /** The calls a paused job sees: questions, answers, and whatever leaves the answers alone. */
  predicate PauseCall(op: Op, k: JobKey, answers: seq<Json>) {
    if op.ApplyPatch? && op.key == k then
      op.patch == SubmitAnswers(answers) || op.patch == AppendSubmittedAnswers(answers)
      || (answers == [] && LeavesField(op, k, ANSWERS) && AppendsElsewhere(op.patch.appendTo, ANSWERS)
          && CountsElsewhere(op.patch.increment, ANSWERS))
    else answers == [] && LeavesField(op, k, ANSWERS)
  }

  function Concat(xs: seq<seq<Json>>): seq<Json> {
    if xs == [] then [] else Concat(xs[..|xs| - 1]) + xs[|xs| - 1]
  }

  lemma QuestionsLeaveAnswers(k: JobKey, questions: seq<Json>, resumeToken: Option<string>)
    ensures PauseCall(ApplyPatch(k, AddPendingQuestions(questions, resumeToken)), k, [])
  {
  }

  lemma SubmissionsGoThrough(job: Job, answers: seq<Json>, now: int)
    ensures PatchedRow(job, SubmitAnswers(answers), now).Some?
    ensures PatchedRow(job, AppendSubmittedAnswers(answers), now).Some?
    ensures ItemsFor(SubmitAnswers(answers).appendTo, ANSWERS) == answers
    ensures ItemsFor(AppendSubmittedAnswers(answers).appendTo, ANSWERS) == answers
  {
    var items := SubmitAnswers(answers).appendTo;
    assert items[..0] == [];
    assert ItemsFor(items, ANSWERS) == ItemsFor([], ANSWERS) + answers;
  }

  lemma {:induction false} NothingFor(items: seq<(string, seq<Json>)>, f: string)
    requires AppendsElsewhere(items, f)
    ensures ItemsFor(items, f) == []
  {
    if items != [] {
      assert items[|items| - 1] in items;
      NothingFor(items[..|items| - 1], f);
    }
  }

  /** `submitted_answers` is the concatenation of all submissions, in commit order. */
  lemma {:induction false} AnswersAccumulate(jobs: Jobs, h: seq<Entry>, k: JobKey, submitted: seq<seq<Json>>)
    requires k in jobs && |submitted| == |h|
    requires forall i | 0 <= i < |h| :: PauseCall(h[i].op, k, submitted[i])
    ensures k in Serial(jobs, h, |h|)
    ensures ListAt(Serial(jobs, h, |h|)[k].data, ANSWERS) == ListAt(jobs[k].data, ANSWERS) + Concat(submitted)
  {
    PauseCallsOnlyAppend(jobs, h, k, submitted, |h|);
    assert submitted[..|h|] == submitted;
    ListIsTheConcatenation(jobs, h, k, ANSWERS, |h|);
  }

  lemma PauseCallAdds(jobs: Jobs, op: Op, now: int, k: JobKey, answers: seq<Json>)
    requires k in jobs && PauseCall(op, k, answers)
    ensures OnlyAppends(op, k, ANSWERS) && AddedItems(jobs, op, now, k, ANSWERS) == answers
    ensures k in Apply(jobs, op, now).0
  {
    if op.ApplyPatch? && op.key == k {
      SubmissionsGoThrough(jobs[k], answers, now);
      if AppendsElsewhere(op.patch.appendTo, ANSWERS) {
        NothingFor(op.patch.appendTo, ANSWERS);
      }
    }
  }

  lemma {:induction false} PauseCallsOnlyAppend(jobs: Jobs, h: seq<Entry>, k: JobKey, submitted: seq<seq<Json>>, n: nat)
    requires k in jobs && |submitted| == |h| && n <= |h|
    requires forall i | 0 <= i < |h| :: PauseCall(h[i].op, k, submitted[i])
    ensures forall i | 0 <= i < n :: OnlyAppends(h[i].op, k, ANSWERS)
    ensures k in Serial(jobs, h, n)
    ensures AllItems(jobs, h, k, ANSWERS, n) == Concat(submitted[..n])
  {
    hide Apply, PauseCall, OnlyAppends, AddedItems;
    if n > 0 {
      PauseCallsOnlyAppend(jobs, h, k, submitted, n - 1);
      PauseCallAdds(Serial(jobs, h, n - 1), h[n - 1].op, h[n - 1].now, k, submitted[n - 1]);
      assert submitted[..n][..n - 1] == submitted[..n - 1];
    }
  }

  /** Submitting answers ends the pause; appending them keeps the whole pause envelope. */
  lemma SubmitEndsPauseAppendKeepsIt(job: Job, answers: seq<Json>, now: int)
    ensures var ended := PatchedRow(job, SubmitAnswers(answers), now).value;
            Get(ended.data, "waiting_for_answers") == Json.Bool(false) && Get(ended.data, "pending_questions") == Arr([])
    ensures var kept := PatchedRow(job, AppendSubmittedAnswers(answers), now).value;
            forall f | f != ANSWERS && f != ACTIVITY :: Get(kept.data, f) == Get(job.data, f)
    ensures PatchedRow(job, SubmitAnswers(answers), now).value.status == job.status
  {
    SubmissionsGoThrough(job, answers, now);
    var items := SubmitAnswers(answers).appendTo;
    assert items[..0] == [];
    var o := job.data + (SubmitAnswers(answers).mergeFields - {"status"});
    assert AppendAll(o, items) == o[ANSWERS := Arr(ListAt(o, ANSWERS) + answers)];
    assert AppendAll(job.data, items) == job.data[ANSWERS := Arr(ListAt(job.data, ANSWERS) + answers)];
    assert job.data + (map[] - {"status"}) == job.data;
  }

  /** A pause sets the flag and its token in the same write as the questions. */
  lemma PauseIsOneWrite(job: Job, questions: seq<Json>, resumeToken: Option<string>, now: int)
    ensures var row := PatchedRow(job, AddPendingQuestions(questions, resumeToken), now);
            && row.Some? && Get(row.value.data, "waiting_for_answers") == Json.Bool(true)
            && (resumeToken.Some? ==> Get(row.value.data, "resume_token") == Str(resumeToken.value))
            && ListAt(row.value.data, "pending_questions") == ListAt(job.data, "pending_questions") + questions
  {
    var p := AddPendingQuestions(questions, resumeToken);
    assert p.appendTo[..0] == [];
    var o := job.data + (p.mergeFields - {"status"});
    assert AppendAll(o, p.appendTo) == o["pending_questions" := Arr(ListAt(o, "pending_questions") + questions)];
  }

  // ---- histories of pause and answer calls ----

  const QUESTIONS := "pending_questions"

  datatype ClientCall =
    | Ask(questions: seq<Json>, resumeToken: Option<string>)
    | Submit(answers: seq<Json>)
    | AppendAnswers(answers: seq<Json>)
    | Elsewhere(op: Op)               // any call that leaves both lists alone

  function OpOf(c: ClientCall, k: JobKey): Op {
    match c
    case Ask(questions, resumeToken) => ApplyPatch(k, AddPendingQuestions(questions, resumeToken))
    case Submit(answers) => ApplyPatch(k, SubmitAnswers(answers))
    case AppendAnswers(answers) => ApplyPatch(k, AppendSubmittedAnswers(answers))
    case Elsewhere(op) => op
  }

  predicate ListAlone(op: Op, k: JobKey, f: string) {
    LeavesField(op, k, f)
    && (op.ApplyPatch? && op.key == k ==> AppendsElsewhere(op.patch.appendTo, f) && CountsElsewhere(op.patch.increment, f))
  }

  predicate PauseTraffic(c: ClientCall, k: JobKey) {
    c.Elsewhere? ==> ListAlone(c.op, k, ANSWERS) && ListAlone(c.op, k, QUESTIONS)
  }

  function AnswersIn(c: ClientCall): seq<Json> {
    match c
    case Submit(answers) => answers
    case AppendAnswers(answers) => answers
    case _ => []
  }

  /** The questions still open after the call: asking adds, submitting clears. */
  function OpenAfter(asked: seq<Json>, c: ClientCall): seq<Json> {
    match c
    case Ask(questions, _) => asked + questions
    case Submit(_) => []
    case _ => asked
  }

  function OpenQuestions(asked: seq<Json>, calls: seq<ClientCall>, n: nat): seq<Json>
    requires n <= |calls|
  {
    if n == 0 then asked else OpenAfter(OpenQuestions(asked, calls, n - 1), calls[n - 1])
  }

  function AnswersOf(calls: seq<ClientCall>): seq<seq<Json>> {
    seq(|calls|, i requires 0 <= i < |calls| => AnswersIn(calls[i]))
  }

  ghost predicate IsPauseHistory(h: seq<Entry>, k: JobKey, calls: seq<ClientCall>) {
    |h| == |calls| && forall i | 0 <= i < |h| :: h[i].op == OpOf(calls[i], k) && PauseTraffic(calls[i], k)
  }

  lemma ClientCallIsPauseCall(c: ClientCall, k: JobKey)
    requires PauseTraffic(c, k)
    ensures PauseCall(OpOf(c, k), k, AnswersIn(c))
  {
    if c.Ask? {
      QuestionsLeaveAnswers(k, c.questions, c.resumeToken);
    }
  }

  lemma PatchLeavesList(job: Job, p: Patch, now: int, f: string)
    requires PatchedRow(job, p, now).Some? && f != ACTIVITY && f != "status"
    requires f !in p.mergeFields && NestedElsewhere(p.mergeNested, f)
    requires AppendsElsewhere(p.appendTo, f) && CountsElsewhere(p.increment, f)
    ensures ListAt(PatchedRow(job, p, now).value.data, f) == ListAt(job.data, f)
  {
    PatchAppends(job, p, now, f);
    NothingFor(p.appendTo, f);
  }

  lemma AskedQuestionsAppend(job: Job, questions: seq<Json>, resumeToken: Option<string>, now: int)
    ensures var row := PatchedRow(job, AddPendingQuestions(questions, resumeToken), now);
            row.Some? && ListAt(row.value.data, QUESTIONS) == ListAt(job.data, QUESTIONS) + questions
  {
    PauseIsOneWrite(job, questions, resumeToken, now);
  }

  lemma OpenQuestionsStep(jobs: Jobs, c: ClientCall, now: int, k: JobKey)
    requires k in jobs && PauseTraffic(c, k)
    ensures var after := Apply(jobs, OpOf(c, k), now).0;
            k in after && ListAt(after[k].data, QUESTIONS) == OpenAfter(ListAt(jobs[k].data, QUESTIONS), c)
  {
    match c {
      case Ask(questions, resumeToken) => AskedQuestionsAppend(jobs[k], questions, resumeToken, now);
      case Submit(answers) => SubmitEndsPauseAppendKeepsIt(jobs[k], answers, now);
      case AppendAnswers(answers) =>
        SubmissionsGoThrough(jobs[k], answers, now);
        PatchLeavesList(jobs[k], AppendSubmittedAnswers(answers), now, QUESTIONS);
      case Elsewhere(op) =>
        if op.ApplyPatch? && op.key == k {
          if PatchedRow(jobs[k], op.patch, now).Some? {
            PatchLeavesList(jobs[k], op.patch, now, QUESTIONS);
          }
        } else {
          StepLeavesField(jobs, op, now, k, QUESTIONS);
        }
    }
  }

  lemma {:induction false} QuestionsStayOpen(jobs: Jobs, h: seq<Entry>, k: JobKey, calls: seq<ClientCall>, n: nat)
    requires k in jobs && IsPauseHistory(h, k, calls) && n <= |h|
    ensures k in Serial(jobs, h, n)
    ensures ListAt(Serial(jobs, h, n)[k].data, QUESTIONS) == OpenQuestions(ListAt(jobs[k].data, QUESTIONS), calls, n)
  {
    hide Apply, OpOf, PauseTraffic, OpenAfter;
    if n > 0 {
      QuestionsStayOpen(jobs, h, k, calls, n - 1);
      OpenQuestionsStep(Serial(jobs, h, n - 1), calls[n - 1], h[n - 1].now, k);
    }
  }

  /**
   Under every interleaving of row-locked patches: the answers are all submissions in commit order, and the pending
   questions are those asked since the last submission that closed the pause.
   */
  lemma PauseHistoryIsKept(plans: RowLock.Plans, run: seq<RowLock.System>, steps: seq<RowLock.Step>, n: nat, k: JobKey,
                           calls: seq<ClientCall>)
    requires RowLock.IsRun(plans, run, steps) && n <= |steps| && k in run[0].jobs
    requires IsPauseHistory(run[n].log, k, calls)
    ensures k in run[n].jobs
    ensures ListAt(run[n].jobs[k].data, ANSWERS) == ListAt(run[0].jobs[k].data, ANSWERS) + Concat(AnswersOf(calls))
    ensures ListAt(run[n].jobs[k].data, QUESTIONS)
         == OpenQuestions(ListAt(run[0].jobs[k].data, QUESTIONS), calls, |calls|)
  {
    hide Apply, PauseCall, OpOf, PauseTraffic;
    RowLock.EveryRunIsSerial(plans, run, steps, n);
    var h := run[n].log;
    forall i | 0 <= i < |h| ensures PauseCall(h[i].op, k, AnswersOf(calls)[i]) {
      ClientCallIsPauseCall(calls[i], k);
    }
    AnswersAccumulate(run[0].jobs, h, k, AnswersOf(calls));
    QuestionsStayOpen(run[0].jobs, h, k, calls, |h|);
  }
}
