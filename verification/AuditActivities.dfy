/** The audit's step functions, activities and timeout handler, as methods on one audit's job row and stored state. */
module AuditActivities {
  import opened Wrappers
  import opened AuditChain

  // ---- one attempt after another ----

  /** What others made of the job and the state inside a window. */
  datatype Meanwhile =
    | Nothing
    | Became(job: Job, store: Option<AuditState>)

  function Amid(w: World, m: Meanwhile): World {
    if m.Nothing? then w else w.(job := m.job, store := m.store)
  }

  /** The three windows of an attempt: before the `running` write, the persist, and the verdict. */
  datatype Gaps = Gaps(entering: Meanwhile, persisting: Meanwhile, deciding: Meanwhile)

  const NO_GAPS := Gaps(Nothing, Nothing, Nothing)

  function Entrance(w: World, step: Step, m: Meanwhile): World {
    var began := Next(w, Begin(step));
    Next(if began.worker.Entering? then Amid(began, m) else began, Enter)
  }

  function Persistence(w: World, m: Meanwhile, write: Write, last: bool, readable: bool): World {
    var checked := Next(w, Check);
    Next(if checked.worker.Cleared? then Amid(checked, m) else checked, Write(write, last, readable))
  }

  function Conclusion(w: World, m: Meanwhile): World {
    var reported := Next(w, Report);
    Next(if reported.worker.Deciding? then Amid(reported, m) else reported, Decide)
  }

  /** One activity attempt. */
  function Attempt(w: World, step: Step, outcome: Outcome, g: Gaps, write: Write, last: bool, readable: bool): World {
    var loaded := Next(Entrance(w, step, g.entering), Load(outcome, last, readable));
    Conclusion(Persistence(loaded, g.persisting, write, last, readable), g.deciding)
  }

  lemma UndisturbedPhase(w: World, p: Phase, result: PhaseResult)
    requires w.worker == Idle && !Terminal(w.job) && w.store.Some? && w.store.value.failureReason == ""
    requires p != Intake && Ready(p, w.store.value) && p !in w.store.value.completed
    ensures Attempt(w, Run(p), Passed(result), NO_GAPS, Stored, false, true)
            == World(Job(Running, w.job.result), Some(Ran(w.store.value, p, Passed(result))), Idle, w.timer)
  {
  }

  lemma UndisturbedIntake(result: PhaseResult)
    ensures Attempt(START, Run(Intake), Passed(result), NO_GAPS, Stored, false, true)
            == World(Job(Running, None), Some(Ran(FRESH, Intake, Passed(result))), Idle, Resting)
  {
  }

  function FourPhases(a: PhaseResult, b: PhaseResult, c: PhaseResult, d: PhaseResult): World {
    var w1 := Attempt(START, Run(Intake), Passed(a), NO_GAPS, Stored, false, true);
    var w2 := Attempt(w1, Run(Discovery), Passed(b), NO_GAPS, Stored, false, true);
    var w3 := Attempt(w2, Run(Verification), Passed(c), NO_GAPS, Stored, false, true);
    Attempt(w3, Run(ReportPackaging), Passed(d), NO_GAPS, Stored, false, true)
  }

  lemma UndisturbedPhases(a: PhaseResult, b: PhaseResult, c: PhaseResult, d: PhaseResult)
    requires a.hasPlan
    ensures var w := FourPhases(a, b, c, d);
            && w.worker == Idle && w.job == Job(Running, None) && w.store.Some? && !Ended(w.store.value)
            && w.store.value.completed == ORDER
            && w.store.value.results == map[Intake := a, Discovery := b, Verification := c, ReportPackaging := d]
  {
    var s1 := Ran(FRESH, Intake, Passed(a));
    var s2 := Ran(s1, Discovery, Passed(b));
    var s3 := Ran(s2, Verification, Passed(c));
    var running := Job(Running, None);
    hide Attempt;
    UndisturbedIntake(a);
    UndisturbedPhase(World(running, Some(s1), Idle, Resting), Discovery, b);
    UndisturbedPhase(World(running, Some(s2), Idle, Resting), Verification, c);
    UndisturbedPhase(World(running, Some(s3), Idle, Resting), ReportPackaging, d);
  }

  /** With nothing in the way the five activities complete the job and keep each phase's result. */
  lemma UndisturbedChainCompletes(a: PhaseResult, b: PhaseResult, c: PhaseResult, d: PhaseResult)
    requires a.hasPlan
    ensures var w := Attempt(FourPhases(a, b, c, d), Finalize, NO_OUTCOME, NO_GAPS, Stored, false, true);
            && w.job.status == Completed && w.job.result == w.store && w.store.Some? && w.store.value.success
            && w.store.value.results == map[Intake := a, Discovery := b, Verification := c, ReportPackaging := d]
            && w.store.value.finalFindings == d.findings && w.store.value.tally == TallyOf(d.findings)
  {
    UndisturbedPhases(a, b, c, d);
    hide FourPhases, TallyOf;
  }

  // ---- the steps and activities themselves ----

  /** Finalizing runs no phase, so it has no outcome to depend on. */
  const NO_OUTCOME := Broke("")

  /** What a step leaves and answers when called with the worker at rest; `None` when it raises. */
  function StepDone(step: Step, w: World, outcome: Outcome, m: Meanwhile, write: Write): (World, Option<AuditState>) {
    match Decision(step, w.store, outcome)
    case Raise => (w, None)
    case Skip(state) => (w, Some(state))
    case Hold(state) => PersistDone(w, state, m, write)
  }

  function PersistDone(w: World, state: AuditState, m: Meanwhile, write: Write): (World, Option<AuditState>) {
    if Terminal(w.job) then (w, Some(state))
    else (if write == Refused then Amid(w, m) else Amid(w, m).(store := Some(state)), if write == Stored then Some(state) else None)
  }

  function StepEnd(step: Step, w: World, outcome: Outcome, g: Gaps, write: Write, last: bool, readable: bool): World {
    var (left, answer) := StepDone(step, w, outcome, g.persisting, write);
    match answer
    case None => Conclusion(Raised(left, last, readable), g.deciding)
    case Some(state) => Conclusion(left.(worker := Reporting(step, state)), g.deciding)
  }

  lemma EnteredPhase(w: World, p: Phase, m: Meanwhile)
    requires w.worker == Idle && !Terminal(w.job)
    ensures var passed := Amid(w, m);
            Entrance(w, Run(p), m) == passed.(job := passed.job.(status := Running), worker := Starting(Run(p)))
  {
  }

  /** A step called as a whole does what the interleaved events do when they follow one another. */
  lemma AttemptIsOneStep(entered: World, step: Step, outcome: Outcome, g: Gaps, write: Write, last: bool, readable: bool)
    requires entered.worker == Starting(step)
    ensures Conclusion(Persistence(Next(entered, Load(outcome, last, readable)), g.persisting, write, last, readable),
                       g.deciding)
            == StepEnd(step, entered.(worker := Idle), outcome, g, write, last, readable)
  {
    var loaded := Next(entered, Load(outcome, last, readable));
    match Decision(step, entered.store, outcome) {
      case Raise => assert !loaded.worker.Holding? && !loaded.worker.Cleared?;
      case Skip(state) => assert loaded.worker == Reporting(step, state);
      case Hold(state) => assert loaded.worker == Holding(step, state);
    }
  }

  // ---- what an attempt comes to ----

  /** The stored state lacks what the step works on. */
  predicate InputMissing(step: Step, store: Option<AuditState>) {
    match step
    case Run(Intake) => false
    case Run(Discovery) => store.None? || Intake !in store.value.results || !store.value.results[Intake].hasPlan
    case Run(Verification) => store.None? || Discovery !in store.value.results
    case Run(ReportPackaging) => store.None? || Verification !in store.value.results
    case Finalize => store.None? || ReportPackaging !in store.value.results
  }

  /** The step was completed before, or the audit failed before; finalizing looks for a success only. */
  predicate AlreadyDone(step: Step, store: Option<AuditState>) {
    store.Some? &&
    match step
    case Run(p) => p in store.value.completed || store.value.failureReason != ""
    case Finalize => store.value.success
  }

  /** A step raises exactly when its input is missing or its write was not acknowledged, and hands back what was done before. */
  lemma StepRaisesExactlyWhen(step: Step, w: World, outcome: Outcome, m: Meanwhile, write: Write)
    ensures var (left, answer) := StepDone(step, w, outcome, m, write);
            && (answer.None? <==> InputMissing(step, w.store)
                                  || (!AlreadyDone(step, w.store) && w.job.status != Completed && w.job.status != Failed
                                      && write != Stored))
            && (InputMissing(step, w.store) || AlreadyDone(step, w.store) ==> left == w)
            && (!InputMissing(step, w.store) && AlreadyDone(step, w.store) ==> answer == w.store)
  {
  }

  /** What the step's answer makes of the job: a failure reason fails it, a finalized audit decides it, a last raise fails it. */
  function JobAfter(step: Step, left: World, answer: Option<AuditState>, last: bool, readable: bool): Job {
    if left.job.status == Completed || left.job.status == Failed then left.job
    else
      match answer
      case None => if last then Job(Failed, if readable then left.store else None) else left.job
      case Some(state) =>
        if step.Finalize? && state.success then Job(Completed, answer)
        else if step.Finalize? || state.failureReason != "" then Job(Failed, answer)
        else left.job
  }

  /** For any gaps: an undecided job is decided by the step's answer, unless it was decided meanwhile. */
  lemma AttemptDecidesTheJob(w: World, step: Step, outcome: Outcome, g: Gaps, write: Write, last: bool, readable: bool)
    requires w.worker == Idle && w.job.status != Completed && w.job.status != Failed
    ensures var entered := Entrance(w, step, g.entering).(worker := Idle);
            var (left, answer) := StepDone(step, entered, outcome, g.persisting, write);
            var job := Attempt(w, step, outcome, g, write, last, readable).job;
            var decided := JobAfter(step, left, answer, last, readable);
            && (Terminal(decided) ==> job == decided)
            && (answer.Some? && answer.value.failureReason != "" ==> job.status == Completed || job.status == Failed)
            && (answer.None? && last ==> job.status == Completed || job.status == Failed)
            && (step.Finalize? && answer.Some? ==> job.status == Completed || job.status == Failed)
  {
    var began := Entrance(w, step, g.entering);
    assert began.worker == Starting(step);
    AttemptIsOneStep(began, step, outcome, g, write, last, readable);
    hide Entrance, Persistence, StepDone;
  }

  /** Nothing in the way, and the phase breaks: the failure is stored with its reason, and fails the job with that state. */
  lemma BrokenPhaseFailsTheJob(w: World, p: Phase, error: string, last: bool, readable: bool)
    requires w.worker == Idle && w.job.status != Completed && w.job.status != Failed
    requires !InputMissing(Run(p), w.store) && !AlreadyDone(Run(p), w.store) && (p == Intake ==> w.store.None?)
    ensures var done := Attempt(w, Run(p), Broke(error), NO_GAPS, Stored, last, readable);
            && done.worker == Idle && done.store.Some? && done.job == Job(Failed, done.store)
            && done.store.value.failureReason != "" && (error != "" ==> done.store.value.failureReason == error)
            && !done.store.value.success
            && done.store.value.completed == (if p == Intake then [] else w.store.value.completed)
            && done.store.value.results == (if p == Intake then map[] else w.store.value.results)
  {
  }

  /** Nothing in the way, and the phase passes: its result is added, and the job goes on. */
  lemma PassedPhaseIsStored(w: World, p: Phase, result: PhaseResult, last: bool, readable: bool)
    requires w.worker == Idle && w.job.status != Completed && w.job.status != Failed
    requires !InputMissing(Run(p), w.store) && !AlreadyDone(Run(p), w.store) && (p == Intake ==> w.store.None?)
    ensures var done := Attempt(w, Run(p), Passed(result), NO_GAPS, Stored, last, readable);
            && done.worker == Idle && done.store.Some? && done.job == w.job.(status := Running)
            && done.store.value.failureReason == ""
            && done.store.value.completed == (if p == Intake then [Intake] else w.store.value.completed + [p])
            && done.store.value.results == (if p == Intake then map[Intake := result] else w.store.value.results[p := result])
  {
  }

  /** Nothing in the way: finalizing completes the job with the report's findings, counted by severity. */
  lemma FinalizedAuditCompletesTheJob(w: World, last: bool, readable: bool)
    requires w.worker == Idle && w.job.status != Completed && w.job.status != Failed
    requires !InputMissing(Finalize, w.store) && !AlreadyDone(Finalize, w.store)
    ensures var done := Attempt(w, Finalize, NO_OUTCOME, NO_GAPS, Stored, last, readable);
            var findings := w.store.value.results[ReportPackaging].findings;
            && done.worker == Idle && done.store.Some? && done.job == Job(Completed, done.store)
            && done.store.value.success && done.store.value.finalFindings == findings
            && done.store.value.results == w.store.value.results
            && done.store.value.tally.total == |findings|
            && done.store.value.tally.critical == |set i | 0 <= i < |findings| && findings[i].severity == Critical|
            && done.store.value.tally.high == |set i | 0 <= i < |findings| && findings[i].severity == High|
            && done.store.value.tally.medium == |set i | 0 <= i < |findings| && findings[i].severity == Medium|
            && done.store.value.tally.low == |set i | 0 <= i < |findings| && findings[i].severity == Low|
  {
    var findings := w.store.value.results[ReportPackaging].findings;
    CountIsPositions(findings, Critical);
    CountIsPositions(findings, High);
    CountIsPositions(findings, Medium);
    CountIsPositions(findings, Low);
    var result := Finalized(w.store.value, w.store.value.results[ReportPackaging]);
    assert Attempt(w, Finalize, NO_OUTCOME, NO_GAPS, Stored, last, readable)
        == World(Job(Completed, Some(result)), Some(result), Idle, w.timer);
    assert w.store.value.results[ReportPackaging := w.store.value.results[ReportPackaging]] == w.store.value.results;
  }

  /** One audit's job row and artifact-store entry. */
  class AuditJob {
    var job: Job
    var store: Option<AuditState>

    ghost function AtRest(): World
      reads this
    {
      World(job, store, Idle, Resting)
    }

    constructor ()
      ensures AtRest() == START
    {
      job, store := Job(Pending, None), None;
    }

    method Pass(m: Meanwhile)
      modifies this
      ensures AtRest() == Amid(old(AtRest()), m)
    {
      if m.Became? {
        job, store := m.job, m.store;
      }
    }

    method PersistAuditState(result: AuditState, write: Write) returns (ok: bool)
      modifies this`store
      ensures ok <==> write == Stored
      ensures store == if write == Refused then old(store) else Some(result)
    {
      if write != Refused {
        store := Some(result);
      }
      ok := write == Stored;
    }

    /** The check and the write are two calls; `m` is what happens in the window. */
    method PersistUnlessJobTerminal(result: AuditState, m: Meanwhile, write: Write) returns (ok: bool)
      modifies this
      ensures (AtRest(), if ok then Some(result) else None) == PersistDone(old(AtRest()), result, m, write)
    {
      if Terminal(job) {
        return true;
      }
      Pass(m);
      ok := PersistAuditState(result, write);
    }

    method RunIntakeStep(outcome: Outcome, m: Meanwhile, write: Write) returns (answer: Option<AuditState>)
      modifies this
      ensures (AtRest(), answer) == StepDone(Run(Intake), old(AtRest()), outcome, m, write)
    {
      if store.Some? && (Intake in store.value.completed || store.value.failureReason != "") {
        return store;
      }
      var result := FRESH;
      match outcome {
        case Broke(error) =>
          result := result.(success := false, failureReason := if error != "" then error else "Intake failed");
        case Passed(intake) =>
          result := result.(results := result.results[Intake := intake], completed := result.completed + [Intake]);
      }
      var ok := PersistUnlessJobTerminal(result, m, write);
      answer := if ok then Some(result) else None;
    }

    method RunDiscoveryStep(outcome: Outcome, m: Meanwhile, write: Write) returns (answer: Option<AuditState>)
      modifies this
      ensures (AtRest(), answer) == StepDone(Run(Discovery), old(AtRest()), outcome, m, write)
    {
      if store.None? || Intake !in store.value.results || !store.value.results[Intake].hasPlan {
        return None;
      }
      answer := RunLoadedStep(store.value, Discovery, outcome, m, write);
    }

    method RunVerificationStep(outcome: Outcome, m: Meanwhile, write: Write) returns (answer: Option<AuditState>)
      modifies this
      ensures (AtRest(), answer) == StepDone(Run(Verification), old(AtRest()), outcome, m, write)
    {
      if store.None? || Discovery !in store.value.results {
        return None;
      }
      answer := RunLoadedStep(store.value, Verification, outcome, m, write);
    }

    method RunReportPackagingStep(outcome: Outcome, m: Meanwhile, write: Write) returns (answer: Option<AuditState>)
      modifies this
      ensures (AtRest(), answer) == StepDone(Run(ReportPackaging), old(AtRest()), outcome, m, write)
    {
      if store.None? || Verification !in store.value.results {
        return None;
      }
      answer := RunLoadedStep(store.value, ReportPackaging, outcome, m, write);
    }

    /** The part the last three phase steps share, once the earlier phase's result is known to be there. */
    method RunLoadedStep(loaded: AuditState, p: Phase, outcome: Outcome, m: Meanwhile, write: Write)
      returns (answer: Option<AuditState>)
      requires p != Intake && store == Some(loaded) && Ready(p, loaded)
      modifies this
      ensures (AtRest(), answer) == StepDone(Run(p), old(AtRest()), outcome, m, write)
    {
      if p in loaded.completed || loaded.failureReason != "" {
        return Some(loaded);
      }
      var result := loaded.(current := p);
      match outcome {
        case Broke(error) =>
          result := result.(success := false, failureReason := FailureText(p, error));
        case Passed(phaseResult) =>
          result := result.(results := result.results[p := phaseResult]);
          if p !in result.completed {
            result := result.(completed := result.completed + [p]);
          }
      }
      var ok := PersistUnlessJobTerminal(result, m, write);
      answer := if ok then Some(result) else None;
    }

    method FinalizeAuditStep(m: Meanwhile, write: Write) returns (answer: Option<AuditState>)
      modifies this
      ensures (AtRest(), answer) == StepDone(Finalize, old(AtRest()), NO_OUTCOME, m, write)
    {
      if store.None? || ReportPackaging !in store.value.results {
        return None;
      }
      if store.value.success {
        return store;
      }
      var result := FinalizeAuditResult(store.value, store.value.results[ReportPackaging]);
      var ok := PersistUnlessJobTerminal(result, m, write);
      answer := if ok then Some(result) else None;
    }

    /** Writes the verdict of a job that was undecided when looked at. */
    method Conclude(verdict: Job, m: Meanwhile)
      modifies this
      ensures AtRest() == Amid(old(AtRest()), m).(job := verdict)
    {
      Pass(m);
      job := verdict;
    }

    method FailOnLastAttempt(last: bool, readable: bool, m: Meanwhile)
      modifies this
      ensures AtRest() == Conclusion(Raised(old(AtRest()), last, readable), m)
    {
      if last && !Terminal(job) {
        Conclude(Job(Failed, if readable then store else None), m);
      }
    }

    method RunStep(p: Phase, outcome: Outcome, m: Meanwhile, write: Write) returns (answer: Option<AuditState>)
      modifies this
      ensures (AtRest(), answer) == StepDone(Run(p), old(AtRest()), outcome, m, write)
    {
      match p {
        case Intake => answer := RunIntakeStep(outcome, m, write);
        case Discovery => answer := RunDiscoveryStep(outcome, m, write);
        case Verification => answer := RunVerificationStep(outcome, m, write);
        case ReportPackaging => answer := RunReportPackagingStep(outcome, m, write);
      }
    }

    method RunPhase(p: Phase, outcome: Outcome, g: Gaps, write: Write, last: bool, readable: bool) returns (passed: bool)
      modifies this
      ensures AtRest() == Attempt(old(AtRest()), Run(p), outcome, g, write, last, readable)
      ensures passed <==>
                && !Terminal(old(job))
                && var entered := Entrance(old(AtRest()), Run(p), g.entering).(worker := Idle);
                   var answer := StepDone(Run(p), entered, outcome, g.persisting, write).1;
                   answer.Some? && answer.value.failureReason == ""
    {
      if Terminal(job) {
        return false;
      }
      hide Entrance, StepDone, Persistence, Decision, Ran;
      EnteredPhase(AtRest(), p, g.entering);
      Pass(g.entering);
      job := job.(status := Running);
      AttemptIsOneStep(AtRest().(worker := Starting(Run(p))), Run(p), outcome, g, write, last, readable);
      var answer := RunStep(p, outcome, g.persisting, write);
      if answer.None? {
        FailOnLastAttempt(last, readable, g.deciding);
        return false;
      }
      passed := answer.value.failureReason == "";
      if !passed && !Terminal(job) {
        Conclude(Job(Failed, answer), g.deciding);
      }
    }

    method FinalizeActivity(g: Gaps, write: Write, last: bool, readable: bool) returns (passed: bool)
      modifies this
      ensures AtRest() == Attempt(old(AtRest()), Finalize, NO_OUTCOME, g, write, last, readable)
      ensures passed <==>
                if Terminal(old(job)) then old(job).status == Completed
                else var answer := StepDone(Finalize, old(AtRest()), NO_OUTCOME, g.persisting, write).1;
                     answer.Some? && answer.value.success
    {
      if Terminal(job) {
        return job.status == Completed;
      }
      ghost var entered := AtRest().(worker := Starting(Finalize));
      assert Entrance(old(AtRest()), Finalize, g.entering) == entered;
      AttemptIsOneStep(entered, Finalize, NO_OUTCOME, g, write, last, readable);
      hide Entrance, StepDone, Persistence;
      var answer := FinalizeAuditStep(g.persisting, write);
      if answer.None? {
        FailOnLastAttempt(last, readable, g.deciding);
        return false;
      }
      passed := answer.value.success;
      if !Terminal(job) {
        Conclude(Job(if passed then Completed else Failed, answer), g.deciding);
      }
    }

    /** The look and the two writes are separate calls; `m` is what the phase chain does between them. */
    method MarkAuditTimedOut(detail: string, m: Meanwhile, write: Write, readable: bool) returns (raised: bool)
      modifies this
      ensures AtRest() == var looked := Next(old(AtRest()), Look(readable));
                          if looked.timer.Looked? then Next(Amid(looked, m), Strike(detail, write)) else looked
      ensures raised <==>
                && !Terminal(old(job))
                && (!readable || (old(store).Some? && !Ended(old(store).value) && write != Stored))
    {
      if Terminal(job) {
        return false;
      }
      var result := if readable then store else None;
      if result.Some? && Ended(result.value) {
        return false;
      }
      Pass(m);
      var persisted := true;
      if result.Some? {
        result := Some(result.value.(success := false, failureReason := TimeoutReason(detail)));
        persisted := PersistAuditState(result.value, write);
      }
      job := Job(Failed, result);
      raised := !readable || !persisted;
    }

    /** The single-activity pipeline; the out-parameter says whether the orchestrator ran. */
    method RunAuditJob(t: PipelineTry) returns (executed: bool)
      modifies this
      ensures executed <==>
                && old(job).status != Completed && old(job).status != Failed
                && (old(store).None? || (!old(store).value.success && old(store).value.failureReason == ""))
      ensures store == if executed then t.left else old(store)
      // the verdict is the result's own: completed when it succeeded, failed when it did not
      ensures executed ==> job == if t.run.Some? && t.jobWritten
                                  then Job(if t.run.value.success then Completed else Failed, t.run)
                                  else old(job).(status := Running)
      ensures !executed ==> job == if old(job).status != Completed && old(job).status != Failed && t.jobWritten
                                   then Job(if old(store).value.success then Completed else Failed, old(store))
                                   else old(job)
      ensures (job, store) == PipelineStep(old(job), old(store), t)
    {
      if Terminal(job) {
        return false;
      }
      if store.Some? && Ended(store.value) {
        if t.jobWritten {
          job := Job(if store.value.success then Completed else Failed, store);
        }
        return false;
      }
      job := job.(status := Running);
      store := t.left;
      executed := true;
      if t.run.Some? && t.jobWritten {
        job := Job(if t.run.value.success then Completed else Failed, t.run);
      }
    }
  }

  // ---- the single-activity pipeline, retried ----

  /**
   One attempt: the orchestrator's result (`None` when it raises), what it leaves in the artifact store, and whether the
   terminal job write lands.
   */
  datatype PipelineTry = PipelineTry(run: Option<AuditState>, left: Option<AuditState>, jobWritten: bool)

  predicate Executes(job: Job, store: Option<AuditState>) {
    !Terminal(job) && !(store.Some? && Ended(store.value))
  }

  function VerdictOf(s: AuditState): Job {
    Job(if s.success then Completed else Failed, Some(s))
  }

  function PipelineStep(job: Job, store: Option<AuditState>, t: PipelineTry): (Job, Option<AuditState>) {
    if Terminal(job) then (job, store)
    else if store.Some? && Ended(store.value) then (if t.jobWritten then VerdictOf(store.value) else job, store)
    else (if t.run.Some? && t.jobWritten then VerdictOf(t.run.value) else job.(status := Running), t.left)
  }

  function PipelineAfter(tries: seq<PipelineTry>, n: nat): (Job, Option<AuditState>)
    requires n <= |tries|
  {
    if n == 0 then (Job(Pending, None), None)
    else var (job, store) := PipelineAfter(tries, n - 1); PipelineStep(job, store, tries[n - 1])
  }

  /**
   Once an attempt left an ended state or a decided job, no retry runs the orchestrator again: the state stays, and the
   job is what it was or carries the stored verdict.
   */
  lemma {:induction false} EndedPipelineIsNotRunAgain(tries: seq<PipelineTry>, i: nat, j: nat)
    requires i <= j <= |tries| && !Executes(PipelineAfter(tries, i).0, PipelineAfter(tries, i).1)
    ensures var (job, store) := PipelineAfter(tries, i);
            var (job', store') := PipelineAfter(tries, j);
            && !Executes(job', store') && store' == store
            && (job' == job || (!Terminal(job) && store.Some? && job' == VerdictOf(store.value)))
    decreases j
  {
    if i < j {
      EndedPipelineIsNotRunAgain(tries, i, j - 1);
    }
  }
}
