/**
 The at-least-once audit phase chain: each phase loads the stored audit state, runs, and persists the result,
 while retries, lost acknowledgements, the stale-job sweep and the timebox timer race it.
 */
module AuditChain {
  import opened Wrappers

  datatype Phase = Intake | Discovery | Verification | ReportPackaging

  const ORDER: seq<Phase> := [Intake, Discovery, Verification, ReportPackaging]

  datatype Severity = Critical | High | Medium | Low

  datatype Finding = Finding(id: string, severity: Severity)

  /** What a phase returns when it succeeds. */
  datatype PhaseResult = PhaseResult(hasPlan: bool, findings: seq<Finding>, detail: string)

  datatype Outcome =
    | Passed(result: PhaseResult)
    | Broke(error: string)

  datatype Tally = Tally(total: nat, critical: nat, high: nat, medium: nat, low: nat)

  datatype AuditState = AuditState(
    current: Phase, completed: seq<Phase>, results: map<Phase, PhaseResult>,
    success: bool, failureReason: string, finalFindings: seq<Finding>, tally: Tally)

  datatype Status = Pending | Running | Completed | Failed

  datatype Job = Job(status: Status, result: Option<AuditState>)

  /** How a write to the artifact store went; an unacknowledged one is stored but reported as failed. */
  datatype Write = Stored | Unacknowledged | Refused

  datatype Step = Run(phase: Phase) | Finalize

  const FRESH := AuditState(Intake, [], map[], false, "", [], Tally(0, 0, 0, 0, 0))

  predicate Terminal(job: Job) {
    job.status in {Completed, Failed}
  }

  predicate Ended(s: AuditState) {
    s.success || s.failureReason != ""
  }

  // ---- severity counts ----

  function Count(findings: seq<Finding>, severity: Severity): nat {
    if findings == [] then 0
    else Count(findings[..|findings| - 1], severity) + if findings[|findings| - 1].severity == severity then 1 else 0
  }

  function TallyOf(findings: seq<Finding>): Tally {
    Tally(|findings|, Count(findings, Critical), Count(findings, High), Count(findings, Medium), Count(findings, Low))
  }

  lemma {:induction false} CountsAddUp(findings: seq<Finding>)
    ensures var t := TallyOf(findings); t.critical + t.high + t.medium + t.low == t.total
  {
    if findings != [] {
      CountsAddUp(findings[..|findings| - 1]);
    }
  }

  /** Each count is the number of findings of that severity. */
  lemma {:induction false} CountIsPositions(findings: seq<Finding>, severity: Severity)
    ensures Count(findings, severity) == |set i | 0 <= i < |findings| && findings[i].severity == severity|
  {
    hide Positions;
    PositionsSay(findings, severity);
    if findings != [] {
      var n := |findings| - 1;
      CountIsPositions(findings[..n], severity);
      PositionsSay(findings[..n], severity);
      OneMorePosition(findings, severity);
    }
  }

  ghost function Positions(findings: seq<Finding>, severity: Severity): set<int> {
    set i | 0 <= i < |findings| && findings[i].severity == severity
  }

  lemma PositionsSay(findings: seq<Finding>, severity: Severity)
    ensures Positions(findings, severity) == set i | 0 <= i < |findings| && findings[i].severity == severity
    ensures findings == [] ==> Positions(findings, severity) == {}
  {
  }

  lemma OneMorePosition(findings: seq<Finding>, severity: Severity)
    requires findings != []
    ensures var n := |findings| - 1;
            && n !in Positions(findings[..n], severity)
            && Positions(findings, severity)
               == if findings[n].severity == severity then Positions(findings[..n], severity) + {n} else Positions(findings[..n], severity)
  {
  }

  function Finalized(s: AuditState, report: PhaseResult): AuditState {
    s.(results := s.results[ReportPackaging := report],
       completed := if ReportPackaging in s.completed then s.completed else s.completed + [ReportPackaging],
       success := true,
       finalFindings := report.findings,
       tally := TallyOf(report.findings))
  }

  method FinalizeAuditResult(state: AuditState, report: PhaseResult) returns (result: AuditState)
    ensures result == Finalized(state, report)
  {
    result := state.(results := state.results[ReportPackaging := report]);
    if ReportPackaging !in result.completed {
      result := result.(completed := result.completed + [ReportPackaging]);
    }
    result := result.(success := true, finalFindings := report.findings);
    var counts: map<Severity, nat> := map[Critical := 0, High := 0, Medium := 0, Low := 0];
    for i := 0 to |result.finalFindings|
      invariant counts.Keys == {Critical, High, Medium, Low}
      invariant forall s | s in counts :: counts[s] == Count(result.finalFindings[..i], s)
    {
      var severity := result.finalFindings[i].severity;
      assert result.finalFindings[..i + 1][..i] == result.finalFindings[..i];
      if severity in counts {
        counts := counts[severity := counts[severity] + 1];
      }
    }
    assert result.finalFindings[..|result.finalFindings|] == result.finalFindings;
    result := result.(tally := Tally(|result.finalFindings|, counts[Critical], counts[High], counts[Medium], counts[Low]));
  }

  // ---- one attempt at one step ----

  function FailureText(p: Phase, error: string): string {
    if error != "" then error
    else
      match p
      case Intake => "Intake failed"
      case Discovery => "Discovery failed"
      case Verification => "Verification failed"
      case ReportPackaging => "Report packaging failed"
  }

  /** The state after phase `p` ran on `base`. */
  function Ran(base: AuditState, p: Phase, outcome: Outcome): AuditState {
    match outcome
    case Broke(error) => base.(current := p, success := false, failureReason := FailureText(p, error))
    case Passed(result) =>
      base.(current := p, results := base.results[p := result],
            completed := if p in base.completed then base.completed else base.completed + [p])
  }

  /** What a step makes of the stored state: give up, hand back what is there, or a new state to persist. */
  datatype Verdict =
    | Raise
    | Skip(state: AuditState)
    | Hold(state: AuditState)

  predicate Ready(p: Phase, s: AuditState) {
    match p
    case Intake => true
    case Discovery => Intake in s.results && s.results[Intake].hasPlan
    case Verification => Discovery in s.results
    case ReportPackaging => Verification in s.results
  }

  function Decision(step: Step, store: Option<AuditState>, outcome: Outcome): Verdict {
    match step
    case Run(Intake) =>
      if store.Some? && (Intake in store.value.completed || store.value.failureReason != "") then Skip(store.value)
      else Hold(Ran(FRESH, Intake, outcome))
    case Run(p) =>
      if store.None? || !Ready(p, store.value) then Raise
      else if p in store.value.completed || store.value.failureReason != "" then Skip(store.value)
      else Hold(Ran(store.value, p, outcome))
    case Finalize =>
      if store.None? || ReportPackaging !in store.value.results then Raise
      else if store.value.success then Skip(store.value)
      else Hold(Finalized(store.value, store.value.results[ReportPackaging]))
  }

  // ---- every interleaving ----

  /** The worker looks at the job before each of its guarded writes; `Entering`, `Cleared` and `Deciding` lie between. */
  datatype Worker =
    | Idle
    | Entering(step: Step)                       // may write `running`
    | Starting(step: Step)
    | Holding(step: Step, next: AuditState)
    | Cleared(step: Step, next: AuditState)      // may write the state
    | Reporting(step: Step, result: AuditState)
    | Deciding(verdict: Job)                     // may write the verdict

  /** The timeout handler looks at the job and the state, and writes both from what it saw. */
  datatype Timer =
    | Resting
    | Looked(found: Option<AuditState>)

  datatype World = World(job: Job, store: Option<AuditState>, worker: Worker, timer: Timer)

  datatype Event =
    | Begin(next: Step)
    | Enter
    | Load(outcome: Outcome, last: bool, readable: bool)
    | Check
    | Write(write: Write, last: bool, readable: bool)
    | Report
    | Decide
    | Abort(last: bool, readable: bool)
    | Look(readable: bool)
    | Strike(detail: string, write: Write)
    | Lapse                                      // the timeout handler dies
    | Sweep

  const START := World(Job(Pending, None), None, Idle, Resting)

  predicate InWindow(worker: Worker) {
    worker.Entering? || worker.Cleared? || worker.Deciding?
  }

  /** The attempt raised: the last one may mark the job failed, with whatever state can still be read. */
  function Raised(w: World, last: bool, readable: bool): World {
    w.(worker := if last && !Terminal(w.job) then Deciding(Job(Failed, if readable then w.store else None)) else Idle)
  }

  function Began(w: World, step: Step): World {
    if w.worker != Idle || Terminal(w.job) then w
    else w.(worker := if step.Run? then Entering(step) else Starting(step))
  }

  function Entered(w: World): World {
    if !w.worker.Entering? then w else w.(job := w.job.(status := Running), worker := Starting(w.worker.step))
  }

  function Loaded(w: World, outcome: Outcome, last: bool, readable: bool): World {
    if !w.worker.Starting? then w
    else
      match Decision(w.worker.step, w.store, outcome)
      case Raise => Raised(w, last, readable)
      case Skip(state) => w.(worker := Reporting(w.worker.step, state))
      case Hold(state) => w.(worker := Holding(w.worker.step, state))
  }

  function Checked(w: World): World {
    if !w.worker.Holding? then w
    else if Terminal(w.job) then w.(worker := Reporting(w.worker.step, w.worker.next))
    else w.(worker := Cleared(w.worker.step, w.worker.next))
  }

  function Written(w: World, write: Write, last: bool, readable: bool): World {
    if !w.worker.Cleared? then w
    else if write == Stored then w.(store := Some(w.worker.next), worker := Reporting(w.worker.step, w.worker.next))
    else Raised(if write == Refused then w else w.(store := Some(w.worker.next)), last, readable)
  }

  function Reported(w: World): World {
    if !w.worker.Reporting? then w
    else
      var result := w.worker.result;
      var verdict := if w.worker.step.Finalize? && result.success then Completed else Failed;
      w.(worker := if (w.worker.step.Finalize? || result.failureReason != "") && !Terminal(w.job)
                   then Deciding(Job(verdict, Some(result))) else Idle)
  }

  function Decided(w: World): World {
    if !w.worker.Deciding? then w else w.(job := w.worker.verdict, worker := Idle)
  }

  function TimeoutReason(detail: string): string {
    "Audit timed out after " + detail
  }

  function Flipped(s: AuditState, detail: string): AuditState {
    s.(success := false, failureReason := TimeoutReason(detail))
  }

  function LookedAt(w: World, readable: bool): World {
    if w.timer.Looked? || Terminal(w.job) then w
    else if !readable || w.store.None? then w.(timer := Looked(None))
    else if Ended(w.store.value) then w
    else w.(timer := Looked(w.store))
  }

  /** The state write and the job write of the timeout handler, taken together. */
  function Struck(w: World, detail: string, write: Write): World {
    match w.timer
    case Resting => w
    case Looked(None) => w.(job := Job(Failed, None), timer := Resting)
    case Looked(Some(found)) =>
      var flipped := Flipped(found, detail);
      w.(job := Job(Failed, Some(flipped)), store := if write == Refused then w.store else Some(flipped), timer := Resting)
  }

  function Swept(w: World): World {
    if Terminal(w.job) then w else w.(job := w.job.(status := Failed))
  }

  function Next(w: World, e: Event): World {
    match e
    case Begin(step) => Began(w, step)
    case Enter => Entered(w)
    case Load(outcome, last, readable) => Loaded(w, outcome, last, readable)
    case Check => Checked(w)
    case Write(write, last, readable) => Written(w, write, last, readable)
    case Report => Reported(w)
    case Decide => Decided(w)
    case Abort(last, readable) => Raised(w, last && w.worker != Idle && !w.worker.Deciding?, readable)
    case Look(readable) => LookedAt(w, readable)
    case Strike(detail, write) => Struck(w, detail, write)
    case Lapse => w.(timer := Resting)
    case Sweep => Swept(w)
  }

  function RunFrom(w: World, es: seq<Event>): World {
    if es == [] then w else Next(RunFrom(w, es[..|es| - 1]), es[|es| - 1])
  }

  function After(es: seq<Event>, n: nat): World
    requires n <= |es|
  {
    if n == 0 then START else Next(After(es, n - 1), es[n - 1])
  }
}
