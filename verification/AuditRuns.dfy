/** Every interleaving of the audit chain's steps: what always holds, what holds exactly when, and what fails. */
module AuditRuns {
  import opened Wrappers
  import opened AuditChain

  // ---- what every step keeps ----

  ghost predicate WellFormed(s: AuditState) {
    && |s.completed| <= 4 && s.completed == ORDER[..|s.completed|]
    && (forall p :: p in s.results <==> p in s.completed)
    && (s.success ==> |s.completed| == 4)
    && (s.failureReason == "" ==> s.completed != [] && s.current == s.completed[|s.completed| - 1])
  }

  /** Every phase and result of `s` is in `t`. */
  ghost predicate Contains(t: AuditState, s: AuditState) {
    s.completed <= t.completed && forall p :: p in s.results ==> p in t.results && t.results[p] == s.results[p]
  }

  /** Phases are only added, their results stay, and a success stays as it is. */
  ghost predicate Grows(before: Option<AuditState>, after: Option<AuditState>) {
    before.Some? ==> after.Some? && Contains(after.value, before.value) && (before.value.success ==> after == before)
  }

  /** What a worker holds adds its own phase, or the success, to the stored state. */
  ghost predicate Adds(store: Option<AuditState>, step: Step, next: AuditState) {
    && WellFormed(next) && (store.Some? ==> Contains(next, store.value) && !store.value.success)
    && match step
       case Run(p) => next.current == p && !next.success && (p == Intake ==> store.None?)
                      && (store.Some? ==> p !in store.value.completed && store.value.current != p)
       case Finalize => next.success && store.Some?
  }

  ghost predicate WorkerValid(w: World) {
    match w.worker
    case Holding(step, next) =>
      Adds(w.store, step, next)
      && (w.store.Some? && w.store.value.failureReason != "" && (step.Run? || |w.store.value.completed| < 4) ==> Terminal(w.job))
    case Cleared(step, next) => Adds(w.store, step, next)
    case Reporting(step, result) => !Terminal(w.job) ==> w.store == Some(result) && (step.Finalize? ==> result.success)
    case Deciding(verdict) => Terminal(verdict)
    case _ => true
  }

  /** What the timeout handler saw was not ended, and is part of what is stored. */
  ghost predicate TimerValid(w: World) {
    w.timer.Looked? && w.timer.found.Some? ==>
      && WellFormed(w.timer.found.value) && !Ended(w.timer.found.value)
      && w.store.Some? && Contains(w.store.value, w.timer.found.value)
  }

  ghost predicate Valid(w: World) {
    && (w.store.Some? ==> WellFormed(w.store.value))
    && (w.job.status == Completed ==> w.worker == Idle)
    && WorkerValid(w) && TimerValid(w)
  }

  lemma PhaseAdds(s: AuditState, p: Phase, outcome: Outcome)
    requires WellFormed(s) && p != Intake && Ready(p, s) && p !in s.completed && s.failureReason == ""
    ensures Adds(Some(s), Run(p), Ran(s, p, outcome))
  {
    assert Intake == ORDER[0] && Discovery == ORDER[1] && Verification == ORDER[2] && ReportPackaging == ORDER[3];
    assert s.completed == ORDER[..|s.completed|];
    var k := if p == Discovery then 1 else if p == Verification then 2 else 3;
    assert |s.completed| == k;
    assert ORDER[..k + 1] == ORDER[..k] + [p];
    assert s.completed[k - 1] == ORDER[k - 1];
  }

  lemma UnfailedHasIntake(s: AuditState)
    requires WellFormed(s) && s.failureReason == ""
    ensures Intake in s.completed
  {
    assert s.completed[0] == ORDER[0];
  }

  lemma IntakeAdds(store: Option<AuditState>, outcome: Outcome)
    requires store.Some? ==> WellFormed(store.value) && store.value.failureReason == "" && Intake !in store.value.completed
    ensures Adds(store, Run(Intake), Ran(FRESH, Intake, outcome))
  {
    if store.Some? {
      UnfailedHasIntake(store.value);
    }
    assert ORDER[..1] == [Intake];
  }

  lemma FinalizeAdds(s: AuditState)
    requires WellFormed(s) && ReportPackaging in s.results && !s.success
    ensures Adds(Some(s), Finalize, Finalized(s, s.results[ReportPackaging]))
    ensures |s.completed| == 4
  {
    assert ReportPackaging in s.completed && ORDER[..4] == ORDER;
    assert |s.completed| == 4;
    assert Finalized(s, s.results[ReportPackaging]).results == s.results;
  }

  lemma DecisionAdds(step: Step, store: Option<AuditState>, outcome: Outcome)
    requires store.Some? ==> WellFormed(store.value)
    ensures Decision(step, store, outcome).Hold? ==>
              && Adds(store, step, Decision(step, store, outcome).state)
              && (store.Some? && store.value.failureReason != "" ==> step.Finalize? && |store.value.completed| == 4)
    ensures Decision(step, store, outcome).Skip? ==>
              store == Some(Decision(step, store, outcome).state)
              && (step.Finalize? ==> Decision(step, store, outcome).state.success)
  {
    if Decision(step, store, outcome).Hold? {
      match step {
        case Run(p) =>
          if p == Intake {
            IntakeAdds(store, outcome);
          } else {
            StepsToTheEnd(store.value, p);
            PhaseAdds(store.value, p, outcome);
          }
        case Finalize => FinalizeAdds(store.value);
      }
    }
  }

  lemma StepsToTheEnd(s: AuditState, p: Phase)
    requires WellFormed(s) && p !in s.completed
    ensures !s.success
  {
    assert p in ORDER && ORDER[..4] == ORDER;
  }

  lemma StrikeKeepsAdds(store: AuditState, found: AuditState, detail: string, step: Step, next: AuditState)
    requires WellFormed(found) && !Ended(found) && Contains(store, found) && Adds(Some(store), step, next)
    ensures Adds(Some(Flipped(found, detail)), step, next) && WellFormed(Flipped(found, detail))
  {
    assert found.completed[|found.completed| - 1] == store.completed[|found.completed| - 1];
  }

  lemma LoadKeepsValid(w: World, outcome: Outcome, last: bool, readable: bool)
    requires Valid(w)
    ensures Valid(Next(w, Load(outcome, last, readable))) && Next(w, Load(outcome, last, readable)).store == w.store
  {
    hide WellFormed, Adds, Contains;
    if w.worker.Starting? {
      DecisionAdds(w.worker.step, w.store, outcome);
    }
  }

  lemma StrikeKeepsValid(w: World, detail: string, write: Write)
    requires Valid(w)
    ensures Valid(Next(w, Strike(detail, write)))
  {
    if w.timer.Looked? && w.timer.found.Some? && (w.worker.Holding? || w.worker.Cleared?) {
      StrikeKeepsAdds(w.store.value, w.timer.found.value, detail, w.worker.step, w.worker.next);
    }
  }

  lemma WriteKeepsValid(w: World, write: Write, last: bool, readable: bool)
    requires Valid(w)
    ensures Valid(Next(w, Event.Write(write, last, readable))) && Grows(w.store, Next(w, Event.Write(write, last, readable)).store)
  {
    hide WellFormed;
  }

  lemma ContainsItself(store: Option<AuditState>)
    ensures store.Some? ==> Contains(store.value, store.value)
    ensures Grows(store, store)
  {
  }

  lemma RestKeepsValid(w: World, e: Event)
    requires Valid(w) && !e.Load? && !e.Strike? && !e.Write?
    ensures Valid(Next(w, e)) && Grows(w.store, Next(w, e).store)
  {
    hide WellFormed, Adds, Contains, Grows;
    ContainsItself(w.store);
  }

  /** Every step keeps the chain's invariant; only the timeout's write can lose a phase or overwrite a success. */
  lemma StepKeepsValid(w: World, e: Event)
    requires Valid(w)
    ensures Valid(Next(w, e))
    ensures !e.Strike? ==> Grows(w.store, Next(w, e).store)
  {
    match e {
      case Load(outcome, last, readable) => LoadKeepsValid(w, outcome, last, readable);
      case Strike(detail, write) => StrikeKeepsValid(w, detail, write);
      case Write(write, last, readable) => WriteKeepsValid(w, write, last, readable);
      case _ => RestKeepsValid(w, e);
    }
  }

  lemma {:induction false} RunStaysValid(es: seq<Event>, n: nat)
    requires n <= |es|
    ensures Valid(After(es, n))
  {
    if n > 0 {
      RunStaysValid(es, n - 1);
      StepKeepsValid(After(es, n - 1), es[n - 1]);
    }
  }

  // ---- true of every run, whatever falls between a look and its write ----

  /** The recorded phases are always an initial part of the chain, and exactly they have a result. */
  lemma CompletedPhasesAreAPrefix(es: seq<Event>, n: nat)
    requires n <= |es| && After(es, n).store.Some?
    ensures var s := After(es, n).store.value;
            && |s.completed| <= 4 && s.completed == ORDER[..|s.completed|]
            && (forall i, j | 0 <= i < j < |s.completed| :: s.completed[i] != s.completed[j])
            && (forall p :: p in s.results <==> p in s.completed)
  {
    RunStaysValid(es, n);
  }

  lemma SuccessMeansAllFour(es: seq<Event>, n: nat)
    requires n <= |es| && After(es, n).store.Some? && After(es, n).store.value.success
    ensures After(es, n).store.value.completed == ORDER
  {
    RunStaysValid(es, n);
  }

  /** Wherever a result of `p` is still to be found it is `r`, and where it is gone `p` cannot run again. */
  ghost predicate Recorded(w: World, p: Phase, r: PhaseResult) {
    && w.store.Some?
    && (p in w.store.value.results ==> w.store.value.results[p] == r)
    && (p !in w.store.value.results ==> w.store.value.failureReason != "")
    && (w.worker.Holding? || w.worker.Cleared? ==> p in w.worker.next.results && w.worker.next.results[p] == r)
    && (w.timer.Looked? && w.timer.found.Some? && p in w.timer.found.value.results ==> w.timer.found.value.results[p] == r)
  }

  lemma StoredIsRecorded(w: World, p: Phase)
    requires Valid(w) && w.store.Some? && p in w.store.value.results
    ensures Recorded(w, p, w.store.value.results[p])
  {
  }

  lemma FullChainHasAll(s: AuditState, p: Phase)
    requires WellFormed(s) && |s.completed| == 4
    ensures p in s.results
  {
    assert p in ORDER && ORDER[..4] == ORDER;
  }

  lemma RecordedAfterLoad(w: World, p: Phase, r: PhaseResult, outcome: Outcome, last: bool, readable: bool)
    requires Valid(w) && Recorded(w, p, r)
    ensures Recorded(Next(w, Load(outcome, last, readable)), p, r)
  {
    if w.worker.Starting? {
      DecisionAdds(w.worker.step, w.store, outcome);
      if |w.store.value.completed| == 4 {
        FullChainHasAll(w.store.value, p);
      }
    }
  }

  lemma RecordedAfterStrike(w: World, p: Phase, r: PhaseResult, detail: string, write: Write)
    requires Recorded(w, p, r)
    ensures Recorded(Next(w, Strike(detail, write)), p, r)
  {
  }

  lemma RecordedAfterLook(w: World, p: Phase, r: PhaseResult, readable: bool)
    requires Recorded(w, p, r)
    ensures Recorded(Next(w, Look(readable)), p, r)
  {
  }

  lemma RecordedAfterRest(w: World, e: Event, p: Phase, r: PhaseResult)
    requires Recorded(w, p, r) && !e.Load? && !e.Strike? && !e.Look?
    ensures Recorded(Next(w, e), p, r)
  {
  }

  lemma StaysRecorded(w: World, e: Event, p: Phase, r: PhaseResult)
    requires Valid(w) && Recorded(w, p, r)
    ensures Recorded(Next(w, e), p, r)
  {
    hide Recorded, Next, Valid;
    match e {
      case Load(outcome, last, readable) => RecordedAfterLoad(w, p, r, outcome, last, readable);
      case Strike(detail, write) => RecordedAfterStrike(w, p, r, detail, write);
      case Look(readable) => RecordedAfterLook(w, p, r, readable);
      case _ => RecordedAfterRest(w, e, p, r);
    }
  }

  lemma {:induction false} RunStaysRecorded(es: seq<Event>, i: nat, j: nat, p: Phase, r: PhaseResult)
    requires i <= j <= |es| && Recorded(After(es, i), p, r)
    ensures Recorded(After(es, j), p, r)
    decreases j
  {
    hide Recorded, Valid, Next;
    if i < j {
      RunStaysRecorded(es, i, j - 1, p, r);
      RunStaysValid(es, j - 1);
      StaysRecorded(After(es, j - 1), es[j - 1], p, r);
    }
  }

  /** A persisted phase result is never replaced by another: while the phase is recorded, it has the result it had. */
  lemma PhaseResultNeverChanges(es: seq<Event>, i: nat, j: nat, p: Phase)
    requires i <= j <= |es| && After(es, i).store.Some? && p in After(es, i).store.value.results
    ensures After(es, j).store.Some?
    ensures p in After(es, j).store.value.results ==>
              After(es, j).store.value.results[p] == After(es, i).store.value.results[p]
  {
    RunStaysValid(es, i);
    StoredIsRecorded(After(es, i), p);
    RunStaysRecorded(es, i, j, p, After(es, i).store.value.results[p]);
  }

  /** A result is lost exactly by a timeout that writes what it saw before the phase was persisted. */
  lemma PhaseResultLostExactlyWhen(es: seq<Event>, n: nat, p: Phase)
    requires n < |es| && After(es, n).store.Some? && p in After(es, n).store.value.results
    ensures var w := After(es, n);
            After(es, n + 1).store.None? || p !in After(es, n + 1).store.value.results
            <==> es[n].Strike? && es[n].write != Refused && w.timer.Looked? && w.timer.found.Some?
                 && p !in w.timer.found.value.completed
  {
    RunStaysValid(es, n);
    StepKeepsValid(After(es, n), es[n]);
  }

  // ---- a decided job ----

  /** A guarded write is still to come, and would change something. */
  predicate Pending?(w: World) {
    || (match w.worker
        case Entering(_) => true
        case Cleared(_, _) => true
        case Deciding(verdict) => verdict != w.job
        case _ => false)
    || (w.timer.Looked? && (w.timer.found.Some? || w.job != Job(Failed, None)))
  }

  ghost predicate Settled(w: World) {
    Terminal(w.job) && !Pending?(w)
  }

  ghost predicate Final(w: World) {
    forall more: seq<Event> :: RunFrom(w, more).job == w.job && RunFrom(w, more).store == w.store
  }

  lemma SettledStays(w: World, e: Event)
    requires Settled(w)
    ensures Settled(Next(w, e)) && Next(w, e).job == w.job && Next(w, e).store == w.store
  {
  }

  lemma {:induction false} SettledRunStays(w: World, more: seq<Event>)
    requires Settled(w)
    ensures Settled(RunFrom(w, more)) && RunFrom(w, more).job == w.job && RunFrom(w, more).store == w.store
  {
    hide Settled, Next;
    if more != [] {
      SettledRunStays(w, more[..|more| - 1]);
      SettledStays(RunFrom(w, more[..|more| - 1]), more[|more| - 1]);
    }
  }

  lemma RunOne(w: World, e: Event)
    ensures RunFrom(w, [e]) == Next(w, e)
  {
    assert [e][..0] == [];
  }

  /** Some timeout reason differs from the failure reason the state carries. */
  function OtherDetail(s: AuditState): (detail: string)
    ensures TimeoutReason(detail) != s.failureReason
  {
    if s.failureReason == TimeoutReason("") then
      assert |TimeoutReason("x")| == |TimeoutReason("")| + 1;
      "x"
    else ""
  }

  lemma PendingWriteLands(w: World) returns (e: Event)
    requires Valid(w) && Terminal(w.job) && Pending?(w)
    ensures Next(w, e).job != w.job || Next(w, e).store != w.store
  {
    if w.worker.Entering? {
      e := Enter;
    } else if w.worker.Cleared? {
      e := Write(Stored, false, false);
    } else if w.worker.Deciding? && w.worker.verdict != w.job {
      e := Decide;
    } else {
      e := Strike(OtherDetail(if w.job.result.Some? then w.job.result.value else FRESH), Stored);
    }
  }

  /**
   In every reachable world with a decided job, nothing that can still happen changes the job or the stored state,
   exactly when no guarded write is pending.
   */
  lemma DecidedJobIsFinalExactlyWhen(es: seq<Event>, n: nat)
    requires n <= |es| && Terminal(After(es, n).job)
    ensures Final(After(es, n)) <==> !Pending?(After(es, n))
  {
    var w := After(es, n);
    RunStaysValid(es, n);
    if Pending?(w) {
      var e := PendingWriteLands(w);
      RunOne(w, e);
    } else {
      forall more: seq<Event> ensures RunFrom(w, more).job == w.job && RunFrom(w, more).store == w.store {
        SettledRunStays(w, more);
      }
    }
  }

  // ---- an ended state ----

  /** No write may still replace the ended state: none is cleared or looked at, and nobody can finalize it. */
  ghost predicate Lasting(w: World) {
    && w.store.Some? && Ended(w.store.value)
    && (w.timer.Looked? ==> w.timer.found.None?)
    && (|| w.store.value.success
        || (!w.worker.Cleared? && (|w.store.value.completed| == 4 ==> Terminal(w.job) && !w.worker.Entering?)))
  }

  ghost predicate StateFinal(w: World) {
    forall more: seq<Event> :: RunFrom(w, more).store == w.store
  }

  lemma NothingLeftToHold(step: Step, store: Option<AuditState>, outcome: Outcome)
    requires store.Some? && WellFormed(store.value) && store.value.failureReason != "" && |store.value.completed| < 4
    ensures !Decision(step, store, outcome).Hold?
  {
    assert ReportPackaging !in store.value.completed;
  }

  lemma LastingStays(w: World, e: Event)
    requires Valid(w) && Lasting(w)
    ensures Lasting(Next(w, e)) && Next(w, e).store == w.store
  {
    if e.Load? && w.worker.Starting? && !w.store.value.success && |w.store.value.completed| < 4 {
      NothingLeftToHold(w.worker.step, w.store, e.outcome);
    }
  }

  lemma {:induction false} LastingRunStays(w: World, more: seq<Event>)
    requires Valid(w) && Lasting(w)
    ensures Valid(RunFrom(w, more)) && Lasting(RunFrom(w, more)) && RunFrom(w, more).store == w.store
  {
    hide Valid, Lasting, Next;
    if more != [] {
      LastingRunStays(w, more[..|more| - 1]);
      StepKeepsValid(RunFrom(w, more[..|more| - 1]), more[|more| - 1]);
      LastingStays(RunFrom(w, more[..|more| - 1]), more[|more| - 1]);
    }
  }

  lemma PendingStateWriteReplaces(w: World) returns (e: Event)
    requires Valid(w) && (w.worker.Cleared? || (w.timer.Looked? && w.timer.found.Some?))
    ensures Next(w, e).store != w.store
  {
    if w.worker.Cleared? {
      e := Write(Stored, false, false);
    } else {
      e := Strike(OtherDetail(w.store.value), Stored);
    }
  }

  const REFINALIZE: seq<Event> :=
    [Enter, Abort(false, false), Begin(Finalize), Load(Broke(""), false, false), Check, Write(Stored, false, false)]

  lemma FailedReportCanBeFinalized(w: World)
    requires Valid(w) && w.store.Some? && |w.store.value.completed| == 4 && !w.store.value.success
    requires w.worker.Entering? || !Terminal(w.job)
    ensures RunFrom(w, REFINALIZE).store.Some? && RunFrom(w, REFINALIZE).store.value.success
  {
    var w1 := Next(w, Enter);
    var w2 := Next(w1, Abort(false, false));
    assert w2.worker == Idle && !Terminal(w2.job) && w2.store == w.store;
    assert ReportPackaging == ORDER[3] && w.store.value.completed[3] == ORDER[3];
    var w3 := Next(Next(w2, Begin(Finalize)), Load(Broke(""), false, false));
    assert w3.worker.Holding? && w3.worker.next.success;
    var w4 := Next(Next(w3, Check), Write(Stored, false, false));
    RunInOrder(w);
  }

  lemma RunFromNext(w: World, es: seq<Event>, n: nat)
    requires n < |es|
    ensures RunFrom(w, es[..n + 1]) == Next(RunFrom(w, es[..n]), es[n])
  {
    assert es[..n + 1][..n] == es[..n];
  }

  lemma RunInOrder(w: World)
    ensures RunFrom(w, REFINALIZE)
            == Next(Next(Next(Next(Next(Next(w, Enter), Abort(false, false)), Begin(Finalize)),
                                   Load(Broke(""), false, false)), Check), Write(Stored, false, false))
  {
    hide Next;
    var es := REFINALIZE;
    assert es[..0] == [] && es[..6] == es;
    RunFromNext(w, es, 0);
    RunFromNext(w, es, 1);
    RunFromNext(w, es, 2);
    RunFromNext(w, es, 3);
    RunFromNext(w, es, 4);
    RunFromNext(w, es, 5);
  }

  /**
   In every reachable world whose stored state is ended, nothing that can still happen changes it, exactly when no
   persist is past its check, no timeout past its look at a state, and the state is a success or, if it is a finished
   report under a failure reason, guarded by a decided job.
   */
  lemma EndedStateIsFinalExactlyWhen(es: seq<Event>, n: nat)
    requires n <= |es| && After(es, n).store.Some? && Ended(After(es, n).store.value)
    ensures StateFinal(After(es, n)) <==> Lasting(After(es, n))
  {
    var w := After(es, n);
    RunStaysValid(es, n);
    if Lasting(w) {
      forall more: seq<Event> ensures RunFrom(w, more).store == w.store {
        LastingRunStays(w, more);
      }
    } else if w.worker.Cleared? || (w.timer.Looked? && w.timer.found.Some?) {
      var e := PendingStateWriteReplaces(w);
      RunOne(w, e);
    } else {
      FailedReportCanBeFinalized(w);
    }
  }

  // ---- runs in which nothing falls between a look and its write ----

  /** The step decides the job or writes the state inside the window of another guarded write. */
  predicate Disturbs(w: World, e: Event) {
    var sweeps := e.Sweep? && !Terminal(w.job);
    || (InWindow(w.worker) && (sweeps || (e.Strike? && w.timer.Looked?)))
    || (w.timer.Looked? && (sweeps || (e.Write? && w.worker.Cleared?) || (e.Decide? && w.worker.Deciding?)))
  }

  ghost predicate Undisturbed(es: seq<Event>, n: nat) {
    n <= |es| && forall m: nat | m < n :: !Disturbs(After(es, m), es[m])
  }

  ghost predicate FailedWithReport(s: AuditState) {
    s.failureReason != "" && |s.completed| == 4
  }

  ghost predicate Quiet(w: World) {
    && (Terminal(w.job) ==> !InWindow(w.worker) && w.timer.Resting?)
    && (w.store.Some? && FailedWithReport(w.store.value) ==> Terminal(w.job) && !w.store.value.success)
    && (!Terminal(w.job) && (w.worker.Holding? || w.worker.Cleared?) ==>
          !FailedWithReport(w.worker.next) && (w.store.Some? ==> !Ended(w.store.value)))
    && (w.timer.Looked? && w.timer.found.Some? ==> w.store == w.timer.found)
    && (w.worker.Deciding? && w.worker.verdict.status == Completed ==>
          w.store.Some? && w.store.value.success && w.worker.verdict.result == w.store)
    && (w.job.status == Completed ==> w.store.Some? && w.store.value.success && w.job.result == w.store)
  }

  lemma QuietDecision(step: Step, store: Option<AuditState>, outcome: Outcome)
    requires store.Some? ==> WellFormed(store.value) && !FailedWithReport(store.value)
    ensures Decision(step, store, outcome).Hold? ==>
              !FailedWithReport(Decision(step, store, outcome).state) && (store.Some? ==> !Ended(store.value))
  {
    if Decision(step, store, outcome).Hold? {
      DecisionAdds(step, store, outcome);
      if step.Run? && step.phase != Intake {
        assert |store.value.completed| < 4 by {
          assert ORDER[..4] == ORDER;
        }
      } else if step.Run? && store.Some? {
        if store.value.failureReason == "" {
          UnfailedHasIntake(store.value);
        }
      }
    }
  }

  lemma LoadStaysQuiet(w: World, outcome: Outcome, last: bool, readable: bool)
    requires Valid(w) && Quiet(w)
    ensures Quiet(Next(w, Load(outcome, last, readable))) && Grows(w.store, Next(w, Load(outcome, last, readable)).store)
  {
    hide WellFormed, Adds, Contains, Grows;
    LoadKeepsValid(w, outcome, last, readable);
    ContainsItself(w.store);
    if w.worker.Starting? && !Terminal(w.job) {
      QuietDecision(w.worker.step, w.store, outcome);
    }
  }

  lemma StrikeStaysQuiet(w: World, detail: string, write: Write)
    requires Valid(w) && Quiet(w) && !Disturbs(w, Strike(detail, write))
    ensures Quiet(Next(w, Strike(detail, write))) && Grows(w.store, Next(w, Strike(detail, write)).store)
  {
    hide WellFormed, Adds;
  }

  lemma WriteStaysQuiet(w: World, write: Write, last: bool, readable: bool)
    requires Valid(w) && Quiet(w) && !Disturbs(w, Event.Write(write, last, readable))
    ensures Quiet(Next(w, Event.Write(write, last, readable)))
    ensures Grows(w.store, Next(w, Event.Write(write, last, readable)).store)
  {
    hide Contains, Grows;
    WriteKeepsValid(w, write, last, readable);
  }

  lemma RestStaysQuiet(w: World, e: Event)
    requires Valid(w) && Quiet(w) && !Disturbs(w, e) && !e.Load? && !e.Strike? && !e.Write?
    ensures Quiet(Next(w, e)) && Grows(w.store, Next(w, e).store)
  {
    hide WellFormed, Adds, Contains, Grows;
    ContainsItself(w.store);
  }

  lemma StepStaysQuiet(w: World, e: Event)
    requires Valid(w) && Quiet(w) && !Disturbs(w, e)
    ensures Quiet(Next(w, e))
    ensures Grows(w.store, Next(w, e).store)
  {
    match e {
      case Load(outcome, last, readable) => LoadStaysQuiet(w, outcome, last, readable);
      case Strike(detail, write) => StrikeStaysQuiet(w, detail, write);
      case Write(write, last, readable) => WriteStaysQuiet(w, write, last, readable);
      case _ => RestStaysQuiet(w, e);
    }
  }

  lemma StartIsQuiet()
    ensures Quiet(START)
  {
  }

  lemma UndisturbedBefore(es: seq<Event>, n: nat)
    requires Undisturbed(es, n)
    ensures n <= |es|
    ensures n > 0 ==> Undisturbed(es, n - 1) && !Disturbs(After(es, n - 1), es[n - 1])
  {
  }

  lemma {:induction false} UndisturbedRunIsQuiet(es: seq<Event>, n: nat)
    requires Undisturbed(es, n)
    ensures Quiet(After(es, n))
  {
    hide Undisturbed, Quiet, Valid, Next, Disturbs, Grows;
    StartIsQuiet();
    UndisturbedBefore(es, n);
    if n > 0 {
      UndisturbedRunIsQuiet(es, n - 1);
      RunStaysValid(es, n - 1);
      StepStaysQuiet(After(es, n - 1), es[n - 1]);
    }
  }

  /** Nothing stored is ever taken back: phases and results only accumulate, and a success stays as it is. */
  lemma {:induction false} UndisturbedRunGrows(es: seq<Event>, i: nat, j: nat)
    requires i <= j && Undisturbed(es, j)
    ensures Grows(After(es, i).store, After(es, j).store)
    decreases j
  {
    hide Undisturbed, Quiet, Valid, Next, Disturbs;
    UndisturbedBefore(es, j);
    if i < j {
      UndisturbedRunGrows(es, i, j - 1);
      UndisturbedRunIsQuiet(es, j - 1);
      RunStaysValid(es, j - 1);
      StepStaysQuiet(After(es, j - 1), es[j - 1]);
    }
  }

  lemma QuietDecisionIsSettled(w: World)
    requires Quiet(w) && Terminal(w.job)
    ensures Settled(w)
  {
  }

  /** Once the job is decided, neither it nor the stored state ever changes, whoever is still running. */
  lemma {:induction false} DecidedJobFreezesEverything(es: seq<Event>, i: nat, j: nat)
    requires i <= j <= |es| && Terminal(After(es, i).job) && Undisturbed(es, i)
    ensures Settled(After(es, j)) && After(es, j).job == After(es, i).job && After(es, j).store == After(es, i).store
    decreases j
  {
    hide Undisturbed, Quiet, Settled, Next;
    if i < j {
      DecidedJobFreezesEverything(es, i, j - 1);
      SettledStays(After(es, j - 1), es[j - 1]);
    } else {
      UndisturbedRunIsQuiet(es, i);
      QuietDecisionIsSettled(After(es, i));
    }
  }

  lemma QuietEndIsLasting(w: World)
    requires Valid(w) && Quiet(w) && w.store.Some? && Ended(w.store.value)
    ensures Lasting(w)
  {
  }

  /** Once a success or a failure reason is stored, the stored state never changes again. */
  lemma {:induction false} FirstOutcomeWins(es: seq<Event>, i: nat, j: nat)
    requires i <= j <= |es| && After(es, i).store.Some? && Ended(After(es, i).store.value) && Undisturbed(es, i)
    ensures Lasting(After(es, j)) && After(es, j).store == After(es, i).store
    decreases j
  {
    hide Lasting, Valid, Next, Undisturbed, Quiet;
    if i < j {
      FirstOutcomeWins(es, i, j - 1);
      RunStaysValid(es, j - 1);
      LastingStays(After(es, j - 1), es[j - 1]);
    } else {
      RunStaysValid(es, i);
      UndisturbedRunIsQuiet(es, i);
      QuietEndIsLasting(After(es, i));
    }
  }

  /** A completed job carries the stored success of all four phases. */
  lemma CompletedJobHasTheStoredResult(es: seq<Event>, n: nat)
    requires Undisturbed(es, n) && After(es, n).job.status == Completed
    ensures var w := After(es, n);
            w.store.Some? && w.store.value.success && w.store.value.completed == ORDER && w.job.result == w.store
  {
    hide Undisturbed;
    UndisturbedBefore(es, n);
    RunStaysValid(es, n);
    UndisturbedRunIsQuiet(es, n);
  }

  // ---- the timeout ----

  /**
   The timeout's write, outside the worker's windows, ends the job for good; the unended stored state is ended with it
   exactly when the look found a state and the write was not refused. A retry of the timeout finds the job decided and
   repairs nothing.
   */
  lemma {:induction false} TimeoutEndsTheStateExactlyWhen(es: seq<Event>, i: nat, j: nat)
    requires i < j <= |es| && es[i].Strike? && After(es, i).timer.Looked? && !InWindow(After(es, i).worker)
    requires After(es, i).store.Some? && !Ended(After(es, i).store.value)
    ensures Settled(After(es, j)) && After(es, j).job.status == Failed
    ensures After(es, j).store.Some?
    ensures Ended(After(es, j).store.value) <==> After(es, i).timer.found.Some? && es[i].write != Refused
    decreases j
  {
    if i + 1 < j {
      TimeoutEndsTheStateExactlyWhen(es, i, j - 1);
      SettledStays(After(es, j - 1), es[j - 1]);
    }
  }

  /**
   A timeout with nothing in between: a decided job and an ended state are left alone; otherwise the job fails, and a state
   that could be read fails with it, keeping its phases.
   */
  lemma TimeoutOutcome(w: World, detail: string, write: Write, readable: bool)
    requires w.timer.Resting?
    ensures var done := Next(Next(w, Look(readable)), Strike(detail, write));
            var ended := w.store.Some? && (w.store.value.success || w.store.value.failureReason != "");
            if w.job.status == Completed || w.job.status == Failed || (readable && ended) then done == w
            else
              && done.timer == Resting && done.worker == w.worker && done.job.status == Failed
              && (done.job.result.Some? <==> readable && w.store.Some?)
              && (done.job.result.Some? ==>
                    && !done.job.result.value.success && done.job.result.value.failureReason == "Audit timed out after " + detail
                    && done.job.result.value.completed == w.store.value.completed
                    && done.job.result.value.results == w.store.value.results)
              && done.store == (if done.job.result.Some? && write != Refused then done.job.result else w.store)
  {
  }

  /**
   A timeout inside the window of a persist is undone by the write that follows: the state it ended is ended afterwards
   exactly when the held state is an outcome of its own, while the job stays failed.
   */
  lemma TimeoutInTheWindowIsUndone(w: World, detail: string, timeoutWrite: Write, write: Write, last: bool, readable: bool)
    requires Valid(w) && w.worker.Cleared? && w.timer.Looked? && w.timer.found.Some?
    requires timeoutWrite != Refused && write != Refused
    ensures var ended := Next(w, Strike(detail, timeoutWrite));
            var undone := Next(ended, Write(write, last, readable));
            && ended.job.status == Failed && ended.store.Some? && Ended(ended.store.value)
            && undone.job == ended.job && undone.store == Some(w.worker.next) != ended.store
            && (Ended(undone.store.value) <==> Ended(w.worker.next))
  {
    StepKeepsValid(w, Strike(detail, timeoutWrite));
  }

  /** Late writes of the job do the same: a swept job runs again, and a swept job is completed. */
  lemma LateJobWritesOverrule(w: World)
    requires InWindow(w.worker) && !w.worker.Cleared? && !Terminal(w.job)
    ensures var swept := Next(w, Sweep);
            && swept.job.status == Failed
            && (w.worker.Entering? ==> Next(swept, Enter).job.status == Running)
            && (w.worker.Deciding? ==> Next(swept, Decide).job == w.worker.verdict)
  {
  }

  /** Intake is stored, and discovery is past its check while the timeout handler has looked. */
  function WindowRun(a: PhaseResult, b: PhaseResult, last: seq<Event>): seq<Event> {
    [Begin(Run(Intake)), Enter, Load(Passed(a), false, true), Check, Write(Stored, false, true), Report,
     Begin(Run(Discovery)), Enter, Load(Passed(b), false, true), Check, Look(true)] + last
  }

  lemma AfterNext(es: seq<Event>, n: nat)
    requires n < |es|
    ensures After(es, n + 1) == Next(After(es, n), es[n])
  {
  }

  lemma WindowRunPrefix(a: PhaseResult, b: PhaseResult, last: seq<Event>)
    ensures After(WindowRun(a, b, last), 6) == World(Job(Running, None), Some(Ran(FRESH, Intake, Passed(a))), Idle, Resting)
  {
    var es := WindowRun(a, b, last);
    assert After(es, 0) == START;
    hide After;
    AfterNext(es, 0);
    AfterNext(es, 1);
    AfterNext(es, 2);
    AfterNext(es, 3);
    AfterNext(es, 4);
    AfterNext(es, 5);
  }

  lemma BothInTheWindow(a: PhaseResult, b: PhaseResult, last: seq<Event>)
    requires a.hasPlan
    ensures var s := Ran(FRESH, Intake, Passed(a));
            After(WindowRun(a, b, last), 11)
            == World(Job(Running, None), Some(s), Cleared(Run(Discovery), Ran(s, Discovery, Passed(b))), Looked(Some(s)))
  {
    var es := WindowRun(a, b, last);
    WindowRunPrefix(a, b, last);
    hide After;
    AfterNext(es, 6);
    AfterNext(es, 7);
    AfterNext(es, 8);
    AfterNext(es, 9);
    AfterNext(es, 10);
  }

  /** The failing case: discovery passes its check, the timeout ends the audit, and the late write un-ends it. */
  lemma LateWriteUnendsTheAudit(a: PhaseResult, b: PhaseResult)
    requires a.hasPlan
    ensures var es := WindowRun(a, b, [Strike("1 hour(s)", Stored), Write(Stored, false, true)]);
            && After(es, 12).job.status == Failed && After(es, 12).store.Some? && Ended(After(es, 12).store.value)
            && After(es, 13).job.status == Failed && After(es, 13).store.Some? && !Ended(After(es, 13).store.value)
  {
    var last := [Strike("1 hour(s)", Stored), Write(Stored, false, true)];
    var es := WindowRun(a, b, last);
    BothInTheWindow(a, b, last);
    hide After;
    AfterNext(es, 11);
    AfterNext(es, 12);
  }

  /** The other way round: discovery is persisted, and the timeout writes back what it saw before. */
  lemma LateTimeoutLosesAPhase(a: PhaseResult, b: PhaseResult)
    requires a.hasPlan
    ensures var es := WindowRun(a, b, [Write(Stored, false, true), Strike("1 hour(s)", Stored)]);
            && After(es, 12).store.Some? && Discovery in After(es, 12).store.value.results
            && After(es, 13).store.Some? && Discovery !in After(es, 13).store.value.results
  {
    var last := [Write(Stored, false, true), Strike("1 hour(s)", Stored)];
    var es := WindowRun(a, b, last);
    BothInTheWindow(a, b, last);
    hide After;
    AfterNext(es, 11);
    AfterNext(es, 12);
  }
}
