/**
 Concurrent patches, split into their transaction steps: SELECT ... FOR UPDATE, UPDATE, read-back and
 COMMIT, interleaved with each other, with crashes, and with single-statement writers that wait for
 the row locks they would need.
 */
module RowLock {
  import opened Wrappers
  import opened JsonValues
  import opened JobStore
  import opened JobHistories

  type Tx = nat

  datatype Plan = Plan(key: JobKey, patch: Patch)

  datatype Local =
    | Holding(row: Job)              // the locked row, as read
    | Wrote(now: int, row: Job)      // its uncommitted successor
    | ReadBack(now: int, row: Job)   // and what the transaction read back

  datatype System = System(jobs: Jobs, open: map<Tx, Local>, log: seq<Entry>)

  datatype Step =
    | Lock(tx: Tx)
    | Write(tx: Tx, now: int)
    | Read(tx: Tx)
    | Commit(tx: Tx)
    | Crash(tx: Tx)
    | Statement(op: Op, now: int)

  type Plans = Tx -> Plan

  ghost predicate Locked(plans: Plans, s: System, k: JobKey) {
    exists tx | tx in s.open :: plans(tx).key == k
  }

  predicate SameRow(a: Jobs, b: Jobs, k: JobKey) {
    (k in a <==> k in b) && (k in a ==> a[k] == b[k])
  }

  ghost predicate Enabled(plans: Plans, s: System, step: Step) {
    match step
    case Lock(tx) => tx !in s.open && !Locked(plans, s, plans(tx).key)
    case Write(tx, _) => tx in s.open && s.open[tx].Holding?
    case Read(tx) => tx in s.open && s.open[tx].Wrote?
    case Commit(tx) => tx in s.open && s.open[tx].ReadBack?
    case Crash(tx) => tx in s.open
    case Statement(op, now) =>
      !op.ApplyPatch? && forall tx | tx in s.open :: SameRow(s.jobs, Apply(s.jobs, op, now).0, plans(tx).key)
  }

  function PatchOp(plan: Plan): Op {
    ApplyPatch(plan.key, plan.patch)
  }

  ghost function Next(plans: Plans, s: System, step: Step): System
    requires Enabled(plans, s, step)
  {
    match step
    case Lock(tx) =>
      var k := plans(tx).key;
      if k in s.jobs then s.(open := s.open[tx := Holding(s.jobs[k])])
      else s.(log := s.log + [Entry(PatchOp(plans(tx)), 0, Missing)])
    case Write(tx, now) =>
      var row := PatchedRow(s.open[tx].row, plans(tx).patch, now);
      if row.Some? then s.(open := s.open[tx := Wrote(now, row.value)])
      else s.(open := s.open - {tx}, log := s.log + [Entry(PatchOp(plans(tx)), now, Failed)])
    case Read(tx) =>  // inside the transaction, so of its own uncommitted row
      s.(open := s.open[tx := ReadBack(s.open[tx].now, s.open[tx].row)])
    case Commit(tx) =>
      var done := s.open[tx];
      System(s.jobs[plans(tx).key := done.row], s.open - {tx},
             s.log + [Entry(PatchOp(plans(tx)), done.now, Record(done.row))])
    case Crash(tx) => s.(open := s.open - {tx})
    case Statement(op, now) =>
      var (after, answer) := Apply(s.jobs, op, now);
      s.(jobs := after, log := s.log + [Entry(op, now, answer)])
  }

  ghost predicate IsRun(plans: Plans, run: seq<System>, steps: seq<Step>) {
    && |run| == |steps| + 1
    && run[0].open == map[] && run[0].log == []
    && forall i | 0 <= i < |steps| :: Enabled(plans, run[i], steps[i]) && run[i + 1] == Next(plans, run[i], steps[i])
  }

  // ---- the invariant ----

  ghost predicate LocalOk(plans: Plans, jobs: Jobs, tx: Tx, local: Local) {
    var k := plans(tx).key;
    k in jobs &&
    match local
    case Holding(row) => jobs[k] == row
    case Wrote(now, row) => PatchedRow(jobs[k], plans(tx).patch, now) == Some(row)
    case ReadBack(now, row) => PatchedRow(jobs[k], plans(tx).patch, now) == Some(row)
  }

  ghost predicate LocksExclusive(plans: Plans, open: map<Tx, Local>) {
    forall t, u | t in open && u in open && plans(t).key == plans(u).key :: t == u
  }

  ghost predicate LocalsOk(plans: Plans, s: System) {
    LocksExclusive(plans, s.open) && forall tx | tx in s.open :: LocalOk(plans, s.jobs, tx, s.open[tx])
  }

  ghost predicate IsSerial(start: Jobs, s: System) {
    s.jobs == Serial(start, s.log, |s.log|) && AnswersOk(start, s.log)
  }

  lemma {:induction false} SerialPrefix(start: Jobs, h: seq<Entry>, e: Entry, n: nat)
    requires n <= |h|
    ensures Serial(start, h + [e], n) == Serial(start, h, n)
  {
    if n > 0 {
      SerialPrefix(start, h, e, n - 1);
      assert (h + [e])[n - 1] == h[n - 1];
    }
  }

  lemma LogExtends(start: Jobs, s: System, e: Entry)
    requires IsSerial(start, s) && e.answer == Apply(s.jobs, e.op, e.now).1
    ensures IsSerial(start, System(Apply(s.jobs, e.op, e.now).0, s.open, s.log + [e]))
  {
    hide Apply;
    var h := s.log + [e];
    SerialPrefix(start, s.log, e, |s.log|);
    forall i: nat | i < |h| ensures AnswerOk(start, h, i) {
      SerialPrefix(start, s.log, e, if i < |s.log| then i else |s.log|);
      if i < |s.log| {
        assert AnswerOk(start, s.log, i) && h[i] == s.log[i];
      }
    }
  }

  lemma StepKeepsLocals(plans: Plans, s: System, step: Step)
    requires LocalsOk(plans, s) && Enabled(plans, s, step)
    ensures LocalsOk(plans, Next(plans, s, step))
  {
    var s' := Next(plans, s, step);
    forall tx | tx in s'.open ensures LocalOk(plans, s'.jobs, tx, s'.open[tx]) {
      if tx in s.open {
        assert LocalOk(plans, s.jobs, tx, s.open[tx]);
        if step.Statement? {
          assert SameRow(s.jobs, s'.jobs, plans(tx).key);
        }
      }
    }
  }

  lemma StepStaysSerial(plans: Plans, start: Jobs, s: System, step: Step)
    requires LocalsOk(plans, s) && IsSerial(start, s) && Enabled(plans, s, step)
    ensures IsSerial(start, Next(plans, s, step))
  {
    var s' := Next(plans, s, step);
    if !step.Statement? && step.tx in s.open {
      assert LocalOk(plans, s.jobs, step.tx, s.open[step.tx]);
    }
    if s'.log != s.log {
      var e := s'.log[|s.log|];
      LogExtends(start, s, e);
      assert s'.jobs == Apply(s.jobs, e.op, e.now).0;
    }
  }

  /**
   Every interleaving equals the serial run of the same calls in commit order: the same table, and
   the same answer to every caller.
   */
  lemma {:induction false} EveryRunIsSerial(plans: Plans, run: seq<System>, steps: seq<Step>, n: nat)
    requires IsRun(plans, run, steps) && n <= |steps|
    ensures IsSerial(run[0].jobs, run[n]) && LocalsOk(plans, run[n])
  {
    if n > 0 {
      EveryRunIsSerial(plans, run, steps, n - 1);
      var s, step := run[n - 1], steps[n - 1];
      assert Enabled(plans, s, step) && run[n] == Next(plans, s, step);
      StepKeepsLocals(plans, s, step);
      StepStaysSerial(plans, run[0].jobs, s, step);
    }
  }

  // ---- what that buys: the serial theorems hold of every interleaving ----

  /** No increment is lost, whatever the interleaving. */
  lemma NoLostIncrement(plans: Plans, run: seq<System>, steps: seq<Step>, n: nat, k: JobKey, f: string)
    requires IsRun(plans, run, steps) && n <= |steps| && k in run[0].jobs
    requires NotFloat(run[0].jobs[k].data, f) && f != ACTIVITY && f != "status"
    requires forall i | 0 <= i < |run[n].log| :: OnlyCounts(run[n].log[i].op, k, f)
    ensures k in run[n].jobs
    ensures Num(run[n].jobs[k].data, f)
         == Num(run[0].jobs[k].data, f) + TotalAdded(run[0].jobs, run[n].log, k, f, |run[n].log|)
  {
    EveryRunIsSerial(plans, run, steps, n);
    CounterIsTheSum(run[0].jobs, run[n].log, k, f, |run[n].log|);
  }

  /** No appended item is lost, and items appear in commit order. */
  lemma NoLostAppend(plans: Plans, run: seq<System>, steps: seq<Step>, n: nat, k: JobKey, f: string)
    requires IsRun(plans, run, steps) && n <= |steps| && k in run[0].jobs && f != ACTIVITY && f != "status"
    requires forall i | 0 <= i < |run[n].log| :: OnlyAppends(run[n].log[i].op, k, f)
    ensures k in run[n].jobs
    ensures ListAt(run[n].jobs[k].data, f)
         == ListAt(run[0].jobs[k].data, f) + AllItems(run[0].jobs, run[n].log, k, f, |run[n].log|)
  {
    EveryRunIsSerial(plans, run, steps, n);
    ListIsTheConcatenation(run[0].jobs, run[n].log, k, f, |run[n].log|);
  }

  /** A cancellation that committed survives every later call that carries no status. */
  lemma CancelSurvivesPatches(plans: Plans, run: seq<System>, steps: seq<Step>, n: nat, k: JobKey, c: nat)
    requires IsRun(plans, run, steps) && n <= |steps| && c < |run[n].log|
    requires run[n].log[c].op == CancelActive(k) && run[n].log[c].answer == YesNo(true)
    requires forall m | c < m < |run[n].log| :: !Overwrites(run[n].log[m].op, k)
    ensures IsCancelled(run[n].jobs, k)
  {
    EveryRunIsSerial(plans, run, steps, n);
    var start, h := run[0].jobs, run[n].log;
    assert AnswerOk(start, h, c);
    assert IsCancelled(Serial(start, h, c + 1), k);
    CancelledIsAbsorbing(start, h, k, c + 1, |h|);
  }

  /** No event is lost, whatever the interleaving. */
  lemma NoLostEvent(plans: Plans, run: seq<System>, steps: seq<Step>, n: nat, k: JobKey)
    requires IsRun(plans, run, steps) && n <= |steps| && k in run[0].jobs && HasLog(run[0].jobs[k].data)
    requires forall i | 0 <= i < |run[n].log| :: LogsOnly(run[n].log[i].op, k)
    ensures k in run[n].jobs
    ensures ListAt(run[n].jobs[k].data, "events")
         == ListAt(run[0].jobs[k].data, "events") + Logged(run[n].log, k, |run[n].log|)
  {
    EveryRunIsSerial(plans, run, steps, n);
    LogIsComplete(run[0].jobs, run[n].log, k, |run[n].log|);
  }
}
