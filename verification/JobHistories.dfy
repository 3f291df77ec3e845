/** Serial histories of the jobs table: what survives, what adds up, what a sweep may touch. */
module JobHistories {
  import opened Wrappers
  import opened JsonValues
  import opened NestedMerge
  import opened JobStore

  /** One committed call, with what its caller was told. */
  datatype Entry = Entry(op: Op, now: int, answer: Answer)

  /** The table after the first `n` calls of `h`. */
  function Serial(jobs: Jobs, h: seq<Entry>, n: nat): Jobs
    requires n <= |h|
  {
    if n == 0 then jobs else Apply(Serial(jobs, h, n - 1), h[n - 1].op, h[n - 1].now).0
  }

  ghost predicate AnswerOk(jobs: Jobs, h: seq<Entry>, i: nat) {
    i < |h| && h[i].answer == Apply(Serial(jobs, h, i), h[i].op, h[i].now).1
  }

  ghost predicate AnswersOk(jobs: Jobs, h: seq<Entry>) {
    forall i: nat | i < |h| :: AnswerOk(jobs, h, i)
  }

  // ---- cancellation ----

  /** The calls that may overwrite the status, or the row, of `k` whatever it holds. */
  predicate Overwrites(op: Op, k: JobKey) {
    match op
    case CreateJob(k', _, _) => k' == k
    case ReplaceJob(k', _, _) => k' == k
    case DeleteJob(k') => k' == k
    case UpdateJob(k', _, fields) => k' == k && Get(fields, "status").Str?
    case ApplyPatch(k', p) => k' == k && "status" in p.mergeFields
    case AppendEvent(k', _, status) => k' == k && status.Some?
    case _ => false
  }

  predicate IsCancelled(jobs: Jobs, k: JobKey) {
    k in jobs && jobs[k].status == CANCELLED
  }

  lemma StepKeepsCancelled(jobs: Jobs, op: Op, now: int, k: JobKey)
    requires IsCancelled(jobs, k) && !Overwrites(op, k)
    ensures IsCancelled(Apply(jobs, op, now).0, k)
  {
  }

  /** Guarded updates, heartbeats, sweeps, status-free events and patches never undo a cancellation. */
  lemma {:induction false} CancelledIsAbsorbing(jobs: Jobs, h: seq<Entry>, k: JobKey, i: nat, j: nat)
    requires i <= j <= |h| && IsCancelled(Serial(jobs, h, i), k)
    requires forall m | i <= m < j :: !Overwrites(h[m].op, k)
    ensures IsCancelled(Serial(jobs, h, j), k)
    decreases j
  {
    if i < j {
      CancelledIsAbsorbing(jobs, h, k, i, j - 1);
      StepKeepsCancelled(Serial(jobs, h, j - 1), h[j - 1].op, h[j - 1].now, k);
    }
  }

  /** Between two successful cancellations of a job some call brought it back. */
  lemma CancelOncePerActivation(jobs: Jobs, h: seq<Entry>, k: JobKey, i: nat, j: nat)
    requires AnswersOk(jobs, h) && i < j < |h|
    requires h[i].op == h[j].op == CancelActive(k) && h[i].answer == h[j].answer == YesNo(true)
    ensures exists m :: i < m < j && Overwrites(h[m].op, k)
  {
    assert AnswerOk(jobs, h, i) && AnswerOk(jobs, h, j);
    if forall m | i + 1 <= m < j :: !Overwrites(h[m].op, k) {
      assert IsCancelled(Serial(jobs, h, i + 1), k);
      CancelledIsAbsorbing(jobs, h, k, i + 1, j);
      assert false;
    }
  }

  /** A guarded update reports what it found: written, cancelled, or missing. */
  lemma GuardedUpdateAnswers(jobs: Jobs, k: JobKey, heartbeat: bool, fields: Object, now: int)
    requires StatusArgOk(fields) && Get(fields, "status") != Str(CANCELLED)
    ensures var (after, answer) := Apply(jobs, UpdateIfNotCancelled(k, heartbeat, fields), now);
            && (answer == Missing <==> k !in jobs)
            && (answer == YesNo(false) <==> IsCancelled(jobs, k))
            && (answer != YesNo(true) ==> after == jobs)
            && (answer == YesNo(true) ==> k in after && after[k].updatedAt == now && after - {k} == jobs - {k}
                                          && forall f | f in fields && f !in COLUMNS && fields[f] != Null ::
                                               f in after[k].data && after[k].data[f] == fields[f])
  {
  }

  // ---- sweeps ----

  /** A sweep changes exactly the rows it returns, to the status it names, and keeps every other row. */
  lemma SweepChangesWhatItReturns(jobs: Jobs, team: string, sweep: Sweep, reason: string, now: int)
    ensures var (after, answer) := Apply(jobs, SweepJobs(team, sweep, reason), now);
            if SweepRaises(jobs, team, sweep) then answer == Failed && after == jobs
            else
              && answer.Swept? && after.Keys == jobs.Keys
              && (forall k | k in jobs :: k.team == team && k.jobId in answer.ids <==> after[k] != jobs[k])
              && (forall k | k in jobs && after[k] != jobs[k] ::
                    Active(jobs[k].status) && after[k].status == (if sweep.AllInterrupted? then INTERRUPTED else FAILED))
              && (forall id | id in answer.ids :: JobKey(team, id) in jobs)
  {
    var (after, answer) := Apply(jobs, SweepJobs(team, sweep, reason), now);
    if !SweepRaises(jobs, team, sweep) {
      var keys := SweptKeys(jobs, team, sweep);
      forall k | k in jobs ensures k.team == team && k.jobId in answer.ids <==> k in keys {
        if k.team == team && k.jobId in answer.ids {
          var k' :| k' in keys && k'.jobId == k.jobId;
          assert k' == k;
        }
      }
      forall id | id in answer.ids ensures JobKey(team, id) in jobs {
        var k :| k in keys && k.jobId == id;
        assert k == JobKey(team, id);
      }
    }
  }

  /** Repeating a sweep changes nothing and returns nothing. */
  lemma SweepTwiceIsOnce(jobs: Jobs, team: string, sweep: Sweep, reason: string, now: int)
    requires !SweepRaises(jobs, team, sweep)
    ensures var after := Apply(jobs, SweepJobs(team, sweep, reason), now).0;
            Apply(after, SweepJobs(team, sweep, reason), now) == (after, Swept({}))
  {
    var after := Apply(jobs, SweepJobs(team, sweep, reason), now).0;
    assert SweptKeys(after, team, sweep) == {};
    assert !SweepRaises(after, team, sweep);
    var (again, answer) := Apply(after, SweepJobs(team, sweep, reason), now);
    assert again == after;
    assert answer.ids == {};
  }

  const WAITING := {"waiting_for_answers", "waiting_for_title_selection", "waiting_for_story_input",
                    "waiting_for_draft_feedback"}

  predicate Waiting(job: Job) {
    exists f | f in WAITING :: Flag(job.data, f) == Some(true)
  }

  /** With the default waiting field no job paused for user input is touched. */
  lemma SweepSparesWaitingJobs(jobs: Jobs, team: string, sweep: Sweep, reason: string, now: int, k: JobKey)
    requires sweep.StaleFailed? ==> sweep.waitingField == "waiting_for_answers"
    requires k in jobs && Waiting(jobs[k])
    ensures Apply(jobs, SweepJobs(team, sweep, reason), now).0[k] == jobs[k]
  {
    assert WaitingFields(sweep) == WAITING;
  }

  /** With any other waiting field, a job waiting for answers is swept. */
  lemma OtherWaitingFieldSweepsPausedJob(waitingField: string, cutoff: int, reason: string, now: int)
    requires waitingField != "waiting_for_answers"
    ensures var k := JobKey("team", "job");
            var job := Job(RUNNING, map["waiting_for_answers" := Json.Bool(true)], 0, 0, cutoff - 1);
            && Waiting(job)
            && Apply(map[k := job], SweepJobs("team", StaleFailed(cutoff, waitingField), reason), now).0[k].status == FAILED
  {
    var k := JobKey("team", "job");
    var job := Job(RUNNING, map["waiting_for_answers" := Json.Bool(true)], 0, 0, cutoff - 1);
    var sweep := StaleFailed(cutoff, waitingField);
    assert "waiting_for_answers" in WAITING && Flag(job.data, "waiting_for_answers") == Some(true);
    assert k in SweptKeys(map[k := job], "team", sweep);
  }

  // ---- heartbeats ----

  /** The calls that may replace the whole row. */
  predicate Recreates(op: Op, k: JobKey) {
    match op
    case CreateJob(k', _, _) => k' == k
    case ReplaceJob(k', _, _) => k' == k
    case DeleteJob(k') => k' == k
    case _ => false
  }

  lemma StepKeepsHeartbeat(jobs: Jobs, op: Op, now: int, k: JobKey, seen: int)
    requires k in jobs && jobs[k].heartbeatAt >= seen && now >= seen && !Recreates(op, k)
    ensures var after := Apply(jobs, op, now).0;
            k in after && after[k].heartbeatAt >= seen && after[k].createdAt == jobs[k].createdAt
  {
  }

  /** Until its row is recreated or deleted, a job keeps its creation time and its heartbeat never goes back. */
  lemma {:induction false} HeartbeatNeverGoesBack(jobs: Jobs, h: seq<Entry>, k: JobKey, i: nat, j: nat, seen: int)
    requires i <= j <= |h| && k in Serial(jobs, h, i) && Serial(jobs, h, i)[k].heartbeatAt >= seen
    requires forall m | i <= m < j :: h[m].now >= seen && !Recreates(h[m].op, k)
    ensures k in Serial(jobs, h, j) && Serial(jobs, h, j)[k].heartbeatAt >= seen
    ensures Serial(jobs, h, j)[k].createdAt == Serial(jobs, h, i)[k].createdAt
    decreases j
  {
    hide Apply;
    if i < j {
      HeartbeatNeverGoesBack(jobs, h, k, i, j - 1, seen);
      StepKeepsHeartbeat(Serial(jobs, h, j - 1), h[j - 1].op, h[j - 1].now, k, seen);
    }
  }

  /** After a heartbeat no stale sweep whose cutoff lies before it touches the job, whatever happened in between. */
  lemma HeartbeatKeepsJobAlive(jobs: Jobs, h: seq<Entry>, k: JobKey, i: nat, j: nat, sweep: Sweep)
    requires AnswersOk(jobs, h) && i < j < |h| && h[i].op == Heartbeat(k) && h[i].answer == YesNo(true)
    requires forall m | i < m < j :: h[m].now >= h[i].now && !Recreates(h[m].op, k)
    requires h[j].op.SweepJobs? && h[j].op.sweep == sweep && sweep.StaleFailed? && sweep.cutoff <= h[i].now
    ensures k in Serial(jobs, h, j + 1) && Serial(jobs, h, j + 1)[k] == Serial(jobs, h, j)[k]
  {
    assert AnswerOk(jobs, h, i);
    HeartbeatNeverGoesBack(jobs, h, k, i + 1, j, h[i].now);
  }

  /** An active job that waits for nobody is failed by a stale sweep if and only if its heartbeat is older than the cutoff. */
  lemma StaleSweepFailsExactlyWhen(jobs: Jobs, cutoff: int, waitingField: string, reason: string, now: int, k: JobKey)
    requires k in jobs && Active(jobs[k].status)
    requires forall f | f in WaitingFields(StaleFailed(cutoff, waitingField)) :: Flag(jobs[k].data, f) == Some(false)
    ensures var (after, answer) := Apply(jobs, SweepJobs(k.team, StaleFailed(cutoff, waitingField), reason), now);
            answer != Failed ==>
              && (after[k].status == FAILED <==> jobs[k].heartbeatAt < cutoff)
              && (after[k].status == FAILED ==> Get(after[k].data, "error") == Str(reason)
                                                && after[k].heartbeatAt == jobs[k].heartbeatAt)
  {
  }

  // ---- the event log ----

  /** Every part of the call except an appended event leaves the event log of `k` alone. */
  predicate LogsOnly(op: Op, k: JobKey) {
    if op.AppendEvent? then true
    else LeavesField(op, k, "events")
         && (op.ApplyPatch? && op.key == k ==>
               AppendsElsewhere(op.patch.appendTo, "events") && CountsElsewhere(op.patch.increment, "events"))
  }

  function LoggedBy(op: Op, k: JobKey): seq<Json> {
    if op.AppendEvent? && op.key == k then [op.event] else []
  }

  function Logged(h: seq<Entry>, k: JobKey, n: nat): seq<Json>
    requires n <= |h|
  {
    if n == 0 then [] else Logged(h, k, n - 1) + LoggedBy(h[n - 1].op, k)
  }

  predicate HasLog(o: Object) {
    "events" in o ==> o["events"].Arr?
  }

  lemma PatchKeepsLog(job: Job, p: Patch, now: int)
    requires PatchedRow(job, p, now).Some? && "events" !in p.mergeFields && NestedElsewhere(p.mergeNested, "events")
    requires AppendsElsewhere(p.appendTo, "events") && CountsElsewhere(p.increment, "events")
    ensures SameField(job.data, PatchedRow(job, p, now).value.data, "events")
  {
    var o := job.data + (p.mergeFields - {"status"});
    MergeAllFrame(o, p.mergeNested, "events");
    var merged := MergeAll(o, p.mergeNested).value;
    AppendFrame(merged, p.appendTo, "events");
    IncrementFrame(AppendAll(merged, p.appendTo), p.increment, "events");
  }

  lemma StepKeepsLog(jobs: Jobs, op: Op, now: int, k: JobKey)
    requires k in jobs && HasLog(jobs[k].data) && LogsOnly(op, k)
    ensures var after := Apply(jobs, op, now).0;
            k in after && HasLog(after[k].data)
            && ListAt(after[k].data, "events") == ListAt(jobs[k].data, "events") + LoggedBy(op, k)
  {
    if op.ApplyPatch? && op.key == k {
      if PatchedRow(jobs[k], op.patch, now).Some? {
        PatchKeepsLog(jobs[k], op.patch, now);
      }
    } else if !op.AppendEvent? {
      StepLeavesField(jobs, op, now, k, "events");
    }
  }

  /** Over every history the event log is what it was plus every appended event, in commit order. */
  lemma {:induction false} LogIsComplete(jobs: Jobs, h: seq<Entry>, k: JobKey, n: nat)
    requires n <= |h| && k in jobs && HasLog(jobs[k].data) && forall i | 0 <= i < n :: LogsOnly(h[i].op, k)
    ensures k in Serial(jobs, h, n) && HasLog(Serial(jobs, h, n)[k].data)
    ensures ListAt(Serial(jobs, h, n)[k].data, "events") == ListAt(jobs[k].data, "events") + Logged(h, k, n)
  {
    hide Apply, HasLog, LogsOnly;
    if n > 0 {
      LogIsComplete(jobs, h, k, n - 1);
      StepKeepsLog(Serial(jobs, h, n - 1), h[n - 1].op, h[n - 1].now, k);
      ConcatAssociates(ListAt(jobs[k].data, "events"), Logged(h, k, n - 1), LoggedBy(h[n - 1].op, k));
    }
  }

  // ---- counters and lists: what patches add is what is there ----

  function IncSum(items: seq<(string, int)>, f: string): int {
    if items == [] then 0
    else IncSum(items[..|items| - 1], f) + if items[|items| - 1].0 == f then items[|items| - 1].1 else 0
  }

  function ItemsFor(items: seq<(string, seq<Json>)>, f: string): seq<Json> {
    if items == [] then []
    else ItemsFor(items[..|items| - 1], f) + if items[|items| - 1].0 == f then items[|items| - 1].1 else []
  }

  predicate NestedElsewhere(items: seq<(string, Json)>, f: string) {
    forall item | item in items :: Split(item.0)[0] != f
  }

  predicate AppendsElsewhere(items: seq<(string, seq<Json>)>, f: string) {
    forall item | item in items :: item.0 != f
  }

  predicate CountsElsewhere(items: seq<(string, int)>, f: string) {
    forall item | item in items :: item.0 != f
  }

  predicate SameField(o: Object, o': Object, f: string) {
    (f in o <==> f in o') && (f in o ==> o[f] == o'[f])
  }

  /** Every part of the call except a patch's appends and increments leaves field `f` of `k` alone. */
  predicate LeavesField(op: Op, k: JobKey, f: string) {
    match op
    case CreateJob(k', _, _) => k' != k
    case ReplaceJob(k', _, _) => k' != k
    case DeleteJob(k') => k' != k
    case UpdateJob(k', _, fields) => k' != k || f !in fields
    case UpdateIfNotCancelled(k', _, fields) => k' != k || f !in fields
    case ApplyPatch(k', p) => k' != k || (f !in p.mergeFields && NestedElsewhere(p.mergeNested, f))
    case AppendEvent(k', _, _) => k' != k || f != "events"
    case SweepJobs(team, _, _) => k.team != team || (f != "error" && f != "current_activity")
    case _ => true
  }

  predicate OnlyCounts(op: Op, k: JobKey, f: string) {
    LeavesField(op, k, f) && (op.ApplyPatch? && op.key == k ==> AppendsElsewhere(op.patch.appendTo, f))
  }

  predicate OnlyAppends(op: Op, k: JobKey, f: string) {
    LeavesField(op, k, f) && (op.ApplyPatch? && op.key == k ==> CountsElsewhere(op.patch.increment, f))
  }

  /** A stored integer; anything else counts as zero, as `apply_patch` reads it. */
  function Num(o: Object, f: string): int {
    if f in o && IsPyInt(o[f]) then PyInt(o[f]) else 0
  }

  predicate NotFloat(o: Object, f: string) {
    f in o ==> !o[f].Float?
  }

  /** What a call adds to the counter `f` of `k`: the increments of a patch that went through. */
  function Added(jobs: Jobs, op: Op, now: int, k: JobKey, f: string): int {
    if op.ApplyPatch? && op.key == k && Apply(jobs, op, now).1.Record? then IncSum(op.patch.increment, f) else 0
  }

  function AddedItems(jobs: Jobs, op: Op, now: int, k: JobKey, f: string): seq<Json> {
    if op.ApplyPatch? && op.key == k && Apply(jobs, op, now).1.Record? then ItemsFor(op.patch.appendTo, f) else []
  }

  function TotalAdded(jobs: Jobs, h: seq<Entry>, k: JobKey, f: string, n: nat): int
    requires n <= |h|
  {
    if n == 0 then 0
    else TotalAdded(jobs, h, k, f, n - 1) + Added(Serial(jobs, h, n - 1), h[n - 1].op, h[n - 1].now, k, f)
  }

  function AllItems(jobs: Jobs, h: seq<Entry>, k: JobKey, f: string, n: nat): seq<Json>
    requires n <= |h|
  {
    if n == 0 then []
    else AllItems(jobs, h, k, f, n - 1) + AddedItems(Serial(jobs, h, n - 1), h[n - 1].op, h[n - 1].now, k, f)
  }

  lemma {:induction false} MergeAllFrame(o: Object, items: seq<(string, Json)>, f: string)
    requires NestedElsewhere(items, f) && MergeAll(o, items).Some?
    ensures SameField(o, MergeAll(o, items).value, f)
  {
    if items != [] {
      assert items[|items| - 1] in items;
      MergeAllFrame(o, items[..|items| - 1], f);
    }
  }

  lemma {:induction false} AppendAllAt(o: Object, items: seq<(string, seq<Json>)>, f: string)
    ensures ListAt(AppendAll(o, items), f) == ListAt(o, f) + ItemsFor(items, f)
  {
    if items == [] {
    } else {
      var before, last := items[..|items| - 1], items[|items| - 1];
      AppendAllAt(o, before, f);
      if last.0 == f {
        assert (ListAt(o, f) + ItemsFor(before, f)) + last.1 == ListAt(o, f) + (ItemsFor(before, f) + last.1);
      } else {
        assert ItemsFor(items, f) == ItemsFor(before, f);
      }
    }
  }

  lemma {:induction false} AppendFrame(o: Object, items: seq<(string, seq<Json>)>, f: string)
    requires AppendsElsewhere(items, f)
    ensures SameField(o, AppendAll(o, items), f)
  {
    if items != [] {
      assert items[|items| - 1] in items;
      AppendFrame(o, items[..|items| - 1], f);
    }
  }

  lemma {:induction false} IncrementAllAt(o: Object, items: seq<(string, int)>, f: string)
    requires NotFloat(o, f)
    ensures NotFloat(IncrementAll(o, items), f)
    ensures Num(IncrementAll(o, items), f) == Num(o, f) + IncSum(items, f)
    ensures CountsElsewhere(items, f) ==> SameField(o, IncrementAll(o, items), f)
  {
    if items != [] {
      assert items[|items| - 1] in items;
      IncrementAllAt(o, items[..|items| - 1], f);
    }
  }

  lemma {:induction false} IncrementFrame(o: Object, items: seq<(string, int)>, f: string)
    requires CountsElsewhere(items, f)
    ensures SameField(o, IncrementAll(o, items), f)
  {
    if items != [] {
      assert items[|items| - 1] in items;
      IncrementFrame(o, items[..|items| - 1], f);
    }
  }

  lemma PatchCounts(job: Job, p: Patch, now: int, f: string)
    requires f != ACTIVITY && f != "status" && NotFloat(job.data, f) && PatchedRow(job, p, now).Some?
    requires f !in p.mergeFields && NestedElsewhere(p.mergeNested, f) && AppendsElsewhere(p.appendTo, f)
    ensures var data := PatchedRow(job, p, now).value.data;
            NotFloat(data, f) && Num(data, f) == Num(job.data, f) + IncSum(p.increment, f)
  {
    var o := job.data + (p.mergeFields - {"status"});
    MergeAllFrame(o, p.mergeNested, f);
    var merged := MergeAll(o, p.mergeNested).value;
    AppendFrame(merged, p.appendTo, f);
    IncrementAllAt(AppendAll(merged, p.appendTo), p.increment, f);
  }

  lemma PatchAppends(job: Job, p: Patch, now: int, f: string)
    requires f != ACTIVITY && f != "status" && PatchedRow(job, p, now).Some?
    requires f !in p.mergeFields && NestedElsewhere(p.mergeNested, f) && CountsElsewhere(p.increment, f)
    ensures ListAt(PatchedRow(job, p, now).value.data, f) == ListAt(job.data, f) + ItemsFor(p.appendTo, f)
  {
    var o := job.data + (p.mergeFields - {"status"});
    MergeAllFrame(o, p.mergeNested, f);
    var merged := MergeAll(o, p.mergeNested).value;
    AppendAllAt(merged, p.appendTo, f);
    IncrementFrame(AppendAll(merged, p.appendTo), p.increment, f);
  }

  lemma StepLeavesField(jobs: Jobs, op: Op, now: int, k: JobKey, f: string)
    requires k in jobs && LeavesField(op, k, f) && f != ACTIVITY
    requires !(op.ApplyPatch? && op.key == k)
    ensures k in Apply(jobs, op, now).0 && SameField(jobs[k].data, Apply(jobs, op, now).0[k].data, f)
  {
  }

  /** Over every history whose calls change the counter only by increments, no increment is lost. */
  lemma {:induction false} CounterIsTheSum(jobs: Jobs, h: seq<Entry>, k: JobKey, f: string, n: nat)
    requires n <= |h| && k in jobs && NotFloat(jobs[k].data, f) && f != ACTIVITY && f != "status"
    requires forall i | 0 <= i < n :: OnlyCounts(h[i].op, k, f)
    ensures k in Serial(jobs, h, n) && NotFloat(Serial(jobs, h, n)[k].data, f)
    ensures Num(Serial(jobs, h, n)[k].data, f) == Num(jobs[k].data, f) + TotalAdded(jobs, h, k, f, n)
  {
    hide Apply, OnlyCounts, Added, Num, NotFloat;
    if n > 0 {
      CounterIsTheSum(jobs, h, k, f, n - 1);
      CounterStep(Serial(jobs, h, n - 1), h[n - 1].op, h[n - 1].now, k, f);
    }
  }

  lemma CounterStep(jobs: Jobs, op: Op, now: int, k: JobKey, f: string)
    requires k in jobs && NotFloat(jobs[k].data, f) && f != ACTIVITY && f != "status" && OnlyCounts(op, k, f)
    ensures var after := Apply(jobs, op, now).0;
            k in after && NotFloat(after[k].data, f)
            && Num(after[k].data, f) == Num(jobs[k].data, f) + Added(jobs, op, now, k, f)
  {
    if op.ApplyPatch? && op.key == k {
      if PatchedRow(jobs[k], op.patch, now).Some? {
        PatchCounts(jobs[k], op.patch, now, f);
      }
    } else {
      StepLeavesField(jobs, op, now, k, f);
    }
  }

  /** Over every history whose calls change the list only by appends, it is their concatenation in order. */
  lemma {:induction false} ListIsTheConcatenation(jobs: Jobs, h: seq<Entry>, k: JobKey, f: string, n: nat)
    requires n <= |h| && k in jobs && f != ACTIVITY && f != "status"
    requires forall i | 0 <= i < n :: OnlyAppends(h[i].op, k, f)
    ensures k in Serial(jobs, h, n)
    ensures ListAt(Serial(jobs, h, n)[k].data, f) == ListAt(jobs[k].data, f) + AllItems(jobs, h, k, f, n)
  {
    hide Apply, OnlyAppends, AddedItems, ListAt;
    if n > 0 {
      ListIsTheConcatenation(jobs, h, k, f, n - 1);
      var before, e := Serial(jobs, h, n - 1), h[n - 1];
      ListStep(before, e.op, e.now, k, f);
      var start, sofar, more := ListAt(jobs[k].data, f), AllItems(jobs, h, k, f, n - 1), AddedItems(before, e.op, e.now, k, f);
      ConcatAssociates(start, sofar, more);
      assert AllItems(jobs, h, k, f, n) == sofar + more;
      assert Serial(jobs, h, n) == Apply(before, e.op, e.now).0;
    }
  }

  lemma ConcatAssociates(a: seq<Json>, b: seq<Json>, c: seq<Json>)
    ensures (a + b) + c == a + (b + c)
  {
  }

  lemma ListStep(jobs: Jobs, op: Op, now: int, k: JobKey, f: string)
    requires k in jobs && f != ACTIVITY && f != "status" && OnlyAppends(op, k, f)
    ensures var after := Apply(jobs, op, now).0;
            k in after && ListAt(after[k].data, f) == ListAt(jobs[k].data, f) + AddedItems(jobs, op, now, k, f)
  {
    if op.ApplyPatch? && op.key == k {
      if PatchedRow(jobs[k], op.patch, now).Some? {
        PatchAppends(jobs[k], op.patch, now, f);
      }
    } else {
      StepLeavesField(jobs, op, now, k, f);
    }
  }
}
