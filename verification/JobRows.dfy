/** What each call leaves in the row it names, and which rows it leaves alone. */
module JobRows {
  import opened Wrappers
  import opened JsonValues
  import opened JobStore
  import opened JobHistories
  import opened Texts

  predicate Column(f: string) {
    f == "status" || f == "job_id" || f == "team" || f == "created_at" || f == "updated_at" || f == "last_heartbeat_at"
  }

  function Given(fields: Object, f: string, now: int): int {
    match Get(fields, f) case Int(n) => n case _ => now
  }

  /** A created row holds the status and exactly the given fields and an activity time; an existing one keeps its creation time. */
  lemma CreatedRowHolds(jobs: Jobs, k: JobKey, status: string, fields: Object, now: int)
    ensures var after := Apply(jobs, CreateJob(k, status, fields), now).0;
            && k in after && after - {k} == jobs - {k} && after[k].status == status
            && after[k].createdAt == (if k in jobs then jobs[k].createdAt else Given(fields, "created_at", now))
            && after[k].updatedAt == Given(fields, "updated_at", now)
            && after[k].heartbeatAt == Given(fields, "last_heartbeat_at", now)
            && (forall f :: f in after[k].data <==> (f in fields && !Column(f)) || f == "last_activity_at")
            && (forall f | f in fields && !Column(f) :: after[k].data[f] == fields[f])
            && ("last_activity_at" !in fields ==> after[k].data["last_activity_at"] == Int(now))
  {
  }

  /** A replaced row holds nothing but the payload. */
  lemma ReplacedRowHolds(jobs: Jobs, k: JobKey, status: string, payload: Object, now: int)
    ensures var after := Apply(jobs, ReplaceJob(k, status, payload), now).0;
            && k in after && after - {k} == jobs - {k} && after[k].status == status
            && after[k].createdAt == Given(payload, "created_at", now)
            && after[k].updatedAt == Given(payload, "updated_at", now)
            && after[k].heartbeatAt == Given(payload, "last_heartbeat_at", now)
            && (forall f :: f in after[k].data <==> f in payload && !Column(f))
            && (forall f | f in payload && !Column(f) :: after[k].data[f] == payload[f])
  {
  }

  lemma DeletedRowIsGone(jobs: Jobs, k: JobKey, now: int)
    ensures var (after, answer) := Apply(jobs, DeleteJob(k), now);
            k !in after && after == jobs - {k} && (answer == YesNo(true) <==> k in jobs) && (answer == YesNo(false) <==> k !in jobs)
  {
  }

  /** What a written update leaves: the given status, the given fields over the old ones, and the stamps. */
  ghost predicate UpdateWritten(before: Job, after: Job, heartbeat: bool, fields: Object, now: int) {
    && after.status == (match Get(fields, "status") case Str(s) => s case _ => before.status)
    && (forall f | f in fields && !Column(f) && f != "last_activity_at" :: f in after.data && after.data[f] == fields[f])
    && (forall f | (f !in fields || Column(f)) && f != "last_activity_at" :: SameField(before.data, after.data, f))
    && Get(after.data, "last_activity_at") == (if Get(fields, "last_activity_at") == Null then Int(now)
                                               else Get(fields, "last_activity_at"))
    && after.createdAt == before.createdAt && after.updatedAt == now
    && after.heartbeatAt == (if heartbeat then now else before.heartbeatAt)
  }

  lemma StampedFields(fields: Object, now: int)
    ensures var rest := StampActivity(fields - COLUMNS, now);
            && (forall f | f != "last_activity_at" :: f in rest <==> f in fields && !Column(f))
            && (forall f | f != "last_activity_at" && f in rest :: rest[f] == fields[f])
            && "last_activity_at" in rest
            && rest["last_activity_at"] == (if Get(fields, "last_activity_at") == Null then Int(now)
                                            else Get(fields, "last_activity_at"))
  {
  }

  lemma UpdatedRowIsWritten(before: Job, heartbeat: bool, fields: Object, now: int)
    requires Get(fields, "status").Str? || Get(fields, "status").Null?
    ensures UpdateWritten(before, UpdatedRow(before, heartbeat, fields, now), heartbeat, fields, now)
  {
    hide StampActivity, Column;
    StampedFields(fields, now);
  }

  /** An update writes exactly an existing row, and fails exactly on a status that is neither a string nor null. */
  lemma UpdateStores(jobs: Jobs, k: JobKey, heartbeat: bool, fields: Object, now: int)
    ensures var (after, answer) := Apply(jobs, UpdateJob(k, heartbeat, fields), now);
            && (answer == Failed <==> !Get(fields, "status").Str? && !Get(fields, "status").Null?)
            && (if answer != Failed && k in jobs then
                  k in after && after - {k} == jobs - {k} && UpdateWritten(jobs[k], after[k], heartbeat, fields, now)
                else after == jobs)
  {
    hide UpdatedRow, UpdateWritten;
    if k in jobs && (Get(fields, "status").Str? || Get(fields, "status").Null?) {
      UpdatedRowIsWritten(jobs[k], heartbeat, fields, now);
    }
  }

  /** The guarded update does the same, unless the row is cancelled, and refuses to cancel. */
  lemma GuardedUpdateStores(jobs: Jobs, k: JobKey, heartbeat: bool, fields: Object, now: int)
    ensures var (after, answer) := Apply(jobs, UpdateIfNotCancelled(k, heartbeat, fields), now);
            && (answer == Failed <==> Get(fields, "status") == Str("cancelled")
                                      || (!Get(fields, "status").Str? && !Get(fields, "status").Null?))
            && (answer != Failed ==>
                  && (answer == Missing <==> k !in jobs)
                  && (answer == YesNo(false) <==> k in jobs && jobs[k].status == "cancelled")
                  && (answer == YesNo(true) <==> k in jobs && jobs[k].status != "cancelled"))
            && (if answer == YesNo(true) then
                  k in after && after - {k} == jobs - {k} && UpdateWritten(jobs[k], after[k], heartbeat, fields, now)
                else after == jobs)
  {
    hide UpdatedRow, UpdateWritten;
    if k in jobs && (Get(fields, "status").Str? || Get(fields, "status").Null?) {
      UpdatedRowIsWritten(jobs[k], heartbeat, fields, now);
    }
  }

  /** A job is cancelled exactly when it is pending or running, and only its status and stamps change. */
  lemma CancelAcceptsExactly(jobs: Jobs, k: JobKey, now: int)
    ensures var (after, answer) := Apply(jobs, CancelActive(k), now);
            && (answer == YesNo(true) <==> k in jobs && (jobs[k].status == "pending" || jobs[k].status == "running"))
            && (answer == YesNo(true) || answer == YesNo(false))
            && (if answer == YesNo(true) then
                  && k in after && after - {k} == jobs - {k} && after[k].status == "cancelled"
                  && after[k].createdAt == jobs[k].createdAt && after[k].updatedAt == now && after[k].heartbeatAt == now
                  && Get(after[k].data, "last_activity_at") == Int(now)
                  && (forall f | f != "last_activity_at" :: SameField(jobs[k].data, after[k].data, f))
                else after == jobs)
  {
  }

  /** An event goes to the end of the log, a missing log counting as empty and anything else as its first entry. */
  lemma EventStores(jobs: Jobs, k: JobKey, event: Json, status: Option<string>, now: int)
    ensures var after := Apply(jobs, AppendEvent(k, event, status), now).0;
            if k in jobs then
              && k in after && after - {k} == jobs - {k}
              && after[k].status == (match status case Some(s) => s case None => jobs[k].status)
              && after[k].createdAt == jobs[k].createdAt && after[k].updatedAt == now && after[k].heartbeatAt == now
              && Get(after[k].data, "events") == (if "events" !in jobs[k].data then Arr([event])
                                                  else match jobs[k].data["events"]
                                                       case Arr(log) => Arr(log + [event])
                                                       case other => Arr([other, event]))
              && Get(after[k].data, "last_activity_at") == Int(now)
              && (forall f | f != "events" && f != "last_activity_at" :: SameField(jobs[k].data, after[k].data, f))
            else after == jobs
  {
  }

  lemma HeartbeatStores(jobs: Jobs, k: JobKey, now: int)
    ensures var (after, answer) := Apply(jobs, Heartbeat(k), now);
            && (answer == YesNo(true) <==> k in jobs) && (answer == YesNo(false) <==> k !in jobs)
            && (if k in jobs then
                  && k in after && after - {k} == jobs - {k} && after[k].heartbeatAt == now && after[k].updatedAt == now
                  && after[k].status == jobs[k].status && after[k].data == jobs[k].data && after[k].createdAt == jobs[k].createdAt
                else after == jobs)
  {
  }

  // ---- sweeps ----

  /** The waiting flag is set, or spelled as Postgres reads it. */
  predicate Unset(data: Object, f: string) {
    match Get(data, f)
    case Null => true
    case Bool(b) => !b
    case Int(n) => n == 0
    case Str(s) => TextToBool(s) == Some(false)
    case _ => false
  }

  predicate WaitsForNobody(job: Job, first: string) {
    && Unset(job.data, first) && Unset(job.data, "waiting_for_title_selection")
    && Unset(job.data, "waiting_for_story_input") && Unset(job.data, "waiting_for_draft_feedback")
  }

  lemma UnsetIsFalse(job: Job, sweep: Sweep)
    ensures WaitsForNobody(job, if sweep.StaleFailed? then sweep.waitingField else "waiting_for_answers")
            <==> forall f | f in WaitingFields(sweep) :: Flag(job.data, f) == Some(false)
  {
    var first := if sweep.StaleFailed? then sweep.waitingField else "waiting_for_answers";
    assert forall f | f in WaitingFields(sweep) ::
        f == first || f == "waiting_for_title_selection" || f == "waiting_for_story_input" || f == "waiting_for_draft_feedback";
    assert first in WaitingFields(sweep) && "waiting_for_title_selection" in WaitingFields(sweep)
        && "waiting_for_story_input" in WaitingFields(sweep) && "waiting_for_draft_feedback" in WaitingFields(sweep);
  }

  /** The stale sweep takes exactly the silent pending or running jobs of its team that wait for nobody, and fails them. */
  lemma StaleSweepTakesExactly(jobs: Jobs, team: string, cutoff: int, waitingField: string, reason: string, now: int, k: JobKey)
    requires k in jobs
    ensures var (after, answer) := Apply(jobs, SweepJobs(team, StaleFailed(cutoff, waitingField), reason), now);
            var taken := && k.team == team && (jobs[k].status == "pending" || jobs[k].status == "running")
                         && jobs[k].heartbeatAt < cutoff && WaitsForNobody(jobs[k], waitingField);
            answer != Failed ==>
              k in after && if taken then SweptTo(jobs[k], after[k], "failed", reason, now) else after[k] == jobs[k]
  {
    UnsetIsFalse(jobs[k], StaleFailed(cutoff, waitingField));
  }

  ghost predicate SweptTo(before: Job, after: Job, status: string, reason: string, now: int) {
    && after.status == status && Get(after.data, "error") == Str(reason) && Get(after.data, "current_activity") == Null
    && (forall f | f != "error" && f != "current_activity" :: SameField(before.data, after.data, f))
    && after.createdAt == before.createdAt && after.updatedAt == now && after.heartbeatAt == before.heartbeatAt
  }

  /** The two other sweeps take every pending or running job of the team that waits for nobody. */
  lemma FullSweepTakesExactly(jobs: Jobs, team: string, interrupt: bool, reason: string, now: int, k: JobKey)
    requires k in jobs
    ensures var (after, answer) := Apply(jobs, SweepJobs(team, if interrupt then AllInterrupted else AllFailed, reason), now);
            var taken := && k.team == team && (jobs[k].status == "pending" || jobs[k].status == "running")
                         && WaitsForNobody(jobs[k], "waiting_for_answers");
            answer != Failed ==>
              k in after && if taken then SweptTo(jobs[k], after[k], if interrupt then "interrupted" else "failed", reason, now)
                            else after[k] == jobs[k]
  {
    UnsetIsFalse(jobs[k], if interrupt then AllInterrupted else AllFailed);
  }
}
