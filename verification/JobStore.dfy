/** The jobs table: what each statement does to it, and the methods that issue the statements. */
module JobStore {
  import opened Wrappers
  import opened JsonValues
  import opened NestedMerge
  import opened Texts

  datatype JobKey = JobKey(team: string, jobId: string)

  /** The top-level columns and the JSONB `data` column; times are integers. */
  datatype Job = Job(status: string, data: Object, createdAt: int, updatedAt: int, heartbeatAt: int)

  type Jobs = map<JobKey, Job>

  datatype Patch = Patch(mergeFields: Object, mergeNested: seq<(string, Json)>,
                         appendTo: seq<(string, seq<Json>)>, increment: seq<(string, int)>)

  datatype Sweep =
    | StaleFailed(cutoff: int, waitingField: string)
    | AllFailed
    | AllInterrupted

  datatype Op =
    | CreateJob(key: JobKey, status: string, fields: Object)
    | ReplaceJob(key: JobKey, status: string, fields: Object)
    | DeleteJob(key: JobKey)
    | UpdateJob(key: JobKey, heartbeat: bool, fields: Object)
    | UpdateIfNotCancelled(key: JobKey, heartbeat: bool, fields: Object)
    | ApplyPatch(key: JobKey, patch: Patch)
    | CancelActive(key: JobKey)
    | AppendEvent(key: JobKey, event: Json, newStatus: Option<string>)
    | Heartbeat(key: JobKey)
    | SweepJobs(team: string, sweep: Sweep, reason: string)

  datatype Answer =
    | Nothing
    | YesNo(b: bool)
    | Missing                      // None: there is no such job
    | Record(job: Job)
    | Swept(ids: set<string>)
    | Failed                       // the statement or the computation raised; nothing was written

  const PENDING := "pending"
  const RUNNING := "running"
  const FAILED := "failed"
  const CANCELLED := "cancelled"
  const INTERRUPTED := "interrupted"
  const ACTIVITY := "last_activity_at"
  const COLUMNS := {"status", "job_id", "team", "created_at", "updated_at", "last_heartbeat_at"}

  // ---- single rows ----

  function StampActivity(fields: Object, now: int): Object {
    if Get(fields, ACTIVITY) == Null then fields[ACTIVITY := Int(now)] else fields
  }

  predicate StatusArgOk(fields: Object) {
    Get(fields, "status").Str? || Get(fields, "status").Null?
  }

  function UpdatedRow(job: Job, heartbeat: bool, fields: Object, now: int): Job {
    var status := Get(fields, "status");
    Job(if status.Str? then status.s else job.status,
        job.data + StampActivity(fields - COLUMNS, now),
        job.createdAt, now, if heartbeat then now else job.heartbeatAt)
  }

  function CancelledRow(job: Job, now: int): Job {
    job.(status := CANCELLED, data := job.data[ACTIVITY := Int(now)], updatedAt := now, heartbeatAt := now)
  }

  /** `data->field || [item]`, where a missing field reads as `[]` and a non-array is wrapped. */
  function JsonbAppend(data: Object, field: string, item: Json): Json {
    if field !in data then Arr([item])
    else if data[field].Arr? then Arr(data[field].items + [item])
    else Arr([data[field], item])
  }

  function EventRow(job: Job, event: Json, status: Option<string>, now: int): Job {
    Job(if status.Some? then status.value else job.status,
        job.data["events" := JsonbAppend(job.data, "events", event)][ACTIVITY := Int(now)],
        job.createdAt, now, now)
  }

  // ---- the read-modify-write patch ----

  function MergeAll(o: Object, items: seq<(string, Json)>): Option<Object> {
    if items == [] then Some(o)
    else
      var last := items[|items| - 1];
      match MergeAll(o, items[..|items| - 1])
      case None => None
      case Some(before) => MergeAt(before, Split(last.0), last.1)
  }

  function ListAt(o: Object, field: string): seq<Json> {
    if field in o && o[field].Arr? then o[field].items else []
  }

  function AppendAll(o: Object, items: seq<(string, seq<Json>)>): Object {
    if items == [] then o
    else
      var before, last := AppendAll(o, items[..|items| - 1]), items[|items| - 1];
      before[last.0 := Arr(ListAt(before, last.0) + last.1)]
  }

  /** Python addition of an integer to a stored number; anything else counts as zero. */
  function Bumped(j: Json, delta: int): Json {
    if j.Float? then Float(j.r + delta as real)
    else if IsPyInt(j) then Int(PyInt(j) + delta)
    else Int(delta)
  }

  function IncrementAll(o: Object, items: seq<(string, int)>): Object {
    if items == [] then o
    else
      var before, last := IncrementAll(o, items[..|items| - 1]), items[|items| - 1];
      before[last.0 := Bumped(Get(before, last.0), last.1)]
  }

  function PatchedData(data: Object, p: Patch, now: int): Option<Object> {
    match MergeAll(data + (p.mergeFields - {"status"}), p.mergeNested)
    case None => None
    case Some(merged) =>
      var counted := IncrementAll(AppendAll(merged, p.appendTo), p.increment);
      Some(if Get(p.mergeFields, ACTIVITY) != Null then counted else counted[ACTIVITY := Int(now)])
  }

  /** `None` when the computation or the statement raises: the transaction is rolled back. */
  function PatchedRow(job: Job, p: Patch, now: int): Option<Job> {
    var data := PatchedData(job.data, p, now);
    if data.None? || ("status" in p.mergeFields && !p.mergeFields["status"].Str?) then None
    else
      var status := if "status" in p.mergeFields then p.mergeFields["status"].s else job.status;
      Some(Job(status, data.value, job.createdAt, now, now))
  }

  // ---- bulk sweeps ----

  predicate Active(status: string) {
    status == PENDING || status == RUNNING
  }

  /** `(data->>field)::boolean` with null read as false; `None` is a cast error. */
  function Flag(data: Object, field: string): Option<bool> {
    match Get(data, field)
    case Null => Some(false)
    case Bool(b) => Some(b)
    case Int(n) => if n == 0 then Some(false) else if n == 1 then Some(true) else None
    case Str(s) => TextToBool(s)
    case _ => None
  }

  function WaitingFields(sweep: Sweep): set<string> {
    {if sweep.StaleFailed? then sweep.waitingField else "waiting_for_answers",
     "waiting_for_title_selection", "waiting_for_story_input", "waiting_for_draft_feedback"}
  }

  predicate CastError(job: Job, sweep: Sweep) {
    Active(job.status) && exists f | f in WaitingFields(sweep) :: Flag(job.data, f).None?
  }

  predicate Swept?(job: Job, sweep: Sweep) {
    && Active(job.status)
    && (forall f | f in WaitingFields(sweep) :: Flag(job.data, f) == Some(false))
    && (sweep.StaleFailed? ==> job.heartbeatAt < sweep.cutoff)
  }

  function SweptRow(job: Job, sweep: Sweep, reason: string, now: int): Job {
    job.(status := if sweep.AllInterrupted? then INTERRUPTED else FAILED,
         data := job.data + map["error" := Str(reason), "current_activity" := Null],
         updatedAt := now)
  }

  function SweptKeys(jobs: Jobs, team: string, sweep: Sweep): set<JobKey> {
    set k | k in jobs && k.team == team && Swept?(jobs[k], sweep)
  }

  predicate SweepRaises(jobs: Jobs, team: string, sweep: Sweep) {
    exists k | k in jobs :: k.team == team && CastError(jobs[k], sweep)
  }

  // ---- statements on the table ----

  function StampOr(fields: Object, field: string, now: int): int {
    if Get(fields, field).Int? then Get(fields, field).n else now
  }

  function CreatedRow(jobs: Jobs, k: JobKey, status: string, fields: Object, now: int): Job {
    var data := fields - COLUMNS;
    Job(status, if ACTIVITY in data then data else data[ACTIVITY := Int(now)],
        if k in jobs then jobs[k].createdAt else StampOr(fields, "created_at", now),
        StampOr(fields, "updated_at", now), StampOr(fields, "last_heartbeat_at", now))
  }

  function ReplacedRow(status: string, fields: Object, now: int): Job {
    Job(status, fields - COLUMNS, StampOr(fields, "created_at", now),
        StampOr(fields, "updated_at", now), StampOr(fields, "last_heartbeat_at", now))
  }

  function Apply(jobs: Jobs, op: Op, now: int): (Jobs, Answer) {
    match op
    case CreateJob(k, status, fields) => (jobs[k := CreatedRow(jobs, k, status, fields, now)], Nothing)
    case ReplaceJob(k, status, fields) => (jobs[k := ReplacedRow(status, fields, now)], Nothing)
    case DeleteJob(k) => (jobs - {k}, YesNo(k in jobs))
    case UpdateJob(k, heartbeat, fields) =>
      if !StatusArgOk(fields) then (jobs, Failed)
      else if k !in jobs then (jobs, Nothing)
      else (jobs[k := UpdatedRow(jobs[k], heartbeat, fields, now)], Nothing)
    case UpdateIfNotCancelled(k, heartbeat, fields) =>
      if !StatusArgOk(fields) || Get(fields, "status") == Str(CANCELLED) then (jobs, Failed)
      else if k !in jobs then (jobs, Missing)
      else if jobs[k].status == CANCELLED then (jobs, YesNo(false))
      else (jobs[k := UpdatedRow(jobs[k], heartbeat, fields, now)], YesNo(true))
    case ApplyPatch(k, p) =>
      if k !in jobs then (jobs, Missing)
      else
        var row := PatchedRow(jobs[k], p, now);
        if row.None? then (jobs, Failed) else (jobs[k := row.value], Record(row.value))
    case CancelActive(k) =>
      if k in jobs && Active(jobs[k].status) then (jobs[k := CancelledRow(jobs[k], now)], YesNo(true))
      else (jobs, YesNo(false))
    case AppendEvent(k, event, status) =>
      (if k in jobs then jobs[k := EventRow(jobs[k], event, status, now)] else jobs, Nothing)
    case Heartbeat(k) =>
      if k in jobs then (jobs[k := jobs[k].(updatedAt := now, heartbeatAt := now)], YesNo(true))
      else (jobs, YesNo(false))
    case SweepJobs(team, sweep, reason) =>
      if SweepRaises(jobs, team, sweep) then (jobs, Failed)
      else
        var keys := SweptKeys(jobs, team, sweep);
        (map k | k in jobs :: if k in keys then SweptRow(jobs[k], sweep, reason, now) else jobs[k],
         Swept(set k | k in keys :: k.jobId))
  }

  class JobTable {
    var jobs: Jobs

    constructor ()
      ensures jobs == map[]
    {
      jobs := map[];
    }

    method CreateJob(k: JobKey, status: string, fields: Object, now: int)
      modifies this
      ensures jobs == Apply(old(jobs), Op.CreateJob(k, status, fields), now).0
    {
      var created, updated, beat :=
        StampOr(fields, "created_at", now), StampOr(fields, "updated_at", now), StampOr(fields, "last_heartbeat_at", now);
      var data := fields - COLUMNS;
      if ACTIVITY !in data {
        data := data[ACTIVITY := Int(now)];
      }
      if k in jobs {
        jobs := jobs[k := jobs[k].(status := status, data := data, updatedAt := updated, heartbeatAt := beat)];
      } else {
        jobs := jobs[k := Job(status, data, created, updated, beat)];
      }
    }

    /** A status that is no string is refused by the database. */
    method ReplaceJob(k: JobKey, payload: Object, now: int) returns (answer: Answer)
      modifies this
      ensures answer == Failed <==> "status" in payload && !payload["status"].Str?
      ensures answer == Failed ==> jobs == old(jobs)
      ensures answer != Failed ==>
                (jobs, answer) == Apply(old(jobs), Op.ReplaceJob(k, if "status" in payload then payload["status"].s else PENDING,
                                                                 payload), now)
    {
      var status := PENDING;
      if "status" in payload {
        if !payload["status"].Str? {
          return Failed;
        }
        status := payload["status"].s;
      }
      var data := map f | f in payload && f !in COLUMNS :: payload[f];
      assert data == payload - COLUMNS;
      jobs := jobs[k := Job(status, data, StampOr(payload, "created_at", now),
                            StampOr(payload, "updated_at", now), StampOr(payload, "last_heartbeat_at", now))];
      return Nothing;
    }

    method DeleteJob(k: JobKey) returns (deleted: bool)
      modifies this
      ensures (jobs, YesNo(deleted)) == Apply(old(jobs), Op.DeleteJob(k), 0)
    {
      deleted := k in jobs;
      jobs := jobs - {k};
    }

    /** Pops the column names out of `fields` and stamps the activity time. */
    method PrepareUpdateFields(fields: Object, now: int) returns (newStatus: Json, rest: Object)
      ensures newStatus == Get(fields, "status")
      ensures rest == StampActivity(fields - COLUMNS, now)
    {
      rest := fields;
      newStatus := Get(rest, "status");
      rest := rest - {"status"};
      rest := rest - {"job_id"};
      rest := rest - {"team"};
      rest := rest - {"created_at"};
      rest := rest - {"updated_at"};
      rest := rest - {"last_heartbeat_at"};
      assert rest == fields - COLUMNS;
      if Get(rest, ACTIVITY) == Null {
        rest := rest[ACTIVITY := Int(now)];
      }
    }

    /** The one UPDATE behind the guarded and the unguarded update. */
    method ExecuteStatusUpdate(k: JobKey, fields: Object, newStatus: Option<string>, now: int, heartbeat: bool,
                               guardCancelled: bool) returns (matched: bool)
      modifies this
      ensures var write := k in old(jobs) && !(guardCancelled && old(jobs)[k].status == CANCELLED);
              && matched == (write || !guardCancelled)
              && jobs == if write then
                           old(jobs)[k := Job(if newStatus.Some? then newStatus.value else old(jobs)[k].status,
                                              old(jobs)[k].data + fields, old(jobs)[k].createdAt, now,
                                              if heartbeat then now else old(jobs)[k].heartbeatAt)]
                         else old(jobs)
    {
      if k !in jobs || (guardCancelled && jobs[k].status == CANCELLED) {
        return !guardCancelled;
      }
      var row := jobs[k];
      row := row.(data := row.data + fields);
      if newStatus.Some? {
        row := row.(status := newStatus.value);
      }
      row := row.(updatedAt := now);
      if heartbeat {
        row := row.(heartbeatAt := now);
      }
      jobs := jobs[k := row];
      return true;
    }

    method UpdateJob(k: JobKey, heartbeat: bool, fields: Object, now: int) returns (answer: Answer)
      modifies this
      ensures (jobs, answer) == Apply(old(jobs), Op.UpdateJob(k, heartbeat, fields), now)
    {
      var newStatus, rest := PrepareUpdateFields(fields, now);
      if !newStatus.Str? && !newStatus.Null? {
        return Failed;
      }
      var _ := ExecuteStatusUpdate(k, rest, if newStatus.Str? then Some(newStatus.s) else None, now, heartbeat, false);
      return Nothing;
    }

    method UpdateJobIfNotCancelled(k: JobKey, heartbeat: bool, fields: Object, now: int) returns (answer: Answer)
      modifies this
      ensures (jobs, answer) == Apply(old(jobs), Op.UpdateIfNotCancelled(k, heartbeat, fields), now)
    {
      if Get(fields, "status") == Str(CANCELLED) {
        return Failed;
      }
      var newStatus, rest := PrepareUpdateFields(fields, now);
      if !newStatus.Str? && !newStatus.Null? {
        return Failed;
      }
      var updated := ExecuteStatusUpdate(k, rest, if newStatus.Str? then Some(newStatus.s) else None, now, heartbeat, true);
      if updated {
        return YesNo(true);
      }
      return if k in jobs then YesNo(false) else Missing;
    }

    method ApplyPatch(k: JobKey, p: Patch, now: int) returns (answer: Answer)
      modifies this
      ensures (jobs, answer) == Apply(old(jobs), Op.ApplyPatch(k, p), now)
    {
      if k !in jobs {
        return Missing;
      }
      var data, newStatus, statusOk := jobs[k].data, jobs[k].status, true;
      var mergeFields := p.mergeFields;
      if "status" in mergeFields {
        statusOk := mergeFields["status"].Str?;
        newStatus := if statusOk then mergeFields["status"].s else newStatus;
        mergeFields := mergeFields - {"status"};
      }
      assert mergeFields == p.mergeFields - {"status"};
      data := data + mergeFields;
      var merged := MergeNestedFields(data, p.mergeNested);
      if merged.None? {
        return Failed;
      }
      data := AppendToLists(merged.value, p.appendTo);
      data := IncrementFields(data, p.increment);
      if Get(mergeFields, ACTIVITY) == Null {
        data := data[ACTIVITY := Int(now)];
      }
      if !statusOk {
        return Failed;
      }
      jobs := jobs[k := jobs[k].(data := data, status := newStatus, updatedAt := now, heartbeatAt := now)];
      return Record(jobs[k]);
    }

    static method MergeNestedFields(o: Object, items: seq<(string, Json)>) returns (r: Option<Object>)
      ensures r == MergeAll(o, items)
    {
      var data := o;
      for i := 0 to |items|
        invariant MergeAll(o, items[..i]) == Some(data)
      {
        assert items[..i + 1][..i] == items[..i];
        var step := MergeAt(data, Split(items[i].0), items[i].1);
        if step.None? {
          MergeStaysFailed(o, items, i + 1);
          return None;
        }
        data := step.value;
      }
      assert items[..|items|] == items;
      return Some(data);
    }

    static method AppendToLists(o: Object, items: seq<(string, seq<Json>)>) returns (data: Object)
      ensures data == AppendAll(o, items)
    {
      data := o;
      for i := 0 to |items|
        invariant data == AppendAll(o, items[..i])
      {
        assert items[..i + 1][..i] == items[..i];
        var field, extra := items[i].0, items[i].1;
        var existing := if field in data then data[field] else Arr([]);
        if !existing.Arr? {
          existing := Arr([]);
        }
        data := data[field := Arr(existing.items + extra)];
      }
      assert items[..|items|] == items;
    }

    static method IncrementFields(o: Object, items: seq<(string, int)>) returns (data: Object)
      ensures data == IncrementAll(o, items)
    {
      data := o;
      for i := 0 to |items|
        invariant data == IncrementAll(o, items[..i])
      {
        assert items[..i + 1][..i] == items[..i];
        var field, delta := items[i].0, items[i].1;
        data := data[field := Bumped(Get(data, field), delta)];
      }
      assert items[..|items|] == items;
    }

    method CancelActiveJob(k: JobKey, now: int) returns (cancelled: bool)
      modifies this
      ensures (jobs, YesNo(cancelled)) == Apply(old(jobs), CancelActive(k), now)
    {
      if k !in jobs || !(jobs[k].status == PENDING || jobs[k].status == RUNNING) {
        return false;
      }
      var row := jobs[k];
      jobs := jobs[k := row.(status := CANCELLED, updatedAt := now, heartbeatAt := now,
                             data := row.data[ACTIVITY := Int(now)])];
      return true;
    }

    method AppendEvent(k: JobKey, event: Json, status: Option<string>, now: int)
      modifies this
      ensures jobs == Apply(old(jobs), Op.AppendEvent(k, event, status), now).0
    {
      if k in jobs {
        var row := jobs[k];
        var data := row.data["events" := JsonbAppend(row.data, "events", event)];
        row := row.(data := data[ACTIVITY := Int(now)], updatedAt := now, heartbeatAt := now);
        if status.Some? {
          row := row.(status := status.value);
        }
        jobs := jobs[k := row];
      }
    }

    method Heartbeat(k: JobKey, now: int) returns (found: bool)
      modifies this
      ensures (jobs, YesNo(found)) == Apply(old(jobs), Op.Heartbeat(k), now)
    {
      if k in jobs {
        jobs := jobs[k := jobs[k].(heartbeatAt := now, updatedAt := now)];
        return true;
      }
      return false;
    }

    /** `UPDATE ... WHERE ... RETURNING job_id` */
    method RunSweep(team: string, sweep: Sweep, reason: string, now: int) returns (answer: Answer)
      modifies this
      ensures (jobs, answer) == Apply(old(jobs), SweepJobs(team, sweep, reason), now)
    {
      if SweepRaises(jobs, team, sweep) {
        return Failed;
      }
      var keys := SweptKeys(jobs, team, sweep);
      jobs := map k | k in jobs :: if k in keys then SweptRow(jobs[k], sweep, reason, now) else jobs[k];
      return Swept(set k | k in keys :: k.jobId);
    }

    method MarkStaleActiveJobsFailed(team: string, staleAfter: int, reason: string, waitingField: string, now: int)
      returns (answer: Answer)
      modifies this
      ensures (jobs, answer) == Apply(old(jobs), SweepJobs(team, StaleFailed(now - staleAfter, waitingField), reason), now)
    {
      answer := RunSweep(team, StaleFailed(now - staleAfter, waitingField), reason, now);
    }

    method MarkAllActiveJobsFailed(team: string, reason: string, now: int) returns (answer: Answer)
      modifies this
      ensures (jobs, answer) == Apply(old(jobs), SweepJobs(team, AllFailed, reason), now)
    {
      answer := RunSweep(team, AllFailed, reason, now);
    }

    method MarkAllActiveJobsInterrupted(team: string, reason: string, now: int) returns (answer: Answer)
      modifies this
      ensures (jobs, answer) == Apply(old(jobs), SweepJobs(team, AllInterrupted, reason), now)
    {
      answer := RunSweep(team, AllInterrupted, reason, now);
    }
  }

  lemma {:induction false} MergeStaysFailed(o: Object, items: seq<(string, Json)>, n: nat)
    requires n <= |items| && MergeAll(o, items[..n]).None?
    ensures MergeAll(o, items).None?
    decreases |items|
  {
    if n < |items| {
      assert items[..|items| - 1][..n] == items[..n];
      MergeStaysFailed(o, items[..|items| - 1], n);
    } else {
      assert items[..n] == items;
    }
  }
}
