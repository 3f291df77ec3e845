/** Fencing tokens: minted as read-back increments, checked against a per-key high-water mark. */
module Fencing {
  import opened Wrappers
  import opened JsonValues
  import opened JobStore
  import opened JobHistories
  import RowLock

  datatype Stale = StaleToken(provided: int, current: int)

  /** Accepts a token unless a higher one was recorded. */
  function CheckFencingToken(provided: int, current: Option<int>): (r: Result<(), Stale>)
    ensures r.Ok? <==> current == None || provided >= current.value
  {
    if current.Some? && provided < current.value then Err(StaleToken(provided, current.value)) else Ok(())
  }

  // ---- a store that checks every write and records the accepted token ----

  datatype FencedKey = FencedKey(resource: string, agentId: string)

  datatype WriteCall = WriteCall(key: FencedKey, token: int)

  function Marks(writes: seq<WriteCall>, n: nat): map<FencedKey, int>
    requires n <= |writes|
  {
    if n == 0 then map[]
    else
      var before, w := Marks(writes, n - 1), writes[n - 1];
      if CheckFencingToken(w.token, MarkOf(before, w.key)).Ok? then before[w.key := w.token] else before
  }

  function MarkOf(marks: map<FencedKey, int>, key: FencedKey): Option<int> {
    if key in marks then Some(marks[key]) else None
  }

  predicate Accepted(writes: seq<WriteCall>, i: nat) {
    i < |writes| && CheckFencingToken(writes[i].token, MarkOf(Marks(writes, i), writes[i].key)).Ok?
  }

  lemma {:induction false} MarkIsTheMaximum(writes: seq<WriteCall>, n: nat, key: FencedKey)
    requires n <= |writes|
    ensures key in Marks(writes, n) <==> exists i :: 0 <= i < n && writes[i].key == key
    ensures key in Marks(writes, n) ==>
              && (exists i :: 0 <= i < n && writes[i].key == key && writes[i].token == Marks(writes, n)[key])
              && (forall i | 0 <= i < n && writes[i].key == key :: writes[i].token <= Marks(writes, n)[key])
  {
    if n > 0 {
      MarkIsTheMaximum(writes, n - 1, key);
      if writes[n - 1].key == key {
        assert key in Marks(writes, n);
      }
    }
  }

  /** A write is accepted exactly when no earlier write of its key presented a higher token. */
  lemma AcceptedExactlyWhen(writes: seq<WriteCall>, j: nat)
    requires j < |writes|
    ensures Accepted(writes, j) <==>
            forall i | 0 <= i < j && writes[i].key == writes[j].key :: writes[i].token <= writes[j].token
  {
    MarkIsTheMaximum(writes, j, writes[j].key);
  }

  /** Accepted tokens never go down, and every writer sharing the newest token is accepted. */
  lemma AcceptedTokensNonDecreasing(writes: seq<WriteCall>, i: nat, j: nat)
    requires i < j < |writes| && writes[i].key == writes[j].key && Accepted(writes, i)
    ensures Accepted(writes, j) ==> writes[i].token <= writes[j].token
    ensures writes[i].token == writes[j].token
            && (forall m | i < m < j && writes[m].key == writes[j].key :: writes[m].token <= writes[j].token)
            ==> Accepted(writes, j)
  {
    AcceptedExactlyWhen(writes, i);
    AcceptedExactlyWhen(writes, j);
  }

  // ---- minting ----

  /** The call at `i` incremented counter `f` of `k` by one, and read the result back. */
  ghost predicate MintedAt(jobs: Jobs, h: seq<Entry>, k: JobKey, f: string, i: nat) {
    && i < |h| && AnswerOk(jobs, h, i)
    && h[i].op.ApplyPatch? && h[i].op.key == k && IncSum(h[i].op.patch.increment, f) == 1 && h[i].answer.Record?
  }

  function TokenAt(h: seq<Entry>, f: string, i: nat): int
    requires i < |h| && h[i].answer.Record?
  {
    Num(h[i].answer.job.data, f)
  }

  /** Calls that touch the counter only by adding to it, never downwards. */
  ghost predicate CounterDiscipline(h: seq<Entry>, k: JobKey, f: string) {
    && f != ACTIVITY && f != "status"
    && (forall i | 0 <= i < |h| :: OnlyCounts(h[i].op, k, f))
    && (forall i | 0 <= i < |h| && h[i].op.ApplyPatch? :: IncSum(h[i].op.patch.increment, f) >= 0)
  }

  lemma {:induction false} TotalGrows(jobs: Jobs, h: seq<Entry>, k: JobKey, f: string, i: nat, j: nat)
    requires i <= j <= |h| && CounterDiscipline(h, k, f)
    ensures TotalAdded(jobs, h, k, f, i) <= TotalAdded(jobs, h, k, f, j)
    decreases j
  {
    hide Apply;
    if i < j {
      TotalGrows(jobs, h, k, f, i, j - 1);
    }
  }

  lemma PatchAnswersItsRow(jobs: Jobs, op: Op, now: int)
    requires op.ApplyPatch? && Apply(jobs, op, now).1.Record?
    ensures op.key in Apply(jobs, op, now).0 && Apply(jobs, op, now).0[op.key] == Apply(jobs, op, now).1.job
  {
  }

  lemma TokenIsTheTotal(jobs: Jobs, h: seq<Entry>, k: JobKey, f: string, i: nat)
    requires k in jobs && NotFloat(jobs[k].data, f) && CounterDiscipline(h, k, f) && MintedAt(jobs, h, k, f, i)
    ensures TokenAt(h, f, i) == Num(jobs[k].data, f) + TotalAdded(jobs, h, k, f, i + 1)
    ensures TotalAdded(jobs, h, k, f, i + 1) == TotalAdded(jobs, h, k, f, i) + 1
  {
    hide Apply;
    CounterIsTheSum(jobs, h, k, f, i + 1);
    PatchAnswersItsRow(Serial(jobs, h, i), h[i].op, h[i].now);
  }

  /** Minted tokens are distinct and strictly increasing in commit order. */
  lemma TokensStrictlyIncrease(jobs: Jobs, h: seq<Entry>, k: JobKey, f: string, i: nat, j: nat)
    requires k in jobs && NotFloat(jobs[k].data, f) && CounterDiscipline(h, k, f)
    requires i < j && MintedAt(jobs, h, k, f, i) && MintedAt(jobs, h, k, f, j)
    ensures TokenAt(h, f, i) < TokenAt(h, f, j)
  {
    hide Apply;
    TokenIsTheTotal(jobs, h, k, f, i);
    TokenIsTheTotal(jobs, h, k, f, j);
    TotalGrows(jobs, h, k, f, i + 1, j);
  }

  /** After the first write of a newer incarnation, no write of an older one is ever accepted. */
  lemma OlderIncarnationFenced(jobs: Jobs, h: seq<Entry>, k: JobKey, f: string, older: nat, newer: nat,
                                  writes: seq<WriteCall>, first: nat, late: nat)
    requires k in jobs && NotFloat(jobs[k].data, f) && CounterDiscipline(h, k, f)
    requires older < newer && MintedAt(jobs, h, k, f, older) && MintedAt(jobs, h, k, f, newer)
    requires first < late < |writes| && writes[first].key == writes[late].key
    requires writes[first].token == TokenAt(h, f, newer) && writes[late].token == TokenAt(h, f, older)
    ensures !Accepted(writes, late)
  {
    TokensStrictlyIncrease(jobs, h, k, f, older, newer);
    AcceptedExactlyWhen(writes, late);
  }

  // ---- the same under row-locked interleavings ----

  /** The logged call at `i` incremented counter `f` of `k` by one, and its caller was handed a record. */
  predicate MintingCall(h: seq<Entry>, k: JobKey, f: string, i: nat) {
    && i < |h| && h[i].op.ApplyPatch? && h[i].op.key == k && IncSum(h[i].op.patch.increment, f) == 1 && h[i].answer.Record?
  }

  /** Whatever the interleaving, the tokens callers read back are distinct and increase in commit order. */
  lemma InterleavedTokensIncrease(plans: RowLock.Plans, run: seq<RowLock.System>, steps: seq<RowLock.Step>, n: nat,
                                  k: JobKey, f: string, i: nat, j: nat)
    requires RowLock.IsRun(plans, run, steps) && n <= |steps| && k in run[0].jobs && NotFloat(run[0].jobs[k].data, f)
    requires CounterDiscipline(run[n].log, k, f)
    requires i < j && MintingCall(run[n].log, k, f, i) && MintingCall(run[n].log, k, f, j)
    ensures TokenAt(run[n].log, f, i) < TokenAt(run[n].log, f, j)
  {
    hide Apply, CounterDiscipline, IncSum;
    RowLock.EveryRunIsSerial(plans, run, steps, n);
    var h := run[n].log;
    assert AnswerOk(run[0].jobs, h, i) && AnswerOk(run[0].jobs, h, j);
    TokensStrictlyIncrease(run[0].jobs, h, k, f, i, j);
  }
}
