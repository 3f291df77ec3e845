/** What one patch leaves in the row, stated through the merges at its paths. */
module JobPatches {
  import opened Wrappers
  import opened JsonValues
  import opened NestedMerge
  import opened JobStore
  import opened JobHistories

  // ---- nested merges, one after another ----

  predicate Unrelated(p: Path, q: Path) {
    !(p <= q) && !(q <= p)
  }

  /** The objects a sequence of merges passes through. */
  ghost predicate IsTrace(o: Object, items: seq<(string, Json)>, trace: seq<Object>) {
    && 1 <= |trace| <= |items| + 1 && trace[0] == o
    && forall i | 0 <= i < |trace| - 1 :: MergeAt(trace[i], Split(items[i].0), items[i].1) == Some(trace[i + 1])
  }

  /** The trace covers all merges, or the next one raises. */
  ghost predicate Complete(o: Object, items: seq<(string, Json)>, trace: seq<Object>) {
    IsTrace(o, items, trace) && |trace| == |items| + 1
  }

  ghost predicate Stuck(o: Object, items: seq<(string, Json)>, trace: seq<Object>) {
    && IsTrace(o, items, trace) && |trace| <= |items|
    && MergeAt(trace[|trace| - 1], Split(items[|trace| - 1].0), items[|trace| - 1].1).None?
  }

  lemma {:induction false} TraceIsMerged(o: Object, items: seq<(string, Json)>, trace: seq<Object>, n: nat)
    requires IsTrace(o, items, trace) && n < |trace|
    ensures MergeAll(o, items[..n]) == Some(trace[n])
  {
    if n > 0 {
      TraceIsMerged(o, items, trace, n - 1);
      assert items[..n][..n - 1] == items[..n - 1];
    }
  }

  lemma StuckFails(o: Object, items: seq<(string, Json)>, trace: seq<Object>)
    requires Stuck(o, items, trace)
    ensures MergeAll(o, items).None?
  {
    var n := |trace|;
    TraceIsMerged(o, items, trace, n - 1);
    assert items[..n][..n - 1] == items[..n - 1];
    MergeStaysFailed(o, items, n);
  }

  /** Every sequence of merges either runs through or gets stuck. */
  lemma {:induction false} TraceExists(o: Object, items: seq<(string, Json)>) returns (trace: seq<Object>)
    ensures Complete(o, items, trace) || Stuck(o, items, trace)
  {
    if items == [] {
      trace := [o];
    } else {
      var before := items[..|items| - 1];
      trace := TraceExists(o, before);
      if Complete(o, before, trace) {
        var next := MergeAt(trace[|trace| - 1], Split(items[|items| - 1].0), items[|items| - 1].1);
        if next.Some? {
          trace := trace + [next.value];
        }
      }
    }
  }

  // ---- the patched row ----

  predicate StatusOk(p: Patch) {
    "status" in p.mergeFields ==> p.mergeFields["status"].Str?
  }

  /** The stored data overlaid by the merged top-level fields, before the nested merges. */
  function Merged(job: Job, p: Patch): Object {
    job.data + (p.mergeFields - {"status"})
  }

  /**
   A patch whose nested merges run through answers the row it wrote: its status, its times, and every field that is
   neither appended to nor incremented as the last merge left it. No other row changes.
   */
  lemma PatchStores(jobs: Jobs, k: JobKey, p: Patch, now: int, trace: seq<Object>)
    requires k in jobs && StatusOk(p) && Complete(Merged(jobs[k], p), p.mergeNested, trace)
    ensures var (after, answer) := Apply(jobs, ApplyPatch(k, p), now);
            && k in after && answer == Record(after[k]) && after - {k} == jobs - {k}
            && after[k].status == (if "status" in p.mergeFields then p.mergeFields["status"].s else jobs[k].status)
            && after[k].createdAt == jobs[k].createdAt && after[k].updatedAt == now && after[k].heartbeatAt == now
            && (Get(p.mergeFields, "last_activity_at") == Null ==> Get(after[k].data, "last_activity_at") == Int(now))
            && forall f | (f == "last_activity_at" ==> Get(p.mergeFields, "last_activity_at") != Null)
                          && AppendsElsewhere(p.appendTo, f) && CountsElsewhere(p.increment, f) ::
                 SameField(trace[|p.mergeNested|], after[k].data, f)
  {
    var items := p.mergeNested;
    TraceIsMerged(Merged(jobs[k], p), items, trace, |items|);
    assert items[..|items|] == items;
    var (after, _) := Apply(jobs, ApplyPatch(k, p), now);
    var last := trace[|items|];
    forall f | (f == "last_activity_at" ==> Get(p.mergeFields, "last_activity_at") != Null)
               && AppendsElsewhere(p.appendTo, f) && CountsElsewhere(p.increment, f)
      ensures SameField(last, after[k].data, f)
    {
      AppendFrame(last, p.appendTo, f);
      IncrementFrame(AppendAll(last, p.appendTo), p.increment, f);
    }
  }

  /** A patch fails exactly when its status is no string or a nested merge raises, and then writes nothing. */
  lemma PatchFailsExactlyWhen(jobs: Jobs, k: JobKey, p: Patch, now: int)
    requires k in jobs
    ensures var (after, answer) := Apply(jobs, ApplyPatch(k, p), now);
            && (answer == Failed <==> !StatusOk(p) || exists trace :: Stuck(Merged(jobs[k], p), p.mergeNested, trace))
            && (answer == Failed ==> after == jobs)
  {
    var trace := TraceExists(Merged(jobs[k], p), p.mergeNested);
    if Complete(Merged(jobs[k], p), p.mergeNested, trace) {
      TraceIsMerged(Merged(jobs[k], p), p.mergeNested, trace, |p.mergeNested|);
      assert p.mergeNested[..|p.mergeNested|] == p.mergeNested;
    }
    forall t | Stuck(Merged(jobs[k], p), p.mergeNested, t) ensures MergeAll(Merged(jobs[k], p), p.mergeNested).None? {
      StuckFails(Merged(jobs[k], p), p.mergeNested, t);
    }
  }

  /** Merged top-level fields hold their new values, unless the same patch goes on to change them. */
  lemma MergedFieldsAreStored(jobs: Jobs, k: JobKey, p: Patch, now: int, f: string)
    requires k in jobs && Apply(jobs, ApplyPatch(k, p), now).1.Record?
    requires f in p.mergeFields && f != "status" && (f == "last_activity_at" ==> p.mergeFields[f] != Null)
    requires NestedElsewhere(p.mergeNested, f) && AppendsElsewhere(p.appendTo, f) && CountsElsewhere(p.increment, f)
    ensures Get(Apply(jobs, ApplyPatch(k, p), now).0[k].data, f) == p.mergeFields[f]
  {
    var o := Merged(jobs[k], p);
    MergeAllFrame(o, p.mergeNested, f);
    var merged := MergeAll(o, p.mergeNested).value;
    AppendFrame(merged, p.appendTo, f);
    IncrementFrame(AppendAll(merged, p.appendTo), p.increment, f);
  }

  // ---- merges at unrelated paths ----

  lemma {:induction false} MergeAllFramePath(o: Object, items: seq<(string, Json)>, q: Path)
    requires q != [] && MergeAll(o, items).Some?
    requires forall i | 0 <= i < |items| :: Unrelated(Split(items[i].0), q)
    ensures Lookup(MergeAll(o, items).value, q) == Lookup(o, q)
  {
    if items != [] {
      var last := items[|items| - 1];
      MergeAllFramePath(o, items[..|items| - 1], q);
      MergeFrame(MergeAll(o, items[..|items| - 1]).value, Split(last.0), last.1, q);
    }
  }

  lemma {:induction false} MergeAllAtPath(o: Object, items: seq<(string, Json)>, i: nat)
    requires i < |items| && MergeAll(o, items).Some?
    requires forall j | 0 <= j < |items| && j != i :: Unrelated(Split(items[j].0), Split(items[i].0))
    ensures var q := Split(items[i].0);
            Lookup(MergeAll(o, items).value, q) == Some(Overlay(OrEmpty(Lookup(o, q)), items[i].1))
    decreases |items|
  {
    var q, last, before := Split(items[i].0), items[|items| - 1], items[..|items| - 1];
    var merged := MergeAll(o, before).value;
    if i == |items| - 1 {
      MergeAllFramePath(o, before, q);
      MergedValue(merged, q, last.1);
    } else {
      MergeAllAtPath(o, before, i);
      MergeFrame(merged, Split(last.0), last.1, q);
    }
  }

  lemma SameFirstField(o: Object, o': Object, q: Path)
    requires q != [] && SameField(o, o', q[0])
    ensures Lookup(o, q) == Lookup(o', q)
  {
  }

  /** At a path unrelated to the patch's other changes, the row holds the old value overlaid by the new one. */
  lemma PatchMergesAtPath(jobs: Jobs, k: JobKey, p: Patch, now: int, i: nat)
    requires k in jobs && Apply(jobs, ApplyPatch(k, p), now).1.Record? && i < |p.mergeNested|
    requires var q := Split(p.mergeNested[i].0);
             && (forall j | 0 <= j < |p.mergeNested| && j != i :: Unrelated(Split(p.mergeNested[j].0), q))
             && q[0] !in p.mergeFields && q[0] != "last_activity_at"
             && AppendsElsewhere(p.appendTo, q[0]) && CountsElsewhere(p.increment, q[0])
    ensures var q := Split(p.mergeNested[i].0);
            Lookup(Apply(jobs, ApplyPatch(k, p), now).0[k].data, q)
            == Some(Overlay(OrEmpty(Lookup(jobs[k].data, q)), p.mergeNested[i].1))
  {
    var q, o := Split(p.mergeNested[i].0), Merged(jobs[k], p);
    var merged := MergeAll(o, p.mergeNested).value;
    MergeAllAtPath(o, p.mergeNested, i);
    SameFirstField(jobs[k].data, o, q);
    AppendFrame(merged, p.appendTo, q[0]);
    IncrementFrame(AppendAll(merged, p.appendTo), p.increment, q[0]);
    SameFirstField(merged, Apply(jobs, ApplyPatch(k, p), now).0[k].data, q);
  }

  /** Something other than an object stands on the way. */
  predicate Blocks(o: Object, q: Path) {
    q != [] && Lookup(o, q).Some? && !Lookup(o, q).value.Obj?
  }

  lemma PrefixOfPrefix(p: Path, r: Path, n: nat)
    requires n <= |r|
    ensures p <= r[..n] ==> p <= r
  {
    if p <= r[..n] {
      assert r[..n][..|p|] == r[..|p|];
    }
  }

  lemma MergeMovesNoBlock(o: Object, p: Path, v: Json, r: Path, n: nat)
    requires p != [] && Unrelated(p, r) && 0 < n < |r| && MergeAt(o, p, v).Some?
    ensures Blocks(MergeAt(o, p, v).value, r[..n]) <==> Blocks(o, r[..n])
  {
    var q := r[..n];
    if q < p {
      MergeKeepsContainers(o, p, v, q);
    } else {
      PrefixOfPrefix(p, r, n);
      MergeFrame(o, p, v, q);
    }
  }

  lemma {:induction false} MergesMoveNoBlock(o: Object, items: seq<(string, Json)>, r: Path, n: nat)
    requires 0 < n < |r| && MergeAll(o, items).Some?
    requires forall i | 0 <= i < |items| :: Unrelated(Split(items[i].0), r)
    ensures Blocks(MergeAll(o, items).value, r[..n]) <==> Blocks(o, r[..n])
  {
    if items != [] {
      var last := items[|items| - 1];
      MergesMoveNoBlock(o, items[..|items| - 1], r, n);
      MergeMovesNoBlock(MergeAll(o, items[..|items| - 1]).value, Split(last.0), last.1, r, n);
    }
  }

  ghost predicate PairwiseUnrelated(items: seq<(string, Json)>) {
    forall i, j | 0 <= i < |items| && 0 <= j < |items| && i != j :: Unrelated(Split(items[i].0), Split(items[j].0))
  }

  ghost predicate BlockedItem(o: Object, items: seq<(string, Json)>, i: nat) {
    i < |items| && exists n :: 0 < n < |Split(items[i].0)| && Blocks(o, Split(items[i].0)[..n])
  }

  lemma LastMergeBlocked(o: Object, items: seq<(string, Json)>)
    requires items != [] && PairwiseUnrelated(items) && MergeAll(o, items[..|items| - 1]).Some?
    ensures MergeAll(o, items).None? <==> BlockedItem(o, items, |items| - 1)
  {
    var last, before := items[|items| - 1], items[..|items| - 1];
    var merged, r := MergeAll(o, before).value, Split(last.0);
    MergeFailsExactlyWhen(merged, r, last.1);
    forall n | 0 < n < |r| ensures Blocks(merged, r[..n]) <==> Blocks(o, r[..n]) {
      MergesMoveNoBlock(o, before, r, n);
    }
    assert forall n | 0 < n < |r| :: Blocks(merged, r[..n]) <==> (Lookup(merged, r[..n]).Some? && !Lookup(merged, r[..n]).value.Obj?);
  }

  lemma {:induction false} MergesFailExactlyWhen(o: Object, items: seq<(string, Json)>)
    requires PairwiseUnrelated(items)
    ensures MergeAll(o, items).None? <==> exists i: nat :: BlockedItem(o, items, i)
  {
    if items != [] {
      var before := items[..|items| - 1];
      MergesFailExactlyWhen(o, before);
      forall i: nat | i < |before| ensures BlockedItem(o, before, i) <==> BlockedItem(o, items, i) {
        assert before[i] == items[i];
      }
      if MergeAll(o, before).Some? {
        LastMergeBlocked(o, items);
      }
    }
  }

  /** With unrelated paths the stored row decides: a patch fails exactly when one of its paths is blocked in it. */
  lemma UnrelatedPatchFailsExactlyWhen(jobs: Jobs, k: JobKey, p: Patch, now: int)
    requires k in jobs && PairwiseUnrelated(p.mergeNested)
    ensures Apply(jobs, ApplyPatch(k, p), now).1 == Failed
            <==> !StatusOk(p) || exists i: nat :: BlockedItem(Merged(jobs[k], p), p.mergeNested, i)
  {
    MergesFailExactlyWhen(Merged(jobs[k], p), p.mergeNested);
  }

  /** A number is added to as it is, booleans counting as 0 and 1; anything else counts as zero. */
  lemma IncrementSays(o: Object, f: string, delta: int)
    ensures var after := Get(IncrementAll(o, [(f, delta)]), f);
            match Get(o, f)
            case Int(n) => after == Int(n + delta)
            case Bool(b) => after == Int((if b then 1 else 0) + delta)
            case Float(r) => after == Float(r + delta as real)
            case _ => after == Int(delta)
  {
    assert [(f, delta)][..0] == [];
    assert IncrementAll(o, []) == o;
  }
}
