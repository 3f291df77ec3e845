/** The bounded, insertion-ordered table of webhook deliveries already seen. */
module DeliveryDedup {
  import opened Wrappers

  datatype Entry = Entry(id: string, expiresAt: real)

  /** An insertion-ordered dictionary, oldest first. */
  type Table = seq<Entry>

  function IndexOf(t: Table, id: string): (i: nat)
    ensures i <= |t| && (i < |t| ==> t[i].id == id)
    ensures forall j | 0 <= j < i :: t[j].id != id
  {
    if t == [] || t[0].id == id then 0
    else
      var i := IndexOf(t[1..], id);
      assert forall j | 1 <= j < i + 1 :: t[j] == t[1..][j - 1];
      i + 1
  }

  function Find(t: Table, id: string): Option<real> {
    var i := IndexOf(t, id);
    if i < |t| then Some(t[i].expiresAt) else None
  }

  function Remove(t: Table, id: string): Table {
    var i := IndexOf(t, id);
    if i < |t| then t[..i] + t[i + 1..] else t
  }

  predicate Seen(t: Table, id: string, now: real) {
    Find(t, id).Some? && Find(t, id).value >= now
  }

  /** (Re)record a delivery; past the cap, drop the oldest half of the cap. */
  function Record(t: Table, id: string, now: real, ttl: real, max: nat): Table {
    var t' := Remove(t, id) + [Entry(id, now + ttl)];
    if |t'| > max then t'[max / 2..] else t'
  }

  ghost predicate DistinctIds(t: Table) {
    forall i, j | 0 <= i < j < |t| :: t[i].id != t[j].id
  }

  /** Insertion order is expiry order. */
  ghost predicate ExpirySorted(t: Table) {
    forall i, j | 0 <= i < j < |t| :: t[i].expiresAt <= t[j].expiresAt
  }

  class Deliveries {
    const ttl: real
    const maxEntries: nat
    var seen: Table

    constructor (ttl: real, maxEntries: nat)
      ensures this.ttl == ttl && this.maxEntries == maxEntries && seen == []
    {
      this.ttl, this.maxEntries, seen := ttl, maxEntries, [];
    }

    method IsDuplicateDelivery(id: string, now: real) returns (duplicate: bool)
      modifies this
      ensures duplicate == (id != "" && Seen(old(seen), id, now))
      ensures seen == if id == "" || duplicate then old(seen) else Record(old(seen), id, now, ttl, maxEntries)
    {
      if id == "" {
        return false;
      }
      var expiresAt := Find(seen, id);
      if expiresAt.Some? && expiresAt.value >= now {
        return true;
      }
      seen := Remove(seen, id);
      seen := seen + [Entry(id, now + ttl)];
      if |seen| > maxEntries {
        EvictOldest(maxEntries / 2);
      }
      return false;
    }

    method EvictOldest(count: nat)
      requires count <= |seen|
      modifies this
      ensures seen == old(seen)[count..]
    {
      var oldest := seen[..count];
      for i := 0 to count
        invariant seen == old(seen)[i..]
      {
        assert IndexOf(seen, oldest[i].id) == 0;
        seen := Remove(seen, oldest[i].id);
      }
    }

    method ForgetDelivery(id: string)
      modifies this
      ensures seen == if id == "" then old(seen) else Remove(old(seen), id)
    {
      if id == "" {
        return;
      }
      seen := Remove(seen, id);
    }
  }

  // ---- whole runs ----

  datatype Event =
    | Arrive(id: string, now: real)
    | Forget(id: string)

  datatype Limits = Limits(ttl: real, max: nat)

  function Step(t: Table, e: Event, l: Limits): Table {
    match e
    case Arrive(id, now) => if id == "" || Seen(t, id, now) then t else Record(t, id, now, l.ttl, l.max)
    case Forget(id) => if id == "" then t else Remove(t, id)
  }

  function After(h: seq<Event>, n: nat, l: Limits): Table
    requires n <= |h|
  {
    if n == 0 then [] else Step(After(h, n - 1, l), h[n - 1], l)
  }

  predicate Duplicate(h: seq<Event>, i: nat, l: Limits) {
    i < |h| && h[i].Arrive? && h[i].id != "" && Seen(After(h, i, l), h[i].id, h[i].now)
  }

  predicate RecordedAt(h: seq<Event>, i: nat, id: string, l: Limits) {
    i < |h| && h[i].Arrive? && h[i].id == id && id != "" && !Seen(After(h, i, l), id, h[i].now)
  }

  /** Recordings among the events `i`, ..., `n - 1`. */
  function Recordings(h: seq<Event>, i: nat, n: nat, l: Limits): nat
    requires i <= n <= |h|
    decreases n
  {
    if n == i then 0
    else Recordings(h, i, n - 1, l)
         + if h[n - 1].Arrive? && RecordedAt(h, n - 1, h[n - 1].id, l) then 1 else 0
  }

  ghost predicate ClockAdvances(h: seq<Event>) {
    forall i, j | 0 <= i <= j < |h| && h[i].Arrive? && h[j].Arrive? :: h[i].now <= h[j].now
  }

  /** At most `max` entries, one per delivery, insertion order is expiry order, nothing expires after `latest`. */
  ghost predicate Tidy(t: Table, max: nat, latest: real) {
    |t| <= max && DistinctIds(t) && ExpirySorted(t) && forall i | 0 <= i < |t| :: t[i].expiresAt <= latest
  }

  lemma RemoveTidy(t: Table, id: string, max: nat, latest: real)
    requires Tidy(t, max, latest)
    ensures Tidy(Remove(t, id), max, latest)
    ensures forall i | 0 <= i < |Remove(t, id)| :: Remove(t, id)[i].id != id
  {
    var r, i := Remove(t, id), IndexOf(t, id);
    forall j | 0 <= j < |r| ensures r[j] == t[if j < i then j else j + 1] {}
  }

  lemma RecordTidy(t: Table, id: string, now: real, l: Limits)
    requires l.max >= 2 && Tidy(t, l.max, now + l.ttl)
    ensures Tidy(Record(t, id, now, l.ttl, l.max), l.max, now + l.ttl)
  {
    RemoveTidy(t, id, l.max, now + l.ttl);
    hide Remove;
    var full := Remove(t, id) + [Entry(id, now + l.ttl)];
    assert Tidy(full, l.max + 1, now + l.ttl);
  }

  /** Every run leaves the table tidy. */
  lemma {:induction false} TableBoundedAndOrdered(h: seq<Event>, n: nat, l: Limits, upTo: real)
    requires n <= |h| && l.max >= 2 && ClockAdvances(h)
    requires forall i | 0 <= i < n && h[i].Arrive? :: h[i].now <= upTo
    ensures Tidy(After(h, n, l), l.max, upTo + l.ttl)
    decreases n
  {
    if n > 0 {
      var t, e := After(h, n - 1, l), h[n - 1];
      var latest := if e.Arrive? then e.now else upTo;
      TableBoundedAndOrdered(h, n - 1, l, latest);
      RemoveTidy(t, e.id, l.max, latest + l.ttl);
      if e.Arrive? {
        RecordTidy(t, e.id, e.now, l);
      }
      hide Record, Remove, Seen;
      assert Tidy(After(h, n, l), l.max, latest + l.ttl);
    }
  }

  lemma RunIsTidy(h: seq<Event>, n: nat, l: Limits)
    requires n <= |h| && l.max >= 2 && ClockAdvances(h)
    ensures |After(h, n, l)| <= l.max && DistinctIds(After(h, n, l))
  {
    TableBoundedAndOrdered(h, n, l, LatestTime(h, n));
  }

  function LatestTime(h: seq<Event>, n: nat): (t: real)
    requires n <= |h|
    ensures forall i | 0 <= i < n && h[i].Arrive? :: h[i].now <= t
  {
    if n == 0 then 0.0
    else
      var t := LatestTime(h, n - 1);
      if h[n - 1].Arrive? && h[n - 1].now > t then h[n - 1].now else t
  }

  // ---- what a `True` answer means ----

  /** `id` was recorded at `i`, and neither recorded again nor forgotten since. */
  ghost predicate RecordedSince(h: seq<Event>, i: nat, n: nat, id: string, l: Limits) {
    && i < n <= |h| && RecordedAt(h, i, id, l)
    && (forall m: nat | i < m < n :: h[m] != Forget(id) && !RecordedAt(h, m, id, l))
  }

  lemma RecordFinds(t: Table, id: string, now: real, l: Limits, latest: real)
    requires l.max >= 2 && Tidy(t, l.max, latest)
    ensures Find(Record(t, id, now, l.ttl, l.max), id) == Some(now + l.ttl)
  {
    RemoveTidy(t, id, l.max, latest);
    hide Remove;
    var t' := Record(t, id, now, l.ttl, l.max);
    assert t'[|t'| - 1] == Entry(id, now + l.ttl);
    assert forall i | 0 <= i < |t'| - 1 :: t'[i].id != id;
  }

  lemma StepAddsOnlyTheArrival(t: Table, e: Event, l: Limits, i: nat)
    requires |t| <= l.max && i < |Step(t, e, l)| && !(e.Arrive? && Step(t, e, l)[i].id == e.id && e.id != "" && !Seen(t, e.id, e.now))
    ensures Step(t, e, l)[i] in t
  {
    var r := Remove(t, e.id);
    assert forall x | x in r :: x in t;
    hide Remove;
    if e.Arrive? && e.id != "" && !Seen(t, e.id, e.now) {
      var full := r + [Entry(e.id, e.now + l.ttl)];
      assert Step(t, e, l)[i] in full;
    }
  }

  /** An entry still there after a step that did not record it was there before, and was not forgotten. */
  lemma StepKeepsEntry(t: Table, e: Event, id: string, l: Limits)
    requires l.max >= 2 && |t| <= l.max && DistinctIds(t) && id != "" && Find(Step(t, e, l), id).Some?
    requires e.Arrive? && e.id == id ==> Seen(t, id, e.now)
    ensures e != Forget(id) && Find(t, id) == Find(Step(t, e, l), id)
  {
    var t' := Step(t, e, l);
    if t' != t {
      var i := IndexOf(t', id);
      StepAddsOnlyTheArrival(t, e, l, i);
      hide Step;
      var j :| 0 <= j < |t| && t[j] == t'[i];
      assert IndexOf(t, id) == j;
    }
  }

  lemma RecordingStep(h: seq<Event>, p: nat, id: string, l: Limits)
    requires RecordedAt(h, p, id, l)
    ensures After(h, p + 1, l) == Record(After(h, p, l), id, h[p].now, l.ttl, l.max)
  {
    hide Record, Seen;
  }

  lemma RecordedNow(h: seq<Event>, p: nat, id: string, l: Limits)
    requires l.max >= 2 && ClockAdvances(h) && RecordedAt(h, p, id, l)
    ensures RecordedSince(h, p, p + 1, id, l) && Find(After(h, p + 1, l), id) == Some(h[p].now + l.ttl)
  {
    var latest := LatestTime(h, p);
    hide After, Step, Record, Remove, Find, Seen, Tidy, ClockAdvances;
    TableBoundedAndOrdered(h, p, l, latest);
    RecordingStep(h, p, id, l);
    RecordFinds(After(h, p, l), id, h[p].now, l, latest + l.ttl);
  }

  lemma NotRecordedNow(h: seq<Event>, p: nat, id: string, l: Limits)
    requires l.max >= 2 && ClockAdvances(h) && p < |h| && id != "" && !RecordedAt(h, p, id, l)
    requires Find(After(h, p + 1, l), id).Some?
    ensures h[p] != Forget(id) && Find(After(h, p, l), id) == Find(After(h, p + 1, l), id)
  {
    RunIsTidy(h, p, l);
    StepKeepsEntry(After(h, p, l), h[p], id, l);
  }

  lemma SinceExtends(h: seq<Event>, i: nat, n: nat, id: string, l: Limits)
    requires n < |h| && RecordedSince(h, i, n, id, l) && h[n] != Forget(id) && !RecordedAt(h, n, id, l)
    ensures RecordedSince(h, i, n + 1, id, l)
  {
    hide RecordedAt;
  }

  lemma NothingBeforeTheFirst(h: seq<Event>, n: nat, id: string, l: Limits)
    requires n <= |h| && Find(After(h, n, l), id).Some?
    ensures n > 0
  {
  }

  /** Every entry in the table was put there by a recording that nothing has undone since. */
  lemma {:induction false} EntryHasARecording(h: seq<Event>, n: nat, id: string, l: Limits) returns (i: nat)
    requires n <= |h| && l.max >= 2 && ClockAdvances(h) && id != "" && Find(After(h, n, l), id).Some?
    ensures RecordedSince(h, i, n, id, l) && Find(After(h, n, l), id) == Some(h[i].now + l.ttl)
  {
    hide *;
    NothingBeforeTheFirst(h, n, id, l);
    if RecordedAt(h, n - 1, id, l) {
      RecordedNow(h, n - 1, id, l);
      i := n - 1;
    } else {
      NotRecordedNow(h, n - 1, id, l);
      i := EntryHasARecording(h, n - 1, id, l);
      SinceExtends(h, i, n - 1, id, l);
    }
  }

  /** A delivery is called a duplicate only if it was recorded within the time to live and not forgotten since. */
  lemma DuplicateWasRecorded(h: seq<Event>, j: nat, l: Limits) returns (i: nat)
    requires l.max >= 2 && ClockAdvances(h) && Duplicate(h, j, l)
    ensures RecordedSince(h, i, j, h[j].id, l) && h[j].now <= h[i].now + l.ttl
  {
    i := EntryHasARecording(h, j, h[j].id, l);
  }

  // ---- what the table guarantees to catch ----

  ghost predicate HeldBehind(t: Table, e: Entry, behind: nat) {
    exists p :: 0 <= p < |t| && t[p] == e && |t| - 1 - p <= behind
  }

  lemma RemoveKeepsHeld(t: Table, id: string, entry: Entry, behind: nat)
    requires HeldBehind(t, entry, behind) && entry.id != id
    ensures HeldBehind(Remove(t, id), entry, behind)
  {
    var p :| 0 <= p < |t| && t[p] == entry && |t| - 1 - p <= behind;
    var i, r := IndexOf(t, id), Remove(t, id);
    if i < p {
      assert r[p - 1] == entry;
    } else {
      assert r[p] == entry;
    }
  }

  lemma RecordKeepsHeld(t: Table, id: string, now: real, entry: Entry, behind: nat, l: Limits)
    requires |t| <= l.max && HeldBehind(t, entry, behind) && entry.id != id && behind + 1 <= l.max - l.max / 2
    ensures HeldBehind(Record(t, id, now, l.ttl, l.max), entry, behind + 1)
  {
    RemoveKeepsHeld(t, id, entry, behind);
    var r := Remove(t, id);
    assert |r| <= |t|;
    hide Remove;
    var p :| 0 <= p < |r| && r[p] == entry && |r| - 1 - p <= behind;
    var full := r + [Entry(id, now + l.ttl)];
    assert full[p] == entry;
    if |full| > l.max {
      assert full[l.max / 2..][p - l.max / 2] == entry;
    }
  }

  predicate Recording(t: Table, e: Event) {
    e.Arrive? && e.id != "" && !Seen(t, e.id, e.now)
  }

  lemma OthersKeepEntry(t: Table, e: Event, id: string, entry: Entry, behind: nat, l: Limits)
    requires |t| <= l.max && entry.id == id && HeldBehind(t, entry, behind)
    requires e != Forget(id) && (e.Arrive? && e.id == id ==> !Recording(t, e))
    requires behind + (if Recording(t, e) then 1 else 0) <= l.max - l.max / 2
    ensures HeldBehind(Step(t, e, l), entry, behind + if Recording(t, e) then 1 else 0)
  {
    if Recording(t, e) {
      RecordKeepsHeld(t, e.id, e.now, entry, behind, l);
    } else if e.Forget? && e.id != id {
      RemoveKeepsHeld(t, e.id, entry, behind);
    }
  }

  lemma RecordedIsHeld(h: seq<Event>, i: nat, id: string, l: Limits)
    requires l.max >= 2 && ClockAdvances(h) && RecordedAt(h, i, id, l)
    ensures HeldBehind(After(h, i + 1, l), Entry(id, h[i].now + l.ttl), Recordings(h, i + 1, i + 1, l))
  {
    RunIsTidy(h, i, l);
    var t := After(h, i + 1, l);
    assert t[|t| - 1] == Entry(id, h[i].now + l.ttl);
  }

  lemma RecordingsStep(h: seq<Event>, i: nat, n: nat, l: Limits)
    requires i < n <= |h|
    ensures Recordings(h, i, n, l)
            == Recordings(h, i, n - 1, l) + if Recording(After(h, n - 1, l), h[n - 1]) then 1 else 0
  {
    hide Seen, After;
  }

  lemma SurvivesOne(h: seq<Event>, n: nat, entry: Entry, behind: nat, l: Limits)
    requires l.max >= 2 && ClockAdvances(h) && n < |h| && HeldBehind(After(h, n, l), entry, behind)
    requires h[n] != Forget(entry.id) && (h[n].Arrive? ==> h[n].now <= entry.expiresAt)
    requires behind + (if Recording(After(h, n, l), h[n]) then 1 else 0) <= l.max - l.max / 2
    ensures HeldBehind(After(h, n + 1, l), entry, behind + if Recording(After(h, n, l), h[n]) then 1 else 0)
  {
    var t, e := After(h, n, l), h[n];
    assert After(h, n + 1, l) == Step(t, e, l);
    RunIsTidy(h, n, l);
    HeldIsSeen(t, entry, behind);
    assert e.Arrive? && e.id == entry.id ==> !Recording(t, e);
    hide *;
    OthersKeepEntry(t, e, entry.id, entry, behind, l);
  }

  /** Between `i` and `n` the delivery is not forgotten, and the clock stays within its time to live. */
  ghost predicate LeftAlone(h: seq<Event>, i: nat, n: nat, id: string, l: Limits) {
    i < n <= |h| && h[i].Arrive?
    && forall m | i < m < n :: h[m] != Forget(id) && (h[m].Arrive? ==> h[m].now <= h[i].now + l.ttl)
  }

  lemma LeftAloneBefore(h: seq<Event>, i: nat, n: nat, id: string, l: Limits)
    requires i + 1 < n <= |h| && LeftAlone(h, i, n, id, l)
    ensures LeftAlone(h, i, n - 1, id, l)
    ensures h[n - 1] != Forget(id) && (h[n - 1].Arrive? ==> h[n - 1].now <= h[i].now + l.ttl)
  {
  }

  /** The entry stays as long as few enough other deliveries are recorded after it. */
  lemma {:induction false} EntrySurvives(h: seq<Event>, i: nat, n: nat, id: string, l: Limits)
    requires i < n <= |h| && l.max >= 2 && ClockAdvances(h) && RecordedAt(h, i, id, l) && LeftAlone(h, i, n, id, l)
    requires Recordings(h, i + 1, n, l) <= l.max - l.max / 2
    ensures HeldBehind(After(h, n, l), Entry(id, h[i].now + l.ttl), Recordings(h, i + 1, n, l))
    decreases n
  {
    hide *;
    if n == i + 1 {
      RecordedIsHeld(h, i, id, l);
    } else {
      RecordingsStep(h, i + 1, n, l);
      LeftAloneBefore(h, i, n, id, l);
      EntrySurvives(h, i, n - 1, id, l);
      SurvivesOne(h, n - 1, Entry(id, h[i].now + l.ttl), Recordings(h, i + 1, n - 1, l), l);
    }
  }

  lemma HeldIsSeen(t: Table, e: Entry, behind: nat)
    requires DistinctIds(t) && HeldBehind(t, e, behind)
    ensures Find(t, e.id) == Some(e.expiresAt)
  {
  }

  /**
   A delivery that was recorded, not forgotten, and followed by at most `max - max / 2` recordings
   is still recognized within its time to live.
   */
  lemma RedeliveryIsRecognized(h: seq<Event>, i: nat, j: nat, l: Limits)
    requires l.max >= 2 && l.ttl >= 0.0 && ClockAdvances(h) && i < j < |h|
    requires h[j].Arrive? && RecordedAt(h, i, h[j].id, l) && h[j].now <= h[i].now + l.ttl
    requires forall m | i < m < j :: h[m] != Forget(h[j].id)
    requires Recordings(h, i + 1, j, l) <= l.max - l.max / 2
    ensures Duplicate(h, j, l)
  {
    EntrySurvives(h, i, j, h[j].id, l);
    RunIsTidy(h, j, l);
    HeldIsSeen(After(h, j, l), Entry(h[j].id, h[i].now + l.ttl), Recordings(h, i + 1, j, l));
  }

  /** A forgotten delivery is processed again when it is redelivered. */
  lemma ForgottenIsNotDuplicate(h: seq<Event>, i: nat, j: nat, l: Limits)
    requires l.max >= 2 && ClockAdvances(h) && i < j < |h| && h[j].Arrive? && h[i] == Forget(h[j].id)
    requires forall m: nat | i < m < j :: !RecordedAt(h, m, h[j].id, l)
    ensures !Duplicate(h, j, l)
  {
    if Duplicate(h, j, l) {
      var recorded := DuplicateWasRecorded(h, j, l);
    }
  }

  // ---- the bound is tight ----

  /** Different deliveries, told apart by their length. */
  function Name(n: nat): (id: string)
    ensures |id| == n
  {
    seq(n, i => 'x')
  }

  /** The history starts with deliveries 1, ..., `n`, all at the same time. */
  ghost predicate StartsWithBurst(h: seq<Event>, n: nat) {
    n <= |h| && forall i | 0 <= i < n :: h[i] == Arrive(Name(i + 1), 0.0)
  }

  function BurstTable(n: nat, ttl: real): (t: Table)
    ensures |t| == n && forall i | 0 <= i < n :: |t[i].id| == i + 1
  {
    seq(n, i requires 0 <= i < n => Entry(Name(i + 1), ttl))
  }

  lemma BurstStep(n: nat, l: Limits)
    ensures Name(n + 1) != "" && !Seen(BurstTable(n, l.ttl), Name(n + 1), 0.0)
    ensures Step(BurstTable(n, l.ttl), Arrive(Name(n + 1), 0.0), l)
            == if n + 1 > l.max then BurstTable(n + 1, l.ttl)[l.max / 2..] else BurstTable(n + 1, l.ttl)
  {
    var t := BurstTable(n, l.ttl);
    assert IndexOf(t, Name(n + 1)) == n;
    assert t + [Entry(Name(n + 1), 0.0 + l.ttl)] == BurstTable(n + 1, l.ttl);
  }

  lemma EmptyBurst(h: seq<Event>, l: Limits)
    ensures After(h, 0, l) == BurstTable(0, l.ttl)
  {
  }

  lemma {:induction false} BurstFills(h: seq<Event>, n: nat, l: Limits)
    requires StartsWithBurst(h, n) && n <= l.max
    ensures After(h, n, l) == BurstTable(n, l.ttl)
  {
    hide Step, Name, BurstTable;
    EmptyBurst(h, l);
    if n > 0 {
      BurstFills(h, n - 1, l);
      BurstStep(n - 1, l);
    }
  }

  lemma BurstRecordsOne(h: seq<Event>, n: nat, l: Limits)
    requires n < |h| && StartsWithBurst(h, n + 1) && n <= l.max
    ensures RecordedAt(h, n, Name(n + 1), l)
  {
    hide Seen, Name, BurstTable, After;
    BurstFills(h, n, l);
    BurstStep(n, l);
  }

  lemma {:induction false} BurstRecords(h: seq<Event>, i: nat, n: nat, l: Limits)
    requires i <= n && StartsWithBurst(h, n) && n <= l.max + 1
    ensures Recordings(h, i, n, l) == n - i
    decreases n
  {
    hide RecordedAt, Name;
    if i < n {
      BurstRecords(h, i, n - 1, l);
      BurstRecordsOne(h, n - 1, l);
    }
  }

  lemma BurstOverflows(h: seq<Event>, l: Limits)
    requires l.max >= 2 && StartsWithBurst(h, l.max + 1)
    ensures After(h, l.max + 1, l) == BurstTable(l.max + 1, l.ttl)[l.max / 2..]
  {
    hide Step, Name, BurstTable;
    BurstFills(h, l.max, l);
    BurstStep(l.max, l);
  }

  lemma DroppedEntryIsGone(l: Limits)
    requires l.max >= 2
    ensures !Seen(BurstTable(l.max + 1, l.ttl)[l.max / 2..], Name(l.max / 2), 0.0)
  {
    hide Name, BurstTable;
    var t := BurstTable(l.max + 1, l.ttl)[l.max / 2..];
    assert forall i | 0 <= i < |t| :: |t[i].id| == l.max / 2 + i + 1;
    assert IndexOf(t, Name(l.max / 2)) == |t|;
  }

  /**
   One recording more than the guarantee allows can lose the entry, for every cap: a delivery recorded, not forgotten,
   redelivered at once, and followed by `max - max / 2 + 1` recordings, is processed again.
   */
  lemma OneMoreRecordingCanLoseTheEntry(h: seq<Event>, l: Limits)
    requires l.max >= 2 && |h| == l.max + 2 && StartsWithBurst(h, l.max + 1)
    requires h[l.max + 1] == Arrive(Name(l.max / 2), 0.0)
    ensures var id, i, j := Name(l.max / 2), l.max / 2 - 1, l.max + 1;
            && ClockAdvances(h) && RecordedAt(h, i, id, l) && (forall m | i < m < j :: h[m] != Forget(id))
            && Recordings(h, i + 1, j, l) == l.max - l.max / 2 + 1
            && h[j] == Arrive(id, 0.0) && !Duplicate(h, j, l)
  {
    hide RecordedAt, Recordings, Seen, Name, BurstTable;
    BurstRecords(h, l.max / 2, l.max + 1, l);
    BurstRecordsOne(h, l.max / 2 - 1, l);
    BurstOverflows(h, l);
    DroppedEntryIsGone(l);
  }

  /** And such a history exists for every cap. */
  lemma TightHistory(l: Limits) returns (h: seq<Event>)
    requires l.max >= 2
    ensures |h| == l.max + 2 && StartsWithBurst(h, l.max + 1) && h[l.max + 1] == Arrive(Name(l.max / 2), 0.0)
  {
    h := seq(l.max + 1, i requires 0 <= i <= l.max => Arrive(Name(i + 1), 0.0)) + [Arrive(Name(l.max / 2), 0.0)];
  }
}
