/**
 Whole runs of the ledger: any number of workers and the garbage collector, their calls in any order,
 with any delay between a claim and the completion or abandonment that follows it (if one ever does).
 A completer or abandoner may present any token at all.
 */
module LedgerRuns {
  import opened JsonValues
  import opened RunLedger

  datatype Event =
    | ClaimRun(key: Key, hash: string, lease: int, now: int, token: string)
    | CompleteRun(key: Key, outcome: Terminal, response: Json, now: int, token: string)
    | AbandonRun(key: Key, now: int, token: string)
    | GcRuns(now: int, ttl: int)

  function Step(l: Ledger, e: Event): Ledger {
    match e
    case ClaimRun(k, hash, lease, now, token) => Claim(l, k, hash, lease, now, token).0
    case CompleteRun(k, outcome, response, now, token) => Complete(l, k, outcome, response, now, token)
    case AbandonRun(k, _, token) => Abandon(l, k, token)
    case GcRuns(now, ttl) => Gc(l, now, ttl)
  }

  /** The ledger after the first `n` events, starting from an empty table. */
  function After(es: seq<Event>, n: nat): Ledger
    requires n <= |es|
  {
    if n == 0 then map[] else Step(After(es, n - 1), es[n - 1])
  }

  /** Every claim mints its own token (uuid4). */
  ghost predicate FreshTokens(es: seq<Event>) {
    forall i, j | 0 <= i < j < |es| && es[i].ClaimRun? && es[j].ClaimRun? :: es[i].token != es[j].token
  }

  ghost predicate ClockAdvances(es: seq<Event>) {
    forall i, j | 0 <= i <= j < |es| :: es[i].now <= es[j].now
  }

  function Outcome(es: seq<Event>, i: nat): ClaimResult
    requires i < |es| && es[i].ClaimRun?
  {
    var ClaimRun(k, hash, lease, now, token) := es[i];
    Claim(After(es, i), k, hash, lease, now, token).1
  }

  // ---- the four kinds of event that change the row of a key ----

  predicate ClaimedAt(es: seq<Event>, i: nat, k: Key) {
    i < |es| && es[i].ClaimRun? && es[i].key == k && Outcome(es, i).Claimed?
  }

  predicate FinishedAt(es: seq<Event>, i: nat, k: Key) {
    i < |es| && es[i].CompleteRun? && es[i].key == k && Owns(After(es, i), k, es[i].token)
  }

  predicate AbandonedAt(es: seq<Event>, i: nat, k: Key) {
    i < |es| && es[i].AbandonRun? && es[i].key == k && Owns(After(es, i), k, es[i].token)
  }

  predicate CollectedAt(es: seq<Event>, i: nat, k: Key) {
    i < |es| && es[i].GcRuns? && k in After(es, i) && Lapsed(After(es, i)[k], es[i].now, es[i].ttl)
  }

  predicate Touched(es: seq<Event>, i: nat, k: Key) {
    ClaimedAt(es, i, k) || FinishedAt(es, i, k) || AbandonedAt(es, i, k) || CollectedAt(es, i, k)
  }

  predicate SameAt(l: Ledger, l': Ledger, k: Key) {
    (k in l <==> k in l') && (k in l ==> l[k] == l'[k])
  }

  /** The row of `k` exists after each of the first `i`, ..., `j` events. */
  ghost predicate Present(es: seq<Event>, i: nat, j: nat, k: Key) {
    j <= |es| && forall m | i <= m <= j :: k in After(es, m)
  }

  /** The claim at `c` is the last thing that happened to the row of `k`, and holds it. */
  ghost predicate OwnerSince(es: seq<Event>, c: nat, n: nat, k: Key) {
    && c < n <= |es|
    && ClaimedAt(es, c, k)
    && k in After(es, n)
    && After(es, n)[k] == InFlight(es[c].hash, es[c].token, LeaseEnd(es[c].now, es[c].lease))
    && (forall m | c < m < n :: !Touched(es, m, k))
  }

  /** The completion at `i` is the last thing that happened to the row of `k`. */
  ghost predicate FinishedSince(es: seq<Event>, i: nat, n: nat, k: Key) {
    && i < n <= |es|
    && FinishedAt(es, i, k)
    && k in After(es, n)
    && After(es, n)[k] == Done(After(es, i)[k].hash, es[i].outcome, es[i].response, es[i].now)
    && (forall m | i < m < n :: !Touched(es, m, k))
  }

  lemma UntouchedRowStays(es: seq<Event>, n: nat, k: Key)
    requires n < |es| && !Touched(es, n, k)
    ensures SameAt(After(es, n), After(es, n + 1), k)
  {
  }

  /** A row is changed only by a call that names its key, or by a collection that was due. */
  lemma OtherKeysUntouched(es: seq<Event>, n: nat, k: Key)
    requires n < |es|
    requires if es[n].GcRuns? then !(k in After(es, n) && Lapsed(After(es, n)[k], es[n].now, es[n].ttl))
             else es[n].key != k
    ensures SameAt(After(es, n), After(es, n + 1), k)
  {
    UntouchedRowStays(es, n, k);
  }

  lemma {:induction false} EveryRowHasAnAuthor(es: seq<Event>, n: nat, k: Key)
    requires n <= |es| && k in After(es, n)
    ensures After(es, n)[k].InFlight? ==> exists c: nat :: OwnerSince(es, c, n, k)
    ensures After(es, n)[k].Done? ==> exists i: nat :: FinishedSince(es, i, n, k)
  {
    var p := n - 1;
    if ClaimedAt(es, p, k) {
      assert OwnerSince(es, p, n, k);
    } else if FinishedAt(es, p, k) {
      assert FinishedSince(es, p, n, k);
    } else {
      UntouchedRowStays(es, p, k);
      EveryRowHasAnAuthor(es, p, k);
      if After(es, n)[k].InFlight? {
        var c: nat :| OwnerSince(es, c, p, k);
        assert OwnerSince(es, c, n, k);
      } else {
        var i: nat :| FinishedSince(es, i, p, k);
        assert FinishedSince(es, i, n, k);
      }
    }
  }

  lemma {:induction false} TerminalRowStays(es: seq<Event>, i: nat, j: nat, k: Key)
    requires i <= j && Present(es, i, j, k) && After(es, i)[k].Done?
    ensures After(es, j)[k] == After(es, i)[k]
    decreases j
  {
    if i < j {
      TerminalRowStays(es, i, j - 1, k);
      assert k in After(es, j);
    }
  }

  // ---- fenced completion ----

  /** Between an insertion and a deletion of the row, at most one completion takes effect. */
  lemma AtMostOneCompletion(es: seq<Event>, k: Key, i: nat, j: nat)
    requires i < j && FinishedAt(es, i, k) && FinishedAt(es, j, k)
    ensures exists m :: i < m <= j && k !in After(es, m)
  {
    if forall m | i + 1 <= m <= j :: k in After(es, m) {
      TerminalRowStays(es, i + 1, j, k);
      assert false;
    }
  }

  /** A claim succeeds exactly when there is no row, or its owner asked for the same body and its lease is over. */
  lemma ClaimSucceedsExactlyWhen(es: seq<Event>, k: Key, j: nat)
    requires j < |es| && es[j].ClaimRun? && es[j].key == k
    ensures ClaimedAt(es, j, k) <==>
            || k !in After(es, j)
            || exists c: nat :: && OwnerSince(es, c, j, k) && es[c].hash == es[j].hash
                                && es[c].now + es[c].lease <= es[j].now && es[c].now + 30_000_000 <= es[j].now
    ensures if ClaimedAt(es, j, k) then OwnerSince(es, j, j + 1, k) else After(es, j + 1) == After(es, j)
  {
    if k in After(es, j) {
      EveryRowHasAnAuthor(es, j, k);
    }
  }

  /** A completion or abandonment takes effect only under the token of the latest claim. */
  lemma EffectNeedsLatestClaim(es: seq<Event>, k: Key, i: nat)
    requires FinishedAt(es, i, k) || AbandonedAt(es, i, k)
    ensures exists c: nat :: OwnerSince(es, c, i, k) && es[c].token == es[i].token
  {
    EveryRowHasAnAuthor(es, i, k);
  }

  /** Once a key has been claimed again, the earlier claimer's token changes nothing at all. */
  lemma StaleTokenIsInert(es: seq<Event>, k: Key, old_: nat, newer: nat, i: nat)
    requires FreshTokens(es)
    requires old_ < newer < i < |es| && ClaimedAt(es, old_, k) && ClaimedAt(es, newer, k)
    requires (es[i].CompleteRun? || es[i].AbandonRun?) && es[i].key == k && es[i].token == es[old_].token
    ensures After(es, i + 1) == After(es, i)
  {
    if Owns(After(es, i), k, es[i].token) {
      EveryRowHasAnAuthor(es, i, k);
      var c: nat :| OwnerSince(es, c, i, k);
      assert c == old_;
      assert Touched(es, newer, k);
    }
  }

  /** The request hash of a row never changes while the row exists. */
  lemma {:induction false} HashNeverChanges(es: seq<Event>, k: Key, i: nat, j: nat)
    requires i <= j && Present(es, i, j, k)
    ensures After(es, i)[k].hash == After(es, j)[k].hash
    decreases j
  {
    if i < j {
      HashNeverChanges(es, k, i, j - 1);
      assert k in After(es, j);
      if !Touched(es, j - 1, k) {
        UntouchedRowStays(es, j - 1, k);
      }
    }
  }

  // ---- replay ----

  ghost predicate CompletedBy(es: seq<Event>, k: Key, i: nat, j: nat, hash: string, response: Json) {
    && i < j
    && FinishedAt(es, i, k)
    && Present(es, i + 1, j, k)
    && After(es, i)[k].hash == hash
    && es[i].response == response
  }

  /**
   A claim replays a response exactly when a completion stored that response for the same request
   body and the row has not been deleted since.
   */
  lemma ReplayIsTheCompletersResponse(es: seq<Event>, k: Key, j: nat, response: Json)
    requires j < |es| && es[j].ClaimRun? && es[j].key == k
    ensures Outcome(es, j) == Replay(response) <==> exists i: nat :: CompletedBy(es, k, i, j, es[j].hash, response)
  {
    if Outcome(es, j) == Replay(response) {
      EveryRowHasAnAuthor(es, j, k);
      var i: nat :| FinishedSince(es, i, j, k);
      UntouchedRowPresent(es, k, i + 1, j);
      assert CompletedBy(es, k, i, j, es[j].hash, response);
    }
    if i: nat :| CompletedBy(es, k, i, j, es[j].hash, response) {
      assert After(es, i + 1)[k].Done?;
      TerminalRowStays(es, i + 1, j, k);
    }
  }

  lemma {:induction false} UntouchedRowPresent(es: seq<Event>, k: Key, i: nat, j: nat)
    requires i <= j <= |es| && k in After(es, j)
    requires forall m | i <= m < j :: !Touched(es, m, k)
    ensures Present(es, i, j, k)
    decreases j
  {
    if i < j {
      UntouchedRowStays(es, j - 1, k);
      UntouchedRowPresent(es, k, i, j - 1);
    }
  }

  /** A different body conflicts, whatever the row's status or age, and leaves the table as it was. */
  lemma DifferentBodyConflicts(es: seq<Event>, k: Key, c: nat, j: nat)
    requires c < j < |es| && es[j].ClaimRun? && es[j].key == k
    requires ClaimedAt(es, c, k) && Present(es, c + 1, j, k) && es[j].hash != es[c].hash
    ensures Outcome(es, j).Conflict? && After(es, j + 1) == After(es, j)
  {
    assert After(es, c + 1)[k].hash == es[c].hash;
    HashNeverChanges(es, k, c + 1, j);
  }

  // ---- lease exclusion ----

  ghost predicate ReleasedAt(es: seq<Event>, i: nat, m: nat, k: Key) {
    m < |es| && i < |es| && es[i].ClaimRun? && (FinishedAt(es, m, k) || AbandonedAt(es, m, k)) && es[m].token == es[i].token
  }

  /** Until it is released, the claim at `i` is either still the owner or was outlived by its lease. */
  lemma {:induction false} LeaseHolds(es: seq<Event>, k: Key, i: nat, n: nat)
    requires ClaimedAt(es, i, k) && i < n <= |es|
    ensures || OwnerSince(es, i, n, k)
            || (exists m :: i < m < n && ReleasedAt(es, i, m, k))
            || (exists c :: i < c < n && ClaimedAt(es, c, k) && es[c].now >= LeaseEnd(es[i].now, es[i].lease))
    decreases n
  {
    if i + 1 < n {
      var p := n - 1;
      LeaseHolds(es, k, i, p);
      if OwnerSince(es, i, p, k) {
        if FinishedAt(es, p, k) || AbandonedAt(es, p, k) {
          assert ReleasedAt(es, i, p, k);
        } else if ClaimedAt(es, p, k) {
        } else {
          UntouchedRowStays(es, p, k);
          assert OwnerSince(es, i, n, k);
        }
      }
    } else {
      assert OwnerSince(es, i, n, k);
    }
  }

  /** No second claim of a key before its lease, 30 s at least, has run out, unless the first claim was released. */
  lemma LeaseExclusion(es: seq<Event>, k: Key, i: nat, j: nat)
    requires ClockAdvances(es) && i < j && ClaimedAt(es, i, k) && ClaimedAt(es, j, k)
    ensures || (exists m :: i < m < j && ReleasedAt(es, i, m, k))
            || (es[j].now >= es[i].now + es[i].lease && es[j].now >= es[i].now + 30_000_000)
  {
    LeaseHolds(es, k, i, j);
  }

  // ---- replay window ----

  /** A stored outcome stays claimable as a replay for the whole time to live. */
  lemma ReplayWindow(es: seq<Event>, k: Key, i: nat, j: nat, ttl: int)
    requires ClockAdvances(es) && FinishedAt(es, i, k) && i < j < |es|
    requires forall m | i < m < j && es[m].GcRuns? :: es[m].ttl >= ttl
    requires es[j].now <= es[i].now + ttl
    ensures FinishedSince(es, i, j, k)
    ensures es[j].ClaimRun? && es[j].key == k && es[j].hash == After(es, i)[k].hash
            ==> Outcome(es, j) == Replay(es[i].response)
  {
    StoredUntilDue(es, k, i, j, ttl);
  }

  lemma {:induction false} StoredUntilDue(es: seq<Event>, k: Key, i: nat, n: nat, ttl: int)
    requires FinishedAt(es, i, k) && i < n <= |es|
    requires forall m | i < m < n && es[m].GcRuns? :: es[m].now - es[m].ttl <= es[i].now
    ensures FinishedSince(es, i, n, k)
    decreases n
  {
    if i + 1 < n {
      StoredUntilDue(es, k, i, n - 1, ttl);
      assert !Touched(es, n - 1, k);
    }
  }

  /** The collector removes a stored outcome exactly when its time to live has run out. */
  lemma CollectedWhenDue(es: seq<Event>, k: Key, i: nat, n: nat)
    requires FinishedSince(es, i, n, k) && n < |es| && es[n].GcRuns?
    ensures k !in After(es, n + 1) <==> es[n].now > es[i].now + es[n].ttl
  {
  }

  /** The collector never removes a run in flight, however old. */
  lemma CollectorKeepsInFlight(es: seq<Event>, k: Key, n: nat)
    requires n < |es| && es[n].GcRuns? && k in After(es, n) && After(es, n)[k].InFlight?
    ensures SameAt(After(es, n), After(es, n + 1), k)
  {
  }
}
