/** The in-memory ledger used by the test suites, and its relation to the real one. */
module SimpleLedger {
  import opened Wrappers
  import opened JsonValues
  import opened RunLedger
  import opened RunStore
  import opened Numerals

  datatype FakeRow = FakeRow(status: string, hash: string, token: string, response: Option<Json>, leaseValid: bool)

  type FakeRows = map<Key, FakeRow>

  datatype FakeError = MissingKey | StaleToken

  function FakeToken(call: nat): string {
    "tok-" + Decimal(call)
  }

  lemma FakeTokensDistinct(m: nat, n: nat)
    requires m != n
    ensures FakeToken(m) != FakeToken(n)
  {
    if FakeToken(m) == FakeToken(n) {
      assert Decimal(m) == FakeToken(m)[4..] == FakeToken(n)[4..] == Decimal(n);
      DecimalInjective(m, n);
    }
  }

  function FakeClaim(rows: FakeRows, k: Key, hash: string, call: nat): (FakeRows, ClaimResult) {
    if k !in rows then
      (rows[k := FakeRow(IN_PROGRESS, hash, FakeToken(call), None, true)], Claimed(FakeToken(call)))
    else if rows[k].hash != hash then
      (rows, Conflict)
    else if IsTerminal(rows[k].status) then
      (rows, Replay(if rows[k].response.Some? then rows[k].response.value else Null))
    else if rows[k].leaseValid then
      (rows, Conflict)
    else
      (rows[k := rows[k].(leaseValid := true, token := FakeToken(call))], Claimed(FakeToken(call)))
  }

  function FakeComplete(rows: FakeRows, k: Key, status: string, response: Json, token: string)
    : Result<FakeRows, FakeError>
  {
    if k !in rows then Err(MissingKey)
    else if rows[k].token != token then Err(StaleToken)
    else Ok(rows[k := rows[k].(status := status, response := Some(response))])
  }

  predicate FakeOwns(rows: FakeRows, k: Key, token: string) {
    k in rows && rows[k].status == IN_PROGRESS && rows[k].token == token
  }

  class FakeRunLedger {
    var rows: FakeRows
    var claimCalls: nat

    constructor ()
      ensures rows == map[] && claimCalls == 0
    {
      rows, claimCalls := map[], 0;
    }

    method ClaimRun(k: Key, requestHash: string) returns (r: ClaimResult)
      modifies this
      ensures claimCalls == old(claimCalls) + 1
      ensures (rows, r) == FakeClaim(old(rows), k, requestHash, claimCalls)
    {
      claimCalls := claimCalls + 1;
      if k !in rows {
        var token := FakeToken(claimCalls);
        rows := rows[k := FakeRow(IN_PROGRESS, requestHash, token, None, true)];
        return Claimed(token);
      }
      var row := rows[k];
      if row.hash != requestHash {
        return Conflict;
      }
      if IsTerminal(row.status) {
        return Replay(if row.response.Some? then row.response.value else Null);
      }
      if row.leaseValid {
        return Conflict;
      }
      rows := rows[k := row.(leaseValid := true, token := FakeToken(claimCalls))];
      return Claimed(rows[k].token);
    }

    method CompleteRun(k: Key, status: string, response: Json, claimToken: string)
      returns (r: Option<FakeError>)
      modifies this`rows
      ensures match FakeComplete(old(rows), k, status, response, claimToken)
              case Ok(after) => r == None && rows == after
              case Err(e) => r == Some(e) && rows == old(rows)
    {
      if k !in rows {
        return Some(MissingKey);
      }
      if rows[k].token != claimToken {
        return Some(StaleToken);
      }
      rows := rows[k := rows[k].(status := status)];
      rows := rows[k := rows[k].(response := Some(response))];
      return None;
    }

    method AbandonRun(k: Key, claimToken: string) returns (r: bool)
      modifies this`rows
      ensures r == FakeOwns(old(rows), k, claimToken)
      ensures rows == if r then old(rows) - {k} else old(rows)
    {
      if k !in rows || rows[k].status != IN_PROGRESS || rows[k].token != claimToken {
        return false;
      }
      rows := rows - {k};
      return true;
    }
  }

  // ---- the two ledgers side by side ----

  /** Callers name a token by the number of the claim call that returned it. */
  datatype Call =
    | DoClaim(key: Key, hash: string, lease: int)
    | DoComplete(key: Key, outcome: Terminal, response: Json, claimNo: nat)
    | DoAbandon(key: Key, claimNo: nat)
    | Tick(now: int)    // the clock moves; a test flips lease_valid where the lease has expired

  datatype Both = Both(real_: Ledger, fake: FakeRows, calls: nat, now: int)

  type Mint = nat -> string

  ghost predicate Injective(mint: Mint) {
    forall m: nat, n: nat | mint(m) == mint(n) :: m == n
  }

  ghost predicate TokensMatch(mint: Mint, calls: nat, token: string, fakeToken: string) {
    exists n: nat :: n <= calls && token == mint(n) && fakeToken == FakeToken(n)
  }

  ghost predicate RowsAgree(mint: Mint, calls: nat, now: int, run: Run, row: FakeRow) {
    match run
    case InFlight(hash, token, leaseEnd) =>
      && row.status == IN_PROGRESS && row.hash == hash && row.response == None
      && TokensMatch(mint, calls, token, row.token)
      && (row.leaseValid <==> leaseEnd > now)
    case Done(hash, outcome, response, _) =>
      row.status == StatusOf(outcome) && row.hash == hash && row.response == Some(response)
  }

  ghost predicate Agree(mint: Mint, b: Both) {
    && b.real_.Keys == b.fake.Keys
    && forall k | k in b.real_ :: RowsAgree(mint, b.calls, b.now, b.real_[k], b.fake[k])
  }

  function FlipExpired(l: Ledger, rows: FakeRows, now: int): FakeRows {
    map k | k in rows ::
      if k in l && l[k].InFlight? then rows[k].(leaseValid := l[k].leaseEnd > now) else rows[k]
  }

  function StepBoth(mint: Mint, b: Both, c: Call): Both {
    match c
    case DoClaim(k, hash, lease) =>
      var n := b.calls + 1;
      b.(real_ := Claim(b.real_, k, hash, lease, b.now, mint(n)).0, fake := FakeClaim(b.fake, k, hash, n).0, calls := n)
    case DoComplete(k, outcome, response, n) =>
      var done := FakeComplete(b.fake, k, StatusOf(outcome), response, FakeToken(n));
      b.(real_ := Complete(b.real_, k, outcome, response, b.now, mint(n)),
         fake := if done.Ok? then done.value else b.fake)
    case DoAbandon(k, n) =>
      b.(real_ := Abandon(b.real_, k, mint(n)), fake := if FakeOwns(b.fake, k, FakeToken(n)) then b.fake - {k} else b.fake)
    case Tick(now) =>
      b.(fake := FlipExpired(b.real_, b.fake, now), now := now)
  }

  /** Both ledgers after the first `n` calls, starting empty. */
  function RunBoth(mint: Mint, calls: seq<Call>, n: nat): Both
    requires n <= |calls|
  {
    if n == 0 then Both(map[], map[], 0, 0) else StepBoth(mint, RunBoth(mint, calls, n - 1), calls[n - 1])
  }

  /** What the caller sees is the same; tokens correspond by the call that minted them. */
  ghost predicate SameAnswer(mint: Mint, b: Both, c: Call) {
    match c
    case DoClaim(k, hash, lease) =>
      var n := b.calls + 1;
      var answer, fakeAnswer := Claim(b.real_, k, hash, lease, b.now, mint(n)).1, FakeClaim(b.fake, k, hash, n).1;
      if answer.Claimed? then answer == Claimed(mint(n)) && fakeAnswer == Claimed(FakeToken(n))
      else fakeAnswer == answer
    case DoComplete(k, outcome, response, n) =>
      FakeComplete(b.fake, k, StatusOf(outcome), response, FakeToken(n)).Ok?
    case DoAbandon(k, n) =>
      Owns(b.real_, k, mint(n)) <==> FakeOwns(b.fake, k, FakeToken(n))
    case Tick(_) => true
  }

  /** The discipline the fake needs: only the owner of a run completes it, and only once. */
  ghost predicate OwnedCompletion(mint: Mint, b: Both, c: Call) {
    c.DoComplete? ==> Owns(b.real_, c.key, mint(c.claimNo))
  }

  ghost predicate SameAnswerAt(mint: Mint, calls: seq<Call>, i: nat) {
    i < |calls| && SameAnswer(mint, RunBoth(mint, calls, i), calls[i])
  }

  ghost predicate OwnedCompletionAt(mint: Mint, calls: seq<Call>, i: nat) {
    i < |calls| && OwnedCompletion(mint, RunBoth(mint, calls, i), calls[i])
  }

  lemma TokenNames(mint: Mint, calls: nat, token: string, fakeToken: string, n: nat)
    requires Injective(mint) && TokensMatch(mint, calls, token, fakeToken)
    ensures token == mint(n) <==> fakeToken == FakeToken(n)
  {
    var m: nat :| m <= calls && token == mint(m) && fakeToken == FakeToken(m);
    if m != n {
      FakeTokensDistinct(m, n);
    }
  }

  lemma MoreCalls(mint: Mint, b: Both)
    requires Agree(mint, b)
    ensures Agree(mint, b.(calls := b.calls + 1))
  {
    forall k | k in b.real_ ensures RowsAgree(mint, b.calls + 1, b.now, b.real_[k], b.fake[k]) {
      if b.real_[k].InFlight? {
        var m: nat :| m <= b.calls && b.real_[k].token == mint(m) && b.fake[k].token == FakeToken(m);
        assert TokensMatch(mint, b.calls + 1, b.real_[k].token, b.fake[k].token);
      }
    }
  }

  lemma RowAdded(mint: Mint, b: Both, k: Key, run: Run, row: FakeRow)
    requires Agree(mint, b) && RowsAgree(mint, b.calls, b.now, run, row)
    ensures Agree(mint, b.(real_ := b.real_[k := run], fake := b.fake[k := row]))
  {
  }

  lemma ClaimsAgree(mint: Mint, b: Both, c: Call)
    requires Agree(mint, b) && c.DoClaim?
    ensures SameAnswer(mint, b, c) && Agree(mint, StepBoth(mint, b, c))
  {
    var n := b.calls + 1;
    var run := InFlight(c.hash, mint(n), LeaseEnd(b.now, c.lease));
    var row := FakeRow(IN_PROGRESS, c.hash, FakeToken(n), None, true);
    assert TokensMatch(mint, n, mint(n), FakeToken(n));
    if c.key in b.real_ {
      assert RowsAgree(mint, b.calls, b.now, b.real_[c.key], b.fake[c.key]);
    }
    MoreCalls(mint, b);
    RowAdded(mint, b.(calls := n), c.key, run, row);
    var b' := StepBoth(mint, b, c);
    assert b' == b.(calls := n)
        || b' == b.(calls := n, real_ := b.real_[c.key := run], fake := b.fake[c.key := row]);
  }

  lemma StepsAgree(mint: Mint, b: Both, c: Call)
    requires Injective(mint) && Agree(mint, b) && OwnedCompletion(mint, b, c)
    ensures SameAnswer(mint, b, c) && Agree(mint, StepBoth(mint, b, c))
  {
    if c.DoClaim? {
      ClaimsAgree(mint, b, c);
    } else if !c.Tick? && c.key in b.real_ {
      assert RowsAgree(mint, b.calls, b.now, b.real_[c.key], b.fake[c.key]);
      if b.real_[c.key].InFlight? {
        TokenNames(mint, b.calls, b.real_[c.key].token, b.fake[c.key].token, c.claimNo);
      }
    }
  }

  lemma EmptyLedgersAgree(mint: Mint)
    ensures Agree(mint, Both(map[], map[], 0, 0))
  {
  }

  /** Every run of claims, owned single completions and abandons looks the same on both ledgers. */
  lemma {:induction false} FakeSimulatesLedger(mint: Mint, calls: seq<Call>, n: nat)
    requires Injective(mint) && n <= |calls|
    requires forall i: nat | i < n :: OwnedCompletionAt(mint, calls, i)
    ensures Agree(mint, RunBoth(mint, calls, n))
    ensures forall i: nat | i < n :: SameAnswerAt(mint, calls, i)
  {
    hide Agree, StepBoth, SameAnswer, OwnedCompletion, Injective;
    EmptyLedgersAgree(mint);
    if n > 0 {
      FakeSimulatesLedger(mint, calls, n - 1);
      var b, c := RunBoth(mint, calls, n - 1), calls[n - 1];
      assert OwnedCompletionAt(mint, calls, n - 1);
      StepsAgree(mint, b, c);
      assert RunBoth(mint, calls, n) == StepBoth(mint, b, c);
    }
  }

  /**
   Without that discipline the fake is not faithful: it accepts a completion and still agrees with
   the ledger exactly when the caller owns the run in flight, or repeats the stored outcome verbatim.
   */
  lemma FakeCompletionFaithfulExactlyWhen(mint: Mint, b: Both, c: Call)
    requires Injective(mint) && Agree(mint, b) && c.DoComplete?
    ensures SameAnswer(mint, b, c) && Agree(mint, StepBoth(mint, b, c)) <==>
            || Owns(b.real_, c.key, mint(c.claimNo))
            || (&& c.key in b.fake && b.fake[c.key].token == FakeToken(c.claimNo)
                && b.fake[c.key].status == StatusOf(c.outcome) && b.fake[c.key].response == Some(c.response))
  {
    if Owns(b.real_, c.key, mint(c.claimNo)) {
      StepsAgree(mint, b, c);
    } else if c.key in b.real_ {
      assert RowsAgree(mint, b.calls, b.now, b.real_[c.key], b.fake[c.key]);
      var b' := StepBoth(mint, b, c);
      if b.real_[c.key].InFlight? {
        TokenNames(mint, b.calls, b.real_[c.key].token, b.fake[c.key].token, c.claimNo);
      } else if b.fake[c.key].token == FakeToken(c.claimNo) {
        assert b'.fake[c.key].status == StatusOf(c.outcome);
        if b.fake[c.key].status == StatusOf(c.outcome) && b.fake[c.key].response == Some(c.response) {
          assert b'.fake == b.fake;
        }
      }
    }
  }

  /** The failing case: a second completion under the same token overwrites the fake's stored outcome. */
  lemma SecondCompletionDiverges(mint: Mint)
    requires Injective(mint)
    ensures var k := Key("agent", "run");
            var b := RunBoth(mint, TwoCompletions(k), 3);
            && k in b.real_ && b.real_[k].Done? && b.real_[k].response == Int(1)
            && k in b.fake && b.fake[k].response == Some(Int(2))
  {
    var k := Key("agent", "run");
    var calls := TwoCompletions(k);
    var b1 := RunBoth(mint, calls, 1);
    assert b1 == StepBoth(mint, RunBoth(mint, calls, 0), calls[0]);
    var b2 := RunBoth(mint, calls, 2);
    assert b2 == StepBoth(mint, b1, calls[1]);
    assert RunBoth(mint, calls, 3) == StepBoth(mint, b2, calls[2]);
  }

  function TwoCompletions(k: Key): seq<Call> {
    [DoClaim(k, "h", 60_000_000), DoComplete(k, Completed, Int(1), 1), DoComplete(k, Blocked, Int(2), 1)]
  }
}
