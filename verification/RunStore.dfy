/** The ledger table with its nullable columns, and the statements that read and write it. */
module RunStore {
  import opened Wrappers
  import opened JsonValues
  import opened RunLedger

  datatype Row = Row(
    status: string,
    requestHash: string,
    response: Option<Json>,
    leaseExpiresAt: Option<int>,
    claimToken: Option<string>,
    completedAt: Option<int>)

  const IN_PROGRESS := "in_progress"
  const COMPLETED := "completed"
  const BLOCKED := "blocked"

  predicate IsTerminal(status: string) {
    status == COMPLETED || status == BLOCKED
  }

  /** Which columns are null is decided by the status column. */
  predicate RowOk(row: Row) {
    if row.status == IN_PROGRESS then
      row.leaseExpiresAt.Some? && row.claimToken.Some? && row.response.None? && row.completedAt.None?
    else
      IsTerminal(row.status) && row.leaseExpiresAt.None? && row.response.Some? && row.completedAt.Some?
  }

  function StatusOf(outcome: Terminal): string {
    match outcome case Completed => COMPLETED case Blocked => BLOCKED
  }

  function TerminalOf(status: string): Terminal {
    if status == COMPLETED then Completed else Blocked
  }

  function RunOf(row: Row): Run
    requires RowOk(row)
  {
    if row.status == IN_PROGRESS then
      InFlight(row.requestHash, row.claimToken.value, row.leaseExpiresAt.value)
    else
      Done(row.requestHash, TerminalOf(row.status), row.response.value, row.completedAt.value)
  }

  datatype CompleteResult =
    | Finished           // the statement matched, or was a tolerated no-op
    | NeverClaimed       // RunLedgerError: no row at all
    | EmptyToken         // ValueError
    | BadStatus          // ValueError

  class Table {
    var rows: map<Key, Row>

    constructor ()
      ensures Valid() && View() == map[]
    {
      rows := map[];
    }

    ghost predicate Valid()
      reads this
    {
      forall k | k in rows :: RowOk(rows[k])
    }

    ghost function View(): Ledger
      reads this
      requires Valid()
    {
      map k | k in rows :: RunOf(rows[k])
    }

    method ClaimRun(k: Key, requestHash: string, lease: int, now: int, token: string) returns (r: ClaimResult)
      requires Valid()
      requires k.agentId != "" && k.runId != "" && requestHash != "" && lease > 0
      modifies this
      ensures Valid()
      ensures (View(), r) == Claim(old(View()), k, requestHash, lease, now, token)
    {
      var effectiveLease := if MIN_LEASE > lease then MIN_LEASE else lease;
      var returned := false;
      // INSERT ... ON CONFLICT DO UPDATE ... WHERE ... RETURNING
      if k !in rows {
        rows := rows[k := Row(IN_PROGRESS, requestHash, None, Some(now + effectiveLease), Some(token), None)];
        returned := true;
      } else if && rows[k].status == IN_PROGRESS
                && rows[k].leaseExpiresAt.Some?
                && rows[k].leaseExpiresAt.value <= now
                && rows[k].requestHash == requestHash
      {
        rows := rows[k := rows[k].(status := IN_PROGRESS, leaseExpiresAt := Some(now + effectiveLease),
                                   claimToken := Some(token), response := None, completedAt := None)];
        returned := true;
      }
      if returned {
        assert View() == old(View())[k := InFlight(requestHash, token, LeaseEnd(now, lease))];
        return Claimed(token);
      }
      // Classify the row that was neither inserted nor reclaimed.
      var row := rows[k];
      if row.requestHash != requestHash {
        return Conflict;
      }
      if IsTerminal(row.status) {
        return Replay(row.response.value);
      }
      return Conflict;
    }

    method CompleteRun(k: Key, status: string, response: Json, now: int, claimToken: string)
      returns (r: CompleteResult)
      requires Valid() && k.agentId != "" && k.runId != ""
      modifies this
      ensures Valid()
      ensures r.EmptyToken? <==> claimToken == ""
      ensures r.BadStatus? <==> claimToken != "" && !IsTerminal(status)
      ensures r.NeverClaimed? <==> claimToken != "" && IsTerminal(status) && k !in old(View())
      ensures View() == if r.Finished? then Complete(old(View()), k, TerminalOf(status), response, now, claimToken)
                        else old(View())
    {
      if claimToken == "" {
        return EmptyToken;
      }
      if !IsTerminal(status) {
        return BadStatus;
      }
      if k in rows && rows[k].status == IN_PROGRESS && rows[k].claimToken == Some(claimToken) {
        rows := rows[k := rows[k].(status := status, response := Some(response),
                                   completedAt := Some(now), leaseExpiresAt := None)];
        return Finished;
      }
      if k !in rows {
        return NeverClaimed;
      }
      return Finished;
    }

    method ReplayRun(k: Key) returns (r: Option<Json>)
      requires Valid() && k.agentId != "" && k.runId != ""
      ensures r == if k in View() && View()[k].Done? then Some(View()[k].response) else None
    {
      if k !in rows || !IsTerminal(rows[k].status) || rows[k].response.None? {
        return None;
      }
      return rows[k].response;
    }

    method AbandonRun(k: Key, claimToken: string) returns (r: Result<bool, CompleteResult>)
      requires Valid() && k.agentId != "" && k.runId != ""
      modifies this
      ensures Valid()
      ensures claimToken == "" ==> r == Err(EmptyToken) && View() == old(View())
      ensures claimToken != "" ==> r == Ok(Owns(old(View()), k, claimToken))
                                   && View() == Abandon(old(View()), k, claimToken)
    {
      if claimToken == "" {
        return Err(EmptyToken);
      }
      if k in rows && rows[k].status == IN_PROGRESS && rows[k].claimToken == Some(claimToken) {
        rows := rows - {k};
        return Ok(true);
      }
      return Ok(false);
    }

    method GcTerminalRuns(now: int, ttl: int) returns (deleted: nat)
      requires Valid() && ttl > 0
      modifies this
      ensures Valid()
      ensures View() == Gc(old(View()), now, ttl)
      ensures deleted == |set k | k in old(View()) && Lapsed(old(View())[k], now, ttl)|
    {
      var cutoff := now - ttl;
      var due := set k | k in rows && IsTerminal(rows[k].status)
                         && rows[k].completedAt.Some? && rows[k].completedAt.value < cutoff;
      assert due == set k | k in old(View()) && Lapsed(old(View())[k], now, ttl);
      rows := rows - due;
      return |due|;
    }
  }
}
