/** The invoke run ledger as an abstract machine: one leased, fenced run per key. */
module RunLedger {
  import opened JsonValues

  datatype Key = Key(agentId: string, runId: string)

  /** Times and durations are in microseconds, the resolution of the stored timestamps. */
  const MIN_LEASE: int := 30_000_000

  datatype Terminal = Completed | Blocked

  datatype Run =
    | InFlight(hash: string, token: string, leaseEnd: int)
    | Done(hash: string, outcome: Terminal, response: Json, completedAt: int)

  type Ledger = map<Key, Run>

  datatype ClaimResult =
    | Claimed(token: string)
    | Replay(response: Json)
    | Conflict

  function LeaseEnd(now: int, lease: int): int {
    now + if lease < MIN_LEASE then MIN_LEASE else lease
  }

  function Claim(l: Ledger, k: Key, hash: string, lease: int, now: int, token: string): (Ledger, ClaimResult) {
    var claimed := l[k := InFlight(hash, token, LeaseEnd(now, lease))];
    if k !in l then
      (claimed, Claimed(token))
    else
      match l[k]
      case Done(h, _, response, _) =>
        (l, if h == hash then Replay(response) else Conflict)
      case InFlight(h, _, leaseEnd) =>
        if h == hash && leaseEnd <= now then (claimed, Claimed(token)) else (l, Conflict)
  }

  /** The in-flight run of `k` is still held under `token`. */
  predicate Owns(l: Ledger, k: Key, token: string) {
    k in l && l[k].InFlight? && l[k].token == token
  }

  function Complete(l: Ledger, k: Key, outcome: Terminal, response: Json, now: int, token: string): Ledger {
    if Owns(l, k, token) then l[k := Done(l[k].hash, outcome, response, now)] else l
  }

  function Abandon(l: Ledger, k: Key, token: string): Ledger {
    if Owns(l, k, token) then l - {k} else l
  }

  predicate Lapsed(run: Run, now: int, ttl: int) {
    run.Done? && run.completedAt < now - ttl
  }

  function Gc(l: Ledger, now: int, ttl: int): Ledger {
    map k | k in l && !Lapsed(l[k], now, ttl) :: l[k]
  }
}
