/** The per-team circuit breaker, and the stateless function of history it computes. */
module CircuitBreaker {
  datatype State = Closed | Open | HalfOpen

  datatype Circuit = Circuit(state: State, consecutiveFailures: nat, lastFailureTime: real, lastSuccessTime: real)

  const FRESH := Circuit(Closed, 0, 0.0, 0.0)

  datatype Event =
    | Query(team: string, now: real)      // is_open
    | Success(team: string, now: real)
    | Failure(team: string, now: real)

  // ---- what the history says ----

  /** Failures of the team since its last success, in the first `n` events. */
  function FailuresSince(h: seq<Event>, n: nat, team: string): nat
    requires n <= |h|
  {
    if n == 0 then 0
    else if h[n - 1].team != team || h[n - 1].Query? then FailuresSince(h, n - 1, team)
    else if h[n - 1].Success? then 0
    else FailuresSince(h, n - 1, team) + 1
  }

  function LastFailure(h: seq<Event>, n: nat, team: string): real
    requires n <= |h|
  {
    if n == 0 then 0.0
    else if h[n - 1].team == team && h[n - 1].Failure? then h[n - 1].now
    else LastFailure(h, n - 1, team)
  }

  /** A threshold below one opens on the first failure, like a threshold of one. */
  function Limit(threshold: int): int {
    if threshold < 1 then 1 else threshold
  }

  predicate TooMany(h: seq<Event>, n: nat, team: string, threshold: int)
    requires n <= |h|
  {
    FailuresSince(h, n, team) >= Limit(threshold)
  }

  ghost predicate ClockAdvances(h: seq<Event>) {
    forall i, j | 0 <= i <= j < |h| :: h[i].now <= h[j].now
  }

  // ---- one circuit ----

  function Asked(c: Circuit, timeout: real, now: real): (Circuit, bool) {
    if c.state.Open? then
      if now - c.lastFailureTime >= timeout then (c.(state := HalfOpen), false) else (c, true)
    else (c, false)
  }

  function Succeeded(c: Circuit, now: real): Circuit {
    c.(state := Closed, consecutiveFailures := 0, lastSuccessTime := now)
  }

  function Failed(c: Circuit, threshold: int, now: real): Circuit {
    var n := c.consecutiveFailures + 1;
    Circuit(if c.state.HalfOpen? || n >= threshold then Open else c.state, n, now, c.lastSuccessTime)
  }

  function CircuitOf(circuits: map<string, Circuit>, team: string): Circuit {
    if team in circuits then circuits[team] else FRESH
  }

  class Breaker {
    const failureThreshold: int
    const recoveryTimeout: real
    var circuits: map<string, Circuit>

    constructor (failureThreshold: int, recoveryTimeout: real)
      ensures this.failureThreshold == failureThreshold && this.recoveryTimeout == recoveryTimeout
      ensures circuits == map[]
    {
      this.failureThreshold, this.recoveryTimeout := failureThreshold, recoveryTimeout;
      circuits := map[];
    }

    method GetCircuit(team: string) returns (c: Circuit)
      modifies this
      ensures c == CircuitOf(old(circuits), team) && circuits == old(circuits)[team := c]
    {
      if team !in circuits {
        circuits := circuits[team := FRESH];
      }
      c := circuits[team];
      assert circuits == old(circuits)[team := c];
    }

    method IsOpen(team: string, now: real) returns (open: bool)
      modifies this
      ensures var (c, answer) := Asked(CircuitOf(old(circuits), team), recoveryTimeout, now);
              open == answer && circuits == old(circuits)[team := c]
    {
      var circuit := GetCircuit(team);
      if circuit.state == Closed {
        return false;
      }
      if circuit.state == Open {
        var elapsed := now - circuit.lastFailureTime;
        if elapsed >= recoveryTimeout {
          circuits := circuits[team := circuit.(state := HalfOpen)];
          return false;
        }
        return true;
      }
      return false;
    }

    method GetState(team: string) returns (state: State)
      modifies this
      ensures state == CircuitOf(old(circuits), team).state
      ensures circuits == old(circuits)[team := CircuitOf(old(circuits), team)]
    {
      var circuit := GetCircuit(team);
      return circuit.state;
    }

    method RecordSuccess(team: string, now: real)
      modifies this
      ensures circuits == old(circuits)[team := Succeeded(CircuitOf(old(circuits), team), now)]
    {
      var circuit := GetCircuit(team);
      circuit := circuit.(state := Closed);
      circuit := circuit.(consecutiveFailures := 0);
      circuit := circuit.(lastSuccessTime := now);
      circuits := circuits[team := circuit];
    }

    method RecordFailure(team: string, now: real)
      modifies this
      ensures circuits == old(circuits)[team := Failed(CircuitOf(old(circuits), team), failureThreshold, now)]
    {
      var circuit := GetCircuit(team);
      circuit := circuit.(consecutiveFailures := circuit.consecutiveFailures + 1);
      circuit := circuit.(lastFailureTime := now);
      if circuit.state == HalfOpen {
        circuit := circuit.(state := Open);
      } else if circuit.consecutiveFailures >= failureThreshold {
        circuit := circuit.(state := Open);
      }
      circuits := circuits[team := circuit];
    }
  }

  // ---- whole histories ----

  function Step(circuits: map<string, Circuit>, threshold: int, timeout: real, e: Event): map<string, Circuit> {
    var c := CircuitOf(circuits, e.team);
    match e
    case Query(team, now) => circuits[team := Asked(c, timeout, now).0]
    case Success(team, now) => circuits[team := Succeeded(c, now)]
    case Failure(team, now) => circuits[team := Failed(c, threshold, now)]
  }

  /** The circuits after the first `n` calls on a fresh breaker. */
  function After(h: seq<Event>, n: nat, threshold: int, timeout: real): map<string, Circuit>
    requires n <= |h|
  {
    if n == 0 then map[] else Step(After(h, n - 1, threshold, timeout), threshold, timeout, h[n - 1])
  }

  /** What the stored circuit of a team says about its history; `upTo` is the time reached. */
  predicate Faithful(c: Circuit, h: seq<Event>, n: nat, team: string, threshold: int, timeout: real, upTo: real)
    requires n <= |h|
  {
    && c.consecutiveFailures == FailuresSince(h, n, team)
    && (FailuresSince(h, n, team) > 0 ==> c.lastFailureTime == LastFailure(h, n, team))
    && (c.state.Closed? <==> !TooMany(h, n, team, threshold))
    && (c.state.HalfOpen? ==> upTo - c.lastFailureTime >= timeout)
  }

  lemma {:induction false} CircuitsAreFaithful(h: seq<Event>, n: nat, team: string, threshold: int, timeout: real)
    requires n <= |h| && ClockAdvances(h)
    ensures Faithful(CircuitOf(After(h, n, threshold, timeout), team), h, n, team, threshold, timeout,
                     if n == 0 then 0.0 else h[n - 1].now)
  {
    if n > 0 {
      CircuitsAreFaithful(h, n - 1, team, threshold, timeout);
      if n > 1 {
        assert h[n - 2].now <= h[n - 1].now;
      }
    }
  }

  /**
   At the end of any history, a request of the team is rejected exactly when its failures since its
   last success reach the limit and the last one is more recent than the recovery timeout.
   */
  lemma RejectedExactlyWhen(h: seq<Event>, i: nat, threshold: int, timeout: real)
    requires i < |h| && h[i].Query? && ClockAdvances(h)
    ensures Asked(CircuitOf(After(h, i, threshold, timeout), h[i].team), timeout, h[i].now).1
            <==> TooMany(h, i, h[i].team, threshold) && h[i].now - LastFailure(h, i, h[i].team) < timeout
  {
    CircuitsAreFaithful(h, i, h[i].team, threshold, timeout);
    if i > 0 {
      assert h[i - 1].now <= h[i].now;
    }
  }

  /** The circuit is closed exactly when the failures since the last success are below the limit. */
  lemma ClosedExactlyWhen(h: seq<Event>, n: nat, team: string, threshold: int, timeout: real)
    requires n <= |h| && ClockAdvances(h)
    ensures CircuitOf(After(h, n, threshold, timeout), team).state.Closed? <==> !TooMany(h, n, team, threshold)
  {
    CircuitsAreFaithful(h, n, team, threshold, timeout);
  }

  /** The calls for one team among the first `n`, in order. */
  function OfTeam(h: seq<Event>, n: nat, team: string): seq<Event>
    requires n <= |h|
  {
    if n == 0 then []
    else OfTeam(h, n - 1, team) + if h[n - 1].team == team then [h[n - 1]] else []
  }

  lemma {:induction false} LaterCallsDoNotMatter(h: seq<Event>, more: seq<Event>, n: nat, threshold: int, timeout: real)
    requires n <= |h|
    ensures After(h + more, n, threshold, timeout) == After(h, n, threshold, timeout)
  {
    if n > 0 {
      LaterCallsDoNotMatter(h, more, n - 1, threshold, timeout);
    }
  }

  /** Teams never affect each other: a team's circuit is the one its own calls alone would have left. */
  lemma {:induction false} TeamsAreIndependent(h: seq<Event>, n: nat, team: string, threshold: int, timeout: real)
    requires n <= |h|
    ensures var own := OfTeam(h, n, team);
            CircuitOf(After(h, n, threshold, timeout), team) == CircuitOf(After(own, |own|, threshold, timeout), team)
  {
    if n > 0 {
      TeamsAreIndependent(h, n - 1, team, threshold, timeout);
      var own := OfTeam(h, n - 1, team);
      if h[n - 1].team == team {
        LaterCallsDoNotMatter(own, [h[n - 1]], |own|, threshold, timeout);
      } else {
        assert own + [] == own;
      }
    }
  }

  /** A half-open circuit admits every caller, not one probe, until the next outcome is recorded. */
  lemma HalfOpenAdmitsEveryone(h: seq<Event>, i: nat, j: nat, threshold: int, timeout: real)
    requires i < j < |h| && ClockAdvances(h) && h[i].Query? && h[j].Query? && h[i].team == h[j].team
    requires forall m | i < m < j :: h[m].team == h[i].team ==> h[m].Query?
    requires !Asked(CircuitOf(After(h, i, threshold, timeout), h[i].team), timeout, h[i].now).1
    ensures !Asked(CircuitOf(After(h, j, threshold, timeout), h[j].team), timeout, h[j].now).1
  {
    RejectedExactlyWhen(h, i, threshold, timeout);
    RejectedExactlyWhen(h, j, threshold, timeout);
    NothingRecorded(h, i, j, h[i].team);
    assert h[i].now <= h[j].now;
  }

  lemma {:induction false} NothingRecorded(h: seq<Event>, i: nat, j: nat, team: string)
    requires i <= j <= |h|
    requires forall m | i <= m < j :: h[m].team == team ==> h[m].Query?
    ensures FailuresSince(h, j, team) == FailuresSince(h, i, team) && LastFailure(h, j, team) == LastFailure(h, i, team)
    decreases j
  {
    if i < j {
      NothingRecorded(h, i, j - 1, team);
    }
  }
}
