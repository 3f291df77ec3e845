/** The invoke boundary: the pre-flight half, the return half, and the one mapping to responses. */
module InvokeGate {
  import opened Wrappers
  import opened JsonValues
  import opened RunLedger
  import opened MemoryEvents
  import LedgerRuns
  import RunStore

  // ---- outcomes ----

  datatype Refusal = ConflictRefusal | MissingIdempotencyKey | LedgerUnavailable | EnvelopeTooLarge

  /** The agent's rules, as the two gates see them, and the digest that rides the envelope. */
  datatype Context = Context(precondition: Json -> Option<string>, postcondition: Object -> Option<string>,
                             hasRules: bool, digest: Json)

  datatype Prepared = Prepared(agentId: string, sourceRunId: string, attemptToken: string,
                               claimToken: Option<string>, context: Option<Context>, envelope: Json)
  {
    function EventRunId(): string { EventScopedRunId(sourceRunId, attemptToken) }

    function LedgerKey(): Key { Key(agentId, sourceRunId) }
  }

  datatype GateOutcome =
    | Proceed(prepared: Prepared)
    | ReplayRun(statusCode: int, content: Json, replayBlocked: bool, blockPhase: Json, blockReason: Json)
    | BlockedRun(content: Json, reason: string)
    | Refused(why: Refusal, detail: string)

  datatype FinalizeOutcome = FinalizeOutcome(statusCode: int, content: Json, blocked: bool, persistedEvents: nat,
                                             blockPhase: Json, blockReason: Json, replayed: bool)

  function HttpStatus(why: Refusal): int {
    match why
    case ConflictRefusal => 409
    case MissingIdempotencyKey => 400
    case LedgerUnavailable => 503
    case EnvelopeTooLarge => 413
  }

  // ---- stored envelopes ----

  const PRECONDITION := "precondition"
  const POSTCONDITION := "postcondition"

  function BlockedContent(phase: string, reason: string): Json {
    Obj(map["detail" := Obj(map["message" := Str("Blocked by cognition " + phase),
                                "reason" := Str(reason),
                                "phase" := Str(phase)])])
  }

  function BlockEnvelope(phase: string, reason: string): Json {
    Obj(map["status_code" := Int(422), "content" := BlockedContent(phase, reason), "blocked" := Bool(true),
            "block_phase" := Str(phase), "block_reason" := Str(reason)])
  }

  function PassEnvelope(status: int, content: Json): Json {
    Obj(map["status_code" := Int(status), "content" := content])
  }

  function ReplayOutcome(response: Json): GateOutcome {
    if response.Obj? && IsPyInt(Get(response.fields, "status_code")) then
      var o := response.fields;
      ReplayRun(PyInt(Get(o, "status_code")), Get(o, "content"), Truthy(Get(o, "blocked")),
                Get(o, "block_phase"), Get(o, "block_reason"))
    else
      Refused(ConflictRefusal, "stored envelope is unreadable")
  }

  function AsFinalized(outcome: GateOutcome): FinalizeOutcome
    requires !outcome.Proceed?
  {
    match outcome
    case ReplayRun(status, content, blocked, phase, reason) =>
      FinalizeOutcome(status, content, blocked, 0, phase, reason, true)
    case BlockedRun(content, reason) =>
      FinalizeOutcome(422, content, true, 0, Str(PRECONDITION), Str(reason), false)
    case Refused(why, detail) =>
      FinalizeOutcome(HttpStatus(why), Obj(map["detail" := Str(detail)]), false, 0, Null, Null, false)
  }

  /** The terminal envelope that a fresh answer leaves in the ledger. */
  ghost predicate StoredFor(response: Json, answer: FinalizeOutcome) {
    if answer.blocked then
      exists phase: string, reason: string ::
        && response == BlockEnvelope(phase, reason)
        && answer.(persistedEvents := 0)
           == FinalizeOutcome(422, BlockedContent(phase, reason), true, 0, Str(phase), Str(reason), false)
    else
      response == PassEnvelope(answer.statusCode, answer.content)
      && answer.blockPhase == Null && answer.blockReason == Null && !answer.replayed
  }

  lemma EnvelopeRestoresAnswer(response: Json, answer: FinalizeOutcome)
    requires StoredFor(response, answer)
    ensures !ReplayOutcome(response).Proceed?
    ensures AsFinalized(ReplayOutcome(response)) == answer.(replayed := true, persistedEvents := 0)
  {
  }

  /**
   Over every run of the ledger: once an answer's envelope was stored, a claim of the same key with
   the same body replays that answer, until the row is deleted.
   */
  lemma ReplayEqualsFreshAnswer(es: seq<LedgerRuns.Event>, k: Key, i: nat, j: nat, answer: FinalizeOutcome)
    requires LedgerRuns.FinishedAt(es, i, k) && StoredFor(es[i].response, answer)
    requires i < j < |es| && LedgerRuns.Present(es, i + 1, j, k)
    requires es[j].ClaimRun? && es[j].key == k && es[j].hash == LedgerRuns.After(es, i)[k].hash
    ensures LedgerRuns.Outcome(es, j).Replay?
    ensures var served := ReplayOutcome(LedgerRuns.Outcome(es, j).response);
            && !served.Proceed?
            && AsFinalized(served) == answer.(replayed := true, persistedEvents := 0)
  {
    assert LedgerRuns.CompletedBy(es, k, i, j, es[j].hash, es[i].response);
    LedgerRuns.ReplayIsTheCompletersResponse(es, k, j, es[i].response);
    EnvelopeRestoresAnswer(es[i].response, answer);
  }

  /** Nobody else completes or abandons under the claim's token before it does. */
  ghost predicate OnlyFinisher(es: seq<LedgerRuns.Event>, k: Key, c: nat, i: nat) {
    c < i < |es| && es[c].ClaimRun?
    && forall m | c < m < i && (es[m].CompleteRun? || es[m].AbandonRun?) && es[m].key == k :: es[m].token != es[c].token
  }

  /**
   From claim to retry: a worker that finishes its claimed run within the lease stores its answer, whatever the other
   workers and the collector do, and every same-body retry within the time to live gets that answer without executing.
   */
  lemma RetryWithinWindowGetsTheSameAnswer(es: seq<LedgerRuns.Event>, k: Key, c: nat, i: nat, j: nat, ttl: int,
                                           answer: FinalizeOutcome)
    requires LedgerRuns.ClockAdvances(es) && LedgerRuns.ClaimedAt(es, c, k) && OnlyFinisher(es, k, c, i)
    requires es[i].CompleteRun? && es[i].key == k && es[i].token == es[c].token && StoredFor(es[i].response, answer)
    requires es[i].now < LeaseEnd(es[c].now, es[c].lease)
    requires i < j < |es| && es[j].ClaimRun? && es[j].key == k && es[j].hash == es[c].hash
    requires es[j].now <= es[i].now + ttl && forall m | i < m < j && es[m].GcRuns? :: es[m].ttl >= ttl
    ensures LedgerRuns.FinishedAt(es, i, k)
    ensures LedgerRuns.Outcome(es, j) == Replay(es[i].response)
    ensures !ReplayOutcome(es[i].response).Proceed?
    ensures AsFinalized(ReplayOutcome(es[i].response)) == answer.(replayed := true, persistedEvents := 0)
  {
    EnvelopeRestoresAnswer(es[i].response, answer);
    hide StoredFor, ReplayOutcome, AsFinalized, Claim;
    LedgerRuns.LeaseHolds(es, k, c, i);
    LedgerRuns.ReplayWindow(es, k, i, j, ttl);
  }

  /** A stored envelope whose status is not an integer is refused, never turned into a success. */
  lemma UnreadableEnvelopeConflicts(response: Json)
    ensures !(response.Obj? && IsPyInt(Get(response.fields, "status_code")))
            <==> ReplayOutcome(response).Refused?
    ensures ReplayOutcome(response).Refused? ==> AsFinalized(ReplayOutcome(response)).statusCode == 409
  {
  }

  // ---- other workers, between this call's claim and its later ledger write ----

  function RunFrom(l: Ledger, es: seq<LedgerRuns.Event>): Ledger {
    if es == [] then l else LedgerRuns.Step(RunFrom(l, es[..|es| - 1]), es[|es| - 1])
  }

  predicate WellFormed(e: LedgerRuns.Event) {
    match e
    case ClaimRun(k, hash, lease, _, token) => k.agentId != "" && k.runId != "" && hash != "" && lease > 0 && token != ""
    case CompleteRun(k, _, _, _, token) => k.agentId != "" && k.runId != "" && token != ""
    case AbandonRun(k, _, token) => k.agentId != "" && k.runId != "" && token != ""
    case GcRuns(_, ttl) => ttl > 0
  }

  /** They hold neither this claim's token nor a clock past its lease. */
  ghost predicate WithinLease(others: seq<LedgerRuns.Event>, k: Key, token: string, leaseEnd: int) {
    forall e | e in others ::
      && (e.ClaimRun? && e.key == k ==> e.now < leaseEnd)
      && ((e.CompleteRun? || e.AbandonRun?) && e.key == k ==> e.token != token)
  }

  lemma {:induction false} LeaseProtects(l: Ledger, others: seq<LedgerRuns.Event>, k: Key, run: Run)
    requires run.InFlight? && k in l && l[k] == run && WithinLease(others, k, run.token, run.leaseEnd)
    ensures k in RunFrom(l, others) && RunFrom(l, others)[k] == run
  {
    if others != [] {
      LeaseProtects(l, others[..|others| - 1], k, run);
      assert others[|others| - 1] in others;
    }
  }

  method Interleave(table: RunStore.Table, others: seq<LedgerRuns.Event>)
    requires table.Valid() && forall e | e in others :: WellFormed(e)
    modifies table
    ensures table.Valid() && table.View() == RunFrom(old(table.View()), others)
  {
    for i := 0 to |others|
      invariant table.Valid() && table.View() == RunFrom(old(table.View()), others[..i])
    {
      assert others[..i + 1][..i] == others[..i];
      assert WellFormed(others[i]);
      match others[i] {
        case ClaimRun(k, hash, lease, now, token) =>
          var _ := table.ClaimRun(k, hash, lease, now, token);
        case CompleteRun(k, outcome, response, now, token) =>
          var _ := table.CompleteRun(k, RunStore.StatusOf(outcome), response, now, token);
        case AbandonRun(k, _, token) =>
          var _ := table.AbandonRun(k, token);
        case GcRuns(now, ttl) =>
          var _ := table.GcTerminalRuns(now, ttl);
      }
    }
    assert others[..|others|] == others;
  }

  /** What the surroundings answer during one `prepare_invoke`. */
  datatype Surroundings = Surroundings(
    postgresEnabled: bool,
    claimReachesLedger: bool,
    context: Option<Context>,             // None: context assembly failed
    now: int,
    token: string,                        // the uuid4 this call mints
    others: seq<LedgerRuns.Event>,        // other workers, after the claim
    later: int)                           // the clock after them

  /** The ledger this call leaves behind, given how it exits. */
  ghost predicate LedgerAfterPrepare(before: Ledger, after: Ledger, k: Key, hash: string, lease: int, s: Surroundings,
                                     outcome: GateOutcome) {
    var claim := Claim(before, k, hash, lease, s.now, s.token);
    var mid := RunFrom(claim.0, s.others);
    var claimed := s.postgresEnabled && s.claimReachesLedger;
    match outcome
    case Refused(ConflictRefusal, _) =>
      claimed && after == before && (claim.1.Conflict? || (claim.1.Replay? && outcome == ReplayOutcome(claim.1.response)))
    case ReplayRun(_, _, _, _, _) => claimed && claim.1.Replay? && outcome == ReplayOutcome(claim.1.response) && after == before
    case Refused(MissingIdempotencyKey, _) => after == before
    case Refused(LedgerUnavailable, _) => !claimed && after == before
    case Refused(EnvelopeTooLarge, _) =>
      if claimed then claim.1.Claimed? && after == Abandon(mid, k, s.token) else after == RunFrom(before, s.others)
    case BlockedRun(content, reason) =>
      && content == BlockedContent(PRECONDITION, reason)
      && (if claimed then claim.1.Claimed?
                          && after == Complete(mid, k, Blocked, BlockEnvelope(PRECONDITION, reason), s.later, s.token)
          else after == RunFrom(before, s.others))
    case Proceed(p) =>
      && p.LedgerKey() == k && p.attemptToken == s.token
      && (if claimed then claim.1.Claimed? && p.claimToken == Some(s.token) && after == mid
          else p.claimToken == None && after == RunFrom(before, s.others))
  }

  /**
   As long as the other workers act within the lease and without this call's token, every exit of
   the pre-flight half leaves the row of the key in the state that exit promises.
   */
  lemma PrepareExitsMatchLedger(before: Ledger, after: Ledger, k: Key, hash: string, lease: int, s: Surroundings,
                                outcome: GateOutcome)
    requires LedgerAfterPrepare(before, after, k, hash, lease, s, outcome)
    requires s.postgresEnabled && s.claimReachesLedger && WithinLease(s.others, k, s.token, LeaseEnd(s.now, lease))
    ensures outcome.Proceed? ==> k in after && after[k] == InFlight(hash, s.token, LeaseEnd(s.now, lease))
    ensures outcome.BlockedRun? ==>
              k in after && after[k] == Done(hash, Blocked, BlockEnvelope(PRECONDITION, outcome.reason), s.later)
              && StoredFor(after[k].response, AsFinalized(outcome))
    ensures outcome.Refused? && outcome.why.EnvelopeTooLarge? ==> k !in after
    ensures outcome.ReplayRun? || (outcome.Refused? && !outcome.why.EnvelopeTooLarge?) ==> after == before
  {
    var claim := Claim(before, k, hash, lease, s.now, s.token);
    if claim.1.Claimed? {
      LeaseProtects(claim.0, s.others, k, InFlight(hash, s.token, LeaseEnd(s.now, lease)));
    }
  }

  lemma ClaimEffects(l: Ledger, k: Key, hash: string, lease: int, now: int, token: string)
    ensures var (after, r) := Claim(l, k, hash, lease, now, token);
            if r.Claimed? then r.token == token && k in after && after[k] == InFlight(hash, token, LeaseEnd(now, lease))
            else after == l
  {
  }

  // ---- the agent's own events ----

  /** The events that decode, in order; the others are dropped. */
  function DecodeAll(raw: seq<Json>, decode: Json -> Option<MemoryEvent>): seq<MemoryEvent> {
    if raw == [] then []
    else
      var es := DecodeAll(raw[..|raw| - 1], decode);
      var e := decode(raw[|raw| - 1]);
      if e.Some? then es + [e.value] else es
  }

  function Decoded(decode: Json -> Option<MemoryEvent>, j: Json): seq<MemoryEvent> {
    match decode(j) case None => [] case Some(e) => [e]
  }

  lemma LastDecoded(raw: seq<Json>, decode: Json -> Option<MemoryEvent>)
    requires raw != []
    ensures DecodeAll(raw, decode) == DecodeAll(raw[..|raw| - 1], decode) + Decoded(decode, raw[|raw| - 1])
  {
  }

  /** Splitting the list anywhere splits the events: each entry yields its event, in its place, or nothing. */
  lemma {:induction false} DecodedInOrder(raw: seq<Json>, more: seq<Json>, decode: Json -> Option<MemoryEvent>)
    ensures DecodeAll(raw + more, decode) == DecodeAll(raw, decode) + DecodeAll(more, decode)
    ensures |more| == 1 ==> DecodeAll(more, decode) == match decode(more[0]) case None => [] case Some(e) => [e]
    decreases |more|
  {
    if more == [] {
      assert raw + more == raw;
    } else {
      var all, rest, last := raw + more, more[..|more| - 1], Decoded(decode, more[|more| - 1]);
      DecodedInOrder(raw, rest, decode);
      LastDecoded(all, decode);
      LastDecoded(more, decode);
      assert all[..|all| - 1] == raw + rest;
      assert (DecodeAll(raw, decode) + DecodeAll(rest, decode)) + last == DecodeAll(raw, decode) + (DecodeAll(rest, decode) + last);
    }
  }

  lemma BlockedAnswer(reason: string, out: FinalizeOutcome)
    requires out == FinalizeOutcome(422, BlockedContent(POSTCONDITION, reason), true, 0, Str(POSTCONDITION), Str(reason), false)
    ensures StoredFor(BlockEnvelope(POSTCONDITION, reason), out)
    ensures out.content == Obj(map["detail" := Obj(map["message" := Str("Blocked by cognition postcondition"),
                                                       "reason" := Str(reason), "phase" := Str("postcondition")])])
  {
    assert "Blocked by cognition " + POSTCONDITION == "Blocked by cognition postcondition";
  }

  lemma PassedAnswer(status: int, content: Json, persisted: nat)
    ensures StoredFor(PassEnvelope(status, content), FinalizeOutcome(status, content, false, persisted, Null, Null, false))
  {
  }

  /** Each refusal has its own status and carries its reason in the body. */
  lemma RefusalStatuses(detail: string)
    ensures AsFinalized(Refused(ConflictRefusal, detail)).statusCode == 409
    ensures AsFinalized(Refused(MissingIdempotencyKey, detail)).statusCode == 400
    ensures AsFinalized(Refused(LedgerUnavailable, detail)).statusCode == 503
    ensures AsFinalized(Refused(EnvelopeTooLarge, detail)).statusCode == 413
    ensures forall why :: var answer := AsFinalized(Refused(why, detail));
                          answer.content == Obj(map["detail" := Str(detail)]) && !answer.blocked && !answer.replayed
  {
  }

  class Gate {
    const table: RunStore.Table
    var events: Events

    const hash: Json -> string                   // SHA-256 of the canonical encoding
    const wrap: (Json, Json) -> Json             // the marker envelope around body and digest
    const encodedLength: Json -> nat
    const defaultLease: int
    const toolCallValid: Json -> bool
    const decodeEvent: Json -> Option<MemoryEvent>

    constructor (table: RunStore.Table, hash: Json -> string, wrap: (Json, Json) -> Json, encodedLength: Json -> nat,
                 defaultLease: int, toolCallValid: Json -> bool, decodeEvent: Json -> Option<MemoryEvent>)
      ensures this.table == table && events == map[]
      ensures this.hash == hash && this.wrap == wrap && this.encodedLength == encodedLength
      ensures this.defaultLease == defaultLease && this.toolCallValid == toolCallValid && this.decodeEvent == decodeEvent
    {
      this.table := table;
      events := map[];
      this.hash, this.wrap, this.encodedLength := hash, wrap, encodedLength;
      this.defaultLease, this.toolCallValid, this.decodeEvent := defaultLease, toolCallValid, decodeEvent;
    }

    /** `idempotencyKey` is the stripped header value, empty when there is none. */
    method PrepareInvoke(agentId: string, body: Json, requiresKey: bool, idempotencyKey: string,
                         maxBytes: Option<nat>, s: Surroundings) returns (outcome: GateOutcome)
      requires table.Valid() && agentId != "" && hash(body) != "" && defaultLease >= MIN_LEASE && s.token != ""
      requires forall e | e in s.others :: WellFormed(e)
      modifies this`events, table
      ensures table.Valid()
      ensures outcome == Refused(MissingIdempotencyKey, "missing idempotency key")
              <==> requiresKey && idempotencyKey == ""
      // an outage refuses exactly the agents that require a key
      ensures outcome.Refused? && outcome.why.LedgerUnavailable?
              <==> requiresKey && idempotencyKey != "" && !(s.postgresEnabled && s.claimReachesLedger)
      // the ledger key is the caller's key when there is one
      ensures LedgerAfterPrepare(old(table.View()), table.View(),
                                 Key(agentId, if idempotencyKey != "" then idempotencyKey else hash(body)),
                                 hash(body), defaultLease, s, outcome)
      ensures requiresKey && outcome.Proceed? ==> outcome.prepared.claimToken.Some?
      ensures outcome.Proceed? ==> outcome.prepared.context == s.context
      ensures outcome.Proceed? || outcome.BlockedRun? || (outcome.Refused? && outcome.why == EnvelopeTooLarge) ==>
                GateVerdict(outcome, body, maxBytes, s.context)
      ensures events == if outcome.BlockedRun? then
                          InsertAll(old(events), agentId,
                                    EventScopedRunId(if idempotencyKey != "" then idempotencyKey else hash(body), s.token),
                                    BlockEvents([], BlockPayload(PRECONDITION, outcome.reason)))
                        else old(events)
    {
      hide Claim, Complete, Abandon, RunFrom, BlockEnvelope, BlockedContent, InsertAll, BlockPayload,
           BlockEvents, GateVerdict, EventScopedRunId;
      if requiresKey && idempotencyKey == "" {
        return Refused(MissingIdempotencyKey, "missing idempotency key");
      }
      var requestHash := hash(body);
      var sourceRunId := if idempotencyKey != "" then idempotencyKey else requestHash;
      var k := Key(agentId, sourceRunId);
      var claimToken: Option<string> := None;
      ClaimEffects(table.View(), k, requestHash, defaultLease, s.now, s.token);
      if !s.postgresEnabled || !s.claimReachesLedger {
        if requiresKey {
          return Refused(LedgerUnavailable, "run ledger is unavailable");
        }
      } else {
        var claim := table.ClaimRun(k, requestHash, defaultLease, s.now, s.token);
        match claim {
          case Replay(response) => return ReplayOutcome(response);
          case Conflict => return Refused(ConflictRefusal, "different body, or still in flight");
          case Claimed(token) => claimToken := Some(token);
        }
      }
      Interleave(table, s.others);
      outcome := PassGate(k, body, maxBytes, s.context, s.token, claimToken, s.later);
    }

    /** The part after the claim: precondition gate, envelope, payload cap. */
    method PassGate(k: Key, body: Json, maxBytes: Option<nat>, context: Option<Context>,
                    attemptToken: string, claimToken: Option<string>, now: int) returns (outcome: GateOutcome)
      requires table.Valid() && k.agentId != "" && k.runId != "" && (claimToken.Some? ==> claimToken.value != "")
      modifies this`events, table
      ensures table.Valid()
      ensures outcome.Proceed? || outcome.BlockedRun? || (outcome.Refused? && outcome.why == EnvelopeTooLarge)
      ensures GateVerdict(outcome, body, maxBytes, context)
      ensures outcome.Proceed? ==> outcome.prepared == Prepared(k.agentId, k.runId, attemptToken, claimToken, context,
                                                                outcome.prepared.envelope)
      ensures table.View() ==
              if claimToken.None? || outcome.Proceed? then old(table.View())
              else if outcome.BlockedRun? then
                Complete(old(table.View()), k, Blocked, BlockEnvelope(PRECONDITION, outcome.reason), now, claimToken.value)
              else Abandon(old(table.View()), k, claimToken.value)
      ensures events == if outcome.BlockedRun? then
                          InsertAll(old(events), k.agentId, EventScopedRunId(k.runId, attemptToken),
                                    BlockEvents([], BlockPayload(PRECONDITION, outcome.reason)))
                        else old(events)
    {
      var envelope := body;
      if context.Some? {
        var verdict := context.value.precondition(body);
        if verdict.Some? {
          var content, _ := RecordBlock(k.agentId, EventScopedRunId(k.runId, attemptToken), k.runId, claimToken,
                                        PRECONDITION, verdict.value, [], now);
          return BlockedRun(content, verdict.value);
        }
        envelope := wrap(body, context.value.digest);
        if maxBytes.Some? && encodedLength(envelope) > maxBytes.value {
          if claimToken.Some? {
            var _ := table.AbandonRun(k, claimToken.value);
          }
          return Refused(EnvelopeTooLarge, "request plus cognition context is over the cap");
        }
      }
      return Proceed(Prepared(k.agentId, k.runId, attemptToken, claimToken, context, envelope));
    }

    /** Blocked exactly by the precondition; let through only with the wrapped body, within the cap. */
    ghost predicate GateVerdict(outcome: GateOutcome, body: Json, maxBytes: Option<nat>, context: Option<Context>) {
      match context
      case None => outcome.Proceed? && outcome.prepared.envelope == body
      case Some(c) =>
        var verdict, envelope := c.precondition(body), wrap(body, c.digest);
        var tooLarge := maxBytes.Some? && encodedLength(envelope) > maxBytes.value;
        && (outcome.BlockedRun? <==> verdict.Some?)
        && (outcome.BlockedRun? ==>
              outcome.reason == verdict.value && outcome.content == BlockedContent(PRECONDITION, verdict.value))
        && (outcome.Refused? <==> verdict.None? && tooLarge)
        && (outcome.Proceed? ==> outcome.prepared.envelope == envelope)
    }

    static function BlockPayload(phase: string, reason: string): Json {
      Obj(map["phase" := Str(phase), "reason" := Str(reason)])
    }

    /** Persists a rule block: the memory events and, when the run was claimed, the `blocked` envelope. */
    method RecordBlock(agentId: string, eventRunId: string, sourceRunId: string, claimToken: Option<string>,
                       phase: string, reason: string, audit: seq<MemoryEvent>, now: int)
      returns (content: Json, inserted: nat)
      requires table.Valid() && agentId != "" && sourceRunId != ""
      requires phase == PRECONDITION || phase == POSTCONDITION
      modifies this`events, table
      ensures table.Valid()
      ensures content == BlockedContent(phase, reason)
      ensures events == InsertAll(old(events), agentId, eventRunId, BlockEvents(audit, BlockPayload(phase, reason)))
      ensures table.View() == if claimToken.Some? && claimToken.value != "" then
                                Complete(old(table.View()), Key(agentId, sourceRunId), Blocked,
                                         BlockEnvelope(phase, reason), now, claimToken.value)
                              else old(table.View())
    {
      content := BlockedContent(phase, reason);
      var block := audit;
      block := block + [MemoryEvent(ErrorEvent, |block|, BlockPayload(phase, reason))];
      events, inserted := AppendEvents(events, agentId, eventRunId, block);
      if claimToken.Some? {
        var _ := table.CompleteRun(Key(agentId, sourceRunId), RunStore.BLOCKED,
                                   Obj(map["status_code" := Int(422), "content" := content, "blocked" := Bool(true),
                                           "block_phase" := Str(phase), "block_reason" := Str(reason)]),
                                   now, claimToken.value);
      }
    }

    static predicate Success(status: int) { 200 <= status < 300 }

    /** Non-2xx envelopes ride in `detail`. */
    static function InnerEnvelope(content: Json, status: int): Json {
      if content.Obj? && !Success(status) && Get(content.fields, "detail").Obj? then Get(content.fields, "detail")
      else content
    }

    static function ListField(inner: Json, field: string): seq<Json> {
      if inner.Obj? && Get(inner.fields, field).Arr? then Get(inner.fields, field).items else []
    }

    method CollectAudit(inner: Json) returns (audit: seq<MemoryEvent>)
      ensures audit == AuditEvents(ListField(inner, "tool_audit"), toolCallValid)
    {
      var raw := ListField(inner, "tool_audit");
      audit := [];
      for i := 0 to |raw|
        invariant audit == AuditEvents(raw[..i], toolCallValid)
      {
        assert raw[..i + 1][..i] == raw[..i];
        if toolCallValid(raw[i]) {
          audit := audit + [MemoryEvent(ToolCallEvent, i, raw[i])];
        }
      }
      assert raw[..|raw|] == raw;
    }

    method CollectWriteback(inner: Json) returns (es: seq<MemoryEvent>)
      ensures es == DecodeAll(ListField(inner, "memory_events"), decodeEvent)
    {
      var raw := ListField(inner, "memory_events");
      es := [];
      for i := 0 to |raw|
        invariant es == DecodeAll(raw[..i], decodeEvent)
      {
        assert raw[..i + 1][..i] == raw[..i];
        var e := decodeEvent(raw[i]);
        if e.Some? {
          es := es + [e.value];
        }
      }
      assert raw[..|raw|] == raw;
    }

    /** The rule verdict on the agent's output; an output that is missing or no object counts as `{}`. */
    static function Verdict(p: Prepared, inner: Json): Option<string> {
      if p.context.None? || !p.context.value.hasRules then None
      else
        var output := if inner.Obj? then Get(inner.fields, "output") else Null;
        p.context.value.postcondition(if output.Obj? then output.fields else map[])
    }

    /** Completes a claimed run with the envelope that replays its answer. */
    method StorePass(p: Prepared, status: int, content: Json, now: int)
      requires table.Valid() && p.agentId != "" && p.sourceRunId != ""
      requires p.claimToken.Some? ==> p.claimToken.value != ""
      modifies table
      ensures table.Valid()
      ensures table.View() == if p.claimToken.Some? then
                                Complete(old(table.View()), p.LedgerKey(), Completed, PassEnvelope(status, content), now,
                                         p.claimToken.value)
                              else old(table.View())
    {
      if p.claimToken.Some? {
        var _ := table.CompleteRun(p.LedgerKey(), RunStore.COMPLETED,
                                   Obj(map["status_code" := Int(status), "content" := content]), now, p.claimToken.value);
      }
    }

    method FinalizeInvoke(p: Prepared, status: int, content: Json, now: int) returns (out: FinalizeOutcome)
      requires table.Valid() && p.agentId != "" && p.sourceRunId != ""
      requires p.claimToken.Some? ==> p.claimToken.value != ""
      modifies this`events, table
      ensures table.Valid()
      // the verdict: blocked exactly when the agent's rules reject what it put out, a missing output counting as `{}`
      ensures var output := if content.Obj? && Get(content.fields, "output").Obj? then Get(content.fields, "output").fields
                            else map[];
              && (out.blocked <==> 200 <= status < 300 && p.context.Some? && p.context.value.hasRules
                                   && p.context.value.postcondition(output).Some?)
              && (out.blocked ==>
                    var reason := Str(p.context.value.postcondition(output).value);
                    && out.statusCode == 422 && out.blockPhase == Str("postcondition") && out.blockReason == reason
                    && out.content == Obj(map["detail" := Obj(map["message" := Str("Blocked by cognition postcondition"),
                                                                  "reason" := reason, "phase" := Str("postcondition")])]))
      ensures !out.blocked ==> out.statusCode == status && out.content == content
                               && out.blockPhase == Null && out.blockReason == Null
      ensures !out.replayed
      // the ledger: a 2xx run is completed with the envelope its answer replays from, any other is left as it was
      ensures !(200 <= status < 300) || p.claimToken.None? ==> table.View() == old(table.View())
      ensures 200 <= status < 300 && p.claimToken.Some? ==>
                exists response | StoredFor(response, out) ::
                  table.View() == Complete(old(table.View()), p.LedgerKey(), if out.blocked then Blocked else Completed,
                                           response, now, p.claimToken.value)
      // the memory: the trusted audit survives a failure or a block, the agent's own events only a pass
      ensures var success := 200 <= status < 300;
              var envelope := if content.Obj? && !success && Get(content.fields, "detail").Obj?
                              then Get(content.fields, "detail") else content;
              var audited := if envelope.Obj? && Get(envelope.fields, "tool_audit").Arr?
                             then Get(envelope.fields, "tool_audit").items else [];
              var authored := if envelope.Obj? && Get(envelope.fields, "memory_events").Arr?
                              then Get(envelope.fields, "memory_events").items else [];
              events == InsertAll(old(events), p.agentId, p.sourceRunId + "#" + p.attemptToken,
                                  if !success then AuditEvents(audited, toolCallValid)
                                  else if out.blocked then
                                    BlockEvents(AuditEvents(audited, toolCallValid),
                                                Obj(map["phase" := Str("postcondition"), "reason" := out.blockReason]))
                                  else DecodeAll(authored, decodeEvent))
      ensures if 200 <= status < 300 && !out.blocked then |events| == |old(events)| + out.persistedEvents
              else out.persistedEvents == 0
    {
      hide InsertAll, AuditEvents, BlockEvents, DecodeAll, Complete, BlockedContent, StoredFor, BlockEnvelope, PassEnvelope;
      EmptyBatch(events, p.agentId, p.EventRunId());
      var inner := InnerEnvelope(content, status);
      if !Success(status) {
        var audit := CollectAudit(inner);
        if audit != [] {
          var inserted;
          events, inserted := AppendEvents(events, p.agentId, p.EventRunId(), audit);
        }
        return FinalizeOutcome(status, content, false, 0, Null, Null, false);
      }
      var verdict := Verdict(p, inner);
      if verdict.Some? {
        var audit := CollectAudit(inner);
        var blocked, _ := RecordBlock(p.agentId, p.EventRunId(), p.sourceRunId, p.claimToken,
                                      POSTCONDITION, verdict.value, audit, now);
        out := FinalizeOutcome(422, blocked, true, 0, Str(POSTCONDITION), Str(verdict.value), false);
        BlockedAnswer(verdict.value, out);
        return;
      }
      var es := CollectWriteback(inner);
      var persisted: nat := 0;
      if es != [] {
        events, persisted := AppendEvents(events, p.agentId, p.EventRunId(), es);
      }
      StorePass(p, status, content, now);
      out := FinalizeOutcome(status, content, false, persisted, Null, Null, false);
      PassedAnswer(status, content, persisted);
    }

    method AbandonInvoke(p: Prepared) returns (released: bool)
      requires table.Valid() && p.agentId != "" && p.sourceRunId != ""
      modifies table
      ensures table.Valid()
      ensures released <==> p.claimToken.Some? && p.claimToken.value != ""
                            && Owns(old(table.View()), p.LedgerKey(), p.claimToken.value)
      ensures table.View() == if released then old(table.View()) - {p.LedgerKey()} else old(table.View())
    {
      if p.claimToken.None? {
        return false;
      }
      var r := table.AbandonRun(p.LedgerKey(), p.claimToken.value);
      return r.Ok? && r.value;
    }
  }
}
