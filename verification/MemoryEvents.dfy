/** Episodic memory events: the attempt-scoped run id, and the insert-or-ignore event table. */
module MemoryEvents {
  import opened JsonValues

  datatype EventKind = ToolCallEvent | ErrorEvent | AgentEvent

  datatype MemoryEvent = MemoryEvent(kind: EventKind, seqNo: nat, payload: Json)

  /** The conflict target of the event table: `(agent_id, source_run_id, source_seq)`. */
  datatype EventKey = EventKey(agentId: string, runId: string, seqNo: nat)

  type Events = map<EventKey, MemoryEvent>

  // ---- attempt-scoped run ids ----

  function EventScopedRunId(sourceRunId: string, attemptToken: string): string {
    sourceRunId + "#" + attemptToken
  }

  /** Attempt tokens (UUIDs) contain no `#`; caller-supplied run ids may. */
  lemma ScopedIdsNeverCollide(r1: string, t1: string, r2: string, t2: string)
    requires '#' !in t1 && '#' !in t2
    ensures EventScopedRunId(r1, t1) == EventScopedRunId(r2, t2) <==> r1 == r2 && t1 == t2
  {
    var s1, s2 := EventScopedRunId(r1, t1), EventScopedRunId(r2, t2);
    if s1 == s2 {
      assert s1[|r1|] == '#' && s2[|r2|] == '#';
      assert |r1| == |r2|;
      assert r1 == s1[..|r1|] && t1 == s1[|r1| + 1..];
      assert r2 == s2[..|r2|] && t2 == s2[|r2| + 1..];
    }
  }

  /** Everything before the last `#`. */
  function LedgerKeyOf(eventRunId: string): string {
    if eventRunId == "" then ""
    else if eventRunId[|eventRunId| - 1] == '#' then eventRunId[..|eventRunId| - 1]
    else LedgerKeyOf(eventRunId[..|eventRunId| - 1])
  }

  /** An event's ledger row is found by cutting its run id at the last `#`, even when the key contains one. */
  lemma {:induction false} EventFindsItsLedgerRow(sourceRunId: string, attemptToken: string)
    requires '#' !in attemptToken
    ensures LedgerKeyOf(EventScopedRunId(sourceRunId, attemptToken)) == sourceRunId
  {
    if attemptToken == "" {
      assert EventScopedRunId(sourceRunId, attemptToken) == sourceRunId + "#";
    } else {
      var shorter := attemptToken[..|attemptToken| - 1];
      assert EventScopedRunId(sourceRunId, attemptToken)[..|sourceRunId| + |attemptToken|] == EventScopedRunId(sourceRunId, shorter);
      EventFindsItsLedgerRow(sourceRunId, shorter);
    }
  }

  /** Why the token must not contain `#`: two different attempts would share one id. */
  lemma HashInTokenCollides()
    ensures EventScopedRunId("a", "b#c") == EventScopedRunId("a#b", "c")
  {
  }

  // ---- INSERT ... ON CONFLICT DO NOTHING ----

  function Insert(store: Events, agentId: string, runId: string, e: MemoryEvent): Events {
    var key := EventKey(agentId, runId, e.seqNo);
    if key in store then store else store[key := e]
  }

  function InsertAll(store: Events, agentId: string, runId: string, es: seq<MemoryEvent>): Events {
    if es == [] then store
    else Insert(InsertAll(store, agentId, runId, es[..|es| - 1]), agentId, runId, es[|es| - 1])
  }

  lemma EmptyBatch(store: Events, agentId: string, runId: string)
    ensures InsertAll(store, agentId, runId, []) == store
  {
  }

  /** `executemany`, returning the number of rows actually inserted. */
  method AppendEvents(store: Events, agentId: string, runId: string, es: seq<MemoryEvent>)
    returns (store': Events, inserted: nat)
    ensures store' == InsertAll(store, agentId, runId, es)
    ensures |store'| == |store| + inserted
  {
    store', inserted := store, 0;
    for i := 0 to |es|
      invariant store' == InsertAll(store, agentId, runId, es[..i])
      invariant |store'| == |store| + inserted
    {
      var key := EventKey(agentId, runId, es[i].seqNo);
      assert es[..i + 1][..i] == es[..i];
      if key !in store' {
        store' := store'[key := es[i]];
        inserted := inserted + 1;
      }
    }
    assert es[..|es|] == es;
  }

  predicate HasSeq(es: seq<MemoryEvent>, seqNo: nat) {
    exists e | e in es :: e.seqNo == seqNo
  }

  lemma {:induction false} InsertAllKeys(store: Events, agentId: string, runId: string, es: seq<MemoryEvent>)
    ensures forall k :: k in InsertAll(store, agentId, runId, es) <==>
                        k in store || (k.agentId == agentId && k.runId == runId && HasSeq(es, k.seqNo))
    ensures forall k | k in store :: InsertAll(store, agentId, runId, es)[k] == store[k]
  {
    if es != [] {
      var p := |es| - 1;
      InsertAllKeys(store, agentId, runId, es[..p]);
      assert es == es[..p] + [es[p]];
    }
  }

  lemma {:induction false} NothingToInsert(store: Events, agentId: string, runId: string, es: seq<MemoryEvent>)
    requires forall e | e in es :: EventKey(agentId, runId, e.seqNo) in store
    ensures InsertAll(store, agentId, runId, es) == store
  {
    if es != [] {
      NothingToInsert(store, agentId, runId, es[..|es| - 1]);
    }
  }

  /** Re-sending a writeback within one attempt adds nothing. */
  lemma ResendAddsNothing(store: Events, agentId: string, runId: string, es: seq<MemoryEvent>)
    ensures var once := InsertAll(store, agentId, runId, es);
            InsertAll(once, agentId, runId, es) == once
  {
    InsertAllKeys(store, agentId, runId, es);
    NothingToInsert(InsertAll(store, agentId, runId, es), agentId, runId, es);
  }

  ghost predicate DistinctSeqs(es: seq<MemoryEvent>) {
    forall i, j | 0 <= i < j < |es| :: es[i].seqNo != es[j].seqNo
  }

  ghost predicate AttemptUnseen(store: Events, agentId: string, runId: string) {
    forall k | k in store :: !(k.agentId == agentId && k.runId == runId)
  }

  ghost predicate Stored(store: Events, agentId: string, runId: string, e: MemoryEvent) {
    var k := EventKey(agentId, runId, e.seqNo);
    k in store && store[k] == e
  }

  lemma InsertNew(store: Events, agentId: string, runId: string, es: seq<MemoryEvent>)
    requires es != [] && AttemptUnseen(store, agentId, runId) && !HasSeq(es[..|es| - 1], es[|es| - 1].seqNo)
    ensures var last := es[|es| - 1];
            var before := InsertAll(store, agentId, runId, es[..|es| - 1]);
            && EventKey(agentId, runId, last.seqNo) !in before
            && InsertAll(store, agentId, runId, es) == before[EventKey(agentId, runId, last.seqNo) := last]
  {
    InsertAllKeys(store, agentId, runId, es[..|es| - 1]);
  }

  lemma {:induction false} UnseenAttemptKeepsAll(store: Events, agentId: string, runId: string, es: seq<MemoryEvent>)
    requires AttemptUnseen(store, agentId, runId) && DistinctSeqs(es)
    ensures forall e | e in es :: Stored(InsertAll(store, agentId, runId, es), agentId, runId, e)
    ensures |InsertAll(store, agentId, runId, es)| == |store| + |es|
  {
    if es != [] {
      var before, last := es[..|es| - 1], es[|es| - 1];
      assert !HasSeq(before, last.seqNo);
      InsertNew(store, agentId, runId, es);
      UnseenAttemptKeepsAll(store, agentId, runId, before);
      forall e | e in es ensures Stored(InsertAll(store, agentId, runId, es), agentId, runId, e) {
        if e != last {
          assert e in before;
          assert Stored(InsertAll(store, agentId, runId, before), agentId, runId, e);
          assert e.seqNo != last.seqNo;
        }
      }
    }
  }

  // ---- whole histories of attempts ----

  /** One attempt's batch, as the gate persists it. */
  datatype Batch = Batch(agentId: string, sourceRunId: string, attemptToken: string, events: seq<MemoryEvent>)
  {
    function RunId(): string { EventScopedRunId(sourceRunId, attemptToken) }
  }

  function EventsAfter(h: seq<Batch>, n: nat): Events
    requires n <= |h|
  {
    if n == 0 then map[] else InsertAll(EventsAfter(h, n - 1), h[n - 1].agentId, h[n - 1].RunId(), h[n - 1].events)
  }

  predicate SameAttempt(a: Batch, b: Batch) {
    a.agentId == b.agentId && a.sourceRunId == b.sourceRunId && a.attemptToken == b.attemptToken
  }

  /** Tokens are free of `#`, a batch numbers its events apart, and an attempt sends no other batch than its own again. */
  ghost predicate Orderly(h: seq<Batch>) {
    && (forall i | 0 <= i < |h| :: '#' !in h[i].attemptToken && DistinctSeqs(h[i].events))
    && (forall i, j | 0 <= i < j < |h| && SameAttempt(h[i], h[j]) :: h[i].events == h[j].events)
  }

  ghost predicate SentBy(h: seq<Batch>, i: nat, k: EventKey) {
    i < |h| && h[i].agentId == k.agentId && h[i].RunId() == k.runId && HasSeq(h[i].events, k.seqNo)
  }

  lemma {:induction false} EveryRowWasSent(h: seq<Batch>, n: nat, k: EventKey)
    requires n <= |h| && k in EventsAfter(h, n)
    ensures exists i: nat :: i < n && SentBy(h, i, k)
  {
    if n > 0 {
      var b := h[n - 1];
      InsertAllKeys(EventsAfter(h, n - 1), b.agentId, b.RunId(), b.events);
      if k in EventsAfter(h, n - 1) {
        EveryRowWasSent(h, n - 1, k);
      } else {
        assert SentBy(h, n - 1, k);
      }
    }
  }

  lemma NewAttemptIsUnseen(h: seq<Batch>, n: nat)
    requires n < |h| && Orderly(h) && forall i | 0 <= i < n :: !SameAttempt(h[i], h[n])
    ensures AttemptUnseen(EventsAfter(h, n), h[n].agentId, h[n].RunId())
  {
    forall k | k in EventsAfter(h, n) ensures !(k.agentId == h[n].agentId && k.runId == h[n].RunId()) {
      EveryRowWasSent(h, n, k);
      var i: nat :| i < n && SentBy(h, i, k);
      ScopedIdsNeverCollide(h[i].sourceRunId, h[i].attemptToken, h[n].sourceRunId, h[n].attemptToken);
      assert !SameAttempt(h[i], h[n]);
    }
  }

  /**
   Over any history of attempts, under any keys, `#` included: re-sent or re-executed, every event of every attempt is
   in the table, dropped against no other attempt's rows.
   */
  lemma {:induction false} ReexecutionKeepsAllEvents(h: seq<Batch>, n: nat, i: nat, e: MemoryEvent)
    requires Orderly(h) && i < n <= |h| && e in h[i].events
    ensures Stored(EventsAfter(h, n), h[i].agentId, h[i].RunId(), e)
    decreases n
  {
    var b, before := h[n - 1], EventsAfter(h, n - 1);
    InsertAllKeys(before, b.agentId, b.RunId(), b.events);
    if i < n - 1 {
      ReexecutionKeepsAllEvents(h, n - 1, i, e);
    } else if j :| 0 <= j < n - 1 && SameAttempt(h[j], b) {
      ReexecutionKeepsAllEvents(h, n - 1, j, e);
    } else {
      NewAttemptIsUnseen(h, n - 1);
      UnseenAttemptKeepsAll(before, b.agentId, b.RunId(), b.events);
    }
  }

  ghost predicate SentIn(h: seq<Batch>, i: nat, agentId: string, sourceRunId: string, attemptToken: string, e: MemoryEvent) {
    i < |h| && SameAttempt(h[i], Batch(agentId, sourceRunId, attemptToken, [])) && e in h[i].events
  }

  /** The table holds an event under an attempt exactly when that attempt sent it. */
  lemma EventStoredExactlyWhenSent(h: seq<Batch>, n: nat, agentId: string, sourceRunId: string, attemptToken: string,
                                   e: MemoryEvent)
    requires Orderly(h) && n <= |h| && '#' !in attemptToken
    ensures Stored(EventsAfter(h, n), agentId, EventScopedRunId(sourceRunId, attemptToken), e)
            <==> exists i: nat :: i < n && SentIn(h, i, agentId, sourceRunId, attemptToken, e)
  {
    if Stored(EventsAfter(h, n), agentId, EventScopedRunId(sourceRunId, attemptToken), e) {
      var k := EventKey(agentId, EventScopedRunId(sourceRunId, attemptToken), e.seqNo);
      EveryRowWasSent(h, n, k);
      var i: nat :| i < n && SentBy(h, i, k);
      ScopedIdsNeverCollide(h[i].sourceRunId, h[i].attemptToken, sourceRunId, attemptToken);
      var e' :| e' in h[i].events && e'.seqNo == e.seqNo;
      ReexecutionKeepsAllEvents(h, n, i, e');
      assert SentIn(h, i, agentId, sourceRunId, attemptToken, e);
    }
    if i: nat :| i < n && SentIn(h, i, agentId, sourceRunId, attemptToken, e) {
      ReexecutionKeepsAllEvents(h, n, i, e);
    }
  }

  // ---- the audit events of a blocked or failed run ----

  /** One tool-call event per well-formed audit entry, numbered by its position in the audit. */
  function AuditEvents(raw: seq<Json>, wellFormed: Json -> bool): (es: seq<MemoryEvent>)
    ensures |es| <= |raw|
    ensures forall e | e in es :: e.seqNo < |raw|
  {
    if raw == [] then []
    else
      var p := |raw| - 1;
      var es := AuditEvents(raw[..p], wellFormed);
      if wellFormed(raw[p]) then es + [MemoryEvent(ToolCallEvent, p, raw[p])] else es
  }

  lemma {:induction false} AuditEventsAreThePositions(raw: seq<Json>, wellFormed: Json -> bool)
    ensures forall s: nat :: HasSeq(AuditEvents(raw, wellFormed), s) <==> s < |raw| && wellFormed(raw[s])
    ensures forall e | e in AuditEvents(raw, wellFormed) :: e.seqNo < |raw| && e.payload == raw[e.seqNo]
    ensures DistinctSeqs(AuditEvents(raw, wellFormed))
  {
    if raw != [] {
      var p := |raw| - 1;
      var es := AuditEvents(raw[..p], wellFormed);
      AuditEventsAreThePositions(raw[..p], wellFormed);
      if wellFormed(raw[p]) {
        var last := MemoryEvent(ToolCallEvent, p, raw[p]);
        assert AuditEvents(raw, wellFormed) == es + [last];
        forall s: nat
          ensures HasSeq(es + [last], s) <==> s < |raw| && wellFormed(raw[s])
        {
          assert last in es + [last];
          assert forall e :: e in es + [last] <==> e in es || e == last;
        }
      }
    }
  }

  /** The events of a block: the audit, then the block event numbered by the audit's length. */
  function BlockEvents(audit: seq<MemoryEvent>, block: Json): seq<MemoryEvent> {
    audit + [MemoryEvent(ErrorEvent, |audit|, block)]
  }

  lemma {:induction false} CleanAuditIsContiguous(raw: seq<Json>, wellFormed: Json -> bool)
    requires forall j | j in raw :: wellFormed(j)
    ensures |AuditEvents(raw, wellFormed)| == |raw|
    ensures forall i | 0 <= i < |raw| :: AuditEvents(raw, wellFormed)[i].seqNo == i
  {
    if raw != [] {
      CleanAuditIsContiguous(raw[..|raw| - 1], wellFormed);
    }
  }

  /** When every audit entry is well formed, a block's events are numbered 0, 1, ..., n. */
  lemma BlockSequenceContiguous(raw: seq<Json>, wellFormed: Json -> bool, block: Json)
    requires forall j | j in raw :: wellFormed(j)
    ensures var es := BlockEvents(AuditEvents(raw, wellFormed), block);
            |es| == |raw| + 1 && forall i | 0 <= i < |es| :: es[i].seqNo == i
  {
    CleanAuditIsContiguous(raw, wellFormed);
  }

  /** The malformed entries are dropped but still counted in the positions of the later ones. */
  predicate BlockNumberTaken(raw: seq<Json>, wellFormed: Json -> bool) {
    var kept := |AuditEvents(raw, wellFormed)|;
    kept < |raw| && wellFormed(raw[kept])
  }

  /**
   The block event of a new attempt is stored exactly when no well-formed audit entry sits at the
   position equal to the number of well-formed entries; otherwise the table silently ignores it.
   */
  lemma BlockEventStoredExactlyWhen(store: Events, agentId: string, runId: string,
                                    raw: seq<Json>, wellFormed: Json -> bool, block: Json)
    requires AttemptUnseen(store, agentId, runId)
    ensures var audit := AuditEvents(raw, wellFormed);
            Stored(InsertAll(store, agentId, runId, BlockEvents(audit, block)), agentId, runId,
                   MemoryEvent(ErrorEvent, |audit|, block))
            <==> !BlockNumberTaken(raw, wellFormed)
  {
    var audit := AuditEvents(raw, wellFormed);
    var es := BlockEvents(audit, block);
    assert es[..|es| - 1] == audit;
    AuditEventsAreThePositions(raw, wellFormed);
    InsertAllKeys(store, agentId, runId, audit);
    OnlyAuditKinds(raw, wellFormed);
    InsertedValues(store, agentId, runId, audit);
  }

  lemma {:induction false} OnlyAuditKinds(raw: seq<Json>, wellFormed: Json -> bool)
    ensures forall e | e in AuditEvents(raw, wellFormed) :: e.kind == ToolCallEvent
  {
    if raw != [] {
      OnlyAuditKinds(raw[..|raw| - 1], wellFormed);
    }
  }

  lemma {:induction false} InsertedValues(store: Events, agentId: string, runId: string, es: seq<MemoryEvent>)
    ensures forall k | k in InsertAll(store, agentId, runId, es) && k !in store :: InsertAll(store, agentId, runId, es)[k] in es
  {
    if es != [] {
      InsertedValues(store, agentId, runId, es[..|es| - 1]);
      assert es == es[..|es| - 1] + [es[|es| - 1]];
    }
  }

  /** The failing case: one malformed entry between two good ones loses the block event. */
  lemma SkippedEntryLosesBlockEvent(agentId: string, runId: string, block: Json)
    ensures var raw := [Int(0), Null, Int(2)];
            var audit := AuditEvents(raw, (j: Json) => j.Int?);
            !Stored(InsertAll(map[], agentId, runId, BlockEvents(audit, block)), agentId, runId,
                    MemoryEvent(ErrorEvent, |audit|, block))
  {
    var wellFormed := (j: Json) => j.Int?;
    var raw := [Int(0), Null, Int(2)];
    assert raw[..2] == [Int(0), Null] && raw[..2][..1] == [Int(0)];
    assert AuditEvents([Int(0)], wellFormed) == [MemoryEvent(ToolCallEvent, 0, Int(0))];
    assert AuditEvents([Int(0), Null], wellFormed) == [MemoryEvent(ToolCallEvent, 0, Int(0))];
    assert |AuditEvents(raw, wellFormed)| == 2;
    BlockEventStoredExactlyWhen(map[], agentId, runId, raw, wellFormed, block);
  }
}
