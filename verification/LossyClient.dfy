/** The retrying HTTP client, over a network that loses responses and delays requests. */
module LossyClient {
  import opened Wrappers
  import opened JsonValues
  import opened JobStore
  import opened JobHistories

  datatype Method = GET | HEAD | OPTIONS | PUT | DELETE | POST | PATCH

  /** Methods whose replay cannot duplicate an effect (section 9.2.2 of RFC 9110). */
  predicate Idempotent(m: Method) {
    m != POST && m != PATCH
  }

  /** When a request whose exchange failed midway reaches the server. */
  datatype Arrival = Never | AlreadyServed | MaybeLater

  datatype Fate =
    | NotSent                      // ConnectError, ConnectTimeout, PoolTimeout
    | Ambiguous(arrival: Arrival)  // Read/Write timeouts and errors, RemoteProtocolError
    | StatusError(served: bool)    // HTTPStatusError
    | Response                     // 2xx

  /** What happens at the server between this client's attempts. */
  datatype Event =
    | Other(op: Op, now: int)      // a call of somebody else
    | LateArrival(now: int)        // a delayed copy of this call's request, if one is in flight

  datatype Attempt = Attempt(before: seq<Event>, now: int, fate: Fate)

  datatype Net = Net(jobs: Jobs,
                     own: seq<Answer>,           // the server's answers to this call's request, one per execution
                     others: seq<(Op, Answer)>,  // the other calls it executed meanwhile
                     inFlight: nat,              // delayed copies that may still arrive
                     ambiguous: bool)            // the retry tracker

  function Start(jobs: Jobs): Net {
    Net(jobs, [], [], 0, false)
  }

  datatype Reply = Returned(answer: Answer) | RaisedTransport | RaisedStatus

  function Serve(n: Net, op: Op, now: int): Net {
    var (after, answer) := Apply(n.jobs, op, now);
    n.(jobs := after, own := n.own + [answer])
  }

  function Happen(n: Net, op: Op, e: Event): Net {
    match e
    case Other(other, now) =>
      var (after, answer) := Apply(n.jobs, other, now);
      n.(jobs := after, others := n.others + [(other, answer)])
    case LateArrival(now) => if n.inFlight > 0 then Serve(n.(inFlight := n.inFlight - 1), op, now) else n
  }

  function HappenAll(n: Net, op: Op, es: seq<Event>): Net {
    if es == [] then n else Happen(HappenAll(n, op, es[..|es| - 1]), op, es[|es| - 1])
  }

  /** The effect of one attempt's fate at the server. */
  function Exchange(n: Net, op: Op, a: Attempt): Net {
    match a.fate
    case NotSent => n
    case Ambiguous(arrival) =>
      var m := n.(ambiguous := true);
      (match arrival
       case Never => m
       case AlreadyServed => Serve(m, op, a.now)
       case MaybeLater => m.(inFlight := m.inFlight + 1))
    case StatusError(served) => if served then Serve(n, op, a.now) else n
    case Response => Serve(n, op, a.now)
  }

  predicate Retried(m: Method, fate: Fate) {
    fate.NotSent? || (fate.Ambiguous? && Idempotent(m))
  }

  function Raised(fate: Fate): Reply {
    if fate.StatusError? then RaisedStatus else RaisedTransport
  }

  /** The whole call: `script` says what befalls each of the `max_retries + 1` attempts. */
  function Request(n: Net, m: Method, op: Op, script: seq<Attempt>): (Net, Reply)
    requires script != []
    decreases |script|
  {
    var after := Exchange(HappenAll(n, op, script[0].before), op, script[0]);
    if script[0].fate.Response? then (after, Returned(after.own[|after.own| - 1]))
    else if Retried(m, script[0].fate) && |script| > 1 then Request(after, m, op, script[1..])
    else (after, Raised(script[0].fate))
  }

  class Channel {
    var net: Net

    constructor (jobs: Jobs)
      ensures net == Start(jobs)
    {
      net := Start(jobs);
    }

    method Surround(op: Op, es: seq<Event>)
      modifies this
      ensures net == HappenAll(old(net), op, es)
    {
      for i := 0 to |es|
        invariant net == HappenAll(old(net), op, es[..i])
      {
        assert es[..i + 1][..i] == es[..i];
        net := Happen(net, op, es[i]);
      }
      assert es[..|es|] == es;
    }

    /** The retry loop. */
    method Send(m: Method, op: Op, maxRetries: nat, script: seq<Attempt>) returns (reply: Reply)
      requires |script| == maxRetries + 1
      modifies this
      ensures (net, reply) == Request(old(net), m, op, script)
    {
      hide Apply, HappenAll;
      var totalAttempts := maxRetries + 1;
      var idempotent := m in {GET, HEAD, OPTIONS, PUT, DELETE};
      reply := RaisedTransport;
      for attempt := 0 to totalAttempts
        invariant attempt < totalAttempts ==> Request(net, m, op, script[attempt..]) == Request(old(net), m, op, script)
        invariant attempt == totalAttempts ==> (net, reply) == Request(old(net), m, op, script)
      {
        assert script[attempt..][1..] == script[attempt + 1..];
        Surround(op, script[attempt].before);
        net := Exchange(net, op, script[attempt]);
        match script[attempt].fate {
          case Response =>
            return Returned(net.own[|net.own| - 1]);
          case NotSent =>
            reply := RaisedTransport;
            if attempt < maxRetries {
              continue;
            }
            return;
          case Ambiguous(_) =>
            reply := RaisedTransport;
            if idempotent && attempt < maxRetries {
              continue;
            }
            return;
          case StatusError(_) =>
            return RaisedStatus;
        }
      }
    }

    method DeleteJob(k: JobKey, script: seq<Attempt>) returns (r: Result<bool, Reply>)
      requires |script| == 4 && net == Start(net.jobs)
      modifies this
      ensures (net, r) == Delete(old(net.jobs), k, script)
    {
      var reply := Send(DELETE, Op.DeleteJob(k), 3, script);
      if !reply.Returned? {
        return Err(reply);
      }
      var deleted := reply.answer == YesNo(true);
      return Ok(deleted || net.ambiguous);
    }
  }

  function Delete(jobs: Jobs, k: JobKey, script: seq<Attempt>): (Net, Result<bool, Reply>)
    requires script != []
  {
    var (n, reply) := Request(Start(jobs), DELETE, Op.DeleteJob(k), script);
    (n, if reply.Returned? then Ok(reply.answer == YesNo(true) || n.ambiguous) else Err(reply))
  }

  // ---- non-idempotent calls: at most once ----

  function Copies(n: Net): nat {
    |n.own| + n.inFlight
  }

  lemma {:induction false} HappenKeepsCopies(n: Net, op: Op, es: seq<Event>)
    ensures Copies(HappenAll(n, op, es)) == Copies(n)
    ensures n.inFlight == 0 ==> HappenAll(n, op, es).own == n.own && HappenAll(n, op, es).inFlight == 0
    ensures HappenAll(n, op, es).ambiguous == n.ambiguous
  {
    hide Apply;
    if es != [] {
      HappenKeepsCopies(n, op, es[..|es| - 1]);
    }
  }

  lemma ExchangeCopies(n: Net, op: Op, a: Attempt)
    ensures a.fate.NotSent? ==> Exchange(n, op, a) == n
    ensures Copies(Exchange(n, op, a)) <= Copies(n) + 1
    ensures a.fate.Ambiguous? ==> Exchange(n, op, a).ambiguous
    ensures a.fate.Response? ==> var m := Exchange(n, op, a);
                                 && |m.own| == |n.own| + 1 && m.own[..|n.own|] == n.own
                                 && m.inFlight == n.inFlight && m.ambiguous == n.ambiguous
  {
    hide Apply;
  }

  /**
   A POST takes effect at most once, under every sequence of transport outcomes, counting copies that
   may still be in flight; exactly once when the call returns; and not at all when no attempt was sent.
   */
  lemma {:induction false} NonIdempotentAtMostOnce(n: Net, m: Method, op: Op, script: seq<Attempt>)
    requires script != [] && !Idempotent(m) && n.own == [] && n.inFlight == 0 && !n.ambiguous
    ensures var (after, reply) := Request(n, m, op, script);
            && Copies(after) <= 1
            && (reply.Returned? ==> after.own == [reply.answer] && after.inFlight == 0 && !after.ambiguous)
            && (reply.RaisedTransport? && !after.ambiguous ==> Copies(after) == 0)
    decreases |script|
  {
    hide HappenAll, Exchange;
    HappenKeepsCopies(n, op, script[0].before);
    var before := HappenAll(n, op, script[0].before);
    ExchangeCopies(before, op, script[0]);
    if script[0].fate.NotSent? && |script| > 1 {
      NonIdempotentAtMostOnce(before, m, op, script[1..]);
    }
  }

  // ---- when the call goes on, and what it answers ----

  /** The client tries again after a connection that was never made, and after a lost exchange when a replay is harmless. */
  predicate GoesOn(m: Method, fate: Fate) {
    fate.NotSent? || (fate.Ambiguous? && m in {GET, HEAD, OPTIONS, PUT, DELETE})
  }

  /** Attempt `i` is made. */
  ghost predicate Reached(m: Method, script: seq<Attempt>, i: nat) {
    i < |script| && forall j | 0 <= j < i :: GoesOn(m, script[j].fate)
  }

  lemma ReachedLater(m: Method, script: seq<Attempt>, i: nat)
    requires script != []
    ensures Reached(m, script, i + 1) <==> GoesOn(m, script[0].fate) && Reached(m, script[1..], i)
    ensures Reached(m, script, i + 1) ==> script[i + 1] == script[1..][i]
  {
    if GoesOn(m, script[0].fate) && Reached(m, script[1..], i) {
      assert forall j | 0 < j < i + 1 :: script[j] == script[1..][j - 1];
    }
    if Reached(m, script, i + 1) {
      assert forall j | 0 <= j < i :: script[1..][j] == script[j + 1];
    }
  }

  ghost predicate ReturnsAt(m: Method, script: seq<Attempt>, i: nat) {
    Reached(m, script, i) && script[i].fate.Response?
  }

  ghost predicate RefusedAt(m: Method, script: seq<Attempt>, i: nat) {
    Reached(m, script, i) && script[i].fate.StatusError?
  }

  ghost predicate LostAt(m: Method, script: seq<Attempt>, i: nat) {
    Reached(m, script, i) && script[i].fate.Ambiguous?
  }

  lemma AttemptsShift(m: Method, script: seq<Attempt>)
    requires |script| > 1 && GoesOn(m, script[0].fate)
    ensures (exists i: nat :: ReturnsAt(m, script, i)) <==> exists i: nat :: ReturnsAt(m, script[1..], i)
    ensures (exists i: nat :: RefusedAt(m, script, i)) <==> exists i: nat :: RefusedAt(m, script[1..], i)
    ensures (exists i: nat :: LostAt(m, script, i)) <==> LostAt(m, script, 0) || exists i: nat :: LostAt(m, script[1..], i)
  {
    hide Reached, GoesOn;
    var rest := script[1..];
    forall i: nat
      ensures ReturnsAt(m, script, i + 1) <==> ReturnsAt(m, rest, i)
      ensures RefusedAt(m, script, i + 1) <==> RefusedAt(m, rest, i)
      ensures LostAt(m, script, i + 1) <==> LostAt(m, rest, i)
    {
      ReachedLater(m, script, i);
      ReachedIsAnAttempt(m, rest, i);
    }
    FirstGoesOn(m, script);
    if i: nat :| ReturnsAt(m, script, i) { assert ReturnsAt(m, rest, i - 1); }
    if i: nat :| RefusedAt(m, script, i) { assert RefusedAt(m, rest, i - 1); }
    if i: nat :| LostAt(m, script, i) && i > 0 { assert LostAt(m, rest, i - 1); }
  }

  lemma ReachedIsAnAttempt(m: Method, script: seq<Attempt>, i: nat)
    ensures Reached(m, script, i) ==> i < |script|
  {
  }

  lemma FirstGoesOn(m: Method, script: seq<Attempt>)
    requires script != [] && GoesOn(m, script[0].fate)
    ensures !ReturnsAt(m, script, 0) && !RefusedAt(m, script, 0)
  {
  }

  lemma OnlyTheFirst(m: Method, script: seq<Attempt>, i: nat)
    requires script != [] && (|script| == 1 || !GoesOn(m, script[0].fate)) && Reached(m, script, i)
    ensures i == 0
  {
  }

  /**
   The call returns exactly when some attempt gets a response and every earlier one is tried again; it raises a status
   error exactly when one gets that first; otherwise it raises the transport error. It notes an ambiguity exactly when an
   attempt it made was lost on the way.
   */
  lemma {:induction false} ReplyExactlyWhen(n: Net, m: Method, op: Op, script: seq<Attempt>)
    requires script != []
    ensures var (after, reply) := Request(n, m, op, script);
            && (reply.Returned? <==> exists i: nat :: ReturnsAt(m, script, i))
            && (reply.RaisedStatus? <==> exists i: nat :: RefusedAt(m, script, i))
            && (after.ambiguous <==> n.ambiguous || exists i: nat :: LostAt(m, script, i))
    decreases |script|
  {
    hide HappenAll, Exchange;
    var before := HappenAll(n, op, script[0].before);
    HappenKeepsCopies(n, op, script[0].before);
    ExchangeAmbiguity(before, op, script[0]);
    assert ReturnsAt(m, script, 0) <==> script[0].fate.Response?;
    assert RefusedAt(m, script, 0) <==> script[0].fate.StatusError?;
    assert LostAt(m, script, 0) <==> script[0].fate.Ambiguous?;
    if |script| > 1 && GoesOn(m, script[0].fate) {
      AttemptsShift(m, script);
      ReplyExactlyWhen(Exchange(before, op, script[0]), m, op, script[1..]);
    } else {
      forall i: nat | Reached(m, script, i) ensures i == 0 {
        OnlyTheFirst(m, script, i);
      }
    }
  }

  lemma ExchangeAmbiguity(n: Net, op: Op, a: Attempt)
    ensures Exchange(n, op, a).ambiguous <==> n.ambiguous || a.fate.Ambiguous?
  {
    hide Apply;
  }

  // ---- composed with the store: a counter incremented through the lossy network ----

  /** What another call added to counter `f` of `k`: the increments of a patch that went through. */
  function OtherAdds(call: (Op, Answer), k: JobKey, f: string): int {
    if call.0.ApplyPatch? && call.0.key == k && call.1.Record? then IncSum(call.0.patch.increment, f) else 0
  }

  function OthersTotal(calls: seq<(Op, Answer)>, k: JobKey, f: string): int {
    if calls == [] then 0 else OthersTotal(calls[..|calls| - 1], k, f) + OtherAdds(calls[|calls| - 1], k, f)
  }

  predicate OthersCount(es: seq<Event>, k: JobKey, f: string) {
    forall e | e in es :: e.Other? ==> OnlyCounts(e.op, k, f)
  }

  function IncrementField(k: JobKey, f: string, delta: int): Op {
    ApplyPatch(k, Patch(map[], [], [], [(f, delta)]))
  }

  /** The counter is what it was, plus the others' increments, plus one delta per execution of ours. */
  ghost predicate Balanced(start: Jobs, n: Net, k: JobKey, f: string, delta: int) {
    && k in start && k in n.jobs && NotFloat(n.jobs[k].data, f)
    && Num(n.jobs[k].data, f) == Num(start[k].data, f) + OthersTotal(n.others, k, f) + |n.own| * delta
  }

  lemma IncrementServed(start: Jobs, n: Net, k: JobKey, f: string, delta: int, now: int)
    requires Balanced(start, n, k, f, delta) && f != ACTIVITY && f != "status"
    ensures Balanced(start, Serve(n, IncrementField(k, f, delta), now), k, f, delta)
  {
    var op := IncrementField(k, f, delta);
    var items := op.patch.increment;
    assert items[..0] == [];
    assert IncSum(items, f) == IncSum([], f) + delta;
    CounterStep(n.jobs, op, now, k, f);
    assert (|n.own| + 1) * delta == |n.own| * delta + delta;
  }

  lemma OtherServed(start: Jobs, n: Net, k: JobKey, f: string, delta: int, op: Op, now: int)
    requires Balanced(start, n, k, f, delta) && f != ACTIVITY && f != "status" && OnlyCounts(op, k, f)
    ensures Balanced(start, Happen(n, IncrementField(k, f, delta), Other(op, now)), k, f, delta)
  {
    CounterStep(n.jobs, op, now, k, f);
    var call := (op, Apply(n.jobs, op, now).1);
    assert (n.others + [call])[..|n.others|] == n.others;
  }

  lemma {:induction false} EventsBalanced(start: Jobs, n: Net, k: JobKey, f: string, delta: int, es: seq<Event>)
    requires Balanced(start, n, k, f, delta) && f != ACTIVITY && f != "status" && OthersCount(es, k, f)
    ensures Balanced(start, HappenAll(n, IncrementField(k, f, delta), es), k, f, delta)
  {
    if es != [] {
      var e, op := es[|es| - 1], IncrementField(k, f, delta);
      assert e in es;
      EventsBalanced(start, n, k, f, delta, es[..|es| - 1]);
      var before := HappenAll(n, op, es[..|es| - 1]);
      match e {
        case Other(other, now) => OtherServed(start, before, k, f, delta, other, now);
        case LateArrival(now) =>
          if before.inFlight > 0 {
            IncrementServed(start, before.(inFlight := before.inFlight - 1), k, f, delta, now);
          }
      }
    }
  }

  lemma {:induction false} RequestBalanced(start: Jobs, n: Net, m: Method, k: JobKey, f: string, delta: int, script: seq<Attempt>)
    requires script != [] && Balanced(start, n, k, f, delta) && f != ACTIVITY && f != "status"
    requires forall a | a in script :: OthersCount(a.before, k, f)
    ensures Balanced(start, Request(n, m, IncrementField(k, f, delta), script).0, k, f, delta)
    decreases |script|
  {
    hide Apply;
    var op, a := IncrementField(k, f, delta), script[0];
    EventsBalanced(start, n, k, f, delta, a.before);
    var before := HappenAll(n, op, a.before);
    IncrementServed(start, before, k, f, delta, a.now);
    IncrementServed(start, before.(ambiguous := true), k, f, delta, a.now);
    if Retried(m, a.fate) && |script| > 1 {
      RequestBalanced(start, Exchange(before, op, a), m, k, f, delta, script[1..]);
    }
  }

  /** A POST increment through the lossy network: applied once when the call returns, never twice. */
  lemma IncrementExactlyOnce(jobs: Jobs, k: JobKey, f: string, delta: int, script: seq<Attempt>)
    requires script != [] && k in jobs && NotFloat(jobs[k].data, f) && f != ACTIVITY && f != "status"
    requires forall a | a in script :: OthersCount(a.before, k, f)
    ensures var (n, reply) := Request(Start(jobs), POST, IncrementField(k, f, delta), script);
            && k in n.jobs
            && var gained := Num(n.jobs[k].data, f) - Num(jobs[k].data, f) - OthersTotal(n.others, k, f);
               && (gained == 0 || gained == delta)
               && (reply.Returned? ==> gained == delta && n.inFlight == 0)
               && (reply.RaisedTransport? && !n.ambiguous ==> gained == 0)
  {
    hide Apply;
    RequestBalanced(jobs, Start(jobs), POST, k, f, delta, script);
    NonIdempotentAtMostOnce(Start(jobs), POST, IncrementField(k, f, delta), script);
    var n := Request(Start(jobs), POST, IncrementField(k, f, delta), script).0;
    assert |n.own| == 0 || |n.own| == 1;
  }

  // ---- DELETE ----

  lemma {:induction false} ReturnServesLast(n: Net, m: Method, op: Op, script: seq<Attempt>)
    requires script != []
    ensures var (after, reply) := Request(n, m, op, script);
            reply.Returned? ==> exists before: Net, now: int ::
                                  after == Serve(before, op, now) && reply.answer == Apply(before.jobs, op, now).1
    decreases |script|
  {
    hide Apply;
    var before := HappenAll(n, op, script[0].before);
    if script[0].fate.Response? {
      assert Exchange(before, op, script[0]) == Serve(before, op, script[0].now);
    } else if Retried(m, script[0].fate) && |script| > 1 {
      ReturnServesLast(Exchange(before, op, script[0]), m, op, script[1..]);
    }
  }

  lemma {:induction false} UnambiguousServesOnce(n: Net, m: Method, op: Op, script: seq<Attempt>)
    requires script != [] && n.own == [] && n.inFlight == 0 && !n.ambiguous
    ensures var (after, reply) := Request(n, m, op, script);
            reply.Returned? && !after.ambiguous ==> after.own == [reply.answer] && after.inFlight == 0
    decreases |script|
  {
    hide Apply;
    HappenKeepsCopies(n, op, script[0].before);
    var before := HappenAll(n, op, script[0].before);
    var after := Exchange(before, op, script[0]);
    if Retried(m, script[0].fate) && |script| > 1 {
      if script[0].fate.NotSent? {
        UnambiguousServesOnce(after, m, op, script[1..]);
      } else {
        StaysAmbiguous(after, m, op, script[1..]);
      }
    }
  }

  lemma ExchangeStaysAmbiguous(n: Net, op: Op, a: Attempt)
    requires n.ambiguous
    ensures Exchange(n, op, a).ambiguous
  {
    hide Apply;
  }

  lemma {:induction false} StaysAmbiguous(n: Net, m: Method, op: Op, script: seq<Attempt>)
    requires script != [] && n.ambiguous
    ensures Request(n, m, op, script).0.ambiguous
    decreases |script|
  {
    hide HappenAll, Exchange;
    HappenKeepsCopies(n, op, script[0].before);
    ExchangeStaysAmbiguous(HappenAll(n, op, script[0].before), op, script[0]);
    if Retried(m, script[0].fate) && |script| > 1 {
      StaysAmbiguous(Exchange(HappenAll(n, op, script[0].before), op, script[0]), m, op, script[1..]);
    }
  }

  /** When a delete returns, the row is gone; `False` means no attempt of the call removed it. */
  lemma DeleteReturns(jobs: Jobs, k: JobKey, script: seq<Attempt>)
    requires script != []
    ensures var (n, r) := Delete(jobs, k, script);
            && (r.Ok? ==> k !in n.jobs)
            && (r == Ok(false) ==> n.own == [YesNo(false)] && n.inFlight == 0)
            && (r == Ok(true) && !n.ambiguous ==> n.own == [YesNo(true)])
  {
    ReturnServesLast(Start(jobs), DELETE, DeleteJob(k), script);
    UnambiguousServesOnce(Start(jobs), DELETE, DeleteJob(k), script);
  }

  /**
   A delete answers exactly when an attempt gets a response after retried ones, and then `True` exactly when the row was
   there for that attempt or an earlier one was lost on the way.
   */
  lemma DeleteAnswersExactlyWhen(jobs: Jobs, k: JobKey, script: seq<Attempt>)
    requires script != []
    ensures var (n, r) := Delete(jobs, k, script);
            && (r.Ok? <==> exists i: nat :: ReturnsAt(DELETE, script, i))
            && (r.Ok? ==> n.own != [])
            && (r.Ok? ==> (r.value <==> (n.own[|n.own| - 1] == YesNo(true) || exists i: nat :: LostAt(DELETE, script, i))))
            && (r.Err? ==> r.error == if exists i: nat :: RefusedAt(DELETE, script, i) then RaisedStatus else RaisedTransport)
  {
    ReplyExactlyWhen(Start(jobs), DELETE, DeleteJob(k), script);
    ReturnIsOwnLast(Start(jobs), DELETE, DeleteJob(k), script);
  }

  lemma {:induction false} ReturnIsOwnLast(n: Net, m: Method, op: Op, script: seq<Attempt>)
    requires script != []
    ensures var (after, reply) := Request(n, m, op, script);
            reply.Returned? ==> after.own != [] && reply.answer == after.own[|after.own| - 1]
    decreases |script|
  {
    hide HappenAll, Exchange;
    var before := HappenAll(n, op, script[0].before);
    ExchangeCopies(before, op, script[0]);
    if Retried(m, script[0].fate) && |script| > 1 {
      ReturnIsOwnLast(Exchange(before, op, script[0]), m, op, script[1..]);
    }
  }

  predicate NoOtherDeletes(es: seq<Event>, k: JobKey) {
    forall e | e in es :: e.Other? ==> e.op != DeleteJob(k)
  }

  lemma {:induction false} RowSurvivesOthers(n: Net, k: JobKey, es: seq<Event>)
    requires k in n.jobs && n.inFlight == 0 && NoOtherDeletes(es, k)
    ensures k in HappenAll(n, DeleteJob(k), es).jobs
  {
    if es != [] {
      HappenKeepsCopies(n, DeleteJob(k), es[..|es| - 1]);
      RowSurvivesOthers(n, k, es[..|es| - 1]);
      assert es[|es| - 1] in es;
    }
  }

  lemma {:induction false} DeleteFindsRow(n: Net, k: JobKey, script: seq<Attempt>)
    requires script != [] && k in n.jobs && n.inFlight == 0 && !n.ambiguous
    requires forall a | a in script :: NoOtherDeletes(a.before, k)
    ensures var (after, reply) := Request(n, DELETE, DeleteJob(k), script);
            reply.Returned? ==> reply.answer == YesNo(true) || after.ambiguous
    decreases |script|
  {
    RowSurvivesOthers(n, k, script[0].before);
    HappenKeepsCopies(n, DeleteJob(k), script[0].before);
    var after := Exchange(HappenAll(n, DeleteJob(k), script[0].before), DeleteJob(k), script[0]);
    if |script| > 1 && Retried(DELETE, script[0].fate) {
      if script[0].fate.NotSent? {
        DeleteFindsRow(after, k, script[1..]);
      } else {
        StaysAmbiguous(after, DELETE, DeleteJob(k), script[1..]);
      }
    }
  }

  /** With nobody else deleting it, a row that existed at the start is reported as deleted. */
  lemma DeleteReportsExistingRow(jobs: Jobs, k: JobKey, script: seq<Attempt>)
    requires script != [] && k in jobs
    requires forall a | a in script :: NoOtherDeletes(a.before, k)
    ensures var (n, r) := Delete(jobs, k, script); r.Ok? ==> r.value
  {
    DeleteFindsRow(Start(jobs), k, script);
  }

  /** The accepted limitation: a job that never existed, whose not-found answer was lost, is reported deleted. */
  lemma NeverExistedMayReportDeleted(k: JobKey)
    ensures var script := [Attempt([], 0, Ambiguous(AlreadyServed)), Attempt([], 1, Response)];
            var (n, r) := Delete(map[], k, script);
            r == Ok(true) && n.own == [YesNo(false), YesNo(false)]
  {
    var script := [Attempt([], 0, Ambiguous(AlreadyServed)), Attempt([], 1, Response)];
    var op := Op.DeleteJob(k);
    var n0 := Start(map[]);
    assert HappenAll(n0, op, []) == n0;
    var n1 := Exchange(n0, op, script[0]);
    assert n1 == Net(map[], [YesNo(false)], [], 0, true);
    assert HappenAll(n1, op, []) == n1;
    assert Exchange(n1, op, script[1]) == Net(map[], [YesNo(false), YesNo(false)], [], 0, true);
    assert script[1..] == [script[1]];
    assert Request(n1, DELETE, op, [script[1]]).1 == Returned(YesNo(false));
  }
}
