/**
 * The life of one refundId through every run in which no sweep evicts it,
 * whatever sweeps do to other records, and what a sweep that does can cause
 * (apps/backend/src/services/refund.service.ts).
 */
module RefundLife {
  import opened Prelude
  import opened Refund

  // ---------------------------------------------------------------- what holds of one refundId

  /** The call that won the insert, until the outcome of the refund is stored. */
  predicate InFlight(pc: Pc, id: string) {
    ((pc.Inserted? && pc.won) || pc.Executing?) && pc.record.refundId == id
  }

  predicate FreshRecord(hasExecutor: bool, r: ClaimedRefund) {
    if hasExecutor then VettedRecord(r) else r.status == Claimed && r.txHash == None && r.failureReason == None
  }

  predicate RecordOk(hasExecutor: bool, r: ClaimedRefund, id: string) {
    && r.refundId == id
    && (if hasExecutor then Payable(r) && r.status != Claimed else r.status == Claimed)
    && (r.txHash.Some? <==> r.status == Submitted)
    && (r.failureReason.Some? <==> r.status == Failed)
  }

  /** What a reply about `id` says of the stored record. */
  predicate ReplyOk(hasExecutor: bool, found: Option<ClaimedRefund>, reply: Reply, id: string) {
    match reply
    case Success(r) =>
      r.refundId == id ==> found == Some(r) && r.status == if hasExecutor then Submitted else Claimed
    case Failure(AlreadyClaimed(i, at)) =>
      i == id ==> found.Some? && at == Some(found.value.claimedAt)
    case Failure(ExecutionFailed(i, reason)) =>
      i == id ==> found.Some? && found.value.status == Failed && found.value.failureReason == Some(reason)
    case _ => true
  }

  predicate TaskOk(hasExecutor: bool, found: Option<ClaimedRefund>, pc: Pc, id: string) {
    match pc
    case Inserted(r, won) =>
      r.refundId == id ==> found.Some? && FreshRecord(hasExecutor, r) && (won ==> found == Some(r))
    case Executing(r) => r.refundId == id ==> hasExecutor && VettedRecord(r) && found == Some(r)
    case Reread(i, existing) =>
      i == id ==>
        && found.Some? && existing.Some? && existing.value.claimedAt == found.value.claimedAt
        && (existing.value.status == Failed ==> existing == found)
    case Rewritten(i, claimedAt) => i == id ==> found.Some? && claimedAt == found.value.claimedAt
    case Settled(reply) => ReplyOk(hasExecutor, found, reply, id)
    case Done(reply) => ReplyOk(hasExecutor, found, reply, id)
  }

  ghost predicate AllOk(hasExecutor: bool, found: Option<ClaimedRefund>, tasks: seq<Pc>, id: string) {
    forall t :: 0 <= t < |tasks| ==> TaskOk(hasExecutor, found, tasks[t], id)
  }

  ghost predicate OneInFlight(tasks: seq<Pc>, id: string) {
    forall t, u :: 0 <= t < |tasks| && 0 <= u < |tasks| && InFlight(tasks[t], id) && InFlight(tasks[u], id) ==> t == u
  }

  ghost predicate SomeInFlight(tasks: seq<Pc>, id: string) {
    exists t :: 0 <= t < |tasks| && InFlight(tasks[t], id)
  }

  /** What holds of `id` between steps, given its record and the calls. */
  ghost predicate Sound(hasExecutor: bool, found: Option<ClaimedRefund>, tasks: seq<Pc>, id: string) {
    && (found.Some? ==> RecordOk(hasExecutor, found.value, id))
    && AllOk(hasExecutor, found, tasks, id)
    && OneInFlight(tasks, id)
    && (found.Some? && found.value.status == Pending ==> SomeInFlight(tasks, id))
  }

  ghost predicate SoundAt(s: System, id: string) {
    Sound(s.hasExecutor, Lookup(s.store, id), s.tasks, id)
  }

  /** One step's effect on one record. */
  predicate LifeStep(s: System, e: Event, id: string)
    requires Legal(s, e)
  {
    var before := Lookup(s.store, id);
    var after := Lookup(Step(s, e).store, id);
    || after == before
    || (before.None? && e.Claim? && e.payload.refundId == id && after == Some(NewRecord(e.payload, e.now, s.hasExecutor)))
    || (before.Some? && before.value.status == Pending && e.ExecutorAnswer? && s.tasks[e.task] == Executing(before.value)
        && after == Some(SettledRecord(before.value, e.outcome)))
  }

  // ---------------------------------------------------------------- every step keeps it

  /** A call that does not win the insert of `id`. */
  lemma {:induction false} AppendSound(hasExecutor: bool, found: Option<ClaimedRefund>, tasks: seq<Pc>, pc: Pc, id: string)
    requires Sound(hasExecutor, found, tasks, id) && TaskOk(hasExecutor, found, pc, id) && !InFlight(pc, id)
    ensures Sound(hasExecutor, found, tasks + [pc], id)
  {
    var tasks' := tasks + [pc];
    if SomeInFlight(tasks, id) {
      var t :| 0 <= t < |tasks| && InFlight(tasks[t], id);
      assert InFlight(tasks'[t], id);
    }
  }

  /** The call that wins the insert of `id`. */
  lemma {:induction false} AdmitSound(hasExecutor: bool, tasks: seq<Pc>, r: ClaimedRefund, id: string)
    requires Sound(hasExecutor, None, tasks, id) && r.refundId == id && FreshRecord(hasExecutor, r)
    ensures Sound(hasExecutor, Some(r), tasks + [Inserted(r, true)], id)
  {
    var tasks' := tasks + [Inserted(r, true)];
    forall t | 0 <= t < |tasks| ensures TaskOk(hasExecutor, Some(r), tasks[t], id) && !InFlight(tasks[t], id) {
      assert TaskOk(hasExecutor, None, tasks[t], id);
    }
    assert InFlight(tasks'[|tasks|], id);
  }

  /** A call that moves on while the record of `id` stays. */
  lemma {:induction false} MoveSound(hasExecutor: bool, found: Option<ClaimedRefund>, tasks: seq<Pc>, t: nat, pc: Pc, id: string)
    requires Sound(hasExecutor, found, tasks, id) && t < |tasks| && TaskOk(hasExecutor, found, pc, id)
    requires InFlight(pc, id) ==> InFlight(tasks[t], id)
    requires InFlight(tasks[t], id) && !InFlight(pc, id) ==> found.Some? && found.value.status != Pending
    ensures Sound(hasExecutor, found, tasks[t := pc], id)
  {
    var tasks' := tasks[t := pc];
    assert forall u :: 0 <= u < |tasks| && InFlight(tasks'[u], id) ==> InFlight(tasks[u], id);
    if found.Some? && found.value.status == Pending {
      var u :| 0 <= u < |tasks| && InFlight(tasks[u], id);
      assert InFlight(tasks'[u], id);
    }
  }

  /** The record of `id` is settled by the one call in flight. */
  lemma {:induction false} SettleSound(hasExecutor: bool, tasks: seq<Pc>, t: nat, r: ClaimedRefund, o: Outcome, id: string)
    requires Sound(hasExecutor, Some(r), tasks, id) && t < |tasks| && tasks[t] == Executing(r) && r.refundId == id
    ensures Sound(hasExecutor, Some(SettledRecord(r, o)), tasks[t := Settled(SettledReply(r, o))], id)
  {
    var tasks' := tasks[t := Settled(SettledReply(r, o))];
    assert TaskOk(hasExecutor, Some(r), tasks[t], id) && InFlight(tasks[t], id);
    forall u | 0 <= u < |tasks| ensures TaskOk(hasExecutor, Some(SettledRecord(r, o)), tasks'[u], id) && !InFlight(tasks'[u], id) {
      if u != t {
        assert TaskOk(hasExecutor, Some(r), tasks[u], id) && !InFlight(tasks[u], id);
      }
    }
  }

  lemma {:induction false} BeginSound(s: System, p: Payload, now: int, id: string)
    requires SoundAt(s, id)
    ensures SoundAt(Begin(s, p, now), id) && LifeStep(s, Claim(p, now), id)
  {
    var found := Lookup(s.store, id);
    var r := NewRecord(p, now, s.hasExecutor);
    match PayloadError(p, s.hasExecutor)
    case Some(error) =>
      AppendSound(s.hasExecutor, found, s.tasks, Done(Failure(error)), id);
    case None =>
      if p.refundId in s.store {
        AppendSound(s.hasExecutor, found, s.tasks, Inserted(r, false), id);
      } else if p.refundId == id {
        AdmitSound(s.hasExecutor, s.tasks, r, id);
      } else {
        AppendSound(s.hasExecutor, found, s.tasks, Inserted(r, true), id);
      }
  }

  lemma {:induction false} ResumeSound(s: System, t: nat, id: string)
    requires SoundAt(s, id) && Legal(s, Resumption(t))
    ensures SoundAt(Resume(s, t), id) && Lookup(Resume(s, t).store, id) == Lookup(s.store, id)
  {
    var s' := Resume(s, t);
    var found := Lookup(s.store, id);
    assert TaskOk(s.hasExecutor, found, s.tasks[t], id);
    assert Lookup(s'.store, id) == found;
    MoveSound(s.hasExecutor, found, s.tasks, t, s'.tasks[t], id);
  }

  lemma {:induction false} AnswerSound(s: System, t: nat, o: Outcome, id: string)
    requires SoundAt(s, id) && Legal(s, ExecutorAnswer(t, o))
    ensures SoundAt(Answer(s, t, o), id) && LifeStep(s, ExecutorAnswer(t, o), id)
  {
    var r := s.tasks[t].record;
    var found := Lookup(s.store, id);
    assert TaskOk(s.hasExecutor, found, s.tasks[t], id);
    if r.refundId == id {
      SettleSound(s.hasExecutor, s.tasks, t, r, o, id);
    } else {
      MoveSound(s.hasExecutor, found, s.tasks, t, Settled(SettledReply(r, o)), id);
    }
  }

  lemma {:induction false} StepSound(s: System, e: Event, id: string)
    requires SoundAt(s, id) && Legal(s, e) && Evicted(s, e, id) == 0
    ensures SoundAt(Step(s, e), id) && LifeStep(s, e, id)
    ensures e.Resumption? ==> Lookup(Step(s, e).store, id) == Lookup(s.store, id)
    ensures Restored(s, e, id) == 0
  {
    match e
    case Claim(p, now) => BeginSound(s, p, now, id);
    case Resumption(t) => ResumeSound(s, t, id);
    case ExecutorAnswer(t, o) => AnswerSound(s, t, o, id);
    case Sweep(cutoff) =>
  }

  lemma {:induction false} RunSound(s: System, es: seq<Event>, id: string)
    requires SoundAt(s, id) && Schedule(s, es) && Evictions(s, es, id) == 0
    ensures SoundAt(Run(s, es), id) && Run(s, es).hasExecutor == s.hasExecutor
    ensures Restorations(s, es, id) == 0
    decreases |es|
  {
    if es != [] {
      StepSound(s, es[0], id);
      RunSound(Step(s, es[0]), es[1..], id);
    }
  }

  // ---------------------------------------------------------------- the record

  /**
   * While no sweep evicts it, a record only moves absent -> pending ->
   * submitted or failed, the last by the executor's answer to that very
   * record (absent -> claimed without an executor); a transaction hash is
   * present exactly on submitted records; a pending one has a call in flight.
   */
  lemma {:induction false} RecordLife(hasExecutor: bool, es: seq<Event>, e: Event, id: string)
    requires Schedule(Idle(hasExecutor), es) && Evictions(Idle(hasExecutor), es, id) == 0
    requires Legal(Run(Idle(hasExecutor), es), e) && Evicted(Run(Idle(hasExecutor), es), e, id) == 0
    ensures var s := Run(Idle(hasExecutor), es);
      && LifeStep(s, e, id)
      && (id in s.store ==> RecordOk(hasExecutor, s.store[id], id))
      && (id in s.store && s.store[id].status == Pending ==> SomeInFlight(s.tasks, id))
  {
    RunSound(Idle(hasExecutor), es, id);
    StepSound(Run(Idle(hasExecutor), es), e, id);
  }

  /** While no sweep evicts `id`, `alreadyClaimed` on it never changes the store, in the middle of whatever else runs. */
  lemma {:induction false} RereadLeavesStore(hasExecutor: bool, es: seq<Event>, t: nat, id: string)
    requires Schedule(Idle(hasExecutor), es) && Evictions(Idle(hasExecutor), es, id) == 0
    requires var s := Run(Idle(hasExecutor), es);
      Legal(s, Resumption(t)) && (s.tasks[t].Reread? || s.tasks[t].Rewritten?) && s.tasks[t].id == id
    ensures var s := Run(Idle(hasExecutor), es); Resume(s, t).store == s.store
  {
    RunSound(Idle(hasExecutor), es, id);
    var s := Run(Idle(hasExecutor), es);
    assert TaskOk(s.hasExecutor, Lookup(s.store, id), s.tasks[t], id);
  }

  /**
   * While no sweep evicts it, however claims interleave, a recorded refund
   * has been executed exactly once, or its one winning claim is about to
   * hand it over; an unrecorded one has never been executed.
   */
  lemma {:induction false} ExecutedExactlyOnce(es: seq<Event>, id: string)
    requires Schedule(Idle(true), es) && Evictions(Idle(true), es, id) == 0
    ensures var s := Run(Idle(true), es);
      ExecutorCalls(Idle(true), es, id) + Owed(s.tasks, id) == (if id in s.store then 1 else 0)
  {
    RunSound(Idle(true), es, id);
    RunExecutions(Idle(true), es, id);
    StoreBalance(Idle(true), es, id);
  }

  /** Until a sweep evicts it, a submitted or failed record stays as it is and its refund is never executed again. */
  lemma {:induction false} SettledIsFinal(s: System, es: seq<Event>, id: string)
    requires SoundAt(s, id) && Schedule(s, es) && Evictions(s, es, id) == 0
    requires id in s.store && s.store[id].status != Pending && s.hasExecutor
    ensures id in Run(s, es).store && Run(s, es).store[id] == s.store[id]
    ensures ExecutorCalls(s, es, id) == 0
    decreases |es|
  {
    if es != [] {
      StepSound(s, es[0], id);
      if es[0].Resumption? { assert TaskOk(s.hasExecutor, Lookup(s.store, id), s.tasks[es[0].task], id); }
      SettledIsFinal(Step(s, es[0]), es[1..], id);
    }
  }

  // ---------------------------------------------------------------- the replies

  /** The payloads of the claims, in call order. */
  function Claims(es: seq<Event>): seq<Payload> {
    if es == [] then []
    else (if es[0].Claim? then [es[0].payload] else []) + Claims(es[1..])
  }

  /** A claim on `id` that passes validation. */
  predicate Asks(p: Payload, hasExecutor: bool, id: string) {
    p.refundId == id && PayloadError(p, hasExecutor).None?
  }

  predicate AskedBefore(cs: seq<Payload>, t: nat, hasExecutor: bool, id: string)
    requires t <= |cs|
  {
    exists u :: 0 <= u < t && Asks(cs[u], hasExecutor, id)
  }

  /** A call that lost the insert of `id`, at any stage. */
  predicate Lost(pc: Pc, id: string) {
    match pc
    case Inserted(r, won) => !won && r.refundId == id
    case Reread(i, _) => i == id
    case Rewritten(i, _) => i == id
    case Done(Failure(AlreadyClaimed(i, _))) => i == id
    case _ => false
  }

  /** The reply of the call that won the insert. */
  predicate WinnerReply(hasExecutor: bool, found: Option<ClaimedRefund>, reply: Reply, id: string) {
    match reply
    case Success(r) => r.refundId == id
    case Failure(ExecutionFailed(i, _)) => i == id
    case Failure(ExecutionUnavailable) => found.Some? && found.value.status == Failed
    case _ => false
  }

  predicate Won(hasExecutor: bool, found: Option<ClaimedRefund>, pc: Pc, id: string) {
    match pc
    case Inserted(r, won) => won && r.refundId == id
    case Executing(r) => r.refundId == id
    case Settled(reply) => WinnerReply(hasExecutor, found, reply, id)
    case Done(reply) => WinnerReply(hasExecutor, found, reply, id)
    case _ => false
  }

  /** The first payable claim on `id` won, every later one lost, and every other claim was turned away at once. */
  ghost predicate Answers(s: System, cs: seq<Payload>, id: string) {
    && |cs| == |s.tasks|
    && (id in s.store <==> AskedBefore(cs, |cs|, s.hasExecutor, id))
    && (forall t :: 0 <= t < |cs| ==> AnswerOk(s.hasExecutor, Lookup(s.store, id), s.tasks[t], cs, t, id))
  }

  ghost predicate AnswerOk(hasExecutor: bool, found: Option<ClaimedRefund>, pc: Pc, cs: seq<Payload>, t: nat, id: string)
    requires t < |cs|
  {
    if cs[t].refundId != id then true
    else
      match PayloadError(cs[t], hasExecutor)
      case Some(error) => pc == Done(Failure(error))
      case None => if AskedBefore(cs, t, hasExecutor, id) then Lost(pc, id) else Won(hasExecutor, found, pc, id)
  }

  lemma {:induction false} BeginAnswers(s: System, p: Payload, now: int, cs: seq<Payload>, id: string)
    requires Answers(s, cs, id)
    ensures Answers(Begin(s, p, now), cs + [p], id)
  {
    var s' := Begin(s, p, now);
    var cs', n := cs + [p], |cs|;
    var h := s.hasExecutor;
    forall t | 0 <= t <= n ensures AskedBefore(cs', t, h, id) == AskedBefore(cs, t, h, id) {
      assert forall u :: 0 <= u < t ==> cs'[u] == cs[u];
    }
    assert AskedBefore(cs', n + 1, h, id) <==> AskedBefore(cs, n, h, id) || Asks(cs'[n], h, id);
    forall t | 0 <= t < n ensures AnswerOk(h, Lookup(s'.store, id), s'.tasks[t], cs', t, id) {
      assert AnswerOk(h, Lookup(s.store, id), s.tasks[t], cs, t, id);
      assert AskedBefore(cs, t, h, id) ==> AskedBefore(cs, n, h, id);
    }
    assert AnswerOk(h, Lookup(s'.store, id), s'.tasks[n], cs', n, id);
  }

  lemma {:induction false} StepAnswers(s: System, e: Event, cs: seq<Payload>, id: string)
    requires SoundAt(s, id) && Answers(s, cs, id) && Legal(s, e) && Evicted(s, e, id) == 0
    ensures Answers(Step(s, e), if e.Claim? then cs + [e.payload] else cs, id)
  {
    if e.Claim? {
      BeginAnswers(s, e.payload, e.now, cs, id);
    } else {
      StepSound(s, e, id);
      forall t | 0 <= t < |cs| ensures AnswerOk(s.hasExecutor, Lookup(Step(s, e).store, id), Step(s, e).tasks[t], cs, t, id) {
        AnswerStays(s, e, cs, t, id);
      }
    }
  }

  lemma {:induction false} AnswerStays(s: System, e: Event, cs: seq<Payload>, t: nat, id: string)
    requires SoundAt(s, id) && Legal(s, e) && !e.Claim? && Evicted(s, e, id) == 0
    requires t < |cs| == |s.tasks| && AnswerOk(s.hasExecutor, Lookup(s.store, id), s.tasks[t], cs, t, id)
    ensures AnswerOk(s.hasExecutor, Lookup(Step(s, e).store, id), Step(s, e).tasks[t], cs, t, id)
  {
    assert LifeStep(s, e, id) by { StepSound(s, e, id); }
    assert TaskOk(s.hasExecutor, Lookup(s.store, id), s.tasks[t], id);
  }

  lemma {:induction false} RunAnswers(s: System, es: seq<Event>, cs: seq<Payload>, id: string)
    requires SoundAt(s, id) && Answers(s, cs, id) && Schedule(s, es) && Evictions(s, es, id) == 0
    ensures Answers(Run(s, es), cs + Claims(es), id)
    decreases |es|
  {
    if es == [] {
      assert cs + Claims(es) == cs;
    } else {
      var cs' := if es[0].Claim? then cs + [es[0].payload] else cs;
      assert SoundAt(Step(s, es[0]), id) by { StepSound(s, es[0], id); }
      assert Answers(Step(s, es[0]), cs', id) by { StepAnswers(s, es[0], cs, id); }
      RunAnswers(Step(s, es[0]), es[1..], cs', id);
      ClaimsStep(cs, es);
    }
  }

  lemma {:induction false} ClaimsStep(cs: seq<Payload>, es: seq<Event>)
    requires es != []
    ensures cs + Claims(es) == (if es[0].Claim? then cs + [es[0].payload] else cs) + Claims(es[1..])
  {}

  /** Every reply about `id` agrees with its record, in every reachable state until a sweep evicts it. */
  lemma {:induction false} RepliesMatchRecord(hasExecutor: bool, es: seq<Event>, t: nat, id: string)
    requires Schedule(Idle(hasExecutor), es) && Evictions(Idle(hasExecutor), es, id) == 0
    requires var s := Run(Idle(hasExecutor), es); t < |s.tasks| && s.tasks[t].Done?
    ensures var s := Run(Idle(hasExecutor), es);
      match s.tasks[t].reply
      case Success(r) =>
        r.refundId == id ==> id in s.store && s.store[id] == r && r.status == (if hasExecutor then Submitted else Claimed)
      case Failure(AlreadyClaimed(i, at)) =>
        i == id ==> id in s.store && at == Some(s.store[id].claimedAt)
      case Failure(ExecutionFailed(i, reason)) =>
        i == id ==> id in s.store && s.store[id].status == Failed && s.store[id].failureReason == Some(reason)
      case _ => true
  {
    RunSound(Idle(hasExecutor), es, id);
    var s := Run(Idle(hasExecutor), es);
    assert TaskOk(hasExecutor, Lookup(s.store, id), s.tasks[t], id);
  }

  /**
   * Idempotency as the callers see it: until a sweep evicts `id`, its first
   * payable claim gets the outcome of the one execution, and every later one
   * is answered 409 with the time of the stored claim, whenever it returns.
   */
  lemma {:induction false} OnlyTheFirstClaimWins(hasExecutor: bool, es: seq<Event>, t: nat, id: string)
    requires Schedule(Idle(hasExecutor), es) && Evictions(Idle(hasExecutor), es, id) == 0
    requires t < |Claims(es)| && Asks(Claims(es)[t], hasExecutor, id)
    ensures var s := Run(Idle(hasExecutor), es);
      && |s.tasks| == |Claims(es)| && id in s.store
      && (s.tasks[t].Done? ==>
            if AskedBefore(Claims(es), t, hasExecutor, id)
            then s.tasks[t].reply == Failure(AlreadyClaimed(id, Some(s.store[id].claimedAt)))
            else
              || s.tasks[t].reply == WinnersReply(s.store[id])
              || (s.tasks[t].reply == Failure(ExecutionUnavailable) && s.store[id].status == Failed))
  {
    RunSound(Idle(hasExecutor), es, id);
    RunAnswers(Idle(hasExecutor), es, [], id);
    assert [] + Claims(es) == Claims(es);
    FirstWins(Run(Idle(hasExecutor), es), Claims(es), t, id);
  }

  lemma {:induction false} FirstWins(s: System, cs: seq<Payload>, t: nat, id: string)
    requires SoundAt(s, id) && Answers(s, cs, id) && t < |cs| && Asks(cs[t], s.hasExecutor, id)
    ensures id in s.store
    ensures s.tasks[t].Done? ==>
      if AskedBefore(cs, t, s.hasExecutor, id)
      then s.tasks[t].reply == Failure(AlreadyClaimed(id, Some(s.store[id].claimedAt)))
      else
        || s.tasks[t].reply == WinnersReply(s.store[id])
        || (s.tasks[t].reply == Failure(ExecutionUnavailable) && s.store[id].status == Failed)
  {
    assert AskedBefore(cs, |cs|, s.hasExecutor, id);
    assert TaskOk(s.hasExecutor, Lookup(s.store, id), s.tasks[t], id);
    assert AnswerOk(s.hasExecutor, Lookup(s.store, id), s.tasks[t], cs, t, id);
  }

  /** What the stored record says the winner was told, unless refunds were not configured. */
  function WinnersReply(r: ClaimedRefund): Reply {
    if r.status == Failed && r.failureReason.Some? then Failure(ExecutionFailed(r.refundId, r.failureReason.value)) else Success(r)
  }

  // ---------------------------------------------------------------- what a sweep can undo

  /** A stretch of a run, with the executor calls and the evictions of `id` in it. */
  predicate Trace(s: System, es: seq<Event>, s': System, id: string, calls: nat, evictions: nat) {
    Schedule(s, es) && Run(s, es) == s' && ExecutorCalls(s, es, id) == calls && Evictions(s, es, id) == evictions
  }

  lemma {:induction false} TraceStart(s: System, id: string)
    ensures Trace(s, [], s, id, 0, 0)
  {}

  lemma {:induction false} TraceStep(s: System, es: seq<Event>, mid: System, id: string, calls: nat, evictions: nat, e: Event, s': System)
    requires Trace(s, es, mid, id, calls, evictions) && Legal(mid, e) && Step(mid, e) == s'
    ensures Trace(s, es + [e], s', id, calls + Handed(mid, e, id), evictions + Evicted(mid, e, id))
    decreases |es|
  {
    if es == [] {
      assert [e][1..] == [];
      TraceStart(s', id);
    } else {
      TraceStart(mid, id);
      TraceStep(Step(s, es[0]), es[1..], mid, id, ExecutorCalls(Step(s, es[0]), es[1..], id), Evictions(Step(s, es[0]), es[1..], id), e, s');
      assert (es + [e])[0] == es[0] && (es + [e])[1..] == es[1..] + [e];
    }
  }

  /** A record swept while it was being paid is paid again: the bound by evictions is reached, for every payable claim. */
  lemma {:induction false} SweptClaimIsExecutedAgain(p: Payload) returns (es: seq<Event>)
    requires PayloadError(p, true).None?
    ensures Schedule(Idle(true), es)
    ensures ExecutorCalls(Idle(true), es, p.refundId) == 2 && Evictions(Idle(true), es, p.refundId) == 1
  {
    var s: System;
    es, s := SweptWhilePaid(p);
  }

  /** The two executions under way at once: the first claim's record was swept, the second claim's is stored. */
  lemma {:induction false} SweptWhilePaid(p: Payload) returns (es: seq<Event>, s: System)
    requires PayloadError(p, true).None?
    ensures Trace(Idle(true), es, s, p.refundId, 2, 1)
    ensures var r1, r2 := NewRecord(p, 0, true), NewRecord(p, 2, true);
      s == System(true, map[p.refundId := r2], [Executing(r1), Executing(r2)])
  {
    var id := p.refundId;
    var r1, r2 := NewRecord(p, 0, true), NewRecord(p, 2, true);
    var s0 := Idle(true);
    var s1 := System(true, map[id := r1], [Inserted(r1, true)]);
    var s2 := System(true, map[id := r1], [Executing(r1)]);
    var s3 := System(true, map[], [Executing(r1)]);
    var s4 := System(true, map[id := r2], [Executing(r1), Inserted(r2, true)]);
    s := System(true, map[id := r2], [Executing(r1), Executing(r2)]);
    TraceStart(s0, id);
    TraceStep(s0, [], s0, id, 0, 0, Claim(p, 0), s1);
    TraceStep(s0, [Claim(p, 0)], s1, id, 0, 0, Resumption(0), s2);
    assert Swept(s2.store, 1) == map[];
    es := [Claim(p, 0), Resumption(0)];
    TraceStep(s0, es, s2, id, 1, 0, Sweep(1), s3);
    es := es + [Sweep(1)];
    TraceStep(s0, es, s3, id, 1, 1, Claim(p, 2), s4);
    es := es + [Claim(p, 2)];
    TraceStep(s0, es, s4, id, 1, 1, Resumption(1), s);
    es := es + [Resumption(1)];
  }

  /**
   * What the rewrite in `alreadyClaimed` can lose once a sweep has evicted
   * the record: a duplicate call that read the failed record of a second
   * execution writes it over the payment that the first one has stored since.
   */
  lemma {:induction false} StaleRewriteLosesPayment(p: Payload, hash: string, reason: string) returns (es: seq<Event>, t: nat)
    requires PayloadError(p, true).None?
    ensures Schedule(Idle(true), es)
    ensures var s := Run(Idle(true), es);
      && Legal(s, Resumption(t)) && s.tasks[t].Reread? && s.tasks[t].id == p.refundId
      && p.refundId in s.store && s.store[p.refundId].status == Submitted && s.store[p.refundId].txHash == Some(hash)
      && var s' := Resume(s, t);
         p.refundId in s'.store && s'.store[p.refundId].status == Failed && s'.store[p.refundId].txHash == None
  {
    var id := p.refundId;
    var r1, r2, r3 := NewRecord(p, 0, true), NewRecord(p, 2, true), NewRecord(p, 3, true);
    var failed, paid := SettledRecord(r2, Broke(reason)), SettledRecord(r1, Paid(hash));
    var settled, answered := Settled(SettledReply(r2, Broke(reason))), Settled(SettledReply(r1, Paid(hash)));
    var s0, s5 := Idle(true), Idle(true);
    es, s5 := SweptWhilePaid(p);
    var s6 := System(true, map[id := failed], [Executing(r1), settled]);
    var s7 := System(true, map[id := failed], [Executing(r1), settled, Inserted(r3, false)]);
    var s8 := System(true, map[id := failed], [Executing(r1), settled, Reread(id, Some(failed))]);
    var s9 := System(true, map[id := paid], [answered, settled, Reread(id, Some(failed))]);
    TraceStep(s0, es, s5, id, 2, 1, ExecutorAnswer(1, Broke(reason)), s6);
    es := es + [ExecutorAnswer(1, Broke(reason))];
    TraceStep(s0, es, s6, id, 2, 1, Claim(p, 3), s7);
    es := es + [Claim(p, 3)];
    TraceStep(s0, es, s7, id, 2, 1, Resumption(2), s8);
    es := es + [Resumption(2)];
    TraceStep(s0, es, s8, id, 2, 1, ExecutorAnswer(0, Paid(hash)), s9);
    es := es + [ExecutorAnswer(0, Paid(hash))];
    t := 2;
  }
}
