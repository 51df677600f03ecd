/**
 * Where refund records, executor calls and replies come from: the claims, the
 * executor's answers and nothing else, in every run with any sweeps
 * (apps/backend/src/services/refund.service.ts).
 */
module RefundHistory {
  import opened Prelude
  import opened Refund

  // ---------------------------------------------------------------- what came in from outside

  /** A claim as it was made: whether it was let in, and what the executor answered to it. */
  datatype Filed = Filed(payload: Payload, now: int, admitted: bool, answer: Option<Outcome>)

  predicate HasIds(p: Payload) {
    p.refundId != "" && p.escrowId != ""
  }

  /** `^[GC][A-Z2-7]{55}$` on a payload that has an address. */
  predicate HasAddress(p: Payload) {
    p.refundTo.Some? && p.refundTo.value != "" && IsStellarAddress(p.refundTo.value)
  }

  predicate HasAmount(p: Payload) {
    p.amount.Some? && p.amount.value.number.Some? && p.amount.value.number.value > 0.0
  }

  predicate HasMilestone(p: Payload) {
    p.escrowType == Some(MultiRelease) ==> p.milestoneIndex.Some? && p.milestoneIndex.value != ""
  }

  /** What a payload must carry; without an executor the ids are enough. */
  predicate Acceptable(p: Payload, hasExecutor: bool) {
    HasIds(p) && (hasExecutor ==> HasAddress(p) && HasAmount(p) && HasMilestone(p))
  }

  /** The error names the first thing that is missing. */
  predicate Misses(p: Payload, hasExecutor: bool, error: Error) {
    match error
    case MissingIds => !HasIds(p)
    case BadAddress => hasExecutor && HasIds(p) && !HasAddress(p)
    case BadAmount => hasExecutor && HasIds(p) && HasAddress(p) && !HasAmount(p)
    case MissingMilestone => hasExecutor && HasIds(p) && HasAddress(p) && HasAmount(p) && !HasMilestone(p)
    case _ => false
  }

  /** One event more: a claim is let in when it is acceptable and its id unrecorded. */
  function Noted(s: System, log: seq<Filed>, e: Event): seq<Filed> {
    match e
    case Claim(p, now) => log + [Filed(p, now, Acceptable(p, s.hasExecutor) && p.refundId !in s.store, None)]
    case ExecutorAnswer(t, o) => if t < |log| then log[t := log[t].(answer := Some(o))] else log
    case _ => log
  }

  /** The claims of a run, in call order. */
  function History(s: System, es: seq<Event>, log: seq<Filed>): seq<Filed>
    requires Schedule(s, es)
    decreases |es|
  {
    if es == [] then log else History(Step(s, es[0]), es[1..], Noted(s, log, es[0]))
  }

  // ---------------------------------------------------------------- what may be said of a claim

  /** The record carries the claim's own fields and its time. */
  predicate IsRecordOf(r: ClaimedRefund, c: Filed, hasExecutor: bool) {
    var p := c.payload;
    && r.refundId == p.refundId && r.escrowId == p.escrowId && r.claimedAt == c.now
    && r.amount == p.amount && r.currency == p.currency && r.claimedBy == p.claimedBy
    && (if hasExecutor then
          && r.refundTo == p.refundTo && r.milestoneIndex == p.milestoneIndex
          && (p.escrowType.Some? ==> r.escrowType == p.escrowType) && (p.escrowType.None? ==> r.escrowType == Some(SingleRelease))
        else r.refundTo == None && r.escrowType == None && r.milestoneIndex == None)
  }

  predicate IsPending(r: ClaimedRefund) {
    r.status == Pending && r.txHash == None && r.failureReason == None
  }

  predicate IsSubmitted(r: ClaimedRefund, hash: string) {
    r.status == Submitted && r.txHash == Some(hash) && r.failureReason == None
  }

  predicate IsFailed(r: ClaimedRefund, reason: string) {
    r.status == Failed && r.txHash == None && r.failureReason == Some(reason)
  }

  /** The status says what the executor has answered so far. */
  predicate StatusTells(r: ClaimedRefund, c: Filed, hasExecutor: bool) {
    match c.answer
    case None => if hasExecutor then IsPending(r) else r.status == Status.Claimed && r.txHash == None && r.failureReason == None
    case Some(Paid(hash)) => IsSubmitted(r, hash)
    case Some(NotConfigured(reason)) => IsFailed(r, reason)
    case Some(Broke(reason)) => IsFailed(r, reason)
  }

  /** A record that says what is known of an admitted claim. */
  predicate Tells(r: ClaimedRefund, c: Filed, hasExecutor: bool) {
    c.admitted && IsRecordOf(r, c, hasExecutor) && StatusTells(r, c, hasExecutor)
  }

  /** The reply to a claim the executor has answered. */
  predicate OutcomeTold(reply: Reply, c: Filed) {
    match c.answer
    case None => false
    case Some(Paid(hash)) => reply.Success? && IsRecordOf(reply.value, c, true) && IsSubmitted(reply.value, hash)
    case Some(NotConfigured(_)) => reply == Failure(ExecutionUnavailable)
    case Some(Broke(reason)) => reply == Failure(ExecutionFailed(c.payload.refundId, reason))
  }

  /** The reply to a claim the executor was not asked about, or has not answered. */
  predicate PlainTold(reply: Reply, c: Filed, hasExecutor: bool) {
    match reply
    case Success(r) => !hasExecutor && c.admitted && IsRecordOf(r, c, false) && StatusTells(r, c, false)
    case Failure(AlreadyClaimed(i, _)) => !c.admitted && Acceptable(c.payload, hasExecutor) && i == c.payload.refundId
    case Failure(error) => Misses(c.payload, hasExecutor, error)
  }

  /** Where a call is, given what came in for it. */
  predicate PcTells(pc: Pc, c: Filed, hasExecutor: bool) {
    if c.answer.Some? then
      c.admitted && hasExecutor && ((pc.Settled? && OutcomeTold(pc.reply, c)) || (pc.Done? && OutcomeTold(pc.reply, c)))
    else
      match pc
      case Inserted(r, won) =>
        won == c.admitted && Acceptable(c.payload, hasExecutor) && IsRecordOf(r, c, hasExecutor) && StatusTells(r, c, hasExecutor)
      case Executing(r) => hasExecutor && Tells(r, c, true)
      case Settled(_) => false
      case Reread(i, _) => !c.admitted && Acceptable(c.payload, hasExecutor) && i == c.payload.refundId
      case Rewritten(i, _) => !c.admitted && Acceptable(c.payload, hasExecutor) && i == c.payload.refundId
      case Done(reply) => PlainTold(reply, c, hasExecutor)
  }

  /** Some claim of the history stands behind the record. */
  ghost predicate Backed(log: seq<Filed>, id: string, r: ClaimedRefund, hasExecutor: bool) {
    exists c :: c in log && c.payload.refundId == id && Tells(r, c, hasExecutor)
  }

  ghost predicate StoreTells(s: System, log: seq<Filed>) {
    forall id :: id in s.store ==> Backed(log, id, s.store[id], s.hasExecutor)
  }

  /** A failed record that a duplicate call has read and may write back. */
  ghost predicate RereadsTell(s: System, log: seq<Filed>) {
    forall t :: 0 <= t < |s.tasks| && s.tasks[t].Reread? && s.tasks[t].existing.Some? && s.tasks[t].existing.value.status == Failed ==>
      Backed(log, s.tasks[t].id, s.tasks[t].existing.value, s.hasExecutor)
  }

  ghost predicate TasksTell(s: System, log: seq<Filed>) {
    |log| == |s.tasks| && forall t :: 0 <= t < |log| ==> PcTells(s.tasks[t], log[t], s.hasExecutor)
  }

  /** The system knows nothing but its history. */
  ghost predicate Truthful(s: System, log: seq<Filed>) {
    TasksTell(s, log) && StoreTells(s, log) && RereadsTell(s, log)
  }

  // ---------------------------------------------------------------- every step keeps it

  lemma {:induction false} ErrorNamesWhatIsMissing(p: Payload, hasExecutor: bool)
    ensures PayloadError(p, hasExecutor).None? <==> Acceptable(p, hasExecutor)
    ensures PayloadError(p, hasExecutor).Some? ==> Misses(p, hasExecutor, PayloadError(p, hasExecutor).value)
  {}

  lemma {:induction false} BackedMore(log: seq<Filed>, c: Filed, id: string, r: ClaimedRefund, hasExecutor: bool)
    ensures Backed(log, id, r, hasExecutor) ==> Backed(log + [c], id, r, hasExecutor)
    ensures c.payload.refundId == id && Tells(r, c, hasExecutor) ==> Backed(log + [c], id, r, hasExecutor)
  {
    if Backed(log, id, r, hasExecutor) {
      var d :| d in log && d.payload.refundId == id && Tells(r, d, hasExecutor);
      assert d in log + [c];
    }
    assert c in log + [c];
  }

  /** A claim's answer changes what may be said of that claim's own record only. */
  lemma {:induction false} BackedAnswered(log: seq<Filed>, t: nat, o: Outcome, id: string, r: ClaimedRefund)
    requires t < |log| && log[t].answer == None
    requires Backed(log, id, r, true) && r.status != Pending
    ensures Backed(log[t := log[t].(answer := Some(o))], id, r, true)
  {
    var c :| c in log && c.payload.refundId == id && Tells(r, c, true);
    var i :| 0 <= i < |log| && log[i] == c;
    assert i != t;
    assert log[t := log[t].(answer := Some(o))][i] == c;
  }

  lemma {:induction false} ClaimTells(s: System, log: seq<Filed>, p: Payload, now: int)
    requires Truthful(s, log)
    ensures Truthful(Begin(s, p, now), Noted(s, log, Claim(p, now)))
  {
    ErrorNamesWhatIsMissing(p, s.hasExecutor);
    var s', log' := Begin(s, p, now), Noted(s, log, Claim(p, now));
    var c := log'[|log|];
    assert PcTells(s'.tasks[|log|], c, s.hasExecutor);
    forall id | id in s'.store ensures Backed(log', id, s'.store[id], s.hasExecutor) {
      BackedMore(log, c, id, s'.store[id], s.hasExecutor);
    }
    forall t | 0 <= t < |s.tasks| && s.tasks[t].Reread? && s.tasks[t].existing.Some? && s.tasks[t].existing.value.status == Failed
      ensures Backed(log', s.tasks[t].id, s.tasks[t].existing.value, s.hasExecutor)
    {
      BackedMore(log, c, s.tasks[t].id, s.tasks[t].existing.value, s.hasExecutor);
    }
  }

  lemma {:induction false} ResumeTells(s: System, log: seq<Filed>, t: nat)
    requires Truthful(s, log) && Legal(s, Resumption(t))
    ensures Truthful(Resume(s, t), log)
  {
    assert PcTells(s.tasks[t], log[t], s.hasExecutor);
    assert PcTells(Resume(s, t).tasks[t], log[t], s.hasExecutor);
  }

  /** The settled record of the claim that was executed. */
  lemma {:induction false} SettledTells(r: ClaimedRefund, c: Filed, o: Outcome)
    requires Tells(r, c, true) && c.answer == None
    ensures var answered := c.(answer := Some(o)); Tells(SettledRecord(r, o), answered, true) && OutcomeTold(SettledReply(r, o), answered)
  {}

  lemma {:induction false} AnswerTells(s: System, log: seq<Filed>, t: nat, o: Outcome)
    requires Truthful(s, log) && Legal(s, ExecutorAnswer(t, o))
    ensures Truthful(Answer(s, t, o), Noted(s, log, ExecutorAnswer(t, o)))
  {
    var r := s.tasks[t].record;
    var s', log' := Answer(s, t, o), Noted(s, log, ExecutorAnswer(t, o));
    assert PcTells(s.tasks[t], log[t], s.hasExecutor);
    SettledTells(r, log[t], o);
    assert log'[t] in log';
    forall id | id in s'.store ensures Backed(log', id, s'.store[id], true) {
      if id != r.refundId { StoredAnswered(log, t, o, id, s.store[id]); }
    }
    forall u | 0 <= u < |s'.tasks| && s'.tasks[u].Reread? && s'.tasks[u].existing.Some? && s'.tasks[u].existing.value.status == Failed
      ensures Backed(log', s'.tasks[u].id, s'.tasks[u].existing.value, true)
    {
      BackedAnswered(log, t, o, s.tasks[u].id, s.tasks[u].existing.value);
    }
  }

  /** Another id's record is not about the answered claim. */
  lemma {:induction false} StoredAnswered(log: seq<Filed>, t: nat, o: Outcome, id: string, r: ClaimedRefund)
    requires t < |log| && log[t].payload.refundId != id && Backed(log, id, r, true)
    ensures Backed(log[t := log[t].(answer := Some(o))], id, r, true)
  {
    var c :| c in log && c.payload.refundId == id && Tells(r, c, true);
    var i :| 0 <= i < |log| && log[i] == c;
    assert log[t := log[t].(answer := Some(o))][i] == c;
  }

  lemma {:induction false} StepTells(s: System, log: seq<Filed>, e: Event)
    requires Truthful(s, log) && Legal(s, e)
    ensures Truthful(Step(s, e), Noted(s, log, e)) && Step(s, e).hasExecutor == s.hasExecutor
  {
    match e
    case Claim(p, now) => ClaimTells(s, log, p, now);
    case Resumption(t) => ResumeTells(s, log, t);
    case ExecutorAnswer(t, o) => AnswerTells(s, log, t, o);
    case Sweep(cutoff) =>
  }

  lemma {:induction false} RunTells(s: System, es: seq<Event>, log: seq<Filed>)
    requires Truthful(s, log) && Schedule(s, es)
    ensures Truthful(Run(s, es), History(s, es, log)) && Run(s, es).hasExecutor == s.hasExecutor
    decreases |es|
  {
    if es != [] {
      StepTells(s, log, es[0]);
      RunTells(Step(s, es[0]), es[1..], Noted(s, log, es[0]));
    }
  }

  /** A public key (G) or a contract address (C) in code points: 55 letters or digits 2 to 7 follow. */
  lemma {:induction false} AddressIff(a: string)
    ensures IsStellarAddress(a) <==>
      |a| == 1 + 55 && a[0] as int in {71, 67} && forall i :: 0 < i < |a| ==> 65 <= a[i] as int <= 90 || 50 <= a[i] as int <= 55
  {}

  // ---------------------------------------------------------------- what that says

  /**
   * Whatever is handed to the executor is the record of the very claim that
   * hands it over, an admitted one: its escrow, amount, currency, claimant,
   * address, escrow type (single-release when absent) and milestone, and its
   * time, still pending; in every run, sweeps or not.
   */
  lemma {:induction false} ExecutorGetsTheClaim(hasExecutor: bool, es: seq<Event>, e: Event)
    requires Schedule(Idle(hasExecutor), es) && Legal(Run(Idle(hasExecutor), es), e)
    requires HandedOver(Run(Idle(hasExecutor), es), e).Some?
    ensures var log := History(Idle(hasExecutor), es, []);
      && hasExecutor && e.task < |log| && log[e.task].admitted && log[e.task].answer == None
      && IsRecordOf(HandedOver(Run(Idle(hasExecutor), es), e).value, log[e.task], true)
      && IsPending(HandedOver(Run(Idle(hasExecutor), es), e).value)
  {
    RunTells(Idle(hasExecutor), es, []);
    var s := Run(Idle(hasExecutor), es);
    assert PcTells(s.tasks[e.task], History(Idle(hasExecutor), es, [])[e.task], hasExecutor);
  }

  /**
   * Whatever is stored under an id is the record of an admitted claim on it,
   * with that claim's fields and time, and the status, hash or reason that
   * the executor's answer to that claim calls for; in every run.
   */
  lemma {:induction false} StoredRecordsAreClaims(hasExecutor: bool, es: seq<Event>, id: string)
    requires Schedule(Idle(hasExecutor), es) && id in Run(Idle(hasExecutor), es).store
    ensures Backed(History(Idle(hasExecutor), es, []), id, Run(Idle(hasExecutor), es).store[id], hasExecutor)
  {
    RunTells(Idle(hasExecutor), es, []);
  }

  /**
   * Every claim that has returned got the reply its own executor answer calls
   * for, or, unanswered, its own record (without an executor), the first
   * error of its payload, or the 409 for its id; in every run.
   */
  lemma {:induction false} EveryClaimIsToldTheTruth(hasExecutor: bool, es: seq<Event>, t: nat)
    requires Schedule(Idle(hasExecutor), es)
    requires t < |Run(Idle(hasExecutor), es).tasks| && Run(Idle(hasExecutor), es).tasks[t].Done?
    ensures var log := History(Idle(hasExecutor), es, []); var reply := Run(Idle(hasExecutor), es).tasks[t].reply;
      && t < |log|
      && (if log[t].answer.Some? then hasExecutor && OutcomeTold(reply, log[t]) else PlainTold(reply, log[t], hasExecutor))
  {
    RunTells(Idle(hasExecutor), es, []);
    var s := Run(Idle(hasExecutor), es);
    assert PcTells(s.tasks[t], History(Idle(hasExecutor), es, [])[t], hasExecutor);
  }

  /** A sweep evicts exactly the records claimed before its cutoff and leaves the others as they are. */
  lemma {:induction false} SweepIsByAge(s: System, cutoff: int, id: string)
    ensures Evicted(s, Sweep(cutoff), id) == 1 <==> id in s.store && s.store[id].claimedAt < cutoff
    ensures Evicted(s, Sweep(cutoff), id) == 0 ==> Lookup(Step(s, Sweep(cutoff)).store, id) == Lookup(s.store, id)
  {}
}
