/**
 * Refund claims: insert-first idempotency around an external executor, with a
 * retention sweep (apps/backend/src/services/refund.service.ts).
 *
 * Every claim is a task; one step runs the code between two `await`s.  The
 * executor answers whenever it likes, and a sweep may run between any two steps.
 */
module Refund {
  import opened Prelude

  // ---------------------------------------------------------------- data

  datatype Status = Claimed | Pending | Submitted | Failed

  datatype EscrowType = SingleRelease | MultiRelease

  /** A caller-supplied amount and its numeric value, absent when not finite. */
  datatype Amount = Amount(raw: string, number: Option<real>)

  datatype Payload = Payload(
    refundId: string,
    escrowId: string,
    amount: Option<Amount>,
    currency: Option<string>,
    claimedBy: Option<string>,
    refundTo: Option<string>,
    escrowType: Option<EscrowType>,
    milestoneIndex: Option<string>)

  datatype ClaimedRefund = ClaimedRefund(
    refundId: string,
    escrowId: string,
    claimedAt: int,
    amount: Option<Amount>,
    currency: Option<string>,
    claimedBy: Option<string>,
    status: Status,
    refundTo: Option<string>,
    escrowType: Option<EscrowType>,
    milestoneIndex: Option<string>,
    txHash: Option<string>,
    failureReason: Option<string>)

  datatype Error =
    | MissingIds
    | BadAddress
    | BadAmount
    | MissingMilestone
    | AlreadyClaimed(refundId: string, claimedAt: Option<int>)
    | ExecutionUnavailable
    | ExecutionFailed(refundId: string, reason: string)

  type Reply = Result<ClaimedRefund, Error>

  /** What the executor's promise settles with. */
  datatype Outcome = Paid(txHash: string) | NotConfigured(reason: string) | Broke(reason: string)

  type Store = map<string, ClaimedRefund>

  // ---------------------------------------------------------------- validation

  /** `^[GC][A-Z2-7]{55}$` */
  predicate IsStellarAddress(a: string) {
    && |a| == 56
    && (a[0] == 'G' || a[0] == 'C')
    && forall i :: 1 <= i < 56 ==> 'A' <= a[i] <= 'Z' || '2' <= a[i] <= '7'
  }

  function Truthy(s: Option<string>): bool {
    s.Some? && s.value != ""
  }

  /** `assertExecutable`: the first check that fails. */
  function ExecutableError(p: Payload): Option<Error> {
    if !Truthy(p.refundTo) || !IsStellarAddress(p.refundTo.value) then Some(BadAddress)
    else if p.amount.None? || p.amount.value.number.None? || p.amount.value.number.value <= 0.0 then Some(BadAmount)
    else if p.escrowType == Some(MultiRelease) && !Truthy(p.milestoneIndex) then Some(MissingMilestone)
    else None
  }

  function PayloadError(p: Payload, hasExecutor: bool): Option<Error> {
    if p.refundId == "" || p.escrowId == "" then Some(MissingIds)
    else if hasExecutor then ExecutableError(p)
    else None
  }

  /** What the chain needs of a claim before funds may move. */
  predicate Payable(r: ClaimedRefund) {
    && r.refundId != "" && r.escrowId != ""
    && r.refundTo.Some? && IsStellarAddress(r.refundTo.value)
    && r.amount.Some? && r.amount.value.number.Some? && r.amount.value.number.value > 0.0
    && r.escrowType.Some?
    && (r.escrowType == Some(MultiRelease) ==> r.milestoneIndex.Some? && r.milestoneIndex.value != "")
  }

  /** The record written before any on-chain work. */
  function NewRecord(p: Payload, now: int, hasExecutor: bool): ClaimedRefund {
    if hasExecutor then
      ClaimedRefund(p.refundId, p.escrowId, now, p.amount, p.currency, p.claimedBy, Pending, p.refundTo,
        Some(if p.escrowType.Some? then p.escrowType.value else SingleRelease), p.milestoneIndex, None, None)
    else
      ClaimedRefund(p.refundId, p.escrowId, now, p.amount, p.currency, p.claimedBy, Claimed, None, None, None, None, None)
  }

  /** The record written once the executor has answered. */
  function SettledRecord(r: ClaimedRefund, o: Outcome): ClaimedRefund {
    match o
    case Paid(hash) => r.(status := Submitted, txHash := Some(hash))
    case NotConfigured(reason) => r.(status := Failed, failureReason := Some(reason))
    case Broke(reason) => r.(status := Failed, failureReason := Some(reason))
  }

  function SettledReply(r: ClaimedRefund, o: Outcome): Reply {
    match o
    case Paid(hash) => Success(SettledRecord(r, o))
    case NotConfigured(_) => Failure(ExecutionUnavailable)
    case Broke(reason) => Failure(ExecutionFailed(r.refundId, reason))
  }

  // ---------------------------------------------------------------- the step system

  datatype Pc =
    | Inserted(record: ClaimedRefund, won: bool)       // `insertIfAbsent` has run
    | Executing(record: ClaimedRefund)                 // handed to the executor
    | Settled(reply: Reply)                            // the outcome has been stored
    | Reread(id: string, existing: Option<ClaimedRefund>)    // `alreadyClaimed`: `store.get` has run
    | Rewritten(id: string, claimedAt: int)                   // `alreadyClaimed`: `store.set` has run
    | Done(reply: Reply)

  datatype System = System(hasExecutor: bool, store: Store, tasks: seq<Pc>)

  function Idle(hasExecutor: bool): System {
    System(hasExecutor, map[], [])
  }

  datatype Event =
    | Claim(payload: Payload, now: int)
    | Resumption(task: nat)
    | ExecutorAnswer(task: nat, outcome: Outcome)
    | Sweep(cutoff: int)

  predicate Legal(s: System, e: Event) {
    match e
    case Claim(_, _) => true
    case Sweep(_) => true
    case Resumption(t) => t < |s.tasks| && !s.tasks[t].Done? && !s.tasks[t].Executing?
    case ExecutorAnswer(t, _) => t < |s.tasks| && s.tasks[t].Executing?
  }

  function InsertIfAbsent(store: Store, id: string, record: ClaimedRefund): (Store, bool) {
    if id in store then (store, false) else (store[id := record], true)
  }

  /** `claimRefund` up to its first `await`. */
  function Begin(s: System, p: Payload, now: int): System {
    match PayloadError(p, s.hasExecutor)
    case Some(error) => s.(tasks := s.tasks + [Done(Failure(error))])
    case None =>
      var record := NewRecord(p, now, s.hasExecutor);
      var (store, won) := InsertIfAbsent(s.store, p.refundId, record);
      s.(store := store, tasks := s.tasks + [Inserted(record, won)])
  }

  function Resume(s: System, t: nat): System
    requires Legal(s, Resumption(t))
  {
    match s.tasks[t]
    case Inserted(record, won) =>
      var next :=
        if !won then Reread(record.refundId, Lookup(s.store, record.refundId))
        else if s.hasExecutor then Executing(record)
        else Done(Success(record));
      s.(tasks := s.tasks[t := next])
    case Settled(reply) => s.(tasks := s.tasks[t := Done(reply)])
    case Reread(id, existing) =>
      if existing.Some? && existing.value.status == Failed then
        s.(store := s.store[id := existing.value], tasks := s.tasks[t := Rewritten(id, existing.value.claimedAt)])
      else
        var claimedAt := if existing.Some? then Some(existing.value.claimedAt) else None;
        s.(tasks := s.tasks[t := Done(Failure(AlreadyClaimed(id, claimedAt)))])
    case Rewritten(id, claimedAt) =>
      s.(tasks := s.tasks[t := Done(Failure(AlreadyClaimed(id, Some(claimedAt))))])
  }

  function Answer(s: System, t: nat, o: Outcome): System
    requires Legal(s, ExecutorAnswer(t, o))
  {
    var r := s.tasks[t].record;
    s.(store := s.store[r.refundId := SettledRecord(r, o)], tasks := s.tasks[t := Settled(SettledReply(r, o))])
  }

  /** `cleanupBefore`: drop every record claimed before the cutoff. */
  function Swept(store: Store, cutoff: int): Store {
    map id | id in store && store[id].claimedAt >= cutoff :: store[id]
  }

  function Step(s: System, e: Event): System
    requires Legal(s, e)
  {
    match e
    case Claim(p, now) => Begin(s, p, now)
    case Resumption(t) => Resume(s, t)
    case ExecutorAnswer(t, o) => Answer(s, t, o)
    case Sweep(cutoff) => s.(store := Swept(s.store, cutoff))
  }

  predicate Schedule(s: System, es: seq<Event>)
    decreases |es|
  {
    es == [] || (Legal(s, es[0]) && Schedule(Step(s, es[0]), es[1..]))
  }

  function Run(s: System, es: seq<Event>): System
    requires Schedule(s, es)
    decreases |es|
  {
    if es == [] then s else Run(Step(s, es[0]), es[1..])
  }

  // ---------------------------------------------------------------- executor calls

  /** The claim this step hands to the executor, if any. */
  function HandedOver(s: System, e: Event): Option<ClaimedRefund>
    requires Legal(s, e)
  {
    if e.Resumption? && Step(s, e).tasks[e.task].Executing? then Some(Step(s, e).tasks[e.task].record) else None
  }

  function Handed(s: System, e: Event, id: string): nat
    requires Legal(s, e)
  {
    var handed := HandedOver(s, e);
    if handed.Some? && handed.value.refundId == id then 1 else 0
  }

  /** Whether this step is a sweep that removes the record of `id`. */
  function Evicted(s: System, e: Event, id: string): nat
    requires Legal(s, e)
  {
    if e.Sweep? && id in s.store && id !in Step(s, e).store then 1 else 0
  }

  function ExecutorCalls(s: System, es: seq<Event>, id: string): nat
    requires Schedule(s, es)
    decreases |es|
  {
    if es == [] then 0 else Handed(s, es[0], id) + ExecutorCalls(Step(s, es[0]), es[1..], id)
  }

  /** How often a sweep removed the record of `id`. */
  function Evictions(s: System, es: seq<Event>, id: string): nat
    requires Schedule(s, es)
    decreases |es|
  {
    if es == [] then 0 else Evicted(s, es[0], id) + Evictions(Step(s, es[0]), es[1..], id)
  }

  predicate Owes(pc: Pc, id: string) {
    pc.Inserted? && pc.won && pc.record.refundId == id
  }

  /** Claims on `id` that won the insert and have not reached the executor. */
  function Owed(tasks: seq<Pc>, id: string): nat {
    if tasks == [] then 0 else Owed(tasks[..|tasks| - 1], id) + (if Owes(tasks[|tasks| - 1], id) then 1 else 0)
  }

  lemma {:induction false} OwedUpdate(tasks: seq<Pc>, t: nat, pc: Pc, id: string)
    requires t < |tasks|
    ensures Owed(tasks[t := pc], id)
      == Owed(tasks, id) - (if Owes(tasks[t], id) then 1 else 0) + (if Owes(pc, id) then 1 else 0)
  {
    var n := |tasks| - 1;
    if t < n {
      OwedUpdate(tasks[..n], t, pc, id);
      assert tasks[t := pc][..n] == tasks[..n][t := pc];
    } else {
      assert tasks[t := pc][..n] == tasks[..n];
    }
  }

  function Present(s: System, id: string): nat {
    if id in s.store then 1 else 0
  }

  lemma {:induction false} OwedAppend(tasks: seq<Pc>, pc: Pc, id: string)
    ensures Owed(tasks + [pc], id) == Owed(tasks, id) + (if Owes(pc, id) then 1 else 0)
  {
    assert (tasks + [pc])[..|tasks|] == tasks;
  }

  /** Whether this step is a payable claim on `id` that finds it unrecorded: the guard of `insertIfAbsent`. */
  function Admitted(s: System, e: Event, id: string): nat
    requires Legal(s, e)
  {
    if e.Claim? && e.payload.refundId == id && PayloadError(e.payload, s.hasExecutor).None? && id !in s.store then 1 else 0
  }

  function Admissions(s: System, es: seq<Event>, id: string): nat
    requires Schedule(s, es)
    decreases |es|
  {
    if es == [] then 0 else Admitted(s, es[0], id) + Admissions(Step(s, es[0]), es[1..], id)
  }

  /** Whether this step writes an evicted record of `id` back, by an executor's answer or a rewrite. */
  function Restored(s: System, e: Event, id: string): nat
    requires Legal(s, e)
  {
    if !e.Claim? && id !in s.store && id in Step(s, e).store then 1 else 0
  }

  function Restorations(s: System, es: seq<Event>, id: string): nat
    requires Schedule(s, es)
    decreases |es|
  {
    if es == [] then 0 else Restored(s, es[0], id) + Restorations(Step(s, es[0]), es[1..], id)
  }

  lemma {:induction false} StepExecutions(s: System, e: Event, id: string)
    requires s.hasExecutor && Legal(s, e)
    ensures Step(s, e).hasExecutor
    ensures Handed(s, e, id) + Owed(Step(s, e).tasks, id) == Admitted(s, e, id) + Owed(s.tasks, id)
  {
    match e
    case Claim(p, now) => OwedAppend(s.tasks, Begin(s, p, now).tasks[|s.tasks|], id);
    case Resumption(t) => OwedUpdate(s.tasks, t, Resume(s, t).tasks[t], id);
    case ExecutorAnswer(t, o) => OwedUpdate(s.tasks, t, Answer(s, t, o).tasks[t], id);
    case Sweep(cutoff) =>
  }

  lemma {:induction false} RunExecutions(s: System, es: seq<Event>, id: string)
    requires s.hasExecutor && Schedule(s, es)
    ensures ExecutorCalls(s, es, id) + Owed(Run(s, es).tasks, id) == Admissions(s, es, id) + Owed(s.tasks, id)
    decreases |es|
  {
    if es != [] {
      StepExecutions(s, es[0], id);
      RunExecutions(Step(s, es[0]), es[1..], id);
    }
  }

  /** A record appears by an admission or a restoration and goes by an eviction, in every run. */
  lemma {:induction false} StoreBalance(s: System, es: seq<Event>, id: string)
    requires Schedule(s, es)
    ensures Admissions(s, es, id) + Restorations(s, es, id) + Present(s, id) == Evictions(s, es, id) + Present(Run(s, es), id)
    decreases |es|
  {
    if es != [] {
      StepPresence(s, es[0], id);
      StoreBalance(Step(s, es[0]), es[1..], id);
    }
  }

  lemma {:induction false} StepPresence(s: System, e: Event, id: string)
    requires Legal(s, e)
    ensures Admitted(s, e, id) + Restored(s, e, id) + Present(s, id) == Evicted(s, e, id) + Present(Step(s, e), id)
  {}

  /**
   * Exactly how often a refund is executed, over every interleaving of
   * claims, executor answers and sweeps: once for each payable claim that
   * found the refundId unrecorded, those about to be handed over included.
   * So it is executed or owed at most once if and only if at most one
   * payable claim found it unrecorded.
   */
  lemma {:induction false} ExecutionsAreAdmissions(es: seq<Event>, id: string)
    requires Schedule(Idle(true), es)
    ensures var s := Idle(true); var executed := ExecutorCalls(s, es, id) + Owed(Run(s, es).tasks, id);
      && executed == Admissions(s, es, id)
      && (executed <= 1 <==> Admissions(s, es, id) <= 1)
  {
    RunExecutions(Idle(true), es, id);
  }

  /** Without an executor nothing is ever handed over. */
  lemma {:induction false} NothingToExecute(s: System, es: seq<Event>, id: string)
    requires Schedule(s, es) && !s.hasExecutor && NoneExecuting(s.tasks)
    ensures ExecutorCalls(s, es, id) == 0
    decreases |es|
  {
    if es != [] { NothingToExecute(Step(s, es[0]), es[1..], id); }
  }

  predicate NoneExecuting(tasks: seq<Pc>) {
    forall t :: 0 <= t < |tasks| ==> !tasks[t].Executing?
  }

  /**
   * The executor is called for a refundId at most once more than sweeps
   * evicted it, and not more than that once it is unrecorded.
   */
  lemma {:induction false} ExecutorCallsBounded(hasExecutor: bool, es: seq<Event>, id: string)
    requires Schedule(Idle(hasExecutor), es)
    ensures ExecutorCalls(Idle(hasExecutor), es, id) <= 1 + Evictions(Idle(hasExecutor), es, id)
    ensures id !in Run(Idle(hasExecutor), es).store ==>
      ExecutorCalls(Idle(hasExecutor), es, id) <= Evictions(Idle(hasExecutor), es, id)
  {
    StoreBalance(Idle(hasExecutor), es, id);
    if hasExecutor { RunExecutions(Idle(true), es, id); } else { NothingToExecute(Idle(false), es, id); }
  }

  // ---------------------------------------------------------------- what reaches the executor

  /** Every claim on its way to the executor has passed validation. */
  ghost predicate Vetted(s: System) {
    forall t :: 0 <= t < |s.tasks| && ((s.tasks[t].Inserted? && s.hasExecutor) || s.tasks[t].Executing?) ==>
      VettedRecord(s.tasks[t].record)
  }

  predicate VettedRecord(r: ClaimedRefund) {
    Payable(r) && r.status == Pending && r.txHash == None && r.failureReason == None
  }

  lemma {:induction false} RunKeepsVetted(s: System, es: seq<Event>)
    requires Vetted(s) && Schedule(s, es)
    ensures Vetted(Run(s, es)) && Run(s, es).hasExecutor == s.hasExecutor
    decreases |es|
  {
    if es != [] { RunKeepsVetted(Step(s, es[0]), es[1..]); }
  }

  /** Only validated claims reach the executor, sweeps or not. */
  lemma {:induction false} OnlyPayableClaimsExecuted(hasExecutor: bool, es: seq<Event>, e: Event)
    requires Schedule(Idle(hasExecutor), es) && Legal(Run(Idle(hasExecutor), es), e)
    ensures var handed := HandedOver(Run(Idle(hasExecutor), es), e);
      handed.Some? ==> hasExecutor && VettedRecord(handed.value)
  {
    RunKeepsVetted(Idle(hasExecutor), es);
  }
}
