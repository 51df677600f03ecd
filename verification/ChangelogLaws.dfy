/**
 * What each changelog call writes, answers and emits, in the words of the
 * call (apps/backend/src/services/changelog.service.ts).
 */
module ChangelogLaws {
  import opened Prelude
  import opened Changelog
  import Keyed
  import Paging

  /** The caller's request id, or else that of the request being handled. */
  predicate IsRequestOf(requestId: Option<string>, given: Option<string>, ambient: Option<string>) {
    (given.Some? ==> requestId == given) && (given.None? ==> requestId == ambient)
  }

  predicate MoneyText(action: MoneyAction, text: string) {
    match action
    case RefundSubmitted => text == "refund.submitted"
    case RefundCompleted => text == "refund.completed"
    case TransferCompleted => text == "transfer.completed"
  }

  /** The entry says what the call asked to be written, at the time of the call. */
  predicate AskedFor(op: Op, e: Entry) {
    match op
    case AppendEntry(p, c) =>
      && e.entryId == p.entryId && e.action == p.action && e.actorId == p.actorId && e.resourceId == p.resourceId
      && e.metadata == p.metadata && e.timestamp == c.now && IsRequestOf(e.requestId, p.requestId, c.requestId)
    case RecordMoneyMovement(action, actorId, resourceId, metadata, requestId, c) =>
      && MoneyText(action, e.action) && e.entryId == e.action + ":" + resourceId
      && e.actorId == actorId && e.resourceId == resourceId
      && e.metadata == metadata && e.timestamp == c.now && IsRequestOf(e.requestId, requestId, c.requestId)
    case _ => false
  }

  predicate Complete(p: Payload) {
    p.entryId != "" && p.action != "" && p.actorId != "" && p.resourceId != ""
  }

  /** The entry is stored last and announced once; nothing else changes. */
  predicate Wrote(log: Log, after: Log, e: Entry) {
    && after.store == log.store + [e]
    && |after.emitted| == |log.emitted| + 1 && after.emitted[..|log.emitted|] == log.emitted
    && var event := after.emitted[|log.emitted|];
       event.kind == EntryAppended && event.entry == e && event.occurredAt == e.timestamp && event.requestId == e.requestId
  }

  lemma {:induction false} AppendIs(log: Log, op: Op)
    requires op.AppendEntry?
    ensures var (after, reply) := Apply(log, op);
      if !Complete(op.payload) then after == log && reply == Failure(InvalidPayload)
      else if Find(log.store, op.payload.entryId).Some? then after == log && reply == Failure(DuplicateEntry(op.payload.entryId))
      else reply.Success? && AskedFor(op, reply.value) && Wrote(log, after, reply.value)
  {}

  lemma {:induction false} RecordIs(log: Log, op: Op)
    requires op.RecordMoneyMovement?
    ensures var (after, reply) := Apply(log, op); var existing := Find(log.store, op.action.Name() + ":" + op.resourceId);
      if existing.Some? then after == log && reply == Success(existing.value)
      else if op.actorId == "" || op.resourceId == "" then after == log && reply == Failure(InvalidPayload)
      else reply.Success? && AskedFor(op, reply.value) && Wrote(log, after, reply.value)
  {
    NamesAreTexts(op.action);
    assert |op.action.Name()| >= 16;
  }

  lemma {:induction false} NamesAreTexts(action: MoneyAction)
    ensures MoneyText(action, action.Name())
  {}

  lemma {:induction false} RemoveIs(log: Log, op: Op, k: string)
    requires op.RemoveEntry? && Keyed.Unique(log.store, Key())
    ensures var (after, reply) := Apply(log, op); var found := Find(log.store, op.entryId);
      if op.entryId == "" then after == log && reply == Failure(InvalidPayload)
      else if found.None? then after == log && reply == Failure(NotFound(op.entryId))
      else
        && reply == Success(found.value)
        && Find(after.store, k) == (if k == op.entryId then None else Find(log.store, k))
        && |after.emitted| == |log.emitted| + 1 && after.emitted[..|log.emitted|] == log.emitted
        && var event := after.emitted[|log.emitted|];
           && event.kind == EntryRemoved && event.entry == found.value && event.occurredAt == op.context.now
           && IsRequestOf(event.requestId, found.value.requestId, op.context.requestId)
  {
    Keyed.DeleteFind(log.store, Key(), op.entryId, k);
  }

  /** Updating is always refused and changes nothing. */
  lemma {:induction false} UpdateIsRefused(log: Log, op: Op)
    requires op.UpdateEntry?
    ensures Apply(log, op) == (log, Failure(UpdateForbidden))
  {}

  /** Call `i` of the run wrote this entry. */
  ghost predicate WrittenBy(ops: seq<Op>, i: nat, e: Entry) {
    i < |ops| && AskedFor(ops[i], e) && Apply(Run(EMPTY_LOG, ops[..i]), ops[i]).1 == Success(e)
  }

  ghost predicate Written(ops: seq<Op>, e: Entry) {
    exists i: nat :: WrittenBy(ops, i, e)
  }

  lemma {:induction false} WrittenMore(ops: seq<Op>, e: Entry)
    requires ops != [] && Written(ops[..|ops| - 1], e)
    ensures Written(ops, e)
  {
    var init := ops[..|ops| - 1];
    var i: nat :| WrittenBy(init, i, e);
    assert init[..i] == ops[..i];
    assert WrittenBy(ops, i, e);
  }

  /**
   * After any calls, every stored entry was written by one of them and says
   * what that call asked for: its action, actor, resource, metadata and
   * request, and the time of the call.
   */
  lemma {:induction false} EntriesComeFromCalls(ops: seq<Op>, i: nat)
    requires i < |Run(EMPTY_LOG, ops).store|
    ensures Written(ops, Run(EMPTY_LOG, ops).store[i])
  {
    var n := |ops| - 1;
    var log, op := Run(EMPTY_LOG, ops[..n]), ops[n];
    var (after, reply) := Apply(log, op);
    var e := after.store[i];
    if e in log.store {
      var j :| 0 <= j < |log.store| && log.store[j] == e;
      EntriesComeFromCalls(ops[..n], j);
      WrittenMore(ops, e);
    } else {
      NewIsWritten(log, op, e);
      assert WrittenBy(ops, n, e);
    }
  }

  lemma {:induction false} NewIsWritten(log: Log, op: Op, e: Entry)
    requires e in Apply(log, op).0.store && e !in log.store
    ensures AskedFor(op, e) && Apply(log, op).1 == Success(e)
  {
    match op
    case AppendEntry(_, _) => AppendIs(log, op);
    case RecordMoneyMovement(_, _, _, _, _, _) => RecordIs(log, op);
    case RemoveEntry(id, _) => Paging.FilterMembers(log.store, Keyed.IsNot(Key(), id));
    case UpdateEntry(_, _) =>
  }
}
