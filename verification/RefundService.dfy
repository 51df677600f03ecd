/**
 * The objects of apps/backend/src/services/refund.service.ts, updated in
 * place.  Each method is one piece of code between two `await`s and is proved
 * to be the matching step of Refund.
 */
module RefundServiceModel {
  import opened Prelude
  import opened Refund

  class InMemoryRefundStore {
    var store: Store

    constructor ()
      ensures store == map[]
    {
      store := map[];
    }

    method Get(refundId: string) returns (found: Option<ClaimedRefund>)
      ensures found == Lookup(store, refundId)
    {
      found := if refundId in store then Some(store[refundId]) else None;
    }

    method Set(refundId: string, record: ClaimedRefund)
      modifies this
      ensures store == old(store)[refundId := record]
    {
      store := store[refundId := record];
    }

    method InsertIfAbsent(refundId: string, record: ClaimedRefund) returns (inserted: bool)
      modifies this
      ensures (store, inserted) == Refund.InsertIfAbsent(old(store), refundId, record)
    {
      if refundId in store {
        return false;
      }
      store := store[refundId := record];
      return true;
    }

    /** Deletes while iterating, and counts the deletions. */
    method CleanupBefore(cutoff: int) returns (removed: nat)
      modifies this
      ensures store == Swept(old(store), cutoff)
      ensures removed == |old(store)| - |store|
    {
      removed := 0;
      var ids := store.Keys;
      while ids != {}
        invariant ids <= store.Keys <= old(store).Keys
        invariant forall id :: id in store ==> store[id] == old(store)[id]
        invariant forall id :: id in old(store) && id !in ids ==>
          (id in store <==> old(store)[id].claimedAt >= cutoff)
        invariant removed == |old(store).Keys| - |store.Keys|
        decreases ids
      {
        var id :| id in ids;
        ids := ids - {id};
        if store[id].claimedAt < cutoff {
          assert (store - {id}).Keys == store.Keys - {id};
          store := store - {id};
          removed := removed + 1;
        }
      }
    }
  }

  class RefundService {
    const records: InMemoryRefundStore
    const hasExecutor: bool
    /** The suspended claims, in call order. */
    var tasks: seq<Pc>

    ghost function Abs(): System
      reads this, records
    {
      System(hasExecutor, records.store, tasks)
    }

    constructor (hasExecutor: bool)
      ensures fresh(records) && Abs() == Idle(hasExecutor)
    {
      this.hasExecutor := hasExecutor;
      tasks := [];
      records := new InMemoryRefundStore();
    }

    /** `claimRefund` up to its first `await`. */
    method ClaimRefund(payload: Payload, now: int)
      modifies this, records
      ensures Abs() == Begin(old(Abs()), payload, now)
    {
      if payload.refundId == "" || payload.escrowId == "" {
        tasks := tasks + [Done(Failure(MissingIds))];
        return;
      }
      if hasExecutor {
        var error := ExecutableError(payload);
        if error.Some? {
          tasks := tasks + [Done(Failure(error.value))];
          return;
        }
      }
      var record := NewRecord(payload, now, hasExecutor);
      var won := records.InsertIfAbsent(payload.refundId, record);
      tasks := tasks + [Inserted(record, won)];
    }

    /** Task `t` from where it is suspended to its next `await`. */
    method Continue(t: nat)
      requires Legal(Abs(), Resumption(t))
      modifies this, records
      ensures Abs() == Resume(old(Abs()), t)
    {
      match tasks[t]
      case Inserted(record, won) =>
        if !won {
          var existing := records.Get(record.refundId);
          tasks := tasks[t := Reread(record.refundId, existing)];
        } else if hasExecutor {
          tasks := tasks[t := Executing(record)];
        } else {
          tasks := tasks[t := Done(Success(record))];
        }
      case Settled(reply) =>
        tasks := tasks[t := Done(reply)];
      case Reread(id, existing) =>
        if existing.Some? && existing.value.status == Failed {
          records.Set(id, existing.value);
          tasks := tasks[t := Rewritten(id, existing.value.claimedAt)];
        } else {
          var claimedAt := if existing.Some? then Some(existing.value.claimedAt) else None;
          tasks := tasks[t := Done(Failure(AlreadyClaimed(id, claimedAt)))];
        }
      case Rewritten(id, claimedAt) =>
        tasks := tasks[t := Done(Failure(AlreadyClaimed(id, Some(claimedAt))))];
    }

    /** The executor's promise settles and the claim goes on to its next `await`. */
    method Settle(t: nat, outcome: Outcome)
      requires Legal(Abs(), ExecutorAnswer(t, outcome))
      modifies this, records
      ensures Abs() == Answer(old(Abs()), t, outcome)
    {
      var record := tasks[t].record;
      records.Set(record.refundId, SettledRecord(record, outcome));
      tasks := tasks[t := Settled(SettledReply(record, outcome))];
    }

    /** `cleanup`: the cutoff is `retentionDays` before now, in milliseconds. */
    method Cleanup(now: int, retentionDays: int) returns (removed: nat)
      modifies records
      ensures Abs() == Step(old(Abs()), Sweep(now - retentionDays * 86_400_000))
      ensures removed == |old(records.store)| - |records.store|
    {
      removed := records.CleanupBefore(now - retentionDays * 24 * 60 * 60 * 1000);
    }
  }
}
