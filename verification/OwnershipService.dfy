/**
 * The objects of apps/backend/src/services/ownership-transfer.service.ts,
 * updated in place.  Each method is one piece of code between two `await`s
 * and is proved to be the matching step of OwnershipTransfer.
 */
module OwnershipService {
  import opened Prelude
  import opened OwnershipTransfer

  class Lock {
    var queue: seq<nat>
    var locked: bool

    function State(): LockState
      reads this
    {
      LockState(locked, queue)
    }

    constructor ()
      ensures State() == FREE_LOCK
    {
      queue, locked := [], false;
    }

    method Acquire(task: nat) returns (granted: bool)
      modifies this
      ensures (State(), granted) == AcquireLock(old(State()), task)
    {
      if !locked {
        locked := true;
        return true;
      }
      queue := queue + [task];
      return false;
    }

    method Release() returns (next: Option<nat>)
      modifies this
      ensures (State(), next) == ReleaseLock(old(State()))
    {
      if queue != [] {
        next := Some(queue[0]);
        queue := queue[1..];
      } else {
        next := None;
        locked := false;
      }
    }
  }

  class InMemoryOwnershipStore {
    var store: Store

    constructor ()
      ensures store == map[]
    {
      store := map[];
    }

    method Get(transferId: string) returns (found: Option<Transfer>)
      ensures found == Lookup(store, transferId)
    {
      found := if transferId in store then Some(store[transferId]) else None;
    }

    method Set(transferId: string, record: Transfer)
      modifies this
      ensures store == old(store)[transferId := record]
    {
      store := store[transferId := record];
    }

    method InsertIfAbsent(transferId: string, record: Transfer) returns (reply: Reply)
      modifies this
      ensures (store, reply) == OwnershipTransfer.InsertIfAbsent(old(store), transferId, record)
    {
      if transferId in store {
        return Failure(Conflict(transferId, store[transferId].state));
      }
      store := store[transferId := record];
      return Success(record);
    }
  }

  lemma {:induction false} OneMapped<V>(after: map<string, V>, before: map<string, V>, id: string)
    requires id in after && after.Keys == before.Keys + {id}
    requires forall k :: k in after && k != id ==> after[k] == before[k]
    ensures after == before[id := after[id]]
  {}

  class OwnershipTransferService {
    var locks: map<string, Lock>
    const records: InMemoryOwnershipStore
    /** The suspended calls, in call order. */
    var tasks: seq<Task>

    ghost function Locks(): set<object>
      reads this
    {
      set id | id in locks :: locks[id]
    }

    ghost function Abs(): System
      reads this, Locks(), records
    {
      System(map id | id in locks :: locks[id].State(), records.store, tasks)
    }

    ghost predicate Valid()
      reads this, Locks(), records
    {
      && (forall i, j :: i in locks && j in locks && i != j ==> locks[i] != locks[j])
      && Consistent(Abs())
    }

    constructor ()
      ensures Valid() && fresh(records) && locks == map[] && Abs() == IDLE
    {
      locks, tasks := map[], [];
      records := new InMemoryOwnershipStore();
      new;
      IdleIsConsistent();
    }

    method GetLock(transferId: string) returns (lock: Lock)
      requires forall i, j :: i in locks && j in locks && i != j ==> locks[i] != locks[j]
      modifies this`locks
      ensures transferId in locks && locks[transferId] == lock
      ensures locks.Keys == old(locks.Keys) + {transferId} && (forall i :: i in old(locks) ==> locks[i] == old(locks[i]))
      ensures forall i, j :: i in locks && j in locks && i != j ==> locks[i] != locks[j]
      ensures transferId !in old(locks) ==> fresh(lock)
      ensures lock.State() == LockOf(old(Abs()), transferId)
    {
      if transferId !in locks {
        var created := new Lock();
        locks := locks[transferId := created];
      }
      lock := locks[transferId];
    }

    /** `await this.getLock(transferId).acquire()` by the call numbered `task`. */
    method Enter(transferId: string, task: nat) returns (granted: bool)
      requires forall i, j :: i in locks && j in locks && i != j ==> locks[i] != locks[j]
      modifies this`locks, Locks()
      ensures fresh(Locks() - old(Locks()))
      ensures forall i, j :: i in locks && j in locks && i != j ==> locks[i] != locks[j]
      ensures var (lock, won) := AcquireLock(LockOf(old(Abs()), transferId), task);
        granted == won && Abs() == old(Abs()).(locks := old(Abs()).locks[transferId := lock])
    {
      ghost var before := Abs();
      var lock := GetLock(transferId);
      granted := lock.Acquire(task);
      forall k | k in locks && k != transferId ensures locks[k].State() == before.locks[k] {
        assert locks[k] == old(locks[k]) && locks[k] != lock;
      }
      OneMapped(Abs().locks, before.locks, transferId);
    }

    /** A call up to its first `await`. */
    method Begin(call: Call)
      requires Valid()
      modifies this, Locks()
      ensures Valid() && fresh(Locks() - old(Locks()))
      ensures Abs() == Arrive(old(Abs()), call)
    {
      ghost var before := Abs();
      if !call.WellFormed() {
        tasks := tasks + [Task(call, Done(Failure(InvalidPayload)), 0)];
        assert Abs().locks == before.locks;
      } else {
        var granted := Enter(call.transferId, |tasks|);
        ghost var entered := Abs().locks;
        tasks := tasks + [Task(call, if granted then Granted else Waiting, 0)];
        assert Abs().locks == entered;
      }
      assert Abs() == Arrive(before, call);
      ArriveKeeps(before, call);
    }

    /** The locks are separate objects, and the call that is past `acquire` has one. */
    ghost predicate Holds(t: nat)
      reads this
    {
      && (forall i, j :: i in locks && j in locks && i != j ==> locks[i] != locks[j])
      && t < |tasks| && tasks[t].pc.Active() && tasks[t].call.transferId in locks
    }

    /** The `finally` block: release the lock and wake the next waiter. */
    method End(t: nat, reply: Reply)
      requires Holds(t)
      modifies this`tasks, Locks()
      ensures Abs() == Finish(old(Abs()), t, reply)
      ensures locks == old(locks)
    {
      var id := tasks[t].call.transferId;
      tasks := SetPc(tasks, t, Done(reply));
      var next := locks[id].Release();
      tasks := Wake(tasks, next);
      assert Abs().locks == Finish(old(Abs()), t, reply).locks;
    }

    /** Task `t` from where it is suspended to its next `await`. */
    method Continue(t: nat, now: int)
      requires Valid() && Enabled(Abs(), t)
      modifies this`tasks, Locks(), records
      ensures Valid() && locks == old(locks)
      ensures Abs() == Resume(old(Abs()), t, now)
    {
      ghost var before := Abs();
      assert LockMatches(before, tasks[t].call.transferId) && HasHolder(before.tasks, tasks[t].call.transferId);
      Proceed(t, now);
      ResumeKeeps(before, t, now);
    }

    method Proceed(t: nat, now: int)
      requires Holds(t)
      modifies this`tasks, Locks(), records
      ensures locks == old(locks)
      ensures Abs() == Resume(old(Abs()), t, now)
    {
      var call := tasks[t].call;
      match tasks[t].pc
      case Granted =>
        if call.Initiate? {
          var record := Transfer(call.transferId, call.escrowId, call.fromOwner, call.toOwner, Pending, now, None);
          var reply := records.InsertIfAbsent(call.transferId, record);
          tasks := tasks[t := Task(call, Inserted(reply), now)];
        } else {
          var found := records.Get(call.transferId);
          tasks := SetPc(tasks, t, Fetched(found));
        }
        assert Abs().locks == old(Abs()).locks;
      case Inserted(reply) =>
        End(t, reply);
      case Fetched(None) =>
        End(t, Failure(NotFound(call.transferId)));
      case Fetched(Some(transfer)) =>
        if transfer.state != Pending {
          End(t, Failure(AlreadyFinalized(call.transferId, transfer.state, call.Target())));
        } else {
          var updated := transfer.(state := call.Target(), finalizedAt := Some(now));
          records.Set(call.transferId, updated);
          tasks := tasks[t := Task(call, Stored(updated), now)];
          assert Abs().locks == old(Abs()).locks;
        }
      case Stored(updated) =>
        End(t, Success(updated));
    }
  }
}
