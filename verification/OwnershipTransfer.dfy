/**
 * Ownership transfers: a FIFO mutex per transferId around a read-check-write
 * state machine (apps/backend/src/services/ownership-transfer.service.ts).
 *
 * Every call is a task.  One step runs the code between two `await`s of one
 * task; any task that is not queued for its lock may take the next step.
 */
module OwnershipTransfer {
  import opened Prelude

  // ---------------------------------------------------------------- data

  datatype TransferState = Pending | Accepted | Cancelled

  datatype Transfer = Transfer(
    transferId: string,
    escrowId: string,
    fromOwner: string,
    toOwner: string,
    state: TransferState,
    initiatedAt: int,
    finalizedAt: Option<int>)

  datatype Error =
    | InvalidPayload
    | NotFound(transferId: string)
    | AlreadyFinalized(transferId: string, current: TransferState, attempted: TransferState)
    | Conflict(transferId: string, current: TransferState)

  type Reply = Result<Transfer, Error>

  datatype Call =
    | Initiate(transferId: string, escrowId: string, fromOwner: string, toOwner: string)
    | Accept(transferId: string)
    | Cancel(transferId: string)
  {
    /** The payload checks made before the lock is asked for. */
    predicate WellFormed() {
      transferId != "" && (Initiate? ==> escrowId != "" && fromOwner != "" && toOwner != "")
    }

    function Target(): TransferState {
      if Cancel? then Cancelled else Accepted
    }
  }

  type Store = map<string, Transfer>

  // ---------------------------------------------------------------- reference

  /** A call and the clock reading it took. */
  datatype Request = Request(call: Call, clock: int)

  /** What one call does to the record of its transferId when nothing else runs. */
  function Outcome(q: Request, found: Option<Transfer>): (Option<Transfer>, Reply) {
    var c := q.call;
    if !c.WellFormed() then (found, Failure(InvalidPayload))
    else if c.Initiate? then
      match found
      case Some(prior) => (found, Failure(Conflict(c.transferId, prior.state)))
      case None =>
        var record := Transfer(c.transferId, c.escrowId, c.fromOwner, c.toOwner, Pending, q.clock, None);
        (Some(record), Success(record))
    else
      match found
      case None => (found, Failure(NotFound(c.transferId)))
      case Some(prior) =>
        if prior.state != Pending then (found, Failure(AlreadyFinalized(c.transferId, prior.state, c.Target())))
        else
          var updated := prior.(state := c.Target(), finalizedAt := Some(q.clock));
          (Some(updated), Success(updated))
  }

  /** Serves one request to completion on the whole store. */
  function ServeOne(store: Store, q: Request): (Store, Reply) {
    var (entry, reply) := Outcome(q, Lookup(store, q.call.transferId));
    (if entry.Some? then store[q.call.transferId := entry.value] else store, reply)
  }

  /** Serves the requests one at a time, in order, from an empty store. */
  function ServeInOrder(qs: seq<Request>): (Store, seq<Reply>) {
    if qs == [] then (map[], [])
    else
      var (store, replies) := ServeInOrder(qs[..|qs| - 1]);
      var (store', reply) := ServeOne(store, qs[|qs| - 1]);
      (store', replies + [reply])
  }

  // ---------------------------------------------------------------- the step system

  /** Where a call is suspended. */
  datatype Pc =
    | Waiting                           // queued for the lock
    | Granted                           // `acquire` has resolved
    | Inserted(reply: Reply)            // `insertIfAbsent` has run
    | Fetched(found: Option<Transfer>)  // `store.get` has run
    | Stored(updated: Transfer)         // `store.set` has run
    | Done(reply: Reply)
  {
    predicate Active() { !Waiting? && !Done? }

    predicate Committed() { Inserted? || Stored? || Done? }

    function Answer(): Reply
      requires Committed()
    {
      if Stored? then Success(updated) else reply
    }

    /** Steps still to come. */
    function Work(): nat {
      match this
      case Waiting => 4
      case Granted => 3
      case Fetched(_) => 2
      case Inserted(_) => 1
      case Stored(_) => 1
      case Done(_) => 0
    }
  }

  datatype Task = Task(call: Call, pc: Pc, clock: int)

  datatype LockState = LockState(locked: bool, queue: seq<nat>)

  datatype System = System(locks: map<string, LockState>, store: Store, tasks: seq<Task>)

  const IDLE: System := System(map[], map[], [])

  const FREE_LOCK: LockState := LockState(false, [])

  /** `getLock`: a missing lock is a free one. */
  function LockOf(s: System, id: string): LockState {
    if id in s.locks then s.locks[id] else FREE_LOCK
  }

  function AcquireLock(l: LockState, t: nat): (LockState, bool) {
    if !l.locked then (l.(locked := true), true) else (l.(queue := l.queue + [t]), false)
  }

  function ReleaseLock(l: LockState): (LockState, Option<nat>) {
    if l.queue != [] then (l.(queue := l.queue[1..]), Some(l.queue[0])) else (l.(locked := false), None)
  }

  /** The code of a call up to its first `await`. */
  function Arrive(s: System, c: Call): System {
    if !c.WellFormed() then s.(tasks := s.tasks + [Task(c, Done(Failure(InvalidPayload)), 0)])
    else
      var (lock, granted) := AcquireLock(LockOf(s, c.transferId), |s.tasks|);
      s.(locks := s.locks[c.transferId := lock],
         tasks := s.tasks + [Task(c, if granted then Granted else Waiting, 0)])
  }

  function SetPc(tasks: seq<Task>, t: nat, pc: Pc): seq<Task>
    requires t < |tasks|
  {
    tasks[t := tasks[t].(pc := pc)]
  }

  function Wake(tasks: seq<Task>, next: Option<nat>): seq<Task> {
    if next.Some? && next.value < |tasks| then SetPc(tasks, next.value, Granted) else tasks
  }

  /** Return or throw, then the `finally` block. */
  function Finish(s: System, t: nat, reply: Reply): System
    requires t < |s.tasks|
  {
    var id := s.tasks[t].call.transferId;
    var (lock, next) := ReleaseLock(LockOf(s, id));
    s.(locks := s.locks[id := lock], tasks := Wake(SetPc(s.tasks, t, Done(reply)), next))
  }

  predicate Enabled(s: System, t: nat) {
    t < |s.tasks| && s.tasks[t].pc.Active()
  }

  /** `insertIfAbsent` in the in-memory store. */
  function InsertIfAbsent(store: Store, id: string, record: Transfer): (Store, Reply) {
    if id in store then (store, Failure(Conflict(id, store[id].state))) else (store[id := record], Success(record))
  }

  /** The code of task `t` from where it is suspended to its next `await`. */
  function Resume(s: System, t: nat, now: int): System
    requires Enabled(s, t)
  {
    var Task(c, pc, clock) := s.tasks[t];
    match pc
    case Granted =>
      if c.Initiate? then
        var record := Transfer(c.transferId, c.escrowId, c.fromOwner, c.toOwner, Pending, now, None);
        var (store, reply) := InsertIfAbsent(s.store, c.transferId, record);
        s.(store := store, tasks := s.tasks[t := Task(c, Inserted(reply), now)])
      else s.(tasks := SetPc(s.tasks, t, Fetched(Lookup(s.store, c.transferId))))
    case Inserted(reply) => Finish(s, t, reply)
    case Fetched(found) =>
      if found.None? then Finish(s, t, Failure(NotFound(c.transferId)))
      else if found.value.state != Pending then
        Finish(s, t, Failure(AlreadyFinalized(c.transferId, found.value.state, c.Target())))
      else
        var updated := found.value.(state := c.Target(), finalizedAt := Some(now));
        s.(store := s.store[c.transferId := updated], tasks := s.tasks[t := Task(c, Stored(updated), now)])
    case Stored(updated) => Finish(s, t, Success(updated))
  }

  datatype Event = Arrival(call: Call) | Resumption(task: nat, now: int)

  predicate Legal(s: System, e: Event) {
    e.Resumption? ==> Enabled(s, e.task)
  }

  function Step(s: System, e: Event): System
    requires Legal(s, e)
  {
    match e
    case Arrival(c) => Arrive(s, c)
    case Resumption(t, now) => Resume(s, t, now)
  }

  /** Every event of the schedule is possible when its turn comes. */
  predicate Schedule(s: System, es: seq<Event>)
    decreases |es|
  {
    es == [] || (Legal(s, es[0]) && Schedule(Step(s, es[0]), es[1..]))
  }

  function Run(s: System, es: seq<Event>): System
    requires Schedule(s, es)
    decreases |es|
  {
    if es == [] then s else Run(Step(s, es[0]), es[1..])
  }

  // ---------------------------------------------------------------- invariant

  /** The tasks queued for `id`, oldest call first. */
  function Waiters(tasks: seq<Task>, id: string): seq<nat> {
    if tasks == [] then []
    else
      var n := |tasks| - 1;
      Waiters(tasks[..n], id) + (if tasks[n].call.transferId == id && tasks[n].pc.Waiting? then [n] else [])
  }

  /** The record of `id` after the committed calls on it, in call order. */
  function EntryAfter(tasks: seq<Task>, id: string): Option<Transfer> {
    if tasks == [] then None
    else
      var n := |tasks| - 1;
      var before := EntryAfter(tasks[..n], id);
      if tasks[n].call.transferId == id && tasks[n].pc.Committed()
      then Outcome(Request(tasks[n].call, tasks[n].clock), before).0
      else before
  }

  /** What a suspended task remembers is what a lone run would have seen. */
  predicate Remembers(tasks: seq<Task>, t: nat)
    requires t < |tasks|
  {
    var Task(c, pc, clock) := tasks[t];
    var before := EntryAfter(tasks[..t], c.transferId);
    && (pc.Committed() ==> pc.Answer() == Outcome(Request(c, clock), before).1)
    && (pc.Inserted? ==> c.Initiate?)
    && (pc.Stored? ==> !c.Initiate?)
    && (pc.Fetched? ==> !c.Initiate? && pc.found == before)
    && (!c.WellFormed() ==> pc.Done?)
  }

  /** The call has been given its lock. */
  predicate Entered(task: Task) {
    task.call.WellFormed() && !task.pc.Waiting?
  }

  /** Calls on one transferId are given the lock in call order, one at a time. */
  ghost predicate InCallOrder(tasks: seq<Task>) {
    forall i, j ::
      (0 <= i < j < |tasks| && tasks[i].call.transferId == tasks[j].call.transferId && Entered(tasks[j])) ==>
        tasks[i].pc.Done?
  }

  ghost predicate HasHolder(tasks: seq<Task>, id: string) {
    exists t :: 0 <= t < |tasks| && tasks[t].call.transferId == id && tasks[t].pc.Active()
  }

  ghost predicate LockMatches(s: System, id: string) {
    var l := LockOf(s, id);
    && l.queue == Waiters(s.tasks, id)
    && l.locked == HasHolder(s.tasks, id)
    && (!l.locked ==> l.queue == [])
  }

  ghost predicate Consistent(s: System) {
    && InCallOrder(s.tasks)
    && (forall id :: LockMatches(s, id))
    && (forall id :: Lookup(s.store, id) == EntryAfter(s.tasks, id))
    && (forall t :: 0 <= t < |s.tasks| ==> Remembers(s.tasks, t))
  }

  // ---------------------------------------------------------------- waiting tasks

  predicate WaitsFor(task: Task, id: string) {
    task.call.transferId == id && task.pc.Waiting?
  }

  lemma {:induction false} WaitersAre(tasks: seq<Task>, id: string)
    ensures forall t :: t in Waiters(tasks, id) <==> 0 <= t < |tasks| && WaitsFor(tasks[t], id)
    ensures forall i, j :: 0 <= i < j < |Waiters(tasks, id)| ==> Waiters(tasks, id)[i] < Waiters(tasks, id)[j]
  {
    if tasks != [] {
      var n := |tasks| - 1;
      WaitersAre(tasks[..n], id);
      var w := Waiters(tasks[..n], id);
      assert forall i :: 0 <= i < |w| ==> w[i] in w;
      assert WaitsFor(tasks[n], id) ==> Waiters(tasks, id) == w + [n] && Waiters(tasks, id)[|w|] == n;
      assert forall t :: 0 <= t < n ==> tasks[..n][t] == tasks[t];
    }
  }

  lemma {:induction false} WaitersSame(tasks: seq<Task>, tasks': seq<Task>, id: string)
    requires |tasks| == |tasks'|
    requires forall t :: 0 <= t < |tasks| ==> WaitsFor(tasks[t], id) == WaitsFor(tasks'[t], id)
    ensures Waiters(tasks, id) == Waiters(tasks', id)
  {
    if tasks != [] {
      WaitersSame(tasks[..|tasks| - 1], tasks'[..|tasks| - 1], id);
    }
  }

  lemma {:induction false} WaitersHeadLeaves(tasks: seq<Task>, tasks': seq<Task>, id: string, t: nat)
    requires |tasks| == |tasks'| && t < |tasks|
    requires Waiters(tasks, id) != [] && Waiters(tasks, id)[0] == t
    requires !WaitsFor(tasks'[t], id)
    requires forall u :: 0 <= u < |tasks| && u != t ==> WaitsFor(tasks[u], id) == WaitsFor(tasks'[u], id)
    ensures Waiters(tasks', id) == Waiters(tasks, id)[1..]
  {
    var n := |tasks| - 1;
    var w := Waiters(tasks[..n], id);
    WaitersAre(tasks[..n], id);
    if w == [] {
      assert Waiters(tasks, id) == [n];
      WaitersSame(tasks[..n], tasks'[..n], id);
      assert Waiters(tasks', id) == [];
    } else {
      assert Waiters(tasks, id)[0] == w[0] && w[0] in w;
      WaitersHeadLeaves(tasks[..n], tasks'[..n], id, t);
      assert Waiters(tasks'[..n], id) == w[1..];
    }
  }

  // ---------------------------------------------------------------- record of one transferId

  /** From `t` on, no later call on the same transferId has had an effect. */
  ghost predicate QuietAfter(tasks: seq<Task>, t: nat, id: string) {
    forall u :: t < u < |tasks| && tasks[u].call.transferId == id ==> tasks[u].pc.Waiting? || !tasks[u].call.WellFormed()
  }

  lemma {:induction false} EntryAfterQuiet(tasks: seq<Task>, t: nat, id: string)
    requires t < |tasks| && QuietAfter(tasks, t, id)
    ensures EntryAfter(tasks, id) == EntryAfter(tasks[..t + 1], id)
  {
    if t + 1 == |tasks| {
      assert tasks[..t + 1] == tasks;
    } else {
      var n := |tasks| - 1;
      EntryAfterQuiet(tasks[..n], t, id);
      assert tasks[..n][..t + 1] == tasks[..t + 1];
    }
  }

  predicate SameEffect(x: Task, y: Task, id: string) {
    x == y || (x.call == y.call && (x.call.transferId != id || (!x.pc.Committed() && !y.pc.Committed())))
  }

  lemma {:induction false} EntryAfterSame(tasks: seq<Task>, tasks': seq<Task>, id: string)
    requires |tasks| == |tasks'|
    requires forall t :: 0 <= t < |tasks| ==> SameEffect(tasks[t], tasks'[t], id)
    ensures EntryAfter(tasks, id) == EntryAfter(tasks', id)
  {
    if tasks != [] {
      EntryAfterSame(tasks[..|tasks| - 1], tasks'[..|tasks| - 1], id);
    }
  }

  // ---------------------------------------------------------------- every step keeps the invariant

  /** While `t` holds its lock, later calls on its transferId wait. */
  lemma {:induction false} HolderIsAlone(s: System, t: nat)
    requires Consistent(s) && Enabled(s, t)
    ensures QuietAfter(s.tasks, t, s.tasks[t].call.transferId)
    ensures s.tasks[t].call.WellFormed()
    ensures Lookup(s.store, s.tasks[t].call.transferId) == EntryAfter(s.tasks[..t], s.tasks[t].call.transferId) || s.tasks[t].pc.Committed()
  {
    var id := s.tasks[t].call.transferId;
    assert Remembers(s.tasks, t);
    EntryAfterQuiet(s.tasks, t, id);
    assert s.tasks[..t + 1][..t] == s.tasks[..t];
  }

  /**
   * Replacing the holder's task by a later stage of the same call, and the
   * record of its transferId by what that stage says, changes nothing else.
   */
  lemma {:induction false} HolderMoves(s: System, t: nat, x: Task, tasks': seq<Task>)
    requires Consistent(s) && Enabled(s, t)
    requires x.call == s.tasks[t].call && !x.pc.Waiting?
    requires tasks' == s.tasks[t := x] && Remembers(tasks', t)
    ensures forall u :: 0 <= u < |s.tasks| ==> Remembers(tasks', u)
    ensures forall id :: id != x.call.transferId ==> EntryAfter(tasks', id) == EntryAfter(s.tasks, id)
    ensures EntryAfter(tasks', x.call.transferId)
      == if x.pc.Committed() then Outcome(Request(x.call, x.clock), EntryAfter(s.tasks[..t], x.call.transferId)).0
         else EntryAfter(s.tasks[..t], x.call.transferId)
    ensures forall id :: Waiters(tasks', id) == Waiters(s.tasks, id)
    ensures InCallOrder(tasks')
  {
    var id := x.call.transferId;
    HolderIsAlone(s, t);
    forall k ensures Waiters(tasks', k) == Waiters(s.tasks, k) {
      WaitersSame(s.tasks, tasks', k);
    }
    forall k | k != id ensures EntryAfter(tasks', k) == EntryAfter(s.tasks, k) {
      EntryAfterSame(s.tasks, tasks', k);
    }
    EntryAfterQuiet(tasks', t, id);
    assert tasks'[..t + 1][..t] == s.tasks[..t];
    forall u | 0 <= u < |s.tasks| ensures Remembers(tasks', u) {
      assert Remembers(s.tasks, u);
      if u < t {
        assert tasks'[..u] == s.tasks[..u];
      } else if u > t && s.tasks[u].call.transferId != id {
        EntryAfterSame(s.tasks[..u], tasks'[..u], s.tasks[u].call.transferId);
      }
    }
  }

  lemma {:induction false} AdvanceKeeps(s: System, t: nat, x: Task, store': Store)
    requires Consistent(s) && Enabled(s, t)
    requires x.call == s.tasks[t].call && x.pc.Active()
    requires Remembers(s.tasks[t := x], t)
    requires var id := x.call.transferId;
      && (forall k :: k != id ==> Lookup(store', k) == Lookup(s.store, k))
      && Lookup(store', id) == (if x.pc.Committed() then Outcome(Request(x.call, x.clock), EntryAfter(s.tasks[..t], id)).0
                                else EntryAfter(s.tasks[..t], id))
    ensures Consistent(s.(store := store', tasks := s.tasks[t := x]))
  {
    var s' := s.(store := store', tasks := s.tasks[t := x]);
    HolderMoves(s, t, x, s'.tasks);
    forall id ensures LockMatches(s', id) {
      assert LockMatches(s, id);
      if HasHolder(s.tasks, id) {
        var u :| 0 <= u < |s.tasks| && s.tasks[u].call.transferId == id && s.tasks[u].pc.Active();
        assert s'.tasks[u].call.transferId == id && s'.tasks[u].pc.Active();
      }
    }
    forall id ensures Lookup(s'.store, id) == EntryAfter(s'.tasks, id) {
    }
  }

  /** The first waiter takes over: only its program counter changes. */
  lemma {:induction false} WakeKeeps(tasks: seq<Task>, id: string, n: nat, tasks': seq<Task>)
    requires InCallOrder(tasks) && (forall t :: 0 <= t < |tasks| ==> Remembers(tasks, t))
    requires Waiters(tasks, id) != [] && Waiters(tasks, id)[0] == n
    requires !HasHolder(tasks, id)
    requires n < |tasks| && tasks' == SetPc(tasks, n, Granted)
    ensures InCallOrder(tasks') && (forall t :: 0 <= t < |tasks| ==> Remembers(tasks', t))
    ensures forall k :: EntryAfter(tasks', k) == EntryAfter(tasks, k)
    ensures forall k :: k != id ==> Waiters(tasks', k) == Waiters(tasks, k)
    ensures Waiters(tasks', id) == Waiters(tasks, id)[1..]
    ensures forall k :: HasHolder(tasks', k) == (k == id || HasHolder(tasks, k))
  {
    WaitersAre(tasks, id);
    var w := Waiters(tasks, id);
    assert w[0] in w && WaitsFor(tasks[n], id);
    WaitersHeadLeaves(tasks, tasks', id, n);
    forall k ensures EntryAfter(tasks', k) == EntryAfter(tasks, k) {
      EntryAfterSame(tasks, tasks', k);
    }
    forall k | k != id ensures Waiters(tasks', k) == Waiters(tasks, k) {
      WaitersSame(tasks, tasks', k);
    }
    forall t | 0 <= t < |tasks| ensures Remembers(tasks', t) {
      assert Remembers(tasks, t);
      EntryAfterSame(tasks[..t], tasks'[..t], tasks[t].call.transferId);
    }
    WakeHolders(tasks, id, n);
    forall i | 0 <= i < n && tasks[i].call.transferId == id ensures tasks[i].pc.Done? {
      assert i !in w && !tasks[i].pc.Active();
    }
  }

  lemma {:induction false} WakeHolders(tasks: seq<Task>, id: string, n: nat)
    requires n < |tasks| && WaitsFor(tasks[n], id)
    ensures forall k :: HasHolder(SetPc(tasks, n, Granted), k) == (k == id || HasHolder(tasks, k))
  {
    var tasks' := SetPc(tasks, n, Granted);
    forall k ensures HasHolder(tasks', k) == (k == id || HasHolder(tasks, k)) {
      if HasHolder(tasks, k) {
        var u :| 0 <= u < |tasks| && tasks[u].call.transferId == k && tasks[u].pc.Active();
        assert tasks'[u].call.transferId == k && tasks'[u].pc.Active();
      }
      assert tasks'[n].call.transferId == id && tasks'[n].pc.Active();
    }
  }

  /** Once the holder's call is over, its lock has no holder. */
  lemma {:induction false} HolderLeaves(s: System, t: nat, reply: Reply, mid: seq<Task>)
    requires Consistent(s) && Enabled(s, t)
    requires mid == SetPc(s.tasks, t, Done(reply))
    ensures forall k :: HasHolder(mid, k) == (k != s.tasks[t].call.transferId && HasHolder(s.tasks, k))
  {
    var id := s.tasks[t].call.transferId;
    HolderIsAlone(s, t);
    assert Entered(s.tasks[t]);
    forall u | 0 <= u < |mid| && mid[u].call.transferId == id ensures !mid[u].pc.Active() {
      assert Remembers(s.tasks, u);
      assert Entered(s.tasks[u]) || s.tasks[u].pc.Waiting? || s.tasks[u].pc.Done?;
    }
    forall k ensures HasHolder(mid, k) == (k != id && HasHolder(s.tasks, k)) {
      if k != id && HasHolder(s.tasks, k) {
        var u :| 0 <= u < |mid| && s.tasks[u].call.transferId == k && s.tasks[u].pc.Active();
        assert mid[u] == s.tasks[u];
      }
    }
  }

  lemma {:induction false} FinishKeeps(s: System, t: nat, reply: Reply)
    requires Consistent(s) && Enabled(s, t)
    requires Remembers(SetPc(s.tasks, t, Done(reply)), t)
    requires s.tasks[t].pc.Committed() || reply.Failure?
    ensures Consistent(Finish(s, t, reply))
  {
    var id := s.tasks[t].call.transferId;
    var mid := SetPc(s.tasks, t, Done(reply));
    HolderMoves(s, t, mid[t], mid);
    HolderLeaves(s, t, reply, mid);
    assert forall k :: Lookup(s.store, k) == EntryAfter(mid, k) by {
      HolderIsAlone(s, t);
      EntryAfterQuiet(s.tasks, t, id);
      assert s.tasks[..t + 1][..t] == s.tasks[..t];
    }
    forall k | k != id ensures LockMatches(s.(tasks := mid), k) {
      assert LockMatches(s, k);
    }
    assert LockMatches(s, id) && HasHolder(s.tasks, id);
    ReleaseKeeps(s.(tasks := mid), id);
  }

  /** `release` with the finished task already out of the way. */
  lemma {:induction false} ReleaseKeeps(mid: System, id: string)
    requires InCallOrder(mid.tasks) && (forall t :: 0 <= t < |mid.tasks| ==> Remembers(mid.tasks, t))
    requires forall k :: Lookup(mid.store, k) == EntryAfter(mid.tasks, k)
    requires forall k :: k != id ==> LockMatches(mid, k)
    requires LockOf(mid, id) == LockState(true, Waiters(mid.tasks, id)) && !HasHolder(mid.tasks, id)
    ensures var (lock, next) := ReleaseLock(LockOf(mid, id));
      Consistent(mid.(locks := mid.locks[id := lock], tasks := Wake(mid.tasks, next)))
  {
    var (lock, next) := ReleaseLock(LockOf(mid, id));
    var s' := mid.(locks := mid.locks[id := lock], tasks := Wake(mid.tasks, next));
    var queue := LockOf(mid, id).queue;
    if queue != [] {
      WaitersAre(mid.tasks, id);
      assert queue[0] in queue;
      WakeKeeps(mid.tasks, id, queue[0], s'.tasks);
    }
    forall k ensures LockMatches(s', k) {
      assert k != id ==> LockMatches(mid, k);
    }
  }

  /** A new task at the end leaves what is known of the others. */
  lemma {:induction false} AppendKeeps(tasks: seq<Task>, x: Task)
    requires forall u :: 0 <= u < |tasks| ==> Remembers(tasks, u)
    requires x.pc == (if !x.call.WellFormed() then Done(Failure(InvalidPayload)) else if x.pc.Granted? then Granted else Waiting)
    ensures forall u :: 0 <= u <= |tasks| ==> Remembers(tasks + [x], u)
    ensures forall k :: EntryAfter(tasks + [x], k) == EntryAfter(tasks, k)
    ensures forall k :: Waiters(tasks + [x], k) == Waiters(tasks, k) + (if WaitsFor(x, k) then [|tasks|] else [])
    ensures forall k :: HasHolder(tasks + [x], k) == (HasHolder(tasks, k) || (x.call.transferId == k && x.pc.Active()))
  {
    var tasks' := tasks + [x];
    assert tasks'[..|tasks|] == tasks;
    forall u | 0 <= u <= |tasks| ensures Remembers(tasks', u) {
      assert tasks'[..u] == tasks[..u];
      assert u < |tasks| ==> Remembers(tasks, u);
    }
    forall k ensures HasHolder(tasks', k) == (HasHolder(tasks, k) || (x.call.transferId == k && x.pc.Active())) {
      if HasHolder(tasks, k) {
        var u :| 0 <= u < |tasks| && tasks[u].call.transferId == k && tasks[u].pc.Active();
        assert tasks'[u] == tasks[u];
      }
      assert tasks'[|tasks|] == x;
    }
  }

  lemma {:induction false} ArriveKeeps(s: System, c: Call)
    requires Consistent(s)
    ensures Consistent(Arrive(s, c))
  {
    var s' := Arrive(s, c);
    var x := s'.tasks[|s.tasks|];
    assert LockMatches(s, c.transferId);
    AppendKeeps(s.tasks, x);
    if Entered(x) { FreeLockMeansDone(s, c.transferId); }
    forall k ensures LockMatches(s', k) {
      assert LockMatches(s, k);
      ArrivalAtLock(s, c, k);
    }
  }

  lemma {:induction false} ArrivalAtLock(s: System, c: Call, k: string)
    requires LockMatches(s, k)
    requires var x := Arrive(s, c).tasks[|s.tasks|];
      && Waiters(s.tasks + [x], k) == Waiters(s.tasks, k) + (if WaitsFor(x, k) then [|s.tasks|] else [])
      && HasHolder(s.tasks + [x], k) == (HasHolder(s.tasks, k) || (x.call.transferId == k && x.pc.Active()))
    ensures LockMatches(Arrive(s, c), k)
  {
    var s' := Arrive(s, c);
    var x := s'.tasks[|s.tasks|];
    assert s'.tasks == s.tasks + [x];
    if k != c.transferId || !c.WellFormed() {
      assert LockOf(s', k) == LockOf(s, k);
    }
  }

  /** Nobody is before a call that finds its lock free. */
  lemma {:induction false} FreeLockMeansDone(s: System, id: string)
    requires LockMatches(s, id) && !LockOf(s, id).locked
    ensures forall i :: 0 <= i < |s.tasks| && s.tasks[i].call.transferId == id ==> s.tasks[i].pc.Done?
  {
    WaitersAre(s.tasks, id);
    forall i | 0 <= i < |s.tasks| && s.tasks[i].call.transferId == id ensures s.tasks[i].pc.Done? {
      assert i !in Waiters(s.tasks, id) && !s.tasks[i].pc.Active();
    }
  }

  lemma {:induction false} ResumeKeeps(s: System, t: nat, now: int)
    requires Consistent(s) && Enabled(s, t)
    ensures Consistent(Resume(s, t, now))
  {
    var Task(c, pc, clock) := s.tasks[t];
    HolderIsAlone(s, t);
    assert Remembers(s.tasks, t);
    match pc
    case Granted =>
      if c.Initiate? {
        var record := Transfer(c.transferId, c.escrowId, c.fromOwner, c.toOwner, Pending, now, None);
        var (store, reply) := InsertIfAbsent(s.store, c.transferId, record);
        var x := Task(c, Inserted(reply), now);
        assert s.tasks[t := x][..t] == s.tasks[..t];
        AdvanceKeeps(s, t, x, store);
      } else {
        var x := s.tasks[t].(pc := Fetched(Lookup(s.store, c.transferId)));
        assert s.tasks[t := x][..t] == s.tasks[..t];
        AdvanceKeeps(s, t, x, s.store);
      }
    case Inserted(reply) =>
      assert SetPc(s.tasks, t, Done(reply))[..t] == s.tasks[..t];
      FinishKeeps(s, t, reply);
    case Stored(updated) =>
      assert SetPc(s.tasks, t, Done(Success(updated)))[..t] == s.tasks[..t];
      FinishKeeps(s, t, Success(updated));
    case Fetched(found) =>
      if found.Some? && found.value.state == Pending {
        var updated := found.value.(state := c.Target(), finalizedAt := Some(now));
        var x := Task(c, Stored(updated), now);
        assert s.tasks[t := x][..t] == s.tasks[..t];
        AdvanceKeeps(s, t, x, s.store[c.transferId := updated]);
      } else {
        var reply := if found.None? then Failure(NotFound(c.transferId))
                     else Failure(AlreadyFinalized(c.transferId, found.value.state, c.Target()));
        assert SetPc(s.tasks, t, Done(reply))[..t] == s.tasks[..t];
        FinishKeeps(s, t, reply);
      }
  }

  lemma {:induction false} IdleIsConsistent()
    ensures Consistent(IDLE)
  {}

  lemma {:induction false} StepKeeps(s: System, e: Event)
    requires Consistent(s) && Legal(s, e)
    ensures Consistent(Step(s, e))
  {
    match e
    case Arrival(c) => ArriveKeeps(s, c);
    case Resumption(t, now) => ResumeKeeps(s, t, now);
  }

  lemma {:induction false} RunKeeps(s: System, es: seq<Event>)
    requires Consistent(s) && Schedule(s, es)
    ensures Consistent(Run(s, es))
    decreases |es|
  {
    if es != [] {
      StepKeeps(s, es[0]);
      RunKeeps(Step(s, es[0]), es[1..]);
    }
  }

  // ---------------------------------------------------------------- serial equivalence

  /** The calls that have taken effect, in call order, with the clock each one read. */
  function Requests(tasks: seq<Task>): seq<Request> {
    if tasks == [] then []
    else
      var n := |tasks| - 1;
      Requests(tasks[..n]) + (if tasks[n].pc.Committed() then [Request(tasks[n].call, tasks[n].clock)] else [])
  }

  /** What those calls answer. */
  function Answers(tasks: seq<Task>): seq<Reply> {
    if tasks == [] then []
    else
      var n := |tasks| - 1;
      Answers(tasks[..n]) + (if tasks[n].pc.Committed() then [tasks[n].pc.Answer()] else [])
  }

  lemma {:induction false} ServeLast(qs: seq<Request>, q: Request)
    ensures var (store, replies) := ServeInOrder(qs); var (store', reply) := ServeOne(store, q);
      ServeInOrder(qs + [q]) == (store', replies + [reply])
  {
    assert (qs + [q])[..|qs|] == qs;
  }

  /** Serving the committed calls in order gives these entries and answers. */
  ghost predicate Served(tasks: seq<Task>) {
    && ServeInOrder(Requests(tasks)).1 == Answers(tasks)
    && forall id :: Lookup(ServeInOrder(Requests(tasks)).0, id) == EntryAfter(tasks, id)
  }

  lemma {:induction false} CommittedCallsServed(tasks: seq<Task>)
    requires forall t :: 0 <= t < |tasks| ==> Remembers(tasks, t)
    ensures Served(tasks)
  {
    if tasks != [] {
      var n := |tasks| - 1;
      forall t | 0 <= t < n ensures Remembers(tasks[..n], t) {
        assert Remembers(tasks, t);
        assert tasks[..n][..t] == tasks[..t];
      }
      CommittedCallsServed(tasks[..n]);
      assert Remembers(tasks, n);
      if tasks[n].pc.Committed() {
        CommittedCallServed(tasks);
      } else {
        assert Requests(tasks) == Requests(tasks[..n]) && Answers(tasks) == Answers(tasks[..n]);
      }
    }
  }

  lemma {:induction false} CommittedCallServed(tasks: seq<Task>)
    requires tasks != [] && tasks[|tasks| - 1].pc.Committed() && Remembers(tasks, |tasks| - 1)
    requires Served(tasks[..|tasks| - 1])
    ensures Served(tasks)
  {
    var n := |tasks| - 1;
    var before := tasks[..n];
    var q := Request(tasks[n].call, tasks[n].clock);
    var id := q.call.transferId;
    assert Lookup(ServeInOrder(Requests(before)).0, id) == EntryAfter(before, id);
    ServeLast(Requests(before), q);
    assert Requests(tasks) == Requests(before) + [q] && Answers(tasks) == Answers(before) + [tasks[n].pc.Answer()];
    forall k ensures Lookup(ServeInOrder(Requests(tasks)).0, k) == EntryAfter(tasks, k) {
      assert Lookup(ServeInOrder(Requests(before)).0, k) == EntryAfter(before, k);
      ServeOneEntry(ServeInOrder(Requests(before)).0, q, k);
    }
  }

  /** One request changes the entry of its own transferId only. */
  lemma {:induction false} ServeOneEntry(store: Store, q: Request, k: string)
    ensures Lookup(ServeOne(store, q).0, k)
      == if k == q.call.transferId then Outcome(q, Lookup(store, k)).0 else Lookup(store, k)
  {
    OutcomeKeepsEntry(q, Lookup(store, q.call.transferId));
  }

  lemma {:induction false} OutcomeKeepsEntry(q: Request, found: Option<Transfer>)
    ensures found.Some? ==> Outcome(q, found).0.Some?
  {}

  /**
   * Serial equivalence in every reachable state: the store and the answers
   * are those of serving the calls that have taken effect one at a time, in
   * call order.
   */
  lemma {:induction false} Serializable(es: seq<Event>)
    requires Schedule(IDLE, es)
    ensures var s := Run(IDLE, es); ServeInOrder(Requests(s.tasks)) == (s.store, Answers(s.tasks))
  {
    IdleIsConsistent();
    RunKeeps(IDLE, es);
    var s := Run(IDLE, es);
    CommittedCallsServed(s.tasks);
    SameLookups(ServeInOrder(Requests(s.tasks)).0, s.store);
  }

  predicate Quiet(s: System) {
    forall t :: 0 <= t < |s.tasks| ==> s.tasks[t].pc.Done?
  }

  /** The calls of a schedule, in arrival order. */
  function Calls(es: seq<Event>): seq<Call> {
    if es == [] then []
    else (if es[0].Arrival? then [es[0].call] else []) + Calls(es[1..])
  }

  function CallsOf(tasks: seq<Task>): seq<Call> {
    seq(|tasks|, i requires 0 <= i < |tasks| => tasks[i].call)
  }

  lemma {:induction false} TasksAreCalls(s: System, es: seq<Event>)
    requires Schedule(s, es)
    ensures CallsOf(Run(s, es).tasks) == CallsOf(s.tasks) + Calls(es)
    decreases |es|
  {
    if es != [] {
      StepAddsCall(s, es[0]);
      TasksAreCalls(Step(s, es[0]), es[1..]);
    }
  }

  lemma {:induction false} StepAddsCall(s: System, e: Event)
    requires Legal(s, e)
    ensures CallsOf(Step(s, e).tasks) == CallsOf(s.tasks) + (if e.Arrival? then [e.call] else [])
  {
    if e.Resumption? {
      ResumeShape(s, e.task, e.now);
      assert CallsOf(Step(s, e).tasks) == CallsOf(s.tasks);
    }
  }

  predicate RequestsAre(qs: seq<Request>, tasks: seq<Task>) {
    |qs| == |tasks| && forall i :: 0 <= i < |tasks| ==> qs[i] == Request(tasks[i].call, tasks[i].clock)
  }

  predicate AnswersAre(rs: seq<Reply>, tasks: seq<Task>) {
    |rs| == |tasks| && forall i :: 0 <= i < |tasks| ==> tasks[i].pc == Done(rs[i])
  }

  lemma {:induction false} QuietRequests(tasks: seq<Task>)
    requires forall t :: 0 <= t < |tasks| ==> tasks[t].pc.Done?
    ensures RequestsAre(Requests(tasks), tasks) && AnswersAre(Answers(tasks), tasks)
  {
    if tasks != [] {
      var n := |tasks| - 1;
      QuietRequests(tasks[..n]);
      assert Requests(tasks) == Requests(tasks[..n]) + [Request(tasks[n].call, tasks[n].clock)];
      assert Answers(tasks) == Answers(tasks[..n]) + [tasks[n].pc.reply];
    }
  }

  /**
   * Once every call has returned, whatever the interleaving was, there are
   * clock readings under which serving the calls one at a time in call order
   * gives the same store and the same reply to every call.
   */
  lemma {:induction false} SerialWhenQuiet(es: seq<Event>) returns (qs: seq<Request>)
    requires Schedule(IDLE, es) && Quiet(Run(IDLE, es))
    ensures |qs| == |Calls(es)| && forall i :: 0 <= i < |qs| ==> qs[i].call == Calls(es)[i]
    ensures var s := Run(IDLE, es);
      && |s.tasks| == |qs|
      && ServeInOrder(qs).0 == s.store
      && |ServeInOrder(qs).1| == |qs|
      && forall i :: 0 <= i < |qs| ==> s.tasks[i].pc == Done(ServeInOrder(qs).1[i])
  {
    var s := Run(IDLE, es);
    qs := Requests(s.tasks);
    assert ServeInOrder(qs) == (s.store, Answers(s.tasks)) by { Serializable(es); }
    QuietRequests(s.tasks);
    assert CallsOf(s.tasks) == Calls(es) by { TasksAreCalls(IDLE, es); }
    RequestsMeetCalls(s.tasks, qs);
  }

  lemma {:induction false} RequestsMeetCalls(tasks: seq<Task>, qs: seq<Request>)
    requires RequestsAre(qs, tasks)
    ensures |CallsOf(tasks)| == |qs| && forall i :: 0 <= i < |qs| ==> qs[i].call == CallsOf(tasks)[i]
  {
    forall i | 0 <= i < |qs| ensures qs[i].call == CallsOf(tasks)[i] {
      assert qs[i].call == tasks[i].call;
    }
  }

  // ---------------------------------------------------------------- one winner

  predicate IsInitiate(q: Request, id: string) {
    q.call.WellFormed() && q.call.Initiate? && q.call.transferId == id
  }

  predicate IsFinalize(q: Request, id: string) {
    q.call.WellFormed() && !q.call.Initiate? && q.call.transferId == id
  }

  /** Successful initiations of `id`. */
  function InitiateWins(qs: seq<Request>, rs: seq<Reply>, id: string): nat
    requires |qs| == |rs|
  {
    if qs == [] then 0
    else
      var n := |qs| - 1;
      InitiateWins(qs[..n], rs[..n], id) + (if IsInitiate(qs[n], id) && rs[n].Success? then 1 else 0)
  }

  /** Successful accepts and cancels of `id`. */
  function FinalizeWins(qs: seq<Request>, rs: seq<Reply>, id: string): nat
    requires |qs| == |rs|
  {
    if qs == [] then 0
    else
      var n := |qs| - 1;
      FinalizeWins(qs[..n], rs[..n], id) + (if IsFinalize(qs[n], id) && rs[n].Success? then 1 else 0)
  }

  lemma {:induction false} WinsWhenServed(qs: seq<Request>, id: string)
    ensures var (store, rs) := ServeInOrder(qs);
      && |rs| == |qs|
      && (id in store <==> exists i :: 0 <= i < |qs| && IsInitiate(qs[i], id))
      && InitiateWins(qs, rs, id) == (if id in store then 1 else 0)
      && FinalizeWins(qs, rs, id) == (if id in store && store[id].state != Pending then 1 else 0)
  {
    if qs != [] {
      var n := |qs| - 1;
      WinsWhenServed(qs[..n], id);
      var (before, rs) := ServeInOrder(qs[..n]);
      var (after, rs') := ServeInOrder(qs);
      assert rs'[..n] == rs;
      if id in after && !IsInitiate(qs[n], id) {
        assert id in before;
        var i :| 0 <= i < n && IsInitiate(qs[..n][i], id);
        assert IsInitiate(qs[i], id);
      }
      if i :| 0 <= i < n && IsInitiate(qs[i], id) {
        assert IsInitiate(qs[..n][i], id);
      }
    }
  }

  /**
   * In every reachable state, under every interleaving: of the initiations of
   * a transferId that have run, exactly one has succeeded (none only if none
   * has run), and at most one accept or cancel has - exactly one if and only
   * if the record is finalised.
   */
  lemma {:induction false} OneWinner(es: seq<Event>, id: string)
    requires Schedule(IDLE, es)
    ensures var s := Run(IDLE, es); var qs := Requests(s.tasks); var rs := Answers(s.tasks);
      && |qs| == |rs|
      && InitiateWins(qs, rs, id) == (if exists i :: 0 <= i < |qs| && IsInitiate(qs[i], id) then 1 else 0)
      && FinalizeWins(qs, rs, id) == (if id in s.store && s.store[id].state != Pending then 1 else 0)
  {
    Serializable(es);
    WinsWhenServed(Requests(Run(IDLE, es).tasks), id);
  }

  /** A finalised record never changes again, whatever runs afterwards. */
  lemma {:induction false} FinalizedIsForever(s: System, es: seq<Event>, id: string)
    requires Consistent(s) && Schedule(s, es)
    requires id in s.store && s.store[id].state != Pending
    ensures id in Run(s, es).store && Run(s, es).store[id] == s.store[id]
    decreases |es|
  {
    if es != [] {
      var s' := Step(s, es[0]);
      StepKeeps(s, es[0]);
      if es[0].Resumption? {
        var t := es[0].task;
        HolderIsAlone(s, t);
        assert Remembers(s.tasks, t);
      }
      FinalizedIsForever(s', es[1..], id);
    }
  }

  // ---------------------------------------------------------------- the lock

  /**
   * In every reachable state: at most one call on a transferId is past
   * `acquire` and not yet released; a non-empty queue implies that such a
   * call exists and can take a step (no lost wakeup); calls enter in the
   * order in which they asked; the queue is the calls still waiting, oldest
   * first.
   */
  lemma {:induction false} LockDiscipline(es: seq<Event>)
    requires Schedule(IDLE, es)
    ensures var s := Run(IDLE, es);
      && (forall t: nat, u: nat :: Enabled(s, t) && Enabled(s, u) && s.tasks[t].call.transferId == s.tasks[u].call.transferId ==> t == u)
      && (forall id :: LockOf(s, id).queue != [] ==> LockOf(s, id).locked)
      && (forall id :: LockOf(s, id).locked <==> exists t: nat :: Enabled(s, t) && s.tasks[t].call.transferId == id)
      && (forall i, j {:trigger s.tasks[i], s.tasks[j]} :: 0 <= i < j < |s.tasks| && s.tasks[i].call.transferId == s.tasks[j].call.transferId && Entered(s.tasks[j]) ==> s.tasks[i].pc.Done?)
      && (forall id :: LockOf(s, id).queue == Waiters(s.tasks, id))
  {
    IdleIsConsistent();
    RunKeeps(IDLE, es);
    var s := Run(IDLE, es);
    forall t: nat, u: nat | Enabled(s, t) && Enabled(s, u) && s.tasks[t].call.transferId == s.tasks[u].call.transferId ensures t == u {
      HolderIsAlone(s, t);
      HolderIsAlone(s, u);
    }
    forall id ensures LockOf(s, id).queue == Waiters(s.tasks, id) && (LockOf(s, id).queue != [] ==> LockOf(s, id).locked) {
      assert LockMatches(s, id);
    }
    forall id ensures LockOf(s, id).locked <==> exists t: nat :: Enabled(s, t) && s.tasks[t].call.transferId == id {
      assert LockMatches(s, id);
      if HasHolder(s.tasks, id) {
        var t :| 0 <= t < |s.tasks| && s.tasks[t].call.transferId == id && s.tasks[t].pc.Active();
        assert Enabled(s, t);
      }
    }
  }

  /** The step runs `release` on the lock of `id`. */
  predicate Releases(s: System, e: Event, id: string)
    requires Legal(s, e)
  {
    e.Resumption? && s.tasks[e.task].call.transferId == id && Step(s, e).tasks[e.task].pc.Done?
  }

  function ReleaseCount(s: System, es: seq<Event>, id: string): nat
    requires Schedule(s, es)
    decreases |es|
  {
    if es == [] then 0 else (if Releases(s, es[0], id) then 1 else 0) + ReleaseCount(Step(s, es[0]), es[1..], id)
  }

  /** The reply with which the next step of `t` ends its call, if it does. */
  function Finishing(s: System, t: nat): Option<Reply>
    requires Enabled(s, t)
  {
    var Task(c, pc, clock) := s.tasks[t];
    match pc
    case Granted => None
    case Inserted(reply) => Some(reply)
    case Fetched(found) =>
      if found.None? then Some(Failure(NotFound(c.transferId)))
      else if found.value.state != Pending then Some(Failure(AlreadyFinalized(c.transferId, found.value.state, c.Target())))
      else None
    case Stored(updated) => Some(Success(updated))
  }

  /** A resumption either ends the call or moves only its own task. */
  lemma {:induction false} ResumeShape(s: System, t: nat, now: int)
    requires Enabled(s, t)
    ensures Finishing(s, t).Some? ==> Resume(s, t, now) == Finish(s, t, Finishing(s, t).value)
    ensures Finishing(s, t).None? ==>
      var s' := Resume(s, t, now);
      && s'.locks == s.locks && t < |s'.tasks| && s'.tasks == s.tasks[t := s'.tasks[t]]
      && s'.tasks[t].pc.Active() && s'.tasks[t].pc.Work() < s.tasks[t].pc.Work()
  {}

  /** A release moves every waiter one place forward; nothing else does. */
  lemma {:induction false} QueueStep(s: System, e: Event, id: string)
    requires Consistent(s) && Legal(s, e)
    ensures var q := LockOf(s, id).queue; var q' := LockOf(Step(s, e), id).queue;
      if Releases(s, e, id) then q' == (if q == [] then [] else q[1..]) else q <= q'
    ensures Releases(s, e, id) && LockOf(s, id).queue != [] ==>
      LockOf(s, id).queue[0] < |Step(s, e).tasks| && Step(s, e).tasks[LockOf(s, id).queue[0]].pc == Granted
  {
    match e
    case Arrival(c) =>
    case Resumption(t, now) =>
      ResumeShape(s, t, now);
      if Finishing(s, t).Some? {
        FinishQueue(s, t, Finishing(s, t).value, id);
      }
  }

  lemma {:induction false} FinishQueue(s: System, t: nat, reply: Reply, id: string)
    requires Consistent(s) && Enabled(s, t)
    ensures var k := s.tasks[t].call.transferId; var s' := Finish(s, t, reply); var q := LockOf(s, id).queue;
      && t < |s'.tasks| && s'.tasks[t].pc == Done(reply)
      && LockOf(s', id).queue == (if id != k || q == [] then q else q[1..])
      && (id == k && q != [] ==> q[0] < |s'.tasks| && s'.tasks[q[0]].pc == Granted)
  {
    var k := s.tasks[t].call.transferId;
    var q := LockOf(s, k).queue;
    assert LockMatches(s, k);
    if q != [] {
      QueuedTaskWaits(s, k, 0);
      assert q[0] != t;
    }
  }

  lemma {:induction false} QueuedTaskWaits(s: System, id: string, p: nat)
    requires Consistent(s) && p < |LockOf(s, id).queue|
    ensures var t := LockOf(s, id).queue[p]; t < |s.tasks| && WaitsFor(s.tasks[t], id)
  {
    assert LockMatches(s, id);
    WaitersAre(s.tasks, id);
    assert LockOf(s, id).queue[p] in Waiters(s.tasks, id);
  }

  lemma {:induction false} NeverWaitsAgain(s: System, es: seq<Event>, t: nat)
    requires Schedule(s, es) && t < |s.tasks| && !s.tasks[t].pc.Waiting?
    ensures t < |Run(s, es).tasks| && !Run(s, es).tasks[t].pc.Waiting?
    decreases |es|
  {
    if es != [] {
      NeverWaitsAgain(Step(s, es[0]), es[1..], t);
    }
  }

  /**
   * The waiter at place `p` has moved forward by the number of releases so
   * far, and has been let in exactly when there have been more than `p`.
   */
  lemma {:induction false} WaiterEntersAfterItsTurn(s: System, es: seq<Event>, id: string, p: nat)
    requires Consistent(s) && Schedule(s, es)
    requires p < |LockOf(s, id).queue|
    ensures var t := LockOf(s, id).queue[p]; var s' := Run(s, es); var r := ReleaseCount(s, es, id);
      && t < |s'.tasks|
      && (s'.tasks[t].pc.Waiting? <==> r <= p)
      && (r <= p ==> p - r < |LockOf(s', id).queue| && LockOf(s', id).queue[p - r] == t)
    decreases |es|
  {
    var t := LockOf(s, id).queue[p];
    if es == [] {
      QueuedTaskWaits(s, id, p);
    } else {
      var s' := Step(s, es[0]);
      PlaceStep(s, es[0], id, p);
      if Releases(s, es[0], id) && p == 0 {
        NeverWaitsAgain(s', es[1..], t);
      } else {
        assert Consistent(s') by { StepKeeps(s, es[0]); }
        WaiterEntersAfterItsTurn(s', es[1..], id, if Releases(s, es[0], id) then p - 1 else p);
      }
    }
  }

  /** Where one step takes the waiter at place `p`. */
  lemma {:induction false} PlaceStep(s: System, e: Event, id: string, p: nat)
    requires Consistent(s) && Legal(s, e) && p < |LockOf(s, id).queue|
    ensures var t := LockOf(s, id).queue[p]; var after := Step(s, e);
      if Releases(s, e, id) && p == 0 then t < |after.tasks| && !after.tasks[t].pc.Waiting?
      else
        var place := if Releases(s, e, id) then p - 1 else p;
        place < |LockOf(after, id).queue| && LockOf(after, id).queue[place] == t
  {
    QueueStep(s, e, id);
  }

  // ---------------------------------------------------------------- progress

  function TotalWork(tasks: seq<Task>): nat {
    if tasks == [] then 0 else TotalWork(tasks[..|tasks| - 1]) + tasks[|tasks| - 1].pc.Work()
  }

  lemma {:induction false} WorkUpdate(tasks: seq<Task>, t: nat, x: Task)
    requires t < |tasks|
    ensures TotalWork(tasks[t := x]) == TotalWork(tasks) - tasks[t].pc.Work() + x.pc.Work()
  {
    var n := |tasks| - 1;
    if t < n {
      WorkUpdate(tasks[..n], t, x);
      assert tasks[t := x][..n] == tasks[..n][t := x];
    } else {
      assert tasks[t := x][..n] == tasks[..n];
    }
  }

  /** Every resumption uses up work. */
  lemma {:induction false} ResumeUsesWork(s: System, t: nat, now: int)
    requires Consistent(s) && Enabled(s, t)
    ensures TotalWork(Resume(s, t, now).tasks) < TotalWork(s.tasks)
  {
    ResumeShape(s, t, now);
    if Finishing(s, t).None? {
      WorkUpdate(s.tasks, t, Resume(s, t, now).tasks[t]);
    } else {
      FinishUsesWork(s, t, Finishing(s, t).value);
    }
  }

  lemma {:induction false} FinishUsesWork(s: System, t: nat, reply: Reply)
    requires Consistent(s) && Enabled(s, t)
    ensures TotalWork(Finish(s, t, reply).tasks) < TotalWork(s.tasks)
  {
    var id := s.tasks[t].call.transferId;
    var mid := SetPc(s.tasks, t, Done(reply));
    WorkUpdate(s.tasks, t, mid[t]);
    var queue := LockOf(s, id).queue;
    if queue != [] {
      QueuedTaskWaits(s, id, 0);
      WorkUpdate(mid, queue[0], mid[queue[0]].(pc := Granted));
    }
  }

  predicate NoArrivals(es: seq<Event>) {
    forall i :: 0 <= i < |es| ==> es[i].Resumption?
  }

  lemma {:induction false} WorkBounds(tasks: seq<Task>)
    ensures TotalWork(tasks) <= 4 * |tasks|
    ensures TotalWork(tasks) == 0 <==> forall t :: 0 <= t < |tasks| ==> tasks[t].pc.Done?
  {
    if tasks != [] {
      WorkBounds(tasks[..|tasks| - 1]);
      assert forall t :: 0 <= t < |tasks| - 1 ==> tasks[..|tasks| - 1][t] == tasks[t];
    }
  }

  /** Without new calls every schedule ends, within four steps a call. */
  lemma {:induction false} SchedulesEnd(s: System, es: seq<Event>)
    requires Consistent(s) && Schedule(s, es) && NoArrivals(es)
    ensures |es| + TotalWork(Run(s, es).tasks) <= TotalWork(s.tasks) <= 4 * |s.tasks|
    decreases |es|
  {
    WorkBounds(s.tasks);
    if es != [] {
      ResumeUsesWork(s, es[0].task, es[0].now);
      ResumeKeeps(s, es[0].task, es[0].now);
      SchedulesEnd(Step(s, es[0]), es[1..]);
    }
  }

  /** No deadlock: while a call has not returned, some call can take a step. */
  lemma {:induction false} NoDeadlock(s: System) returns (t: nat)
    requires Consistent(s) && !Quiet(s)
    ensures Enabled(s, t)
  {
    var u :| 0 <= u < |s.tasks| && !s.tasks[u].pc.Done?;
    if s.tasks[u].pc.Active() { return u; }
    var id := s.tasks[u].call.transferId;
    WaitersAre(s.tasks, id);
    assert u in Waiters(s.tasks, id);
    assert LockMatches(s, id);
    t :| 0 <= t < |s.tasks| && s.tasks[t].call.transferId == id && s.tasks[t].pc.Active();
  }
}
