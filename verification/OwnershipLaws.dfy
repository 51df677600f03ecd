/**
 * What the calls on ownership transfers are told and what is stored, in the
 * words of the calls themselves
 * (apps/backend/src/services/ownership-transfer.service.ts).
 */
module OwnershipLaws {
  import opened Prelude
  import opened OwnershipTransfer

  // ---------------------------------------------------------------- serial histories

  /** Request `i` opened the transfer of `id`. */
  predicate Opened(qs: seq<Request>, rs: seq<Reply>, id: string, i: int) {
    0 <= i < |qs| <= |rs| && qs[i].call.Initiate? && qs[i].call.transferId == id && rs[i].Success?
  }

  /** Request `j` accepted or cancelled the transfer of `id`. */
  predicate Closed(qs: seq<Request>, rs: seq<Reply>, id: string, j: int) {
    0 <= j < |qs| <= |rs| && !qs[j].call.Initiate? && qs[j].call.transferId == id && rs[j].Success?
  }

  ghost predicate EverOpened(qs: seq<Request>, rs: seq<Reply>, id: string) {
    exists i :: Opened(qs, rs, id, i)
  }

  ghost predicate EverClosed(qs: seq<Request>, rs: seq<Reply>, id: string) {
    exists j :: Closed(qs, rs, id, j)
  }

  /** The record carries what its initiation asked for, at the time it was served. */
  predicate OpenedBy(r: Transfer, q: Request) {
    && q.call.Initiate? && r.transferId == q.call.transferId && r.escrowId == q.call.escrowId
    && r.fromOwner == q.call.fromOwner && r.toOwner == q.call.toOwner && r.initiatedAt == q.clock
  }

  /** The state and the time are those of the call that closed the transfer. */
  predicate ClosedBy(state: TransferState, finalizedAt: Option<int>, q: Request) {
    && finalizedAt == Some(q.clock)
    && ((q.call.Accept? && state == Accepted) || (q.call.Cancel? && state == Cancelled))
  }

  /** A record tells the history of its id: who opened it, and who closed it if anyone has. */
  ghost predicate Tells(qs: seq<Request>, rs: seq<Reply>, id: string, r: Transfer) {
    && r.transferId == id
    && (exists i :: Opened(qs, rs, id, i) && OpenedBy(r, qs[i]))
    && (if r.state == Pending then r.finalizedAt == None && !EverClosed(qs, rs, id)
        else exists j :: Closed(qs, rs, id, j) && ClosedBy(r.state, r.finalizedAt, qs[j]))
  }

  ghost predicate FoundTells(qs: seq<Request>, rs: seq<Reply>, id: string, found: Option<Transfer>) {
    match found
    case None => !EverOpened(qs, rs, id) && !EverClosed(qs, rs, id)
    case Some(r) => Tells(qs, rs, id, r)
  }

  predicate Complete(c: Call) {
    c.transferId != "" && (c.Initiate? ==> c.escrowId != "" && c.fromOwner != "" && c.toOwner != "")
  }

  /** The reply a request deserves after the history before it. */
  ghost predicate Deserved(qs: seq<Request>, rs: seq<Reply>, q: Request, reply: Reply) {
    var id := q.call.transferId;
    match reply
    case Success(r) =>
      && Complete(q.call) && r.transferId == id
      && (if q.call.Initiate? then !EverOpened(qs, rs, id) && OpenedBy(r, q) && r.state == Pending && r.finalizedAt == None
          else
            && (exists i :: Opened(qs, rs, id, i) && OpenedBy(r, qs[i]))
            && !EverClosed(qs, rs, id) && ClosedBy(r.state, r.finalizedAt, q))
    case Failure(InvalidPayload) => !Complete(q.call)
    case Failure(NotFound(i)) => Complete(q.call) && !q.call.Initiate? && i == id && !EverOpened(qs, rs, id)
    case Failure(Conflict(i, current)) =>
      && Complete(q.call) && q.call.Initiate? && i == id && EverOpened(qs, rs, id)
      && StateIs(qs, rs, id, current)
    case Failure(AlreadyFinalized(i, current, attempted)) =>
      && Complete(q.call) && i == id && EverClosed(qs, rs, id) && StateIs(qs, rs, id, current)
      && ((q.call.Accept? && attempted == Accepted) || (q.call.Cancel? && attempted == Cancelled))
  }

  /** The state a transfer is in after its history. */
  ghost predicate StateIs(qs: seq<Request>, rs: seq<Reply>, id: string, state: TransferState) {
    match state
    case Pending => !EverClosed(qs, rs, id)
    case Accepted => exists j :: Closed(qs, rs, id, j) && qs[j].call.Accept?
    case Cancelled => exists j :: Closed(qs, rs, id, j) && qs[j].call.Cancel?
  }

  // ---------------------------------------------------------------- serving keeps to them

  lemma {:induction false} OpenedMore(qs: seq<Request>, rs: seq<Reply>, q: Request, reply: Reply, id: string, i: int)
    requires |qs| == |rs|
    ensures Opened(qs + [q], rs + [reply], id, i)
      <==> Opened(qs, rs, id, i) || (i == |qs| && q.call.Initiate? && q.call.transferId == id && reply.Success?)
  {}

  lemma {:induction false} ClosedMore(qs: seq<Request>, rs: seq<Reply>, q: Request, reply: Reply, id: string, j: int)
    requires |qs| == |rs|
    ensures Closed(qs + [q], rs + [reply], id, j)
      <==> Closed(qs, rs, id, j) || (j == |qs| && !q.call.Initiate? && q.call.transferId == id && reply.Success?)
  {}

  /** What was opened or closed stays so, and one more request adds at most itself. */
  lemma {:induction false} EverMore(qs: seq<Request>, rs: seq<Reply>, q: Request, reply: Reply, id: string)
    requires |qs| == |rs|
    ensures EverOpened(qs + [q], rs + [reply], id)
      <==> EverOpened(qs, rs, id) || (q.call.Initiate? && q.call.transferId == id && reply.Success?)
    ensures EverClosed(qs + [q], rs + [reply], id)
      <==> EverClosed(qs, rs, id) || (!q.call.Initiate? && q.call.transferId == id && reply.Success?)
  {
    forall i ensures Opened(qs + [q], rs + [reply], id, i)
      <==> Opened(qs, rs, id, i) || (i == |qs| && q.call.Initiate? && q.call.transferId == id && reply.Success?)
    {
      OpenedMore(qs, rs, q, reply, id, i);
    }
    forall j ensures Closed(qs + [q], rs + [reply], id, j)
      <==> Closed(qs, rs, id, j) || (j == |qs| && !q.call.Initiate? && q.call.transferId == id && reply.Success?)
    {
      ClosedMore(qs, rs, q, reply, id, j);
    }
    assert q.call.Initiate? && q.call.transferId == id && reply.Success? ==> Opened(qs + [q], rs + [reply], id, |qs|);
    assert !q.call.Initiate? && q.call.transferId == id && reply.Success? ==> Closed(qs + [q], rs + [reply], id, |qs|);
  }

  /** A record that told the history still does when a request has not touched it. */
  lemma {:induction false} TellsMore(qs: seq<Request>, rs: seq<Reply>, q: Request, reply: Reply, id: string, r: Transfer)
    requires |qs| == |rs| && Tells(qs, rs, id, r)
    requires q.call.transferId == id ==> reply.Failure?
    ensures Tells(qs + [q], rs + [reply], id, r)
  {
    EverMore(qs, rs, q, reply, id);
    var i :| Opened(qs, rs, id, i) && OpenedBy(r, qs[i]);
    OpenedMore(qs, rs, q, reply, id, i);
    assert (qs + [q])[i] == qs[i];
    if r.state != Pending {
      var j :| Closed(qs, rs, id, j) && ClosedBy(r.state, r.finalizedAt, qs[j]);
      ClosedMore(qs, rs, q, reply, id, j);
      assert (qs + [q])[j] == qs[j];
    }
  }

  lemma {:induction false} OutcomeDeserved(qs: seq<Request>, rs: seq<Reply>, q: Request, found: Option<Transfer>)
    requires |qs| == |rs| && FoundTells(qs, rs, q.call.transferId, found)
    ensures Deserved(qs, rs, q, Outcome(q, found).1)
  {
    var id := q.call.transferId;
    if found.Some? {
      assert EverOpened(qs, rs, id);
      if found.value.state != Pending {
        var j :| Closed(qs, rs, id, j) && ClosedBy(found.value.state, found.value.finalizedAt, qs[j]);
        assert EverClosed(qs, rs, id);
      }
    }
  }

  lemma {:induction false} OutcomeTells(qs: seq<Request>, rs: seq<Reply>, q: Request, found: Option<Transfer>)
    requires |qs| == |rs| && FoundTells(qs, rs, q.call.transferId, found)
    ensures var (entry, reply) := Outcome(q, found); FoundTells(qs + [q], rs + [reply], q.call.transferId, entry)
  {
    var id := q.call.transferId;
    var (entry, reply) := Outcome(q, found);
    EverMore(qs, rs, q, reply, id);
    if reply.Failure? {
      if found.Some? { TellsMore(qs, rs, q, reply, id, found.value); }
    } else if q.call.Initiate? {
      assert Opened(qs + [q], rs + [reply], id, |qs|) && OpenedBy(entry.value, (qs + [q])[|qs|]);
    } else {
      var i :| Opened(qs, rs, id, i) && OpenedBy(found.value, qs[i]);
      OpenedMore(qs, rs, q, reply, id, i);
      assert (qs + [q])[i] == qs[i] && OpenedBy(entry.value, qs[i]);
      assert Closed(qs + [q], rs + [reply], id, |qs|) && ClosedBy(entry.value.state, entry.value.finalizedAt, (qs + [q])[|qs|]);
    }
  }

  /** After serving any requests, the record of every id tells their history. */
  lemma {:induction false} ServedTells(qs: seq<Request>, id: string)
    ensures var (store, rs) := ServeInOrder(qs); |rs| == |qs| && FoundTells(qs, rs, id, Lookup(store, id))
  {
    if qs != [] {
      var n := |qs| - 1;
      var q := qs[n];
      ServedTells(qs[..n], id);
      ServedTells(qs[..n], q.call.transferId);
      var (store, rs) := ServeInOrder(qs[..n]);
      ServeLast(qs[..n], q);
      assert qs[..n] + [q] == qs;
      ServeOneEntry(store, q, id);
      var reply := ServeOne(store, q).1;
      if q.call.transferId == id {
        OutcomeTells(qs[..n], rs, q, Lookup(store, id));
      } else {
        EverMore(qs[..n], rs, q, reply, id);
        if id in store { TellsMore(qs[..n], rs, q, reply, id, store[id]); }
      }
    }
  }

  /** Every request is answered as the history before it deserves. */
  lemma {:induction false} ServedDeserved(qs: seq<Request>, k: nat)
    requires k < |qs|
    ensures var rs := ServeInOrder(qs).1; |rs| == |qs| && Deserved(qs[..k], rs[..k], qs[k], rs[k])
  {
    var n := |qs| - 1;
    ServedTells(qs[..n], qs[n].call.transferId);
    var (store, rs) := ServeInOrder(qs[..n]);
    ServeLast(qs[..n], qs[n]);
    assert qs[..n] + [qs[n]] == qs;
    assert ServeInOrder(qs).1[..n] == rs;
    if k == n {
      OutcomeDeserved(qs[..n], rs, qs[n], Lookup(store, qs[n].call.transferId));
    } else {
      ServedDeserved(qs[..n], k);
      assert qs[..n][..k] == qs[..k] && rs[..k] == ServeInOrder(qs).1[..k];
    }
  }

  // ---------------------------------------------------------------- interleaved runs

  /**
   * In every reachable state, under every interleaving, each call that has
   * taken effect is answered as the calls before it, in call order, deserve:
   * an initiation succeeds with its own fields, PENDING, exactly if none has
   * before it; an accept succeeds with ACCEPTED and a cancel with CANCELLED
   * exactly if the transfer was opened and not closed before; every error
   * names the id and the states involved.
   */
  lemma {:induction false} CallsGetWhatTheyDeserve(es: seq<Event>, k: nat)
    requires Schedule(IDLE, es) && k < |Requests(Run(IDLE, es).tasks)|
    ensures var qs := Requests(Run(IDLE, es).tasks); var rs := Answers(Run(IDLE, es).tasks);
      |rs| == |qs| && Deserved(qs[..k], rs[..k], qs[k], rs[k])
  {
    Serializable(es);
    ServedDeserved(Requests(Run(IDLE, es).tasks), k);
  }

  /**
   * In every reachable state a stored record carries the fields of the
   * initiation that opened it and the state of the call that closed it: an
   * ACCEPTED record means an accept has succeeded, a CANCELLED one a cancel,
   * a PENDING one neither.
   */
  lemma {:induction false} RecordsTellTheirHistory(es: seq<Event>, id: string)
    requires Schedule(IDLE, es)
    ensures var s := Run(IDLE, es); FoundTells(Requests(s.tasks), Answers(s.tasks), id, Lookup(s.store, id))
  {
    Serializable(es);
    ServedTells(Requests(Run(IDLE, es).tasks), id);
  }

  /** What a caller reads in its own reply. */
  predicate Told(task: Task, reply: Reply) {
    var c := task.call;
    match reply
    case Success(r) =>
      && Complete(c) && r.transferId == c.transferId
      && (match c
          case Initiate(_, escrowId, fromOwner, toOwner) =>
            r == Transfer(c.transferId, escrowId, fromOwner, toOwner, Pending, task.clock, None)
          case Accept(_) => r.state == Accepted && r.finalizedAt == Some(task.clock)
          case Cancel(_) => r.state == Cancelled && r.finalizedAt == Some(task.clock))
    case Failure(InvalidPayload) => !Complete(c)
    case Failure(NotFound(i)) => Complete(c) && !c.Initiate? && i == c.transferId
    case Failure(Conflict(i, _)) => Complete(c) && c.Initiate? && i == c.transferId
    case Failure(AlreadyFinalized(i, current, attempted)) =>
      && Complete(c) && !c.Initiate? && i == c.transferId && current != Pending
      && attempted == (if c.Accept? then Accepted else Cancelled)
  }

  /** Every call that has returned got a reply about itself. */
  lemma {:induction false} EveryReplyIsAboutItsCall(es: seq<Event>, t: nat)
    requires Schedule(IDLE, es)
    requires t < |Run(IDLE, es).tasks| && Run(IDLE, es).tasks[t].pc.Done?
    ensures Told(Run(IDLE, es).tasks[t], Run(IDLE, es).tasks[t].pc.reply)
  {
    IdleIsConsistent();
    RunKeeps(IDLE, es);
    var tasks := Run(IDLE, es).tasks;
    assert Remembers(tasks, t);
    EntryIsAboutId(tasks[..t], tasks[t].call.transferId);
  }

  lemma {:induction false} EntryIsAboutId(tasks: seq<Task>, id: string)
    ensures EntryAfter(tasks, id).Some? ==> EntryAfter(tasks, id).value.transferId == id
  {
    if tasks != [] { EntryIsAboutId(tasks[..|tasks| - 1], id); }
  }
}
