/**
 * The write-once changelog and the events it emits
 * (apps/backend/src/services/changelog.service.ts).  Every call is atomic.
 */
module Changelog {
  import opened Prelude
  import Keyed
  import Paging

  type Metadata = map<string, string>

  datatype Entry = Entry(
    entryId: string,
    action: string,
    actorId: string,
    resourceId: string,
    timestamp: int,
    metadata: Option<Metadata>,
    requestId: Option<string>)

  datatype Payload = Payload(
    entryId: string,
    action: string,
    actorId: string,
    resourceId: string,
    metadata: Option<Metadata>,
    requestId: Option<string>)

  datatype Error = InvalidPayload | DuplicateEntry(entryId: string) | NotFound(entryId: string) | UpdateForbidden

  type Reply = Result<Entry, Error>

  datatype EventType = EntryAppended | EntryRemoved

  datatype Event = Event(kind: EventType, entry: Entry, occurredAt: int, requestId: Option<string>)

  /** The money movements that routes record. */
  datatype MoneyAction = RefundSubmitted | RefundCompleted | TransferCompleted
  {
    function Name(): string {
      match this
      case RefundSubmitted => "refund.submitted"
      case RefundCompleted => "refund.completed"
      case TransferCompleted => "transfer.completed"
    }
  }

  /** The instant of a call and the request it belongs to. */
  datatype Context = Context(now: int, requestId: Option<string>)

  // ---------------------------------------------------------------- the map, in insertion order

  function Key(): Entry -> string {
    (e: Entry) => e.entryId
  }

  function Find(store: seq<Entry>, id: string): Option<Entry> {
    Keyed.Find(store, Key(), id)
  }

  function Put(store: seq<Entry>, e: Entry): seq<Entry> {
    Keyed.Put(store, Key(), e)
  }

  function Delete(store: seq<Entry>, id: string): seq<Entry> {
    Keyed.Delete(store, Key(), id)
  }

  predicate UniqueIds(store: seq<Entry>) {
    forall i, j :: 0 <= i < j < |store| ==> store[i].entryId != store[j].entryId
  }

  // ---------------------------------------------------------------- the calls, on values

  /** The store and everything emitted so far. */
  datatype Log = Log(store: seq<Entry>, emitted: seq<Event>)

  const EMPTY_LOG: Log := Log([], [])

  function OrElse(a: Option<string>, b: Option<string>): Option<string> {
    if a.Some? then a else b
  }

  function Append(log: Log, p: Payload, c: Context): (Log, Reply) {
    if p.entryId == "" || p.action == "" || p.actorId == "" || p.resourceId == "" then (log, Failure(InvalidPayload))
    else if Find(log.store, p.entryId).Some? then (log, Failure(DuplicateEntry(p.entryId)))
    else
      var requestId := OrElse(p.requestId, c.requestId);
      var e := Entry(p.entryId, p.action, p.actorId, p.resourceId, c.now, p.metadata, requestId);
      (Log(Put(log.store, e), log.emitted + [Event(EntryAppended, e, c.now, requestId)]), Success(e))
  }

  function MovementId(action: MoneyAction, resourceId: string): string {
    action.Name() + ":" + resourceId
  }

  /** `recordMoneyMovement` */
  function Record(log: Log, action: MoneyAction, actorId: string, resourceId: string, metadata: Option<Metadata>,
                  requestId: Option<string>, c: Context): (Log, Reply)
  {
    var id := MovementId(action, resourceId);
    var existing := Find(log.store, id);
    if existing.Some? then (log, Success(existing.value))
    else Append(log, Payload(id, action.Name(), actorId, resourceId, metadata, OrElse(requestId, c.requestId)), c)
  }

  function Remove(log: Log, id: string, c: Context): (Log, Reply) {
    if id == "" then (log, Failure(InvalidPayload))
    else
      match Find(log.store, id)
      case None => (log, Failure(NotFound(id)))
      case Some(e) =>
        (Log(Delete(log.store, id), log.emitted + [Event(EntryRemoved, e, c.now, OrElse(e.requestId, c.requestId))]), Success(e))
  }

  datatype Op =
    | AppendEntry(payload: Payload, context: Context)
    | RecordMoneyMovement(action: MoneyAction, actorId: string, resourceId: string, metadata: Option<Metadata>,
                          requestId: Option<string>, context: Context)
    | RemoveEntry(entryId: string, context: Context)
    | UpdateEntry(entryId: string, context: Context)

  function Apply(log: Log, op: Op): (Log, Reply) {
    match op
    case AppendEntry(p, c) => Append(log, p, c)
    case RecordMoneyMovement(action, actorId, resourceId, metadata, requestId, c) =>
      Record(log, action, actorId, resourceId, metadata, requestId, c)
    case RemoveEntry(id, c) => Remove(log, id, c)
    case UpdateEntry(_, _) => (log, Failure(UpdateForbidden))
  }

  function Run(log: Log, ops: seq<Op>): Log {
    if ops == [] then log else Apply(Run(log, ops[..|ops| - 1]), ops[|ops| - 1]).0
  }

  function ChangelogOrder(): Entry -> int {
    (e: Entry) => e.timestamp
  }

  /** `listByResource` */
  function ListByResource(store: seq<Entry>, resourceId: string): seq<Entry> {
    Paging.SortBy(Paging.Filter(store, (e: Entry) => e.resourceId == resourceId), ChangelogOrder())
  }

  // ---------------------------------------------------------------- the events retell the store

  /** Rebuilds a store from the events alone. */
  function Replay(events: seq<Event>): seq<Entry> {
    if events == [] then []
    else
      var last := events[|events| - 1];
      var before := Replay(events[..|events| - 1]);
      match last.kind
      case EntryAppended => Put(before, last.entry)
      case EntryRemoved => Delete(before, last.entry.entryId)
  }

  ghost predicate Faithful(log: Log) {
    Replay(log.emitted) == log.store && UniqueIds(log.store)
  }

  lemma {:induction false} ApplyKeepsFaithful(log: Log, op: Op)
    requires Faithful(log)
    ensures Faithful(Apply(log, op).0)
  {
    var log' := Apply(log, op).0;
    if log'.emitted != log.emitted {
      var last := log'.emitted[|log.emitted|];
      assert log'.emitted[..|log.emitted|] == log.emitted;
      if last.kind == EntryAppended {
        Keyed.PutNew(log.store, Key(), last.entry, "");
      } else {
        Keyed.FindIs(log.store, Key(), op.entryId);
        Keyed.DeleteFind(log.store, Key(), last.entry.entryId, "");
      }
    }
  }

  /**
   * After any calls, folding the emitted events from nothing gives the
   * stored entries, in the stored order.
   */
  lemma {:induction false} EventsRetellTheStore(ops: seq<Op>)
    ensures Replay(Run(EMPTY_LOG, ops).emitted) == Run(EMPTY_LOG, ops).store
    ensures UniqueIds(Run(EMPTY_LOG, ops).store)
  {
    RunKeepsFaithful(EMPTY_LOG, ops);
  }

  lemma {:induction false} RunKeepsFaithful(log: Log, ops: seq<Op>)
    requires Faithful(log)
    ensures Faithful(Run(log, ops))
  {
    if ops != [] {
      RunKeepsFaithful(log, ops[..|ops| - 1]);
      ApplyKeepsFaithful(Run(log, ops[..|ops| - 1]), ops[|ops| - 1]);
    }
  }

  // ---------------------------------------------------------------- write-once

  /** No call of the sequence asks for the removal of `id`. */
  predicate NeverRemoves(ops: seq<Op>, id: string) {
    forall i :: 0 <= i < |ops| && ops[i].RemoveEntry? ==> ops[i].entryId != id
  }

  lemma {:induction false} ApplyWriteOnce(log: Log, op: Op, id: string)
    requires Faithful(log) && Find(log.store, id).Some?
    requires op.RemoveEntry? ==> op.entryId != id
    ensures Find(Apply(log, op).0.store, id) == Find(log.store, id)
  {
    var log' := Apply(log, op).0;
    if log'.emitted != log.emitted {
      var last := log'.emitted[|log.emitted|];
      if last.kind == EntryAppended {
        Keyed.PutNew(log.store, Key(), last.entry, id);
      } else {
        Keyed.FindIs(log.store, Key(), op.entryId);
        Keyed.DeleteFind(log.store, Key(), last.entry.entryId, id);
      }
    }
  }

  /** A present entry stays exactly as it was written until a call removes it. */
  lemma {:induction false} WriteOnce(log: Log, ops: seq<Op>, id: string)
    requires Faithful(log) && Find(log.store, id).Some? && NeverRemoves(ops, id)
    ensures Find(Run(log, ops).store, id) == Find(log.store, id)
  {
    if ops != [] {
      var n := |ops| - 1;
      WriteOnce(log, ops[..n], id);
      RunKeepsFaithful(log, ops[..n]);
      ApplyWriteOnce(Run(log, ops[..n]), ops[n], id);
    }
  }

  /**
   * Once a money movement has been recorded, every later record of the same
   * action and resource answers with that first entry and writes nothing,
   * whatever else is appended, recorded or removed in between.
   */
  lemma {:induction false} FirstRecordWins(log: Log, first: Op, between: seq<Op>, again: Op)
    requires Faithful(log) && first.RecordMoneyMovement? && again.RecordMoneyMovement?
    requires again.action == first.action && again.resourceId == first.resourceId
    requires Apply(log, first).1.Success?
    requires NeverRemoves(between, MovementId(first.action, first.resourceId))
    ensures var log' := Run(Apply(log, first).0, between);
      Apply(log', again) == (log', Apply(log, first).1)
  {
    var id := MovementId(first.action, first.resourceId);
    var (log1, reply) := Apply(log, first);
    ApplyKeepsFaithful(log, first);
    if Find(log.store, id).None? {
      Keyed.PutNew(log.store, Key(), reply.value, id);
    }
    WriteOnce(log1, between, id);
  }

  /** Different movements never share an entry id. */
  lemma {:induction false} MovementIdsDiffer(a: MoneyAction, r: string, b: MoneyAction, q: string)
    ensures MovementId(a, r) == MovementId(b, q) <==> a == b && r == q
  {
    NameIs(a);
    NameIs(b);
    if MovementId(a, r) == MovementId(b, q) {
      SplitAtColon(a.Name(), r, b.Name(), q);
      assert a.Name()[7] == b.Name()[7];
    }
  }

  predicate NoColon(s: string) {
    forall i :: 0 <= i < |s| ==> s[i] != ':'
  }

  lemma {:induction false} NameIs(a: MoneyAction)
    ensures NoColon(a.Name()) && |a.Name()| >= 16
    ensures a.Name()[7] == match a case RefundSubmitted => 's' case RefundCompleted => 'c' case TransferCompleted => 'r'
  {}

  lemma {:induction false} SplitAtColon(a: string, r: string, b: string, q: string)
    requires NoColon(a) && NoColon(b) && a + ":" + r == b + ":" + q
    ensures a == b && r == q
  {
    var x, y := a + ":" + r, b + ":" + q;
    var n, m := |a|, |b|;
    assert x[n] == ':' && y[m] == ':';
    forall i | 0 <= i < n ensures x[i] != ':' {
      assert x[i] == a[i];
    }
    forall i | 0 <= i < m ensures y[i] != ':' {
      assert y[i] == b[i];
    }
    assert n == m;
    assert a == x[..n] && b == y[..m] && r == x[n + 1..] && q == y[m + 1..];
  }

  ghost predicate IsMoney(action: string) {
    exists a: MoneyAction :: a.Name() == action
  }

  /** An entry with a money action has the id `recordMoneyMovement` gives it. */
  ghost predicate WellNamed(action: string, resourceId: string, entryId: string) {
    IsMoney(action) ==> entryId == action + ":" + resourceId
  }

  /** Callers that append money actions themselves use that id too. */
  ghost predicate AppendsWellNamed(ops: seq<Op>) {
    forall i :: 0 <= i < |ops| && ops[i].AppendEntry? ==>
      WellNamed(ops[i].payload.action, ops[i].payload.resourceId, ops[i].payload.entryId)
  }

  ghost predicate AllWellNamed(store: seq<Entry>) {
    forall i :: 0 <= i < |store| ==> WellNamed(store[i].action, store[i].resourceId, store[i].entryId)
  }

  /**
   * Whatever else is appended, recorded, updated or removed, the changelog
   * holds at most one entry per money action and resource, as long as callers
   * append none under another id themselves.
   */
  lemma {:induction false} OneEntryPerMovement(ops: seq<Op>)
    requires AppendsWellNamed(ops)
    ensures var store := Run(EMPTY_LOG, ops).store;
      && AllWellNamed(store)
      && forall i, j :: 0 <= i < j < |store| && IsMoney(store[i].action) ==>
           (store[i].action, store[i].resourceId) != (store[j].action, store[j].resourceId)
  {
    RunWellNamed(ops);
    EventsRetellTheStore(ops);
    var store := Run(EMPTY_LOG, ops).store;
    forall i, j | 0 <= i < j < |store| && IsMoney(store[i].action)
      ensures (store[i].action, store[i].resourceId) != (store[j].action, store[j].resourceId)
    {
      assert WellNamed(store[i].action, store[i].resourceId, store[i].entryId);
      assert WellNamed(store[j].action, store[j].resourceId, store[j].entryId);
      assert store[i].entryId != store[j].entryId;
    }
  }

  lemma {:induction false} RunWellNamed(ops: seq<Op>)
    requires AppendsWellNamed(ops)
    ensures AllWellNamed(Run(EMPTY_LOG, ops).store)
  {
    if ops != [] {
      var n := |ops| - 1;
      RunWellNamed(ops[..n]);
      ApplyWellNamed(Run(EMPTY_LOG, ops[..n]), ops[n]);
    }
  }

  lemma {:induction false} ApplyWellNamed(log: Log, op: Op)
    requires AllWellNamed(log.store)
    requires op.AppendEntry? ==> WellNamed(op.payload.action, op.payload.resourceId, op.payload.entryId)
    ensures AllWellNamed(Apply(log, op).0.store)
  {
    var (log', reply) := Apply(log, op);
    if op.RemoveEntry? {
      Paging.FilterMembers(log.store, Keyed.IsNot(Key(), op.entryId));
    } else if log' != log {
      assert log'.store == log.store + [reply.value];
    }
  }

  /**
   * That condition is needed: after an accepted append of a money action
   * under another id, the next record of that movement leaves two entries.
   */
  lemma {:induction false} MisnamedAppendIsDoubled(p: Payload, action: MoneyAction, c: Context)
    requires p.action == action.Name() && p.entryId != MovementId(action, p.resourceId)
    requires p.entryId != "" && p.actorId != "" && p.resourceId != ""
    ensures var store := Run(EMPTY_LOG, [AppendEntry(p, c), RecordMoneyMovement(action, p.actorId, p.resourceId, None, None, c)]).store;
      && |store| == 2
      && (store[0].action, store[0].resourceId) == (store[1].action, store[1].resourceId) == (p.action, p.resourceId)
  {
    var first, second := AppendEntry(p, c), RecordMoneyMovement(action, p.actorId, p.resourceId, None, None, c);
    var log1 := Apply(EMPTY_LOG, first).0;
    assert |log1.store| == 1 && log1.store[0].entryId == p.entryId;
    TwoCalls(first, second);
    RecordAppends(log1, second);
  }

  lemma {:induction false} TwoCalls(first: Op, second: Op)
    ensures Run(EMPTY_LOG, [first, second]) == Apply(Apply(EMPTY_LOG, first).0, second).0
  {
    assert [first, second][..1] == [first] && [first][..0] == [];
    assert Run(EMPTY_LOG, []) == EMPTY_LOG;
    assert Run(EMPTY_LOG, [first]) == Apply(EMPTY_LOG, first).0;
  }

  lemma {:induction false} RecordAppends(log: Log, op: Op)
    requires op.RecordMoneyMovement? && op.actorId != "" && op.resourceId != ""
    requires |log.store| == 1 && log.store[0].entryId != MovementId(op.action, op.resourceId)
    ensures var store := Apply(log, op).0.store;
      |store| == 2 && store[0] == log.store[0] && store[1].action == op.action.Name() && store[1].resourceId == op.resourceId
  {
    Keyed.FindIs(log.store, Key(), MovementId(op.action, op.resourceId));
    var name := op.action.Name();
    assert name[6] == '.' || name[8] == '.';
    assert name != "" && MovementId(op.action, op.resourceId) != "";
    assert Apply(log, op).0.store == log.store + [Apply(log, op).1.value];
  }

  // ---------------------------------------------------------------- chronological order

  predicate ClockMoves(ops: seq<Op>) {
    forall i, j :: 0 <= i < j < |ops| ==> ops[i].context.now <= ops[j].context.now
  }

  ghost predicate Chronological(store: seq<Entry>, now: int) {
    Paging.Sorted(store, ChangelogOrder()) && forall i :: 0 <= i < |store| ==> store[i].timestamp <= now
  }

  lemma {:induction false} ApplyKeepsOrder(log: Log, op: Op)
    requires Chronological(log.store, op.context.now)
    ensures Chronological(Apply(log, op).0.store, op.context.now)
  {
    if op.RemoveEntry? {
      Paging.FilterSorted(log.store, ChangelogOrder(), Keyed.IsNot(Key(), op.entryId));
      Paging.FilterMembers(log.store, Keyed.IsNot(Key(), op.entryId));
    }
  }

  lemma {:induction false} StoreSorted(ops: seq<Op>, now: int)
    requires ClockMoves(ops) && forall i :: 0 <= i < |ops| ==> ops[i].context.now <= now
    ensures Chronological(Run(EMPTY_LOG, ops).store, now)
  {
    if ops != [] {
      var n := |ops| - 1;
      StoreSorted(ops[..n], ops[n].context.now);
      ApplyKeepsOrder(Run(EMPTY_LOG, ops[..n]), ops[n]);
    }
  }

  /**
   * Under a clock that does not go back, a resource's chronological list is
   * its entries in the order they were appended.
   */
  lemma {:induction false} ResourceListIsAppendOrder(ops: seq<Op>, resourceId: string)
    requires ClockMoves(ops)
    ensures var store := Run(EMPTY_LOG, ops).store;
      ListByResource(store, resourceId) == Paging.Filter(store, (e: Entry) => e.resourceId == resourceId)
  {
    if ops != [] { StoreSorted(ops, ops[|ops| - 1].context.now); }
    var store := Run(EMPTY_LOG, ops).store;
    var p := (e: Entry) => e.resourceId == resourceId;
    Paging.FilterSorted(store, ChangelogOrder(), p);
    Paging.SortedStays(Paging.Filter(store, p), ChangelogOrder());
  }

  // ---------------------------------------------------------------- pages

  const DEFAULT_PAGE_SIZE: int := 50
  const MAX_PAGE_SIZE: int := 200

  /** `listEntriesPaginated` */
  function ListPage(store: seq<Entry>, resourceId: string, limit: Paging.Num, offset: Paging.Num): Paging.Page<Entry> {
    Paging.PageOf(ListByResource(store, resourceId), Paging.ClampLimit(limit, DEFAULT_PAGE_SIZE, MAX_PAGE_SIZE), Paging.ClampOffset(offset))
  }

  /** What a client sees that pages through a resource with one requested limit. */
  function BrowseResource(store: seq<Entry>, resourceId: string, limit: Paging.Num): seq<Paging.Page<Entry>> {
    Paging.FollowPages(ListByResource(store, resourceId), Paging.ClampLimit(limit, DEFAULT_PAGE_SIZE, MAX_PAGE_SIZE), 0)
  }

  /** Paging through a resource shows every entry once, in append order. */
  lemma {:induction false} BrowsingShowsAppendOrder(ops: seq<Op>, resourceId: string, limit: Paging.Num)
    requires ClockMoves(ops)
    ensures var store := Run(EMPTY_LOG, ops).store; var pages := BrowseResource(store, resourceId, limit);
      && Paging.Concat(pages) == Paging.Filter(store, (e: Entry) => e.resourceId == resourceId)
      && pages != [] && pages[0] == ListPage(store, resourceId, limit, Paging.Undefined)
      && forall i :: 0 <= i < |pages| ==> |pages[i].entries| <= MAX_PAGE_SIZE
  {
    ResourceListIsAppendOrder(ops, resourceId);
    var all := ListByResource(Run(EMPTY_LOG, ops).store, resourceId);
    Paging.FollowingPagesShowsAll(all, limit, DEFAULT_PAGE_SIZE, MAX_PAGE_SIZE);
    Paging.PagesCover(all, Paging.ClampLimit(limit, DEFAULT_PAGE_SIZE, MAX_PAGE_SIZE), 0);
  }

  /** Fifty to a page unless asked otherwise, two hundred at most. */
  lemma {:induction false} ListLimitIs(store: seq<Entry>, resourceId: string, requested: Paging.Num, offset: Paging.Num, n: int)
    ensures var limit := ListPage(store, resourceId, requested, offset).limit;
      && (Paging.IsFloorOf(n, requested) && 1 <= n <= 200 ==> limit == n)
      && (Paging.IsFloorOf(n, requested) && n > 200 ==> limit == 200)
      && (!requested.Finite? || (Paging.IsFloorOf(n, requested) && n < 1) ==> limit == 50)
    ensures Paging.IsFloorOf(n, offset) ==> ListPage(store, resourceId, requested, offset).offset == if n < 0 then 0 else n
  {
    Paging.LimitIs(requested, DEFAULT_PAGE_SIZE, MAX_PAGE_SIZE, n);
    Paging.OffsetIs(offset, n);
  }
}
