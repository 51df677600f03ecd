/**
 * The objects of apps/backend/src/services/changelog.service.ts, updated in
 * place and proved against Changelog.
 */
module ChangelogServiceModel {
  import opened Prelude
  import opened Changelog
  import Paging

  class ChangelogService {
    /** The entries, in insertion order. */
    var store: seq<Entry>
    /** What every listener registered from the start has been sent. */
    var emitted: seq<Event>

    ghost function Abs(): Log
      reads this
    {
      Log(store, emitted)
    }

    constructor ()
      ensures Abs() == EMPTY_LOG
    {
      store, emitted := [], [];
    }

    method Emit(event: Event)
      modifies this`emitted
      ensures emitted == old(emitted) + [event]
    {
      emitted := emitted + [event];
    }

    method AppendEntry(payload: Payload, context: Context) returns (reply: Reply)
      modifies this
      ensures (Abs(), reply) == Append(old(Abs()), payload, context)
    {
      var requestId := OrElse(payload.requestId, context.requestId);
      if payload.entryId == "" || payload.action == "" || payload.actorId == "" || payload.resourceId == "" {
        return Failure(InvalidPayload);
      }
      if Find(store, payload.entryId).Some? {
        return Failure(DuplicateEntry(payload.entryId));
      }
      var entry := Entry(payload.entryId, payload.action, payload.actorId, payload.resourceId, context.now, payload.metadata, requestId);
      store := Put(store, entry);
      Emit(Event(EntryAppended, entry, entry.timestamp, requestId));
      return Success(entry);
    }

    method RecordMoneyMovement(action: MoneyAction, actorId: string, resourceId: string, metadata: Option<Metadata>,
                               requestId: Option<string>, context: Context) returns (reply: Reply)
      modifies this
      ensures (Abs(), reply) == Record(old(Abs()), action, actorId, resourceId, metadata, requestId, context)
    {
      var entryId := action.Name() + ":" + resourceId;
      var existing := Find(store, entryId);
      if existing.Some? {
        return Success(existing.value);
      }
      reply := AppendEntry(Payload(entryId, action.Name(), actorId, resourceId, metadata, OrElse(requestId, context.requestId)), context);
    }

    method RemoveEntry(entryId: string, context: Context) returns (reply: Reply)
      modifies this
      ensures (Abs(), reply) == Remove(old(Abs()), entryId, context)
    {
      if entryId == "" {
        return Failure(InvalidPayload);
      }
      var entry := Find(store, entryId);
      if entry.None? {
        return Failure(NotFound(entryId));
      }
      store := Delete(store, entryId);
      Emit(Event(EntryRemoved, entry.value, context.now, OrElse(entry.value.requestId, context.requestId)));
      return Success(entry.value);
    }

    /** `store.listByResource`: collect in insertion order, then sort by timestamp. */
    method ListResource(resourceId: string) returns (entries: seq<Entry>)
      ensures entries == ListByResource(store, resourceId)
    {
      entries := [];
      for i := 0 to |store|
        invariant entries == Paging.Filter(store[..i], (e: Entry) => e.resourceId == resourceId)
      {
        assert store[..i + 1][..i] == store[..i];
        if store[i].resourceId == resourceId {
          entries := entries + [store[i]];
        }
      }
      assert store[..|store|] == store;
      entries := Paging.SortBy(entries, ChangelogOrder());
    }

    method ListEntriesPaginated(resourceId: string, limit: Paging.Num, offset: Paging.Num) returns (page: Paging.Page<Entry>)
      ensures page == ListPage(store, resourceId, limit, offset)
    {
      var all := ListResource(resourceId);
      page := Paging.PageOf(all, Paging.ClampLimit(limit, DEFAULT_PAGE_SIZE, MAX_PAGE_SIZE), Paging.ClampOffset(offset));
    }
  }
}
