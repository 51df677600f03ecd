/**
 * The webhook replay cache: a bounded, insertion-ordered map of event ids with
 * expiry (apps/backend/src/routes/webhooks.ts).  A delivery that has passed the
 * signature and payload checks is one atomic step.
 */
module Webhooks {

  const TTL_MS: int := 24 * 60 * 60 * 1000
  const MAX_EVENTS: int := 10_000

  /** One entry of the map; a `seq` of them is the map in insertion order. */
  datatype Entry = Entry(id: string, seenAt: int)

  predicate Knows(cache: seq<Entry>, id: string) {
    exists i :: 0 <= i < |cache| && cache[i].id == id
  }

  predicate Distinct(cache: seq<Entry>) {
    forall i, j :: 0 <= i < j < |cache| ==> cache[i].id != cache[j].id
  }

  predicate Expired(e: Entry, now: int) {
    now - e.seenAt > TTL_MS
  }

  // ---------------------------------------------------------------- the code, on values

  function Unexpired(cache: seq<Entry>, now: int): seq<Entry> {
    if cache == [] then []
    else
      var n := |cache| - 1;
      Unexpired(cache[..n], now) + (if Expired(cache[n], now) then [] else [cache[n]])
  }

  function LastOf(cache: seq<Entry>, n: nat): seq<Entry> {
    if |cache| > n then cache[|cache| - n..] else cache
  }

  /** `pruneProcessedEvents` */
  function Pruned(cache: seq<Entry>, now: int): seq<Entry> {
    LastOf(Unexpired(cache, now), MAX_EVENTS)
  }

  /** A verified delivery, and whether the status update will succeed. */
  datatype Delivery = Delivery(eventId: string, now: int, updateOk: bool)

  datatype Response = Duplicate | UpdateFailed | Notified

  function Handle(cache: seq<Entry>, d: Delivery): (seq<Entry>, Response) {
    var kept := Pruned(cache, d.now);
    if Knows(kept, d.eventId) then (kept, Duplicate)
    else if !d.updateOk then (kept, UpdateFailed)
    else (kept + [Entry(d.eventId, d.now)], Notified)
  }

  /** After `seen` of the entries, of which `i` were kept. */
  ghost predicate Scanned(all: seq<Entry>, now: int, seen: nat, i: nat, entries: seq<Entry>) {
    i <= |entries| && seen <= |all| && entries[..i] == Unexpired(all[..seen], now) && entries[i..] == all[seen..]
  }

  lemma {:induction false} ScanNext(all: seq<Entry>, now: int, seen: nat, i: nat, entries: seq<Entry>)
    requires Scanned(all, now, seen, i, entries) && i < |entries|
    ensures if Expired(entries[i], now)
      then Scanned(all, now, seen + 1, i, entries[..i] + entries[i + 1..])
      else Scanned(all, now, seen + 1, i + 1, entries)
  {
    assert entries[i] == entries[i..][0] == all[seen];
    assert all[..seen + 1][..seen] == all[..seen];
    assert entries[i..][1..] == entries[i + 1..];
    assert entries[..i + 1] == entries[..i] + [entries[i]];
  }

  // ---------------------------------------------------------------- the code, in place

  class ProcessedEvents {
    var entries: seq<Entry>

    constructor ()
      ensures entries == []
    {
      entries := [];
    }

    method Prune(now: int)
      modifies this
      ensures entries == Pruned(old(entries), now)
    {
      var i := 0;
      ghost var seen := 0;
      while i < |entries|
        invariant Scanned(old(entries), now, seen, i, entries)
        decreases |entries| - i
      {
        ScanNext(old(entries), now, seen, i, entries);
        if Expired(entries[i], now) {
          entries := entries[..i] + entries[i + 1..];
        } else {
          i := i + 1;
        }
        seen := seen + 1;
      }
      assert old(entries)[..seen] == old(entries) && entries[..i] == entries;
      ghost var kept := entries;
      while |entries| > MAX_EVENTS
        invariant |entries| <= |kept| && entries == kept[|kept| - |entries|..]
        invariant |entries| < |kept| ==> |entries| >= MAX_EVENTS
      {
        entries := entries[1..];
      }
    }

    method Receive(d: Delivery) returns (response: Response)
      modifies this
      ensures (entries, response) == Handle(old(entries), d)
    {
      Prune(d.now);
      if Knows(entries, d.eventId) {
        return Duplicate;
      }
      if !d.updateOk {
        return UpdateFailed;
      }
      entries := entries + [Entry(d.eventId, d.now)];
      return Notified;
    }
  }

  // ---------------------------------------------------------------- runs

  predicate ClockMoves(ds: seq<Delivery>) {
    forall i, j :: 0 <= i < j < |ds| ==> ds[i].now <= ds[j].now
  }

  /** No earlier than every delivery so far. */
  predicate Since(ds: seq<Delivery>, now: int) {
    forall i :: 0 <= i < |ds| ==> ds[i].now <= now
  }

  /** The cache after the deliveries, and every event recorded on the way (one notification each). */
  function Serve(ds: seq<Delivery>): (seq<Entry>, seq<Entry>) {
    if ds == [] then ([], [])
    else
      var d := ds[|ds| - 1];
      var (cache, history) := Serve(ds[..|ds| - 1]);
      var (cache', response) := Handle(cache, d);
      (cache', if response == Notified then history + [Entry(d.eventId, d.now)] else history)
  }

  /** Recorded event `i` is within the TTL and among the last MAX_EVENTS recorded. */
  predicate Live(history: seq<Entry>, i: nat, now: int)
    requires i < |history|
  {
    !Expired(history[i], now) && |history| - MAX_EVENTS <= i
  }

  predicate InOrder(history: seq<Entry>) {
    forall i, j :: 0 <= i < j < |history| ==> history[i].seenAt <= history[j].seenAt
  }

  lemma {:induction false} AllExpired(h: seq<Entry>, now: int)
    requires forall i :: 0 <= i < |h| ==> Expired(h[i], now)
    ensures Unexpired(h, now) == []
  {
    if h != [] { AllExpired(h[..|h| - 1], now); }
  }

  /** The index from which a sorted history is unexpired. */
  function FirstLive(h: seq<Entry>, now: int): (first: nat)
    ensures first <= |h|
  {
    if h == [] || Expired(h[|h| - 1], now) then |h| else FirstLive(h[..|h| - 1], now)
  }

  lemma {:induction false} FirstLiveIs(h: seq<Entry>, now: int)
    requires InOrder(h)
    ensures forall i :: 0 <= i < |h| ==> (Expired(h[i], now) <==> i < FirstLive(h, now))
  {
    if h != [] {
      var n := |h| - 1;
      FirstLiveIs(h[..n], now);
      forall i | 0 <= i < n ensures Expired(h[i], now) <==> i < FirstLive(h, now) {
        assert h[..n][i] == h[i] && h[i].seenAt <= h[n].seenAt;
      }
    }
  }

  lemma {:induction false} UnexpiredFrom(h: seq<Entry>, now: int)
    requires InOrder(h)
    ensures Unexpired(h, now) == h[FirstLive(h, now)..]
  {
    if h != [] {
      var n := |h| - 1;
      if Expired(h[n], now) {
        AllExpired(h, now);
      } else {
        UnexpiredFrom(h[..n], now);
        assert h[FirstLive(h, now)..] == h[..n][FirstLive(h, now)..] + [h[n]];
      }
    }
  }

  lemma {:induction false} UnexpiredOfSorted(h: seq<Entry>, now: int)
    requires InOrder(h)
    ensures var u := Unexpired(h, now);
      |u| <= |h| && u == h[|h| - |u|..] && forall i :: 0 <= i < |h| ==> (Expired(h[i], now) <==> i < |h| - |u|)
  {
    FirstLiveIs(h, now);
    UnexpiredFrom(h, now);
  }

  /** The cache is a suffix of the history, and what it lost can never be live again. */
  ghost predicate Tracks(cache: seq<Entry>, h: seq<Entry>, now: int) {
    && InOrder(h)
    && (forall i :: 0 <= i < |h| ==> h[i].seenAt <= now)
    && |cache| <= |h| && |cache| <= MAX_EVENTS + 1
    && cache == h[|h| - |cache|..]
    && forall i :: 0 <= i < |h| - |cache| ==> !Live(h, i, now)
  }

  /** Pruning keeps the suffix that is live. */
  lemma {:induction false} PrunedIs(cache: seq<Entry>, now: int)
    requires InOrder(cache)
    ensures var w := Pruned(cache, now);
      && |w| <= MAX_EVENTS && |w| <= |cache| && w == cache[|cache| - |w|..]
      && forall i :: 0 <= i < |cache| ==> (i >= |cache| - |w| <==> Live(cache, i, now))
  {
    UnexpiredOfSorted(cache, now);
  }

  lemma {:induction false} PruneTracks(cache: seq<Entry>, h: seq<Entry>, before: int, now: int)
    requires Tracks(cache, h, before) && before <= now
    ensures var w := Pruned(cache, now);
      && Tracks(w, h, now) && |w| <= MAX_EVENTS
      && forall i :: 0 <= i < |h| ==> (i >= |h| - |w| <==> Live(h, i, now))
  {
    var w := Pruned(cache, now);
    PrunedIs(cache, now);
    var first := |h| - |cache|;
    forall i | 0 <= i < |h| ensures i >= |h| - |w| <==> Live(h, i, now) {
      if i >= first {
        assert h[i] == cache[i - first];
        assert Live(cache, i - first, now) <==> i - first >= |cache| - |w|;
      } else {
        assert !Live(h, i, before);
      }
    }
  }

  /** Time passing and one delivery keep the cache on track. */
  lemma {:induction false} HandleTracks(cache: seq<Entry>, h: seq<Entry>, before: int, d: Delivery)
    requires Tracks(cache, h, before) && before <= d.now
    ensures var (cache', response) := Handle(cache, d);
      Tracks(cache', if response == Notified then h + [Entry(d.eventId, d.now)] else h, d.now)
  {
    PruneTracks(cache, h, before, d.now);
    var w := Pruned(cache, d.now);
    if Handle(cache, d).1 == Notified {
      var e := Entry(d.eventId, d.now);
      var h', w' := h + [e], w + [e];
      assert w' == h'[|h'| - |w'|..];
      forall i | 0 <= i < |h'| - |w'| ensures !Live(h', i, d.now) {
        assert !Live(h, i, d.now) && h'[i] == h[i];
      }
    }
  }

  lemma {:induction false} TracksLater(cache: seq<Entry>, h: seq<Entry>, before: int, now: int)
    requires Tracks(cache, h, before) && before <= now
    ensures Tracks(cache, h, now)
  {
    forall i | 0 <= i < |h| - |cache| ensures !Live(h, i, now) {
      assert !Live(h, i, before);
    }
  }

  lemma {:induction false} ServeTracks(ds: seq<Delivery>, now: int)
    requires ClockMoves(ds) && Since(ds, now)
    ensures var (cache, h) := Serve(ds); Tracks(cache, h, now)
  {
    if ds != [] {
      var n := |ds| - 1;
      var d := ds[n];
      ServeTracks(ds[..n], d.now);
      var (cache, h) := Serve(ds[..n]);
      HandleTracks(cache, h, d.now, d);
      TracksLater(Serve(ds).0, Serve(ds).1, d.now, now);
    }
  }

  /**
   * In every sequential run under a clock that does not go back, the pruned
   * cache is the suffix of the recorded history made of exactly the events
   * within the TTL and among the last MAX_EVENTS.
   */
  lemma {:induction false} PrunedCacheIsLiveHistory(ds: seq<Delivery>, now: int)
    requires ClockMoves(ds) && Since(ds, now)
    ensures var (cache, h) := Serve(ds); var w := Pruned(cache, now);
      && |w| <= |h| && w == h[|h| - |w|..]
      && forall i :: 0 <= i < |h| ==> (i >= |h| - |w| <==> Live(h, i, now))
  {
    ServeTracks(ds, now);
    var (cache, h) := Serve(ds);
    PruneTracks(cache, h, now, now);
  }

  /** The bounded cache decides like the unbounded history does. */
  lemma {:induction false} DuplicateIff(ds: seq<Delivery>, d: Delivery)
    requires ClockMoves(ds) && Since(ds, d.now)
    ensures var (cache, h) := Serve(ds);
      Handle(cache, d).1 == Duplicate <==> exists i :: 0 <= i < |h| && Live(h, i, d.now) && h[i].id == d.eventId
  {
    PrunedCacheIsLiveHistory(ds, d.now);
    var (cache, h) := Serve(ds);
    var w := Pruned(cache, d.now);
    if i :| 0 <= i < |h| && Live(h, i, d.now) && h[i].id == d.eventId {
      assert w[i - (|h| - |w|)].id == d.eventId;
    }
    if Knows(w, d.eventId) {
      var k :| 0 <= k < |w| && w[k].id == d.eventId;
      assert Live(h, k + (|h| - |w|), d.now);
    }
  }

  /** An event with this id was recorded within 24 hours and is among the last 10000 recorded. */
  ghost predicate KnownAt(history: seq<Entry>, id: string, now: int) {
    exists i :: 0 <= i < |history| && now - history[i].seenAt <= 86_400_000 && |history| - i <= 10_000 && history[i].id == id
  }

  /**
   * What a delivery is answered, against everything ever recorded: a known
   * event is a duplicate; an unknown one is notified if its status update
   * works and otherwise fails; only a notified one is recorded.
   */
  lemma {:induction false} AnswerIff(ds: seq<Delivery>, d: Delivery)
    requires ClockMoves(ds) && Since(ds, d.now)
    ensures var (cache, h) := Serve(ds); var response := Handle(cache, d).1;
      && (response == Duplicate <==> KnownAt(h, d.eventId, d.now))
      && (response == Notified <==> !KnownAt(h, d.eventId, d.now) && d.updateOk)
      && (response == UpdateFailed <==> !KnownAt(h, d.eventId, d.now) && !d.updateOk)
      && Serve(ds + [d]).1 == if response == Notified then h + [Entry(d.eventId, d.now)] else h
  {
    DuplicateIff(ds, d);
    assert (ds + [d])[..|ds|] == ds;
    var h := Serve(ds).1;
    assert forall i :: 0 <= i < |h| ==> (Live(h, i, d.now) <==> d.now - h[i].seenAt <= 86_400_000 && |h| - i <= 10_000);
  }

  /**
   * A failed update leaves the event open: delivered again at once it is not
   * a duplicate.  A notified event is: delivered again at once it is ignored.
   */
  lemma {:induction false} RedeliveryIsIgnoredIffNotified(ds: seq<Delivery>, d: Delivery, again: Delivery)
    requires ClockMoves(ds) && Since(ds, d.now) && again.eventId == d.eventId && again.now == d.now
    ensures var response := Handle(Serve(ds).0, d).1; var second := Handle(Serve(ds + [d]).0, again).1;
      && (response == UpdateFailed ==> second != Duplicate && (second == Notified <==> again.updateOk))
      && (response == Notified ==> second == Duplicate)
  {
    AnswerIff(ds, d);
    assert ClockMoves(ds + [d]) && Since(ds + [d], again.now);
    AnswerIff(ds + [d], again);
    var h := Serve(ds).1;
    var h' := Serve(ds + [d]).1;
    if Handle(Serve(ds).0, d).1 == Notified {
      assert h'[|h|] == Entry(d.eventId, d.now);
      assert KnownAt(h', again.eventId, again.now);
    }
  }

  /**
   * Two notifications for one event id are more than 24 hours apart or have
   * at least 10000 other recorded events between them.
   */
  lemma {:induction false} NotificationsApart(ds: seq<Delivery>, i: nat, j: nat)
    requires ClockMoves(ds)
    requires var h := Serve(ds).1; i < j < |h| && h[i].id == h[j].id
    ensures var h := Serve(ds).1; h[j].seenAt - h[i].seenAt > 86_400_000 || j - i - 1 >= 10_000
  {
    var n := |ds| - 1;
    var h := Serve(ds[..n]).1;
    if j < |h| {
      NotificationsApart(ds[..n], i, j);
    } else {
      DuplicateIff(ds[..n], ds[n]);
      assert !Live(h, i, ds[n].now);
    }
  }

  /** The map never holds more than 10001 entries, and never one id twice. */
  lemma {:induction false} CacheBounded(ds: seq<Delivery>, now: int)
    requires ClockMoves(ds) && Since(ds, now)
    ensures var cache := Serve(ds).0;
      && |cache| <= 10_001
      && Distinct(cache)
  {
    ServeTracks(ds, now);
    DistinctIds(ds);
  }

  lemma {:induction false} UnexpiredSubset(cache: seq<Entry>, now: int)
    requires Distinct(cache)
    ensures var u := Unexpired(cache, now);
      && (forall e :: e in u ==> e in cache)
      && Distinct(u)
  {
    if cache != [] {
      var n := |cache| - 1;
      UnexpiredSubset(cache[..n], now);
      var u := Unexpired(cache[..n], now);
      assert forall i :: 0 <= i < |u| ==> u[i] in cache[..n];
    }
  }

  lemma {:induction false} DistinctIds(ds: seq<Delivery>)
    ensures Distinct(Serve(ds).0)
  {
    if ds != [] {
      DistinctIds(ds[..|ds| - 1]);
      UnexpiredSubset(Serve(ds[..|ds| - 1]).0, ds[|ds| - 1].now);
    }
  }
}
