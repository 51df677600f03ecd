/**
 * The fixed-window rate limiter: a bounded, insertion-ordered map of counters
 * with expiry and eviction (apps/frontend/src/lib/rate-limit.ts).
 */
module RateLimit {
  import opened Prelude

  const MAX_TRACKED_KEYS: int := 10_000

  datatype Rule = Rule(limit: int, windowMs: int)

  datatype Verdict = Verdict(allowed: bool, remaining: int, retryAfter: int)

  datatype Entry = Entry(count: int, resetAt: int)

  /** The `hits` map: its keys in insertion order, and its entries. */
  datatype Table = Table(order: seq<string>, entries: map<string, Entry>)
  {
    ghost predicate Valid() {
      && (forall i, j :: 0 <= i < j < |order| ==> order[i] != order[j])
      && (forall k :: k in order <==> k in entries)
    }
  }

  datatype Request = Request(key: string, rule: Rule, now: int)

  // ---------------------------------------------------------------- the code, on values

  predicate Stale(t: Table, k: string, now: int) {
    k in t.entries && t.entries[k].resetAt <= now
  }

  function KeepFresh(order: seq<string>, t: Table, now: int): seq<string> {
    if order == [] then []
    else
      var n := |order| - 1;
      KeepFresh(order[..n], t, now) + (if Stale(t, order[n], now) then [] else [order[n]])
  }

  /** The first loop of `prune`: expired entries go. */
  function DropExpired(t: Table, now: int): Table {
    Table(KeepFresh(t.order, t, now), map k | k in t.entries && t.entries[k].resetAt > now :: t.entries[k])
  }

  /** The second loop of `prune`: the oldest entries go until one place is free. */
  function DropOldest(t: Table): Table {
    if |t.order| < MAX_TRACKED_KEYS then t
    else
      var excess := |t.order| - MAX_TRACKED_KEYS + 1;
      Table(t.order[excess..], map k | k in t.entries && k !in t.order[..excess] :: t.entries[k])
  }

  function Prune(t: Table, now: int): Table {
    DropOldest(DropExpired(t, now))
  }

  function Put(t: Table, k: string, e: Entry): Table {
    Table(if k in t.entries then t.order else t.order + [k], t.entries[k := e])
  }

  /** The counter after one more request. */
  function Count(found: Option<Entry>, rule: Rule, now: int): Entry {
    if found.None? || found.value.resetAt <= now then Entry(1, now + rule.windowMs)
    else found.value.(count := found.value.count + 1)
  }

  function Max(a: int, b: int): int {
    if a < b then b else a
  }

  function CeilDiv(a: int, b: int): int
    requires b > 0
  {
    -((-a) / b)
  }

  function Judge(e: Entry, rule: Rule, now: int): Verdict {
    Verdict(e.count <= rule.limit, Max(0, rule.limit - e.count), Max(1, CeilDiv(e.resetAt - now, 1000)))
  }

  /** `checkRateLimit` */
  function Check(t: Table, r: Request): (Table, Verdict) {
    var found := Lookup(t.entries, r.key);
    var t' := if found.None? && |t.order| >= MAX_TRACKED_KEYS then Prune(t, r.now) else t;
    var e := Count(found, r.rule, r.now);
    (Put(t', r.key, e), Judge(e, r.rule, r.now))
  }

  /** The entries left once the first `n` keys have been looked at. */
  ghost function EntriesAfter(t: Table, n: nat, now: int): map<string, Entry>
    requires n <= |t.order|
  {
    if n == 0 then t.entries
    else
      var before := EntriesAfter(t, n - 1, now);
      if Stale(t, t.order[n - 1], now) then before - {t.order[n - 1]} else before
  }

  lemma {:induction false} EntriesAfterIs(t: Table, n: nat, now: int, k: string)
    requires n <= |t.order|
    ensures Lookup(EntriesAfter(t, n, now), k) == if k in t.order[..n] && Stale(t, k, now) then None else Lookup(t.entries, k)
  {
    if n > 0 {
      EntriesAfterIs(t, n - 1, now, k);
      assert t.order[..n] == t.order[..n - 1] + [t.order[n - 1]];
    }
  }

  /** After `seen` keys, of which `i` were kept. */
  ghost predicate Scanned(t: Table, now: int, seen: nat, i: nat, order: seq<string>, entries: map<string, Entry>) {
    && seen <= |t.order|
    && i == |KeepFresh(t.order[..seen], t, now)|
    && order == KeepFresh(t.order[..seen], t, now) + t.order[seen..]
    && entries == EntriesAfter(t, seen, now)
  }

  lemma {:induction false} ScanKey(t: Table, now: int, seen: nat, i: nat, order: seq<string>, entries: map<string, Entry>)
    requires t.Valid() && Scanned(t, now, seen, i, order, entries) && i < |order|
    ensures seen < |t.order| && order[i] == t.order[seen]
    ensures order[i] in entries && (entries[order[i]].resetAt <= now <==> Stale(t, t.order[seen], now))
  {
    var key := order[i];
    assert key == t.order[seen..][0];
    assert key in t.order && key !in t.order[..seen];
    EntriesAfterIs(t, seen, now, key);
  }

  lemma {:induction false} ScanDrop(t: Table, now: int, seen: nat, i: nat, order: seq<string>, entries: map<string, Entry>)
    requires Scanned(t, now, seen, i, order, entries) && i < |order|
    requires seen < |t.order| && order[i] == t.order[seen] && Stale(t, order[i], now)
    ensures Scanned(t, now, seen + 1, i, order[..i] + order[i + 1..], entries - {order[i]})
  {
    assert t.order[..seen + 1][..seen] == t.order[..seen];
    assert order[..i] == KeepFresh(t.order[..seen], t, now) && order[i + 1..] == t.order[seen + 1..];
  }

  lemma {:induction false} ScanKeep(t: Table, now: int, seen: nat, i: nat, order: seq<string>, entries: map<string, Entry>)
    requires Scanned(t, now, seen, i, order, entries) && i < |order|
    requires seen < |t.order| && order[i] == t.order[seen] && !Stale(t, order[i], now)
    ensures Scanned(t, now, seen + 1, i + 1, order, entries)
  {
    assert t.order[..seen + 1][..seen] == t.order[..seen];
    assert t.order[seen..] == [t.order[seen]] + t.order[seen + 1..];
  }

  lemma {:induction false} ScanStart(t: Table, now: int)
    ensures Scanned(t, now, 0, 0, t.order, t.entries)
  {
    assert t.order[..0] == [] && t.order[0..] == t.order;
  }

  lemma {:induction false} ScanDone(t: Table, now: int, seen: nat, i: nat, order: seq<string>, entries: map<string, Entry>)
    requires t.Valid() && Scanned(t, now, seen, i, order, entries) && i == |order|
    ensures Table(order, entries) == DropExpired(t, now)
  {
    assert t.order[..seen] == t.order && t.order[seen..] == [];
    forall k ensures Lookup(entries, k) == Lookup(DropExpired(t, now).entries, k) {
      EntriesAfterIs(t, seen, now, k);
    }
    SameLookups(entries, DropExpired(t, now).entries);
  }

  /** The second loop, after `n` of the oldest keys. */
  ghost function WithoutOldest(t: Table, n: nat): map<string, Entry>
    requires n <= |t.order|
  {
    map k | k in t.entries && k !in t.order[..n] :: t.entries[k]
  }

  lemma {:induction false} WithoutOneMore(t: Table, n: nat)
    requires n < |t.order|
    ensures WithoutOldest(t, n + 1) == WithoutOldest(t, n) - {t.order[n]}
    ensures t.order[n..][0] == t.order[n] && t.order[n..][1..] == t.order[n + 1..]
  {
    assert t.order[..n + 1] == t.order[..n] + [t.order[n]];
  }

  // ---------------------------------------------------------------- the code, in place

  class RateLimiter {
    var order: seq<string>
    var entries: map<string, Entry>

    function Hits(): Table
      reads this
    {
      Table(order, entries)
    }

    constructor ()
      ensures Hits() == Table([], map[])
    {
      order, entries := [], map[];
    }

    method DropExpiredHits(now: int)
      requires Hits().Valid()
      modifies this
      ensures Hits() == DropExpired(old(Hits()), now)
    {
      ghost var t := Hits();
      var i := 0;
      ghost var seen := 0;
      ScanStart(t, now);
      while i < |order|
        invariant Scanned(t, now, seen, i, order, entries)
        decreases |order| - i
      {
        ScanKey(t, now, seen, i, order, entries);
        var key := order[i];
        if entries[key].resetAt <= now {
          ScanDrop(t, now, seen, i, order, entries);
          entries := entries - {key};
          order := order[..i] + order[i + 1..];
        } else {
          ScanKeep(t, now, seen, i, order, entries);
          i := i + 1;
        }
        seen := seen + 1;
      }
      ScanDone(t, now, seen, i, order, entries);
    }

    method DropOldestHits()
      modifies this
      ensures Hits() == DropOldest(old(Hits()))
    {
      ghost var t := Hits();
      if |order| >= MAX_TRACKED_KEYS {
        var excess := |order| - MAX_TRACKED_KEYS + 1;
        var i := 0;
        while i < excess
          invariant i <= excess <= |t.order|
          invariant order == t.order[i..] && entries == WithoutOldest(t, i)
        {
          WithoutOneMore(t, i);
          entries := entries - {order[0]};
          order := order[1..];
          i := i + 1;
        }
      }
    }

    method PruneHits(now: int)
      requires Hits().Valid()
      modifies this
      ensures Hits() == Prune(old(Hits()), now)
    {
      DropExpiredHits(now);
      DropOldestHits();
    }

    method CheckRateLimit(key: string, rule: Rule, now: int) returns (verdict: Verdict)
      requires Hits().Valid()
      modifies this
      ensures (Hits(), verdict) == Check(old(Hits()), Request(key, rule, now))
    {
      var entry := Lookup(entries, key);
      if entry.None? || entry.value.resetAt <= now {
        if entry.None? && |order| >= MAX_TRACKED_KEYS {
          PruneHits(now);
        }
        entry := Some(Entry(0, now + rule.windowMs));
        if key !in entries {
          order := order + [key];
        }
      }
      var counted := entry.value.(count := entry.value.count + 1);
      entries := entries[key := counted];
      verdict := Judge(counted, rule, now);
    }
  }

  // ---------------------------------------------------------------- runs

  predicate ClockMoves(rs: seq<Request>) {
    forall i, j :: 0 <= i < j < |rs| ==> rs[i].now <= rs[j].now
  }

  function Serve(rs: seq<Request>): (Table, seq<Verdict>) {
    if rs == [] then (Table([], map[]), [])
    else
      var (t, vs) := Serve(rs[..|rs| - 1]);
      var (t', v) := Check(t, rs[|rs| - 1]);
      (t', vs + [v])
  }

  /** The reference: a fixed-window limiter that never forgets a key. */
  function ServeUnbounded(rs: seq<Request>): (map<string, Entry>, seq<Verdict>) {
    if rs == [] then (map[], [])
    else
      var r := rs[|rs| - 1];
      var (m, vs) := ServeUnbounded(rs[..|rs| - 1]);
      var e := Count(Lookup(m, r.key), r.rule, r.now);
      (m[r.key := e], vs + [Judge(e, r.rule, r.now)])
  }

  /** The over-capacity loop has never deleted the entry of `key`. */
  predicate NeverEvicted(rs: seq<Request>, key: string) {
    rs == [] ||
    var r := rs[|rs| - 1];
    var t := Serve(rs[..|rs| - 1]).0;
    && NeverEvicted(rs[..|rs| - 1], key)
    && (r.key !in t.entries && |t.order| >= MAX_TRACKED_KEYS && key in DropExpired(t, r.now).entries ==>
          key in Prune(t, r.now).entries)
  }

  // ---------------------------------------------------------------- the table

  lemma {:induction false} KeepFreshIs(order: seq<string>, t: Table, now: int)
    requires forall i, j :: 0 <= i < j < |order| ==> order[i] != order[j]
    ensures var kept := KeepFresh(order, t, now);
      && |kept| <= |order|
      && (forall k :: k in kept <==> k in order && !Stale(t, k, now))
      && (forall i, j :: 0 <= i < j < |kept| ==> kept[i] != kept[j])
  {
    if order != [] {
      var n := |order| - 1;
      KeepFreshIs(order[..n], t, now);
      var kept := KeepFresh(order[..n], t, now);
      assert forall i :: 0 <= i < |kept| ==> kept[i] in order[..n];
      assert forall k :: k in order <==> k in order[..n] || k == order[n];
    }
  }

  lemma {:induction false} DropExpiredValid(t: Table, now: int)
    requires t.Valid()
    ensures DropExpired(t, now).Valid()
  {
    KeepFreshIs(t.order, t, now);
  }

  /** Of distinct keys, those behind the first `n` are the others. */
  lemma {:induction false} SplitDistinct(order: seq<string>, n: nat, k: string)
    requires n <= |order| && forall i, j :: 0 <= i < j < |order| ==> order[i] != order[j]
    ensures k in order[n..] <==> k in order && k !in order[..n]
  {
    assert order == order[..n] + order[n..];
    if k in order[..n] {
      var i :| 0 <= i < n && order[..n][i] == k;
      forall j | 0 <= j < |order| - n ensures order[n..][j] != k {
        assert order[i] != order[n + j];
      }
    }
  }

  lemma {:induction false} DropOldestValid(t: Table)
    requires t.Valid()
    ensures DropOldest(t).Valid() && |DropOldest(t).order| < MAX_TRACKED_KEYS
  {
    if |t.order| >= MAX_TRACKED_KEYS {
      var excess := |t.order| - MAX_TRACKED_KEYS + 1;
      forall k ensures k in DropOldest(t).order <==> k in DropOldest(t).entries {
        SplitDistinct(t.order, excess, k);
      }
    }
  }

  lemma {:induction false} PruneOnlyDeletes(t: Table, now: int)
    ensures forall k :: k in Prune(t, now).entries ==> k in t.entries && Prune(t, now).entries[k] == t.entries[k]
  {}

  lemma {:induction false} PruneValid(t: Table, now: int)
    requires t.Valid()
    ensures Prune(t, now).Valid() && |Prune(t, now).order| < MAX_TRACKED_KEYS
    ensures forall k :: k in Prune(t, now).entries ==> k in t.entries && Prune(t, now).entries[k] == t.entries[k]
  {
    DropExpiredValid(t, now);
    DropOldestValid(DropExpired(t, now));
    PruneOnlyDeletes(t, now);
  }

  lemma {:induction false} CheckValid(t: Table, r: Request)
    requires t.Valid() && |t.order| <= MAX_TRACKED_KEYS
    ensures Check(t, r).0.Valid() && |Check(t, r).0.order| <= MAX_TRACKED_KEYS
  {
    PruneValid(t, r.now);
  }

  /** In any run the map never holds more than 10000 keys. */
  lemma {:induction false} TableBounded(rs: seq<Request>)
    ensures Serve(rs).0.Valid() && |Serve(rs).0.order| <= 10_000
    ensures |Serve(rs).1| == |rs| && |ServeUnbounded(rs).1| == |rs|
  {
    if rs != [] {
      TableBounded(rs[..|rs| - 1]);
      CheckValid(Serve(rs[..|rs| - 1]).0, rs[|rs| - 1]);
    }
  }

  // ---------------------------------------------------------------- the bounded limiter decides like the unbounded one

  /** The bounded table knows the reference entry, or has rightly forgotten it. */
  predicate Agrees(t: Table, m: map<string, Entry>, key: string, now: int) {
    Lookup(t.entries, key) == Lookup(m, key) || (key !in t.entries && m[key].resetAt <= now)
  }

  lemma {:induction false} TablesAgree(rs: seq<Request>, key: string, now: int)
    requires ClockMoves(rs) && NeverEvicted(rs, key)
    requires forall i :: 0 <= i < |rs| ==> rs[i].now <= now
    ensures Agrees(Serve(rs).0, ServeUnbounded(rs).0, key, now)
  {
    if rs != [] {
      var n := |rs| - 1;
      TablesAgree(rs[..n], key, rs[n].now);
      TableBounded(rs[..n]);
      PruneValid(Serve(rs[..n]).0, rs[n].now);
    }
  }

  /**
   * A key that the over-capacity loop never deletes is treated on every
   * request as by a limiter with unlimited memory: dropping expired entries
   * changes no answer.
   */
  lemma {:induction false} SameVerdicts(rs: seq<Request>, key: string, i: nat)
    requires ClockMoves(rs) && NeverEvicted(rs, key)
    requires i < |rs| && rs[i].key == key
    ensures |Serve(rs).1| == |ServeUnbounded(rs).1| == |rs|
    ensures Serve(rs).1[i] == ServeUnbounded(rs).1[i]
  {
    var n := |rs| - 1;
    EarlierVerdicts(rs);
    if i < n {
      SameVerdicts(rs[..n], key, i);
      assert Serve(rs).1[i] == Serve(rs).1[..n][i] && ServeUnbounded(rs).1[i] == ServeUnbounded(rs).1[..n][i];
    } else {
      LastVerdict(rs, key);
    }
  }

  lemma {:induction false} EarlierVerdicts(rs: seq<Request>)
    requires rs != []
    ensures var n := |rs| - 1;
      && |Serve(rs).1| == |ServeUnbounded(rs).1| == |rs| && |Serve(rs[..n]).1| == |ServeUnbounded(rs[..n]).1| == n
      && Serve(rs).1[..n] == Serve(rs[..n]).1 && ServeUnbounded(rs).1[..n] == ServeUnbounded(rs[..n]).1
  {
    TableBounded(rs);
    TableBounded(rs[..|rs| - 1]);
  }

  lemma {:induction false} LastVerdict(rs: seq<Request>, key: string)
    requires ClockMoves(rs) && NeverEvicted(rs, key) && rs != [] && rs[|rs| - 1].key == key
    requires |Serve(rs).1| == |ServeUnbounded(rs).1| == |rs|
    requires |Serve(rs[..|rs| - 1]).1| == |ServeUnbounded(rs[..|rs| - 1]).1| == |rs| - 1
    ensures Serve(rs).1[|rs| - 1] == ServeUnbounded(rs).1[|rs| - 1]
  {
    TablesAgree(rs[..|rs| - 1], key, rs[|rs| - 1].now);
  }

  /** When that loop deletes nothing at all, every verdict of the run is the unbounded one. */
  lemma {:induction false} SameRun(rs: seq<Request>)
    requires ClockMoves(rs) && forall i :: 0 <= i < |rs| ==> NeverEvicted(rs, rs[i].key)
    ensures Serve(rs).1 == ServeUnbounded(rs).1
  {
    TableBounded(rs);
    forall i | 0 <= i < |rs| ensures Serve(rs).1[i] == ServeUnbounded(rs).1[i] {
      SameVerdicts(rs, rs[i].key, i);
    }
  }

  // ---------------------------------------------------------------- how much gets through

  /** Allowed requests of `key` in the half-open interval [from, from + width). */
  function Allowed(rs: seq<Request>, vs: seq<Verdict>, key: string, from: int, width: int): nat
    requires |vs| == |rs|
  {
    if rs == [] then 0
    else
      var n := |rs| - 1;
      Allowed(rs[..n], vs[..n], key, from, width)
      + (if rs[n].key == key && vs[n].allowed && from <= rs[n].now < from + width then 1 else 0)
  }

  predicate OneRule(rs: seq<Request>, key: string, rule: Rule) {
    forall i :: 0 <= i < |rs| && rs[i].key == key ==> rs[i].rule == rule
  }

  function Min(a: int, b: int): int {
    if a < b then a else b
  }

  lemma {:induction false} NothingBefore(rs: seq<Request>, vs: seq<Verdict>, key: string, from: int, width: int)
    requires |vs| == |rs|
    requires forall i :: 0 <= i < |rs| && rs[i].key == key ==> rs[i].now < from
    ensures Allowed(rs, vs, key, from, width) == 0
  {
    if rs != [] { NothingBefore(rs[..|rs| - 1], vs[..|rs| - 1], key, from, width); }
  }

  /** What `c`, the number let through since `from`, can be when the counter is `found`. */
  predicate Budget(found: Option<Entry>, c: int, rule: Rule, from: int) {
    match found
    case None => c == 0
    case Some(e) =>
      var start := e.resetAt - rule.windowMs;
      && e.count >= 1
      && (if start < from then c <= Max(0, Min(e.count, rule.limit) - 1)
          else if start == from then c == Min(e.count, rule.limit)
          else if start < from + rule.windowMs then c <= Max(0, rule.limit - 1) + Min(e.count, rule.limit)
          else c <= Max(0, 2 * rule.limit - 1))
  }

  lemma {:induction false} BudgetStep(found: Option<Entry>, c: int, rule: Rule, from: int, now: int)
    requires rule.limit >= 0 && rule.windowMs > 0 && Budget(found, c, rule, from)
    requires found.Some? ==> found.value.resetAt - rule.windowMs <= now
    requires found.Some? && found.value.resetAt <= now <= from ==> c == 0
    ensures var e := Count(found, rule, now);
      Budget(Some(e), c + (if e.count <= rule.limit && from <= now < from + rule.windowMs then 1 else 0), rule, from)
  {}

  /** The counter of `key` opened its window no later than now, and no request of `key` came after it closed. */
  ghost predicate Current(rs: seq<Request>, key: string, rule: Rule, found: Option<Entry>) {
    found.Some? ==>
      && rs != [] && found.value.resetAt - rule.windowMs <= rs[|rs| - 1].now
      && forall i :: 0 <= i < |rs| && rs[i].key == key ==> rs[i].now < found.value.resetAt
  }

  lemma {:induction false} UnboundedCurrent(rs: seq<Request>, key: string, rule: Rule)
    requires ClockMoves(rs) && OneRule(rs, key, rule) && rule.windowMs > 0
    ensures |ServeUnbounded(rs).1| == |rs| && Current(rs, key, rule, Lookup(ServeUnbounded(rs).0, key))
  {
    if rs != [] {
      var n := |rs| - 1;
      UnboundedCurrent(rs[..n], key, rule);
      assert forall i :: 0 <= i < n ==> rs[..n][i] == rs[i];
    }
  }

  lemma {:induction false} UnboundedAllowed(rs: seq<Request>, key: string, rule: Rule, from: int)
    requires ClockMoves(rs) && OneRule(rs, key, rule) && rule.limit >= 0 && rule.windowMs > 0
    ensures |ServeUnbounded(rs).1| == |rs|
    ensures Budget(Lookup(ServeUnbounded(rs).0, key), Allowed(rs, ServeUnbounded(rs).1, key, from, rule.windowMs), rule, from)
  {
    UnboundedCurrent(rs, key, rule);
    if rs != [] {
      var n := |rs| - 1;
      var r := rs[n];
      UnboundedAllowed(rs[..n], key, rule, from);
      var (m, vs) := ServeUnbounded(rs[..n]);
      assert ServeUnbounded(rs).1[..n] == vs;
      if r.key == key {
        UnboundedCurrent(rs[..n], key, rule);
        if key in m && m[key].resetAt <= r.now <= from {
          NothingBefore(rs[..n], vs, key, from, rule.windowMs);
        }
        BudgetStep(Lookup(m, key), Allowed(rs[..n], vs, key, from, rule.windowMs), rule, from, r.now);
      }
    }
  }

  /**
   * For a key that is never evicted, under one rule: any half-open interval
   * of one window's length lets through at most 2 * limit - 1 requests (none
   * when the limit is 0), and the current window has let through exactly the
   * first `limit` of its requests.
   */
  lemma {:induction false} BurstBound(rs: seq<Request>, key: string, rule: Rule, from: int)
    requires ClockMoves(rs) && NeverEvicted(rs, key) && OneRule(rs, key, rule)
    requires rule.limit >= 0 && rule.windowMs > 0
    ensures |Serve(rs).1| == |rs|
    ensures Allowed(rs, Serve(rs).1, key, from, rule.windowMs) <= Max(0, 2 * rule.limit - 1)
    ensures key in Serve(rs).0.entries ==>
      var e := Serve(rs).0.entries[key];
      Allowed(rs, Serve(rs).1, key, e.resetAt - rule.windowMs, rule.windowMs) == Min(e.count, rule.limit)
  {
    TableBounded(rs);
    BoundedAllowed(rs, key, rule, from);
    if key in Serve(rs).0.entries {
      BoundedAllowed(rs, key, rule, Serve(rs).0.entries[key].resetAt - rule.windowMs);
      TablesAgree(rs, key, rs[|rs| - 1].now);
    }
  }

  lemma {:induction false} BoundedAllowed(rs: seq<Request>, key: string, rule: Rule, from: int)
    requires ClockMoves(rs) && NeverEvicted(rs, key) && OneRule(rs, key, rule)
    requires rule.limit >= 0 && rule.windowMs > 0
    ensures |Serve(rs).1| == |rs|
    ensures Budget(Lookup(ServeUnbounded(rs).0, key), Allowed(rs, Serve(rs).1, key, from, rule.windowMs), rule, from)
  {
    TableBounded(rs);
    AllowedSame(rs, Serve(rs).1, ServeUnbounded(rs).1, key, from, rule.windowMs, rs);
    UnboundedAllowed(rs, key, rule, from);
  }

  lemma {:induction false} AllowedSame(rs: seq<Request>, vs: seq<Verdict>, us: seq<Verdict>, key: string, from: int, width: int, run: seq<Request>)
    requires |vs| == |us| == |rs| <= |run| && rs == run[..|rs|]
    requires ClockMoves(run) && NeverEvicted(run, key)
    requires |Serve(run).1| == |ServeUnbounded(run).1| == |run|
    requires vs == Serve(run).1[..|rs|] && us == ServeUnbounded(run).1[..|rs|]
    ensures Allowed(rs, vs, key, from, width) == Allowed(rs, us, key, from, width)
  {
    if rs != [] {
      var n := |rs| - 1;
      if rs[n].key == key { SameVerdicts(run, key, n); }
      AllowedSame(rs[..n], vs[..n], us[..n], key, from, width, run);
    }
  }

  lemma {:induction false} ServeOneMore(rs: seq<Request>, r: Request, key: string, from: int, width: int)
    requires |Serve(rs).1| == |rs|
    ensures Serve(rs + [r]) == (Check(Serve(rs).0, r).0, Serve(rs).1 + [Check(Serve(rs).0, r).1])
    ensures Allowed(rs + [r], Serve(rs + [r]).1, key, from, width)
      == Allowed(rs, Serve(rs).1, key, from, width)
       + (if r.key == key && Check(Serve(rs).0, r).1.allowed && from <= r.now < from + width then 1 else 0)
  {
    assert (rs + [r])[..|rs|] == rs;
    assert (Serve(rs).1 + [Check(Serve(rs).0, r).1])[..|rs|] == Serve(rs).1;
  }

  /** A run of requests of one key under one rule, and where it has got to. */
  ghost predicate Reached(rs: seq<Request>, key: string, rule: Rule, now: int, found: Option<Entry>, through: nat) {
    && ClockMoves(rs) && OneRule(rs, key, rule) && |Serve(rs).1| == |rs|
    && (forall i :: 0 <= i < |rs| ==> rs[i].key == key && rs[i].now <= now)
    && |Serve(rs).0.order| <= 1 && Lookup(Serve(rs).0.entries, key) == found && (found.None? ==> rs == [])
    && Allowed(rs, Serve(rs).1, key, rule.windowMs - 1, rule.windowMs) == through
  }

  lemma {:induction false} BurstStep(rs: seq<Request>, key: string, rule: Rule, now: int, found: Option<Entry>, through: nat, later: int)
    returns (rs': seq<Request>)
    requires Reached(rs, key, rule, now, found, through) && now <= later
    requires Count(found, rule, later).count <= rule.limit
    ensures Reached(rs', key, rule, later, Some(Count(found, rule, later)),
      through + if rule.windowMs - 1 <= later < 2 * rule.windowMs - 1 then 1 else 0)
  {
    var r := Request(key, rule, later);
    rs' := rs + [r];
    assert ClockMoves(rs') && OneRule(rs', key, rule);
    ServeOneMore(rs, r, key, rule.windowMs - 1, rule.windowMs);
    CheckOneKey(Serve(rs).0, r, found);
  }

  /** A request of the only key known. */
  lemma {:induction false} CheckOneKey(t: Table, r: Request, found: Option<Entry>)
    requires |t.order| <= 1 && Lookup(t.entries, r.key) == found && (found.None? ==> t.order == [])
    ensures var (t', v) := Check(t, r); var e := Count(found, r.rule, r.now);
      |t'.order| <= 1 && Lookup(t'.entries, r.key) == Some(e) && v == Judge(e, r.rule, r.now)
  {}

  /** `n` requests at one instant of the measured interval, within a window that has room for them. */
  lemma {:induction false} BurstRepeat(rs: seq<Request>, key: string, rule: Rule, now: int, e: Entry, through: nat, later: int, n: nat)
    returns (rs': seq<Request>)
    requires Reached(rs, key, rule, now, Some(e), through) && now <= later < e.resetAt
    requires rule.windowMs - 1 <= later < 2 * rule.windowMs - 1 && e.count + n <= rule.limit
    ensures Reached(rs', key, rule, later, Some(e.(count := e.count + n)), through + n)
    decreases n
  {
    if n == 0 {
      rs' := rs;
      assert e.(count := e.count + n) == e;
    } else {
      var one := BurstStep(rs, key, rule, now, Some(e), through, later);
      var counted := e.(count := e.count + 1);
      assert Count(Some(e), rule, later) == counted;
      rs' := BurstRepeat(one, key, rule, later, counted, through + 1, later, n - 1);
    }
  }

  /**
   * That bound is reached, for every limit of at least 1 and every window of
   * at least two milliseconds: after a first request at 0, limit - 1 requests
   * at the window's last millisecond and limit requests one millisecond later.
   */
  lemma {:induction false} BurstBoundReached(key: string, rule: Rule) returns (rs: seq<Request>)
    requires rule.limit >= 1 && rule.windowMs >= 2
    ensures ClockMoves(rs) && OneRule(rs, key, rule) && |Serve(rs).1| == |rs|
    ensures Allowed(rs, Serve(rs).1, key, rule.windowMs - 1, rule.windowMs) == 2 * rule.limit - 1
  {
    var w := rule.windowMs;
    assert Reached([], key, rule, 0, None, 0);
    var first := BurstStep([], key, rule, 0, None, 0, 0);
    assert Count(None, rule, 0) == Entry(1, w);
    var full := BurstRepeat(first, key, rule, 0, Entry(1, w), 0, w - 1, rule.limit - 1);
    assert Count(Some(Entry(rule.limit, w)), rule, w) == Entry(1, 2 * w);
    var next := BurstStep(full, key, rule, w - 1, Some(Entry(rule.limit, w)), rule.limit - 1, w);
    rs := BurstRepeat(next, key, rule, w, Entry(1, 2 * w), rule.limit, w, rule.limit - 1);
  }

  // ---------------------------------------------------------------- retry-after

  function ServeFrom(t: Table, rs: seq<Request>): Table {
    if rs == [] then t else Check(ServeFrom(t, rs[..|rs| - 1]), rs[|rs| - 1]).0
  }

  lemma {:induction false} OthersOnlyDelete(t: Table, others: seq<Request>, key: string)
    requires t.Valid() && |t.order| <= MAX_TRACKED_KEYS
    requires forall i :: 0 <= i < |others| ==> others[i].key != key
    ensures var t' := ServeFrom(t, others);
      && t'.Valid() && |t'.order| <= MAX_TRACKED_KEYS
      && (key in t'.entries ==> key in t.entries && t'.entries[key] == t.entries[key])
  {
    if others != [] {
      var n := |others| - 1;
      OthersOnlyDelete(t, others[..n], key);
      var t' := ServeFrom(t, others[..n]);
      CheckValid(t', others[n]);
      PruneValid(t', others[n].now);
    }
  }

  /**
   * Retry-After is honoured: a caller that stays away for `retryAfter`
   * seconds is let through on its next request, whatever other callers do in
   * between, unless the limit lets nobody through.
   */
  lemma {:induction false} RetryAfterHonoured(t: Table, r: Request, others: seq<Request>, later: int)
    requires t.Valid() && |t.order| <= MAX_TRACKED_KEYS
    requires forall i :: 0 <= i < |others| ==> others[i].key != r.key
    requires later >= r.now + 1000 * Check(t, r).1.retryAfter
    ensures Check(ServeFrom(Check(t, r).0, others), r.(now := later)).1.allowed <==> r.rule.limit >= 1
  {
    CheckValid(t, r);
    var t' := Check(t, r).0;
    OthersOnlyDelete(t', others, r.key);
    assert t'.entries[r.key].resetAt <= later;
  }

  /**
   * Retry-After is the least number of whole seconds, at least one, after
   * which the caller's window is over.
   */
  lemma {:induction false} RetryAfterIsTight(t: Table, r: Request)
    ensures var (after, v) := Check(t, r);
      && r.key in after.entries
      && var resetAt := after.entries[r.key].resetAt;
         && v.retryAfter >= 1
         && r.now + 1000 * v.retryAfter >= resetAt
         && (v.retryAfter > 1 ==> r.now + 1000 * (v.retryAfter - 1) < resetAt)
  {}

  /**
   * The window a request falls into: the caller's own if it is still open, a
   * new one of full length otherwise; while there is room no other caller is
   * touched, and a known one keeps its place.
   */
  lemma {:induction false} WindowIs(t: Table, r: Request)
    ensures var after := Check(t, r).0; var known := r.key in t.entries && t.entries[r.key].resetAt > r.now;
      && r.key in after.entries
      && (known ==> after.entries[r.key].resetAt == t.entries[r.key].resetAt && after.entries[r.key].count == t.entries[r.key].count + 1)
      && (!known ==> after.entries[r.key].resetAt == r.now + r.rule.windowMs && after.entries[r.key].count == 1)
      && (r.key in t.entries ==> after.order == t.order)
      && (r.key !in t.entries && |t.order| < 10_000 ==> after.order == t.order + [r.key])
      && (r.key in t.entries || |t.order| < 10_000 ==>
            forall k :: k != r.key ==> Lookup(after.entries, k) == Lookup(t.entries, k))
  {}

  /** A denied caller that comes back before its window is over is denied again, unless its key was evicted meanwhile. */
  lemma {:induction false} DeniedUntilReset(t: Table, r: Request, others: seq<Request>, later: int)
    requires t.Valid() && |t.order| <= MAX_TRACKED_KEYS
    requires forall i :: 0 <= i < |others| ==> others[i].key != r.key
    requires !Check(t, r).1.allowed
    requires r.key in ServeFrom(Check(t, r).0, others).entries && later < Check(t, r).0.entries[r.key].resetAt
    ensures !Check(ServeFrom(Check(t, r).0, others), r.(now := later)).1.allowed
  {
    CheckValid(t, r);
    OthersOnlyDelete(Check(t, r).0, others, r.key);
  }

  /** The table after `n` more requests just like `r`. */
  function Repeat(t: Table, r: Request, n: nat): Table {
    if n == 0 then t else Check(Repeat(t, r, n - 1), r).0
  }

  lemma {:induction false} RepeatCounts(t: Table, r: Request, n: nat)
    requires r.key in t.entries && t.entries[r.key].resetAt > r.now
    ensures r.key in Repeat(t, r, n).entries
    ensures Repeat(t, r, n).entries[r.key] == Entry(t.entries[r.key].count + n, t.entries[r.key].resetAt)
  {
    if n > 0 { RepeatCounts(t, r, n - 1); }
  }

  /** Of further requests at the same instant, exactly the first `remaining` are let through. */
  lemma {:induction false} RemainingIsExact(t: Table, r: Request, k: nat)
    requires r.rule.windowMs > 0
    ensures var (after, v) := Check(t, r);
      && v.remaining >= 0
      && (Check(Repeat(after, r, k), r).1.allowed <==> k < v.remaining)
  {
    RepeatCounts(Check(t, r).0, r, k);
  }

  /** The key is in the table and its window is still open. */
  predicate Running(t: Table, k: string, now: int) {
    k in t.entries && t.entries[k].resetAt > now
  }

  /**
   * A new caller at a full table costs the oldest caller its place when every
   * window is still open, and nobody whose window is open when one is not.
   */
  lemma {:induction false} OnlyTheOldestIsEvicted(t: Table, r: Request, k: string)
    requires t.Valid() && |t.order| == 10_000 && r.key !in t.entries && k in t.entries
    ensures var after := Check(t, r).0; var allRunning := forall j :: j in t.order ==> Running(t, j, r.now);
      && (allRunning ==> (k in after.entries <==> k != t.order[0]))
      && (!allRunning ==> (k in after.entries <==> Running(t, k, r.now)))
      && (k in after.entries ==> after.entries[k] == t.entries[k])
  {
    KeepFreshIs(t.order, t, r.now);
    if forall j :: j in t.order ==> Running(t, j, r.now) {
      NothingStale(t.order, t, r.now);
      SplitDistinct(t.order, 1, k);
      assert t.order[..1] == [t.order[0]];
    } else {
      SomeStale(t.order, t, r.now);
    }
  }

  lemma {:induction false} NothingStale(order: seq<string>, t: Table, now: int)
    requires forall j :: j in order ==> !Stale(t, j, now)
    ensures KeepFresh(order, t, now) == order
  {
    if order != [] {
      var n := |order| - 1;
      assert forall j :: j in order[..n] ==> j in order;
      NothingStale(order[..n], t, now);
      assert order[n] in order;
    }
  }

  lemma {:induction false} SomeStale(order: seq<string>, t: Table, now: int)
    requires exists j :: j in order && Stale(t, j, now)
    ensures |KeepFresh(order, t, now)| < |order|
  {
    var n := |order| - 1;
    KeepFreshFits(order[..n], t, now);
    if !Stale(t, order[n], now) {
      assert forall j :: j in order ==> j in order[..n] || j == order[n];
      SomeStale(order[..n], t, now);
    }
  }

  lemma {:induction false} KeepFreshFits(order: seq<string>, t: Table, now: int)
    ensures |KeepFresh(order, t, now)| <= |order|
  {
    if order != [] { KeepFreshFits(order[..|order| - 1], t, now); }
  }
}
