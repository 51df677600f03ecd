/**
 * Earnings per day, week or month (apps/frontend/src/lib/earnings.ts).
 *
 * A bucket is identified by the day it starts on; Calendar.DayKey is the
 * text the code uses for it.  Amounts are exact numbers.
 */
module Earnings {
  import opened Prelude
  import Calendar
  import Text

  datatype Period = Day | Week | Month

  datatype Escrow = Escrow(id: string, listingName: string, amount: real, currency: string, status: string, releasedAt: Option<int>)

  datatype Bucket = Bucket(start: int, total: real, count: nat)

  datatype Summary = Summary(
    total: real, count: nat, buckets: seq<Bucket>,
    pendingTotal: real, pendingCount: nat, pendingBuckets: seq<Bucket>)

  predicate IsPayout(e: Escrow) {
    var status := Text.Lower(e.status);
    (status == "released" || status == "completed") && e.releasedAt.Some?
  }

  predicate IsPending(e: Escrow) {
    var status := Text.Lower(e.status);
    !IsPayout(e) && (status == "disputed" || status == "funded" || status == "pending" || status == "in_dispute")
  }

  predicate StatusIs(e: Escrow, status: string) {
    Text.SameIgnoringCase(e.status, status)
  }

  /** Which escrows count as confirmed, which as pending, and that none counts as both. */
  lemma {:induction false} CountsIff(e: Escrow)
    ensures IsPayout(e) <==> (StatusIs(e, "released") || StatusIs(e, "completed")) && e.releasedAt.Some?
    ensures IsPending(e) <==>
      StatusIs(e, "disputed") || StatusIs(e, "funded") || StatusIs(e, "pending") || StatusIs(e, "in_dispute")
    ensures !(IsPayout(e) && IsPending(e))
  {
    Text.LowerIs(e.status, "released");
    Text.LowerIs(e.status, "completed");
    Text.LowerIs(e.status, "disputed");
    Text.LowerIs(e.status, "funded");
    Text.LowerIs(e.status, "pending");
    Text.LowerIs(e.status, "in_dispute");
  }

  /** The first day of the bucket a day falls in; days before year 0 are not part of this model. */
  function Start(day: int, period: Period): int {
    match period
    case Day => day
    case Week => if day < 0 then day else Calendar.WeekStart(day)
    case Month => if day < 0 then day else Calendar.MonthStart(day)
  }

  // ---------------------------------------------------------------- specification

  /** Something to be counted: one escrow, or a bucket of a finer summary. */
  datatype Item = Item(day: int, amount: real, weight: nat)

  function AmountAt(items: seq<Item>, period: Period, start: int): real {
    if items == [] then 0.0
    else
      var last := items[|items| - 1];
      AmountAt(items[..|items| - 1], period, start) + (if Start(last.day, period) == start then last.amount else 0.0)
  }

  function WeightAt(items: seq<Item>, period: Period, start: int): nat {
    if items == [] then 0
    else
      var last := items[|items| - 1];
      WeightAt(items[..|items| - 1], period, start) + (if Start(last.day, period) == start then last.weight else 0)
  }

  function TotalAmount(items: seq<Item>): real {
    if items == [] then 0.0 else TotalAmount(items[..|items| - 1]) + items[|items| - 1].amount
  }

  function TotalWeight(items: seq<Item>): nat {
    if items == [] then 0 else TotalWeight(items[..|items| - 1]) + items[|items| - 1].weight
  }

  predicate Ascending(bs: seq<Bucket>) {
    forall i, j :: 0 <= i < j < |bs| ==> bs[i].start < bs[j].start
  }

  function At(bs: seq<Bucket>, start: int): Option<Bucket> {
    if bs == [] then None
    else if bs[|bs| - 1].start == start then Some(bs[|bs| - 1])
    else At(bs[..|bs| - 1], start)
  }

  /** One bucket for every start that occurs, holding what falls in it, and no other. */
  ghost predicate Tallies(bs: seq<Bucket>, items: seq<Item>, period: Period) {
    forall start :: At(bs, start) == TallyOf(items, period, start)
  }

  function TallyOf(items: seq<Item>, period: Period, start: int): Option<Bucket> {
    var weight := WeightAt(items, period, start);
    if weight > 0 then Some(Bucket(start, AmountAt(items, period, start), weight)) else None
  }

  /** Adds an item to an ascending list of buckets. */
  function AddTo(bs: seq<Bucket>, start: int, amount: real, weight: nat): seq<Bucket> {
    if bs == [] then [Bucket(start, amount, weight)]
    else
      var n := |bs| - 1;
      if bs[n].start < start then bs + [Bucket(start, amount, weight)]
      else if bs[n].start == start then bs[..n] + [Bucket(start, bs[n].total + amount, bs[n].count + weight)]
      else AddTo(bs[..n], start, amount, weight) + [bs[n]]
  }

  function Bucketize(items: seq<Item>, period: Period): seq<Bucket> {
    if items == [] then []
    else
      var last := items[|items| - 1];
      AddTo(Bucketize(items[..|items| - 1], period), Start(last.day, period), last.amount, last.weight)
  }

  /** The escrows that count, on the day they count for. */
  function Collect(es: seq<Escrow>, p: Escrow -> bool, now: int): seq<Item> {
    if es == [] then []
    else
      var e := es[|es| - 1];
      var at := if e.releasedAt.Some? then e.releasedAt.value else now;
      Collect(es[..|es| - 1], p, now) + (if p(e) then [Item(Calendar.DayOfInstant(at), e.amount, 1)] else [])
  }

  function Summarize(es: seq<Escrow>, period: Period, now: int): Summary {
    var paid := Collect(es, IsPayout, now);
    var pending := Collect(es, IsPending, now);
    Summary(TotalAmount(paid), TotalWeight(paid), Bucketize(paid, period),
      TotalAmount(pending), TotalWeight(pending), Bucketize(pending, period))
  }

  predicate Weighted(items: seq<Item>) {
    forall i :: 0 <= i < |items| ==> items[i].weight > 0
  }

  // ---------------------------------------------------------------- what the buckets are

  function Merge(found: Option<Bucket>, start: int, amount: real, weight: nat): Bucket {
    if found.None? then Bucket(start, amount, weight)
    else Bucket(start, found.value.total + amount, found.value.count + weight)
  }

  lemma {:induction false} AddToAscends(bs: seq<Bucket>, start: int, amount: real, weight: nat)
    requires Ascending(bs)
    ensures var r := AddTo(bs, start, amount, weight);
      && Ascending(r) && r != []
      && r[|r| - 1].start == (if bs == [] || bs[|bs| - 1].start < start then start else bs[|bs| - 1].start)
  {
    if bs != [] && bs[|bs| - 1].start > start {
      AddToAscends(bs[..|bs| - 1], start, amount, weight);
    }
  }

  lemma {:induction false} AddToAt(bs: seq<Bucket>, start: int, amount: real, weight: nat, k: int)
    requires Ascending(bs)
    ensures At(AddTo(bs, start, amount, weight), k)
      == if k == start then Some(Merge(At(bs, k), start, amount, weight)) else At(bs, k)
  {
    if bs != [] {
      var n := |bs| - 1;
      AtAbsent(bs, start);
      if bs[n].start > start {
        AddToAt(bs[..n], start, amount, weight, k);
        AtLast(AddTo(bs[..n], start, amount, weight), bs[n], k);
      } else if bs[n].start == start {
        AtLast(bs[..n], Bucket(start, bs[n].total + amount, bs[n].count + weight), k);
      } else {
        AtLast(bs, Bucket(start, amount, weight), k);
      }
    }
  }

  lemma {:induction false} AtLast(bs: seq<Bucket>, b: Bucket, k: int)
    ensures At(bs + [b], k) == if b.start == k then Some(b) else At(bs, k)
  {
    assert (bs + [b])[..|bs|] == bs;
  }

  /** Beyond the last bucket there is none. */
  lemma {:induction false} AtAbsent(bs: seq<Bucket>, start: int)
    requires Ascending(bs)
    ensures bs == [] || bs[|bs| - 1].start < start ==> At(bs, start) == None
    ensures At(bs, start).Some? ==> bs != [] && start <= bs[|bs| - 1].start && At(bs, start).value.start == start
  {
    if bs != [] { AtAbsent(bs[..|bs| - 1], start); }
  }

  lemma {:induction false} BucketizeAt(items: seq<Item>, period: Period, k: int)
    requires Weighted(items)
    ensures Ascending(Bucketize(items, period))
    ensures At(Bucketize(items, period), k) == TallyOf(items, period, k)
  {
    if items != [] {
      var n := |items| - 1;
      BucketizeAt(items[..n], period, k);
      AddToAscends(Bucketize(items[..n], period), Start(items[n].day, period), items[n].amount, items[n].weight);
      AddToAt(Bucketize(items[..n], period), Start(items[n].day, period), items[n].amount, items[n].weight, k);
      TallyStep(items, period, k);
    }
  }

  lemma {:induction false} TallyStep(items: seq<Item>, period: Period, k: int)
    requires Weighted(items) && items != []
    ensures var last := items[|items| - 1]; var before := TallyOf(items[..|items| - 1], period, k);
      TallyOf(items, period, k) == if Start(last.day, period) == k then Some(Merge(before, k, last.amount, last.weight)) else before
  {
    NoWeightNoAmount(items[..|items| - 1], period, k);
  }

  lemma {:induction false} BucketizeTallies(items: seq<Item>, period: Period)
    requires Weighted(items)
    ensures Ascending(Bucketize(items, period)) && Tallies(Bucketize(items, period), items, period)
  {
    forall k ensures At(Bucketize(items, period), k) == TallyOf(items, period, k) {
      BucketizeAt(items, period, k);
    }
    BucketizeAt(items, period, 0);
  }

  lemma {:induction false} NoWeightNoAmount(items: seq<Item>, period: Period, start: int)
    requires Weighted(items)
    ensures WeightAt(items, period, start) == 0 ==> AmountAt(items, period, start) == 0.0
  {
    if items != [] { NoWeightNoAmount(items[..|items| - 1], period, start); }
  }

  /** Two ascending lists that agree at every start are the same list. */
  lemma {:induction false} AscendingUnique(xs: seq<Bucket>, ys: seq<Bucket>)
    requires Ascending(xs) && Ascending(ys) && forall k :: At(xs, k) == At(ys, k)
    ensures xs == ys
  {
    var k := if xs != [] then xs[|xs| - 1].start else if ys != [] then ys[|ys| - 1].start else 0;
    assert At(xs, k) == At(ys, k);
    if xs != [] {
      AtAbsent(ys, k);
      var m := ys[|ys| - 1].start;
      assert At(xs, m) == At(ys, m);
      AtAbsent(xs, m);
      var xs', ys' := xs[..|xs| - 1], ys[..|ys| - 1];
      forall k ensures At(xs', k) == At(ys', k) {
        assert At(xs, k) == At(ys, k);
        AtAbsent(xs', k);
        AtAbsent(ys', k);
      }
      AscendingUnique(xs', ys');
    }
  }

  /** Summaries of items that agree on every amount and weight are the same. */
  lemma {:induction false} SameTalliesSameBuckets(xs: seq<Item>, p: Period, ys: seq<Item>, q: Period)
    requires Weighted(xs) && Weighted(ys)
    requires forall k :: WeightAt(xs, p, k) == WeightAt(ys, q, k) && AmountAt(xs, p, k) == AmountAt(ys, q, k)
    ensures Bucketize(xs, p) == Bucketize(ys, q)
  {
    BucketizeTallies(xs, p);
    BucketizeTallies(ys, q);
    forall k ensures At(Bucketize(xs, p), k) == At(Bucketize(ys, q), k) {
      assert At(Bucketize(xs, p), k) == TallyOf(xs, p, k);
      assert At(Bucketize(ys, q), k) == TallyOf(ys, q, k);
    }
    AscendingUnique(Bucketize(xs, p), Bucketize(ys, q));
  }

  // ---------------------------------------------------------------- coarsening

  /** The buckets of a day summary, to be counted again. */
  function AsItems(bs: seq<Bucket>): seq<Item> {
    seq(|bs|, i requires 0 <= i < |bs| => Item(bs[i].start, bs[i].total, bs[i].count))
  }

  lemma {:induction false} RecountAdd(bs: seq<Bucket>, day: int, amount: real, weight: nat, p: Period, k: int)
    ensures var before := AsItems(bs); var after := AsItems(AddTo(bs, day, amount, weight));
      && AmountAt(after, p, k) == AmountAt(before, p, k) + (if Start(day, p) == k then amount else 0.0)
      && WeightAt(after, p, k) == WeightAt(before, p, k) + (if Start(day, p) == k then weight else 0)
      && TotalAmount(after) == TotalAmount(before) + amount
      && TotalWeight(after) == TotalWeight(before) + weight
  {
    if bs == [] {
      CountLast([], Bucket(day, amount, weight), p, k);
    } else {
      var n := |bs| - 1;
      assert bs == bs[..n] + [bs[n]];
      CountLast(bs[..n], bs[n], p, k);
      if bs[n].start > day {
        RecountAdd(bs[..n], day, amount, weight, p, k);
        CountLast(AddTo(bs[..n], day, amount, weight), bs[n], p, k);
      } else if bs[n].start == day {
        CountLast(bs[..n], Bucket(day, bs[n].total + amount, bs[n].count + weight), p, k);
      } else {
        CountLast(bs, Bucket(day, amount, weight), p, k);
      }
    }
  }

  lemma {:induction false} CountLast(bs: seq<Bucket>, b: Bucket, p: Period, k: int)
    ensures var before := AsItems(bs); var after := AsItems(bs + [b]);
      && AmountAt(after, p, k) == AmountAt(before, p, k) + (if Start(b.start, p) == k then b.total else 0.0)
      && WeightAt(after, p, k) == WeightAt(before, p, k) + (if Start(b.start, p) == k then b.count else 0)
      && TotalAmount(after) == TotalAmount(before) + b.total
      && TotalWeight(after) == TotalWeight(before) + b.count
  {
    assert AsItems(bs + [b])[..|bs|] == AsItems(bs);
  }

  lemma {:induction false} RecountDays(items: seq<Item>, p: Period, k: int)
    ensures var days := AsItems(Bucketize(items, Day));
      AmountAt(days, p, k) == AmountAt(items, p, k) && WeightAt(days, p, k) == WeightAt(items, p, k)
  {
    if items != [] {
      var n := |items| - 1;
      RecountDays(items[..n], p, k);
      RecountAdd(Bucketize(items[..n], Day), items[n].day, items[n].amount, items[n].weight, p, k);
    }
  }

  lemma {:induction false} BucketsAreWeighted(items: seq<Item>, period: Period)
    requires Weighted(items)
    ensures Weighted(AsItems(Bucketize(items, period)))
  {
    if items != [] {
      var n := |items| - 1;
      BucketsAreWeighted(items[..n], period);
      AddToWeighted(Bucketize(items[..n], period), Start(items[n].day, period), items[n].amount, items[n].weight);
    }
  }

  lemma {:induction false} AddToWeighted(bs: seq<Bucket>, start: int, amount: real, weight: nat)
    requires Weighted(AsItems(bs)) && weight > 0
    ensures Weighted(AsItems(AddTo(bs, start, amount, weight)))
  {
    if bs != [] {
      var n := |bs| - 1;
      assert forall i :: 0 <= i < |bs| ==> AsItems(bs)[i].weight == bs[i].count;
      if bs[n].start > start {
        assert Weighted(AsItems(bs[..n]));
        AddToWeighted(bs[..n], start, amount, weight);
        var r := AddTo(bs[..n], start, amount, weight);
        assert forall i :: 0 <= i < |r| ==> AsItems(r)[i].weight == r[i].count;
      }
    }
  }

  lemma {:induction false} CollectWeighted(es: seq<Escrow>, p: Escrow -> bool, now: int)
    ensures Weighted(Collect(es, p, now))
  {
    if es != [] { CollectWeighted(es[..|es| - 1], p, now); }
  }

  /** Summarising by week or month is re-bucketing the day summary. */
  lemma {:induction false} CoarseIsRebucketedDays(es: seq<Escrow>, period: Period, now: int)
    ensures var days := Summarize(es, Day, now); var coarse := Summarize(es, period, now);
      && coarse.buckets == Bucketize(AsItems(days.buckets), period)
      && coarse.pendingBuckets == Bucketize(AsItems(days.pendingBuckets), period)
  {
    RebucketItems(Collect(es, IsPayout, now), period) by { CollectWeighted(es, IsPayout, now); }
    RebucketItems(Collect(es, IsPending, now), period) by { CollectWeighted(es, IsPending, now); }
  }

  lemma {:induction false} RebucketItems(items: seq<Item>, period: Period)
    requires Weighted(items)
    ensures Bucketize(items, period) == Bucketize(AsItems(Bucketize(items, Day)), period)
  {
    BucketsAreWeighted(items, Day);
    forall k ensures WeightAt(items, period, k) == WeightAt(AsItems(Bucketize(items, Day)), period, k)
      && AmountAt(items, period, k) == AmountAt(AsItems(Bucketize(items, Day)), period, k)
    {
      RecountDays(items, period, k);
    }
    SameTalliesSameBuckets(items, period, AsItems(Bucketize(items, Day)), period);
  }

  // ---------------------------------------------------------------- totals and order

  lemma {:induction false} BucketsAddUp(items: seq<Item>, period: Period)
    ensures TotalAmount(AsItems(Bucketize(items, period))) == TotalAmount(items)
    ensures TotalWeight(AsItems(Bucketize(items, period))) == TotalWeight(items)
  {
    if items != [] {
      var n := |items| - 1;
      BucketsAddUp(items[..n], period);
      RecountAdd(Bucketize(items[..n], period), Start(items[n].day, period), items[n].amount, items[n].weight, period, 0);
    }
  }

  /** Bucket totals and counts add up to the overall figures; starts are strictly ascending. */
  lemma {:induction false} SummaryAddsUp(es: seq<Escrow>, period: Period, now: int)
    ensures var s := Summarize(es, period, now);
      && Ascending(s.buckets) && Ascending(s.pendingBuckets)
      && TotalAmount(AsItems(s.buckets)) == s.total && TotalWeight(AsItems(s.buckets)) == s.count
      && TotalAmount(AsItems(s.pendingBuckets)) == s.pendingTotal && TotalWeight(AsItems(s.pendingBuckets)) == s.pendingCount
      && s.count + s.pendingCount <= |es|
  {
    var paid, pending := Collect(es, IsPayout, now), Collect(es, IsPending, now);
    CollectWeighted(es, IsPayout, now);
    CollectWeighted(es, IsPending, now);
    BucketizeTallies(paid, period);
    BucketizeTallies(pending, period);
    BucketsAddUp(paid, period);
    BucketsAddUp(pending, period);
    CountedOnce(es, now);
  }

  /** No escrow counts as both confirmed and pending. */
  lemma {:induction false} CountedOnce(es: seq<Escrow>, now: int)
    ensures TotalWeight(Collect(es, IsPayout, now)) + TotalWeight(Collect(es, IsPending, now)) <= |es|
  {
    if es != [] {
      var n := |es| - 1;
      CountedOnce(es[..n], now);
      CollectLast(es, IsPayout, now);
      CollectLast(es, IsPending, now);
    }
  }

  lemma {:induction false} CollectLast(es: seq<Escrow>, p: Escrow -> bool, now: int)
    requires es != []
    ensures TotalWeight(Collect(es, p, now)) == TotalWeight(Collect(es[..|es| - 1], p, now)) + (if p(es[|es| - 1]) then 1 else 0)
  {
    var items := Collect(es, p, now);
    if p(es[|es| - 1]) {
      assert items[..|items| - 1] == Collect(es[..|es| - 1], p, now);
    } else {
      assert items == Collect(es[..|es| - 1], p, now);
    }
  }

  /** The keys the page shows are strictly ascending text, for years of four digits. */
  lemma {:induction false} KeysAscend(bs: seq<Bucket>, i: nat, j: nat)
    requires Ascending(bs) && i < j < |bs|
    requires 0 <= bs[i].start && 0 <= bs[j].start && Calendar.DateOf(bs[j].start).year < 10_000
    ensures Calendar.TextLess(Calendar.DayKey(bs[i].start), Calendar.DayKey(bs[j].start))
  {
    Calendar.DayKeysOrdered(bs[i].start, bs[j].start);
  }

  /** A week bucket starts on the Monday at most six days before its days, a month bucket on the first. */
  lemma {:induction false} BucketStarts(day: nat)
    ensures day - 6 <= Start(day, Week) <= day && (Start(day, Week) >= 0 ==> Calendar.Weekday(Start(day, Week)) == 1)
    ensures 0 <= Start(day, Month) <= day && Calendar.DateOf(Start(day, Month)) == Calendar.DateOf(day).(day := 0)
    ensures Start(day, Day) == day
  {
    Calendar.WeekStartIsMonday(day);
    Calendar.MonthStartIsFirst(day);
  }

  // ---------------------------------------------------------------- what is counted

  /** The sum of the amounts of the escrows that meet a test. */
  function AmountWhere(es: seq<Escrow>, test: Escrow -> bool): real {
    if es == [] then 0.0 else (if test(es[0]) then es[0].amount else 0.0) + AmountWhere(es[1..], test)
  }

  function NumberWhere(es: seq<Escrow>, test: Escrow -> bool): nat {
    if es == [] then 0 else (if test(es[0]) then 1 else 0) + NumberWhere(es[1..], test)
  }

  /** Counted escrows of the period that starts on day `start`: by their release, or by now without one. */
  function InPeriod(p: Escrow -> bool, now: int, period: Period, start: int): Escrow -> bool {
    (e: Escrow) => p(e) && Start(Calendar.DayOfInstant(match e.releasedAt case Some(at) => at case None => now), period) == start
  }

  lemma {:induction false} AmountConcat(a: seq<Item>, b: seq<Item>, period: Period, start: int)
    ensures AmountAt(a + b, period, start) == AmountAt(a, period, start) + AmountAt(b, period, start)
    ensures WeightAt(a + b, period, start) == WeightAt(a, period, start) + WeightAt(b, period, start)
    ensures TotalAmount(a + b) == TotalAmount(a) + TotalAmount(b) && TotalWeight(a + b) == TotalWeight(a) + TotalWeight(b)
  {
    if b == [] {
      assert a + b == a;
    } else {
      AmountConcat(a, b[..|b| - 1], period, start);
      assert (a + b)[..|a + b| - 1] == a + b[..|b| - 1];
    }
  }

  lemma {:induction false} CollectOne(e: Escrow, p: Escrow -> bool, now: int, period: Period, start: int)
    ensures var items := Collect([e], p, now);
      && AmountAt(items, period, start) == (if InPeriod(p, now, period, start)(e) then e.amount else 0.0)
      && WeightAt(items, period, start) == (if InPeriod(p, now, period, start)(e) then 1 else 0)
      && TotalAmount(items) == (if p(e) then e.amount else 0.0) && TotalWeight(items) == (if p(e) then 1 else 0)
  {
    var day := Calendar.DayOfInstant(match e.releasedAt case Some(at) => at case None => now);
    assert [e][..0] == [];
    assert Collect([e], p, now) == if p(e) then [Item(day, e.amount, 1)] else [];
    ItemAlone(Item(day, e.amount, 1), period, start);
  }

  lemma {:induction false} ItemAlone(item: Item, period: Period, start: int)
    ensures AmountAt([item], period, start) == (if Start(item.day, period) == start then item.amount else 0.0)
    ensures WeightAt([item], period, start) == (if Start(item.day, period) == start then item.weight else 0)
    ensures TotalAmount([item]) == item.amount && TotalWeight([item]) == item.weight
  {
    assert [item][..0] == [];
  }

  lemma {:induction false} CollectCounts(es: seq<Escrow>, p: Escrow -> bool, now: int, period: Period, start: int)
    ensures var items := Collect(es, p, now);
      && AmountAt(items, period, start) == AmountWhere(es, InPeriod(p, now, period, start))
      && WeightAt(items, period, start) == NumberWhere(es, InPeriod(p, now, period, start))
      && TotalAmount(items) == AmountWhere(es, p) && TotalWeight(items) == NumberWhere(es, p)
  {
    if es != [] {
      CollectCounts(es[1..], p, now, period, start);
      CollectOne(es[0], p, now, period, start);
      CollectConcat([es[0]], es[1..], p, now);
      assert [es[0]] + es[1..] == es;
      AmountConcat(Collect([es[0]], p, now), Collect(es[1..], p, now), period, start);
    }
  }

  /** What a bucket shows: the escrows of its period, if there are any. */
  function BucketOf(es: seq<Escrow>, p: Escrow -> bool, now: int, period: Period, start: int): Option<Bucket> {
    var here := InPeriod(p, now, period, start);
    if NumberWhere(es, here) == 0 then None else Some(Bucket(start, AmountWhere(es, here), NumberWhere(es, here)))
  }

  /**
   * The summary, by definition: the confirmed and the pending totals and
   * counts are those of the escrows that count as such, and the bucket of
   * every period holds exactly the escrows of that period.
   */
  lemma {:induction false} SummaryIs(es: seq<Escrow>, period: Period, now: int, start: int)
    ensures var s := Summarize(es, period, now);
      && s.total == AmountWhere(es, IsPayout) && s.count == NumberWhere(es, IsPayout)
      && s.pendingTotal == AmountWhere(es, IsPending) && s.pendingCount == NumberWhere(es, IsPending)
      && At(s.buckets, start) == BucketOf(es, IsPayout, now, period, start)
      && At(s.pendingBuckets, start) == BucketOf(es, IsPending, now, period, start)
  {
    BucketIs(es, IsPayout, now, period, start);
    BucketIs(es, IsPending, now, period, start);
  }

  lemma {:induction false} BucketIs(es: seq<Escrow>, p: Escrow -> bool, now: int, period: Period, start: int)
    ensures var items := Collect(es, p, now);
      && TotalAmount(items) == AmountWhere(es, p) && TotalWeight(items) == NumberWhere(es, p)
      && At(Bucketize(items, period), start) == BucketOf(es, p, now, period, start)
  {
    CollectCounts(es, p, now, period, start);
    CollectWeighted(es, p, now);
    BucketizeTallies(Collect(es, p, now), period);
  }

  // ---------------------------------------------------------------- input order

  lemma {:induction false} CollectConcat(a: seq<Escrow>, b: seq<Escrow>, p: Escrow -> bool, now: int)
    ensures Collect(a + b, p, now) == Collect(a, p, now) + Collect(b, p, now)
  {
    if b == [] {
      assert a + b == a;
    } else {
      assert (a + b)[..|a + b| - 1] == a + b[..|b| - 1];
      CollectConcat(a, b[..|b| - 1], p, now);
    }
  }

  lemma {:induction false} TalliesConcat(a: seq<Item>, b: seq<Item>, p: Period, k: int)
    ensures AmountAt(a + b, p, k) == AmountAt(a, p, k) + AmountAt(b, p, k)
    ensures WeightAt(a + b, p, k) == WeightAt(a, p, k) + WeightAt(b, p, k)
    ensures TotalAmount(a + b) == TotalAmount(a) + TotalAmount(b)
    ensures TotalWeight(a + b) == TotalWeight(a) + TotalWeight(b)
  {
    if b == [] {
      assert a + b == a;
    } else {
      assert (a + b)[..|a + b| - 1] == a + b[..|b| - 1];
      TalliesConcat(a, b[..|b| - 1], p, k);
    }
  }

  predicate SameFigures(xs: seq<Item>, ys: seq<Item>, p: Period, k: int) {
    && AmountAt(xs, p, k) == AmountAt(ys, p, k) && WeightAt(xs, p, k) == WeightAt(ys, p, k)
    && TotalAmount(xs) == TotalAmount(ys) && TotalWeight(xs) == TotalWeight(ys)
  }

  lemma {:induction false} SameFiguresConcat(xs: seq<Item>, ys: seq<Item>, zs: seq<Item>, p: Period, k: int)
    requires SameFigures(xs, ys, p, k)
    ensures SameFigures(xs + zs, ys + zs, p, k)
  {
    TalliesConcat(xs, zs, p, k);
    TalliesConcat(ys, zs, p, k);
  }

  /** Where one escrow stands in the list makes no difference to any figure. */
  lemma {:induction false} MoveLast(a: seq<Escrow>, e: Escrow, b: seq<Escrow>, which: Escrow -> bool, now: int, p: Period, k: int)
    ensures SameFigures(Collect(a + b, which, now) + Collect([e], which, now), Collect(a + [e] + b, which, now), p, k)
  {
    CollectConcat(a, b, which, now);
    CollectConcat(a + [e], b, which, now);
    CollectConcat(a, [e], which, now);
    var (ca, cb, ce) := (Collect(a, which, now), Collect(b, which, now), Collect([e], which, now));
    TalliesConcat(ca, cb, p, k);
    TalliesConcat(ca + cb, ce, p, k);
    TalliesConcat(ca + ce, cb, p, k);
    TalliesConcat(ca, ce, p, k);
  }

  lemma {:induction false} WithoutOne(es: seq<Escrow>, fs: seq<Escrow>, a: seq<Escrow>, b: seq<Escrow>)
    requires es != [] && multiset(es) == multiset(fs) && fs == a + [es[|es| - 1]] + b
    ensures multiset(es[..|es| - 1]) == multiset(a + b)
  {
    var e := es[|es| - 1];
    assert es == es[..|es| - 1] + [e];
    assert multiset(fs) == multiset(a + b) + multiset{e};
    assert multiset(es) == multiset(es[..|es| - 1]) + multiset{e};
    assert multiset(es[..|es| - 1]) == multiset(es) - multiset{e} == multiset(a + b);
  }

  lemma {:induction false} ReorderStep(init: seq<Escrow>, e: Escrow, a: seq<Escrow>, b: seq<Escrow>, which: Escrow -> bool, now: int, p: Period, k: int)
    requires SameFigures(Collect(init, which, now), Collect(a + b, which, now), p, k)
    ensures SameFigures(Collect(init + [e], which, now), Collect(a + [e] + b, which, now), p, k)
  {
    SameFiguresConcat(Collect(init, which, now), Collect(a + b, which, now), Collect([e], which, now), p, k);
    MoveLast(a, e, b, which, now, p, k);
    CollectConcat(init, [e], which, now);
  }

  lemma {:induction false} SplitAt(fs: seq<Escrow>, e: Escrow) returns (a: seq<Escrow>, b: seq<Escrow>)
    requires e in fs
    ensures fs == a + [e] + b
  {
    var i :| 0 <= i < |fs| && fs[i] == e;
    a, b := fs[..i], fs[i + 1..];
  }

  lemma {:induction false} ReorderedTallies(es: seq<Escrow>, fs: seq<Escrow>, which: Escrow -> bool, now: int, p: Period, k: int)
    requires multiset(es) == multiset(fs)
    ensures SameFigures(Collect(es, which, now), Collect(fs, which, now), p, k)
  {
    if es == [] {
      assert |fs| == |multiset(fs)| == 0;
    } else {
      var init, e := es[..|es| - 1], es[|es| - 1];
      assert es == init + [e] && e in multiset(es);
      var a, b := SplitAt(fs, e);
      WithoutOne(es, fs, a, b);
      ReorderedTallies(init, a + b, which, now, p, k);
      ReorderStep(init, e, a, b, which, now, p, k);
    }
  }

  /** The summary does not depend on the order of the escrows. */
  lemma {:induction false} OrderDoesNotMatter(es: seq<Escrow>, fs: seq<Escrow>, period: Period, now: int)
    requires multiset(es) == multiset(fs)
    ensures Summarize(es, period, now) == Summarize(fs, period, now)
  {
    SameBuckets(es, fs, IsPayout, period, now);
    SameBuckets(es, fs, IsPending, period, now);
  }

  lemma {:induction false} SameBuckets(es: seq<Escrow>, fs: seq<Escrow>, which: Escrow -> bool, period: Period, now: int)
    requires multiset(es) == multiset(fs)
    ensures var xs := Collect(es, which, now); var ys := Collect(fs, which, now);
      Bucketize(xs, period) == Bucketize(ys, period) && TotalAmount(xs) == TotalAmount(ys) && TotalWeight(xs) == TotalWeight(ys)
  {
    var xs, ys := Collect(es, which, now), Collect(fs, which, now);
    CollectWeighted(es, which, now);
    CollectWeighted(fs, which, now);
    forall k ensures WeightAt(xs, period, k) == WeightAt(ys, period, k) && AmountAt(xs, period, k) == AmountAt(ys, period, k) {
      ReorderedTallies(es, fs, which, now, period, k);
    }
    ReorderedTallies(es, fs, which, now, period, 0);
    SameTalliesSameBuckets(xs, period, ys, period);
  }

  // ---------------------------------------------------------------- the code, with its maps

  /** The map and running figures kept for the items seen so far. */
  ghost predicate Keeps(m: map<int, Bucket>, total: real, count: nat, items: seq<Item>, period: Period) {
    && Weighted(items)
    && (forall k :: Lookup(m, k) == TallyOf(items, period, k))
    && total == TotalAmount(items) && count == TotalWeight(items)
  }

  /** One escrow more, or none. */
  lemma {:induction false} KeepsNext(es: seq<Escrow>, i: nat, which: Escrow -> bool, now: int, period: Period, m: map<int, Bucket>, total: real, count: nat)
    requires i < |es| && Keeps(m, total, count, Collect(es[..i], which, now), period)
    ensures var e := es[i]; var items' := Collect(es[..i + 1], which, now);
      var k := Start(Calendar.DayOfInstant(if e.releasedAt.Some? then e.releasedAt.value else now), period);
      if which(e) then Keeps(m[k := Merge(Lookup(m, k), k, e.amount, 1)], total + e.amount, count + 1, items', period)
      else Keeps(m, total, count, items', period)
  {
    var e := es[i];
    var items := Collect(es[..i], which, now);
    assert es[..i + 1][..i] == es[..i];
    if which(e) {
      var item := Item(Calendar.DayOfInstant(if e.releasedAt.Some? then e.releasedAt.value else now), e.amount, 1);
      var k := Start(item.day, period);
      var m' := m[k := Merge(Lookup(m, k), k, e.amount, 1)];
      assert (items + [item])[..|items|] == items;
      forall j ensures Lookup(m', j) == TallyOf(items + [item], period, j) {
        assert Lookup(m, j) == TallyOf(items, period, j);
        TallyStep(items + [item], period, j);
      }
    } else {
      assert Collect(es[..i + 1], which, now) == items;
    }
  }

  /** `[...map.values()].sort(by key)` */
  method SortedValues(m: map<int, Bucket>) returns (bs: seq<Bucket>)
    requires forall k :: k in m ==> m[k].start == k && m[k].count > 0
    ensures Ascending(bs) && forall k :: At(bs, k) == Lookup(m, k)
  {
    bs := [];
    var keys := m.Keys;
    while keys != {}
      invariant keys <= m.Keys && Ascending(bs)
      invariant forall k :: At(bs, k) == (if k in m && k !in keys then Some(m[k]) else None)
      decreases keys
    {
      var key := AnyMember(keys);
      forall k ensures At(AddTo(bs, key, m[key].total, m[key].count), k) == (if k == key then Some(m[key]) else At(bs, k)) {
        AddToAt(bs, key, m[key].total, m[key].count, k);
      }
      AddToAscends(bs, key, m[key].total, m[key].count);
      bs := AddTo(bs, key, m[key].total, m[key].count);
      keys := keys - {key};
    }
  }

  method SummarizeEarnings(es: seq<Escrow>, period: Period, now: int) returns (s: Summary)
    ensures s == Summarize(es, period, now)
  {
    var paid: map<int, Bucket> := map[];
    var pending: map<int, Bucket> := map[];
    var total, count, pendingTotal, pendingCount := 0.0, 0, 0.0, 0;
    for i := 0 to |es|
      invariant Keeps(paid, total, count, Collect(es[..i], IsPayout, now), period)
      invariant Keeps(pending, pendingTotal, pendingCount, Collect(es[..i], IsPending, now), period)
    {
      var e := es[i];
      KeepsNext(es, i, IsPayout, now, period, paid, total, count);
      KeepsNext(es, i, IsPending, now, period, pending, pendingTotal, pendingCount);
      if IsPayout(e) {
        var key := Start(Calendar.DayOfInstant(e.releasedAt.value), period);
        paid := paid[key := Merge(Lookup(paid, key), key, e.amount, 1)];
        total := total + e.amount;
        count := count + 1;
      } else if IsPending(e) {
        var key := Start(Calendar.DayOfInstant(if e.releasedAt.Some? then e.releasedAt.value else now), period);
        pending := pending[key := Merge(Lookup(pending, key), key, e.amount, 1)];
        pendingTotal := pendingTotal + e.amount;
        pendingCount := pendingCount + 1;
      }
    }
    assert es[..|es|] == es;
    var buckets := SortedBuckets(paid, Collect(es, IsPayout, now), period);
    var pendingBuckets := SortedBuckets(pending, Collect(es, IsPending, now), period);
    s := Summary(total, count, buckets, pendingTotal, pendingCount, pendingBuckets);
  }

  method SortedBuckets(m: map<int, Bucket>, ghost items: seq<Item>, period: Period) returns (bs: seq<Bucket>)
    requires Weighted(items) && forall k :: Lookup(m, k) == TallyOf(items, period, k)
    ensures bs == Bucketize(items, period)
  {
    assert forall k :: k in m ==> Lookup(m, k) == TallyOf(items, period, k);
    bs := SortedValues(m);
    BucketizeTallies(items, period);
    AscendingUnique(bs, Bucketize(items, period));
  }
}
