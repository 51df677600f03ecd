/**
 * Platform analytics: the paging loop over the database and the day and asset
 * breakdowns (apps/backend/src/routes/analytics.ts).  Amounts are exact numbers.
 */
module Analytics {
  import opened Prelude
  import Calendar
  import Paging
  import Text

  /** A row as the query returns it; `amount` is its numeric value when finite, `releasedAt` when parsable. */
  datatype Row = Row(amount: Option<real>, currency: Option<string>, status: string, createdAt: int, releasedAt: Option<int>)

  const PAGE_SIZE: int := 500

  // ---------------------------------------------------------------- fetching

  /** What the database answers to one request over the ordered result set. */
  function Fetch(all: seq<Row>, limit: nat, offset: nat): seq<Row> {
    var from := if offset < |all| then offset else |all|;
    var upto := if offset + limit < |all| then offset + limit else |all|;
    all[from..upto]
  }

  /** The paging loop returns the whole result set, in order, in |all| / 500 + 1 requests. */
  method FetchEscrows(all: seq<Row>) returns (rows: seq<Row>, requests: nat)
    ensures rows == all
    ensures requests == |all| / 500 + 1
  {
    rows, requests := [], 0;
    var offset := 0;
    while true
      invariant offset == requests * PAGE_SIZE <= |all| && rows == all[..offset]
      decreases |all| - offset
    {
      var page := Fetch(all, PAGE_SIZE, offset);
      requests := requests + 1;
      rows := rows + page;
      if |page| < PAGE_SIZE {
        return;
      }
      offset := offset + PAGE_SIZE;
    }
  }

  // ---------------------------------------------------------------- one row

  predicate IsCompleted(row: Row) {
    var status := Text.Lower(row.status);
    status == "completed" || status == "released" || status == "resolved"
  }

  predicate IsDisputed(row: Row) {
    Text.Lower(row.status) == "disputed"
  }

  function CurrencyOf(row: Row): string {
    if row.currency.None? then "UNKNOWN"
    else
      var currency := Text.Upper(Text.Trim(row.currency.value));
      if currency == "" then "UNKNOWN" else currency
  }

  function RawAmount(row: Row): real {
    if row.amount.Some? then row.amount.value else 0.0
  }

  /** Only dollar-denominated rows add to the volume; the currency is not trimmed here. */
  function DollarAmount(row: Row): real {
    if row.currency.Some? && (Text.Upper(row.currency.value) == "USD" || Text.Upper(row.currency.value) == "USDC")
    then RawAmount(row) else 0.0
  }

  function ReleaseHours(row: Row): Option<real> {
    if !IsCompleted(row) || row.releasedAt.None? || row.releasedAt.value < row.createdAt then None
    else Some((row.releasedAt.value - row.createdAt) as real / 3_600_000.0)
  }

  function DayOf(row: Row): int {
    Calendar.DayOfInstant(row.createdAt)
  }

  predicate StatusIs(row: Row, status: string) {
    Text.SameIgnoringCase(row.status, status)
  }

  predicate CurrencyIs(row: Row, currency: string) {
    row.currency.Some? && Text.SameIgnoringCase(row.currency.value, currency)
  }

  /** Which rows count as completed and which as disputed. */
  lemma {:induction false} StatusCounts(row: Row)
    ensures IsCompleted(row) <==> StatusIs(row, "completed") || StatusIs(row, "released") || StatusIs(row, "resolved")
    ensures IsDisputed(row) <==> StatusIs(row, "disputed")
  {
    Text.LowerIs(row.status, "completed");
    Text.LowerIs(row.status, "released");
    Text.LowerIs(row.status, "resolved");
    Text.LowerIs(row.status, "disputed");
  }

  /** What a row adds to the dollar volume: its amount, for dollars only. */
  lemma {:induction false} DollarsIff(row: Row)
    ensures CurrencyIs(row, "USD") || CurrencyIs(row, "USDC") ==>
      DollarAmount(row) == (match row.amount case Some(amount) => amount case None => 0.0)
    ensures !CurrencyIs(row, "USD") && !CurrencyIs(row, "USDC") ==> DollarAmount(row) == 0.0
  {
    if row.currency.Some? {
      Text.UpperIs(row.currency.value, "USD");
      Text.UpperIs(row.currency.value, "USDC");
    }
  }

  /** Two rows are one asset exactly if their trimmed currencies agree but for case; none or blank is one of its own. */
  lemma {:induction false} CurrencyIff(row: Row, currency: string)
    requires Text.AllUpper(currency) && currency != "" && currency != "UNKNOWN"
    ensures CurrencyOf(row) == currency <==>
      row.currency.Some? && Text.SameIgnoringCase(Text.Trim(row.currency.value), currency)
    ensures row.currency.None? || Text.Trim(row.currency.value) == "" ==> CurrencyOf(row) == "UNKNOWN"
  {
    if row.currency.Some? { Text.UpperIs(Text.Trim(row.currency.value), currency); }
  }

  /** When a release time counts, and for how many hours. */
  lemma {:induction false} ReleaseHoursIff(row: Row)
    ensures ReleaseHours(row).Some? <==>
      && (StatusIs(row, "completed") || StatusIs(row, "released") || StatusIs(row, "resolved"))
      && row.releasedAt.Some? && row.createdAt <= row.releasedAt.value
    ensures ReleaseHours(row).Some? ==>
      ReleaseHours(row).value * 3_600_000.0 == (row.releasedAt.value - row.createdAt) as real
  {
    StatusCounts(row);
  }

  // ---------------------------------------------------------------- figures

  /** The counters of a day bucket, with the durations kept for its average. */
  datatype Figures = Figures(volume: real, created: nat, completed: nat, disputes: nat, hours: real, timed: nat)
  {
    function Plus(o: Figures): Figures {
      Figures(volume + o.volume, created + o.created, completed + o.completed, disputes + o.disputes, hours + o.hours, timed + o.timed)
    }

    /** `disputeRate`, in percent. */
    function DisputeRate(): real { Percent(disputes, created) }

    /** `avgReleaseHours` of the day. */
    function ReleaseHours(): real { Average(hours, timed) }
  }

  function Percent(part: nat, whole: nat): real {
    if whole == 0 then 0.0 else part as real / whole as real * 100.0
  }

  /** A sum over the number of its terms, 0 without any. */
  function Average(sum: real, count: nat): real {
    if count > 0 then sum / count as real else 0.0
  }

  function Nothing(): Figures { Figures(0.0, 0, 0, 0, 0.0, 0) }

  /** What one row adds. */
  function RowFigures(row: Row): Figures {
    var duration := ReleaseHours(row);
    Figures(DollarAmount(row), 1, if IsCompleted(row) then 1 else 0, if IsDisputed(row) then 1 else 0,
      if duration.Some? then duration.value else 0.0, if duration.Some? then 1 else 0)
  }

  /** A row reduced to the day it counts for and what it adds. */
  datatype Mark = Mark(day: int, figures: Figures)

  function Marks(rows: seq<Row>): seq<Mark> {
    if rows == [] then []
    else Marks(rows[..|rows| - 1]) + [Mark(DayOf(rows[|rows| - 1]), RowFigures(rows[|rows| - 1]))]
  }

  function Total(marks: seq<Mark>): Figures {
    if marks == [] then Nothing() else Total(marks[..|marks| - 1]).Plus(marks[|marks| - 1].figures)
  }

  function DayFigures(marks: seq<Mark>, day: int): Figures {
    if marks == [] then Nothing()
    else
      var before := DayFigures(marks[..|marks| - 1], day);
      if marks[|marks| - 1].day == day then before.Plus(marks[|marks| - 1].figures) else before
  }

  datatype Asset = Asset(currency: string, volume: real, completedVolume: real, created: nat, completed: nat)

  function AddToAsset(a: Asset, row: Row): Asset {
    Asset(a.currency, a.volume + RawAmount(row), a.completedVolume + (if IsCompleted(row) then RawAmount(row) else 0.0),
      a.created + 1, a.completed + (if IsCompleted(row) then 1 else 0))
  }

  /** `assetEntry` and the updates made through it, on the map in insertion order. */
  function AddToAssets(assets: seq<Asset>, row: Row): seq<Asset> {
    if assets == [] then [AddToAsset(Asset(CurrencyOf(row), 0.0, 0.0, 0, 0), row)]
    else if assets[0].currency == CurrencyOf(row) then [AddToAsset(assets[0], row)] + assets[1..]
    else [assets[0]] + AddToAssets(assets[1..], row)
  }

  function Assets(rows: seq<Row>): seq<Asset> {
    if rows == [] then [] else AddToAssets(Assets(rows[..|rows| - 1]), rows[|rows| - 1])
  }

  datatype Report = Report(
    chart: seq<Figures>,
    assets: seq<Asset>,
    totalVolume: real,
    activeEscrows: nat,
    totalCreated: nat,
    totalCompleted: nat,
    totalDisputes: nat,
    totalValueLocked: real,
    /** The durations behind the overall release average, and how many there are. */
    hours: real,
    timed: nat)
  {
    /** `completionRate`, in percent. */
    function CompletionRate(): real { Percent(totalCompleted, totalCreated) }

    /** The overall `avgReleaseHours`. */
    function ReleaseHours(): real { Average(hours, timed) }
  }

  datatype Reply = Answered(report: Report) | InvalidRange | LoadFailed

  function SumBy(rows: seq<Row>, amount: Row -> real): real {
    if rows == [] then 0.0 else SumBy(rows[..|rows| - 1], amount) + amount(rows[|rows| - 1])
  }

  function SumCharts(chart: seq<Figures>): Figures {
    if chart == [] then Nothing() else SumCharts(chart[..|chart| - 1]).Plus(chart[|chart| - 1])
  }

  /** The rows that fall in a day bucket. */
  function InBuckets(rows: seq<Row>, first: int, last: int): seq<Row> {
    if rows == [] then []
    else
      var row := rows[|rows| - 1];
      InBuckets(rows[..|rows| - 1], first, last) + (if first <= DayOf(row) <= last then [row] else [])
  }

  /** The figures of `n` days in a row. */
  function Days(marks: seq<Mark>, first: int, n: nat): seq<Figures> {
    if n == 0 then [] else Days(marks, first, n - 1) + [DayFigures(marks, first + n - 1)]
  }

  function Chart(rows: seq<Row>, first: int, last: int): seq<Figures>
    requires first <= last
  {
    Days(Marks(rows), first, last - first + 1)
  }

  /** The analytics of the rows of a period and the rows of escrows still active. */
  function Analyze(rows: seq<Row>, active: seq<Row>, start: int, end: int): Report
    requires start <= end
  {
    var first, last := Calendar.DayOfInstant(start), Calendar.DayOfInstant(end);
    var counted := InBuckets(rows, first, last);
    var chart := Chart(counted, first, last);
    var sum := SumCharts(chart);
    Report(chart, Assets(counted), sum.volume, |active|, |rows|, sum.completed, sum.disputes, SumBy(active, DollarAmount),
      Total(Marks(counted)).hours, Total(Marks(counted)).timed)
  }

  // ---------------------------------------------------------------- the handler's loops

  method EmptyBuckets(first: int, last: int) returns (buckets: map<int, Figures>)
    requires first <= last
    ensures forall d :: d in buckets <==> first <= d <= last
    ensures forall d :: d in buckets ==> buckets[d] == Nothing()
  {
    buckets := map[];
    var day := first;
    while day <= last
      invariant first <= day <= last + 1
      invariant forall d :: d in buckets <==> first <= d < day
      invariant forall d :: d in buckets ==> buckets[d] == Nothing()
    {
      buckets := buckets[day := Nothing()];
      day := day + 1;
    }
  }

  /** What the loop over the rows has built from `counted`, the rows inside the buckets. */
  ghost predicate Built(counted: seq<Row>, first: int, last: int, buckets: map<int, Figures>, assets: seq<Asset>, hours: real, timed: nat) {
    && (forall d :: d in buckets <==> first <= d <= last)
    && (forall d :: d in buckets ==> buckets[d] == DayFigures(Marks(counted), d))
    && assets == Assets(counted)
    && hours == Total(Marks(counted)).hours && timed == Total(Marks(counted)).timed
  }

  method CountRows(rows: seq<Row>, first: int, last: int)
    returns (buckets: map<int, Figures>, assets: seq<Asset>, hours: real, timed: nat)
    requires first <= last
    ensures Built(InBuckets(rows, first, last), first, last, buckets, assets, hours, timed)
  {
    buckets := EmptyBuckets(first, last);
    assets, hours, timed := [], 0.0, 0;
    for i := 0 to |rows|
      invariant Built(InBuckets(rows[..i], first, last), first, last, buckets, assets, hours, timed)
    {
      var row := rows[i];
      BuiltNext(rows, i, first, last, buckets, assets, hours, timed);
      if DayOf(row) in buckets {
        buckets := buckets[DayOf(row) := buckets[DayOf(row)].Plus(RowFigures(row))];
        assets := AddToAssets(assets, row);
        var duration := ReleaseHours(row);
        if duration.Some? {
          hours := hours + duration.value;
          timed := timed + 1;
        }
      }
    }
    assert rows[..|rows|] == rows;
  }

  method ChartOf(buckets: map<int, Figures>, first: int, last: int, ghost marks: seq<Mark>) returns (chart: seq<Figures>)
    requires first <= last
    requires forall d :: first <= d <= last ==> d in buckets && buckets[d] == DayFigures(marks, d)
    ensures chart == Days(marks, first, last - first + 1)
  {
    chart := [];
    for day := first to last + 1
      invariant chart == Days(marks, first, day - first)
    {
      chart := chart + [buckets[day]];
    }
  }

  /** The handler; `None` stands for a query that failed. */
  method Answer(period: Option<seq<Row>>, active: Option<seq<Row>>, start: int, end: int) returns (reply: Reply)
    ensures reply ==
      if start > end || end - start > 31_622_400_000 then InvalidRange
      else if period.None? || active.None? then LoadFailed
      else Answered(Analyze(period.value, active.value, start, end))
  {
    if start > end || end - start > 366 * 86_400_000 {
      return InvalidRange;
    }
    if period.None? || active.None? {
      return LoadFailed;
    }
    var report := BuildReport(period.value, active.value, start, end);
    reply := Answered(report);
  }

  method BuildReport(rows: seq<Row>, active: seq<Row>, start: int, end: int) returns (report: Report)
    requires start <= end
    ensures report == Analyze(rows, active, start, end)
  {
    var first, last := Calendar.DayOfInstant(start), Calendar.DayOfInstant(end);
    var buckets, assets, hours, timed := CountRows(rows, first, last);
    ghost var counted := InBuckets(rows, first, last);
    var chart := ChartOf(buckets, first, last, Marks(counted));
    assert chart == Chart(counted, first, last) && assets == Assets(counted);
    var sum := SumCharts(chart);
    report := Report(chart, assets, sum.volume, |active|, |rows|, sum.completed, sum.disputes, SumBy(active, DollarAmount), hours, timed);
  }

  lemma {:induction false} MarkOneMore(marks: seq<Mark>, m: Mark)
    ensures Total(marks + [m]) == Total(marks).Plus(m.figures)
    ensures forall d :: DayFigures(marks + [m], d) == (if d == m.day then DayFigures(marks, d).Plus(m.figures) else DayFigures(marks, d))
  {
    assert (marks + [m])[..|marks|] == marks;
  }

  lemma {:induction false} BuiltNext(rows: seq<Row>, i: nat, first: int, last: int, buckets: map<int, Figures>, assets: seq<Asset>, hours: real, timed: nat)
    requires i < |rows| && Built(InBuckets(rows[..i], first, last), first, last, buckets, assets, hours, timed)
    ensures var row := rows[i]; var day := DayOf(row); var f := RowFigures(row);
      var counted := InBuckets(rows[..i + 1], first, last);
      if day in buckets
      then Built(counted, first, last, buckets[day := buckets[day].Plus(f)], AddToAssets(assets, row), hours + f.hours, timed + f.timed)
      else Built(counted, first, last, buckets, assets, hours, timed)
  {
    assert rows[..i + 1][..i] == rows[..i];
    var before := InBuckets(rows[..i], first, last);
    var after := InBuckets(rows[..i + 1], first, last);
    if first <= DayOf(rows[i]) <= last {
      assert after == before + [rows[i]];
      BuiltCounted(before, rows[i], first, last, buckets, assets, hours, timed);
    } else {
      assert after == before;
    }
  }

  lemma {:induction false} BuiltCounted(before: seq<Row>, row: Row, first: int, last: int, buckets: map<int, Figures>, assets: seq<Asset>, hours: real, timed: nat)
    requires Built(before, first, last, buckets, assets, hours, timed) && first <= DayOf(row) <= last
    ensures var day := DayOf(row); var f := RowFigures(row);
      Built(before + [row], first, last, buckets[day := buckets[day].Plus(f)], AddToAssets(assets, row), hours + f.hours, timed + f.timed)
  {
    var m := Mark(DayOf(row), RowFigures(row));
    MarksMore(before, row);
    MarkOneMore(Marks(before), m);
  }

  lemma {:induction false} MarksMore(before: seq<Row>, row: Row)
    ensures Marks(before + [row]) == Marks(before) + [Mark(DayOf(row), RowFigures(row))]
    ensures Assets(before + [row]) == AddToAssets(Assets(before), row)
  {
    assert (before + [row])[..|before|] == before;
  }

  lemma {:induction false} DaysAre(marks: seq<Mark>, first: int, n: nat)
    ensures |Days(marks, first, n)| == n && forall i :: 0 <= i < n ==> Days(marks, first, n)[i] == DayFigures(marks, first + i)
  {
    if n > 0 { DaysAre(marks, first, n - 1); }
  }

  // ---------------------------------------------------------------- conservation

  /** The sum of `n` days in a row. */
  function SumDays(marks: seq<Mark>, first: int, n: nat): Figures {
    if n == 0 then Nothing() else SumDays(marks, first, n - 1).Plus(DayFigures(marks, first + n - 1))
  }

  lemma {:induction false} ChartSum(marks: seq<Mark>, first: int, n: nat)
    ensures SumCharts(Days(marks, first, n)) == SumDays(marks, first, n)
  {
    if n > 0 {
      ChartSum(marks, first, n - 1);
      var before := Days(marks, first, n - 1);
      assert (before + [DayFigures(marks, first + n - 1)])[..|before|] == before;
    }
  }

  lemma {:induction false} DaysWithOneMore(marks: seq<Mark>, m: Mark, first: int, n: nat)
    ensures SumDays(marks + [m], first, n) ==
      if first <= m.day < first + n then SumDays(marks, first, n).Plus(m.figures) else SumDays(marks, first, n)
  {
    if n > 0 {
      DaysWithOneMore(marks, m, first, n - 1);
      DayOneMore(marks, m, first + n - 1);
      PlusSwap(SumDays(marks, first, n - 1), m.figures, DayFigures(marks, first + n - 1));
    }
  }

  lemma {:induction false} DayOneMore(marks: seq<Mark>, m: Mark, day: int)
    ensures DayFigures(marks + [m], day) == (if day == m.day then DayFigures(marks, day).Plus(m.figures) else DayFigures(marks, day))
  {
    MarkOneMore(marks, m);
  }

  lemma {:induction false} PlusSwap(a: Figures, b: Figures, c: Figures)
    ensures a.Plus(b).Plus(c) == a.Plus(c).Plus(b) == a.Plus(c.Plus(b))
  {
  }

  lemma {:induction false} EmptyDays(first: int, n: nat)
    ensures SumDays([], first, n) == Nothing()
  {
    if n > 0 { EmptyDays(first, n - 1); }
  }

  /** Nothing is lost or counted twice between the days. */
  lemma {:induction false} DaysConserve(marks: seq<Mark>, first: int, n: nat)
    requires forall i :: 0 <= i < |marks| ==> first <= marks[i].day < first + n
    ensures SumDays(marks, first, n) == Total(marks)
  {
    if marks == [] {
      EmptyDays(first, n);
    } else {
      var init, m := marks[..|marks| - 1], marks[|marks| - 1];
      DaysConserve(init, first, n);
      DaysWithOneMore(init, m, first, n);
      MarkOneMore(init, m);
      assert marks == init + [m];
    }
  }

  predicate AllInside(rows: seq<Row>, first: int, last: int) {
    forall i :: 0 <= i < |rows| ==> first <= DayOf(rows[i]) <= last
  }

  predicate MarksInside(marks: seq<Mark>, first: int, last: int) {
    forall i :: 0 <= i < |marks| ==> first <= marks[i].day <= last
  }

  lemma {:induction false} InsideMarks(rows: seq<Row>, first: int, last: int)
    requires AllInside(rows, first, last)
    ensures InBuckets(rows, first, last) == rows
    ensures MarksInside(Marks(rows), first, last)
  {
    if rows != [] {
      var n := |rows| - 1;
      InsideMarks(rows[..n], first, last);
      assert first <= DayOf(rows[n]) <= last;
      assert InBuckets(rows, first, last) == rows[..n] + [rows[n]];
    }
  }

  function SumAssets(assets: seq<Asset>): Asset {
    if assets == [] then Asset("", 0.0, 0.0, 0, 0)
    else
      var rest := SumAssets(assets[1..]);
      Asset("", assets[0].volume + rest.volume, assets[0].completedVolume + rest.completedVolume,
        assets[0].created + rest.created, assets[0].completed + rest.completed)
  }

  lemma {:induction false} AssetsWithOneMore(assets: seq<Asset>, row: Row)
    ensures var before := SumAssets(assets); var after := SumAssets(AddToAssets(assets, row));
      after == AddToAsset(before, row)
  {
    if assets != [] && assets[0].currency != CurrencyOf(row) {
      AssetsWithOneMore(assets[1..], row);
    }
  }

  /** Nothing is lost or counted twice between the assets. */
  lemma {:induction false} AssetsConserve(rows: seq<Row>)
    ensures var sum := SumAssets(Assets(rows));
      sum.created == |rows| && sum.completed == Total(Marks(rows)).completed && sum.volume == SumBy(rows, RawAmount)
  {
    if rows != [] {
      AssetsConserve(rows[..|rows| - 1]);
      AssetsWithOneMore(Assets(rows[..|rows| - 1]), rows[|rows| - 1]);
      MarkOneMore(Marks(rows[..|rows| - 1]), Mark(DayOf(rows[|rows| - 1]), RowFigures(rows[|rows| - 1])));
    }
  }

  function HasCurrency(currency: string): Row -> bool {
    (row: Row) => CurrencyOf(row) == currency
  }

  function Completed(): Row -> bool {
    (row: Row) => IsCompleted(row)
  }

  function Disputed(): Row -> bool {
    (row: Row) => IsDisputed(row)
  }

  function OnDay(day: int): Row -> bool {
    (row: Row) => DayOf(row) == day
  }

  /** The entry of a currency, by definition. */
  function AssetFor(own: seq<Row>, currency: string): Option<Asset> {
    var completed := Paging.Filter(own, Completed());
    if own == [] then None
    else Some(Asset(currency, SumBy(own, RawAmount), SumBy(completed, RawAmount), |own|, |completed|))
  }

  function AssetAt(assets: seq<Asset>, currency: string): Option<Asset> {
    if assets == [] then None
    else if assets[0].currency == currency then Some(assets[0])
    else AssetAt(assets[1..], currency)
  }

  lemma {:induction false} AssetAtAfter(assets: seq<Asset>, row: Row, currency: string)
    ensures AssetAt(AddToAssets(assets, row), currency) ==
      if currency != CurrencyOf(row) then AssetAt(assets, currency)
      else
        var before := AssetAt(assets, currency);
        Some(AddToAsset(if before.Some? then before.value else Asset(currency, 0.0, 0.0, 0, 0), row))
  {
    if assets != [] && assets[0].currency != CurrencyOf(row) {
      AssetAtAfter(assets[1..], row, currency);
    }
  }

  lemma {:induction false} AssetForOneMore(own: seq<Row>, row: Row)
    ensures var before := AssetFor(own, CurrencyOf(row));
      AssetFor(own + [row], CurrencyOf(row))
        == Some(AddToAsset(if before.Some? then before.value else Asset(CurrencyOf(row), 0.0, 0.0, 0, 0), row))
  {
    FilterOneMore(own, row, Completed());
    SumOneMore(own, row, RawAmount);
    if IsCompleted(row) { SumOneMore(Paging.Filter(own, Completed()), row, RawAmount); }
  }

  lemma {:induction false} FilterOneMore(rows: seq<Row>, row: Row, p: Row -> bool)
    ensures Paging.Filter(rows + [row], p) == if p(row) then Paging.Filter(rows, p) + [row] else Paging.Filter(rows, p)
  {
    assert (rows + [row])[..|rows|] == rows;
  }

  lemma {:induction false} SumOneMore(rows: seq<Row>, row: Row, amount: Row -> real)
    ensures SumBy(rows + [row], amount) == SumBy(rows, amount) + amount(row)
  {
    assert (rows + [row])[..|rows|] == rows;
  }

  /** The breakdown has, for every currency that occurs and no other, the sums over its own rows. */
  lemma {:induction false} AssetsAre(rows: seq<Row>, currency: string)
    ensures AssetAt(Assets(rows), currency) == AssetFor(Paging.Filter(rows, HasCurrency(currency)), currency)
  {
    if rows != [] {
      var n := |rows| - 1;
      var own := Paging.Filter(rows[..n], HasCurrency(currency));
      AssetsAre(rows[..n], currency);
      assert rows == rows[..n] + [rows[n]];
      FilterOneMore(rows[..n], rows[n], HasCurrency(currency));
      AssetAtAfter(Assets(rows[..n]), rows[n], currency);
      if CurrencyOf(rows[n]) == currency { AssetForOneMore(own, rows[n]); }
    }
  }

  function HoursOf(row: Row): real {
    var hours := ReleaseHours(row);
    if hours.Some? then hours.value else 0.0
  }

  function Timed(): Row -> bool {
    (row: Row) => ReleaseHours(row).Some?
  }

  /** The figures of some rows, by definition. */
  lemma {:induction false} TotalIs(rows: seq<Row>)
    ensures var f := Total(Marks(rows));
      && f.volume == SumBy(rows, DollarAmount) && f.created == |rows|
      && f.completed == |Paging.Filter(rows, Completed())| && f.disputes == |Paging.Filter(rows, Disputed())|
      && f.hours == SumBy(rows, HoursOf) && f.timed == |Paging.Filter(rows, Timed())|
  {
    if rows != [] {
      var n := |rows| - 1;
      TotalIs(rows[..n]);
      MarkOneMore(Marks(rows[..n]), Mark(DayOf(rows[n]), RowFigures(rows[n])));
    }
  }

  /** A day bucket holds the figures of the rows created on that day. */
  lemma {:induction false} DayIs(rows: seq<Row>, day: int)
    ensures DayFigures(Marks(rows), day) == Total(Marks(Paging.Filter(rows, OnDay(day))))
  {
    if rows != [] {
      var n := |rows| - 1;
      var own, m := Paging.Filter(rows[..n], OnDay(day)), Mark(DayOf(rows[n]), RowFigures(rows[n]));
      DayIs(rows[..n], day);
      assert rows == rows[..n] + [rows[n]];
      FilterOneMore(rows[..n], rows[n], OnDay(day));
      DayOneMore(Marks(rows[..n]), m, day);
      if DayOf(rows[n]) == day {
        assert (own + [rows[n]])[..|own|] == own;
        MarkOneMore(Marks(own), m);
      }
    }
  }

  function Currencies(assets: seq<Asset>): set<string> {
    if assets == [] then {} else {assets[0].currency} + Currencies(assets[1..])
  }

  /** One entry per currency. */
  predicate Distinct(assets: seq<Asset>) {
    assets == [] || (assets[0].currency !in Currencies(assets[1..]) && Distinct(assets[1..]))
  }

  lemma {:induction false} AddKeepsDistinct(assets: seq<Asset>, row: Row)
    requires Distinct(assets)
    ensures Distinct(AddToAssets(assets, row)) && Currencies(AddToAssets(assets, row)) == Currencies(assets) + {CurrencyOf(row)}
  {
    if assets != [] && assets[0].currency != CurrencyOf(row) {
      AddKeepsDistinct(assets[1..], row);
    }
  }

  lemma {:induction false} AssetsDistinct(rows: seq<Row>)
    ensures Distinct(Assets(rows))
  {
    if rows != [] {
      AssetsDistinct(rows[..|rows| - 1]);
      AddKeepsDistinct(Assets(rows[..|rows| - 1]), rows[|rows| - 1]);
    }
  }

  /** What holds of the figures of any set of rows. */
  predicate Bounded(f: Figures) {
    f.completed + f.disputes <= f.created && f.timed <= f.completed && f.hours >= 0.0 && (f.timed == 0 ==> f.hours == 0.0)
  }

  predicate AllBounded(chart: seq<Figures>) {
    forall i :: 0 <= i < |chart| ==> Bounded(chart[i])
  }

  lemma {:induction false} MarksBounded(rows: seq<Row>)
    ensures forall i :: 0 <= i < |Marks(rows)| ==> Bounded(Marks(rows)[i].figures)
  {
    if rows != [] { MarksBounded(rows[..|rows| - 1]); }
  }

  lemma {:induction false} FiguresBounded(marks: seq<Mark>, day: int)
    requires forall i :: 0 <= i < |marks| ==> Bounded(marks[i].figures)
    ensures Bounded(DayFigures(marks, day)) && Bounded(Total(marks))
  {
    if marks != [] { FiguresBounded(marks[..|marks| - 1], day); }
  }

  /**
   * For the rows of the requested period: the day buckets and the asset
   * entries each add up to the totals, and on every day completed and
   * disputed escrows are among those created.
   */
  lemma {:induction false} ReportAddsUp(rows: seq<Row>, active: seq<Row>, start: int, end: int)
    requires start <= end && forall i :: 0 <= i < |rows| ==> start <= rows[i].createdAt <= end
    ensures var r := Analyze(rows, active, start, end); var sum := SumCharts(r.chart); var assets := SumAssets(r.assets);
      && sum.created == r.totalCreated == assets.created == |rows|
      && sum.completed == r.totalCompleted == assets.completed
      && r.totalCompleted + r.totalDisputes <= r.totalCreated
      && r.totalVolume == SumBy(rows, DollarAmount) && assets.volume == SumBy(rows, RawAmount)
      && sum.hours == r.hours && sum.timed == r.timed
      && AllBounded(r.chart) && Distinct(r.assets)
  {
    var first, last := Calendar.DayOfInstant(start), Calendar.DayOfInstant(end);
    InsideMarks(rows, first, last);
    TotalIs(rows);
    AssetsConserve(rows);
    AssetsDistinct(rows);
    ChartAddsUp(rows, first, last);
  }

  lemma {:induction false} ChartBounded(rows: seq<Row>, first: int, n: nat)
    ensures AllBounded(Days(Marks(rows), first, n)) && Bounded(Total(Marks(rows)))
  {
    MarksBounded(rows);
    DaysAre(Marks(rows), first, n);
    forall i | 0 <= i < n ensures Bounded(Days(Marks(rows), first, n)[i]) {
      FiguresBounded(Marks(rows), first + i);
    }
    FiguresBounded(Marks(rows), first);
  }

  lemma {:induction false} ChartAddsUp(rows: seq<Row>, first: int, last: int)
    requires first <= last && MarksInside(Marks(rows), first, last)
    ensures var chart := Chart(rows, first, last); var all := Total(Marks(rows));
      SumCharts(chart) == all && Bounded(all) && AllBounded(chart)
  {
    var n := last - first + 1;
    DaysConserve(Marks(rows), first, n);
    ChartSum(Marks(rows), first, n);
    ChartBounded(rows, first, n);
  }

  // ---------------------------------------------------------------- averages

  /** The daily averages, each weighted by the releases it averages over. */
  function WeightedAverages(chart: seq<Figures>): real {
    if chart == [] then 0.0
    else
      var last := chart[|chart| - 1];
      WeightedAverages(chart[..|chart| - 1]) + last.ReleaseHours() * last.timed as real
  }

  lemma {:induction false} DivideAndMultiply(a: real, b: real)
    requires b > 0.0
    ensures a / b * b == a
  {}

  /** An average times what it averages over is the sum. */
  lemma {:induction false} AverageTimesCount(sum: real, count: nat)
    requires count == 0 ==> sum == 0.0
    ensures Average(sum, count) * count as real == sum
  {
    if count > 0 { DivideAndMultiply(sum, count as real); }
  }

  lemma {:induction false} WeightedAveragesAreHours(chart: seq<Figures>)
    requires AllBounded(chart)
    ensures WeightedAverages(chart) == SumCharts(chart).hours && Bounded(SumCharts(chart))
  {
    if chart != [] {
      var last := chart[|chart| - 1];
      WeightedAveragesAreHours(chart[..|chart| - 1]);
      AverageTimesCount(last.hours, last.timed);
    }
  }

  /**
   * The overall release average is the mean of the daily averages, each
   * weighted by the releases it averages over.
   */
  lemma {:induction false} OverallAverageIsWeightedMean(rows: seq<Row>, active: seq<Row>, start: int, end: int)
    requires start <= end && forall i :: 0 <= i < |rows| ==> start <= rows[i].createdAt <= end
    ensures var r := Analyze(rows, active, start, end);
      WeightedAverages(r.chart) == r.hours && r.ReleaseHours() == Average(WeightedAverages(r.chart), SumCharts(r.chart).timed)
  {
    var first, last := Calendar.DayOfInstant(start), Calendar.DayOfInstant(end);
    InsideMarks(rows, first, last);
    ChartIsWeighted(rows, first, last);
  }

  lemma {:induction false} ChartIsWeighted(rows: seq<Row>, first: int, last: int)
    requires first <= last && MarksInside(Marks(rows), first, last)
    ensures WeightedAverages(Chart(rows, first, last)) == Total(Marks(rows)).hours
    ensures SumCharts(Chart(rows, first, last)) == Total(Marks(rows))
  {
    ChartAddsUp(rows, first, last);
    WeightedAveragesAreHours(Chart(rows, first, last));
  }

  // ---------------------------------------------------------------- rates

  /** The figures of the escrows still active: how many there are, and the dollars in them. */
  lemma {:induction false} ActiveIs(rows: seq<Row>, active: seq<Row>, start: int, end: int)
    requires start <= end
    ensures var r := Analyze(rows, active, start, end);
      && r.activeEscrows == |active|
      && (active == [] ==> r.totalValueLocked == 0.0)
      && (active != [] ==>
            r.totalValueLocked == Analyze(rows, active[..|active| - 1], start, end).totalValueLocked + DollarAmount(active[|active| - 1]))
  {}

  lemma {:induction false} PercentBetween(part: nat, whole: nat)
    requires part <= whole
    ensures 0.0 <= Percent(part, whole) <= 100.0
    ensures whole > 0 ==> (Percent(part, whole) == 100.0 <==> part == whole)
  {
    if whole > 0 {
      var q := part as real / whole as real;
      assert q * whole as real == part as real;
    }
  }

  /** Every rate of a report lies between 0 and 100 percent, and all is completed exactly at 100. */
  lemma {:induction false} RatesArePercentages(rows: seq<Row>, active: seq<Row>, start: int, end: int)
    requires start <= end && forall i :: 0 <= i < |rows| ==> start <= rows[i].createdAt <= end
    ensures var r := Analyze(rows, active, start, end);
      && 0.0 <= r.CompletionRate() <= 100.0
      && (rows != [] ==> (r.CompletionRate() == 100.0 <==> r.totalCompleted == |rows|))
      && RatesOk(r.chart)
  {
    var r := Analyze(rows, active, start, end);
    assert AllBounded(r.chart) && r.totalCompleted <= r.totalCreated == |rows| by { ReportAddsUp(rows, active, start, end); }
    PercentBetween(r.totalCompleted, r.totalCreated);
    ChartRates(r.chart);
  }

  predicate RatesOk(chart: seq<Figures>) {
    forall i :: 0 <= i < |chart| ==> 0.0 <= chart[i].DisputeRate() <= 100.0
  }

  lemma {:induction false} ChartRates(chart: seq<Figures>)
    requires AllBounded(chart)
    ensures RatesOk(chart)
  {
    forall i | 0 <= i < |chart| ensures 0.0 <= chart[i].DisputeRate() <= 100.0 {
      PercentBetween(chart[i].disputes, chart[i].created);
    }
  }
}
