/**
 * Stable sorting, clamped limits and offsets, and following pages: shared by
 * the changelog list (apps/backend/src/services/changelog.service.ts) and the
 * dispute history (apps/backend/src/services/dispute.service.ts).
 */
module Paging {

  // ---------------------------------------------------------------- filter and stable sort

  function Filter<T>(xs: seq<T>, p: T -> bool): seq<T> {
    if xs == [] then []
    else Filter(xs[..|xs| - 1], p) + (if p(xs[|xs| - 1]) then [xs[|xs| - 1]] else [])
  }

  function Count<T>(xs: seq<T>, p: T -> bool): nat {
    if xs == [] then 0 else Count(xs[..|xs| - 1], p) + (if p(xs[|xs| - 1]) then 1 else 0)
  }

  /** Places `x` after every element whose key is not larger. */
  function Insert<T>(xs: seq<T>, x: T, key: T -> int): seq<T> {
    if xs == [] || key(xs[|xs| - 1]) <= key(x) then xs + [x]
    else Insert(xs[..|xs| - 1], x, key) + [xs[|xs| - 1]]
  }

  /** `Array.prototype.sort` by a key: ascending and stable. */
  function SortBy<T>(xs: seq<T>, key: T -> int): seq<T> {
    if xs == [] then [] else Insert(SortBy(xs[..|xs| - 1], key), xs[|xs| - 1], key)
  }

  predicate Sorted<T>(xs: seq<T>, key: T -> int) {
    forall i, j :: 0 <= i < j < |xs| ==> key(xs[i]) <= key(xs[j])
  }

  lemma {:induction false} FilterConcat<T>(xs: seq<T>, ys: seq<T>, p: T -> bool)
    ensures Filter(xs + ys, p) == Filter(xs, p) + Filter(ys, p)
  {
    if ys == [] {
      assert xs + ys == xs;
    } else {
      FilterConcat(xs, ys[..|ys| - 1], p);
      assert (xs + ys)[..|xs + ys| - 1] == xs + ys[..|ys| - 1];
    }
  }

  function HasKey<T>(key: T -> int, v: int): T -> bool {
    e => key(e) == v
  }

  lemma {:induction false} InsertSorted<T>(xs: seq<T>, x: T, key: T -> int)
    requires Sorted(xs, key)
    ensures Sorted(Insert(xs, x, key), key) && |Insert(xs, x, key)| == |xs| + 1
  {
    if xs != [] && key(xs[|xs| - 1]) > key(x) {
      var n := |xs| - 1;
      InsertSorted(xs[..n], x, key);
      InsertMembers(xs[..n], x, key);
      var ys := Insert(xs[..n], x, key);
      assert forall i :: 0 <= i < |ys| ==> ys[i] in ys;
      assert forall e :: e in ys ==> key(e) <= key(xs[n]);
    }
  }

  lemma {:induction false} FilterLast<T>(xs: seq<T>, x: T, p: T -> bool)
    ensures Filter(xs + [x], p) == if p(x) then Filter(xs, p) + [x] else Filter(xs, p)
  {
    assert (xs + [x])[..|xs|] == xs;
  }

  lemma {:induction false} InsertStable<T>(xs: seq<T>, x: T, key: T -> int, v: int)
    ensures Filter(Insert(xs, x, key), HasKey(key, v)) == Filter(xs, HasKey(key, v)) + Filter([x], HasKey(key, v))
  {
    var p := HasKey(key, v);
    if xs == [] || key(xs[|xs| - 1]) <= key(x) {
      FilterConcat(xs, [x], p);
    } else {
      var n := |xs| - 1;
      InsertStable(xs[..n], x, key, v);
      FilterLast(Insert(xs[..n], x, key), xs[n], p);
      assert Filter([x], p) == [] || !p(xs[n]);
    }
  }

  /**
   * The sort is ascending and keeps, for every key, the elements with that
   * key in their original order: nothing is lost, added or reordered.
   */
  lemma {:induction false} SortIsStable<T>(xs: seq<T>, key: T -> int, v: int)
    ensures Sorted(SortBy(xs, key), key) && |SortBy(xs, key)| == |xs|
    ensures Filter(SortBy(xs, key), HasKey(key, v)) == Filter(xs, HasKey(key, v))
  {
    if xs != [] {
      var n := |xs| - 1;
      SortIsStable(xs[..n], key, v);
      InsertSorted(SortBy(xs[..n], key), xs[n], key);
      InsertStable(SortBy(xs[..n], key), xs[n], key, v);
    }
  }

  lemma {:induction false} SortedStays<T>(xs: seq<T>, key: T -> int)
    requires Sorted(xs, key)
    ensures SortBy(xs, key) == xs
  {
    if xs != [] {
      SortedStays(xs[..|xs| - 1], key);
    }
  }

  lemma {:induction false} FilterMembers<T>(xs: seq<T>, p: T -> bool)
    ensures forall i :: 0 <= i < |Filter(xs, p)| ==> Filter(xs, p)[i] in xs && p(Filter(xs, p)[i])
  {
    if xs != [] {
      FilterMembers(xs[..|xs| - 1], p);
    }
  }

  lemma {:induction false} FilterCount<T>(xs: seq<T>, p: T -> bool)
    ensures |Filter(xs, p)| == Count(xs, p)
  {
    if xs != [] { FilterCount(xs[..|xs| - 1], p); }
  }

  lemma {:induction false} SortMembers<T>(xs: seq<T>, key: T -> int)
    ensures forall e :: e in SortBy(xs, key) ==> e in xs
  {
    if xs != [] {
      var n := |xs| - 1;
      SortMembers(xs[..n], key);
      InsertMembers(SortBy(xs[..n], key), xs[n], key);
    }
  }

  lemma {:induction false} InsertMembers<T>(xs: seq<T>, x: T, key: T -> int)
    ensures forall e :: e in Insert(xs, x, key) ==> e in xs || e == x
  {
    if xs != [] && key(xs[|xs| - 1]) > key(x) { InsertMembers(xs[..|xs| - 1], x, key); }
  }

  lemma {:induction false} FilterSorted<T>(xs: seq<T>, key: T -> int, p: T -> bool)
    requires Sorted(xs, key)
    ensures Sorted(Filter(xs, p), key)
  {
    if xs != [] {
      FilterSorted(xs[..|xs| - 1], key, p);
      FilterMembers(xs[..|xs| - 1], p);
    }
  }

  // ---------------------------------------------------------------- pages

  /** A caller-supplied number. */
  datatype Num = Undefined | NotFinite | Finite(value: real)

  function ClampLimit(requested: Num, standard: int, cap: int): int {
    if !requested.Finite? || requested.value.Floor < 1 then standard
    else if requested.value.Floor < cap then requested.value.Floor
    else cap
  }

  function ClampOffset(requested: Num): nat {
    if !requested.Finite? || requested.value.Floor < 0 then 0 else requested.value.Floor
  }

  /** `n` is the number asked for, rounded down. */
  predicate IsFloorOf(n: int, requested: Num) {
    requested.Finite? && n as real <= requested.value < n as real + 1.0
  }

  /** A limit that is a positive number is kept, up to the cap; anything else is the standard one. */
  lemma {:induction false} LimitIs(requested: Num, standard: int, cap: int, n: int)
    requires 1 <= standard <= cap
    ensures IsFloorOf(n, requested) && 1 <= n <= cap ==> ClampLimit(requested, standard, cap) == n
    ensures IsFloorOf(n, requested) && n > cap ==> ClampLimit(requested, standard, cap) == cap
    ensures IsFloorOf(n, requested) && n < 1 ==> ClampLimit(requested, standard, cap) == standard
    ensures !requested.Finite? ==> ClampLimit(requested, standard, cap) == standard
  {}

  /** An offset that is a number not below 0 is kept; anything else is 0. */
  lemma {:induction false} OffsetIs(requested: Num, n: int)
    ensures IsFloorOf(n, requested) ==> ClampOffset(requested) == if n < 0 then 0 else n
    ensures !requested.Finite? ==> ClampOffset(requested) == 0
  {}

  datatype Page<T> = Page(entries: seq<T>, total: nat, limit: int, offset: nat, hasMore: bool)

  /** `slice(offset, offset + limit)` and the figures around it. */
  function PageOf<T>(all: seq<T>, limit: nat, offset: nat): Page<T> {
    var from := if offset < |all| then offset else |all|;
    var upto := if offset + limit < |all| then offset + limit else |all|;
    var entries := if from <= upto then all[from..upto] else [];
    Page(entries, |all|, limit, offset, offset + |entries| < |all|)
  }

  /** The pages seen by a client that asks for the next one while `hasMore`. */
  function FollowPages<T>(all: seq<T>, limit: nat, offset: nat): seq<Page<T>>
    requires limit >= 1
    decreases |all| - offset
  {
    var page := PageOf(all, limit, offset);
    [page] + if page.hasMore then FollowPages(all, limit, offset + |page.entries|) else []
  }

  function Concat<T>(pages: seq<Page<T>>): seq<T> {
    if pages == [] then [] else pages[0].entries + Concat(pages[1..])
  }

  /** The pages from an offset on show the rest of the list. */
  lemma {:induction false} PagesConcat<T>(all: seq<T>, limit: nat, offset: nat)
    requires limit >= 1 && offset <= |all|
    ensures Concat(FollowPages(all, limit, offset)) == all[offset..]
    decreases |all| - offset
  {
    var page := PageOf(all, limit, offset);
    if page.hasMore {
      PagesConcat(all, limit, offset + limit);
      CoverMore(all, limit, offset, page, FollowPages(all, limit, offset + limit));
    } else {
      ConcatFirst(page, []);
      assert page.entries == all[offset..];
    }
  }

  lemma {:induction false} ConcatFirst<T>(page: Page<T>, rest: seq<Page<T>>)
    ensures Concat([page] + rest) == page.entries + Concat(rest)
  {
    assert ([page] + rest)[1..] == rest;
  }

  lemma {:induction false} PagesFit<T>(all: seq<T>, limit: nat, offset: nat)
    requires limit >= 1
    ensures |FollowPages(all, limit, offset)| >= 1
    ensures forall page :: page in FollowPages(all, limit, offset) ==> |page.entries| <= limit
  {
    forall page | page in FollowPages(all, limit, offset) ensures |page.entries| <= limit {
      PagesAreThere(all, limit, offset, page);
      PageSize(all, limit, page.offset);
    }
  }

  /** The pages show the rest of the list, none more than `limit` entries of it. */
  lemma {:induction false} PagesCover<T>(all: seq<T>, limit: nat, offset: nat)
    requires limit >= 1 && offset <= |all|
    ensures var pages := FollowPages(all, limit, offset);
      Concat(pages) == all[offset..] && |pages| >= 1 && forall i :: 0 <= i < |pages| ==> |pages[i].entries| <= limit
  {
    PagesConcat(all, limit, offset);
    PagesFit(all, limit, offset);
  }

  /** `n` times `limit`, added up. */
  function Repeated(limit: nat, n: nat): nat {
    if n == 0 then 0 else limit + Repeated(limit, n - 1)
  }

  lemma {:induction false} RepeatedIs(limit: nat, n: nat)
    ensures Repeated(limit, n) == n * limit
  {
    if n > 0 { RepeatedIs(limit, n - 1); }
  }

  /** There are as many pages as the rest of the list needs, and no more. */
  lemma {:induction false} PageCount<T>(all: seq<T>, limit: nat, offset: nat)
    requires limit >= 1 && offset <= |all|
    ensures var n := |FollowPages(all, limit, offset)|;
      n >= 1 && |all| - offset <= Repeated(limit, n) && (offset < |all| ==> Repeated(limit, n - 1) < |all| - offset)
    decreases |all| - offset
  {
    var page := PageOf(all, limit, offset);
    PageSize(all, limit, offset);
    if page.hasMore {
      PageCount(all, limit, offset + limit);
      assert |FollowPages(all, limit, offset)| == 1 + |FollowPages(all, limit, offset + limit)|;
    } else {
      assert Repeated(limit, 0) == 0 && Repeated(limit, 1) == limit;
    }
  }

  /** One page in front of pages that cover the rest. */
  lemma {:induction false} CoverMore<T>(all: seq<T>, limit: nat, offset: nat, page: Page<T>, rest: seq<Page<T>>)
    requires offset + limit <= |all| && page.entries == all[offset..offset + limit] && Concat(rest) == all[offset + limit..]
    ensures Concat([page] + rest) == all[offset..]
  {
    ConcatFirst(page, rest);
    assert all[offset..] == all[offset..offset + limit] + all[offset + limit..];
  }

  predicate AllThere<T(==)>(pages: seq<Page<T>>, all: seq<T>, limit: nat) {
    pages == [] || (pages[0] == PageOf(all, limit, pages[0].offset) && AllThere(pages[1..], all, limit))
  }

  lemma {:induction false} FollowedAreThere<T>(all: seq<T>, limit: nat, offset: nat)
    requires limit >= 1
    ensures AllThere(FollowPages(all, limit, offset), all, limit)
    decreases |all| - offset
  {
    var page := PageOf(all, limit, offset);
    if page.hasMore {
      FollowedAreThere(all, limit, offset + |page.entries|);
      ThereMore(all, limit, offset, FollowPages(all, limit, offset + |page.entries|));
    } else {
      ThereMore(all, limit, offset, []);
    }
  }

  lemma {:induction false} ThereMore<T>(all: seq<T>, limit: nat, offset: nat, rest: seq<Page<T>>)
    requires AllThere(rest, all, limit)
    ensures AllThere([PageOf(all, limit, offset)] + rest, all, limit)
  {
    assert ([PageOf(all, limit, offset)] + rest)[1..] == rest;
  }

  lemma {:induction false} MemberThere<T>(pages: seq<Page<T>>, all: seq<T>, limit: nat, page: Page<T>)
    requires AllThere(pages, all, limit) && page in pages
    ensures page == PageOf(all, limit, page.offset)
  {
    if page != pages[0] { MemberThere(pages[1..], all, limit, page); }
  }

  /** Every page followed is the one at its own offset. */
  lemma {:induction false} PagesAreThere<T>(all: seq<T>, limit: nat, offset: nat, page: Page<T>)
    requires limit >= 1 && page in FollowPages(all, limit, offset)
    ensures page == PageOf(all, limit, page.offset)
  {
    FollowedAreThere(all, limit, offset);
    MemberThere(FollowPages(all, limit, offset), all, limit, page);
  }

  /** A page holds `limit` entries unless the list ends first, and says so exactly. */
  lemma {:induction false} PageSize<T>(all: seq<T>, limit: nat, offset: nat)
    ensures var page := PageOf(all, limit, offset); var left := |all| - offset;
      && page.total == |all|
      && |page.entries| == (if left <= 0 then 0 else if left <= limit then left else limit)
      && (page.hasMore <==> left > limit)
      && forall i :: 0 <= i < |page.entries| ==> page.entries[i] == all[offset + i]
  {}

  /**
   * Whatever limit is asked for, following the pages from offset 0 ends and
   * shows the whole list in order, without a gap or a repeat, in the least
   * number of pages of that size.
   */
  lemma {:induction false} FollowingPagesShowsAll<T>(all: seq<T>, requested: Num, standard: int, cap: int)
    requires 1 <= standard <= cap
    ensures var limit := ClampLimit(requested, standard, cap);
      && 1 <= limit <= cap
      && Concat(FollowPages(all, limit, 0)) == all
      && var n := |FollowPages(all, limit, 0)|;
         n >= 1 && |all| <= n * limit && (all != [] ==> (n - 1) * limit < |all|)
  {
    var limit := ClampLimit(requested, standard, cap);
    var n := |FollowPages(all, limit, 0)|;
    PagesCover(all, limit, 0);
    PageCount(all, limit, 0);
    RepeatedIs(limit, n);
    RepeatedIs(limit, n - 1);
  }
}
