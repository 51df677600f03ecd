/**
 * A JavaScript `Map` from an id to a record carrying that id, kept as the
 * sequence of its values in insertion order.
 */
module Keyed {
  import opened Prelude
  import Paging

  function Find<T>(xs: seq<T>, key: T -> string, k: string): Option<T> {
    if xs == [] then None
    else if key(xs[|xs| - 1]) == k then Some(xs[|xs| - 1])
    else Find(xs[..|xs| - 1], key, k)
  }

  /** `Map.set`: an existing key keeps its place, a new one goes last. */
  function Put<T>(xs: seq<T>, key: T -> string, x: T): seq<T> {
    if Find(xs, key, key(x)).None? then xs + [x] else Replace(xs, key, x)
  }

  function Replace<T>(xs: seq<T>, key: T -> string, x: T): seq<T> {
    if xs == [] then []
    else
      var n := |xs| - 1;
      if key(xs[n]) == key(x) then xs[..n] + [x] else Replace(xs[..n], key, x) + [xs[n]]
  }

  function IsNot<T>(key: T -> string, k: string): T -> bool {
    x => key(x) != k
  }

  function Delete<T>(xs: seq<T>, key: T -> string, k: string): seq<T> {
    Paging.Filter(xs, IsNot(key, k))
  }

  predicate Unique<T>(xs: seq<T>, key: T -> string) {
    forall i, j :: 0 <= i < j < |xs| ==> key(xs[i]) != key(xs[j])
  }

  lemma {:induction false} FindIs<T>(xs: seq<T>, key: T -> string, k: string)
    ensures Find(xs, key, k).Some? <==> exists i :: 0 <= i < |xs| && key(xs[i]) == k
    ensures Find(xs, key, k).Some? ==> Find(xs, key, k).value in xs && key(Find(xs, key, k).value) == k
    ensures Unique(xs, key) ==> forall i :: 0 <= i < |xs| && key(xs[i]) == k ==> Find(xs, key, k) == Some(xs[i])
  {
    if xs != [] {
      var n := |xs| - 1;
      FindIs(xs[..n], key, k);
      if i :| 0 <= i < n && key(xs[i]) == k { assert key(xs[..n][i]) == k; }
    }
  }

  /** A new record is added at the end and touches no other. */
  lemma {:induction false} PutNew<T>(xs: seq<T>, key: T -> string, x: T, k: string)
    requires Unique(xs, key) && Find(xs, key, key(x)).None?
    ensures Put(xs, key, x) == xs + [x] && Unique(Put(xs, key, x), key)
    ensures Find(Put(xs, key, x), key, k) == (if k == key(x) then Some(x) else Find(xs, key, k))
  {
    FindIs(xs, key, key(x));
    assert (xs + [x])[..|xs|] == xs;
  }

  /** Replacing keeps every other record and every place. */
  lemma {:induction false} ReplaceIs<T>(xs: seq<T>, key: T -> string, x: T)
    requires Unique(xs, key)
    ensures |Replace(xs, key, x)| == |xs| && Unique(Replace(xs, key, x), key)
    ensures forall i :: 0 <= i < |xs| ==> Replace(xs, key, x)[i] == (if key(xs[i]) == key(x) then x else xs[i])
  {
    if xs != [] {
      ReplaceIs(xs[..|xs| - 1], key, x);
    }
  }

  /** Setting a record changes what is found under its own key only. */
  lemma {:induction false} PutFind<T>(xs: seq<T>, key: T -> string, x: T, k: string)
    requires Unique(xs, key)
    ensures Unique(Put(xs, key, x), key)
    ensures Find(Put(xs, key, x), key, k) == (if k == key(x) then Some(x) else Find(xs, key, k))
  {
    if Find(xs, key, key(x)).None? {
      PutNew(xs, key, x, k);
    } else {
      ReplaceIs(xs, key, x);
      FindIs(xs, key, key(x));
      var i :| 0 <= i < |xs| && key(xs[i]) == key(x);
      var ys := Replace(xs, key, x);
      FindIs(xs, key, k);
      FindIs(ys, key, k);
      assert ys[i] == x;
      if j :| 0 <= j < |xs| && key(xs[j]) == k { assert key(ys[j]) == k; }
    }
  }

  lemma {:induction false} DeleteUnique<T>(xs: seq<T>, key: T -> string, gone: string)
    requires Unique(xs, key)
    ensures Unique(Delete(xs, key, gone), key)
  {
    if xs != [] {
      var n := |xs| - 1;
      DeleteUnique(xs[..n], key, gone);
      Paging.FilterMembers(xs[..n], IsNot(key, gone));
      var kept := Delete(xs[..n], key, gone);
      forall i | 0 <= i < |kept| ensures key(kept[i]) != key(xs[n]) {
        assert kept[i] in xs[..n];
      }
    }
  }

  lemma {:induction false} FindLast<T>(xs: seq<T>, x: T, key: T -> string, k: string)
    ensures Find(xs + [x], key, k) == if key(x) == k then Some(x) else Find(xs, key, k)
  {
    assert (xs + [x])[..|xs|] == xs;
  }

  /** Deleting a key takes away what is found under it, and nothing else. */
  lemma {:induction false} DeleteFind<T>(xs: seq<T>, key: T -> string, gone: string, k: string)
    requires Unique(xs, key)
    ensures Unique(Delete(xs, key, gone), key)
    ensures Find(Delete(xs, key, gone), key, k) == (if k == gone then None else Find(xs, key, k))
  {
    DeleteUnique(xs, key, gone);
    if xs != [] {
      var n := |xs| - 1;
      DeleteFind(xs[..n], key, gone, k);
      var kept := Delete(xs[..n], key, gone);
      if key(xs[n]) != gone {
        FindLast(kept, xs[n], key, k);
      } else {
        assert Delete(xs, key, gone) == kept;
      }
    }
  }
}
