/** Small datatypes shared by the models. */
module Prelude {

  datatype Option<+T> = None | Some(value: T)

  datatype Result<+T, +E> = Success(value: T) | Failure(error: E)

  /** A `status` property of something thrown: missing, of another type, or a number. */
  datatype HttpStatus = Missing | NotANumber | Code(value: int)

  /** The value stored under a key, as `Map.get` answers it. */
  function Lookup<K, V>(m: map<K, V>, k: K): Option<V> {
    if k in m then Some(m[k]) else None
  }

  lemma {:induction false} SameLookups<K(!new), V(!new)>(m: map<K, V>, m': map<K, V>)
    requires forall k :: Lookup(m, k) == Lookup(m', k)
    ensures m == m'
  {
    assert forall k :: k in m <==> Lookup(m, k).Some?;
    assert forall k :: k in m' <==> Lookup(m', k).Some?;
    assert forall k | k in m :: m[k] == Lookup(m, k).value == Lookup(m', k).value == m'[k];
  }

  /** Some element of a set, as iterating over it would give. */
  method AnyMember<T(==)>(s: set<T>) returns (x: T)
    requires s != {}
    ensures x in s
  {
    x :| x in s;
  }
}
