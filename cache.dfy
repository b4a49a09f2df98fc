/**
 * The bounded memo cache decorator: results of a deterministic function are
 * remembered per call key, in insertion order, and once the cache is full
 * the oldest entry is evicted first. A hit neither calls the function nor
 * moves the entry.
 */
module MemoCache {
  import opened Wrappers

  /** The error raised when the decorator is created. */
  datatype CacheError = ValueError(message: string)

  const NEGATIVE_SIZE := "max_size must be a non-negative integer"

  /**
   * A call key: the positional arguments and the set of keyword
   * (name, value) pairs, so keyword order plays no part.
   */
  datatype Key<A(==)> = Key(args: seq<A>, kwargs: set<(string, A)>)

  /** The key of a call with these positional and keyword arguments. */
  function KeyOf<A(==,!new)>(args: seq<A>, kwargs: seq<(string, A)>): (k: Key<A>)
    ensures k.args == args
    ensures forall p :: p in k.kwargs <==> p in kwargs
  {
    Key(args, set p | p in kwargs)
  }

  /** Two calls that pass the same keywords in another order have the same key. */
  lemma KeywordOrderIrrelevant<A(!new)>(args: seq<A>, kw1: seq<(string, A)>, kw2: seq<(string, A)>)
    requires multiset(kw1) == multiset(kw2)
    ensures KeyOf(args, kw1) == KeyOf(args, kw2)
  {
    forall p | p in kw1 ensures p in kw2 {
      assert p in multiset(kw1);
    }
    forall p | p in kw2 ensures p in kw1 {
      assert p in multiset(kw2);
    }
  }

  /** No key occurs twice. */
  predicate NoRepeats<K(==)>(s: seq<K>)
  {
    forall i, j :: 0 <= i < j < |s| ==> s[i] != s[j]
  }

  /**
   * The function wrapped by `cache(maxSize)`, with the ordered dictionary
   * it closes over: `order` lists the stored keys oldest first, `store`
   * maps each to its result. `calls` counts the calls of the function.
   */
  class Memo<A(==,!new), R> {
    const maxSize: nat
    const f: Key<A> -> R
    var order: seq<Key<A>>
    var store: map<Key<A>, R>
    ghost var calls: nat

    /**
     * At most `maxSize` entries, each key once and in `store` exactly when
     * listed in `order`, and every stored result is the function's value.
     */
    ghost predicate Valid()
      reads this
    {
      |order| <= maxSize && NoRepeats(order)
      && (forall k :: k in store <==> k in order)
      && (forall k :: k in store ==> store[k] == f(k))
    }

    /** An empty cache of the given capacity around `f`. */
    constructor (maxSize: nat, f: Key<A> -> R)
      ensures this.maxSize == maxSize && this.f == f
      ensures order == [] && store == map[] && calls == 0
      ensures Valid()
    {
      this.maxSize := maxSize;
      this.f := f;
      order := [];
      store := map[];
      calls := 0;
    }

    /**
     * One call of the wrapped function. A stored key answers from the store;
     * otherwise the function is called and, when the capacity is positive,
     * the result is appended, the oldest entry first evicted when full.
     */
    method Call(args: seq<A>, kwargs: seq<(string, A)>) returns (result: R)
      requires Valid()
      modifies this
      ensures Valid()
      ensures result == f(KeyOf(args, kwargs))
      ensures var k := KeyOf(args, kwargs);
        if k in old(store) then
          order == old(order) && store == old(store) && calls == old(calls)
        else
          calls == old(calls) + 1
          && (maxSize == 0 ==> order == old(order) && store == old(store))
          && (|old(order)| < maxSize ==>
                order == old(order) + [k] && store == old(store)[k := result])
          && (0 < maxSize <= |old(order)| ==>
                order == old(order)[1..] + [k] && store == (old(store) - {old(order)[0]})[k := result])
    {
      var key := KeyOf(args, kwargs);
      if key in store {
        return store[key];
      }
      result := f(key);
      calls := calls + 1;
      if maxSize > 0 {
        if |order| >= maxSize && maxSize > 0 {
          var oldest := order[0];
          order := order[1..];
          store := store - {oldest};
        }
        order := order + [key];
        store := store[key := result];
      }
    }
  }

  /** `cache(maxSize)` applied to `f`: a negative size raises ValueError. */
  method Cache<A(==,!new), R>(maxSize: int, f: Key<A> -> R) returns (r: Result<Memo<A, R>, CacheError>)
    ensures maxSize < 0 ==> r == Err(ValueError(NEGATIVE_SIZE))
    ensures maxSize >= 0 ==>
      r.Ok? && fresh(r.value) && r.value.Valid() && r.value.maxSize == maxSize && r.value.f == f
      && r.value.store == map[] && r.value.calls == 0
  {
    if maxSize < 0 {
      return Err(ValueError(NEGATIVE_SIZE));
    }
    var m := new Memo(maxSize, f);
    return Ok(m);
  }
}
