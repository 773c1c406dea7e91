/** rache/ristretto_cache.go: a memoizer over a ristretto cache. Ristretto
    itself is a map from key to what it holds, and its admission decision is
    an input: SetWithTTL may refuse an item, and then says so. Keys here are
    the unhashed parameter strings. */
module Rache {
  import opened GoModel
  import opened Memo
  import Keys

  /** What ristretto holds for a key: the value, and the cost and ttl it was
      given by SetWithTTL. */
  datatype Stored<T> = Stored(value: Any<T>, cost: int, ttl: Duration)

  type Contents<T> = map<GoString, Stored<T>>

  /** Get(key): ristretto's answer, (nil, false) when it holds nothing. */
  function Lookup<T>(c: Contents<T>, key: GoString): (Any<T>, bool) {
    if key in c then (c[key].value, true) else (Nil, false)
  }

  /** Set(key, value, ttl): SetWithTTL with cost 0; kept only if admitted. */
  function AfterSet<T>(c: Contents<T>, key: GoString, value: Any<T>, ttl: Duration, admit: bool)
    : Contents<T>
  {
    if admit then c[key := Stored(value, 0, ttl)] else c
  }

  /** What FuncCache returns and what ristretto then holds. */
  function FuncCacheSpec<P, T, E>(c: Contents<T>, fn: Callable<P, T, E>, ttl: Duration, params: seq<P>,
                                  text: P -> GoString, admit: bool): (Outcome<T, E>, Contents<T>)
  {
    if !fn.Func? then (Decide(fn, params, false, Nil), c)
    else
      var key := Keys.ParameterString(fn.name, params, text);
      var lookup := Lookup(c, key);
      var o := Decide(fn, params, lookup.1, lookup.0);
      (o, if o.stored.Some? then AfterSet(c, key, o.stored.value, ttl, admit) else c)
  }

  /** toString: the runtime name of fn, then the unhashed createParameterHash. */
  method ToString<P, T, E>(fn: Callable<P, T, E>, params: seq<P>, text: P -> GoString)
    returns (key: GoString)
    requires fn.Func?
    ensures key == Keys.ParameterString(fn.name, params, text)
    ensures |params| == 0 ==> key == fn.name
  {
    key := Keys.BuildParameterString(fn.name, params, text);
  }

  class Rache<T> {
    var cache: Contents<T>

    constructor New()
      ensures cache == map[]
    {
      cache := map[];
    }

    /** `admit` is ristretto's decision; the result reports it. */
    method Set(key: GoString, value: Any<T>, ttl: Duration, admit: bool) returns (ok: bool)
      modifies this
      ensures ok == admit
      ensures cache == AfterSet(old(cache), key, value, ttl, admit)
    {
      if admit {
        cache := cache[key := Stored(value, 0, ttl)];
      }
      ok := admit;
    }

    method Get(key: GoString) returns (value: Any<T>, ok: bool)
      ensures (value, ok) == Lookup(cache, key)
    {
      if key in cache {
        return cache[key].value, true;
      }
      return Nil, false;
    }

    method Delete(key: GoString)
      modifies this
      ensures cache == old(cache) - {key}
    {
      cache := cache - {key};
    }

    /** `admit` is what ristretto decides if FuncCache offers it a value;
        FuncCache ignores the answer. */
    method FuncCache<P, E>(fn: Callable<P, T, E>, ttl: Duration, params: seq<P>,
                           text: P -> GoString, admit: bool)
      returns (err: Option<MemoError<E>>, written: Option<Any<T>>, invoked: bool)
      modifies this
      ensures var (o, c) := FuncCacheSpec(old(cache), fn, ttl, params, text, admit);
              err == o.err && written == o.written && invoked == o.invoked && cache == c
    {
      if fn.NilFunc? {
        return None, None, false;
      }
      if fn.NotFunc? {
        return Some(Message(FnMustBeFunction)), None, false;
      }
      var key := ToString(fn, params, text);
      var v, ok := Get(key);
      if ok {
        return None, ReflectValue(v), false;
      }
      var res := fn.call(params);
      match res
      case Panicked =>
        return None, None, true;
      case Returned(value, Some(e)) =>
        return Some(Upstream(e)), None, true;
      case Returned(value, None) =>
        var _ := Set(key, value, ttl, admit);
        return None, ReflectResult(fn.anyResult, value), true;
    }
  }

  /** A function value that is not a function is rejected before ristretto
      is consulted or changed. */
  lemma NotAFunctionTouchesNothing<P, T, E>(c: Contents<T>, fn: Callable<P, T, E>, ttl: Duration,
                                            params: seq<P>, text: P -> GoString, admit: bool)
    requires fn.NotFunc?
    ensures FuncCacheSpec(c, fn, ttl, params, text, admit)
            == (Outcome(Some(Message(FnMustBeFunction)), false, None, None), c)
  {
  }

  /** A successful miss offers the value to ristretto with cost 0 and the
      caller's ttl under the unhashed key, and writes it through result
      whether or not ristretto admits it. */
  lemma SuccessfulMiss<P, T, E>(c: Contents<T>, fn: Callable<P, T, E>, ttl: Duration,
                                params: seq<P>, text: P -> GoString, admit: bool)
    requires fn.Func? && fn.call(params).Returned? && fn.call(params).err.None?
    requires !Lookup(c, Keys.ParameterString(fn.name, params, text)).1
    ensures var (o, c1) := FuncCacheSpec(c, fn, ttl, params, text, admit);
            var key := Keys.ParameterString(fn.name, params, text);
            && o.err.None? && o.invoked
            && (fn.anyResult ==> o.written == Some(fn.call(params).value))
            && (!fn.anyResult ==> o.written == ReflectValue(fn.call(params).value))
            && (admit ==> c1 == c[key := Stored(fn.call(params).value, 0, ttl)])
            && (!admit ==> c1 == c)
  {
  }

  /** A miss whose call fails returns fn's error and offers nothing. */
  lemma FailedMissStoresNothing<P, T, E>(c: Contents<T>, fn: Callable<P, T, E>, ttl: Duration,
                                         params: seq<P>, text: P -> GoString, admit: bool, e: E)
    requires fn.Func? && fn.call(params).Returned? && fn.call(params).err == Some(e)
    requires !Lookup(c, Keys.ParameterString(fn.name, params, text)).1
    ensures FuncCacheSpec(c, fn, ttl, params, text, admit) == (Outcome(Some(Upstream(e)), true, None, None), c)
  {
  }

  /** Memoization, as far as ristretto allows: once a successful miss was
      admitted, the same call is a hit that does not call fn. It writes fn's
      value reflected on its own kind, which is what the miss wrote unless
      fn's first result is declared `any`. */
  lemma FuncCacheTwiceHits<P, T, E>(c: Contents<T>, fn: Callable<P, T, E>, ttl: Duration,
                                    params: seq<P>, text: P -> GoString, admit2: bool)
    requires fn.Func? && fn.call(params).Returned? && fn.call(params).err.None?
    requires !Lookup(c, Keys.ParameterString(fn.name, params, text)).1
    ensures var (o1, c1) := FuncCacheSpec(c, fn, ttl, params, text, true);
            var (o2, c2) := FuncCacheSpec(c1, fn, ttl, params, text, admit2);
            !o2.invoked && o2.err.None? && o2.written == ReflectValue(fn.call(params).value)
            && (!fn.anyResult ==> o2.written == o1.written) && c2 == c1
  {
  }
}
