/** cache.go: the string-keyed store Cache, whose items carry an absolute
    expiration time, its sweep Kills, and the memoizer Check. */
module LegacyCache {
  import opened GoModel
  import opened Memo
  import Keys

  /** The bytes of the literal "key" that Get deletes on an expired hit. */
  const KeyLiteral: GoString := Ascii("key")

  datatype Item<T> = Item(expirationTime: Time, value: Any<T>)

  type Data<T> = map<GoString, Item<T>>

  /** What Get returns at instant now: the value only strictly before its
      expiration time, otherwise (nil, false). */
  function Lookup<T>(data: Data<T>, now: Time, key: GoString): (Any<T>, bool) {
    if key in data && now < data[key].expirationTime then (data[key].value, true)
    else (Nil, false)
  }

  /** The data after Get: an expired hit deletes the literal "key", not `key`. */
  function AfterGet<T>(data: Data<T>, now: Time, key: GoString): Data<T> {
    if key in data && !(now < data[key].expirationTime) then data - {KeyLiteral} else data
  }

  /** The data after Kills at instant now: the items whose expiration time is
      strictly before now are gone. */
  function AfterKills<T>(data: Data<T>, now: Time): Data<T> {
    map k | k in data && !(data[k].expirationTime < now) :: data[k]
  }

  /** What Check returns and the data it leaves. `now` is the instant of its
      Get, `later` the instant of its Set, after fn has run. */
  function CheckSpec<P, T, E>(data: Data<T>, now: Time, later: Time, validFor: Duration,
                              fn: Callable<P, T, E>, params: seq<P>, text: P -> GoString,
                              sha256: GoString -> Keys.Digest): (Outcome<T, E>, Data<T>)
  {
    if !fn.Func? then (Decide(fn, params, false, Nil), data)
    else
      var key := Keys.MemoKey(fn.name, params, text, sha256);
      var lookup := Lookup(data, now, key);
      var o := Decide(fn, params, lookup.1, lookup.0);
      var afterGet := AfterGet(data, now, key);
      (o, if o.stored.Some? then afterGet[key := Item(later + validFor, o.stored.value)] else afterGet)
  }

  class Cache<T> {
    var data: Data<T>

    constructor NewCache()
      ensures data == map[]
    {
      data := map[];
    }

    /** Set at instant `now`: the item's expiration time is now + validFor. */
    method Set(now: Time, validFor: Duration, key: GoString, value: Any<T>)
      modifies this
      ensures data == old(data)[key := Item(now + validFor, value)]
    {
      data := data[key := Item(now + validFor, value)];
    }

    method Get(now: Time, key: GoString) returns (value: Any<T>, ok: bool)
      modifies this
      ensures (value, ok) == Lookup(old(data), now, key)
      ensures data == AfterGet(old(data), now, key)
    {
      if key in data {
        var item := data[key];
        if now < item.expirationTime {
          return item.value, true;
        } else {
          Delete(KeyLiteral);
        }
      }
      return Nil, false;
    }

    method Delete(key: GoString)
      modifies this
      ensures data == old(data) - {key}
    {
      data := data - {key};
    }

    /** Ranges over the items in no particular order and deletes each one
        whose expiration time is before now. */
    method Kills(now: Time)
      modifies this
      ensures data == AfterKills(old(data), now)
    {
      var pending := data.Keys;
      while pending != {}
        invariant pending <= data.Keys <= old(data).Keys
        invariant forall k | k in data :: data[k] == old(data)[k]
        invariant forall k | k in old(data) && k !in pending ::
                    k in data <==> !(old(data)[k].expirationTime < now)
        invariant forall k | k in pending :: k in data
        decreases pending
      {
        var k :| k in pending;
        if data[k].expirationTime < now {
          Delete(k);
        }
        pending := pending - {k};
      }
    }

    method Check<P, E>(now: Time, later: Time, validFor: Duration, fn: Callable<P, T, E>,
                       params: seq<P>, text: P -> GoString, sha256: GoString -> Keys.Digest)
      returns (err: Option<MemoError<E>>, written: Option<Any<T>>, invoked: bool)
      modifies this
      ensures var (o, d) := CheckSpec(old(data), now, later, validFor, fn, params, text, sha256);
              err == o.err && written == o.written && invoked == o.invoked && data == d
    {
      if fn.NilFunc? {
        return None, None, false;
      }
      if fn.NotFunc? {
        return Some(Message(FnMustBeFunction)), None, false;
      }
      var hash := Keys.CreateHash(fn, params, text, sha256);
      var value, ok := Get(now, hash);
      if ok {
        return None, ReflectValue(value), false;
      }
      var res := fn.call(params);
      match res
      case Panicked =>
        return None, None, true;
      case Returned(v, Some(e)) =>
        return Some(Upstream(e)), None, true;
      case Returned(v, None) =>
        Set(later, validFor, hash, v);
        return None, ReflectResult(fn.anyResult, v), true;
    }
  }

  /** Set then Get: the value is found exactly while now is before
      setTime + validFor. */
  lemma SetThenGet<T>(data: Data<T>, setTime: Time, validFor: Duration, key: GoString,
                      value: Any<T>, now: Time)
    ensures Lookup(data[key := Item(setTime + validFor, value)], now, key)
            == if now < setTime + validFor then (value, true) else (Nil, false)
  {
  }

  /** Get never reports found for an item whose expiration time has been
      reached, and a found value is the stored one. */
  lemma GetFoundIffBeforeDeadline<T>(data: Data<T>, now: Time, key: GoString)
    ensures Lookup(data, now, key).1 <==> key in data && now < data[key].expirationTime
    ensures Lookup(data, now, key).1 ==> Lookup(data, now, key).0 == data[key].value
    ensures !Lookup(data, now, key).1 ==> Lookup(data, now, key).0 == Nil
  {
  }

  /** An expired lookup deletes "key" and leaves the expired item itself in
      place (unless the key is "key"); an unexpired or missing one changes
      nothing. */
  lemma ExpiredGetKeepsItem<T>(data: Data<T>, now: Time, key: GoString)
    requires key in data && data[key].expirationTime <= now && key != KeyLiteral
    ensures key in AfterGet(data, now, key) && AfterGet(data, now, key)[key] == data[key]
    ensures KeyLiteral !in AfterGet(data, now, key)
  {
  }

  /** Kills keeps exactly the items whose expiration time is not before now,
      unchanged. */
  lemma KillsRemovesExactlyExpired<T>(data: Data<T>, now: Time, key: GoString)
    ensures key in AfterKills(data, now) <==> key in data && now <= data[key].expirationTime
    ensures key in AfterKills(data, now) ==> AfterKills(data, now)[key] == data[key]
  {
  }

  /** A second Kills at the same instant removes nothing. */
  lemma KillsIdempotent<T>(data: Data<T>, now: Time)
    ensures AfterKills(AfterKills(data, now), now) == AfterKills(data, now)
  {
  }

  /** An item whose expiration time is exactly now survives Kills, although
      Get already treats it as expired. */
  lemma KillsKeepsBoundaryItem<T>(data: Data<T>, now: Time, key: GoString)
    requires key in data && data[key].expirationTime == now
    ensures key in AfterKills(data, now)
    ensures !Lookup(AfterKills(data, now), now, key).1
  {
  }

  /** Memoization: after a call that missed and got a value from fn, a
      second call with the same fn and parameters inside the validity window
      is served from the cache, does not call fn and changes nothing. It
      writes fn's value reflected on its own kind, which is what the miss
      wrote unless fn's first result is declared `any`. */
  lemma CheckTwiceHits<P, T, E>(data: Data<T>, now: Time, later: Time, validFor: Duration,
                                fn: Callable<P, T, E>, params: seq<P>, text: P -> GoString,
                                sha256: GoString -> Keys.Digest, now2: Time, later2: Time)
    requires fn.Func? && fn.call(params).Returned? && fn.call(params).err.None?
    requires !Lookup(data, now, Keys.MemoKey(fn.name, params, text, sha256)).1
    requires now2 < later + validFor
    ensures var (o1, d1) := CheckSpec(data, now, later, validFor, fn, params, text, sha256);
            var (o2, d2) := CheckSpec(d1, now2, later2, validFor, fn, params, text, sha256);
            o1.invoked && !o2.invoked && o2.err.None? && o2.written == ReflectValue(fn.call(params).value)
            && (!fn.anyResult ==> o2.written == o1.written) && d2 == d1
  {
    var key := Keys.MemoKey(fn.name, params, text, sha256);
    var (o1, d1) := CheckSpec(data, now, later, validFor, fn, params, text, sha256);
    assert d1[key] == Item(later + validFor, fn.call(params).value);
    assert Lookup(d1, now2, key) == (fn.call(params).value, true);
  }

  /** A hit changes nothing in the cache. */
  lemma CheckHitChangesNothing<P, T, E>(data: Data<T>, now: Time, later: Time, validFor: Duration,
                                        fn: Callable<P, T, E>, params: seq<P>, text: P -> GoString,
                                        sha256: GoString -> Keys.Digest)
    requires fn.Func? && Lookup(data, now, Keys.MemoKey(fn.name, params, text, sha256)).1
    ensures var (o, d) := CheckSpec(data, now, later, validFor, fn, params, text, sha256);
            !o.invoked && o.err.None? && d == data
            && o.written == ReflectValue(data[Keys.MemoKey(fn.name, params, text, sha256)].value)
  {
  }

  /** An error from fn on a miss is returned and nothing is cached under the
      call's key. */
  lemma CheckErrorCachesNothing<P, T, E>(data: Data<T>, now: Time, later: Time, validFor: Duration,
                                         fn: Callable<P, T, E>, params: seq<P>, text: P -> GoString,
                                         sha256: GoString -> Keys.Digest, e: E)
    requires fn.Func? && fn.call(params).Returned? && fn.call(params).err == Some(e)
    requires !Lookup(data, now, Keys.MemoKey(fn.name, params, text, sha256)).1
    ensures var (o, d) := CheckSpec(data, now, later, validFor, fn, params, text, sha256);
            o.err == Some(Upstream(e)) && o.written.None?
            && d == AfterGet(data, now, Keys.MemoKey(fn.name, params, text, sha256))
  {
  }
}
