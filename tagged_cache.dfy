/** newcache.go: Cachete, a store keyed by the int64 FNV-1a hash of the key,
    whose items carry an Expirator, with a tag index from tag to the list of
    hashes set under it; and the memoizer ExecuteAndCache. Two keys with the
    same hash share one slot. */
module TaggedCache {
  import opened GoModel
  import opened Expire
  import opened Memo
  import Fnv
  import Keys

  /** The unexported `item`. */
  datatype Item<T> = Item(expiration: Expirator, value: Any<T>)

  type Data<T> = map<int64, Item<T>>
  type TagIndex = map<GoString, seq<int64>>

  /** The two maps of a Cachete. */
  datatype Store<T> = Store(data: Data<T>, tag: TagIndex)

  function Hash(key: GoString): int64 {
    Fnv.StringToInt64Hash(key)
  }

  /** The list under tag t, empty when t is not indexed. */
  function ListOf(index: TagIndex, t: GoString): seq<int64> {
    if t in index then index[t] else []
  }

  /** addTag: append h to t's list, creating the list if needed; no check
      for a hash already listed. */
  function AppendHash(index: TagIndex, t: GoString, h: int64): (r: TagIndex)
    ensures r.Keys == index.Keys + {t}
    ensures r[t] == ListOf(index, t) + [h] && |r[t]| == |ListOf(index, t)| + 1
    ensures forall u | u in index && u != t :: r[u] == index[u]
  {
    if t !in index then index[t := [h]] else index[t := index[t] + [h]]
  }

  /** Set's tag registration: addTag for each tag of the list, in order. */
  function RegisterTags(index: TagIndex, tags: seq<GoString>, h: int64): TagIndex
    decreases |tags|
  {
    if tags == [] then index
    else AppendHash(RegisterTags(index, tags[..|tags| - 1], h), tags[|tags| - 1], h)
  }

  /** n copies of h. */
  function Repeat(h: int64, n: nat): (r: seq<int64>)
    ensures |r| == n && forall i | 0 <= i < n :: r[i] == h
  {
    if n == 0 then [] else Repeat(h, n - 1) + [h]
  }

  /** The effect of registering a list of tags: a tag is indexed afterwards
      iff it was before or is in the list, and its list has gained one copy
      of h at its end per occurrence of the tag in the list. */
  lemma RegisterTagsEffect(index: TagIndex, tags: seq<GoString>, h: int64, t: GoString)
    ensures t in RegisterTags(index, tags, h) <==> t in index || t in tags
    ensures ListOf(RegisterTags(index, tags, h), t) == ListOf(index, t) + Repeat(h, multiset(tags)[t])
  {
    RegisterTagsKeys(index, tags, h, t);
    RegisterTagsList(index, tags, h, t);
  }

  lemma {:induction false} RegisterTagsKeys(index: TagIndex, tags: seq<GoString>, h: int64, t: GoString)
    ensures t in RegisterTags(index, tags, h) <==> t in index || t in tags
    decreases |tags|
  {
    if tags != [] {
      var init, last := tags[..|tags| - 1], tags[|tags| - 1];
      assert tags == init + [last];
      RegisterTagsKeys(index, init, h, t);
      assert t in tags <==> t in init || t == last;
    }
  }

  lemma {:induction false} RegisterTagsList(index: TagIndex, tags: seq<GoString>, h: int64, t: GoString)
    ensures ListOf(RegisterTags(index, tags, h), t) == ListOf(index, t) + Repeat(h, multiset(tags)[t])
    decreases |tags|
  {
    if tags == [] {
      assert ListOf(index, t) + Repeat(h, 0) == ListOf(index, t);
    } else {
      var init, last := tags[..|tags| - 1], tags[|tags| - 1];
      assert tags == init + [last];
      assert multiset(tags)[t] == multiset(init)[t] + (if t == last then 1 else 0);
      RegisterTagsList(index, init, h, t);
      ListOfAppendHash(RegisterTags(index, init, h), last, h, t);
      if t == last {
        RepeatSnoc(ListOf(index, t), h, multiset(init)[t]);
      }
    }
  }

  /** addTag changes the list of its own tag only, by one entry at the end. */
  lemma ListOfAppendHash(index: TagIndex, u: GoString, h: int64, t: GoString)
    ensures ListOf(AppendHash(index, u, h), t) == if t == u then ListOf(index, t) + [h] else ListOf(index, t)
  {
  }

  lemma RepeatSnoc(prefix: seq<int64>, h: int64, n: nat)
    ensures prefix + Repeat(h, n) + [h] == prefix + Repeat(h, n + 1)
  {
    assert Repeat(h, n + 1) == Repeat(h, n) + [h];
  }

  /** The state after Set(e, key, value). */
  function AfterSet<T>(s: Store<T>, e: Expirator, key: GoString, value: Any<T>): Store<T> {
    var h := Hash(key);
    Store(s.data[h := Item(e, value)], RegisterTags(s.tag, e.TagList(), h))
  }

  /** Get(key): the item's value and presence; its expiration is not looked at. */
  function Lookup<T>(s: Store<T>, key: GoString): (Any<T>, bool) {
    var h := Hash(key);
    if h in s.data then (s.data[h].value, true) else (Nil, false)
  }

  /** The state after Delete(key): the data entry goes; the tag index stays. */
  function AfterDelete<T>(s: Store<T>, key: GoString): Store<T> {
    Store(s.data - {Hash(key)}, s.tag)
  }

  function Elements(hs: seq<int64>): set<int64> {
    set h | h in hs
  }

  /** The state after DeleteWithTag(t). */
  function AfterDeleteWithTag<T>(s: Store<T>, t: GoString): Store<T> {
    if t !in s.tag then s else Store(s.data - Elements(s.tag[t]), s.tag - {t})
  }

  /** The state after Kills at instant now: the items whose Expire(now) holds
      are deleted; the tag index stays. */
  function AfterKills<T>(s: Store<T>, now: Time): Store<T> {
    Store(map h | h in s.data && !s.data[h].expiration.Expire(now) :: s.data[h], s.tag)
  }

  /** What ExecuteAndCache returns and the state it leaves. */
  function ExecuteSpec<P, T, E>(s: Store<T>, e: Expirator, fn: Callable<P, T, E>, params: seq<P>,
                                text: P -> GoString, sha256: GoString -> Keys.Digest)
    : (Outcome<T, E>, Store<T>)
  {
    if !fn.Func? then (Decide(fn, params, false, Nil), s)
    else
      var key := Keys.MemoKey(fn.name, params, text, sha256);
      var lookup := Lookup(s, key);
      var o := Decide(fn, params, lookup.1, lookup.0);
      (o, if o.stored.Some? then AfterSet(s, e, key, o.stored.value) else s)
  }

  class Cachete<T> {
    var data: Data<T>
    var tag: TagIndex

    function Model(): Store<T>
      reads this
    {
      Store(data, tag)
    }

    constructor New()
      ensures data == map[] && tag == map[]
    {
      data := map[];
      tag := map[];
    }

    method Get(key: GoString) returns (value: Any<T>, ok: bool)
      ensures (value, ok) == Lookup(Model(), key)
    {
      var h := Hash(key);
      if h in data {
        return data[h].value, true;
      }
      return Nil, false;
    }

    method Set(e: Expirator, key: GoString, value: Any<T>)
      modifies this
      ensures Model() == AfterSet(old(Model()), e, key, value)
    {
      var h := Hash(key);
      data := data[h := Item(e, value)];
      match e
      case Tag(t, _) =>
        AddTag(t, h);
        assert [t][..0] == [];
        assert RegisterTags(old(tag), e.TagList(), h) == AppendHash(old(tag), t, h);
      case Tags(ts, _) =>
        for i := 0 to |ts|
          invariant data == old(data)[h := Item(e, value)]
          invariant tag == RegisterTags(old(tag), ts[..i], h)
        {
          assert ts[..i + 1][..i] == ts[..i];
          AddTag(ts[i], h);
        }
        assert ts[..|ts|] == ts;
      case Dur(_) =>
    }

    method AddTag(t: GoString, h: int64)
      modifies this`tag
      ensures tag == AppendHash(old(tag), t, h)
    {
      if t !in tag {
        tag := tag[t := [h]];
      } else {
        tag := tag[t := tag[t] + [h]];
      }
    }

    method Delete(key: GoString)
      modifies this`data
      ensures Model() == AfterDelete(old(Model()), key)
    {
      data := data - {Hash(key)};
    }

    /** The unexported delete: remove the entry of one hash. */
    method DeleteHash(h: int64)
      modifies this`data
      ensures data == old(data) - {h}
    {
      data := data - {h};
    }

    method DeleteWithTag(t: GoString)
      modifies this
      ensures Model() == AfterDeleteWithTag(old(Model()), t)
    {
      if t !in tag {
        return;
      }
      var hs := tag[t];
      for i := 0 to |hs|
        invariant data == old(data) - Elements(hs[..i])
        invariant tag == old(tag)
      {
        assert Elements(hs[..i + 1]) == Elements(hs[..i]) + {hs[i]} by {
          assert hs[..i + 1] == hs[..i] + [hs[i]];
        }
        data := data - {hs[i]};
      }
      assert hs[..|hs|] == hs;
      tag := tag - {t};
    }

    /** Ranges over the items in no particular order and deletes each one
        whose Expire(now) holds. */
    method Kills(now: Time)
      modifies this
      ensures Model() == AfterKills(old(Model()), now)
    {
      var pending := data.Keys;
      while pending != {}
        invariant pending <= data.Keys <= old(data).Keys
        invariant tag == old(tag)
        invariant forall h | h in data :: data[h] == old(data)[h]
        invariant forall h | h in old(data) && h !in pending ::
                    h in data <==> !old(data)[h].expiration.Expire(now)
        invariant forall h | h in pending :: h in data
        decreases pending
      {
        var h :| h in pending;
        if data[h].expiration.Expire(now) {
          DeleteHash(h);
        }
        pending := pending - {h};
      }
    }

    method ExecuteAndCache<P, E>(ex: Expirator, fn: Callable<P, T, E>, params: seq<P>,
                                 text: P -> GoString, sha256: GoString -> Keys.Digest)
      returns (err: Option<MemoError<E>>, written: Option<Any<T>>, invoked: bool)
      modifies this
      ensures var (o, s) := ExecuteSpec(old(Model()), ex, fn, params, text, sha256);
              err == o.err && written == o.written && invoked == o.invoked && Model() == s
    {
      if fn.NilFunc? {
        return None, None, false;
      }
      if fn.NotFunc? {
        return Some(Message(FnMustBeFunction)), None, false;
      }
      var hash := Keys.CreateHash(fn, params, text, sha256);
      var value, ok := Get(hash);
      if ok {
        return None, ReflectValue(value), false;
      }
      var res := fn.call(params);
      match res
      case Panicked =>
        return None, None, true;
      case Returned(v, Some(e)) =>
        return Some(Upstream(e)), None, true;
      case Returned(v, None) =>
        Set(ex, hash, v);
        return None, ReflectResult(fn.anyResult, v), true;
    }
  }

  /** Set stores the item under the key's hash, replacing what was there,
      and appends the hash once to the list of every tag of e per
      occurrence; a policy without tags leaves the index as it was. */
  lemma SetEffect<T>(s: Store<T>, e: Expirator, key: GoString, value: Any<T>, t: GoString)
    ensures var r := AfterSet(s, e, key, value);
            && r.data[Hash(key)] == Item(e, value)
            && (forall h | h != Hash(key) :: (h in r.data <==> h in s.data))
            && (t in r.tag <==> t in s.tag || t in e.TagList())
            && ListOf(r.tag, t) == ListOf(s.tag, t) + Repeat(Hash(key), multiset(e.TagList())[t])
            && (e.Dur? ==> r.tag == s.tag)
  {
    RegisterTagsEffect(s.tag, e.TagList(), Hash(key), t);
  }

  /** Keys that hash alike share a slot: a Set under one is what Get finds
      under the other. */
  lemma CollidingKeysShareSlot<T>(s: Store<T>, e: Expirator, k1: GoString, k2: GoString, value: Any<T>)
    requires Hash(k1) == Hash(k2)
    ensures Lookup(AfterSet(s, e, k1, value), k2) == (value, true)
  {
  }

  /** Get ignores the expiration: an item whose deadline has passed is still
      returned as found. */
  lemma GetIgnoresExpiry<T>(s: Store<T>, e: Expirator, key: GoString, value: Any<T>, now: Time)
    requires !e.Expire(now)
    ensures Lookup(AfterSet(s, e, key, value), key) == (value, true)
  {
  }

  /** Delete removes only the key's data entry; the tag index is untouched. */
  lemma DeleteEffect<T>(s: Store<T>, key: GoString)
    ensures !Lookup(AfterDelete(s, key), key).1
    ensures AfterDelete(s, key).tag == s.tag
    ensures forall h | h != Hash(key) :: (h in AfterDelete(s, key).data <==> h in s.data)
  {
  }

  /** After DeleteWithTag(t) for an indexed t, no hash listed under t is in
      the data, t is no longer indexed, and every other entry and tag is as
      it was; for an unknown t nothing changes. */
  lemma DeleteWithTagEffect<T>(s: Store<T>, t: GoString)
    ensures var r := AfterDeleteWithTag(s, t);
            && (t !in s.tag ==> r == s)
            && t !in r.tag
            && (t in s.tag ==> forall h | h in s.tag[t] :: h !in r.data)
            && (forall h | h in s.data && h !in ListOf(s.tag, t) :: h in r.data && r.data[h] == s.data[h])
            && (forall u | u in s.tag && u != t :: u in r.tag && r.tag[u] == s.tag[u])
  {
  }

  /** A second DeleteWithTag with the same tag is a no-op. */
  lemma DeleteWithTagIdempotent<T>(s: Store<T>, t: GoString)
    ensures AfterDeleteWithTag(AfterDeleteWithTag(s, t), t) == AfterDeleteWithTag(s, t)
  {
  }

  /** Tag invalidation: an entry set with a policy carrying tag t is gone
      after DeleteWithTag(t). */
  lemma TagInvalidation<T>(s: Store<T>, e: Expirator, key: GoString, value: Any<T>, t: GoString)
    requires t in e.TagList()
    ensures !Lookup(AfterDeleteWithTag(AfterSet(s, e, key, value), t), key).1
  {
    var r := AfterSet(s, e, key, value);
    RegisterTagsEffect(s.tag, e.TagList(), Hash(key), t);
    var m := multiset(e.TagList())[t];
    assert m > 0;
    assert Repeat(Hash(key), m)[0] == Hash(key);
    assert Hash(key) in r.tag[t];
  }

  /** The index is never pruned on overwrite: a key set under tag t and then
      set again with a policy without tags is still deleted by
      DeleteWithTag(t). */
  lemma StaleTagDeletesRetaggedEntry<T>(s: Store<T>, e1: Expirator, e2: Expirator, key: GoString,
                                        v1: Any<T>, v2: Any<T>, t: GoString)
    requires t in e1.TagList() && e2.Dur?
    ensures !Lookup(AfterDeleteWithTag(AfterSet(AfterSet(s, e1, key, v1), e2, key, v2), t), key).1
  {
    var r1 := AfterSet(s, e1, key, v1);
    TagInvalidation(s, e1, key, v1, t);
    RegisterTagsEffect(s.tag, e1.TagList(), Hash(key), t);
    assert Hash(key) in r1.tag[t];
  }

  /** Kills deletes exactly the items whose Expire(now) holds, that is the
      ones whose deadline is still ahead, and keeps those already expired. */
  lemma KillsDeletesLiveItems<T>(s: Store<T>, now: Time, h: int64)
    ensures h in AfterKills(s, now).data <==> h in s.data && s.data[h].expiration.t <= now
    ensures h in AfterKills(s, now).data ==> AfterKills(s, now).data[h] == s.data[h]
    ensures AfterKills(s, now).tag == s.tag
  {
  }

  /** So after Kills, every value Get still finds has reached its deadline. */
  lemma AfterKillsOnlyExpiredFound<T>(s: Store<T>, now: Time, key: GoString)
    requires Lookup(AfterKills(s, now), key).1
    ensures s.data[Hash(key)].expiration.t <= now
  {
  }

  /** New starts with both maps empty, so every Get misses. */
  lemma NewIsEmpty<T>(key: GoString)
    ensures Lookup<T>(Store(map[], map[]), key) == (Nil, false)
  {
  }

  /** Memoization: after a call that missed and got a value from fn, a
      second identical call is served from the cache without calling fn,
      whatever time it is, and changes nothing. It writes fn's value
      reflected on its own kind, which is what the miss wrote unless fn's
      first result is declared `any`. */
  lemma ExecuteTwiceHits<P, T, E>(s: Store<T>, e: Expirator, fn: Callable<P, T, E>, params: seq<P>,
                                  text: P -> GoString, sha256: GoString -> Keys.Digest)
    requires fn.Func? && fn.call(params).Returned? && fn.call(params).err.None?
    requires !Lookup(s, Keys.MemoKey(fn.name, params, text, sha256)).1
    ensures var (o1, s1) := ExecuteSpec(s, e, fn, params, text, sha256);
            var (o2, s2) := ExecuteSpec(s1, e, fn, params, text, sha256);
            o1.invoked && !o2.invoked && o2.err.None? && o2.written == ReflectValue(fn.call(params).value)
            && (!fn.anyResult ==> o2.written == o1.written) && s2 == s1
  {
  }

  /** A successful miss registers the key's hash under every tag of the
      policy, so DeleteWithTag on any of them invalidates the memoized call. */
  lemma ExecuteRegistersTags<P, T, E>(s: Store<T>, e: Expirator, fn: Callable<P, T, E>, params: seq<P>,
                                      text: P -> GoString, sha256: GoString -> Keys.Digest, t: GoString)
    requires fn.Func? && fn.call(params).Returned? && fn.call(params).err.None?
    requires !Lookup(s, Keys.MemoKey(fn.name, params, text, sha256)).1
    requires t in e.TagList()
    ensures var (o, s1) := ExecuteSpec(s, e, fn, params, text, sha256);
            !Lookup(AfterDeleteWithTag(s1, t), Keys.MemoKey(fn.name, params, text, sha256)).1
  {
    TagInvalidation(s, e, Keys.MemoKey(fn.name, params, text, sha256), fn.call(params).value, t);
  }
}
