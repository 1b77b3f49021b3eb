/** The tagged in-memory cache: items with an expiration, and for each tag the
    list of keys that were ever stored with it. */
module TagCache {
  import opened Text

  /** `expiration` is 0 for an item that does not expire. */
  datatype Entry<V> = Entry(value: V, expiration: int, tags: seq<string>)

  datatype Op<V> = Set(key: string, entry: Entry<V>) | Delete(key: string) | InvalidateTag(tag: string) | InvalidateAll

  /** Every operation so far, the latest on the outside. */
  datatype Log<V> = Nothing | Then(earlier: Log<V>, last: Op<V>)

  // ----- What a history says -----

  predicate Clears<V>(op: Op<V>, tag: string) {
    op.InvalidateAll? || (op.InvalidateTag? && op.tag == tag)
  }

  predicate SetsWith<V>(op: Op<V>, tag: string, key: string) {
    op.Set? && op.key == key && tag in op.entry.tags
  }

  /** `key` was set with `tag` since `tag` was last invalidated. */
  predicate Tagged<V>(log: Log<V>, tag: string, key: string) {
    match log
    case Nothing => false
    case Then(before, op) => !Clears(op, tag) && (SetsWith(op, tag, key) || Tagged(before, tag, key))
  }

  /** The operation removes `key`, given what happened before it. */
  predicate Removes<V>(before: Log<V>, op: Op<V>, key: string) {
    match op
    case Set(_, _) => false
    case Delete(k) => k == key
    case InvalidateTag(tag) => Tagged(before, tag, key)
    case InvalidateAll => true
  }

  /** The entry a key has, expired or not. */
  function Live<V>(log: Log<V>, key: string): Option<Entry<V>> {
    match log
    case Nothing => None
    case Then(before, op) =>
      if op.Set? && op.key == key then Some(op.entry)
      else if Removes(before, op, key) then None
      else Live(before, key)
  }

  function Visible<V>(log: Log<V>, key: string, now: int): Option<V> {
    match Live(log, key)
    case None => None
    case Some(e) => if e.expiration > 0 && now > e.expiration then None else Some(e.value)
  }

  /** A lookup answers a value exactly if some Set stored it, nothing removed
      it since, and it does not expire or has not yet. */
  lemma VisibleIff<V>(log: Log<V>, key: string, now: int, v: V)
    ensures Visible(log, key, now) == Some(v) <==>
            exists n, e :: 0 <= n < Size(log) && OpAt(log, n) == Set(key, e) && Untouched(log, n, key) &&
                           e.value == v && (e.expiration <= 0 || now <= e.expiration)
  {
    forall e ensures Live(log, key) == Some(e) <==>
                     exists n :: 0 <= n < Size(log) && OpAt(log, n) == Set(key, e) && Untouched(log, n, key) {
      LiveIff(log, key, e);
    }
    hide Live, OpAt, Untouched, Size;
  }

  // ----- The same by position in the history -----

  function Size<V>(log: Log<V>): nat {
    match log
    case Nothing => 0
    case Then(before, _) => Size(before) + 1
  }

  function Prefix<V>(log: Log<V>, n: nat): Log<V> {
    if n >= Size(log) then log else Prefix(log.earlier, n)
  }

  function OpAt<V>(log: Log<V>, n: nat): Op<V>
    requires n < Size(log)
  {
    if n == Size(log) - 1 then log.last else OpAt(log.earlier, n)
  }

  /** Operation `n` sets the key with the tag, and nothing after it clears the tag. */
  ghost predicate TagsForGood<V>(log: Log<V>, n: int, tag: string, key: string) {
    0 <= n < Size(log) && SetsWith(OpAt(log, n), tag, key) &&
    forall m :: n < m < Size(log) ==> !Clears(OpAt(log, m), tag)
  }

  /** Tagged means: set with the tag at some point, and the tag not cleared after it. */
  lemma {:induction false} TaggedIff<V>(log: Log<V>, tag: string, key: string)
    ensures Tagged(log, tag, key) <==> exists n :: TagsForGood(log, n, tag, key)
  {
    match log
    case Nothing =>
    case Then(before, op) =>
      TaggedIff(before, tag, key);
      var last := Size(log) - 1;
      assert SetsWith(op, tag, key) && !Clears(op, tag) ==> TagsForGood(log, last, tag, key);
      forall n ensures TagsForGood(log, n, tag, key) <==>
                       (n == last && SetsWith(op, tag, key)) || (TagsForGood(before, n, tag, key) && !Clears(op, tag)) {
        TagsForGoodStep(log, n, tag, key);
      }
  }

  lemma TagsForGoodStep<V>(log: Log<V>, n: int, tag: string, key: string)
    requires log.Then?
    ensures TagsForGood(log, n, tag, key) <==>
            (n == Size(log) - 1 && SetsWith(log.last, tag, key)) ||
            (TagsForGood(log.earlier, n, tag, key) && !Clears(log.last, tag))
  {
    var last := Size(log) - 1;
    assert OpAt(log, last) == log.last;
    forall m | 0 <= m < last ensures OpAt(log, m) == OpAt(log.earlier, m) {}
  }

  /** A key has an entry exactly when some Set stored it, and since then the
      key was neither set again, deleted, nor swept by an invalidation. */
  lemma {:induction false} LiveIff<V>(log: Log<V>, key: string, e: Entry<V>)
    ensures Live(log, key) == Some(e) <==>
            exists n :: 0 <= n < Size(log) && OpAt(log, n) == Set(key, e) && Untouched(log, n, key)
  {
    match log
    case Nothing =>
    case Then(before, op) =>
      LiveIff(before, key, e);
      var last := Size(log) - 1;
      forall n | 0 <= n < last ensures Untouched(log, n, key) <==>
                                       Untouched(before, n, key) && !(op.Set? && op.key == key) && !Removes(before, op, key) {
        UntouchedStep(log, n, key);
      }
      if op.Set? && op.key == key {
        assert OpAt(log, last) == op && Untouched(log, last, key);
        if n :| 0 <= n < Size(log) && OpAt(log, n) == Set(key, e) && Untouched(log, n, key) {
          assert n == last;
        }
      } else {
        if n :| 0 <= n < Size(before) && OpAt(before, n) == Set(key, e) && Untouched(before, n, key) {
          assert OpAt(log, n) == Set(key, e);
        }
        if n :| 0 <= n < Size(log) && OpAt(log, n) == Set(key, e) && Untouched(log, n, key) {
          assert n < last && OpAt(before, n) == Set(key, e);
        }
      }
  }

  /** After operation `n` nothing sets or removes the key. */
  ghost predicate Untouched<V>(log: Log<V>, n: int, key: string) {
    forall m :: n < m < Size(log) && 0 <= m ==>
      !(OpAt(log, m).Set? && OpAt(log, m).key == key) && !Removes(Prefix(log, m), OpAt(log, m), key)
  }

  lemma UntouchedStep<V>(log: Log<V>, n: int, key: string)
    requires log.Then? && 0 <= n < Size(log) - 1
    ensures Untouched(log, n, key) <==>
            Untouched(log.earlier, n, key) && !(log.last.Set? && log.last.key == key) && !Removes(log.earlier, log.last, key)
  {
    var last := Size(log) - 1;
    assert Prefix(log.earlier, last) == log.earlier;
    assert Prefix(log, last) == log.earlier && OpAt(log, last) == log.last;
    forall m | 0 <= m < last ensures Prefix(log, m) == Prefix(log.earlier, m) && OpAt(log, m) == OpAt(log.earlier, m) {}
  }

  // ----- Invalidation by tag -----

  /** An item that carries a tag is known to the tag. */
  lemma {:induction false} CarriersAreTagged<V>(log: Log<V>, tag: string, key: string)
    requires Live(log, key).Some? && tag in Live(log, key).value.tags
    ensures Tagged(log, tag, key)
  {
    if !(log.last.Set? && log.last.key == key) {
      CarriersAreTagged(log.earlier, tag, key);
      assert !Clears(log.last, tag);
    }
  }

  /** After InvalidateTag no item carries the tag; the items lost are exactly
      those set with it since it was last invalidated. */
  lemma InvalidateTagIsExact<V>(log: Log<V>, tag: string, key: string)
    ensures var after := Then(log, InvalidateTag(tag));
            (Live(after, key).Some? ==> tag !in Live(after, key).value.tags) &&
            (Live(after, key) != Live(log, key) <==> Live(log, key).Some? && Tagged(log, tag, key)) &&
            (Live(after, key).Some? ==> Live(after, key) == Live(log, key))
  {
    if Live(log, key).Some? && tag in Live(log, key).value.tags {
      CarriersAreTagged(log, tag, key);
    }
  }

  /** An item can be swept by a tag it no longer carries. */
  lemma SweptWithoutCarrying(e: Entry<int>, tag: string)
    requires e.tags == []
    ensures var log := Then(Then(Nothing, Set("k", e.(tags := [tag]))), Set("k", e));
            Live(log, "k") == Some(e) && Live(Then(log, InvalidateTag(tag)), "k") == None
  {
    var first := Then(Nothing, Set("k", e.(tags := [tag])));
    assert tag in [tag];
    assert SetsWith(first.last, tag, "k") && Tagged(first, tag, "k");
    var log := Then(first, Set("k", e));
    assert Tagged(log, tag, "k");
  }

  // ----- The cache -----

  class MemoryCache<V> {
    var items: map<string, Entry<V>>
    var tags: map<string, seq<string>>
    ghost var log: Log<V>

    ghost predicate Valid()
      reads this
    {
      (forall k :: (if k in items then Some(items[k]) else None) == Live(log, k)) &&
      (forall t, k :: k in KeysOf(tags, t) <==> Tagged(log, t, k))
    }

    constructor ()
      ensures Valid() && log == Nothing
    {
      items, tags, log := map[], map[], Nothing;
    }

    method Get(key: string, now: int) returns (r: Option<V>)
      requires Valid()
      ensures r == Visible(log, key, now)
      ensures r == if key in items && (items[key].expiration <= 0 || now <= items[key].expiration)
                   then Some(items[key].value) else None
    {
      assert (if key in items then Some(items[key]) else None) == Live(log, key);
      if key !in items { return None; }
      var item := items[key];
      if item.expiration > 0 && now > item.expiration { return None; }
      return Some(item.value);
    }

    method Put(key: string, value: V, ttl: int, now: int)
      requires Valid()
      modifies this
      ensures Valid() && log == Then(old(log), Set(key, Entry(value, if ttl > 0 then now + ttl else 0, [])))
    {
      PutWithTags(key, value, [], ttl, now);
    }

    method PutWithTags(key: string, value: V, newTags: seq<string>, ttl: int, now: int)
      requires Valid()
      modifies this
      ensures Valid()
      ensures log == Then(old(log), Set(key, Entry(value, if ttl > 0 then now + ttl else 0, newTags)))
    {
      var expiration := 0;
      if ttl > 0 {
        expiration := now + ttl;
      }
      items := items[key := Entry(value, expiration, newTags)];
      for i := 0 to |newTags|
        invariant items == old(items)[key := Entry(value, expiration, newTags)] && log == old(log)
        invariant forall t, k :: k in KeysOf(tags, t) <==> k in KeysOf(old(tags), t) || (k == key && t in newTags[..i])
      {
        var tag := newTags[i];
        assert newTags[..i + 1] == newTags[..i] + [tag];
        ghost var before := tags;
        tags := tags[tag := KeysOf(tags, tag) + [key]];
        assert forall t, k :: k in KeysOf(tags, t) <==> k in KeysOf(before, t) || (t == tag && k == key);
      }
      assert newTags[..|newTags|] == newTags;
      log := Then(log, Set(key, Entry(value, expiration, newTags)));
    }

    method Delete(key: string)
      requires Valid()
      modifies this
      ensures Valid() && log == Then(old(log), Op.Delete(key))
    {
      items := items - {key};
      log := Then(log, Op.Delete(key));
    }

    method InvalidateTag(tag: string)
      requires Valid()
      modifies this
      ensures Valid() && log == Then(old(log), Op.InvalidateTag(tag))
    {
      if tag in tags {
        var keys := tags[tag];
        for i := 0 to |keys|
          invariant log == old(log) && tags == old(tags)
          invariant items == old(items) - (set k | k in keys[..i])
        {
          assert keys[..i + 1] == keys[..i] + [keys[i]];
          items := items - {keys[i]};
        }
        assert keys[..|keys|] == keys;
        tags := tags - {tag};
      }
      assert items == old(items) - (set k | k in KeysOf(old(tags), tag));
      log := Then(log, Op.InvalidateTag(tag));
    }

    method InvalidateAll()
      requires Valid()
      modifies this
      ensures Valid() && log == Then(old(log), Op.InvalidateAll)
    {
      items, tags := map[], map[];
      log := Then(log, Op.InvalidateAll);
    }
  }

  function KeysOf(tags: map<string, seq<string>>, tag: string): seq<string> {
    if tag in tags then tags[tag] else []
  }
}
