/** The per-process cache of computed flags: a map with a time to live and a
    slice of keys kept in order of last use. */
module LruCache {
  import opened Text

  datatype CacheKey = CacheKey(user: string, tenant: string, roles: string, ver: nat)

  type Flags = map<string, bool>

  datatype Entry = Entry(at: int, data: Flags)

  /** What one call did to the cache. A lookup of an absent key does nothing. */
  datatype Event =
    | Set(key: CacheKey, entry: Entry)
    | Hit(key: CacheKey)
    | Expire(key: CacheKey)

  /** All that happened to a cache, the latest event on the outside. */
  datatype Log = Nothing | Then(earlier: Log, last: Event)

  // ----- What a history says about a key -----

  predicate Uses(e: Event, k: CacheKey) {
    !e.Expire? && e.key == k
  }

  function Size(log: Log): nat {
    match log
    case Nothing => 0
    case Then(before, _) => Size(before) + 1
  }

  /** Number of the latest event that used `k`, counting from one; 0 for never. */
  function LastUse(log: Log, k: CacheKey): (n: nat)
    ensures n <= Size(log)
  {
    match log
    case Nothing => 0
    case Then(before, e) => if Uses(e, k) then Size(log) else LastUse(before, k)
  }

  /** What the latest `Set` of `k` stored. */
  function LastSet(log: Log, k: CacheKey): Option<Entry> {
    match log
    case Nothing => None
    case Then(before, e) => if e.Set? && e.key == k then Some(e.entry) else LastSet(before, k)
  }

  /** The keys other than `k` used after the latest use of `k`. */
  function UsedSince(log: Log, k: CacheKey): set<CacheKey> {
    match log
    case Nothing => {}
    case Then(before, e) =>
      if Uses(e, k) then {}
      else if e.Expire? then UsedSince(before, k)
      else UsedSince(before, k) + {e.key}
  }

  /** Whether a lookup found `k` too old after its latest use. */
  predicate ExpiredSince(log: Log, k: CacheKey) {
    match log
    case Nothing => false
    case Then(before, e) => !Uses(e, k) && (e == Expire(k) || ExpiredSince(before, k))
  }

  /** A key is used since `k` exactly when its latest use is the later one. */
  lemma {:induction false} UsedSinceIsLaterUse(log: Log, k: CacheKey, j: CacheKey)
    requires j != k
    ensures j in UsedSince(log, k) <==> LastUse(log, j) > LastUse(log, k)
  {
    if log.Nothing? {
    } else {
      UsedSinceIsLaterUse(log.earlier, k, j);
    }
  }

  lemma {:induction false} SetIsUse(log: Log, k: CacheKey)
    ensures LastSet(log, k).Some? ==> LastUse(log, k) > 0
    ensures k !in UsedSince(log, k)
  {
    if log.Nothing? {
    } else {
      SetIsUse(log.earlier, k);
    }
  }

  // ----- The order slice -----

  predicate NoDup<T(==)>(s: seq<T>) {
    forall i, j :: 0 <= i < j < |s| ==> s[i] != s[j]
  }

  function RemoveFirst(s: seq<CacheKey>, k: CacheKey): seq<CacheKey> {
    if s == [] then []
    else if s[0] == k then s[1..]
    else [s[0]] + RemoveFirst(s[1..], k)
  }

  lemma {:induction false} RemoveFirstAt(s: seq<CacheKey>, k: CacheKey, i: nat)
    requires i < |s| && s[i] == k && k !in s[..i]
    ensures RemoveFirst(s, k) == s[..i] + s[i + 1..]
  {
    if i == 0 {
    } else {
      assert s[0] in s[..i];
      assert s[1..][..i - 1] == s[..i][1..];
      RemoveFirstAt(s[1..], k, i - 1);
    }
  }

  lemma {:induction false} RemoveFirstAbsent(s: seq<CacheKey>, k: CacheKey)
    requires k !in s
    ensures RemoveFirst(s, k) == s
  {
    if s == [] {
    } else {
      RemoveFirstAbsent(s[1..], k);
    }
  }

  lemma {:induction false} NoDupSize(order: seq<CacheKey>, keys: set<CacheKey>)
    requires NoDup(order) && forall k :: k in order <==> k in keys
    ensures |order| == |keys|
  {
    if order != [] {
      var rest := keys - {order[0]};
      forall k ensures k in order[1..] <==> k in rest {
        if k in order[1..] {
          var i :| 0 <= i < |order[1..]| && order[1..][i] == k;
          assert order[i + 1] == k;
        }
      }
      NoDupSize(order[1..], rest);
      assert keys == rest + {order[0]};
    } else {
      assert keys == {};
    }
  }

  // ----- The invariant of a run -----

  ghost predicate SortedByUse(order: seq<CacheKey>, log: Log) {
    forall i, j {:trigger LastUse(log, order[i]), LastUse(log, order[j])} :: 0 <= i < j < |order| ==>
      LastUse(log, order[i]) < LastUse(log, order[j])
  }

  /** A used key that is gone was either found too old, or pushed out by at
      least `cap` other keys while everything still cached was used later. */
  ghost predicate Displaced(items: map<CacheKey, Entry>, log: Log, cap: int, k: CacheKey) {
    |UsedSince(log, k)| >= cap &&
    forall j :: j in items ==> LastUse(log, j) > LastUse(log, k)
  }

  ghost predicate Shape(items: map<CacheKey, Entry>, order: seq<CacheKey>, log: Log) {
    NoDup(order) && (forall k :: k in order <==> k in items) &&
    SortedByUse(order, log) &&
    (forall k :: k in items ==> LastUse(log, k) > 0 && LastSet(log, k) == Some(items[k]))
  }

  ghost predicate Accounted(items: map<CacheKey, Entry>, log: Log, cap: int, ttl: int, clock: int) {
    (forall k :: k !in items && LastUse(log, k) > 0 ==>
      ExpiredSince(log, k) || Displaced(items, log, cap, k)) &&
    (forall k :: ExpiredSince(log, k) ==>
      LastSet(log, k).Some? && clock - LastSet(log, k).value.at > ttl)
  }

  ghost predicate Inv(items: map<CacheKey, Entry>, order: seq<CacheKey>, log: Log,
                      cap: int, ttl: int, clock: int)
  {
    Shape(items, order, log) && |order| <= cap && Accounted(items, log, cap, ttl, clock)
  }

  // ----- The theorems -----

  /** A key set within the time to live is still there unless at least `cap`
      other keys were used after its own latest use. */
  lemma FreshStaysCached(items: map<CacheKey, Entry>, order: seq<CacheKey>, log: Log,
                         cap: int, ttl: int, clock: int, k: CacheKey, now: int)
    requires Inv(items, order, log, cap, ttl, clock) && clock <= now
    requires LastSet(log, k).Some? && now - LastSet(log, k).value.at <= ttl
    ensures k !in items ==> |UsedSince(log, k)| >= cap
    ensures k in items ==> items[k] == LastSet(log, k).value
  {
    SetIsUse(log, k);
  }

  /** In a run where no lookup found an expired key, the cache holds exactly
      the used keys with fewer than `cap` other keys used since. */
  lemma ExactlyTheRecentKeys(items: map<CacheKey, Entry>, order: seq<CacheKey>, log: Log,
                             cap: int, ttl: int, clock: int, k: CacheKey)
    requires Inv(items, order, log, cap, ttl, clock)
    requires forall j :: !ExpiredSince(log, j)
    ensures k in items <==> LastUse(log, k) > 0 && |UsedSince(log, k)| < cap
  {
    if k in items {
      forall j | j in UsedSince(log, k) ensures j in items.Keys - {k} {
        SetIsUse(log, k);
        UsedSinceIsLaterUse(log, k, j);
      }
      NoDupSize(order, items.Keys);
      SubsetSize(UsedSince(log, k), items.Keys - {k});
    }
  }

  lemma SubsetSize<T>(a: set<T>, b: set<T>)
    requires a <= b
    ensures |a| <= |b|
  {
    var rest := b - a;
    assert b == a + rest;
  }

  /** The key at the front of a full order slice is the least recently used
      one, and everything behind it was used since. */
  lemma FrontIsLeastRecent(items: map<CacheKey, Entry>, order: seq<CacheKey>, log: Log)
    requires Shape(items, order, log) && order != []
    ensures forall j :: j in items && j != order[0] ==> LastUse(log, order[0]) < LastUse(log, j)
    ensures |UsedSince(log, order[0])| >= |order| - 1
  {
    var rest := items.Keys - {order[0]};
    forall j | j in rest ensures LastUse(log, order[0]) < LastUse(log, j) && j in UsedSince(log, order[0]) {
      var i :| 0 <= i < |order| && order[i] == j;
      UsedSinceIsLaterUse(log, order[0], j);
    }
    NoDupSize(order, items.Keys);
    SubsetSize(rest, UsedSince(log, order[0]));
  }

  // ----- Steps keep the invariant -----

  /** Removing a key from the order slice keeps the others, in order. */
  lemma RemoveFirstKeepsOrder(s: seq<CacheKey>, k: CacheKey, log: Log)
    requires NoDup(s) && SortedByUse(s, log)
    ensures var rest := RemoveFirst(s, k);
            NoDup(rest) && SortedByUse(rest, log) &&
            (forall j :: j in rest <==> j in s && j != k) &&
            |rest| == |s| - if k in s then 1 else 0
  {
    hide LastUse, RemoveFirst;
    if k in s {
      var i :| 0 <= i < |s| && s[i] == k;
      RemoveFirstAt(s, k, i);
      var rest := s[..i] + s[i + 1..];
      forall j | j in s && j != k ensures j in rest {
        var m :| 0 <= m < |s| && s[m] == j;
        assert rest[if m < i then m else m - 1] == j;
      }
    } else {
      RemoveFirstAbsent(s, k);
    }
  }

  /** Moving a used key to the end and storing its entry keeps the shape. */
  lemma UseKeepsShape(items: map<CacheKey, Entry>, order: seq<CacheKey>, log: Log, e: Event,
                      entry: Entry)
    requires Shape(items, order, log) && !e.Expire?
    requires if e.Set? then entry == e.entry else e.key in items && entry == items[e.key]
    ensures Shape(items[e.key := entry], RemoveFirst(order, e.key) + [e.key], Then(log, e))
    ensures |RemoveFirst(order, e.key)| + 1 == |order| + if e.key in items then 0 else 1
  {
    var rest, log' := RemoveFirst(order, e.key), Then(log, e);
    RemoveFirstKeepsOrder(order, e.key, log);
    MoveToEndSorted(rest, e.key, log, log');
  }

  lemma MoveToEndSorted(rest: seq<CacheKey>, k: CacheKey, log: Log, log': Log)
    requires NoDup(rest) && SortedByUse(rest, log) && k !in rest
    requires forall j :: LastUse(log', j) == if j == k then Size(log) + 1 else LastUse(log, j)
    ensures NoDup(rest + [k]) && SortedByUse(rest + [k], log')
  {
    forall i | 0 <= i < |rest| ensures rest[i] != k && LastUse(log', rest[i]) == LastUse(log, rest[i]) {
      assert rest[i] in rest;
    }
  }

  /** A hit keeps the invariant. */
  lemma HitKeepsInv(items: map<CacheKey, Entry>, order: seq<CacheKey>, log: Log,
                    cap: int, ttl: int, clock: int, k: CacheKey, now: int)
    requires Inv(items, order, log, cap, ttl, clock) && clock <= now && k in items
    ensures LastSet(log, k) == Some(items[k])
    ensures Inv(items, RemoveFirst(order, k) + [k], Then(log, Hit(k)), cap, ttl, now)
  {
    UseKeepsShape(items, order, log, Hit(k), items[k]);
    UseKeepsAccounted(items, log, Hit(k), items[k], cap, ttl, clock, now);
    assert items[k := items[k]] == items;
  }

  /** Looking up an absent key changes nothing. */
  lemma AbsentKeepsInv(items: map<CacheKey, Entry>, order: seq<CacheKey>, log: Log,
                       cap: int, ttl: int, clock: int, k: CacheKey, now: int)
    requires Inv(items, order, log, cap, ttl, clock) && clock <= now && k !in items
    ensures RemoveFirst(order, k) == order && items - {k} == items
    ensures Inv(items, order, log, cap, ttl, now)
  {
    RemoveFirstAbsent(order, k);
  }

  /** Forgetting an expired key keeps the invariant. */
  lemma ExpireKeepsInv(items: map<CacheKey, Entry>, order: seq<CacheKey>, log: Log,
                       cap: int, ttl: int, clock: int, k: CacheKey, now: int)
    requires Inv(items, order, log, cap, ttl, clock) && clock <= now
    requires k in items && now - items[k].at > ttl
    ensures Inv(items - {k}, RemoveFirst(order, k), Then(log, Expire(k)), cap, ttl, now)
  {
    var log' := Then(log, Expire(k));
    RemoveFirstKeepsOrder(order, k, log);
    forall j
      ensures LastUse(log', j) == LastUse(log, j) && LastSet(log', j) == LastSet(log, j)
      ensures UsedSince(log', j) == UsedSince(log, j)
      ensures ExpiredSince(log', j) == (j == k || ExpiredSince(log, j))
    {
    }
  }

  /** Using a key leaves every other absent key accounted for. */
  lemma UseKeepsAccounted(items: map<CacheKey, Entry>, log: Log, e: Event, entry: Entry,
                          cap: int, ttl: int, clock: int, now: int)
    requires Accounted(items, log, cap, ttl, clock) && clock <= now && !e.Expire?
    ensures Accounted(items[e.key := entry], Then(log, e), cap, ttl, now)
  {
    var items', log' := items[e.key := entry], Then(log, e);
    forall k
      ensures LastUse(log', k) == (if k == e.key then Size(log) + 1 else LastUse(log, k))
      ensures k != e.key ==> UsedSince(log, k) <= UsedSince(log', k) && (ExpiredSince(log', k) <==> ExpiredSince(log, k))
      ensures k != e.key ==> LastSet(log', k) == LastSet(log, k)
      ensures k == e.key ==> !ExpiredSince(log', k)
    {
    }
    forall k | k !in items' && LastUse(log', k) > 0 && !ExpiredSince(log', k)
      ensures Displaced(items', log', cap, k)
    {
      SubsetSize(UsedSince(log, k), UsedSince(log', k));
    }
  }

  /** Dropping the front of an overfull order slice keeps every absent key accounted for. */
  lemma EvictKeepsInv(items: map<CacheKey, Entry>, order: seq<CacheKey>, log: Log,
                      cap: int, ttl: int, clock: int)
    requires Shape(items, order, log) && Accounted(items, log, cap, ttl, clock) && |order| > cap >= 0
    ensures Shape(items - {order[0]}, order[1..], log)
    ensures Accounted(items - {order[0]}, log, cap, ttl, clock)
  {
    var items' := items - {order[0]};
    FrontIsLeastRecent(items, order, log);
    forall k | k in items' ensures k in order[1..] {
      var i :| 0 <= i < |order| && order[i] == k;
      assert order[1..][i - 1] == k;
    }
    forall k | k !in items' && LastUse(log, k) > 0 && !ExpiredSince(log, k)
      ensures Displaced(items', log, cap, k)
    {
    }
  }

  /** Storing an entry keeps the invariant, evicting the front key if the
      cache was full. */
  lemma SetKeeps(items: map<CacheKey, Entry>, order: seq<CacheKey>, log: Log,
                 cap: int, ttl: int, clock: int, e: Event, now: int)
    requires cap >= 0 && Inv(items, order, log, cap, ttl, clock) && clock <= now && e.Set?
    ensures e.key !in items ==> RemoveFirst(order, e.key) == order
    ensures var items', queue := items[e.key := e.entry], RemoveFirst(order, e.key) + [e.key];
            |items'| == |queue| <= cap + 1 && |items' - {queue[0]}| == |queue| - 1 &&
            if |queue| <= cap then Inv(items', queue, Then(log, e), cap, ttl, now)
            else Inv(items' - {queue[0]}, queue[1..], Then(log, e), cap, ttl, now)
  {
    var items', queue := items[e.key := e.entry], RemoveFirst(order, e.key) + [e.key];
    UseKeepsShape(items, order, log, e, e.entry);
    UseKeepsAccounted(items, log, e, e.entry, cap, ttl, clock, now);
    hide LastUse, LastSet, UsedSince, ExpiredSince, Accounted;
    NoDupSize(queue, items'.Keys);
    if e.key !in items { RemoveFirstAbsent(order, e.key); }
    assert queue[0] in items' && items'.Keys == (items' - {queue[0]}).Keys + {queue[0]};
    if |queue| > cap {
      EvictKeepsInv(items', queue, Then(log, e), cap, ttl, now);
    }
  }

  /** The cache object of cache.go; `log` and `clock` are its ghost history. */
  class Lru {
    var items: map<CacheKey, Entry>
    var order: seq<CacheKey>
    const ttl: int
    const cap: int
    ghost var log: Log
    ghost var clock: int

    ghost predicate Valid()
      reads this
    {
      cap >= 0 && Inv(items, order, log, cap, ttl, clock)
    }

    constructor (ttl: int, cap: int, ghost start: int)
      requires cap >= 0
      ensures Valid() && items == map[] && order == [] && log == Nothing && clock == start
      ensures this.ttl == ttl && this.cap == cap
    {
      this.ttl, this.cap := ttl, cap;
      items, order, log, clock := map[], [], Nothing, start;
    }

    /** A hit exactly for a cached key inside its time to live; a key found
        too old is forgotten. */
    method Get(k: CacheKey, now: int) returns (r: Option<Flags>)
      requires Valid() && clock <= now
      modifies this
      ensures Valid() && clock == now
      ensures r.Some? <==> k in old(items) && now - old(items)[k].at <= ttl
      ensures r.Some? ==> LastSet(old(log), k) == Some(old(items)[k]) && r.value == old(items)[k].data
      ensures r.Some? ==> items == old(items) && log == Then(old(log), Hit(k))
      ensures r.Some? ==> order == RemoveFirst(old(order), k) + [k]
      ensures r.None? ==> items == old(items) - {k} && order == RemoveFirst(old(order), k)
      ensures r.None? ==> log == if k in old(items) then Then(old(log), Expire(k)) else old(log)
    {
      hide Inv;
      if k in items {
        var e := items[k];
        if now - e.at <= ttl {
          HitKeepsInv(items, order, log, cap, ttl, clock, k, now);
          Touch(k);
          log, clock := Then(log, Hit(k)), now;
          return Some(e.data);
        }
        ExpireKeepsInv(items, order, log, cap, ttl, clock, k, now);
        items := items - {k};
        RemoveFromOrder(k);
        log := Then(log, Expire(k));
      } else {
        AbsentKeepsInv(items, order, log, cap, ttl, clock, k, now);
      }
      clock := now;
      return None;
    }

    /** Stores the entry as the most recently used one and evicts from the
        front while there are more than `cap`. */
    method Put(k: CacheKey, v: Flags, now: int)
      requires Valid() && clock <= now
      modifies this
      ensures Valid() && clock == now && log == Then(old(log), Set(k, Entry(now, v)))
      ensures var queue := RemoveFirst(old(order), k) + [k];
              var stored := old(items)[k := Entry(now, v)];
              |queue| <= cap + 1 &&
              order == (if |queue| <= cap then queue else queue[1..]) &&
              items == if |queue| <= cap then stored else stored - {queue[0]}
    {
      hide Inv;
      ghost var e := Set(k, Entry(now, v));
      SetKeeps(items, order, log, cap, ttl, clock, e, now);
      if k !in items {
        order := order + [k];
      } else {
        Touch(k);
      }
      items := items[k := Entry(now, v)];
      log, clock := Then(log, e), now;
      EvictOldest();
    }

    /** Drops keys from the front until at most `cap` are left. */
    method EvictOldest()
      requires cap >= 0 && |items| == |order| <= cap + 1
      requires order != [] ==> |items - {order[0]}| == |order| - 1
      modifies this`order, this`items
      ensures order == if |old(order)| <= cap then old(order) else old(order)[1..]
      ensures items == if |old(order)| <= cap then old(items) else old(items) - {old(order)[0]}
    {
      while |items| > cap
        invariant (order == old(order) && items == old(items)) ||
                  (|old(order)| == cap + 1 && order == old(order)[1..] && items == old(items) - {old(order)[0]})
      {
        var oldest := order[0];
        order := order[1..];
        items := items - {oldest};
      }
    }

    /** Moves a key to the end. */
    method Touch(k: CacheKey)
      modifies this`order
      ensures order == RemoveFirst(old(order), k) + [k]
    {
      RemoveFromOrder(k);
      order := order + [k];
    }

    /** Splices the first occurrence of `k` out of the slice. */
    method RemoveFromOrder(k: CacheKey)
      modifies this`order
      ensures order == RemoveFirst(old(order), k)
    {
      for i := 0 to |order|
        invariant order == old(order) && k !in order[..i]
      {
        if order[i] == k {
          RemoveFirstAt(order, k, i);
          order := order[..i] + order[i + 1..];
          return;
        }
      }
      RemoveFirstAbsent(order, k);
    }
  }
}
