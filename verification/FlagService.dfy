/** The request path of the feature-flag module over its cache, registry and
    override table. Requests run side by side, and each is a series of steps:
    it lists the keys, makes its cache key, looks in the cache, reads the
    overrides, decides key by key, and stores. Anything may happen in between. */
module FlagService {
  import opened Text
  import opened LruCache
  import opened FlagKeys
  import opened FlagRegistry
  import opened Overrides
  import opened FlagEvaluator

  /** What the override table held from a moment on. */
  datatype Snapshot = Snapshot(at: int, slots: Slots)

  /** State `h` of the table was the current one at time `t`. */
  ghost predicate CurrentAt(history: seq<Snapshot>, h: int, t: int) {
    0 <= h < |history| && history[h].at <= t && (h + 1 < |history| ==> t <= history[h + 1].at)
  }

  // ----- Where computed flags come from -----

  /** How some flags were computed: for whom, which version of the registry the
      keys were listed from, which table state was read and when, the default
      used for each key, and the version current when the last was looked up. */
  datatype Origin = Origin(p: Principals, listed: nat, state: nat, readAt: int, defaults: map<string, bool>, until: nat)

  function Computed(slots: Slots, p: Principals, defaults: map<string, bool>): Flags {
    map k | k in defaults :: Rule(slots, p, k, defaults[k])
  }

  /** Each default was the registered one at some version from `from` to `until`. */
  ghost predicate Looked(defaults: map<string, bool>, versions: seq<Table>, from: nat, until: nat) {
    until < |versions| &&
    forall k :: k in defaults ==> exists w :: from <= w <= until && defaults[k] == DefaultIn(versions[w], k)
  }

  /** The flags were computed that way, for a request with a key of version `ver`. */
  ghost predicate ComesFrom(flags: Flags, ver: nat, o: Origin, history: seq<Snapshot>, versions: seq<Table>) {
    WellFormed(o.p) && o.listed <= ver <= o.until && CurrentAt(history, o.state, o.readAt) &&
    Looked(o.defaults, versions, ver, o.until) && o.defaults.Keys == versions[o.listed].Keys &&
    flags == Computed(history[o.state].slots, o.p, o.defaults)
  }

  /** The entry was computed and stored by the request `o` tells of. */
  ghost predicate EntryOk(ck: CacheKey, e: Entry, o: Origin, history: seq<Snapshot>, versions: seq<Table>) {
    ck == KeyOf(o.p, ck.ver) && ComesFrom(e.data, ck.ver, o, history, versions) && o.readAt <= e.at
  }

  /** Every entry has its origin, and `gaps` lists the time it took from
      reading the table to storing. */
  ghost predicate CacheSound(items: map<CacheKey, Entry>, origins: map<CacheKey, Origin>, history: seq<Snapshot>,
                             versions: seq<Table>, clock: int, gaps: seq<nat>) {
    forall ck :: ck in items ==>
      ck in origins && items[ck].at <= clock && items[ck].at - origins[ck].readAt in gaps &&
      EntryOk(ck, items[ck], origins[ck], history, versions)
  }

  // ----- What that means for the flags served -----

  /** Served flags are what the rule says over a table state and a registry
      exactly when no flag was new or gone since the keys were listed, and
      every default used that no override hides is still the registered one. */
  lemma FollowsRuleIff(slots: Slots, p: Principals, defaults: map<string, bool>, reg: Table)
    ensures Computed(slots, p, defaults) == Effective(slots, reg, p) <==>
            defaults.Keys == reg.Keys &&
            forall k :: k in defaults ==> Overridden(slots, p, k) || defaults[k] == DefaultIn(reg, k)
  {
    var a, b := Computed(slots, p, defaults), Effective(slots, reg, p);
    assert a.Keys == defaults.Keys && b.Keys == reg.Keys;
    forall k | k in defaults && k in reg
      ensures a[k] == b[k] <==> Overridden(slots, p, k) || defaults[k] == DefaultIn(reg, k)
    {
      DefaultMattersIff(slots, p, k, defaults[k], DefaultIn(reg, k));
    }
    hide Rule, Overridden;
  }

  /** The same for what a request is served. */
  lemma ServedFollowsRuleIff(flags: Flags, ver: nat, o: Origin, history: seq<Snapshot>, versions: seq<Table>, reg: Table)
    requires ComesFrom(flags, ver, o, history, versions)
    ensures flags == Effective(history[o.state].slots, reg, o.p) <==>
            versions[o.listed].Keys == reg.Keys &&
            forall k :: k in o.defaults ==> Overridden(history[o.state].slots, o.p, k) || o.defaults[k] == DefaultIn(reg, k)
  {
    hide Computed, FlagEvaluator.Effective, Overridden, WellFormed, Looked, DefaultIn;
    FollowsRuleIff(history[o.state].slots, o.p, o.defaults, reg);
  }

  /** When the registry does not change from listing the keys to the last
      lookup of a default, the flags are what the rule says over it. */
  lemma QuietRegistryFollowsRule(flags: Flags, ver: nat, o: Origin, history: seq<Snapshot>, versions: seq<Table>)
    requires ComesFrom(flags, ver, o, history, versions) && o.listed == o.until
    ensures ver == o.listed < |versions| && o.state < |history|
    ensures flags == Effective(history[o.state].slots, versions[ver], o.p)
    ensures forall k :: k in versions[ver] && !Overridden(history[o.state].slots, o.p, k) ==>
              k in flags && flags[k] == versions[ver][k].default
  {
    OneVersionLooked(o.defaults, versions, ver);
    hide Computed, FlagEvaluator.Effective, Overridden, WellFormed, Looked, DefaultIn;
    FollowsRuleIff(history[o.state].slots, o.p, o.defaults, versions[ver]);
    forall k | k in versions[ver] && !Overridden(history[o.state].slots, o.p, k)
      ensures k in flags && flags[k] == versions[ver][k].default
    {
      DefaultIsServed(history[o.state].slots, versions[ver], o.p, k);
    }
  }

  lemma DefaultIsServed(slots: Slots, reg: Table, p: Principals, k: string)
    requires k in reg && !Overridden(slots, p, k)
    ensures k in FlagEvaluator.Effective(slots, reg, p) && FlagEvaluator.Effective(slots, reg, p)[k] == reg[k].default
  {
    DefaultIsUsed(slots, reg, p, k);
  }

  lemma OneVersionLooked(defaults: map<string, bool>, versions: seq<Table>, ver: nat)
    requires Looked(defaults, versions, ver, ver)
    ensures forall k :: k in defaults ==> defaults[k] == DefaultIn(versions[ver], k)
  {
    forall k | k in defaults ensures defaults[k] == DefaultIn(versions[ver], k) {
      var w :| ver <= w <= ver && defaults[k] == DefaultIn(versions[w], k);
    }
  }

  /** State `h` was superseded at most `bound` before `now`, if at all. */
  predicate StaleAtMost(history: seq<Snapshot>, h: nat, now: int, bound: int) {
    h + 1 < |history| ==> now - history[h + 1].at <= bound
  }

  /** What a hit at `now` serves, from an entry stored at `at`, at most `ttl`
      before: the table state behind it was superseded at most `ttl` before
      `now`, and the time longer that the storing request took from reading
      the table to storing. More than `ttl` it is only if the state was
      superseded in that gap. */
  lemma ServedIsRecent(flags: Flags, ver: nat, o: Origin, at: int, now: int, ttl: int,
                       history: seq<Snapshot>, versions: seq<Table>)
    requires ComesFrom(flags, ver, o, history, versions) && o.readAt <= at && now - at <= ttl
    ensures StaleAtMost(history, o.state, now, ttl + (at - o.readAt))
    ensures StaleAtMost(history, o.state, now, ttl) || o.readAt <= history[o.state + 1].at < at
  {
  }

  /** For a hit under the current version: the flags are what the rule says
      over the registry as it is exactly when no flag was registered anew
      between the moments the storing request listed the keys and made its
      cache key. */
  lemma HitFollowsRuleIff(flags: Flags, ver: nat, o: Origin, history: seq<Snapshot>, versions: seq<Table>)
    requires ComesFrom(flags, ver, o, history, versions) && ver == |versions| - 1
    ensures flags == Effective(history[o.state].slots, versions[ver], o.p) <==>
            versions[o.listed].Keys == versions[ver].Keys
  {
    OneVersionLooked(o.defaults, versions, ver);
    hide Computed, FlagEvaluator.Effective, Overridden, WellFormed, Looked, DefaultIn;
    FollowsRuleIff(history[o.state].slots, o.p, o.defaults, versions[ver]);
  }

  // ----- Soundness is kept by whatever happens -----

  /** Histories and versions only grow. */
  ghost predicate Grows(history: seq<Snapshot>, history': seq<Snapshot>, versions: seq<Table>, versions': seq<Table>, clock: int) {
    versions <= versions' && (history' == history || exists s: Snapshot :: clock <= s.at && history' == history + [s])
  }

  lemma StillComesFrom(flags: Flags, ver: nat, o: Origin, history: seq<Snapshot>, history': seq<Snapshot>,
                       versions: seq<Table>, versions': seq<Table>, clock: int)
    requires ComesFrom(flags, ver, o, history, versions) && o.readAt <= clock
    requires Grows(history, history', versions, versions', clock)
    ensures ComesFrom(flags, ver, o, history', versions')
  {
    LookedLater(o.defaults, versions, versions', ver, o.until);
    hide Looked, Computed;
  }

  lemma LookedLater(defaults: map<string, bool>, versions: seq<Table>, versions': seq<Table>, from: nat, until: nat)
    requires Looked(defaults, versions, from, until) && versions <= versions'
    ensures Looked(defaults, versions', from, until)
  {
    forall k | k in defaults ensures exists w :: from <= w <= until && defaults[k] == DefaultIn(versions'[w], k) {
      var w :| from <= w <= until && defaults[k] == DefaultIn(versions[w], k);
      assert versions'[w] == versions[w];
    }
  }

  lemma CacheStillSound(items: map<CacheKey, Entry>, origins: map<CacheKey, Origin>, history: seq<Snapshot>,
                        history': seq<Snapshot>, versions: seq<Table>, versions': seq<Table>,
                        clock: int, clock': int, gaps: seq<nat>)
    requires CacheSound(items, origins, history, versions, clock, gaps) && clock <= clock'
    requires Grows(history, history', versions, versions', clock)
    ensures CacheSound(items, origins, history', versions', clock', gaps)
  {
    hide ComesFrom, Grows;
    forall ck | ck in items ensures EntryOk(ck, items[ck], origins[ck], history', versions') {
      StillComesFrom(items[ck].data, ck.ver, origins[ck], history, history', versions, versions', clock);
    }
  }

  /** An entry under the key of a request was computed for the same principals. */
  lemma EntryAnswers(ck: CacheKey, e: Entry, o: Origin, history: seq<Snapshot>, versions: seq<Table>, p: Principals)
    requires EntryOk(ck, e, o, history, versions) && WellFormed(p) && ck == KeyOf(p, ck.ver)
    ensures SamePrincipals(p, o.p) && ComesFrom(e.data, ck.ver, o.(p := p), history, versions)
  {
    KeysAgreeIff(p, o.p, ck.ver, ck.ver);
    SameComputed(history[o.state].slots, p, o.p, o.defaults);
    hide WellFormed, SamePrincipals, Looked, Computed, KeyOf;
  }

  lemma SameComputed(slots: Slots, p: Principals, q: Principals, defaults: map<string, bool>)
    requires SamePrincipals(p, q)
    ensures Computed(slots, p, defaults) == Computed(slots, q, defaults)
  {
    forall k | k in defaults ensures Rule(slots, p, k, defaults[k]) == Rule(slots, q, k, defaults[k]) {
      SamePrincipalsSameFlags(slots, p, q, k, defaults[k]);
    }
    hide Rule, SamePrincipals;
  }

  lemma StoringIsSound(items: map<CacheKey, Entry>, items': map<CacheKey, Entry>, origins: map<CacheKey, Origin>,
                       history: seq<Snapshot>, versions: seq<Table>, clock: int, gaps: seq<nat>,
                       ck: CacheKey, e: Entry, o: Origin)
    requires CacheSound(items, origins, history, versions, clock, gaps)
    requires o.readAt <= e.at <= clock && EntryOk(ck, e, o, history, versions)
    requires forall j :: j in items' ==> (j == ck && items'[j] == e) || (j != ck && j in items && items'[j] == items[j])
    ensures CacheSound(items', origins[ck := o], history, versions, clock, gaps + [e.at - o.readAt])
  {
    hide EntryOk;
  }

  // ----- The age of what is served, over a run -----

  /** A hit at `at` served flags computed over table state `state`. */
  datatype Seen = Seen(at: int, state: nat)

  /** Each hit served a table state superseded at most `ttl` and one of the gaps before. */
  ghost predicate Recent(seen: seq<Seen>, gaps: seq<nat>, history: seq<Snapshot>, ttl: int, clock: int) {
    forall h :: h in seen ==>
      h.state < |history| && h.at <= clock && exists g :: g in gaps && StaleAtMost(history, h.state, h.at, ttl + g)
  }

  lemma StillRecent(seen: seq<Seen>, gaps: seq<nat>, gaps': seq<nat>, history: seq<Snapshot>, history': seq<Snapshot>,
                    ttl: int, clock: int, clock': int)
    requires Recent(seen, gaps, history, ttl, clock) && clock <= clock' && gaps <= gaps' && ttl >= 0
    requires history' == history || exists s: Snapshot :: clock <= s.at && history' == history + [s]
    ensures Recent(seen, gaps', history', ttl, clock')
  {
    forall h | h in seen
      ensures h.state < |history'| && h.at <= clock' && exists g :: g in gaps' && StaleAtMost(history', h.state, h.at, ttl + g)
    {
      var g :| g in gaps && StaleAtMost(history, h.state, h.at, ttl + g);
      assert g in gaps' && StaleAtMost(history', h.state, h.at, ttl + g);
    }
  }

  lemma OneMoreHit(seen: seq<Seen>, gaps: seq<nat>, history: seq<Snapshot>, ttl: int, clock: int, h: Seen, g: nat)
    requires Recent(seen, gaps, history, ttl, clock) && h.state < |history| && h.at <= clock
    requires g in gaps && StaleAtMost(history, h.state, h.at, ttl + g)
    ensures Recent(seen + [h], gaps, history, ttl, clock)
  {
    hide StaleAtMost;
  }

  lemma HitsAreRecent(seen: seq<Seen>, gaps: seq<nat>, history: seq<Snapshot>, ttl: int, clock: int, gap: nat)
    requires Recent(seen, gaps, history, ttl, clock) && forall g :: g in gaps ==> g <= gap
    ensures forall h :: h in seen ==> StaleAtMost(history, h.state, h.at, ttl + gap)
  {
    forall h | h in seen ensures StaleAtMost(history, h.state, h.at, ttl + gap) {
      var g :| g in gaps && StaleAtMost(history, h.state, h.at, ttl + g);
    }
  }

  // ----- Requests under way -----

  /** How far a request has come, with its local variables. */
  datatype Flight =
    | Listed(p: Principals, keys: seq<string>, ghost listed: nat)
    | Keyed(p: Principals, keys: seq<string>, ck: CacheKey, ghost listed: nat)
    | Missed(p: Principals, keys: seq<string>, ck: CacheKey, ghost listed: nat)
    | Deciding(p: Principals, keys: seq<string>, ck: CacheKey, index: Index, next: nat, out: Flags,
               ghost overrides: seq<Override>, ghost origin: Origin)
    | Served(p: Principals, flags: Flags)

  ghost predicate KeysListed(p: Principals, keys: seq<string>, listed: nat, versions: seq<Table>) {
    WellFormed(p) && listed < |versions| && forall k :: k in keys <==> k in versions[listed]
  }

  ghost predicate KeyMade(p: Principals, ck: CacheKey, listed: nat, versions: seq<Table>) {
    ck == KeyOf(p, ck.ver) && listed <= ck.ver < |versions|
  }

  function AsSet(keys: seq<string>): set<string> {
    set k | k in keys
  }

  /** Deciding by these overrides follows the rule, whatever the defaults. */
  ghost predicate WillFollow(overrides: seq<Override>, slots: Slots, p: Principals, keys: seq<string>) {
    forall k, d :: k in keys ==> Decide(overrides, k, d) == Rule(slots, p, k, d)
  }

  /** What has been decided so far, over this state of the table. */
  ghost predicate Progress(f: Flight, slots: Slots, versions: seq<Table>)
    requires f.Deciding?
  {
    var o := f.origin;
    f.next <= |f.keys| && o.defaults.Keys == AsSet(f.keys[..f.next]) &&
    f.ck.ver <= o.until && Looked(o.defaults, versions, f.ck.ver, o.until) &&
    Indexes(f.index, f.overrides) && WillFollow(f.overrides, slots, f.p, f.keys) &&
    f.out == Computed(slots, f.p, o.defaults)
  }

  ghost predicate Halfway(f: Flight, history: seq<Snapshot>, versions: seq<Table>, clock: int)
    requires f.Deciding?
  {
    var o := f.origin;
    o.p == f.p && CurrentAt(history, o.state, o.readAt) && o.readAt <= clock &&
    Progress(f, history[o.state].slots, versions)
  }

  ghost predicate FlightOk(f: Flight, history: seq<Snapshot>, versions: seq<Table>, clock: int) {
    match f
    case Listed(p, keys, listed) => KeysListed(p, keys, listed, versions)
    case Keyed(p, keys, ck, listed) => KeysListed(p, keys, listed, versions) && KeyMade(p, ck, listed, versions)
    case Missed(p, keys, ck, listed) => KeysListed(p, keys, listed, versions) && KeyMade(p, ck, listed, versions)
    case Deciding(p, keys, ck, _, _, _, _, origin) =>
      KeysListed(p, keys, origin.listed, versions) && KeyMade(p, ck, origin.listed, versions) &&
      Halfway(f, history, versions, clock)
    case Served(_, _) => true
  }

  ghost predicate FlightsOk(flights: seq<Flight>, history: seq<Snapshot>, versions: seq<Table>, clock: int) {
    forall i :: 0 <= i < |flights| ==> FlightOk(flights[i], history, versions, clock)
  }

  lemma FlightStillOk(f: Flight, history: seq<Snapshot>, history': seq<Snapshot>, versions: seq<Table>,
                      versions': seq<Table>, clock: int, clock': int)
    requires FlightOk(f, history, versions, clock) && clock <= clock' && Grows(history, history', versions, versions', clock)
    ensures FlightOk(f, history', versions', clock')
  {
    hide Looked, Computed, WillFollow, Indexes, KeyOf, WellFormed, Grows;
    assert versions <= versions' by { GrowthIs(history, history', versions, versions', clock); }
    if f.Deciding? {
      HalfwayLater(f, history, history', versions, versions', clock, clock');
    }
  }

  lemma GrowthIs(history: seq<Snapshot>, history': seq<Snapshot>, versions: seq<Table>, versions': seq<Table>, clock: int)
    requires Grows(history, history', versions, versions', clock)
    ensures versions <= versions'
    ensures forall h, t :: CurrentAt(history, h, t) && t <= clock ==> CurrentAt(history', h, t) && history'[h] == history[h]
  {
  }

  lemma HalfwayLater(f: Flight, history: seq<Snapshot>, history': seq<Snapshot>, versions: seq<Table>,
                     versions': seq<Table>, clock: int, clock': int)
    requires f.Deciding? && Halfway(f, history, versions, clock)
    requires clock <= clock' && Grows(history, history', versions, versions', clock)
    ensures Halfway(f, history', versions', clock')
  {
    var o := f.origin;
    GrowthIs(history, history', versions, versions', clock);
    LookedLater(o.defaults, versions, versions', f.ck.ver, o.until);
    hide Looked, Computed, WillFollow, Indexes, Grows;
    assert Progress(f, history[o.state].slots, versions');
    hide Progress;
  }

  lemma FlightsStillOk(flights: seq<Flight>, history: seq<Snapshot>, history': seq<Snapshot>, versions: seq<Table>,
                       versions': seq<Table>, clock: int, clock': int)
    requires FlightsOk(flights, history, versions, clock) && clock <= clock' && Grows(history, history', versions, versions', clock)
    ensures FlightsOk(flights, history', versions', clock')
  {
    forall i | 0 <= i < |flights| ensures FlightOk(flights[i], history', versions', clock') {
      FlightStillOk(flights[i], history, history', versions, versions', clock, clock');
    }
  }

  /** After reading the overrides nothing is decided yet. */
  function Begun(f: Flight, index: Index, ghost overrides: seq<Override>, ghost state: nat, ghost readAt: int): Flight
    requires f.Missed?
  {
    Deciding(f.p, f.keys, f.ck, index, 0, map[], overrides, Origin(f.p, f.listed, state, readAt, map[], f.ck.ver))
  }

  lemma BegunIsOk(f: Flight, index: Index, rows: seq<Override>, overrides: seq<Override>, history: seq<Snapshot>,
                  versions: seq<Table>, clock: int)
    requires f.Missed? && FlightOk(f, history, versions, clock)
    requires WellKept(rows) && PlainGlobals(rows) && Answers(overrides, rows, f.keys, f.p) && Indexes(index, overrides)
    requires history != [] && history[|history| - 1] == Snapshot(history[|history| - 1].at, View(rows)) && history[|history| - 1].at <= clock
    ensures FlightOk(Begun(f, index, overrides, |history| - 1, clock), history, versions, clock)
  {
    hide View, WellKept, PlainGlobals, Answers, Indexes, WellFormed, KeyOf, WillFollow, Progress;
    RowsWillFollow(rows, f.keys, f.p, overrides);
    NothingDecided(f, index, overrides, View(rows), versions, |history| - 1, clock);
    assert CurrentAt(history, |history| - 1, clock);
  }

  lemma RowsWillFollow(rows: seq<Override>, keys: seq<string>, p: Principals, overrides: seq<Override>)
    requires WellKept(rows) && PlainGlobals(rows) && Answers(overrides, rows, keys, p)
    ensures WillFollow(overrides, View(rows), p, keys)
  {
    forall k, d | k in keys ensures Decide(overrides, k, d) == Rule(View(rows), p, k, d) {
      DecideIsPrecedence(rows, keys, p, overrides, k, d);
    }
  }

  lemma NothingDecided(f: Flight, index: Index, overrides: seq<Override>, slots: Slots, versions: seq<Table>,
                       state: nat, readAt: int)
    requires f.Missed? && f.ck.ver < |versions| && Indexes(index, overrides) && WillFollow(overrides, slots, f.p, f.keys)
    ensures Progress(Begun(f, index, overrides, state, readAt), slots, versions)
  {
    hide Indexes, WillFollow;
    assert f.keys[..0] == [];
    assert Computed(slots, f.p, map[]) == map[];
  }

  /** One more key decided with the default of the current registry. */
  function Decided(f: Flight, value: bool, ghost default: bool, ghost ver: nat): Flight
    requires f.Deciding? && f.next < |f.keys|
  {
    var k := f.keys[f.next];
    f.(next := f.next + 1, out := f.out[k := value],
       origin := f.origin.(defaults := f.origin.defaults[k := default], until := ver))
  }

  lemma DecidedIsOk(f: Flight, history: seq<Snapshot>, versions: seq<Table>, clock: int, value: bool, default: bool)
    requires f.Deciding? && f.next < |f.keys| && FlightOk(f, history, versions, clock)
    requires default == DefaultIn(versions[|versions| - 1], f.keys[f.next]) && value == Decide(f.overrides, f.keys[f.next], default)
    ensures FlightOk(Decided(f, value, default, |versions| - 1), history, versions, clock)
  {
    hide Progress;
    OneMoreDecided(f, history[f.origin.state].slots, versions, value, default);
    hide KeyOf, WellFormed;
  }

  lemma OneMoreDecided(f: Flight, slots: Slots, versions: seq<Table>, value: bool, default: bool)
    requires f.Deciding? && f.next < |f.keys| && Progress(f, slots, versions)
    requires default == DefaultIn(versions[|versions| - 1], f.keys[f.next]) && value == Decide(f.overrides, f.keys[f.next], default)
    ensures Progress(Decided(f, value, default, |versions| - 1), slots, versions)
  {
    var k, o := f.keys[f.next], f.origin;
    assert o.until < |versions|;
    hide Looked, Computed, Indexes, Decide, Rule, DefaultIn;
    assert f.keys[..f.next + 1] == f.keys[..f.next] + [k];
    assert o.defaults[k := default].Keys == AsSet(f.keys[..f.next + 1]);
    assert value == Rule(slots, f.p, k, default);
    hide WillFollow;
    LookedOnce(o.defaults, versions, f.ck.ver, o.until, k, default);
    ComputedOnce(slots, f.p, o.defaults, k, default);
  }

  lemma ComputedOnce(slots: Slots, p: Principals, defaults: map<string, bool>, k: string, default: bool)
    ensures Computed(slots, p, defaults[k := default]) == Computed(slots, p, defaults)[k := Rule(slots, p, k, default)]
  {
    hide Rule;
  }

  lemma LookedOnce(defaults: map<string, bool>, versions: seq<Table>, from: nat, until: nat, k: string, default: bool)
    requires Looked(defaults, versions, from, until) && from <= until && default == DefaultIn(versions[|versions| - 1], k)
    ensures Looked(defaults[k := default], versions, from, |versions| - 1)
  {
    var more, last := defaults[k := default], |versions| - 1;
    forall j | j in more ensures exists w :: from <= w <= last && more[j] == DefaultIn(versions[w], j) {
      if j == k {
        assert from <= last && more[j] == DefaultIn(versions[last], j);
      } else {
        var w :| from <= w <= until && defaults[j] == DefaultIn(versions[w], j);
        assert from <= w <= last && more[j] == DefaultIn(versions[w], j);
      }
    }
  }

  /** When every key is decided, the flags are ready to be stored and served. */
  lemma ReadyIsExplained(f: Flight, history: seq<Snapshot>, versions: seq<Table>, clock: int)
    requires f.Deciding? && f.next == |f.keys| && FlightOk(f, history, versions, clock)
    ensures ComesFrom(f.out, f.ck.ver, f.origin, history, versions) && f.origin.p == f.p && f.origin.readAt <= clock
  {
    assert f.keys[..f.next] == f.keys;
    hide Looked, Computed, WillFollow, Indexes, WellFormed, KeyOf;
    assert f.origin.defaults.Keys == versions[f.origin.listed].Keys;
  }

  /** What is known of a hit at `now` on an entry stored at `at` with origin `o`. */
  ghost predicate KnownHit(flags: Flags, f: Flight, o: Origin, at: int, now: int, ttl: int, gaps: seq<nat>,
                           history: seq<Snapshot>, versions: seq<Table>)
    requires f.Keyed?
  {
    SamePrincipals(f.p, o.p) && ComesFrom(flags, f.ck.ver, o.(p := f.p), history, versions) &&
    now - ttl <= at <= now && o.readAt <= at && at - o.readAt in gaps &&
    StaleAtMost(history, o.state, now, ttl + (at - o.readAt)) &&
    (f.ck.ver == |versions| - 1 ==>
      (flags == FlagEvaluator.Effective(history[o.state].slots, versions[f.ck.ver], f.p) <==>
       versions[o.listed].Keys == versions[f.ck.ver].Keys))
  }

  lemma KnownOfHit(flags: Flags, f: Flight, o: Origin, at: int, now: int, ttl: int, gaps: seq<nat>,
                   history: seq<Snapshot>, versions: seq<Table>)
    requires f.Keyed? && KnownHit(flags, f, o, at, now, ttl, gaps, history, versions)
    ensures ComesFrom(flags, f.ck.ver, o.(p := f.p), history, versions) && o.state < |history|
    ensures o.readAt <= at && StaleAtMost(history, o.state, now, ttl + (at - o.readAt))
  {
  }

  lemma HitExplained(e: Entry, f: Flight, o: Origin, ttl: int, gaps: seq<nat>, now: int,
                     history: seq<Snapshot>, versions: seq<Table>)
    requires f.Keyed? && WellFormed(f.p) && f.ck == KeyOf(f.p, f.ck.ver) && EntryOk(f.ck, e, o, history, versions)
    requires now - ttl <= e.at <= now && e.at - o.readAt in gaps
    ensures KnownHit(e.data, f, o, e.at, now, ttl, gaps, history, versions)
    ensures o.state < |history| && o.readAt <= e.at && StaleAtMost(history, o.state, now, ttl + (e.at - o.readAt))
  {
    EntryAnswers(f.ck, e, o, history, versions, f.p);
    var mine := o.(p := f.p);
    ServedIsRecent(e.data, f.ck.ver, mine, e.at, now, ttl, history, versions);
    if f.ck.ver == |versions| - 1 {
      HitFollowsRuleIff(e.data, f.ck.ver, mine, history, versions);
    }
    assert o.readAt <= e.at && o.listed < |versions| && o.state < |history|;
    hide ComesFrom, FlagEvaluator.Effective, WellFormed, SamePrincipals, KeyOf, EntryOk;
  }

  // ----- All that is known at a moment -----

  /** The notes kept of a run: how the entry last stored under a key was
      computed, the time each storing request took since it read the table,
      and the hits. */
  datatype Notes = Notes(origins: map<CacheKey, Origin>, gaps: seq<nat>, seen: seq<Seen>)

  ghost predicate Known(items: map<CacheKey, Entry>, n: Notes, ttl: int, flights: seq<Flight>, history: seq<Snapshot>,
                        versions: seq<Table>, clock: int)
  {
    CacheSound(items, n.origins, history, versions, clock, n.gaps) && Recent(n.seen, n.gaps, history, ttl, clock) &&
    FlightsOk(flights, history, versions, clock)
  }

  lemma KnownLater(items: map<CacheKey, Entry>, n: Notes, ttl: int, flights: seq<Flight>, history: seq<Snapshot>,
                   history': seq<Snapshot>, versions: seq<Table>, versions': seq<Table>, clock: int, clock': int)
    requires Known(items, n, ttl, flights, history, versions, clock) && clock <= clock' && ttl >= 0
    requires Grows(history, history', versions, versions', clock)
    ensures Known(items, n, ttl, flights, history', versions', clock')
  {
    CacheStillSound(items, n.origins, history, history', versions, versions', clock, clock', n.gaps);
    StillRecent(n.seen, n.gaps, n.gaps, history, history', ttl, clock, clock');
    FlightsStillOk(flights, history, history', versions, versions', clock, clock');
    hide CacheSound, Recent, FlightsOk;
  }

  /** The cache may lose entries and a request may go on. */
  lemma KnownAfter(items: map<CacheKey, Entry>, items': map<CacheKey, Entry>, n: Notes, ttl: int, flights: seq<Flight>,
                   i: nat, f: Flight, history: seq<Snapshot>, versions: seq<Table>, clock: int)
    requires Known(items, n, ttl, flights, history, versions, clock) && i <= |flights| && FlightOk(f, history, versions, clock)
    requires forall j :: j in items' ==> j in items && items'[j] == items[j]
    ensures Known(items', n, ttl, if i < |flights| then flights[i := f] else flights + [f], history, versions, clock)
  {
    RemovingIsSound(items, items', n.origins, history, versions, clock, n.gaps);
    hide CacheSound, Recent, FlightOk;
  }

  lemma KnownFlight(items: map<CacheKey, Entry>, n: Notes, ttl: int, flights: seq<Flight>, i: nat,
                    history: seq<Snapshot>, versions: seq<Table>, clock: int)
    requires Known(items, n, ttl, flights, history, versions, clock) && i < |flights|
    ensures FlightOk(flights[i], history, versions, clock)
  {
  }

  /** A live entry under the key of a request is a hit, and is noted as one. */
  lemma KnownAtHit(items: map<CacheKey, Entry>, n: Notes, ttl: int, flights: seq<Flight>, i: nat, history: seq<Snapshot>,
                   versions: seq<Table>, now: int)
    requires Known(items, n, ttl, flights, history, versions, now) && i < |flights| && flights[i].Keyed?
    requires flights[i].ck in items && now - items[flights[i].ck].at <= ttl
    ensures var f, e := flights[i], items[flights[i].ck];
            f.ck in n.origins && KnownHit(e.data, f, n.origins[f.ck], e.at, now, ttl, n.gaps, history, versions) &&
            Known(items, n.(seen := n.seen + [Seen(now, n.origins[f.ck].state)]), ttl, flights, history, versions, now)
  {
    var f, e := flights[i], items[flights[i].ck];
    var o := n.origins[f.ck];
    assert FlightOk(f, history, versions, now) && EntryOk(f.ck, e, o, history, versions);
    HitExplained(e, f, o, ttl, n.gaps, now, history, versions);
    OneMoreHit(n.seen, n.gaps, history, ttl, now, Seen(now, o.state), e.at - o.readAt);
    hide Recent, FlightOk, EntryOk, KnownHit, StaleAtMost;
  }

  /** A request that has decided all its keys stores, and is noted. */
  lemma KnownAtStore(items: map<CacheKey, Entry>, items': map<CacheKey, Entry>, n: Notes, ttl: int, flights: seq<Flight>,
                     i: nat, history: seq<Snapshot>, versions: seq<Table>, clock: int, now: int)
    requires Known(items, n, ttl, flights, history, versions, clock) && clock <= now && ttl >= 0
    requires i < |flights| && flights[i].Deciding? && flights[i].next == |flights[i].keys|
    requires var f := flights[i];
             forall j :: j in items' ==> (j == f.ck && items'[j] == Entry(now, f.out)) || (j != f.ck && j in items && items'[j] == items[j])
    ensures var f := flights[i];
            ComesFrom(f.out, f.ck.ver, f.origin, history, versions) && f.origin.p == f.p && f.origin.readAt <= clock &&
            Known(items', Notes(n.origins[f.ck := f.origin], n.gaps + [now - f.origin.readAt], n.seen), ttl,
                  flights[i := Served(f.p, f.out)], history, versions, now)
  {
    var f := flights[i];
    KnownFlight(items, n, ttl, flights, i, history, versions, clock);
    StoredIsOk(f, history, versions, clock, now);
    hide ComesFrom, EntryOk, FlightOk;
    KnownLater(items, n, ttl, flights, history, history, versions, versions, clock, now);
    StoringIsSound(items, items', n.origins, history, versions, now, n.gaps, f.ck, Entry(now, f.out), f.origin);
    StillRecent(n.seen, n.gaps, n.gaps + [now - f.origin.readAt], history, history, ttl, now, now);
    ServedIsOk(f.p, f.out, history, versions, now);
    hide CacheSound, Recent;
  }

  lemma StoredIsOk(f: Flight, history: seq<Snapshot>, versions: seq<Table>, clock: int, now: int)
    requires f.Deciding? && f.next == |f.keys| && FlightOk(f, history, versions, clock) && clock <= now
    ensures ComesFrom(f.out, f.ck.ver, f.origin, history, versions) && f.origin.p == f.p && f.origin.readAt <= clock
    ensures EntryOk(f.ck, Entry(now, f.out), f.origin, history, versions)
  {
    ReadyIsExplained(f, history, versions, clock);
    hide ComesFrom, KeyOf, WellFormed;
  }

  // ----- The service -----

  class Service {
    const cache: Lru
    const registry: Registry
    const table: OverrideTable
    var flights: seq<Flight>
    ghost var history: seq<Snapshot>
    ghost var clock: int
    ghost var notes: Notes

    ghost predicate TableKnown()
      reads this, table
    {
      table.Valid() && PlainGlobals(table.rows) && history != [] &&
      history[|history| - 1].slots == View(table.rows) && history[|history| - 1].at <= clock
    }

    ghost predicate Valid()
      reads this, cache, registry, table
    {
      cache.Valid() && registry.Valid() && cache.clock <= clock && cache.ttl >= 0 && TableKnown() &&
      Known(cache.items, notes, cache.ttl, flights, history, registry.versions, clock)
    }

    constructor (ttl: int, cap: int, ghost start: int)
      requires cap >= 0 && ttl >= 0
      ensures Valid() && fresh(cache) && fresh(registry) && fresh(table)
      ensures clock == start && history == [Snapshot(start, map[])] && flights == []
      ensures cache.ttl == ttl && cache.cap == cap && cache.items == map[] && cache.order == []
      ensures registry.registered == map[] && registry.regVer == 0 && table.rows == [] && notes == Notes(map[], [], [])
    {
      cache := new Lru(ttl, cap, start);
      registry := new Registry();
      table := new OverrideTable();
      flights, history, clock := [], [Snapshot(start, map[])], start;
      notes := Notes(map[], [], []);
    }

    method SetOverride(flag: string, kind: Kind, id: string, value: bool, now: int)
      requires Valid() && clock <= now && (kind.Global? ==> id == "")
      modifies this`history, this`clock, table
      ensures Valid() && clock == now
      ensures history == old(history) + [Snapshot(now, View(table.rows))]
      ensures View(table.rows) == View(old(table.rows))[Slot(flag, kind, id) := value]
    {
      hide Inv, Known, View, WellKept, PlainGlobals;
      table.SetOverride(flag, kind, id, value);
      TableChanged(now);
    }

    method DeleteOverride(flag: string, kind: Kind, id: string, now: int)
      requires Valid() && clock <= now
      modifies this`history, this`clock, table
      ensures Valid() && clock == now
      ensures history == old(history) + [Snapshot(now, View(table.rows))]
      ensures View(table.rows) == View(old(table.rows)) - {Slot(flag, kind, id)}
    {
      hide Inv, Known, View, WellKept, PlainGlobals;
      table.DeleteOverride(flag, kind, id);
      TableChanged(now);
    }

    /** Notes a changed table in the history. */
    ghost method TableChanged(now: int)
      requires cache.Valid() && registry.Valid() && cache.clock <= clock <= now && cache.ttl >= 0
      requires table.Valid() && PlainGlobals(table.rows)
      requires Known(cache.items, notes, cache.ttl, flights, history, registry.versions, clock)
      modifies this`history, this`clock
      ensures Valid() && clock == now && history == old(history) + [Snapshot(now, View(table.rows))]
    {
      hide Inv, Known, View, WellKept, PlainGlobals;
      var history' := history + [Snapshot(now, View(table.rows))];
      KnownLater(cache.items, notes, cache.ttl, flights, history, history', registry.versions, registry.versions, clock, now);
      history, clock := history', now;
    }

    method RegisterFlags(flags: seq<Flag>, devOrTest: bool) returns (panicked: bool)
      requires Valid()
      modifies registry
      ensures Valid() && old(registry.versions) <= registry.versions
      ensures Outcome(registry.registered, panicked) == Registered(old(registry.registered), flags, devOrTest)
    {
      hide Inv, Known, View, WellKept, PlainGlobals;
      label before:
      panicked := registry.RegisterFlags(flags, devOrTest);
      ghost var versions := old@before(registry.versions);
      KnownLater(cache.items, notes, cache.ttl, flights, history, history, versions, registry.versions, clock, clock);
    }

    /** A request arrives and lists the keys. */
    method Arrive(p: Principals) returns (i: nat)
      requires Valid() && WellFormed(p)
      modifies this`flights
      ensures Valid() && i == |old(flights)| && |flights| == i + 1 && flights[..i] == old(flights)
      ensures flights[i].Listed? && flights[i].p == p && flights[i].listed == registry.regVer
      ensures |flights[i].keys| == |registry.registered| && forall k :: k in flights[i].keys <==> k in registry.registered
    {
      hide Inv, Known, FlightOk, View, WellKept, PlainGlobals, WellFormed, KeyedByName, KeysGrow;
      var keys := registry.ListKeys();
      i := |flights|;
      ListedIsOk(p, keys, registry.regVer, history, registry.versions, clock);
      KnownAfter(cache.items, cache.items, notes, cache.ttl, flights, i, Listed(p, keys, registry.regVer), history, registry.versions, clock);
      flights := flights + [Listed(p, keys, registry.regVer)];
    }

    /** The request makes its cache key with the version of that moment. */
    method MakeKey(i: nat)
      requires Valid() && i < |flights| && flights[i].Listed?
      modifies this`flights
      ensures Valid()
      ensures var f := old(flights)[i];
              flights == old(flights)[i := Keyed(f.p, f.keys, KeyOf(f.p, registry.regVer), f.listed)]
    {
      hide Inv, Known, FlightOk, View, WellKept, PlainGlobals, WellFormed, KeyedByName, KeysGrow;
      var f := flights[i];
      var keyed := Keyed(f.p, f.keys, KeyOf(f.p, registry.regVer), f.listed);
      KnownFlight(cache.items, notes, cache.ttl, flights, i, history, registry.versions, clock);
      KeyedIsOk(f, registry.regVer, history, registry.versions, clock);
      KnownAfter(cache.items, cache.items, notes, cache.ttl, flights, i, keyed, history, registry.versions, clock);
      flights := flights[i := keyed];
    }

    /** The request looks in the cache, and is served on a hit. What it gets was
        stored at most one time to live ago, by a request for the same
        principals; the table state that one read was superseded at most the
        time to live ago and the time it took from reading to storing; and
        with the version unchanged since the key was made, it is what the rule
        says exactly if that one listed all keys of the version. */
    method Lookup(i: nat, now: int) returns (cached: Option<Flags>)
      requires Valid() && clock <= now && i < |flights| && flights[i].Keyed?
      modifies this`flights, this`clock, this`notes, cache
      ensures Valid() && clock == now
      ensures var f, items := old(flights)[i], old(cache.items);
              (cached.Some? <==> f.ck in items && now - items[f.ck].at <= cache.ttl) &&
              (cached.Some? ==>
                cached.value == items[f.ck].data && flights == old(flights)[i := Served(f.p, cached.value)] &&
                cache.items == items && f.ck in notes.origins &&
                notes == old(notes).(seen := old(notes).seen + [Seen(now, notes.origins[f.ck].state)]) &&
                KnownHit(cached.value, f, notes.origins[f.ck], items[f.ck].at, now, cache.ttl, notes.gaps, history,
                         registry.versions)) &&
              (cached.None? ==>
                flights == old(flights)[i := Missed(f.p, f.keys, f.ck, f.listed)] && cache.items == items - {f.ck} &&
                cache.order == RemoveFirst(old(cache.order), f.ck) && notes == old(notes))
    {
      hide Inv, Known, View, WellKept, PlainGlobals, WellFormed, KeyedByName, LastSet, RemoveFirst, KeyOf, KeysGrow, KnownHit, FlightOk;
      var f := flights[i];
      KnownLater(cache.items, notes, cache.ttl, flights, history, history, registry.versions, registry.versions, clock, now);
      if f.ck in cache.items && now - cache.items[f.ck].at <= cache.ttl {
        KnownAtHit(cache.items, notes, cache.ttl, flights, i, history, registry.versions, now);
        notes := notes.(seen := notes.seen + [Seen(now, notes.origins[f.ck].state)]);
      }
      KnownFlight(cache.items, notes, cache.ttl, flights, i, history, registry.versions, now);
      ghost var items := cache.items;
      cached := cache.Get(f.ck, now);
      clock := now;
      if cached.Some? {
        ServedIsOk(f.p, cached.value, history, registry.versions, now);
        KnownAfter(items, cache.items, notes, cache.ttl, flights, i, Served(f.p, cached.value), history, registry.versions, now);
        flights := flights[i := Served(f.p, cached.value)];
      } else {
        MissedIsOk(f, history, registry.versions, now);
        var missed := Missed(f.p, f.keys, f.ck, f.listed);
        KnownAfter(items, cache.items, notes, cache.ttl, flights, i, missed, history, registry.versions, now);
        flights := flights[i := missed];
      }
    }

    /** The request reads the overrides and indexes them. */
    method ReadOverrides(i: nat, now: int) returns (index: Index, ghost overrides: seq<Override>)
      requires Valid() && clock <= now && i < |flights| && flights[i].Missed?
      modifies this`flights, this`clock
      ensures Valid() && clock == now
      ensures flights == old(flights)[i := Begun(old(flights)[i], index, overrides, |history| - 1, now)]
    {
      hide Inv, Known, FlightOk, View, WellKept, PlainGlobals, WellFormed, KeyedByName, Indexes, Matches, KeysGrow;
      var f := flights[i];
      KnownLater(cache.items, notes, cache.ttl, flights, history, history, registry.versions, registry.versions, clock, now);
      KnownFlight(cache.items, notes, cache.ttl, flights, i, history, registry.versions, now);
      var rows := table.ListOverrides(f.keys, f.p);
      overrides := rows;
      index := IndexByKind(rows);
      BegunIsOk(f, index, table.rows, overrides, history, registry.versions, now);
      var begun := Begun(f, index, overrides, |history| - 1, now);
      KnownAfter(cache.items, cache.items, notes, cache.ttl, flights, i, begun, history, registry.versions, now);
      flights, clock := flights[i := begun], now;
    }

    /** The request decides its next key with the default of that moment. */
    method DecideNext(i: nat) returns (value: bool)
      requires Valid() && i < |flights| && flights[i].Deciding? && flights[i].next < |flights[i].keys|
      modifies this`flights
      ensures Valid()
      ensures var f := old(flights)[i];
              var default := DefaultIn(registry.registered, f.keys[f.next]);
              flights == old(flights)[i := Decided(f, value, default, registry.regVer)] &&
              (f.keys[f.next] in registry.registered ==> default == registry.registered[f.keys[f.next]].default)
    {
      hide Inv, Known, View, WellKept, PlainGlobals, WellFormed, KeyedByName, Indexes, Decide, Rule, KeyOf, KeysGrow, FlightOk;
      var f := flights[i];
      KnownFlight(cache.items, notes, cache.ttl, flights, i, history, registry.versions, clock);
      ghost var default := DefaultIn(registry.registered, f.keys[f.next]);
      IndexIsKnown(f, history, registry.versions, clock);
      value := DecideKey(f.index, f.overrides, f.keys[f.next], registry);
      DecidedIsOk(f, history, registry.versions, clock, value, default);
      var decided := Decided(f, value, default, registry.regVer);
      KnownAfter(cache.items, cache.items, notes, cache.ttl, flights, i, decided, history, registry.versions, clock);
      flights := flights[i := decided];
    }

    /** The request stores the decided flags and is served them. */
    method Store(i: nat, now: int) returns (flags: Flags)
      requires Valid() && clock <= now && i < |flights| && flights[i].Deciding? && flights[i].next == |flights[i].keys|
      modifies this`flights, this`clock, this`notes, cache
      ensures Valid() && clock == now
      ensures var f, n := old(flights)[i], old(notes);
              flags == f.out && flights == old(flights)[i := Served(f.p, flags)] &&
              ComesFrom(flags, f.ck.ver, f.origin, history, registry.versions) &&
              f.origin.p == f.p && f.origin.readAt <= old(clock) &&
              notes == Notes(n.origins[f.ck := f.origin], n.gaps + [now - f.origin.readAt], n.seen) &&
              (var queue, stored := RemoveFirst(old(cache.order), f.ck) + [f.ck], old(cache.items)[f.ck := Entry(now, flags)];
               cache.items == if |queue| <= cache.cap then stored else stored - {queue[0]})
    {
      hide Inv, Known, View, WellKept, PlainGlobals, WellFormed, KeyedByName, LastSet, RemoveFirst, KeyOf, KeysGrow, ComesFrom, FlightOk;
      var f := flights[i];
      ghost var items := cache.items;
      cache.Put(f.ck, f.out, now);
      KnownAtStore(items, cache.items, notes, cache.ttl, flights, i, history, registry.versions, clock, now);
      flags, clock := f.out, now;
      notes := Notes(notes.origins[f.ck := f.origin], notes.gaps + [now - f.origin.readAt], notes.seen);
      flights := flights[i := Served(f.p, flags)];
    }

    /** The request decides all its keys with nothing in between. */
    method DecideAll(i: nat)
      requires Valid() && i < |flights| && flights[i].Deciding? && flights[i].next <= |flights[i].keys|
      requires flights[i].origin.until == registry.regVer
      modifies this`flights
      ensures Valid() && i < |flights| && flights[i].Deciding? && flights[i].next == |flights[i].keys|
      ensures var f, g := old(flights)[i], flights[i];
              g.p == f.p && g.ck == f.ck &&
              g.origin == f.origin.(defaults := g.origin.defaults)
    {
      hide Valid;
      while flights[i].next < |flights[i].keys|
        invariant Valid() && i < |flights| && flights[i].Deciding? && flights[i].next <= |flights[i].keys|
        invariant flights[i].p == old(flights)[i].p && flights[i].ck == old(flights)[i].ck
        invariant flights[i].origin == old(flights)[i].origin.(defaults := flights[i].origin.defaults)
        decreases |flights[i].keys| - flights[i].next
      {
        var _ := DecideNext(i);
      }
    }

    /** One request with nothing in between: on a miss it is served what the
        rule says over the registry and the table as they are, on a hit what
        the rule says over a table state of the age every hit may have. */
    method Serve(p: Principals, now: int, later: int) returns (flags: Flags)
      requires Valid() && WellFormed(p) && clock <= now <= later
      modifies this`flights, this`clock, this`notes, cache
      ensures Valid() && now <= clock <= later
      ensures var ck, items := KeyOf(p, registry.regVer), old(cache.items);
              if ck in items && now - items[ck].at <= cache.ttl then
                flags == items[ck].data && notes.gaps == old(notes).gaps && ck in notes.origins &&
                ComesFrom(flags, ck.ver, notes.origins[ck].(p := p), history, registry.versions) &&
                StaleAtMost(history, notes.origins[ck].state, now, cache.ttl + (items[ck].at - notes.origins[ck].readAt))
              else
                flags == FlagEvaluator.Effective(View(table.rows), registry.registered, p) && clock == later &&
                notes.gaps == old(notes).gaps + [later - now] &&
                forall k :: k in registry.registered && !Overridden(View(table.rows), p, k) ==>
                  k in flags && flags[k] == registry.registered[k].default
    {
      hide Inv, Known, FlightOk, View, WellKept, PlainGlobals, WellFormed, KeyedByName, Indexes, KeysGrow;
      hide ComesFrom, FlagEvaluator.Effective, RemoveFirst, Sort, Join, KnownHit, Overridden;
      hide Valid;
      var i := Arrive(p);
      MakeKey(i);
      ghost var f, items := flights[i], cache.items;
      var cached := Lookup(i, now);
      if cached.Some? {
        KnownOfHit(cached.value, f, notes.origins[f.ck], items[f.ck].at, now, cache.ttl, notes.gaps, history, registry.versions);
        return cached.value;
      }
      flags := Finish(i, now, later);
    }

    /** What a request that missed does with nothing in between. */
    method Finish(i: nat, now: int, later: int) returns (flags: Flags)
      requires Valid() && clock <= now <= later && i < |flights| && flights[i].Missed?
      requires flights[i].listed == flights[i].ck.ver == registry.regVer
      modifies this`flights, this`clock, this`notes, cache
      ensures Valid() && clock == later && notes.gaps == old(notes).gaps + [later - now]
      ensures flags == FlagEvaluator.Effective(View(table.rows), registry.registered, old(flights)[i].p)
      ensures forall k :: k in registry.registered && !Overridden(View(table.rows), old(flights)[i].p, k) ==>
                k in flags && flags[k] == registry.registered[k].default
    {
      hide ComesFrom, FlagEvaluator.Effective, RemoveFirst, View, Overridden;
      Current();
      hide Valid;
      var _, _ := ReadOverrides(i, now);
      DecideAll(i);
      ghost var f := flights[i];
      flags := Store(i, later);
      QuietRegistryFollowsRule(flags, f.ck.ver, f.origin, history, registry.versions);
    }

    /** In every run, whatever happens in whatever order: if every request
        that stored did so at most `gap` after it read the table, every hit
        served a table state superseded at most `ttl + gap` before; at most
        `ttl` before, if none took any time. */
    lemma EveryHitIsRecent(gap: nat)
      requires Valid() && forall g :: g in notes.gaps ==> g <= gap
      ensures forall h :: h in notes.seen ==> StaleAtMost(history, h.state, h.at, cache.ttl + gap)
    {
      assert Known(cache.items, notes, cache.ttl, flights, history, registry.versions, clock);
      HitsAreRecent(notes.seen, notes.gaps, history, cache.ttl, clock, gap);
    }

    /** The last entries of the histories are the current ones. */
    lemma Current()
      requires Valid()
      ensures history != [] && history[|history| - 1].slots == View(table.rows)
      ensures |registry.versions| == registry.regVer + 1 && registry.versions[registry.regVer] == registry.registered
    {
    }
  }

  lemma IndexIsKnown(f: Flight, history: seq<Snapshot>, versions: seq<Table>, clock: int)
    requires f.Deciding? && FlightOk(f, history, versions, clock)
    ensures Indexes(f.index, f.overrides) && f.next <= |f.keys|
  {
  }

  lemma ListedIsOk(p: Principals, keys: seq<string>, ver: nat, history: seq<Snapshot>, versions: seq<Table>, clock: int)
    requires WellFormed(p) && ver < |versions| && forall k :: k in keys <==> k in versions[ver]
    ensures FlightOk(Listed(p, keys, ver), history, versions, clock)
  {
  }

  lemma KeyedIsOk(f: Flight, ver: nat, history: seq<Snapshot>, versions: seq<Table>, clock: int)
    requires f.Listed? && FlightOk(f, history, versions, clock) && ver == |versions| - 1
    ensures FlightOk(Keyed(f.p, f.keys, KeyOf(f.p, ver), f.listed), history, versions, clock)
  {
  }

  lemma MissedIsOk(f: Flight, history: seq<Snapshot>, versions: seq<Table>, clock: int)
    requires f.Keyed? && FlightOk(f, history, versions, clock)
    ensures FlightOk(Missed(f.p, f.keys, f.ck, f.listed), history, versions, clock)
  {
  }

  lemma ServedIsOk(p: Principals, flags: Flags, history: seq<Snapshot>, versions: seq<Table>, clock: int)
    ensures FlightOk(Served(p, flags), history, versions, clock)
  {
  }

  lemma RemovingIsSound(items: map<CacheKey, Entry>, items': map<CacheKey, Entry>, origins: map<CacheKey, Origin>,
                        history: seq<Snapshot>, versions: seq<Table>, clock: int, gaps: seq<nat>)
    requires CacheSound(items, origins, history, versions, clock, gaps)
    requires forall j :: j in items' ==> j in items && items'[j] == items[j]
    ensures CacheSound(items', origins, history, versions, clock, gaps)
  {
    hide EntryOk;
  }

  // ----- Two runs in which requests overlap with changes -----

  /** A request for the one registered flag, up to storing what it decided at time 0. */
  method DecideOne(s: Service, p: Principals, flag: string) returns (i: nat)
    requires s.Valid() && s.clock == 0 && WellFormed(p) && s.cache.items == map[] && s.cache.order == []
    requires s.registry.registered.Keys == {flag} && s.notes == Notes(map[], [], [])
    modifies s, s.cache
    ensures s.Valid() && s.clock == 0 && s.history == old(s.history) && s.cache.items == map[] && s.cache.order == []
    ensures s.notes == old(s.notes)
    ensures i < |s.flights| && s.flights[i].Deciding? && s.flights[i].next == |s.flights[i].keys|
    ensures s.flights[i].p == s.flights[i].origin.p == p && s.flights[i].ck == KeyOf(p, s.registry.regVer)
    ensures s.flights[i].origin.listed == s.flights[i].origin.until == s.registry.regVer
    ensures s.flights[i].origin.state == |s.history| - 1 && s.flights[i].origin.readAt == 0
  {
    hide Inv, Known, FlightOk, View, WellKept, PlainGlobals, WellFormed, KeyedByName, Indexes, KeysGrow, Sort, Join;
    i := s.Arrive(p);
    assert s.flights[i].keys == [flag] by {
      assert |s.registry.registered| == |s.registry.registered.Keys| == 1;
      assert s.flights[i].keys[0] in s.flights[i].keys;
    }
    s.MakeKey(i);
    var _ := s.Lookup(i, 0);
    var _, _ := s.ReadOverrides(i, 0);
    var _ := s.DecideNext(i);
  }

  /** A further request looks in the cache, with nothing in between. */
  method Ask(s: Service, p: Principals, now: int) returns (cached: Option<Flags>)
    requires s.Valid() && s.clock <= now && WellFormed(p)
    modifies s, s.cache
    ensures s.Valid() && s.history == old(s.history) && s.notes.gaps == old(s.notes).gaps
    ensures var ck, items := KeyOf(p, s.registry.regVer), old(s.cache.items);
            if ck in items && now - items[ck].at <= s.cache.ttl then
              cached == Some(items[ck].data) && ck in s.notes.origins && s.notes.origins == old(s.notes).origins &&
              s.notes.seen == old(s.notes).seen + [Seen(now, s.notes.origins[ck].state)]
            else cached == None
  {
    hide Service.Valid, KnownHit, Sort, Join, WellFormed;
    var i := s.Arrive(p);
    s.MakeKey(i);
    cached := s.Lookup(i, now);
  }

  /** A table state can be served for the time to live and the gap between
      read and store, all after it was superseded: a request reads the table
      at 0, an override is set at once, the request stores at `gap`, and another
      one hits its entry at `gap + ttl`. */
  method StaleRun(p: Principals, flag: string, ttl: nat, gap: nat)
    returns (hit: Option<Flags>, now: int, ghost history: seq<Snapshot>, ghost registered: Table, ghost notes: Notes)
    requires WellFormed(p) && flag != ""
    ensures notes.gaps == [gap] && notes.seen == [Seen(now, 0)]
    ensures now == ttl + gap && registered == map[flag := Flag(flag, "", false)]
    ensures |history| == 2 && history[1].at == 0 && history[1].slots == map[Slot(flag, Global, "") := true]
    ensures hit == Some(FlagEvaluator.Effective(history[0].slots, registered, p))
    ensures hit != Some(FlagEvaluator.Effective(history[1].slots, registered, p))
    ensures forall bound :: StaleAtMost(history, 0, now, bound) <==> ttl + gap <= bound
  {
    hide Inv, CacheSound, Recent, FlightOk, WellKept, PlainGlobals, WellFormed, KeyedByName, Indexes, KeysGrow, Sort, Join;
    hide ComesFrom, FlagEvaluator.Effective, KnownHit;
    var s := new Service(ttl, 1, 0);
    var _ := s.RegisterFlags([Flag(flag, "", false)], false);
    assert s.registry.registered == map[flag := Flag(flag, "", false)] by {
      assert [Flag(flag, "", false)][1..] == [];
    }
    var a := DecideOne(s, p, flag);
    s.SetOverride(flag, Global, "", true, 0);
    hide View;
    ghost var o := s.flights[a].origin;
    var stored := s.Store(a, gap);
    QuietRegistryFollowsRule(stored, s.registry.regVer, o, s.history, s.registry.versions);
    hit := Ask(s, p, gap + ttl);
    now, history, registered, notes := gap + ttl, s.history, s.registry.registered, s.notes;
    OverrideMatters(p, flag);
  }

  lemma OverrideMatters(p: Principals, flag: string)
    ensures var reg: Table, slots: Slots := map[flag := Flag(flag, "", false)], map[Slot(flag, Global, "") := true];
            FlagEvaluator.Effective(map[], reg, p) != FlagEvaluator.Effective(slots, reg, p)
  {
    var reg: Table, slots: Slots := map[flag := Flag(flag, "", false)], map[Slot(flag, Global, "") := true];
    assert !Rule(map[], p, flag, false) && Rule(slots, p, flag, false);
    assert flag in reg;
    assert !FlagEvaluator.Effective(map[], reg, p)[flag] && FlagEvaluator.Effective(slots, reg, p)[flag];
  }

  /** A flag registered between listing the keys and making the cache key is
      missing from what is stored under the new version, and so for others. */
  method IncompleteRun(p: Principals, flag: string) returns (hit: Option<Flags>, ghost registered: Table)
    requires WellFormed(p) && flag != ""
    ensures registered == map[flag := Flag(flag, "", true)] && hit == Some(map[])
  {
    hide Inv, Known, FlightOk, View, WellKept, PlainGlobals, WellFormed, KeyedByName, Indexes, KeysGrow, Sort, Join;
    hide ComesFrom, KnownHit;
    var s := new Service(0, 1, 0);
    var a := s.Arrive(p);
    assert s.flights[a].keys == [];
    var _ := s.RegisterFlags([Flag(flag, "", true)], false);
    assert s.registry.registered == map[flag := Flag(flag, "", true)] by {
      assert [Flag(flag, "", true)][1..] == [];
    }
    s.MakeKey(a);
    var _ := s.Lookup(a, 0);
    var _, _ := s.ReadOverrides(a, 0);
    var stored := s.Store(a, 0);
    assert stored == map[];
    hit := Ask(s, p, 0);
    registered := s.registry.registered;
  }
}
