/** Maps of open databases behind a read-write lock: look, lock, look again,
    open, store. Callers are threads whose steps interleave freely. */
module ConnectionMaps {
  import opened Text

  datatype Key = Domain(name: string) | Tenant(id: nat)

  /** An open database; `id` tells one opening from another. */
  datatype Handle = Handle(id: nat, path: string)

  /** A caller of getDB or GetTenantDB, or a CreateTenant that has inserted its tenant. */
  datatype Thread =
    | Looking(key: Key)
    | Missed(key: Key)
    | Locked(key: Key)
    | Opening(key: Key)
    | Opened(key: Key, h: Handle)
    | Returned(key: Key, h: Handle)
    | Failed(key: Key)
    | Creating(key: Key)
    | Created(key: Key, h: Handle)
    | Published(key: Key)

  /** `tenants` is the tenant table with each tenant's path; `writer` holds the write lock. */
  datatype State = State(
    dataDir: string,
    tenants: map<nat, string>,
    dbs: map<Key, Handle>,
    writer: Option<nat>,
    threads: seq<Thread>,
    openings: nat
  )

  function Init(dataDir: string, tenants: map<nat, string>): State {
    State(dataDir, tenants, map[], None, [], 0)
  }

  // ----- File names -----

  predicate Alphanumeric(c: char) {
    'a' <= c <= 'z' || 'A' <= c <= 'Z' || '0' <= c <= '9'
  }

  function Sanitize(domain: string): string {
    seq(|domain|, i requires 0 <= i < |domain| => if Alphanumeric(domain[i]) then domain[i] else '_')
  }

  function FileOf(dataDir: string, domain: string): string {
    dataDir + "/" + Sanitize(domain) + ".db"
  }

  /** A domain's file lies in the data directory: its letters and digits as
      they are, every other character an underscore. */
  lemma FileIsNamedAfterDomain(dataDir: string, domain: string) returns (safe: string)
    ensures FileOf(dataDir, domain) == dataDir + "/" + safe + ".db" && |safe| == |domain|
    ensures forall i :: 0 <= i < |domain| ==>
      var c := domain[i];
      safe[i] == if 'a' <= c <= 'z' || 'A' <= c <= 'Z' || '0' <= c <= '9' then c else '_'
  {
    safe := Sanitize(domain);
  }

  /** Two domains share a database file exactly when they differ only in
      characters that are neither letters nor digits. */
  lemma SharedFileIff(dataDir: string, a: string, b: string)
    ensures FileOf(dataDir, a) == FileOf(dataDir, b) <==>
            |a| == |b| && forall i :: 0 <= i < |a| ==> a[i] == b[i] || (!Alphanumeric(a[i]) && !Alphanumeric(b[i]))
  {
    if FileOf(dataDir, a) == FileOf(dataDir, b) {
      var n := |dataDir| + 1;
      assert |FileOf(dataDir, a)| == n + |a| + 3 && |FileOf(dataDir, b)| == n + |b| + 3;
      forall i | 0 <= i < |a| ensures a[i] == b[i] || (!Alphanumeric(a[i]) && !Alphanumeric(b[i])) {
        assert FileOf(dataDir, a)[n + i] == Sanitize(a)[i] && FileOf(dataDir, b)[n + i] == Sanitize(b)[i];
      }
    }
    if |a| == |b| && forall i :: 0 <= i < |a| ==> a[i] == b[i] || (!Alphanumeric(a[i]) && !Alphanumeric(b[i])) {
      assert Sanitize(a) == Sanitize(b);
    }
  }

  /** The path a key's database lives at; unknown tenants have none. */
  function PathOf(s: State, k: Key): Option<string> {
    match k
    case Domain(name) => Some(FileOf(s.dataDir, name))
    case Tenant(id) => if id in s.tenants then Some(s.tenants[id]) else None
  }

  // ----- Steps -----

  datatype Action =
    | Call(key: Key)
    | Look(i: nat)
    | Lock(i: nat)
    | LookAgain(i: nat)
    | Open(i: nat, ok: bool)       // opening, checking the schema or migrating may fail
    | Store(i: nat)
    | Insert(id: nat, path: string) // CreateTenant's new row
    | OpenNew(i: nat, ok: bool)
    | Publish(i: nat)              // CreateTenant locks, stores and unlocks

  predicate Enabled(s: State, a: Action) {
    match a
    case Call(_) => true
    case Look(i) => i < |s.threads| && s.threads[i].Looking? && s.writer.None?
    case Lock(i) => i < |s.threads| && s.threads[i].Missed? && s.writer.None?
    case LookAgain(i) => i < |s.threads| && s.threads[i].Locked?
    case Open(i, _) => i < |s.threads| && s.threads[i].Opening?
    case Store(i) => i < |s.threads| && s.threads[i].Opened?
    case Insert(id, _) => id !in s.tenants
    case OpenNew(i, _) => i < |s.threads| && s.threads[i].Creating?
    case Publish(i) => i < |s.threads| && s.threads[i].Created? && s.writer.None?
  }

  function Step(s: State, a: Action): State
    requires Enabled(s, a)
  {
    match a
    case Call(key) => s.(threads := s.threads + [Looking(key)])
    case Look(i) =>
      var k := s.threads[i].key;
      s.(threads := s.threads[i := if k in s.dbs then Returned(k, s.dbs[k]) else Missed(k)])
    case Lock(i) => s.(threads := s.threads[i := Locked(s.threads[i].key)], writer := Some(i))
    case LookAgain(i) =>
      var k := s.threads[i].key;
      if k in s.dbs then s.(threads := s.threads[i := Returned(k, s.dbs[k])], writer := None)
      else s.(threads := s.threads[i := Opening(k)])
    case Open(i, ok) =>
      var k := s.threads[i].key;
      if ok && PathOf(s, k).Some? then
        s.(threads := s.threads[i := Opened(k, Handle(s.openings, PathOf(s, k).value))], openings := s.openings + 1)
      else s.(threads := s.threads[i := Failed(k)], writer := None)
    case Store(i) =>
      var k, h := s.threads[i].key, s.threads[i].h;
      s.(threads := s.threads[i := Returned(k, h)], writer := None, dbs := s.dbs[k := h])
    case Insert(id, path) => s.(threads := s.threads + [Creating(Tenant(id))], tenants := s.tenants[id := path])
    case OpenNew(i, ok) =>
      var k := s.threads[i].key;
      if ok && PathOf(s, k).Some? then
        s.(threads := s.threads[i := Created(k, Handle(s.openings, PathOf(s, k).value))], openings := s.openings + 1)
      else s.(threads := s.threads[i := Failed(k)])
    case Publish(i) =>
      var k, h := s.threads[i].key, s.threads[i].h;
      s.(threads := s.threads[i := Published(k)], dbs := s.dbs[k := h])
  }

  ghost predicate Reaches(s: State, actions: seq<Action>, t: State)
    decreases |actions|
  {
    if actions == [] then s == t
    else Enabled(s, actions[0]) && Reaches(Step(s, actions[0]), actions[1..], t)
  }

  lemma NoStepsReach(s: State)
    ensures Reaches(s, [], s)
  {
  }

  lemma StepBefore(s: State, a: Action, next: State, rest: seq<Action>, t: State) returns (all: seq<Action>)
    requires Enabled(s, a) && Step(s, a) == next && Reaches(next, rest, t)
    ensures all == [a] + rest && Reaches(s, all, t)
  {
    all := [a] + rest;
    assert all[1..] == rest;
  }

  lemma {:induction false} RunsCompose(s: State, a: seq<Action>, m: State, b: seq<Action>, t: State)
    requires Reaches(s, a, m) && Reaches(m, b, t)
    ensures Reaches(s, a + b, t)
    decreases |a|
  {
    if a == [] {
      assert a + b == b;
    } else {
      RunsCompose(Step(s, a[0]), a[1..], m, b, t);
      assert (a + b)[1..] == a[1..] + b;
    }
  }

  // ----- One caller -----

  /** A caller of a stored key, undisturbed, looks once and gets the handle. */
  lemma StoredIsReturned(s: State, k: Key)
    requires s.writer.None? && k in s.dbs
    ensures var i := |s.threads|;
            Reaches(s, [Call(k), Look(i)], s.(threads := s.threads + [Returned(k, s.dbs[k])]))
  {
    hide Reaches;
    var i := |s.threads|;
    var s1, t := s.(threads := s.threads + [Looking(k)]), s.(threads := s.threads + [Returned(k, s.dbs[k])]);
    NoStepsReach(t);
    var actions := StepBefore(s1, Look(i), t, [], t);
    actions := StepBefore(s, Call(k), s1, actions, t);
    assert actions == [Call(k), Look(i)];
  }

  /** A caller of a key not stored, undisturbed, takes the lock and looks again before it opens. */
  lemma MissingIsLocked(s: State, k: Key, rest: seq<Action>, t: State)
    requires s.writer.None? && k !in s.dbs
    requires Reaches(s.(threads := s.threads + [Opening(k)], writer := Some(|s.threads|)), rest, t)
    ensures var i := |s.threads|;
            Reaches(s, [Call(k), Look(i), Lock(i), LookAgain(i)] + rest, t)
  {
    hide Reaches;
    var i := |s.threads|;
    var s1 := s.(threads := s.threads + [Looking(k)]);
    var s2 := s.(threads := s.threads + [Missed(k)]);
    var s3 := s.(threads := s.threads + [Locked(k)], writer := Some(i));
    var s4 := s3.(threads := s.threads + [Opening(k)]);
    var actions := StepBefore(s3, LookAgain(i), s4, rest, t);
    actions := StepBefore(s2, Lock(i), s3, actions, t);
    actions := StepBefore(s1, Look(i), s2, actions, t);
    actions := StepBefore(s, Call(k), s1, actions, t);
    assert actions == [Call(k), Look(i), Lock(i), LookAgain(i)] + rest;
  }

  /** If the opening succeeds, the caller gets what it opened, that is stored,
      and the lock is free again. */
  lemma OpenedIsStored(s: State, k: Key)
    requires s.writer.None? && k !in s.dbs && (k.Tenant? ==> k.id in s.tenants)
    ensures var i, h := |s.threads|, Handle(s.openings, if k.Domain? then FileOf(s.dataDir, k.name) else s.tenants[k.id]);
            Reaches(s, [Call(k), Look(i), Lock(i), LookAgain(i)] + [Open(i, true), Store(i)],
                    s.(threads := s.threads + [Returned(k, h)], dbs := s.dbs[k := h], openings := s.openings + 1))
  {
    hide Reaches, FileOf;
    var i, h := |s.threads|, Handle(s.openings, if k.Domain? then FileOf(s.dataDir, k.name) else s.tenants[k.id]);
    var s4 := s.(threads := s.threads + [Opening(k)], writer := Some(i));
    var s5 := s4.(threads := s.threads + [Opened(k, h)], openings := s.openings + 1);
    var t := s.(threads := s.threads + [Returned(k, h)], dbs := s.dbs[k := h], openings := s.openings + 1);
    NoStepsReach(t);
    var rest := StepBefore(s5, Store(i), t, [], t);
    rest := StepBefore(s4, Open(i, true), s5, rest, t);
    assert rest == [Open(i, true), Store(i)];
    MissingIsLocked(s, k, rest, t);
  }

  /** If it fails, or the tenant is unknown, the caller fails, nothing is
      stored, and the lock is free again. */
  lemma FailedIsNotStored(s: State, k: Key, ok: bool)
    requires s.writer.None? && k !in s.dbs
    requires !ok || (k.Tenant? && k.id !in s.tenants)
    ensures var i := |s.threads|;
            Reaches(s, [Call(k), Look(i), Lock(i), LookAgain(i)] + [Open(i, ok)], s.(threads := s.threads + [Failed(k)]))
  {
    hide Reaches, FileOf;
    var i := |s.threads|;
    var s4, t := s.(threads := s.threads + [Opening(k)], writer := Some(i)), s.(threads := s.threads + [Failed(k)]);
    NoStepsReach(t);
    var rest := StepBefore(s4, Open(i, ok), t, [], t);
    assert rest == [Open(i, ok)];
    MissingIsLocked(s, k, rest, t);
  }

  /** In every interleaving a domain's caller fails only if an opening does. */
  lemma {:induction false} OnlyOpeningFails(s: State, actions: seq<Action>, t: State, name: string)
    requires Reaches(s, actions, t)
    requires forall a :: a in actions && (a.Open? || a.OpenNew?) ==> a.ok
    requires forall i :: 0 <= i < |s.threads| ==> s.threads[i] != Failed(Domain(name))
    ensures forall i :: 0 <= i < |t.threads| ==> t.threads[i] != Failed(Domain(name))
    decreases |actions|
  {
    if actions == [] {
    } else {
      var a := actions[0];
      assert a in actions && forall b :: b in actions[1..] ==> b in actions;
      OnlyOpeningFails(Step(s, a), actions[1..], t, name);
    }
  }

  // ----- Every handle belongs to its key -----

  predicate Holds(t: Thread) {
    t.Locked? || t.Opening? || t.Opened?
  }

  ghost predicate Belongs(s: State, k: Key, h: Handle) {
    PathOf(s, k) == Some(h.path) && h.id < s.openings
  }

  ghost predicate ThreadOk(s: State, i: nat)
    requires i < |s.threads|
  {
    var t := s.threads[i];
    (Holds(t) <==> s.writer == Some(i)) &&
    (t.Opening? || t.Opened? ==> t.key !in s.dbs) &&
    (t.Opened? || t.Returned? || t.Created? ==> Belongs(s, t.key, t.h)) &&
    (t.Returned? || t.Published? ==> t.key in s.dbs) &&
    (t.Creating? || t.Created? || t.Published? ==> t.key.Tenant? && t.key.id in s.tenants)
  }

  ghost predicate Inv(s: State) {
    (s.writer.Some? ==> s.writer.value < |s.threads|) &&
    (forall i :: 0 <= i < |s.threads| ==> ThreadOk(s, i)) &&
    (forall k :: k in s.dbs ==> Belongs(s, k, s.dbs[k]))
  }

  lemma StepKeepsInv(s: State, a: Action)
    requires Inv(s) && Enabled(s, a)
    ensures Inv(Step(s, a))
  {
    var t := Step(s, a);
    BelongsLater(s, a);
    if !a.Call? && !a.Insert? { assert ThreadOk(s, a.i); }
    if a.Open? || a.OpenNew? { NewHandleBelongs(s, a); }
    hide Belongs, PathOf;
    forall i | 0 <= i < |t.threads| ensures ThreadOk(t, i) {
      if i < |s.threads| { assert ThreadOk(s, i); }
      if !a.Call? && !a.Insert? { assert ThreadOk(s, a.i); }
    }
  }

  lemma BelongsLater(s: State, a: Action)
    requires Enabled(s, a)
    ensures forall k, h :: Belongs(s, k, h) ==> Belongs(Step(s, a), k, h)
  {
  }

  lemma NewHandleBelongs(s: State, a: Action)
    requires Enabled(s, a) && (a.Open? || a.OpenNew?)
    ensures var k := s.threads[a.i].key;
            a.ok && PathOf(s, k).Some? ==> Belongs(Step(s, a), k, Handle(s.openings, PathOf(s, k).value))
  {
  }

  lemma {:induction false} ReachableHolds(s: State, actions: seq<Action>, t: State)
    requires Inv(s) && Reaches(s, actions, t)
    ensures Inv(t)
    decreases |actions|
  {
    if actions == [] {
    } else {
      StepKeepsInv(s, actions[0]);
      ReachableHolds(Step(s, actions[0]), actions[1..], t);
    }
  }

  /** In every interleaving, with tenants being created as well, the stored
      handle of a key and every handle handed out for it are open on that key's path. */
  lemma HandlesBelong(dataDir: string, tenants: map<nat, string>, actions: seq<Action>, t: State, k: Key)
    requires Reaches(Init(dataDir, tenants), actions, t)
    ensures k in t.dbs ==> PathOf(t, k) == Some(t.dbs[k].path)
    ensures forall i :: 0 <= i < |t.threads| && t.threads[i].Returned? ==> PathOf(t, t.threads[i].key) == Some(t.threads[i].h.path)
    ensures forall i, j :: 0 <= i < j < |t.threads| && Holds(t.threads[i]) ==> !Holds(t.threads[j])
  {
    ReachableHolds(Init(dataDir, tenants), actions, t);
    forall i | 0 <= i < |t.threads| && t.threads[i].Returned?
      ensures PathOf(t, t.threads[i].key) == Some(t.threads[i].h.path)
    {
      assert ThreadOk(t, i);
    }
    forall i, j | 0 <= i < j < |t.threads| && Holds(t.threads[i]) ensures !Holds(t.threads[j]) {
      assert ThreadOk(t, i) && ThreadOk(t, j);
    }
  }

  // ----- One handle per key, unless CreateTenant publishes it -----

  /** Every caller that got a handle for `k` got the stored one. */
  ghost predicate Settled(s: State, k: Key) {
    forall i :: 0 <= i < |s.threads| && s.threads[i].Returned? && s.threads[i].key == k ==>
      k in s.dbs && s.threads[i].h == s.dbs[k]
  }

  predicate Publishes(s: State, a: Action, k: Key) {
    a.Publish? && a.i < |s.threads| && s.threads[a.i].key == k
  }

  ghost predicate NeverPublishes(s: State, actions: seq<Action>, k: Key)
    decreases |actions|
  {
    actions == [] ||
    (!Publishes(s, actions[0], k) && (Enabled(s, actions[0]) ==> NeverPublishes(Step(s, actions[0]), actions[1..], k)))
  }

  /** A stored handle is replaced by no step but CreateTenant's own, and as
      long as there is none of those all callers agree with the map. */
  lemma StepKeepsSettled(s: State, a: Action, k: Key)
    requires Inv(s) && Enabled(s, a) && Settled(s, k) && !Publishes(s, a, k)
    ensures k in s.dbs ==> k in Step(s, a).dbs && Step(s, a).dbs[k] == s.dbs[k]
    ensures Settled(Step(s, a), k)
  {
    if a.Store? { assert ThreadOk(s, a.i); }
    if a.Look? || a.LookAgain? { assert ThreadOk(s, a.i); }
    var t := Step(s, a);
    forall i | 0 <= i < |t.threads| && t.threads[i].Returned? && t.threads[i].key == k
      ensures k in t.dbs && t.threads[i].h == t.dbs[k]
    {
      if i < |s.threads| && t.threads[i] == s.threads[i] { assert ThreadOk(s, i); }
    }
  }

  /** In every interleaving in which CreateTenant does not publish `k` (and
      for a domain it never does), the first stored handle of `k` stays, and
      every successful caller gets that one. */
  lemma {:induction false} OneHandlePerKey(s: State, actions: seq<Action>, t: State, k: Key)
    requires Inv(s) && Settled(s, k) && Reaches(s, actions, t) && NeverPublishes(s, actions, k)
    ensures k in s.dbs ==> k in t.dbs && t.dbs[k] == s.dbs[k]
    ensures Settled(t, k)
    decreases |actions|
  {
    if actions == [] {
    } else {
      StepKeepsInv(s, actions[0]);
      StepKeepsSettled(s, actions[0], k);
      OneHandlePerKey(Step(s, actions[0]), actions[1..], t, k);
    }
  }

  lemma {:induction false} DomainsAreNeverPublished(s: State, actions: seq<Action>, t: State, name: string)
    requires Inv(s) && Reaches(s, actions, t)
    ensures NeverPublishes(s, actions, Domain(name))
    decreases |actions|
  {
    if actions == [] {
    } else {
      if actions[0].Publish? { assert ThreadOk(s, actions[0].i); }
      StepKeepsInv(s, actions[0]);
      DomainsAreNeverPublished(Step(s, actions[0]), actions[1..], t, name);
    }
  }

  /** For a domain: however callers interleave, all that succeed get the same
      handle, and it is the one stored. */
  lemma DomainCallersAgree(dataDir: string, tenants: map<nat, string>, actions: seq<Action>, t: State, name: string, i: nat, j: nat)
    requires Reaches(Init(dataDir, tenants), actions, t) && i < |t.threads| && j < |t.threads|
    requires t.threads[i].Returned? && t.threads[i].key == Domain(name)
    requires t.threads[j].Returned? && t.threads[j].key == Domain(name)
    ensures Domain(name) in t.dbs && t.threads[i].h == t.threads[j].h == t.dbs[Domain(name)]
  {
    var s := Init(dataDir, tenants);
    DomainsAreNeverPublished(s, actions, t, name);
    OneHandlePerKey(s, actions, t, Domain(name));
  }

  // ----- A published handle always replaces -----

  /** A handle that was opened and not stored yet. */
  predicate Loose(t: Thread) {
    t.Opened? || t.Created?
  }

  /** The opening `id` is over: no thread holds it to store it. */
  ghost predicate Spent(s: State, id: nat) {
    id < s.openings && forall i :: 0 <= i < |s.threads| && Loose(s.threads[i]) ==> s.threads[i].h.id != id
  }

  /** Every opening is stored at most once. */
  ghost predicate Apart(s: State) {
    LooseApart(s) && forall k :: k in s.dbs ==> Spent(s, s.dbs[k].id)
  }

  lemma StaysSpent(s: State, a: Action, id: nat)
    requires Enabled(s, a) && Spent(s, id)
    ensures Spent(Step(s, a), id)
  {
  }

  lemma LooseIdsAreBelow(s: State)
    requires Inv(s)
    ensures forall i :: 0 <= i < |s.threads| && Loose(s.threads[i]) ==> s.threads[i].h.id < s.openings
  {
    forall i | 0 <= i < |s.threads| && Loose(s.threads[i]) ensures s.threads[i].h.id < s.openings {
      assert ThreadOk(s, i);
    }
  }

  ghost predicate LooseApart(s: State) {
    forall i, j :: 0 <= i < j < |s.threads| && Loose(s.threads[i]) && Loose(s.threads[j]) ==>
      s.threads[i].h.id != s.threads[j].h.id
  }

  lemma StepKeepsLooseApart(s: State, a: Action)
    requires LooseApart(s) && Enabled(s, a)
    requires forall i :: 0 <= i < |s.threads| && Loose(s.threads[i]) ==> s.threads[i].h.id < s.openings
    ensures LooseApart(Step(s, a))
  {
    hide PathOf, FileOf;
  }

  lemma StepKeepsSpent(s: State, a: Action)
    requires LooseApart(s) && (forall k :: k in s.dbs ==> Spent(s, s.dbs[k].id)) && Enabled(s, a)
    requires forall i :: 0 <= i < |s.threads| && Loose(s.threads[i]) ==> s.threads[i].h.id < s.openings
    ensures forall k :: k in Step(s, a).dbs ==> Spent(Step(s, a), Step(s, a).dbs[k].id)
  {
    var t := Step(s, a);
    hide PathOf, FileOf;
    forall k | k in t.dbs ensures Spent(t, t.dbs[k].id) {
      if k in s.dbs && t.dbs[k] == s.dbs[k] {
        StaysSpent(s, a, t.dbs[k].id);
        hide Step, Spent;
      }
    }
  }

  lemma StepKeepsApart(s: State, a: Action)
    requires Inv(s) && Apart(s) && Enabled(s, a)
    ensures Apart(Step(s, a))
  {
    LooseIdsAreBelow(s);
    hide Inv, PathOf, FileOf, Step, Enabled, Spent;
    StepKeepsLooseApart(s, a);
    StepKeepsSpent(s, a);
  }

  /** Of all steps, exactly CreateTenant's publication of a key replaces the
      handle already stored for it. */
  lemma StepReplacesIff(s: State, a: Action, k: Key)
    requires Inv(s) && Apart(s) && Enabled(s, a) && k in s.dbs
    ensures k in Step(s, a).dbs && (Step(s, a).dbs[k] != s.dbs[k] <==> Publishes(s, a, k))
  {
    assert Spent(s, s.dbs[k].id);
    if a.Store? { assert ThreadOk(s, a.i); }
  }

  lemma {:induction false} NeverStoredAgain(s: State, actions: seq<Action>, t: State, k: Key, id: nat)
    requires Inv(s) && Apart(s) && Reaches(s, actions, t) && Spent(s, id)
    requires k in s.dbs && s.dbs[k].id != id
    ensures k in t.dbs && t.dbs[k].id != id
    decreases |actions|
  {
    if actions == [] {
    } else {
      StepKeepsInv(s, actions[0]);
      StepKeepsApart(s, actions[0]);
      StaysSpent(s, actions[0], id);
      NeverStoredAgain(Step(s, actions[0]), actions[1..], t, k, id);
    }
  }

  /** Over every run, the handle stored for a key is still the same at the end
      exactly when CreateTenant did not publish that key. */
  lemma {:induction false} ReplacedIffPublished(s: State, actions: seq<Action>, t: State, k: Key)
    requires Inv(s) && Apart(s) && Reaches(s, actions, t) && k in s.dbs
    ensures k in t.dbs && (t.dbs[k] == s.dbs[k] <==> NeverPublishes(s, actions, k))
    decreases |actions|
  {
    if actions == [] {
    } else {
      var a := actions[0];
      StepKeepsInv(s, a);
      StepKeepsApart(s, a);
      StepReplacesIff(s, a, k);
      if Publishes(s, a, k) {
        assert Spent(s, s.dbs[k].id);
        StaysSpent(s, a, s.dbs[k].id);
        NeverStoredAgain(Step(s, a), actions[1..], t, k, s.dbs[k].id);
      } else {
        ReplacedIffPublished(Step(s, a), actions[1..], t, k);
      }
    }
  }

  lemma InitIsApart(dataDir: string, tenants: map<nat, string>)
    ensures Inv(Init(dataDir, tenants)) && Apart(Init(dataDir, tenants))
  {
  }

  lemma {:induction false} ReachableIsApart(s: State, actions: seq<Action>, t: State)
    requires Inv(s) && Apart(s) && Reaches(s, actions, t)
    ensures Inv(t) && Apart(t)
    decreases |actions|
  {
    if actions == [] {
    } else {
      StepKeepsInv(s, actions[0]);
      StepKeepsApart(s, actions[0]);
      ReachableIsApart(Step(s, actions[0]), actions[1..], t);
    }
  }

  /** From the start: once stored, a handle is kept through any further steps
      exactly when none of them publishes its key. */
  lemma KeptUnlessPublished(dataDir: string, tenants: map<nat, string>, first: seq<Action>, s: State,
                            further: seq<Action>, t: State, k: Key)
    requires Reaches(Init(dataDir, tenants), first, s) && k in s.dbs && Reaches(s, further, t)
    ensures k in t.dbs && (t.dbs[k] == s.dbs[k] <==> NeverPublishes(s, further, k))
  {
    InitIsApart(dataDir, tenants);
    ReachableIsApart(Init(dataDir, tenants), first, s);
    ReplacedIffPublished(s, further, t, k);
  }

  /** For a tenant being created the stored handle can be replaced: a caller
      that gets in between keeps a second one on the same path. */
  lemma CreateTenantCanReplace(path: string) returns (actions: seq<Action>, t: State)
    ensures Reaches(Init("data", map[]), actions, t)
    ensures t.threads == [Published(Tenant(7)), Returned(Tenant(7), Handle(0, path))]
    ensures t.dbs == map[Tenant(7) := Handle(1, path)]
  {
    hide Reaches;
    var k := Tenant(7);
    var s0 := Init("data", map[]);
    var s1 := s0.(threads := [Creating(k)], tenants := map[7 := path]);
    var h0, h1 := Handle(0, path), Handle(1, path);
    var s2 := s1.(threads := [Creating(k), Returned(k, h0)], openings := 1, dbs := map[k := h0]);
    var s3 := s2.(threads := [Created(k, h1), Returned(k, h0)], openings := 2);
    t := s3.(threads := [Published(k), Returned(k, h0)], dbs := map[k := h1]);
    NoStepsReach(t);
    actions := StepBefore(s3, Publish(0), t, [], t);
    actions := StepBefore(s2, OpenNew(0, true), s3, actions, t);
    OpenedIsStored(s1, k);
    assert s2 == s1.(threads := s1.threads + [Returned(k, h0)], dbs := s1.dbs[k := h0], openings := 1);
    var opening := [Call(k), Look(1), Lock(1), LookAgain(1)] + [Open(1, true), Store(1)];
    assert Reaches(s1, opening, s2);
    RunsCompose(s1, opening, s2, actions, t);
    actions := StepBefore(s0, Insert(7, path), s1, opening + actions, t);
  }
}
