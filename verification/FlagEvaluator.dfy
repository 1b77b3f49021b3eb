/** Turning overrides and defaults into the value of each flag. */
module FlagEvaluator {
  import opened Text
  import opened LruCache
  import opened FlagKeys
  import opened FlagRegistry
  import opened Overrides

  // ----- The rule -----

  function SlotValue(slots: Slots, s: Slot): Option<bool> {
    if s.id != "" && s in slots then Some(slots[s]) else None
  }

  /** A role of the request has an override for flag `k` with this value. */
  predicate SomeRoleSays(slots: Slots, p: Principals, k: string, value: bool) {
    exists r :: r in p.roles && SlotValue(slots, Slot(k, Role, r)) == Some(value)
  }

  /** user > any role true > tenant > global > default. */
  function Rule(slots: Slots, p: Principals, k: string, default: bool): bool {
    if p.user.Some? && SlotValue(slots, Slot(k, User, p.user.value)).Some? then
      SlotValue(slots, Slot(k, User, p.user.value)).value
    else if SomeRoleSays(slots, p, k, true) then true
    else if SomeRoleSays(slots, p, k, false) then false
    else if p.tenant.Some? && SlotValue(slots, Slot(k, Tenant, p.tenant.value)).Some? then
      SlotValue(slots, Slot(k, Tenant, p.tenant.value)).value
    else if Slot(k, Global, "") in slots then slots[Slot(k, Global, "")]
    else default
  }

  /** Some override applies, so that the default does not matter. */
  predicate Overridden(slots: Slots, p: Principals, k: string) {
    (p.user.Some? && SlotValue(slots, Slot(k, User, p.user.value)).Some?) ||
    SomeRoleSays(slots, p, k, true) || SomeRoleSays(slots, p, k, false) ||
    (p.tenant.Some? && SlotValue(slots, Slot(k, Tenant, p.tenant.value)).Some?) ||
    Slot(k, Global, "") in slots
  }

  lemma DefaultMattersIff(slots: Slots, p: Principals, k: string, a: bool, b: bool)
    ensures Rule(slots, p, k, a) == Rule(slots, p, k, b) <==> a == b || Overridden(slots, p, k)
  {
  }

  /** The default of a registered flag, and false for any other. */
  function DefaultIn(reg: Table, k: string): (r: bool)
    ensures k in reg ==> r == reg[k].default
  {
    k in reg && reg[k].default
  }

  function Precedence(slots: Slots, reg: Table, p: Principals, k: string): bool {
    Rule(slots, p, k, DefaultIn(reg, k))
  }

  function Effective(slots: Slots, reg: Table, p: Principals): Flags {
    map k | k in reg :: Precedence(slots, reg, p, k)
  }

  predicate Has(slots: Slots, k: string, kind: Kind, id: string, value: bool) {
    id != "" && Slot(k, kind, id) in slots && slots[Slot(k, kind, id)] == value
  }

  /** The value of a flag, kind by kind: an override for the user decides;
      without one, a role whose override is true makes it true, and roles whose
      overrides are all false make it false; then the tenant's override, then
      the global one, then the registered default. */
  lemma PrecedenceIs(slots: Slots, reg: Table, p: Principals, k: string)
    requires k in reg
    ensures var v := Effective(slots, reg, p)[k];
            var user := exists b, u :: p.user == Some(u) && Has(slots, k, User, u, b);
            var role := exists b, r :: r in p.roles && Has(slots, k, Role, r, b);
            var tenant := exists b, t :: p.tenant == Some(t) && Has(slots, k, Tenant, t, b);
            (forall u, b :: p.user == Some(u) && Has(slots, k, User, u, b) ==> v == b) &&
            (!user && (exists r :: r in p.roles && Has(slots, k, Role, r, true)) ==> v) &&
            (!user && role && (forall r :: r in p.roles ==> !Has(slots, k, Role, r, true)) ==> !v) &&
            (!user && !role ==> forall t, b :: p.tenant == Some(t) && Has(slots, k, Tenant, t, b) ==> v == b) &&
            (!user && !role && !tenant && Slot(k, Global, "") in slots ==> v == slots[Slot(k, Global, "")]) &&
            (!user && !role && !tenant && Slot(k, Global, "") !in slots ==> v == reg[k].default)
  {
    forall r, b ensures r in p.roles && Has(slots, k, Role, r, b) ==> SomeRoleSays(slots, p, k, b) {
      if r in p.roles && Has(slots, k, Role, r, b) {
        assert SlotValue(slots, Slot(k, Role, r)) == Some(b);
      }
    }
    forall b | SomeRoleSays(slots, p, k, b) ensures exists r :: r in p.roles && Has(slots, k, Role, r, b) {
      var r :| r in p.roles && SlotValue(slots, Slot(k, Role, r)) == Some(b);
      assert Has(slots, k, Role, r, b);
    }
    if p.user.Some? && SlotValue(slots, Slot(k, User, p.user.value)).Some? {
      assert Has(slots, k, User, p.user.value, SlotValue(slots, Slot(k, User, p.user.value)).value);
    }
    if p.tenant.Some? && SlotValue(slots, Slot(k, Tenant, p.tenant.value)).Some? {
      assert Has(slots, k, Tenant, p.tenant.value, SlotValue(slots, Slot(k, Tenant, p.tenant.value)).value);
    }
  }

  /** Where no override applies, the registered default is the value. */
  lemma DefaultIsUsed(slots: Slots, reg: Table, p: Principals, k: string)
    requires k in reg && !Overridden(slots, p, k)
    ensures Effective(slots, reg, p)[k] == reg[k].default
  {
  }

  /** The rule looks at a request's roles only as a set. */
  lemma SamePrincipalsSameFlags(slots: Slots, p: Principals, q: Principals, k: string, default: bool)
    requires SamePrincipals(p, q)
    ensures Rule(slots, p, k, default) == Rule(slots, q, k, default)
  {
    forall r ensures r in p.roles <==> r in q.roles {
      assert r in p.roles <==> r in multiset(p.roles);
      assert r in q.roles <==> r in multiset(q.roles);
    }
  }

  // ----- The rule on a list of overrides -----

  /** The value of the last override of this kind for `k`. */
  function LastOf(ovs: seq<Override>, kind: Kind, k: string): Option<bool> {
    if ovs == [] then None
    else
      var o := ovs[|ovs| - 1];
      if o.kind == kind && o.flag == k then Some(o.value) else LastOf(ovs[..|ovs| - 1], kind, k)
  }

  function RoleValues(ovs: seq<Override>, k: string): seq<bool> {
    if ovs == [] then []
    else
      var o := ovs[|ovs| - 1];
      RoleValues(ovs[..|ovs| - 1], k) + if o.kind.Role? && o.flag == k then [o.value] else []
  }

  function Decide(ovs: seq<Override>, k: string, default: bool): bool {
    if LastOf(ovs, User, k).Some? then LastOf(ovs, User, k).value
    else if RoleValues(ovs, k) != [] then true in RoleValues(ovs, k)
    else if LastOf(ovs, Tenant, k).Some? then LastOf(ovs, Tenant, k).value
    else if LastOf(ovs, Global, k).Some? then LastOf(ovs, Global, k).value
    else default
  }

  lemma {:induction false} LastOfIsSome(ovs: seq<Override>, kind: Kind, k: string)
    ensures LastOf(ovs, kind, k).Some? ==>
              exists o :: o in ovs && o.kind == kind && o.flag == k && o.value == LastOf(ovs, kind, k).value
    ensures LastOf(ovs, kind, k).None? ==> forall o :: o in ovs && o.kind == kind ==> o.flag != k
  {
    if ovs == [] {
    } else {
      LastOfIsSome(ovs[..|ovs| - 1], kind, k);
    }
  }

  lemma {:induction false} RoleValuesAre(ovs: seq<Override>, k: string, value: bool)
    ensures value in RoleValues(ovs, k) <==>
            exists o :: o in ovs && o.kind.Role? && o.flag == k && o.value == value
  {
    if ovs == [] {
    } else {
      var front, o := ovs[..|ovs| - 1], ovs[|ovs| - 1];
      RoleValuesAre(front, k, value);
      assert ovs == front + [o];
    }
  }

  ghost predicate Answers(ovs: seq<Override>, rows: seq<Override>, keys: seq<string>, p: Principals) {
    forall o :: o in ovs <==> o in rows && Matches(o, keys, p)
  }

  /** On the rows that apply to a request, whatever order they come in, the
      list rule is the rule on the table. */
  lemma DecideIsPrecedence(rows: seq<Override>, keys: seq<string>, p: Principals, ovs: seq<Override>,
                           k: string, default: bool)
    requires WellKept(rows) && PlainGlobals(rows) && Answers(ovs, rows, keys, p) && k in keys
    ensures Decide(ovs, k, default) == Rule(View(rows), p, k, default)
  {
    if p.user.Some? { SingleKind(rows, keys, p, ovs, k, User, p.user.value); }
    if p.tenant.Some? { SingleKind(rows, keys, p, ovs, k, Tenant, p.tenant.value); }
    if p.user.None? { NoneOfKind(rows, keys, p, ovs, k, User); }
    if p.tenant.None? { NoneOfKind(rows, keys, p, ovs, k, Tenant); }
    GlobalSays(rows, keys, p, ovs, k);
    RolesSay(rows, keys, p, ovs, k, true);
    RolesSay(rows, keys, p, ovs, k, false);
    hide Answers, WellKept, LastOf, RoleValues, SomeRoleSays;
    if RoleValues(ovs, k) != [] {
      assert if RoleValues(ovs, k)[0] then true in RoleValues(ovs, k) else false in RoleValues(ovs, k);
    }
  }

  lemma NoneOfKind(rows: seq<Override>, keys: seq<string>, p: Principals, ovs: seq<Override>, k: string, kind: Kind)
    requires Answers(ovs, rows, keys, p)
    requires (kind == User && p.user.None?) || (kind == Tenant && p.tenant.None?)
    ensures LastOf(ovs, kind, k).None?
  {
    LastOfIsSome(ovs, kind, k);
  }

  lemma GlobalSays(rows: seq<Override>, keys: seq<string>, p: Principals, ovs: seq<Override>, k: string)
    requires WellKept(rows) && PlainGlobals(rows) && Answers(ovs, rows, keys, p) && k in keys
    ensures var s := Slot(k, Global, "");
            LastOf(ovs, Global, k) == if s in View(rows) then Some(View(rows)[s]) else None
  {
    ViewIsView(rows);
    LastOfIsSome(ovs, Global, k);
    if Slot(k, Global, "") in View(rows) {
      var o :| o in rows && SlotOf(o) == Slot(k, Global, "");
      assert o in ovs;
    }
  }

  lemma SingleKind(rows: seq<Override>, keys: seq<string>, p: Principals, ovs: seq<Override>,
                   k: string, kind: Kind, id: string)
    requires WellKept(rows) && Answers(ovs, rows, keys, p) && k in keys
    requires (kind == User && p.user == Some(id)) || (kind == Tenant && p.tenant == Some(id))
    ensures LastOf(ovs, kind, k) == SlotValue(View(rows), Slot(k, kind, id))
  {
    ViewIsView(rows);
    LastOfIsSome(ovs, kind, k);
    if SlotValue(View(rows), Slot(k, kind, id)).Some? {
      var o :| o in rows && SlotOf(o) == Slot(k, kind, id);
      assert o in ovs;
    }
  }

  lemma RolesSay(rows: seq<Override>, keys: seq<string>, p: Principals, ovs: seq<Override>,
                 k: string, value: bool)
    requires WellKept(rows) && Answers(ovs, rows, keys, p) && k in keys
    ensures value in RoleValues(ovs, k) <==> SomeRoleSays(View(rows), p, k, value)
  {
    ViewIsView(rows);
    RoleValuesAre(ovs, k, value);
    if SomeRoleSays(View(rows), p, k, value) {
      var r :| r in p.roles && SlotValue(View(rows), Slot(k, Role, r)) == Some(value);
      var o :| o in rows && SlotOf(o) == Slot(k, Role, r);
      assert o in ovs;
    }
    if value in RoleValues(ovs, k) {
      var o :| o in ovs && o.kind.Role? && o.flag == k && o.value == value;
      assert SlotValue(View(rows), Slot(k, Role, o.pid.value)) == Some(value);
    }
  }

  /** A global override stored with a principal id applies to every request
      beside the plain one, and the row that is listed last wins. */
  lemma GlobalWithIdIsAmbiguous(flag: string, id: string, value: bool, default: bool)
    requires id != ""
    ensures var plain, odd := Override(flag, Global, None, value), Override(flag, Global, Some(id), !value);
            WellKept([plain, odd]) && WellKept([odd, plain]) && View([plain, odd]) == View([odd, plain]) &&
            (forall p :: Matches(plain, [flag], p) && Matches(odd, [flag], p)) &&
            Decide([plain, odd], flag, default) == !value && Decide([odd, plain], flag, default) == value
  {
    var plain, odd := Override(flag, Global, None, value), Override(flag, Global, Some(id), !value);
    TwoRows(plain, odd, flag, default);
    TwoRows(odd, plain, flag, default);
  }

  lemma TwoRows(a: Override, b: Override, flag: string, default: bool)
    requires a.kind == b.kind == Global && a.flag == b.flag == flag && SlotOf(a) != SlotOf(b)
    ensures View([a, b]) == map[SlotOf(a) := a.value, SlotOf(b) := b.value]
    ensures Decide([a, b], flag, default) == b.value
  {
    assert [a, b][..1] == [a] && [a][..0] == [];
    assert LastOf([a], User, flag) == LastOf([], User, flag) && LastOf([a], Tenant, flag) == LastOf([], Tenant, flag);
    assert RoleValues([a], flag) == RoleValues([], flag) == [];
    assert View([a]) == View([])[SlotOf(a) := a.value];
  }

  // ----- computeEffective -----

  lemma OneMore(ovs: seq<Override>, o: Override)
    ensures forall k, kind :: LastOf(ovs + [o], kind, k) ==
              if o.kind == kind && o.flag == k then Some(o.value) else LastOf(ovs, kind, k)
    ensures forall k :: RoleValues(ovs + [o], k) ==
              RoleValues(ovs, k) + if o.kind.Role? && o.flag == k then [o.value] else []
  {
    assert (ovs + [o])[..|ovs|] == ovs;
  }

  /** The four local maps of computeEffective. */
  datatype Index = Index(glob: map<string, bool>, ten: map<string, bool>, role: map<string, seq<bool>>, user: map<string, bool>)

  /** The index holds the last override of each kind and all role values. */
  ghost predicate Indexes(index: Index, overrides: seq<Override>) {
    forall k ::
      Indexed(index.glob, k) == LastOf(overrides, Global, k) && Indexed(index.ten, k) == LastOf(overrides, Tenant, k) &&
      Indexed(index.user, k) == LastOf(overrides, User, k) && IndexedRoles(index.role, k) == RoleValues(overrides, k)
  }

  /** Indexes the overrides by kind, then decides each key. */
  method ComputeEffective(keys: seq<string>, overrides: seq<Override>, registry: Registry) returns (out: Flags)
    ensures out.Keys == set k | k in keys
    ensures forall k :: k in keys ==> out[k] == Decide(overrides, k, registry.GetDefault(k).0)
  {
    var index := IndexByKind(overrides);
    hide Indexes, Decide;
    out := map[];
    for i := 0 to |keys|
      invariant out.Keys == set k | k in keys[..i]
      invariant forall k :: k in out ==> out[k] == Decide(overrides, k, registry.GetDefault(k).0)
    {
      assert keys[..i + 1] == keys[..i] + [keys[i]];
      var value := DecideKey(index, overrides, keys[i], registry);
      out := out[keys[i] := value];
    }
    assert keys[..|keys|] == keys;
  }

  /** The body of the deciding loop for one key. */
  method DecideKey(index: Index, ghost overrides: seq<Override>, k: string, registry: Registry) returns (value: bool)
    requires Indexes(index, overrides)
    ensures value == Decide(overrides, k, registry.GetDefault(k).0)
  {
    assert Indexed(index.user, k) == LastOf(overrides, User, k) && Indexed(index.ten, k) == LastOf(overrides, Tenant, k);
    assert Indexed(index.glob, k) == LastOf(overrides, Global, k);
    assert IndexedRoles(index.role, k) == RoleValues(overrides, k);
    hide LastOf, RoleValues, Indexes;
    if k in index.user {
      return index.user[k];
    }
    if k in index.role && |index.role[k]| > 0 {
      value := AnyTrue(index.role[k]);
      return;
    }
    if k in index.ten {
      return index.ten[k];
    }
    if k in index.glob {
      return index.glob[k];
    }
    return registry.GetDefault(k).0;
  }

  method IndexByKind(overrides: seq<Override>) returns (index: Index)
    ensures Indexes(index, overrides)
  {
    var glob: map<string, bool>, ten: map<string, bool>, user: map<string, bool> := map[], map[], map[];
    var role: map<string, seq<bool>> := map[];
    NothingIndexed();
    hide Indexes;
    for i := 0 to |overrides|
      invariant Indexes(Index(glob, ten, role, user), overrides[..i])
    {
      var o := overrides[i];
      assert overrides[..i + 1] == overrides[..i] + [o];
      OneMoreIndexed(Index(glob, ten, role, user), overrides[..i], o);
      match o.kind
      case Global => glob := glob[o.flag := o.value];
      case Tenant => ten := ten[o.flag := o.value];
      case Role => role := role[o.flag := (if o.flag in role then role[o.flag] else []) + [o.value]];
      case User => user := user[o.flag := o.value];
    }
    assert overrides[..|overrides|] == overrides;
    index := Index(glob, ten, role, user);
  }

  lemma NothingIndexed()
    ensures Indexes(Index(map[], map[], map[], map[]), [])
  {
  }

  lemma OneMoreIndexed(index: Index, overrides: seq<Override>, o: Override)
    requires Indexes(index, overrides)
    ensures o.kind.Global? ==> Indexes(index.(glob := index.glob[o.flag := o.value]), overrides + [o])
    ensures o.kind.Tenant? ==> Indexes(index.(ten := index.ten[o.flag := o.value]), overrides + [o])
    ensures o.kind.User? ==> Indexes(index.(user := index.user[o.flag := o.value]), overrides + [o])
    ensures o.kind.Role? ==>
              Indexes(index.(role := index.role[o.flag := IndexedRoles(index.role, o.flag) + [o.value]]), overrides + [o])
  {
    OneMore(overrides, o);
    hide LastOf, RoleValues;
  }

  function Indexed(m: map<string, bool>, k: string): Option<bool> {
    if k in m then Some(m[k]) else None
  }

  function IndexedRoles(m: map<string, seq<bool>>, k: string): seq<bool> {
    if k in m then m[k] else []
  }

  method AnyTrue(values: seq<bool>) returns (any: bool)
    ensures any <==> true in values
  {
    for i := 0 to |values|
      invariant true !in values[..i]
    {
      if values[i] { return true; }
    }
    return false;
  }
}
