/** The cache key of a request: user, tenant, the sorted and joined roles, and
    the registry version. */
module FlagKeys {
  import opened Text
  import opened LruCache

  /** Who a request acts for. An absent user or tenant is None. */
  datatype Principals = Principals(user: Option<string>, tenant: Option<string>, roles: seq<string>)

  /** Identifiers are non-empty, and role names are non-empty and comma-free. */
  predicate WellFormed(p: Principals) {
    p.user != Some("") && p.tenant != Some("") &&
    forall r :: r in p.roles ==> r != "" && ',' !in r
  }

  // ----- sort.Strings -----

  /** Lexicographic order, a proper prefix first. */
  predicate Leq(a: string, b: string) {
    a == "" || (b != "" && (a[0] < b[0] || (a[0] == b[0] && Leq(a[1..], b[1..]))))
  }

  lemma {:induction false} LeqTotalOrder(a: string, b: string, c: string)
    ensures Leq(a, b) || Leq(b, a)
    ensures Leq(a, b) && Leq(b, a) ==> a == b
    ensures Leq(a, b) && Leq(b, c) ==> Leq(a, c)
  {
    if a != "" && b != "" {
      LeqTotalOrder(a[1..], b[1..], if c == "" then "" else c[1..]);
      assert a == [a[0]] + a[1..] && b == [b[0]] + b[1..];
    }
  }

  predicate Sorted(s: seq<string>) {
    forall i, j :: 0 <= i < j < |s| ==> Leq(s[i], s[j])
  }

  function Insert(x: string, s: seq<string>): (r: seq<string>)
    requires Sorted(s)
    ensures Sorted(r) && multiset(r) == multiset(s) + multiset{x}
  {
    if s == [] then [x]
    else
      assert s == [s[0]] + s[1..];
      if Leq(x, s[0]) then
        ConsSorted(x, s);
        [x] + s
      else
        var rest := Insert(x, s[1..]);
        InsertedAfterHead(x, s, rest);
        [s[0]] + rest
  }

  lemma ConsSorted(x: string, s: seq<string>)
    requires Sorted(s) && (s == [] || Leq(x, s[0]))
    ensures Sorted([x] + s)
  {
    forall j | 0 <= j < |s| ensures Leq(x, s[j]) {
      LeqTotalOrder(x, s[0], s[j]);
    }
  }

  lemma InsertedAfterHead(x: string, s: seq<string>, rest: seq<string>)
    requires Sorted(s) && s != [] && !Leq(x, s[0])
    requires Sorted(rest) && multiset(rest) == multiset(s[1..]) + multiset{x}
    ensures Sorted([s[0]] + rest)
  {
    LeqTotalOrder(x, s[0], x);
    if rest != [] {
      assert rest[0] in multiset(rest);
      assert rest[0] == x || rest[0] in s[1..];
    }
    ConsSorted(s[0], rest);
  }

  function Sort(s: seq<string>): (r: seq<string>)
    ensures Sorted(r) && multiset(r) == multiset(s)
  {
    if s == [] then []
    else
      assert s == [s[0]] + s[1..];
      Insert(s[0], Sort(s[1..]))
  }

  lemma HeadIsLeast(s: seq<string>, x: string)
    requires Sorted(s) && x in multiset(s)
    ensures Leq(s[0], x)
  {
    var i :| 0 <= i < |s| && s[i] == x;
    LeqTotalOrder(x, x, x);
  }

  lemma TailMultiset(s: seq<string>)
    requires Sorted(s) && s != []
    ensures Sorted(s[1..]) && multiset(s[1..]) == multiset(s) - multiset{s[0]}
    ensures s == [s[0]] + s[1..]
  {
    assert s == [s[0]] + s[1..];
  }

  /** A multiset of strings has one sorted listing. */
  lemma {:induction false} SortedListingIsUnique(a: seq<string>, b: seq<string>)
    requires Sorted(a) && Sorted(b) && multiset(a) == multiset(b)
    ensures a == b
  {
    if a == [] || b == [] {
      assert |multiset(a)| == |a| && |multiset(b)| == |b|;
    } else {
      assert a[0] in multiset(a) && b[0] in multiset(b);
      HeadIsLeast(a, b[0]);
      HeadIsLeast(b, a[0]);
      LeqTotalOrder(a[0], b[0], a[0]);
      TailMultiset(a);
      TailMultiset(b);
      SortedListingIsUnique(a[1..], b[1..]);
    }
  }

  // ----- makeCacheKey -----

  function OrEmpty(s: Option<string>): string {
    if s.Some? then s.value else ""
  }

  function KeyOf(p: Principals, ver: nat): CacheKey {
    CacheKey(OrEmpty(p.user), OrEmpty(p.tenant), Join(Sort(p.roles), ','), ver)
  }

  /** Same user, tenant and roles with the same multiplicities, in any order. */
  predicate SamePrincipals(p: Principals, q: Principals) {
    p.user == q.user && p.tenant == q.tenant && multiset(p.roles) == multiset(q.roles)
  }

  /** What the joined text still tells of a list of roles: the pieces between
      the commas, one empty piece if there is no role. */
  function RolePieces(roles: seq<string>): seq<string> {
    if roles == [] then [""] else Pieces(Sort(roles), ',')
  }

  lemma RolePiecesAreTheText(roles: seq<string>)
    ensures Split(Join(Sort(roles), ','), ',') == RolePieces(roles)
  {
    assert |multiset(Sort(roles))| == |Sort(roles)| && |multiset(roles)| == |roles|;
    hide Sort;
    if roles != [] {
      SplitOfJoinIsPieces(Sort(roles), ',');
    }
  }

  /** For all principals whatsoever: keys agree exactly when the versions do,
      the identifiers do up to absent or empty, and the sorted roles have the
      same pieces between commas. */
  lemma KeysCollideIff(p: Principals, q: Principals, v: nat, w: nat)
    ensures KeyOf(p, v) == KeyOf(q, w) <==>
            v == w && OrEmpty(p.user) == OrEmpty(q.user) && OrEmpty(p.tenant) == OrEmpty(q.tenant) &&
            RolePieces(p.roles) == RolePieces(q.roles)
  {
    RolePiecesAreTheText(p.roles);
    RolePiecesAreTheText(q.roles);
    JoinOfSplit(Join(Sort(p.roles), ','), ',');
    JoinOfSplit(Join(Sort(q.roles), ','), ',');
    hide Sort, Join, Split, RolePieces;
  }

  /** Well-formed role lists can be read back from their pieces. */
  lemma RolesAreSplitBack(roles: seq<string>)
    requires forall r :: r in roles ==> r != "" && ',' !in r
    ensures Sort(roles) == if RolePieces(roles) == [""] then [] else RolePieces(roles)
  {
    var s := Sort(roles);
    forall r | r in s ensures r in roles { assert r in multiset(s); }
    if roles != [] {
      assert roles[0] in multiset(s);
      SplitOfJoin(s, ',');
      SplitOfJoinIsPieces(s, ',');
      assert s[0] in s;
    }
  }

  /** For well-formed principals keys agree exactly when the registry version and the principals do. */
  lemma KeysAgreeIff(p: Principals, q: Principals, v: nat, w: nat)
    requires WellFormed(p) && WellFormed(q)
    ensures KeyOf(p, v) == KeyOf(q, w) <==> v == w && SamePrincipals(p, q)
  {
    KeysCollideIff(p, q, v, w);
    RolesAreSplitBack(p.roles);
    RolesAreSplitBack(q.roles);
    hide RolePieces, KeyOf, Sort;
    if multiset(p.roles) == multiset(q.roles) {
      SortedListingIsUnique(Sort(p.roles), Sort(q.roles));
      SamePieces(p.roles, q.roles);
    }
  }

  lemma SamePieces(a: seq<string>, b: seq<string>)
    requires Sort(a) == Sort(b)
    ensures RolePieces(a) == RolePieces(b)
  {
    RolePiecesAreTheText(a);
    RolePiecesAreTheText(b);
  }

  /** Principals outside those conditions that share a key: a comma inside a
      role name, an empty role, and an empty identifier. */
  lemma IllFormedNamesCollide(ver: nat)
    ensures KeyOf(Principals(None, None, ["a,b"]), ver) == KeyOf(Principals(None, None, ["a", "b"]), ver)
    ensures KeyOf(Principals(None, None, [""]), ver) == KeyOf(Principals(None, None, []), ver)
    ensures KeyOf(Principals(Some(""), None, []), ver) == KeyOf(Principals(None, None, []), ver)
  {
    SortedIsFixed(["a,b"]);
    SortedIsFixed(["a", "b"]);
    SortedIsFixed([""]);
    SortedIsFixed([]);
    hide Sort;
    assert Join(["a", "b"], ',') == "a" + "," + "b" == "a,b";
  }

  /** Sorting a sorted list changes nothing. */
  lemma SortedIsFixed(s: seq<string>)
    requires Sorted(s)
    ensures Sort(s) == s
  {
    SortedListingIsUnique(Sort(s), s);
  }
}
