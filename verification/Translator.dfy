/** Translations kept twice: as the nested tree of the language file, and
    flattened under dotted names for quick lookup. */
module Translator {
  import opened Text

  /** A decoded JSON value; `text` is what it prints as, for an object too. */
  datatype Json = Null | Str(text: string) | Other(text: string) | Obj(tree: Tree, text: string)

  datatype Tree = Tree(fields: map<string, Json>)

  type Flat = map<string, string>

  // ----- Paths through a tree -----

  predicate IsLeaf(j: Json) {
    j.Str? || j.Other?
  }

  /** The text at the end of a path of keys, if the path ends at a non-null leaf. */
  function LeafAt(tree: Tree, path: seq<string>): Option<string>
    decreases |path|
  {
    if path == [] || path[0] !in tree.fields then None
    else if |path| == 1 then
      if IsLeaf(tree.fields[path[0]]) then Some(tree.fields[path[0]].text) else None
    else if tree.fields[path[0]].Obj? then LeafAt(tree.fields[path[0]].tree, path[1..])
    else None
  }

  /** The text of whatever non-null value the path ends at; an object is printed. */
  function TextAt(tree: Tree, path: seq<string>): Option<string>
    decreases |path|
  {
    if path == [] || path[0] !in tree.fields then None
    else if |path| == 1 then
      if tree.fields[path[0]].Null? then None else Some(tree.fields[path[0]].text)
    else if tree.fields[path[0]].Obj? then TextAt(tree.fields[path[0]].tree, path[1..])
    else None
  }

  lemma {:induction false} TextOfLeaf(tree: Tree, path: seq<string>)
    ensures LeafAt(tree, path).Some? ==> TextAt(tree, path) == LeafAt(tree, path)
    decreases |path|
  {
    if |path| > 1 && path[0] in tree.fields && tree.fields[path[0]].Obj? {
      TextOfLeaf(tree.fields[path[0]].tree, path[1..]);
    }
  }

  /** What a path starting with one key finds: a leaf below no further key, an
      object printed or entered, and nothing else. */
  lemma WalkOfOneKey(tree: Tree, k: string, rest: seq<string>)
    ensures k !in tree.fields || tree.fields[k].Null? ==> LeafAt(tree, [k] + rest) == TextAt(tree, [k] + rest) == None
    ensures k in tree.fields && (tree.fields[k].Str? || tree.fields[k].Other?) ==>
              LeafAt(tree, [k] + rest) == TextAt(tree, [k] + rest) == if rest == [] then Some(tree.fields[k].text) else None
    ensures k in tree.fields && tree.fields[k].Obj? ==>
              LeafAt(tree, [k] + rest) == (if rest == [] then None else LeafAt(tree.fields[k].tree, rest)) &&
              TextAt(tree, [k] + rest) == if rest == [] then Some(tree.fields[k].text) else TextAt(tree.fields[k].tree, rest)
  {
    assert ([k] + rest)[0] == k && ([k] + rest)[1..] == rest;
  }

  /** The name under which flattening files a key below a prefix. */
  function Under(prefix: string, key: string): string {
    if prefix != "" then prefix + "." + key else key
  }

  function NameOf(prefix: string, path: seq<string>): string
    decreases |path|
  {
    if path == [] then prefix else NameOf(Under(prefix, path[0]), path[1..])
  }

  /** Some path of this tree is filed under `q` and ends at `text`. */
  ghost predicate Names(tree: Tree, prefix: string, q: string, text: string) {
    exists path :: LeafAt(tree, path) == Some(text) && NameOf(prefix, path) == q
  }

  /** The same for paths that start with one of `keys`. */
  ghost predicate NamesVia(tree: Tree, keys: set<string>, prefix: string, q: string, text: string) {
    exists path :: LeafAt(tree, path) == Some(text) && path[0] in keys && NameOf(prefix, path) == q
  }

  /** Each entry of the new map is a leaf's name with the text of such a leaf,
      or an entry of the old one that no leaf is named by. */
  ghost predicate FlattenedOver(before: Flat, after: Flat, tree: Tree, keys: set<string>, prefix: string) {
    forall q :: EntryIs(before, after, tree, keys, prefix, q)
  }

  ghost predicate EntryIs(before: Flat, after: Flat, tree: Tree, keys: set<string>, prefix: string, q: string) {
    if exists text :: NamesVia(tree, keys, prefix, q, text)
    then q in after && NamesVia(tree, keys, prefix, q, after[q])
    else (q in after <==> q in before) && (q in after ==> after[q] == before[q])
  }

  // ----- Flattening in a given order -----

  /** The order in which a map yields its keys, and the same for the objects in it. */
  datatype Order = Order(keys: seq<string>, inner: map<string, Order>)

  predicate NoDup(keys: seq<string>) {
    forall i, j :: 0 <= i < j < |keys| ==> keys[i] != keys[j]
  }

  /** An order of some of the keys of a tree. */
  predicate PartOf(order: Order, tree: Tree)
    decreases tree, 0
  {
    NoDup(order.keys) && (forall k :: k in order.keys ==> k in tree.fields) &&
    forall k :: k in order.keys && tree.fields[k].Obj? ==> k in order.inner && OrderOf(order.inner[k], tree.fields[k].tree)
  }

  predicate OrderOf(order: Order, tree: Tree)
    decreases tree, 1
  {
    PartOf(order, tree) && forall k :: k in tree.fields ==> k in order.keys
  }

  /** The flat map after the first `n` keys. */
  function Filed(tree: Tree, order: Order, n: nat, prefix: string, flat: Flat): Flat
    requires PartOf(order, tree) && n <= |order.keys|
    decreases tree, n
  {
    if n == 0 then flat
    else
      var before := Filed(tree, order, n - 1, prefix, flat);
      var k := order.keys[n - 1];
      assert k in order.keys && (tree.fields[k].Obj? ==> OrderOf(order.inner[k], tree.fields[k].tree));
      match tree.fields[k]
      case Null => before
      case Str(text) => before[Under(prefix, k) := text]
      case Other(text) => before[Under(prefix, k) := text]
      case Obj(inner, _) => Filed(inner, order.inner[k], |order.inner[k].keys|, Under(prefix, k), before)
  }

  function FiledAll(tree: Tree, order: Order, prefix: string, flat: Flat): Flat
    requires OrderOf(order, tree)
  {
    Filed(tree, order, |order.keys|, prefix, flat)
  }

  /** Keys that come later do not change what is filed before. */
  lemma {:induction false} FiledBefore(tree: Tree, a: Order, b: Order, n: nat, prefix: string, flat: Flat)
    requires PartOf(a, tree) && PartOf(b, tree) && n <= |a.keys| && n <= |b.keys| && a.keys[..n] == b.keys[..n]
    requires forall k :: k in a.keys[..n] && tree.fields[k].Obj? ==> a.inner[k] == b.inner[k]
    ensures Filed(tree, a, n, prefix, flat) == Filed(tree, b, n, prefix, flat)
  {
    if n == 0 {
    } else {
      assert a.keys[..n][..n - 1] == a.keys[..n - 1] && b.keys[..n][..n - 1] == b.keys[..n - 1];
      FiledBefore(tree, a, b, n - 1, prefix, flat);
      assert a.keys[..n][n - 1] == a.keys[n - 1] == b.keys[n - 1] && a.keys[n - 1] in a.keys[..n];
    }
  }

  function Below(inner: map<string, Order>, key: string): Order {
    if key in inner then inner[key] else Order([], map[])
  }

  /** One value filed under a name. */
  function OneFiled(value: Json, order: Order, name: string, before: Flat): Flat
    requires value.Obj? ==> OrderOf(order, value.tree)
  {
    match value
    case Null => before
    case Str(text) => before[name := text]
    case Other(text) => before[name := text]
    case Obj(inner, _) => FiledAll(inner, order, name, before)
  }

  function AsSet(keys: seq<string>): set<string> {
    set k | k in keys
  }

  /** The last of `n` keys is filed over what the others leave. */
  lemma FiledStep(tree: Tree, order: Order, n: nat, prefix: string, flat: Flat)
    requires PartOf(order, tree) && 0 < n <= |order.keys|
    ensures var k, before := order.keys[n - 1], Filed(tree, order, n - 1, prefix, flat);
            k in tree.fields && (tree.fields[k].Obj? ==> k in order.inner && OrderOf(order.inner[k], tree.fields[k].tree)) &&
            Filed(tree, order, n, prefix, flat) == OneFiled(tree.fields[k], Below(order.inner, k), Under(prefix, k), before)
  {
    assert order.keys[n - 1] in order.keys;
  }

  lemma NoKeysFiled(tree: Tree, prefix: string, flat: Flat)
    ensures PartOf(Order([], map[]), tree) && Filed(tree, Order([], map[]), 0, prefix, flat) == flat && AsSet([]) == {}
  {
  }

  lemma PartThatIsAll(order: Order, tree: Tree)
    requires PartOf(order, tree) && AsSet(order.keys) == tree.fields.Keys
    ensures OrderOf(order, tree)
  {
    assert forall k :: k in order.keys <==> k in AsSet(order.keys);
  }

  /** One more key at the end of an order, with the order of what is below it. */
  lemma LongerOrder(tree: Tree, order: Order, key: string, inner: map<string, Order>, prefix: string, flat: Flat)
    requires PartOf(order, tree) && key in tree.fields && key !in AsSet(order.keys)
    requires if tree.fields[key].Obj? then key in inner && inner == order.inner[key := inner[key]] &&
                                           OrderOf(inner[key], tree.fields[key].tree)
             else inner == order.inner
    ensures var longer, before := Order(order.keys + [key], inner), Filed(tree, order, |order.keys|, prefix, flat);
            PartOf(longer, tree) && AsSet(longer.keys) == AsSet(order.keys) + {key} &&
            Filed(tree, longer, |longer.keys|, prefix, flat) ==
              OneFiled(tree.fields[key], Below(inner, key), Under(prefix, key), before)
  {
    var longer := Order(order.keys + [key], inner);
    assert forall k :: k in order.keys <==> k in AsSet(order.keys);
    assert PartOf(longer, tree) by { hide OrderOf, Filed; }
    hide PartOf, OrderOf;
    assert AsSet(longer.keys) == AsSet(order.keys) + {key};
    assert longer.keys[..|order.keys|] == order.keys == order.keys[..|order.keys|];
    FiledStep(tree, longer, |longer.keys|, prefix, flat);
    hide Filed, FiledAll, AsSet;
    FiledBefore(tree, order, longer, |order.keys|, prefix, flat);
  }

  lemma {:induction false} FiledIsFlattened(tree: Tree, order: Order, n: nat, prefix: string, flat: Flat)
    requires PartOf(order, tree) && n <= |order.keys|
    ensures FlattenedOver(flat, Filed(tree, order, n, prefix, flat), tree, AsSet(order.keys[..n]), prefix)
    decreases tree, n
  {
    if n == 0 {
      assert AsSet(order.keys[..n]) == {};
      NothingFiled(flat, tree, prefix);
    } else {
      FiledStep(tree, order, n, prefix, flat);
      hide Filed, FiledAll, PartOf, OrderOf, FlattenedOver;
      var k, before := order.keys[n - 1], Filed(tree, order, n - 1, prefix, flat);
      FiledIsFlattened(tree, order, n - 1, prefix, flat);
      assert order.keys[..n] == order.keys[..n - 1] + [k];
      assert AsSet(order.keys[..n]) == AsSet(order.keys[..n - 1]) + {k};
      if tree.fields[k].Obj? {
        FiledAllIsFlattened(tree.fields[k].tree, order.inner[k], Under(prefix, k), before);
      }
      hide AsSet, Under;
      OneKeyMore(flat, before, Filed(tree, order, n, prefix, flat), tree, AsSet(order.keys[..n - 1]), k, prefix);
    }
  }

  lemma {:induction false} FiledAllIsFlattened(tree: Tree, order: Order, prefix: string, flat: Flat)
    requires OrderOf(order, tree)
    ensures FlattenedOver(flat, FiledAll(tree, order, prefix, flat), tree, tree.fields.Keys, prefix)
    decreases tree, |order.keys| + 1
  {
    FiledIsFlattened(tree, order, |order.keys|, prefix, flat);
    hide Filed, FlattenedOver;
    assert order.keys[..|order.keys|] == order.keys;
    assert AsSet(order.keys) == tree.fields.Keys;
  }

  /** Every set can be listed, and every tree has an order. */
  ghost function Listing(s: set<string>): (keys: seq<string>)
    ensures NoDup(keys) && forall k :: k in keys <==> k in s
  {
    if s == {} then []
    else
      var k :| k in s;
      Listing(s - {k}) + [k]
  }

  ghost function AnOrder(tree: Tree): (order: Order)
    ensures OrderOf(order, tree)
  {
    Order(Listing(tree.fields.Keys),
          map k | k in tree.fields && tree.fields[k].Obj? :: AnOrder(tree.fields[k].tree))
  }

  /** Any leaf can be the last to be filed under its name. */
  lemma {:induction false} FiledLast(tree: Tree, path: seq<string>, prefix: string) returns (order: Order)
    requires LeafAt(tree, path).Some?
    ensures OrderOf(order, tree)
    ensures forall flat ::
              NameOf(prefix, path) in FiledAll(tree, order, prefix, flat) &&
              Some(FiledAll(tree, order, prefix, flat)[NameOf(prefix, path)]) == LeafAt(tree, path)
    decreases |path|
  {
    var key, sub := path[0], AnOrder(tree).inner;
    if |path| == 1 {
      assert path[1..] == [];
    } else {
      var last := FiledLast(tree.fields[key].tree, path[1..], Under(prefix, key));
      sub := sub[key := last];
    }
    hide LeafAt;
    order := WithLast(tree, key, sub);
    forall flat
      ensures NameOf(prefix, path) in FiledAll(tree, order, prefix, flat)
      ensures Some(FiledAll(tree, order, prefix, flat)[NameOf(prefix, path)]) == LeafAt(tree, path)
    {
      FiledStep(tree, order, |order.keys|, prefix, flat);
      LeafBelow(tree, path);
      hide Filed, OrderOf, PartOf;
    }
  }

  lemma LeafBelow(tree: Tree, path: seq<string>)
    requires LeafAt(tree, path).Some?
    ensures path != [] && path[0] in tree.fields
    ensures |path| == 1 ==> IsLeaf(tree.fields[path[0]]) && LeafAt(tree, path) == Some(tree.fields[path[0]].text)
    ensures |path| > 1 ==> tree.fields[path[0]].Obj? && LeafAt(tree, path) == LeafAt(tree.fields[path[0]].tree, path[1..])
  {
  }

  /** An order in which a given key comes last. */
  lemma WithLast(tree: Tree, key: string, inner: map<string, Order>) returns (order: Order)
    requires key in tree.fields
    requires forall k :: k in tree.fields && tree.fields[k].Obj? ==> k in inner && OrderOf(inner[k], tree.fields[k].tree)
    ensures OrderOf(order, tree) && order.inner == inner && order.keys != [] && order.keys[|order.keys| - 1] == key
  {
    order := Order(Listing(tree.fields.Keys - {key}) + [key], inner);
  }

  // ----- Well-formed trees: a name leads back to its path -----

  predicate DotFree(tree: Tree) {
    forall k :: k in tree.fields ==> '.' !in k && (tree.fields[k].Obj? ==> DotFree(tree.fields[k].tree))
  }

  /** No key contains a dot, and no object is filed under the empty key at the top. */
  predicate WellFormed(tree: Tree) {
    DotFree(tree) && !("" in tree.fields && tree.fields[""].Obj?)
  }

  lemma {:induction false} NameIsJoin(prefix: string, path: seq<string>)
    requires prefix != "" && path != []
    ensures NameOf(prefix, path) == prefix + "." + Join(path, '.')
    decreases |path|
  {
    if |path| > 1 {
      NameIsJoin(Under(prefix, path[0]), path[1..]);
      assert Under(prefix, path[0]) + "." + Join(path[1..], '.') ==
             prefix + "." + (path[0] + ['.'] + Join(path[1..], '.'));
    } else {
      assert path[1..] == [];
    }
  }

  lemma {:induction false} LeafPathIsDotFree(tree: Tree, path: seq<string>)
    requires DotFree(tree) && LeafAt(tree, path).Some?
    ensures AllFree(path, '.')
    decreases |path|
  {
    if |path| > 1 {
      LeafPathIsDotFree(tree.fields[path[0]].tree, path[1..]);
      assert path == [path[0]] + path[1..];
    }
  }

  /** In a well-formed tree the name of a leaf splits back into its path. */
  lemma NameSplitsBack(tree: Tree, path: seq<string>)
    requires WellFormed(tree) && LeafAt(tree, path).Some?
    ensures NameOf("", path) == Join(path, '.') && Split(NameOf("", path), '.') == path
  {
    LeafPathIsDotFree(tree, path);
    SplitOfJoin(path, '.');
    if |path| == 1 {
      assert path[1..] == [];
    } else {
      NameIsJoin(path[0], path[1..]);
    }
  }

  /** A dotted key names a leaf exactly when its split path ends at one, with the same text. */
  lemma NamesIffSplitPath(tree: Tree, q: string, text: string)
    requires WellFormed(tree)
    ensures Names(tree, "", q, text) <==> LeafAt(tree, Split(q, '.')) == Some(text)
  {
    if LeafAt(tree, Split(q, '.')) == Some(text) {
      NameSplitsBack(tree, Split(q, '.'));
      JoinOfSplit(q, '.');
    }
    if path :| LeafAt(tree, path) == Some(text) && NameOf("", path) == q {
      NameSplitsBack(tree, path);
    }
  }

  // ----- The two lookups -----

  /** Text of a dotted key by walking the tree, as getNestedValue does. */
  function Nested(tree: Tree, key: string): Option<string> {
    TextAt(tree, Split(key, '.'))
  }

  /** The flat entry if there is one, else the walk through the tree. */
  function FlatThenNested(flat: Flat, tree: Option<Tree>, key: string): Option<string> {
    if key in flat then Some(flat[key])
    else if tree.Some? then Nested(tree.value, key)
    else None
  }

  /** The flat map makes no difference to any key. */
  ghost predicate Agrees(flat: Flat, tree: Tree) {
    forall q :: FlatThenNested(flat, Some(tree), q) == Nested(tree, q)
  }

  /** Walking along the name of any leaf finds that leaf's own text. */
  ghost predicate NamesAgree(tree: Tree) {
    forall path :: LeafAt(tree, path).Some? ==> Nested(tree, NameOf("", path)) == LeafAt(tree, path)
  }

  /** Each old entry is filed anew, or is what the walk finds anyway. */
  ghost predicate OldNamesAgree(before: Flat, tree: Tree) {
    forall q :: q in before ==> (exists text :: Names(tree, "", q, text)) || Nested(tree, q) == Some(before[q])
  }

  lemma NamesViaAll(tree: Tree, q: string, text: string)
    ensures NamesVia(tree, tree.fields.Keys, "", q, text) <==> Names(tree, "", q, text)
  {
  }

  /** For any tree, and whatever the flat map held before: the flat lookup
      agrees with the walk, for every key and every order in which the tree may
      be flattened, exactly when the name of each leaf leads to its own text
      and each old entry is filed anew or right already. */
  lemma FlatAgreesIff(before: Flat, tree: Tree)
    ensures (forall order :: OrderOf(order, tree) ==> Agrees(FiledAll(tree, order, "", before), tree)) <==>
            NamesAgree(tree) && OldNamesAgree(before, tree)
  {
    hide FlattenedOver, Agrees, NamesAgree, OldNamesAgree, OrderOf, FiledAll;
    if NamesAgree(tree) && OldNamesAgree(before, tree) {
      forall order | OrderOf(order, tree) ensures Agrees(FiledAll(tree, order, "", before), tree) {
        FiledAllIsFlattened(tree, order, "", before);
        FlatAgrees(before, FiledAll(tree, order, "", before), tree);
      }
    }
    if forall order :: OrderOf(order, tree) ==> Agrees(FiledAll(tree, order, "", before), tree) {
      AgreeingNames(before, tree);
      var order := AnOrder(tree);
      FiledAllIsFlattened(tree, order, "", before);
      AgreeingOldNames(before, FiledAll(tree, order, "", before), tree);
    }
  }

  lemma AgreeingNames(before: Flat, tree: Tree)
    requires forall order :: OrderOf(order, tree) ==> Agrees(FiledAll(tree, order, "", before), tree)
    ensures NamesAgree(tree)
  {
    forall path | LeafAt(tree, path).Some? ensures Nested(tree, NameOf("", path)) == LeafAt(tree, path) {
      var q := NameOf("", path);
      var order := FiledLast(tree, path, "");
      hide FiledAll, OrderOf;
      var after := FiledAll(tree, order, "", before);
      assert Agrees(after, tree);
      assert FlatThenNested(after, Some(tree), q) == Nested(tree, q);
    }
  }

  lemma AgreeingOldNames(before: Flat, after: Flat, tree: Tree)
    requires FlattenedOver(before, after, tree, tree.fields.Keys, "") && Agrees(after, tree)
    ensures OldNamesAgree(before, tree)
  {
    forall q | q in before && !exists text :: Names(tree, "", q, text)
      ensures Nested(tree, q) == Some(before[q])
    {
      forall text ensures !NamesVia(tree, tree.fields.Keys, "", q, text) { NamesViaAll(tree, q, text); }
      hide Nested, Names, NamesVia;
      assert EntryIs(before, after, tree, tree.fields.Keys, "", q);
      assert FlatThenNested(after, Some(tree), q) == Nested(tree, q);
    }
  }

  lemma FlatAgrees(before: Flat, after: Flat, tree: Tree)
    requires FlattenedOver(before, after, tree, tree.fields.Keys, "") && NamesAgree(tree) && OldNamesAgree(before, tree)
    ensures Agrees(after, tree)
  {
    forall q ensures FlatThenNested(after, Some(tree), q) == Nested(tree, q) {
      assert EntryIs(before, after, tree, tree.fields.Keys, "", q);
      if text :| NamesVia(tree, tree.fields.Keys, "", q, text) {
        var path :| LeafAt(tree, path) == Some(after[q]) && path[0] in tree.fields.Keys && NameOf("", path) == q;
      } else if text :| Names(tree, "", q, text) {
        NamesViaAll(tree, q, text);
      }
    }
  }

  /** Well-formed trees are among those that agree. */
  lemma WellFormedAgrees(tree: Tree)
    requires WellFormed(tree)
    ensures NamesAgree(tree)
  {
    forall path | LeafAt(tree, path).Some? ensures Nested(tree, NameOf("", path)) == LeafAt(tree, path) {
      NameSplitsBack(tree, path);
      TextOfLeaf(tree, path);
    }
  }

  /** The files shipped with the repository keep some texts twice, under a
      dotted key and nested below its first part. Such a tree is not
      well-formed, and it agrees exactly when the two texts are the same. */
  lemma TwiceKeptAgreesIff(first: string, second: string, nested: string, dotted: string, printed: string)
    requires first != "" && '.' !in first && '.' !in second
    ensures var key := first + "." + second;
            var tree := Tree(map[first := Obj(Tree(map[second := Str(nested)]), printed), key := Str(dotted)]);
            !WellFormed(tree) && (NamesAgree(tree) <==> nested == dotted)
  {
    var key := first + "." + second;
    var inner := Tree(map[second := Str(nested)]);
    var tree := Tree(map[first := Obj(inner, printed), key := Str(dotted)]);
    assert key[|first|] == '.' && key in tree.fields;
    SplitFront(first, second, '.');
    SplitFront(second, "", '.');
    assert Split(key, '.') == [first, second] && [first, second][1..] == [second];
    assert LeafAt(inner, [second]) == Some(nested) == TextAt(inner, [second]);
    assert Nested(tree, key) == Some(nested);
    OnePathNames(first, second, key);
    assert LeafAt(tree, [key]) == Some(dotted) && LeafAt(tree, [first, second]) == Some(nested);
    forall path | LeafAt(tree, path).Some? ensures path == [key] || path == [first, second] {
      if path[0] == key {
        assert path == [key];
      } else {
        assert path[0] == first && tree.fields[first] == Obj(inner, printed) && |path| > 1;
        assert LeafAt(inner, path[1..]).Some?;
        assert path[1..][0] == second && |path[1..]| == 1;
        assert path == [path[0]] + path[1..];
      }
    }
  }

  lemma OnePathNames(first: string, second: string, key: string)
    requires first != "" && key == first + "." + second
    ensures NameOf("", [first, second]) == key == NameOf("", [key])
  {
    assert [first, second][1..] == [second] && [second][1..] == [] && [key][1..] == [];
    assert NameOf("", [first, second]) == NameOf(first, [second]) == NameOf(key, []);
    assert NameOf("", [key]) == NameOf(key, []);
  }

  /** A key that is only dotted, or an object under the empty key at the top,
      is found by its flat name alone. */
  lemma DottedKeysDiffer()
    ensures var tree := Tree(map["a.b" := Str("x")]);
            Names(tree, "", "a.b", "x") && Nested(tree, "a.b") == None
    ensures var tree := Tree(map["" := Obj(Tree(map["x" := Str("y")]), "map[x:y]")]);
            Names(tree, "", "x", "y") && Nested(tree, "x") == None
  {
    var dotted := Tree(map["a.b" := Str("x")]);
    assert LeafAt(dotted, ["a.b"]) == Some("x") && NameOf("", ["a.b"]) == NameOf("a.b", []) == "a.b";
    assert "a.b" == "a" + ['.'] + "b";
    SplitFront("a", "b", '.');
    var inner := Tree(map["x" := Str("y")]);
    var empty := Tree(map["" := Obj(inner, "map[x:y]")]);
    assert ["", "x"][1..] == ["x"];
    assert LeafAt(inner, ["x"]) == Some("y");
    assert LeafAt(empty, ["", "x"]) == Some("y");
    assert NameOf("", ["", "x"]) == NameOf("", ["x"]) == NameOf("x", []) == "x";
    SplitFront("x", "", '.');
  }

  // ----- The translator -----

  /** The walk along the dotted key ends at a text in that language. */
  predicate HasText(trees: map<string, Tree>, lang: string, key: string)
    ensures HasText(trees, lang, key) <==> lang in trees && TextAt(trees[lang], Split(key, '.')).Some?
  {
    NestedIn(trees, lang, key).Some?
  }

  function NestedIn(trees: map<string, Tree>, lang: string, key: string): Option<string> {
    if lang in trees then Nested(trees[lang], key) else None
  }

  /** Translation by the nested trees alone: the language asked for, then the
      default language, then the key itself. */
  function TranslateNested(trees: map<string, Tree>, defaultLang: string, lang: string, key: string): string {
    if NestedIn(trees, lang, key).Some? then NestedIn(trees, lang, key).value
    else if lang != defaultLang && NestedIn(trees, defaultLang, key).Some? then NestedIn(trees, defaultLang, key).value
    else key
  }

  /** A language file: its language and its contents, or None if it cannot be read or parsed. */
  datatype File = File(lang: string, contents: Option<Tree>)

  class Translator {
    var translations: map<string, Tree>
    var flatCache: map<string, Flat>
    const defaultLang: string

    ghost predicate Valid()
      reads this
    {
      translations.Keys == flatCache.Keys &&
      forall lang :: lang in translations ==> Agrees(flatCache[lang], translations[lang])
    }

    constructor (defaultLang: string)
      ensures Valid() && translations == map[] && this.defaultLang == defaultLang
    {
      this.defaultLang := defaultLang;
      translations, flatCache := map[], map[];
    }

    /** Files every leaf below `nested` under its dotted name, in whatever
        order the maps yield their keys. */
    method FlattenTranslations(nested: Tree, prefix: string, lang: string) returns (ghost order: Order)
      requires lang in flatCache
      modifies this`flatCache
      ensures flatCache.Keys == old(flatCache).Keys
      ensures forall l :: l in flatCache && l != lang ==> flatCache[l] == old(flatCache)[l]
      ensures OrderOf(order, nested) && flatCache[lang] == FiledAll(nested, order, prefix, old(flatCache)[lang])
      decreases nested
    {
      hide FlattenedOver, Filed, OrderOf;
      var rest := nested.fields.Keys;
      order := Order([], map[]);
      NoKeysFiled(nested, prefix, flatCache[lang]);
      while rest != {}
        invariant rest <= nested.fields.Keys && flatCache.Keys == old(flatCache).Keys
        invariant forall l :: l in flatCache && l != lang ==> flatCache[l] == old(flatCache)[l]
        invariant PartOf(order, nested) && AsSet(order.keys) == nested.fields.Keys - rest
        invariant flatCache[lang] == Filed(nested, order, |order.keys|, prefix, old(flatCache)[lang])
      {
        var key :| key in rest;
        var value := nested.fields[key];
        var newKey := Under(prefix, key);
        ghost var inner := order.inner;
        if value.Obj? {
          ghost var below := FlattenTranslations(value.tree, newKey, lang);
          inner := inner[key := below];
        } else if value.Str? {
          flatCache := flatCache[lang := flatCache[lang][newKey := value.text]];
        } else if value.Other? {
          flatCache := flatCache[lang := flatCache[lang][newKey := value.text]];
        }
        hide PartOf;
        LongerOrder(nested, order, key, inner, prefix, old(flatCache)[lang]);
        order, rest := Order(order.keys + [key], inner), rest - {key};
      }
      PartThatIsAll(order, nested);
    }

    /** Stores one language's tree and flattens it over whatever the flat map
        of that language already holds. */
    method LoadLanguage(lang: string, tree: Tree)
      modifies this
      ensures translations == old(translations)[lang := tree]
      ensures flatCache.Keys == old(flatCache).Keys + {lang}
      ensures forall l :: l in flatCache && l != lang ==> flatCache[l] == old(flatCache)[l]
      ensures FlattenedOver(FlatOf(old(flatCache), lang), flatCache[lang], tree, tree.fields.Keys, "")
      ensures old(Valid()) && NamesAgree(tree) && OldNamesAgree(FlatOf(old(flatCache), lang), tree) ==> Valid()
    {
      hide FlattenedOver, Agrees, NamesAgree, OldNamesAgree, OrderOf, FiledAll;
      translations := translations[lang := tree];
      if lang !in flatCache {
        flatCache := flatCache[lang := map[]];
      }
      ghost var order := FlattenTranslations(tree, "", lang);
      FiledAllIsFlattened(tree, order, "", FlatOf(old(flatCache), lang));
      if NamesAgree(tree) && OldNamesAgree(FlatOf(old(flatCache), lang), tree) {
        FlatAgrees(FlatOf(old(flatCache), lang), flatCache[lang], tree);
      }
    }

    /** Loads the files, of distinct languages, in turn and stops at the first
        bad one. The two structures agree if the names of each tree do, and
        what was loaded for its language before does not disagree. */
    method LoadTranslations(files: seq<File>) returns (ok: bool)
      modifies this
      ensures ok <==> GoodPrefix(files) == |files|
      ensures translations == Loaded(old(translations), files[..GoodPrefix(files)])
      ensures old(Valid()) && LoadsAgree(old(flatCache), files) ==> Valid()
    {
      hide Agrees, NamesAgree, OldNamesAgree, FlattenedOver;
      for i := 0 to |files|
        invariant i <= GoodPrefix(files)
        invariant translations == Loaded(old(translations), files[..i])
        invariant old(Valid()) && LoadsAgree(old(flatCache), files) ==> Valid()
        invariant forall l :: (forall j :: 0 <= j < i ==> files[j].lang != l) ==>
          FlatOf(flatCache, l) == FlatOf(old(flatCache), l)
      {
        GoodPrefixAt(files, i);
        if files[i].contents.None? { return false; }
        assert files[..i + 1][..i] == files[..i];
        LoadLanguage(files[i].lang, files[i].contents.value);
      }
      return true;
    }

    /** Walks the tree along the dotted key. */
    static method GetNestedValue(nested: Tree, key: string) returns (r: Option<string>)
      ensures r == Nested(nested, key)
    {
      var parts := Split(key, '.');
      var current := nested;
      for i := 0 to |parts|
        invariant i < |parts| || TextAt(nested, parts) == None
        invariant i < |parts| ==> TextAt(nested, parts) == TextAt(current, parts[i..])
      {
        var part := parts[i];
        if i == |parts| - 1 {
          if part in current.fields && !current.fields[part].Null? {
            return Some(current.fields[part].text);
          }
          return None;
        }
        assert parts[i..][1..] == parts[i + 1..];
        if part !in current.fields || !current.fields[part].Obj? { return None; }
        current := current.fields[part].tree;
      }
      return None;
    }

    /** The flat map of the language, then its tree, then the same for the
        default language, then the key. When the two structures agree the
        flat maps make no difference. */
    method Translate(lang: string, key: string) returns (r: string)
      ensures r == TranslateBoth(flatCache, translations, defaultLang, lang, key)
      ensures Valid() ==> r == TranslateNested(translations, defaultLang, lang, key)
      ensures Valid() && HasText(translations, lang, key) ==> Some(r) == TextAt(translations[lang], Split(key, '.'))
      ensures Valid() && !HasText(translations, lang, key) && HasText(translations, defaultLang, key) ==>
                Some(r) == TextAt(translations[defaultLang], Split(key, '.'))
      ensures Valid() && !HasText(translations, lang, key) && !HasText(translations, defaultLang, key) ==> r == key
      ensures lang in flatCache && key in flatCache[lang] ==> r == flatCache[lang][key]
    {
      if lang in flatCache && key in flatCache[lang] {
        return flatCache[lang][key];
      }
      if lang in translations {
        var found := GetNestedValue(translations[lang], key);
        if found.Some? { return found.value; }
      }
      if lang != defaultLang {
        if defaultLang in flatCache && key in flatCache[defaultLang] {
          return flatCache[defaultLang][key];
        }
        if defaultLang in translations {
          var found := GetNestedValue(translations[defaultLang], key);
          if found.Some? { return found.value; }
        }
      }
      return key;
    }
  }

  function FlatOf(flats: map<string, Flat>, lang: string): Flat {
    if lang in flats then flats[lang] else map[]
  }

  /** How many files come before the first bad one. */
  function GoodPrefix(files: seq<File>): (n: nat)
    ensures n <= |files|
  {
    if files == [] || files[0].contents.None? then 0 else 1 + GoodPrefix(files[1..])
  }

  lemma {:induction false} GoodPrefixAt(files: seq<File>, i: nat)
    requires i < |files| && i <= GoodPrefix(files)
    ensures i < GoodPrefix(files) <==> files[i].contents.Some?
  {
    if i == 0 {
    } else {
      GoodPrefixAt(files[1..], i - 1);
    }
  }

  function Loaded(trees: map<string, Tree>, files: seq<File>): map<string, Tree> {
    if files == [] then trees
    else
      var f := files[|files| - 1];
      var before := Loaded(trees, files[..|files| - 1]);
      if f.contents.Some? then before[f.lang := f.contents.value] else before
  }

  ghost predicate LoadsAgree(flats: map<string, Flat>, files: seq<File>) {
    (forall i, j :: 0 <= i < j < |files| ==> files[i].lang != files[j].lang) &&
    (forall i :: 0 <= i < |files| && files[i].contents.Some? ==>
      NamesAgree(files[i].contents.value) && OldNamesAgree(FlatOf(flats, files[i].lang), files[i].contents.value))
  }

  function InLanguage(flats: map<string, Flat>, trees: map<string, Tree>, lang: string, key: string): Option<string> {
    FlatThenNested(FlatOf(flats, lang), if lang in trees then Some(trees[lang]) else None, key)
  }

  function TranslateBoth(flats: map<string, Flat>, trees: map<string, Tree>, defaultLang: string, lang: string, key: string): string {
    if InLanguage(flats, trees, lang, key).Some? then InLanguage(flats, trees, lang, key).value
    else if lang != defaultLang && InLanguage(flats, trees, defaultLang, key).Some? then
      InLanguage(flats, trees, defaultLang, key).value
    else key
  }

  /** Flattening a well-formed tree into an empty map gives exactly the leaves
      of the tree, each under its dotted name. */
  lemma FreshFlatMirrors(flat: Flat, tree: Tree, q: string)
    requires WellFormed(tree) && FlattenedOver(map[], flat, tree, tree.fields.Keys, "")
    ensures (if q in flat then Some(flat[q]) else None) == LeafAt(tree, Split(q, '.'))
  {
    forall text ensures NamesVia(tree, tree.fields.Keys, "", q, text) <==> LeafAt(tree, Split(q, '.')) == Some(text) {
      NamesIffSplitPath(tree, q, text);
    }
    assert EntryIs(map[], flat, tree, tree.fields.Keys, "", q);
    if LeafAt(tree, Split(q, '.')).Some? {
      assert NamesVia(tree, tree.fields.Keys, "", q, LeafAt(tree, Split(q, '.')).value);
    }
  }

  /** Loading a language again with a well-formed tree: the two lookups agree
      exactly when every name the flat map already held is a leaf again, or is
      an object that prints as the old text. */
  lemma ReloadAgreesIff(before: Flat, after: Flat, tree: Tree)
    requires WellFormed(tree) && FlattenedOver(before, after, tree, tree.fields.Keys, "")
    ensures Agrees(after, tree) <==>
            (forall q :: q in before ==> LeafAt(tree, Split(q, '.')).Some? || Nested(tree, q) == Some(before[q]))
  {
    forall q
      ensures FlatThenNested(after, Some(tree), q) == Nested(tree, q) <==>
              (q in before ==> LeafAt(tree, Split(q, '.')).Some? || Nested(tree, q) == Some(before[q]))
    {
      forall text ensures NamesVia(tree, tree.fields.Keys, "", q, text) <==> LeafAt(tree, Split(q, '.')) == Some(text) {
        NamesIffSplitPath(tree, q, text);
      }
      TextOfLeaf(tree, Split(q, '.'));
      assert EntryIs(before, after, tree, tree.fields.Keys, "", q);
      if LeafAt(tree, Split(q, '.')).Some? {
        assert NamesVia(tree, tree.fields.Keys, "", q, LeafAt(tree, Split(q, '.')).value);
      }
    }
  }

  /** The names filed for one key of a tree. */
  lemma NamesOfOneKey(tree: Tree, key: string, prefix: string, q: string, text: string)
    requires key in tree.fields
    ensures NamesVia(tree, {key}, prefix, q, text) <==>
            (IsLeaf(tree.fields[key]) && q == Under(prefix, key) && text == tree.fields[key].text) ||
            (tree.fields[key].Obj? && NamesVia(tree.fields[key].tree, tree.fields[key].tree.fields.Keys, Under(prefix, key), q, text))
  {
    if path :| LeafAt(tree, path) == Some(text) && path[0] in {key} && NameOf(prefix, path) == q {
      if |path| == 1 {
        assert NameOf(Under(prefix, key), path[1..]) == Under(prefix, key);
      } else {
        assert LeafAt(tree.fields[key].tree, path[1..]) == Some(text);
      }
    }
    if IsLeaf(tree.fields[key]) && q == Under(prefix, key) && text == tree.fields[key].text {
      assert LeafAt(tree, [key]) == Some(text) && NameOf(prefix, [key]) == NameOf(q, []) == q;
    }
    if tree.fields[key].Obj? && NamesVia(tree.fields[key].tree, tree.fields[key].tree.fields.Keys, Under(prefix, key), q, text) {
      var path :| LeafAt(tree.fields[key].tree, path) == Some(text) && path[0] in tree.fields[key].tree.fields.Keys &&
                  NameOf(Under(prefix, key), path) == q;
      var longer := [key] + path;
      assert longer[1..] == path;
      assert LeafAt(tree, longer) == Some(text) && longer[0] in {key} && NameOf(prefix, longer) == q;
    }
  }

  lemma NamesOfOneMore(tree: Tree, keys: set<string>, key: string, prefix: string, q: string, text: string)
    ensures NamesVia(tree, keys + {key}, prefix, q, text) <==>
            NamesVia(tree, keys, prefix, q, text) || NamesVia(tree, {key}, prefix, q, text)
  {
  }

  /** Filing one more key extends what has been filed so far. */
  lemma OneKeyMore(first: Flat, before: Flat, after: Flat, tree: Tree, keys: set<string>, key: string, prefix: string)
    requires key in tree.fields && FlattenedOver(first, before, tree, keys, prefix)
    requires tree.fields[key].Obj? ==> FlattenedOver(before, after, tree.fields[key].tree, tree.fields[key].tree.fields.Keys, Under(prefix, key))
    requires IsLeaf(tree.fields[key]) ==> after == before[Under(prefix, key) := tree.fields[key].text]
    requires tree.fields[key].Null? ==> after == before
    ensures FlattenedOver(first, after, tree, keys + {key}, prefix)
  {
    forall q ensures EntryIs(first, after, tree, keys + {key}, prefix, q) {
      assert EntryIs(first, before, tree, keys, prefix, q);
      KeyFiled(before, after, tree, key, prefix, q);
      forall text
        ensures NamesVia(tree, keys + {key}, prefix, q, text) <==>
                NamesVia(tree, keys, prefix, q, text) || NamesVia(tree, {key}, prefix, q, text)
      {
        NamesOfOneMore(tree, keys, key, prefix, q, text);
      }
      hide NamesVia;
    }
  }

  /** Filing one key files the names of that key and no others. */
  lemma KeyFiled(before: Flat, after: Flat, tree: Tree, key: string, prefix: string, q: string)
    requires key in tree.fields
    requires tree.fields[key].Obj? ==> FlattenedOver(before, after, tree.fields[key].tree, tree.fields[key].tree.fields.Keys, Under(prefix, key))
    requires IsLeaf(tree.fields[key]) ==> after == before[Under(prefix, key) := tree.fields[key].text]
    requires tree.fields[key].Null? ==> after == before
    ensures EntryIs(before, after, tree, {key}, prefix, q)
  {
    forall text
      ensures NamesVia(tree, {key}, prefix, q, text) <==>
              (IsLeaf(tree.fields[key]) && q == Under(prefix, key) && text == tree.fields[key].text) ||
              (tree.fields[key].Obj? && NamesVia(tree.fields[key].tree, tree.fields[key].tree.fields.Keys, Under(prefix, key), q, text))
    {
      NamesOfOneKey(tree, key, prefix, q, text);
    }
    hide NamesVia, Under;
    if tree.fields[key].Obj? {
      assert EntryIs(before, after, tree.fields[key].tree, tree.fields[key].tree.fields.Keys, Under(prefix, key), q);
    } else if IsLeaf(tree.fields[key]) && q == Under(prefix, key) {
      assert NamesVia(tree, {key}, prefix, q, tree.fields[key].text);
    }
  }

  lemma NothingFiled(flat: Flat, tree: Tree, prefix: string)
    ensures FlattenedOver(flat, flat, tree, {}, prefix)
  {
  }
}
