/** Flags registered in code, with a version that grows whenever what the
    registry holds may change. */
module FlagRegistry {
  import opened Text

  datatype Flag = Flag(key: string, description: string, default: bool)

  type Table = map<string, Flag>

  datatype Outcome = Outcome(table: Table, panicked: bool)

  predicate KeyedByName(t: Table) {
    forall k :: k in t ==> t[k].key == k && k != ""
  }

  /** What registering the flags in turn leaves behind. */
  function Registered(t: Table, flags: seq<Flag>, devOrTest: bool): Outcome
    decreases |flags|
  {
    if flags == [] then Outcome(t, false)
    else
      var f := flags[0];
      if devOrTest && (f.key == "" || f.key in t) then Outcome(t, true)
      else Registered(if f.key == "" then t else t[f.key := f], flags[1..], devOrTest)
  }

  /** In development registration succeeds exactly for new, distinct,
      non-empty keys; elsewhere it always does. */
  lemma {:induction false} PanicsExactlyOnBadKeys(t: Table, flags: seq<Flag>, devOrTest: bool)
    ensures !Registered(t, flags, devOrTest).panicked <==>
            devOrTest ==>
              (forall i :: 0 <= i < |flags| ==> flags[i].key != "" && flags[i].key !in t) &&
              (forall i, j :: 0 <= i < j < |flags| ==> flags[i].key != flags[j].key)
    decreases |flags|
  {
    if flags == [] {
    } else {
      var f := flags[0];
      if !devOrTest || (f.key != "" && f.key !in t) {
        var t' := if f.key == "" then t else t[f.key := f];
        PanicsExactlyOnBadKeys(t', flags[1..], devOrTest);
        if devOrTest {
          forall i | 0 <= i < |flags| - 1 ensures flags[1..][i] == flags[i + 1] {}
          if Registered(t, flags, devOrTest).panicked {
            if i :| 0 <= i < |flags| - 1 && (flags[1..][i].key == "" || flags[1..][i].key in t') {
              assert flags[i + 1].key == "" || flags[i + 1].key in t || flags[i + 1].key == flags[0].key;
            } else {
              var i, j :| 0 <= i < j < |flags| - 1 && flags[1..][i].key == flags[1..][j].key;
              assert flags[i + 1].key == flags[j + 1].key;
            }
          } else {
            forall i, j | 0 <= i < j < |flags| ensures flags[i].key != flags[j].key {
              assert flags[1..][j - 1] == flags[j];
              if i > 0 { assert flags[1..][i - 1] == flags[i]; }
            }
          }
        }
      }
    }
  }

  /** A registration that panics has registered exactly the flags before the
      offending one, which has an empty key or one that is taken by then. */
  lemma {:induction false} PanicKeepsFlagsBefore(t: Table, flags: seq<Flag>) returns (i: nat)
    requires Registered(t, flags, true).panicked
    ensures i < |flags| && Registered(t, flags[..i], true) == Outcome(Registered(t, flags, true).table, false)
    ensures flags[i].key == "" || flags[i].key in Registered(t, flags, true).table
    decreases |flags|
  {
    var f := flags[0];
    if f.key == "" || f.key in t {
      i := 0;
    } else {
      i := PanicKeepsFlagsBefore(t[f.key := f], flags[1..]);
      i := i + 1;
      assert flags[..i][0] == f && flags[..i][1..] == flags[1..][..i - 1];
    }
  }

  /** The last flag in the list with this key. */
  function LastFor(flags: seq<Flag>, k: string): Option<Flag> {
    if flags == [] then None
    else if flags[|flags| - 1].key == k then Some(flags[|flags| - 1])
    else LastFor(flags[..|flags| - 1], k)
  }

  lemma {:induction false} LastForTail(flags: seq<Flag>, k: string)
    requires flags != []
    ensures LastFor(flags, k) == if LastFor(flags[1..], k).Some? then LastFor(flags[1..], k)
                                 else if flags[0].key == k then Some(flags[0]) else None
  {
    if |flags| > 1 {
      LastForTail(flags[..|flags| - 1], k);
      assert flags[..|flags| - 1][1..] == flags[1..][..|flags| - 2];
    }
  }

  /** When nothing panics, the last registration of a key wins and a key that
      is not registered again keeps what it had. */
  lemma {:induction false} LastRegistrationWins(t: Table, flags: seq<Flag>, devOrTest: bool, k: string)
    requires !Registered(t, flags, devOrTest).panicked && k != ""
    ensures var t' := Registered(t, flags, devOrTest).table;
            if LastFor(flags, k).Some? then k in t' && t'[k] == LastFor(flags, k).value
            else (k in t' <==> k in t) && (k in t ==> t'[k] == t[k])
    decreases |flags|
  {
    if flags == [] {
    } else {
      var f := flags[0];
      LastForTail(flags, k);
      LastRegistrationWins(if f.key == "" then t else t[f.key := f], flags[1..], devOrTest, k);
    }
  }

  /** Flags are never taken out of the registry. */
  ghost predicate KeysGrow(versions: seq<Table>) {
    forall v, w :: 0 <= v <= w < |versions| ==> versions[v].Keys <= versions[w].Keys
  }

  /** The object behind the package variables of registry.go. The ghost
      `versions[v]` is what the registry held while its version was `v`. */
  class Registry {
    var registered: Table
    var regVer: nat
    ghost var versions: seq<Table>

    ghost predicate Valid()
      reads this
    {
      KeyedByName(registered) && |versions| == regVer + 1 && versions[regVer] == registered && KeysGrow(versions)
    }

    constructor ()
      ensures Valid() && registered == map[] && regVer == 0
    {
      registered, regVer, versions := map[], 0, [map[]];
    }

    /** Registers the flags in turn; a panic leaves the flags before it
        registered. Versions seen before keep naming the same contents, so
        within a run equal versions mean equal registries. */
    method RegisterFlags(flags: seq<Flag>, devOrTest: bool) returns (panicked: bool)
      requires Valid()
      modifies this
      ensures Valid() && old(versions) <= versions
      ensures Outcome(registered, panicked) == Registered(old(registered), flags, devOrTest)
    {
      for i := 0 to |flags|
        invariant Valid() && old(versions) <= versions
        invariant Registered(old(registered), flags, devOrTest) == Registered(registered, flags[i..], devOrTest)
      {
        var f := flags[i];
        assert flags[i..][1..] == flags[i + 1..];
        if f.key == "" {
          if devOrTest { return true; }
          continue;
        }
        if f.key in registered && devOrTest { return true; }
        if f.key !in registered || registered[f.key].description != f.description || registered[f.key].default != f.default {
          regVer := regVer + 1;
          versions := versions + [registered[f.key := f]];
        } else {
          assert registered[f.key := f] == registered;
        }
        registered := registered[f.key := f];
      }
      return false;
    }

    /** The registered keys, in whatever order the map yields them. */
    method ListKeys() returns (keys: seq<string>)
      ensures forall k :: k in keys <==> k in registered
      ensures |keys| == |registered|
    {
      keys := [];
      var rest := registered.Keys;
      while rest != {}
        invariant rest <= registered.Keys && |keys| + |rest| == |registered.Keys|
        invariant forall k :: k in keys <==> k in registered.Keys - rest
      {
        var k :| k in rest;
        keys, rest := keys + [k], rest - {k};
      }
    }

    /** The default of a flag, and whether it is registered. */
    function GetDefault(k: string): (r: (bool, bool))
      reads this
      ensures k in registered ==> r == (registered[k].default, true)
      ensures k !in registered ==> r == (false, false)
    {
      if k in registered then (registered[k].default, true) else (false, false)
    }
  }
}
