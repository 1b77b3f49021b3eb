/** The table of flag overrides: at most one row per flag, kind and principal. */
module Overrides {
  import opened Text
  import opened FlagKeys

  datatype Kind = Global | Tenant | Role | User

  /** A row; `pid` is NULL for None. */
  datatype Override = Override(flag: string, kind: Kind, pid: Option<string>, value: bool)

  /** What the unique index indexes: IFNULL(principal_id, '') for the principal. */
  datatype Slot = Slot(flag: string, kind: Kind, id: string)

  type Slots = map<Slot, bool>

  function SlotOf(o: Override): Slot {
    Slot(o.flag, o.kind, OrEmpty(o.pid))
  }

  function NullIfEmpty(s: string): Option<string> {
    if s == "" then None else Some(s)
  }

  /** Distinct slots, and empty ids stored as NULL. */
  ghost predicate WellKept(rows: seq<Override>) {
    (forall i, j :: 0 <= i < j < |rows| ==> SlotOf(rows[i]) != SlotOf(rows[j])) &&
    (forall o :: o in rows ==> o.pid != Some(""))
  }

  /** No global row names a principal. */
  ghost predicate PlainGlobals(rows: seq<Override>) {
    forall o :: o in rows && o.kind.Global? ==> o.pid.None?
  }

  /** The table as a map from slots to values. */
  function View(rows: seq<Override>): Slots {
    if rows == [] then map[] else View(rows[..|rows| - 1])[SlotOf(rows[|rows| - 1]) := rows[|rows| - 1].value]
  }

  /** The map holds each row's value and nothing else. */
  ghost predicate IsView(rows: seq<Override>, m: Slots) {
    (forall o :: o in rows ==> SlotOf(o) in m && m[SlotOf(o)] == o.value) &&
    (forall s :: s in m ==> exists o :: o in rows && SlotOf(o) == s)
  }

  lemma {:induction false} ViewIsView(rows: seq<Override>)
    requires WellKept(rows)
    ensures IsView(rows, View(rows))
  {
    if rows == [] {
    } else {
      var front, last := rows[..|rows| - 1], rows[|rows| - 1];
      assert rows == front + [last];
      assert WellKept(front);
      ViewIsView(front);
      forall o | o in front ensures SlotOf(o) != SlotOf(last) {
        var i :| 0 <= i < |front| && front[i] == o;
        assert rows[i] == o;
      }
    }
  }

  lemma ViewIsUnique(rows: seq<Override>, m: Slots)
    requires WellKept(rows) && IsView(rows, m)
    ensures View(rows) == m
  {
    ViewIsView(rows);
    forall s ensures s in m <==> s in View(rows) {}
    forall s | s in m ensures m[s] == View(rows)[s] {
      var o :| o in rows && SlotOf(o) == s;
    }
  }

  /** The WHERE clause of ListOverrides. A NULL id equals nothing. */
  predicate Matches(o: Override, keys: seq<string>, p: Principals) {
    o.flag in keys &&
    match o.kind
    case Global => true
    case Tenant => p.tenant.Some? && o.pid == p.tenant
    case Role => o.pid.Some? && o.pid.value in p.roles
    case User => p.user.Some? && o.pid == p.user
  }

  class OverrideTable {
    var rows: seq<Override>

    ghost predicate Valid()
      reads this
    {
      WellKept(rows)
    }

    constructor ()
      ensures Valid() && rows == []
    {
      rows := [];
    }

    /** UPDATE the slot's row; `n` is the number of rows updated. */
    method UpdateRow(flag: string, kind: Kind, id: string, value: bool) returns (n: nat)
      requires Valid()
      modifies this
      ensures Valid() && (n > 0 <==> Slot(flag, kind, id) in View(old(rows)))
      ensures if n > 0 then View(rows) == View(old(rows))[Slot(flag, kind, id) := value] else rows == old(rows)
      ensures PlainGlobals(old(rows)) ==> PlainGlobals(rows)
    {
      hide View, WellKept, PlainGlobals;
      var slot := Slot(flag, kind, id);
      n := 0;
      var updated := [];
      for i := 0 to |rows|
        invariant |updated| == i && rows == old(rows)
        invariant forall j :: 0 <= j < i ==>
          updated[j] == if SlotOf(rows[j]) == slot then rows[j].(value := value) else rows[j]
        invariant n == 0 ==> forall j :: 0 <= j < i ==> SlotOf(rows[j]) != slot
        invariant n > 0 ==> exists j :: 0 <= j < i && SlotOf(rows[j]) == slot
      {
        if SlotOf(rows[i]) == slot {
          updated, n := updated + [rows[i].(value := value)], n + 1;
        } else {
          updated := updated + [rows[i]];
        }
      }
      RowsAfterUpdate(rows, updated, slot, value);
      rows := updated;
    }

    /** INSERT a row; the unique index refuses it if the slot is taken. */
    method InsertRow(flag: string, kind: Kind, id: string, value: bool) returns (ok: bool)
      requires Valid()
      modifies this
      ensures Valid() && (ok <==> Slot(flag, kind, id) !in View(old(rows)))
      ensures if ok then View(rows) == View(old(rows))[Slot(flag, kind, id) := value] else rows == old(rows)
      ensures PlainGlobals(old(rows)) && (kind.Global? ==> id == "") ==> PlainGlobals(rows)
    {
      var slot := Slot(flag, kind, id);
      ViewIsView(rows);
      hide View;
      for i := 0 to |rows|
        invariant rows == old(rows) && forall j :: 0 <= j < i ==> SlotOf(rows[j]) != slot
      {
        if SlotOf(rows[i]) == slot {
          assert rows[i] in rows;
          return false;
        }
      }
      InsertedRow(rows, Override(flag, kind, NullIfEmpty(id), value));
      rows := rows + [Override(flag, kind, NullIfEmpty(id), value)];
      return true;
    }

    /** UPDATE the slot's row, and INSERT one if no row was updated. */
    method SetOverride(flag: string, kind: Kind, id: string, value: bool)
      requires Valid()
      modifies this
      ensures Valid() && View(rows) == View(old(rows))[Slot(flag, kind, id) := value]
      ensures PlainGlobals(old(rows)) && (kind.Global? ==> id == "") ==> PlainGlobals(rows)
    {
      hide View, WellKept, PlainGlobals;
      var n := UpdateRow(flag, kind, id, value);
      if n == 0 {
        var _ := InsertRow(flag, kind, id, value);
      }
    }

    /** DELETE the slot's row, if there is one. */
    method DeleteOverride(flag: string, kind: Kind, id: string)
      requires Valid()
      modifies this
      ensures Valid() && View(rows) == View(old(rows)) - {Slot(flag, kind, id)}
      ensures PlainGlobals(old(rows)) ==> PlainGlobals(rows)
    {
      var slot := Slot(flag, kind, id);
      var kept := [];
      for i := 0 to |rows|
        invariant rows == old(rows) && WellKept(kept)
        invariant forall o :: o in kept <==> o in rows[..i] && SlotOf(o) != slot
      {
        assert rows[..i + 1] == rows[..i] + [rows[i]];
        if SlotOf(rows[i]) != slot {
          forall o | o in kept ensures SlotOf(o) != SlotOf(rows[i]) {
            var j :| 0 <= j < i && rows[j] == o;
          }
          kept := kept + [rows[i]];
        }
      }
      assert rows[..|rows|] == rows;
      ViewIsView(rows);
      ViewIsUnique(kept, View(rows) - {slot});
      rows := kept;
    }

    /** Every row for one of the keys that applies to one of the principals. */
    method ListOverrides(keys: seq<string>, p: Principals) returns (res: seq<Override>)
      ensures forall o :: o in res <==> o in rows && Matches(o, keys, p)
    {
      res := [];
      if |keys| == 0 { return; }
      for i := 0 to |rows|
        invariant forall o :: o in res <==> o in rows[..i] && Matches(o, keys, p)
      {
        assert rows[..i + 1] == rows[..i] + [rows[i]];
        if Matches(rows[i], keys, p) {
          res := res + [rows[i]];
        }
      }
      assert rows[..|rows|] == rows;
    }
  }

  /** Two SetOverride calls for the same new slot, both updating before either
      inserts: the second insert is refused, and the first value stays. */
  method SetRace(t: OverrideTable, flag: string, kind: Kind, id: string, first: bool, second: bool)
    returns (n: nat, m: nat, ok: bool, refused: bool)
    requires t.Valid() && Slot(flag, kind, id) !in View(t.rows)
    modifies t
    ensures t.Valid() && n == m == 0 && ok && refused
    ensures View(t.rows) == View(old(t.rows))[Slot(flag, kind, id) := first]
  {
    hide View, WellKept, PlainGlobals;
    n := t.UpdateRow(flag, kind, id, first);
    m := t.UpdateRow(flag, kind, id, second);
    ok := t.InsertRow(flag, kind, id, first);
    var inserted := t.InsertRow(flag, kind, id, second);
    refused := !inserted;
  }

  ghost predicate IsUpdate(rows: seq<Override>, updated: seq<Override>, slot: Slot, value: bool) {
    |updated| == |rows| &&
    forall j :: 0 <= j < |rows| ==>
      updated[j] == if SlotOf(rows[j]) == slot then rows[j].(value := value) else rows[j]
  }

  lemma UpdateIsWellKept(rows: seq<Override>, updated: seq<Override>, slot: Slot, value: bool)
    requires WellKept(rows) && IsUpdate(rows, updated, slot, value)
    ensures WellKept(updated)
  {
    forall o | o in updated ensures o.pid != Some("") {
      var j :| 0 <= j < |rows| && updated[j] == o;
      assert rows[j] in rows;
    }
  }

  lemma UpdateKeepsGlobals(rows: seq<Override>, updated: seq<Override>, slot: Slot, value: bool)
    requires PlainGlobals(rows) && IsUpdate(rows, updated, slot, value)
    ensures PlainGlobals(updated)
  {
    forall o | o in updated && o.kind.Global? ensures o.pid.None? {
      var j :| 0 <= j < |rows| && updated[j] == o;
      assert rows[j] in rows;
    }
  }

  lemma UpdatedRows(rows: seq<Override>, updated: seq<Override>, slot: Slot, value: bool, hit: nat)
    requires WellKept(rows) && IsUpdate(rows, updated, slot, value)
    requires hit < |rows| && SlotOf(rows[hit]) == slot
    ensures WellKept(updated) && View(updated) == View(rows)[slot := value]
  {
    ViewIsView(rows);
    UpdateIsWellKept(rows, updated, slot, value);
    hide View, WellKept;
    var target := View(rows)[slot := value];
    forall o | o in updated ensures SlotOf(o) in target && target[SlotOf(o)] == o.value {
      var j :| 0 <= j < |rows| && updated[j] == o;
      assert rows[j] in rows;
    }
    forall s | s in target ensures exists o :: o in updated && SlotOf(o) == s {
      if s == slot {
        assert updated[hit] in updated && SlotOf(updated[hit]) == s;
      } else {
        var o :| o in rows && SlotOf(o) == s;
        var j :| 0 <= j < |rows| && rows[j] == o;
        assert updated[j] in updated && SlotOf(updated[j]) == s;
      }
    }
    ViewIsUnique(updated, target);
  }

  lemma RowsAfterUpdate(rows: seq<Override>, updated: seq<Override>, slot: Slot, value: bool)
    requires WellKept(rows) && IsUpdate(rows, updated, slot, value)
    ensures WellKept(updated) && (PlainGlobals(rows) ==> PlainGlobals(updated))
    ensures slot in View(rows) <==> exists j :: 0 <= j < |rows| && SlotOf(rows[j]) == slot
    ensures if slot in View(rows) then View(updated) == View(rows)[slot := value] else updated == rows
  {
    ViewIsView(rows);
    hide View, WellKept, PlainGlobals;
    if PlainGlobals(rows) { UpdateKeepsGlobals(rows, updated, slot, value); }
    if hit :| 0 <= hit < |rows| && SlotOf(rows[hit]) == slot {
      assert rows[hit] in rows;
      UpdatedRows(rows, updated, slot, value, hit);
    } else {
      assert updated == rows;
    }
  }

  lemma InsertedRow(rows: seq<Override>, o: Override)
    requires WellKept(rows) && forall j :: 0 <= j < |rows| ==> SlotOf(rows[j]) != SlotOf(o)
    requires o.pid != Some("")
    ensures WellKept(rows + [o]) && View(rows + [o]) == View(rows)[SlotOf(o) := o.value]
  {
    assert (rows + [o])[..|rows|] == rows;
  }
}
