/** Rows behind a repository: domain scoping, hooks, and atomic increments. */
module Repository {
  import opened Text
  import opened QueryBuilder

  const DOMAIN := "domain"

  datatype Cell = Int(n: int) | Text(text: string)

  /** A row without its id: the domain column and the other columns. */
  datatype Row = Row(domain: string, fields: map<string, Cell>)

  type Table = map<int, Row>

  type Criteria = map<string, Cell>

  datatype Error = HookFailed | Duplicate | IdTaken | InvalidField

  /** What a Before hook does with the model it is given. */
  datatype Hook = NoHook | Rejects | Changes(row: Row)

  datatype AtomicOp = AtomicOp(field: string, delta: int)

  /** What is fixed about a model type: whether it is domain scoped, its
      columns, its fields tagged unique per domain, and the text the database
      makes of adding a number to a text ('acme' + 0 is '0' in SQLite). */
  datatype Kind = Kind(scoped: bool, columns: set<string>, uniques: seq<string>, sum: (string, int) -> string)

  // ----- Reading -----

  predicate InScope(scope: Option<string>, row: Row) {
    scope.Some? ==> row.domain == scope.value
  }

  function Column(id: int, row: Row, f: string): Option<Cell> {
    if f == "id" then Some(Int(id))
    else if f == DOMAIN then Some(Text(row.domain))
    else if f in row.fields then Some(row.fields[f])
    else None
  }

  predicate Meets(id: int, row: Row, criteria: Criteria) {
    forall f :: f in criteria ==> Column(id, row, f) == Some(criteria[f])
  }

  function Select(t: Table, scope: Option<string>, criteria: Criteria): Table {
    map id | id in t && InScope(scope, t[id]) && Meets(id, t[id], criteria) :: t[id]
  }

  // ----- Writing, as one step on the table -----

  /** The answer of a call: the rows or the number it read, or how it ended. */
  datatype Answer = Rows(rows: Table) | Number(n: nat) | Done | Failed(error: Error)

  datatype Op =
    | Find(criteria: Criteria)
    | Count(criteria: Criteria)
    | Create(id: int, row: Row, before: Hook, afterFails: bool)
    | Update(id: int, row: Row, before: Hook, afterFails: bool)
    | Delete(id: int, before: Hook, afterFails: bool)
    | Atomic(id: int, ops: seq<AtomicOp>)

  datatype Outcome = Outcome(table: Table, answer: Answer)

  /** The model after its Before hook, unless the hook fails. */
  function Hooked(skipHooks: bool, before: Hook, row: Row): Option<Row> {
    if skipHooks || before.NoHook? then Some(row)
    else if before.Changes? then Some(before.row)
    else None
  }

  function Ended(skipHooks: bool, afterFails: bool): Answer {
    if !skipHooks && afterFails then Failed(HookFailed) else Done
  }

  /** A model without a domain takes the context's. */
  function Homed(scope: Option<string>, row: Row): Row {
    if scope.Some? && row.domain == "" then row.(domain := scope.value) else row
  }

  /** A row in scope shares the value of a unique field. */
  predicate Clashes(t: Table, scope: Option<string>, kind: Kind, id: int, row: Row) {
    exists f :: f in kind.uniques && Column(id, row, f).Some? && Select(t, scope, map[f := Column(id, row, f).value]) != map[]
  }

  /** Whether Create checks uniqueness: with filtering on, for scoped models. */
  predicate ChecksUnique(ctx: Context, kind: Kind) {
    ctx.filtering && !ctx.skipScope && kind.scoped
  }

  /** The delta of the last op on `f`: of repeated assignments only the last counts. */
  function LastDelta(ops: seq<AtomicOp>, f: string): int {
    if ops == [] then 0
    else if ops[|ops| - 1].field == f then ops[|ops| - 1].delta
    else LastDelta(ops[..|ops| - 1], f)
  }

  predicate AllKnown(ops: seq<AtomicOp>, columns: set<string>) {
    forall i :: 0 <= i < |ops| ==> ops[i].field in columns
  }

  predicate Sets(ops: seq<AtomicOp>, f: string) {
    exists i :: 0 <= i < |ops| && ops[i].field == f
  }

  function Raised(kind: Kind, cell: Cell, delta: int): Cell {
    match cell
    case Int(n) => Int(n + delta)
    case Text(text) => Text(kind.sum(text, delta))
  }

  /** The row after `SET f = f + ?` for every op; the domain is a column like any other. */
  function Bumped(kind: Kind, row: Row, ops: seq<AtomicOp>): Row {
    Row(if Sets(ops, DOMAIN) then kind.sum(row.domain, LastDelta(ops, DOMAIN)) else row.domain,
        map f | f in row.fields ::
          if Sets(ops, f) then Raised(kind, row.fields[f], LastDelta(ops, f)) else row.fields[f])
  }

  function Apply(kind: Kind, ctx: Context, skipHooks: bool, t: Table, op: Op): Outcome {
    var scope := ScopeOf(ctx, kind.scoped);
    match op
    case Find(criteria) => Outcome(t, Rows(Select(t, scope, criteria)))
    case Count(criteria) => Outcome(t, Number(|Select(t, scope, criteria)|))
    case Create(id, row, before, afterFails) =>
      var hooked := Hooked(skipHooks, before, row);
      if hooked.None? then Outcome(t, Failed(HookFailed))
      else
        var homed := Homed(scope, hooked.value);
        if ChecksUnique(ctx, kind) && Clashes(t, scope, kind, id, homed) then Outcome(t, Failed(Duplicate))
        else if id in t then Outcome(t, Failed(IdTaken))
        else Outcome(t[id := homed], Ended(skipHooks, afterFails))
    case Update(id, row, before, afterFails) =>
      var hooked := Hooked(skipHooks, before, row);
      if hooked.None? then Outcome(t, Failed(HookFailed))
      else Outcome(if id in t && InScope(scope, t[id]) then t[id := hooked.value] else t, Ended(skipHooks, afterFails))
    case Delete(id, before, afterFails) =>
      if !skipHooks && before.Rejects? then Outcome(t, Failed(HookFailed))
      else Outcome(if id in t && InScope(scope, t[id]) then t - {id} else t, Ended(skipHooks, afterFails))
    case Atomic(id, ops) =>
      if !AllKnown(ops, kind.columns) then Outcome(t, Failed(InvalidField))
      else Outcome(if ops != [] && id in t && InScope(scope, t[id]) then t[id := Bumped(kind, t[id], ops)] else t, Done)
  }

  function ApplyAll(kind: Kind, ctx: Context, skipHooks: bool, t: Table, ops: seq<Op>): (Table, seq<Answer>)
    decreases |ops|
  {
    if ops == [] then (t, [])
    else
      var o := Apply(kind, ctx, skipHooks, t, ops[0]);
      var rest := ApplyAll(kind, ctx, skipHooks, o.table, ops[1..]);
      (rest.0, [o.answer] + rest.1)
  }

  /** The call stops before its statement: its Before hook fails, or it is
      refused for a duplicate, a taken id or an unknown field. */
  predicate FailsEarly(kind: Kind, ctx: Context, skipHooks: bool, t: Table, op: Op) {
    var answer := Apply(kind, ctx, skipHooks, t, op).answer;
    ((op.Create? || op.Update?) && Hooked(skipHooks, op.before, op.row).None?) ||
    (op.Delete? && !skipHooks && op.before.Rejects?) ||
    (answer.Failed? && answer.error != HookFailed)
  }

  /** A call that fails early changes nothing. A Create that does not leaves
      its row, also one for another domain, and answers as its After hook does. */
  lemma OnlyEarlyFailuresChangeNothing(kind: Kind, ctx: Context, skipHooks: bool, t: Table, op: Op)
    ensures var o := Apply(kind, ctx, skipHooks, t, op);
            (FailsEarly(kind, ctx, skipHooks, t, op) ==> o.answer.Failed? && o.table == t) &&
            (op.Create? && !FailsEarly(kind, ctx, skipHooks, t, op) ==>
              op.id !in t && op.id in o.table && (o.answer == Done <==> skipHooks || !op.afterFails))
  {
    hide Select, Clashes, LastDelta;
  }

  /** The calls of a run that do not fail early, and their answers. */
  function Effective(kind: Kind, ctx: Context, skipHooks: bool, t: Table, ops: seq<Op>): (seq<Op>, seq<Answer>)
    decreases |ops|
  {
    if ops == [] then ([], [])
    else
      var o := Apply(kind, ctx, skipHooks, t, ops[0]);
      var rest := Effective(kind, ctx, skipHooks, o.table, ops[1..]);
      if FailsEarly(kind, ctx, skipHooks, t, ops[0]) then rest else ([ops[0]] + rest.0, [o.answer] + rest.1)
  }

  /** Dropping every call that fails early from a run changes neither the
      final table nor the answers of the others. */
  lemma {:induction false} EarlyFailuresLeaveNoTrace(kind: Kind, ctx: Context, skipHooks: bool, t: Table, ops: seq<Op>)
    ensures var e := Effective(kind, ctx, skipHooks, t, ops);
            ApplyAll(kind, ctx, skipHooks, t, e.0) == (ApplyAll(kind, ctx, skipHooks, t, ops).0, e.1)
    decreases |ops|
  {
    if ops == [] {
    } else {
      var o := Apply(kind, ctx, skipHooks, t, ops[0]);
      var rest := Effective(kind, ctx, skipHooks, o.table, ops[1..]);
      EarlyFailuresLeaveNoTrace(kind, ctx, skipHooks, o.table, ops[1..]);
      OnlyEarlyFailuresChangeNothing(kind, ctx, skipHooks, t, ops[0]);
      hide Apply, FailsEarly;
      assert ([ops[0]] + rest.0)[1..] == rest.0;
    }
  }

  predicate LeavesAlone(op: Op, id: int) {
    op.Find? || op.Count? || op.id != id
  }

  /** The row under an id is the same after a run that does not name the id. */
  lemma {:induction false} OtherIdsAreKept(kind: Kind, ctx: Context, skipHooks: bool, t: Table, ops: seq<Op>, id: int)
    requires forall i :: 0 <= i < |ops| ==> LeavesAlone(ops[i], id)
    ensures var t' := ApplyAll(kind, ctx, skipHooks, t, ops).0;
            (id in t' <==> id in t) && (id in t ==> t'[id] == t[id])
    decreases |ops|
  {
    if ops == [] {
    } else {
      var t' := Apply(kind, ctx, skipHooks, t, ops[0]).table;
      assert LeavesAlone(ops[0], id);
      assert (id in t' <==> id in t) && (id in t ==> t'[id] == t[id]) by { hide Clashes, Bumped, Select; }
      hide Apply;
      OtherIdsAreKept(kind, ctx, skipHooks, t', ops[1..], id);
    }
  }

  /** The row a create or an update leaves under its id. */
  function RowWritten(ctx: Context, kind: Kind, skipHooks: bool, op: Op): Row
    requires (op.Create? || op.Update?) && Hooked(skipHooks, op.before, op.row).Some?
  {
    var hooked := Hooked(skipHooks, op.before, op.row).value;
    if op.Create? then Homed(ScopeOf(ctx, kind.scoped), hooked) else hooked
  }

  /** Reading by id after a write and any run of other calls that does not name
      the id: a created or updated row is found as it was written if it is in
      scope, and otherwise not at all; a deleted one is not found. */
  lemma WritesAreReadBack(kind: Kind, ctx: Context, skipHooks: bool, t: Table, op: Op, later: seq<Op>)
    requires op.Create? || op.Update? || op.Delete?
    requires !FailsEarly(kind, ctx, skipHooks, t, op)
    requires forall i :: 0 <= i < |later| ==> LeavesAlone(later[i], op.id)
    ensures var scope := ScopeOf(ctx, kind.scoped);
            var wrote := Apply(kind, ctx, skipHooks, t, op).table;
            var t' := ApplyAll(kind, ctx, skipHooks, wrote, later).0;
            var found := Apply(kind, ctx, skipHooks, t', Find(map["id" := Int(op.id)])).answer;
            found == Rows(if op.Delete? || (op.Update? && (op.id !in t || !InScope(scope, t[op.id]))) then map[]
                          else if InScope(scope, RowWritten(ctx, kind, skipHooks, op)) then
                            map[op.id := RowWritten(ctx, kind, skipHooks, op)]
                          else map[])
  {
    var wrote := Apply(kind, ctx, skipHooks, t, op).table;
    var t' := ApplyAll(kind, ctx, skipHooks, wrote, later).0;
    LeftUnderId(kind, ctx, skipHooks, t, op);
    OtherIdsAreKept(kind, ctx, skipHooks, wrote, later, op.id);
    FindById(t', ScopeOf(ctx, kind.scoped), op.id);
    assert Apply(kind, ctx, skipHooks, t', Find(map["id" := Int(op.id)])).answer ==
           Rows(Select(t', ScopeOf(ctx, kind.scoped), map["id" := Int(op.id)])) by { hide Select, ApplyAll, Clashes; }
    hide Apply, ApplyAll, Select, FailsEarly, RowWritten;
  }

  lemma LeftUnderId(kind: Kind, ctx: Context, skipHooks: bool, t: Table, op: Op)
    requires op.Create? || op.Update? || op.Delete?
    requires !FailsEarly(kind, ctx, skipHooks, t, op)
    ensures var wrote, id := Apply(kind, ctx, skipHooks, t, op).table, op.id;
            if op.Create? || (id in t && InScope(ScopeOf(ctx, kind.scoped), t[id])) then
              if op.Delete? then id !in wrote else id in wrote && wrote[id] == RowWritten(ctx, kind, skipHooks, op)
            else (id in wrote <==> id in t) && (id in t ==> wrote[id] == t[id])
  {
    hide Clashes, Select;
  }

  lemma FindById(t: Table, scope: Option<string>, id: int)
    ensures Select(t, scope, map["id" := Int(id)]) ==
            if id in t && InScope(scope, t[id]) then map[id := t[id]] else map[]
  {
    forall j: int, row ensures Meets(j, row, map["id" := Int(id)]) <==> j == id {
      assert "id" in map["id" := Int(id)];
    }
  }

  // ----- What a query selects -----

  /** Criteria are joined by AND: one more keeps, of the rows selected before,
      exactly those with that value in that column. */
  lemma OneMoreCriterion(t: Table, scope: Option<string>, criteria: Criteria, f: string, value: Cell)
    requires f !in criteria
    ensures var before, after := Select(t, scope, criteria), Select(t, scope, criteria[f := value]);
            after == map id | id in before && Column(id, t[id], f) == Some(value) :: t[id]
  {
    var more := criteria[f := value];
    forall id, row ensures Meets(id, row, more) <==> Meets(id, row, criteria) && Column(id, row, f) == Some(value) {
      assert f in more && more[f] == value;
      assert forall g :: g in criteria ==> g in more && more[g] == criteria[g];
      if Meets(id, row, more) {
        assert Column(id, row, f) == Some(more[f]);
      }
    }
  }

  /** Without criteria every row in scope is selected, without a scope as well every row. */
  lemma NoCriteria(t: Table, d: string)
    ensures Select(t, None, map[]) == t
    ensures Select(t, Some(d), map[]) == Own(t, d)
  {
    assert forall id :: id in t ==> Meets(id, t[id], map[]);
  }

  /** A scope is one more criterion, on the domain column. */
  lemma ScopeIsACriterion(t: Table, criteria: Criteria, d: string)
    requires DOMAIN !in criteria
    ensures Select(t, Some(d), criteria) == Select(t, None, criteria[DOMAIN := Text(d)])
  {
    OneMoreCriterion(t, None, criteria, DOMAIN, Text(d));
  }

  /** A row in scope is found by the values it was written with, and by no others. */
  lemma FoundByItsFields(t: Table, scope: Option<string>, criteria: Criteria, id: int)
    requires id in t && InScope(scope, t[id])
    requires forall f :: f in criteria ==> f != "id" && f != DOMAIN
    ensures id in Select(t, scope, criteria) <==>
            forall f :: f in criteria ==> f in t[id].fields && t[id].fields[f] == criteria[f]
  {
  }

  // ----- Isolation between domains -----

  function Own(t: Table, d: string): Table {
    map id | id in t && t[id].domain == d :: t[id]
  }

  function Others(t: Table, d: string): Table {
    map id | id in t && t[id].domain != d :: t[id]
  }

  /** The row an op would write, after its Before hook. */
  function Written(skipHooks: bool, op: Op): Option<Row> {
    if op.Create? || op.Update? then Hooked(skipHooks, op.before, op.row) else None
  }

  /** An atomic update, with known fields only, that adds to the domain column and so changes it. */
  predicate AddsToDomain(kind: Kind, op: Op, d: string) {
    op.Atomic? && AllKnown(op.ops, kind.columns) && Sets(op.ops, DOMAIN) && kind.sum(d, LastDelta(op.ops, DOMAIN)) != d
  }

  /** The op names no other domain: a new row is for `d` or for none, an updated
      one for `d`, and nothing is added to the domain column. */
  predicate StaysHome(kind: Kind, skipHooks: bool, op: Op, d: string) {
    var w := Written(skipHooks, op);
    (w.Some? ==> w.value.domain == d || (op.Create? && w.value.domain == "")) && !AddsToDomain(kind, op, d)
  }

  /** The new row names another domain, its id is free, and it passes the
      uniqueness check of the context's own domain. */
  predicate CreatesElsewhere(kind: Kind, ctx: Context, skipHooks: bool, t: Table, op: Op, d: string)
    requires op.Create?
  {
    var w := Written(skipHooks, op);
    w.Some? && w.value.domain !in {"", d} && op.id !in t &&
    !(ChecksUnique(ctx, kind) && Clashes(t, Some(d), kind, op.id, w.value))
  }

  /** Under a scope no call changes or removes a row of another domain; and it
      leaves the other domains exactly as they were unless it writes a foreign
      domain into a row of its own: a Create that inserts one, an Update that
      moves an own row out, even to the empty domain, or an AtomicUpdate that
      adds to the domain column. */
  lemma OthersAreUntouched(kind: Kind, ctx: Context, skipHooks: bool, t: Table, op: Op, d: string)
    requires ScopeOf(ctx, kind.scoped) == Some(d)
    ensures var t' := Apply(kind, ctx, skipHooks, t, op).table;
            (forall id :: id in Others(t, d) ==> id in t' && t'[id] == t[id]) &&
            (Others(t', d) == Others(t, d) <==>
              !(op.Create? && CreatesElsewhere(kind, ctx, skipHooks, t, op, d)) &&
              !(op.Update? && Written(skipHooks, op).Some? && op.id in Own(t, d) && Written(skipHooks, op).value.domain != d) &&
              !(op.Atomic? && op.id in Own(t, d) && AddsToDomain(kind, op, d)))
  {
    var t' := Apply(kind, ctx, skipHooks, t, op).table;
    if op.Find? || op.Count? { return; }
    ChangesOneRow(kind, ctx, skipHooks, t, op, d);
    hide Apply, AddsToDomain;
    hide Clashes;
    if op.id in t' && (op.id !in t || t'[op.id] != t[op.id]) && t'[op.id].domain != d {
      assert op.id in Others(t', d) && op.id !in Others(t, d);
    } else {
      assert Others(t', d) == Others(t, d);
    }
  }

  /** What a writing call does to the table under a scope: only its own id
      changes, a row of another domain does not, and if the id ends up with a
      changed row then with the one written, homed, or bumped. */
  lemma ChangesOneRow(kind: Kind, ctx: Context, skipHooks: bool, t: Table, op: Op, d: string)
    requires ScopeOf(ctx, kind.scoped) == Some(d) && !op.Find? && !op.Count?
    ensures var t', w := Apply(kind, ctx, skipHooks, t, op).table, Written(skipHooks, op);
            (forall j :: j != op.id ==> (j in t' <==> j in t) && (j in t ==> t'[j] == t[j])) &&
            (op.id in t && t[op.id].domain != d ==> op.id in t' && t'[op.id] == t[op.id]) &&
            (op.Create? && t' != t ==> w.Some? && op.id !in t && op.id in t' && t'[op.id] == Homed(Some(d), w.value)) &&
            (op.Create? && w.Some? && w.value.domain !in {"", d} ==> (t' != t <==> CreatesElsewhere(kind, ctx, skipHooks, t, op, d))) &&
            (op.Update? && op.id in t && t[op.id].domain == d && w.Some? ==> op.id in t' && t'[op.id] == w.value) &&
            (op.Update? && w.None? ==> t' == t) &&
            (op.Update? && op.id !in t ==> op.id !in t') &&
            (op.Delete? && op.id in t' ==> op.id in t && t'[op.id] == t[op.id]) &&
            (op.Atomic? ==>
              (op.id in t' <==> op.id in t) &&
              (op.id in t && t[op.id].domain == d ==> (t'[op.id].domain != d <==> AddsToDomain(kind, op, d))))
  {
    hide Select, Clashes, LastDelta;
  }

  /** Adding any number to the domain column takes the caller's own row away
      from it, unless the sum happens to be the same text: the call succeeds,
      and from then on the row is another domain's. */
  lemma AddingToTheDomainLosesTheRow(kind: Kind, ctx: Context, skipHooks: bool, t: Table, id: int, delta: int, d: string)
    requires ScopeOf(ctx, kind.scoped) == Some(d) && DOMAIN in kind.columns && id in Own(t, d) && kind.sum(d, delta) != d
    ensures var o := Apply(kind, ctx, skipHooks, t, Atomic(id, [AtomicOp(DOMAIN, delta)]));
            o.answer == Done && id in Others(o.table, d) && Select(o.table, Some(d), map["id" := Int(id)]) == map[]
  {
    var ops := [AtomicOp(DOMAIN, delta)];
    assert ops[0].field == DOMAIN && Sets(ops, DOMAIN);
    FindById(Apply(kind, ctx, skipHooks, t, Atomic(id, ops)).table, Some(d), id);
  }

  lemma SameOwnRow(t: Table, u: Table, d: string, id: int)
    requires Own(t, d) == Own(u, d)
    ensures id in t && t[id].domain == d <==> id in u && u[id].domain == d
    ensures id in t && t[id].domain == d ==> t[id] == u[id]
  {
    assert id in Own(t, d) <==> id in Own(u, d);
    assert id in Own(t, d) ==> Own(t, d)[id] == Own(u, d)[id];
  }

  lemma SelectSeesOwnRows(t: Table, u: Table, d: string, criteria: Criteria)
    requires Own(t, d) == Own(u, d)
    ensures Select(t, Some(d), criteria) == Select(u, Some(d), criteria)
  {
    forall id ensures id in Select(t, Some(d), criteria) <==> id in Select(u, Some(d), criteria) {
      SameOwnRow(t, u, d, id);
    }
    forall id | id in Select(t, Some(d), criteria) ensures Select(t, Some(d), criteria)[id] == Select(u, Some(d), criteria)[id] {
      SameOwnRow(t, u, d, id);
    }
  }

  /** Tables with the same own rows, changed alike at one id, still have them. */
  lemma OwnAfterChange(t: Table, u: Table, t': Table, u': Table, d: string, id: int)
    requires Own(t, d) == Own(u, d)
    requires forall j :: j != id ==> (j in t' <==> j in t) && (j in t ==> t'[j] == t[j])
    requires forall j :: j != id ==> (j in u' <==> j in u) && (j in u ==> u'[j] == u[j])
    requires (id in t' && t'[id].domain == d <==> id in u' && u'[id].domain == d)
    requires id in t' && t'[id].domain == d ==> t'[id] == u'[id]
    ensures Own(t', d) == Own(u', d)
  {
    forall j ensures (j in Own(t', d) <==> j in Own(u', d)) && (j in Own(t', d) ==> t'[j] == u'[j]) {
      SameOwnRow(t, u, d, j);
    }
  }

  /** What a call answers and does to its own domain does not depend on the
      rows of other domains, as long as none of them holds a created id. */
  lemma OwnRowsDecide(kind: Kind, ctx: Context, skipHooks: bool, t: Table, u: Table, op: Op, d: string)
    requires ScopeOf(ctx, kind.scoped) == Some(d) && Own(t, d) == Own(u, d)
    requires op.Create? ==> op.id !in Others(t, d) && op.id !in Others(u, d)
    ensures var o, p := Apply(kind, ctx, skipHooks, t, op), Apply(kind, ctx, skipHooks, u, op);
            o.answer == p.answer && Own(o.table, d) == Own(p.table, d)
  {
    match op
    case Find(criteria) => SelectSeesOwnRows(t, u, d, criteria);
    case Count(criteria) => SelectSeesOwnRows(t, u, d, criteria);
    case Create(id, row, before, afterFails) => OwnCreate(kind, ctx, skipHooks, t, u, op, d);
    case _ => OwnChange(kind, ctx, skipHooks, t, u, op, d);
  }

  lemma OwnChange(kind: Kind, ctx: Context, skipHooks: bool, t: Table, u: Table, op: Op, d: string)
    requires ScopeOf(ctx, kind.scoped) == Some(d) && Own(t, d) == Own(u, d)
    requires op.Update? || op.Delete? || op.Atomic?
    ensures var o, p := Apply(kind, ctx, skipHooks, t, op), Apply(kind, ctx, skipHooks, u, op);
            o.answer == p.answer && Own(o.table, d) == Own(p.table, d)
  {
    var t', u' := Apply(kind, ctx, skipHooks, t, op).table, Apply(kind, ctx, skipHooks, u, op).table;
    SameOwnRow(t, u, d, op.id);
    ChangesOneRow(kind, ctx, skipHooks, t, op, d);
    ChangesOneRow(kind, ctx, skipHooks, u, op, d);
    hide Own, Others, Select, LastDelta, Clashes;
    if op.id in t && t[op.id].domain == d {
      if op.Atomic? { assert t[op.id] == u[op.id] && Bumped(kind, t[op.id], op.ops) == Bumped(kind, u[op.id], op.ops); }
    }
    hide Hooked, Bumped, AllKnown;
    OwnAfterChange(t, u, t', u', d, op.id);
  }

  lemma ClashesSeeOwnRows(t: Table, u: Table, kind: Kind, id: int, row: Row, d: string)
    requires Own(t, d) == Own(u, d)
    ensures Clashes(t, Some(d), kind, id, row) <==> Clashes(u, Some(d), kind, id, row)
  {
    forall criteria ensures Select(t, Some(d), criteria) == Select(u, Some(d), criteria) {
      SelectSeesOwnRows(t, u, d, criteria);
    }
  }

  lemma OwnCreate(kind: Kind, ctx: Context, skipHooks: bool, t: Table, u: Table, op: Op, d: string)
    requires ScopeOf(ctx, kind.scoped) == Some(d) && Own(t, d) == Own(u, d)
    requires op.Create? && op.id !in Others(t, d) && op.id !in Others(u, d)
    ensures var o, p := Apply(kind, ctx, skipHooks, t, op), Apply(kind, ctx, skipHooks, u, op);
            o.answer == p.answer && Own(o.table, d) == Own(p.table, d)
  {
    var t', u' := Apply(kind, ctx, skipHooks, t, op).table, Apply(kind, ctx, skipHooks, u, op).table;
    forall row ensures Clashes(t, Some(d), kind, op.id, row) <==> Clashes(u, Some(d), kind, op.id, row) {
      ClashesSeeOwnRows(t, u, kind, op.id, row, d);
    }
    SameOwnRow(t, u, d, op.id);
    assert op.id in t <==> op.id in u;
    hide Select, Own, Others, Clashes;
    OwnAfterChange(t, u, t', u', d, op.id);
  }

  /** Any sequence of calls in one domain leaves the rows of all others as
      they were, and answers the same whatever those rows are. */
  lemma {:induction false} DomainsAreIsolated(kind: Kind, ctx: Context, skipHooks: bool, t: Table, u: Table,
                                              ops: seq<Op>, d: string)
    requires ScopeOf(ctx, kind.scoped) == Some(d) && Own(t, d) == Own(u, d)
    requires forall i :: 0 <= i < |ops| ==> StaysHome(kind, skipHooks, ops[i], d)
    requires forall i :: 0 <= i < |ops| && ops[i].Create? ==> ops[i].id !in Others(t, d) && ops[i].id !in Others(u, d)
    ensures var a, b := ApplyAll(kind, ctx, skipHooks, t, ops), ApplyAll(kind, ctx, skipHooks, u, ops);
            a.1 == b.1 && Own(a.0, d) == Own(b.0, d) && Others(a.0, d) == Others(t, d) && Others(b.0, d) == Others(u, d)
    decreases |ops|
  {
    if ops == [] {
    } else {
      var t', u' := Apply(kind, ctx, skipHooks, t, ops[0]).table, Apply(kind, ctx, skipHooks, u, ops[0]).table;
      assert StaysHome(kind, skipHooks, ops[0], d);
      OthersAreUntouched(kind, ctx, skipHooks, t, ops[0], d);
      OthersAreUntouched(kind, ctx, skipHooks, u, ops[0], d);
      OwnRowsDecide(kind, ctx, skipHooks, t, u, ops[0], d);
      hide Apply, Own, Others, StaysHome;
      DomainsAreIsolated(kind, ctx, skipHooks, t', u', ops[1..], d);
    }
  }

  // ----- Unique per domain -----

  /** No two rows of the domain share the value of a unique field. */
  ghost predicate UniqueIn(t: Table, d: string, kind: Kind) {
    forall i, j :: i in t && j in t && i != j && t[i].domain == d && t[j].domain == d ==> !Share(kind, i, t[i], j, t[j])
  }

  predicate Share(kind: Kind, i: int, a: Row, j: int, b: Row) {
    exists f :: f in kind.uniques && Column(i, a, f).Some? && Column(i, a, f) == Column(j, b, f)
  }

  lemma TakenIff(t: Table, scope: Option<string>, kind: Kind, id: int, row: Row)
    ensures Clashes(t, scope, kind, id, row) <==> exists j :: j in t && InScope(scope, t[j]) && Share(kind, id, row, j, t[j])
  {
    forall f | f in kind.uniques && Column(id, row, f).Some?
      ensures Select(t, scope, map[f := Column(id, row, f).value]) != map[] <==>
              exists j :: j in t && InScope(scope, t[j]) && Column(j, t[j], f) == Column(id, row, f)
    {
      var criteria := map[f := Column(id, row, f).value];
      var found := Select(t, scope, criteria);
      forall j | j in t && InScope(scope, t[j]) ensures j in found <==> Column(j, t[j], f) == Column(id, row, f) {
        assert f in criteria;
      }
      if found != map[] {
        assert exists j :: j in found;
      }
    }
    if Clashes(t, scope, kind, id, row) {
      var f :| f in kind.uniques && Column(id, row, f).Some? && Select(t, scope, map[f := Column(id, row, f).value]) != map[];
      var j :| j in t && InScope(scope, t[j]) && Column(j, t[j], f) == Column(id, row, f);
      assert Share(kind, id, row, j, t[j]);
    }
    if j :| j in t && InScope(scope, t[j]) && Share(kind, id, row, j, t[j]) {
      var f :| f in kind.uniques && Column(id, row, f).Some? && Column(id, row, f) == Column(j, t[j], f);
      assert Select(t, scope, map[f := Column(id, row, f).value]) != map[];
    }
  }

  lemma ClashesIff(t: Table, d: string, kind: Kind, id: int, row: Row)
    ensures Clashes(t, Some(d), kind, id, row) <==> exists j :: j in t && t[j].domain == d && Share(kind, id, row, j, t[j])
  {
    TakenIff(t, Some(d), kind, id, row);
    hide Clashes, Share;
    assert forall j :: j in t ==> (InScope(Some(d), t[j]) <==> t[j].domain == d);
  }

  lemma ShareIsMutual(kind: Kind, i: int, a: Row, j: int, b: Row)
    ensures Share(kind, i, a, j, b) <==> Share(kind, j, b, i, a)
  {
  }

  /** Adding or changing one row keeps the domain's rows apart exactly when
      that row does not clash with the others. */
  lemma UniqueAfterOneIff(t: Table, id: int, row: Row, d: string, kind: Kind)
    requires UniqueIn(t, d, kind)
    ensures UniqueIn(t[id := row], d, kind) <==> !(row.domain == d && Clashes(t - {id}, Some(d), kind, id, row))
  {
    var t', rest := t[id := row], t - {id};
    ClashesIff(rest, d, kind, id, row);
    hide Clashes, Share;
    if row.domain == d && Clashes(rest, Some(d), kind, id, row) {
      var j :| j in rest && rest[j].domain == d && Share(kind, id, row, j, rest[j]);
      assert t'[j] == t[j] && t'[id] == row;
    } else {
      forall i, j | i in t' && j in t' && i != j && t'[i].domain == d && t'[j].domain == d
        ensures !Share(kind, i, t'[i], j, t'[j])
      {
        ShareIsMutual(kind, i, t'[i], j, t'[j]);
        if i != id && j != id {
          assert t'[i] == t[i] && t'[j] == t[j];
        } else if i == id {
          assert j in rest && rest[j] == t'[j];
        } else {
          assert i in rest && rest[i] == t'[i];
        }
      }
    }
  }

  /** Under a scope, creates and deletes keep unique fields unique in the
      domain. Update and AtomicUpdate check nothing: they keep them so exactly
      when the row they leave clashes with no other. */
  lemma StepKeepsUniqueIff(kind: Kind, ctx: Context, skipHooks: bool, t: Table, op: Op, d: string)
    requires ScopeOf(ctx, kind.scoped) == Some(d) && UniqueIn(t, d, kind)
    ensures var t' := Apply(kind, ctx, skipHooks, t, op).table;
            UniqueIn(t', d, kind) <==>
            ((op.Update? || op.Atomic?) && op.id in t' && t'[op.id].domain == d ==>
              !Clashes(t' - {op.id}, Some(d), kind, op.id, t'[op.id]))
  {
    var t' := Apply(kind, ctx, skipHooks, t, op).table;
    if op.Find? || op.Count? { return; }
    if op.id in t' {
      UniqueAfterOneIff(t, op.id, t'[op.id], d, kind);
      assert t' == t[op.id := t'[op.id]] && t' - {op.id} == t - {op.id} by { hide Clashes, Select, Bumped; }
      if op.Create? && t' != t {
        assert t - {op.id} == t;
        hide Clashes, Select;
      } else if op.Create? || op.Delete? {
        assert t' == t by { hide Clashes, Select; }
      }
    } else {
      assert forall j :: j in t' ==> j in t && t'[j] == t[j] by { hide Clashes, Select; }
    }
  }

  /** Over any run without updates the domain's unique fields stay unique. */
  lemma {:induction false} CreatesKeepUnique(kind: Kind, ctx: Context, skipHooks: bool, t: Table, ops: seq<Op>, d: string)
    requires ScopeOf(ctx, kind.scoped) == Some(d) && UniqueIn(t, d, kind)
    requires forall i :: 0 <= i < |ops| ==> !ops[i].Update? && !ops[i].Atomic?
    ensures UniqueIn(ApplyAll(kind, ctx, skipHooks, t, ops).0, d, kind)
    decreases |ops|
  {
    if ops == [] {
    } else {
      StepKeepsUniqueIff(kind, ctx, skipHooks, t, ops[0], d);
      hide Apply, UniqueIn, Clashes;
      CreatesKeepUnique(kind, ctx, skipHooks, Apply(kind, ctx, skipHooks, t, ops[0]).table, ops[1..], d);
    }
  }

  /** The check and the insert are two statements: when two creates both check
      before either inserts, both pass, and the fields are unique afterwards
      exactly when the two rows share no value. */
  lemma InterleavedCreatesIff(kind: Kind, t: Table, d: string, i: int, a: Row, j: int, b: Row)
    requires UniqueIn(t, d, kind) && i !in t && j !in t && i != j && a.domain == d && b.domain == d
    requires !Clashes(t, Some(d), kind, i, a) && !Clashes(t, Some(d), kind, j, b)
    ensures UniqueIn(t[i := a][j := b], d, kind) <==> !Share(kind, i, a, j, b)
  {
    UniqueAfterOneIff(t, i, a, d, kind);
    assert t - {i} == t;
    var t1 := t[i := a];
    UniqueAfterOneIff(t1, j, b, d, kind);
    assert t1 - {j} == t1;
    ClashesIff(t1, d, kind, j, b);
    ClashesIff(t, d, kind, j, b);
    ShareIsMutual(kind, i, a, j, b);
    hide Clashes, Share, UniqueIn;
    if Share(kind, j, b, i, a) {
      assert t1[i] == a;
    }
    assert forall k :: k in t ==> t1[k] == t[k];
  }

  // ----- Atomic increments -----

  /** What one call adds to a field of a row. */
  function AddedBy(kind: Kind, call: Op, id: int, f: string): int {
    if call.Atomic? && call.id == id && AllKnown(call.ops, kind.columns) then LastDelta(call.ops, f) else 0
  }

  function Added(kind: Kind, calls: seq<Op>, id: int, f: string): int {
    if calls == [] then 0 else AddedBy(kind, calls[0], id, f) + Added(kind, calls[1..], id, f)
  }

  function SumOfDeltas(ops: seq<AtomicOp>, f: string): int {
    if ops == [] then 0
    else SumOfDeltas(ops[..|ops| - 1], f) + if ops[|ops| - 1].field == f then ops[|ops| - 1].delta else 0
  }

  /** The ops before the last one on `f`; none if no op is on `f`. */
  function BeforeLast(ops: seq<AtomicOp>, f: string): seq<AtomicOp> {
    if ops == [] then []
    else if ops[|ops| - 1].field == f then ops[..|ops| - 1]
    else BeforeLast(ops[..|ops| - 1], f)
  }

  /** One call adds to a field exactly its last delta, so it adds them all
      exactly when the earlier ones cancel out. */
  lemma {:induction false} AddsAllIffEarlierCancel(ops: seq<AtomicOp>, f: string)
    ensures LastDelta(ops, f) == SumOfDeltas(ops, f) <==> SumOfDeltas(BeforeLast(ops, f), f) == 0
  {
    if ops != [] && ops[|ops| - 1].field != f {
      AddsAllIffEarlierCancel(ops[..|ops| - 1], f);
    }
  }

  predicate NamedOnce(fields: seq<string>) {
    forall i, j :: 0 <= i < j < |fields| ==> fields[i] != fields[j]
  }

  function FieldsOf(ops: seq<AtomicOp>): seq<string> {
    seq(|ops|, i requires 0 <= i < |ops| => ops[i].field)
  }

  lemma {:induction false} NotNamed(ops: seq<AtomicOp>, f: string)
    requires forall i :: 0 <= i < |ops| ==> ops[i].field != f
    ensures SumOfDeltas(ops, f) == 0
  {
    if ops == [] {
    } else {
      NotNamed(ops[..|ops| - 1], f);
    }
  }

  lemma {:induction false} BeforeLastIsPrefix(ops: seq<AtomicOp>, f: string)
    ensures var front := BeforeLast(ops, f);
            |front| <= |ops| && front == ops[..|front|] &&
            (front != [] ==> |front| < |ops| && ops[|front|].field == f)
  {
    if ops != [] && ops[|ops| - 1].field != f {
      BeforeLastIsPrefix(ops[..|ops| - 1], f);
    }
  }

  /** All deltas 1 on the given fields. */
  function Ones(fields: seq<string>): seq<AtomicOp> {
    seq(|fields|, i requires 0 <= i < |fields| => AtomicOp(fields[i], 1))
  }

  lemma {:induction false} SumOfOnes(fields: seq<string>, i: nat, n: nat)
    requires i < n <= |fields|
    ensures SumOfDeltas(Ones(fields)[..n], fields[i]) >= 1
  {
    var ops := Ones(fields)[..n];
    assert ops[..n - 1] == Ones(fields)[..n - 1];
    if i < n - 1 {
      SumOfOnes(fields, i, n - 1);
    } else {
      OnesSumUp(fields, fields[i], n - 1);
    }
  }

  lemma {:induction false} OnesSumUp(fields: seq<string>, f: string, n: nat)
    requires n <= |fields|
    ensures SumOfDeltas(Ones(fields)[..n], f) >= 0
  {
    if n == 0 {
    } else {
      assert Ones(fields)[..n][..n - 1] == Ones(fields)[..n - 1];
      OnesSumUp(fields, f, n - 1);
    }
  }

  /** For a caller: the fields of a call receive all its deltas, whatever those
      are, exactly when each is named once. */
  lemma AddsAllIffNamedOnce(fields: seq<string>)
    ensures (forall ops, f :: FieldsOf(ops) == fields ==> LastDelta(ops, f) == SumOfDeltas(ops, f)) <==> NamedOnce(fields)
  {
    if NamedOnce(fields) {
      forall ops, f | FieldsOf(ops) == fields ensures LastDelta(ops, f) == SumOfDeltas(ops, f) {
        NamedOnceAddsAll(ops, f);
      }
    } else {
      var i, j :| 0 <= i < j < |fields| && fields[i] == fields[j];
      RepeatedOnesDiffer(fields, i, j);
      assert FieldsOf(Ones(fields)) == fields;
    }
  }

  lemma NamedOnceAddsAll(ops: seq<AtomicOp>, f: string)
    requires NamedOnce(FieldsOf(ops))
    ensures LastDelta(ops, f) == SumOfDeltas(ops, f)
  {
    var front := BeforeLast(ops, f);
    BeforeLastIsPrefix(ops, f);
    AddsAllIffEarlierCancel(ops, f);
    forall i | 0 <= i < |front| ensures front[i].field != f {
      assert FieldsOf(ops)[i] != FieldsOf(ops)[|front|];
    }
    NotNamed(front, f);
  }

  lemma RepeatedOnesDiffer(fields: seq<string>, i: nat, j: nat)
    requires i < j < |fields| && fields[i] == fields[j]
    ensures LastDelta(Ones(fields), fields[i]) != SumOfDeltas(Ones(fields), fields[i])
  {
    var ops, f := Ones(fields), fields[i];
    var n := |BeforeLast(ops, f)|;
    BeforeLastIsPrefix(ops, f);
    LastIsLast(ops, f, j);
    SumOfOnes(fields, i, n);
    AddsAllIffEarlierCancel(ops, f);
  }

  lemma {:induction false} LastIsLast(ops: seq<AtomicOp>, f: string, j: nat)
    requires j < |ops| && ops[j].field == f
    ensures j <= |BeforeLast(ops, f)|
  {
    if ops[|ops| - 1].field != f {
      LastIsLast(ops[..|ops| - 1], f, j);
    }
  }

  predicate OnlyAtomic(calls: seq<Op>) {
    forall call :: call in calls ==> call.Atomic?
  }

  /** The calls name number columns only, and so not the domain. */
  predicate NumbersOnly(t: Table, calls: seq<Op>) {
    forall call :: call in calls && call.Atomic? ==> NamesNumbers(t, call.ops)
  }

  predicate NamesNumbers(t: Table, ops: seq<AtomicOp>) {
    !Sets(ops, DOMAIN) &&
    forall id :: id in t ==> forall f :: f in t[id].fields && Sets(ops, f) ==> t[id].fields[f].Int?
  }

  function Plus(cell: Cell, n: int): Cell {
    if cell.Int? then Int(cell.n + n) else cell
  }

  /** The row with what the calls add. */
  ghost predicate IsRaised(kind: Kind, ctx: Context, before: Row, after: Row, added: string -> int) {
    after.domain == before.domain && after.fields.Keys == before.fields.Keys &&
    forall f :: f in before.fields ==>
      after.fields[f] == Plus(before.fields[f], if InScope(ScopeOf(ctx, kind.scoped), before) then added(f) else 0)
  }

  /** After any run of atomic updates on number columns every row in scope
      holds in each column its first value plus everything added to it;
      nothing else changes. */
  lemma {:induction false} AtomicUpdatesAddUp(kind: Kind, ctx: Context, skipHooks: bool, t: Table, calls: seq<Op>, id: int)
    requires OnlyAtomic(calls) && NumbersOnly(t, calls)
    ensures var t' := ApplyAll(kind, ctx, skipHooks, t, calls).0;
            t'.Keys == t.Keys &&
            (id in t ==> IsRaised(kind, ctx, t[id], t'[id], f => Added(kind, calls, id, f)))
    decreases |calls|
  {
    if calls == [] {
    } else {
      var t' := Apply(kind, ctx, skipHooks, t, calls[0]).table;
      assert calls[0] in calls && forall call :: call in calls[1..] ==> call in calls;
      OneAtomicUpdate(kind, ctx, skipHooks, t, calls[0]);
      hide Apply, AddedBy;
      StillNumbers(kind, ctx, t, t', calls);
      AtomicUpdatesAddUp(kind, ctx, skipHooks, t', calls[1..], id);
    }
  }

  ghost predicate AllRaised(kind: Kind, ctx: Context, t: Table, t': Table, call: Op) {
    t'.Keys == t.Keys && forall id :: id in t ==> IsRaised(kind, ctx, t[id], t'[id], f => AddedBy(kind, call, id, f))
  }

  lemma StillNumbers(kind: Kind, ctx: Context, t: Table, t': Table, calls: seq<Op>)
    requires calls != [] && NumbersOnly(t, calls) && AllRaised(kind, ctx, t, t', calls[0])
    ensures NumbersOnly(t', calls[1..])
  {
    hide AddedBy, InScope;
    forall call | call in calls[1..] && call.Atomic? ensures NamesNumbers(t', call.ops) {
      assert call in calls && NamesNumbers(t, call.ops);
      forall id, f | id in t' && f in t'[id].fields && Sets(call.ops, f) ensures t'[id].fields[f].Int? {
        assert IsRaised(kind, ctx, t[id], t'[id], f => AddedBy(kind, calls[0], id, f));
      }
    }
  }

  lemma {:induction false} UnnamedAddsNothing(ops: seq<AtomicOp>, f: string)
    requires !Sets(ops, f)
    ensures LastDelta(ops, f) == 0
  {
    if ops == [] {
    } else {
      assert ops[|ops| - 1].field != f;
      assert forall i :: 0 <= i < |ops| - 1 ==> ops[..|ops| - 1][i] == ops[i];
      UnnamedAddsNothing(ops[..|ops| - 1], f);
    }
  }

  lemma OneAtomicUpdate(kind: Kind, ctx: Context, skipHooks: bool, t: Table, call: Op)
    requires call.Atomic? && NamesNumbers(t, call.ops)
    ensures AllRaised(kind, ctx, t, Apply(kind, ctx, skipHooks, t, call).table, call)
  {
    var t' := Apply(kind, ctx, skipHooks, t, call).table;
    forall f | !Sets(call.ops, f) ensures LastDelta(call.ops, f) == 0 {
      UnnamedAddsNothing(call.ops, f);
    }
    hide LastDelta, Sets;
    forall id | id in t ensures IsRaised(kind, ctx, t[id], t'[id], f => AddedBy(kind, call, id, f)) {
    }
  }

  lemma {:induction false} AddedAppend(kind: Kind, a: seq<Op>, b: seq<Op>, id: int, f: string)
    ensures Added(kind, a + b, id, f) == Added(kind, a, id, f) + Added(kind, b, id, f)
  {
    if a == [] {
      assert a + b == b;
    } else {
      assert (a + b)[1..] == a[1..] + b;
      AddedAppend(kind, a[1..], b, id, f);
    }
  }

  lemma TakeOneOut(kind: Kind, b: seq<Op>, i: nat, id: int, f: string)
    requires i < |b|
    ensures var rest := b[..i] + b[i + 1..];
            multiset(rest) == multiset(b) - multiset{b[i]} &&
            Added(kind, b, id, f) == AddedBy(kind, b[i], id, f) + Added(kind, rest, id, f)
  {
    var tail := [b[i]] + b[i + 1..];
    assert b == b[..i] + tail && tail[1..] == b[i + 1..];
    AddedAppend(kind, b[..i], b[i + 1..], id, f);
    AddedAppend(kind, b[..i], tail, id, f);
  }

  lemma {:induction false} AddedInAnyOrder(kind: Kind, a: seq<Op>, b: seq<Op>, id: int, f: string)
    requires multiset(a) == multiset(b)
    ensures Added(kind, a, id, f) == Added(kind, b, id, f)
    decreases |a|
  {
    if a == [] {
      assert |multiset(b)| == |b|;
      return;
    }
    hide Added, AddedBy;
    assert a[0] in multiset(b);
    var i :| 0 <= i < |b| && b[i] == a[0];
    TakeOneOut(kind, a, 0, id, f);
    TakeOneOut(kind, b, i, id, f);
    var resta, restb := a[..0] + a[1..], b[..i] + b[i + 1..];
    assert multiset(resta) == multiset(restb);
    AddedInAnyOrder(kind, resta, restb, id, f);
  }

  /** Atomic updates of number columns can be run in any order. */
  lemma AtomicUpdatesCommute(kind: Kind, ctx: Context, skipHooks: bool, t: Table, a: seq<Op>, b: seq<Op>)
    requires OnlyAtomic(a) && NumbersOnly(t, a) && multiset(a) == multiset(b)
    ensures ApplyAll(kind, ctx, skipHooks, t, a).0 == ApplyAll(kind, ctx, skipHooks, t, b).0
  {
    var ta, tb := ApplyAll(kind, ctx, skipHooks, t, a).0, ApplyAll(kind, ctx, skipHooks, t, b).0;
    forall call | call in b ensures call in a {
      assert call in multiset(b);
    }
    AtomicUpdatesAddUp(kind, ctx, skipHooks, t, a, 0);
    AtomicUpdatesAddUp(kind, ctx, skipHooks, t, b, 0);
    forall id | id in t ensures ta[id] == tb[id] {
      AtomicUpdatesAddUp(kind, ctx, skipHooks, t, a, id);
      AtomicUpdatesAddUp(kind, ctx, skipHooks, t, b, id);
      hide ApplyAll, Added;
      forall f | f in t[id].fields ensures ta[id].fields[f] == tb[id].fields[f] {
        AddedInAnyOrder(kind, a, b, id, f);
      }
      assert ta[id].fields == tb[id].fields;
    }
  }

  /** With the domain column the order matters: an increment after the row has
      left the domain is lost, before that it is not. */
  lemma DomainUpdateDoesNotCommute(kind: Kind, ctx: Context, skipHooks: bool, t: Table, id: int, delta: int, d: string, f: string)
    requires ScopeOf(ctx, kind.scoped) == Some(d) && DOMAIN in kind.columns && id in Own(t, d) && kind.sum(d, delta) != d
    requires f in kind.columns && f != DOMAIN && f in t[id].fields && t[id].fields[f].Int?
    ensures var move, bump := Atomic(id, [AtomicOp(DOMAIN, delta)]), Atomic(id, [AtomicOp(f, 1)]);
            var late, early := ApplyAll(kind, ctx, skipHooks, t, [move, bump]).0, ApplyAll(kind, ctx, skipHooks, t, [bump, move]).0;
            id in late && id in early && f in late[id].fields && f in early[id].fields &&
            late[id].fields[f] == t[id].fields[f] && early[id].fields[f] == Int(t[id].fields[f].n + 1)
  {
    var m, b := [AtomicOp(DOMAIN, delta)], [AtomicOp(f, 1)];
    var move, bump := Atomic(id, m), Atomic(id, b);
    OneOp(kind, m, DOMAIN, delta, f);
    OneOp(kind, b, f, 1, DOMAIN);
    hide LastDelta, Sets;
    var t1 := t[id := Bumped(kind, t[id], m)];
    assert Apply(kind, ctx, skipHooks, t, move).table == t1 && Apply(kind, ctx, skipHooks, t1, bump).table == t1;
    var t2 := t[id := Bumped(kind, t[id], b)];
    var t3 := t2[id := Bumped(kind, t2[id], m)];
    assert Apply(kind, ctx, skipHooks, t, bump).table == t2 && Apply(kind, ctx, skipHooks, t2, move).table == t3;
    hide Apply;
    TwoCalls(kind, ctx, skipHooks, t, move, bump);
    TwoCalls(kind, ctx, skipHooks, t, bump, move);
  }

  lemma OneOp(kind: Kind, ops: seq<AtomicOp>, f: string, delta: int, other: string)
    requires ops == [AtomicOp(f, delta)] && f in kind.columns && other != f
    ensures Sets(ops, f) && LastDelta(ops, f) == delta && !Sets(ops, other) && AllKnown(ops, kind.columns)
  {
    assert ops[0].field == f;
  }

  lemma TwoCalls(kind: Kind, ctx: Context, skipHooks: bool, t: Table, a: Op, b: Op)
    ensures ApplyAll(kind, ctx, skipHooks, t, [a, b]).0 ==
            Apply(kind, ctx, skipHooks, Apply(kind, ctx, skipHooks, t, a).table, b).table
  {
    hide Apply;
    assert [a, b][1..] == [b] && [b][1..] == [];
    assert ApplyAll(kind, ctx, skipHooks, Apply(kind, ctx, skipHooks, t, a).table, [b]).0 ==
           Apply(kind, ctx, skipHooks, Apply(kind, ctx, skipHooks, t, a).table, b).table;
  }

  /** When Create refuses a model as a duplicate, once its domain is filled in. */
  lemma RefusedIff(t: Table, ctx: Context, kind: Kind, id: int, model: Row)
    requires ctx.filtering && !ctx.skipScope && kind.scoped
    ensures var homed := if model.domain == "" then model.(domain := ctx.domain) else model;
            Homed(ScopeOf(ctx, kind.scoped), model) == homed &&
            (Clashes(t, ScopeOf(ctx, kind.scoped), kind, id, homed) <==>
             exists j :: j in t && (ctx.domain == "" || t[j].domain == ctx.domain) && Share(kind, id, homed, j, t[j]))
  {
    var homed := if model.domain == "" then model.(domain := ctx.domain) else model;
    TakenIff(t, ScopeOf(ctx, kind.scoped), kind, id, homed);
    hide Clashes, Share;
  }

  // ----- The repository -----

  class Store {
    const kind: Kind
    var table: Table

    constructor (kind: Kind)
      ensures this.kind == kind && table == map[]
    {
      this.kind, table := kind, map[];
    }

    /** Adds one condition per criterion, in whatever order the map yields
        them, and returns the rows in scope that meet them all. */
    method FindBy(ctx: Context, criteria: Criteria) returns (rows: Table)
      ensures Rows(rows) == Apply(kind, ctx, true, table, Find(criteria)).answer
      ensures forall id :: id in rows <==>
        id in table &&
        (ctx.filtering && !ctx.skipScope && kind.scoped && ctx.domain != "" ==> table[id].domain == ctx.domain) &&
        forall f :: f in criteria ==> Column(id, table[id], f) == Some(criteria[f])
      ensures forall id :: id in rows ==> rows[id] == table[id]
    {
      var conditions: seq<(string, Cell)> := [];
      var rest := criteria.Keys;
      while rest != {}
        invariant rest <= criteria.Keys
        invariant forall c :: c in conditions <==> c.0 in criteria.Keys - rest && c.1 == criteria[c.0]
      {
        var f :| f in rest;
        conditions, rest := conditions + [(f, criteria[f])], rest - {f};
      }
      var scope := ScopeOf(ctx, kind.scoped);
      rows := map id | id in table && InScope(scope, table[id]) && MeetsAll(id, table[id], conditions) :: table[id];
      forall id, row ensures MeetsAll(id, row, conditions) <==> Meets(id, row, criteria) {
        if MeetsAll(id, row, conditions) {
          forall f | f in criteria ensures Column(id, row, f) == Some(criteria[f]) {
            assert (f, criteria[f]) in conditions;
          }
        }
      }
    }

    method Exists(ctx: Context, criteria: Criteria) returns (r: bool)
      ensures r <==> Select(table, ScopeOf(ctx, kind.scoped), criteria) != map[]
      ensures r <==> exists id ::
        id in table &&
        (ctx.filtering && !ctx.skipScope && kind.scoped && ctx.domain != "" ==> table[id].domain == ctx.domain) &&
        forall f :: f in criteria ==> Column(id, table[id], f) == Some(criteria[f])
    {
      var rows := FindBy(ctx, criteria);
      r := |rows| > 0;
    }

    /** Hooks, scope and uniqueness, then the insert; `created` is what
        reading the new row back in the same context gives. A row of another
        domain is not found then, which is no error: the call succeeds with an
        empty result. With filtering on, a scoped model without a domain gets
        the context's, and no row the context sees may share a unique value. */
    method Create(ctx: Context, skipHooks: bool, id: int, row: Row, before: Hook, afterFails: bool)
      returns (answer: Answer, created: Option<Row>)
      modifies this`table
      ensures Outcome(table, answer) == Apply(kind, ctx, skipHooks, old(table), Op.Create(id, row, before, afterFails))
      ensures !skipHooks && before.Rejects? ==> table == old(table) && answer == Failed(HookFailed)
      ensures skipHooks || !before.Rejects? ==>
        var model := if !skipHooks && before.Changes? then before.row else row;
        var confined := ctx.filtering && !ctx.skipScope && kind.scoped;
        var homed := if confined && model.domain == "" then model.(domain := ctx.domain) else model;
        if confined && exists j :: j in old(table) && (ctx.domain == "" || old(table)[j].domain == ctx.domain) &&
                                   Share(kind, id, homed, j, old(table)[j]) then
          table == old(table) && answer == Failed(Duplicate)
        else if id in old(table) then
          table == old(table) && answer == Failed(IdTaken)
        else
          table == old(table)[id := homed] && answer == (if !skipHooks && afterFails then Failed(HookFailed) else Done)
      ensures answer.Done? ==> id in table && (created.None? <==> !InScope(ScopeOf(ctx, kind.scoped), table[id]))
      ensures created.Some? ==> answer.Done? && created.value == table[id]
    {
      var scope := ScopeOf(ctx, kind.scoped);
      var model := row;
      hide Share, Column;
      if ctx.filtering && !ctx.skipScope && kind.scoped {
        RefusedIff(table, ctx, kind, id, if !skipHooks && before.Changes? then before.row else row);
      }
      if !skipHooks {
        match before
        case Rejects => return Failed(HookFailed), None;
        case Changes(r) => model := r;
        case NoHook =>
      }
      if ctx.filtering && !ctx.skipScope && kind.scoped {
        if ctx.domain != "" && model.domain == "" {
          model := model.(domain := ctx.domain);
        }
        for i := 0 to |kind.uniques|
          invariant table == old(table)
          invariant forall j :: 0 <= j < i && Column(id, model, kind.uniques[j]).Some? ==>
            Select(table, scope, map[kind.uniques[j] := Column(id, model, kind.uniques[j]).value]) == map[]
        {
          var value := Column(id, model, kind.uniques[i]);
          if value.Some? {
            var taken := Exists(ctx, map[kind.uniques[i] := value.value]);
            if taken { return Failed(Duplicate), None; }
          }
        }
      }
      if id in table { return Failed(IdTaken), None; }
      table := table[id := model];
      var found := FindBy(ctx, map["id" := Int(id)]);
      FindById(table, scope, id);
      if !skipHooks && afterFails { return Failed(HookFailed), None; }
      return Done, if id in found then Some(found[id]) else None;
    }

    method Update(ctx: Context, skipHooks: bool, id: int, row: Row, before: Hook, afterFails: bool) returns (answer: Answer)
      modifies this`table
      ensures Outcome(table, answer) == Apply(kind, ctx, skipHooks, old(table), Op.Update(id, row, before, afterFails))
      ensures !skipHooks && before.Rejects? ==> table == old(table) && answer == Failed(HookFailed)
      ensures skipHooks || !before.Rejects? ==>
        answer == (if !skipHooks && afterFails then Failed(HookFailed) else Done) &&
        table == if id in old(table) && (ctx.filtering && !ctx.skipScope && kind.scoped && ctx.domain != "" ==>
                                         old(table)[id].domain == ctx.domain)
                 then old(table)[id := if !skipHooks && before.Changes? then before.row else row] else old(table)
    {
      var model := row;
      if !skipHooks {
        match before
        case Rejects => return Failed(HookFailed);
        case Changes(r) => model := r;
        case NoHook =>
      }
      if id in table && InScope(ScopeOf(ctx, kind.scoped), table[id]) {
        table := table[id := model];
      }
      answer := Ended(skipHooks, afterFails);
    }

    method Delete(ctx: Context, skipHooks: bool, id: int, before: Hook, afterFails: bool) returns (answer: Answer)
      modifies this`table
      ensures Outcome(table, answer) == Apply(kind, ctx, skipHooks, old(table), Op.Delete(id, before, afterFails))
      ensures !skipHooks && before.Rejects? ==> table == old(table) && answer == Failed(HookFailed)
      ensures skipHooks || !before.Rejects? ==>
        answer == (if !skipHooks && afterFails then Failed(HookFailed) else Done) &&
        table == if id in old(table) && (ctx.filtering && !ctx.skipScope && kind.scoped && ctx.domain != "" ==>
                                         old(table)[id].domain == ctx.domain)
                 then old(table) - {id} else old(table)
    {
      if !skipHooks && before.Rejects? { return Failed(HookFailed); }
      if id in table && InScope(ScopeOf(ctx, kind.scoped), table[id]) {
        table := table - {id};
      }
      answer := Ended(skipHooks, afterFails);
    }

    /** Checks every field before it touches the row, then runs one UPDATE
        whose repeated assignments let the last one win. */
    method AtomicUpdate(ctx: Context, id: int, ops: seq<AtomicOp>) returns (answer: Answer)
      modifies this`table
      ensures Outcome(table, answer) == Apply(kind, ctx, true, old(table), Atomic(id, ops))
      ensures answer == Failed(InvalidField) <==> exists i :: 0 <= i < |ops| && ops[i].field !in kind.columns
      ensures answer != Done ==> answer == Failed(InvalidField) && table == old(table)
    {
      if |ops| == 0 { return Done; }
      var assignments: map<string, int> := map[];
      for i := 0 to |ops|
        invariant table == old(table) && AllKnown(ops[..i], kind.columns)
        invariant forall f :: f in assignments <==> Sets(ops[..i], f)
        invariant forall f :: f in assignments ==> assignments[f] == LastDelta(ops[..i], f)
      {
        if ops[i].field !in kind.columns {
          return Failed(InvalidField);
        }
        OneMoreOp(ops, i);
        assignments := assignments[ops[i].field := ops[i].delta];
      }
      assert ops[..|ops|] == ops;
      hide LastDelta, Sets;
      if id in table && InScope(ScopeOf(ctx, kind.scoped), table[id]) {
        var row := table[id];
        var domain := if DOMAIN in assignments then kind.sum(row.domain, assignments[DOMAIN]) else row.domain;
        var fields := map f | f in row.fields ::
          if f in assignments then Raised(kind, row.fields[f], assignments[f]) else row.fields[f];
        assert Row(domain, fields) == Bumped(kind, row, ops);
        table := table[id := Row(domain, fields)];
      }
      return Done;
    }
  }

  lemma OneMoreOp(ops: seq<AtomicOp>, i: nat)
    requires i < |ops|
    ensures forall f :: Sets(ops[..i + 1], f) <==> Sets(ops[..i], f) || f == ops[i].field
    ensures forall f :: LastDelta(ops[..i + 1], f) == if f == ops[i].field then ops[i].delta else LastDelta(ops[..i], f)
  {
    var front := ops[..i + 1];
    assert front[..i] == ops[..i] && front[i] == ops[i] && |front| - 1 == i;
    assert forall f :: LastDelta(front, f) == if f == front[|front| - 1].field then front[|front| - 1].delta else LastDelta(front[..|front| - 1], f);
    forall f ensures Sets(ops[..i + 1], f) <==> Sets(ops[..i], f) || f == ops[i].field {
      if Sets(ops[..i], f) {
        var j :| 0 <= j < i && ops[..i][j].field == f;
        assert ops[..i + 1][j].field == f;
      }
    }
  }

  predicate MeetsAll(id: int, row: Row, conditions: seq<(string, Cell)>) {
    forall c :: c in conditions ==> Column(id, row, c.0) == Some(c.1)
  }
}
