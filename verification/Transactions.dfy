/** Transactions by reuse: a WithTransaction whose context already holds a
    transaction runs inside it; on a plain database it begins one, and commits
    it or rolls it back. */
module Transactions {
  /** The database found in a context. */
  datatype Handle = Missing | Foreign | Db | Tx(id: nat)

  /** What a callback does. A statement uses the context `up` levels out: its
      callback's own for 0, and so on to the outermost. A call runs `body`, as
      a plain function or through WithTransaction, and its caller may swallow
      an error or recover from a panic. */
  datatype Stmt =
    | Write(up: nat, w: int)
    | Fail
    | Panic
    | Call(up: nat, body: seq<Stmt>, nested: bool, swallows: bool, recovers: bool)

  datatype Error = App | NoDatabase | NotSqlDb | BeginFailed | ExecFailed | CommitFailed

  datatype Outcome = Ok | Err(error: Error) | Panicked

  /** What the driver is asked to do, and whether it does. A transaction is
      named by the position of its Begin. */
  datatype Effect = Begin(id: nat, ok: bool) | Exec(on: Handle, w: int, ok: bool) | Commit(id: nat, ok: bool) | Rollback(id: nat)

  datatype Result = Result(trace: seq<Effect>, outcome: Outcome)

  /** Whether the driver grants its n-th request. */
  type Driver = nat -> bool

  predicate Continues(o: Outcome, swallows: bool, recovers: bool) {
    o.Ok? || (o.Err? && swallows) || (o.Panicked? && recovers)
  }

  /** The context `up` levels out. */
  function At(ctxs: seq<Handle>, up: nat): Handle
    requires ctxs != []
  {
    ctxs[if up < |ctxs| then |ctxs| - 1 - up else 0]
  }

  // ----- What the code does -----

  function Run(ctxs: seq<Handle>, stmts: seq<Stmt>, trace: seq<Effect>, driver: Driver): Result
    requires ctxs != []
    decreases stmts, 0
  {
    if stmts == [] then Result(trace, Ok)
    else
      match stmts[0]
      case Write(up, w) =>
        if At(ctxs, up).Missing? then Result(trace, Panicked)
        else
          var ok := driver(|trace|);
          var wrote := trace + [Exec(At(ctxs, up), w, ok)];
          if ok then Run(ctxs, stmts[1..], wrote, driver) else Result(wrote, Err(ExecFailed))
      case Fail => Result(trace, Err(App))
      case Panic => Result(trace, Panicked)
      case Call(up, body, nested, swallows, recovers) =>
        var ctx := At(ctxs, up);
        var inner := if nested then Transacted(ctxs, ctx, body, trace, driver)
                     else Run(ctxs + [ctx], body, trace, driver);
        if Continues(inner.outcome, swallows, recovers) then Run(ctxs, stmts[1..], inner.trace, driver) else inner
  }

  /** WithTransaction. */
  function Transacted(ctxs: seq<Handle>, ctx: Handle, fn: seq<Stmt>, trace: seq<Effect>, driver: Driver): Result
    decreases fn, 1
  {
    match ctx
    case Missing => Result(trace, Err(NoDatabase))
    case Tx(_) => Run(ctxs + [ctx], fn, trace, driver)
    case Foreign => Result(trace, Err(NotSqlDb))
    case Db =>
      var id := |trace|;
      if !driver(id) then Result(trace + [Begin(id, false)], Err(BeginFailed))
      else Concluded(Run(ctxs + [Tx(id)], fn, trace + [Begin(id, true)], driver), id, driver)
  }

  /** Commits after success, rolls back after an error or a panic. */
  function Concluded(inner: Result, id: nat, driver: Driver): Result {
    if inner.outcome.Ok? then
      var ok := driver(|inner.trace|);
      Result(inner.trace + [Commit(id, ok)], if ok then Ok else Err(CommitFailed))
    else Result(inner.trace + [Rollback(id)], inner.outcome)
  }

  /** With a transaction in the context, WithTransaction is a plain call. */
  lemma ReuseIsPlain(ctxs: seq<Handle>, ctx: Handle, fn: seq<Stmt>, trace: seq<Effect>, driver: Driver)
    requires ctx.Tx?
    ensures Transacted(ctxs, ctx, fn, trace, driver) == Run(ctxs + [ctx], fn, trace, driver)
  {
  }

  // ----- What it does to the table -----

  /** The stored rows, and the rows pending in each open transaction. */
  datatype Rows = Rows(table: seq<int>, open: map<nat, seq<int>>)

  function After(r: Rows, e: Effect): Rows {
    match e
    case Begin(id, ok) => if ok then r.(open := r.open[id := []]) else r
    case Exec(on, w, ok) =>
      if !ok then r
      else if on.Db? then r.(table := r.table + [w])
      else if on.Tx? && on.id in r.open then r.(open := r.open[on.id := r.open[on.id] + [w]])
      else r
    case Commit(id, ok) =>
      Rows(r.table + (if ok && id in r.open then r.open[id] else []), r.open - {id})
    case Rollback(id) => r.(open := r.open - {id})
  }

  function Replay(trace: seq<Effect>): Rows {
    if trace == [] then Rows([], map[]) else After(Replay(trace[..|trace| - 1]), trace[|trace| - 1])
  }

  /** The writes granted on a transaction. */
  function WritesTo(trace: seq<Effect>, id: nat): seq<int> {
    if trace == [] then []
    else
      var e := trace[|trace| - 1];
      WritesTo(trace[..|trace| - 1], id) + if e.Exec? && e.ok && e.on == Tx(id) then [e.w] else []
  }

  /** No request goes to a transaction before its Begin or after its end. */
  predicate Proper(trace: seq<Effect>) {
    trace == [] ||
    (Proper(trace[..|trace| - 1]) &&
     match trace[|trace| - 1]
     case Begin(id, _) => id == |trace| - 1
     case Exec(on, _, _) => on.Tx? ==> on.id in Replay(trace[..|trace| - 1]).open
     case Commit(id, _) => id in Replay(trace[..|trace| - 1]).open
     case Rollback(id) => id in Replay(trace[..|trace| - 1]).open)
  }

  function Begun(trace: seq<Effect>, id: nat): nat {
    if trace == [] then 0
    else Begun(trace[..|trace| - 1], id) + if trace[|trace| - 1] == Begin(id, true) then 1 else 0
  }

  predicate Ends(e: Effect, id: nat) {
    (e.Commit? || e.Rollback?) && e.id == id
  }

  function Ended(trace: seq<Effect>, id: nat): nat {
    if trace == [] then 0
    else Ended(trace[..|trace| - 1], id) + if Ends(trace[|trace| - 1], id) then 1 else 0
  }

  lemma OneMore(trace: seq<Effect>, e: Effect)
    ensures Replay(trace + [e]) == After(Replay(trace), e)
    ensures forall id :: Begun(trace + [e], id) == Begun(trace, id) + if e == Begin(id, true) then 1 else 0
    ensures forall id :: Ended(trace + [e], id) == Ended(trace, id) + if Ends(e, id) then 1 else 0
    ensures Begins(trace + [e]) == Begins(trace) + if e.Begin? then 1 else 0
    ensures Proper(trace + [e]) <==>
            Proper(trace) &&
            (e.Begin? ==> e.id == |trace|) && (e.Exec? && e.on.Tx? ==> e.on.id in Replay(trace).open) &&
            (e.Commit? || e.Rollback? ==> e.id in Replay(trace).open)
  {
    assert (trace + [e])[..|trace|] == trace && (trace + [e])[|trace|] == e;
  }

  /** In a proper trace a transaction begins once at most, and has ended as
      often as it has begun unless it is open; what is pending in an open one
      are the writes granted on it. */
  lemma {:induction false} ProperTransactions(trace: seq<Effect>, id: nat)
    requires Proper(trace)
    ensures Begun(trace, id) <= 1 && (id >= |trace| ==> Begun(trace, id) == 0 && WritesTo(trace, id) == [])
    ensures Ended(trace, id) + (if id in Replay(trace).open then 1 else 0) == Begun(trace, id)
    ensures id in Replay(trace).open ==> Replay(trace).open[id] == WritesTo(trace, id)
  {
    if trace == [] {
    } else {
      ProperTransactions(trace[..|trace| - 1], id);
    }
  }

  // ----- Every transaction begun is ended once -----

  /** Every transaction in reach is open. */
  predicate InReach(ctxs: seq<Handle>, trace: seq<Effect>) {
    forall c :: c in ctxs && c.Tx? ==> c.id in Replay(trace).open
  }

  /** What a piece of the program leaves of the transactions: a proper trace
      that goes on from the one before, with the same ones open. */
  ghost predicate Keeps(before: seq<Effect>, after: seq<Effect>) {
    before <= after && Proper(after) && Replay(after).open.Keys == Replay(before).open.Keys
  }

  lemma KeepsReach(ctxs: seq<Handle>, before: seq<Effect>, after: seq<Effect>)
    requires InReach(ctxs, before) && Keeps(before, after)
    ensures InReach(ctxs, after) && Proper(after)
  {
    hide Replay, Proper;
  }

  lemma KeepsOn(a: seq<Effect>, b: seq<Effect>, c: seq<Effect>)
    requires Keeps(a, b) && Keeps(b, c)
    ensures Keeps(a, c)
  {
    hide Replay, Proper;
  }

  lemma KeepsItself(trace: seq<Effect>)
    requires Proper(trace)
    ensures Keeps(trace, trace)
  {
    hide Replay, Proper;
  }

  lemma ContextInReach(ctxs: seq<Handle>, up: nat, trace: seq<Effect>)
    requires ctxs != [] && InReach(ctxs, trace)
    ensures InReach([At(ctxs, up)], trace) && InReach(ctxs + [At(ctxs, up)], trace)
  {
    hide Replay;
    assert At(ctxs, up) in ctxs;
  }

  lemma WriteKeeps(on: Handle, w: int, ok: bool, trace: seq<Effect>)
    requires Proper(trace) && InReach([on], trace)
    ensures Keeps(trace, trace + [Exec(on, w, ok)])
  {
    OneMore(trace, Exec(on, w, ok));
    hide Replay, Proper, Begun, Ended, Begins;
    assert on in [on];
  }

  lemma {:induction false} RunKeeps(ctxs: seq<Handle>, stmts: seq<Stmt>, trace: seq<Effect>, driver: Driver)
    requires ctxs != [] && Proper(trace) && InReach(ctxs, trace)
    ensures Keeps(trace, Run(ctxs, stmts, trace, driver).trace)
    decreases stmts, 0
  {
    KeepsItself(trace);
    if stmts == [] { return; }
    hide Replay, Proper, Transacted, Keeps, InReach;
    match stmts[0]
    case Write(up, w) =>
      var on, ok := At(ctxs, up), driver(|trace|);
      var wrote := trace + [Exec(on, w, ok)];
      ContextInReach(ctxs, up, trace);
      WriteKeeps(on, w, ok, trace);
      if !on.Missing? && ok {
        KeepsReach(ctxs, trace, wrote);
        RunKeeps(ctxs, stmts[1..], wrote, driver);
        KeepsOn(trace, wrote, Run(ctxs, stmts[1..], wrote, driver).trace);
      }
    case Call(up, body, nested, swallows, recovers) =>
      var ctx := At(ctxs, up);
      var inner := if nested then Transacted(ctxs, ctx, body, trace, driver) else Run(ctxs + [ctx], body, trace, driver);
      ContextInReach(ctxs, up, trace);
      if nested {
        TransactedKeeps(ctxs, ctx, body, trace, driver);
      } else {
        RunKeeps(ctxs + [ctx], body, trace, driver);
      }
      if Continues(inner.outcome, swallows, recovers) {
        KeepsReach(ctxs, trace, inner.trace);
        RunKeeps(ctxs, stmts[1..], inner.trace, driver);
        KeepsOn(trace, inner.trace, Run(ctxs, stmts[1..], inner.trace, driver).trace);
      }
    case _ =>
  }

  lemma {:induction false} TransactedKeeps(ctxs: seq<Handle>, ctx: Handle, fn: seq<Stmt>, trace: seq<Effect>, driver: Driver)
    requires Proper(trace) && InReach(ctxs, trace) && InReach([ctx], trace)
    ensures Keeps(trace, Transacted(ctxs, ctx, fn, trace, driver).trace)
    decreases fn, 1
  {
    KeepsItself(trace);
    hide Replay, Proper, Run;
    if ctx.Tx? {
      assert ctx in [ctx];
      RunKeeps(ctxs + [ctx], fn, trace, driver);
    } else if ctx.Db? {
      var id := |trace|;
      OneMore(trace, Begin(id, driver(id)));
      NewIsNotOpen(trace);
      if driver(id) {
        var begun := trace + [Begin(id, true)];
        RunKeeps(ctxs + [Tx(id)], fn, begun, driver);
        ConcludedKeeps(trace, begun, Run(ctxs + [Tx(id)], fn, begun, driver), id, driver);
      }
    }
  }

  lemma ConcludedKeeps(trace: seq<Effect>, begun: seq<Effect>, inner: Result, id: nat, driver: Driver)
    requires trace <= begun && Replay(begun).open.Keys == Replay(trace).open.Keys + {id} && id !in Replay(trace).open
    requires Keeps(begun, inner.trace)
    ensures Keeps(trace, Concluded(inner, id, driver).trace)
  {
    OneMore(inner.trace, Commit(id, driver(|inner.trace|)));
    OneMore(inner.trace, Rollback(id));
    hide Replay, Proper, Begun, Ended, Begins;
  }

  lemma NewIsNotOpen(trace: seq<Effect>)
    requires Proper(trace)
    ensures |trace| !in Replay(trace).open
  {
    ProperTransactions(trace, |trace|);
  }

  lemma EndedAsBegun(trace: seq<Effect>, later: seq<Effect>)
    requires Proper(trace) && Keeps(trace, later)
    ensures forall any: nat :: any >= |trace| ==> Ended(later, any) == Begun(later, any) <= 1
  {
    forall any: nat | any >= |trace| ensures Ended(later, any) == Begun(later, any) <= 1 {
      ProperTransactions(later, any);
      ProperTransactions(trace, any);
      hide Proper, Begun, Ended, Replay, WritesTo;
    }
  }

  /** An outermost call on a plain database: its trace is one Begin, and if
      that is granted, what the callback asks, and one Commit or Rollback of
      the same transaction, which is a granted Commit exactly on success. Every
      transaction begun in between has ended as well, exactly once. */
  lemma OneBeginOneEnd(ctxs: seq<Handle>, fn: seq<Stmt>, trace: seq<Effect>, driver: Driver)
    requires Proper(trace) && InReach(ctxs, trace)
    ensures var r, id := Transacted(ctxs, Db, fn, trace, driver), |trace|;
            trace + [Begin(id, driver(id))] <= r.trace &&
            (!driver(id) ==> r == Result(trace + [Begin(id, false)], Err(BeginFailed))) &&
            (driver(id) ==>
              Begun(r.trace, id) == 1 && Ended(r.trace, id) == 1 && Ends(r.trace[|r.trace| - 1], id) &&
              (r.outcome.Ok? <==> r.trace[|r.trace| - 1] == Commit(id, true))) &&
            (forall any: nat :: any >= |trace| ==> Ended(r.trace, any) == Begun(r.trace, any) <= 1)
  {
    var r, id := Transacted(ctxs, Db, fn, trace, driver), |trace|;
    TransactedKeeps(ctxs, Db, fn, trace, driver);
    EndedAsBegun(trace, r.trace);
    OneMore(trace, Begin(id, driver(id)));
    NewIsNotOpen(trace);
    hide Replay, Proper, Run, Begun, Ended, Begins;
    if driver(id) {
      var begun := trace + [Begin(id, true)];
      RunKeeps(ctxs + [Tx(id)], fn, begun, driver);
      hide InReach;
      ConcludedEnds(Run(ctxs + [Tx(id)], fn, begun, driver), id, driver);
    }
  }

  lemma ConcludedEnds(inner: Result, id: nat, driver: Driver)
    requires Proper(inner.trace) && id in Replay(inner.trace).open
    ensures var r := Concluded(inner, id, driver);
            inner.trace <= r.trace && Ended(r.trace, id) >= 1 && Ends(r.trace[|r.trace| - 1], id) &&
            (r.outcome.Ok? <==> r.trace[|r.trace| - 1] == Commit(id, true))
  {
    var r := Concluded(inner, id, driver);
    OneMore(inner.trace, r.trace[|r.trace| - 1]);
    hide Replay, Proper, Begun, Ended, Begins;
  }

  lemma ConcludedRows(inner: Result, id: nat, driver: Driver)
    requires Proper(inner.trace) && id in Replay(inner.trace).open
    ensures var r := Concluded(inner, id, driver);
            Replay(r.trace).table ==
            Replay(inner.trace).table + (if inner.outcome.Ok? && driver(|inner.trace|) then WritesTo(inner.trace, id) else [])
  {
    ProperTransactions(inner.trace, id);
    OneMore(inner.trace, Commit(id, driver(|inner.trace|)));
    OneMore(inner.trace, Rollback(id));
    hide Replay, Proper, WritesTo, Begun, Ended, Begins;
  }

  /** How an outermost call ends follows from how its callback does: after
      success it asks for a Commit and reports whether it was granted; after an
      error or a panic it asks for a Rollback and passes the error or the panic on. */
  lemma EndingFollowsCallback(ctxs: seq<Handle>, fn: seq<Stmt>, trace: seq<Effect>, driver: Driver)
    requires driver(|trace|)
    ensures var id := |trace|;
            var r := Transacted(ctxs, Db, fn, trace, driver);
            var inner := Run(ctxs + [Tx(id)], fn, trace + [Begin(id, true)], driver);
            match inner.outcome
            case Ok =>
              r.trace == inner.trace + [Commit(id, driver(|inner.trace|))] &&
              (r.outcome == Ok <==> driver(|inner.trace|)) && (r.outcome == Err(CommitFailed) <==> !driver(|inner.trace|))
            case Err(error) => r == Result(inner.trace + [Rollback(id)], Err(error))
            case Panicked => r == Result(inner.trace + [Rollback(id)], Panicked)
  {
    hide Run;
  }

  /** What an outermost call does to the table: all the writes granted on its
      transaction are stored if its callback succeeds and the commit is
      granted, and none of them otherwise. What
      the callback wrote past the transaction, or committed in another one it
      began, is stored either way. */
  lemma AllOrNothing(ctxs: seq<Handle>, fn: seq<Stmt>, trace: seq<Effect>, driver: Driver)
    requires Proper(trace) && InReach(ctxs, trace) && driver(|trace|)
    ensures var id := |trace|;
            var r := Transacted(ctxs, Db, fn, trace, driver);
            var inner := Run(ctxs + [Tx(id)], fn, trace + [Begin(id, true)], driver);
            Replay(r.trace).table ==
            Replay(inner.trace).table + (if inner.outcome.Ok? && driver(|inner.trace|) then WritesTo(inner.trace, id) else [])
  {
    var id := |trace|;
    OneMore(trace, Begin(id, true));
    NewIsNotOpen(trace);
    hide Replay, Proper, Run, WritesTo, Begun, Ended, Begins;
    var begun := trace + [Begin(id, true)];
    RunKeeps(ctxs + [Tx(id)], fn, begun, driver);
    hide InReach;
    ConcludedRows(Run(ctxs + [Tx(id)], fn, begun, driver), id, driver);
  }

  // ----- Callbacks that keep to their own context -----

  /** Every statement uses the context its callback was given. */
  predicate OwnContext(stmts: seq<Stmt>) {
    stmts == [] ||
    ((stmts[0].Write? ==> stmts[0].up == 0) && (stmts[0].Call? ==> stmts[0].up == 0 && OwnContext(stmts[0].body)) &&
     OwnContext(stmts[1..]))
  }

  lemma WriteIsPending(trace: seq<Effect>, e: Effect)
    requires e.Exec? && e.on.Tx?
    ensures Replay(trace + [e]).table == Replay(trace).table
  {
    OneMore(trace, e);
    hide Replay;
  }

  /** A callback that keeps to its context leaves the table alone until its transaction ends. */
  lemma {:induction false} OwnContextIsPending(ctxs: seq<Handle>, stmts: seq<Stmt>, trace: seq<Effect>, driver: Driver)
    requires ctxs != [] && ctxs[|ctxs| - 1].Tx? && OwnContext(stmts)
    ensures Replay(Run(ctxs, stmts, trace, driver).trace).table == Replay(trace).table
    decreases stmts
  {
    if stmts == [] { return; }
    hide Replay, Transacted;
    match stmts[0]
    case Write(up, w) =>
      var e := Exec(At(ctxs, up), w, driver(|trace|));
      WriteIsPending(trace, e);
      if driver(|trace|) {
        OwnContextIsPending(ctxs, stmts[1..], trace + [e], driver);
      }
    case Call(up, body, nested, swallows, recovers) =>
      var ctx := At(ctxs, up);
      OwnContextIsPending(ctxs + [ctx], body, trace, driver);
      var inner := Run(ctxs + [ctx], body, trace, driver);
      ReuseIsPlain(ctxs, ctx, body, trace, driver);
      if Continues(inner.outcome, swallows, recovers) {
        OwnContextIsPending(ctxs, stmts[1..], inner.trace, driver);
      }
    case _ =>
  }

  /** For such a callback the final table is the old one, with all its writes
      if it succeeds and the commit is granted, and just the old one if it fails
      or panics, or if the transaction does not begin. */
  lemma OwnContextAllOrNothing(ctxs: seq<Handle>, fn: seq<Stmt>, trace: seq<Effect>, driver: Driver)
    requires Proper(trace) && InReach(ctxs, trace) && OwnContext(fn)
    ensures var id := |trace|;
            var r := Transacted(ctxs, Db, fn, trace, driver);
            var inner := Run(ctxs + [Tx(id)], fn, trace + [Begin(id, true)], driver);
            Replay(r.trace).table ==
            Replay(trace).table + if driver(id) && inner.outcome.Ok? && driver(|inner.trace|) then WritesTo(inner.trace, id) else []
  {
    var id := |trace|;
    OneMore(trace, Begin(id, driver(id)));
    if driver(id) {
      AllOrNothing(ctxs, fn, trace, driver);
      OwnContextIsPending(ctxs + [Tx(id)], fn, trace + [Begin(id, true)], driver);
    }
  }

  /** A call without a database, or with one that cannot begin, does nothing but say so. */
  lemma NoDatabaseNoCall(ctxs: seq<Handle>, fn: seq<Stmt>, trace: seq<Effect>, driver: Driver)
    ensures Transacted(ctxs, Missing, fn, trace, driver) == Result(trace, Err(NoDatabase))
    ensures Transacted(ctxs, Foreign, fn, trace, driver) == Result(trace, Err(NotSqlDb))
    ensures !driver(|trace|) ==>
              Transacted(ctxs, Db, fn, trace, driver) == Result(trace + [Begin(|trace|, false)], Err(BeginFailed))
  {
  }

  /** A callback made of two parts runs the second exactly if the first succeeds. */
  lemma {:induction false} RunInParts(ctxs: seq<Handle>, a: seq<Stmt>, b: seq<Stmt>, trace: seq<Effect>, driver: Driver)
    requires ctxs != []
    ensures var first := Run(ctxs, a, trace, driver);
            Run(ctxs, a + b, trace, driver) == if first.outcome.Ok? then Run(ctxs, b, first.trace, driver) else first
    decreases |a|
  {
    if a == [] {
      assert a + b == b;
    } else {
      assert (a + b)[0] == a[0] && (a + b)[1..] == a[1..] + b;
      hide Transacted;
      match a[0]
      case Write(up, w) =>
        if !At(ctxs, up).Missing? && driver(|trace|) {
          RunInParts(ctxs, a[1..], b, trace + [Exec(At(ctxs, up), w, true)], driver);
        }
      case Call(up, body, nested, swallows, recovers) =>
        var ctx := At(ctxs, up);
        var inner := if nested then Transacted(ctxs, ctx, body, trace, driver) else Run(ctxs + [ctx], body, trace, driver);
        if Continues(inner.outcome, swallows, recovers) {
          RunInParts(ctxs, a[1..], b, inner.trace, driver);
        }
      case _ =>
    }
  }

  /** A write with the plain database as context is stored at once if it is granted. */
  lemma PlainWriteIsStored(ctxs: seq<Handle>, up: nat, w: int, trace: seq<Effect>, driver: Driver)
    requires ctxs != [] && At(ctxs, up) == Db
    ensures var r := Run(ctxs, [Write(up, w)], trace, driver);
            Replay(r.trace).table == Replay(trace).table + (if driver(|trace|) then [w] else []) &&
            r.outcome == if driver(|trace|) then Ok else Err(ExecFailed)
  {
    OneMore(trace, Exec(Db, w, driver(|trace|)));
    assert [Write(up, w)][1..] == [];
    hide Replay;
  }

  /** A statement on its callback's own context asks the database found there;
      one level further out is the same as at level 0 without the last context. */
  lemma StatementsUseTheirContext(outer: seq<Handle>, ctx: Handle, up: nat, w: int, trace: seq<Effect>, driver: Driver)
    requires outer != []
    ensures var ok := driver(|trace|);
            Run(outer + [ctx], [Write(0, w)], trace, driver) ==
              if ctx.Missing? then Result(trace, Panicked)
              else Result(trace + [Exec(ctx, w, ok)], if ok then Ok else Err(ExecFailed))
    ensures Run(outer + [ctx], [Write(up + 1, w)], trace, driver) == Run(outer, [Write(up, w)], trace, driver)
    ensures Run(outer, [Fail], trace, driver) == Result(trace, Err(App)) && Run(outer, [Panic], trace, driver) == Result(trace, Panicked)
  {
    assert At(outer + [ctx], 0) == ctx && At(outer + [ctx], up + 1) == At(outer, up);
    forall on: Handle | !on.Missing? ensures Run(outer, [], trace + [Exec(on, w, true)], driver).outcome == Ok {
    }
    assert [Write(0, w)][1..] == [] && [Write(up + 1, w)][1..] == [] && [Write(up, w)][1..] == [];
  }

  /** A caller goes on after an inner call that succeeds, that fails and it
      swallows the error, or that panics and it recovers; otherwise it ends as
      the inner call did. */
  lemma CallersGoOnIff(ctxs: seq<Handle>, body: seq<Stmt>, nested: bool, swallows: bool, recovers: bool,
                       rest: seq<Stmt>, trace: seq<Effect>, driver: Driver)
    requires ctxs != []
    ensures var ctx := ctxs[|ctxs| - 1];
            var inner := if nested then Transacted(ctxs, ctx, body, trace, driver) else Run(ctxs + [ctx], body, trace, driver);
            Run(ctxs, [Call(0, body, nested, swallows, recovers)] + rest, trace, driver) ==
            match inner.outcome
            case Ok => Run(ctxs, rest, inner.trace, driver)
            case Err(_) => if swallows then Run(ctxs, rest, inner.trace, driver) else inner
            case Panicked => if recovers then Run(ctxs, rest, inner.trace, driver) else inner
  {
    var stmts := [Call(0, body, nested, swallows, recovers)] + rest;
    assert stmts[1..] == rest && At(ctxs, 0) == ctxs[|ctxs| - 1];
    hide Transacted;
  }

  // ----- Erasing inner calls -----

  /** The same callback with every inner WithTransaction replaced by a plain call. */
  function Erase(stmts: seq<Stmt>): (r: seq<Stmt>)
    ensures |r| == |stmts|
  {
    if stmts == [] then []
    else
      var s := match stmts[0]
               case Call(up, body, _, swallows, recovers) => Call(up, Erase(body), false, swallows, recovers)
               case s => s;
      [s] + Erase(stmts[1..])
  }

  function Begins(trace: seq<Effect>): nat {
    if trace == [] then 0 else Begins(trace[..|trace| - 1]) + if trace[|trace| - 1].Begin? then 1 else 0
  }

  /** The callback reaches an inner WithTransaction whose context holds no transaction. */
  predicate BeginsAnother(ctxs: seq<Handle>, stmts: seq<Stmt>, trace: seq<Effect>, driver: Driver)
    requires ctxs != []
    decreases stmts
  {
    stmts != [] &&
    match stmts[0]
    case Write(up, w) =>
      !At(ctxs, up).Missing? && driver(|trace|) &&
      BeginsAnother(ctxs, stmts[1..], trace + [Exec(At(ctxs, up), w, true)], driver)
    case Call(up, body, nested, swallows, recovers) =>
      var ctx := At(ctxs, up);
      var inner := Run(ctxs + [ctx], body, trace, driver);
      (nested && !ctx.Tx?) || BeginsAnother(ctxs + [ctx], body, trace, driver) ||
      (Continues(inner.outcome, swallows, recovers) && BeginsAnother(ctxs, stmts[1..], inner.trace, driver))
    case _ => false
  }

  lemma ErasedHead(stmts: seq<Stmt>)
    requires stmts != []
    ensures Erase(stmts)[1..] == Erase(stmts[1..])
    ensures stmts[0].Call? ==> Erase(stmts)[0] == stmts[0].(nested := false, body := Erase(stmts[0].body))
    ensures !stmts[0].Call? ==> Erase(stmts)[0] == stmts[0]
  {
  }

  lemma {:induction false} ErasingKeeps(ctxs: seq<Handle>, stmts: seq<Stmt>, trace: seq<Effect>, driver: Driver)
    requires ctxs != [] && !BeginsAnother(ctxs, stmts, trace, driver)
    ensures Run(ctxs, Erase(stmts), trace, driver) == Run(ctxs, stmts, trace, driver)
    decreases stmts
  {
    if stmts == [] { return; }
    ErasedHead(stmts);
    hide Erase, Transacted;
    match stmts[0]
    case Write(up, w) =>
      if !At(ctxs, up).Missing? && driver(|trace|) {
        ErasingKeeps(ctxs, stmts[1..], trace + [Exec(At(ctxs, up), w, true)], driver);
      }
    case Call(up, body, nested, swallows, recovers) =>
      var ctx := At(ctxs, up);
      var inner := Run(ctxs + [ctx], body, trace, driver);
      ErasingKeeps(ctxs + [ctx], body, trace, driver);
      if nested { ReuseIsPlain(ctxs, ctx, body, trace, driver); }
      if Continues(inner.outcome, swallows, recovers) {
        ErasingKeeps(ctxs, stmts[1..], inner.trace, driver);
      }
    case _ =>
  }

  /** Erased callbacks begin nothing. */
  lemma {:induction false} ErasedBeginsNothing(ctxs: seq<Handle>, stmts: seq<Stmt>, trace: seq<Effect>, driver: Driver)
    requires ctxs != []
    ensures Begins(Run(ctxs, Erase(stmts), trace, driver).trace) == Begins(trace)
    decreases stmts
  {
    if stmts == [] { return; }
    ErasedHead(stmts);
    hide Erase, Begins, Transacted;
    match stmts[0]
    case Write(up, w) =>
      var e := Exec(At(ctxs, up), w, driver(|trace|));
      OneMore(trace, e);
      if !At(ctxs, up).Missing? && driver(|trace|) {
        ErasedBeginsNothing(ctxs, stmts[1..], trace + [e], driver);
      }
    case Call(up, body, nested, swallows, recovers) =>
      var ctx := At(ctxs, up);
      var inner := Run(ctxs + [ctx], Erase(body), trace, driver);
      ErasedBeginsNothing(ctxs + [ctx], body, trace, driver);
      if Continues(inner.outcome, swallows, recovers) {
        ErasedBeginsNothing(ctxs, stmts[1..], inner.trace, driver);
      }
    case _ =>
  }

  lemma {:induction false} NoFewerBegins(ctxs: seq<Handle>, stmts: seq<Stmt>, trace: seq<Effect>, driver: Driver)
    requires ctxs != []
    ensures Begins(Run(ctxs, stmts, trace, driver).trace) >= Begins(trace)
    decreases stmts, 0
  {
    if stmts == [] { return; }
    hide Begins, Transacted;
    match stmts[0]
    case Write(up, w) =>
      var e := Exec(At(ctxs, up), w, driver(|trace|));
      OneMore(trace, e);
      if !At(ctxs, up).Missing? && driver(|trace|) {
        NoFewerBegins(ctxs, stmts[1..], trace + [e], driver);
      }
    case Call(up, body, nested, swallows, recovers) =>
      var ctx := At(ctxs, up);
      var inner := if nested then Transacted(ctxs, ctx, body, trace, driver) else Run(ctxs + [ctx], body, trace, driver);
      if nested {
        TransactedBegins(ctxs, ctx, body, trace, driver);
      } else {
        NoFewerBegins(ctxs + [ctx], body, trace, driver);
      }
      if Continues(inner.outcome, swallows, recovers) {
        NoFewerBegins(ctxs, stmts[1..], inner.trace, driver);
      }
    case _ =>
  }

  lemma {:induction false} TransactedBegins(ctxs: seq<Handle>, ctx: Handle, fn: seq<Stmt>, trace: seq<Effect>, driver: Driver)
    ensures Begins(Transacted(ctxs, ctx, fn, trace, driver).trace) >= Begins(trace) + if ctx.Db? then 1 else 0
    decreases fn, 1
  {
    hide Begins, Run;
    if ctx.Tx? {
      NoFewerBegins(ctxs + [ctx], fn, trace, driver);
    } else if ctx.Db? {
      var id := |trace|;
      OneMore(trace, Begin(id, driver(id)));
      if driver(id) {
        var begun := trace + [Begin(id, true)];
        NoFewerBegins(ctxs + [Tx(id)], fn, begun, driver);
        var inner := Run(ctxs + [Tx(id)], fn, begun, driver);
        OneMore(inner.trace, Commit(id, driver(|inner.trace|)));
        OneMore(inner.trace, Rollback(id));
      }
    }
  }

  /** Below an outermost call every context holds the database or a transaction. */
  predicate Below(ctxs: seq<Handle>) {
    ctxs != [] && forall c :: c in ctxs ==> c.Db? || c.Tx?
  }

  lemma {:induction false} AnotherBegin(ctxs: seq<Handle>, stmts: seq<Stmt>, trace: seq<Effect>, driver: Driver)
    requires Below(ctxs) && BeginsAnother(ctxs, stmts, trace, driver)
    ensures Begins(Run(ctxs, stmts, trace, driver).trace) > Begins(trace)
    decreases stmts
  {
    hide Begins, Transacted;
    match stmts[0]
    case Write(up, w) =>
      OneMore(trace, Exec(At(ctxs, up), w, true));
      AnotherBegin(ctxs, stmts[1..], trace + [Exec(At(ctxs, up), w, true)], driver);
    case Call(up, body, nested, swallows, recovers) =>
      var ctx := At(ctxs, up);
      assert ctx in ctxs;
      var plain := Run(ctxs + [ctx], body, trace, driver);
      var inner := if nested then Transacted(ctxs, ctx, body, trace, driver) else plain;
      if nested && ctx.Db? {
        TransactedBegins(ctxs, ctx, body, trace, driver);
      } else {
        if nested { ReuseIsPlain(ctxs, ctx, body, trace, driver); }
        NoFewerBegins(ctxs + [ctx], body, trace, driver);
        if BeginsAnother(ctxs + [ctx], body, trace, driver) {
          AnotherBegin(ctxs + [ctx], body, trace, driver);
        }
      }
      if Continues(inner.outcome, swallows, recovers) {
        NoFewerBegins(ctxs, stmts[1..], inner.trace, driver);
        if inner == plain && BeginsAnother(ctxs, stmts[1..], inner.trace, driver) {
          AnotherBegin(ctxs, stmts[1..], inner.trace, driver);
        }
      }
  }

  /** Replacing the inner calls of WithTransaction by plain ones leaves the
      effects and the outcome of a callback as they are exactly when none of
      those it reaches finds a context without a transaction. */
  lemma ErasingInnerCalls(ctxs: seq<Handle>, stmts: seq<Stmt>, trace: seq<Effect>, driver: Driver)
    requires Below(ctxs)
    ensures Run(ctxs, Erase(stmts), trace, driver) == Run(ctxs, stmts, trace, driver) <==>
            !BeginsAnother(ctxs, stmts, trace, driver)
  {
    if BeginsAnother(ctxs, stmts, trace, driver) {
      AnotherBegin(ctxs, stmts, trace, driver);
      ErasedBeginsNothing(ctxs, stmts, trace, driver);
    } else {
      ErasingKeeps(ctxs, stmts, trace, driver);
    }
  }

  /** A callback that keeps to its own context begins no other transaction, so
      its inner calls can be erased. */
  lemma {:induction false} OwnContextBeginsNoOther(ctxs: seq<Handle>, stmts: seq<Stmt>, trace: seq<Effect>, driver: Driver)
    requires ctxs != [] && ctxs[|ctxs| - 1].Tx? && OwnContext(stmts)
    ensures !BeginsAnother(ctxs, stmts, trace, driver)
    decreases stmts
  {
    if stmts == [] { return; }
    match stmts[0]
    case Write(up, w) => OwnContextBeginsNoOther(ctxs, stmts[1..], trace + [Exec(At(ctxs, up), w, true)], driver);
    case Call(up, body, nested, swallows, recovers) =>
      var ctx := At(ctxs, up);
      OwnContextBeginsNoOther(ctxs + [ctx], body, trace, driver);
      OwnContextBeginsNoOther(ctxs, stmts[1..], Run(ctxs + [ctx], body, trace, driver).trace, driver);
    case _ =>
  }

  // ----- The database -----

  class Database {
    var table: seq<int>
    var open: map<nat, seq<int>>
    var asked: nat
    const driver: Driver
    ghost var trace: seq<Effect>

    ghost predicate Valid()
      reads this
    {
      Rows(table, open) == Replay(trace) && asked == |trace| && Proper(trace)
    }

    constructor (driver: Driver)
      ensures Valid() && table == [] && trace == [] && this.driver == driver
    {
      table, open, asked, this.driver, trace := [], map[], 0, driver, [];
    }

    method BeginTx() returns (ok: bool, id: nat)
      requires Valid()
      modifies this
      ensures Valid() && ok == driver(|old(trace)|) && id == |old(trace)| && trace == old(trace) + [Begin(id, ok)]
    {
      OneMore(trace, Begin(asked, driver(asked)));
      hide Replay, Proper;
      ok, id := driver(asked), asked;
      if ok {
        open := open[id := []];
      }
      asked, trace := asked + 1, trace + [Begin(id, ok)];
    }

    method ExecOn(on: Handle, w: int) returns (ok: bool)
      requires Valid() && (on.Tx? ==> on.id in open)
      modifies this
      ensures Valid() && ok == driver(|old(trace)|) && trace == old(trace) + [Exec(on, w, ok)]
    {
      OneMore(trace, Exec(on, w, driver(asked)));
      hide Replay, Proper, Begun, Ended, Begins;
      ok := driver(asked);
      asked, trace := asked + 1, trace + [Exec(on, w, ok)];
      if ok && on.Db? {
        table := table + [w];
      } else if ok && on.Tx? {
        open := open[on.id := open[on.id] + [w]];
      }
    }

    method CommitTx(id: nat) returns (ok: bool)
      requires Valid() && id in open
      modifies this
      ensures Valid() && ok == driver(|old(trace)|) && trace == old(trace) + [Commit(id, ok)]
    {
      OneMore(trace, Commit(id, driver(asked)));
      hide Replay, Proper;
      ok := driver(asked);
      if ok {
        table := table + open[id];
      }
      open, asked, trace := open - {id}, asked + 1, trace + [Commit(id, ok)];
    }

    method RollbackTx(id: nat)
      requires Valid() && id in open
      modifies this
      ensures Valid() && trace == old(trace) + [Rollback(id)]
    {
      OneMore(trace, Rollback(id));
      hide Replay, Proper;
      open, asked, trace := open - {id}, asked + 1, trace + [Rollback(id)];
    }
  }

  /** Runs a callback in the innermost of the given contexts. */
  method RunCallback(db: Database, ctxs: seq<Handle>, stmts: seq<Stmt>) returns (o: Outcome)
    requires ctxs != [] && db.Valid() && InReach(ctxs, db.trace)
    modifies db
    ensures db.Valid() && Result(db.trace, o) == Run(ctxs, stmts, old(db.trace), db.driver)
    decreases stmts, 0
  {
    RunKeeps(ctxs, stmts, db.trace, db.driver);
    hide Replay, Proper, Transacted;
    if stmts == [] { return Ok; }
    match stmts[0] {
      case Write(up, w) =>
        var on := At(ctxs, up);
        assert on in ctxs;
        if on.Missing? { return Panicked; }
        OneMore(db.trace, Exec(on, w, db.driver(|db.trace|)));
        var ok := db.ExecOn(on, w);
        if !ok { return Err(ExecFailed); }
      case Fail => return Err(App);
      case Panic => return Panicked;
      case Call(up, body, nested, swallows, recovers) =>
        var ctx := At(ctxs, up);
        var inner: Outcome;
        if nested {
          TransactedKeeps(ctxs, ctx, body, db.trace, db.driver);
          inner := WithTransaction(db, ctxs, ctx, body);
        } else {
          RunKeeps(ctxs + [ctx], body, db.trace, db.driver);
          inner := RunCallback(db, ctxs + [ctx], body);
        }
        if !Continues(inner, swallows, recovers) { return inner; }
    }
    o := RunCallback(db, ctxs, stmts[1..]);
  }

  /** Reuses the transaction of the context; otherwise begins one, runs the
      callback, and commits it or, after an error or a panic, rolls it back. */
  method WithTransaction(db: Database, ctxs: seq<Handle>, ctx: Handle, fn: seq<Stmt>) returns (o: Outcome)
    requires db.Valid() && InReach(ctxs, db.trace) && InReach([ctx], db.trace)
    modifies db
    ensures db.Valid() && Result(db.trace, o) == Transacted(ctxs, ctx, fn, old(db.trace), db.driver)
    ensures ctx.Missing? ==> o == Err(NoDatabase) && db.trace == old(db.trace)
    ensures ctx.Foreign? ==> o == Err(NotSqlDb) && db.trace == old(db.trace)
    decreases fn, 1
  {
    hide Replay, Proper, Run;
    if ctx.Missing? { return Err(NoDatabase); }
    assert ctx in [ctx];
    if ctx.Tx? {
      o := RunCallback(db, ctxs + [ctx], fn);
      return;
    }
    if !ctx.Db? { return Err(NotSqlDb); }
    OneMore(db.trace, Begin(|db.trace|, db.driver(|db.trace|)));
    NewIsNotOpen(db.trace);
    var ok, id := db.BeginTx();
    if !ok { return Err(BeginFailed); }
    RunKeeps(ctxs + [Tx(id)], fn, db.trace, db.driver);
    o := RunCallback(db, ctxs + [Tx(id)], fn);
    if !o.Ok? {
      db.RollbackTx(id);
      return;
    }
    ok := db.CommitTx(id);
    if !ok { return Err(CommitFailed); }
  }

  // ----- Two consequences -----

  function Writes(ws: seq<int>): seq<Stmt> {
    seq(|ws|, i requires 0 <= i < |ws| => Write(0, ws[i]))
  }

  function Granted(on: Handle, ws: seq<int>): seq<Effect> {
    seq(|ws|, i requires 0 <= i < |ws| => Exec(on, ws[i], true))
  }

  lemma {:induction false} WritesThenFail(ctxs: seq<Handle>, ws: seq<int>, trace: seq<Effect>, driver: Driver)
    requires ctxs != [] && !At(ctxs, 0).Missing? && forall n :: driver(n)
    ensures Run(ctxs, Writes(ws) + [Fail], trace, driver) == Result(trace + Granted(At(ctxs, 0), ws), Err(App))
    ensures OwnContext(Writes(ws) + [Fail])
    decreases |ws|
  {
    var stmts := Writes(ws) + [Fail];
    if ws == [] {
      assert stmts == [Fail] && trace + Granted(At(ctxs, 0), ws) == trace;
    } else {
      var e := Exec(At(ctxs, 0), ws[0], true);
      WritesThenFail(ctxs, ws[1..], trace + [e], driver);
      assert stmts[1..] == Writes(ws[1..]) + [Fail];
      assert trace + [e] + Granted(At(ctxs, 0), ws[1..]) == trace + Granted(At(ctxs, 0), ws);
    }
  }

  lemma {:induction false} WritesToGranted(trace: seq<Effect>, id: nat, ws: seq<int>)
    ensures WritesTo(trace + Granted(Tx(id), ws), id) == WritesTo(trace, id) + ws
    decreases |ws|
  {
    if ws == [] {
      assert trace + Granted(Tx(id), ws) == trace;
    } else {
      var n := |ws| - 1;
      var all := trace + Granted(Tx(id), ws);
      WritesToGranted(trace, id, ws[..n]);
      assert all[..|all| - 1] == trace + Granted(Tx(id), ws[..n]) && all[|all| - 1] == Exec(Tx(id), ws[n], true);
      assert ws == ws[..n] + [ws[n]];
    }
  }

  lemma SwallowingRun(body: seq<Stmt>, after: int, t: seq<Effect>, driver: Driver)
    requires forall n :: driver(n)
    requires Run([Db, Tx(0), Tx(0)], body, [Begin(0, true)], driver) == Result(t, Err(App))
    ensures Transacted([Db], Db, [Call(0, body, true, true, false), Write(0, after)], [], driver) ==
            Result(t + [Exec(Tx(0), after, true)] + [Commit(0, true)], Ok)
  {
    var fn := [Call(0, body, true, true, false), Write(0, after)];
    var begun, own, wrote := [Begin(0, true)], [Db, Tx(0)], t + [Exec(Tx(0), after, true)];
    assert [Db] + [Tx(0)] == own && own + [Tx(0)] == [Db, Tx(0), Tx(0)] && [] + begun == begun;
    assert fn[1..] == [Write(0, after)] && fn[1..][1..] == [];
    assert Transacted(own, Tx(0), body, begun, driver) == Result(t, Err(App));
    assert Run(own, fn[1..], t, driver) == Run(own, [], wrote, driver) == Result(wrote, Ok);
    assert Run(own, fn, begun, driver) == Result(wrote, Ok);
  }

  /** A callback that swallows an inner failure keeps the writes made before it. */
  lemma SwallowedFailureKeepsWrites(before: seq<int>, after: int, driver: Driver)
    requires forall n :: driver(n)
    ensures var fn := [Call(0, Writes(before) + [Fail], true, true, false), Write(0, after)];
            var r := Transacted([Db], Db, fn, [], driver);
            r.outcome == Ok && Replay(r.trace).table == before + [after]
  {
    var body, begun := Writes(before) + [Fail], [Begin(0, true)];
    var fn := [Call(0, body, true, true, false), Write(0, after)];
    var t := begun + Granted(Tx(0), before);
    WritesThenFail([Db, Tx(0), Tx(0)], before, begun, driver);
    SwallowingRun(body, after, t, driver);
    assert OwnContext(fn) by { assert fn[1..] == [Write(0, after)] && OwnContext(fn[1..]); }
    hide Run, Transacted, Writes, Granted;
    OwnContextAllOrNothing([Db], fn, [], driver);
    WritesOfSwallowing(before, after);
  }

  lemma WritesOfSwallowing(before: seq<int>, after: int)
    ensures WritesTo([Begin(0, true)] + Granted(Tx(0), before) + [Exec(Tx(0), after, true)] + [Commit(0, true)], 0) ==
            before + [after]
  {
    var begun := [Begin(0, true)];
    var t := begun + Granted(Tx(0), before);
    WritesToGranted(begun, 0, before);
    assert WritesTo(begun, 0) == [] by { assert begun[..0] == []; }
    hide Granted;
    var wrote := t + [Exec(Tx(0), after, true)];
    var all := wrote + [Commit(0, true)];
    assert all[..|all| - 1] == wrote && wrote[..|wrote| - 1] == t;
  }

  /** An inner call that is given the outer context instead of its own commits
      a transaction of its own: its write stays although the outer call fails. */
  lemma OuterContextEscapes(w: int, driver: Driver)
    requires forall n :: driver(n)
    ensures var fn := [Call(1, [Write(0, w)], true, false, false), Fail];
            var r := Transacted([Db], Db, fn, [], driver);
            r.outcome == Err(App) && Replay(r.trace).table == [w]
  {
    var body := [Write(0, w)];
    var fn := [Call(1, body, true, false, false), Fail];
    assert fn[1..] == [Fail] && body[1..] == [];
    var own := [Db] + [Tx(0)];
    var t1 := [] + [Begin(0, true)];
    var t2 := t1 + [Begin(1, true)];
    var t3 := t2 + [Exec(Tx(1), w, true)];
    var t4 := t3 + [Commit(1, true)];
    assert At(own, 1) == Db;
    assert Run(own + [Tx(1)], body, t2, driver) == Run(own + [Tx(1)], [], t3, driver) == Result(t3, Ok);
    assert Transacted(own, Db, body, t1, driver) == Result(t4, Ok);
    assert Run(own, [Fail], t4, driver) == Result(t4, Err(App));
    assert Run(own, fn, t1, driver) == Result(t4, Err(App));
    assert Transacted([Db], Db, fn, [], driver) == Result(t4 + [Rollback(0)], Err(App));
    hide Run, Transacted, Proper;
    EscapedRows(w);
  }

  lemma EscapedRows(w: int)
    ensures var t2 := [] + [Begin(0, true)] + [Begin(1, true)];
            Replay(t2 + [Exec(Tx(1), w, true)] + [Commit(1, true)] + [Rollback(0)]).table == [w]
  {
    assert Replay([]) == Rows([], map[]);
    hide Replay, Proper, Begun, Ended, Begins;
    var t1 := [] + [Begin(0, true)];
    var t2 := t1 + [Begin(1, true)];
    var t3 := t2 + [Exec(Tx(1), w, true)];
    OneMore([], Begin(0, true));
    OneMore(t1, Begin(1, true));
    OneMore(t2, Exec(Tx(1), w, true));
    OneMore(t3, Commit(1, true));
    OneMore(t3 + [Commit(1, true)], Rollback(0));
  }
}
