/** Sessions with flash messages over two stores, and the response writer that
    saves once before any output. */
module Sessions {
  import opened Text

  type Strings = map<string, string>

  /** What a handler does with its session and its response. `Output` is a
      Write or WriteHeader. */
  datatype Action =
    | Put(key: string, value: string)
    | Forget(key: string)
    | Get(key: string)
    | Flash(key: string, value: string)
    | FlashMessages
    | Output

  datatype Answer = Found(value: Option<string>) | Messages(messages: Strings)

  datatype Event = Saved | Wrote

  datatype Request = Request(cookie: Option<string>, ip: string, userAgent: string, handler: seq<Action>)

  // ----- The specification -----

  /** A session between requests. */
  datatype Kept = Kept(data: Strings, flash: Strings)

  /** A session during a request. */
  datatype Live = Live(data: Strings, flashOld: Strings, flashNew: Strings, saved: bool)

  function Lookup(m: Strings, key: string): Option<string> {
    if key in m then Some(m[key]) else None
  }

  function Save(l: Live): Live {
    Live(l.data, l.flashNew, map[], true)
  }

  function Do(l: Live, a: Action): Live {
    match a
    case Put(k, v) => l.(data := l.data[k := v])
    case Forget(k) => l.(data := l.data - {k})
    case Get(_) => l
    case Flash(k, v) => l.(flashOld := l.flashOld[k := v], flashNew := l.flashNew[k := v])
    case FlashMessages => l
    case Output => if l.saved then l else Save(l)
  }

  function AnswerTo(l: Live, a: Action): seq<Answer> {
    match a
    case Get(k) => [Found(Lookup(l.data, k))]
    case FlashMessages => [Messages(l.flashOld)]
    case _ => []
  }

  function DoAll(l: Live, actions: seq<Action>): Live {
    if actions == [] then l else Do(DoAll(l, actions[..|actions| - 1]), actions[|actions| - 1])
  }

  function AnswersTo(l: Live, actions: seq<Action>): seq<Answer> {
    if actions == [] then []
    else
      var front := actions[..|actions| - 1];
      AnswersTo(l, front) + AnswerTo(DoAll(l, front), actions[|actions| - 1])
  }

  function Start(k: Kept): Live {
    Live(k.data, k.flash, map[], false)
  }

  predicate HasOutput(actions: seq<Action>) {
    actions != [] && (actions[|actions| - 1].Output? || HasOutput(actions[..|actions| - 1]))
  }

  /** The actions before the first output; all of them if there is none. */
  function UpToOutput(actions: seq<Action>): seq<Action> {
    if !HasOutput(actions) then actions else UpToOutput(actions[..|actions| - 1])
  }

  /** What a request writes to the session's row: the session as it is at the
      first output, or at the end if there is none. */
  function SavedAs(start: Live, actions: seq<Action>): Kept {
    var l := DoAll(start, UpToOutput(actions));
    Kept(l.data, l.flashNew)
  }

  /** The session object at the end of a request: what has not been saved is saved now. */
  function AtRest(l: Live): Live {
    (if l.saved then l else Save(l)).(saved := false)
  }

  /** Everything a request does to its session, the middleware's own entries first. */
  function Actions(r: Request): seq<Action> {
    [Put("ip", r.ip), Put("user_agent", r.userAgent)] + r.handler
  }

  predicate Changes(a: Action) {
    a.Put? || a.Forget? || a.Flash?
  }

  /** Nothing changes the session after the first output. */
  predicate Quiet(actions: seq<Action>) {
    forall i, j :: 0 <= i < j < |actions| && actions[i].Output? ==> !Changes(actions[j])
  }

  function SessionId(sessions: map<string, Kept>, r: Request, freshId: string): string {
    if r.cookie.Some? && r.cookie.value in sessions then r.cookie.value else freshId
  }

  function Before(sessions: map<string, Kept>, r: Request): Kept {
    if r.cookie.Some? && r.cookie.value in sessions then sessions[r.cookie.value] else Kept(map[], map[])
  }

  /** What a request answers from a table of rows, and the rows it leaves. */
  function Answered(sessions: map<string, Kept>, r: Request): seq<Answer> {
    AnswersTo(Start(Before(sessions, r)), Actions(r))
  }

  function Served(sessions: map<string, Kept>, r: Request, freshId: string): map<string, Kept> {
    sessions[SessionId(sessions, r, freshId) := SavedAs(Start(Before(sessions, r)), Actions(r))]
  }

  /** The same for session objects kept in memory, which stay as the request leaves them. */
  function IdInMemory(objects: map<string, Live>, r: Request, freshId: string): string {
    if r.cookie.Some? && r.cookie.value in objects then r.cookie.value else freshId
  }

  function BeforeInMemory(objects: map<string, Live>, r: Request): Live {
    if r.cookie.Some? && r.cookie.value in objects then objects[r.cookie.value] else Start(Kept(map[], map[]))
  }

  function ServedInMemory(objects: map<string, Live>, r: Request, freshId: string): map<string, Live> {
    objects[IdInMemory(objects, r, freshId) := AtRest(DoAll(BeforeInMemory(objects, r), Actions(r)))]
  }

  /** The rows as session objects just loaded. */
  function Loaded(rows: map<string, Kept>): map<string, Live> {
    map id | id in rows :: Start(rows[id])
  }

  // ----- When the two stores keep the same session -----

  /** A flash message is set after an output. */
  predicate FlashesLate(actions: seq<Action>) {
    actions != [] &&
    (FlashesLate(actions[..|actions| - 1]) || (HasOutput(actions[..|actions| - 1]) && actions[|actions| - 1].Flash?))
  }

  /** What comes after the first output sets no flash message and leaves the data as they were. */
  predicate Harmless(k: Kept, actions: seq<Action>) {
    !FlashesLate(actions) && DoAll(Start(k), actions).data == DoAll(Start(k), UpToOutput(actions)).data
  }

  lemma UpToFront(actions: seq<Action>)
    requires actions != []
    ensures var front := actions[..|actions| - 1];
            HasOutput(actions) ==> UpToOutput(actions) == if HasOutput(front) then UpToOutput(front) else front
  {
  }

  lemma {:induction false} AfterOutput(start: Live, actions: seq<Action>)
    requires !start.saved
    ensures var l := DoAll(start, actions);
            (l.saved <==> HasOutput(actions)) &&
            (HasOutput(actions) && !FlashesLate(actions) ==>
              l.flashNew == map[] && l.flashOld == SavedAs(start, actions).flash) &&
            (FlashesLate(actions) ==> HasOutput(actions) && l.flashNew != map[])
  {
    if actions == [] {
    } else {
      var front, a := actions[..|actions| - 1], actions[|actions| - 1];
      AfterOutput(start, front);
      UpToFront(actions);
      var l := DoAll(start, front);
      if a.Flash? {
        assert a.key in Do(l, a).flashNew;
      }
    }
  }

  /** A request leaves the same session in memory as in the database exactly
      when no flash message follows its first output and its data at the end
      are the data at the first output. */
  lemma StoresAgreeIff(k: Kept, actions: seq<Action>)
    ensures AtRest(DoAll(Start(k), actions)) == Start(SavedAs(Start(k), actions)) <==> Harmless(k, actions)
  {
    AfterOutput(Start(k), actions);
    if HasOutput(actions) {
      hide DoAll;
    }
  }

  lemma {:induction false} QuietIsHarmless(k: Kept, actions: seq<Action>)
    requires Quiet(actions)
    ensures Harmless(k, actions)
  {
    if actions == [] {
    } else {
      QuietAfterOutput(actions, |actions| - 1);
      QuietIsHarmless(k, actions[..|actions| - 1]);
    }
  }

  // ----- Flash messages live for one more request -----

  /** The messages a handler sets. */
  function FlashedBy(actions: seq<Action>): Strings {
    if actions == [] then map[]
    else
      var a := actions[|actions| - 1];
      var front := FlashedBy(actions[..|actions| - 1]);
      if a.Flash? then front[a.key := a.value] else front
  }

  lemma {:induction false} OutputIsSomewhere(actions: seq<Action>) returns (i: nat)
    requires HasOutput(actions)
    ensures i < |actions| && actions[i].Output?
  {
    i := |actions| - 1;
    if !actions[i].Output? {
      i := OutputIsSomewhere(actions[..i]);
    }
  }

  lemma QuietAfterOutput(actions: seq<Action>, i: nat)
    requires i < |actions| && Quiet(actions)
    ensures Quiet(actions[..i]) && (HasOutput(actions[..i]) ==> !Changes(actions[i]))
  {
    if HasOutput(actions[..i]) {
      var j := OutputIsSomewhere(actions[..i]);
      assert actions[j].Output?;
    }
  }

  /** Before the first output a handler sees the previous request's messages
      and its own; from then on, only its own. */
  lemma {:induction false} FlashesSeen(k: Kept, actions: seq<Action>)
    requires Quiet(actions)
    ensures var l := DoAll(Start(k), actions);
            (l.saved <==> HasOutput(actions)) &&
            l.flashOld == (if HasOutput(actions) then FlashedBy(actions) else k.flash + FlashedBy(actions)) &&
            l.flashNew == if HasOutput(actions) then map[] else FlashedBy(actions)
  {
    if actions == [] {
    } else {
      QuietAfterOutput(actions, |actions| - 1);
      FlashesSeen(k, actions[..|actions| - 1]);
    }
  }

  /** What a session keeps after a run of requests. */
  function KeptAfter(k: Kept, requests: seq<seq<Action>>): Kept {
    if requests == [] then k
    else SavedAs(Start(KeptAfter(k, requests[..|requests| - 1])), requests[|requests| - 1])
  }

  /** In any run a message is shown in the request that set it and up to the
      save of the next one, and never later. */
  lemma FlashLivesOneMoreRequest(k: Kept, requests: seq<seq<Action>>, current: seq<Action>)
    requires requests != [] && Quiet(requests[|requests| - 1]) && Quiet(current)
    ensures var shown := DoAll(Start(KeptAfter(k, requests)), current).flashOld;
            shown == (if HasOutput(current) then map[] else FlashedBy(requests[|requests| - 1])) + FlashedBy(current)
  {
    var before, last := KeptAfter(k, requests[..|requests| - 1]), requests[|requests| - 1];
    FlashesSeen(before, last);
    QuietIsHarmless(before, last);
    AfterOutput(Start(before), last);
    FlashesSeen(KeptAfter(k, requests), current);
  }

  /** So FlashMessages answers: in the request after the one that set a
      message, with it up to the save; from the save on with the request's own. */
  lemma MessagesAreShown(k: Kept, requests: seq<seq<Action>>, current: seq<Action>)
    requires requests != [] && Quiet(requests[|requests| - 1]) && Quiet(current)
    ensures var start := Start(KeptAfter(k, requests));
            AnswersTo(start, current + [FlashMessages]) == AnswersTo(start, current) +
              [Messages((if HasOutput(current) then map[] else FlashedBy(requests[|requests| - 1])) + FlashedBy(current))]
  {
    FlashLivesOneMoreRequest(k, requests, current);
    hide KeptAfter, FlashedBy, HasOutput, DoAll;
    assert (current + [FlashMessages])[..|current|] == current;
  }

  // ----- Values are kept -----

  predicate Touches(a: Action, key: string) {
    (a.Put? || a.Forget?) && a.key == key
  }

  lemma {:induction false} UntouchedIsKept(l: Live, actions: seq<Action>, more: seq<Action>, key: string)
    requires forall i :: 0 <= i < |more| ==> !Touches(more[i], key)
    ensures Lookup(DoAll(l, actions + more).data, key) == Lookup(DoAll(l, actions).data, key)
  {
    if more == [] {
      assert actions + more == actions;
    } else {
      var front := more[..|more| - 1];
      UntouchedIsKept(l, actions, front, key);
      assert (actions + more)[..|actions + more| - 1] == actions + front;
    }
  }

  /** Get answers what was put last under its key; nothing after Forget. */
  lemma GetAnswersLastChange(l: Live, before: seq<Action>, change: Action, after: seq<Action>)
    requires change.Put? || change.Forget?
    requires forall i :: 0 <= i < |after| ==> !Touches(after[i], change.key)
    ensures var all, value := before + [change] + after, if change.Put? then Some(change.value) else None;
            Lookup(DoAll(l, all).data, change.key) == value &&
            AnswersTo(l, all + [Get(change.key)]) == AnswersTo(l, all) + [Found(value)]
  {
    var all := before + [change] + after;
    UntouchedIsKept(l, before + [change], after, change.key);
    assert (before + [change])[..|before|] == before && (all + [Get(change.key)])[..|all|] == all;
  }

  /** Without a change, what the session held before. */
  lemma GetAnswersWhatWasKept(l: Live, actions: seq<Action>, key: string)
    requires forall i :: 0 <= i < |actions| ==> !Touches(actions[i], key)
    ensures AnswersTo(l, actions + [Get(key)]) == AnswersTo(l, actions) + [Found(Lookup(l.data, key))]
  {
    UntouchedIsKept(l, [], actions, key);
    assert [] + actions == actions && (actions + [Get(key)])[..|actions|] == actions;
  }

  /** The save comes right before the first output. */
  lemma {:induction false} SavedBeforeOutput(actions: seq<Action>) returns (n: nat)
    ensures n <= |actions| && UpToOutput(actions) == actions[..n]
    ensures n < |actions| ==> actions[n].Output?
    ensures forall i :: 0 <= i < n ==> !actions[i].Output?
  {
    if actions == [] {
      n := 0;
      return;
    }
    var front := actions[..|actions| - 1];
    n := SavedBeforeOutput(front);
    UpToFront(actions);
    if HasOutput(front) {
      var i := OutputIsSomewhere(front);
    } else if !actions[|actions| - 1].Output? {
      n := |actions|;
    }
  }

  /** A value put before the first output and not changed again is saved, and
      the next request gets it. */
  lemma ValuesSurvive(k: Kept, before: seq<Action>, key: string, value: string, after: seq<Action>, next: seq<Action>)
    requires forall i :: 0 <= i < |before| ==> !before[i].Output?
    requires forall i :: 0 <= i < |after| ==> !Touches(after[i], key)
    requires forall i :: 0 <= i < |next| ==> !Touches(next[i], key)
    ensures var kept := SavedAs(Start(k), before + [Put(key, value)] + after);
            Lookup(kept.data, key) == Some(value) &&
            AnswersTo(Start(kept), next + [Get(key)]) == AnswersTo(Start(kept), next) + [Found(Some(value))]
  {
    var put := Put(key, value);
    var all := before + [put] + after;
    var n := SavedBeforeOutput(all);
    assert forall i :: 0 <= i < |before| ==> all[i] == before[i];
    assert all[|before|] == put && n > |before|;
    var saved := after[..n - |before| - 1];
    assert all[..n] == before + [put] + saved;
    GetAnswersLastChange(Start(k), before, put, saved);
    GetAnswersWhatWasKept(Start(SavedAs(Start(k), all)), next, key);
  }

  /** The middleware's own entries are in the row of every request whose
      handler does not change them. */
  lemma VisitorIsNoted(k: Kept, r: Request)
    requires forall i :: 0 <= i < |r.handler| ==> !Touches(r.handler[i], "ip") && !Touches(r.handler[i], "user_agent")
    ensures var data := SavedAs(Start(k), Actions(r)).data;
            Lookup(data, "ip") == Some(r.ip) && Lookup(data, "user_agent") == Some(r.userAgent)
  {
    var ip, agent := Put("ip", r.ip), Put("user_agent", r.userAgent);
    assert Actions(r) == [] + [ip] + ([agent] + r.handler) == [ip] + [agent] + r.handler;
    ValuesSurvive(k, [], "ip", r.ip, [agent] + r.handler, []);
    ValuesSurvive(k, [ip], "user_agent", r.userAgent, r.handler, []);
  }

  // ----- Sessions and stores -----

  /** One session object. The in-memory and the database session have the
      same fields and methods and differ only in where Save puts them. */
  class Session {
    var id: string
    var data: Strings
    var flashOld: Strings
    var flashNew: Strings
    const db: DbStore?

    constructor (id: string, data: Strings, flash: Strings, db: DbStore?)
      ensures this.id == id && this.data == data && flashOld == flash && flashNew == map[] && this.db == db
    {
      this.id, this.data, flashOld, flashNew, this.db := id, data, flash, map[], db;
    }

    function Now(saved: bool): Live
      reads this
    {
      Live(data, flashOld, flashNew, saved)
    }

    method PutValue(key: string, value: string)
      modifies this`data
      ensures data == old(data)[key := value]
    {
      data := data[key := value];
    }

    method ForgetValue(key: string)
      modifies this`data
      ensures data == old(data) - {key}
    {
      data := data - {key};
    }

    method AddFlash(key: string, value: string)
      modifies this`flashOld, this`flashNew
      ensures flashOld == old(flashOld)[key := value] && flashNew == old(flashNew)[key := value]
    {
      flashOld := flashOld[key := value];
      flashNew := flashNew[key := value];
    }

    /** Saves the session; only the database store writes anything out. */
    method SaveSession()
      modifies this, db
      ensures id == old(id) && Now(true) == Save(old(Now(false)))
      ensures db != null ==> db.rows == if id in old(db.rows) then old(db.rows)[id := Kept(old(data), old(flashNew))] else old(db.rows)
    {
      if db != null {
        db.Update(this);
      } else {
        flashOld := flashNew;
        flashNew := map[];
      }
    }
  }

  /** A copy made entry by entry, in whatever order the map yields them. */
  method Copy(m: Strings) returns (copy: Strings)
    ensures copy == m
  {
    copy := map[];
    var rest := m.Keys;
    while rest != {}
      invariant rest <= m.Keys && copy.Keys == m.Keys - rest
      invariant forall k :: k in copy ==> copy[k] == m[k]
    {
      var k :| k in rest;
      copy, rest := copy[k := m[k]], rest - {k};
    }
  }

  /** The database store; a row is the session as it was last saved. */
  class DbStore {
    var rows: map<string, Kept>

    constructor ()
      ensures rows == map[]
    {
      rows := map[];
    }

    method Load(id: string) returns (s: Session?)
      ensures s == null <==> id !in rows
      ensures s != null ==> fresh(s) && s.id == id && s.db == this && s.Now(false) == Start(rows[id])
    {
      if id !in rows { return null; }
      s := new Session(id, rows[id].data, rows[id].flash, this);
    }

    method Create(id: string) returns (s: Session)
      modifies this
      ensures rows == if id in old(rows) then old(rows) else old(rows)[id := Kept(map[], map[])]
      ensures fresh(s) && s.id == id && s.db == this && s.Now(false) == Start(Kept(map[], map[]))
    {
      if id !in rows {
        rows := rows[id := Kept(map[], map[])];
      }
      s := new Session(id, map[], map[], this);
    }

    method Update(d: Session)
      modifies this, d
      ensures d.id == old(d.id) && d.Now(true) == Save(old(d.Now(false)))
      ensures rows == if d.id in old(rows) then old(rows)[d.id := Kept(old(d.data), old(d.flashNew))] else old(rows)
    {
      var data := Copy(d.data);
      var flash := Copy(d.flashNew);
      if d.id in rows {
        rows := rows[d.id := Kept(data, flash)];
      }
      d.flashOld := d.flashNew;
      d.flashNew := map[];
    }
  }

  /** The in-memory store; loading hands out the stored object itself. */
  class MemStore {
    var sessions: map<string, Session>
    ghost var repr: set<Session>

    /** Each id has an object of its own. */
    ghost predicate Valid()
      reads this, repr
    {
      (forall id :: id in sessions ==> sessions[id] in repr) &&
      (forall id :: id in sessions ==> sessions[id].id == id && sessions[id].db == null)
    }

    ghost function View(): map<string, Live>
      requires Valid()
      reads this, repr
    {
      map id | id in sessions :: sessions[id].Now(false)
    }

    constructor ()
      ensures Valid() && sessions == map[] && repr == {}
    {
      sessions, repr := map[], {};
    }

    method Load(id: string) returns (s: Session?)
      ensures s == null <==> id !in sessions
      ensures s != null ==> s == sessions[id]
    {
      s := if id in sessions then sessions[id] else null;
    }

    method Create(id: string) returns (s: Session)
      modifies this
      ensures fresh(s) && s.id == id && s.db == null && s.Now(false) == Start(Kept(map[], map[]))
      ensures sessions == old(sessions)[id := s] && repr == old(repr) + {s}
    {
      s := new Session(id, map[], map[], null);
      sessions, repr := sessions[id := s], repr + {s};
    }
  }

  // ----- The middleware -----

  /** Saves the session before the first output and remembers that it did. */
  class ResponseWriter {
    const session: Session
    var saved: bool
    ghost var trace: seq<Event>

    constructor (session: Session)
      ensures this.session == session && !saved && trace == []
    {
      this.session, saved, trace := session, false, [];
    }

    method SaveOnce()
      requires !saved
      modifies this, session, session.db
      ensures saved && trace == old(trace) + [Saved] && session.id == old(session.id)
      ensures session.Now(true) == Save(old(session.Now(false)))
      ensures RowsOf(session.db) == Stored(old(RowsOf(session.db)), session.id, Kept(old(session.data), old(session.flashNew)))
    {
      session.SaveSession();
      saved, trace := true, trace + [Saved];
    }

    method Write()
      modifies this, session, session.db
      ensures saved && session.id == old(session.id)
      ensures trace == old(trace) + if old(saved) then [Wrote] else [Saved, Wrote]
      ensures session.Now(true) == Do(old(session.Now(saved)), Output)
      ensures RowsOf(session.db) ==
              if old(saved) then old(RowsOf(session.db))
              else Stored(old(RowsOf(session.db)), session.id, Kept(old(session.data), old(session.flashNew)))
    {
      if !saved {
        SaveOnce();
      }
      trace := trace + [Wrote];
    }
  }

  /** The rows behind a session; the in-memory one has none. */
  function RowsOf(db: DbStore?): map<string, Kept>
    reads db
  {
    if db == null then map[] else db.rows
  }

  /** UPDATE by primary key: no effect on a missing row. */
  function Stored(rows: map<string, Kept>, id: string, k: Kept): map<string, Kept> {
    if id in rows then rows[id := k] else rows
  }

  /** One save, before any output. */
  ghost predicate SavedFirst(trace: seq<Event>) {
    forall i :: 0 <= i < |trace| ==> (trace[i] == Saved <==> i == 0)
  }

  lemma OneMore(start: Live, actions: seq<Action>, i: nat)
    requires i < |actions|
    ensures DoAll(start, actions[..i + 1]) == Do(DoAll(start, actions[..i]), actions[i])
    ensures AnswersTo(start, actions[..i + 1]) == AnswersTo(start, actions[..i]) + AnswerTo(DoAll(start, actions[..i]), actions[i])
  {
    assert actions[..i + 1][..i] == actions[..i];
  }

  /** One step of a handler: the session follows the specification, the first
      output saves it, and the database row changes only then. */
  method Perform(w: ResponseWriter, a: Action) returns (answer: seq<Answer>)
    modifies w, w.session, w.session.db
    ensures w.session.id == old(w.session.id)
    ensures w.session.Now(w.saved) == Do(old(w.session.Now(w.saved)), a) && answer == AnswerTo(old(w.session.Now(w.saved)), a)
    ensures w.trace == old(w.trace) + if !a.Output? then [] else if old(w.saved) then [Wrote] else [Saved, Wrote]
    ensures RowsOf(w.session.db) == RowsAfter(old(RowsOf(w.session.db)), w.session.id, old(w.session.Now(w.saved)), a)
  {
    answer := [];
    match a {
      case Put(k, v) => w.session.PutValue(k, v);
      case Forget(k) => w.session.ForgetValue(k);
      case Get(k) => answer := [Found(Lookup(w.session.data, k))];
      case Flash(k, v) => w.session.AddFlash(k, v);
      case FlashMessages => answer := [Messages(w.session.flashOld)];
      case Output => w.Write();
    }
  }

  /** Performs the actions of a handler in turn. */
  method PerformAll(w: ResponseWriter, actions: seq<Action>) returns (answers: seq<Answer>)
    requires !w.saved && w.trace == []
    modifies w, w.session, w.session.db
    ensures w.session.id == old(w.session.id)
    ensures w.session.Now(w.saved) == DoAll(old(w.session.Now(false)), actions)
    ensures answers == AnswersTo(old(w.session.Now(false)), actions)
    ensures SavedFirst(w.trace) && (w.saved <==> w.trace != [])
    ensures RowsOf(w.session.db) ==
            RowsSoFar(old(RowsOf(w.session.db)), w.session.id, old(w.session.Now(false)), actions)
  {
    ghost var start, rows := w.session.Now(false), RowsOf(w.session.db);
    answers := [];
    hide DoAll, AnswersTo, Do, AnswerTo, RowsAfter, RowsSoFar, RowsOf;
    NothingDone(start, rows, w.session.id, actions);
    for i := 0 to |actions|
      invariant w.session.id == old(w.session.id)
      invariant w.session.Now(w.saved) == DoAll(start, actions[..i])
      invariant answers == AnswersTo(start, actions[..i])
      invariant SavedFirst(w.trace) && (w.saved <==> w.trace != [])
      invariant RowsOf(w.session.db) == RowsSoFar(rows, w.session.id, start, actions[..i])
    {
      OneMore(start, actions, i);
      RowsStep(rows, w.session.id, start, actions, i);
      var answer := Perform(w, actions[i]);
      answers := answers + answer;
    }
    assert actions[..|actions|] == actions;
  }

  /** Serves one request with a loaded session: the middleware's own entries,
      the handler, and a save if there was no output. */
  method Handle(session: Session, r: Request) returns (answers: seq<Answer>, ghost trace: seq<Event>)
    modifies session, session.db
    ensures session.id == old(session.id)
    ensures answers == AnswersTo(old(session.Now(false)), Actions(r))
    ensures trace != [] && SavedFirst(trace)
    ensures session.Now(false) == AtRest(DoAll(old(session.Now(false)), Actions(r)))
    ensures RowsOf(session.db) ==
            Stored(old(RowsOf(session.db)), session.id, SavedAs(old(session.Now(false)), Actions(r)))
  {
    hide DoAll, AnswersTo, Actions, RowsSoFar, RowsOf, Stored, Save, SavedAs;
    ghost var start, rows := session.Now(false), RowsOf(session.db);
    var w := new ResponseWriter(session);
    answers := PerformAll(w, Actions(r));
    RowsAtTheEnd(rows, session.id, start, Actions(r));
    if !w.saved {
      w.SaveOnce();
    }
    trace := w.trace;
  }

  /** The rows after one action of a handler. */
  function RowsAfter(rows: map<string, Kept>, id: string, l: Live, a: Action): map<string, Kept> {
    if a.Output? && !l.saved then Stored(rows, id, Kept(l.data, l.flashNew)) else rows
  }

  function RowsSoFar(rows: map<string, Kept>, id: string, start: Live, done: seq<Action>): map<string, Kept> {
    if HasOutput(done) then Stored(rows, id, SavedAs(start, done)) else rows
  }

  lemma NothingDone(start: Live, rows: map<string, Kept>, id: string, actions: seq<Action>)
    ensures DoAll(start, actions[..0]) == start && AnswersTo(start, actions[..0]) == []
    ensures RowsSoFar(rows, id, start, actions[..0]) == rows
  {
  }

  lemma RowsStep(rows: map<string, Kept>, id: string, start: Live, actions: seq<Action>, i: nat)
    requires i < |actions| && !start.saved
    ensures RowsAfter(RowsSoFar(rows, id, start, actions[..i]), id, DoAll(start, actions[..i]), actions[i]) ==
            RowsSoFar(rows, id, start, actions[..i + 1])
  {
    var front := actions[..i];
    assert actions[..i + 1][..i] == front;
    UpToFront(actions[..i + 1]);
    AfterOutput(start, front);
    hide DoAll;
  }

  lemma RowsAtTheEnd(rows: map<string, Kept>, id: string, start: Live, actions: seq<Action>)
    requires !start.saved
    ensures var l, soFar := DoAll(start, actions), RowsSoFar(rows, id, start, actions);
            (if l.saved then soFar else Stored(soFar, id, Kept(l.data, l.flashNew))) ==
            Stored(rows, id, SavedAs(start, actions))
  {
    AfterOutput(start, actions);
    hide DoAll;
  }

  method LoadFromDb(store: DbStore, r: Request, freshId: string) returns (session: Session)
    requires freshId !in store.rows
    modifies store
    ensures fresh(session) && session.db == store && session.id == SessionId(old(store.rows), r, freshId)
    ensures session.Now(false) == Start(Before(old(store.rows), r))
    ensures store.rows == old(store.rows)[session.id := Before(old(store.rows), r)]
    ensures if r.cookie.Some? && r.cookie.value in old(store.rows) then
              var row := old(store.rows)[r.cookie.value];
              session.id == r.cookie.value && session.data == row.data && session.flashOld == row.flash &&
              session.flashNew == map[] && store.rows == old(store.rows)
            else
              session.id == freshId && session.data == session.flashOld == session.flashNew == map[] &&
              store.rows == old(store.rows)[freshId := Kept(map[], map[])]
  {
    var loaded: Session? := null;
    if r.cookie.Some? {
      loaded := store.Load(r.cookie.value);
    }
    if loaded == null {
      loaded := store.Create(freshId);
    }
    session := loaded;
  }

  method ServeFromDb(store: DbStore, r: Request, freshId: string) returns (answers: seq<Answer>, ghost trace: seq<Event>)
    requires freshId !in store.rows
    modifies store
    ensures answers == Answered(old(store.rows), r)
    ensures trace != [] && SavedFirst(trace)
    ensures store.rows == Served(old(store.rows), r, freshId)
  {
    hide DoAll, AnswersTo, SavedAs, Actions, SavedFirst, AtRest;
    var session := LoadFromDb(store, r, freshId);
    answers, trace := Handle(session, r);
  }

  lemma ViewIs(store: MemStore, v: map<string, Live>)
    requires store.Valid()
    ensures store.View() == v <==>
            store.sessions.Keys == v.Keys && forall id :: id in v ==> v[id] == store.sessions[id].Now(false)
  {
  }

  method LoadFromMemory(store: MemStore, r: Request, freshId: string) returns (session: Session)
    requires store.Valid() && freshId !in store.sessions
    modifies store
    ensures store.Valid() && session.id in store.sessions && store.sessions[session.id] == session
    ensures session.id == IdInMemory(old(store.View()), r, freshId)
    ensures session.Now(false) == BeforeInMemory(old(store.View()), r)
    ensures store.View() == old(store.View())[session.id := BeforeInMemory(old(store.View()), r)]
    ensures fresh(store.repr - old(store.repr))
    ensures if r.cookie.Some? && r.cookie.value in old(store.sessions) then
              session == old(store.sessions)[r.cookie.value] && store.sessions == old(store.sessions)
            else
              fresh(session) && session.id == freshId && store.sessions == old(store.sessions)[freshId := session] &&
              session.data == session.flashOld == session.flashNew == map[]
  {
    ghost var before := store.View();
    ViewIs(store, before);
    if r.cookie.Some? {
      var loaded := store.Load(r.cookie.value);
      if loaded != null {
        assert before == before[loaded.id := before[loaded.id]];
        return loaded;
      }
    }
    session := store.Create(freshId);
    ViewIs(store, before[freshId := Start(Kept(map[], map[]))]);
  }

  /** Serves a request with an object of the store. */
  method HandleStored(store: MemStore, session: Session, r: Request)
    returns (answers: seq<Answer>, ghost trace: seq<Event>)
    requires store.Valid() && session.id in store.sessions && store.sessions[session.id] == session
    modifies session
    ensures session.id == old(session.id) && answers == AnswersTo(old(session.Now(false)), Actions(r))
    ensures trace != [] && SavedFirst(trace)
    ensures store.Valid() && session.Now(false) == AtRest(DoAll(old(session.Now(false)), Actions(r)))
    ensures store.View() == old(store.View())[session.id := session.Now(false)]
  {
    hide DoAll, AnswersTo, SavedAs, Actions, SavedFirst, AtRest, RowsOf, Stored, Start;
    assert forall j :: j in store.sessions && j != session.id ==> store.sessions[j] != session;
    answers, trace := Handle(session, r);
  }

  method ServeFromMemory(store: MemStore, r: Request, freshId: string) returns (answers: seq<Answer>, ghost trace: seq<Event>)
    requires store.Valid() && freshId !in store.sessions
    modifies store, store.repr
    ensures answers == AnswersTo(BeforeInMemory(old(store.View()), r), Actions(r))
    ensures trace != [] && SavedFirst(trace)
    ensures store.Valid() && store.View() == ServedInMemory(old(store.View()), r, freshId)
    ensures fresh(store.repr - old(store.repr))
  {
    hide DoAll, AnswersTo, SavedAs, Actions, SavedFirst, AtRest, MemStore.View, BeforeInMemory, IdInMemory, Start;
    var session := LoadFromMemory(store, r, freshId);
    answers, trace := HandleStored(store, session, r);
  }

  /** A request served from both stores while they hold the same sessions: the
      answers are the same, and the stores hold the same sessions afterwards
      exactly when the request is harmless. */
  method ServeFromBoth(mem: MemStore, db: DbStore, r: Request, freshId: string)
    returns (fromMemory: seq<Answer>, fromDb: seq<Answer>)
    requires mem.Valid() && mem.View() == Loaded(db.rows) && freshId !in db.rows
    modifies mem, mem.repr, db
    ensures fromMemory == fromDb == Answered(old(db.rows), r)
    ensures mem.Valid() && fresh(mem.repr - old(mem.repr))
    ensures db.rows == Served(old(db.rows), r, freshId)
    ensures mem.View() == ServedInMemory(Loaded(old(db.rows)), r, freshId)
    ensures mem.View() == Loaded(db.rows) <==> Harmless(Before(old(db.rows), r), Actions(r))
  {
    ghost var rows := db.rows;
    assert freshId !in mem.sessions by { assert freshId !in mem.View(); }
    ServedAlikeIff(rows, r, freshId);
    hide DoAll, AnswersTo, SavedAs, Actions, SavedFirst, AtRest, MemStore.View, Harmless, Served, ServedInMemory, Loaded, BeforeInMemory, Answered;
    var a, _ := ServeFromMemory(mem, r, freshId);
    var b, _ := ServeFromDb(db, r, freshId);
    return a, b;
  }

  lemma ServedAlikeIff(rows: map<string, Kept>, r: Request, freshId: string)
    requires freshId !in rows
    ensures BeforeInMemory(Loaded(rows), r) == Start(Before(rows, r))
    ensures AnswersTo(BeforeInMemory(Loaded(rows), r), Actions(r)) == Answered(rows, r)
    ensures ServedInMemory(Loaded(rows), r, freshId) == Loaded(Served(rows, r, freshId)) <==>
            Harmless(Before(rows, r), Actions(r))
  {
    var k, id := Before(rows, r), SessionId(rows, r, freshId);
    var a, b := ServedInMemory(Loaded(rows), r, freshId), Loaded(Served(rows, r, freshId));
    StoresAgreeIff(k, Actions(r));
    hide DoAll, SavedAs, Actions, AtRest, Harmless, AnswersTo;
    assert a[id] == AtRest(DoAll(Start(k), Actions(r))) && b[id] == Start(SavedAs(Start(k), Actions(r)));
    assert forall j :: j in a && j != id ==> j in b && a[j] == b[j];
    assert a.Keys == b.Keys;
  }

  /** Each request of a run is harmless where it is served. */
  predicate AllHarmless(rows: map<string, Kept>, requests: seq<Request>, freshIds: seq<string>)
    requires |freshIds| == |requests|
    decreases |requests|
  {
    requests == [] ||
    (Harmless(Before(rows, requests[0]), Actions(requests[0])) &&
     AllHarmless(Served(rows, requests[0], freshIds[0]), requests[1..], freshIds[1..]))
  }

  /** A run of requests against both stores: as long as each is harmless, the
      stores answer alike and keep the same sessions. */
  method ServeBoth(mem: MemStore, db: DbStore, requests: seq<Request>, freshIds: seq<string>)
    returns (fromMemory: seq<seq<Answer>>, fromDb: seq<seq<Answer>>)
    requires mem.Valid() && mem.View() == Loaded(db.rows)
    requires |freshIds| == |requests| && AllHarmless(db.rows, requests, freshIds)
    requires forall i :: 0 <= i < |requests| ==> freshIds[i] !in db.rows
    requires forall i, j :: 0 <= i < j < |requests| ==> freshIds[i] != freshIds[j]
    modifies mem, mem.repr, db
    ensures fromMemory == fromDb && |fromDb| == |requests|
    ensures mem.Valid() && mem.View() == Loaded(db.rows)
  {
    fromMemory, fromDb := [], [];
    hide Harmless, Actions, SavedAs, DoAll, Loaded;
    for i := 0 to |requests|
      invariant mem.Valid() && mem.View() == Loaded(db.rows)
      invariant fresh(mem.repr - old(mem.repr))
      invariant fromMemory == fromDb && |fromDb| == i
      invariant AllHarmless(db.rows, requests[i..], freshIds[i..])
      invariant forall j :: i <= j < |requests| ==> freshIds[j] !in db.rows
    {
      assert requests[i..][1..] == requests[i + 1..] && freshIds[i..][1..] == freshIds[i + 1..];
      var a, b := ServeFromBoth(mem, db, requests[i], freshIds[i]);
      fromMemory, fromDb := fromMemory + [a], fromDb + [b];
    }
  }

  /** A value put after the output: the in-memory store keeps it and the
      database does not. */
  method PutAfterOutput(value: string) returns (mem: MemStore, db: DbStore)
    ensures fresh(mem) && fresh(mem.repr) && fresh(db)
    ensures mem.Valid() && mem.View() != Loaded(db.rows)
    ensures mem.View().Keys == db.rows.Keys == {"s"}
    ensures Lookup(mem.View()["s"].data, "x") == Some(value) && Lookup(db.rows["s"].data, "x") == None
  {
    mem := new MemStore();
    db := new DbStore();
    var r := Request(None, "ip", "agent", [Output, Put("x", value)]);
    ghost var start := Start(Kept(map[], map[]));
    assert mem.View() == Loaded(db.rows) && Before(db.rows, r) == Kept(map[], map[]);
    FirstRequest(start, value);
    hide DoAll, SavedAs, Actions, AtRest, Harmless, AnswersTo;
    var _, _ := ServeFromBoth(mem, db, r, "s");
    assert mem.View() == map["s" := AtRest(DoAll(start, Actions(r)))];
    assert db.rows == map["s" := SavedAs(start, Actions(r))];
    assert Loaded(db.rows)["s"].data == db.rows["s"].data;
  }

  /** The next request gets different answers from the two stores. */
  method LateChangeIsTold(value: string) returns (fromMemory: seq<Answer>, fromDb: seq<Answer>)
    ensures fromMemory == [Found(Some(value))] && fromDb == [Found(None)]
  {
    var mem, db := PutAfterOutput(value);
    var r := Request(Some("s"), "ip", "agent", [Get("x")]);
    SecondRequest(mem.View()["s"]);
    SecondRequest(Start(db.rows["s"]));
    assert "t" !in mem.sessions by { assert "t" !in mem.View(); }
    hide DoAll, SavedAs, Actions, AtRest, Harmless, AnswersTo;
    assert BeforeInMemory(mem.View(), r) == mem.View()["s"] && Before(db.rows, r) == db.rows["s"];
    var a, _ := ServeFromMemory(mem, r, "t");
    var b, _ := ServeFromDb(db, r, "t");
    return a, b;
  }

  lemma FirstRequest(start: Live, value: string)
    requires start == Start(Kept(map[], map[]))
    ensures var actions := Actions(Request(None, "ip", "agent", [Output, Put("x", value)]));
            "x" in AtRest(DoAll(start, actions)).data && AtRest(DoAll(start, actions)).data["x"] == value &&
            "x" !in SavedAs(start, actions).data
  {
    var a, b, c, d := Put("ip", "ip"), Put("user_agent", "agent"), Output, Put("x", value);
    assert Actions(Request(None, "ip", "agent", [c, d])) == [a, b, c, d];
    assert [a, b, c, d][..3] == [a, b, c] && [a, b, c][..2] == [a, b] && [a, b][..1] == [a] && [a][..0] == [];
    assert !HasOutput([a]) && !HasOutput([a, b]) && HasOutput([a, b, c]) && HasOutput([a, b, c, d]);
    assert UpToOutput([a, b, c, d]) == UpToOutput([a, b, c]) == UpToOutput([a, b]) == [a, b];
    assert DoAll(start, [a]) == Do(DoAll(start, []), a);
    assert DoAll(start, [a, b]) == Do(DoAll(start, [a]), b);
    assert DoAll(start, [a, b, c]) == Do(DoAll(start, [a, b]), c);
    assert DoAll(start, [a, b, c, d]) == Do(DoAll(start, [a, b, c]), d);
  }

  lemma SecondRequest(l: Live)
    ensures AnswersTo(l, Actions(Request(Some("s"), "ip", "agent", [Get("x")]))) == [Found(Lookup(l.data, "x"))]
  {
    var a, b, c := Put("ip", "ip"), Put("user_agent", "agent"), Get("x");
    assert Actions(Request(Some("s"), "ip", "agent", [c])) == [a, b, c];
    assert [a, b, c][..2] == [a, b] && [a, b][..1] == [a] && [a][..0] == [];
    assert DoAll(l, []) == l && AnswersTo(l, []) == [];
    assert DoAll(l, [a]) == Do(l, a) && AnswersTo(l, [a]) == [];
    assert DoAll(l, [a, b]) == Do(Do(l, a), b) && AnswersTo(l, [a, b]) == [];
  }
}
