/** What a chain of Where conditions means once their texts are joined with
    AND, and which rows a query with LIMIT and OFFSET returns. */
module QueryMeaning {
  import opened Text

  // ----- Conditions without parentheses -----

  /** An argument, known by the literal it stands for. */
  datatype Value = Value(literal: string)

  /** An elementary test: its text with a placeholder for each argument. */
  datatype Test = Test(text: string, args: seq<Value>)

  /** `a AND b OR c` is [[a, b], [c]]: an OR of ANDs, since AND binds tighter. */
  type Condition = seq<seq<Test>>

  predicate WellFormed(c: Condition) {
    c != [] && forall i :: 0 <= i < |c| ==> c[i] != []
  }

  /** Texts with `glue` between each two neighbours. */
  function Glue(parts: seq<string>, glue: string): string {
    if |parts| == 0 then ""
    else if |parts| == 1 then parts[0]
    else parts[0] + glue + Glue(parts[1..], glue)
  }

  function TestTexts(tests: seq<Test>): seq<string> {
    seq(|tests|, i requires 0 <= i < |tests| => tests[i].text)
  }

  function TextOf(c: Condition): string {
    if |c| == 0 then ""
    else if |c| == 1 then Glue(TestTexts(c[0]), " AND ")
    else Glue(TestTexts(c[0]), " AND ") + " OR " + TextOf(c[1..])
  }

  /** The arguments of all tests, in the order of their placeholders. */
  function TestArgs(tests: seq<Test>): seq<Value> {
    if tests == [] then [] else tests[0].args + TestArgs(tests[1..])
  }

  function ArgsOf(c: Condition): seq<Value> {
    if c == [] then [] else TestArgs(c[0]) + ArgsOf(c[1..])
  }

  /** The condition that `x AND y` is once the two texts stand side by side. */
  function Beside(x: Condition, y: Condition): (r: Condition)
    requires WellFormed(x) && WellFormed(y)
    ensures WellFormed(r) && |r| == |x| + |y| - 1
  {
    x[..|x| - 1] + [x[|x| - 1] + y[0]] + y[1..]
  }

  lemma {:induction false} GlueAppend(a: seq<string>, b: seq<string>, glue: string)
    requires a != [] && b != []
    ensures Glue(a + b, glue) == Glue(a, glue) + glue + Glue(b, glue)
    ensures Glue([], glue) == "" && Glue([a[0]], glue) == a[0]
  {
    if |a| == 1 {
      assert (a + b)[1..] == b;
    } else {
      assert (a + b)[1..] == a[1..] + b;
      GlueAppend(a[1..], b, glue);
      assert a[0] + glue + (Glue(a[1..], glue) + glue + Glue(b, glue)) ==
             a[0] + glue + Glue(a[1..], glue) + glue + Glue(b, glue);
    }
  }

  /** Joining two conditions' texts with AND gives the text of Beside. */
  lemma {:induction false} BesideIsTheJoinedText(x: Condition, y: Condition)
    requires WellFormed(x) && WellFormed(y)
    ensures TextOf(Beside(x, y)) == TextOf(x) + " AND " + TextOf(y)
  {
    if |x| == 1 {
      var a, b := TestTexts(x[0]), TestTexts(y[0]);
      GlueAppend(a, b, " AND ");
      assert Beside(x, y)[0] == x[0] + y[0] && Beside(x, y)[1..] == y[1..];
      assert TestTexts(x[0] + y[0]) == a + b;
      hide Glue, Beside;
      Regroup(Glue(a, " AND "), " AND ", Glue(b, " AND "), " OR ", TextOf(y[1..]));
    } else {
      assert Beside(x, y)[0] == x[0] && Beside(x, y)[1..] == Beside(x[1..], y);
      BesideIsTheJoinedText(x[1..], y);
      hide Glue, Beside;
      Regroup(Glue(TestTexts(x[0]), " AND "), " OR ", TextOf(x[1..]), " AND ", TextOf(y));
    }
  }

  lemma Regroup(a: string, m: string, b: string, n: string, c: string)
    ensures a + m + b + n + c == a + m + (b + n + c)
  {
  }

  lemma {:induction false} TestArgsAppend(a: seq<Test>, b: seq<Test>)
    ensures TestArgs(a + b) == TestArgs(a) + TestArgs(b)
  {
    if a == [] {
      assert a + b == b;
    } else {
      assert (a + b)[1..] == a[1..] + b;
      TestArgsAppend(a[1..], b);
    }
  }

  /** Beside has the arguments of both conditions, in order. */
  lemma {:induction false} BesideHasBothArgs(x: Condition, y: Condition)
    requires WellFormed(x) && WellFormed(y)
    ensures ArgsOf(Beside(x, y)) == ArgsOf(x) + ArgsOf(y)
  {
    if |x| == 1 {
      TestArgsAppend(x[0], y[0]);
      assert Beside(x, y)[0] == x[0] + y[0] && Beside(x, y)[1..] == y[1..];
      assert ArgsOf(x[1..]) == [];
    } else {
      assert Beside(x, y)[0] == x[0] && Beside(x, y)[1..] == Beside(x[1..], y);
      BesideHasBothArgs(x[1..], y);
    }
  }

  /** Whether a row passes, given the tests it passes. */
  ghost predicate Passes(c: Condition, v: Test -> bool) {
    exists i :: 0 <= i < |c| && forall a :: a in c[i] ==> v(a)
  }

  /** All the conditions of a chain side by side. */
  function Chain(cs: seq<Condition>): (r: Condition)
    requires cs != [] && forall i :: 0 <= i < |cs| ==> WellFormed(cs[i])
    ensures WellFormed(r)
  {
    if |cs| == 1 then cs[0] else Beside(cs[0], Chain(cs[1..]))
  }

  predicate HasOr(c: Condition) {
    |c| > 1
  }

  /** The WHERE clause Build emits is the text of the chain. */
  lemma {:induction false} ChainIsTheWhereClause(cs: seq<Condition>)
    requires cs != [] && forall i :: 0 <= i < |cs| ==> WellFormed(cs[i])
    ensures TextOf(Chain(cs)) == Glue(seq(|cs|, i requires 0 <= i < |cs| => TextOf(cs[i])), " AND ")
  {
    var texts := seq(|cs|, i requires 0 <= i < |cs| => TextOf(cs[i]));
    if |cs| > 1 {
      ChainIsTheWhereClause(cs[1..]);
      assert texts[1..] == seq(|cs[1..]|, i requires 0 <= i < |cs[1..]| => TextOf(cs[1..][i]));
      BesideIsTheJoinedText(cs[0], Chain(cs[1..]));
    }
  }

  lemma {:induction false} ChainWidth(cs: seq<Condition>)
    requires cs != [] && forall i :: 0 <= i < |cs| ==> WellFormed(cs[i])
    ensures !HasOr(Chain(cs)) <==> forall i :: 0 <= i < |cs| ==> !HasOr(cs[i])
  {
    if |cs| > 1 {
      ChainWidth(cs[1..]);
      if i :| 0 <= i < |cs[1..]| && HasOr(cs[1..][i]) {
        assert HasOr(cs[i + 1]);
      }
    }
  }

  /** Without OR, the chain passes exactly when every condition does. */
  lemma {:induction false} ChainWithoutOr(cs: seq<Condition>, v: Test -> bool)
    requires cs != [] && forall i :: 0 <= i < |cs| ==> WellFormed(cs[i])
    requires forall i :: 0 <= i < |cs| ==> !HasOr(cs[i])
    ensures Passes(Chain(cs), v) <==> forall i :: 0 <= i < |cs| ==> Passes(cs[i], v)
  {
    if |cs| > 1 {
      ChainWithoutOr(cs[1..], v);
      ChainWidth(cs[1..]);
      var rest := Chain(cs[1..]);
      assert Beside(cs[0], rest)[0] == cs[0][0] + rest[0];
      if forall i :: 0 <= i < |cs| ==> Passes(cs[i], v) {
        forall i | 0 <= i < |cs[1..]| ensures Passes(cs[1..][i], v) { assert Passes(cs[i + 1], v); }
      }
      if forall i :: 0 <= i < |cs[1..]| ==> Passes(cs[1..][i], v) {
        forall i | 1 <= i < |cs| ensures Passes(cs[i], v) { assert cs[1..][i - 1] == cs[i]; }
      }
      assert Passes(Beside(cs[0], rest), v) <==> Passes(cs[0], v) && Passes(rest, v) by {
        assert forall a :: a in cs[0][0] + rest[0] <==> a in cs[0][0] || a in rest[0];
      }
    }
  }

  lemma {:induction false} LastOfChain(cs: seq<Condition>, scope: Test)
    requires cs != [] && (forall i :: 0 <= i < |cs| ==> WellFormed(cs[i])) && cs[|cs| - 1] == [[scope]]
    requires forall i, j :: 0 <= i < |cs| - 1 && 0 <= j < |cs[i]| ==> scope !in cs[i][j]
    ensures var c := Chain(cs);
            scope in c[|c| - 1] && forall j :: 0 <= j < |c| - 1 ==> scope !in c[j]
  {
    if |cs| > 1 {
      var rest := cs[1..];
      forall i, j | 0 <= i < |rest| - 1 && 0 <= j < |rest[i]| ensures scope !in rest[i][j] {
        assert rest[i] == cs[i + 1];
      }
      LastOfChain(rest, scope);
      var c, x, y := Chain(cs), cs[0], Chain(rest);
      forall j | 0 <= j < |c| - 1 ensures scope !in c[j] {
        if j < |x| - 1 {
          assert c[j] == x[j];
        } else if j == |x| - 1 {
          assert c[j] == x[|x| - 1] + y[0];
        } else {
          assert c[j] == y[j - |x| + 1];
        }
      }
    }
  }

  /** A condition lets only rows pass that pass `scope`, whatever the outcome
      of its tests, exactly when `scope` is among the tests of each disjunct. */
  lemma ConfinedIff(c: Condition, scope: Test)
    ensures (forall v: Test -> bool :: Passes(c, v) ==> v(scope)) <==> forall j :: 0 <= j < |c| ==> scope in c[j]
  {
    if j :| 0 <= j < |c| && scope !in c[j] {
      var others: Test -> bool := a => a != scope;
      assert forall a :: a in c[j] ==> others(a);
      assert Passes(c, others) && !others(scope);
    }
  }

  /** Adding the domain test to a chain that does not have it confines every
      query to the domain, whatever the outcome of the tests, exactly when no
      condition of the chain contains an OR. */
  lemma ScopedIffNoOr(conditions: seq<Condition>, scope: Test)
    requires forall i :: 0 <= i < |conditions| ==> WellFormed(conditions[i])
    requires forall i, j :: 0 <= i < |conditions| && 0 <= j < |conditions[i]| ==> scope !in conditions[i][j]
    ensures (forall v: Test -> bool :: Passes(Chain(conditions + [[[scope]]]), v) ==> v(scope)) <==>
            (forall i :: 0 <= i < |conditions| ==> !HasOr(conditions[i]))
  {
    var cs := conditions + [[[scope]]];
    var c := Chain(cs);
    ConfinedIff(c, scope);
    ChainWidth(cs);
    LastOfChain(cs, scope);
    hide Passes, Chain;
    if HasOr(c) {
      assert scope !in c[0];
      var i :| 0 <= i < |cs| && HasOr(cs[i]);
      assert conditions[i] == cs[i];
    } else {
      forall i | 0 <= i < |conditions| ensures !HasOr(conditions[i]) { assert cs[i] == conditions[i]; }
    }
  }

  // ----- How many disjuncts a text has -----

  /** A reader of SQL text: how many parentheses are open, which quote, the
      word it is in, and the ORs read outside parentheses and quotes. */
  datatype Reader = Reader(depth: int, quote: Option<char>, word: string, ors: nat)

  const START := Reader(0, None, "", 0)

  predicate InWord(c: char) {
    'a' <= c <= 'z' || 'A' <= c <= 'Z' || '0' <= c <= '9' || c == '_' || c == '$' || c > '~'
  }

  predicate IsOr(word: string) {
    |word| == 2 && word[0] in {'O', 'o'} && word[1] in {'R', 'r'}
  }

  function EndWord(r: Reader): Reader {
    r.(word := "", ors := r.ors + if r.depth <= 0 && IsOr(r.word) then 1 else 0)
  }

  function Next(r: Reader, c: char): Reader {
    if r.quote.Some? then (if r.quote.value == c then r.(quote := None) else r)
    else if InWord(c) then r.(word := r.word + [c])
    else
      var e := EndWord(r);
      if c in {'\'', '"', '`'} then e.(quote := Some(c))
      else if c == '(' then e.(depth := e.depth + 1)
      else if c == ')' then e.(depth := e.depth - 1)
      else e
  }

  function Read(r: Reader, text: string): Reader
    decreases |text|
  {
    if text == "" then r else Read(Next(r, text[0]), text[1..])
  }

  /** The number of ORs in a text outside parentheses and quotes. */
  function Ors(text: string): nat {
    EndWord(Read(START, text)).ors
  }

  /** The text closes what it opens and has no OR outside parentheses and quotes. */
  predicate Elementary(text: string) {
    var r := Read(START, text);
    r.depth == 0 && r.quote.None? && EndWord(r).ors == 0
  }

  ghost predicate Readable(c: Condition) {
    WellFormed(c) && forall i, j :: 0 <= i < |c| && 0 <= j < |c[i]| ==> Elementary(c[i][j].text)
  }

  lemma {:induction false} ReadAppend(r: Reader, a: string, b: string)
    ensures Read(r, a + b) == Read(Read(r, a), b)
    decreases |a|
  {
    if a == "" {
      assert a + b == b;
    } else {
      assert (a + b)[1..] == a[1..] + b;
      ReadAppend(Next(r, a[0]), a[1..], b);
    }
  }

  /** ORs read before only add to those read after. */
  lemma {:induction false} ReadAfter(r: Reader, n: nat, text: string)
    ensures Read(r.(ors := r.ors + n), text) == var e := Read(r, text); e.(ors := e.ors + n)
    decreases |text|
  {
    if text == "" {
    } else {
      ReadAfter(Next(r, text[0]), n, text[1..]);
    }
  }

  /** Between two words outside parentheses and quotes. */
  predicate Resting(r: Reader, ors: nat) {
    r.depth == 0 && r.quote.None? && EndWord(r).ors == ors
  }

  lemma ReadConnective(r: Reader, word: string, ors: nat)
    requires Resting(r, ors) && (word == "AND" || word == "OR")
    ensures Read(r, " " + word + " ") == START.(ors := ors + if word == "OR" then 1 else 0)
  {
    var e := START.(ors := ors);
    var text := " " + word + " ";
    assert Next(r, ' ') == e && text[1..] == word + " ";
    assert Read(r, text) == Read(e, word + " ");
    if word == "OR" {
      assert word + " " == "OR ";
      assert Read(e, "OR ") == Read(Next(e, 'O'), "R ") by { assert "OR "[1..] == "R "; }
      assert Read(Next(e, 'O'), "R ") == Read(Next(Next(e, 'O'), 'R'), " ") by { assert "R "[1..] == " "; }
      assert Next(Next(e, 'O'), 'R').word == "OR";
      assert Read(Next(Next(e, 'O'), 'R'), " ") == Next(Next(Next(e, 'O'), 'R'), ' ') by { assert " "[1..] == ""; }
    } else {
      assert word + " " == "AND ";
      assert Read(e, "AND ") == Read(Next(e, 'A'), "ND ") by { assert "AND "[1..] == "ND "; }
      assert Read(Next(e, 'A'), "ND ") == Read(Next(Next(e, 'A'), 'N'), "D ") by { assert "ND "[1..] == "D "; }
      assert Read(Next(Next(e, 'A'), 'N'), "D ") == Read(Next(Next(Next(e, 'A'), 'N'), 'D'), " ") by { assert "D "[1..] == " "; }
      assert Next(Next(Next(e, 'A'), 'N'), 'D').word == "AND";
      assert Read(Next(Next(Next(e, 'A'), 'N'), 'D'), " ") == Next(Next(Next(Next(e, 'A'), 'N'), 'D'), ' ') by { assert " "[1..] == ""; }
    }
  }

  lemma ReadJoined(r: Reader, a: string, word: string, b: string, before: nat, after: nat)
    requires word == "AND" || word == "OR"
    requires Resting(Read(r, a), before)
    requires Resting(Read(START.(ors := before + if word == "OR" then 1 else 0), b), after)
    ensures Resting(Read(r, a + (" " + word + " ") + b), after)
  {
    ReadConnective(Read(r, a), word, before);
    ReadAppend(r, a, " " + word + " ");
    ReadAppend(r, a + (" " + word + " "), b);
    hide Read, Resting;
  }

  lemma {:induction false} ReadConjuncts(texts: seq<string>, ors: nat)
    requires texts != [] && forall i :: 0 <= i < |texts| ==> Elementary(texts[i])
    ensures Resting(Read(START.(ors := ors), Glue(texts, " AND ")), ors)
  {
    ReadElementary(texts[0], ors);
    hide Read, Resting, Elementary;
    if |texts| == 1 {
    } else {
      ReadConjuncts(texts[1..], ors);
      assert " AND " == " " + "AND" + " ";
      ReadJoined(START.(ors := ors), texts[0], "AND", Glue(texts[1..], " AND "), ors, ors);
    }
  }

  lemma ReadElementary(text: string, ors: nat)
    requires Elementary(text)
    ensures Resting(Read(START.(ors := ors), text), ors)
  {
    ReadAfter(START, ors, text);
    hide Read;
  }

  lemma {:induction false} ReadDisjuncts(c: Condition, ors: nat)
    requires Readable(c)
    ensures Resting(Read(START.(ors := ors), TextOf(c)), ors + |c| - 1)
  {
    hide Read, Resting, Elementary, Glue;
    ReadConjuncts(TestTexts(c[0]), ors);
    if |c| == 1 {
    } else {
      ReadDisjuncts(c[1..], ors + 1);
      assert " OR " == " " + "OR" + " ";
      ReadJoined(START.(ors := ors), Glue(TestTexts(c[0]), " AND "), "OR", TextOf(c[1..]), ors, ors + |c| - 1);
    }
  }

  /** The text of a condition of elementary tests has an OR for each further
      disjunct, so all readings of one text have the same number of them. */
  lemma OrsAreDisjuncts(c: Condition)
    requires Readable(c)
    ensures Ors(TextOf(c)) == |c| - 1
  {
    ReadDisjuncts(c, 0);
  }

  /** Two elementary tests joined by OR are not one elementary test. */
  lemma OrIsSeen(a: string, b: string)
    requires Elementary(a) && Elementary(b)
    ensures Ors(a + " OR " + b) == 1 && !Elementary(a + " OR " + b)
  {
    var c := [[Test(a, [])], [Test(b, [])]];
    assert c[1..] == [[Test(b, [])]] && TestTexts(c[0]) == [a] && TestTexts(c[1]) == [b];
    assert TextOf(c[1..]) == b && TextOf(c) == a + " OR " + b;
    hide Read, TextOf;
    OrsAreDisjuncts(c);
  }

  // ----- LIMIT and OFFSET -----

  /** The rows LIMIT and OFFSET leave; None is a missing clause. A negative
      limit is no limit and a negative offset is none. */
  function Window<T>(rows: seq<T>, limit: Option<int>, offset: Option<int>): (r: seq<T>)
    ensures |r| <= |rows|
  {
    var from := if offset.Some? && offset.value > 0 then offset.value else 0;
    var kept := if from < |rows| then rows[from..] else [];
    if limit.Some? && 0 <= limit.value < |kept| then kept[..limit.value] else kept
  }

  /** Execute: the window of the matching rows. */
  function Executed<T>(matching: seq<T>, limit: Option<int>, offset: Option<int>): seq<T> {
    Window(matching, limit, offset)
  }

  /** Count: the one row of SELECT COUNT(*), through the same window; no row is an error. */
  function Counted<T>(matching: seq<T>, limit: Option<int>, offset: Option<int>): Option<nat> {
    var rows := Window([|matching|], limit, offset);
    if rows == [] then None else Some(rows[0])
  }

  /** Count fails exactly for LIMIT 0 or a positive OFFSET, and otherwise
      counts what Execute would return without a window; it equals the length
      of Execute exactly when the limit cuts nothing off. */
  lemma CountAgainstExecute<T>(matching: seq<T>, limit: Option<int>, offset: Option<int>)
    ensures Counted(matching, limit, offset).None? <==> limit == Some(0) || (offset.Some? && offset.value > 0)
    ensures Counted(matching, limit, offset).Some? ==>
              Counted(matching, limit, offset).value == |Executed(matching, None, None)|
    ensures Counted(matching, limit, offset) == Some(|Executed(matching, limit, offset)|) <==>
              (offset.None? || offset.value <= 0) && limit != Some(0) &&
              (limit.None? || limit.value < 0 || |matching| <= limit.value)
  {
  }
}
