/** The chained query builder: its slices grow in place, and the text it emits
    carries one placeholder for each argument, in order. */
module QueryBuilder {
  import opened Text
  import opened QueryMeaning

  datatype Direction = ASC | DESC

  /** The request context's say in domain scoping. */
  datatype Context = Context(filtering: bool, skipScope: bool, domain: string)

  /** The domain a scoped model's queries are confined to, if any. */
  function ScopeOf(ctx: Context, scoped: bool): (scope: Option<string>)
    ensures scope.Some? <==> ctx.filtering && !ctx.skipScope && scoped && ctx.domain != ""
    ensures scope.Some? ==> scope.value == ctx.domain
  {
    if ctx.filtering && !ctx.skipScope && scoped && ctx.domain != "" then Some(ctx.domain) else None
  }

  // ----- Go slices -----

  /** A slice header: a backing array and how much of it is in use. */
  datatype Slice<T> = Slice(cells: array<T>, len: nat)

  ghost predicate Fits<T>(s: Slice<T>) {
    s.len <= s.cells.Length
  }

  ghost function Items<T>(s: Slice<T>): seq<T>
    requires Fits(s)
    reads s.cells
  {
    s.cells[..s.len]
  }

  /** append: writes behind the slice if there is room for all, so another
      header on the same array keeps its items but not what lies beyond them;
      otherwise it copies into a new array with any spare room. */
  method Append<T>(s: Slice<T>, xs: seq<T>) returns (r: Slice<T>)
    requires Fits(s)
    modifies s.cells
    ensures Fits(r) && Items(r) == old(Items(s)) + xs && r.len == s.len + |xs|
    ensures s.cells[..s.len] == old(s.cells[..s.len])
    ensures HasRoom(s, |xs|) ==> r.cells == s.cells && s.cells[r.len..] == old(s.cells[s.len + |xs|..])
    ensures !HasRoom(s, |xs|) ==> fresh(r.cells) && s.cells[..] == old(s.cells[..])
  {
    if s.len + |xs| <= s.cells.Length {
      for i := 0 to |xs|
        invariant s.cells[..s.len + i] == old(s.cells[..s.len]) + xs[..i]
        invariant s.cells[s.len + |xs|..] == old(s.cells[s.len + |xs|..])
      {
        s.cells[s.len + i] := xs[i];
      }
      assert xs[..|xs|] == xs;
      return Slice(s.cells, s.len + |xs|);
    }
    var all := s.cells[..s.len] + xs;
    var spare: nat :| spare >= 0;
    var grown := new T[|all| + spare](i requires 0 <= i => if i < |all| then all[i] else xs[0]);
    assert grown[..|all|] == all;
    return Slice(grown, |all|);
  }

  predicate HasRoom<T>(s: Slice<T>, n: nat) {
    s.len + n <= s.cells.Length
  }

  // ----- Placeholders -----

  function Marks(text: string): nat {
    if text == "" then 0 else (if text[0] == '?' then 1 else 0) + Marks(text[1..])
  }

  /** The text with its placeholders replaced by the arguments, in order. */
  function Bind(text: string, args: seq<Value>): string {
    if text == "" then ""
    else if text[0] == '?' && args != [] then args[0].literal + Bind(text[1..], args[1..])
    else [text[0]] + Bind(text[1..], args)
  }

  lemma {:induction false} MarksAppend(a: string, b: string)
    ensures Marks(a + b) == Marks(a) + Marks(b)
  {
    if a == "" {
      assert a + b == b;
    } else {
      assert (a + b)[1..] == a[1..] + b;
      MarksAppend(a[1..], b);
    }
  }

  lemma {:induction false} BindAppend(a: string, b: string, x: seq<Value>, y: seq<Value>)
    requires Marks(a) == |x|
    ensures Bind(a + b, x + y) == Bind(a, x) + Bind(b, y)
  {
    if a == "" {
      assert a + b == b && x + y == y;
    } else {
      assert (a + b)[1..] == a[1..] + b;
      if a[0] == '?' {
        assert (x + y)[1..] == x[1..] + y;
        BindAppend(a[1..], b, x[1..], y);
      } else {
        BindAppend(a[1..], b, x, y);
      }
    }
  }

  lemma {:induction false} NothingToBind(a: string, args: seq<Value>)
    requires Marks(a) == 0
    ensures Bind(a, args) == a
  {
    if a == "" {
    } else {
      NothingToBind(a[1..], args);
    }
  }

  /** The placeholders of a text are its question marks. */
  lemma {:induction false} MarksAreCounted(text: string)
    ensures Marks(text) == multiset(text)['?']
  {
    if text == "" {
    } else {
      MarksAreCounted(text[1..]);
      assert text == [text[0]] + text[1..];
    }
  }

  /** The first argument goes in at the first question mark, the others behind it. */
  lemma FirstArgumentFirst(a: string, v: Value, b: string, args: seq<Value>)
    requires '?' !in a
    ensures Bind(a + "?" + b, [v] + args) == a + v.literal + Bind(b, args)
  {
    PlainText(a);
    NothingToBind(a, []);
    assert [] + ([v] + args) == [v] + args;
    BindAppend(a, "?" + b, [], [v] + args);
    assert a + "?" + b == a + ("?" + b) && ("?" + b)[1..] == b && ([v] + args)[1..] == args;
    assert Bind("?" + b, [v] + args) == v.literal + Bind(b, args);
  }

  lemma {:induction false} PlainText(a: string)
    requires '?' !in a
    ensures Marks(a) == 0
  {
    if a == "" {
    } else {
      assert a[0] in a && forall c :: c in a[1..] ==> c in a;
      PlainText(a[1..]);
    }
  }

  lemma LiteralsArePlain()
    ensures Marks("") == Marks("*") == Marks("id, ") == Marks(", ") == Marks(" AND ") == Marks("SELECT ") == Marks(" FROM ") == 0
    ensures Marks(" WHERE ") == Marks(" ORDER BY ") == Marks(" LIMIT ") == Marks(" OFFSET ") == 0
  {
    hide Marks;
    PlainText("");
    PlainText("*");
    PlainText("id, ");
    PlainText(", ");
    PlainText(" AND ");
    PlainText("SELECT ");
    PlainText(" FROM ");
    PlainText(" WHERE ");
    PlainText(" ORDER BY ");
    PlainText(" LIMIT ");
    PlainText(" OFFSET ");
  }

  // ----- The emitted text -----

  function Digits(n: nat): string {
    if n < 10 then [['0', '1', '2', '3', '4', '5', '6', '7', '8', '9'][n]] else Digits(n / 10) + Digits(n % 10)
  }

  function Decimal(n: int): string {
    if n < 0 then "-" + Digits(-n) else Digits(n)
  }

  /** The number a string of digits stands for. */
  function NumberOf(s: string): nat {
    if s == "" then 0
    else 10 * NumberOf(s[..|s| - 1]) + if '0' <= s[|s| - 1] <= '9' then (s[|s| - 1] - '0') as int else 0
  }

  /** A printed number is digits, without a leading zero unless it is zero,
      behind a minus sign if it is negative, and reads back as the number. */
  lemma {:induction false} DecimalReadsBack(n: int)
    ensures n >= 0 ==> Decimal(n) == Digits(n) && NumberOf(Digits(n)) == n
    ensures n < 0 ==> Decimal(n) == "-" + Digits(-n) && NumberOf(Digits(-n)) == -n
    ensures var digits := Digits(if n < 0 then -n else n);
            digits != "" && (forall i :: 0 <= i < |digits| ==> '0' <= digits[i] <= '9') &&
            (digits[0] == '0' ==> n == 0 && digits == "0")
    decreases if n < 0 then 1 - n else n
  {
    var m := if n < 0 then -n else n;
    if n < 0 {
      DecimalReadsBack(m);
    } else if n >= 10 {
      DecimalReadsBack(n / 10);
      LastDigit(n);
    } else {
      assert Digits(n)[..0] == "";
    }
  }

  lemma LastDigit(n: nat)
    requires n >= 10
    ensures |Digits(n)| == |Digits(n / 10)| + 1 && Digits(n)[..|Digits(n)| - 1] == Digits(n / 10)
    ensures var c := Digits(n)[|Digits(n)| - 1];
            '0' <= c <= '9' && (c - '0') as int == n % 10
  {
    assert |Digits(n % 10)| == 1;
  }

  function Columns(fields: seq<string>): string {
    if |fields| == 0 then "*" else if "COUNT" <= fields[0] then fields[0] else "id, " + Glue(fields, ", ")
  }

  function SelectPart(fields: seq<string>, table: string): string {
    "SELECT " + Columns(fields) + " FROM " + table
  }

  function WherePart(conditions: seq<string>): string {
    if |conditions| > 0 then " WHERE " + Glue(conditions, " AND ") else ""
  }

  function OrderPart(orderBy: seq<string>): string {
    if |orderBy| > 0 then " ORDER BY " + Glue(orderBy, ", ") else ""
  }

  function LimitPart(limit: Option<int>): string {
    if limit.Some? then " LIMIT " + Decimal(limit.value) else ""
  }

  function OffsetPart(offset: Option<int>): string {
    if offset.Some? then " OFFSET " + Decimal(offset.value) else ""
  }

  /** The whole query for a list of conditions. */
  function Render(fields: seq<string>, table: string, conditions: seq<string>, orderBy: seq<string>,
                  limit: Option<int>, offset: Option<int>): string {
    SelectPart(fields, table) + WherePart(conditions) + OrderPart(orderBy) + LimitPart(limit) + OffsetPart(offset)
  }

  /** Each part that is there goes behind those before it, in SQL's order. */
  lemma PartsInOrder(fields: seq<string>, table: string, conditions: seq<string>, orderBy: seq<string>,
                     limit: Option<int>, n: int)
    ensures conditions != [] ==>
              Render(fields, table, conditions, [], None, None) ==
              Render(fields, table, [], [], None, None) + (" WHERE " + Glue(conditions, " AND "))
    ensures orderBy != [] ==>
              Render(fields, table, conditions, orderBy, None, None) ==
              Render(fields, table, conditions, [], None, None) + (" ORDER BY " + Glue(orderBy, ", "))
    ensures Render(fields, table, conditions, orderBy, Some(n), None) ==
            Render(fields, table, conditions, orderBy, None, None) + (" LIMIT " + Decimal(n))
    ensures Render(fields, table, conditions, orderBy, limit, Some(n)) ==
            Render(fields, table, conditions, orderBy, limit, None) + (" OFFSET " + Decimal(n))
  {
    AbsentPartsAreEmpty();
    PresentParts(conditions, orderBy, n);
    hide Glue, Decimal, SelectPart, WherePart, OrderPart, LimitPart, OffsetPart;
    forall s: string ensures s + "" == s {
    }
  }

  lemma AbsentPartsAreEmpty()
    ensures WherePart([]) == "" && OrderPart([]) == "" && LimitPart(None) == "" && OffsetPart(None) == ""
  {
  }

  lemma PresentParts(conditions: seq<string>, orderBy: seq<string>, n: int)
    ensures conditions != [] ==> WherePart(conditions) == " WHERE " + Glue(conditions, " AND ")
    ensures orderBy != [] ==> OrderPart(orderBy) == " ORDER BY " + Glue(orderBy, ", ")
    ensures LimitPart(Some(n)) == " LIMIT " + Decimal(n) && OffsetPart(Some(n)) == " OFFSET " + Decimal(n)
  {
    hide Glue, Decimal;
  }

  /** The query without conditions, in its three forms. */
  lemma WhatIsSelected(fields: seq<string>, table: string)
    ensures var query := Render(fields, table, [], [], None, None);
            if fields == [] then query == "SELECT " + "*" + " FROM " + table
            else if "COUNT" <= fields[0] then query == "SELECT " + fields[0] + " FROM " + table
            else query == "SELECT " + ("id, " + Glue(fields, ", ")) + " FROM " + table
  {
    AbsentPartsAreEmpty();
    hide Glue, WherePart, OrderPart, LimitPart, OffsetPart;
    var select := SelectPart(fields, table);
    assert Render(fields, table, [], [], None, None) == select;
  }

  /** A Where call: its text and its arguments. */
  datatype Clause = Clause(text: string, args: seq<Value>)

  function Texts(clauses: seq<Clause>): seq<string> {
    seq(|clauses|, i requires 0 <= i < |clauses| => clauses[i].text)
  }

  function AllArgs(clauses: seq<Clause>): seq<Value> {
    if clauses == [] then [] else AllArgs(clauses[..|clauses| - 1]) + clauses[|clauses| - 1].args
  }

  /** Each clause with its own arguments in place of its own placeholders. */
  function Bound(clauses: seq<Clause>): seq<string> {
    seq(|clauses|, i requires 0 <= i < |clauses| => Bind(clauses[i].text, clauses[i].args))
  }

  predicate Balanced(clauses: seq<Clause>) {
    forall i :: 0 <= i < |clauses| ==> Marks(clauses[i].text) == |clauses[i].args|
  }

  function ScopeClause(domain: string): Clause {
    Clause("domain = ?", [Value(domain)])
  }

  /** The clauses with the one Build adds for the scope. */
  function Scoped(clauses: seq<Clause>, scope: Option<string>): seq<Clause> {
    if scope.Some? then clauses + [ScopeClause(scope.value)] else clauses
  }

  lemma AndThen(head: string, x: seq<Value>, text: string, y: seq<Value>)
    requires Marks(head) == |x| && Marks(text) == |y|
    ensures Marks(head + " AND " + text) == |x + y|
    ensures Bind(head + " AND " + text, x + y) == Bind(head, x) + " AND " + Bind(text, y)
  {
    hide Marks, Bind;
    LiteralsArePlain();
    NothingToBind(" AND ", []);
    MarksAppend(head, " AND ");
    MarksAppend(head + " AND ", text);
    assert x + [] == x;
    BindAppend(head, " AND ", x, []);
    BindAppend(head + " AND ", text, x, y);
  }

  lemma {:induction false} GluedClausesBind(clauses: seq<Clause>)
    requires Balanced(clauses) && clauses != []
    ensures Marks(Glue(Texts(clauses), " AND ")) == |AllArgs(clauses)|
    ensures Bind(Glue(Texts(clauses), " AND "), AllArgs(clauses)) == Glue(Bound(clauses), " AND ")
  {
    hide Marks, Bind;
    var front, last := clauses[..|clauses| - 1], clauses[|clauses| - 1];
    if front == [] {
      assert Texts(clauses) == [last.text] && Bound(clauses) == [Bind(last.text, last.args)];
      assert AllArgs(clauses) == [] + last.args == last.args;
    } else {
      assert Texts(clauses) == Texts(front) + [last.text];
      assert Bound(clauses) == Bound(front) + [Bind(last.text, last.args)];
      assert AllArgs(clauses) == AllArgs(front) + last.args;
      GluedClausesBind(front);
      GlueAppend(Texts(front), [last.text], " AND ");
      GlueAppend(Bound(front), [Bind(last.text, last.args)], " AND ");
      hide AllArgs, Texts, Bound;
      AndThen(Glue(Texts(front), " AND "), AllArgs(front), last.text, last.args);
    }
  }

  lemma WherePartBinds(clauses: seq<Clause>)
    requires Balanced(clauses)
    ensures Marks(WherePart(Texts(clauses))) == |AllArgs(clauses)|
    ensures Bind(WherePart(Texts(clauses)), AllArgs(clauses)) == WherePart(Bound(clauses))
  {
    if clauses != [] {
      GluedClausesBind(clauses);
      hide Marks, Bind, AllArgs, Balanced, Glue;
      WhereBinds(Glue(Texts(clauses), " AND "), AllArgs(clauses));
    }
  }

  lemma WhereBinds(text: string, args: seq<Value>)
    requires Marks(text) == |args|
    ensures Marks(" WHERE " + text) == |args| && Bind(" WHERE " + text, args) == " WHERE " + Bind(text, args)
  {
    hide Marks, Bind;
    LiteralsArePlain();
    NothingToBind(" WHERE ", []);
    MarksAppend(" WHERE ", text);
    assert [] + args == args;
    BindAppend(" WHERE ", text, [], args);
  }

  /** Text without placeholders on either side changes neither the count nor the binding. */
  lemma PlainTextAround(before: string, text: string, after: string, args: seq<Value>)
    requires Marks(before) == 0 && Marks(after) == 0 && Marks(text) == |args|
    ensures Marks(before + text + after) == |args|
    ensures Bind(before + text + after, args) == before + Bind(text, args) + after
  {
    hide Marks, Bind;
    MarksAppend(before, text);
    MarksAppend(before + text, after);
    NothingToBind(before, []);
    NothingToBind(after, []);
    assert [] + args == args && args + [] == args;
    BindAppend(before, text, [], args);
    BindAppend(before + text, after, args, []);
  }

  /** In the emitted text placeholders and arguments agree in number, and
      binding the whole text binds every clause to its own arguments. */
  lemma PlaceholdersMatchArguments(fields: seq<string>, table: string, clauses: seq<Clause>, orderBy: seq<string>,
                                   limit: Option<int>, offset: Option<int>)
    requires Balanced(clauses) && NoMarks(fields) && Marks(table) == 0 && NoMarks(orderBy)
    ensures var query := Render(fields, table, Texts(clauses), orderBy, limit, offset);
            Marks(query) == |AllArgs(clauses)| &&
            Bind(query, AllArgs(clauses)) == Render(fields, table, Bound(clauses), orderBy, limit, offset)
  {
    var select, args := SelectPart(fields, table), AllArgs(clauses);
    WherePartBinds(clauses);
    SelectHasNoMarks(fields, table);
    TailHasNoMarks(orderBy, limit, offset);
    hide Marks, Bind, AllArgs, SelectPart, WherePart, OrderPart, LimitPart, OffsetPart, Balanced, NoMarks;
    var where, bound := WherePart(Texts(clauses)), WherePart(Bound(clauses));
    var order, lim, off := OrderPart(orderBy), LimitPart(limit), OffsetPart(offset);
    PlainTextAround(select, where, order, args);
    NothingToBind("", []);
    assert "" + (select + where + order) == select + where + order;
    assert "" + (select + where + order + lim) == select + where + order + lim;
    LiteralsArePlain();
    PlainTextAround("", select + where + order, lim, args);
    PlainTextAround("", select + where + order + lim, off, args);
    assert "" + (select + bound + order) == select + bound + order;
    assert "" + (select + bound + order + lim) == select + bound + order + lim;
  }

  lemma {:induction false} DecimalHasNoMarks(n: int)
    ensures Marks(Decimal(n)) == 0
  {
    DigitsHaveNoMarks(if n < 0 then -n else n);
    MarksAppend("-", Digits(if n < 0 then -n else n));
  }

  lemma {:induction false} DigitsHaveNoMarks(n: nat)
    ensures Marks(Digits(n)) == 0
  {
    if n >= 10 {
      DigitsHaveNoMarks(n / 10);
      DigitsHaveNoMarks(n % 10);
      MarksAppend(Digits(n / 10), Digits(n % 10));
    }
  }

  predicate NoMarks(parts: seq<string>) {
    forall i :: 0 <= i < |parts| ==> Marks(parts[i]) == 0
  }

  lemma {:induction false} GlueHasNoMarks(parts: seq<string>)
    requires NoMarks(parts)
    ensures Marks(Glue(parts, ", ")) == 0
  {
    hide Marks;
    LiteralsArePlain();
    if |parts| > 1 {
      GlueHasNoMarks(parts[1..]);
      MarksAppend(parts[0], ", ");
      MarksAppend(parts[0] + ", ", Glue(parts[1..], ", "));
    }
  }

  lemma TailHasNoMarks(orderBy: seq<string>, limit: Option<int>, offset: Option<int>)
    requires NoMarks(orderBy)
    ensures Marks(OrderPart(orderBy)) == Marks(LimitPart(limit)) == Marks(OffsetPart(offset)) == 0
  {
    hide Marks, Glue, Decimal;
    LiteralsArePlain();
    GlueHasNoMarks(orderBy);
    MarksAppend(" ORDER BY ", Glue(orderBy, ", "));
    if limit.Some? { DecimalHasNoMarks(limit.value); MarksAppend(" LIMIT ", Decimal(limit.value)); }
    if offset.Some? { DecimalHasNoMarks(offset.value); MarksAppend(" OFFSET ", Decimal(offset.value)); }
  }

  lemma SelectHasNoMarks(fields: seq<string>, table: string)
    requires NoMarks(fields) && Marks(table) == 0
    ensures Marks(SelectPart(fields, table)) == 0
  {
    hide Marks, Glue;
    LiteralsArePlain();
    GlueHasNoMarks(fields);
    MarksAppend("id, ", Glue(fields, ", "));
    assert Marks(Columns(fields)) == 0;
    hide Columns;
    MarksAppend("SELECT ", Columns(fields));
    MarksAppend("SELECT " + Columns(fields), " FROM ");
    MarksAppend("SELECT " + Columns(fields) + " FROM ", table);
  }

  lemma OneMoreClause(clauses: seq<Clause>, c: Clause)
    ensures Texts(clauses + [c]) == Texts(clauses) + [c.text] && AllArgs(clauses + [c]) == AllArgs(clauses) + c.args
  {
    assert (clauses + [c])[..|clauses|] == clauses;
  }

  lemma ScopeTextHasOneMark()
    ensures Marks("domain = ?") == 1
  {
    PlainText("domain = ");
    assert Marks("?") == 1;
    hide Marks;
    assert "domain = ?" == "domain = " + "?";
    MarksAppend("domain = ", "?");
  }

  /** The scope's own clause has one placeholder and one argument. */
  lemma ScopedIsBalanced(clauses: seq<Clause>, scope: Option<string>)
    requires Balanced(clauses)
    ensures Balanced(Scoped(clauses, scope))
  {
    hide Marks;
    ScopeTextHasOneMark();
  }

  // ----- What the emitted WHERE clause means -----

  function ScopeTest(domain: string): Test {
    Test("domain = ?", [Value(domain)])
  }

  /** The clauses are these conditions: elementary tests, each with its own
      arguments, joined by AND and OR outside parentheses. */
  ghost predicate Reads(clauses: seq<Clause>, conditions: seq<Condition>) {
    |clauses| == |conditions| &&
    forall i :: 0 <= i < |clauses| ==>
      Readable(conditions[i]) && clauses[i] == Clause(TextOf(conditions[i]), ArgsOf(conditions[i])) &&
      forall j, k :: 0 <= j < |conditions[i]| && 0 <= k < |conditions[i][j]| ==>
        Marks(conditions[i][j][k].text) == |conditions[i][j][k].args|
  }

  lemma ScopeTestReads(domain: string)
    ensures Readable([[ScopeTest(domain)]])
    ensures TextOf([[ScopeTest(domain)]]) == "domain = ?" && ArgsOf([[ScopeTest(domain)]]) == [Value(domain)]
  {
    var test := ScopeTest(domain);
    assert TestTexts([test]) == ["domain = ?"] && [test][1..] == [] && [[test]][1..] == [];
    assert TestArgs([test]) == [Value(domain)];
    ScopeTextIsElementary();
  }

  lemma ScopeTextIsElementary()
    ensures Elementary("domain = ?")
  {
    hide Read, Next;
    WordIsRead("domain");
    BlanksAreSkipped("domain", " = ?");
    ReadAppend(START, "domain", " = ?");
    assert "domain = ?" == "domain" + " = ?";
  }

  /** A word that is not OR ends at the first blank; blanks are skipped. */
  lemma {:induction false} BlanksAreSkipped(word: string, blanks: string)
    requires !IsOr(word) && forall c :: c in blanks ==> c in {' ', '=', '?'}
    ensures Read(START.(word := word), blanks) == if blanks == "" then START.(word := word) else START
    decreases |blanks|
  {
    if blanks == "" {
    } else {
      assert forall c :: c in blanks[1..] ==> c in blanks;
      BlanksAreSkipped("", blanks[1..]);
      assert blanks[0] in blanks && Next(START.(word := word), blanks[0]) == START;
    }
  }

  lemma {:induction false} WordIsRead(word: string)
    requires forall c :: c in word ==> InWord(c)
    ensures Read(START, word) == START.(word := word)
    decreases |word|
  {
    if word == "" {
    } else {
      var front, last := word[..|word| - 1], word[|word| - 1..];
      WordIsRead(front);
      assert word == front + last && last[1..] == "" && InWord(last[0]);
      ReadAppend(START, front, last);
      assert Read(START.(word := front), last) == Next(START.(word := front), last[0]);
    }
  }

  lemma ScopedReads(clauses: seq<Clause>, conditions: seq<Condition>, domain: string)
    requires Reads(clauses, conditions)
    ensures Reads(Scoped(clauses, Some(domain)), conditions + [[[ScopeTest(domain)]]])
  {
    ScopeTestReads(domain);
    ScopeTextHasOneMark();
    hide Marks, TextOf, ArgsOf, Readable;
  }

  lemma {:induction false} AllArgsFromFront(clauses: seq<Clause>)
    requires clauses != []
    ensures AllArgs(clauses) == clauses[0].args + AllArgs(clauses[1..])
  {
    var front, last := clauses[..|clauses| - 1], clauses[|clauses| - 1];
    assert clauses == front + [last];
    OneMoreClause(front, last);
    if |clauses| == 1 {
      assert clauses[1..] == [] && front == [];
    } else {
      AllArgsFromFront(front);
      OneMoreClause(front[1..], last);
      assert clauses[1..] == front[1..] + [last];
      hide AllArgs;
    }
  }

  /** The WHERE clause and its arguments are the text and the arguments of the chained conditions. */
  lemma {:induction false} WhereReadsAsChain(clauses: seq<Clause>, conditions: seq<Condition>)
    requires clauses != [] && Reads(clauses, conditions)
    ensures WherePart(Texts(clauses)) == " WHERE " + TextOf(Chain(conditions))
    ensures AllArgs(clauses) == ArgsOf(Chain(conditions)) && Readable(Chain(conditions))
  {
    ChainIsTheWhereClause(conditions);
    ChainKeepsArgs(clauses, conditions);
    hide Marks, TextOf, Glue, Chain, AllArgs, ArgsOf, Readable;
    assert Texts(clauses) == seq(|conditions|, i requires 0 <= i < |conditions| => TextOf(conditions[i]));
  }

  lemma {:induction false} ChainKeepsArgs(clauses: seq<Clause>, conditions: seq<Condition>)
    requires clauses != [] && Reads(clauses, conditions)
    ensures AllArgs(clauses) == ArgsOf(Chain(conditions)) && Readable(Chain(conditions))
  {
    AllArgsFromFront(clauses);
    hide TextOf, ArgsOf, Marks, Elementary;
    if |clauses| == 1 {
      assert AllArgs(clauses[1..]) == [];
    } else {
      hide AllArgs;
      ChainKeepsArgs(clauses[1..], conditions[1..]);
      BesideHasBothArgs(conditions[0], Chain(conditions[1..]));
      BesideIsReadable(conditions[0], Chain(conditions[1..]));
    }
  }

  lemma BesideIsReadable(x: Condition, y: Condition)
    requires Readable(x) && Readable(y)
    ensures Readable(Beside(x, y))
  {
    var c: Condition := Beside(x, y);
    hide Elementary;
    forall i, j | 0 <= i < |c| && 0 <= j < |c[i]| ensures Elementary(c[i][j].text) {
      if i < |x| - 1 {
        assert c[i] == x[i];
      } else if i == |x| - 1 {
        assert c[i] == x[i] + y[0];
      } else {
        assert c[i] == y[i - |x| + 1];
      }
    }
  }

  /** The query Build emits in domain `d`: its WHERE clause and arguments are
      those of the chained conditions with the domain test at the end, of as
      many disjuncts as the clause has ORs, and one more. When the conditions
      do not have the domain test themselves, only rows of the domain pass,
      whatever the outcome of the other tests, exactly when no condition's text
      has an OR outside parentheses and quotes. */
  lemma BuiltQueryIsConfinedIff(fields: seq<string>, table: string, clauses: seq<Clause>, conditions: seq<Condition>,
                                domain: string, orderBy: seq<string>, limit: Option<int>, offset: Option<int>)
    requires Reads(clauses, conditions)
    requires forall i, j :: 0 <= i < |conditions| && 0 <= j < |conditions[i]| ==> ScopeTest(domain) !in conditions[i][j]
    ensures var all, chain := Scoped(clauses, Some(domain)), Chain(conditions + [[[ScopeTest(domain)]]]);
            Render(fields, table, Texts(all), orderBy, limit, offset) ==
              SelectPart(fields, table) + (" WHERE " + TextOf(chain)) + OrderPart(orderBy) + LimitPart(limit) + OffsetPart(offset) &&
            AllArgs(all) == ArgsOf(chain) && |chain| == Ors(TextOf(chain)) + 1 &&
            ((forall v: Test -> bool :: Passes(chain, v) ==> v(ScopeTest(domain))) <==>
             (forall i :: 0 <= i < |clauses| ==> Ors(clauses[i].text) == 0))
  {
    hide Marks, AllArgs, Texts, SelectPart, WherePart, OrderPart, LimitPart, OffsetPart, Chain, TextOf, ArgsOf, Passes, Ors, Scoped;
    BuiltWhere(clauses, conditions, domain);
    OrsOfClauses(clauses, conditions);
    hide Readable;
    ScopedIffNoOr(conditions, ScopeTest(domain));
  }

  lemma BuiltWhere(clauses: seq<Clause>, conditions: seq<Condition>, domain: string)
    requires Reads(clauses, conditions)
    ensures forall i :: 0 <= i < |conditions| ==> WellFormed(conditions[i])
    ensures var all, chain := Scoped(clauses, Some(domain)), Chain(conditions + [[[ScopeTest(domain)]]]);
            WherePart(Texts(all)) == " WHERE " + TextOf(chain) && AllArgs(all) == ArgsOf(chain) && |chain| == Ors(TextOf(chain)) + 1
  {
    ScopedReads(clauses, conditions, domain);
    hide Marks, AllArgs, Texts, WherePart, Chain, TextOf, ArgsOf, Ors, Elementary;
    WhereReadsAsChain(Scoped(clauses, Some(domain)), conditions + [[[ScopeTest(domain)]]]);
    OrsAreDisjuncts(Chain(conditions + [[[ScopeTest(domain)]]]));
  }

  lemma OrsOfClauses(clauses: seq<Clause>, conditions: seq<Condition>)
    requires Reads(clauses, conditions)
    ensures forall i :: 0 <= i < |clauses| ==> WellFormed(conditions[i]) && (Ors(clauses[i].text) == 0 <==> !HasOr(conditions[i]))
  {
    forall i | 0 <= i < |clauses|
      ensures WellFormed(conditions[i]) && (Ors(clauses[i].text) == 0 <==> !HasOr(conditions[i]))
    {
      OrsAreDisjuncts(conditions[i]);
      hide Ors, TextOf, ArgsOf, Marks;
    }
  }

  // ----- The builder -----

  class Builder {
    var fields: seq<string>
    const tableName: string
    const scoped: bool
    var conditions: Slice<string>
    var args: Slice<Value>
    var orderBy: seq<string>
    var limit: Option<int>
    var offset: Option<int>
    ghost var clauses: seq<Clause>

    /** The two slices hold the texts and the arguments of the Where calls so far. */
    ghost predicate Valid()
      reads this, conditions.cells, args.cells
    {
      Fits(conditions) && Fits(args) && Items(conditions) == Texts(clauses) && Items(args) == AllArgs(clauses)
    }

    constructor (fields: seq<string>, tableName: string, scoped: bool)
      ensures Valid() && fresh(conditions.cells) && fresh(args.cells)
      ensures clauses == [] && orderBy == [] && limit == None && offset == None
      ensures this.fields == fields && this.tableName == tableName && this.scoped == scoped
    {
      this.fields, this.tableName, this.scoped := fields, tableName, scoped;
      var noConditions := new string[0];
      var noArgs := new Value[0];
      conditions, args := Slice(noConditions, 0), Slice(noArgs, 0);
      orderBy, limit, offset, clauses := [], None, None, [];
    }

    /** A copy of the header fields, as in `*q2 = *q`: it shares the arrays. */
    constructor ShallowCopy(q: Builder, fields: seq<string>)
      requires q.Valid()
      ensures Valid() && clauses == q.clauses && conditions == q.conditions && args == q.args
      ensures this.fields == fields && tableName == q.tableName && scoped == q.scoped
      ensures orderBy == q.orderBy && limit == q.limit && offset == q.offset
    {
      this.fields, tableName, scoped := fields, q.tableName, q.scoped;
      conditions, args, clauses := q.conditions, q.args, q.clauses;
      orderBy, limit, offset := q.orderBy, q.limit, q.offset;
    }

    method Where(condition: string, values: seq<Value>)
      requires Valid()
      modifies this`conditions, this`args, this`clauses, conditions.cells, args.cells
      ensures Valid() && clauses == old(clauses) + [Clause(condition, values)]
      ensures conditions.cells == old(conditions.cells) || fresh(conditions.cells)
      ensures args.cells == old(args.cells) || fresh(args.cells)
    {
      hide Texts, AllArgs;
      OneMoreClause(clauses, Clause(condition, values));
      conditions := Append(conditions, [condition]);
      args := Append(args, values);
      clauses := clauses + [Clause(condition, values)];
    }

    method Order(field: string, direction: Direction)
      modifies this`orderBy
      ensures orderBy == old(orderBy) + [field + " " + match direction case ASC => "ASC" case DESC => "DESC"]
    {
      orderBy := orderBy + [field + " " + match direction case ASC => "ASC" case DESC => "DESC"];
    }

    method Limit(n: int)
      modifies this`limit
      ensures limit == Some(n)
    {
      limit := Some(n);
    }

    method Offset(n: int)
      modifies this`offset
      ensures offset == Some(n)
    {
      offset := Some(n);
    }

    /** The query text and arguments for a context. Appending the scope may
        write into the builder's spare array cells, but the builder itself,
        and any copy on the same arrays, still describes the same query. The
        arguments are a slice that shares the builder's array unless there is
        no room in it for the scope. */
    method Build(ctx: Context) returns (query: string, values: Slice<Value>)
      requires Valid()
      modifies conditions.cells, args.cells
      ensures Valid() && Fits(values)
      ensures conditions.cells[..conditions.len] == old(conditions.cells[..conditions.len])
      ensures args.cells[..args.len] == old(args.cells[..args.len])
      ensures var all := Scoped(clauses, ScopeOf(ctx, scoped));
              query == Render(fields, tableName, Texts(all), orderBy, limit, offset) && Items(values) == AllArgs(all)
      ensures ScopeOf(ctx, scoped).None? ==> values == args && args.cells[..] == old(args.cells[..])
      ensures ScopeOf(ctx, scoped).Some? ==> values.len == args.len + 1
      ensures ScopeOf(ctx, scoped).Some? ==> if HasRoom(args, 1) then values.cells == args.cells else fresh(values.cells)
    {
      hide Texts, AllArgs, Glue, Decimal, Columns;
      var what := Columns(fields);
      query := "SELECT " + what + " FROM " + tableName;
      var conds := conditions;
      values := args;
      ghost var all := Scoped(clauses, ScopeOf(ctx, scoped));
      OneMoreClause(clauses, ScopeClause(ctx.domain));
      if ctx.filtering && !ctx.skipScope {
        if scoped {
          if ctx.domain != "" {
            conds := Append(conds, ["domain = ?"]);
            values := Append(values, [Value(ctx.domain)]);
          }
        }
      }
      var texts := conds.cells[..conds.len];
      assert texts == Texts(all) && Items(values) == AllArgs(all);
      query := Assemble(query, texts);
    }

    /** Adds the WHERE, ORDER BY, LIMIT and OFFSET clauses that are present. */
    method Assemble(select: string, texts: seq<string>) returns (query: string)
      ensures query == select + WherePart(texts) + OrderPart(orderBy) + LimitPart(limit) + OffsetPart(offset)
    {
      hide Glue, Decimal;
      query := select;
      if |texts| > 0 {
        query := query + (" WHERE " + Glue(texts, " AND "));
      }
      assert query == select + WherePart(texts);
      hide WherePart;
      ghost var q1 := query;
      if |orderBy| > 0 {
        query := query + (" ORDER BY " + Glue(orderBy, ", "));
      }
      assert query == q1 + OrderPart(orderBy);
      hide OrderPart;
      ghost var q2 := query;
      if limit.Some? {
        query := query + (" LIMIT " + Decimal(limit.value));
      }
      assert query == q2 + LimitPart(limit);
      hide LimitPart;
      ghost var q3 := query;
      if offset.Some? {
        query := query + (" OFFSET " + Decimal(offset.value));
      }
      assert query == q3 + OffsetPart(offset);
    }

    /** Builds SELECT COUNT(*) on a shallow copy, leaving this builder's query as it was. */
    method BuildCount(ctx: Context) returns (query: string, values: Slice<Value>)
      requires Valid()
      modifies conditions.cells, args.cells
      ensures Valid() && Fits(values)
      ensures var all := Scoped(clauses, ScopeOf(ctx, scoped));
              query == Render(["COUNT(*)"], tableName, Texts(all), orderBy, limit, offset) && Items(values) == AllArgs(all)
    {
      var q2 := new Builder.ShallowCopy(this, ["COUNT(*)"]);
      query, values := q2.Build(ctx);
    }
  }

  /** Two queries built one after the other from the same builder: the first
      one's arguments are still its own afterwards unless both queries have a
      domain, not the same one, and the builder's array had room for it. */
  method BuildTwice(q: Builder, first: Context, second: Context) returns (a: Slice<Value>, b: Slice<Value>)
    requires q.Valid()
    modifies q.conditions.cells, q.args.cells
    ensures Fits(a) && Fits(b) && Items(b) == AllArgs(Scoped(q.clauses, ScopeOf(second, q.scoped)))
    ensures var was, now := ScopeOf(first, q.scoped), ScopeOf(second, q.scoped);
            Items(a) == AllArgs(Scoped(q.clauses, was)) <==>
            !(was.Some? && now.Some? && was != now && HasRoom(q.args, 1))
  {
    hide AllArgs, Texts, Render;
    ghost var was, now := ScopeOf(first, q.scoped), ScopeOf(second, q.scoped);
    if was.Some? { OneMoreClause(q.clauses, ScopeClause(was.value)); }
    if now.Some? { OneMoreClause(q.clauses, ScopeClause(now.value)); }
    var text, values := q.Build(first);
    a := values;
    ghost var kept := Items(a);
    text, values := q.Build(second);
    b := values;
    if was.Some? && now.Some? && HasRoom(q.args, 1) {
      assert Items(a) == Items(b);
      assert Items(b)[q.args.len] == Value(now.value) && kept[q.args.len] == Value(was.value);
    } else {
      assert Items(a) == kept;
    }
  }
}
