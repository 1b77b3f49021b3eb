/** Splitting and joining strings on a one-character separator, with the
    behaviour of Go's `strings.Split` and `strings.Join`. */
module Text {
  datatype Option<+T> = None | Some(value: T)

  /** Parts with the separator between each two neighbours; no parts give "". */
  function Join(parts: seq<string>, sep: char): string {
    if |parts| == 0 then ""
    else if |parts| == 1 then parts[0]
    else parts[0] + [sep] + Join(parts[1..], sep)
  }

  /** The maximal runs without the separator; always at least one part. */
  function Split(s: string, sep: char): (parts: seq<string>)
    ensures |parts| >= 1
  {
    if s == "" then [""]
    else
      var rest := Split(s[1..], sep);
      if s[0] == sep then [""] + rest else [[s[0]] + rest[0]] + rest[1..]
  }

  predicate AllFree(parts: seq<string>, sep: char) {
    forall p :: p in parts ==> sep !in p
  }

  /** A separator-free piece in front comes back as the first part. */
  lemma {:induction false} SplitFront(a: string, rest: string, sep: char)
    requires sep !in a
    ensures Split(a + [sep] + rest, sep) == [a] + Split(rest, sep)
    ensures Split(a, sep) == [a]
  {
    var whole := a + [sep] + rest;
    if a == "" {
      assert whole[1..] == rest;
    } else {
      SplitFront(a[1..], rest, sep);
      assert whole[1..] == a[1..] + [sep] + rest;
      assert a == [a[0]] + a[1..];
    }
  }

  /** Splitting undoes joining when no part contains the separator. */
  lemma {:induction false} SplitOfJoin(parts: seq<string>, sep: char)
    requires parts != [] && AllFree(parts, sep)
    ensures Split(Join(parts, sep), sep) == parts
  {
    if |parts| == 1 {
      SplitFront(parts[0], "", sep);
    } else {
      SplitFront(parts[0], Join(parts[1..], sep), sep);
      SplitOfJoin(parts[1..], sep);
    }
  }

  /** Joining undoes splitting, for every string, and no part of a split contains the separator. */
  lemma {:induction false} JoinOfSplit(s: string, sep: char)
    ensures Join(Split(s, sep), sep) == s
    ensures AllFree(Split(s, sep), sep)
  {
    if s == "" {
    } else {
      JoinOfSplit(s[1..], sep);
      var rest := Split(s[1..], sep);
      var parts := Split(s, sep);
      if s[0] == sep {
        assert parts[1..] == rest;
      } else if |rest| > 1 {
        assert parts[1..] == rest[1..];
      }
    }
  }

  /** Splitting at a separator in the middle splits both sides. */
  lemma {:induction false} SplitOfConcat(a: string, b: string, sep: char)
    ensures Split(a + [sep] + b, sep) == Split(a, sep) + Split(b, sep)
  {
    var whole := a + [sep] + b;
    if a == "" {
      assert whole[1..] == b;
    } else {
      assert whole[1..] == a[1..] + [sep] + b;
      SplitOfConcat(a[1..], b, sep);
      SplitStep(whole, sep);
      SplitStep(a, sep);
      hide Split;
      StepBeside(a[0], Split(a[1..], sep), Split(b, sep), sep);
    }
  }

  /** One more character in front of the first of two lists of parts. */
  function OneMore(c: char, parts: seq<string>, sep: char): seq<string>
    requires |parts| >= 1
  {
    if c == sep then [""] + parts else [[c] + parts[0]] + parts[1..]
  }

  lemma StepBeside(c: char, front: seq<string>, back: seq<string>, sep: char)
    requires |front| >= 1
    ensures OneMore(c, front + back, sep) == OneMore(c, front, sep) + back
  {
    assert (front + back)[1..] == front[1..] + back;
  }

  lemma SplitStep(s: string, sep: char)
    requires s != ""
    ensures Split(s, sep) == OneMore(s[0], Split(s[1..], sep), sep)
  {
  }

  /** The parts of each string in turn. */
  function Pieces(parts: seq<string>, sep: char): seq<string> {
    if parts == [] then [] else Split(parts[0], sep) + Pieces(parts[1..], sep)
  }

  /** Splitting a joined list gives the pieces of its parts, whatever they contain. */
  lemma {:induction false} SplitOfJoinIsPieces(parts: seq<string>, sep: char)
    requires parts != []
    ensures Split(Join(parts, sep), sep) == Pieces(parts, sep)
  {
    if |parts| > 1 {
      SplitOfConcat(parts[0], Join(parts[1..], sep), sep);
      SplitOfJoinIsPieces(parts[1..], sep);
    } else {
      assert Pieces(parts[1..], sep) == [];
    }
  }
}
