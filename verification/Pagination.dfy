/** Page parameters and page lists, and why the pages make up the whole result. */
module Pagination {
  import opened Text
  import opened QueryBuilder
  import opened QueryMeaning

  const INT_MIN: int := -0x8000_0000_0000_0000
  const INT_MAX: int := 0x7fff_ffff_ffff_ffff

  /** What an int expression of 64 bits evaluates to. */
  function Wrap(n: int): (r: int)
    ensures INT_MIN <= r <= INT_MAX
    ensures INT_MIN <= n <= INT_MAX ==> r == n
  {
    (n - INT_MIN) % 0x1_0000_0000_0000_0000 + INT_MIN
  }

  predicate IsInt(n: int) {
    INT_MIN <= n <= INT_MAX
  }

  datatype Parameters = Parameters(page: int, size: int, offset: int, sortBy: string, direction: Direction)

  /** The query values of a request; a number is None if missing or not a number. */
  datatype Query = Query(page: Option<int>, itemsPerPage: Option<int>, sortBy: string, sortDirection: string)

  datatype Page<T> = Page(data: seq<T>, numbers: seq<int>, total: int, first: int, last: int)

  /** Valid parameters in, defaults for the rest: page and size are positive,
      and the offset counts the rows before the page unless it overflows. */
  method ParsePagination(q: Query) returns (p: Parameters)
    requires (q.page.Some? ==> IsInt(q.page.value)) && (q.itemsPerPage.Some? ==> IsInt(q.itemsPerPage.value))
    ensures p.page >= 1 && p.size >= 1 && IsInt(p.page) && IsInt(p.size)
    ensures p.page == (if q.page.Some? && q.page.value > 0 then q.page.value else 1)
    ensures p.size == (if q.itemsPerPage.Some? && q.itemsPerPage.value > 0 then q.itemsPerPage.value else 10)
    ensures p.offset == (p.page - 1) * p.size <==> (p.page - 1) * p.size <= INT_MAX
    ensures p.sortBy == (if q.sortBy == "" then "created_at" else q.sortBy)
    ensures p.direction == (if q.sortDirection == "asc" then ASC else DESC)
  {
    hide Wrap;
    p := Parameters(1, 10, 0, "created_at", DESC);
    if q.page.Some? && q.page.value > 0 {
      p := p.(page := q.page.value);
    }
    if q.itemsPerPage.Some? && q.itemsPerPage.value > 0 {
      p := p.(size := q.itemsPerPage.value);
    }
    p := p.(sortBy := q.sortBy);
    if p.sortBy == "" {
      p := p.(sortBy := "created_at");
    }
    if q.sortDirection == "asc" {
      p := p.(direction := ASC);
    }
    p := p.(offset := Wrap((p.page - 1) * p.size));
    MulNonNegative(p.page - 1, p.size);
  }

  /** How many pages of this size hold that many rows. */
  function PageCount(total: nat, size: int): (n: nat)
    requires size >= 1
  {
    (total + size - 1) / size
  }

  /** The int quotient, rounded toward zero. */
  function Quotient(a: int, b: int): int
    requires b != 0
  {
    var whole := (if a < 0 then -a else a) / (if b < 0 then -b else b);
    Wrap(if (a < 0) == (b < 0) then whole else -whole)
  }

  /** The length ToPage gives its slice of page numbers. */
  function Length(total: nat, size: int): int
    requires size != 0
  {
    Quotient(Wrap(Wrap(total + size) - 1), size)
  }

  datatype Answer<T> = Panicked | Listed(page: Page<T>)

  /** Lists the page numbers from one and places the data in the whole. A zero
      size and a negative length panic. */
  method ToPage<T>(data: seq<T>, total: nat, p: Parameters) returns (r: Answer<T>)
    requires IsInt(total) && IsInt(p.size) && IsInt(p.offset)
    ensures r.Panicked? <==> p.size == 0 || Length(total, p.size) < 0
    ensures r.Listed? ==> r.page.numbers == seq(Length(total, p.size), i requires 0 <= i => i + 1)
    ensures r.Listed? ==> r.page.data == data && r.page.total == total
    ensures r.Listed? ==> r.page.first == Wrap(p.offset + 1) && r.page.last == Wrap(p.offset + |data|)
  {
    hide Wrap, Quotient;
    if p.size == 0 { return Panicked; }
    var n := Quotient(Wrap(Wrap(total + p.size) - 1), p.size);
    if n < 0 { return Panicked; }
    var numbers := new int[n];
    for i := 0 to numbers.Length
      invariant forall j :: 0 <= j < i ==> numbers[j] == j + 1
    {
      numbers[i] := i + 1;
    }
    r := Listed(Page(data, numbers[..], total, Wrap(p.offset + 1), Wrap(p.offset + |data|)));
  }

  lemma WrapTwice(n: int)
    ensures Wrap(Wrap(n) - 1) == Wrap(n - 1)
  {
  }

  /** A sum of two ints that is too large comes out one whole turn lower. */
  lemma WrapsOnce(n: int)
    requires INT_MAX < n <= 2 * INT_MAX
    ensures Wrap(n) == n - 0x1_0000_0000_0000_0000
  {
  }

  /** ToPage lists the pages that hold the rows exactly when `total + size - 1`
      fits in an int. When it does not, ToPage panics if the sum falls short of
      a whole turn by a page or more, and lists no page at all otherwise. */
  lemma ListedPagesAreRightIff(total: nat, size: int)
    requires IsInt(total) && IsInt(size) && size >= 1
    ensures Length(total, size) == PageCount(total, size) <==> total + size - 1 <= INT_MAX
    ensures Length(total, size) < 0 <==> INT_MAX < total + size - 1 <= 0x1_0000_0000_0000_0000 - size
    ensures Length(total, size) == 0 <==> total == 0 || total + size - 1 > 0x1_0000_0000_0000_0000 - size
  {
    hide Wrap, Length;
    var sum := total + size - 1;
    WrapTwice(total + size);
    PageCountBounds(total, size);
    if sum <= INT_MAX {
      LengthIs(total, size, sum);
      QuotientBounds(sum, size);
    } else {
      WrapsOnce(sum);
      var short := 0x1_0000_0000_0000_0000 - sum;
      LengthIs(total, size, -short);
      QuotientBounds(short, size);
    }
  }

  lemma LengthIs(total: nat, size: int, wrapped: int)
    requires size >= 1 && Wrap(Wrap(total + size) - 1) == wrapped
    ensures Length(total, size) == if wrapped >= 0 then wrapped / size else -(-wrapped / size)
  {
    QuotientBounds(if wrapped < 0 then -wrapped else wrapped, size);
    assert INT_MIN <= wrapped <= INT_MAX;
  }

  lemma QuotientBounds(a: int, b: int)
    requires a >= 0 && b >= 1
    ensures 0 <= a / b <= a && (a / b == 0 <==> a < b)
  {
  }

  // ----- The pages partition the result -----

  /** The rows of page `k`: LIMIT size OFFSET (k - 1) * size. */
  function RowsOf<T>(rows: seq<T>, size: int, k: int): seq<T>
    requires size >= 1 && k >= 1
  {
    Window(rows, Some(size), Some((k - 1) * size))
  }

  function Upto<T>(rows: seq<T>, size: int, pages: nat): seq<T>
    requires size >= 1
  {
    if pages == 0 then [] else Upto(rows, size, pages - 1) + RowsOf(rows, size, pages)
  }

  /** Page counts round up: the last page starts before the end, and the pages reach it. */
  lemma PageCountBounds(total: nat, size: int)
    requires size >= 1
    ensures var n := PageCount(total, size);
            n * size >= total && (n > 0 ==> (n - 1) * size < total) && (n == 0 <==> total == 0)
  {
    var a := total + size - 1;
    var n := a / size;
    assert a == n * size + a % size && 0 <= a % size < size;
    assert (n - 1) * size == n * size - size;
    if n == 0 { assert n * size == 0; }
    assert n > 0 ==> n * size >= size;
  }

  lemma RowsOfIsSlice<T>(rows: seq<T>, size: int, k: int)
    requires size >= 1 && 1 <= k && (k - 1) * size <= |rows|
    ensures var from, to := (k - 1) * size, if k * size <= |rows| then k * size else |rows|;
            0 <= from <= to && RowsOf(rows, size, k) == rows[from..to]
  {
    var from := (k - 1) * size;
    assert 0 <= from by { MulNonNegative(k - 1, size); }
    assert k * size == from + size;
  }

  lemma MulNonNegative(a: int, b: int)
    requires a >= 0 && b >= 0
    ensures a * b >= 0
  {
  }

  lemma MulMonotone(a: int, b: int, c: int)
    requires a <= b && c >= 0
    ensures a * c <= b * c
  {
  }

  /** Every listed page starts inside the result, and all but the last end there. */
  lemma StartsInside(total: nat, size: int, k: int)
    requires size >= 1 && 1 <= k <= PageCount(total, size)
    ensures 0 <= (k - 1) * size < total && k * size == (k - 1) * size + size
    ensures k < PageCount(total, size) ==> k * size < total
  {
    var n := PageCount(total, size);
    PageCountBounds(total, size);
    hide PageCount;
    MulNonNegative(k - 1, size);
    MulMonotone(k - 1, n - 1, size);
    if k < n { MulMonotone(k, n - 1, size); }
  }

  lemma {:induction false} UptoIsPrefix<T>(rows: seq<T>, size: int, pages: nat)
    requires size >= 1 && pages <= PageCount(|rows|, size)
    ensures Upto(rows, size, pages) == rows[..if pages * size <= |rows| then pages * size else |rows|]
  {
    hide PageCount, RowsOf;
    if pages > 0 {
      StartsInside(|rows|, size, pages);
      UptoIsPrefix(rows, size, pages - 1);
      RowsOfIsSlice(rows, size, pages);
      var from := (pages - 1) * size;
      var to := if from + size <= |rows| then from + size else |rows|;
      assert rows[..from] + rows[from..to] == rows[..to];
    }
  }

  /** Fetched one after the other, the listed pages give every row once, in
      order; all but the last are full and none is empty. */
  lemma PagesAreTheWhole<T>(rows: seq<T>, size: int)
    requires size >= 1
    ensures Upto(rows, size, PageCount(|rows|, size)) == rows
    ensures forall k :: 1 <= k <= PageCount(|rows|, size) ==>
              RowsOf(rows, size, k) != [] && (k < PageCount(|rows|, size) ==> |RowsOf(rows, size, k)| == size)
  {
    var n := PageCount(|rows|, size);
    PageCountBounds(|rows|, size);
    UptoIsPrefix(rows, size, n);
    forall k | 1 <= k <= n
      ensures RowsOf(rows, size, k) != [] && (k < n ==> |RowsOf(rows, size, k)| == size)
    {
      StartsInside(|rows|, size, k);
      RowsOfIsSlice(rows, size, k);
    }
  }

  /** The item bounds of a page are the positions of its rows, counting from
      one; a page past the end is empty and its bounds cross. */
  lemma ItemBoundsAreRight<T>(rows: seq<T>, size: int, k: int)
    requires size >= 1 && k >= 1
    ensures var offset, data := (k - 1) * size, RowsOf(rows, size, k);
            var first, last := offset + 1, offset + |data|;
            (data != [] ==> 1 <= first <= last <= |rows| && rows[first - 1..last] == data) &&
            (data == [] <==> k > PageCount(|rows|, size)) && (data == [] ==> last < first)
  {
    var n := PageCount(|rows|, size);
    if k <= n {
      StartsInside(|rows|, size, k);
      RowsOfIsSlice(rows, size, k);
    } else {
      PageCountBounds(|rows|, size);
      MulMonotone(n, k - 1, size);
    }
  }

  /** When the offset does not fit in an int it is not the start of the page:
      this page number and size make it negative, which SQL reads as no offset. */
  lemma OverflowedOffset()
    ensures var page, size := 0x4000_0000_0000_0001, 2;
            IsInt(page) && Wrap((page - 1) * size) == INT_MIN && RowsOf([0, 1, 2], size, page) == [] &&
            Window([0, 1, 2], Some(size), Some(Wrap((page - 1) * size))) == [0, 1]
  {
  }
}
