/** Paged access to an ordered result, and a client that walks all pages. A page is a slice of the result; a page
    size or a page number out of range is an error, and an empty result has one page, which is empty. Page numbers
    begin with 1. */
module Pagination {
  import opened Arithmetic
  import opened Options

  const MAX_PAGE_SIZE := 250

  /** BadRequest is a 400 of the handler; NotFound the 404 of the query library for an empty page other than 1. */
  datatype Refusal = PageNotPositive | PageOutOfRange | SizeOutOfRange | NotFound

  datatype Page<+T> = Page(count: nat, page: int, pageSize: int, results: seq<T>)

  function Offset(page: int, size: int): (n: int)
    ensures page >= 1 && size >= 0 ==> n >= 0
  {
    (page - 1) * size
  }

  /** LIMIT size OFFSET (page - 1) * size */
  function Slice<T>(all: seq<T>, page: int, size: int): seq<T>
    requires page >= 1 && size >= 1
  {
    var from := Min(Offset(page, size), |all|);
    all[from..Min(from + size, |all|)]
  }

  function Paginate<T>(all: seq<T>, page: int, size: int): Result<Page<T>, Refusal>
  {
    var count := |all|;
    if page < 1 then Err(PageNotPositive) else
    if Offset(page, size) + 1 > count > 0 then Err(PageOutOfRange) else
    if size > MAX_PAGE_SIZE || size < 1 then Err(SizeOutOfRange) else
    var results := Slice(all, page, size);
    if results == [] && page != 1 then Err(NotFound) else Ok(Page(count, page, size, results))
  }

  // ---- which pages there are ----

  /** count / size, rounded up. */
  function Pages(count: nat, size: int): int
    requires size >= 1
  {
    (count + size - 1) / size
  }

  lemma PagesBound(count: nat, size: int)
    requires size >= 1
    ensures var n := Pages(count, size); n >= 0 && Offset(n, size) < count <= Offset(n + 1, size)
  {
    var n := Pages(count, size);
    var r := (count + size - 1) % size;
    assert count + size - 1 == n * size + r;
    assert Offset(n + 1, size) == n * size;
    assert Offset(n, size) == n * size - size;
  }

  lemma OffsetOrder(a: int, b: int, size: int)
    requires size >= 1
    ensures a <= b <==> Offset(a, size) <= Offset(b, size)
  {
    var d := b - a;
    assert Offset(b, size) - Offset(a, size) == d * size;
    if d >= 0 {
      assert d * size >= 0;
    } else {
      assert (-d) * size >= 1;
    }
  }

  /** For a non-empty result the accepted pages are exactly 1 to the number of pages, whatever is asked. */
  lemma AcceptedPages<T>(all: seq<T>, page: int, size: int)
    requires all != []
    ensures Paginate(all, page, size).Ok? <==> 1 <= size <= 250 && 1 <= page <= Pages(|all|, size)
  {
    if size >= 1 {
      var n := Pages(|all|, size);
      PagesBound(|all|, size);
      OffsetOrder(page, n, size);
      OffsetOrder(n + 1, page, size);
    }
  }

  /** A page that is not accepted is refused for the first thing that is wrong with it. */
  lemma Refused<T>(all: seq<T>, page: int, size: int)
    requires all != [] && Paginate(all, page, size).Err?
    ensures Paginate(all, page, size).error ==
            if page < 1 then PageNotPositive
            else if (page - 1) * size + 1 > |all| then PageOutOfRange else SizeOutOfRange
  {
    if 1 <= size <= 250 && page >= 1 {
      AcceptedPages(all, page, size);
      PagesBound(|all|, size);
      OffsetOrder(Pages(|all|, size) + 1, page, size);
    }
  }

  /** An empty result has one page, which is empty. */
  lemma EmptyResult<T>(page: int, size: int)
    ensures Paginate<T>([], page, size) ==
            if page < 1 then Err(PageNotPositive)
            else if size < 1 || size > 250 then Err(SizeOutOfRange)
            else if page == 1 then Ok(Page(0, 1, size, [])) else Err(NotFound)
  {
  }

  // ---- the pages make the result ----

  function Concatenated<T>(all: seq<T>, size: int, n: nat): seq<T>
    requires size >= 1
  {
    if n == 0 then [] else Concatenated(all, size, n - 1) + Slice(all, n, size)
  }

  lemma {:induction false} FirstPages<T>(all: seq<T>, size: int, n: nat)
    requires size >= 1
    ensures Concatenated(all, size, n) == all[..Min(Offset(n + 1, size), |all|)]
  {
    if n > 0 {
      FirstPages(all, size, n - 1);
      OffsetStep(n, size);
      hide Offset;
    }
  }

  /** One after the other the pages are the whole result; all of them are full but perhaps the last. */
  lemma PagesPartition<T>(all: seq<T>, size: int)
    requires 1 <= size <= 250
    ensures Concatenated(all, size, Pages(|all|, size)) == all
    ensures forall k :: 1 <= k <= Pages(|all|, size) ==>
              Paginate(all, k, size) == Ok(Page(|all|, k, size, Slice(all, k, size))) &&
              1 <= |Slice(all, k, size)| <= size && (k < Pages(|all|, size) ==> |Slice(all, k, size)| == size)
  {
    var n := Pages(|all|, size);
    PagesBound(|all|, size);
    FirstPages(all, size, n);
    forall k | 1 <= k <= n
      ensures Paginate(all, k, size) == Ok(Page(|all|, k, size, Slice(all, k, size)))
      ensures 1 <= |Slice(all, k, size)| <= size && (k < n ==> |Slice(all, k, size)| == size)
    {
      OffsetOrder(k, n, size);
      if k < n {
        OffsetOrder(k + 1, n, size);
        OffsetStep(k, size);
      }
    }
  }

  lemma OffsetStep(page: int, size: int)
    ensures Offset(page + 1, size) == Offset(page, size) + size
  {
  }
}
