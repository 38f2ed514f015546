/** Pagination arithmetic in Go's machine integers: int64, and int of 32 or 64 bits. */
module Paging {
  import opened Common

  const MAX_PAGE := 10000

  /** Go's division truncates toward zero. */
  function Quot(a: int, b: int): int
    requires b > 0
  {
    if a >= 0 then a / b else -((-a) / b)
  }

  datatype Result<T, E> = Ok(value: T) | Error(error: E)

  /** ClampPage; the argument is a pointer that may be nil. */
  function ClampPage(p: Option<int>): (r: int)
    ensures 1 <= r <= MAX_PAGE
    ensures p.Some? && 1 <= p.value <= MAX_PAGE ==> r == p.value
    ensures p.Some? && p.value > MAX_PAGE ==> r == MAX_PAGE
    ensures p.None? || p.value < 1 ==> r == 1
  {
    if p.None? || p.value < 1 then 1 else if p.value > MAX_PAGE then MAX_PAGE else p.value
  }

  /** ClampPerPage. */
  function ClampPerPage(p: Option<int>, defaultVal: int, maxVal: int): (r: int)
    ensures r <= maxVal
    ensures 0 < defaultVal && 0 < maxVal ==> 0 < r
    ensures p.Some? && 0 < p.value <= maxVal ==> r == p.value
  {
    var d := if defaultVal > maxVal then maxVal else defaultVal;
    if p.None? || p.value <= 0 then d else if p.value > maxVal then maxVal else p.value
  }

  /**
    "Clamped to [defaultVal, maxVal]" says the documentation: the answer is below the effective default exactly when a
    positive value below it is asked for.
   */
  lemma BelowDefaultIff(p: Option<int>, defaultVal: int, maxVal: int)
    ensures ClampPerPage(p, defaultVal, maxVal) < Min(defaultVal, maxVal)
       <==> p.Some? && 0 < p.value < Min(defaultVal, maxVal)
  {
  }

  /** TotalPages. */
  function TotalPages(maxInt: int, total: int, perPage: int): (r: int)
    requires IsMaxInt(maxInt)
    ensures r <= maxInt
  {
    if total <= 0 || perPage <= 0 then 0
    else
      var n64 := Quot(Wrap(Wrap(total + perPage) - 1), perPage);
      if n64 > maxInt then maxInt else Narrow(maxInt, n64)
  }

  /** The offset that FetchPage passes to fetchFn. */
  function Offset(maxInt: int, page: int, perPage: int): int {
    var offset64 := Wrap((page - 1) * perPage);
    if offset64 < 0 || offset64 > maxInt then maxInt else offset64
  }

  function AtLeastOne(n: int): int {
    if n < 1 then 1 else n
  }

  datatype Paginated<T> = Paginated(data: seq<T>, total: int, page: int, perPage: int, totalPages: int)

  /** NewPaginated. */
  function NewPaginated<T>(maxInt: int, data: seq<T>, total: int, page: int, perPage: int): Paginated<T>
    requires IsMaxInt(maxInt)
  {
    Paginated(data, total, page, perPage, TotalPages(maxInt, total, perPage))
  }

  datatype FetchError<E> = NilCallback | Callback(e: E)

  /** FetchPage: fetch first, then count; the first error ends it. */
  function FetchPage<T, E>(maxInt: int, page: int, perPage: int,
                           fetch: Option<(int, int) -> Result<seq<T>, E>>, count: Option<() -> Result<int, E>>)
    : Result<Paginated<T>, FetchError<E>>
    requires IsMaxInt(maxInt)
  {
    if fetch.None? || count.None? then Error(NilCallback)
    else
      var pg, per := AtLeastOne(page), AtLeastOne(perPage);
      match fetch.value(per, Offset(maxInt, pg, per))
      case Error(e) => Error(Callback(e))
      case Ok(items) =>
        match count.value()
        case Error(e) => Error(Callback(e))
        case Ok(total) => Ok(NewPaginated(maxInt, items, total, pg, per))
  }

  // ---- FetchPage ----

  /**
    What FetchPage asks for and answers: a page and a size of at least one, and an offset; the first callback that fails
    ends it with its own error, the list's before the count's, and the answer repeats what was asked.
   */
  lemma FetchPageAsks<T, E>(maxInt: int, page: int, perPage: int,
                            fetch: (int, int) -> Result<seq<T>, E>, count: () -> Result<int, E>)
    requires IsMaxInt(maxInt)
    ensures var pg, per := if page < 1 then 1 else page, if perPage < 1 then 1 else perPage;
            var items := fetch(per, Offset(maxInt, pg, per));
            var r := FetchPage(maxInt, page, perPage, Some(fetch), Some(count));
            && (r.Error? <==> items.Error? || count().Error?)
            && (items.Error? ==> r == Error(Callback(items.error)))
            && (items.Ok? && count().Error? ==> r == Error(Callback(count().error)))
            && (r.Ok? ==>
                  && r.value.data == items.value && r.value.total == count().value
                  && r.value.page == pg && r.value.perPage == per
                  && r.value.totalPages == TotalPages(maxInt, count().value, per))
  {
  }

  /** Without a callback there is an error, and no other call. */
  lemma NilCallbackIff<T, E>(maxInt: int, page: int, perPage: int,
                             fetch: Option<(int, int) -> Result<seq<T>, E>>, count: Option<() -> Result<int, E>>)
    requires IsMaxInt(maxInt)
    ensures FetchPage(maxInt, page, perPage, fetch, count) == Error(NilCallback) <==> fetch.None? || count.None?
  {
  }

  /** What ClampPerPage answers when nothing usable is asked for, and when too much is. */
  lemma DefaultPerPage(p: Option<int>, defaultVal: int, maxVal: int)
    ensures p.None? || p.value <= 0 ==> ClampPerPage(p, defaultVal, maxVal) == Min(defaultVal, maxVal)
    ensures p.Some? && 0 < p.value ==> ClampPerPage(p, defaultVal, maxVal) == Min(p.value, maxVal)
  {
  }

  // ---- TotalPages ----

  /** The least number of pages that hold `total` items. */
  predicate IsPageCount(total: int, perPage: int, n: int) {
    (n - 1) * perPage < total <= n * perPage
  }

  lemma DivisionRoundsUp(total: int, perPage: int)
    requires total > 0 && perPage > 0
    ensures IsPageCount(total, perPage, (total + perPage - 1) / perPage)
    ensures 1 <= (total + perPage - 1) / perPage <= total
  {
    var s := total + perPage - 1;
    var n := s / perPage;
    assert s == n * perPage + s % perPage;
    assert (n - 1) * perPage == n * perPage - perPage;
    if n > total {
      MulMono(total + 1, n, perPage);
      MulMono(1, perPage, total);
    }
    if n < 1 {
      MulMono(n, 0, perPage);
    }
  }

  lemma MulMono(a: int, b: int, c: int)
    requires a <= b && c >= 0
    ensures a * c <= b * c
  {
  }

  lemma PageCountUnique(total: int, perPage: int, n: int, m: int)
    requires perPage > 0 && IsPageCount(total, perPage, n) && IsPageCount(total, perPage, m)
    ensures n == m
  {
    if n < m {
      MulMono(n, m - 1, perPage);
    } else if m < n {
      MulMono(m, n - 1, perPage);
    }
  }

  /**
    TotalPages is the page count exactly when `total + perPage - 1` is an int64 and the count is an int; when the sum
    wraps where int has 64 bits, the answer is not even positive.
   */
  lemma TotalPagesIff(maxInt: int, total: int, perPage: int)
    requires IsMaxInt(maxInt) && 0 < total <= MAX_INT64 && 0 < perPage <= maxInt
    ensures IsPageCount(total, perPage, TotalPages(maxInt, total, perPage))
       <==> total + perPage - 1 <= MAX_INT64 && (total + perPage - 1) / perPage <= maxInt
    ensures total + perPage - 1 > MAX_INT64 && maxInt == MAX_INT64 ==> TotalPages(maxInt, total, perPage) <= 0
  {
    var n, t := (total + perPage - 1) / perPage, TotalPages(maxInt, total, perPage);
    DivisionRoundsUp(total, perPage);
    if total + perPage - 1 <= MAX_INT64 {
      NoWrapTotal(maxInt, total, perPage);
    } else {
      WrappedTotal(maxInt, total, perPage);
    }
    if n > maxInt && IsPageCount(total, perPage, t) {
      PageCountUnique(total, perPage, n, t);
    }
    if t <= 0 {
      MulMono(t, 0, perPage);
    }
  }

  /** An empty list, or no size to speak of, has no pages; any other list has some, unless the sum wraps. */
  lemma NoPagesIff(maxInt: int, total: int, perPage: int)
    requires IsMaxInt(maxInt) && total + perPage - 1 <= MAX_INT64
    ensures TotalPages(maxInt, total, perPage) == 0 <==> total <= 0 || perPage <= 0
  {
    if total > 0 && perPage > 0 {
      NoWrapTotal(maxInt, total, perPage);
      DivisionRoundsUp(total, perPage);
    }
  }

  lemma NoWrapTotal(maxInt: int, total: int, perPage: int)
    requires IsMaxInt(maxInt) && 0 < total && 0 < perPage && total + perPage - 1 <= MAX_INT64
    ensures var n := (total + perPage - 1) / perPage;
            TotalPages(maxInt, total, perPage) == if n > maxInt then maxInt else n
  {
    WrappedSum(total, perPage);
  }

  /** After a wrap the count was out of an int's range, or else the answer is not positive. */
  lemma WrappedTotal(maxInt: int, total: int, perPage: int)
    requires IsMaxInt(maxInt) && total <= MAX_INT64 && 0 < perPage <= maxInt && total + perPage - 1 > MAX_INT64
    ensures if maxInt == MAX_INT64 then TotalPages(maxInt, total, perPage) <= 0
            else (total + perPage - 1) / perPage > maxInt
  {
    WrappedSum(total, perPage);
    if maxInt == MAX_INT64 {
      QuotNegative(total + perPage - 1 - TWO64, perPage);
    } else {
      DivisionRoundsUp(total, perPage);
      var n := (total + perPage - 1) / perPage;
      if n <= maxInt {
        MulMono(n, maxInt, perPage);
        MulMono(perPage, maxInt, maxInt);
      }
    }
  }

  lemma QuotNegative(a: int, b: int)
    requires -MAX_INT64 - 1 <= a < 0 < b
    ensures -MAX_INT64 - 1 <= Quot(a, b) <= 0
  {
  }

  lemma WrappedSum(total: int, perPage: int)
    requires 0 < total <= MAX_INT64 && 0 < perPage <= MAX_INT64
    ensures var w, s := Wrap(Wrap(total + perPage) - 1), total + perPage - 1;
            w == if s <= MAX_INT64 then s else s - TWO64
  {
  }

  // ---- offsets ----

  /** The offset saturates as meant: the product when it is an int, the largest int otherwise. */
  predicate OffsetIsMeant(maxInt: int, page: int, perPage: int) {
    var product := (page - 1) * perPage;
    Offset(maxInt, page, perPage) == if product <= maxInt then product else maxInt
  }

  /**
    The check for a negative product does not catch every wrap: the offset is as meant exactly when the product's high
    part, above bit 62, is zero or odd, or what is left of it still exceeds the largest int.
   */
  lemma OffsetIsMeantIff(maxInt: int, page: int, perPage: int)
    requires IsMaxInt(maxInt) && 1 <= page <= maxInt && 1 <= perPage <= maxInt
    ensures OffsetIsMeant(maxInt, page, perPage)
       <==> var product := (page - 1) * perPage;
            var high, low := product / (MAX_INT64 + 1), product % (MAX_INT64 + 1);
            high == 0 || high % 2 == 1 || low >= maxInt
  {
    var product := (page - 1) * perPage;
    MulMono(0, page - 1, perPage);
    WrapParts(product);
  }

  lemma WrapParts(n: int)
    requires n >= 0
    ensures var high, low := n / (MAX_INT64 + 1), n % (MAX_INT64 + 1);
            Wrap(n) == if high % 2 == 0 then low else low - MAX_INT64 - 1
  {
  }

  /** A page and size, both valid ints, for which the requested window is the first page instead of one past the end. */
  lemma OffsetCanWrapToZero()
    ensures Offset(MAX_INT64, 0x1_0000_0001, 0x1_0000_0000) == 0
  {
    assert (0x1_0000_0001 - 1) * 0x1_0000_0000 == TWO64;
    assert Wrap(TWO64) == 0;
  }

  /** For every page that ClampPage gives, the offset is exact, just when perPage is at most MaxInt / 9999. */
  lemma ClampedPagesExactIff(maxInt: int, perPage: int)
    requires IsMaxInt(maxInt) && 1 <= perPage <= maxInt
    ensures (forall p: Option<int> :: Offset(maxInt, ClampPage(p), perPage) == (ClampPage(p) - 1) * perPage)
       <==> perPage <= maxInt / (MAX_PAGE - 1)
  {
    if perPage <= maxInt / (MAX_PAGE - 1) {
      forall p: Option<int>
        ensures Offset(maxInt, ClampPage(p), perPage) == (ClampPage(p) - 1) * perPage
      {
        MulMono(ClampPage(p) - 1, MAX_PAGE - 1, perPage);
        MulMono(0, ClampPage(p) - 1, perPage);
      }
    } else {
      assert ClampPage(Some(MAX_PAGE)) == MAX_PAGE;
      assert (MAX_PAGE - 1) * perPage > maxInt;
      assert Offset(maxInt, MAX_PAGE, perPage) <= maxInt;
    }
  }

  // ---- the windows of all pages ----

  /** The page an item belongs to. */
  function HomePage(perPage: int, i: int): int
    requires perPage > 0
  {
    i / perPage + 1
  }

  /** FetchPage asks for the items from its offset, at most perPage of them. */
  predicate InWindow(maxInt: int, perPage: int, page: int, i: int) {
    Offset(maxInt, page, perPage) <= i < Offset(maxInt, page, perPage) + perPage
  }

  /** Page `page` asks for exactly the items that belong to it, and there is one. */
  ghost predicate WindowIsPage(maxInt: int, total: int, perPage: int, page: int)
    requires perPage > 0
  {
    && 0 <= Offset(maxInt, page, perPage) < total
    && forall i :: 0 <= i < total ==> (InWindow(maxInt, perPage, page, i) <==> HomePage(perPage, i) == page)
  }

  /** Every item is asked for by exactly one of the pages 1..TotalPages, and each of these asks for some item. */
  ghost predicate PagesPartition(maxInt: int, total: int, perPage: int)
    requires IsMaxInt(maxInt) && perPage > 0
  {
    var pages := TotalPages(maxInt, total, perPage);
    && (forall i :: 0 <= i < total ==> 1 <= HomePage(perPage, i) <= pages)
    && (forall page :: 1 <= page <= pages ==> WindowIsPage(maxInt, total, perPage, page))
  }

  /** The sum in TotalPages does not wrap, and the last page's number and offset are ints. */
  predicate PagesFit(maxInt: int, total: int, perPage: int)
    requires perPage > 0
  {
    var n := (total + perPage - 1) / perPage;
    total + perPage - 1 <= MAX_INT64 && n <= maxInt && (n - 1) * perPage <= maxInt
  }

  lemma HomeBounds(perPage: int, i: int)
    requires perPage > 0 && i >= 0
    ensures (HomePage(perPage, i) - 1) * perPage <= i < (HomePage(perPage, i) - 1) * perPage + perPage
    ensures HomePage(perPage, i) >= 1
  {
    assert i == (i / perPage) * perPage + i % perPage;
  }

  lemma HomeUnique(perPage: int, page: int, i: int)
    requires perPage > 0 && i >= 0 && (page - 1) * perPage <= i < (page - 1) * perPage + perPage
    ensures HomePage(perPage, i) == page
  {
    HomeBounds(perPage, i);
    var home := HomePage(perPage, i);
    assert home * perPage == (home - 1) * perPage + perPage && page * perPage == (page - 1) * perPage + perPage;
    if home < page {
      MulMono(home, page - 1, perPage);
    } else if page < home {
      MulMono(page, home - 1, perPage);
    }
  }

  lemma OffsetExact(maxInt: int, page: int, perPage: int)
    requires IsMaxInt(maxInt) && page >= 1 && perPage > 0 && (page - 1) * perPage <= maxInt
    ensures Offset(maxInt, page, perPage) == (page - 1) * perPage
  {
    MulMono(0, page - 1, perPage);
  }

  lemma FittingWindow(maxInt: int, total: int, perPage: int, page: int)
    requires IsMaxInt(maxInt) && 0 < total && 0 < perPage && PagesFit(maxInt, total, perPage)
    requires 1 <= page <= (total + perPage - 1) / perPage
    ensures WindowIsPage(maxInt, total, perPage, page)
  {
    var n := (total + perPage - 1) / perPage;
    DivisionRoundsUp(total, perPage);
    MulMono(page - 1, n - 1, perPage);
    OffsetExact(maxInt, page, perPage);
    forall i | 0 <= i < total
      ensures InWindow(maxInt, perPage, page, i) <==> HomePage(perPage, i) == page
    {
      HomeBounds(perPage, i);
      if InWindow(maxInt, perPage, page, i) {
        HomeUnique(perPage, page, i);
      }
    }
  }

  lemma FitPartitions(maxInt: int, total: int, perPage: int)
    requires IsMaxInt(maxInt) && 0 < total <= MAX_INT64 && 0 < perPage <= maxInt && PagesFit(maxInt, total, perPage)
    ensures PagesPartition(maxInt, total, perPage)
  {
    var n := (total + perPage - 1) / perPage;
    NoWrapTotal(maxInt, total, perPage);
    DivisionRoundsUp(total, perPage);
    forall i | 0 <= i < total
      ensures 1 <= HomePage(perPage, i) <= n
    {
      HomeBounds(perPage, i);
      if HomePage(perPage, i) > n {
        MulMono(n, HomePage(perPage, i) - 1, perPage);
      }
    }
    forall page | 1 <= page <= n
      ensures WindowIsPage(maxInt, total, perPage, page)
    {
      FittingWindow(maxInt, total, perPage, page);
    }
  }

  lemma LastHome(total: int, perPage: int)
    requires 0 < total && 0 < perPage
    ensures HomePage(perPage, total - 1) == (total + perPage - 1) / perPage
  {
    var n := (total + perPage - 1) / perPage;
    DivisionRoundsUp(total, perPage);
    assert n * perPage == (n - 1) * perPage + perPage;
    HomeUnique(perPage, n, total - 1);
  }

  lemma PartitionFits(maxInt: int, total: int, perPage: int)
    requires IsMaxInt(maxInt) && 0 < total <= MAX_INT64 && 0 < perPage <= maxInt
    requires PagesPartition(maxInt, total, perPage)
    ensures PagesFit(maxInt, total, perPage)
  {
    var n := (total + perPage - 1) / perPage;
    LastHome(total, perPage);
    DivisionRoundsUp(total, perPage);
    assert HomePage(perPage, 0) == 1;
    if total + perPage - 1 > MAX_INT64 {
      WrappedTotal(maxInt, total, perPage);
      assert false;
    }
    NoWrapTotal(maxInt, total, perPage);
    if (n - 1) * perPage > maxInt {
      SaturatedWindow(maxInt, total, perPage, n);
    }
  }

  /** A page whose offset saturates asks again for an item of an earlier page. */
  lemma SaturatedWindow(maxInt: int, total: int, perPage: int, page: int)
    requires IsMaxInt(maxInt) && 0 < total <= MAX_INT64 && 0 < perPage <= maxInt
    requires 1 <= page && maxInt < (page - 1) * perPage < total
    ensures !WindowIsPage(maxInt, total, perPage, page)
  {
    assert Offset(maxInt, page, perPage) == maxInt;
    HomeBounds(perPage, maxInt);
    assert InWindow(maxInt, perPage, page, maxInt);
    if HomePage(perPage, maxInt) == page {
      assert false;
    }
  }

  /** The pages cover every item exactly once, none of them empty, exactly when the sizes fit the machine's integers. */
  lemma PartitionIffFit(maxInt: int, total: int, perPage: int)
    requires IsMaxInt(maxInt) && 0 < total <= MAX_INT64 && 0 < perPage <= maxInt
    ensures PagesPartition(maxInt, total, perPage) <==> PagesFit(maxInt, total, perPage)
    ensures maxInt == MAX_INT64 ==> (PagesFit(maxInt, total, perPage) <==> total + perPage - 1 <= MAX_INT64)
  {
    DivisionRoundsUp(total, perPage);
    if PagesFit(maxInt, total, perPage) {
      FitPartitions(maxInt, total, perPage);
    }
    if PagesPartition(maxInt, total, perPage) {
      PartitionFits(maxInt, total, perPage);
    }
  }

  /**
    A page after the last starts at or past the end exactly when the total is an int, and the page's product, above bit
    62, is zero or odd, or what is left of it is past the end too.
   */
  lemma LaterPagesStartPastIff(maxInt: int, total: int, perPage: int, page: int)
    requires IsMaxInt(maxInt) && 0 < total <= MAX_INT64 && 0 < perPage <= maxInt && PagesFit(maxInt, total, perPage)
    requires TotalPages(maxInt, total, perPage) < page <= maxInt
    ensures Offset(maxInt, page, perPage) >= total
       <==> var product := (page - 1) * perPage;
            var high, low := product / (MAX_INT64 + 1), product % (MAX_INT64 + 1);
            total <= maxInt && (high == 0 || high % 2 == 1 || low >= total)
  {
    var product := (page - 1) * perPage;
    NoWrapTotal(maxInt, total, perPage);
    DivisionRoundsUp(total, perPage);
    MulMono((total + perPage - 1) / perPage, page - 1, perPage);
    WrapParts(product);
  }

  /** A page far past the last that is answered with the first items again. */
  lemma LaterPageCanStartOver()
    ensures PagesFit(MAX_INT64, 10, 0x1_0000_0000) && TotalPages(MAX_INT64, 10, 0x1_0000_0000) < 0x1_0000_0001
    ensures Offset(MAX_INT64, 0x1_0000_0001, 0x1_0000_0000) == 0
  {
    OffsetCanWrapToZero();
    NoWrapTotal(MAX_INT64, 10, 0x1_0000_0000);
  }

  // ---- reading all pages gives the whole list ----

  /** A data source: at most `limit` items from `offset` on. */
  function Slice<T>(items: seq<T>, limit: int, offset: int): seq<T> {
    if limit <= 0 || offset < 0 || offset >= |items| then []
    else if offset + limit > |items| then items[offset..]
    else items[offset..offset + limit]
  }

  function PageOf<T>(maxInt: int, items: seq<T>, page: int, perPage: int): Result<Paginated<T>, FetchError<()>>
    requires IsMaxInt(maxInt)
  {
    FetchPage(maxInt, page, perPage, Some((limit, offset) => Ok(Slice(items, limit, offset))), Some(() => Ok(|items|)))
  }

  /** The data of pages 1..n, one after the other. */
  function PagesUpTo<T>(maxInt: int, items: seq<T>, perPage: int, n: nat): seq<T>
    requires IsMaxInt(maxInt)
  {
    if n == 0 then []
    else
      var r := PageOf(maxInt, items, n, perPage);
      PagesUpTo(maxInt, items, perPage, n - 1) + if r.Ok? then r.value.data else []
  }

  lemma PageData<T>(maxInt: int, items: seq<T>, page: int, perPage: int)
    requires IsMaxInt(maxInt) && page >= 1 && perPage >= 1 && (page - 1) * perPage <= maxInt
    ensures PageOf(maxInt, items, page, perPage).Ok?
    ensures PageOf(maxInt, items, page, perPage).value.data == Slice(items, perPage, (page - 1) * perPage)
  {
    OffsetExact(maxInt, page, perPage);
  }

  lemma SliceNext<T>(items: seq<T>, limit: int, offset: int)
    requires 0 <= offset < |items| && limit > 0
    ensures items[..offset] + Slice(items, limit, offset) == items[..Min(offset + limit, |items|)]
  {
  }

  /** Where page `n` starts, when it is one of the pages of a list. */
  lemma StartOfPage(maxInt: int, total: int, perPage: int, n: int)
    requires total > 0 && perPage > 0 && PagesFit(maxInt, total, perPage) && 1 <= n <= (total + perPage - 1) / perPage
    ensures 0 <= (n - 1) * perPage < total && (n - 1) * perPage <= maxInt
  {
    var last := (total + perPage - 1) / perPage;
    DivisionRoundsUp(total, perPage);
    MulMono(0, n - 1, perPage);
    MulMono(n - 1, last - 1, perPage);
  }

  lemma NextPage<T>(maxInt: int, items: seq<T>, perPage: int, n: int, offset: int)
    requires IsMaxInt(maxInt) && n >= 1 && perPage >= 1 && offset == (n - 1) * perPage <= maxInt
    requires 0 <= offset < |items| && PagesUpTo(maxInt, items, perPage, n - 1) == items[..offset]
    ensures PagesUpTo(maxInt, items, perPage, n) == items[..Min(offset + perPage, |items|)]
  {
    PageData(maxInt, items, n, perPage);
    SliceNext(items, perPage, offset);
  }

  lemma {:induction false} PagesSoFar<T>(maxInt: int, items: seq<T>, perPage: int, n: nat)
    requires IsMaxInt(maxInt) && 0 < |items| <= MAX_INT64 && 0 < perPage <= maxInt
    requires PagesFit(maxInt, |items|, perPage) && n <= (|items| + perPage - 1) / perPage
    ensures 0 <= Min(n * perPage, |items|)
    ensures PagesUpTo(maxInt, items, perPage, n) == items[..Min(n * perPage, |items|)]
  {
    hide Slice, PageOf;
    if n == 0 {
      assert n * perPage == 0;
    } else {
      PagesSoFar(maxInt, items, perPage, n - 1);
      StartOfPage(maxInt, |items|, perPage, n);
      var offset := (n - 1) * perPage;
      NextPage(maxInt, items, perPage, n, offset);
      assert n * perPage == offset + perPage;
    }
  }

  /**
    A client that reads pages 1..TotalPages, as the first answer reports it, gets the list, each item once, in order.
   */
  lemma AllPagesGiveAllItems<T>(maxInt: int, items: seq<T>, perPage: int)
    requires IsMaxInt(maxInt) && 0 < |items| <= MAX_INT64 && 0 < perPage <= maxInt && PagesFit(maxInt, |items|, perPage)
    ensures var first := PageOf(maxInt, items, 1, perPage);
            first.Ok? && first.value.totalPages >= 1
            && PagesUpTo(maxInt, items, perPage, first.value.totalPages) == items
  {
    var n := (|items| + perPage - 1) / perPage;
    NoWrapTotal(maxInt, |items|, perPage);
    DivisionRoundsUp(|items|, perPage);
    PagesSoFar(maxInt, items, perPage, n);
    assert items[..|items|] == items;
  }
}
