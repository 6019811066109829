/**
 * The pagination query and the two response envelopes of the repository
 * (`PaginatedQuery`, `SortOrder`, `PaginatedData<T>`, `ListData<T>`).
 * All of them are values: `map` and `try_map` consume the envelope and build a new one.
 */
module Models {
  import opened Base
  import Iter

  /** Sort direction; the derived `Default` is `Desc`. */
  datatype SortOrder = Desc | Asc {
    static function Default(): (o: SortOrder)
      ensures o == Desc
    {
      Desc
    }
  }

  /** Query-string parameters of a paged request. */
  datatype PaginatedQuery = PaginatedQuery(
    page: u64,
    page_size: u64,
    sort_by: Option<string>,
    sort_order: SortOrder,
    search: Option<string>,
    filters: Option<map<string, string>>)
  {
    /** The value missing parameters fall back to. */
    static function Default(): (q: PaginatedQuery)
      ensures q.page == 1 && q.page_size == 10
      ensures q.sort_by == None && q.sort_order == Desc
      ensures q.search == None && q.filters == None
    {
      PaginatedQuery(1, 10, None, SortOrder.Desc, None, None)
    }

    /**
     * Number of records before this page. The `u64` subtraction `page - 1` underflows
     * for page 0 and the product may overflow, so both are excluded.
     */
    function Skip(): (r: u64)
      requires page >= 1
      requires (page - 1) * page_size <= U64_MAX
      ensures r == (page - 1) * page_size
    {
      (page - 1) * page_size
    }

    /** `page_size as i64`: the page size itself, unless it exceeds `i64::MAX` and wraps negative. */
    function Limit(): (r: i64)
      ensures page_size <= I64_MAX ==> r == page_size
      ensures page_size > I64_MAX ==> r < 0 && r == page_size - TWO_TO_64
    {
      AsI64(page_size)
    }
  }

  /** The default query asks for the first ten records, newest first. */
  lemma DefaultQueryIsFirstPage()
    ensures PaginatedQuery.Default().Skip() == 0
    ensures PaginatedQuery.Default().Limit() == 10
    ensures PaginatedQuery.Default().sort_order == SortOrder.Default()
  {
  }

  /**
   * Consecutive pages tile the result set: page 1 starts at record 0, and page p + 1
   * starts where page p's window of `page_size` records ends.
   */
  lemma PagesAreAdjacent(q: PaginatedQuery)
    requires 1 <= q.page < U64_MAX && q.page_size <= I64_MAX
    requires q.page * q.page_size <= U64_MAX
    ensures q.page == 1 ==> q.Skip() == 0
    ensures q.(page := q.page + 1).Skip() == q.Skip() + q.Limit()
  {
    assert q.page * q.page_size == (q.page - 1) * q.page_size + q.page_size;
  }

  /** One page of results with the counts of the whole result set. */
  datatype PaginatedData<T> = PaginatedData(
    items: seq<T>,
    total_count: u64,
    page: u64,
    page_size: u64,
    total_pages: u64)
  {
    /** Transforms every item; the four counts are carried over unchanged. */
    function Map<P>(f: T -> P): (r: PaginatedData<P>)
      ensures |r.items| == |items|
      ensures forall i :: 0 <= i < |items| ==> r.items[i] == f(items[i])
      ensures r.total_count == total_count && r.page == page
      ensures r.page_size == page_size && r.total_pages == total_pages
    {
      PaginatedData(Iter.Map(f, items), total_count, page, page_size, total_pages)
    }

    /**
     * Transforms every item with a fallible `f`: `Ok` with the counts unchanged when every
     * item converts, otherwise the error of the first item that does not.
     */
    function TryMap<P, E>(f: T -> Result<P, E>): (r: Result<PaginatedData<P>, E>)
      ensures r.Ok? <==> forall i :: 0 <= i < |items| ==> f(items[i]).Ok?
      ensures r.Ok? ==> |r.value.items| == |items|
      ensures r.Ok? ==> forall i :: 0 <= i < |items| ==> f(items[i]).Ok? && r.value.items[i] == f(items[i]).value
      ensures r.Ok? ==> r.value.total_count == total_count && r.value.page == page
      ensures r.Ok? ==> r.value.page_size == page_size && r.value.total_pages == total_pages
      ensures r.Err? ==> exists k :: Iter.FailsFirstAt(f, items, k) && r.error == f(items[k]).error
    {
      match Iter.TryMap(f, items)
      case Err(e) => Err(e)
      case Ok(converted) => Ok(PaginatedData(converted, total_count, page, page_size, total_pages))
    }
  }

  /** A whole (unpaged) result list and a count that may exceed the number of items. */
  datatype ListData<T> = ListData(items: seq<T>, total_count: u64)
  {
    /** A fresh list counts exactly its own items. */
    static function New(items: seq<T>): (r: ListData<T>)
      requires |items| <= U64_MAX
      ensures r.items == items && r.total_count == |items|
    {
      ListData(items, |items|)
    }

    /** Transforms every item; `total_count` is kept even when it differs from the item count. */
    function Map<P>(f: T -> P): (r: ListData<P>)
      ensures |r.items| == |items|
      ensures forall i :: 0 <= i < |items| ==> r.items[i] == f(items[i])
      ensures r.total_count == total_count
    {
      ListData(Iter.Map(f, items), total_count)
    }

    /** All-or-nothing fallible transformation, failing with the first item's error. */
    function TryMap<P, E>(f: T -> Result<P, E>): (r: Result<ListData<P>, E>)
      ensures r.Ok? <==> forall i :: 0 <= i < |items| ==> f(items[i]).Ok?
      ensures r.Ok? ==> |r.value.items| == |items| && r.value.total_count == total_count
      ensures r.Ok? ==> forall i :: 0 <= i < |items| ==> f(items[i]).Ok? && r.value.items[i] == f(items[i]).value
      ensures r.Err? ==> exists k :: Iter.FailsFirstAt(f, items, k) && r.error == f(items[k]).error
    {
      match Iter.TryMap(f, items)
      case Err(e) => Err(e)
      case Ok(converted) => Ok(ListData(converted, total_count))
    }
  }

  /** A list built by `New` still counts exactly its items after `map` or a successful `try_map`. */
  lemma FreshListCountSurvivesMapping<T, P, E>(items: seq<T>, f: T -> P, g: T -> Result<P, E>)
    requires |items| <= U64_MAX
    ensures ListData.New(items).Map(f).total_count == |ListData.New(items).Map(f).items|
    ensures ListData.New(items).TryMap(g).Ok? ==>
      ListData.New(items).TryMap(g).value.total_count == |ListData.New(items).TryMap(g).value.items|
  {
  }
}
