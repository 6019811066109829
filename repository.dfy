/**
 * The generic repository: the CRUD, query and pagination operations every record type
 * `D` gets, built on a collection handle. Every operation returns a `Run`: its result,
 * and the requests it made of the store, in order. Store errors are passed through as
 * they are; the only error made here is a failed identifier parse, and then no request
 * is made at all.
 */
module Repository {
  import opened Base
  import Iter
  import Models
  import Store

  /** `parse_object_id`: the identifier grammar belongs to the BSON library, so it is a parameter. */
  type IdParser = string -> Result<Store.ObjectId, Store.Error>

  /** The outcome of one repository operation and the store requests it issued. */
  datatype Run<D, R> = Run(result: Result<R, Store.Error>, calls: seq<Store.Call<D>>)

  /** The filter `{ "_id": oid }` of the by-id operations. */
  function IdFilter(oid: Store.ObjectId): (r: Store.Document)
    ensures |r| == 1 && r[0].0 == "_id" && r[0].1 == Store.ObjectIdValue(oid)
  {
    [("_id", Store.ObjectIdValue(oid))]
  }

  /** Two identifiers give the same filter only when they are the same identifier. */
  lemma IdFilterInjective(a: Store.ObjectId, b: Store.ObjectId)
    ensures IdFilter(a) == IdFilter(b) <==> a == b
  {
    if IdFilter(a) == IdFilter(b) {
      assert IdFilter(a)[0].1.oid == IdFilter(b)[0].1.oid;
    }
  }

  // ---------- create ----------

  /** Inserts one record; on success hands back the record it was given. */
  function Create<D>(coll: Store.Collection<D>, document: D): (r: Run<D, D>)
    ensures r.calls == [Store.InsertOne(document)]
    ensures r.result.Ok? <==> coll.insertOne(document).Ok?
    ensures r.result.Ok? ==> r.result.value == document
    ensures r.result.Err? ==> r.result.error == coll.insertOne(document).error
  {
    match coll.insertOne(document)
    case Err(e) => Run(Err(e), [Store.InsertOne(document)])
    case Ok(_) => Run(Ok(document), [Store.InsertOne(document)])
  }

  /** Inserts all records in one request; on success hands back the same sequence. */
  function CreateMany<D>(coll: Store.Collection<D>, documents: seq<D>): (r: Run<D, seq<D>>)
    ensures r.calls == [Store.InsertMany(documents)]
    ensures r.result.Ok? <==> coll.insertMany(documents).Ok?
    ensures r.result.Ok? ==> r.result.value == documents
    ensures r.result.Err? ==> r.result.error == coll.insertMany(documents).error
  {
    match coll.insertMany(documents)
    case Err(e) => Run(Err(e), [Store.InsertMany(documents)])
    case Ok(_) => Run(Ok(documents), [Store.InsertMany(documents)])
  }

  // ---------- queries ----------

  /** The record with the given identifier, if any; a malformed identifier fails before any request. */
  function FindById<D>(coll: Store.Collection<D>, parse: IdParser, id: string): (r: Run<D, Option<D>>)
    ensures parse(id).Err? ==> r.result == Err(parse(id).error) && r.calls == []
    ensures parse(id).Ok? ==> r.calls == [Store.FindOne(IdFilter(parse(id).value))]
    ensures parse(id).Ok? ==> r.result == coll.findOne(IdFilter(parse(id).value))
  {
    match parse(id)
    case Err(e) => Run(Err(e), [])
    case Ok(oid) => FindOne(coll, IdFilter(oid))
  }

  /** The first record matching `filter`, if any; absence is not an error. */
  function FindOne<D>(coll: Store.Collection<D>, filter: Store.Document): (r: Run<D, Option<D>>)
    ensures r.calls == [Store.FindOne(filter)]
    ensures r.result == coll.findOne(filter)
  {
    Run(coll.findOne(filter), [Store.FindOne(filter)])
  }

  /** What draining the cursor of `find(filter)` yields: the opening error, or the collected stream. */
  function FindManyResult<D>(coll: Store.Collection<D>, filter: Store.Document, options: Option<Store.FindOptions>): (r: Result<seq<D>, Store.Error>)
    ensures coll.find(filter, options).Err? ==> r == Err(coll.find(filter, options).error)
    ensures coll.find(filter, options).Ok? ==> var cursor := coll.find(filter, options).value;
      && (r.Ok? <==> Iter.AllOk(cursor))
      && (r.Ok? ==> |r.value| == |cursor| && forall i :: 0 <= i < |cursor| ==> r.value[i] == cursor[i].value)
      && (r.Err? ==> exists k :: Iter.FirstError(cursor, k) && r.error == cursor[k].error)
  {
    match coll.find(filter, options)
    case Err(e) => Err(e)
    case Ok(cursor) => Iter.Collect(cursor)
  }

  /**
   * Opens a cursor and drains it into a sequence, in cursor order; the first cursor error
   * ends the call with that error and no partial list.
   */
  method FindMany<D>(coll: Store.Collection<D>, filter: Store.Document, options: Option<Store.FindOptions>)
    returns (r: Run<D, seq<D>>)
    ensures r.calls == [Store.Find(filter, options)]
    ensures r.result == FindManyResult(coll, filter, options)
  {
    var calls := [Store.Find(filter, options)];
    var started := coll.find(filter, options);
    if started.Err? {
      return Run(Err(started.error), calls);
    }
    var cursor := started.value;
    var results: seq<D> := [];
    var i := 0;
    while i < |cursor|
      invariant 0 <= i <= |cursor|
      invariant |results| == i
      invariant forall j :: 0 <= j < i ==> cursor[j].Ok? && results[j] == cursor[j].value
    {
      match cursor[i]
      case Err(e) =>
        assert Iter.FirstError(cursor, i);
        assert !Iter.AllOk(cursor);
        ghost var collected := Iter.Collect(cursor);
        ghost var k :| Iter.FirstError(cursor, k) && collected.error == cursor[k].error;
        Iter.FirstErrorUnique(cursor, i, k);
        return Run(Err(e), calls);
      case Ok(doc) =>
        results := results + [doc];
        i := i + 1;
    }
    assert Iter.AllOk(cursor);
    assert Iter.Collect(cursor).value == results;
    return Run(Ok(results), calls);
  }

  /** Every record of the collection: `FindMany` with the empty filter and no options. */
  method FindAll<D>(coll: Store.Collection<D>) returns (r: Run<D, seq<D>>)
    ensures r.calls == [Store.Find([], None)]
    ensures r.result == FindManyResult(coll, [], None)
  {
    r := FindMany(coll, [], None);
  }

  /** The number of records matching `filter`, however many a page would hold. */
  function Count<D>(coll: Store.Collection<D>, filter: Store.Document): (r: Run<D, u64>)
    ensures r.calls == [Store.CountDocuments(filter)]
    ensures r.result == coll.countDocuments(filter)
  {
    Run(coll.countDocuments(filter), [Store.CountDocuments(filter)])
  }

  /** Whether some record matches: `find_one` found something. */
  function Exists<D>(coll: Store.Collection<D>, filter: Store.Document): (r: Run<D, bool>)
    ensures r.calls == [Store.FindOne(filter)]
    ensures r.result.Ok? <==> coll.findOne(filter).Ok?
    ensures r.result.Ok? ==> (r.result.value <==> coll.findOne(filter).value.Some?)
    ensures r.result.Err? ==> r.result.error == coll.findOne(filter).error
  {
    var found := FindOne(coll, filter);
    match found.result
    case Err(e) => Run(Err(e), found.calls)
    case Ok(record) => Run(Ok(record.Some?), found.calls)
  }

  /** `exists` answers true exactly when `find_one` returns a record. */
  lemma ExistsIffFindOneFinds<D>(coll: Store.Collection<D>, filter: Store.Document)
    ensures Exists(coll, filter).result == Ok(true) <==>
      FindOne(coll, filter).result.Ok? && FindOne(coll, filter).result.value.Some?
    ensures Exists(coll, filter).calls == FindOne(coll, filter).calls
  {
  }

  // ---------- pagination ----------

  /**
   * The sort document: the requested field ascending (1) or descending (-1), or, with
   * no field, descending by identifier whatever the requested order.
   */
  function SortDirective(query: Models.PaginatedQuery): (d: Store.Document)
    ensures |d| == 1
    ensures query.sort_by.Some? ==> d[0].0 == query.sort_by.value
    ensures query.sort_by.Some? ==> d[0].1 == Store.Int32(if query.sort_order == Models.SortOrder.Asc then 1 else -1)
    ensures query.sort_by.None? ==> d == [("_id", Store.Int32(-1))]
  {
    match query.sort_by
    case Some(field) =>
      var direction := match query.sort_order
        case Asc => 1
        case Desc => -1;
      [(field, Store.Int32(direction))]
    case None => [("_id", Store.Int32(-1))]
  }

  /** With a field the two orders sort the same field in opposite directions; without one the order is ignored. */
  lemma SortOrderMatters(query: Models.PaginatedQuery)
    ensures query.sort_by.Some? ==>
      SortDirective(query.(sort_order := Models.SortOrder.Asc))[0].1.i ==
      -SortDirective(query.(sort_order := Models.SortOrder.Desc))[0].1.i
    ensures query.sort_by.None? ==>
      SortDirective(query.(sort_order := Models.SortOrder.Asc)) ==
      SortDirective(query.(sort_order := Models.SortOrder.Desc))
  {
  }

  /** The options of the page fetch: the query's skip and limit and the sort directive. */
  function PageOptions(query: Models.PaginatedQuery): (o: Store.FindOptions)
    requires query.page >= 1
    requires (query.page - 1) * query.page_size <= U64_MAX
    ensures o.skip == Some(query.Skip()) && o.limit == Some(query.Limit())
    ensures o.sort == Some(SortDirective(query))
  {
    Store.FindOptions(Some(query.Skip()), Some(query.Limit()), Some(SortDirective(query)))
  }

  /**
   * `(total_count as f64 / page_size as f64).ceil() as u64`: the least number of pages
   * of `page_size` records that holds `total_count` records. For page size 0 the float
   * division gives NaN (0 / 0) or infinity, which the saturating cast turns into 0 or
   * `u64::MAX`.
   */
  function TotalPages(total_count: u64, page_size: u64): (r: u64)
    ensures page_size >= 1 ==> r * page_size >= total_count
    ensures page_size >= 1 && r >= 1 ==> (r - 1) * page_size < total_count
    ensures page_size == 0 ==> r == (if total_count == 0 then 0 else U64_MAX)
  {
    if page_size == 0 then
      (if total_count == 0 then 0 else U64_MAX)
    else
      CeilDivBounds(total_count, page_size);
      (total_count + page_size - 1) / page_size
  }

  lemma CeilDivBounds(n: nat, d: nat)
    requires d >= 1
    ensures (n + d - 1) / d <= n
    ensures ((n + d - 1) / d) * d >= n
    ensures (n + d - 1) / d >= 1 ==> ((n + d - 1) / d - 1) * d < n
  {
    var q, m := (n + d - 1) / d, (n + d - 1) % d;
    assert q * d + m == n + d - 1 && 0 <= m < d;
    assert (q - 1) * d == q * d - d;
    MulMonotone(1, d, n);
    assert (n + 1) * d == n * d + d;
    FactorBelow(q, n + 1, d);
  }

  lemma FactorBelow(a: int, b: int, d: nat)
    requires a * d < b * d
    ensures a < b
  {
  }

  lemma TotalPagesExamples()
    ensures TotalPages(0, 10) == 0
    ensures TotalPages(25, 10) == 3
    ensures TotalPages(20, 10) == 2
  {
  }

  /**
   * The non-empty pages are exactly pages 1 to `total_pages`: page p starts before the
   * end of the result set iff p is at most `total_pages`.
   */
  lemma NonEmptyPagesAreFirstTotalPages(query: Models.PaginatedQuery, total_count: u64)
    requires query.page >= 1 && query.page_size >= 1
    requires (query.page - 1) * query.page_size <= U64_MAX
    ensures query.Skip() < total_count <==> query.page <= TotalPages(total_count, query.page_size)
  {
    var p, n, t := query.page, query.page_size, TotalPages(total_count, query.page_size);
    if p <= t {
      MulMonotone(p - 1, t - 1, n);
    } else {
      MulMonotone(t, p - 1, n);
    }
  }

  lemma MulMonotone(a: nat, b: nat, n: nat)
    requires a <= b
    ensures a * n <= b * n
  {
  }

  /**
   * Counts the matches, then fetches one page of them with the query's skip, limit and
   * sort, and assembles the page with the count, the query's page and page size and
   * the page total. Either store error ends the call with that error.
   */
  method FindPaginated<D>(coll: Store.Collection<D>, filter: Store.Document, query: Models.PaginatedQuery)
    returns (r: Run<D, Models.PaginatedData<D>>)
    requires query.page >= 1
    requires (query.page - 1) * query.page_size <= U64_MAX
    ensures coll.countDocuments(filter).Err? ==>
      r == Run(Err(coll.countDocuments(filter).error), [Store.CountDocuments(filter)])
    ensures coll.countDocuments(filter).Ok? ==>
      r.calls == [Store.CountDocuments(filter), Store.Find(filter, Some(PageOptions(query)))]
    ensures coll.countDocuments(filter).Ok? && FindManyResult(coll, filter, Some(PageOptions(query))).Err? ==>
      r.result == Err(FindManyResult(coll, filter, Some(PageOptions(query))).error)
    ensures coll.countDocuments(filter).Ok? && FindManyResult(coll, filter, Some(PageOptions(query))).Ok? ==>
      r.result == Ok(Models.PaginatedData(
        FindManyResult(coll, filter, Some(PageOptions(query))).value,
        coll.countDocuments(filter).value,
        query.page,
        query.page_size,
        TotalPages(coll.countDocuments(filter).value, query.page_size)))
  {
    var counted := Count(coll, filter);
    if counted.result.Err? {
      return Run(Err(counted.result.error), counted.calls);
    }
    var total_count := counted.result.value;
    var options := PageOptions(query);
    var fetched := FindMany(coll, filter, Some(options));
    var calls := counted.calls + fetched.calls;
    if fetched.result.Err? {
      return Run(Err(fetched.result.error), calls);
    }
    var total_pages := TotalPages(total_count, query.page_size);
    return Run(Ok(Models.PaginatedData(fetched.result.value, total_count, query.page, query.page_size, total_pages)), calls);
  }

  // ---------- updates ----------

  /** Whether the update changed the record with the given identifier (matched but unchanged is false). */
  function UpdateById<D>(coll: Store.Collection<D>, parse: IdParser, id: string, update: Store.Document): (r: Run<D, bool>)
    ensures parse(id).Err? ==> r.result == Err(parse(id).error) && r.calls == []
    ensures parse(id).Ok? ==> r.calls == [Store.UpdateOne(IdFilter(parse(id).value), update)]
    ensures parse(id).Ok? ==> (r.result.Ok? <==> coll.updateOne(IdFilter(parse(id).value), update).Ok?)
    ensures parse(id).Ok? && r.result.Ok? ==>
      (r.result.value <==> coll.updateOne(IdFilter(parse(id).value), update).value.modified_count > 0)
    ensures parse(id).Ok? && r.result.Err? ==> r.result.error == coll.updateOne(IdFilter(parse(id).value), update).error
  {
    match parse(id)
    case Err(e) => Run(Err(e), [])
    case Ok(oid) => UpdateOne(coll, IdFilter(oid), update)
  }

  /** Whether the update changed a record matching `filter`. */
  function UpdateOne<D>(coll: Store.Collection<D>, filter: Store.Document, update: Store.Document): (r: Run<D, bool>)
    ensures r.calls == [Store.UpdateOne(filter, update)]
    ensures r.result.Ok? <==> coll.updateOne(filter, update).Ok?
    ensures r.result.Ok? ==> (r.result.value <==> coll.updateOne(filter, update).value.modified_count > 0)
    ensures r.result.Err? ==> r.result.error == coll.updateOne(filter, update).error
  {
    match coll.updateOne(filter, update)
    case Err(e) => Run(Err(e), [Store.UpdateOne(filter, update)])
    case Ok(res) => Run(Ok(res.modified_count > 0), [Store.UpdateOne(filter, update)])
  }

  /** How many records the update changed (not how many it matched). */
  function UpdateMany<D>(coll: Store.Collection<D>, filter: Store.Document, update: Store.Document): (r: Run<D, u64>)
    ensures r.calls == [Store.UpdateMany(filter, update)]
    ensures r.result.Ok? <==> coll.updateMany(filter, update).Ok?
    ensures r.result.Ok? ==> r.result.value == coll.updateMany(filter, update).value.modified_count
    ensures r.result.Err? ==> r.result.error == coll.updateMany(filter, update).error
  {
    match coll.updateMany(filter, update)
    case Err(e) => Run(Err(e), [Store.UpdateMany(filter, update)])
    case Ok(res) => Run(Ok(res.modified_count), [Store.UpdateMany(filter, update)])
  }

  /** The record the store's `find_one_and_update` returns, passed through. */
  function FindOneAndUpdate<D>(coll: Store.Collection<D>, filter: Store.Document, update: Store.Document): (r: Run<D, Option<D>>)
    ensures r.calls == [Store.FindOneAndUpdate(filter, update)]
    ensures r.result == coll.findOneAndUpdate(filter, update)
  {
    Run(coll.findOneAndUpdate(filter, update), [Store.FindOneAndUpdate(filter, update)])
  }

  // ---------- deletes ----------

  /** Whether a record with the given identifier was deleted. */
  function DeleteById<D>(coll: Store.Collection<D>, parse: IdParser, id: string): (r: Run<D, bool>)
    ensures parse(id).Err? ==> r.result == Err(parse(id).error) && r.calls == []
    ensures parse(id).Ok? ==> r.calls == [Store.DeleteOne(IdFilter(parse(id).value))]
    ensures parse(id).Ok? ==> (r.result.Ok? <==> coll.deleteOne(IdFilter(parse(id).value)).Ok?)
    ensures parse(id).Ok? && r.result.Ok? ==>
      (r.result.value <==> coll.deleteOne(IdFilter(parse(id).value)).value.deleted_count > 0)
    ensures parse(id).Ok? && r.result.Err? ==> r.result.error == coll.deleteOne(IdFilter(parse(id).value)).error
  {
    match parse(id)
    case Err(e) => Run(Err(e), [])
    case Ok(oid) => DeleteOne(coll, IdFilter(oid))
  }

  /** Whether a record matching `filter` was deleted. */
  function DeleteOne<D>(coll: Store.Collection<D>, filter: Store.Document): (r: Run<D, bool>)
    ensures r.calls == [Store.DeleteOne(filter)]
    ensures r.result.Ok? <==> coll.deleteOne(filter).Ok?
    ensures r.result.Ok? ==> (r.result.value <==> coll.deleteOne(filter).value.deleted_count > 0)
    ensures r.result.Err? ==> r.result.error == coll.deleteOne(filter).error
  {
    match coll.deleteOne(filter)
    case Err(e) => Run(Err(e), [Store.DeleteOne(filter)])
    case Ok(res) => Run(Ok(res.deleted_count > 0), [Store.DeleteOne(filter)])
  }

  /** How many records matching `filter` were deleted. */
  function DeleteMany<D>(coll: Store.Collection<D>, filter: Store.Document): (r: Run<D, u64>)
    ensures r.calls == [Store.DeleteMany(filter)]
    ensures r.result.Ok? <==> coll.deleteMany(filter).Ok?
    ensures r.result.Ok? ==> r.result.value == coll.deleteMany(filter).value.deleted_count
    ensures r.result.Err? ==> r.result.error == coll.deleteMany(filter).error
  {
    match coll.deleteMany(filter)
    case Err(e) => Run(Err(e), [Store.DeleteMany(filter)])
    case Ok(res) => Run(Ok(res.deleted_count), [Store.DeleteMany(filter)])
  }

  /** The record the store's `find_one_and_delete` returns, passed through. */
  function FindOneAndDelete<D>(coll: Store.Collection<D>, filter: Store.Document): (r: Run<D, Option<D>>)
    ensures r.calls == [Store.FindOneAndDelete(filter)]
    ensures r.result == coll.findOneAndDelete(filter)
  {
    Run(coll.findOneAndDelete(filter), [Store.FindOneAndDelete(filter)])
  }

  // ---------- relations between the operations ----------

  /**
   * A by-id operation whose identifier parses is the filter operation on `{ "_id": oid }`;
   * one whose identifier does not parse fails with the parse error and makes no request.
   */
  lemma ByIdIsFilterOnId<D>(coll: Store.Collection<D>, parse: IdParser, id: string, update: Store.Document)
    ensures parse(id).Ok? ==>
      && FindById(coll, parse, id) == FindOne(coll, IdFilter(parse(id).value))
      && UpdateById(coll, parse, id, update) == UpdateOne(coll, IdFilter(parse(id).value), update)
      && DeleteById(coll, parse, id) == DeleteOne(coll, IdFilter(parse(id).value))
    ensures parse(id).Err? ==>
      && FindById(coll, parse, id) == Run(Err(parse(id).error), [])
      && UpdateById(coll, parse, id, update) == Run(Err(parse(id).error), [])
      && DeleteById(coll, parse, id) == Run(Err(parse(id).error), [])
  {
  }

  /**
   * The single-record forms report whether the count the many-record forms return is
   * positive, when the store reports the same result for both requests.
   */
  lemma SingleFormIsPositiveCount<D>(coll: Store.Collection<D>, filter: Store.Document, update: Store.Document)
    requires coll.updateOne(filter, update) == coll.updateMany(filter, update)
    requires coll.deleteOne(filter) == coll.deleteMany(filter)
    ensures UpdateOne(coll, filter, update).result ==
      (match UpdateMany(coll, filter, update).result case Ok(n) => Ok(n > 0) case Err(e) => Err(e))
    ensures DeleteOne(coll, filter).result ==
      (match DeleteMany(coll, filter).result case Ok(n) => Ok(n > 0) case Err(e) => Err(e))
  {
  }

  /** An update that matches a record but changes nothing reports false. */
  lemma MatchedButUnmodifiedIsFalse<D>(coll: Store.Collection<D>, filter: Store.Document, update: Store.Document, matched: u64)
    requires coll.updateOne(filter, update) == Ok(Store.UpdateResult(matched, 0))
    ensures UpdateOne(coll, filter, update).result == Ok(false)
  {
  }
}
