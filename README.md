# mongo-collection in Dafny

A model of the core of `mongo-collection`, a generic MongoDB data-access layer in Rust.
The model covers three parts:

- the pagination query and the response envelopes: `PaginatedQuery`, `SortOrder`,
  `PaginatedData<T>` and `ListData<T>`;
- the filter-key normaliser of `ListQuery`, which accepts `filters[name]=value` and
  `filters.name=value`;
- the result shaping of the generic `CollectionRepository` trait: the sort directive,
  skip/limit, the page count, page assembly, draining a cursor, turning modified and
  deleted counts into booleans or counts, and the by-id operations that stop when the
  identifier does not parse.

The document store is abstract. `Store.Collection<D>` holds one function per driver
primitive (`insert_one`, `find`, `count_documents`, `update_one`, ...), and each function
gives the outcome of that request. Every repository operation returns a
`Repository.Run`: its result, plus the list of store requests it made, in order. The
contracts can therefore state which requests an operation makes: none when the
identifier fails to parse, and for a page fetch, exactly a count followed by one `find`
with the query's skip, limit and sort.

Files:

- `base.dfy`: `u64`, `i64`, the `as i64` cast, `Option` and `Result`.
- `iter.dfy`: Rust's `into_iter().map(f).collect()` and `collect::<Result<Vec<_>, _>>()`.
- `models.dfy`: `repository/models.rs`.
- `list.dfy`: `list.rs`.
- `store.dfy`: the store's vocabulary (documents, options, results, requests).
- `repository.dfy`: `repository/traits.rs`.

Rust integer types are bounded subset types (`u64`, `i64`), and the one narrowing cast,
`page_size as i64`, is written out. `ListQuery`'s raw filters are a sequence of
(key, value) pairs, so the order in which the `HashMap` is iterated is explicit.
`ListData` is declared twice in the source, in `models.rs` and in `list.rs`, with the
same code. The model keeps two datatypes, `Models.ListData` and `List.ListData`, and
both are built on `Iter`.

## Model

| member | source | states |
|---|---|---|
| `Base.AsI64` | mongo-collection/src/repository/models.rs:52 | `x as i64` keeps `x` when it is at most `i64::MAX`, and is otherwise negative and congruent to `x` modulo 2^64 |
| `Iter.Map` | mongo-collection/src/repository/models.rs:82 | mapping keeps the length and order and applies `f` to each element: `r[i] == f(s[i])` |
| `Iter.Collect` | mongo-collection/src/repository/models.rs:98-102 | collecting results into `Result<Vec>` gives `Ok` exactly when every element is `Ok`, with all values in order; otherwise it gives the error of the first `Err` |
| `Iter.TryMap` | mongo-collection/src/repository/models.rs:98-102 | `map(f).collect::<Result<..>>()` gives `Ok` iff `f` succeeds on every item, and then the converted items pointwise in order; otherwise it gives the error of the first failing item |
| `Iter.TryMapSettledAtFirstFailure` | mongo-collection/src/repository/models.rs:98-102 | the outcome is fixed at the first failing item: any `g` that agrees with `f` up to that item gives the same error, whatever `g` does after it |
| `Models.SortOrder.Default` | mongo-collection/src/repository/models.rs:34-42 | the default sort order is `Desc` |
| `Models.PaginatedQuery.Default` | mongo-collection/src/repository/models.rs:9-31 | the default query has page 1, page size 10 and order `Desc`, with no sort field, no search and no filters |
| `Models.PaginatedQuery.Skip` | mongo-collection/src/repository/models.rs:46-48 | for page ≥ 1, when the product fits in `u64`, the number of records before the page is (page − 1) · page_size |
| `Models.PaginatedQuery.Limit` | mongo-collection/src/repository/models.rs:51-53 | the limit is `page_size` when that fits in `i64`; above `i64::MAX` the cast wraps to a negative value |
| `Models.DefaultQueryIsFirstPage` | mongo-collection/src/repository/models.rs:12-53 | the default query skips 0 records and takes 10; its order is the `SortOrder` default |
| `Models.PagesAreAdjacent` | mongo-collection/src/repository/models.rs:46-53 | page 1 starts at record 0, and page p + 1 starts where page p's window of `limit` records ends |
| `Models.PaginatedData.Map` | mongo-collection/src/repository/models.rs:77-88 | items are mapped pointwise with the same length; `total_count`, `page`, `page_size` and `total_pages` are unchanged |
| `Models.PaginatedData.TryMap` | mongo-collection/src/repository/models.rs:93-108 | `Ok` iff every item converts, with the converted items in order and all four counts unchanged; otherwise the error of the first failing item |
| `Models.ListData.New` | mongo-collection/src/repository/models.rs:124-129 | a new list keeps its items and counts exactly them |
| `Models.ListData.Map` | mongo-collection/src/repository/models.rs:134-142 | items are mapped pointwise; `total_count` is kept even when it differs from the number of items |
| `Models.ListData.TryMap` | mongo-collection/src/repository/models.rs:147-159 | all-or-nothing conversion with `total_count` kept; it fails with the first failing item's error |
| `Models.FreshListCountSurvivesMapping` | mongo-collection/src/repository/models.rs:124-159 | a list built by `new` still counts exactly its items after `map`, or after a `try_map` that succeeds |
| `List.StripPrefix` | mongo-collection/src/list.rs:33 | `strip_prefix` succeeds iff the key starts with the prefix, and then the prefix followed by the rest is the key |
| `List.StripSuffix` | mongo-collection/src/list.rs:33 | `strip_suffix` succeeds iff the string ends with the suffix, and then the rest followed by the suffix is the string |
| `List.FilterName` | mongo-collection/src/list.rs:33-38 | a recognised key is `"filters[" + k + "]"` or `"filters." + k` for the name `k` it yields, the bracket form tried first (the converse is `List.FilterNameForms`) |
| `List.FilterNameForms` | mongo-collection/src/list.rs:33-38 | a raw key yields the name `k` iff it is `"filters[" + k + "]"` or `"filters." + k` (both directions) |
| `List.UnrecognisedKeysDropped` | mongo-collection/src/list.rs:31-40 | `page` and `filters[a` (no closing bracket) yield no name |
| `List.EmptyNamesAccepted` | mongo-collection/src/list.rs:33-38 | `filters[]` and `filters.` both yield the empty name |
| `List.Normalize` | mongo-collection/src/list.rs:30-40 | the map the loop builds; every name in it comes from some recognised raw key (both directions, last-wins and size are `List.NormalizeDomain`, `List.NormalizeLastWins`, `List.NormalizeSizeWithoutCollisions`) |
| `List.NormalizeDomain` | mongo-collection/src/list.rs:30-41 | a name is in the normalised map iff some raw key of one of the two forms yields it |
| `List.NormalizeLastWins` | mongo-collection/src/list.rs:30-41 | the value stored under a name is, unaltered, the value of the last raw pair in iteration order whose key yields that name |
| `List.NormalizeSizeWithoutCollisions` | mongo-collection/src/list.rs:30-41 | when no two recognised keys yield the same name, the map has exactly one entry per recognised raw key |
| `List.NormalizeExample` | mongo-collection/src/list.rs:28-44 | `{filters[age]: 30, filters.name: Alice, page: 1}` normalises to `{age: 30, name: Alice}` |
| `List.CollisionLaterWins` | mongo-collection/src/list.rs:31-40 | when `filters[a]` and `filters.a` are both present, whichever comes later in iteration order supplies the value |
| `List.ListQuery.Default` | mongo-collection/src/list.rs:11-25 | the default listing query has order `Desc` and no sort field, no search and no filters |
| `List.ListQuery.ParsedFilters` | mongo-collection/src/list.rs:28-44 | returns `None` iff there are no raw filters; otherwise returns `Some` of the map that the loop of inserts builds, whose content the `Normalize*` lemmas describe |
| `List.ListData.New` | mongo-collection/src/list.rs:60-65 | a new list keeps its items and counts exactly them |
| `List.ListData.Map` | mongo-collection/src/list.rs:70-78 | items are mapped pointwise and `total_count` is kept |
| `List.ListData.TryMap` | mongo-collection/src/list.rs:83-95 | all-or-nothing conversion with `total_count` kept; it fails with the first failing item's error |
| `Repository.Create` | mongo-collection/src/repository/traits.rs:20-27 | makes one `insert_one` request; once that succeeds it returns the given record unchanged, and otherwise the store's error |
| `Repository.CreateMany` | mongo-collection/src/repository/traits.rs:30-37 | makes one `insert_many` request; once that succeeds it returns the given sequence unchanged, and otherwise the store's error |
| `Repository.IdFilter` | mongo-collection/src/repository/traits.rs:49 | the by-id filter `{_id: oid}`: a single `_id` field holding the identifier (the same document at lines 162 and 210) |
| `Repository.IdFilterInjective` | mongo-collection/src/repository/traits.rs:49 | two identifiers give the same by-id filter iff they are equal, so a by-id request addresses exactly the identifier given |
| `Repository.FindById` | mongo-collection/src/repository/traits.rs:42-50 | an identifier that does not parse gives the parse error and makes no request; one that parses gives `find_one` on `{_id: oid}` |
| `Repository.FindOne` | mongo-collection/src/repository/traits.rs:53-59 | makes one `find_one` request with the filter and returns its outcome; absence is `Ok(None)`, not an error |
| `Repository.FindManyResult` | mongo-collection/src/repository/traits.rs:68-79 | the outcome of `find_many`: the error that opening the cursor gave, or else `Ok` iff every cursor element is a document, with the documents in cursor order, and otherwise the first cursor error (as `Iter.Collect` states) |
| `Repository.FindMany` | mongo-collection/src/repository/traits.rs:62-80 | makes one `find` request; the result is the error that opening the cursor gave, or else the cursor drained: every document in cursor order, or the first cursor error with no partial list |
| `Repository.FindAll` | mongo-collection/src/repository/traits.rs:83-87 | is `find_many` with the empty filter and no options |
| `Repository.Count` | mongo-collection/src/repository/traits.rs:134-140 | makes one `count_documents` request and returns its outcome |
| `Repository.Exists` | mongo-collection/src/repository/traits.rs:143-148 | makes one `find_one` request; true iff it found a record, and the store's error otherwise |
| `Repository.ExistsIffFindOneFinds` | mongo-collection/src/repository/traits.rs:147 | `exists` is `Ok(true)` exactly when `find_one` returns a record, and both make the same request |
| `Repository.SortDirective` | mongo-collection/src/repository/traits.rs:101-109 | the sort is `{f: 1}` for `Asc` and `{f: -1}` for `Desc` when a field `f` is given, and `{_id: -1}` whatever the order when none is |
| `Repository.SortOrderMatters` | mongo-collection/src/repository/traits.rs:101-109 | with a field, the two orders give opposite directions; without one, the order has no effect |
| `Repository.PageOptions` | mongo-collection/src/repository/traits.rs:112-116 | the fetch options carry the query's `skip()`, `limit()` and the sort directive |
| `Repository.TotalPages` | mongo-collection/src/repository/traits.rs:122 | for page size ≥ 1, the least number of pages that holds `total_count` records; for page size 0, 0 when the count is 0 and `u64::MAX` otherwise (the float cast) |
| `Repository.TotalPagesExamples` | mongo-collection/src/repository/traits.rs:122 | 0 records give 0 pages, (25, 10) gives 3 and (20, 10) gives 2 |
| `Repository.NonEmptyPagesAreFirstTotalPages` | mongo-collection/src/repository/traits.rs:113-122 | page p starts before the end of the result set iff p ≤ `total_pages` |
| `Repository.FindPaginated` | mongo-collection/src/repository/traits.rs:90-131 | counts first, then fetches with the page options; either store error is returned as it is; on success, items are the fetched list, with the store count, the query's page and page size, and the computed `total_pages` |
| `Repository.UpdateById` | mongo-collection/src/repository/traits.rs:153-166 | a parse failure gives that error and makes no request; otherwise one `update_one` on `{_id: oid}`, true iff `modified_count > 0`; a failed request gives the store's error from that `update_one` |
| `Repository.UpdateOne` | mongo-collection/src/repository/traits.rs:169-177 | one `update_one` request; true iff `modified_count > 0`; store errors are passed through |
| `Repository.UpdateMany` | mongo-collection/src/repository/traits.rs:180-188 | one `update_many` request; returns `modified_count` (not the matched count) |
| `Repository.FindOneAndUpdate` | mongo-collection/src/repository/traits.rs:191-198 | one `find_one_and_update` request, whose outcome is passed through |
| `Repository.DeleteById` | mongo-collection/src/repository/traits.rs:203-212 | a parse failure gives that error and makes no request; otherwise one `delete_one` on `{_id: oid}`, true iff `deleted_count > 0`; a failed request gives the store's error from that `delete_one` |
| `Repository.DeleteOne` | mongo-collection/src/repository/traits.rs:215-222 | one `delete_one` request; true iff `deleted_count > 0` |
| `Repository.DeleteMany` | mongo-collection/src/repository/traits.rs:225-232 | one `delete_many` request; returns `deleted_count` |
| `Repository.FindOneAndDelete` | mongo-collection/src/repository/traits.rs:235-241 | one `find_one_and_delete` request, whose outcome is passed through |
| `Repository.ByIdIsFilterOnId` | mongo-collection/src/repository/traits.rs:42-212 | for `find_by_id` (lines 42-50), `update_by_id` (lines 153-166) and `delete_by_id` (lines 203-212): with a parsable identifier, each by-id operation is exactly the filter operation on `{_id: oid}`; otherwise each fails with the parse error and makes no request |
| `Repository.SingleFormIsPositiveCount` | mongo-collection/src/repository/traits.rs:169-188 | when the store reports the same result to both forms, the single-record update and delete answer whether the many-record form's count is positive |
| `Repository.MatchedButUnmodifiedIsFalse` | mongo-collection/src/repository/traits.rs:169-177 | an update that matches a record but modifies nothing returns `false` |

## Left out

- MongoDB semantics are not modelled. This covers filter matching, "matched versus modified", insertion and identity assignment, the order of the documents `find` returns, and whether `find_one_and_update` returns the record before or after the update. Each store primitive's outcome is a given function of its arguments.
- Store state is not modelled: an insert is not seen by a later find. For the same reason, the race between the count and the fetch in `find_paginated` is outside the model.
- `async`, `Send`/`Sync`/`Unpin` and `async_trait` are left out. Each operation is modelled as one sequential call.
- `Models.PaginatedQuery.Skip`: requires page ≥ 1 and that (page − 1) · page_size fits in `u64`. In Rust, page 0 (which serde accepts) and an overflowing product panic in debug builds and wrap in release builds; neither behaviour is modelled. `Repository.PageOptions` and `Repository.FindPaginated` carry the same precondition.
- `Repository.TotalPages`: this is integer ceiling division. The source divides as `f64`, which agrees with it for counts below 2^53; the rounding of larger counts is not modelled.
- `Iter.Map`: `f` is a pure function. A Rust `FnMut` closure can have side effects, and those are not modelled. The same holds for `Iter.TryMap` and for the `Map`/`TryMap` members of `PaginatedData` and `ListData`. That `f` is never called after the first failure is stated as `Iter.TryMapSettledAtFirstFailure`: the result does not depend on what `f` does after that item.
- `parse_object_id` (`utils.rs`) and the ObjectId grammar of the BSON library are not modelled. The repository takes the parse function as a parameter.
- `Collection::name` and `Collection::collection` (`lib.rs`, `collection.rs`), and the derive macro that computes pluralised collection names (`mongo-collection-macro/src/lib.rs`), are not modelled. The collection handle is a parameter of every operation.
- Serde, `SmartDefault` and utoipa derives are not modelled, except for the default values they produce. This includes `#[serde(flatten)]` on `ListQuery.filters`, which is what puts every other query-string key, such as `page`, into the raw filters.
- `ListQuery.filters` is a `HashMap`, so its keys are distinct. The model accepts any sequence of pairs, and the later-wins rule also covers repeated keys.
- The `search` and `filters` fields of `PaginatedQuery` are carried but not used, as in the source.
- The examples under `mongo-collection/examples/` (connection set-up, environment variables, printing) are not modelled.
- No key syntax takes precedence when both name the same field. The code lets the later key in iteration order win, so the result depends on `HashMap` iteration order, and the model follows the code (`List.NormalizeLastWins`, `List.CollisionLaterWins`).
- A page size of 0 is not rejected by the code. The model keeps it and gives it the float-cast result in `Repository.TotalPages`; what the store does with limit 0 is outside the model.
