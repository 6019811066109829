/**
 * The document store as the repository sees it: a typed collection handle whose
 * primitives are given, not modelled. Each primitive's outcome is a field of
 * `Collection`, a function of the request's arguments; `Call` records a request so
 * that the repository's operations can say which requests they issue.
 */
module Store {
  import opened Base

  /** Exactly twelve bytes. */
  type Bytes12 = b: seq<bv8> | |b| == 12 witness [0, 0, 0, 0, 0, 0, 0, 0, 0, 0, 0, 0]

  /** The store's native 12-byte identifier. */
  datatype ObjectId = ObjectId(bytes: Bytes12)

  /** The field values the repository itself writes into filter and sort documents. */
  datatype Bson = Int32(i: int) | ObjectIdValue(oid: ObjectId) | Text(s: string)

  /** A query, update or sort document: ordered (field, value) pairs. */
  type Document = seq<(string, Bson)>

  /**
   * A driver error, or the error an identifier parser may report for malformed input.
   * The parser is a parameter of the repository, so the model never builds an
   * `InvalidObjectId` itself: it passes on whatever error the parser returns.
   */
  datatype Error = StoreError(code: int) | InvalidObjectId(input: string)

  /** The retrieval options the repository sets; every other option is left unset. */
  datatype FindOptions = FindOptions(skip: Option<u64>, limit: Option<i64>, sort: Option<Document>)

  datatype UpdateResult = UpdateResult(matched_count: u64, modified_count: u64)

  datatype DeleteResult = DeleteResult(deleted_count: u64)

  /**
   * What `cursor.try_next()` yields, in order: each element is a document or the error
   * that ends the stream; the end of the sequence is the end of the stream.
   */
  type Cursor<D> = seq<Result<D, Error>>

  /** A collection of records of type `D`, by the outcome of each request made of it. */
  datatype Collection<!D> = Collection(
    insertOne: D -> Result<(), Error>,
    insertMany: seq<D> -> Result<(), Error>,
    findOne: Document -> Result<Option<D>, Error>,
    find: (Document, Option<FindOptions>) -> Result<Cursor<D>, Error>,
    countDocuments: Document -> Result<u64, Error>,
    updateOne: (Document, Document) -> Result<UpdateResult, Error>,
    updateMany: (Document, Document) -> Result<UpdateResult, Error>,
    findOneAndUpdate: (Document, Document) -> Result<Option<D>, Error>,
    deleteOne: Document -> Result<DeleteResult, Error>,
    deleteMany: Document -> Result<DeleteResult, Error>,
    findOneAndDelete: Document -> Result<Option<D>, Error>)

  /** One request made of a collection. */
  datatype Call<D> =
    | InsertOne(document: D)
    | InsertMany(documents: seq<D>)
    | FindOne(filter: Document)
    | Find(filter: Document, options: Option<FindOptions>)
    | CountDocuments(filter: Document)
    | UpdateOne(filter: Document, update: Document)
    | UpdateMany(filter: Document, update: Document)
    | FindOneAndUpdate(filter: Document, update: Document)
    | DeleteOne(filter: Document)
    | DeleteMany(filter: Document)
    | FindOneAndDelete(filter: Document)
}
