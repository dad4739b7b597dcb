/**
 * The reference entities shared by the database and collection models.
 * Every reference is an immutable resource path plus the connection context
 * it was created from.
 */
module References {
  import opened Wrappers

  /**
   * A database handle. `path` is the service's database path
   * (`projects/<project>/databases/(default)`), `projectId` the service's
   * project; both come from the service object, which is not modelled.
   */
  datatype Database = Database(path: string, projectId: string)

  /**
   * The context a reference carries: the database itself, or a batch or
   * transaction, which answers `database` with the database it belongs to.
   */
  datatype Context = DatabaseContext(db: Database) | TransactionContext(db: Database)

  /** A collection reference: its full path and its (possibly missing) context. */
  datatype CollectionRef = CollectionRef(path: string, context: Option<Context>)

  /** A document reference: its full path and its (possibly missing) context. */
  datatype DocumentRef = DocumentRef(path: string, context: Option<Context>)

  /** The query over all documents of a collection; the query builder itself is not modelled. */
  datatype Query = CollectionQuery(collection: CollectionRef)

  /** The errors the reference helpers raise. */
  datatype ReferenceError =
    | NotACollection
    | NotADocument
    | NoActiveConnection
      /** `collection_path` is nil (only for the empty path), so `parent` calls a method on nil and Ruby raises NoMethodError. */
    | NilCollectionPath

  /** The message each error carries; NoMethodError's is worded as Ruby 3.2 and earlier word it. */
  function Message(e: ReferenceError): string
  {
    match e
    case NotACollection => "collection_path must refer to a collection."
    case NotADocument => "document_path must refer to a document."
    case NoActiveConnection => "Must have active connection to service"
    case NilCollectionPath => "undefined method `include?' for nil:NilClass"
  }
}
