/**
 * The path handling of a database handle: `col` and `doc` decide by the
 * parity of the `/`-segment count whether a relative path names a collection
 * or a document, and build the full path under `<database>/documents/`;
 * `coalesce_get_argument` turns the argument of `get` into a document
 * reference or a query.
 */
module Databases {
  import opened Wrappers
  import opened Splitting
  import opened References

  /** `database_id`: the client always addresses the default database. */
  function DatabaseId(db: Database): (r: string)
    ensures r != "" && '/' !in r
  {
    "(default)"
  }

  /** The parent of every document and collection path of `db`. */
  function DocumentsPath(db: Database): string
  {
    db.path + "/documents"
  }

  /** A database handle whose path is `projects/<project>/databases/(default)`. */
  predicate Canonical(db: Database)
  {
    && db.projectId != ""
    && '/' !in db.projectId
    && db.path == "projects/" + db.projectId + "/databases/" + DatabaseId(db)
  }

  /** `path.to_s.split("/").count`. */
  function SegmentCount(path: string): nat
  {
    |RubySplit(path, '/')|
  }

  /** `col`: an odd segment count names a collection; anything else is refused. */
  function Col(db: Database, collectionPath: string): (r: Result<CollectionRef, ReferenceError>)
    ensures r.Success? <==> SegmentCount(collectionPath) % 2 == 1
    ensures r.Failure? ==> r.error == NotACollection && Message(r.error) == "collection_path must refer to a collection."
    ensures r.Success? ==> r.value.path == DocumentsPath(db) + "/" + collectionPath
    ensures r.Success? ==> r.value.context == Some(DatabaseContext(db))
  {
    if SegmentCount(collectionPath) % 2 == 0 then
      Failure(NotACollection)
    else
      Success(CollectionRef(DocumentsPath(db) + "/" + collectionPath, Some(DatabaseContext(db))))
  }

  /** `doc`: an even segment count names a document; anything else is refused. */
  function Doc(db: Database, documentPath: string): (r: Result<DocumentRef, ReferenceError>)
    ensures r.Success? <==> SegmentCount(documentPath) % 2 == 0
    ensures r.Failure? ==> r.error == NotADocument && Message(r.error) == "document_path must refer to a document."
    ensures r.Success? ==> r.value.path == DocumentsPath(db) + "/" + documentPath
    ensures r.Success? ==> r.value.context == Some(DatabaseContext(db))
  {
    if SegmentCount(documentPath) % 2 == 1 then
      Failure(NotADocument)
    else
      Success(DocumentRef(DocumentsPath(db) + "/" + documentPath, Some(DatabaseContext(db))))
  }

  /** Every relative path is accepted by exactly one of `col` and `doc`. */
  lemma ColDocComplementary(db: Database, path: string)
    ensures Col(db, path).Success? != Doc(db, path).Success?
  {
  }

  /** `users/mike` has two segments: `col` refuses it and `doc` accepts it. */
  lemma UsersMike(db: Database)
    ensures Col(db, "users/mike") == Failure(NotACollection)
    ensures Doc(db, "users/mike").Success?
  {
    SplitJoin(["users", "mike"], '/');
    assert Join(["users", "mike"], '/') == "users/mike";
  }

  /** What `get` may be given. A String and a Symbol both reach `to_s`, so they are one case. */
  datatype GetArgument =
    | PathArgument(path: string)
    | SnapshotArgument(ref: DocumentRef)
    | CollectionArgument(col: CollectionRef)
    | DocumentArgument(doc: DocumentRef)
    | QueryArgument(query: Query)

  /** What `get` reads: one document, or the results of a query. */
  datatype GetTarget = DocumentTarget(doc: DocumentRef) | QueryTarget(query: Query)

  /**
   * `coalesce_get_argument`: a path with an even segment count becomes a
   * document reference, one with an odd count the query of its collection;
   * a snapshot becomes its reference, a collection its query, and anything
   * else passes through. A path argument can never be refused.
   */
  function CoalesceGetArgument(db: Database, arg: GetArgument): (r: GetTarget)
    ensures arg.PathArgument? && SegmentCount(arg.path) % 2 == 0 ==>
      Doc(db, arg.path).Success? && r == DocumentTarget(Doc(db, arg.path).value)
    ensures arg.PathArgument? && SegmentCount(arg.path) % 2 == 1 ==>
      Col(db, arg.path).Success? && r == QueryTarget(CollectionQuery(Col(db, arg.path).value))
    ensures arg.SnapshotArgument? ==> r == DocumentTarget(arg.ref)
    ensures arg.CollectionArgument? ==> r == QueryTarget(CollectionQuery(arg.col))
    ensures arg.DocumentArgument? ==> r == DocumentTarget(arg.doc)
    ensures arg.QueryArgument? ==> r == QueryTarget(arg.query)
  {
    match arg
    case PathArgument(p) =>
      if SegmentCount(p) % 2 == 0 then DocumentTarget(Doc(db, p).value)
      else QueryTarget(CollectionQuery(Col(db, p).value))
    case SnapshotArgument(ref) => DocumentTarget(ref)
    case CollectionArgument(col) => QueryTarget(CollectionQuery(col))
    case DocumentArgument(doc) => DocumentTarget(doc)
    case QueryArgument(query) => QueryTarget(query)
  }
}
