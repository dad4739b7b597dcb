/**
 * A collection reference's accessors. Each one is a `split` / index / `join`
 * of the full path `projects/<p>/databases/<d>/documents/<collection path>`;
 * `parent` and `doc` navigate to the enclosing document (or database) and to
 * a document of the collection.
 */
module Collections {
  import opened Wrappers
  import opened Splitting
  import opened References
  import Databases

  /** `project_id`: segment 1 of the path, a piece between two `/` (see `ProjectIdPresent`). */
  function ProjectId(c: CollectionRef): (r: Option<string>)
    ensures r.Some? ==> 1 < |Split(c.path, '/')| && r.value == Split(c.path, '/')[1] && '/' !in r.value
  {
    AtDropTrailing(Split(c.path, '/'), 1);
    At(RubySplit(c.path, '/'), 1)
  }

  /** `database_id`: segment 3 of the path (see `DatabaseIdPresent`). */
  function DatabaseId(c: CollectionRef): (r: Option<string>)
    ensures r.Some? ==> 3 < |Split(c.path, '/')| && r.value == Split(c.path, '/')[3] && '/' !in r.value
  {
    AtDropTrailing(Split(c.path, '/'), 3);
    At(RubySplit(c.path, '/'), 3)
  }

  /** `collection_id`: the last segment of the path that is not empty (see `CollectionIdPresent`). */
  function CollectionId(c: CollectionRef): (r: Option<string>)
    ensures r.Some? ==> r.value != "" && '/' !in r.value
  {
    LastDropTrailing(Split(c.path, '/'));
    Last(RubySplit(c.path, '/'))
  }

  /**
   * Ruby's `split` drops the empty pieces at the end, so `project_id` is
   * there exactly when some piece from segment 1 on is not empty.
   */
  lemma ProjectIdPresent(c: CollectionRef)
    ensures ProjectId(c).Some? <==> exists k :: 1 <= k < |Split(c.path, '/')| && Split(c.path, '/')[k] != ""
  {
    AtDropTrailing(Split(c.path, '/'), 1);
  }

  /** `database_id` is there exactly when some piece from segment 3 on is not empty. */
  lemma DatabaseIdPresent(c: CollectionRef)
    ensures DatabaseId(c).Some? <==> exists k :: 3 <= k < |Split(c.path, '/')| && Split(c.path, '/')[k] != ""
  {
    AtDropTrailing(Split(c.path, '/'), 3);
  }

  /**
   * `collection_id` is missing exactly when the path is all `/`; otherwise
   * it is a piece of the path after which every piece is empty.
   */
  lemma CollectionIdPresent(c: CollectionRef)
    ensures CollectionId(c).Some? <==> exists k :: 0 <= k < |c.path| && c.path[k] != '/'
    ensures CollectionId(c).Some? ==>
      exists k :: 0 <= k < |Split(c.path, '/')| && Split(c.path, '/')[k] == CollectionId(c).value &&
        forall j :: k < j < |Split(c.path, '/')| ==> Split(c.path, '/')[j] == ""
  {
    LastDropTrailing(Split(c.path, '/'));
    SeparatorsOnly(c.path, '/');
    assert CollectionId(c) == Last(DropTrailingEmpty(Split(c.path, '/')));
  }

  /**
   * `collection_path`: everything after the fifth `/` (split with limit 6).
   * It is missing only for the empty path, and keeps a `/` of its own only
   * when five segments came before it (see `CollectionPathSuffix`).
   */
  function CollectionPath(c: CollectionRef): (r: Option<string>)
    ensures r.Some? <==> c.path != ""
    ensures r.Some? && '/' in r.value ==> |RubySplitLimit(c.path, '/', 6)| == 6
  {
    Last(RubySplitLimit(c.path, '/', 6))
  }

  /** `collection_path` ends the path, right after a `/` unless it is the whole path. */
  lemma CollectionPathSuffix(c: CollectionRef)
    requires c.path != ""
    ensures var r := CollectionPath(c).value;
      && |r| <= |c.path| && c.path[|c.path| - |r|..] == r
      && (|r| < |c.path| ==> c.path[|c.path| - |r| - 1] == '/')
  {
    JoinLastSuffix(SplitAtMost(c.path, '/', 6), '/');
  }

  /**
   * `parent_path`: the path without its last segment. A path without `/` has
   * the empty parent path; otherwise, when the path does not end in `/`,
   * the parent path, a `/` and `collection_id` make the path again.
   */
  function ParentPath(c: CollectionRef): (r: string)
    ensures '/' !in c.path ==> r == ""
    ensures '/' in c.path && c.path[|c.path| - 1] != '/' ==>
      CollectionId(c).Some? && r + "/" + CollectionId(c).value == c.path
  {
    if '/' !in c.path then
      AllButLastFree(c.path, '/');
      Join(AllButLast(RubySplit(c.path, '/')), '/')
    else if c.path[|c.path| - 1] != '/' then
      JoinAllButLast(c.path, '/');
      Join(AllButLast(RubySplit(c.path, '/')), '/')
    else
      Join(AllButLast(RubySplit(c.path, '/')), '/')
  }

  /** What `parent` returns: a document, the context's database, or nil when there is no context. */
  datatype ParentRef = DocumentParent(doc: DocumentRef) | DatabaseParent(db: Database) | NilParent

  /**
   * `parent`: a nested collection's parent is the document at `parent_path`
   * (sharing the context); a root collection's parent is the database of its
   * context. The empty path has no collection path at all, and `parent` fails.
   */
  function Parent(c: CollectionRef): (r: Result<ParentRef, ReferenceError>)
    ensures r.Failure? <==> c.path == ""
    ensures r.Failure? ==> r.error == NilCollectionPath
    ensures r.Success? ==> (r.value.DocumentParent? <==> '/' in CollectionPath(c).value)
    ensures r.Success? && r.value.DocumentParent? ==> r.value.doc == DocumentRef(ParentPath(c), c.context)
    ensures r.Success? && !r.value.DocumentParent? && c.context.Some? ==> r.value == DatabaseParent(c.context.value.db)
    ensures r.Success? && !r.value.DocumentParent? && c.context.None? ==> r.value == NilParent
  {
    var collectionPath := CollectionPath(c);
    if collectionPath.None? then
      Failure(NilCollectionPath)
    else if '/' in collectionPath.value then
      Success(DocumentParent(DocumentRef(ParentPath(c), c.context)))
    else
      match c.context
      case Some(ctx) => Success(DatabaseParent(ctx.db))
      case None => Success(NilParent)
  }

  /** `ensure_context!`: fails when the reference has no context. */
  function EnsureContext(c: CollectionRef): (r: Result<Context, ReferenceError>)
    ensures r.Failure? <==> c.context.None?
    ensures r.Failure? ==> r.error == NoActiveConnection && Message(r.error) == "Must have active connection to service"
    ensures r.Success? ==> c.context == Some(r.value)
  {
    if c.context.None? then Failure(NoActiveConnection) else Success(c.context.value)
  }

  /**
   * `context.doc(path)`: the database resolves the path; a batch or
   * transaction is taken to resolve it as its database does, and the new
   * reference keeps the caller's context.
   */
  function ContextDoc(ctx: Context, documentPath: string): (r: Result<DocumentRef, ReferenceError>)
    ensures r.Success? <==> Databases.Doc(ctx.db, documentPath).Success?
    ensures r.Failure? ==> r.error == NotADocument
    ensures r.Success? ==> r.value == DocumentRef(Databases.Doc(ctx.db, documentPath).value.path, Some(ctx))
  {
    var d :- Databases.Doc(ctx.db, documentPath);
    Success(DocumentRef(d.path, Some(ctx)))
  }

  /**
   * The relative path `doc` asks for: `"#{collection_path}/#{document_path}"`,
   * with a random id when no document path is given (a nil collection path
   * interpolates as the empty string).
   */
  function RequestedDocumentPath(c: CollectionRef, documentPath: Option<string>, randomId: string): string
  {
    var id := if documentPath.Some? then documentPath.value else randomId;
    var collectionPath := if CollectionPath(c).Some? then CollectionPath(c).value else "";
    collectionPath + "/" + id
  }

  /** `doc`: a document of this collection, resolved by the context. */
  function Doc(c: CollectionRef, documentPath: Option<string>, randomId: string): (r: Result<DocumentRef, ReferenceError>)
    ensures c.context.None? ==> r == Failure(NoActiveConnection)
    ensures c.context.Some? ==> r == ContextDoc(c.context.value, RequestedDocumentPath(c, documentPath, randomId))
  {
    var ctx :- EnsureContext(c);
    ContextDoc(ctx, RequestedDocumentPath(c, documentPath, randomId))
  }

  // ---------------------------------------------------------------------
  // Properties

  /** The segments of the path under which every collection of `db` lives. */
  function DocumentsSegments(db: Database): seq<string>
  {
    ["projects", db.projectId, "databases", Databases.DatabaseId(db), "documents"]
  }

  /** For a canonical handle, the documents path is the join of those segments. */
  lemma DocumentsPathSegments(db: Database)
    requires Databases.Canonical(db)
    ensures Join(DocumentsSegments(db), '/') == Databases.DocumentsPath(db)
    ensures forall k :: 0 <= k < 5 ==> '/' !in DocumentsSegments(db)[k]
  {
    var p := db.projectId;
    JoinFive("projects", p, "databases", "(default)", "documents", '/');
    assert "projects" + ['/'] == "projects/";
    assert ['/'] + "databases" + ['/'] == "/databases/";
    assert ['/'] + "documents" == "/documents";
    DocumentsSegmentsFree(db);
  }

  /** No segment of the documents path holds a `/`. */
  lemma DocumentsSegmentsFree(db: Database)
    requires Databases.Canonical(db)
    ensures forall k :: 0 <= k < 5 ==> '/' !in DocumentsSegments(db)[k]
  {
    var s := DocumentsSegments(db);
    assert '/' !in s[0] && '/' !in s[2] && '/' !in s[3] && '/' !in s[4];
  }

  /** Splitting a path built by `col` gives the database's segments, then the relative path's. */
  lemma {:induction false} BuiltPathSegments(db: Database, rel: string)
    requires Databases.Canonical(db)
    ensures var path := Databases.DocumentsPath(db) + "/" + rel;
      && RubySplit(path, '/') == DocumentsSegments(db) + RubySplit(rel, '/')
      && RubySplitLimit(path, '/', 6) == DocumentsSegments(db) + [rel]
  {
    var path := Databases.DocumentsPath(db) + "/" + rel;
    var segs := DocumentsSegments(db);
    DocumentsPathSegments(db);
    SplitConcat(Join(segs, '/'), rel, '/');
    SplitJoin(segs, '/');
    DropTrailingEmptyAfter(segs, Split(rel, '/'));
    SplitAtMostPrefix(segs, rel, '/');
  }

  /**
   * A collection made by `col` on a canonical database reports the database's
   * project id, `(default)` as its database id, the relative path as its
   * collection path and the relative path's last segment as its id.
   */
  lemma ColAccessors(db: Database, rel: string)
    requires Databases.Canonical(db)
    requires Databases.Col(db, rel).Success?
    ensures var c := Databases.Col(db, rel).value;
      && ProjectId(c) == Some(db.projectId)
      && DatabaseId(c) == Some(Databases.DatabaseId(db))
      && CollectionPath(c) == Some(rel)
      && CollectionId(c) == Last(RubySplit(rel, '/'))
      && CollectionId(c).Some?
  {
    BuiltPathSegments(db, rel);
  }

  /** A path that ends in `/` and a plain id has the part before them as its parent path. */
  lemma ParentPathAppend(c: CollectionRef, front: string, id: string)
    requires id != "" && '/' !in id
    requires c.path == front + "/" + id
    ensures ParentPath(c) == front
  {
    assert c.path[|c.path| - 1] == id[|id| - 1];
    RubySplitFull(c.path, '/');
    SplitConcat(front, id, '/');
    FindCharAbsent(id, '/');
    JoinSplit(front, '/');
  }

  /**
   * The parent of a collection made by `col`: the document one segment up when
   * the relative path is nested, the database when it is a root collection.
   */
  lemma ColParent(db: Database, parentRel: string, id: string)
    requires Databases.Canonical(db)
    requires id != "" && '/' !in id
    requires Databases.Col(db, parentRel + "/" + id).Success?
    ensures var c := Databases.Col(db, parentRel + "/" + id).value;
      Parent(c) == Success(DocumentParent(DocumentRef(Databases.DocumentsPath(db) + "/" + parentRel, c.context)))
  {
    var rel := parentRel + "/" + id;
    var c := Databases.Col(db, rel).value;
    var front := Databases.DocumentsPath(db) + "/" + parentRel;
    ColAccessors(db, rel);
    assert rel[|parentRel|] == '/';
    assert c.path == front + "/" + id;
    ParentPathAppend(c, front, id);
  }

  /** A root collection's parent is its database. */
  lemma RootColParent(db: Database, rel: string)
    requires Databases.Canonical(db)
    requires '/' !in rel
    requires Databases.Col(db, rel).Success?
    ensures Parent(Databases.Col(db, rel).value) == Success(DatabaseParent(db))
  {
    ColAccessors(db, rel);
  }

  /**
   * `doc(id)` on a collection made by `col` asks for exactly
   * `collection_path + "/" + id` and yields the document directly under the
   * collection: the collection's path followed by `/` and the id.
   */
  lemma ColDoc(db: Database, rel: string, id: string, randomId: string)
    requires Databases.Canonical(db)
    requires Databases.Col(db, rel).Success?
    requires rel != "" && rel[|rel| - 1] != '/'
    requires id != "" && '/' !in id
    ensures var c := Databases.Col(db, rel).value;
      && RequestedDocumentPath(c, Some(id), randomId) == rel + "/" + id
      && Doc(c, Some(id), randomId) == Success(DocumentRef(c.path + "/" + id, c.context))
  {
    var c := Databases.Col(db, rel).value;
    ColAccessors(db, rel);
    OneMoreSegment(rel, id);
    DocUnder(db, c, rel, id, randomId);
  }

  /** `doc(id)` on a collection of `db` whose collection path is `rel`, when `rel/id` names a document. */
  lemma DocUnder(db: Database, c: CollectionRef, rel: string, id: string, randomId: string)
    requires Databases.Col(db, rel).Success? && c == Databases.Col(db, rel).value
    requires CollectionPath(c) == Some(rel)
    requires Databases.SegmentCount(rel + "/" + id) % 2 == 0
    ensures RequestedDocumentPath(c, Some(id), randomId) == rel + "/" + id
    ensures Doc(c, Some(id), randomId) == Success(DocumentRef(c.path + "/" + id, c.context))
  {
    var full := rel + "/" + id;
    assert RequestedDocumentPath(c, Some(id), randomId) == full;
    assert Databases.DocumentsPath(db) + "/" + full == c.path + "/" + id;
  }

  /** Appending a plain id to a path without a trailing `/` adds exactly one segment. */
  lemma OneMoreSegment(rel: string, id: string)
    requires rel != "" && rel[|rel| - 1] != '/'
    requires id != "" && '/' !in id
    ensures Databases.SegmentCount(rel + "/" + id) == Databases.SegmentCount(rel) + 1
  {
    var full := rel + "/" + id;
    RubySplitFull(rel, '/');
    assert full[|full| - 1] == id[|id| - 1];
    RubySplitFull(full, '/');
    SplitConcat(rel, id, '/');
    FindCharAbsent(id, '/');
  }
}
