# Firestore references and update planning, in Dafny

This project models three pieces of the Ruby client for Google Cloud Firestore (`google-cloud-firestore`).

- **Reference paths.** A collection reference holds a full resource path,
  `projects/<project>/databases/(default)/documents/<collection path>`.
  - The accessors `project_id`, `database_id`, `collection_id`, `collection_path` and `parent_path` each split that path on `/` and then index or join the pieces.
  - `parent` steps up to the enclosing document, or to the database for a root collection.
  - `doc` asks its context for `collection_path + "/" + id`.
  - On the database handle, `col` and `doc` choose by the parity of the `/`-segment count and build the full path.
  - `coalesce_get_argument` turns the argument of `get` into a document reference or a collection query.
  - Ruby's `String#split` is modelled exactly, in `Splitting`. Without a limit it drops trailing empty pieces. With a limit it keeps them. Both return `[]` on the empty string.
- **The update planner behind `DocumentReference#update`.** It takes a flat map of dotted field-path keys and returns either an `ArgumentError` message or the list of writes to commit.
  - Validation, in this order:
    1. the map must not be empty;
    2. every key must be a valid dotted path;
    3. no key may be a prefix of another;
    4. the sentinels `DELETE` and `SERVER_TIME` must sit where they are allowed.
  - The **Update write** carries:
    - a nested document built from the top-level keys;
    - an update mask, with each key in its backtick-quoted wire form;
    - the precondition: `exists: true`, or the given last update time.
  - The **Transform write** lists the full path of every `SERVER_TIME`.
- **`extract_field_paths`** splits each top-level key on dots. It returns the nested map and the list of keys.

The module layout follows the program:

| module | models |
|---|---|
| `Splitting` | `String#split` and `Array#join` |
| `References` | the reference datatypes and their errors |
| `Databases` | `database.rb` |
| `Collections` | `collection.rb` |
| `Values` | the values a caller passes |
| `FieldPaths` | parsing and encoding dotted paths |
| `Sentinels` | where the sentinels are allowed, and stripping `SERVER_TIME` out of a value |
| `Nesting` | `extract_field_paths` |
| `UpdatePlanner` | the planner |
| `Cases` | every case of `update_test.rb` and `extract_field_paths_test.rb`, each as a lemma about its own input |

The planner's implementation (`Convert`) is not among the source files. The model follows the behaviour that the generated conformance tests pin down. The choices those tests leave open are listed under "## Left out".

## Model

| member | source | states |
|---|---|---|
| Splitting.SplitAtMost | google-cloud-firestore/lib/google/cloud/firestore/collection.rb:52-54 | `split(sep, n)` gives at most `n` pieces. Every piece but the last is free of `sep`. The last piece is free of `sep` too when fewer than `n` pieces came out. Joining the pieces gives the string back. |
| Splitting.DropTrailingEmpty | google-cloud-firestore/lib/google/cloud/firestore/collection.rb:40-50 | Ruby's `split` without a limit keeps a prefix of the pieces. The kept prefix does not end in an empty piece, and everything dropped is empty. |
| Splitting.At | google-cloud-firestore/lib/google/cloud/firestore/collection.rb:40-46 | Ruby's `a[i]` is nil exactly past the end, and is the i-th piece otherwise. |
| Splitting.Last | google-cloud-firestore/lib/google/cloud/firestore/collection.rb:48-50 | `a.last` is nil exactly on the empty array, and is the final piece otherwise. |
| Splitting.AllButLast | google-cloud-firestore/lib/google/cloud/firestore/collection.rb:95-97 | `a[0...-1]` followed by the last element is the array again. |
| Splitting.JoinSplit | google-cloud-firestore/lib/google/cloud/firestore/collection.rb:95-97 | Joining the `/`-pieces of a string gives the string back. |
| Splitting.SplitJoin | google-cloud-firestore/lib/google/cloud/firestore/database.rb:68-74 | Splitting a join of separator-free pieces gives those pieces back. |
| Splitting.SplitAtMostPrefix | google-cloud-firestore/lib/google/cloud/firestore/collection.rb:52-54 | Splitting `seg1/…/segn/rest` with limit n+1 gives the n segments, then `rest` whole, even when `rest` contains `/`. |
| Splitting.AtDropTrailing | google-cloud-firestore/lib/google/cloud/firestore/collection.rb:40-46 | After Ruby's `split` drops the trailing empty pieces, piece `i` is present exactly when some piece from `i` on is not empty, and it is then the `i`-th piece of the full split. |
| Splitting.LastDropTrailing | google-cloud-firestore/lib/google/cloud/firestore/collection.rb:48-50 | After the trailing empty pieces are dropped, a last piece exists exactly when some piece is not empty. It is a non-empty piece after which every piece is empty. |
| Splitting.SeparatorsOnly | google-cloud-firestore/lib/google/cloud/firestore/collection.rb:48-50 | Some piece of the split is non-empty exactly when the string has a character other than the separator. |
| Databases.DatabaseId | google-cloud-firestore/lib/google/cloud/firestore/database.rb:48-50 | The database id is a single non-empty path segment, free of `/`. Its value `(default)` is the function body itself, not a proved clause; `Collections.ColAccessors` proves that a reference built by `col` reports it. |
| Databases.Col | google-cloud-firestore/lib/google/cloud/firestore/database.rb:68-74 | `col` succeeds exactly when the segment count is odd. Otherwise it fails with "collection_path must refer to a collection.". On success the path is `<database>/documents/<collection path>` and the context is the database. |
| Databases.Doc | google-cloud-firestore/lib/google/cloud/firestore/database.rb:84-92 | `doc` succeeds exactly when the segment count is even. Otherwise it fails with "document_path must refer to a document.". On success the path is `<database>/documents/<document path>` and the context is the database. |
| Databases.ColDocComplementary | google-cloud-firestore/lib/google/cloud/firestore/database.rb:68-71 | Exactly one of `col` and `doc` accepts any given relative path. |
| Databases.UsersMike | google-cloud-firestore/lib/google/cloud/firestore/database.rb:68-71 | `users/mike` is refused by `col` and accepted by `doc`. |
| Databases.CoalesceGetArgument | google-cloud-firestore/lib/google/cloud/firestore/database.rb:222-236 | A path with an even segment count becomes that document's reference. A path with an odd count becomes its collection's query. A snapshot becomes its reference, a collection becomes its query, and a document or query passes through. A path is never refused. |
| Collections.ProjectId | google-cloud-firestore/lib/google/cloud/firestore/collection.rb:40-42 | `project_id`, when present, is piece 1 of the path split on `/`. It is a segment, free of `/`. |
| Collections.ProjectIdPresent | google-cloud-firestore/lib/google/cloud/firestore/collection.rb:40-42 | `project_id` is present exactly when some piece from 1 on is not empty. Ruby drops the empty pieces at the end. |
| Collections.DatabaseId | google-cloud-firestore/lib/google/cloud/firestore/collection.rb:44-46 | `database_id`, when present, is piece 3 of the path split on `/`, free of `/`. |
| Collections.DatabaseIdPresent | google-cloud-firestore/lib/google/cloud/firestore/collection.rb:44-46 | `database_id` is present exactly when some piece from 3 on is not empty. |
| Collections.CollectionId | google-cloud-firestore/lib/google/cloud/firestore/collection.rb:48-50 | `collection_id`, when present, is a non-empty segment, free of `/`. |
| Collections.CollectionIdPresent | google-cloud-firestore/lib/google/cloud/firestore/collection.rb:48-50 | `collection_id` is missing exactly when the path is all `/`. Otherwise it is the last non-empty piece of the path. |
| Collections.CollectionPath | google-cloud-firestore/lib/google/cloud/firestore/collection.rb:52-54 | `collection_path` is missing exactly for the empty path. It contains a `/` only when the limit-6 split gave six pieces, that is, after the fifth `/`. |
| Collections.CollectionPathSuffix | google-cloud-firestore/lib/google/cloud/firestore/collection.rb:52-54 | `collection_path` is a suffix of the path, right after a `/` unless it is the whole path. |
| Collections.ParentPath | google-cloud-firestore/lib/google/cloud/firestore/collection.rb:95-97 | `parent_path` of a path without `/` is empty. For a path with a `/` that does not end in one, `parent_path + "/" + collection_id` is the path again. |
| Collections.ColAccessors | google-cloud-firestore/lib/google/cloud/firestore/collection.rb:40-54 | On a collection made by `col`: `project_id` is the database's project, `database_id` is `(default)`, `collection_path` is the relative path, and `collection_id` is the relative path's last segment. |
| Collections.BuiltPathSegments | google-cloud-firestore/lib/google/cloud/firestore/database.rb:68-74 | A path built by `col` splits into the five database segments, then the relative path's segments. With limit 6 it splits into the five database segments, then the relative path whole. |
| Collections.ParentPathAppend | google-cloud-firestore/lib/google/cloud/firestore/collection.rb:95-97 | The parent path of `front/id`, for a plain id, is `front`. |
| Collections.Parent | google-cloud-firestore/lib/google/cloud/firestore/collection.rb:61-67 | `parent` is a document reference at `parent_path`, sharing the context, exactly when `collection_path` contains `/`. Otherwise it is the context's database, or nil without a context. The empty path, whose collection path is nil, makes it fail. |
| Collections.ColParent | google-cloud-firestore/lib/google/cloud/firestore/collection.rb:61-64 | A nested collection made by `col` has, as its parent, the document one segment up. |
| Collections.RootColParent | google-cloud-firestore/lib/google/cloud/firestore/collection.rb:65-67 | A root collection made by `col` has its database as its parent. |
| Collections.EnsureContext | google-cloud-firestore/lib/google/cloud/firestore/collection.rb:105-106 | Fails with "Must have active connection to service" exactly when there is no context. Otherwise it returns the context. |
| Collections.ContextDoc | google-cloud-firestore/lib/google/cloud/firestore/collection.rb:69-74 | Resolving a document path through a context succeeds exactly when the database's `doc` does, and keeps that context. |
| Collections.Doc | google-cloud-firestore/lib/google/cloud/firestore/collection.rb:69-74 | `doc` fails without a context. Otherwise it is the context's `doc` of `collection_path + "/" + id`, with the random id when none is given. |
| Collections.ColDoc | google-cloud-firestore/lib/google/cloud/firestore/collection.rb:69-74 | On a collection made by `col`, `doc(id)` asks for exactly `collection_path/id`. The document's path is the collection's path, then `/`, then the id. |
| Collections.DocUnder | google-cloud-firestore/lib/google/cloud/firestore/collection.rb:69-74 | When `collection_path/id` names a document, `doc(id)` yields the document at the collection's path followed by `/id`. |
| Collections.OneMoreSegment | google-cloud-firestore/lib/google/cloud/firestore/collection.rb:69-74 | Appending `/id` to a collection path adds exactly one segment. So the parity flips from collection to document. |
| FieldPaths.ParseFieldPath | google-cloud-firestore/test/google/cloud/firestore/generated/update_test.rb:92-111 | A key parses exactly when it has no empty dot-segment and no reserved character. An empty segment is reported first. A parsed key's segments are non-empty and dot-free, and they join back to the key. |
| FieldPaths.JoinedKey | google-cloud-firestore/test/google/cloud/firestore/generated/update_test.rb:211-238 | A key joined from plain segments parses into exactly those segments. |
| FieldPaths.BareKey | google-cloud-firestore/test/google/cloud/firestore/generated/update_test.rb:31-54 | A key of bare-identifier segments parses into them, and it is its own wire form. |
| FieldPaths.DecodeEncode | google-cloud-firestore/test/google/cloud/firestore/generated/update_test.rb:153-180 | Reading the backtick-quoted wire form back gives exactly the segments it was made from. |
| FieldPaths.EncodeInjective | google-cloud-firestore/test/google/cloud/firestore/generated/update_test.rb:153-180 | Different paths never share a wire form, so mask entries name their keys unambiguously. |
| Sentinels.NestedErrorSpec | google-cloud-firestore/test/google/cloud/firestore/generated/update_test.rb:340-365 | The sentinel check finds nothing exactly when the value is allowed. Each error it reports names a sentinel that really is there. "DELETE cannot be nested" needs a DELETE reached through maps alone, outside any array. The array errors need a DELETE or a SERVER_TIME under an array. |
| Sentinels.DeleteOnlyUnderArrays | google-cloud-firestore/test/google/cloud/firestore/generated/update_test.rb:349-365 | A top-level value whose DELETEs all sit under arrays, behind any number of maps, is refused with "cannot nest DELETE under arrays" when no SERVER_TIME is under an array. |
| Sentinels.ItemsErrorSpec | google-cloud-firestore/test/google/cloud/firestore/generated/update_test.rb:349-365 | Inside an array, any DELETE or SERVER_TIME is an error of its own kind, and nothing else is. |
| Sentinels.TopLevelErrorSpec | google-cloud-firestore/test/google/cloud/firestore/generated/update_test.rb:491-507 | A top-level value passes the check exactly when it is allowed. A bare DELETE is allowed at the top level. |
| Sentinels.StripUnchanged | google-cloud-firestore/test/google/cloud/firestore/generated/update_test.rb:182-209 | A value without SERVER_TIME is kept whole and yields no transform paths. |
| Sentinels.StripClean | google-cloud-firestore/test/google/cloud/firestore/generated/update_test.rb:456-489 | What stripping keeps holds no SERVER_TIME, provided none sat under an array. |
| Sentinels.StripGone | google-cloud-firestore/test/google/cloud/firestore/generated/update_test.rb:369-391 | A value that stripping removes entirely has at least one SERVER_TIME path. |
| Sentinels.ServerTimePathsSpec | google-cloud-firestore/test/google/cloud/firestore/generated/update_test.rb:417-489 | The collected paths are exactly the paths through maps that lead to a SERVER_TIME. |
| Nesting.ExtractFieldPaths | google-cloud-firestore/test/google/cloud/firestore/convert/extract_field_paths_test.rb:22-44 | The path list has one entry per input key, equal to the key, in input order. An empty map gives an empty map. |
| Nesting.LookupInsertSame | google-cloud-firestore/test/google/cloud/firestore/convert/extract_field_paths_test.rb:22-28 | After a value is stored at a path, that path holds the value. |
| Nesting.LookupInsertOther | google-cloud-firestore/test/google/cloud/firestore/convert/extract_field_paths_test.rb:22-28 | Storing at a path unrelated to another leaves what the other holds unchanged. |
| Nesting.LookupNest | google-cloud-firestore/test/google/cloud/firestore/convert/extract_field_paths_test.rb:26-27 | With unrelated paths, every value can be found, unchanged, at its own path. |
| Nesting.LookupNestAbsent | google-cloud-firestore/test/google/cloud/firestore/convert/extract_field_paths_test.rb:26-27 | A path unrelated to every stored path holds nothing. |
| Nesting.ExtractFieldPathsLookup | google-cloud-firestore/test/google/cloud/firestore/convert/extract_field_paths_test.rb:34-35 | Each input value reaches, unchanged, the slot named by its key's dot-segments, when no key's segments are a prefix of another's. |
| UpdatePlanner.KeysError | google-cloud-firestore/test/google/cloud/firestore/generated/update_test.rb:92-111 | No key error exactly when every key parses. A reported error is the parse error of some key. |
| UpdatePlanner.ValuesError | google-cloud-firestore/test/google/cloud/firestore/generated/update_test.rb:340-365 | No value error exactly when every top-level value is allowed. A reported error is some value's own sentinel error. |
| UpdatePlanner.Plan | google-cloud-firestore/test/google/cloud/firestore/generated/update_test.rb:92-151 | "data is required" exactly for the empty map. Planning succeeds exactly when the map is non-empty, every key parses, no key's path is a prefix of another's, and every value places its sentinels correctly. Each error traces back to an offending key or value. Success yields the writes of the data. |
| UpdatePlanner.PrefixKeys | google-cloud-firestore/test/google/cloud/firestore/generated/update_test.rb:123-151 | One key's segments are a prefix of another's exactly when the keys are equal, or the longer one starts with the shorter one and a dot. |
| UpdatePlanner.WritesShape | google-cloud-firestore/test/google/cloud/firestore/generated/update_test.rb:369-415 | A plan has one or two writes. The first carries the precondition, and it is the Update write exactly when the mask is non-empty. A second write is the Transform write, without a precondition. |
| UpdatePlanner.MaskSound | google-cloud-firestore/test/google/cloud/firestore/generated/update_test.rb:267-290 | Every mask entry is the wire form of a key whose value is not removed entirely. |
| UpdatePlanner.MaskComplete | google-cloud-firestore/test/google/cloud/firestore/generated/update_test.rb:267-290 | Every key whose value is not removed entirely is in the mask. |
| UpdatePlanner.MaskSpec | google-cloud-firestore/test/google/cloud/firestore/generated/update_test.rb:417-454 | A key is in the mask exactly when stripping SERVER_TIME leaves something of its value. So DELETE keys and kept keys are in the mask, and SERVER_TIME-only keys are not. |
| UpdatePlanner.TransformsSound | google-cloud-firestore/test/google/cloud/firestore/generated/update_test.rb:417-489 | Every transform is the full path of a SERVER_TIME inside some key's value. |
| UpdatePlanner.TransformsComplete | google-cloud-firestore/test/google/cloud/firestore/generated/update_test.rb:417-489 | The full path of every SERVER_TIME inside a key's value is among the transforms. |
| UpdatePlanner.DocEntriesOrigin | google-cloud-firestore/test/google/cloud/firestore/generated/update_test.rb:268-290 | Each document entry comes from a key with the same path, and it holds what that key keeps. |
| UpdatePlanner.DocEntriesComplete | google-cloud-firestore/test/google/cloud/firestore/generated/update_test.rb:268-290 | Every key that keeps a value has its document entry. |
| UpdatePlanner.DocumentHolds | google-cloud-firestore/test/google/cloud/firestore/generated/update_test.rb:313-338 | In the Update document, a key that keeps a value finds exactly that value, with SERVER_TIME stripped, at its path. |
| UpdatePlanner.DocumentOmits | google-cloud-firestore/test/google/cloud/firestore/generated/update_test.rb:292-311 | In the Update document, a DELETE key, or a key whose value is removed entirely, has nothing at its path. |
| Cases.Basic | google-cloud-firestore/test/google/cloud/firestore/generated/update_test.rb:31-54 | `{a: 1}` plans one Update write with document `{a: 1}`, mask `[a]` and `exists: true`. |
| Cases.Complex | google-cloud-firestore/test/google/cloud/firestore/generated/update_test.rb:56-90 | `{a: [1], b: {c: ["three", {d: true}]}}` plans one Update write with both values whole, mask `[a, b]` and `exists: true`. |
| Cases.InvalidCharacterKey | google-cloud-firestore/test/google/cloud/firestore/generated/update_test.rb:92-100 | `a~b` is refused with "invalid character". |
| Cases.EmptyComponent | google-cloud-firestore/test/google/cloud/firestore/generated/update_test.rb:102-111 | `a..b` is refused with "empty paths not allowed". |
| Cases.NoPaths | google-cloud-firestore/test/google/cloud/firestore/generated/update_test.rb:113-121 | The empty map is refused with "data is required". |
| Cases.PrefixFirst | google-cloud-firestore/test/google/cloud/firestore/generated/update_test.rb:123-131 | `a.b` before `a` is refused with "one field cannot be a prefix of another". |
| Cases.PrefixSecond | google-cloud-firestore/test/google/cloud/firestore/generated/update_test.rb:133-141 | `a` before `a.b` is refused with the same message. |
| Cases.PrefixMapValue | google-cloud-firestore/test/google/cloud/firestore/generated/update_test.rb:143-151 | A map value under `a` does not excuse `a.d`. |
| Cases.QuotedSegments | google-cloud-firestore/test/google/cloud/firestore/generated/update_test.rb:153-180 | `_0.1.+2` nests three levels, with mask ``_0.`1`.`+2` ``. |
| Cases.TopLevelKeysOnly | google-cloud-firestore/test/google/cloud/firestore/generated/update_test.rb:182-209 | `h.g` is split, the inner key `j.k` is not, and the mask is `[h.g]`. |
| Cases.SplitOnDots | google-cloud-firestore/test/google/cloud/firestore/generated/update_test.rb:211-238 | `a.b.c` nests three levels, with mask `[a.b.c]`. |
| Cases.LastUpdateTime | google-cloud-firestore/test/google/cloud/firestore/generated/update_test.rb:240-265 | A given update time replaces `exists: true` as the precondition. |
| Cases.DeleteKey | google-cloud-firestore/test/google/cloud/firestore/generated/update_test.rb:268-290 | `{a: 1, b: DELETE}` has document `{a: 1}` and mask `[a, b]`. |
| Cases.DeleteAlone | google-cloud-firestore/test/google/cloud/firestore/generated/update_test.rb:292-311 | `{a: DELETE}` has an empty document and mask `[a]`. |
| Cases.DeleteDotted | google-cloud-firestore/test/google/cloud/firestore/generated/update_test.rb:313-338 | `{a: 1, b.c: DELETE, b.d: 2}` has document `{a: 1, b: {d: 2}}` and mask `[a, b.c, b.d]`. The DELETE key stays in the mask, in input order, but is absent from the document. |
| Cases.DeleteNested | google-cloud-firestore/test/google/cloud/firestore/generated/update_test.rb:340-347 | DELETE inside a map is refused with "DELETE cannot be nested". |
| Cases.DeleteInsideArray | google-cloud-firestore/test/google/cloud/firestore/generated/update_test.rb:349-356 | DELETE in a map in an array is refused with "cannot nest DELETE under arrays". |
| Cases.DeleteInArray | google-cloud-firestore/test/google/cloud/firestore/generated/update_test.rb:358-365 | DELETE directly in an array is refused with the same message. |
| Cases.DeleteInArrayInMap | google-cloud-firestore/test/google/cloud/firestore/generated/update_test.rb:349-356 | `{a: {x: [DELETE]}}`, a DELETE in an array inside a map, is refused with "cannot nest DELETE under arrays", not as nested. |
| Cases.ServerTimeAlone | google-cloud-firestore/test/google/cloud/firestore/generated/update_test.rb:369-391 | `{a: SERVER_TIME}` plans only a Transform write of `a`, carrying `exists: true`. |
| Cases.ServerTimeDotted | google-cloud-firestore/test/google/cloud/firestore/generated/update_test.rb:393-415 | `a.b.c` set to SERVER_TIME plans only a Transform write of `a.b.c`. |
| Cases.MultipleServerTimes | google-cloud-firestore/test/google/cloud/firestore/generated/update_test.rb:417-454 | `a: 1`, `b: SERVER_TIME` and `c: {d: SERVER_TIME}` plan an Update write of `{a: 1}`, with mask `[a]`, then a Transform write of `[b, c.d]`. |
| Cases.NestedServerTime | google-cloud-firestore/test/google/cloud/firestore/generated/update_test.rb:456-489 | `{a: 1, b: {c: SERVER_TIME}}`: `b` is emptied and leaves the mask. The Update write holds `{a: 1}` with mask `[a]`, and the Transform write holds `b.c`. |
| Cases.ServerTimeInsideArray | google-cloud-firestore/test/google/cloud/firestore/generated/update_test.rb:491-498 | SERVER_TIME in a map in an array is refused with "cannot nest SERVER_TIME under arrays". |
| Cases.ServerTimeInArray | google-cloud-firestore/test/google/cloud/firestore/generated/update_test.rb:500-507 | SERVER_TIME directly in an array is refused with the same message. |
| Cases.ServerTimeWithData | google-cloud-firestore/test/google/cloud/firestore/generated/update_test.rb:509-542 | Data and a SERVER_TIME give the Update write, with the precondition, then the Transform write, without one. |
| Cases.SingleDelete | google-cloud-firestore/test/google/cloud/firestore/generated/update_test.rb:292-311 | Any single valid key set to DELETE plans one Update write with an empty document and the key as its mask. |
| Cases.SingleServerTime | google-cloud-firestore/test/google/cloud/firestore/generated/update_test.rb:369-415 | Any single valid key set to SERVER_TIME plans one Transform write of that key, carrying the precondition. |
| Cases.ExtractDotted | google-cloud-firestore/test/google/cloud/firestore/convert/extract_field_paths_test.rb:22-28 | `{"foo.bar" => "BAZ"}` gives `{"foo" => {"bar" => "BAZ"}}` and paths `["foo.bar"]`. |
| Cases.ExtractTopLevelOnly | google-cloud-firestore/test/google/cloud/firestore/convert/extract_field_paths_test.rb:30-36 | The inner key `baz.bif` is kept verbatim. |
| Cases.ExtractEmpty | google-cloud-firestore/test/google/cloud/firestore/convert/extract_field_paths_test.rb:38-44 | An empty map gives an empty map and no paths. |

## Left out

- The service calls `list_collections`, `get_documents`, `run_query`, `commit` and `begin_transaction`, with everything built on them: `cols`, `get_all`, `get` itself, and the streamed results. These are I/O over the network. `coalesce_get_argument` is modelled; the reads it feeds are not.
- The `batch`, `transaction` and `snapshot` blocks and the `create`/`set`/`update`/`delete` forwards (database.rb:119-151). These are lifecycle code around commit and rollback calls to the service.
- The query builder forwards (`select`, `where`, `order`, cursors; database.rb:153-196). They only forward to a `Query` class, which is not part of this model. A query is modelled only as "the query of a collection".
- `random_document_id` (collection.rb:99-101). It draws randomness, so the id is a parameter `randomId` of `Collections.Doc`.
- `@transaction_id ||= …` in `get` (database.rb:213), and the memoised `project`. Both are memoisation fed by service results.
- `ensure_context!` replacing a closed batch or transaction with its database (collection.rb:107-108). It depends on the `closed?` state of an object outside this model.
- `ensure_service!`, `project_id` on the database handle and `service`. These are plumbing around the client object.
- Collections.ContextDoc: a batch's or transaction's own `doc` is not part of this model. It is taken to resolve paths as its database does, keeping the batch or transaction as the new reference's context.
- Protobuf message construction and `time_to_timestamp`. Writes are plain datatypes, and a timestamp is an opaque value that is passed through.
- Cases.Complex: the double `2.5` in the test's array is left out, because floating point is not modelled. The case is stated with the integer and the map parts only.
- The planner's own source (`Convert`) is not part of this model. The conformance tests pin only inputs with a single fault, so these choices are the model's own:
  - the order of the checks is as listed above, and a key with both faults reports the empty segment;
  - the reserved characters are `~ * / [ ]`, although the tests show only `~`;
  - a backtick or backslash inside a quoted segment is escaped with a backslash.
  - FieldPaths.ParseFieldPath: a caller's key is split on every `.`, and a backtick is an ordinary character there. So `` `a.b` `` becomes the two segments `` `a `` and `` b` ``. Backtick-quoted input is not parsed as one quoted segment.
  - FieldPaths.ParseFieldPath: a leading or trailing dot (`.a`, `a.`) gives an empty segment and is refused with "empty paths not allowed". Ruby's plain `"a.".split(".")` would drop the trailing empty piece instead.
  - Sentinels.NestedError: within one value, the first misplaced sentinel in depth-first, key order decides the error. So `{a: {b: DELETE, c: [SERVER_TIME]}}` reports "DELETE cannot be nested".
  - UpdatePlanner.Plan: keys are compared as strings, and two keys with the same string count as a prefix conflict, because `Unrelated` covers equal paths too. Ruby's `:a` and `"a"` in one Hash are therefore refused with "one field cannot be a prefix of another".
- The wire form of a segment is bare exactly when it matches `[A-Za-z_][A-Za-z0-9_]*`. Decoding the wire form (`FieldPaths.DecodeFieldPath`) is not a client operation. It is the partner that shows the encoding loses nothing.
- A map value that stripping SERVER_TIME leaves empty is removed with it, so the key drops out of the mask. A map that was empty to begin with is kept as it is.
- Collections.Parent: for the empty path, `collection_path` is nil and Ruby raises a `NoMethodError`. The model returns the error value `NilCollectionPath`, whose message is worded as Ruby 3.2 and earlier word it ("undefined method `include?' for nil:NilClass"). From Ruby 3.3 on it reads "for nil" instead. `doc` on such a reference interpolates nil as the empty string, as Ruby does.
