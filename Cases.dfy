/**
 * The conformance cases of `update` and of `extract_field_paths`, each
 * stated on its own input and expected output.
 */
module Cases {
  import opened Wrappers
  import opened Splitting
  import opened Values
  import opened FieldPaths
  import opened Nesting
  import opened Sentinels
  import opened UpdatePlanner

  const DocumentName := "projects/projectID/databases/(default)/documents/C/d"

  /** A key without dots is a single segment. */
  lemma PlainKey(key: string)
    requires '.' !in key
    ensures Split(key, '.') == [key]
  {
    FindCharAbsent(key, '.');
  }

  /** A one-segment key that is a bare identifier. */
  lemma SimpleKey(key: string)
    requires IsBare(key)
    ensures Split(key, '.') == [key] && ParseFieldPath(key).Success? && EncodeFieldPath([key]) == key
  {
    BareKey(key, [key]);
  }

  /** A dotted key splits into the segments it was joined from. */
  lemma DottedKey(key: string, segments: seq<string>)
    requires |segments| >= 1 && forall k :: 0 <= k < |segments| ==> '.' !in segments[k]
    requires Join(segments, '.') == key
    ensures Split(key, '.') == segments
  {
    SplitJoin(segments, '.');
  }

  // ---------------------------------------------------------------------
  // Computing plans step by step

  /** `Plan` of data that passes every check, given its mask, transforms and document. */
  lemma PlanParts(data: seq<Field>, entries: seq<Entry>, updateTime: Option<Timestamp>,
                  mask: seq<string>, transforms: seq<string>, doc: seq<Field>)
    requires data != []
    requires forall k :: 0 <= k < |data| ==> ParseFieldPath(data[k].key).Success?
    requires Entries(data) == entries
    requires Unrelated(PathsOf(entries))
    requires forall k :: 0 <= k < |data| ==> TopLevelAllowed(data[k].value)
    requires Mask(entries) == mask && Transforms(entries) == transforms
    requires NonEmptyPaths(entries) && Document(entries) == doc
    ensures Plan(DocumentName, data, updateTime) == Success(
      (if mask != [] then [UpdateWrite(DocumentName, doc, mask, PreconditionFor(updateTime))] else [])
      + (if transforms != [] then
           [TransformWrite(DocumentName, transforms, if mask == [] then Some(PreconditionFor(updateTime)) else None)]
         else []))
  {
    assert PathsOf(entries) == SplitKeys(data);
  }

  /** Without server-time paths, the plan is one Update write carrying the precondition. */
  lemma WritesUpdateOnly(entries: seq<Entry>, updateTime: Option<Timestamp>, mask: seq<string>, doc: seq<Field>)
    requires NonEmptyPaths(entries)
    requires Mask(entries) == mask && mask != [] && Transforms(entries) == [] && Document(entries) == doc
    ensures Writes(DocumentName, entries, updateTime) == [UpdateWrite(DocumentName, doc, mask, PreconditionFor(updateTime))]
  {
    var w := UpdateWrite(DocumentName, doc, mask, PreconditionFor(updateTime));
    assert [w] + [] == [w];
  }

  /** With a mask and server-time paths, the Update write comes first and the Transform write has no precondition. */
  lemma WritesBoth(entries: seq<Entry>, updateTime: Option<Timestamp>, mask: seq<string>, transforms: seq<string>, doc: seq<Field>)
    requires NonEmptyPaths(entries)
    requires Mask(entries) == mask && mask != [] && Transforms(entries) == transforms && transforms != []
    requires Document(entries) == doc
    ensures Writes(DocumentName, entries, updateTime) ==
      [UpdateWrite(DocumentName, doc, mask, PreconditionFor(updateTime)), TransformWrite(DocumentName, transforms, None)]
  {
  }

  /** Two valid, unrelated keys with allowed values pass every check. */
  lemma ChecksTwo(k1: string, p1: seq<string>, v1: Value, k2: string, p2: seq<string>, v2: Value,
                  updateTime: Option<Timestamp>)
    requires ParseFieldPath(k1).Success? && Split(k1, '.') == p1
    requires ParseFieldPath(k2).Success? && Split(k2, '.') == p2
    requires !Prefix(p1, p2) && !Prefix(p2, p1)
    requires TopLevelAllowed(v1) && TopLevelAllowed(v2)
    ensures NonEmptyPaths([Entry(p1, v1), Entry(p2, v2)])
    ensures Plan(DocumentName, [Field(k1, v1), Field(k2, v2)], updateTime)
      == Success(Writes(DocumentName, [Entry(p1, v1), Entry(p2, v2)], updateTime))
  {
    var data := [Field(k1, v1), Field(k2, v2)];
    var entries := [Entry(p1, v1), Entry(p2, v2)];
    assert Entries(data) == entries by {
      var e := Entries(data);
      assert e[0] == entries[0] && e[1] == entries[1];
    }
    assert Unrelated(SplitKeys(data)) by {
      var paths := SplitKeys(data);
      assert paths[0] == p1 && paths[1] == p2;
    }
    assert forall k :: 0 <= k < |data| ==> ParseFieldPath(data[k].key).Success? && TopLevelAllowed(data[k].value) by {
      assert data[0].key == k1 && data[1].key == k2 && data[0].value == v1 && data[1].value == v2;
    }
    assert Plan(DocumentName, data, updateTime).Success?;
  }

  /** Two valid, unrelated keys without server-time paths: one Update write with the given mask and document. */
  lemma UpdateOnlyTwo(k1: string, p1: seq<string>, v1: Value, k2: string, p2: seq<string>, v2: Value,
                      updateTime: Option<Timestamp>, mask: seq<string>, doc: seq<Field>)
    requires ParseFieldPath(k1).Success? && Split(k1, '.') == p1
    requires ParseFieldPath(k2).Success? && Split(k2, '.') == p2
    requires !Prefix(p1, p2) && !Prefix(p2, p1)
    requires TopLevelAllowed(v1) && TopLevelAllowed(v2)
    requires p1 != [] && p2 != []
    requires Mask([Entry(p1, v1), Entry(p2, v2)]) == mask && mask != []
    requires Transforms([Entry(p1, v1), Entry(p2, v2)]) == []
    requires Document([Entry(p1, v1), Entry(p2, v2)]) == doc
    ensures Plan(DocumentName, [Field(k1, v1), Field(k2, v2)], updateTime)
      == Success([UpdateWrite(DocumentName, doc, mask, PreconditionFor(updateTime))])
  {
    ChecksTwo(k1, p1, v1, k2, p2, v2, updateTime);
    WritesUpdateOnly([Entry(p1, v1), Entry(p2, v2)], updateTime, mask, doc);
  }

  /** Three valid, pairwise unrelated keys with allowed values pass every check. */
  lemma ChecksThree(k1: string, p1: seq<string>, v1: Value, k2: string, p2: seq<string>, v2: Value,
                    k3: string, p3: seq<string>, v3: Value, updateTime: Option<Timestamp>)
    requires ParseFieldPath(k1).Success? && Split(k1, '.') == p1
    requires ParseFieldPath(k2).Success? && Split(k2, '.') == p2
    requires ParseFieldPath(k3).Success? && Split(k3, '.') == p3
    requires Unrelated([p1, p2, p3])
    requires TopLevelAllowed(v1) && TopLevelAllowed(v2) && TopLevelAllowed(v3)
    ensures NonEmptyPaths([Entry(p1, v1), Entry(p2, v2), Entry(p3, v3)])
    ensures Plan(DocumentName, [Field(k1, v1), Field(k2, v2), Field(k3, v3)], updateTime)
      == Success(Writes(DocumentName, [Entry(p1, v1), Entry(p2, v2), Entry(p3, v3)], updateTime))
  {
    var data := [Field(k1, v1), Field(k2, v2), Field(k3, v3)];
    var entries := [Entry(p1, v1), Entry(p2, v2), Entry(p3, v3)];
    assert Entries(data) == entries by {
      var e := Entries(data);
      assert e[0] == entries[0] && e[1] == entries[1] && e[2] == entries[2];
    }
    assert Unrelated(SplitKeys(data)) by {
      var paths := SplitKeys(data);
      assert paths[0] == p1 && paths[1] == p2 && paths[2] == p3;
      assert paths == [p1, p2, p3];
    }
    assert forall k :: 0 <= k < |data| ==> ParseFieldPath(data[k].key).Success? && TopLevelAllowed(data[k].value) by {
      assert data[0].key == k1 && data[1].key == k2 && data[2].key == k3;
      assert data[0].value == v1 && data[1].value == v2 && data[2].value == v3;
    }
    assert Plan(DocumentName, data, updateTime).Success?;
  }

  lemma MaskOne(e: Entry)
    ensures Mask([e]) == if Strip(e.value).Some? then [EncodeFieldPath(e.path)] else []
  {
    assert [e][1..] == [];
  }

  lemma TransformsOne(e: Entry)
    ensures Transforms([e]) == EncodeUnder(e.path, ServerTimePaths(e.value))
  {
    assert [e][1..] == [];
  }

  lemma DocEntriesOne(e: Entry)
    ensures DocEntries([e]) == if Kept(e.value).Some? then [Entry(e.path, Kept(e.value).value)] else []
  {
    assert [e][1..] == [];
  }

  /** The mask of two entries is that of each, in order. */
  lemma MaskTwo(e1: Entry, e2: Entry)
    ensures Mask([e1, e2]) == Mask([e1]) + Mask([e2])
  {
    assert [e1, e2] == [e1] + [e2];
    MaskConcat([e1], [e2]);
  }

  /** The transforms of two entries are those of each, in order. */
  lemma TransformsTwo(e1: Entry, e2: Entry)
    ensures Transforms([e1, e2]) == Transforms([e1]) + Transforms([e2])
  {
    assert [e1, e2] == [e1] + [e2];
    TransformsConcat([e1], [e2]);
  }

  /** The kept entries of two entries are those of each, in order. */
  lemma DocEntriesTwo(e1: Entry, e2: Entry)
    ensures DocEntries([e1, e2]) == DocEntries([e1]) + DocEntries([e2])
  {
    assert [e1, e2] == [e1] + [e2];
    DocEntriesConcat([e1], [e2]);
  }

  /** The mask of three entries is that of each, in order. */
  lemma MaskThree(e1: Entry, e2: Entry, e3: Entry)
    ensures Mask([e1, e2, e3]) == Mask([e1]) + Mask([e2]) + Mask([e3])
  {
    assert [e1, e2, e3] == [e1, e2] + [e3];
    MaskTwo(e1, e2);
    MaskConcat([e1, e2], [e3]);
  }

  /** The transforms of three entries are those of each, in order. */
  lemma TransformsThree(e1: Entry, e2: Entry, e3: Entry)
    ensures Transforms([e1, e2, e3]) == Transforms([e1]) + Transforms([e2]) + Transforms([e3])
  {
    assert [e1, e2, e3] == [e1, e2] + [e3];
    TransformsTwo(e1, e2);
    TransformsConcat([e1, e2], [e3]);
  }

  /** The kept entries of three entries are those of each, in order. */
  lemma DocEntriesThree(e1: Entry, e2: Entry, e3: Entry)
    ensures DocEntries([e1, e2, e3]) == DocEntries([e1]) + DocEntries([e2]) + DocEntries([e3])
  {
    assert [e1, e2, e3] == [e1, e2] + [e3];
    DocEntriesTwo(e1, e2);
    DocEntriesConcat([e1, e2], [e3]);
  }

  /** A value without SERVER_TIME (DELETE included) puts its path into the mask. */
  lemma PlainMask(e: Entry)
    requires !Mentions(e.value, ServerTimeSentinel)
    ensures Mask([e]) == [EncodeFieldPath(e.path)]
  {
    StripUnchanged(e.value);
    MaskOne(e);
  }

  /** A value without SERVER_TIME (DELETE included) has no transforms. */
  lemma PlainTransforms(e: Entry)
    requires !Mentions(e.value, ServerTimeSentinel)
    ensures Transforms([e]) == []
  {
    StripUnchanged(e.value);
    TransformsOne(e);
  }

  /** A value without sentinels goes into the document as it is. */
  lemma PlainKept(e: Entry)
    requires !e.value.Delete? && !Mentions(e.value, ServerTimeSentinel)
    ensures DocEntries([e]) == [e]
  {
    StripUnchanged(e.value);
    DocEntriesOne(e);
  }

  /** A DELETE puts nothing into the document. */
  lemma DeleteKept(path: seq<string>)
    ensures DocEntries([Entry(path, Delete)]) == []
  {
    DocEntriesOne(Entry(path, Delete));
  }

  /** A SERVER_TIME puts nothing into the mask. */
  lemma ServerTimeMask(path: seq<string>)
    ensures Mask([Entry(path, ServerTime)]) == []
  {
    MaskOne(Entry(path, ServerTime));
  }

  /** A SERVER_TIME is one transform, at its own path. */
  lemma ServerTimeTransforms(path: seq<string>)
    ensures Transforms([Entry(path, ServerTime)]) == [EncodeFieldPath(path)]
  {
    TransformsOne(Entry(path, ServerTime));
    assert path + [] == path;
  }

  /** A SERVER_TIME puts nothing into the document. */
  lemma ServerTimeKept(path: seq<string>)
    ensures DocEntries([Entry(path, ServerTime)]) == []
  {
    DocEntriesOne(Entry(path, ServerTime));
  }

  /** A map holding one SERVER_TIME and nothing else is stripped away, leaving one server-time path. */
  lemma ServerTimeInMap(key: string)
    ensures Strip(MapValue([Field(key, ServerTime)])) == None
    ensures ServerTimePaths(MapValue([Field(key, ServerTime)])) == [[key]]
  {
    var fields := [Field(key, ServerTime)];
    assert fields[1..] == [];
    assert StripFields(fields) == [];
    assert [key] + [] == [key];
    assert Under(key, [[]]) == [[key]];
    assert FieldsServerTimePaths(fields) == Under(key, [[]]) + FieldsServerTimePaths([]);
  }

  /** Such a map puts nothing into the mask. */
  lemma InMapMask(path: seq<string>, key: string)
    ensures Mask([Entry(path, MapValue([Field(key, ServerTime)]))]) == []
  {
    ServerTimeInMap(key);
    MaskOne(Entry(path, MapValue([Field(key, ServerTime)])));
  }

  /** Such a map is one transform, at the path extended by its key. */
  lemma InMapTransforms(path: seq<string>, key: string)
    ensures Transforms([Entry(path, MapValue([Field(key, ServerTime)]))]) == [EncodeFieldPath(path + [key])]
  {
    ServerTimeInMap(key);
    TransformsOne(Entry(path, MapValue([Field(key, ServerTime)])));
  }

  /** Such a map puts nothing into the document. */
  lemma InMapKept(path: seq<string>, key: string)
    ensures DocEntries([Entry(path, MapValue([Field(key, ServerTime)]))]) == []
  {
    ServerTimeInMap(key);
    DocEntriesOne(Entry(path, MapValue([Field(key, ServerTime)])));
  }

  /** Paths that differ in their first segment are not prefixes of each other. */
  lemma Apart(p: seq<string>, q: seq<string>)
    requires p != [] && q != [] && p[0] != q[0]
    ensures !Prefix(p, q) && !Prefix(q, p)
  {
  }

  lemma NestOne(p: seq<string>, v: Value)
    requires p != []
    ensures Nest([p], [v]) == Insert([], p, v)
  {
    assert [p][..0] == [] && [v][..0] == [];
  }

  lemma NestTwo(p1: seq<string>, v1: Value, p2: seq<string>, v2: Value)
    requires p1 != [] && p2 != []
    ensures Nest([p1, p2], [v1, v2]) == Insert(Insert([], p1, v1), p2, v2)
  {
    assert [p1, p2][..1] == [p1] && [v1, v2][..1] == [v1];
    NestOne(p1, v1);
  }

  /** The document of one kept entry. */
  lemma DocumentOne(e: Entry)
    requires e.path != [] && DocEntries([e]) == [e]
    ensures Document([e]) == Insert([], e.path, e.value)
  {
    assert PathsOf([e]) == [e.path] && EntryValues([e]) == [e.value];
    NestOne(e.path, e.value);
  }

  /** Storing under a key the map does not have appends one entry, nested along the rest of the path. */
  lemma InsertAppend(fields: seq<Field>, path: seq<string>, v: Value)
    requires path != [] && FindKey(fields, path[0]) == |fields|
    ensures Insert(fields, path, v) == fields + [Field(path[0], if |path| == 1 then v else MapValue(Insert([], path[1..], v)))]
  {
  }

  /** A one-segment path of a bare identifier is written as it is. */
  lemma EncodedOne(x: string)
    requires IsBare(x)
    ensures EncodeFieldPath([x]) == x
  {
    assert QuoteAll([x]) == [x];
  }

  /** A two-segment path of bare identifiers is written with a plain dot. */
  lemma EncodedTwo(x: string, y: string)
    requires IsBare(x) && IsBare(y)
    ensures EncodeFieldPath([x, y]) == x + "." + y
  {
    var q := QuoteAll([x, y]);
    assert q[0] == x && q[1] == y;
    assert q == [x, y];
    assert q[1..] == [y];
    assert Join(q, '.') == x + "." + y;
  }

  /** A key of two bare segments. */
  lemma TwoBare(x: string, y: string)
    requires IsBare(x) && IsBare(y)
    ensures Split(x + "." + y, '.') == [x, y] && ParseFieldPath(x + "." + y).Success?
    ensures EncodeFieldPath([x, y]) == x + "." + y
  {
    assert [x, y][1..] == [y];
    BareKey(x + "." + y, [x, y]);
  }

  /** A path of bare segments is written with plain dots. */
  lemma EncodeBare(segments: seq<string>)
    requires forall k :: 0 <= k < |segments| ==> IsBare(segments[k])
    ensures EncodeFieldPath(segments) == Join(segments, '.')
  {
    assert QuoteAll(segments) == segments;
  }

  /** The checks a single valid key with an allowed value passes. */
  lemma SingleChecks(key: string, segments: seq<string>, v: Value)
    requires ParseFieldPath(key).Success? && Split(key, '.') == segments
    requires TopLevelAllowed(v)
    ensures Entries([Field(key, v)]) == [Entry(segments, v)]
    ensures Unrelated(PathsOf([Entry(segments, v)]))
    ensures NonEmptyPaths([Entry(segments, v)])
  {
  }

  /** One key whose value holds no sentinel: one Update write storing the value at the key's path. */
  lemma SingleKey(key: string, segments: seq<string>, v: Value, updateTime: Option<Timestamp>)
    requires ParseFieldPath(key).Success? && Split(key, '.') == segments
    requires !Mentions(v, DeleteSentinel) && !Mentions(v, ServerTimeSentinel)
    ensures Plan(DocumentName, [Field(key, v)], updateTime) ==
      Success([UpdateWrite(DocumentName, Insert([], segments, v), [EncodeFieldPath(segments)], PreconditionFor(updateTime))])
  {
    var e := Entry(segments, v);
    UnderArrayMentions(v, ServerTimeSentinel);
    SingleChecks(key, segments, v);
    PlainMask(e);
    PlainTransforms(e);
    PlainKept(e);
    DocumentOne(e);
    PlanParts([Field(key, v)], [e], updateTime, [EncodeFieldPath(segments)], [], Insert([], segments, v));
    var w := UpdateWrite(DocumentName, Insert([], segments, v), [EncodeFieldPath(segments)], PreconditionFor(updateTime));
    assert [w] + [] == [w];
  }

  /** One key set to DELETE: an Update write with an empty document and the key's path as mask. */
  lemma SingleDelete(key: string, segments: seq<string>, updateTime: Option<Timestamp>)
    requires ParseFieldPath(key).Success? && Split(key, '.') == segments
    ensures Plan(DocumentName, [Field(key, Delete)], updateTime) ==
      Success([UpdateWrite(DocumentName, [], [EncodeFieldPath(segments)], PreconditionFor(updateTime))])
  {
    var e := Entry(segments, Delete);
    SingleChecks(key, segments, Delete);
    PlainMask(e);
    PlainTransforms(e);
    DeleteKept(segments);
    assert PathsOf([]) == [] && EntryValues([]) == [];
    PlanParts([Field(key, Delete)], [e], updateTime, [EncodeFieldPath(segments)], [], []);
    var w := UpdateWrite(DocumentName, [], [EncodeFieldPath(segments)], PreconditionFor(updateTime));
    assert [w] + [] == [w];
  }

  /** One key set to SERVER_TIME: a lone Transform write, which carries the precondition. */
  lemma SingleServerTime(key: string, segments: seq<string>, updateTime: Option<Timestamp>)
    requires ParseFieldPath(key).Success? && Split(key, '.') == segments
    ensures Plan(DocumentName, [Field(key, ServerTime)], updateTime) ==
      Success([TransformWrite(DocumentName, [EncodeFieldPath(segments)], Some(PreconditionFor(updateTime)))])
  {
    var e := Entry(segments, ServerTime);
    SingleChecks(key, segments, ServerTime);
    ServerTimeMask(segments);
    ServerTimeTransforms(segments);
    ServerTimeKept(segments);
    PlanParts([Field(key, ServerTime)], [e], updateTime, [], [EncodeFieldPath(segments)], Document([e]));
    var w := TransformWrite(DocumentName, [EncodeFieldPath(segments)], Some(PreconditionFor(updateTime)));
    assert [] + [w] == [w];
  }

  /** One valid key whose value is refused: the value's error. */
  lemma SingleRefused(key: string, v: Value, error: UpdateError, updateTime: Option<Timestamp>)
    requires ParseFieldPath(key).Success? && TopLevelError(v) == Some(error)
    ensures Plan(DocumentName, [Field(key, v)], updateTime) == Failure(error)
  {
    var data := [Field(key, v)];
    assert KeysError(data) == None;
    assert Unrelated(PathsOf(Entries(data)));
    assert ValuesError(data) == Some(error);
  }

  /** Two valid, unrelated keys with a mask and server-time paths: an Update write, then a Transform write. */
  lemma BothTwo(k1: string, p1: seq<string>, v1: Value, k2: string, p2: seq<string>, v2: Value,
                updateTime: Option<Timestamp>, mask: seq<string>, transforms: seq<string>, doc: seq<Field>)
    requires ParseFieldPath(k1).Success? && Split(k1, '.') == p1
    requires ParseFieldPath(k2).Success? && Split(k2, '.') == p2
    requires !Prefix(p1, p2) && !Prefix(p2, p1)
    requires TopLevelAllowed(v1) && TopLevelAllowed(v2)
    requires p1 != [] && p2 != []
    requires Mask([Entry(p1, v1), Entry(p2, v2)]) == mask && mask != []
    requires Transforms([Entry(p1, v1), Entry(p2, v2)]) == transforms && transforms != []
    requires Document([Entry(p1, v1), Entry(p2, v2)]) == doc
    ensures Plan(DocumentName, [Field(k1, v1), Field(k2, v2)], updateTime)
      == Success([UpdateWrite(DocumentName, doc, mask, PreconditionFor(updateTime)),
                  TransformWrite(DocumentName, transforms, None)])
  {
    ChecksTwo(k1, p1, v1, k2, p2, v2, updateTime);
    WritesBoth([Entry(p1, v1), Entry(p2, v2)], updateTime, mask, transforms, doc);
  }

  /** Three valid, pairwise unrelated keys without server-time paths: one Update write. */
  lemma UpdateOnlyThree(k1: string, p1: seq<string>, v1: Value, k2: string, p2: seq<string>, v2: Value,
                        k3: string, p3: seq<string>, v3: Value,
                        updateTime: Option<Timestamp>, mask: seq<string>, doc: seq<Field>)
    requires ParseFieldPath(k1).Success? && Split(k1, '.') == p1
    requires ParseFieldPath(k2).Success? && Split(k2, '.') == p2
    requires ParseFieldPath(k3).Success? && Split(k3, '.') == p3
    requires Unrelated([p1, p2, p3])
    requires TopLevelAllowed(v1) && TopLevelAllowed(v2) && TopLevelAllowed(v3)
    requires p1 != [] && p2 != [] && p3 != []
    requires Mask([Entry(p1, v1), Entry(p2, v2), Entry(p3, v3)]) == mask && mask != []
    requires Transforms([Entry(p1, v1), Entry(p2, v2), Entry(p3, v3)]) == []
    requires Document([Entry(p1, v1), Entry(p2, v2), Entry(p3, v3)]) == doc
    ensures Plan(DocumentName, [Field(k1, v1), Field(k2, v2), Field(k3, v3)], updateTime)
      == Success([UpdateWrite(DocumentName, doc, mask, PreconditionFor(updateTime))])
  {
    ChecksThree(k1, p1, v1, k2, p2, v2, k3, p3, v3, updateTime);
    WritesUpdateOnly([Entry(p1, v1), Entry(p2, v2), Entry(p3, v3)], updateTime, mask, doc);
  }

  /** Three valid, pairwise unrelated keys with a mask and server-time paths: an Update write, then a Transform write. */
  lemma BothThree(k1: string, p1: seq<string>, v1: Value, k2: string, p2: seq<string>, v2: Value,
                  k3: string, p3: seq<string>, v3: Value,
                  updateTime: Option<Timestamp>, mask: seq<string>, transforms: seq<string>, doc: seq<Field>)
    requires ParseFieldPath(k1).Success? && Split(k1, '.') == p1
    requires ParseFieldPath(k2).Success? && Split(k2, '.') == p2
    requires ParseFieldPath(k3).Success? && Split(k3, '.') == p3
    requires Unrelated([p1, p2, p3])
    requires TopLevelAllowed(v1) && TopLevelAllowed(v2) && TopLevelAllowed(v3)
    requires p1 != [] && p2 != [] && p3 != []
    requires Mask([Entry(p1, v1), Entry(p2, v2), Entry(p3, v3)]) == mask && mask != []
    requires Transforms([Entry(p1, v1), Entry(p2, v2), Entry(p3, v3)]) == transforms && transforms != []
    requires Document([Entry(p1, v1), Entry(p2, v2), Entry(p3, v3)]) == doc
    ensures Plan(DocumentName, [Field(k1, v1), Field(k2, v2), Field(k3, v3)], updateTime)
      == Success([UpdateWrite(DocumentName, doc, mask, PreconditionFor(updateTime)),
                  TransformWrite(DocumentName, transforms, None)])
  {
    ChecksThree(k1, p1, v1, k2, p2, v2, k3, p3, v3, updateTime);
    WritesBoth([Entry(p1, v1), Entry(p2, v2), Entry(p3, v3)], updateTime, mask, transforms, doc);
  }

  // ---------------------------------------------------------------------
  // update: successful plans

  /** "basic": `{"a": 1}` updates `a` under the default precondition. */
  lemma Basic()
    ensures Plan(DocumentName, [Field("a", IntValue(1))], None)
      == Success([UpdateWrite(DocumentName, [Field("a", IntValue(1))], ["a"], Exists(true))])
  {
    SimpleKey("a");
    SingleKey("a", ["a"], IntValue(1), None);
    InsertAppend([], ["a"], IntValue(1));
    assert Insert([], ["a"], IntValue(1)) == [Field("a", IntValue(1))];
    assert PreconditionFor(None) == Exists(true);
  }

  /** "last-update-time precondition": the given update time replaces `exists: true`. */
  lemma LastUpdateTime(t: Timestamp)
    ensures Plan(DocumentName, [Field("a", IntValue(1))], Some(t))
      == Success([UpdateWrite(DocumentName, [Field("a", IntValue(1))], ["a"], UpdateTime(t))])
  {
    SimpleKey("a");
    SingleKey("a", ["a"], IntValue(1), Some(t));
    InsertAppend([], ["a"], IntValue(1));
    assert Insert([], ["a"], IntValue(1)) == [Field("a", IntValue(1))];
    assert PreconditionFor(Some(t)) == UpdateTime(t);
  }

  /** The key `a.b.c`: three bare segments. */
  lemma KeyABC()
    ensures Split("a.b.c", '.') == ["a", "b", "c"] && ParseFieldPath("a.b.c").Success?
    ensures EncodeFieldPath(["a", "b", "c"]) == "a.b.c"
  {
    var path := ["a", "b", "c"];
    assert Join(path[2..], '.') == "c";
    assert Join(path[1..], '.') == "b.c";
    assert Join(path, '.') == "a.b.c";
    assert IsBare(path[0]) && IsBare(path[1]) && IsBare(path[2]);
    BareKey("a.b.c", path);
  }

  /** Storing at a one-segment path in an empty document. */
  lemma InsertOne(x: string, v: Value)
    ensures Insert([], [x], v) == [Field(x, v)]
  {
    InsertAppend([], [x], v);
  }

  /** Storing at a two-segment path in an empty document. */
  lemma InsertTwo(x: string, y: string, v: Value)
    ensures Insert([], [x, y], v) == [Field(x, MapValue([Field(y, v)]))]
  {
    InsertOne(y, v);
    assert [x, y][1..] == [y];
    InsertAppend([], [x, y], v);
  }

  /** Storing at a three-segment path in an empty document. */
  lemma InsertThree(x: string, y: string, z: string, v: Value)
    ensures Insert([], [x, y, z], v) == [Field(x, MapValue([Field(y, MapValue([Field(z, v)]))]))]
  {
    InsertTwo(y, z, v);
    assert [x, y, z][1..] == [y, z];
    InsertAppend([], [x, y, z], v);
  }

  /** "split on dots": `{"a.b.c": 1}` nests three levels and masks `a.b.c`. */
  lemma SplitOnDots()
    ensures Plan(DocumentName, [Field("a.b.c", IntValue(1))], None)
      == Success([UpdateWrite(DocumentName,
                   [Field("a", MapValue([Field("b", MapValue([Field("c", IntValue(1))]))]))],
                   ["a.b.c"], Exists(true))])
  {
    SplitOnDotsPlan();
    InsertThree("a", "b", "c", IntValue(1));
  }

  /** The plan for `a.b.c`, before the nested document is spelled out. */
  lemma SplitOnDotsPlan()
    ensures Plan(DocumentName, [Field("a.b.c", IntValue(1))], None)
      == Success([UpdateWrite(DocumentName, Insert([], ["a", "b", "c"], IntValue(1)), ["a.b.c"], Exists(true))])
  {
    KeyABC();
    SingleKey("a.b.c", ["a", "b", "c"], IntValue(1), None);
  }

  /** The key `h.g`: two bare segments. */
  lemma KeyHG()
    ensures Split("h.g", '.') == ["h", "g"] && ParseFieldPath("h.g").Success?
    ensures EncodeFieldPath(["h", "g"]) == "h.g"
  {
    var path := ["h", "g"];
    assert Join(path[1..], '.') == "g";
    assert Join(path, '.') == "h.g";
    assert IsBare(path[0]) && IsBare(path[1]);
    BareKey("h.g", path);
  }

  /** "Split on dots for top-level keys only": the inner key `j.k` stays whole. */
  lemma TopLevelKeysOnly()
    ensures Plan(DocumentName, [Field("h.g", MapValue([Field("j.k", IntValue(6))]))], None)
      == Success([UpdateWrite(DocumentName,
                   [Field("h", MapValue([Field("g", MapValue([Field("j.k", IntValue(6))]))]))],
                   ["h.g"], Exists(true))])
  {
    var v := MapValue([Field("j.k", IntValue(6))]);
    var path := ["h", "g"];
    KeyHG();
    assert path[1..] == ["g"];
    InsertAppend([], ["g"], v);
    assert Insert([], ["g"], v) == [Field("g", v)];
    InsertAppend([], path, v);
    assert Insert([], path, v) == [Field("h", MapValue([Field("g", v)]))];
    assert !Mentions(v, DeleteSentinel) && !Mentions(v, ServerTimeSentinel);
    SingleKey("h.g", path, v, None);
    assert PreconditionFor(None) == Exists(true);
  }

  /** The key `_0.1.+2` splits into `_0`, `1` and `+2`. */
  lemma KeyQuoted()
    ensures Split("_0.1.+2", '.') == ["_0", "1", "+2"] && ParseFieldPath("_0.1.+2").Success?
  {
    var path := ["_0", "1", "+2"];
    assert Join(path[2..], '.') == "+2";
    assert Join(path[1..], '.') == "1.+2";
    assert Join(path, '.') == "_0.1.+2";
    assert PlainSegment(path[0]) && PlainSegment(path[1]) && PlainSegment(path[2]);
    JoinedKey("_0.1.+2", path);
  }

  /** A segment that is not a bare identifier and holds no backtick or backslash is only wrapped in backticks. */
  lemma QuotedPlain(segment: string)
    requires !IsBare(segment)
    requires forall i :: 0 <= i < |segment| ==> segment[i] != '`' && segment[i] != '\\'
    ensures QuoteSegment(segment) == "`" + segment + "`"
  {
    assert Escape(segment) == segment by { EscapeNothing(segment); }
  }

  lemma {:induction false} EscapeNothing(segment: string)
    requires forall i :: 0 <= i < |segment| ==> segment[i] != '`' && segment[i] != '\\'
    ensures Escape(segment) == segment
  {
    if segment != [] {
      EscapeNothing(segment[1..]);
      assert [segment[0]] + segment[1..] == segment;
    }
  }

  /** The wire form of `_0.1.+2`: the last two segments need backticks. */
  lemma KeyQuotedEncoded()
    ensures EncodeFieldPath(["_0", "1", "+2"]) == "_0.`1`.`+2`"
  {
    var path := ["_0", "1", "+2"];
    assert IsBare("_0") && !IsBare("1") && !IsBare("+2");
    QuotedPlain("1");
    QuotedPlain("+2");
    var quoted := ["_0", "`1`", "`+2`"];
    assert QuoteSegment(path[0]) == quoted[0];
    assert QuoteSegment(path[1]) == quoted[1];
    assert QuoteSegment(path[2]) == quoted[2];
    assert QuoteAll(path) == quoted;
    assert Join(quoted[2..], '.') == "`+2`";
    assert Join(quoted[1..], '.') == "`1`.`+2`";
  }

  /** "non-letter starting chars are quoted, except underscore": `_0.1.+2` is masked as ``_0.`1`.`+2` ``. */
  lemma QuotedSegments()
    ensures Plan(DocumentName, [Field("_0.1.+2", IntValue(1))], None)
      == Success([UpdateWrite(DocumentName,
                   [Field("_0", MapValue([Field("1", MapValue([Field("+2", IntValue(1))]))]))],
                   ["_0.`1`.`+2`"], Exists(true))])
  {
    var path := ["_0", "1", "+2"];
    KeyQuoted();
    KeyQuotedEncoded();
    InsertThree("_0", "1", "+2", IntValue(1));
    SingleKey("_0.1.+2", path, IntValue(1), None);
    assert PreconditionFor(None) == Exists(true);
  }

  /** Values without SERVER_TIME under `a` and `b`: both keys are masked and nothing is transformed. */
  lemma PlainMaskAB(ea: Entry, eb: Entry)
    requires ea.path == ["a"] && eb.path == ["b"]
    requires !Mentions(ea.value, ServerTimeSentinel) && !Mentions(eb.value, ServerTimeSentinel)
    ensures Mask([ea, eb]) == ["a", "b"] && Transforms([ea, eb]) == []
  {
    assert IsBare("a") && IsBare("b");
    EncodedOne("a");
    EncodedOne("b");
    MaskTwo(ea, eb);
    PlainMask(ea);
    PlainMask(eb);
    TransformsTwo(ea, eb);
    PlainTransforms(ea);
    PlainTransforms(eb);
  }

  /** `{"a": 1}` followed by an entry that puts nothing into the document. */
  lemma DocumentOnlyA(ea: Entry, eb: Entry)
    requires ea == Entry(["a"], IntValue(1)) && DocEntries([eb]) == []
    requires NonEmptyPaths([ea, eb])
    ensures Document([ea, eb]) == [Field("a", IntValue(1))]
  {
    DocEntriesTwo(ea, eb);
    PlainKept(ea);
    DocumentOne(ea);
    InsertOne("a", IntValue(1));
  }

  /** `{"a": 1}` followed by two entries that put nothing into the document. */
  lemma DocumentOnlyAOfThree(ea: Entry, eb: Entry, ec: Entry)
    requires ea == Entry(["a"], IntValue(1)) && DocEntries([eb]) == [] && DocEntries([ec]) == []
    requires NonEmptyPaths([ea, eb, ec])
    ensures Document([ea, eb, ec]) == [Field("a", IntValue(1))]
  {
    DocEntriesThree(ea, eb, ec);
    PlainKept(ea);
    assert DocEntries([ea, eb, ec]) == [ea];
    DocumentOne(ea);
    InsertOne("a", IntValue(1));
  }

  /**
   * "complex", without its floating-point element: arrays and maps are kept
   * as they are, and only the top-level keys enter the mask.
   */
  lemma Complex()
    ensures var a := ArrayValue([IntValue(1)]);
      var b := MapValue([Field("c", ArrayValue([StringValue("three"), MapValue([Field("d", BoolValue(true))])]))]);
      Plan(DocumentName, [Field("a", a), Field("b", b)], None)
        == Success([UpdateWrite(DocumentName, [Field("a", a), Field("b", b)], ["a", "b"], Exists(true))])
  {
    var a := ArrayValue([IntValue(1)]);
    var b := MapValue([Field("c", ArrayValue([StringValue("three"), MapValue([Field("d", BoolValue(true))])]))]);
    var ea := Entry(["a"], a);
    var eb := Entry(["b"], b);
    KeysAB();
    ComplexParts(ea, eb);
    UpdateOnlyTwo("a", ["a"], a, "b", ["b"], b, None, ["a", "b"], [Field("a", a), Field("b", b)]);
    assert PreconditionFor(None) == Exists(true);
  }

  /** The keys `a` and `b`: one bare segment each, neither a prefix of the other. */
  lemma KeysAB()
    ensures ParseFieldPath("a").Success? && Split("a", '.') == ["a"]
    ensures ParseFieldPath("b").Success? && Split("b", '.') == ["b"]
    ensures !Prefix(["a"], ["b"]) && !Prefix(["b"], ["a"])
  {
    SimpleKey("a");
    SimpleKey("b");
    Apart(["a"], ["b"]);
  }

  /** The values of "complex" are allowed; its mask, transforms and document. */
  lemma ComplexParts(ea: Entry, eb: Entry)
    requires ea == Entry(["a"], ArrayValue([IntValue(1)]))
    requires eb == Entry(["b"], MapValue([Field("c", ArrayValue([StringValue("three"), MapValue([Field("d", BoolValue(true))])]))]))
    ensures TopLevelAllowed(ea.value) && TopLevelAllowed(eb.value)
    ensures Mask([ea, eb]) == ["a", "b"] && Transforms([ea, eb]) == []
    ensures Document([ea, eb]) == [Field("a", ea.value), Field("b", eb.value)]
  {
    assert !Mentions(ea.value, DeleteSentinel) && !Mentions(ea.value, ServerTimeSentinel);
    assert !Mentions(eb.value, DeleteSentinel) && !Mentions(eb.value, ServerTimeSentinel);
    UnderArrayMentions(ea.value, ServerTimeSentinel);
    UnderArrayMentions(eb.value, ServerTimeSentinel);
    PlainMaskAB(ea, eb);
    ComplexDocument(ea, eb);
  }

  /** The document of "complex": both values, as they are. */
  lemma ComplexDocument(ea: Entry, eb: Entry)
    requires ea.path == ["a"] && eb.path == ["b"]
    requires !ea.value.Delete? && !eb.value.Delete?
    requires !Mentions(ea.value, ServerTimeSentinel) && !Mentions(eb.value, ServerTimeSentinel)
    ensures Document([ea, eb]) == [Field("a", ea.value), Field("b", eb.value)]
  {
    assert DocEntries([ea, eb]) == [ea, eb] by {
      DocEntriesTwo(ea, eb);
      PlainKept(ea);
      PlainKept(eb);
    }
    assert PathsOf([ea, eb]) == [["a"], ["b"]] && EntryValues([ea, eb]) == [ea.value, eb.value];
    NestAB(ea.value, eb.value);
  }

  /** Storing `a` and then `b` in an empty document. */
  lemma NestAB(x: Value, y: Value)
    ensures Nest([["a"], ["b"]], [x, y]) == [Field("a", x), Field("b", y)]
  {
    NestTwo(["a"], x, ["b"], y);
    InsertOne("a", x);
    assert "a" != "b";
    InsertAppend([Field("a", x)], ["b"], y);
  }

  // ---------------------------------------------------------------------
  // update: DELETE

  /** "Delete": a DELETE key is masked but left out of the document. */
  lemma DeleteKey()
    ensures Plan(DocumentName, [Field("a", IntValue(1)), Field("b", Delete)], None)
      == Success([UpdateWrite(DocumentName, [Field("a", IntValue(1))], ["a", "b"], Exists(true))])
  {
    var ea := Entry(["a"], IntValue(1));
    var eb := Entry(["b"], Delete);
    KeysAB();
    DeleteKeyParts(ea, eb);
    UpdateOnlyTwo("a", ["a"], IntValue(1), "b", ["b"], Delete, None, ["a", "b"], [Field("a", IntValue(1))]);
    assert PreconditionFor(None) == Exists(true);
  }

  /** The mask, transforms and document of "Delete". */
  lemma DeleteKeyParts(ea: Entry, eb: Entry)
    requires ea == Entry(["a"], IntValue(1)) && eb == Entry(["b"], Delete)
    ensures Mask([ea, eb]) == ["a", "b"] && Transforms([ea, eb]) == []
    ensures Document([ea, eb]) == [Field("a", IntValue(1))]
  {
    PlainMaskAB(ea, eb);
    DeleteKept(["b"]);
    DocumentOnlyA(ea, eb);
  }

  /** "Delete alone": the document is empty and the mask names the key. */
  lemma DeleteAlone()
    ensures Plan(DocumentName, [Field("a", Delete)], None)
      == Success([UpdateWrite(DocumentName, [], ["a"], Exists(true))])
  {
    SimpleKey("a");
    SingleDelete("a", ["a"], None);
  }

  /** The keys `b.c` and `b.d`: two bare segments each. */
  lemma KeysBCD()
    ensures Split("b.c", '.') == ["b", "c"] && ParseFieldPath("b.c").Success?
    ensures Split("b.d", '.') == ["b", "d"] && ParseFieldPath("b.d").Success?
    ensures EncodeFieldPath(["b", "c"]) == "b.c" && EncodeFieldPath(["b", "d"]) == "b.d"
  {
    assert IsBare("b") && IsBare("c") && IsBare("d");
    TwoBare("b", "c");
    TwoBare("b", "d");
    assert "b" + "." + "c" == "b.c" && "b" + "." + "d" == "b.d";
  }

  /** "Delete with a dotted field": `b.c` is masked, `b.d` is stored under `b`. */
  lemma DeleteDotted()
    ensures Plan(DocumentName, [Field("a", IntValue(1)), Field("b.c", Delete), Field("b.d", IntValue(2))], None)
      == Success([UpdateWrite(DocumentName,
                   [Field("a", IntValue(1)), Field("b", MapValue([Field("d", IntValue(2))]))],
                   ["a", "b.c", "b.d"], Exists(true))])
  {
    var ea := Entry(["a"], IntValue(1));
    var ec := Entry(["b", "c"], Delete);
    var ed := Entry(["b", "d"], IntValue(2));
    DeleteDottedChecks();
    DeleteDottedParts(ea, ec, ed);
    UpdateOnlyThree("a", ["a"], IntValue(1), "b.c", ["b", "c"], Delete, "b.d", ["b", "d"], IntValue(2), None,
                    ["a", "b.c", "b.d"], [Field("a", IntValue(1)), Field("b", MapValue([Field("d", IntValue(2))]))]);
    assert PreconditionFor(None) == Exists(true);
  }

  /** The keys and values of "Delete with a dotted field" pass every check. */
  lemma DeleteDottedChecks()
    ensures ParseFieldPath("a").Success? && Split("a", '.') == ["a"]
    ensures ParseFieldPath("b.c").Success? && Split("b.c", '.') == ["b", "c"]
    ensures ParseFieldPath("b.d").Success? && Split("b.d", '.') == ["b", "d"]
    ensures Unrelated([["a"], ["b", "c"], ["b", "d"]])
    ensures TopLevelAllowed(IntValue(1)) && TopLevelAllowed(Delete) && TopLevelAllowed(IntValue(2))
  {
    SimpleKey("a");
    KeysBCD();
    DeleteDottedUnrelated();
  }

  /** The mask, transforms and document of "Delete with a dotted field". */
  lemma DeleteDottedParts(ea: Entry, ec: Entry, ed: Entry)
    requires ea == Entry(["a"], IntValue(1)) && ec == Entry(["b", "c"], Delete) && ed == Entry(["b", "d"], IntValue(2))
    ensures Mask([ea, ec, ed]) == ["a", "b.c", "b.d"] && Transforms([ea, ec, ed]) == []
    ensures Document([ea, ec, ed]) == [Field("a", IntValue(1)), Field("b", MapValue([Field("d", IntValue(2))]))]
  {
    DeleteDottedMask(ea, ec, ed);
    DeleteDottedTransforms(ea, ec, ed);
    DeleteDottedDocument(ea, ec, ed);
  }

  /** No key of "Delete with a dotted field" is a prefix of another. */
  lemma DeleteDottedUnrelated()
    ensures Unrelated([["a"], ["b", "c"], ["b", "d"]])
  {
    assert "a"[0] != "b"[0] && "c"[0] != "d"[0];
    Apart(["a"], ["b", "c"]);
    Apart(["a"], ["b", "d"]);
    Apart(["c"], ["d"]);
    assert ["b", "c"][1..] == ["c"] && ["b", "d"][1..] == ["d"];
    PrefixCons(["b", "c"], ["b", "d"]);
    PrefixCons(["b", "d"], ["b", "c"]);
  }

  /** The mask of "Delete with a dotted field": all three keys. */
  lemma DeleteDottedMask(ea: Entry, ec: Entry, ed: Entry)
    requires ea == Entry(["a"], IntValue(1)) && ec == Entry(["b", "c"], Delete) && ed == Entry(["b", "d"], IntValue(2))
    ensures Mask([ea, ec, ed]) == ["a", "b.c", "b.d"]
  {
    assert IsBare("a") && IsBare("b") && IsBare("c") && IsBare("d");
    EncodedOne("a");
    EncodedTwo("b", "c");
    EncodedTwo("b", "d");
    assert "b" + "." + "c" == "b.c" && "b" + "." + "d" == "b.d";
    MaskThree(ea, ec, ed);
    PlainMask(ea);
    PlainMask(ec);
    PlainMask(ed);
  }

  /** "Delete with a dotted field" has no transforms. */
  lemma DeleteDottedTransforms(ea: Entry, ec: Entry, ed: Entry)
    requires ea == Entry(["a"], IntValue(1)) && ec == Entry(["b", "c"], Delete) && ed == Entry(["b", "d"], IntValue(2))
    ensures Transforms([ea, ec, ed]) == []
  {
    TransformsThree(ea, ec, ed);
    PlainTransforms(ea);
    PlainTransforms(ec);
    PlainTransforms(ed);
  }

  /** `b.c` puts nothing into the document of "Delete with a dotted field". */
  lemma DeleteDottedKept(ea: Entry, ec: Entry, ed: Entry)
    requires ea == Entry(["a"], IntValue(1)) && ec == Entry(["b", "c"], Delete) && ed == Entry(["b", "d"], IntValue(2))
    ensures DocEntries([ea, ec, ed]) == [ea, ed]
  {
    DocEntriesThree(ea, ec, ed);
    PlainKept(ea);
    DeleteKept(["b", "c"]);
    PlainKept(ed);
  }

  /** Storing `a` and then `b.d` in an empty document. */
  lemma NestADotBD(x: Value, y: Value)
    ensures Nest([["a"], ["b", "d"]], [x, y]) == [Field("a", x), Field("b", MapValue([Field("d", y)]))]
  {
    NestTwo(["a"], x, ["b", "d"], y);
    InsertOne("a", x);
    InsertOne("d", y);
    assert ["b", "d"][1..] == ["d"];
    InsertAppend([Field("a", x)], ["b", "d"], y);
  }

  /** The document of "Delete with a dotted field": `b.c` is left out, `b.d` nests under `b`. */
  lemma DeleteDottedDocument(ea: Entry, ec: Entry, ed: Entry)
    requires ea == Entry(["a"], IntValue(1)) && ec == Entry(["b", "c"], Delete) && ed == Entry(["b", "d"], IntValue(2))
    ensures Document([ea, ec, ed]) == [Field("a", IntValue(1)), Field("b", MapValue([Field("d", IntValue(2))]))]
  {
    DeleteDottedKept(ea, ec, ed);
    assert PathsOf([ea, ed]) == [["a"], ["b", "d"]] && EntryValues([ea, ed]) == [IntValue(1), IntValue(2)];
    NestADotBD(IntValue(1), IntValue(2));
  }

  // ---------------------------------------------------------------------
  // update: SERVER_TIME

  /** "SERVER_TIME alone": one Transform write, carrying the precondition. */
  lemma ServerTimeAlone()
    ensures Plan(DocumentName, [Field("a", ServerTime)], None)
      == Success([TransformWrite(DocumentName, ["a"], Some(Exists(true)))])
  {
    SimpleKey("a");
    SingleServerTime("a", ["a"], None);
  }

  /** "SERVER_TIME with dotted field": the transform names the full dotted path. */
  lemma ServerTimeDotted()
    ensures Plan(DocumentName, [Field("a.b.c", ServerTime)], None)
      == Success([TransformWrite(DocumentName, ["a.b.c"], Some(Exists(true)))])
  {
    KeyABC();
    SingleServerTime("a.b.c", ["a", "b", "c"], None);
  }

  /**
   * "multiple SERVER_TIME fields": `b` and `c.d` become transforms, and `c`,
   * left empty, drops out of the document and the mask.
   */
  lemma MultipleServerTimes()
    ensures Plan(DocumentName, [Field("a", IntValue(1)), Field("b", ServerTime), Field("c", MapValue([Field("d", ServerTime)]))], None)
      == Success([UpdateWrite(DocumentName, [Field("a", IntValue(1))], ["a"], Exists(true)),
                  TransformWrite(DocumentName, ["b", "c.d"], None)])
  {
    var c := MapValue([Field("d", ServerTime)]);
    var ea := Entry(["a"], IntValue(1));
    var eb := Entry(["b"], ServerTime);
    var ec := Entry(["c"], c);
    MultipleServerTimesChecks();
    MultipleServerTimesParts(ea, eb, ec);
    BothThree("a", ["a"], IntValue(1), "b", ["b"], ServerTime, "c", ["c"], c, None,
              ["a"], ["b", "c.d"], [Field("a", IntValue(1))]);
    assert PreconditionFor(None) == Exists(true);
  }

  /** The keys and values of "multiple SERVER_TIME fields" pass every check. */
  lemma MultipleServerTimesChecks()
    ensures ParseFieldPath("a").Success? && Split("a", '.') == ["a"]
    ensures ParseFieldPath("b").Success? && Split("b", '.') == ["b"]
    ensures ParseFieldPath("c").Success? && Split("c", '.') == ["c"]
    ensures Unrelated([["a"], ["b"], ["c"]])
    ensures TopLevelAllowed(IntValue(1)) && TopLevelAllowed(ServerTime)
    ensures TopLevelAllowed(MapValue([Field("d", ServerTime)]))
  {
    KeysAB();
    SimpleKey("c");
    MultipleServerTimesUnrelated();
    var c := MapValue([Field("d", ServerTime)]);
    assert !Mentions(c, DeleteSentinel) && !UnderArray(c, ServerTimeSentinel);
  }

  /** The mask, transforms and document of "multiple SERVER_TIME fields". */
  lemma MultipleServerTimesParts(ea: Entry, eb: Entry, ec: Entry)
    requires ea == Entry(["a"], IntValue(1)) && eb == Entry(["b"], ServerTime)
    requires ec == Entry(["c"], MapValue([Field("d", ServerTime)]))
    ensures Mask([ea, eb, ec]) == ["a"] && Transforms([ea, eb, ec]) == ["b", "c.d"]
    ensures Document([ea, eb, ec]) == [Field("a", IntValue(1))]
  {
    MultipleServerTimesMask(ea, eb, ec);
    MultipleServerTimesTransforms(ea, eb, ec);
    ServerTimeKept(["b"]);
    InMapKept(["c"], "d");
    DocumentOnlyAOfThree(ea, eb, ec);
  }

  /** No two of `a`, `b` and `c` is a prefix of the other. */
  lemma MultipleServerTimesUnrelated()
    ensures Unrelated([["a"], ["b"], ["c"]])
  {
    Apart(["a"], ["b"]);
    Apart(["a"], ["c"]);
    Apart(["b"], ["c"]);
  }

  /** The mask of "multiple SERVER_TIME fields": only `a`. */
  lemma MultipleServerTimesMask(ea: Entry, eb: Entry, ec: Entry)
    requires ea == Entry(["a"], IntValue(1)) && eb == Entry(["b"], ServerTime)
    requires ec == Entry(["c"], MapValue([Field("d", ServerTime)]))
    ensures Mask([ea, eb, ec]) == ["a"]
  {
    assert IsBare("a");
    EncodedOne("a");
    MaskThree(ea, eb, ec);
    PlainMask(ea);
    ServerTimeMask(["b"]);
    InMapMask(["c"], "d");
  }

  /** The transforms of "multiple SERVER_TIME fields": `b`, then `c.d`. */
  lemma MultipleServerTimesTransforms(ea: Entry, eb: Entry, ec: Entry)
    requires ea == Entry(["a"], IntValue(1)) && eb == Entry(["b"], ServerTime)
    requires ec == Entry(["c"], MapValue([Field("d", ServerTime)]))
    ensures Transforms([ea, eb, ec]) == ["b", "c.d"]
  {
    assert IsBare("b");
    EncodedOne("b");
    TransformsThree(ea, eb, ec);
    PlainTransforms(ea);
    ServerTimeTransforms(["b"]);
    ServerTimeUnder(["c"], "c", "d");
    assert "c" + "." + "d" == "c.d";
    assert Transforms([ea, eb, ec]) == [] + ["b"] + ["c.d"];
  }

  /** `{x: {y: SERVER_TIME}}` becomes the transform `x.y`. */
  lemma ServerTimeUnder(path: seq<string>, x: string, y: string)
    requires path == [x] && IsBare(x) && IsBare(y)
    ensures Transforms([Entry(path, MapValue([Field(y, ServerTime)]))]) == [x + "." + y]
  {
    InMapTransforms(path, y);
    assert path + [y] == [x, y];
    EncodedTwo(x, y);
  }

  /** "nested SERVER_TIME field": `b.c` becomes a transform and `b` drops out. */
  lemma NestedServerTime()
    ensures Plan(DocumentName, [Field("a", IntValue(1)), Field("b", MapValue([Field("c", ServerTime)]))], None)
      == Success([UpdateWrite(DocumentName, [Field("a", IntValue(1))], ["a"], Exists(true)),
                  TransformWrite(DocumentName, ["b.c"], None)])
  {
    var b := MapValue([Field("c", ServerTime)]);
    var ea := Entry(["a"], IntValue(1));
    var eb := Entry(["b"], b);
    KeysAB();
    NestedServerTimeParts(ea, eb);
    BothTwo("a", ["a"], IntValue(1), "b", ["b"], b, None, ["a"], ["b.c"], [Field("a", IntValue(1))]);
    assert PreconditionFor(None) == Exists(true);
  }

  /** The value of "nested SERVER_TIME field" is allowed; its mask, transforms and document. */
  lemma NestedServerTimeParts(ea: Entry, eb: Entry)
    requires ea == Entry(["a"], IntValue(1)) && eb == Entry(["b"], MapValue([Field("c", ServerTime)]))
    ensures TopLevelAllowed(eb.value)
    ensures Mask([ea, eb]) == ["a"] && Transforms([ea, eb]) == ["b.c"]
    ensures Document([ea, eb]) == [Field("a", IntValue(1))]
  {
    assert !Mentions(eb.value, DeleteSentinel) && !UnderArray(eb.value, ServerTimeSentinel);
    NestedServerTimeMask(ea, eb);
    NestedServerTimeTransforms(ea, eb);
    InMapKept(["b"], "c");
    DocumentOnlyA(ea, eb);
  }

  /** The mask of "nested SERVER_TIME field": only `a`. */
  lemma NestedServerTimeMask(ea: Entry, eb: Entry)
    requires ea == Entry(["a"], IntValue(1)) && eb == Entry(["b"], MapValue([Field("c", ServerTime)]))
    ensures Mask([ea, eb]) == ["a"]
  {
    assert IsBare("a");
    EncodedOne("a");
    MaskTwo(ea, eb);
    PlainMask(ea);
    InMapMask(["b"], "c");
  }

  /** The transforms of "nested SERVER_TIME field": only `b.c`. */
  lemma NestedServerTimeTransforms(ea: Entry, eb: Entry)
    requires ea == Entry(["a"], IntValue(1)) && eb == Entry(["b"], MapValue([Field("c", ServerTime)]))
    ensures Transforms([ea, eb]) == ["b.c"]
  {
    assert IsBare("b") && IsBare("c");
    TransformsTwo(ea, eb);
    PlainTransforms(ea);
    ServerTimeUnder(["b"], "b", "c");
    assert "b" + "." + "c" == "b.c";
  }

  /** "SERVER_TIME with data": an Update write for `a`, then a Transform write for `b`. */
  lemma ServerTimeWithData()
    ensures Plan(DocumentName, [Field("a", IntValue(1)), Field("b", ServerTime)], None)
      == Success([UpdateWrite(DocumentName, [Field("a", IntValue(1))], ["a"], Exists(true)),
                  TransformWrite(DocumentName, ["b"], None)])
  {
    var ea := Entry(["a"], IntValue(1));
    var eb := Entry(["b"], ServerTime);
    KeysAB();
    ServerTimeWithDataParts(ea, eb);
    BothTwo("a", ["a"], IntValue(1), "b", ["b"], ServerTime, None, ["a"], ["b"], [Field("a", IntValue(1))]);
    assert PreconditionFor(None) == Exists(true);
  }

  /** The mask, transforms and document of "SERVER_TIME with data". */
  lemma ServerTimeWithDataParts(ea: Entry, eb: Entry)
    requires ea == Entry(["a"], IntValue(1)) && eb == Entry(["b"], ServerTime)
    ensures Mask([ea, eb]) == ["a"] && Transforms([ea, eb]) == ["b"]
    ensures Document([ea, eb]) == [Field("a", IntValue(1))]
  {
    ServerTimeKept(["b"]);
    DocumentOnlyA(ea, eb);
    assert IsBare("a") && IsBare("b");
    EncodedOne("a");
    EncodedOne("b");
    MaskTwo(ea, eb);
    PlainMask(ea);
    ServerTimeMask(["b"]);
    TransformsTwo(ea, eb);
    PlainTransforms(ea);
    ServerTimeTransforms(["b"]);
  }

  // ---------------------------------------------------------------------
  // update: refused data

  /** "no paths": an empty map is refused. */
  lemma NoPaths()
    ensures Plan(DocumentName, [], None) == Failure(DataRequired)
    ensures Message(DataRequired) == "data is required"
  {
  }

  /** "invalid character": `a~b` is refused. */
  lemma InvalidCharacterKey()
    ensures Plan(DocumentName, [Field("a~b", IntValue(1))], None) == Failure(InvalidCharacter)
    ensures Message(InvalidCharacter) == "invalid character"
  {
    PlainKey("a~b");
    assert "a~b"[1] in Reserved;
    assert ParseFieldPath("a~b") == Failure(InvalidCharacter);
  }

  /** "empty field path component": `a..b` is refused. */
  lemma EmptyComponent()
    ensures Plan(DocumentName, [Field("a..b", IntValue(1))], None) == Failure(EmptyPaths)
    ensures Message(EmptyPaths) == "empty paths not allowed"
  {
    assert Join(["a", "", "b"], '.') == "a..b";
    DottedKey("a..b", ["a", "", "b"]);
    assert ParseFieldPath("a..b") == Failure(EmptyPaths);
  }

  /** The keys `a`, `a.b` and `a.d`: the first is a prefix of the others. */
  lemma KeysPrefix()
    ensures Split("a", '.') == ["a"] && ParseFieldPath("a").Success?
    ensures Split("a.b", '.') == ["a", "b"] && ParseFieldPath("a.b").Success?
    ensures Split("a.d", '.') == ["a", "d"] && ParseFieldPath("a.d").Success?
    ensures Prefix(["a"], ["a", "b"]) && Prefix(["a"], ["a", "d"])
  {
    SimpleKey("a");
    assert IsBare("a") && IsBare("b") && IsBare("d");
    TwoBare("a", "b");
    TwoBare("a", "d");
    assert "a" + "." + "b" == "a.b" && "a" + "." + "d" == "a.d";
  }

  /** "prefix #1": `a.b` before `a` is refused. */
  lemma PrefixFirst()
    ensures Plan(DocumentName, [Field("a.b", IntValue(1)), Field("a", IntValue(2))], None) == Failure(PrefixConflict)
    ensures Message(PrefixConflict) == "one field cannot be a prefix of another"
  {
    var data := [Field("a.b", IntValue(1)), Field("a", IntValue(2))];
    KeysPrefix();
    var paths := SplitKeys(data);
    assert paths[1] == ["a"] && paths[0] == ["a", "b"];
    assert KeysError(data) == None;
  }

  /** "prefix #2": `a` before `a.b` is refused. */
  lemma PrefixSecond()
    ensures Plan(DocumentName, [Field("a", IntValue(1)), Field("a.b", IntValue(2))], None) == Failure(PrefixConflict)
    ensures Message(PrefixConflict) == "one field cannot be a prefix of another"
  {
    var data := [Field("a", IntValue(1)), Field("a.b", IntValue(2))];
    KeysPrefix();
    var paths := SplitKeys(data);
    assert paths[0] == ["a"] && paths[1] == ["a", "b"];
    assert KeysError(data) == None;
  }

  /** "prefix #3": a map value under `a` does not excuse `a.d`. */
  lemma PrefixMapValue()
    ensures Plan(DocumentName, [Field("a", MapValue([Field("b", IntValue(1))])), Field("a.d", IntValue(2))], None)
      == Failure(PrefixConflict)
    ensures Message(PrefixConflict) == "one field cannot be a prefix of another"
  {
    var data := [Field("a", MapValue([Field("b", IntValue(1))])), Field("a.d", IntValue(2))];
    KeysPrefix();
    var paths := SplitKeys(data);
    assert paths[0] == ["a"] && paths[1] == ["a", "d"];
    assert KeysError(data) == None;
  }

  /** "DELETE cannot be nested". */
  lemma DeleteNested()
    ensures Plan(DocumentName, [Field("a", MapValue([Field("b", Delete)]))], None) == Failure(NestedDelete)
    ensures Message(NestedDelete) == "DELETE cannot be nested"
  {
    SimpleKey("a");
    var v := MapValue([Field("b", Delete)]);
    assert TopLevelError(v) == Some(NestedDelete);
    SingleRefused("a", v, NestedDelete, None);
  }

  /** "DELETE cannot be anywhere inside an array value". */
  lemma DeleteInsideArray()
    ensures Plan(DocumentName, [Field("a", ArrayValue([IntValue(1), MapValue([Field("b", Delete)])]))], None)
      == Failure(DeleteUnderArray)
    ensures Message(DeleteUnderArray) == "cannot nest DELETE under arrays"
  {
    SimpleKey("a");
    var v := ArrayValue([IntValue(1), MapValue([Field("b", Delete)])]);
    assert TopLevelError(v) == Some(DeleteUnderArray);
    SingleRefused("a", v, DeleteUnderArray, None);
  }

  /** "DELETE cannot be in an array value". */
  lemma DeleteInArray()
    ensures Plan(DocumentName, [Field("a", ArrayValue([IntValue(1), IntValue(2), Delete]))], None)
      == Failure(DeleteUnderArray)
    ensures Message(DeleteUnderArray) == "cannot nest DELETE under arrays"
  {
    SimpleKey("a");
    var v := ArrayValue([IntValue(1), IntValue(2), Delete]);
    assert TopLevelError(v) == Some(DeleteUnderArray);
    SingleRefused("a", v, DeleteUnderArray, None);
  }

  /** A DELETE in an array inside a map is refused as being under an array, not as nested. */
  lemma DeleteInArrayInMap()
    ensures Plan(DocumentName, [Field("a", MapValue([Field("x", ArrayValue([Delete]))]))], None)
      == Failure(DeleteUnderArray)
  {
    SimpleKey("a");
    var v := MapValue([Field("x", ArrayValue([Delete]))]);
    DeleteOnlyUnderArrays(v);
    SingleRefused("a", v, DeleteUnderArray, None);
  }

  /** "SERVER_TIME cannot be anywhere inside an array value". */
  lemma ServerTimeInsideArray()
    ensures Plan(DocumentName, [Field("a", ArrayValue([IntValue(1), MapValue([Field("b", ServerTime)])]))], None)
      == Failure(ServerTimeUnderArray)
    ensures Message(ServerTimeUnderArray) == "cannot nest SERVER_TIME under arrays"
  {
    SimpleKey("a");
    var v := ArrayValue([IntValue(1), MapValue([Field("b", ServerTime)])]);
    assert TopLevelError(v) == Some(ServerTimeUnderArray);
    SingleRefused("a", v, ServerTimeUnderArray, None);
  }

  /** "SERVER_TIME cannot be in an array value". */
  lemma ServerTimeInArray()
    ensures Plan(DocumentName, [Field("a", ArrayValue([IntValue(1), IntValue(2), ServerTime]))], None)
      == Failure(ServerTimeUnderArray)
    ensures Message(ServerTimeUnderArray) == "cannot nest SERVER_TIME under arrays"
  {
    SimpleKey("a");
    var v := ArrayValue([IntValue(1), IntValue(2), ServerTime]);
    assert TopLevelError(v) == Some(ServerTimeUnderArray);
    SingleRefused("a", v, ServerTimeUnderArray, None);
  }

  // ---------------------------------------------------------------------
  // extract_field_paths

  /** The key `foo.bar`: two bare segments. */
  lemma FooBar()
    ensures Split("foo.bar", '.') == ["foo", "bar"]
  {
    assert IsBare("foo") && IsBare("bar");
    TwoBare("foo", "bar");
    assert "foo" + "." + "bar" == "foo.bar";
  }

  /** "extracts field paths": `{"foo.bar" => "BAZ"}` nests `bar` under `foo`. */
  lemma ExtractDotted()
    ensures ExtractFieldPaths([Field("foo.bar", StringValue("BAZ"))])
      == ([Field("foo", MapValue([Field("bar", StringValue("BAZ"))]))], ["foo.bar"])
  {
    var v := StringValue("BAZ");
    var data := [Field("foo.bar", v)];
    FooBar();
    assert SplitKeys(data) == [["foo", "bar"]];
    assert ValuesOf(data) == [v];
    NestOne(["foo", "bar"], v);
    InsertTwo("foo", "bar", v);
    assert Keys(data) == ["foo.bar"];
  }

  /** "extracts only top-level field paths": the inner key `baz.bif` stays whole. */
  lemma ExtractTopLevelOnly()
    ensures ExtractFieldPaths([Field("foo.bar", MapValue([Field("baz.bif", IntValue(42))]))])
      == ([Field("foo", MapValue([Field("bar", MapValue([Field("baz.bif", IntValue(42))]))]))], ["foo.bar"])
  {
    var v := MapValue([Field("baz.bif", IntValue(42))]);
    var data := [Field("foo.bar", v)];
    FooBar();
    assert SplitKeys(data) == [["foo", "bar"]];
    assert ValuesOf(data) == [v];
    NestOne(["foo", "bar"], v);
    InsertTwo("foo", "bar", v);
    assert Keys(data) == ["foo.bar"];
  }

  /** "handles an empty hash". */
  lemma ExtractEmpty()
    ensures ExtractFieldPaths([]) == ([], [])
  {
  }
}
