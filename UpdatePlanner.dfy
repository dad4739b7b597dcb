/**
 * The plan `update` sends for a flat map of dotted field-path keys: an
 * optional Update write (the document with every key's value at its path,
 * the update mask and the precondition) followed by an optional Transform
 * write (the server-time field paths). Planning fails, with the first
 * problem found, when the map is empty, a key is not a valid field path, one
 * key's path is a prefix of another's, or a sentinel is misplaced.
 */
module UpdatePlanner {
  import opened Wrappers
  import opened Splitting
  import opened Values
  import opened FieldPaths
  import opened Nesting
  import opened Sentinels

  /** A time as the service writes it; the planner only passes it on. */
  datatype Timestamp = Timestamp(seconds: int, nanos: int)

  /** `current_document` of a write. */
  datatype Precondition = Exists(present: bool) | UpdateTime(time: Timestamp)

  datatype Write =
    | UpdateWrite(name: string, fields: seq<Field>, mask: seq<string>, currentDocument: Precondition)
    | TransformWrite(document: string, fieldPaths: seq<string>, precondition: Option<Precondition>)

  /** A top-level key, split into its segments, with its value. */
  datatype Entry = Entry(path: seq<string>, value: Value)

  function Entries(data: seq<Field>): (entries: seq<Entry>)
    ensures |entries| == |data|
    ensures forall k :: 0 <= k < |data| ==> entries[k] == Entry(Split(data[k].key, '.'), data[k].value)
  {
    if data == [] then [] else [Entry(Split(data[0].key, '.'), data[0].value)] + Entries(data[1..])
  }

  function PathsOf(entries: seq<Entry>): (paths: seq<seq<string>>)
    ensures |paths| == |entries|
    ensures forall k :: 0 <= k < |entries| ==> paths[k] == entries[k].path
  {
    if entries == [] then [] else [entries[0].path] + PathsOf(entries[1..])
  }

  function EntryValues(entries: seq<Entry>): (values: seq<Value>)
    ensures |values| == |entries|
    ensures forall k :: 0 <= k < |entries| ==> values[k] == entries[k].value
  {
    if entries == [] then [] else [entries[0].value] + EntryValues(entries[1..])
  }

  /** Every entry has at least one segment, as every split key does. */
  predicate NonEmptyPaths(entries: seq<Entry>)
  {
    forall k :: 0 <= k < |entries| ==> entries[k].path != []
  }

  // ---------------------------------------------------------------------
  // Key by key, in input order

  /** The mask of a concatenation is the concatenation of the masks. */
  lemma {:induction false} MaskConcat(a: seq<Entry>, b: seq<Entry>)
    ensures Mask(a + b) == Mask(a) + Mask(b)
  {
    if a != [] {
      assert (a + b)[1..] == a[1..] + b;
      MaskConcat(a[1..], b);
    } else {
      assert a + b == b;
    }
  }

  /** The transforms of a concatenation are the concatenation of the transforms. */
  lemma {:induction false} TransformsConcat(a: seq<Entry>, b: seq<Entry>)
    ensures Transforms(a + b) == Transforms(a) + Transforms(b)
  {
    if a != [] {
      assert (a + b)[1..] == a[1..] + b;
      TransformsConcat(a[1..], b);
    } else {
      assert a + b == b;
    }
  }

  /** The document entries of a concatenation are the concatenation of the document entries. */
  lemma {:induction false} DocEntriesConcat(a: seq<Entry>, b: seq<Entry>)
    ensures DocEntries(a + b) == DocEntries(a) + DocEntries(b)
  {
    if a != [] {
      assert (a + b)[1..] == a[1..] + b;
      DocEntriesConcat(a[1..], b);
    } else {
      assert a + b == b;
    }
  }

  // ---------------------------------------------------------------------
  // Validation, in key order

  /** The error of the first key that is not a valid field path. */
  function KeysError(data: seq<Field>): (r: Option<UpdateError>)
    ensures r.None? <==> forall k :: 0 <= k < |data| ==> ParseFieldPath(data[k].key).Success?
    ensures r.Some? ==> r.value in {EmptyPaths, InvalidCharacter}
    ensures r.Some? ==> exists k :: 0 <= k < |data| && ParseFieldPath(data[k].key) == Failure(r.value)
  {
    if data == [] then None
    else
      match ParseFieldPath(data[0].key)
      case Failure(e) => Some(e)
      case Success(_) =>
        var rest := KeysError(data[1..]);
        assert forall k :: 1 <= k < |data| ==> data[k] == data[1..][k - 1];
        rest
  }

  /** The error of the first top-level value holding a misplaced sentinel. */
  function ValuesError(data: seq<Field>): (r: Option<UpdateError>)
    ensures r.None? <==> forall k :: 0 <= k < |data| ==> TopLevelAllowed(data[k].value)
    ensures r.Some? ==> r.value in {NestedDelete, DeleteUnderArray, ServerTimeUnderArray}
    ensures r.Some? ==> exists k :: 0 <= k < |data| && TopLevelError(data[k].value) == Some(r.value)
  {
    if data == [] then None
    else
      TopLevelErrorSpec(data[0].value);
      var e := TopLevelError(data[0].value);
      if e.Some? then e
      else
        var rest := ValuesError(data[1..]);
        assert forall k :: 1 <= k < |data| ==> data[k] == data[1..][k - 1];
        rest
  }

  // ---------------------------------------------------------------------
  // The parts of the plan

  /** The update mask: the wire form of every key not removed entirely by SERVER_TIME, in input order. */
  function Mask(entries: seq<Entry>): seq<string>
  {
    if entries == [] then []
    else
      (if Strip(entries[0].value).Some? then [EncodeFieldPath(entries[0].path)] else [])
      + Mask(entries[1..])
  }

  /** The wire form of `path + rest` for every `rest`. */
  function EncodeUnder(path: seq<string>, rests: seq<seq<string>>): (r: seq<string>)
    ensures |r| == |rests|
    ensures forall i :: 0 <= i < |rests| ==> r[i] == EncodeFieldPath(path + rests[i])
  {
    if rests == [] then [] else [EncodeFieldPath(path + rests[0])] + EncodeUnder(path, rests[1..])
  }

  /** The field transforms: the full path of every SERVER_TIME, in input order. */
  function Transforms(entries: seq<Entry>): seq<string>
  {
    if entries == [] then []
    else EncodeUnder(entries[0].path, ServerTimePaths(entries[0].value)) + Transforms(entries[1..])
  }

  /** What of a top-level value goes into the document: nothing for DELETE, otherwise the stripped value. */
  function Kept(v: Value): Option<Value>
  {
    if v.Delete? then None else Strip(v)
  }

  /** The entries that put something into the document, with what they put there. */
  function DocEntries(entries: seq<Entry>): (d: seq<Entry>)
    ensures NonEmptyPaths(entries) ==> NonEmptyPaths(d)
  {
    if entries == [] then []
    else
      var rest := DocEntries(entries[1..]);
      match Kept(entries[0].value)
      case Some(w) => [Entry(entries[0].path, w)] + rest
      case None => rest
  }

  /** The document of the Update write: every kept value nested at its path. */
  function Document(entries: seq<Entry>): seq<Field>
    requires NonEmptyPaths(entries)
  {
    var d := DocEntries(entries);
    Nest(PathsOf(d), EntryValues(d))
  }

  /** The precondition: the given last update time, or that the document exists. */
  function PreconditionFor(updateTime: Option<Timestamp>): Precondition
  {
    if updateTime.Some? then UpdateTime(updateTime.value) else Exists(true)
  }

  /**
   * The writes: an Update write when the mask is not empty, then a Transform
   * write when some SERVER_TIME was found; the precondition goes on the
   * first of them.
   */
  function Writes(name: string, entries: seq<Entry>, updateTime: Option<Timestamp>): seq<Write>
    requires NonEmptyPaths(entries)
  {
    var mask := Mask(entries);
    var transforms := Transforms(entries);
    var precondition := PreconditionFor(updateTime);
    (if mask != [] then [UpdateWrite(name, Document(entries), mask, precondition)] else [])
    + (if transforms != [] then [TransformWrite(name, transforms, if mask == [] then Some(precondition) else None)] else [])
  }

  /**
   * `update`'s planning: checks the data, then builds the writes for the
   * document named `name`.
   */
  function Plan(name: string, data: seq<Field>, updateTime: Option<Timestamp>): (r: Result<seq<Write>, UpdateError>)
    ensures r == Failure(DataRequired) <==> data == []
    ensures r.Success? <==>
      && data != []
      && (forall k :: 0 <= k < |data| ==> ParseFieldPath(data[k].key).Success?)
      && Unrelated(SplitKeys(data))
      && (forall k :: 0 <= k < |data| ==> TopLevelAllowed(data[k].value))
    ensures r.Failure? && r.error in {EmptyPaths, InvalidCharacter} ==>
      exists k :: 0 <= k < |data| && ParseFieldPath(data[k].key) == Failure(r.error)
    ensures r == Failure(PrefixConflict) ==> !Unrelated(SplitKeys(data))
    ensures r.Failure? && r.error in {NestedDelete, DeleteUnderArray, ServerTimeUnderArray} ==>
      exists k :: 0 <= k < |data| && TopLevelError(data[k].value) == Some(r.error)
    ensures r.Success? ==> NonEmptyPaths(Entries(data)) && r.value == Writes(name, Entries(data), updateTime)
  {
    if data == [] then Failure(DataRequired)
    else
      match KeysError(data)
      case Some(e) => Failure(e)
      case None =>
        var entries := Entries(data);
        assert PathsOf(entries) == SplitKeys(data);
        if !Unrelated(PathsOf(entries)) then Failure(PrefixConflict)
        else
          match ValuesError(data)
          case Some(e) => Failure(e)
          case None => Success(Writes(name, entries, updateTime))
  }

  // ---------------------------------------------------------------------
  // Prefix conflicts in terms of the keys

  /**
   * One key's segments are a prefix of another's exactly when the keys are
   * equal or the longer key starts with the shorter one and a dot.
   */
  lemma PrefixKeys(a: string, b: string)
    ensures Prefix(Split(a, '.'), Split(b, '.')) <==> a == b || (|a| < |b| && b[..|a| + 1] == a + ".")
  {
    if Prefix(Split(a, '.'), Split(b, '.')) {
      PrefixKeysJoin(a, b);
    }
    if |a| < |b| && b[..|a| + 1] == a + "." {
      PrefixKeysSplit(a, b);
    }
  }

  lemma PrefixKeysJoin(a: string, b: string)
    requires Prefix(Split(a, '.'), Split(b, '.'))
    ensures a == b || (|a| < |b| && b[..|a| + 1] == a + ".")
  {
    JoinSplit(a, '.');
    JoinSplit(b, '.');
    JoinOfPrefix(Split(a, '.'), Split(b, '.'));
  }

  /** The join of a prefix is the whole join, or begins it up to a dot. */
  lemma JoinOfPrefix(p: seq<string>, q: seq<string>)
    requires p != [] && Prefix(p, q)
    ensures var a := Join(p, '.'); var b := Join(q, '.');
      a == b || (|a| < |b| && b[..|a| + 1] == a + ".")
  {
    if |p| == |q| {
      assert q == q[..|p|];
    } else {
      var rest := q[|p|..];
      assert q == p + rest;
      JoinPrefix(p, rest);
    }
  }

  /** Joining more segments after `p` gives `p`'s join, a dot, and the rest. */
  lemma JoinPrefix(p: seq<string>, rest: seq<string>)
    requires p != [] && rest != []
    ensures var s := Join(p + rest, '.'); var a := Join(p, '.');
      |a| < |s| && s[..|a| + 1] == a + "."
  {
    var a := Join(p, '.');
    JoinConcat(p, rest, '.');
    var t := Join(rest, '.');
    assert Join(p + rest, '.') == (a + ".") + t;
  }

  lemma PrefixKeysSplit(a: string, b: string)
    requires |a| < |b| && b[..|a| + 1] == a + "."
    ensures Prefix(Split(a, '.'), Split(b, '.'))
  {
    var c := b[|a| + 1..];
    assert b == a + ['.'] + c;
    SplitConcat(a, c, '.');
    var p := Split(a, '.');
    assert (p + Split(c, '.'))[..|p|] == p;
  }

  // ---------------------------------------------------------------------
  // The shape of the writes

  /**
   * A plan has one or two writes. The first one carries the precondition and
   * is the Update write exactly when the mask is not empty; a second one is
   * the Transform write, without precondition.
   */
  lemma WritesShape(name: string, entries: seq<Entry>, updateTime: Option<Timestamp>)
    requires entries != [] && NonEmptyPaths(entries)
    ensures var w := Writes(name, entries, updateTime);
      && 1 <= |w| <= 2
      && (w[0].UpdateWrite? <==> Mask(entries) != [])
      && (w[0].UpdateWrite? ==> w[0] == UpdateWrite(name, Document(entries), Mask(entries), PreconditionFor(updateTime)))
      && (w[0].TransformWrite? ==> w[0] == TransformWrite(name, Transforms(entries), Some(PreconditionFor(updateTime))))
      && (|w| == 2 <==> Mask(entries) != [] && Transforms(entries) != [])
      && (|w| == 2 ==> w[1] == TransformWrite(name, Transforms(entries), None))
  {
    if Mask(entries) == [] {
      var e := entries[0];
      assert Strip(e.value).None?;
      StripGone(e.value);
      assert Transforms(entries) != [];
    }
  }

  // ---------------------------------------------------------------------
  // The mask

  /** Every mask entry is the wire form of a key whose value is not removed entirely. */
  lemma {:induction false} MaskSound(entries: seq<Entry>, m: string)
    requires m in Mask(entries)
    ensures exists k :: 0 <= k < |entries| && Strip(entries[k].value).Some? && m == EncodeFieldPath(entries[k].path)
  {
    var rest := entries[1..];
    if !(Strip(entries[0].value).Some? && m == EncodeFieldPath(entries[0].path)) {
      MaskSound(rest, m);
      var k :| 0 <= k < |rest| && Strip(rest[k].value).Some? && m == EncodeFieldPath(rest[k].path);
      assert entries[k + 1] == rest[k];
    }
  }

  /** Every key whose value is not removed entirely is in the mask. */
  lemma {:induction false} MaskComplete(entries: seq<Entry>, k: nat)
    requires k < |entries| && Strip(entries[k].value).Some?
    ensures EncodeFieldPath(entries[k].path) in Mask(entries)
  {
    if k > 0 {
      MaskComplete(entries[1..], k - 1);
    }
  }

  /**
   * A key is in the mask exactly when its value is not removed entirely by
   * SERVER_TIME: DELETE keys and kept keys are, SERVER_TIME-only keys are not.
   */
  lemma MaskSpec(entries: seq<Entry>, k: nat)
    requires k < |entries| && NonEmptyPaths(entries)
    requires Unrelated(PathsOf(entries))
    ensures EncodeFieldPath(entries[k].path) in Mask(entries) <==> Strip(entries[k].value).Some?
  {
    var p := entries[k].path;
    if EncodeFieldPath(p) in Mask(entries) {
      MaskSound(entries, EncodeFieldPath(p));
      var j :| 0 <= j < |entries| && Strip(entries[j].value).Some? && EncodeFieldPath(p) == EncodeFieldPath(entries[j].path);
      EncodeInjective(p, entries[j].path);
      PrefixReflexive(p);
      assert Prefix(PathsOf(entries)[k], PathsOf(entries)[j]);
      assert j == k;
    } else if Strip(entries[k].value).Some? {
      MaskComplete(entries, k);
    }
  }

  // ---------------------------------------------------------------------
  // The transforms

  /** Every transform is the full path of a SERVER_TIME inside some key's value. */
  lemma {:induction false} TransformsSound(entries: seq<Entry>, t: string)
    requires t in Transforms(entries)
    ensures exists k, rest :: 0 <= k < |entries| && ServerTimeAt(entries[k].value, rest) && t == EncodeFieldPath(entries[k].path + rest)
  {
    var head := EncodeUnder(entries[0].path, ServerTimePaths(entries[0].value));
    if t in head {
      var i :| 0 <= i < |head| && head[i] == t;
      var rest := ServerTimePaths(entries[0].value)[i];
      ServerTimePathsSpec(entries[0].value, rest);
      assert ServerTimeAt(entries[0].value, rest) && t == EncodeFieldPath(entries[0].path + rest);
    } else {
      var tail := entries[1..];
      TransformsSound(tail, t);
      var k, rest :| 0 <= k < |tail| && ServerTimeAt(tail[k].value, rest) && t == EncodeFieldPath(tail[k].path + rest);
      assert entries[k + 1] == tail[k];
    }
  }

  /** The full path of every SERVER_TIME inside a key's value is among the transforms. */
  lemma {:induction false} TransformsComplete(entries: seq<Entry>, k: nat, rest: seq<string>)
    requires k < |entries| && ServerTimeAt(entries[k].value, rest)
    ensures EncodeFieldPath(entries[k].path + rest) in Transforms(entries)
  {
    if k == 0 {
      ServerTimePathsSpec(entries[0].value, rest);
      var paths := ServerTimePaths(entries[0].value);
      var i :| 0 <= i < |paths| && paths[i] == rest;
      assert EncodeUnder(entries[0].path, paths)[i] == EncodeFieldPath(entries[0].path + rest);
    } else {
      TransformsComplete(entries[1..], k - 1, rest);
    }
  }

  // ---------------------------------------------------------------------
  // The document

  /** `e` is what some key puts into the document, at its own path. */
  ghost predicate Origin(entries: seq<Entry>, e: Entry)
  {
    exists j :: 0 <= j < |entries| && e.path == entries[j].path && Kept(entries[j].value) == Some(e.value)
  }

  /** Each document entry comes from a key at the same path that keeps that value. */
  lemma {:induction false} DocEntriesOrigin(entries: seq<Entry>)
    ensures forall i :: 0 <= i < |DocEntries(entries)| ==> Origin(entries, DocEntries(entries)[i])
  {
    if entries != [] {
      var rest := entries[1..];
      DocEntriesOrigin(rest);
      var d := DocEntries(entries);
      var dr := DocEntries(rest);
      forall i | 0 <= i < |d|
        ensures Origin(entries, d[i])
      {
        var first := if Kept(entries[0].value).Some? then 1 else 0;
        if i < first {
          assert d[0].path == entries[0].path && Kept(entries[0].value) == Some(d[0].value);
        } else {
          assert d[i] == dr[i - first];
          assert Origin(rest, dr[i - first]);
          var j :| 0 <= j < |rest| && dr[i - first].path == rest[j].path && Kept(rest[j].value) == Some(dr[i - first].value);
          assert entries[j + 1] == rest[j];
        }
      }
    }
  }

  /** Every key that keeps a value has a document entry. */
  lemma {:induction false} DocEntriesComplete(entries: seq<Entry>, k: nat)
    requires k < |entries| && Kept(entries[k].value).Some?
    ensures Entry(entries[k].path, Kept(entries[k].value).value) in DocEntries(entries)
  {
    if k > 0 {
      DocEntriesComplete(entries[1..], k - 1);
    }
  }

  /** A key that puts nothing into the document, or any other path unrelated to the kept keys', is unrelated to every document path. */
  lemma DocEntriesAvoid(entries: seq<Entry>, p: seq<string>)
    requires forall j :: 0 <= j < |entries| && Kept(entries[j].value).Some? ==>
      !Prefix(p, entries[j].path) && !Prefix(entries[j].path, p)
    ensures forall i :: 0 <= i < |DocEntries(entries)| ==>
      !Prefix(p, PathsOf(DocEntries(entries))[i]) && !Prefix(PathsOf(DocEntries(entries))[i], p)
  {
    var d := DocEntries(entries);
    DocEntriesOrigin(entries);
    forall i | 0 <= i < |d|
      ensures !Prefix(p, PathsOf(d)[i]) && !Prefix(PathsOf(d)[i], p)
    {
      assert Origin(entries, d[i]);
      var j :| 0 <= j < |entries| && d[i].path == entries[j].path && Kept(entries[j].value) == Some(d[i].value);
      assert PathsOf(d)[i] == entries[j].path;
    }
  }

  /** Dropping entries keeps the paths unrelated. */
  lemma {:induction false} DocEntriesUnrelated(entries: seq<Entry>)
    requires Unrelated(PathsOf(entries))
    ensures Unrelated(PathsOf(DocEntries(entries)))
  {
    if entries != [] {
      var rest := entries[1..];
      UnrelatedTail(PathsOf(entries));
      assert PathsOf(entries)[1..] == PathsOf(rest);
      DocEntriesUnrelated(rest);
      if Kept(entries[0].value).Some? {
        var p := entries[0].path;
        forall j | 0 <= j < |rest| && Kept(rest[j].value).Some?
          ensures !Prefix(p, rest[j].path) && !Prefix(rest[j].path, p)
        {
          assert PathsOf(entries)[0] == p && PathsOf(entries)[j + 1] == rest[j].path;
        }
        DocEntriesAvoid(rest, p);
        UnrelatedCons(p, PathsOf(DocEntries(rest)));
        assert PathsOf(DocEntries(entries)) == [p] + PathsOf(DocEntries(rest));
      }
    }
  }

  /** A key that keeps a value finds exactly that value at its path in the document. */
  lemma DocumentHolds(entries: seq<Entry>, k: nat)
    requires k < |entries| && NonEmptyPaths(entries)
    requires Unrelated(PathsOf(entries))
    requires Kept(entries[k].value).Some?
    ensures Lookup(Document(entries), entries[k].path) == Kept(entries[k].value)
  {
    var d := DocEntries(entries);
    DocEntriesUnrelated(entries);
    DocEntriesComplete(entries, k);
    var i :| 0 <= i < |d| && d[i] == Entry(entries[k].path, Kept(entries[k].value).value);
    var paths, values := PathsOf(d), EntryValues(d);
    assert paths[i] == entries[k].path && values[i] == Kept(entries[k].value).value;
    assert forall j :: 0 <= j < |paths| ==> paths[j] != [] by {
      assert NonEmptyPaths(d);
    }
    LookupNest(paths, values, i);
  }

  /** A DELETE key, or one whose value is removed entirely, has nothing at its path in the document. */
  lemma DocumentOmits(entries: seq<Entry>, k: nat)
    requires k < |entries| && NonEmptyPaths(entries)
    requires Unrelated(PathsOf(entries))
    requires Kept(entries[k].value).None?
    ensures Lookup(Document(entries), entries[k].path) == None
  {
    var d := DocEntries(entries);
    var p := entries[k].path;
    forall j | 0 <= j < |entries| && Kept(entries[j].value).Some?
      ensures !Prefix(p, entries[j].path) && !Prefix(entries[j].path, p)
    {
      assert j != k;
      assert PathsOf(entries)[k] == p && PathsOf(entries)[j] == entries[j].path;
    }
    DocEntriesAvoid(entries, p);
    LookupNestAbsent(PathsOf(d), EntryValues(d), p);
  }
}
