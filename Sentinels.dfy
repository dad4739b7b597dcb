/**
 * Where `update` accepts the two sentinels, and how it takes them out of the
 * data. `:DELETE` is accepted only as a whole top-level value; `:SERVER_TIME`
 * anywhere outside arrays. Every SERVER_TIME leaf is removed from the data
 * (a map left empty by the removal goes too) and its path is collected for
 * the transform write.
 */
module Sentinels {
  import opened Wrappers
  import opened Values

  // ---------------------------------------------------------------------
  // Placement checks

  /**
   * The first misplaced sentinel inside `v`, depth first in key order;
   * `inArray` says whether an array encloses `v`.
   */
  function NestedError(v: Value, inArray: bool): Option<UpdateError>
  {
    match v
    case Delete => Some(if inArray then DeleteUnderArray else NestedDelete)
    case ServerTime => if inArray then Some(ServerTimeUnderArray) else None
    case MapValue(fields) => FieldsError(fields, inArray)
    case ArrayValue(items) => ItemsError(items)
    case _ => None
  }

  function FieldsError(fields: seq<Field>, inArray: bool): Option<UpdateError>
  {
    if fields == [] then None
    else
      var e := NestedError(fields[0].value, inArray);
      if e.Some? then e else FieldsError(fields[1..], inArray)
  }

  function ItemsError(items: seq<Value>): Option<UpdateError>
  {
    if items == [] then None
    else
      var e := NestedError(items[0], true);
      if e.Some? then e else ItemsError(items[1..])
  }

  /** The check on a caller's top-level value: a bare `:DELETE` is allowed there. */
  function TopLevelError(v: Value): Option<UpdateError>
  {
    if v.Delete? then None else NestedError(v, false)
  }

  /** No DELETE at all, no SERVER_TIME under an array, and none at all when an array encloses `v`. */
  predicate Allowed(v: Value, inArray: bool)
  {
    && !Mentions(v, DeleteSentinel)
    && !UnderArray(v, ServerTimeSentinel)
    && (inArray ==> !Mentions(v, ServerTimeSentinel))
  }

  /** What `update` accepts as a top-level value. */
  predicate TopLevelAllowed(v: Value)
  {
    v.Delete? || Allowed(v, false)
  }

  /** A sentinel under an array is always mentioned by the value too. */
  lemma {:induction false} UnderArrayMentions(v: Value, s: Sentinel)
    ensures UnderArray(v, s) ==> Mentions(v, s)
    decreases v
  {
    if v.MapValue? {
      FieldsUnderArrayMention(v.fields, s);
    }
  }

  lemma {:induction false} FieldsUnderArrayMention(fields: seq<Field>, s: Sentinel)
    ensures FieldsUnderArray(fields, s) ==> FieldsMention(fields, s)
    decreases fields
  {
    if fields != [] {
      UnderArrayMentions(fields[0].value, s);
      FieldsUnderArrayMention(fields[1..], s);
    }
  }

  /**
   * The check finds nothing exactly when the value is allowed, and each error
   * names a sentinel that is really there: a DELETE reached through maps
   * alone, DELETE under an array, SERVER_TIME under an array. So a value whose
   * every DELETE sits under an array never gets `NestedDelete`.
   */
  lemma {:induction false} NestedErrorSpec(v: Value, inArray: bool)
    ensures NestedError(v, inArray).None? <==> Allowed(v, inArray)
    ensures NestedError(v, inArray) == Some(NestedDelete) ==> !inArray && OutsideArrays(v, DeleteSentinel)
    ensures NestedError(v, inArray) == Some(DeleteUnderArray) ==>
      (inArray && Mentions(v, DeleteSentinel)) || UnderArray(v, DeleteSentinel)
    ensures NestedError(v, inArray) == Some(ServerTimeUnderArray) ==>
      (inArray && Mentions(v, ServerTimeSentinel)) || UnderArray(v, ServerTimeSentinel)
    ensures NestedError(v, inArray).Some? ==> NestedError(v, inArray).value in {NestedDelete, DeleteUnderArray, ServerTimeUnderArray}
    decreases v
  {
    match v
    case MapValue(fields) => FieldsErrorSpec(fields, inArray);
    case ArrayValue(items) =>
      ItemsErrorSpec(items);
    case _ =>
  }

  lemma {:induction false} FieldsErrorSpec(fields: seq<Field>, inArray: bool)
    ensures FieldsError(fields, inArray).None? <==>
      && !FieldsMention(fields, DeleteSentinel)
      && !FieldsUnderArray(fields, ServerTimeSentinel)
      && (inArray ==> !FieldsMention(fields, ServerTimeSentinel))
    ensures FieldsError(fields, inArray) == Some(NestedDelete) ==> !inArray && FieldsOutsideArrays(fields, DeleteSentinel)
    ensures FieldsError(fields, inArray) == Some(DeleteUnderArray) ==>
      (inArray && FieldsMention(fields, DeleteSentinel)) || FieldsUnderArray(fields, DeleteSentinel)
    ensures FieldsError(fields, inArray) == Some(ServerTimeUnderArray) ==>
      (inArray && FieldsMention(fields, ServerTimeSentinel)) || FieldsUnderArray(fields, ServerTimeSentinel)
    ensures FieldsError(fields, inArray).Some? ==> FieldsError(fields, inArray).value in {NestedDelete, DeleteUnderArray, ServerTimeUnderArray}
    decreases fields
  {
    if fields != [] {
      NestedErrorSpec(fields[0].value, inArray);
      FieldsErrorSpec(fields[1..], inArray);
    }
  }

  lemma {:induction false} ItemsErrorSpec(items: seq<Value>)
    ensures ItemsError(items).None? <==> !ItemsMention(items, DeleteSentinel) && !ItemsMention(items, ServerTimeSentinel)
    ensures ItemsError(items) == Some(DeleteUnderArray) ==> ItemsMention(items, DeleteSentinel)
    ensures ItemsError(items) == Some(ServerTimeUnderArray) ==> ItemsMention(items, ServerTimeSentinel)
    ensures ItemsError(items).Some? ==> ItemsError(items).value in {DeleteUnderArray, ServerTimeUnderArray}
    decreases items
  {
    if items != [] {
      NestedErrorSpec(items[0], true);
      UnderArrayMentions(items[0], ServerTimeSentinel);
      UnderArrayMentions(items[0], DeleteSentinel);
      ItemsErrorSpec(items[1..]);
    }
  }

  /** The top-level check accepts exactly the allowed top-level values. */
  lemma TopLevelErrorSpec(v: Value)
    ensures TopLevelError(v).None? <==> TopLevelAllowed(v)
    ensures TopLevelError(v).Some? ==> TopLevelError(v).value in {NestedDelete, DeleteUnderArray, ServerTimeUnderArray}
  {
    NestedErrorSpec(v, false);
  }

  /**
   * A top-level value whose DELETEs all sit under arrays, at any depth and
   * behind any maps, and that has no SERVER_TIME under an array, is refused
   * with "cannot nest DELETE under arrays".
   */
  lemma DeleteOnlyUnderArrays(v: Value)
    requires UnderArray(v, DeleteSentinel) && !OutsideArrays(v, DeleteSentinel)
    requires !UnderArray(v, ServerTimeSentinel)
    ensures TopLevelError(v) == Some(DeleteUnderArray)
  {
    NestedErrorSpec(v, false);
    UnderArrayMentions(v, DeleteSentinel);
  }

  // ---------------------------------------------------------------------
  // Taking SERVER_TIME out

  /**
   * The value with every SERVER_TIME leaf removed; `None` when nothing is
   * left of it (a SERVER_TIME, or a map that only held them). Arrays are
   * kept whole: they may not hold SERVER_TIME.
   */
  function Strip(v: Value): Option<Value>
  {
    match v
    case ServerTime => None
    case MapValue(fields) =>
      if fields == [] then Some(v)
      else
        var kept := StripFields(fields);
        if kept == [] then None else Some(MapValue(kept))
    case _ => Some(v)
  }

  function StripFields(fields: seq<Field>): seq<Field>
  {
    if fields == [] then []
    else
      var rest := StripFields(fields[1..]);
      match Strip(fields[0].value)
      case Some(w) => [Field(fields[0].key, w)] + rest
      case None => rest
  }

  /** `[key] + p` for every path `p`. */
  function Under(key: string, paths: seq<seq<string>>): (r: seq<seq<string>>)
    ensures |r| == |paths|
    ensures forall i :: 0 <= i < |paths| ==> r[i] == [key] + paths[i]
  {
    if paths == [] then [] else [[key] + paths[0]] + Under(key, paths[1..])
  }

  /** The path of every SERVER_TIME leaf inside `v`, depth first in key order. */
  function ServerTimePaths(v: Value): seq<seq<string>>
  {
    match v
    case ServerTime => [[]]
    case MapValue(fields) => FieldsServerTimePaths(fields)
    case _ => []
  }

  function FieldsServerTimePaths(fields: seq<Field>): seq<seq<string>>
  {
    if fields == [] then []
    else Under(fields[0].key, ServerTimePaths(fields[0].value)) + FieldsServerTimePaths(fields[1..])
  }

  /** Following `path` through maps from `v` reaches a SERVER_TIME. */
  ghost predicate ServerTimeAt(v: Value, path: seq<string>)
    decreases v
  {
    if path == [] then v.ServerTime?
    else
      && v.MapValue?
      && exists k :: 0 <= k < |v.fields| && v.fields[k].key == path[0] && ServerTimeAt(v.fields[k].value, path[1..])
  }

  /** A value loses nothing to stripping when it holds no SERVER_TIME, and then has no server-time paths. */
  lemma {:induction false} StripUnchanged(v: Value)
    requires !Mentions(v, ServerTimeSentinel)
    ensures Strip(v) == Some(v)
    ensures ServerTimePaths(v) == []
    decreases v
  {
    if v.MapValue? && v.fields != [] {
      StripFieldsUnchanged(v.fields);
    }
  }

  lemma {:induction false} StripFieldsUnchanged(fields: seq<Field>)
    requires !FieldsMention(fields, ServerTimeSentinel)
    ensures StripFields(fields) == fields
    ensures FieldsServerTimePaths(fields) == []
    decreases fields
  {
    if fields != [] {
      StripUnchanged(fields[0].value);
      StripFieldsUnchanged(fields[1..]);
      assert [Field(fields[0].key, fields[0].value)] + fields[1..] == fields;
    }
  }

  /** What stripping keeps holds no SERVER_TIME, provided none sits under an array. */
  lemma {:induction false} StripClean(v: Value)
    requires !UnderArray(v, ServerTimeSentinel)
    ensures Strip(v).Some? ==> !Mentions(Strip(v).value, ServerTimeSentinel)
    decreases v
  {
    if v.MapValue? && v.fields != [] {
      StripFieldsClean(v.fields);
    }
  }

  lemma {:induction false} StripFieldsClean(fields: seq<Field>)
    requires !FieldsUnderArray(fields, ServerTimeSentinel)
    ensures !FieldsMention(StripFields(fields), ServerTimeSentinel)
    decreases fields
  {
    if fields != [] {
      StripClean(fields[0].value);
      StripFieldsClean(fields[1..]);
      var rest := StripFields(fields[1..]);
      if Strip(fields[0].value).Some? {
        var r := [Field(fields[0].key, Strip(fields[0].value).value)] + rest;
        assert r[1..] == rest;
      }
    }
  }

  /** A value that stripping removes entirely has at least one server-time path. */
  lemma {:induction false} StripGone(v: Value)
    ensures Strip(v).None? ==> ServerTimePaths(v) != []
    decreases v
  {
    if v.MapValue? && v.fields != [] {
      StripFieldsGone(v.fields);
    }
  }

  lemma {:induction false} StripFieldsGone(fields: seq<Field>)
    ensures fields != [] && StripFields(fields) == [] ==> FieldsServerTimePaths(fields) != []
    decreases fields
  {
    if fields != [] {
      StripGone(fields[0].value);
      StripFieldsGone(fields[1..]);
    }
  }

  /** A path is among `Under(key, paths)` exactly when it is `key` followed by one of `paths`. */
  lemma UnderMember(key: string, paths: seq<seq<string>>, p: seq<string>)
    ensures p in Under(key, paths) <==> p != [] && p[0] == key && p[1..] in paths
  {
    var r := Under(key, paths);
    if p != [] && p[0] == key && p[1..] in paths {
      var i :| 0 <= i < |paths| && paths[i] == p[1..];
      assert r[i] == p;
    }
  }

  /** The collected paths are exactly the paths that lead to a SERVER_TIME. */
  lemma {:induction false} ServerTimePathsSpec(v: Value, p: seq<string>)
    ensures p in ServerTimePaths(v) <==> ServerTimeAt(v, p)
    decreases v
  {
    match v
    case MapValue(fields) =>
      FieldsServerTimePathsSpec(fields, p);
    case _ =>
  }

  lemma {:induction false} FieldsServerTimePathsSpec(fields: seq<Field>, p: seq<string>)
    ensures p in FieldsServerTimePaths(fields) <==>
      p != [] && exists k :: 0 <= k < |fields| && fields[k].key == p[0] && ServerTimeAt(fields[k].value, p[1..])
    decreases fields
  {
    if fields != [] {
      var head := Under(fields[0].key, ServerTimePaths(fields[0].value));
      var rest := fields[1..];
      UnderMember(fields[0].key, ServerTimePaths(fields[0].value), p);
      FieldsServerTimePathsSpec(rest, p);
      if p != [] {
        ServerTimePathsSpec(fields[0].value, p[1..]);
        if p in FieldsServerTimePaths(rest) {
          var k :| 0 <= k < |rest| && rest[k].key == p[0] && ServerTimeAt(rest[k].value, p[1..]);
          assert fields[k + 1] == rest[k];
        }
        if exists k :: 0 <= k < |fields| && fields[k].key == p[0] && ServerTimeAt(fields[k].value, p[1..]) {
          var k :| 0 <= k < |fields| && fields[k].key == p[0] && ServerTimeAt(fields[k].value, p[1..]);
          if k > 0 {
            assert rest[k - 1] == fields[k];
          }
        }
      }
    }
  }
}
