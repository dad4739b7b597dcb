/**
 * The values a caller hands to `update`: scalars, ordered maps (a Ruby Hash
 * keeps insertion order), arrays, and the two sentinels `:DELETE` and
 * `:SERVER_TIME`. Timestamps and floating-point values are not modelled.
 */
module Values {

  datatype Value =
    | IntValue(i: int)
    | StringValue(s: string)
    | BoolValue(b: bool)
    | MapValue(fields: seq<Field>)
    | ArrayValue(items: seq<Value>)
      /** `:DELETE`: remove the field. */
    | Delete
      /** `:SERVER_TIME`: set the field to the commit time on the server. */
    | ServerTime

  /** One key/value entry of a map, in insertion order. */
  datatype Field = Field(key: string, value: Value)

  /** The two sentinels, as a kind to ask about. */
  datatype Sentinel = DeleteSentinel | ServerTimeSentinel

  predicate IsSentinel(v: Value, s: Sentinel)
  {
    match s
    case DeleteSentinel => v.Delete?
    case ServerTimeSentinel => v.ServerTime?
  }

  /** The keys of a map, in order. */
  function Keys(fields: seq<Field>): (ks: seq<string>)
    ensures |ks| == |fields|
    ensures forall i :: 0 <= i < |fields| ==> ks[i] == fields[i].key
  {
    if fields == [] then [] else [fields[0].key] + Keys(fields[1..])
  }

  // ---------------------------------------------------------------------
  // Where a sentinel occurs

  /** `v` is, or contains at any depth, the sentinel `s`. */
  predicate Mentions(v: Value, s: Sentinel)
  {
    match v
    case MapValue(fields) => FieldsMention(fields, s)
    case ArrayValue(items) => ItemsMention(items, s)
    case _ => IsSentinel(v, s)
  }

  predicate FieldsMention(fields: seq<Field>, s: Sentinel)
  {
    fields != [] && (Mentions(fields[0].value, s) || FieldsMention(fields[1..], s))
  }

  predicate ItemsMention(items: seq<Value>, s: Sentinel)
  {
    items != [] && (Mentions(items[0], s) || ItemsMention(items[1..], s))
  }

  /** Some array inside `v` (or `v` itself) holds the sentinel `s` at any depth. */
  predicate UnderArray(v: Value, s: Sentinel)
  {
    match v
    case MapValue(fields) => FieldsUnderArray(fields, s)
    case ArrayValue(items) => ItemsMention(items, s)
    case _ => false
  }

  predicate FieldsUnderArray(fields: seq<Field>, s: Sentinel)
  {
    fields != [] && (UnderArray(fields[0].value, s) || FieldsUnderArray(fields[1..], s))
  }

  /** `v` is the sentinel `s`, or reaches it through maps alone, without entering an array. */
  predicate OutsideArrays(v: Value, s: Sentinel)
  {
    match v
    case MapValue(fields) => FieldsOutsideArrays(fields, s)
    case ArrayValue(_) => false
    case _ => IsSentinel(v, s)
  }

  predicate FieldsOutsideArrays(fields: seq<Field>, s: Sentinel)
  {
    fields != [] && (OutsideArrays(fields[0].value, s) || FieldsOutsideArrays(fields[1..], s))
  }

  /** An array's elements mention the sentinel exactly when one element does. */
  lemma {:induction false} ItemsMentionAt(items: seq<Value>, s: Sentinel)
    ensures ItemsMention(items, s) <==> exists k :: 0 <= k < |items| && Mentions(items[k], s)
  {
    if items != [] {
      ItemsMentionAt(items[1..], s);
      if ItemsMention(items[1..], s) {
        var k :| 0 <= k < |items[1..]| && Mentions(items[1..][k], s);
        assert Mentions(items[k + 1], s);
      }
      if exists k :: 0 <= k < |items| && Mentions(items[k], s) {
        var k :| 0 <= k < |items| && Mentions(items[k], s);
        if k > 0 {
          assert Mentions(items[1..][k - 1], s);
        }
      }
    }
  }

  // ---------------------------------------------------------------------
  // The errors `update` raises

  /** The ArgumentErrors `update` raises while planning. */
  datatype UpdateError =
    | DataRequired
    | InvalidCharacter
    | EmptyPaths
    | PrefixConflict
    | NestedDelete
    | DeleteUnderArray
    | ServerTimeUnderArray

  function Message(e: UpdateError): string
  {
    match e
    case DataRequired => "data is required"
    case InvalidCharacter => "invalid character"
    case EmptyPaths => "empty paths not allowed"
    case PrefixConflict => "one field cannot be a prefix of another"
    case NestedDelete => "DELETE cannot be nested"
    case DeleteUnderArray => "cannot nest DELETE under arrays"
    case ServerTimeUnderArray => "cannot nest SERVER_TIME under arrays"
  }
}
