/**
 * Building a nested map from dotted top-level keys (`extract_field_paths`):
 * each key is split on `.` and its value is stored, unchanged, at the end of
 * that path, creating intermediate maps as needed. Keys found inside the
 * values are never split.
 */
module Nesting {
  import opened Wrappers
  import opened Splitting
  import opened Values

  /** Index of the first entry with `key`, or `|fields|` when there is none. */
  function FindKey(fields: seq<Field>, key: string): (i: nat)
    ensures i <= |fields|
    ensures i < |fields| ==> fields[i].key == key
    ensures forall j :: 0 <= j < i ==> fields[j].key != key
  {
    if fields == [] then 0
    else if fields[0].key == key then 0
    else 1 + FindKey(fields[1..], key)
  }

  /** The value stored at `path`, following maps (the first entry for each key). */
  function Lookup(fields: seq<Field>, path: seq<string>): Option<Value>
    requires path != []
    decreases |path|
  {
    var i := FindKey(fields, path[0]);
    if i == |fields| then None
    else if |path| == 1 then Some(fields[i].value)
    else
      match fields[i].value
      case MapValue(inner) => Lookup(inner, path[1..])
      case _ => None
  }

  /** Stores `v` at `path`, descending into maps already there and creating the rest. */
  function Insert(fields: seq<Field>, path: seq<string>, v: Value): (r: seq<Field>)
    requires path != []
    decreases |path|
  {
    var i := FindKey(fields, path[0]);
    var child :=
      if |path| == 1 then v
      else
        var inner := if i < |fields| && fields[i].value.MapValue? then fields[i].value.fields else [];
        MapValue(Insert(inner, path[1..], v));
    if i < |fields| then fields[i := Field(path[0], child)] else fields + [Field(path[0], child)]
  }

  /** `p` is a (not necessarily strict) prefix of `q`. */
  predicate Prefix(p: seq<string>, q: seq<string>)
  {
    |p| <= |q| && q[..|p|] == p
  }

  /** No path is a prefix of, or equal to, another one. */
  predicate Unrelated(paths: seq<seq<string>>)
  {
    forall i, j :: 0 <= i < |paths| && 0 <= j < |paths| && i != j ==> !Prefix(paths[i], paths[j])
  }

  /** Every path is a prefix of itself, so unrelated paths are pairwise different. */
  lemma PrefixReflexive(p: seq<string>)
    ensures Prefix(p, p)
  {
    assert p[..|p|] == p;
  }

  /** Dropping the first path keeps the rest unrelated. */
  lemma UnrelatedTail(paths: seq<seq<string>>)
    requires paths != [] && Unrelated(paths)
    ensures Unrelated(paths[1..])
  {
    var tail := paths[1..];
    forall i, j | 0 <= i < |tail| && 0 <= j < |tail| && i != j
      ensures !Prefix(tail[i], tail[j])
    {
      assert tail[i] == paths[i + 1] && tail[j] == paths[j + 1];
    }
  }

  /** A path unrelated to each of a list of unrelated paths can be put in front of them. */
  lemma UnrelatedCons(p: seq<string>, paths: seq<seq<string>>)
    requires Unrelated(paths)
    requires forall i :: 0 <= i < |paths| ==> !Prefix(p, paths[i]) && !Prefix(paths[i], p)
    ensures Unrelated([p] + paths)
  {
    var all := [p] + paths;
    forall i, j | 0 <= i < |all| && 0 <= j < |all| && i != j
      ensures !Prefix(all[i], all[j])
    {
      if i == 0 {
        assert all[j] == paths[j - 1];
      } else if j == 0 {
        assert all[i] == paths[i - 1];
      } else {
        assert all[i] == paths[i - 1] && all[j] == paths[j - 1];
      }
    }
  }

  /** Stores each entry's value at its path, in order. */
  function Nest(paths: seq<seq<string>>, values: seq<Value>): seq<Field>
    requires |paths| == |values|
    requires forall k :: 0 <= k < |paths| ==> paths[k] != []
  {
    if paths == [] then []
    else
      var n := |paths| - 1;
      Insert(Nest(paths[..n], values[..n]), paths[n], values[n])
  }

  /** The key of every entry, split on dots. */
  function SplitKeys(data: seq<Field>): (paths: seq<seq<string>>)
    ensures |paths| == |data|
    ensures forall k :: 0 <= k < |data| ==> paths[k] == Split(data[k].key, '.')
  {
    if data == [] then [] else [Split(data[0].key, '.')] + SplitKeys(data[1..])
  }

  /** The value of every entry. */
  function ValuesOf(data: seq<Field>): (values: seq<Value>)
    ensures |values| == |data|
    ensures forall k :: 0 <= k < |data| ==> values[k] == data[k].value
  {
    if data == [] then [] else [data[0].value] + ValuesOf(data[1..])
  }

  /**
   * `extract_field_paths`: the nested map and, for every input key, the key
   * itself as its field path, in input order.
   */
  function ExtractFieldPaths(data: seq<Field>): (r: (seq<Field>, seq<string>))
    ensures |r.1| == |data|
    ensures forall k :: 0 <= k < |data| ==> r.1[k] == data[k].key
    ensures data == [] ==> r.0 == []
  {
    (Nest(SplitKeys(data), ValuesOf(data)), Keys(data))
  }

  // ---------------------------------------------------------------------
  // Lookups after insertion

  /** Rewriting the entry at the key's own index keeps every key's position. */
  lemma FindKeySameKeys(a: seq<Field>, b: seq<Field>, key: string)
    requires |a| == |b|
    requires forall k :: 0 <= k < |a| ==> a[k].key == b[k].key
    ensures FindKey(a, key) == FindKey(b, key)
  {
  }

  /** Appending an entry for a missing key puts it at the end. */
  lemma FindKeyAppend(fields: seq<Field>, f: Field, key: string)
    requires FindKey(fields, f.key) == |fields|
    ensures FindKey(fields + [f], key) ==
      if FindKey(fields, key) < |fields| then FindKey(fields, key)
      else if key == f.key then |fields| else |fields| + 1
  {
    var s := fields + [f];
    var i := FindKey(fields, key);
    var j := FindKey(s, key);
    assert forall k :: 0 <= k < |fields| ==> s[k] == fields[k];
    if i < |fields| {
      assert s[i].key == key;
    } else if key == f.key {
      assert s[|fields|].key == key;
    }
  }

  /** After inserting at a path, that path holds the inserted value. */
  lemma {:induction false} LookupInsertSame(fields: seq<Field>, path: seq<string>, v: Value)
    requires path != []
    ensures Lookup(Insert(fields, path, v), path) == Some(v)
    decreases |path|
  {
    var i := FindKey(fields, path[0]);
    var r := Insert(fields, path, v);
    if i < |fields| {
      FindKeySameKeys(fields, r, path[0]);
    } else {
      FindKeyAppend(fields, r[|fields|], path[0]);
    }
    assert FindKey(r, path[0]) == i;
    if |path| > 1 {
      var inner := if i < |fields| && fields[i].value.MapValue? then fields[i].value.fields else [];
      LookupInsertSame(inner, path[1..], v);
    }
  }

  /** Inserting at a path unrelated to `p` leaves what `p` holds unchanged. */
  lemma {:induction false} LookupInsertOther(fields: seq<Field>, p: seq<string>, q: seq<string>, v: Value)
    requires p != [] && q != []
    requires !Prefix(p, q) && !Prefix(q, p)
    ensures Lookup(Insert(fields, q, v), p) == Lookup(fields, p)
    decreases |q|, 1
  {
    if p[0] == q[0] {
      LookupInsertBelow(fields, p, q, v);
    } else {
      LookupInsertAside(fields, p, q, v);
    }
  }

  /** Inserting under another key leaves an entry untouched. */
  lemma LookupInsertAside(fields: seq<Field>, p: seq<string>, q: seq<string>, v: Value)
    requires p != [] && q != [] && p[0] != q[0]
    ensures Lookup(Insert(fields, q, v), p) == Lookup(fields, p)
  {
    var r := Insert(fields, q, v);
    FindKeyInsertOther(fields, q, v, p[0]);
    var j := FindKey(fields, p[0]);
    if j < |fields| {
      assert FindKey(r, p[0]) == j && r[j] == fields[j];
    } else {
      assert FindKey(r, p[0]) == |r|;
    }
  }

  /** Where another key sits after an insertion: where it was, or past the end if absent. */
  lemma FindKeyInsertOther(fields: seq<Field>, q: seq<string>, v: Value, key: string)
    requires q != [] && key != q[0]
    ensures var r := Insert(fields, q, v); var j := FindKey(fields, key);
      && |r| >= |fields|
      && (j < |fields| ==> FindKey(r, key) == j && r[j] == fields[j])
      && (j == |fields| ==> FindKey(r, key) == |r|)
  {
    var i := FindKey(fields, q[0]);
    var r := Insert(fields, q, v);
    if i < |fields| {
      FindKeySameKeys(fields, r, key);
    } else {
      FindKeyAppend(fields, r[|fields|], key);
    }
  }

  /** A path is a prefix of another with the same first segment exactly when its tail is a prefix of the other's tail. */
  lemma PrefixCons(p: seq<string>, q: seq<string>)
    requires p != [] && q != [] && p[0] == q[0]
    ensures Prefix(p, q) <==> |p| == 1 || Prefix(p[1..], q[1..])
  {
    if |p| <= |q| {
      assert q[..|p|] == [q[0]] + q[1..][..|p| - 1];
      assert p == [p[0]] + p[1..];
    }
  }

  /** The case of LookupInsertOther where both paths start in the same entry. */
  lemma {:induction false} LookupInsertBelow(fields: seq<Field>, p: seq<string>, q: seq<string>, v: Value)
    requires p != [] && q != [] && p[0] == q[0]
    requires !Prefix(p, q) && !Prefix(q, p)
    ensures Lookup(Insert(fields, q, v), p) == Lookup(fields, p)
    decreases |q|, 0
  {
    PrefixCons(p, q);
    PrefixCons(q, p);
    assert |p| > 1 && |q| > 1;
    var i := FindKey(fields, q[0]);
    var r := Insert(fields, q, v);
    var inner := if i < |fields| && fields[i].value.MapValue? then fields[i].value.fields else [];
    var child := MapValue(Insert(inner, q[1..], v));
    if i < |fields| {
      assert r == fields[i := Field(q[0], child)];
      FindKeySameKeys(fields, r, p[0]);
    } else {
      assert r == fields + [Field(q[0], child)];
      FindKeyAppend(fields, r[|fields|], p[0]);
    }
    assert FindKey(r, p[0]) == i && r[i].value == child;
    LookupStep(fields, p);
    LookupStep(r, p);
    LookupInsertOther(inner, p[1..], q[1..], v);
  }

  /** A lookup of two or more segments continues inside the map found under the first one. */
  lemma LookupStep(fields: seq<Field>, p: seq<string>)
    requires |p| > 1
    ensures var i := FindKey(fields, p[0]);
      var inner := if i < |fields| && fields[i].value.MapValue? then fields[i].value.fields else [];
      Lookup(fields, p) == Lookup(inner, p[1..])
  {
    assert Lookup([], p[1..]) == None;
  }

  /** Every entry's value can be found at its path when the paths are unrelated. */
  lemma {:induction false} LookupNest(paths: seq<seq<string>>, values: seq<Value>, k: nat)
    requires |paths| == |values| && k < |paths|
    requires forall j :: 0 <= j < |paths| ==> paths[j] != []
    requires Unrelated(paths)
    ensures Lookup(Nest(paths, values), paths[k]) == Some(values[k])
  {
    var n := |paths| - 1;
    if k == n {
      LookupInsertSame(Nest(paths[..n], values[..n]), paths[n], values[n]);
    } else {
      assert !Prefix(paths[k], paths[n]) && !Prefix(paths[n], paths[k]);
      LookupInsertOther(Nest(paths[..n], values[..n]), paths[k], paths[n], values[n]);
      LookupNest(paths[..n], values[..n], k);
    }
  }

  /** A path unrelated to every entry's path holds nothing. */
  lemma {:induction false} LookupNestAbsent(paths: seq<seq<string>>, values: seq<Value>, p: seq<string>)
    requires |paths| == |values|
    requires forall j :: 0 <= j < |paths| ==> paths[j] != []
    requires p != []
    requires forall j :: 0 <= j < |paths| ==> !Prefix(p, paths[j]) && !Prefix(paths[j], p)
    ensures Lookup(Nest(paths, values), p) == None
  {
    if paths != [] {
      var n := |paths| - 1;
      LookupInsertOther(Nest(paths[..n], values[..n]), p, paths[n], values[n]);
      LookupNestAbsent(paths[..n], values[..n], p);
    }
  }

  /**
   * Each value of `extract_field_paths`'s input reaches, unchanged, the slot
   * named by its key's dotted segments, provided no key's segments are a
   * prefix of another's.
   */
  lemma ExtractFieldPathsLookup(data: seq<Field>, k: nat)
    requires k < |data|
    requires forall i, j :: 0 <= i < |data| && 0 <= j < |data| && i != j ==>
      !Prefix(Split(data[i].key, '.'), Split(data[j].key, '.'))
    ensures Lookup(ExtractFieldPaths(data).0, Split(data[k].key, '.')) == Some(data[k].value)
  {
    LookupNest(SplitKeys(data), ValuesOf(data), k);
  }
}
