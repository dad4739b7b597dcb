/**
 * Splitting strings on a one-character separator, as Ruby's `String#split`
 * does it, and joining pieces back together as `Array#join` does.
 *
 * `Split` cuts at EVERY separator and keeps every piece, empty ones included;
 * it is the exact inverse of `Join`. Ruby's `split(sep)` without a limit is
 * `DropTrailingEmpty(Split(s, sep))`; `split(sep, n)` is `SplitAtMost`,
 * except that both give `[]` on the empty string.
 */
module Splitting {
  import opened Wrappers

  /** Index of the first `sep` in `s`, or `|s|` when `s` has none. */
  function FindChar(s: string, sep: char): (i: nat)
    ensures i <= |s|
    ensures i < |s| ==> s[i] == sep
    ensures forall j :: 0 <= j < i ==> s[j] != sep
  {
    if s == [] then 0
    else if s[0] == sep then 0
    else 1 + FindChar(s[1..], sep)
  }

  /** Every piece of `s` between separators, empty pieces included. */
  function Split(s: string, sep: char): (parts: seq<string>)
    ensures |parts| >= 1
    ensures forall k :: 0 <= k < |parts| ==> sep !in parts[k]
    decreases |s|
  {
    var i := FindChar(s, sep);
    if i == |s| then
      [s]
    else
      assert forall j :: 0 <= j < i ==> s[..i][j] != sep;
      [s[..i]] + Split(s[i + 1..], sep)
  }

  /** The pieces glued together with `sep` between neighbours (`[].join` is ""). */
  function Join(parts: seq<string>, sep: char): string
  {
    if parts == [] then ""
    else if |parts| == 1 then parts[0]
    else parts[0] + [sep] + Join(parts[1..], sep)
  }

  /** Joining five parts puts the separator between each two. */
  lemma JoinFive(a: string, b: string, c: string, d: string, e: string, sep: char)
    ensures Join([a, b, c, d, e], sep) == a + [sep] + b + [sep] + c + [sep] + d + [sep] + e
  {
    var s := [a, b, c, d, e];
    assert s[1..] == [b, c, d, e] && s[2..] == [c, d, e] && s[3..] == [d, e] && s[4..] == [e];
    assert Join([d, e], sep) == d + [sep] + e by { assert [d, e][1..] == [e]; }
    assert Join([c, d, e], sep) == c + [sep] + (d + [sep] + e) by { assert [c, d, e][1..] == [d, e]; }
    assert Join([b, c, d, e], sep) == b + [sep] + (c + [sep] + (d + [sep] + e)) by { assert [b, c, d, e][1..] == [c, d, e]; }
  }

  /** Ruby's `split` without a limit drops the empty pieces at the end. */
  function DropTrailingEmpty(parts: seq<string>): (r: seq<string>)
    ensures |r| <= |parts| && r == parts[..|r|]
    ensures r == [] || r[|r| - 1] != ""
    ensures forall k :: |r| <= k < |parts| ==> parts[k] == ""
  {
    if parts == [] then []
    else if parts[|parts| - 1] == "" then DropTrailingEmpty(parts[..|parts| - 1])
    else parts
  }

  /** `s.split(sep)` in Ruby. */
  function RubySplit(s: string, sep: char): seq<string>
  {
    DropTrailingEmpty(Split(s, sep))
  }

  /** Split at the first `limit - 1` separators only; the last piece keeps the rest. */
  function SplitAtMost(s: string, sep: char, limit: nat): (parts: seq<string>)
    requires limit >= 1
    ensures 1 <= |parts| <= limit
    ensures Join(parts, sep) == s
    ensures forall k :: 0 <= k < |parts| - 1 ==> sep !in parts[k]
    ensures |parts| < limit ==> sep !in parts[|parts| - 1]
    decreases |s|
  {
    var i := FindChar(s, sep);
    if limit == 1 || i == |s| then
      [s]
    else
      var rest := SplitAtMost(s[i + 1..], sep, limit - 1);
      assert forall j :: 0 <= j < i ==> s[..i][j] != sep;
      assert ([s[..i]] + rest)[1..] == rest;
      assert s == s[..i] + [sep] + s[i + 1..];
      [s[..i]] + rest
  }

  /** `s.split(sep, limit)` in Ruby (a positive limit keeps trailing empty pieces). */
  function RubySplitLimit(s: string, sep: char, limit: nat): seq<string>
    requires limit >= 1
  {
    if s == "" then [] else SplitAtMost(s, sep, limit)
  }

  /** `a[i]` in Ruby: nil past the end. */
  function At(parts: seq<string>, i: nat): (r: Option<string>)
    ensures r.Some? <==> i < |parts|
    ensures r.Some? ==> r.value == parts[i]
  {
    if i < |parts| then Some(parts[i]) else None
  }

  /** `a.last` in Ruby: nil on the empty array. */
  function Last(parts: seq<string>): (r: Option<string>)
    ensures r.Some? <==> parts != []
    ensures r.Some? ==> r.value == parts[|parts| - 1]
  {
    if parts == [] then None else Some(parts[|parts| - 1])
  }

  /** `a[0...-1]` in Ruby: everything but the last element (`[]` stays `[]`). */
  function AllButLast(parts: seq<string>): (r: seq<string>)
    ensures parts != [] ==> r + [parts[|parts| - 1]] == parts
    ensures parts == [] ==> r == []
  {
    if parts == [] then [] else parts[..|parts| - 1]
  }

  // ---------------------------------------------------------------------
  // Split and Join are inverse to each other.

  /** Gluing the pieces back gives the original string. */
  lemma {:induction false} JoinSplit(s: string, sep: char)
    ensures Join(Split(s, sep), sep) == s
    decreases |s|
  {
    var i := FindChar(s, sep);
    if i < |s| {
      JoinSplit(s[i + 1..], sep);
      var rest := Split(s[i + 1..], sep);
      TailOfFront(s[..i], rest);
      Around(s, i);
    }
  }

  /** Dropping the first piece of `[x] + rest` gives `rest`. */
  lemma TailOfFront(x: string, rest: seq<string>)
    ensures ([x] + rest)[1..] == rest
  {
  }

  /** A string is what comes before position `i`, the character there, and what comes after. */
  lemma Around(s: string, i: nat)
    requires i < |s|
    ensures s == s[..i] + [s[i]] + s[i + 1..]
  {
  }

  /** The first separator of `a + [sep] + b` is the one after `a` when `a` has none. */
  lemma FindCharAfter(a: string, b: string, sep: char)
    requires sep !in a
    ensures FindChar(a + [sep] + b, sep) == |a|
  {
    var s := a + [sep] + b;
    assert s[|a|] == sep;
    assert forall j :: 0 <= j < |a| ==> s[j] == a[j];
  }

  /** Splitting a sep-free string gives that string alone. */
  lemma FindCharAbsent(a: string, sep: char)
    requires sep !in a
    ensures FindChar(a, sep) == |a|
    ensures Split(a, sep) == [a]
  {
  }

  /** Pieces free of the separator are recovered by splitting their join. */
  lemma {:induction false} SplitJoin(parts: seq<string>, sep: char)
    requires |parts| >= 1
    requires forall k :: 0 <= k < |parts| ==> sep !in parts[k]
    ensures Split(Join(parts, sep), sep) == parts
  {
    if |parts| == 1 {
      FindCharAbsent(parts[0], sep);
    } else {
      var tail := Join(parts[1..], sep);
      var s := parts[0] + [sep] + tail;
      SplitJoin(parts[1..], sep);
      FindCharAfter(parts[0], tail, sep);
      assert s[..|parts[0]|] == parts[0];
      assert s[|parts[0]| + 1..] == tail;
      assert [parts[0]] + parts[1..] == parts;
    }
  }

  /** A separator between two strings separates their pieces. */
  lemma SplitConcat(a: string, b: string, sep: char)
    ensures Split(a + [sep] + b, sep) == Split(a, sep) + Split(b, sep)
  {
    var p, q := Split(a, sep), Split(b, sep);
    JoinSplit(a, sep);
    JoinSplit(b, sep);
    JoinConcat(p, q, sep);
    NoSeparatorConcat(p, q, sep);
    SplitJoin(p + q, sep);
  }

  /** Pieces without a separator stay so when two lists of them are put together. */
  lemma NoSeparatorConcat(p: seq<string>, q: seq<string>, sep: char)
    requires forall k :: 0 <= k < |p| ==> sep !in p[k]
    requires forall k :: 0 <= k < |q| ==> sep !in q[k]
    ensures forall k :: 0 <= k < |p + q| ==> sep !in (p + q)[k]
  {
    forall k | 0 <= k < |p + q|
      ensures sep !in (p + q)[k]
    {
      if k < |p| {
        assert (p + q)[k] == p[k];
      } else {
        assert (p + q)[k] == q[k - |p|];
      }
    }
  }

  /** Joining a concatenation puts one separator between the two joins. */
  lemma {:induction false} JoinConcat(p: seq<string>, q: seq<string>, sep: char)
    requires p != [] && q != []
    ensures Join(p + q, sep) == Join(p, sep) + [sep] + Join(q, sep)
  {
    if |p| > 1 {
      JoinConcat(p[1..], q, sep);
      assert (p + q)[1..] == p[1..] + q;
    } else {
      assert (p + q)[1..] == q;
    }
  }

  /** Exactly the strings without a separator split into one piece. */
  lemma SplitSingle(s: string, sep: char)
    ensures |Split(s, sep)| == 1 <==> sep !in s
  {
    if sep !in s {
      FindCharAbsent(s, sep);
    }
  }

  /** The last piece is empty exactly when `s` is empty or ends with the separator. */
  lemma {:induction false} LastPieceEmpty(s: string, sep: char)
    ensures var p := Split(s, sep); p[|p| - 1] == "" <==> (s == "" || s[|s| - 1] == sep)
    decreases |s|
  {
    var i := FindChar(s, sep);
    if i < |s| {
      var t := s[i + 1..];
      var p, q := Split(s, sep), Split(t, sep);
      assert p == [s[..i]] + q;
      assert p[|p| - 1] == q[|q| - 1];
      LastPieceEmpty(t, sep);
      if t != "" {
        assert s[|s| - 1] == t[|t| - 1];
      }
    } else {
      assert Split(s, sep) == [s];
      if s != "" {
        assert s[|s| - 1] != sep;
      }
    }
  }

  /** Ruby's split agrees with the full split when the last piece is not empty. */
  lemma RubySplitFull(s: string, sep: char)
    requires s != "" && s[|s| - 1] != sep
    ensures RubySplit(s, sep) == Split(s, sep)
  {
    LastPieceEmpty(s, sep);
  }

  /** Ruby's `a[i]` after the trailing empty pieces are dropped: piece `i`, when some piece from `i` on is not empty. */
  lemma AtDropTrailing(p: seq<string>, i: nat)
    ensures At(DropTrailingEmpty(p), i).Some? <==> exists k :: i <= k < |p| && p[k] != ""
    ensures At(DropTrailingEmpty(p), i).Some? ==> At(DropTrailingEmpty(p), i).value == p[i]
  {
    var r := DropTrailingEmpty(p);
    if i < |r| {
      assert p[|r| - 1] == r[|r| - 1];
    }
  }

  /** Ruby's `a.last` after the trailing empty pieces are dropped: the last piece that is not empty. */
  lemma LastDropTrailing(p: seq<string>)
    ensures Last(DropTrailingEmpty(p)).Some? <==> exists k :: 0 <= k < |p| && p[k] != ""
    ensures Last(DropTrailingEmpty(p)).Some? ==>
      exists k :: 0 <= k < |p| && p[k] == Last(DropTrailingEmpty(p)).value && p[k] != "" &&
        forall j :: k < j < |p| ==> p[j] == ""
  {
    var r := DropTrailingEmpty(p);
    if r != [] {
      assert p[|r| - 1] == r[|r| - 1];
    }
  }

  /** The pieces of a path with a `/` that does not end in one: all but the last, joined, then `/` and the last. */
  lemma JoinAllButLast(s: string, sep: char)
    requires sep in s && s[|s| - 1] != sep
    ensures var parts := RubySplit(s, sep);
      parts != [] && Join(AllButLast(parts), sep) + [sep] + parts[|parts| - 1] == s
  {
    var parts := Split(s, sep);
    RubySplitFull(s, sep);
    SplitSingle(s, sep);
    var init := AllButLast(parts);
    JoinConcat(init, [parts[|parts| - 1]], sep);
    JoinSplit(s, sep);
  }

  /** A string without the separator has no pieces before its last one. */
  lemma AllButLastFree(s: string, sep: char)
    requires sep !in s
    ensures AllButLast(RubySplit(s, sep)) == []
  {
    FindCharAbsent(s, sep);
  }

  /** Some piece is not empty exactly when some character is not the separator. */
  lemma {:induction false} SeparatorsOnly(s: string, sep: char)
    ensures (exists k :: 0 <= k < |Split(s, sep)| && Split(s, sep)[k] != "") <==> exists k :: 0 <= k < |s| && s[k] != sep
    decreases |s|
  {
    var i := FindChar(s, sep);
    var p := Split(s, sep);
    if i == |s| {
      assert p == [s];
      if s != "" {
        assert s[0] != sep && Split(s, sep)[0] == s;
        assert exists k :: 0 <= k < |s| && s[k] != sep;
        assert exists k :: 0 <= k < |Split(s, sep)| && Split(s, sep)[k] != "";
      }
    } else {
      var t := s[i + 1..];
      var q := Split(t, sep);
      assert p == [s[..i]] + q;
      SeparatorsOnly(t, sep);
      if exists k :: 0 <= k < |q| && q[k] != "" {
        var k :| 0 <= k < |q| && q[k] != "";
        assert p[k + 1] == q[k];
        var m :| 0 <= m < |t| && t[m] != sep;
        assert s[i + 1 + m] == t[m];
        assert exists k :: 0 <= k < |s| && s[k] != sep;
        assert exists k :: 0 <= k < |Split(s, sep)| && Split(s, sep)[k] != "";
      } else if i > 0 {
        assert p[0] == s[..i] && s[0] != sep;
        assert exists k :: 0 <= k < |s| && s[k] != sep;
        assert exists k :: 0 <= k < |Split(s, sep)| && Split(s, sep)[k] != "";
      } else {
        forall k | 0 <= k < |p|
          ensures p[k] == ""
        {
          if k > 0 {
            assert p[k] == q[k - 1];
          }
        }
        forall k | 0 <= k < |s|
          ensures s[k] == sep
        {
          if k > 0 {
            assert s[k] == t[k - 1];
          }
        }
      }
    }
  }

  /** The last piece ends the joined string, right after a separator when there are other pieces. */
  lemma JoinLastSuffix(parts: seq<string>, sep: char)
    requires parts != []
    ensures var l, s := parts[|parts| - 1], Join(parts, sep);
      && |l| <= |s| && s[|s| - |l|..] == l
      && (|parts| > 1 ==> |l| < |s| && s[|s| - |l| - 1] == sep)
  {
    if |parts| > 1 {
      var init, l := parts[..|parts| - 1], parts[|parts| - 1];
      assert init + [l] == parts;
      JoinConcat(init, [l], sep);
      var s := Join(init, sep) + [sep] + l;
      assert s[|s| - |l|..] == l;
      assert s[|s| - |l| - 1] == sep;
    }
  }

  /** Empty pieces after a non-empty one are dropped from the tail only. */
  lemma {:induction false} DropTrailingEmptyAfter(p: seq<string>, q: seq<string>)
    requires p != [] && p[|p| - 1] != ""
    ensures DropTrailingEmpty(p + q) == p + DropTrailingEmpty(q)
    decreases |q|
  {
    if q == [] {
      assert p + q == p;
    } else if q[|q| - 1] == "" {
      assert (p + q)[..|p + q| - 1] == p + q[..|q| - 1];
      DropTrailingEmptyAfter(p, q[..|q| - 1]);
    }
  }

  /** A limited split stops after the pieces of a separator-free prefix. */
  lemma {:induction false} SplitAtMostPrefix(segs: seq<string>, rest: string, sep: char)
    requires |segs| >= 1
    requires forall k :: 0 <= k < |segs| ==> sep !in segs[k]
    ensures SplitAtMost(Join(segs, sep) + [sep] + rest, sep, |segs| + 1) == segs + [rest]
  {
    if |segs| == 1 {
      var s := Join(segs, sep) + [sep] + rest;
      assert s == segs[0] + [sep] + rest;
      SplitAtMostStep(s, segs[0], rest, sep, 2);
      assert segs == [segs[0]];
    } else {
      SeparatorFreeTail(segs, sep);
      SplitAtMostPrefix(segs[1..], rest, sep);
      SplitAtMostPrefixCons(segs, rest, sep);
    }
  }

  /** The step of SplitAtMostPrefix: one more separator-free piece in front. */
  lemma SplitAtMostPrefixCons(segs: seq<string>, rest: string, sep: char)
    requires |segs| >= 2 && sep !in segs[0]
    requires SplitAtMost(Join(segs[1..], sep) + [sep] + rest, sep, |segs|) == segs[1..] + [rest]
    ensures SplitAtMost(Join(segs, sep) + [sep] + rest, sep, |segs| + 1) == segs + [rest]
  {
    var s := Join(segs, sep) + [sep] + rest;
    var tail := Join(segs[1..], sep) + [sep] + rest;
    JoinFront(segs, rest, sep);
    SplitAtMostStep(s, segs[0], tail, sep, |segs| + 1);
    FrontAppend(segs, rest);
  }

  /** Taking the first element off and putting it back in front of an extended tail. */
  lemma FrontAppend(a: seq<string>, x: string)
    requires a != []
    ensures [a[0]] + (a[1..] + [x]) == a + [x]
  {
    assert a == [a[0]] + a[1..];
  }

  /** Joining two or more pieces and appending: the first piece, the separator, then the rest. */
  lemma JoinFront(segs: seq<string>, rest: string, sep: char)
    requires |segs| >= 2
    ensures Join(segs, sep) + [sep] + rest == segs[0] + [sep] + (Join(segs[1..], sep) + [sep] + rest)
  {
  }

  /** The pieces after the first are separator-free too. */
  lemma SeparatorFreeTail(segs: seq<string>, sep: char)
    requires |segs| >= 1
    requires forall k :: 0 <= k < |segs| ==> sep !in segs[k]
    ensures sep !in segs[0]
    ensures forall k :: 0 <= k < |segs[1..]| ==> sep !in segs[1..][k]
  {
    forall k | 0 <= k < |segs[1..]| ensures sep !in segs[1..][k] { assert segs[1..][k] == segs[k + 1]; }
  }

  /** A limited split takes a separator-free first piece off and goes on with one piece fewer. */
  lemma SplitAtMostStep(s: string, a: string, t: string, sep: char, limit: nat)
    requires s == a + [sep] + t
    requires sep !in a && limit >= 2
    ensures SplitAtMost(s, sep, limit) == [a] + SplitAtMost(t, sep, limit - 1)
  {
    FindCharAfter(a, t, sep);
    assert s[..|a|] == a;
    assert s[|a| + 1..] == t;
  }

  /** Every character of a join is the separator or a character of some piece. */
  lemma {:induction false} JoinFree(parts: seq<string>, sep: char, bad: set<char>)
    requires sep !in bad
    requires forall k :: 0 <= k < |parts| ==> forall i :: 0 <= i < |parts[k]| ==> parts[k][i] !in bad
    ensures forall i :: 0 <= i < |Join(parts, sep)| ==> Join(parts, sep)[i] !in bad
  {
    if |parts| > 1 {
      JoinFree(parts[1..], sep, bad);
      var j := Join(parts, sep);
      var t := Join(parts[1..], sep);
      assert j == parts[0] + [sep] + t;
      forall i | 0 <= i < |j| ensures j[i] !in bad {
        if i < |parts[0]| { assert j[i] == parts[0][i]; }
        else if i > |parts[0]| { assert j[i] == t[i - |parts[0]| - 1]; }
      }
    }
  }
}
