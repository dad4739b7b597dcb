/**
 * Field paths: a caller's dotted key is split on `.` into segments, and a
 * path is written back for the wire by joining its segments with `.`,
 * quoting in backticks every segment that is not a bare identifier
 * (`[A-Za-z_][A-Za-z0-9_]*`); inside the quotes a backtick or a backslash is
 * escaped with a backslash.
 */
module FieldPaths {
  import opened Wrappers
  import opened Splitting
  import opened Values

  /** Characters a dotted key may not contain. */
  const Reserved: set<char> := {'~', '*', '/', '[', ']'}

  /**
   * Parses a caller's dotted key. An empty segment (`a..b`, or a leading or
   * trailing dot) is refused first, then a reserved character (`a~b`).
   */
  function ParseFieldPath(key: string): (r: Result<seq<string>, UpdateError>)
    ensures r.Success? <==> "" !in Split(key, '.') && forall i :: 0 <= i < |key| ==> key[i] !in Reserved
    ensures r.Failure? ==> (r.error == EmptyPaths <==> "" in Split(key, '.'))
    ensures r.Failure? ==> r.error in {EmptyPaths, InvalidCharacter}
    ensures r.Success? ==> Join(r.value, '.') == key
    ensures r.Success? ==> forall k :: 0 <= k < |r.value| ==> r.value[k] != "" && '.' !in r.value[k]
  {
    var segments := Split(key, '.');
    if "" in segments then
      Failure(EmptyPaths)
    else if exists i :: 0 <= i < |key| && key[i] in Reserved then
      Failure(InvalidCharacter)
    else
      JoinSplit(key, '.');
      Success(segments)
  }

  predicate IsLetter(c: char) { 'a' <= c <= 'z' || 'A' <= c <= 'Z' }

  predicate IsDigit(c: char) { '0' <= c <= '9' }

  /** A segment that may be written without quotes. */
  predicate IsBare(segment: string)
  {
    && |segment| > 0
    && (IsLetter(segment[0]) || segment[0] == '_')
    && forall i :: 1 <= i < |segment| ==> IsLetter(segment[i]) || IsDigit(segment[i]) || segment[i] == '_'
  }

  /** Puts a backslash before every backtick and backslash. */
  function Escape(segment: string): string
  {
    if segment == [] then []
    else (if segment[0] == '`' || segment[0] == '\\' then ['\\', segment[0]] else [segment[0]]) + Escape(segment[1..])
  }

  /** A segment as it is written inside a field path string. */
  function QuoteSegment(segment: string): string
  {
    if IsBare(segment) then segment else "`" + Escape(segment) + "`"
  }

  function QuoteAll(segments: seq<string>): (r: seq<string>)
    ensures |r| == |segments|
    ensures forall k :: 0 <= k < |segments| ==> r[k] == QuoteSegment(segments[k])
  {
    if segments == [] then [] else [QuoteSegment(segments[0])] + QuoteAll(segments[1..])
  }

  /** The wire form of a field path, as used in update masks and field transforms. */
  function EncodeFieldPath(segments: seq<string>): string
  {
    Join(QuoteAll(segments), '.')
  }

  /** A segment a caller may write in a dotted key: not empty, no dot, no reserved character. */
  predicate PlainSegment(segment: string)
  {
    segment != "" && forall i :: 0 <= i < |segment| ==> segment[i] != '.' && segment[i] !in Reserved
  }

  /** A key joined from plain segments parses into exactly those segments. */
  lemma JoinedKey(key: string, segments: seq<string>)
    requires |segments| >= 1
    requires forall k :: 0 <= k < |segments| ==> PlainSegment(segments[k])
    requires Join(segments, '.') == key
    ensures Split(key, '.') == segments
    ensures ParseFieldPath(key) == Success(segments)
  {
    SplitJoin(segments, '.');
    JoinFree(segments, '.', Reserved);
  }

  /** A key joined from bare segments parses into them and is its own wire form. */
  lemma BareKey(key: string, segments: seq<string>)
    requires |segments| >= 1
    requires forall k :: 0 <= k < |segments| ==> IsBare(segments[k])
    requires Join(segments, '.') == key
    ensures Split(key, '.') == segments
    ensures ParseFieldPath(key) == Success(segments)
    ensures EncodeFieldPath(segments) == key
  {
    JoinedKey(key, segments);
    assert QuoteAll(segments) == segments;
  }

  // ---------------------------------------------------------------------
  // Reading an encoded path back

  /** Reads the inside of a quoted segment up to its closing backtick; gives the segment and what follows. */
  function ReadQuoted(s: string): (r: Option<(string, string)>)
    ensures r.Some? ==> |r.value.1| < |s|
    decreases |s|
  {
    if s == "" then None
    else if s[0] == '`' then Some(("", s[1..]))
    else if s[0] == '\\' then
      if |s| < 2 then None
      else
        var inner :- ReadQuoted(s[2..]);
        Some(([s[1]] + inner.0, inner.1))
    else
      var inner :- ReadQuoted(s[1..]);
      Some(([s[0]] + inner.0, inner.1))
  }

  /** Reads one segment, quoted or bare; gives the segment and what follows. */
  function ReadSegment(s: string): (r: Option<(string, string)>)
    ensures r.Some? ==> |r.value.1| <= |s|
  {
    if s != "" && s[0] == '`' then ReadQuoted(s[1..])
    else
      var i := FindChar(s, '.');
      Some((s[..i], s[i..]))
  }

  /** Parses an encoded field path back into its segments. */
  function DecodeFieldPath(s: string): Option<seq<string>>
    decreases |s|
  {
    var first :- ReadSegment(s);
    var rest := first.1;
    if rest == "" then Some([first.0])
    else if rest[0] != '.' then None
    else
      var tail :- DecodeFieldPath(rest[1..]);
      Some([first.0] + tail)
  }

  /** The closing backtick ends an escaped segment, whatever follows it. */
  lemma {:induction false} ReadQuotedEscape(segment: string, rest: string)
    ensures ReadQuoted(Escape(segment) + "`" + rest) == Some((segment, rest))
  {
    if segment != [] {
      var s := Escape(segment) + "`" + rest;
      ReadQuotedEscape(segment[1..], rest);
      if segment[0] == '`' || segment[0] == '\\' {
        assert s == ['\\', segment[0]] + (Escape(segment[1..]) + "`" + rest);
        assert s[2..] == Escape(segment[1..]) + "`" + rest;
      } else {
        assert s == [segment[0]] + (Escape(segment[1..]) + "`" + rest);
        assert s[1..] == Escape(segment[1..]) + "`" + rest;
      }
      assert [segment[0]] + segment[1..] == segment;
    } else {
      assert Escape(segment) + "`" + rest == "`" + rest;
    }
  }

  /** A quoted segment followed by the end or by a dot is read back whole. */
  lemma ReadSegmentQuote(segment: string, rest: string)
    requires rest == "" || rest[0] == '.'
    ensures ReadSegment(QuoteSegment(segment) + rest) == Some((segment, rest))
  {
    if IsBare(segment) {
      ReadSegmentBare(segment, rest);
    } else {
      var t := Escape(segment) + "`" + rest;
      assert QuoteSegment(segment) + rest == "`" + t;
      ReadSegmentQuoted(segment, rest, t);
    }
  }

  /** A segment in backticks is read up to its closing backtick. */
  lemma ReadSegmentQuoted(segment: string, rest: string, t: string)
    requires t == Escape(segment) + "`" + rest
    ensures ReadSegment("`" + t) == Some((segment, rest))
  {
    var s := "`" + t;
    assert s != "" && s[0] == '`';
    assert s[1..] == t;
    assert ReadSegment(s) == ReadQuoted(t);
    ReadQuotedEscape(segment, rest);
  }

  /** A bare segment ends at the first dot, or at the end. */
  lemma ReadSegmentBare(segment: string, rest: string)
    requires IsBare(segment)
    requires rest == "" || rest[0] == '.'
    ensures ReadSegment(segment + rest) == Some((segment, rest))
  {
    var s := segment + rest;
    assert '.' !in segment by {
      assert forall j :: 0 <= j < |segment| ==> segment[j] != '.';
    }
    if rest == "" {
      assert s == segment;
      FindCharAbsent(segment, '.');
    } else {
      assert s == segment + ['.'] + rest[1..];
      FindCharAfter(segment, rest[1..], '.');
    }
    assert s[0] != '`';
    assert s[..|segment|] == segment;
    assert s[|segment|..] == rest;
  }

  /** Decoding undoes encoding: the wire form names exactly the path it was made from. */
  lemma {:induction false} DecodeEncode(segments: seq<string>)
    requires |segments| >= 1
    ensures DecodeFieldPath(EncodeFieldPath(segments)) == Some(segments)
  {
    var quoted := QuoteAll(segments);
    if |segments| == 1 {
      ReadSegmentQuote(segments[0], "");
      assert QuoteSegment(segments[0]) + "" == QuoteSegment(segments[0]);
      assert EncodeFieldPath(segments) == QuoteSegment(segments[0]);
      assert ReadSegment(EncodeFieldPath(segments)) == Some((segments[0], ""));
      assert [segments[0]] == segments;
    } else {
      var tail := EncodeFieldPath(segments[1..]);
      assert quoted[1..] == QuoteAll(segments[1..]);
      assert EncodeFieldPath(segments) == QuoteSegment(segments[0]) + ("." + tail);
      ReadSegmentQuote(segments[0], "." + tail);
      DecodeEncode(segments[1..]);
      assert ("." + tail)[1..] == tail;
      assert [segments[0]] + segments[1..] == segments;
    }
  }

  /** Different paths never share a wire form. */
  lemma EncodeInjective(p: seq<string>, q: seq<string>)
    requires |p| >= 1 && |q| >= 1
    requires EncodeFieldPath(p) == EncodeFieldPath(q)
    ensures p == q
  {
    DecodeEncode(p);
    DecodeEncode(q);
  }
}
