/**
 * The two string operations the order overview relies on: Go's
 * strings.TrimSpace and Go's built-in `<` on strings.
 *
 * Strings are sequences of Unicode scalar values. Go compares strings byte
 * by byte on their UTF-8 encoding; UTF-8 preserves code point order, so
 * comparing code point by code point gives the same answer.
 */
module Strings {

  /** unicode.IsSpace: the Latin-1 white space characters (tab, line feed,
      vertical tab, form feed, carriage return, space, next line, no-break
      space) and the other characters carrying the Unicode White_Space
      property. */
  predicate IsSpace(c: char) {
    if c <= '\U{FF}' then
      ('\t' <= c <= '\r') || c == ' ' || c == '\U{85}' || c == '\U{A0}'
    else
      c == '\U{1680}' || ('\U{2000}' <= c <= '\U{200A}')
      || c == '\U{2028}' || c == '\U{2029}' || c == '\U{202F}' || c == '\U{205F}' || c == '\U{3000}'
  }

  predicate AllSpace(s: string) {
    forall k :: 0 <= k < |s| ==> IsSpace(s[k])
  }

  /** Drops the leading white space. */
  function TrimLeft(s: string): string {
    if s != [] && IsSpace(s[0]) then TrimLeft(s[1..]) else s
  }

  /** Drops the trailing white space. */
  function TrimRight(s: string): string {
    if s != [] && IsSpace(s[|s| - 1]) then TrimRight(s[..|s| - 1]) else s
  }

  /** What TrimLeft leaves is a suffix that is empty or starts with a
      non-space, and everything it dropped is white space. */
  lemma {:induction false} TrimLeftSpec(s: string)
    ensures |TrimLeft(s)| <= |s|
    ensures forall k :: 0 <= k < |TrimLeft(s)| ==> TrimLeft(s)[k] == s[|s| - |TrimLeft(s)| + k]
    ensures forall k :: 0 <= k < |s| - |TrimLeft(s)| ==> IsSpace(s[k])
    ensures TrimLeft(s) == [] || !IsSpace(TrimLeft(s)[0])
  {
    if s != [] && IsSpace(s[0]) {
      var t := s[1..];
      TrimLeftSpec(t);
      var r := TrimLeft(t);
      assert TrimLeft(s) == r;
      forall k | 0 <= k < |r| ensures r[k] == s[|s| - |r| + k] {
        assert r[k] == t[|t| - |r| + k];
      }
      forall k | 0 <= k < |s| - |r| ensures IsSpace(s[k]) {
        if k > 0 { assert s[k] == t[k - 1]; }
      }
    }
  }

  /** What TrimRight leaves is a prefix that is empty or ends with a
      non-space, and everything it dropped is white space. */
  lemma {:induction false} TrimRightSpec(s: string)
    ensures |TrimRight(s)| <= |s|
    ensures forall k :: 0 <= k < |TrimRight(s)| ==> TrimRight(s)[k] == s[k]
    ensures forall k :: |TrimRight(s)| <= k < |s| ==> IsSpace(s[k])
    ensures TrimRight(s) == [] || !IsSpace(TrimRight(s)[|TrimRight(s)| - 1])
  {
    if s != [] && IsSpace(s[|s| - 1]) {
      var t := s[..|s| - 1];
      TrimRightSpec(t);
      var r := TrimRight(t);
      assert TrimRight(s) == r;
      forall k | 0 <= k < |r| ensures r[k] == s[k] {
        assert r[k] == t[k];
      }
      forall k | |r| <= k < |s| ensures IsSpace(s[k]) {
        if k < |s| - 1 { assert s[k] == t[k]; }
      }
    }
  }

  /** strings.TrimSpace: drops the white space at both ends. */
  function TrimSpace(s: string): (r: string)
    ensures |r| <= |s|
  {
    TrimLeftSpec(s);
    TrimRightSpec(TrimLeft(s));
    TrimRight(TrimLeft(s))
  }

  /** The result of TrimSpace neither starts nor ends with white space. */
  lemma TrimSpaceEdges(s: string)
    ensures var r := TrimSpace(s); r == [] || (!IsSpace(r[0]) && !IsSpace(r[|r| - 1]))
  {
    var t := TrimLeft(s);
    TrimLeftSpec(s);
    TrimRightSpec(t);
    if TrimRight(t) != [] {
      assert TrimRight(t)[0] == t[0];
    }
  }

  /** TrimSpace drops only white space, and only at the two ends: the result
      is the slice s[i..i + |r|] with nothing but white space around it. */
  lemma TrimSpaceDropsOnlySpace(s: string) returns (i: nat)
    ensures i + |TrimSpace(s)| <= |s|
    ensures forall k :: 0 <= k < |TrimSpace(s)| ==> TrimSpace(s)[k] == s[i + k]
    ensures forall k :: 0 <= k < i ==> IsSpace(s[k])
    ensures forall k :: i + |TrimSpace(s)| <= k < |s| ==> IsSpace(s[k])
  {
    var t := TrimLeft(s);
    TrimLeftSpec(s);
    TrimRightSpec(t);
    var r := TrimRight(t);
    i := |s| - |t|;
    assert r == TrimSpace(s);
    forall k | i + |r| <= k < |s| ensures IsSpace(s[k]) {
      assert s[k] == t[k - i];
    }
  }

  /** Trimming leaves nothing exactly when the string is all white space. */
  lemma TrimSpaceEmptyIff(s: string)
    ensures TrimSpace(s) == [] <==> AllSpace(s)
  {
    var t := TrimLeft(s);
    TrimLeftSpec(s);
    TrimRightSpec(t);
    var i := |s| - |t|;
    if TrimSpace(s) != [] {
      assert TrimSpace(s)[0] == s[i];
    }
  }

  /** Trimming a trimmed string changes nothing. */
  lemma TrimSpaceIdempotent(s: string)
    ensures TrimSpace(TrimSpace(s)) == TrimSpace(s)
  {
    var r := TrimSpace(s);
    TrimSpaceEdges(s);
    assert TrimLeft(r) == r;
    assert TrimRight(r) == r;
  }

  /** Go's `a < b` on strings: lexicographic order, a proper prefix first. */
  predicate Less(a: string, b: string) {
    if a == [] then b != []
    else b != [] && (a[0] < b[0] || (a[0] == b[0] && Less(a[1..], b[1..])))
  }

  lemma {:induction false} LessIrreflexive(a: string)
    ensures !Less(a, a)
  {
    if a != [] { LessIrreflexive(a[1..]); }
  }

  lemma {:induction false} LessTransitive(a: string, b: string, c: string)
    requires Less(a, b) && Less(b, c)
    ensures Less(a, c)
  {
    if a != [] && a[0] == b[0] && b[0] == c[0] {
      LessTransitive(a[1..], b[1..], c[1..]);
    }
  }

  /** Any two different strings are ordered one way or the other. */
  lemma {:induction false} LessTotal(a: string, b: string)
    requires a != b
    ensures Less(a, b) || Less(b, a)
  {
    if a != [] && b != [] && a[0] == b[0] {
      assert a == [a[0]] + a[1..] && b == [b[0]] + b[1..];
      LessTotal(a[1..], b[1..]);
    }
  }

  /** "Not less than" (Go's `!(b < a)`) is transitive; this is what a sort by
      `Less` relies on to order a whole sequence. */
  lemma NotLessTransitive(a: string, b: string, c: string)
    requires !Less(b, a) && !Less(c, b)
    ensures !Less(c, a)
  {
  }
}
