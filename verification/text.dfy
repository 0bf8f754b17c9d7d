/**
 * The string primitives name derivation is built from: PHP's `str_replace`
 * of path separators, `explode` and `implode` on a one-character delimiter,
 * and Laravel's `startsWith` and `substr`. Characters stand for bytes, so
 * `strlen` and `mb_substr` count the same units here.
 */
module Text {

  /** True when `c` is one of the two path separators, `/` and `\`. */
  predicate IsPathSeparator(c: char) {
    c == '/' || c == '\\'
  }

  /** `str_replace(['/', '\\'], '.', s)`: every path separator becomes a dot. */
  function DotSeparators(s: string): (r: string)
    ensures |r| == |s|
    ensures forall i :: 0 <= i < |r| ==> !IsPathSeparator(r[i])
    ensures forall i :: 0 <= i < |s| && !IsPathSeparator(s[i]) ==> r[i] == s[i]
    ensures forall i :: 0 <= i < |s| && IsPathSeparator(s[i]) ==> r[i] == '.'
  {
    seq(|s|, i requires 0 <= i < |s| => if IsPathSeparator(s[i]) then '.' else s[i])
  }

  /**
   * `implode(d, parts)`: the parts with one delimiter between neighbours.
   * Imploding no parts gives the empty string.
   */
  function Join(parts: seq<string>, d: char): string
    decreases |parts|
  {
    if |parts| == 0 then ""
    else if |parts| == 1 then parts[0]
    else parts[0] + [d] + Join(parts[1..], d)
  }

  /** True when no part contains the delimiter. */
  predicate Undelimited(parts: seq<string>, d: char) {
    forall i :: 0 <= i < |parts| ==> d !in parts[i]
  }

  /**
   * `explode(d, s)`: the maximal delimiter-free pieces of `s`, in order.
   * There is always at least one piece (`explode` of "" is `[""]`), empty
   * pieces are kept, and imploding the pieces gives back `s`.
   */
  function Split(s: string, d: char): (parts: seq<string>)
    ensures |parts| >= 1
    ensures Undelimited(parts, d)
    ensures Join(parts, d) == s
    decreases |s|
  {
    if |s| == 0 then [""]
    else
      var rest := Split(s[1..], d);
      if s[0] == d then
        assert Join([""] + rest, d) == [d] + Join(rest, d) by {
          assert ([""] + rest)[1..] == rest;
        }
        assert s == [d] + s[1..];
        [""] + rest
      else
        var parts := [[s[0]] + rest[0]] + rest[1..];
        assert Join(parts, d) == s by {
          assert parts[1..] == rest[1..];
          assert s == [s[0]] + s[1..];
        }
        parts
  }

  /** Splitting a delimiter-free string yields that string alone. */
  lemma SplitUndelimited(p: string, d: char)
    requires d !in p
    ensures Split(p, d) == [p]
  {
  }

  /** Splitting a delimiter-free piece followed by the delimiter peels that piece off. */
  lemma {:induction false} SplitCons(p: string, d: char, t: string)
    requires d !in p
    ensures Split(p + [d] + t, d) == [p] + Split(t, d)
    decreases |p|
  {
    var s := p + [d] + t;
    if |p| == 0 {
      assert s[0] == d && s[1..] == t;
    } else {
      assert s[1..] == p[1..] + [d] + t;
      assert d !in p[1..] by {
        assert forall k :: 0 <= k < |p| - 1 ==> p[1..][k] == p[k + 1];
      }
      SplitCons(p[1..], d, t);
      assert [p[0]] + p[1..] == p;
      assert ([p[1..]] + Split(t, d))[1..] == Split(t, d);
    }
  }

  /**
   * `explode` undoes `implode` when no piece contains the delimiter: the
   * pieces come back one for one.
   */
  lemma {:induction false} SplitJoin(parts: seq<string>, d: char)
    requires |parts| >= 1
    requires Undelimited(parts, d)
    ensures Split(Join(parts, d), d) == parts
    decreases |parts|
  {
    if |parts| == 1 {
      SplitUndelimited(parts[0], d);
    } else {
      assert d !in parts[0];
      SplitCons(parts[0], d, Join(parts[1..], d));
      SplitJoin(parts[1..], d);
      assert [parts[0]] + parts[1..] == parts;
    }
  }

  /** Imploding two non-empty lists of pieces joins their implosions with one delimiter. */
  lemma {:induction false} JoinAppend(p: seq<string>, q: seq<string>, d: char)
    requires |p| >= 1 && |q| >= 1
    ensures Join(p + q, d) == Join(p, d) + [d] + Join(q, d)
    decreases |p|
  {
    if |p| > 1 {
      assert (p + q)[1..] == p[1..] + q;
      JoinAppend(p[1..], q, d);
    } else {
      assert (p + q)[1..] == q;
    }
  }

  /** Exploding `a`, delimiter, `b` gives the pieces of `a` followed by the pieces of `b`. */
  lemma SplitAppend(a: string, b: string, d: char)
    ensures Split(a + [d] + b, d) == Split(a, d) + Split(b, d)
  {
    var parts := Split(a, d) + Split(b, d);
    JoinAppend(Split(a, d), Split(b, d), d);
    assert Undelimited(parts, d) by {
      forall i | 0 <= i < |parts|
        ensures d !in parts[i]
      {
        if i >= |Split(a, d)| {
          assert parts[i] == Split(b, d)[i - |Split(a, d)|];
        }
      }
    }
    SplitJoin(parts, d);
  }

  /**
   * Laravel's `startsWith` for a single needle: the haystack begins with the
   * needle, and an empty needle never matches.
   */
  predicate StartsWith(haystack: string, needle: string) {
    && |needle| > 0
    && |needle| <= |haystack|
    && haystack[..|needle|] == needle
  }

  /** `substr(s, start)` for a non-negative start: a start at or past the end gives "". */
  function Substr(s: string, start: nat): (r: string)
    ensures start < |s| ==> s == s[..start] + r
    ensures start >= |s| ==> r == ""
  {
    if start >= |s| then "" else s[start..]
  }
}
