/** Looking for literals and patterns in a string, as the readers of this project do. */
module Scan {
  import opened Common

  function Expect(s: string, literal: string): Option<string> {
    if literal <= s then Some(s[|literal|..]) else None
  }

  lemma ExpectReads(literal: string, rest: string)
    ensures Expect(literal + rest, literal) == Some(rest)
  {
    assert (literal + rest)[|literal|..] == rest;
  }

  predicate OccursAt(s: string, pattern: string, i: nat) {
    i + |pattern| <= |s| && s[i..i + |pattern|] == pattern
  }

  ghost predicate Contains(s: string, pattern: string) {
    exists i :: 0 <= i <= |s| && OccursAt(s, pattern, i)
  }

  /** First position of `pattern` in `s` at or after `from`. */
  function Find(s: string, pattern: string, from: nat): Option<nat>
    requires from <= |s|
    decreases |s| - from
  {
    if OccursAt(s, pattern, from) then Some(from)
    else if from == |s| then None
    else Find(s, pattern, from + 1)
  }

  /** Everything before the first `pattern`, and everything after it. */
  function ReadUntil(s: string, pattern: string): Option<(string, string)> {
    match Find(s, pattern, 0)
    case None => None
    case Some(i) => if i + |pattern| <= |s| then Some((s[..i], s[i + |pattern|..])) else None
  }

  lemma {:induction false} FindFirst(s: string, pattern: string, from: nat, at: nat)
    requires from <= at <= |s| && OccursAt(s, pattern, at)
    requires forall i :: from <= i < at ==> !OccursAt(s, pattern, i)
    ensures Find(s, pattern, from) == Some(at)
    decreases at - from
  {
    if from < at {
      FindFirst(s, pattern, from + 1, at);
    }
  }

  /** The pattern's first byte occurs nowhere else in it. */
  predicate Unbordered(pattern: string) {
    |pattern| > 0 && forall k :: 0 < k < |pattern| ==> pattern[k] != pattern[0]
  }

  /** Such a pattern cannot straddle: before the real occurrence it occurs only inside the prefix. */
  lemma NoStraddle(prefix: string, pattern: string, rest: string, i: nat)
    requires Unbordered(pattern) && i < |prefix|
    ensures OccursAt(prefix + (pattern + rest), pattern, i) <==> OccursAt(prefix, pattern, i)
  {
    var s := prefix + (pattern + rest);
    if i + |pattern| <= |prefix| {
      assert s[i..i + |pattern|] == prefix[i..i + |pattern|];
    } else {
      var k := |prefix| - i;
      assert 0 < k < |pattern|;
      assert s[i + k] == pattern[0];
      assert i + |pattern| <= |s| ==> s[i..i + |pattern|][k] == s[i + k];
    }
  }

  /** Reading up to an unbordered pattern recovers the prefix exactly when it does not contain the pattern. */
  lemma UntilReads(prefix: string, pattern: string, rest: string)
    requires Unbordered(pattern)
    ensures !Contains(prefix, pattern) ==> ReadUntil(prefix + (pattern + rest), pattern) == Some((prefix, rest))
    ensures Contains(prefix, pattern) ==>
              ReadUntil(prefix + (pattern + rest), pattern).Some?
              && |ReadUntil(prefix + (pattern + rest), pattern).value.0| < |prefix|
  {
    var s := prefix + (pattern + rest);
    assert s[|prefix|..|prefix| + |pattern|] == pattern;
    forall i: nat | i < |prefix|
      ensures OccursAt(s, pattern, i) <==> OccursAt(prefix, pattern, i)
    {
      NoStraddle(prefix, pattern, rest, i);
    }
    if Contains(prefix, pattern) {
      var i :| 0 <= i <= |prefix| && OccursAt(prefix, pattern, i);
      FindBefore(s, pattern, 0, i);
    } else {
      forall i: nat | i < |prefix|
        ensures !OccursAt(s, pattern, i)
      {
        assert !OccursAt(prefix, pattern, i);
      }
      FindFirst(s, pattern, 0, |prefix|);
      assert s[..|prefix|] == prefix && s[|prefix| + |pattern|..] == rest;
    }
  }

  lemma {:induction false} FindBefore(s: string, pattern: string, from: nat, at: nat)
    requires from <= at <= |s| && OccursAt(s, pattern, at)
    ensures Find(s, pattern, from).Some? && from <= Find(s, pattern, from).value <= at
    ensures OccursAt(s, pattern, Find(s, pattern, from).value)
    decreases at - from
  {
    if from < at && !OccursAt(s, pattern, from) {
      FindBefore(s, pattern, from + 1, at);
    }
  }

  lemma {:induction false} UntilShorter(s: string, pattern: string)
    ensures ReadUntil(s, pattern).Some? ==> |ReadUntil(s, pattern).value.1| <= |s|
  {
  }

  /**
   A pattern whose last character occurs nowhere else in it cannot end early inside the
   real occurrence, so reading up to it recovers a prefix that does not contain it.
   */
  lemma UntilReadsLast(prefix: string, pattern: string, rest: string)
    requires |pattern| > 0 && forall k :: 0 <= k < |pattern| - 1 ==> pattern[k] != pattern[|pattern| - 1]
    requires !Contains(prefix, pattern)
    ensures ReadUntil(prefix + (pattern + rest), pattern) == Some((prefix, rest))
  {
    var s, n := prefix + (pattern + rest), |pattern|;
    assert s[|prefix|..|prefix| + n] == pattern;
    forall i: nat | i < |prefix|
      ensures !OccursAt(s, pattern, i)
    {
      assert !OccursAt(prefix, pattern, i);
      if i + n <= |prefix| {
        assert s[i..i + n] == prefix[i..i + n];
      } else if i + n <= |s| {
        assert s[i..i + n][n - 1] == s[i + n - 1] == pattern[i + n - 1 - |prefix|];
      }
    }
    FindFirst(s, pattern, 0, |prefix|);
    assert s[..|prefix|] == prefix && s[|prefix| + n..] == rest;
  }

  /** The longest prefix free of `stop`, and the rest. */
  function Span(s: string, stop: char): (string, string) {
    if s == [] || s[0] == stop then ([], s)
    else
      var r := Span(s[1..], stop);
      ([s[0]] + r.0, r.1)
  }

  lemma {:induction false} SpanReads(prefix: string, stop: char, rest: string)
    requires stop !in prefix && (rest == [] || rest[0] == stop)
    ensures Span(prefix + rest, stop) == (prefix, rest)
  {
    if prefix == [] {
      assert prefix + rest == rest;
    } else {
      SpanReads(prefix[1..], stop, rest);
      assert prefix == [prefix[0]] + prefix[1..];
      assert (prefix + rest)[1..] == prefix[1..] + rest;
    }
  }
}
