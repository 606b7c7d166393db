/** The optional-value datatype used throughout the model (C# `null`). */
module Wrappers {
  datatype Option<+T> = None | Some(value: T) {
    function GetOr(default: T): T {
      match this
      case Some(v) => v
      case None => default
    }
  }
}

/**
 * The string operations of the .NET base library that the engine relies on,
 * written out over `seq<char>`: ordinal substring search, ordinal-ignore-case
 * comparison (ASCII letters only), `Split(c)[0]` and `Join`.
 */
module Text {

  /** `p` occurs in `s` at index `i`. */
  predicate OccursAt(s: string, p: string, i: int) {
    0 <= i && i + |p| <= |s| && s[i..i + |p|] == p
  }

  /** Ordinal `s.Contains(p)`. */
  function Contains(s: string, p: string): (b: bool)
    ensures b <==> exists i :: OccursAt(s, p, i)
    decreases |s|
  {
    if |s| < |p| then false
    else if OccursAt(s, p, 0) then true
    else
      var b := Contains(s[1..], p);
      assert forall i :: OccursAt(s, p, i) <==> i >= 1 && OccursAt(s[1..], p, i - 1) by {
        forall i ensures OccursAt(s, p, i) <==> i >= 1 && OccursAt(s[1..], p, i - 1) {
          if 1 <= i && i + |p| <= |s| {
            assert s[1..][i - 1..i - 1 + |p|] == s[i..i + |p|];
          }
        }
      }
      assert b ==> OccursAt(s, p, (var i :| OccursAt(s[1..], p, i); i) + 1);
      b
  }

  /** `char.ToUpperInvariant`, restricted to ASCII letters. */
  function UpperAscii(c: char): (u: char)
    ensures 'a' <= c <= 'z' ==> u as int == c as int - 32
    ensures !('a' <= c <= 'z') ==> u == c
  {
    if 'a' <= c <= 'z' then (c as int - 32) as char else c
  }

  /** Two characters are equal under `StringComparison.OrdinalIgnoreCase`. */
  predicate SameIgnoreCase(a: char, b: char) {
    UpperAscii(a) == UpperAscii(b)
  }

  predicate EqualsIgnoreCase(a: string, b: string) {
    |a| == |b| && forall i :: 0 <= i < |a| ==> SameIgnoreCase(a[i], b[i])
  }

  /** `s.EndsWith(suffix, StringComparison.OrdinalIgnoreCase)`. */
  predicate EndsWithIgnoreCase(s: string, suffix: string) {
    |suffix| <= |s| && EqualsIgnoreCase(s[|s| - |suffix|..], suffix)
  }

  /** `p` occurs in `s` at index `i`, ignoring case. */
  predicate OccursAtIgnoreCase(s: string, p: string, i: int) {
    0 <= i && i + |p| <= |s| && EqualsIgnoreCase(s[i..i + |p|], p)
  }

  /**
   * `s.IndexOf(p, StringComparison.OrdinalIgnoreCase)`: the first index at
   * which `p` occurs (ignoring case), or -1 when it occurs nowhere.
   */
  function IndexOfIgnoreCase(s: string, p: string): (r: int)
    ensures -1 <= r <= |s|
    ensures r == -1 <==> forall i :: !OccursAtIgnoreCase(s, p, i)
    ensures r >= 0 ==> OccursAtIgnoreCase(s, p, r)
    ensures forall i :: 0 <= i < r ==> !OccursAtIgnoreCase(s, p, i)
  {
    IndexFrom(s, p, 0)
  }

  function IndexFrom(s: string, p: string, from: nat): (r: int)
    requires from <= |s| + 1
    ensures -1 <= r <= |s|
    ensures r == -1 <==> forall i :: from <= i ==> !OccursAtIgnoreCase(s, p, i)
    ensures r >= 0 ==> from <= r && OccursAtIgnoreCase(s, p, r)
    ensures forall i :: from <= i < r ==> !OccursAtIgnoreCase(s, p, i)
    decreases |s| + 1 - from
  {
    if from + |p| > |s| then -1
    else if EqualsIgnoreCase(s[from..from + |p|], p) then
      assert OccursAtIgnoreCase(s, p, from);
      from
    else IndexFrom(s, p, from + 1)
  }

  /** `s.Split(sep)[0]`: everything before the first `sep`, or all of `s`. */
  function BeforeFirst(s: string, sep: char): (r: string)
    ensures sep !in r
    ensures r <= s
    ensures |r| < |s| ==> s[|r|] == sep
    ensures sep !in s ==> r == s
  {
    if s == [] then []
    else if s[0] == sep then []
    else [s[0]] + BeforeFirst(s[1..], sep)
  }

  /** `string.Join(sep, parts)`. */
  function Join(parts: seq<string>, sep: char): (r: string)
    ensures |parts| == 1 ==> r == parts[0]
    ensures |parts| > 1 ==> r == parts[0] + [sep] + Join(parts[1..], sep)
  {
    if parts == [] then []
    else if |parts| == 1 then parts[0]
    else parts[0] + [sep] + Join(parts[1..], sep)
  }

  /** The first segment of a joined path is recovered by `Split(sep)[0]`. */
  lemma JoinFirstSegment(parts: seq<string>, sep: char)
    requires |parts| > 0 && sep !in parts[0]
    ensures BeforeFirst(Join(parts, sep), sep) == parts[0]
  {
    if |parts| > 1 {
      JoinHead(parts[0], sep, Join(parts[1..], sep));
    }
  }

  lemma {:induction false} JoinHead(head: string, sep: char, rest: string)
    requires sep !in head
    ensures BeforeFirst(head + [sep] + rest, sep) == head
  {
    if head != [] {
      assert (head + [sep] + rest)[1..] == head[1..] + [sep] + rest;
      JoinHead(head[1..], sep, rest);
    } else {
      assert (head + [sep] + rest)[0] == sep;
    }
  }

  /** A string containing `p + q` contains `p`. */
  lemma ContainsPrefix(s: string, p: string, q: string)
    requires Contains(s, p + q)
    ensures Contains(s, p)
  {
    var i :| OccursAt(s, p + q, i);
    assert s[i..i + |p|] == (p + q)[..|p|];
    assert OccursAt(s, p, i);
  }

  /** `p` occurs, ignoring case, where it was put. */
  lemma OccursAtIgnoreCaseSelf(a: string, p: string, b: string)
    ensures OccursAtIgnoreCase(a + p + b, p, |a|)
  {
    assert (a + p + b)[|a|..|a| + |p|] == p;
  }

  /** The first occurrence, ignoring case, is what `IndexOfIgnoreCase` finds. */
  lemma IndexOfIgnoreCaseAt(s: string, p: string, i: nat)
    requires OccursAtIgnoreCase(s, p, i)
    requires forall j :: 0 <= j < i ==> !OccursAtIgnoreCase(s, p, j)
    ensures IndexOfIgnoreCase(s, p) == i
  {
  }
}
