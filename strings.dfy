/**
 * The string operations of the program: the substring test `sub in s`,
 * ASCII `str.lower`, `str.startswith`/`str.endswith`, `sep.join(parts)`,
 * `s.split(c)`, `s.replace(old, new)` and `str(n)` for counters.
 */
module Strings {
  import opened Seqs

  predicate StartsWith(s: string, prefix: string) {
    |prefix| <= |s| && s[..|prefix|] == prefix
  }

  predicate EndsWith(s: string, suffix: string) {
    |suffix| <= |s| && s[|s| - |suffix|..] == suffix
  }

  /** `sub` occurs in `s` starting at position `i`. */
  predicate OccursAt(s: string, sub: string, i: int) {
    0 <= i <= |s| - |sub| && s[i..i + |sub|] == sub
  }

  /** Python's `sub in s`. */
  predicate Contains(s: string, sub: string) {
    exists i :: 0 <= i <= |s| - |sub| && OccursAt(s, sub, i)
  }

  /** Python's `any(x in s for x in subs)`. */
  predicate ContainsAny(s: string, subs: seq<string>) {
    exists k :: 0 <= k < |subs| && Contains(s, subs[k])
  }

  lemma ContainsSelf(x: string)
    ensures Contains(x, x)
  {
    assert x[0..|x|] == x;
    assert OccursAt(x, x, 0);
  }

  /** What a string contains, it still contains with more text after it. */
  lemma ContainsLeft(a: string, b: string, x: string)
    requires Contains(a, x)
    ensures Contains(a + b, x)
  {
    var i :| 0 <= i <= |a| - |x| && OccursAt(a, x, i);
    assert (a + b)[i..i + |x|] == a[i..i + |x|];
    assert OccursAt(a + b, x, i);
  }

  /** What a string contains, it still contains with more text before it. */
  lemma ContainsRight(a: string, b: string, x: string)
    requires Contains(b, x)
    ensures Contains(a + b, x)
  {
    var i :| 0 <= i <= |b| - |x| && OccursAt(b, x, i);
    assert (a + b)[|a| + i..|a| + i + |x|] == b[i..i + |x|];
    assert OccursAt(a + b, x, |a| + i);
  }

  /** A string contains what its substrings contain. */
  lemma ContainsTrans(s: string, x: string, y: string)
    requires Contains(s, x) && Contains(x, y)
    ensures Contains(s, y)
  {
    var i :| 0 <= i <= |s| - |x| && OccursAt(s, x, i);
    var j :| 0 <= j <= |x| - |y| && OccursAt(x, y, j);
    forall k | 0 <= k < |y|
      ensures s[i + j + k] == y[k]
    {
      assert y[k] == x[j..j + |y|][k] == x[j + k];
      assert x[j + k] == s[i..i + |x|][j + k] == s[i + j + k];
    }
    assert s[i + j..i + j + |y|] == y;
    assert OccursAt(s, y, i + j);
  }

  /** An occurrence in `s[1..]` is an occurrence in `s`, one position further on. */
  lemma ContainsTail(s: string, sub: string)
    requires |s| > 0 && Contains(s[1..], sub)
    ensures Contains(s, sub)
  {
    var i :| 0 <= i <= |s| - 1 - |sub| && OccursAt(s[1..], sub, i);
    assert s[i + 1..i + 1 + |sub|] == s[1..][i..i + |sub|];
    assert OccursAt(s, sub, i + 1);
  }

  function LowerChar(c: char): char {
    if 'A' <= c <= 'Z' then (c as int + 32) as char else c
  }

  /** `str.lower`, on the letters A to Z. */
  function Lower(s: string): string {
    seq(|s|, i requires 0 <= i < |s| => LowerChar(s[i]))
  }

  /** Python's `sep.join(parts)`. */
  function Join(parts: seq<string>, sep: string): string {
    if |parts| == 0 then ""
    else if |parts| == 1 then parts[0]
    else parts[0] + sep + Join(parts[1..], sep)
  }

  /** Joining non-empty parts never gives the empty string. */
  lemma {:induction false} JoinEmpty(parts: seq<string>, sep: string)
    requires forall i :: 0 <= i < |parts| ==> parts[i] != ""
    ensures Join(parts, sep) == "" <==> parts == []
  {
    if |parts| > 1 {
      JoinEmpty(parts[1..], sep);
    }
  }

  /**
   * Python's `s.split(c)`: the pieces between the occurrences of `c`. There
   * is always at least one piece, no piece contains `c`, and joining the
   * pieces with `c` gives `s` back.
   */
  function Split(s: string, c: char): (parts: seq<string>)
    ensures |parts| > 0
    ensures forall i :: 0 <= i < |parts| ==> c !in parts[i]
    ensures forall i, k :: 0 <= i < |parts| && 0 <= k < |parts[i]| ==> parts[i][k] in s
    ensures Join(parts, [c]) == s
    decreases |s|
  {
    if c !in s then [s]
    else
      var i := IndexOf(s, c);
      var rest := Split(s[i + 1..], c);
      assert s == s[..i] + [c] + s[i + 1..];
      [s[..i]] + rest
  }

  /** Splitting on `c` undoes joining with `c`, when no part contains `c`. */
  lemma {:induction false} SplitJoin(parts: seq<string>, c: char)
    requires |parts| > 0
    requires forall i :: 0 <= i < |parts| ==> c !in parts[i]
    ensures Split(Join(parts, [c]), c) == parts
  {
    if |parts| > 1 {
      var p0, rest := parts[0], Join(parts[1..], [c]);
      var s := Join(parts, [c]);
      SplitAtFirst(p0, c, rest);
      SplitJoin(parts[1..], c);
      assert parts == [p0] + parts[1..];
    }
  }

  /** Splitting `p0 + [c] + rest` on `c`, when `p0` lacks `c`, cuts after `p0` first. */
  lemma SplitAtFirst(p0: string, c: char, rest: string)
    requires c !in p0
    ensures Split(p0 + [c] + rest, c) == [p0] + Split(rest, c)
  {
    var s := p0 + [c] + rest;
    assert s[..|p0|] == p0;
    assert s[|p0|] == c;
    IndexOfUnique(s, c, |p0|);
    assert s[|p0| + 1..] == rest;
  }

  /**
   * Python's `s.replace(pat, rep)`: every occurrence of `pat`, scanned left
   * to right without overlap, becomes `rep`.
   */
  function ReplaceAll(s: string, pat: string, rep: string): (r: string)
    requires pat != ""
    ensures !Contains(s, pat) ==> r == s
    decreases |s|
  {
    if |s| < |pat| then s
    else if StartsWith(s, pat) then
      assert OccursAt(s, pat, 0);
      rep + ReplaceAll(s[|pat|..], pat, rep)
    else
      var rest := ReplaceAll(s[1..], pat, rep);
      assert Contains(s[1..], pat) ==> Contains(s, pat) by {
        if Contains(s[1..], pat) {
          ContainsTail(s, pat);
        }
      }
      assert s == [s[0]] + s[1..];
      [s[0]] + rest
  }

  /** A leading occurrence is replaced and the scan resumes after it. */
  lemma ReplaceAllLeading(pat: string, u: string, rep: string)
    requires pat != ""
    ensures ReplaceAll(pat + u, pat, rep) == rep + ReplaceAll(u, pat, rep)
  {
    assert (pat + u)[..|pat|] == pat;
    assert (pat + u)[|pat|..] == u;
  }

  /** Replaces every `+` by a space, as `parse_qsl` does to names and values. */
  function PlusToSpace(s: string): (r: string)
    ensures |r| == |s| && '+' !in r
    ensures forall i :: 0 <= i < |r| ==> r[i] == s[i] || r[i] == ' '
    ensures '+' !in s ==> r == s
  {
    seq(|s|, i requires 0 <= i < |s| => if s[i] == '+' then ' ' else s[i])
  }

  predicate IsDigit(c: char) {
    '0' <= c <= '9'
  }

  /** The number written by a string of decimal digits. */
  function DecimalValue(s: string): nat
    requires forall i :: 0 <= i < |s| ==> IsDigit(s[i])
  {
    if s == [] then 0
    else
      var d := s[|s| - 1];
      assert IsDigit(d);
      DecimalValue(s[..|s| - 1]) * 10 + (d as int - '0' as int)
  }

  /** Python's `str(n)` for a count. */
  function Decimal(n: nat): string {
    var last := ('0' as int + n % 10) as char;
    if n < 10 then [last] else Decimal(n / 10) + [last]
  }

  /**
   * `str(n)` writes decimal digits, with no leading zero, which read back
   * as `n`.
   */
  lemma {:induction false} DecimalSpec(n: nat)
    ensures var s := Decimal(n);
      && |s| > 0 && (s[0] == '0' ==> s == "0")
      && (forall i :: 0 <= i < |s| ==> IsDigit(s[i]))
      && DecimalValue(s) == n
  {
    if n >= 10 {
      DecimalSpec(n / 10);
      var init, last := Decimal(n / 10), ('0' as int + n % 10) as char;
      assert Decimal(n) == init + [last];
      assert (init + [last])[..|init|] == init;
    }
  }
}
