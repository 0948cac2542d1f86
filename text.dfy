/** The few operations on Python `str` that the AI client relies on:
    `startswith`, `endswith`, `in`, `rstrip` of one character, ASCII `lower`
    and `replace` (every occurrence, left to right, without overlap). */
module Text {

  /** `s.startswith(prefix)` */
  predicate StartsWith(s: string, prefix: string) {
    |prefix| <= |s| && s[..|prefix|] == prefix
  }

  /** `s.endswith(suffix)` */
  predicate EndsWith(s: string, suffix: string) {
    |suffix| <= |s| && s[|s| - |suffix|..] == suffix
  }

  /** `sub` occurs in `s` starting at index `i`. */
  predicate OccursAt(s: string, sub: string, i: int) {
    0 <= i && i + |sub| <= |s| && s[i..i + |sub|] == sub
  }

  /** `sub in s`; the empty string occurs in every string. */
  predicate Contains(s: string, sub: string) {
    exists i | 0 <= i <= |s| - |sub| :: OccursAt(s, sub, i)
  }

  lemma ContainsAt(s: string, sub: string, i: int)
    requires OccursAt(s, sub, i)
    ensures Contains(s, sub)
  {
  }

  /** A string that contains `a + b` contains `a` and contains `b`. */
  lemma ContainsParts(s: string, a: string, b: string)
    requires Contains(s, a + b)
    ensures Contains(s, a) && Contains(s, b)
  {
    var i :| 0 <= i <= |s| - |a + b| && OccursAt(s, a + b, i);
    assert s[i..i + |a|] == (a + b)[..|a|] == a;
    assert s[i + |a|..i + |a| + |b|] == (a + b)[|a|..] == b;
    ContainsAt(s, a, i);
    ContainsAt(s, b, i + |a|);
  }

  /** `s.rstrip(c)` for a single character `c`: the longest prefix of `s`
      that does not end in `c` and is followed only by copies of `c`. */
  function RStrip(s: string, c: char): (r: string)
    ensures StartsWith(s, r)
    ensures r == [] || r[|r| - 1] != c
    ensures forall i :: |r| <= i < |s| ==> s[i] == c
  {
    if |s| > 0 && s[|s| - 1] == c then RStrip(s[..|s| - 1], c) else s
  }

  function LowerChar(ch: char): char {
    if 'A' <= ch <= 'Z' then (ch as int + 32) as char else ch
  }

  /** `s.lower()`, restricted to the ASCII letters. */
  function Lower(s: string): (r: string)
    ensures |r| == |s|
    ensures forall i :: 0 <= i < |s| ==> r[i] == LowerChar(s[i])
  {
    seq(|s|, i requires 0 <= i < |s| => LowerChar(s[i]))
  }

  /** `s.replace(target, replacement)`: scanning from the left, every
      occurrence of `target` that does not overlap an earlier replaced one is
      replaced. */
  function ReplaceAll(s: string, target: string, replacement: string): (r: string)
    requires target != []
    ensures |replacement| == |target| ==> |r| == |s|
    ensures StartsWith(s, target) ==> StartsWith(r, replacement)
    decreases |s|
  {
    if |s| < |target| then s
    else if StartsWith(s, target) then replacement + ReplaceAll(s[|target|..], target, replacement)
    else [s[0]] + ReplaceAll(s[1..], target, replacement)
  }

  /** A string without the pattern comes back unchanged. */
  lemma {:induction false} ReplaceAllAbsent(s: string, target: string, replacement: string)
    requires target != [] && !Contains(s, target)
    ensures ReplaceAll(s, target, replacement) == s
  {
    if |s| < |target| {
    } else if StartsWith(s, target) {
      ContainsAt(s, target, 0);
    } else {
      if Contains(s[1..], target) {
        var i :| 0 <= i <= |s[1..]| - |target| && OccursAt(s[1..], target, i);
        assert s[i + 1..i + 1 + |target|] == s[1..][i..i + |target|];
        ContainsAt(s, target, i + 1);
      }
      ReplaceAllAbsent(s[1..], target, replacement);
    }
  }

  /** If the result of a replacement begins with `w`, and `w` does not hold
      the first character of the replacement, the input began with `w`. */
  lemma {:induction false} ReplaceAllKeepsPrefix(s: string, target: string, replacement: string, w: string)
    requires target != [] && replacement != [] && replacement[0] !in w
    requires StartsWith(ReplaceAll(s, target, replacement), w)
    ensures StartsWith(s, w)
  {
    var r := ReplaceAll(s, target, replacement);
    if w != [] && |s| >= |target| {
      // a replacement at the front would put replacement[0] at r[0] == w[0]
      assert r[0] == w[0];
      assert !StartsWith(s, target);
      var rest := ReplaceAll(s[1..], target, replacement);
      assert r == [s[0]] + rest;
      assert rest[..|w| - 1] == r[1..|w|] == w[1..];
      ReplaceAllKeepsPrefix(s[1..], target, replacement, w[1..]);
      assert s[..|w|] == [s[0]] + s[1..][..|w| - 1];
    }
  }

  /** When the replacement cannot start or complete an occurrence of the
      pattern (the pattern's first character is not in the replacement, and
      the replacement's first character is not in the rest of the pattern),
      no occurrence of the pattern is left after replacing them all. */
  lemma {:induction false} ReplaceAllRemovesAll(s: string, target: string, replacement: string)
    requires target != [] && replacement != []
    requires target[0] !in replacement && replacement[0] !in target[1..]
    ensures !Contains(ReplaceAll(s, target, replacement), target)
  {
    if |s| < |target| {
    } else if StartsWith(s, target) {
      ReplaceAllRemovesAll(s[|target|..], target, replacement);
      NoOccurrenceAfterReplacement(ReplaceAll(s[|target|..], target, replacement), target, replacement);
    } else {
      ReplaceAllRemovesAll(s[1..], target, replacement);
      NoOccurrenceAfterKeptChar(s, target, replacement);
    }
  }

  /** Step of ReplaceAllRemovesAll where a replacement was written first. */
  lemma NoOccurrenceAfterReplacement(rest: string, target: string, replacement: string)
    requires target != [] && target[0] !in replacement
    requires !Contains(rest, target)
    ensures !Contains(replacement + rest, target)
  {
    var r := replacement + rest;
    forall i | 0 <= i <= |r| - |target|
      ensures !OccursAt(r, target, i)
    {
      if i < |replacement| {
        assert r[i] == replacement[i];
      } else {
        assert rest[i - |replacement|..i - |replacement| + |target|] == r[i..i + |target|];
        assert !OccursAt(rest, target, i - |replacement|);
      }
    }
  }

  /** Step of ReplaceAllRemovesAll where the first character was kept. */
  lemma NoOccurrenceAfterKeptChar(s: string, target: string, replacement: string)
    requires target != [] && replacement != [] && replacement[0] !in target[1..]
    requires |s| >= |target| && !StartsWith(s, target)
    requires !Contains(ReplaceAll(s[1..], target, replacement), target)
    ensures !Contains(ReplaceAll(s, target, replacement), target)
  {
    var rest := ReplaceAll(s[1..], target, replacement);
    assert ReplaceAll(s, target, replacement) == [s[0]] + rest;
    NotAtFrontAfterKeptChar(s, target, replacement, rest);
    NotInsideAfterKeptChar(s[0], rest, target);
  }

  lemma NotAtFrontAfterKeptChar(s: string, target: string, replacement: string, rest: string)
    requires target != [] && replacement != [] && replacement[0] !in target[1..]
    requires |s| >= |target| && !StartsWith(s, target)
    requires rest == ReplaceAll(s[1..], target, replacement)
    ensures !OccursAt([s[0]] + rest, target, 0)
  {
    if OccursAt([s[0]] + rest, target, 0) {
      assert rest[..|target| - 1] == ([s[0]] + rest)[1..|target|] == target[1..];
      // then s would begin with target
      ReplaceAllKeepsPrefix(s[1..], target, replacement, target[1..]);
    }
  }

  lemma NotInsideAfterKeptChar(c: char, rest: string, target: string)
    requires !Contains(rest, target)
    ensures forall i :: 1 <= i ==> !OccursAt([c] + rest, target, i)
  {
    forall i | 1 <= i
      ensures !OccursAt([c] + rest, target, i)
    {
      if i + |target| <= |rest| + 1 {
        assert rest[i - 1..i - 1 + |target|] == ([c] + rest)[i..i + |target|];
        assert !OccursAt(rest, target, i - 1);
      }
    }
  }
}
