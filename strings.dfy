/** Python string operations the core relies on: `str.replace` with its
    replace-every-occurrence semantics, substring search, and lower-casing. */
module Strings {

  /** `p` occurs in `s` starting at index `i`. */
  predicate MatchAt(s: string, i: nat, p: string) {
    i + |p| <= |s| && s[i..i + |p|] == p
  }

  /** Python's `p in s`. */
  predicate Contains(s: string, p: string) {
    exists i | 0 <= i <= |s| :: MatchAt(s, i, p)
  }

  /** Python's `s.replace(p, r)` for a non-empty `p`: scanning left to right,
      every occurrence of `p` that does not overlap an earlier replaced one is
      replaced by `r`; the text that is scanned past is copied unchanged. */
  function ReplaceAll(s: string, p: string, r: string): (t: string)
    requires |p| > 0
    // replacing the pattern by itself changes nothing
    ensures r == p ==> t == s
    // a replacement as long as the pattern keeps the length
    ensures |r| == |p| ==> |t| == |s|
    decreases |s|
  {
    if |s| < |p| then s
    else if s[..|p|] == p then
      assert s == s[..|p|] + s[|p|..];
      r + ReplaceAll(s[|p|..], p, r)
    else
      assert s == [s[0]] + s[1..];
      [s[0]] + ReplaceAll(s[1..], p, r)
  }

  /** Text in front of `rest` that holds no occurrence of `p` (not even one
      running into `rest`) is copied unchanged. */
  lemma {:induction false} ReplaceSkip(w: string, rest: string, p: string, r: string)
    requires |p| > 0
    requires forall i :: 0 <= i < |w| ==> !MatchAt(w + rest, i, p)
    ensures ReplaceAll(w + rest, p, r) == w + ReplaceAll(rest, p, r)
  {
    if w == [] {
      assert w + rest == rest;
    } else {
      var s := w + rest;
      assert !MatchAt(s, 0, p);
      if |s| < |p| {
        assert |rest| < |p|;
        assert ReplaceAll(rest, p, r) == rest;
      } else {
        assert s[..|p|] != p;
        assert s[1..] == w[1..] + rest;
        forall i | 0 <= i < |w[1..]|
          ensures !MatchAt(w[1..] + rest, i, p)
        {
          assert !MatchAt(s, i + 1, p);
          if i + |p| <= |s[1..]| {
            assert s[1..][i..i + |p|] == s[i + 1..i + 1 + |p|];
          }
        }
        ReplaceSkip(w[1..], rest, p, r);
        assert [s[0]] + (w[1..] + ReplaceAll(rest, p, r)) == w + ReplaceAll(rest, p, r);
      }
    }
  }

  /** An occurrence at the front is replaced, and scanning resumes after it. */
  lemma ReplaceHit(rest: string, p: string, r: string)
    requires |p| > 0
    ensures ReplaceAll(p + rest, p, r) == r + ReplaceAll(rest, p, r)
  {
    var s := p + rest;
    assert s[..|p|] == p;
    assert s[|p|..] == rest;
  }

  /** A text without any occurrence of `p` is left exactly as it is. */
  lemma ReplaceAbsent(s: string, p: string, r: string)
    requires |p| > 0
    requires !Contains(s, p)
    ensures ReplaceAll(s, p, r) == s
  {
    forall i | 0 <= i < |s|
      ensures !MatchAt(s + [], i, p)
    {
      assert s + [] == s;
    }
    ReplaceSkip(s, [], p, r);
    assert s + [] == s;
  }

  /** Python's `str.lower()` on one character, restricted to ASCII letters. */
  function LowerChar(c: char): char {
    if 'A' <= c <= 'Z' then (c as int + 32) as char else c
  }

  /** Python's `str.lower()` restricted to ASCII letters. */
  function AsciiLower(s: string): string {
    seq(|s|, i requires 0 <= i < |s| => LowerChar(s[i]))
  }
}
