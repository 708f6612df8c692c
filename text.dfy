/**
 * String operations the crawler relies on, written out over `seq<char>`:
 * ASCII lower-casing, `str.startswith`, `str.endswith`, the `in` substring
 * test and `str.count` for one character.
 */
module Text {

  /** `str.lower` restricted to ASCII: only 'A'..'Z' change. */
  function LowerChar(c: char): char {
    if 'A' <= c <= 'Z' then (c as int + 32) as char else c
  }

  /** `s.lower()`, character by character. */
  function Lower(s: string): string {
    seq(|s|, i requires 0 <= i < |s| => LowerChar(s[i]))
  }

  /** `s.startswith(prefix)` */
  predicate StartsWith(s: string, prefix: string) {
    prefix <= s
  }

  /** `s.endswith(suffix)` */
  predicate EndsWith(s: string, suffix: string) {
    |suffix| <= |s| && s[|s| - |suffix|..] == suffix
  }

  /** `sub` occurs in `s` starting at index `i`. */
  ghost predicate OccursAt(s: string, sub: string, i: int) {
    0 <= i && i + |sub| <= |s| && s[i..i + |sub|] == sub
  }

  /** Python's `sub in s`: try each start position from the left. */
  function Contains(s: string, sub: string): bool
    decreases |s|
  {
    if |sub| > |s| then false
    else if sub <= s then true
    else Contains(s[1..], sub)
  }

  /** `sub in s` holds exactly when `sub` occurs at some position of `s`. */
  lemma {:induction false} ContainsIff(s: string, sub: string)
    ensures Contains(s, sub) <==> exists i :: OccursAt(s, sub, i)
    decreases |s|
  {
    if |sub| > |s| {
    } else if sub <= s {
      assert OccursAt(s, sub, 0);
    } else {
      ContainsIff(s[1..], sub);
      forall i ensures OccursAt(s[1..], sub, i) <==> OccursAt(s, sub, i + 1) {
        if 0 <= i && i + |sub| <= |s[1..]| {
          assert s[1..][i..i + |sub|] == s[i + 1..i + 1 + |sub|];
        }
      }
      assert !OccursAt(s, sub, 0);
      assert forall i :: OccursAt(s, sub, i) && i != 0 ==> OccursAt(s[1..], sub, i - 1);
    }
  }

  /** A pattern with a character that `s` lacks does not occur in `s`. */
  lemma NotContainsMissingChar(s: string, sub: string, k: nat)
    requires k < |sub| && sub[k] !in s
    ensures !Contains(s, sub)
  {
    ContainsIff(s, sub);
    forall i ensures !OccursAt(s, sub, i) {
      if 0 <= i && i + |sub| <= |s| {
        assert s[i..i + |sub|][k] == s[i + k] && s[i + k] in s;
      }
    }
  }

  /** `s.count(c)` for a single character `c`. */
  function CountChar(s: string, c: char): nat {
    if s == [] then 0 else (if s[0] == c then 1 else 0) + CountChar(s[1..], c)
  }

  /** `c` appears at two distinct positions of `s`. */
  ghost predicate TwoOccurrences(s: string, c: char) {
    exists i, j :: 0 <= i < j < |s| && s[i] == c && s[j] == c
  }

  /** One occurrence of `c` is exactly what a positive count means. */
  lemma {:induction false} CountPositiveIff(s: string, c: char)
    ensures CountChar(s, c) > 0 <==> c in s
  {
    if s != [] {
      CountPositiveIff(s[1..], c);
      assert s == [s[0]] + s[1..];
    }
  }

  /** `s.count(c) > 1` holds exactly when `c` occurs at two distinct positions. */
  lemma {:induction false} CountAboveOneIff(s: string, c: char)
    ensures CountChar(s, c) > 1 <==> TwoOccurrences(s, c)
  {
    if s != [] {
      CountAboveOneIff(s[1..], c);
      CountPositiveIff(s[1..], c);
      if TwoOccurrences(s[1..], c) {
        var i, j :| 0 <= i < j < |s[1..]| && s[1..][i] == c && s[1..][j] == c;
        assert s[i + 1] == c && s[j + 1] == c;
      }
      if s[0] == c && c in s[1..] {
        var j :| 0 <= j < |s[1..]| && s[1..][j] == c;
        assert s[0] == c && s[j + 1] == c;
      }
      if TwoOccurrences(s, c) {
        var i, j :| 0 <= i < j < |s| && s[i] == c && s[j] == c;
        if i == 0 {
          assert s[1..][j - 1] == c;
        } else {
          assert s[1..][i - 1] == c && s[1..][j - 1] == c;
        }
      }
    }
  }
}
