/**
 * The JavaScript string operations the invocation tool relies on, over `string`
 * (a Dafny `char` is a Unicode scalar value, where JavaScript counts UTF-16 code
 * units, so a character outside the Basic Multilingual Plane is one `char` here and
 * two units there; every separator and prefix the tool uses is ASCII, so no result
 * depends on the difference):
 * `startsWith`, `endsWith`, `includes`, `split` on a one-character separator,
 * and `toUpperCase` restricted to ASCII letters.
 */
module Text {

  /** `s.startsWith(p)`. */
  predicate StartsWith(s: string, p: string) {
    p <= s
  }

  /** `s.endsWith(suffix)`. */
  predicate EndsWith(s: string, suffix: string) {
    |suffix| <= |s| && s[|s| - |suffix|..] == suffix
  }

  /** `sub` occurs in `s` starting at index `i`. */
  ghost predicate OccursAt(s: string, sub: string, i: int) {
    0 <= i && i + |sub| <= |s| && s[i..i + |sub|] == sub
  }

  /** `s.includes(sub)`: a scan that tries each starting position in turn. */
  function Contains(s: string, sub: string): bool
    decreases |s|
  {
    if StartsWith(s, sub) then true
    else if |s| == 0 then false
    else Contains(s[1..], sub)
  }

  /** `Contains` holds exactly when `sub` occurs somewhere in `s`. */
  lemma {:induction false} ContainsOccurs(s: string, sub: string)
    ensures Contains(s, sub) <==> exists i :: OccursAt(s, sub, i)
    decreases |s|
  {
    if StartsWith(s, sub) {
      assert s[0..|sub|] == sub;
      assert OccursAt(s, sub, 0);
    } else if |s| != 0 {
      ContainsOccurs(s[1..], sub);
      forall i | 0 < i && i + |sub| <= |s|
        ensures OccursAt(s, sub, i) <==> OccursAt(s[1..], sub, i - 1)
      {
        assert s[1..][i - 1..i - 1 + |sub|] == s[i..i + |sub|];
      }
      if Contains(s[1..], sub) {
        var i :| OccursAt(s[1..], sub, i);
        assert OccursAt(s, sub, i + 1);
      }
    }
  }

  /** The part of `s` before the first `c`, or all of `s` when `c` does not occur. */
  function Before(s: string, c: char): (r: string)
    ensures r <= s && c !in r
    ensures |r| < |s| ==> s[|r|] == c
    ensures c !in s ==> r == s
  {
    if s == [] then []
    else if s[0] == c then []
    else [s[0]] + Before(s[1..], c)
  }

  /** The part of `s` after the first `c`. */
  function After(s: string, c: char): (r: string)
    requires c in s
    ensures s == Before(s, c) + [c] + r
  {
    if s[0] == c then s[1..]
    else
      assert c in s[1..] by { var k :| 0 <= k < |s| && s[k] == c; assert s[1..][k - 1] == c; }
      After(s[1..], c)
  }

  /** `Before` and `After` split a string at its first separator and nowhere else. */
  lemma {:induction false} BeforeAfterJoin(a: string, c: char, b: string)
    requires c !in a
    ensures Before(a + [c] + b, c) == a
    ensures After(a + [c] + b, c) == b
  {
    if a != [] {
      assert (a + [c] + b)[1..] == a[1..] + [c] + b;
      BeforeAfterJoin(a[1..], c, b);
    }
  }

  /** Inverse of `Split`: `parts[0] + c + parts[1] + c + ...`. */
  function Join(parts: seq<string>, c: char): string
    requires |parts| >= 1
  {
    if |parts| == 1 then parts[0] else parts[0] + [c] + Join(parts[1..], c)
  }

  /**
   * `s.split(c)`: always at least one piece (`"".split(c)` is `[""]`); the pieces
   * hold no `c`, and joining them with `c` gives back `s`.
   */
  function Split(s: string, c: char): (parts: seq<string>)
    ensures |parts| >= 1
    ensures forall i :: 0 <= i < |parts| ==> c !in parts[i]
    ensures Join(parts, c) == s
  {
    if s == [] then [[]]
    else
      var rest := Split(s[1..], c);
      if s[0] == c then
        assert ([[]] + rest)[1..] == rest;
        [[]] + rest
      else
        assert ([[s[0]] + rest[0]] + rest[1..])[1..] == rest[1..];
        [[s[0]] + rest[0]] + rest[1..]
  }

  /**
   * The first piece of `Split` is the text before the first separator; there is
   * a second piece exactly when the separator occurs, and it is the text between
   * the first and the second separator.
   */
  lemma {:induction false} SplitPieces(s: string, c: char)
    ensures Split(s, c)[0] == Before(s, c)
    ensures |Split(s, c)| >= 2 <==> c in s
    ensures c in s ==> Split(s, c)[1] == Before(After(s, c), c)
  {
    if s != [] {
      var rest := Split(s[1..], c);
      SplitPieces(s[1..], c);
      assert s == [s[0]] + s[1..];
      if s[0] == c {
        assert Split(s, c) == [[]] + rest;
      } else {
        assert Split(s, c) == [[s[0]] + rest[0]] + rest[1..];
        assert c in s <==> c in s[1..];
      }
    }
  }

  /** `ch.toUpperCase()` for ASCII letters; every other character is kept. */
  function UpperChar(ch: char): char {
    if 'a' <= ch <= 'z' then (ch as int - 32) as char else ch
  }

  /**
   * `s.toUpperCase()` restricted to ASCII: lower-case letters become their
   * upper-case forms, and nothing else changes.
   */
  function ToUpper(s: string): (r: string)
    ensures |r| == |s|
    ensures forall i :: 0 <= i < |s| && 'a' <= s[i] <= 'z' ==> r[i] as int == s[i] as int - 32
    ensures forall i :: 0 <= i < |s| && !('a' <= s[i] <= 'z') ==> r[i] == s[i]
    ensures forall i :: 0 <= i < |r| ==> !('a' <= r[i] <= 'z')
  {
    if s == [] then [] else [UpperChar(s[0])] + ToUpper(s[1..])
  }
}
