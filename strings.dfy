/**
 * The handful of Python `str` operations the router relies on:
 * `startswith`, `in`, `replace`, `lower`, `split(sep)[0]` and `str(int)`.
 */
module Strings {

  /** Python's `s.startswith(prefix)`. */
  predicate StartsWith(s: string, prefix: string) {
    |prefix| <= |s| && s[..|prefix|] == prefix
  }

  /** Two strings that differ at some position of the prefix do not start alike. */
  lemma DiffersWithin(s: string, prefix: string, i: nat)
    requires i < |prefix| && i < |s| && s[i] != prefix[i]
    ensures !StartsWith(s, prefix)
  {
  }

  /** Python's `sub in s`: some position of `s` starts with `sub`. */
  predicate Contains(s: string, sub: string)
    decreases |s|
  {
    StartsWith(s, sub) || (s != [] && Contains(s[1..], sub))
  }

  /**
   * Python's `s.replace(pat, rep)` for a non-empty `pat`: scans left to right
   * and replaces every non-overlapping occurrence. A string without the
   * pattern is left alone; deleting the pattern never lengthens a string and
   * strictly shortens one that holds it.
   */
  function ReplaceAll(s: string, pat: string, rep: string): (r: string)
    requires pat != []
    ensures !Contains(s, pat) ==> r == s
    ensures rep == [] ==> |r| <= |s|
    ensures rep == [] && Contains(s, pat) ==> |r| < |s|
    decreases |s|
  {
    if StartsWith(s, pat) then rep + ReplaceAll(s[|pat|..], pat, rep)
    else if s == [] then []
    else [s[0]] + ReplaceAll(s[1..], pat, rep)
  }

  /** Removing `pat` from `pat + s` removes the leading copy and goes on with `s`. */
  lemma ReplaceAllAfterPrefix(pat: string, s: string, rep: string)
    requires pat != []
    ensures ReplaceAll(pat + s, pat, rep) == rep + ReplaceAll(s, pat, rep)
  {
    assert (pat + s)[..|pat|] == pat;
    assert (pat + s)[|pat|..] == s;
  }

  /** A string ends with itself as a substring after any prefix. */
  lemma {:induction false} ContainsSuffix(a: string, b: string)
    ensures Contains(a + b, b)
  {
    if a == [] {
      assert a + b == b;
      assert b[..|b|] == b;
    } else {
      assert (a + b)[1..] == a[1..] + b;
      ContainsSuffix(a[1..], b);
    }
  }

  /** Nothing contains a string longer than itself. */
  lemma {:induction false} ContainsNeedsRoom(s: string, sub: string)
    ensures Contains(s, sub) ==> |sub| <= |s|
    decreases |s|
  {
    if s != [] {
      ContainsNeedsRoom(s[1..], sub);
    }
  }

  /** Where `sub in s` holds, `i` is a position at which a copy of `sub` starts. */
  lemma {:induction false} ContainsAt(s: string, sub: string) returns (i: nat)
    requires Contains(s, sub)
    ensures i + |sub| <= |s| && s[i..i + |sub|] == sub
    decreases |s|
  {
    if StartsWith(s, sub) {
      i := 0;
    } else {
      var j := ContainsAt(s[1..], sub);
      i := j + 1;
      assert s[1..][j..j + |sub|] == s[i..i + |sub|];
    }
  }

  /** A string contains its prefix. */
  lemma ContainsPrefix(a: string, b: string)
    ensures Contains(a + b, a)
  {
    assert (a + b)[..|a|] == a;
  }

  /** `sub in s` carries over to `p + s + q`. */
  lemma {:induction false} ContainsInfix(p: string, s: string, q: string, sub: string)
    requires Contains(s, sub)
    ensures Contains(p + s + q, sub)
    decreases |p| + |s|
  {
    if p != [] {
      assert (p + s + q)[1..] == p[1..] + s + q;
      ContainsInfix(p[1..], s, q, sub);
    } else if StartsWith(s, sub) {
      assert p + s + q == s + q;
      assert (s + q)[..|sub|] == s[..|sub|];
    } else {
      assert p + s + q == s + q;
      assert (s + q)[1..] == [] + s[1..] + q;
      ContainsInfix([], s[1..], q, sub);
    }
  }

  predicate IsUpper(ch: char) {
    'A' <= ch <= 'Z'
  }

  /** Case mapping of one character: ASCII capitals become small letters. */
  function LowerChar(ch: char): (r: char)
    ensures !IsUpper(r)
    ensures !IsUpper(ch) ==> r == ch
    ensures IsUpper(ch) ==> 'a' <= r <= 'z' && r as int - 'a' as int == ch as int - 'A' as int
  {
    if IsUpper(ch) then (ch as int + 32) as char else ch
  }

  /** Python's `s.lower()`, restricted to the ASCII case mapping. */
  function Lower(s: string): (r: string)
    ensures |r| == |s|
    ensures forall i :: 0 <= i < |s| ==> r[i] == LowerChar(s[i])
    ensures forall i :: 0 <= i < |r| ==> !IsUpper(r[i])
  {
    if s == [] then [] else [LowerChar(s[0])] + Lower(s[1..])
  }

  /** Lower-casing a slice is slicing the lower-cased string. */
  lemma LowerSlice(s: string, i: nat, j: nat)
    requires i <= j <= |s|
    ensures Lower(s[i..j]) == Lower(s)[i..j]
  {
    var a, b := Lower(s[i..j]), Lower(s)[i..j];
    assert |a| == |b|;
    forall k | 0 <= k < |a|
      ensures a[k] == b[k]
    {
      calc {
        a[k];
        LowerChar(s[i..j][k]);
        { assert s[i..j][k] == s[i + k]; }
        LowerChar(s[i + k]);
        Lower(s)[i + k];
      }
    }
  }

  /** Lower-casing twice is lower-casing once. */
  lemma {:induction false} LowerIdempotent(s: string)
    ensures Lower(Lower(s)) == Lower(s)
  {
    if s != [] {
      var t := Lower(s);
      assert t == [LowerChar(s[0])] + Lower(s[1..]);
      assert t[1..] == Lower(s[1..]);
      LowerIdempotent(s[1..]);
    }
  }

  /** Lower-casing works character by character, so it distributes over `+`. */
  lemma {:induction false} LowerAppend(a: string, b: string)
    ensures Lower(a + b) == Lower(a) + Lower(b)
  {
    if a != [] {
      assert (a + b)[1..] == a[1..] + b;
      LowerAppend(a[1..], b);
    } else {
      assert a + b == b;
    }
  }

  /** The characters of `s` from position `i` spell `word` when lower-cased. */
  predicate LowerMatchAt(s: string, i: int, word: string) {
    0 <= i && i + |word| <= |s| && Lower(s[i..i + |word|]) == word
  }

  /**
   * `word in s.lower()` holds exactly when some stretch of `s` spells `word`
   * in some mix of cases.
   */
  lemma LowerContains(s: string, word: string)
    ensures Contains(Lower(s), word) <==> exists i :: LowerMatchAt(s, i, word)
  {
    if Contains(Lower(s), word) {
      var i := ContainsAt(Lower(s), word);
      LowerSlice(s, i, i + |word|);
      assert LowerMatchAt(s, i, word);
    }
    if exists i :: LowerMatchAt(s, i, word) {
      var i :| LowerMatchAt(s, i, word);
      LowerMatchContains(s, i, word);
    }
  }

  lemma LowerMatchContains(s: string, i: int, word: string)
    requires LowerMatchAt(s, i, word)
    ensures Contains(Lower(s), word)
  {
    var j := i + |word|;
    var low := Lower(s);
    LowerSlice(s, i, j);
    assert low == low[..i] + low[i..j] + low[j..];
    assert StartsWith(low[i..j], word);
    ContainsInfix(low[..i], low[i..j], low[j..], word);
  }

  /** Python's `s.split(sep)[0]`: the text before the first `sep`, or all of `s`. */
  function BeforeFirst(s: string, sep: char): (r: string)
    ensures sep !in r
    ensures StartsWith(s, r)
    ensures r == s || s[|r|] == sep
    decreases |s|
  {
    if s == [] || s[0] == sep then [] else [s[0]] + BeforeFirst(s[1..], sep)
  }

  predicate IsDigit(ch: char) {
    '0' <= ch <= '9'
  }

  function DigitChar(d: nat): (ch: char)
    requires d < 10
    ensures IsDigit(ch) && ch as int - '0' as int == d
  {
    ('0' as int + d) as char
  }

  /** Python's `str(n)` for a non-negative integer. */
  function NatToDecimal(n: nat): (r: string)
    ensures r != []
    ensures forall i :: 0 <= i < |r| ==> IsDigit(r[i])
    ensures r[0] == '0' ==> n == 0
    decreases n
  {
    if n < 10 then [DigitChar(n)] else NatToDecimal(n / 10) + [DigitChar(n % 10)]
  }

  /** Python's `str(n)` (and an f-string `{n}`) for any integer. */
  function IntToDecimal(n: int): (r: string)
    ensures r != []
    ensures n < 0 <==> r[0] == '-'
    ensures n >= 0 ==> r == NatToDecimal(n)
    ensures n < 0 ==> r[1..] == NatToDecimal(-n)
  {
    if n < 0 then "-" + NatToDecimal(-n) else NatToDecimal(n)
  }

  /** Reads a string of decimal digits back as a number. */
  function DecimalValue(s: string): int
    requires forall i :: 0 <= i < |s| ==> IsDigit(s[i])
  {
    if s == [] then 0
    else DecimalValue(s[..|s| - 1]) * 10 + (s[|s| - 1] as int - '0' as int)
  }

  /** The decimal text of a number reads back as that number. */
  lemma {:induction false} DecimalRoundTrip(n: nat)
    ensures DecimalValue(NatToDecimal(n)) == n
    decreases n
  {
    if n >= 10 {
      var r := NatToDecimal(n);
      assert r[..|r| - 1] == NatToDecimal(n / 10);
      DecimalRoundTrip(n / 10);
    }
  }
}
