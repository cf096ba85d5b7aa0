/**
 * String helpers shared by the model: the `trim`, `toLowerCase`, `includes`,
 * `split` and `localeCompare` operations of the source's runtime, stated over
 * `seq<char>`.
 */
module Strings {

  /** The code points that ECMAScript's `String.prototype.trim` removes:
      WhiteSpace (including the Zs category) and LineTerminator. */
  predicate IsSpace(c: char) {
    || c == ' ' || c == '\t' || c == '\n' || c == '\r'
    || c == '\U{B}' || c == '\U{C}' || c == '\U{A0}' || c == '\U{1680}'
    || ('\U{2000}' <= c <= '\U{200A}')
    || c == '\U{2028}' || c == '\U{2029}' || c == '\U{202F}' || c == '\U{205F}'
    || c == '\U{3000}' || c == '\U{FEFF}'
  }

  predicate AllSpace(s: string) {
    forall i :: 0 <= i < |s| ==> IsSpace(s[i])
  }

  /** A string that `trim` leaves alone: empty, or no space at either end. */
  predicate Trimmed(s: string) {
    s == [] || (!IsSpace(s[0]) && !IsSpace(s[|s| - 1]))
  }

  /** The number of spaces that open `s`. */
  function LeadingSpaces(s: string): (n: nat)
    ensures n <= |s| && AllSpace(s[..n])
    ensures n == |s| || !IsSpace(s[n])
    decreases |s|
  {
    if |s| > 0 && IsSpace(s[0]) then
      var n := 1 + LeadingSpaces(s[1..]);
      assert s[..n] == [s[0]] + s[1..][..n - 1];
      n
    else 0
  }

  /** The number of spaces that close `s`. */
  function TrailingSpaces(s: string): (n: nat)
    ensures n <= |s| && AllSpace(s[|s| - n..])
    ensures n == |s| || !IsSpace(s[|s| - n - 1])
    decreases |s|
  {
    if |s| > 0 && IsSpace(s[|s| - 1]) then
      var t := s[..|s| - 1];
      var n := 1 + TrailingSpaces(t);
      assert s[|s| - n..] == t[|t| - (n - 1)..] + [s[|s| - 1]];
      n
    else 0
  }

  lemma SuffixSplit(s: string, i: int, k: int)
    requires 0 <= i <= |s| && 0 <= k <= |s| - i
    ensures s == s[..i] + s[i..][..k] + s[i..][k..]
  {
    assert s == s[..i] + s[i..];
    assert s[i..] == s[i..][..k] + s[i..][k..];
  }

  /** `s.trim()`: the slice of `s` left once the leading and the trailing
      spaces are cut off. */
  function Trim(s: string): (r: string)
    ensures Trimmed(r)
  {
    var t := s[LeadingSpaces(s)..];
    t[..|t| - TrailingSpaces(t)]
  }

  /** In a split of `s` into spaces, a middle part and spaces, every
      non-space character of `s` lies in the middle part. */
  lemma NonSpaceInMiddle(s: string, a: string, m: string, b: string, k: int)
    requires s == a + m + b && AllSpace(a) && AllSpace(b)
    requires 0 <= k < |s| && !IsSpace(s[k])
    ensures |a| <= k < |a| + |m|
  {
  }

  /** `Trim(s)` with the spaces cut off on either side. */
  lemma TrimSplit(s: string) returns (a: string, b: string)
    ensures s == a + Trim(s) + b && AllSpace(a) && AllSpace(b)
  {
    var i := LeadingSpaces(s);
    var t := s[i..];
    var k := |t| - TrailingSpaces(t);
    SuffixSplit(s, i, k);
    a, b := s[..i], t[k..];
  }

  /** Two splits of one string into spaces, a trimmed middle and spaces
      have the same middle. */
  lemma SplitsAgree(s: string, a: string, m: string, b: string, a': string, m': string, b': string)
    requires s == a + m + b && AllSpace(a) && AllSpace(b) && Trimmed(m)
    requires s == a' + m' + b' && AllSpace(a') && AllSpace(b') && Trimmed(m')
    ensures m == m'
  {
    if m' != [] && m == [] {
      NonSpaceInMiddle(s, a, m, b, |a'|);
    } else if m' == [] && m != [] {
      NonSpaceInMiddle(s, a', m', b', |a|);
    } else if m' != [] && m != [] {
      NonSpaceInMiddle(s, a, m, b, |a'|);
      NonSpaceInMiddle(s, a, m, b, |a'| + |m'| - 1);
      NonSpaceInMiddle(s, a', m', b', |a|);
      NonSpaceInMiddle(s, a', m', b', |a| + |m| - 1);
      assert |a| == |a'| && |m| == |m'|;
      assert m == s[|a|..|a| + |m|] == m';
    }
  }

  /** Trim has exactly one possible result: the middle of any split of `s`
      into spaces, a trimmed string and spaces. */
  lemma TrimUnique(s: string, a: string, m: string, b: string)
    requires s == a + m + b && AllSpace(a) && AllSpace(b) && Trimmed(m)
    ensures Trim(s) == m
  {
    var a', b' := TrimSplit(s);
    SplitsAgree(s, a, m, b, a', Trim(s), b');
  }

  /** A string without spaces at its ends is its own trim. */
  lemma TrimmedIsFixed(s: string)
    requires Trimmed(s)
    ensures Trim(s) == s
  {
    assert s == [] + s + [];
    TrimUnique(s, [], s, []);
  }

  lemma TrimIdempotent(s: string)
    ensures Trim(Trim(s)) == Trim(s)
  {
    var r := Trim(s);
    assert r == [] + r + [];
    TrimUnique(r, [], r, []);
  }

  lemma AllSpaceConcat(a: string, b: string)
    requires AllSpace(a) && AllSpace(b)
    ensures AllSpace(a + b)
  {
  }

  lemma Regroup(ws: string, a: string, r: string, b: string, ws': string)
    ensures ws + (a + r + b) + ws' == (ws + a) + r + (b + ws')
  {
  }

  /** Spaces around a string never reach the result of `trim`. */
  lemma TrimIgnoresSurroundingSpace(ws: string, s: string, ws': string)
    requires AllSpace(ws) && AllSpace(ws')
    ensures Trim(ws + s + ws') == Trim(s)
  {
    var a, b := TrimSplit(s);
    var r := Trim(s);
    AllSpaceConcat(ws, a);
    AllSpaceConcat(b, ws');
    Regroup(ws, a, r, b, ws');
    TrimUnique(ws + s + ws', ws + a, r, b + ws');
  }

  /** `toLowerCase` on one character; only ASCII letters are mapped. */
  function LowerChar(c: char): char {
    if 'A' <= c <= 'Z' then (c as int + 32) as char else c
  }

  function Lower(s: string): (r: string)
    ensures |r| == |s| && forall i :: 0 <= i < |s| ==> r[i] == LowerChar(s[i])
  {
    seq(|s|, i requires 0 <= i < |s| => LowerChar(s[i]))
  }

  lemma LowerAppend(s: string, t: string)
    ensures Lower(s + t) == Lower(s) + Lower(t)
  {
    assert forall i :: 0 <= i < |s + t| ==> Lower(s + t)[i] == (Lower(s) + Lower(t))[i];
  }

  lemma LowerKeepsSpace(s: string)
    requires AllSpace(s)
    ensures AllSpace(Lower(s))
  {
  }

  /** `t.includes(p)`: `p` occurs somewhere in `t`. */
  predicate Contains(t: string, p: string)
    decreases |t|
  {
    p <= t || (|t| > 0 && Contains(t[1..], p))
  }

  /** `localeCompare(a, b) <= 0`, taken as the lexicographic order on code points. */
  predicate StrLe(a: string, b: string)
    decreases |a|
  {
    if a == [] then true
    else if b == [] then false
    else if a[0] != b[0] then a[0] < b[0]
    else StrLe(a[1..], b[1..])
  }

  lemma {:induction false} StrLeTotal(a: string, b: string)
    ensures StrLe(a, b) || StrLe(b, a)
    decreases |a|
  {
    if a != [] && b != [] && a[0] == b[0] {
      StrLeTotal(a[1..], b[1..]);
    }
  }

  lemma {:induction false} StrLeTransitive(a: string, b: string, c: string)
    requires StrLe(a, b) && StrLe(b, c)
    ensures StrLe(a, c)
    decreases |a|
  {
    if a != [] && b != [] && c != [] && a[0] == b[0] && b[0] == c[0] {
      StrLeTransitive(a[1..], b[1..], c[1..]);
    }
  }

  lemma {:induction false} StrLeAntisymmetric(a: string, b: string)
    requires StrLe(a, b) && StrLe(b, a)
    ensures a == b
    decreases |a|
  {
    if a != [] && b != [] {
      StrLeAntisymmetric(a[1..], b[1..]);
      assert a == [a[0]] + a[1..] && b == [b[0]] + b[1..];
    }
  }

  /** Two strings joined at a separator that the heads do not contain split
      back into the same head and tail. */
  lemma SeparatorSplits(a: string, s: string, b: string, t: string, sep: char)
    requires sep !in a && sep !in b
    requires a + [sep] + s == b + [sep] + t
    ensures a == b && s == t
  {
    var x := a + [sep] + s;
    assert x[|a|] == sep;
    assert x[|b|] == sep;
    assert |a| == |b|;
    assert a == x[..|a|] && b == x[..|b|];
    assert s == x[|a| + 1..] && t == x[|b| + 1..];
  }

  /** `s.split(sep)` for a one-character separator: the pieces between
      separators, always at least one. */
  function Split(s: string, sep: char): (r: seq<string>)
    ensures |r| >= 1
    ensures forall k :: 0 <= k < |r| ==> sep !in r[k]
    decreases |s|
  {
    if s == [] then [""]
    else
      var rest := Split(s[1..], sep);
      if s[0] == sep then [""] + rest
      else [[s[0]] + rest[0]] + rest[1..]
  }

  /** `pieces.join(sep)`. */
  function Join(pieces: seq<string>, sep: char): string
    requires |pieces| >= 1
    decreases |pieces|
  {
    if |pieces| == 1 then pieces[0] else pieces[0] + [sep] + Join(pieces[1..], sep)
  }

  lemma {:induction false} SplitPiece(a: string, sep: char)
    requires sep !in a
    ensures Split(a, sep) == [a]
    decreases |a|
  {
    if a != [] {
      SplitPiece(a[1..], sep);
      assert a == [a[0]] + a[1..];
    }
  }

  lemma {:induction false} SplitAtSeparator(a: string, sep: char, t: string)
    requires sep !in a
    ensures Split(a + [sep] + t, sep) == [a] + Split(t, sep)
    decreases |a|
  {
    var s := a + [sep] + t;
    if a == [] {
      assert s[1..] == t;
    } else {
      assert s[1..] == a[1..] + [sep] + t;
      SplitAtSeparator(a[1..], sep, t);
      assert a == [a[0]] + a[1..];
    }
  }

  /** Splitting undoes joining, for pieces free of the separator. */
  lemma {:induction false} SplitJoin(pieces: seq<string>, sep: char)
    requires |pieces| >= 1
    requires forall k :: 0 <= k < |pieces| ==> sep !in pieces[k]
    ensures Split(Join(pieces, sep), sep) == pieces
    decreases |pieces|
  {
    if |pieces| == 1 {
      SplitPiece(pieces[0], sep);
    } else {
      SplitJoin(pieces[1..], sep);
      SplitAtSeparator(pieces[0], sep, Join(pieces[1..], sep));
      assert pieces == [pieces[0]] + pieces[1..];
    }
  }

  /** Decimal digits of a natural number. */
  function NatToString(n: nat): (r: string)
    ensures |r| >= 1
    decreases n
  {
    var d := ['0' + (n % 10) as char];
    if n < 10 then d else NatToString(n / 10) + d
  }

  /** `String(n)` for an integer. */
  function IntToString(n: int): string {
    if n < 0 then "-" + NatToString(-n) else NatToString(n)
  }
}
