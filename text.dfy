/**
 * The operations on Python `str` values that the wrappers and the validator
 * use, restated over `string` (a `seq<char>`): searching (`find`, `in`,
 * `count`), cutting (`split`, `join`, `strip`, `rstrip`), case and the
 * conversions between integers and their decimal text (`str(n)`, `int(s)`).
 *
 * Character classes are the ASCII parts of Python's: `\w` is a letter, a
 * digit or `_`; whitespace is the space and the code points 9-13 and 28-31.
 */
module Text {

  datatype Option<+T> = None | Some(value: T)

  // ---------------------------------------------------------------------
  // Character classes
  // ---------------------------------------------------------------------

  predicate IsDigit(c: char) { '0' <= c <= '9' }

  predicate IsLower(c: char) { 'a' <= c <= 'z' }

  predicate IsUpper(c: char) { 'A' <= c <= 'Z' }

  /** The regular-expression class `\w`, restricted to ASCII. */
  predicate IsWordChar(c: char) { IsLower(c) || IsUpper(c) || IsDigit(c) || c == '_' }

  /** The ASCII characters for which Python's `str.isspace` holds. */
  predicate IsSpace(c: char) { c == ' ' || 9 <= c as int <= 13 || 28 <= c as int <= 31 }

  // ---------------------------------------------------------------------
  // Searching
  // ---------------------------------------------------------------------

  /** `t` occurs in `s` starting at index `i`. */
  predicate OccursAt(s: string, t: string, i: nat)
  {
    i + |t| <= |s| && s[i..i + |t|] == t
  }

  /** Python's `s.find(t, from)`: the first occurrence at or after `from`, or -1. */
  function Find(s: string, t: string, from: nat): (r: int)
    requires |t| > 0
    decreases |s| - from
    ensures r == -1 || (from <= r && OccursAt(s, t, r))
    ensures r == -1 ==> forall i: nat :: from <= i ==> !OccursAt(s, t, i)
    ensures r >= 0 ==> forall i: nat :: from <= i < r ==> !OccursAt(s, t, i)
  {
    if |s| < from + |t| then -1
    else if OccursAt(s, t, from) then from
    else Find(s, t, from + 1)
  }

  /** A slice of a slice is a slice of the whole. */
  lemma SliceOfSlice<T>(s: seq<T>, a: nat, b: nat, i: nat, j: nat)
    requires a <= b <= |s| && i <= j <= b - a
    ensures s[a..b][i..j] == s[a + i..a + j]
  {
    forall k | 0 <= k < j - i
      ensures s[a..b][i..j][k] == s[a + i..a + j][k]
    {
    }
  }

  /** The two halves of a concatenation are recovered by slicing it at the seam. */
  lemma ConcatSplit<T>(a: seq<T>, b: seq<T>)
    ensures (a + b)[..|a|] == a && (a + b)[|a|..] == b
  {
  }

  /** Where each of five concatenated parts sits in the whole. */
  lemma ConcatParts<T>(a: seq<T>, b: seq<T>, c: seq<T>, d: seq<T>, e: seq<T>)
    ensures var s, i := a + b + c + d + e, |a|;
      && s[..i] == a && s[i..i + |b|] == b && s[i + |b|..i + |b| + |c|] == c
      && s[i + |b| + |c|..i + |b| + |c| + |d|] == d && s[i + |b| + |c| + |d|..] == e
  {
    var p := a + b;
    var q := p + c;
    var r := q + d;
    var s := r + e;
    ConcatSplit(r, e);
    ConcatSplit(q, d);
    ConcatSplit(p, c);
    ConcatSplit(a, b);
    SliceOfSlice(s, 0, |r|, 0, |a|);
    SliceOfSlice(r, 0, |q|, 0, |a|);
    SliceOfSlice(q, 0, |p|, 0, |a|);
    SliceOfSlice(s, 0, |r|, |a|, |p|);
    SliceOfSlice(r, 0, |q|, |a|, |p|);
    SliceOfSlice(q, 0, |p|, |a|, |p|);
    SliceOfSlice(s, 0, |r|, |p|, |q|);
    SliceOfSlice(r, 0, |q|, |p|, |q|);
    SliceOfSlice(s, 0, |r|, |q|, |r|);
  }

  /** A prefix one longer is the prefix with the next element appended. */
  lemma PrefixStep<T>(s: seq<T>, i: nat)
    requires i < |s|
    ensures s[..i + 1] == s[..i] + [s[i]]
  {
  }

  /** A sequence is rebuilt from its two sides of any cut. */
  lemma SliceJoin<T>(s: seq<T>, i: nat)
    requires i <= |s|
    ensures s == s[..i] + s[i..]
  {
  }

  /** Concatenation is associative; stated once so that loops appending to a list need not rediscover it. */
  lemma AppendAssoc<T>(a: seq<T>, b: seq<T>, c: seq<T>)
    ensures (a + b) + c == a + (b + c)
  {
  }

  /** Python's `t in s`. */
  predicate Contains(s: string, t: string)
    requires |t| > 0
  {
    Find(s, t, 0) >= 0
  }

  /** `t` placed between `a` and `b`, after a prefix `p`, occurs at `|p| + |a|`. */
  lemma OccursInside(p: string, a: string, t: string, b: string)
    ensures OccursAt(p + (a + t + b), t, |p| + |a|)
  {
    ConcatParts(p, a, t, b, []);
    assert p + (a + t + b) == p + a + t + b + [];
  }

  /** `t` placed between `a` and `b` occurs in the result, at `|a|`. */
  lemma OccursBetween(a: string, t: string, b: string)
    requires |t| > 0
    ensures OccursAt(a + t + b, t, |a|)
    ensures Contains(a + t + b, t)
  {
    assert (a + t + b)[|a|..|a| + |t|] == t;
    assert OccursAt(a + t + b, t, |a|);
  }

  /** A string with no `t` in it has none in any of its slices either. */
  lemma NotContainsSlice(s: string, t: string, lo: nat, hi: nat)
    requires |t| > 0 && lo <= hi <= |s|
    requires !Contains(s, t)
    ensures !Contains(s[lo..hi], t)
  {
    if Contains(s[lo..hi], t) {
      var i := Find(s[lo..hi], t, 0) as nat;
      SliceOfSlice(s, lo, hi, i, i + |t|);
      assert OccursAt(s, t, lo + i);
      assert false;
    }
  }

  /** Python's `s.count(t)` from index `from`: non-overlapping occurrences. */
  function Count(s: string, t: string, from: nat): nat
    requires |t| > 0
    decreases |s| - from
  {
    if |s| < from + |t| then 0
    else if OccursAt(s, t, from) then 1 + Count(s, t, from + |t|)
    else Count(s, t, from + 1)
  }

  /** Python's `s.startswith(p)`. */
  predicate StartsWith(s: string, p: string)
  {
    |p| <= |s| && s[..|p|] == p
  }

  /** Python's `s.endswith(".")`. */
  predicate EndsWithDot(s: string)
  {
    |s| > 0 && s[|s| - 1] == '.'
  }

  // ---------------------------------------------------------------------
  // Cutting and gluing
  // ---------------------------------------------------------------------

  /** Python's `s.split(sep)` for a non-empty separator. */
  function Split(s: string, sep: string): (parts: seq<string>)
    requires |sep| > 0
    decreases |s|
    ensures |parts| >= 1
  {
    var i := Find(s, sep, 0);
    if i < 0 then [s] else [s[..i]] + Split(s[i + |sep|..], sep)
  }

  /** Python's `sep.join(parts)`. */
  function Join(parts: seq<string>, sep: string): string
  {
    if |parts| == 0 then ""
    else if |parts| == 1 then parts[0]
    else parts[0] + sep + Join(parts[1..], sep)
  }

  /**
   * `s.split(sep)[0]`: the prefix of `s` that stops where the first `sep`
   * begins, or all of `s` when `sep` does not occur. No `sep` begins inside
   * it, though one may begin there and run past its end.
   */
  lemma SplitHead(s: string, sep: string)
    requires |sep| > 0
    ensures var h := Split(s, sep)[0];
      && |h| <= |s| && h == s[..|h|] && !Contains(h, sep)
      && (forall i: nat :: i < |h| ==> !OccursAt(s, sep, i))
      && (|h| == |s| || OccursAt(s, sep, |h|))
  {
    var i := Find(s, sep, 0);
    if i >= 0 {
      var h := s[..i];
      assert Split(s, sep)[0] == h;
      if Contains(h, sep) {
        var k := Find(h, sep, 0) as nat;
        SliceOfSlice(s, 0, i, k, k + |sep|);
        assert OccursAt(s, sep, k);
      }
    }
  }

  /** `s.split(sep)[1]` exists exactly when `sep` occurs, and is the head of what follows the first one. */
  lemma SplitSecond(s: string, sep: string)
    requires |sep| > 0
    ensures |Split(s, sep)| >= 2 <==> Contains(s, sep)
    ensures Contains(s, sep) ==> Split(s, sep)[1] == Split(s[Find(s, sep, 0) + |sep|..], sep)[0]
  {
  }

  /** The first occurrence of `c` in `a + [c] + b` is at `|a|` when `a` has no `c`. */
  lemma FindAfterLine(a: string, c: char, b: string)
    requires c !in a
    ensures Find(a + [c] + b, [c], 0) == |a|
  {
    var x := a + [c] + b;
    assert x[|a|..|a| + 1] == [c];
    assert OccursAt(x, [c], |a|);
    forall i: nat | i < |a|
      ensures !OccursAt(x, [c], i)
    {
      assert x[i..i + 1] == [a[i]];
    }
  }

  /** A text without the separator splits into itself alone. */
  lemma SplitNoSeparator(x: string, c: char)
    requires c !in x
    ensures Split(x, [c]) == [x]
  {
    forall i: nat | i < |x|
      ensures !OccursAt(x, [c], i)
    {
      assert x[i..i + 1] == [x[i]];
    }
  }

  /** Splitting at the first separator: the line before it, then the split of the rest. */
  lemma SplitAfterLine(a: string, c: char, b: string)
    requires c !in a
    ensures Split(a + [c] + b, [c]) == [a] + Split(b, [c])
  {
    var x := a + [c] + b;
    FindAfterLine(a, c, b);
    assert x[..|a|] == a;
    assert x[|a| + 1..] == b;
  }

  /** Splitting lines joined by a character none of them contains gives the lines back. */
  lemma {:induction false} SplitJoin(lines: seq<string>, c: char)
    requires |lines| > 0
    requires forall k :: 0 <= k < |lines| ==> c !in lines[k]
    ensures Split(Join(lines, [c]), [c]) == lines
  {
    if |lines| == 1 {
      SplitNoSeparator(lines[0], c);
    } else {
      var rest := Join(lines[1..], [c]);
      assert Join(lines, [c]) == lines[0] + [c] + rest;
      SplitAfterLine(lines[0], c, rest);
      SplitJoin(lines[1..], c);
      assert lines == [lines[0]] + lines[1..];
    }
  }

  /** Python's `s.rstrip(".")`. */
  function RStripDots(s: string): (r: string)
    ensures |r| <= |s| && r == s[..|r|]
    ensures forall i :: |r| <= i < |s| ==> s[i] == '.'
    ensures !EndsWithDot(r)
  {
    if EndsWithDot(s) then RStripDots(s[..|s| - 1]) else s
  }

  /** `n` dots. */
  function Dots(n: nat): (r: string)
    ensures |r| == n && forall i :: 0 <= i < n ==> r[i] == '.'
  {
    if n == 0 then [] else Dots(n - 1) + "."
  }

  /** However many dots are added at the end, `rstrip(".")` removes them all. */
  lemma {:induction false} RStripDotsDots(f: string, n: nat)
    ensures RStripDots(f + Dots(n)) == RStripDots(f)
  {
    if n == 0 {
      assert f + Dots(0) == f;
    } else {
      var g := f + Dots(n - 1);
      assert f + Dots(n) == g + ".";
      assert EndsWithDot(g + ".") && (g + ".")[..|g|] == g;
      RStripDotsDots(f, n - 1);
    }
  }

  /** Python's `p if p.endswith(".") else p + "."`. */
  function WithFinalDot(p: string): string
  {
    if EndsWithDot(p) then p else p + "."
  }

  /** The line always ends in `.`; a text already ending in `.` is written unchanged. */
  lemma WithFinalDotShape(p: string)
    ensures EndsWithDot(WithFinalDot(p))
    ensures EndsWithDot(p) ==> WithFinalDot(p) == p
    ensures !EndsWithDot(p) ==> WithFinalDot(p) == p + "."
  {
  }

  /** Each premise, in order, with a final `.` added where it has none. */
  function DottedAll(premises: seq<string>): (r: seq<string>)
    ensures |r| == |premises|
    ensures forall i :: 0 <= i < |r| ==> r[i] == WithFinalDot(premises[i])
  {
    if |premises| == 0 then []
    else DottedAll(premises[..|premises| - 1]) + [WithFinalDot(premises[|premises| - 1])]
  }

  /** No line of `lines` holds a newline of its own. */
  predicate NewlineFree(lines: seq<string>)
  {
    forall k :: 0 <= k < |lines| ==> '\n' !in lines[k]
  }

  lemma NewlineFreeConcat(a: seq<string>, b: seq<string>)
    requires NewlineFree(a) && NewlineFree(b)
    ensures NewlineFree(a + b)
  {
    var c := a + b;
    forall k | 0 <= k < |c|
      ensures '\n' !in c[k]
    {
      if k >= |a| {
        assert c[k] == b[k - |a|];
      }
    }
  }

  lemma DottedNoNewline(premises: seq<string>)
    requires forall i :: 0 <= i < |premises| ==> '\n' !in premises[i]
    ensures NewlineFree(DottedAll(premises))
  {
    var dotted := DottedAll(premises);
    forall i | 0 <= i < |premises|
      ensures '\n' !in dotted[i]
    {
      assert dotted[i] == premises[i] || dotted[i] == premises[i] + ".";
    }
  }

  /** Index of the first non-space character at or after `j`, or `|s|`. */
  function SkipSpace(s: string, j: nat): (k: nat)
    requires j <= |s|
    decreases |s| - j
    ensures j <= k <= |s|
    ensures forall i :: j <= i < k ==> IsSpace(s[i])
    ensures k == |s| || !IsSpace(s[k])
  {
    if j < |s| && IsSpace(s[j]) then SkipSpace(s, j + 1) else j
  }

  /** Index where the run of spaces ending at `k` starts. */
  function SpaceStart(s: string, k: nat): (j: nat)
    requires k <= |s|
    ensures j <= k
    ensures forall i :: j <= i < k ==> IsSpace(s[i])
    ensures j == 0 || !IsSpace(s[j - 1])
  {
    if k > 0 && IsSpace(s[k - 1]) then SpaceStart(s, k - 1) else k
  }

  /** Python's `s.lstrip()`. */
  function LStrip(s: string): string
  {
    s[SkipSpace(s, 0)..]
  }

  /** Python's `s.rstrip()`. */
  function RStrip(s: string): string
  {
    s[..SpaceStart(s, |s|)]
  }

  /** Python's `s.strip()`. */
  function Strip(s: string): string
  {
    RStrip(LStrip(s))
  }

  /** A text that starts and ends with non-space characters is its own strip. */
  lemma StripUntrimmed(s: string)
    requires |s| > 0 && !IsSpace(s[0]) && !IsSpace(s[|s| - 1])
    ensures Strip(s) == s
  {
  }

  /** Index where the run of non-space characters ending at `k` starts. */
  function WordStart(t: string, k: nat): (j: nat)
    requires k <= |t|
    ensures j <= k
    ensures forall i :: j <= i < k ==> !IsSpace(t[i])
    ensures j == 0 || IsSpace(t[j - 1])
  {
    if k > 0 && !IsSpace(t[k - 1]) then WordStart(t, k - 1) else k
  }

  /** Python's `s.split()[-1]`, or None where the split is empty. */
  function LastWord(s: string): (r: Option<string>)
  {
    var t := RStrip(s);
    if |t| == 0 then None else Some(t[WordStart(t, |t|)..])
  }

  /** ASCII `c.lower()`. */
  function LowerChar(c: char): (r: char)
  {
    if IsUpper(c) then (c as int + 32) as char else c
  }

  /** Python's `s.lower()` on ASCII letters. */
  function Lower(s: string): (r: string)
  {
    if |s| == 0 then "" else [LowerChar(s[0])] + Lower(s[1..])
  }

  /** Lowering leaves no upper-case letter, so lowering twice is lowering once. */
  lemma {:induction false} LowerIdempotent(s: string)
    ensures forall i :: 0 <= i < |Lower(s)| ==> !IsUpper(Lower(s)[i])
    ensures Lower(Lower(s)) == Lower(s)
  {
    if |s| > 0 {
      LowerIdempotent(s[1..]);
      assert Lower(s)[1..] == Lower(s[1..]);
    }
  }

  // ---------------------------------------------------------------------
  // Integers and their decimal text
  // ---------------------------------------------------------------------

  function DigitChar(d: nat): (c: char)
    requires d < 10
  {
    ('0' as int + d) as char
  }

  /** Python's `str(n)` for `n >= 0`. */
  function NatToString(n: nat): (r: string)
    decreases n
    ensures |r| > 0
    ensures forall i :: 0 <= i < |r| ==> IsDigit(r[i])
  {
    if n < 10 then [DigitChar(n)] else NatToString(n / 10) + [DigitChar(n % 10)]
  }

  /** Python's `str(i)`. */
  function IntToString(i: int): string
  {
    if i < 0 then "-" + NatToString(-i) else NatToString(i)
  }

  /** The value of a text read as decimal digits. */
  function DigitsValue(s: string): int
  {
    if |s| == 0 then 0 else 10 * DigitsValue(s[..|s| - 1]) + (s[|s| - 1] as int - '0' as int)
  }

  function RemoveUnderscores(s: string): string
  {
    if |s| == 0 then "" else (if s[0] == '_' then "" else [s[0]]) + RemoveUnderscores(s[1..])
  }

  /** `s[i]` is a digit, or a single `_` with a digit on each side. */
  predicate DigitOrSeparator(s: string, i: nat)
    requires i < |s|
  {
    IsDigit(s[i]) || (s[i] == '_' && 0 < i < |s| - 1 && IsDigit(s[i - 1]) && IsDigit(s[i + 1]))
  }

  /** Digits, where a single `_` may separate two digits (as Python's `int` allows). */
  predicate IsDigitGroups(s: string)
  {
    |s| > 0 && forall i :: 0 <= i < |s| ==> DigitOrSeparator(s, i)
  }

  /** Python's `int(token)` for a token without surrounding whitespace; None where `int` raises. */
  function ParseInt(s: string): (r: Option<int>)
  {
    if |s| > 0 && (s[0] == '+' || s[0] == '-') then
      if IsDigitGroups(s[1..]) then
        var v := DigitsValue(RemoveUnderscores(s[1..]));
        Some(if s[0] == '-' then -v else v)
      else None
    else if IsDigitGroups(s) then Some(DigitsValue(RemoveUnderscores(s)))
    else None
  }

  lemma {:induction false} NatToStringValue(n: nat)
    decreases n
    ensures DigitsValue(NatToString(n)) == n
  {
    if n >= 10 {
      var a := NatToString(n / 10);
      NatToStringValue(n / 10);
      assert (a + [DigitChar(n % 10)])[..|a|] == a;
    }
  }

  lemma {:induction false} RemoveUnderscoresNone(s: string)
    requires forall i :: 0 <= i < |s| ==> s[i] != '_'
    ensures RemoveUnderscores(s) == s
  {
    if |s| > 0 {
      RemoveUnderscoresNone(s[1..]);
    }
  }

  /** A run of digits reads back as its value. */
  lemma ParseDigits(d: string)
    requires |d| > 0 && forall i :: 0 <= i < |d| ==> IsDigit(d[i])
    ensures ParseInt(d) == Some(DigitsValue(d))
  {
    RemoveUnderscoresNone(d);
    assert IsDigitGroups(d);
  }

  /** A minus sign followed by a run of digits reads back as the negated value of the digits. */
  lemma ParseNegatedDigits(t: string)
    requires |t| > 1 && t[0] == '-' && forall i :: 1 <= i < |t| ==> IsDigit(t[i])
    ensures ParseInt(t) == Some(-DigitsValue(t[1..]))
  {
    var d := t[1..];
    assert forall i :: 0 <= i < |d| ==> IsDigit(d[i]) by {
      assert forall i :: 0 <= i < |d| ==> d[i] == t[i + 1];
    }
    RemoveUnderscoresNone(d);
    assert IsDigitGroups(d);
  }

  /** Reading back the decimal text of an integer gives the integer. */
  lemma ParseIntToString(i: int)
    ensures ParseInt(IntToString(i)) == Some(i)
  {
    var n: nat := if i < 0 then -i else i;
    var d := NatToString(n);
    NatToStringValue(n);
    if i < 0 {
      var t := IntToString(i);
      assert t[1..] == d;
      ParseNegatedDigits(t);
    } else {
      ParseDigits(d);
    }
  }

  /** Distinct numbers have distinct decimal texts. */
  lemma NatToStringInjective(a: nat, b: nat)
    requires NatToString(a) == NatToString(b)
    ensures a == b
  {
    NatToStringValue(a);
    NatToStringValue(b);
  }
}
