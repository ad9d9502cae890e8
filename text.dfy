/**
 * Python string operations the scraper relies on: `str.strip()`, `str.split(sep)`,
 * code-point ordering of strings (`<` on `str`, and hence `sorted`), decimal
 * rendering of integers and `%0Nd` zero padding.
 */
module Text {

  // ---------------------------------------------------------------------------
  // Whitespace and str.strip()
  // ---------------------------------------------------------------------------

  /** The characters Python's `str.isspace()` accepts; `str.strip()` removes exactly these. */
  predicate IsSpace(c: char) {
    var n := c as int;
    n == 0x20 || 0x09 <= n <= 0x0d || 0x1c <= n <= 0x1f || n == 0x85 || n == 0xa0
    || n == 0x1680 || 0x2000 <= n <= 0x200a || n == 0x2028 || n == 0x2029
    || n == 0x202f || n == 0x205f || n == 0x3000
  }

  /** Number of whitespace characters at the front of `s`. */
  function LeadingSpaces(s: string): (n: nat)
    ensures n <= |s|
    ensures forall k :: 0 <= k < n ==> IsSpace(s[k])
    ensures n < |s| ==> !IsSpace(s[n])
  {
    if s == [] || !IsSpace(s[0]) then 0 else 1 + LeadingSpaces(s[1..])
  }

  /** Number of whitespace characters at the back of `s`. */
  function TrailingSpaces(s: string): (n: nat)
    ensures n <= |s|
    ensures forall k :: |s| - n <= k < |s| ==> IsSpace(s[k])
    ensures n < |s| ==> !IsSpace(s[|s| - n - 1])
  {
    if s == [] || !IsSpace(s[|s| - 1]) then 0 else 1 + TrailingSpaces(s[..|s| - 1])
  }

  /** True when `s` neither starts nor ends with whitespace. */
  predicate IsStripped(s: string) {
    s == [] || (!IsSpace(s[0]) && !IsSpace(s[|s| - 1]))
  }

  /**
   * Python's `s.strip()`: `s` with its leading and trailing whitespace removed.
   * The result is the slice of `s` between the first and the last non-space
   * character, and everything cut off on either side is whitespace.
   */
  function Strip(s: string): (r: string)
    ensures IsStripped(r)
    ensures |r| <= |s|
    ensures LeadingSpaces(s) + |r| <= |s|
    ensures r == s[LeadingSpaces(s)..LeadingSpaces(s) + |r|]
    ensures forall k :: LeadingSpaces(s) + |r| <= k < |s| ==> IsSpace(s[k])
  {
    var a := LeadingSpaces(s);
    if a == |s| then
      var r: string := [];
      assert r == s[a..a + |r|];
      r
    else
      var t := TrailingSpaces(s);
      assert !IsSpace(s[a]);
      assert t < |s| - a;
      var r := s[a..|s| - t];
      assert r[|r| - 1] == s[|s| - t - 1];
      assert r == s[a..a + |r|];
      assert forall k :: a + |r| <= k < |s| ==> IsSpace(s[k]);
      r
  }

  /** Stripping text that has no surrounding whitespace changes nothing. */
  lemma StripStripped(s: string)
    requires IsStripped(s)
    ensures Strip(s) == s
  {
    if s != [] {
      assert LeadingSpaces(s) == 0;
      assert TrailingSpaces(s) == 0;
    }
  }

  /** Whitespace around a stripped text is what `Strip` removes. */
  lemma {:induction false} StripPadded(pre: string, s: string, post: string)
    requires forall k :: 0 <= k < |pre| ==> IsSpace(pre[k])
    requires forall k :: 0 <= k < |post| ==> IsSpace(post[k])
    requires IsStripped(s) && s != []
    ensures Strip(pre + s + post) == s
  {
    var w := pre + s + post;
    LeadingOf(pre, s + post);
    assert pre + (s + post) == w;
    TrailingOf(pre + s, post);
    assert (pre + s) + post == w;
    assert w[|pre|..|w| - |post|] == s;
  }

  lemma {:induction false} LeadingOf(pre: string, rest: string)
    requires forall k :: 0 <= k < |pre| ==> IsSpace(pre[k])
    requires rest != [] && !IsSpace(rest[0])
    ensures LeadingSpaces(pre + rest) == |pre|
  {
    if pre != [] {
      assert (pre + rest)[1..] == pre[1..] + rest;
      LeadingOf(pre[1..], rest);
    }
  }

  lemma {:induction false} TrailingOf(front: string, post: string)
    requires forall k :: 0 <= k < |post| ==> IsSpace(post[k])
    requires front != [] && !IsSpace(front[|front| - 1])
    ensures TrailingSpaces(front + post) == |post|
  {
    if post != [] {
      var w := front + post;
      assert w[..|w| - 1] == front + post[..|post| - 1];
      TrailingOf(front, post[..|post| - 1]);
    }
  }

  // ---------------------------------------------------------------------------
  // str.split(sep) and its inverse sep.join(parts)
  // ---------------------------------------------------------------------------

  /** `sep` occurs in `s` starting at index `i`. */
  predicate OccursAt(s: string, sep: string, i: nat) {
    i + |sep| <= |s| && s[i..i + |sep|] == sep
  }

  /** `sep` occurs somewhere in `s`. */
  predicate Contains(s: string, sep: string) {
    exists i: nat | i <= |s| :: OccursAt(s, sep, i)
  }

  /**
   * Python's `s.split(sep)` for a non-empty separator: the separator is searched
   * left to right, each occurrence cuts, and the pieces between are returned
   * (so there is always at least one piece).
   */
  function Split(s: string, sep: string): (parts: seq<string>)
    requires sep != []
    ensures |parts| >= 1
    decreases |s|
  {
    if |s| < |sep| then [s]
    else if s[..|sep|] == sep then [[]] + Split(s[|sep|..], sep)
    else
      var rest := Split(s[1..], sep);
      [[s[0]] + rest[0]] + rest[1..]
  }

  /** Python's `sep.join(parts)`. */
  function Join(parts: seq<string>, sep: string): string
    requires |parts| >= 1
  {
    if |parts| == 1 then parts[0] else parts[0] + sep + Join(parts[1..], sep)
  }

  /** Joining the pieces of a split with the same separator gives back the text. */
  lemma {:induction false} JoinSplit(s: string, sep: string)
    requires sep != []
    ensures Join(Split(s, sep), sep) == s
    decreases |s|
  {
    if |s| < |sep| {
    } else if s[..|sep|] == sep {
      JoinSplit(s[|sep|..], sep);
      var rest := Split(s[|sep|..], sep);
      assert ([[]] + rest)[1..] == rest;
      assert s == [] + sep + s[|sep|..];
    } else {
      JoinSplit(s[1..], sep);
      var rest := Split(s[1..], sep);
      var parts := [[s[0]] + rest[0]] + rest[1..];
      assert parts[1..] == rest[1..];
      if |rest| == 1 {
        assert s == [s[0]] + s[1..];
      } else {
        assert Join(rest, sep) == rest[0] + sep + Join(rest[1..], sep);
        assert s == [s[0]] + s[1..];
      }
    }
  }

  /** Splitting on a single character leaves no piece containing that character. */
  lemma {:induction false} SplitPiecesFree(s: string, c: char)
    ensures forall i :: 0 <= i < |Split(s, [c])| ==> c !in Split(s, [c])[i]
    decreases |s|
  {
    if |s| >= 1 && s[0] != c {
      SplitPiecesFree(s[1..], c);
    } else if |s| >= 1 {
      SplitPiecesFree(s[1..], c);
      assert s[..1] == [c];
    }
  }

  /** A text without the separator splits into itself alone. */
  lemma {:induction false} SplitAbsent(s: string, c: char)
    requires c !in s
    ensures Split(s, [c]) == [s]
    decreases |s|
  {
    if |s| >= 1 {
      assert s[..1] != [c] by { assert s[0] != c; }
      assert c !in s[1..];
      SplitAbsent(s[1..], c);
      assert [s[0]] + s[1..] == s;
    }
  }

  /** A text that does not contain a (possibly longer) separator splits into itself alone. */
  lemma {:induction false} SplitWithout(s: string, sep: string)
    requires sep != [] && !Contains(s, sep)
    ensures Split(s, sep) == [s]
    decreases |s|
  {
    if |s| >= |sep| {
      assert !OccursAt(s, sep, 0);
      assert !Contains(s[1..], sep) by {
        forall i: nat | i <= |s[1..]| ensures !OccursAt(s[1..], sep, i) {
          if OccursAt(s[1..], sep, i) {
            assert s[i + 1..i + 1 + |sep|] == s[1..][i..i + |sep|];
            assert OccursAt(s, sep, i + 1);
          }
        }
      }
      SplitWithout(s[1..], sep);
      assert [s[0]] + s[1..] == s;
    }
  }

  /** A text that starts with the separator splits into an empty piece, then the rest's pieces. */
  lemma SplitLeading(sep: string, s: string)
    requires sep != []
    ensures Split(sep + s, sep) == [[]] + Split(s, sep)
  {
    assert (sep + s)[..|sep|] == sep;
    assert (sep + s)[|sep|..] == s;
  }

  /** Splitting `a + [c] + b` where `a` is free of `c` cuts exactly after `a`. */
  lemma {:induction false} SplitAt(a: string, c: char, b: string)
    requires c !in a
    ensures Split(a + [c] + b, [c]) == [a] + Split(b, [c])
    decreases |a|
  {
    var s := a + [c] + b;
    if a == [] {
      assert s[..1] == [c];
      assert s[1..] == b;
    } else {
      assert s[..1] != [c] by { assert s[0] == a[0] != c; }
      assert s[1..] == a[1..] + [c] + b;
      SplitAt(a[1..], c, b);
      assert [a[0]] + a[1..] == a;
    }
  }

  // ---------------------------------------------------------------------------
  // Python string ordering (code point by code point; a proper prefix is smaller)
  // ---------------------------------------------------------------------------

  /** Python's `a < b` on `str`. */
  predicate LexLess(a: string, b: string) {
    if a == [] then b != []
    else if b == [] then false
    else if a[0] != b[0] then a[0] < b[0]
    else LexLess(a[1..], b[1..])
  }

  /** Python's `a <= b` on `str`. */
  predicate LexLe(a: string, b: string) {
    a == b || LexLess(a, b)
  }

  lemma {:induction false} LexLessIrreflexive(a: string)
    ensures !LexLess(a, a)
  {
    if a != [] { LexLessIrreflexive(a[1..]); }
  }

  lemma {:induction false} LexLessTransitive(a: string, b: string, c: string)
    requires LexLess(a, b) && LexLess(b, c)
    ensures LexLess(a, c)
  {
    if a != [] && b != [] && c != [] && a[0] == b[0] && b[0] == c[0] {
      LexLessTransitive(a[1..], b[1..], c[1..]);
    }
  }

  /** Any two different strings are ordered one way or the other. */
  lemma {:induction false} LexLessTotal(a: string, b: string)
    requires a != b
    ensures LexLess(a, b) || LexLess(b, a)
  {
    if a != [] && b != [] && a[0] == b[0] {
      assert a == [a[0]] + a[1..] && b == [b[0]] + b[1..];
      LexLessTotal(a[1..], b[1..]);
    }
  }

  lemma {:induction false} LexLessAsymmetric(a: string, b: string)
    requires LexLess(a, b)
    ensures !LexLess(b, a)
  {
    if LexLess(b, a) {
      LexLessTransitive(a, b, a);
      LexLessIrreflexive(a);
    }
  }

  /** Comparing texts with a common first block comes down to the rest. */
  lemma {:induction false} LexLessCommonPrefix(p: string, a: string, b: string)
    ensures LexLess(p + a, p + b) == LexLess(a, b)
  {
    if p != [] {
      assert (p + a)[0] == p[0] == (p + b)[0];
      assert (p + a)[1..] == p[1..] + a;
      assert (p + b)[1..] == p[1..] + b;
      assert LexLess(p + a, p + b) == LexLess(p[1..] + a, p[1..] + b);
      LexLessCommonPrefix(p[1..], a, b);
    } else {
      assert p + a == a && p + b == b;
    }
  }

  /** Between blocks of equal length, the first differing block decides. */
  lemma {:induction false} LexLessBlocks(a: string, x: string, b: string, y: string)
    requires |a| == |b| && a != b
    ensures LexLess(a + x, b + y) == LexLess(a, b)
  {
    assert a != [] && b != [];
    assert (a + x)[1..] == a[1..] + x;
    assert (b + y)[1..] == b[1..] + y;
    if a[0] == b[0] {
      assert a == [a[0]] + a[1..] && b == [b[0]] + b[1..];
      LexLessBlocks(a[1..], x, b[1..], y);
    }
  }

  // ---------------------------------------------------------------------------
  // Decimal digits: str(n) and "%0*d" padding
  // ---------------------------------------------------------------------------

  predicate IsDigit(c: char) { '0' <= c <= '9' }

  predicate AllDigits(s: string) {
    forall k :: 0 <= k < |s| ==> IsDigit(s[k])
  }

  function DigitChar(d: nat): (c: char)
    requires d < 10
    ensures IsDigit(c) && c as int - '0' as int == d
  {
    ('0' as int + d) as char
  }

  /** The number a string of decimal digits denotes. */
  function DigitsValue(s: string): nat
    requires AllDigits(s)
  {
    if s == [] then 0 else DigitsValue(s[..|s| - 1]) * 10 + (s[|s| - 1] as int - '0' as int)
  }

  /** Python's `str(n)` for `n >= 0`: decimal digits, no leading zero. */
  function Digits(n: nat): (s: string)
    ensures AllDigits(s) && |s| >= 1
    ensures |s| > 1 ==> s[0] != '0'
    ensures DigitsValue(s) == n
  {
    if n < 10 then [DigitChar(n)]
    else
      var front := Digits(n / 10);
      var s := front + [DigitChar(n % 10)];
      assert s[..|s| - 1] == front;
      s
  }

  /** Python's `str(i)` for any integer. */
  function IntToString(i: int): (s: string)
    ensures i >= 0 ==> s == Digits(i)
    ensures i < 0 ==> s == "-" + Digits(-i)
  {
    if i < 0 then "-" + Digits(-i) else Digits(i)
  }

  function Zeros(k: nat): (z: string)
    ensures |z| == k && AllDigits(z) && DigitsValue(z) == 0
    ensures forall j :: 0 <= j < k ==> z[j] == '0'
  {
    if k == 0 then [] else
      var z := Zeros(k - 1) + ['0'];
      assert z[..|z| - 1] == Zeros(k - 1);
      z
  }

  /** Leading zeros do not change the value of a digit string. */
  lemma {:induction false} LeadingZerosValue(z: string, s: string)
    requires AllDigits(z) && AllDigits(s) && DigitsValue(z) == 0
    ensures AllDigits(z + s) && DigitsValue(z + s) == DigitsValue(s)
    decreases |s|
  {
    if s == [] {
      assert z + s == z;
    } else {
      var w := z + s;
      assert w[..|w| - 1] == z + s[..|s| - 1];
      LeadingZerosValue(z, s[..|s| - 1]);
    }
  }

  /** The digits of `n`, zero-padded on the left to at least `width` characters. */
  function ZeroPad(n: nat, width: nat): (s: string)
    ensures AllDigits(s) && DigitsValue(s) == n
    ensures |s| == if |Digits(n)| >= width then |Digits(n)| else width
  {
    var d := Digits(n);
    var z := Zeros(if |d| >= width then 0 else width - |d|);
    LeadingZerosValue(z, d);
    z + d
  }

  /**
   * Python's `f"{i:0{width}d}"`: the sign comes first and counts towards the
   * width, the zeros go between the sign and the digits.
   */
  function FormatZeroPadded(i: int, width: nat): (s: string)
    ensures i >= 0 ==> s == ZeroPad(i, width)
    ensures i < 0 ==> s == "-" + ZeroPad(-i, if width >= 1 then width - 1 else 0)
  {
    if i < 0 then "-" + ZeroPad(-i, if width >= 1 then width - 1 else 0) else ZeroPad(i, width)
  }

  /** `n` has at most `w` digits exactly when it is below 10^w. */
  function Pow10(w: nat): (p: nat)
    ensures p >= 1
  {
    if w == 0 then 1 else 10 * Pow10(w - 1)
  }

  lemma {:induction false} DigitsValueBound(s: string)
    requires AllDigits(s)
    ensures DigitsValue(s) < Pow10(|s|)
  {
    if s != [] { DigitsValueBound(s[..|s| - 1]); }
  }

  /** A string of `|s|` digits denotes the number its first digit and its tail make up. */
  lemma {:induction false} DigitsValueFront(s: string)
    requires AllDigits(s) && s != []
    ensures DigitsValue(s) == (s[0] as int - '0' as int) * Pow10(|s| - 1) + DigitsValue(s[1..])
  {
    if |s| > 1 {
      var t := s[..|s| - 1];
      var last := s[|s| - 1] as int - '0' as int;
      var d0 := s[0] as int - '0' as int;
      DigitsValueFront(t);
      assert t[1..] == s[1..][..|s| - 2];
      assert s[1..][|s| - 2] == s[|s| - 1];
      assert DigitsValue(s[1..]) == DigitsValue(t[1..]) * 10 + last;
      assert DigitsValue(t) == d0 * Pow10(|s| - 2) + DigitsValue(t[1..]);
      assert DigitsValue(s) == DigitsValue(t) * 10 + last;
      ShiftDigit(d0, Pow10(|s| - 2), DigitsValue(t[1..]), last);
    }
  }

  lemma ShiftDigit(d: int, p: int, rest: int, last: int)
    ensures (d * p + rest) * 10 + last == d * (10 * p) + (rest * 10 + last)
  {
  }

  /**
   * For digit strings of the same length, string order is numeric order: this is
   * why zero-padded page numbers and ISO dates sort correctly as text.
   */
  lemma {:induction false} DigitOrder(a: string, b: string)
    requires AllDigits(a) && AllDigits(b) && |a| == |b|
    ensures LexLess(a, b) <==> DigitsValue(a) < DigitsValue(b)
  {
    if a != [] {
      DigitsValueFront(a);
      DigitsValueFront(b);
      DigitsValueBound(a[1..]);
      DigitsValueBound(b[1..]);
      var p := Pow10(|a| - 1);
      var da := a[0] as int - '0' as int;
      var db := b[0] as int - '0' as int;
      if a[0] == b[0] {
        DigitOrder(a[1..], b[1..]);
      } else if a[0] < b[0] {
        LeadingDigitDecides(da, db, p, DigitsValue(a[1..]), DigitsValue(b[1..]));
      } else {
        LeadingDigitDecides(db, da, p, DigitsValue(b[1..]), DigitsValue(a[1..]));
      }
    }
  }

  lemma LeadingDigitDecides(da: nat, db: nat, p: nat, x: nat, y: nat)
    requires da < db && x < p
    ensures da * p + x < db * p + y
  {
    assert (da + 1) * p <= db * p;
  }

  /** Zero-padding to a width that fits both numbers makes text order numeric order. */
  lemma ZeroPadOrder(m: nat, n: nat, width: nat)
    requires width >= 1
    requires m < Pow10(width) && n < Pow10(width)
    ensures |ZeroPad(m, width)| == width && |ZeroPad(n, width)| == width
    ensures LexLess(ZeroPad(m, width), ZeroPad(n, width)) <==> m < n
  {
    ZeroPadWidth(m, width);
    ZeroPadWidth(n, width);
    DigitOrder(ZeroPad(m, width), ZeroPad(n, width));
  }

  /** A number below 10^width is padded to exactly `width` characters. */
  lemma ZeroPadWidth(n: nat, width: nat)
    requires width >= 1
    requires n < Pow10(width)
    ensures |ZeroPad(n, width)| == width
  {
    var d := Digits(n);
    if |d| > width {
      DigitsValueFront(d);
      PowMonotone(width, |d| - 1);
      var d0 := d[0] as int - '0' as int;
      assert d0 >= 1;
      AtLeastPower(d0, Pow10(|d| - 1), DigitsValue(d[1..]));
      assert false;
    }
  }

  lemma AtLeastPower(d: nat, p: nat, rest: nat)
    requires d >= 1
    ensures d * p + rest >= p
  {
  }

  lemma {:induction false} PowMonotone(i: nat, j: nat)
    requires i <= j
    ensures Pow10(i) <= Pow10(j)
  {
    if i < j { PowMonotone(i, j - 1); }
  }
}
