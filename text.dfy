/**
 * Small string helpers shared by the server-side and browser-side models:
 * digit extraction (JavaScript's `replace(/\D/g, '')`), whitespace trimming
 * (`String.prototype.trim`), and decimal rendering of integers (`String(n)`,
 * Python's `str(n)`), each with the property that makes it trustworthy.
 */
module Text {

  datatype Option<+T> = None | Some(value: T)

  predicate IsDigit(c: char) { '0' <= c <= '9' }

  /**
   * The characters JavaScript's `\s` and `trim()` treat as white space:
   * the WhiteSpace and LineTerminator code points of ECMAScript (sections
   * 12.2 and 12.3 of ECMA-262), the Unicode space separators included.
   */
  predicate IsSpace(c: char) {
    c == ' ' || c == '\t' || c == '\n' || c == '\r' || c == '\U{B}' || c == '\U{C}' ||
    c == '\U{A0}' || c == '\U{1680}' || '\U{2000}' <= c <= '\U{200A}' ||
    c == '\U{2028}' || c == '\U{2029}' || c == '\U{202F}' || c == '\U{205F}' || c == '\U{3000}' || c == '\U{FEFF}'
  }

  predicate AllDigits(s: string) { forall i :: 0 <= i < |s| ==> IsDigit(s[i]) }

  /** The digits of `s`, in order: `s.replace(/\D/g, '')`. */
  function Digits(s: string): (d: string)
    ensures AllDigits(d)
    ensures |d| <= |s|
  {
    if s == [] then []
    else if IsDigit(s[0]) then [s[0]] + Digits(s[1..])
    else Digits(s[1..])
  }

  lemma {:induction false} DigitsConcat(a: string, b: string)
    ensures Digits(a + b) == Digits(a) + Digits(b)
  {
    if a == [] {
      assert a + b == b;
    } else {
      assert (a + b)[1..] == a[1..] + b;
      DigitsConcat(a[1..], b);
    }
  }

  /** A string made only of digits is its own digit string. */
  lemma {:induction false} DigitsOfDigits(s: string)
    requires AllDigits(s)
    ensures Digits(s) == s
  {
    if s != [] {
      DigitsOfDigits(s[1..]);
    }
  }

  /** A string with no digit contributes nothing. */
  lemma {:induction false} DigitsOfNonDigits(s: string)
    requires forall i :: 0 <= i < |s| ==> !IsDigit(s[i])
    ensures Digits(s) == []
  {
    if s != [] {
      DigitsOfNonDigits(s[1..]);
    }
  }

  /** `s` with its leading white space removed. */
  function TrimStart(s: string): string {
    if s != [] && IsSpace(s[0]) then TrimStart(s[1..]) else s
  }

  /** `s` with its trailing white space removed. */
  function TrimEnd(s: string): string {
    if s != [] && IsSpace(s[|s| - 1]) then TrimEnd(s[..|s| - 1]) else s
  }

  /** TrimStart keeps a suffix that does not start with white space, and cuts only white space. */
  lemma {:induction false} TrimStartCutsSpace(s: string)
    ensures |TrimStart(s)| <= |s| && TrimStart(s) == s[|s| - |TrimStart(s)|..]
    ensures TrimStart(s) != [] ==> !IsSpace(TrimStart(s)[0])
    ensures forall i :: 0 <= i < |s| - |TrimStart(s)| ==> IsSpace(s[i])
  {
    if s != [] && IsSpace(s[0]) {
      var t := s[1..];
      TrimStartCutsSpace(t);
      assert TrimStart(s) == TrimStart(t);
      assert t[|t| - |TrimStart(t)|..] == s[|s| - |TrimStart(t)|..];
      forall i | 1 <= i < |s| - |TrimStart(s)|
        ensures IsSpace(s[i])
      {
        assert s[i] == t[i - 1];
      }
    }
  }

  /** TrimEnd keeps a prefix that does not end with white space, and cuts only white space. */
  lemma {:induction false} TrimEndCutsSpace(s: string)
    ensures |TrimEnd(s)| <= |s| && TrimEnd(s) == s[..|TrimEnd(s)|]
    ensures TrimEnd(s) != [] ==> !IsSpace(TrimEnd(s)[|TrimEnd(s)| - 1])
    ensures forall i :: |TrimEnd(s)| <= i < |s| ==> IsSpace(s[i])
  {
    if s != [] && IsSpace(s[|s| - 1]) {
      var t := s[..|s| - 1];
      TrimEndCutsSpace(t);
      assert TrimEnd(s) == TrimEnd(t);
      assert t[..|TrimEnd(t)|] == s[..|TrimEnd(t)|];
      forall i | |TrimEnd(s)| <= i < |s| - 1
        ensures IsSpace(s[i])
      {
        assert s[i] == t[i];
      }
    }
  }

  /** `s.trim()`. */
  function Trim(s: string): string {
    TrimStart(TrimEnd(s))
  }

  /**
   * `s.trim()` is the longest slice of `s` that neither starts nor ends with
   * white space: everything cut off on either side is white space.
   */
  lemma TrimIsSlice(s: string)
    ensures exists i, j :: 0 <= i <= j <= |s| && Trim(s) == s[i..j]
    ensures Trim(s) != [] ==> !IsSpace(Trim(s)[0]) && !IsSpace(Trim(s)[|Trim(s)| - 1])
    ensures Trim(s) == [] <==> forall i :: 0 <= i < |s| ==> IsSpace(s[i])
  {
    var e := TrimEnd(s);
    var r := TrimStart(e);
    TrimEndCutsSpace(s);
    TrimStartCutsSpace(e);
    assert r == s[|e| - |r|..|e|];
    if r == [] {
      // TrimEnd leaves a string that is empty or ends in a non-space, which TrimStart cannot empty.
      assert e == [];
    }
  }

  function DigitChar(n: nat): char
    requires n < 10
  {
    ['0', '1', '2', '3', '4', '5', '6', '7', '8', '9'][n]
  }

  function DigitValue(c: char): nat
    requires IsDigit(c)
  {
    (c as int - '0' as int) as nat
  }

  /** `String(n)` for a non-negative integer: its decimal digits, no leading zero. */
  function ShowNat(n: nat): (s: string)
    ensures s != [] && AllDigits(s)
    ensures (n < 10) == (|s| == 1)
    ensures n >= 10 ==> s[0] != '0'
    decreases n
  {
    if n < 10 then [DigitChar(n)] else ShowNat(n / 10) + [DigitChar(n % 10)]
  }

  /** The value of a string of decimal digits (the inverse of `ShowNat`). */
  function ParseNat(s: string): nat
    requires AllDigits(s)
  {
    if s == [] then 0 else 10 * ParseNat(s[..|s| - 1]) + DigitValue(s[|s| - 1])
  }

  lemma {:induction false} ParseShowNat(n: nat)
    ensures ParseNat(ShowNat(n)) == n
    decreases n
  {
    if n >= 10 {
      var s := ShowNat(n);
      assert s[..|s| - 1] == ShowNat(n / 10);
      ParseShowNat(n / 10);
    }
  }

  /** Different numbers are written differently. */
  lemma ShowNatInjective(a: nat, b: nat)
    requires ShowNat(a) == ShowNat(b)
    ensures a == b
  {
    ParseShowNat(a);
    ParseShowNat(b);
  }

  /** Four-digit numbers are written with exactly four characters. */
  lemma ShowNatFourDigits(n: nat)
    requires 1000 <= n <= 9999
    ensures |ShowNat(n)| == 4
  {
    assert |ShowNat(n / 10 / 10 / 10)| == 1;
    assert |ShowNat(n / 10 / 10)| == 2;
    assert |ShowNat(n / 10)| == 3;
  }

  /** `String(i)` for any integer: a minus sign before the digits of a negative one. */
  function ShowInt(i: int): (s: string)
    ensures s != []
    ensures i < 0 <==> s[0] == '-'
  {
    if i < 0 then "-" + ShowNat(-i) else ShowNat(i)
  }

  lemma ShowIntInjective(a: int, b: int)
    requires ShowInt(a) == ShowInt(b)
    ensures a == b
  {
    if a < 0 {
      assert ShowInt(a)[1..] == ShowNat(-a) && ShowInt(b)[1..] == ShowNat(-b);
      ShowNatInjective(-a, -b);
    } else {
      ShowNatInjective(a, b);
    }
  }

  /** `String(n).padStart(2, '0')`. */
  function Pad2(n: nat): (s: string)
    ensures AllDigits(s) && |s| >= 2
    ensures n < 100 ==> |s| == 2 && ParseNat(s) == n
  {
    var d := ShowNat(n);
    ParseShowNat(n);
    if |d| < 2 then
      assert ParseNat("0" + d) == ParseNat(d) by { assert ("0" + d)[..1] == "0"; }
      "0" + d
    else d
  }

  /*** JavaScript string comparison and replacement ***/

  /** JavaScript's `<` on strings: the first differing character decides, and a proper prefix is smaller. */
  function StringLess(a: string, b: string): bool
    decreases |a|
  {
    if b == [] then false
    else if a == [] then true
    else if a[0] != b[0] then a[0] < b[0]
    else StringLess(a[1..], b[1..])
  }

  /** Comparing two strings that start with equally long parts: the parts decide unless they are equal. */
  lemma {:induction false} StringLessAppend(a: string, b: string, c: string, d: string)
    requires |a| == |b|
    ensures StringLess(a + c, b + d) == if a == b then StringLess(c, d) else StringLess(a, b)
    decreases |a|
  {
    if a == [] {
      assert a + c == c && b + d == d;
    } else {
      assert (a + c)[0] == a[0] && (b + d)[0] == b[0];
      assert (a + c)[1..] == a[1..] + c && (b + d)[1..] == b[1..] + d;
      StringLessAppend(a[1..], b[1..], c, d);
      assert a == [a[0]] + a[1..] && b == [b[0]] + b[1..];
    }
  }

  /** For digit strings of one length, the string order is the numeric order, and equal values are equal strings. */
  lemma {:induction false} DigitsOrder(a: string, b: string)
    requires AllDigits(a) && AllDigits(b) && |a| == |b|
    ensures StringLess(a, b) <==> ParseNat(a) < ParseNat(b)
    ensures a == b <==> ParseNat(a) == ParseNat(b)
    decreases |a|
  {
    if a != [] {
      var n := |a| - 1;
      var a', b' := a[..n], b[..n];
      var x, y := a[n], b[n];
      assert a == a' + [x] && b == b' + [y];
      DigitsOrder(a', b');
      StringLessAppend(a', b', [x], [y]);
      assert StringLess([x], [y]) == (x < y);
      var pa, pb := ParseNat(a'), ParseNat(b');
      assert ParseNat(a) == 10 * pa + DigitValue(x);
      assert ParseNat(b) == 10 * pb + DigitValue(y);
      assert DigitValue(x) < 10 && DigitValue(y) < 10;
      if pa < pb {
        assert 10 * pa + 10 <= 10 * pb;
      } else if pb < pa {
        assert 10 * pb + 10 <= 10 * pa;
      }
    }
  }

  /** `s.replace(pat, with)` with a string pattern: only the first occurrence is replaced. */
  function ReplaceFirst(s: string, pat: string, with: string): string
    requires pat != []
    decreases |s|
  {
    if |s| < |pat| then s
    else if s[..|pat|] == pat then with + s[|pat|..]
    else [s[0]] + ReplaceFirst(s[1..], pat, with)
  }

  /** `pat` occurs in `s` at position `k`. */
  predicate OccursAt(s: string, pat: string, k: int) {
    0 <= k && k + |pat| <= |s| && s[k..k + |pat|] == pat
  }

  /** `s.includes(pat)`. */
  predicate Contains(s: string, pat: string) {
    exists k :: 0 <= k <= |s| - |pat| && OccursAt(s, pat, k)
  }

  /** Replacing a pattern that does not occur changes nothing. */
  lemma {:induction false} ReplaceAbsent(s: string, pat: string, with: string)
    requires pat != [] && !Contains(s, pat)
    ensures ReplaceFirst(s, pat, with) == s
    decreases |s|
  {
    if |s| >= |pat| {
      assert !OccursAt(s, pat, 0);
      assert !Contains(s[1..], pat) by {
        forall k | 0 <= k <= |s[1..]| - |pat| && OccursAt(s[1..], pat, k)
          ensures false
        {
          assert s[k + 1..k + 1 + |pat|] == s[1..][k..k + |pat|];
          assert OccursAt(s, pat, k + 1);
        }
      }
      ReplaceAbsent(s[1..], pat, with);
    }
  }

  /** The position of the first `x` in `s`: the element `querySelector` or `indexOf` finds. */
  function FirstIndexOf<T(==)>(s: seq<T>, x: T): (r: Option<nat>)
    ensures r.Some? ==> r.value < |s| && s[r.value] == x && forall j :: 0 <= j < r.value ==> s[j] != x
    ensures r.None? <==> x !in s
  {
    if s == [] then None
    else if s[0] == x then Some(0)
    else match FirstIndexOf(s[1..], x)
      case None => None
      case Some(k) => Some(k + 1)
  }
}
