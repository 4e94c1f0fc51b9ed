/**
  The JavaScript string operations the core relies on: `toLowerCase`, `trim`,
  `Number.prototype.toString` on integers, and the order in which MongoDB
  sorts strings (by code point, which is the order of their UTF-8 bytes).
  `toLowerCase` is modelled on the ASCII letters only.
 */
module Text {

  // ---------------------------------------------------------------- case folding

  predicate IsUpperLetter(c: char) { 'A' <= c <= 'Z' }

  /** `toLowerCase` on one character (ASCII letters). */
  function LowerChar(c: char): char
  {
    if IsUpperLetter(c) then (c as int + 32) as char else c
  }

  predicate IsLower(s: string)
  {
    forall i :: 0 <= i < |s| ==> !IsUpperLetter(s[i])
  }

  /** `String.prototype.toLowerCase`. */
  function ToLower(s: string): (r: string)
    ensures |r| == |s|
    ensures IsLower(r)
    ensures forall i :: 0 <= i < |s| ==> r[i] == LowerChar(s[i])
    ensures IsLower(s) ==> r == s
  {
    seq(|s|, i requires 0 <= i < |s| => LowerChar(s[i]))
  }

  /** Two characters that are equal or are the two cases of one ASCII letter. */
  predicate SameLetterIgnoringCase(x: char, y: char)
  {
    x == y
    || (IsUpperLetter(x) && y as int == x as int + 32)
    || (IsUpperLetter(y) && x as int == y as int + 32)
  }

  /** Two strings that differ only in the letter case of some characters. */
  predicate EqualIgnoringCase(a: string, b: string)
  {
    |a| == |b| && forall i :: 0 <= i < |a| ==> SameLetterIgnoringCase(a[i], b[i])
  }

  /** Lowercasing identifies exactly the strings that differ only in letter case. */
  lemma ToLowerIdentifiesCaseVariants(a: string, b: string)
    ensures ToLower(a) == ToLower(b) <==> EqualIgnoringCase(a, b)
  {
    if ToLower(a) == ToLower(b) {
      forall i | 0 <= i < |a|
        ensures SameLetterIgnoringCase(a[i], b[i])
      {
        assert ToLower(a)[i] == ToLower(b)[i];
      }
    }
    if EqualIgnoringCase(a, b) {
      assert forall i :: 0 <= i < |a| ==> ToLower(a)[i] == ToLower(b)[i];
    }
  }

  // ---------------------------------------------------------------- trimming

  /** The characters `String.prototype.trim` removes: WhiteSpace and LineTerminator of ECMA-262. */
  predicate IsWhitespace(c: char)
  {
    c == '\t' || c == '\n' || c == '\U{000B}' || c == '\U{000C}' || c == '\r' || c == ' '
    || c == '\U{00A0}' || c == '\U{1680}' || ('\U{2000}' <= c <= '\U{200A}')
    || c == '\U{2028}' || c == '\U{2029}' || c == '\U{202F}' || c == '\U{205F}'
    || c == '\U{3000}' || c == '\U{FEFF}'
  }

  predicate AllWhitespace(s: string)
  {
    forall i :: 0 <= i < |s| ==> IsWhitespace(s[i])
  }

  /** No whitespace at either end. */
  predicate IsTrimmed(s: string)
  {
    s == [] || (!IsWhitespace(s[0]) && !IsWhitespace(s[|s| - 1]))
  }

  /** The number of whitespace characters at the start of `s`. */
  function LeadingWhitespace(s: string): (n: nat)
    ensures n <= |s|
    ensures AllWhitespace(s[..n])
    ensures n < |s| ==> !IsWhitespace(s[n])
  {
    if |s| > 0 && IsWhitespace(s[0]) then
      var m := LeadingWhitespace(s[1..]);
      assert s[1..][..m] == s[1..m + 1];
      1 + m
    else 0
  }

  /** The number of whitespace characters at the end of `s`. */
  function TrailingWhitespace(s: string): (n: nat)
    ensures n <= |s|
    ensures AllWhitespace(s[|s| - n..])
    ensures n < |s| ==> !IsWhitespace(s[|s| - n - 1])
  {
    if |s| > 0 && IsWhitespace(s[|s| - 1]) then
      var m := TrailingWhitespace(s[..|s| - 1]);
      assert s[..|s| - 1][|s| - 1 - m..] == s[|s| - 1 - m..|s| - 1];
      1 + m
    else 0
  }

  /** Where `trim` starts cutting the tail: after the leading whitespace. */
  function TrimStart(s: string): (i: nat)
    ensures i <= |s|
  {
    LeadingWhitespace(s)
  }

  /** Where the kept middle ends: before the trailing whitespace of what follows `TrimStart`. */
  function TrimEnd(s: string): (j: nat)
    ensures TrimStart(s) <= j <= |s|
  {
    |s| - TrailingWhitespace(s[TrimStart(s)..])
  }

  /** The tail `trim` cuts is whitespace, and the character before it is not. */
  lemma TrimEndCut(s: string)
    ensures AllWhitespace(s[TrimEnd(s)..])
    ensures TrimStart(s) < TrimEnd(s) ==> !IsWhitespace(s[TrimEnd(s) - 1])
  {
    var t := s[TrimStart(s)..];
    var k := TrailingWhitespace(t);
    assert t[|t| - k..] == s[TrimEnd(s)..];
    if k < |t| {
      assert t[|t| - k - 1] == s[TrimEnd(s) - 1];
    }
  }

  /** What is cut is whitespace, and what is kept starts and ends with a non-whitespace character. */
  lemma TrimCuts(s: string)
    ensures AllWhitespace(s[..TrimStart(s)]) && AllWhitespace(s[TrimEnd(s)..])
    ensures IsTrimmed(s[TrimStart(s)..TrimEnd(s)])
  {
    var i, j := TrimStart(s), TrimEnd(s);
    assert i == LeadingWhitespace(s);
    TrimEndCut(s);
    if i < j {
      assert !IsWhitespace(s[i]) && !IsWhitespace(s[j - 1]);
      var r := s[i..j];
      assert r[0] == s[i] && r[|r| - 1] == s[j - 1];
    } else {
      assert s[i..j] == [];
    }
  }

  /** `String.prototype.trim`: the middle part of `s` left once whitespace is cut from both ends. */
  function Trim(s: string): (r: string)
    ensures IsTrimmed(r)
    ensures exists i, j :: 0 <= i <= j <= |s| && r == s[i..j] && AllWhitespace(s[..i]) && AllWhitespace(s[j..])
  {
    TrimCuts(s);
    s[TrimStart(s)..TrimEnd(s)]
  }

  lemma TrimOfTrimmed(s: string)
    requires IsTrimmed(s)
    ensures Trim(s) == s
  {
    var i := LeadingWhitespace(s);
    assert i == 0;
    var k := TrailingWhitespace(s[i..]);
    assert k == 0;
  }

  /** Lowercasing leaves whitespace alone, so it commutes with trimming. */
  lemma LowerCharWhitespace(c: char)
    ensures IsWhitespace(LowerChar(c)) == IsWhitespace(c)
  {
  }

  /** `a` and `b` have whitespace at exactly the same positions. */
  predicate SameWhitespace(a: string, b: string)
  {
    |a| == |b| && forall i :: 0 <= i < |a| ==> IsWhitespace(a[i]) == IsWhitespace(b[i])
  }

  lemma {:induction false} LeadingRespectsWhitespace(a: string, b: string)
    requires SameWhitespace(a, b)
    ensures LeadingWhitespace(a) == LeadingWhitespace(b)
    decreases |a|
  {
    if |a| > 0 && IsWhitespace(a[0]) {
      assert SameWhitespace(a[1..], b[1..]) by {
        forall i | 0 <= i < |a| - 1 ensures IsWhitespace(a[1..][i]) == IsWhitespace(b[1..][i]) {
          assert a[1..][i] == a[i + 1] && b[1..][i] == b[i + 1];
        }
      }
      LeadingRespectsWhitespace(a[1..], b[1..]);
    }
  }

  lemma {:induction false} TrailingRespectsWhitespace(a: string, b: string)
    requires SameWhitespace(a, b)
    ensures TrailingWhitespace(a) == TrailingWhitespace(b)
    decreases |a|
  {
    if |a| > 0 && IsWhitespace(a[|a| - 1]) {
      var a', b' := a[..|a| - 1], b[..|b| - 1];
      assert SameWhitespace(a', b') by {
        forall i | 0 <= i < |a'| ensures IsWhitespace(a'[i]) == IsWhitespace(b'[i]) {
          assert a'[i] == a[i] && b'[i] == b[i];
        }
      }
      TrailingRespectsWhitespace(a', b');
    }
  }

  lemma LowerKeepsWhitespace(s: string)
    ensures SameWhitespace(ToLower(s), s)
  {
    forall i | 0 <= i < |s| ensures IsWhitespace(ToLower(s)[i]) == IsWhitespace(s[i]) {
      LowerCharWhitespace(s[i]);
    }
  }

  lemma ToLowerSlice(s: string, i: nat, j: nat)
    requires i <= j <= |s|
    ensures ToLower(s)[i..j] == ToLower(s[i..j])
  {
  }

  /** Lowercasing moves neither cut point of `trim`. */
  lemma LowerTrimStart(s: string)
    ensures TrimStart(ToLower(s)) == TrimStart(s)
  {
    LowerKeepsWhitespace(s);
    LeadingRespectsWhitespace(ToLower(s), s);
  }

  lemma LowerTrimEnd(s: string)
    ensures TrimEnd(ToLower(s)) == TrimEnd(s)
  {
    var i := TrimStart(s);
    LowerTrimStart(s);
    ToLowerSlice(s, i, |s|);
    LowerKeepsWhitespace(s[i..]);
    TrailingRespectsWhitespace(ToLower(s)[i..], s[i..]);
  }

  lemma LowerCommutesWithTrim(s: string)
    ensures ToLower(Trim(s)) == Trim(ToLower(s))
  {
    LowerTrimStart(s);
    LowerTrimEnd(s);
    ToLowerSlice(s, TrimStart(s), TrimEnd(s));
  }

  // ---------------------------------------------------------------- decimal integers

  predicate IsDigit(c: char) { '0' <= c <= '9' }

  function DigitChar(d: nat): (c: char)
    requires d < 10
    ensures IsDigit(c)
  {
    ('0' as int + d) as char
  }

  function DigitValue(c: char): nat
    requires IsDigit(c)
  {
    c as int - '0' as int
  }

  function Pow10(k: nat): (p: nat)
    ensures p >= 1
  {
    if k == 0 then 1 else 10 * Pow10(k - 1)
  }

  /** `Number.prototype.toString()` on a non-negative integer: decimal digits, no leading zero. */
  function NatToString(n: nat): (r: string)
    ensures |r| >= 1
    ensures forall i :: 0 <= i < |r| ==> IsDigit(r[i])
    ensures |r| > 1 ==> r[0] != '0'
    ensures n > 0 ==> r[0] != '0'
  {
    if n < 10 then [DigitChar(n)] else NatToString(n / 10) + [DigitChar(n % 10)]
  }

  /** `String(i)` on an integer. */
  function IntToString(i: int): string
  {
    if i < 0 then "-" + NatToString(-i) else NatToString(i)
  }

  /** The value of a string of decimal digits. */
  function ParseDecimal(s: string): nat
    requires forall i :: 0 <= i < |s| ==> IsDigit(s[i])
  {
    if s == [] then 0 else 10 * ParseDecimal(s[..|s| - 1]) + DigitValue(s[|s| - 1])
  }

  /** Reading back the decimal string of `n` gives `n`. */
  lemma {:induction false} ParseNatToString(n: nat)
    ensures ParseDecimal(NatToString(n)) == n
    decreases n
  {
    if n >= 10 {
      var r := NatToString(n);
      assert r[..|r| - 1] == NatToString(n / 10);
      ParseNatToString(n / 10);
    }
  }

  /** A decimal string as `toString` prints it: digits only, and no leading zero unless it is "0". */
  predicate IsCanonicalDecimal(s: string)
  {
    |s| >= 1 && (forall i :: 0 <= i < |s| ==> IsDigit(s[i])) && (|s| > 1 ==> s[0] != '0')
  }

  lemma {:induction false} ParsePositive(s: string)
    requires |s| >= 1 && (forall i :: 0 <= i < |s| ==> IsDigit(s[i])) && s[0] != '0'
    ensures ParseDecimal(s) >= 1
    decreases |s|
  {
    if |s| > 1 {
      assert s[..|s| - 1][0] == s[0];
      ParsePositive(s[..|s| - 1]);
    }
  }

  /** Printing the value of a canonical decimal string gives the string back. */
  lemma {:induction false} NatToStringParse(s: string)
    requires IsCanonicalDecimal(s)
    ensures NatToString(ParseDecimal(s)) == s
    decreases |s|
  {
    var init, c := s[..|s| - 1], s[|s| - 1];
    assert DigitChar(DigitValue(c)) == c;
    if |s| == 1 {
      assert s == [c];
    } else {
      assert init[0] == s[0];
      ParsePositive(init);
      NatToStringParse(init);
      var n := ParseDecimal(s);
      assert n / 10 == ParseDecimal(init) && n % 10 == DigitValue(c);
      assert s == init + [c];
    }
  }

  /** `String(n)` equals a canonical decimal string exactly when `n` is its value. */
  lemma IntToStringOfCanonical(n: int, s: string)
    ensures IsCanonicalDecimal(s) ==> (IntToString(n) == s <==> n == ParseDecimal(s))
  {
    if IsCanonicalDecimal(s) {
      NatToStringParse(s);
      if n < 0 {
        assert IntToString(n)[0] == '-';
      } else {
        ParseNatToString(n);
      }
    }
  }

  /** A number with `k` decimal digits prints as exactly `k` characters. */
  lemma {:induction false} NatToStringLength(n: nat, k: nat)
    requires k >= 1 && Pow10(k - 1) <= n < Pow10(k)
    ensures |NatToString(n)| == k
    decreases k
  {
    if k > 1 {
      assert Pow10(k - 1) == 10 * Pow10(k - 2);
      assert n >= 10;
      NatToStringLength(n / 10, k - 1);
    } else {
      assert n < 10;
    }
  }

  // ---------------------------------------------------------------- ordering

  /**
    MongoDB's string order (binary collation): lexicographic on code points.
    JavaScript's `<` compares UTF-16 code units instead, which differs above
    U+FFFF; that order is not modelled.
   */
  predicate LexLess(a: string, b: string)
    decreases |a|
  {
    if a == [] then b != []
    else if b == [] then false
    else if a[0] == b[0] then LexLess(a[1..], b[1..])
    else a[0] < b[0]
  }

  /** `a` is below `b` first at position `k`: they agree before it, and there `a` ends while `b` goes on, or `a` has the smaller character. */
  predicate LessAt(a: string, b: string, k: nat)
  {
    && k <= |a| && k < |b| && a[..k] == b[..k]
    && (k < |a| ==> a[k] < b[k])
  }

  /** `LexLess` is the order of code units with a proper prefix first, as MongoDB sorts strings. */
  lemma {:induction false} LexLessFirstDifference(a: string, b: string)
    ensures LexLess(a, b) <==> exists k: nat :: LessAt(a, b, k)
    decreases |a|
  {
    if a == [] {
      if b != [] { assert LessAt(a, b, 0); }
    } else if b != [] {
      if a[0] == b[0] {
        LexLessFirstDifference(a[1..], b[1..]);
        if LexLess(a, b) {
          var k: nat :| LessAt(a[1..], b[1..], k);
          assert a[..k + 1] == [a[0]] + a[1..][..k];
          assert b[..k + 1] == [b[0]] + b[1..][..k];
          assert LessAt(a, b, k + 1);
        }
        if k: nat :| LessAt(a, b, k) {
          if k > 0 {
            assert a[1..][..k - 1] == a[..k][1..] && b[1..][..k - 1] == b[..k][1..];
            assert LessAt(a[1..], b[1..], k - 1);
          }
        }
      } else {
        if a[0] < b[0] { assert LessAt(a, b, 0); }
        forall k: nat | LessAt(a, b, k) ensures a[0] < b[0] {
          if k > 0 { assert a[..k][0] == b[..k][0]; }
        }
      }
    }
  }

  lemma {:induction false} LexLessIrreflexive(a: string)
    ensures !LexLess(a, a)
    decreases |a|
  {
    if a != [] { LexLessIrreflexive(a[1..]); }
  }

  lemma {:induction false} LexLessTransitive(a: string, b: string, c: string)
    requires LexLess(a, b) && LexLess(b, c)
    ensures LexLess(a, c)
    decreases |a|
  {
    if a != [] && b != [] && c != [] && a[0] == b[0] && b[0] == c[0] {
      LexLessTransitive(a[1..], b[1..], c[1..]);
    }
  }

  lemma {:induction false} LexLessTotal(a: string, b: string)
    ensures a == b || LexLess(a, b) || LexLess(b, a)
    decreases |a|
  {
    if a != [] && b != [] && a[0] == b[0] {
      LexLessTotal(a[1..], b[1..]);
      if a[1..] == b[1..] {
        assert a == [a[0]] + a[1..] && b == [b[0]] + b[1..];
      }
    }
  }
}
