/**
 * The Python string primitives the dashboard relies on: `str.strip()`,
 * `str.lower()`, `str.title()`, `int()` of a run of decimal digits, and the
 * code-point order that `sorted()` uses on strings.
 */
module Text {

  // ---------------------------------------------------------------------------
  // Character classes
  // ---------------------------------------------------------------------------

  /** Python's `str.isspace()`; the regular-expression class `\s` on `str` patterns is the same set. */
  predicate IsSpace(c: char) {
    || c == ' '
    || '\t' <= c <= '\r'
    || '\U{1C}' <= c <= '\U{1F}'
    || c == '\U{85}' || c == '\U{A0}' || c == '\U{1680}'
    || '\U{2000}' <= c <= '\U{200A}'
    || c == '\U{2028}' || c == '\U{2029}' || c == '\U{202F}' || c == '\U{205F}' || c == '\U{3000}'
  }

  /** An ASCII decimal digit (what `\d` and `int()` accept, restricted to ASCII). */
  predicate IsDigit(c: char) {
    '0' <= c <= '9'
  }

  predicate IsUpper(c: char) {
    'A' <= c <= 'Z'
  }

  predicate IsLower(c: char) {
    'a' <= c <= 'z'
  }

  /** A cased character in the sense of `str.title()` (letters; ASCII only). */
  predicate IsLetter(c: char) {
    IsUpper(c) || IsLower(c)
  }

  function LowerChar(c: char): (r: char)
    ensures !IsUpper(r)
    ensures IsLetter(r) <==> IsLetter(c)
    ensures !IsUpper(c) ==> r == c
  {
    if IsUpper(c) then (c as int + 32) as char else c
  }

  function UpperChar(c: char): (r: char)
    ensures !IsLower(r)
    ensures IsLetter(r) <==> IsLetter(c)
    ensures !IsLower(c) ==> r == c
  {
    if IsLower(c) then (c as int - 32) as char else c
  }

  // ---------------------------------------------------------------------------
  // str.strip()
  // ---------------------------------------------------------------------------

  /** Drops leading whitespace: what is removed is all whitespace and what is kept does not start with it. */
  function TrimLeft(s: string): (r: string)
    ensures |r| <= |s| && r == s[|s| - |r|..]
    ensures r == [] || !IsSpace(r[0])
    ensures forall k :: 0 <= k < |s| - |r| ==> IsSpace(s[k])
  {
    if s != [] && IsSpace(s[0]) then TrimLeft(s[1..]) else s
  }

  /** Drops trailing whitespace: what is removed is all whitespace and what is kept does not end with it. */
  function TrimRight(s: string): (r: string)
    ensures |r| <= |s| && r == s[..|r|]
    ensures r == [] || !IsSpace(r[|r| - 1])
    ensures forall k :: |r| <= k < |s| ==> IsSpace(s[k])
  {
    if s != [] && IsSpace(s[|s| - 1]) then TrimRight(s[..|s| - 1]) else s
  }

  predicate IsTrimmed(s: string) {
    s == [] || (!IsSpace(s[0]) && !IsSpace(s[|s| - 1]))
  }

  /** Python's `str.strip()` with no argument. */
  function Strip(s: string): (r: string)
    ensures IsTrimmed(r)
    ensures |r| <= |s|
    ensures IsTrimmed(s) ==> r == s
    ensures r == [] <==> forall k :: 0 <= k < |s| ==> IsSpace(s[k])
  {
    var l := TrimLeft(s);
    var r := TrimRight(l);
    assert r != [] ==> r[0] == l[0];
    assert forall k :: 0 <= k < |l| ==> l[k] == s[|s| - |l| + k];
    r
  }

  /** Leading whitespace in front of a text that starts with a non-space character only disappears. */
  lemma {:induction false} TrimLeftConcat(a: string, x: string)
    requires x != [] && !IsSpace(x[0])
    ensures TrimLeft(a + x) == TrimLeft(a) + x
  {
    if a == [] {
      assert a + x == x;
    } else if IsSpace(a[0]) {
      assert (a + x)[1..] == a[1..] + x;
      TrimLeftConcat(a[1..], x);
    } else {
    }
  }

  /** Trailing whitespace behind a text that ends with a non-space character only disappears. */
  lemma {:induction false} TrimRightConcat(x: string, c: string)
    requires x != [] && !IsSpace(x[|x| - 1])
    ensures TrimRight(x + c) == x + TrimRight(c)
  {
    if c == [] {
      assert x + c == x;
    } else if IsSpace(c[|c| - 1]) {
      assert (x + c)[..|x + c| - 1] == x + c[..|c| - 1];
      TrimRightConcat(x, c[..|c| - 1]);
    } else {
    }
  }

  /** Stripping a text whose middle part is trimmed strips only the outer parts. */
  lemma StripAround(a: string, b: string, c: string)
    requires b != [] && !IsSpace(b[0]) && !IsSpace(b[|b| - 1])
    ensures Strip(a + b + c) == TrimLeft(a) + b + TrimRight(c)
  {
    assert a + b + c == a + (b + c);
    TrimLeftConcat(a, b + c);
    assert TrimLeft(a) + (b + c) == (TrimLeft(a) + b) + c;
    TrimRightConcat(TrimLeft(a) + b, c);
  }

  // ---------------------------------------------------------------------------
  // str.lower() and str.title()
  // ---------------------------------------------------------------------------

  predicate HasNoUpper(s: string) {
    forall k :: 0 <= k < |s| ==> !IsUpper(s[k])
  }

  /** `a` and `b` differ at most in the case of their letters. */
  predicate SameUpToCase(a: string, b: string) {
    |a| == |b| && forall k :: 0 <= k < |a| ==> UpperChar(a[k]) == UpperChar(b[k])
  }

  /** Python's `str.lower()` (ASCII letters only). */
  function Lower(s: string): (r: string)
    ensures |r| == |s| && HasNoUpper(r)
    ensures SameUpToCase(r, s)
    ensures forall k :: 0 <= k < |s| ==> (IsSpace(r[k]) <==> IsSpace(s[k]))
    ensures IsTrimmed(s) ==> IsTrimmed(r)
    ensures HasNoUpper(s) ==> r == s
  {
    seq(|s|, k requires 0 <= k < |s| => LowerChar(s[k]))
  }

  /**
   * Python's `str.title()` (ASCII letters only): a letter that follows a letter
   * is lowered, every other letter is raised, and non-letters are kept.
   */
  function Title(s: string): (r: string)
    ensures |r| == |s| && SameUpToCase(r, s)
    ensures forall k :: 0 <= k < |s| ==> (IsLetter(r[k]) <==> IsLetter(s[k]))
    ensures forall k :: 0 <= k < |s| && !IsLetter(s[k]) ==> r[k] == s[k]
  {
    seq(|s|, k requires 0 <= k < |s| => if k > 0 && IsLetter(s[k - 1]) then LowerChar(s[k]) else UpperChar(s[k]))
  }

  /** Position `k` of `s` does not follow a letter: `str.title()` starts a word there. */
  predicate StartsWord(s: string, k: nat)
    requires k < |s|
  {
    k == 0 || !IsLetter(s[k - 1])
  }

  /** Every letter that starts a word is upper-case, every other letter lower-case. */
  predicate IsTitleCased(s: string) {
    forall k :: 0 <= k < |s| && IsLetter(s[k]) ==> if StartsWord(s, k) then IsUpper(s[k]) else IsLower(s[k])
  }

  /**
   * Title-casing changes only the case of letters (lowering before and after
   * gives the same text), its result is title-cased, and it keeps trimming.
   */
  lemma TitleKeepsLetters(s: string)
    ensures Lower(Title(s)) == Lower(s)
    ensures IsTitleCased(Title(s))
    ensures IsTrimmed(s) ==> IsTrimmed(Title(s))
  {
    TitleLowersAlike(s);
    TitleIsTitleCased(s);
  }

  lemma LowerCharOfCased(c: char)
    ensures LowerChar(UpperChar(c)) == LowerChar(c) && LowerChar(LowerChar(c)) == LowerChar(c)
  {
  }

  lemma TitleLowersAlike(s: string)
    ensures Lower(Title(s)) == Lower(s)
  {
    var t := Title(s);
    forall k | 0 <= k < |s| ensures Lower(t)[k] == Lower(s)[k] {
      LowerCharOfCased(s[k]);
    }
  }

  lemma TitleIsTitleCased(s: string)
    ensures IsTitleCased(Title(s))
  {
    var t := Title(s);
    forall k | 0 <= k < |t| && IsLetter(t[k])
      ensures if StartsWord(t, k) then IsUpper(t[k]) else IsLower(t[k])
    {
      if k > 0 {
        assert IsLetter(t[k - 1]) <==> IsLetter(s[k - 1]);
      }
    }
  }

  /** The title-cased texts are exactly the ones `str.title()` leaves unchanged. */
  lemma TitleCasedIsFixed(s: string)
    ensures IsTitleCased(s) <==> Title(s) == s
  {
    if IsTitleCased(s) {
      forall k | 0 <= k < |s| ensures Title(s)[k] == s[k] {
        if IsLetter(s[k]) {
          assert if StartsWord(s, k) then IsUpper(s[k]) else IsLower(s[k]);
        }
      }
    }
    if Title(s) == s {
      TitleIsTitleCased(s);
    }
  }

  // ---------------------------------------------------------------------------
  // Decimal numerals
  // ---------------------------------------------------------------------------

  predicate AllDigits(s: string) {
    forall k :: 0 <= k < |s| ==> IsDigit(s[k])
  }

  function DigitValue(c: char): (d: nat)
    requires IsDigit(c)
    ensures d < 10
  {
    c as int - '0' as int
  }

  function DigitChar(d: nat): (c: char)
    requires d < 10
    ensures IsDigit(c) && DigitValue(c) == d
  {
    ('0' as int + d) as char
  }

  /** Reads digits left to right onto `acc`, as `int()` does: each digit multiplies what was read by ten. */
  function ReadDigits(acc: nat, s: string): nat
    requires AllDigits(s)
    decreases |s|
  {
    if s == [] then acc else ReadDigits(acc * 10 + DigitValue(s[0]), s[1..])
  }

  /** `str(n)` for a natural number. */
  function Decimal(n: nat): (s: string)
    ensures s != [] && AllDigits(s)
    ensures IsDigit(s[0]) && IsDigit(s[|s| - 1])
  {
    if n < 10 then [DigitChar(n)] else Decimal(n / 10) + [DigitChar(n % 10)]
  }

  lemma {:induction false} ReadDigitsSnoc(acc: nat, s: string, c: char)
    requires AllDigits(s) && IsDigit(c)
    ensures AllDigits(s + [c])
    decreases |s|
    ensures ReadDigits(acc, s + [c]) == ReadDigits(acc, s) * 10 + DigitValue(c)
  {
    if s == [] {
      assert s + [c] == [c];
    } else {
      assert (s + [c])[1..] == s[1..] + [c];
      ReadDigitsSnoc(acc * 10 + DigitValue(s[0]), s[1..], c);
    }
  }

  /** Reading back the numeral of `n` gives `n`. */
  lemma {:induction false} ReadDecimal(n: nat)
    ensures ReadDigits(0, Decimal(n)) == n
  {
    if n >= 10 {
      ReadDecimal(n / 10);
      ReadDigitsSnoc(0, Decimal(n / 10), DigitChar(n % 10));
    }
  }

  // ---------------------------------------------------------------------------
  // The order `sorted()` uses on strings, and sorted(set(...))
  // ---------------------------------------------------------------------------

  /** Python's `<` on `str`: code-point lexicographic order, a proper prefix first. */
  predicate Less(a: string, b: string) {
    b != [] && (a == [] || a[0] < b[0] || (a[0] == b[0] && Less(a[1..], b[1..])))
  }

  lemma {:induction false} LessIrreflexive(a: string)
    ensures !Less(a, a)
  {
    if a != [] {
      LessIrreflexive(a[1..]);
    }
  }

  lemma {:induction false} LessTransitive(a: string, b: string, c: string)
    requires Less(a, b) && Less(b, c)
    ensures Less(a, c)
  {
    if a != [] && a[0] == b[0] && b[0] == c[0] {
      LessTransitive(a[1..], b[1..], c[1..]);
    }
  }

  lemma {:induction false} LessTotal(a: string, b: string)
    requires a != b
    ensures Less(a, b) || Less(b, a)
  {
    if a != [] && b != [] && a[0] == b[0] {
      assert a == [a[0]] + a[1..] && b == [b[0]] + b[1..];
      LessTotal(a[1..], b[1..]);
    }
  }

  predicate StrictlySorted(xs: seq<string>) {
    forall i, j :: 0 <= i < j < |xs| ==> Less(xs[i], xs[j])
  }

  function InsertSorted(xs: seq<string>, x: string): (r: seq<string>)
    requires StrictlySorted(xs)
    ensures StrictlySorted(r)
    ensures forall y :: y in r <==> y in xs || y == x
  {
    if xs == [] then [x]
    else if x == xs[0] then xs
    else if Less(x, xs[0]) then
      assert forall j :: 0 < j < |xs| ==> Less(x, xs[j]) by {
        forall j | 0 < j < |xs| ensures Less(x, xs[j]) { LessTransitive(x, xs[0], xs[j]); }
      }
      [x] + xs
    else
      LessTotal(x, xs[0]);
      var rest := InsertSorted(xs[1..], x);
      assert forall y :: y in rest ==> Less(xs[0], y);
      [xs[0]] + rest
  }

  /** `sorted(set(xs))`: the distinct values of `xs` in increasing order. */
  function SortedUnique(xs: seq<string>): (r: seq<string>)
    ensures StrictlySorted(r)
    ensures forall y :: y in r <==> y in xs
  {
    if xs == [] then []
    else
      var r := InsertSorted(SortedUnique(xs[..|xs| - 1]), xs[|xs| - 1]);
      assert xs == xs[..|xs| - 1] + [xs[|xs| - 1]];
      r
  }
}
