/** Character classes and the few `str` operations the application relies on:
    `strip`, `split` on one character, the substring test `in`, `replace`,
    decimal rendering of integers (`str(n)`, f-strings) and `int(s)`. */
module Text {

  /** Python's `str.isspace()`; the `\s` of a `str` regular expression and the
      characters removed by `str.strip()` are this set. */
  predicate IsSpace(c: char) {
    ('\t' <= c <= '\r') || ('\U{1C}' <= c <= '\U{1F}') || c == ' '
    || c == '\U{85}' || c == '\U{A0}' || c == '\U{1680}'
    || ('\U{2000}' <= c <= '\U{200A}') || c == '\U{2028}' || c == '\U{2029}'
    || c == '\U{202F}' || c == '\U{205F}' || c == '\U{3000}'
  }

  /** The information separators U+001C to U+001F. They are whitespace for
      `str.isspace()`, but `int()` skips only the other whitespace characters,
      so a text holding one of them is never a number. */
  predicate IsSeparatorControl(c: char) { '\U{1C}' <= c <= '\U{1F}' }

  predicate HasSeparatorControl(s: string) {
    exists k | 0 <= k < |s| :: IsSeparatorControl(s[k])
  }

  /** The same test, one character at a time. */
  predicate SeparatorFree(s: string)
    decreases |s|
  {
    s == [] || (!IsSeparatorControl(s[0]) && SeparatorFree(s[1..]))
  }

  lemma {:induction false} SeparatorFreeIff(s: string)
    ensures SeparatorFree(s) <==> !HasSeparatorControl(s)
    decreases |s|
  {
    if s != [] {
      SeparatorFreeIff(s[1..]);
      if HasSeparatorControl(s) {
        var k :| 0 <= k < |s| && IsSeparatorControl(s[k]);
        if k > 0 { assert s[1..][k - 1] == s[k]; }
      }
      if HasSeparatorControl(s[1..]) {
        var k :| 0 <= k < |s| - 1 && IsSeparatorControl(s[1..][k]);
        assert s[k + 1] == s[1..][k];
      }
    }
  }

  /** `\d`, restricted to ASCII digits. */
  predicate IsDigit(c: char) { '0' <= c <= '9' }

  /** `\w`, restricted to ASCII letters, digits and the underscore. */
  predicate IsWord(c: char) {
    IsDigit(c) || ('a' <= c <= 'z') || ('A' <= c <= 'Z') || c == '_'
  }

  predicate AllSpace(s: string) {
    forall k | 0 <= k < |s| :: IsSpace(s[k])
  }

  predicate AllDigits(s: string) {
    forall k | 0 <= k < |s| :: IsDigit(s[k])
  }

  // ---------------------------------------------------------------------------
  // str.strip()
  // ---------------------------------------------------------------------------

  /** End of the run of whitespace that starts at `i`. */
  function SkipSpace(s: string, i: nat): (j: nat)
    requires i <= |s|
    ensures i <= j <= |s|
    ensures forall k | i <= k < j :: IsSpace(s[k])
    ensures j < |s| ==> !IsSpace(s[j])
    decreases |s| - i
  {
    if i < |s| && IsSpace(s[i]) then SkipSpace(s, i + 1) else i
  }

  /** Start of the run of whitespace that ends at `j`, not going below `lo`. */
  function SkipSpaceBack(s: string, lo: nat, j: nat): (e: nat)
    requires lo <= j <= |s|
    ensures lo <= e <= j
    ensures forall k | e <= k < j :: IsSpace(s[k])
    ensures e > lo ==> !IsSpace(s[e - 1])
    decreases j
  {
    if j > lo && IsSpace(s[j - 1]) then SkipSpaceBack(s, lo, j - 1) else j
  }

  /** `s.strip()`: `s` without its leading and trailing whitespace. */
  function Strip(s: string): (r: string)
    ensures |r| <= |s|
    ensures r == [] <==> AllSpace(s)
    ensures r != [] ==> !IsSpace(r[0]) && !IsSpace(r[|r| - 1])
  {
    var a := SkipSpace(s, 0);
    var b := SkipSpaceBack(s, a, |s|);
    assert a < |s| ==> a < b;
    s[a..b]
  }

  /** Strip removes exactly the whitespace padding: a text whose ends are not
      whitespace comes back unchanged from between any two whitespace runs. */
  lemma StripPadded(w1: string, t: string, w2: string)
    requires AllSpace(w1) && AllSpace(w2)
    requires t != [] ==> !IsSpace(t[0]) && !IsSpace(t[|t| - 1])
    ensures Strip(w1 + t + w2) == t
  {
    var s := w1 + t + w2;
    var a := SkipSpace(s, 0);
    if t == [] {
      assert AllSpace(s) by {
        forall k | 0 <= k < |s| ensures IsSpace(s[k]) {
          if k < |w1| { assert s[k] == w1[k]; } else { assert s[k] == w2[k - |w1|]; }
        }
      }
    } else {
      forall k | 0 <= k < |w1| ensures IsSpace(s[k]) { assert s[k] == w1[k]; }
      assert s[|w1|] == t[0];
      assert a == |w1|;
      var b := SkipSpaceBack(s, a, |s|);
      forall k | |w1| + |t| <= k < |s| ensures IsSpace(s[k]) { assert s[k] == w2[k - |w1| - |t|]; }
      assert s[|w1| + |t| - 1] == t[|t| - 1];
      assert b == |w1| + |t|;
      assert s[a..b] == t;
    }
  }

  /** Stripping twice is stripping once. */
  lemma StripIdempotent(s: string)
    ensures Strip(Strip(s)) == Strip(s)
  {
    StripPadded([], Strip(s), []);
    assert [] + Strip(s) + [] == Strip(s);
  }

  // ---------------------------------------------------------------------------
  // str.split(sep) with a one-character separator, and its inverse sep.join
  // ---------------------------------------------------------------------------

  /** `sep.join(parts)`. */
  function Join(parts: seq<string>, sep: char): string
    requires |parts| >= 1
    decreases |parts|
  {
    if |parts| == 1 then parts[0] else parts[0] + [sep] + Join(parts[1..], sep)
  }

  /** `s.split(sep)`: the pieces of `s` between separators, in order; an
      empty `s` gives one empty piece. */
  function Split(s: string, sep: char): (parts: seq<string>)
    ensures |parts| >= 1
    decreases |s|
  {
    if s == [] then [[]]
    else
      var rest := Split(s[1..], sep);
      if s[0] == sep then [[]] + rest else [[s[0]] + rest[0]] + rest[1..]
  }

  /** The pieces are the maximal separator-free runs: none contains the
      separator, and joining them restores the text. */
  lemma {:induction false} JoinSplit(s: string, sep: char)
    ensures forall p | p in Split(s, sep) :: sep !in p
    ensures Join(Split(s, sep), sep) == s
    decreases |s|
  {
    if s != [] {
      var rest := Split(s[1..], sep);
      JoinSplit(s[1..], sep);
      if s[0] == sep {
        assert ([[]] + rest)[1..] == rest;
        assert Join([[]] + rest, sep) == [sep] + Join(rest, sep);
        assert [sep] + s[1..] == s;
      } else {
        var parts := [[s[0]] + rest[0]] + rest[1..];
        assert parts[1..] == rest[1..];
        assert |rest| > 1 ==> Join(rest, sep) == rest[0] + [sep] + Join(rest[1..], sep);
        assert Join(parts, sep) == [s[0]] + Join(rest, sep);
        assert [s[0]] + s[1..] == s;
        forall p | p in parts
          ensures sep !in p
        {
          if p != parts[0] {
            assert p in rest[1..];
            assert p in rest;
          } else {
            assert rest[0] in rest;
          }
        }
      }
    }
  }

  /** A separator splits the text into the pieces before it and after it. */
  lemma {:induction false} SplitAtSeparator(a: string, b: string, sep: char)
    requires sep !in a
    ensures Split(a + [sep] + b, sep) == Split(a, sep) + Split(b, sep)
    decreases |a|
  {
    if a == [] {
      assert a + [sep] + b == [sep] + b;
      assert ([sep] + b)[1..] == b;
    } else {
      var s := a + [sep] + b;
      assert s[0] == a[0] && s[1..] == a[1..] + [sep] + b;
      SplitAtSeparator(a[1..], b, sep);
    }
  }

  /** A text without the separator is one piece. */
  lemma {:induction false} SplitWithoutSeparator(a: string, sep: char)
    requires sep !in a
    ensures Split(a, sep) == [a]
    decreases |a|
  {
    if a != [] {
      SplitWithoutSeparator(a[1..], sep);
      assert [a[0]] + a[1..] == a;
    }
  }

  /** Splitting undoes joining: split is the inverse of join on separator-free pieces. */
  lemma {:induction false} SplitJoin(parts: seq<string>, sep: char)
    requires |parts| >= 1
    requires forall p | p in parts :: sep !in p
    ensures Split(Join(parts, sep), sep) == parts
    decreases |parts|
  {
    SplitWithoutSeparator(parts[0], sep);
    if |parts| > 1 {
      assert forall p | p in parts[1..] :: p in parts;
      SplitJoin(parts[1..], sep);
      SplitAtSeparator(parts[0], Join(parts[1..], sep), sep);
      assert [parts[0]] + parts[1..] == parts;
    }
  }

  /** Joining sequences does not depend on grouping. */
  lemma Associate<T>(a: seq<T>, b: seq<T>, c: seq<T>)
    ensures a + b + c == a + (b + c)
  {
  }

  // ---------------------------------------------------------------------------
  // Substring test `pat in s`
  // ---------------------------------------------------------------------------

  /** `pat` occurs in `s` starting at position `i`. */
  predicate OccursAt(s: string, pat: string, i: nat) {
    i + |pat| <= |s| && forall k | 0 <= k < |pat| :: s[i + k] == pat[k]
  }

  lemma OccursAtFirst(s: string, pat: string, i: nat)
    requires pat != [] && OccursAt(s, pat, i)
    ensures i < |s| && s[i] == pat[0]
  {
    assert s[i + 0] == pat[0];
  }

  predicate Contains(s: string, pat: string) {
    exists i | 0 <= i <= |s| - |pat| :: OccursAt(s, pat, i)
  }

  /** A pattern with a character the text lacks does not occur in it. */
  lemma MissingCharNotContained(s: string, pat: string, k: nat)
    requires k < |pat| && pat[k] !in s
    ensures !Contains(s, pat)
  {
    forall i | 0 <= i <= |s| - |pat| ensures !OccursAt(s, pat, i) {
      assert s[i + k] in s;
    }
  }

  // ---------------------------------------------------------------------------
  // str.replace(pat, rep)
  // ---------------------------------------------------------------------------

  /** `s.replace(pat, rep)` for a non-empty `pat`: occurrences are replaced left
      to right and never overlap. */
  function ReplaceAll(s: string, pat: string, rep: string): (r: string)
    requires pat != []
    ensures rep == [] ==> |r| <= |s|
    decreases |s|
  {
    if |pat| <= |s| && s[..|pat|] == pat then rep + ReplaceAll(s[|pat|..], pat, rep)
    else if s == [] then []
    else [s[0]] + ReplaceAll(s[1..], pat, rep)
  }

  /** Text in which the pattern does not occur is left alone. */
  lemma {:induction false} ReplaceAllMissing(s: string, pat: string, rep: string)
    requires pat != [] && !Contains(s, pat)
    ensures ReplaceAll(s, pat, rep) == s
    decreases |s|
  {
    if s != [] {
      if |pat| <= |s| && s[..|pat|] == pat {
        assert OccursAt(s, pat, 0);
        assert false;
      }
      assert !Contains(s[1..], pat) by {
        forall i | 0 <= i <= |s[1..]| - |pat| && OccursAt(s[1..], pat, i)
          ensures false
        {
          assert OccursAt(s, pat, i + 1);
        }
      }
      ReplaceAllMissing(s[1..], pat, rep);
      assert [s[0]] + s[1..] == s;
    }
  }

  // ---------------------------------------------------------------------------
  // Decimal numbers: str(n) and int(s)
  // ---------------------------------------------------------------------------

  function DigitValue(c: char): nat
    requires IsDigit(c)
  {
    c as int - '0' as int
  }

  function DigitChar(d: nat): (c: char)
    requires d < 10
    ensures IsDigit(c) && DigitValue(c) == d
  {
    ('0' as int + d) as char
  }

  /** The value of a string of decimal digits, most significant first. */
  function DecimalValue(d: string): nat
    requires AllDigits(d)
    decreases |d|
  {
    if d == [] then 0 else DecimalValue(d[..|d| - 1]) * 10 + DigitValue(d[|d| - 1])
  }

  /** `str(n)` for a natural number: its decimal digits without leading zeros. */
  function ShowNat(n: nat): (d: string)
    ensures d != [] && AllDigits(d)
    ensures |d| > 1 ==> d[0] != '0'
    decreases n
  {
    if n < 10 then [DigitChar(n)] else ShowNat(n / 10) + [DigitChar(n % 10)]
  }

  /** Reading back the digits of `str(n)` gives `n`. */
  lemma {:induction false} DecimalValueShowNat(n: nat)
    ensures DecimalValue(ShowNat(n)) == n
    decreases n
  {
    if n >= 10 {
      DecimalValueShowNat(n / 10);
      var d := ShowNat(n);
      assert d[..|d| - 1] == ShowNat(n / 10);
    }
  }

  /** `str(n)` for any integer: a minus sign before the digits of a negative number. */
  function ShowInt(n: int): (d: string)
    ensures d != [] && (d[0] == '-' <==> n < 0)
  {
    if n < 0 then "-" + ShowNat(-n) else ShowNat(n)
  }

  /** `str` is injective on integers. */
  lemma ShowIntInjective(m: int, n: int)
    requires ShowInt(m) == ShowInt(n)
    ensures m == n
  {
    var a, b := ShowInt(m), ShowInt(n);
    assert (m < 0) == (a[0] == '-');
    assert (n < 0) == (b[0] == '-');
    if m < 0 {
      assert a[1..] == ShowNat(-m) && b[1..] == ShowNat(-n);
      DecimalValueShowNat(-m);
      DecimalValueShowNat(-n);
    } else {
      DecimalValueShowNat(m);
      DecimalValueShowNat(n);
    }
  }

  /** The digits of `s` with the underscores taken out. */
  function DropUnderscores(s: string): (r: string)
    ensures |r| <= |s|
    ensures (forall k | 0 <= k < |s| :: IsDigit(s[k]) || s[k] == '_') ==> AllDigits(r)
    ensures '_' !in s ==> r == s
    decreases |s|
  {
    if s == [] then []
    else if s[0] == '_' then DropUnderscores(s[1..])
    else
      assert '_' !in s ==> '_' !in s[1..];
      [s[0]] + DropUnderscores(s[1..])
  }

  /** The digit part `int()` accepts after the sign: digits, where single
      underscores may separate two digits. */
  predicate DigitBody(b: string) {
    b != [] && IsDigit(b[0]) && IsDigit(b[|b| - 1])
    && (forall k | 0 <= k < |b| :: IsDigit(b[k]) || b[k] == '_')
    && (forall k | 0 <= k < |b| - 1 :: !(b[k] == '_' && b[k + 1] == '_'))
  }

  /** `int(s)` in base 10: `None` where Python raises `ValueError`. The
      whitespace `int()` skips around the number is the `str.isspace()` set
      without the information separators, which it rejects wherever they are. */
  function PyInt(s: string): (r: Option<int>)
    ensures r.Some? ==> Strip(s) != [] && SeparatorFree(s)
  {
    var t := Strip(s);
    if t == [] || !SeparatorFree(s) then None else ReadSigned(t)
  }

  /** `int()` raises on a text holding an information separator, even
      where `str.strip()` would have removed it. */
  lemma PyIntRejectsSeparator(s: string)
    requires HasSeparatorControl(s)
    ensures PyInt(s) == None
  {
    SeparatorFreeIff(s);
  }

  /** An optional sign followed by a digit body, the text already stripped. */
  function ReadSigned(t: string): Option<int>
    requires t != []
  {
    var body := if t[0] == '-' || t[0] == '+' then t[1..] else t;
    if DigitBody(body) then
      var v: int := DecimalValue(DropUnderscores(body));
      Some(if t[0] == '-' then -v else v)
    else None
  }

  /** `int(str(n)) == n`. */
  lemma PyIntShowInt(n: int)
    ensures PyInt(ShowInt(n)) == Some(n)
  {
    if n < 0 {
      var m: nat := -n;
      assert ShowInt(n) == "-" + ShowNat(m);
      PyIntNegative(m);
    } else {
      assert ShowInt(n) == ShowNat(n);
      PyIntNatural(n);
    }
  }

  lemma PyIntNatural(n: nat)
    ensures PyInt(ShowNat(n)) == Some(n)
  {
    var digits := ShowNat(n);
    StripNoPadding(digits);
    SignedDigitsPlain(digits);
    DigitsAreBody(digits);
    DecimalValueShowNat(n);
  }

  lemma PyIntNegative(n: nat)
    requires n > 0
    ensures PyInt("-" + ShowNat(n)) == Some(-(n as int))
  {
    var digits := ShowNat(n);
    var s := "-" + digits;
    assert s[|s| - 1] == digits[|digits| - 1];
    StripNoPadding(s);
    SignedDigitsPlain(digits);
    ReadMinus(n);
  }

  /** A minus sign before the digits of `n` reads as `-n`. */
  lemma ReadMinus(n: nat)
    requires n > 0
    ensures ReadSigned("-" + ShowNat(n)) == Some(-(n as int))
  {
    var digits := ShowNat(n);
    var t := "-" + digits;
    assert t[0] == '-' && t[1..] == digits;
    DigitsAreBody(digits);
    DecimalValueShowNat(n);
  }

  /** Digits alone form a body `int()` accepts, with nothing to drop. */
  lemma {:induction false} DigitsAreBody(d: string)
    requires d != [] && AllDigits(d)
    ensures DigitBody(d) && DropUnderscores(d) == d
  {
    assert '_' !in d by {
      forall k | 0 <= k < |d| ensures d[k] != '_' { assert IsDigit(d[k]); }
    }
  }

  /** Digits, with or without a minus sign before them, hold no information
      separator. */
  lemma {:induction false} SignedDigitsPlain(d: string)
    requires AllDigits(d)
    ensures SeparatorFree(d) && SeparatorFree("-" + d)
    decreases |d|
  {
    if d != [] {
      assert AllDigits(d[1..]) by {
        forall k | 0 <= k < |d| - 1 ensures IsDigit(d[1..][k]) { assert d[1..][k] == d[k + 1]; }
      }
      SignedDigitsPlain(d[1..]);
    }
    assert ("-" + d)[1..] == d;
  }

  /** `int()` reads the rendering of `n` between any runs of the whitespace
      it skips. */
  lemma {:induction false} PyIntPadded(w1: string, n: int, w2: string)
    requires AllSpace(w1) && AllSpace(w2)
    requires !HasSeparatorControl(w1) && !HasSeparatorControl(w2)
    ensures PyInt(w1 + ShowInt(n) + w2) == Some(n)
  {
    var d := ShowInt(n);
    var s := w1 + d + w2;
    ShowIntPlain(n);
    StripPadded(w1, d, w2);
    StripNoPadding(d);
    SeparatorFreeIff(d);
    NoSeparatorJoined(w1, d, w2);
    SeparatorFreeIff(s);
    PyIntShowInt(n);
    assert PyInt(d) == ReadSigned(d);
    assert PyInt(s) == ReadSigned(d);
  }

  /** The rendering of an integer neither starts nor ends with whitespace and
      holds no information separator. */
  lemma {:induction false} ShowIntPlain(n: int)
    ensures var d := ShowInt(n);
      d != [] && !IsSpace(d[0]) && !IsSpace(d[|d| - 1]) && SeparatorFree(d)
  {
    var m: nat := if n < 0 then -n else n;
    var digits := ShowNat(m);
    SignedDigitsPlain(digits);
    if n < 0 {
      var d := ShowInt(n);
      assert d == "-" + digits;
      assert d[|d| - 1] == digits[|digits| - 1];
    }
  }

  lemma {:induction false} NoSeparatorJoined(a: string, b: string, c: string)
    requires !HasSeparatorControl(a) && !HasSeparatorControl(b) && !HasSeparatorControl(c)
    ensures !HasSeparatorControl(a + b + c)
  {
    var s := a + b + c;
    forall k | 0 <= k < |s| ensures !IsSeparatorControl(s[k]) {
      if k < |a| { assert s[k] == a[k]; }
      else if k < |a| + |b| { assert s[k] == b[k - |a|]; }
      else { assert s[k] == c[k - |a| - |b|]; }
    }
  }

  /** The rendering of an integer has no whitespace to strip. */
  lemma StripNoPadding(s: string)
    requires s != [] && !IsSpace(s[0]) && !IsSpace(s[|s| - 1])
    ensures Strip(s) == s
  {
    StripPadded([], s, []);
    assert [] + s + [] == s;
  }

  datatype Option<T> = None | Some(value: T)
}
