/** The pieces the two regular expressions of `parse_and_create_controls`
    (Flux_Cam.py, lines 521 and 537) are built from:

      int:  \s*(\w+)\s+0x\w+\s+\((\w+)\)\s*:\s*min=(-?\d+)\s+max=(-?\d+).*default=(-?\d+)\s+value=(-?\d+)
      bool: \s*(\w+)\s+0x\w+\s+\(bool\)\s*:\s*default=(\d+)\s+value=(\d+)

    Each piece is a declarative predicate over the positions where it begins
    and ends, and a scanner that takes it greedily, with a lemma for each
    direction: what the scanner finds satisfies the predicate (Sound), and
    whatever satisfies the predicate is what the scanner finds (Complete).
    Every quantified part of both patterns is followed by something its class
    excludes, so it never has to give back a character and the greedy scan
    is the only match. The one exception, `.*`, is in module Tails. */
module Lexemes {
  import opened Text

  // ---------------------------------------------------------------------------
  // Character classes and runs
  // ---------------------------------------------------------------------------

  /** `\s`, `\w`, `\d` and `.` (any character but a newline). */
  datatype CharClass = Space | Word | Digit | Dot

  predicate InClass(c: char, cls: CharClass) {
    match cls
    case Space => IsSpace(c)
    case Word => IsWord(c)
    case Digit => IsDigit(c)
    case Dot => c != '\n'
  }

  predicate InClassAt(s: string, k: nat, cls: CharClass)
    requires k < |s|
  {
    InClass(s[k], cls)
  }

  /** `s[i..j]` consists of characters of class `cls`. */
  predicate Run(s: string, i: nat, j: nat, cls: CharClass) {
    i <= j <= |s| && forall k | i <= k < j :: InClassAt(s, k, cls)
  }

  /** A run of `cls` from `i` to `j` that is not followed by one more character
      of the class. */
  predicate MaximalRun(s: string, i: nat, j: nat, cls: CharClass) {
    Run(s, i, j, cls) && (j < |s| ==> !InClassAt(s, j, cls))
  }

  /** End of the longest run of `cls` that starts at `i`: what a greedy `cls*`
      consumes. */
  function RunEnd(s: string, i: nat, cls: CharClass): (j: nat)
    requires i <= |s|
    ensures i <= j <= |s|
    decreases |s| - i
  {
    if i < |s| && InClassAt(s, i, cls) then RunEnd(s, i + 1, cls) else i
  }

  lemma {:induction false} RunEndMaximal(s: string, i: nat, cls: CharClass)
    requires i <= |s|
    ensures MaximalRun(s, i, RunEnd(s, i, cls), cls)
    decreases |s| - i
  {
    if i < |s| && InClassAt(s, i, cls) {
      RunEndMaximal(s, i + 1, cls);
    }
  }

  /** A maximal run has only one possible end. */
  lemma {:induction false} RunEndUnique(s: string, i: nat, e: nat, cls: CharClass)
    requires MaximalRun(s, i, e, cls)
    ensures RunEnd(s, i, cls) == e
    decreases e - i
  {
    if i < e {
      assert InClassAt(s, i, cls);
      RunEndUnique(s, i + 1, e, cls);
    }
  }

  /** The end of a run, given the character that stops it. */
  lemma RunEndAt(s: string, i: nat, e: nat, cls: CharClass)
    requires Run(s, i, e, cls) && (e < |s| ==> !InClass(s[e], cls))
    ensures RunEnd(s, i, cls) == e
  {
    RunEndUnique(s, i, e, cls);
  }

  /** The first character of a non-empty run is of its class. */
  lemma RunFirst(s: string, i: nat, j: nat, cls: CharClass)
    requires Run(s, i, j, cls) && i < j
    ensures InClass(s[i], cls)
  {
    assert InClassAt(s, i, cls);
  }

  lemma RunAllDigits(s: string, i: nat, j: nat)
    requires Run(s, i, j, Digit)
    ensures AllDigits(s[i..j])
  {
    forall k | 0 <= k < j - i ensures IsDigit(s[i..j][k]) {
      assert InClassAt(s, i + k, Digit);
    }
  }

  lemma WordIsNotSpace(c: char)
    requires IsWord(c)
    ensures !IsSpace(c)
  {
  }

  /** The outcome of scanning for one part of a pattern: where it ends, or
      that it is not there. */
  datatype Position = NotFound | Found(pos: nat)

  // ---------------------------------------------------------------------------
  // Numbers: `-?\d+` and `\d+`
  // ---------------------------------------------------------------------------

  /** The optional minus sign of a signed number token at `i`. */
  function DigitsStart(s: string, i: nat, signed: bool): nat {
    if signed && i < |s| && s[i] == '-' then i + 1 else i
  }

  /** A number token occupies `s[i..j]`: `-?\d+` when `signed`, else `\d+`, its
      digits taken greedily. */
  predicate NumberAt(s: string, i: nat, j: nat, signed: bool) {
    var k := DigitsStart(s, i, signed);
    k < j && Run(s, k, j, Digit) && (j < |s| ==> !IsDigit(s[j]))
  }

  function ScanNumber(s: string, i: nat, signed: bool): (r: Position)
    requires i <= |s|
    ensures r.Found? ==> i < r.pos <= |s|
  {
    var k := DigitsStart(s, i, signed);
    var j := RunEnd(s, k, Digit);
    if k < j then Found(j) else NotFound
  }

  lemma ScanNumberSound(s: string, i: nat, signed: bool)
    requires i <= |s| && ScanNumber(s, i, signed).Found?
    ensures NumberAt(s, i, ScanNumber(s, i, signed).pos, signed)
  {
    RunEndMaximal(s, DigitsStart(s, i, signed), Digit);
  }

  lemma ScanNumberComplete(s: string, i: nat, j: nat, signed: bool)
    requires i <= |s| && NumberAt(s, i, j, signed)
    ensures ScanNumber(s, i, signed) == Found(j)
  {
    RunEndUnique(s, DigitsStart(s, i, signed), j, Digit);
  }

  /** The integer a number token denotes. */
  function NumberValue(s: string, i: nat, j: nat, signed: bool): int
    requires NumberAt(s, i, j, signed)
  {
    var k := DigitsStart(s, i, signed);
    assert AllDigits(s[k..j]) by { RunAllDigits(s, k, j); }
    var v: int := DecimalValue(s[k..j]);
    if k == i then v else -v
  }

  /** The value of a number token is what Python's `int()` makes of its text. */
  lemma {:induction false} NumberValueIsPyInt(s: string, i: nat, j: nat, signed: bool)
    requires NumberAt(s, i, j, signed)
    ensures PyInt(s[i..j]) == Some(NumberValue(s, i, j, signed))
  {
    var k := DigitsStart(s, i, signed);
    var digits := s[k..j];
    var t := s[i..j];
    RunAllDigits(s, k, j);
    DigitsAreBody(digits);
    SignedDigitsPlain(digits);
    assert t[|t| - 1] == digits[|digits| - 1];
    if k == i {
      assert t == digits;
      StripNoPadding(t);
    } else {
      assert t[0] == '-' && t[1..] == digits;
      assert t == "-" + digits;
      StripNoPadding(t);
      assert DigitBody(t[1..]);
    }
  }

  // ---------------------------------------------------------------------------
  // The shared head `\s*(\w+)\s+0x\w+\s+\(`
  // ---------------------------------------------------------------------------

  /** Positions in a line: the name group is `s[nameStart..nameEnd]`, the
      literal `0x` is at `idAt`, the id's word characters end at `idEnd` and the
      opening parenthesis is at `paren`. */
  datatype Head = Head(nameStart: nat, nameEnd: nat, idAt: nat, idEnd: nat, paren: nat)

  ghost predicate HeadMatch(s: string, h: Head) {
    Run(s, 0, h.nameStart, Space)
    && h.nameStart < h.nameEnd && Run(s, h.nameStart, h.nameEnd, Word)
    && h.nameEnd < h.idAt && Run(s, h.nameEnd, h.idAt, Space)
    && OccursAt(s, "0x", h.idAt)
    && h.idAt + 2 < h.idEnd && Run(s, h.idAt + 2, h.idEnd, Word)
    && h.idEnd < h.paren && Run(s, h.idEnd, h.paren, Space)
    && h.paren < |s| && s[h.paren] == '('
  }

  function ScanHead(s: string): (r: Option<Head>)
    ensures r.Some? ==> r.value.paren < |s|
  {
    var ns := RunEnd(s, 0, Space);
    var ne := RunEnd(s, ns, Word);
    var ia := RunEnd(s, ne, Space);
    if !(ns < ne && ne < ia && OccursAt(s, "0x", ia)) then None
    else
      var ie := RunEnd(s, ia + 2, Word);
      var p := RunEnd(s, ie, Space);
      if ia + 2 < ie && ie < p && p < |s| && s[p] == '(' then Some(Head(ns, ne, ia, ie, p))
      else None
  }

  lemma ScanHeadSound(s: string)
    requires ScanHead(s).Some?
    ensures HeadMatch(s, ScanHead(s).value)
  {
    var ns := RunEnd(s, 0, Space);
    RunEndMaximal(s, 0, Space);
    var ne := RunEnd(s, ns, Word);
    RunEndMaximal(s, ns, Word);
    var ia := RunEnd(s, ne, Space);
    RunEndMaximal(s, ne, Space);
    var ie := RunEnd(s, ia + 2, Word);
    RunEndMaximal(s, ia + 2, Word);
    RunEndMaximal(s, ie, Space);
  }

  /** The head is matched in exactly one way. */
  lemma ScanHeadComplete(s: string, h: Head)
    requires HeadMatch(s, h)
    ensures ScanHead(s) == Some(h)
  {
    RunFirst(s, h.nameStart, h.nameEnd, Word);
    RunFirst(s, h.nameEnd, h.idAt, Space);
    OccursAtFirst(s, "0x", h.idAt);
    RunFirst(s, h.idEnd, h.paren, Space);
    WordIsNotSpace(s[h.nameStart]);
    RunEndAt(s, 0, h.nameStart, Space);
    RunEndAt(s, h.nameStart, h.nameEnd, Word);
    RunEndAt(s, h.nameEnd, h.idAt, Space);
    RunEndAt(s, h.idAt + 2, h.idEnd, Word);
    RunEndAt(s, h.idEnd, h.paren, Space);
  }

  // ---------------------------------------------------------------------------
  // `\s*:` and `(\w+)\)`
  // ---------------------------------------------------------------------------

  /** `\s*:` from position `from`: the position of the colon. */
  function ScanColon(s: string, from: nat): (r: Position)
    requires from <= |s|
    ensures r.Found? ==> from <= r.pos < |s|
  {
    var colon := RunEnd(s, from, Space);
    if colon < |s| && s[colon] == ':' then Found(colon) else NotFound
  }

  ghost predicate ColonAt(s: string, from: nat, colon: nat) {
    Run(s, from, colon, Space) && colon < |s| && s[colon] == ':'
  }

  lemma ScanColonSound(s: string, from: nat)
    requires from <= |s| && ScanColon(s, from).Found?
    ensures ColonAt(s, from, ScanColon(s, from).pos)
  {
    RunEndMaximal(s, from, Space);
  }

  lemma ScanColonComplete(s: string, from: nat, colon: nat)
    requires ColonAt(s, from, colon)
    ensures ScanColon(s, from) == Found(colon)
  {
    RunEndAt(s, from, colon, Space);
  }

  /** `(\w+)\)` from position `from`: the position of the closing parenthesis. */
  function ScanTypeEnd(s: string, from: nat): (r: Position)
    requires from <= |s|
    ensures r.Found? ==> from < r.pos < |s|
  {
    var te := RunEnd(s, from, Word);
    if from < te && te < |s| && s[te] == ')' then Found(te) else NotFound
  }

  ghost predicate TypeEndAt(s: string, from: nat, te: nat) {
    from < te && Run(s, from, te, Word) && te < |s| && s[te] == ')'
  }

  lemma ScanTypeEndSound(s: string, from: nat)
    requires from <= |s| && ScanTypeEnd(s, from).Found?
    ensures TypeEndAt(s, from, ScanTypeEnd(s, from).pos)
  {
    RunEndMaximal(s, from, Word);
  }

  lemma ScanTypeEndComplete(s: string, from: nat, te: nat)
    requires TypeEndAt(s, from, te)
    ensures ScanTypeEnd(s, from) == Found(te)
  {
    RunEndAt(s, from, te, Word);
  }

  // ---------------------------------------------------------------------------
  // Keyed number pairs `key1(N)\s+key2(N)`
  // ---------------------------------------------------------------------------

  const DefaultKey := "default="
  const ValueKey := "value="
  const MinKey := "min="
  const MaxKey := "max="

  /** Both patterns end in a pair of keyed numbers separated by whitespace:
      `min=(-?\d+)\s+max=(-?\d+)` and `default=(N)\s+value=(N)`. The first key is
      at `at` and its number ends at `firstEnd`; the second key is at
      `secondAt` and its number ends at `secondEnd`. */
  datatype Pair = Pair(at: nat, firstEnd: nat, secondAt: nat, secondEnd: nat)

  ghost predicate PairMatch(s: string, key1: string, key2: string, m: Pair, signed: bool) {
    OccursAt(s, key1, m.at) && NumberAt(s, m.at + |key1|, m.firstEnd, signed)
    && SecondMatch(s, key2, m, signed)
  }

  /** The part of a pair after the first number: `\s+key2(N)`. */
  ghost predicate SecondMatch(s: string, key2: string, m: Pair, signed: bool) {
    m.firstEnd < m.secondAt && Run(s, m.firstEnd, m.secondAt, Space)
    && OccursAt(s, key2, m.secondAt) && NumberAt(s, m.secondAt + |key2|, m.secondEnd, signed)
  }

  /** The pair whose first key is at `p`, if there is one. */
  function ScanPair(s: string, p: nat, key1: string, key2: string, signed: bool): (r: Option<Pair>)
    requires p <= |s|
    ensures r.Some? ==> r.value.at == p && r.value.secondEnd <= |s|
  {
    if !OccursAt(s, key1, p) then None
    else match ScanNumber(s, p + |key1|, signed)
      case NotFound => None
      case Found(e) => ScanSecond(s, p, e, key2, signed)
  }

  function ScanSecond(s: string, p: nat, firstEnd: nat, key2: string, signed: bool): (r: Option<Pair>)
    requires firstEnd <= |s|
    ensures r.Some? ==> r.value.at == p && r.value.secondEnd <= |s|
  {
    var q := RunEnd(s, firstEnd, Space);
    if !(firstEnd < q && OccursAt(s, key2, q)) then None
    else match ScanNumber(s, q + |key2|, signed)
      case NotFound => None
      case Found(e) => Some(Pair(p, firstEnd, q, e))
  }

  lemma ScanSecondSound(s: string, p: nat, firstEnd: nat, key2: string, signed: bool)
    requires firstEnd <= |s| && ScanSecond(s, p, firstEnd, key2, signed).Some?
    ensures var m := ScanSecond(s, p, firstEnd, key2, signed).value;
      m.at == p && m.firstEnd == firstEnd && SecondMatch(s, key2, m, signed)
  {
    var q := RunEnd(s, firstEnd, Space);
    RunEndMaximal(s, firstEnd, Space);
    ScanNumberSound(s, q + |key2|, signed);
  }

  lemma ScanSecondComplete(s: string, key2: string, m: Pair, signed: bool)
    requires key2 != [] && !IsSpace(key2[0])
    requires SecondMatch(s, key2, m, signed)
    ensures ScanSecond(s, m.at, m.firstEnd, key2, signed) == Some(m)
  {
    OccursAtFirst(s, key2, m.secondAt);
    RunEndAt(s, m.firstEnd, m.secondAt, Space);
    ScanNumberComplete(s, m.secondAt + |key2|, m.secondEnd, signed);
  }

  lemma ScanPairSound(s: string, p: nat, key1: string, key2: string, signed: bool)
    requires p <= |s| && ScanPair(s, p, key1, key2, signed).Some?
    ensures var m := ScanPair(s, p, key1, key2, signed).value;
      m.at == p && PairMatch(s, key1, key2, m, signed)
  {
    var e := ScanNumber(s, p + |key1|, signed).pos;
    ScanNumberSound(s, p + |key1|, signed);
    ScanSecondSound(s, p, e, key2, signed);
  }

  lemma ScanPairComplete(s: string, key1: string, key2: string, m: Pair, signed: bool)
    requires m.at <= |s| && key2 != [] && !IsSpace(key2[0])
    requires PairMatch(s, key1, key2, m, signed)
    ensures ScanPair(s, m.at, key1, key2, signed) == Some(m)
  {
    ScanNumberComplete(s, m.at + |key1|, m.firstEnd, signed);
    ScanSecondComplete(s, key2, m, signed);
  }
}
