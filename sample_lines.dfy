/** Two example lines in the format of `v4l2-ctl --list-ctrls`, an integer
    control and a boolean one, with proofs of the controls
    `parse_and_create_controls` makes of them. Each match is written out
    position by position, and the characters of the literal lines are
    checked one at a time. */
module SampleLines {
  import opened Text
  import opened Lexemes
  import opened Tails
  import opened Patterns
  import opened ControlLines

  /** The lines, in pieces of at most eight characters. The integer line's
      last `d` ends its first part; the boolean line's only `v` stands between
      its two parts. */
  const IntLineStart := "brightne" + "ss 0x009" + "8 (int) " + ": min=0 " + "max=255 " + "step=1 d"
  const IntLineEnd := "efault=1" + "28 value" + "=64"
  const IntLine := IntLineStart + IntLineEnd
  const BoolLineStart := "white_ba" + "lance_au" + "tomatic " + "0x0009 (" + "bool) : " + "default=" + "1 "
  const BoolLineEnd := "alue=" + "0"
  const BoolLine := BoolLineStart + "v" + BoolLineEnd

  // ---------------------------------------------------------------------------
  // Character checks by unfolding
  // ---------------------------------------------------------------------------

  /** Every character of `s[i..j]` is of class `cls`. */
  predicate AllIn(s: string, i: nat, j: nat, cls: CharClass)
    requires i <= j <= |s|
    decreases j - i
  {
    i == j || (InClass(s[i], cls) && AllIn(s, i + 1, j, cls))
  }

  lemma {:induction false} AllInRun(s: string, i: nat, j: nat, cls: CharClass)
    requires i <= j <= |s| && AllIn(s, i, j, cls)
    ensures Run(s, i, j, cls)
    decreases j - i
  {
    if i < j {
      AllInRun(s, i + 1, j, cls);
    }
  }

  lemma RunJoin(s: string, i: nat, j: nat, k: nat, cls: CharClass)
    requires Run(s, i, j, cls) && Run(s, j, k, cls)
    ensures Run(s, i, k, cls)
  {
    forall x | i <= x < k ensures InClassAt(s, x, cls) {
      if x < j { assert i <= x < j; } else { assert j <= x < k; }
    }
  }

  /** The values of the numbers the two lines carry. */
  lemma DecimalValues()
    ensures DecimalValue("0") == 0 && DecimalValue("1") == 1 && DecimalValue("64") == 64
    ensures DecimalValue("128") == 128 && DecimalValue("255") == 255
  {
    assert "64"[..1] == "6" && "6"[..0] == "";
    assert "128"[..2] == "12" && "12"[..1] == "1" && "1"[..0] == "";
    assert "255"[..2] == "25" && "25"[..1] == "2" && "2"[..0] == "";
    assert "0"[..0] == "";
  }

  /** A line that starts with a non-space and has no `U` and no `C` is not
      skipped. */
  lemma NotSkipped(s: string)
    requires s != [] && !IsSpace(s[0])
    requires 'U' !in s && 'C' !in s
    ensures !Skipped(s)
  {
    assert !AllSpace(s);
    MissingCharNotContained(s, UserControls, 0);
    MissingCharNotContained(s, CameraControls, 0);
  }

  // ---------------------------------------------------------------------------
  // The integer line
  // ---------------------------------------------------------------------------

  const IntHead := Head(0, 10, 11, 17, 18)
  const IntBounds := Pair(26, 31, 32, 39)
  const IntTail := Pair(47, 58, 59, 67)
  const IntLineMatchAt := IntMatch(IntPrefix(IntHead, 22, 24, IntBounds), IntTail)

  lemma IntLineHead()
    ensures HeadMatch(IntLine, IntHead)
  {
    AllInRun(IntLine, 0, 10, Word);
    AllInRun(IntLine, 10, 11, Space);
    AllInRun(IntLine, 13, 17, Word);
    AllInRun(IntLine, 17, 18, Space);
    assert IntLine[11..13] == "0x";
  }

  lemma IntLineRest()
    ensures IntRestMatch(IntLine, IntLineMatchAt.prefix)
  {
    AllInRun(IntLine, 19, 22, Word);
    AllInRun(IntLine, 23, 24, Space);
    AllInRun(IntLine, 25, 26, Space);
    AllInRun(IntLine, 30, 31, Digit);
    AllInRun(IntLine, 31, 32, Space);
    AllInRun(IntLine, 36, 39, Digit);
    assert IntLine[26..30] == MinKey && IntLine[32..36] == MaxKey;
  }

  lemma IntLineTailMatch()
    ensures Run(IntLine, 39, 47, Dot) && TailMatch(IntLine, IntTail, true)
  {
    AllInRun(IntLine, 39, 47, Dot);
    AllInRun(IntLine, 55, 58, Digit);
    AllInRun(IntLine, 58, 59, Space);
    AllInRun(IntLine, 65, 67, Digit);
    assert IntLine[47..55] == DefaultKey && IntLine[59..65] == ValueKey;
  }

  /** A tail match starts with the `d` of `default=`. */
  lemma NoTailWithoutD(s: string, p: nat, signed: bool)
    requires p >= |s| || s[p] != 'd'
    ensures !TailMatchesAt(s, p, signed)
  {
    forall t: Pair | t.at == p ensures !TailMatch(s, t, signed) {
      if p + |DefaultKey| <= |s| {
        assert s[p + 0] != DefaultKey[0];
      }
    }
  }

  /** No `default=` starts after the one the tail matches. */
  lemma IntLineLastDefault()
    ensures forall p | IntTail.at < p <= |IntLine| :: !TailMatchesAt(IntLine, p, true)
  {
    forall p | IntTail.at < p <= |IntLine| ensures !TailMatchesAt(IntLine, p, true) {
      if p < |IntLine| {
        assert IntLine[p] == IntLineEnd[p - |IntLineStart|];
        assert IntLineEnd[p - |IntLineStart|] in IntLineEnd;
      }
      NoTailWithoutD(IntLine, p, true);
    }
  }

  /** `.*` stops before the line's only `default=`. */
  lemma IntLineTail()
    ensures GreedyTail(IntLine, IntBounds.secondEnd, IntTail, true)
  {
    IntLineTailMatch();
    IntLineLastDefault();
  }

  lemma IntLineMatches()
    ensures IntLineMatch(IntLine, IntLineMatchAt)
  {
    IntLineHead();
    IntLineRest();
    IntLineTail();
  }

  /** The groups of the match, read as `int()` reads them. */
  lemma IntLineFields()
    ensures IntLineMatch(IntLine, IntLineMatchAt)
    ensures IntControl(IntLine, IntLineMatchAt) == Control("brightness", 0, 255, 64, 128)
  {
    IntLineMatches();
    DecimalValues();
    assert IntLine[0..10] == "brightness";
    assert IntLine[30..31] == "0" && IntLine[36..39] == "255";
    assert IntLine[55..58] == "128" && IntLine[65..67] == "64";
  }

  /** The line is not skipped, and its type is `int` with neither `inactive`
      nor `flags=has-payload`. */
  lemma IntLineAccepted()
    ensures IntLineMatch(IntLine, IntLineMatchAt)
    ensures !Skipped(IntLine) && IntAccepted(IntLine, IntTypeGroup(IntLine, IntLineMatchAt))
  {
    IntLineIsInt();
    IntLineActive();
    IntLineNoPayload();
    IntLineNotSkipped();
  }

  lemma IntLineIsInt()
    ensures IntLineMatch(IntLine, IntLineMatchAt)
    ensures IntTypeGroup(IntLine, IntLineMatchAt) == "int"
  {
    IntLineMatches();
    assert IntLine[19..22] == "int";
  }

  /** The line has no `c`, so no `inactive`. */
  lemma IntLineActive()
    ensures !Contains(IntLine, Inactive)
  {
    IntLineLacksLowerC();
    assert Inactive[3] == 'c';
    MissingCharNotContained(IntLine, Inactive, 3);
  }

  lemma IntLineLacksLowerC() ensures 'c' !in IntLine {}
  lemma IntLineLacksY() ensures 'y' !in IntLine {}

  /** The line has no `y`, so no `flags=has-payload`. */
  lemma IntLineNoPayload()
    ensures !Contains(IntLine, HasPayload)
  {
    IntLineLacksY();
    assert HasPayload[12] == 'y';
    MissingCharNotContained(IntLine, HasPayload, 12);
  }

  lemma IntLineNotSkipped()
    ensures !Skipped(IntLine)
  {
    IntLineLacksU();
    IntLineLacksC();
    NotSkipped(IntLine);
  }

  lemma IntLineLacksU() ensures 'U' !in IntLine {}
  lemma IntLineLacksC() ensures 'C' !in IntLine {}

  /** `brightness 0x0098 (int) : min=0 max=255 step=1 default=128 value=64`
      gives the slider `brightness` with range 0 to 255, current value 64 and
      default 128. */
  lemma IntLineControl()
    ensures ParseLine(IntLine) == Some(Control("brightness", 0, 255, 64, 128))
  {
    IntLineFields();
    IntLineAccepted();
    ParseIntLine(IntLine, IntLineMatchAt);
  }

  // ---------------------------------------------------------------------------
  // The boolean line
  // ---------------------------------------------------------------------------

  const BoolHead := Head(0, 23, 24, 30, 31)
  const BoolLineMatchAt := BoolMatch(BoolHead, 38, Pair(40, 49, 50, 57))

  lemma BoolLineHead()
    ensures HeadMatch(BoolLine, BoolHead)
  {
    AllInRun(BoolLine, 0, 8, Word);
    AllInRun(BoolLine, 8, 16, Word);
    AllInRun(BoolLine, 16, 23, Word);
    RunJoin(BoolLine, 0, 8, 16, Word);
    RunJoin(BoolLine, 0, 16, 23, Word);
    AllInRun(BoolLine, 23, 24, Space);
    AllInRun(BoolLine, 26, 30, Word);
    AllInRun(BoolLine, 30, 31, Space);
    assert BoolLine[24..26] == "0x";
  }

  lemma BoolLineRest()
    ensures BoolRestMatch(BoolLine, BoolLineMatchAt)
  {
    AllInRun(BoolLine, 37, 38, Space);
    AllInRun(BoolLine, 39, 40, Space);
    AllInRun(BoolLine, 48, 49, Digit);
    AllInRun(BoolLine, 49, 50, Space);
    AllInRun(BoolLine, 56, 57, Digit);
    assert BoolLine[31..37] == BoolType;
    assert BoolLine[40..48] == DefaultKey && BoolLine[50..56] == ValueKey;
  }

  /** The line has every letter of `inactive` but not the word: its only `v`
      is the one of `value`, six characters after a `u`. */
  lemma BoolLineActive()
    ensures !Contains(BoolLine, Inactive)
  {
    forall i | 0 <= i <= |BoolLine| - |Inactive| ensures !OccursAt(BoolLine, Inactive, i) {
      if i + 6 < |BoolLineStart| {
        assert BoolLine[i + 6] == BoolLineStart[i + 6];
        assert BoolLineStart[i + 6] in BoolLineStart;
        assert BoolLine[i + 6] != Inactive[6];
      } else if i + 6 == |BoolLineStart| {
        assert BoolLine[i] == 'u';
        assert BoolLine[i] != Inactive[0];
      } else {
        assert BoolLine[i + 6] == BoolLineEnd[i + 6 - |BoolLineStart| - 1];
        assert BoolLineEnd[i + 6 - |BoolLineStart| - 1] in BoolLineEnd;
        assert BoolLine[i + 6] != Inactive[6];
      }
    }
  }

  lemma BoolLineMatches()
    ensures BoolLineMatch(BoolLine, BoolLineMatchAt)
  {
    BoolLineHead();
    BoolLineRest();
  }

  /** The groups of the match, read as `int()` reads them. */
  lemma BoolLineFields()
    ensures BoolLineMatch(BoolLine, BoolLineMatchAt)
    ensures BoolControl(BoolLine, BoolLineMatchAt) == Control("white_balance_automatic", 0, 1, 0, 1)
  {
    BoolLineMatches();
    DecimalValues();
    assert BoolLine[0..23] == "white_balance_automatic";
    assert BoolLine[48..49] == "1" && BoolLine[56..57] == "0";
  }

  /** The line is not skipped, and it is tried as a boolean line. */
  lemma BoolLineTried()
    ensures !Skipped(BoolLine) && BoolTried(BoolLine)
  {
    BoolLineRest();
    assert OccursAt(BoolLine, BoolType, 31);
    BoolLineActive();
    BoolLineNotSkipped();
  }

  lemma BoolLineNotSkipped()
    ensures !Skipped(BoolLine)
  {
    BoolLineLacksU();
    BoolLineLacksC();
    NotSkipped(BoolLine);
  }

  lemma BoolLineLacksU() ensures 'U' !in BoolLine {}
  lemma BoolLineLacksC() ensures 'C' !in BoolLine {}

  /** `white_balance_automatic 0x0009 (bool) : default=1 value=0` gives the
      on/off slider `white_balance_automatic`, off, with default 1. */
  lemma BoolLineControl()
    ensures ParseLine(BoolLine) == Some(Control("white_balance_automatic", 0, 1, 0, 1))
  {
    BoolLineFields();
    BoolLineTried();
    ParseBoolLine(BoolLine, BoolLineMatchAt);
  }
}
