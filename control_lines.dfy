/** One line of `v4l2-ctl --list-ctrls` output and the control record it
    yields, following `parse_and_create_controls`: header and blank lines are
    skipped; a line the integer pattern matches yields a slider when its type
    group is `int` and it mentions neither `inactive` nor `flags=has-payload`,
    and nothing otherwise; only a line the integer pattern does not match is
    tried as a boolean control, which needs `(bool)` in the line, no
    `inactive`, and the boolean pattern to match. */
module ControlLines {
  import opened Text
  import opened Lexemes
  import opened Tails
  import opened Patterns

  /** What `create_slider_control` receives: the control's name, the slider's
      range and position, and the value its reset button restores. */
  datatype Control = Control(name: string, minValue: int, maxValue: int, current: int, defaultValue: int)

  const UserControls := "User Controls"
  const CameraControls := "Camera Controls"
  const Inactive := "inactive"
  const HasPayload := "flags=has-payload"

  /** Lines passed over before any pattern is tried. */
  predicate Skipped(line: string) {
    Strip(line) == [] || Contains(line, UserControls) || Contains(line, CameraControls)
  }

  // ---------------------------------------------------------------------------
  // The groups of a match
  // ---------------------------------------------------------------------------

  function IntName(s: string, m: IntMatch): string
    requires IntLineMatch(s, m)
  {
    s[m.prefix.head.nameStart..m.prefix.head.nameEnd]
  }

  /** The `(\w+)` type group of the integer pattern. */
  function IntTypeGroup(s: string, m: IntMatch): string
    requires IntLineMatch(s, m)
  {
    s[m.prefix.head.paren + 1..m.prefix.typeEnd]
  }

  /** The value of the first number of a pair. */
  function FirstValue(s: string, key1: string, key2: string, p: Pair, signed: bool): int
    requires PairMatch(s, key1, key2, p, signed)
  {
    NumberValue(s, p.at + |key1|, p.firstEnd, signed)
  }

  /** The value of the second number of a pair. */
  function SecondValue(s: string, key1: string, key2: string, p: Pair, signed: bool): int
    requires PairMatch(s, key1, key2, p, signed)
  {
    NumberValue(s, p.secondAt + |key2|, p.secondEnd, signed)
  }

  /** The slider an accepted integer line creates. */
  function IntControl(s: string, m: IntMatch): (c: Control)
    requires IntLineMatch(s, m)
    ensures c.name != []
  {
    var b, t := m.prefix.bounds, m.tail;
    Control(IntName(s, m),
            FirstValue(s, MinKey, MaxKey, b, true), SecondValue(s, MinKey, MaxKey, b, true),
            SecondValue(s, DefaultKey, ValueKey, t, true), FirstValue(s, DefaultKey, ValueKey, t, true))
  }

  /** The on/off slider a boolean line creates. */
  function BoolControl(s: string, m: BoolMatch): (c: Control)
    requires BoolLineMatch(s, m)
    ensures c.name != [] && c.minValue == 0 && c.maxValue == 1
  {
    Control(s[m.head.nameStart..m.head.nameEnd], 0, 1,
            SecondValue(s, DefaultKey, ValueKey, m.tail, false),
            FirstValue(s, DefaultKey, ValueKey, m.tail, false))
  }

  /** The integer match is turned into a slider. */
  predicate IntAccepted(line: string, typeGroup: string) {
    typeGroup == "int" && !Contains(line, Inactive) && !Contains(line, HasPayload)
  }

  /** The boolean pattern is tried. */
  predicate BoolTried(line: string) {
    Contains(line, BoolType) && !Contains(line, Inactive)
  }

  // ---------------------------------------------------------------------------
  // One line
  // ---------------------------------------------------------------------------

  /** The control one line of the listing yields, if any. */
  function ParseLine(line: string): (r: Option<Control>)
    ensures r.Some? ==> !Skipped(line) && r.value.name != []
  {
    if Skipped(line) then None
    else match MatchInt(line)
      case Some(m) =>
        MatchIntSound(line);
        if IntAccepted(line, IntTypeGroup(line, m)) then Some(IntControl(line, m)) else None
      case None =>
        if !BoolTried(line) then None
        else match MatchBool(line)
          case Some(mb) => MatchBoolSound(line); Some(BoolControl(line, mb))
          case None => None
  }

  /** What a line yields, stated over the patterns rather than the scanners. */
  ghost predicate LineYields(line: string, r: Option<Control>) {
    if Skipped(line) then r == None
    else if exists m :: IntLineMatch(line, m) then
      forall m | IntLineMatch(line, m) ::
        r == if IntAccepted(line, IntTypeGroup(line, m)) then Some(IntControl(line, m)) else None
    else if BoolTried(line) && exists mb :: BoolLineMatch(line, mb) then
      forall mb | BoolLineMatch(line, mb) :: r == Some(BoolControl(line, mb))
    else r == None
  }

  /** The parser does what the patterns and the checks around them say, on
      every line; in particular it never fails. */
  lemma ParseLineMeetsPatterns(line: string)
    ensures LineYields(line, ParseLine(line))
  {
    if Skipped(line) {
    } else if mi :| IntLineMatch(line, mi) {
      MatchIntComplete(line, mi);
      forall m | IntLineMatch(line, m)
        ensures ParseLine(line) == if IntAccepted(line, IntTypeGroup(line, m)) then Some(IntControl(line, m)) else None
      {
        MatchIntComplete(line, m);
      }
    } else {
      NoIntMatch(line);
      if BoolTried(line) && exists mb :: BoolLineMatch(line, mb) {
        forall mb | BoolLineMatch(line, mb) ensures ParseLine(line) == Some(BoolControl(line, mb)) {
          MatchBoolComplete(line, mb);
        }
      } else if BoolTried(line) && MatchBool(line).Some? {
        MatchBoolSound(line);
        assert false;
      }
    }
  }

  lemma NoIntMatch(line: string)
    requires forall m :: !IntLineMatch(line, m)
    ensures MatchInt(line).None?
  {
    if MatchInt(line).Some? {
      MatchIntSound(line);
      assert false;
    }
  }

  /** An `(int)` line with neither `inactive` nor `flags=has-payload` yields its
      slider. */
  lemma ParseIntLine(line: string, m: IntMatch)
    requires !Skipped(line) && IntLineMatch(line, m)
    requires IntAccepted(line, IntTypeGroup(line, m))
    ensures ParseLine(line) == Some(IntControl(line, m))
  {
    MatchIntComplete(line, m);
  }

  /** A line the integer pattern matches but that is not an accepted `int`
      control yields nothing: it is not retried as a boolean control. */
  lemma ParseRejectedIntLine(line: string, m: IntMatch)
    requires !Skipped(line) && IntLineMatch(line, m)
    requires !IntAccepted(line, IntTypeGroup(line, m))
    ensures ParseLine(line) == None
  {
    MatchIntComplete(line, m);
  }

  /** A `(bool)` line without `inactive` that the boolean pattern matches
      yields an on/off slider. */
  lemma ParseBoolLine(line: string, mb: BoolMatch)
    requires !Skipped(line) && BoolTried(line) && BoolLineMatch(line, mb)
    ensures ParseLine(line) == Some(BoolControl(line, mb))
  {
    if MatchInt(line).Some? {
      MatchIntSound(line);
      PatternsExclusive(line, MatchInt(line).value, mb);
      assert false;
    }
    MatchBoolComplete(line, mb);
  }
}
