/** The integer and boolean patterns of `parse_and_create_controls` as a
    whole, applied with `re.match`: anchored at the start of the line, not at
    its end. Each is a declarative predicate (IntLineMatch, BoolLineMatch) and
    a scanner (MatchInt, MatchBool); the scanner finds a match exactly when the
    predicate has one, and then it finds that one, so each pattern matches a
    line in at most one way. No line matches both patterns. */
module Patterns {
  import opened Text
  import opened Lexemes
  import opened Tails

  // ---------------------------------------------------------------------------
  // The integer-control pattern
  // ---------------------------------------------------------------------------

  /** Positions of the integer pattern up to the max number: the type group
      is `s[head.paren + 1..typeEnd]`, the colon is at `colon` and `bounds` is
      the `min=… max=…` pair. */
  datatype IntPrefix = IntPrefix(head: Head, typeEnd: nat, colon: nat, bounds: Pair)

  /** A match of the integer pattern: its prefix, then `.*` and the tail. */
  datatype IntMatch = IntMatch(prefix: IntPrefix, tail: Pair)

  /** `\((\w+)\)\s*:\s*min=(-?\d+)\s+max=(-?\d+)` from the parenthesis of the head. */
  ghost predicate IntRestMatch(s: string, m: IntPrefix) {
    TypeEndAt(s, m.head.paren + 1, m.typeEnd)
    && ColonAt(s, m.typeEnd + 1, m.colon)
    && BoundsMatch(s, m.colon, m.bounds)
  }

  /** `m` is the match of the integer pattern at the start of `s`. */
  ghost predicate IntLineMatch(s: string, m: IntMatch) {
    HeadMatch(s, m.prefix.head) && IntRestMatch(s, m.prefix)
    && GreedyTail(s, m.prefix.bounds.secondEnd, m.tail, true)
  }

  /** `re.match` of the integer pattern. */
  function MatchInt(s: string): (r: Option<IntMatch>)
    ensures r.Some? ==> var p := r.value.prefix;
      p.head.paren < p.typeEnd < p.colon < p.bounds.at
      && p.bounds.secondEnd <= r.value.tail.at && r.value.tail.secondEnd <= |s|
  {
    match ScanHead(s)
    case None => None
    case Some(h) =>
      match ScanIntRest(s, h)
      case None => None
      case Some(m) =>
        match ScanGreedyTail(s, m.bounds.secondEnd, true)
        case None => None
        case Some(t) => Some(IntMatch(m, t))
  }

  /** The integer pattern after its head, up to the max number. */
  function ScanIntRest(s: string, h: Head): (r: Option<IntPrefix>)
    requires h.paren < |s|
    ensures r.Some? ==> r.value.bounds.secondEnd <= |s|
  {
    match ScanTypeEnd(s, h.paren + 1)
    case NotFound => None
    case Found(te) =>
      match ScanColon(s, te + 1)
      case NotFound => None
      case Found(colon) => ScanBounds(s, h, te, colon)
  }

  /** `\s*min=(-?\d+)\s+max=(-?\d+)` after the colon. */
  function ScanBounds(s: string, h: Head, te: nat, colon: nat): (r: Option<IntPrefix>)
    requires colon < |s|
    ensures r.Some? ==> r.value.bounds.secondEnd <= |s|
  {
    match ScanPair(s, RunEnd(s, colon + 1, Space), MinKey, MaxKey, true)
    case None => None
    case Some(b) => Some(IntPrefix(h, te, colon, b))
  }

  ghost predicate BoundsMatch(s: string, colon: nat, b: Pair) {
    Run(s, colon + 1, b.at, Space) && PairMatch(s, MinKey, MaxKey, b, true)
  }

  lemma ScanBoundsSound(s: string, h: Head, te: nat, colon: nat)
    requires colon < |s| && ScanBounds(s, h, te, colon).Some?
    ensures var m := ScanBounds(s, h, te, colon).value;
      m.head == h && m.typeEnd == te && m.colon == colon && BoundsMatch(s, colon, m.bounds)
  {
    RunEndMaximal(s, colon + 1, Space);
    ScanPairSound(s, RunEnd(s, colon + 1, Space), MinKey, MaxKey, true);
  }

  lemma ScanBoundsComplete(s: string, m: IntPrefix)
    requires m.colon < |s| && BoundsMatch(s, m.colon, m.bounds)
    ensures ScanBounds(s, m.head, m.typeEnd, m.colon) == Some(m)
  {
    assert RunEnd(s, m.colon + 1, Space) == m.bounds.at by {
      OccursAtFirst(s, MinKey, m.bounds.at);
      RunEndAt(s, m.colon + 1, m.bounds.at, Space);
    }
    assert ScanPair(s, m.bounds.at, MinKey, MaxKey, true) == Some(m.bounds) by {
      ScanPairComplete(s, MinKey, MaxKey, m.bounds, true);
    }
    ScanBoundsSteps(s, m);
  }

  lemma ScanBoundsSteps(s: string, m: IntPrefix)
    requires m.colon < |s| && RunEnd(s, m.colon + 1, Space) == m.bounds.at
    requires ScanPair(s, m.bounds.at, MinKey, MaxKey, true) == Some(m.bounds)
    ensures ScanBounds(s, m.head, m.typeEnd, m.colon) == Some(m)
  {
  }

  lemma ScanIntRestSound(s: string, h: Head)
    requires h.paren < |s| && ScanIntRest(s, h).Some?
    ensures ScanIntRest(s, h).value.head == h && IntRestMatch(s, ScanIntRest(s, h).value)
  {
    ScanTypeEndSound(s, h.paren + 1);
    var te := ScanTypeEnd(s, h.paren + 1).pos;
    ScanColonSound(s, te + 1);
    ScanBoundsSound(s, h, te, ScanColon(s, te + 1).pos);
  }

  lemma ScanIntRestComplete(s: string, m: IntPrefix)
    requires m.head.paren < |s| && IntRestMatch(s, m)
    ensures ScanIntRest(s, m.head) == Some(m)
  {
    assert ScanTypeEnd(s, m.head.paren + 1) == Found(m.typeEnd) by {
      ScanTypeEndComplete(s, m.head.paren + 1, m.typeEnd);
    }
    assert ScanColon(s, m.typeEnd + 1) == Found(m.colon) by {
      ScanColonComplete(s, m.typeEnd + 1, m.colon);
    }
    assert ScanBounds(s, m.head, m.typeEnd, m.colon) == Some(m) by {
      ScanBoundsComplete(s, m);
    }
    ScanIntRestSteps(s, m);
  }

  lemma ScanIntRestSteps(s: string, m: IntPrefix)
    requires m.head.paren < |s| && ScanTypeEnd(s, m.head.paren + 1) == Found(m.typeEnd)
    requires ScanColon(s, m.typeEnd + 1) == Found(m.colon)
    requires ScanBounds(s, m.head, m.typeEnd, m.colon) == Some(m)
    ensures ScanIntRest(s, m.head) == Some(m)
  {
    var te := ScanTypeEnd(s, m.head.paren + 1);
    var colon := ScanColon(s, m.typeEnd + 1);
    assert te.pos == m.typeEnd && colon.pos == m.colon;
  }

  /** What the scanner finds is a match of the integer pattern. */
  lemma MatchIntSound(s: string)
    requires MatchInt(s).Some?
    ensures IntLineMatch(s, MatchInt(s).value)
  {
    ScanHeadSound(s);
    var h := ScanHead(s).value;
    ScanIntRestSound(s, h);
    ScanGreedyTailSound(s, ScanIntRest(s, h).value.bounds.secondEnd, true);
  }

  /** The scanner finds the match the pattern describes, and no other. */
  lemma MatchIntComplete(s: string, m: IntMatch)
    requires IntLineMatch(s, m)
    ensures MatchInt(s) == Some(m)
  {
    ScanHeadComplete(s, m.prefix.head);
    ScanIntRestComplete(s, m.prefix);
    ScanGreedyTailComplete(s, m.prefix.bounds.secondEnd, m.tail, true);
  }

  // ---------------------------------------------------------------------------
  // The boolean-control pattern
  // ---------------------------------------------------------------------------

  /** A match of the boolean pattern: its head, the colon after `(bool)` and the
      tail, which here follows the colon directly and has unsigned numbers. */
  datatype BoolMatch = BoolMatch(head: Head, colon: nat, tail: Pair)

  const BoolType := "(bool)"

  /** `\(bool\)\s*:\s*default=(\d+)\s+value=(\d+)` from the parenthesis of the head. */
  ghost predicate BoolRestMatch(s: string, m: BoolMatch) {
    OccursAt(s, BoolType, m.head.paren)
    && ColonAt(s, m.head.paren + |BoolType|, m.colon)
    && BoolTailMatch(s, m.colon, m.tail)
  }

  /** `m` is the match of the boolean pattern at the start of `s`. */
  ghost predicate BoolLineMatch(s: string, m: BoolMatch) {
    HeadMatch(s, m.head) && BoolRestMatch(s, m)
  }

  /** `re.match` of the boolean pattern. */
  function MatchBool(s: string): (r: Option<BoolMatch>)
    ensures r.Some? ==> r.value.head.paren < r.value.colon < r.value.tail.at && r.value.tail.secondEnd <= |s|
  {
    match ScanHead(s)
    case None => None
    case Some(h) => ScanBoolRest(s, h)
  }

  function ScanBoolRest(s: string, h: Head): Option<BoolMatch>
    requires h.paren < |s|
  {
    if !OccursAt(s, BoolType, h.paren) then None
    else match ScanColon(s, h.paren + |BoolType|)
      case NotFound => None
      case Found(colon) => ScanBoolTail(s, h, colon)
  }

  /** `\s*default=(\d+)\s+value=(\d+)` after the colon. */
  function ScanBoolTail(s: string, h: Head, colon: nat): Option<BoolMatch>
    requires colon < |s|
  {
    match ScanTail(s, RunEnd(s, colon + 1, Space), false)
    case None => None
    case Some(t) => Some(BoolMatch(h, colon, t))
  }

  ghost predicate BoolTailMatch(s: string, colon: nat, t: Pair) {
    Run(s, colon + 1, t.at, Space) && TailMatch(s, t, false)
  }

  lemma ScanBoolTailSound(s: string, h: Head, colon: nat)
    requires colon < |s| && ScanBoolTail(s, h, colon).Some?
    ensures var m := ScanBoolTail(s, h, colon).value;
      m.head == h && m.colon == colon && BoolTailMatch(s, colon, m.tail)
  {
    RunEndMaximal(s, colon + 1, Space);
    ScanTailSound(s, RunEnd(s, colon + 1, Space), false);
  }

  lemma ScanBoolTailComplete(s: string, m: BoolMatch)
    requires m.colon < |s| && BoolTailMatch(s, m.colon, m.tail)
    ensures ScanBoolTail(s, m.head, m.colon) == Some(m)
  {
    OccursAtFirst(s, DefaultKey, m.tail.at);
    RunEndAt(s, m.colon + 1, m.tail.at, Space);
    ScanTailComplete(s, m.tail, false);
  }

  lemma ScanBoolRestSound(s: string, h: Head)
    requires h.paren < |s| && ScanBoolRest(s, h).Some?
    ensures ScanBoolRest(s, h).value.head == h && BoolRestMatch(s, ScanBoolRest(s, h).value)
  {
    var colon := ScanColon(s, h.paren + |BoolType|).pos;
    assert OccursAt(s, BoolType, h.paren) && ScanBoolRest(s, h) == ScanBoolTail(s, h, colon);
    ScanColonSound(s, h.paren + |BoolType|);
    ScanBoolTailSound(s, h, colon);
  }

  lemma ScanBoolRestComplete(s: string, m: BoolMatch)
    requires m.head.paren < |s| && BoolRestMatch(s, m)
    ensures ScanBoolRest(s, m.head) == Some(m)
  {
    ScanColonComplete(s, m.head.paren + |BoolType|, m.colon);
    assert ScanBoolRest(s, m.head) == ScanBoolTail(s, m.head, m.colon);
    ScanBoolTailComplete(s, m);
  }

  /** What the scanner finds is a match of the boolean pattern. */
  lemma MatchBoolSound(s: string)
    requires MatchBool(s).Some?
    ensures BoolLineMatch(s, MatchBool(s).value)
  {
    ScanHeadSound(s);
    ScanBoolRestSound(s, ScanHead(s).value);
  }

  /** The scanner finds the match the pattern describes, and no other. */
  lemma MatchBoolComplete(s: string, m: BoolMatch)
    requires BoolLineMatch(s, m)
    ensures MatchBool(s) == Some(m)
  {
    ScanHeadComplete(s, m.head);
    ScanBoolRestComplete(s, m);
  }

  // ---------------------------------------------------------------------------
  // Exclusivity
  // ---------------------------------------------------------------------------

  /** No line matches both patterns: after the common head the integer
      pattern needs `min=` after the colon where the boolean one needs
      `default=`. So the boolean branch, tried only when the integer pattern
      fails, loses nothing by not being tried after it. */
  lemma PatternsExclusive(s: string, mi: IntMatch, mb: BoolMatch)
    requires IntLineMatch(s, mi)
    ensures !BoolLineMatch(s, mb)
  {
    if BoolLineMatch(s, mb) {
      ScanHeadComplete(s, mi.prefix.head);
      ScanHeadComplete(s, mb.head);
      RestsExclusive(s, mi.prefix, mb);
    }
  }

  lemma RestsExclusive(s: string, p: IntPrefix, mb: BoolMatch)
    requires p.head.paren == mb.head.paren && IntRestMatch(s, p)
    ensures !BoolRestMatch(s, mb)
  {
    if BoolRestMatch(s, mb) {
      var c := p.colon;
      assert c == mb.colon by {
        BoolTypeEnd(s, p.head.paren, p.typeEnd);
        RunEndAt(s, p.typeEnd + 1, c, Space);
        RunEndAt(s, p.typeEnd + 1, mb.colon, Space);
      }
      var a, b := p.bounds.at, mb.tail.at;
      assert s[a] == 'm' by { OccursAtFirst(s, MinKey, a); }
      assert s[b] == 'd' by { OccursAtFirst(s, DefaultKey, b); }
      RunEndAt(s, c + 1, a, Space);
      RunEndAt(s, c + 1, b, Space);
      assert false;
    }
  }

  /** Where `(bool)` stands, the `(\w+)\)` of the integer pattern ends at its
      closing parenthesis. */
  lemma BoolTypeEnd(s: string, q: nat, te: nat)
    requires OccursAt(s, BoolType, q) && TypeEndAt(s, q + 1, te)
    ensures te == q + 5
  {
    assert s[q + 5] == ')' by { assert s[q + 5] == BoolType[5]; }
    assert Run(s, q + 1, q + 5, Word) by {
      forall k | q + 1 <= k < q + 5 ensures InClassAt(s, k, Word) {
        assert s[q + (k - q)] == BoolType[k - q];
      }
    }
    RunEndAt(s, q + 1, q + 5, Word);
    RunEndAt(s, q + 1, te, Word);
  }
}
