/** The `default=(N)\s+value=(N)` tail of both patterns, and the greedy `.*`
    that precedes it in the integer pattern. */
module Tails {
  import opened Text
  import opened Lexemes

  ghost predicate TailMatch(s: string, t: Pair, signed: bool) {
    PairMatch(s, DefaultKey, ValueKey, t, signed)
  }

  ghost predicate TailMatchesAt(s: string, p: nat, signed: bool) {
    exists t: Pair :: t.at == p && TailMatch(s, t, signed)
  }

  function ScanTail(s: string, p: nat, signed: bool): (r: Option<Pair>)
    requires p <= |s|
    ensures r.Some? ==> r.value.at == p && r.value.secondEnd <= |s|
  {
    ScanPair(s, p, DefaultKey, ValueKey, signed)
  }

  lemma ScanTailSound(s: string, p: nat, signed: bool)
    requires p <= |s| && ScanTail(s, p, signed).Some?
    ensures ScanTail(s, p, signed).value.at == p && TailMatch(s, ScanTail(s, p, signed).value, signed)
  {
    ScanPairSound(s, p, DefaultKey, ValueKey, signed);
  }

  lemma ScanTailComplete(s: string, t: Pair, signed: bool)
    requires t.at <= |s| && TailMatch(s, t, signed)
    ensures ScanTail(s, t.at, signed) == Some(t)
  {
    ScanPairComplete(s, DefaultKey, ValueKey, t, signed);
  }

  lemma NoTailAt(s: string, p: nat, signed: bool)
    requires p <= |s| && ScanTail(s, p, signed).None?
    ensures !TailMatchesAt(s, p, signed)
  {
    forall t: Pair | t.at == p && TailMatch(s, t, signed) ensures false {
      ScanTailComplete(s, t, signed);
    }
  }

  /** The tail that starts last among the positions `lo..hi`. */
  function LastTail(s: string, lo: nat, hi: nat, signed: bool): (r: Option<Pair>)
    requires lo <= hi <= |s|
    ensures r.Some? ==> lo <= r.value.at <= hi && r.value.secondEnd <= |s|
    decreases hi - lo
  {
    match ScanTail(s, hi, signed)
    case Some(t) => Some(t)
    case None => if hi == lo then None else LastTail(s, lo, hi - 1, signed)
  }

  lemma {:induction false} LastTailSound(s: string, lo: nat, hi: nat, signed: bool)
    requires lo <= hi <= |s|
    ensures var r := LastTail(s, lo, hi, signed);
      && (r.Some? ==> lo <= r.value.at <= hi && TailMatch(s, r.value, signed))
      && (r.Some? ==> forall p | r.value.at < p <= hi :: !TailMatchesAt(s, p, signed))
      && (r.None? ==> forall p | lo <= p <= hi :: !TailMatchesAt(s, p, signed))
    decreases hi - lo
  {
    if ScanTail(s, hi, signed).Some? {
      ScanTailSound(s, hi, signed);
    } else {
      NoTailAt(s, hi, signed);
      if hi > lo {
        LastTailSound(s, lo, hi - 1, signed);
      }
    }
  }

  /** `.*` followed by the tail, from position `from`: the `.*` crosses no
      newline and is greedy, so no later position up to the next newline starts
      a tail; the last `default=… value=…` of the line is the one matched. */
  ghost predicate GreedyTail(s: string, from: nat, t: Pair, signed: bool) {
    from <= t.at && Run(s, from, t.at, Dot)
    && TailMatch(s, t, signed)
    && forall p | t.at < p <= |s| && Run(s, from, p, Dot) :: !TailMatchesAt(s, p, signed)
  }

  function ScanGreedyTail(s: string, from: nat, signed: bool): (r: Option<Pair>)
    requires from <= |s|
    ensures r.Some? ==> from <= r.value.at && r.value.secondEnd <= |s|
  {
    LastTail(s, from, RunEnd(s, from, Dot), signed)
  }

  /** No run of `.` from `from` goes past the end of the longest one. */
  lemma DotRunBound(s: string, from: nat, p: nat)
    requires from <= |s| && Run(s, from, p, Dot)
    ensures p <= RunEnd(s, from, Dot)
  {
    var hi := RunEnd(s, from, Dot);
    RunEndMaximal(s, from, Dot);
    if p > hi {
      assert false;
    }
  }

  lemma ScanGreedyTailSound(s: string, from: nat, signed: bool)
    requires from <= |s| && ScanGreedyTail(s, from, signed).Some?
    ensures GreedyTail(s, from, ScanGreedyTail(s, from, signed).value, signed)
  {
    var hi := RunEnd(s, from, Dot);
    RunEndMaximal(s, from, Dot);
    LastTailSound(s, from, hi, signed);
    var t := ScanGreedyTail(s, from, signed).value;
    forall p | t.at < p <= |s| && Run(s, from, p, Dot) ensures !TailMatchesAt(s, p, signed) {
      DotRunBound(s, from, p);
    }
  }

  lemma ScanGreedyTailComplete(s: string, from: nat, t: Pair, signed: bool)
    requires from <= |s| && GreedyTail(s, from, t, signed)
    ensures ScanGreedyTail(s, from, signed) == Some(t)
  {
    var hi := RunEnd(s, from, Dot);
    DotRunBound(s, from, t.at);
    LastTailSound(s, from, hi, signed);
    assert TailMatchesAt(s, t.at, signed);
    var r := LastTail(s, from, hi, signed);
    var u := r.value;
    assert Run(s, from, u.at, Dot) by {
      RunEndMaximal(s, from, Dot);
    }
    assert TailMatchesAt(s, u.at, signed);
    assert u.at == t.at;
    ScanTailComplete(s, t, signed);
    ScanTailComplete(s, u, signed);
  }
}
