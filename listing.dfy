/** A whole `v4l2-ctl --list-ctrls` listing: the controls its lines yield, in
    order, and the `controls` map that `create_slider_control` fills with them,
    keyed by name, a later control replacing an earlier one of the same name. */
module Listing {
  import opened Text
  import opened ControlLines

  /** What one line contributes: its control, or nothing. */
  function Yield(line: string): seq<Control> {
    match ParseLine(line)
    case Some(c) => [c]
    case None => []
  }

  /** The controls the lines yield, in line order. */
  function ParseLines(lines: seq<string>): (cs: seq<Control>)
    ensures |cs| <= |lines|
    decreases |lines|
  {
    if lines == [] then [] else ParseLines(lines[..|lines| - 1]) + Yield(lines[|lines| - 1])
  }

  /** The controls of a listing: its lines are the pieces between newlines.
      Each control carries the name its line matched. */
  function ParseListing(output: string): (cs: seq<Control>)
    ensures forall c | c in cs :: c.name != []
  {
    ParseLinesSources(Split(output, '\n'));
    ParseLines(Split(output, '\n'))
  }

  /** One more line adds what that line yields. */
  lemma ParseLinesSnoc(lines: seq<string>, l: string)
    ensures ParseLines(lines + [l]) == ParseLines(lines) + Yield(l)
  {
    assert (lines + [l])[..|lines|] == lines;
  }

  /** Taking one more line of a listing adds what that line yields. */
  lemma ParseLinesStep(lines: seq<string>, i: nat)
    requires i < |lines|
    ensures ParseLines(lines[..i + 1]) == ParseLines(lines[..i]) + Yield(lines[i])
  {
    assert lines[..i + 1][..i] == lines[..i];
  }

  lemma {:induction false} ParseLinesAppend(a: seq<string>, b: seq<string>)
    ensures ParseLines(a + b) == ParseLines(a) + ParseLines(b)
    decreases |b|
  {
    if b == [] {
      assert a + b == a;
    } else {
      var init, last := b[..|b| - 1], b[|b| - 1];
      assert init + [last] == b;
      assert (a + init) + [last] == a + b;
      ParseLinesAppend(a, init);
      ParseLinesSnoc(a + init, last);
      ParseLinesSnoc(init, last);
      Associate(ParseLines(a), ParseLines(init), Yield(last));
    }
  }

  /** Controls come out in the order of the lines that yield them. */
  lemma ParseListingAppend(a: string, b: string)
    requires '\n' !in a
    ensures ParseListing(a + "\n" + b) == ParseListing(a) + ParseListing(b)
  {
    SplitAtSeparator(a, b, '\n');
    ParseLinesAppend(Split(a, '\n'), Split(b, '\n'));
  }

  /** Every control comes from a line of the listing that yields it. */
  lemma {:induction false} ParseLinesSources(lines: seq<string>)
    ensures forall c | c in ParseLines(lines) :: exists l | l in lines :: ParseLine(l) == Some(c)
    decreases |lines|
  {
    if lines != [] {
      var init := lines[..|lines| - 1];
      ParseLinesSources(init);
      assert forall l | l in init :: l in lines;
    }
  }

  /** Lines that are all headers or blank yield no control. */
  lemma {:induction false} ParseLinesSkipped(lines: seq<string>)
    requires forall l | l in lines :: Skipped(l)
    ensures ParseLines(lines) == []
    decreases |lines|
  {
    if lines != [] {
      assert lines[|lines| - 1] in lines;
      assert forall l | l in lines[..|lines| - 1] :: l in lines;
      ParseLinesSkipped(lines[..|lines| - 1]);
    }
  }

  // ---------------------------------------------------------------------------
  // The controls map
  // ---------------------------------------------------------------------------

  /** `m` after `m[c.name] = c` for each control in turn. */
  function Updated(m: map<string, Control>, cs: seq<Control>): (r: map<string, Control>)
    ensures m.Keys <= r.Keys
    decreases |cs|
  {
    if cs == [] then m else Updated(m, cs[..|cs| - 1])[cs[|cs| - 1].name := cs[|cs| - 1]]
  }

  lemma UpdatedStep(m: map<string, Control>, cs: seq<Control>, c: Control)
    ensures Updated(m, cs + [c]) == Updated(m, cs)[c.name := c]
  {
    assert (cs + [c])[..|cs|] == cs;
  }

  /** Adding two runs of controls is adding them joined. */
  lemma {:induction false} UpdatedAppend(m: map<string, Control>, a: seq<Control>, b: seq<Control>)
    ensures Updated(m, a + b) == Updated(Updated(m, a), b)
    decreases |b|
  {
    if b == [] {
      assert a + b == a;
    } else {
      var n := |b| - 1;
      assert (a + b)[..|a + b| - 1] == a + b[..n];
      UpdatedAppend(m, a, b[..n]);
    }
  }

  /** The `controls` map after `controls.clear()` and the controls added. */
  function ControlMap(cs: seq<Control>): map<string, Control> {
    Updated(map[], cs)
  }

  function Names(cs: seq<Control>): set<string> {
    set c | c in cs :: c.name
  }

  /** The map holds the names it had and the names of the controls added. */
  lemma {:induction false} UpdatedKeys(m: map<string, Control>, cs: seq<Control>)
    ensures Updated(m, cs).Keys == m.Keys + Names(cs)
    decreases |cs|
  {
    if cs != [] {
      var init := cs[..|cs| - 1];
      UpdatedKeys(m, init);
      assert Names(cs) == Names(init) + {cs[|cs| - 1].name} by {
        assert forall c | c in cs :: c in init || c == cs[|cs| - 1];
        assert forall c | c in init :: c in cs;
      }
    }
  }

  /** A name maps to the last control added with that name. */
  lemma {:induction false} UpdatedLastWins(m: map<string, Control>, cs: seq<Control>, i: nat)
    requires i < |cs| && forall j | i < j < |cs| :: cs[j].name != cs[i].name
    ensures cs[i].name in Updated(m, cs) && Updated(m, cs)[cs[i].name] == cs[i]
    decreases |cs|
  {
    if i < |cs| - 1 {
      UpdatedLastWins(m, cs[..|cs| - 1], i);
    }
  }

  /** Names no added control has keep their old entry. */
  lemma {:induction false} UpdatedKeepsOthers(m: map<string, Control>, cs: seq<Control>, name: string)
    requires name in m && name !in Names(cs)
    ensures name in Updated(m, cs) && Updated(m, cs)[name] == m[name]
    decreases |cs|
  {
    if cs != [] {
      var init := cs[..|cs| - 1];
      assert cs[|cs| - 1] in cs;
      assert Names(init) <= Names(cs) by {
        assert forall c | c in init :: c in cs;
      }
      UpdatedKeepsOthers(m, init, name);
    }
  }
}
