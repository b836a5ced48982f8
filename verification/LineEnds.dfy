/** When `line_char` comes to an end. Its recursion is followed with a bound on the depth of the calls. */
module LineEnds {
  import opened LineModel
  import opened LineTheorems
  import opened LineProcessor

  /** `line_char` for a printable character, with calls nested at most `depth` deep: a character that
      does not fit is written again on a new line, and a split writes its tail again. */
  function Processed(s: State, g: Glyph, depth: nat): (r: Option<State>)
    requires BreakInLine(s)
    ensures r.Some? ==> BreakInLine(r.value) && |r.value.lines| >= |s.lines|
    decreases depth, 0
  {
    if depth == 0 then None
    else if Forced(s, g.rune) then Some(Append(s, g))
    else
      var m := MarkBreak(s, g.rune);
      if Fits(m, g.rune) then Some(Append(m, g))
      else if Blank(g) then Some(m)
      else if m.end.None? then Processed(Bump(m), g, depth - 1)
      else
        var a := Append(m, g);
        match Replayed(Bump(a), SplitTail(a), depth - 1)
        case None => None
        case Some(t) => Some(t.(lines := t.lines[|a.lines| - 1 := CutRow(Head(a), a.end.value)]))
  }

  function Replayed(s: State, tail: seq<Glyph>, depth: nat): (r: Option<State>)
    requires BreakInLine(s)
    ensures r.Some? ==> BreakInLine(r.value) && |r.value.lines| >= |s.lines|
    decreases depth, |tail| + 1
  {
    if tail == [] then Some(s)
    else
      match Replayed(s, tail[..|tail| - 1], depth)
      case None => None
      case Some(u) => Processed(u, tail[|tail| - 1], depth)
  }

  /** Some depth is enough. */
  ghost predicate Ends(s: State, g: Glyph)
    requires BreakInLine(s)
  {
    exists depth: nat :: Processed(s, g, depth).Some?
  }

  // ---------------------------------------------------------------- where it ends

  lemma {:induction false} EndsOnFreshLine(s: State, g: Glyph, depth: nat)
    requires BreakInLine(s) && s.end.None? && Printable(g.rune) && Placeable(s, g.rune) && !Blank(g) && depth >= 2
    ensures Processed(s, g, depth) == Some(Extend(s, g))
  {
    if !Fits(s, g.rune) {
      FreshLineFits(s, g.rune);
      assert Processed(Bump(s), g, depth - 1) == Some(Append(Bump(s), g));
    }
  }

  lemma {:induction false} ReplayEnds(s: State, tail: seq<Glyph>, depth: nat)
    requires BreakInLine(s) && s.end.None? && AllPlaceable(s, tail) && AllPrintable(tail) && depth >= 2
    requires forall i :: 0 <= i < |tail| ==> !Blank(tail[i])
    ensures Replayed(s, tail, depth) == Some(Refill(s, tail))
    decreases |tail|
  {
    hide Processed, Extend;
    if tail != [] {
      var front, g := tail[..|tail| - 1], tail[|tail| - 1];
      ReplayEnds(s, front, depth);
      RefillContext(s, front);
      assert Placeable(s, g.rune) && Printable(g.rune);
      EndsOnFreshLine(Refill(s, front), g, depth);
    }
  }

  lemma {:induction false} SplitEnds(s: State, g: Glyph, depth: nat)
    requires Inv(s) && Printable(g.rune) && PutSplits(s, g) && AllPlaceable(s, SplitTail(Append(s, g))) && depth >= 3
    ensures Processed(s, g, depth) == Some(Split(Append(s, g)))
  {
    hide Inv, Refill, Split, SplitTail, Width, Overfull, Replayed;
    InvBreak(s);
    var a := Append(s, g);
    PutOverfills(s, g);
    SplitTailIsWord(a);
    ReplayEnds(Bump(a), SplitTail(a), depth - 1);
    CutLater(a, Refill(Bump(a), SplitTail(a)));
  }

  /** A depth of three is enough, and the result is what the model says. */
  lemma {:induction false} PutEnds(s: State, g: Glyph, depth: nat)
    requires Inv(s) && Printable(g.rune) && CanPut(s, g) && depth >= 3
    ensures BreakInLine(s) && Processed(s, g, depth) == Some(Put(s, g))
  {
    hide Split, SplitTail, Width, Inv;
    InvBreak(s);
    PutWhole(s, g);
    if PutSplits(s, g) {
      PutBreaks(s, g);
      SplitEnds(s, g, depth);
    } else if !Fits(s, g.rune) && !Blank(g) {
      EndsOnFreshLine(s, g, depth);
    }
  }

  // ---------------------------------------------------------------- where it does not

  /** A double-width character in front of a single free column starts new lines for ever. */
  lemma {:induction false} NeverOnFreshLine(s: State, g: Glyph, depth: nat)
    requires BreakInLine(s) && s.end.None? && !Fits(s, g.rune) && !Placeable(s, g.rune) && !Blank(g)
    ensures Processed(s, g, depth) == None
    decreases depth
  {
    if depth > 0 {
      assert Head(Bump(s)).cells == [];
      NeverOnFreshLine(Bump(s), g, depth - 1);
    }
  }

  /** The head of a line that is written again has nothing but the single column. */
  lemma {:induction false} NeverReplayed(s: State, tail: seq<Glyph>, k: nat, depth: nat)
    requires BreakInLine(s) && s.end.None? && AllPrintable(tail) && k < |tail| && !Placeable(s, tail[k].rune)
    requires AllPrintable(Head(s).cells) && Head(s).indent == s.indent
    requires forall i :: 0 <= i < |tail| ==> !Blank(tail[i])
    ensures Replayed(s, tail, depth) == None
    decreases |tail|
  {
    hide Processed;
    var front, g := tail[..|tail| - 1], tail[|tail| - 1];
    if k < |tail| - 1 {
      assert front[k] == tail[k];
      NeverReplayed(s, front, k, depth);
    } else if Replayed(s, front, depth).Some? {
      ReplayedState(s, front, depth);
      var u := Replayed(s, front, depth).value;
      WidthAtLeastLength(Head(u).cells);
      NeverOnFreshLine(u, g, depth);
    }
  }

  /** Writing a word without a recorded break leaves none, and stays in the current indentation. */
  lemma {:induction false} ReplayedState(s: State, tail: seq<Glyph>, depth: nat)
    requires BreakInLine(s) && s.end.None? && AllPrintable(tail) && Replayed(s, tail, depth).Some?
    requires AllPrintable(Head(s).cells) && Head(s).indent == s.indent
    requires forall i :: 0 <= i < |tail| ==> !Blank(tail[i])
    ensures var u := Replayed(s, tail, depth).value;
      u.end.None? && (u.lim, u.indent) == (s.lim, s.indent) && Head(u).indent == s.indent && AllPrintable(Head(u).cells)
    decreases |tail|
  {
    hide Processed;
    if tail != [] {
      ReplayedState(s, tail[..|tail| - 1], depth);
      ProcessedState(Replayed(s, tail[..|tail| - 1], depth).value, tail[|tail| - 1], depth);
    }
  }

  lemma {:induction false} ProcessedState(s: State, g: Glyph, depth: nat)
    requires BreakInLine(s) && s.end.None? && Printable(g.rune) && !Blank(g) && Processed(s, g, depth).Some?
    requires AllPrintable(Head(s).cells) && Head(s).indent == s.indent
    ensures var u := Processed(s, g, depth).value;
      u.end.None? && (u.lim, u.indent) == (s.lim, s.indent) && Head(u).indent == s.indent && AllPrintable(Head(u).cells)
    decreases depth
  {
    if !Fits(s, g.rune) {
      ProcessedState(Bump(s), g, depth - 1);
    }
  }

  lemma {:induction false} SplitNeverEnds(s: State, g: Glyph, depth: nat)
    requires Inv(s) && Printable(g.rune) && PutSplits(s, g) && !AllPlaceable(s, SplitTail(Append(s, g)))
    ensures Processed(s, g, depth) == None
  {
    hide Inv, SplitTail, Width, Overfull, Replayed;
    InvBreak(s);
    var a := Append(s, g);
    PutOverfills(s, g);
    SplitTailIsWord(a);
    if depth > 0 {
      var k :| 0 <= k < |SplitTail(a)| && !Placeable(s, SplitTail(a)[k].rune);
      NeverReplayed(Bump(a), SplitTail(a), k, depth - 1);
    }
  }

  /** `line_char` ends for a printable character exactly when it fits or is a space, or, without a
      recorded break, is not a double-width character in front of a single free column, or, with one,
      no character that is written again is. It then does what the model says. */
  lemma {:induction false} LineCharEndsIff(s: State, g: Glyph)
    requires Inv(s) && Printable(g.rune)
    ensures BreakInLine(s) && (Ends(s, g) <==> CanPut(s, g))
    ensures forall depth: nat :: Processed(s, g, depth).Some? ==> CanPut(s, g)
    ensures CanPut(s, g) ==> Processed(s, g, 3) == Some(Put(s, g))
  {
    hide Processed, Put, SplitTail, Inv;
    InvBreak(s);
    if CanPut(s, g) {
      PutEnds(s, g, 3);
    } else {
      forall depth: nat ensures Processed(s, g, depth) == None {
        if s.end.None? {
          NeverOnFreshLine(s, g, depth);
        } else {
          SplitNeverEnds(s, g, depth);
        }
      }
    }
  }

  // ---------------------------------------------------------------- an input without an end

  const A: Glyph := Glyph(Rune(0x61, 1), 0)
  const B: Glyph := Glyph(Rune(0x62, 1), 0)
  const GAP: Glyph := Glyph(SPACE, 0)
  const WIDE: Glyph := Glyph(DOUBLE, 0)

  /** A line of five columns with a double-width character; the indentation has been raised to four. */
  const RAISED: State := State([Row([A, GAP] + [WIDE, B], false, 0)], Some(Break(0, false)), 5, 4, 0, [])

  lemma {:induction false} RaisedFacts()
    ensures Inv(RAISED) && BreakInLine(RAISED) && Width(Head(RAISED).cells) == 5
  {
    var cells := Head(RAISED).cells;
    assert cells[1..] == [GAP, WIDE, B];
    WidthConcat([A, GAP], [WIDE, B]);
    WidthConcat([A], [GAP]);
    WidthConcat([WIDE], [B]);
    assert [A, GAP] == [A] + [GAP] && [WIDE, B] == [WIDE] + [B];
    WidthOfOne(A);
    WidthOfOne(GAP);
    WidthOfOne(WIDE);
    WidthOfOne(B);
  }

  lemma {:induction false} DropOne(g: Glyph, rest: seq<Glyph>)
    requires Blank(g) && rest != [] && !Blank(rest[0])
    ensures DropSpaces([g] + rest) == rest
  {
    assert ([g] + rest)[1..] == rest;
  }

  /** The next `b` breaks the line, and the double-width character is to be written again in front of a
      single free column: a narrow character does not end. */
  lemma {:induction false} RaisedIndentNeverEnds()
    ensures Inv(RAISED) && BreakInLine(RAISED) && Placeable(RAISED, B.rune) && !Ends(RAISED, B)
  {
    hide Width, Processed;
    RaisedFacts();
    var a := Append(RAISED, B);
    assert Head(a).cells[1..] == [GAP] + [WIDE, B, B];
    DropOne(GAP, [WIDE, B, B]);
    assert SplitTail(a)[0] == WIDE && !Placeable(RAISED, WIDE.rune);
    LineCharEndsIff(RAISED, B);
  }
}
