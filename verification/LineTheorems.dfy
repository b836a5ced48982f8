/** What every run of the line processor keeps: the shape of the text around the break, every
    visible glyph in order and in its style, and the width limit. */
module LineTheorems {
  import opened LineModel

  // ---------------------------------------------------------------- sequences of glyphs

  lemma {:induction false} NonBlankConcat(a: seq<Glyph>, b: seq<Glyph>)
    ensures NonBlank(a + b) == NonBlank(a) + NonBlank(b)
  {
    if b == [] {
      assert a + b == a;
    } else {
      assert (a + b)[..|a + b| - 1] == a + b[..|b| - 1];
      NonBlankConcat(a, b[..|b| - 1]);
    }
  }

  lemma {:induction false} NonBlankSnoc(text: seq<Glyph>)
    requires text != []
    ensures NonBlank(text) == NonBlank(text[..|text| - 1]) + NonBlank([text[|text| - 1]])
  {
    NonBlankConcat(text[..|text| - 1], [text[|text| - 1]]);
    assert text == text[..|text| - 1] + [text[|text| - 1]];
  }

  lemma {:induction false} WidthConcat(a: seq<Glyph>, b: seq<Glyph>)
    ensures Width(a + b) == Width(a) + Width(b)
  {
    if b == [] {
      assert a + b == a;
    } else {
      assert (a + b)[..|a + b| - 1] == a + b[..|b| - 1];
      WidthConcat(a, b[..|b| - 1]);
    }
  }

  lemma {:induction false} WidthAtLeastLength(cells: seq<Glyph>)
    requires AllPrintable(cells)
    ensures Width(cells) >= |cells|
  {
    if cells != [] {
      WidthAtLeastLength(cells[..|cells| - 1]);
    }
  }

  lemma {:induction false} ConcatAssociates<T>(a: seq<T>, b: seq<T>, c: seq<T>)
    ensures a + b + c == a + (b + c)
  {
  }

  lemma {:induction false} VisibleConcat(a: seq<Row>, b: seq<Row>)
    ensures Visible(a + b) == Visible(a) + Visible(b)
  {
    if b == [] {
      assert a + b == a;
    } else {
      var front := b[..|b| - 1];
      assert (a + b)[..|a + b| - 1] == a + front;
      VisibleConcat(a, front);
      ConcatAssociates(Visible(a), Visible(front), NonBlank(Kept(b[|b| - 1])));
    }
  }

  /** Dropping the leading spaces of a text drops a prefix that shows nothing. */
  lemma {:induction false} DropSpacesSuffix(cells: seq<Glyph>)
    ensures |DropSpaces(cells)| <= |cells|
    ensures DropSpaces(cells) == cells[|cells| - |DropSpaces(cells)|..]
    ensures forall i :: 0 <= i < |cells| - |DropSpaces(cells)| ==> Blank(cells[i])
    ensures DropSpaces(cells) != [] ==> !Blank(DropSpaces(cells)[0])
    decreases |cells|
  {
    if cells != [] && Blank(cells[0]) {
      DropSpacesSuffix(cells[1..]);
      var d := DropSpaces(cells);
      assert d == DropSpaces(cells[1..]);
      forall i | 0 <= i < |cells| - |d| ensures Blank(cells[i]) {
        if i > 0 { assert cells[i] == cells[1..][i - 1]; }
      }
    }
  }

  lemma {:induction false} BlanksAreInvisible(cells: seq<Glyph>)
    requires forall i :: 0 <= i < |cells| ==> Blank(cells[i])
    ensures NonBlank(cells) == []
    ensures Width(cells) == |cells|
  {
    if cells != [] {
      BlanksAreInvisible(cells[..|cells| - 1]);
      assert Blank(cells[|cells| - 1]);
    }
  }

  lemma {:induction false} DropSpacesKeepsVisible(cells: seq<Glyph>)
    ensures NonBlank(DropSpaces(cells)) == NonBlank(cells)
    ensures Width(cells) == Width(DropSpaces(cells)) + |cells| - |DropSpaces(cells)|
  {
    DropSpacesSuffix(cells);
    var n := |cells| - |DropSpaces(cells)|;
    assert cells == cells[..n] + DropSpaces(cells);
    BlanksAreInvisible(cells[..n]);
    NonBlankConcat(cells[..n], DropSpaces(cells));
    WidthConcat(cells[..n], DropSpaces(cells));
    assert [] + NonBlank(DropSpaces(cells)) == NonBlank(DropSpaces(cells));
  }

  /** Behind a run of spaces only the word is left. */
  lemma {:induction false} DropSpacesLeavesWord(cells: seq<Glyph>)
    requires SpacesThenWord(cells)
    requires cells != [] && !Blank(cells[|cells| - 1])
    ensures DropSpaces(cells) != []
    ensures forall i :: 0 <= i < |DropSpaces(cells)| ==> !Blank(DropSpaces(cells)[i])
  {
    DropSpacesSuffix(cells);
    var d := DropSpaces(cells);
    var n := |cells| - |d|;
    if d == [] {
      assert false;
    }
    forall i | 0 <= i < |d| ensures !Blank(d[i]) {
      assert d[0] == cells[n] && d[i] == cells[n + i];
    }
  }

  // ---------------------------------------------------------------- writing without splitting

  /** `t` is `s` with more text at its end: finished rows are untouched, new rows carry no hyphen. */
  predicate Grows(s: State, t: State)
    requires s.lines != []
  {
    && (t.lim, t.indent, t.style, t.stack) == (s.lim, s.indent, s.style, s.stack)
    && |t.lines| >= |s.lines|
    && (forall i :: 0 <= i < |s.lines| - 1 ==> t.lines[i] == s.lines[i])
    && Head(s).cells <= t.lines[|s.lines| - 1].cells
    && t.lines[|s.lines| - 1].hyphen == Head(s).hyphen
    && t.lines[|s.lines| - 1].indent == Head(s).indent
    && (forall i :: |s.lines| <= i < |t.lines| ==> !t.lines[i].hyphen && t.lines[i].indent == s.indent)
  }

  lemma {:induction false} AppendVisible(s: State, g: Glyph)
    requires s.lines != [] && !Head(s).hyphen
    ensures Visible(Append(s, g).lines) == Visible(s.lines) + NonBlank([g])
  {
    var front := s.lines[..|s.lines| - 1];
    assert Append(s, g).lines[..|s.lines| - 1] == front;
    NonBlankConcat(Head(s).cells, [g]);
    ConcatAssociates(Visible(front), NonBlank(Head(s).cells), NonBlank([g]));
  }

  lemma {:induction false} BumpVisible(s: State)
    ensures Visible(Bump(s).lines) == Visible(s.lines)
  {
    assert Bump(s).lines[..|s.lines|] == s.lines;
  }

  /** A new line has room for the character, which is why `line_char` calls itself only once more. */
  lemma {:induction false} FreshLineFits(s: State, r: Rune)
    requires r.width >= 1 && Placeable(s, r)
    ensures Fits(Bump(s), r)
  {
    assert Head(Bump(s)).cells == [];
  }

  predicate AllRowsPrintable(lines: seq<Row>) {
    forall i :: 0 <= i < |lines| ==> AllPrintable(lines[i].cells)
  }

  lemma {:induction false} ExtendFacts(s: State, g: Glyph)
    requires s.lines != [] && !Head(s).hyphen
    ensures Grows(s, Extend(s, g)) && !Head(Extend(s, g)).hyphen
    ensures Visible(Extend(s, g).lines) == Visible(s.lines) + NonBlank([g])
  {
    if Fits(s, g.rune) {
      AppendVisible(s, g);
    } else {
      BumpVisible(s);
      AppendVisible(Bump(s), g);
    }
  }

  lemma {:induction false} ExtendPrintable(s: State, g: Glyph)
    requires s.lines != [] && Printable(g.rune) && AllRowsPrintable(s.lines)
    ensures AllRowsPrintable(Extend(s, g).lines)
  {
  }

  lemma {:induction false} GrowsTransitive(s: State, u: State, t: State)
    requires s.lines != [] && u.lines != []
    requires Grows(s, u) && Grows(u, t)
    ensures Grows(s, t)
  {
  }

  lemma {:induction false} RefillGrows(s: State, tail: seq<Glyph>)
    requires s.lines != [] && !Head(s).hyphen
    ensures Grows(s, Refill(s, tail)) && !Head(Refill(s, tail)).hyphen
  {
    if tail == [] {
    } else {
      var u := Refill(s, tail[..|tail| - 1]);
      RefillGrows(s, tail[..|tail| - 1]);
      ExtendFacts(u, tail[|tail| - 1]);
      GrowsTransitive(s, u, Extend(u, tail[|tail| - 1]));
    }
  }

  lemma {:induction false} RefillVisible(s: State, tail: seq<Glyph>)
    requires s.lines != [] && !Head(s).hyphen
    ensures Visible(Refill(s, tail).lines) == Visible(s.lines) + NonBlank(tail)
  {
    hide Visible, Extend;
    if tail == [] {
    } else {
      var front, g := tail[..|tail| - 1], tail[|tail| - 1];
      RefillVisible(s, front);
      RefillGrows(s, front);
      var u := Refill(s, front);
      ExtendFacts(u, g);
      NonBlankSnoc(tail);
      ConcatAssociates(Visible(s.lines), NonBlank(front), NonBlank([g]));
      assert Refill(s, tail) == Extend(u, g);
    }
  }

  lemma {:induction false} RefillPrintable(s: State, tail: seq<Glyph>)
    requires s.lines != [] && AllPrintable(tail) && AllRowsPrintable(s.lines)
    ensures AllRowsPrintable(Refill(s, tail).lines)
  {
    if tail == [] {
    } else {
      RefillPrintable(s, tail[..|tail| - 1]);
      ExtendPrintable(Refill(s, tail[..|tail| - 1]), tail[|tail| - 1]);
    }
  }

  lemma {:induction false} RefillFits(s: State, tail: seq<Glyph>)
    requires s.lines != [] && !Head(s).hyphen
    requires s.lim >= 3
    requires AllPrintable(tail) && AllPlaceable(s, tail)
    requires forall i :: 0 <= i < |s.lines| ==> RowFits(s.lim, s.lines[i])
    ensures var t := Refill(s, tail);
      forall i :: 0 <= i < |t.lines| ==> RowFits(s.lim, t.lines[i])
    ensures Refill(s, tail).lim == s.lim && Refill(s, tail).indent == s.indent
  {
    if tail == [] {
    } else {
      var front, g := tail[..|tail| - 1], tail[|tail| - 1];
      RefillFits(s, front);
      var u := Refill(s, front);
      assert Placeable(s, g.rune);
      FreshLineFits(u, g.rune);
    }
  }

  /** On a new line the first glyph stays on that line. */
  lemma {:induction false} RefillFirst(s: State, tail: seq<Glyph>)
    requires s.lines != [] && Head(s).cells == [] && tail != []
    requires Fits(s, tail[0].rune)
    ensures |Refill(s, tail).lines| >= |s.lines|
    ensures [tail[0]] <= Refill(s, tail).lines[|s.lines| - 1].cells
  {
    if |tail| == 1 {
      assert tail[..0] == [];
      assert Refill(s, tail) == Append(s, tail[0]);
    } else {
      RefillFirst(s, tail[..|tail| - 1]);
    }
  }

  // ---------------------------------------------------------------- splitting

  /** A line about to be split: it overflows, and behind the break stand spaces and then a word. */
  predicate Overfull(s: State) {
    && Inv(s)
    && s.end.Some?
    && s.end.value.at + 1 < |Head(s).cells|
    && SpacesThenWord(Head(s).cells[s.end.value.at + 1..])
    && !Blank(Head(s).cells[|Head(s).cells| - 1])
  }

  lemma {:induction false} HeadHasNoHyphen(s: State)
    requires s.lines != [] && HyphenOk(s.lines)
    ensures !Head(s).hyphen
  {
  }

  lemma {:induction false} SplitTailIsWord(s: State)
    requires Overfull(s)
    ensures SplitTail(s) != []
    ensures AllPrintable(SplitTail(s))
    ensures forall i :: 0 <= i < |SplitTail(s)| ==> !Blank(SplitTail(s)[i])
  {
    var rest := Head(s).cells[s.end.value.at + 1..];
    assert rest[|rest| - 1] == Head(s).cells[|Head(s).cells| - 1];
    DropSpacesLeavesWord(rest);
    DropSpacesSuffix(rest);
    var n := |rest| - |SplitTail(s)|;
    forall i | 0 <= i < |SplitTail(s)|
      ensures Printable(SplitTail(s)[i].rune)
    {
      assert SplitTail(s)[i] == rest[n + i] == Head(s).cells[s.end.value.at + 1 + n + i];
      assert Printable(Head(s).cells[s.end.value.at + 1 + n + i].rune);
    }
  }

  lemma {:induction false} CutVisible(s: State)
    requires BreakInLine(s) && s.end.Some? && s.end.value.at + 1 < |Head(s).cells|
    requires !Head(s).hyphen
    ensures Visible(CutHead(s).lines)
         == Visible(s.lines[..|s.lines| - 1]) + NonBlank(Head(s).cells[..s.end.value.at + 1])
  {
    hide NonBlank;
    assert CutHead(s).lines[..|s.lines| - 1] == s.lines[..|s.lines| - 1];
    assert Kept(Head(CutHead(s))) == Head(s).cells[..s.end.value.at + 1];
  }

  lemma {:induction false} UncutVisible(s: State)
    requires BreakInLine(s) && s.end.Some? && s.end.value.at + 1 < |Head(s).cells|
    requires !Head(s).hyphen
    ensures Visible(s.lines)
         == Visible(s.lines[..|s.lines| - 1]) + NonBlank(Head(s).cells[..s.end.value.at + 1])
          + NonBlank(Head(s).cells[s.end.value.at + 1..])
  {
    hide NonBlank;
    var cells, front := Head(s).cells, s.lines[..|s.lines| - 1];
    var kept, rest := cells[..s.end.value.at + 1], cells[s.end.value.at + 1..];
    assert cells == kept + rest;
    NonBlankConcat(kept, rest);
    ConcatAssociates(Visible(front), NonBlank(kept), NonBlank(rest));
  }

  lemma {:induction false} SplitVisible(s: State)
    requires BreakInLine(s) && s.end.Some? && s.end.value.at + 1 < |Head(s).cells|
    requires !Head(s).hyphen
    ensures Visible(Split(s).lines) == Visible(s.lines)
  {
    hide Visible, NonBlank, Refill;
    CutVisible(s);
    UncutVisible(s);
    BumpVisible(CutHead(s));
    RefillVisible(Bump(CutHead(s)), SplitTail(s));
    DropSpacesKeepsVisible(Head(s).cells[s.end.value.at + 1..]);
  }

  /** The character behind a soft hyphen opens the new line. */
  lemma {:induction false} FirstOfTail(s: State)
    requires Overfull(s) && s.end.value.hyphenated && !Forced(s, SPACE)
    ensures SplitTail(s) != [] && SplitTail(s)[0] == Head(s).cells[s.end.value.at + 1]
  {
    var rest := Head(s).cells[s.end.value.at + 1..];
    assert rest[0] == Head(s).cells[s.end.value.at + 1];
  }

  lemma {:induction false} SplitInv(s: State)
    requires Overfull(s) && !Forced(s, SPACE) && AllPlaceable(s, SplitTail(s))
    ensures Inv(Split(s))
    ensures Split(s).end.None? && (Split(s).style, Split(s).stack) == (s.style, s.stack)
  {
    HeadHasNoHyphen(s);
    SplitTailIsWord(s);
    var tail, b := SplitTail(s), Bump(CutHead(s));
    assert AllRowsPrintable(b.lines);
    RefillPrintable(b, tail);
    RefillGrows(b, tail);
    FreshLineFits(CutHead(s), tail[0].rune);
    RefillFirst(b, tail);
    var t := Refill(b, tail);
    SplitHyphens(s, t);
  }

  lemma {:induction false} SplitHyphens(s: State, t: State)
    requires Overfull(s) && !Forced(s, SPACE) && Grows(Bump(CutHead(s)), t)
    requires SplitTail(s) != [] && !Blank(SplitTail(s)[0])
    requires [SplitTail(s)[0]] <= t.lines[|s.lines|].cells
    ensures HyphenOk(t.lines)
  {
    var n := |s.lines|;
    var cut := CutHead(s);
    forall i | 0 <= i < |t.lines| && t.lines[i].hyphen
      ensures i + 1 < |t.lines| && Hyphenates(t.lines[i], t.lines[i + 1])
    {
      if i < n - 2 {
        assert t.lines[i] == s.lines[i] && t.lines[i + 1] == s.lines[i + 1];
        assert Hyphenates(s.lines[i], s.lines[i + 1]);
      } else if i == n - 2 {
        assert t.lines[i] == s.lines[i] && t.lines[i + 1] == Head(cut);
        assert Hyphenates(s.lines[i], Head(s)) && Head(cut).cells[0] == Head(s).cells[0];
      } else {
        assert i == n - 1;
        assert t.lines[n].cells[0] == SplitTail(s)[0];
        FirstOfTail(s);
      }
    }
  }

  lemma {:induction false} CutRowFits(s: State)
    requires Overfull(s) && Head(s).indent < s.lim
    requires Width(Head(s).cells[..|Head(s).cells| - 1]) + Head(s).indent <= s.lim
    requires s.end.value.hyphenated ==>
      Width(Head(s).cells[..s.end.value.at + 1]) + 1 + Head(s).indent <= s.lim
    ensures RowFits(s.lim, CutRow(Head(s), s.end.value))
  {
    hide Width, SpacesThenWord, BreakOk, HyphenOk;
    var h, at := Head(s).cells, s.end.value.at;
    var kept, gone := h[..at + 1], h[at + 1..|h| - 1];
    assert h[..|h| - 1] == kept + gone;
    WidthConcat(kept, gone);
    assert AllPrintable(gone);
    WidthAtLeastLength(gone);
    var hyphen := Glyph(HYPHEN, h[at + 1].style);
    WidthConcat(kept, [hyphen]);
    WidthOfOne(hyphen);
  }

  lemma {:induction false} WidthOfOne(g: Glyph)
    ensures Width([g]) == g.rune.width
  {
    assert Width([g]) == Width([]) + g.rune.width;
  }

  lemma {:induction false} SplitFits(s: State)
    requires Overfull(s) && s.lim >= 3 && AllPlaceable(s, SplitTail(s))
    requires Head(s).indent < s.lim
    requires FitsInv(s.(lines := s.lines[|s.lines| - 1 := Head(s).(cells := Head(s).cells[..|Head(s).cells| - 1])]))
    ensures FitsInv(Split(s))
  {
    hide Width, DropSpaces, Refill;
    HeadHasNoHyphen(s);
    SplitTailIsWord(s);
    var h, at := Head(s).cells, s.end.value.at;
    var before := s.(lines := s.lines[|s.lines| - 1 := Head(s).(cells := h[..|h| - 1])]);
    assert RowFits(s.lim, Head(before));
    assert h[..|h| - 1][..at + 1] == h[..at + 1];
    CutRowFits(s);
    var cut := CutHead(s);
    forall i | 0 <= i < |cut.lines| ensures RowFits(s.lim, cut.lines[i]) {
      if i < |cut.lines| - 1 { assert cut.lines[i] == before.lines[i]; }
    }
    BumpedRowsFit(cut);
    RefillFits(Bump(cut), SplitTail(s));
  }

  lemma {:induction false} BumpedRowsFit(s: State)
    requires forall i :: 0 <= i < |s.lines| ==> RowFits(s.lim, s.lines[i])
    ensures forall i :: 0 <= i < |Bump(s).lines| ==> RowFits(s.lim, Bump(s).lines[i])
  {
    assert Width([]) == 0;
  }

  // ---------------------------------------------------------------- one character

  lemma {:induction false} AppendHyphens(s: State, g: Glyph)
    requires s.lines != [] && HyphenOk(s.lines)
    ensures HyphenOk(Append(s, g).lines)
  {
    var t := Append(s, g);
    forall i | 0 <= i < |t.lines| && t.lines[i].hyphen
      ensures i + 1 < |t.lines| && Hyphenates(t.lines[i], t.lines[i + 1])
    {
      assert Hyphenates(s.lines[i], s.lines[i + 1]);
    }
  }

  lemma {:induction false} AppendInv(s: State, g: Glyph)
    requires Inv(s) && Printable(g.rune)
    requires Blank(g) && !Forced(s, SPACE) && s.end.Some? ==>
      forall i :: s.end.value.at < i < |Head(s).cells| ==> Blank(Head(s).cells[i])
    requires Blank(g) && !Forced(s, SPACE) && s.end.Some? && s.end.value.hyphenated ==>
      s.end.value.at + 1 < |Head(s).cells|
    ensures Inv(Append(s, g))
  {
    hide HyphenOk;
    var t := Append(s, g);
    AppendHyphens(s, g);
    assert AllRowsPrintable(t.lines);
    if s.end.Some? && !Forced(s, SPACE) {
      var at := s.end.value.at;
      assert Head(t).cells[at + 1..] == Head(s).cells[at + 1..] + [g];
    }
  }

  lemma {:induction false} MarkBreakInv(s: State, r: Rune)
    requires Inv(s)
    ensures Inv(MarkBreak(s, r))
  {
    if IsSpace(r) && EndsWithWord(s) {
      var m := MarkBreak(s, r);
      assert Head(m).cells[m.end.value.at + 1..] == [];
      assert BreakOk(m);
    }
  }

  /** Once a space is about to be written, only spaces stand behind the recorded break. */
  lemma {:induction false} OnlySpacesBehindBreak(s: State, i: nat)
    requires Inv(s) && !Forced(s, SPACE)
    requires MarkBreak(s, SPACE).end.Some?
    requires MarkBreak(s, SPACE).end.value.at < i < |Head(s).cells|
    ensures Blank(Head(s).cells[i])
  {
    var cells, at := Head(s).cells, s.end.value.at;
    var rest := cells[at + 1..];
    assert Blank(rest[|rest| - 1]) && rest[i - at - 1] == cells[i];
  }

  lemma {:induction false} InvBreak(s: State)
    requires Inv(s)
    ensures BreakInLine(s) && BreakInLine(Bump(s))
  {
  }

  lemma {:induction false} BumpInv(s: State)
    requires Inv(s)
    ensures Inv(Bump(s))
  {
    assert AllRowsPrintable(Bump(s).lines);
  }

  /** The situation in which a printable character makes the line split. */
  predicate PutSplits(s: State, g: Glyph)
    requires s.lines != []
  {
    !Fits(s, g.rune) && !Blank(g) && s.end.Some?
  }

  lemma {:induction false} PutWhole(s: State, g: Glyph)
    requires BreakInLine(s)
    ensures Forced(s, g.rune) ==> Put(s, g) == Append(s, g)
    ensures !Forced(s, g.rune) && Fits(MarkBreak(s, g.rune), g.rune) ==> Put(s, g) == Append(MarkBreak(s, g.rune), g)
    ensures !Fits(s, g.rune) && Blank(g) ==> Put(s, g) == MarkBreak(s, g.rune)
    ensures !Fits(s, g.rune) && !Blank(g) && s.end.None? ==> Put(s, g) == Append(Bump(s), g)
  {
    hide Split, Width;
  }

  lemma {:induction false} PutBreaks(s: State, g: Glyph)
    requires BreakInLine(s) && PutSplits(s, g)
    ensures BreakInLine(Append(s, g)) && Append(s, g).end == s.end
    ensures s.end.value.at + 1 < |Head(Append(s, g)).cells|
    ensures Put(s, g) == Split(Append(s, g))
  {
    hide Split, Width;
  }

  lemma {:induction false} PutOverfills(s: State, g: Glyph)
    requires Inv(s) && Printable(g.rune) && PutSplits(s, g)
    ensures Overfull(Append(s, g)) && !Forced(Append(s, g), SPACE)
  {
    AppendInv(s, g);
    var at := s.end.value.at;
    assert Head(Append(s, g)).cells[at + 1..] == Head(s).cells[at + 1..] + [g];
  }

  /** What `line_char` keeps: the recorded break is a word's end, behind it stand spaces and then a
      word, and the style in force comes back unchanged. */
  lemma {:induction false} PutInv(s: State, g: Glyph)
    requires Inv(s) && Printable(g.rune) && CanPut(s, g)
    ensures Inv(Put(s, g))
    ensures (Put(s, g).style, Put(s, g).stack) == (s.style, s.stack)
    ensures (Put(s, g).lim, Put(s, g).indent) == (s.lim, s.indent)
  {
    if Forced(s, g.rune) {
      AppendInv(s, g);
    } else {
      var m := MarkBreak(s, g.rune);
      MarkBreakInv(s, g.rune);
      if Fits(m, g.rune) {
        forall i | Blank(g) && m.end.Some? && m.end.value.at < i < |Head(m).cells|
          ensures Blank(Head(m).cells[i])
        {
          OnlySpacesBehindBreak(s, i);
        }
        AppendInv(m, g);
      } else if Blank(g) {
      } else if m.end.None? {
        BumpInv(m);
        AppendInv(Bump(m), g);
      } else {
        PutOverfills(s, g);
        SplitInv(Append(s, g));
        RefillGrows(Bump(CutHead(Append(s, g))), SplitTail(Append(s, g)));
      }
    }
  }

  /** Nothing visible is lost, doubled or moved by one character. */
  lemma {:induction false} PutVisible(s: State, g: Glyph)
    requires Inv(s) && Printable(g.rune) && CanPut(s, g)
    ensures Visible(Put(s, g).lines) == Visible(s.lines) + NonBlank([g])
  {
    HeadHasNoHyphen(s);
    AppendVisible(s, g);
    if !Fits(MarkBreak(s, g.rune), g.rune) && !Forced(s, g.rune) {
      if Blank(g) {
      } else if s.end.None? {
        BumpVisible(s);
        AppendVisible(Bump(s), g);
      } else {
        SplitVisible(Append(s, g));
      }
    } else if !Forced(s, g.rune) {
      AppendVisible(MarkBreak(s, g.rune), g);
    }
  }

  lemma {:induction false} AppendFits(s: State, g: Glyph)
    requires s.lines != [] && FitsInv(s) && Fits(s, g.rune) && s.lim >= 3 && BreakInLine(s)
    ensures FitsInv(Append(s, g))
  {
    var t := Append(s, g);
    assert RowFits(s.lim, Head(s));
    if s.end.Some? {
      assert Head(t).cells[..s.end.value.at + 1] == Head(s).cells[..s.end.value.at + 1];
    }
  }

  /** With a limit of at least three columns every row stays within it. */
  lemma {:induction false} PutFits(s: State, g: Glyph)
    requires Inv(s) && FitsInv(s) && Printable(g.rune) && CanPut(s, g) && s.lim >= 3
    ensures FitsInv(Put(s, g))
  {
    hide Split, Width;
    if Forced(s, g.rune) {
      AppendFits(s, g);
    } else {
      var m := MarkBreak(s, g.rune);
      if Fits(m, g.rune) {
        AppendFits(m, g);
      } else if Blank(g) {
      } else if m.end.None? {
        FreshLineFits(m, g.rune);
        AppendFits(Bump(m), g);
      } else {
        PutOverfills(s, g);
        var a := Append(s, g);
        assert Head(a).cells[..|Head(a).cells| - 1] == Head(s).cells;
        assert a.lines[|a.lines| - 1 := Head(a).(cells := Head(s).cells)] == s.lines;
        SplitFits(a);
      }
    }
  }

  // ---------------------------------------------------------------- whole runs

  lemma {:induction false} PutAllKeeps(s: State, text: seq<Glyph>)
    requires Inv(s) && AllPrintable(text) && CanPutAll(s, text)
    ensures Inv(PutAll(s, text))
    ensures (PutAll(s, text).style, PutAll(s, text).stack) == (s.style, s.stack)
    ensures (PutAll(s, text).lim, PutAll(s, text).indent) == (s.lim, s.indent)
  {
    if text == [] {
    } else {
      PutAllKeeps(s, text[..|text| - 1]);
      PutInv(PutAll(s, text[..|text| - 1]), text[|text| - 1]);
    }
  }

  lemma {:induction false} PutAllVisible(s: State, text: seq<Glyph>)
    requires Inv(s) && AllPrintable(text) && CanPutAll(s, text)
    ensures Visible(PutAll(s, text).lines) == Visible(s.lines) + NonBlank(text)
  {
    hide Put, Visible;
    if text == [] {
    } else {
      var front, g := text[..|text| - 1], text[|text| - 1];
      PutAllVisible(s, front);
      PutAllKeeps(s, front);
      PutVisible(PutAll(s, front), g);
      NonBlankSnoc(text);
      ConcatAssociates(Visible(s.lines), NonBlank(front), NonBlank([g]));
    }
  }

  lemma {:induction false} PutAllFits(s: State, text: seq<Glyph>)
    requires Inv(s) && AllPrintable(text) && CanPutAll(s, text)
    requires FitsInv(s) && s.lim >= 3
    ensures FitsInv(PutAll(s, text))
  {
    if text == [] {
    } else {
      PutAllFits(s, text[..|text| - 1]);
      PutAllKeeps(s, text[..|text| - 1]);
      PutFits(PutAll(s, text[..|text| - 1]), text[|text| - 1]);
    }
  }

  lemma {:induction false} SoftHyphenKeeps(s: State)
    requires Inv(s)
    ensures Inv(SoftHyphen(s))
    ensures FitsInv(s) ==> FitsInv(SoftHyphen(s))
  {
    var t := SoftHyphen(s);
    if t != s {
      var cells := Head(s).cells;
      assert cells[t.end.value.at + 1..] == [];
      assert cells[..t.end.value.at + 1] == cells;
      assert BreakOk(t);
    }
  }

  lemma {:induction false} PrintedShows(s: State, r: Rune)
    requires s.lines != []
    ensures AllPrintable(Printed(s, r))
    ensures NonBlank(Printed(s, r)) == if Printable(r) && !IsSpace(r) then [Glyph(r, s.style)] else []
  {
    if r.code == TAB {
      BlanksAreInvisible(Printed(s, r));
    }
  }

  lemma {:induction false} BlanksCanBePut(s: State, text: seq<Glyph>)
    requires BreakInLine(s) && forall i :: 0 <= i < |text| ==> Blank(text[i])
    ensures CanPutAll(s, text)
  {
    hide Put;
    if text != [] { BlanksCanBePut(s, text[..|text| - 1]); }
  }

  lemma {:induction false} PrintedCanBePut(s: State, r: Rune)
    requires BreakInLine(s) && CanFeed(s, r)
    ensures CanPutAll(s, Printed(s, r))
  {
    hide Put, CanPut;
    var text := Printed(s, r);
    if r.code == TAB {
      BlanksCanBePut(s, text);
    } else if Printable(r) {
      assert text[..0] == [];
      assert CanPutAll(s, text[..0]) && PutAll(s, text[..0]) == s;
    }
  }

  lemma {:induction false} FeedKeeps(s: State, r: Rune)
    requires Inv(s) && CanFeed(s, r)
    ensures Inv(Feed(s, r))
    ensures (Feed(s, r).style, Feed(s, r).stack) == (s.style, s.stack)
    ensures (Feed(s, r).lim, Feed(s, r).indent) == (s.lim, s.indent)
    ensures Visible(Feed(s, r).lines)
         == Visible(s.lines) + if Printable(r) && !IsSpace(r) then [Glyph(r, s.style)] else []
    ensures FitsInv(s) && s.lim >= 3 ==> FitsInv(Feed(s, r))
  {
    if r.code == NEWLINE {
      BumpInv(s);
      BumpVisible(s);
    } else if r.code == SOFT_HYPHEN {
      SoftHyphenKeeps(s);
    } else {
      PrintedShows(s, r);
      PrintedCanBePut(s, r);
      PutAllKeeps(s, Printed(s, r));
      PutAllVisible(s, Printed(s, r));
      if FitsInv(s) && s.lim >= 3 { PutAllFits(s, Printed(s, r)); }
    }
  }

  predicate AllRowsFit(s: State) {
    forall i :: 0 <= i < |s.lines| ==> RowFits(s.lim, s.lines[i])
  }

  lemma {:induction false} DoKeeps(s: State, e: Event)
    requires Inv(s) && Legal(s, e)
    ensures Inv(Do(s, e)) && Do(s, e).lim == s.lim
    ensures FitsInv(s) && s.lim >= 3 ==> FitsInv(Do(s, e))
  {
    match e
    case Char(r) => FeedKeeps(s, r);
    case Push(a) =>
    case Pop =>
    case Indent(n) =>
  }

  lemma {:induction false} DoShows(s: State, e: Event)
    requires Inv(s) && Legal(s, e) && s.style == OrAll(s.stack)
    ensures Do(s, e).style == OrAll(Do(s, e).stack)
    ensures Do(s, e).stack == StackStep(s.stack, e)
    ensures Visible(Do(s, e).lines) == Visible(s.lines) + Shown(s.style, e)
  {
    if e.Char? { FeedKeeps(s, e.rune); }
  }

  lemma {:induction false} RunKeepsInv(s: State, events: seq<Event>)
    requires Inv(s) && LegalRun(s, events)
    ensures Inv(Run(s, events)) && Run(s, events).lim == s.lim
    ensures FitsInv(s) && s.lim >= 3 ==> FitsInv(Run(s, events))
  {
    if events == [] {
    } else {
      RunKeepsInv(s, events[..|events| - 1]);
      DoKeeps(Run(s, events[..|events| - 1]), events[|events| - 1]);
    }
  }

  /** The main theorem on runs. Whatever is written, with whatever styles and indentations:
      the visible glyphs of all rows, without inserted hyphens, are the visible characters handed
      in, in order, each in the style that was in force; and from three columns on no row, hyphen
      included, exceeds the limit. */
  lemma {:induction false} RunKeeps(s: State, events: seq<Event>)
    requires Inv(s) && LegalRun(s, events) && s.style == OrAll(s.stack)
    ensures Inv(Run(s, events)) && Run(s, events).style == OrAll(Run(s, events).stack)
    ensures Run(s, events).stack == StackAfter(s.stack, events)
    ensures Visible(Run(s, events).lines) == Visible(s.lines) + Handed(s.stack, events)
    ensures FitsInv(s) && s.lim >= 3 ==> AllRowsFit(Run(s, events))
  {
    hide Visible, Do, OrAll;
    RunKeepsInv(s, events);
    if events == [] {
    } else {
      var front, e := events[..|events| - 1], events[|events| - 1];
      RunKeeps(s, front);
      RunKeepsInv(s, front);
      DoShows(Run(s, front), e);
      ConcatAssociates(Visible(s.lines), Handed(s.stack, front), Shown(Run(s, front).style, e));
    }
  }

  lemma {:induction false} StartInv(lim: nat, indent: nat)
    ensures Inv(Start(lim, indent)) && FitsInv(Start(lim, indent))
    ensures Visible(Start(lim, indent).lines) == []
  {
    var s := Start(lim, indent);
    assert s.lines == [Row([], false, indent)];
    assert s.lines[..0] == [];
  }

  // ---------------------------------------------------------------- tabs

  /** A tab reaches to the end of the gap that the line above has at this place, but not further than four
      columns; without such a gap it is four spaces. */
  lemma {:induction false} TabReachesGap(s: State)
    requires s.lines != []
    ensures var n, from := TabSpaces(s), |Head(s).cells|;
      if |s.lines| >= 2 && IsGap(s.lines[|s.lines| - 2].cells, from) then 1 <= n && IsRun(s.lines[|s.lines| - 2].cells, from, n, 4)
      else n == 4
  {
    if |s.lines| >= 2 {
      RunOfGaps(s.lines[|s.lines| - 2].cells, |Head(s).cells|, TAB_WIDTH);
    }
  }

  predicate IsGap(cells: seq<Glyph>, k: nat) {
    k < |cells| && IsWideWhitespace(cells[k].rune)
  }

  /** From `from` on there are `n` gaps, up to `most`, and no more. */
  predicate IsRun(cells: seq<Glyph>, from: nat, n: nat, most: nat) {
    && n <= most
    && (forall k :: from <= k < from + n ==> IsGap(cells, k))
    && (n < most ==> !IsGap(cells, from + n))
  }

  lemma {:induction false} RunOfGaps(cells: seq<Glyph>, from: nat, most: nat)
    ensures IsRun(cells, from, WhitespaceRun(cells, from, most), most)
    decreases most
  {
    if most > 0 && IsGap(cells, from) {
      RunOfGaps(cells, from + 1, most - 1);
    }
  }

  // ---------------------------------------------------------------- line feeds

  /** How many line feeds a run hands in. */
  function LineFeeds(events: seq<Event>): nat {
    if events == [] then 0
    else
      var e := events[|events| - 1];
      LineFeeds(events[..|events| - 1]) + if e.Char? && e.rune.code == NEWLINE then 1 else 0
  }

  lemma {:induction false} RefillOnlyAdds(s: State, tail: seq<Glyph>)
    requires s.lines != []
    ensures |Refill(s, tail).lines| >= |s.lines|
    decreases |tail|
  {
    hide Fits;
    if tail != [] { RefillOnlyAdds(s, tail[..|tail| - 1]); }
  }

  lemma {:induction false} PutOnlyAdds(s: State, g: Glyph)
    requires BreakInLine(s)
    ensures |Put(s, g).lines| >= |s.lines|
  {
    hide Refill, Width, Put, SplitTail;
    PutWhole(s, g);
    if PutSplits(s, g) {
      PutBreaks(s, g);
      var a := Append(s, g);
      RefillOnlyAdds(Bump(CutHead(a)), SplitTail(a));
    }
  }

  lemma {:induction false} PutAllOnlyAdds(s: State, text: seq<Glyph>)
    requires BreakInLine(s)
    ensures |PutAll(s, text).lines| >= |s.lines|
    decreases |text|
  {
    hide Put;
    if text != [] {
      PutAllOnlyAdds(s, text[..|text| - 1]);
      PutOnlyAdds(PutAll(s, text[..|text| - 1]), text[|text| - 1]);
    }
  }

  /** Every line feed starts a line. */
  lemma {:induction false} LineFeedsStartLines(s: State, events: seq<Event>)
    requires BreakInLine(s)
    ensures |Run(s, events).lines| >= |s.lines| + LineFeeds(events)
    decreases |events|
  {
    hide PutAll;
    if events != [] {
      var u, e := Run(s, events[..|events| - 1]), events[|events| - 1];
      LineFeedsStartLines(s, events[..|events| - 1]);
      if e.Char? { PutAllOnlyAdds(u, Printed(u, e.rune)); }
    }
  }

  // ---------------------------------------------------------------- where the limit does not hold

  const DOUBLE: Rune := Rune(0x4E2D, 2)
  const NARROW: Rune := Rune(0x61, 1)

  lemma {:induction false} PutOne(s: State, g: Glyph)
    requires BreakInLine(s)
    ensures PutAll(s, [g]) == Put(s, g)
  {
    assert [g][..0] == [];
  }

  lemma {:induction false} RunOne(s: State, e: Event)
    requires BreakInLine(s)
    ensures Run(s, [e]) == Do(s, e)
    ensures LegalRun(s, [e]) == Legal(s, e)
  {
    assert [e][..0] == [];
    assert LegalRun(s, []);
  }

  lemma {:induction false} RunConcat(s: State, a: seq<Event>, b: seq<Event>)
    requires BreakInLine(s)
    ensures Run(s, a + b) == Run(Run(s, a), b)
  {
    hide Do;
    if b == [] {
      assert a + b == a;
    } else {
      assert (a + b)[..|a + b| - 1] == a + b[..|b| - 1];
      RunConcat(s, a, b[..|b| - 1]);
    }
  }

  lemma {:induction false} LegalConcat(s: State, a: seq<Event>, b: seq<Event>)
    requires BreakInLine(s)
    ensures LegalRun(s, a + b) <==> LegalRun(s, a) && LegalRun(Run(s, a), b)
  {
    hide Run, Legal;
    if b == [] {
      assert a + b == a;
    } else {
      var front := b[..|b| - 1];
      assert (a + b)[..|a + b| - 1] == a + front;
      LegalConcat(s, a, front);
      RunConcat(s, a, front);
    }
  }

  /** A limit of one or two columns does not bind: `line_char` appends a character that is as wide
      as the limit without looking at the line, so two double-width characters overflow it. */
  lemma {:induction false} NarrowLimitOverflows(lim: nat)
    requires 1 <= lim <= 2
    ensures LegalRun(Start(lim, 0), [Char(DOUBLE), Char(DOUBLE)])
    ensures !AllRowsWithin(Run(Start(lim, 0), [Char(DOUBLE), Char(DOUBLE)]))
  {
    hide Run, LegalRun, Feed, Width;
    var s, e, g := Start(lim, 0), Char(DOUBLE), Glyph(DOUBLE, 0);
    assert s.lines == [Row([], false, 0)];
    var t := Append(s, g);
    ForcedFeed(s, DOUBLE);
    ForcedFeed(t, DOUBLE);
    RunOne(s, e);
    RunOne(t, e);
    assert [e] + [e] == [e, e];
    RunConcat(s, [e], [e]);
    LegalConcat(s, [e], [e]);
    assert Head(Append(t, g)).cells == [g] + [g];
    WidthConcat([g], [g]);
    WidthOfOne(g);
    assert !RowWithin(lim, Append(t, g).lines[0]);
  }

  lemma {:induction false} ForcedFeed(s: State, r: Rune)
    requires BreakInLine(s) && Printable(r) && Forced(s, r)
    ensures Feed(s, r) == Append(s, Glyph(r, s.style))
  {
    PutOne(s, Glyph(r, s.style));
  }

  predicate AllRowsWithin(s: State) {
    forall i :: 0 <= i < |s.lines| ==> RowWithin(s.lim, s.lines[i])
  }

  /** The rows that keep `RowFits` are within the limit exactly when none of them begins behind it, or at
      it with a character. */
  lemma {:induction false} RowsWithinIff(s: State)
    requires Inv(s) && FitsInv(s) && s.lim >= 3
    ensures AllRowsWithin(s) <==>
      forall i :: 0 <= i < |s.lines| ==>
        s.lines[i].indent < s.lim || (s.lines[i].indent == s.lim && s.lines[i].cells == [])
  {
    hide Width, BreakOk, HyphenOk;
    forall i | 0 <= i < |s.lines|
      ensures RowWithin(s.lim, s.lines[i]) <==>
        s.lines[i].indent < s.lim || (s.lines[i].indent == s.lim && s.lines[i].cells == [])
    {
      assert RowFits(s.lim, s.lines[i]);
      WidthAtLeastLength(s.lines[i].cells);
      NoWidth();
    }
  }

  lemma {:induction false} NoWidth()
    ensures Width([]) == 0
  {
  }

  /** No line begins behind this indentation. */
  predicate IndentsOk(s: State, most: nat) {
    s.indent <= most && forall i :: 0 <= i < |s.lines| ==> s.lines[i].indent <= most
  }

  predicate IndentsAtMost(events: seq<Event>, most: nat) {
    forall i :: 0 <= i < |events| && events[i].Indent? ==> events[i].columns <= most
  }

  lemma {:induction false} RefillIndents(s: State, tail: seq<Glyph>, most: nat)
    requires s.lines != [] && IndentsOk(s, most)
    ensures IndentsOk(Refill(s, tail), most)
    decreases |tail|
  {
    hide Fits;
    if tail != [] { RefillIndents(s, tail[..|tail| - 1], most); }
  }

  lemma {:induction false} PutIndents(s: State, g: Glyph, most: nat)
    requires BreakInLine(s) && IndentsOk(s, most)
    ensures IndentsOk(Put(s, g), most)
  {
    hide Refill, Width, Put, SplitTail;
    PutWhole(s, g);
    if PutSplits(s, g) {
      PutBreaks(s, g);
      var a := Append(s, g);
      RefillIndents(Bump(CutHead(a)), SplitTail(a), most);
    }
  }

  lemma {:induction false} PutAllIndents(s: State, text: seq<Glyph>, most: nat)
    requires BreakInLine(s) && IndentsOk(s, most)
    ensures IndentsOk(PutAll(s, text), most)
    decreases |text|
  {
    hide Put;
    if text != [] {
      PutAllIndents(s, text[..|text| - 1], most);
      PutIndents(PutAll(s, text[..|text| - 1]), text[|text| - 1], most);
    }
  }

  lemma {:induction false} RunIndents(s: State, events: seq<Event>, most: nat)
    requires BreakInLine(s) && IndentsOk(s, most) && IndentsAtMost(events, most)
    ensures IndentsOk(Run(s, events), most)
    decreases |events|
  {
    hide PutAll;
    if events != [] {
      var u, e := Run(s, events[..|events| - 1]), events[|events| - 1];
      RunIndents(s, events[..|events| - 1], most);
      if e.Char? { PutAllIndents(u, Printed(u, e.rune), most); }
    }
  }

  lemma {:induction false} LimitHolds(lim: nat, most: nat, events: seq<Event>)
    requires lim == 0 || (lim >= 3 && most < lim)
    requires LegalRun(Start(lim, 0), events) && IndentsAtMost(events, most)
    ensures AllRowsWithin(Run(Start(lim, 0), events))
  {
    hide Run, LegalRun;
    StartInv(lim, 0);
    RunKeepsInv(Start(lim, 0), events);
    if lim > 0 {
      RunIndents(Start(lim, 0), events, most);
      RowsWithinIff(Run(Start(lim, 0), events));
    }
  }

  /** A line that begins at the limit takes every character: `line_char` appends it without looking. */
  lemma {:induction false} DeepIndentOverflows(lim: nat, most: nat)
    requires 1 <= lim <= most
    ensures var run := [Indent(most)] + [Char(Rune(NEWLINE, -1))] + [Char(NARROW)];
      LegalRun(Start(lim, 0), run) && IndentsAtMost(run, most) && !AllRowsWithin(Run(Start(lim, 0), run))
  {
    hide Width;
    var s := Start(lim, 0);
    var first, second := [Indent(most)], [Indent(most)] + [Char(Rune(NEWLINE, -1))];
    var run := second + [Char(NARROW)];
    RunOne(s, Indent(most));
    assert second[..1] == first && run[..2] == second;
    var u := Bump(s.(indent := most));
    assert Run(s, second) == u && LegalRun(s, second);
    ForcedFeed(u, NARROW);
    var t := Run(s, run);
    assert t == Append(u, Glyph(NARROW, 0));
    assert t.lines[1].cells == [] + [Glyph(NARROW, 0)] == [Glyph(NARROW, 0)];
    WidthOfOne(Glyph(NARROW, 0));
    assert !RowWithin(lim, t.lines[1]);
  }

  /** The exact condition under which every row of everything that can be written stays within the limit,
      indentation included. */
  lemma {:induction false} WidthLimitHoldsIff(lim: nat, most: nat)
    ensures
      (forall events :: LegalRun(Start(lim, 0), events) && IndentsAtMost(events, most) ==>
        AllRowsWithin(Run(Start(lim, 0), events)))
      <==> lim == 0 || (lim >= 3 && most < lim)
  {
    hide Run, LegalRun, AllRowsWithin;
    if lim == 0 || (lim >= 3 && most < lim) {
      forall events | LegalRun(Start(lim, 0), events) && IndentsAtMost(events, most)
        ensures AllRowsWithin(Run(Start(lim, 0), events))
      {
        LimitHolds(lim, most, events);
      }
    } else if lim <= 2 {
      NarrowLimitOverflows(lim);
    } else {
      DeepIndentOverflows(lim, most);
    }
  }

  // ---------------------------------------------------------------- trailing lines

  /** `remove_trailing_empty_lines_except_for_first_one`, on the rows. */
  function Trim(lines: seq<Row>): seq<Row> {
    if |lines| <= 1 || HasVisible(lines[|lines| - 1]) then lines else Trim(lines[..|lines| - 1])
  }

  /** Trimming leaves the longest prefix whose last line shows something, or the first line alone. */
  lemma {:induction false} TrimIsLongest(lines: seq<Row>)
    requires lines != []
    ensures Trim(lines) <= lines && Trim(lines) != []
    ensures |Trim(lines)| == 1 || HasVisible(Trim(lines)[|Trim(lines)| - 1])
    ensures forall i :: |Trim(lines)| <= i < |lines| ==> !HasVisible(lines[i])
  {
    if |lines| > 1 && !HasVisible(lines[|lines| - 1]) {
      TrimIsLongest(lines[..|lines| - 1]);
      assert Trim(lines) == Trim(lines[..|lines| - 1]);
    }
  }

  lemma {:induction false} BreakShows(s: State)
    requires Inv(s) && s.end.Some?
    ensures HasVisible(Head(s))
  {
    assert !IsWideWhitespace(Head(s).cells[s.end.value.at].rune);
  }

  /** Trimming moves the head back and leaves the recorded break as it is. That is harmless: when a
      line is dropped nothing was recorded, and the new head carries no hyphen. Nothing visible goes. */
  lemma {:induction false} TrimKeeps(s: State)
    requires Inv(s)
    ensures Inv(s.(lines := Trim(s.lines)))
    ensures FitsInv(s) ==> FitsInv(s.(lines := Trim(s.lines)))
    ensures Trim(s.lines) != s.lines ==> s.end.None?
    ensures Visible(Trim(s.lines)) == Visible(s.lines)
  {
    TrimIsLongest(s.lines);
    if s.end.Some? { BreakShows(s); }
    var t := s.(lines := Trim(s.lines));
    if t.lines != s.lines {
      var n := |t.lines|;
      assert !HasVisible(s.lines[n]);
      assert HyphenOk(t.lines) by {
        forall i | 0 <= i < n && t.lines[i].hyphen
          ensures i + 1 < n && t.lines[i].cells != [] && HasVisible(t.lines[i + 1])
        {
          assert t.lines[i] == s.lines[i] && HasVisible(s.lines[i + 1]);
        }
      }
      assert AllRowsPrintable(t.lines);
      TrimVisible(s.lines, n);
      assert t.lines == s.lines[..n];
    }
  }

  lemma {:induction false} TrimVisible(lines: seq<Row>, n: nat)
    requires n <= |lines| && AllRowsPrintable(lines)
    requires forall i :: n <= i < |lines| ==> !HasVisible(lines[i])
    ensures Visible(lines[..n]) == Visible(lines)
    decreases |lines|
  {
    if n == |lines| {
      assert lines[..n] == lines;
    } else {
      var last := lines[|lines| - 1];
      TrimVisible(lines[..|lines| - 1], n);
      assert lines[..|lines| - 1][..n] == lines[..n];
      assert !HasVisible(lines[|lines| - 1]);
      forall i | 0 <= i < |Kept(last)| ensures Blank(Kept(last)[i]) {
        assert Kept(last)[i] == last.cells[i];
        assert IsWideWhitespace(last.cells[i].rune) && Printable(last.cells[i].rune);
      }
      BlanksAreInvisible(Kept(last));
    }
  }
}
