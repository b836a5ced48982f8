/** The text of all rows is the text that was handed in, glyph by glyph and style by style, with nothing
    but spaces left out. */
module LineText {
  import opened LineModel
  import opened LineTheorems

  // ---------------------------------------------------------------- leaving out spaces

  lemma {:induction false} SubRefl(a: seq<Glyph>)
    ensures Sub(a, a)
    decreases |a|
  {
    if a != [] { SubRefl(a[..|a| - 1]); }
  }

  lemma {:induction false} SubSnoc(a: seq<Glyph>, b: seq<Glyph>, g: Glyph)
    requires Sub(a, b)
    ensures Sub(a + [g], b + [g])
    ensures Blank(g) ==> Sub(a, b + [g])
  {
    assert (a + [g])[..|a|] == a && (b + [g])[..|b|] == b;
  }

  lemma {:induction false} SubConcat(a: seq<Glyph>, b: seq<Glyph>, c: seq<Glyph>, d: seq<Glyph>)
    requires Sub(a, b) && Sub(c, d)
    ensures Sub(a + c, b + d)
    decreases |d|
  {
    if d == [] {
      assert a + c == a && b + d == b;
    } else {
      var e, g := d[..|d| - 1], d[|d| - 1];
      assert b + d == b + e + [g];
      if c != [] && c[|c| - 1] == g && Sub(c[..|c| - 1], e) {
        SubConcat(a, b, c[..|c| - 1], e);
        SubSnoc(a + c[..|c| - 1], b + e, g);
        assert a + c == a + c[..|c| - 1] + [g];
      } else {
        SubConcat(a, b, c, e);
        SubSnoc(a + c, b + e, g);
      }
    }
  }

  lemma {:induction false} SubTrans(a: seq<Glyph>, b: seq<Glyph>, c: seq<Glyph>)
    requires Sub(a, b) && Sub(b, c)
    ensures Sub(a, c)
    decreases |c|, |b|
  {
    if c != [] {
      var g, d := c[|c| - 1], c[..|c| - 1];
      if b != [] && b[|b| - 1] == g && Sub(b[..|b| - 1], d) {
        var e := b[..|b| - 1];
        if a != [] && a[|a| - 1] == g && Sub(a[..|a| - 1], e) {
          SubTrans(a[..|a| - 1], e, d);
        } else {
          SubTrans(a, e, d);
        }
      } else {
        SubTrans(a, b, d);
      }
    }
  }

  /** Nothing but spaces: the rest is the same. */
  lemma {:induction false} SubKeepsNonBlank(a: seq<Glyph>, b: seq<Glyph>)
    requires Sub(a, b)
    ensures NonBlank(a) == NonBlank(b) && |a| <= |b|
    decreases |b|
  {
    if b != [] {
      var c := b[..|b| - 1];
      if a != [] && a[|a| - 1] == b[|b| - 1] && Sub(a[..|a| - 1], c) {
        SubKeepsNonBlank(a[..|a| - 1], c);
      } else {
        SubKeepsNonBlank(a, c);
      }
    }
  }

  lemma {:induction false} DropSpacesSub(cells: seq<Glyph>)
    ensures Sub(DropSpaces(cells), cells)
    decreases |cells|
  {
    if cells != [] && Blank(cells[0]) {
      DropSpacesSub(cells[1..]);
      SubRefl([]);
      SubSnoc([], [], cells[0]);
      assert [] + [cells[0]] == [cells[0]] && cells == [cells[0]] + cells[1..];
      SubConcat([], [cells[0]], DropSpaces(cells[1..]), cells[1..]);
      assert [] + DropSpaces(cells[1..]) == DropSpaces(cells[1..]);
    } else {
      SubRefl(cells);
    }
  }

  lemma {:induction false} BlanksSub(cells: seq<Glyph>)
    requires forall i :: 0 <= i < |cells| ==> Blank(cells[i])
    ensures Sub([], cells)
    decreases |cells|
  {
    if cells != [] { BlanksSub(cells[..|cells| - 1]); }
  }

  // ---------------------------------------------------------------- one character

  lemma {:induction false} FlatAppend(s: State, g: Glyph)
    requires s.lines != [] && !Head(s).hyphen
    ensures Flat(Append(s, g).lines) == Flat(s.lines) + [g]
  {
    assert Append(s, g).lines[..|s.lines| - 1] == s.lines[..|s.lines| - 1];
    ConcatAssociates(Flat(s.lines[..|s.lines| - 1]), Head(s).cells, [g]);
  }

  lemma {:induction false} FlatBump(s: State)
    ensures Flat(Bump(s).lines) == Flat(s.lines)
  {
    assert Bump(s).lines[..|s.lines|] == s.lines;
  }

  lemma {:induction false} FlatExtend(s: State, g: Glyph)
    requires s.lines != [] && !Head(s).hyphen
    ensures Flat(Extend(s, g).lines) == Flat(s.lines) + [g] && !Head(Extend(s, g)).hyphen
  {
    FlatAppend(s, g);
    FlatBump(s);
    FlatAppend(Bump(s), g);
  }

  lemma {:induction false} FlatRefill(s: State, tail: seq<Glyph>)
    requires s.lines != [] && !Head(s).hyphen
    ensures Flat(Refill(s, tail).lines) == Flat(s.lines) + tail && !Head(Refill(s, tail)).hyphen
    decreases |tail|
  {
    hide Flat, Extend;
    if tail == [] {
      assert Flat(s.lines) + [] == Flat(s.lines);
    } else {
      var front, g := tail[..|tail| - 1], tail[|tail| - 1];
      FlatRefill(s, front);
      FlatExtend(Refill(s, front), g);
      ConcatAssociates(Flat(s.lines), front, [g]);
      assert tail == front + [g];
    }
  }

  lemma {:induction false} CutText(s: State)
    requires BreakInLine(s) && s.end.Some? && s.end.value.at + 1 < |Head(s).cells| && !Head(s).hyphen
    ensures var front := Flat(s.lines[..|s.lines| - 1]) + Head(s).cells[..s.end.value.at + 1];
      Flat(CutHead(s).lines) == front && Flat(s.lines) == front + Head(s).cells[s.end.value.at + 1..]
  {
    hide Sub;
    var front, cells, at := s.lines[..|s.lines| - 1], Head(s).cells, s.end.value.at;
    assert CutHead(s).lines[..|s.lines| - 1] == front && Kept(Head(CutHead(s))) == cells[..at + 1];
    assert cells == cells[..at + 1] + cells[at + 1..];
    ConcatAssociates(Flat(front), cells[..at + 1], cells[at + 1..]);
  }

  /** A split leaves out the spaces between the break and the word behind it. */
  lemma {:induction false} SplitText(s: State)
    requires BreakInLine(s) && s.end.Some? && s.end.value.at + 1 < |Head(s).cells| && !Head(s).hyphen
    ensures Sub(Flat(Split(s).lines), Flat(s.lines))
  {
    hide Refill, SplitTail, Sub, Flat, CutHead;
    CutText(s);
    FlatBump(CutHead(s));
    FlatRefill(Bump(CutHead(s)), SplitTail(s));
    TailText(s);
    SubRefl(Flat(CutHead(s).lines));
    SubConcat(Flat(CutHead(s).lines), Flat(CutHead(s).lines), SplitTail(s), Head(s).cells[s.end.value.at + 1..]);
  }

  lemma {:induction false} TailText(s: State)
    requires BreakInLine(s) && s.end.Some?
    ensures Sub(SplitTail(s), Head(s).cells[s.end.value.at + 1..])
  {
    DropSpacesSub(Head(s).cells[s.end.value.at + 1..]);
  }

  /** One character adds its glyph, in its style, or is a space that is left out; a split may leave out
      spaces as well. */
  lemma {:induction false} PutText(s: State, g: Glyph)
    requires Inv(s) && Printable(g.rune) && CanPut(s, g)
    ensures Sub(Flat(Put(s, g).lines), Flat(s.lines) + [g])
  {
    hide Flat, Sub, Split, Width, BreakOk, SplitTail;
    InvBreak(s);
    HeadHasNoHyphen(s);
    FlatAppend(s, g);
    SubRefl(Flat(s.lines));
    SubSnoc(Flat(s.lines), Flat(s.lines), g);
    var m := MarkBreak(s, g.rune);
    if Forced(s, g.rune) {
    } else if Fits(m, g.rune) {
      FlatAppend(m, g);
    } else if !Blank(g) {
      if s.end.None? {
        FlatBump(s);
        FlatAppend(Bump(s), g);
      } else {
        SplitText(Append(s, g));
      }
    }
  }

  lemma {:induction false} PutAllText(s: State, text: seq<Glyph>)
    requires Inv(s) && AllPrintable(text) && CanPutAll(s, text)
    ensures Sub(Flat(PutAll(s, text).lines), Flat(s.lines) + text)
    decreases |text|
  {
    hide Flat, Sub, Put, CanPut, Inv;
    InvBreak(s);
    if text == [] {
      assert Flat(s.lines) + [] == Flat(s.lines);
      SubRefl(Flat(s.lines));
    } else {
      var front, g := text[..|text| - 1], text[|text| - 1];
      PutAllText(s, front);
      PutAllKeeps(s, front);
      var u := PutAll(s, front);
      PutText(u, g);
      SubSnoc(Flat(u.lines), Flat(s.lines) + front, g);
      SubTrans(Flat(PutAll(s, text).lines), Flat(u.lines) + [g], Flat(s.lines) + front + [g]);
      ConcatAssociates(Flat(s.lines), front, [g]);
      assert text == front + [g];
    }
  }

  lemma {:induction false} FeedText(s: State, r: Rune)
    requires Inv(s) && CanFeed(s, r)
    ensures Sub(Flat(Feed(s, r).lines), Flat(s.lines) + Typed(s, s.style, Char(r)))
  {
    hide Flat, Sub, CanFeed, PutAll, Width, TabSpaces;
    InvBreak(s);
    SubRefl(Flat(s.lines));
    assert Flat(s.lines) + [] == Flat(s.lines);
    if r.code == NEWLINE {
      FlatBump(s);
    } else if r.code != SOFT_HYPHEN {
      PrintedShows(s, r);
      PrintedCanBePut(s, r);
      PutAllText(s, Printed(s, r));
    }
  }

  // ---------------------------------------------------------------- whole runs

  /** The main theorem on the text. Over any run the text of all rows, spaces included and inserted
      hyphens left out, is what was handed in, every glyph in the style that was in force when it was
      handed in, the spaces of tabs included; nothing but spaces is left out, nothing is added. */
  lemma {:induction false} RunText(s: State, events: seq<Event>)
    requires Inv(s) && LegalRun(s, events) && s.style == OrAll(s.stack)
    ensures Sub(Flat(Run(s, events).lines), Flat(s.lines) + Written(s, events))
    decreases |events|
  {
    hide Flat, Sub, Inv, Feed, OrAll, StackAfter, Typed, CanFeed;
    InvBreak(s);
    if events == [] {
      assert Flat(s.lines) + [] == Flat(s.lines);
      SubRefl(Flat(s.lines));
    } else {
      var front, e := events[..|events| - 1], events[|events| - 1];
      RunText(s, front);
      RunKeeps(s, front);
      RunKeepsInv(s, front);
      var u := Run(s, front);
      var typed := Typed(u, u.style, e);
      EventText(u, e);
      SubRefl(typed);
      SubConcat(Flat(u.lines), Flat(s.lines) + Written(s, front), typed, typed);
      SubTrans(Flat(Run(s, events).lines), Flat(u.lines) + typed, Flat(s.lines) + Written(s, front) + typed);
      ConcatAssociates(Flat(s.lines), Written(s, front), typed);
    }
  }

  lemma {:induction false} EventText(s: State, e: Event)
    requires Inv(s) && Legal(s, e)
    ensures Sub(Flat(Do(s, e).lines), Flat(s.lines) + Typed(s, s.style, e))
  {
    hide Flat, Sub, Feed;
    if e.Char? {
      FeedText(s, e.rune);
    } else {
      SubRefl(Flat(s.lines));
      assert Flat(s.lines) + [] == Flat(s.lines);
    }
  }

  /** What is handed in, without its spaces, is what `RunKeeps` speaks of. */
  lemma {:induction false} WrittenShows(s: State, events: seq<Event>)
    requires BreakInLine(s)
    ensures NonBlank(Written(s, events)) == Handed(s.stack, events)
    decreases |events|
  {
    hide NonBlank, OrAll, StackAfter, Run, TabSpaces;
    if events == [] {
      NothingShown();
    } else {
      var front, e := events[..|events| - 1], events[|events| - 1];
      var style := OrAll(StackAfter(s.stack, front));
      WrittenShows(s, front);
      NonBlankConcat(Written(s, front), Typed(Run(s, front), style, e));
      TypedShows(Run(s, front), style, e);
    }
  }

  lemma {:induction false} NothingShown()
    ensures NonBlank([]) == []
  {
  }

  lemma {:induction false} TypedShows(s: State, style: Style, e: Event)
    requires s.lines != []
    ensures NonBlank(Typed(s, style, e)) == Shown(style, e)
  {
    if e.Char? && e.rune.code == TAB {
      BlanksAreInvisible(Typed(s, style, e));
    } else if e.Char? && Printable(e.rune) {
      assert [Glyph(e.rune, style)][..0] == [];
    }
  }

  /** A hyphen that a split inserted has the style of the character behind it, with which the next row
      begins. */
  lemma {:induction false} HyphenStyle(s: State, events: seq<Event>, i: nat)
    requires Inv(s) && LegalRun(s, events) && i < |Run(s, events).lines| && Run(s, events).lines[i].hyphen
    ensures var rows := Run(s, events).lines;
      i + 1 < |rows| && Hyphenates(rows[i], rows[i + 1])
  {
    RunKeepsInv(s, events);
  }

  // ---------------------------------------------------------------- trailing lines

  lemma {:induction false} TrimText(lines: seq<Row>)
    requires AllRowsPrintable(lines)
    ensures Sub(Flat(Trim(lines)), Flat(lines))
    decreases |lines|
  {
    hide Sub;
    if |lines| <= 1 || HasVisible(lines[|lines| - 1]) {
      SubRefl(Flat(lines));
    } else {
      var front, row := lines[..|lines| - 1], lines[|lines| - 1];
      TrimText(front);
      forall i | 0 <= i < |Kept(row)| ensures Blank(Kept(row)[i]) {
        assert Printable(row.cells[i].rune) && IsWideWhitespace(row.cells[i].rune);
      }
      BlanksSub(Kept(row));
      SubConcat(Flat(Trim(front)), Flat(front), [], Kept(row));
      assert Flat(Trim(front)) + [] == Flat(Trim(front));
    }
  }
}
