/** The line processor of `src/render_data/line.c`: a buffer of lines updated in place, and
    `line_char` with its recursion. Every method is proved to do what `LineModel` says. */
module LineProcessor {
  import opened LineModel
  import opened LineTheorems

  /** A `render_line`: text, its capacity, one style hint per character, and the indentation.
      Hints that have been allocated and not written are zero here. */
  datatype TextLine = TextLine(ws: seq<Rune>, cap: nat, hints: seq<Style>, indent: nat)

  predicate Covered(l: TextLine) {
    |l.ws| <= l.cap && (l.ws == [] || l.cap <= |l.hints|)
  }

  function Cells(l: TextLine): (cells: seq<Glyph>)
    requires Covered(l)
    ensures |cells| == |l.ws|
    ensures forall i :: 0 <= i < |cells| ==> cells[i] == Glyph(l.ws[i], l.hints[i])
  {
    seq(|l.ws|, i requires 0 <= i < |l.ws| => Glyph(l.ws[i], l.hints[i]))
  }

  /** `line_append` on one line: the text grows by a character, the hints to the capacity of the text. */
  function Grown(l: TextLine, c: Rune, style: Style): (r: TextLine)
    requires Covered(l)
    ensures Covered(r) && Cells(r) == Cells(l) + [Glyph(c, style)] && r.indent == l.indent
  {
    var len := |l.ws| + 1;
    var cap := if len > l.cap then len * 2 + 67 else l.cap;
    var hints := if |l.hints| < cap then l.hints + seq(cap - |l.hints|, _ => 0) else l.hints;
    TextLine(l.ws + [c], cap, hints[len - 1 := style], l.indent)
  }

  /** How far `line_char` is from writing the character without calling itself. */
  function Rank(s: State, c: Rune): nat
    requires s.lines != []
  {
    if !Printable(c) || Fits(s, c) || IsSpace(c) then 0
    else if s.end.None? then 1
    else 3
  }

  /** While no break is recorded a character of a word simply extends the text, in its own style. */
  lemma {:induction false} FeedIsExtend(m: State, g: Glyph)
    requires BreakInLine(m) && m.end.None? && !Blank(g) && Printable(g.rune) && m.style == g.style
    ensures Feed(m, g.rune) == Extend(m, g)
  {
    PutOne(m, g);
    assert Printed(m, g.rune) == [g];
  }

  /** The character that opens a new line is written there without another one. */
  lemma {:induction false} FeedOnFreshLine(s: State, g: Glyph)
    requires s.lines != [] && Printable(g.rune) && g.style == s.style && Fits(Bump(s), g.rune) && !Blank(g)
    ensures Feed(Bump(s), g.rune) == Append(Bump(s), g)
    ensures CanFeed(Bump(s), g.rune)
    ensures Rank(Bump(s), g.rune) == 0
  {
    FeedIsExtend(Bump(s), g);
  }

  lemma {:induction false} ExtendStyle(m: State, style: Style, g: Glyph)
    requires m.lines != []
    ensures Extend(m, g).(style := style) == Extend(m.(style := style), g)
  {
    hide Width;
    var n := m.(style := style);
    assert Head(n) == Head(m);
    assert Fits(n, g.rune) == Fits(m, g.rune);
    assert Append(m, g).(style := style) == Append(n, g);
    assert Append(Bump(m), g).(style := style) == Append(Bump(n), g);
  }

  lemma {:induction false} ReplayOne(s: State, m: State, tail: seq<Glyph>, k: nat)
    requires Overfull(s) && tail == SplitTail(s) && AllPlaceable(s, tail) && k < |tail|
    requires Inv(m) && m == Refill(Bump(s), tail[..k]).(style := m.style)
    requires m.style == tail[k].style
    ensures BreakInLine(m) && Printable(tail[k].rune) && CanFeed(m, tail[k].rune) && Rank(m, tail[k].rune) <= 1
    ensures Feed(m, tail[k].rune) == Refill(Bump(s), tail[..k + 1]).(style := m.style)
    ensures tail[k] == Glyph(tail[k].rune, m.style)
  {
    hide Inv, Feed, Extend, Overfull;
    SplitTailIsWord(s);
    InvBreak(m);
    assert Printable(tail[k].rune) && !Blank(tail[k]) && Placeable(s, tail[k].rune);
    assert tail[..k + 1][..k] == tail[..k];
    RefillContext(Bump(s), tail[..k]);
    FeedIsExtend(m, tail[k]);
    ExtendStyle(Refill(Bump(s), tail[..k]), m.style, tail[k]);
  }

  lemma {:induction false} RefillContext(s: State, tail: seq<Glyph>)
    requires s.lines != []
    ensures (Refill(s, tail).lim, Refill(s, tail).indent) == (s.lim, s.indent)
    ensures (Refill(s, tail).style, Refill(s, tail).stack) == (s.style, s.stack)
  {
    if tail != [] { RefillContext(s, tail[..|tail| - 1]); }
  }

  lemma {:induction false} RefillNothing(s: State, tail: seq<Glyph>)
    requires s.lines != []
    ensures Refill(s, tail[..0]) == s
  {
  }

  /** The tail begins at the first character behind the break that is not whitespace. */
  lemma {:induction false} TailPosition(s: State)
    requires Overfull(s)
    ensures var cells, at, tail := Head(s).cells, s.end.value.at, SplitTail(s);
      var from := |cells| - |tail|;
      && at < from
      && tail == cells[from..]
      && (forall i :: at < i < from ==> IsWideWhitespace(cells[i].rune))
      && (from < |cells| ==> !IsWideWhitespace(cells[from].rune))
  {
    SplitTailIsWord(s);
    var cells, at, tail := Head(s).cells, s.end.value.at, SplitTail(s);
    var rest := cells[at + 1..];
    DropSpacesSuffix(rest);
    var from := |cells| - |tail|;
    forall i | at < i < from ensures IsWideWhitespace(cells[i].rune) {
      assert Blank(rest[i - at - 1]);
    }
    assert Printable(tail[0].rune) && !Blank(tail[0]);
  }

  lemma {:induction false} TailStartsAt(s: State, prev: TextLine, i: nat)
    requires Overfull(s) && Covered(prev) && Head(s) == RowOf(prev, false)
    requires s.end.value.at < i <= |prev.ws|
    requires forall j :: s.end.value.at < j < i ==> IsWideWhitespace(prev.ws[j])
    requires i < |prev.ws| ==> !IsWideWhitespace(prev.ws[i])
    ensures i < |prev.ws| && Cells(prev)[i..] == SplitTail(s)
  {
    TailPosition(s);
    SplitTailIsWord(s);
    var from := |prev.ws| - |SplitTail(s)|;
    assert Cells(prev)[from].rune == prev.ws[from];
    assert i < |prev.ws| ==> Cells(prev)[i].rune == prev.ws[i];
  }

  /** It makes no difference whether the line is cut before or after its tail is written again. */
  lemma {:induction false} RefillElsewhere(s: State, p: nat, row: Row, tail: seq<Glyph>)
    requires p < |s.lines| - 1
    ensures p < |Refill(s, tail).lines| - 1
    ensures Refill(s.(lines := s.lines[p := row]), tail)
         == Refill(s, tail).(lines := Refill(s, tail).lines[p := row])
  {
    if tail != [] {
      RefillElsewhere(s, p, row, tail[..|tail| - 1]);
      var u, g := Refill(s, tail[..|tail| - 1]), tail[|tail| - 1];
      ExtendElsewhere(u, p, row, g);
    }
  }

  lemma {:induction false} ExtendElsewhere(u: State, p: nat, row: Row, g: Glyph)
    requires p < |u.lines| - 1
    ensures p < |Extend(u, g).lines| - 1
    ensures Extend(u.(lines := u.lines[p := row]), g) == Extend(u, g).(lines := Extend(u, g).lines[p := row])
  {
    var v := u.(lines := u.lines[p := row]);
    assert Head(v) == Head(u);
    assert Append(v, g).lines == Append(u, g).lines[p := row];
    assert Append(Bump(v), g).lines == Append(Bump(u), g).lines[p := row];
  }

  lemma {:induction false} CutLater(s: State, t: State)
    requires Overfull(s) && t == Refill(Bump(s), SplitTail(s))
    ensures |t.lines| > |s.lines| - 1
    ensures Split(s) == t.(lines := t.lines[|s.lines| - 1 := CutRow(Head(s), s.end.value)])
  {
    hide Inv, Refill, SplitTail;
    OverfullInv(s);
    InvBreak(s);
    var p, row := |s.lines| - 1, CutRow(Head(s), s.end.value);
    RefillElsewhere(Bump(s), p, row, SplitTail(s));
    assert Bump(CutHead(s)).lines == Bump(s).lines[p := row];
  }

  predicate AllSpaces(str: seq<Rune>) {
    forall i :: 0 <= i < |str| ==> str[i] == SPACE
  }

  function Spaces(n: nat): (str: seq<Rune>)
    ensures |str| == n && AllSpaces(str)
  {
    seq(n, _ => SPACE)
  }

  lemma {:induction false} InvIgnoresStyle(s: State, style: Style, stack: seq<Style>)
    requires Inv(s)
    ensures Inv(s.(style := style, stack := stack))
  {
  }

  lemma {:induction false} CanFeedPrefix(s: State, text: seq<Rune>, n: nat)
    requires BreakInLine(s) && CanFeedAll(s, text) && n <= |text|
    ensures CanFeedAll(s, text[..n])
    ensures n > 0 ==> CanFeed(FeedAll(s, text[..n - 1]), text[n - 1])
    decreases |text|
  {
    hide Feed, CanFeed;
    if n < |text| {
      CanFeedPrefix(s, text[..|text| - 1], n);
      assert text[..|text| - 1][..n] == text[..n];
      assert n > 0 ==> text[..|text| - 1][..n - 1] == text[..n - 1];
    } else {
      assert text[..n] == text;
    }
  }

  lemma {:induction false} CanFeedSpaces(s: State, n: nat)
    requires BreakInLine(s)
    ensures CanFeedAll(s, Spaces(n))
  {
    hide Feed;
    if n > 0 {
      CanFeedSpaces(s, n - 1);
      assert Spaces(n)[..n - 1] == Spaces(n - 1);
    }
  }

  /** Writing spaces one by one is what a tab of that length stands for. */
  lemma {:induction false} SpacesAreTab(s: State, n: nat)
    requires Inv(s) && n == TabSpaces(s)
    ensures FeedAll(s, Spaces(n)) == Feed(s, Rune(TAB, -1))
  {
    SpacesFed(s, n);
    assert Printed(s, Rune(TAB, -1)) == SpaceGlyphs(n, s.style);
  }

  lemma {:induction false} SpacesFed(s: State, n: nat)
    requires Inv(s)
    ensures FeedAll(s, Spaces(n)) == PutAll(s, SpaceGlyphs(n, s.style))
    ensures Inv(FeedAll(s, Spaces(n))) && FeedAll(s, Spaces(n)).style == s.style
  {
    hide Feed, Put, Inv;
    InvBreak(s);
    if n > 0 {
      SpacesFed(s, n - 1);
      assert Spaces(n)[..n - 1] == Spaces(n - 1);
      assert SpaceGlyphs(n, s.style)[..n - 1] == SpaceGlyphs(n - 1, s.style);
      var u := FeedAll(s, Spaces(n - 1));
      FeedKeeps(u, SPACE);
      FeedSpace(u);
    }
  }

  lemma {:induction false} FeedSpace(u: State)
    requires BreakInLine(u)
    ensures Feed(u, SPACE) == Put(u, Glyph(SPACE, u.style))
  {
    hide Put;
    PutOne(u, Glyph(SPACE, u.style));
  }

  function RowOf(l: TextLine, hyphen: bool): Row
    requires Covered(l)
  {
    Row(Cells(l), hyphen, l.indent)
  }

  lemma {:induction false} HeadHasNoHyphenHere(s: State)
    requires Inv(s)
    ensures s.lines != [] && !Head(s).hyphen
  {
  }

  lemma {:induction false} OverfullInv(s: State)
    requires Overfull(s)
    ensures Inv(s)
  {
  }

  /** The line in front of a split: cut behind the break, with a hyphen if the break calls for one. */
  function CutLine(l: TextLine, at: nat, hyphenated: bool): (r: TextLine)
    requires Covered(l) && at + 1 < |l.ws|
    ensures Covered(r) && RowOf(r, hyphenated) == CutRow(RowOf(l, false), Break(at, hyphenated))
  {
    var ws := if hyphenated then l.ws[..at + 1] + [HYPHEN] else l.ws[..at + 1];
    var r := l.(ws := ws);
    assert Cells(r) == CutRow(RowOf(l, false), Break(at, hyphenated)).cells;
    r
  }

  predicate LinesMatch(lines: seq<TextLine>, rows: seq<Row>) {
    && |lines| == |rows|
    && forall i :: 0 <= i < |lines| ==> Covered(lines[i]) && rows[i] == RowOf(lines[i], rows[i].hyphen)
  }

  lemma {:induction false} MatchAt(lines: seq<TextLine>, rows: seq<Row>, i: nat)
    requires LinesMatch(lines, rows) && i < |lines|
    ensures |lines| == |rows| && Covered(lines[i]) && rows[i] == RowOf(lines[i], rows[i].hyphen)
  {
  }

  lemma {:induction false} MatchUpdate(lines: seq<TextLine>, rows: seq<Row>, i: nat, l: TextLine, row: Row)
    requires LinesMatch(lines, rows) && i < |lines|
    requires Covered(l) && row == RowOf(l, row.hyphen)
    ensures LinesMatch(lines[i := l], rows[i := row])
  {
  }

  lemma {:induction false} MatchPrefix(lines: seq<TextLine>, rows: seq<Row>, n: nat)
    requires LinesMatch(lines, rows) && n <= |lines|
    ensures |lines| == |rows| && LinesMatch(lines[..n], rows[..n])
  {
  }

  const TAB_DISPLAY: seq<Rune> := [SPACE, SPACE, SPACE, SPACE]

  class Line {
    var lines: seq<TextLine>
    var lim: nat
    var end: Option<nat>
    var endIsHyphenated: bool
    var indent: nat
    var style: Style
    var stack: seq<Style>
    /** The state of `LineModel` that the fields stand for. It knows in addition which lines end in a
        hyphen that a split inserted. */
    ghost var model: State

    ghost predicate Shape()
      reads this
    {
      && (model.lim, model.indent, model.style, model.stack) == (lim, indent, style, stack)
      && model.end == (if end.None? then None else Some(Break(end.value, endIsHyphenated)))
      && |lines| == |model.lines| && LinesMatch(lines, model.lines)
    }

    ghost predicate Ready()
      reads this
    {
      Shape() && Inv(model)
    }

    constructor (lim: nat)
      ensures Shape() && model == State([], None, lim, 0, 0, [])
    {
      this.lim := lim;
      lines, stack := [], [];
      end, endIsHyphenated := None, false;
      indent, style := 0, 0;
      model := State([], None, lim, 0, 0, []);
    }

    /** `wcswidth` of a line's text. */
    method WcsWidth(l: TextLine) returns (width: int)
      requires Covered(l)
      ensures width == Width(Cells(l))
    {
      width := 0;
      for i := 0 to |l.ws|
        invariant width == Width(Cells(l)[..i])
      {
        width := width + l.ws[i].width;
        assert Cells(l)[..i + 1][..i] == Cells(l)[..i];
      }
      assert Cells(l)[..|l.ws|] == Cells(l);
    }

    method LineBump()
      requires Shape()
      modifies this
      ensures Shape() && model == Bump(old(model))
      ensures lines == old(lines) + [TextLine([], lim, [], indent)]
    {
      lines := lines + [TextLine([], lim, [], indent)];
      end, endIsHyphenated := None, false;
      model := Bump(model);
    }

    method LineAppend(c: Rune)
      requires Shape() && lines != []
      modifies this
      ensures Shape() && model == Append(old(model), Glyph(c, style))
      ensures |lines| == |old(lines)| && forall i :: 0 <= i < |lines| - 1 ==> lines[i] == old(lines[i])
      ensures lines[|lines| - 1] == Grown(old(lines[|lines| - 1]), c, style)
    {
      hide LinesMatch;
      MatchAt(lines, model.lines, |lines| - 1);
      var grown := Grown(lines[|lines| - 1], c, style);
      MatchUpdate(lines, model.lines, |lines| - 1, grown, Append(model, Glyph(c, style)).lines[|lines| - 1]);
      lines := lines[|lines| - 1 := grown];
      model := Append(model, Glyph(c, style));
    }

    method LineSoftHyphen()
      requires Shape() && BreakInLine(model)
      modifies this
      ensures Shape() && model == SoftHyphen(old(model))
      ensures lines == old(lines)
    {
      hide Width, LinesMatch;
      MatchAt(lines, model.lines, |lines| - 1);
      var head := lines[|lines| - 1];
      if |head.ws| > 0 && !IsSpace(head.ws[|head.ws| - 1]) {
        var width := WcsWidth(head);
        if width < SizeSub(lim, head.indent) {
          end, endIsHyphenated := Some(|head.ws| - 1), true;
        }
      }
      model := SoftHyphen(model);
    }

    method LineTab()
      requires Ready()
      modifies this
      ensures Ready() && model == Feed(old(model), Rune(TAB, -1))
      ensures |lines| >= |old(lines)| && forall i :: 0 <= i < |old(lines)| - 1 ==> lines[i] == old(lines[i])
      decreases 14
    {
      hide Inv, Feed, FeedAll;
      InvBreak(model);
      ghost var s := model;
      if |lines| < 2 {
        assert TAB_DISPLAY == Spaces(4);
        CanFeedSpaces(s, 4);
        LineString(TAB_DISPLAY);
        SpacesAreTab(s, 4);
        return;
      }
      var n := Gap(lines[|lines| - 2], |lines[|lines| - 1].ws|);
      if n == 0 {
        assert TAB_DISPLAY == Spaces(4);
        CanFeedSpaces(s, 4);
        LineString(TAB_DISPLAY);
        SpacesAreTab(s, 4);
        return;
      }
      CanFeedSpaces(s, n);
      LineString(Spaces(n));
      SpacesAreTab(s, n);
    }

    /** The loop of `line_tab`: how much whitespace the previous line has from a position on. */
    method Gap(prev: TextLine, from: nat) returns (n: nat)
      requires Covered(prev)
      ensures n == WhitespaceRun(Cells(prev), from, TAB_WIDTH)
    {
      n := 0;
      var i := from;
      while n < TAB_WIDTH && i < |prev.ws| && IsWideWhitespace(prev.ws[i])
        invariant i == from + n && n <= TAB_WIDTH
        invariant WhitespaceRun(Cells(prev), from, TAB_WIDTH) == n + WhitespaceRun(Cells(prev), i, TAB_WIDTH - n)
        decreases TAB_WIDTH - n
      {
        n := n + 1;
        i := i + 1;
      }
    }

    method LineString(str: seq<Rune>)
      requires Ready() && CanFeedAll(model, str)
      modifies this
      ensures Ready() && model == FeedAll(old(model), str)
      ensures |lines| >= |old(lines)| && forall i :: 0 <= i < |old(lines)| - 1 ==> lines[i] == old(lines[i])
      decreases if AllSpaces(str) then 13 else 16
    {
      hide Inv, Feed;
      InvBreak(model);
      ghost var s := model;
      assert str[..0] == [];
      for i := 0 to |str|
        invariant Ready() && model == FeedAll(s, str[..i])
        invariant (lim, indent) == (s.lim, s.indent)
        invariant |lines| >= |old(lines)| && forall j :: 0 <= j < |old(lines)| - 1 ==> lines[j] == old(lines[j])
      {
        assert str[..i + 1][..i] == str[..i];
        CanFeedPrefix(s, str, i + 1);
        FeedKeeps(model, str[i]);
        LineChar(str[i]);
      }
      assert str[..|str|] == str;
    }

    /** `line_split_at_end`: the tail behind the break is written again on a new line, character by
        character, and then the line in front of it is cut. */
    method SplitAtEnd()
      requires Ready() && Overfull(model) && !Forced(model, SPACE) && AllPlaceable(model, SplitTail(model))
      requires lines[|lines| - 1].hints[|lines[|lines| - 1].ws| - 1] == style
      modifies this
      ensures Shape() && model == Split(old(model))
      ensures |lines| >= |old(lines)| && forall i :: 0 <= i < |old(lines)| - 1 ==> lines[i] == old(lines[i])
      decreases 8
    {
      hide Inv, Refill, Split, SplitTail, SpacesThenWord, LinesMatch, CutRow;
      ghost var s := model;
      MatchAt(lines, model.lines, |lines| - 1);
      HeadHasNoHyphenHere(s);
      var p := |lines| - 1;
      var prev := lines[p];
      var prev_end, prev_hyphenated := end.value, endIsHyphenated;
      assert Head(s) == RowOf(prev, false);
      LineBump();
      BumpInv(s);
      var i := SkipWhitespace(prev.ws, prev_end + 1);
      TailStartsAt(s, prev, i);
      Replay(prev, i, s);
      CutLater(s, model);
      var cut := CutLine(prev, prev_end, prev_hyphenated);
      ghost var row := CutRow(Head(s), s.end.value);
      assert row == RowOf(cut, prev_hyphenated);
      MatchUpdate(lines, model.lines, p, cut, row);
      lines := lines[p := cut];
      model := model.(lines := model.lines[p := row]);
    }

    /** The first loop of `line_split_at_end`. */
    method SkipWhitespace(ws: seq<Rune>, from: nat) returns (i: nat)
      requires from <= |ws|
      ensures from <= i <= |ws|
      ensures forall j :: from <= j < i ==> IsWideWhitespace(ws[j])
      ensures i < |ws| ==> !IsWideWhitespace(ws[i])
    {
      i := from;
      while i < |ws| && IsWideWhitespace(ws[i])
        invariant from <= i <= |ws|
        invariant forall j :: from <= j < i ==> IsWideWhitespace(ws[j])
      {
        i := i + 1;
      }
    }

    /** The second loop of `line_split_at_end`. */
    method Replay(prev: TextLine, from: nat, ghost s: State)
      requires Ready() && Overfull(s) && AllPlaceable(s, SplitTail(s)) && model == Bump(s)
      requires Covered(prev) && from < |prev.ws| && Cells(prev)[from..] == SplitTail(s)
      requires prev.hints[|prev.ws| - 1] == s.style
      modifies this
      ensures Shape() && model == Refill(Bump(s), SplitTail(s))
      ensures |lines| >= |old(lines)| && forall j :: 0 <= j < |old(lines)| - 1 ==> lines[j] == old(lines[j])
      decreases 7
    {
      hide Inv, Refill, SplitTail, Feed;
      OverfullInv(s);
      InvBreak(s);
      ghost var tail := SplitTail(s);
      var i := from;
      RefillNothing(Bump(s), tail);
      while i < |prev.ws|
        invariant from <= i <= |prev.ws|
        invariant Ready() && |lines| >= |old(lines)|
        invariant model == Refill(Bump(s), tail[..i - from]).(style := model.style)
        invariant i == |prev.ws| ==> style == s.style
        invariant forall j :: 0 <= j < |old(lines)| - 1 ==> lines[j] == old(lines[j])
      {
        ghost var u := model;
        style := prev.hints[i];
        model := model.(style := style);
        InvIgnoresStyle(u, style, stack);
        assert tail[i - from] == Cells(prev)[i];
        ReplayOne(s, model, tail, i - from);
        LineChar(prev.ws[i]);
        i := i + 1;
      }
      assert tail[..i - from] == tail;
      RefillContext(Bump(s), tail);
    }

    /** `line_style_update`. */
    method StyleUpdate()
      requires Shape()
      modifies this
      ensures Shape() && model == WithStack(old(model), stack)
      ensures (lines, stack) == old((lines, stack))
    {
      style := 0;
      assert stack[..0] == [];
      for i := 0 to |stack|
        invariant stack == old(stack) && style == OrAll(stack[..i])
        invariant (lines, lim, end, endIsHyphenated, indent, stack, model)
               == old((lines, lim, end, endIsHyphenated, indent, stack, model))
      {
        style := style | stack[i];
        assert stack[..i + 1][..i] == stack[..i];
      }
      assert stack[..|stack|] == stack;
      model := model.(style := style);
    }

    method PushStyle(attrs: Style)
      requires Ready()
      modifies this
      ensures Ready() && model == WithStack(old(model), old(model.stack) + [attrs])
      ensures lines == old(lines)
    {
      hide OrAll, Inv;
      InvIgnoresStyle(model, OrAll(stack + [attrs]), stack + [attrs]);
      stack := stack + [attrs];
      model := model.(stack := stack);
      StyleUpdate();
    }

    method PopStyle()
      requires Ready()
      modifies this
      ensures Ready() && model == WithStack(old(model), PopStack(old(model.stack)))
      ensures lines == old(lines)
    {
      hide OrAll, Inv;
      InvIgnoresStyle(model, OrAll(PopStack(stack)), PopStack(stack));
      if |stack| > 0 {
        stack := stack[..|stack| - 1];
      }
      model := model.(stack := stack);
      StyleUpdate();
    }

    /** `line_char`. The rank drops at every recursive call: a tab becomes spaces, a split replays its
        tail where no break is recorded, and a character that opens a new line fits it. */
    method LineChar(c: Rune)
      requires Ready() && CanFeed(model, c)
      modifies this
      ensures Ready() && model == Feed(old(model), c)
      ensures |lines| >= |old(lines)| && forall i :: 0 <= i < |old(lines)| - 1 ==> lines[i] == old(lines[i])
      decreases if c.code == TAB then 15 else 3 * Rank(model, c) + 2
    {
      hide Inv, Put;
      FeedKeeps(model, c);
      InvBreak(model);
      if c.code == NEWLINE {
        LineBump();
      } else if c.code == TAB {
        LineTab();
      } else if c.code == SOFT_HYPHEN {
        LineSoftHyphen();
      } else if c.width >= 1 {
        PutOne(model, Glyph(c, style));
        PutChar(c);
      }
    }

    /** A space behind a word is a place to break the line at. */
    method RecordBreak(c: Rune)
      requires Shape() && lines != []
      modifies this
      ensures Shape() && model == MarkBreak(old(model), c)
      ensures (lines, lim, indent, style) == old((lines, lim, indent, style))
    {
      hide LinesMatch;
      MatchAt(lines, model.lines, |lines| - 1);
      var head := lines[|lines| - 1];
      if IsSpace(c) && |head.ws| > 0 && !IsSpace(head.ws[|head.ws| - 1]) {
        end, endIsHyphenated := Some(|head.ws| - 1), false;
      }
      model := MarkBreak(model, c);
    }

    /** The part of `line_char` behind the control characters. */
    method PutChar(c: Rune)
      requires Ready() && Printable(c) && CanPut(model, Glyph(c, style))
      modifies this
      ensures Shape() && model == Put(old(model), Glyph(c, old(style)))
      ensures |lines| >= |old(lines)| && forall i :: 0 <= i < |old(lines)| - 1 ==> lines[i] == old(lines[i])
      decreases 3 * Rank(model, c) + 1
    {
      hide Inv, Split, Put, Width, Overfull, LinesMatch, CanPut, SplitTail;
      ghost var s := model;
      InvBreak(s);
      PutWhole(s, Glyph(c, style));
      MatchAt(lines, model.lines, |lines| - 1);
      var head := lines[|lines| - 1];
      if lim == 0 || lim <= c.width || lim <= head.indent {
        LineAppend(c);
        return;
      }
      RecordBreak(c);
      var width := WcsWidth(head);
      if width + c.width <= lim - head.indent {
        LineAppend(c);
        return;
      }
      if IsSpace(c) {
        return;
      }
      Overflow(c);
    }

    /** The last two branches of `line_char`: the character does not fit the line. */
    method Overflow(c: Rune)
      requires Ready() && Printable(c) && CanPut(model, Glyph(c, style)) && !IsSpace(c) && !Fits(model, c)
      modifies this
      ensures Shape() && model == Put(old(model), Glyph(c, old(style)))
      ensures |lines| >= |old(lines)| && forall i :: 0 <= i < |old(lines)| - 1 ==> lines[i] == old(lines[i])
      decreases 3 * Rank(model, c)
    {
      hide Inv, Split, Put, Width, Overfull, LinesMatch;
      ghost var s := model;
      ghost var g := Glyph(c, style);
      InvBreak(s);
      PutWhole(s, g);
      MatchAt(lines, model.lines, |lines| - 1);
      if end.None? {
        LineBump();
        FreshLineFits(s, c);
        BumpInv(s);
        FeedOnFreshLine(s, g);
        LineChar(c);
      } else {
        PutBreaks(s, g);
        PutOverfills(s, g);
        OverfullInv(Append(s, g));
        LineAppend(c);
        SplitAtEnd();
      }
    }
  }
}
