/** What becomes of a printed table in the line processor. */
module TablePrinting {
  import opened TableModel
  import opened TableTheorems
  import opened LineModel
  import LineTheorems

  // ---------------------------------------------------------------- one item after another

  lemma {:induction false} ItemsConcat(a: seq<Item>, b: seq<Item>)
    ensures ItemsEvents(a + b) == ItemsEvents(a) + ItemsEvents(b)
    decreases |b|
  {
    hide ItemEvents;
    if b == [] {
      assert a + b == a;
    } else {
      ItemsConcat(a, b[..|b| - 1]);
      assert (a + b)[..|a + b| - 1] == a + b[..|b| - 1];
    }
  }

  lemma {:induction false} OneItem(item: Item)
    ensures ItemsEvents([item]) == ItemEvents(item)
  {
    assert [item][..0] == [];
  }

  lemma {:induction false} LinesConcat(a: seq<seq<Item>>, b: seq<seq<Item>>)
    ensures LinesEvents(a + b) == LinesEvents(a) + LinesEvents(b)
    decreases |b|
  {
    hide ItemsEvents;
    if b == [] {
      assert a + b == a;
    } else {
      var front, last := b[..|b| - 1], ItemsEvents(b[|b| - 1]) + [Char(LINE_FEED)];
      LinesConcat(a, front);
      assert (a + b)[..|a + b| - 1] == a + front;
      assert LinesEvents(a + b) == LinesEvents(a + front) + last;
      assert LinesEvents(b) == LinesEvents(front) + last;
    }
  }

  lemma {:induction false} OneLine(line: seq<Item>)
    ensures LinesEvents([line]) == ItemsEvents(line) + [Char(LINE_FEED)]
  {
    assert [line][..0] == [];
  }

  /** Writing some of the items ends if writing all of them does. */
  lemma {:induction false} SomeItems(s: State, a: seq<Item>, b: seq<Item>)
    requires BreakInLine(s) && LegalRun(s, ItemsEvents(a + b))
    ensures LegalRun(s, ItemsEvents(a)) && LegalRun(Run(s, ItemsEvents(a)), ItemsEvents(b))
    ensures Run(Run(s, ItemsEvents(a)), ItemsEvents(b)) == Run(s, ItemsEvents(a + b))
  {
    hide Run, LegalRun, ItemsEvents;
    ItemsConcat(a, b);
    LineTheorems.LegalConcat(s, ItemsEvents(a), ItemsEvents(b));
    LineTheorems.RunConcat(s, ItemsEvents(a), ItemsEvents(b));
  }

  lemma {:induction false} SomeLines(s: State, a: seq<seq<Item>>, b: seq<seq<Item>>)
    requires BreakInLine(s) && LegalRun(s, LinesEvents(a + b))
    ensures LegalRun(s, LinesEvents(a)) && LegalRun(Run(s, LinesEvents(a)), LinesEvents(b))
    ensures Run(Run(s, LinesEvents(a)), LinesEvents(b)) == Run(s, LinesEvents(a + b))
  {
    hide Run, LegalRun, LinesEvents;
    LinesConcat(a, b);
    LineTheorems.LegalConcat(s, LinesEvents(a), LinesEvents(b));
    LineTheorems.RunConcat(s, LinesEvents(a), LinesEvents(b));
  }

  /** `t` has written the first `n` items, and the others can be written. */
  ghost predicate ItemsDone(s: State, items: seq<Item>, n: nat, t: State) {
    && BreakInLine(s) && n <= |items|
    && LegalRun(s, ItemsEvents(items)) && t == Run(s, ItemsEvents(items[..n]))
  }

  lemma {:induction false} NoItemDone(s: State, items: seq<Item>)
    requires BreakInLine(s) && LegalRun(s, ItemsEvents(items))
    ensures ItemsDone(s, items, 0, s)
  {
  }

  lemma {:induction false} NextItem(s: State, items: seq<Item>, n: nat, t: State)
    requires ItemsDone(s, items, n, t) && n < |items|
    ensures BreakInLine(t) && LegalRun(t, ItemEvents(items[n]))
    ensures ItemsDone(s, items, n + 1, Run(t, ItemEvents(items[n])))
  {
    hide Run, LegalRun, ItemsEvents, ItemEvents;
    assert items == items[..n + 1] + items[n + 1..];
    SomeItems(s, items[..n + 1], items[n + 1..]);
    assert items[..n + 1] == items[..n] + [items[n]];
    SomeItems(s, items[..n], [items[n]]);
    OneItem(items[n]);
  }

  lemma {:induction false} AllItemsDone(s: State, items: seq<Item>, t: State)
    requires ItemsDone(s, items, |items|, t)
    ensures t == Run(s, ItemsEvents(items))
  {
    assert items[..|items|] == items;
  }

  /** `line_style`, `line_char` and `line_unstyle` are the events of a character. */
  lemma {:induction false} InkRun(s: State, g: Glyph)
    requires BreakInLine(s) && LegalRun(s, ItemEvents(Ink(g)))
    ensures var u := WithStack(s, s.stack + [g.style]);
      && BreakInLine(u) && CanFeed(u, g.rune)
      && var v := Feed(u, g.rune);
         Run(s, ItemEvents(Ink(g))) == WithStack(v, PopStack(v.stack))
  {
    hide Run, LegalRun, Feed, CanFeed, OrAll;
    var push, write, pop := Push(g.style), Char(g.rune), Pop;
    var u := WithStack(s, s.stack + [g.style]);
    var v := Feed(u, g.rune);
    assert ItemEvents(Ink(g)) == [push] + [write] + [pop];
    LineTheorems.RunOne(s, push);
    LineTheorems.RunOne(u, write);
    LineTheorems.RunOne(v, pop);
    LineTheorems.RunConcat(s, [push], [write]);
    LineTheorems.RunConcat(s, [push] + [write], [pop]);
    LineTheorems.LegalConcat(s, [push], [write]);
    LineTheorems.LegalConcat(s, [push] + [write], [pop]);
  }

  lemma {:induction false} PaddingRun(s: State)
    requires BreakInLine(s) && LegalRun(s, ItemEvents(Padding))
    ensures CanFeedAll(s, [NBSP]) && FeedAll(s, [NBSP]) == Run(s, ItemEvents(Padding))
  {
    hide Feed, CanFeed;
    LineTheorems.RunOne(s, Char(NBSP));
    assert [NBSP][..0] == [] && CanFeedAll(s, []);
  }

  lemma {:induction false} NextPiece(s: State, cells: seq<Cell>, w: seq<nat>, j: nat, height: nat, t: State)
    requires BreakInLine(s) && j < |cells| <= |w|
    requires LegalRun(s, ItemsEvents(PrintedBefore(cells, w, |cells|, height)))
    requires t == Run(s, ItemsEvents(PrintedBefore(cells, w, j, height)))
    ensures LegalRun(t, ItemsEvents(Piece(cells, w, j, height)))
    ensures Run(t, ItemsEvents(Piece(cells, w, j, height))) == Run(s, ItemsEvents(PrintedBefore(cells, w, j + 1, height)))
  {
    hide Run, LegalRun, ItemsEvents, Piece;
    PieceIsPrinted(cells, w, j, |cells|, height);
    var all, some := PrintedBefore(cells, w, |cells|, height), PrintedBefore(cells, w, j + 1, height);
    assert all == some + all[|some|..];
    SomeItems(s, some, all[|some|..]);
    SomeItems(s, PrintedBefore(cells, w, j, height), Piece(cells, w, j, height));
  }

  lemma {:induction false} NextLine(s: State, lines: seq<seq<Item>>, n: nat, t: State)
    requires BreakInLine(s) && LegalRun(s, LinesEvents(lines)) && n < |lines|
    requires t == Run(s, LinesEvents(lines[..n]))
    ensures LegalRun(t, ItemsEvents(lines[n]))
    ensures var u := Run(t, ItemsEvents(lines[n]));
      CanFeed(u, LINE_FEED) && Feed(u, LINE_FEED) == Run(s, LinesEvents(lines[..n + 1]))
  {
    hide Run, LegalRun, LinesEvents, ItemsEvents;
    assert lines == lines[..n + 1] + lines[n + 1..];
    SomeLines(s, lines[..n + 1], lines[n + 1..]);
    assert lines[..n + 1] == lines[..n] + [lines[n]];
    SomeLines(s, lines[..n], [lines[n]]);
    OneLine(lines[n]);
    LineTheorems.LegalConcat(t, ItemsEvents(lines[n]), [Char(LINE_FEED)]);
    LineTheorems.RunConcat(t, ItemsEvents(lines[n]), [Char(LINE_FEED)]);
    LineTheorems.RunOne(Run(t, ItemsEvents(lines[n])), Char(LINE_FEED));
  }

  lemma {:induction false} RowsGoOn(rows: seq<TableModel.Row>, w: seq<nat>, n: nat)
    requires n <= |rows| && forall k :: 0 <= k < |rows| ==> |rows[k]| <= |w|
    ensures PrintedRows(rows[..n], w) <= PrintedRows(rows, w)
    decreases |rows|
  {
    hide PrintedRow, Height;
    if n < |rows| {
      RowsGoOn(rows[..|rows| - 1], w, n);
      assert rows[..|rows| - 1][..n] == rows[..n];
    } else {
      assert rows[..n] == rows;
    }
  }

  lemma {:induction false} NextRow(s: State, rows: seq<TableModel.Row>, w: seq<nat>, n: nat, t: State)
    requires BreakInLine(s) && n < |rows| && forall k :: 0 <= k < |rows| ==> |rows[k]| <= |w|
    requires LegalRun(s, LinesEvents(PrintedRows(rows, w)))
    requires t == Run(s, LinesEvents(PrintedRows(rows[..n], w)))
    ensures var lines := PrintedRow(rows[n], w, Height(rows[n]));
      LegalRun(t, LinesEvents(lines)) && Run(t, LinesEvents(lines)) == Run(s, LinesEvents(PrintedRows(rows[..n + 1], w)))
  {
    hide Run, LegalRun, LinesEvents, PrintedRow, Height;
    var all, some := PrintedRows(rows, w), PrintedRows(rows[..n + 1], w);
    RowsGoOn(rows, w, n + 1);
    assert all == some + all[|some|..];
    SomeLines(s, some, all[|some|..]);
    assert rows[..n + 1][..n] == rows[..n];
    SomeLines(s, PrintedRows(rows[..n], w), PrintedRow(rows[n], w, Height(rows[n])));
  }

  // ---------------------------------------------------------------- lines with room for them

  function RuneOf(item: Item): Rune {
    match item
    case Ink(g) => g.rune
    case Padding => NBSP
  }

  /** The item on the page, on top of the styles in force. */
  function ShownItem(item: Item, stack: seq<Style>): Glyph {
    match item
    case Ink(g) => Glyph(g.rune, OrAll(stack + [g.style]))
    case Padding => Glyph(NBSP, OrAll(stack))
  }

  function ShownLine(items: seq<Item>, stack: seq<Style>): (cells: seq<Glyph>)
    ensures |cells| == |items| && forall k :: 0 <= k < |items| ==> cells[k] == ShownItem(items[k], stack)
  {
    seq(|items|, k requires 0 <= k < |items| => ShownItem(items[k], stack))
  }

  predicate ItemsPrintable(items: seq<Item>) {
    forall k :: 0 <= k < |items| ==> Printable(RuneOf(items[k]))
  }

  function Columns(items: seq<Item>): nat
    requires ItemsPrintable(items)
  {
    if items == [] then 0 else Columns(items[..|items| - 1]) + RuneOf(items[|items| - 1]).width
  }

  /** The processor in the styles of its stack. */
  predicate InStyle(s: State) {
    BreakInLine(s) && s.style == OrAll(s.stack)
  }

  predicate SameContext(s: State, t: State) {
    (t.lim, t.indent, t.style, t.stack) == (s.lim, s.indent, s.style, s.stack)
  }

  function WithCells(s: State, cells: seq<Glyph>): seq<LineModel.Row>
    requires s.lines != []
  {
    s.lines[|s.lines| - 1 := Head(s).(cells := Head(s).cells + cells)]
  }

  lemma {:induction false} FedWhereItFits(s: State, r: Rune)
    requires BreakInLine(s) && Printable(r) && LineModel.Fits(s, r)
    ensures CanFeed(s, r)
    ensures Feed(s, r).lines == WithCells(s, [Glyph(r, s.style)])
    ensures SameContext(s, Feed(s, r))
  {
    hide Width;
    LineTheorems.PutOne(s, Glyph(r, s.style));
  }

  lemma {:induction false} ItemWritten(s: State, item: Item)
    requires InStyle(s) && Printable(RuneOf(item)) && LineModel.Fits(s, RuneOf(item))
    ensures LegalRun(s, ItemEvents(item))
    ensures var t := Run(s, ItemEvents(item));
      InStyle(t) && SameContext(s, t) && t.lines == WithCells(s, [ShownItem(item, s.stack)])
  {
    hide Width, Feed, OrAll, Run, LegalRun, CanFeed;
    match item
    case Padding =>
      LineTheorems.RunOne(s, Char(NBSP));
      FedWhereItFits(s, NBSP);
    case Ink(g) =>
      var stack := s.stack + [g.style];
      var push, write, pop := Push(g.style), Char(g.rune), Pop;
      var u := WithStack(s, stack);
      assert Head(u) == Head(s);
      FedWhereItFits(u, g.rune);
      var v := Feed(u, g.rune);
      LineTheorems.RunOne(s, push);
      LineTheorems.RunOne(u, write);
      LineTheorems.RunOne(v, pop);
      LineTheorems.RunConcat(s, [push], [write]);
      LineTheorems.LegalConcat(s, [push], [write]);
      LineTheorems.RunConcat(s, [push] + [write], [pop]);
      LineTheorems.LegalConcat(s, [push] + [write], [pop]);
      assert PopStack(stack) == s.stack;
      assert ItemEvents(item) == [push] + [write] + [pop];
  }

  lemma {:induction false} WidthSnoc(cells: seq<Glyph>, g: Glyph)
    ensures Width(cells + [g]) == Width(cells) + g.rune.width
  {
    assert (cells + [g])[..|cells|] == cells;
  }

  lemma {:induction false} ShownRune(item: Item, stack: seq<Style>)
    ensures ShownItem(item, stack).rune == RuneOf(item)
  {
  }

  lemma {:induction false} ShownWidth(cells: seq<Glyph>, items: seq<Item>, stack: seq<Style>)
    requires ItemsPrintable(items)
    ensures Width(cells + ShownLine(items, stack)) == Width(cells) + Columns(items)
    decreases |items|
  {
    hide ShownItem, RuneOf, Width;
    if items == [] {
      assert cells + ShownLine(items, stack) == cells;
    } else {
      var n := |items| - 1;
      var last := ShownItem(items[n], stack);
      ShownWidth(cells, items[..n], stack);
      ShownRune(items[n], stack);
      WidthSnoc(cells + ShownLine(items[..n], stack), last);
      assert cells + ShownLine(items, stack) == cells + ShownLine(items[..n], stack) + [last];
    }
  }

  /** The line has room for the items. */
  predicate HasRoom(s: State, items: seq<Item>)
    requires s.lines != [] && ItemsPrintable(items)
  {
    s.lim == 0 || Head(s).indent + Width(Head(s).cells) + Columns(items) <= s.lim
  }

  lemma {:induction false} WithMoreCells(s: State, t: State, cells: seq<Glyph>, u: State, more: seq<Glyph>)
    requires s.lines != [] && t.lines == WithCells(s, cells) && u.lines == WithCells(t, more)
    ensures u.lines == WithCells(s, cells + more)
  {
    assert Head(t).cells + more == Head(s).cells + (cells + more);
  }

  lemma {:induction false} ItemsWritten(s: State, items: seq<Item>)
    requires InStyle(s) && ItemsPrintable(items) && HasRoom(s, items)
    ensures LegalRun(s, ItemsEvents(items))
    ensures var t := Run(s, ItemsEvents(items));
      InStyle(t) && SameContext(s, t) && t.lines == WithCells(s, ShownLine(items, s.stack))
    decreases |items|
  {
    hide Width, Run, LegalRun, OrAll, ItemEvents, ShownItem;
    if items == [] {
      NothingWritten(s);
      assert Head(s).cells + [] == Head(s).cells;
    } else {
      var front, item := items[..|items| - 1], items[|items| - 1];
      ItemsWritten(s, front);
      var t := Run(s, ItemsEvents(front));
      ShownWidth(Head(s).cells, front, s.stack);
      ItemWritten(t, item);
      var u := Run(t, ItemEvents(item));
      LineTheorems.RunConcat(s, ItemsEvents(front), ItemEvents(item));
      LineTheorems.LegalConcat(s, ItemsEvents(front), ItemEvents(item));
      WithMoreCells(s, t, ShownLine(front, s.stack), u, [ShownItem(item, s.stack)]);
      assert ShownLine(items, s.stack) == ShownLine(front, s.stack) + [ShownItem(item, s.stack)];
    }
  }

  lemma {:induction false} NothingWritten(s: State)
    requires BreakInLine(s)
    ensures Run(s, []) == s && LegalRun(s, [])
  {
  }

  /** The rows that the lines become. */
  function ShownLines(lines: seq<seq<Item>>, s: State): (rows: seq<LineModel.Row>)
    ensures |rows| == |lines|
    ensures forall k :: 0 <= k < |lines| ==> rows[k] == LineModel.Row(ShownLine(lines[k], s.stack), false, s.indent)
  {
    seq(|lines|, k requires 0 <= k < |lines| => LineModel.Row(ShownLine(lines[k], s.stack), false, s.indent))
  }

  /** A new line. */
  predicate IsFresh(s: State) {
    InStyle(s) && Head(s) == LineModel.Row([], false, s.indent)
  }

  predicate AllHaveRoom(s: State, lines: seq<seq<Item>>) {
    forall k :: 0 <= k < |lines| ==>
      ItemsPrintable(lines[k]) && (s.lim == 0 || s.indent + Columns(lines[k]) <= s.lim)
  }

  lemma {:induction false} LineWritten(s: State, line: seq<Item>)
    requires IsFresh(s) && AllHaveRoom(s, [line])
    ensures LegalRun(s, ItemsEvents(line) + [Char(LINE_FEED)])
    ensures var t := Run(s, ItemsEvents(line) + [Char(LINE_FEED)]);
      && IsFresh(t) && SameContext(s, t)
      && t.lines == s.lines[..|s.lines| - 1] + ShownLines([line], s) + [LineModel.Row([], false, s.indent)]
  {
    hide Run, LegalRun, OrAll, ShownItem;
    assert ItemsPrintable([line][0]) && Width([]) == 0;
    ItemsWritten(s, line);
    var t := Run(s, ItemsEvents(line));
    LineTheorems.RunOne(t, Char(LINE_FEED));
    LineTheorems.RunConcat(s, ItemsEvents(line), [Char(LINE_FEED)]);
    LineTheorems.LegalConcat(s, ItemsEvents(line), [Char(LINE_FEED)]);
    assert [] + ShownLine(line, s.stack) == ShownLine(line, s.stack);
  }

  /** Lines that have room come out as they are: one row each, in their order, with the styles of their
      cells and nothing broken. */
  lemma {:induction false} LinesStand(s: State, lines: seq<seq<Item>>)
    requires IsFresh(s) && AllHaveRoom(s, lines)
    ensures LegalRun(s, LinesEvents(lines))
    ensures var t := Run(s, LinesEvents(lines));
      && IsFresh(t) && SameContext(s, t)
      && t.lines == s.lines[..|s.lines| - 1] + ShownLines(lines, s) + [LineModel.Row([], false, s.indent)]
    decreases |lines|
  {
    hide Run, LegalRun, OrAll, ShownLine, ItemsPrintable, ItemsEvents;
    if lines == [] {
      NothingWritten(s);
    } else {
      var front, line := lines[..|lines| - 1], lines[|lines| - 1];
      LinesStand(s, front);
      var t := Run(s, LinesEvents(front));
      var last := ItemsEvents(line) + [Char(LINE_FEED)];
      LineWritten(t, line);
      assert LinesEvents(lines) == LinesEvents(front) + last;
      LineTheorems.RunConcat(s, LinesEvents(front), last);
      LineTheorems.LegalConcat(s, LinesEvents(front), last);
      assert ShownLines(lines, s) == ShownLines(front, s) + ShownLines([line], s);
    }
  }

  // ---------------------------------------------------------------- where a cell stands on the page

  /** How many lines the rows before `i` take. */
  function LinesAbove(rows: seq<TableModel.Row>, i: nat): nat
    requires i <= |rows|
  {
    if i == 0 then 0 else LinesAbove(rows, i - 1) + Height(rows[i - 1])
  }

  lemma {:induction false} PrintedAt(rows: seq<TableModel.Row>, w: seq<nat>, i: nat, height: nat)
    requires i < |rows| && height < Height(rows[i]) && forall k :: 0 <= k < |rows| ==> |rows[k]| <= |w|
    ensures |PrintedRows(rows, w)| == LinesAbove(rows, |rows|)
    ensures LinesAbove(rows, i) + height < LinesAbove(rows, |rows|)
    ensures PrintedRows(rows, w)[LinesAbove(rows, i) + height] == PrintedBefore(rows[i], w, |rows[i]|, height)
    decreases |rows|
  {
    hide Height, PrintedBefore;
    var n := |rows| - 1;
    PrintedCount(rows, w);
    PrintedCount(rows[..n], w);
    LinesAbovePrefix(rows, n, n);
    LinesAbovePrefix(rows, n, if i < n then i else n);
    if i < n {
      PrintedAt(rows[..n], w, i, height);
    }
  }

  lemma {:induction false} LinesAbovePrefix(rows: seq<TableModel.Row>, n: nat, i: nat)
    requires i <= n <= |rows|
    ensures LinesAbove(rows[..n], i) == LinesAbove(rows, i)
  {
    hide Height;
    if i > 0 { LinesAbovePrefix(rows, n, i - 1); }
  }

  lemma {:induction false} PrintedCount(rows: seq<TableModel.Row>, w: seq<nat>)
    requires forall k :: 0 <= k < |rows| ==> |rows[k]| <= |w|
    ensures |PrintedRows(rows, w)| == LinesAbove(rows, |rows|)
    decreases |rows|
  {
    hide Height, PrintedBefore;
    if rows != [] {
      var n := |rows| - 1;
      PrintedCount(rows[..n], w);
      LinesAbovePrefix(rows, n, n);
    }
  }

  lemma {:induction false} PieceIsPrinted(cells: seq<Cell>, w: seq<nat>, j: nat, k: nat, height: nat)
    requires j < k <= |cells| <= |w|
    ensures PrintedBefore(cells, w, j, height) + Piece(cells, w, j, height) <= PrintedBefore(cells, w, k, height)
    decreases k
  {
    hide Piece;
    if k > j + 1 { PieceIsPrinted(cells, w, j, k - 1, height); }
  }

  lemma {:induction false} TextIsPrinted(cells: seq<Cell>, w: seq<nat>, j: nat, height: nat)
    requires j < |cells| <= |w| && cells[j].colspan > 0
    ensures var line, at, text := PrintedBefore(cells, w, |cells|, height), |PrintedBefore(cells, w, j, height)|, TextAt(cells[j], height);
      at + |text| <= |line| && line[at..at + |text|] == Inked(text)
  {
    hide PrintedBefore, TextAt, SpanWidth, Piece;
    PieceIsPrinted(cells, w, j, |cells|, height);
    PieceHasText(cells, w, j, height);
    Inside(PrintedBefore(cells, w, |cells|, height), PrintedBefore(cells, w, j, height), Piece(cells, w, j, height),
           Inked(TextAt(cells[j], height)));
  }

  lemma {:induction false} PieceHasText(cells: seq<Cell>, w: seq<nat>, j: nat, height: nat)
    requires j < |cells| <= |w| && cells[j].colspan > 0
    ensures Inked(TextAt(cells[j], height)) <= Piece(cells, w, j, height)
  {
    hide SpanWidth, TextAt, Spaces;
  }

  lemma {:induction false} Inside(line: seq<Item>, before: seq<Item>, piece: seq<Item>, text: seq<Item>)
    requires before + piece <= line && text <= piece
    ensures |before| + |text| <= |line| && line[|before|..|before| + |text|] == text
  {
    assert line[..|before| + |piece|] == before + piece;
    assert line[|before|..|before| + |text|] == (before + piece)[|before|..|before| + |text|];
  }

  /** A table that has room is on the page as it was made: the text that a cell has at some height of its
      row is in that row of the page, from the start of the cell's column on and in the cell's styles, when
      the spanning cells of the row have one line each. */
  lemma {:induction false} TableStands(s: State, rows: seq<TableModel.Row>, i: nat, j: nat, height: nat)
    requires IsFresh(s) && TableOk(rows) && AllHaveRoom(s, PrintedRows(rows, Widths(rows)))
    requires i < |rows| && j < |rows[i]| && rows[i][j].colspan > 0 && height < Height(rows[i]) && SpansAreLow(rows[i])
    ensures LegalRun(s, TableEvents(rows)) && |rows[i]| <= |Widths(rows)|
    ensures var t := Run(s, TableEvents(rows));
      var k, at, text := |s.lines| - 1 + LinesAbove(rows, i) + height, Offset(Widths(rows), j), TextAt(rows[i][j], height);
      && k < |t.lines| && at + |text| <= |t.lines[k].cells|
      && t.lines[k].cells[at..at + |text|] == ShownLine(Inked(text), s.stack)
  {
    hide Run, LegalRun, Widths, PrintedBefore, PrintedRows, Height, TextAt, WellFormed, Offset, AllHaveRoom, OrAll, LinesEvents;
    var w := Widths(rows);
    AllCovered(rows);
    PrintedAt(rows, w, i, height);
    ColumnsLineUp(rows, i, height);
    TextIsPrinted(rows[i], w, j, height);
    LinesStand(s, PrintedRows(rows, w));
  }

  lemma {:induction false} AllCovered(rows: seq<TableModel.Row>)
    requires TableOk(rows)
    ensures forall i :: 0 <= i < |rows| ==> |rows[i]| <= |Widths(rows)|
  {
  }
}
