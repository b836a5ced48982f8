/** The table as `src/render_data/render-text-html.c` builds it up and prints it. */
module HtmlTable {
  import opened TableModel
  import opened TableTheorems
  import opened TablePrinting
  import opened LineProcessor
  import LineModel

  class HtmlTable {
    var rows: seq<Row>
    /** The column of the cell that text goes to. */
    var column: nat

    ghost predicate Valid()
      reads this
    {
      TableOk(rows) && SpansOk(rows)
    }

    constructor ()
      ensures Valid() && rows == []
    {
      rows, column := [], 0;
    }

    method AddRow()
      requires Valid()
      modifies this
      ensures Valid() && rows == old(rows) + [[]] && column == old(column)
    {
      RowKeepsTable(rows);
      RowKeepsSpans(rows);
      rows := rows + [[]];
    }

    /** Skips the columns that cells above reach down to. */
    static method SkipReserved(rows: seq<Row>, start: nat) returns (c: nat)
      requires rows != []
      ensures c == FreeColumn(rows[..|rows| - 1], start)
    {
      ghost var above := rows[..|rows| - 1];
      c := start;
      var i := 0;
      while i < |rows| - 1
        invariant 0 <= i <= |above| && c >= start
        invariant forall k :: start <= k < c ==> Reserved(above, k)
        invariant forall k :: 0 <= k < i ==> !ReservedBy(above, c, k)
        decreases if c < Longest(above) then Longest(above) - c else 0, |above| - i
      {
        assert above[i] == rows[i];
        if c < |rows[i]| && rows[i][c].rowspan + i >= |rows| {
          assert ReservedBy(above, c, i);
          c := c + 1;
          i := 0;
        } else {
          i := i + 1;
        }
      }
      assert !Reserved(above, c);
      assert FreeColumn(above, start) >= start && !Reserved(above, FreeColumn(above, start));
    }

    /** Fills the places from the end of the row on. */
    static method FillCells(before: Row, free: nat, colspan: nat, rowspan: nat) returns (cells: Row)
      requires free >= |before| && colspan >= 1
      ensures cells == before + NewCells(free - |before|, colspan, rowspan)
    {
      var oldCount, count := |before|, free + colspan;
      ghost var news := NewCells(free - oldCount, colspan, rowspan);
      cells := before;
      for i := oldCount to count
        invariant cells == before + news[..i - oldCount]
      {
        var cell;
        if i < count - colspan {
          cell := Cell([[]], 1, -1);
        } else if i > count - colspan {
          cell := Cell([[]], -1, rowspan);
        } else {
          cell := Cell([[]], colspan, rowspan);
        }
        assert cell == news[i - oldCount];
        cells := cells + [cell];
      }
      assert news[..count - oldCount] == news;
    }

    method AddCell(colspanAttribute: Attribute, rowspanAttribute: Attribute)
      requires Valid()
      modifies this
      ensures Valid() && rows == WithCell(old(rows), CountOf(colspanAttribute), CountOf(rowspanAttribute))
      ensures column < |rows[|rows| - 1]| && column == |rows[|rows| - 1]| - CountOf(colspanAttribute)
    {
      hide FreeColumn, NewCells, TableOk, Placed, CountOf, SpansOk;
      var colspan, rowspan := CountOf(colspanAttribute), CountOf(rowspanAttribute);
      CellIsPlaced(rows, colspan, rowspan);
      CellKeepsSpans(rows, colspan, rowspan);
      ghost var rows1 := if rows == [] then [[]] else rows;
      if |rows| == 0 {
        AddRow();
      }
      assert rows == rows1;
      var n := |rows| - 1;
      var free := SkipReserved(rows, |rows[n]|);
      var cells := FillCells(rows[n], free, colspan, rowspan);
      rows := rows[n := cells];
      column := free;
    }

    /** The text of the cell that was added last. */
    method SetText(lines: seq<Text>)
      requires Valid() && rows != [] && column < |rows[|rows| - 1]| && |lines| >= 1
      modifies `rows
      ensures Valid() && |rows| == |old(rows)| && rows[..|rows| - 1] == old(rows)[..|rows| - 1]
      ensures rows[|rows| - 1] == old(rows)[|rows| - 1][column := old(rows)[|rows| - 1][column].(lines := lines)]
    {
      var n := |rows| - 1;
      var cells := rows[n][column := rows[n][column].(lines := lines)];
      SameShape(rows[n], cells, 0);
      TextKeepsSpans(rows, rows[n := cells]);
      rows := rows[n := cells];
    }

    // -------------------------------------------------------------- widths

    method CountColumns() returns (n: nat)
      ensures n == Longest(rows)
    {
      n := 0;
      for i := 0 to |rows|
        invariant n == Longest(rows[..i])
      {
        assert rows[..i + 1][..i] == rows[..i];
        if |rows[i]| > n {
          n := |rows[i]|;
        }
      }
      assert rows[..|rows|] == rows;
    }

    static method CellHeight(cells: Row) returns (h: nat)
      ensures h == Height(cells)
    {
      h := 1;
      for j := 0 to |cells|
        invariant h == Height(cells[..j])
      {
        assert cells[..j + 1][..j] == cells[..j];
        if h < |cells[j].lines| {
          h := |cells[j].lines|;
        }
      }
      assert cells[..|cells|] == cells;
    }

    /** Every cell that spans one column makes its column as wide as its longest line. */
    method MeasureCells(widths: array<nat>)
      requires widths.Length == Longest(rows) && forall j :: 0 <= j < widths.Length ==> widths[j] == 0
      modifies widths
      ensures widths[..] == BaseWidths(rows)
    {
      hide Longest, Demand, LongestLine;
      for i := 0 to |rows|
        invariant forall j :: 0 <= j < widths.Length ==> widths[j] == Demands(rows[..i], j)
      {
        assert rows[..i + 1][..i] == rows[..i];
        assert |rows[i]| <= widths.Length;
        MeasureRow(widths, rows[i]);
      }
      assert rows[..|rows|] == rows;
    }

    static method MeasureRow(widths: array<nat>, cells: Row)
      requires |cells| <= widths.Length
      modifies widths
      ensures forall j :: 0 <= j < widths.Length ==>
        widths[j] == if Demand(cells, j) > old(widths[j]) then Demand(cells, j) else old(widths[j])
    {
      for j := 0 to |cells|
        invariant forall k :: 0 <= k < j ==>
          widths[k] == if Demand(cells, k) > old(widths[k]) then Demand(cells, k) else old(widths[k])
        invariant forall k :: j <= k < widths.Length ==> widths[k] == old(widths[k])
      {
        if cells[j].colspan > 1 {
          continue;
        }
        var lines := cells[j].lines;
        for k := 0 to |lines|
          invariant widths[j] ==
            if LongestLine(lines[..k]) > old(widths[j]) then LongestLine(lines[..k]) else old(widths[j])
          invariant forall m :: 0 <= m < widths.Length && m != j ==> widths[m] == old(widths[m]) || m < j
          invariant forall m :: 0 <= m < j ==>
            widths[m] == if Demand(cells, m) > old(widths[m]) then Demand(cells, m) else old(widths[m])
        {
          assert lines[..k + 1][..k] == lines[..k];
          if widths[j] < |lines[k]| {
            widths[j] := |lines[k]|;
          }
        }
        assert lines[..|lines|] == lines;
      }
    }

    /** The sum of the spanned columns and the narrowest of them. */
    static method SumAndNarrowest(widths: array<nat>, j: nat, colspan: nat) returns (sum: nat, least: nat)
      requires j < widths.Length && colspan > 1
      ensures var end := if j + colspan < widths.Length then j + colspan else widths.Length;
        sum == Sum(widths[..], j, end) && least == Narrowest(widths[..], j, end)
    {
      sum, least := widths[j], j;
      var k := 1;
      assert Sum(widths[..], j, j) == 0;
      while k < colspan && j + k < widths.Length
        invariant 1 <= k <= colspan && j + k <= widths.Length
        invariant sum == Sum(widths[..], j, j + k) && least == Narrowest(widths[..], j, j + k)
      {
        sum := sum + widths[j + k];
        if widths[j + k] < widths[least] {
          least := j + k;
        }
        k := k + 1;
      }
    }

    /** The columns under a spanning cell are widened, the narrowest first, until its first line fits. */
    static method WidenFor(widths: array<nat>, j: nat, colspan: nat, length: nat)
      requires j < widths.Length && colspan > 1
      modifies widths
      ensures widths[..] ==
        Widened(old(widths[..]), j, if j + colspan < widths.Length then j + colspan else widths.Length, length)
    {
      hide Sum, Narrowest;
      ghost var end := if j + colspan < widths.Length then j + colspan else widths.Length;
      while true
        invariant Widened(widths[..], j, end, length) == Widened(old(widths[..]), j, end, length)
        decreases length - Sum(widths[..], j, end)
      {
        var sum, least := SumAndNarrowest(widths, j, colspan);
        if sum >= length {
          break;
        }
        ghost var w := widths[..];
        SumRaised(w, j, end, least);
        widths[least] := widths[least] + 1;
        assert widths[..] == w[least := w[least] + 1];
      }
    }

    method AdjustColumnWidths(widths: array<nat>)
      requires Valid() && widths.Length == Longest(rows)
      modifies widths
      ensures widths[..] == WidenedRows(old(widths[..]), rows)
    {
      hide Longest, Widened, WellFormed, WidenedRow;
      for i := 0 to |rows|
        invariant forall k :: 0 <= k < i ==> rows[..i][k] == rows[k]
        invariant widths[..] == WidenedRows(old(widths[..]), rows[..i])
      {
        assert rows[..i + 1][..i] == rows[..i];
        assert |rows[i]| <= widths.Length && HaveLines(rows[i]);
        AdjustForRow(widths, rows[i]);
      }
      assert rows[..|rows|] == rows;
    }

    static method AdjustForRow(widths: array<nat>, cells: Row)
      requires |cells| <= widths.Length && HaveLines(cells)
      modifies widths
      ensures widths[..] == WidenedRow(old(widths[..]), cells, |cells|)
    {
      hide Widened;
      for j := 0 to |cells|
        invariant widths[..] == WidenedRow(old(widths[..]), cells, j)
      {
        if cells[j].colspan > 1 {
          WidenFor(widths, j, cells[j].colspan, |cells[j].lines[0]|);
        }
      }
    }

    // -------------------------------------------------------------- printing

    /** `line_style`, `line_char` and `line_unstyle`. */
    static method PrintGlyph(line: Line, g: LineModel.Glyph)
      requires line.Ready() && LineModel.BreakInLine(line.model)
      requires LineModel.LegalRun(line.model, ItemEvents(Ink(g)))
      modifies line
      ensures line.Ready() && line.model == LineModel.Run(old(line.model), ItemEvents(Ink(g)))
    {
      hide LineModel.Inv, LineModel.Run, LineModel.LegalRun, LineModel.Feed, LineModel.CanFeed, LineModel.OrAll;
      InkRun(line.model, g);
      line.PushStyle(g.style);
      line.LineChar(g.rune);
      line.PopStyle();
    }

    static method PrintPadding(line: Line)
      requires line.Ready() && LineModel.BreakInLine(line.model)
      requires LineModel.LegalRun(line.model, ItemEvents(Padding))
      modifies line
      ensures line.Ready() && line.model == LineModel.Run(old(line.model), ItemEvents(Padding))
    {
      hide LineModel.Inv, LineModel.Run, LineModel.LegalRun, LineModel.FeedAll, LineModel.CanFeedAll;
      PaddingRun(line.model);
      line.LineString([NBSP]);
    }

    /** The text that the cell has at this height. */
    static method PrintText(line: Line, text: Text, ghost s: LineModel.State, ghost items: seq<Item>)
      requires line.Ready() && ItemsDone(s, items, 0, line.model) && Inked(text) <= items
      modifies line
      ensures line.Ready() && ItemsDone(s, items, |text|, line.model)
    {
      hide LineModel.Inv, ItemsDone;
      for g := 0 to |text|
        invariant line.Ready() && ItemsDone(s, items, g, line.model)
      {
        assert items[g] == Inked(text)[g];
        NextItem(s, items, g, line.model);
        PrintGlyph(line, text[g]);
      }
    }

    static method PrintCell(line: Line, cells: Row, widths: array<nat>, j: nat, height: nat)
      requires j < |cells| <= widths.Length && line.Ready() && LineModel.BreakInLine(line.model)
      requires LineModel.LegalRun(line.model, ItemsEvents(Piece(cells, widths[..], j, height)))
      modifies line
      ensures line.Ready()
      ensures line.model == LineModel.Run(old(line.model), ItemsEvents(Piece(cells, widths[..], j, height)))
    {
      hide LineModel.Inv, LineModel.Run, LineModel.LegalRun, LineModel.BreakInLine, ItemsEvents, ItemsDone, SpanWidth;
      ghost var s := line.model;
      ghost var items := Piece(cells, widths[..], j, height);
      NoItemDone(s, items);
      if cells[j].colspan <= 0 {
        AllItemsDone(s, items, line.model);
        return;
      }
      var w := SpannedWidth(cells, widths, j);
      ghost var text := TextAt(cells[j], height);
      if cells[j].rowspan >= 0 && height < |cells[j].lines| {
        PrintText(line, cells[j].lines[height], s, items);
        w := w - |cells[j].lines[height]|;
      }
      if j + 1 < |cells| {
        var l := 0;
        while l < w + SPACING
          invariant 0 <= l && (l > 0 ==> l <= w + SPACING)
          invariant line.Ready() && ItemsDone(s, items, |text| + l, line.model)
        {
          assert items[|text| + l] == Padding;
          NextItem(s, items, |text| + l, line.model);
          PrintPadding(line);
          l := l + 1;
        }
      }
      AllItemsDone(s, items, line.model);
    }

    /** The width of a cell and of what it spans. */
    static method SpannedWidth(cells: Row, widths: array<nat>, j: nat) returns (w: int)
      requires j < |cells| <= widths.Length
      ensures w == SpanWidth(cells, widths[..], j, j + 1)
    {
      w := widths[j];
      var k := j + 1;
      while k < |cells| && cells[k].colspan == -1
        invariant j < k <= |cells|
        invariant w + SpanWidth(cells, widths[..], j, k) == widths[j] + SpanWidth(cells, widths[..], j, j + 1)
      {
        w := w + SPACING + widths[k];
        k := k + 1;
      }
    }

    /** Prints the table into the lines of the page. */
    method Print(line: Line)
      requires Valid() && line.Ready() && LineModel.BreakInLine(line.model)
      requires LineModel.LegalRun(line.model, TableEvents(rows))
      modifies line
      ensures line.Ready() && line.model == LineModel.Run(old(line.model), TableEvents(rows))
    {
      hide Widths, Longest, WellFormed, Height, PrintedRow, LineModel.Inv, LineModel.Run, LineModel.LegalRun,
        LineModel.BreakInLine, LinesEvents;
      ghost var s, w := line.model, Widths(rows);
      var n := CountColumns();
      var widths := new nat[n](_ => 0);
      MeasureCells(widths);
      assert widths[..] == BaseWidths(rows);
      AdjustColumnWidths(widths);
      WidthsUnfold(rows);
      NoLines(s);
      for i := 0 to |rows|
        invariant widths[..] == w && line.Ready()
        invariant line.model == LineModel.Run(s, LinesEvents(PrintedRows(rows[..i], w)))
      {
        var height := CellHeight(rows[i]);
        NextRow(s, rows, w, i, line.model);
        PrintRow(line, rows[i], widths, height);
      }
      assert rows[..|rows|] == rows;
    }

    static method PrintRow(line: Line, cells: Row, widths: array<nat>, heights: nat)
      requires |cells| <= widths.Length && line.Ready() && LineModel.BreakInLine(line.model)
      requires LineModel.LegalRun(line.model, LinesEvents(PrintedRow(cells, widths[..], heights)))
      modifies line
      ensures line.Ready()
      ensures line.model == LineModel.Run(old(line.model), LinesEvents(PrintedRow(cells, widths[..], heights)))
    {
      hide Piece, LineModel.Inv, LineModel.Run, LineModel.LegalRun, LineModel.Feed, LineModel.CanFeed, LinesEvents,
        ItemsEvents, PrintedBefore;
      ghost var s := line.model;
      ghost var lines := PrintedRow(cells, widths[..], heights);
      NoLines(s);
      for height := 0 to heights
        invariant line.Ready() && line.model == LineModel.Run(s, LinesEvents(lines[..height]))
      {
        NextLine(s, lines, height, line.model);
        PrintLine(line, cells, widths, height);
        line.LineChar(LINE_FEED);
      }
      assert lines[..heights] == lines;
    }

    static method PrintLine(line: Line, cells: Row, widths: array<nat>, height: nat)
      requires |cells| <= widths.Length && line.Ready() && LineModel.BreakInLine(line.model)
      requires LineModel.LegalRun(line.model, ItemsEvents(PrintedBefore(cells, widths[..], |cells|, height)))
      modifies line
      ensures line.Ready()
      ensures line.model == LineModel.Run(old(line.model), ItemsEvents(PrintedBefore(cells, widths[..], |cells|, height)))
    {
      hide Piece, LineModel.Inv, LineModel.Run, LineModel.LegalRun, ItemsEvents;
      ghost var s := line.model;
      NoLines(s);
      for j := 0 to |cells|
        invariant line.Ready() && line.model == LineModel.Run(s, ItemsEvents(PrintedBefore(cells, widths[..], j, height)))
      {
        NextPiece(s, cells, widths[..], j, height, line.model);
        PrintCell(line, cells, widths, j, height);
      }
    }
  }

  lemma {:induction false} NoLines(s: LineModel.State)
    requires LineModel.BreakInLine(s)
    ensures LineModel.Run(s, LinesEvents([])) == s && LineModel.Run(s, ItemsEvents([])) == s
  {
  }

  lemma {:induction false} WidthsUnfold(rows: seq<Row>)
    requires TableOk(rows)
    ensures Widths(rows) == WidenedRows(BaseWidths(rows), rows)
  {
  }

  predicate SameSpans(rows: seq<Row>, r: seq<Row>) {
    && |r| == |rows|
    && (forall k :: 0 <= k < |rows| ==> |r[k]| == |rows[k]|)
    && (forall k, c :: 0 <= k < |rows| && 0 <= c < |rows[k]| ==>
          r[k][c].colspan == rows[k][c].colspan && r[k][c].rowspan == rows[k][c].rowspan)
  }

  lemma {:induction false} TextKeepsSpans(rows: seq<Row>, r: seq<Row>)
    requires SpansOk(rows) && SameSpans(rows, r)
    ensures SpansOk(r)
  {
    forall k, c | 0 <= k < |r| && 0 <= c < |r[k]| ensures PlaceOk(r, k, c) {
      assert PlaceOk(rows, k, c);
      assert Spanned(r, k, c) == Spanned(rows, k, c);
    }
  }

  /** Text does not matter to the shape of a row. */
  lemma {:induction false} SameShape(a: Row, b: Row, j: nat)
    requires |a| == |b| && j <= |a| && WellFormed(a, j)
    requires forall k :: 0 <= k < |a| ==> a[k].colspan == b[k].colspan
    ensures WellFormed(b, j)
    decreases |a| - j
  {
    if j < |a| {
      SameShape(a, b, j + a[j].colspan);
    }
  }
}
