/** The tables of `src/render_data/render-text-html.c`: where a cell is put, how wide the columns are
    and what is printed. */
module TableModel {
  import LineModel

  const SPACING: nat := 2
  const NBSP: LineModel.Rune := LineModel.Rune(0xA0, 1)

  /** A line of text in a cell, as the line processor of the cell left it: characters with their styles. */
  type Text = seq<LineModel.Glyph>

  /** What a table is printed with: characters from its cells, and the spaces between the columns. */
  datatype Item = Ink(glyph: LineModel.Glyph) | Padding

  /** The lines of text in a cell; `colspan` is -1 for the cells that a spanning cell continues into, and
      `rowspan` is -1 for the empty cells that stand where a cell from above reaches down. */
  datatype Cell = Cell(lines: seq<Text>, colspan: int, rowspan: int)

  type Row = seq<Cell>

  /** A `colspan` or `rowspan` attribute: an 8-bit number, or none. */
  datatype Attribute = Absent | Number(value: int)

  function CountOf(a: Attribute): (n: nat)
    ensures n == 1 || (a.Number? && n == a.value > 1)
    ensures a.Number? && a.value > 1 ==> n == a.value
  {
    if a.Number? && a.value > 0 then a.value else 1
  }

  // ---------------------------------------------------------------- placing a cell

  /** A cell in one of the rows above reaches down to the column `c` of the row below them. */
  predicate ReservedBy(above: seq<Row>, c: nat, i: nat)
    requires i < |above|
  {
    c < |above[i]| && above[i][c].rowspan + i >= |above| + 1
  }

  predicate Reserved(above: seq<Row>, c: nat) {
    exists i :: 0 <= i < |above| && ReservedBy(above, c, i)
  }

  function Longest(rows: seq<Row>): (n: nat)
    ensures forall i :: 0 <= i < |rows| ==> |rows[i]| <= n
    ensures n > 0 ==> exists i :: 0 <= i < |rows| && |rows[i]| == n
  {
    if rows == [] then 0
    else
      var n, m := Longest(rows[..|rows| - 1]), |rows[|rows| - 1]|;
      assert forall i :: 0 <= i < |rows| - 1 ==> rows[..|rows| - 1][i] == rows[i];
      assert m >= n ==> |rows[|rows| - 1]| == m;
      if m > n then m else n
  }

  /** The first column from `c` on that is not reserved. */
  function FreeColumn(above: seq<Row>, c: nat): (f: nat)
    ensures f >= c && !Reserved(above, f)
    ensures forall k :: c <= k < f ==> Reserved(above, k)
    decreases if c < Longest(above) then Longest(above) - c else 0
  {
    if Reserved(above, c) then
      var i :| 0 <= i < |above| && ReservedBy(above, c, i);
      assert |above[i]| <= Longest(above);
      FreeColumn(above, c + 1)
    else c
  }

  /** The cells that a new cell adds to its row: placeholders up to its place, the cell itself with one
      empty line, and what it spans. */
  function Placeholder(): Cell {
    Cell([[]], 1, -1)
  }

  function Anchor(colspan: nat, rowspan: nat): Cell {
    Cell([[]], colspan, rowspan)
  }

  function Continuation(rowspan: nat): Cell {
    Cell([[]], -1, rowspan)
  }

  function NewCells(skipped: nat, colspan: nat, rowspan: nat): (r: seq<Cell>)
    requires colspan >= 1
    ensures |r| == skipped + colspan
  {
    seq(skipped, _ => Placeholder()) + [Anchor(colspan, rowspan)] + seq(colspan - 1, _ => Continuation(rowspan))
  }

  function WithCell(rows: seq<Row>, colspan: nat, rowspan: nat): (r: seq<Row>)
    requires colspan >= 1
    ensures |r| == if rows == [] then 1 else |rows|
  {
    var rows1 := if rows == [] then [[]] else rows;
    var n := |rows1| - 1;
    var f := FreeColumn(rows1[..n], |rows1[n]|);
    rows1[n := rows1[n] + NewCells(f - |rows1[n]|, colspan, rowspan)]
  }

  /** A row is a list of blocks: a cell and what it spans. */
  predicate WellFormed(cells: Row, j: nat)
    decreases |cells| - j
  {
    j == |cells|
    || (j < |cells| && 1 <= cells[j].colspan <= |cells| - j
        && (forall m :: j < m < j + cells[j].colspan ==> cells[m].colspan == -1)
        && WellFormed(cells, j + cells[j].colspan))
  }

  predicate HaveLines(cells: Row) {
    forall j :: 0 <= j < |cells| ==> |cells[j].lines| >= 1
  }

  predicate TableOk(rows: seq<Row>) {
    forall i :: 0 <= i < |rows| ==> WellFormed(rows[i], 0) && HaveLines(rows[i])
  }

  // ---------------------------------------------------------------- what row spans mean

  /** A cell of one of the rows above spans the place `c` of the row `k`. */
  predicate Spanned(rows: seq<Row>, k: nat, c: nat)
    requires k < |rows|
  {
    exists i :: 0 <= i < k && c < |rows[i]| && k < i + rows[i][c].rowspan
  }

  predicate IsAnchor(c: Cell) {
    c.colspan >= 1 && c.rowspan >= 1
  }

  predicate IsPlaceholder(c: Cell) {
    c.rowspan < 0
  }

  /** No cell begins where one from above reaches down to, and only there places are left empty. */
  predicate PlaceOk(rows: seq<Row>, k: nat, c: nat)
    requires k < |rows| && c < |rows[k]|
  {
    && (IsAnchor(rows[k][c]) ==> !Spanned(rows, k, c))
    && (IsPlaceholder(rows[k][c]) ==> Spanned(rows, k, c))
  }

  predicate SpansOk(rows: seq<Row>) {
    forall k, c :: 0 <= k < |rows| && 0 <= c < |rows[k]| ==> PlaceOk(rows, k, c)
  }

  // ---------------------------------------------------------------- column widths

  function LongestLine(lines: seq<Text>): (n: nat)
    ensures forall k :: 0 <= k < |lines| ==> |lines[k]| <= n
    ensures n == 0 || exists k :: 0 <= k < |lines| && |lines[k]| == n
  {
    if lines == [] then 0
    else
      var n, m := LongestLine(lines[..|lines| - 1]), |lines[|lines| - 1]|;
      assert forall k :: 0 <= k < |lines| - 1 ==> lines[..|lines| - 1][k] == lines[k];
      if m > n then m else n
  }

  /** What the cell in the column `j` demands, when it does not span columns. */
  function Demand(cells: Row, j: nat): nat {
    if j < |cells| && cells[j].colspan <= 1 then LongestLine(cells[j].lines) else 0
  }

  function Demands(rows: seq<Row>, j: nat): (n: nat)
    ensures forall i :: 0 <= i < |rows| ==> Demand(rows[i], j) <= n
    ensures n == 0 || exists i :: 0 <= i < |rows| && Demand(rows[i], j) == n
  {
    if rows == [] then 0
    else
      var n, m := Demands(rows[..|rows| - 1], j), Demand(rows[|rows| - 1], j);
      assert forall i :: 0 <= i < |rows| - 1 ==> rows[..|rows| - 1][i] == rows[i];
      if m > n then m else n
  }

  function BaseWidths(rows: seq<Row>): (w: seq<nat>)
    ensures |w| == Longest(rows) && forall j :: 0 <= j < |w| ==> w[j] == Demands(rows, j)
  {
    seq(Longest(rows), j requires 0 <= j => Demands(rows, j))
  }

  function Sum(w: seq<nat>, from: nat, end: nat): nat
    requires from <= end <= |w|
    decreases end
  {
    if end == from then 0 else Sum(w, from, end - 1) + w[end - 1]
  }

  /** The first of the narrowest columns. */
  function Narrowest(w: seq<nat>, from: nat, end: nat): (a: nat)
    requires from < end <= |w|
    ensures from <= a < end
    ensures forall k :: from <= k < end ==> w[a] <= w[k]
    ensures forall k :: from <= k < a ==> w[a] < w[k]
    decreases end
  {
    if end == from + 1 then from
    else
      var a := Narrowest(w, from, end - 1);
      if w[end - 1] < w[a] then end - 1 else a
  }

  lemma {:induction false} SumRaised(w: seq<nat>, from: nat, end: nat, a: nat)
    requires from <= end <= |w| && a < |w|
    ensures Sum(w[a := w[a] + 1], from, end) == Sum(w, from, end) + if from <= a < end then 1 else 0
    decreases end
  {
    if from < end {
      SumRaised(w, from, end - 1, a);
    }
  }

  /** The narrowest of the spanned columns is widened until the line fits. */
  function Widened(w: seq<nat>, from: nat, end: nat, len: nat): (r: seq<nat>)
    requires from < end <= |w|
    ensures |r| == |w|
    decreases if Sum(w, from, end) < len then len - Sum(w, from, end) else 0
  {
    if Sum(w, from, end) >= len then w
    else
      var a := Narrowest(w, from, end);
      SumRaised(w, from, end, a);
      Widened(w[a := w[a] + 1], from, end, len)
  }

  /** The widths after the spanning cells of `cells` before `j` had their share. */
  function WidenedRow(w: seq<nat>, cells: Row, j: nat): (r: seq<nat>)
    requires j <= |cells| <= |w| && HaveLines(cells)
    ensures |r| == |w|
  {
    if j == 0 then w
    else
      var v, c := WidenedRow(w, cells, j - 1), cells[j - 1].colspan;
      if c > 1 then Widened(v, j - 1, if j - 1 + c < |w| then j - 1 + c else |w|, |cells[j - 1].lines[0]|) else v
  }

  function WidenedRows(w: seq<nat>, rows: seq<Row>): (r: seq<nat>)
    requires TableOk(rows) && forall i :: 0 <= i < |rows| ==> |rows[i]| <= |w|
    ensures |r| == |w|
  {
    if rows == [] then w
    else
      var n := |rows| - 1;
      assert rows[n] in rows && forall i :: 0 <= i < n ==> rows[..n][i] == rows[i];
      WidenedRow(WidenedRows(w, rows[..n]), rows[n], |rows[n]|)
  }

  function Widths(rows: seq<Row>): (w: seq<nat>)
    requires TableOk(rows)
    ensures |w| == Longest(rows)
  {
    WidenedRows(BaseWidths(rows), rows)
  }

  // ---------------------------------------------------------------- printing

  /** The width of a cell with what it spans, as it is found when the row is printed. */
  function SpanWidth(cells: Row, w: seq<nat>, j: nat, k: nat): nat
    requires j < k <= |cells| <= |w|
    decreases |cells| - k
  {
    if k < |cells| && cells[k].colspan == -1 then SPACING + w[k] + SpanWidth(cells, w, j, k + 1) else w[j]
  }

  function Spaces(n: int): (s: seq<Item>)
    ensures |s| == if n < 0 then 0 else n
    ensures forall k :: 0 <= k < |s| ==> s[k] == Padding
  {
    if n <= 0 then [] else Spaces(n - 1) + [Padding]
  }

  function Inked(text: Text): (s: seq<Item>)
    ensures |s| == |text| && forall k :: 0 <= k < |s| ==> s[k] == Ink(text[k])
  {
    seq(|text|, k requires 0 <= k < |text| => Ink(text[k]))
  }

  /** The text that a cell has at this height of its row. */
  function TextAt(c: Cell, height: nat): Text {
    if c.rowspan >= 0 && height < |c.lines| then c.lines[height] else []
  }

  function Piece(cells: Row, w: seq<nat>, j: nat, height: nat): seq<Item>
    requires j < |cells| <= |w|
  {
    if cells[j].colspan <= 0 then []
    else
      var text := TextAt(cells[j], height);
      Inked(text) + if j + 1 < |cells| then Spaces(SpanWidth(cells, w, j, j + 1) - |text| + SPACING) else []
  }

  /** What is printed before the cell `j`. */
  function PrintedBefore(cells: Row, w: seq<nat>, j: nat, height: nat): seq<Item>
    requires j <= |cells| <= |w|
  {
    if j == 0 then [] else PrintedBefore(cells, w, j - 1, height) + Piece(cells, w, j - 1, height)
  }

  /** How many lines a row takes: at least one, and as many as its tallest cell. */
  function Height(cells: Row): (h: nat)
    ensures h >= 1 && forall j :: 0 <= j < |cells| ==> |cells[j].lines| <= h
    ensures h == 1 || exists j :: 0 <= j < |cells| && |cells[j].lines| == h
  {
    if cells == [] then 1
    else
      var h, m := Height(cells[..|cells| - 1]), |cells[|cells| - 1].lines|;
      assert forall j :: 0 <= j < |cells| - 1 ==> cells[..|cells| - 1][j] == cells[j];
      if m > h then m else h
  }

  function PrintedRow(cells: Row, w: seq<nat>, heights: nat): (lines: seq<seq<Item>>)
    requires |cells| <= |w|
    ensures |lines| == heights
  {
    seq(heights, h requires 0 <= h => PrintedBefore(cells, w, |cells|, h))
  }

  function PrintedRows(rows: seq<Row>, w: seq<nat>): seq<seq<Item>>
    requires forall i :: 0 <= i < |rows| ==> |rows[i]| <= |w|
  {
    if rows == [] then []
    else
      var n := |rows| - 1;
      PrintedRows(rows[..n], w) + PrintedRow(rows[n], w, Height(rows[n]))
  }

  // ---------------------------------------------------------------- what the line processor gets

  /** Every character is written in its own style on top of the style in force. */
  function ItemEvents(item: Item): seq<LineModel.Event> {
    match item
    case Ink(g) => [LineModel.Push(g.style), LineModel.Char(g.rune), LineModel.Pop]
    case Padding => [LineModel.Char(NBSP)]
  }

  function ItemsEvents(items: seq<Item>): seq<LineModel.Event> {
    if items == [] then [] else ItemsEvents(items[..|items| - 1]) + ItemEvents(items[|items| - 1])
  }

  const LINE_FEED: LineModel.Rune := LineModel.Rune(LineModel.NEWLINE, -1)

  /** A line feed ends every line. */
  function LinesEvents(lines: seq<seq<Item>>): seq<LineModel.Event> {
    if lines == [] then []
    else LinesEvents(lines[..|lines| - 1]) + ItemsEvents(lines[|lines| - 1]) + [LineModel.Char(LINE_FEED)]
  }

  function TableEvents(rows: seq<Row>): seq<LineModel.Event>
    requires TableOk(rows)
  {
    LinesEvents(PrintedRows(rows, Widths(rows)))
  }

  // ---------------------------------------------------------------- where a column starts

  /** Columns stand next to each other with the spacing between. */
  function Offset(w: seq<nat>, j: nat): nat
    requires j <= |w|
  {
    if j == 0 then 0 else Offset(w, j - 1) + w[j - 1] + SPACING
  }

  /** Every cell that begins in a column starts where the column does. */
  predicate Aligned(cells: Row, w: seq<nat>, height: nat)
    requires |cells| <= |w|
  {
    forall j :: 0 <= j < |cells| && cells[j].colspan > 0 ==> |PrintedBefore(cells, w, j, height)| == Offset(w, j)
  }

  /** The text is no longer than the columns of the cell and the spacing behind them. */
  predicate Fits(cells: Row, w: seq<nat>, height: nat, j: nat)
    requires j < |cells| <= |w| && 1 <= cells[j].colspan <= |cells| - j
  {
    |TextAt(cells[j], height)| <= Offset(w, j + cells[j].colspan) - Offset(w, j)
  }
}
