/** Table columns line up. */
module TableTheorems {
  import opened TableModel
  import LineModel

  // ---------------------------------------------------------------- placing

  lemma {:induction false} WellFormedConcat(a: Row, b: Row, j: nat)
    requires j <= |a| && WellFormed(a, j) && WellFormed(b, 0)
    ensures WellFormed(a + b, j)
    decreases |a| - j
  {
    var c := a + b;
    if j < |a| {
      WellFormedConcat(a, b, j + a[j].colspan);
      assert c[j] == a[j];
      assert forall m :: j < m < j + a[j].colspan ==> c[m] == a[m];
    } else {
      WellFormedShifted(a, b, 0);
    }
  }

  lemma {:induction false} WellFormedShifted(a: Row, b: Row, j: nat)
    requires j <= |b| && WellFormed(b, j)
    ensures WellFormed(a + b, |a| + j)
    decreases |b| - j
  {
    var c := a + b;
    if j < |b| {
      WellFormedShifted(a, b, j + b[j].colspan);
      assert c[|a| + j] == b[j];
      assert forall m :: j < m < j + b[j].colspan ==> c[|a| + m] == b[m];
      assert forall m :: |a| + j < m < |a| + j + b[j].colspan ==> c[m] == b[m - |a|];
    }
  }

  lemma {:induction false} PlaceholdersWellFormed(n: nat, j: nat)
    requires j <= n
    ensures WellFormed(seq(n, _ => Placeholder()), j)
    decreases n - j
  {
    if j < n { PlaceholdersWellFormed(n, j + 1); }
  }

  lemma {:induction false} NewCellsWellFormed(skipped: nat, colspan: nat, rowspan: nat)
    requires colspan >= 1
    ensures WellFormed(NewCells(skipped, colspan, rowspan), 0) && HaveLines(NewCells(skipped, colspan, rowspan))
  {
    var p := seq(skipped, _ => Placeholder());
    var b := [Anchor(colspan, rowspan)] + seq(colspan - 1, _ => Continuation(rowspan));
    PlaceholdersWellFormed(skipped, 0);
    assert WellFormed(b, colspan);
    assert WellFormed(b, 0);
    WellFormedConcat(p, b, 0);
    assert NewCells(skipped, colspan, rowspan) == p + b;
  }

  lemma {:induction false} RowExtended(cells: Row, news: Row)
    requires WellFormed(cells, 0) && HaveLines(cells) && WellFormed(news, 0) && HaveLines(news)
    ensures WellFormed(cells + news, 0) && HaveLines(cells + news)
  {
    hide WellFormed;
    WellFormedConcat(cells, news, 0);
  }

  /** The new cell of a row stands where no cell from above reaches down, and every place that is skipped
      before it is such a place. */
  predicate Placed(above: seq<Row>, before: Row, after: Row, colspan: nat, rowspan: nat) {
    var m := |after| - colspan;
    && |before| <= m < |after| && after[..|before|] == before
    && after[m] == Anchor(colspan, rowspan) && !Reserved(above, m)
    && (forall k :: m < k < |after| ==> after[k] == Continuation(rowspan))
    && (forall k :: |before| <= k < m ==> after[k] == Placeholder() && Reserved(above, k))
  }

  lemma {:induction false} CellIsPlacedInRow(above: seq<Row>, before: Row, colspan: nat, rowspan: nat)
    requires WellFormed(before, 0) && HaveLines(before) && colspan >= 1
    ensures var f := FreeColumn(above, |before|);
      var after := before + NewCells(f - |before|, colspan, rowspan);
      WellFormed(after, 0) && HaveLines(after) && Placed(above, before, after, colspan, rowspan)
  {
    hide WellFormed, Reserved;
    var f := FreeColumn(above, |before|);
    var news := NewCells(f - |before|, colspan, rowspan);
    NewCellsWellFormed(f - |before|, colspan, rowspan);
    RowExtended(before, news);
    var after := before + news;
    assert forall k :: |before| <= k < |after| ==> after[k] == news[k - |before|];
  }

  /** A new cell goes to the end of the last row and keeps the table in order. */
  lemma {:induction false} CellIsPlaced(rows: seq<Row>, colspan: nat, rowspan: nat)
    requires TableOk(rows) && colspan >= 1
    ensures TableOk(WithCell(rows, colspan, rowspan))
    ensures var r, rows1 := WithCell(rows, colspan, rowspan), if rows == [] then [[]] else rows;
      var n := |r| - 1;
      r[..n] == rows1[..n] && Placed(r[..n], rows1[n], r[n], colspan, rowspan)
  {
    hide WellFormed, HaveLines, Placed, FreeColumn, NewCells;
    var rows1 := if rows == [] then [[]] else rows;
    var n := |rows1| - 1;
    EmptyRow();
    CellIsPlacedInRow(rows1[..n], rows1[n], colspan, rowspan);
    assert WithCell(rows, colspan, rowspan)[..n] == rows1[..n];
  }

  lemma {:induction false} SpannedBefore(rows: seq<Row>, r: seq<Row>, k: nat, c: nat)
    requires k < |rows| && k < |r| && rows[..k] == r[..k]
    ensures Spanned(rows, k, c) == Spanned(r, k, c)
  {
    assert forall i :: 0 <= i < k ==> rows[i] == rows[..k][i] && r[i] == r[..k][i];
  }

  lemma {:induction false} ReservedIsSpanned(rows: seq<Row>, k: nat, c: nat)
    requires k < |rows|
    ensures Reserved(rows[..k], c) == Spanned(rows, k, c)
  {
    var above := rows[..k];
    if i :| 0 <= i < k && ReservedBy(above, c, i) {
      assert rows[i] == above[i];
    }
    if i :| 0 <= i < k && c < |rows[i]| && k < i + rows[i][c].rowspan {
      assert ReservedBy(above, c, i);
    }
  }

  /** A new cell keeps the meaning of row spans, in all rows. */
  lemma {:induction false} CellKeepsSpans(rows: seq<Row>, colspan: nat, rowspan: nat)
    requires TableOk(rows) && SpansOk(rows) && colspan >= 1
    ensures SpansOk(WithCell(rows, colspan, rowspan))
  {
    hide WithCell, TableOk, Spanned, Reserved;
    var r := WithCell(rows, colspan, rowspan);
    var rows1 := if rows == [] then [[]] else rows;
    var n := |r| - 1;
    CellIsPlaced(rows, colspan, rowspan);
    forall k, c | 0 <= k < |r| && 0 <= c < |r[k]| ensures PlaceOk(r, k, c) {
      assert k < n ==> r[k] == r[..n][k] == rows1[k];
      if k < n || c < |rows1[n]| {
        assert r[..k] == r[..n][..k] == rows1[..k];
        SpannedBefore(rows1, r, k, c);
        assert PlaceOk(rows1, k, c);
        assert r[k][c] == rows1[k][c] by { assert r[n][..|rows1[n]|] == rows1[n]; }
      } else {
        ReservedIsSpanned(r, n, c);
      }
    }
  }

  /** What is done to a table. Text goes to the cell that was added last. */
  datatype Op = NewRow | NewCell(colspan: Attribute, rowspan: Attribute)

  function Built(ops: seq<Op>): seq<Row> {
    if ops == [] then []
    else
      var rows := Built(ops[..|ops| - 1]);
      match ops[|ops| - 1]
      case NewRow => rows + [[]]
      case NewCell(colspan, rowspan) => WithCell(rows, CountOf(colspan), CountOf(rowspan))
  }

  lemma {:induction false} RowKeepsSpans(rows: seq<Row>)
    requires SpansOk(rows)
    ensures SpansOk(rows + [[]])
  {
    hide Spanned;
    var r := rows + [[]];
    forall k, c | 0 <= k < |r| && 0 <= c < |r[k]| ensures PlaceOk(r, k, c) {
      assert r[..k] == rows[..k];
      SpannedBefore(rows, r, k, c);
      assert PlaceOk(rows, k, c);
    }
  }

  /** However a table is built: a cell with the row span `r` in the row `i` keeps its columns free of other
      cells in the rows up to `i + r`, and a place is left empty only under such a cell. */
  lemma {:induction false} RowSpansHold(ops: seq<Op>)
    ensures TableOk(Built(ops)) && SpansOk(Built(ops))
    decreases |ops|
  {
    hide TableOk, SpansOk, WithCell;
    if ops == [] {
      NoRows();
    } else {
      var rows := Built(ops[..|ops| - 1]);
      RowSpansHold(ops[..|ops| - 1]);
      match ops[|ops| - 1]
      case NewRow => RowKeepsSpans(rows); RowKeepsTable(rows);
      case NewCell(colspan, rowspan) =>
        CellIsPlaced(rows, CountOf(colspan), CountOf(rowspan));
        CellKeepsSpans(rows, CountOf(colspan), CountOf(rowspan));
    }
  }

  lemma {:induction false} NoRows()
    ensures TableOk([]) && SpansOk([])
  {
  }

  lemma {:induction false} RowKeepsTable(rows: seq<Row>)
    requires TableOk(rows)
    ensures TableOk(rows + [[]])
  {
    EmptyRow();
  }

  lemma {:induction false} EmptyRow()
    ensures WellFormed([], 0) && HaveLines([])
  {
  }

  // ---------------------------------------------------------------- widening

  /** No column gets narrower. */
  predicate NoNarrower(w: seq<nat>, v: seq<nat>) {
    |v| == |w| && forall k :: 0 <= k < |w| ==> w[k] <= v[k]
  }

  lemma {:induction false} SumGrows(w: seq<nat>, v: seq<nat>, from: nat, end: nat)
    requires NoNarrower(w, v) && from <= end <= |w|
    ensures Sum(w, from, end) <= Sum(v, from, end)
    decreases end
  {
    if from < end {
      SumGrows(w, v, from, end - 1);
    }
  }

  /** Widening ends with the line fitting exactly, or changes nothing; only spanned columns grow, and a
      column that has grown is at most one wider than the narrowest. */
  lemma {:induction false} WideningFits(w: seq<nat>, from: nat, end: nat, len: nat)
    requires from < end <= |w|
    ensures var v := Widened(w, from, end, len);
      && NoNarrower(w, v)
      && Sum(v, from, end) == (if Sum(w, from, end) < len then len else Sum(w, from, end))
      && (forall k :: 0 <= k < |w| && !(from <= k < end) ==> v[k] == w[k])
      && (forall k, m :: from <= k < end && from <= m < end && v[k] > w[k] ==> v[k] <= v[m] + 1)
    decreases if Sum(w, from, end) < len then len - Sum(w, from, end) else 0
  {
    hide Sum, Narrowest;
    if Sum(w, from, end) < len {
      var a := Narrowest(w, from, end);
      var u := w[a := w[a] + 1];
      SumRaised(w, from, end, a);
      WideningFits(u, from, end, len);
      var v := Widened(w, from, end, len);
      assert v == Widened(u, from, end, len);
      forall k, m | from <= k < end && from <= m < end && v[k] > w[k] ensures v[k] <= v[m] + 1 {
        if v[k] == u[k] {
          assert k == a && w[a] <= w[m] <= u[m] <= v[m];
        }
      }
    }
  }

  lemma {:induction false} NoNarrowerTrans(w: seq<nat>, u: seq<nat>, v: seq<nat>)
    requires NoNarrower(w, u) && NoNarrower(u, v)
    ensures NoNarrower(w, v)
  {
  }

  /** The first line of a spanning cell fits its columns. */
  predicate SpanFits(w: seq<nat>, cells: Row, j: nat)
    requires j < |cells| <= |w| && HaveLines(cells)
  {
    cells[j].colspan > 1 && j + cells[j].colspan <= |w| ==> |cells[j].lines[0]| <= Sum(w, j, j + cells[j].colspan)
  }

  lemma {:induction false} SpanFitsStill(w: seq<nat>, v: seq<nat>, cells: Row, j: nat)
    requires j < |cells| <= |w| && HaveLines(cells) && NoNarrower(w, v) && SpanFits(w, cells, j)
    ensures SpanFits(v, cells, j)
  {
    if cells[j].colspan > 1 && j + cells[j].colspan <= |w| {
      SumGrows(w, v, j, j + cells[j].colspan);
    }
  }

  lemma {:induction false} RowFits(w: seq<nat>, cells: Row, j: nat)
    requires j <= |cells| <= |w| && HaveLines(cells)
    ensures NoNarrower(w, WidenedRow(w, cells, j))
    ensures forall k :: 0 <= k < j ==> SpanFits(WidenedRow(w, cells, j), cells, k)
    decreases j
  {
    hide SpanFits, Sum, Widened;
    if j > 0 {
      RowFits(w, cells, j - 1);
      var v, c := WidenedRow(w, cells, j - 1), cells[j - 1].colspan;
      var u := WidenedRow(w, cells, j);
      var end := if j - 1 + c < |w| then j - 1 + c else |w|;
      if c > 1 {
        WideningFits(v, j - 1, end, |cells[j - 1].lines[0]|);
        NoNarrowerTrans(w, v, u);
      }
      LastSpanFits(u, cells, j - 1, end);
      forall k | 0 <= k < j - 1 ensures SpanFits(u, cells, k) {
        SpanFitsStill(v, u, cells, k);
      }
    }
  }

  lemma {:induction false} LastSpanFits(w: seq<nat>, cells: Row, j: nat, end: int)
    requires j < |cells| <= |w| && HaveLines(cells)
    requires cells[j].colspan > 1 ==> j < end <= |w| && |cells[j].lines[0]| <= Sum(w, j, end)
    requires end == if j + cells[j].colspan < |w| then j + cells[j].colspan else |w|
    ensures SpanFits(w, cells, j)
  {
  }

  /** After the widening every spanning cell fits, in every row, and no column is narrower than its
      cells demand. */
  lemma {:induction false} RowsFit(w: seq<nat>, rows: seq<Row>)
    requires TableOk(rows) && forall i :: 0 <= i < |rows| ==> |rows[i]| <= |w|
    ensures NoNarrower(w, WidenedRows(w, rows))
    ensures forall i, j :: 0 <= i < |rows| && 0 <= j < |rows[i]| ==> SpanFits(WidenedRows(w, rows), rows[i], j)
    decreases |rows|
  {
    hide SpanFits, WidenedRow;
    if rows != [] {
      var n := |rows| - 1;
      assert forall i :: 0 <= i < n ==> rows[..n][i] == rows[i];
      RowsFit(w, rows[..n]);
      var v, u := WidenedRows(w, rows[..n]), WidenedRows(w, rows);
      RowFits(v, rows[n], |rows[n]|);
      assert u == WidenedRow(v, rows[n], |rows[n]|);
      NoNarrowerTrans(w, v, u);
      forall i, j | 0 <= i < |rows| && 0 <= j < |rows[i]| ensures SpanFits(u, rows[i], j) {
        if i < n {
          assert SpanFits(v, rows[..n][i], j);
          SpanFitsStill(v, u, rows[i], j);
        }
      }
    }
  }

  // ---------------------------------------------------------------- printing

  /** A cell that spans nothing adds nothing behind itself. */
  lemma {:induction false} SpannedPrintNothing(cells: Row, w: seq<nat>, j: nat, k: nat, height: nat)
    requires j < k <= |cells| <= |w| && forall m :: j < m < k ==> cells[m].colspan == -1
    ensures PrintedBefore(cells, w, k, height) == PrintedBefore(cells, w, j, height) + Piece(cells, w, j, height)
    decreases k
  {
    hide Piece;
    if k > j + 1 {
      SpannedPrintNothing(cells, w, j, k - 1, height);
      NoPiece(cells, w, k - 1, height);
    }
  }

  lemma {:induction false} NoPiece(cells: Row, w: seq<nat>, j: nat, height: nat)
    requires j < |cells| <= |w| && cells[j].colspan == -1
    ensures Piece(cells, w, j, height) == []
  {
  }

  /** The width that is found while printing is that of the columns and the spacing between them. */
  lemma {:induction false} SpanIsOffset(cells: Row, w: seq<nat>, j: nat, k: nat, end: nat)
    requires j < k <= end <= |cells| <= |w|
    requires forall m :: k <= m < end ==> cells[m].colspan == -1
    requires end < |cells| ==> cells[end].colspan != -1
    ensures SpanWidth(cells, w, j, k) == w[j] + Offset(w, end) - Offset(w, k)
    decreases end - k
  {
    if k < end {
      SpanIsOffset(cells, w, j, k + 1, end);
    }
  }

  lemma {:induction false} BlockEnds(cells: Row, j: nat)
    requires j < |cells| && WellFormed(cells, j)
    ensures 1 <= cells[j].colspan <= |cells| - j && WellFormed(cells, j + cells[j].colspan)
    ensures j + cells[j].colspan < |cells| ==> cells[j + cells[j].colspan].colspan >= 1
    ensures forall m :: j < m < j + cells[j].colspan ==> cells[m].colspan == -1
  {
  }

  /** One block: the next cell starts where its column does if this one does and fits, and only then. */
  lemma {:induction false} BlockAligns(cells: Row, w: seq<nat>, height: nat, j: nat)
    requires j < |cells| <= |w| && WellFormed(cells, j) && j + cells[j].colspan < |cells|
    ensures 1 <= cells[j].colspan <= |cells| - j
    ensures |PrintedBefore(cells, w, j, height)| == Offset(w, j) ==>
      (|PrintedBefore(cells, w, j + cells[j].colspan, height)| == Offset(w, j + cells[j].colspan) <==> Fits(cells, w, height, j))
  {
    hide WellFormed, PrintedBefore, SpanWidth, Spaces;
    BlockEnds(cells, j);
    var next := j + cells[j].colspan;
    SpannedPrintNothing(cells, w, j, next, height);
    SpanIsOffset(cells, w, j, j + 1, next);
  }

  /** All cells from `j` on start where their columns do exactly when each of them but the last fits. */
  lemma {:induction false} AlignedFromIff(cells: Row, w: seq<nat>, height: nat, j: nat)
    requires j <= |cells| <= |w| && WellFormed(cells, j) && |PrintedBefore(cells, w, j, height)| == Offset(w, j)
    ensures (forall k :: j <= k < |cells| && cells[k].colspan > 0 ==> |PrintedBefore(cells, w, k, height)| == Offset(w, k))
      <==> AllFit(cells, w, height, j)
    decreases |cells| - j
  {
    hide WellFormed, PrintedBefore, Offset, Fits;
    if j < |cells| {
      BlockEnds(cells, j);
      var next := j + cells[j].colspan;
      if next < |cells| {
        BlockAligns(cells, w, height, j);
        if Fits(cells, w, height, j) {
          AlignedFromIff(cells, w, height, next);
        }
      } else {
        NothingBehind(cells, w, height, next);
      }
    }
  }

  lemma {:induction false} NothingBehind(cells: Row, w: seq<nat>, height: nat, j: nat)
    requires j == |cells| <= |w|
    ensures AllFit(cells, w, height, j)
  {
  }

  /** Every cell from `j` on, but the last of the row, is no wider than its columns. */
  predicate AllFit(cells: Row, w: seq<nat>, height: nat, j: nat)
    requires j <= |cells| <= |w|
    decreases |cells| - j
  {
    j < |cells| && 1 <= cells[j].colspan < |cells| - j ==>
      Fits(cells, w, height, j) && AllFit(cells, w, height, j + cells[j].colspan)
  }

  /** The cells of a printed row line up with the columns exactly when each cell but the last is no wider
      than its columns. */
  lemma {:induction false} AlignedIff(cells: Row, w: seq<nat>, height: nat)
    requires |cells| <= |w| && WellFormed(cells, 0)
    ensures Aligned(cells, w, height) <==> AllFit(cells, w, height, 0)
  {
    AlignedFromIff(cells, w, height, 0);
  }

  lemma {:induction false} SumIsOffset(w: seq<nat>, from: nat, end: nat)
    requires from <= end <= |w|
    ensures Offset(w, end) - Offset(w, from) == Sum(w, from, end) + (end - from) * SPACING
    decreases end
  {
    if from < end {
      SumIsOffset(w, from, end - 1);
    }
  }

  /** Spanning cells have one line; the others may have many. */
  predicate SpansAreLow(cells: Row) {
    forall j :: 0 <= j < |cells| && cells[j].colspan > 1 ==> |cells[j].lines| == 1
  }

  lemma {:induction false} CellFits(rows: seq<Row>, i: nat, j: nat, height: nat)
    requires TableOk(rows) && i < |rows| && SpansAreLow(rows[i])
    requires j < |rows[i]| && 1 <= rows[i][j].colspan <= |rows[i]| - j
    ensures |rows[i]| <= |Widths(rows)| && Fits(rows[i], Widths(rows), height, j)
  {
    hide WidenedRows, Offset, Sum;
    var cells, w, base := rows[i], Widths(rows), BaseWidths(rows);
    RowsFit(base, rows);
    SumIsOffset(w, j, j + cells[j].colspan);
    if cells[j].colspan > 1 {
      assert SpanFits(w, cells, j);
    } else {
      assert Demand(cells, j) <= Demands(rows, j) == base[j] <= w[j];
      SumOfOne(w, j);
    }
  }

  lemma {:induction false} SumOfOne(w: seq<nat>, j: nat)
    requires j < |w|
    ensures Sum(w, j, j + 1) == w[j]
  {
  }

  lemma {:induction false} RowAllFit(rows: seq<Row>, i: nat, j: nat, height: nat)
    requires TableOk(rows) && i < |rows| && SpansAreLow(rows[i]) && j <= |rows[i]|
    ensures |rows[i]| <= |Widths(rows)| && AllFit(rows[i], Widths(rows), height, j)
    decreases |rows[i]| - j
  {
    hide Widths, Fits;
    if j < |rows[i]| && 1 <= rows[i][j].colspan < |rows[i]| - j {
      CellFits(rows, i, j, height);
      RowAllFit(rows, i, j + rows[i][j].colspan, height);
    } else {
      WidthsCover(rows, i);
    }
  }

  lemma {:induction false} WidthsCover(rows: seq<Row>, i: nat)
    requires TableOk(rows) && i < |rows|
    ensures |rows[i]| <= |Widths(rows)|
  {
  }

  /** Columns line up: in every printed line of a row whose spanning cells have one line each, every cell
      starts at the sum of the widths before its column and the spacing behind each of them. */
  lemma {:induction false} ColumnsLineUp(rows: seq<Row>, i: nat, height: nat)
    requires TableOk(rows) && i < |rows| && SpansAreLow(rows[i])
    ensures |rows[i]| <= |Widths(rows)| && Aligned(rows[i], Widths(rows), height)
  {
    hide Widths, WellFormed, Aligned;
    RowAllFit(rows, i, 0, height);
    AlignedIff(rows[i], Widths(rows), height);
  }

  /** Behind the text of the last cell nothing is printed. */
  lemma {:induction false} LastCellEndsLine(cells: Row, w: seq<nat>, height: nat)
    requires cells != [] && |cells| <= |w| && cells[|cells| - 1].colspan >= 1
    ensures var j := |cells| - 1;
      PrintedBefore(cells, w, |cells|, height) == PrintedBefore(cells, w, j, height) + Inked(TextAt(cells[j], height))
  {
    var j := |cells| - 1;
    assert Inked(TextAt(cells[j], height)) + [] == Inked(TextAt(cells[j], height));
  }

  /** A letter of one column. */
  const LETTER: LineModel.Glyph := LineModel.Glyph(LineModel.Rune(0x61, 1), 0)

  /** A spanning cell of two lines can push the cells behind it out of their columns: the widths are made
      for its first line. */
  lemma {:induction false} TallSpanMisaligns()
    ensures var word := [LETTER, LETTER, LETTER, LETTER, LETTER];
      var cells := [Cell([[], word], 2, 1), Cell([[]], -1, 1), Cell([[LETTER]], 1, 1)];
      TableOk([cells]) && Widths([cells]) == [0, 0, 1] && !Aligned(cells, Widths([cells]), 1)
  {
    var word := [LETTER, LETTER, LETTER, LETTER, LETTER];
    var cells := [Cell([[], word], 2, 1), Cell([[]], -1, 1), Cell([[LETTER]], 1, 1)];
    assert WellFormed(cells, 3) && WellFormed(cells, 2) && WellFormed(cells, 0);
    var rows := [cells];
    assert TableOk(rows);
    assert rows[..0] == [];
    assert Longest([]) == 0 && Longest(rows) == 3;
    var none: seq<Text>, one: seq<Text> := [[]], [[LETTER]];
    assert LongestLine(none[..0]) == 0 && LongestLine(one[..0]) == 0;
    assert Demands([], 0) == Demands([], 1) == Demands([], 2) == 0;
    var base := BaseWidths(rows);
    assert Demand(cells, 0) == 0 && Demand(cells, 1) == 0 && Demand(cells, 2) == 1;
    assert base == [0, 0, 1];
    assert WidenedRow(base, cells, 0) == base;
    assert Sum(base, 0, 2) == 0;
    assert WidenedRow(base, cells, 1) == base;
    assert WidenedRow(base, cells, 3) == base;
    assert WidenedRows(base, []) == base;
    AlignedIff(cells, base, 1);
    assert Offset(base, 2) == 4;
    assert !Fits(cells, base, 1, 0);
  }
}
