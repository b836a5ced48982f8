/** Incremental drawing: the cell buffers of `src/termbox2.h` and `tb_present`. */
module Screen {
  import opened Terminal

  function Row(cells: array2<Cell>, y: nat): (row: seq<Cell>)
    requires y < cells.Length0
    reads cells
    ensures |row| == cells.Length1 && forall x :: 0 <= x < |row| ==> row[x] == cells[y, x]
  {
    seq(cells.Length1, x requires 0 <= x < cells.Length1 reads cells => cells[y, x])
  }

  function Rows(cells: array2<Cell>): (rows: seq<seq<Cell>>)
    reads cells
    ensures |rows| == cells.Length0 && forall y :: 0 <= y < |rows| ==> rows[y] == Row(cells, y)
  {
    seq(cells.Length0, y requires 0 <= y < cells.Length0 reads cells => Row(cells, y))
  }

  /** `~a` on the attribute type. */
  function Complement(a: nat): nat {
    if a <= 0xFFFF then 0xFFFF - a else 0
  }

  function AtLeastOne(n: int): nat {
    if n < 1 then 1 else n
  }

  class Screen {
    var back: array2<Cell>
    var front: array2<Cell>
    var clear: Attr
    var last: Attr
    var lastX: int
    var lastY: int
    var cursorX: int
    var cursorY: int
    var out: seq<Command>
    /** The terminal after everything that was sent, and before what is still buffered. */
    ghost var term: Term
    ghost var base: Term
    /** The cells that the terminal shows. */
    ghost var picture: seq<seq<Cell>>

    ghost predicate Flows()
      reads this
    {
      IsGrid(base) && IsGrid(term) && term == ExecAll(base, out) && !term.broken
    }

    /** The output buffer leads the terminal to where the fields say it is. */
    ghost predicate Linked()
      reads this
    {
      Flows() && term.attr == last
    }

    ghost predicate Sizes()
      reads this
    {
      && back != front
      && back.Length0 == front.Length0 == term.height == |picture|
      && back.Length1 == front.Length1 == term.width
    }

    /** Between the operations nothing is left in the output buffer. */
    ghost predicate Valid()
      reads this, back, front
    {
      && Linked() && out == [] && Sizes()
      && (forall y :: 0 <= y < |picture| ==> ShowsRow(Row(front, y), term.rows[y], picture[y]))
      && (forall y, x :: 0 <= y < back.Length0 && 0 <= x < back.Length1 ==> back[y, x] != INVALID)
    }

    /** The terminal shows exactly the back buffer. */
    ghost predicate UpToDate()
      reads this, back, front
      requires Valid()
    {
      forall y :: 0 <= y < term.height ==> term.rows[y] == Picture(Row(back, y), 0)
    }

    // -------------------------------------------------------------- output

    method Send(c: Command)
      requires Flows()
      requires c.Put? ==>
        0 <= term.y < term.height && 0 <= term.x && 1 <= c.columns <= 2 && term.x + c.columns <= term.width
      modifies `out, `term
      ensures Flows() && IsGrid(old(term)) && term == Exec(old(term), c)
      ensures (term.width, term.height) == old((term.width, term.height))
      ensures out == old(out) + [c]
    {
      ExecGrid(term, c);
      out := out + [c];
      assert out[..|out| - 1] == old(out);
      term := Exec(term, c);
    }

    method Flush() returns (sent: seq<Command>)
      requires Flows()
      modifies `out, `base
      ensures Flows() && sent == old(out) && out == []
      ensures IsGrid(old(base)) && term == ExecAll(old(base), sent)
    {
      sent := out;
      base, out := term, [];
    }

    method SendAttr(attr: Attr)
      requires Flows() && (last == attr ==> term.attr == attr)
      modifies `out, `term, `last
      ensures Linked() && last == attr
      ensures term == old(term).(attr := attr)
      ensures out == old(out) + if attr == old(last) then [] else [SetAttr(attr)]
    {
      if attr == last {
        return;
      }
      Send(SetAttr(attr));
      last := attr;
    }

    method SendCursorIf(x: int, y: int)
      requires Linked()
      modifies `out, `term
      ensures Linked()
      ensures term == if x < 0 || y < 0 then old(term) else old(term).(x := x, y := y)
      ensures out == old(out) + if x < 0 || y < 0 then [] else [Move(x, y)]
    {
      if x < 0 || y < 0 {
        return;
      }
      Send(Move(x, y));
    }

    /** Puts a glyph. The cursor is moved unless the previous glyph was put right before this place. */
    method SendCluster(x: nat, y: nat, code: nat, columns: nat)
      requires Linked() && y < term.height && 1 <= columns <= 2 && x + columns <= term.width
      requires lastX == x - 1 && lastY == y ==> (term.x, term.y) == (x, y)
      modifies `out, `term, `lastX, `lastY
      ensures Linked() && IsGrid(old(term)) && (lastX, lastY) == (x, y)
      ensures term == old(term).(rows := old(term).rows[y := PutInRow(old(term).rows[y], x, code, columns, last)],
                                 x := x + columns, y := y)
      ensures out == old(out) + (if old(lastX) == x - 1 && old(lastY) == y then [] else [Move(x, y)]) + [Put(code, columns)]
    {
      hide ExecAll, PutInRow;
      if lastX != x - 1 || lastY != y {
        SendCursorIf(x, y);
      }
      lastX, lastY := x, y;
      Send(Put(code, columns));
    }

    // -------------------------------------------------------------- tb_present

    /** A changed cell: it is copied to the front buffer and sent; the position that a wide character
        covers is marked. A wide character in the last column is sent as a space. */
    method DrawAt(x: nat, y: nat)
      requires Linked() && Sizes() && y < back.Length0 && x < back.Length1
      requires lastX == x - 1 && lastY == y ==> (term.x, term.y) == (x, y)
      modifies front, `out, `term, `last, `lastX, `lastY
      ensures Linked() && Sizes() && (lastX, lastY) == (x, y)
      ensures Columns(back[y, x]) == 1 ==> (term.x, term.y) == (x + 1, y)
      ensures Rows(front) == old(Rows(front))[y := DrawnFront(old(Row(front, y)), x, back[y, x])]
      ensures term.rows == old(term.rows)[y := DrawnShown(old(term.rows)[y], x, back[y, x])]
    {
      hide ExecAll, PutInRow;
      var c := back[y, x];
      var w := Columns(c);
      CopyCell(x, y);
      SendAttr(c.attr);
      if w > 1 && x >= front.Length1 - (w - 1) {
        SendSpaces(x, y);
      } else {
        SendCluster(x, y, Code(c), w);
        MarkHidden(x, y, w);
      }
    }

    method CopyCell(x: nat, y: nat)
      requires Sizes() && y < back.Length0 && x < back.Length1
      modifies front
      ensures Rows(front) == old(Rows(front))[y := old(Row(front, y))[x := back[y, x]]]
    {
      ghost var before, row := Rows(front), Row(front, y)[x := back[y, x]];
      front[y, x] := back[y, x];
      assert Row(front, y) == row;
      forall r | 0 <= r < front.Length0 ensures Rows(front)[r] == before[y := row][r] {
        assert r != y ==> Row(front, r) == before[r];
      }
    }

    /** There is no room for a wide character: spaces up to the end of the row. */
    method SendSpaces(x: nat, y: nat)
      requires Linked() && Sizes() && y < front.Length0 && front.Length1 == x + 1
      requires lastX == x - 1 && lastY == y ==> (term.x, term.y) == (x, y)
      modifies `out, `term, `lastX, `lastY
      ensures Linked() && Sizes() && (lastX, lastY) == (x, y)
      ensures term.rows == old(term.rows)[y := PutInRow(old(term.rows)[y], x, BLANK.code, 1, last)]
    {
      hide ExecAll, PutInRow;
      for i := x to front.Length1
        invariant Linked() && Sizes()
        invariant i == x ==> term == old(term) && (lastX, lastY) == old((lastX, lastY))
        invariant i > x ==> (lastX, lastY) == (x, y)
        invariant i > x ==> term.rows == old(term.rows)[y := PutInRow(old(term.rows)[y], x, BLANK.code, 1, last)]
      {
        SendCluster(i, y, BLANK.code, 1);
      }
    }

    /** The positions that a wide character covers are marked. */
    method MarkHidden(x: nat, y: nat, w: nat)
      requires y < front.Length0 && 1 <= w <= 2 && x + w <= front.Length1
      modifies front
      ensures Rows(front) ==
        if w == 2 then old(Rows(front))[y := old(Row(front, y))[x + 1 := INVALID]] else old(Rows(front))
    {
      ghost var before := Rows(front);
      for i := 1 to w
        invariant i == 1 ==> Rows(front) == before
        invariant i == 2 ==> Rows(front) == before[y := before[y][x + 1 := INVALID]]
      {
        front[y, x + i] := INVALID;
        assert Row(front, y) == before[y][x + 1 := INVALID];
        forall r | 0 <= r < front.Length0 ensures Rows(front)[r] == before[y := before[y][x + 1 := INVALID]][r] {
          assert r != y ==> Row(front, r) == before[r];
        }
      }
    }

    /** What the loop over a row keeps: the part before `x` is done, the other rows are as they were, and
        nothing was sent if nothing had to be. */
    ghost predicate Drawing(row: seq<Cell>, y: nat, x: nat, fronts: seq<seq<Cell>>, shown: seq<seq<Shown>>)
      reads this, front
      requires y < front.Length0 && y < |term.rows| && y < |fronts| && y < |shown|
    {
      && Drawn(row, Row(front, y), term.rows[y], if x <= |row| then x else |row|)
      && Rows(front) == fronts[y := Row(front, y)]
      && term.rows == shown[y := term.rows[y]]
      && (fronts[y] == Marked(row, 0) ==> Row(front, y) == fronts[y])
    }

    method PresentRow(y: nat)
      requires Linked() && Sizes() && y < back.Length0 && NoMarkers(Row(back, y))
      requires ShowsRow(Row(front, y), term.rows[y], picture[y]) && lastY != y
      modifies front, `out, `term, `last, `lastX, `lastY
      ensures Linked() && Sizes() && ShowsRow(Row(front, y), term.rows[y], Row(back, y))
      ensures lastY == y || lastY == old(lastY)
      ensures Rows(front) == old(Rows(front))[y := Row(front, y)] && |term.rows| == |old(term.rows)|
      ensures term.rows == old(term.rows)[y := term.rows[y]]
      ensures old(Row(front, y)) == Marked(Row(back, y), 0) ==> out == old(out)
    {
      hide Drawn, DrawnFront, DrawnShown, PutInRow, Marked, Picture, NoMarkers, ShowsRow, ExecAll;
      ghost var row, fronts, shown := Row(back, y), Rows(front), term.rows;
      SameRow(Row(front, y), term.rows[y], picture[y]);
      StartDrawing(row, Row(front, y), term.rows[y], picture[y]);
      var x := 0;
      while x < front.Length1
        invariant Linked() && Sizes() && Drawing(row, y, x, fronts, shown)
        invariant fronts[y] == Marked(row, 0) ==> out == old(out)
        invariant lastY == y ==> lastX < x
        invariant lastY == y && lastX == x - 1 ==> (term.x, term.y) == (x, y)
        invariant lastY == y || lastY == old(lastY)
      {
        var w := Columns(back[y, x]);
        PresentCell(x, y, row, fronts, shown);
        x := x + w;
      }
      FinishDrawing(row, Row(front, y), term.rows[y]);
    }

    /** One turn of the loop over a row. */
    method PresentCell(x: nat, y: nat, ghost row: seq<Cell>, ghost fronts: seq<seq<Cell>>, ghost shown: seq<seq<Shown>>)
      requires Linked() && Sizes() && y < back.Length0 && x < back.Length1 && row == Row(back, y)
      requires y < |fronts| && y < |shown| && Drawing(row, y, x, fronts, shown)
      requires lastX == x - 1 && lastY == y ==> (term.x, term.y) == (x, y)
      modifies front, `out, `term, `last, `lastX, `lastY
      ensures Linked() && Sizes() && Drawing(row, y, x + Columns(back[y, x]), fronts, shown)
      ensures fronts[y] == Marked(row, 0) ==> out == old(out)
      ensures ((lastX, lastY) == old((lastX, lastY)) && term == old(term))
        || ((lastX, lastY) == (x, y) && (Columns(back[y, x]) == 1 ==> (term.x, term.y) == (x + 1, y)))
    {
      hide Drawn, DrawnFront, DrawnShown, PutInRow, Marked, Picture, NoMarkers, ShowsRow, ExecAll;
      DrawnSizes(row, Row(front, y), term.rows[y], x);
      NextPlace(row, x);
      if Row(front, y) == Marked(row, 0) { NothingDiffers(row, Row(front, y), term.rows[y], x); }
      if back[y, x] != front[y, x] {
        DrawCell(row, Row(front, y), term.rows[y], x);
        DrawAt(x, y);
      } else {
        SkipCell(row, Row(front, y), term.rows[y], x);
      }
    }

    /** All rows, each from what the screen showed before. */
    method PresentRows()
      requires Linked() && Sizes() && out == [] && lastX == lastY == -1
      requires forall y :: 0 <= y < back.Length0 ==> NoMarkers(Row(back, y))
      requires forall y :: 0 <= y < |picture| ==> ShowsRow(Row(front, y), term.rows[y], picture[y])
      modifies front, `out, `term, `last, `lastX, `lastY
      ensures Linked() && Sizes() && Rows(back) == old(Rows(back))
      ensures forall y :: 0 <= y < back.Length0 ==> ShowsRow(Row(front, y), term.rows[y], Row(back, y))
      ensures (forall y :: 0 <= y < back.Length0 ==> picture[y] == old(Row(back, y))) ==> out == []
    {
      hide ShowsRow, ExecAll, PutInRow, Marked, Picture, NoMarkers;
      ghost var same := forall y :: 0 <= y < back.Length0 ==> picture[y] == Row(back, y);
      for y := 0 to front.Length0
        modifies front, `out, `term, `last, `lastX, `lastY
        invariant Linked() && Sizes() && lastY < y && Rows(back) == old(Rows(back))
        invariant forall r :: 0 <= r < back.Length0 ==> NoMarkers(Row(back, r))
        invariant forall r :: 0 <= r < y ==> ShowsRow(Row(front, r), term.rows[r], Row(back, r))
        invariant forall r :: y <= r < front.Length0 ==> ShowsRow(Row(front, r), term.rows[r], picture[r])
        invariant same ==> out == []
      {
        SameRow(Row(front, y), term.rows[y], picture[y]);
        assert same ==> Row(front, y) == Marked(Row(back, y), 0) by {
          if same { assert picture[y] == old(Row(back, y)) == Rows(back)[y]; }
        }
        ghost var fronts := Rows(front);
        PresentRow(y);
        forall r | 0 <= r < front.Length0 && r != y ensures Row(front, r) == fronts[r] {
          assert Rows(front)[r] == fronts[r];
        }
      }
    }

    lemma {:induction false} BackHasNoMarkers()
      requires Valid()
      ensures forall y :: 0 <= y < back.Length0 ==> NoMarkers(Row(back, y))
    {
    }

    lemma {:induction false} AllShown()
      requires Sizes() && IsGrid(term)
      requires forall y :: 0 <= y < back.Length0 ==> ShowsRow(Row(front, y), term.rows[y], Row(back, y))
      ensures forall y :: 0 <= y < back.Length0 ==> term.rows[y] == Picture(Row(back, y), 0)
    {
    }

    /** Draws what changed. The terminal then shows exactly the back buffer, and presenting again
        sends nothing but the position of the cursor. */
    method Present() returns (sent: seq<Command>)
      requires Valid()
      modifies front, `out, `term, `base, `picture, `last, `lastX, `lastY
      ensures Valid() && UpToDate()
      ensures |picture| == back.Length0 && forall y :: 0 <= y < |picture| ==> picture[y] == Row(back, y)
      ensures forall y :: 0 <= y < back.Length0 ==> Row(back, y) == old(Row(back, y))
      ensures IsGrid(old(base)) && term == ExecAll(old(base), sent)
      ensures (forall y :: 0 <= y < back.Length0 ==> old(picture)[y] == old(Row(back, y))) ==>
        sent == if cursorX < 0 || cursorY < 0 then [] else [Move(cursorX, cursorY)]
    {
      hide ShowsRow, ExecAll, PutInRow, Marked, Picture;
      BackHasNoMarkers();
      hide NoMarkers;
      lastX, lastY := -1, -1;
      PresentRows();
      AllShown();
      picture := Rows(back);
      SendCursorIf(cursorX, cursorY);
      sent := Flush();
    }

    // -------------------------------------------------------------- cell buffers

    /** `tb_set_cell`. Zero-width characters and the marker never get here. */
    method SetCell(x: int, y: int, c: Cell) returns (ok: bool)
      requires Valid() && c != INVALID
      modifies back
      ensures Valid() && (ok <==> 0 <= x < back.Length1 && 0 <= y < back.Length0)
      ensures forall r, q :: 0 <= r < back.Length0 && 0 <= q < back.Length1 ==>
        back[r, q] == if (q, r) == (x, y) then c else old(back[r, q])
    {
      if x < 0 || x >= back.Length1 || y < 0 || y >= back.Length0 {
        return false;
      }
      back[y, x] := c;
      return true;
    }

    /** `cellbuf_clear`. */
    method ClearCells(cells: array2<Cell>)
      modifies cells
      ensures forall y, x :: 0 <= y < cells.Length0 && 0 <= x < cells.Length1 ==> cells[y, x] == Cell(BLANK, clear)
    {
      for y := 0 to cells.Length0
        invariant forall r, q :: 0 <= r < y && 0 <= q < cells.Length1 ==> cells[r, q] == Cell(BLANK, clear)
      {
        for x := 0 to cells.Length1
          invariant forall r, q :: 0 <= r < y && 0 <= q < cells.Length1 ==> cells[r, q] == Cell(BLANK, clear)
          invariant forall q :: 0 <= q < x ==> cells[y, q] == Cell(BLANK, clear)
        {
          cells[y, x] := Cell(BLANK, clear);
        }
      }
    }

    /** `tb_clear`. */
    method ClearBack()
      requires Valid()
      modifies back
      ensures Valid()
      ensures forall y, x :: 0 <= y < back.Length0 && 0 <= x < back.Length1 ==> back[y, x] == Cell(BLANK, clear)
    {
      ClearCells(back);
    }

    /** `cellbuf_resize`: the common part is kept, the rest is blank. */
    method ResizeCells(cells: array2<Cell>, width: int, height: int) returns (r: array2<Cell>)
      ensures r == cells || fresh(r)
      ensures (cells.Length1, cells.Length0) == (width, height) ==> r == cells
      ensures (cells.Length1, cells.Length0) != (width, height) ==>
        fresh(r) && (r.Length1, r.Length0) == (AtLeastOne(width), AtLeastOne(height))
      ensures forall y, x :: 0 <= y < r.Length0 && 0 <= x < r.Length1 ==>
        r[y, x] == if y < cells.Length0 && x < cells.Length1 then cells[y, x] else Cell(BLANK, clear)
    {
      if cells.Length1 == width && cells.Length0 == height {
        return cells;
      }
      r := new Cell[AtLeastOne(height), AtLeastOne(width)];
      ClearCells(r);
      var columns := if r.Length1 < cells.Length1 then r.Length1 else cells.Length1;
      var rows := if r.Length0 < cells.Length0 then r.Length0 else cells.Length0;
      for x := 0 to columns
        invariant forall y, q :: 0 <= y < r.Length0 && 0 <= q < r.Length1 ==>
          r[y, q] == if y < rows && q < x then cells[y, q] else Cell(BLANK, clear)
      {
        for y := 0 to rows
          invariant forall p, q :: 0 <= p < r.Length0 && 0 <= q < r.Length1 ==>
            r[p, q] == if p < rows && (q < x || (q == x && p < y)) then cells[p, q] else Cell(BLANK, clear)
        {
          r[y, x] := cells[y, x];
        }
      }
    }

    /** `send_clear`. */
    method SendClear() returns (sent: seq<Command>)
      requires Flows() && out == [] && (last == clear ==> term.attr == clear)
      modifies `out, `term, `base, `last, `lastX, `lastY
      ensures Linked() && out == [] && (term.width, term.height) == old((term.width, term.height))
      ensures forall y, x :: 0 <= y < term.height && 0 <= x < term.width ==> term.rows[y][x] == Narrow(BLANK.code, clear)
      ensures IsGrid(old(base)) && term == ExecAll(old(base), sent)
    {
      SendAttr(clear);
      Send(Clear);
      SendCursorIf(cursorX, cursorY);
      sent := Flush();
      lastX, lastY := -1, -1;
    }

    /** Starts with cleared buffers on a cleared terminal, whatever it showed before. */
    constructor (width: nat, height: nat, clear: Attr, ghost t: Term)
      requires IsGrid(t) && (t.width, t.height) == (width, height) && !t.broken
      ensures Valid() && UpToDate() && fresh(back) && fresh(front)
      ensures (back.Length1, back.Length0) == (width, height)
    {
      this.clear := clear;
      last := Attr(Complement(clear.fg), Complement(clear.bg));
      lastX, lastY, cursorX, cursorY := -1, -1, -1, -1;
      out, term, base, picture := [], t, t, [];
      back := new Cell[height, width];
      front := new Cell[height, width];
      new;
      var sent := SendClear();
      ClearCells(back);
      ClearCells(front);
      picture := BlankRows(height, width, clear);
      AllBlank();
      forall y | 0 <= y < height ensures Row(back, y) == Blanks(width, clear) {
      }
    }

    /** A blank front buffer agrees with a cleared terminal. */
    lemma {:induction false} AllBlank()
      requires Linked() && Sizes()
      requires forall y, x :: 0 <= y < term.height && 0 <= x < term.width ==> term.rows[y][x] == Narrow(BLANK.code, clear)
      requires forall y, x :: 0 <= y < front.Length0 && 0 <= x < front.Length1 ==> front[y, x] == Cell(BLANK, clear)
      ensures forall y :: 0 <= y < front.Length0 ==> ShowsRow(Row(front, y), term.rows[y], Blanks(term.width, clear))
    {
      forall y | 0 <= y < front.Length0 ensures ShowsRow(Row(front, y), term.rows[y], Blanks(term.width, clear)) {
        BlanksShow(Blanks(term.width, clear), clear, 0);
        assert Row(front, y) == Blanks(term.width, clear);
      }
    }

    /** `resize_cellbufs` after the terminal has become `t`. It no longer shows the old picture; it
        shows a cleared one, and the front buffer knows it. The back buffer keeps what still fits. */
    method Resize(width: int, height: int, ghost t: Term) returns (sent: seq<Command>)
      requires Valid() && IsGrid(t) && !t.broken && t.attr == term.attr
      requires (t.width, t.height) == if (back.Length1, back.Length0) == (width, height) then (width, height)
                                      else (AtLeastOne(width), AtLeastOne(height))
      modifies this, front
      ensures Valid() && (back == old(back) || fresh(back)) && (front == old(front) || fresh(front))
      ensures clear == old(clear) && (back.Length1, back.Length0) == (t.width, t.height)
      ensures forall y, x :: 0 <= y < back.Length0 && 0 <= x < back.Length1 ==>
        back[y, x] == if y < old(back.Length0) && x < old(back.Length1) then old(back[y, x]) else Cell(BLANK, clear)
      ensures forall y, x :: 0 <= y < term.height && 0 <= x < term.width ==> term.rows[y][x] == Narrow(BLANK.code, clear)
      ensures IsGrid(t) && term == ExecAll(t, sent)
    {
      hide PutInRow, ShowsRow, ExecAll, IsGrid, Row, Blanks;
      var b := ResizeCells(back, width, height);
      var f := ResizeCells(front, width, height);
      back, front := b, f;
      ClearCells(front);
      term, base := t, t;
      NothingSent(t);
      sent := SendClear();
      picture := BlankRows(t.height, t.width, clear);
      AllBlank();
    }

    static lemma {:induction false} NothingSent(t: Term)
      requires IsGrid(t)
      ensures ExecAll(t, []) == t
    {
    }

    // -------------------------------------------------------------- whole runs

    ghost function Contents(): Buffer
      reads this, back
    {
      Buffer(back.Length1, back.Length0, Rows(back))
    }

    /** One operation on the screen. After a resize the terminal may show anything. */
    method Perform(op: Op) returns (sent: seq<Command>)
      requires Valid() && (op.Set? ==> op.c != INVALID)
      modifies this, back, front
      ensures Valid() && (back == old(back) || fresh(back)) && (front == old(front) || fresh(front))
      ensures clear == old(clear) && Contents() == AfterOp(old(Contents()), clear, op)
      ensures op.Show? ==> UpToDate()
    {
      hide ShowsRow, ExecAll, PutInRow, Marked, Picture;
      ghost var before := Contents();
      sent := [];
      match op
      case Set(x, y, c) =>
        var ok := SetCell(x, y, c);
        SameBuffer(AfterOp(before, clear, op));
      case Erase =>
        ClearBack();
        SameBuffer(AfterOp(before, clear, op));
      case Show =>
        sent := Present();
      case Turn(width, height) =>
        var w, h := back.Length1, back.Length0;
        if (w, h) != (width, height) {
          w, h := AtLeastOne(width), AtLeastOne(height);
        }
        BlankGrid(h, w, term.attr);
        ghost var t :| IsGrid(t) && !t.broken && t.attr == term.attr && (t.width, t.height) == (w, h);
        sent := Resize(width, height, t);
        SameBuffer(AfterOp(before, clear, op));
    }

    /** A buffer is known by its cells. */
    lemma {:induction false} SameBuffer(b: Buffer)
      requires (back.Length1, back.Length0) == (b.width, b.height) && |b.rows| == b.height
      requires forall y :: 0 <= y < b.height ==> |b.rows[y]| == b.width
      requires forall y, x :: 0 <= y < b.height && 0 <= x < b.width ==> back[y, x] == b.rows[y][x]
      ensures Contents() == b
    {
      forall y | 0 <= y < b.height ensures Rows(back)[y] == b.rows[y] {
        assert Row(back, y) == b.rows[y];
      }
    }

    /** Whatever is done to the screen, presenting it leaves the terminal with exactly the back buffer, and
        the back buffer is what the operations made of it. */
    method AnyRun(run: seq<Op>) returns (sent: seq<Command>)
      requires Valid() && forall k :: 0 <= k < |run| && run[k].Set? ==> run[k].c != INVALID
      modifies this, back, front
      ensures Valid() && UpToDate() && Contents() == AfterOps(old(Contents()), old(clear), run)
    {
      hide AfterOp;
      ghost var before := Contents();
      for k := 0 to |run|
        invariant Valid() && clear == old(clear) && Contents() == AfterOps(before, clear, run[..k])
        invariant (back == old(back) || fresh(back)) && (front == old(front) || fresh(front))
        invariant front != old(back) && back != old(front)
      {
        assert run[..k + 1][..k] == run[..k];
        sent := Perform(run[k]);
      }
      assert run[..|run|] == run;
      Unchanged(Contents(), clear);
      sent := Perform(Show);
    }
  }

  datatype Op = Set(x: int, y: int, c: Cell) | Erase | Show | Turn(width: int, height: int)

  datatype Buffer = Buffer(width: nat, height: nat, rows: seq<seq<Cell>>)

  /** What an operation makes of the back buffer. */
  function AfterOp(b: Buffer, clear: Attr, op: Op): (r: Buffer) {
    match op
    case Show => b
    case Set(x, y, c) =>
      if 0 <= y < |b.rows| && 0 <= x < |b.rows[y]| then b.(rows := b.rows[y := b.rows[y][x := c]]) else b
    case Erase => b.(rows := BlankRows(b.height, b.width, clear))
    case Turn(width, height) =>
      if (b.width, b.height) == (width, height) then b
      else
        var w, h := AtLeastOne(width), AtLeastOne(height);
        Buffer(w, h, seq(h, y requires 0 <= y < h => seq(w, x requires 0 <= x < w =>
          if y < |b.rows| && x < |b.rows[y]| then b.rows[y][x] else Cell(BLANK, clear))))
  }

  function AfterOps(b: Buffer, clear: Attr, run: seq<Op>): Buffer {
    if run == [] then b else AfterOp(AfterOps(b, clear, run[..|run| - 1]), clear, run[|run| - 1])
  }

  lemma {:induction false} Unchanged(b: Buffer, clear: Attr)
    ensures AfterOp(b, clear, Show) == b
  {
  }

  /** There are terminals of every size. */
  lemma {:induction false} BlankGrid(height: nat, width: nat, attr: Attr)
    ensures exists t :: IsGrid(t) && !t.broken && t.attr == attr && (t.width, t.height) == (width, height)
  {
    var t := Term(width, height, seq(height, _ => seq(width, _ => Narrow(BLANK.code, attr))), 0, 0, attr, false);
    assert IsGrid(t);
  }
}
