/** A terminal as far as drawing cells goes, and what a row of cells looks like on it. */
module Terminal {

  /** A character with the width `wcwidth` reports for it: -1 for one that cannot be printed.
      Combining characters have no place of their own and are kept out of the cells. */
  datatype AnySym = Sym(code: nat, width: int)
  type Sym = s: AnySym | s.width == -1 || s.width == 1 || s.width == 2 witness Sym(0x20, 1)

  datatype Attr = Attr(fg: nat, bg: nat)
  datatype Cell = Cell(sym: Sym, attr: Attr)

  const BLANK: Sym := Sym(0x20, 1)
  const REPLACEMENT: nat := 0xFFFD

  /** The marker for a position that the right half of a wide character covers. */
  const INVALID: Cell := Cell(Sym(0xFFFF_FFFF, -1), Attr(0xFFFF, 0xFFFF))

  /** What stands at one position of the screen. */
  datatype Shown = Narrow(code: nat, attr: Attr) | Left(code: nat, attr: Attr) | Right | Ruined

  datatype Command = Move(x: int, y: int) | SetAttr(attr: Attr) | Put(code: nat, columns: nat) | Clear

  /** `broken` is set once a command went beyond what is known about the terminal. */
  datatype Term = Term(width: nat, height: nat, rows: seq<seq<Shown>>, x: int, y: int, attr: Attr, broken: bool)

  predicate IsGrid(t: Term) {
    |t.rows| == t.height && forall y :: 0 <= y < t.height ==> |t.rows[y]| == t.width
  }

  /** Writing a glyph on one half of a wide glyph ruins the other half. */
  function PutInRow(row: seq<Shown>, x: nat, code: nat, columns: nat, attr: Attr): (r: seq<Shown>)
    requires 1 <= columns <= 2 && x + columns <= |row|
    ensures |r| == |row|
  {
    var r1 := if x > 0 && row[x].Right? then row[x - 1 := Ruined] else row;
    var r2 := if x + columns < |row| && row[x + columns].Right? then r1[x + columns := Ruined] else r1;
    if columns == 1 then r2[x := Narrow(code, attr)] else r2[x := Left(code, attr)][x + 1 := Right]
  }

  function Exec(t: Term, c: Command): Term
    requires IsGrid(t)
  {
    match c
    case Move(x, y) => t.(x := x, y := y)
    case SetAttr(a) => t.(attr := a)
    case Clear => t.(rows := seq(t.height, _ => seq(t.width, _ => Narrow(BLANK.code, t.attr))))
    case Put(code, columns) =>
      if 0 <= t.y < t.height && 0 <= t.x && 1 <= columns <= 2 && t.x + columns <= t.width then
        t.(rows := t.rows[t.y := PutInRow(t.rows[t.y], t.x, code, columns, t.attr)], x := t.x + columns)
      else
        t.(broken := true)
  }

  lemma {:induction false} ExecGrid(t: Term, c: Command)
    requires IsGrid(t)
    ensures IsGrid(Exec(t, c)) && (Exec(t, c).width, Exec(t, c).height) == (t.width, t.height)
  {
  }

  function ExecAll(t: Term, cs: seq<Command>): (r: Term)
    requires IsGrid(t)
    ensures IsGrid(r) && (r.width, r.height) == (t.width, t.height)
  {
    if cs == [] then t
    else
      var u := ExecAll(t, cs[..|cs| - 1]);
      ExecGrid(u, cs[|cs| - 1]);
      Exec(u, cs[|cs| - 1])
  }

  // ---------------------------------------------------------------- what a row of cells stands for

  function Columns(c: Cell): nat {
    if c.sym.width < 1 then 1 else c.sym.width
  }

  function Code(c: Cell): nat {
    if c.sym.width < 1 then REPLACEMENT else c.sym.code
  }

  /** The picture of the cells from `x` on: a wide character hides the cell behind it, and shows as
      a space in the last column. */
  function Picture(row: seq<Cell>, x: nat): (r: seq<Shown>)
    requires x <= |row|
    ensures |r| == |row| - x
    decreases |row| - x
  {
    if x == |row| then []
    else if Columns(row[x]) == 1 then [Narrow(Code(row[x]), row[x].attr)] + Picture(row, x + 1)
    else if x + 1 < |row| then [Left(Code(row[x]), row[x].attr), Right] + Picture(row, x + 2)
    else [Narrow(BLANK.code, row[x].attr)]
  }

  /** The same cells with the hidden ones marked: what the front buffer holds after drawing them. */
  function Marked(row: seq<Cell>, x: nat): (r: seq<Cell>)
    requires x <= |row|
    ensures |r| == |row| - x
    decreases |row| - x
  {
    if x == |row| then []
    else if Columns(row[x]) == 2 && x + 1 < |row| then [row[x], INVALID] + Marked(row, x + 2)
    else [row[x]] + Marked(row, x + 1)
  }

  predicate PairedAt(shown: seq<Shown>, x: nat)
    requires x < |shown|
  {
    && (shown[x].Right? <==> x > 0 && shown[x - 1].Left?)
    && (shown[x].Left? ==> x + 1 < |shown|)
  }

  /** Right halves stand behind left halves and nowhere else. */
  predicate Paired(shown: seq<Shown>) {
    forall x :: 0 <= x < |shown| ==> PairedAt(shown, x)
  }

  lemma {:induction false} PutKeepsPaired(row: seq<Shown>, x: nat, code: nat, columns: nat, attr: Attr)
    requires 1 <= columns <= 2 && x + columns <= |row| && Paired(row)
    ensures Paired(PutInRow(row, x, code, columns, attr))
  {
    var r := PutInRow(row, x, code, columns, attr);
    forall p | 0 <= p < |r| ensures PairedAt(r, p) {
      assert PairedAt(row, p) && PairedAt(row, x) && (p + 1 < |row| ==> PairedAt(row, p + 1));
      assert x + 1 < |row| ==> PairedAt(row, x + 1);
      assert x + columns < |row| ==> PairedAt(row, x + columns);
    }
  }

  /** The cell at `x` is what the screen shows there. */
  predicate CellShown(row: seq<Cell>, shown: seq<Shown>, x: nat)
    requires x < |row| == |shown|
  {
    if Columns(row[x]) == 1 then shown[x] == Narrow(Code(row[x]), row[x].attr)
    else if x + 1 < |row| then
      shown[x] == Left(Code(row[x]), row[x].attr) && shown[x + 1] == Right && row[x + 1] == INVALID
    else shown[x] == Narrow(BLANK.code, row[x].attr)
  }

  predicate AgreesAt(front: seq<Cell>, shown: seq<Shown>, x: nat, p: nat)
    requires x <= p < |front| == |shown|
  {
    if front[p] == INVALID then p == x || Columns(front[p - 1]) == 2 else CellShown(front, shown, p)
  }

  /** From `x` on the front row agrees with the screen. Markers stand behind wide cells, except that
      the one at `x` may have lost its wide cell. */
  predicate Agrees(front: seq<Cell>, shown: seq<Shown>, x: nat) {
    |front| == |shown| && forall p :: x <= p < |front| ==> AgreesAt(front, shown, x, p)
  }

  predicate NoMarkers(row: seq<Cell>) {
    forall x :: 0 <= x < |row| ==> row[x] != INVALID
  }

  /** The cells before `x` are done when they begin the picture of the whole row. */
  predicate Done(back: seq<Cell>, front: seq<Cell>, shown: seq<Shown>, x: nat)
    requires x <= |back| == |front| == |shown|
  {
    && front[..x] + Marked(back, x) == Marked(back, 0)
    && shown[..x] + Picture(back, x) == Picture(back, 0)
  }

  /** The state of a row while it is drawn: the part before `x` is done. */
  predicate Drawn(back: seq<Cell>, front: seq<Cell>, shown: seq<Shown>, x: nat) {
    && x <= |back| == |front| == |shown|
    && NoMarkers(back)
    && Paired(shown)
    && Done(back, front, shown, x)
    && Agrees(front, shown, x)
    && (x > 0 ==> !shown[x - 1].Left?)
  }

  /** The terminal shows the cells of `row`, and the front row knows it. */
  predicate ShowsRow(front: seq<Cell>, shown: seq<Shown>, row: seq<Cell>) {
    NoMarkers(row) && front == Marked(row, 0) && shown == Picture(row, 0)
  }

  // ---------------------------------------------------------------- drawing a row, cell by cell

  /** A fully drawn row is a place to start from. */
  lemma {:induction false} PictureAgrees(row: seq<Cell>, x: nat)
    requires NoMarkers(row) && x <= |row|
    ensures Paired(Picture(row, x)) && Agrees(Marked(row, x), Picture(row, x), 0)
    ensures Marked(row, x) != [] ==> Marked(row, x)[0] != INVALID
    decreases |row| - x
  {
    var f, s := Marked(row, x), Picture(row, x);
    if x == |row| {
    } else if Columns(row[x]) == 1 {
      PictureAgrees(row, x + 1);
      assert f == [row[x]] + Marked(row, x + 1);
      PrependNarrow(row[x], Marked(row, x + 1), Picture(row, x + 1));
    } else if x + 1 < |row| {
      PictureAgrees(row, x + 2);
      PrependWide(row[x], Marked(row, x + 2), Picture(row, x + 2));
    } else {
      assert Marked(row, x + 1) == [];
      assert f == [row[x]] && s == [Narrow(BLANK.code, row[x].attr)];
      assert AgreesAt(f, s, 0, 0);
    }
  }

  lemma {:induction false} PrependNarrow(c: Cell, f: seq<Cell>, s: seq<Shown>)
    requires Columns(c) == 1 && c != INVALID && (f != [] ==> f[0] != INVALID)
    requires Paired(s) && Agrees(f, s, 0)
    ensures Paired([Narrow(Code(c), c.attr)] + s)
    ensures Agrees([c] + f, [Narrow(Code(c), c.attr)] + s, 0)
  {
    var g, t := [c] + f, [Narrow(Code(c), c.attr)] + s;
    forall p | 0 <= p < |t| ensures PairedAt(t, p) {
      assert p > 0 ==> PairedAt(s, p - 1);
    }
    forall p | 0 <= p < |g|
      ensures AgreesAt(g, t, 0, p)
    {
      if p > 0 {
        assert g[p] == f[p - 1] && t[p] == s[p - 1] && AgreesAt(f, s, 0, p - 1);
        assert p > 1 ==> g[p - 1] == f[p - 2];
      }
    }
  }

  lemma {:induction false} PrependWide(c: Cell, f: seq<Cell>, s: seq<Shown>)
    requires Columns(c) == 2 && c != INVALID && (f != [] ==> f[0] != INVALID)
    requires Paired(s) && Agrees(f, s, 0)
    ensures Paired([Left(Code(c), c.attr), Right] + s)
    ensures Agrees([c, INVALID] + f, [Left(Code(c), c.attr), Right] + s, 0)
  {
    var g, t := [c, INVALID] + f, [Left(Code(c), c.attr), Right] + s;
    forall p | 0 <= p < |t| ensures PairedAt(t, p) {
      assert p > 1 ==> PairedAt(s, p - 2);
    }
    forall p | 0 <= p < |g|
      ensures AgreesAt(g, t, 0, p)
    {
      if p > 1 {
        assert g[p] == f[p - 2] && t[p] == s[p - 2] && AgreesAt(f, s, 0, p - 2);
        assert p > 2 ==> g[p - 1] == f[p - 3];
      }
    }
  }

  lemma {:induction false} StartDrawing(back: seq<Cell>, front: seq<Cell>, shown: seq<Shown>, was: seq<Cell>)
    requires NoMarkers(back) && ShowsRow(front, shown, was) && |was| == |back|
    ensures Drawn(back, front, shown, 0)
  {
    PictureAgrees(was, 0);
    assert Marked(was, 0)[..0] + Marked(back, 0) == Marked(back, 0);
    assert Picture(was, 0)[..0] + Picture(back, 0) == Picture(back, 0);
  }

  lemma {:induction false} FinishDrawing(back: seq<Cell>, front: seq<Cell>, shown: seq<Shown>)
    requires Drawn(back, front, shown, |back|)
    ensures ShowsRow(front, shown, back)
  {
    assert front[..|back|] == front && shown[..|back|] == shown;
    assert front[..|back|] + [] == front && shown[..|back|] + [] == shown;
  }

  /** The front row after a cell has been drawn. */
  function DrawnFront(front: seq<Cell>, x: nat, c: Cell): (r: seq<Cell>)
    requires x < |front|
    ensures |r| == |front|
  {
    if Columns(c) == 2 && x + 1 < |front| then front[x := c][x + 1 := INVALID] else front[x := c]
  }

  function DrawnShown(shown: seq<Shown>, x: nat, c: Cell): (r: seq<Shown>)
    requires x < |shown|
    ensures |r| == |shown|
  {
    if Columns(c) == 2 && x + 1 == |shown| then PutInRow(shown, x, BLANK.code, 1, c.attr)
    else PutInRow(shown, x, Code(c), Columns(c), c.attr)
  }

  /** Nothing is left of `x` that the next glyph could ruin. */
  lemma {:induction false} NoRightAt(shown: seq<Shown>, x: nat)
    requires Paired(shown) && x < |shown| && (x > 0 ==> !shown[x - 1].Left?)
    ensures !shown[x].Right?
  {
    assert PairedAt(shown, x);
  }

  /** How many positions a cell takes up in a row of this length. */
  function Taken(row: seq<Cell>, x: nat): nat
    requires x < |row|
  {
    if Columns(row[x]) == 2 && x + 1 < |row| then 2 else 1
  }

  function CellPicture(row: seq<Cell>, x: nat): (r: seq<Shown>)
    requires x < |row|
    ensures |r| == Taken(row, x)
  {
    if Taken(row, x) == 2 then [Left(Code(row[x]), row[x].attr), Right]
    else [Narrow(if Columns(row[x]) == 1 then Code(row[x]) else BLANK.code, row[x].attr)]
  }

  function CellMarked(row: seq<Cell>, x: nat): (r: seq<Cell>)
    requires x < |row|
    ensures |r| == Taken(row, x)
  {
    if Taken(row, x) == 2 then [row[x], INVALID] else [row[x]]
  }

  lemma {:induction false} UnrollAt(row: seq<Cell>, x: nat)
    requires x < |row|
    ensures x + Taken(row, x) <= |row|
    ensures Picture(row, x) == CellPicture(row, x) + Picture(row, x + Taken(row, x))
    ensures Marked(row, x) == CellMarked(row, x) + Marked(row, x + Taken(row, x))
  {
  }

  lemma {:induction false} DrawnPrefix(back: seq<Cell>, front: seq<Cell>, shown: seq<Shown>, x: nat)
    requires x < |back| == |front| == |shown| && !shown[x].Right?
    ensures x + Taken(back, x) <= |back|
    ensures DrawnFront(front, x, back[x])[..x + Taken(back, x)] == front[..x] + CellMarked(back, x)
    ensures DrawnShown(shown, x, back[x])[..x + Taken(back, x)] == shown[..x] + CellPicture(back, x)
  {
  }

  lemma {:induction false} DrawnPaired(shown: seq<Shown>, x: nat, c: Cell)
    requires x < |shown| && Paired(shown)
    ensures Paired(DrawnShown(shown, x, c))
  {
    hide PutInRow, Paired;
    if Columns(c) == 2 && x + 1 == |shown| {
      PutKeepsPaired(shown, x, BLANK.code, 1, c.attr);
    } else {
      PutKeepsPaired(shown, x, Code(c), Columns(c), c.attr);
    }
  }

  lemma {:induction false} DoneOneMore(back: seq<Cell>, front: seq<Cell>, shown: seq<Shown>, f: seq<Cell>, s: seq<Shown>, x: nat)
    requires x < |back| == |front| == |shown| == |f| == |s| && Done(back, front, shown, x)
    requires x + Taken(back, x) <= |back|
    requires f[..x + Taken(back, x)] == front[..x] + CellMarked(back, x)
    requires s[..x + Taken(back, x)] == shown[..x] + CellPicture(back, x)
    ensures Done(back, f, s, x + Taken(back, x))
  {
    hide CellMarked, CellPicture, Marked, Picture;
    UnrollAt(back, x);
  }

  lemma {:induction false} AgreesAfter(front: seq<Cell>, shown: seq<Shown>, x: nat, c: Cell)
    requires Agrees(front, shown, x) && Paired(shown) && x + Columns(c) <= |front|
    requires !shown[x].Right?
    ensures Agrees(DrawnFront(front, x, c), DrawnShown(shown, x, c), x + Columns(c))
  {
    var n := x + Columns(c);
    var f, s := DrawnFront(front, x, c), DrawnShown(shown, x, c);
    forall p | n <= p < |f| ensures AgreesAt(f, s, n, p) {
      assert f[p] == front[p] && AgreesAt(front, shown, x, p);
      if front[p] != INVALID {
        assert CellShown(front, shown, p);
        assert s[p] == shown[p];
        assert PairedAt(shown, p);
        if p + 1 < |f| { assert PairedAt(shown, p + 1) && f[p + 1] == front[p + 1]; }
      }
    }
  }

  /** A cell that differs is drawn. */
  lemma {:induction false} DrawCell(back: seq<Cell>, front: seq<Cell>, shown: seq<Shown>, x: nat)
    requires x < |back| && Drawn(back, front, shown, x)
    ensures Drawn(back, DrawnFront(front, x, back[x]), DrawnShown(shown, x, back[x]), x + Taken(back, x))
  {
    hide PutInRow, Marked, Picture, Agrees, Paired, Done, DrawnFront, DrawnShown;
    NoRightAt(shown, x);
    DrawnPaired(shown, x, back[x]);
    DrawnPrefix(back, front, shown, x);
    var f, s, n := DrawnFront(front, x, back[x]), DrawnShown(shown, x, back[x]), x + Taken(back, x);
    DoneOneMore(back, front, shown, f, s, x);
    assert s[n - 1] == s[..n][n - 1] == CellPicture(back, x)[Taken(back, x) - 1];
    if Taken(back, x) == Columns(back[x]) {
      AgreesAfter(front, shown, x, back[x]);
    } else {
      NothingLeft(f, s);
    }
  }

  lemma {:induction false} NothingLeft(f: seq<Cell>, s: seq<Shown>)
    requires |f| == |s|
    ensures Agrees(f, s, |f|)
  {
  }

  /** A cell that does not differ is left alone, and so is what the screen shows there. */
  lemma {:induction false} SkipCell(back: seq<Cell>, front: seq<Cell>, shown: seq<Shown>, x: nat)
    requires x < |back| && Drawn(back, front, shown, x) && front[x] == back[x]
    ensures Drawn(back, front, shown, x + Taken(back, x))
  {
    hide Marked, Picture, Done;
    var n := x + Taken(back, x);
    assert AgreesAt(front, shown, x, x);
    assert front[..n] == front[..x] + CellMarked(back, x);
    assert shown[..n] == shown[..x] + CellPicture(back, x);
    DoneOneMore(back, front, shown, front, shown, x);
    forall p | n <= p < |front| ensures AgreesAt(front, shown, n, p) {
      assert AgreesAt(front, shown, x, p);
    }
  }

  // ---------------------------------------------------------------- blank rows

  function Blanks(width: nat, attr: Attr): (row: seq<Cell>)
    ensures |row| == width && forall x :: 0 <= x < width ==> row[x] == Cell(BLANK, attr)
  {
    seq(width, _ => Cell(BLANK, attr))
  }

  function BlankRows(height: nat, width: nat, attr: Attr): (rows: seq<seq<Cell>>)
    ensures |rows| == height && forall y :: 0 <= y < height ==> rows[y] == Blanks(width, attr)
  {
    seq(height, _ => Blanks(width, attr))
  }

  /** A cleared screen shows cleared cells. */
  lemma {:induction false} BlanksShow(row: seq<Cell>, attr: Attr, x: nat)
    requires x <= |row| && forall p :: 0 <= p < |row| ==> row[p] == Cell(BLANK, attr)
    ensures Marked(row, x) == row[x..]
    ensures forall p :: 0 <= p < |row| - x ==> Picture(row, x)[p] == Narrow(BLANK.code, attr)
    decreases |row| - x
  {
    if x < |row| {
      BlanksShow(row, attr, x + 1);
      assert row[x..] == [row[x]] + row[x + 1..];
    }
  }

  lemma {:induction false} SameRow(front: seq<Cell>, shown: seq<Shown>, row: seq<Cell>)
    requires ShowsRow(front, shown, row)
    ensures |front| == |shown| == |row| && front == Marked(row, 0) && shown == Picture(row, 0)
  {
  }

  /** A row that is already drawn has nothing left to draw. */
  lemma {:induction false} NothingDiffers(back: seq<Cell>, front: seq<Cell>, shown: seq<Shown>, x: nat)
    requires x < |back| && Drawn(back, front, shown, x) && front == Marked(back, 0)
    ensures front[x] == back[x]
  {
    assert Marked(back, 0)[x] == Marked(back, x)[0];
  }

  lemma {:induction false} DrawnSizes(back: seq<Cell>, front: seq<Cell>, shown: seq<Shown>, x: nat)
    requires Drawn(back, front, shown, x)
    ensures x <= |back| == |front| == |shown|
  {
  }

  lemma {:induction false} NextPlace(row: seq<Cell>, x: nat)
    requires x < |row|
    ensures (if x + Columns(row[x]) <= |row| then x + Columns(row[x]) else |row|) == x + Taken(row, x)
  {
  }
}
