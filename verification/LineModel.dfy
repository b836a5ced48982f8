/** What the line processor of `src/render_data/line.c` computes, one character at a time.

    The functions here never look back into a line they have finished: the C code truncates a line
    and sends its tail through `line_char` again, and `LineProcessor.dfy` proves that this comes to
    `Refill`, which only ever appends to the last line or starts a new one. */
module LineModel {

  type Style = bv32

  /** A wide character together with the width `wcwidth` reports for it. */
  datatype AnyRune = Rune(code: nat, width: int)

  /** `wcwidth` never exceeds 2, is 1 for a space and is not positive for control characters. */
  type Rune = r: AnyRune |
    && r.width <= 2
    && (r.code == 0x20 ==> r.width == 1)
    && (9 <= r.code <= 13 ==> r.width < 1)
    witness Rune(0x20, 1)

  const NEWLINE: nat := 10
  const TAB: nat := 9
  const SOFT_HYPHEN: nat := 0xAD
  const SPACE: Rune := Rune(0x20, 1)
  const HYPHEN: Rune := Rune(0x2D, 1)
  const TAB_WIDTH: nat := 4

  predicate IsSpace(r: Rune) {
    r.code == 0x20
  }

  predicate IsWideWhitespace(r: Rune) {
    r.code == 0x20 || 9 <= r.code <= 13
  }

  /** Characters that reach the text of a line. */
  predicate Printable(r: Rune) {
    r.code != NEWLINE && r.code != TAB && r.code != SOFT_HYPHEN && r.width >= 1
  }

  datatype Glyph = Glyph(rune: Rune, style: Style)

  predicate Blank(g: Glyph) {
    IsSpace(g.rune)
  }

  /** One line of output. When `hyphen` is set the last cell was put there by a soft-hyphen split. */
  datatype Row = Row(cells: seq<Glyph>, hyphen: bool, indent: nat)

  datatype Option<+T> = None | Some(value: T)

  datatype Break = Break(at: nat, hyphenated: bool)

  datatype State = State(lines: seq<Row>, end: Option<Break>, lim: nat, indent: nat,
                         style: Style, stack: seq<Style>)

  function Width(cells: seq<Glyph>): int {
    if cells == [] then 0 else Width(cells[..|cells| - 1]) + cells[|cells| - 1].rune.width
  }

  function Head(s: State): Row
    requires s.lines != []
  {
    s.lines[|s.lines| - 1]
  }

  // ---------------------------------------------------------------- one character

  /** `a - b` on `size_t`. */
  function SizeSub(a: nat, b: nat): int {
    if b <= a then a - b else a - b + 0x1_0000_0000_0000_0000
  }

  function Bump(s: State): State {
    s.(lines := s.lines + [Row([], false, s.indent)], end := None)
  }

  function Append(s: State, g: Glyph): State
    requires s.lines != []
  {
    s.(lines := s.lines[|s.lines| - 1 := Head(s).(cells := Head(s).cells + [g])])
  }

  /** The line takes the character no matter how long it already is. */
  predicate Forced(s: State, r: Rune)
    requires s.lines != []
  {
    s.lim == 0 || s.lim <= r.width || s.lim <= Head(s).indent
  }

  predicate Fits(s: State, r: Rune)
    requires s.lines != []
  {
    Forced(s, r) || Width(Head(s).cells) + r.width <= s.lim - Head(s).indent
  }

  predicate EndsWithWord(s: State)
    requires s.lines != []
  {
    var cells := Head(s).cells;
    cells != [] && !Blank(cells[|cells| - 1])
  }

  /** A space after a word makes the last character of the word a place to break the line at. */
  function MarkBreak(s: State, r: Rune): State
    requires s.lines != []
  {
    if IsSpace(r) && EndsWithWord(s) then s.(end := Some(Break(|Head(s).cells| - 1, false))) else s
  }

  function Extend(s: State, g: Glyph): State
    requires s.lines != []
  {
    if Fits(s, g.rune) then Append(s, g) else Append(Bump(s), g)
  }

  /** Writes glyphs one after another, starting a new line whenever the next one does not fit. */
  function Refill(s: State, tail: seq<Glyph>): (t: State)
    requires s.lines != []
    ensures t.lines != []
    ensures s.end.None? ==> t.end.None?
  {
    if tail == [] then s else Extend(Refill(s, tail[..|tail| - 1]), tail[|tail| - 1])
  }

  function DropSpaces(cells: seq<Glyph>): seq<Glyph> {
    if cells != [] && Blank(cells[0]) then DropSpaces(cells[1..]) else cells
  }

  predicate BreakInLine(s: State) {
    s.lines != [] && (s.end.Some? ==> s.end.value.at < |Head(s).cells|)
  }

  /** The part of a row that stays in front of a break. */
  function CutRow(row: Row, b: Break): Row
    requires b.at + 1 < |row.cells|
  {
    var kept := row.cells[..b.at + 1];
    if b.hyphenated then
      row.(cells := kept + [Glyph(HYPHEN, row.cells[b.at + 1].style)], hyphen := true)
    else
      row.(cells := kept)
  }

  function SplitTail(s: State): seq<Glyph>
    requires BreakInLine(s) && s.end.Some?
  {
    DropSpaces(Head(s).cells[s.end.value.at + 1..])
  }

  function CutHead(s: State): State
    requires BreakInLine(s) && s.end.Some? && s.end.value.at + 1 < |Head(s).cells|
  {
    s.(lines := s.lines[|s.lines| - 1 := CutRow(Head(s), s.end.value)])
  }

  function Split(s: State): State
    requires BreakInLine(s) && s.end.Some? && s.end.value.at + 1 < |Head(s).cells|
  {
    Refill(Bump(CutHead(s)), SplitTail(s))
  }

  /** Writes a printable character. */
  function Put(s: State, g: Glyph): (t: State)
    requires BreakInLine(s)
    ensures BreakInLine(t)
  {
    if Forced(s, g.rune) then
      Append(s, g)
    else
      var m := MarkBreak(s, g.rune);
      if Fits(m, g.rune) then Append(m, g)
      else if Blank(g) then m
      else if m.end.None? then Append(Bump(m), g)
      else Split(Append(m, g))
  }

  function PutAll(s: State, text: seq<Glyph>): (t: State)
    requires BreakInLine(s)
    ensures BreakInLine(t)
  {
    if text == [] then s else Put(PutAll(s, text[..|text| - 1]), text[|text| - 1])
  }

  function SoftHyphen(s: State): State
    requires s.lines != []
  {
    if EndsWithWord(s) && Width(Head(s).cells) < SizeSub(s.lim, Head(s).indent) then
      s.(end := Some(Break(|Head(s).cells| - 1, true)))
    else
      s
  }

  /** Length of the run of whitespace that starts at position `from`, counted up to `most`. */
  function WhitespaceRun(cells: seq<Glyph>, from: nat, most: nat): (n: nat)
    ensures n <= most
    decreases most
  {
    if most > 0 && from < |cells| && IsWideWhitespace(cells[from].rune) then
      1 + WhitespaceRun(cells, from + 1, most - 1)
    else 0
  }

  /** A tab reaches as far as the gap above it in the previous line, if there is one. */
  function TabSpaces(s: State): nat
    requires s.lines != []
  {
    if |s.lines| < 2 then TAB_WIDTH
    else
      var n := WhitespaceRun(s.lines[|s.lines| - 2].cells, |Head(s).cells|, TAB_WIDTH);
      if n == 0 then TAB_WIDTH else n
  }

  function SpaceGlyphs(n: nat, style: Style): (glyphs: seq<Glyph>)
    ensures |glyphs| == n && forall i :: 0 <= i < n ==> glyphs[i] == Glyph(SPACE, style)
  {
    seq(n, _ => Glyph(SPACE, style))
  }

  /** The glyphs that a character contributes to the text. */
  function Printed(s: State, r: Rune): seq<Glyph>
    requires s.lines != []
  {
    if r.code == TAB then SpaceGlyphs(TabSpaces(s), s.style)
    else if Printable(r) then [Glyph(r, s.style)]
    else []
  }

  function Feed(s: State, r: Rune): (t: State)
    requires BreakInLine(s)
    ensures BreakInLine(t)
  {
    if r.code == NEWLINE then Bump(s)
    else if r.code == SOFT_HYPHEN then SoftHyphen(s)
    else PutAll(s, Printed(s, r))
  }

  function FeedAll(s: State, text: seq<Rune>): (t: State)
    requires BreakInLine(s)
    ensures BreakInLine(t)
  {
    if text == [] then s else Feed(FeedAll(s, text[..|text| - 1]), text[|text| - 1])
  }

  // ---------------------------------------------------------------- styles and whole runs

  function OrAll(stack: seq<Style>): Style {
    if stack == [] then 0 else OrAll(stack[..|stack| - 1]) | stack[|stack| - 1]
  }

  function WithStack(s: State, stack: seq<Style>): State {
    s.(stack := stack, style := OrAll(stack))
  }

  function PopStack(stack: seq<Style>): seq<Style> {
    if stack == [] then [] else stack[..|stack| - 1]
  }

  /** What a renderer may do to the line processor. */
  datatype Event = Char(rune: Rune) | Push(attrs: Style) | Pop | Indent(columns: nat)

  function Do(s: State, e: Event): (t: State)
    requires BreakInLine(s)
    ensures BreakInLine(t)
  {
    match e
    case Char(r) => Feed(s, r)
    case Push(a) => WithStack(s, s.stack + [a])
    case Pop => WithStack(s, PopStack(s.stack))
    case Indent(n) => s.(indent := n)
  }

  function Run(s: State, events: seq<Event>): (t: State)
    requires BreakInLine(s)
    ensures BreakInLine(t)
  {
    if events == [] then s else Do(Run(s, events[..|events| - 1]), events[|events| - 1])
  }

  /** The processor after the line feed with which rendering begins. */
  function Start(lim: nat, indent: nat): State {
    Bump(State([], None, lim, indent, 0, []))
  }

  // ---------------------------------------------------------------- what has to hold

  /** One free column and no way to overflow it: a double-width character has no line to go to. */
  predicate OneColumn(lim: nat, indent: nat) {
    lim >= 3 && indent + 1 == lim
  }

  predicate Placeable(s: State, r: Rune) {
    OneColumn(s.lim, s.indent) ==> r.width < 2
  }

  predicate AllPlaceable(s: State, cells: seq<Glyph>) {
    forall i :: 0 <= i < |cells| ==> Placeable(s, cells[i].rune)
  }

  predicate AllPrintable(cells: seq<Glyph>) {
    forall i :: 0 <= i < |cells| ==> Printable(cells[i].rune)
  }

  predicate HasVisible(row: Row) {
    exists i :: 0 <= i < |row.cells| && !IsWideWhitespace(row.cells[i].rune)
  }

  predicate SpacesThenWord(cells: seq<Glyph>) {
    forall i, j :: 0 <= i < j < |cells| && Blank(cells[j]) ==> Blank(cells[i])
  }

  /** The recorded break is the end of a word of the last line. Where lines can overflow at all,
      the text after it is a run of spaces followed by a word, and after a soft hyphen a word at once. */
  predicate BreakOk(s: State)
    requires s.lines != []
  {
    s.end.Some? ==>
      var cells, at := Head(s).cells, s.end.value.at;
      && at < |cells|
      && !Blank(cells[at])
      && (!Forced(s, SPACE) ==> SpacesThenWord(cells[at + 1..]))
      && (!Forced(s, SPACE) && s.end.value.hyphenated && at + 1 < |cells| ==> !Blank(cells[at + 1]))
  }

  /** The hyphen that a split inserts has the style of the character behind it, which opens the next row. */
  predicate Hyphenates(row: Row, next: Row) {
    && row.cells != [] && next.cells != [] && !Blank(next.cells[0])
    && row.cells[|row.cells| - 1] == Glyph(HYPHEN, next.cells[0].style)
  }

  /** A row that got a hyphen is followed by the rest of the word. */
  predicate HyphenOk(lines: seq<Row>) {
    forall i :: 0 <= i < |lines| && lines[i].hyphen ==> i + 1 < |lines| && Hyphenates(lines[i], lines[i + 1])
  }

  predicate Inv(s: State) {
    && s.lines != []
    && (forall i :: 0 <= i < |s.lines| ==> AllPrintable(s.lines[i].cells))
    && BreakOk(s)
    && HyphenOk(s.lines)
  }

  // ---------------------------------------------------------------- what can be written

  /** Writing the character comes to an end. `LineTheorems` proves that it does not otherwise. */
  predicate CanPut(s: State, g: Glyph)
    requires BreakInLine(s)
  {
    Fits(s, g.rune) || Blank(g)
    || if s.end.None? then Placeable(s, g.rune) else AllPlaceable(s, SplitTail(Append(s, g)))
  }

  predicate CanPutAll(s: State, text: seq<Glyph>)
    requires BreakInLine(s)
  {
    text == []
    || (CanPutAll(s, text[..|text| - 1]) && CanPut(PutAll(s, text[..|text| - 1]), text[|text| - 1]))
  }

  predicate CanFeed(s: State, r: Rune)
    requires BreakInLine(s)
  {
    Printable(r) ==> CanPut(s, Glyph(r, s.style))
  }

  predicate CanFeedAll(s: State, text: seq<Rune>)
    requires BreakInLine(s)
  {
    text == []
    || (CanFeedAll(s, text[..|text| - 1]) && CanFeed(FeedAll(s, text[..|text| - 1]), text[|text| - 1]))
  }

  predicate Legal(s: State, e: Event)
    requires BreakInLine(s)
  {
    e.Char? ==> CanFeed(s, e.rune)
  }

  /** Every character of the run comes to an end. */
  predicate LegalRun(s: State, events: seq<Event>)
    requires BreakInLine(s)
  {
    events == [] ||
    (LegalRun(s, events[..|events| - 1])
     && Legal(Run(s, events[..|events| - 1]), events[|events| - 1]))
  }

  /** The row with its indentation stays within the limit. */
  predicate RowWithin(lim: nat, row: Row) {
    lim == 0 || Width(row.cells) + row.indent <= lim
  }

  /** The row with its indentation stays within the limit, unless the indentation alone does not. */
  predicate RowFits(lim: nat, row: Row) {
    row.indent < lim ==> Width(row.cells) + row.indent <= lim
  }

  /** The invariant that keeps every row, hyphenated or not, within the limit. */
  predicate FitsInv(s: State) {
    && s.lines != []
    && (forall i :: 0 <= i < |s.lines| ==> RowFits(s.lim, s.lines[i]))
    && (s.end.Some? && s.end.value.hyphenated && Head(s).indent < s.lim && s.end.value.at < |Head(s).cells| ==>
          Width(Head(s).cells[..s.end.value.at + 1]) + 1 + Head(s).indent <= s.lim)
  }

  // ---------------------------------------------------------------- what a reader sees

  function NonBlank(cells: seq<Glyph>): seq<Glyph> {
    if cells == [] then []
    else NonBlank(cells[..|cells| - 1]) + (if Blank(cells[|cells| - 1]) then [] else [cells[|cells| - 1]])
  }

  function Kept(row: Row): seq<Glyph> {
    if row.hyphen && row.cells != [] then row.cells[..|row.cells| - 1] else row.cells
  }

  /** The visible glyphs of all rows in order, inserted hyphens left out. */
  function Visible(lines: seq<Row>): seq<Glyph> {
    if lines == [] then [] else Visible(lines[..|lines| - 1]) + NonBlank(Kept(lines[|lines| - 1]))
  }

  function StackStep(stack: seq<Style>, e: Event): seq<Style> {
    match e
    case Push(a) => stack + [a]
    case Pop => PopStack(stack)
    case _ => stack
  }

  function StackAfter(stack: seq<Style>, events: seq<Event>): seq<Style> {
    if events == [] then stack
    else StackStep(StackAfter(stack, events[..|events| - 1]), events[|events| - 1])
  }

  /** The glyph that one event adds to the visible text. */
  function Shown(style: Style, e: Event): seq<Glyph> {
    if e.Char? && Printable(e.rune) && !IsSpace(e.rune) then [Glyph(e.rune, style)] else []
  }

  /** The visible glyphs that a run hands in, each in the style of its moment. */
  function Handed(stack: seq<Style>, events: seq<Event>): seq<Glyph> {
    if events == [] then []
    else
      Handed(stack, events[..|events| - 1])
      + Shown(OrAll(StackAfter(stack, events[..|events| - 1])), events[|events| - 1])
  }

  /** The text of all rows with its spaces, inserted hyphens left out. */
  function Flat(lines: seq<Row>): seq<Glyph> {
    if lines == [] then [] else Flat(lines[..|lines| - 1]) + Kept(lines[|lines| - 1])
  }

  /** `a` is `b` with nothing but spaces left out. */
  predicate Sub(a: seq<Glyph>, b: seq<Glyph>) {
    if b == [] then a == []
    else
      (a != [] && a[|a| - 1] == b[|b| - 1] && Sub(a[..|a| - 1], b[..|b| - 1]))
      || (Blank(b[|b| - 1]) && Sub(a, b[..|b| - 1]))
  }

  /** The glyphs that one event hands in: tabs are spaces already. */
  function Typed(s: State, style: Style, e: Event): seq<Glyph>
    requires s.lines != []
  {
    if !e.Char? then []
    else if e.rune.code == TAB then SpaceGlyphs(TabSpaces(s), style)
    else if Printable(e.rune) then [Glyph(e.rune, style)]
    else []
  }

  /** All glyphs that a run hands in, each in the style of its moment. */
  function Written(s: State, events: seq<Event>): seq<Glyph>
    requires BreakInLine(s)
  {
    if events == [] then []
    else
      var front := events[..|events| - 1];
      Written(s, front) + Typed(Run(s, front), OrAll(StackAfter(s.stack, front)), events[|events| - 1])
  }
}
