/** Where lines are broken, word by word: at the last space or soft hyphen that was recorded. */
module Hyphenation {
  import opened LineModel
  import opened LineTheorems
  import opened LineProcessor
  import opened GreedyWrap

  // ---------------------------------------------------------------- the specification

  /** Part of a word. */
  predicate IsPart(text: Text) {
    AllPrintable(text) && forall i :: 0 <= i < |text| ==> !Blank(text[i])
  }

  /** The last line begins at the indentation in force, stays within the limit, and has room for a
      double-width character. */
  predicate Roomy(s: State) {
    && Inv(s) && FitsInv(s) && s.lim >= 3 && s.indent + 2 <= s.lim && Head(s).indent == s.indent
  }

  function Above(s: State): seq<Row>
    requires s.lines != []
  {
    s.lines[..|s.lines| - 1]
  }

  /** Where the tail of the last line begins when the line is broken. */
  function TailOf(text: Text, b: Break): Text
    requires b.at + 1 <= |text|
  {
    DropSpaces(text[b.at + 1..])
  }

  predicate Overflows(s: State, part: Text)
    requires s.lines != []
  {
    Width(Head(s).cells) + Width(part) > Columns(s)
  }

  /** A part of a word that does not fit goes to new lines, with everything behind the place where the line
      may be broken. Without such a place the line is filled up. */
  function Laid(s: State, part: Text): State
    requires Roomy(s) && IsPart(part)
  {
    var text := Head(s).cells + part;
    if !Overflows(s, part) then s.(lines := Above(s) + [Row(text, false, s.indent)])
    else if s.end.None? then s.(lines := Above(s) + AsRows(Chop(text, Columns(s)), s.indent))
    else
      PartBehindBreak(s, part);
      var cut := CutRow(Row(text, false, s.indent), s.end.value);
      s.(lines := Above(s) + [cut] + AsRows(Chop(TailOf(text, s.end.value), Columns(s)), s.indent), end := None)
  }

  lemma {:induction false} PartBehindBreak(s: State, part: Text)
    requires Roomy(s) && IsPart(part) && Overflows(s, part) && s.end.Some?
    ensures Columns(s) >= 2 && s.end.value.at + 1 < |Head(s).cells + part|
    ensures AllPrintable(TailOf(Head(s).cells + part, s.end.value))
  {
    hide Width;
    NoWidth();
    var text := Head(s).cells + part;
    assert part != [];
    DropSpacesSuffix(text[s.end.value.at + 1..]);
  }

  // ---------------------------------------------------------------- one character more

  lemma {:induction false} WidthOfSnoc(text: Text, g: Glyph)
    ensures Width(text + [g]) == Width(text) + g.rune.width
  {
    WidthConcat(text, [g]);
    WidthOfOne(g);
  }

  /** Filling a new line and those behind it. */
  lemma {:induction false} RefillRows(s: State, text: Text)
    requires s.lines != [] && s.lim >= 3 && s.indent + 2 <= s.lim && AllPrintable(text) && text != []
    ensures Refill(Bump(s), text) == Bump(s).(lines := s.lines + AsRows(Chop(text, Columns(s)), s.indent))
  {
    hide Refill, Chop;
    var none: seq<Text> := [];
    assert Bump(s).lines == s.lines + AsRows(none + [[]], s.indent);
    RefillChops(Bump(s), s.lines, none, text);
    RefillContext(Bump(s), text);
    assert none + Chop(text, Columns(s)) == Chop(text, Columns(s));
  }

  lemma {:induction false} ExtendRows(s: State, above: seq<Row>, text: Text, g: Glyph)
    requires s.lim >= 3 && s.indent + 2 <= s.lim && AllPrintable(text) && text != [] && Printable(g.rune)
    requires s.lines == above + AsRows(Chop(text, s.lim - s.indent), s.indent)
    ensures s.lines != [] && AllPrintable(text + [g])
    ensures Extend(s, g) == s.(lines := above + AsRows(Chop(text + [g], Columns(s)), s.indent), end := Extend(s, g).end)
    ensures s.end.None? ==> Extend(s, g).end.None?
  {
    hide Chop, AsRows, Width;
    var none: seq<Text> := [];
    var pieces := Chop(text, Columns(s));
    PageExtend(s, above, pieces, g);
    ChopSnoc(text, g, Columns(s));
  }

  lemma {:induction false} PartOfPart(part: Text, g: Glyph)
    requires IsPart(part + [g])
    ensures IsPart(part) && Printable(g.rune) && !Blank(g)
  {
    assert forall i :: 0 <= i < |part| ==> (part + [g])[i] == part[i];
    assert (part + [g])[|part|] == g;
  }

  lemma {:induction false} RoomyFacts(s: State)
    requires Roomy(s)
    ensures s.lines != [] && BreakInLine(s) && Columns(s) >= 2 && !Head(s).hyphen && AllPrintable(Head(s).cells)
    ensures forall r: Rune :: Printable(r) ==> !Forced(s, r)
    ensures Width(Head(s).cells) <= Columns(s)
  {
    HeadHasNoHyphen(s);
    assert RowFits(s.lim, Head(s));
  }

  /** The part fits so far. */
  lemma {:induction false} SnocOntoLine(s: State, part: Text, g: Glyph)
    requires Roomy(s) && IsPart(part + [g]) && IsPart(part) && !Overflows(s, part)
    ensures BreakInLine(Laid(s, part)) && Put(Laid(s, part), g) == Laid(s, part + [g])
  {
    hide Inv, Width, Chop, Refill, DropSpaces, AsRows;
    RoomyFacts(s);
    PartOfPart(part, g);
    WidthOfSnoc(part, g);
    var cells := Head(s).cells;
    var u := Laid(s, part);
    WidthConcat(cells, part);
    WidthConcat(cells, part + [g]);
    assert u.lines == Above(s) + [Row(cells + part, false, s.indent)];
    assert Head(u) == Row(cells + part, false, s.indent) && Above(u) == Above(s);
    assert cells + (part + [g]) == cells + part + [g];
    var a := Append(u, g);
    assert a.lines == Above(s) + [Row(cells + (part + [g]), false, s.indent)];
    if !Overflows(s, part + [g]) {
    } else if s.end.None? {
      ChopOverflow(cells + part, g, Columns(s));
      assert Append(Bump(u), g).lines == Above(s) + [Row(cells + part, false, s.indent)] + [Row([] + [g], false, s.indent)];
      assert AsRows([cells + part] + [[g]], s.indent)
        == [Row(cells + part, false, s.indent)] + [Row([] + [g], false, s.indent)] by { TwoRows(cells + part, g, s.indent); }
    } else {
      SplitRows(a, part + [g], s);
    }
  }

  lemma {:induction false} TwoRows(text: Text, g: Glyph, indent: nat)
    ensures AsRows([text] + [[g]], indent) == [Row(text, false, indent)] + [Row([] + [g], false, indent)]
  {
    assert [] + [g] == [g];
  }

  lemma {:induction false} ChopOverflow(text: Text, g: Glyph, columns: nat)
    requires AllPrintable(text) && Printable(g.rune) && columns >= 2
    requires Width(text) <= columns < Width(text + [g])
    ensures AllPrintable(text + [g]) && Chop(text + [g], columns) == [text] + [[g]]
  {
    hide Chop;
    WidthOfSnoc(text, g);
    NoWidth();
    assert text != [];
    ChopSnoc(text, g, columns);
    ChopFitting(text, columns);
    assert [text][0] == text && SnocPiece([text], g, columns) == [text] + [[g]];
  }

  lemma {:induction false} ChopFitting(text: Text, columns: nat)
    requires AllPrintable(text) && Width(text) <= columns && columns >= 2
    ensures Chop(text, columns) == [text]
  {
  }

  /** Splitting an overfull line lays the part out. */
  lemma {:induction false} SplitRows(a: State, part: Text, s: State)
    requires Roomy(s) && IsPart(part) && Overflows(s, part) && s.end.Some?
    requires a == s.(lines := Above(s) + [Row(Head(s).cells + part, false, s.indent)])
    ensures BreakInLine(a) && a.end.value.at + 1 < |Head(a).cells| && Split(a) == Laid(s, part)
  {
    hide Inv, Width, Chop, Refill, DropSpaces, AsRows, CutRow;
    RoomyFacts(s);
    PartBehindBreak(s, part);
    var text, b := Head(s).cells + part, s.end.value;
    assert Head(a).cells == text;
    NoWidth();
    TailIsThere(text, b, part);
    assert CutHead(a).lines == Above(s) + [CutRow(Row(text, false, s.indent), b)];
    RefillRows(CutHead(a), TailOf(text, b));
  }

  lemma {:induction false} TailIsThere(text: Text, b: Break, part: Text)
    requires b.at + 1 < |text| && part != [] && !Blank(part[|part| - 1]) && text[|text| - 1] == part[|part| - 1]
    ensures TailOf(text, b) != []
  {
    var rest := text[b.at + 1..];
    DropSpacesSuffix(rest);
    assert rest[|rest| - 1] == text[|text| - 1] == part[|part| - 1];
  }

  /** The part is on new lines already. */
  lemma {:induction false} SnocOntoNewLines(s: State, part: Text, g: Glyph)
    requires Roomy(s) && IsPart(part + [g]) && IsPart(part) && Overflows(s, part)
    ensures BreakInLine(Laid(s, part)) && Put(Laid(s, part), g) == Laid(s, part + [g])
  {
    hide Inv, Width, Chop, Refill, DropSpaces, AsRows, CutRow;
    RoomyFacts(s);
    PartOfPart(part, g);
    WidthOfSnoc(part, g);
    NoWidth();
    var text, u := Head(s).cells + part, Laid(s, part);
    assert Head(s).cells + (part + [g]) == text + [g];
    if s.end.None? {
      PutExtends(u, Above(s), text, g);
    } else {
      var b := s.end.value;
      PartBehindBreak(s, part);
      PartBehindBreak(s, part + [g]);
      TailIsThere(text, b, part);
      TailSnoc(text, b, g);
      CutSnoc(Row(text, false, s.indent), b, g);
      PutExtends(u, Above(s) + [CutRow(Row(text, false, s.indent), b)], TailOf(text, b), g);
    }
  }

  lemma {:induction false} PutExtends(u: State, above: seq<Row>, text: Text, g: Glyph)
    requires u.lim >= 3 && u.indent + 2 <= u.lim && AllPrintable(text) && text != []
    requires Printable(g.rune) && !Blank(g) && u.end.None?
    requires u.lines == above + AsRows(Chop(text, u.lim - u.indent), u.indent)
    ensures AllPrintable(text + [g]) && BreakInLine(u)
    ensures Put(u, g) == u.(lines := above + AsRows(Chop(text + [g], Columns(u)), u.indent))
  {
    hide Width, Chop, AsRows;
    ExtendRows(u, above, text, g);
  }

  lemma {:induction false} TailSnoc(text: Text, b: Break, g: Glyph)
    requires b.at + 1 < |text| && TailOf(text, b) != []
    ensures TailOf(text + [g], b) == TailOf(text, b) + [g]
  {
    assert (text + [g])[b.at + 1..] == text[b.at + 1..] + [g];
    DropSnoc(text[b.at + 1..], g);
  }

  lemma {:induction false} DropSnoc(text: Text, g: Glyph)
    requires DropSpaces(text) != []
    ensures DropSpaces(text + [g]) == DropSpaces(text) + [g]
    decreases |text|
  {
    if text != [] && Blank(text[0]) {
      assert (text + [g])[1..] == text[1..] + [g];
      DropSnoc(text[1..], g);
    }
  }

  lemma {:induction false} CutSnoc(row: Row, b: Break, g: Glyph)
    requires b.at + 1 < |row.cells|
    ensures CutRow(row.(cells := row.cells + [g]), b) == CutRow(row, b)
  {
    assert (row.cells + [g])[..b.at + 1] == row.cells[..b.at + 1];
  }

  /** Character by character a part of a word is laid out as a whole. */
  lemma {:induction false} PartIsLaid(s: State, part: Text)
    requires Roomy(s) && IsPart(part)
    ensures BreakInLine(s) && PutAll(s, part) == Laid(s, part)
    decreases |part|
  {
    hide Roomy, Laid, Put, Overflows;
    RoomyFacts(s);
    if part == [] {
      NothingLaid(s);
    } else {
      var front, g := part[..|part| - 1], part[|part| - 1];
      assert part == front + [g];
      PartOfPart(front, g);
      PartIsLaid(s, front);
      if Overflows(s, front) {
        SnocOntoNewLines(s, front, g);
      } else {
        SnocOntoLine(s, front, g);
      }
    }
  }

  lemma {:induction false} NothingLaid(s: State)
    requires Roomy(s)
    ensures Laid(s, []) == s
  {
    hide Width, Inv;
    RoomyFacts(s);
    NoWidth();
    assert Head(s).cells + [] == Head(s).cells;
    assert Head(s) == Row(Head(s).cells, false, s.indent);
  }

  // ---------------------------------------------------------------- soft hyphens

  /** The line ends in a word and has a column free for a hyphen. */
  predicate TakesHyphen(s: State)
    requires s.lines != []
  {
    EndsWithWord(s) && Width(Head(s).cells) < Columns(s)
  }

  /** The rows when a soft hyphen and a part of a word have been written: if the part does not fit, the line
      gets a hyphen in the style of what follows, and the part goes to new lines; if it fits, there is no
      hyphen. */
  lemma {:induction false} SoftHyphenBreaks(s: State, part: Text)
    requires Roomy(s) && IsPart(part) && part != [] && TakesHyphen(s)
    ensures BreakInLine(s) && Columns(s) >= 2
    ensures PutAll(SoftHyphen(s), part).lines == Above(s) +
      if Overflows(s, part) then
        [Row(Head(s).cells + [Glyph(HYPHEN, part[0].style)], true, s.indent)] + AsRows(Chop(part, Columns(s)), s.indent)
      else [Row(Head(s).cells + part, false, s.indent)]
  {
    hide Inv, Width, Chop, AsRows, PutAll;
    RoomyFacts(s);
    var t, cells := SoftHyphen(s), Head(s).cells;
    SoftHyphenKeeps(s);
    PartIsLaid(t, part);
    if Overflows(s, part) {
      var b := t.end.value;
      assert b == Break(|cells| - 1, true);
      assert (cells + part)[..|cells|] == cells && (cells + part)[|cells|..] == part;
      assert DropSpaces(part) == part;
    }
  }

  /** A soft hyphen at the end of a full line is forgotten: without another place to break the line at, the
      word goes on in the next line without a hyphen. */
  lemma {:induction false} FullLineForgetsHyphen(s: State, part: Text)
    requires Roomy(s) && IsPart(part) && part != []
    requires Width(Head(s).cells) == Columns(s) && s.end.None?
    ensures BreakInLine(s) && Columns(s) >= 2
    ensures PutAll(SoftHyphen(s), part).lines == s.lines + AsRows(Chop(part, Columns(s)), s.indent)
  {
    hide Inv, FitsInv, Width, Chop, AsRows, PutAll;
    RoomyFacts(s);
    NoWidth();
    var cells := Head(s).cells;
    WidthAtLeastLength(part);
    assert SoftHyphen(s) == s;
    PartIsLaid(s, part);
    ChopFull(cells, part, Columns(s));
    assert s.lines == Above(s) + [Row(cells, false, s.indent)];
    AsRowsConcat([cells], Chop(part, Columns(s)), s.indent);
    assert AsRows([cells], s.indent) == [Row(cells, false, s.indent)] by { OneRow(cells, s.indent); }
  }

  lemma {:induction false} OneRow(text: Text, indent: nat)
    ensures AsRows([text], indent) == [Row(text, false, indent)]
  {
  }

  lemma {:induction false} ChopFull(text: Text, part: Text, columns: nat)
    requires AllPrintable(text) && AllPrintable(part) && part != [] && columns >= 2 && Width(text) == columns
    ensures AllPrintable(text + part) && Chop(text + part, columns) == [text] + Chop(part, columns)
    decreases |part|
  {
    hide Chop, Width;
    var front, g := part[..|part| - 1], part[|part| - 1];
    assert part == front + [g];
    WidthOfSnoc(text, g);
    if front == [] {
      assert text + part == text + [g];
      ChopOverflow(text, g, columns);
      WidthOfOne(g);
      ChopFitting([g], columns);
    } else {
      ChopFull(text, front, columns);
      assert text + part == text + front + [g];
      ChopSnoc(text + front, g, columns);
      ChopSnoc(front, g, columns);
      assert SnocPiece([text] + Chop(front, columns), g, columns) == [text] + SnocPiece(Chop(front, columns), g, columns);
    }
  }

  // ---------------------------------------------------------------- whole texts

  /** A text in its parts: pieces of words, and what stands between them. */
  datatype Token = Part(runes: seq<Rune>) | Space | SoftBreak | LineFeed

  predicate AreTokens(tokens: seq<Token>) {
    forall i :: 0 <= i < |tokens| && tokens[i].Part? ==> forall r <- tokens[i].runes :: Printable(r) && !IsSpace(r)
  }

  function TokenRunes(token: Token): seq<Rune> {
    match token
    case Part(runes) => runes
    case Space => [SPACE]
    case SoftBreak => [Rune(SOFT_HYPHEN, 1)]
    case LineFeed => [Rune(NEWLINE, -1)]
  }

  function TextRunes(tokens: seq<Token>): seq<Rune> {
    if tokens == [] then [] else TextRunes(tokens[..|tokens| - 1]) + TokenRunes(tokens[|tokens| - 1])
  }

  /** A space behind a word is a place to break the line at, and is left out where it does not fit. */
  function SpaceSet(s: State): State
    requires s.lines != []
  {
    var m := if EndsWithWord(s) then s.(end := Some(Break(|Head(s).cells| - 1, false))) else s;
    if Width(Head(s).cells) < Columns(s) then Append(m, Glyph(SPACE, s.style)) else m
  }

  function TokenSet(s: State, token: Token): State
    requires Roomy(s) && AreTokens([token])
  {
    match token
    case Part(runes) =>
      assert AreTokens([token]) && [token][0] == token;
      Laid(s, Styled(runes, s.style))
    case Space => SpaceSet(s)
    case SoftBreak => if TakesHyphen(s) then s.(end := Some(Break(|Head(s).cells| - 1, true))) else s
    case LineFeed => Bump(s)
  }

  lemma {:induction false} RefillHeadIndent(s: State, tail: Text)
    requires s.lines != [] && Head(s).indent == s.indent
    ensures Head(Refill(s, tail)).indent == s.indent == Refill(s, tail).indent
    decreases |tail|
  {
    hide Fits;
    if tail != [] { RefillHeadIndent(s, tail[..|tail| - 1]); }
  }

  lemma {:induction false} PutHeadIndent(s: State, g: Glyph)
    requires BreakInLine(s) && Head(s).indent == s.indent
    ensures Head(Put(s, g)).indent == s.indent
  {
    hide Refill, Width, Put, SplitTail;
    PutWhole(s, g);
    if PutSplits(s, g) {
      PutBreaks(s, g);
      var a := Append(s, g);
      RefillHeadIndent(Bump(CutHead(a)), SplitTail(a));
    }
  }

  lemma {:induction false} RoomForOne(s: State, g: Glyph)
    requires Roomy(s)
    ensures BreakInLine(s) && CanPut(s, g)
  {
  }

  lemma {:induction false} FeedKeepsRoom(s: State, r: Rune)
    requires Roomy(s) && r.code != TAB
    ensures BreakInLine(s) && Roomy(Feed(s, r)) && Feed(s, r).style == s.style
  {
    hide Put, Inv, FitsInv, CanPut;
    RoomyFacts(s);
    RoomForOne(s, Glyph(r, s.style));
    FeedKeeps(s, r);
    PutOne(s, Glyph(r, s.style));
    PutHeadIndent(s, Glyph(r, s.style));
  }

  lemma {:induction false} FeedAllKeepsRoom(s: State, runes: seq<Rune>)
    requires Roomy(s) && forall i :: 0 <= i < |runes| ==> runes[i].code != TAB
    ensures BreakInLine(s) && Roomy(FeedAll(s, runes)) && FeedAll(s, runes).style == s.style
    decreases |runes|
  {
    hide Roomy, Feed;
    RoomyFacts(s);
    if runes != [] {
      FeedAllKeepsRoom(s, runes[..|runes| - 1]);
      FeedKeepsRoom(FeedAll(s, runes[..|runes| - 1]), runes[|runes| - 1]);
    }
  }

  lemma {:induction false} FeedOne(s: State, r: Rune)
    requires BreakInLine(s)
    ensures FeedAll(s, [r]) == Feed(s, r)
  {
    assert [r][..0] == [];
  }

  lemma {:induction false} SpaceIsSet(s: State)
    requires Roomy(s)
    ensures BreakInLine(s) && Feed(s, SPACE) == SpaceSet(s)
  {
    hide Inv, FitsInv, Width;
    RoomyFacts(s);
    PutOne(s, Glyph(SPACE, s.style));
  }

  lemma {:induction false} TokenIsSet(s: State, token: Token)
    requires Roomy(s) && AreTokens([token])
    ensures BreakInLine(s) && FeedAll(s, TokenRunes(token)) == TokenSet(s, token)
    ensures Roomy(TokenSet(s, token)) && TokenSet(s, token).style == s.style
  {
    hide Roomy, Inv, Width, Laid, FeedAll, SpaceSet;
    assert [token][0] == token;
    RoomyFacts(s);
    assert token.Part? ==> forall i :: 0 <= i < |token.runes| ==> token.runes[i] in token.runes;
    FeedAllKeepsRoom(s, TokenRunes(token));
    match token
    case Part(runes) => RunesAreSet(s, runes);
    case Space => FeedOne(s, SPACE); SpaceIsSet(s);
    case SoftBreak => FeedOne(s, Rune(SOFT_HYPHEN, 1)); assert SizeSub(s.lim, Head(s).indent) == Columns(s) by { RoomyIndent(s); }
    case LineFeed => FeedOne(s, Rune(NEWLINE, -1));
  }

  lemma {:induction false} RoomyIndent(s: State)
    requires Roomy(s)
    ensures s.lines != [] && Head(s).indent == s.indent < s.lim
  {
  }

  lemma {:induction false} RunesAreSet(s: State, runes: seq<Rune>)
    requires Roomy(s) && forall r <- runes :: Printable(r) && !IsSpace(r)
    ensures BreakInLine(s) && IsPart(Styled(runes, s.style)) && FeedAll(s, runes) == Laid(s, Styled(runes, s.style))
  {
    hide Laid, PutAll, FeedAll;
    RoomyFacts(s);
    FeedPrintable(s, runes);
    PartIsLaid(s, Styled(runes, s.style));
  }

  /** The rows when a text is set part by part. */
  function TextSet(s: State, tokens: seq<Token>): (t: State)
    requires Roomy(s) && AreTokens(tokens)
    ensures Roomy(t)
    decreases |tokens|
  {
    if tokens == [] then s
    else
      var u := TextSet(s, tokens[..|tokens| - 1]);
      assert AreTokens([tokens[|tokens| - 1]]);
      TokenIsSet(u, tokens[|tokens| - 1]);
      TokenSet(u, tokens[|tokens| - 1])
  }

  /** The main theorem on breaking lines: a text written character by character comes out as it is set part
      by part, however the words are divided into parts. */
  lemma {:induction false} TextIsSet(s: State, tokens: seq<Token>)
    requires Roomy(s) && AreTokens(tokens)
    ensures BreakInLine(s) && FeedAll(s, TextRunes(tokens)) == TextSet(s, tokens)
    decreases |tokens|
  {
    hide Roomy, TokenSet, FeedAll;
    RoomyFacts(s);
    if tokens == [] {
      NothingFed(s);
    } else {
      var front, last := tokens[..|tokens| - 1], tokens[|tokens| - 1];
      TextIsSet(s, front);
      assert AreTokens([last]);
      TokenIsSet(TextSet(s, front), last);
      FeedAllConcat(s, TextRunes(front), TokenRunes(last));
    }
  }

  lemma {:induction false} NothingFed(s: State)
    requires BreakInLine(s)
    ensures FeedAll(s, []) == s
  {
  }

  /** It begins with an empty page. */
  lemma {:induction false} StartIsRoomy(lim: nat, indent: nat)
    requires lim >= 3 && indent + 2 <= lim
    ensures Roomy(Start(lim, indent))
  {
    StartInv(lim, indent);
  }
}
