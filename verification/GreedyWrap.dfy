/** Character-by-character wrapping computes greedy word wrap. */
module GreedyWrap {
  import opened LineModel
  import opened LineTheorems

  type Text = seq<Glyph>

  // ---------------------------------------------------------------- the specification

  predicate IsWord(word: Text) {
    word != [] && AllPrintable(word) && forall i :: 0 <= i < |word| ==> !Blank(word[i])
  }

  /** How many glyphs of the text fit into `columns`, counted from its start. */
  function Prefix(word: Text, columns: nat): (n: nat)
    ensures n <= |word|
    ensures word != [] && AllPrintable(word) && columns >= 2 ==> n >= 1
  {
    if word == [] then 0
    else if Width(word) <= columns then |word|
    else if |word| == 1 then assert Width(word) == Width([]) + word[0].rune.width; 0
    else Prefix(word[..|word| - 1], columns)
  }

  /** An over-wide word is cut at the limit, every piece as long as possible. */
  function Chop(word: Text, columns: nat): (lines: seq<Text>)
    requires AllPrintable(word) && columns >= 2
    ensures lines != []
    decreases |word|
  {
    if Width(word) <= columns then [word]
    else
      var n := Prefix(word, columns);
      [word[..n]] + Chop(word[n..], columns)
  }

  /** A word and the space that stands before it. */
  datatype Spaced = Spaced(space: Glyph, word: Text)

  predicate AreWords(words: seq<Spaced>) {
    forall i :: 0 <= i < |words| ==> words[i].space.rune == SPACE && IsWord(words[i].word)
  }

  function AddWord(lines: seq<Text>, next: Spaced, columns: nat): (r: seq<Text>)
    requires columns >= 2 && lines != [] && IsWord(next.word)
    ensures r != []
  {
    var current := lines[|lines| - 1];
    if Width(current) + 1 + Width(next.word) <= columns then
      lines[|lines| - 1 := current + [next.space] + next.word]
    else
      lines + Chop(next.word, columns)
  }

  /** Greedy word wrap: a word joins the current line if it fits behind a space, otherwise it opens
      a new line. */
  function Greedy(first: Text, words: seq<Spaced>, columns: nat): (lines: seq<Text>)
    requires columns >= 2 && IsWord(first) && AreWords(words)
    ensures lines != []
  {
    if words == [] then Chop(first, columns)
    else AddWord(Greedy(first, words[..|words| - 1], columns), words[|words| - 1], columns)
  }

  /** The text as it is handed to the line processor. */
  function Joined(first: Text, words: seq<Spaced>): Text {
    if words == [] then first
    else Joined(first, words[..|words| - 1]) + ([words[|words| - 1].space] + words[|words| - 1].word)
  }

  // ---------------------------------------------------------------- chopping glyph by glyph

  lemma {:induction false} PrefixSnoc(word: Text, g: Glyph, columns: nat)
    requires AllPrintable(word) && word != [] && Printable(g.rune) && columns >= 2
    requires Width(word + [g]) > columns
    ensures Prefix(word + [g], columns) == Prefix(word, columns)
  {
    assert (word + [g])[..|word + [g]| - 1] == word;
  }

  /** The pieces of a word with one more glyph: it goes to the last piece if it fits there and opens
      another piece otherwise. */
  function SnocPiece(pieces: seq<Text>, g: Glyph, columns: int): seq<Text>
    requires pieces != []
  {
    var last := pieces[|pieces| - 1];
    if Width(last) + g.rune.width <= columns then pieces[|pieces| - 1 := last + [g]] else pieces + [[g]]
  }

  lemma {:induction false} ChopSnoc(word: Text, g: Glyph, columns: nat)
    requires AllPrintable(word) && word != [] && Printable(g.rune) && columns >= 2
    ensures AllPrintable(word + [g])
    ensures Chop(word + [g], columns) == SnocPiece(Chop(word, columns), g, columns)
    decreases |word|
  {
    hide Prefix;
    WidthConcat(word, [g]);
    assert Width([g]) == g.rune.width by { assert [g][..0] == []; }
    if Width(word + [g]) > columns {
      PrefixSnoc(word, g, columns);
      if Width(word) <= columns {
        PrefixOfFitting(word, columns);
        assert (word + [g])[..|word|] == word && (word + [g])[|word|..] == [g];
      } else {
        PrefixStopsShort(word, columns);
        ChopSnoc(word[Prefix(word, columns)..], g, columns);
        ChopSnocLater(word, g, columns);
      }
    }
  }

  lemma {:induction false} ChopSnocLater(word: Text, g: Glyph, columns: nat)
    requires AllPrintable(word) && word != [] && Printable(g.rune) && columns >= 2
    requires Width(word) > columns && Width(word + [g]) > columns
    requires Prefix(word + [g], columns) == Prefix(word, columns) < |word|
    requires AllPrintable(word + [g]) && AllPrintable(word[Prefix(word, columns)..] + [g])
    requires var rest := word[Prefix(word, columns)..];
      Chop(rest + [g], columns) == SnocPiece(Chop(rest, columns), g, columns)
    ensures Chop(word + [g], columns) == SnocPiece(Chop(word, columns), g, columns)
  {
    hide Prefix, Width;
    var n := Prefix(word, columns);
    assert (word + [g])[..n] == word[..n] && (word + [g])[n..] == word[n..] + [g];
    var pieces := Chop(word[n..], columns);
    assert Chop(word, columns) == [word[..n]] + pieces;
    assert SnocPiece([word[..n]] + pieces, g, columns) == [word[..n]] + SnocPiece(pieces, g, columns);
  }

  lemma {:induction false} PrefixOfFitting(word: Text, columns: nat)
    requires Width(word) <= columns
    ensures Prefix(word, columns) == |word|
  {
  }

  lemma {:induction false} PrefixStopsShort(word: Text, columns: nat)
    requires Width(word) > columns
    ensures Prefix(word, columns) < |word|
  {
  }

  /** Chopping keeps the text: the pieces put together are the word, and the last one ends as it does. */
  lemma {:induction false} ChopLast(word: Text, columns: nat)
    requires AllPrintable(word) && word != [] && columns >= 2
    ensures var c := Chop(word, columns); var last := c[|c| - 1];
      last != [] && last[|last| - 1] == word[|word| - 1]
    decreases |word|
  {
    if Width(word) > columns {
      PrefixStopsShort(word, columns);
      ChopLast(word[Prefix(word, columns)..], columns);
    }
  }

  // ---------------------------------------------------------------- the processor's page

  function AsRows(texts: seq<Text>, indent: nat): (rows: seq<Row>)
    ensures |rows| == |texts|
    ensures forall i :: 0 <= i < |texts| ==> rows[i] == Row(texts[i], false, indent)
  {
    seq(|texts|, i requires 0 <= i < |texts| => Row(texts[i], false, indent))
  }

  function Columns(s: State): int {
    s.lim - s.indent
  }

  /** The lines after `pre` are `texts`, and lines can hold a double-width character. */
  predicate Page(s: State, pre: seq<Row>, texts: seq<Text>) {
    && s.lim >= 3 && s.indent + 2 <= s.lim
    && texts != []
    && s.lines == pre + AsRows(texts, s.indent)
  }

  function Last(texts: seq<Text>): Text
    requires texts != []
  {
    texts[|texts| - 1]
  }

  lemma {:induction false} PageHead(s: State, pre: seq<Row>, texts: seq<Text>)
    requires Page(s, pre, texts)
    ensures texts != [] && Columns(s) >= 2
    ensures s.lines != [] && Head(s) == Row(Last(texts), false, s.indent)
  {
  }

  lemma {:induction false} PageRewrite(s: State, pre: seq<Row>, texts: seq<Text>, text: Text)
    requires Page(s, pre, texts)
    ensures s.lines != []
    ensures Page(s.(lines := s.lines[|s.lines| - 1 := Row(text, false, s.indent)]), pre, texts[|texts| - 1 := text])
  {
    var t := texts[|texts| - 1 := text];
    assert s.lines[|s.lines| - 1 := Row(text, false, s.indent)] == pre + AsRows(t, s.indent);
  }

  lemma {:induction false} PageAppend(s: State, pre: seq<Row>, texts: seq<Text>, g: Glyph)
    requires Page(s, pre, texts)
    ensures Page(Append(s, g), pre, texts[|texts| - 1 := Last(texts) + [g]])
  {
    PageHead(s, pre, texts);
    PageRewrite(s, pre, texts, Last(texts) + [g]);
  }

  lemma {:induction false} PageBump(s: State, pre: seq<Row>, texts: seq<Text>)
    requires Page(s, pre, texts)
    ensures Page(Bump(s), pre, texts + [[]])
  {
    assert Bump(s).lines == pre + AsRows(texts + [[]], s.indent);
  }

  lemma {:induction false} PageExtend(s: State, pre: seq<Row>, texts: seq<Text>, g: Glyph)
    requires Page(s, pre, texts) && Printable(g.rune)
    ensures texts != [] && s.lines != [] && Page(Extend(s, g), pre, SnocPiece(texts, g, Columns(s)))
    ensures (Extend(s, g).lim, Extend(s, g).indent) == (s.lim, s.indent)
  {
    PageHead(s, pre, texts);
    if Width(Last(texts)) + g.rune.width <= Columns(s) {
      PageAppend(s, pre, texts, g);
    } else {
      PageBump(s, pre, texts);
      PageAppend(Bump(s), pre, texts + [[]], g);
      assert Last(texts + [[]]) + [g] == [g];
      assert (texts + [[]])[|texts| := [g]] == texts + [[g]];
    }
  }

  /** Filling fresh lines with a text chops it. */
  lemma {:induction false} RefillChops(s: State, pre: seq<Row>, texts: seq<Text>, word: Text)
    requires Page(s, pre, texts + [[]]) && AllPrintable(word) && word != []
    ensures s.lines != [] && Page(Refill(s, word), pre, texts + Chop(word, Columns(s)))
    ensures (Refill(s, word).lim, Refill(s, word).indent) == (s.lim, s.indent)
    decreases |word|
  {
    hide Chop, Page, Extend, AsRows;
    PageHead(s, pre, texts + [[]]);
    var front, g := word[..|word| - 1], word[|word| - 1];
    assert word == front + [g];
    if front == [] {
      PageExtend(s, pre, texts + [[]], g);
      FirstPiece(texts, g, Columns(s));
    } else {
      RefillChops(s, pre, texts, front);
      PageExtend(Refill(s, front), pre, texts + Chop(front, Columns(s)), g);
      NextPiece(texts, front, g, Columns(s));
    }
  }

  lemma {:induction false} FirstPiece(texts: seq<Text>, g: Glyph, columns: nat)
    requires Printable(g.rune) && columns >= 2
    ensures SnocPiece(texts + [[]], g, columns) == texts + Chop([g], columns)
  {
    assert Width([g]) == Width([]) + g.rune.width;
    assert Last(texts + [[]]) + [g] == [g];
  }

  lemma {:induction false} NextPiece(texts: seq<Text>, part: Text, g: Glyph, columns: nat)
    requires AllPrintable(part) && part != [] && Printable(g.rune) && columns >= 2
    ensures AllPrintable(part + [g])
    ensures SnocPiece(texts + Chop(part, columns), g, columns) == texts + Chop(part + [g], columns)
  {
    ChopSnoc(part, g, columns);
    var c := Chop(part, columns);
    assert Last(texts + c) == Last(c);
    assert SnocPiece(texts + c, g, columns) == texts + SnocPiece(c, g, columns);
  }

  /** While no break is recorded, writing a word never splits. */
  lemma {:induction false} PutAllIsRefill(s: State, word: Text)
    requires s.lines != [] && s.end.None?
    requires forall i :: 0 <= i < |word| ==> !Blank(word[i])
    ensures PutAll(s, word) == Refill(s, word)
  {
    if word != [] {
      PutAllIsRefill(s, word[..|word| - 1]);
      assert !Blank(word[|word| - 1]);
    }
  }

  // ---------------------------------------------------------------- the theorem

  /** The page after a space and the start `part` of the next word have been written. */
  predicate Writing(t: State, pre: seq<Row>, texts: seq<Text>, space: Glyph, part: Text)
    requires texts != [] && Last(texts) != [] && AllPrintable(part) && Columns(t) >= 2
  {
    var current, columns := Last(texts), Columns(t);
    if Width(current) + 1 + Width(part) <= columns then
      Page(t, pre, texts[|texts| - 1 := current + [space] + part]) && t.end == Some(Break(|current| - 1, false))
    else if part == [] then
      Page(t, pre, texts) && t.end == Some(Break(|current| - 1, false))
    else
      Page(t, pre, texts + Chop(part, columns)) && t.end.None?
  }

  predicate EndsInWord(text: Text) {
    text != [] && !Blank(text[|text| - 1])
  }

  lemma {:induction false} SpaceAfterWord(s: State, pre: seq<Row>, texts: seq<Text>, space: Glyph)
    requires Page(s, pre, texts) && EndsInWord(Last(texts)) && space.rune == SPACE
    requires BreakInLine(s)
    ensures Columns(Put(s, space)) == Columns(s) && Writing(Put(s, space), pre, texts, space, [])
  {
    PageHead(s, pre, texts);
    var m := MarkBreak(s, SPACE);
    if Fits(m, SPACE) {
      PageAppend(m, pre, texts, space);
      assert Last(texts) + [space] + [] == Last(texts) + [space];
    }
  }

  lemma {:induction false} LetterAfterSpace(t: State, pre: seq<Row>, texts: seq<Text>, space: Glyph, part: Text, g: Glyph)
    requires texts != [] && Last(texts) != [] && AllPrintable(part) && Columns(t) >= 2
    requires Writing(t, pre, texts, space, part)
    requires EndsInWord(Last(texts)) && space.rune == SPACE
    requires Printable(g.rune) && !Blank(g) && forall i :: 0 <= i < |part| ==> !Blank(part[i])
    requires BreakInLine(t)
    ensures AllPrintable(part + [g]) && Columns(Put(t, g)) == Columns(t)
    ensures Writing(Put(t, g), pre, texts, space, part + [g])
  {
    hide AsRows, Refill;
    var current, columns := Last(texts), Columns(t);
    WidthConcat(part, [g]);
    assert Width([g]) == Width([]) + g.rune.width;
    if Width(current) + 1 + Width(part) <= columns {
      LetterBehindSpace(t, pre, texts, space, part, g);
    } else if part == [] {
      PageHead(t, pre, texts);
      var a := Append(t, g);
      PageAppend(t, pre, texts, g);
      assert (current + [g])[..|current|] == current && (current + [g])[|current|..] == [g];
      SplitOntoNewLine(a, pre, texts, current, [g]);
      assert part + [g] == [g];
    } else {
      PageHead(t, pre, texts + Chop(part, columns));
      PageExtend(t, pre, texts + Chop(part, columns), g);
      NextPiece(texts, part, g, columns);
      assert Put(t, g) == Extend(t, g);
    }
  }

  lemma {:induction false} LetterBehindSpace(t: State, pre: seq<Row>, texts: seq<Text>, space: Glyph, part: Text, g: Glyph)
    requires texts != [] && Last(texts) != [] && AllPrintable(part) && Columns(t) >= 2
    requires Writing(t, pre, texts, space, part)
    requires EndsInWord(Last(texts)) && space.rune == SPACE
    requires Printable(g.rune) && !Blank(g) && forall i :: 0 <= i < |part| ==> !Blank(part[i])
    requires BreakInLine(t)
    requires Width(Last(texts)) + 1 + Width(part) <= Columns(t)
    requires Width(part + [g]) == Width(part) + g.rune.width
    ensures AllPrintable(part + [g]) && Columns(Put(t, g)) == Columns(t)
    ensures Writing(Put(t, g), pre, texts, space, part + [g])
  {
    hide Chop, AsRows, Refill, DropSpaces;
    var current := Last(texts);
    var line := current + [space] + part;
    var page := texts[|texts| - 1 := line];
    PageHead(t, pre, page);
    WidthConcat(current, [space]);
    WidthConcat(current + [space], part);
    assert Width([space]) == Width([]) + 1;
    assert line + [g] == current + [space] + (part + [g]);
    PageAppend(t, pre, page, g);
    assert page[|texts| - 1 := line + [g]] == texts[|texts| - 1 := line + [g]];
    if !Fits(t, g.rune) {
      assert (line + [g])[..|current|] == current;
      assert (line + [g])[|current|..] == [space] + (part + [g]);
      DropOneSpace(space, part + [g]);
      SplitOntoNewLine(Append(t, g), pre, texts, current, part + [g]);
    }
  }

  lemma {:induction false} DropOneSpace(space: Glyph, rest: Text)
    requires Blank(space) && rest != [] && !Blank(rest[0])
    ensures DropSpaces([space] + rest) == rest
  {
    assert ([space] + rest)[1..] == rest;
    assert DropSpaces(rest) == rest;
  }

  /** Splitting behind `current` gives it back as a finished line and chops the rest onto new ones. */
  lemma {:induction false} SplitOntoNewLine(a: State, pre: seq<Row>, texts: seq<Text>, current: Text, rest: Text)
    requires texts != [] && current == Last(texts) && current != []
    requires a.lines != [] && a.end == Some(Break(|current| - 1, false))
    requires |Head(a).cells| > |current|
    requires Page(a, pre, texts[|texts| - 1 := Head(a).cells])
    requires Head(a).cells[..|current|] == current && DropSpaces(Head(a).cells[|current|..]) == rest
    requires rest != [] && AllPrintable(rest)
    ensures Page(Split(a), pre, texts + Chop(rest, Columns(a)))
    ensures Split(a).end.None? && Columns(Split(a)) == Columns(a)
  {
    hide Refill, Chop, DropSpaces, AsRows, Width;
    var over := texts[|texts| - 1 := Head(a).cells];
    PageHead(a, pre, over);
    PageRewrite(a, pre, over, current);
    assert over[|texts| - 1 := current] == texts;
    assert CutRow(Head(a), a.end.value) == Row(current, false, a.indent);
    PageBump(CutHead(a), pre, texts);
    RefillChops(Bump(CutHead(a)), pre, texts, rest);
  }

  lemma {:induction false} WordAfterSpace(s: State, pre: seq<Row>, texts: seq<Text>, space: Glyph, part: Text)
    requires Page(s, pre, texts) && EndsInWord(Last(texts)) && space.rune == SPACE && BreakInLine(s)
    requires AllPrintable(part) && forall i :: 0 <= i < |part| ==> !Blank(part[i])
    ensures Columns(PutAll(Put(s, space), part)) == Columns(s)
    ensures Writing(PutAll(Put(s, space), part), pre, texts, space, part)
  {
    hide Put, Writing, Page, Width;
    PageHead(s, pre, texts);
    if part == [] {
      SpaceAfterWord(s, pre, texts, space);
    } else {
      var front, g := part[..|part| - 1], part[|part| - 1];
      WordAfterSpace(s, pre, texts, space, front);
      assert !Blank(g) && Printable(g.rune);
      LetterAfterSpace(PutAll(Put(s, space), front), pre, texts, space, front, g);
      assert part == front + [g];
    }
  }

  lemma {:induction false} PutAllConcat(s: State, a: Text, b: Text)
    requires BreakInLine(s)
    ensures PutAll(s, a + b) == PutAll(PutAll(s, a), b)
  {
    if b == [] {
      assert a + b == a;
    } else {
      assert (a + b)[..|a + b| - 1] == a + b[..|b| - 1];
      PutAllConcat(s, a, b[..|b| - 1]);
    }
  }

  lemma {:induction false} AddWordEndsInWord(lines: seq<Text>, next: Spaced, columns: nat)
    requires columns >= 2 && lines != [] && IsWord(next.word)
    ensures EndsInWord(Last(AddWord(lines, next, columns)))
  {
    var word := next.word;
    ChopLast(word, columns);
    assert !Blank(word[|word| - 1]);
    var joined := Last(lines) + [next.space] + word;
    assert joined[|joined| - 1] == word[|word| - 1];
    var c := Chop(word, columns);
    assert Last(lines + c) == Last(c);
  }

  lemma {:induction false} GreedyEndsInWord(first: Text, words: seq<Spaced>, columns: nat)
    requires columns >= 2 && IsWord(first) && AreWords(words)
    ensures EndsInWord(Last(Greedy(first, words, columns)))
  {
    hide Chop, AddWord;
    if words == [] {
      ChopLast(first, columns);
    } else {
      assert IsWord(words[|words| - 1].word);
      AddWordEndsInWord(Greedy(first, words[..|words| - 1], columns), words[|words| - 1], columns);
    }
  }

  /** Words separated by single spaces, written to an empty line, come out as greedy word wrap
      arranges them. `pre` is whatever stands above. */
  lemma {:induction false} WrapIsGreedy(s: State, pre: seq<Row>, first: Text, words: seq<Spaced>)
    requires Page(s, pre, [[]]) && s.end.None?
    requires IsWord(first) && AreWords(words)
    ensures BreakInLine(s) && Columns(PutAll(s, Joined(first, words))) == Columns(s)
    ensures Page(PutAll(s, Joined(first, words)), pre, Greedy(first, words, Columns(s)))
  {
    PageHead(s, pre, [[]]);
    if words == [] {
      PutAllIsRefill(s, first);
      var none: seq<Text> := [];
      assert none + [[]] == [[]];
      RefillChops(s, pre, none, first);
      assert none + Chop(first, Columns(s)) == Chop(first, Columns(s));
    } else {
      var front, next := words[..|words| - 1], words[|words| - 1];
      WrapIsGreedy(s, pre, first, front);
      var u, lines := PutAll(s, Joined(first, front)), Greedy(first, front, Columns(s));
      GreedyEndsInWord(first, front, Columns(s));
      assert next.space.rune == SPACE && IsWord(next.word);
      WordAfterSpace(u, pre, lines, next.space, next.word);
      PutAllConcat(s, Joined(first, front), [next.space] + next.word);
      PutAllConcat(u, [next.space], next.word);
      PutOne(u, next.space);
    }
  }

  // ---------------------------------------------------------------- plain text

  /** A paragraph of a plain text: an empty line, or words with single spaces between them. */
  datatype Paragraph = EmptyLine | Words(first: seq<Rune>, rest: seq<seq<Rune>>)

  predicate IsRuneWord(word: seq<Rune>) {
    word != [] && forall i :: 0 <= i < |word| ==> Printable(word[i]) && !IsSpace(word[i])
  }

  predicate IsParagraph(p: Paragraph) {
    p.Words? ==> IsRuneWord(p.first) && forall i :: 0 <= i < |p.rest| ==> IsRuneWord(p.rest[i])
  }

  predicate AreParagraphs(ps: seq<Paragraph>) {
    forall i :: 0 <= i < |ps| ==> IsParagraph(ps[i])
  }

  function RunesOf(first: seq<Rune>, rest: seq<seq<Rune>>): seq<Rune> {
    if rest == [] then first else RunesOf(first, rest[..|rest| - 1]) + ([SPACE] + rest[|rest| - 1])
  }

  function ParagraphRunes(p: Paragraph): seq<Rune> {
    if p.EmptyLine? then [] else RunesOf(p.first, p.rest)
  }

  /** The characters of a text whose paragraphs are separated by line feeds. */
  function Document(ps: seq<Paragraph>): seq<Rune>
    requires ps != []
  {
    if |ps| == 1 then ParagraphRunes(ps[0])
    else Document(ps[..|ps| - 1]) + ([Rune(NEWLINE, -1)] + ParagraphRunes(ps[|ps| - 1]))
  }

  function Styled(runes: seq<Rune>, style: Style): (text: Text)
    ensures |text| == |runes| && forall i :: 0 <= i < |runes| ==> text[i] == Glyph(runes[i], style)
  {
    seq(|runes|, i requires 0 <= i < |runes| => Glyph(runes[i], style))
  }

  function StyledWords(rest: seq<seq<Rune>>, style: Style): (words: seq<Spaced>)
    ensures |words| == |rest|
    ensures forall i :: 0 <= i < |rest| ==> words[i] == Spaced(Glyph(SPACE, style), Styled(rest[i], style))
  {
    seq(|rest|, i requires 0 <= i < |rest| => Spaced(Glyph(SPACE, style), Styled(rest[i], style)))
  }

  /** Greedy word wrap of every paragraph on its own. */
  function GreedyParagraph(p: Paragraph, columns: nat, style: Style): (lines: seq<Text>)
    requires IsParagraph(p) && columns >= 2
    ensures lines != []
  {
    if p.EmptyLine? then [[]] else
      assert IsWord(Styled(p.first, style)) && AreWords(StyledWords(p.rest, style));
      Greedy(Styled(p.first, style), StyledWords(p.rest, style), columns)
  }

  function GreedyDocument(ps: seq<Paragraph>, columns: nat, style: Style): seq<Text>
    requires AreParagraphs(ps) && columns >= 2
  {
    if ps == [] then []
    else GreedyDocument(ps[..|ps| - 1], columns, style) + GreedyParagraph(ps[|ps| - 1], columns, style)
  }

  lemma {:induction false} JoinedIsStyled(first: seq<Rune>, rest: seq<seq<Rune>>, style: Style)
    ensures Joined(Styled(first, style), StyledWords(rest, style)) == Styled(RunesOf(first, rest), style)
  {
    if rest != [] {
      var front := rest[..|rest| - 1];
      JoinedIsStyled(first, front, style);
      assert StyledWords(rest, style)[..|rest| - 1] == StyledWords(front, style);
    }
  }

  lemma {:induction false} RunesArePrintable(first: seq<Rune>, rest: seq<seq<Rune>>)
    requires IsRuneWord(first) && forall i :: 0 <= i < |rest| ==> IsRuneWord(rest[i])
    ensures forall i :: 0 <= i < |RunesOf(first, rest)| ==> Printable(RunesOf(first, rest)[i])
  {
    if rest != [] {
      RunesArePrintable(first, rest[..|rest| - 1]);
      assert IsRuneWord(rest[|rest| - 1]);
    }
  }

  lemma {:induction false} FeedAllConcat(s: State, a: seq<Rune>, b: seq<Rune>)
    requires BreakInLine(s)
    ensures FeedAll(s, a + b) == FeedAll(FeedAll(s, a), b)
  {
    if b == [] {
      assert a + b == a;
    } else {
      assert (a + b)[..|a + b| - 1] == a + b[..|b| - 1];
      FeedAllConcat(s, a, b[..|b| - 1]);
    }
  }

  lemma {:induction false} FeedPrintable(s: State, runes: seq<Rune>)
    requires Inv(s) && !OneColumn(s.lim, s.indent)
    requires forall i :: 0 <= i < |runes| ==> Printable(runes[i])
    ensures FeedAll(s, runes) == PutAll(s, Styled(runes, s.style))
    ensures Inv(FeedAll(s, runes)) && FeedAll(s, runes).style == s.style
    ensures (FeedAll(s, runes).lim, FeedAll(s, runes).indent) == (s.lim, s.indent)
  {
    if runes != [] {
      var front, r := runes[..|runes| - 1], runes[|runes| - 1];
      FeedPrintable(s, front);
      assert Styled(runes, s.style)[..|runes| - 1] == Styled(front, s.style);
      var u := FeedAll(s, front);
      PutOne(u, Glyph(r, u.style));
      FeedKeeps(u, r);
    }
  }

  lemma {:induction false} WordsAreGreedy(s: State, pre: seq<Row>, first: seq<Rune>, rest: seq<seq<Rune>>)
    requires Inv(s) && Page(s, pre, [[]]) && s.end.None? && IsParagraph(Words(first, rest))
    ensures Inv(FeedAll(s, RunesOf(first, rest))) && FeedAll(s, RunesOf(first, rest)).style == s.style
    ensures (FeedAll(s, RunesOf(first, rest)).lim, FeedAll(s, RunesOf(first, rest)).indent) == (s.lim, s.indent)
    ensures Columns(s) >= 2
    ensures Page(FeedAll(s, RunesOf(first, rest)), pre, GreedyParagraph(Words(first, rest), Columns(s), s.style))
  {
    hide FeedAll, PutAll, Greedy, RunesOf, Joined, StyledWords, Styled, Inv;
    RunesArePrintable(first, rest);
    FeedPrintable(s, RunesOf(first, rest));
    JoinedIsStyled(first, rest, s.style);
    StyledAreWords(first, rest, s.style);
    WrapIsGreedy(s, pre, Styled(first, s.style), StyledWords(rest, s.style));
  }

  lemma {:induction false} StyledAreWords(first: seq<Rune>, rest: seq<seq<Rune>>, style: Style)
    requires IsParagraph(Words(first, rest))
    ensures IsWord(Styled(first, style)) && AreWords(StyledWords(rest, style))
  {
  }

  lemma {:induction false} ParagraphIsGreedy(s: State, pre: seq<Row>, p: Paragraph)
    requires Inv(s) && Page(s, pre, [[]]) && s.end.None? && IsParagraph(p)
    ensures Columns(s) >= 2
    ensures var t := FeedAll(s, ParagraphRunes(p));
      && Inv(t) && t.style == s.style && (t.lim, t.indent) == (s.lim, s.indent)
      && Page(t, pre, GreedyParagraph(p, Columns(s), s.style))
  {
    hide Feed, GreedyParagraph, RunesOf, Inv;
    PageHead(s, pre, [[]]);
    match p
    case EmptyLine => EmptyParagraph(Columns(s), s.style);
    case Words(first, rest) => WordsAreGreedy(s, pre, first, rest);
  }

  lemma {:induction false} EmptyParagraph(columns: nat, style: Style)
    requires columns >= 2
    ensures GreedyParagraph(EmptyLine, columns, style) == [[]]
  {
  }

  /** The whole text: every paragraph of a document, fed character by character onto an empty page,
      comes out greedily wrapped, in order, and nothing else does. */
  lemma {:induction false} DocumentIsGreedy(lim: nat, indent: nat, ps: seq<Paragraph>)
    requires lim >= 3 && indent + 2 <= lim && ps != [] && AreParagraphs(ps)
    ensures BreakInLine(Start(lim, indent))
    ensures var t := FeedAll(Start(lim, indent), Document(ps));
      && Inv(t) && t.style == 0 && (t.lim, t.indent) == (lim, indent)
      && Page(t, [], GreedyDocument(ps, lim - indent, 0))
      && t.lines == AsRows(GreedyDocument(ps, lim - indent, 0), indent)
  {
    hide FeedAll, Feed, GreedyParagraph, ParagraphRunes, IsParagraph, Inv;
    var s := Start(lim, indent);
    StartInv(lim, indent);
    InvBreak(s);
    var front, last := ps[..|ps| - 1], ps[|ps| - 1];
    assert IsParagraph(last);
    if |ps| == 1 {
      assert s.lines == [] + AsRows([[]], indent);
      ParagraphIsGreedy(s, [], last);
      assert front == [];
      assert GreedyDocument(ps, lim - indent, 0) == GreedyParagraph(last, lim - indent, 0);
    } else {
      DocumentIsGreedy(lim, indent, front);
      FeedAllConcat(s, Document(front), [Rune(NEWLINE, -1)] + ParagraphRunes(last));
      NextParagraph(FeedAll(s, Document(front)), GreedyDocument(front, lim - indent, 0), last);
    }
  }

  lemma {:induction false} NextParagraph(u: State, above: seq<Text>, p: Paragraph)
    requires Inv(u) && u.lines == AsRows(above, u.indent) && u.lim >= 3 && u.indent + 2 <= u.lim
    requires IsParagraph(p)
    ensures var t := FeedAll(u, [Rune(NEWLINE, -1)] + ParagraphRunes(p));
      && Inv(t) && t.style == u.style && (t.lim, t.indent) == (u.lim, u.indent)
      && Page(t, [], above + GreedyParagraph(p, Columns(u), u.style))
  {
    hide FeedAll, Feed, GreedyParagraph, ParagraphRunes, Inv, IsParagraph;
    InvBreak(u);
    var t := FeedAll(Bump(u), ParagraphRunes(p));
    assert FeedAll(u, [Rune(NEWLINE, -1)] + ParagraphRunes(p)) == t by {
      FeedNewline(u, ParagraphRunes(p));
    }
    BumpInv(u);
    var below := GreedyParagraph(p, Columns(u), u.style);
    assert Bump(u).lines == AsRows(above, u.indent) + AsRows([[]], u.indent);
    ParagraphIsGreedy(Bump(u), AsRows(above, u.indent), p);
    assert t.lines == AsRows(above, u.indent) + AsRows(below, u.indent);
    assert Page(t, [], above + below) by {
      AsRowsConcat(above, below, u.indent);
    }
  }

  lemma {:induction false} FeedNewline(u: State, text: seq<Rune>)
    requires BreakInLine(u)
    ensures FeedAll(u, [Rune(NEWLINE, -1)] + text) == FeedAll(Bump(u), text)
  {
    var feed: seq<Rune> := [Rune(NEWLINE, -1)];
    FeedAllConcat(u, feed, text);
    assert feed[..0] == [];
    assert FeedAll(u, feed) == Feed(u, feed[0]);
  }

  lemma {:induction false} AsRowsConcat(above: seq<Text>, below: seq<Text>, indent: nat)
    ensures [] + AsRows(above + below, indent) == AsRows(above, indent) + AsRows(below, indent)
  {
  }
}
