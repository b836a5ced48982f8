/** `render_data` on plain and raw blocks: tokens and their link marks, trailing lines, centering. */
module RenderText {
  import opened LineModel
  import opened LineTheorems
  import opened LineText
  import opened LineProcessor

  const BOLD: Style := 0x0100
  const NO_BREAK_SPACE: Rune := Rune(0xA0, 1)

  // ---------------------------------------------------------------- what is to be written

  /** A piece of what is written for a block: a character of the source or a whole link mark. */
  datatype Segment = Source(rune: Rune) | Mark(text: seq<Rune>)

  function TokenEnd(source: seq<Rune>, i: nat): (j: nat)
    requires i <= |source|
    ensures i <= j <= |source|
    ensures forall k :: i <= k < j ==> !IsWideWhitespace(source[k])
    ensures j < |source| ==> IsWideWhitespace(source[j])
    decreases |source| - i
  {
    if i < |source| && !IsWideWhitespace(source[i]) then TokenEnd(source, i + 1) else i
  }

  predicate IsDelimiter(source: seq<Rune>, i: nat) {
    i + 3 <= |source| && source[i].code == 0x3A && source[i + 1].code == 0x2F && source[i + 2].code == 0x2F
  }

  predicate IsAsciiLetter(r: Rune) {
    0x41 <= r.code <= 0x5A || 0x61 <= r.code <= 0x7A
  }

  /** `wcsstr(i, L"://")`, with the length of the source for no match. */
  function FindDelimiter(source: seq<Rune>, i: nat): (d: nat)
    requires i <= |source|
    ensures i <= d <= |source|
    decreases |source| - i
  {
    if i == |source| || IsDelimiter(source, i) then i else FindDelimiter(source, i + 1)
  }

  function FindLetter(source: seq<Rune>, i: nat, d: nat): (u: nat)
    requires i <= d <= |source|
    ensures i <= u <= d
    decreases d - i
  {
    if i == d || IsAsciiLetter(source[i]) then i else FindLetter(source, i + 1, d)
  }

  /** The link of the token between `i` and `j`, if it has one. */
  function Link(source: seq<Rune>, i: nat, j: nat): Option<seq<Rune>>
    requires i <= j <= |source|
  {
    var d := FindDelimiter(source, i);
    if i < d < j && FindLetter(source, i, d) < d then Some(source[FindLetter(source, i, d)..j]) else None
  }

  lemma {:induction false} FoundDelimiter(source: seq<Rune>, i: nat)
    requires i <= |source|
    ensures var d := FindDelimiter(source, i);
      (d == |source| || IsDelimiter(source, d)) && forall k :: i <= k < d ==> !IsDelimiter(source, k)
    decreases |source| - i
  {
    if i < |source| && !IsDelimiter(source, i) { FoundDelimiter(source, i + 1); }
  }

  lemma {:induction false} FoundLetter(source: seq<Rune>, i: nat, d: nat)
    requires i <= d <= |source|
    ensures var u := FindLetter(source, i, d);
      (u == d || IsAsciiLetter(source[u])) && forall k :: i <= k < u ==> !IsAsciiLetter(source[k])
    decreases d - i
  {
    if i < d && !IsAsciiLetter(source[i]) { FoundLetter(source, i + 1, d); }
  }

  /** The first `://` from `i` on is in the token, and the first letter of the token comes before it. */
  predicate LinkAt(source: seq<Rune>, i: nat, j: nat, d: nat, u: nat)
    requires j <= |source|
  {
    && i <= u < d < j && IsDelimiter(source, d) && IsAsciiLetter(source[u])
    && (forall k :: i <= k < d ==> !IsDelimiter(source, k))
    && (forall k :: i <= k < u ==> !IsAsciiLetter(source[k]))
  }

  /** A token has a link exactly when a letter comes before its first `://`; the link begins with the
      first letter and goes to the end of the token. */
  lemma {:induction false} LinkIff(source: seq<Rune>, i: nat, j: nat, url: seq<Rune>)
    requires i <= j <= |source|
    ensures Link(source, i, j) == Some(url) <==>
      exists d, u :: i <= u < d < j && LinkAt(source, i, j, d, u) && url == source[u..j]
  {
    var d := FindDelimiter(source, i);
    FoundDelimiter(source, i);
    FoundLetter(source, i, d);
    if Link(source, i, j) == Some(url) {
      assert LinkAt(source, i, j, d, FindLetter(source, i, d));
    }
    if e, u :| i <= u < e < j && LinkAt(source, i, j, e, u) && url == source[u..j] {
      assert d == e;
      assert FindLetter(source, i, d) == u;
    }
  }

  /** The position of a link in the list, which is the end of the list for a new one. */
  function IndexOf(links: seq<seq<Rune>>, url: seq<Rune>): (k: nat)
    ensures k <= |links|
    ensures k < |links| ==> links[k] == url
    ensures forall i :: 0 <= i < k ==> links[i] != url
  {
    if links == [] || links[0] == url then 0 else 1 + IndexOf(links[1..], url)
  }

  function AddLink(links: seq<seq<Rune>>, url: seq<Rune>): seq<seq<Rune>> {
    if IndexOf(links, url) < |links| then links else links + [url]
  }

  function Digits(n: nat): seq<Rune> {
    if n < 10 then [Rune(0x30 + n, 1)] else Digits(n / 10) + [Rune(0x30 + n % 10, 1)]
  }

  function MarkText(index: nat): seq<Rune> {
    [NO_BREAK_SPACE, Rune(0x5B, 1)] + Digits(index + 1) + [Rune(0x5D, 1)]
  }

  function Sources(runes: seq<Rune>): (segments: seq<Segment>)
    ensures |segments| == |runes| && forall i :: 0 <= i < |runes| ==> segments[i] == Source(runes[i])
  {
    seq(|runes|, i requires 0 <= i < |runes| => Source(runes[i]))
  }

  function MarkPlan(source: seq<Rune>, i: nat, links: seq<seq<Rune>>): (plan: seq<Segment>)
    requires i < |source|
  {
    match Link(source, i, TokenEnd(source, i))
    case Some(url) => [Mark(MarkText(IndexOf(links, url)))]
    case None => []
  }

  /** The segments for one token with the whitespace character behind it. */
  function TokenPlan(source: seq<Rune>, i: nat, links: seq<seq<Rune>>): seq<Segment>
    requires i < |source|
  {
    var j := TokenEnd(source, i);
    Sources(source[i..j]) + MarkPlan(source, i, links) + Sources(source[j..NextToken(source, i)])
  }

  function LinksAfter(source: seq<Rune>, i: nat, links: seq<seq<Rune>>): seq<seq<Rune>>
    requires i < |source|
  {
    match Link(source, i, TokenEnd(source, i)) case Some(url) => AddLink(links, url) case None => links
  }

  function NextToken(source: seq<Rune>, i: nat): (k: nat)
    requires i < |source|
    ensures i < k <= |source|
  {
    var j := TokenEnd(source, i);
    if j < |source| then j + 1 else j
  }

  function Plan(source: seq<Rune>, i: nat, links: seq<seq<Rune>>): seq<Segment>
    requires i <= |source|
    decreases |source| - i
  {
    if i == |source| then []
    else TokenPlan(source, i, links) + Plan(source, NextToken(source, i), LinksAfter(source, i, links))
  }

  function FinalLinks(source: seq<Rune>, i: nat, links: seq<seq<Rune>>): seq<seq<Rune>>
    requires i <= |source|
    decreases |source| - i
  {
    if i == |source| then links
    else FinalLinks(source, NextToken(source, i), LinksAfter(source, i, links))
  }

  function RunesFrom(segment: Segment): seq<Rune> {
    match segment
    case Source(r) => [r]
    case Mark(_) => []
  }

  /** The source characters among the segments. */
  function SourceOf(segments: seq<Segment>): seq<Rune> {
    if segments == [] then [] else SourceOf(segments[..|segments| - 1]) + RunesFrom(segments[|segments| - 1])
  }

  lemma {:induction false} SourceOfConcat(a: seq<Segment>, b: seq<Segment>)
    ensures SourceOf(a + b) == SourceOf(a) + SourceOf(b)
  {
    if b == [] {
      assert a + b == a;
    } else {
      assert (a + b)[..|a + b| - 1] == a + b[..|b| - 1];
      SourceOfConcat(a, b[..|b| - 1]);
    }
  }

  lemma {:induction false} SourceOfSources(runes: seq<Rune>)
    ensures SourceOf(Sources(runes)) == runes
  {
    if runes != [] {
      SourceOfSources(runes[..|runes| - 1]);
      assert Sources(runes)[..|runes| - 1] == Sources(runes[..|runes| - 1]);
    }
  }

  /** Every character of the source is written once and in order, around the link marks. */
  lemma {:induction false} PlanKeepsSource(source: seq<Rune>, i: nat, links: seq<seq<Rune>>)
    requires i <= |source|
    ensures SourceOf(Plan(source, i, links)) == source[i..]
    decreases |source| - i
  {
    hide TokenPlan, LinksAfter, NextToken;
    if i < |source| {
      var k := NextToken(source, i);
      PlanKeepsSource(source, k, LinksAfter(source, i, links));
      SourceOfConcat(TokenPlan(source, i, links), Plan(source, k, LinksAfter(source, i, links)));
      TokenKeepsSource(source, i, links);
      assert source[i..] == source[i..k] + source[k..];
    }
  }

  lemma {:induction false} TokenKeepsSource(source: seq<Rune>, i: nat, links: seq<seq<Rune>>)
    requires i < |source|
    ensures SourceOf(TokenPlan(source, i, links)) == source[i..NextToken(source, i)]
  {
    hide SourceOf, MarkPlan;
    var j, k := TokenEnd(source, i), NextToken(source, i);
    var token, mark, space := Sources(source[i..j]), MarkPlan(source, i, links), Sources(source[j..k]);
    SourceOfSources(source[i..j]);
    SourceOfSources(source[j..k]);
    MarkHasNoSource(source, i, links);
    SourceOfConcat(token, mark);
    SourceOfConcat(token + mark, space);
    assert source[i..j] + [] + source[j..k] == source[i..k];
  }

  lemma {:induction false} MarkHasNoSource(source: seq<Rune>, i: nat, links: seq<seq<Rune>>)
    requires i < |source|
    ensures SourceOf(MarkPlan(source, i, links)) == []
  {
    hide Link, MarkText;
    var plan := MarkPlan(source, i, links);
    if plan != [] {
      assert plan[..0] == [];
      assert SourceOf(plan) == SourceOf(plan[..0]) + RunesFrom(plan[0]);
    }
  }

  // ---------------------------------------------------------------- as a run of the line processor

  function Chars(runes: seq<Rune>): (events: seq<Event>)
    ensures |events| == |runes| && forall i :: 0 <= i < |runes| ==> events[i] == Char(runes[i])
  {
    seq(|runes|, i requires 0 <= i < |runes| => Char(runes[i]))
  }

  /** A link mark is written in bold. */
  function SegmentEvents(segment: Segment): seq<Event> {
    match segment
    case Source(r) => [Char(r)]
    case Mark(text) => [Push(BOLD)] + Chars(text) + [Pop]
  }

  function EventsOf(segments: seq<Segment>): seq<Event> {
    if segments == [] then []
    else EventsOf(segments[..|segments| - 1]) + SegmentEvents(segments[|segments| - 1])
  }

  /** The visible glyphs of a text in one style. */
  function Inked(runes: seq<Rune>, style: Style): seq<Glyph> {
    if runes == [] then [] else Inked(runes[..|runes| - 1], style) + Shown(style, Char(runes[|runes| - 1]))
  }

  function SegmentInk(segment: Segment): seq<Glyph> {
    match segment
    case Source(r) => Inked([r], 0)
    case Mark(text) => Inked(text, BOLD)
  }

  /** What a reader sees of a block: its characters in the default style, its link marks in bold. */
  function Ink(segments: seq<Segment>): seq<Glyph> {
    if segments == [] then []
    else Ink(segments[..|segments| - 1]) + SegmentInk(segments[|segments| - 1])
  }

  predicate NoIndents(events: seq<Event>) {
    forall i :: 0 <= i < |events| ==> !events[i].Indent?
  }

  lemma {:induction false} EventsHaveNoIndents(segments: seq<Segment>)
    ensures NoIndents(EventsOf(segments))
  {
    if segments != [] {
      EventsHaveNoIndents(segments[..|segments| - 1]);
      assert NoIndents(SegmentEvents(segments[|segments| - 1]));
    }
  }

  lemma {:induction false} EventsConcat(a: seq<Segment>, b: seq<Segment>)
    ensures EventsOf(a + b) == EventsOf(a) + EventsOf(b)
  {
    hide SegmentEvents;
    if b == [] {
      assert a + b == a;
    } else {
      assert (a + b)[..|a + b| - 1] == a + b[..|b| - 1];
      EventsConcat(a, b[..|b| - 1]);
      ConcatAssociates(EventsOf(a), EventsOf(b[..|b| - 1]), SegmentEvents(b[|b| - 1]));
    }
  }

  lemma {:induction false} EventsOfSources(runes: seq<Rune>)
    ensures EventsOf(Sources(runes)) == Chars(runes)
  {
    if runes != [] {
      EventsOfSources(runes[..|runes| - 1]);
      assert Sources(runes)[..|runes| - 1] == Sources(runes[..|runes| - 1]);
    }
  }

  lemma {:induction false} RunChars(s: State, runes: seq<Rune>)
    requires BreakInLine(s)
    ensures Run(s, Chars(runes)) == FeedAll(s, runes)
  {
    hide Feed;
    if runes != [] {
      RunChars(s, runes[..|runes| - 1]);
      assert Chars(runes)[..|runes| - 1] == Chars(runes[..|runes| - 1]);
      assert Do(FeedAll(s, runes[..|runes| - 1]), Char(runes[|runes| - 1])) == FeedAll(s, runes);
    }
  }

  lemma {:induction false} RoomForAll(s: State, g: Glyph)
    requires BreakInLine(s) && !OneColumn(s.lim, s.indent)
    ensures CanPut(s, g)
  {
  }

  lemma {:induction false} CharsCanBeFed(s: State, runes: seq<Rune>)
    requires BreakInLine(s) && LegalRun(s, Chars(runes))
    ensures CanFeedAll(s, runes)
  {
    hide Feed, CanFeed;
    if runes != [] {
      var front := runes[..|runes| - 1];
      assert Chars(runes)[..|runes| - 1] == Chars(front);
      CharsCanBeFed(s, front);
      RunChars(s, front);
    }
  }

  /** While the indentation leaves room for a double-width character, everything may be written. */
  lemma {:induction false} PlainRunIsLegal(s: State, events: seq<Event>)
    requires Inv(s) && !OneColumn(s.lim, s.indent) && NoIndents(events)
    ensures BreakInLine(s) && LegalRun(s, events) && Inv(Run(s, events))
    ensures (Run(s, events).lim, Run(s, events).indent) == (s.lim, s.indent)
  {
    hide Do, Inv;
    InvBreak(s);
    if events != [] {
      var front, e := events[..|events| - 1], events[|events| - 1];
      PlainRunIsLegal(s, front);
      DoPlain(Run(s, front), e);
    }
  }

  lemma {:induction false} DoPlain(s: State, e: Event)
    requires Inv(s) && !OneColumn(s.lim, s.indent) && !e.Indent?
    ensures BreakInLine(s) && Legal(s, e) && Inv(Do(s, e))
    ensures (Do(s, e).lim, Do(s, e).indent) == (s.lim, s.indent)
  {
    hide Inv, Feed;
    InvBreak(s);
    if e.Char? { RoomForAll(s, Glyph(e.rune, s.style)); }
    DoKeeps(s, e);
    if e.Char? { FeedKeeps(s, e.rune); }
  }

  lemma {:induction false} HandedConcat(stack: seq<Style>, a: seq<Event>, b: seq<Event>)
    ensures StackAfter(stack, a + b) == StackAfter(StackAfter(stack, a), b)
    ensures Handed(stack, a + b) == Handed(stack, a) + Handed(StackAfter(stack, a), b)
  {
    hide StackStep, Shown, OrAll;
    if b == [] {
      assert a + b == a;
    } else {
      var front, e := b[..|b| - 1], b[|b| - 1];
      assert (a + b)[..|a + b| - 1] == a + front;
      HandedConcat(stack, a, front);
      var after := StackAfter(stack, a);
      ConcatAssociates(Handed(stack, a), Handed(after, front), Shown(OrAll(StackAfter(after, front)), e));
    }
  }

  lemma {:induction false} HandedChars(stack: seq<Style>, runes: seq<Rune>)
    ensures StackAfter(stack, Chars(runes)) == stack
    ensures Handed(stack, Chars(runes)) == Inked(runes, OrAll(stack))
  {
    hide OrAll, Shown;
    if runes != [] {
      HandedChars(stack, runes[..|runes| - 1]);
      assert Chars(runes)[..|runes| - 1] == Chars(runes[..|runes| - 1]);
    }
  }

  lemma {:induction false} HandedOne(stack: seq<Style>, e: Event)
    ensures StackAfter(stack, [e]) == StackStep(stack, e)
    ensures Handed(stack, [e]) == Shown(OrAll(stack), e)
  {
    assert [e][..0] == [];
    assert StackAfter(stack, []) == stack && Handed(stack, []) == [];
  }

  lemma {:induction false} HandedMark(text: seq<Rune>)
    ensures StackAfter([], SegmentEvents(Mark(text))) == []
    ensures Handed([], SegmentEvents(Mark(text))) == Inked(text, BOLD)
  {
    hide Inked, StackAfter, Handed;
    HandedOne([], Push(BOLD));
    assert [] + [BOLD] == [BOLD];
    HandedChars([BOLD], text);
    assert OrAll([BOLD]) == OrAll([]) | BOLD;
    HandedOne([BOLD], Pop);
    HandedConcat([], [Push(BOLD)], Chars(text));
    HandedConcat([], [Push(BOLD)] + Chars(text), [Pop]);
    assert [] + Inked(text, BOLD) + [] == Inked(text, BOLD);
  }

  lemma {:induction false} HandedSegment(segment: Segment)
    ensures StackAfter([], SegmentEvents(segment)) == []
    ensures Handed([], SegmentEvents(segment)) == SegmentInk(segment)
  {
    match segment
    case Source(r) =>
      assert Chars([r]) == [Char(r)];
      HandedChars([], [r]);
    case Mark(text) => HandedMark(text);
  }

  lemma {:induction false} HandedSegments(segments: seq<Segment>)
    ensures StackAfter([], EventsOf(segments)) == []
    ensures Handed([], EventsOf(segments)) == Ink(segments)
  {
    hide SegmentEvents, SegmentInk, Handed, StackAfter;
    if segments == [] {
      NothingHanded();
    } else {
      HandedSegments(segments[..|segments| - 1]);
      HandedSegment(segments[|segments| - 1]);
      HandedConcat([], EventsOf(segments[..|segments| - 1]), SegmentEvents(segments[|segments| - 1]));
    }
  }

  lemma {:induction false} NothingHanded()
    ensures StackAfter([], []) == [] && Handed([], []) == []
  {
  }

  // ---------------------------------------------------------------- render_text_plain

  method FindToken(source: seq<Rune>, from: nat) returns (j: nat)
    requires from <= |source|
    ensures j == TokenEnd(source, from)
  {
    j := from;
    while j < |source| && !IsWideWhitespace(source[j])
      invariant from <= j <= |source| && TokenEnd(source, j) == TokenEnd(source, from)
    {
      j := j + 1;
    }
  }

  method FindSchemeLetter(source: seq<Rune>, from: nat, d: nat) returns (u: nat)
    requires from <= d <= |source|
    ensures u == FindLetter(source, from, d)
  {
    u := from;
    while u < d && !IsAsciiLetter(source[u])
      invariant from <= u <= d && FindLetter(source, u, d) == FindLetter(source, from, d)
    {
      u := u + 1;
    }
  }

  /** `add_url_to_links_list` for a complete link. */
  method AddUrl(links: seq<seq<Rune>>, url: seq<Rune>) returns (index: nat, more: seq<seq<Rune>>)
    ensures index == IndexOf(links, url) && more == AddLink(links, url)
    ensures index < |more| && more[index] == url && links <= more
  {
    index := 0;
    while index < |links| && links[index] != url
      invariant index <= |links| && forall i :: 0 <= i < index ==> links[i] != url
    {
      index := index + 1;
    }
    assert IndexOf(links, url) == index;
    more := if index < |links| then links else links + [url];
  }

  method WriteRunes(line: Line, runes: seq<Rune>)
    requires line.Ready() && !OneColumn(line.lim, line.indent)
    modifies line
    ensures line.Ready() && (line.lim, line.indent) == old((line.lim, line.indent))
    ensures BreakInLine(old(line.model)) && line.model == Run(old(line.model), Chars(runes))
  {
    hide Inv, FeedAll, Run;
    InvBreak(line.model);
    RunChars(line.model, runes);
    PlainRunIsLegal(line.model, Chars(runes));
    CharsCanBeFed(line.model, runes);
    line.LineString(runes);
  }

  method WriteMark(line: Line, text: seq<Rune>)
    requires line.Ready() && !OneColumn(line.lim, line.indent)
    modifies line
    ensures line.Ready() && (line.lim, line.indent) == old((line.lim, line.indent))
    ensures BreakInLine(old(line.model)) && line.model == Run(old(line.model), SegmentEvents(Mark(text)))
  {
    hide Inv, Run;
    ghost var s := line.model;
    InvBreak(s);
    line.PushStyle(BOLD);
    ghost var u := line.model;
    InvBreak(u);
    WriteRunes(line, text);
    ghost var v := line.model;
    InvBreak(v);
    line.PopStyle();
    MarkRun(s, u, v, text);
  }

  lemma {:induction false} MarkRun(s: State, u: State, v: State, text: seq<Rune>)
    requires BreakInLine(s) && BreakInLine(u) && BreakInLine(v)
    requires u == WithStack(s, s.stack + [BOLD]) && v == Run(u, Chars(text))
    ensures Run(s, SegmentEvents(Mark(text))) == WithStack(v, PopStack(v.stack))
  {
    RunOne(s, Push(BOLD));
    RunOne(v, Pop);
    RunConcat(s, [Push(BOLD)], Chars(text));
    RunConcat(s, [Push(BOLD)] + Chars(text), [Pop]);
  }

  /** Writes a plain text: every token, the mark of its link, and the whitespace behind it. */
  method RenderTextPlain(line: Line, source: seq<Rune>, links: seq<seq<Rune>>) returns (more: seq<seq<Rune>>)
    requires line.Ready() && !OneColumn(line.lim, line.indent)
    modifies line
    ensures line.Ready() && (line.lim, line.indent) == old((line.lim, line.indent))
    ensures BreakInLine(old(line.model)) && line.model == Run(old(line.model), EventsOf(Plan(source, 0, links)))
    ensures more == FinalLinks(source, 0, links)
  {
    hide Inv, Run, EventsOf, TokenPlan, LinksAfter, NextToken;
    ghost var s := line.model;
    InvBreak(s);
    ghost var done: seq<Segment> := [];
    NothingRun(s);
    more := links;
    var i := 0;
    while i < |source|
      invariant i <= |source| && line.Ready()
      invariant (line.lim, line.indent) == old((line.lim, line.indent))
      invariant line.model == Run(s, EventsOf(done))
      invariant Plan(source, 0, links) == done + Plan(source, i, more)
      invariant FinalLinks(source, 0, links) == FinalLinks(source, i, more)
    {
      ghost var plan := TokenPlan(source, i, more);
      ghost var u := line.model;
      InvBreak(u);
      EventsConcat(done, plan);
      RunConcat(s, EventsOf(done), EventsOf(plan));
      ConcatAssociates(done, plan, Plan(source, NextToken(source, i), LinksAfter(source, i, more)));
      i, more := RenderToken(line, source, i, more);
      done := done + plan;
    }
    assert done + [] == done;
  }

  lemma {:induction false} NothingRun(s: State)
    requires BreakInLine(s)
    ensures Run(s, EventsOf([])) == s
  {
  }

  /** One turn of the loop of `render_text_plain`. */
  method RenderToken(line: Line, source: seq<Rune>, i: nat, links: seq<seq<Rune>>)
    returns (next: nat, more: seq<seq<Rune>>)
    requires line.Ready() && !OneColumn(line.lim, line.indent) && i < |source|
    modifies line
    ensures line.Ready() && (line.lim, line.indent) == old((line.lim, line.indent))
    ensures BreakInLine(old(line.model)) && line.model == Run(old(line.model), EventsOf(TokenPlan(source, i, links)))
    ensures next == NextToken(source, i) && more == LinksAfter(source, i, links)
  {
    hide Inv, Run, EventsOf, MarkText, Chars;
    ghost var s := line.model;
    var j := FindToken(source, i);
    WriteRunes(line, source[i..j]);
    ghost var u := line.model;
    InvBreak(u);
    more := links;
    MarkPlanEvents(source, i, links);
    NothingRun(u);
    var d := FindDelimiter(source, i);
    if i < d < j {
      var start := FindSchemeLetter(source, i, d);
      if start < d {
        var index;
        index, more := AddUrl(links, source[start..j]);
        WriteMark(line, MarkText(index));
      }
    }
    ghost var v := line.model;
    InvBreak(v);
    next := if j < |source| then j + 1 else j;
    WriteRunes(line, source[j..next]);
    TokenRun(s, u, v, source, i, links);
  }

  lemma {:induction false} MarkPlanEvents(source: seq<Rune>, i: nat, links: seq<seq<Rune>>)
    requires i < |source|
    ensures EventsOf(MarkPlan(source, i, links)) ==
      match Link(source, i, TokenEnd(source, i))
      case Some(url) => SegmentEvents(Mark(MarkText(IndexOf(links, url))))
      case None => EventsOf([])
  {
    hide SegmentEvents, MarkText, Link;
    var plan := MarkPlan(source, i, links);
    if plan != [] {
      assert plan[..0] == [];
      assert EventsOf(plan) == EventsOf(plan[..0]) + SegmentEvents(plan[0]);
    }
  }

  lemma {:induction false} TokenRun(s: State, u: State, v: State, source: seq<Rune>, i: nat, links: seq<seq<Rune>>)
    requires i < |source| && BreakInLine(s) && BreakInLine(u)
    requires u == Run(s, Chars(source[i..TokenEnd(source, i)]))
    requires v == Run(u, EventsOf(MarkPlan(source, i, links)))
    ensures Run(s, EventsOf(TokenPlan(source, i, links)))
         == Run(v, Chars(source[TokenEnd(source, i)..NextToken(source, i)]))
  {
    hide Run, EventsOf, MarkPlan;
    var j, k := TokenEnd(source, i), NextToken(source, i);
    var token, mark, space := Sources(source[i..j]), MarkPlan(source, i, links), Sources(source[j..k]);
    EventsOfSources(source[i..j]);
    EventsOfSources(source[j..k]);
    EventsConcat(token, mark);
    EventsConcat(token + mark, space);
    RunConcat(s, EventsOf(token), EventsOf(mark));
    RunConcat(s, EventsOf(token) + EventsOf(mark), EventsOf(space));
  }

  // ---------------------------------------------------------------- render_data

  /** A render block. Raw blocks are written as they are; plain ones get link marks. */
  datatype Block = Block(content: seq<Rune>, raw: bool, needsTrimming: bool)

  function BlockPlan(block: Block, links: seq<seq<Rune>>): seq<Segment> {
    if block.raw then Sources(block.content) else Plan(block.content, 0, links)
  }

  function BlockLinks(block: Block, links: seq<seq<Rune>>): seq<seq<Rune>> {
    if block.raw then links else FinalLinks(block.content, 0, links)
  }

  function Trimmed(s: State): (t: State)
    requires s.lines != []
  {
    s.(lines := Trim(s.lines))
  }

  /** A block starts without indentation and in the default style, on the line where the last one ended. */
  function Fresh(s: State): State {
    s.(indent := 0, style := 0, stack := [])
  }

  ghost predicate AfterBlock(s: State, block: Block, links: seq<seq<Rune>>, t: State) {
    && BreakInLine(Fresh(s))
    && var u := Run(Fresh(s), EventsOf(BlockPlan(block, links)));
      t == if block.needsTrimming then Trimmed(u) else u
  }

  /** `states` are the line processor's states between the blocks, `lists` the link lists. */
  ghost predicate AfterBlocks(blocks: seq<Block>, states: seq<State>, lists: seq<seq<seq<Rune>>>) {
    && |states| == |lists| == |blocks| + 1
    && forall i :: 0 <= i < |blocks| ==>
         AfterBlock(states[i], blocks[i], lists[i], states[i + 1]) && lists[i + 1] == BlockLinks(blocks[i], lists[i])
  }

  function BlocksInk(blocks: seq<Block>, lists: seq<seq<seq<Rune>>>): seq<Glyph>
    requires |blocks| <= |lists|
  {
    if blocks == [] then []
    else BlocksInk(blocks[..|blocks| - 1], lists) + Ink(BlockPlan(blocks[|blocks| - 1], lists[|blocks| - 1]))
  }

  lemma {:induction false} PlanEventsHaveNoIndents(block: Block, links: seq<seq<Rune>>)
    ensures NoIndents(EventsOf(BlockPlan(block, links)))
  {
    EventsHaveNoIndents(BlockPlan(block, links));
  }

  /** One block adds its ink and nothing else, and keeps the limit. */
  lemma {:induction false} BlockKeeps(s: State, block: Block, links: seq<seq<Rune>>, t: State)
    requires Inv(s) && AfterBlock(s, block, links, t)
    ensures Inv(t) && t.lim == s.lim && t.indent == 0
    ensures Visible(t.lines) == Visible(s.lines) + Ink(BlockPlan(block, links))
    ensures Sub(Flat(t.lines), Flat(s.lines) + BlockWritten(s, block, links))
    ensures FitsInv(s) && s.lim >= 3 ==> FitsInv(t)
    ensures IndentsOk(Fresh(s), 0) ==> IndentsOk(t, 0)
    ensures if block.needsTrimming then |t.lines| > 1 ==> HasVisible(t.lines[|t.lines| - 1])
            else |t.lines| >= |s.lines| + LineFeeds(EventsOf(BlockPlan(block, links)))
  {
    hide Inv, Run, EventsOf, BlockPlan, FitsInv, Ink, Visible, Trim, Sub, Flat, Written;
    var u, events := Fresh(s), EventsOf(BlockPlan(block, links));
    FreshKeeps(s);
    PlanEventsHaveNoIndents(block, links);
    PlainRunIsLegal(u, events);
    RunKeeps(u, events);
    RunKeepsInv(u, events);
    HandedSegments(BlockPlan(block, links));
    assert OrAll([]) == 0;
    InvBreak(Run(u, events));
    TrimKeeps(Run(u, events));
    TrimIsLongest(Run(u, events).lines);
    RunText(u, events);
    LineFeedsStartLines(u, events);
    InvPrintable(Run(u, events));
    TrimText(Run(u, events).lines);
    SubTrans(Flat(Trim(Run(u, events).lines)), Flat(Run(u, events).lines), Flat(u.lines) + Written(u, events));
    if IndentsOk(u, 0) { RunIndents(u, events, 0); }
  }

  lemma {:induction false} InvPrintable(s: State)
    requires Inv(s)
    ensures AllRowsPrintable(s.lines)
  {
  }

  lemma {:induction false} FreshKeeps(s: State)
    requires Inv(s)
    ensures Inv(Fresh(s)) && !OneColumn(s.lim, 0)
    ensures FitsInv(s) ==> FitsInv(Fresh(s))
  {
  }

  lemma {:induction false} NoText(lim: nat)
    ensures Sub(Flat(Start(lim, 0).lines), [])
  {
    var s := Start(lim, 0);
    assert s.lines == [Row([], false, 0)] && s.lines[..0] == [];
    assert Flat(s.lines) == [];
  }

  /** What a block hands in, spaces included, each glyph in the style of its moment. */
  function BlockWritten(s: State, block: Block, links: seq<seq<Rune>>): seq<Glyph> {
    if BreakInLine(Fresh(s)) then Written(Fresh(s), EventsOf(BlockPlan(block, links))) else []
  }

  function BlocksWritten(blocks: seq<Block>, states: seq<State>, lists: seq<seq<seq<Rune>>>): seq<Glyph>
    requires |blocks| <= |lists| && |blocks| <= |states|
  {
    if blocks == [] then []
    else
      var n := |blocks| - 1;
      BlocksWritten(blocks[..n], states, lists) + BlockWritten(states[n], blocks[n], lists[n])
  }

  /** All of them, from the empty page. */
  lemma {:induction false} BlocksKeep(blocks: seq<Block>, states: seq<State>, lists: seq<seq<seq<Rune>>>, n: nat)
    requires AfterBlocks(blocks, states, lists) && states[0] == Start(states[0].lim, 0) && n <= |blocks|
    ensures Inv(states[n]) && states[n].lim == states[0].lim && states[n].indent == 0
    ensures Visible(states[n].lines) == BlocksInk(blocks[..n], lists)
    ensures states[0].lim >= 3 ==> FitsInv(states[n])
    ensures IndentsOk(states[n], 0)
  {
    hide Inv, Visible, FitsInv, AfterBlock, Ink, BlockPlan, Sub, BlockWritten;
    if n == 0 {
      StartInv(states[0].lim, 0);
    } else {
      BlocksKeep(blocks, states, lists, n - 1);
      BlockKeeps(states[n - 1], blocks[n - 1], lists[n - 1], states[n]);
      assert blocks[..n][..n - 1] == blocks[..n - 1];
    }
  }

  /** The text of the page is what all blocks hand in, with nothing but spaces left out. */
  lemma {:induction false} BlocksText(blocks: seq<Block>, states: seq<State>, lists: seq<seq<seq<Rune>>>, n: nat)
    requires AfterBlocks(blocks, states, lists) && states[0] == Start(states[0].lim, 0) && n <= |blocks|
    ensures Sub(Flat(states[n].lines), BlocksWritten(blocks[..n], states, lists))
  {
    hide Inv, Visible, FitsInv, AfterBlock, Ink, BlockPlan, Sub, BlockWritten, Flat;
    if n == 0 {
      NoText(states[0].lim);
    } else {
      var s, block, links := states[n - 1], blocks[n - 1], lists[n - 1];
      var before, written := BlocksWritten(blocks[..n - 1], states, lists), BlockWritten(s, block, links);
      BlocksText(blocks, states, lists, n - 1);
      BlocksKeep(blocks, states, lists, n - 1);
      BlockKeeps(s, block, links, states[n]);
      assert blocks[..n][..n - 1] == blocks[..n - 1];
      SubRefl(written);
      SubConcat(Flat(s.lines), before, written, written);
      SubTrans(Flat(states[n].lines), Flat(s.lines) + written, before + written);
    }
  }

  /** The rows of a rendered page: trimmed and, for centering, shifted to the right. */
  function PageRows(s: State, shift: nat): (rows: seq<Row>)
    requires s.lines != []
    ensures |rows| == |Trim(s.lines)|
    ensures forall i :: 0 <= i < |rows| ==>
      rows[i] == Trim(s.lines)[i].(indent := Trim(s.lines)[i].indent + shift)
  {
    var lines := Trim(s.lines);
    seq(|lines|, i requires 0 <= i < |lines| => lines[i].(indent := lines[i].indent + shift))
  }

  function Limit(pagerWidth: nat, contentWidth: nat): nat {
    if 0 < pagerWidth < contentWidth then pagerWidth else contentWidth
  }

  function Shift(pagerWidth: nat, contentWidth: nat, centering: bool): nat {
    if centering && 0 < pagerWidth < contentWidth then (contentWidth - pagerWidth) / 2 else 0
  }

  lemma {:induction false} ShiftedIsVisible(rows: seq<Row>, shifted: seq<Row>)
    requires |rows| == |shifted|
    requires forall i :: 0 <= i < |rows| ==> (shifted[i].cells, shifted[i].hyphen) == (rows[i].cells, rows[i].hyphen)
    ensures Visible(shifted) == Visible(rows)
  {
    hide NonBlank;
    if rows != [] {
      ShiftedIsVisible(rows[..|rows| - 1], shifted[..|rows| - 1]);
    }
  }

  lemma {:induction false} ShiftedIsFlat(rows: seq<Row>, shifted: seq<Row>)
    requires |rows| == |shifted|
    requires forall i :: 0 <= i < |rows| ==> (shifted[i].cells, shifted[i].hyphen) == (rows[i].cells, rows[i].hyphen)
    ensures Flat(shifted) == Flat(rows)
  {
    if rows != [] {
      ShiftedIsFlat(rows[..|rows| - 1], shifted[..|rows| - 1]);
    }
  }

  /** The main theorem on `render_data`: the page shows the characters of all blocks and their link
      marks, once, in order and in their styles; every row with its indentation fits the width that
      was asked for, centered or not; and the last row shows something unless it is the only one. */
  lemma {:induction false} PageShowsBlocks(blocks: seq<Block>, states: seq<State>, lists: seq<seq<seq<Rune>>>,
                                           pagerWidth: nat, contentWidth: nat, centering: bool)
    requires AfterBlocks(blocks, states, lists) && states[0] == Start(Limit(pagerWidth, contentWidth), 0)
    ensures Inv(states[|blocks|])
    ensures var rows := PageRows(states[|blocks|], Shift(pagerWidth, contentWidth, centering));
      && rows != []
      && Visible(rows) == BlocksInk(blocks, lists)
      && (|rows| > 1 ==> HasVisible(rows[|rows| - 1]))
      && (Limit(pagerWidth, contentWidth) >= 3 ==>
            forall i :: 0 <= i < |rows| ==> RowWithin(contentWidth, rows[i]))
  {
    hide Inv, Visible, BlocksInk, Run, Trim, AfterBlocks;
    StatesCount(blocks, states, lists);
    var s, shift := states[|blocks|], Shift(pagerWidth, contentWidth, centering);
    BlocksKeep(blocks, states, lists, |blocks|);
    assert blocks[..|blocks|] == blocks;
    InvBreak(s);
    TrimIsLongest(s.lines);
    TrimKeeps(s);
    var rows := PageRows(s, shift);
    ShiftedIsVisible(Trim(s.lines), rows);
    forall i | 0 <= i < |rows| && s.lim >= 3 ensures RowWithin(contentWidth, rows[i]) {
      assert Trim(s.lines)[i] == s.lines[i];
      assert RowFits(s.lim, s.lines[i]) && s.lines[i].indent == 0;
    }
  }

  /** The text of a row is no wider than the width that is set for the pager, or else than the window; when it
      is centered the margins on both sides are the same, but for one column, and otherwise there is none on
      the left. */
  predicate InMargins(row: Row, pagerWidth: nat, contentWidth: nat, centering: bool) {
    if 0 < pagerWidth < contentWidth then
      && Width(row.cells) <= pagerWidth
      && if centering then 0 <= (contentWidth - pagerWidth - row.indent) - row.indent <= 1 else row.indent == 0
    else Width(row.cells) <= contentWidth && row.indent == 0
  }

  lemma {:induction false} PageKeepsMargins(blocks: seq<Block>, states: seq<State>, lists: seq<seq<seq<Rune>>>,
                                            pagerWidth: nat, contentWidth: nat, centering: bool)
    requires AfterBlocks(blocks, states, lists) && states[0] == Start(Limit(pagerWidth, contentWidth), 0)
    requires contentWidth >= 3 && (pagerWidth == 0 || pagerWidth >= 3)
    ensures Inv(states[|blocks|])
    ensures var rows := PageRows(states[|blocks|], Shift(pagerWidth, contentWidth, centering));
      forall i :: 0 <= i < |rows| ==> InMargins(rows[i], pagerWidth, contentWidth, centering)
  {
    hide Inv, Visible, BlocksInk, Run, Trim, AfterBlocks, Width;
    StatesCount(blocks, states, lists);
    var s, shift := states[|blocks|], Shift(pagerWidth, contentWidth, centering);
    BlocksKeep(blocks, states, lists, |blocks|);
    assert blocks[..|blocks|] == blocks;
    InvBreak(s);
    TrimIsLongest(s.lines);
    var rows := PageRows(s, shift);
    forall i | 0 <= i < |rows| ensures InMargins(rows[i], pagerWidth, contentWidth, centering) {
      assert Trim(s.lines)[i] == s.lines[i];
      assert RowFits(s.lim, s.lines[i]) && s.lines[i].indent == 0;
    }
  }

  /** The text of the page, spaces and styles included: everything that the blocks hand in is there in
      order, each glyph in the style that was in force, with nothing but spaces left out. */
  lemma {:induction false} PageText(blocks: seq<Block>, states: seq<State>, lists: seq<seq<seq<Rune>>>,
                                    pagerWidth: nat, contentWidth: nat, centering: bool)
    requires AfterBlocks(blocks, states, lists) && states[0] == Start(Limit(pagerWidth, contentWidth), 0)
    ensures |states| == |lists| == |blocks| + 1 && Inv(states[|blocks|])
    ensures Sub(Flat(PageRows(states[|blocks|], Shift(pagerWidth, contentWidth, centering))),
                BlocksWritten(blocks, states, lists))
  {
    hide Inv, Trim, AfterBlocks, Sub, Flat, BlocksWritten, Visible, FitsInv, BlocksInk;
    StatesCount(blocks, states, lists);
    var s := states[|blocks|];
    BlocksKeep(blocks, states, lists, |blocks|);
    BlocksText(blocks, states, lists, |blocks|);
    assert blocks[..|blocks|] == blocks;
    InvBreak(s);
    InvPrintable(s);
    TrimText(s.lines);
    var rows := PageRows(s, Shift(pagerWidth, contentWidth, centering));
    ShiftedIsFlat(Trim(s.lines), rows);
    SubTrans(Flat(rows), Flat(s.lines), BlocksWritten(blocks, states, lists));
  }

  /** A hyphen that a split inserted has the style of the character with which the next row begins. */
  lemma {:induction false} PageHyphens(s: State, shift: nat, i: nat)
    requires Inv(s) && s.lines != [] && i < |PageRows(s, shift)| && PageRows(s, shift)[i].hyphen
    ensures i + 1 < |PageRows(s, shift)| && Hyphenates(PageRows(s, shift)[i], PageRows(s, shift)[i + 1])
  {
    hide Inv, Trim;
    TrimKeeps(s);
    InvHyphens(s.(lines := Trim(s.lines)));
    assert Hyphenates(Trim(s.lines)[i], Trim(s.lines)[i + 1]);
  }

  lemma {:induction false} InvHyphens(s: State)
    requires Inv(s)
    ensures HyphenOk(s.lines)
  {
  }

  lemma {:induction false} StatesCount(blocks: seq<Block>, states: seq<State>, lists: seq<seq<seq<Rune>>>)
    requires AfterBlocks(blocks, states, lists)
    ensures |states| == |lists| == |blocks| + 1
  {
  }

  /** The inner loop of the trimming: does the text consist of whitespace? */
  method IsBlankText(ws: seq<Rune>) returns (blank: bool)
    ensures blank <==> forall j :: 0 <= j < |ws| ==> IsWideWhitespace(ws[j])
  {
    for j := 0 to |ws|
      invariant forall k :: 0 <= k < j ==> IsWideWhitespace(ws[k])
    {
      if !IsWideWhitespace(ws[j]) {
        return false;
      }
    }
    return true;
  }

  /** Drops lines from the end until one shows something or the first is reached. */
  method DropEmptyLines(line: Line, ghost rows: seq<Row>) returns (n: nat)
    requires |line.lines| >= 1 && LinesMatch(line.lines, rows)
    modifies line`lines
    ensures 1 <= n <= |rows| == |old(line.lines)|
    ensures line.lines == old(line.lines)[..n] && Trim(rows) == rows[..n]
  {
    hide Trim, HasVisible, LinesMatch, Cells;
    ghost var all := line.lines;
    MatchPrefix(all, rows, 0);
    n := |line.lines|;
    assert rows[..n] == rows && all[..n] == all;
    while n > 1
      invariant 1 <= n <= |rows| == |all| && line.lines == all[..n]
      invariant Trim(rows) == Trim(rows[..n])
    {
      MatchAt(all, rows, n - 1);
      BlankRow(rows[n - 1], all[n - 1]);
      TrimStep(rows[..n]);
      assert rows[..n][..n - 1] == rows[..n - 1];
      var blank := IsBlankText(line.lines[n - 1].ws);
      if !blank {
        return;
      }
      line.lines := line.lines[..n - 1];
      n := n - 1;
    }
    TrimStep(rows[..1]);
  }

  method RemoveTrailingEmptyLines(line: Line)
    requires line.Ready()
    modifies line
    ensures old(line.model).lines != [] && line.model == Trimmed(old(line.model))
    ensures line.Ready() && (line.lim, line.indent) == old((line.lim, line.indent))
  {
    hide Inv, Trim, LinesMatch;
    ghost var s, all := line.model, line.lines;
    InvBreak(s);
    TrimKeeps(s);
    var n := DropEmptyLines(line, s.lines);
    MatchPrefix(all, s.lines, n);
    line.model := Trimmed(s);
  }

  lemma {:induction false} TrimStep(lines: seq<Row>)
    requires lines != []
    ensures |lines| == 1 || HasVisible(lines[|lines| - 1]) ==> Trim(lines) == lines
    ensures |lines| > 1 && !HasVisible(lines[|lines| - 1]) ==> Trim(lines) == Trim(lines[..|lines| - 1])
  {
    hide HasVisible;
  }

  lemma {:induction false} BlankRow(row: Row, l: TextLine)
    requires Covered(l) && row.cells == Cells(l)
    ensures HasVisible(row) <==> !(forall j :: 0 <= j < |l.ws| ==> IsWideWhitespace(l.ws[j]))
  {
    forall j | 0 <= j < |l.ws| ensures row.cells[j].rune == l.ws[j] { }
    if HasVisible(row) {
      var k :| 0 <= k < |row.cells| && !IsWideWhitespace(row.cells[k].rune);
      assert !IsWideWhitespace(l.ws[k]);
    } else {
      forall j | 0 <= j < |l.ws| ensures IsWideWhitespace(l.ws[j]) {
        assert IsWideWhitespace(row.cells[j].rune);
      }
    }
  }

  method RenderBlock(line: Line, block: Block, links: seq<seq<Rune>>) returns (more: seq<seq<Rune>>)
    requires line.Ready()
    modifies line
    ensures line.Ready() && line.lim == old(line.lim) && line.indent == 0
    ensures AfterBlock(old(line.model), block, links, line.model) && more == BlockLinks(block, links)
  {
    hide Inv, Run, EventsOf, Plan, FinalLinks, Trimmed;
    FreshKeeps(line.model);
    line.indent, line.style, line.stack := 0, 0, [];
    line.model := Fresh(line.model);
    ghost var u := line.model;
    InvBreak(u);
    if block.raw {
      WriteRunes(line, block.content);
      EventsOfSources(block.content);
      more := links;
    } else {
      more := RenderTextPlain(line, block.content, links);
    }
    if block.needsTrimming {
      RemoveTrailingEmptyLines(line);
    }
  }

  /** The result stands for the rows: text, hints and indentation. */
  predicate Shows(result: seq<TextLine>, rows: seq<Row>) {
    && |result| == |rows|
    && forall i :: 0 <= i < |result| ==>
         Covered(result[i]) && Cells(result[i]) == rows[i].cells && result[i].indent == rows[i].indent
  }

  /** The blocks one after another, from the first line on. */
  method RenderBlocks(line: Line, blocks: seq<Block>, links: seq<seq<Rune>>)
    returns (more: seq<seq<Rune>>, ghost states: seq<State>, ghost lists: seq<seq<seq<Rune>>>)
    requires line.Ready() && line.indent == 0
    modifies line
    ensures AfterBlocks(blocks, states, lists) && lists[0] == links && lists[|blocks|] == more
    ensures states[0] == old(line.model) && states[|blocks|] == line.model
    ensures line.Ready() && (line.lim, line.indent) == old((line.lim, line.indent))
  {
    hide Inv, Run, EventsOf, BlockPlan, AfterBlock, BlockLinks, LinesMatch;
    more := links;
    states, lists := [line.model], [links];
    for i := 0 to |blocks|
      invariant line.Ready() && (line.lim, line.indent) == old((line.lim, line.indent))
      invariant |states| == |lists| == i + 1 && states[i] == line.model && lists[i] == more
      invariant states[0] == old(line.model) && lists[0] == links
      invariant forall k :: 0 <= k < i ==>
        AfterBlock(states[k], blocks[k], lists[k], states[k + 1]) && lists[k + 1] == BlockLinks(blocks[k], lists[k])
    {
      more := RenderBlock(line, blocks[i], more);
      states, lists := states + [line.model], lists + [more];
    }
  }

  /** `render_data`. `shown` tells whether there is anything to look at. */
  method RenderData(blocks: seq<Block>, links: seq<seq<Rune>>, pagerWidth: nat, contentWidth: nat, centering: bool)
    returns (result: seq<TextLine>, more: seq<seq<Rune>>, shown: bool,
             ghost states: seq<State>, ghost lists: seq<seq<seq<Rune>>>)
    ensures AfterBlocks(blocks, states, lists) && lists[0] == links && lists[|blocks|] == more
    ensures states[0] == Start(Limit(pagerWidth, contentWidth), 0) && states[|blocks|].lines != []
    ensures Shows(result, PageRows(states[|blocks|], Shift(pagerWidth, contentWidth, centering)))
    ensures shown <==> |result| > 1 || (|result| == 1 && result[0].ws != [])
  {
    hide Inv, AfterBlocks, LinesMatch, Trim, PageRows, Shows, Run, Width, Visible, FitsInv;
    var lim := if pagerWidth > 0 && pagerWidth < contentWidth then pagerWidth else contentWidth;
    var line := new Line(lim);
    line.LineBump();
    StartInv(lim, 0);
    more, states, lists := RenderBlocks(line, blocks, links);
    InvBreak(line.model);
    RemoveTrailingEmptyLines(line);
    StatesCount(blocks, states, lists);
    TrimIsLongest(states[|blocks|].lines);
    result := line.lines;
    if centering && pagerWidth > 0 && pagerWidth < contentWidth {
      result := Center(result, (contentWidth - pagerWidth) / 2);
    }
    LinesShow(line.lines, states[|blocks|], result, Shift(pagerWidth, contentWidth, centering));
    shown := |result| > 1 || |result[0].ws| > 0;
  }

  method Center(lines: seq<TextLine>, shift: nat) returns (r: seq<TextLine>)
    ensures |r| == |lines|
    ensures forall i :: 0 <= i < |r| ==> r[i] == lines[i].(indent := lines[i].indent + shift)
  {
    r := lines;
    for i := 0 to |lines|
      invariant |r| == |lines|
      invariant forall k :: 0 <= k < i ==> r[k] == lines[k].(indent := lines[k].indent + shift)
      invariant forall k :: i <= k < |lines| ==> r[k] == lines[k]
    {
      r := r[i := r[i].(indent := r[i].indent + shift)];
    }
  }

  lemma {:induction false} LinesShow(lines: seq<TextLine>, s: State, result: seq<TextLine>, shift: nat)
    requires s.lines != [] && LinesMatch(lines, Trim(s.lines))
    requires |result| == |lines|
    requires forall i :: 0 <= i < |result| ==> result[i] == lines[i].(indent := lines[i].indent + shift)
    ensures Shows(result, PageRows(s, shift))
  {
    hide Trim;
    forall i | 0 <= i < |result|
      ensures Covered(result[i]) && Cells(result[i]) == Trim(s.lines)[i].cells
           && result[i].indent == Trim(s.lines)[i].indent + shift
    {
      MatchAt(lines, Trim(s.lines), i);
    }
  }
}
