/** What the parts of a feeds file mean, said of the text and the store. */
module FeedsMeaning {
  import opened FeedsModel
  import opened FeedsTheorems

  // ---------------------------------------------------------------- white space

  predicate AllSpace(s: string) {
    forall k :: 0 <= k < |s| ==> IsSpace(s[k])
  }

  lemma {:induction false} TrimLeftBegins(s: string)
    ensures |TrimLeft(s)| <= |s| && TrimLeft(s) == s[|s| - |TrimLeft(s)|..]
    ensures forall k :: 0 <= k < |s| - |TrimLeft(s)| ==> IsSpace(s[k])
  {
    if s != "" && IsSpace(s[0]) {
      TrimLeftBegins(s[1..]);
      forall k | 0 <= k < |s| - |TrimLeft(s)| ensures IsSpace(s[k]) {
        if k > 0 { assert s[k] == s[1..][k - 1]; }
      }
    }
  }

  lemma {:induction false} TrimRightEnds(s: string)
    ensures forall k :: |TrimRight(s)| <= k < |s| ==> IsSpace(s[k])
  {
    if s != "" && IsSpace(s[|s| - 1]) {
      TrimRightEnds(s[..|s| - 1]);
    }
  }

  predicate IsMiddle(s: string, before: string, middle: string, after: string) {
    && s == before + middle + after && AllSpace(before) && AllSpace(after)
    && (middle != "" ==> !IsSpace(middle[0]) && !IsSpace(middle[|middle| - 1]))
  }

  /** Trimming takes white space off both ends, all of it and nothing else. */
  lemma {:induction false} TrimIsMiddle(s: string)
    ensures exists before, after :: IsMiddle(s, before, Trim(s), after)
  {
    hide TrimLeft, TrimRight;
    var left := TrimLeft(s);
    TrimLeftBegins(s);
    TrimRightEnds(left);
    var before, after := s[..|s| - |left|], left[|Trim(s)|..];
    assert left == Trim(s) + after && s == before + left;
    assert IsMiddle(s, before, Trim(s), after);
  }

  /** The characters that are not white space. */
  function Dark(s: string): string {
    if s == "" then "" else Dark(s[..|s| - 1]) + if IsSpace(s[|s| - 1]) then "" else [s[|s| - 1]]
  }

  /** Only spaces are left of the white space, and no two of them together. */
  predicate IsInline(s: string) {
    && (forall k :: 0 <= k < |s| ==> (IsSpace(s[k]) ==> s[k] == ' '))
    && (forall k :: 0 <= k < |s| - 1 ==> !(s[k] == ' ' && s[k + 1] == ' '))
  }

  lemma {:induction false} DarkSnoc(s: string, c: char)
    ensures Dark(s + [c]) == Dark(s) + if IsSpace(c) then "" else [c]
  {
    assert (s + [c])[..|s|] == s;
  }

  lemma {:induction false} InlineSnoc(s: string, c: char)
    requires IsInline(s) && (IsSpace(c) ==> c == ' ') && !(c == ' ' && s != "" && s[|s| - 1] == ' ')
    ensures IsInline(s + [c])
  {
  }

  lemma {:induction false} InlinedStep(s: string)
    requires s != ""
    ensures var front, c := Inlined(s[..|s| - 1]), if IsSpace(s[|s| - 1]) then ' ' else s[|s| - 1];
      Inlined(s) == if c == ' ' && front != "" && front[|front| - 1] == ' ' then front else front + [c]
  {
  }

  /** Making a name fit one line keeps all other characters in order, */
  lemma {:induction false} InlinedKeeps(s: string)
    ensures IsInline(Inlined(s)) && Dark(Inlined(s)) == Dark(s)
    decreases |s|
  {
    if s != "" {
      var begin, last := s[..|s| - 1], s[|s| - 1];
      InlinedKeeps(begin);
      InlinedStep(s);
      assert s == begin + [last];
      InlinedSnoc(begin, last, Inlined(begin));
    }
  }

  lemma {:induction false} InlinedSnoc(s: string, last: char, front: string)
    requires IsInline(front) && Dark(front) == Dark(s)
    ensures var c := if IsSpace(last) then ' ' else last;
      var r := if c == ' ' && front != "" && front[|front| - 1] == ' ' then front else front + [c];
      IsInline(r) && Dark(r) == Dark(s + [last])
  {
    hide Dark, IsInline;
    var c := if IsSpace(last) then ' ' else last;
    DarkSnoc(s, last);
    if !(c == ' ' && front != "" && front[|front| - 1] == ' ') {
      DarkSnoc(front, c);
      InlineSnoc(front, c);
    }
  }

  /** and has a space wherever there was white space: it grows with the text, and ends in a space exactly when
      the text ends in white space. */
  lemma {:induction false} InlinedEnds(s: string)
    requires s != ""
    ensures Inlined(s[..|s| - 1]) <= Inlined(s) && Inlined(s) != ""
    ensures IsSpace(s[|s| - 1]) <==> Inlined(s)[|Inlined(s)| - 1] == ' '
  {
    hide Inlined;
    InlinedStep(s);
  }

  // ---------------------------------------------------------------- lines that go on

  /** A backslash at the end of a line joins it with the next one. */
  lemma {:induction false} LineGoesOn(x: string, rest: string)
    requires IsLine(x)
    ensures FirstLine(x + "\\\n" + rest) == WithFront(x, FirstLine(rest))
    decreases |x|
  {
    var t, more := x + "\\\n" + rest, FirstLine(rest);
    if x == "" {
      assert t[2..] == rest;
      assert "" + more.line == more.line;
    } else {
      var k := if x[0] == '\\' then 2 else 1;
      assert IsLine(x[k..]) && k <= |x| && x[k - 1] != '\n';
      LineGoesOn(x[k..], rest);
      hide IsLine, FirstLine;
      Moved(x, k, "\\\n" + rest);
      assert x + ("\\\n" + rest) == t && x[k..] + ("\\\n" + rest) == x[k..] + "\\\n" + rest;
      FirstOfLine(t, k);
      assert x[..k] + (x[k..] + more.line) == x + more.line;
    }
  }

  lemma {:induction false} Moved(x: string, k: nat, y: string)
    requires k <= |x|
    ensures (x + y)[..k] == x[..k] && (x + y)[k..] == x[k..] + y
  {
  }

  lemma {:induction false} FirstOfLine(t: string, k: nat)
    requires t != "" && t[0] != '\n' && k == (if t[0] == '\\' then 2 else 1) && k <= |t| && t[k - 1] != '\n'
    ensures FirstLine(t) == WithFront(t[..k], FirstLine(t[k..]))
  {
  }

  // ---------------------------------------------------------------- commands

  /** A backslash that is not escaped itself comes before the place `k`. */
  predicate Escaped(line: string, k: nat)
    requires k <= |line|
  {
    k > 2 && line[k - 1] == '\\' && !Escaped(line, k - 1)
  }

  /** How many marks of this kind are before `k`, without the escaped ones. */
  function Marks(line: string, k: nat, mark: char): nat
    requires k <= |line|
  {
    if k <= 2 then 0
    else Marks(line, k - 1, mark) + if line[k - 1] == mark && !Escaped(line, k - 1) then 1 else 0
  }

  predicate IsOdd(n: nat) {
    n % 2 == 1
  }

  /** The parenthesis at `k` closes the command: it is not escaped, and all quotations before it are closed. */
  predicate ClosedAt(line: string, k: nat)
    requires k < |line|
  {
    line[k] == ')' && !Escaped(line, k) && !IsOdd(Marks(line, k, '\'')) && !IsOdd(Marks(line, k, '"'))
  }

  lemma {:induction false} CommandFrom(line: string, k: nat)
    requires 2 <= k <= |line|
    ensures var n := CommandLength(line, k, Escaped(line, k), IsOdd(Marks(line, k, '\'')), IsOdd(Marks(line, k, '"')));
      && (forall j :: k <= j < n - 1 ==> !ClosedAt(line, j))
      && (n == |line| || (n > k && ClosedAt(line, n - 1)))
      && (n == |line| > k && !ClosedAt(line, n - 1) ==> forall j :: k <= j < |line| ==> !ClosedAt(line, j))
    decreases |line| - k
  {
    if k < |line| && !ClosedAt(line, k) {
      CommandFrom(line, k + 1);
    }
  }

  /** A command ends behind the first parenthesis that closes it, or with the line if there is none. */
  lemma {:induction false} CommandEndsWhereClosed(line: string)
    requires IsCommand(line)
    ensures var n := FeedLength(line);
      if exists j :: 2 <= j < |line| && ClosedAt(line, j) then
        n > 2 && ClosedAt(line, n - 1) && forall j :: 2 <= j < n - 1 ==> !ClosedAt(line, j)
      else n == |line|
  {
    hide CommandLength, ClosedAt;
    CommandFrom(line, 2);
    assert !Escaped(line, 2) && Marks(line, 2, '\'') == Marks(line, 2, '"') == 0;
  }

  // ---------------------------------------------------------------- what a line does

  /** The settings of a feed line. */
  function OwnSettings(line: string): string {
    match NameToken(Trim(line[FeedLength(line)..]))
    case Unclosed => ""
    case Token(_, rest) => SettingsOf(rest)
  }

  function One(setting: string): seq<string> {
    if setting == "" then [] else [setting]
  }

  lemma {:induction false} ThreeInOrder(a: string, b: string, c: string)
    ensures NonEmpty([a, b, c]) == One(a) + One(b) + One(c)
  {
    assert [a, b, c][..2] == [a, b] && [a, b][..1] == [a] && [a][..0] == [];
    assert NonEmpty([a]) == [] + One(a) == One(a);
    assert NonEmpty([a, b]) == One(a) + One(b);
  }

  /** The settings for all feeds come first, then those of the section, and those of the feed itself last, so
      that they prevail. */
  lemma {:induction false} OwnSettingsPrevail(p: Parser, line: string, world: World)
    requires ParserOk(p) && p.Parser? && AfterFeed(p, line, world).Parser?
    ensures var feeds, own := AfterFeed(p, line, world).store.feeds, OwnSettings(line);
      var k := FindFeed(p.store.feeds, line[..FeedLength(line)]);
      && k < |feeds|
      && feeds[k].settings == (if k < |p.store.feeds| then p.store.feeds[k].settings else [])
           + One(p.globalSettings) + One(p.sectionSettings) + One(own)
      && (own != "" ==> feeds[k].settings != [] && feeds[k].settings[|feeds[k].settings| - 1] == own)
  {
    hide NonEmpty, Trim, FeedLength, NameToken, IsValidUrl, Accepted, NewName, Listed, SettingsOf;
    var url, own := line[..FeedLength(line)], OwnSettings(line);
    ThreeInOrder(p.globalSettings, p.sectionSettings, own);
    var k := FindFeed(p.store.feeds, url);
    var was := if k < |p.store.feeds| then p.store.feeds[k].settings else [];
    assert was + One(p.globalSettings) + One(p.sectionSettings) + One(own)
      == was + (One(p.globalSettings) + One(p.sectionSettings) + One(own));
    assert [] + (One(p.globalSettings) + One(p.sectionSettings) + One(own))
      == One(p.globalSettings) + One(p.sectionSettings) + One(own);
  }

  /** A feed that is given again keeps its place and its name and moves to the section; a new one is added at
      the end, named after the line or else after its title. All other feeds stay as they are. */
  lemma {:induction false} FeedIsPlaced(s: Store, url: string, name: string, section: nat, settings: seq<string>, world: World)
    requires section < |s.sections|
    ensures var feeds, k := WithFeed(s, url, name, section, settings, world).feeds, FindFeed(s.feeds, url);
      && |feeds| == (if k < |s.feeds| then |s.feeds| else |s.feeds| + 1)
      && (forall j :: 0 <= j < |s.feeds| && j != k ==> feeds[j] == s.feeds[j])
      && feeds[k].url == url && feeds[k].section == section
      && feeds[k].name == (if k < |s.feeds| then s.feeds[k].name
                           else Inlined(if name == "" then world.titles(url) else name))
    ensures url in WithFeed(s, url, name, section, settings, world).sections[section].urls
  {
    hide Inlined;
  }

  /** Something else than settings follows the name, or the name is not closed. */
  predicate IsBadTail(tail: string) {
    match NameToken(Trim(tail))
    case Unclosed => true
    case Token(_, rest) => rest != "" && rest[0] in {'[', '{'}
  }

  /** Exactly when a line is refused: behind the section or the feed stands a name that is not closed or
      something deprecated, the address has no known scheme, or a line of settings that applies is bad. Empty
      lines and comments never are. */
  lemma {:induction false} LineIsRefusedIff(p: Parser, raw: string, world: World)
    requires ParserOk(p) && p.Parser?
    ensures var line := Trim(raw);
      AfterLine(p, raw, world).Failed? <==>
        && line != "" && line[0] != '#'
        && if line[0] == '@' then IsBadTail(line[1 + Before(line[1..], IsBracket)..])
           else
             || (!IsCommand(line) && !IsValidUrl(line[..FeedLength(line)]))
             || IsBadTail(line[FeedLength(line)..])
             || !world.accepts(p.globalSettings) || !world.accepts(p.sectionSettings) || !world.accepts(OwnSettings(line))
  {
    hide NonEmpty, Trim, FeedLength, NameToken, IsValidUrl, WithFeed, SettingsOf, IsCommand;
    var line := Trim(raw);
    if line != "" && line[0] !in {'#', '@'} {
      ThreeAccepted(p.globalSettings, p.sectionSettings, OwnSettings(line), world);
    }
  }

  lemma {:induction false} ThreeAccepted(a: string, b: string, c: string, world: World)
    ensures Accepted([a, b, c], world) <==> world.accepts(a) && world.accepts(b) && world.accepts(c)
  {
    var lines := [a, b, c];
    assert Accepted(lines, world) ==> world.accepts(lines[0]) && world.accepts(lines[1]) && world.accepts(lines[2]);
  }

  /** A section line makes its section the current one, adds it at the end if it is new, and replaces the
      settings of the section before. Those of the first section, the global one, are for all feeds from then
      on. */
  lemma {:induction false} SectionIsEntered(p: Parser, line: string)
    requires ParserOk(p) && p.Parser? && line != "" && line[0] == '@' && AfterSection(p, line).Parser?
    ensures var q, name := AfterSection(p, line), SectionName(line);
      var tail := NameToken(Trim(line[1 + Before(line[1..], IsBracket)..]));
      && q.store.feeds == p.store.feeds && q.added == p.added
      && q.section < |q.store.sections| && q.store.sections[q.section].name == name
      && p.store.sections <= q.store.sections
      && |q.store.sections| == |p.store.sections| + (if q.section < |p.store.sections| then 0 else 1)
      && (forall k :: 0 <= k < q.section ==> q.store.sections[k].name != name)
      && tail.Token? && q.sectionSettings == SettingsOf(tail.rest)
      && q.globalSettings == p.globalSettings + if q.section == 0 then SettingsOf(tail.rest) else ""
  {
    hide Trim, NameToken, SectionName, Before, SettingsOf;
    var name := SectionName(line);
    if FindSection(p.store.sections, name) < |p.store.sections| {
    } else {
      assert WithSection(p.store, name).sections[|p.store.sections|].name == name;
    }
    assert p.globalSettings + "" == p.globalSettings;
  }

  /** What stands behind `<` are the settings, with a name before it or without. */
  lemma {:induction false} SettingsAreBehindAngle(url: string, name: string, text: string)
    requires GoodUrl(url) && '"' !in name && text != "" && !IsSpace(text[|text| - 1])
    ensures OwnSettings(url + " <" + text) == text
    ensures OwnSettings(url + " \"" + name + "\" <" + text) == text
  {
    hide FeedLength, IsCommand, GoodUrl, NameToken, Trim;
    var plain, named := " <" + text, " \"" + name + "\" <" + text;
    UrlToken(url, plain);
    UrlToken(url, named);
    assert url + " <" + text == url + plain && url + " \"" + name + "\" <" + text == url + named;
    assert (url + plain)[|url|..] == plain && (url + named)[|url|..] == named;
    TrimSpaceBefore("<" + text);
    TrimmedStays("<" + text);
    assert plain == " " + ("<" + text);
    var quoted := "\"" + name + "\" <" + text;
    assert named == " " + quoted;
    TrimSpaceBefore(quoted);
    TrimmedStays(quoted);
    AngleWithoutName(text);
    AngleBehindName(name, text);
    assert ("<" + text)[1..] == text;
  }

  lemma {:induction false} AngleWithoutName(text: string)
    requires Trim("<" + text) == "<" + text
    ensures NameToken("<" + text) == Token("", "<" + text)
  {
    hide Trim;
  }

  lemma {:induction false} AngleBehindName(name: string, text: string)
    requires '"' !in name && Trim(" " + ("<" + text)) == "<" + text
    ensures NameToken("\"" + name + "\" <" + text) == Token(name, "<" + text)
  {
    hide Trim;
    var line := "\"" + name + "\" <" + text;
    assert line[1..] == name + "\" <" + text;
    BeforeAt(line[1..], IsQuote, |name|);
    assert line[1..|name| + 1] == name;
    assert line[|name| + 2..] == " " + ("<" + text);
  }

  // ---------------------------------------------------------------- the written file

  lemma {:induction false} FeedLinesIff(feeds: seq<Feed>, k: nat)
    ensures FeedLines(feeds, k) != [] <==> HasFeed(feeds, k)
    decreases |feeds|
  {
    if feeds != [] {
      var n := |feeds| - 1;
      FeedLinesIff(feeds[..n], k);
      if i :| 0 <= i < |feeds| && feeds[i].section == k {
        assert i < n ==> feeds[..n][i].section == k;
      }
      if i :| 0 <= i < n && feeds[..n][i].section == k {
        assert feeds[i].section == k;
      }
    }
  }

  /** Every section but the global one has its head, and an empty line before it unless the file begins with
      it. */
  lemma {:induction false} HeadIsSeparated(s: Store, k: nat)
    requires 1 <= k < |s.sections|
    ensures HeadLines(s, k) == (if LinesBefore(s, k) != [] then [""] else []) + ["@ " + s.sections[k].name]
  {
    hide HasFeed;
    FeedLinesIff(s.feeds, 0);
    assert k == 1 ==> LinesBefore(s, 1) == LinesBefore(s, 0) + [] + FeedLines(s.feeds, 0);
    assert k > 1 ==> HeadLines(s, k - 1) != [];
  }
}
