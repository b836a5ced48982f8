/** Reading back a written feeds file, and what holds after reading any. */
module FeedsTheorems {
  import opened FeedsModel

  // ---------------------------------------------------------------- lines

  lemma {:induction false} FirstLineOf(x: string, rest: string)
    requires IsLine(x)
    ensures FirstLine(x + "\n" + rest) == Reading(x, More(rest))
    decreases |x|
  {
    var t := x + "\n" + rest;
    if x == "" {
      assert t[1..] == rest;
    } else if x[0] != '\\' {
      assert t[1..] == x[1..] + "\n" + rest && t[..1] == x[..1];
      FirstLineOf(x[1..], rest);
      assert x == x[..1] + x[1..];
    } else {
      assert t[2..] == x[2..] + "\n" + rest && t[..2] == x[..2] && t[1] == x[1];
      FirstLineOf(x[2..], rest);
      assert x == x[..2] + x[2..];
    }
  }

  lemma {:induction false} TextCons(x: string, lines: seq<string>)
    ensures Text([x] + lines) == x + "\n" + Text(lines)
    decreases |lines|
  {
    if lines == [] {
      assert [x][..0] == [];
      assert Text([x]) == "" + x + "\n";
      assert [x] + [] == [x];
      assert Text([]) == "";
    } else {
      var n := |lines| - 1;
      TextCons(x, lines[..n]);
      assert ([x] + lines)[..n + 1] == [x] + lines[..n];
    }
  }

  /** Printed lines are read as they are. */
  lemma {:induction false} LinesOfText(lines: seq<string>)
    requires forall k :: 0 <= k < |lines| ==> IsLine(lines[k])
    ensures Lines(Text(lines)) == lines + [""]
    decreases |lines|
  {
    hide FirstLine, Text;
    if lines == [] {
      NoText();
    } else {
      var x, rest := lines[0], lines[1..];
      assert lines == [x] + rest;
      TextCons(x, rest);
      FirstLineOf(x, Text(rest));
      LinesOfText(rest);
    }
  }

  lemma {:induction false} NoText()
    ensures Text([]) == "" && FirstLine("") == Reading("", End)
  {
  }

  lemma {:induction false} AfterLinesConcat(p: Parser, a: seq<string>, b: seq<string>, world: World)
    requires ParserOk(p)
    ensures AfterLines(p, a + b, world) == AfterLines(AfterLines(p, a, world), b, world)
    decreases |b|
  {
    if b == [] {
      assert a + b == a;
    } else {
      AfterLinesConcat(p, a, b[..|b| - 1], world);
      assert (a + b)[..|a + b| - 1] == a + b[..|b| - 1];
    }
  }

  // ---------------------------------------------------------------- strings

  lemma {:induction false} TrimmedStays(s: string)
    requires s == "" || (!IsSpace(s[0]) && !IsSpace(s[|s| - 1]))
    ensures Trim(s) == s
  {
  }

  lemma {:induction false} TrimSpaceBefore(s: string)
    ensures TrimLeft(" " + s) == TrimLeft(s) && Trim(" " + s) == Trim(s)
  {
    assert (" " + s)[1..] == s;
  }

  lemma {:induction false} BeforeAt(s: string, stop: char -> bool, k: nat)
    requires k <= |s| && (k < |s| ==> stop(s[k])) && forall j :: 0 <= j < k ==> !stop(s[j])
    ensures Before(s, stop) == k
  {
    var b := Before(s, stop);
    assert b < |s| ==> stop(s[b]);
  }

  lemma {:induction false} InlinedHasNoOtherSpace(s: string)
    ensures forall k :: 0 <= k < |Inlined(s)| ==> (IsSpace(Inlined(s)[k]) ==> Inlined(s)[k] == ' ')
    decreases |s|
  {
    if s != "" {
      InlinedHasNoOtherSpace(s[..|s| - 1]);
    }
  }

  // ---------------------------------------------------------------- one line

  lemma {:induction false} UrlStarts(url: string)
    requires IsValidUrl(url)
    ensures url != "" && url[0] in {'h', 'f', 'g'}
  {
  }

  lemma {:induction false} NameTokenOf(name: string)
    requires '"' !in name
    ensures NameToken("\"" + name + "\"") == Token(name, "")
  {
    var line := "\"" + name + "\"";
    assert line[1..] == name + "\"";
    BeforeAt(line[1..], IsQuote, |name|);
    assert line[1..|name| + 1] == name && line[|name| + 2..] == "";
  }

  lemma {:induction false} QuotedNameParts(name: string)
    requires '"' !in name
    ensures NameToken(Trim(" \"" + name + "\"")) == Token(name, "")
  {
    var quoted := "\"" + name + "\"";
    assert " \"" + name + "\"" == " " + quoted;
    TrimSpaceBefore(quoted);
    TrimmedStays(quoted);
    NameTokenOf(name);
  }

  /** A command ends where it is closed, whatever follows. */
  lemma {:induction false} CommandEnds(url: string, rest: string, k: nat, escaped: bool, single: bool, double: bool)
    requires k <= |url| && Closes(url, k, escaped, single, double)
    ensures CommandLength(url + rest, k, escaped, single, double) == |url|
    ensures url != "" && url[|url| - 1] == ')'
    decreases |url| - k
  {
    var line := url + rest;
    assert k < |url| && line[k] == url[k];
    if escaped {
      CommandEnds(url, rest, k + 1, false, single, double);
    } else if url[k] == '\\' {
      CommandEnds(url, rest, k + 1, true, single, double);
    } else if url[k] == '\'' {
      CommandEnds(url, rest, k + 1, false, !single, double);
    } else if url[k] == '"' {
      CommandEnds(url, rest, k + 1, false, single, !double);
    } else if url[k] == ')' && !single && !double {
    } else {
      CommandEnds(url, rest, k + 1, false, single, double);
    }
  }

  /** The first token of a line is the address or the command, when nothing or a space follows. */
  lemma {:induction false} UrlToken(url: string, rest: string)
    requires GoodUrl(url) && (rest == "" || rest[0] == ' ')
    ensures FeedLength(url + rest) == |url| && (IsCommand(url + rest) || IsValidUrl(url))
    ensures url != "" && url[0] !in {'#', '@'} && !IsSpace(url[0]) && !IsSpace(url[|url| - 1])
  {
    hide CommandLength, Closes, Before;
    var line := url + rest;
    if IsWholeCommand(url) {
      CommandEnds(url, rest, 2, false, false, false);
    } else {
      UrlStarts(url);
      BeforeAt(line, IsSpace, |url|);
    }
  }

  /** The line of a feed is taken apart as it was put together. */
  lemma {:induction false} FeedTextParts(f: Feed, sections: nat)
    requires GoodFeed(f, sections)
    ensures var line := FeedText(f);
      && Trim(line) == line && line != "" && line[0] !in {'#', '@'}
      && FeedLength(line) == |f.url| && line[..|f.url|] == f.url && (IsCommand(line) || IsValidUrl(f.url))
      && NameToken(Trim(line[|f.url|..])) == Token(f.name, "")
  {
    hide IsValidUrl, Trim, NameToken, Inlined, GoodUrl, FeedLength, IsCommand;
    var line := FeedText(f);
    var rest := line[|f.url|..];
    assert line == f.url + rest;
    if f.name == "" {
      assert rest == "";
      NothingFollows();
    } else {
      assert rest == " \"" + f.name + "\"";
      QuotedNameParts(f.name);
    }
    UrlToken(f.url, rest);
    TrimmedStays(line);
  }

  lemma {:induction false} FeedLineParsed(p: Parser, f: Feed, world: World)
    requires ParserOk(p) && p.Parser? && GoodFeed(f, |p.store.sections|)
    requires p.globalSettings == p.sectionSettings == "" && world.accepts("")
    ensures AfterLine(p, FeedText(f), world) ==
      p.(store := WithFeed(p.store, f.url, f.name, p.section, [], world), added := true)
  {
    NoSettings();
    hide FeedText, Trim, FeedLength, NameToken, GoodFeed, IsValidUrl, IsCommand, WithFeed;
    FeedTextParts(f, |p.store.sections|);
  }

  lemma {:induction false} NoSettings()
    ensures NonEmpty(["", "", ""]) == [] && SettingsOf("") == ""
  {
    assert ["", "", ""][..2] == ["", ""] && ["", ""][..1] == [""] && [""][..0] == [];
  }

  lemma {:induction false} NewFeedAdded(s: Store, f: Feed, world: World)
    requires f.section < |s.sections| && IsNewUrl(s.feeds, f.url) && Inlined(f.name) == f.name
    ensures WithFeed(s, f.url, f.name, f.section, [], world).feeds == s.feeds + [Rename(f, world)]
    ensures Names(WithFeed(s, f.url, f.name, f.section, [], world).sections) == Names(s.sections)
  {
    hide Inlined;
  }

  lemma {:induction false} FeedLineRead(p: Parser, f: Feed, world: World)
    requires ParserOk(p) && p.Parser? && f.section == p.section && GoodFeed(f, |p.store.sections|)
    requires IsNewUrl(p.store.feeds, f.url) && p.globalSettings == p.sectionSettings == "" && world.accepts("")
    ensures var q := AfterLine(p, FeedText(f), world);
      && q.Parser? && q.globalSettings == q.sectionSettings == "" && q.section == p.section && q.added
      && q.store.feeds == p.store.feeds + [Rename(f, world)]
      && Names(q.store.sections) == Names(p.store.sections)
  {
    hide FeedText, AfterLine, WithFeed, GoodFeed;
    GoodFeedFacts(f, |p.store.sections|);
    FeedLineParsed(p, f, world);
    NewFeedAdded(p.store, f, world);
  }

  lemma {:induction false} GoodFeedFacts(f: Feed, sections: nat)
    requires GoodFeed(f, sections)
    ensures Inlined(f.name) == f.name
  {
  }

  lemma {:induction false} HeadParts(name: string)
    requires GoodSection(name)
    ensures var line := Trim("@ " + name);
      && line != "" && line[0] == '@' && SectionName(line) == name
      && 1 + Before(line[1..], IsBracket) == |line|
  {
    var line := "@" + if name == "" then "" else " " + name;
    if name == "" {
      assert "@ " + name == "@ ";
      TrimHead();
      assert line[1..] == "";
    } else {
      TrimmedEnds(name);
      assert "@ " + name == line;
      TrimmedStays(line);
      assert line[1..] == " " + name;
      BeforeAt(line[1..], IsBracket, |line| - 1);
      assert line[1..|line|] == line[1..];
      TrimSpaceBefore(name);
    }
  }

  lemma {:induction false} TrimHead()
    ensures Trim("@ ") == "@"
  {
    assert TrimLeft("@ ") == "@ ";
    assert "@ "[..1] == "@";
  }

  lemma {:induction false} TrimmedEnds(s: string)
    requires Trim(s) == s && s != ""
    ensures !IsSpace(s[|s| - 1])
  {
  }

  lemma {:induction false} HeadLineRead(p: Parser, name: string, world: World)
    requires ParserOk(p) && p.Parser? && GoodSection(name) && name !in Names(p.store.sections)
    requires p.globalSettings == ""
    ensures var q := AfterLine(p, "@ " + name, world);
      && q.Parser? && q.globalSettings == q.sectionSettings == "" && q.section == |p.store.sections| && q.added == p.added
      && q.store.feeds == p.store.feeds
      && Names(q.store.sections) == Names(p.store.sections) + [name]
  {
    hide Trim, SectionName, Before, GoodSection;
    HeadParts(name);
    var line := Trim("@ " + name);
    assert line[1 + Before(line[1..], IsBracket)..] == "";
    NothingFollows();
    assert forall k :: 0 <= k < |p.store.sections| ==> Names(p.store.sections)[k] == p.store.sections[k].name;
  }

  lemma {:induction false} NothingFollows()
    ensures NameToken(Trim("")) == Token("", "")
  {
    assert Trim("") == "";
  }

  lemma {:induction false} BlankLineRead(p: Parser, world: World)
    requires ParserOk(p)
    ensures AfterLine(p, "", world) == p
  {
    assert Trim("") == "";
  }

  // ---------------------------------------------------------------- the whole file

  /** What the parser has when it has read the first sections, and of the next one the feeds among the
      first `i`. */
  predicate ReadSoFar(p: Parser, s: Store, k: nat, i: nat, world: World)
    requires k < |s.sections| && i <= |s.feeds|
  {
    && p.Parser? && p.section == k && p.globalSettings == p.sectionSettings == ""
    && Names(p.store.sections) == Names(s.sections)[..k + 1]
    && p.store.feeds == Renamed(Grouped(s.feeds, k) + InSection(s.feeds[..i], k), world)
    && (p.added <==> p.store.feeds != [])
  }

  lemma {:induction false} GroupedAreEarlier(feeds: seq<Feed>, k: nat)
    ensures forall j :: 0 <= j < |Grouped(feeds, k)| ==> Grouped(feeds, k)[j].section < k && Grouped(feeds, k)[j] in feeds
    decreases k
  {
    if k > 0 { GroupedAreEarlier(feeds, k - 1); }
  }

  lemma {:induction false} RenamedSnoc(feeds: seq<Feed>, f: Feed, world: World)
    ensures Renamed(feeds + [f], world) == Renamed(feeds, world) + [Rename(f, world)]
  {
  }

  predicate IsNewUrl(feeds: seq<Feed>, url: string) {
    forall j :: 0 <= j < |feeds| ==> feeds[j].url != url
  }

  /** The next feed has not been read yet. */
  lemma {:induction false} NextFeedIsNew(s: Store, global: string, k: nat, i: nat)
    requires Good(s, global) && i < |s.feeds| && s.feeds[i].section == k
    ensures IsNewUrl(Grouped(s.feeds, k) + InSection(s.feeds[..i], k), s.feeds[i].url)
  {
    hide Good, Grouped, InSection;
    var earlier, same := Grouped(s.feeds, k), InSection(s.feeds[..i], k);
    GroupedAreEarlier(s.feeds, k);
    forall j | 0 <= j < |earlier| ensures earlier[j].url != s.feeds[i].url {
      OtherUrl(s, global, earlier[j], i);
    }
    forall j | 0 <= j < |same| ensures same[j].url != s.feeds[i].url {
      assert same[j] in s.feeds[..i];
      EarlierUrl(s, global, same[j], i);
    }
  }

  lemma {:induction false} OtherUrl(s: Store, global: string, f: Feed, i: nat)
    requires Good(s, global) && i < |s.feeds| && f in s.feeds && f.section != s.feeds[i].section
    ensures f.url != s.feeds[i].url
  {
    hide GoodFeed, GoodSection;
    var m :| 0 <= m < |s.feeds| && s.feeds[m] == f;
    assert m != i;
  }

  lemma {:induction false} EarlierUrl(s: Store, global: string, f: Feed, i: nat)
    requires Good(s, global) && i < |s.feeds| && f in s.feeds[..i]
    ensures f.url != s.feeds[i].url
  {
    hide GoodFeed, GoodSection;
    var m :| 0 <= m < i && s.feeds[..i][m] == f;
    assert s.feeds[m] == f;
  }

  lemma {:induction false} FeedLinesRead(p: Parser, s: Store, global: string, k: nat, i: nat, world: World)
    requires Good(s, global) && k < |s.sections| && i <= |s.feeds| && ReadSoFar(p, s, k, 0, world) && world.accepts("")
    requires ParserOk(p)
    ensures ReadSoFar(AfterLines(p, FeedLines(s.feeds[..i], k), world), s, k, i, world)
    decreases i
  {
    hide Good, AfterLine, Grouped, FeedText, Rename;
    if i > 0 {
      FeedLinesRead(p, s, global, k, i - 1, world);
      assert s.feeds[..i][..i - 1] == s.feeds[..i - 1];
      if s.feeds[i - 1].section == k {
        OneFeedRead(AfterLines(p, FeedLines(s.feeds[..i - 1], k), world), s, global, k, i - 1, world);
        assert FeedLines(s.feeds[..i], k) == FeedLines(s.feeds[..i - 1], k) + [FeedText(s.feeds[i - 1])];
        assert FeedLines(s.feeds[..i], k)[..|FeedLines(s.feeds[..i], k)| - 1] == FeedLines(s.feeds[..i - 1], k);
      } else {
        assert FeedLines(s.feeds[..i], k) == FeedLines(s.feeds[..i - 1], k);
        assert InSection(s.feeds[..i], k) == InSection(s.feeds[..i - 1], k);
      }
    } else {
      assert s.feeds[..0] == [];
    }
  }

  lemma {:induction false} OneFeedRead(p: Parser, s: Store, global: string, k: nat, i: nat, world: World)
    requires Good(s, global) && k < |s.sections| && i < |s.feeds| && ReadSoFar(p, s, k, i, world)
    requires ParserOk(p) && s.feeds[i].section == k && world.accepts("")
    ensures ReadSoFar(AfterLine(p, FeedText(s.feeds[i]), world), s, k, i + 1, world)
  {
    hide AfterLine, Grouped, FeedText, Rename, GoodFeed, GoodSection;
    var before := Grouped(s.feeds, k) + InSection(s.feeds[..i], k);
    NextFeedIsNew(s, global, k, i);
    assert s.feeds[..i + 1][..i] == s.feeds[..i];
    assert Grouped(s.feeds, k) + InSection(s.feeds[..i + 1], k) == before + [s.feeds[i]];
    RenamedSnoc(before, s.feeds[i], world);
    StillNewUrl(before, s.feeds[i].url, world);
    GoodFeedStill(s.feeds[i], |s.sections|, k, |p.store.sections|);
    FeedLineRead(p, s.feeds[i], world);
  }

  lemma {:induction false} StillNewUrl(feeds: seq<Feed>, url: string, world: World)
    requires IsNewUrl(feeds, url)
    ensures IsNewUrl(Renamed(feeds, world), url)
  {
  }

  lemma {:induction false} GoodFeedStill(f: Feed, sections: nat, k: nat, fewer: nat)
    requires GoodFeed(f, sections) && f.section == k < fewer
    ensures GoodFeed(f, fewer)
  {
  }

  lemma {:induction false} NextNameIsNew(s: Store, global: string, k: nat)
    requires Good(s, global) && k + 1 < |s.sections|
    ensures GoodSection(s.sections[k + 1].name) && s.sections[k + 1].name !in Names(s.sections)[..k + 1]
    ensures Names(s.sections)[..k + 2] == Names(s.sections)[..k + 1] + [s.sections[k + 1].name]
  {
    assert forall j :: 0 <= j <= k ==> Names(s.sections)[..k + 1][j] == s.sections[j].name;
  }

  lemma {:induction false} NextGroup(feeds: seq<Feed>, k: nat)
    ensures Grouped(feeds, k + 1) + InSection(feeds[..0], k + 1) == Grouped(feeds, k) + InSection(feeds[..|feeds|], k)
  {
    assert feeds[..|feeds|] == feeds && feeds[..0] == [];
  }

  lemma {:induction false} HeadRead(p: Parser, s: Store, global: string, k: nat, world: World)
    requires Good(s, global) && k + 1 < |s.sections| && ReadSoFar(p, s, k, |s.feeds|, world) && ParserOk(p)
    ensures ReadSoFar(AfterLines(p, HeadLines(s, k + 1), world), s, k + 1, 0, world)
  {
    hide AfterLine, AfterLines, Renamed, Good, Grouped, InSection, GoodSection;
    var name := s.sections[k + 1].name;
    NextGroup(s.feeds, k);
    NextNameIsNew(s, global, k);
    HeadLineRead(p, name, world);
    BlankLineRead(p, world);
    HeadIsOneOrTwo(p, "@ " + name, world);
  }

  lemma {:induction false} HeadIsOneOrTwo(p: Parser, head: string, world: World)
    requires ParserOk(p) && AfterLine(p, "", world) == p
    ensures AfterLines(p, [] + [head], world) == AfterLine(p, head, world)
    ensures AfterLines(p, [""] + [head], world) == AfterLine(p, head, world)
  {
    hide AfterLine;
    assert AfterLines(p, [], world) == p;
    assert ([] + [head])[..0] == [];
    assert [""][..0] == [] && AfterLines(p, [""], world) == p;
    assert ([""] + [head])[..1] == [""];
  }

  /** After the lines of the sections before `k` and the head of `k`. */
  lemma {:induction false} SectionsRead(s: Store, global: string, k: nat, world: World)
    requires Good(s, global) && k < |s.sections| && world.accepts("")
    ensures ReadSoFar(AfterLines(Fresh(global), LinesBefore(s, k) + HeadLines(s, k), world), s, k, 0, world)
    decreases k
  {
    hide AfterLines, HeadLines, FeedLines, GoodFeed, GoodSection;
    var p := Fresh(global);
    if k == 0 {
      NoHead(s);
      NothingRead(p, world);
      assert s.feeds[..0] == [];
      assert Names(p.store.sections) == [global] == Names(s.sections)[..1];
    } else {
      var before := LinesBefore(s, k - 1) + HeadLines(s, k - 1);
      SectionsRead(s, global, k - 1, world);
      var q := AfterLines(p, before, world);
      assert s.feeds[..|s.feeds|] == s.feeds;
      FeedLinesRead(q, s, global, k - 1, |s.feeds|, world);
      AfterLinesConcat(p, before, FeedLines(s.feeds, k - 1), world);
      HeadRead(AfterLines(q, FeedLines(s.feeds, k - 1), world), s, global, k - 1, world);
      AfterLinesConcat(p, LinesBefore(s, k), HeadLines(s, k), world);
    }
  }

  lemma {:induction false} NoHead(s: Store)
    requires s.sections != []
    ensures LinesBefore(s, 0) + HeadLines(s, 0) == []
  {
  }

  lemma {:induction false} NothingRead(p: Parser, world: World)
    requires ParserOk(p)
    ensures AfterLines(p, [], world) == p
  {
  }

  lemma {:induction false} AllLinesAreLines(s: Store, global: string, k: nat)
    requires Good(s, global) && k <= |s.sections|
    ensures forall j :: 0 <= j < |LinesBefore(s, k)| ==> IsLine(LinesBefore(s, k)[j])
    decreases k
  {
    hide Good, IsLine, HasFeed;
    if k > 0 {
      AllLinesAreLines(s, global, k - 1);
      FeedLinesAreLines(s, global, k - 1, |s.feeds|);
      assert s.feeds[..|s.feeds|] == s.feeds;
      if k > 1 { HeadIsLine(s, global, k - 1); }
    }
  }

  lemma {:induction false} HeadIsLine(s: Store, global: string, k: nat)
    requires Good(s, global) && 1 <= k < |s.sections|
    ensures IsLine("") && IsLine("@ " + s.sections[k].name)
  {
    var name := s.sections[k].name;
    assert GoodSection(name);
    assert ("@ " + name)[1..] == " " + name && (" " + name)[1..] == name;
  }

  lemma {:induction false} FeedLinesAreLines(s: Store, global: string, k: nat, i: nat)
    requires Good(s, global) && i <= |s.feeds|
    ensures forall j :: 0 <= j < |FeedLines(s.feeds[..i], k)| ==> IsLine(FeedLines(s.feeds[..i], k)[j])
    decreases i
  {
    hide IsLine, GoodFeed, FeedText;
    if i > 0 {
      FeedLinesAreLines(s, global, k, i - 1);
      FeedIsLine(s.feeds[i - 1], |s.sections|);
      assert s.feeds[..i][..i - 1] == s.feeds[..i - 1];
    }
  }

  /** A quotation mark at the end of a line cannot be taken for the end of a lone backslash. */
  lemma {:induction false} QuotedIsNotDangling(x: string)
    ensures !Dangling(x + "\"")
    decreases |x|
  {
    var t := x + "\"";
    if x == "" {
      assert t == "\"";
    } else if x[0] != '\\' {
      assert t[1..] == x[1..] + "\"";
      QuotedIsNotDangling(x[1..]);
    } else if |x| > 1 {
      assert t[2..] == x[2..] + "\"";
      QuotedIsNotDangling(x[2..]);
    }
  }

  lemma {:induction false} FeedIsLine(f: Feed, sections: nat)
    requires GoodFeed(f, sections)
    ensures IsLine(FeedText(f))
  {
    hide IsValidUrl, Dangling, Inlined, Closes, IsCommand;
    if f.name != "" {
      InlinedHasNoOtherSpace(f.name);
      assert FeedText(f) == f.url + " \"" + f.name + "\"";
      QuotedIsNotDangling(f.url + " \"" + f.name);
    }
  }

  lemma {:induction false} AllSectionsRead(s: Store, global: string, world: World)
    requires Good(s, global) && world.accepts("")
    ensures ReadSoFar(AfterLines(Fresh(global), LinesBefore(s, |s.sections|), world), s, |s.sections| - 1, |s.feeds|, world)
  {
    hide AfterLines, HeadLines, FeedLines, Good, ReadSoFar, Fresh;
    NotEmpty(s, global);
    var n, p := |s.sections| - 1, Fresh(global);
    var before := LinesBefore(s, n) + HeadLines(s, n);
    SectionsRead(s, global, n, world);
    FeedLinesRead(AfterLines(p, before, world), s, global, n, |s.feeds|, world);
    assert s.feeds[..|s.feeds|] == s.feeds;
    AfterLinesConcat(p, before, FeedLines(s.feeds, n), world);
  }

  lemma {:induction false} NotEmpty(s: Store, global: string)
    requires Good(s, global)
    ensures s.sections != [] && s.feeds != [] && ParserOk(Fresh(global))
    ensures forall i :: 0 <= i < |s.feeds| ==> s.feeds[i].section < |s.sections|
  {
  }

  /** What `ReadSoFar` says when everything is read. */
  lemma {:induction false} AllRead(p: Parser, s: Store, world: World)
    requires s.sections != [] && s.feeds != [] && ReadSoFar(p, s, |s.sections| - 1, |s.feeds|, world)
    requires forall i :: 0 <= i < |s.feeds| ==> s.feeds[i].section < |s.sections|
    ensures Outcome(p) == Loaded(p.store) && Names(p.store.sections) == Names(s.sections)
    ensures p.store.feeds == Renamed(Grouped(s.feeds, |s.sections|), world)
  {
    hide Grouped, InSection, Renamed;
    var n := |s.sections| - 1;
    NextGroup(s.feeds, n);
    LastGroup(s.feeds, n);
    assert Names(s.sections)[..n + 1] == Names(s.sections);
    GroupedIsPermutation(s.feeds, n + 1);
    assert |Grouped(s.feeds, n + 1)| == |multiset(Grouped(s.feeds, n + 1))| == |multiset(s.feeds)| == |s.feeds|;
    assert |Renamed(Grouped(s.feeds, n + 1), world)| == |Grouped(s.feeds, n + 1)|;
  }

  lemma {:induction false} LastGroup(feeds: seq<Feed>, k: nat)
    ensures Grouped(feeds, k + 1) == Grouped(feeds, k) + InSection(feeds[..|feeds|], k)
  {
    assert feeds[..|feeds|] == feeds;
  }

  /** A written feeds file is read back: the same sections in the same order, and the same feeds with
      their names and sections, sorted by section only. */
  lemma {:induction false} RoundTrip(s: Store, global: string, world: World)
    requires Good(s, global) && world.accepts("")
    ensures Parse(Printed(s), global, world).Loaded?
    ensures Names(Parse(Printed(s), global, world).store.sections) == Names(s.sections)
    ensures Parse(Printed(s), global, world).store.feeds == Renamed(Grouped(s.feeds, |s.sections|), world)
  {
    hide AfterLine, AfterLines, LinesBefore, Lines, Text, Good, IsLine, ReadSoFar, Outcome, Fresh, Names, Renamed, Grouped;
    var lines, p := LinesBefore(s, |s.sections|), Fresh(global);
    NotEmpty(s, global);
    AllLinesAreLines(s, global, |s.sections|);
    LinesOfText(lines);
    AllSectionsRead(s, global, world);
    var q := AfterLines(p, lines, world);
    AfterLinesConcat(p, lines, [""], world);
    BlankLineRead(q, world);
    OneLine(q, "", world);
    AllRead(q, s, world);
  }

  lemma {:induction false} OneLine(p: Parser, line: string, world: World)
    requires ParserOk(p)
    ensures AfterLines(p, [line], world) == AfterLine(p, line, world)
  {
    hide AfterLine;
    assert [line][..0] == [];
  }

  /** Sorting by section loses and invents nothing. */
  lemma {:induction false} GroupedIsPermutation(feeds: seq<Feed>, k: nat)
    requires forall i :: 0 <= i < |feeds| ==> feeds[i].section < k
    ensures multiset(Grouped(feeds, k)) == multiset(feeds)
  {
    forall f: Feed ensures multiset(Grouped(feeds, k))[f] == multiset(feeds)[f] {
      if f.section < k {
        GroupedCount(feeds, k, f);
      } else {
        GroupedAreEarlier(feeds, k);
        assert f !in Grouped(feeds, k) && f !in feeds;
      }
    }
  }

  lemma {:induction false} GroupedCount(feeds: seq<Feed>, k: nat, f: Feed)
    ensures multiset(Grouped(feeds, k))[f] == if f.section < k then multiset(feeds)[f] else 0
    decreases k
  {
    hide InSection;
    if k > 0 {
      GroupedCount(feeds, k - 1, f);
      assert multiset(Grouped(feeds, k)) == multiset(Grouped(feeds, k - 1)) + multiset(InSection(feeds, k - 1));
      InSectionCount(feeds, k - 1, f);
    }
  }

  lemma {:induction false} InSectionCount(feeds: seq<Feed>, k: nat, f: Feed)
    ensures multiset(InSection(feeds, k))[f] == if f.section == k then multiset(feeds)[f] else 0
    decreases |feeds|
  {
    if feeds != [] {
      var n := |feeds| - 1;
      InSectionCount(feeds[..n], k, f);
      assert feeds == feeds[..n] + [feeds[n]];
    }
  }

  // ---------------------------------------------------------------- after reading any file

  predicate NoneTwice(urls: seq<string>) {
    forall i, j :: 0 <= i < j < |urls| ==> urls[i] != urls[j]
  }

  predicate ListsOk(sections: seq<Section>) {
    forall k :: 0 <= k < |sections| ==> NoneTwice(sections[k].urls)
  }

  predicate NamesOk(sections: seq<Section>) {
    forall j, k :: 0 <= j < k < |sections| ==> sections[j].name != sections[k].name
  }

  predicate UrlsOk(feeds: seq<Feed>) {
    forall j, k :: 0 <= j < k < |feeds| ==> feeds[j].url != feeds[k].url
  }

  predicate SameUrls(urls: seq<string>, feeds: seq<Feed>) {
    |urls| == |feeds| && forall k :: 0 <= k < |feeds| ==> urls[k] == feeds[k].url
  }

  predicate ListedRight(f: Feed, sections: seq<Section>) {
    f.section < |sections| && f.url in sections[f.section].urls
  }

  predicate AllListed(feeds: seq<Feed>, sections: seq<Section>) {
    forall k :: 0 <= k < |feeds| ==> ListedRight(feeds[k], sections)
  }

  /** No section and no feed is there twice; every feed is listed in its section, no section lists a feed
      twice, and the global section lists all feeds in their order. */
  predicate StoreOk(s: Store) {
    && s.sections != [] && NamesOk(s.sections) && UrlsOk(s.feeds) && ListsOk(s.sections)
    && SameUrls(s.sections[0].urls, s.feeds) && AllListed(s.feeds, s.sections)
  }

  lemma {:induction false} WithSectionOk(s: Store, name: string)
    requires StoreOk(s)
    ensures StoreOk(WithSection(s, name))
    ensures FindSection(s.sections, name) < |WithSection(s, name).sections|
  {
    hide NoneTwice;
    var t := WithSection(s, name);
    assert NoneTwice([]) by { NothingTwice(); }
    forall k | 0 <= k < |t.feeds| ensures ListedRight(t.feeds[k], t.sections) {
      assert ListedRight(s.feeds[k], s.sections);
    }
  }

  lemma {:induction false} NothingTwice()
    ensures NoneTwice([])
  {
  }

  lemma {:induction false} ListedKeeps(feeds: seq<Feed>, sections: seq<Section>, k: nat, url: string)
    requires k < |sections| && ListsOk(sections) && NamesOk(sections) && AllListed(feeds, sections)
    ensures var r := Listed(sections, k, url);
      ListsOk(r) && NamesOk(r) && AllListed(feeds, r) && url in r[k].urls
      && (k != 0 || url in sections[k].urls ==> r[0] == sections[0])
      && (url !in sections[k].urls ==> r[k].urls == sections[k].urls + [url])
  {
    var r := Listed(sections, k, url);
    assert forall j :: 0 <= j < |r| ==> r[j].name == sections[j].name;
    forall j | 0 <= j < |feeds| ensures ListedRight(feeds[j], r) {
      assert ListedRight(feeds[j], sections);
    }
  }

  /** Every line of settings that was applied was in order. */
  predicate SettingsOk(feeds: seq<Feed>, world: World) {
    forall k :: 0 <= k < |feeds| ==> Accepted(feeds[k].settings, world)
  }

  lemma {:induction false} WithFeedSettings(s: Store, url: string, name: string, section: nat, settings: seq<string>, world: World)
    requires section < |s.sections| && SettingsOk(s.feeds, world) && Accepted(settings, world)
    ensures SettingsOk(WithFeed(s, url, name, section, NonEmpty(settings), world).feeds, world)
  {
    hide NewName, Listed;
    var more := NonEmpty(settings);
    assert Accepted(more, world);
    var k, t := FindFeed(s.feeds, url), WithFeed(s, url, name, section, more, world);
    forall i | 0 <= i < |t.feeds| ensures Accepted(t.feeds[i].settings, world) {
      if i < |s.feeds| { assert Accepted(s.feeds[i].settings, world); }
    }
  }

  lemma {:induction false} AddedFeedOk(s: Store, f: Feed)
    requires StoreOk(s) && IsNewUrl(s.feeds, f.url) && f.section < |s.sections|
    ensures StoreOk(Store(Listed(Listed(s.sections, 0, f.url), f.section, f.url), s.feeds + [f]))
  {
    hide ListsOk, NamesOk, Listed;
    assert f.url !in s.sections[0].urls;
    var r := Listed(s.sections, 0, f.url);
    ListedKeeps(s.feeds, s.sections, 0, f.url);
    ListedKeeps(s.feeds, r, f.section, f.url);
  }

  lemma {:induction false} MovedFeedOk(s: Store, k: nat, section: nat, settings: seq<string>)
    requires StoreOk(s) && k < |s.feeds| && section < |s.sections|
    ensures StoreOk(Store(Listed(s.sections, section, s.feeds[k].url),
                          s.feeds[k := s.feeds[k].(section := section, settings := settings)]))
  {
    hide ListsOk, NamesOk, Listed;
    assert s.sections[0].urls[k] == s.feeds[k].url;
    ListedKeeps(s.feeds, s.sections, section, s.feeds[k].url);
  }

  lemma {:induction false} WithFeedOk(s: Store, url: string, name: string, section: nat, settings: seq<string>, world: World)
    requires StoreOk(s) && section < |s.sections|
    ensures StoreOk(WithFeed(s, url, name, section, settings, world))
  {
    hide StoreOk, Listed, NewName;
    var k := FindFeed(s.feeds, url);
    if k < |s.feeds| {
      MovedFeedOk(s, k, section, s.feeds[k].settings + settings);
    } else {
      AddedFeedOk(s, Feed(url, NewName(url, name, world), section, settings));
    }
  }

  predicate LoadedSoFar(p: Parser, world: World) {
    p.Parser? ==> StoreOk(p.store) && SettingsOk(p.store.feeds, world)
  }

  lemma {:induction false} AfterFeedOk(p: Parser, line: string, world: World)
    requires ParserOk(p) && LoadedSoFar(p, world) && p.Parser?
    ensures LoadedSoFar(AfterFeed(p, line, world), world)
  {
    hide StoreOk, SettingsOk, WithFeed, Trim, NameToken, FeedLength, IsValidUrl, NonEmpty, Accepted, SettingsOf;
    match NameToken(Trim(line[FeedLength(line)..]))
    case Unclosed =>
    case Token(name, rest) =>
      var url, settings := line[..FeedLength(line)], [p.globalSettings, p.sectionSettings, SettingsOf(rest)];
      WithFeedOk(p.store, url, name, p.section, NonEmpty(settings), world);
      if Accepted(settings, world) { WithFeedSettings(p.store, url, name, p.section, settings, world); }
  }

  lemma {:induction false} AfterLineOk(p: Parser, line: string, world: World)
    requires ParserOk(p) && LoadedSoFar(p, world)
    ensures LoadedSoFar(AfterLine(p, line, world), world)
  {
    hide StoreOk, SettingsOk, WithFeed, Trim, NameToken, FeedLength, SectionName, AfterFeed;
    var x := Trim(line);
    if p.Parser? && x != "" && x[0] != '#' {
      if x[0] == '@' {
        WithSectionOk(p.store, SectionName(x));
      } else {
        AfterFeedOk(p, x, world);
      }
    }
  }

  lemma {:induction false} AfterLinesOk(p: Parser, lines: seq<string>, world: World)
    requires ParserOk(p) && LoadedSoFar(p, world)
    ensures LoadedSoFar(AfterLines(p, lines, world), world)
    decreases |lines|
  {
    hide AfterLine, LoadedSoFar;
    if lines != [] {
      AfterLinesOk(p, lines[..|lines| - 1], world);
      AfterLineOk(AfterLines(p, lines[..|lines| - 1], world), lines[|lines| - 1], world);
    }
  }

  /** Whatever the file says, if it is loaded the store is in order, and so are the settings that were
      applied to its feeds. */
  lemma {:induction false} LoadedIsOk(text: string, global: string, world: World)
    requires Parse(text, global, world).Loaded?
    ensures StoreOk(Parse(text, global, world).store)
    ensures SettingsOk(Parse(text, global, world).store.feeds, world)
  {
    hide AfterLines, Lines;
    AfterLinesOk(Fresh(global), Lines(text), world);
  }
}
