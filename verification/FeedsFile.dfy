/** The store of sections and feeds, filled from the feeds file and printed to one:
    `src/sections.c`, `src/feeds-parse.c` and `src/parse_xml/setup-opml-parser.c`. */
module FeedsFile {
  import opened FeedsModel
  import opened FeedsTheorems

  method LeftEdge(s: string) returns (left: nat)
    ensures left <= |s| && TrimLeft(s) == s[left..]
  {
    left := 0;
    while left < |s| && IsSpace(s[left])
      invariant 0 <= left <= |s| && TrimLeft(s) == TrimLeft(s[left..])
    {
      assert s[left..][1..] == s[left + 1..];
      left := left + 1;
    }
  }

  /** `trim_whitespace_from_string`. */
  method TrimWhitespace(s: string) returns (r: string)
    ensures r == Trim(s)
  {
    hide TrimLeft;
    var left := LeftEdge(s);
    var length := |s|;
    assert s[left..length] == s[left..];
    while left < length && IsSpace(s[length - 1])
      invariant left <= length <= |s| && TrimRight(s[left..]) == TrimRight(s[left..length])
    {
      assert s[left..length][..length - left - 1] == s[left..length - 1];
      length := length - 1;
    }
    r := s[left..length];
  }

  /** `inlinefy_string`. */
  method Inlinefy(s: string) returns (r: string)
    ensures r == Inlined(s)
  {
    r := "";
    for i := 0 to |s|
      invariant r == Inlined(s[..i])
    {
      assert s[..i + 1][..i] == s[..i];
      var c := if IsSpace(s[i]) then ' ' else s[i];
      if c != ' ' || r == "" || r[|r| - 1] != ' ' {
        r := r + [c];
      }
    }
    assert s[..|s|] == s;
  }

  /** `remove_start_of_string`. */
  method RemoveStart(s: string, size: nat) returns (r: string)
    ensures r == if size <= |s| then s[size..] else ""
  {
    if size >= |s| {
      r := "";
    } else {
      r := s[size..];
    }
  }

  lemma {:induction false} WithFrontTwice(a: string, b: string, r: Reading)
    ensures WithFront(a, WithFront(b, r)) == WithFront(a + b, r)
  {
    assert a + (b + r.line) == a + b + r.line;
  }

  /** Reads a line, which may run over several lines of the file, from the place `pos`. */
  method ReadLine(text: string, pos: nat) returns (line: string, p: nat, eof: bool)
    requires pos <= |text|
    ensures p <= |text| && (!eof ==> p > pos)
    ensures FirstLine(text[pos..]) == Reading(line, if eof then End else More(text[p..]))
  {
    line, p, eof := "", pos, false;
    while p < |text|
      invariant pos <= p <= |text| && !eof
      invariant FirstLine(text[pos..]) == WithFront(line, FirstLine(text[p..]))
    {
      var c := text[p];
      assert text[p..][1..] == text[p + 1..];
      assert |text[p..]| >= 2 ==> text[p..][2..] == text[p + 2..];
      ghost var before, from := line, p;
      p := p + 1;
      if c == '\n' {
        return;
      }
      if c == '\\' {
        if p < |text| {
          var next := text[p];
          p := p + 1;
          if next != '\n' {
            line := line + [c] + [next];
            assert text[from..][..2] == [c, next] && before + [c] + [next] == before + [c, next];
            WithFrontTwice(before, [c, next], FirstLine(text[p..]));
          }
        } else {
          assert FirstLine(text[from..]) == Reading("", End) == FirstLine(text[p..]);
        }
      } else {
        line := line + [c];
        assert text[from..][..1] == [c];
        WithFrontTwice(before, [c], FirstLine(text[p..]));
      }
    }
    eof := true;
  }

  /** Where a command ends. */
  method EndOfCommand(line: string) returns (len: nat)
    requires IsCommand(line)
    ensures len == CommandLength(line, 2, false, false, false)
  {
    var needEscape, inSingle, inDouble := false, false, false;
    len := 2;
    while len < |line|
      invariant 2 <= len <= |line|
      invariant CommandLength(line, 2, false, false, false) == CommandLength(line, len, needEscape, inSingle, inDouble)
    {
      if needEscape {
        needEscape := false;
      } else if line[len] == '\\' {
        needEscape := true;
      } else if line[len] == '\'' {
        inSingle := !inSingle;
      } else if line[len] == '"' {
        inDouble := !inDouble;
      } else {
        if line[len] == ')' && !inSingle && !inDouble {
          len := len + 1;
          return;
        }
      }
      len := len + 1;
    }
  }

  /** The name in quotes and the rest of the line; without a closing quote there is an error. */
  method TakeName(line: string) returns (ok: bool, name: string, rest: string)
    ensures ok <==> NameToken(line).Token?
    ensures ok ==> NameToken(line) == Token(name, rest)
  {
    hide Trim;
    name, rest := "", line;
    if line != "" && line[0] == '"' {
      var close := 1;
      while close < |line| && line[close] != '"'
        invariant 1 <= close <= |line|
        invariant Before(line[1..], IsQuote) == close - 1 + Before(line[close..], IsQuote)
      {
        assert line[close..][1..] == line[close + 1..];
        close := close + 1;
      }
      if close == |line| {
        return false, "", "";
      }
      name := line[1..close];
      rest := RemoveStart(line, close + 1);
    }
    rest := TrimWhitespace(rest);
    ok := true;
  }

  class FeedsFile {
    var sections: seq<Section>
    var feeds: seq<Feed>

    ghost function Contents(): Store
      reads this
    {
      Store(sections, feeds)
    }

    constructor ()
      ensures Contents() == Store([], [])
    {
      sections, feeds := [], [];
    }

    method MakeSureSectionExists(name: string) returns (index: nat)
      modifies `sections
      ensures Contents() == WithSection(old(Contents()), name)
      ensures index == FindSection(old(sections), name) < |sections|
    {
      for i := 0 to |sections|
        invariant FindSection(sections, name) == i + FindSection(sections[i..], name)
      {
        assert sections[i..][1..] == sections[i + 1..];
        if name == sections[i].name {
          return i;
        }
      }
      sections := sections + [Section(name, [])];
      return |sections| - 1;
    }

    /** The place of the feed among all feeds; it is added when it is not there. */
    method CopyFeedToGlobalSection(url: string, name: string, section: nat, world: World) returns (index: nat)
      requires sections != []
      modifies `sections, `feeds
      ensures index == FindFeed(old(feeds), url) < |feeds| && |sections| == |old(sections)|
      ensures index < |old(feeds)| ==> Contents() == old(Contents())
      ensures index == |old(feeds)| ==>
        Contents() == Store(Listed(old(sections), 0, url), old(feeds) + [Feed(url, NewName(url, name, world), 0, [])])
    {
      for i := 0 to |feeds|
        invariant FindFeed(feeds, url) == i + FindFeed(feeds[i..], url)
      {
        assert feeds[i..][1..] == feeds[i + 1..];
        if url == feeds[i].url {
          return i;
        }
      }
      var newName := Inlinefy(if name == "" then world.titles(url) else name);
      feeds := feeds + [Feed(url, newName, 0, [])];
      AddToList(0, url);
      return |feeds| - 1;
    }

    /** Lists the feed in the section, unless it is listed already. */
    method AddToList(section: nat, url: string)
      requires section < |sections|
      modifies `sections
      ensures sections == Listed(old(sections), section, url)
    {
      var urls := sections[section].urls;
      for i := 0 to |urls|
        invariant url !in urls[..i]
      {
        if urls[i] == url {
          return;
        }
      }
      sections := sections[section := sections[section].(urls := urls + [url])];
    }

    method CopyFeedToSection(url: string, name: string, section: nat, world: World) returns (k: nat)
      requires section < |sections|
      modifies this
      ensures Contents() == WithFeed(old(Contents()), url, name, section, [], world)
      ensures k == FindFeed(old(feeds), url) < |feeds|
    {
      hide NewName;
      k := CopyFeedToGlobalSection(url, name, section, world);
      assert feeds[k].settings + [] == feeds[k].settings;
      feeds := feeds[k := feeds[k].(section := section)];
      AddToList(section, url);
    }

    // -------------------------------------------------------------- parsing

    /** Applies a line of settings to a feed, unless something is wrong with it. */
    method ProcessConfigLine(k: nat, line: string, world: World) returns (ok: bool)
      requires k < |feeds|
      modifies `feeds
      ensures ok == world.accepts(line)
      ensures ok ==> feeds == old(feeds)[k := old(feeds)[k].(settings := old(feeds)[k].settings + NonEmpty([line]))]
    {
      assert [line][..0] == [] && feeds[k].settings + [] == feeds[k].settings;
      assert NonEmpty([line]) == if line == "" then [] else [line];
      ok := world.accepts(line);
      if ok && line != "" {
        feeds := feeds[k := feeds[k].(settings := feeds[k].settings + [line])];
      }
    }

    /** The settings for all feeds, for those of the section and for this one, until one is refused. */
    method ApplySettings(k: nat, all: string, ofSection: string, own: string, world: World) returns (ok: bool)
      requires k < |feeds|
      modifies `feeds
      ensures ok == Accepted([all, ofSection, own], world)
      ensures ok ==>
        feeds == old(feeds)[k := old(feeds)[k].(settings := old(feeds)[k].settings + NonEmpty([all, ofSection, own]))]
    {
      hide NonEmpty;
      ghost var lines := [all, ofSection, own];
      assert world.accepts(all) == world.accepts(lines[0]) && world.accepts(ofSection) == world.accepts(lines[1])
        && world.accepts(own) == world.accepts(lines[2]);
      ThreeLines(all, ofSection, own);
      ghost var was, a, b, c := feeds[k].settings, NonEmpty([all]), NonEmpty([ofSection]), NonEmpty([own]);
      assert was + a + b + c == was + (a + b + c);
      ok := ProcessConfigLine(k, all, world);
      if ok {
        ok := ProcessConfigLine(k, ofSection, world);
      }
      if ok {
        ok := ProcessConfigLine(k, own, world);
      }
    }

    method SectionLine(line: string, section: nat, all: string, ghost p: Parser)
        returns (ok: bool, newSection: nat, newAll: string, ofSection: string)
      requires p.Parser? && p.store == Contents() && p.section == section < |sections| && p.globalSettings == all
      requires line != "" && line[0] == '@'
      modifies `sections
      ensures AfterSection(p, line) == if ok then Parser(Contents(), newSection, p.added, newAll, ofSection) else Failed
      ensures newSection < |sections|
    {
      hide FindSection, WithSection, Trim, NameToken;
      var len := Before(line[1..], IsBracket);
      var name := TrimWhitespace(line[1..1 + len]);
      newSection := MakeSureSectionExists(name);
      newAll, ofSection := all, "";
      var rest := RemoveStart(line, 1 + len);
      rest := TrimWhitespace(rest);
      var noName;
      ok, noName, rest := TakeName(rest);
      if ok && rest != "" && (rest[0] == '[' || rest[0] == '{') {
        ok := false;
      }
      if ok && rest != "" && rest[0] == '<' {
        ofSection := rest[1..];
      }
      if newSection == 0 {
        newAll := all + ofSection;
      }
    }

    method FeedLine(line: string, section: nat, all: string, ofSection: string, world: World, ghost p: Parser)
        returns (ok: bool)
      requires p.Parser? && p.store == Contents() && p.section == section < |sections|
      requires (p.globalSettings, p.sectionSettings) == (all, ofSection) && line != ""
      modifies this
      ensures AfterFeed(p, line, world) == if ok then p.(store := Contents(), added := true) else Failed
      ensures ok ==> section < |sections|
    {
      hide WithFeed, Trim, NameToken, CommandLength, Before, IsValidUrl, NonEmpty, Accepted;
      var len;
      if |line| >= 2 && line[0] == '$' && line[1] == '(' {
        len := EndOfCommand(line);
      } else {
        len := Before(line, IsSpace);
        if !IsValidUrl(line[..len]) {
          return false;
        }
      }
      var url := line[..len];
      var rest := RemoveStart(line, len);
      rest := TrimWhitespace(rest);
      var name;
      ok, name, rest := TakeName(rest);
      if ok && rest != "" && (rest[0] == '[' || rest[0] == '{') {
        ok := false;
      }
      if ok {
        var own := "";
        if rest != "" && rest[0] == '<' {
          own := rest[1..];
        }
        ghost var before := Contents();
        var k := CopyFeedToSection(url, name, section, world);
        StillThere(before, url, name, section, NonEmpty([all, ofSection, own]), world);
        ok := ApplySettings(k, all, ofSection, own, world);
      }
    }

    /** Parses the text of the feeds file. */
    method ParseFeedsFile(text: string, global: string, world: World) returns (ok: bool)
      requires Contents() == Store([], [])
      modifies this
      ensures ok <==> Parse(text, global, world).Loaded?
      ensures ok ==> Parse(text, global, world) == Loaded(Contents())
    {
      hide AfterSection, AfterFeed, Lines, AfterLines, Trim;
      var section: nat := MakeSureSectionExists(global);
      assert Parser(Contents(), section, false, "", "") == Fresh(global);
      ghost var result := AfterLines(Fresh(global), Lines(text), world);
      assert text[0..] == text;
      var pos, eof, added, line := 0, false, false, "";
      var all, ofSection := "", "";
      NothingRead(Fresh(global), world);
      while !eof
        invariant pos <= |text| && section < |sections|
        invariant result ==
          if eof then Parser(Contents(), section, added, all, ofSection)
          else AfterLines(Parser(Contents(), section, added, all, ofSection), Lines(text[pos..]), world)
        decreases !eof, |text| - pos
      {
        ghost var from, before := pos, Parser(Contents(), section, added, all, ofSection);
        line, pos, eof := ReadLine(text, pos);
        OneMoreLine(before, text[from..], world);
        line := TrimWhitespace(line);
        if line == "" || line[0] == '#' {
          continue;
        }
        var fine;
        if line[0] == '@' {
          fine, section, all, ofSection := SectionLine(line, section, all, before);
        } else {
          fine := FeedLine(line, section, all, ofSection, world, before);
          added := true;
        }
        if !fine {
          if !eof { FailedStays(Lines(text[pos..]), world); }
          return false;
        }
      }
      ok := added;
    }

    // -------------------------------------------------------------- printing

    static method HasFeedInSection(feeds: seq<Feed>, section: nat) returns (has: bool)
      ensures has <==> HasFeed(feeds, section)
    {
      for i := 0 to |feeds|
        invariant !HasFeed(feeds[..i], section)
        invariant forall j :: 0 <= j < i ==> feeds[j].section != section
      {
        if feeds[i].section == section {
          return true;
        }
      }
      return false;
    }

    method WriteFeedsFile() returns (ok: bool, output: string)
      ensures ok <==> feeds != []
      ensures ok ==> output == Printed(Contents())
    {
      hide FeedText, FeedLines, HasFeed, Text;
      output := "";
      if |feeds| == 0 {
        return false, "";
      }
      var hasGlobalFeed := HasFeedInSection(feeds, 0);
      NoText();
      for k := 0 to |sections|
        invariant output == Text(LinesBefore(Contents(), k))
      {
        ghost var lines := LinesBefore(Contents(), k);
        if k > 0 {
          var needNewline := (k == 1 && hasGlobalFeed) || k > 1;
          ghost var blank, head := if needNewline then [""] else [], "@ " + sections[k].name;
          output := output + (if needNewline then "\n" else "");
          if needNewline { TextSnoc(lines, ""); } else { assert lines + blank == lines; }
          assert output == Text(lines + blank);
          output := output + "@ " + sections[k].name + "\n";
          TextSnoc(lines + blank, head);
          assert output == Text(lines + blank) + head + "\n";
          assert lines + blank + [head] == lines + HeadLines(Contents(), k);
        } else {
          assert lines + HeadLines(Contents(), k) == lines;
        }
        output := WriteSection(feeds, k, output, lines + HeadLines(Contents(), k));
      }
      ok := true;
    }

    static method WriteSection(feeds: seq<Feed>, k: nat, before: string, ghost lines: seq<string>) returns (output: string)
      requires before == Text(lines)
      ensures output == Text(lines + FeedLines(feeds, k))
    {
      hide Text;
      output := before;
      assert lines + FeedLines([], k) == lines;
      assert feeds[..0] == [];
      for i := 0 to |feeds|
        invariant output == Text(lines + FeedLines(feeds[..i], k))
      {
        assert feeds[..i + 1][..i] == feeds[..i];
        ghost var so := lines + FeedLines(feeds[..i], k);
        if feeds[i].section != k {
          assert so == lines + FeedLines(feeds[..i + 1], k);
          continue;
        }
        TextSnoc(so, FeedText(feeds[i]));
        assert so + [FeedText(feeds[i])] == lines + FeedLines(feeds[..i + 1], k);
        if feeds[i].name == "" {
          output := output + feeds[i].url + "\n";
        } else {
          output := output + feeds[i].url + " \"" + feeds[i].name + "\"\n";
          assert output == Text(so) + (feeds[i].url + " \"" + feeds[i].name + "\"") + "\n";
        }
      }
      assert feeds[..|feeds|] == feeds;
    }
  }

  lemma {:induction false} TextSnoc(lines: seq<string>, x: string)
    ensures Text(lines + [x]) == Text(lines) + x + "\n"
  {
    assert (lines + [x])[..|lines|] == lines;
  }

  lemma {:induction false} ThreeLines(a: string, b: string, c: string)
    ensures NonEmpty([a, b, c]) == NonEmpty([a]) + NonEmpty([b]) + NonEmpty([c])
  {
    assert [a, b, c][..2] == [a, b] && [a, b][..1] == [a];
    assert [a][..0] == [] && [b][..0] == [] && [c][..0] == [];
  }

  /** Settings may be applied after the feed was copied. */
  lemma {:induction false} StillThere(s: Store, url: string, name: string, section: nat, settings: seq<string>, world: World)
    requires section < |s.sections|
    ensures var t, k := WithFeed(s, url, name, section, [], world), FindFeed(s.feeds, url);
      && |t.sections| == |s.sections| && k < |t.feeds|
      && WithFeed(s, url, name, section, settings, world)
         == t.(feeds := t.feeds[k := t.feeds[k].(settings := t.feeds[k].settings + settings)])
  {
    hide NewName;
    var k := FindFeed(s.feeds, url);
    assert [] + settings == settings;
    if k < |s.feeds| { assert s.feeds[k].settings + [] == s.feeds[k].settings; }
  }

  /** One line of the text is read first, and then the others. */
  lemma {:induction false} OneMoreLine(p: Parser, text: string, world: World)
    requires ParserOk(p)
    ensures var r := FirstLine(text);
      AfterLines(p, Lines(text), world) ==
        if r.rest.More? then AfterLines(AfterLine(p, r.line, world), Lines(r.rest.text), world)
        else AfterLine(p, r.line, world)
  {
    hide AfterLine;
    var r := FirstLine(text);
    OneLine(p, r.line, world);
    if r.rest.More? {
      AfterLinesConcat(p, [r.line], Lines(r.rest.text), world);
    } else {
      assert Lines(text) == [r.line] + [] == [r.line];
    }
  }

  lemma {:induction false} FailedStays(lines: seq<string>, world: World)
    ensures AfterLines(Failed, lines, world) == Failed
    decreases |lines|
  {
    if lines != [] {
      FailedStays(lines[..|lines| - 1], world);
    }
  }
}
