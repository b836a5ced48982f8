/** The feeds file: what `write_feeds_file` prints and what `parse_feeds_file` makes of a text.
    Texts hold no NUL. */
module FeedsModel {

  /** `settings` are the lines of settings that were applied to the feed. */
  datatype Feed = Feed(url: string, name: string, section: nat, settings: seq<string>)
  datatype Section = Section(name: string, urls: seq<string>)

  /** All feeds, in the order of their addition, and the sections; the first section is the global one. */
  datatype Store = Store(sections: seq<Section>, feeds: seq<Feed>)

  // ---------------------------------------------------------------- strings

  predicate IsSpace(c: char) {
    c == ' ' || c == '\n' || c == '\t' || c == '\U{000B}' || c == '\U{000C}' || c == '\r'
  }

  predicate IsBracket(c: char) {
    c == '[' || c == '{' || c == '<'
  }

  predicate IsQuote(c: char) {
    c == '"'
  }

  function TrimLeft(s: string): (r: string)
    ensures r != "" ==> !IsSpace(r[0])
  {
    if s != "" && IsSpace(s[0]) then TrimLeft(s[1..]) else s
  }

  function TrimRight(s: string): (r: string)
    ensures r <= s && (r != "" ==> !IsSpace(r[|r| - 1]))
  {
    if s != "" && IsSpace(s[|s| - 1]) then TrimRight(s[..|s| - 1]) else s
  }

  function Trim(s: string): string {
    TrimRight(TrimLeft(s))
  }

  /** `strcspn`: how many characters come before the first one of the given kind. */
  function Before(s: string, stop: char -> bool): (k: nat)
    ensures k <= |s| && (k < |s| ==> stop(s[k]))
    ensures forall j :: 0 <= j < k ==> !stop(s[j])
  {
    if s == "" || stop(s[0]) then 0 else Before(s[1..], stop) + 1
  }

  /** White space becomes spaces, and one space stands for several. */
  function Inlined(s: string): (r: string) {
    if s == "" then ""
    else
      var r, c := Inlined(s[..|s| - 1]), if IsSpace(s[|s| - 1]) then ' ' else s[|s| - 1];
      if c != ' ' || r == "" || r[|r| - 1] != ' ' then r + [c] else r
  }

  // ---------------------------------------------------------------- lines

  datatype Reading = Reading(line: string, rest: Option)
  datatype Option = End | More(text: string)

  function WithFront(s: string, r: Reading): Reading {
    r.(line := s + r.line)
  }

  /** A line ends at a newline without a backslash before it. A backslash and a newline vanish; a
      backslash and something else stay as they are. */
  function FirstLine(t: string): (r: Reading)
    ensures r.rest.More? ==> |r.rest.text| < |t|
  {
    if t == "" then Reading("", End)
    else if t[0] == '\n' then Reading("", More(t[1..]))
    else if t[0] != '\\' then WithFront(t[..1], FirstLine(t[1..]))
    else if |t| == 1 then Reading("", End)
    else if t[1] == '\n' then FirstLine(t[2..])
    else WithFront(t[..2], FirstLine(t[2..]))
  }

  function Lines(t: string): (r: seq<string>)
    ensures r != []
    decreases |t|
  {
    var r := FirstLine(t);
    [r.line] + if r.rest.More? then Lines(r.rest.text) else []
  }

  // ---------------------------------------------------------------- the store

  function FindSection(sections: seq<Section>, name: string): (k: nat)
    ensures k <= |sections| && (k < |sections| ==> sections[k].name == name)
    ensures forall j :: 0 <= j < k ==> sections[j].name != name
  {
    if sections == [] || sections[0].name == name then 0 else FindSection(sections[1..], name) + 1
  }

  /** `make_sure_section_exists`; the section is at `FindSection` afterwards. */
  function WithSection(s: Store, name: string): Store {
    if FindSection(s.sections, name) < |s.sections| then s else s.(sections := s.sections + [Section(name, [])])
  }

  function FindFeed(feeds: seq<Feed>, url: string): (k: nat)
    ensures k <= |feeds| && (k < |feeds| ==> feeds[k].url == url)
    ensures forall j :: 0 <= j < k ==> feeds[j].url != url
  {
    if feeds == [] || feeds[0].url == url then 0 else FindFeed(feeds[1..], url) + 1
  }

  function Listed(sections: seq<Section>, k: nat, url: string): (r: seq<Section>)
    requires k < |sections|
    ensures |r| == |sections|
  {
    if url in sections[k].urls then sections
    else sections[k := sections[k].(urls := sections[k].urls + [url])]
  }

  /** What the database knows as the title of a feed, and which lines of settings are in order. */
  datatype World = World(titles: string -> string, accepts: string -> bool)

  function NewName(url: string, name: string, world: World): string {
    Inlined(if name == "" then world.titles(url) else name)
  }

  /** `copy_feed_to_section` and the settings: a feed that is there already moves to the section and keeps
      its name. */
  function WithFeed(s: Store, url: string, name: string, section: nat, settings: seq<string>, world: World): Store
    requires section < |s.sections|
  {
    var k := FindFeed(s.feeds, url);
    var t :=
      if k < |s.feeds| then
        s.(feeds := s.feeds[k := s.feeds[k].(section := section, settings := s.feeds[k].settings + settings)])
      else
        Store(Listed(s.sections, 0, url), s.feeds + [Feed(url, NewName(url, name, world), section, settings)]);
    t.(sections := Listed(t.sections, section, url))
  }

  // ---------------------------------------------------------------- parsing

  predicate IsValidUrl(url: string) {
    "http://" <= url || "https://" <= url || "ftp://" <= url || "file://" <= url || "gopher://" <= url
    || "gophers://" <= url
  }

  /** The length of a `$(...)` command: up to the parenthesis that is neither escaped nor quoted. */
  function CommandLength(line: string, k: nat, escaped: bool, single: bool, double: bool): (n: nat)
    requires k <= |line|
    ensures k <= n <= |line|
    decreases |line| - k
  {
    if k == |line| then k
    else if escaped then CommandLength(line, k + 1, false, single, double)
    else if line[k] == '\\' then CommandLength(line, k + 1, true, single, double)
    else if line[k] == '\'' then CommandLength(line, k + 1, false, !single, double)
    else if line[k] == '"' then CommandLength(line, k + 1, false, single, !double)
    else if line[k] == ')' && !single && !double then k + 1
    else CommandLength(line, k + 1, false, single, double)
  }

  /** The state of the parser: the store, the current section, whether a feed was added, and the settings
      for all feeds and for the feeds of the current section. */
  datatype Parser =
    | Parser(store: Store, section: nat, added: bool, globalSettings: string, sectionSettings: string)
    | Failed

  datatype Name = Unclosed | Token(name: string, rest: string)

  /** The optional name in quotes, and what follows it. */
  function NameToken(line: string): Name {
    if line == "" || line[0] != '"' then Token("", Trim(line))
    else
      var k := Before(line[1..], IsQuote);
      if k == |line| - 1 then Unclosed else Token(line[1..k + 1], Trim(line[k + 2..]))
  }

  /** What comes after the tokens. */
  function SettingsOf(rest: string): string {
    if rest != "" && rest[0] == '<' then rest[1..] else ""
  }

  /** Lines without settings do nothing. */
  function NonEmpty(lines: seq<string>): (r: seq<string>)
    ensures forall k :: 0 <= k < |r| ==> r[k] in lines && r[k] != ""
  {
    if lines == [] then []
    else NonEmpty(lines[..|lines| - 1]) + if lines[|lines| - 1] == "" then [] else [lines[|lines| - 1]]
  }

  /** `process_config_line` has nothing to say against any of the lines. */
  predicate Accepted(lines: seq<string>, world: World) {
    forall k :: 0 <= k < |lines| ==> world.accepts(lines[k])
  }

  predicate IsDeprecated(rest: string) {
    rest != "" && (rest[0] == '[' || rest[0] == '{')
  }

  function SectionName(line: string): string
    requires line != ""
  {
    Trim(line[1..1 + Before(line[1..], IsBracket)])
  }

  function FeedLength(line: string): (n: nat)
    ensures n <= |line|
  {
    if |line| >= 2 && line[0] == '$' && line[1] == '(' then CommandLength(line, 2, false, false, false)
    else Before(line, IsSpace)
  }

  predicate IsCommand(line: string) {
    |line| >= 2 && line[0] == '$' && line[1] == '('
  }

  function AfterSection(p: Parser, line: string): Parser
    requires p.Parser? && line != "" && line[0] == '@'
  {
    var name := SectionName(line);
    match NameToken(Trim(line[1 + Before(line[1..], IsBracket)..]))
    case Unclosed => Failed
    case Token(_, rest) =>
      if IsDeprecated(rest) then Failed
      else
        var index, settings := FindSection(p.store.sections, name), SettingsOf(rest);
        p.(store := WithSection(p.store, name), section := index, sectionSettings := settings,
           globalSettings := if index == 0 then p.globalSettings + settings else p.globalSettings)
  }

  function AfterFeed(p: Parser, line: string, world: World): Parser
    requires p.Parser? && p.section < |p.store.sections|
  {
    var url := line[..FeedLength(line)];
    if !IsCommand(line) && !IsValidUrl(url) then Failed
    else
      match NameToken(Trim(line[FeedLength(line)..]))
      case Unclosed => Failed
      case Token(name, rest) =>
        var settings := [p.globalSettings, p.sectionSettings, SettingsOf(rest)];
        if IsDeprecated(rest) || !Accepted(settings, world) then Failed
        else p.(store := WithFeed(p.store, url, name, p.section, NonEmpty(settings), world), added := true)
  }

  predicate ParserOk(p: Parser) {
    p.Parser? ==> p.section < |p.store.sections|
  }

  function AfterLine(p: Parser, raw: string, world: World): (q: Parser)
    requires ParserOk(p)
    ensures ParserOk(q)
  {
    var line := Trim(raw);
    if p.Failed? || line == "" || line[0] == '#' then p
    else if line[0] == '@' then AfterSection(p, line)
    else AfterFeed(p, line, world)
  }

  function AfterLines(p: Parser, lines: seq<string>, world: World): (q: Parser)
    requires ParserOk(p)
    ensures ParserOk(q)
  {
    if lines == [] then p else AfterLine(AfterLines(p, lines[..|lines| - 1], world), lines[|lines| - 1], world)
  }

  /** With nothing in the store but the global section. */
  function Fresh(global: string): Parser {
    Parser(Store([Section(global, [])], []), 0, false, "", "")
  }

  datatype Result = Loaded(store: Store) | Refused

  function Outcome(p: Parser): Result {
    if p.Parser? && p.added then Loaded(p.store) else Refused
  }

  /** `parse_feeds_file` on the text of the file. */
  function Parse(text: string, global: string, world: World): Result {
    Outcome(AfterLines(Fresh(global), Lines(text), world))
  }

  // ---------------------------------------------------------------- printing

  function FeedText(f: Feed): string {
    if f.name == "" then f.url else f.url + " \"" + f.name + "\""
  }

  function FeedLines(feeds: seq<Feed>, k: nat): seq<string> {
    if feeds == [] then []
    else
      var n := |feeds| - 1;
      FeedLines(feeds[..n], k) + if feeds[n].section == k then [FeedText(feeds[n])] else []
  }

  predicate HasFeed(feeds: seq<Feed>, k: nat) {
    exists i :: 0 <= i < |feeds| && feeds[i].section == k
  }

  /** The head of a section. An empty line is before it, if anything is. */
  function HeadLines(s: Store, k: nat): seq<string>
    requires k < |s.sections|
  {
    if k == 0 then []
    else (if k > 1 || HasFeed(s.feeds, 0) then [""] else []) + ["@ " + s.sections[k].name]
  }

  function LinesBefore(s: Store, k: nat): seq<string>
    requires k <= |s.sections|
  {
    if k == 0 then [] else LinesBefore(s, k - 1) + HeadLines(s, k - 1) + FeedLines(s.feeds, k - 1)
  }

  function Text(lines: seq<string>): string {
    if lines == [] then "" else Text(lines[..|lines| - 1]) + lines[|lines| - 1] + "\n"
  }

  /** `write_feeds_file`; without feeds it prints nothing and fails. */
  function Printed(s: Store): string {
    Text(LinesBefore(s, |s.sections|))
  }

  // ---------------------------------------------------------------- what survives the round trip

  /** A line that ends in a lone backslash runs on into the next one. */
  predicate Dangling(x: string) {
    x != "" &&
    if x[0] != '\\' then Dangling(x[1..]) else if |x| == 1 then true else Dangling(x[2..])
  }

  predicate IsLine(x: string) {
    '\n' !in x && !Dangling(x)
  }

  /** The command is closed by its last character and not before. */
  predicate Closes(s: string, k: nat, escaped: bool, single: bool, double: bool)
    decreases |s| - k
  {
    k < |s| &&
    if escaped then Closes(s, k + 1, false, single, double)
    else if s[k] == '\\' then Closes(s, k + 1, true, single, double)
    else if s[k] == '\'' then Closes(s, k + 1, false, !single, double)
    else if s[k] == '"' then Closes(s, k + 1, false, single, !double)
    else if s[k] == ')' && !single && !double then k + 1 == |s|
    else Closes(s, k + 1, false, single, double)
  }

  predicate IsWholeCommand(url: string) {
    IsCommand(url) && Closes(url, 2, false, false, false) && '\n' !in url
  }

  /** An address of a known scheme without white space, or a command. */
  predicate GoodUrl(url: string) {
    (IsValidUrl(url) && forall k :: 0 <= k < |url| ==> !IsSpace(url[k])) || IsWholeCommand(url)
  }

  predicate GoodFeed(f: Feed, sections: nat) {
    && f.section < sections
    && GoodUrl(f.url)
    && (f.name == "" ==> !Dangling(f.url))
    && Inlined(f.name) == f.name && '"' !in f.name
  }

  predicate GoodSection(name: string) {
    IsLine(name) && Trim(name) == name && forall k :: 0 <= k < |name| ==> !IsBracket(name[k])
  }

  /** A store that can be written and read back. */
  predicate Good(s: Store, global: string) {
    && s.sections != [] && s.sections[0].name == global && s.feeds != []
    && (forall k :: 1 <= k < |s.sections| ==> GoodSection(s.sections[k].name))
    && (forall j, k :: 0 <= j < k < |s.sections| ==> s.sections[j].name != s.sections[k].name)
    && (forall k :: 0 <= k < |s.feeds| ==> GoodFeed(s.feeds[k], |s.sections|))
    && (forall j, k :: 0 <= j < k < |s.feeds| ==> s.feeds[j].url != s.feeds[k].url)
  }

  function InSection(feeds: seq<Feed>, k: nat): (r: seq<Feed>)
    ensures forall j :: 0 <= j < |r| ==> r[j].section == k && r[j] in feeds
  {
    if feeds == [] then []
    else
      var n := |feeds| - 1;
      InSection(feeds[..n], k) + if feeds[n].section == k then [feeds[n]] else []
  }

  /** The feeds sorted by section, those of one section in their old order. */
  function Grouped(feeds: seq<Feed>, k: nat): seq<Feed> {
    if k == 0 then [] else Grouped(feeds, k - 1) + InSection(feeds, k - 1)
  }

  function Rename(f: Feed, world: World): Feed {
    if f.name == "" then f.(name := Inlined(world.titles(f.url)), settings := []) else f.(settings := [])
  }

  /** Settings are not written, and a feed without a name gets the title that the database knows. */
  function Renamed(feeds: seq<Feed>, world: World): (r: seq<Feed>)
    ensures |r| == |feeds| && forall k :: 0 <= k < |r| ==> r[k] == Rename(feeds[k], world)
  {
    seq(|feeds|, k requires 0 <= k < |feeds| => Rename(feeds[k], world))
  }

  function Names(sections: seq<Section>): (r: seq<string>)
    ensures |r| == |sections| && forall k :: 0 <= k < |r| ==> r[k] == sections[k].name
  {
    seq(|sections|, k requires 0 <= k < |sections| => sections[k].name)
  }
}
