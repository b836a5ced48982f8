# Verified models of Newsraft's core

Newsraft is a feed reader for the terminal, written in C99. This project models the parts of it that
have state, loops and arithmetic of their own, and proves what they are for. It has eight parts. In
each of them a model of the source's data and operations comes first, then theorems about the model,
and then methods that work in place, as the source does, and are proved against the model.

- **Text wrapping** (`LineModel`, `LineTheorems`, `LineText`, `LineEnds`, `GreedyWrap`, `Hyphenation`,
  `LineProcessor`, `RenderText`, `LinkMarks`): the line processor takes one character at a time, remembers
  where it may break, and writes the tail of a broken line again through itself. It computes greedy word
  wrap, and with soft hyphens it sets a text part by part; the text of the rows is what was handed in, every character and space in the style of its moment, with nothing but
  spaces left out; when rows stay within the limit, and when the recursion ends, is said exactly.
- **Incremental drawing** (`Terminal`, `Screen`): only cells that differ from the remembered ones are
  sent. On a terminal where overwriting one half of a wide character ruins the other half, the result
  is always exactly the picture of the back buffer.
- **Feed updates** (`QueueModel`, `QueueTheorems`, `FeedQueue`): the user interface and three workers
  share a queue of entries. In every interleaving every entry is claimed by the right worker, completed,
  finished and freed once, in this order; the queue empties; and every batch is stored by one commit.
- **Menus** (`Menus`, `MenuTheorems`, `MenuCommands`, `MenuList`): closed menus stay in the list as
  tombstones. The list refines a stack in all runs of the menu loops, and the commands do to the stack what
  they are for.
- **Scrolling** (`Viewport`, `ListView`): the window of a list through all commands and resizes.
- **HTML tables** (`TableModel`, `TableTheorems`, `TablePrinting`, `HtmlTable`): placement under row
  spans, widening for column spans, columns that line up, and what becomes of the printed table in the
  line processor.
- **Text formats** (`Serialize`, `FeedsModel`, `FeedsTheorems`, `FeedsMeaning`, `FeedsFile`, `Base64`):
  round trips, and what a line of the feeds file does.
- **Key sequences** (`CapTrie`): the trie is a map from sequences to meanings.

Characters carry the width that `wcwidth` reports for them. The configuration, the database, the
network, the clock and the user are parameters.

## Where the code does not keep what one would expect

Each of these is a lemma with a concrete input, or the exact condition.

- Rows exceed the limit when it is one or two columns, and when a line begins at or behind it; otherwise
  they never do (`LineTheorems.WidthLimitHoldsIff`). The inputs are in `LineTheorems.NarrowLimitOverflows`
  and `LineTheorems.DeepIndentOverflows`.
- In front of a single free column a double-width character makes `line_char` start new lines for ever,
  and so does a split whose tail has such a character; `LineEnds.LineCharEndsIff` says exactly when a
  character comes to an end, and `LineEnds.RaisedIndentNeverEnds` has a narrow character that does not.
  The methods of the line processor require exactly that; texts are rendered without indentation, where
  everything comes to an end.
- A tail that is written again never breaks a second time, but it may start further lines
  (`LineProcessor.Line.Replay`).
- A soft hyphen at the end of a full line is forgotten, and the word goes on in the next line without a
  hyphen (`Hyphenation.FullLineForgetsHyphen`); `Hyphenation.SoftHyphenBreaks` has the other case.
- A spanning table cell of two lines can push the cells behind it out of their columns
  (`TableTheorems.TallSpanMisaligns`); `TableTheorems.AlignedIff` says exactly when columns line up.
- `get_menu_depth` stops at the first tombstone and counts too little exactly when an open menu lies
  below one (`MenuTheorems.DepthCountsIff`); it is right wherever it is asked.
- Going back stays in the program, except from a list of items that is the only open menu; with a single
  feed it is (`MenuTheorems.BackLeavesIff`, `MenuTheorems.SingleFeedLeaves`).
- A jump from a pager moves the window of the list below it. If the terminal has grown in the meantime,
  an unsigned subtraction wraps around (`Viewport.JumpUnderPagerUnderflows`); `Viewport.UnderflowIff` says
  exactly when, for whatever window it starts from.
  Going back to the list repairs its window whatever it is (`Viewport.AdjustmentHeals`).
- In a window of one row half a page is no step, and half a page forward from the first entry wraps to
  the last (`Viewport.PagesWrap`).
- A serialized list is read back exactly when no entry contains the delimiter; values never do, keys
  might (`Serialize.RoundTripIff`).

## Model

| member | source | states |
|---|---|---|
| `LineTheorems.PutInv` | src/render_data/line.c:104-151 | one character keeps the hidden invariant: the recorded break is the end of a word of the last line, behind it stand spaces and then a word, hyphenated rows are followed by the rest of their word; the style in force comes back unchanged although a split overwrites it |
| `LineTheorems.PutVisible` | src/render_data/line.c:104-151 | one character loses, doubles and moves nothing visible |
| `LineTheorems.PutFits` | src/render_data/line.c:126-147 | from a limit of three columns on, one character keeps every row that begins before the limit within it, and leaves room for a hyphen at a hyphenated break |
| `LineTheorems.SplitInv` | src/render_data/line.c:56-85 | breaking a line at the recorded place restores the invariant: no break is recorded in the new line while its tail is written |
| `LineTheorems.SplitVisible` | src/render_data/line.c:56-85 | a split keeps all visible glyphs in order; the hyphen it may insert is the only addition |
| `LineTheorems.SplitFits` | src/render_data/line.c:56-85 | all lines of a split fit, the hyphenated one included |
| `LineTheorems.SoftHyphenKeeps` | src/render_data/line.c:43-54 | a soft hyphen records a break that leaves room for the hyphen |
| `LineTheorems.FeedKeeps` | src/render_data/line.c:104-151 | the same for every character, with line feeds, tabs and soft hyphens |
| `LineTheorems.RunKeeps` | src/render_data/line.c:89-190 | over any run of characters, styles and indentations the glyphs of all rows that are not spaces, inserted hyphens left out, are the characters handed in, in order, each in the style that was in force; from three columns on no row that begins before the limit exceeds it |
| `LineText.PutText` | src/render_data/line.c:104-151 | one character adds itself in its style to the text of the rows, and nothing but spaces is left out, splits included |
| `LineText.RunText` | src/render_data/line.c:89-190 | over any run the text of all rows, with its spaces and without inserted hyphens, is what was handed in, every glyph in the style of its moment, the spaces of tabs included; nothing but spaces is left out and nothing is added |
| `LineText.WrittenShows` | src/render_data/line.c:89-190 | what is handed in, without its spaces, is what `LineTheorems.RunKeeps` speaks of |
| `LineText.HyphenStyle` | src/render_data/line.c:78-82 | an inserted hyphen has the style of the character behind it, with which the next row begins |
| `LineText.TrimText` | src/render_data/render_data.c:3-19 | trimming leaves out nothing but spaces of the text |
| `LineTheorems.RunKeepsInv` | src/render_data/line.c:104-190 | the invariants hold after any run |
| `LineTheorems.NarrowLimitOverflows` | src/render_data/line.c:126-128 | two double-width characters overflow a limit of one or two columns |
| `LineTheorems.DeepIndentOverflows` | src/render_data/line.c:126-128 | a character overflows a line that begins at or behind the limit |
| `LineTheorems.WidthLimitHoldsIff` | src/render_data/line.c:122-147 | with indentations up to a bound, every row with its indentation stays within the limit in everything that can be written exactly when there is no limit, or it is at least three and the bound is below it |
| `LineTheorems.RowsWithinIff` | src/render_data/line.c:122-147 | where the invariant holds, all rows are within the limit exactly when none begins behind it and none that begins at it has a character |
| `LineEnds.LineCharEndsIff` | src/render_data/line.c:104-151 | the recursion of `line_char` ends exactly when the character fits or is a space, or has a line to go to, or every glyph of the tail that its split writes again has one; three nested calls are enough then, and the result is the model's |
| `LineEnds.RaisedIndentNeverEnds` | src/render_data/line.c:56-85 | a narrow character that could be put on a line of its own never ends, because its split writes a double-width one again after the indentation was raised |
| `LineTheorems.TrimIsLongest` | src/render_data/render_data.c:3-19 | trimming leaves the longest prefix whose last line shows something, or the first line alone |
| `LineTheorems.TrimKeeps` | src/render_data/render_data.c:3-19 | trimming moves the head back without resetting the break, and all invariants survive; nothing visible goes |
| `LineTheorems.TabReachesGap` | src/render_data/line.c:21-41 | a tab reaches to the end of the gap that the line above has at this place, but not further than four columns; without a gap it is four spaces |
| `LineTheorems.LineFeedsStartLines` | src/render_data/line.c:104-116 | every line feed of a run starts a line |
| `GreedyWrap.WrapIsGreedy` | src/render_data/line.c:56-151 | words separated by single spaces come out as greedy word wrap arranges them: a word joins the line if it fits behind a space, and otherwise starts a fresh line and is chopped at the limit |
| `GreedyWrap.DocumentIsGreedy` | src/render_data/line.c:104-151 | a whole text of paragraphs and empty lines, fed character by character, comes out greedily wrapped and nothing else does |
| `Hyphenation.PartIsLaid` | src/render_data/line.c:56-151 | a part of a word fed character by character is laid out as a whole: it joins the line if it fits; otherwise the line is cut at the place that was recorded last and everything behind it goes to new lines, or the line is filled up when there is no such place |
| `Hyphenation.SoftHyphenBreaks` | src/render_data/line.c:43-85 | behind a word with a column left, a soft hyphen and a part that does not fit give the line a hyphen in the style of the part, which begins the next row; if the part fits there is no hyphen |
| `Hyphenation.FullLineForgetsHyphen` | src/render_data/line.c:43-54 | a soft hyphen at the end of a full line is forgotten: without another place to break the word goes on in the next line without a hyphen |
| `Hyphenation.TextIsSet` | src/render_data/line.c:104-151 | every text of word parts, spaces, soft hyphens and line feeds comes out as it is set part by part, however its words are divided |
| `LineProcessor.Line.LineBump` | src/render_data/line.c:6-19 | a new empty line with the current indentation and no recorded break |
| `LineProcessor.Line.LineTab` | src/render_data/line.c:21-41 | a tab writes as many spaces as the line above has whitespace at this place, at most four, and four if it has none |
| `LineProcessor.Line.LineSoftHyphen` | src/render_data/line.c:43-54 | records a hyphenated break behind a word that leaves a column free |
| `LineProcessor.Line.SplitAtEnd` | src/render_data/line.c:56-85 | the tail is written again on a new line and the old line cut at the break, as the specification of a split says; lines above are not touched |
| `LineProcessor.Line.Replay` | src/render_data/line.c:69-76 | writing the tail again, with the stored styles, only appends and starts lines: it never splits |
| `LineProcessor.Line.LineAppend` | src/render_data/line.c:87-102 | the glyph and its style are stored, and the array of styles covers the text |
| `LineProcessor.Line.LineChar` | src/render_data/line.c:104-151 | one character, if it comes to an end at all, does what the model says, and the recursion ends |
| `LineProcessor.Line.RecordBreak` | src/render_data/line.c:130-136 | a space behind a word records the break |
| `LineProcessor.Line.PutChar` | src/render_data/line.c:117-141 | the branches for forced, fitting and ignored characters, for every character that comes to an end |
| `LineProcessor.Line.Overflow` | src/render_data/line.c:142-148 | the branches for a character that does not fit: a new line, or a split |
| `LineProcessor.Line.LineString` | src/render_data/line.c:153-163 | a string whose characters come to an end is written character by character |
| `LineProcessor.Line.StyleUpdate` | src/render_data/line.c:165-172 | the style in force is the union of the stack |
| `LineProcessor.Line.PushStyle` | src/render_data/line.c:174-181 | a style is put on the stack |
| `LineProcessor.Line.PopStyle` | src/render_data/line.c:183-190 | the last style is taken off the stack, if there is one |
| `RenderText.PlanKeepsSource` | src/render_data/render-text-plain.c:6-52 | plain text writes every character of the source once and in order, around its link marks |
| `RenderText.LinkIff` | src/render_data/render-text-plain.c:17-32 | a token has a link exactly when a letter comes before its first `://`; the link begins with the first letter and goes to the end of the token |
| `LinkMarks.MarkPointsToLink` | src/render_data/render-text-plain.c:33-42 | the mark of a link shows in decimal the place of the link in the final list, counted from one; a token without a link has no mark |
| `LinkMarks.LinksHaveMarks` | src/render_data/render-text-plain.c:6-52 | every token with a link has its mark right behind it |
| `LinkMarks.MarksHaveLinks` | src/render_data/render-text-plain.c:6-52 | every mark is that of the token with a link before it |
| `LinkMarks.LinksStayDistinct` | src/render_data/render-text-plain.c:33-42 | no link gets two numbers |
| `LinkMarks.BlockLinksGrow` | src/render_data/render_data.c:28-37 | the list of links only grows from block to block, so the marks of a block point into the final list |
| `RenderText.HandedSegments` | src/render_data/render-text-plain.c:12-51 | source characters are written in the default style, link marks in bold, and the style stack is empty again afterwards |
| `RenderText.RenderToken` | src/render_data/render-text-plain.c:7-51 | one token: its characters, the mark of its link if it has one, and the whitespace behind it |
| `RenderText.RenderTextPlain` | src/render_data/render-text-plain.c:3-53 | the whole text, token by token, leaves the line processor as the plan says |
| `RenderText.BlockKeeps` | src/render_data/render_data.c:28-42 | one block adds its ink and nothing else, at the left edge and within the limit; a trimmed one ends in a line that shows something, one that is not trimmed has at least one line for each of its line feeds |
| `RenderText.PageShowsBlocks` | src/render_data/render_data.c:21-51 | a page shows the characters of all plain and raw blocks and their link marks once, in order and in their styles; from a limit of three columns on every row with its indentation fits the width asked for, centered or not; the last row shows something unless it is the only one |
| `RenderText.PageKeepsMargins` | src/render_data/render_data.c:21-51 | the text of a row is no wider than the pager if its width is set and smaller than the window, and no wider than the window otherwise; centered, both margins are the same but for one column, and otherwise there is none on the left |
| `RenderText.PageText` | src/render_data/render_data.c:21-51 | the text of the page, spaces included, is what the blocks hand in, every glyph in the style of its moment, with nothing but spaces left out |
| `RenderText.PageHyphens` | src/render_data/render_data.c:21-51 | an inserted hyphen on the page has the style of the character that opens the next row |
| `RenderText.RemoveTrailingEmptyLines` | src/render_data/render_data.c:3-19 | the loop drops exactly the trailing lines without visible text, except for the first |
| `RenderText.RenderBlock` | src/render_data/render_data.c:28-42 | one block, from the reset of indentation and styles to the trimming |
| `RenderText.RenderData` | src/render_data/render_data.c:21-51 | the rows of the result are those of the page in `RenderText.PageShowsBlocks`, and the answer says whether anything is shown |
| `RenderText.Center` | src/render_data/render_data.c:44-48 | centering adds the same indentation to every line |
| `Terminal.PutKeepsPaired` | src/termbox2.h:3262-3283 | no glyph that is put leaves half of a wide one behind unnoticed |
| `Terminal.DrawCell` | src/termbox2.h:1704-1738 | drawing a changed cell extends the part of the row that is done, and the rest of the remembered row still agrees with the terminal, ruined halves included |
| `Terminal.SkipCell` | src/termbox2.h:1704-1739 | an unchanged cell may be skipped: the terminal shows it already |
| `Terminal.PictureAgrees` | src/termbox2.h:1723-1736 | a fully drawn row with its hidden cells marked is a place to start from |
| `Terminal.NothingDiffers` | src/termbox2.h:1704-1739 | a row that is drawn already has no cell that differs |
| `Screen.Screen.SendAttr` | src/termbox2.h:3059-3242 | attributes are sent only when they differ from the last ones, nothing is sent otherwise, and the terminal has them afterwards |
| `Screen.Screen.SendCursorIf` | src/termbox2.h:3244-3256 | a move is sent unless a coordinate is negative |
| `Screen.Screen.SendCluster` | src/termbox2.h:3262-3283 | a glyph reaches its place; the move is sent before it exactly unless it stands right behind the last narrow one |
| `Screen.Screen.DrawAt` | src/termbox2.h:1704-1738 | a changed cell is copied to the front buffer and sent, with a space for a wide character that has no room |
| `Screen.Screen.PresentRow` | src/termbox2.h:1688-1740 | from any row that the terminal showed, it then shows exactly the back row, and the front row knows it; if nothing differed nothing was sent |
| `Screen.Screen.Present` | src/termbox2.h:1676-1747 | the terminal shows exactly the back buffer; presenting again sends nothing but the cursor |
| `Screen.Screen.SetCell` | src/termbox2.h:1783-1795 | a cell inside the buffer is set, one outside is refused, the others stay |
| `Screen.Screen.ClearCells` | src/termbox2.h:3389-3397 | all cells become blank |
| `Screen.Screen.ResizeCells` | src/termbox2.h:3416-3449 | the common part is kept, the rest is blank, and no side is smaller than one |
| `Screen.Screen.SendClear` | src/termbox2.h:2350-2364 | the terminal is cleared in the clear attributes |
| `Screen.Screen.Resize` | src/termbox2.h:3040-3049 | whatever the terminal shows after a resize, it is cleared and the front buffer knows it |
| `Screen.Screen.AnyRun` | src/termbox2.h:1664-1747 | after any run of cells set, buffers cleared, screens presented and terminals resized, presenting leaves the terminal with exactly the back buffer, and the back buffer is what the operations of the run make of the first one |
| `Screen.Screen.Perform` | src/termbox2.h:1664-1747 | one operation leaves the back buffer that the operation is for, and the terminal up to date with what is remembered of it |
| `QueueTheorems.NextInv` | src/queue.c:11-160 | every step of every thread keeps the invariant of the update protocol |
| `QueueTheorems.EveryInterleaving` | src/queue.c:84-160 | in every interleaving a feed has at most one entry, the transaction is open while there are entries, nobody holds a freed entry, and all entries live as they should |
| `QueueTheorems.EveryEntryLivesOnce` | src/queue.c:84-160 | an entry is queued, claimed by the executor for a command and by the downloader otherwise, completed, finished and freed: each once and in this order, in every interleaving |
| `QueueTheorems.EveryBatchIsCommitted` | src/queue.c:84-160 | in every interleaving the data of an entry wait in an open transaction from the moment it is finished and are stored exactly when it has left the queue; a transaction is open only while there are entries or somebody is about to examine the queue |
| `QueueTheorems.BatchIsAtomic` | src/queue.c:105-117 | nothing of a batch is stored before the step that empties the queue; after it everything is, and the transaction is over |
| `QueueTheorems.AddFeedsKeep` | src/queue.c:134-152 | every feed asked for is in the queue afterwards, once, in front of the old entries, which do not change |
| `QueueTheorems.OutcomeIsDecidedOnce` | src/downloader.c:309-342 | the step that completes an entry decides whether it counts as downloaded, failed or canceled, and no other step changes this |
| `QueueTheorems.HeldByOne` | src/downloader.c:253-264 | an entry is held by one thread at a time, by the one that fetches its feed or by the inserter |
| `QueueTheorems.FreedIsNotHeld` | src/queue.c:105-117 | when the queue is freed nobody holds an entry of it |
| `QueueTheorems.StepLowers` | src/inserter.c:30-135 | every step that brings no new work lowers the measure of what is left to do |
| `QueueTheorems.SomeStepEnabled` | src/downloader.c:275-346 | while the queue is not empty some thread has something to do |
| `QueueTheorems.QueueEmpties` | src/queue.c:104-119 | without new work a run is bounded, and one that cannot go on has emptied the queue |
| `QueueTheorems.WaitFinish` | src/queue.c:162-173 | when the queue is seen empty after an update was asked for, every feed asked for has been claimed, completed, finished and freed |
| `FeedQueue.CountTellsEnd` | src/queue.c:92-105 | comparing the counter of finished entries with the length tells whether all are finished |
| `FeedQueue.CountsEntries` | src/queue.c:92-104 | the counters are the numbers of finished, canceled and failed entries, the last without feeds whose errors are suppressed |
| `FeedQueue.StatusTells` | src/queue.c:104-121 | while an entry is not finished the status tells how many are; afterwards it tells of failures that are not suppressed, or else of feeds that are up to date, and is clean only without either |
| `FeedQueue.FeedQueue.QueuePull` | src/queue.c:11-23 | the first entry that the worker's condition accepts, marked as taken by a fetcher; the conditions are those of `src/downloader.c:253-264`, `src/executor.c:52-63` and `src/inserter.c:4-15` |
| `FeedQueue.FeedQueue.QueueUpdates` | src/queue.c:124-160 | feeds that are not in the queue are put in front and stamped with the time; the transaction begins with an empty queue; without a clock nothing happens |
| `FeedQueue.FeedQueue.QueueExamine` | src/queue.c:84-122 | when all is finished the transaction is committed and the queue freed, in this order; the status tells progress, failures that are not suppressed, feeds that are up to date, or nothing |
| `FeedQueue.FeedQueue.Prepare` | src/downloader.c:145-251 | a feed whose stored copy is still good by its header or by its time to live is skipped, one with unknown dates or without the means for a transfer is refused, any other is started |
| `FeedQueue.FeedQueue.TransferDone` | src/downloader.c:309-342 | the flags after a transfer, from the response code, the result and the final call of the parser |
| `FeedQueue.FeedQueue.Execute` | src/executor.c:75-76 | the flags after a command |
| `FeedQueue.FeedQueue.Insert` | src/inserter.c:134-134 | the entry is finished |
| `MenuTheorems.SetupIsPush` | src/interface-list.c:441-470 | without tombstones above, setting up a menu pushes it, or replaces the top when it swallows |
| `MenuTheorems.SwallowReplacesIff` | src/interface-list.c:464-466 | swallowing replaces the top of the stack exactly when no tombstone is on top of the list |
| `MenuTheorems.CloseIsPop` | src/interface-list.c:472-493 | closing a menu pops the stack wherever tombstones are, and marks the next one so that it makes no detour |
| `MenuTheorems.FreeKeepsLive` | src/interface-list.c:401-413 | freeing tombstones keeps the stack, and its top is then on top of the list |
| `MenuTheorems.DepthCountsIff` | src/interface-list.c:421-429 | the depth that is counted is the number of open menus exactly when no open menu lies below a tombstone |
| `MenuTheorems.DepthWhereAsked` | src/items.c:189-194 | in the menus that ask for it the depth is right |
| `MenuTheorems.StepRefines` | src/feeds.c:163-227 | every detour, setup, close, double close and start of the menu loops does to the list what it does to the stack |
| `MenuTheorems.MenusAreAStack` | src/interface.c:109-118 | over all runs the open menus are a stack, and the menu whose loop runs is the top of it |
| `MenuTheorems.MenusStartOnTop` | src/interface-list.c:495-503 | whenever a menu starts it is on top of the list: the assertion never fails |
| `MenuTheorems.PagerFindsItems` | src/items-pager.c:33-39 | the list of items that an item pager finds below itself is open and is the next on the stack |
| `MenuTheorems.BackLeavesIff` | src/items.c:189-197 | going back leaves the program exactly from a list of items that is the only open menu; everywhere else a menu stays open |
| `MenuTheorems.SingleFeedLeaves` | src/feeds.c:166-172 | with a single section of a single feed the lists of sections and feeds are swallowed, and going back from the items leaves the program |
| `MenuCommands.ExploreAndQuit` | src/items.c:189-197 | from a list of sections or feeds, entering the explore mode and quitting it leaves the stack that closing the list alone would leave; going back does the same with three menus open and nothing with fewer |
| `MenuCommands.ExploreTwice` | src/items.c:198-200 | the command that entered the explore mode leads back to the list it was entered from |
| `MenuCommands.GotoFeedAndBack` | src/items.c:210-212 | from the explore mode one goes to a feed and back; elsewhere the command does nothing |
| `MenuCommands.SearchAndBack` | src/items.c:213-214 | going back or quitting undoes a search |
| `MenuCommands.SearchOpens` | src/items.c:213-214 | a search opens a list of its own above, which counts as found when it was made among found items |
| `MenuCommands.FindAndBack` | src/items.c:230-234 | finding opens a list above, and finding again replaces it, so that going back leads to where it was asked for first |
| `MenuCommands.EnterAndBack` | src/feeds.c:192-194 | going back undoes entering, for sections, feeds and items |
| `MenuCommands.SoleFeedIsSkipped` | src/feeds.c:166-172 | in a section of one feed the items replace the list of feeds, and going back leads to the sections |
| `MenuCommands.ParamountExplore` | src/feeds.c:166-170 | with a paramount explore mode entering a section opens it above the list of feeds; going back leads to the sections, leaving the mode to the list of feeds |
| `MenuCommands.BeginInExplore` | src/sections.c:352-358 | with a paramount explore mode the program begins with it, above the sections |
| `MenuCommands.SoleSectionIsSkipped` | src/sections.c:352-358 | with a sole section the program begins with its feeds and ends with them; going back from them does nothing |
| `MenuCommands.BackIsShown` | src/feeds.c:163-180 | a list that one comes back to shows itself, whatever the settings are |
| `MenuCommands.ListIsLeft` | src/feeds.c:208-212 | quitting a list leads to the menu below it; going back keeps a sole list of feeds open |
| `MenuCommands.NothingToShow` | src/feeds.c:163-165 | a menu that has nothing to show closes at once, and the one below it goes on |
| `MenuCommands.ErrorsAndBack` | src/feeds.c:226-227 | errors are looked at and left |
| `MenuCommands.JumpReplaces` | src/items-pager.c:61-69 | a jump shows another item in place of the one shown; one that leads nowhere does nothing |
| `MenuCommands.ItemIsLeft` | src/items-pager.c:73-77 | an item is left for the list below it |
| `MenuCommands.QuitLeaves` | src/sections.c:405-407 | quitting for good leaves the program from everywhere, quitting softly from the sections |
| `MenuList.MenuList.FreeDeletedMenus` | src/interface-list.c:401-413 | frees the tombstones on top, or everything |
| `MenuList.MenuList.GetMenuDepth` | src/interface-list.c:421-429 | counts from the top to the first tombstone |
| `MenuList.MenuList.MenuSetup` | src/interface-list.c:441-470 | the new list |
| `MenuList.MenuList.MenuClose` | src/interface-list.c:472-493 | the new list, and the menu to run next |
| `MenuList.MenuList.MenuStart` | src/interface-list.c:495-518 | called with the topmost open menu, its assertion holds and the menu is ready |
| `Viewport.ChangeKeepsGood` | src/interface-list.c:180-241 | a list command leaves a window of full height that shows the selected entry, ends with the list and keeps the distance on both sides, one row less above when the distance is half of the height |
| `Viewport.AdjustmentHeals` | src/interface-list.c:113-133 | an adjustment makes any window good, whatever it was |
| `Viewport.WindowStaysIff` | src/interface-list.c:204-240 | the window stays where it is exactly when the new entry is in it and keeps its distance |
| `Viewport.ChangeIsNearest` | src/interface-list.c:204-240 | of all good windows that show the new entry the new one is the nearest to the old one, and the only nearest one |
| `Viewport.AdjustmentIsNearest` | src/interface-list.c:113-133 | the same for an adjustment, whatever the window was |
| `Viewport.UnderflowIff` | src/interface-list.c:204-209 | from any window that was not adjusted, one that wrapped before included, the subtraction wraps around exactly when the new entry with its distance is below the window but on the first page |
| `Viewport.JumpUnderPagerUnderflows` | src/items-pager.c:61-67 | it does so for a list of 20 entries, a height that grows from 3 to 10, and a jump from the second entry to the third |
| `Viewport.EventKeepsList` | src/interface-list.c:135-154 | through commands, jumps, resizes to any height, reloads and pagers on top the selection is an entry, and the window is good whenever the list is shown in some height; a reload keeps the selection it is asked for if that is still an entry |
| `Viewport.RedrawIsOk` | src/interface-list.c:135-154 | a redraw makes the window good and keeps the selection |
| `Viewport.NextAndPrevAreShifts` | src/interface-list.c:187-203 | with `scrollwrap` the next and the previous entry are taken around the list, and undo each other |
| `Viewport.CommandsClamp` | src/interface-list.c:285-313 | without it all commands stop at the ends |
| `Viewport.PagesWrap` | src/interface-list.c:301-309 | with it pages wrap only from the ends, and half a page of one row is no step |
| `Viewport.EndsDoNotWrap` | src/interface-list.c:310-313 | the first and the last entry are reached with `scrollwrap` as without it |
| `Viewport.PagerGoesTo` | src/interface-list.c:343-368 | a pager goes where it is told to, but its last page stays full |
| `ListView.NearestIsUnique` | src/interface-list.c:243-279 | there is one nearest marked entry in a direction |
| `ListView.MenuView.AdjustViewRange` | src/interface-list.c:113-133 | the loop computes the adjustment, for lists and pagers |
| `ListView.MenuView.PickEntry` | src/interface-list.c:187-203 | where a command goes, around the list and back to an entry |
| `ListView.MenuView.ChangeListView` | src/interface-list.c:180-241 | the window after a command |
| `ListView.MenuView.FindAhead` | src/interface-list.c:249-261 | the nearest marked entry ahead, around the list with `scrollwrap` |
| `ListView.MenuView.FindBehind` | src/interface-list.c:262-278 | the nearest marked entry behind |
| `ListView.MenuView.ChangeListViewFiltered` | src/interface-list.c:243-279 | the jump goes to the nearest marked entry in its direction; without one nothing changes |
| `ListView.MenuView.ChangePagerView` | src/interface-list.c:343-368 | the window of a pager after a command |
| `TableTheorems.CellIsPlaced` | src/render_data/render-text-html.c:330-380 | a new cell goes to the end of the last row, to the first column that no cell from above reaches down to; only such columns are skipped; the row stays a list of blocks |
| `TableTheorems.RowSpansHold` | src/render_data/render-text-html.c:306-380 | however a table is built, no cell begins in a row and column that a cell from above spans, counted in rows from its own, and a place is left empty only there |
| `TableTheorems.CellKeepsSpans` | src/render_data/render-text-html.c:341-354 | adding a cell keeps this for all rows |
| `TableTheorems.WideningFits` | src/render_data/render-text-html.c:390-406 | widening ends, makes the spanning cell fit exactly if it did not, touches no other column, narrows none, and spreads evenly |
| `TableTheorems.RowsFit` | src/render_data/render-text-html.c:382-410 | after all widening every spanning cell of the table fits, and no column is narrower than its cells demand |
| `TableTheorems.SpanIsOffset` | src/render_data/render-text-html.c:463-466 | the width found while printing is that of the spanned columns and the spacing between them |
| `TableTheorems.LastCellEndsLine` | src/render_data/render-text-html.c:474-479 | nothing is printed behind the text of the last cell of a row |
| `TableTheorems.AlignedIff` | src/render_data/render-text-html.c:454-487 | the cells of a printed row start where their columns do exactly when each cell but the last is no wider than its columns and the spacing behind them |
| `TableTheorems.ColumnsLineUp` | src/render_data/render-text-html.c:412-492 | when the spanning cells of a row have one line each, every cell of every printed line starts at the sum of the widths before its column and the spacing behind each |
| `TableTheorems.TallSpanMisaligns` | src/render_data/render-text-html.c:399-404 | a spanning cell of two lines may push the next cell out of its column |
| `HtmlTable.HtmlTable.AddRow` | src/render_data/render-text-html.c:306-315 | an empty row |
| `HtmlTable.HtmlTable.SkipReserved` | src/render_data/render-text-html.c:344-354 | the loop that starts over finds the first free column |
| `HtmlTable.HtmlTable.AddCell` | src/render_data/render-text-html.c:330-380 | placeholders, the cell and what it spans are appended to the last row, and the row spans of all cells above are respected |
| `HtmlTable.HtmlTable.MeasureCells` | src/render_data/render-text-html.c:434-450 | a column is as wide as the longest line of a cell that spans one column only |
| `HtmlTable.HtmlTable.WidenFor` | src/render_data/render-text-html.c:390-406 | the widths after widening for one cell, narrowest column first |
| `HtmlTable.HtmlTable.AdjustColumnWidths` | src/render_data/render-text-html.c:382-410 | the widths after all cells |
| `HtmlTable.HtmlTable.SetText` | src/render_data/render-text-html.c:379-379 | text goes to the cell that was added last and to no other |
| `HtmlTable.HtmlTable.PrintCell` | src/render_data/render-text-html.c:461-483 | the line processor gets the text of the cell at one height, every character in its style, and the padding behind it |
| `HtmlTable.HtmlTable.Print` | src/render_data/render-text-html.c:412-492 | the line processor gets the whole table for the widths computed, line by line with a line feed behind each, whatever its limit makes of it |
| `TablePrinting.LinesStand` | src/render_data/render-text-html.c:454-487 | lines that have room become one row each, unbroken and in order, every character in its own style on top of the style in force |
| `TablePrinting.TableStands` | src/render_data/render-text-html.c:412-492 | when the lines of the table have room, the text of a cell at some height is in that row of the page, from the start of the cell's column on and in the cell's styles, if the spanning cells of its row have one line each |
| `Serialize.RoundTripIff` | src/string-serialize.c:72-103 | reading yields exactly what was written exactly when no entry contains the delimiter, whatever the delimiter is |
| `Serialize.RoundTrip` | src/string-serialize.c:19-103 | with keys free of the delimiter every caret and every pair whose value is more than delimiters is read back in order |
| `Serialize.PlainRoundTrip` | src/string-serialize.c:19-103 | without delimiters in keys and values reading gives every caret and every key with its value, in order |
| `Serialize.PairLeavesEntryIff` | src/string-serialize.c:28-62 | a pair leaves an entry exactly when something else than delimiters is in its value |
| `Serialize.Text.SerializeCaret` | src/string-serialize.c:19-26 | a delimiter and a caret are appended |
| `Serialize.Text.SerializeArray` | src/string-serialize.c:28-62 | the loop that shifts in place leaves the old content, a delimiter, the key and the value without delimiters, or the old content alone when nothing of the value is left |
| `Serialize.Text.CloseGap` | src/string-serialize.c:50-54 | one character is taken out and what is behind it moves up |
| `Serialize.Stream.constructor` | src/string-serialize.c:72-86 | the first byte is the delimiter; empty data have no entries |
| `Serialize.Stream.GetNextEntry` | src/string-serialize.c:88-103 | the entries come one after another, and then nothing for ever |
| `Serialize.ReadAll` | src/string-serialize.c:72-103 | reading until nothing comes any more gives all entries in order |
| `FeedsTheorems.RoundTrip` | src/parse_xml/setup-opml-parser.c:85-133 | a written feeds file is read back: the same sections in order, and the same feeds with their names and sections, sorted by section only, addresses and `$(...)` commands alike; feeds without a name get the title that the database knows; settings are not written |
| `FeedsTheorems.GroupedIsPermutation` | src/parse_xml/setup-opml-parser.c:110-124 | sorting by section loses and invents nothing |
| `FeedsTheorems.LinesOfText` | src/feeds-parse.c:53-64 | printed lines are read as they are, unless one ends in a lone backslash |
| `FeedsTheorems.FeedTextParts` | src/feeds-parse.c:103-131 | the line of a feed is taken apart as it was put together |
| `FeedsTheorems.LoadedIsOk` | src/sections.c:105-184 | whatever the file says, if it is loaded no section and no feed is there twice, every feed is listed in its section, no section lists a feed twice, the global section lists all feeds in order, and every line of settings that was applied to a feed was in order |
| `FeedsMeaning.OwnSettingsPrevail` | src/feeds-parse.c:155-157 | a feed line adds to the settings of its feed those for all feeds, then those of the section, and its own last |
| `FeedsMeaning.FeedIsPlaced` | src/sections.c:139-184 | a feed that is given again keeps its place and its name and moves to the section; a new one is added at the end, named after the line or its title; all others stay |
| `FeedsMeaning.SectionIsEntered` | src/feeds-parse.c:73-142 | a section line makes its section the current one, adds it at the end if it is new, and replaces the settings of the section before; those of the first section are for all feeds |
| `FeedsMeaning.SettingsAreBehindAngle` | src/feeds-parse.c:119-142 | what stands behind `<` are the settings of the line, with a name in quotes before it or without |
| `FeedsMeaning.LineIsRefusedIff` | src/feeds-parse.c:66-157 | the exact conditions under which a line is refused |
| `FeedsMeaning.LineGoesOn` | src/feeds-parse.c:53-64 | a backslash before a newline joins two lines |
| `FeedsMeaning.CommandEndsWhereClosed` | src/feeds-parse.c:81-100 | a command ends behind the first parenthesis that is not escaped and has an even number of quotation marks of either kind before it, escaped ones not counted, or with the line |
| `FeedsMeaning.TrimIsMiddle` | src/string.c:151-168 | trimming takes all white space off both ends and nothing else |
| `FeedsMeaning.InlinedKeeps` | src/string.c:204-216 | all other characters stay in order, and no white space but single spaces is left |
| `FeedsMeaning.InlinedEnds` | src/string.c:204-216 | a space stands wherever there was white space |
| `FeedsMeaning.HeadIsSeparated` | src/parse_xml/setup-opml-parser.c:105-108 | in the written file every section but the global one has its head, and an empty line before it unless the file begins with it |
| `FeedsFile.ReadLine` | src/feeds-parse.c:53-64 | a line ends at a newline without a backslash before it |
| `FeedsFile.TrimWhitespace` | src/string.c:151-168 | whitespace is taken off both ends |
| `FeedsFile.Inlinefy` | src/string.c:204-216 | whitespace becomes spaces, and one space stands for several |
| `FeedsFile.EndOfCommand` | src/feeds-parse.c:81-100 | a command ends at the parenthesis that is neither escaped nor quoted |
| `FeedsFile.TakeName` | src/feeds-parse.c:119-131 | the optional name in quotes, or an error without the closing one |
| `FeedsFile.FeedsFile.MakeSureSectionExists` | src/sections.c:105-126 | the section with this name, added at the end when there is none |
| `FeedsFile.FeedsFile.CopyFeedToGlobalSection` | src/sections.c:139-166 | the feed with this address, added with its name or title when there is none |
| `FeedsFile.FeedsFile.CopyFeedToSection` | src/sections.c:168-184 | the feed belongs to the section; one that was there moves and keeps its name |
| `FeedsFile.FeedsFile.SectionLine` | src/feeds-parse.c:73-80 | a section line makes its section the current one and keeps its settings, for all feeds when it is the global one |
| `FeedsFile.FeedsFile.FeedLine` | src/feeds-parse.c:81-151 | a feed line adds its feed and applies the settings for all feeds, those of the section and its own, or is refused |
| `FeedsFile.FeedsFile.ProcessConfigLine` | src/load_config/config-parse.c:51-60 | a line of settings in order is applied to the feed, an empty one does nothing, a bad one is refused |
| `FeedsFile.FeedsFile.ApplySettings` | src/feeds-parse.c:155-157 | the settings for all feeds, of the section and of the feed are applied in this order, and the first bad line refuses the file |
| `FeedsFile.FeedsFile.ParseFeedsFile` | src/feeds-parse.c:22-181 | the file as a whole, line by line; without a feed or with a bad line of settings it is refused |
| `FeedsFile.FeedsFile.WriteFeedsFile` | src/parse_xml/setup-opml-parser.c:85-133 | the text that is printed, section by section |
| `CapTrie.CapTrie.Add` | src/termbox2.h:2237-2280 | a sequence becomes a leaf with its meaning; a sequence that was added before is a collision and changes nothing; an empty one is ignored |
| `CapTrie.CapTrie.Find` | src/termbox2.h:2282-2311 | the node and the length of the longest beginning of the input that begins an added sequence; the node stands for that beginning and no other; it is a leaf exactly when that is a whole sequence, and then carries its meaning; it has children exactly when a longer sequence begins with it |
| `CapTrie.ChildrenIff` | src/termbox2.h:2282-2311 | a node has children exactly when an added sequence properly extends its path |
| `CapTrie.PathsAreBeginnings` | src/termbox2.h:2243-2269 | the nodes of the trie stand for exactly the beginnings of the added sequences |
| `CapTrie.FirstMeaningWins` | src/termbox2.h:2208-2235 | the table holds every sequence of the list with the meaning that comes first |
| `CapTrie.InitCapTrie` | src/termbox2.h:2208-2235 | the trie holds the sequences of the terminal and then the built-in ones, the first meaning of each |
| `Base64.RoundTrip` | src/string.c:246-261 | decoding as in section 4 of RFC 4648 returns the data |
| `Base64.LengthAndPadding` | src/string.c:257-260 | four symbols for every three bytes begun, padded at the end by as many as bytes are missing, and nowhere else |
| `Base64.TableIsAlphabet` | src/string.c:236-245 | the encoding table is the alphabet of RFC 4648 |
| `Base64.PaddingOver` | src/string.c:257-260 | writing the padding over the last symbols gives the encoding of the standard |
| `Base64.Encode` | src/string.c:233-262 | the loop computes the encoding of the standard |

## Left out

- HTML elements other than tables: their handlers depend on Gumbo's tree. The table takes its cells as
  they come, with their lines of text.
- RenderText.PageShowsBlocks: the blocks are plain and raw ones. HTML blocks also set the indentation of
  lines that have text already (`src/render_data/render-text-html.c:231-296`), which no theorem here covers.
- RenderText.RenderBlock: the branch for HTML blocks is left out, for the same reason.
- RenderText.RenderData: pages with HTML blocks are left out, for the same reason.
- TablePrinting.TableStands: columns are counted in characters, as the source does, so double-width
  characters shift what is behind them. Tables without room are wrapped as `LineText.RunText` says.
- Hyphenation.TextIsSet: for limits that leave room for a double-width character behind the indentation, and
  for texts without tabs, which are spaces to it (`LineTheorems.TabReachesGap`).
- GreedyWrap.DocumentIsGreedy: for the same limits.
- curl, Expat, SQLite, terminal and thread calls: they are outcomes of steps.
- A completion that writes several flags of an entry without the lock (`src/downloader.c:314-342`,
  `src/executor.c:75-76`) is one step here.
- What wakes a worker up: naps end after a second, so only the order of the steps matters. The shutdown
  of the threads and `queue_destroy` at the end of the program.
- The notifications that are sent when a batch is finished, and the texts of errors.
- QueueTheorems.QueueEmpties: says nothing about a transfer or a command that never ends.
- What a line of settings means, and which lines are in order: the latter is a parameter.
- NUL characters in texts, failed allocations, and buffer growth except where bytes are moved in place.
- Serialize.Text.SerializeArray: a target that does not exist yet is an empty one here.
- Viewport: additions are on unbounded numbers; only subtractions wrap around.
- Menus: leaving the program through a signal, and what menus show.
- Screen: showing, hiding and setting the cursor, output modes, clusters of several code points, and the
  bytes of the escape sequences. The clear attributes are set when the screen starts.
- Zero-width characters, which are filtered out before they reach the cells (`src/curses.c:90-94`).
- The conversion between multi-byte and wide characters.
- Feed formats, dates, database queries, key bindings, colours, configuration, downloads and logging.
