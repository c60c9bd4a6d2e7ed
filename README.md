# Infinity ITS mission PDF converter — a verified model

The converter reads the rulebook PDF of an Infinity ITS season and writes one
JSON record per mission. It has two generations of the pipeline, and this
project models the core of both.

**The `main.py` engine.** It works in five steps:

1. It reads the table of contents on page index 1.
2. It gives every ITS scenario and every Direct Action the range of pages up
   to the next one.
3. It collects the text of each range.
4. It cuts that text into sections with regular expressions: tactical
   support, reinforcements, mission objectives, forces and deployment,
   scenario special rules (with the skill-rule sub-parser), and the end of
   the mission.
5. It assembles a scenario record from those sections.

**The `mission_parser.py` segmenter.** It works in three steps:

1. It scans the contents lines for the scenario and direct-action lists.
2. It cuts every page into header/sub-header blocks.
3. It folds the blocks into a mission record.

Both generations share the key, title and dotted-path helpers of
`lib/string_utils.py`. The interactive mapper contributes its pure helpers:
the dict paths it offers, the type map it shows, and the option list.

## How the model reads the program

- **Documents and pages.** A document is the sequence of its page texts,
  which is what `page.get_text()` returns. Page indexing follows Python, so
  page `-1` is the last page.
- **Contents lines.** For the segmenter, contents lines and page lines are
  given as sequences of lines.
- **Regular expressions.** Every regular expression is written out as a
  scanner (`Regex.Matcher`) whose answer at a position is the one Python's
  backtracking engine gives. Above them sit generic drivers for `re.search`,
  `re.finditer`/`re.findall`, `re.sub` and `re.split`.
- **Dicts.** Python dicts are insertion-ordered pair lists (`OrderedDict`):
  assigning to a present key replaces its value in place.
- **JSON.** JSON values are the `Json.Value` datatype.
- **Loops.** Where the source loops and accumulates, the model is a method
  with a loop. The method is proved equal to a function. The properties are
  then lemmas about that function.
- **Raised exceptions.** Exceptions the source can raise are `Result`
  errors:
  - `int()` of a banner's page number in `getMissionPagesFromPdf`;
  - `lines[INFINITY]` in `getBlocksFromPages`;
  - indexing a text value as a dict in `blocksToMissionInfo`.
- **Sentinels.** `INFINITY` and `END_MISSION` come from `lib/constants`,
  which is not part of this model. `INFINITY` is "no index yet": an absent
  `Option`, greater than every line index. `END_MISSION` is a constructor of
  its own.
- **Behaviour kept as written.** These cases are modelled as the code
  behaves:
  - an `ITS SCENARIOS` banner met inside the direct-action section is
    recorded as a direct-action entry (`MissionToc.ScenarioBannerAfterDirectActions`);
  - the sub-header positions of a page are cleared only when a new page
    starts;
  - the block loop's `i` shadows the page index;
  - the skill-type pattern has no `MOVEMENT` alternative, although the skill
    check has one;
  - only one leading `^` is removed from an objective item, so an item can
    still start with `^` (`Objectives.LeadingCaretSub` states exactly what
    is removed).

## Model

| member | source | states |
|---|---|---|
| Toc.TocEntryShape | main.py:163 | A contents-entry match captures a name of two or more characters from `[A-Z\s-]` that starts upper-case and is followed by whitespace, then the page digits. |
| Toc.CollectEntries | main.py:163-169 | The loop over `findall` returns exactly the entries kept from all matches, in order. |
| Toc.AddEntry | main.py:165-169 | The loop body appends the stripped name and the page when the name passes the filter, and nothing otherwise. |
| Toc.EntriesSpec | main.py:163-169 | An item is in the list iff some match yields it and its name passes the filter: longer than three characters, and for ITS not one of the three headings. |
| Toc.ParseTableOfContents | main.py:134-188 | The two lists equal `TableOfContents`, built from the whitespace-collapsed page: the ITS section between its banner and `ITS DIRECT ACTION`, and the Direct Action section up to `RESILIENCE OPERATIONS` or `CHANGELOG`. |
| Toc.TableOfContentsNames | main.py:145-186 | Every listed scenario passes its filter and has the name shape; names hold no line break, because the page was collapsed to single spaces. |
| Toc.SectionNames | main.py:160-186 | Within one section, every kept name passes the filter, has the name shape and is single-spaced. |
| Toc.ItemName | main.py:163-168 | A kept name has the name shape; in single-spaced text, `strip` leaves the captured name unchanged. |
| Toc.MissingSections | main.py:152-186 | Without an `ITS SCENARIOS <page>` section the ITS list is empty, and likewise for Direct Actions. |
| Pages.ConcatPages | main.py:196-200 | The page loop yields `RawText`: each page of the range followed by a line feed, skipping indices past the last page. |
| Pages.AppendPage | main.py:197-200 | A page inside the document is appended with its line feed; a page past the end adds nothing. |
| Pages.RawTextNext | main.py:196-200 | One more page in the range extends the text by exactly that page's chunk. |
| Pages.RawTextPastEnd | main.py:196-200 | Range ends past the document add nothing: the text equals the text up to the last page. |
| PageText.ExtractTextFromPages | main.py:190-208 | The result is the normalised raw text of the range, so (`PageText.NormalizeClean`) it has no tab, no two adjacent blanks, no three line feeds in a row, and no whitespace at either end. |
| PageText.NormalizeClean | main.py:202-208 | The normalised text holds no tab, no two adjacent spaces or tabs, no three line feeds in a row, and no whitespace at either end. |
| PageText.BlankRunCollapses | main.py:204 | After the blank-run substitution no two spaces or tabs are adjacent; the output starts with a blank only where the input does. |
| PageText.NewlineRunHead | main.py:207 | The line-feed substitution keeps the first character, and its output starts with two line feeds only where the input does. |
| PageText.NewlineRunCollapses | main.py:207 | After the line-feed substitution no three line feeds follow each other. |
| PageText.NewlineRunKeepsBlanks | main.py:207 | The line-feed substitution keeps blanks collapsed. |
| PageText.CollapsedSlice | main.py:208 | Stripping, a slice, keeps both collapse properties. |
| Scalars.TacticalSupportOptions | main.py:242-252 | The count is present iff the pattern matches anywhere in the text. |
| Scalars.TacticalSupportShape | main.py:247-252 | What is captured after the label is a non-empty run of digits. |
| Scalars.TacticalSupportIgnoresCase | main.py:247 | The label is matched case-insensitively: lower-casing the text does not change the result. |
| Scalars.SuitableForReinforcements | main.py:254-264 | The answer is present iff the pattern matches. |
| Scalars.ReinforcementsShape | main.py:259 | The captured answer is `yes` or `no`, in any letter case. |
| Scalars.ReinforcementsAnswer | main.py:259-264 | The answer is `True` exactly when the captured word is `yes` in any letter case, so `.upper() == "YES"` and the case-insensitive match agree. |
| Scalars.ReinforcementsIgnoresCase | main.py:259 | Lower-casing the text does not change the answer. |
| Scalars.EndOfMission | main.py:648-671 | The text is present iff the `END OF THE MISSION` section is found; otherwise it is `None`. |
| Scalars.EndOfMissionText | main.py:656-671 | The text is a prefix of the cleaned section, at most 1000 characters, all of it when it fits, single-spaced and without a line break. |
| Scalars.EndOfMissionFound | main.py:656 | Once the header and some whitespace occur, a text is produced: the lazy group always stops, at the latest at the end of the text. |
| Objectives.LowerNotHeader | main.py:301-306 | A line written in lower case never opens a subsection (the header test needs an upper-case letter). |
| Objectives.LeadingCaretSub | main.py:321 | The leading-caret substitution removes one leading `^` and the whitespace after it, and nothing else. |
| Objectives.CleanItemShape | main.py:319-324 | A cleaned piece has no whitespace at either end, single spaces only, and no line break. |
| Objectives.KeepLongSpec | main.py:325-326 | A piece is kept iff it is one of the pieces and longer than five characters. |
| Objectives.ItemsGood | main.py:315-326 | Every stored item is longer than five characters, stripped, single-spaced and on one line. |
| Objectives.CollectItems | main.py:313-326 | The item loop returns exactly `Items(content)`: split at the `^` bullets, cleaned, short ones dropped, in order. |
| Objectives.FlushSection | main.py:310-333 | Closing a subsection (written once for both copies in the source) yields `Flush` of the loop state. |
| Objectives.FlushGet | main.py:310-333 | Closing stores the items under the header's key, replacing an earlier subsection with that key. Every other key keeps its items. A subsection without a surviving item stores nothing. |
| Objectives.ExtractObjectives | main.py:266-362 | The line loop returns `ObjectivesOf(text)`, and `{}` when the section is missing. |
| Objectives.RunNext | main.py:292-341 | One more line advances the loop by exactly one step. |
| Objectives.RunAppend | main.py:292-341 | Running two stretches of lines is running the second from where the first stopped. |
| Objectives.RunPreamble | main.py:292-341 | Lines before the first header leave the loop state as it started. |
| Objectives.PreambleIgnored | main.py:292-341 | Lines before the first header do not change the result. |
| Objectives.FlushWellFormed | main.py:310-333 | Closing a subsection keeps the result well formed. |
| Objectives.RunWellFormed | main.py:292-341 | The loop keeps the result well formed. |
| Objectives.ObjectivesWellFormed | main.py:266-362 | For any text: keys have the key shape and occur once, every stored subsection has at least one item, and every item is good. |
| HeaderKey.SectionKeyShape | main.py:330 | A key has no upper-case letter, space, parenthesis, hyphen or slash. |
| HeaderKey.SectionKeyIdempotent | main.py:330 | Making a key from a key gives it back. |
| HeaderKey.ReplaceCharOut | main.py:330 | Each `replace` step removes its character and brings in no character but its replacement. |
| Deployment.SectionShape | main.py:377 | A section match has one group inside the text. |
| Deployment.RowTailShape | main.py:394-404 | After army points of three or four digits, a row match captures the SWC digits, then the table size and the zone, each non-empty and not padded. |
| Deployment.RowAtShape | main.py:394-404 | Every row match has the row shape. |
| Deployment.RowMatchShape | main.py:394-404 | Every found row match has the row shape. |
| Deployment.SizeTrimmed | main.py:394-404 | A table-size capture starts with a digit and ends with the `n` of `in`. |
| Deployment.RadiusTrimmed | main.py:394-404 | A radius capture starts with `R` and ends with the `n` of `in`. |
| Deployment.ZoneTrimmed | main.py:394-404 | A zone capture, either alternative, is not padded. |
| Deployment.RowMatches | main.py:394-404 | Every row match of the section has the row shape. |
| Deployment.RowsNext | main.py:398-404 | One more match appends exactly its row. |
| Deployment.NoteAtShape | main.py:413 | A note match is one group that ends with its full stop. |
| Deployment.NoteMatchShape | main.py:413 | Every found note match has the note shape. |
| Deployment.NoteMatches | main.py:413 | Every note match of the section has the note shape. |
| Deployment.ExtractDeployment | main.py:364-423 | The row loop returns `DeploymentOf(text)`. Without the section the result is the default record: `SIDE A and SIDE B`, no row, no note. |
| Deployment.RowGood | main.py:398-404 | A stored row has army points below 10000 and non-empty, unpadded size and zone texts. |
| Deployment.RowsGood | main.py:398-404 | There is one row per match, and every row is good. |
| Deployment.NoteGood | main.py:413-418 | A stored note is on one line, has no whitespace at either end, and ends with a full stop. |
| Deployment.NotesGood | main.py:413-418 | There is one note per match, and every note is good. |
| Deployment.DeploymentGood | main.py:364-423 | Every deployment record has the fixed `sides` label, good rows and good notes. |
| SkillRule.SkillTypeShape | main.py:583-589 | A skill-type match captures `SHORT` or `LONG` in any letter case, then the labels. |
| SkillRule.SkillTypeOf | main.py:583-589 | The skill type is present iff its pattern matches; otherwise the key is absent. |
| SkillRule.SkillTypeText | main.py:583-589 | The skill type is `short skill, ` or `long skill, ` followed by clean labels. |
| SkillRule.KindLabels | main.py:589 | A kind and clean labels compose to the skill-type form. |
| SkillRule.StripSingleSpaced | main.py:588 | Stripping single-spaced text gives clean text. |
| SkillRule.FieldShape | main.py:597-632 | A field match has one group inside the text. |
| SkillRule.FieldOf | main.py:597-641 | Each of requirements, effects and cancelation is present iff its anchor matches; otherwise it is absent, not null. |
| SkillRule.CleanFieldText | main.py:602-609 | A cleaned field is clean (stripped, single-spaced, one line) and holds no U+2008. |
| SkillRule.FieldFound | main.py:597-632 | Once the field word is followed by whitespace holding a line feed, the field is present: its lazy group always stops. |
| SkillRule.SkillRuleText | main.py:567-646 | The rule is named by its header, every present field is clean and free of U+2008, and the skill type has its form. |
| SpecialRules.HeaderLineShape | main.py:461 | An all-caps header line match is non-empty, and its group lies inside it. |
| SpecialRules.HeaderOf | main.py:461-466 | A header spans its whole line match, and that span is non-empty. |
| SpecialRules.HeaderLines | main.py:461 | Every all-caps line match is a genuine match of the pattern. |
| SpecialRules.LineHeadersOrdered | main.py:461-466 | The all-caps lines are non-empty, in order, and do not overlap. |
| SpecialRules.HeadersOrdered | main.py:461-466 | Non-empty headers, each ending before the next starts, are ordered. |
| SpecialRules.FindHeaders | main.py:461-477 | The first pass returns exactly the accepted headers of the all-caps lines. |
| SpecialRules.KeepAccepted | main.py:461-477 | The filtering loop returns exactly `Candidates` of its input. |
| SpecialRules.CandidatesNext | main.py:461-477 | One more line adds its header iff the header is accepted. |
| SpecialRules.CandidatesSpec | main.py:450-477 | A header is a candidate iff it is one of the headers and is accepted: no small letter, not a subsection heading, at least three characters. |
| SpecialRules.CandidatesOrdered | main.py:461-477 | Filtering keeps the headers ordered. |
| SpecialRules.OrderedSnoc | main.py:477 | Appending a header that starts after every other one ends keeps the list ordered. |
| SpecialRules.CandidateHeaders | main.py:461-477 | Every candidate is an accepted header of an all-caps line, and the candidates are ordered. |
| SpecialRules.JoinsAt | main.py:496-503 | Candidate `j`'s flag is set iff only whitespace lies before it and it is short and not a subsection heading. |
| SpecialRules.ShouldMerge | main.py:496-503 | The look-ahead test answers whether the next candidate continues the title. |
| SpecialRules.RunEnd | main.py:493-509 | A run ends at or after its start, inside the list. |
| SpecialRules.Range | main.py:508 | The set holds exactly the indices in the half-open interval. |
| SpecialRules.RunNext | main.py:493-509 | A continuing candidate extends the run and the set of absorbed indices by one. |
| SpecialRules.MergeRun | main.py:493-509 | The look-ahead loop stops at the end of the run, builds the merged header, and marks exactly the absorbed candidates as skipped. |
| SpecialRules.MergeAllNext | main.py:481-515 | Taking the merged header at a candidate moves on to the candidate after its run. |
| SpecialRules.SkipAfterRun | main.py:485-509 | After a run, the absorbed candidates are skipped and no later candidate is. |
| SpecialRules.MergeHeaders | main.py:481-515 | The second pass returns `MergeAll`: one merged header per run, in order, with no candidate used twice. |
| SpecialRules.RunSpec | main.py:493-509 | A title absorbs a candidate iff the candidate continues it: all candidates in the run continue, and the one after the run does not. |
| SpecialRules.RunEndSpec | main.py:493-509 | Every flag inside a run is set, and the flag after it is not. |
| SpecialRules.OrderedCons | main.py:481-515 | Putting a header in front of a list that starts after it ends keeps the list ordered. |
| SpecialRules.MergeAllOrdered | main.py:481-515 | Merged headers keep increasing start order and do not overlap, number at most the candidates, and each starts no earlier than its first candidate. |
| SpecialRules.RuleValueOf | main.py:536-553 | A body yields a skill rule iff it names a skill; it yields nothing iff it names no skill and its cleaned text is empty. |
| SpecialRules.SectionShape | main.py:438 | A section match has one group inside the text. |
| SpecialRules.CollectRule | main.py:520-555 | The loop body stores the entry of merged header `k`. |
| SpecialRules.CollectRules | main.py:520-555 | The third pass stores the entries of all merged headers, in order. |
| SpecialRules.ExtractSpecialRules | main.py:425-563 | The three passes return `SpecialRulesOf(text)`, and `{}` when the section is missing. |
| SpecialRules.RuleValueGood | main.py:536-553 | A text rule is non-empty, at most 2000 characters, single-spaced on one line, and starts with a non-space. A skill rule has clean fields and is named by its header. |
| SpecialRules.EntryGood | main.py:526-553 | Every stored pair has a key of the key shape and a good rule. |
| SpecialRules.StoreGood | main.py:551-555 | Storing good pairs keeps keys distinct and every pair good. |
| SpecialRules.SpecialRulesGood | main.py:425-563 | For any text, keys occur once and have the key shape, text rules are clean and at most 2000 characters, and skill rules are stored under their own name's key. |
| SpecialRules.RuleHeadersOrdered | main.py:481-515 | The merged headers of a section are ordered and no more than the candidates. |
| SpecialRules.EntryGet | main.py:520-555 | A header stores its rule under its key, replacing an earlier rule with that key. A body shorter than ten characters, or one that yields no rule, stores nothing. Every other key keeps its rule. |
| Scenario.ParseScenario | main.py:223-240 | The record equals `ScenarioOf`: every section is extracted from the same text. |
| Scenario.ScenarioGood | main.py:223-240 | The record keeps the name, its type is `Direct Action` iff it is flagged as one, and every section is well formed. |
| Scenario.FindPageWithText | main.py:210-221 | The page loop with its early return yields `FindPage`. |
| Scenario.FindPageSpec | main.py:210-221 | A result other than `-1` is a page of the range that holds the text, and no earlier page of the range does. `-1` means no page holds it, or (from a negative start) page `-1` is the first that does. |
| Scenario.RangeStart | main.py:66 | A contents page number is at least 0, so a range never starts below page `-1`. |
| Scenario.ItsJob | main.py:64-84 | The ITS loop computes the range and text of entry `i`. |
| Scenario.DaJob | main.py:101-119 | The Direct Action loop computes the range and text of entry `i`. The last range is closed by the search for `RESILIENCE OPERATIONS`, or runs to the end of the document when the search returns `-1`. |
| Scenario.AppendScenario | main.py:97-98 | A loop body parses the job of entry `k` and appends its scenario. |
| Scenario.ExtractIts | main.py:64-98 | The ITS loop yields the scenarios of the ITS entries, in order. |
| Scenario.ExtractDas | main.py:101-128 | The Direct Action loop continues with the scenarios of the Direct Actions. |
| Scenario.ExtractScenarios | main.py:14-132 | The scenarios equal `ScenariosOf(doc)`, read from the contents on page index 1. |
| Scenario.ScenariosFollowContents | main.py:41-128 | There is one scenario per contents entry, in order and carrying its name. ITS scenarios come first and are typed as such; Direct Actions follow. Every record is good. |
| Scenario.ParsedFollowsJobs | main.py:97-128 | Each scenario carries its job's name, is a Direct Action iff its job is, and is good. |
| Scenario.RangesTile | main.py:64-113 | Each range ends where the next starts, and the last ITS range ends where the first Direct Action starts. The last range ends at the end of the document, or at the first page from its start that mentions `RESILIENCE OPERATIONS`. |
| Scenario.LastDirectActionEmpty | main.py:106-119 | When the last Direct Action's first page already mentions `RESILIENCE OPERATIONS`, its range and text are empty. |
| Scenario.MapSeqAt | main.py:97-128 | Element `k` of the mapped list is the image of element `k`. |
| MissionToc.EntryOfComplete | mission_parser.py:52-58 | A line of the shape `<text><whitespace><digits>` at its end is an entry, with its stripped name and its page. |
| MissionToc.EntryOfSound | mission_parser.py:52-58 | Every entry comes from a line of that shape. |
| MissionToc.EntryClean | mission_parser.py:54-58 | Entry names are stripped, and pages are not negative. |
| MissionToc.ClassifiedAt | mission_parser.py:23-58 | Line `i` is classified on its own. |
| MissionToc.ScenarioOpen | mission_parser.py:29-44 | `scenarioStartIndex` is below the number of lines read. |
| MissionToc.DirectActionOpen | mission_parser.py:34-45 | `directActionStartIndex` is below the number of lines read. |
| MissionToc.ScenarioOpenSpec | mission_parser.py:29-44 | The scenario section is open at `j` iff line `j` is its banner and no banner follows it. |
| MissionToc.DirectActionOpenSpec | mission_parser.py:34-45 | The direct-action section is open at `j` iff line `j` is its banner and no direct-action or resilience banner follows it. |
| MissionToc.StartsOrder | mission_parser.py:55 | When both indexes are set, the direct-action banner came first. |
| MissionToc.FirstBad | mission_parser.py:32-46 | This is the first line whose banner page fails `int()`, or none. |
| MissionToc.SectionTests | mission_parser.py:51-58 | The source's two index comparisons select exactly the scenario or the direct-action section. |
| MissionToc.ReadTocLine | mission_parser.py:24-58 | One line raises iff its banner page fails `int()`. Otherwise it updates the two indexes and appends what the line contributes to each list. |
| Text.ParseInt | mission_parser.py:32 | `int()` succeeds iff the stripped text is an optional sign followed by digits, where single underscores may stand between two digits. The value is that of the digits without the underscores. |
| Text.ParseIntUnderscores | mission_parser.py:32 | A banner page written `1_2` is read as 12. |
| Text.ParseIntDoubledUnderscore | mission_parser.py:32 | A doubled underscore, as in `1__2`, makes `int()` raise. |
| MissionToc.GetMissionPages | mission_parser.py:13-68 | The scan returns `Pages` of the classified lines: an error at the first bad banner, or the two lists. |
| MissionToc.BannerLines | mission_parser.py:29-58 | Direct-action and resilience banner lines are never entries. The scenario banner line is not a scenario entry. |
| MissionToc.ScenarioListSpec | mission_parser.py:29-58 | The scenario list holds a mission iff a scenario-section line yields it, and an `END_MISSION` sentinel exactly for each direct-action banner's page. |
| MissionToc.DirectActionListSpec | mission_parser.py:34-58 | The direct-action list holds a mission iff a direct-action-section line yields it, and a sentinel exactly for each resilience banner's page. |
| MissionToc.SectionsDisjoint | mission_parser.py:51-58 | No line is an entry of both lists. |
| MissionToc.ScenarioBannerAfterDirectActions | mission_parser.py:29-58 | An `ITS SCENARIOS` banner met while the direct-action section is open does not close it. When that line ends in a page number it is recorded as a direct-action entry. |
| MissionBlocks.SectionPairsStep | mission_parser.py:112-119 | One more sub-header stores its key and its joined lines. |
| MissionBlocks.LineStep | mission_parser.py:89-149 | A line fails iff it is the page's last line, a header, and no header came before it. Otherwise the scan state stays valid. |
| MissionBlocks.ScanLines | mission_parser.py:89-149 | The scan over the first `n` lines keeps a valid state. |
| MissionBlocks.ScanLinesNext | mission_parser.py:89-149 | One more line is one more `LineStep`. |
| MissionBlocks.ErrorSticks | mission_parser.py:81-149 | After the first failing page, further pages do not change the result. |
| MissionBlocks.GetBlocksFromPages | mission_parser.py:70-153 | The page loop returns `BlocksFromPages`: the blocks of every page, in order, or the first failure. |
| MissionBlocks.ScanPage | mission_parser.py:81-149 | The line loop of one page returns `PageBlocks`. |
| MissionBlocks.ScanLine | mission_parser.py:89-149 | The body for line `n` continues the scan, and it fails only on the page's last line. |
| MissionBlocks.CollectSections | mission_parser.py:107-119 | The sub-block loop builds the dict of the sub-header pairs. |
| MissionBlocks.BuildBlock | mission_parser.py:102-139 | The block built for a trigger line equals `NewBlock`. |
| MissionBlocks.HeaderLines | mission_parser.py:97-143 | Header line indices lie below the current line. |
| MissionBlocks.LineStepTracks | mission_parser.py:89-149 | The state tracks the last header and the pending sub-headers of the lines read. |
| MissionBlocks.ScanTracksLines | mission_parser.py:81-149 | A page fails iff its last line is a header and no header came before it. Otherwise the state tracks the page. |
| MissionBlocks.KeyedByHeader | mission_parser.py:125 | Adding a header keeps every block keyed by its header line. |
| MissionBlocks.KeyedByClose | mission_parser.py:125-135 | A closed block is keyed by `toKey` of the header line before it. |
| MissionBlocks.LineStepKeys | mission_parser.py:97-143 | One line keeps the blocks keyed by their header lines. |
| MissionBlocks.ScanKeys | mission_parser.py:89-149 | The whole scan keeps the blocks keyed by their header lines. |
| MissionBlocks.PageBlocksShape | mission_parser.py:81-149 | A page fails iff its last line is a header with no header before it. Otherwise there is one block per header after the first, keyed by the header before it. No block spans two pages. |
| MissionBlocks.BlocksAppendPage | mission_parser.py:81-149 | Pages are independent: one more page only appends its own blocks. |
| MissionBlocks.NewBlockText | mission_parser.py:120-129 | Without sub-headers, the body is the lines strictly after the header up to the trigger (the last line included when it is the trigger), joined and stripped. An empty body, exactly when all those lines are blank, becomes `{}`. |
| MissionBlocks.NewBlockSections | mission_parser.py:107-119 | With sub-headers, the content is a dict keyed by `toKey` of the sub-header lines, each key once, each holding the text of the last section with that key. |
| MissionInfo.StoreBlock | mission_parser.py:164-174 | The loop body is one `Step` of the fold. |
| MissionInfo.BlocksToMissionInfo | mission_parser.py:155-176 | The loop returns the fold from `{name: toTitle(missionName), scenario_special_rules: {}}`. |
| MissionInfo.FoldErrorSticks | mission_parser.py:163-174 | Once the fold fails, later blocks do not change the result. |
| MissionInfo.MissionFoldNext | mission_parser.py:163-174 | One more block is one more step. |
| MissionInfo.FirstSpecialRules | mission_parser.py:173-174 | The result is the index of the first block keyed `scenario_special_rules`, or the block count. |
| MissionInfo.StoredSlice | mission_parser.py:167-171 | One more block stores its pair when its content is not empty. |
| MissionInfo.NestSnocErr | mission_parser.py:169 | After a failed nesting, further nested stores stay failed. |
| MissionInfo.NestSnocOk | mission_parser.py:169 | A successful nesting continues with one more nested store. |
| MissionInfo.NestStep | mission_parser.py:167-171 | The nested phase of the fold is the reference nesting, block by block. |
| MissionInfo.FoldBefore | mission_parser.py:163-174 | Up to and including the first special-rules block, blocks are stored at the top level. |
| MissionInfo.FoldAfter | mission_parser.py:168-169 | After that block, blocks are stored under `scenario_special_rules`. |
| MissionInfo.MissionInfoIsReference | mission_parser.py:155-176 | The fold equals the reference: the top level from the blocks up to the first special-rules block, then the later blocks nested under it. |
| MissionInfo.TopLevelGet | mission_parser.py:157-171 | Top-level keys are distinct and include `name` and `scenario_special_rules`. A key holds the last non-empty content stored under it before nesting, or its initial value. |
| MissionInfo.NestGet | mission_parser.py:168-169 | After nesting, `scenario_special_rules` is a dict holding the last content stored for each nested key. The other keys are unchanged. |
| StringUtils.ToTitle | lib/string_utils.py:1-6 | For text whose words are non-empty: the length, the lower-case form and the word count are kept, and every word is upper-first and lower-rest. |
| StringUtils.CapitalizeWord | lib/string_utils.py:4-5 | Capitalising a lower-case word gives a title word with the same lower-case form. |
| StringUtils.LowerJoin | lib/string_utils.py:2-6 | Joining words lower-cases to the joined lower-case words. |
| StringUtils.SplitNoUpper | lib/string_utils.py:2-6 | The pieces of lower-case text are lower-case. |
| StringUtils.LowerConcat | lib/string_utils.py:2 | Lower-casing distributes over concatenation. |
| StringUtils.ToKeyShape | lib/string_utils.py:8-9 | A key is as long as the stripped text, lower-case, free of spaces, and stripped. |
| StringUtils.ToKeyIdempotent | lib/string_utils.py:8-9 | `toKey(toKey(s)) == toKey(s)`. |
| StringUtils.LinesToContentSpec | lib/string_utils.py:11-12 | The content is stripped; one line is just stripped; the content is empty iff every line is blank (so `[]` gives `""`). |
| StringUtils.JoinBlank | lib/string_utils.py:11-12 | The joined lines are blank iff every line is. |
| StringUtils.StrToKeysSpec | lib/string_utils.py:14-18 | A path splits into one more key than it has dots, no key contains a dot, and `keysToStr(strToKeys(s)) == s`. |
| StringUtils.KeysToStrSpec | lib/string_utils.py:14-18 | `strToKeys(keysToStr(ks)) == ks` for a non-empty list of dot-free keys. |
| Text.StripSpec | lib/string_utils.py:9 | `strip` removes exactly the whitespace at both ends, leaves stripped text unchanged, and empties exactly the all-whitespace strings. |
| Text.JoinSplit | lib/string_utils.py:14-18 | Splitting and re-joining with the same separator gives the string back. |
| Text.SplitJoin | lib/string_utils.py:14-18 | Joining separator-free pieces and splitting again gives the pieces back. |
| Text.ReplaceCharIsReplace | lib/string_utils.py:9 | `replace` of one character by another works position by position. |
| Text.CleanedText | main.py:548-549 | Collapsing whitespace runs and stripping gives single-spaced text without a line break. |
| Text.Truncate | main.py:553 | The result is at most `n` characters, is a prefix of the text, and is all of it when it fits. |
| InteractiveMapper.PropsArePaths | interactive_mapper.py:11-19 | The `j`-th emitted path is `keysToStr(ancestors + [key, ...])` of the `j`-th key path. |
| InteractiveMapper.EntryPropsArePaths | interactive_mapper.py:15-17 | An entry emits its own path, then the paths inside its dict. |
| InteractiveMapper.DottedConcat | interactive_mapper.py:14-19 | Concatenated emissions keep the dotted correspondence. |
| InteractiveMapper.DottedUnder | interactive_mapper.py:16-17 | Paths under a key are dotted with the key among the ancestors. |
| InteractiveMapper.Under | interactive_mapper.py:17 | Every path gets the key in front. |
| InteractiveMapper.PathsSound | interactive_mapper.py:11-19 | Every key path is non-empty and leads through dicts to a dict. |
| InteractiveMapper.PathsComplete | interactive_mapper.py:11-19 | Every non-empty key path to a dict is emitted, at any depth. |
| InteractiveMapper.PathsFromIncludes | interactive_mapper.py:14-19 | The paths of a later entry are among the paths from an earlier start. |
| InteractiveMapper.EntryPathsUnder | interactive_mapper.py:16-17 | A path inside a dict-valued entry, prefixed with its key, is one of the entry's paths. |
| InteractiveMapper.PathsHeads | interactive_mapper.py:14-19 | Paths from entry `i` on start with the key of entry `i` or of a later entry. |
| InteractiveMapper.PathsDistinct | interactive_mapper.py:11-19 | No path is emitted twice: exactly one per dict-valued key. |
| InteractiveMapper.ParentFirstConcat | interactive_mapper.py:14-19 | Concatenating parent-first path lists keeps them parent-first. |
| InteractiveMapper.ParentFirstUnder | interactive_mapper.py:16-17 | A key's own path followed by the paths under it is parent-first. |
| InteractiveMapper.PathsParentFirst | interactive_mapper.py:15-17 | A dict's path is emitted before the paths of its descendants. |
| InteractiveMapper.PathsDotFree | interactive_mapper.py:16 | When no key contains a dot, no key of any path does. |
| InteractiveMapper.GetAllPropsWalk | interactive_mapper.py:119-124 | When no key contains a dot, splitting any offered path with `strToKeys` walks through dicts only and ends at a dict. |
| InteractiveMapper.MapFromEntries | interactive_mapper.py:27-34 | Entry `i` of the map holds the key of entry `i` and its mapped value. |
| InteractiveMapper.MakeMapSpec | interactive_mapper.py:27-34 | `makeMap` keeps the keys, their order and the dict nesting at every level. Every other value becomes its type name, so all leaves are strings. |
| InteractiveMapper.SameShapeProps | interactive_mapper.py:11-19 | Two dicts of the same shape offer the same paths. |
| InteractiveMapper.MakeMapSameProps | interactive_mapper.py:27-34 | The structure shown has exactly the targets the mission offers. |
| InteractiveMapper.OptionsSpec | interactive_mapper.py:58-71 | `drop` and `edit key` are always offered, and `edit content` iff the content is text or an empty dict. The root follows the special options, then the mission's paths. |
| OrderedDict.Put | main.py:331 | After `d[k] = v` the keys are unchanged when `k` was present, and `k` is appended otherwise. |
| OrderedDict.PutGet | main.py:331 | After `d[k] = v`, `k` maps to `v` and every other key keeps its value. |
| OrderedDict.PutDistinct | main.py:331 | Assignment keeps the keys distinct. |
| OrderedDict.PutPut | main.py:331 | Assigning a key twice is assigning it once, with the second value. |
| OrderedDict.FromPairsGet | mission_parser.py:112-119 | A later pair with the same key overwrites an earlier one. |
| OrderedDict.FromPairsKeys | mission_parser.py:112-119 | The keys are exactly the keys of the pairs, without repeats. |
| OrderedDict.PutAllGet | mission_parser.py:163-171 | After the assignments, a key holds its last assigned value, or its old value if it was never assigned. |
| OrderedDict.PutAllKeys | mission_parser.py:163-171 | The assignments keep every present key and keep the keys distinct. |
| Regex.FirstMatchLeftmost | main.py:247 | `re.search` finds the leftmost match: there is none before it, and none at all when it finds nothing. |
| Regex.FindAllSpec | main.py:163 | `re.finditer` matches are genuine, in order, and do not overlap. |
| Regex.SubFromNoMatch | main.py:321 | Where nothing matches, `re.sub` copies the text. |
| Regex.SubKeepsOut | main.py:604-609 | `re.sub` brings in no character that is neither in the text nor in the replacement. |
| Regex.SubRemoves | main.py:604-609 | `re.sub` removes a character that never survives a match attempt and is not in the replacement. |
| Regex.LazyName | main.py:163 | The lazy name ends at the first whitespace that is followed by whitespace and a digit, over name characters only. |
| Regex.FirstStop | main.py:276 | A lazy group ends at the first position where its stop matches, and the stop matches nowhere before it. |
| Regex.FirstStopAtEnd | main.py:656 | A stop that can match at the end of the text always ends the group. |
| Regex.ReinforcementsAt | main.py:259 | A match captures `yes` or `no`, in any letter case. |
| Regex.SentenceEnd | main.py:413 | `[^.]+\.` ends right after a full stop, past at least one other character. |

## Left out

- Reading the PDF (PyMuPDF and pdfplumber) is left out. Page texts and contents lines are inputs. `doc.close()` and the debug, raw-text and console output of `main.py` have no logic and are not modelled.
- The command-line entry point, the JSON file write, logging and the `mappings_store.py` file store are I/O and are not modelled.
- The prompt loop of `interactiveBlocksToMission` is user interaction. Only its option list is modelled.
- `lib/constants` and `lib/logger.py` are not part of this model. The two sentinels are opaque, and every `log` call is a no-op.
- Aliasing in `blocksToMissionInfo` is not modelled. When the `scenario_special_rules` block holds a non-empty dict, the source stores that same dict object, so later nested stores also change the caller's `blocks` list. The model works on values and keeps `blocks` unchanged. No code shown here reads `blocks` afterwards.
- Case, whitespace and digit classes are ASCII only. Python's Unicode case mapping and Unicode whitespace (for example U+2008, which is deleted explicitly) are not modelled. `►` and `•` are literal characters.
- The 0.8 upper-case ratio of the objectives header test is done in integers, as `5 * upper > 4 * (upper + lower)`, not in floating point.
- Scenario.ExtractScenarios: a document needs at least two pages, because the source reads `doc[1]` and raises otherwise.
- Pages.ConcatPages: a range start below `-len(doc)` is excluded. Contents pages are at least 0, so a range starts no lower than page `-1`, which is the last page as in Python.
- Scenario.FindPageSpec: `-1` is both "not found" and, from a negative start, "found on the last page". The lemma states both readings, since the source cannot tell them apart either.
- Pages are the unsplit texts `page.get_text()` returns. `str.splitlines()` in `getMissionPagesFromPdf` and `getBlocksFromPages` is not modelled: those functions take line sequences.
- StringUtils.ToTitle: requires every space-separated word to be non-empty. The source indexes `word[0]` and raises `IndexError` on an empty word.
- Objectives.ItemsGood: does not promise "no leading `^`". The source removes only one leading caret, so an item such as `^ ^ capture` keeps one. The contract states what the code does.
- SkillRule.SkillTypeOf: the skill-type pattern has no `SHORT MOVEMENT` alternative, while the skill check of the special rules has one. Such a rule is parsed as a skill without a `skill_type`, as in the source.
