# Tender-document processing core, modelled in Dafny

This project models the text-processing core of a bid-preparation assistant.
The assistant reads a tender document that was already converted to Markdown
and turns it into the skeleton of a bid document. The model covers these parts:

- **Chapter extraction.** `backend/utils/extract_bid_section.py` cuts the span of
  one chapter out of the text. Table-of-contents lines are skipped only while
  it looks for the start of the body; a table-of-contents line after that can
  still start the capture. The technical chapter stops only at a heading whose
  title names the bid format (投标文件格式, 投标格式 or 投标模板), whatever its
  number. This is `BidSection`.
- **Chinese numerals.** Modules `Numerals` and `StructureExtractor` model the
  numeral converters and their round trips.
- **Outline extraction.** `backend/agents/outline_extractor.py` does the following:
  - finds headings, in three styles;
  - builds the heading tree and normalises headings (`OutlineHeadings`);
  - scores sub-sections against the target catalogue, using rules, keywords and
    a similarity measure, and then classifies them as OK, LOW_CONFIDENCE or
    MISSING (`OutlineMatch`).
- **Proposal outline and key extraction.** `backend/utils/proposal_outline.py`
  is modelled as `ProposalOutline`. `backend/agents/structure_extractor.py` is
  modelled as `StructureExtractor`. The key-information extraction helpers are
  modelled as `KeyExtraction`.
- **Validators.** The validators behind the assembled bid document are the
  compliance check, the deviation table, the sanity checker and the final QA.
  They are modelled as `AssemblerCompliance`, `DiffTableBuilder`,
  `SanityChecker` and `FinalQA`.
- **Bid writers.** The bid generator and the bid-format agent, which build the
  bid document from chapter five of the tender (`BidGenerator`,
  `BidFormatAgent`).
- **Session store.** The in-memory session store with its snapshots, modelled as
  the class `SessionManager.SessionManager`.
- **Workflow and agents.**
  - The workflow loop (`Workflow`) covers stage promotion, routing and the
    repetition guards.
  - The coordinator's decisions are modelled in `Coordinator`.
  - The document parser's sectioning and upload handling are modelled in
    `DocumentParser`.

The shared modules do the following:

- `Wrappers` holds `Option`.
- `Text` writes out the Python string operations the code uses over `seq<char>`.
- `Values` models Python's JSON-like state values with their truthiness.
- `Files` models reading a file that may be missing.

Regular expressions are written out as explicit parsers of one line each.
Each parser states bounds or a shape of what it returns. Round trips and
exact acceptance are proved for some of them, the heading patterns and the
numbered items among them.

The two numeral converters do not agree. `_chinese_number_to_int`
(`outline_extractor.py`, lines 433-457) converts "一百零五" to 105, and
`cn2int` (`extract_bid_section.py`, lines 141-158) converts the same string
to 0. The model follows the code, and `Numerals.ConvertersDisagree` states
the difference.

The chapter lists also differ:

- The generator's list in `bid_generator.py` ends with "其他资料".
- The canonical list in `structure_extractor.py` and the validators ends with
  "其他材料".

Both lists are kept as written.

## Model

| member | source | states |
|---|---|---|
| BidSection.Norm | backend/utils/extract_bid_section.py:26-27 | the normalised text holds no carriage return and is no longer than the input |
| BidSection.NormFixed | backend/utils/extract_bid_section.py:26-27 | a text without carriage returns is left unchanged |
| BidSection.NormIdempotent | backend/utils/extract_bid_section.py:26-27 | normalising twice gives the same text as normalising once |
| BidSection.Lines | backend/utils/extract_bid_section.py:226-227 | splitting the normalised text gives at least one line and no line holds a line break |
| BidSection.WeakImpliesStrong | backend/utils/extract_bid_section.py:162-199 | every line RE_WEAK matches is already matched by RE_STRONG, which is tried first, so the weak pattern never decides a heading |
| BidSection.StrongPlain | backend/utils/extract_bid_section.py:162-164 | "第" + numeral run + "章" + separators + a plain title is matched by RE_STRONG with exactly that numeral and title |
| BidSection.ChapterFourPlain | backend/utils/extract_bid_section.py:196-208 | "第四章" followed by a plain title is detected as chapter 4 with that title |
| BidSection.HeadingNonEmpty | backend/utils/extract_bid_section.py:196-217 | a line in which a heading is detected is not empty |
| BidSection.StopOnlyByTitle | backend/utils/extract_bid_section.py:253-263 | the capture stops at a heading exactly when its title is non-empty and names 投标文件格式, 投标格式 or 投标模板; the chapter-five test adds nothing |
| BidSection.FirstBelow | backend/utils/extract_bid_section.py:229-235 | the body start found among the first `limit` lines is a line index of the text (0 when none is found) |
| BidSection.FindFirstBelow | backend/utils/extract_bid_section.py:229-235 | the search loop over the first 200 lines returns the first matching index, or 0 |
| BidSection.ScanSection | backend/utils/extract_bid_section.py:237-273 | the two-state OUTSIDE/IN_TECH loop returns exactly the lines from the first start heading up to the first later stop heading, heading included iff `include_heading`, joined and stripped of outer line breaks; None when no start heading occurs |
| BidSection.ExtractTechSpecSection | backend/utils/extract_bid_section.py:220-273 | `extract_tech_spec_section` returns the section defined from the body start, the chapter-four start test and the stop test |
| BidSection.TechSpecNoneIff | backend/utils/extract_bid_section.py:237-272 | None is returned exactly when no line at or after the body start is a chapter-four heading whose title is empty or names a technical-specification keyword |
| BidSection.SectionKeepsStart | backend/utils/extract_bid_section.py:244-273 | with the heading included, the returned text starts with the start line |
| BidSection.TechSpecKeepsHeading | backend/utils/extract_bid_section.py:244-273 | with `include_heading`, the technical section starts with its chapter-four heading line |
| BidSection.TocLineCanStartCapture | backend/utils/extract_bid_section.py:231-249 | a table-of-contents line "第四章…目录..": is both a TOC line and a capture start, since the TOC filter guards only the body start |
| BidSection.TocMarks | backend/utils/extract_bid_section.py:179-193 | a line whose text names 目录 and has ".." dot leaders is a TOC line |
| BidSection.TocTitleExists | backend/utils/extract_bid_section.py:179-193 | titles that make such a line exist ("技术规格书目录..5") |
| BidSection.ChapterHeadEnd | backend/utils/extract_bid_section.py:51-63 | the end of a "#" chapter mark is -1 or a position just after a "章" |
| BidSection.Syns | backend/utils/extract_bid_section.py:37-39 | the synonyms hold every default synonym and, for a non-empty hint, the stripped hint |
| BidSection.ChosenLine | backend/utils/extract_bid_section.py:46-58 | the chosen heading is -1 or a line index of the text |
| BidSection.FindLast | backend/utils/extract_bid_section.py:51-55 | the loop that keeps the last match returns the last matching line, or -1 |
| BidSection.FindNext | backend/utils/extract_bid_section.py:63-67 | the loop that breaks on its first match returns the first matching line at or after the start, or the end |
| BidSection.ChooseLine | backend/utils/extract_bid_section.py:43-55 | the last strict heading, else the last chapter heading, is chosen |
| BidSection.SpanOfLines | backend/utils/extract_bid_section.py:43-69 | the passes over the lines produce the span defined by the chosen heading and the next chapter heading |
| BidSection.FindChapterSpan | backend/utils/extract_bid_section.py:30-69 | `find_chapter_span` returns the span defined from the normalised text and the hint |
| BidSection.StrictIsHeading | backend/utils/extract_bid_section.py:43-51 | every strict synonym heading is a chapter heading |
| BidSection.ChapterSpanNoneIff | backend/utils/extract_bid_section.py:46-58 | there is no span exactly when no line is a "#"-prefixed 第X章 heading |
| BidSection.ChapterSpanBounds | backend/utils/extract_bid_section.py:60-69 | a span satisfies start < end <= length of the normalised text |
| BidSection.StrictWinsOverLast | backend/utils/extract_bid_section.py:47-55 | the span starts at the last strict synonym heading even when the hint asks for the last chapter |
| BidSection.LastHeadingFallback | backend/utils/extract_bid_section.py:50-55 | without a strict heading the span starts at the last chapter heading |
| BidSection.StripFirstHeading | backend/utils/extract_bid_section.py:72-77 | a block without a leading chapter heading comes back normalised and unchanged; after a heading the result is the remaining lines joined by line breaks with the leading line breaks removed, a suffix of the block without a leading line break |
| BidSection.DropFirstLineCut | backend/utils/extract_bid_section.py:75-76 | dropping the first line leaves "" for one line; otherwise the joined text starts with the first line and a line break, and everything between that and the rest is line breaks |
| BidSection.StripFirstHeadingCut | backend/utils/extract_bid_section.py:72-77 | after a heading, the block is the heading line, a line break, only line breaks, then the result, which ends the block |
| BidSection.RemoveAllLeavesNoHeading | backend/utils/extract_bid_section.py:80-85 | no line of the result of `remove_all_chapter_headings` is a chapter heading |
| BidSection.RemoveAllWithoutHeadings | backend/utils/extract_bid_section.py:80-85 | a block without chapter headings only loses its leading line breaks |
| BidSection.DropHeadingLinesPieces | backend/utils/extract_bid_section.py:84-85 | every line left by the removal is an original line that is not a chapter heading, or empty |
| BidSection.Outline | backend/utils/extract_bid_section.py:88-99 | the match loop returns every "##".."######" heading line, stripped, in order |
| BidSection.OutlineItemsShape | backend/utils/extract_bid_section.py:94-98 | the outline has at most one item per line and every item starts with "##" |
| BidSection.ExtractBidFormatSection | backend/utils/extract_bid_section.py:102-113 | (None, []) without a span; otherwise the span's text, first heading dropped when asked, chapter headings removed, and its outline |
| BidSection.BidFormatShape | backend/utils/extract_bid_section.py:102-113 | no section exactly when there is no chapter heading; otherwise no line of the section is a chapter heading and every outline item starts with "##" |
| Numerals.CnValue | backend/utils/extract_bid_section.py:121-126 | a numeral character's table value is a digit 0..9, 10 (十) or 100 (百) |
| Numerals.Cn2IntBlank | backend/utils/extract_bid_section.py:130-132 | `cn2int` of empty or blank input is 0 |
| Numerals.Cn2IntDecimal | backend/utils/extract_bid_section.py:133-138 | an ASCII-digit string is read in decimal: `cn2int(str(n)) == n` |
| Numerals.Cn2IntWithHundreds | backend/utils/extract_bid_section.py:140-147 | with one "百", the lookup of the part before it (default 1) times 100, plus the tens part of the rest |
| Numerals.Cn2IntNoHundreds | backend/utils/extract_bid_section.py:148-158 | without "百" only the tens part is read |
| Numerals.TensWith | backend/utils/extract_bid_section.py:149-156 | with "十", the lookup before it (default 1) times 10 plus the lookup after it (default 0) is added to the running total |
| Numerals.TensWithout | backend/utils/extract_bid_section.py:157-158 | without "十" the rest is looked up alone and the running total is dropped |
| Numerals.Cn2IntUnits | backend/utils/extract_bid_section.py:157-158 | 一..九 read as 1..9 |
| Numerals.Cn2IntTens | backend/utils/extract_bid_section.py:149-156 | X十 is 10·X, X十Y is 10·X + Y and 十Y is 10 + Y |
| Numerals.Cn2IntHundreds | backend/utils/extract_bid_section.py:140-156 | X百 is 100·X and X百Y十Z is 100·X + 10·Y + Z |
| Numerals.Cn2IntDropsHundreds | backend/utils/extract_bid_section.py:145-158 | X百Y reads as Y and X百零Y as 0: the hundreds are dropped when no 十 follows |
| Numerals.ChineseNumberToInt | backend/agents/outline_extractor.py:433-457 | the character loop with `total` and `current` returns the value of the left-to-right reader (decimal for digit strings) |
| Numerals.ScanSkipsOthers | backend/agents/outline_extractor.py:442-454 | characters outside the numeral table never change the reader's result |
| Numerals.CnToIntStandard | backend/agents/outline_extractor.py:433-457 | Y, 十Y, X十 and X十Y have their standard values |
| Numerals.CnToIntStandardHundreds | backend/agents/outline_extractor.py:433-457 | X百, X百零Y, X百Y and X百Y十Z have their standard values (X百Y is 100·X + Y) |
| Numerals.ConvertersDisagree | backend/agents/outline_extractor.py:433-457 | 一百零五 is 105 for `_chinese_number_to_int` but 0 for `cn2int`, and 一百五 is 105 against 5 |
| OutlineHeadings.ParseHeadingLine | backend/agents/outline_extractor.py:406-431 | the level is at most 6; level 0 with a title can only come from the digit-numbered pattern |
| OutlineHeadings.MarkdownRoundTrip | backend/agents/outline_extractor.py:411-415 | `"#"*k + " " + title` (1 <= k <= 6, plain title) parses back as level k with that title |
| OutlineHeadings.NumberedRoundTrip | backend/agents/outline_extractor.py:425-429 | `str(n) + "、" + title` parses as level min(n, 6) with that title |
| OutlineHeadings.OnlyDigitForm | backend/agents/outline_extractor.py:406-431 | a stripped line opening with neither "#" nor 一..十 is a heading only through the digit pattern, and is (0, "") otherwise |
| OutlineHeadings.CnSmallPositive | backend/agents/outline_extractor.py:418-422 | a run of 一..十 reads as a level of at least 1 |
| OutlineHeadings.UnifySeps | backend/agents/outline_extractor.py:469 | step 2 turns every 、 . : ． 。 into "." and keeps every other character |
| OutlineHeadings.ReplaceNumeralRuns | backend/agents/outline_extractor.py:472-476 | step 3 leaves no Chinese numeral; every character is an input character or a digit |
| OutlineHeadings.NumberPrefixReads | backend/agents/outline_extractor.py:465-466 | a leading `第<numeral>章` (or 节) becomes `<numeral>、` |
| OutlineHeadings.NoNumberPrefix | backend/agents/outline_extractor.py:465-466 | a text that does not open with 第 has no numbering prefix rewritten |
| OutlineHeadings.ChapterNumberingUnified | backend/agents/outline_extractor.py:465 | `第<d>章<t>` normalises like `<d>、<t>` |
| OutlineHeadings.SectionNumberingUnified | backend/agents/outline_extractor.py:466 | `第<d>节<t>` normalises like `<d>、<t>` |
| OutlineHeadings.NormalizeHeading | backend/agents/outline_extractor.py:459-487 | "" maps to ""; the result holds no whitespace, no deleted bracket or mark character, no 、 : ． 。 and no Chinese numeral |
| OutlineHeadings.NormalizeNotIdempotent | backend/agents/outline_extractor.py:459-487 | " 第<digits>章" normalises to "第<digits>章", which normalises to "<digits>.": normalising twice differs from once |
| OutlineHeadings.NodeOf | backend/agents/outline_extractor.py:382-391 | a heading node has level 1..6, `start_pos = text.find(line)` and `end_pos = start_pos + len(line)` |
| OutlineHeadings.ParentFrom | backend/agents/outline_extractor.py:394-400 | the parent found is the latest earlier node of a smaller level, every node between having a level at least as large, or -1 |
| OutlineHeadings.ChildrenMembers | backend/agents/outline_extractor.py:397-400 | a child list holds exactly the nodes whose parent is its owner, each once, in document order |
| OutlineHeadings.BuildHeadingTree | backend/agents/outline_extractor.py:374-404 | the loop returns the forest in which every heading line is one node, attached under its nearest earlier heading of smaller level or as a root |
| OutlineHeadings.BuildForest | backend/agents/outline_extractor.py:380-402 | the loop's nodes are the heading lines' nodes in order and its child lists and roots are those of the forest |
| OutlineHeadings.PopAbove | backend/agents/outline_extractor.py:394-395 | the inner while pops exactly the open headings of level >= the new one, leaving a top of smaller level |
| OutlineHeadings.ParentIsTop | backend/agents/outline_extractor.py:394-400 | after popping, the top of the stack is the new node's parent (none when the stack is empty) |
| OutlineHeadings.Attach | backend/agents/outline_extractor.py:394-402 | attaching a node under the top and pushing it keeps the forest and the stack invariant |
| OutlineHeadings.ChildDeeper | backend/agents/outline_extractor.py:394-400 | a child follows its parent and has a strictly greater level |
| OutlineHeadings.RootIff | backend/agents/outline_extractor.py:397-400 | a node is a root exactly when no earlier node has a smaller level |
| OutlineHeadings.NoCrossing | backend/agents/outline_extractor.py:394-402 | a node's parent never lies between an earlier node and that node's own parent, so pre-order follows document order |
| OutlineHeadings.HeadingOffset | backend/agents/outline_extractor.py:388 | `text.find(line)` of a line of the text finds it at or before the line's own position |
| OutlineHeadings.RepeatedHeadingOffset | backend/agents/outline_extractor.py:388-389 | a heading line repeated later gets the offset of its first occurrence, before its own line |
| OutlineMatch.KeywordHits | backend/agents/outline_extractor.py:524-528 | the number of keywords present is at most the number of keywords |
| OutlineMatch.NumberingScore | backend/agents/outline_extractor.py:559-569 | 0.3 iff the text holds an ASCII digit, 0.2 iff it holds none but some 一..十, 0.0 iff neither |
| OutlineMatch.RuleScoreRange | backend/agents/outline_extractor.py:512-541 | the rule-layer score lies in [0, 1], and an alias present already gives at least 0.4 |
| OutlineMatch.SynonymScoreRange | backend/agents/outline_extractor.py:543-557 | the synonym score lies in [0, 1] and is 0 exactly when no keyword has a synonym in the text |
| OutlineMatch.RuleScoreZero | backend/agents/outline_extractor.py:512-541 | a text without alias, keyword, synonym, digit or 一..十 scores 0 |
| OutlineMatch.RuleLayerScore | backend/agents/outline_extractor.py:512-541 | the alias loop with its break, the keyword loop and the two helper scores compute the rule score: 0.4 for an alias, 0.08 per keyword, 0.2 × synonym score, 0.1 × numbering score, capped at 1 |
| OutlineMatch.SynonymMatchScore | backend/agents/outline_extractor.py:543-557 | the loop adds 0.2 per known keyword for its first synonym found, capped at 1 |
| OutlineMatch.CommonPrefix | backend/agents/outline_extractor.py:627-632 | the count is the longest common prefix: equal characters up to it and a mismatch right after it |
| OutlineMatch.EditSimRange | backend/agents/outline_extractor.py:614-634 | the similarity lies in [0, 1], 0 when either text is empty, and is 1 exactly for two equal non-empty texts |
| OutlineMatch.EditDistanceSimilarity | backend/agents/outline_extractor.py:614-634 | the loop counting matching leading characters, stopping at the first mismatch, returns common / max length |
| OutlineMatch.JaccardRange | backend/agents/outline_extractor.py:597-612 | the Jaccard similarity lies in [0, 1] and is 1 exactly when both word sets are equal and non-empty |
| OutlineMatch.SemanticUncapped | backend/agents/outline_extractor.py:571-595 | the semantic score is 0.5 TF-IDF + 0.3 Jaccard + 0.2 edit similarity; it lies in [0, 1] so the cap never applies |
| OutlineMatch.LevelScore | backend/agents/outline_extractor.py:826-827 | the level score lies in [0.1, 1] and is 1 exactly when the level is the expected one |
| OutlineMatch.MatchSubSection | backend/agents/outline_extractor.py:817-852 | 0.35 rule + 0.35 semantic + 0.2 level + 0.1 position lies in [0.07, 0.95] |
| OutlineMatch.ChapterNeedsBothLayers | backend/agents/outline_extractor.py:499-510 | a node accepted as chapter 8 (0.4 rule + 0.6 semantic >= 0.7) has semantic score >= 0.5 and rule score >= 0.25 |
| OutlineMatch.HeadingTreeOK | backend/agents/outline_extractor.py:374-404 | every index of the built forest points at one of its nodes |
| OutlineMatch.FirstMatchingRoot | backend/agents/outline_extractor.py:491-494 | the root found is the first root from the start position accepted as chapter 8, or none when no root is accepted |
| OutlineMatch.LocateChapter8 | backend/agents/outline_extractor.py:489-497 | the loop over the roots returns the chapter defined by the first accepted root, else the window search |
| OutlineMatch.LocatedChapterIs | backend/agents/outline_extractor.py:489-497 | an accepted root always wins and it is the first accepted one; only when no root is accepted does the window search decide |
| OutlineMatch.WindowCount | backend/agents/outline_extractor.py:654-655 | there are `len(lines) - 15 + 1` windows, none when the text has fewer than 15 lines |
| OutlineMatch.WeightSum | backend/agents/outline_extractor.py:640-653 | the keyword weights sum to a positive number |
| OutlineMatch.WindowScore | backend/agents/outline_extractor.py:657-680 | a window's score is never negative |
| OutlineMatch.BestOf | backend/agents/outline_extractor.py:682-687 | the best window has the largest score, no earlier window reaches it, and none is chosen (score 0) when no window scores above 0 |
| OutlineMatch.SemanticChapterIs | backend/agents/outline_extractor.py:636-702 | fewer than 15 lines give None; a result is the first best window, scoring at least 0.4 |
| OutlineMatch.SemanticLocateChapter8 | backend/agents/outline_extractor.py:636-702 | the sliding loop returns the window chapter defined by the best window |
| OutlineMatch.ScanWindows | backend/agents/outline_extractor.py:655-685 | the loop keeps the first window of highest score |
| OutlineMatch.WindowScoreOf | backend/agents/outline_extractor.py:656-680 | the keyword loop, the normalisation and the two bonuses compute the window score |
| OutlineMatch.ChildScores | backend/agents/outline_extractor.py:720-721 | one score per child, in order |
| OutlineMatch.Alternatives | backend/agents/outline_extractor.py:720-729 | the alternatives are exactly the children scoring above 0.3, each with its score |
| OutlineMatch.AtLeast | backend/agents/outline_extractor.py:750 | the kept alternatives are exactly those scoring at least the threshold |
| OutlineMatch.ParaScore | backend/agents/outline_extractor.py:783 | 0.6 rule + 0.4 semantic lies in [0, 1] |
| OutlineMatch.PieceScores | backend/agents/outline_extractor.py:775-785 | one score per paragraph, in order |
| OutlineMatch.SearchByIs | backend/agents/outline_extractor.py:765-797 | the paragraph search returns the first best non-empty paragraph with its score, or none |
| OutlineMatch.ParaScorerNonNegative | backend/agents/outline_extractor.py:783 | paragraph scores are never negative |
| OutlineMatch.SearchInChapterContent | backend/agents/outline_extractor.py:765-797 | the paragraph loop, skipping empty paragraphs and keeping the first best, returns the content search's result |
| OutlineMatch.ParaScoreOf | backend/agents/outline_extractor.py:783 | a paragraph's score is computed through the rule layer's loop |
| OutlineMatch.TreeChapterPieces | backend/agents/outline_extractor.py:388-389 | for a chapter node from the tree, the content search sees only its own heading line (the slice at line 768) |
| OutlineMatch.LinePieces | backend/agents/outline_extractor.py:768-775 | the slice holding exactly one line splits into that single paragraph |
| OutlineMatch.CollapseSpaces | backend/agents/outline_extractor.py:810 | every whitespace run becomes one blank: no other whitespace, no two blanks in a row, blanks at the ends exactly where the input had whitespace |
| OutlineMatch.CollapseKeepsText | backend/agents/outline_extractor.py:810 | collapsing keeps every non-whitespace character, in order |
| OutlineMatch.CollapseIdempotent | backend/agents/outline_extractor.py:810 | collapsing twice is collapsing once |
| OutlineMatch.CollapseFixed | backend/agents/outline_extractor.py:810 | a text whose only whitespace is single blanks is unchanged |
| OutlineMatch.PreviewSource | backend/agents/outline_extractor.py:801-807 | the preview source does not start with whitespace |
| OutlineMatch.Cut | backend/agents/outline_extractor.py:813-815 | the preview is at most 203 characters |
| OutlineMatch.ContentPreviewIs | backend/agents/outline_extractor.py:799-815 | the preview is the collapsed source text, cut to 200 characters plus "..." when longer |
| OutlineMatch.CutShape | backend/agents/outline_extractor.py:810-815 | cutting a collapsed text keeps its whitespace single blanks |
| OutlineMatch.RecordOfIs | backend/agents/outline_extractor.py:739-763 | OK iff a match scores >= 0.6, low confidence iff 0.5 <= score < 0.6, missing otherwise; matched records carry the node's title, location, preview and only the alternatives >= 0.4; missing records an empty title and no location |
| OutlineMatch.ChildSettles | backend/agents/outline_extractor.py:719-737 | a child scoring at least 0.5 settles the target on the first child of highest score, without the paragraph search |
| OutlineMatch.SearchDecides | backend/agents/outline_extractor.py:733-737 | when no child reaches 0.5 the paragraph search decides |
| OutlineMatch.RecordsFor | backend/agents/outline_extractor.py:713 | one record per target, in order |
| OutlineMatch.TemplateFor | backend/agents/outline_extractor.py:854-865 | one template record per target |
| OutlineMatch.SubSectionsShape | backend/agents/outline_extractor.py:704-865 | ten records, one per sub-section target in catalogue order; without a chapter every record is missing with confidence 0 |
| OutlineMatch.ExtractSubSections | backend/agents/outline_extractor.py:704-763 | the template without a chapter, otherwise the records of the target loop |
| OutlineMatch.RecordTargets | backend/agents/outline_extractor.py:713-761 | the loop over the targets makes one record each, in order |
| OutlineMatch.MatchTarget | backend/agents/outline_extractor.py:714-761 | the children loop, the fallback search and the record give the target's record |
| OutlineMatch.ScanChildren | backend/agents/outline_extractor.py:719-733 | the loop keeps the first best child and every child scoring above 0.3 |
| ProposalOutline.StripNumber | backend/utils/proposal_outline.py:110 | removing the leading number leaves a suffix of the name, and a name that does not start with a digit is unchanged |
| ProposalOutline.AnyOfTwo | backend/utils/proposal_outline.py:114-116 | when every keyword is one word or contains another, some keyword occurs exactly when one of the two does |
| ProposalOutline.ProposalKeywordsShare | backend/utils/proposal_outline.py:98-106 | every proposal keyword except 施工组织设计 contains 方案 |
| ProposalOutline.IsProposalIff | backend/utils/proposal_outline.py:108-116 | a name is a proposal section exactly when its cleaned form contains 方案 or 施工组织设计 |
| ProposalOutline.FirstWith | backend/utils/proposal_outline.py:108-118 | None exactly when no section's cleaned form holds a keyword; otherwise the earliest section, as given, that does |
| ProposalOutline.FirstWithKeyword | backend/utils/proposal_outline.py:108-118 | the nested search loop returns the first section, in list order, that holds a keyword |
| ProposalOutline.FindProposalSection | backend/utils/proposal_outline.py:96-118 | None exactly when no name is a proposal section; otherwise the first one, returned with its number and brackets |
| ProposalOutline.FirstCutIs | backend/utils/proposal_outline.py:152-155 | the markers are tried in list order: the cut is where the first marker that occurs anywhere first occurs, and None only when no marker occurs |
| ProposalOutline.From | backend/utils/proposal_outline.py:149 | the rest of the text is no longer than the text |
| ProposalOutline.CutContentIs | backend/utils/proposal_outline.py:157-161 | the content is a stripped prefix of the text from the start position: cut at the first marker in list order that occurs, or at most the length limit when none occurs |
| ProposalOutline.FirstEndMatch | backend/utils/proposal_outline.py:150-155 | the loop that breaks at the first marker found returns the position of the first occurring marker in list order |
| ProposalOutline.ExtractContent | backend/utils/proposal_outline.py:149-161 | the content cut from the start position as the cut specification describes it |
| ProposalOutline.ExtractBidFormatSectionContent | backend/utils/proposal_outline.py:137-161 | the bid-format chapter ends at chapters 6 to 9 or at an evaluation heading, tried in that order, or after 8000 characters |
| ProposalOutline.ExtractSectionContent | backend/utils/proposal_outline.py:164-188 | a plan chapter ends at chapter 9 or 10 or at one of the closing forms, tried in that order, or after 5000 characters |
| ProposalOutline.NextSectionEnd | backend/utils/proposal_outline.py:128-129 | the leftmost line break after the title that is followed by a heading mark, a numbered line or the end of the text, and none before it |
| ProposalOutline.SectionFromIs | backend/utils/proposal_outline.py:128-134 | from an occurrence of the title a section exists exactly when a section break follows; it then runs to the first one, stripped, and begins with the title |
| ProposalOutline.SpecificSectionContentIs | backend/utils/proposal_outline.py:121-134 | None exactly when the cleaned title does not occur or no section break follows its first occurrence; otherwise the text from that occurrence to the first break, stripped, beginning with the cleaned title |
| ProposalOutline.DottedLen | backend/utils/proposal_outline.py:216 | the leading dotted number consists of digits and dots, starts and ends with a digit, and cannot be extended |
| ProposalOutline.DottedLenAppend | backend/utils/proposal_outline.py:216 | a well-formed dotted number followed by a non-digit, non-dot character is read whole |
| ProposalOutline.LastDot | backend/utils/proposal_outline.py:216 | the index of the last dot, -1 when there is none |
| ProposalOutline.Before | backend/utils/proposal_outline.py:230 | split(c)[0]: the longest prefix without the separator, followed by the separator when shorter than the text |
| ProposalOutline.NumberedItem | backend/utils/proposal_outline.py:216-219 | a numbered item's number is non-empty and starts with a digit |
| ProposalOutline.NumberedItemRoundTrip | backend/utils/proposal_outline.py:216-219 | a dotted number written with '、' and a stripped title is read back as that number and title |
| ProposalOutline.AnyHoldsIff | backend/utils/proposal_outline.py:232-233 | the parent lookup holds exactly when some entry of the list contains the main number |
| ProposalOutline.ClassifyAppends | backend/utils/proposal_outline.py:210-250 | one line appends at most one entry, at the end of exactly one list, and every entry stays a numbered item or a bullet |
| ProposalOutline.BucketEntries | backend/utils/proposal_outline.py:208-252 | after all lines, every entry of both lists is a "number title" or a "• item" |
| ProposalOutline.ConstructionWins | backend/utils/proposal_outline.py:225-228 | a numbered line with a construction keyword goes to construction whatever technical keywords it holds |
| ProposalOutline.ExtractProposalSubsections | backend/utils/proposal_outline.py:191-252 | the two lists are the classification of the content's lines with the two keyword lists |
| ProposalOutline.ClassifyLines | backend/utils/proposal_outline.py:210-250 | the loop that appends to the two lists yields the line-by-line classification |
| ProposalOutline.HeadPattern | backend/utils/proposal_outline.py:261 | a line read by the numbered pattern has a number that starts with a digit |
| ProposalOutline.BracketPattern | backend/utils/proposal_outline.py:264 | a line read by the bracketed pattern has a number that starts with a digit |
| ProposalOutline.KindOf | backend/utils/proposal_outline.py:270-303 | a line read as numbered has a number that starts with a digit |
| ProposalOutline.AddSub | backend/utils/proposal_outline.py:288-290 | setdefault-and-append: the key is added, its list gains the entry at the end, every other key is unchanged |
| ProposalOutline.StepKeepsOK | backend/utils/proposal_outline.py:283-303 | one line keeps the current main section and every sub-section key among the main sections |
| ProposalOutline.SubKeysAreMain | backend/utils/proposal_outline.py:270-305 | after all lines, every sub-section key is a main section |
| ProposalOutline.MainIsFilter | backend/utils/proposal_outline.py:284-294 | the main sections are exactly the lines with a one-digit number, in order; sub-sections and list items never add one |
| ProposalOutline.BlankIgnored | backend/utils/proposal_outline.py:271-273 | blank lines change nothing |
| ProposalOutline.HeadPatternMain | backend/utils/proposal_outline.py:261 | "d title" with one digit is read as number d and that title |
| ProposalOutline.MainLineKind | backend/utils/proposal_outline.py:270-281 | a line of one digit, a blank and a plain title is read as that number and title |
| ProposalOutline.OpensMain | backend/utils/proposal_outline.py:291-294 | a one-digit number appends "number title" to the main sections and makes it current |
| ProposalOutline.KindOfHead | backend/utils/proposal_outline.py:277-281 | a line the first pattern matches is read by that pattern |
| ProposalOutline.SubNumberAttaches | backend/utils/proposal_outline.py:284-290 | a sub-section number never opens a main section; it is filed at the end of the current section's list exactly when its main number is the current section's number |
| ProposalOutline.ParseSectionStructure | backend/utils/proposal_outline.py:255-305 | the loop that updates the current main section and the lists yields the line-by-line parse |
| ProposalOutline.GenericOutlineOK | backend/utils/proposal_outline.py:308-345 | the generic outline has ten main sections and files sub-sections only under them |
| ProposalOutline.LazySearch | backend/utils/proposal_outline.py:48-51 | the leftmost position where one of the heads occurs with the tail after it, and none before it |
| ProposalOutline.TwoSectionOutline | backend/utils/proposal_outline.py:57-62 | the two-section outline files its sub-sections only under its two main sections |
| ProposalOutline.ParseStructureOK | backend/utils/proposal_outline.py:255-305 | a parsed outline files sub-sections only under its main sections |
| ProposalOutline.FromBidFormatOK | backend/utils/proposal_outline.py:48-63 | the bid-format step files sub-sections only under its main sections |
| ProposalOutline.FromTitlesOK | backend/utils/proposal_outline.py:77-88 | the plan-title step files sub-sections only under its main sections |
| ProposalOutline.OutlineKeysAreMain | backend/utils/proposal_outline.py:12-93 | whichever step yields it, every sub-section key of the outline is one of its main sections |
| ProposalOutline.TryBidFormat | backend/utils/proposal_outline.py:48-63 | the loop over the patterns returns the first pattern's non-empty two-section outline |
| ProposalOutline.TryTitles | backend/utils/proposal_outline.py:77-88 | the loop over the plan titles returns the first non-empty parsed chapter |
| ProposalOutline.ExtractProposalOutline | backend/utils/proposal_outline.py:12-93 | outline sections first, then the bid-format chapter, then the plan titles, then the generic outline; the sub-section keys are main sections |
| ProposalOutline.ConcatMapAppend | backend/utils/proposal_outline.py:353-362 | the blocks written for two runs of sections are the blocks of each, one after the other |
| ProposalOutline.MarkdownOrder | backend/utils/proposal_outline.py:348-364 | the document opens with the title line, and each main section's block follows those of the sections before it |
| ProposalOutline.SectionBlockShape | backend/utils/proposal_outline.py:354-362 | a section without a sub-section entry gets one placeholder, one with an empty entry none, otherwise a "### " line and a placeholder per sub-section in order |
| ProposalOutline.GenerateProposalMarkdown | backend/utils/proposal_outline.py:348-364 | the appending loop writes the document the block specification describes |
| StructureExtractor.ChapterHead | backend/agents/structure_extractor.py:29-30 | a chapter heading match ends after 章, inside the text |
| StructureExtractor.StartMatch | backend/agents/structure_extractor.py:29 | a start match is non-empty and fits in the text |
| StructureExtractor.SearchLines | backend/agents/structure_extractor.py:31-34 | the first line start from the given position where the pattern matches, and no earlier line start matches |
| StructureExtractor.SpanOfNone | backend/agents/structure_extractor.py:31-33 | the span is (0, 0) exactly when the start pattern matches at no line start |
| StructureExtractor.SpanOfSome | backend/agents/structure_extractor.py:34-37 | otherwise the span starts at the first matching line and ends at the first line start after the match where the end pattern matches, or at the end of the text |
| StructureExtractor.StartMatchFits | backend/agents/structure_extractor.py:29 | the chapter-five heading pattern never reports an empty match |
| StructureExtractor.BlockSpan | backend/agents/structure_extractor.py:28-37 | 0 <= s <= e <= len(text) |
| StructureExtractor.MarkerEnd | backend/agents/structure_extractor.py:42 | the list marker ends inside the line |
| StructureExtractor.CharIndex | backend/agents/structure_extractor.py:46 | the first occurrence of a character, or the length when it does not occur |
| StructureExtractor.RemoveParens | backend/agents/structure_extractor.py:46 | removing bracketed groups never lengthens the text |
| StructureExtractor.RemoveParensKeeps | backend/agents/structure_extractor.py:46 | removing bracketed groups adds no character |
| StructureExtractor.RemoveParensNoGroup | backend/agents/structure_extractor.py:46 | after the removal no opening bracket is followed by its closing bracket |
| StructureExtractor.CleanItemShape | backend/agents/structure_extractor.py:46-47 | a cleaned item holds no bracketed group and no whitespace |
| StructureExtractor.LineItemShape | backend/agents/structure_extractor.py:44-49 | every kept item has its bracketed text removed, holds no whitespace and has 2 to 30 characters |
| StructureExtractor.ItemsOf | backend/agents/structure_extractor.py:43-49 | at most one item per line |
| StructureExtractor.ItemsOfFrom | backend/agents/structure_extractor.py:43-49 | every collected item is the item of some line of the block |
| StructureExtractor.NormalizeIdempotent | backend/agents/structure_extractor.py:52-58 | normalising a normalised name changes nothing |
| StructureExtractor.FirstIndex | backend/agents/structure_extractor.py:61-63 | the position of the first occurrence of a name |
| StructureExtractor.DedupIs | backend/agents/structure_extractor.py:60-63 | the deduplicated list has no repeats, holds exactly the names of the input and keeps the order of first occurrences |
| StructureExtractor.CanonicalDistinct | backend/agents/structure_extractor.py:13-17 | the canonical list has no repeats |
| StructureExtractor.SectionsShape | backend/agents/structure_extractor.py:39-65 | the section list is never empty and has no repeats; unless it is the canonical list, every name is the normalised item of a line of the block |
| StructureExtractor.CollectItems | backend/agents/structure_extractor.py:43-49 | the first loop collects the items of the lines in order |
| StructureExtractor.NormalizeItems | backend/agents/structure_extractor.py:52-58 | the second loop maps every item to its normalised name |
| StructureExtractor.DedupNames | backend/agents/structure_extractor.py:61-63 | the third loop keeps the first occurrence of each name |
| StructureExtractor.ExtractSections | backend/agents/structure_extractor.py:39-65 | the three loops and the fallback give the section list the specification describes |
| StructureExtractor.NumUnits | backend/agents/structure_extractor.py:67-70 | for 1..9 the numeral is the one character of 一二三四五六七八九 for that digit |
| StructureExtractor.NumRoundTrip | backend/agents/structure_extractor.py:67-70 | cn2int reads every rendered numeral back: cn2int(_num(i)) == i for all i >= 0 |
| StructureExtractor.TocLines | backend/agents/structure_extractor.py:74 | one table-of-contents line per section, in order |
| StructureExtractor.Bodies | backend/agents/structure_extractor.py:75-77 | one body block per section, in order, numbered from 1 |
| StructureExtractor.TocNumbering | backend/agents/structure_extractor.py:74 | the i-th table-of-contents line starts with the decimal number i + 1 |
| StructureExtractor.BodyNumbering | backend/agents/structure_extractor.py:76-77 | the i-th body block starts with "## ", a numeral that cn2int reads as i + 1, and 、 |
| StructureExtractor.RenderSkeleton | backend/agents/structure_extractor.py:72-99 | the loop over the sections builds the skeleton document with the date passed in |
| StructureExtractor.SkeletonSectionsShape | backend/agents/structure_extractor.py:109-110 | the sections execute stores are never empty and never repeat |
| KeyExtraction.HitsKeyword | backend/agents/key_extraction.py:210-213 | true exactly when some keyword is non-empty and, with its spaces removed, occurs in the space-free title |
| KeyExtraction.FindWith | backend/agents/key_extraction.py:204-221 | a found section passes the test |
| KeyExtraction.FindSection | backend/agents/key_extraction.py:195-221 | a found section has a non-empty title that is not a bare 第X章 and holds a keyword |
| KeyExtraction.FirstHitIndex | backend/agents/key_extraction.py:204-213 | the index of the first section that passes, with none before it |
| KeyExtraction.FirstHitIndexIs | backend/agents/key_extraction.py:204-213 | the first passing index is the one index with a pass and no pass before it |
| KeyExtraction.FirstHitAppend | backend/agents/key_extraction.py:216-220 | the first hit of two runs is the first run's when it has one, otherwise the second's |
| KeyExtraction.FirstHitCons | backend/agents/key_extraction.py:209-213 | a passing first section is the first hit; otherwise the first hit of the rest |
| KeyExtraction.FindWithIsFirstVisited | backend/agents/key_extraction.py:204-221 | the recursive search returns the first hit of the pre-order walk that skips untitled sections with their subtrees |
| KeyExtraction.VisitedHit | backend/agents/key_extraction.py:209-213 | a titled first section that passes is what the walk finds |
| KeyExtraction.VisitedMiss | backend/agents/key_extraction.py:215-220 | a titled first section that fails gives the subsections' first hit, else the later siblings' |
| KeyExtraction.FindSectionIsFirstVisited | backend/agents/key_extraction.py:195-221 | the keyword search returns the first section of the pre-order walk that is a hit; generic chapters are walked through but never returned |
| KeyExtraction.HashHeading | backend/agents/key_extraction.py:323-326 | a '#' heading has level 1 to 6 |
| KeyExtraction.HashHeadingCount | backend/agents/key_extraction.py:323-326 | a line without a leading '#' is no heading; with 1 to 6 '#' and more text the level is their number and the title the rest stripped; with more than six the level is 6 and the extra '#' start the title |
| KeyExtraction.HashHeadingRoundTrip | backend/agents/key_extraction.py:323-326 | k '#' (1 to 6), a blank and a stripped non-empty title read back as level k and that title |
| KeyExtraction.ChapterHeading | backend/agents/key_extraction.py:329-331 | a chapter line starts with 第 and is at least four characters long; its title is the whole line stripped |
| KeyExtraction.ChapterHeadingAccepts | backend/agents/key_extraction.py:329 | 第, Chinese numerals, 章 and any further text on the line is read as a chapter heading with the whole line stripped as title |
| KeyExtraction.ChapterLineLevel | backend/agents/key_extraction.py:329-331 | a chapter line is a level-1 heading titled with the whole line stripped |
| KeyExtraction.LineHeading | backend/agents/key_extraction.py:323-331 | a heading line has level 1 to 6; chapter lines are level 1 |
| KeyExtraction.Headings | backend/agents/key_extraction.py:322-331 | every collected heading has level 1 to 6 |
| KeyExtraction.HeadingsOrdered | backend/agents/key_extraction.py:338-339 | heading offsets grow strictly with the lines, so the collected headings are already in position order |
| KeyExtraction.CleanText | backend/agents/key_extraction.py:319 | no "**" is left in the text |
| KeyExtraction.HeadingsInText | backend/agents/key_extraction.py:322-339 | every heading offset lies inside the text and the offsets grow strictly |
| KeyExtraction.NextPeer | backend/agents/key_extraction.py:349-352 | the first later heading whose level is at most the given one, with every heading in between deeper |
| KeyExtraction.SectionEndIs | backend/agents/key_extraction.py:348-352 | a section ends at the next heading of the same or a higher rank, or at the end of the text when there is none |
| KeyExtraction.MarkdownSectionsShape | backend/agents/key_extraction.py:311-358 | one section per heading in text order, keeping its level and title, with the stripped text up to the next peer heading; without headings one section 全文 holding the whole text |
| KeyExtraction.CollectHeadings | backend/agents/key_extraction.py:322-331 | the line loop with a running offset collects the headings of the text |
| KeyExtraction.FindEnd | backend/agents/key_extraction.py:348-352 | the inner loop finds the section end |
| KeyExtraction.BuildSections | backend/agents/key_extraction.py:342-354 | the outer loop builds one section per heading, in order |
| KeyExtraction.ExtractFromMarkdown | backend/agents/key_extraction.py:311-358 | the method yields the flat section list the specification describes |
| Files.SafeRead | backend/agents/assembler_compliance.py:36-40 | the file's text when the path is given and the file exists, "" otherwise |
| Files.EitherPath | backend/agents/final_qa.py:14 | `a or b`: the first path when it is a non-empty string, else the second |
| AssemblerCompliance.SkipPlaceholders | backend/agents/assembler_compliance.py:55-57 | the inner loop stops at the first line from j0 on that does not start with '>' once stripped |
| AssemblerCompliance.MergeLines | backend/agents/assembler_compliance.py:47-61 | the merge loop yields the line list the merge specification describes |
| AssemblerCompliance.MergeIntoSectionEight | backend/agents/assembler_compliance.py:42-62 | the merged document: the plan for an empty outline, else the merged lines joined by line breaks |
| AssemblerCompliance.MergeAtMarker | backend/agents/assembler_compliance.py:53-60 | at a marker line the output is that line, the plan block, then the merge from the first line after the skipped placeholders |
| AssemblerCompliance.MergeKeepsLines | backend/agents/assembler_compliance.py:49-61 | the lines that are not placeholders come out in their order, and no other line but the block is added |
| AssemblerCompliance.UnskippedRun | backend/agents/assembler_compliance.py:55-57 | every line after a marker line before the first line that is not a placeholder is skipped |
| AssemblerCompliance.MergeKeepsUnskipped | backend/agents/assembler_compliance.py:49-61 | without the blocks, the output is exactly the lines that do not lie in a placeholder run right after a marker line, in their order |
| AssemblerCompliance.UnskippedHas | backend/agents/assembler_compliance.py:49-61 | a line outside every such run is among the kept lines |
| AssemblerCompliance.MergeDropsOnlyPlaceholderRuns | backend/agents/assembler_compliance.py:47-61 | for an outline, the merge without the plan block is the outline minus the placeholder runs after marker lines, so a placeholder anywhere else is kept |
| AssemblerCompliance.SelectSkipsBlock | backend/agents/assembler_compliance.py:58 | the block is not among the kept lines |
| AssemblerCompliance.SelectDropsRun | backend/agents/assembler_compliance.py:55-59 | the skipped run after a marker line adds no kept line |
| AssemblerCompliance.SkippedNotKept | backend/agents/assembler_compliance.py:56-57 | the lines a marker line skips are placeholders, none of them kept |
| AssemblerCompliance.MergeHead | backend/agents/assembler_compliance.py:51-52 | every step copies its current line first |
| AssemblerCompliance.BlockAfterMarkers | backend/agents/assembler_compliance.py:53-58 | every line other than the block is a marker line exactly when the block follows it |
| AssemblerCompliance.ShiftAfterEachMarker | backend/agents/assembler_compliance.py:53-58 | prepending lines that keep the block-after-marker property across the seam keeps it |
| AssemblerCompliance.NoSkipAfterBlock | backend/agents/assembler_compliance.py:56-59 | the line after a block is neither a block nor a placeholder: the whole run was skipped |
| AssemblerCompliance.BlockFollowsMarker | backend/agents/assembler_compliance.py:52-58 | the block never opens the output and always follows a marker line |
| AssemblerCompliance.BlockNotALine | backend/agents/assembler_compliance.py:58 | the block holds a line break, so it is none of the outline's lines |
| AssemblerCompliance.KeptInOutput | backend/agents/assembler_compliance.py:49-61 | every line that is not a placeholder is in the output |
| AssemblerCompliance.JoinedOutput | backend/agents/assembler_compliance.py:62 | a kept line is in the joined document, and so is the plan block after a marker line |
| AssemblerCompliance.MergedDocument | backend/agents/assembler_compliance.py:42-62 | every outline line that is not a placeholder is in the merged document, and the plan block is there when a marker line is |
| AssemblerCompliance.CheckCompliance | backend/agents/assembler_compliance.py:64-77 | the missing sections are exactly the required names absent from the text, in list order; the timestamp is the clock reading passed in |
| AssemblerCompliance.CompliantIff | backend/agents/assembler_compliance.py:70 | nothing is missing exactly when every required chapter is named |
| AssemblerCompliance.ComplianceGrows | backend/agents/assembler_compliance.py:70-73 | adding text never makes a chapter go missing nor a flag go false |
| AssemblerCompliance.FrontHasToc | backend/agents/assembler_compliance.py:72 | the skeleton's front matter holds the "# 目 录" heading |
| AssemblerCompliance.TrailerHasBindingHint | backend/agents/assembler_compliance.py:73 | the skeleton's trailer names 装订 and 副本 |
| AssemblerCompliance.TocNamesSection | backend/agents/assembler_compliance.py:70 | the skeleton's table of contents names every section |
| AssemblerCompliance.InSkeleton | backend/agents/assembler_compliance.py:70 | a text found in one part of the skeleton is found in the whole |
| AssemblerCompliance.SkeletonCompliant | backend/agents/assembler_compliance.py:64-77 | the skeleton rendered for the canonical chapters has a table of contents, a binding hint and no missing chapter |
| DiffTableBuilder.BuildDiff | backend/agents/diff_table_builder.py:34-45 | the loop over the keywords writes the table the specification describes |
| DiffTableBuilder.RowInjective | backend/agents/diff_table_builder.py:42 | different keywords give different rows |
| DiffTableBuilder.RowsExactly | backend/agents/diff_table_builder.py:36-42 | one row per keyword in the specification but not in the bid, in keyword order, and no other row |
| DiffTableBuilder.RowsNotEmptyTable | backend/agents/diff_table_builder.py:43-45 | a table with rows is never the "无" table |
| DiffTableBuilder.EmptyTableIff | backend/agents/diff_table_builder.py:43-44 | the table is "# 商务和技术偏差表\n\n无\n" exactly when no keyword deviates |
| DiffTableBuilder.MoreBidFewerRows | backend/agents/diff_table_builder.py:39-41 | answering more in the bid never adds a row |
| DiffTableBuilder.NoSpecNoDeviation | backend/agents/diff_table_builder.py:39-44 | without a specification no keyword deviates and the table says "无" |
| DiffTableBuilder.DiffForState | backend/agents/diff_table_builder.py:12-26 | the bid read is the final document when its path is given, else the draft; a missing specification gives the "无" table |
| SanityChecker.Check | backend/agents/sanity_checker.py:28-37 | the outline's sections are echoed; the core section is reported missing exactly when absent; the missing hints are exactly the absent ones, in list order |
| SanityChecker.NothingInEmpty | backend/agents/sanity_checker.py:23 | no non-empty hint occurs in the empty text |
| SanityChecker.NoDraftMissesAll | backend/agents/sanity_checker.py:21-30 | without a readable draft every hint and the core section are reported missing |
| SanityChecker.Execute | backend/agents/sanity_checker.py:20-44 | a draft path that is given and exists is read and checked; otherwise the empty text is |
| SanityChecker.CompleteDraftIsClean | backend/agents/sanity_checker.py:29-30 | a draft naming every hint and the core section gets an empty report |
| FinalQA.AllInPair | backend/agents/final_qa.py:31 | all of two keys occur exactly when each does |
| FinalQA.AllInMembers | backend/agents/final_qa.py:22-26 | all(k in text for k in keys) holds exactly when every key occurs |
| FinalQA.Report | backend/agents/final_qa.py:21-32 | composition complete iff all 11 chapters occur; scoring covered iff 技术方案 and 施工方法 occur; safety iff 安全 and 环保 occur in both texts |
| FinalQA.ScoringFallback | backend/agents/final_qa.py:27-29 | finding both verbatim scoring items implies the plain fallback test, so the first test adds nothing |
| FinalQA.ScheduleNeeds | backend/agents/final_qa.py:30 | the schedule finding holds iff the specification names 180天 and 150天 and the final text holds 180 or 150 |
| FinalQA.Execute | backend/agents/final_qa.py:12-19 | the final text read is the assembled bid when its path is given, else the draft; the specification is read from its own path |
| FinalQA.NothingReadable | backend/agents/final_qa.py:14-31 | with no readable final text, no finding holds |
| BidGenerator.CheckMissingCriticalInfo | backend/agents/bid_generator.py:156-171 | the loop over the files writes the missing-part lines joined by line breaks |
| BidGenerator.JoinNonEmpty | backend/agents/bid_generator.py:168-169 | a joined list whose first line is non-empty is non-empty |
| BidGenerator.ItemsNonEmpty | backend/agents/bid_generator.py:163-166 | every report line is non-empty |
| BidGenerator.MissingEmptyIff | backend/agents/bid_generator.py:168-171 | the report is "" exactly when every file has both the specification and the format |
| BidGenerator.MissingNoneIff | backend/agents/bid_generator.py:160-166 | no report line exactly when every file has both parts |
| BidGenerator.MissingItemsAppend | backend/agents/bid_generator.py:160-166 | the report lines of two runs of files are those of each, one after the other: file order, specification before format |
| BidGenerator.MissingItemsOne | backend/agents/bid_generator.py:163-166 | one file gives its specification line, then its format line, each only when missing |
| BidGenerator.MissingTechReported | backend/agents/bid_generator.py:163-164 | a file without the specification gets its "• name: 技术规格书" line |
| BidGenerator.MissingFormatReported | backend/agents/bid_generator.py:165-166 | a file without the format gets its "• name: 投标文件格式" line |
| BidGenerator.HasBidFormat | backend/agents/bid_generator.py:290-295 | the early-return search is true exactly when some file has a format |
| BidGenerator.FirstFormat | backend/agents/bid_generator.py:300-304 | the first file with a format, with none before it |
| BidGenerator.DecideCases | backend/agents/bid_generator.py:40-68 | empty information is an error; missing parts with a format give the skeleton; missing parts without one give the incomplete-information error; complete information gives the full proposal |
| BidGenerator.GetProjectName | backend/agents/bid_generator.py:273-283 | the loop over the first five lines returns the heuristic's name |
| BidGenerator.ProjectNameIs | backend/agents/bid_generator.py:273-283 | without a line among the first five that holds 项目 and is shorter than 100 characters the name is 技术方案项目; with one, it is the first such line, stripped |
| BidGenerator.TocItems | backend/agents/bid_generator.py:328 | one table-of-contents line per chapter, numbered from 1, in order |
| BidGenerator.GenerateSkeleton | backend/agents/bid_generator.py:297-340 | the loops of the skeleton generator write the skeleton document with the clock reading passed in |
| BidGenerator.AppendixShape | backend/agents/bid_generator.py:336-338 | the appendix appears exactly when the first found format has content, and quotes at most 4000 characters from its start |
| BidGenerator.TocNumbered | backend/agents/bid_generator.py:328 | the table of contents numbers the eleven chapters 1 to 11 in order |
| BidFormatAgent.FindBreak | backend/agents/bid_format_agent.py:80-81 | the first chapter-heading line break at or after the position, none before it, -1 when there is none |
| BidFormatAgent.LoadBidFormatText | backend/agents/bid_format_agent.py:67-85 | the excerpt is "" exactly when there is no document or no marker after removing "**"; otherwise it starts with the marker and holds no "**" |
| BidFormatAgent.ExcerptOfClean | backend/agents/bid_format_agent.py:75-85 | the same for a text already free of "**" |
| BidFormatAgent.ExcerptOneChapter | backend/agents/bid_format_agent.py:79-84 | no chapter-heading line break occurs anywhere inside the excerpt |
| BidFormatAgent.Execute | backend/agents/bid_format_agent.py:21-64 | an empty excerpt is the error bid_format_not_found; otherwise 投标文件.md holds the excerpt, one chapter starting with the marker, and the stage is bid_format_completed |
| SessionManager.NewRecord | backend/services/session_manager.py:22-28 | a new record holds exactly the id, the two timestamps, an empty history and empty metadata |
| SessionManager.Updated | backend/services/session_manager.py:37-38 | the record gains every key of the data, with the data's values, keeps its other keys, and last_activity is the clock reading |
| SessionManager.SnapshotFiles | backend/services/session_manager.py:66-68 | the snapshot carries 投标文件.md, with the current content, exactly when current_content is truthy, and nothing else |
| SessionManager.FirstAt | backend/services/session_manager.py:91-92 | the index of the first snapshot taken at the timestamp, -1 when none is |
| SessionManager.FindsAppended | backend/services/session_manager.py:80-92 | a snapshot appended after the others is found by its timestamp when no older one shares it |
| SessionManager.AppendKeepsFirst | backend/services/session_manager.py:80-92 | appending never changes which older snapshot is found first |
| SessionManager.SessionManager.constructor | backend/services/session_manager.py:9-12 | the store starts without sessions or snapshots and every snapshot list belongs to a session |
| SessionManager.SessionManager.GetSession | backend/services/session_manager.py:20-31 | the existing record unchanged, or a new record that is stored first; snapshots untouched |
| SessionManager.SessionManager.UpdateSession | backend/services/session_manager.py:33-39 | the record (empty when unknown) is updated with the data and stamped; no other session changes |
| SessionManager.SessionManager.DeleteSession | backend/services/session_manager.py:41-47 | the session and its snapshots are gone, everything else stays; an unknown id is no error |
| SessionManager.SessionManager.ListSessions | backend/services/session_manager.py:59-60 | every stored record, by id |
| SessionManager.SessionManager.GetSnapshots | backend/services/session_manager.py:85-86 | the session's snapshots in the order taken, [] for an unknown id; in a consistent store, [] for an id without a session |
| SessionManager.AsWorkflowState | backend/workflow/state.py:6-22 | validation as a `WorkflowState`: rejected exactly when one of the sixteen keys is missing; otherwise exactly those keys, with the record's values |
| SessionManager.FreshRecordRejected | backend/services/session_manager.py:20-31 | a record `get_session` has just created fails that validation, so it cannot be snapshotted |
| SessionManager.SessionManager.CreateSnapshot | backend/services/session_manager.py:62-83 | the session is created when unknown; a record missing a `WorkflowState` key raises and no snapshot is taken; otherwise the snapshot holds the clock reading, the validated state and the record's files, and is appended to the session's list |
| SessionManager.SessionManager.RestoreSnapshot | backend/services/session_manager.py:88-97 | the session becomes the state of the first snapshot taken at the timestamp; without one the error "Snapshot not found: <ts>" and nothing changes; a restored record holds exactly the sixteen `WorkflowState` keys |
| Workflow.CountKey | backend/workflow/graph.py:34 | the counter key of a stage is never current_stage, error or next_stage |
| Workflow.ShouldContinue | backend/workflow/graph.py:25-44 | a terminal stage stops without touching the state; any other stage has its counter raised by one, and the third visit stops the run as failed with "stalled-stage", leaving every other key as it was |
| Workflow.Promote | backend/workflow/graph.py:61-69 | next_stage is always popped; a truthy one that differs from the current stage becomes the current stage and the old stage's counter is dropped; otherwise the stage stays |
| Workflow.AutoTrigger | backend/workflow/graph.py:71-79 | with uploads, no parse done, no trigger yet and a startable stage, parsing starts and the trigger is recorded; otherwise nothing changes |
| Workflow.TriggerOnce | backend/workflow/graph.py:72-77 | parsing is started at most once: after the trigger it no longer fires |
| Workflow.RouteFor | backend/workflow/graph.py:84-103 | document_parsing goes to the parser, bid_build_ready and planning to the build workflow, every other stage to the coordinator |
| Workflow.ParserEpilogue | backend/workflow/graph.py:348-356 | a completed parse marks the files parsed and, when the tender path is named, moves to bid_build_ready; any other response is untouched |
| Workflow.MergeMetadata | backend/workflow/graph.py:106-125 | every metadata key but stage is copied; the response's stage becomes current, while parsing only when it is a parsing exit; when it does not and the metadata has no current_stage, the stage stays; other keys are kept |
| Workflow.AppendHistory | backend/workflow/graph.py:128-134 | setdefault-and-append: the history gains the entry at its end and every other key is kept |
| Workflow.Iterate | backend/workflow/graph.py:57-134 | one iteration leaves the reply's state with every metadata key but stage copied in, keeps the reply's other keys, appends a history entry for non-empty content, and changes nothing when the reply has neither metadata nor content |
| Workflow.Loop | backend/workflow/graph.py:55-56 | the loop stops within the eight iterations |
| Workflow.Run | backend/workflow/graph.py:46-142 | the loop over the agents and the clock passed in yields the run specification |
| Workflow.RunLoop | backend/workflow/graph.py:50-140 | the loop and the final limit check, for any loop body |
| Workflow.LoopUnfold | backend/workflow/graph.py:55-56 | one turn of the loop below the limit: stop with the checked state, or step and go on |
| Workflow.EarlyExit | backend/workflow/graph.py:55 | an exit before the limit is at a terminal stage or a stalled one |
| Workflow.RunOutcome | backend/workflow/graph.py:46-142 | every run ends at a terminal stage, stalled, or failed as "max-iterations"; a run that used all eight iterations is always the last |
| Workflow.TerminalStart | backend/workflow/graph.py:55 | a run that starts at a terminal stage returns its initial state |
| Workflow.RoundTurn | backend/workflow/graph.py:55-56 | below the limit, a round of the stand-in agents is counted and continued |
| Workflow.MaxIterationsHidesDone | backend/workflow/graph.py:136-139 | the eighth iteration can reach "done" and the run is still failed as "max-iterations" |
| Coordinator.AnalyzeUserRequest | backend/agents/coordinator.py:58-77 | uploads lead to document_parsing, anything else to general; each of the four actions holds exactly for its combination of uploads and bidding words |
| Coordinator.WikiParsed | backend/agents/coordinator.py:122 | no tender path reads as not parsed; a string path is parsed iff it starts with wiki/; any other value raises |
| Coordinator.CoordinateBidBuild | backend/agents/coordinator.py:116-125 | uploads not yet in the wiki are parsed first; otherwise the build runs; a non-string tender path is an error |
| Coordinator.HandleGeneralCoordination | backend/agents/coordinator.py:90-114 | a trigger word starts the build; otherwise the reply reports general_coordination from a generic stage and leaves any other stage |
| Coordinator.Execute | backend/agents/coordinator.py:34-56 | initial goes to the initial-request handler; parsing_requested becomes document_parsing and goes to the build decision, as does parsing_completed; every other stage goes to general coordination; no other stage changes the state |
| Coordinator.StageWriteKeepsDecision | backend/agents/coordinator.py:42-50 | writing the stage does not change the parse-first decision |
| Coordinator.HandleInitialRequest | backend/agents/coordinator.py:79-88 | an initial request with uploads always goes to the build decision; one without goes to conversation handling |
| Coordinator.InitialDispatch | backend/agents/coordinator.py:42-50 | from initial, uploads never lead to a plain conversation, and without uploads no parse is started |
| DocumentParser.Open | backend/agents/document_parser.py:402-423 | a "## " line opens a level-2 section and a "# " line a level-1 one, titled with the rest of the line |
| DocumentParser.Lines | backend/agents/document_parser.py:396-401 | the text's lines split at "\n", each stripped |
| DocumentParser.HeadingLines | backend/agents/document_parser.py:402-423 | every heading line starts with "# " or "## " |
| DocumentParser.OnePerHeading | backend/agents/document_parser.py:400-429 | exactly one section per heading line, in document order, with that line's level and title |
| DocumentParser.PendingHeading | backend/agents/document_parser.py:402-423 | a heading line closes the section under construction and opens its own |
| DocumentParser.PendingPlain | backend/agents/document_parser.py:424-426 | a non-empty plain line goes, with "\n", into the section under construction; otherwise it is dropped |
| DocumentParser.PendingEnd | backend/agents/document_parser.py:428-429 | at the end of the text the section under construction is appended |
| DocumentParser.Fallback | backend/agents/document_parser.py:432-439 | the default section is level 1, titled 文档内容, holding the text, or its first 500 characters and "..." when longer |
| DocumentParser.ParseTxt | backend/agents/document_parser.py:389-439 | the line loop yields one section per heading line with the non-empty lines after it; without headings the single default section |
| DocumentParser.SafeFilename | backend/agents/document_parser.py:106 | the cleaned name is no longer than the name, holds only letters, digits, blanks, '.', '-' and '_' taken from it, no path separator, and no trailing blank |
| DocumentParser.SafeFilenameKeeps | backend/agents/document_parser.py:106 | a name of allowed characters that does not end in a blank is kept as it is |
| DocumentParser.SafeFilenameIdempotent | backend/agents/document_parser.py:106 | cleaning a cleaned name changes nothing |
| DocumentParser.Padded | backend/agents/document_parser.py:125-127 | the content gains '=' up to the next multiple of 4 and is unchanged exactly when its length already is one |
| DocumentParser.PaddedNotShell | backend/agents/document_parser.py:120-127 | padding never gives content the shell-command form |
| DocumentParser.SaveUploadAsWritten | backend/agents/document_parser.py:116-156 | shell-command text is skipped; other content is decoded after padding, and when decoding fails the padded content is saved |
| DocumentParser.RawUploadGainsPadding | backend/agents/document_parser.py:125-155 | rejected plain text whose length is no multiple of 4 is saved with one to three '=' appended: "招标" is saved as "招标==" |
| DocumentParser.SaveUpload | backend/agents/document_parser.py:116-156 | as above, except that content the decoder rejects is saved as it was uploaded |
| Values.Get | backend/workflow/graph.py:27 | d.get(key, default): the value under the key, the default when it is absent |

## Left out

- Regular expressions are modelled line by line. Where `\s` in a pattern can match a line break, the match can span lines in Python; those cross-line matches are not modelled:
  - `find_chapter_span` and `remove_all_chapter_headings` (BidSection.FindChapterSpan, BidSection.RemoveAllLeavesNoHeading): `^\s*` and `\s*` with `re.M`, so blank lines before a heading are not counted into its start or removed with it.
  - BidSection.Outline: `(?m)^\s*#{2,6}\s+(.+?)\s*$`, so a line "##" followed by a line "目录" gives an outline item in Python and none in the model.
  - KeyExtraction.HashHeading, KeyExtraction.CollectHeadings: `^(#{1,6})\s*(.+)$` with `re.M`, so a bare "#" line followed by text reads as a heading spanning two lines in Python.
  - KeyExtraction.LineHeading, KeyExtraction.CollectHeadings: `^第…章\s*([^\n]+)$`, so "第一章\n投标须知" is the heading "第一章\n投标须知" in Python and none in the model. The model's "one heading per line" and its heading-order lemmas rest on this line-level reading.
- The `re.IGNORECASE` flag in `proposal_outline.py` is not modelled. For the fixed Chinese patterns it changes nothing, since they hold no letters.
- ProposalOutline.SpecificSectionContent: matches the cleaned section title case-sensitively, while Python ignores the case of letters in the title.
- `\d` is read as the ASCII digits 0-9 in the parsers of `ProposalOutline` (DigitRun, DottedLen, StripNumber), `BidSection` and `OutlineMatch`. Python's `\d` also matches other Unicode decimal digits such as "１".
- `Text.IsSpace` covers the whitespace characters that occur in tender documents. It is a subset of Python's `str.isspace`.
- `Text.Lower` lower-cases ASCII letters only. Python's `str.lower` also folds other scripts.
- `DocumentParser.IsAlnum` approximates `str.isalnum`. It covers ASCII letters and digits and the CJK unified ideographs U+4E00 to U+9FFF.
- Lines are split on `\n` only. `str.splitlines` also breaks on `\r` and other separators.
- OutlineMatch.MatchSubSection, OutlineMatch.RuleScore, OutlineMatch.SemanticScore, OutlineMatch.ParaScore, OutlineMatch.WindowScore: the scores, and their comparisons with 0.3, 0.4, 0.5, 0.6 and 0.7 and with the best so far, are computed in exact reals, while Python sums floats. A score that lands exactly on a threshold, or a tie for the best candidate, can fall the other way in Python; for example a child with rule score 0, one level apart and semantic score 0.6 scores exactly 0.4 in the model and 0.39999999999999997 in floating point, so the model keeps it as an alternative and Python drops it.
- The TF-IDF cosine similarity (scikit-learn) and the jieba word segmentation are external libraries. They are the `OutlineMatch.Oracles` parameter, and the only thing assumed about the similarity is that it lies in [0, 1].
- File I/O is modelled as a map from paths to contents. The clock is a parameter. Writes to files and to state dictionaries are returned as values.
- The agents and the LLM that the workflow calls are a step-function parameter of `Workflow`. In `Coordinator`, the parser and the build workflow it hands over to are the outcomes `ParseDocuments` and `RunBuild`.
- Workflow.Run: takes one clock reading `now` for the whole run, so every history entry carries the same timestamp; `run` reads `_get_timestamp()` again in each iteration.
- `get_session` reads the clock twice, once for `created_at` and once for `last_activity`. The model uses one `now` for both.
- `Values.Show` renders `str()` of scalars only. Lists and dictionaries get a placeholder, because they only occur in counter keys built from a stage name, which is a string.
- A `conversation_history` that holds something other than a list is replaced by a list. Python's `append` would raise an error on it.
- A stage counter that is not a number is read as 0. Python would raise `TypeError`. The workflow only ever writes numbers there.
- The session store's JSON persistence (`_load_sessions`, `_save_session`) is not modelled.
- Snapshot copying by pydantic validation is modelled by value semantics.
- SessionManager.AsWorkflowState: the validation checks that the sixteen `WorkflowState` keys are present and drops the others; the types of their values (and pydantic's coercions) are not checked, so a record with a wrongly typed value is accepted where Python may raise.
- These LLM-generated texts are left out. They depend entirely on the model's answer:
  - `_extract_project_context`;
  - the proposal generation;
  - the analyses;
  - the summaries.
- Base64 decoding is the parameter `decode` of `DocumentParser.SaveUpload`. Writing bytes and writing text are not told apart.
- OutlineHeadings.BuildHeadingTree: the pre-order walk of the tree is not proved equal to document order. What is stated instead is that children keep the headings' order (`ChildrenMembers`) and that subtrees do not cross (`NoCrossing`).
- `_extract_from_markdown` in the key-extraction helpers runs two `finditer` passes and then sorts the hits by position. The model makes one pass in line order, which gives the same list because each line holds at most one heading.
- ProposalOutline.HeadPattern: its own contract states only that the number starts with a digit. What the pattern reads is stated by the round-trip lemmas `HeadPatternMain` and `NumberedItemRoundTrip`.
- ProposalOutline.BracketPattern: its own contract states only that the number starts with a digit. The readings are stated by the lemmas next to it.
- ProposalOutline.KindOf: its own contract states only that a numbered line's number starts with a digit. Which pattern reads a line is stated by `KindOfHead` and its siblings.
- ProposalOutline.NumberedItem: its own contract states only that the number starts with a digit. The reading itself is stated by `NumberedItemRoundTrip`.
- OutlineHeadings.NormalizeHeading: step 6 of `_normalize_heading` rewrites `<digits>.<digits>` to itself. It is modelled as the identity.
- Some file plumbing is left out: `extract_from_file`, `_get_tender_path` in `structure_extractor.py`, and the directory handling of each agent's `execute`.
- The HTTP layer and the agents that only assemble prompts are left out.
- The `__main__` demonstration blocks are left out.

## Findings

| source | as written | input that shows it | evidently intended | confidence | as-written member | corrected member |
|---|---|---|---|---|---|---|
| backend/agents/document_parser.py:125-155 | the upload is padded with '=' in place before base64 decoding, and when decoding fails the padded content is written as the raw text | the plain-text upload "招标" is saved as "招标==" | content that is not base64 is saved exactly as uploaded | not executed | DocumentParser.RawUploadGainsPadding | DocumentParser.SaveUpload |
