# protocol-query, modelled in Dafny

protocol-query indexes clinical-trial protocols so they can be searched and compared. The model covers the following parts:

- **Section detection.** The Word parser reads heading-styled paragraphs, and falls back to a numbered-header pattern when there are none. The PDF parser detects headers line by line on each page and gives each section a page range.
- **The chunker.** It turns eligibility sections into one chunk per enumerated criterion, numbered and categorised. It packs narrative sections into overlapping windows of sentences under a token budget.
- **The store.** This is the SQLite schema (documents, sections, chunks, eligibility criteria and embeddings), with its keys, foreign keys, cascades and transactions. It covers the lookups, the listing and the delete, and `_store_document` and `ingest_add`, which fill the store.
- **Search.** FTS5 search over the engine's ranked rows, an exhaustive cosine-similarity vector search, and their reciprocal-rank fusion.
- **Comparison.** The cross-protocol eligibility comparison: criteria pooled from several protocols, pairs of similar criteria, and each protocol's unique criteria.
- **What-if analysis.** It classifies the scenario, picks the relevant section types and collects the affected criteria. It then builds the context handed to the language model.

There is one module per source file: `Chunker`, `DocxParser`, `PdfParser`, `Store`, `Ingest`, `Fts`, `Vector`, `Hybrid`, `Comparison` and `WhatIf`. Shared pieces have modules of their own:

- `Text`: Python's `strip`, `split`, `lower`, `in` and `join`.
- `Keywords`: the ordered first-match keyword tables.
- `Markers`: the criterion-marker regular expression.
- `Packing`: the sentence windows.
- `Titles`: the title classifier, section numbers, the numbered-header pattern and heading levels.
- `Segments`: the "current section" loop both parsers share.
- `Sorting`: Python's stable descending sort and slicing.
- `Sql`: `IN` filters.
- `Documents`: the section record.
- `Wrappers`: `Option` and `Result`.

Code that updates state step by step is modelled as methods with loops. Each such method is proved equal to a reference function, and the properties the source promises are proved as lemmas about that function. The store is a `Database` class whose `tables` field the insert and delete methods update. Its `Valid` predicate is the schema: increasing AUTOINCREMENT keys, the UNIQUE columns, and foreign keys that resolve.

## Model

| member | source | states |
|---|---|---|
| Chunker.CategorizeFirstMatch | src/protocol_query/parsers/chunker.py:224-284 | the category is that of the first keyword group one of whose terms occurs in the lower-cased text, and none exactly when no group matches |
| Chunker.Categorize | src/protocol_query/parsers/chunker.py:224-284 | `_categorize_criterion`: a category, when there is one, is one of the labels of the category keyword table |
| Chunker.StageIsDemographic | src/protocol_query/parsers/chunker.py:228-232 | matching is by substring: "Disease stage" is demographic because "stage" contains "age" |
| Chunker.CriterionType | src/protocol_query/parsers/chunker.py:89 | the criterion type is "inclusion" exactly when the section type contains "inclusion" |
| Chunker.MarkerChunk | src/protocol_query/parsers/chunker.py:108-134 | a match yields a chunk exactly when its stripped text is longer than 10 characters |
| Chunker.MarkerChunkWellFormed | src/protocol_query/parsers/chunker.py:110-134 | a match's chunk holds the stripped text, the number read from the digit or letter marker (or the match position plus one for bullets and dashes), the criterion type and the category |
| Chunker.MarkerChunks | src/protocol_query/parsers/chunker.py:107-134 | the marker path yields at most one chunk per match |
| Chunker.FromMatchPrefix | src/protocol_query/parsers/chunker.py:108 | a chunk made from a match of a prefix of the matches is a chunk of a match of the whole list |
| Chunker.MarkerChunksSnoc | src/protocol_query/parsers/chunker.py:108-134 | the last match adds its chunk, if it has one, at the end |
| Chunker.MarkerChunksStep | src/protocol_query/parsers/chunker.py:108-134 | one more iteration of the marker loop extends the result by that match's chunk |
| Chunker.MarkerChunksSound | src/protocol_query/parsers/chunker.py:108-134 | every marker-path chunk is the chunk of some match |
| Chunker.MarkerChunksComplete | src/protocol_query/parsers/chunker.py:123-134 | every match whose stripped text is longer than 10 characters has its chunk in the result |
| Chunker.MarkerChunksWellFormed | src/protocol_query/parsers/chunker.py:123-134 | every marker-path chunk is a criterion chunk with stripped text over 10 characters, the section's type and index, the criterion type and the category |
| Chunker.LineChunks | src/protocol_query/parsers/chunker.py:137-152 | the line fallback yields at most one chunk per line |
| Chunker.LineChunksStep | src/protocol_query/parsers/chunker.py:139-152 | one more line adds a numbered chunk exactly when its stripped text is longer than 20 characters |
| Chunker.LineChunksWellFormed | src/protocol_query/parsers/chunker.py:137-152 | line-fallback chunks are well-formed criterion chunks of more than 20 characters, numbered 1, 2, … in order |
| Chunker.CriteriaChunksWellFormed | src/protocol_query/parsers/chunker.py:79-154 | every criteria chunk is a well-formed criterion chunk of more than 10 characters |
| Chunker.FallbackOnlyWithoutMatches | src/protocol_query/parsers/chunker.py:105-152 | without any match of the marker pattern the criteria chunks are the line chunks, numbered 1..n |
| Chunker.AllMatchesTooShort | src/protocol_query/parsers/chunker.py:107-135 | when the pattern matches but every match is too short the result is empty: there is no fallback to lines |
| Chunker.MarkerChunksAllShort | src/protocol_query/parsers/chunker.py:123-124 | matches whose stripped texts are all 10 characters or shorter yield no chunk |
| Chunker.CriteriaChunks | src/protocol_query/parsers/chunker.py:79-154 | `_chunk_criteria`: at most one chunk per marker match when there are matches, and at most one per line otherwise |
| Chunker.ChunkCriteria | src/protocol_query/parsers/chunker.py:79-154 | `_chunk_criteria` returns the criteria chunks of the text: one per long-enough match, or one per long line when nothing matches |
| Chunker.ChunkMatches | src/protocol_query/parsers/chunker.py:107-134 | the marker loop returns the marker-path chunks |
| Chunker.ChunkLines | src/protocol_query/parsers/chunker.py:136-152 | the line loop returns the line-fallback chunks |
| Chunker.AddLine | src/protocol_query/parsers/chunker.py:140-152 | one line adds a chunk numbered by the counter exactly when its stripped text is longer than 20 characters, and the counter equals the number of chunks |
| Chunker.WindowChunks | src/protocol_query/parsers/chunker.py:181-220 | the narrative chunks are one per packing window, each the window's sentences joined by single spaces |
| Chunker.ChunksOfWindowsSnoc | src/protocol_query/parsers/chunker.py:183-191 | closing a window appends its joined chunk |
| Chunker.ChunksOfWindowsUnique | src/protocol_query/parsers/chunker.py:181-220 | the chunk list of a packing is unique |
| Chunker.Overlap | src/protocol_query/parsers/chunker.py:193-205 | the overlap seed is the longest suffix of the closed chunk that fits the overlap budget, stopping at the first sentence that does not fit, and carries its token total |
| Chunker.OverlapDone | src/protocol_query/parsers/chunker.py:196-202 | when the seed loop stops the seed is the whole overlap suffix with its token total |
| Chunker.OverlapTake | src/protocol_query/parsers/chunker.py:198-200 | taking one more sentence into the seed keeps the token total and the overlap length accounted |
| Chunker.TextChunks | src/protocol_query/parsers/chunker.py:156-222 | `_chunk_text`: a text yields no chunk exactly when it is blank, and every chunk is a "text" chunk without criterion fields |
| Chunker.ChunkText | src/protocol_query/parsers/chunker.py:156-222 | `_chunk_text` returns the narrative chunks of the text |
| Chunker.PackSentences | src/protocol_query/parsers/chunker.py:170-220 | the packing loop returns one chunk per window of the cleaned sentences |
| Chunker.PackPiece | src/protocol_query/parsers/chunker.py:173-208 | one piece is stripped and, unless empty, packed, keeping the packing state |
| Chunker.CloseLast | src/protocol_query/parsers/chunker.py:210-220 | a non-empty open chunk is closed at the end, completing the chunks of all windows |
| Chunker.AddSentence | src/protocol_query/parsers/chunker.py:181-208 | a sentence that overflows a non-empty chunk closes it and seeds the next with the overlap; then it joins the open chunk |
| Chunker.OverlapSeed | src/protocol_query/parsers/chunker.py:193-205 | the seed handed back is exactly the window that packing opens next, with its token total |
| Chunker.SectionChunks | src/protocol_query/parsers/chunker.py:61-77 | `_chunk_section`: a blank section yields nothing, a non-blank narrative section at least one chunk, and every chunk carries the section's type and index and is a criterion chunk exactly for the two criteria section types |
| Chunker.ChunkSection | src/protocol_query/parsers/chunker.py:61-77 | `_chunk_section` returns the section's chunks |
| Chunker.DocumentChunks | src/protocol_query/parsers/chunker.py:39-59 | `chunk_document`: without sections every chunk is a narrative chunk, and there is none exactly when the joined pages are blank |
| Chunker.ChunkDocument | src/protocol_query/parsers/chunker.py:39-59 | `chunk_document` returns the sections' chunks in order, or the chunks of the joined pages as an "other" section when there are no sections |
| Markers.MarkerAt | src/protocol_query/parsers/chunker.py:94-100 | a marker read at a position starts with a non-space character and ends inside the text |
| Markers.ItemEnd | src/protocol_query/parsers/chunker.py:101 | the lazy criterion body stops at the first position where the closing lookahead (a line break, optional spaces and a marker) or the end of the text holds |
| Markers.MatchAt | src/protocol_query/parsers/chunker.py:93-103 | a match starts at a line start, ends after it inside the text and has a non-empty body |
| Markers.FindAllFromEmpty | src/protocol_query/parsers/chunker.py:105-107 | the scan from a position finds nothing exactly when no position from there carries a match |
| Markers.FindAllEmpty | src/protocol_query/parsers/chunker.py:105-107 | `findall` returns nothing exactly when no position of the text carries a match, which is when the chunker falls back to lines |
| Markers.LeadingMarkerFound | src/protocol_query/parsers/chunker.py:93-105 | a text whose first non-blank character is a marker followed by more text yields at least one match |
| Markers.LetterNumberRange | src/protocol_query/parsers/chunker.py:116-119 | letter markers give the numbers 1..26 |
| Packing.Counts | src/protocol_query/parsers/chunker.py:179 | one token count per sentence |
| Packing.CountsAt | src/protocol_query/parsers/chunker.py:179 | each count is the word count of its sentence times 1.3, kept in tenths |
| Packing.CountsSlice | src/protocol_query/parsers/chunker.py:197 | the counts of a slice are the slice of the counts |
| Packing.TokenSumCons | src/protocol_query/parsers/chunker.py:199-200 | putting a sentence in front of the overlap adds its tokens |
| Packing.TokenSumSnoc | src/protocol_query/parsers/chunker.py:207-208 | appending a sentence to the open chunk adds its tokens to the running length |
| Packing.TokenSumMonotone | src/protocol_query/parsers/chunker.py:196-202 | a suffix never holds more tokens than the whole |
| Packing.BreakAt | src/protocol_query/parsers/chunker.py:168 | the next sentence break is a whitespace character after `.`, `!` or `?`, and none lies before it |
| Packing.SplitSentences | src/protocol_query/parsers/chunker.py:168 | `re.split` always returns at least one piece |
| Packing.Kept | src/protocol_query/parsers/chunker.py:174-176 | a piece is skipped exactly when it is blank |
| Packing.CleanSentences | src/protocol_query/parsers/chunker.py:173-176 | the kept sentences are no more than the pieces |
| Packing.CleanSentencesStripped | src/protocol_query/parsers/chunker.py:174-176 | every kept sentence is non-empty and stripped |
| Packing.CleanSentencesSnoc | src/protocol_query/parsers/chunker.py:173-176 | one more piece adds its stripped text unless it is blank |
| Packing.CleanSentencesAppend | src/protocol_query/parsers/chunker.py:173-176 | cleaning distributes over concatenation |
| Packing.CleanSentencesStep | src/protocol_query/parsers/chunker.py:173-176 | the kept sentences of a prefix of the pieces are a prefix of all kept sentences, growing by the stripped piece unless it is blank |
| Packing.CleanSentencesNext | src/protocol_query/parsers/chunker.py:174-176 | the loop's own step: an empty stripped piece keeps the count, a non-empty one is the next kept sentence |
| Packing.SentencesOfNonBlank | src/protocol_query/parsers/chunker.py:168-176 | a text that is not blank has at least one sentence |
| Packing.Sentences | src/protocol_query/parsers/chunker.py:168-176 | the stripped, non-empty sentences of a text: there are none exactly when the text is blank |
| Packing.BlankPiecesClean | src/protocol_query/parsers/chunker.py:173-176 | blank pieces are all skipped |
| Packing.BlankPieces | src/protocol_query/parsers/chunker.py:168 | every piece of a blank text is blank |
| Packing.BlankHasNoSentences | src/protocol_query/parsers/chunker.py:168-176 | a blank text has no non-empty sentence |
| Packing.BlankHeadRest | src/protocol_query/parsers/chunker.py:168 | skipping a blank first piece and its whitespace leaves a non-blank rest |
| Packing.OverlapLen | src/protocol_query/parsers/chunker.py:196-202 | the overlap is never longer than the closed chunk |
| Packing.OverlapLenStep | src/protocol_query/parsers/chunker.py:198-200 | a sentence that fits the remaining room is taken and the overlap grows by one |
| Packing.OverlapLenTake | src/protocol_query/parsers/chunker.py:196-200 | taking one sentence from the back keeps the overlap length accounted |
| Packing.OverlapLenStop | src/protocol_query/parsers/chunker.py:201-202 | a sentence that does not fit stops the overlap |
| Packing.OverlapLenIsLongestFit | src/protocol_query/parsers/chunker.py:193-205 | the overlap suffix fits the overlap budget, is shorter than the closed chunk when that chunk overflowed, and one more sentence would not fit |
| Packing.SuffixSplit | src/protocol_query/parsers/chunker.py:196-200 | a suffix one longer is the previous suffix of the shorter chunk plus the last sentence |
| Packing.PackOpen | src/protocol_query/parsers/chunker.py:207-208 | a sentence that fits keeps the open window |
| Packing.PackClose | src/protocol_query/parsers/chunker.py:181-205 | a sentence that overflows a non-empty window closes it and opens the overlap window |
| Packing.PackEnd | src/protocol_query/parsers/chunker.py:210-220 | at the end the open window, if non-empty, is closed |
| Packing.PackFromSpans | src/protocol_query/parsers/chunker.py:170-220 | the windows run from the open window's start to the last sentence, each non-empty |
| Packing.SpansCons | src/protocol_query/parsers/chunker.py:181-205 | a closed window followed by windows spanning from the overlap still spans |
| Packing.PackFromFirst | src/protocol_query/parsers/chunker.py:181 | the first window is not closed before a sentence overflows it |
| Packing.PackFromFollows | src/protocol_query/parsers/chunker.py:181-205 | each window starts with the overlap of the one before and is not closed early |
| Packing.ClosedFollows | src/protocol_query/parsers/chunker.py:181-205 | closing a window keeps the packing chained |
| Packing.ClosedThenFollows | src/protocol_query/parsers/chunker.py:193-205 | the window after a closed one starts with its overlap |
| Packing.FollowsCons | src/protocol_query/parsers/chunker.py:181-205 | a window that the next follows extends a chained packing |
| Packing.Windows | src/protocol_query/parsers/chunker.py:170-220 | the greedy windows of a sentence list, with the 10-tokens-per-unit budget of the chunk size and of the overlap, satisfy the window-packing specification from the first sentence on |
| Packing.PackedWindows | src/protocol_query/parsers/chunker.py:170-220 | the windows of greedy packing close only on overflow, start with the overlap of the previous one and cover the list |
| Packing.WindowsCover | src/protocol_query/parsers/chunker.py:170-220 | every kept sentence lies in some window, so none is dropped or split |
| Packing.ShortTextOneChunk | src/protocol_query/parsers/chunker.py:181 | sentences whose tokens fit the budget become exactly one chunk |
| Packing.PrefixTokens | src/protocol_query/parsers/chunker.py:181 | a prefix never holds more tokens than the whole |
| Text.DigitEnd | src/protocol_query/parsers/chunker.py:113 | the digit run ends at the first non-digit |
| Text.Strip | src/protocol_query/parsers/chunker.py:123 | the stripped text is no longer than the text and has no whitespace at either end |
| Text.StripStripped | src/protocol_query/parsers/chunker.py:140 | stripping is idempotent |
| Text.StripEmptyIffBlank | src/protocol_query/parsers/chunker.py:67 | stripping leaves nothing exactly when the text is blank |
| Text.TrimEnd | src/protocol_query/parsers/chunker.py:123 | dropping trailing whitespace leaves a slice ending in a non-space character, or nothing |
| Text.SkipSpace | src/protocol_query/parsers/chunker.py:94 | the `\s*` run ends at the first non-space |
| Text.WordLength | src/protocol_query/parsers/chunker.py:179 | the first word ends at the first whitespace |
| Text.WordStartsSplit | src/protocol_query/parsers/chunker.py:179 | word counts add up across a split that follows whitespace |
| Text.WordStartsInWord | src/protocol_query/parsers/chunker.py:179 | inside the first word only one word has started |
| Text.WordCountIsSplit | src/protocol_query/parsers/chunker.py:179 | the word count is the length of `split()` |
| Text.WordCountSpace | src/protocol_query/parsers/chunker.py:179 | leading whitespace does not change the word count |
| Text.WordCountOneWord | src/protocol_query/parsers/chunker.py:179 | a text without whitespace that is not empty is one word |
| Text.WordCountWord | src/protocol_query/parsers/chunker.py:179 | a word followed by whitespace adds one to the count of the rest |
| Text.SplitOn | src/protocol_query/parsers/chunker.py:137 | `split("\n")` returns at least one piece and no piece holds the separator |
| Text.JoinSplitOn | src/protocol_query/parsers/chunker.py:55 | joining the pieces of a split with the same separator gives the text back |
| Text.SplitOnPrefix | src/protocol_query/parsers/chunker.py:137 | text without the separator only extends the first piece |
| Text.SplitOnTwo | src/protocol_query/parsers/chunker.py:137 | two pieces joined by one separator split back into them |
| Text.Lower | src/protocol_query/parsers/chunker.py:226 | lower-casing keeps the length and maps each character |
| Text.CountChar | src/protocol_query/parsers/docx_parser.py:195 | the count of a character never exceeds the length and is zero exactly when the character is absent |
| Sorting.InsertDesc | src/protocol_query/search/vector.py:99 | inserting gives the list with the element added, as a multiset, one longer |
| Sorting.SortedCons | src/protocol_query/search/vector.py:99 | a head whose key bounds a descending list keeps it descending |
| Sorting.InsertDescAtMost | src/protocol_query/search/vector.py:99 | insertion never raises the keys beyond a common bound |
| Sorting.InsertDescSorted | src/protocol_query/search/vector.py:99 | insertion into a sorted list gives a sorted list |
| Sorting.SortDesc | src/protocol_query/search/vector.py:99 | `sort(key=score, reverse=True)` gives a descending permutation of its input |
| Sorting.SortDescStep | src/protocol_query/search/vector.py:99 | inserting the head into the sorted tail sorts the whole list |
| Sorting.InsertDescWithKey | src/protocol_query/search/vector.py:99 | insertion keeps the order among elements of equal key |
| Sorting.SortDescStable | src/protocol_query/search/vector.py:99 | the sort is stable: elements with equal keys keep their order |
| Sorting.PyPrefix | src/protocol_query/search/vector.py:100 | `results[:limit]` takes the first `limit` elements, and for a negative limit drops that many from the end |
| Sorting.SqlLimit | src/protocol_query/search/fts.py:66 | `LIMIT n` takes the first `n` rows, and a negative limit means no limit |
| Sorting.TopDesc | src/protocol_query/search/vector.py:99-100 | the first `n` of a descending sort are sorted and are a sub-multiset of the input |
| Sorting.TopDominates | src/protocol_query/search/vector.py:99-100 | the first `n` score no lower than any element left out |
| Sorting.DistinctCount | src/protocol_query/search/hybrid.py:147-150 | a list without repetition holds each element once |
| Sorting.RepeatCount | src/protocol_query/search/hybrid.py:147-150 | a repeated element is counted at least twice |
| Sorting.DistinctPermutation | src/protocol_query/search/hybrid.py:147-150 | a rearrangement of a list without repetition has none either |
| Keywords.FirstMatchFromNone | src/protocol_query/parsers/chunker.py:228-284 | scanning from a row finds no label exactly when no row from there matches |
| Keywords.FirstMatchFromRow | src/protocol_query/parsers/chunker.py:228-284 | scanning from a row returns the label of the first matching row from there |
| Keywords.FirstMatchNone | src/protocol_query/parsers/chunker.py:283-284 | there is no label exactly when no keyword group matches |
| Keywords.FirstMatchRow | src/protocol_query/parsers/chunker.py:228-284 | the label is that of the first matching keyword group |
| Keywords.Labels | src/protocol_query/analysis/what_if.py:81-118 | the labels of a keyword table, one per row and in row order |
| Keywords.FirstMatchLabel | src/protocol_query/parsers/docx_parser.py:131-164 | a type the first-match lookup returns is always one of the table's own labels |
| Keywords.FirstMatchIsLabel | src/protocol_query/parsers/chunker.py:228-284 | what the first-match lookup returns is always one of the table's own labels |
| Keywords.TermSelectsRow | src/protocol_query/analysis/what_if.py:85-116 | a term occurring in the text selects its row unless an earlier row matches too |
| Titles.ClassifyTitleFirstMatch | src/protocol_query/parsers/docx_parser.py:131-164 | a title's section type is "other" exactly when none of the keywords occurs in the lower-cased title; otherwise it is the type of the first keyword row, in source order, that has a keyword occurring in it |
| Titles.ClassifySectionFromTitle | src/protocol_query/parsers/docx_parser.py:131-164 | `_classify_section_from_title`: the section type of a title is "other" or one of the labels of the title keyword table |
| Titles.InclusionBeforeExclusion | src/protocol_query/parsers/docx_parser.py:135-138 | a title naming inclusion is an inclusion-criteria section even when it also names exclusion |
| Titles.DottedEnd | src/protocol_query/parsers/docx_parser.py:127 | the greedy `(\.\d+)*` part of the number pattern ends inside the text, at or after where it started |
| Titles.DottedEndShape | src/protocol_query/parsers/docx_parser.py:127 | what the greedy number scan takes is a dotted number, and the pattern cannot take any more after it |
| Titles.NumberEnd | src/protocol_query/parsers/docx_parser.py:127 | the section number at the start of a title is non-empty, a dotted number, and cannot be extended |
| Titles.ExtractSectionNumber | src/protocol_query/parsers/docx_parser.py:125-128 | there is no number exactly when the title is empty or does not start with a digit; otherwise the number is a prefix of the title, a dotted number, and cannot be extended |
| Titles.NumberContinues | src/protocol_query/parsers/docx_parser.py:127 | a section number can never stop inside a longer dotted number of the same title |
| Titles.SectionNumberUnique | src/protocol_query/parsers/docx_parser.py:125-128 | any prefix that is a dotted number and cannot be extended is the extracted number, so the extracted number is the longest match |
| Titles.HeaderNumber | src/protocol_query/parsers/docx_parser.py:173-179 | when the numbered-header pattern matches, its group 1 is the same number that section-number extraction gives for that text |
| Titles.KeywordsStartWithLetters | src/protocol_query/parsers/docx_parser.py:174-177 | every header keyword starts with a letter, so the greedy number never has to give characters back to it |
| Titles.NumberedHeader | src/protocol_query/parsers/docx_parser.py:173-179 | a dotted number, then " " or ". ", then any header keyword in any case, matches the pattern with that number as group 1 |
| Titles.IntroductionHeader | src/protocol_query/parsers/docx_parser.py:173-179 | "1 INTRODUCTION" is a numbered header with number "1" |
| Titles.BackgroundHeader | src/protocol_query/parsers/docx_parser.py:173-179 | "2 BACKGROUND" is a numbered header with number "2" |
| Titles.StartAfterSeparator | src/protocol_query/parsers/docx_parser.py:174 | after a dotted number and its separator, `\s*\.?\s*` leaves the keyword to start at the first letter |
| Titles.LowerAfter | src/protocol_query/parsers/docx_parser.py:178 | case-insensitive matching finds a keyword at the start of the text that follows a prefix |
| Titles.DecimalString | src/protocol_query/parsers/docx_parser.py:119 | the decimal spelling of a natural number is non-empty and all digits |
| Titles.DecimalStringValue | src/protocol_query/parsers/docx_parser.py:119 | reading a number's decimal spelling back gives that number |
| Titles.ParseIntDecimal | src/protocol_query/parsers/docx_parser.py:119 | `int` accepts the decimal spelling of n and gives n, and with a leading minus gives -n |
| Titles.HeadingLevel | src/protocol_query/parsers/docx_parser.py:115-122 | a style name that does not contain "Heading" has level 0 |
| Titles.HeadingNumberLevel | src/protocol_query/parsers/docx_parser.py:115-122 | style "Heading N" has level N |
| Titles.HeadingJoinedNumberLevel | src/protocol_query/parsers/docx_parser.py:115-122 | style "HeadingN" has level N |
| Titles.HeadingWithoutNumber | src/protocol_query/parsers/docx_parser.py:118-121 | a bare "Heading" style, whose remainder is not an integer, has level 1 |
| Segments.SectionsCount | src/protocol_query/parsers/docx_parser.py:183-205 | the section scan gives one section per header line |
| Segments.SectionsIndexed | src/protocol_query/parsers/docx_parser.py:186-191 | sections are numbered consecutively from the starting counter |
| Segments.HeadPos | src/protocol_query/parsers/docx_parser.py:183-198 | the q-th header line from a position is a header line at or after that position |
| Segments.SectionsFromHeads | src/protocol_query/parsers/docx_parser.py:183-205 | the q-th section is opened by the q-th header line: its title, type, number and level are that line's, and its text is the lines up to the next header |
| Segments.SectionsCoverText | src/protocol_query/parsers/docx_parser.py:183-205 | nothing is lost or duplicated: the text before the first header, followed by every section's title and text, is the whole stream of lines |
| Segments.NoHeadsNoSections | src/protocol_query/parsers/docx_parser.py:202-205 | a stream without a header line gives no section |
| Segments.HeadThenText | src/protocol_query/parsers/docx_parser.py:183-203 | a header then a plain line gives one section, holding that line |
| Segments.TextThenHead | src/protocol_query/parsers/docx_parser.py:183-203 | a plain line then a header gives one empty section: text before the first header is dropped |
| Segments.ScanStart | src/protocol_query/parsers/docx_parser.py:169-181 | the empty start state (no sections, none open, counter 0) is the scan invariant at line 0 |
| Segments.ScanHead | src/protocol_query/parsers/docx_parser.py:185-198 | a header line closes the open section, if any, bumps the counter, and opens its own section; this keeps the scan invariant |
| Segments.ScanText | src/protocol_query/parsers/docx_parser.py:199-200 | any other line is appended, with a newline, to the open section's text, if there is one; this keeps the scan invariant |
| Segments.ScanEnd | src/protocol_query/parsers/docx_parser.py:202-205 | at the end of the stream, the closed sections followed by the open one are exactly the specified sections |
| DocxParser.Texts | src/protocol_query/parsers/docx_parser.py:81 | the kept paragraph texts are the lines' texts, one for one and in order |
| DocxParser.PatternLines | src/protocol_query/parsers/docx_parser.py:183-185 | each paragraph becomes one pattern line, read as a header exactly when it matches the numbered-header pattern |
| DocxParser.DetectSectionsFromText | src/protocol_query/parsers/docx_parser.py:167-205 | the pattern fallback returns exactly the sections that the numbered-header lines open over the paragraphs |
| DocxParser.DetectStep | src/protocol_query/parsers/docx_parser.py:184-200 | one paragraph of the fallback loop keeps the scan invariant, one line further on |
| DocxParser.DocLineAt | src/protocol_query/parsers/docx_parser.py:76-81 | a kept paragraph's line sits right after the lines of the paragraphs before it |
| DocxParser.ReadParagraph | src/protocol_query/parsers/docx_parser.py:76-102 | one paragraph of the heading loop keeps the reading invariant: empty paragraphs are skipped, kept texts are appended, and heading-styled ones open sections |
| DocxParser.ExtractTextAndSections | src/protocol_query/parsers/docx_parser.py:69-112 | the paragraphs are the stripped non-empty texts. With two or more heading paragraphs the sections are exactly those the headings open. Otherwise the numbered-header fallback runs over the texts, and a single heading section is appended unless it equals a detected one |
| DocxParser.ReadingEnd | src/protocol_query/parsers/docx_parser.py:104-110 | after the loop, the closed sections and the open one are the heading sections; nothing is closed unless one is open, and the open one differs from every closed one |
| DocxParser.OneHeadingDuplicatesIndex | src/protocol_query/parsers/docx_parser.py:105-110 | with exactly one heading section that the fallback did not detect, the result holds at least two sections, and both the first and the last are numbered 0 |
| DocxParser.OneHeadingCase | src/protocol_query/parsers/docx_parser.py:105-110 | a heading-styled title followed by a paragraph that is a numbered header reaches that case |
| DocxParser.HeadingThenText | src/protocol_query/parsers/docx_parser.py:84-102 | a heading paragraph then a plain one give one heading section, titled by the heading |
| DocxParser.TextThenHeader | src/protocol_query/parsers/docx_parser.py:183-203 | a plain paragraph then a numbered header give one detected section, titled by the header |
| DocxParser.OneHeadingExample | src/protocol_query/parsers/docx_parser.py:105-110 | "Title" in style "Heading 1" then "1 INTRODUCTION" reaches the duplicate-index case |
| DocxParser.IntendedSections | src/protocol_query/parsers/docx_parser.py:104-110 | the corrected rule uses the heading sections whenever there is one, and the fallback only otherwise; its sections are numbered 0, 1, 2, … with no duplicate |
| PdfParser.ClassifySection | src/protocol_query/parsers/pdf_parser.py:158-191 | the category argument plays no part: a title is "other" exactly when none of the keywords occurs in its lower-cased form, and any title containing "inclusion" is an inclusion-criteria section |
| PdfParser.FirstPatternSpec | src/protocol_query/parsers/pdf_parser.py:141-143 | the pattern scan finds nothing exactly when no pattern from there matches; what it finds is the first pattern that matches |
| PdfParser.LineHeader | src/protocol_query/parsers/pdf_parser.py:136-153 | a header found on a line has the line as its title, and level 0 when it has no number |
| PdfParser.LineHeaderSpec | src/protocol_query/parsers/pdf_parser.py:141-153 | a line is a header exactly when some pattern matches it. The header's title is the line and its type is the line's classification. Its number is the numbered pattern's group 1, absent for standalone headers. Its level counts the line's dots for a numbered header and is 0 otherwise |
| PdfParser.HeadersOf | src/protocol_query/parsers/pdf_parser.py:136-153 | at most one header per line |
| PdfParser.Headers | src/protocol_query/parsers/pdf_parser.py:112-155 | `_detect_sections`: at most one header per line of the page text |
| PdfParser.DetectSections | src/protocol_query/parsers/pdf_parser.py:112-155 | returns exactly the headers of the page text's non-empty stripped lines, in order |
| PdfParser.DetectLine | src/protocol_query/parsers/pdf_parser.py:136-153 | one line of the loop extends the headers to those of the lines up to it |
| PdfParser.MatchPatterns | src/protocol_query/parsers/pdf_parser.py:141-153 | the inner loop finds a category exactly when the line is a header, and the header it reports is the one that category gives |
| PdfParser.PageTexts | src/protocol_query/parsers/pdf_parser.py:78-80 | one page text per page, in order, with a page that yields no text read as "" |
| PdfParser.PageHeaders | src/protocol_query/parsers/pdf_parser.py:83 | one list of detected headers per page |
| PdfParser.PageHeadersAt | src/protocol_query/parsers/pdf_parser.py:83 | page q's headers are those detected in page q's text |
| PdfParser.PageTags | src/protocol_query/parsers/pdf_parser.py:84-96 | a page's headers, in order, each tagged with that page's number |
| PdfParser.Tagged | src/protocol_query/parsers/pdf_parser.py:78-96 | every tagged header carries a page number from 1 to the number of pages |
| PdfParser.EndPage | src/protocol_query/parsers/pdf_parser.py:85-88 | a section's end page is never past the last page |
| PdfParser.PagedSections | src/protocol_query/parsers/pdf_parser.py:70-109 | one section per header, the k-th built from the k-th header, its page and the pages up to the next header |
| PdfParser.TaggedNext | src/protocol_query/parsers/pdf_parser.py:78-96 | page i + 1 adds its own headers after those of the pages before it |
| PdfParser.TaggedPrefix | src/protocol_query/parsers/pdf_parser.py:78-96 | the headers of the first i pages come first among all headers, in the same order |
| PdfParser.PageTagsAt | src/protocol_query/parsers/pdf_parser.py:84-96 | the headers of page i + 1 follow those of the earlier pages among all headers, each tagged with page i + 1 |
| PdfParser.TaggedOrdered | src/protocol_query/parsers/pdf_parser.py:78-96 | headers are met in page order |
| PdfParser.PdfSectionPages | src/protocol_query/parsers/pdf_parser.py:84-107 | sections are numbered 0, 1, 2, … and start in page order. Each ends on the page before the next one starts, and the last ends on the last page |
| PdfParser.PagesTextSplit | src/protocol_query/parsers/pdf_parser.py:100-102 | the texts of two consecutive page ranges join up into the text of the whole range |
| PdfParser.SectionsCover | src/protocol_query/parsers/pdf_parser.py:100-107 | the section texts from the k-th on, written one after another, are exactly the text of the pages from the k-th section's start page to the last page |
| PdfParser.PdfSections | src/protocol_query/parsers/pdf_parser.py:70-110 | the k-th section carries index k and has both a start page and an end page |
| PdfParser.PdfSectionsCover | src/protocol_query/parsers/pdf_parser.py:100-107 | the section texts together are the text of every page from the first header's page on; pages before it belong to no section |
| PdfParser.NumberedIsHeader | src/protocol_query/parsers/pdf_parser.py:117-125 | a line matching the numbered-header pattern is a header |
| PdfParser.HeaderLineCounts | src/protocol_query/parsers/pdf_parser.py:136-153 | a header line adds exactly one header |
| PdfParser.TwoHeaderPage | src/protocol_query/parsers/pdf_parser.py:136-155 | a page holding just two numbered header lines has two headers |
| PdfParser.FirstPageTwoHeaders | src/protocol_query/parsers/pdf_parser.py:84-88 | when the first page has two headers, the first section starts on page 1 and is closed with end page 0 |
| PdfParser.SamePageInverted | src/protocol_query/parsers/pdf_parser.py:84-88 | a first page with two or more headers gives a first section whose end page comes before its start page |
| PdfParser.SamePageExample | src/protocol_query/parsers/pdf_parser.py:84-88 | the page "1 INTRODUCTION" / "2 BACKGROUND" gives a first section that starts on page 1 and ends on page 0 |
| PdfParser.ExampleHeaders | src/protocol_query/parsers/pdf_parser.py:136-155 | that page has two headers |
| PdfParser.IntendedPdfSections | src/protocol_query/parsers/pdf_parser.py:84-88 | the corrected sections correspond one to one with the sections as written, and none ends before it starts: a section that the next header closes on its own start page ends on that page |
| PdfParser.OpenHeader | src/protocol_query/parsers/pdf_parser.py:85-98 | a header of page i + 1 closes the open section with end page i and opens its own, keeping the page-reading invariant |
| PdfParser.Accumulate | src/protocol_query/parsers/pdf_parser.py:100-102 | after its headers, page i + 1's whole text, with a newline, goes to the open section, if there is one |
| PdfParser.OpenHeaders | src/protocol_query/parsers/pdf_parser.py:84-98 | handling the headers of page i + 1 in order advances the invariant past all of them |
| PdfParser.ReadPage | src/protocol_query/parsers/pdf_parser.py:83-102 | one page, headers then text, moves the invariant to the next page |
| PdfParser.NextPage | src/protocol_query/parsers/pdf_parser.py:78-102 | reading page i + 1 gives its text ("" when nothing is extracted) and moves the invariant on |
| PdfParser.Close | src/protocol_query/parsers/pdf_parser.py:104-107 | after the last page, closing the open section on that page gives exactly the specified sections |
| PdfParser.ExtractTextAndSections | src/protocol_query/parsers/pdf_parser.py:70-109 | returns the page texts and exactly the sections of the reference definition |
| Sql.Where | src/protocol_query/core/database.py:179 | a `WHERE` clause keeps at most the rows it is given |
| Sql.WhereSpec | src/protocol_query/core/database.py:179 | a row is selected exactly when it is stored and satisfies the condition |
| Sql.WhereMember | src/protocol_query/core/database.py:179 | a selected row is stored and satisfies the condition |
| Sql.WhereNone | src/protocol_query/core/database.py:179 | a condition no row satisfies selects nothing |
| Store.Column | src/protocol_query/core/database.py:14 | a column holds one value per row, in rowid order |
| Store.InColumn | src/protocol_query/core/database.py:14 | a stored row's key is in its column |
| Store.ColumnWitness | src/protocol_query/core/database.py:14 | a value of a column is carried by some stored row |
| Store.ColumnAppend | src/protocol_query/core/database.py:14 | appending a row appends its key to the column |
| Store.AppendAssoc | src/protocol_query/core/database.py:14 | appending in two steps appends the concatenation |
| Store.WhereIncreasing | src/protocol_query/core/database.py:219 | deleting rows keeps the keys increasing |
| Store.WhereWithin | src/protocol_query/core/database.py:219 | deleting rows keeps every key within the sequence value |
| Store.IncreasingUnique | src/protocol_query/core/database.py:14 | two rows of a table with the same primary key are the same row |
| Store.AppendKeyed | src/protocol_query/core/database.py:14 | a row appended under the next AUTOINCREMENT key keeps the keys increasing and within the sequence |
| Store.FirstWhere | src/protocol_query/core/database.py:182 | the first row in rowid order that satisfies the condition, and no earlier row does |
| Store.Fetch | src/protocol_query/core/database.py:182-183 | `fetchone` returns nothing exactly when no row matches, and otherwise a stored matching row |
| Store.KeysCounted | src/protocol_query/core/database.py:14 | a table whose keys increase and lie between 1 and the counter has no more rows than the counter's value |
| Store.KeyedCounts | src/protocol_query/core/database.py:13-79 | with keys in place no table holds more rows than its AUTOINCREMENT counter has issued |
| Store.Valid | src/protocol_query/core/database.py:13-79 | the schema's constraints: increasing AUTOINCREMENT keys, the UNIQUE columns and every foreign key naming an existing row; in such a database no table has more rows than its counter has issued |
| Store.EmptyValid | src/protocol_query/core/database.py:163-168 | the freshly initialised schema satisfies every constraint |
| Store.DocumentAppended | src/protocol_query/core/database.py:13-28 | a document row under the next key with a path not yet taken keeps the schema |
| Store.DocumentReferenced | src/protocol_query/core/database.py:13-28 | a new document leaves every existing reference in place |
| Store.AddDocument | src/protocol_query/core/database.py:13-28 | inserting a document keeps the schema and assigns the next key |
| Store.SectionAppended | src/protocol_query/core/database.py:31-43 | a section row whose document and parent exist keeps the schema |
| Store.AddSection | src/protocol_query/core/database.py:31-43 | inserting a section keeps the schema and assigns the next key |
| Store.ChunkAppended | src/protocol_query/core/database.py:46-58 | a chunk row whose document and section exist keeps the schema |
| Store.ChunkReferenced | src/protocol_query/core/database.py:46-58 | a new chunk whose own keys resolve leaves every reference in place |
| Store.AddChunk | src/protocol_query/core/database.py:46-58 | inserting a chunk keeps the schema and assigns the next key |
| Store.EmbeddingAppended | src/protocol_query/core/database.py:74-78 | an embedding of an existing chunk that has none yet keeps the schema |
| Store.AddEmbedding | src/protocol_query/core/database.py:74-78 | inserting an embedding keeps the schema and assigns the next key |
| Store.CriterionAppended | src/protocol_query/core/database.py:61-71 | a criteria row whose document and chunk exist keeps the schema |
| Store.AddCriterion | src/protocol_query/core/database.py:61-71 | inserting a criterion keeps the schema and assigns the next key |
| Store.DocumentByPath | src/protocol_query/core/database.py:175-183 | a document is found exactly when the path is taken, and the one found is stored under that path |
| Store.FetchPath | src/protocol_query/core/database.py:175-183 | the path query finds nothing exactly when no document has the path |
| Store.PathLookupUnique | src/protocol_query/core/database.py:16 | with `filepath UNIQUE` the document found by path is the only one stored under it |
| Store.DocumentById | src/protocol_query/core/database.py:185-190 | a document is found exactly when the key exists, and it carries that key |
| Store.FetchId | src/protocol_query/core/database.py:185-190 | the key query finds nothing exactly when no document has the key |
| Store.DocumentByProtocolId | src/protocol_query/core/database.py:192-200 | a document is found exactly when some document has the protocol id, and the one found has it |
| Store.ProtocolLookupOldest | src/protocol_query/core/database.py:192-200 | among the documents of one protocol the lookup returns the one with the smallest key |
| Store.Listings | src/protocol_query/core/database.py:207-209 | one listing per document, each with its own chunk and criteria counts |
| Store.Created | src/protocol_query/core/database.py:211 | the listings sorted by creation time, newest first, as a rearrangement of them |
| Store.ListDocuments | src/protocol_query/core/database.py:202-214 | one entry per document, newest first, a rearrangement of the listings |
| Store.ListDocumentsSpec | src/protocol_query/core/database.py:202-214 | every stored document is listed once with exactly its own chunks and criteria counted, nothing else is listed, and equal times keep rowid order |
| Store.Detach | src/protocol_query/core/database.py:49 | `ON DELETE SET NULL` nulls exactly the section links to removed sections, one chunk for one chunk |
| Store.InRemovedSections | src/protocol_query/core/database.py:33 | a section of the deleted document is removed by the cascade |
| Store.InRemovedChunks | src/protocol_query/core/database.py:48 | a chunk of the deleted document is removed by the cascade |
| Store.RemovedChunkOwner | src/protocol_query/core/database.py:48 | a removed chunk key belongs to a chunk of the deleted document |
| Store.RemovedSectionOwner | src/protocol_query/core/database.py:33 | a removed section key belongs to a section of the deleted document |
| Store.DetachedChunks | src/protocol_query/core/database.py:48-49 | the surviving chunks are exactly the other documents' chunks, with links to removed sections set to NULL |
| Store.Blocked | src/protocol_query/core/database.py:216-220 | a document with no sections and no chunks never blocks its own delete |
| Store.Deleted | src/protocol_query/core/database.py:216-220 | a delete leaves the AUTOINCREMENT counters as they were, removes rows only and leaves no document row with the deleted key |
| Store.DeleteCascades | src/protocol_query/core/database.py:216-220 | the delete removes the document and, by cascade, its sections, chunks, criteria and the embeddings of its chunks, and keeps everything else |
| Store.DeleteKeyed | src/protocol_query/core/database.py:216-220 | the delete keeps every table's keys increasing and within their sequences |
| Store.KeptDocument | src/protocol_query/core/database.py:219 | a document other than the deleted one keeps its key |
| Store.KeptSection | src/protocol_query/core/database.py:33 | a section key the cascade does not remove is still present |
| Store.KeptChunk | src/protocol_query/core/database.py:48 | a chunk key the cascade does not remove is still present |
| Store.DeleteSectionRefs | src/protocol_query/core/database.py:33-37 | surviving sections still name existing documents and parents |
| Store.DeleteChunkRefs | src/protocol_query/core/database.py:48-49 | surviving chunks still name existing documents and sections |
| Store.DeleteCriterionRefs | src/protocol_query/core/database.py:63-69 | surviving criteria still name existing documents and chunks |
| Store.DeleteEmbeddingRefs | src/protocol_query/core/database.py:76 | surviving embeddings still name existing chunks |
| Store.DeletePreservesValid | src/protocol_query/core/database.py:216-220 | a delete SQLite accepts leaves a database that satisfies its schema |
| Store.NotInColumn | src/protocol_query/core/database.py:14 | a key no row carries is not in the column |
| Store.DanglingParent | src/protocol_query/core/database.py:37 | a surviving section whose parent the cascade removed dangles, since `parent_section_id` has no ON DELETE action |
| Store.DanglingChunk | src/protocol_query/core/database.py:69 | a surviving criterion whose chunk the cascade removed dangles, since `chunk_id` has no ON DELETE action |
| Store.BlockedBreaksReference | src/protocol_query/core/database.py:216-220 | a refused delete is exactly one whose cascade would leave a dangling reference |
| Store.Database.constructor | src/protocol_query/core/database.py:163-168 | a new database starts with the empty schema, which is valid |
| Store.Database.InsertDocument | src/protocol_query/core/database.py:13-28 | the insert is refused exactly when the path is taken, and then nothing changes; otherwise the row gets the next key |
| Store.Database.InsertSection | src/protocol_query/core/database.py:31-43 | the insert succeeds exactly when its foreign keys resolve, and then the row gets the next key; otherwise nothing changes |
| Store.Database.InsertChunk | src/protocol_query/core/database.py:46-58 | the insert succeeds exactly when its foreign keys resolve, and then the row gets the next key; otherwise nothing changes |
| Store.Database.InsertEmbedding | src/protocol_query/core/database.py:74-78 | the insert succeeds exactly when the chunk exists and has no embedding yet, and then the row gets the next key |
| Store.Database.InsertCriterion | src/protocol_query/core/database.py:61-71 | the insert succeeds exactly when its foreign keys resolve, and then the row gets the next key |
| Store.Database.DeleteDocument | src/protocol_query/core/database.py:216-220 | returns false for an unknown key and fails when the cascade would break a reference, changing nothing in both cases; otherwise it removes the document and its dependent rows and returns true |
| Ingest.NewSections | src/protocol_query/cli/ingest.py:129-147 | one section row per section, in order, under consecutive keys after the current last one, each belonging to the new document |
| Ingest.NewChunks | src/protocol_query/cli/ingest.py:150-167 | one chunk row per paired chunk, in order, under consecutive keys, the k-th with chunk index k and the section key the section map gives |
| Ingest.NewEmbeddings | src/protocol_query/cli/ingest.py:169-174 | one embedding row per stored chunk: the k-th references the k-th new chunk and holds its packed vector |
| Ingest.NewCriteria | src/protocol_query/cli/ingest.py:176-193 | at most one criteria row per chunk |
| Ingest.SectionIdMap | src/protocol_query/cli/ingest.py:128-147 | every key in the section map is the key of one of the section rows written, between the counter before and the counter after |
| Ingest.SectionIdMapSpec | src/protocol_query/cli/ingest.py:128-147 | an index is in the section map exactly when some section has that index, and it maps to the key of the last such section's row |
| Ingest.ChunkSectionId | src/protocol_query/cli/ingest.py:159 | a chunk's section key is NULL exactly when it has no section index or no section has that index; otherwise it is the key of the last section with that index |
| Ingest.NewCriteriaSpec | src/protocol_query/cli/ingest.py:176-193 | the i-th stored chunk has a criteria row exactly when it is a criterion chunk, and that row copies its text, type, number and category and belongs to the new document |
| Ingest.NewCriteriaChunks | src/protocol_query/cli/ingest.py:176-193 | every criteria row belongs to the new document and references one of the new chunks |
| Ingest.OneEmbeddingPerChunk | src/protocol_query/cli/ingest.py:169-174 | every stored chunk has an embedding row, and each of its embedding rows decodes back to a vector of that embedding's dimension |
| Ingest.Stored | src/protocol_query/cli/ingest.py:95-195 | a committed store keeps every existing row in place and appends a document row; each AUTOINCREMENT counter advances by the rows it appends |
| Ingest.StoredSpec | src/protocol_query/cli/ingest.py:95-195 | a committed store adds one document row under the next key, one section row per section, and one chunk and one embedding row per paired chunk. The chunks carry indexes 0, 1, … and their texts in order, and every section, chunk and criteria row belongs to the new document |
| Ingest.SectionsOwned | src/protocol_query/cli/ingest.py:137 | section rows appended for one document belong to it at every new position |
| Ingest.CriteriaOwned | src/protocol_query/cli/ingest.py:186 | criteria rows appended for one document belong to it at every new position |
| Ingest.FreshChunkUnembedded | src/protocol_query/cli/ingest.py:167-174 | a chunk key beyond the last one issued has no embedding yet, so the embedding insert meets no UNIQUE clash |
| Ingest.MappedSectionStored | src/protocol_query/cli/ingest.py:147-159 | every key in the section map names a stored section row, so a chunk's section reference is accepted |
| Ingest.StepRows | src/protocol_query/cli/ingest.py:150-193 | one more chunk iteration appends one chunk row, one embedding row and, for a criterion chunk, one criteria row |
| Ingest.RowsStart | src/protocol_query/cli/ingest.py:104-147 | before the chunk loop the tables hold the old rows, plus the new document row and its section rows |
| Ingest.RowsRegistered | src/protocol_query/cli/ingest.py:150-193 | during the chunk loop the document and section rows stay as the first two steps wrote them |
| Ingest.RegisteredStep | src/protocol_query/cli/ingest.py:104-147 | the document insert, on a free path, followed by the section loop, gives those tables |
| Ingest.ChunkStep | src/protocol_query/cli/ingest.py:151-174 | the chunk and embedding inserts of one iteration are accepted and add exactly those two rows |
| Ingest.CriterionStep | src/protocol_query/cli/ingest.py:177-193 | the criteria insert of a typed criterion chunk is accepted and adds that one row |
| Ingest.SectionStep | src/protocol_query/cli/ingest.py:129-147 | one section insert is accepted, keyed by the next section key, and adds that section's row |
| Ingest.SectionsBounds | src/protocol_query/cli/ingest.py:129-147 | before the section loop nothing is added; after it every section's row is appended under consecutive keys |
| Ingest.StoreSections | src/protocol_query/cli/ingest.py:127-147 | the section loop appends exactly the section rows, keeps the schema invariant, and returns the map from each section index to its row's key |
| Ingest.StoreSection | src/protocol_query/cli/ingest.py:130-147 | one section insert returns the next section key and extends the section rows by one |
| Ingest.StoreChunk | src/protocol_query/cli/ingest.py:150-193 | one chunk iteration succeeds exactly when the chunk is not a criterion chunk without a criterion type. On success it adds the chunk row, the embedding row and, for a criterion chunk, the criteria row |
| Ingest.StoreChunkRows | src/protocol_query/cli/ingest.py:151-174 | the chunk and embedding inserts return the next chunk key and add exactly those two rows |
| Ingest.StoreChunks | src/protocol_query/cli/ingest.py:150-193 | the chunk loop completes exactly when no paired chunk is refused, and then the tables are exactly the stored document |
| Ingest.StoreDocument | src/protocol_query/cli/ingest.py:95-195 | `_store_document` succeeds exactly when the path is not indexed yet and no criterion chunk lacks a criterion type. On success it returns the next document key, and the tables are the old rows plus exactly the new document's rows; on failure the transaction rolls back and nothing changes |
| Ingest.EmbedAll | src/protocol_query/cli/ingest.py:80-81 | one vector per chunk, in order, each the embedding of that chunk's text |
| Ingest.ClearedFreesPath | src/protocol_query/cli/ingest.py:52-54 | after the force delete no stored document has the path; with no document there nothing is removed |
| Ingest.SectionChunksTyped | src/protocol_query/cli/ingest.py:72-73 | every criterion chunk the chunker makes from one section carries a criterion type |
| Ingest.SectionsChunksTyped | src/protocol_query/cli/ingest.py:72-73 | every criterion chunk the chunker makes from a list of sections carries a criterion type |
| Ingest.ChunkerOutputTyped | src/protocol_query/cli/ingest.py:72-73 | the chunks the chunker hands to the store are never refused by the NOT NULL criterion type |
| Ingest.IngestAdd | src/protocol_query/cli/ingest.py:18-92 | a missing file, or an indexed path without force, stops with nothing changed. The command succeeds exactly when the file exists and the path is free, or is forced and its delete is allowed. On success the old document is gone and the document, with the given protocol id and title, is stored with the chunker's chunks and their embeddings under the next key |
| Ingest.ClearPath | src/protocol_query/cli/ingest.py:43-54 | an indexed path without force, or a refused delete, is an error with nothing changed; otherwise the path is free afterwards and only the old document's rows are gone |
| Ingest.Override | src/protocol_query/cli/ingest.py:64-67 | `if protocol_id:` and `if title:`: the result is the given or the parsed value; a given non-empty value always wins, and nothing but a given non-empty value replaces the parsed one |
| Ingest.IndexDocument | src/protocol_query/cli/ingest.py:61-86 | on a free path, overriding, chunking, embedding and storing always succeed and store exactly the overridden document's rows under the next key |
| Fts.Blank | src/protocol_query/search/fts.py:93-95 | each special character becomes a space and every other character is kept, at the same length |
| Fts.ReplaceWithSpace | src/protocol_query/search/fts.py:95 | `query.replace(char, " ")` is blanking that one character |
| Fts.BlankMore | src/protocol_query/search/fts.py:94-95 | blanking one more special character extends the set blanked so far |
| Fts.LongWords | src/protocol_query/search/fts.py:106-108 | the terms are no more than the words |
| Fts.Quoted | src/protocol_query/search/fts.py:108 | each term becomes its quoted prefix query, in order |
| Fts.BuildFtsQuery | src/protocol_query/search/fts.py:86-113 | `_build_fts_query` returns the match expression of the query: `""` without words, the whole cleaned query quoted when no word has two characters, otherwise the quoted terms joined by " OR " |
| Fts.WordsStripped | src/protocol_query/search/fts.py:98 | every word of `split()` is non-empty and stripped, so the strip filter keeps the words unchanged |
| Fts.WordsAvoid | src/protocol_query/search/fts.py:98 | a character absent from the text is absent from every word |
| Fts.LongWordsFilter | src/protocol_query/search/fts.py:106-108 | a word is a term exactly when it has at least two characters |
| Fts.LongWordsFrom | src/protocol_query/search/fts.py:106-108 | a character absent from the words is absent from the terms |
| Fts.FtsQuery | src/protocol_query/search/fts.py:86-113 | `_build_fts_query`: the only quote characters in the match expression are the ones the builder adds, two per term, or the two around the whole query when there is no term |
| Fts.QuotesOf | src/protocol_query/search/fts.py:92-113 | the cleaned query holds no quote character; joining the quoted terms adds two per term, quoting the whole cleaned query adds two |
| Fts.TermsClean | src/protocol_query/search/fts.py:92-108 | no term holds a special character, each is stripped and has at least two characters |
| Fts.EmptyQuery | src/protocol_query/search/fts.py:100-101 | a query without words becomes `""` |
| Fts.AllSpaceNoWords | src/protocol_query/search/fts.py:98-101 | a text of whitespace has no words |
| Fts.CountCharAppend | src/protocol_query/search/fts.py:113 | character counts add over concatenation |
| Fts.QuoteQuotes | src/protocol_query/search/fts.py:108 | each quoted term holds exactly two quote characters |
| Fts.JoinQuotes | src/protocol_query/search/fts.py:113 | the joined terms hold two quote characters per term |
| Fts.Abs | src/protocol_query/search/fts.py:80 | the score is the magnitude of the BM25 value |
| Fts.Fetched | src/protocol_query/search/fts.py:40-71 | the engine hands back at most `limit` rows when it is not negative, each a stored row that passes every filter |
| Fts.Results | src/protocol_query/search/fts.py:69-84 | one result per fetched row, in rank order |
| Fts.Search | src/protocol_query/search/fts.py:27-84 | `search` returns one result per fetched row, in rank order |
| Fts.FilteredSpec | src/protocol_query/search/fts.py:56-64 | a row is kept exactly when it passes every filter given |
| Fts.SearchBounds | src/protocol_query/search/fts.py:56-84 | results come from the engine's rows, pass the filters, number at most `limit` when it is not negative, and have non-negative scores |
| Vector.DotSymmetric | src/protocol_query/search/vector.py:107 | the dot product is symmetric |
| Vector.SumSqZero | src/protocol_query/search/vector.py:108-109 | a sum of squares is never negative and is zero for the zero vector |
| Vector.Cosine | src/protocol_query/search/vector.py:102-114 | the similarity is zero for vectors of different lengths or a zero vector, and otherwise the dot product over the product of the norms |
| Vector.CosineSymmetric | src/protocol_query/search/vector.py:102-114 | the similarity does not depend on the order of its arguments |
| Vector.Decode | src/protocol_query/search/vector.py:80-82 | decoding succeeds exactly when the blob's length is a multiple of four, giving one value per four bytes |
| Vector.ScoreAll | src/protocol_query/search/vector.py:78-96 | a successful scan scores every candidate |
| Vector.VectorSearch | src/protocol_query/search/vector.py:31-100 | the answer of `search` is sorted highest score first and holds at most `limit` results; it fails exactly when some candidate's blob is not a whole number of 4-byte floats |
| Vector.Search | src/protocol_query/search/vector.py:31-100 | `search` scores every candidate in fetch order, sorts by score highest first and keeps the first `limit`; a malformed blob makes it fail |
| Vector.ScoreAllAborts | src/protocol_query/search/vector.py:78-82 | once a prefix fails the whole scan fails with the same error |
| Vector.ScoreAllSpec | src/protocol_query/search/vector.py:78-96 | the scan succeeds exactly when every blob's length is a multiple of four, and then each candidate is scored against its own embedding, in fetch order |
| Vector.SearchSpec | src/protocol_query/search/vector.py:98-100 | the answer is sorted highest first, holds `limit` results or all when fewer, is drawn from the scored candidates, and equal scores keep fetch order |
| Vector.CandidatesSpec | src/protocol_query/search/vector.py:64-72 | a row is a candidate exactly when it passes every filter given |
| Hybrid.Ranks | src/protocol_query/search/hybrid.py:123-124 | the rank map holds exactly the listed ids, each with a 1-based position that holds it |
| Hybrid.RanksLast | src/protocol_query/search/hybrid.py:123-124 | a repeated id keeps the rank of its last occurrence |
| Hybrid.Share | src/protocol_query/search/hybrid.py:154-160 | a list contributes nothing for an absent chunk and `1/(60 + rank)` for a present one |
| Hybrid.LexicalData | src/protocol_query/search/hybrid.py:127-135 | after the lexical loop every lexical id has metadata, keyed by its own id |
| Hybrid.ChunkMetadata | src/protocol_query/search/hybrid.py:127-144 | after both loops exactly the ids of either list have metadata, keyed by their own id |
| Hybrid.Dedupe | src/protocol_query/search/hybrid.py:147 | the union holds each id of either list exactly once |
| Hybrid.DistinctIds | src/protocol_query/search/hybrid.py:147 | `all_chunk_ids` holds each id of either list exactly once |
| Hybrid.EntrySpec | src/protocol_query/search/hybrid.py:150-189 | a fused entry carries its chunk's id and fused score, and its source is "hybrid", "fts" or "vector" exactly as both lists, only the lexical one or only the vector one hold the chunk |
| Hybrid.Entries | src/protocol_query/search/hybrid.py:172-189 | one entry per selected id |
| Hybrid.PrefixMembers | src/protocol_query/search/hybrid.py:173 | the ids of a prefix are ids of the whole list |
| Hybrid.EntriesAt | src/protocol_query/search/hybrid.py:172-189 | each entry is the fused entry of the id at its position |
| Hybrid.EntryAt | src/protocol_query/search/hybrid.py:172-189 | the entry at a position is the fused entry of that id |
| Hybrid.Fused | src/protocol_query/search/hybrid.py:165-189 | the fused list has one entry per id of `sorted_ids[:limit]`, each the fused entry of an id of either list |
| Hybrid.PrefixIn | src/protocol_query/search/hybrid.py:173 | the ids of `sorted_ids[:limit]` are ids of the enumeration |
| Hybrid.FusedOrderedSpec | src/protocol_query/search/hybrid.py:165-173 | the fused list holds each chunk at most once, highest fused score first |
| Hybrid.FusedTopSpec | src/protocol_query/search/hybrid.py:165-173 | no chunk left out scores above a chunk kept |
| Hybrid.Ids | src/protocol_query/search/hybrid.py:123-124 | the chunk ids of a result list, one per result, in rank order |
| Hybrid.RrfScore | src/protocol_query/search/hybrid.py:146-160 | the fused score is never negative, and positive exactly when the chunk is ranked by at least one of the two searches |
| Hybrid.IsFusion | src/protocol_query/search/hybrid.py:102-191 | a fusion holds at most one entry per distinct chunk id, and at most `limit` entries |
| Hybrid.FusedSpec | src/protocol_query/search/hybrid.py:102-191 | fusing over any enumeration of the id set gives `min(limit, ids)` entries, each chunk's fused entry, one per chunk, highest first, with no better chunk left out |
| Hybrid.FusedLength | src/protocol_query/search/hybrid.py:173 | the fused list is as long as `sorted_ids[:limit]` |
| Hybrid.FusedEntriesSpec | src/protocol_query/search/hybrid.py:172-189 | each fused entry is the fused entry of one of the chunks |
| Hybrid.CollectChunkData | src/protocol_query/search/hybrid.py:127-144 | the two `chunk_data` loops give the metadata map: lexical entries overwrite, vector entries only fill ids not seen yet |
| Hybrid.ScoreIds | src/protocol_query/search/hybrid.py:147-162 | every id of the union gets its fused score and its source list, lexical first, and the enumeration holds each id once |
| Hybrid.MetadataCovers | src/protocol_query/search/hybrid.py:175 | every chunk the fusion selects has metadata |
| Hybrid.EntryFrom | src/protocol_query/search/hybrid.py:174-189 | one iteration of the final loop builds the chunk's fused entry, and its source list is not empty |
| Hybrid.EntriesStep | src/protocol_query/search/hybrid.py:173-189 | one more id appends its fused entry |
| Hybrid.BuildResults | src/protocol_query/search/hybrid.py:172-189 | the final loop returns the fused entries of `sorted_ids[:limit]` in order |
| Hybrid.Fuse | src/protocol_query/search/hybrid.py:122-191 | `_hybrid_search` over the two fetched lists returns a fusion of them |
| Hybrid.ShareMonotone | src/protocol_query/search/hybrid.py:155 | a better rank earns a larger share |
| Hybrid.InverseAntitone | src/protocol_query/search/hybrid.py:155 | the inverse of the smaller positive number is the larger |
| Hybrid.BothOutscoreOne | src/protocol_query/search/hybrid.py:150-162 | a chunk found by both searches outscores one found by only one of them at a rank no better than its own there |
| Hybrid.TopOfBoth | src/protocol_query/search/hybrid.py:150-162 | rank 1 in both lists scores 2/61, rank 1 in one list only 1/61 |
| Hybrid.FirstIndex | src/protocol_query/search/hybrid.py:137 | the first occurrence of an id |
| Hybrid.LastIndex | src/protocol_query/search/hybrid.py:123 | the last occurrence of an id |
| Hybrid.RankIsLast | src/protocol_query/search/hybrid.py:123-124 | an id's rank is one past its last position |
| Hybrid.LexicalLast | src/protocol_query/search/hybrid.py:128-135 | the lexical loop leaves each chunk with its last lexical entry |
| Hybrid.LexicalMetadata | src/protocol_query/search/hybrid.py:123-135 | a lexical chunk's metadata is its lexical entry at its lexical rank |
| Hybrid.LexicalWins | src/protocol_query/search/hybrid.py:136-137 | vector entries never override lexical metadata |
| Hybrid.VectorMetadata | src/protocol_query/search/hybrid.py:136-144 | a chunk only the vector search found takes the metadata of its first vector entry |
| Hybrid.EntryMetadata | src/protocol_query/search/hybrid.py:175-189 | each fused entry takes its metadata from its lexical entry when it has one, otherwise from its first vector entry |
| Hybrid.Search | src/protocol_query/search/hybrid.py:47-100 | mode "fts" relabels the lexical results, mode "vector" the vector results, and any other mode fuses both lists fetched at three times the limit; a malformed blob makes the search fail |
| Comparison.Put | src/protocol_query/analysis/comparison.py:121 | `d[k] = v` keeps a well-formed dictionary, adds the key if new and changes only that key's value |
| Comparison.Cosine | src/protocol_query/analysis/comparison.py:262-273 | the similarity is zero when either norm is zero, and otherwise times the product of the norms gives the dot product over the paired prefix |
| Comparison.CosineZero | src/protocol_query/analysis/comparison.py:270-271 | the zero vector is similar to nothing |
| Comparison.CosineSymmetric | src/protocol_query/analysis/comparison.py:262-273 | the similarity does not depend on the order of its arguments |
| Comparison.CosineAgrees | src/protocol_query/analysis/comparison.py:262-273 | on vectors of equal length it agrees with the vector search's similarity |
| Comparison.CosineLengthMismatch | src/protocol_query/analysis/comparison.py:266 | with no length guard, a vector is matched against a prefix of a longer one: [1] and [1, 0] are similar here but not in the vector search |
| Comparison.RowPairs | src/protocol_query/analysis/comparison.py:242 | the inner loop for position i visits (i, i+1), …, (i, n-1) in order |
| Comparison.IndexPairsSpec | src/protocol_query/analysis/comparison.py:241-242 | the two loops visit every pair of pooled positions i < j exactly once, in (i, j) order |
| Comparison.MatchedSpec | src/protocol_query/analysis/comparison.py:243-258 | a visited pair is reported exactly when its criteria come from different protocols and reach the threshold, keeping the visiting order |
| Comparison.SimilarSpec | src/protocol_query/analysis/comparison.py:241-258 | a pair of positions is reported exactly when i < j, the protocols differ and the similarity is at least 0.85, in (i, j) order |
| Comparison.PairsOf | src/protocol_query/analysis/comparison.py:251-258 | one entry per reported pair |
| Comparison.PairsOfAt | src/protocol_query/analysis/comparison.py:251-258 | each entry is built from its pair of positions |
| Comparison.SimilarPairs | src/protocol_query/analysis/comparison.py:235-260 | one entry per reported pair of positions, in order, each holding both criteria without embeddings |
| Comparison.SimilarPairsSpec | src/protocol_query/analysis/comparison.py:244-258 | a reported pair joins criteria of two different protocols at or above the threshold, the earlier pooled one first, with both protocol ids |
| Comparison.MatchedStep | src/protocol_query/analysis/comparison.py:242-258 | one more step of the inner loop visits the next pair |
| Comparison.PairsOfSnoc | src/protocol_query/analysis/comparison.py:251 | one more reported pair appends its entry |
| Comparison.FindSimilar | src/protocol_query/analysis/comparison.py:235-260 | `_find_similar_criteria` returns the similar pairs of the pool |
| Comparison.Collect | src/protocol_query/analysis/comparison.py:117-123 | `criteria_by_protocol` is a well-formed dictionary |
| Comparison.CollectSpec | src/protocol_query/analysis/comparison.py:117-123 | each requested protocol that has a document appears once with its criteria, and nothing else appears |
| Comparison.Tagged | src/protocol_query/analysis/comparison.py:134-136 | each criterion of a protocol is tagged with that protocol, in order |
| Comparison.PoolSpec | src/protocol_query/analysis/comparison.py:132-136 | a criterion is pooled exactly when it belongs to one of the protocols, tagged with it |
| Comparison.Embed | src/protocol_query/analysis/comparison.py:145-148 | each pooled criterion gets the embedding of its own text, in order |
| Comparison.Annotate | src/protocol_query/analysis/comparison.py:132-148 | setting the tags and embeddings in place keeps the dictionary well-formed |
| Comparison.MatchedKeysSpec | src/protocol_query/analysis/comparison.py:154-157 | `matched_ids` holds exactly the (id, protocol) of either criterion of some reported pair |
| Comparison.MatchedUnpaired | src/protocol_query/analysis/comparison.py:154-157 | a key is matched exactly when some pair holds it |
| Comparison.UnmatchedSpec | src/protocol_query/analysis/comparison.py:161-164 | a criterion is unique exactly when its (id, protocol) is not matched |
| Comparison.UniqueOf | src/protocol_query/analysis/comparison.py:159-166 | the unique map is a well-formed dictionary |
| Comparison.Unique | src/protocol_query/analysis/comparison.py:159-166 | the unique map is a well-formed dictionary |
| Comparison.UniqueOfSpec | src/protocol_query/analysis/comparison.py:159-166 | after some protocols, a protocol is in the unique map exactly when it has an unmatched criterion, with its unmatched criteria |
| Comparison.UniqueMember | src/protocol_query/analysis/comparison.py:161-166 | an unpaired criterion of a protocol is listed among its unique criteria |
| Comparison.UniqueSpec | src/protocol_query/analysis/comparison.py:154-166 | `unique_criteria[pid]` holds exactly the criteria of pid in no reported pair, and a pid without any is absent |
| Comparison.CollectCriteria | src/protocol_query/analysis/comparison.py:117-123 | the loop fills `criteria_by_protocol` as `Collect` describes |
| Comparison.PoolCriteria | src/protocol_query/analysis/comparison.py:132-136 | the loops fill `all_criteria` with the pooled criteria |
| Comparison.CollectMatched | src/protocol_query/analysis/comparison.py:154-157 | the loop fills `matched_ids` with the matched keys |
| Comparison.CollectUnique | src/protocol_query/analysis/comparison.py:159-166 | the loop fills `unique_criteria` with the unique map |
| Comparison.CompareEligibility | src/protocol_query/analysis/comparison.py:106-181 | without pooled criteria there are no pairs, no unique criteria and no summary; otherwise the pairs are those of the embedded pool, the unique criteria those no pair holds, and the summary is made only with an API key |
| Comparison.NothingFound | src/protocol_query/analysis/comparison.py:125-129 | when no requested protocol has a document nothing is collected |
| Comparison.GenerateSummary | src/protocol_query/analysis/comparison.py:322-334 | `_generate_eligibility_summary` returns the summary sentences joined by spaces |
| Comparison.Summary | src/protocol_query/analysis/comparison.py:322-334 | `_generate_eligibility_summary`: the summary opens with the number of similar pairs, and is only that sentence when no protocol has unique criteria |
| Comparison.JoinFirst | src/protocol_query/analysis/comparison.py:334 | a joined string starts with its first part, and is that part when alone |
| Comparison.Excerpt | src/protocol_query/analysis/comparison.py:281-294 | a selected section gives at most one part, its heading and at most 1000 characters of its text |
| Comparison.ContextParts | src/protocol_query/analysis/comparison.py:277-294 | every part is at most a heading and 1000 characters long |
| Comparison.GroupParts | src/protocol_query/analysis/comparison.py:280-294 | every part of the groups asked for is at most a heading and 1000 characters long |
| Comparison.FormatContext | src/protocol_query/analysis/comparison.py:275-296 | `_format_protocol_context`: the context is "No relevant sections found." exactly when the protocol has none of the sections the aspect asks for, so always for an unknown aspect |
| Comparison.SummarisesExcerpt | src/protocol_query/analysis/comparison.py:281-294 | one excerpt shows its section type |
| Comparison.SummarisesAppend | src/protocol_query/analysis/comparison.py:280-294 | parts shown one after the other show both lists of section types |
| Comparison.PairSummarises | src/protocol_query/analysis/comparison.py:281-284 | two excerpts shown one after the other show both section types |
| Comparison.GroupsSummarise | src/protocol_query/analysis/comparison.py:280-294 | the groups asked for show exactly the section types they list |
| Comparison.ContextPartsEmpty | src/protocol_query/analysis/comparison.py:277-294 | there are no parts exactly when none of the selected sections exists, at most one per selected type, and the first opens with a bold heading |
| Comparison.ComparisonQuestion | src/protocol_query/analysis/comparison.py:298-306 | an unknown aspect, and only that, yields the "all" question |
| WhatIf.ClassifyScenario | src/protocol_query/analysis/what_if.py:81-118 | `_classify_scenario`: the classification is "general" or one of the five scenario types |
| WhatIf.ClassifyScenarioFirstMatch | src/protocol_query/analysis/what_if.py:81-118 | a scenario is "general" exactly when none of the terms occurs in its lower-cased text; otherwise it has the type of the first row, in the order eligibility, safety, dosing, procedure, discontinuation, that has a term occurring in it |
| WhatIf.EligibilityTermWins | src/protocol_query/analysis/what_if.py:85-96 | a scenario with an eligibility term is an eligibility question whatever other terms it holds ("patient has" beats "dose") |
| WhatIf.RelevantSections | src/protocol_query/analysis/what_if.py:120-134 | `_get_relevant_sections`: there are section types exactly for the five scenario types, so none for "general"; each type has three, each one the section detection of the parsers can assign |
| WhatIf.AnalysisSearch | src/protocol_query/analysis/what_if.py:49-58 | the scenario search asks for 15 results of the given protocol for the scenario text, restricted by section type unless the scenario is "general" |
| WhatIf.CriteriaSearch | src/protocol_query/analysis/what_if.py:146-152 | the criteria search asks for 10 results of the given protocol for the scenario text, restricted to section types the parsers can assign |
| WhatIf.AffectedSpec | src/protocol_query/analysis/what_if.py:154-168 | at most one criteria row per result. Each row found is a stored criteria row of one of the results' chunks, and every result whose chunk has a criteria row contributes the first such row |
| WhatIf.AffectedCriteria | src/protocol_query/analysis/what_if.py:136-168 | `_find_affected_criteria`: nothing for a protocol no document has; otherwise at most one stored criteria row per result |
| WhatIf.FindAffectedCriteria | src/protocol_query/analysis/what_if.py:136-168 | returns exactly the rows of the specification, in result order, and nothing for a protocol that no document has |
| WhatIf.TypeLabel | src/protocol_query/analysis/what_if.py:189 | the label is "Inclusion" exactly for the type "inclusion", and "Exclusion" for every other type |
| WhatIf.ResultParts | src/protocol_query/analysis/what_if.py:181-183 | one part per result, the k-th numbered k + 1 |
| WhatIf.CriterionParts | src/protocol_query/analysis/what_if.py:188-190 | one part per criteria row, in order |
| WhatIf.JoinStartsWith | src/protocol_query/analysis/what_if.py:192 | joining keeps the first part at the front |
| WhatIf.JoinContainsPart | src/protocol_query/analysis/what_if.py:192 | every part occurs in the joined text |
| WhatIf.Context | src/protocol_query/analysis/what_if.py:170-192 | `_build_context`: the context is empty exactly when there are neither results nor criteria. Otherwise it opens with the results header, or with the criteria header when there are no results |
| WhatIf.ContextMentions | src/protocol_query/analysis/what_if.py:176-192 | every result appears in the context, numbered from 1 with its section, and so does every criterion, labelled with its type and number |
| WhatIf.ResultMentioned | src/protocol_query/analysis/what_if.py:179-183 | the k-th result's part occurs in the context |
| WhatIf.CriterionMentioned | src/protocol_query/analysis/what_if.py:186-190 | each criterion's part occurs in the context |
| WhatIf.BuildContext | src/protocol_query/analysis/what_if.py:170-192 | returns exactly the context of the specification |
| WhatIf.NumberResults | src/protocol_query/analysis/what_if.py:179-183 | the result loop yields exactly the numbered result parts |
| WhatIf.LabelCriteria | src/protocol_query/analysis/what_if.py:186-190 | the criteria loop yields exactly the labelled criterion parts |
| WhatIf.TopSummaries | src/protocol_query/analysis/what_if.py:77 | the summaries of the first five results, or of all of them when there are fewer, in order, each copying its result's key, section, text and score |
| WhatIf.Analyze | src/protocol_query/analysis/what_if.py:44-79 | the report carries the scenario, the protocol and the five top summaries of the scenario search. It also carries the criteria rows found through the criteria search, and the model's answer to "What if …?" about the context built from both |

## Left out

- The file readers (python-docx, pdfplumber), file hashing, metadata extraction, `_extract_protocol_info` and the suffix dispatch of `parse_document` are left out. The Word parser takes `(text, style name)` paragraphs. The PDF parser takes each page's extracted text, where `None` stands for a page without text. `ingest_add` takes the parsed document.
- Exceptions the readers raise are left out.
- The embedding model is a function parameter `embed` from text to a vector of reals. `math.sqrt` is a parameter `root` that is non-negative and zero exactly at zero. `struct.pack` and `struct.unpack` are parameters that satisfy four bytes per component; the narrowing of 64-bit floats to 32 bits is not modelled, so no lossless round trip is claimed.
- Floating point is modelled with reals. Token counts (words × 1.3) are kept in integer tenths (words × 13 against budget × 10), so Python's float arithmetic can differ at exact boundaries.
- Text.Lower: lower-casing covers ASCII letters only. There is no Unicode case folding or normalisation.
- Text.IsDigit: only the ASCII digits '0' to '9' are digits. Python's `\d` and `int()` also accept every other Unicode decimal digit (category Nd), such as the full-width digits, which the model does not recognise.
- Text.DigitEnd: a digit run ends at the first character that is not an ASCII digit, so a run of other Unicode decimal digits is not one.
- Text.DecimalValue: the value of ASCII digits only; `int()` also gives the value of other Unicode decimal digits.
- Markers.MarkerAt: a numbered criterion marker (`\d+[.)]`) needs ASCII digits, so "１. text" with a full-width digit is no numbered marker in the model.
- Markers.CriterionNumber: the number of a numbered marker is read from ASCII digits only, as `int()` would read them.
- Titles.DottedEnd: the dotted section number (`\d+(\.\d+)*`) is matched over ASCII digits only.
- Titles.NumberEnd: the leading section number of a title is matched over ASCII digits only.
- Titles.ExtractSectionNumber: a title numbered with other Unicode decimal digits has no section number in the model.
- Titles.HeaderNumber: a line numbered with other Unicode decimal digits, such as "１. INTRODUCTION", is no numbered header in the model.
- Titles.ParseInt: `int()` of a stripped string is modelled for an optional sign and ASCII digit groups joined by single underscores; other Unicode decimal digits give no number.
- Titles.HeadingLevel: a style such as "Heading ３" with a full-width digit has level 1 in the model, where the source gives 3.
- The FTS5 engine is left out: its porter/unicode61 tokenizer, the `bm25()` formula, the sync triggers and `rebuild_fts`. FTS search takes the engine's ranked rows as an input; only the filters, the limit and the score normalisation are modelled.
- SQL execution is modelled by its effect on the tables. The cached connection, WAL mode and `check_same_thread` are left out. `cursor()` is modelled as a commit when a body succeeds and a restore of the saved tables when an insert fails.
- `Database.initialize` is the `Database` constructor, which starts from the empty, valid schema.
- Store.DocumentByProtocolId: `fetchone` without `ORDER BY` is modelled as returning the oldest document (smallest key). SQLite does not promise that order.
- Store.Created: rows with equal `created_at` keep rowid order, which SQLite's sort does not promise. The clock is a parameter `now`.
- Hybrid.Fuse: the source sorts ids enumerated from a Python `set`, whose order the model does not know. The model fixes one enumeration, each id once in first-seen order. `Hybrid.FusedSpec` holds for every enumeration; the order among equal fused scores is not specified.
- Vector.Cosine: the bound of the similarity to [-1, 1] is not stated, since it rests on properties of `sqrt` and of floating point that the model leaves abstract.
- Comparison.Cosine: its contract relates the similarity to the dot product over the paired prefix, not to a closed formula, for the same reason.
- `ProtocolComparer.compare`, `_basic_comparison`, `_get_protocol_summary` and the SQL of `_get_criteria` are left out, because they make the language-model call or only read the store. The criteria of each protocol are given to `Comparison.CompareEligibility` as a map.
- The language model is a function parameter of `WhatIf.Analyze`, with the system prompt left out. The hybrid search is also a function parameter, from the request to its results.
- The configuration loader is left out. `chunk_size` and `chunk_overlap` are parameters; their defaults 512 and 50 are not fixed in the model.
- Ingest.IngestAdd: the file-existence check is a boolean parameter, and the resolved path that the command looks up is taken to be the `filepath` that the parser records.
- The CLI (Typer and Rich), the progress display, the console output and the output formatters are left out.

## Findings

| source | as written | input that shows it | evidently intended | confidence | as-written member | corrected member |
|---|---|---|---|---|---|---|
| src/protocol_query/parsers/docx_parser.py:105-110 | with exactly one heading paragraph, no section has been closed, so the numbered-header fallback runs too and the heading's section is appended after the detected ones; both the first detected section and the heading's section have index 0 | paragraph "Title" in style "Heading 1", then "1 INTRODUCTION" | use the fallback only for a document with no heading paragraph, so indexes run 0, 1, 2, … | not executed | DocxParser.OneHeadingDuplicatesIndex, DocxParser.OneHeadingExample | DocxParser.IntendedSections |
| src/protocol_query/parsers/pdf_parser.py:85-88 | a header closes the open section with `end_page = page_num - 1` even when that section started on the same page, so its end page comes before its start page | one page with the lines "1 INTRODUCTION" and "2 BACKGROUND": the first section starts on page 1 and ends on page 0 | a section closed on its own start page ends on that page | not executed | PdfParser.SamePageExample, PdfParser.SamePageInverted | PdfParser.IntendedPdfSections |

In both parsers, `ExtractTextAndSections` follows the code as written, so that each finding shows in the model as well. No other part of the model consumes a parser's output: ingest takes the parsed document as an input.
