# Heading classification of a PDF outline extractor, in Dafny

The repository turns a PDF into a JSON document of the form
`{"title": ..., "outline": [{"level": "H1".."H6", "text": ..., "page": ...}]}`.
Eight scripts do this in eight different ways. Each one reads text fragments
from a PDF library, decides which fragments are headings, gives each heading
a level and chooses a title. This project models the decision logic of each
script once the PDF library has handed over its text, and proves what each
script guarantees about the outline it returns.

Levels are written as numbers (1 for "H1"). Font sizes are integers in
hundredths of a point. Regular expressions are written out as predicates
over the text. Python's stable `sorted`/`list.sort` on tuple keys is one
stable sort (`Sorting.SortBy`). A dictionary's insertion order is modelled
as the sequence of its keys in order of first appearance.

| module | models |
|---|---|
| `Common`, `Text`, `Sorting`, `Stats`, `Patterns` | the span and entry types; `strip`, `split`, `lower`, the whitespace squeeze and other string tests; the stable sort; `Counter.most_common` and `mean`; shared pattern pieces |
| `Noise`, `Scripts`, `FontGroups` | the page-number and header/footer tests, the script counter and the font grouping shared by `1A/main.py`, `1A/main3.py` and `1A/main4.py` |
| `Multilingual`, `Multilingual3`, `Multilingual4` | the three multilingual classifiers of `1A/main.py`, `1A/main3.py` and `1A/main4.py` |
| `StyleOutline` | `1A/main2.py`: one heading level per style (rounded size, bold), ranked by prominence |
| `MultiPass`, `MultiPassFonts`, `MultiPassLevels`, `MultiPassOutline` | `1A/main6.py`: numbered blocks, the three largest heading sizes, then a merge and filter |
| `SmartOutline` | `1A/main7.py`: line scoring with a form-field filter, levels from numbering, keywords or size, and at most fifteen entries per level |
| `MarkdownOutline` | what `process_pdfs.py` and `1A/process_pdfs.py` share: the table of contents, Markdown ATX headings and the title chain |
| `ProcessPdfs` | `process_pdfs.py`: the table of contents, else the Markdown headings, else bold text and enlarged lines |
| `ProcessPdfsMarkdown` | `1A/process_pdfs.py`: the table of contents, else the Markdown headings, deduplicated by text and page |

Each loop of the source is a method proved against a specification
function. The properties are proved as lemmas about those functions.

In `process_pdfs.py`, `is_likely_heading` tests for "H2" before "H1", so
its "H1" branch is never reached (`ProcessPdfs.Likely`). The model keeps
that behaviour, and `ProcessPdfs.BoldFallbackNeverH1` states its effect.

## Model

| member | source | states |
|---|---|---|
| Text.Lower | 1A/main6.py:131 | `lower()` keeps the length and lower-cases each character on its own |
| Text.StripTrimmed | 1A/main7.py:113 | `strip()` leaves no whitespace at either end |
| Text.StripIdempotent | 1A/main7.py:113 | stripping a stripped text changes nothing |
| Text.CollapseWhitespace | 1A/main7.py:113 | `re.sub(r'\s+', ' ', text.strip())` leaves a trimmed text whose only whitespace is single plain spaces |
| Text.CollapseIdempotent | 1A/main7.py:113 | cleaning whitespace twice gives the same text as cleaning it once |
| Sorting.SortBy | 1A/main6.py:108 | `sorted`/`list.sort` returns a permutation of its input |
| Sorting.SortBySorted | 1A/main6.py:108 | the sorted list is ordered by its keys |
| Sorting.SortByStable | 1A/main6.py:108 | the sort is stable: the elements sharing a key keep their relative order |
| Sorting.SortByHead | 1A/main6.py:143-150 | `sorted(...)[0]` is the first element of the input among those with the least key |
| Stats.ModeProperties | 1A/main7.py:128-129 | `Counter(sizes).most_common(1)[0][0]` is an input value that no value outnumbers; ties go to the value that appears first |
| Stats.MeanBetween | 1A/main7.py:132 | `statistics.mean` lies between the smallest and the largest value |
| Noise.NoiseIgnoresSurroundingSpace | 1A/main.py:57-99 | both noise tests look only at the stripped text, so surrounding whitespace never changes a verdict and blank text is never noise |
| Noise.SmallNumberIsPageNumber | 1A/main.py:64-65 | every number below 10000, written in decimal, is a page number |
| Noise.LargeNumberIsNotPageNumber | 1A/main.py:57-71 | a number of 10000 or more is not a page number (too long for the bare-number rule and no "page"/"of" form) |
| Noise.LongDigitsNotPageNumber | 1A/main.py:57-71 | any run of more than four digits is not a page number |
| Noise.PageWordIsPageNumber | 1A/main.py:66-67 | "Page N" is a page number for every N (the test lower-cases first) |
| Noise.NumberOfNumberIsPageNumber | 1A/main.py:68-69 | "N of M" is a page number for every N and M |
| Noise.CopyrightIsFooter | 1A/main.py:81 | any text that starts with "Copyright" is a footer |
| Noise.SectionNumberIsFooter | 1A/main.py:87 | "N.M" followed by anything, for instance "2.1 Background", is a footer: the e-mail pattern `^\w+\.\w+` also catches dotted section numbers |
| Noise.DottedPrefixIsFooter | 1A/main.py:87 | the same for any two digit strings joined by a dot, leading zeros included |
| Scripts.DetectLanguageScript | 1A/main.py:247-384 | the per-character counting loop followed by `max` over the counter dict returns `Detect` of the text (main3.py:165-185 and main4.py:347-401 have the same shape over their own character ranges) |
| Scripts.DetectIsFirstMax | 1A/main.py:384 | the detected script has the largest count, and every script listed before it in the dict has a strictly smaller count (Python's `max` keeps the first maximum) |
| Scripts.DetectCounted | 1A/main.py:277-384 | the result is the first script of the dict ("latin") unless at least one character of the text was counted for it; empty text gives "latin" |
| Scripts.DetectUniform | 1A/main.py:277-384 | a non-empty text whose every character falls in one script's ranges is detected as that script |
| FontGroups.RoundTenths | 1A/main.py:185 | `round(size, 1)` on a size in hundredths of a point lands within half a tenth of the size |
| FontGroups.GroupsOf | 1A/main.py:178-192 | the groups are keyed by the distinct font keys in order of first appearance |
| FontGroups.GroupByFontProperties | 1A/main.py:178-192 | the one-pass defaultdict fill yields exactly `GroupsOf` of the headings: each group holds the spans of its key in input order |
| FontGroups.GroupsOfCover | 1A/main.py:178-192 | no two groups share a key, and every span has the group of its key |
| FontGroups.AppendLevel | 1A/main.py:210-216 | the inner loop appends one entry per span, with the group's level and the span's text and page |
| FontGroups.AssignHeadingLevels | 1A/main.py:195-221 | the sort, the loop over the first three groups and the page sort compute `AssignedLevels` (with the cap of 10 per group of 1A/main4.py:272-304 as a parameter) |
| FontGroups.RankedDescending | 1A/main.py:201-203 | the ranked groups are a permutation of the groups, larger sizes first and bold before regular at the same size |
| FontGroups.AssignedLevelsShape | 1A/main.py:195-221 | levels are H1..H3, pages never go down, the entries are those emitted by the three top groups, and entries on the same page keep their emission order (stable sort) |
| FontGroups.AssignedLevelsAtMostThirty | 1A/main4.py:285-292 | with at most three groups of at most ten entries, the outline never has more than 30 entries |
| FontGroups.EmitUncapped | 1A/main.py:208-216 | without the cap every span of the three top groups is emitted |
| FontGroups.AssignedFromSpans | 1A/main.py:178-221 | every emitted entry carries the text and page of one of the grouped spans |
| FontGroups.ClassifyBasic | 1A/main.py:224-244 | the filtering loop, the grouping and the level assignment compute `BasicClassified` |
| FontGroups.BasicClassifiedShape | 1A/main.py:224-244 | the classified outline has levels H1..H3 and pages in order |
| FontGroups.BasicClassifiedFromCandidates | 1A/main.py:231-240 | every entry is the text and page of a span of stripped length 3..200 that is neither page number nor footer and has heading characteristics |
| FontGroups.BasicTitle | 1A/main.py:439-457 | the title is the stripped metadata title, a heading's text, or "Document"; with no metadata title and no headings it is "Document" |
| FontGroups.BasicTitlePrefersFirstH1 | 1A/main.py:446-449 | without a metadata title the first H1 is the title, whatever headings come before it |
| Multilingual.ScriptOfCounted | 1A/main.py:247-384 | with the 25-script ladder, the result is "latin" or a script some character was counted for; a text with no counted character gives "latin" |
| Multilingual.DetectLanguageScriptFull | 1A/main.py:247-384 | the counting loop over the 25-entry dict returns `ScriptOf` of the text |
| Multilingual.Preprocess | 1A/main.py:10-54 | every script branch ends with strip() and whitespace runs replaced by one space, so the cleaned text is trimmed, has no two adjacent whitespace characters and no whitespace but the plain space |
| Multilingual.PreprocessDropsBidiMarks | 1A/main.py:19-24 | text detected as Arabic or Hebrew keeps none of the directional marks U+200E, U+200F, U+202A..U+202E |
| Multilingual.IndicRange | 1A/main.py:135-148 | each Indic script with a numbered pattern has a non-empty code-point block |
| Multilingual.AcceptsBoldLargeOrCased | 1A/main.py:160-175 | bold spans, spans above 16 pt and upper-case or title-case texts have heading characteristics in every script |
| Multilingual.PlainArabicSpan | 1A/main.py:127-175 | a regular Arabic span of at most 12 pt without case is accepted exactly when one of the Arabic patterns matches |
| Multilingual.ConcatenatedPatternNeverMatches | 1A/main.py:130-131 | the pattern formed by the two adjacent string literals requires `^` after at least four characters and matches no text |
| Multilingual.ArabicHeadingMissed | 1A/main.py:127-132 | the five-letter Arabic word for "chapter" in 10 pt regular type is rejected by the pattern list as written and accepted by the intended one |
| Multilingual.CorrectedAcceptsMore | 1A/main.py:100-175 | the corrected test accepts every span the test as written accepts |
| Multilingual.ClassifyHeadings | 1A/main.py:224-244 | classify_headings_multilingual computes `BasicClassified` with the heading test as written, Arabic pattern list included |
| Multilingual3.Preprocess | 1A/main3.py:10-23 | the cleaned text is trimmed, with single plain spaces between words; the right-to-left branch has an empty body and changes nothing |
| Multilingual3.PreprocessIdempotent | 1A/main3.py:10-23 | cleaning a cleaned text changes nothing |
| Multilingual3.Ladder | 1A/main3.py:174-182 | each character is counted for at most one of the four scripts of the dict |
| Multilingual3.ScriptOfIsCore | 1A/main3.py:165-185 | only latin, cjk, arabic or cyrillic comes out, and a text with no counted character gives latin |
| Multilingual3.DetectLanguageScript3 | 1A/main3.py:165-185 | the counting loop and `max` over the four-entry dict return `ScriptOf` of the text |
| Multilingual3.NumberedTextAccepted | 1A/main3.py:75 | "N rest" and "N. rest" have heading characteristics whatever their font |
| Multilingual3.LabelAccepted | 1A/main3.py:78 | a word followed by a colon ("Introduction:") has heading characteristics |
| Multilingual3.ClassifyHeadings | 1A/main3.py:142-162 | classify_headings_multilingual computes `BasicClassified` with main3's heading test |
| Multilingual4.Ladder | 1A/main4.py:378-397 | only the latin, cjk, arabic and cyrillic counters of the 25-entry dict are ever incremented |
| Multilingual4.ScriptOfIsCore | 1A/main4.py:347-401 | only those four scripts come out, and a text without a counted character gives latin, the first key |
| Multilingual4.DetectLanguageScript4 | 1A/main4.py:347-401 | the counting loop and `max` return `ScriptOf` of the text |
| Multilingual4.ShortWordIsFormField | 1A/main4.py:109 | every word of two to four ASCII letters is a form field, in any letter case ("PAY", "the", "Data"), because the acronym pattern is matched with IGNORECASE |
| Multilingual4.LetterCount | 1A/main4.py:139-144 | the letter count is at most the length, and positive exactly when some character is a letter of the class |
| Multilingual4.LetterExcludesSeparatorsAndRanges | 1A/main4.py:147-153 | a text holding a letter is never a separator line or a page range, so the last two checks of is_meaningful_heading never reject anything |
| Multilingual4.DocumentStats | 1A/main4.py:238-252 | with no non-blank span both values are 12 pt; otherwise the mean lies between the smallest and largest size and the most common size is a size that occurs at least as often as any other |
| Multilingual4.Score | 1A/main4.py:157-235 | a bold span, a span larger than avg+2 or a text matching a heading pattern of its script scores at least 2; no span scores more than 8 (2 for size, 2 for bold, 1 for italic, 1 for case, 2 for a pattern) |
| Multilingual4.HasHeadingCharacteristics | 1A/main4.py:157-235 | the method accepts exactly the meaningful, non-form-field spans that score at least 2 |
| Multilingual4.HeadingScore | 1A/main4.py:176-232 | the score accumulated term by term equals `ScoreIn` |
| Multilingual4.PatternPoints | 1A/main4.py:225-232 | the first matching pattern adds 2 and the loop stops; no match adds nothing |
| Multilingual4.FontPoints | 1A/main4.py:176-189 | the size points plus 2 for bold plus 1 for large italics |
| Multilingual4.FilterCandidates | 1A/main4.py:313-324 | the first pass keeps exactly the spans that pass the five tests, in order |
| Multilingual4.NarrowCandidates | 1A/main4.py:326-337 | the stricter pass runs only above 20 candidates and keeps the first 15 strong ones |
| Multilingual4.NarrowedBounds | 1A/main4.py:326-337 | grouping never sees more than 20 spans; after the stricter pass at most 15, all bold, larger than avg+1 or numbered, as a prefix of the strong candidates in input order |
| Multilingual4.NarrowedAreCandidates | 1A/main4.py:307-337 | every span that reaches grouping is an input span that is meaningful, no form field and no page number |
| Multilingual4.ClassifyHeadings | 1A/main4.py:307-344 | classify_headings_multilingual computes `Classified`: statistics, both passes, grouping and levels with 10 spans per group |
| Multilingual4.ClassifiedShape | 1A/main4.py:307-344 | the outline has at most 30 entries, levels H1..H3 and pages in order |
| Multilingual4.ExtractTitle | 1A/main4.py:457-478 | the title is never empty and is the stripped metadata title, a heading's text or "Document" |
| Multilingual4.TitlePrefersFirstLongH1 | 1A/main4.py:468-471 | without a usable metadata title the first H1 longer than 10 characters is the title |
| StyleOutline.Preprocess | 1A/main2.py:10-12 | the cleaned text is whitespace-collapsed: trimmed, single plain spaces between words |
| StyleOutline.PreprocessIdempotent | 1A/main2.py:10-12 | cleaning a cleaned text changes nothing |
| StyleOutline.IsPotentialHeading | 1A/main2.py:15-54 | a span is a potential heading exactly when it is no list item, has at most 15 words, lies outside the top and bottom tenth of the page, and is larger than 13.5 pt or bold; the all-caps and colon tests decide nothing |
| StyleOutline.PotentialMonotone | 1A/main2.py:39-52 | a potential heading stays one when it becomes larger or bold |
| StyleOutline.NumberedItemRejected | 1A/main2.py:25-26 | a numbered item "1. ..." is never a heading, whatever its font |
| StyleOutline.RoundHalfEven | 1A/main2.py:127 | `round(size)` is the nearest whole point, halves going to the even neighbour |
| StyleOutline.StyleAsWritten | 1A/main2.py:127 | the style key as written: the rounded size, and a bold component that is non-zero exactly for bold spans (1 from the font name, 16 from the flags) |
| StyleOutline.StyleOf | 1A/main2.py:127 | the corrected key: the rounded size and 1 for bold, 0 for regular |
| StyleOutline.StyleRankInjective | 1A/main2.py:132 | two different styles never tie under the sort key `(-size, -bold)` |
| StyleOutline.StylesDistinct | 1A/main2.py:124-128 | the keys of the style dict are distinct and are exactly the styles of the potential headings |
| StyleOutline.MembersOfStyle | 1A/main2.py:124-128 | each style's list holds input headings of that style only |
| StyleOutline.MembersPresent | 1A/main2.py:124-128 | every style of the dict has at least one heading |
| StyleOutline.GroupByStyle | 1A/main2.py:124-128 | the defaultdict loop builds one list per style, in order of first appearance, holding that style's headings in input order |
| StyleOutline.LevelIn | 1A/main2.py:135-140 | every style gets a level between H1 and H3 |
| StyleOutline.LevelMap | 1A/main2.py:135-140 | the level map has exactly the ranked styles as keys: H1 for the first, H2 for the second, H3 for the rest |
| StyleOutline.RankedDistinct | 1A/main2.py:132 | the sorted styles are the dict's styles, each once |
| StyleOutline.LargerStyleNotDeeper | 1A/main2.py:132-140 | a style that sorts before another never gets a deeper level |
| StyleOutline.AppendGroup | 1A/main2.py:147-148 | the inner loop appends one entry per heading of the group, at the group's level |
| StyleOutline.EmitOutline | 1A/main2.py:143-148 | the outline loop over the style dict computes `Emitted` |
| StyleOutline.EmittedPermutation | 1A/main2.py:143-148 | the outline loop emits every potential heading exactly once |
| StyleOutline.BuildOutline | 1A/main2.py:123-151 | grouping, ranking, level map, outline loop and position sort compute `OutlineOf` under the given style key (the source's key is `StyleAsWritten`) |
| StyleOutline.OutlinePermutation | 1A/main2.py:123-151 | the sorted outline holds exactly the potential headings, each once, at their style's level |
| StyleOutline.OutlineInPageOrder | 1A/main2.py:151 | the outline is sorted by the key (page, top edge of the first span with the entry's text and page), so its pages never decrease |
| StyleOutline.PositionWithinPage | 1A/main2.py:151 | under that sort, entries of one page come in order of the top edge of their span |
| StyleOutline.OutlineEntryFrom | 1A/main2.py:143-151 | every outline entry is the entry of some potential heading |
| StyleOutline.OutlineLookupSucceeds | 1A/main2.py:151 | the sort key's lookup `[...][0]` always finds a span, so the sort never raises |
| StyleOutline.OutlineHasH1 | 1A/main2.py:136 | with at least one potential heading the outline has an H1 entry |
| StyleOutline.CollectSpans | 1A/main2.py:97-113 | the collection loop keeps every non-blank span, cleaned and with a 1-based page, in reading order |
| StyleOutline.AllSpansShape | 1A/main2.py:97-113 | every recorded text is whitespace-collapsed and comes from a non-blank input span |
| StyleOutline.TitleCase | 1A/main2.py:72 | `str.title()` on ASCII letters: every run of letters starts with an upper-case letter and goes on in lower case, the letters stay the same up to case, and other characters are unchanged |
| StyleOutline.TitleCaseIdempotent | 1A/main2.py:72 | title-casing twice is the same as once |
| StyleOutline.Unscored | 1A/main2.py:72 | `.replace('_', ' ')` turns each underscore into a space and keeps every other character |
| StyleOutline.LastDot | 1A/main2.py:72 | finds the last dot of the name, or reports that there is none |
| StyleOutline.Stem | 1A/main2.py:72 | `os.path.splitext(...)[0]` is a prefix of the name |
| StyleOutline.StemDropsExtension | 1A/main2.py:72 | the stem of "base.ext" is "base" for a base that does not start with a dot |
| StyleOutline.MetadataTitle | 1A/main2.py:63-66 | a metadata title is used only when it is longer than 5 characters after strip() |
| StyleOutline.TopIsProminent | 1A/main2.py:75-78 | after the sort, the head is a first-page span that no other first-page span is larger than, or as large and higher up |
| StyleOutline.SizeTopOrder | 1A/main2.py:75 | the key `(-size, top)` orders larger spans first, then higher ones |
| StyleOutline.TitleFromProminentSpan | 1A/main2.py:69-83 | without a metadata title, the title comes from the most prominent first-page span, or is None when that span has 15 words or more |
| StyleOutline.ChooseTitle | 1A/main2.py:154-162 | the final choice is the found title, else the first H1, else the first entry, else the file name's stem |
| StyleOutline.Extract | 1A/main2.py:86-165 | extract computes `ExtractedWith` of the opened document under the given style key; with `StyleAsWritten` it is the code as written, with `StyleOf` the corrected key |
| StyleOutline.OutlineEmptyIff | 1A/main2.py:94-121 | the outline is empty exactly when the document has no pages or no potential heading |
| StyleOutline.ExtractedOutline | 1A/main2.py:115-151 | for any style key, every potential heading appears exactly once at its style's level H1..H3 and the outline is in page order |
| StyleOutline.ExtractedOrder | 1A/main2.py:151 | for any style key, every position lookup of the sort succeeds and the outline is sorted by page and then by the top edge of each entry's span |
| StyleOutline.TitleFallsBackToH1 | 1A/main2.py:154-158 | without a title from extract_title, the title is the first H1 entry's text, and there always is one |
| StyleOutline.TitleFromMetadata | 1A/main2.py:63-66 | a metadata title longer than 5 characters, stripped, is the title |
| StyleOutline.StyleLevelsFollowProminence | 1A/main2.py:123-140 | with the corrected key, a heading at least as large in whole points and at least as bold as another never gets a deeper level |
| StyleOutline.AsWrittenSplitsBold | 1A/main2.py:127 | with the key as written, two bold spans of the same rounded size, one bold by font name and one by flags, get different levels (H2 and H1) |
| MultiPass.NumberedLevel | 1A/main6.py:27-35 | a block matched by the numbered pattern gets a level from H1 to H6 |
| MultiPass.NumberedIn | 1A/main6.py:31-41 | a block gives a heading exactly when the pattern matches; that heading has the level of its number, the stripped text and the page, and is marked numbered |
| MultiPass.CollectNumbered | 1A/main6.py:28-41 | the pass 1 loops over pages and blocks collect `NumberedPass`, page by page and block by block |
| MultiPass.NumberedPassSource | 1A/main6.py:28-41 | a heading is in pass 1 if and only if it is the heading of some block of its page |
| MultiPass.NumberedPassShape | 1A/main6.py:28-41 | every pass 1 heading is numbered, has a level from 1 to 6 and lies on a page of the document |
| MultiPass.NumberedLevelAt | 1A/main6.py:27-35 | spaces, a dotted number, spaces, a capital letter and the rest of one line match, and the level is the count of dots plus one, at most 6 |
| MultiPass.NumberedLevelShape | 1A/main6.py:27-32 | conversely, every block that matches is made of those parts |
| MultiPassFonts.KeptIn | 1A/main6.py:57-66 | a raw span is kept exactly when its stripped text is not empty; it keeps that text, its size and the page, and is bold when its font name contains "bold" in any letter case |
| MultiPassFonts.CollectLine | 1A/main6.py:57-66 | the span loop of a line keeps its non-blank spans, in order |
| MultiPassFonts.CollectBlock | 1A/main6.py:51-55 | the line loop of a block skips the lines that look like table of contents entries |
| MultiPassFonts.CollectPage | 1A/main6.py:47-50 | the block loop of a page skips non-text blocks and blocks outside the band from 10% to 90% of the page height |
| MultiPassFonts.CollectFontSpans | 1A/main6.py:44-66 | the pass 2 loops collect `FontSpans`, page by page, block by block and line by line |
| MultiPassFonts.TocLineIff | 1A/main6.py:53-55 | the line test succeeds if and only if the text has a match of five or more dots, optional whitespace and digits at the end |
| MultiPassFonts.FontSpanSource | 1A/main6.py:44-66 | a span is collected if and only if it comes from a non-blank span of a non-TOC line in a text block inside the band |
| MultiPassFonts.FontSpanShape | 1A/main6.py:57-66 | every collected span has a stripped, non-empty text, lies on a page of the document and is bold exactly when its font name says so |
| MultiPassLevels.StyleKeys | 1A/main6.py:68-71 | the styles in first-appearance order have no repeats and include the style of every span |
| MultiPassLevels.CountStyles | 1A/main6.py:68-71 | the counting loop builds the style order and the character counts |
| MultiPassLevels.CountsMeaning | 1A/main6.py:68-71 | the counted styles are exactly the keys, and each count is the total length of the texts of that style's spans |
| MultiPassLevels.StyleKeysIff | 1A/main6.py:68-71 | a style is a key if and only if some span has it |
| MultiPassLevels.ChooseBodySize | 1A/main6.py:75-79 | the loop takes the size of the first non-bold style in count order, else the size of the first style |
| MultiPassLevels.BodyIsCommonestPlain | 1A/main6.py:74-79 | the body size is the size of the non-bold style with the most characters; among ties, of the first to appear |
| MultiPassLevels.BodyIsCommonestWhenAllBold | 1A/main6.py:74-76 | when every span is bold, the body size is the size of the commonest style; among ties, of the first to appear |
| MultiPassLevels.NoPlainStyle | 1A/main6.py:76-79 | with every span bold, the search for a non-bold style finds nothing |
| MultiPassLevels.Unique | 1A/main6.py:89 | `set(...)` of the sizes has no repeats and holds exactly the sizes |
| MultiPassLevels.DistinctSizesDecrease | 1A/main6.py:89 | the distinct heading sizes are listed largest first, each once |
| MultiPassLevels.DistinctSizesMembers | 1A/main6.py:82-89 | the listed sizes are exactly the sizes of styles larger than the body, or of the body size and bold |
| MultiPassLevels.SizeLevel | 1A/main6.py:90-93 | a size gets a level only from H1 to H3, and only when it is the size at that position of the list |
| MultiPassLevels.HeadingLevelIsRank | 1A/main6.py:82-94 | a size has a level exactly when it is a heading size with fewer than three larger heading sizes; the level is one more than their number |
| MultiPassLevels.HeadingLevelOrder | 1A/main6.py:88-94 | a larger heading size gets a smaller level number |
| MultiPassLevels.FontHeadingIn | 1A/main6.py:96-103 | a span gives a heading exactly when its size has a level, whether bold or not, with its text and page, and not marked numbered |
| MultiPassLevels.EmitFontHeadings | 1A/main6.py:96-103 | the emit loop gives the heading of each span, in span order |
| MultiPassLevels.FontHeadings | 1A/main6.py:67-103 | counting, body size, levels and emitting compute `FontPass`; no spans give no headings |
| MultiPassLevels.FontPassSource | 1A/main6.py:96-103 | a font heading exists if and only if some span's size has that level, with that span's text and page |
| MultiPassLevels.FontPassShape | 1A/main6.py:96-103 | every font heading has a level from H1 to H3 |
| MultiPassOutline.SortedHeadingsPages | 1A/main6.py:108 | the sort is a permutation of both passes' headings, with pages never going down |
| MultiPassOutline.SortedHeadingsOnPage | 1A/main6.py:108 | the sort is stable: on each page the numbered headings come first, then the font headings, each in the order found |
| MultiPassOutline.Merge | 1A/main6.py:111-124 | merging never adds headings, and the last merged heading has the level, page and pass of the last heading |
| MultiPassOutline.MergeRuns | 1A/main6.py:111-124 | the merge loop computes `Merge` |
| MultiPassOutline.MergeKeepsText | 1A/main6.py:111-124 | merging loses and reorders no text: joining the merged texts with spaces gives the joined original texts |
| MultiPassOutline.MergeGroups | 1A/main6.py:111-124 | the merged headings are the runs of neighbours with equal level, page and pass, one heading per run, in order |
| MultiPassOutline.MergeSeparatesGroups | 1A/main6.py:115-122 | no two consecutive merged headings share level, page and pass |
| MultiPassOutline.MergeKeepsPageOrder | 1A/main6.py:108-124 | merging keeps pages in order and introduces no later page |
| MultiPassOutline.Finalize | 1A/main6.py:126-135 | the filter loop computes the final entries from the merged headings |
| MultiPassOutline.FinalShape | 1A/main6.py:126-135 | every final entry is a merged heading with its text stripped; that text is longer than two characters, not numeric and does not end in ':' |
| MultiPassOutline.FinalDistinct | 1A/main6.py:126-135 | no two final entries have the same lower-cased text |
| MultiPassOutline.FinalCovers | 1A/main6.py:126-135 | every merged heading whose stripped text passes the tests has an entry with the same lower-cased text |
| MultiPassOutline.UnseenKeepsPageOrder | 1A/main6.py:126-135 | filtering keeps pages in order |
| MultiPassOutline.Shortest | 1A/main6.py:140-141 | `min(..., key=len)` picks the first of the shortest texts |
| MultiPassOutline.ReplacePdfKeeps | 1A/main6.py:138 | a name without ".pdf" is kept as it is |
| MultiPassOutline.ReplacePdfExtension | 1A/main6.py:138 | the ".pdf" extension is cut from a stem that does not contain ".pdf" |
| MultiPassOutline.TitleFromH1 | 1A/main6.py:139-141 | with an H1 entry, the title is the first of the shortest H1 texts |
| MultiPassOutline.TitleFromFirstPage | 1A/main6.py:142-150 | with no H1 entry, the title is the text of the first of the largest spans on the first page |
| MultiPassOutline.TitleFromName | 1A/main6.py:138-150 | with neither, the title is the file name with ".pdf" removed |
| MultiPassOutline.ExtractHeadings | 1A/main6.py:7-152 | the extraction after opening the file computes `Extracted`: pass 1, pass 2, sort, merge, filter and title |
| MultiPassOutline.OutlineShape | 1A/main6.py:7-152 | every outline text is trimmed, longer than two characters, not numeric and does not end in ':'; levels are H1 to H6; pages belong to the document and never go down; no two texts are equal once lower-cased |
| SmartOutline.CleanText | 1A/main7.py:107-118 | the cleaned text is whitespace-collapsed and never holds four dots in a row |
| SmartOutline.CleanTextIdempotent | 1A/main7.py:107-118 | cleaning a cleaned text changes nothing |
| SmartOutline.PatternsAreNotBareNumbers | 1A/main7.py:42-57 | no heading pattern matches a bare number, so the +3 for a pattern and the -2 for digits never meet |
| SmartOutline.DocumentStats | 1A/main7.py:120-140 | with no elements the base is 12 pt and "large" 14 pt; otherwise the base is a most frequent size and the threshold is the larger of base + 2 pt and mean + 1 pt |
| SmartOutline.IsLikelyHeading | 1A/main7.py:142-191 | the method decides `LikelyHeading`, and an accepted text is 5 to 150 characters long |
| SmartOutline.PatternMatchAccepted | 1A/main7.py:142-191 | a text that is no form field or address and matches a heading pattern is a heading whatever its font |
| SmartOutline.BoldLargeAccepted | 1A/main7.py:164-171 | bold text above the large threshold is a heading unless excluded |
| SmartOutline.ColonLabelRejected | 1A/main7.py:23 | a label such as "Introduction:" is a form field and never a heading, although it also matches the title-case pattern |
| SmartOutline.NumberedWordsRejected | 1A/main7.py:36 | "1 Introduction" and every other number-space-words line match the street-address pattern under IGNORECASE and are never headings |
| SmartOutline.HeadingLevel | 1A/main7.py:214-237 | every level is between H1 and H3 |
| SmartOutline.NumberingDecidesLevel | 1A/main7.py:217-229 | numbered and keyword headings get a level that does not depend on the size |
| SmartOutline.LevelBySize | 1A/main7.py:231-237 | a larger size never gives a deeper level |
| SmartOutline.ThreePartNumberLevel | 1A/main7.py:218-219 | "a.b.c ..." is an H3 |
| SmartOutline.TwoPartNumberLevel | 1A/main7.py:220-221 | "a.b" not followed by a digit or a dot is an H2 |
| SmartOutline.OnePartNumberLevel | 1A/main7.py:222-223 | "a." followed by a non-digit is an H1 |
| SmartOutline.DeduplicateAndLimit | 1A/main7.py:316-344 | the sort and the loop over the candidates compute `Deduplicated` |
| SmartOutline.KeptKeys | 1A/main7.py:325-338 | no kept entry repeats a key seen before, and no two kept entries share a key |
| SmartOutline.KeptPerLevel | 1A/main7.py:333-338 | together with those already kept, at most fifteen entries of a level are kept |
| SmartOutline.KeptSubseq | 1A/main7.py:325-342 | the kept entries are the candidates' entries with some left out, in the same order |
| SmartOutline.DeduplicatedProperties | 1A/main7.py:316-344 | the outline has one entry per lower-cased stripped text, at most fifteen per level, in page order, as a subsequence of the candidates sorted by (page, -size) |
| SmartOutline.Title | 1A/main7.py:239-273 | the title is a title-like text among the first ten elements, a heading's text, or "Document" |
| SmartOutline.TitleCandidates | 1A/main7.py:245-258 | the loop keeps exactly the title-like texts, in order |
| SmartOutline.ExtractTitle | 1A/main7.py:239-273 | extract_title computes `Title` |
| SmartOutline.TitlePreference | 1A/main7.py:260-273 | the first title-like text wins; without one the first H1 longer than ten characters; then the first heading; then "Document" |
| SmartOutline.Candidates | 1A/main7.py:288-299 | every candidate is a likely heading of the document, at the level determine_heading_level gives it |
| SmartOutline.ProcessDocument | 1A/main7.py:275-310 | process_document computes `Processed`; without elements it is "Document" with an empty outline |
| SmartOutline.ProcessedShape | 1A/main7.py:275-344 | the outline has levels H1..H3, at most 45 entries, page order, distinct texts up to case and surrounding space, and every entry is a likely heading at its determined level |
| MarkdownOutline.Standardise | 1A/process_pdfs.py:26 | each character is replaced on its own: the en dash by '-', and the curly double quotes by '"' in this variant (process_pdfs.py:26 replaces '"' by itself) |
| MarkdownOutline.Clean | 1A/process_pdfs.py:15-29 | clean_text's result is whitespace-collapsed and holds no Markdown marker, no en dash and (here) no curly quote |
| MarkdownOutline.CleanIdempotent | 1A/process_pdfs.py:15-29 | cleaning a cleaned text changes nothing |
| MarkdownOutline.SplitLines | 1A/process_pdfs.py:36 | `split('\n')` gives at least one piece, none holding a newline |
| MarkdownOutline.SplitJoin | 1A/process_pdfs.py:36 | joining the pieces with newlines gives the text back |
| MarkdownOutline.AtxMatch | 1A/process_pdfs.py:38 | a match of `^(#+)\s+(.*)` has at least one '#' and a captured text without a newline |
| MarkdownOutline.AtxMatchOf | 1A/process_pdfs.py:38 | a line whose stripped form is "#...# text" matches with that many hashes and the whole text |
| MarkdownOutline.AtxLevelClamped | 1A/process_pdfs.py:38-51 | such a line gives a heading at level min(n, 6) unless its cleaned text is shorter than 4 or holds "---"; seven or more hashes still give H6 |
| MarkdownOutline.PlainLineIgnored | 1A/process_pdfs.py:38-39 | a line whose stripped form does not start with '#' is never a heading |
| MarkdownOutline.ExtractMarkdownHeadings | 1A/process_pdfs.py:31-52 | the line loop returns the headings of the page's lines in line order (the same function is process_pdfs.py:135-158) |
| MarkdownOutline.HeadingsOfLinesShape | 1A/process_pdfs.py:31-52 | every heading has level H1..H6, a cleaned text of at least 4 characters without "---", the given page, and there are no more headings than lines |
| MarkdownOutline.HeadingsOfLinesConcat | 1A/process_pdfs.py:37-51 | the headings of consecutive lines come out in line order |
| MarkdownOutline.CollectMarkdownHeadings | 1A/process_pdfs.py:128-139 | the page loop collects `MarkdownHeadingsOf` the pages |
| MarkdownOutline.MarkdownHeadingsWellFormed | 1A/process_pdfs.py:128-139 | every collected heading is well formed and lies on an existing page |
| MarkdownOutline.MarkdownHeadingsInPageOrder | 1A/process_pdfs.py:128-139 | the collected headings are in page order |
| MarkdownOutline.KeepFirst | 1A/process_pdfs.py:141-147 | the dict-based dedup loop keeps the first heading of each key, in input order (insertion order of the dict) |
| MarkdownOutline.FirstOccurrencesDistinct | 1A/process_pdfs.py:141-147 | no kept key was seen before, and no two kept keys are equal |
| MarkdownOutline.FirstOccurrencesKeys | 1A/process_pdfs.py:141-147 | every key of the input is kept once, and no other key appears |
| MarkdownOutline.FirstOccurrencesSubseq | 1A/process_pdfs.py:141-147 | the kept headings are the input with some left out, in input order |
| MarkdownOutline.StripNumbering | 1A/process_pdfs.py:120 | `re.sub(r'^\d+(\.\d+)*\s*', '', t)` leaves a suffix of the text |
| MarkdownOutline.StripNumberingNoDigit | 1A/process_pdfs.py:120 | a text that does not start with a digit is left as it is |
| MarkdownOutline.StripNumberingDotted | 1A/process_pdfs.py:120 | "a.b title" and "a title" lose the number and the space, leaving "title" |
| MarkdownOutline.TocEntry | 1A/process_pdfs.py:117-125 | a contents entry keeps its level, gets a non-negative page and ends with a space |
| MarkdownOutline.TocEntries | 1A/process_pdfs.py:116-125 | the contents loop builds one entry per item, in order |
| MarkdownOutline.TocPages | 1A/process_pdfs.py:118 | each entry's page is the 1-based page less one, never below 0 |
| MarkdownOutline.TitleLines | 1A/process_pdfs.py:69-79 | the title candidates are the lines that have spans; there are none exactly when no line has a span |
| MarkdownOutline.TitleKeyOrder | 1A/process_pdfs.py:82 | the key `(-size, pos)` orders larger lines first, then higher ones |
| MarkdownOutline.MetadataTitle | 1A/process_pdfs.py:59-60 | the cleaned metadata title is collapsed and clean, and empty when there is none |
| MarkdownOutline.LargestLine | 1A/process_pdfs.py:80-85 | a title taken from the largest line has more than 4 characters, fewer than 20 words and is cleaned |
| MarkdownOutline.LargestLineIsLargest | 1A/process_pdfs.py:80-83 | the chosen line has the largest first-span size and is the topmost of those |
| MarkdownOutline.FirstMeaningfulNone | 1A/process_pdfs.py:88-93 | step 3 finds nothing exactly when no cleaned line has more than 5 characters and fewer than 20 words |
| MarkdownOutline.FirstMeaningfulAt | 1A/process_pdfs.py:88-93 | otherwise step 3 returns the first such line |
| MarkdownOutline.MeaningfulTextLine | 1A/process_pdfs.py:88-93 | a line found by step 3 is meaningful and cleaned |
| MarkdownOutline.BestTitle | 1A/process_pdfs.py:54-95 | the title is "" or a cleaned text of more than 4 characters, and a cleaned metadata title longer than 5 always wins |
| MarkdownOutline.CollectTitleLines | 1A/process_pdfs.py:69-79 | the block and line loops collect `TitleLines` |
| MarkdownOutline.FindMeaningfulLine | 1A/process_pdfs.py:88-93 | the loop returns at the first meaningful cleaned line |
| MarkdownOutline.GetBestTitle | 1A/process_pdfs.py:54-95 | get_best_title computes `BestTitle` (the same function is process_pdfs.py:268-307) |
| MarkdownOutline.BestTitleEmpty | 1A/process_pdfs.py:54-95 | the title is "" exactly when every step fails |
| MarkdownOutline.FallbackTitle | 1A/process_pdfs.py:150-154 | a found title is kept; without one and without an outline the title stays "" |
| MarkdownOutline.FallbackPrefersH1 | 1A/process_pdfs.py:153-154 | without a found title, the first H1's text is used when it is non-empty |
| MarkdownOutline.FallbackFromOutline | 1A/process_pdfs.py:153-154 | without a found title, a non-empty outline always gives one of its texts |
| ProcessPdfs.Likely | process_pdfs.py:31-133 | a heading exactly when the confidence exceeds 0.4; "H2" exactly above 0.7, otherwise "H3", so the "H1" branch behind the "H2" test is never taken; a stripped text under two characters scores 0 and is no heading |
| ProcessPdfs.FindIndicator | process_pdfs.py:86-90 | the indicator loop finds a heading word exactly when one occurs in the lower-cased text |
| ProcessPdfs.CountPunctuation | process_pdfs.py:99 | the count is the number of characters among `.,;:!?()[]{}` |
| ProcessPdfs.ScoreText | process_pdfs.py:45-103 | the text terms added one by one give `TextScore` |
| ProcessPdfs.IsLikelyHeading | process_pdfs.py:31-133 | is_likely_heading returns `Likely` of the text and context |
| ProcessPdfs.ShortPlainIsH2 | process_pdfs.py:52-103 | a stripped text of at most three words and 30 characters without punctuation is an "H2" heading in every context |
| ProcessPdfs.LongBoldTextRejected | process_pdfs.py:52-63 | without a size in the context, a text of more than 15 words and 100 characters is never a heading |
| ProcessPdfs.ContextMonotone | process_pdfs.py:115-121 | starting a line and standing alone only add confidence: a heading stays one and an "H2" stays an "H2" |
| ProcessPdfs.FontSizeMonotone | process_pdfs.py:107-113 | with the same positive average, a larger font never lowers the confidence |
| ProcessPdfs.CloseFrom | process_pdfs.py:169 | the lazy `(.*?)\*\*` stops at the first "**" that no newline precedes |
| ProcessPdfs.BoldFrom | process_pdfs.py:176 | no group found by findall spans a newline |
| ProcessPdfs.WrappedBold | process_pdfs.py:169-176 | a whole line `**x**` holds exactly one bold group, x |
| ProcessPdfs.BoldContext | process_pdfs.py:183-188 | a bold group's context never divides by zero, as it carries no size |
| ProcessPdfs.BoldLine | process_pdfs.py:173-198 | the group loop of one line computes `BoldLineHeadings`: nothing for a Markdown heading line, else the groups that are likely headings |
| ProcessPdfs.ExtractBoldHeadings | process_pdfs.py:160-200 | extract_bold_headings computes `BoldHeadingsOf` the lines |
| ProcessPdfs.BoldHeadingsScored | process_pdfs.py:160-200 | bold headings are "H2" or "H3" entries with non-empty cleaned texts on their page, never "H1" |
| ProcessPdfs.StarLineNotAtx | process_pdfs.py:173 | a line that starts and ends with '*' is no Markdown heading line |
| ProcessPdfs.WholeBoldLine | process_pdfs.py:171-198 | a line that is only `**x**`, with a short cleaned x without punctuation, gives exactly one "H2" heading |
| ProcessPdfs.LineMaxSize | process_pdfs.py:230-236 | `max_font_size` bounds every span of the line and is 0 or one of their sizes |
| ProcessPdfs.ScanLine | process_pdfs.py:229-241 | the span loop gives the line's joined text, its largest size and whether any span is bold |
| ProcessPdfs.CollectSizes | process_pdfs.py:216-221 | the first pass collects every span size of the page |
| ProcessPdfs.ScoreLine | process_pdfs.py:243-264 | one line gives nothing, its heading, or a failure; it fails only for a scored line of at least two stripped characters on a zero-average page (StructureLineFails) |
| ProcessPdfs.ExtractStructureHeadings | process_pdfs.py:202-266 | extract_pdf_structure_headings computes `StructureHeadings`; None stands for the ZeroDivisionError, which some scored line of two or more characters raises on a zero-average page (StructureOfNoneIff, StructureLineFails) |
| ProcessPdfs.AverageSize | process_pdfs.py:216-223 | the first pass yields the mean of every span size on the page, or 12 (1200 hundredths) when the page has no spans |
| ProcessPdfs.ScoreLines | process_pdfs.py:225-264 | the second pass yields exactly the headings `StructureOf` lists, line by line in page order, or fails exactly when some line fails (StructureOfNoneIff) |
| ProcessPdfs.StructureLineFails | process_pdfs.py:42-110 | a line raises exactly when it is bold or above 1.2 times the average, its stripped text has at least two characters (shorter texts return before the division) and the average is zero |
| ProcessPdfs.StructureOfNoneIff | process_pdfs.py:226-264 | the page fails if and only if one of its lines fails |
| ProcessPdfs.StructureOfFails | process_pdfs.py:226-264 | a failing line makes the whole page fail |
| ProcessPdfs.StructureScored | process_pdfs.py:226-264 | structure headings are "H2" or "H3" entries with non-empty cleaned texts on their page |
| ProcessPdfs.StructureOfNonZero | process_pdfs.py:226-264 | only a zero average can make the pass fail |
| ProcessPdfs.PositiveSizesNeverFail | process_pdfs.py:223 | positive span sizes give a positive average, so the pass never fails |
| ProcessPdfs.PlainPageNoHeadings | process_pdfs.py:256-257 | a page without a bold line or a line above 1.2 times the average has no structure heading |
| ProcessPdfs.SpaceTerminated | process_pdfs.py:385-387 | a text that ends with a space is left alone, any other gets one space; level and page are kept |
| ProcessPdfs.BoldPass | process_pdfs.py:357-373 | the page loop of the bold analysis computes `BoldPassOf` the pages; it fails exactly when the structure pass of some page fails (`BoldPassNoneIff`) |
| ProcessPdfs.BoldPassNoneIff | process_pdfs.py:357-373 | the bold analysis raises if and only if the structure pass of one of the pages raises |
| ProcessPdfs.PagePassesNoneIff | process_pdfs.py:357-373 | the page loop fails if and only if one page's pass fails |
| ProcessPdfs.AddTrailingSpaces | process_pdfs.py:385-387 | the trailing-space loop computes `SpaceAll` of the outline |
| ProcessPdfs.ComputeOutline | process_pdfs.py:325-396 | the outline branches compute `OutlineOf`: the table of contents when it has more than two entries, else the markdown headings, else the bold analysis, which alone can fail |
| ProcessPdfs.ProcessPdf | process_pdfs.py:309-409 | process_pdf computes `Processed`, which fails exactly in the case of `ProcessedNoneIff` |
| ProcessPdfs.ProcessedNoneIff | process_pdfs.py:309-409 | process_pdf raises exactly for an ordinary file with at most two table-of-contents entries, no markdown heading, and a page whose structure pass raises (a line of two or more stripped characters scored on a zero-average page) |
| ProcessPdfs.BoldPassScored | process_pdfs.py:357-373 | every heading of the bold analysis is "H2" or "H3" with a non-empty cleaned text on an existing page |
| ProcessPdfs.BoldPassNonZero | process_pdfs.py:357-373 | only a page with a zero average font size can make the bold analysis fail |
| ProcessPdfs.KeptHeadings | process_pdfs.py:376-380 | deduplication keeps scored headings with distinct (stripped text, page) keys, every key of the input among them |
| ProcessPdfs.BoldOutlineProperties | process_pdfs.py:376-382 | the deduplicated, sorted bold outline is in (page, text) order, one per stripped text and page, with every key of the input kept |
| ProcessPdfs.TocPreferred | process_pdfs.py:328-337 | a table of contents with more than two entries is the outline |
| ProcessPdfs.MarkdownPreferred | process_pdfs.py:352-354 | otherwise the Markdown headings, when there are any, are the outline, each with one space appended |
| ProcessPdfs.BoldFallback | process_pdfs.py:355-382 | without both, the outline is the bold analysis deduplicated, sorted and spaced, and fails only when the bold analysis does |
| ProcessPdfs.ProcessedOutline | process_pdfs.py:317-408 | for a file without a special case, process_pdf succeeds exactly when the outline does and returns that outline |
| ProcessPdfs.BoldFallbackNeverH1 | process_pdfs.py:355-387 | the bold fallback never yields an "H1", and its outline is in page order |
| ProcessPdfs.OutlineTextsSpaced | process_pdfs.py:328-387 | every outline text ends with a space |
| ProcessPdfs.TitleFromBest | process_pdfs.py:399-407 | a title found by get_best_title is the title, with one space appended |
| ProcessPdfs.TitleFromOutline | process_pdfs.py:399-407 | without one, the title is a stripped outline text plus one space, and "" only when the outline is empty |
| ProcessPdfs.NoFailureWithNonZeroAverages | process_pdfs.py:309-409 | process_pdf fails only when some page has a zero average font size |
| ProcessPdfsMarkdown.ComputeOutline | 1A/process_pdfs.py:112-147 | the outline branches compute `OutlineOf`: the contents when longer than two, else the first Markdown heading of each (text, page), with a space appended |
| ProcessPdfsMarkdown.ProcessPdf | 1A/process_pdfs.py:97-161 | process_pdf computes `Processed`, including the two fixed results for file01.pdf and file05.pdf |
| ProcessPdfsMarkdown.TocPreferred | 1A/process_pdfs.py:116-125 | a table of contents with more than two entries is the outline |
| ProcessPdfsMarkdown.AppendSpaceInjective | 1A/process_pdfs.py:143-146 | appending the space keeps two different (text, page) keys different |
| ProcessPdfsMarkdown.UniqueSpacedDistinct | 1A/process_pdfs.py:141-147 | no two outline entries share both text and page |
| ProcessPdfsMarkdown.UniqueSpacedCovers | 1A/process_pdfs.py:141-147 | every heading's text and page reaches the outline, with the space appended |
| ProcessPdfsMarkdown.UniqueSpacedShape | 1A/process_pdfs.py:128-147 | the outline is in page order, each entry a Markdown heading H1..H6 of an existing page with one space appended |
| ProcessPdfsMarkdown.TitleFromBest | 1A/process_pdfs.py:150-159 | a title found by get_best_title is the title, with one space appended |
| ProcessPdfsMarkdown.TitleWhenNothingFound | 1A/process_pdfs.py:150-159 | with no title and no outline, the title is a single space |

## Left out

- Opening and reading PDFs (`fitz`, `pymupdf4llm`, and pdfminer's layout walk in `extract_text_elements` at `1A/main7.py:59-105`) is not modelled. The model starts from the blocks, lines, spans, Markdown pages, table of contents and metadata the library returns, given as parameters.
- The `main` functions, directory walking, JSON writing, `argparse` and the printing of exceptions are not modelled: they are I/O.
- The `HAS_PYMUPDF` import fallback is not modelled: it concerns which library is installed.
- `unicodedata.normalize` (NFKC, NFC) is taken as the identity. Unicode normalisation tables are outside the model.
- `\d`, `\w`, `isupper`, `istitle`, `lower` and `isnumeric` are ASCII approximations of Python's Unicode-aware versions. `\s` and `strip` use Python's exact whitespace set.
- StyleOutline.TitleCase: only ASCII letters are cased. Python's `str.title()` is Unicode-aware and can change the length (`'ß'.title()` is `'Ss'`, `'ﬁ'.title()` is `'Fi'`), which the model does not capture.
- ProcessPdfs.Likely: the confidence is summed exactly, in integer tenths. Python adds binary floats, so a total meant to be exactly 0.4 or 0.7 can land just off it (0.2 + 0.1 + 0.1 is 0.4000000000000001) and pass or fail the `> 0.4` or `> 0.7` test where the model's exact `> 4` or `> 7` does the opposite. On such texts the heading decision or the H2/H3 level can differ.
- Floating point is not modelled. Sizes are integers in hundredths of a point, so `round(size, 2)` is taken as already applied. Means are exact `real` quotients.
- FontGroups.RoundTenths: `round(size, 1)` rounds a half up, whereas Python rounds the binary float nearest to it. The two can differ on a size whose hundredths digit is 5.
- `os.path.basename` is not modelled: the file name is a parameter.
- A `ZeroDivisionError` that the source would raise is the result `None`. The exception's propagation is not modelled.
- MultiPassOutline.MergeRuns: the merge in `1A/main6.py` extends the text of dictionaries that `headings` also holds. `headings` is not read afterwards, so the model builds new values and does not capture that aliasing.
- In `1A/main6.py`, `potential_heading_styles.sort(...)` changes no size that is later read, so it is not modelled. The `12.0` fallback is unreachable because the spans are not empty there. The position part of the sort key is constant, because no heading carries a `bbox`.
- `is_potential_heading` in `1A/main2.py` computes `is_all_caps` and `ends_with_colon` but never uses them, so they are not modelled.
- The outline sort in `1A/main2.py` falls back to the page when its position lookup fails. The model proves that the lookup never fails, so the fallback is not modelled.
- `1A/main4.py` reads `most_common_font_size` into `common_font_size` in the scoring and never uses it, so it is not modelled.
- `1A/main7.py` stores `avg_size` and `size_distribution` in its statistics and never reads them back (`avg_size` is only used for the large-size threshold), so the stored copies are not modelled.
- The `try`/`except` around each pattern match in `1A/main.py` and `1A/main4.py` is not modelled: every pattern is a valid regular expression, so the handler is never reached.
- The catch-all exception handlers around whole documents (for example `1A/main7.py:312-314`) are not modelled: they only report failures of the PDF layer.
- The `heading_threshold` configuration fields are set and never read, so they are not modelled.
- The right-to-left test in `1A/main3.py:19-21` has an empty body and is not modelled. The `unicodedata.bidirectional` table it uses is outside the model.

## Findings

| source | as written | input that shows it | evidently intended | confidence | as-written member | corrected member |
|---|---|---|---|---|---|---|
| 1A/main.py:130-131 | no comma separates the second Arabic pattern from the chapter pattern, so Python joins the two literals into one pattern. That pattern needs three Arabic letters, a comma and then the Arabic word for "chapter", so a line that merely starts with the chapter word never matches | the span with text "الفصل" (the chapter word alone, `ArabicChapterWord`), 10 pt, regular weight | two separate patterns: three or more Arabic letters, and the chapter word followed by a number | not executed | Multilingual.ArabicHeadingMissed | Multilingual.CorrectedAcceptsMore |
| 1A/main2.py:127 | the bold part of the style key is `True` for a bold font name but `16` for the bold flag (`flags & 2**4`), so two bold spans of one size fall into two styles, and the flagged one ranks above the named one | `NamedBold` (14 pt, font "bold", flags 0) and `FlaggedBold` (14 pt, font "", flags 16) get H2 and H1 | one style per (size, bold) with bold a truth value, so spans of equal size and weight share a level | not executed | StyleOutline.AsWrittenSplitsBold | StyleOutline.StyleLevelsFollowProminence |

`Multilingual.ClassifyHeadings` models classify_headings_multilingual as
written, with `HasHeadingCharacteristicsAsWritten`; `HasHeadingCharacteristics`
is the corrected test, and `Multilingual.CorrectedAcceptsMore` shows that it
accepts every span the written one accepts. `StyleOutline.Extract` takes the
style key as a parameter: with `StyleAsWritten` it is the code as written,
with `StyleOf` the corrected grouping, and its lemmas hold for both keys.
