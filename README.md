# ewYss-builder in Dafny

ewYss-builder turns an academic PDF into an HTML slide deck. The PDF's text is
extracted, structured and cut into chunks. A content-analysis model splits
the text into slide records. Each record goes through a fixed chain of
calls to the model, in this order: theme, optional visualization, optional
image, slide HTML, narration. The results are assembled into an `index.html` with one `div` per
slide. A small key/value store carries intermediate results between the
steps. A testing skill replays configured test cases and counts the ones
that pass.

This project models the deterministic part of that pipeline and proves what
it promises. Language-model calls, PDF parsing and JSON decoding are
parameters (see "## Left out").

Modules, following the program's structure:

- `Wrappers`, `Skills`: `Option`/`Result`; the skills' context map, model
  signature and raised exceptions (`ValueError`, `RuntimeError`).
- `Text`: the Python `str` operations the code relies on. This covers
  `strip`, `split`, `join`, `find`/`in`, `count`, `replace`, `lower`,
  `isupper`, `split()` and `str(n)`, with Python's own whitespace set.
- `Json`: decoded JSON values and dict access (`d[k]`, `d.get`, truthiness,
  iteration). `json.dumps` of a string-valued object is written out and
  decoded back.
- `Paths`: `os.path.basename`, `splitext` (as the stem), `dirname` and
  `join` for `/`-separated paths.
- `Patterns`: hand-written matchers for the regular expressions of the
  skills. These are the fenced code block, `<body…>…</body>`, the slide
  array `[ … { … } … ]`, and the `Theme:`/`Color:`/`Layout:` lines.
- `PdfStructure`, `PdfChunking`, `PdfPresentation`: the native PDF
  extraction skill (`skills/native_skills/pdf_extraction.py`).
- `ContextStore`: the result store (`orchestration/context_manager.py`), a
  class over a `map` and its key order.
- `Orchestrator`, `IndexPage`: the PDF-to-slides orchestrator
  (`orchestration/pdf_to_slides_orchestrator.py`). `IndexPage` is shared
  with its twin in `skills/orchestrator_skill/generate_presentation.py`;
  the two `_generate_index_html` bodies are the same apart from the title.
- `ContentAnalyzer`, `ThemeLayout`, `SlideGenerator`, `DataVisualization`,
  `PresentationSkill`, `TestingSkill`: one module per skill.

Where the source mutates state in loops, the model does too, with a
method. Each such method is proved equal to a specification function, and
the properties are lemmas about that function. This applies to
`_split_by_structure`, `_analyze_document_fonts`, `_estimate_sections`,
`_extract_key_points`, `_create_presentation_chunks`,
`_apply_hybrid_chunking`, `_calculate_header_confidence`,
`_generate_index_html`, `process_single_slide`,
`process_slides_in_parallel`, `_validate_slide_data` (over an `array`),
the file loop of `generate_presentation` and the test loop. The result
store is a class.

Behaviour of the code that a reader may not expect, and that the model
follows:

- Hybrid chunking hands an oversize structural chunk to the fixed
  1000/200 recursive splitter of `pdf_extraction.py:45-50`. It does not
  use the configured chunk size, and the overlap argument has no effect on
  it.
- The hybrid header test is the splitter's own test, which is shorter
  (`pdf_extraction.py:271-276`). It is not `_is_likely_header`.
- "semantic" and unknown strategy names get a recursive splitter with the
  default separators. This is not the same splitter as "recursive".
- A failing slide makes `asyncio.gather` fail and aborts the whole batch.
  There is no per-item isolation and no partial result.
- The orchestrator's conversion calls a method the extraction skill does
  not have. See "## Findings".
- `estimated_slides` is always 1. At most five key points are kept, and
  `max(1, 5 // 3)` is 1.

## Model

| member | source | states |
|---|---|---|
| ContextStore.ContextManager.constructor | orchestration/context_manager.py:17-19 | a new store is valid and holds no key |
| ContextStore.ContextManager.StoreResult | orchestration/context_manager.py:21-29 | last write wins; every other key keeps its value; a new key is appended to the key order, and a present key keeps its place |
| ContextStore.ContextManager.GetResult | orchestration/context_manager.py:31-47 | a stored key gives its value, whatever that value is; an absent key gives the `KeyError` message |
| ContextStore.ContextManager.HasResult | orchestration/context_manager.py:49-59 | true exactly for the keys stored since the last clear |
| ContextStore.ContextManager.ClearResults | orchestration/context_manager.py:61-63 | afterwards there are no keys and no values |
| ContextStore.ContextManager.GetAllKeys | orchestration/context_manager.py:65-72 | the stored keys, each once, in insertion order |
| ContextStore.StoreScenario | orchestration/context_manager.py:21-72 | writing a key twice reads back the second value; an unstored key fails; after a clear there are no keys |
| Text.LowerChar | skills/native_skills/pdf_extraction.py:416 | only upper-case letters change, and each becomes lower case |
| Text.Lower | skills/native_skills/pdf_extraction.py:416 | same length; each character is lowered on its own |
| Text.CharClassesDisjoint | skills/native_skills/pdf_extraction.py:414-418 | whitespace, digits and cased letters never overlap |
| Text.RunEnd | skills/native_skills/pdf_extraction.py:418 | the end of the longest run of a character class from a position |
| Text.RunEndUnique | skills/native_skills/pdf_extraction.py:418 | any run bounded by a character outside the class ends there |
| Text.Strip | skills/native_skills/pdf_extraction.py:266 | removes exactly the leading and trailing whitespace; the result is empty exactly for all-whitespace input |
| Text.StripUnique | skills/native_skills/pdf_extraction.py:266 | whitespace + trimmed x + whitespace strips to x |
| Text.StripPadded | skills/native_skills/pdf_extraction.py:285 | surrounding whitespace does not change a strip |
| Text.StripIdempotent | skills/native_skills/pdf_extraction.py:266 | stripping twice is stripping once |
| Text.StripTrimmed | skills/native_skills/pdf_extraction.py:266 | a trimmed string is its own strip |
| Text.IndexFrom | orchestration/pdf_to_slides_orchestrator.py:737-744 | `find`: the leftmost occurrence at or after the start, or none at all |
| Text.IndexFromFirst | orchestration/pdf_to_slides_orchestrator.py:737-744 | the first occurrence is what `find` returns |
| Text.ContainsIndex | skills/native_skills/testing.py:151 | `t in s` holds exactly when `s.find(t)` succeeds |
| Text.Split | skills/native_skills/pdf_extraction.py:262 | `split(sep)` always has at least one piece |
| Text.SplitStep | skills/native_skills/pdf_extraction.py:262 | the first piece ends at the first separator, and the rest is split again |
| Text.SplitPiecesFree | skills/native_skills/pdf_extraction.py:262 | no piece contains the separator |
| Text.SplitJoin | skills/native_skills/pdf_extraction.py:262 | joining the pieces with the separator rebuilds the string |
| Text.JoinAppend | skills/native_skills/pdf_extraction.py:280-283 | the join of two lists is their joins around one separator |
| Text.SplitLength | skills/native_skills/pdf_extraction.py:486 | the number of pieces is the number of separators plus one |
| Text.CountPositiveContains | skills/native_skills/pdf_extraction.py:480 | a positive `count` means the pattern occurs |
| Text.ReplaceAbsent | skills/slide_generator_skill/generate_slide.py:95-99 | replacing a pattern that does not occur changes nothing |
| Text.ReplaceWhole | skills/slide_generator_skill/generate_slide.py:95-99 | a string that is just the placeholder becomes the replacement |
| Text.ReplaceLength | skills/slide_generator_skill/generate_slide.py:95-99 | the length changes by `count * (len(rep) - len(pat))` |
| Text.NoLineBreakAfterReplace | skills/native_skills/pdf_extraction.py:497 | after replacing line breaks by spaces, none is left |
| Text.Words | skills/native_skills/pdf_extraction.py:470 | `split()` gives non-empty pieces without whitespace |
| Text.NatToString | skills/native_skills/testing.py:92 | `str(n)` is a non-empty string of decimal digits |
| Text.NatToStringValue | skills/native_skills/testing.py:92 | reading the digits back gives n |
| Json.Lookup | skills/content_analyzer_skill/analyze_content.py:161-168 | `d[key]` finds a value exactly when the key is present, and the value is that key's entry |
| Json.LookupAppended | skills/content_analyzer_skill/analyze_content.py:171-181 | an appended entry is what a lookup of its key finds |
| Json.LookupAppendedOther | skills/content_analyzer_skill/analyze_content.py:171-181 | appending one key leaves every other key's lookup unchanged |
| Json.GetOr | orchestration/pdf_to_slides_orchestrator.py:267-272 | `d.get(key, default)`: the key's entry when present, else the default |
| Json.Hex4 | skills/theme_layout_skill/get_theme_and_layout.py:134 | a `\uXXXX` escape has four hex digits |
| Json.Hex4RoundTrip | skills/theme_layout_skill/get_theme_and_layout.py:134 | four hex digits read back to the code unit they encode |
| Json.EscapeChar | skills/theme_layout_skill/get_theme_and_layout.py:134 | every character has a non-empty escape |
| Json.SurrogateCombine | skills/theme_layout_skill/get_theme_and_layout.py:134 | the UTF-16 surrogate pair of an astral character combines back to it |
| Json.EscapePrintable | skills/theme_layout_skill/get_theme_and_layout.py:134 | `json.dumps` of a string (ASCII mode) is printable ASCII |
| Json.EscapeRoundTrip | skills/theme_layout_skill/get_theme_and_layout.py:134 | decoding an escaped string gives the string back, and the text after it is untouched |
| Json.QuoteInjective | skills/theme_layout_skill/get_theme_and_layout.py:134 | different strings serialise differently |
| Json.DecodeMember | skills/theme_layout_skill/get_theme_and_layout.py:134 | a decoded member leaves a strictly shorter rest |
| Json.DecodeMemberOf | skills/theme_layout_skill/get_theme_and_layout.py:134 | one serialised `"k": "v"` member decodes to (k, v) |
| Json.MembersAfterRoundTrip | skills/theme_layout_skill/get_theme_and_layout.py:134 | the serialised members after the first decode back to the same entries |
| Json.DumpsObjectRoundTrip | skills/theme_layout_skill/get_theme_and_layout.py:134 | the serialisation of a string-valued object decodes back to its entries, in order |
| Paths.LastIndex | skills/orchestrator_skill/generate_presentation.py:143 | `rfind`: the last occurrence, or none |
| Paths.LastIndexAt | skills/orchestrator_skill/generate_presentation.py:143 | an occurrence with none after it is the last one |
| Paths.Basename | skills/orchestrator_skill/generate_presentation.py:143 | the suffix after the last `/`, which holds no `/` |
| Paths.BasenameOfPath | skills/orchestrator_skill/generate_presentation.py:143 | the base name of `dir/file` is `file` |
| Paths.Stem | skills/orchestrator_skill/generate_presentation.py:144 | a prefix that is the whole name or ends before the last dot; leading dots do not start an extension |
| Paths.StemOfName | skills/orchestrator_skill/generate_presentation.py:144 | `name.ext` loses exactly `.ext` |
| Paths.TitleOfPath | skills/orchestrator_skill/generate_presentation.py:143-144 | the title of `dir/name.ext` is `name` |
| Paths.Join | skills/orchestrator_skill/generate_presentation.py:94 | `os.path.join`: an absolute name replaces the directory; otherwise one `/` goes in unless the directory is empty or ends in one |
| Paths.TrimSlashes | skills/native_skills/testing.py:88 | removes exactly the trailing slashes |
| Paths.Dirname | skills/native_skills/testing.py:88 | a prefix of the path; empty when there is no `/`; no trailing `/` unless it is only slashes |
| Paths.DirnameOfPath | skills/native_skills/testing.py:88 | the directory of `dir/name` is `dir`, and joining it with the name rebuilds the path |
| Patterns.TagLength | orchestration/pdf_to_slides_orchestrator.py:737 | an optional tag after the fence never runs past the text |
| Patterns.TagLengthFirst | orchestration/pdf_to_slides_orchestrator.py:737 | the optional tag is the first alternative that matches |
| Patterns.TagLengthNone | orchestration/pdf_to_slides_orchestrator.py:737 | with no tag matching, the optional tag is empty |
| Patterns.FindFence | orchestration/pdf_to_slides_orchestrator.py:737-744 | the leftmost fenced block, opener then tag then the next fence; none exactly when no block exists |
| Patterns.NoBlockAfter | orchestration/pdf_to_slides_orchestrator.py:737-744 | a first fence with no closing fence after its tag means no block at all |
| Patterns.FencedBody | orchestration/pdf_to_slides_orchestrator.py:737-744 | the stripped interior of the first block; it is trimmed and holds no fence |
| Patterns.FencedOrStripped | skills/data_visualization_skill/create_visualization.py:111-118 | the block's interior or the stripped reply; trimmed, and with no further block |
| Patterns.FencedOrStrippedIdempotent | skills/data_visualization_skill/create_visualization.py:111-118 | extracting again changes nothing |
| Patterns.FencedBodyOfBlock | skills/slide_generator_skill/generate_slide.py:123-129 | a reply that is exactly one tagged or untagged block gives its interior, stripped |
| Patterns.FindBodyMatch | orchestration/pdf_to_slides_orchestrator.py:347-352 | the leftmost `<body…>`, its first `>`, then the first `</body>` after it; none exactly when there is no match |
| Patterns.LeftmostBodyUnique | orchestration/pdf_to_slides_orchestrator.py:347-352 | the body match is unique |
| Patterns.FindBodyAt | orchestration/pdf_to_slides_orchestrator.py:347-352 | the captured group is the text between the tag end and the closing tag |
| Patterns.FindBodyOfDocument | skills/orchestrator_skill/generate_presentation.py:174-179 | a document `…<body attrs>x</body>…` gives x |
| Patterns.BraceAfter | skills/content_analyzer_skill/analyze_content.py:125 | a `[` followed by whitespace and then `{` |
| Patterns.FirstOpener | skills/content_analyzer_skill/analyze_content.py:125 | the leftmost `[ {` opener, or none |
| Patterns.LastCloser | skills/content_analyzer_skill/analyze_content.py:125 | the rightmost `} ]` closer in a range, or none |
| Patterns.FindArrayMatch | skills/content_analyzer_skill/analyze_content.py:125 | the greedy span from the first opener to the last closer after its brace; none exactly when no span exists |
| Patterns.FindSlideArray | skills/content_analyzer_skill/analyze_content.py:125 | the matched span starts with `[`, ends with `]` and occurs at the opener |
| Patterns.LaterOpenerFurtherRight | skills/content_analyzer_skill/analyze_content.py:125 | any other opener's brace is at or after the first one's |
| Patterns.SlideArrayOfBareArray | skills/content_analyzer_skill/analyze_content.py:125 | a bare `[{…}]` reply is matched whole |
| Patterns.SlideArrayOfLayout | skills/content_analyzer_skill/analyze_content.py:125 | any text that starts `[{` and ends `}]` is matched whole |
| Patterns.SlideArrayInProse | skills/content_analyzer_skill/analyze_content.py:125 | a `[{`…`}]` array with no `[` before it and no `}` after it is found on its own |
| Patterns.LastSpace | skills/theme_layout_skill/get_theme_and_layout.py:123-125 | the last whitespace in a range, or none |
| Patterns.ValueAt | skills/theme_layout_skill/get_theme_and_layout.py:123-125 | the greedy `[\w\s-]+` group, backed off to end on a non-space |
| Patterns.KeyAt | skills/theme_layout_skill/get_theme_and_layout.py:123-125 | a case-insensitive match of the key line at a position, with its value group |
| Patterns.FirstTrue | skills/theme_layout_skill/get_theme_and_layout.py:123-125 | the first hit from a position, or none |
| Patterns.KeyHits | skills/theme_layout_skill/get_theme_and_layout.py:123-125 | one hit flag per position, true exactly where the key line matches |
| Patterns.FirstKey | skills/theme_layout_skill/get_theme_and_layout.py:123-125 | `re.search`: the leftmost position where the key line matches |
| Patterns.FindKey | skills/theme_layout_skill/get_theme_and_layout.py:123-125 | the group of the leftmost match, a value text |
| Patterns.KeyValue | skills/theme_layout_skill/get_theme_and_layout.py:127-132 | the stripped group when matched, else the default |
| Patterns.KeyValueOfLine | skills/theme_layout_skill/get_theme_and_layout.py:127-132 | a reply `Key: v` gives v |
| PdfStructure.AnyPrefixExists | skills/native_skills/pdf_extraction.py:416 | `any(s.startswith(w) …)` means some word is a prefix |
| PdfStructure.NumberedHeadingOf | skills/native_skills/pdf_extraction.py:418 | digits, an optional dot, whitespace and a capital always match the numbered pattern |
| PdfStructure.NumberedHeadingShape | skills/native_skills/pdf_extraction.py:418 | a match starts with a digit and has a capital after whitespace |
| PdfStructure.LikelyHeaderBounds | skills/native_skills/pdf_extraction.py:405-421 | `IsLikelyHeader`: empty and over-200 lines are never headers; a short line ending in `:` and a numbered heading are |
| PdfStructure.NumberedLineIsHeader | skills/native_skills/pdf_extraction.py:405-421 | `1. Title` is a likely header |
| PdfStructure.HeaderConfidence | skills/native_skills/pdf_extraction.py:423-443 | the additive confidence in tenths, capped at 10 |
| PdfStructure.ScoreFactors | skills/native_skills/pdf_extraction.py:427-443 | a full score needs all four factors; an all-capitals line scores at least 3 |
| PdfStructure.EstimateSections | skills/native_skills/pdf_extraction.py:369-403 | the table of contents when non-empty, else the header sections page after page |
| PdfStructure.PagesSections | skills/native_skills/pdf_extraction.py:386-401 | the headers of every page, in page order |
| PdfStructure.PageSections | skills/native_skills/pdf_extraction.py:392-401 | the likely headers of one page's lines, in line order |
| PdfStructure.LineHeader | skills/native_skills/pdf_extraction.py:394-401 | a stripped line that is a likely header becomes a section with its confidence |
| PdfStructure.HeaderAtGood | skills/native_skills/pdf_extraction.py:394-401 | a section found on a line of a page of the document is a stripped likely header with that page number and a confidence of at most 10 |
| PdfStructure.HeadersUpToGood | skills/native_skills/pdf_extraction.py:393-401 | when every line's sections are good, so are all the sections of a page's lines |
| PdfStructure.PageHeadersGood | skills/native_skills/pdf_extraction.py:392-401 | every section found on one page is a good header |
| PdfStructure.PagesHeadersGood | skills/native_skills/pdf_extraction.py:387-401 | when every page's sections are good, so are the sections of all pages together |
| PdfStructure.SectionsShape | skills/native_skills/pdf_extraction.py:375-401 | with a table of contents, exactly its entries in order, each with its title, level and page; without one, only good header sections |
| PdfStructure.HeaderLineIn | skills/native_skills/pdf_extraction.py:393-401 | a line that gives a section puts it among its page's sections |
| PdfStructure.HeaderLinesOrdered | skills/native_skills/pdf_extraction.py:393-401 | two lines that give sections give them in line order |
| PdfStructure.PagesHeadersOrdered | skills/native_skills/pdf_extraction.py:387-401 | the sections come page by page, each page's in its own order |
| PdfStructure.PageHeaderLine | skills/native_skills/pdf_extraction.py:392-401 | a likely-header line of a page gives a section of that page with its stripped text, page number and confidence |
| PdfStructure.PageHeaderLinesOrdered | skills/native_skills/pdf_extraction.py:392-401 | two likely-header lines of a page give its sections in line order |
| PdfStructure.SectionsComplete | skills/native_skills/pdf_extraction.py:386-401 | without a table of contents every line of every page that is a likely header once stripped gives its section |
| PdfStructure.SectionsPagesOrdered | skills/native_skills/pdf_extraction.py:386-401 | without a table of contents, a section of an earlier page, or an earlier section of the same page, comes first |
| PdfStructure.SectionsWithinPage | skills/native_skills/pdf_extraction.py:392-401 | without a table of contents, the header lines of one page give their sections in line order |
| PdfStructure.AnalyzeFonts | skills/native_skills/pdf_extraction.py:333-367 | the profiles of the spans of the first five pages, in reading order |
| PdfStructure.AddPage | skills/native_skills/pdf_extraction.py:340-345 | one page counted in, block after block; image blocks are skipped |
| PdfStructure.AddLines | skills/native_skills/pdf_extraction.py:345-346 | every line of a block counted in |
| PdfStructure.AddLine | skills/native_skills/pdf_extraction.py:346-365 | every span of a line counted in |
| PdfStructure.ScanFacts | skills/native_skills/pdf_extraction.py:339-365 | a profile exists exactly for keys that occur; its count is the number of spans with the key; bold and italic are flag bits 16 and 2; the sample is a prefix of those spans' texts and is all of them until it reaches 100 characters |
| PdfStructure.TextsOfAbsent | skills/native_skills/pdf_extraction.py:362-363 | a key without spans has no text |
| PdfStructure.FlagBits | skills/native_skills/pdf_extraction.py:357-358 | flags 16, 2, 18 and 0 give the expected bold and italic bits |
| PdfChunking.KeptParagraphs | skills/native_skills/pdf_extraction.py:265-268 | the stripped paragraphs that are not blank, each trimmed and non-empty |
| PdfChunking.SplitByStructure | skills/native_skills/pdf_extraction.py:255-288 | the loop's chunks are the joined groups of the kept paragraphs |
| PdfChunking.Step | skills/native_skills/pdf_extraction.py:265-283 | a blank paragraph is skipped; otherwise the loop state becomes the grouping of one more paragraph |
| PdfChunking.GroupsSnoc | skills/native_skills/pdf_extraction.py:278-283 | a header opens a new group only when one is accumulating; anything else joins the last group |
| PdfChunking.OpenEmpty | skills/native_skills/pdf_extraction.py:278 | the accumulating chunk is empty exactly when no group has begun |
| PdfChunking.Finish | skills/native_skills/pdf_extraction.py:285-286 | the final stripped chunk completes the groups |
| PdfChunking.Close | skills/native_skills/pdf_extraction.py:278-281 | a header flushes the stripped chunk and starts a new one |
| PdfChunking.Extend | skills/native_skills/pdf_extraction.py:282-283 | any other paragraph joins the accumulating chunk |
| PdfChunking.GroupsKept | skills/native_skills/pdf_extraction.py:262-286 | the groups are non-empty, hold kept paragraphs and flatten back to the paragraphs |
| PdfChunking.GroupsFlatten | skills/native_skills/pdf_extraction.py:262-286 | no paragraph is lost, added or reordered |
| PdfChunking.GroupsNonEmpty | skills/native_skills/pdf_extraction.py:278-283 | no group is empty |
| PdfChunking.GroupsHeaders | skills/native_skills/pdf_extraction.py:278-281 | every group after the first opens with a header |
| PdfChunking.GroupsInterior | skills/native_skills/pdf_extraction.py:278-283 | no header sits inside a group |
| PdfChunking.ChunksTrimmed | skills/native_skills/pdf_extraction.py:265-268 | no chunk is empty and every chunk equals its own strip |
| PdfChunking.ChunksPreserveContent | skills/native_skills/pdf_extraction.py:262-286 | the chunks joined by blank lines are the kept paragraphs joined by blank lines |
| PdfChunking.HybridChunking | skills/native_skills/pdf_extraction.py:224-253 | the documents of the structural chunks of each input, in order |
| PdfChunking.ChunkDocument | skills/native_skills/pdf_extraction.py:233-251 | one document's structural chunks, an oversize one replaced by its split |
| PdfChunking.SplitOversize | skills/native_skills/pdf_extraction.py:239-251 | a chunk over `chunk_size` goes to the splitter; a fitting one stays whole with the metadata |
| PdfChunking.PieceDocsFit | skills/native_skills/pdf_extraction.py:239-251 | when every chunk fits, the output is the chunks themselves, with the metadata |
| PdfChunking.HybridFits | skills/native_skills/pdf_extraction.py:224-253 | a document whose structural chunks all fit never reaches the splitter |
| PdfChunking.PieceDocsOrigin | skills/native_skills/pdf_extraction.py:239-251 | a fitting last chunk is the last document, whole; there are at least as many documents as fitting chunks |
| PdfChunking.StrategyFallbacks | skills/native_skills/pdf_extraction.py:171-222 | `ApplyStrategy`: unknown names act as "semantic"; "semantic" is not "recursive"; hybrid ignores the overlap and uses the fixed splitter |
| PdfPresentation.ContentTypeCounts | skills/native_skills/pdf_extraction.py:476-489 | `AnalyzeContentType`: table exactly for more than five `\|`; long text exactly when the earlier tests fail and there are more than ten lines |
| PdfPresentation.StructureKinds | skills/native_skills/pdf_extraction.py:513-541 | `SuggestSlideStructure`: figure references get the paragraph layout; only long text carries a suggestion; the other types have layouts of their own |
| PdfPresentation.ImportanceScore | skills/native_skills/pdf_extraction.py:502-505 | the number of importance words in the lower-cased sentence |
| PdfPresentation.HitsPositive | skills/native_skills/pdf_extraction.py:502-507 | a positive score means some importance word occurs |
| PdfPresentation.ExtractKeyPoints | skills/native_skills/pdf_extraction.py:491-511 | the first five key sentences |
| PdfPresentation.KeySentencesOf | skills/native_skills/pdf_extraction.py:498-509 | the key sentences of the sentence list, in order |
| PdfPresentation.KeySentenceOf | skills/native_skills/pdf_extraction.py:499-509 | one sentence, stripped, kept when it passes the test |
| PdfPresentation.StartsWithOpener | skills/native_skills/pdf_extraction.py:507 | the ordinal-opener test is a prefix test over the six openers |
| PdfPresentation.FirstPrefix | skills/native_skills/pdf_extraction.py:507 | the prefix test over the remaining openers |
| PdfPresentation.KeySentenceMember | skills/native_skills/pdf_extraction.py:498-509 | every kept sentence is stripped, passes the test and holds no `.` or line break |
| PdfPresentation.KeyPointsFacts | skills/native_skills/pdf_extraction.py:491-511 | at most five; each between 21 and 199 characters and a key sentence; the first of the key sentences in their original order |
| PdfPresentation.CreatePresentationChunks | skills/native_skills/pdf_extraction.py:445-474 | one record per document, the i-th for document i |
| PdfPresentation.Recorded | skills/native_skills/pdf_extraction.py:463-472 | appending record i keeps every record in place |
| PdfPresentation.MakeRecord | skills/native_skills/pdf_extraction.py:452-472 | the record of one stripped document |
| PdfPresentation.ChunkRecordFacts | skills/native_skills/pdf_extraction.py:451-472 | the id is the index, the content is the stripped text, the metadata is kept, and the estimate is always 1 |
| PdfPresentation.ExtractAndChunk | skills/native_skills/pdf_extraction.py:65-133 | a missing file, then images without an output directory, raise; other failures carry the processing prefix; on success the counts agree and there are no images unless asked for |
| Orchestrator.ExtractJsonFromResponse | orchestration/pdf_to_slides_orchestrator.py:718-749 | valid JSON is returned as it is; otherwise the result is valid JSON or the text unchanged |
| Orchestrator.ExtractUnfenced | orchestration/pdf_to_slides_orchestrator.py:733-749 | invalid text without a fenced block, for instance without any fence, comes back unchanged |
| Orchestrator.ExtractFromBlock | orchestration/pdf_to_slides_orchestrator.py:733-749 | a reply that is one `json` or untagged block gives the block's stripped interior when that parses, and itself when it does not |
| Orchestrator.ExtractIdempotent | orchestration/pdf_to_slides_orchestrator.py:718-749 | extracting twice is extracting once |
| Orchestrator.OptionalStages | orchestration/pdf_to_slides_orchestrator.py:199-226 | at most two optional stages, visualization before image |
| Orchestrator.ProcessSingleSlide | orchestration/pdf_to_slides_orchestrator.py:172-272 | the run, stage by stage: the prompts sent and the outcome are the specified run's |
| Orchestrator.OptionalStagesPassed | orchestration/pdf_to_slides_orchestrator.py:199-226 | a stage runs only when its flag is truthy; once both pass, the slide and narration calls follow |
| Orchestrator.FinalPassed | orchestration/pdf_to_slides_orchestrator.py:229-272 | the narration prompt holds the slide HTML; the result has number, title, HTML and narration |
| Orchestrator.RunSlideSucceeds | orchestration/pdf_to_slides_orchestrator.py:172-272 | a successful run sent theme, the optional stages, slide and narration in that order, all answered; the result keys take their defaults |
| Orchestrator.FailedAfterAnswered | orchestration/pdf_to_slides_orchestrator.py:172-272 | an answered prompt followed by a failed rest is part of the failed run |
| Orchestrator.FailedOne | orchestration/pdf_to_slides_orchestrator.py:172-272 | a prompt that fails ends the run with its error |
| Orchestrator.FinalFails | orchestration/pdf_to_slides_orchestrator.py:229-264 | a failed ending sent at most two prompts, and the last failed |
| Orchestrator.ImageFails | orchestration/pdf_to_slides_orchestrator.py:214-264 | a failed run from the image stage sent at most three prompts, and the last failed |
| Orchestrator.VisualizationFails | orchestration/pdf_to_slides_orchestrator.py:199-264 | a failed run from the visualization stage sent at most four prompts, and the last failed |
| Orchestrator.RunSlideFails | orchestration/pdf_to_slides_orchestrator.py:172-272 | a failed run starts with the theme prompt; all prompts but the last were answered; its error is the last prompt's, or `.get` on a non-dict |
| Orchestrator.OwnSnoc | orchestration/pdf_to_slides_orchestrator.py:199-226 | appending one of the slide's own prompts keeps every prompt its own |
| Orchestrator.FinalOwn | orchestration/pdf_to_slides_orchestrator.py:229-264 | the last two calls send only the slide's own prompts |
| Orchestrator.ImageOwn | orchestration/pdf_to_slides_orchestrator.py:214-264 | from the image stage on, only the slide's own prompts are sent |
| Orchestrator.VisualizationOwn | orchestration/pdf_to_slides_orchestrator.py:199-264 | from the visualization stage on, only the slide's own prompts are sent |
| Orchestrator.SkippedStagesNotSent | orchestration/pdf_to_slides_orchestrator.py:199-226 | no visualization prompt without `HasData` and no image prompt without `NeedsImage` |
| Orchestrator.Outcomes | orchestration/pdf_to_slides_orchestrator.py:163-166 | one outcome per slide, the i-th from slide i |
| Orchestrator.GatherFailedPrefix | orchestration/pdf_to_slides_orchestrator.py:168 | once a prefix fails, the whole batch fails with the same error |
| Orchestrator.ProcessSlidesInParallel | orchestration/pdf_to_slides_orchestrator.py:152-170 | the gathered outcomes of the slides, in input order |
| Orchestrator.GatherFacts | orchestration/pdf_to_slides_orchestrator.py:168-170 | success exactly when every outcome succeeds, with one result per outcome in order; otherwise the first failure's error |
| Orchestrator.SlidesGathered | orchestration/pdf_to_slides_orchestrator.py:152-170 | the batch succeeds exactly when every slide's run does, and result i is slide i's |
| Orchestrator.ConvertAsWritten | orchestration/pdf_to_slides_orchestrator.py:96-150 | as written, every conversion returns the error for the missing `extract_content` |
| Orchestrator.ConvertPdfToSlides | orchestration/pdf_to_slides_orchestrator.py:89-150 | the success message exactly when every step succeeds, else `Error:` and the first failure, never raising; the store is the old one with each result written by the steps that ran |
| Orchestrator.ConvertAnalysis | orchestration/pdf_to_slides_orchestrator.py:123-150 | after the analysis is stored: the success message exactly when decoding, slide processing and the presentation call succeed; the slides stored once processed |
| Orchestrator.AnalysisStoreKeeps | orchestration/pdf_to_slides_orchestrator.py:123-126 | after the analysis only the `slides` key can be added or changed |
| Orchestrator.ConversionStoreKeeps | orchestration/pdf_to_slides_orchestrator.py:96-126 | no key other than `pdf_content`, `content_analysis` and `slides` changes |
| Orchestrator.ConversionStoreEarly | orchestration/pdf_to_slides_orchestrator.py:96-121 | a failed extraction stores nothing; the content is stored exactly when extraction succeeds; a failed analyzer call then stores nothing more |
| Orchestrator.ConversionStoreSucceeds | orchestration/pdf_to_slides_orchestrator.py:96-147 | a successful conversion stores its content, its analysis and its serialised slides |
| Orchestrator.ConversionSucceeds | orchestration/pdf_to_slides_orchestrator.py:96-147 | when every step succeeds, the conversion succeeds with the extracted content and one slide per analysis item |
| Orchestrator.AsWrittenFailsWhereIntendedSucceeds | orchestration/pdf_to_slides_orchestrator.py:99 | one input on which the code as written fails and the intended conversion succeeds |
| IndexPage.Display | orchestration/pdf_to_slides_orchestrator.py:342-356 | the display style is empty exactly for the first slide |
| IndexPage.CleanSlideHtml | orchestration/pdf_to_slides_orchestrator.py:347-352 | HTML without `<html` is kept; otherwise it is kept or cut down to something trimmed |
| IndexPage.Cleaned | orchestration/pdf_to_slides_orchestrator.py:342-352 | each slide cleaned, in order |
| IndexPage.SlideDivs | orchestration/pdf_to_slides_orchestrator.py:342-359 | one div per slide, the i-th for slide i |
| IndexPage.BuildIndexHtml | orchestration/pdf_to_slides_orchestrator.py:308-377 | the `html +=` page is the specified page |
| IndexPage.AppendDivs | orchestration/pdf_to_slides_orchestrator.py:342-359 | the loop appends every slide's div in order |
| IndexPage.DivsStep | orchestration/pdf_to_slides_orchestrator.py:342-359 | one more iteration appends one more div |
| IndexPage.DivsSplit | orchestration/pdf_to_slides_orchestrator.py:342-359 | consecutive ranges of divs concatenate |
| IndexPage.DivsOne | orchestration/pdf_to_slides_orchestrator.py:356 | a range of one slide is its div |
| IndexPage.DivsAround | orchestration/pdf_to_slides_orchestrator.py:342-359 | slide i's div sits between the divs before and after it |
| IndexPage.DivInside | orchestration/pdf_to_slides_orchestrator.py:342-359 | whatever surrounds the divs contains slide i's div |
| IndexPage.CounterInside | orchestration/pdf_to_slides_orchestrator.py:334 | the counter shows in what surrounds it |
| IndexPage.IndexCounter | orchestration/pdf_to_slides_orchestrator.py:334 | the page for N slides shows `1 / N` |
| IndexPage.IndexLayout | orchestration/pdf_to_slides_orchestrator.py:308-377 | the page is the header, the divs of slides 0 to N-1 in order, then the footer |
| IndexPage.SlideInIndex | skills/orchestrator_skill/generate_presentation.py:169-186 | every slide's div is in the page |
| IndexPage.SlideDivAttributes | skills/orchestrator_skill/generate_presentation.py:169-186 | slide i has id and number i+1, and only slide 0 is displayed |
| IndexPage.CleanDocument | skills/orchestrator_skill/generate_presentation.py:174-179 | a complete document is cut down to the stripped content of its body |
| ContentAnalyzer.FirstMissing | skills/content_analyzer_skill/analyze_content.py:155-158 | the first required field, in order, that the record lacks |
| ContentAnalyzer.SlideError | skills/content_analyzer_skill/analyze_content.py:147-168 | no error exactly for a well-formed slide; a non-dict, then the first missing field, then the first wrong type is reported |
| ContentAnalyzer.ContentChecked | skills/content_analyzer_skill/analyze_content.py:167-168 | content that is not a list is reported as such |
| ContentAnalyzer.SetDefault | skills/content_analyzer_skill/analyze_content.py:171-181 | a missing key gets the default; a present value and every other key are untouched |
| ContentAnalyzer.ExtendsTrans | skills/content_analyzer_skill/analyze_content.py:171-181 | keeping entries in place composes |
| ContentAnalyzer.FillDefaults | skills/content_analyzer_skill/analyze_content.py:171-181 | HasData, Data, NeedsImage and ImageKeywords get False, "", False, "" when missing; present values and other keys are untouched |
| ContentAnalyzer.SetDefaultChain | skills/content_analyzer_skill/analyze_content.py:171-181 | four defaults set in turn for four different keys act independently |
| ContentAnalyzer.SetDefaultOther | skills/content_analyzer_skill/analyze_content.py:171-181 | a default for one key leaves every other key alone |
| ContentAnalyzer.FirstFailure | skills/content_analyzer_skill/analyze_content.py:150-168 | the first slide whose check fails, or none |
| ContentAnalyzer.ValidateSlides | skills/content_analyzer_skill/analyze_content.py:150-181 | the first failing slide's error; the slides before it are filled in place and the rest untouched |
| ContentAnalyzer.FirstFailureAt | skills/content_analyzer_skill/analyze_content.py:150-168 | a malformed slide after well-formed ones is the first failure |
| ContentAnalyzer.FirstFailureIs | skills/content_analyzer_skill/analyze_content.py:150-168 | the first slide whose check fails is the one reported |
| ContentAnalyzer.FillAll | skills/content_analyzer_skill/analyze_content.py:150-181 | every slide filled, in order |
| ContentAnalyzer.ValidateSlideData | skills/content_analyzer_skill/analyze_content.py:137-181 | the array run equals the validation of the decoded value |
| ContentAnalyzer.ValidationAccepts | skills/content_analyzer_skill/analyze_content.py:147-181 | a list passes exactly when all its slides are well formed; then every slide is well formed and has the four optional fields |
| ContentAnalyzer.FilledWellFormed | skills/content_analyzer_skill/analyze_content.py:171-181 | filling keeps a slide well formed and gives it the four optional fields |
| ContentAnalyzer.ValidationRejects | skills/content_analyzer_skill/analyze_content.py:150-168 | a failing list reports its first failing slide |
| ContentAnalyzer.ValidationIdempotent | skills/content_analyzer_skill/analyze_content.py:137-181 | validating a validated list changes nothing |
| ContentAnalyzer.FillDefaultsIdempotent | skills/content_analyzer_skill/analyze_content.py:171-181 | filling twice is filling once |
| ContentAnalyzer.AnalyzeContent | skills/content_analyzer_skill/analyze_content.py:84-135 | a missing `pdf_content` raises `ValueError`; every later failure is a `RuntimeError` with the failure prefix |
| ContentAnalyzer.AnalyzeDirect | skills/content_analyzer_skill/analyze_content.py:113-120 | a reply that decodes to well-formed slides comes back as the filled slides, serialised |
| ContentAnalyzer.AnalyzeFallback | skills/content_analyzer_skill/analyze_content.py:122-135 | a reply that does not decode, holding one `[{`…`}]` array with no `[` before it and no `}` after it, gives the filled serialised slides when the array decodes to well-formed slides, and the decode error when it does not decode |
| ContentAnalyzer.AnalyzeSpan | skills/content_analyzer_skill/analyze_content.py:122-135 | a reply that does not decode is answered from the array the search finds: the decode error, or the array's validated slides |
| ContentAnalyzer.FinishAccepts | skills/content_analyzer_skill/analyze_content.py:113-120 | well-formed slides finish as their filled serialisation |
| ContentAnalyzer.AnalyzeNoArray | skills/content_analyzer_skill/analyze_content.py:122-135 | a reply that does not decode and has no slide array, for instance none with a `[`, raises the no-array error |
| ThemeLayout.ThemeConfig | skills/theme_layout_skill/get_theme_and_layout.py:123-132 | four keys in order; a value that is not matched gets its default; a matched one is a stripped `[\w\s-]+` group; the CSS class is fixed |
| ThemeLayout.FallbackDecodes | skills/theme_layout_skill/get_theme_and_layout.py:127-134 | the fallback is the serialisation of the four-key configuration |
| ThemeLayout.ParseThemeReply | skills/theme_layout_skill/get_theme_and_layout.py:110-134 | the answer is always JSON the parser accepts or the fallback configuration of the reply |
| ThemeLayout.ReplyIsConfiguration | skills/theme_layout_skill/get_theme_and_layout.py:110-134 | the answer is always JSON the parser accepts or the four-key fallback |
| ThemeLayout.ThemeFromJsonBlock | skills/theme_layout_skill/get_theme_and_layout.py:110-134 | a reply that is one `json` or untagged block gives the block's stripped interior when that decodes, and the fallback configuration when it does not |
| ThemeLayout.ThemeWithoutBlock | skills/theme_layout_skill/get_theme_and_layout.py:110-134 | a reply without a fenced block, for instance without any fence, gives the fallback configuration even when it decodes itself |
| ThemeLayout.ThemeFromLine | skills/theme_layout_skill/get_theme_and_layout.py:123-132 | a reply `Theme: v` names theme v |
| ThemeLayout.GetThemeAndLayout | skills/theme_layout_skill/get_theme_and_layout.py:67-137 | a missing `slide_data` raises `ValueError`; the model's failure becomes a prefixed `RuntimeError`; otherwise the parsed reply |
| SlideGenerator.SubstitutionInOrder | skills/slide_generator_skill/generate_slide.py:95-99 | `SlidePrompt`: placeholders are replaced in turn, so slide data reading `{{theme}}` becomes the theme |
| SlideGenerator.PlainTemplate | skills/slide_generator_skill/generate_slide.py:95-99 | a template without placeholders is the prompt as it stands |
| SlideGenerator.HtmlCode | skills/slide_generator_skill/generate_slide.py:122-135 | always starts with `<`; the extracted code, wrapped in a slide div unless it starts with `<` |
| SlideGenerator.MarkupKept | skills/slide_generator_skill/generate_slide.py:122-135 | markup is kept as it is; extracting again changes nothing |
| SlideGenerator.HtmlFromBlock | skills/slide_generator_skill/generate_slide.py:123-129 | an `html` block around markup gives that markup, stripped |
| SlideGenerator.EmptyReplyWrapped | skills/slide_generator_skill/generate_slide.py:132-135 | an empty reply gives an empty slide div |
| SlideGenerator.GenerateSlide | skills/slide_generator_skill/generate_slide.py:83-138 | missing `slide_data`, then `theme`, raise; the optional keys default to ""; the model's failure becomes a prefixed `RuntimeError` |
| DataVisualization.DataReplacedFirst | skills/data_visualization_skill/create_visualization.py:88 | `VisualizationPrompt`: `{{data}}` is replaced first, so data reading `{{slide_data}}` becomes the slide data |
| DataVisualization.SlideDataReplacedSecond | skills/data_visualization_skill/create_visualization.py:88 | slide data reading `{{data}}` stays as it is |
| DataVisualization.JsCode | skills/data_visualization_skill/create_visualization.py:111-120 | the block's interior or the stripped reply, never with surrounding whitespace and with no further block |
| DataVisualization.JsCodeIdempotent | skills/data_visualization_skill/create_visualization.py:111-120 | extracting again changes nothing |
| DataVisualization.JsFromBlock | skills/data_visualization_skill/create_visualization.py:112-118 | a `javascript`, `js` or untagged block gives its code, stripped |
| DataVisualization.CreateVisualization | skills/data_visualization_skill/create_visualization.py:78-123 | missing `data`, then `slide_data`, raise; the model's failure becomes a prefixed `RuntimeError`; the result is trimmed |
| PresentationSkill.SlideItems | skills/orchestrator_skill/generate_presentation.py:99-110 | a list, dict or string can be iterated; any other value raises the `len()` error |
| PresentationSkill.SlideEntry | skills/orchestrator_skill/generate_presentation.py:111-117 | `.get` on a non-dict raises; a missing HTML or narration defaults to "" |
| PresentationSkill.FirstUnreadable | skills/orchestrator_skill/generate_presentation.py:110-117 | the first slide that cannot be read, or none |
| PresentationSkill.Entries | skills/orchestrator_skill/generate_presentation.py:110-117 | every slide read, in order, or the first unreadable slide's error |
| PresentationSkill.Htmls | skills/orchestrator_skill/generate_presentation.py:169-186 | each slide's HTML, in order |
| PresentationSkill.FirstBadNarration | skills/orchestrator_skill/generate_presentation.py:117-121 | the first narration that cannot be written, or none |
| PresentationSkill.WriteSlides | skills/orchestrator_skill/generate_presentation.py:110-121 | the file loop writes what the specification function says |
| PresentationSkill.FirstBadNarrationAt | skills/orchestrator_skill/generate_presentation.py:117-121 | a bad narration after good ones is the first |
| PresentationSkill.NarrationWrittenIffNonEmpty | skills/orchestrator_skill/generate_presentation.py:110-121 | every slide's HTML is written; a narration file exactly for a truthy narration |
| PresentationSkill.ReadSlides | skills/orchestrator_skill/generate_presentation.py:80-99 | reading succeeds only with all three keys present |
| PresentationSkill.ReadSlidesStep | skills/orchestrator_skill/generate_presentation.py:80-99 | the checks, step by step, are the specified checks |
| PresentationSkill.GeneratePresentation | skills/orchestrator_skill/generate_presentation.py:66-129 | the skill, step by step, is the specified generation |
| PresentationSkill.FinishStep | skills/orchestrator_skill/generate_presentation.py:110-126 | writing the slide files after the index is the specified finish |
| PresentationSkill.FailuresBeforeIndex | skills/orchestrator_skill/generate_presentation.py:80-107 | a failure before the index is written is a `ValueError` exactly for a missing key, and nothing is written |
| PresentationSkill.GenerationSucceeds | skills/orchestrator_skill/generate_presentation.py:94-126 | readable slides give the success message, the titled index page and every slide file |
| PresentationSkill.IndexOfSlides | skills/orchestrator_skill/generate_presentation.py:161-186 | the page shows `1 / N` and every slide's div |
| TestingSkill.ExpectedOutput | skills/native_skills/testing.py:59 | the expected output, "" when absent |
| TestingSkill.SimulateAgentInteraction | skills/native_skills/testing.py:113-130 | never raises; the mock output, or the default one |
| TestingSkill.ValidateResultMeaning | skills/native_skills/testing.py:146-151 | `ValidateResult`: any result holding the expected output passes; with an expected output, a result passes exactly when `find` locates it |
| TestingSkill.MockPasses | skills/native_skills/testing.py:113-151 | the mock output passes a case that expects nothing or expects exactly it |
| TestingSkill.Outcome | skills/native_skills/testing.py:47-80 | one result per case; passed exactly when it returned and validated; the message fits the outcome; a raising case has no output |
| TestingSkill.CountPassed | skills/native_skills/testing.py:65-66 | never more passes than results |
| TestingSkill.CountPassedSnoc | skills/native_skills/testing.py:63-66 | one more result adds one exactly when it passed |
| TestingSkill.AllPassedCount | skills/native_skills/testing.py:65-70 | all passed exactly when the count of passes is the number of results |
| TestingSkill.Outcomes | skills/native_skills/testing.py:44-85 | one result per case, in order |
| TestingSkill.RunTestCases | skills/native_skills/testing.py:36-85 | the total is the number of cases; passes and failures add up to it; passes count the passed results |
| TestingSkill.ReportPath | skills/native_skills/testing.py:88 | the report is a `test_report.json` |
| TestingSkill.ReportBesideConfig | skills/native_skills/testing.py:88 | the report of `dir/config.json` goes to `dir/test_report.json` |
| TestingSkill.TestAgentInteractions | skills/native_skills/testing.py:33-92 | the loop's counters and results, and the summary built from them |
| TestingSkill.SimulatedRun | skills/native_skills/testing.py:44-130 | with the simulated interaction every result carries the mock output, and cases that expect nothing all pass |
| TestingSkill.RaisingCaseFails | skills/native_skills/testing.py:72-83 | a raising case fails, has no output, and keeps the pass count below the total |

## Left out

- PDF parsing (`fitz`) is not modelled. Pages are given as sequences of blocks of span records, and page text as line strings. The table of contents is a given list.
- The LangChain loaders, the recursive, markdown and token splitters, and `split_documents` are uninterpreted functions. Only which splitter is chosen, and with which sizes, is modelled. LangChain's splitter constructors raise `ValueError` when `chunk_overlap` exceeds `chunk_size` (for instance `chunk_size=100` with the default overlap of 200), which the source reports as `Error processing PDF: …`. The model's `split` is total and never raises that error.
- `extract_images`, `_extract_with_pymupdf_fallback` and the image-processing helpers are not modelled. They are file and PIL I/O. The image list is a parameter.
- Every language-model and agent call is a function parameter that returns the reply or the message of what it raised. The prompt template text is a parameter (skills) or a `Prompt` value (orchestrator).
- `json.loads` is an abstract parser. `json.dumps` of arbitrary values is an abstract serialiser. Only `json.dumps` of the theme's string-valued object is written out.
- The wording of a `json.JSONDecodeError` message is a named constant, because the abstract parser does not give it.
- Orchestrator.ConvertPdfToSlides: it does not model `_generate_presentation_files` (`orchestration/pdf_to_slides_orchestrator.py:274-306`). That function's file writes are the same as those of the presentation skill, which are modelled. The orchestrator's index page is modelled.
- PdfPresentation.Extraction: the result's `metadata` entry is omitted from the record. It holds the parser's title, author, subject, keywords and page count with the file path, or, when the file cannot be opened, the file path and the error. The model keeps that error in `NoStructure`, where the source's structure is an empty dict.
- File writes and `os.makedirs` are not modelled as I/O. The presentation skill's model records which files would get which content. The CSS and JavaScript assets are constant templates and are left out.
- PresentationSkill.SlideEntry: a slide whose `SlideHtml` is not a string is read as the failure `SlideHtmlNotText`, which stands for the source's `TypeError` message, and nothing is written. For a number, a boolean or `null`, and for a list or dict holding `"<html"`, that is what the source does: the `"<html" in slide_html` test, or the `re.search` after it, raises while the index page is built, before any file is written. A list or dict without `"<html"` goes further in the source when no slide raises while the page is built. The index page is written with the value's `repr` in it, then the files of the slides before that one, and the write of that slide raises. The model does not capture those writes.
- `_load_test_config` is file I/O. The test cases are given. A case's missing `name` would raise `KeyError`, and that is not modelled.
- `asyncio.gather`, `run_in_executor` and the unused semaphore are modelled as a sequential map that keeps order and stops at the first failure in list order. Which failure is reported first when several tasks fail concurrently is not modelled.
- The `print` calls and the `asyncio.sleep` in the simulated interaction are left out.
- Paths are `/`-separated POSIX paths. Windows drive letters and separators are not modelled.
- Header confidence is in integer tenths rather than floats. Font size is a `real` used only as part of the profile key.
- `\w` and case mapping cover ASCII and the Vietnamese letters the patterns name. Other Unicode letters are not modelled.
- PdfStructure.NumberedHeading: Python's `\d` matches every Unicode decimal digit, while `Text.IsDigit` is `0` to `9`. A line such as `١. Introduction` (an Arabic-Indic digit) is a numbered header in the source but not in the model.
- TestingSkill.TestCase: `expected_output` and `mock_output` are optional strings. A JSON `null` or number in the test configuration is not represented. A `null` expected output would pass like a missing one, since the source tests `not expected_output`. A zero would pass in the same way. A non-zero number would raise `TypeError` at `in` and be recorded as a raising case.
- PdfStructure.SectionsPagesOrdered: order across pages is stated for the sections of each page's header list. Order between two header lines of different pages follows by composing it with `PageHeaderLine`; no single lemma states it.
- `orchestration/semantic_kernel_integration.py`, `main.py`, the file-system, image-search and narration skills are not part of this model. They are service set-up, CLI handling, I/O or thin model wrappers.

## Findings

| source | as written | input that shows it | evidently intended | confidence | as-written member | corrected member |
|---|---|---|---|---|---|---|
| orchestration/pdf_to_slides_orchestrator.py:99 | the first step awaits `self.pdf_tool.extract_content(...)`, which `PDFExtractionSkill` does not define, so every conversion returns `Error: 'PDFExtractionSkill' object has no attribute 'extract_content'` | any call, e.g. a PDF that extracts, an empty slide analysis and agents that all answer | call `extract_and_chunk_content` (`skills/native_skills/pdf_extraction.py:65`) and go on to analysis and slide processing | not executed | Orchestrator.ConvertAsWritten, Orchestrator.AsWrittenFailsWhereIntendedSucceeds | Orchestrator.ConvertPdfToSlides, Orchestrator.ConversionSucceeds |
