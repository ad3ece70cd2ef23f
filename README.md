# PDF comparison core in Dafny

This project models the core of a PDF comparison web application. The tool extracts the
text of two PDF documents line by line. Before each page's text it writes a sentinel line
(`"\0PAGE:" + n`). It then optionally filters the lines under user-chosen ignore rules:

- collapse whitespace;
- fold case;
- drop lines a user pattern matches;
- drop page-number headers and footers.

Next it diffs the two line lists with an opcode-producing sequence matcher. The result is a
list of blocks, each carrying its page numbers and, for replaced blocks, word-level spans. It
also counts equal, inserted, deleted and modified lines, compares the two documents'
metadata, and renders a Markdown impact report. A second part prepares a request to a
language-model provider:

- walk the decoded JSON response along the provider's path of keys;
- build the user prompt;
- look the provider up;
- cut an over-long prompt;
- check the endpoint URL against server-side request forgery.

The model is written in the source's own shapes:

- The loops of `_build_page_index`, `apply_ignore_rules`, `compute_diff`,
  `compute_word_diffs`, `compare_metadata`, `generate_report`, `_extract_response` and
  `_validate_endpoint` are methods with loop invariants.
- Each of those methods is proved equal to a specification function over sequences.
- The properties the source promises are proved as lemmas about those functions.
- The sequence matcher (`difflib.SequenceMatcher`), the user's regular-expression engine,
  name resolution and address classification are parameters. Their results are constrained
  only by what the code relies on.

| File | Module | Models |
|---|---|---|
| `text.dfy` | `Text` | the Python string operations the core uses: `split`, `" ".join`, `lower`, `strip`, `startswith`, `int`, `str`, string ordering |
| `pages.dfy` | `Pages` | page sentinels, `_page_number_from_marker`, `_build_page_index`, the content-only line lists |
| `ignore_rules.dfy` | `IgnoreRules` | `apply_ignore_rules` and its two fixed header/footer patterns |
| `opcodes.dfy` | `Opcodes` | the contract of a matcher's opcode script, and a small stand-in matcher used in examples |
| `word_diff.dfy` | `WordDiff` | `compute_word_diffs` |
| `line_diff.dfy` | `LineDiff` | `compute_diff`: blocks, pages, word diffs, statistics |
| `metadata.dfy` | `Metadata` | `compare_metadata` |
| `report.dfy` | `Report` | `generate_report` as a list of lines |
| `llm.dfy` | `Llm` | `_extract_response`, `_build_user_prompt`, provider lookup and prompt truncation, `_validate_endpoint` |

## Model

| member | source | states |
|---|---|---|
| `Text.StartsWith` | app.py:74-76 | true exactly when the prefix is no longer than the line and equals the line's first characters |
| `Text.SkipWhile` | app.py:142 | the scan from `i` stops at the end of the maximal run of characters with the property: every character passed has it and the one it stops at does not |
| `Text.SkipWhileExact` | app.py:142 | any position that ends such a maximal run is the one the scan returns, so the scan decides the regular expression's runs uniquely |
| `Text.WordLen` | app.py:122-123 | the length of the leading run of non-whitespace, followed by whitespace or the end of the line |
| `Text.Split` | app.py:122-123 | `str.split()` yields only non-empty pieces without whitespace |
| `Text.JoinAppend` | app.py:122-123 | joining two non-empty word lists with single spaces equals joining each and putting one space between |
| `Text.SplitJoin` | app.py:122-123 | splitting words that were joined with single spaces gives the words back |
| `Text.CollapseIdempotent` | app.py:122-123 | collapsing whitespace twice is the same as collapsing it once |
| `Text.CollapseShape` | app.py:122-123 | a collapsed line has no whitespace at either end, and only single plain spaces between words |
| `Text.LowerChar` | app.py:125-126 | an ASCII capital becomes the small letter 32 code points above it, and any other character is unchanged |
| `Text.Lower` | app.py:125-126 | lower-casing keeps the length and works character by character |
| `Text.LowerIdempotent` | app.py:125-126 | lower-casing twice is the same as once |
| `Text.SplitLower` | app.py:122-126 | splitting a lower-cased line gives the lower-cased words |
| `Text.CollapseLower` | app.py:122-126 | collapsing whitespace and lower-casing commute, so the order of the two rules does not matter |
| `Text.Strip` | app.py:140 | the stripped line is no longer and has no whitespace at either end |
| `Text.StripIsInfix` | app.py:140 | the stripped line is the original minus its leading and trailing whitespace, and only whitespace is removed |
| `Text.StripAllSpace` | app.py:140 | a line of only whitespace strips to the empty string |
| `Text.NatToString` | app.py:343-346 | a count is rendered as a non-empty string of decimal digits |
| `Text.DigitsOfNat` | app.py:343-346 | reading the rendered digits back gives the count |
| `Text.ParseRendered` | app.py:79-81 | `int(str(i)) == i` for every integer, negative ones included |
| `Text.ParseIntAccepts` | app.py:79-81 | text made of whitespace, an optional `+` or `-`, at least one digit and whitespace parses, to the signed value of the digits |
| `Text.ParseIntShape` | app.py:79-81 | only such text parses: every text `int` accepts splits into those four parts, and its value is the signed value of the digits |
| `Text.LessIrreflexive` | app.py:285 | no string sorts before itself |
| `Text.LessTransitive` | app.py:285 | the string order used by `sorted` is transitive |
| `Text.LessAsymmetric` | app.py:285 | two strings never sort before each other |
| `Text.LessTotal` | app.py:285 | of two different strings one sorts before the other |
| `Pages.PageNumberFromMarker` | app.py:79-81 | a page number is produced only when something follows the sentinel prefix |
| `Pages.PageNumberOfShape` | app.py:79-81 | a sentinel whose suffix is whitespace, an optional sign, digits and whitespace reads as the signed value of the digits |
| `Pages.PageNumberShape` | app.py:79-81 | every sentinel that reads as a page has such a suffix, so every other sentinel gives `None` where `int` raises |
| `Pages.PageNumberExamples` | app.py:79-81 | `"\0PAGE: +07 "` reads as page 7, and `"\0PAGE:7a"` gives `None` |
| `Pages.MarkerRoundTrip` | app.py:74-81 | the sentinel written for page `n` is recognised as a sentinel and reads back as `n` |
| `Pages.PageSetBy` | app.py:92-94 | a line sets a page exactly when it is a sentinel whose number parses, and then it sets that number |
| `Pages.PageAtLastMarker` | app.py:84-96 | the page at a line is the number of the last sentinel at or before it |
| `Pages.PageAtBeforeAnyMarker` | app.py:90-91 | lines before the first sentinel are on page 1 |
| `Pages.BuildPageIndex` | app.py:84-96 | fails exactly when some sentinel's number does not parse; otherwise one entry per line, each the page in effect there |
| `Pages.ThreePages` | tests/test_app.py:43-61 | for any seven lines shaped like pages `a`, `b`, `c`, each line gets the page of the sentinel before it |
| `Pages.ThreePageExample` | tests/test_app.py:43-61 | the expected index `[1, 1, 1, 2, 2, 3, 3]` for the three-page example |
| `Pages.ContentPositions` | app.py:178-179 | the strictly increasing original positions of exactly the non-sentinel lines |
| `Pages.StripMarkers` | app.py:181-182 | the content-only list holds no sentinel and is no longer than the input |
| `Pages.StripMarkersAt` | app.py:178-182 | the `k`-th content line is the line at the `k`-th content position |
| `Pages.StripMarkersNoMarkers` | app.py:178-182 | a list without sentinels is its own content-only list |
| `IgnoreRules.BarePageNumberIsRegex` | app.py:142 | the scan accepts exactly the strings that `[-–—\s]*\d+[-–—\s]*` matches in full |
| `IgnoreRules.OfClauseIsRegex` | app.py:145 | the scan accepts exactly the suffixes that `\s+of\s+\d+` matches, ignoring case |
| `IgnoreRules.PageFooterIsRegex` | app.py:145 | the scan accepts exactly the strings that `page\s+\d+(\s+of\s+\d+)?` matches in full, ignoring case |
| `IgnoreRules.PageOfFooterExample` | app.py:144-146 | "Page 3 of 10" is dropped as a footer |
| `IgnoreRules.DashedNumberExample` | app.py:141-143 | "– 5 –" is dropped as a bare page number |
| `IgnoreRules.PageSummaryExample` | app.py:144-146 | "Page 3 Summary" is not a footer |
| `IgnoreRules.ApplyIgnoreRules` | app.py:103-149 | the loop's output is the line-by-line filtered list, never longer than the input |
| `IgnoreRules.KeptPositions` | app.py:116-148 | the strictly increasing positions of exactly the input lines that survive |
| `IgnoreRules.FilterLineKeeps` | app.py:116-148 | a surviving line is kept normalised, and a sentinel always survives unchanged |
| `IgnoreRules.FilteredOrigins` | app.py:103-149 | the output has one line per surviving input line, in order, each that input line as normalised |
| `IgnoreRules.MarkersKept` | app.py:117-120 | every sentinel's position survives |
| `IgnoreRules.MarkersSurvive` | app.py:113-120 | any two sentinels both appear in the output, in their original order |
| `IgnoreRules.NormalizeIdempotent` | app.py:122-126 | normalising a normalised line changes nothing |
| `IgnoreRules.FilterLineIdempotent` | app.py:116-148 | a line that survived survives a second pass unchanged |
| `IgnoreRules.FilterIdempotent` | app.py:103-149 | applying the same rules to already filtered lines changes nothing |
| `IgnoreRules.FilteredAppend` | app.py:116-149 | lines are filtered independently: filtering a concatenation concatenates the results |
| `IgnoreRules.InertPatternIgnored` | app.py:128-137 | a pattern over 500 characters, or one that never matches (an invalid one included), filters exactly as no pattern |
| `IgnoreRules.OptionExamples` | tests/test_app.py:81-88 | with every option on, a sentinel passes through unchanged |
| `IgnoreRules.WhitespaceExample` | tests/test_app.py:81-88 | with whitespace ignored, "  Hello   World  " becomes "Hello World" and the sentinel after it is untouched |
| `IgnoreRules.CaseExample` | tests/test_app.py:90-95 | with case ignored, "HeLLo" is kept as "hello" |
| `Opcodes.WellFormedTiles` | app.py:186-194 | a well-formed opcode script tiles both line lists in order; inserts take no left line and deletes no right line; equal ranges hold identical lines |
| `Opcodes.PosMonotone` | app.py:192-194 | the positions the opcodes reach on each side never go back and stay within the lists |
| `Opcodes.TrimMatcherWellFormed` | app.py:186-187 | the stand-in matcher (common prefix, one changed middle, common suffix) meets the opcode-script contract |
| `Opcodes.TrimMatcherIdentical` | app.py:186-187 | identical lists give a single `equal` opcode, or no opcode when empty |
| `WordDiff.PairSpans` | app.py:251-271 | the spans built by the opcode loop for one line pair are those `Refine` defines (see the next rows for what they are) |
| `WordDiff.ComputeWordDiffs` | app.py:233-272 | one entry per position of the longer side, each the refinement of the two lines there, a missing line counting as "" |
| `WordDiff.SpanTags` | app.py:258-269 | left spans are only equal or delete, right spans only equal or insert |
| `WordDiff.EqualSpansAgree` | app.py:259-262 | the equal spans carry the same texts on both sides |
| `WordDiff.RefineReconstructs` | app.py:251-269 | each side's span texts, joined with spaces, give that line with its whitespace collapsed: no word lost or invented |
| `WordDiff.RefineTags` | app.py:238-269 | the tag discipline and the shared equal texts hold for every line pair |
| `LineDiff.PageIndex` | app.py:173-174 | one page entry per line of the document |
| `LineDiff.SideOf` | app.py:178-182 | each content line is recorded with an original position that holds that very line |
| `LineDiff.LineOps` | app.py:186-187 | the script the matcher returns is well formed over the two content-only lists |
| `LineDiff.MakeBlock` | app.py:193-218 | the block built for one opcode is the one `BlockFor` defines |
| `LineDiff.CountOp` | app.py:220-228 | one opcode adds its line count to its own tag's counter; a replace adds the larger side |
| `LineDiff.ProcessOpcodes` | app.py:189-228 | the loop yields one block per opcode and the summed statistics |
| `LineDiff.ComputeDiff` | app.py:156-230 | fails exactly when a sentinel's page number does not parse; otherwise it returns the specified diff |
| `LineDiff.BlocksAt` | app.py:192-218 | the `k`-th block is built from the `k`-th opcode |
| `LineDiff.BlocksReconstruct` | app.py:193-194 | the blocks' left lines, in order, are exactly document A's content lines, and their right lines are exactly document B's |
| `LineDiff.BlockPages` | app.py:201-203 | a block's page is missing exactly when it starts past the last content line; otherwise it is the page in effect at that line's original position |
| `LineDiff.BlockWordDiffs` | app.py:196-217 | exactly the replace blocks carry word diffs, one per line of their longer side |
| `LineDiff.StatsCover` | app.py:220-228 | `equal + delete + replace` covers every content line of A and `equal + insert + replace` every one of B |
| `LineDiff.BasicDiffExample` | tests/test_app.py:63-79 | A/B/C against A/X/C gives two equal lines, one modified line and a replace block |
| `Metadata.SortKeys` | app.py:285 | the keys in strictly ascending order, each present exactly once |
| `Metadata.CompareMetadata` | app.py:279-291 | the fields in ascending order are exactly the keys of either map whose rendered values differ, each with both rendered values |
| `Metadata.AscendingUnique` | app.py:285 | two ascending lists with the same elements are equal, so the sorted order is determined |
| `Metadata.MetadataDiffUnique` | app.py:279-291 | the contract of `CompareMetadata` determines its result completely |
| `Report.Header` | app.py:329-354 | the summary is always 24 lines |
| `Report.OfTag` | app.py:372-374 | exactly the blocks with the given tag, no more than there were blocks |
| `Report.OfTagAppend` | app.py:372-374 | filtering a concatenation is filtering each part, so the tagged blocks keep the diff's order |
| `Report.OfTagSingle` | app.py:372-374 | a single block is kept exactly when it has the tag |
| `Report.Truncate` | app.py:426-429 | a text within the limit is unchanged; a longer one keeps its first `n` characters and gets "…" |
| `Report.ItemLines` | app.py:389-432 | a modified block is listed in three lines and an added or removed block in one |
| `Report.MoreLines` | app.py:394-395 | the `(and N more…)` line appears exactly when there are more than ten blocks |
| `Report.AppendListing` | app.py:389-393 | the loop appends the numbered listing of the first blocks to the report |
| `Report.AppendSection` | app.py:381-435 | appends a category's section: nothing when it has no blocks |
| `Report.CollectConsequences` | app.py:445-461 | the consequence bullets collected in the source's order |
| `Report.AppendAnalysis` | app.py:368-466 | the severity, the three sections, the consequences and the footer |
| `Report.GenerateReport` | app.py:315-468 | the whole report, line by line |
| `Report.EarlyExit` | app.py:356-368 | the report starts with the summary; it ends right after it with the "identical" sentence exactly when nothing changed; otherwise the severity verdict follows |
| `Report.SeverityTiers` | app.py:360-366 | High exactly when `changed * 100 > 30 * total`, Medium exactly when `10 * total < changed * 100 <= 30 * total`, Low when `total` is 0 |
| `Report.PctCompare` | app.py:361-363 | comparing the percentage with a threshold is the same as comparing `changed * 100` with `threshold * total` |
| `Report.ConsequencesOrder` | app.py:445-461 | each bullet appears exactly when it applies, in the order removed, added, modified, high volume |
| `Report.HighVolumeIffHigh` | app.py:459-461 | the high-volume bullet appears exactly when the severity is High |
| `Report.ListingLength` | app.py:389-432 | listing `k` blocks takes three lines each for modifications and one otherwise |
| `Report.MoreLinesCount` | app.py:394-395 | the `(and N more…)` line is counted once when there are more than ten blocks and never otherwise |
| `Report.SectionShape` | app.py:381-435 | a section is empty exactly when it has no blocks; otherwise four heading lines, at most ten listed blocks, the `(and N more…)` line with N = count − 10 only above ten, and a blank line |
| `Report.SectionMoreLines` | app.py:389-395 | below its heading a section holds exactly one `(and N more…)` line when over ten blocks and none otherwise, so no listed line can be taken for one |
| `Report.PreviewBound` | app.py:390-392 | a preview is at most one character longer than the limit, and a short one is the joined lines unchanged |
| `Llm.ExtractResponse` | llm.py:84-98 | the loop's result is the walk along the keys |
| `Llm.WalkAppend` | llm.py:87-98 | walking a path in two parts equals walking the whole, and the first failure stops the walk |
| `Llm.StepCases` | llm.py:88-97 | a step fails on a non-container, a missing key, a non-integer list key or an index at or past the length; a negative index counts from the end, and one below `-len` raises `IndexError` |
| `Llm.WalkFails` | llm.py:87-97 | a failed walk fails at one step, reached along a prefix of the path that walks successfully |
| `Llm.ExtractExamples` | tests/test_llm.py:66-76 | the chat response yields "Hello"; an error body without `choices` is rejected; the empty path returns the data itself |
| `Llm.PromptNames` | llm.py:146-149 | the prompt starts with the documents heading and carries both names at fixed offsets |
| `Llm.PromptStats` | llm.py:150-154 | the four counts follow in the order unchanged, inserted, deleted, modified |
| `Llm.PromptFence` | llm.py:155 | the diff sits verbatim at the end, between an opening and a closing fence |
| `Llm.ProviderLookup` | llm.py:275-280 | exactly the four table names are known, and each names its own provider |
| `Llm.ProviderNameRoundTrip` | llm.py:275-280 | every provider is found under its own name |
| `Llm.OpenAIPathExample` | llm.py:271 | the OpenAI path reaches the content of a chat response, and LM Studio uses the same path |
| `Llm.Truncated` | llm.py:319-321 | a prompt within 80,000 characters is unchanged; a longer one keeps its first 80,000 characters and gets the truncation note |
| `Llm.PrepareLlmRequest` | llm.py:311-321 | an unknown provider is reported exactly when the name is not one of the four; otherwise that provider gets the built prompt, truncated |
| `Llm.ShortPromptSentWhole` | llm.py:315-321 | a prompt within the limit reaches the provider with its diff intact |
| `Llm.ValidateEndpoint` | llm.py:101-133 | the guards and the address loop reach the verdict `Validate` defines |
| `Llm.PreChecksFirst` | llm.py:110-120 | a URL rejected on its own is rejected the same way whatever the name resolves to |
| `Llm.AcceptedIff` | llm.py:101-133 | accepted exactly when there is no fragment, the scheme is http(s), the host is not blocked, does not start with "0" and is not "[::]", it resolves, and every address is neither reserved nor link-local and, unless local is allowed, neither private nor loopback |
| `Llm.AllowLocalOnlyWidens` | llm.py:130-133 | allowing local addresses can only turn a rejection into an acceptance, and leaves every other verdict as it was |
| `Llm.LinkLocalAlwaysRejected` | llm.py:130-131 | a reserved or link-local address is rejected even when local addresses are allowed |
| `Llm.EndpointExamples` | tests/test_llm.py:32-49 | the metadata hosts and the `ftp` and `file` schemes are rejected whatever the name resolves to |
| `Llm.LocalEndpointExample` | tests/test_llm.py:51-57 | `http://localhost:11434`, resolving to a loopback address, is accepted with local allowed and rejected without |

## Left out

- PDF text and metadata extraction (`extract_text_and_metadata`) is not part of this model. Documents enter as line lists that already hold the page sentinels. Metadata enters as maps whose values are strings or integers.
- The Flask routes, upload handling, sessions and `config.py` are not part of this model.
- The sequence matcher is a parameter for both the line diff (`autojunk=False`) and the word diff. It is constrained only by the opcode-script contract the code relies on. Its choice of longest matching blocks is not modelled. `TrimMatcher` is a simple stand-in used in examples.
- `generate_unified_diff` (app.py:298-308) relies on `difflib.unified_diff`, which is not modelled. The sentinel stripping it shares with the diff is `Pages.StripMarkers`.
- `IgnoreRules.ApplyIgnoreRules`: the user pattern goes through a matcher parameter, because Python's `re` engine is not modelled. A regular-expression error and a timeout are one outcome. The source has no timeout of its own, although tests/test_app.py:97-115 expects one. Any other exception from `re` is not modelled: one that app.py:136 does not catch, such as the `OverflowError` that `re` raises for a pattern like `a{4294967295}`, aborts the whole comparison in the source, while the matcher parameter can only match, not match, or report a caught error.
- The two fixed header/footer patterns are proved equal to scans. `\s` and `\d` are taken over ASCII.
- Strings are sequences of characters without Unicode semantics. `lower`, `split`, `strip` and `int` are modelled for ASCII letters, digits and the whitespace `str.split` recognises among ASCII control characters. `int` accepts ASCII whitespace around an optional sign and decimal digits; underscores between digits are not accepted.
- `Text.ParseIntShape`: Python's `int` also accepts underscores between digits (`"1_000"`) and non-ASCII digits and whitespace. For such text the model returns `None` where the source reads a number, and `Pages.PageNumberShape` inherits this.
- `Pages.PageNumberFromMarker`: where `int` raises `ValueError` the model returns `None`. `Pages.BuildPageIndex` and `LineDiff.ComputeDiff` then return `None` instead of raising.
- `Report.GenerateReport` returns the list of report lines. The final `"\n".join` is not modelled.
- `Report.Header`: the current date and the `{pct:.1f}` rendering of the percentage are parameters, because clocks and float formatting are not modelled.
- `Report.SeverityTiers`: the percentage is an exact rational, not a binary float. The tiers are stated as integer comparisons. Floating-point rounding at exactly 10% or 30% is not modelled.
- The HTTP calls to the providers, `SYSTEM_PROMPT`, JSON decoding, `_safe_llm_request` and the error sanitising are not part of this model. Decoded JSON is a datatype whose numbers are integers.
- `Llm.ValidateEndpoint`: URL parsing, `getaddrinfo` and `ipaddress` classification are not modelled. The parsed URL, a resolver function and the four address flags are parameters. The string test for "[::]" is kept as written, although `urlparse` strips brackets from host names.
- `_sanitize_metadata_value`, `_detect_field` and the version endpoint, which the repository's tests refer to, are not part of this model: they do not appear in its source files.
