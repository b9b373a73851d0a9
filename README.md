# Subtitle2Text text extraction, modelled in Dafny

Subtitle2Text turns subtitle files into plain dialogue text. The input can be SRT, WebVTT, ASS/SSA, SBV or SMI/SAMI, or content it does not recognise. It has two browser front-ends:

- `script.js` extracts one file or pasted text at a time.
- `Src/script.js` extracts a batch of files and offers each result as a `.txt` download.

Both front-ends follow the same pipeline. `detectFormat` labels the content. `content.split(/\r?\n/)` cuts it into lines. A line-driven state machine for the detected format then feeds a cue buffer. That buffer is `currentTextLines`, which `finalizeCue` moves into `extractedText` as one line per cue. The result is `extractedText.trim()`.

The project models that pipeline in both front-ends:

- the two `detectFormat`s;
- every extraction branch;
- the tag cleaners `cleanHtmlTags` and `cleanSsaAssTags`;
- the `handleMerge` text transform;
- the file filter of `handleFiles`;
- the download name of `downloadTextFile`.

Regular expressions are written out as predicates, or as a small global-replace engine (`Rewrite`) covering the pattern shapes the cleaners use.

Both extraction functions are imperative closures. Each `lines.forEach` or `for` loop becomes a Dafny `method` with a `while` loop. The closure state (`extractedText`, `currentTextLines`, `finalizeCue`) becomes the class `Cues.CueBuffer`.

Every loop is proved against a specification function: a fold over the line index (`PassScan`, `AssScan`, `UnknownScan`, `SbvFrom`, `SamiScan`). Lemmas then characterise each fold by an independent reference definition, which states which lines reach the output, in which order and with which separators.

Modules:

- `JsString`: `trim`, `split`, `join`, case mapping and the line split.
- `Patterns`: the line regexes.
- `Rewrite`: global `replace`.
- `TagCleaners`: the two cleaners.
- `Cues`: the cue buffer.
- `Formats`: format labels, extension, accepted types and the content tests.
- `LineRules`: the STYLE block, the SRT sequence-number rule and ASS sections.
- `LinePass`: the SRT/VTT line pass, shared with SBV/UNKNOWN in `Src/script.js`.
- `AssEvents`: the ASS/SSA branch.
- `RootPasses`: the UNKNOWN and SBV branches of `script.js`.
- `Sami`: the SMI branch.
- `RootScript` and `SrcScript`: the two front-ends.
- `Merge`: `handleMerge`.

In a few places the code departs from the formats' usual conventions; the model follows the code:

- **Numbers and timing pairs can reach the output.** In the SRT/VTT line pass, a bare number line is dropped only in SRT, and only right before a timing line. `Src/script.js` also uses that pass for SBV and UNKNOWN content. So there, a digits-only line in VTT, SBV or UNKNOWN content is kept as text. An exact SBV timing pair is likewise kept as text outside SBV content. The UNKNOWN fallback of `script.js` is different: it drops every digits-only line (script.js:239).
- **A timing line wrapped in a tag reaches the output.** The SRT/WebVTT timing test looks at the raw line, anchored at its start (script.js:256). A line such as `<b>00:01.000 --> 00:02.000</b>` fails it, and cleaning then leaves the bare timing line, which is pushed as cue text (script.js:271-272).
- **`Src/script.js` confirms nothing for SBV.** Its `detectFormat` checks the file extension first. A line starting with an SBV timing pair is then enough for SBV, with no further confirmation.
- **The two front-ends treat `Comment:` events differently.** `Src/script.js` takes them as dialogue; `script.js` ignores them. Both behaviours are modelled, through the `withComments` switch.

## Model

| member | source | states |
|---|---|---|
| JsString.Trim | script.js:207 | `trim` gives a string that is empty or neither starts nor ends with JavaScript white space |
| JsString.TrimIsSlice | script.js:207 | the trimmed string is a slice of the input, and everything outside the slice is white space |
| JsString.TrimEmpty | script.js:228 | the trim is empty exactly when the input is blank (the `if (cueText)` test) |
| JsString.Split | script.js:290 | `split(',')` gives at least one part, and no part holds the separator |
| JsString.JoinSplit | script.js:292 | joining the parts of a split with the same separator gives back the input |
| JsString.SplitJoin | script.js:292 | splitting a join of separator-free parts gives back the parts |
| JsString.SplitLines | script.js:217 | `split(/\r?\n/)` gives as many lines as LF splits, with no LF in any line, and line 0 is a prefix of the content |
| JsString.LastIndexOf | script.js:172 | `lastIndexOf` is -1 or an index holding the character, and no later index holds it |
| JsString.ToLower | script.js:172 | lower-casing keeps the length and maps each character |
| Patterns.SbvPairShape | script.js:302 | an exact SBV timing pair is no SRT/VTT timing line and no sequence number, holds no `<` or `&`, and starts and ends with a digit |
| Patterns.ExactPairStarts | script.js:179 | a line that is exactly a timing pair starts with one (the `$`-anchored test implies the multi-line one) |
| Patterns.PairStartsInExtension | script.js:177 | a pair at an index stays a pair in any extension of the text |
| Rewrite.MatchAt | script.js:193-202 | a match of any of the regex shapes at an index is non-empty and ends inside the text |
| Rewrite.FindLiteralFirst | script.js:196 | the lazy `[\s\S]*?` stops at the first occurrence of the closing tag |
| Rewrite.ReplaceAbsent | script.js:193-206 | a global replace whose matches all begin with a character the text lacks leaves the text unchanged |
| Rewrite.ReplaceShrinks | script.js:193-206 | a replace whose substitute is never longer than its match never lengthens the text |
| Rewrite.ApplyRulesAbsent | script.js:193-201 | a chain of such replaces leaves text without the anchor character unchanged |
| Rewrite.MatchLength | script.js:196 | a match is at least as long as its pattern's shortest form, and its capture group is shorter than the match |
| Rewrite.SameUpToCaseLower | script.js:194-200 | the `i` flag's comparison: two strings agree up to case exactly when their lower-case forms are equal |
| Rewrite.FindLiteralShift | script.js:196 | the search for a closing tag finds the same occurrence, shifted, after any prefix is put in front of the text |
| Rewrite.MatchAtShift | script.js:193-202 | whether a pattern matches at an index, and what it matches, does not depend on the text before that index |
| Rewrite.ReplaceShift | script.js:193-206 | a global replace from an index onwards does not depend on the text before that index |
| Rewrite.ReplaceAllPrefix | script.js:193-206 | a prefix without the rule's anchor character passes through a global replace unchanged, and the rest is replaced as if on its own |
| Rewrite.ReplaceAllHead | script.js:193-206 | a global replace either substitutes a match at the start and goes on after it, or copies the first character and goes on from the next |
| Rewrite.HeadCopied | script.js:193-206 | where a character rules out every match at the start, that character is copied and the replace goes on from the next one |
| Rewrite.DelimitedAt | script.js:193-195 | `prefix[^c]*c` matches a prefix, a body free of `c` and `c`, and ends just after that `c` |
| Rewrite.EnclosingAt | script.js:196-197 | `open[^>]*>([\s\S]*?)close` matches up to the first closing tag after the first `>`, and captures the text between them |
| Rewrite.MissesAt | script.js:193-202 | a pattern does not match where the text has, at some offset, a character no match has there |
| Rewrite.ApplyRulesSplit | script.js:193-206 | a chain of replaces is the chain of its first k replaces followed by the rest |
| Rewrite.ApplyRulesUnchanged | script.js:193-206 | a chain of replaces each of which leaves the text unchanged leaves it unchanged |
| TagCleaners.EnclosedSpanReplaced | script.js:196-197 | the ruby and rt rules replace a whole `<tag…>x</tag>` span at once, by the captured text or by nothing |
| TagCleaners.RubyKeepsText | script.js:196 | `<ruby…>x</ruby>` becomes x |
| TagCleaners.RtDropped | script.js:197 | `<rt…>x</rt>` disappears, x included |
| TagCleaners.BoldOpenRemoved | script.js:198 | `<b…>` is removed together with its attributes |
| TagCleaners.BoldCloseRemoved | script.js:198 | `</b>` is removed |
| TagCleaners.BoldRuleTakesBrAndBody | script.js:198 | `<b[^>]*>` also removes `<br…>` and `<body…>`, because it does not stop at the tag name |
| TagCleaners.TagKept | script.js:193-201 | a tag with a character, at some offset, that no match of a rule has there passes through that rule unchanged |
| TagCleaners.KeepsBoldSpan | script.js:193-197 | the class, voice, lang, ruby and rt rules leave a bold span `<b>y</b>` as it is |
| TagCleaners.BoldSpanRemoved | script.js:198 | the bold rule turns `x<b>y</b>` into `xy` |
| TagCleaners.TagRulesOfBoldSpan | script.js:193-201 | the tag-specific rules together turn `x<b>y</b>` into `xy` |
| TagCleaners.VoiceOpenRemoved | script.js:194 | `<v…>` is removed with the speaker's name |
| TagCleaners.VoiceCloseRemoved | script.js:194 | `</v>` is removed |
| TagCleaners.ClassRulesKeepVoiceSpan | script.js:193 | the `<c.…>` and `</c>` rules leave a voice span as it is |
| TagCleaners.TagRulesOfVoiceSpan | script.js:193-201 | the tag-specific rules together turn `<v name>y</v>` into `y` |
| TagCleaners.CleanHtmlTagsAfterTagRules | script.js:192-208 | when the tag-specific rules leave trimmed text without `<` and `&`, the generic tag rule, the entity decoding and the trim leave it as it is |
| TagCleaners.CleanHtmlTagsBoldSpan | script.js:192-208 | `cleanHtmlTags` turns `x<b>y</b>` into `xy`, for instance `Hello <b>world</b>` into `Hello world` |
| TagCleaners.CleanHtmlTagsBoldLine | script.js:192-208 | a line that is one bold span `<b>y</b>` comes out of `cleanHtmlTags` as `y` |
| TagCleaners.CleanHtmlTagsVoiceSpan | script.js:192-208 | `cleanHtmlTags` turns `<v name>y</v>` into `y`, for instance `<v Alice>Hi there</v>` into `Hi there` |
| TagCleaners.OverrideBlockRemoved | script.js:211 | an override block `{\…}` with a non-empty body is removed |
| TagCleaners.EscapeBecomesLineFeed | script.js:211 | `\N` and `\n` each become one line feed |
| TagCleaners.CleanSsaAssTagsDropsBlocks | script.js:210-212 | `cleanSsaAssTags` removes two override blocks and keeps the text around them, for instance `Hello {\i1}world{\i0}` becomes `Hello world` |
| TagCleaners.CleanHtmlTags | script.js:192-208 | the cleaned text is trimmed |
| TagCleaners.CleanSsaAssTags | script.js:210-212 | the cleaned text is trimmed |
| TagCleaners.GenericTagAt | script.js:202 | `<[^>]+>` matches at k exactly when `<` there is followed by a non-`>` character and later by a `>` |
| TagCleaners.GenericRemovalLeavesNoTag | script.js:202 | removing `<[^>]+>` leaves no text it matches, and introduces no character |
| TagCleaners.StripTagsLeavesNoTag | script.js:193-202 | after the tag-removal half of `cleanHtmlTags`, no `<…>` with a non-empty body is left |
| TagCleaners.SpecificTagRulesAnchored | script.js:193-201 | every tag-specific rule needs a `<` to match |
| TagCleaners.CleanHtmlTagsOfPlainText | script.js:192-208 | trimmed text without `<` or `&` comes out of `cleanHtmlTags` unchanged |
| TagCleaners.StripTagsOfPlainText | script.js:193-202 | no tag rule changes text without `<` |
| TagCleaners.DecodeEntitiesOfPlainText | script.js:203-206 | no entity rule changes text without `&` |
| TagCleaners.CleanHtmlTagsShrinks | script.js:192-208 | cleaning never makes a line longer |
| TagCleaners.DecodeEscapedAmpersand | script.js:203-206 | `&amp;` is decoded last and only once: `&amp;` followed by `&`-free text decodes to `&` and that text |
| TagCleaners.EscapedLessThan | script.js:203-206 | `&amp;lt;` decodes to `&lt;`, not to `<` |
| TagCleaners.EntityMissesAmp | script.js:203-205 | the `&nbsp;`, `&lt;` and `&gt;` rules do not match at the start of `&a…` |
| TagCleaners.PairFreeReplace | script.js:211 | replacing `\N` (or `\n`) by a line feed leaves no such escape, and creates none that was not there |
| TagCleaners.CleanSsaAssTagsLeavesNoEscape | script.js:210-212 | no `\N` and no `\n` escape survives `cleanSsaAssTags` |
| Cues.Finalize | script.js:225-233 | `finalizeCue` empties the buffer, and emits it exactly when it is non-empty with non-blank text |
| Cues.RenderIsLines | script.js:229 | `extractedText` is the cue texts, each followed by one LF |
| Cues.OutputIsJoin | script.js:347 | the trimmed `extractedText` is the cue texts joined with LF |
| Cues.LinesIsJoin | script.js:229 | the cue texts each followed by LF are their LF-join plus one final LF |
| Cues.TrimTrailingBreak | script.js:347 | trimming removes the final LF after solid text |
| Cues.JoinSolid | script.js:227 | a join of solid parts is solid |
| Cues.CueTextSolid | script.js:227-228 | an emitted cue text is non-empty with no white space at either end |
| Cues.TextsSolid | script.js:227-229 | every emitted cue text is solid |
| Cues.FinalizeSingle | script.js:294-295 | one solid line pushed onto an empty buffer and finalized becomes one cue with exactly that text |
| Cues.SolidCue | script.js:227 | the cue text of a block of solid lines is their LF-join, and it is solid |
| Cues.FinalizeBlock | script.js:312-313 | a block of solid lines pushed onto an empty buffer is emitted whole as one cue |
| Cues.SolidBlocksTexts | script.js:227-229 | emitted solid blocks are all non-blank, and each text is the block's LF-join |
| Cues.JoinedBlocksJoin | script.js:227-229 | joining the blocks' joins with LF is joining all their lines with LF |
| Cues.SolidBlocksJoin | script.js:227-229 | the cue texts of solid blocks, LF-joined, are all their lines LF-joined |
| Cues.FinalizeKeepsSolidBlocks | script.js:225-233 | `finalizeCue` on a buffer of solid lines emits only solid blocks |
| Cues.TextsConcat | script.js:229 | the texts of two runs of cues are the texts of each, in order |
| Cues.FinalizeKeepsCuesNonEmpty | script.js:228 | `finalizeCue` never emits a blank cue |
| Cues.FinalizeKeepsSolidLines | script.js:225-233 | a buffer of solid lines is never dropped: no line is lost |
| Cues.FinalizeKeepsNonEmptyLines | script.js:225-233 | for cleaner output, a dropped buffer held only empty lines, so every non-empty line survives |
| Cues.OnlyEmptyLines | script.js:227-228 | a buffer of empty-or-solid lines with blank cue text holds only empty lines |
| Cues.CueTextOfSolidLine | script.js:227-228 | a buffer with a solid line has non-blank cue text |
| Cues.CueTextStripped | script.js:227-228 | for cleaner output, the trimmed join of the buffer is the LF-join of its lines with the leading and trailing empty lines removed, and it is empty exactly when nothing is left after that removal |
| Cues.StrippedSplit | script.js:227 | a buffer is its leading empty lines, its stripped core and its trailing empty lines, and the core starts and ends with a non-empty line |
| Cues.TrimAround | script.js:227 | trimming text that has blank text on both sides of a core without white space at its ends gives the core |
| Cues.JoinAround | script.js:227 | joining empty lines, a core, and more empty lines with LF puts only blank text around the core's join |
| Cues.JoinEmptyBlank | script.js:227 | the LF-join of empty lines is blank |
| Cues.CueBuffer.constructor | script.js:218-219 | `extractedText` and `currentTextLines` start empty |
| Cues.CueBuffer.Push | script.js:240 | `currentTextLines.push(line)` appends to the buffer and changes nothing else |
| Cues.CueBuffer.PushAll | script.js:312 | `currentTextLines.push(...textBlock)` appends the block |
| Cues.CueBuffer.FinalizeCue | script.js:225-233 | the method performs `Finalize` on the buffer's state |
| Cues.CueBuffer.Result | script.js:347 | the returned text is the trimmed `extractedText`, i.e. `Output` of the state |
| Formats.AcceptedIffExtension | script.js:18 | a name passes the `acceptedFileTypes` test exactly when its extension (from the last `.`) is an accepted type |
| Formats.ExtensionOfSuffix | script.js:172 | a lower-cased name ending in `.` plus dot-free text has that suffix as its extension |
| Formats.AcceptedTypeShape | script.js:18 | each accepted type is `.` followed by dot-free text |
| Formats.LowerDot | script.js:172 | lower-casing creates and removes no `.` |
| LineRules.TrimLines | script.js:249 | each line is trimmed, and the count is kept |
| LineRules.TrimLinesAt | script.js:249 | line k of the trimmed lines is line k trimmed |
| LineRules.InStyleBlockCovers | script.js:251-253 | the `inVttStyleBlock` recursion holds exactly for the lines from a `STYLE` line up to the first blank line |
| LineRules.StyleBlockCoversNext | script.js:251-252 | a STYLE block covers the next line exactly when that line opens one, or the block covers this line and it is not blank |
| LineRules.StyleBlockCoversFirst | script.js:251 | the first line lies in a STYLE block exactly when it opens one |
| LineRules.InEventsCovers | script.js:279-286 | the `inEventsSection` recursion holds exactly when the last section header so far is `[events]` |
| LineRules.EventsCoversStep | script.js:279-286 | after a line, the events section is open exactly when that line is its header, or is no header and the section was open |
| LineRules.DigitStartNotMetadata | script.js:223 | a line starting with a digit is never WebVTT metadata |
| LineRules.EventTextKeepsCommas | script.js:290-293 | nine comma-free fields and any text: the text field is the whole text, commas included, trimmed and cleaned |
| LinePass.PassScanNext | script.js:248-273 | one more line is one more run of the callback |
| LinePass.PassStyleFlag | script.js:251-253 | after n lines, `inVttStyleBlock` is set exactly when line n-1 lies in a STYLE block and is not the blank line closing it |
| LinePass.StyleEntering | script.js:251-253 | the callback skips line j exactly when the line lies in a STYLE block |
| LinePass.CueStepLines | script.js:255-272 | outside a STYLE block, the callback appends the line's contribution, and a finalized buffer loses nothing |
| LinePass.PassStepLines | script.js:248-273 | one callback appends exactly the line's contribution |
| LinePass.PassScanLines | script.js:248-273 | after n lines, the buffered and emitted lines are exactly the cleaned text lines so far, in order, and no cue is blank |
| LinePass.PassResultLines | script.js:248-274 | after the pass, the cues hold exactly the cleaned text lines, and the output is those lines joined with LF |
| LinePass.TimestampStartsWithDigit | script.js:221 | a timing line starts with a digit |
| LinePass.TimingLineEndsCue | script.js:256-259 | a timing line outside a STYLE block empties the buffer and is not text |
| LinePass.SrtSequenceNumberDropped | script.js:260-265 | in SRT, a digits-only line followed by a timing line empties the buffer and is dropped |
| LinePass.DigitsNotTiming | script.js:222 | a digits-only line is neither a timing line nor an SBV timing pair |
| LinePass.DigitsKeptUnlessSrt | Src/script.js:207-219 | outside SRT, a digits-only line outside a STYLE block is kept as text, unchanged |
| LinePass.SbvPairEndsSbvCue | Src/script.js:203-206 | in SBV content, an exact timing pair empties the buffer and is dropped |
| LinePass.SbvPairKeptOtherwise | Src/script.js:203-219 | in any other format, an exact SBV timing pair outside a STYLE block is kept as text, unchanged |
| LinePass.TagStartIsText | script.js:250-265 | a line starting with `<` is no timing line, sequence number, SBV pair or metadata line: outside a STYLE block it is cue text |
| LinePass.WrappedTimingLineKept | script.js:256-272 | a timing line wrapped in `<b>…</b>` is cue text, and what it adds to the output is the bare timing line |
| LinePass.CleanedSolid | script.js:271-272 | a cleaned line that is not empty is solid |
| LinePass.PushCleaned | script.js:271-272 | `cleaned` is pushed exactly when it is not empty |
| LinePass.CueLine | script.js:255-272 | the callback after the STYLE checks performs `CueStep` on the buffer |
| LinePass.PassLine | script.js:248-273 | the callback takes the state of the fold at `index` to its state at `index + 1` |
| LinePass.ForEachLine | script.js:248-273 | the `forEach` loop ends in the fold's state after all lines |
| LinePass.ScanLines | script.js:246-274 | the loop plus the closing `finalizeCue` leaves `PassResult` in the buffer |
| AssEvents.AssScanNext | script.js:277-298 | one more line is one more run of the callback |
| AssEvents.EventsHeaderIsSection | script.js:279-283 | an `[events]` header is a section header |
| AssEvents.AssStepFlag | script.js:279-286 | one callback moves `inEventsSection` as `InEvents` says |
| AssEvents.AssScanFlag | script.js:276-286 | after n lines, `inEventsSection` says whether the events section is open |
| AssEvents.EventStepCue | script.js:288-296 | an event line on an empty buffer adds exactly its cleaned text as a cue, if that is not empty, and leaves the buffer empty |
| AssEvents.AssStepCue | script.js:277-298 | one callback keeps the buffer empty and adds the line's contribution |
| AssEvents.AssScanCues | script.js:276-298 | after n lines, the cues are exactly the event texts so far, one cue each, in order |
| AssEvents.AssOutput | script.js:275-298 | the branch's output is the event texts joined with LF |
| AssEvents.CommentOnlyWithComments | Src/script.js:235-245 | a `Comment:` event is a cue in `Src/script.js` and is not one in `script.js` |
| AssEvents.EventLine | script.js:288-296 | the event-line body performs `EventStep` on the buffer |
| AssEvents.AssLine | script.js:277-298 | the callback takes the fold's state at `index` to its state at `index + 1` |
| AssEvents.ScanEvents | script.js:276-298 | the loop leaves the fold's accumulator after all lines; there is no closing `finalizeCue` |
| RootPasses.ClassifyLines | script.js:237-240 | one classification per line |
| RootPasses.ClassifyLinesAt | script.js:238 | the classification of line k is that of line k trimmed |
| RootPasses.ClassifiedClean | script.js:240 | every cleaned line is empty or solid |
| RootPasses.UnknownScanNext | script.js:237-244 | one more line is one more run of the callback |
| RootPasses.UnknownStepSolid | script.js:239-243 | one callback keeps the buffer holding cleaner output |
| RootPasses.UnknownStepCues | script.js:239-243 | one callback emits no blank cue |
| RootPasses.UnknownStepLines | script.js:239-243 | one callback adds exactly the line's kept text to the non-empty lines held |
| RootPasses.UnknownStepKept | script.js:239-243 | the buffer holds the kept texts of the lines before j, and after one more callback those up to j |
| RootPasses.UnknownScanSolid | script.js:237-244 | after n lines, the buffer holds cleaner output only |
| RootPasses.UnknownScanCues | script.js:237-244 | after n lines, no blank cue has been emitted |
| RootPasses.UnknownScanLines | script.js:237-244 | after n lines, the non-empty lines held are exactly the cleaned kept lines, in order |
| RootPasses.UnknownResultLines | script.js:235-245 | the fallback emits no blank cue, and its cues' non-empty lines are exactly the cleaned lines that are not timing lines, bare numbers or blank |
| RootPasses.UnknownStepRuns | script.js:239-243 | one callback keeps the buffer in step with the runs of kept lines between blank lines: the cues emitted are the texts of the closed runs, and the open run is the buffer |
| RootPasses.UnknownScanRuns | script.js:237-244 | after n lines, the buffer holds the open run and has emitted the texts of the closed runs |
| RootPasses.FinalizeRun | script.js:225-233 | the final `finalizeCue` adds the text of the open run, if it has any |
| RootPasses.UnknownOutputRuns | script.js:235-245 | the fallback's output is the LF-join of the texts of its runs: each run's cleaned lines, without empty lines at its ends, joined with LF |
| RootPasses.KeptRun | script.js:240 | a kept line extends the open run by its cleaned text |
| RootPasses.ThreeKeptRuns | script.js:240 | three kept lines with no blank line between them form one run |
| RootPasses.EmptiedLineShows | script.js:235-245 | a line that cleans to nothing between two text lines shows as an empty line between them |
| RootPasses.EmptiedLineRuns | script.js:235-245 | the runs of two text lines around a line cleaned to nothing join to the two texts around an empty line |
| RootPasses.EmptiedLineBeforeBlank | script.js:235-245 | a line cleaned to nothing at the end of a cue, just before a blank line, does not show |
| RootPasses.BlankLineRuns | script.js:235-245 | the runs of a text line, an emptied line, a blank line and a text line join to the two texts on consecutive lines |
| RootPasses.BlankLineRunsAre | script.js:238-243 | the blank line closes the run holding the text and the emptied line, and the last text opens a new run |
| RootPasses.BlockEnd | script.js:306 | the inner `while` stops at the first blank line or exact timing pair, or at the end |
| RootPasses.BlockStep | script.js:306-309 | a line that does not stop the block extends it by its cleaned text |
| RootPasses.SbvFromPair | script.js:302-315 | at a timing pair, the loop reads the block and resumes where the block stopped |
| RootPasses.SbvFromOther | script.js:300-302 | the loop passes over any other line |
| RootPasses.BlockTextSolid | script.js:307-308 | a text block holds solid lines only |
| RootPasses.NoPairInBlock | script.js:306 | the lines a block passes over open no block |
| RootPasses.PairStep | script.js:303-314 | a timing pair with its block, on an empty buffer, emits exactly the block it opens |
| RootPasses.SbvFromPairBlock | script.js:302-315 | at a timing pair on an empty buffer, the pair's block is emitted and the loop resumes where it stopped |
| RootPasses.PairBlocksAtPair | script.js:302-315 | the blocks from a pair on are its own block, then those from where it stopped |
| RootPasses.SbvFromBlocksPair | script.js:302-315 | the step of the block characterisation at a timing pair |
| RootPasses.SbvFromBlocksOther | script.js:300-302 | the step of the block characterisation at any other line |
| RootPasses.SbvFromBlocks | script.js:300-317 | from line i on an empty buffer, the loop emits exactly the non-empty blocks after timing pairs, in order |
| RootPasses.PairBlocksSolid | script.js:307-312 | every emitted block is non-empty and made of solid lines |
| RootPasses.SbvOutput | script.js:299-318 | the SBV output is one line per non-empty block after a timing pair, each the block's cleaned lines joined with LF; lines outside blocks are ignored |
| RootPasses.UnknownLine | script.js:237-244 | the callback takes the fold's state at `index` to its state at `index + 1` |
| RootPasses.ScanUnknown | script.js:237-245 | the loop plus the closing `finalizeCue` leaves `UnknownResult` in the buffer |
| RootPasses.ReadBlock | script.js:304-310 | the inner `while` returns the block's cleaned lines and the index where it stopped |
| RootPasses.TimingBlock | script.js:303-315 | the body at a timing pair finalizes, reads the block and emits it when it is not empty |
| RootPasses.ScanSbv | script.js:300-318 | the `for` loop, with its `i--`, plus the closing `finalizeCue`, leaves `SbvResult` in the buffer |
| Sami.SamiStepCue | script.js:331-338 | a `SYNC` element adds at most one cue, its cleaned non-blank paragraph, and leaves the buffer empty |
| Sami.SamiScanCues | script.js:330-340 | after n `SYNC` elements, the cues are exactly the non-blank cleaned paragraphs, in order |
| Sami.ExtractParagraph | script.js:331-339 | the loop body performs `SamiStep` on the buffer |
| Sami.ExtractParagraphs | script.js:330-340 | the loop leaves `SamiScan` of all elements in the buffer |
| RootScript.ContentRulesFirst | script.js:171-183 | whatever the file name, `<SAMI>` gives SMI, then the ASS headers give ASS_SSA, then `WEBVTT` gives VTT, then `-->` gives SRT unless the content is confirmed SBV |
| RootScript.ExtensionOnlyAsFallback | script.js:183-189 | without content markers, only the extension decides; `.sbv` still needs confirmation, and anything else falls back, UNKNOWN included |
| RootScript.SbvOnlyWhenConfirmed | script.js:177-181 | SBV is returned only for confirmed content, and only for a `.sbv` name or a line starting with a timing pair |
| RootScript.UnconfirmedSbvFile | script.js:177-189 | an unconfirmed `.sbv` file without other markers is SRT if it has `-->`, else UNKNOWN |
| RootScript.TrimmedFirstLinePrefix | script.js:178-179 | the trimmed first line of content not starting with white space is a prefix of the content |
| RootScript.ConfirmedPairAtLineStart | script.js:177-181 | the first line of confirmed SBV content that does not start with white space is a timing pair at the start of a line |
| RootScript.ConfirmedSbvAnyName | script.js:177-181 | confirmed SBV content that does not start with white space is SBV whatever the file is called |
| RootScript.RootSrtVttText | script.js:246-274 | SRT/VTT content shows its cleaned text lines joined with LF |
| RootScript.RootAssText | script.js:275-298 | ASS/SSA content shows the texts of the `Dialogue:` lines in its events section, joined with LF |
| RootScript.RootSbvText | script.js:299-318 | SBV content shows one line per non-empty block after a timing pair |
| RootScript.RootUnknownText | script.js:235-245 | UNKNOWN content shows the texts of its runs of kept lines between blank lines, joined with LF (a line cleaned to nothing inside a run shows as an empty line), and their non-empty lines are exactly the cleaned kept lines |
| RootScript.RootSmiText | script.js:319-345 | parsed SMI shows the non-blank paragraphs joined with LF; a parse error leaves the output box untouched |
| RootScript.ProcessSubtitleContent | script.js:215-347 | the method's outcome is `RootExtraction` of its inputs |
| SrcScript.AcceptedNameDecides | Src/script.js:273-279 | for every name the file filter accepts, the format depends only on the name and is never UNKNOWN |
| SrcScript.AgreesWithRootOtherwise | Src/script.js:280-287 | without an accepted extension or an SBV pair at a line start, both front-ends detect the same format |
| SrcScript.SbvWithoutConfirmation | Src/script.js:284 | a line starting with an SBV pair is enough for SBV here; `script.js` needs confirmation and otherwise says SRT or UNKNOWN |
| SrcScript.NameBeatsSamiTag | Src/script.js:275-281 | an accepted extension beats a `<SAMI>` tag here, while `script.js` says SMI |
| SrcScript.SrcExtraction | Src/script.js:173-271 | the extracted text is empty or trimmed |
| SrcScript.SrcPassText | Src/script.js:193-221 | SRT, VTT, SBV and UNKNOWN content gives its cleaned text lines joined with LF |
| SrcScript.SrcAssText | Src/script.js:222-246 | ASS/SSA content gives the texts of its `Dialogue:` and `Comment:` events, joined with LF |
| SrcScript.SrcSmiText | Src/script.js:247-268 | parsed SMI gives the non-blank paragraphs joined with LF; a parse error gives the empty string |
| SrcScript.ExtractTextFromContent | Src/script.js:173-271 | the method's result is `SrcExtraction` of its inputs |
| SrcScript.DownloadNameParts | Src/script.js:149-154 | the download name ends in `.txt`; before that is the whole name if it has no `.`, else the part before its last `.` |
| SrcScript.FilterCount | Src/script.js:58-60 | `filter` keeps each element its test accepts as often as it occurs, and no other element |
| SrcScript.FilterConcat | Src/script.js:58-60 | `filter` keeps the order: filtering two lists in sequence is filtering each and concatenating |
| SrcScript.ValidFilesCount | Src/script.js:58-60 | the valid files are each accepted name as often as it was given, and no other name |
| SrcScript.ValidFilesMembers | Src/script.js:58-60 | a name is a valid file exactly when it was given and its extension is accepted |
| SrcScript.ValidFilesConcat | Src/script.js:58-60 | the valid files keep the order in which the names were given |
| SrcScript.DownloadIffNotBlank | Src/script.js:143-154 | a download happens exactly for non-blank text, under `DownloadName` |
| SrcScript.DownloadIffExtracted | Src/script.js:143 | an extracted text is downloaded exactly when it is not empty |
| Merge.CollapseCopies | script.js:404 | text without line breaks passes through `replace(/\n\s*\n/g, '\n')` unchanged |
| Merge.CollapseBreak | script.js:404 | at a line break, the match ends after the last line break of the white-space run that follows, or there is none |
| Merge.CollapseNoBlank | script.js:404 | after the replacement, no line break is followed by white space reaching another line break |
| Merge.CollapseIdentity | script.js:404 | text with no blank line is left unchanged by the replacement |
| Merge.CollapseKeepsSolid | script.js:404 | a non-white-space character survives the replacement |
| Merge.CollapsedNotEmpty | script.js:399-404 | non-blank text stays non-empty after the replacement and the trim |
| Merge.TrimNoBlank | script.js:404 | trimming keeps text free of blank lines |
| Merge.SplitNoBlank | script.js:405 | text free of blank lines and not ending in white space splits into non-blank lines after the first |
| Merge.MergedLinesNotBlank | script.js:397-408 | whenever the merge runs, every line it joins is non-blank |
| Merge.JoinWithFree | script.js:405 | joining line-break-free parts with a line-break-free separator gives no line break |
| Merge.MergeSingleLine | script.js:404-405 | with a separator without line breaks, the merged text is a single line |
| Merge.JoinWithChar | script.js:405 | `join` with a one-character string is `Join` with that character |
| Merge.MergeWithLineBreak | script.js:404-405 | with `\n` as separator, merging only collapses blank lines and trims |
| Merge.HandleMergeIffNotBlank | script.js:397-408 | `handleMerge` does nothing exactly for blank text; otherwise its result has the single-line and line-break-separator properties |

## Left out

- **Browser shell.** Not modelled: the DOM, event listeners, `FileReader`, clipboard copy, `Blob`/`URL` download mechanics, the `Promise.all` batching of `handleFiles` and every `showMessage` call (script.js:1-168 except the accepted types at line 18 and the call at line 66, and script.js:357-396 and 409-421; Src/script.js:1-171 except the filter at lines 58-60 and the download name at lines 143-154, and Src/script.js:312-326 and 339-342). These are browser I/O, not text processing.
- **Pasted text.** Reading the text area is left out. `script.js` then calls `processSubtitleContent(content, 'unknown')` (script.js:66), which the model covers with the file name `unknown`.
- **The XML parse.** `DOMParser` is not modelled. The SAMI document is a parameter: either a parse error or, for each `SYNC` element in order, the `innerHTML` of the first `P` element below that `SYNC`.
  - `try`/`catch` around the SMI branch: nothing in the modelled text operations throws.
  - The `console.error` output is left out.
- **What the output box shows.** `script.js` writes the text into the output box, shows a message and copies the text. The model returns an `Outcome` instead. After an SMI parse error, `script.js` returns before writing, so the box keeps its previous content; the model returns `SmiParseError` for that case.
- **Case mapping.** `toLowerCase`/`toUpperCase` and the regex `i` flag are modelled for ASCII letters only. No full Unicode case mapping is available. For tags and keywords this affects only non-ASCII letters. For file names it can shift the extension. `detectFormat` lower-cases the name but takes the index of its last `.` from the original name (script.js:172, Src/script.js:274). JavaScript lower-cases some characters into two code units: `İ` becomes `i` followed by U+0307. So a name such as `İ.vtt` has the extension `̇.vtt` in the source, while the model reads `.vtt`. `Formats.AcceptedIffExtension` and `SrcScript.AcceptedNameDecides` hold under the ASCII mapping only.
- Formats.AcceptedIffExtension: holds for the ASCII case mapping only. With a name holding `İ` before its last `.`, JavaScript's lower-cased name is longer than the name, and the extension the source reads can differ from the one the filter saw.
- SrcScript.AcceptedNameDecides: holds for the ASCII case mapping only, for the same reason. An accepted name such as `İ.vtt` leaves the format to the content in the source.
- **Split lines.** `split(/\r?\n/)` is modelled as a split at LF that then drops one trailing CR from each piece an LF follows; this is the same function, not an approximation.
- **Src/script.js duplicates.** `Src/script.js` holds character-identical copies of `cleanHtmlTags` (290-306), `cleanSsaAssTags` (308-310), `finalizeCue` (183-191), the SMI loop (253-264) and `handleMerge` (327-338). Each is modelled once and cited at its `script.js` lines.
- **Merge messages.** When `handleMerge` finds blank text, the output box keeps its text; the model returns `None` and leaves out the message.
