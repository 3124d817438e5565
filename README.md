# openclip core, modelled in Dafny

openclip turns a long video into short clips. It works in five stages:

1. It fetches the video from Bilibili or YouTube, or takes a local file.
2. It splits the video and its SRT subtitles into parts of bounded length.
3. A language model rates each part's transcript and proposes "engaging moments".
4. A second model call ranks the moments across all parts.
5. ffmpeg cuts one clip per ranked moment, and a cover image is drawn for the video.

This project models the logic of those stages and proves what it promises. Each file of the core is one module or a few:

- **Analyzer** (`core/engaging_moments_analyzer.py`). Modules `Captions`, `Cleaning`, `Extract`, `Prompts`, `Validation`, `Aggregation` and `Analysis`.
  - `Captions`: the SRT reader and the transcript listing.
  - `Cleaning`: the JSON text clean-up.
  - `Extract`: the three-step escalation that parses a model answer (direct parse, then a fenced block, then a repair call).
  - `Prompts`: the prompt builder, a class `Analyzer` whose constructor and `LoadBackgroundInfo` set its fields.
  - `Validation`: validation of one part's result and of each moment.
  - `Aggregation`: the ranking and its fallback.
  - `Analysis`: the two pipelines. Per part: prompt, call, escalate, validate or empty result. Aggregation: load, prompt, call, escalate, validate or fall back.
- **Splitter** (`core/video_splitter.py`). Modules `Splitter` (the SRT reader and writer, and the clock conversions) and `VideoSplitting` (a class `VideoSplitter` with its list of subtitles).
  - `VideoSplitter` covers the duration and segment windows, the subtitle part written for each window, and the loop over the windows that cuts the video parts.
- **Clip generator** (`core/clip_generator.py`). Module `ClipGeneration`: the moment loop, file-name sanitising, clock parsing and the video-file lookup.
- **Utilities** (`core/video_utils.py`). Module `VideoUtils`:
  - filename sanitising;
  - the progress-callback arithmetic;
  - the video-file and source checks;
  - the video-id extraction;
  - the lookup of an earlier download;
  - the listing of split parts.
- **Cover** (`core/cover_image_generator.py`). Module `CoverImage`: text wrapping, font-size search, the 3:4 crop and the cover run.
- **Downloader** (`core/downloaders/video_downloader.py`). Module `Platform`: platform detection and dispatch to the platform's downloader.

Helper modules:

- `Base`: the `Option` and `Outcome` result types. `Outcome` is a return value or a named exception.
- `Arith`: integer helpers.
- `PyStr`: Python string operations, such as `split`, `join`, `strip`, `int()` and `str()`.
- `PySort`: sorting.
- `JsonValue`: JSON values as ordered key lists, in the order of Python dictionaries.

Everything outside the program is a parameter of the operation that uses it. This covers the language model, `json.loads`, the files on disk, ffmpeg and ffprobe, the clock and the regular-expression class `\w`.

Times are integer milliseconds. A clock string `HH:MM:SS,mmm` is read exactly.

Two behaviours of the code worth knowing before reading the table:

- **Reading a bad SRT block.** The analyzer's SRT reader (core/engaging_moments_analyzer.py:186-200) skips a malformed block and goes on with the next. The splitter's reader (core/video_splitter.py:50-67) stops at the first block whose index line is not an integer, and keeps only the subtitles before it (`Splitter.GatherStopsAt`).
- **The fallback ranking.** `_create_fallback_aggregation` (core/engaging_moments_analyzer.py:882-891) keeps a `rank` a moment already has; only the others get their position (`Aggregation.FallbackRankedSpec`). It raises when a selected moment is not a dictionary (`Aggregation.FallbackRaises`).

## Model

| member | source | states |
|---|---|---|
| `Captions.ParseSrtFile` | core/engaging_moments_analyzer.py:167-205 | an unreadable file gives no entries; a readable one gives exactly the entries its text parses to |
| `Captions.ParseSrtText` | core/engaging_moments_analyzer.py:184-200 | round trip: an SRT text of readable blocks parses back to one entry per block, in order, with the block's stamps and its caption lines joined by single spaces |
| `Captions.ParseEntriesShape` | core/engaging_moments_analyzer.py:184-200 | at most one entry per block, and every entry has two well-formed stamps and a one-line text |
| `Captions.CollectShape` | core/engaging_moments_analyzer.py:186-200 | the block loop yields at most one entry per block, each well formed |
| `Captions.CollectSnoc` | core/engaging_moments_analyzer.py:186-200 | one more block appends exactly what that block yields to the entries so far |
| `Captions.BlockEntryOfText` | core/engaging_moments_analyzer.py:187-200 | a readable block yields the entry with its two stamps and its caption lines joined by spaces |
| `Captions.TimingMatches` | core/engaging_moments_analyzer.py:190 | the timing-line pattern matches a written `start --> end` line and captures the two stamps |
| `Captions.ParseEmpty` | core/engaging_moments_analyzer.py:175-181 | an empty file has no entries |
| `Captions.BlocksOfSrtText` | core/engaging_moments_analyzer.py:181-184 | the stripped text splits at blank lines into exactly the written blocks |
| `Captions.SplitSrtText` | core/engaging_moments_analyzer.py:184 | blocks joined by blank lines split back into the blocks, and the joined text starts and ends with a visible character |
| `Captions.TimeToMsWithComma` | core/engaging_moments_analyzer.py:207-218 | with a comma, the clock is hours, minutes and seconds read by `int()` plus the text after the comma as milliseconds |
| `Captions.TimeToMsWithoutComma` | core/engaging_moments_analyzer.py:210-218 | without a comma, the milliseconds are zero |
| `Captions.TranscriptLines` | core/engaging_moments_analyzer.py:228-235 | one listing line per entry, in entry order |
| `Captions.TranscriptContextLines` | core/engaging_moments_analyzer.py:228-235 | the transcript context splits at line breaks into exactly one line per parsed entry, in order |
| `Captions.TranscriptLineFree` | core/engaging_moments_analyzer.py:233 | a listing line of a parsed entry holds no line break |
| `Cleaning.DropOpenFence` | core/engaging_moments_analyzer.py:478 | a leading ```` ```json ```` and the whitespace after it are removed; any other text is unchanged |
| `Cleaning.FencesDropped` | core/engaging_moments_analyzer.py:478-479 | a fenced answer loses both fences and the whitespace beside them, leaving exactly its body |
| `Cleaning.Unfenced` | core/engaging_moments_analyzer.py:475-479 | a trimmed text without a backtick at either end passes the strip and both fence steps unchanged |
| `Cleaning.DropTrailingCommasOnlyCommas` | core/engaging_moments_analyzer.py:482 | the trailing-comma pass deletes commas and nothing else, and never lengthens the text |
| `Cleaning.TrailingCommaDropped` | core/engaging_moments_analyzer.py:482 | a comma followed by whitespace and `}` or `]` is deleted, and the whitespace and bracket stay |
| `Cleaning.CommaBeforeBrace` | core/engaging_moments_analyzer.py:482 | `a,}` becomes `a}` when `a` has no comma |
| `Cleaning.StampCommasKept` | core/engaging_moments_analyzer.py:482 | the comma inside a timestamp is not followed by a bracket and so is kept |
| `Cleaning.DropTrailingCommasConcat` | core/engaging_moments_analyzer.py:482 | after a settled prefix, the pass works on the rest independently |
| `Cleaning.TrailingCommaCleaned` | core/engaging_moments_analyzer.py:474-492 | the whole clean-up turns `a,}` into `a}` when `a` has no comma or closing bracket |
| `Cleaning.StampCleaned` | core/engaging_moments_analyzer.py:474-492 | the whole clean-up shortens a quoted `HH:MM:SS,mmm` to `HH:MM:SS` and changes nothing else |
| `Cleaning.JoinAdjacentSeparates` | core/engaging_moments_analyzer.py:485-486 | after the bracket pass, no closing bracket is followed by whitespace and an opening one |
| `Cleaning.JoinAdjacentKeepsOpening` | core/engaging_moments_analyzer.py:485-486 | the pass does not change whether the text opens with the bracket |
| `Cleaning.NoCloseUnchanged` | core/engaging_moments_analyzer.py:485-486 | a text without the closing bracket is unchanged |
| `Cleaning.JoinAtEnd` | core/engaging_moments_analyzer.py:485-486 | a closing bracket at the very end is left alone |
| `Cleaning.StampUnjoined` | core/engaging_moments_analyzer.py:485-486 | a quoted stamp after bracket-free text passes both bracket passes unchanged |
| `Cleaning.StampShortened` | core/engaging_moments_analyzer.py:490 | a stamp with no digit in front of it loses its milliseconds, and the text around it is cleaned independently |
| `Cleaning.DropMillisConcat` | core/engaging_moments_analyzer.py:490 | after a prefix whose tail has no digit, the stamp pass works on the rest independently |
| `Cleaning.NoCommaUnchanged` | core/engaging_moments_analyzer.py:482-490 | a text without a comma passes the comma pass and the stamp pass unchanged |
| `Extract.SkipWs` | core/engaging_moments_analyzer.py:374 | the greedy `\s*`: every skipped character is whitespace and the stop is at the end or at a visible character |
| `Extract.CloseFrom` | core/engaging_moments_analyzer.py:374 | a found end closes with `}` and is followed, after whitespace, by a closing fence |
| `Extract.FindFenced` | core/engaging_moments_analyzer.py:374 | a found group starts with `{` and ends with `}` |
| `Extract.FencedAtIs` | core/engaging_moments_analyzer.py:374 | a match at the very start wins, with the shortest group that a closing fence follows |
| `Extract.FencedRecovers` | core/engaging_moments_analyzer.py:374-377 | a fenced block whose object holds no backtick is found whole, whatever follows it |
| `Extract.LastIndex` | core/engaging_moments_analyzer.py:453 | the index holds the character and no later index does, or it is -1 and none does |
| `Extract.BraceSpan` | core/engaging_moments_analyzer.py:453-455 | the span runs from a `{` to a `}`, and there is none exactly when no `}` follows the first `{` |
| `Extract.BraceRecovers` | core/engaging_moments_analyzer.py:453-455 | an object between a prefix without `{` and a suffix without `}` is recovered exactly |
| `Extract.FixTail` | core/engaging_moments_analyzer.py:448-458 | the repair answer yields its fenced block, else its brace span, else the whole answer stripped |
| `Extract.Escalate` | core/engaging_moments_analyzer.py:364-394 | direct parse first, then the fenced block, then one repair call; the repair is called exactly when both earlier steps fail; debug files are exported exactly when the repair path fails, and they hold the answer and the repair |
| `Prompts.Analyzer.constructor` | core/engaging_moments_analyzer.py:23-42 | the fields are set from the arguments, with the provider name lower-cased and no background loaded yet |
| `Prompts.Analyzer.LoadBackgroundInfo` | core/engaging_moments_analyzer.py:58-71 | the background is the stripped file when it exists; otherwise the background is switched off; the other fields are unchanged |
| `Prompts.Analyzer.Patched` | core/engaging_moments_analyzer.py:152-163 | the language patch, when present, is appended after a blank line; otherwise the template is unchanged |
| `Prompts.Analyzer.LoadPromptTemplate` | core/engaging_moments_analyzer.py:116-165 | FileNotFoundError exactly when neither the custom file (for the part prompt only) nor `prompts/{name}.md` exists; otherwise the stripped, patched file |
| `Prompts.Analyzer.CustomOnlyForPart` | core/engaging_moments_analyzer.py:127 | for any other prompt, removing the custom file changes nothing |
| `Prompts.Analyzer.PartBackground` | core/engaging_moments_analyzer.py:255-258 | the background section is empty unless the background is on and non-empty |
| `Prompts.Analyzer.BuildPartPrompt` | core/engaging_moments_analyzer.py:237-266 | empty exactly when the file has no entries; raises exactly when there are entries and the template is missing |
| `Prompts.Analyzer.PartPromptLayout` | core/engaging_moments_analyzer.py:255-266 | the prompt opens with the background and the template, and ends with the part header, the transcript (one line per entry) and the closing instruction |
| `Prompts.Analyzer.AggBackground` | core/engaging_moments_analyzer.py:287-290 | the background section is empty unless the background is on and non-empty |
| `Prompts.Analyzer.BuildAggregationPrompt` | core/engaging_moments_analyzer.py:268-303 | raises exactly when a moment cannot be rendered or the template is missing |
| `Prompts.Analyzer.AggPromptLayout` | core/engaging_moments_analyzer.py:287-303 | the prompt opens with the background and the template with `{max_clips}` filled in, and ends with the moments context and the instruction naming the limit |
| `Prompts.TagPrefix` | core/engaging_moments_analyzer.py:276-282 | the loaded moments are tagged with their part in order, up to the first element that is not a dictionary |
| `Prompts.TaggedAtMostLoaded` | core/engaging_moments_analyzer.py:276-282 | the prompt never lists more moments than were loaded |
| `Prompts.JoinTags` | core/engaging_moments_analyzer.py:849 | the join succeeds exactly when the value is iterable and every element is a string, and then gives the element texts separated by `", "` |
| `Prompts.JoinTagsSplit` | core/engaging_moments_analyzer.py:849 | tags without a comma split back at `", "` into exactly the tags, in order |
| `Prompts.RenderBlocksSpec` | core/engaging_moments_analyzer.py:840-853 | block k renders item k under number first + k, and rendering fails exactly when some item fails |
| `Prompts.MomentsContextBlocks` | core/engaging_moments_analyzer.py:836-853 | the context raises exactly when some moment, numbered from 1, cannot be rendered |
| `Prompts.MomentsContext` | core/engaging_moments_analyzer.py:836-853 | the context succeeds exactly when every block renders |
| `Validation.Details` | core/engaging_moments_analyzer.py:545-548 | a missing `engagement_details` gets the medium default; usable details are kept or completed; other keys are untouched |
| `Validation.Complete` | core/engaging_moments_analyzer.py:540-550 | completion fails exactly when the existing details cannot be completed |
| `Validation.CompleteSpec` | core/engaging_moments_analyzer.py:540-550 | completion writes the whole-second duration and the defaults for the missing transcript, details and tags |
| `Validation.CompleteKeeps` | core/engaging_moments_analyzer.py:540-550 | completion leaves every other key unchanged |
| `Validation.ValidateObject` | core/engaging_moments_analyzer.py:520-556 | a dictionary is accepted exactly when it has the three required fields, readable stamps, a 30 to 240 second span, and completable details |
| `Validation.ValidateMoment` | core/engaging_moments_analyzer.py:520-556 | validation raises exactly on values that cannot be searched by key, and otherwise keeps exactly the accepted moments |
| `Validation.AcceptedIsClean` | core/engaging_moments_analyzer.py:520-556 | every accepted moment comes out complete and within the duration window |
| `Validation.AcceptedMoment` | core/engaging_moments_analyzer.py:529-540 | an accepted moment's duration is its stamp span in whole seconds, between 30 and 240 |
| `Validation.KeptRaises` | core/engaging_moments_analyzer.py:510-513 | the first moment that raises ends validation with its error |
| `Validation.KeptRaisesIff` | core/engaging_moments_analyzer.py:510-513 | validating the list raises exactly when some moment cannot be searched |
| `Validation.KeptSnoc` | core/engaging_moments_analyzer.py:511-513 | one more moment raises, adds nothing, or appends the validated moment |
| `Validation.KeptCount` | core/engaging_moments_analyzer.py:510-516 | as many moments are kept as are accepted |
| `Validation.KeptClean` | core/engaging_moments_analyzer.py:510-515 | every kept moment is complete and within the duration window |
| `Validation.EmptyResult` | core/engaging_moments_analyzer.py:558-565 | the empty result names the part, has no moments and counts zero |
| `Validation.PreparedSpec` | core/engaging_moments_analyzer.py:497-507 | the result names the part, defaults the content type to unknown, and keeps every key it does not write |
| `Validation.CleanedSpec` | core/engaging_moments_analyzer.py:497-516 | the cleaned result holds the kept moments, counts them, names the part and keeps the other keys |
| `Validation.ValidateResultSpec` | core/engaging_moments_analyzer.py:494-518 | a validated part result holds exactly the kept moments and counts them, names its part, defaults the content type and keeps every other key |
| `Validation.ValidateAndCleanResult` | core/engaging_moments_analyzer.py:494-518 | the loop over the moments computes exactly the validated result |
| `Aggregation.Ranked` | core/engaging_moments_analyzer.py:862-863 | ranking succeeds exactly when every moment is a dictionary |
| `Aggregation.RankedSpec` | core/engaging_moments_analyzer.py:862-863 | ranking neither drops nor reorders: the k-th moment gets rank k + 1 and keeps every other key |
| `Aggregation.RankMoments` | core/engaging_moments_analyzer.py:862-863 | the ranking loop computes the ranking |
| `Aggregation.RankedFieldsSpec` | core/engaging_moments_analyzer.py:865-869 | the result holds the ranked list and its count, and the model's criteria or the default criteria |
| `Aggregation.ValidatedRanked` | core/engaging_moments_analyzer.py:855-871 | every ranking validation returns ranks its moment list 1, 2, ... by position and counts it in `total_moments` |
| `Aggregation.ValidateAggregationSpec` | core/engaging_moments_analyzer.py:855-871 | a validated ranking keeps the model's moments in its order, ranks them 1, 2, ..., counts them, and keeps the model's criteria when given |
| `Aggregation.NonListEmpty` | core/engaging_moments_analyzer.py:858-863 | a string or dictionary in place of the list ranks only when it is empty |
| `Aggregation.Prefix` | core/engaging_moments_analyzer.py:886 | Python's `[:n]`: the first n moments, with a negative n counting from the end |
| `Aggregation.RankIfAbsent` | core/engaging_moments_analyzer.py:890-891 | an existing rank is kept, a dictionary without one gets its position, and anything else raises |
| `Aggregation.FallbackRanked` | core/engaging_moments_analyzer.py:889-891 | the fallback ranking succeeds exactly when every moment can be ranked, and keeps their number |
| `Aggregation.RankFallback` | core/engaging_moments_analyzer.py:889-891 | the fallback loop computes the fallback ranking |
| `Aggregation.FallbackRankedSpec` | core/engaging_moments_analyzer.py:889-891 | a moment that has a rank keeps it unchanged; the others are numbered by position |
| `Aggregation.FallbackFieldsSpec` | core/engaging_moments_analyzer.py:893-904 | the fallback result holds the ranked moments and counts them |
| `Aggregation.FallbackRaises` | core/engaging_moments_analyzer.py:882-891 | the fallback raises exactly when a selected moment is not a dictionary and holds no `rank` |
| `Aggregation.FallbackSpec` | core/engaging_moments_analyzer.py:882-904 | the fallback selects the first max_clips moments in their order, counts them, and ranks each by position unless it has a rank |
| `Aggregation.EmptyAggregation` | core/engaging_moments_analyzer.py:873-880 | the empty aggregation has no moments and counts zero |
| `Analysis.AnalyzePartSpec` | core/engaging_moments_analyzer.py:305-350 | a part without entries costs no call and gives the empty result; the run raises exactly when the template is missing; any result names the part and counts its moments; at most two model calls are made; an exported failure comes with the empty result |
| `Analysis.EscalatedResult` | core/engaging_moments_analyzer.py:364-394 | a successful extraction is the validation of some parsed answer |
| `Analysis.ValidatedResult` | core/engaging_moments_analyzer.py:494-518 | any validated result names its part and counts its moments |
| `Analysis.AggregateSpec` | core/engaging_moments_analyzer.py:567-623 | no loaded moment means no call and the empty ranking; a prompt that cannot be built raises before any call; a failed call or a failed extraction falls back to the first moments; an answer that extracts and validates is returned as is, after one chat call, ranked 1, 2, ... and counted; at most two model calls are made |
| `Splitter.LastBreak` | core/video_splitter.py:48 | the position of the last line break, or -1 when there is none |
| `Splitter.BlankMatch` | core/video_splitter.py:48 | a match of `\n\s*\n` covers at least the two line breaks |
| `Splitter.FindBlank` | core/video_splitter.py:48 | the position found starts a match of `\n\s*\n` |
| `Splitter.SplitBlank` | core/video_splitter.py:48 | `re.split` always gives at least one piece |
| `Splitter.SplitJoinedBlocks` | core/video_splitter.py:48 | written blocks joined by blank lines split back into the blocks |
| `Splitter.MatchArrow` | core/video_splitter.py:58 | the timing pattern captures two well-formed stamps |
| `Splitter.ArrowMatches` | core/video_splitter.py:58 | a written arrow line is matched with its two stamps |
| `Splitter.ReadBlock` | core/video_splitter.py:51-64 | a kept block yields a subtitle with well-formed stamps |
| `Splitter.BlockReads` | core/video_splitter.py:50-64 | a written subtitle's block reads back as the subtitle itself |
| `Splitter.Reads` | core/video_splitter.py:50-64 | one reading per block, in block order |
| `Splitter.Gather` | core/video_splitter.py:50-67 | at most one subtitle per block, each stamped when every kept block is |
| `Splitter.ParseSrt` | core/video_splitter.py:41-71 | every subtitle read has well-formed stamps |
| `Splitter.GatherAborted` | core/video_splitter.py:43-71 | once a block aborts the reading, the later blocks change nothing |
| `Splitter.GatherComplete` | core/video_splitter.py:43-71 | the reading gets through exactly when no index line fails `int()` |
| `Splitter.GatherStopsAt` | core/video_splitter.py:43-71 | the first bad index line stops the reading with the subtitles before it |
| `Splitter.BlockLinesJoin` | core/video_splitter.py:28-30 | a subtitle's block is its index, timing and text lines joined by line breaks |
| `Splitter.FileTextJoined` | core/video_splitter.py:155-157 | the written file is the blocks joined by blank lines and closed by one more |
| `Splitter.ReadBack` | core/video_splitter.py:28-71 | round trip: a file of writable subtitles, as written, reads back as the same subtitles, in order, with nothing aborted |
| `Splitter.ReadEmpty` | core/video_splitter.py:45-67 | an empty file yields no subtitles and no abort |
| `Splitter.ParseStamp` | core/video_splitter.py:73-80 | a well-formed stamp reads as the milliseconds its fields stand for |
| `Splitter.ParseFields` | core/video_splitter.py:73-80 | a clock of four digit fields reads back field by field |
| `Splitter.StampTime` | core/video_splitter.py:73-80 | the fields of a stamp's time are the stamp's own fields |
| `Splitter.PadsRead` | core/video_splitter.py:73-91 | four zero-padded fields read back as their values |
| `Splitter.ParseFormat` | core/video_splitter.py:73-91 | round trip: reading the written clock of any non-negative time gives the time back |
| `Splitter.FormatParse` | core/video_splitter.py:73-91 | round trip: writing the time of a stamp whose minutes and seconds are below 60 gives the stamp back |
| `Splitter.FormatNat` | core/video_splitter.py:82-91 | a non-negative time is written as four zero-padded fields without a sign |
| `Splitter.FormatIsStamp` | core/video_splitter.py:82-91 | below 100 hours, the written clock is a well-formed stamp with minutes and seconds below 60 |
| `Splitter.FormatBack` | core/video_splitter.py:82-91 | a time whose fields are the values of four digit fields is written as those fields |
| `Splitter.ClockArith` | core/video_splitter.py:84-89 | the written hours, minutes, seconds and milliseconds add back up to the time |
| `Splitter.StampFields` | core/video_splitter.py:87-89 | minutes and seconds below 60 come back out of the milliseconds unchanged |
| `Splitter.FieldBounds` | core/video_splitter.py:87-89 | below 100 hours the hours fit two digits and minutes and seconds are below 60 |
| `VideoSplitting.WindowsEnds` | core/video_splitter.py:104-107 | no window exactly when the start is at or past the total; otherwise the windows run from the start to the total |
| `VideoSplitting.WindowsLengths` | core/video_splitter.py:104-107 | each window is non-empty and at most d long, and only the last may be shorter |
| `VideoSplitting.WindowsContiguous` | core/video_splitter.py:104-107 | each window opens where the one before it closed |
| `VideoSplitting.WindowsCount` | core/video_splitter.py:104-107 | there are ceil((total - start) / d) windows |
| `VideoSplitting.Ranges` | core/video_splitter.py:119-121 | every part's first and last subtitle lie within the list, first before last |
| `VideoSplitting.RangesTile` | core/video_splitter.py:119-121 | the parts run from the first subtitle to the last, each starting right after the one before, k subtitles each but the last |
| `VideoSplitting.RangesCover` | core/video_splitter.py:119-121 | every subtitle lies in exactly one part |
| `VideoSplitting.RangesOrdered` | core/video_splitter.py:119-121 | later parts lie entirely after earlier ones |
| `VideoSplitting.RangesCount` | core/video_splitter.py:119 | there are ceil(n / k) parts |
| `VideoSplitting.BatchesOver` | core/video_splitter.py:119-126 | one batch per index range, in order |
| `VideoSplitting.AdjustRead` | core/video_splitter.py:137-150 | a subtitle is renumbered, keeps its text, starts at the shifted start clamped at zero and ends at least 100 ms later |
| `VideoSplitting.AdjustedReadBack` | core/video_splitter.py:137-157 | below 100 hours, the part file written reads back as the adjusted subtitles |
| `VideoSplitting.EndAfter` | core/video_splitter.py:143 | `max(start + 0.1, end)`: at least 100 ms after the start and no earlier than the end |
| `VideoSplitting.AdjustedFrom` | core/video_splitter.py:137-151 | one adjusted subtitle per subtitle of the part, in order |
| `VideoSplitting.AdjustPart` | core/video_splitter.py:137-151 | the adjustment loop computes the adjusted subtitles |
| `VideoSplitting.Adjusted` | core/video_splitter.py:133-151 | the part keeps its number of subtitles |
| `VideoSplitting.SliceAllStamped` | core/video_splitter.py:133 | any Python slice of stamped subtitles is stamped |
| `VideoSplitting.Starts` | core/video_splitter.py:263 | the start time of each subtitle, in order |
| `VideoSplitting.Ends` | core/video_splitter.py:269 | the end time of each subtitle, in order |
| `VideoSplitting.FirstFrom` | core/video_splitter.py:262-266 | the result is 0 or a position in range |
| `VideoSplitting.FirstStarting` | core/video_splitter.py:262-266 | the first loop stops at the first subtitle starting at or after the window's start |
| `VideoSplitting.FirstFromMeaning` | core/video_splitter.py:259-266 | the first subtitle starting at or after the time is found; it is 0 when every one starts earlier |
| `VideoSplitting.LastBy` | core/video_splitter.py:268-271 | the result is the default or a position in range |
| `VideoSplitting.LastEnding` | core/video_splitter.py:268-271 | the second loop keeps the last subtitle ending at or before the window's end, the last subtitle when none does |
| `VideoSplitting.LastByMeaning` | core/video_splitter.py:259-271 | the last subtitle ending at or before the time is found; it is the default when every one ends later |
| `VideoSplitting.RangeOf` | core/video_splitter.py:258-271 | for a non-empty list, both ends of a window's range are subtitle positions |
| `VideoSplitting.NumberedStep` | core/video_splitter.py:245-277 | one more window appends its part, numbered by the window, when it has one |
| `VideoSplitting.PartsAt` | core/video_splitter.py:256-277 | one outcome per window |
| `VideoSplitting.CutWindows` | core/video_splitter.py:225-229 | the ffprobe-length loop produces exactly the windows of d from 0 to the total, for every run that ends: a positive d, or a total of 0 or less with no window |
| `VideoSplitting.Successes` | core/video_splitter.py:280-281 | no more successes than parts |
| `VideoSplitting.SuccessesAll` | core/video_splitter.py:287 | every part succeeded exactly when the count equals the number of parts |
| `VideoSplitting.SrtFileTextSnoc` | core/video_splitter.py:155-157 | one more subtitle appends its block and a blank line |
| `VideoSplitting.WriteSrt` | core/video_splitter.py:155-157 | the write loop produces exactly the file text |
| `VideoSplitting.GatherReads` | core/video_splitter.py:50-67 | the block loop keeps the subtitles up to the first abort and reports whether there was one |
| `VideoSplitting.AppendParsed` | core/video_splitter.py:64 | appending what a file yields keeps every subtitle stamped |
| `VideoSplitting.VideoSplitter.constructor` | core/video_splitter.py:35-39 | no subtitles, the given limit, and `output_parts` when no directory is given |
| `VideoSplitting.VideoSplitter.ParseSrtFile` | core/video_splitter.py:41-71 | the subtitles read are appended to the list; an unreadable file or a bad index line reports failure |
| `VideoSplitting.VideoSplitter.SplitByDuration` | core/video_splitter.py:93-109 | no windows without subtitles; otherwise windows of d up to the last subtitle's end, for a positive d and also for any d when the last subtitle ends at 0 |
| `VideoSplitting.VideoSplitter.SplitBySegments` | core/video_splitter.py:111-128 | no parts without subtitles; a step of zero raises ValueError; a negative step gives no parts; otherwise parts of k subtitles |
| `VideoSplitting.VideoSplitter.CreateSubtitlePart` | core/video_splitter.py:130-159 | the part's path, its slice of subtitles adjusted to the part, and the text written for them |
| `VideoSplitting.VideoSplitter.CheckDurationNeedsSplitting` | core/video_splitter.py:338-347 | splitting is needed exactly when the duration (0 when absent) exceeds the limit in minutes |
| `VideoSplitting.VideoSplitter.SelectRange` | core/video_splitter.py:258-271 | the two loops select the window's range of subtitles |
| `VideoSplitting.VideoSplitter.SplitByTimeDuration` | core/video_splitter.py:187-287 | the subtitles read are appended; an unreadable or aborted file or a failed probe reports failure, whatever d is; otherwise the windows and the subtitle parts, numbered from 1, are those of the subtitles, with no window (and success) when d is not positive and there is nothing to cut |
| `VideoSplitting.VideoSplitter.PartFor` | core/video_splitter.py:256-277 | a window writes a subtitle part exactly when its range is not empty |
| `VideoSplitting.VideoSplitter.CutParts` | core/video_splitter.py:243-287 | subtitle parts are written only with subtitles, and the run succeeds exactly when every video part was cut |
| `ClipGeneration.DropDisallowed` | core/clip_generator.py:146 | only word characters, whitespace and hyphens remain |
| `ClipGeneration.DropDisallowedPlain` | core/clip_generator.py:146 | apart from separators, exactly the word characters of the text remain, in order |
| `ClipGeneration.SkipRun` | core/clip_generator.py:148-150 | the rest after the leading run, starting with a character outside the run |
| `ClipGeneration.Collapse` | core/clip_generator.py:148-150 | each run becomes one underscore; the other characters come from the text |
| `ClipGeneration.CollapseSeparatorsKeeps` | core/clip_generator.py:148 | turning separator runs into underscores keeps every other character |
| `ClipGeneration.CollapseNoDouble` | core/clip_generator.py:150 | after squeezing, no two underscores are side by side |
| `ClipGeneration.CollapseUnderscoresKeeps` | core/clip_generator.py:150 | squeezing underscores keeps every other character, in order |
| `ClipGeneration.StripCharNoDouble` | core/clip_generator.py:152 | trimming keeps the no-double-underscore property |
| `ClipGeneration.StripUnderscoresKeeps` | core/clip_generator.py:152 | trimming underscores keeps every other character |
| `ClipGeneration.SanitizeSafe` | core/clip_generator.py:143-152 | a sanitised title holds word characters only, has no `__`, and neither starts nor ends with `_` |
| `ClipGeneration.SanitizeIdempotent` | core/clip_generator.py:143-152 | sanitising a sanitised title changes nothing |
| `ClipGeneration.SanitizeKeepsWords` | core/clip_generator.py:143-152 | apart from the underscores between words, exactly the title's word characters remain, in order |
| `ClipGeneration.TimeToSeconds` | core/clip_generator.py:154-161 | any field count other than two or three gives 0 |
| `ClipGeneration.MinSecFields` | core/clip_generator.py:157-158 | `MM:SS` gives 60m + s seconds |
| `ClipGeneration.HourMinSecFields` | core/clip_generator.py:159-160 | `HH:MM:SS` gives 3600h + 60m + s seconds |
| `ClipGeneration.MinSecDigits` | core/clip_generator.py:156-158 | a one-digit minute and two-digit seconds give their value |
| `ClipGeneration.Glob` | core/clip_generator.py:137 | only matching names are listed, and some name is whenever any matches |
| `ClipGeneration.GlobFirst` | core/clip_generator.py:137-139 | the first match is the first matching name in directory order |
| `ClipGeneration.FirstMatch` | core/clip_generator.py:130-141 | a video is found exactly when some pattern matches some name |
| `ClipGeneration.FindVideoNone` | core/clip_generator.py:130-141 | no video is found exactly when the directory holds no `.mp4` file |
| `ClipGeneration.FindVideoFile` | core/clip_generator.py:127-141 | the pattern loop returns the first match of the first pattern that matches |
| `ClipGeneration.FindVideoPrefersPart` | core/clip_generator.py:130-139 | a name ending in `_{part}.mp4` wins, the first such in directory order |
| `ClipGeneration.NegativeDurationAsked` | core/clip_generator.py:167-169 | a clip from `1:00` to `0:30` asks ffmpeg for -30 seconds |
| `ClipGeneration.Item` | core/clip_generator.py:57-62 | `v[key]` succeeds exactly on a dictionary holding the key, with its value |
| `ClipGeneration.ItemOr` | core/clip_generator.py:95 | `v.get` succeeds exactly on a dictionary |
| `ClipGeneration.FormatRank` | core/clip_generator.py:74 | `{rank:02d}` succeeds exactly on integers and booleans |
| `ClipGeneration.CutMoment` | core/clip_generator.py:66-97 | a clip that was cut is named from the formatted rank and the sanitised title |
| `ClipGeneration.Collect` | core/clip_generator.py:52-100 | no more clip entries than moments |
| `ClipGeneration.CollectEntries` | core/clip_generator.py:86-97 | without an exception, the entries are those of the moments that gave one, in order |
| `ClipGeneration.EntriesSnoc` | core/clip_generator.py:86-97 | one more moment appends its entry when it gives one |
| `ClipGeneration.CollectFirstRaise` | core/clip_generator.py:117-125 | the loop raises the error of the first moment that raised |
| `ClipGeneration.CollectRaised` | core/clip_generator.py:117-125 | after an exception, the later moments change nothing |
| `ClipGeneration.CollectRaises` | core/clip_generator.py:117-125 | any moment that raises makes the loop raise |
| `ClipGeneration.CollectStep` | core/clip_generator.py:56-100 | one more moment raises, adds nothing, or appends its entry |
| `ClipGeneration.Steps` | core/clip_generator.py:56-100 | one outcome per moment |
| `ClipGeneration.ProcessMoment` | core/clip_generator.py:56-100 | the loop body computes the moment's outcome |
| `ClipGeneration.CollectClips` | core/clip_generator.py:56-100 | the moment loop gathers the entries up to the first exception |
| `ClipGeneration.Generate` | core/clip_generator.py:42-125 | the success count is the number of clips; success means at least one clip; an error reports nothing |
| `ClipGeneration.GenerateClips` | core/clip_generator.py:42-125 | the run computes the report of the analysis file |
| `ClipGeneration.GenerateReportsClips` | core/clip_generator.py:103-112 | a run that gets through reports every moment and lists the clips cut, in order, as many as it counts |
| `ClipGeneration.MissingTimingFails` | core/clip_generator.py:56-125 | a moment without `timing` fails the whole run, and no clips are reported |
| `VideoUtils.ReplaceEach` | core/video_utils.py:414-416 | replacing characters keeps the length |
| `VideoUtils.ReplaceStep` | core/video_utils.py:415-416 | one more replaced character extends the one-for-one replacement |
| `VideoUtils.Truncate` | core/video_utils.py:419-420 | the name is at most the length limit |
| `VideoUtils.SanitizeFilename` | core/video_utils.py:412-422 | the method computes the sanitised name |
| `VideoUtils.SanitizedSafe` | core/video_utils.py:412-422 | the sanitised name holds no unsafe character, fits the limit and is trimmed |
| `VideoUtils.SanitizeIdempotent` | core/video_utils.py:412-422 | sanitising twice gives what sanitising once gave |
| `VideoUtils.SanitizedPositions` | core/video_utils.py:414-422 | every kept character sits in its place, unsafe ones turned into `_` |
| `VideoUtils.CreateDownloadProgress` | core/video_utils.py:378-391 | no callback, no wrapper; otherwise the wrapper covers the given range |
| `VideoUtils.DownloadEnds` | core/video_utils.py:388 | 0 and 100 percent map to the range's start and end |
| `VideoUtils.DownloadMonotone` | core/video_utils.py:388 | more download progress never reports less, and stays in the range |
| `VideoUtils.ScaleMonotone` | core/video_utils.py:388 | the scaled percentage is monotone, 0 at 0 and the full span at 100 |
| `VideoUtils.WhisperProgress` | core/video_utils.py:393-405 | no callback, no report; a zero total raises; otherwise the message and progress are reported |
| `VideoUtils.WhisperRange` | core/video_utils.py:403 | part 0 starts the range, the last part ends it, and the progress grows with the part |
| `VideoUtils.InterpolateRange` | core/video_utils.py:403 | interpolated points lie in order inside the range |
| `VideoUtils.IsLocalVideoFile` | core/video_utils.py:167-180 | a URL is never local; a local file exists and has a video extension |
| `VideoUtils.VideoFileByExtension` | core/video_utils.py:183-185 | a name with a video extension, in any letter case, is a video file |
| `VideoUtils.VideoFileEnds` | core/video_utils.py:183-185 | a video file's lower-cased path ends with one of the extensions |
| `VideoUtils.SuffixOfName` | core/video_utils.py:180 | the suffix is the extension after the last dot of the name |
| `VideoUtils.FileName` | core/video_utils.py:180 | the name ends the path and holds no separator |
| `VideoUtils.ValidateVideoSource` | core/video_utils.py:486-493 | valid exactly for a local video file or an http(s) URL, labelled accordingly; unknown otherwise |
| `VideoUtils.FtpUnknown` | core/video_utils.py:486-493 | an `ftp://` source is unknown |
| `VideoUtils.SearchFrom` | core/video_utils.py:518 | the leftmost hit at or after the start, and no hit before it |
| `VideoUtils.BvId` | core/video_utils.py:517-520 | a found id starts with `BV`, and none is found exactly when the URL has no `BV` followed by a letter or digit |
| `VideoUtils.BilibiliFirst` | core/video_utils.py:517-520 | a `BV` id wins over every YouTube form |
| `VideoUtils.Group` | core/video_utils.py:531-533 | a captured group is never empty |
| `VideoUtils.FirstGroup` | core/video_utils.py:530-534 | the first group found is never empty |
| `VideoUtils.FirstGroupIs` | core/video_utils.py:530-534 | forms that do not match are skipped, in order |
| `VideoUtils.VideoId` | core/video_utils.py:517-537 | a found id is never empty |
| `VideoUtils.ExtractVideoId` | core/video_utils.py:517-537 | the method computes the video id |
| `VideoUtils.YouTubeOrder` | core/video_utils.py:523-534 | without a `BV` id, the first YouTube form that matches gives the id |
| `VideoUtils.NoVideoId` | core/video_utils.py:536-537 | no `BV` id and no YouTube form means no id |
| `VideoUtils.Ending` | core/video_utils.py:555 | a name is listed exactly when it is in the directory and has the suffix, and the list is empty exactly when none has it |
| `VideoUtils.EndingAppend` | core/video_utils.py:555 | the matches keep the directory order: those of the first entries come before those of the rest |
| `VideoUtils.FirstDir` | core/video_utils.py:544-547 | none exactly when no entry starts with the id and is a directory; otherwise the first entry that does |
| `VideoUtils.ExistingDownloadFailure` | core/video_utils.py:513-593 | every failure gives the same result, exactly when there is no id, no directory or no video |
| `VideoUtils.ExistingDownloadPrefersMp4` | core/video_utils.py:555-559 | a found video is an `.mp4`, `.mkv` or `.webm`, and an `.mp4` whenever the directory holds one |
| `VideoUtils.FirstVideoEnds` | core/video_utils.py:555-559 | the first video file is an `.mp4` when there is one, else an `.mkv` or `.webm` |
| `VideoUtils.FindExistingDownload` | core/video_utils.py:496-593 | the method computes the lookup of an earlier download |
| `VideoUtils.PartNames` | core/video_utils.py:363-367 | a name is listed exactly when it is in the directory and matches the part pattern |
| `VideoUtils.PartNamesAppend` | core/video_utils.py:363-367 | the parts keep the directory order: those of the first entries come before those of the rest |
| `VideoUtils.Paths` | core/video_utils.py:363-367 | one path per name |
| `VideoUtils.VideoPartsSorted` | core/video_utils.py:356-372 | both lists come back sorted and hold exactly the paths of the matching names |
| `CoverImage.OrText` | core/cover_image_generator.py:246 | the line list is never empty |
| `CoverImage.WrapNeverEmpty` | core/cover_image_generator.py:246 | wrapping never gives no lines; an empty text gives the one empty line |
| `CoverImage.CharFoldInvariant` | core/cover_image_generator.py:227-244 | the character loop keeps its invariant: the lines spell the text read so far |
| `CoverImage.WrapCharsMeaning` | core/cover_image_generator.py:225-246 | without a space, the lines spell the text exactly, and each fits or is one character |
| `CoverImage.WrapCharLoop` | core/cover_image_generator.py:225-244 | the character loop computes the character wrapping |
| `CoverImage.Lines` | core/cover_image_generator.py:218-224 | one line per group of words |
| `CoverImage.JoinLines` | core/cover_image_generator.py:218-224 | the lines joined by spaces are the words joined by spaces |
| `CoverImage.Wrap` | core/cover_image_generator.py:197-246 | the line list is never empty |
| `CoverImage.WrapText` | core/cover_image_generator.py:197-246 | the method computes the wrapping |
| `CoverImage.WordFoldInvariant` | core/cover_image_generator.py:205-224 | the word loop keeps its invariant over the words read so far |
| `CoverImage.WrapWordsMeaning` | core/cover_image_generator.py:204-224 | the lines hold all the words in order, and each fits or is one word |
| `CoverImage.WrapWordLoop` | core/cover_image_generator.py:204-224 | the word loop computes the word wrapping |
| `CoverImage.LoadFont` | core/cover_image_generator.py:170-176 | a loaded TrueType font has the requested size |
| `CoverImage.MinFontSize` | core/cover_image_generator.py:166 | 40 percent of the initial size, truncated |
| `CoverImage.FirstFittingMeaning` | core/cover_image_generator.py:165-186 | the size chosen is the largest size in steps of 2 down to the minimum that fits, and none larger fits |
| `CoverImage.FitsAtSizeIs` | core/cover_image_generator.py:179-181 | a size fits exactly when the text wraps into at most the allowed lines |
| `CoverImage.GetFontForMaxLines` | core/cover_image_generator.py:162-195 | the search loop computes the chosen font |
| `CoverImage.TargetWidth` | core/cover_image_generator.py:101-102 | three quarters of the height, truncated |
| `CoverImage.VerticalCrop` | core/cover_image_generator.py:98-112 | a wider frame is cropped to a centred full-height band of the target width; otherwise no crop |
| `CoverImage.SampleTime` | core/cover_image_generator.py:70 | the requested time, capped at the middle of the video |
| `CoverImage.VerticalPath` | core/cover_image_generator.py:85 | a path without `.jpg` is unchanged |
| `CoverImage.VerticalPathOfJpg` | core/cover_image_generator.py:85 | `x.jpg` becomes `x_vertical.jpg` |
| `CoverImage.GenerateCover` | core/cover_image_generator.py:44-94 | a successful run writes the cover and, when asked, the vertical cover; an unopened video writes nothing |
| `CoverImage.GenerateCoverSucceeds` | core/cover_image_generator.py:63-94 | the run succeeds exactly when the video opens and every image is saved |
| `Platform.AnyMatchSome` | core/downloaders/video_downloader.py:77-79 | some pattern matches exactly when one of the listed patterns does |
| `Platform.DetectPlatform` | core/downloaders/video_downloader.py:51-82 | Bilibili exactly when a Bilibili pattern matches; YouTube exactly when none does and a YouTube pattern does |
| `Platform.DetectedIsWeb` | core/downloaders/video_downloader.py:51-82 | only a web URL is classified as a platform |
| `Platform.MatchesWeb` | core/downloaders/video_downloader.py:62-75 | a pattern matches only URLs starting with `http://` or `https://` |
| `Platform.MatchesUnder` | core/downloaders/video_downloader.py:63-66 | under `http://` or `https://`, a pattern matches exactly when the rest of the URL starts with its body, with or without its optional host prefix, and the pattern's tail holds after it |
| `Platform.WwwVideoFirst` | core/downloaders/video_downloader.py:63 | the first pattern accepts a `www.bilibili.com/video/` URL exactly when `[Bb][Vv]` and a letter or digit follow |
| `Platform.WwwVideoOthers` | core/downloaders/video_downloader.py:64-66 | the `/bangumi/`, `b23.tv` and `m.`-host patterns never accept a `www.bilibili.com/video/` URL |
| `Platform.WwwVideoNeedsBv` | core/downloaders/video_downloader.py:63-66 | a `www.bilibili.com/video/` URL is Bilibili exactly when a `BV` id starts after `/video/` |
| `Platform.BareVideoMatches` | core/downloaders/video_downloader.py:66 | the last pattern accepts `bilibili.com/video/` and `m.bilibili.com/video/` whatever follows |
| `Platform.BareVideoAny` | core/downloaders/video_downloader.py:66 | a `bilibili.com/video/` or `m.bilibili.com/video/` URL is Bilibili whatever follows `/video/` |
| `Platform.MatchesExtend` | core/downloaders/video_downloader.py:77-79 | `re.match` anchors at the start only: a matching URL still matches with any text appended |
| `Platform.AnyMatchExtend` | core/downloaders/video_downloader.py:77-79 | a URL some listed pattern matches is still matched with any text appended |
| `Platform.DetectExtend` | core/downloaders/video_downloader.py:77-82 | appending text never takes a URL away from Bilibili, and never makes a classified URL unknown |
| `Platform.YouTubeHasId` | core/downloaders/video_downloader.py:70-75 | a YouTube URL carries a video id the download lookup can extract |
| `Platform.Dispatch` | core/downloaders/video_downloader.py:94-105 | ValueError for an unknown platform, otherwise the matching downloader's result |
| `Platform.BilibiliFirst` | core/downloaders/video_downloader.py:124-137 | a URL both lists accept is downloaded from Bilibili |

## Left out

- `split_by_segment_count`, `split_video_async` and the command-line `main` of the splitter are not modelled. They are a thin wrapper over `split_by_segments`, and thread or async plumbing.
- ffmpeg, ffprobe, the language model, `json.loads`, the downloaders and the filesystem are not modelled. Each is a parameter (a function or an optional value) of the operation that calls it.
- Floating-point times are not modelled. Times are integer milliseconds.
  - Python's `(seconds % 1) * 1000` may lose one millisecond to rounding; the model does not.
  - The durations of `check_duration_needs_splitting` and the progress callbacks are reals.
- `VideoSplitting.VideoSplitter.SplitByDuration`, `VideoSplitting.CutWindows` and `VideoSplitting.VideoSplitter.SplitByTimeDuration` exclude only the runs that never end: a duration of zero or less while the subtitles (or the probed length) end after 0. There the source's window loop does not advance. Every other run with such a duration is modelled: an unreadable or aborted subtitle file, a failed probe, no subtitles, subtitles ending at 0, or a probed length of 0 or less.
- `VideoSplitting.VideoSplitter.SplitByTimeDuration` takes the base name (`Path(video).stem`) as a parameter instead of deriving it.
- `Splitter.FormatClock`: a negative time is not written as a readable stamp. The subtitle adjustment clamps at zero, so the written parts never hit this.
- The regex class `\w` is a parameter `word`. Its Unicode definition is outside the model.
- `ClipGeneration.Glob` treats the part name literally. Glob metacharacters inside a part name are not modelled.
- `VideoUtils.PartNames` and `VideoUtils.VideoPartsSorted` match `base_name` literally in the same way. Glob metacharacters inside a base name are not modelled.
- `PyStr.IsDigit` accepts the ASCII digits only, and so do `PyStr.ParseInt` and every reader built on them. Python's `int()` and the `\d` of `re` also accept the other Unicode decimal digits. This touches the SRT index and stamp lines of both readers and the clock strings of the clip generator.
- `JsonValue.Repr` writes every string between single quotes without escaping. Python's `repr` escapes quotes, backslashes and control characters, and switches to double quotes for a string holding a single quote. Only the `str()` of non-string fields rendered into the aggregation prompt is affected.
- `JsonValue.Get` returns the first binding of a key. `json.loads` keeps the last one. Parsed objects are taken to have distinct keys.
- Exceptions are modelled by their class name only. Messages and tracebacks are left out.
- The content of `_create_summary`'s summary file is not modelled. Only whether it could be written is modelled.
- Logging is not modelled. Neither is the I/O of the progress callbacks; only the values they report are modelled.
- `Path` normalisation is not modelled, and `lower()` is ASCII only.
- `_add_text_overlay`'s drawing and `_find_chinese_font` are not modelled. The font search sees only a text-width oracle and whether a font file was found.
- Other utilities in `core/video_utils.py` are not modelled, since they do no logic of their own: `ProcessingResult`, `ResultsFormatter`, `VideoMetadataExtractor`, `VideoFileManager`, `VideoDirectoryProcessor` and `process_local_video_file`.
- The analyzer's own `seconds_to_time` is not modelled. The splitter's is.
- The current time is a parameter `now`, the `isoformat()` string.
- Debug files are not written; each export is recorded as an event holding the answer and the repair attempt.
- JSON numbers are integers only. Floating-point JSON values are not modelled.
