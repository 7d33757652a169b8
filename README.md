# Edit-Click editing pipeline — verified model of the decision logic

Edit-Click turns a talking-head video into an edited clip. It works in stages:

- Speech is transcribed into timestamped segments (`whisper_stt.py`).
- Each segment gets acoustic descriptors, computed by `Audio_Features.py` and applied by `audio_librosa_runner.py`.
- The segments are attached to the detected shots (`main.py`).
- Transitions, segment tails and the head and tail of the video are cut away, and the analysis document is rebuilt on the new timeline (`hardcut.py`).
- The shots are grouped into background-music windows, and each window gets a mood and a music length (`bgm_create.py`).
- The video's timeline is split into music groups, and the generated clips are paired with them (`final_mapping.py`).
- One subtitle filter is written per segment (`subtitle.py`).

This project models those decisions in Dafny. Each module follows one source file:

| module | file | what it holds |
|---|---|---|
| `Common`, `Sorting` | shared | the document's values (segments, shots, intervals, results), `str.strip`/`lower`, and the stable sort by key that `list.sort`/`sorted` perform |
| `HardcutIntervals` | hardcut.py | interval clamping, merging, keep-set construction, offsets and the cut plan |
| `HardcutRebuild` | hardcut.py | `rebuild_json_with_shots`: the segment timeline, its squeezing, the new shots and the segment attachment |
| `BgmCreate` | bgm_create.py | shot grouping, segment collection, mood analysis and music length |
| `FinalMapping` | final_mapping.py | `compute_bgm_groups` and the pairing of groups with music files |
| `Subtitle` | subtitle.py | text escaping, style choice and the visible window of each filter |
| `SegmentMerge` | main.py | `_merge_segments_into_shots`, as a class over the mutable shot table |
| `WhisperStt` | whisper_stt.py | the chunk filter, the sentence-ending split and the renumbering |
| `AudioFeatures` | Audio_Features.py | tone, volume, arrangement and rhythm bucketing, and the tempo snap |
| `AudioRunner` | audio_librosa_runner.py | words per second and the in-place feature attachment loop over an array of segments |

How the source's constructs are modelled:

- **Loops** are methods, each proved equal to a recursive specification function. The properties are proved as lemmas about those functions.
- **Dictionaries mutated in place** are modelled in two ways:
  - the shot table of `_merge_segments_into_shots` is a class field;
  - the segment list of the audio runner is an array.
- **Times** are `real`. A value that `float()` cannot convert is `None`.
- **Exceptions** become `Result` errors.

## Model

| member | source | states |
|---|---|---|
| Common.CollectShots | hardcut.py:29-36 | the first shot of every non-empty key, stably sorted by start: sorted and a permutation of the present shots |
| Common.PresentShots | hardcut.py:31-34 | every present shot is kept and nothing else is; never more shots than keys |
| Common.PresentShotsIndexed | hardcut.py:29-34 | the present shots are, one for one and in key order, the entries of the non-empty keys: strictly increasing key positions pick them, and every non-empty key is picked |
| Common.CollectSegmentsInKeyOrder | hardcut.py:39-47 | `_collect_segments` is the segments of the present shots, shot after shot, in key order |
| Common.ShotSegmentsPermutation | hardcut.py:170-189 | flattening a reordering of the shots gives a reordering of the same segments |
| Common.CollectSegmentsSameBag | hardcut.py:39-47 | the segments of the cut plan (key order) and of the timeline (start order, hardcut.py:170-189) are the same multiset |
| Common.Strip | whisper_stt.py:43 | `str.strip`: no whitespace at either end, and empty exactly when the text is all whitespace |
| Common.StripSlice | whisper_stt.py:43 | `str.strip` returns one slice of the text, with nothing but whitespace before and after it |
| Common.Lower | subtitle.py:64 | `str.lower` maps every ASCII letter and keeps the length |
| Sorting.SortBy | hardcut.py:35 | the sort's result is sorted by the key and a permutation of the input |
| Sorting.SortSorted | hardcut.py:61 | sorting a list already in key order leaves it unchanged (stability) |
| HardcutIntervals.AddInterval | hardcut.py:50-54 | appends the clamped pair exactly when it is longer than EPS, otherwise leaves the list unchanged; the appended pair is (clamp(s), clamp(e)) and lies in [0, duration] |
| HardcutIntervals.NormalizeAllMembers | hardcut.py:60 | the normalised list holds exactly the (min, max) of the pairs longer than EPS |
| HardcutIntervals.MergeIntervals | hardcut.py:57-73 | the sort-and-sweep loop equals the merge function, including the `intervals[0]` IndexError on an all-degenerate list |
| HardcutIntervals.SweepAll | hardcut.py:61-72 | the sweep loop over a sorted, non-empty list returns the sweep from its first interval |
| HardcutIntervals.MergeResult | hardcut.py:57-73 | the merge fails exactly on a non-empty list of degenerate pairs; otherwise its output is well separated and in start order |
| HardcutIntervals.MergeCovers | hardcut.py:57-73 | every normalised input pair lies inside one merged interval |
| HardcutIntervals.MergeBridgesOnlySmallGaps | hardcut.py:66-71 | every point of a merged interval is inside, or at most EPS before, some input pair |
| HardcutIntervals.MergeInside | hardcut.py:57-73 | pairs inside [lo, hi] merge to intervals inside [lo, hi] |
| HardcutIntervals.MergeIdempotent | hardcut.py:57-73 | merging a merged list returns it unchanged |
| HardcutIntervals.MergeOfOrdered | hardcut.py:60-73 | on normalised pairs in start order, the merge is the sweep alone |
| HardcutIntervals.MergeExample | hardcut.py:57-73 | the cuts (0,2), (1,3), (50,50.5) merge to (0,3), (50,50.5) |
| HardcutIntervals.BuildKeeps | hardcut.py:76-85 | the keep loop equals the keep function |
| HardcutIntervals.KeepsComplementCuts | hardcut.py:76-85 | for a merged cut set inside [0, D], the keeps are separated, inside [0, D] and disjoint from every cut; keeps and cuts cover [0, D] up to slivers of at most EPS |
| HardcutIntervals.KeepsExample | hardcut.py:76-85 | those merged cuts leave the keeps (3,50), (50.5,100) in a 100 s video |
| HardcutIntervals.ComputeOffsets | hardcut.py:88-94 | each offset is the total length of the keeps before it; the total is the sum of all keep lengths |
| HardcutIntervals.AddShotMargins | hardcut.py:119-121 | the loop appends the clamped 3.5 s window around the start of every shot after the first |
| HardcutIntervals.AddSegmentTails | hardcut.py:124-135 | the loop appends the last 2 s of every parsable segment at least 15 s long |
| HardcutIntervals.RawCutsShape | hardcut.py:112-135 | every raw cut lies in [0, D] and is longer than EPS; at most 2 + shots + segments of them; for D >= 2 the head and tail trims come first; windows and tails already inside [0, D] appear unchanged |
| HardcutIntervals.RawCutsExact | hardcut.py:112-133 | the raw cuts are exactly, in this order, the clamped head and tail trims, the clamped windows of the shots after the first in shot order, and the clamped tails of the long segments in segment order, each kept only when longer than EPS |
| HardcutIntervals.RawCutsMembers | hardcut.py:112-133 | both directions: an interval is a raw cut iff it is the clamp, longer than EPS, of a trim, of a later shot's window or of a long segment's tail |
| HardcutIntervals.TailsMembers | hardcut.py:123-133 | a tail candidate exists exactly for each segment whose times parse, that is not inverted and lasts at least 15 s |
| HardcutIntervals.ClampAllMembers | hardcut.py:50-54 | repeated `_add_interval` keeps exactly the clamped candidates longer than EPS |
| HardcutIntervals.MergedRawCuts | hardcut.py:137-138 | the raw cuts always merge without error, into a cut set inside [0, D] |
| HardcutIntervals.ComputeCutAndKeepIntervals | hardcut.py:97-148 | ValueError for a duration <= 0; otherwise the merged cuts, their keeps and the duration |
| HardcutRebuild.RemapSegments | hardcut.py:192-207 | the first rebuild loop equals the layout of the segments from 0, and the logical duration is where that layout ends |
| HardcutRebuild.PlaceSegment | hardcut.py:195-206 | one pass keeps the layout invariant: a segment longer than 0.01 s is placed at t with its length and t moves to its end, a shorter one is skipped |
| HardcutRebuild.LayoutContiguous | hardcut.py:192-205 | the laid-out segments are contiguous from the origin |
| HardcutRebuild.LayoutLengths | hardcut.py:197-204 | every laid-out segment keeps its original times and length |
| HardcutRebuild.LayoutKeepsSurvivors | hardcut.py:197-199 | exactly the segments longer than 0.01 s are laid out, in their order |
| HardcutRebuild.LayoutEnd | hardcut.py:204-207 | the timeline ends after the sum of the surviving lengths |
| HardcutRebuild.RescaleToFit | hardcut.py:209-220 | the squeeze loop equals the rescale function when the timeline overruns by more than 1 ms, and does nothing otherwise |
| HardcutRebuild.BuildTimeline | hardcut.py:192-220 | the remap and squeeze loops together give the segment timeline, and the logical duration is where it ends |
| HardcutRebuild.RescaleLengths | hardcut.py:214-219 | rescaling keeps the segments and their order and multiplies every length by the ratio |
| HardcutRebuild.RescaleContiguous | hardcut.py:214-219 | a rescaled timeline is contiguous |
| HardcutRebuild.RescaleEnd | hardcut.py:214-220 | rescaling multiplies the timeline's length by the ratio |
| HardcutRebuild.TimelineSegments | hardcut.py:192-220 | the rebuilt timeline is contiguous from 0 and holds exactly the surviving segments, in order |
| HardcutRebuild.TimelineFits | hardcut.py:209-220 | a squeezed timeline ends exactly at the cut video's length |
| HardcutRebuild.ShotKeptLength | hardcut.py:229-234 | the inner loop sums a shot's overlaps with the keeps that are longer than EPS |
| HardcutRebuild.KeptLenBound | hardcut.py:226-234 | against disjoint, ordered keeps a shot never keeps more than its own length |
| HardcutRebuild.LayShotsShape | hardcut.py:244-262 | one new shot per shot that kept more than EPS, in order, with its probability and kept length; the new shots start empty and are contiguous |
| HardcutRebuild.BuildNewShots | hardcut.py:223-262 | the shot-info and new-shot loops equal the layout of the kept shots from 0 |
| HardcutRebuild.BuildBaseShots | hardcut.py:223-275 | the new shots, or the single shot spanning the whole timeline when no shot survives |
| HardcutRebuild.BaseShots | hardcut.py:265-276 | with no kept shot there is one shot over the whole timeline, with probability 1 |
| HardcutRebuild.AttachIndex | hardcut.py:283-291 | a segment goes to the first shot whose widened span holds its midpoint, and to the last shot when none does |
| HardcutRebuild.FindShot | hardcut.py:283-291 | the search loop with its break returns that index |
| HardcutRebuild.AttachSegments | hardcut.py:278-291 | the attachment loop appends every segment to the list of its chosen shot |
| HardcutRebuild.AttachOne | hardcut.py:278-291 | one segment joins the list of its chosen shot; every other shot is unchanged |
| HardcutRebuild.AttachCountsAll | hardcut.py:278-291 | together the shots receive exactly as many segments as were placed |
| HardcutRebuild.AttachedToChosen | hardcut.py:278-291 | every segment is in the list of the shot `AttachIndex` names |
| HardcutRebuild.RebuildJsonWithShots | hardcut.py:151-313 | the rebuilt document holds the timeline, the new shots with their segments, the durations and the segment count |
| HardcutRebuild.RunHardcut | hardcut.py:390-398 | compute the cut plan; stop when nothing is kept; otherwise rebuild against the kept total, which lies in [0, duration]: the segments are the timeline of the shots' segments squeezed to that total, each new shot carries exactly the segments attached to it, and the original duration is the video's |
| BgmCreate.BuildBgmGroups | bgm_create.py:47-78 | the grouping function: the sweep, then folding a short last group into the one before it |
| BgmCreate.SweepGroups | bgm_create.py:51-69 | the sweep loop equals the sweep function |
| BgmCreate.GroupsCount | bgm_create.py:47-78 | there is a group exactly when there is a shot, never more groups than shots, and every group but the last is at least the window |
| BgmCreate.SweepShape | bgm_create.py:55-69 | the sweep gives between one group and one group per shot; the first group starts at the running start, and every closed group reaches the window |
| BgmCreate.SweepTiles | bgm_create.py:55-69 | on well-formed shots the groups tile the span from the running start to the last shot's end |
| BgmCreate.FoldTiles | bgm_create.py:71-76 | folding keeps the tiling and, once there are two groups, makes every group reach the window |
| BgmCreate.GroupsTile | bgm_create.py:47-78 | on well-formed shots the groups tile [first start, last end], and with two or more groups each one reaches the window |
| BgmCreate.OverlappingShotsShortGroup | bgm_create.py:47-78 | overlapping shots (0,20), (5,6) give the single short group (0,6) |
| BgmCreate.SingleGroupScenario | bgm_create.py:47-78 | the shots (0,5), (5,8), (8,20) form the single group (0,20) |
| BgmCreate.CollectSegmentsForGroup | bgm_create.py:81-102 | the nested loop keeps, in order, every segment that overlaps the group, weighted by its overlap |
| BgmCreate.InGroupIffOverlap | bgm_create.py:95-99 | the two skip tests amount to "the overlap is positive" |
| BgmCreate.GroupWeightsShape | bgm_create.py:88-100 | each weight is positive and at most the lengths of both the segment and the group; every kept segment comes from the input |
| BgmCreate.TopLabelIsFirstMax | bgm_create.py:205-208 | no label for an empty counter; otherwise a label of largest weight, strictly heavier than every label inserted before it |
| BgmCreate.Primary | bgm_create.py:148 | the first bucket in table order with the largest time |
| BgmCreate.AnalyzeMood | bgm_create.py:105-229 | the accumulation loop and the decisions equal the mood function |
| BgmCreate.NegativeOverride | bgm_create.py:155-170 | anger or sadness at 60% or more gives the serious core; 40% or more with brightness under 0.5 gives at least the somber one |
| BgmCreate.EmoTotalsSum | bgm_create.py:112-124 | with positive weights the bucket times add up to the total weight |
| BgmCreate.RatiosSumToOne | bgm_create.py:140-141 | with a positive total the five ratios sum to 1 |
| BgmCreate.AvgBpmDefault | bgm_create.py:193-196 | avg_bpm is 100 when no segment has a positive tempo |
| BgmCreate.AvgBpmIsWeightedMean | bgm_create.py:126-196 | otherwise avg_bpm lies between the smallest and the largest positive tempo |
| BgmCreate.TargetLength | bgm_create.py:354 | the music length is the group length minus 1.5 s, never under 4 s |
| BgmCreate.EmptyGroupMood | bgm_create.py:344-352 | a group with no segment is scored as one neutral segment: uplifting core, no nuance, upbeat tempo, 100 BPM, no texture |
| BgmCreate.PlanBgm | bgm_create.py:326-354 | `main`'s planning: the plans of the groups of the collected shots |
| BgmCreate.PlanGroups | bgm_create.py:342-354 | the loop over the groups gives one plan per group, in order: plan k is the plan of group k |
| BgmCreate.PlanGroup | bgm_create.py:343-354 | one pass collects, falls back to the placeholder, scores the mood and sizes the music |
| FinalMapping.CollectBoundaries | final_mapping.py:50-59 | the boundary loop and sort give the sorted candidate boundaries |
| FinalMapping.CandidatesMembers | final_mapping.py:51-57 | a time is a candidate exactly when it is a shot start strictly inside (0, D) |
| FinalMapping.BoundariesShape | final_mapping.py:50-59 | the boundaries are sorted, at most one per shot, and exactly the starts after the first shot that lie strictly inside (0, D) |
| FinalMapping.ComputeBgmGroups | final_mapping.py:40-73 | the method equals the groups function: ValueError for D <= 0, the whole video when there are no shots, otherwise the acceptance sweep |
| FinalMapping.AcceptBoundaries | final_mapping.py:60-71 | the acceptance loop and the final group equal the sweep from 0 |
| FinalMapping.GroupsFromTile | final_mapping.py:60-73 | the sweep yields nothing exactly when at most 0.1 s is left; otherwise the groups run contiguously to D and break only at boundaries |
| FinalMapping.GroupsFromLong | final_mapping.py:63-71 | once a boundary is accepted, every group is at least the minimum long |
| FinalMapping.GroupsFromSplit | final_mapping.py:63-71 | with two or more groups, every group is at least the minimum long |
| FinalMapping.GroupsCoverVideo | final_mapping.py:40-73 | error iff D <= 0; otherwise groups from 0 running contiguously to D, split only at shot starts, each at least the minimum long when there are several |
| FinalMapping.NoBoundaryOneGroup | final_mapping.py:60-73 | a video between 0.1 s and twice the minimum long is one group |
| FinalMapping.NoneAccepted | final_mapping.py:63-71 | in such a video no boundary is accepted |
| FinalMapping.PadClips | final_mapping.py:82-133 | the pairing loop equals the clip function, with no track when there are no files, no pairs or no clips |
| FinalMapping.ClipsChosen | final_mapping.py:97-129 | group i gets a clip exactly when i < min(#groups, #files), the group is longer than 0.1 s and its file exists; the clip has the group's length, and indices increase |
| FinalMapping.NoPairNoTrack | final_mapping.py:82-89 | no music file or no group means no track |
| FinalMapping.ClipsLength | final_mapping.py:97-129 | there are never more clips than pairs |
| Subtitle.EscapeIsCharwise | subtitle.py:47-57 | the six replacement passes equal one character-by-character escaping |
| Subtitle.EscapePassesChar | subtitle.py:51-56 | on one character the passes escape `\ " : ,`, drop `'` and turn a newline into a space |
| Subtitle.EscapeEachClean | subtitle.py:55-56 | escaped text holds no single quote and no newline |
| Subtitle.UnescapeEscape | subtitle.py:47-57 | un-escaping the result gives back the text without quotes and with newlines turned into spaces |
| Subtitle.EscapeTextSpec | subtitle.py:47-57 | `None` gives ""; otherwise the result is clean and un-escapes to the cleaned text |
| Subtitle.EscapeEachEmpty | subtitle.py:47-57 | the escaped text is empty exactly when the input is only single quotes |
| Subtitle.StyleSize | subtitle.py:60-96 | the size is the emotion's size plus the loudness shift, inside [38, 60], so the clamp to [32, 64] never binds |
| Subtitle.StyleColor | subtitle.py:72-94 | "bright" in the tone gives yellow; no tone keeps the emotion's colour; "ang" ends red or yellow; orange-red only for "angry"/"anger" |
| Subtitle.WindowShape | subtitle.py:120-130 | the visible window is never empty, lies inside the delayed segment, and is either at least 0.30 s or the whole delayed segment |
| Subtitle.FilterForSpec | subtitle.py:108-151 | a segment gets a filter iff its times parse, it lasts at least 0.05 s and its escaped text is non-empty; the filter carries the escaped text, the style and the window |
| Subtitle.FiltersFromSegments | subtitle.py:108-151 | filters are never more than the segments, and each is the filter of some segment |
| Subtitle.FiltersIndexed | subtitle.py:108-151 | the filters are, one for one and in segment order, the filters of exactly the segments that yield one |
| Subtitle.BuildDrawtextFilters | subtitle.py:100-168 | the loop equals the filter list; RuntimeError when it is empty |
| Subtitle.BuildFilter | subtitle.py:109-151 | one loop pass gives the filter of the segment, or none where the loop continues |
| Subtitle.TextFilter | subtitle.py:132-151 | the end of the pass: escaped stripped text and style, none for empty text |
| SegmentMerge.ShotMeta.MergeSegments | main.py:58-110 | the shots become the merged table and the whisper summary records the text, the language and the segment count |
| SegmentMerge.TargetFrom | main.py:81-87 | the first shot, in key order, whose span holds the midpoint, or none |
| SegmentMerge.TargetSpec | main.py:70-99 | a segment goes to shot k iff its times are valid, k holds its midpoint and no earlier shot does |
| SegmentMerge.MergedSpans | main.py:81-97 | merging never adds, removes or moves a shot |
| SegmentMerge.MergedSegments | main.py:88-97 | each shot ends with its own segments followed by exactly the entries attached to it, in input order |
| SegmentMerge.EachAttachedOnce | main.py:70-103 | the shots receive as many entries as there are segments with a target: each goes to one shot, the rest are dropped |
| SegmentMerge.AttachedFrom | main.py:70-99 | every attached entry is the entry of an input segment that targets that shot |
| WhisperStt.FilterChunks | whisper_stt.py:118-157 | the chunk loop equals the chunk-segment function |
| WhisperStt.ChunkSegmentSpec | whisper_stt.py:119-157 | a chunk is kept iff both times parse, it ends after its start and after 2 s, the clamped length reaches the minimum and its stripped text is non-empty; the segment starts at max(start, 2) |
| WhisperStt.ChunkSegmentsShape | whisper_stt.py:118-157 | every kept segment is what its chunk yields, its id is the chunk's position, and ids increase |
| WhisperStt.ChunkSegmentsComplete | whisper_stt.py:118-157 | conversely, every chunk the loop keeps yields a listed segment |
| WhisperStt.NextEnding | whisper_stt.py:40 | the lazy match stops at the first "입니다"/"합니다" from the position on |
| WhisperStt.SplitParts | whisper_stt.py:51-62 | the match-and-tail loop equals the parts function |
| WhisperStt.PartsShape | whisper_stt.py:51-62 | parts are non-empty; every part but the last ends with an ending and an optional mark; the last ends so or holds no ending |
| WhisperStt.StripKeepsEnding | whisper_stt.py:53-56 | stripping a matched part keeps its ending |
| WhisperStt.TailNoEnding | whisper_stt.py:59-62 | the stripped tail holds no ending |
| WhisperStt.MatchSingleEnding | whisper_stt.py:40-56 | a stripped match holds no ending but its closing one |
| WhisperStt.PartsSingleEnding | whisper_stt.py:51-62 | every part holds at most one ending, and only as its closing words |
| WhisperStt.PartsKeepText | whisper_stt.py:51-62 | with whitespace removed, the parts written one after another are the text |
| WhisperStt.PartsOfSegment | whisper_stt.py:43-62 | a segment's parts are well split, hold one ending each as closing words, and together are its text up to whitespace |
| WhisperStt.BuildChildren | whisper_stt.py:68-84 | the child loop equals the children function |
| WhisperStt.Total | whisper_stt.py:68 | the character total is positive (1 when there are no characters) |
| WhisperStt.ChildrenTiled | whisper_stt.py:69-84 | the children are contiguous from the segment's start |
| WhisperStt.ChildrenShares | whisper_stt.py:72-82 | child k carries part k and lasts its share of the characters |
| WhisperStt.ChildrenEnd | whisper_stt.py:68-84 | the children end after the parts' share of the duration |
| WhisperStt.ChildrenCover | whisper_stt.py:68-84 | children sharing all characters end exactly at start plus duration |
| WhisperStt.SplitKoreanEnds | whisper_stt.py:34-91 | the loop over the segments equals the split of every segment, in order |
| WhisperStt.SplitOne | whisper_stt.py:42-89 | one pass equals the split of one segment |
| WhisperStt.SplitIsChildren | whisper_stt.py:86-89 | a split segment becomes the children of its parts |
| WhisperStt.SplitTiles | whisper_stt.py:64-89 | a split segment becomes children that tile it exactly, each lasting its share of the characters |
| WhisperStt.SplitKeepsWhole | whisper_stt.py:43-66 | no time or no text drops the segment; a single part keeps it whole |
| WhisperStt.Renumber | whisper_stt.py:161-162 | the renumbering loop equals the numbered list |
| WhisperStt.NumberedSpec | whisper_stt.py:161-162 | ids become 0..n-1 in order and nothing else changes |
| WhisperStt.RunWhisper | whisper_stt.py:94-169 | the transcript is the stripped text, the filtered, split and renumbered segments, and the language |
| AudioFeatures.ToneLevel | Audio_Features.py:167-192 | the tone is the centroid band, one level darker when dulled, then one level brighter when brightened, clamped to the four tones |
| AudioFeatures.ToneMonotone | Audio_Features.py:174-190 | with rolloff and HF ratio fixed, a higher centroid never gives a darker tone |
| AudioFeatures.ToneScaleFree | Audio_Features.py:167-190 | bucketing at any sample rate equals bucketing at 16 kHz of the rescaled frequencies |
| AudioFeatures.ArrangementSpec | Audio_Features.py:214-241 | thin, light and fuller, each characterised both ways in terms of vad, speech rate and the emotion overrides |
| AudioFeatures.VolumeSpec | Audio_Features.py:205-241 | very gentle iff a low emotion score or rms <= -24 dB; otherwise the rms band |
| AudioFeatures.VolumeMonotone | Audio_Features.py:205-212 | a louder window never gets a quieter hint |
| AudioFeatures.RhythmSpec | Audio_Features.py:221-234 | the rhythm ignores the emotion score, and given a speech rate depends on it alone |
| AudioFeatures.RhythmMonotone | Audio_Features.py:221-227 | faster speech never gets a busier rhythm |
| AudioFeatures.ArgMinFrom | Audio_Features.py:154 | `argmin` returns the first index of a nearest choice |
| AudioFeatures.SnapNearest | Audio_Features.py:152-154 | a positive estimate snaps to a choice that no other is nearer than, with every lower choice strictly farther |
| AudioFeatures.SnapIsTable | Audio_Features.py:152-154 | the snap equals the table of half-way points 65, 75, …, 125, ties going down |
| AudioFeatures.SnapIdempotent | Audio_Features.py:152-155 | non-positive values stay; snapping twice equals snapping once |
| AudioFeatures.ExtractedKeys | Audio_Features.py:250-274 | the tone tag is one of the four names; the tempo is 0 or a choice; a basic rms level is kept as a number |
| AudioRunner.WordsZero | audio_librosa_runner.py:18 | a text has no word exactly when it is all whitespace |
| AudioRunner.WordsBound | audio_librosa_runner.py:18 | there are at most half as many words, rounded up, as characters |
| AudioRunner.WordsPerSecSpec | audio_librosa_runner.py:12-19 | 0 iff the duration is <= 0 or the text is blank; otherwise at least one word, and rate times duration is the word count |
| AudioRunner.AttachAudioFeatures | audio_librosa_runner.py:38-89 | the array becomes the attached list and the count is the number of windows; with no audio nothing changes |
| AudioRunner.MeasureSegment | audio_librosa_runner.py:48-85 | one pass updates the segment exactly when it has a window |
| AudioRunner.WindowSpec | audio_librosa_runner.py:49-64 | a window exists iff the times parse, end > start and the clamped window holds at least the minimum samples; it lies inside the audio |
| AudioRunner.EmptyAudioNoWindow | audio_librosa_runner.py:39-41 | with no audio no segment has a window, so the early return agrees with the loop |
| AudioRunner.AttachedSpec | audio_librosa_runner.py:47-85 | only features change: a segment without a window is returned as is, and one with a window gets its window's features |
| AudioRunner.UsedCountBound | audio_librosa_runner.py:43-87 | the count is at most the number of segments, and 0 with no audio |

## Left out

- I/O is not modelled: file loading and saving, ffmpeg and ffprobe subprocesses, the Stable Audio HTTP client, `librosa.load`, the speech recogniser, the emotion recogniser and logging. Their results are inputs (the audio becomes its length and a `measure` function; the recogniser becomes an `AsrResult`).
- The signal processing of Audio_Features.py is not modelled (`_safe_mean`, `_to_mono`, `compute_basic_stats`, `compute_spectral`, the tempo estimator). It is floating-point numerics over arrays, so its statistics are inputs.
- Floating point: all times are exact reals. `round(x, 2)`/`round(x, 3)` in stored times, frame indices (`int(round(t * fps))`) and the "%.2f" strings of merged segment times are kept as unrounded reals.
- The prose of the music prompts and the `secondary` emotion of `_analyze_mood` are not modelled. Only the decisions that feed the prose are: the core mood, the nuances, the tempo, avg_bpm and the texture labels.
- `_load_segments` of subtitle.py (reading and sorting the document's segments) is not modelled. The filter builder takes the segment list as given.
- Python's `str.split`/`str.strip` also treat Unicode spaces and the separators \x1c–\x1f as whitespace. Here only ASCII whitespace counts, and `lower` maps ASCII letters only.
- BgmCreate.GroupsTile: the "every group reaches the window" promise is proved only for well-formed shots (each ends no earlier than it starts, and none starts before the previous ends). BgmCreate.OverlappingShotsShortGroup shows that it fails for overlapping shots.
- FinalMapping.GroupsFromTile: stated for a minimum group length above 0.1 s (the default is 15 s). With a smaller minimum, the final group can be dropped after an accepted boundary.
- Subtitle.StyleSize: a text-valued `rms_db` that `float()` could parse is treated as unparsable.
- Subtitle.StyleColor: a `tone_tag` is modelled as text. A falsy value reads as "". A truthy non-text value makes `.lower()` raise AttributeError at subtitle.py:70, which the model does not capture.
- A segment `text` of `None` is modelled as the empty string, which is what `(text or "")` makes of it.
- AudioRunner.AttachAudioFeatures: the missing-file error and the decoding and resampling of the audio are outside the model. The recording is given as its sample count and rate.
- The try/except around a shot's start in final_mapping.py:52-55 cannot fire, because `_collect_shots` has already converted every start, so it is not modelled.
- WhisperStt.ChunkSegment: the choice between the "timestamp" and "timestamps" keys and the `isinstance` checks are folded into one optional timestamp list.
- Segment language: a missing key and an explicit `None` are both `None`.
- Python's `max(dict.items(), key=…)` and the mood counters iterate in insertion order. This is modelled by sequences in that order.

## Findings

No defect in the modelled logic was established. Outside it, bgm_create.py:13 calls `os.getenv`, but `os` is not among the imports at bgm_create.py:2-7. Importing bgm_create.py as written therefore raises NameError. The model treats that module as if `os` were imported.

Two conditions in the code can never be true:

- In subtitle.py:96, the font-size clamp never binds (Subtitle.StyleSize).
- In subtitle.py:128, the `vis_e <= vis_s` skip never fires (Subtitle.WindowShape).

Both are harmless.
