# Frame selection for accelerated bird-nest videos

This project models the core of a tool that speeds up long recordings of a
bird nest. The tool keeps a timestamp cache, a dict from video path to a
record. It fills the cache in three stages:

- **handleTimetags** (`find_timetags.py`) scans every new video for motion and
  stores the frames where motion was seen under `timestamps`, together with
  the rounded `fps` and the frame count. Videos matching a blacklist pattern
  are entered without a scan, under the lone timestamp `0`.
- **handleIntervals** (`find_frames.py`) pads every timestamp except the
  first by `before_seconds * fps` and `after_seconds * fps` frames. It sorts
  the padded intervals by start and merges the overlapping ones. With fewer
  than two timestamps it stores the sentinel `[[inf, inf]]` instead.
- **handleFrames** (`find_frames.py`) walks every frame of every video. Frames
  inside a merged interval are kept on the slow cadence
  (`int(acceleration_factor_slow * fps / new_fps)`). Frames outside are kept
  on the fast cadence. One global frame counter runs across all videos.

The modules are:

| module | file | contents |
|---|---|---|
| `Common` | `common.dfy` | the exceptions; `math.inf` as `Bound`; the cache record; an insertion-ordered dict as a sequence of key/value pairs |
| `Intervals` | `intervals.dfy` | padding, sorting and merging, with `updateIntervals` and `handleIntervals` as methods |
| `Frames` | `frames.dfy` | the interval cursor of handleFrames, the frame selection, and `handleFrames` as a method |
| `Timetags` | `timetags.dfy` | segments, the sampling loop of `process_segment`, `process_video`, and the blacklist, filter and slicing bookkeeping of `handleTimetags` |
| `Pipeline` | `pipeline.dfy` | what handleFrames makes of the entries the two earlier stages write |

Each loop in the source is a `method` with a `for` or `while` loop; list
comprehensions are functions. Each method is proved equal to a specification
function, and the lemmas state what the function means.

The main results are these:

- **Merging.** The merged intervals are sorted and pairwise separated. They
  cover exactly the same frames as the padded timestamps. The result does not
  depend on how ties were ordered by the sort.
- **handleFrames cursor.** The cursor only moves forward, and only at a frame
  past the current interval. Such a frame is itself classified as outside,
  even when it starts the next interval (`Frames.CursorExact`).
- **Frame selection.** A frame is kept exactly when its global counter value
  is a multiple of the cadence for its classification. The selection fails
  exactly when a visited frame has cadence 0. Fast picks that have only
  outside frames between them are exactly one cadence apart.
- **Detections.** A scan's timestamps are exactly the frames on the
  `frame_skip` grid where motion is seen, in strictly increasing order.
- **handleTimetags.** The cached entries stay first and are never
  overwritten. The returned keys are the cache keys plus every requested file
  (when `max_workers > 0`). Each new entry is either a blacklist entry or
  the scan of that file.

`process_video` stores the frame count under `'frames'`, but handleFrames
reads `'total_frames'`. So a freshly scanned video makes handleFrames raise
`KeyError('total_frames')` (`Pipeline.ScannedLacksTotalFrames`). Only
blacklisted videos carry `'total_frames'`. The model follows the code as
written here.

## Model

| member | source | states |
|---|---|---|
| Common.Put | find_timetags.py:155-156 | `dict.update` of one item: keys stay distinct; an existing key keeps its position and gets the new value; a new key is appended; other entries are unchanged |
| Common.PutLookup | find_timetags.py:155-156 | after a put, the key is present; looking it up gives the new value; any other key gives its old value |
| Intervals.PadEachAt | find_frames.py:26-29 | the padded list has one interval per timestamp, `[t - before*fps, t + after*fps]`, which contains `t` |
| Intervals.Pad | find_frames.py:27-29 | one padded interval contains its timestamp and is `(before + after) * fps` wide |
| Intervals.PadEach | find_frames.py:26-29 | one padded interval per timestamp, each `(before + after) * fps` wide |
| Intervals.InsertPermutes | find_frames.py:32 | inserting into the sorted list adds exactly that interval |
| Intervals.InsertSorted | find_frames.py:32 | inserting by start keeps the list sorted by start |
| Intervals.SortByStartCorrect | find_frames.py:32 | `intervals.sort(key=start)` yields a permutation sorted by start |
| Intervals.SortByStart | find_frames.py:32 | sorting keeps the number of intervals |
| Intervals.SortedUnique | find_frames.py:32 | two lists of equal-width intervals that are sorted by start and are permutations of each other are equal, so tie order does not matter |
| Intervals.MergeSeparated | find_frames.py:35-40 | after merging, each interval starts after the end of the one before it |
| Intervals.MergeStarts | find_frames.py:35-40 | every merged interval starts at the start of some input interval |
| Intervals.MergeWellFormed | find_frames.py:35-40 | merging well-formed intervals gives well-formed intervals |
| Intervals.Merge | find_frames.py:35-40 | merging never lengthens the list and leaves a non-empty list non-empty |
| Intervals.MergeSorted | find_frames.py:35-40 | merging a sorted list keeps it sorted by start |
| Intervals.LastMergedStart | find_frames.py:37-40 | the last merged interval starts no later than the last input interval |
| Intervals.MergeCovers | find_frames.py:35-40 | every input interval lies inside one merged interval |
| Intervals.MergeSound | find_frames.py:35-40 | every frame in a merged interval is in some input interval |
| Intervals.MergeSameUnion | find_frames.py:35-40 | for sorted input, a frame is in the merged intervals iff it is in an input interval |
| Intervals.MergeIdempotent | find_frames.py:35-40 | merging separated intervals changes nothing, so merging twice is merging once |
| Intervals.SeparatedOrdered | find_frames.py:35-40 | merged intervals are strictly ordered: each one ends before any later one starts |
| Intervals.MergedSpansShape | find_frames.py:25-40 | for two or more timestamps, the merged list is non-empty, well-formed, sorted and separated |
| Intervals.MergedSpansCover | find_frames.py:25-40 | each padded timestamp after the first lies inside a merged interval; a frame is merged iff it is in a padded interval |
| Intervals.SentinelWhenFewTimestamps | find_frames.py:25-43 | with fewer than two timestamps the stored intervals are `[[inf, inf]]` |
| Intervals.MergedSpans | find_frames.py:26-40 | merging the padded timestamps after the first gives at least one interval and at most one per padded timestamp |
| Intervals.MergedIntervals | find_frames.py:25-45 | what is stored under `merged_intervals` is never empty; with two or more timestamps it holds at most one interval per timestamp after the first, all with finite bounds |
| Intervals.PaddedUniform | find_frames.py:27-28 | all padded intervals have the same width, `(before + after) * fps` |
| Intervals.AnySortGivesMergedSpans | find_frames.py:32-40 | any stable or unstable sort by start gives the same merged list |
| Intervals.MergedStartsArePadded | find_frames.py:35-40 | every merged interval starts where some padded timestamp after the first starts |
| Intervals.PadTimestamps | find_frames.py:26-29 | the loop builds the padded intervals of `timestamps[1:]` in order |
| Intervals.MergeFold | find_frames.py:35-40 | the merging loop computes the merge of its input |
| Intervals.UpdateIntervals | find_frames.py:20-48 | a missing `timestamps` raises KeyError('timestamps'); with more than one timestamp a missing `fps` raises KeyError('fps'); otherwise the entry gains `merged_intervals`, which is the merge or the `[[inf, inf]]` sentinel |
| Intervals.HandleIntervals | find_frames.py:53-66 | succeeds iff every entry does; the error is one of the two KeyErrors; on success every entry keeps its key and position and gains its merged intervals |
| Frames.Cursor | find_frames.py:86-97 | the interval index handleFrames holds at a frame is always a valid index |
| Frames.InInterval | find_frames.py:91-97 | a frame classified inside lies in some merged interval |
| Frames.Cadence | find_frames.py:101-105 | `int(factor * fps / new_fps)` is the floor of the quotient, `c * new_fps <= factor * fps < (c + 1) * new_fps`; it is 0 when `new_fps` is 0 |
| Frames.Modulus | find_frames.py:99-105 | the modulus is the slow or the fast cadence, and the fast one for a frame in no merged interval |
| Frames.CursorStep | find_frames.py:93-97 | from one frame to the next, the cursor stays put or moves by one, and it moves only at a frame classified outside |
| Frames.CursorMonotone | find_frames.py:93-97 | the cursor never moves back, and moves by at most one per frame |
| Frames.SentinelCursor | find_frames.py:86-97 | on the `[[inf, inf]]` sentinel, the cursor stays at 0 and no frame is inside |
| Frames.CursorPosition | find_frames.py:86-97 | on merged intervals, every interval before the cursor ended before the previous frame, and the cursor's own interval reaches the previous frame unless it is the last |
| Frames.CursorExact | find_frames.py:91-97 | a frame is classified inside iff it lies in a merged interval and is not the start of an interval right after one that ended at the previous frame |
| Frames.InsideNotAdjacent | find_frames.py:91-97 | a frame inside the cursor's interval is never the start of an interval that follows one ending at the previous frame |
| Frames.OutsideOnlyAdjacent | find_frames.py:91-97 | a frame outside the cursor's interval that lies in some merged interval is such an adjacent start |
| Frames.FirstHolds | find_frames.py:87 | a padded interval that starts at the first merged interval's start ends within it |
| Frames.MergedWalkable | find_frames.py:25-40 | for non-negative timestamps, the merged intervals satisfy what the cursor walk needs |
| Frames.MergedCursorExact | find_frames.py:89-97 | for the stored merged intervals, a frame is classified inside iff it is within some padded timestamp, except at the start of an interval that follows one ending on the previous frame |
| Frames.SelectFails | find_frames.py:99-106 | selection fails iff a frame below the count has cadence 0; the error is ZeroDivisionError |
| Frames.Select | find_frames.py:89-108 | on success, at most `total_frames` tags, each for a frame below `total_frames` |
| Frames.SelectTags | find_frames.py:99-106 | a tag is selected iff its frame is below `total_frames` and the global counter at that frame is a multiple of the cadence of its classification, slow inside and fast outside |
| Frames.SelectIncreasing | find_frames.py:89-108 | the selected frames are strictly increasing |
| Frames.SentinelAllFast | find_frames.py:99-102 | with the sentinel, every selected frame is a fast one |
| Frames.FastSpacing | find_frames.py:99-102 | two consecutive fast picks with only outside frames between them are exactly one fast cadence apart on the global counter |
| Frames.SelectStops | find_frames.py:101-106 | once a frame raises, later frames change nothing: the error is the result |
| Frames.SelectFrames | find_frames.py:84-108 | the per-video loop computes the selection and advances the global counter by `total_frames` |
| Frames.FrameInputs | find_frames.py:81-89 | the keys are read in order: `merged_intervals`, `fps`, the first interval (IndexError when there is none), `total_frames`; it succeeds iff all are present |
| Frames.VideoFrames | find_frames.py:81-108 | a video's selection succeeds only when `total_frames` is present, and then tags only frames below it |
| Frames.TotalFrames | find_frames.py:108 | the counter advance over a batch is at least each video's `total_frames` |
| Frames.SelectAll | find_frames.py:80-110 | on success there is one entry per video, keyed by the videos in dict order |
| Frames.SelectAllStops | find_frames.py:80-110 | the first video that raises ends handleFrames with that error |
| Frames.SelectAllOk | find_frames.py:80-110 | handleFrames succeeds iff every video's selection succeeds when started at the counter left by the videos before it |
| Frames.SelectAllOffsets | find_frames.py:79-110 | on success, there is one entry per video in dict order; each holds that video's selection started at the sum of the earlier videos' `total_frames` |
| Frames.HandleFrames | find_frames.py:73-115 | the loop over videos computes the batch selection, and the frames dict it builds has distinct keys |
| Frames.TotalFramesSplit | find_frames.py:108 | the counter advance over a batch is the sum over any split of it |
| Timetags.WholeVideoSegment | find_timetags.py:40-42 | with `segment_size = total_frames`, there is one segment `(0, total - 1)`; a video without frames raises ValueError (`range` with step 0) |
| Timetags.Segments | find_timetags.py:40-42 | `range` with step 0 raises ValueError; otherwise there is a segment iff the video has a frame |
| Timetags.SegmentsFromBounds | find_timetags.py:42 | every segment `(max(s - 5, 0), min(s + size + 5, total - 1))` lies within the video: `0 <= start <= end < total` |
| Timetags.SegmentsFromCover | find_timetags.py:42 | every frame from the first nominal start to `total - 1` lies in some segment |
| Timetags.SegmentsCover | find_timetags.py:40-42 | for any positive size, the segments cover every frame of the video and no frame outside it |
| Timetags.DetectionsFail | find_timetags.py:70-73 | process_segment raises iff the segment has a frame and `frame_skip` is 0; the error is ZeroDivisionError |
| Timetags.Detections | find_timetags.py:70-92 | process_segment can raise only ZeroDivisionError, and with a positive `frame_skip` it succeeds |
| Timetags.DetectionsMembers | find_timetags.py:70-92 | a frame is reported iff it lies in the segment, is on the `frame_skip` grid, and shows motion |
| Timetags.DetectionsIncreasing | find_timetags.py:70-92 | the reported frames are strictly increasing and lie within the segment |
| Timetags.ProcessSegment | find_timetags.py:54-116 | the sampling loop computes the detections of its segment |
| Timetags.InsertIntPermutes | find_timetags.py:48 | inserting adds exactly that element |
| Timetags.InsertIntSorted | find_timetags.py:48 | inserting keeps a list non-decreasing |
| Timetags.SortIntsCorrect | find_timetags.py:48 | `sorted(timestamps)` is a non-decreasing permutation |
| Timetags.SortInts | find_timetags.py:48 | sorting keeps the number of timestamps |
| Timetags.SortIntsIncreasing | find_timetags.py:48 | sorting a strictly increasing list leaves it unchanged |
| Timetags.ScanSegmentsStops | find_timetags.py:44-46 | the first segment that raises ends the scan with that error |
| Timetags.ScanSegments | find_timetags.py:44-46 | the only error of the segment loop is ZeroDivisionError, and with a positive `frame_skip` it succeeds |
| Timetags.ScanVideoResult | find_timetags.py:30-52 | a scan succeeds iff the video has a frame and `frame_skip > 0`; no frames raises ValueError; skip 0 raises ZeroDivisionError; the entry is keyed by the path and holds the whole-video detections, the rounded fps, and the count under `frames` but not `total_frames` |
| Timetags.ScanVideo | find_timetags.py:30-52 | a scanned entry is keyed by its path, comes from a video with at least one frame, and holds the count under `frames`, not `total_frames` |
| Timetags.ScanVideoTimestamps | find_timetags.py:44-48 | a scanned video's timestamps are exactly its frames on the skip grid with motion |
| Timetags.ProcessVideo | find_timetags.py:30-52 | the segment loop computes the scan of the video |
| Timetags.AddBlacklisted | find_timetags.py:133-141 | the blacklist pass keeps dict keys distinct |
| Timetags.Contains | find_timetags.py:136 | a pattern found in a path is no longer than the path, and the empty pattern is in every path |
| Timetags.Matches | find_timetags.py:135-136 | a match needs a non-empty blacklist, and an empty pattern in the blacklist matches every file |
| Timetags.AddBlacklistedResult | find_timetags.py:133-141 | cached entries are kept in place; the new keys are exactly the requested files that match a pattern and were not cached; each new entry is `{'timestamps': [0], 'fps', 'total_frames'}` from the probe |
| Timetags.AddBlacklistedPrefix | find_timetags.py:133-141 | the blacklist pass keeps the dict it started from as its prefix |
| Timetags.AddBlacklistedKeys | find_timetags.py:133-141 | the keys after the blacklist pass are the old keys plus the requested files that match a pattern |
| Timetags.AddBlacklistedEntries | find_timetags.py:133-141 | each new entry is a requested, matching file holding `{'timestamps': [0], 'fps', 'total_frames'}` from the probe |
| Timetags.ToScanMembers | find_timetags.py:144 | a file is scanned iff it was requested and is not yet in the dict |
| Timetags.ToScan | find_timetags.py:144 | the filtered list is no longer than the request and holds no file that is already a key |
| Timetags.SliceSize | find_timetags.py:149 | the slice is either `3 * max_workers` or the number to scan, whichever is smaller; it is 0 iff either is 0 |
| Timetags.ChunkedCovers | find_timetags.py:151 | for a positive size, the slices concatenate back to the list; each slice is non-empty and at most `size` long; there are `ceil(n / size)` of them |
| Timetags.ChunkedFlatten | find_timetags.py:151 | the slices `video_files[i:i+slice_size]` concatenate back to the list |
| Timetags.ChunkedSizes | find_timetags.py:151 | every slice is non-empty and holds at most `slice_size` files |
| Timetags.ChunkedCount | find_timetags.py:151 | the number of slices times the slice size covers the list and exceeds it by less than one slice |
| Timetags.Chunked | find_timetags.py:151 | there are no more slices than files, and each slice holds at most `slice_size` files |
| Timetags.ScanResultsAppend | find_timetags.py:151-156 | scanning two lists in turn is scanning their concatenation, and an error in the first stops the second |
| Timetags.ScanResultsEach | find_timetags.py:153 | `pool.map(process_video, slice)` succeeds iff every file's scan does; then the i-th result is the i-th file's scan |
| Timetags.ScanResultsAllOk | find_timetags.py:153 | a batch scan succeeds iff the scan of each file in it does |
| Timetags.ScanResultsValues | find_timetags.py:153 | a successful batch scan has one result per file, the i-th being the i-th file's scan |
| Timetags.ScanResults | find_timetags.py:153 | a successful `pool.map` gives one result per file |
| Timetags.UpdateAll | find_timetags.py:155-156 | applying the results keeps dict keys distinct, never shrinks the dict, and adds at most one entry per result |
| Timetags.UpdateAllAppend | find_timetags.py:151-156 | updating with two result lists in turn is updating with their concatenation |
| Timetags.UpdateAllKeys | find_timetags.py:155-156 | the keys after the updates are the old keys plus the result keys |
| Timetags.UpdateAllKeeps | find_timetags.py:155-156 | results with new keys leave the existing entries in place |
| Timetags.UpdateAllValues | find_timetags.py:155-156 | when results agree on each key, the updated dict maps every result key to its result |
| Timetags.ScanStopsAt | find_timetags.py:151-156 | the first failing scan, in slice order, is the error handleTimetags raises |
| Timetags.SliceStep | find_timetags.py:151-156 | scanning one more slice extends the results by its results, and updating with them extends the dict update |
| Timetags.ScanSlices | find_timetags.py:151-161 | the slice loop computes the scan of all slices applied to the dict; on success `processed` is the number of slices times the slice size |
| Timetags.BlacklistFile | find_timetags.py:134-141 | one file of the blacklist pass: entered iff a pattern matches and it is not in the dict |
| Timetags.EnterBlacklisted | find_timetags.py:133-141 | the blacklist loop computes the blacklist pass |
| Timetags.MapSlice | find_timetags.py:152-153 | mapping a slice computes its scan results; an error is the error of some prefix of the slice |
| Timetags.UpdateDict | find_timetags.py:155-156 | the update loop applies the results in order |
| Timetags.HandleTimetags | find_timetags.py:118-164 | the whole function computes `Timetags`; on success `processed` is the number of slices times the slice size |
| Timetags.ScannedFiles | find_timetags.py:144-151 | with `max_workers > 0` the scanned files are exactly the filtered list; with 0, nothing is scanned |
| Timetags.ProcessedBounds | find_timetags.py:149-159 | with `max_workers > 0`, the `processed` counter is at least the number of files to scan and exceeds it by less than one slice; with `max_workers == 0` it stays 0 |
| Timetags.ScannedAreNew | find_timetags.py:144 | a scanned file was requested and is not in the dict after the blacklist pass |
| Timetags.ScanResultsOk | find_timetags.py:153 | a slice's scan succeeds iff every file in it scans successfully |
| Timetags.ScanResultsKeys | find_timetags.py:153-156 | the results are keyed by their files, in order |
| Timetags.FoldScans | find_timetags.py:151-156 | updating with the scans of new files keeps the dict's prefix; it adds exactly those keys, each holding its file's scan |
| Timetags.FoldEntries | find_timetags.py:155-156 | after updating with scans of new files, each new entry is its file's scan |
| Timetags.TimetagsResult | find_timetags.py:118-164 | handleTimetags succeeds iff every scanned file's scan does; the blacklisted dict is kept as a prefix; the new keys are exactly the scanned files; each new entry is its file's scan |
| Timetags.TimetagsCoversRequest | find_timetags.py:126-164 | with `max_workers > 0`, on success the dict holds the cache unchanged as its prefix, and its keys are the cache keys plus every requested file |
| Timetags.TimetagsNoWorkers | find_timetags.py:149-151 | with `max_workers == 0`, nothing is scanned and the result is the cache after the blacklist pass |
| Timetags.Batches | find_timetags.py:144-151 | each slice handleTimetags scans holds at most `3 * max_workers` files |
| Timetags.ScanInto | find_timetags.py:151-156 | on success the dict has distinct keys and grows by at most one entry per scanned file |
| Timetags.Timetags | find_timetags.py:118-164 | on success the dict has distinct keys and is at least as long as after the blacklist pass |
| Pipeline.MergedNonEmpty | find_frames.py:35-46 | handleIntervals never stores an empty `merged_intervals` |
| Pipeline.WithMerged | find_frames.py:24-61 | handleIntervals gives every record it accepts (one without 'fps' when it has at most one timestamp) a non-empty `merged_intervals`, the `[[inf, inf]]` sentinel when there is no 'fps', and changes nothing else in it |
| Pipeline.ScannedLacksTotalFrames | find_frames.py:81-89 | a freshly scanned video, after handleIntervals, makes handleFrames raise KeyError('total_frames') |
| Pipeline.BlacklistedAllFast | find_frames.py:89-106 | a blacklisted video gets the sentinel; its selection succeeds iff it has no frames or the fast cadence is positive; its tags are the fast picks on the global counter grid |

## Left out

- Reading and writing the YAML caches (`parseYaml`, `dumpYaml`), logging and timing are I/O. The cache goes in as a parameter and the dict comes back as the result.
- `multiprocessing.Pool` is modelled as an in-order map. When several videos in one batch raise, the model reports the first in input order.
- HandleIntervals: does not model `max_workers`. `Pool(0)` raises ValueError, and the pool size has no other effect on the result.
- OpenCV is left out. `probe` stands for the rounded fps and the frame count it reports. `motion(path)(frame)` stands for the background subtractor's verdict at one frame, with `threshold` folded in. Decoding, cropping and resizing are not modelled.
- `process_segment` reads `frame_skip` as a module global (find_timetags.py:55,73) that nothing binds: handleTimetags binds only `def_frame_skip` (find_timetags.py:119,123). As written, every scan of a video with at least one frame therefore raises NameError. The model passes the skip value as a parameter, so its successful scans describe the evidently intended code, not the code as written.
- The debug display (`def_debug_mask`, `cv2.imshow`, a keypress ending a segment early) is interactive and is left out.
- `os.cpu_count()` at find_timetags.py:40 is left out, because line 41 overwrites the segment size it computes.
- Floating point is not modelled. The fps, the acceleration factors, `new_fps` and the padding seconds are natural numbers; `int(factor * fps / new_fps)` becomes floor division, and division by a zero `new_fps` is a cadence of 0, which raises ZeroDivisionError at the first frame, as the source does.
- Timestamps are integers, so `int(t - before * fps)` is exact.
- `updateIntervals` writes `merged_intervals` into the very dict it was given. The model works on values and returns the updated entry, so that aliasing is not captured.
- Frames.MergedCursorExact: requires non-negative timestamps, as motion scans and blacklist entries produce; the classification of entries with negative timestamps is left unstated.
- Timetags.HandleTimetags: states `processed` only on success; the counter only feeds the log.
- Frame tags are written out as `Tag(mode, frame)` rather than the `['f', n]` / `['s', n]` lists.
