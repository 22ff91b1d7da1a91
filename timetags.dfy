/**
 * The motion scan of find_timetags.py: each video is cut into segments,
 * every `frame_skip`-th frame of a segment is tested for motion, and the
 * frames with motion become the video's timestamps; handleTimetags keeps
 * the cached videos, enters the blacklisted ones without scanning them and
 * scans the rest in batches.
 */
module Timetags {
  import opened Common

  /** `(start_frame, end_frame)` of one process_segment call: frames `start ..= end`. */
  datatype Segment = Segment(start: nat, end: int)

  /** What OpenCV reports for a video file: the rounded frame rate and the frame count. */
  datatype VideoInfo = VideoInfo(fps: nat, total: nat)

  // --------------------------------------------------------------- segments

  /** The segments whose nominal starts are `s, s + size, …` below `total`. */
  function SegmentsFrom(s: nat, total: nat, size: nat): (r: seq<Segment>)
    requires size > 0
    decreases total - s
  {
    if s >= total then []
    else [Segment(Max(s - 5, 0), Min(s + size + 5, total - 1))] + SegmentsFrom(s + size, total, size)
  }

  /**
   * The argument list of process_video: one segment per start of
   * `range(0, total, size)`, widened by 5 frames on each side and clipped to
   * the video; a zero step makes `range` raise ValueError.
   */
  function Segments(total: nat, size: nat): (r: Result<seq<Segment>>)
    ensures r.Err? <==> size == 0
    ensures r.Ok? ==> (r.value == [] <==> total == 0)
  {
    if size == 0 then Err(ValueError) else Ok(SegmentsFrom(0, total, size))
  }

  /** With `segment_size = total_frames` the video is one segment, or ValueError when it has no frame. */
  lemma WholeVideoSegment(total: nat)
    ensures total == 0 ==> Segments(total, total) == Err(ValueError)
    ensures total > 0 ==> Segments(total, total) == Ok([Segment(0, total - 1)])
  {
    if total > 0 {
      assert SegmentsFrom(total, total, total) == [];
      assert Max(0 - 5, 0) == 0 && Min(0 + total + 5, total - 1) == total - 1;
      assert SegmentsFrom(0, total, total) == [Segment(0, total - 1)] + SegmentsFrom(total, total, total);
      assert [Segment(0, total - 1)] + [] == [Segment(0, total - 1)];
    }
  }

  /** Every segment lies in the video, its start not after its end. */
  lemma {:induction false} SegmentsFromBounds(s: nat, total: nat, size: nat)
    requires size > 0
    ensures forall k :: 0 <= k < |SegmentsFrom(s, total, size)| ==>
      0 <= SegmentsFrom(s, total, size)[k].start <= SegmentsFrom(s, total, size)[k].end < total
    decreases total - s
  {
    if s < total {
      var segs := SegmentsFrom(s, total, size);
      var rest := SegmentsFrom(s + size, total, size);
      SegmentsFromBounds(s + size, total, size);
      assert segs == [Segment(Max(s - 5, 0), Min(s + size + 5, total - 1))] + rest;
      forall k | 0 <= k < |segs| ensures segs[k].start <= segs[k].end < total {
        if k > 0 {
          assert segs[k] == rest[k - 1];
        }
      }
    }
  }

  /** Every frame from `s` on lies in some segment. */
  lemma {:induction false} SegmentsFromCover(s: nat, total: nat, size: nat, f: nat)
    requires size > 0 && s <= f < total
    ensures exists k ::
      (0 <= k < |SegmentsFrom(s, total, size)| &&
       SegmentsFrom(s, total, size)[k].start <= f <= SegmentsFrom(s, total, size)[k].end)
    decreases total - s
  {
    var segs := SegmentsFrom(s, total, size);
    var rest := SegmentsFrom(s + size, total, size);
    assert segs == [Segment(Max(s - 5, 0), Min(s + size + 5, total - 1))] + rest;
    if f < s + size {
      assert segs[0].start <= f <= segs[0].end;
    } else {
      SegmentsFromCover(s + size, total, size, f);
      var k :| 0 <= k < |rest| && rest[k].start <= f <= rest[k].end;
      assert segs[k + 1] == rest[k];
    }
  }

  /** The segments of a video cover all its frames and no frame outside it. */
  lemma SegmentsCover(total: nat, size: nat, f: nat)
    requires size > 0
    ensures Segments(total, size).Ok?
    ensures var segs := Segments(total, size).value;
      forall k :: 0 <= k < |segs| ==> segs[k].start <= segs[k].end < total
    ensures var segs := Segments(total, size).value;
      f < total ==> exists k :: 0 <= k < |segs| && segs[k].start <= f <= segs[k].end
  {
    SegmentsFromBounds(0, total, size);
    if f < total {
      SegmentsFromCover(0, total, size, f);
    }
    assert Segments(total, size).value == SegmentsFrom(0, total, size);
  }

  // ---------------------------------------------------------- process_segment

  /**
   * The frames of `start ..= end` that process_segment reports: those on the
   * `frame_skip` grid where motion is seen; `frame_count % 0` raises
   * ZeroDivisionError on the first frame.
   */
  function Detections(start: nat, end: int, skip: nat, motion: nat -> bool): (r: Result<seq<nat>>)
    ensures r.Err? ==> r.error == ZeroDivisionError
    ensures skip > 0 ==> r.Ok?
    decreases end - start + 1
  {
    if end < start then Ok([])
    else
      match Detections(start, end - 1, skip, motion)
      case Err(e) => Err(e)
      case Ok(ts) =>
        if skip == 0 then Err(ZeroDivisionError)
        else if end % skip == 0 && motion(end) then Ok(ts + [end])
        else Ok(ts)
  }

  /** process_segment fails iff the segment has a frame and `frame_skip` is 0. */
  lemma {:induction false} DetectionsFail(start: nat, end: int, skip: nat, motion: nat -> bool)
    ensures Detections(start, end, skip, motion).Err? <==> skip == 0 && start <= end
    ensures Detections(start, end, skip, motion).Err? ==> Detections(start, end, skip, motion).error == ZeroDivisionError
    decreases end - start + 1
  {
    if start <= end {
      DetectionsFail(start, end - 1, skip, motion);
    }
  }

  /** A frame is reported iff it lies in the segment, on the skip grid, and shows motion. */
  lemma {:induction false} DetectionsMembers(start: nat, end: int, skip: nat, motion: nat -> bool, x: nat)
    requires Detections(start, end, skip, motion).Ok?
    ensures x in Detections(start, end, skip, motion).value <==> start <= x <= end && x % skip == 0 && motion(x)
    decreases end - start + 1
  {
    if start <= end {
      DetectionsMembers(start, end - 1, skip, motion, x);
    }
  }

  predicate Increasing(s: seq<int>)
  {
    forall i, j :: 0 <= i < j < |s| ==> s[i] < s[j]
  }

  /** The reported frames come out strictly increasing, inside the segment. */
  lemma {:induction false} DetectionsIncreasing(start: nat, end: int, skip: nat, motion: nat -> bool)
    requires Detections(start, end, skip, motion).Ok?
    ensures Increasing(Detections(start, end, skip, motion).value)
    ensures forall i :: 0 <= i < |Detections(start, end, skip, motion).value| ==>
      start <= Detections(start, end, skip, motion).value[i] <= end
    decreases end - start + 1
  {
    if start <= end {
      DetectionsIncreasing(start, end - 1, skip, motion);
    }
  }

  /** process_segment: walk the segment's frames and keep those on the skip grid that show motion. */
  method ProcessSegment(seg: Segment, skip: nat, motion: nat -> bool) returns (r: Result<seq<nat>>)
    ensures r == Detections(seg.start, seg.end, skip, motion)
  {
    var timestamps: seq<nat> := [];
    var frameCount := seg.start;
    while frameCount <= seg.end
      invariant seg.start <= frameCount <= Max(seg.end + 1, seg.start)
      invariant Detections(seg.start, frameCount - 1, skip, motion) == Ok(timestamps)
      decreases seg.end - frameCount
    {
      if skip == 0 {
        DetectionsFail(seg.start, seg.end, skip, motion);
        return Err(ZeroDivisionError);
      }
      if frameCount % skip == 0 && motion(frameCount) {
        timestamps := timestamps + [frameCount];
      }
      frameCount := frameCount + 1;
    }
    r := Ok(timestamps);
  }

  // ----------------------------------------------------------------- sorted()

  /** Insert `x` after every element not above it (a stable insertion step). */
  function InsertInt(s: seq<int>, x: int): (r: seq<int>)
    ensures |r| == |s| + 1
  {
    if s == [] || s[|s| - 1] <= x then s + [x]
    else InsertInt(s[..|s| - 1], x) + [s[|s| - 1]]
  }

  /** Python's `sorted` on a list of integers. */
  function SortInts(s: seq<int>): (r: seq<int>)
    ensures |r| == |s|
  {
    if s == [] then [] else InsertInt(SortInts(s[..|s| - 1]), s[|s| - 1])
  }

  predicate NonDecreasing(s: seq<int>)
  {
    forall i, j :: 0 <= i < j < |s| ==> s[i] <= s[j]
  }

  lemma {:induction false} InsertIntPermutes(s: seq<int>, x: int)
    ensures multiset(InsertInt(s, x)) == multiset(s) + multiset{x}
  {
    if s != [] && s[|s| - 1] > x {
      var init := s[..|s| - 1];
      assert s == init + [s[|s| - 1]];
      InsertIntPermutes(init, x);
    }
  }

  lemma {:induction false} InsertIntSorted(s: seq<int>, x: int)
    requires NonDecreasing(s)
    ensures NonDecreasing(InsertInt(s, x))
  {
    if s != [] && s[|s| - 1] > x {
      var init, last := s[..|s| - 1], s[|s| - 1];
      InsertIntSorted(init, x);
      InsertIntPermutes(init, x);
      var r := InsertInt(init, x);
      forall i | 0 <= i < |r| ensures r[i] <= last {
        assert r[i] in multiset(init) + multiset{x};
        if r[i] != x {
          var k :| 0 <= k < |init| && init[k] == r[i];
        }
      }
    }
  }

  /** `sorted` returns a non-decreasing permutation of its argument. */
  lemma {:induction false} SortIntsCorrect(s: seq<int>)
    ensures NonDecreasing(SortInts(s))
    ensures multiset(SortInts(s)) == multiset(s)
  {
    if s != [] {
      var init := s[..|s| - 1];
      SortIntsCorrect(init);
      InsertIntPermutes(SortInts(init), s[|s| - 1]);
      InsertIntSorted(SortInts(init), s[|s| - 1]);
      assert s == init + [s[|s| - 1]];
    }
  }

  /** `sorted` leaves a strictly increasing list as it is. */
  lemma {:induction false} SortIntsIncreasing(s: seq<int>)
    requires Increasing(s)
    ensures SortInts(s) == s
  {
    if s != [] {
      var n := |s| - 1;
      var init := s[..n];
      assert Increasing(init) by {
        forall i | 0 <= i < |init| - 1 ensures init[i] < init[i + 1] {
          assert init[i] == s[i] && init[i + 1] == s[i + 1];
        }
      }
      SortIntsIncreasing(init);
      assert SortInts(s) == InsertInt(init, s[n]);
      if init != [] {
        assert init[|init| - 1] == s[n - 1] < s[n];
      }
      assert init + [s[n]] == s;
    }
  }

  // ------------------------------------------------------------ process_video

  /** The timestamps of a list of segments, concatenated in order; the first failure ends it. */
  function ScanSegments(segs: seq<Segment>, skip: nat, motion: nat -> bool): (r: Result<seq<nat>>)
    ensures r.Err? ==> r.error == ZeroDivisionError
    ensures skip > 0 ==> r.Ok?
  {
    if segs == [] then Ok([])
    else
      match ScanSegments(segs[..|segs| - 1], skip, motion)
      case Err(e) => Err(e)
      case Ok(ts) =>
        match Detections(segs[|segs| - 1].start, segs[|segs| - 1].end, skip, motion)
        case Err(e) => Err(e)
        case Ok(more) => Ok(ts + more)
  }

  /** A failing segment fails the whole list of segments. */
  lemma {:induction false} ScanSegmentsStops(segs: seq<Segment>, i: nat, skip: nat, motion: nat -> bool)
    requires i <= |segs|
    requires ScanSegments(segs[..i], skip, motion).Err?
    ensures ScanSegments(segs, skip, motion) == ScanSegments(segs[..i], skip, motion)
    decreases |segs|
  {
    if i < |segs| {
      var n := |segs| - 1;
      assert segs[..n][..i] == segs[..i];
      ScanSegmentsStops(segs[..n], i, skip, motion);
    } else {
      assert segs[..i] == segs;
    }
  }

  /** The record process_video stores for a scanned video; it has 'frames' and no 'total_frames'. */
  function ScannedRecord(timestamps: seq<int>, info: VideoInfo): Record
  {
    Record(Some(timestamps), Some(info.fps), None, Some(info.total), None)
  }

  /** process_video: the `{path: record}` entry of one scanned video. */
  function ScanVideo(path: string, info: VideoInfo, skip: nat, motion: nat -> bool): (r: Result<Pair<Record>>)
    ensures r.Ok? ==> r.value.key == path && info.total > 0
    ensures r.Ok? ==> r.value.val.frames == Some(info.total) && r.value.val.totalFrames.None?
  {
    match Segments(info.total, info.total)
    case Err(e) => Err(e)
    case Ok(segs) =>
      match ScanSegments(segs, skip, motion)
      case Err(e) => Err(e)
      case Ok(ts) => Ok(Pair(path, ScannedRecord(SortInts(ts), info)))
  }

  /**
   * A scan succeeds iff the video has a frame and `frame_skip` is positive;
   * its timestamps are then exactly the frames on the skip grid that show
   * motion, strictly increasing, under 'timestamps', with the rounded fps
   * and the frame count under 'frames'.
   */
  lemma ScanVideoResult(path: string, info: VideoInfo, skip: nat, motion: nat -> bool)
    ensures ScanVideo(path, info, skip, motion).Ok? <==> info.total > 0 && skip > 0
    ensures info.total == 0 ==> ScanVideo(path, info, skip, motion) == Err(ValueError)
    ensures info.total > 0 && skip == 0 ==> ScanVideo(path, info, skip, motion) == Err(ZeroDivisionError)
    ensures ScanVideo(path, info, skip, motion).Ok? ==>
      && Detections(0, info.total - 1, skip, motion).Ok?
      && ScanVideo(path, info, skip, motion).value
           == Pair(path, ScannedRecord(Detections(0, info.total - 1, skip, motion).value, info))
  {
    WholeVideoSegment(info.total);
    if info.total > 0 {
      var seg := Segment(0, info.total - 1);
      var found := Detections(0, info.total - 1, skip, motion);
      DetectionsFail(0, info.total - 1, skip, motion);
      assert [seg][..0] == [];
      assert ScanSegments([seg][..0], skip, motion) == Ok([]);
      if found.Ok? {
        assert [] + found.value == found.value;
      }
      assert ScanSegments([seg], skip, motion) == found;
      if skip > 0 {
        DetectionsIncreasing(0, info.total - 1, skip, motion);
        SortIntsIncreasing(Detections(0, info.total - 1, skip, motion).value);
      }
    }
  }

  /** The timestamps of a scanned video: strictly increasing, exactly the grid frames with motion. */
  lemma ScanVideoTimestamps(path: string, info: VideoInfo, skip: nat, motion: nat -> bool, x: nat)
    requires ScanVideo(path, info, skip, motion).Ok?
    ensures var ts := ScanVideo(path, info, skip, motion).value.val.timestamps;
      && ts.Some? && Increasing(ts.value)
      && (x in ts.value <==> x < info.total && skip > 0 && x % skip == 0 && motion(x))
  {
    ScanVideoResult(path, info, skip, motion);
    DetectionsIncreasing(0, info.total - 1, skip, motion);
    DetectionsMembers(0, info.total - 1, skip, motion, x);
  }

  /** process_video: build the segments, scan them in order, sort, and record. */
  method ProcessVideo(path: string, info: VideoInfo, skip: nat, motion: nat -> bool) returns (r: Result<Pair<Record>>)
    ensures r == ScanVideo(path, info, skip, motion)
  {
    var segmentSize := info.total;
    var args := Segments(info.total, segmentSize);
    if args.Err? {
      return Err(args.error);
    }
    var timestamps: seq<nat> := [];
    for i := 0 to |args.value|
      invariant ScanSegments(args.value[..i], skip, motion) == Ok(timestamps)
    {
      assert args.value[..i + 1][..i] == args.value[..i];
      var found := ProcessSegment(args.value[i], skip, motion);
      if found.Err? {
        ScanSegmentsStops(args.value, i + 1, skip, motion);
        return Err(found.error);
      }
      timestamps := timestamps + found.value;
    }
    assert args.value[..|args.value|] == args.value;
    r := Ok(Pair(path, ScannedRecord(SortInts(timestamps), info)));
  }

  // ----------------------------------------------------------- handleTimetags

  /** `pattern` occurs in `file` at offset `i`. */
  predicate OccursAt(file: string, pattern: string, i: int)
  {
    0 <= i <= |file| - |pattern| && file[i..i + |pattern|] == pattern
  }

  /** Python's `pattern in file` on strings: `pattern` occurs somewhere in `file`. */
  predicate Contains(file: string, pattern: string): (b: bool)
    ensures b ==> |pattern| <= |file|
    ensures pattern == [] ==> b
  {
    assert pattern == [] ==> OccursAt(file, pattern, 0);
    exists i :: 0 <= i <= |file| - |pattern| && OccursAt(file, pattern, i)
  }

  /** Some blacklist pattern occurs in `file`. */
  predicate Matches(file: string, blacklist: seq<string>): (b: bool)
    ensures b ==> blacklist != []
    ensures [] in blacklist ==> b
  {
    exists k :: 0 <= k < |blacklist| && Contains(file, blacklist[k])
  }

  /** The entry of a blacklisted video: a lone timestamp 0, the rounded fps and 'total_frames'. */
  function BlacklistRecord(info: VideoInfo): Record
  {
    Record(Some([0]), Some(info.fps), Some(info.total), None, None)
  }

  /** The blacklist pass over `files`: a file some pattern matches and the dict lacks is entered unscanned. */
  function AddBlacklisted(d: seq<Pair<Record>>, files: seq<string>, blacklist: seq<string>, probe: string -> VideoInfo)
    : (r: seq<Pair<Record>>)
    requires DistinctKeys(d)
    ensures DistinctKeys(r)
  {
    if files == [] then d
    else
      var d' := AddBlacklisted(d, files[..|files| - 1], blacklist, probe);
      var file := files[|files| - 1];
      if Matches(file, blacklist) && file !in Keys(d') then Put(d', file, BlacklistRecord(probe(file))) else d'
  }

  /**
   * The blacklist pass keeps every cached entry where it was, adds exactly
   * the matching files the cache lacks, and gives each the blacklist entry.
   */
  lemma AddBlacklistedResult(d: seq<Pair<Record>>, files: seq<string>, blacklist: seq<string>, probe: string -> VideoInfo)
    requires DistinctKeys(d)
    ensures var r := AddBlacklisted(d, files, blacklist, probe);
      && |d| <= |r| && r[..|d|] == d
      && Keys(r) == Keys(d) + (set f | f in files && Matches(f, blacklist))
      && forall i :: |d| <= i < |r| ==>
           r[i].key in files && Matches(r[i].key, blacklist) && r[i].val == BlacklistRecord(probe(r[i].key))
  {
    AddBlacklistedPrefix(d, files, blacklist, probe);
    AddBlacklistedKeys(d, files, blacklist, probe);
    AddBlacklistedEntries(d, files, blacklist, probe);
  }

  /** One more file either leaves the dict alone or appends its blacklist entry. */
  lemma AddBlacklistedStep(d: seq<Pair<Record>>, files: seq<string>, blacklist: seq<string>, probe: string -> VideoInfo)
    requires DistinctKeys(d) && files != []
    ensures var prev := AddBlacklisted(d, files[..|files| - 1], blacklist, probe);
      var file := files[|files| - 1];
      AddBlacklisted(d, files, blacklist, probe)
        == if Matches(file, blacklist) && file !in Keys(prev) then prev + [Pair(file, BlacklistRecord(probe(file)))] else prev
  {
  }

  lemma KeysAppendOne(d: seq<Pair<Record>>, p: Pair<Record>)
    ensures Keys(d + [p]) == Keys(d) + {p.key}
  {
    var r := d + [p];
    forall x | x in Keys(d) ensures x in Keys(r) {
      var i :| 0 <= i < |d| && d[i].key == x;
      assert r[i] == d[i];
    }
    assert r[|d|] == p;
  }

  lemma {:induction false} AddBlacklistedPrefix(d: seq<Pair<Record>>, files: seq<string>, blacklist: seq<string>, probe: string -> VideoInfo)
    requires DistinctKeys(d)
    ensures |d| <= |AddBlacklisted(d, files, blacklist, probe)|
    ensures AddBlacklisted(d, files, blacklist, probe)[..|d|] == d
  {
    if files != [] {
      var n := |files| - 1;
      AddBlacklistedPrefix(d, files[..n], blacklist, probe);
      AddBlacklistedStep(d, files, blacklist, probe);
      var prev := AddBlacklisted(d, files[..n], blacklist, probe);
      var r := AddBlacklisted(d, files, blacklist, probe);
      assert r[..|d|] == prev[..|d|];
    }
  }

  lemma {:induction false} AddBlacklistedKeys(d: seq<Pair<Record>>, files: seq<string>, blacklist: seq<string>, probe: string -> VideoInfo)
    requires DistinctKeys(d)
    ensures Keys(AddBlacklisted(d, files, blacklist, probe)) == Keys(d) + (set f | f in files && Matches(f, blacklist))
  {
    if files != [] {
      var n := |files| - 1;
      AddBlacklistedKeys(d, files[..n], blacklist, probe);
      AddBlacklistedStep(d, files, blacklist, probe);
      var prev := AddBlacklisted(d, files[..n], blacklist, probe);
      var r := AddBlacklisted(d, files, blacklist, probe);
      var file := files[n];
      if r != prev {
        KeysAppendOne(prev, Pair(file, BlacklistRecord(probe(file))));
      }
      forall x ensures x in Keys(r) <==> x in Keys(d) || (x in files && Matches(x, blacklist)) {
        assert x in files <==> x in files[..n] || x == file;
      }
    }
  }

  lemma {:induction false} AddBlacklistedEntries(d: seq<Pair<Record>>, files: seq<string>, blacklist: seq<string>, probe: string -> VideoInfo)
    requires DistinctKeys(d)
    ensures var r := AddBlacklisted(d, files, blacklist, probe);
      forall i :: |d| <= i < |r| ==>
        r[i].key in files && Matches(r[i].key, blacklist) && r[i].val == BlacklistRecord(probe(r[i].key))
  {
    if files != [] {
      var n := |files| - 1;
      AddBlacklistedEntries(d, files[..n], blacklist, probe);
      AddBlacklistedStep(d, files, blacklist, probe);
      var prev := AddBlacklisted(d, files[..n], blacklist, probe);
      var r := AddBlacklisted(d, files, blacklist, probe);
      forall i | |d| <= i < |r|
        ensures r[i].key in files && Matches(r[i].key, blacklist) && r[i].val == BlacklistRecord(probe(r[i].key))
      {
        if i < |prev| {
          assert r[i] == prev[i];
          assert prev[i].key in files[..n];
        }
      }
    }
  }

  /** `[i for i in video_files if i not in timestamp_dict.keys()]`. */
  function ToScan(files: seq<string>, d: seq<Pair<Record>>): (r: seq<string>)
    ensures |r| <= |files|
    ensures forall k :: 0 <= k < |r| ==> r[k] !in Keys(d)
  {
    if files == [] then []
    else ToScan(files[..|files| - 1], d) + (if files[|files| - 1] in Keys(d) then [] else [files[|files| - 1]])
  }

  /** The files left to scan are exactly the requested files the dict lacks. */
  lemma {:induction false} ToScanMembers(files: seq<string>, d: seq<Pair<Record>>, f: string)
    ensures f in ToScan(files, d) <==> f in files && f !in Keys(d)
  {
    if files != [] {
      ToScanMembers(files[..|files| - 1], d, f);
      assert files == files[..|files| - 1] + [files[|files| - 1]];
    }
  }

  /** `max_workers*3 if max_workers*3 < len(video_files) else len(video_files)`. */
  function SliceSize(maxWorkers: nat, n: nat): (size: nat)
    ensures size <= n && size <= 3 * maxWorkers
    ensures size == 0 <==> n == 0 || maxWorkers == 0
    ensures size == n || size == 3 * maxWorkers
  {
    if maxWorkers * 3 < n then maxWorkers * 3 else n
  }

  /** more_itertools `chunked(s, size)`: runs of `size` items, the last one possibly shorter; none for size 0. */
  function Chunked(s: seq<string>, size: nat): (r: seq<seq<string>>)
    ensures |r| <= |s|
    ensures forall c :: 0 <= c < |r| ==> |r[c]| <= size
    decreases |s|
  {
    if size == 0 || s == [] then []
    else if |s| <= size then [s]
    else [s[..size]] + Chunked(s[size..], size)
  }

  function Flatten(ss: seq<seq<string>>): seq<string>
  {
    if ss == [] then [] else Flatten(ss[..|ss| - 1]) + ss[|ss| - 1]
  }

  lemma {:induction false} FlattenAppend(a: seq<seq<string>>, b: seq<seq<string>>)
    ensures Flatten(a + b) == Flatten(a) + Flatten(b)
    decreases |b|
  {
    if b == [] {
      assert a + b == a;
    } else {
      var n := |b| - 1;
      FlattenAppend(a, b[..n]);
      assert (a + b)[..|a + b| - 1] == a + b[..n];
    }
  }

  /**
   * The chunks of a non-empty list are non-empty, at most `size` long, and
   * concatenate back to the list; there are just enough of them to cover it.
   */
  lemma ChunkedCovers(s: seq<string>, size: nat)
    requires size > 0
    ensures Flatten(Chunked(s, size)) == s
    ensures forall c :: 0 <= c < |Chunked(s, size)| ==> 0 < |Chunked(s, size)[c]| <= size
    ensures |s| <= |Chunked(s, size)| * size < |s| + size
  {
    ChunkedFlatten(s, size);
    ChunkedSizes(s, size);
    ChunkedCount(s, size);
  }

  lemma FlattenOne(x: seq<string>)
    ensures Flatten([x]) == x
  {
    assert Flatten([x]) == Flatten([]) + x;
  }

  lemma {:induction false} ChunkedFlatten(s: seq<string>, size: nat)
    requires size > 0
    ensures Flatten(Chunked(s, size)) == s
    decreases |s|
  {
    if s == [] {
    } else if |s| <= size {
      FlattenOne(s);
    } else {
      var head, tail := s[..size], s[size..];
      var rest := Chunked(tail, size);
      assert Chunked(s, size) == [head] + rest;
      ChunkedFlatten(tail, size);
      FlattenAppend([head], rest);
      FlattenOne(head);
      assert head + tail == s;
    }
  }

  lemma {:induction false} ChunkedSizes(s: seq<string>, size: nat)
    requires size > 0
    ensures forall c :: 0 <= c < |Chunked(s, size)| ==> 0 < |Chunked(s, size)[c]| <= size
    decreases |s|
  {
    if |s| > size {
      ChunkedSizes(s[size..], size);
      var rest := Chunked(s[size..], size);
      assert Chunked(s, size) == [s[..size]] + rest;
      forall c | 0 < c < |Chunked(s, size)| ensures Chunked(s, size)[c] == rest[c - 1] {
      }
    }
  }

  lemma {:induction false} ChunkedCount(s: seq<string>, size: nat)
    requires size > 0
    ensures |s| <= |Chunked(s, size)| * size < |s| + size
    decreases |s|
  {
    if |s| > size {
      ChunkedCount(s[size..], size);
      var rest := Chunked(s[size..], size);
      assert |Chunked(s, size)| == |rest| + 1;
      assert (|rest| + 1) * size == |rest| * size + size;
    }
  }

  /** The results of `pool.map(process_video, files)`, in order; the first failing video's exception. */
  function ScanResults(files: seq<string>, skip: nat, probe: string -> VideoInfo, motion: string -> nat -> bool)
    : (r: Result<seq<Pair<Record>>>)
    ensures r.Ok? ==> |r.value| == |files|
  {
    if files == [] then Ok([])
    else
      match ScanResults(files[..|files| - 1], skip, probe, motion)
      case Err(e) => Err(e)
      case Ok(rs) =>
        var f := files[|files| - 1];
        match ScanVideo(f, probe(f), skip, motion(f))
        case Err(e) => Err(e)
        case Ok(p) => Ok(rs + [p])
  }

  /** Scanning two lists one after the other is scanning their concatenation. */
  lemma {:induction false} ScanResultsAppend(a: seq<string>, b: seq<string>, skip: nat, probe: string -> VideoInfo, motion: string -> nat -> bool)
    ensures ScanResults(a + b, skip, probe, motion) ==
      match ScanResults(a, skip, probe, motion)
      case Err(e) => Err(e)
      case Ok(x) =>
        match ScanResults(b, skip, probe, motion)
        case Err(e) => Err(e)
        case Ok(y) => Ok(x + y)
    decreases |b|
  {
    if b == [] {
      assert a + b == a;
      if ScanResults(a, skip, probe, motion).Ok? {
        assert ScanResults(a, skip, probe, motion).value + [] == ScanResults(a, skip, probe, motion).value;
      }
    } else {
      var n := |b| - 1;
      ScanResultsAppend(a, b[..n], skip, probe, motion);
      assert (a + b)[..|a + b| - 1] == a + b[..n];
      assert (a + b)[|a + b| - 1] == b[n];
      var ra, rb := ScanResults(a, skip, probe, motion), ScanResults(b[..n], skip, probe, motion);
      var last := ScanVideo(b[n], probe(b[n]), skip, motion(b[n]));
      if ra.Ok? && rb.Ok? && last.Ok? {
        assert ra.value + rb.value + [last.value] == ra.value + (rb.value + [last.value]);
      }
    }
  }

  /** One more file: the batch scan is the scan of the others followed by that file's scan. */
  lemma ScanResultsSnoc(files: seq<string>, skip: nat, probe: string -> VideoInfo, motion: string -> nat -> bool)
    requires files != []
    ensures var prev := ScanResults(files[..|files| - 1], skip, probe, motion);
      var f := files[|files| - 1];
      var last := ScanVideo(f, probe(f), skip, motion(f));
      && (ScanResults(files, skip, probe, motion).Ok? <==> prev.Ok? && last.Ok?)
      && (prev.Ok? && last.Ok? ==> ScanResults(files, skip, probe, motion) == Ok(prev.value + [last.value]))
  {
  }

  /** A batch scan succeeds iff every video scans. */
  lemma {:induction false} ScanResultsAllOk(files: seq<string>, skip: nat, probe: string -> VideoInfo, motion: string -> nat -> bool)
    ensures ScanResults(files, skip, probe, motion).Ok?
      <==> forall j :: 0 <= j < |files| ==> ScanVideo(files[j], probe(files[j]), skip, motion(files[j])).Ok?
  {
    if files != [] {
      var n := |files| - 1;
      ScanResultsAllOk(files[..n], skip, probe, motion);
      forall j | 0 <= j < n ensures files[..n][j] == files[j] {
      }
    }
  }

  /** A successful batch scan yields each video's entry, in order. */
  lemma {:induction false} ScanResultsValues(files: seq<string>, skip: nat, probe: string -> VideoInfo, motion: string -> nat -> bool)
    requires ScanResults(files, skip, probe, motion).Ok?
    ensures var rs := ScanResults(files, skip, probe, motion).value;
      |rs| == |files| && forall j :: 0 <= j < |files| ==> ScanVideo(files[j], probe(files[j]), skip, motion(files[j])) == Ok(rs[j])
  {
    if files != [] {
      var n := |files| - 1;
      var f := files[n];
      var prev := ScanResults(files[..n], skip, probe, motion);
      var last := ScanVideo(f, probe(f), skip, motion(f));
      ScanResultsSnoc(files, skip, probe, motion);
      ScanResultsValues(files[..n], skip, probe, motion);
      var rs := prev.value + [last.value];
      assert ScanResults(files, skip, probe, motion).value == rs;
      forall j | 0 <= j < |files|
        ensures ScanVideo(files[j], probe(files[j]), skip, motion(files[j])) == Ok(rs[j])
      {
        if j < n { assert files[..n][j] == files[j]; }
      }
    }
  }

  /** A batch scan succeeds iff every video scans, and then yields each video's entry in order. */
  lemma ScanResultsEach(files: seq<string>, skip: nat, probe: string -> VideoInfo, motion: string -> nat -> bool)
    ensures ScanResults(files, skip, probe, motion).Ok?
      <==> forall j :: 0 <= j < |files| ==> ScanVideo(files[j], probe(files[j]), skip, motion(files[j])).Ok?
    ensures ScanResults(files, skip, probe, motion).Ok? ==>
      var rs := ScanResults(files, skip, probe, motion).value;
      |rs| == |files| && forall j :: 0 <= j < |files| ==> rs[j] == ScanVideo(files[j], probe(files[j]), skip, motion(files[j])).value
  {
    ScanResultsAllOk(files, skip, probe, motion);
    if ScanResults(files, skip, probe, motion).Ok? {
      ScanResultsValues(files, skip, probe, motion);
    }
  }

  /** `timestamp_dict.update(result)` for each result in turn. */
  function UpdateAll(d: seq<Pair<Record>>, rs: seq<Pair<Record>>): (r: seq<Pair<Record>>)
    requires DistinctKeys(d)
    ensures DistinctKeys(r)
    ensures |d| <= |r| <= |d| + |rs|
  {
    if rs == [] then d
    else Put(UpdateAll(d, rs[..|rs| - 1]), rs[|rs| - 1].key, rs[|rs| - 1].val)
  }

  lemma UpdateAllLast(d: seq<Pair<Record>>, rs: seq<Pair<Record>>)
    requires DistinctKeys(d) && rs != []
    ensures UpdateAll(d, rs) == Put(UpdateAll(d, rs[..|rs| - 1]), rs[|rs| - 1].key, rs[|rs| - 1].val)
  {
  }

  lemma {:induction false} UpdateAllAppend(d: seq<Pair<Record>>, a: seq<Pair<Record>>, b: seq<Pair<Record>>)
    requires DistinctKeys(d)
    ensures UpdateAll(d, a + b) == UpdateAll(UpdateAll(d, a), b)
    decreases |b|
  {
    if b == [] {
      assert a + b == a;
    } else {
      var n := |b| - 1;
      var ab := a + b;
      assert ab[..|ab| - 1] == a + b[..n] && ab[|ab| - 1] == b[n];
      UpdateAllAppend(d, a, b[..n]);
      var x := UpdateAll(d, a + b[..n]);
      UpdateAllLast(d, ab);
      assert UpdateAll(d, ab) == Put(x, b[n].key, b[n].val);
      UpdateAllLast(UpdateAll(d, a), b);
      assert UpdateAll(UpdateAll(d, a), b) == Put(x, b[n].key, b[n].val);
    }
  }

  lemma KeysSnoc(rs: seq<Pair<Record>>)
    requires rs != []
    ensures Keys(rs) == Keys(rs[..|rs| - 1]) + {rs[|rs| - 1].key}
  {
    var n := |rs| - 1;
    forall x | x in Keys(rs) ensures x in Keys(rs[..n]) + {rs[n].key} {
      var j :| 0 <= j < |rs| && rs[j].key == x;
      if j < n {
        assert rs[..n][j].key == x;
      }
    }
    forall x | x in Keys(rs[..n]) ensures x in Keys(rs) {
      var j :| 0 <= j < n && rs[..n][j].key == x;
      assert rs[j].key == x;
    }
  }

  /** Updating adds exactly the updates' keys. */
  lemma {:induction false} UpdateAllKeys(d: seq<Pair<Record>>, rs: seq<Pair<Record>>)
    requires DistinctKeys(d)
    ensures Keys(UpdateAll(d, rs)) == Keys(d) + Keys(rs)
  {
    if rs != [] {
      UpdateAllKeys(d, rs[..|rs| - 1]);
      KeysSnoc(rs);
    }
  }

  /** Updating with keys the dict lacks keeps every entry of the dict where it was. */
  lemma {:induction false} UpdateAllKeeps(d: seq<Pair<Record>>, rs: seq<Pair<Record>>)
    requires DistinctKeys(d)
    requires forall j :: 0 <= j < |rs| ==> rs[j].key !in Keys(d)
    ensures |d| <= |UpdateAll(d, rs)| && UpdateAll(d, rs)[..|d|] == d
  {
    if rs != [] {
      var n := |rs| - 1;
      FreshKeysPrefix(d, rs, n);
      UpdateAllKeeps(d, rs[..n]);
      PutKeepsPrefix(UpdateAll(d, rs[..n]), d, rs[n].key, rs[n].val);
    }
  }

  lemma FreshKeysPrefix(d: seq<Pair<Record>>, rs: seq<Pair<Record>>, n: nat)
    requires n < |rs|
    requires forall j :: 0 <= j < |rs| ==> rs[j].key !in Keys(d)
    ensures forall j :: 0 <= j < |rs[..n]| ==> rs[..n][j].key !in Keys(d)
    ensures rs[n].key !in Keys(d)
  {
  }

  /** A put of a key outside a prefix of the dict leaves that prefix in place. */
  lemma PutKeepsPrefix(prev: seq<Pair<Record>>, d: seq<Pair<Record>>, k: string, v: Record)
    requires DistinctKeys(prev)
    requires |d| <= |prev| && prev[..|d|] == d && k !in Keys(d)
    ensures |d| <= |Put(prev, k, v)| && Put(prev, k, v)[..|d|] == d
  {
    var r := Put(prev, k, v);
    forall i | 0 <= i < |d| ensures r[i] == d[i] {
      assert prev[i] == d[i];
      assert d[i].key in Keys(d);
    }
  }

  /** Where an updated key occurs, its value is the one the updates carried (they all agree). */
  lemma {:induction false} UpdateAllValues(d: seq<Pair<Record>>, rs: seq<Pair<Record>>)
    requires DistinctKeys(d)
    requires forall i, j :: 0 <= i < |rs| && 0 <= j < |rs| && rs[i].key == rs[j].key ==> rs[i].val == rs[j].val
    ensures forall i, j ::
      (0 <= i < |UpdateAll(d, rs)| && 0 <= j < |rs| && UpdateAll(d, rs)[i].key == rs[j].key ==>
       UpdateAll(d, rs)[i].val == rs[j].val)
  {
    if rs != [] {
      var n := |rs| - 1;
      var init := rs[..n];
      UpdateAllValues(d, init);
      var prev := UpdateAll(d, init);
      var r := Put(prev, rs[n].key, rs[n].val);
      forall i, j | 0 <= i < |r| && 0 <= j < |rs| && r[i].key == rs[j].key ensures r[i].val == rs[j].val {
        if r[i].key != rs[n].key {
          assert j < n && init[j] == rs[j];
          if rs[n].key in Keys(prev) {
            assert r[i].key == prev[i].key;
          } else {
            assert r == prev + [Pair(rs[n].key, rs[n].val)];
          }
          assert i < |prev| && prev[i].key != rs[n].key;
          assert r[i] == prev[i];
          assert prev[i].key == init[j].key;
          assert prev[i].val == init[j].val;
        } else {
          assert r[i].val == rs[n].val;
          assert rs[j].val == rs[n].val;
        }
      }
    }
  }

  /** The slices handleTimetags scans, after the blacklist pass. */
  function Batches(files: seq<string>, cache: seq<Pair<Record>>, maxWorkers: nat, blacklist: seq<string>,
                   probe: string -> VideoInfo): (r: seq<seq<string>>)
    requires DistinctKeys(cache)
    ensures forall c :: 0 <= c < |r| ==> |r[c]| <= 3 * maxWorkers
  {
    var scan := ToScan(files, AddBlacklisted(cache, files, blacklist, probe));
    Chunked(scan, SliceSize(maxWorkers, |scan|))
  }

  /** handleTimetags: the dict it returns, or the exception a scan raised. */
  function Timetags(files: seq<string>, cache: seq<Pair<Record>>, maxWorkers: nat, skip: nat, blacklist: seq<string>,
                    probe: string -> VideoInfo, motion: string -> nat -> bool): (r: Result<seq<Pair<Record>>>)
    requires DistinctKeys(cache)
    ensures r.Ok? ==> DistinctKeys(r.value) && |AddBlacklisted(cache, files, blacklist, probe)| <= |r.value|
  {
    ScanInto(AddBlacklisted(cache, files, blacklist, probe), Flatten(Batches(files, cache, maxWorkers, blacklist, probe)),
             skip, probe, motion)
  }

  /** The dict after scanning `files` and folding their entries in, or the first exception a scan raised. */
  function ScanInto(d: seq<Pair<Record>>, files: seq<string>, skip: nat, probe: string -> VideoInfo,
                    motion: string -> nat -> bool): (r: Result<seq<Pair<Record>>>)
    requires DistinctKeys(d)
    ensures r.Ok? ==> DistinctKeys(r.value) && |d| <= |r.value| <= |d| + |files|
  {
    match ScanResults(files, skip, probe, motion)
    case Err(e) => Err(e)
    case Ok(rs) => Ok(UpdateAll(d, rs))
  }

  lemma FlattenSnoc(ss: seq<seq<string>>, c: nat)
    requires c < |ss|
    ensures Flatten(ss[..c + 1]) == Flatten(ss[..c]) + ss[c]
  {
    assert ss[..c + 1][..c] == ss[..c];
  }

  /** The flattened slices are those before slice `c`, slice `c`, and those after it. */
  lemma FlattenAt(slices: seq<seq<string>>, c: nat)
    requires c < |slices|
    ensures Flatten(slices) == Flatten(slices[..c]) + slices[c] + Flatten(slices[c + 1..])
  {
    SplitJoin(slices, c + 1);
    FlattenAppend(slices[..c + 1], slices[c + 1..]);
    FlattenSnoc(slices, c);
  }

  lemma SplitJoin<T>(s: seq<T>, k: nat)
    requires k <= |s|
    ensures s[..k] + s[k..] == s
  {
  }

  lemma CutAfter(pre: seq<string>, x: seq<string>, post: seq<string>, i: nat)
    requires i < |x|
    ensures pre + x + post == (pre + x[..i + 1]) + (x[i + 1..] + post)
  {
    assert x == x[..i + 1] + x[i + 1..];
  }

  /** The flattened slices, cut just after element `i` of slice `c`. */
  lemma FlattenSplitAt(slices: seq<seq<string>>, c: nat, i: nat)
    requires c < |slices| && i < |slices[c]|
    ensures Flatten(slices) == (Flatten(slices[..c]) + slices[c][..i + 1]) + (slices[c][i + 1..] + Flatten(slices[c + 1..]))
  {
    FlattenAt(slices, c);
    CutAfter(Flatten(slices[..c]), slices[c], Flatten(slices[c + 1..]), i);
  }

  /** A video that fails in slice `c` fails the whole scan with its exception. */
  lemma ScanStopsAt(slices: seq<seq<string>>, c: nat, i: nat, skip: nat, probe: string -> VideoInfo, motion: string -> nat -> bool)
    requires c < |slices| && i < |slices[c]|
    requires ScanResults(Flatten(slices[..c]), skip, probe, motion).Ok?
    requires ScanResults(slices[c][..i + 1], skip, probe, motion).Err?
    ensures ScanResults(Flatten(slices), skip, probe, motion) == ScanResults(slices[c][..i + 1], skip, probe, motion)
  {
    var pre, part := Flatten(slices[..c]), slices[c][..i + 1];
    var post := slices[c][i + 1..] + Flatten(slices[c + 1..]);
    FlattenSplitAt(slices, c, i);
    ScanResultsAppend(pre, part, skip, probe, motion);
    ScanResultsAppend(pre + part, post, skip, probe, motion);
  }

  /** The blacklist patterns tried on one file: the first match enters it, if the dict lacks it. */
  method BlacklistFile(d: seq<Pair<Record>>, file: string, blacklist: seq<string>, probe: string -> VideoInfo)
    returns (d': seq<Pair<Record>>)
    requires DistinctKeys(d)
    ensures d' == if Matches(file, blacklist) && file !in Keys(d) then Put(d, file, BlacklistRecord(probe(file))) else d
  {
    d' := d;
    for j := 0 to |blacklist|
      invariant DistinctKeys(d')
      invariant d' == if (exists k :: 0 <= k < j && Contains(file, blacklist[k])) && file !in Keys(d)
        then Put(d, file, BlacklistRecord(probe(file))) else d
    {
      var pattern := blacklist[j];
      if Contains(file, pattern) && file !in Keys(d') {
        var info := probe(file);
        d' := Put(d', file, BlacklistRecord(info));
      }
    }
  }

  /** The blacklist pass of handleTimetags over all requested files. */
  method EnterBlacklisted(cache: seq<Pair<Record>>, videoFiles: seq<string>, blacklist: seq<string>, probe: string -> VideoInfo)
    returns (d: seq<Pair<Record>>)
    requires DistinctKeys(cache)
    ensures d == AddBlacklisted(cache, videoFiles, blacklist, probe)
  {
    d := cache;
    for i := 0 to |videoFiles|
      invariant DistinctKeys(d)
      invariant d == AddBlacklisted(cache, videoFiles[..i], blacklist, probe)
    {
      assert videoFiles[..i + 1][..i] == videoFiles[..i];
      d := BlacklistFile(d, videoFiles[i], blacklist, probe);
    }
    assert videoFiles[..|videoFiles|] == videoFiles;
  }

  /** One slice: `pool.map(process_video, video_slice)`; the first failing video's exception. */
  method MapSlice(videoSlice: seq<string>, skip: nat, probe: string -> VideoInfo, motion: string -> nat -> bool)
    returns (r: Result<seq<Pair<Record>>>)
    ensures r == ScanResults(videoSlice, skip, probe, motion)
    ensures r.Err? ==> exists i :: 0 < i <= |videoSlice| && ScanResults(videoSlice[..i], skip, probe, motion) == r
  {
    var results: seq<Pair<Record>> := [];
    for i := 0 to |videoSlice|
      invariant ScanResults(videoSlice[..i], skip, probe, motion) == Ok(results)
    {
      assert videoSlice[..i + 1][..i] == videoSlice[..i];
      var result := ProcessVideo(videoSlice[i], probe(videoSlice[i]), skip, motion(videoSlice[i]));
      if result.Err? {
        assert ScanResults(videoSlice[..i + 1], skip, probe, motion) == Err(result.error);
        ScanResultsAppend(videoSlice[..i + 1], videoSlice[i + 1..], skip, probe, motion);
        assert videoSlice[..i + 1] + videoSlice[i + 1..] == videoSlice;
        return Err(result.error);
      }
      results := results + [result.value];
    }
    assert videoSlice[..|videoSlice|] == videoSlice;
    r := Ok(results);
  }

  /** `for result in results: timestamp_dict.update(result)`. */
  method UpdateDict(d: seq<Pair<Record>>, results: seq<Pair<Record>>) returns (d': seq<Pair<Record>>)
    requires DistinctKeys(d)
    ensures d' == UpdateAll(d, results)
  {
    d' := d;
    for i := 0 to |results|
      invariant DistinctKeys(d')
      invariant d' == UpdateAll(d, results[..i])
    {
      assert results[..i + 1][..i] == results[..i];
      d' := Put(d', results[i].key, results[i].val);
    }
    assert results[..|results|] == results;
  }

  /** One more slice scanned: its results extend the scans so far and are folded in after them. */
  lemma SliceStep(d: seq<Pair<Record>>, done: seq<Pair<Record>>, slices: seq<seq<string>>, c: nat, rs: seq<Pair<Record>>,
                  skip: nat, probe: string -> VideoInfo, motion: string -> nat -> bool)
    requires DistinctKeys(d) && c < |slices|
    requires ScanResults(Flatten(slices[..c]), skip, probe, motion) == Ok(done)
    requires ScanResults(slices[c], skip, probe, motion) == Ok(rs)
    ensures ScanResults(Flatten(slices[..c + 1]), skip, probe, motion) == Ok(done + rs)
    ensures UpdateAll(d, done + rs) == UpdateAll(UpdateAll(d, done), rs)
  {
    UpdateAllAppend(d, done, rs);
    FlattenSnoc(slices, c);
    ScanResultsAppend(Flatten(slices[..c]), slices[c], skip, probe, motion);
  }

  /**
   * handleTimetags: enter the blacklisted videos, scan the rest slice by
   * slice (each slice through the worker pool, then folded into the dict),
   * and count the videos processed, one whole slice at a time.
   */
  method HandleTimetags(videoFiles: seq<string>, cache: seq<Pair<Record>>, maxWorkers: nat, skip: nat,
                        blacklist: seq<string>, probe: string -> VideoInfo, motion: string -> nat -> bool)
    returns (r: Result<seq<Pair<Record>>>, processed: nat)
    requires DistinctKeys(cache)
    ensures r == Timetags(videoFiles, cache, maxWorkers, skip, blacklist, probe, motion)
    ensures var scan := ToScan(videoFiles, AddBlacklisted(cache, videoFiles, blacklist, probe));
      r.Ok? ==> processed == |Batches(videoFiles, cache, maxWorkers, blacklist, probe)| * SliceSize(maxWorkers, |scan|)
  {
    var timestampDict := EnterBlacklisted(cache, videoFiles, blacklist, probe);
    var toScan := ToScan(videoFiles, timestampDict);
    var sliceSize := SliceSize(maxWorkers, |toScan|);
    r, processed := ScanSlices(timestampDict, Chunked(toScan, sliceSize), sliceSize, skip, probe, motion);
  }

  /**
   * The slice loop of handleTimetags: each slice goes through the worker pool
   * and its entries are folded into the dict; `processed` grows by the slice
   * size after every slice.
   */
  method ScanSlices(d: seq<Pair<Record>>, slices: seq<seq<string>>, sliceSize: nat, skip: nat,
                    probe: string -> VideoInfo, motion: string -> nat -> bool)
    returns (r: Result<seq<Pair<Record>>>, processed: nat)
    requires DistinctKeys(d)
    ensures r == ScanInto(d, Flatten(slices), skip, probe, motion)
    ensures r.Ok? ==> processed == |slices| * sliceSize
  {
    var timestampDict := d;
    processed := 0;
    ghost var done: seq<Pair<Record>> := [];
    for c := 0 to |slices|
      invariant DistinctKeys(timestampDict)
      invariant ScanResults(Flatten(slices[..c]), skip, probe, motion) == Ok(done)
      invariant timestampDict == UpdateAll(d, done)
      invariant processed == c * sliceSize
    {
      var results := MapSlice(slices[c], skip, probe, motion);
      if results.Err? {
        var i :| 0 < i <= |slices[c]| && ScanResults(slices[c][..i], skip, probe, motion) == results;
        ScanStopsAt(slices, c, i - 1, skip, probe, motion);
        assert slices[..|slices|] == slices;
        return Err(results.error), processed;
      }
      timestampDict := UpdateDict(timestampDict, results.value);
      SliceStep(d, done, slices, c, results.value, skip, probe, motion);
      done := done + results.value;
      assert (c + 1) * sliceSize == c * sliceSize + sliceSize;
      processed := processed + sliceSize;
    }
    assert slices[..|slices|] == slices;
    r := Ok(timestampDict);
  }

  // ------------------------------------------------------ what handleTimetags returns

  /** The videos handleTimetags scans, slice after slice. */
  function Scanned(files: seq<string>, cache: seq<Pair<Record>>, maxWorkers: nat, blacklist: seq<string>,
                   probe: string -> VideoInfo): seq<string>
    requires DistinctKeys(cache)
  {
    Flatten(Batches(files, cache, maxWorkers, blacklist, probe))
  }

  /**
   * With at least one worker every file the dict lacks after the blacklist
   * pass is scanned, in order; with none, nothing is.
   */
  lemma ScannedFiles(files: seq<string>, cache: seq<Pair<Record>>, maxWorkers: nat, blacklist: seq<string>,
                     probe: string -> VideoInfo)
    requires DistinctKeys(cache)
    ensures maxWorkers > 0 ==>
      Scanned(files, cache, maxWorkers, blacklist, probe) == ToScan(files, AddBlacklisted(cache, files, blacklist, probe))
    ensures maxWorkers == 0 ==> Scanned(files, cache, maxWorkers, blacklist, probe) == []
  {
    var scan := ToScan(files, AddBlacklisted(cache, files, blacklist, probe));
    var size := SliceSize(maxWorkers, |scan|);
    if size > 0 {
      ChunkedCovers(scan, size);
    }
  }

  /**
   * `processed` counts whole slices: with at least one worker it reaches the
   * number of videos to scan and overshoots it by less than one slice.
   */
  lemma ProcessedBounds(files: seq<string>, cache: seq<Pair<Record>>, maxWorkers: nat, blacklist: seq<string>,
                        probe: string -> VideoInfo)
    requires DistinctKeys(cache)
    ensures var n := |ToScan(files, AddBlacklisted(cache, files, blacklist, probe))|;
      var processed := |Batches(files, cache, maxWorkers, blacklist, probe)| * SliceSize(maxWorkers, n);
      && (maxWorkers == 0 || n == 0 ==> processed == 0)
      && (maxWorkers > 0 && n > 0 ==> n <= processed < n + SliceSize(maxWorkers, n))
  {
    var scan := ToScan(files, AddBlacklisted(cache, files, blacklist, probe));
    var size := SliceSize(maxWorkers, |scan|);
    if size > 0 {
      ChunkedCovers(scan, size);
    }
  }

  /** Every scanned video is one the dict lacked after the blacklist pass. */
  lemma ScannedAreNew(files: seq<string>, cache: seq<Pair<Record>>, maxWorkers: nat, blacklist: seq<string>,
                      probe: string -> VideoInfo, f: string)
    requires DistinctKeys(cache)
    ensures f in Scanned(files, cache, maxWorkers, blacklist, probe) ==>
      f in files && f !in Keys(AddBlacklisted(cache, files, blacklist, probe))
  {
    ScannedFiles(files, cache, maxWorkers, blacklist, probe);
    ToScanMembers(files, AddBlacklisted(cache, files, blacklist, probe), f);
  }

  /** A batch scan succeeds iff each of its videos does. */
  lemma ScanResultsOk(batch: seq<string>, skip: nat, probe: string -> VideoInfo, motion: string -> nat -> bool)
    ensures ScanResults(batch, skip, probe, motion).Ok?
      <==> forall f :: f in batch ==> ScanVideo(f, probe(f), skip, motion(f)).Ok?
  {
    ScanResultsEach(batch, skip, probe, motion);
  }

  /** A batch's entries are keyed by its videos, in order, one process_video entry each. */
  lemma ScanResultsKeys(batch: seq<string>, skip: nat, probe: string -> VideoInfo, motion: string -> nat -> bool)
    requires ScanResults(batch, skip, probe, motion).Ok?
    ensures var rs := ScanResults(batch, skip, probe, motion).value;
      && |rs| == |batch|
      && Keys(rs) == (set f | f in batch)
      && (forall i, j :: 0 <= i < |rs| && 0 <= j < |rs| && rs[i].key == rs[j].key ==> rs[i].val == rs[j].val)
      && (forall j :: 0 <= j < |rs| ==> rs[j].key == batch[j])
      && (forall j :: 0 <= j < |rs| ==> ScanVideo(rs[j].key, probe(rs[j].key), skip, motion(rs[j].key)) == Ok(rs[j]))
  {
    var rs := ScanResults(batch, skip, probe, motion).value;
    ScanResultsEach(batch, skip, probe, motion);
    forall j | 0 <= j < |rs| ensures rs[j].key == batch[j] {
    }
    forall f | f in batch ensures f in Keys(rs) {
      var j :| 0 <= j < |batch| && batch[j] == f;
      assert rs[j].key == f;
    }
  }

  /**
   * Folding the scans of new videos into a dict keeps its entries where they
   * were, adds exactly the scanned videos, each with the entry process_video made.
   */
  lemma FoldScans(d: seq<Pair<Record>>, batch: seq<string>, skip: nat, probe: string -> VideoInfo, motion: string -> nat -> bool)
    requires DistinctKeys(d)
    requires forall f :: f in batch ==> f !in Keys(d)
    requires ScanResults(batch, skip, probe, motion).Ok?
    ensures |d| <= |UpdateAll(d, ScanResults(batch, skip, probe, motion).value)|
    ensures UpdateAll(d, ScanResults(batch, skip, probe, motion).value)[..|d|] == d
    ensures Keys(UpdateAll(d, ScanResults(batch, skip, probe, motion).value)) == Keys(d) + (set f | f in batch)
    ensures forall i :: |d| <= i < |UpdateAll(d, ScanResults(batch, skip, probe, motion).value)| ==>
      ScanVideo(UpdateAll(d, ScanResults(batch, skip, probe, motion).value)[i].key,
                probe(UpdateAll(d, ScanResults(batch, skip, probe, motion).value)[i].key), skip,
                motion(UpdateAll(d, ScanResults(batch, skip, probe, motion).value)[i].key))
        == Ok(UpdateAll(d, ScanResults(batch, skip, probe, motion).value)[i])
  {
    var rs := ScanResults(batch, skip, probe, motion).value;
    ScanResultsKeys(batch, skip, probe, motion);
    forall j | 0 <= j < |rs| ensures rs[j].key !in Keys(d) {
      assert rs[j].key == batch[j] && batch[j] in batch;
    }
    UpdateAllKeeps(d, rs);
    UpdateAllKeys(d, rs);
    FoldEntries(d, rs, skip, probe, motion);
  }

  /** Folding entries that are scans of keys new to the dict leaves a scan at every new position. */
  lemma FoldEntries(d: seq<Pair<Record>>, rs: seq<Pair<Record>>, skip: nat, probe: string -> VideoInfo, motion: string -> nat -> bool)
    requires DistinctKeys(d)
    requires forall j :: 0 <= j < |rs| ==> rs[j].key !in Keys(d)
    requires forall i, j :: 0 <= i < |rs| && 0 <= j < |rs| && rs[i].key == rs[j].key ==> rs[i].val == rs[j].val
    requires forall j :: 0 <= j < |rs| ==> ScanVideo(rs[j].key, probe(rs[j].key), skip, motion(rs[j].key)) == Ok(rs[j])
    ensures forall i :: |d| <= i < |UpdateAll(d, rs)| ==>
      ScanVideo(UpdateAll(d, rs)[i].key, probe(UpdateAll(d, rs)[i].key), skip, motion(UpdateAll(d, rs)[i].key)) == Ok(UpdateAll(d, rs)[i])
  {
    UpdateAllKeeps(d, rs);
    UpdateAllKeys(d, rs);
    UpdateAllValues(d, rs);
    var r := UpdateAll(d, rs);
    forall i | |d| <= i < |r| ensures ScanVideo(r[i].key, probe(r[i].key), skip, motion(r[i].key)) == Ok(r[i]) {
      assert r[i].key !in Keys(d) by {
        forall p | 0 <= p < |d| ensures d[p].key != r[i].key {
          assert r[p] == d[p];
        }
      }
      assert r[i].key in Keys(rs);
      var j :| 0 <= j < |rs| && rs[j].key == r[i].key;
      assert r[i].val == rs[j].val;
      assert r[i] == rs[j];
    }
  }

  /**
   * handleTimetags fails iff some scanned video fails; otherwise the dict
   * keeps every cached and blacklisted entry where it was, adds exactly the
   * scanned videos, and holds for each the entry process_video made.
   */
  lemma TimetagsResult(files: seq<string>, cache: seq<Pair<Record>>, maxWorkers: nat, skip: nat, blacklist: seq<string>,
                       probe: string -> VideoInfo, motion: string -> nat -> bool)
    requires DistinctKeys(cache)
    ensures Timetags(files, cache, maxWorkers, skip, blacklist, probe, motion).Ok?
      <==> forall f :: f in Scanned(files, cache, maxWorkers, blacklist, probe) ==> ScanVideo(f, probe(f), skip, motion(f)).Ok?
    ensures Timetags(files, cache, maxWorkers, skip, blacklist, probe, motion).Ok? ==>
      && |AddBlacklisted(cache, files, blacklist, probe)| <= |Timetags(files, cache, maxWorkers, skip, blacklist, probe, motion).value|
      && Timetags(files, cache, maxWorkers, skip, blacklist, probe, motion).value[..|AddBlacklisted(cache, files, blacklist, probe)|]
         == AddBlacklisted(cache, files, blacklist, probe)
      && Keys(Timetags(files, cache, maxWorkers, skip, blacklist, probe, motion).value)
         == Keys(AddBlacklisted(cache, files, blacklist, probe)) + (set f | f in Scanned(files, cache, maxWorkers, blacklist, probe))
    ensures Timetags(files, cache, maxWorkers, skip, blacklist, probe, motion).Ok? ==>
      forall i :: |AddBlacklisted(cache, files, blacklist, probe)| <= i < |Timetags(files, cache, maxWorkers, skip, blacklist, probe, motion).value|
        ==> ScanVideo(Timetags(files, cache, maxWorkers, skip, blacklist, probe, motion).value[i].key,
                      probe(Timetags(files, cache, maxWorkers, skip, blacklist, probe, motion).value[i].key), skip,
                      motion(Timetags(files, cache, maxWorkers, skip, blacklist, probe, motion).value[i].key))
            == Ok(Timetags(files, cache, maxWorkers, skip, blacklist, probe, motion).value[i])
  {
    var d := AddBlacklisted(cache, files, blacklist, probe);
    var batch := Scanned(files, cache, maxWorkers, blacklist, probe);
    ScanResultsOk(batch, skip, probe, motion);
    if ScanResults(batch, skip, probe, motion).Ok? {
      forall f | f in batch ensures f !in Keys(d) {
        ScannedAreNew(files, cache, maxWorkers, blacklist, probe, f);
      }
      FoldScans(d, batch, skip, probe, motion);
      assert Timetags(files, cache, maxWorkers, skip, blacklist, probe, motion)
          == Ok(UpdateAll(d, ScanResults(batch, skip, probe, motion).value));
    }
  }

  /**
   * With at least one worker, a successful handleTimetags leaves every
   * requested video in the dict, and the cached entries untouched.
   */
  lemma TimetagsCoversRequest(files: seq<string>, cache: seq<Pair<Record>>, maxWorkers: nat, skip: nat, blacklist: seq<string>,
                              probe: string -> VideoInfo, motion: string -> nat -> bool)
    requires DistinctKeys(cache)
    requires maxWorkers > 0
    requires Timetags(files, cache, maxWorkers, skip, blacklist, probe, motion).Ok?
    ensures Keys(Timetags(files, cache, maxWorkers, skip, blacklist, probe, motion).value) == Keys(cache) + (set f | f in files)
    ensures |cache| <= |Timetags(files, cache, maxWorkers, skip, blacklist, probe, motion).value|
    ensures Timetags(files, cache, maxWorkers, skip, blacklist, probe, motion).value[..|cache|] == cache
  {
    var d := AddBlacklisted(cache, files, blacklist, probe);
    var r := Timetags(files, cache, maxWorkers, skip, blacklist, probe, motion).value;
    var scanned := Scanned(files, cache, maxWorkers, blacklist, probe);
    AddBlacklistedResult(cache, files, blacklist, probe);
    TimetagsResult(files, cache, maxWorkers, skip, blacklist, probe, motion);
    ScannedFiles(files, cache, maxWorkers, blacklist, probe);
    forall f ensures f in scanned <==> f in files && f !in Keys(d) {
      ToScanMembers(files, d, f);
    }
    CoveredKeys(cache, d, r, files, scanned, blacklist);
    KeptPrefix(cache, d, r);
  }

  /** The key-set bookkeeping behind TimetagsCoversRequest. */
  lemma CoveredKeys(cache: seq<Pair<Record>>, d: seq<Pair<Record>>, r: seq<Pair<Record>>, files: seq<string>,
                    scanned: seq<string>, blacklist: seq<string>)
    requires Keys(d) == Keys(cache) + (set f | f in files && Matches(f, blacklist))
    requires Keys(r) == Keys(d) + (set f | f in scanned)
    requires forall f :: f in scanned <==> f in files && f !in Keys(d)
    ensures Keys(r) == Keys(cache) + (set f | f in files)
  {
  }

  /** A dict that extends one extending `cache` extends `cache`. */
  lemma KeptPrefix(cache: seq<Pair<Record>>, d: seq<Pair<Record>>, r: seq<Pair<Record>>)
    requires |cache| <= |d| <= |r| && d[..|cache|] == cache && r[..|d|] == d
    ensures r[..|cache|] == cache
  {
    assert r[..|cache|] == r[..|d|][..|cache|];
  }

  /** With no worker nothing is scanned: the dict after the blacklist pass is returned. */
  lemma TimetagsNoWorkers(files: seq<string>, cache: seq<Pair<Record>>, skip: nat, blacklist: seq<string>,
                          probe: string -> VideoInfo, motion: string -> nat -> bool)
    requires DistinctKeys(cache)
    ensures Timetags(files, cache, 0, skip, blacklist, probe, motion) == Ok(AddBlacklisted(cache, files, blacklist, probe))
  {
    ScannedFiles(files, cache, 0, blacklist, probe);
  }
}
