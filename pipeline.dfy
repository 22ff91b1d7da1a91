/**
 * How the stages meet: the entries handleTimetags writes, once
 * handleIntervals has added 'merged_intervals', as handleFrames reads them.
 */
module Pipeline {
  import opened Common
  import Intervals
  import Frames
  import Timetags

  /**
   * The entry handleIntervals makes of a record it accepts: one with
   * timestamps, and with fps when there are two or more of them (the record
   * Intervals.UpdateIntervals returns).
   */
  function WithMerged(rec: Record, before: nat, after: nat): (r: Record)
    requires rec.timestamps.Some? && (|rec.timestamps.value| <= 1 || rec.fps.Some?)
    ensures r.merged.Some? && |r.merged.value| > 0
    ensures r.(merged := rec.merged) == rec
    ensures rec.fps.None? ==> r.merged == Some([Interval(Inf, Inf)])
  {
    rec.(merged := Some(Intervals.MergedIntervals(rec.timestamps.value, rec.fps.GetOr(0), before, after)))
  }

  /** handleIntervals never stores an empty 'merged_intervals'. */
  lemma MergedNonEmpty(ts: seq<int>, fps: nat, before: nat, after: nat)
    ensures |Intervals.MergedIntervals(ts, fps, before, after)| > 0
  {
    if |ts| > 1 {
      Intervals.MergedSpansShape(ts, fps, before, after);
    }
  }

  /**
   * A freshly scanned video reaches handleFrames without 'total_frames':
   * process_video stores the frame count under 'frames', so handleFrames
   * raises KeyError('total_frames') on it, whatever the padding and rates.
   */
  lemma ScannedLacksTotalFrames(path: string, info: Timetags.VideoInfo, skip: nat, motion: nat -> bool,
                                before: nat, after: nat, c0: nat, newFps: nat, slow: nat, fast: nat)
    requires Timetags.ScanVideo(path, info, skip, motion).Ok?
    ensures var rec := Timetags.ScanVideo(path, info, skip, motion).value.val;
      && rec.timestamps.Some? && rec.fps.Some?
      && Frames.VideoFrames(WithMerged(rec, before, after), c0, newFps, slow, fast) == Err(KeyError("total_frames"))
  {
    Timetags.ScanVideoResult(path, info, skip, motion);
    var rec := Timetags.ScanVideo(path, info, skip, motion).value.val;
    MergedNonEmpty(rec.timestamps.value, rec.fps.value, before, after);
  }

  /**
   * A blacklisted video reaches handleFrames with the lone timestamp 0, so its
   * merged intervals are the `[[inf, inf]]` sentinel and every frame is
   * outside: it is picked on the fast cadence alone, and fails only when that
   * cadence is 0 and it has a frame.
   */
  lemma BlacklistedAllFast(info: Timetags.VideoInfo, before: nat, after: nat, c0: nat, newFps: nat, slow: nat, fast: nat,
                           t: Frames.Tag)
    ensures WithMerged(Timetags.BlacklistRecord(info), before, after).merged == Some([Interval(Inf, Inf)])
    ensures var frames := Frames.VideoFrames(WithMerged(Timetags.BlacklistRecord(info), before, after), c0, newFps, slow, fast);
      frames.Ok? <==> info.total == 0 || Frames.Cadence(fast, info.fps, newFps) > 0
    ensures var frames := Frames.VideoFrames(WithMerged(Timetags.BlacklistRecord(info), before, after), c0, newFps, slow, fast);
      var fastMod := Frames.Cadence(fast, info.fps, newFps);
      frames.Ok? ==> (t in frames.value <==> t.mode == Frames.Fast && t.frame < info.total && fastMod > 0 && (c0 + t.frame) % fastMod == 0)
  {
    var m := [Interval(Inf, Inf)];
    var slowMod, fastMod := Frames.Cadence(slow, info.fps, newFps), Frames.Cadence(fast, info.fps, newFps);
    forall j: nat ensures Frames.Modulus(m, j, slowMod, fastMod) == fastMod {
      Frames.SentinelCursor(j);
    }
    Frames.SelectFails(m, info.total, c0, slowMod, fastMod);
    if info.total > 0 && fastMod == 0 {
      assert Frames.Modulus(m, 0, slowMod, fastMod) == 0;
    }
    if Frames.Select(m, info.total, c0, slowMod, fastMod).Ok? {
      Frames.SelectTags(m, info.total, c0, slowMod, fastMod, t);
      Frames.SentinelCursor(t.frame);
    }
  }
}
