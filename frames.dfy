/**
 * The frame selector of find_frames.py (handleFrames): every frame of every
 * video is classified against the merged interval under a forward-only
 * cursor and picked on the slow or the fast cadence of one global counter
 * that runs on across videos.
 */
module Frames {
  import opened Common
  import Intervals

  datatype Mode = Slow | Fast

  /** `['s', i]` or `['f', i]`. */
  datatype Tag = Tag(mode: Mode, frame: nat)

  /** `j >= interval[0] and j <= interval[1]`, where `inf` is above every frame. */
  predicate Inside(j: int, iv: Interval)
  {
    iv.start.Fin? && iv.start.n <= j && (iv.end.Inf? || j <= iv.end.n)
  }

  /** `j > interval[1]`. */
  predicate Beyond(j: int, iv: Interval)
  {
    iv.end.Fin? && j > iv.end.n
  }

  /** `timestamp_index` when frame `j` is examined. */
  function Cursor(m: seq<Interval>, j: nat): (c: nat)
    requires |m| > 0
    ensures c < |m|
  {
    if j == 0 then 0
    else
      var c := Cursor(m, j - 1);
      if Inside(j - 1, m[c]) then c
      else if Beyond(j - 1, m[c]) then Min(c + 1, |m| - 1)
      else c
  }

  /** `in_interval` for frame `j`: the frame lies in the interval under the cursor as it stood on arrival. */
  predicate InInterval(m: seq<Interval>, j: nat): (b: bool)
    requires |m| > 0
    ensures b ==> exists k :: 0 <= k < |m| && Inside(j, m[k])
  {
    Inside(j, m[Cursor(m, j)])
  }

  /** `int(factor * fps / new_fps)` on non-negative integers; 0 when `new_fps` is 0 (that division raises too). */
  function Cadence(factor: nat, fps: nat, newFps: nat): (c: nat)
    ensures newFps > 0 ==> c * newFps <= factor * fps < c * newFps + newFps
    ensures newFps == 0 ==> c == 0
  {
    if newFps == 0 then 0 else factor * fps / newFps
  }

  /** The modulus used for frame `j`: the slow one inside an interval, the fast one outside. */
  function Modulus(m: seq<Interval>, j: nat, slowMod: nat, fastMod: nat): (mod: nat)
    requires |m| > 0
    ensures mod == slowMod || mod == fastMod
    ensures (forall k :: 0 <= k < |m| ==> !Inside(j, m[k])) ==> mod == fastMod
  {
    if InInterval(m, j) then slowMod else fastMod
  }

  /** Frame `j` is picked with tag `mode` when the counter stands at `counter`. */
  predicate Picked(m: seq<Interval>, j: nat, counter: nat, slowMod: nat, fastMod: nat, mode: Mode)
    requires |m| > 0
  {
    if InInterval(m, j) then mode == Slow && slowMod > 0 && counter % slowMod == 0
    else mode == Fast && fastMod > 0 && counter % fastMod == 0
  }

  /**
   * The frames of one video picked among `0 .. n-1` when the global counter
   * stands at `c0` on frame 0; the first frame whose modulus is 0 raises
   * ZeroDivisionError.
   */
  function Select(m: seq<Interval>, n: nat, c0: nat, slowMod: nat, fastMod: nat): (r: Result<seq<Tag>>)
    requires |m| > 0
    ensures r.Ok? ==> |r.value| <= n && forall k :: 0 <= k < |r.value| ==> r.value[k].frame < n
  {
    if n == 0 then Ok([])
    else
      match Select(m, n - 1, c0, slowMod, fastMod)
      case Err(e) => Err(e)
      case Ok(tags) =>
        var j := n - 1;
        var mod := Modulus(m, j, slowMod, fastMod);
        if mod == 0 then Err(ZeroDivisionError)
        else if (c0 + j) % mod == 0 then Ok(tags + [Tag(if InInterval(m, j) then Slow else Fast, j)])
        else Ok(tags)
  }

  // ------------------------------------------------------------- the cursor

  /** The cursor moves forward by at most one per frame, and only on a frame it finds outside. */
  lemma CursorStep(m: seq<Interval>, j: nat)
    requires |m| > 0
    ensures Cursor(m, j) <= Cursor(m, j + 1) <= Cursor(m, j) + 1
    ensures Cursor(m, j + 1) == Cursor(m, j) + 1 ==> !InInterval(m, j)
  {
  }

  /** The cursor never moves back. */
  lemma {:induction false} CursorMonotone(m: seq<Interval>, i: nat, j: nat)
    requires |m| > 0 && i <= j
    ensures Cursor(m, i) <= Cursor(m, j) <= Cursor(m, i) + (j - i)
    decreases j - i
  {
    if i < j {
      CursorMonotone(m, i, j - 1);
      CursorStep(m, j - 1);
    }
  }

  /** With the sentinel `[[inf, inf]]` the cursor stays at 0 and no frame is inside. */
  lemma {:induction false} SentinelCursor(j: nat)
    ensures Cursor([Interval(Inf, Inf)], j) == 0
    ensures !InInterval([Interval(Inf, Inf)], j)
  {
    if j > 0 {
      SentinelCursor(j - 1);
    }
  }

  /** Frame `j` opens an interval that starts right after the previous one ends. */
  predicate AdjacentStart(spans: seq<Intervals.Span>, j: int)
  {
    exists k :: 0 < k < |spans| && spans[k].lo == j && spans[k - 1].hi == j - 1
  }

  /** The merged intervals handleFrames relies on: finite, well formed, separated, the first reaching frame 0. */
  predicate Walkable(spans: seq<Intervals.Span>)
  {
    |spans| > 0 && Intervals.WellFormed(spans) && Intervals.Separated(spans) && spans[0].hi >= 0
  }

  /**
   * Where the cursor stands on frame `j`: every earlier interval ended before
   * frame `j - 1`, and its own interval reaches frame `j - 1` unless it is the last.
   */
  lemma {:induction false} CursorPosition(spans: seq<Intervals.Span>, j: nat)
    requires Walkable(spans)
    ensures var c := Cursor(Intervals.Finite(spans), j);
      && (forall k :: 0 <= k < c ==> spans[k].hi < j - 1)
      && (c == |spans| - 1 || spans[c].hi >= j - 1)
  {
    var m := Intervals.Finite(spans);
    if j > 0 {
      CursorPosition(spans, j - 1);
      var c := Cursor(m, j - 1);
      assert m[c] == Interval(Fin(spans[c].lo), Fin(spans[c].hi));
      if !Inside(j - 1, m[c]) && Beyond(j - 1, m[c]) && c + 1 < |spans| {
        assert spans[c].hi == j - 2;
        assert spans[c].hi < spans[c + 1].lo;
      }
    }
  }

  /**
   * On merged intervals the cursor finds a frame inside iff the frame lies in
   * some interval, except a frame that opens an interval starting right after
   * the previous one: that frame is the one on which the cursor advances, and
   * it is always classified outside.
   */
  lemma CursorExact(spans: seq<Intervals.Span>, j: nat)
    requires Walkable(spans)
    ensures InInterval(Intervals.Finite(spans), j) <==> Intervals.InAny(j, spans) && !AdjacentStart(spans, j)
  {
    var m := Intervals.Finite(spans);
    var c := Cursor(m, j);
    CursorPosition(spans, j);
    assert m[c] == Interval(Fin(spans[c].lo), Fin(spans[c].hi));
    if Intervals.InSpan(j, spans[c]) {
      InsideNotAdjacent(spans, j, c);
    } else {
      OutsideOnlyAdjacent(spans, j, c);
    }
  }

  /** A frame inside the interval under the cursor does not open a later interval. */
  lemma InsideNotAdjacent(spans: seq<Intervals.Span>, j: int, c: nat)
    requires Walkable(spans) && c < |spans|
    requires forall k :: 0 <= k < c ==> spans[k].hi < j - 1
    requires Intervals.InSpan(j, spans[c])
    ensures !AdjacentStart(spans, j)
  {
    forall k | 0 < k < |spans| ensures !(spans[k].lo == j && spans[k - 1].hi == j - 1) {
      if c < k - 1 {
        Intervals.SeparatedOrdered(spans, c, k - 1);
      }
    }
  }

  /**
   * A frame outside the interval under the cursor, which reaches the previous
   * frame, can only lie in the next interval, and then opens it.
   */
  lemma OutsideOnlyAdjacent(spans: seq<Intervals.Span>, j: int, c: nat)
    requires Walkable(spans) && c < |spans|
    requires forall k :: 0 <= k < c ==> spans[k].hi < j - 1
    requires c == |spans| - 1 || spans[c].hi >= j - 1
    requires !Intervals.InSpan(j, spans[c])
    ensures Intervals.InAny(j, spans) ==> AdjacentStart(spans, j)
  {
    forall k | 0 <= k < |spans|
      ensures Intervals.InSpan(j, spans[k]) ==> k == c + 1 && spans[k].lo == j && spans[c].hi == j - 1
    {
      if k > c + 1 {
        Intervals.SeparatedOrdered(spans, c + 1, k);
      }
    }
    if Intervals.InAny(j, spans) {
      var k :| 0 <= k < |spans| && Intervals.InSpan(j, spans[k]);
      assert spans[k].lo == j && spans[k - 1].hi == j - 1;
    }
  }

  /** A span that starts where the first separated interval starts and lies in one of them lies in the first. */
  lemma FirstHolds(spans: seq<Intervals.Span>, x: Intervals.Span)
    requires |spans| > 0 && Intervals.WellFormed(spans) && Intervals.Separated(spans)
    requires Intervals.Within(x, spans) && x.lo == spans[0].lo
    ensures x.hi <= spans[0].hi
  {
    var k :| 0 <= k < |spans| && spans[k].lo <= x.lo && x.hi <= spans[k].hi;
    if k > 0 {
      Intervals.SeparatedOrdered(spans, 0, k);
      assert false;
    }
  }

  /** The intervals merged from non-negative timestamps are what the cursor walk needs. */
  lemma MergedWalkable(ts: seq<int>, fps: nat, before: nat, after: nat)
    requires |ts| > 1
    requires forall k :: 0 <= k < |ts| ==> ts[k] >= 0
    ensures Walkable(Intervals.MergedSpans(ts, fps, before, after))
  {
    var spans := Intervals.MergedSpans(ts, fps, before, after);
    Intervals.MergedSpansShape(ts, fps, before, after);
    // The first interval starts where some padded timestamp starts, so that padded span lies in it.
    Intervals.MergedStartsArePadded(ts, fps, before, after);
    var t :| 1 <= t < |ts| && spans[0].lo == Intervals.Pad(ts[t], fps, before, after).lo;
    Intervals.MergedSpansCover(ts, fps, before, after, 0);
    FirstHolds(spans, Intervals.Pad(ts[t], fps, before, after));
  }

  /**
   * On the intervals merged from non-negative timestamps the cursor's verdict
   * is: frame `j` lies within `before`/`after` of a later timestamp, and does
   * not open an interval adjacent to the previous one.
   */
  lemma MergedCursorExact(ts: seq<int>, fps: nat, before: nat, after: nat, j: nat)
    requires |ts| > 1
    requires forall k :: 0 <= k < |ts| ==> ts[k] >= 0
    ensures InInterval(Intervals.MergedIntervals(ts, fps, before, after), j) <==> Intervals.InAny(j, Intervals.PadEach(ts[1..], fps, before, after)) && !AdjacentStart(Intervals.MergedSpans(ts, fps, before, after), j)
  {
    MergedWalkable(ts, fps, before, after);
    Intervals.MergedSpansCover(ts, fps, before, after, j);
    CursorExact(Intervals.MergedSpans(ts, fps, before, after), j);
  }

  // ------------------------------------------------------------ selection

  /** The selection fails exactly when some frame needs a zero modulus, and then with ZeroDivisionError. */
  lemma {:induction false} SelectFails(m: seq<Interval>, n: nat, c0: nat, slowMod: nat, fastMod: nat)
    requires |m| > 0
    ensures Select(m, n, c0, slowMod, fastMod).Err?
      <==> exists j :: 0 <= j < n && Modulus(m, j, slowMod, fastMod) == 0
    ensures Select(m, n, c0, slowMod, fastMod).Err? ==> Select(m, n, c0, slowMod, fastMod).error == ZeroDivisionError
  {
    if n > 0 {
      SelectFails(m, n - 1, c0, slowMod, fastMod);
    }
  }

  /**
   * The tag rule: `['s', j]` is emitted iff frame `j` is inside and the
   * counter is a multiple of the slow modulus, `['f', j]` iff it is outside
   * and the counter is a multiple of the fast modulus.
   */
  lemma {:induction false} SelectTags(m: seq<Interval>, n: nat, c0: nat, slowMod: nat, fastMod: nat, t: Tag)
    requires |m| > 0
    requires Select(m, n, c0, slowMod, fastMod).Ok?
    ensures t in Select(m, n, c0, slowMod, fastMod).value
      <==> t.frame < n && Picked(m, t.frame, c0 + t.frame, slowMod, fastMod, t.mode)
  {
    if n > 0 {
      SelectTags(m, n - 1, c0, slowMod, fastMod, t);
    }
  }

  /** Picked frames are strictly increasing and lie in `[0, n)`. */
  lemma {:induction false} SelectIncreasing(m: seq<Interval>, n: nat, c0: nat, slowMod: nat, fastMod: nat)
    requires |m| > 0
    requires Select(m, n, c0, slowMod, fastMod).Ok?
    ensures var v := Select(m, n, c0, slowMod, fastMod).value;
      && (forall i :: 0 <= i < |v| ==> v[i].frame < n)
      && (forall i, k :: 0 <= i < k < |v| ==> v[i].frame < v[k].frame)
  {
    if n > 0 {
      SelectIncreasing(m, n - 1, c0, slowMod, fastMod);
    }
  }

  /** With the sentinel every picked frame is tagged fast. */
  lemma SentinelAllFast(n: nat, c0: nat, slowMod: nat, fastMod: nat, t: Tag)
    requires Select([Interval(Inf, Inf)], n, c0, slowMod, fastMod).Ok?
    ensures t in Select([Interval(Inf, Inf)], n, c0, slowMod, fastMod).value ==> t.mode == Fast
  {
    SelectTags([Interval(Inf, Inf)], n, c0, slowMod, fastMod, t);
    SentinelCursor(t.frame);
  }

  /** Multiplication by a positive integer does not shrink a positive number. */
  lemma {:induction false} MulAtLeast(d: int, k: int)
    requires d > 0 && k >= 1
    ensures d * k >= d
    decreases k
  {
    if k > 1 {
      MulAtLeast(d, k - 1);
      assert d * k == d * (k - 1) + d;
    }
  }
  /** Floor division is determined by the bracketing multiples. */
  lemma DivUnique(x: int, d: int, q: int)
    requires d > 0 && d * q <= x < d * q + d
    ensures x / d == q && x % d == x - d * q
  {
    var q', r' := x / d, x % d;
    assert x == d * q' + r';
    if q' > q {
      MulAtLeast(d, q' - q);
    } else if q' < q {
      MulAtLeast(d, q - q');
    }
  }
  /** The next multiple of `d`. */
  lemma NextMultiple(a: nat, d: nat)
    requires d > 0 && a % d == 0
    ensures (a + d) % d == 0
  {
    var q := a / d;
    assert a == d * q;
    assert d * (q + 1) == d * q + d;
    DivUnique(a + d, d, q + 1);
  }
  /** Two distinct multiples of `d` are at least `d` apart. */
  lemma MultiplesApart(a: nat, b: nat, d: nat)
    requires d > 0 && a < b && a % d == 0 && b % d == 0
    ensures b - a >= d
  {
    var qa, qb := a / d, b / d;
    assert a == d * qa;
    assert b == d * qb;
    if qb <= qa {
      if qb < qa {
        MulAtLeast(d, qa - qb);
      }
      assert false;
    }
    MulAtLeast(d, qb - qa);
    assert d * qb == d * qa + d * (qb - qa);
  }

  /**
   * The fast cadence: two consecutive fast picks with only outside frames
   * between them are exactly one fast modulus apart.
   */
  lemma FastSpacing(m: seq<Interval>, n: nat, c0: nat, slowMod: nat, fastMod: nat, i: nat)
    requires |m| > 0
    requires Select(m, n, c0, slowMod, fastMod).Ok?
    requires var v := Select(m, n, c0, slowMod, fastMod).value;
      && i + 1 < |v| && v[i].mode == Fast && v[i + 1].mode == Fast
      && forall j :: v[i].frame < j < v[i + 1].frame ==> !InInterval(m, j)
    ensures var v := Select(m, n, c0, slowMod, fastMod).value;
      v[i + 1].frame - v[i].frame == fastMod
  {
    var v := Select(m, n, c0, slowMod, fastMod).value;
    var a, b := v[i].frame, v[i + 1].frame;
    SelectIncreasing(m, n, c0, slowMod, fastMod);
    SelectTags(m, n, c0, slowMod, fastMod, v[i]);
    SelectTags(m, n, c0, slowMod, fastMod, v[i + 1]);
    MultiplesApart(c0 + a, c0 + b, fastMod);
    if b - a > fastMod {
      var j := a + fastMod;
      NextMultiple(c0 + a, fastMod);
      assert !InInterval(m, j);
      NothingBetween(v, i);
      SelectTags(m, n, c0, slowMod, fastMod, Tag(Fast, j));
    }
  }

  /** No tag of a strictly increasing list falls between two neighbours. */
  lemma NothingBetween(v: seq<Tag>, i: nat)
    requires i + 1 < |v|
    requires forall p, k :: 0 <= p < k < |v| ==> v[p].frame < v[k].frame
    ensures forall p :: 0 <= p < |v| ==> v[p].frame <= v[i].frame || v[i + 1].frame <= v[p].frame
  {
  }

  // ---------------------------------------------------------- handleFrames

  /** One more frame: the selection of `j + 1` frames extends that of `j` frames by at most frame `j`. */
  lemma SelectNext(m: seq<Interval>, j: nat, c0: nat, slowMod: nat, fastMod: nat, tags: seq<Tag>)
    requires |m| > 0 && Select(m, j, c0, slowMod, fastMod) == Ok(tags)
    ensures Select(m, j + 1, c0, slowMod, fastMod) ==
      (if Modulus(m, j, slowMod, fastMod) == 0 then Err(ZeroDivisionError)
       else if (c0 + j) % Modulus(m, j, slowMod, fastMod) == 0
       then Ok(tags + [Tag(if InInterval(m, j) then Slow else Fast, j)])
       else Ok(tags))
  {
  }

  /** Once a frame raises, the selection of any longer prefix raises the same. */
  lemma {:induction false} SelectStops(m: seq<Interval>, j: nat, n: nat, c0: nat, slowMod: nat, fastMod: nat)
    requires |m| > 0 && j <= n
    requires Select(m, j, c0, slowMod, fastMod).Err?
    ensures Select(m, n, c0, slowMod, fastMod) == Select(m, j, c0, slowMod, fastMod)
    decreases n - j
  {
    if j < n {
      SelectStops(m, j, n - 1, c0, slowMod, fastMod);
    }
  }

  /** The inner loop of handleFrames for one video, carrying the global counter. */
  method SelectFrames(m: seq<Interval>, fps: nat, total: nat, newFps: nat, slow: nat, fast: nat, counter: nat)
    returns (r: Result<seq<Tag>>, counter': nat)
    requires |m| > 0
    ensures r == Select(m, total, counter, Cadence(slow, fps, newFps), Cadence(fast, fps, newFps))
    ensures r.Ok? ==> counter' == counter + total
  {
    var slowMod, fastMod := Cadence(slow, fps, newFps), Cadence(fast, fps, newFps);
    var frames: seq<Tag> := [];
    counter' := counter;
    var cursor: nat := 0;
    var interval := m[cursor];
    for j := 0 to total
      invariant cursor == Cursor(m, j) && interval == m[cursor]
      invariant counter' == counter + j
      invariant Select(m, j, counter, slowMod, fastMod) == Ok(frames)
    {
      SelectNext(m, j, counter, slowMod, fastMod, frames);
      var inInterval := false;
      if interval.start.Fin? && j >= interval.start.n && (interval.end.Inf? || j <= interval.end.n) {
        inInterval := true;
      } else if interval.end.Fin? && j > interval.end.n {
        cursor := Min(cursor + 1, |m| - 1);
        interval := m[cursor];
      }
      assert inInterval == InInterval(m, j);
      assert cursor == Cursor(m, j + 1);
      if !inInterval {
        if fastMod == 0 {
          SelectStops(m, j + 1, total, counter, slowMod, fastMod);
          return Err(ZeroDivisionError), counter';
        }
        if counter' % fastMod == 0 {
          frames := frames + [Tag(Fast, j)];
        }
      } else {
        if slowMod == 0 {
          SelectStops(m, j + 1, total, counter, slowMod, fastMod);
          return Err(ZeroDivisionError), counter';
        }
        if counter' % slowMod == 0 {
          frames := frames + [Tag(Slow, j)];
        }
      }
      counter' := counter' + 1;
    }
    r := Ok(frames);
  }

  /** What handleFrames reads from one record. */
  datatype Inputs = Inputs(merged: seq<Interval>, fps: nat, total: nat)

  /**
   * The keys one video's record must hold, checked in the order the code
   * reads them: 'merged_intervals', 'fps', the first merged interval, 'total_frames'.
   */
  function FrameInputs(rec: Record): (r: Result<Inputs>)
    ensures r.Ok? ==> |r.value.merged| > 0
    ensures r.Ok? <==> rec.merged.Some? && rec.fps.Some? && rec.merged.value != [] && rec.totalFrames.Some?
    ensures r.Ok? ==> r.value == Inputs(rec.merged.value, rec.fps.value, rec.totalFrames.value)
    ensures rec.merged.None? ==> r == Err(KeyError("merged_intervals"))
    ensures rec.merged.Some? && rec.fps.None? ==> r == Err(KeyError("fps"))
    ensures rec.merged.Some? && rec.fps.Some? && rec.merged.value == [] ==> r == Err(IndexError)
    ensures rec.merged.Some? && rec.fps.Some? && rec.merged.value != [] && rec.totalFrames.None?
      ==> r == Err(KeyError("total_frames"))
  {
    if rec.merged.None? then Err(KeyError("merged_intervals"))
    else if rec.fps.None? then Err(KeyError("fps"))
    else if rec.merged.value == [] then Err(IndexError)
    else if rec.totalFrames.None? then Err(KeyError("total_frames"))
    else Ok(Inputs(rec.merged.value, rec.fps.value, rec.totalFrames.value))
  }

  /** The counter advance of a batch: the sum of its 'total_frames'. */
  function TotalFrames(videos: seq<Pair<Record>>): (total: nat)
    ensures forall k :: 0 <= k < |videos| ==> videos[k].val.totalFrames.GetOr(0) <= total
  {
    if videos == [] then 0
    else TotalFrames(videos[..|videos| - 1]) + videos[|videos| - 1].val.totalFrames.GetOr(0)
  }

  /** One video's selection when the global counter stands at `c0` on its frame 0. */
  function VideoFrames(rec: Record, c0: nat, newFps: nat, slow: nat, fast: nat): (r: Result<seq<Tag>>)
    ensures r.Ok? ==> rec.totalFrames.Some? && forall k :: 0 <= k < |r.value| ==> r.value[k].frame < rec.totalFrames.value
  {
    match FrameInputs(rec)
    case Err(e) => Err(e)
    case Ok(inp) => Select(inp.merged, inp.total, c0, Cadence(slow, inp.fps, newFps), Cadence(fast, inp.fps, newFps))
  }

  /** handleFrames over a batch, video after video in dict order; the first failure ends it. */
  function SelectAll(videos: seq<Pair<Record>>, newFps: nat, slow: nat, fast: nat): (r: Result<seq<Pair<seq<Tag>>>>)
    ensures r.Ok? ==> |r.value| == |videos| && forall k :: 0 <= k < |videos| ==> r.value[k].key == videos[k].key
  {
    if videos == [] then Ok([])
    else
      var prefix := videos[..|videos| - 1];
      match SelectAll(prefix, newFps, slow, fast)
      case Err(e) => Err(e)
      case Ok(done) =>
        var v := videos[|videos| - 1];
        match VideoFrames(v.val, TotalFrames(prefix), newFps, slow, fast)
        case Err(e) => Err(e)
        case Ok(tags) => Ok(done + [Pair(v.key, tags)])
  }

  lemma PrefixOfPrefix<T>(s: seq<T>, n: nat, k: nat)
    requires k <= n <= |s|
    ensures s[..n][..k] == s[..k]
  {
  }

  /** A failure in the first `i` videos is the failure of the whole batch. */
  lemma {:induction false} SelectAllStops(videos: seq<Pair<Record>>, i: nat, newFps: nat, slow: nat, fast: nat)
    requires i <= |videos|
    requires SelectAll(videos[..i], newFps, slow, fast).Err?
    ensures SelectAll(videos, newFps, slow, fast) == SelectAll(videos[..i], newFps, slow, fast)
    decreases |videos|
  {
    if i < |videos| {
      var n := |videos| - 1;
      PrefixOfPrefix(videos, n, i);
      SelectAllStops(videos[..n], i, newFps, slow, fast);
    } else {
      assert videos[..i] == videos;
    }
  }

  /** The batch succeeds iff every video does, with the counter at the sum of the earlier 'total_frames'. */
  lemma {:induction false} SelectAllOk(videos: seq<Pair<Record>>, newFps: nat, slow: nat, fast: nat)
    ensures SelectAll(videos, newFps, slow, fast).Ok?
      <==> forall k :: 0 <= k < |videos| ==> VideoFrames(videos[k].val, TotalFrames(videos[..k]), newFps, slow, fast).Ok?
  {
    if videos != [] {
      var n := |videos| - 1;
      var prefix := videos[..n];
      SelectAllOk(prefix, newFps, slow, fast);
      forall k | 0 <= k < n
        ensures VideoFrames(prefix[k].val, TotalFrames(prefix[..k]), newFps, slow, fast)
             == VideoFrames(videos[k].val, TotalFrames(videos[..k]), newFps, slow, fast)
      {
        PrefixOfPrefix(videos, n, k);
      }
      SelectAllSnoc(videos, newFps, slow, fast);
      var last := VideoFrames(videos[n].val, TotalFrames(videos[..n]), newFps, slow, fast).Ok?;
      var earlier := forall k :: 0 <= k < n ==> VideoFrames(videos[k].val, TotalFrames(videos[..k]), newFps, slow, fast).Ok?;
      assert SelectAll(videos, newFps, slow, fast).Ok? <==> earlier && last;
      if earlier && last {
        forall k | 0 <= k < |videos| ensures VideoFrames(videos[k].val, TotalFrames(videos[..k]), newFps, slow, fast).Ok? {
          if k == n {
            assert last;
          }
        }
      }
    }
  }

  /** The batch succeeds iff its prefix does and then its last video does. */
  lemma SelectAllSnoc(videos: seq<Pair<Record>>, newFps: nat, slow: nat, fast: nat)
    requires videos != []
    ensures SelectAll(videos, newFps, slow, fast).Ok? <==>
      SelectAll(videos[..|videos| - 1], newFps, slow, fast).Ok? &&
      VideoFrames(videos[|videos| - 1].val, TotalFrames(videos[..|videos| - 1]), newFps, slow, fast).Ok?
    ensures SelectAll(videos, newFps, slow, fast).Ok? ==>
      SelectAll(videos, newFps, slow, fast).value == SelectAll(videos[..|videos| - 1], newFps, slow, fast).value +
        [Pair(videos[|videos| - 1].key,
              VideoFrames(videos[|videos| - 1].val, TotalFrames(videos[..|videos| - 1]), newFps, slow, fast).value)]
  {
  }

  /**
   * The global counter is threaded through the batch: video `k` gets the
   * frames selected with the counter at the sum of the earlier videos'
   * 'total_frames', under its own key and in input order.
   */
  lemma {:induction false} SelectAllOffsets(videos: seq<Pair<Record>>, newFps: nat, slow: nat, fast: nat)
    requires SelectAll(videos, newFps, slow, fast).Ok?
    ensures var out := SelectAll(videos, newFps, slow, fast).value;
      && |out| == |videos|
      && forall k :: 0 <= k < |videos| ==>
           out[k].key == videos[k].key && VideoFrames(videos[k].val, TotalFrames(videos[..k]), newFps, slow, fast) == Ok(out[k].val)
  {
    if videos != [] {
      var n := |videos| - 1;
      var prefix := videos[..n];
      SelectAllOffsets(prefix, newFps, slow, fast);
      var done := SelectAll(prefix, newFps, slow, fast).value;
      var tags := VideoFrames(videos[n].val, TotalFrames(prefix), newFps, slow, fast);
      SelectAllSnoc(videos, newFps, slow, fast);
      var out := SelectAll(videos, newFps, slow, fast).value;
      assert out == done + [Pair(videos[n].key, tags.value)];
      forall k | 0 <= k < |videos|
        ensures out[k].key == videos[k].key && VideoFrames(videos[k].val, TotalFrames(videos[..k]), newFps, slow, fast) == Ok(out[k].val)
      {
        if k < n {
          PrefixOfPrefix(videos, n, k);
          assert out[k] == done[k] && prefix[k] == videos[k] && prefix[..k] == videos[..k];
        }
      }
    }
  }

  /**
   * handleFrames: the frames picked for every video, keyed as the input; the
   * counter starts at 0 and grows by each video's 'total_frames'.
   */
  method HandleFrames(videos: seq<Pair<Record>>, newFps: nat, slow: nat, fast: nat)
    returns (r: Result<seq<Pair<seq<Tag>>>>)
    requires DistinctKeys(videos)
    ensures r == SelectAll(videos, newFps, slow, fast)
    ensures r.Ok? ==> DistinctKeys(r.value)
  {
    var framesDict: seq<Pair<seq<Tag>>> := [];
    var general: nat := 0;
    for i := 0 to |videos|
      invariant SelectAll(videos[..i], newFps, slow, fast) == Ok(framesDict)
      invariant general == TotalFrames(videos[..i])
    {
      PrefixOfPrefix(videos, i + 1, i);
      var video, data := videos[i].key, videos[i].val;
      var frames: Result<seq<Tag>>;
      var before := general;
      var inputs := FrameInputs(data);
      if inputs.Err? {
        frames := Err(inputs.error);
      } else {
        var inp := inputs.value;
        frames, general := SelectFrames(inp.merged, inp.fps, inp.total, newFps, slow, fast, general);
      }
      assert frames == VideoFrames(data, before, newFps, slow, fast);
      if frames.Err? {
        SelectAllStops(videos, i + 1, newFps, slow, fast);
        return Err(frames.error);
      }
      // The keys of a dict are distinct, so `frames_dict[video] = frames` appends.
      framesDict := framesDict + [Pair(video, frames.value)];
    }
    assert videos[..|videos|] == videos;
    r := Ok(framesDict);
    assert forall k :: 0 <= k < |framesDict| ==> framesDict[k].key == videos[k].key;
  }

  /** The counter advance splits at any video: an empty video adds nothing. */
  lemma {:induction false} TotalFramesSplit(videos: seq<Pair<Record>>, k: nat)
    requires k <= |videos|
    ensures TotalFrames(videos) == TotalFrames(videos[..k]) + TotalFrames(videos[k..])
    decreases |videos|
  {
    if k < |videos| {
      var n := |videos| - 1;
      TotalFramesSplit(videos[..n], k);
      PrefixOfPrefix(videos, n, k);
      assert videos[k..][..|videos[k..]| - 1] == videos[..n][k..];
    } else {
      assert videos[..k] == videos;
      assert videos[k..] == [];
    }
  }
}
