/**
 * The interval merger of find_frames.py: every motion timestamp but the
 * first is padded by `before`/`after` seconds of frames, the padded spans
 * are sorted by start and folded left to right into separated intervals.
 */
module Intervals {
  import opened Common

  /** A finite interval `[lo, hi]` of frame indices. */
  datatype Span = Span(lo: int, hi: int)

  predicate InSpan(p: int, s: Span) { s.lo <= p <= s.hi }

  /** Some span of `s` contains point `p`. */
  predicate InAny(p: int, s: seq<Span>)
  {
    exists k :: 0 <= k < |s| && InSpan(p, s[k])
  }

  /** Span `x` lies inside some span of `s`. */
  predicate Within(x: Span, s: seq<Span>)
  {
    exists k :: 0 <= k < |s| && s[k].lo <= x.lo && x.hi <= s[k].hi
  }

  predicate WellFormed(s: seq<Span>)
  {
    forall k :: 0 <= k < |s| ==> s[k].lo <= s[k].hi
  }

  predicate SortedByStart(s: seq<Span>)
  {
    forall i, j :: 0 <= i < j < |s| ==> s[i].lo <= s[j].lo
  }

  /** Each span ends strictly before the next one starts. */
  predicate Separated(s: seq<Span>)
  {
    forall i :: 0 <= i < |s| - 1 ==> s[i].hi < s[i + 1].lo
  }

  // ---------------------------------------------------------------- padding

  /** `[int(t - before*fps), int(t + after*fps)]`; all operands are integers. */
  function Pad(t: int, fps: nat, before: nat, after: nat): (s: Span)
    ensures InSpan(t, s)
    ensures s.hi - s.lo == before * fps + after * fps
  {
    Span(t - before * fps, t + after * fps)
  }

  /** The padded spans of `ts`, appended in order. */
  function PadEach(ts: seq<int>, fps: nat, before: nat, after: nat): (r: seq<Span>)
    ensures |r| == |ts|
    ensures forall k :: 0 <= k < |r| ==> r[k].hi - r[k].lo == before * fps + after * fps
  {
    if ts == [] then []
    else PadEach(ts[..|ts| - 1], fps, before, after) + [Pad(ts[|ts| - 1], fps, before, after)]
  }

  /** Each timestamp contributes exactly its own padded span, in order. */
  lemma {:induction false} PadEachAt(ts: seq<int>, fps: nat, before: nat, after: nat)
    ensures |PadEach(ts, fps, before, after)| == |ts|
    ensures forall k :: 0 <= k < |ts| ==> PadEach(ts, fps, before, after)[k] == Pad(ts[k], fps, before, after)
  {
    if ts != [] {
      PadEachAt(ts[..|ts| - 1], fps, before, after);
    }
  }

  // ---------------------------------------------------------------- sorting

  /** Inserts `x` before the first span that does not start earlier (keeps ties in order). */
  function Insert(x: Span, s: seq<Span>): (r: seq<Span>)
    ensures |r| == |s| + 1
  {
    if s == [] || x.lo <= s[0].lo then [x] + s
    else [s[0]] + Insert(x, s[1..])
  }

  /** `list.sort(key=lambda x: x[0])`: a stable sort by start. */
  function SortByStart(s: seq<Span>): (r: seq<Span>)
    ensures |r| == |s|
  {
    if s == [] then [] else Insert(s[0], SortByStart(s[1..]))
  }

  lemma {:induction false} InsertPermutes(x: Span, s: seq<Span>)
    ensures multiset(Insert(x, s)) == multiset(s) + multiset{x}
    ensures |Insert(x, s)| == |s| + 1
  {
    if s != [] && s[0].lo < x.lo {
      InsertPermutes(x, s[1..]);
      assert s == [s[0]] + s[1..];
    }
  }

  lemma {:induction false} InsertSorted(x: Span, s: seq<Span>)
    requires SortedByStart(s)
    ensures SortedByStart(Insert(x, s))
  {
    if s != [] && s[0].lo < x.lo {
      var rest := Insert(x, s[1..]);
      InsertSorted(x, s[1..]);
      InsertPermutes(x, s[1..]);
      var r := [s[0]] + rest;
      assert s[0].lo <= rest[0].lo by {
        if |s| > 1 && s[1].lo < x.lo { assert rest[0] == s[1]; } else { assert rest[0] == x; }
      }
      forall i, j | 0 <= i < j < |r| ensures r[i].lo <= r[j].lo {
        if i == 0 {
          assert rest[0].lo <= rest[j - 1].lo;
        } else {
          assert r[i] == rest[i - 1] && r[j] == rest[j - 1];
        }
      }
    }
  }

  /** The sort returns a sorted permutation of its input. */
  lemma {:induction false} SortByStartCorrect(s: seq<Span>)
    ensures SortedByStart(SortByStart(s))
    ensures multiset(SortByStart(s)) == multiset(s)
    ensures |SortByStart(s)| == |s|
  {
    if s != [] {
      SortByStartCorrect(s[1..]);
      InsertSorted(s[0], SortByStart(s[1..]));
      InsertPermutes(s[0], SortByStart(s[1..]));
      assert s == [s[0]] + s[1..];
    }
  }

  /** All spans have the same width, so a start determines its span. */
  predicate UniformWidth(s: seq<Span>, w: int)
  {
    forall k :: 0 <= k < |s| ==> s[k].hi - s[k].lo == w
  }

  lemma SameFirst(s: seq<Span>, t: seq<Span>, w: int)
    requires SortedByStart(s) && SortedByStart(t)
    requires multiset(s) == multiset(t)
    requires UniformWidth(s, w)
    requires s != [] && t != []
    ensures s[0] == t[0]
  {
    assert s[0] in multiset(t);
    var a :| 0 <= a < |t| && t[a] == s[0];
    assert t[0] in multiset(s);
    var b :| 0 <= b < |s| && s[b] == t[0];
    assert t[0].lo <= t[a].lo && s[0].lo <= s[b].lo;
  }

  lemma DropFirst(s: seq<Span>)
    requires s != []
    ensures multiset(s[1..]) == multiset(s) - multiset{s[0]}
  {
    assert s == [s[0]] + s[1..];
  }

  /**
   * When all spans have one width, a sorted permutation is unique: any sort
   * by start, stable or not, yields the same list.
   */
  lemma {:induction false} SortedUnique(s: seq<Span>, t: seq<Span>, w: int)
    requires SortedByStart(s) && SortedByStart(t)
    requires multiset(s) == multiset(t)
    requires UniformWidth(s, w)
    ensures s == t
  {
    assert |s| == |multiset(s)| == |multiset(t)| == |t|;
    if s != [] {
      SameFirst(s, t, w);
      DropFirst(s);
      DropFirst(t);
      SortedUnique(s[1..], t[1..], w);
      assert s == [s[0]] + s[1..] && t == [t[0]] + t[1..];
    }
  }

  // ---------------------------------------------------------------- merging

  function Last(s: seq<Span>): Span
    requires |s| > 0
  {
    s[|s| - 1]
  }

  /**
   * One step of the fold: a span that starts no later than the running end
   * extends the last merged span, any other span is appended.
   */
  function Absorb(acc: seq<Span>, x: Span): seq<Span>
  {
    if acc == [] then [x]
    else if x.lo <= Last(acc).hi then acc[..|acc| - 1] + [Span(Last(acc).lo, Max(x.hi, Last(acc).hi))]
    else acc + [x]
  }

  /** The left fold of `Absorb` over `s`, starting from `[s[0]]`. */
  function Merge(s: seq<Span>): (m: seq<Span>)
    ensures |m| <= |s|
    ensures s != [] ==> |m| > 0
  {
    if s == [] then [] else Absorb(Merge(s[..|s| - 1]), Last(s))
  }

  /** Merged spans are separated: `end_i < start_{i+1}`, for any input. */
  lemma {:induction false} MergeSeparated(s: seq<Span>)
    ensures Separated(Merge(s))
  {
    if s != [] {
      MergeSeparated(s[..|s| - 1]);
    }
  }

  /** Every merged start is the start of an input span. */
  lemma {:induction false} MergeStarts(s: seq<Span>)
    ensures forall j :: 0 <= j < |Merge(s)| ==> exists k :: 0 <= k < |s| && s[k].lo == Merge(s)[j].lo
  {
    if s != [] {
      var p := s[..|s| - 1];
      MergeStarts(p);
      var m, m' := Merge(s), Merge(p);
      var x := Last(s);
      assert x == s[|s| - 1];
      forall j | 0 <= j < |m| ensures exists k :: 0 <= k < |s| && s[k].lo == m[j].lo {
        if m' == [] {
          assert m[j] == x;
          assert s[|s| - 1].lo == m[j].lo;
        } else if j < |m'| {
          assert m[j].lo == m'[j].lo;
          var k :| 0 <= k < |p| && p[k].lo == m'[j].lo;
          assert s[k] == p[k];
        } else {
          assert m[j] == x;
          assert s[|s| - 1].lo == m[j].lo;
        }
      }
      assert forall j :: 0 <= j < |m| ==> exists k :: 0 <= k < |s| && s[k].lo == m[j].lo;
    } else {
      assert |Merge(s)| == 0;
    }
  }

  /** Merging keeps spans well formed. */
  lemma {:induction false} MergeWellFormed(s: seq<Span>)
    requires WellFormed(s)
    ensures WellFormed(Merge(s))
  {
    if s != [] {
      MergeWellFormed(s[..|s| - 1]);
    }
  }

  /** Merging a sorted list gives a list sorted by start. */
  lemma MergeSorted(s: seq<Span>)
    requires SortedByStart(s)
    ensures SortedByStart(Merge(s))
  {
    var m := Merge(s);
    MergeSeparated(s);
    MergeStarts(s);
    if s != [] {
      var p := s[..|s| - 1];
      MergeSorted(p);
      MergeStarts(p);
      var m' := Merge(p);
      if m' != [] {
        var k :| 0 <= k < |p| && p[k].lo == Last(m').lo;
        assert s[k] == p[k];
      }
    }
  }

  /** The last merged span starts no later than the last input span (sorted input). */
  lemma LastMergedStart(s: seq<Span>)
    requires SortedByStart(s) && s != []
    ensures Last(Merge(s)).lo <= Last(s).lo
  {
    MergeStarts(s);
    var m := Merge(s);
    var k :| 0 <= k < |s| && s[k].lo == m[|m| - 1].lo;
  }

  /** Every input span lies inside some merged span (the input is sorted, as after the sort). */
  lemma {:induction false} MergeCovers(s: seq<Span>)
    requires SortedByStart(s)
    ensures forall k :: 0 <= k < |s| ==> Within(s[k], Merge(s))
  {
    if s != [] {
      var p := s[..|s| - 1];
      MergeCovers(p);
      var m, m' := Merge(s), Merge(p);
      var x := Last(s);
      assert x == s[|s| - 1];
      if m' == [] {
        assert m == [x];
        assert p == [];
        assert Within(s[0], m);
      } else if x.lo <= Last(m').hi {
        LastMergedStart(p);
        assert Last(p).lo <= x.lo;
        var n := |m'| - 1;
        assert m[n] == Span(m'[n].lo, Max(x.hi, m'[n].hi));
        assert m[n].lo <= x.lo && x.hi <= m[n].hi;
        forall k | 0 <= k < |s| ensures Within(s[k], m) {
          if k < |p| {
            assert s[k] == p[k];
            var j :| 0 <= j < |m'| && m'[j].lo <= p[k].lo && p[k].hi <= m'[j].hi;
            if j < n { assert m[j] == m'[j]; }
            assert m[j].lo <= s[k].lo && s[k].hi <= m[j].hi;
          } else {
            assert m[n].lo <= s[k].lo && s[k].hi <= m[n].hi;
          }
        }
      } else {
        assert m == m' + [x];
        forall k | 0 <= k < |s| ensures Within(s[k], m) {
          if k < |p| {
            assert s[k] == p[k];
            var j :| 0 <= j < |m'| && m'[j].lo <= p[k].lo && p[k].hi <= m'[j].hi;
            assert m[j] == m'[j];
          } else {
            assert m[|m'|] == s[k];
          }
        }
      }
    }
  }

  /** Every point of a merged span lies in some input span. */
  lemma {:induction false} MergeSound(s: seq<Span>, q: int)
    ensures InAny(q, Merge(s)) ==> InAny(q, s)
  {
    if s != [] && InAny(q, Merge(s)) {
      var p := s[..|s| - 1];
      var m, m' := Merge(s), Merge(p);
      var x := Last(s);
      var j :| 0 <= j < |m| && InSpan(q, m[j]);
      if InSpan(q, x) {
        assert InSpan(q, s[|s| - 1]);
      } else {
        assert j < |m'| && InSpan(q, m'[j]);
        MergeSound(p, q);
        var k :| 0 <= k < |p| && InSpan(q, p[k]);
        assert s[k] == p[k];
      }
    }
  }

  /** The merged spans cover exactly the points the input spans cover. */
  lemma MergeSameUnion(s: seq<Span>, q: int)
    requires SortedByStart(s)
    ensures InAny(q, Merge(s)) <==> InAny(q, s)
  {
    MergeSound(s, q);
    if InAny(q, s) {
      MergeCovers(s);
      var k :| 0 <= k < |s| && InSpan(q, s[k]);
      assert Within(s[k], Merge(s));
      var j :| 0 <= j < |Merge(s)| && Merge(s)[j].lo <= s[k].lo && s[k].hi <= Merge(s)[j].hi;
      assert InSpan(q, Merge(s)[j]);
    }
  }

  /** On an already separated list the fold changes nothing; so merging twice is merging once. */
  lemma {:induction false} MergeIdempotent(s: seq<Span>)
    requires Separated(s)
    ensures Merge(s) == s
    ensures Merge(Merge(s)) == Merge(s)
  {
    if s != [] {
      var p := s[..|s| - 1];
      MergeIdempotent(p);
      if |p| > 0 {
        assert Last(p) == s[|s| - 2];
      }
    }
  }

  /** In a well-formed separated list every span ends before any later one starts. */
  lemma {:induction false} SeparatedOrdered(s: seq<Span>, i: int, j: int)
    requires WellFormed(s) && Separated(s)
    requires 0 <= i < j < |s|
    ensures s[i].hi < s[j].lo
    decreases j - i
  {
    if j > i + 1 {
      SeparatedOrdered(s, i, j - 1);
    }
  }

  // ------------------------------------------------------- updateIntervals

  /** The spans of `s` with finite bounds. */
  function Finite(s: seq<Span>): (r: seq<Interval>)
    ensures |r| == |s|
    ensures forall k :: 0 <= k < |s| ==> r[k] == Interval(Fin(s[k].lo), Fin(s[k].hi))
  {
    seq(|s|, k requires 0 <= k < |s| => Interval(Fin(s[k].lo), Fin(s[k].hi)))
  }

  /** The merged spans of `ts[1..]`, before they are stored as intervals. */
  function MergedSpans(ts: seq<int>, fps: nat, before: nat, after: nat): (r: seq<Span>)
    requires |ts| > 1
    ensures 0 < |r| <= |ts| - 1
  {
    Merge(SortByStart(PadEach(ts[1..], fps, before, after)))
  }

  /** What updateIntervals stores under 'merged_intervals'. */
  function MergedIntervals(ts: seq<int>, fps: nat, before: nat, after: nat): (r: seq<Interval>)
    ensures 0 < |r|
    ensures |ts| > 1 ==> |r| <= |ts| - 1 && forall k :: 0 <= k < |r| ==> r[k].start.Fin? && r[k].end.Fin?
  {
    if |ts| > 1 then Finite(MergedSpans(ts, fps, before, after)) else [Interval(Inf, Inf)]
  }

  /**
   * With two or more timestamps the merged intervals are finite, non-empty,
   * well formed, separated and strictly increasing by start.
   */
  lemma MergedSpansShape(ts: seq<int>, fps: nat, before: nat, after: nat)
    requires |ts| > 1
    ensures var m := MergedSpans(ts, fps, before, after);
      && MergedIntervals(ts, fps, before, after) == Finite(m)
      && 0 < |m| < |ts|
      && WellFormed(m) && Separated(m) && SortedByStart(m)
      && forall i, j :: 0 <= i < j < |m| ==> m[i].hi < m[j].lo
  {
    var padded := PadEach(ts[1..], fps, before, after);
    PadEachAt(ts[1..], fps, before, after);
    var sorted := SortByStart(padded);
    SortByStartCorrect(padded);
    assert WellFormed(sorted) by {
      forall k | 0 <= k < |sorted| ensures sorted[k].lo <= sorted[k].hi {
        assert sorted[k] in multiset(padded);
      }
    }
    MergeWellFormed(sorted);
    MergeSeparated(sorted);
    MergeSorted(sorted);
    var m := Merge(sorted);
    forall i, j | 0 <= i < j < |m| ensures m[i].hi < m[j].lo {
      SeparatedOrdered(m, i, j);
    }
  }

  /**
   * Every later timestamp's padded span lies inside a merged interval, and a
   * frame is inside a merged interval iff it is inside a padded span.
   */
  lemma MergedSpansCover(ts: seq<int>, fps: nat, before: nat, after: nat, q: int)
    requires |ts| > 1
    ensures forall k :: 1 <= k < |ts| ==> Within(Pad(ts[k], fps, before, after), MergedSpans(ts, fps, before, after))
    ensures InAny(q, MergedSpans(ts, fps, before, after)) <==> InAny(q, PadEach(ts[1..], fps, before, after))
  {
    var padded := PadEach(ts[1..], fps, before, after);
    PadEachAt(ts[1..], fps, before, after);
    var sorted := SortByStart(padded);
    SortByStartCorrect(padded);
    MergeCovers(sorted);
    forall k | 1 <= k < |ts| ensures Within(Pad(ts[k], fps, before, after), Merge(sorted)) {
      assert padded[k - 1] == Pad(ts[k], fps, before, after);
      assert padded[k - 1] in multiset(sorted);
      var i :| 0 <= i < |sorted| && sorted[i] == padded[k - 1];
      assert Within(sorted[i], Merge(sorted));
    }
    MergeSameUnion(sorted, q);
    if InAny(q, sorted) {
      var i :| 0 <= i < |sorted| && InSpan(q, sorted[i]);
      assert sorted[i] in multiset(padded);
    }
    if InAny(q, padded) {
      var i :| 0 <= i < |padded| && InSpan(q, padded[i]);
      assert padded[i] in multiset(sorted);
    }
  }

  /** Padded spans share the width `(before + after) * fps`, and so does any permutation of them. */
  lemma PaddedUniform(ts: seq<int>, fps: nat, before: nat, after: nat, t: seq<Span>)
    requires multiset(t) == multiset(PadEach(ts, fps, before, after))
    ensures UniformWidth(t, before * fps + after * fps)
  {
    var padded := PadEach(ts, fps, before, after);
    PadEachAt(ts, fps, before, after);
    forall k | 0 <= k < |t| ensures t[k].hi - t[k].lo == before * fps + after * fps {
      assert t[k] in multiset(padded);
      var i :| 0 <= i < |padded| && padded[i] == t[k];
      assert padded[i] == Pad(ts[i], fps, before, after);
    }
  }

  /**
   * The sort may break ties any way it likes: the padded spans share one
   * width, so any sorted permutation of them is the one `SortByStart` gives.
   */
  lemma AnySortGivesMergedSpans(ts: seq<int>, fps: nat, before: nat, after: nat, sorted: seq<Span>)
    requires |ts| > 1
    requires SortedByStart(sorted)
    requires multiset(sorted) == multiset(PadEach(ts[1..], fps, before, after))
    ensures Merge(sorted) == MergedSpans(ts, fps, before, after)
  {
    var padded := PadEach(ts[1..], fps, before, after);
    SortByStartCorrect(padded);
    PaddedUniform(ts[1..], fps, before, after, sorted);
    SortedUnique(sorted, SortByStart(padded), before * fps + after * fps);
  }

  /** Every merged start is the start of the padded span of some later timestamp. */
  lemma MergedStartsArePadded(ts: seq<int>, fps: nat, before: nat, after: nat)
    requires |ts| > 1
    ensures forall j :: 0 <= j < |MergedSpans(ts, fps, before, after)| ==>
      exists k :: 1 <= k < |ts| && MergedSpans(ts, fps, before, after)[j].lo == Pad(ts[k], fps, before, after).lo
  {
    var padded := PadEach(ts[1..], fps, before, after);
    PadEachAt(ts[1..], fps, before, after);
    var sorted := SortByStart(padded);
    SortByStartCorrect(padded);
    MergeStarts(sorted);
    var m := Merge(sorted);
    forall j | 0 <= j < |m| ensures exists k :: 1 <= k < |ts| && m[j].lo == Pad(ts[k], fps, before, after).lo {
      var i :| 0 <= i < |sorted| && sorted[i].lo == m[j].lo;
      assert sorted[i] in multiset(padded);
      var k :| 0 <= k < |padded| && padded[k] == sorted[i];
      assert Pad(ts[k + 1], fps, before, after) == padded[k];
    }
  }

  /** Fewer than two timestamps give the sentinel `[[inf, inf]]`. */
  lemma SentinelWhenFewTimestamps(ts: seq<int>, fps: nat, before: nat, after: nat)
    requires |ts| < 2
    ensures MergedIntervals(ts, fps, before, after) == [Interval(Inf, Inf)]
  {
  }

  /** The padding loop of updateIntervals: one padded span per timestamp after the first. */
  method PadTimestamps(timestamps: seq<int>, fps: nat, before: nat, after: nat) returns (intervals: seq<Span>)
    requires |timestamps| > 0
    ensures intervals == PadEach(timestamps[1..], fps, before, after)
  {
    intervals := [];
    var i := 1;
    while i < |timestamps|
      invariant 1 <= i <= |timestamps|
      invariant intervals == PadEach(timestamps[1..i], fps, before, after)
    {
      assert timestamps[1..i + 1][..i - 1] == timestamps[1..i];
      intervals := intervals + [Pad(timestamps[i], fps, before, after)];
      i := i + 1;
    }
    assert timestamps[1..i] == timestamps[1..];
  }

  /**
   * The merge loop of updateIntervals: starts from `[intervals[0]]`, then
   * overwrites the last merged span or appends.
   */
  method MergeFold(intervals: seq<Span>) returns (merged: seq<Span>)
    requires |intervals| > 0
    ensures merged == Merge(intervals)
  {
    merged := [intervals[0]];
    var k := 1;
    assert intervals[..1] == [intervals[0]];
    while k < |intervals|
      invariant 1 <= k <= |intervals|
      invariant merged == Merge(intervals[..k])
      invariant |merged| > 0
    {
      assert intervals[..k + 1][..k] == intervals[..k];
      var interval := intervals[k];
      var last := merged[|merged| - 1];
      if interval.lo <= last.hi {
        merged := merged[..|merged| - 1] + [Span(last.lo, Max(interval.hi, last.hi))];
      } else {
        merged := merged + [interval];
      }
      k := k + 1;
    }
    assert intervals[..k] == intervals;
  }

  /**
   * updateIntervals: pads every timestamp but the first, sorts, folds, and
   * stores the result under 'merged_intervals'; every other key is kept.
   * A missing 'timestamps' key, or a missing 'fps' key when there is
   * something to pad, raises KeyError.
   */
  method UpdateIntervals(video: string, data: Record, before: nat, after: nat) returns (r: Result<Pair<Record>>)
    ensures data.timestamps.None? ==> r == Err(KeyError("timestamps"))
    ensures data.timestamps.Some? && |data.timestamps.value| > 1 && data.fps.None? ==> r == Err(KeyError("fps"))
    ensures r.Ok? <==> data.timestamps.Some? && (|data.timestamps.value| <= 1 || data.fps.Some?)
    ensures r.Ok? ==> r.value == Pair(video, data.(merged :=
      Some(MergedIntervals(data.timestamps.value, data.fps.GetOr(0), before, after))))
  {
    if data.timestamps.None? {
      return Err(KeyError("timestamps"));
    }
    var timestamps := data.timestamps.value;
    var merged: seq<Interval>;
    if |timestamps| > 1 {
      if data.fps.None? {
        return Err(KeyError("fps"));
      }
      var fps := data.fps.value;
      var intervals := PadTimestamps(timestamps, fps, before, after);
      PadEachAt(timestamps[1..], fps, before, after);
      SortByStartCorrect(intervals);
      intervals := SortByStart(intervals);
      var spans := MergeFold(intervals);
      merged := Finite(spans);
    } else {
      merged := [Interval(Inf, Inf)];
    }
    r := Ok(Pair(video, data.(merged := Some(merged))));
  }

  /**
   * handleIntervals: runs updateIntervals on every entry (the pool's map, here
   * in order) and writes each result back under the same key.
   */
  method HandleIntervals(d: seq<Pair<Record>>, before: nat, after: nat) returns (r: Result<seq<Pair<Record>>>)
    requires DistinctKeys(d)
    ensures r.Ok? <==> forall k :: 0 <= k < |d| ==>
      d[k].val.timestamps.Some? && (|d[k].val.timestamps.value| <= 1 || d[k].val.fps.Some?)
    ensures r.Err? ==> r.error == KeyError("timestamps") || r.error == KeyError("fps")
    ensures r.Ok? ==> |r.value| == |d| && forall k :: 0 <= k < |d| ==>
      r.value[k] == Pair(d[k].key, d[k].val.(merged :=
        Some(MergedIntervals(d[k].val.timestamps.value, d[k].val.fps.GetOr(0), before, after))))
  {
    var out := d;
    var i := 0;
    while i < |d|
      invariant 0 <= i <= |d| && |out| == |d| && DistinctKeys(out)
      invariant forall k :: 0 <= k < |d| ==> out[k].key == d[k].key
      invariant forall k :: i <= k < |d| ==> out[k] == d[k]
      invariant forall k :: 0 <= k < i ==>
        d[k].val.timestamps.Some? && (|d[k].val.timestamps.value| <= 1 || d[k].val.fps.Some?)
      invariant forall k :: 0 <= k < i ==>
        out[k] == Pair(d[k].key, d[k].val.(merged :=
          Some(MergedIntervals(d[k].val.timestamps.value, d[k].val.fps.GetOr(0), before, after))))
    {
      var result := UpdateIntervals(d[i].key, d[i].val, before, after);
      if result.Err? {
        return Err(result.error);
      }
      assert d[i].key in Keys(out) by { assert out[i].key == d[i].key; }
      out := Put(out, result.value.key, result.value.val);
      assert out[i] == result.value by {
        forall k | 0 <= k < |out| && k != i ensures out[k].key != d[i].key {
          assert d[k].key != d[i].key;
        }
      }
      i := i + 1;
    }
    r := Ok(out);
  }
}
