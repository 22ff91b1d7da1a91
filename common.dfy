/**
 * Values shared by the pipeline stages: the exceptions the code can raise,
 * the extended integers that carry `math.inf`, the per-video record kept in
 * the timestamp cache, and Python's insertion-ordered dict.
 */
module Common {

  datatype Option<T> = None | Some(value: T) {
    function GetOr(default: T): T {
      if Some? then value else default
    }
  }

  /** The Python exceptions the modelled code can raise. */
  datatype Error =
    | KeyError(key: string)
    | IndexError
    | ZeroDivisionError
    | ValueError

  datatype Result<T> = Ok(value: T) | Err(error: Error)

  function Max(a: int, b: int): int { if a >= b then a else b }

  function Min(a: int, b: int): int { if a <= b then a else b }

  /** An interval bound: a frame index, or `math.inf` (the "no activity" sentinel). */
  datatype Bound = Fin(n: int) | Inf

  /** A merged interval `[start, end]` as stored under 'merged_intervals'. */
  datatype Interval = Interval(start: Bound, end: Bound)

  /**
   * One video's entry of the timestamp cache. Each field is one dict key the
   * code reads or writes; `None` means the key is absent.
   *   timestamps       'timestamps'
   *   fps              'fps'
   *   totalFrames      'total_frames' (written for blacklisted videos)
   *   frames           'frames'       (written by a motion scan)
   *   merged           'merged_intervals'
   */
  datatype Record = Record(
    timestamps: Option<seq<int>>,
    fps: Option<nat>,
    totalFrames: Option<nat>,
    frames: Option<nat>,
    merged: Option<seq<Interval>>)

  /** One `key: value` item of an insertion-ordered dict. */
  datatype Pair<V> = Pair(key: string, val: V)

  function Keys<V>(d: seq<Pair<V>>): set<string>
  {
    set i | 0 <= i < |d| :: d[i].key
  }

  /** A Python dict never holds a key twice. */
  predicate DistinctKeys<V>(d: seq<Pair<V>>)
  {
    forall i, j :: 0 <= i < j < |d| ==> d[i].key != d[j].key
  }

  /** `d[k]`: the value stored under `k`. */
  function Lookup<V>(d: seq<Pair<V>>, k: string): (v: V)
    requires k in Keys(d)
    ensures exists i :: 0 <= i < |d| && d[i] == Pair(k, v)
  {
    if d[0].key == k then d[0].val
    else
      assert k in Keys(d[1..]) by {
        var i :| 0 <= i < |d| && d[i].key == k;
        assert d[1..][i - 1].key == k;
      }
      Lookup(d[1..], k)
  }

  /** The position of key `k` in `d`. */
  function IndexOf<V>(d: seq<Pair<V>>, k: string): (i: nat)
    requires k in Keys(d)
    ensures i < |d| && d[i].key == k
    ensures forall j :: 0 <= j < i ==> d[j].key != k
  {
    if d[0].key == k then 0
    else
      assert k in Keys(d[1..]) by {
        var i :| 0 <= i < |d| && d[i].key == k;
        assert d[1..][i - 1].key == k;
      }
      1 + IndexOf(d[1..], k)
  }

  /**
   * `d.update({k: v})` / `d[k] = v`: an existing key keeps its position and
   * gets the new value; a new key goes at the end.
   */
  function Put<V>(d: seq<Pair<V>>, k: string, v: V): (r: seq<Pair<V>>)
    requires DistinctKeys(d)
    ensures DistinctKeys(r)
    ensures Keys(r) == Keys(d) + {k}
    ensures k in Keys(d) ==> |r| == |d| && forall i :: 0 <= i < |d| ==> r[i].key == d[i].key
    ensures k !in Keys(d) ==> r == d + [Pair(k, v)]
    ensures forall i :: 0 <= i < |d| && d[i].key != k ==> r[i] == d[i]
    ensures forall i :: 0 <= i < |r| && r[i].key == k ==> r[i].val == v
  {
    if k in Keys(d) then
      var r := d[IndexOf(d, k) := Pair(k, v)];
      assert Keys(r) == Keys(d) by {
        forall x | x in Keys(d) ensures x in Keys(r) {
          var i :| 0 <= i < |d| && d[i].key == x;
          assert r[i].key == x;
        }
      }
      r
    else
      var r := d + [Pair(k, v)];
      assert r[|d|].key == k;
      assert Keys(r) == Keys(d) + {k} by {
        forall x | x in Keys(d) ensures x in Keys(r) {
          var i :| 0 <= i < |d| && d[i].key == x;
          assert r[i].key == x;
        }
      }
      r
  }

  /** Putting into a dict keeps it a dict, and `Lookup` then finds the new value. */
  lemma PutLookup<V>(d: seq<Pair<V>>, k: string, v: V, k': string)
    requires DistinctKeys(d)
    ensures DistinctKeys(Put(d, k, v))
    ensures k' in Keys(Put(d, k, v))
            ==> Lookup(Put(d, k, v), k') == (if k' == k then v else Lookup(d, k'))
  {
    var r := Put(d, k, v);
    if k' in Keys(r) {
      var i :| 0 <= i < |r| && r[i] == Pair(k', Lookup(r, k'));
      if k' == k {
        assert r[i].val == v;
      } else {
        assert k' in Keys(d);
        var j :| 0 <= j < |d| && d[j] == Pair(k', Lookup(d, k'));
        assert r[j] == d[j];
        assert i == j;
      }
    }
  }
}
