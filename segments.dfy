/**
 * Segment derivation: a job of `seedcount` seeds is cut into segments that
 * start at 0, seedchunk, 2*seedchunk, ... below seedcount, as Python's
 * `range(0, seedcount, seedchunk)` enumerates them; and the helpers that
 * read and rewrite the job segments table.
 */
module Segments {
  import opened Rows

  /** The ceiling of the rational a / b (Dafny's own `/` is Euclidean). */
  function CeilDiv(a: int, b: int): int
    requires b != 0
  {
    if b > 0 then -((-a) / b) else -(a / (-b))
  }

  /**
   * CeilDiv(a, b) is the ceiling of a / b: the least integer q with q * b >= a
   * for a positive b, and with q * b <= a for a negative one.
   */
  lemma CeilDivIsCeiling(a: int, b: int)
    requires b != 0
    ensures b > 0 ==> CeilDiv(a, b) * b >= a && (CeilDiv(a, b) - 1) * b < a
    ensures b < 0 ==> CeilDiv(a, b) * b <= a && (CeilDiv(a, b) - 1) * b > a
  {
    var q := CeilDiv(a, b);
    if b > 0 {
      DivMod(-a, b);
      assert -a == b * (-q) + (-a) % b;
      assert q * b == a + (-a) % b;
      assert (q - 1) * b == q * b - b;
    } else {
      DivMod(a, -b);
      assert a == (-b) * (-q) + a % (-b);
      assert q * b == a - a % (-b);
      assert (q - 1) * b == q * b - b;
    }
  }

  function Max0(x: int): nat
  {
    if x < 0 then 0 else x
  }

  /** One step of the range moves its remaining span by one step. */
  lemma CeilDivStep(a: int, b: int)
    requires b != 0
    ensures CeilDiv(a, b) == 1 + CeilDiv(a - b, b)
  {
    if b > 0 {
      DivShift(-a, b);
      assert -(a - b) == -a + b;
    } else {
      DivShift(a, -b);
      assert a - b == a + (-b);
    }
  }

  lemma DivMod(x: int, d: int)
    requires d > 0
    ensures x == d * (x / d) + x % d && 0 <= x % d < d
  {
  }

  lemma {:induction false} MulAtLeast(a: int, b: int)
    requires a >= 1 && b > 0
    ensures a * b >= b
    decreases a
  {
    if a > 1 {
      MulAtLeast(a - 1, b);
      assert a * b == (a - 1) * b + b;
    }
  }

  /** Euclidean division by a positive divisor has a unique quotient. */
  lemma DivUnique(x: int, d: int, q: int, r: int)
    requires d > 0 && 0 <= r < d && x == d * q + r
    ensures x / d == q && x % d == r
  {
    var q0 := x / d;
    DivMod(x, d);
    if q0 > q { MulAtLeast(q0 - q, d); }
    if q0 < q { MulAtLeast(q - q0, d); }
  }

  lemma DivShift(x: int, d: int)
    requires d > 0
    ensures (x + d) / d == x / d + 1
  {
    DivMod(x, d);
    DivUnique(x + d, d, x / d + 1, x % d);
  }

  /** The ceiling is positive exactly when the span still points in the direction of the step. */
  lemma CeilDivSign(a: int, b: int)
    requires b != 0
    ensures (b > 0 && a > 0) || (b < 0 && a < 0) ==> CeilDiv(a, b) >= 1
    ensures (b > 0 && a <= 0) || (b < 0 && a >= 0) ==> CeilDiv(a, b) <= 0
  {
    if b > 0 {
      DivSign(-a, b);
    } else {
      DivSign(a, -b);
    }
  }

  lemma DivSign(x: int, d: int)
    requires d > 0
    ensures x < 0 ==> x / d <= -1
    ensures x >= 0 ==> x / d >= 0
  {
    var q := x / d;
    DivMod(x, d);
    if q >= 1 { MulAtLeast(q, d); }
    if q <= -1 { MulAtLeast(-q, d); }
  }

  /** Python's `range(start, stop, step)` for a non-zero step. */
  function RangeFrom(start: int, stop: int, step: int): (r: seq<int>)
    requires step != 0
    ensures |r| == Max0(CeilDiv(stop - start, step))
    ensures forall k :: 0 <= k < |r| ==> r[k] == start + k * step
    ensures step > 0 ==> forall x :: x in r ==> start <= x < stop
    ensures step < 0 ==> forall x :: x in r ==> stop < x <= start
    ensures step > 0 ==> forall a, b :: 0 <= a < b < |r| ==> r[a] < r[b]
    decreases if step > 0 then stop - start else start - stop
  {
    CeilDivSign(stop - start, step);
    if (step > 0 && start < stop) || (step < 0 && start > stop) then
      var rest := RangeFrom(start + step, stop, step);
      CeilDivStep(stop - start, step);
      MulStep(start, step, |rest|);
      [start] + rest
    else
      []
  }

  lemma MulStep(start: int, step: int, n: nat)
    ensures forall k :: 1 <= k <= n ==> start + step + (k - 1) * step == start + k * step
  {
    forall k | 1 <= k <= n
      ensures start + step + (k - 1) * step == start + k * step
    {
      assert (k - 1) * step + step == k * step;
    }
  }

  /** The segment start indices of a job: `range(0, seedcount, seedchunk)` (polycube_server.py:55). */
  function Range(stop: int, step: int): (r: seq<int>)
    requires step != 0
    ensures |r| == Max0(CeilDiv(stop, step))
    ensures forall k :: 0 <= k < |r| ==> r[k] == k * step
  {
    RangeFrom(0, stop, step)
  }

  lemma {:induction false} RangeFromHas(start: int, stop: int, step: int, q: nat)
    requires step > 0 && start + q * step < stop
    ensures start + q * step in RangeFrom(start, stop, step)
    decreases q
  {
    if q > 0 {
      assert q * step == (q - 1) * step + step;
      RangeFromHas(start + step, stop, step, q - 1);
    }
  }

  /**
   * The segments of a job with a positive chunk are exactly the multiples
   * of seedchunk in [0, seedcount), strictly increasing from 0, and there
   * are ceil(seedcount / seedchunk) of them when seedcount is positive.
   */
  lemma DerivedSegments(seedcount: int, seedchunk: int)
    requires seedchunk > 0
    ensures |Range(seedcount, seedchunk)| == if seedcount <= 0 then 0 else CeilDiv(seedcount, seedchunk)
    ensures |Range(seedcount, seedchunk)| > 0 ==> Range(seedcount, seedchunk)[0] == 0
    ensures forall a, b :: 0 <= a < b < |Range(seedcount, seedchunk)| ==>
              Range(seedcount, seedchunk)[a] < Range(seedcount, seedchunk)[b]
    ensures forall x :: x in Range(seedcount, seedchunk) <==> 0 <= x < seedcount && x % seedchunk == 0
  {
    var r := Range(seedcount, seedchunk);
    CeilDivSign(seedcount, seedchunk);
    forall x | x in r
      ensures 0 <= x < seedcount && x % seedchunk == 0
    {
      var k :| 0 <= k < |r| && r[k] == x;
      assert x == k * seedchunk;
      MulMod(k, seedchunk);
    }
    forall x | 0 <= x < seedcount && x % seedchunk == 0
      ensures x in r
    {
      var q := x / seedchunk;
      assert x == seedchunk * q + x % seedchunk;
      assert q * seedchunk == x;
      RangeFromHas(0, seedcount, seedchunk, q);
    }
  }

  lemma MulMod(k: nat, d: int)
    requires d > 0
    ensures (k * d) % d == 0
  {
    DivUnique(k * d, d, k, 0);
  }

  /** The seed indices of the segments of job j, in table order. */
  function SegmentIndices(segments: seq<JobSegment>, j: string): (r: seq<int>)
    ensures forall x :: x in r <==> exists k :: 0 <= k < |segments| && segments[k].job == j && segments[k].seedindex == x
  {
    if segments == [] then []
    else
      var rest := SegmentIndices(segments[1..], j);
      assert forall k :: 1 <= k < |segments| ==> segments[k] == segments[1..][k - 1];
      if segments[0].job == j then [segments[0].seedindex] + rest else rest
  }

  lemma {:induction false} SegmentIndicesAppend(a: seq<JobSegment>, b: seq<JobSegment>, j: string)
    ensures SegmentIndices(a + b, j) == SegmentIndices(a, j) + SegmentIndices(b, j)
  {
    if a != [] {
      assert (a + b)[0] == a[0];
      assert (a + b)[1..] == a[1..] + b;
      SegmentIndicesAppend(a[1..], b, j);
    } else {
      assert a + b == b;
    }
  }

  /** A job without segment rows has no segment indices. */
  lemma {:induction false} SegmentIndicesNone(segments: seq<JobSegment>, j: string)
    requires forall k :: 0 <= k < |segments| ==> segments[k].job != j
    ensures SegmentIndices(segments, j) == []
  {
    if segments != [] {
      SegmentIndicesNone(segments[1..], j);
    }
  }

  /** The rows `create_job` inserts for job j: one per index, with consecutive ids from firstId. */
  function NewSegments(j: string, indices: seq<int>, firstId: int): (r: seq<JobSegment>)
    ensures |r| == |indices|
    ensures forall k :: 0 <= k < |r| ==> r[k].id == firstId + k && r[k].job == j && r[k].seedindex == indices[k]
  {
    seq(|indices|, k requires 0 <= k < |indices| => JobSegment(firstId + k, j, indices[k]))
  }

  lemma {:induction false} NewSegmentsIndices(j: string, indices: seq<int>, firstId: int)
    ensures SegmentIndices(NewSegments(j, indices, firstId), j) == indices
    decreases |indices|
  {
    if indices != [] {
      var s := NewSegments(j, indices, firstId);
      assert s[1..] == NewSegments(j, indices[1..], firstId + 1);
      NewSegmentsIndices(j, indices[1..], firstId + 1);
    }
  }

  /** Appending the new rows of a job that had none gives the job exactly the new indices, in order. */
  lemma AddedSegmentIndices(segments: seq<JobSegment>, j: string, indices: seq<int>, firstId: int)
    requires forall k :: 0 <= k < |segments| ==> segments[k].job != j
    ensures SegmentIndices(segments + NewSegments(j, indices, firstId), j) == indices
  {
    SegmentIndicesNone(segments, j);
    SegmentIndicesAppend(segments, NewSegments(j, indices, firstId), j);
    NewSegmentsIndices(j, indices, firstId);
    assert [] + indices == indices;
  }

  /** Segment ids strictly increase in table order, so no two rows share an id. */
  predicate IdsIncreasing(segments: seq<JobSegment>)
  {
    forall a, b :: 0 <= a < b < |segments| ==> segments[a].id < segments[b].id
  }

  /** The segment table after `delete_job` j: the rows of other jobs, in their order. */
  function WithoutJob(segments: seq<JobSegment>, j: string): (r: seq<JobSegment>)
    ensures forall s :: s in r <==> s in segments && s.job != j
    ensures IdsIncreasing(segments) ==> IdsIncreasing(r)
  {
    if segments == [] then []
    else
      var rest := WithoutJob(segments[1..], j);
      if segments[0].job == j then rest
      else
        assert forall b :: 0 <= b < |rest| ==> rest[b] in segments[1..];
        [segments[0]] + rest
  }
}
