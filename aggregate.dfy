/**
 * The aggregator: the join of results with their primary submissions,
 * the per-length result listing ordered by seed index, and the job summary.
 */
module Aggregate {
  import opened Rows
  import opened Segments

  /** One row of the join of results with submissions. */
  datatype JoinRow = JoinRow(seedindex: int, value: int, seconds: int)

  /** Result r belongs to a primary submission of job j and has length l. */
  predicate Joins(submissions: map<int, Submission>, r: Result, j: string, l: int)
  {
    r.submissionid in submissions &&
    submissions[r.submissionid].job == j &&
    submissions[r.submissionid].status == 0 &&
    r.resultlength == l
  }

  function RowOf(submissions: map<int, Submission>, r: Result): JoinRow
    requires r.submissionid in submissions
  {
    JoinRow(submissions[r.submissionid].seedindex, r.resultvalue, submissions[r.submissionid].secondselapsed)
  }

  /**
   * The join of the results table with the primary submissions of job j at
   * result length l (polycube_server.py:307-315, 333-346), in table order:
   * exactly the rows of the results that join.
   */
  function Joined(results: seq<Result>, submissions: map<int, Submission>, j: string, l: int): (rows: seq<JoinRow>)
    ensures |rows| <= |results|
    ensures forall row :: row in rows ==>
              exists k :: 0 <= k < |results| && Joins(submissions, results[k], j, l) && row == RowOf(submissions, results[k])
    ensures forall k :: 0 <= k < |results| && Joins(submissions, results[k], j, l) ==> RowOf(submissions, results[k]) in rows
  {
    if results == [] then []
    else
      var rest := Joined(results[1..], submissions, j, l);
      assert forall k :: 1 <= k < |results| ==> results[k] == results[1..][k - 1];
      if Joins(submissions, results[0], j, l) then [RowOf(submissions, results[0])] + rest else rest
  }

  /**
   * The positions at or after lo of the results that join, in increasing
   * order: the rows the query matches, indexed into the results table.
   */
  function JoinIndices(results: seq<Result>, submissions: map<int, Submission>, j: string, l: int, lo: nat): (ks: seq<nat>)
    requires lo <= |results|
    ensures forall i :: 0 <= i < |ks| ==> lo <= ks[i] < |results| && Joins(submissions, results[ks[i]], j, l)
    ensures forall a, b :: 0 <= a < b < |ks| ==> ks[a] < ks[b]
    ensures forall k :: lo <= k < |results| && Joins(submissions, results[k], j, l) ==> k in ks
    decreases |results| - lo
  {
    if lo == |results| then []
    else
      var rest := JoinIndices(results, submissions, j, l, lo + 1);
      if Joins(submissions, results[lo], j, l) then [lo] + rest else rest
  }

  /**
   * The join lists one row per matching result and nothing else, in table
   * order: row i is the row of the i-th matching result.
   */
  lemma {:induction false} JoinedIndexed(results: seq<Result>, submissions: map<int, Submission>, j: string, l: int, lo: nat)
    requires lo <= |results|
    ensures |Joined(results[lo..], submissions, j, l)| == |JoinIndices(results, submissions, j, l, lo)|
    ensures forall i :: 0 <= i < |JoinIndices(results, submissions, j, l, lo)| ==>
              Joined(results[lo..], submissions, j, l)[i] == RowOf(submissions, results[JoinIndices(results, submissions, j, l, lo)[i]])
    decreases |results| - lo
  {
    if lo < |results| {
      JoinedIndexed(results, submissions, j, l, lo + 1);
      var tail := results[lo..];
      assert tail[0] == results[lo];
      assert tail[1..] == results[lo + 1..];
      var rest := Joined(results[lo + 1..], submissions, j, l);
      var ks := JoinIndices(results, submissions, j, l, lo + 1);
      assert Joined(tail, submissions, j, l) == if Joins(submissions, results[lo], j, l) then [RowOf(submissions, results[lo])] + rest else rest;
      assert JoinIndices(results, submissions, j, l, lo) == if Joins(submissions, results[lo], j, l) then [lo] + ks else ks;
    }
  }

  lemma {:induction false} JoinedAppend(a: seq<Result>, b: seq<Result>, submissions: map<int, Submission>, j: string, l: int)
    ensures Joined(a + b, submissions, j, l) == Joined(a, submissions, j, l) + Joined(b, submissions, j, l)
  {
    if a == [] {
      assert a + b == b;
    } else {
      assert (a + b)[0] == a[0];
      assert (a + b)[1..] == a[1..] + b;
      JoinedAppend(a[1..], b, submissions, j, l);
    }
  }

  /** Adding a submission that is not primary, and owns none of the existing results, changes no join. */
  lemma {:induction false} JoinedIgnoresOther(results: seq<Result>, submissions: map<int, Submission>, id: int, s: Submission, j: string, l: int)
    requires forall k :: 0 <= k < |results| ==> results[k].submissionid != id
    ensures Joined(results, submissions[id := s], j, l) == Joined(results, submissions, j, l)
  {
    if results != [] {
      JoinedIgnoresOther(results[1..], submissions, id, s, j, l);
    }
  }

  /** Results owned only by a submission that is not primary join nothing. */
  lemma {:induction false} JoinedNotPrimary(results: seq<Result>, submissions: map<int, Submission>, id: int, j: string, l: int)
    requires id in submissions && submissions[id].status != 0
    requires forall k :: 0 <= k < |results| ==> results[k].submissionid == id
    ensures Joined(results, submissions, j, l) == []
  {
    if results != [] {
      JoinedNotPrimary(results[1..], submissions, id, j, l);
    }
  }

  /**
   * A superseded submission and its results are invisible to the join: a
   * duplicate accepted for a completed segment changes no listing and no summary.
   */
  lemma SupersededJoinsNothing(results: seq<Result>, submissions: map<int, Submission>, id: int, s: Submission, added: seq<Result>)
    requires id !in submissions && s.status != 0
    requires forall k :: 0 <= k < |results| ==> results[k].submissionid in submissions
    requires forall k :: 0 <= k < |added| ==> added[k].submissionid == id
    ensures forall j, l :: Joined(results + added, submissions[id := s], j, l) == Joined(results, submissions, j, l)
  {
    forall j, l
      ensures Joined(results + added, submissions[id := s], j, l) == Joined(results, submissions, j, l)
    {
      JoinedAppend(results, added, submissions[id := s], j, l);
      JoinedIgnoresOther(results, submissions, id, s, j, l);
      JoinedNotPrimary(added, submissions[id := s], id, j, l);
    }
  }

  predicate SortedBySeed(rows: seq<JoinRow>)
  {
    forall a, b :: 0 <= a < b < |rows| ==> rows[a].seedindex <= rows[b].seedindex
  }

  /** Inserts x before the first row with a seed index not below its own. */
  function Insert(x: JoinRow, rows: seq<JoinRow>): (r: seq<JoinRow>)
    requires SortedBySeed(rows)
    ensures SortedBySeed(r)
    ensures multiset(r) == multiset(rows) + multiset{x}
    ensures |r| == |rows| + 1 && (r[0] == x || (rows != [] && r[0] == rows[0]))
  {
    if rows == [] || x.seedindex <= rows[0].seedindex then [x] + rows
    else
      var rest := Insert(x, rows[1..]);
      assert rows == [rows[0]] + rows[1..];
      assert rows[0].seedindex <= rest[0].seedindex;
      [rows[0]] + rest
  }

  /** The `ORDER BY sub.seedindex` of polycube_server.py:315: a stable sort on the seed index. */
  function SortBySeed(rows: seq<JoinRow>): (r: seq<JoinRow>)
    ensures SortedBySeed(r)
    ensures multiset(r) == multiset(rows)
  {
    if rows == [] then []
    else
      assert rows == [rows[0]] + rows[1..];
      Insert(rows[0], SortBySeed(rows[1..]))
  }

  /**
   * The loop of polycube_server.py:317-322: splits the ordered rows into
   * two parallel lists of seed indices and values.
   */
  method SplitRows(rows: seq<JoinRow>) returns (seedindices: seq<int>, values: seq<int>)
    ensures |seedindices| == |rows| && |values| == |rows|
    ensures forall k :: 0 <= k < |rows| ==> seedindices[k] == rows[k].seedindex && values[k] == rows[k].value
  {
    seedindices, values := [], [];
    var i := 0;
    while i < |rows|
      invariant 0 <= i <= |rows|
      invariant |seedindices| == i && |values| == i
      invariant forall k :: 0 <= k < i ==> seedindices[k] == rows[k].seedindex && values[k] == rows[k].value
    {
      seedindices := seedindices + [rows[i].seedindex];
      values := values + [rows[i].value];
      i := i + 1;
    }
  }

  /**
   * The rows `get_results` lists are ordered by seed index, each comes from
   * a result of length l of a primary submission of job j, and every such
   * result is listed.
   */
  lemma ListedRows(results: seq<Result>, submissions: map<int, Submission>, j: string, l: int)
    ensures SortedBySeed(SortBySeed(Joined(results, submissions, j, l)))
    ensures forall row :: row in SortBySeed(Joined(results, submissions, j, l)) ==>
              exists k :: 0 <= k < |results| && Joins(submissions, results[k], j, l) && row == RowOf(submissions, results[k])
    ensures forall k :: 0 <= k < |results| && Joins(submissions, results[k], j, l) ==>
              RowOf(submissions, results[k]) in SortBySeed(Joined(results, submissions, j, l))
  {
    var rows := Joined(results, submissions, j, l);
    var sorted := SortBySeed(rows);
    forall row | row in sorted ensures row in rows {
      assert row in multiset(sorted);
    }
    forall row | row in rows ensures row in sorted {
      assert row in multiset(rows);
    }
  }

  function SumValues(rows: seq<JoinRow>): int
  {
    if rows == [] then 0 else rows[0].value + SumValues(rows[1..])
  }

  function SumSeconds(rows: seq<JoinRow>): int
  {
    if rows == [] then 0 else rows[0].seconds + SumSeconds(rows[1..])
  }

  /**
   * The job summary (polycube_server.py:333-348): sums and a count over the
   * primary results at the job's target length; with no such row, SQL's SUM
   * and MAX give NULL. The job count is CEILING(seedcount / seedchunk),
   * which a division by zero turns into NULL as well.
   */
  function Summarize(job: Job, results: seq<Result>, submissions: map<int, Submission>): (s: Summary)
    ensures s.targetlength == job.targetlength
    ensures s.resultcount == |Joined(results, submissions, job.job, job.targetlength)| <= |results|
    ensures s.resultcount == |JoinIndices(results, submissions, job.job, job.targetlength, 0)|
    ensures s.resultcount == 0 ==> s.value.None? && s.seconds.None? && s.jobcount.None?
    ensures s.resultcount > 0 ==>
              s.value == Some(SumValues(Joined(results, submissions, job.job, job.targetlength))) &&
              s.seconds == Some(SumSeconds(Joined(results, submissions, job.job, job.targetlength)))
    ensures s.jobcount.Some? <==> s.resultcount > 0 && job.seedchunk != 0
    ensures s.jobcount.Some? ==> job.seedchunk != 0 && s.jobcount.value == CeilDiv(job.seedcount, job.seedchunk)
  {
    var rows := Joined(results, submissions, job.job, job.targetlength);
    JoinedIndexed(results, submissions, job.job, job.targetlength, 0);
    assert results[0..] == results;
    if rows == [] then Summary(None, None, 0, None, job.targetlength)
    else
      Summary(
        Some(SumValues(rows)),
        Some(SumSeconds(rows)),
        |rows|,
        if job.seedchunk == 0 then None else Some(CeilDiv(job.seedcount, job.seedchunk)),
        job.targetlength)
  }

  /**
   * For a positive chunk and a non-negative seed count, whenever a job has
   * results to count, its job count is the number of segments `create_job`
   * would derive from its current fields.
   */
  lemma JobCountIsSegmentCount(job: Job, results: seq<Result>, submissions: map<int, Submission>)
    requires job.seedchunk > 0 && job.seedcount >= 0
    requires Summarize(job, results, submissions).resultcount > 0
    ensures Summarize(job, results, submissions).jobcount == Some(|Range(job.seedcount, job.seedchunk)|)
  {
    DerivedSegments(job.seedcount, job.seedchunk);
    CeilDivSign(job.seedcount, job.seedchunk);
  }

  /** A superseded submission changes no summary. */
  lemma SupersededNotSummarized(job: Job, results: seq<Result>, submissions: map<int, Submission>, id: int, s: Submission, added: seq<Result>)
    requires id !in submissions && s.status != 0
    requires forall k :: 0 <= k < |results| ==> results[k].submissionid in submissions
    requires forall k :: 0 <= k < |added| ==> added[k].submissionid == id
    ensures Summarize(job, results + added, submissions[id := s]) == Summarize(job, results, submissions)
  {
    SupersededJoinsNothing(results, submissions, id, s, added);
  }
}
