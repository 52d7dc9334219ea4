/**
 * The handlers of the work-distribution server as methods on one store of
 * five tables. The clock (`now`, in whole seconds), the fresh ticket token
 * and the caller's address are parameters; each handler is one atomic step.
 */
module Server {
  import opened Rows
  import opened Segments
  import opened Leases
  import opened Admission
  import opened Aggregate

  /**
   * A job after `update_job` with definition d: the six fields that
   * polycube_server.py:77-82 assign. Line :83 assigns `tickettimout`, an
   * attribute that is no column, so the ticket timeout keeps its old value.
   */
  function Amended(o: Job, d: JobSpec): (r: Job)
    ensures r.job == o.job && r.tickettimeout == o.tickettimeout
    ensures r.startdate == d.startdate && r.seedurl == d.seedurl
    ensures r.seedcount == d.seedcount && r.seedchunk == d.seedchunk
    ensures r.seedlength == d.seedlength && r.targetlength == d.targetlength
  {
    Job(o.job, d.startdate, d.seedurl, d.seedcount, d.seedchunk, d.seedlength, d.targetlength, o.tickettimeout)
  }

  /**
   * The segment `open_ticket` leases for job j at time `now`: the least of
   * the job's segment indices that is eligible against the expiration
   * `now - tickettimeout` (polycube_server.py:110-118).
   */
  function OpenChoice(jobs: map<string, Job>, segments: seq<JobSegment>, tickets: map<int, Ticket>,
                      submissions: map<int, Submission>, j: string, now: int): (r: Option<int>)
    requires j in jobs
    ensures r.Some? ==>
      && (exists k :: 0 <= k < |segments| && segments[k].job == j && segments[k].seedindex == r.value)
      && !LiveTicketFor(tickets, j, r.value, now - jobs[j].tickettimeout)
      && !HasPrimary(submissions, j, r.value)
    ensures r.Some? ==> forall k ::
      (0 <= k < |segments| && segments[k].job == j &&
       Eligible(tickets, submissions, j, segments[k].seedindex, now - jobs[j].tickettimeout)) ==> r.value <= segments[k].seedindex
    ensures r.None? ==> forall k :: 0 <= k < |segments| && segments[k].job == j ==>
      LiveTicketFor(tickets, j, segments[k].seedindex, now - jobs[j].tickettimeout) || HasPrimary(submissions, j, segments[k].seedindex)
  {
    var indices := SegmentIndices(segments, j);
    var r := LeastEligible(indices, tickets, submissions, j, now - jobs[j].tickettimeout);
    assert forall k :: 0 <= k < |segments| && segments[k].job == j ==> segments[k].seedindex in indices;
    assert forall x :: x in indices ==> exists i :: 0 <= i < |indices| && indices[i] == x;
    r
  }

  /**
   * Every segment belongs to an existing job and has an id below the
   * segment counter, and ids increase in table order, so they are unique.
   */
  ghost predicate SegmentsValid(segments: seq<JobSegment>, jobs: map<string, Job>, next: int)
  {
    && (forall i :: 0 <= i < |segments| ==> segments[i].job in jobs && 0 < segments[i].id < next)
    && IdsIncreasing(segments)
  }

  /**
   * The segments `create_job` adds for a new job carry that job and the
   * fresh ids next, next + 1, ..., above every id already in the table; they
   * keep the segment table valid and give the job exactly the given
   * indices, in order.
   */
  lemma AddedSegmentsValid(segments: seq<JobSegment>, jobs: map<string, Job>, j: Job, indices: seq<int>, next: int)
    requires SegmentsValid(segments, jobs, next) && 0 < next && j.job !in jobs
    ensures forall k :: |segments| <= k < |segments| + |indices| ==>
              (segments + NewSegments(j.job, indices, next))[k].job == j.job &&
              (segments + NewSegments(j.job, indices, next))[k].id == next + (k - |segments|)
    ensures forall k :: 0 <= k < |segments| ==> segments[k].id < next
    ensures SegmentsValid(segments + NewSegments(j.job, indices, next), jobs[j.job := j], next + |indices|)
    ensures SegmentIndices(segments + NewSegments(j.job, indices, next), j.job) == indices
  {
    AddedSegmentIndices(segments, j.job, indices, next);
    var added := NewSegments(j.job, indices, next);
    var all := segments + added;
    forall k | |segments| <= k < |all|
      ensures all[k].job == j.job && all[k].id == next + (k - |segments|)
    {
      assert all[k] == added[k - |segments|];
    }
    forall i | 0 <= i < |all|
      ensures all[i].job in jobs[j.job := j] && 0 < all[i].id < next + |indices|
    {
    }
  }

  /** Deleting a job's segments keeps the segment table valid for the remaining jobs. */
  lemma RemovedSegmentsValid(segments: seq<JobSegment>, jobs: map<string, Job>, job: string, next: int)
    requires SegmentsValid(segments, jobs, next)
    ensures SegmentsValid(WithoutJob(segments, job), jobs - {job}, next)
  {
    var rest := WithoutJob(segments, job);
    forall i | 0 <= i < |rest|
      ensures rest[i].job in jobs - {job} && 0 < rest[i].id < next
    {
      assert rest[i] in rest;
    }
  }

  /** Result ids increase in table order, so they are unique. */
  predicate ResultIdsIncreasing(results: seq<Result>)
  {
    forall a, b :: 0 <= a < b < |results| ==> results[a].resultid < results[b].resultid
  }

  /**
   * Every result belongs to an existing submission and has an id below the
   * result counter, and ids increase in table order.
   */
  ghost predicate ResultsValid(results: seq<Result>, submissions: map<int, Submission>, next: int)
  {
    && (forall i :: 0 <= i < |results| ==> results[i].submissionid in submissions && 0 < results[i].resultid < next)
    && ResultIdsIncreasing(results)
  }

  /**
   * The results an accepted submission adds belong to it and carry the fresh
   * ids next, next + 1, ..., above every id already in the table; they keep
   * the results table valid.
   */
  lemma AddedResultsValid(results: seq<Result>, submissions: map<int, Submission>, id: int, s: Submission, rs: seq<ResultIn>, next: int)
    requires ResultsValid(results, submissions, next) && 0 < next
    ensures forall k :: |results| <= k < |results| + |rs| ==>
              (results + NewResults(id, rs, next))[k].submissionid == id &&
              (results + NewResults(id, rs, next))[k].resultid == next + (k - |results|)
    ensures forall k :: 0 <= k < |results| ==> results[k].resultid < next
    ensures ResultsValid(results + NewResults(id, rs, next), submissions[id := s], next + |rs|)
  {
    var added := NewResults(id, rs, next);
    var all := results + added;
    forall k | |results| <= k < |all|
      ensures all[k].submissionid == id && all[k].resultid == next + (k - |results|)
    {
      assert all[k] == added[k - |results|];
    }
    forall i | 0 <= i < |all|
      ensures all[i].submissionid in submissions[id := s] && 0 < all[i].resultid < next + |rs|
    {
    }
  }

  /**
   * The two lists of a results view are the seed indices and values of
   * `rows`, entry by entry, and `rows` is `joined` ordered by seed index.
   */
  ghost predicate ProjectsSorted(view: ResultsView, rows: seq<JoinRow>, joined: seq<JoinRow>)
  {
    && SortedBySeed(rows)
    && multiset(rows) == multiset(joined)
    && |view.seedindices| == |rows| && |view.values| == |rows|
    && forall k :: 0 <= k < |rows| ==> view.seedindices[k] == rows[k].seedindex && view.values[k] == rows[k].value
  }

  /**
   * Split into two lists, the seed-ordered join has one entry per matching
   * result and is a seed-sorted permutation of the join.
   */
  lemma ListingCounts(results: seq<Result>, submissions: map<int, Submission>, j: string, l: int, view: ResultsView)
    requires var rows := SortBySeed(Joined(results, submissions, j, l));
      && |view.seedindices| == |rows| && |view.values| == |rows|
      && forall k :: 0 <= k < |rows| ==> view.seedindices[k] == rows[k].seedindex && view.values[k] == rows[k].value
    ensures |view.seedindices| == |JoinIndices(results, submissions, j, l, 0)|
    ensures ProjectsSorted(view, SortBySeed(Joined(results, submissions, j, l)), Joined(results, submissions, j, l))
  {
    var joined := Joined(results, submissions, j, l);
    var rows := SortBySeed(joined);
    JoinedIndexed(results, submissions, j, l, 0);
    assert results[0..] == results;
    assert |rows| == |multiset(rows)| == |multiset(joined)| == |joined|;
  }

  class Store {
    var jobs: map<string, Job>
    var segments: seq<JobSegment>
    var tickets: map<int, Ticket>
    var submissions: map<int, Submission>
    var results: seq<Result>
    // the next value of each table's auto-increment key
    var nextSegmentId: int
    var nextTicketId: int
    var nextSubmissionId: int
    var nextResultId: int

    /**
     * Keys match their rows, ids lie below their counters, segment and
     * result ids are unique, and every segment and result points at a row
     * that exists; tickets and submissions may name deleted jobs.
     */
    ghost predicate Valid()
      reads this
    {
      && 0 < nextSegmentId && 0 < nextTicketId && 0 < nextSubmissionId && 0 < nextResultId
      && (forall k :: k in jobs ==> jobs[k].job == k)
      && SegmentsValid(segments, jobs, nextSegmentId)
      && (forall id :: id in tickets ==> tickets[id].ticketid == id && 0 < id < nextTicketId)
      && (forall id :: id in submissions ==> submissions[id].submissionid == id && 0 < id < nextSubmissionId)
      && ResultsValid(results, submissions, nextResultId)
    }

    constructor ()
      ensures Valid()
      ensures jobs == map[] && segments == [] && tickets == map[] && submissions == map[] && results == []
    {
      jobs, segments, tickets, submissions, results := map[], [], map[], map[], [];
      nextSegmentId, nextTicketId, nextSubmissionId, nextResultId := 1, 1, 1, 1;
    }

    /** `get_jobs` (polycube_server.py:31-34): every job. */
    method GetJobs() returns (r: set<Job>)
      ensures forall x :: x in r <==> exists k :: k in jobs && jobs[k] == x
    {
      r := set k | k in jobs :: jobs[k];
    }

    /** `get_job` (polycube_server.py:62-68). */
    method GetJob(j: string) returns (r: Outcome<Job>)
      ensures j in jobs ==> r == Ok(jobs[j])
      ensures j !in jobs ==> r == Err(JobNotFound)
    {
      if j !in jobs {
        return Err(JobNotFound);
      }
      r := Ok(jobs[j]);
    }

    /**
     * `create_job` (polycube_server.py:37-59): refuses an existing key;
     * otherwise adds the job and one segment per element of
     * `range(0, seedcount, seedchunk)`, which raises on a zero chunk before
     * anything is committed.
     */
    method CreateJob(j: Job) returns (r: Outcome<Job>)
      requires Valid()
      modifies this
      ensures Valid()
      ensures j.job in old(jobs) ==> r == Err(JobExists) && unchanged(this)
      ensures j.job !in old(jobs) && j.seedchunk == 0 ==> r == Err(ZeroStep) && unchanged(this)
      ensures j.job !in old(jobs) && j.seedchunk != 0 ==>
        && r == Ok(j)
        && jobs == old(jobs)[j.job := j]
        && segments == old(segments) + NewSegments(j.job, Range(j.seedcount, j.seedchunk), old(nextSegmentId))
        && SegmentIndices(segments, j.job) == Range(j.seedcount, j.seedchunk)
        && nextSegmentId == old(nextSegmentId) + |Range(j.seedcount, j.seedchunk)|
        && tickets == old(tickets) && submissions == old(submissions) && results == old(results)
        && nextTicketId == old(nextTicketId) && nextSubmissionId == old(nextSubmissionId) && nextResultId == old(nextResultId)
      ensures NoTicketsFor(old(tickets), j.job) ==> StaysExclusive(old(jobs), old(tickets), jobs, tickets)
    {
      if j.job in jobs {
        return Err(JobExists);
      }
      if j.seedchunk == 0 {
        return Err(ZeroStep);
      }
      var indices := Range(j.seedcount, j.seedchunk);
      var added := NewSegments(j.job, indices, nextSegmentId);
      var jobs' := jobs[j.job := j];
      var next' := nextSegmentId + |indices|;
      AddedSegmentsValid(segments, jobs, j, indices, nextSegmentId);
      if NoTicketsFor(tickets, j.job) {
        AddJobKeepsExclusive(jobs, tickets, j);
      }
      jobs := jobs';
      segments := segments + added;
      nextSegmentId := next';
      r := Ok(j);
    }

    /**
     * `update_job` (polycube_server.py:71-88): overwrites six fields of the
     * job; the ticket timeout and the segment table stay as they were.
     */
    method UpdateJob(job: string, d: JobSpec) returns (r: Outcome<Job>)
      requires Valid()
      modifies this
      ensures Valid()
      ensures job !in old(jobs) ==> r == Err(JobNotFound) && unchanged(this)
      ensures job in old(jobs) ==>
        && jobs == old(jobs)[job := Amended(old(jobs)[job], d)]
        && r == Ok(jobs[job])
        && segments == old(segments) && tickets == old(tickets) && submissions == old(submissions) && results == old(results)
        && nextSegmentId == old(nextSegmentId) && nextTicketId == old(nextTicketId)
        && nextSubmissionId == old(nextSubmissionId) && nextResultId == old(nextResultId)
      ensures StaysExclusive(old(jobs), old(tickets), jobs, tickets)
    {
      if job !in jobs {
        return Err(JobNotFound);
      }
      jobs := jobs[job := Amended(jobs[job], d)];
      r := Ok(jobs[job]);
      TimeoutsKeptKeepExclusive(old(jobs), jobs, tickets);
    }

    /**
     * `delete_job` (polycube_server.py:91-101): removes the job and its
     * segments; its tickets and submissions stay.
     */
    method DeleteJob(job: string) returns (r: Outcome<()>)
      requires Valid()
      modifies this
      ensures Valid()
      ensures job !in old(jobs) ==> r == Err(JobNotFound) && unchanged(this)
      ensures job in old(jobs) ==>
        && r == Ok(())
        && jobs == old(jobs) - {job}
        && segments == WithoutJob(old(segments), job)
        && tickets == old(tickets) && submissions == old(submissions) && results == old(results)
        && nextSegmentId == old(nextSegmentId) && nextTicketId == old(nextTicketId)
        && nextSubmissionId == old(nextSubmissionId) && nextResultId == old(nextResultId)
      ensures StaysExclusive(old(jobs), old(tickets), jobs, tickets)
    {
      if job !in jobs {
        return Err(JobNotFound);
      }
      RemovedSegmentsValid(segments, jobs, job, nextSegmentId);
      segments := WithoutJob(segments, job);
      jobs := jobs - {job};
      r := Ok(());
      TimeoutsKeptKeepExclusive(old(jobs), jobs, tickets);
    }

    /**
     * `open_ticket` (polycube_server.py:104-146): leases the least segment
     * of the job that has no live ticket and no primary submission, with a
     * ticket issued now under the given token and address.
     */
    method OpenTicket(j: string, now: int, token: string, ip: string) returns (r: Outcome<TicketView>)
      requires Valid()
      modifies this
      ensures Valid()
      ensures j !in old(jobs) ==> r == Err(JobNotFound) && unchanged(this)
      ensures j in old(jobs) && OpenChoice(old(jobs), old(segments), old(tickets), old(submissions), j, now).None? ==>
        r == Err(NoTicketsToMake) && unchanged(this)
      ensures j in old(jobs) && OpenChoice(old(jobs), old(segments), old(tickets), old(submissions), j, now).Some? ==>
        var idx := OpenChoice(old(jobs), old(segments), old(tickets), old(submissions), j, now).value;
        var id := old(nextTicketId);
        var job := old(jobs)[j];
        && tickets == old(tickets)[id := Ticket(id, j, now, token, idx, ip)]
        && nextTicketId == id + 1
        && r == Ok(TicketView(id, j, token, idx, job.seedchunk, job.seedurl, job.targetlength))
        && jobs == old(jobs) && segments == old(segments) && submissions == old(submissions) && results == old(results)
        && nextSegmentId == old(nextSegmentId) && nextSubmissionId == old(nextSubmissionId) && nextResultId == old(nextResultId)
      ensures LeaseExclusive(old(jobs), old(tickets), now) ==> LeaseExclusive(jobs, tickets, now)
    {
      if j !in jobs {
        return Err(JobNotFound);
      }
      var job := jobs[j];
      var choice := OpenChoice(jobs, segments, tickets, submissions, j, now);
      if choice.None? {
        return Err(NoTicketsToMake);
      }
      var id := nextTicketId;
      var t := Ticket(id, j, now, token, choice.value, ip);
      if LeaseExclusive(jobs, tickets, now) {
        IssueKeepsExclusive(jobs, tickets, id, t, now);
      }
      tickets := tickets[id := t];
      nextTicketId := id + 1;
      r := Ok(TicketView(id, j, token, t.seedindex, job.seedchunk, job.seedurl, job.targetlength));
    }

    /**
     * The insertion both submission handlers share (polycube_server.py:188-212
     * and 253-275): a submission for segment idx of job j, classified against
     * the table, and one result row per given result.
     */
    method Append(j: string, idx: int, sub: SubmissionIn, now: int, ip: string) returns (s: Submission)
      requires Valid()
      modifies this
      ensures Valid()
      ensures
        var id := old(nextSubmissionId);
        && s == NewSubmission(old(submissions), id, j, idx, sub, ip, now)
        && submissions == old(submissions)[id := s]
        && results == old(results) + NewResults(id, sub.results, old(nextResultId))
        && nextSubmissionId == id + 1 && nextResultId == old(nextResultId) + |sub.results|
        && jobs == old(jobs) && segments == old(segments) && tickets == old(tickets)
        && nextSegmentId == old(nextSegmentId) && nextTicketId == old(nextTicketId)
      ensures HasPrimary(submissions, j, idx)
      ensures old(UniquePrimaries(submissions)) ==> UniquePrimaries(submissions)
      ensures s.status != 0 ==>
        forall jj, l :: Joined(results, submissions, jj, l) == Joined(old(results), old(submissions), jj, l)
    {
      var id := nextSubmissionId;
      s := NewSubmission(submissions, id, j, idx, sub, ip, now);
      var added := NewResults(id, sub.results, nextResultId);
      AppendCompletesSegment(submissions, id, j, idx, sub, ip, now);
      if UniquePrimaries(submissions) {
        AppendKeepsPrimariesUnique(submissions, id, j, idx, sub, ip, now);
      }
      AddedResultsValid(results, submissions, id, s, sub.results, nextResultId);
      if s.status != 0 {
        SupersededJoinsNothing(results, submissions, id, s, added);
      }
      submissions := submissions[id := s];
      results := results + added;
      nextSubmissionId := id + 1;
      nextResultId := nextResultId + |sub.results|;
    }

    /**
     * `submit_ticket` (polycube_server.py:149-214): runs the checks in code
     * order; an accepted submission is stored with its status classified
     * against the ticket's segment, owns all the given results, and
     * consumes the ticket.
     */
    method SubmitTicket(j: string, sub: SubmissionIn, now: int, ip: string) returns (r: Outcome<()>)
      requires Valid()
      modifies this
      ensures Valid()
      ensures r == TicketChecks(old(jobs), old(tickets), j, sub, now)
      ensures r.Err? ==> unchanged(this)
      ensures r.Ok? ==>
        var idx := old(tickets)[sub.ticketid].seedindex;
        var id := old(nextSubmissionId);
        && submissions == old(submissions)[id := NewSubmission(old(submissions), id, j, idx, sub, ip, now)]
        && results == old(results) + NewResults(id, sub.results, old(nextResultId))
        && tickets == old(tickets) - {sub.ticketid}
        && nextSubmissionId == id + 1 && nextResultId == old(nextResultId) + |sub.results|
        && jobs == old(jobs) && segments == old(segments)
        && nextSegmentId == old(nextSegmentId) && nextTicketId == old(nextTicketId)
      ensures r.Ok? ==> HasPrimary(submissions, j, old(tickets)[sub.ticketid].seedindex)
      ensures old(UniquePrimaries(submissions)) ==> UniquePrimaries(submissions)
      ensures LeaseExclusive(old(jobs), old(tickets), now) ==> LeaseExclusive(jobs, tickets, now)
      ensures r.Ok? && submissions[old(nextSubmissionId)].status != 0 ==>
        forall jj, l :: Joined(results, submissions, jj, l) == Joined(old(results), old(submissions), jj, l)
    {
      r := TicketChecks(jobs, tickets, j, sub, now);
      if r.Err? {
        return;
      }
      var s := Append(j, tickets[sub.ticketid].seedindex, sub, now, ip);
      if LeaseExclusive(jobs, tickets, now) {
        RemoveKeepsExclusive(jobs, tickets, sub.ticketid, now);
      }
      tickets := tickets - {sub.ticketid};
    }

    /**
     * `add_submission` (polycube_server.py:239-277): stores a submission
     * for the seed index the caller names, classified like a ticket-backed
     * one, without ticket, shape or timing checks.
     */
    method AddSubmission(j: string, sub: SubmissionIn, now: int, ip: string) returns (r: Outcome<Submission>)
      requires Valid()
      modifies this
      ensures Valid()
      ensures j !in old(jobs) ==> r == Err(JobNotFound) && unchanged(this)
      ensures j in old(jobs) ==>
        var id := old(nextSubmissionId);
        && submissions == old(submissions)[id := NewSubmission(old(submissions), id, j, sub.seedindex, sub, ip, now)]
        && r == Ok(submissions[id])
        && results == old(results) + NewResults(id, sub.results, old(nextResultId))
        && nextSubmissionId == id + 1 && nextResultId == old(nextResultId) + |sub.results|
        && jobs == old(jobs) && segments == old(segments) && tickets == old(tickets)
        && nextSegmentId == old(nextSegmentId) && nextTicketId == old(nextTicketId)
      ensures j in old(jobs) ==> HasPrimary(submissions, j, sub.seedindex)
      ensures old(UniquePrimaries(submissions)) ==> UniquePrimaries(submissions)
      ensures r.Ok? && r.value.status != 0 ==>
        forall jj, l :: Joined(results, submissions, jj, l) == Joined(old(results), old(submissions), jj, l)
    {
      if j !in jobs {
        return Err(JobNotFound);
      }
      var s := Append(j, sub.seedindex, sub, now, ip);
      r := Ok(s);
    }

    /** `list_submissions` (polycube_server.py:217-223): the submissions of one segment of the job, segment 0 unless named. */
    method ListSubmissions(j: string, seedindex: int := 0) returns (r: Outcome<set<Submission>>)
      ensures j !in jobs ==> r == Err(JobNotFound)
      ensures j in jobs ==>
        r.Ok? && forall s :: s in r.value <==> s in submissions.Values && s.job == j && s.seedindex == seedindex
    {
      if j !in jobs {
        return Err(JobNotFound);
      }
      r := Ok(set s | s in submissions.Values && s.job == j && s.seedindex == seedindex);
    }

    /** `get_submission` (polycube_server.py:226-236): by id, whatever job it belongs to. */
    method GetSubmission(j: string, s: int) returns (r: Outcome<Submission>)
      ensures j !in jobs ==> r == Err(JobNotFound)
      ensures j in jobs && s !in submissions ==> r == Err(SubmissionNotFound)
      ensures j in jobs && s in submissions ==> r == Ok(submissions[s])
    {
      if j !in jobs {
        return Err(JobNotFound);
      }
      if s !in submissions {
        return Err(SubmissionNotFound);
      }
      r := Ok(submissions[s]);
    }

    /**
     * `update_submission` (polycube_server.py:282-298): sets the status and
     * contributor of the submission with that id, whatever job it belongs to.
     */
    method UpdateSubmission(j: string, s: int, status: int, contributor: string) returns (r: Outcome<Submission>)
      requires Valid()
      modifies this
      ensures Valid()
      ensures j !in old(jobs) ==> r == Err(JobNotFound) && unchanged(this)
      ensures j in old(jobs) && s !in old(submissions) ==> r == Err(SubmissionNotFound) && unchanged(this)
      ensures j in old(jobs) && s in old(submissions) ==>
        && submissions == old(submissions)[s := old(submissions)[s].(status := status, contributor := contributor)]
        && r == Ok(submissions[s])
        && jobs == old(jobs) && segments == old(segments) && tickets == old(tickets) && results == old(results)
        && nextSegmentId == old(nextSegmentId) && nextTicketId == old(nextTicketId)
        && nextSubmissionId == old(nextSubmissionId) && nextResultId == old(nextResultId)
      ensures status != 0 && old(UniquePrimaries(submissions)) ==> UniquePrimaries(submissions)
    {
      if j !in jobs {
        return Err(JobNotFound);
      }
      if s !in submissions {
        return Err(SubmissionNotFound);
      }
      if status != 0 && UniquePrimaries(submissions) {
        DemoteKeepsPrimariesUnique(submissions, s, status, contributor);
      }
      submissions := submissions[s := submissions[s].(status := status, contributor := contributor)];
      r := Ok(submissions[s]);
    }

    /**
     * `get_results` (polycube_server.py:301-324): for each result of length
     * l of a primary submission of the job, its segment's seed index and its
     * value, ordered by seed index.
     */
    method GetResults(j: string, l: int) returns (r: Outcome<ResultsView>)
      ensures j !in jobs ==> r == Err(JobNotFound)
      ensures j in jobs ==> r.Ok? && |r.value.seedindices| == |r.value.values|
      ensures j in jobs ==> forall a, b :: 0 <= a < b < |r.value.seedindices| ==> r.value.seedindices[a] <= r.value.seedindices[b]
      ensures j in jobs ==> forall k :: 0 <= k < |r.value.seedindices| ==> Listed(r.value.seedindices[k], r.value.values[k], j, l)
      ensures j in jobs ==> forall i :: 0 <= i < |results| && Joins(submissions, results[i], j, l) ==>
        exists k :: 0 <= k < |r.value.seedindices| && r.value.seedindices[k] == submissions[results[i].submissionid].seedindex &&
                    r.value.values[k] == results[i].resultvalue
      ensures j in jobs ==> |r.value.seedindices| == |JoinIndices(results, submissions, j, l, 0)|
      ensures j in jobs ==> exists rows :: ProjectsSorted(r.value, rows, Joined(results, submissions, j, l))
    {
      if j !in jobs {
        return Err(JobNotFound);
      }
      var rows := SortBySeed(Joined(results, submissions, j, l));
      ListedRows(results, submissions, j, l);
      var seedindices, values := SplitRows(rows);
      r := Ok(ResultsView(seedindices, values));
      forall i | 0 <= i < |results| && Joins(submissions, results[i], j, l)
        ensures exists k :: 0 <= k < |seedindices| && seedindices[k] == submissions[results[i].submissionid].seedindex &&
                            values[k] == results[i].resultvalue
      {
        var k :| 0 <= k < |rows| && rows[k] == RowOf(submissions, results[i]);
        assert seedindices[k] == rows[k].seedindex && values[k] == rows[k].value;
      }
      forall k | 0 <= k < |seedindices|
        ensures Listed(seedindices[k], values[k], j, l)
      {
        assert rows[k] in rows;
        var i :| 0 <= i < |results| && Joins(submissions, results[i], j, l) && rows[k] == RowOf(submissions, results[i]);
      }
      ListingCounts(results, submissions, j, l, r.value);
    }

    /** Some result of length l of a primary submission of job j has this seed index and value. */
    ghost predicate Listed(seedindex: int, value: int, j: string, l: int)
      reads this
    {
      exists i :: 0 <= i < |results| && Joins(submissions, results[i], j, l) &&
        seedindex == submissions[results[i].submissionid].seedindex && value == results[i].resultvalue
    }

    /** `get_summary` (polycube_server.py:327-348). */
    method GetSummary(j: string) returns (r: Outcome<Summary>)
      ensures j !in jobs ==> r == Err(JobNotFound)
      ensures j in jobs ==> r == Ok(Summarize(jobs[j], results, submissions))
    {
      if j !in jobs {
        return Err(JobNotFound);
      }
      r := Ok(Summarize(jobs[j], results, submissions));
    }
  }
}
