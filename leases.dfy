/**
 * The lease manager: which tickets are live, which segments a ticket may
 * be opened for, the choice of the least such segment, and the exclusivity
 * of live leases.
 */
module Leases {
  import opened Rows
  import opened Segments

  /** Tickets of job j issued strictly after `expiration` still hold segment idx (polycube_server.py:115). */
  predicate LiveTicketFor(tickets: map<int, Ticket>, j: string, idx: int, expiration: int)
  {
    exists id :: id in tickets && tickets[id].job == j && tickets[id].seedindex == idx && tickets[id].issuedate > expiration
  }

  /** Segment idx of job j has a primary (status 0) submission: it is completed (polycube_server.py:117). */
  predicate HasPrimary(submissions: map<int, Submission>, j: string, idx: int)
  {
    exists id :: id in submissions && submissions[id].job == j && submissions[id].seedindex == idx && submissions[id].status == 0
  }

  /** A segment a new ticket may be opened for: neither leased nor completed. */
  predicate Eligible(tickets: map<int, Ticket>, submissions: map<int, Submission>, j: string, idx: int, expiration: int)
  {
    !LiveTicketFor(tickets, j, idx, expiration) && !HasPrimary(submissions, j, idx)
  }

  /**
   * The least eligible seed index among `indices`, or None when there is
   * none: the first row of the ordered selection at polycube_server.py:110-118.
   */
  function LeastEligible(indices: seq<int>, tickets: map<int, Ticket>, submissions: map<int, Submission>, j: string, expiration: int): (r: Option<int>)
    ensures r.Some? ==> r.value in indices && Eligible(tickets, submissions, j, r.value, expiration)
    ensures r.Some? ==> forall k :: 0 <= k < |indices| && Eligible(tickets, submissions, j, indices[k], expiration) ==> r.value <= indices[k]
    ensures r.None? ==> forall k :: 0 <= k < |indices| ==> !Eligible(tickets, submissions, j, indices[k], expiration)
  {
    if indices == [] then None
    else
      var rest := LeastEligible(indices[1..], tickets, submissions, j, expiration);
      assert forall k :: 1 <= k < |indices| ==> indices[k] == indices[1..][k - 1];
      if !Eligible(tickets, submissions, j, indices[0], expiration) then rest
      else if rest.Some? && rest.value < indices[0] then rest
      else Some(indices[0])
  }

  /** A live ticket keeps its segment from being offered again. */
  lemma LiveTicketBlocks(indices: seq<int>, tickets: map<int, Ticket>, submissions: map<int, Submission>, j: string, expiration: int, id: int)
    requires id in tickets && tickets[id].job == j && tickets[id].issuedate > expiration
    ensures LeastEligible(indices, tickets, submissions, j, expiration) != Some(tickets[id].seedindex)
  {
    assert LiveTicketFor(tickets, j, tickets[id].seedindex, expiration);
  }

  /** A completed segment is never offered again. */
  lemma CompletedBlocks(indices: seq<int>, tickets: map<int, Ticket>, submissions: map<int, Submission>, j: string, expiration: int, id: int)
    requires id in submissions && submissions[id].job == j && submissions[id].status == 0
    ensures LeastEligible(indices, tickets, submissions, j, expiration) != Some(submissions[id].seedindex)
  {
    assert HasPrimary(submissions, j, submissions[id].seedindex);
  }

  /**
   * A segment whose tickets have all expired and that is not completed is
   * offered again: the selection succeeds with that index or a smaller one.
   */
  lemma StaleSegmentReoffered(indices: seq<int>, tickets: map<int, Ticket>, submissions: map<int, Submission>, j: string, expiration: int, idx: int)
    requires idx in indices
    requires forall id :: id in tickets && tickets[id].job == j && tickets[id].seedindex == idx ==> tickets[id].issuedate <= expiration
    requires !HasPrimary(submissions, j, idx)
    ensures LeastEligible(indices, tickets, submissions, j, expiration).Some?
    ensures LeastEligible(indices, tickets, submissions, j, expiration).value <= idx
  {
    var k :| 0 <= k < |indices| && indices[k] == idx;
    assert Eligible(tickets, submissions, j, indices[k], expiration);
  }

  /** A new job with nothing leased and nothing submitted offers segment 0 first. */
  lemma FreshJobOffersZero(seedcount: int, seedchunk: int, tickets: map<int, Ticket>, submissions: map<int, Submission>, j: string, expiration: int)
    requires seedchunk > 0 && seedcount > 0
    requires forall id :: id in tickets ==> tickets[id].job != j
    requires forall id :: id in submissions ==> submissions[id].job != j
    ensures LeastEligible(Range(seedcount, seedchunk), tickets, submissions, j, expiration) == Some(0)
  {
    DerivedSegments(seedcount, seedchunk);
    var r := Range(seedcount, seedchunk);
    assert r[0] == 0 && Eligible(tickets, submissions, j, r[0], expiration);
  }

  /** Ticket t is live at `now`: its job exists and it was issued less than tickettimeout seconds ago. */
  predicate Live(jobs: map<string, Job>, t: Ticket, now: int)
  {
    t.job in jobs && t.issuedate > now - jobs[t.job].tickettimeout
  }

  /** At most one live ticket per (job, seedindex). */
  predicate LeaseExclusive(jobs: map<string, Job>, tickets: map<int, Ticket>, now: int)
  {
    forall a, b ::
      (a in tickets && b in tickets && a != b &&
       tickets[a].job == tickets[b].job && tickets[a].seedindex == tickets[b].seedindex &&
       Live(jobs, tickets[a], now)) ==> !Live(jobs, tickets[b], now)
  }

  /** A ticket is live at `now` exactly when fewer than tickettimeout seconds have passed since it was issued. */
  lemma LiveWindow(jobs: map<string, Job>, t: Ticket, now: int)
    requires t.job in jobs
    ensures Live(jobs, t, now) <==> now - t.issuedate < jobs[t.job].tickettimeout
  {
  }

  /** Time passing only expires tickets, so exclusivity persists. */
  lemma ExclusiveLater(jobs: map<string, Job>, tickets: map<int, Ticket>, now: int, later: int)
    requires now <= later && LeaseExclusive(jobs, tickets, now)
    ensures LeaseExclusive(jobs, tickets, later)
  {
    forall a, b | a in tickets && b in tickets && Live(jobs, tickets[a], later) && Live(jobs, tickets[b], later)
      ensures Live(jobs, tickets[a], now) && Live(jobs, tickets[b], now)
    {
    }
  }

  /** Opening a ticket for a segment without a live ticket keeps exclusivity. */
  lemma IssueKeepsExclusive(jobs: map<string, Job>, tickets: map<int, Ticket>, id: int, t: Ticket, now: int)
    requires LeaseExclusive(jobs, tickets, now)
    requires id !in tickets && t.job in jobs
    requires !LiveTicketFor(tickets, t.job, t.seedindex, now - jobs[t.job].tickettimeout)
    ensures LeaseExclusive(jobs, tickets[id := t], now)
  {
    var tickets' := tickets[id := t];
    forall a, b | a in tickets' && b in tickets' && a != b &&
      tickets'[a].job == tickets'[b].job && tickets'[a].seedindex == tickets'[b].seedindex &&
      Live(jobs, tickets'[a], now)
      ensures !Live(jobs, tickets'[b], now)
    {
      if a == id {
        assert !(tickets[b].issuedate > now - jobs[t.job].tickettimeout);
      } else if b == id {
        assert !(tickets[a].issuedate > now - jobs[t.job].tickettimeout);
      }
    }
  }

  /** Deleting a ticket keeps exclusivity. */
  lemma RemoveKeepsExclusive(jobs: map<string, Job>, tickets: map<int, Ticket>, id: int, now: int)
    requires LeaseExclusive(jobs, tickets, now)
    ensures LeaseExclusive(jobs, tickets - {id}, now)
  {
  }

  /** A change of the jobs table under which no ticket becomes live keeps exclusivity. */
  lemma JobChangeKeepsExclusive(jobs: map<string, Job>, jobs': map<string, Job>, tickets: map<int, Ticket>, now: int)
    requires LeaseExclusive(jobs, tickets, now)
    requires forall id :: id in tickets && Live(jobs', tickets[id], now) ==> Live(jobs, tickets[id], now)
    ensures LeaseExclusive(jobs', tickets, now)
  {
  }

  /** At every time at which the tickets were exclusive under `jobs`, `tickets'` are exclusive under `jobs'`. */
  ghost predicate StaysExclusive(jobs: map<string, Job>, tickets: map<int, Ticket>, jobs': map<string, Job>, tickets': map<int, Ticket>)
  {
    forall now :: LeaseExclusive(jobs, tickets, now) ==> LeaseExclusive(jobs', tickets', now)
  }

  /** No ticket belongs to job j. */
  predicate NoTicketsFor(tickets: map<int, Ticket>, j: string)
  {
    forall id :: id in tickets ==> tickets[id].job != j
  }

  /** Adding a job that no ticket belongs to keeps exclusivity at every time. */
  lemma AddJobKeepsExclusive(jobs: map<string, Job>, tickets: map<int, Ticket>, job: Job)
    requires NoTicketsFor(tickets, job.job)
    ensures StaysExclusive(jobs, tickets, jobs[job.job := job], tickets)
  {
    forall now | LeaseExclusive(jobs, tickets, now)
      ensures LeaseExclusive(jobs[job.job := job], tickets, now)
    {
      JobChangeKeepsExclusive(jobs, jobs[job.job := job], tickets, now);
    }
  }

  /** Removing jobs, or changing them without touching their ticket timeouts, keeps exclusivity at every time. */
  lemma TimeoutsKeptKeepExclusive(jobs: map<string, Job>, jobs': map<string, Job>, tickets: map<int, Ticket>)
    requires forall k :: k in jobs' ==> k in jobs && jobs'[k].tickettimeout == jobs[k].tickettimeout
    ensures StaysExclusive(jobs, tickets, jobs', tickets)
  {
    forall now | LeaseExclusive(jobs, tickets, now)
      ensures LeaseExclusive(jobs', tickets, now)
    {
      JobChangeKeepsExclusive(jobs, jobs', tickets, now);
    }
  }

  /**
   * Deleting a job leaves its tickets behind; re-creating the job with a
   * longer ticket timeout brings two expired leases on one segment back to life.
   */
  lemma RecreatedJobRevivesLeases()
    ensures
      var old30 := Job("x", 0, "", 100, 10, 0, 5, 30);
      var new1000 := old30.(tickettimeout := 1000);
      var tickets := map[1 := Ticket(1, "x", 0, "a", 0, ""), 2 := Ticket(2, "x", 31, "b", 0, "")];
      LeaseExclusive(map["x" := old30], tickets, 31) &&
      LeaseExclusive(map[], tickets, 32) &&
      !LeaseExclusive(map["x" := new1000], tickets, 32)
  {
    var new1000 := Job("x", 0, "", 100, 10, 0, 5, 1000);
    var tickets := map[1 := Ticket(1, "x", 0, "a", 0, ""), 2 := Ticket(2, "x", 31, "b", 0, "")];
    assert Live(map["x" := new1000], tickets[1], 32) && Live(map["x" := new1000], tickets[2], 32);
  }
}
