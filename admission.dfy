/**
 * Submission admission control: the fail-fast checks a ticket-backed
 * submission must pass, the primary/superseded classification shared with
 * direct submission, and the rows an accepted submission adds.
 */
module Admission {
  import opened Rows
  import opened Leases

  /** A ticket may not come back sooner than this many seconds after it was issued (polycube_server.py:179). */
  const MinSeconds := 10

  /** How far the self-reported compute time may exceed the wall-clock time since issue (polycube_server.py:182). */
  const Slack := 3

  /** The checks up to and including the too-quick check, in code order (polycube_server.py:151-180). */
  function EarlyChecks(jobs: map<string, Job>, tickets: map<int, Ticket>, j: string, sub: SubmissionIn, now: int): (r: Outcome<()>)
    ensures r.Ok? <==>
      && j in jobs
      && sub.ticketid in tickets
      && sub.token == tickets[sub.ticketid].token
      && |sub.results| == jobs[j].targetlength - jobs[j].seedlength
      && |sub.results| > 0
      && sub.results[0].resultvalue != 0
      && now - tickets[sub.ticketid].issuedate >= MinSeconds
  {
    if j !in jobs then Err(JobNotFound)
    else if sub.ticketid !in tickets then Err(TicketNotFound)
    else if sub.token != tickets[sub.ticketid].token then Err(TokenMismatch)
    else if |sub.results| != jobs[j].targetlength - jobs[j].seedlength then Err(WrongResultCount)
    // `sub.results[0]` on an empty list raises IndexError
    else if |sub.results| == 0 then Err(IndexOutOfRange)
    else if sub.results[0].resultvalue == 0 then Err(EmptyResult)
    else if now - tickets[sub.ticketid].issuedate < MinSeconds then Err(TooQuick)
    else Ok(())
  }

  /**
   * Every condition an accepted ticket-backed submission meets, in no
   * particular order: the reference the fail-fast checks are proved against.
   */
  predicate Admissible(jobs: map<string, Job>, tickets: map<int, Ticket>, j: string, sub: SubmissionIn, now: int)
  {
    && j in jobs
    && sub.ticketid in tickets
    && var t := tickets[sub.ticketid];
    && sub.token == t.token
    && |sub.results| == jobs[j].targetlength - jobs[j].seedlength
    && |sub.results| > 0
    && sub.results[0].resultvalue != 0
    && now - t.issuedate >= MinSeconds
    && sub.secondselapsed <= now - t.issuedate + Slack
    && sub.seedindex == t.seedindex
  }

  /**
   * The submission checks of `submit_ticket` (polycube_server.py:151-186)
   * with the duration rule at :182 as intended: the reported compute time
   * may exceed the time since the ticket was issued by at most Slack seconds.
   * The source line reads `results.secondselapsed`, a variable bound only
   * at :204; see TicketChecksAsWritten.
   */
  function TicketChecks(jobs: map<string, Job>, tickets: map<int, Ticket>, j: string, sub: SubmissionIn, now: int): (r: Outcome<()>)
    ensures r.Ok? <==> Admissible(jobs, tickets, j, sub, now)
    ensures r == Err(InvalidDuration) ==> sub.ticketid in tickets && sub.secondselapsed > now - tickets[sub.ticketid].issuedate + Slack
    ensures r == Err(WrongSeedIndex) ==> sub.ticketid in tickets && sub.seedindex != tickets[sub.ticketid].seedindex
  {
    match EarlyChecks(jobs, tickets, j, sub, now)
    case Err(e) => Err(e)
    case Ok(_) =>
      var t := tickets[sub.ticketid];
      if now - t.issuedate + Slack < sub.secondselapsed then Err(InvalidDuration)
      else if sub.seedindex != t.seedindex then Err(WrongSeedIndex)
      else Ok(())
  }

  /**
   * The same checks as the source is written: every submission that
   * passes the too-quick check reaches the `results.secondselapsed` of
   * :182 and fails with an UnboundLocalError.
   */
  function TicketChecksAsWritten(jobs: map<string, Job>, tickets: map<int, Ticket>, j: string, sub: SubmissionIn, now: int): (r: Outcome<()>)
    ensures r.Err?
    ensures r == Err(UnboundLocal) <==> EarlyChecks(jobs, tickets, j, sub, now).Ok?
    ensures r != Err(UnboundLocal) ==> r == TicketChecks(jobs, tickets, j, sub, now)
  {
    match EarlyChecks(jobs, tickets, j, sub, now)
    case Err(e) => Err(e)
    case Ok(_) => Err(UnboundLocal)
  }

  /** As written, `submit_ticket` accepts no submission at all. */
  lemma AsWrittenAcceptsNothing(jobs: map<string, Job>, tickets: map<int, Ticket>, j: string, sub: SubmissionIn, now: int)
    ensures TicketChecksAsWritten(jobs, tickets, j, sub, now).Err?
    ensures Admissible(jobs, tickets, j, sub, now) ==> TicketChecksAsWritten(jobs, tickets, j, sub, now) == Err(UnboundLocal)
  {
  }

  /** The two versions differ only on submissions that pass every check up to the too-quick one. */
  lemma AsWrittenAgreesBefore(jobs: map<string, Job>, tickets: map<int, Ticket>, j: string, sub: SubmissionIn, now: int)
    requires EarlyChecks(jobs, tickets, j, sub, now).Err?
    ensures TicketChecksAsWritten(jobs, tickets, j, sub, now) == TicketChecks(jobs, tickets, j, sub, now)
  {
  }

  /**
   * A ticket for segment 0 of a job with seedlength 0 and targetlength 5,
   * returned after 10 seconds with 5 results and a plausible compute time:
   * the intended checks accept it, the checks as written do not.
   */
  lemma IntendedAcceptsPlausibleSubmission()
    ensures
      var jobs := map["x" := Job("x", 0, "", 100, 10, 0, 5, 30)];
      var tickets := map[1 := Ticket(1, "x", 0, "secret", 0, "")];
      var results := [ResultIn(1, 7), ResultIn(2, 7), ResultIn(3, 7), ResultIn(4, 7), ResultIn(5, 7)];
      var sub := SubmissionIn(1, "secret", "me", 0, 12, results);
      TicketChecks(jobs, tickets, "x", sub, 10) == Ok(()) &&
      TicketChecksAsWritten(jobs, tickets, "x", sub, 10) == Err(UnboundLocal)
  {
  }

  /** A wrong token fails as a token mismatch, whatever the seed index, shape or timing. */
  lemma TokenMismatchFirst(jobs: map<string, Job>, tickets: map<int, Ticket>, j: string, sub: SubmissionIn, now: int)
    requires j in jobs && sub.ticketid in tickets && sub.token != tickets[sub.ticketid].token
    ensures TicketChecks(jobs, tickets, j, sub, now) == Err(TokenMismatch)
  {
  }

  /** With the right ticket and token, a result list of the wrong length fails as a wrong count, either way off. */
  lemma WrongCountRejected(jobs: map<string, Job>, tickets: map<int, Ticket>, j: string, sub: SubmissionIn, now: int)
    requires j in jobs && sub.ticketid in tickets && sub.token == tickets[sub.ticketid].token
    requires |sub.results| != jobs[j].targetlength - jobs[j].seedlength
    ensures TicketChecks(jobs, tickets, j, sub, now) == Err(WrongResultCount)
  {
  }

  /**
   * The seed index is compared last: a submission fails on it exactly when
   * it passes every other check and names another segment than its ticket.
   */
  lemma SeedIndexCheckedLast(jobs: map<string, Job>, tickets: map<int, Ticket>, j: string, sub: SubmissionIn, now: int)
    ensures TicketChecks(jobs, tickets, j, sub, now) == Err(WrongSeedIndex) <==>
      sub.ticketid in tickets &&
      Admissible(jobs, tickets, j, sub.(seedindex := tickets[sub.ticketid].seedindex), now) &&
      sub.seedindex != tickets[sub.ticketid].seedindex
  {
  }

  /**
   * The checks fail fast in code order (polycube_server.py:151-186): each
   * error is reported exactly when every earlier check passes and its own
   * check fails.
   */
  lemma ChecksInCodeOrder(jobs: map<string, Job>, tickets: map<int, Ticket>, j: string, sub: SubmissionIn, now: int)
    ensures TicketChecks(jobs, tickets, j, sub, now) == Err(JobNotFound) <==> j !in jobs
    ensures TicketChecks(jobs, tickets, j, sub, now) == Err(TicketNotFound) <==> j in jobs && sub.ticketid !in tickets
    ensures TicketChecks(jobs, tickets, j, sub, now) == Err(TokenMismatch) <==>
      j in jobs && sub.ticketid in tickets && sub.token != tickets[sub.ticketid].token
    ensures TicketChecks(jobs, tickets, j, sub, now) == Err(WrongResultCount) <==>
      j in jobs && sub.ticketid in tickets && sub.token == tickets[sub.ticketid].token &&
      |sub.results| != jobs[j].targetlength - jobs[j].seedlength
    ensures TicketChecks(jobs, tickets, j, sub, now) == Err(IndexOutOfRange) <==>
      j in jobs && sub.ticketid in tickets && sub.token == tickets[sub.ticketid].token &&
      jobs[j].targetlength - jobs[j].seedlength == 0 && |sub.results| == 0
    ensures TicketChecks(jobs, tickets, j, sub, now) == Err(EmptyResult) <==>
      j in jobs && sub.ticketid in tickets && sub.token == tickets[sub.ticketid].token &&
      |sub.results| == jobs[j].targetlength - jobs[j].seedlength && |sub.results| > 0 &&
      sub.results[0].resultvalue == 0
    ensures TicketChecks(jobs, tickets, j, sub, now) == Err(TooQuick) <==>
      j in jobs && sub.ticketid in tickets && sub.token == tickets[sub.ticketid].token &&
      |sub.results| == jobs[j].targetlength - jobs[j].seedlength && |sub.results| > 0 &&
      sub.results[0].resultvalue != 0 && now - tickets[sub.ticketid].issuedate < MinSeconds
    ensures TicketChecks(jobs, tickets, j, sub, now) == Err(InvalidDuration) <==>
      EarlyChecks(jobs, tickets, j, sub, now).Ok? &&
      sub.secondselapsed > now - tickets[sub.ticketid].issuedate + Slack
    ensures TicketChecks(jobs, tickets, j, sub, now) == Err(WrongSeedIndex) <==>
      EarlyChecks(jobs, tickets, j, sub, now).Ok? &&
      sub.secondselapsed <= now - tickets[sub.ticketid].issuedate + Slack &&
      sub.seedindex != tickets[sub.ticketid].seedindex
  {
  }

  /** The status of a new submission: 1 (superseded) when its segment already has a primary one, else 0 (polycube_server.py:163-169, 245-251). */
  function Classify(submissions: map<int, Submission>, j: string, idx: int): (status: int)
    ensures status == 0 || status == 1
    ensures status == 1 <==> HasPrimary(submissions, j, idx)
  {
    if HasPrimary(submissions, j, idx) then 1 else 0
  }

  /** No two primary submissions share a (job, seedindex). */
  predicate UniquePrimaries(submissions: map<int, Submission>)
  {
    forall a, b ::
      (a in submissions && b in submissions && a != b &&
       submissions[a].status == 0 && submissions[b].status == 0 &&
       submissions[a].job == submissions[b].job) ==> submissions[a].seedindex != submissions[b].seedindex
  }

  /** The submission row an accepted submission becomes, with its status classified against the table. */
  function NewSubmission(submissions: map<int, Submission>, id: int, j: string, idx: int, sub: SubmissionIn, ip: string, now: int): (s: Submission)
    ensures s.submissionid == id && s.job == j && s.seedindex == idx
    ensures s.contributor == sub.contributor && s.secondselapsed == sub.secondselapsed && s.ip == ip && s.receivedate == now
    ensures s.status == 0 <==> !HasPrimary(submissions, j, idx)
    ensures s.status == Classify(submissions, j, idx)
  {
    Submission(id, j, idx, sub.contributor, sub.secondselapsed, ip, now, Classify(submissions, j, idx))
  }

  /** Adding a classified submission keeps primaries unique. */
  lemma AppendKeepsPrimariesUnique(submissions: map<int, Submission>, id: int, j: string, idx: int, sub: SubmissionIn, ip: string, now: int)
    requires UniquePrimaries(submissions) && id !in submissions
    ensures UniquePrimaries(submissions[id := NewSubmission(submissions, id, j, idx, sub, ip, now)])
  {
  }

  /** After a submission for a segment is added, the segment is completed, whatever its status. */
  lemma AppendCompletesSegment(submissions: map<int, Submission>, id: int, j: string, idx: int, sub: SubmissionIn, ip: string, now: int)
    requires id !in submissions
    ensures HasPrimary(submissions[id := NewSubmission(submissions, id, j, idx, sub, ip, now)], j, idx)
  {
    var s := NewSubmission(submissions, id, j, idx, sub, ip, now);
    var subs' := submissions[id := s];
    if s.status == 0 {
      assert subs'[id] == s;
    } else {
      var w :| w in submissions && submissions[w].job == j && submissions[w].seedindex == idx && submissions[w].status == 0;
      assert subs'[w] == submissions[w];
    }
  }

  /** Changing a submission's status to anything but primary keeps primaries unique. */
  lemma DemoteKeepsPrimariesUnique(submissions: map<int, Submission>, id: int, status: int, contributor: string)
    requires UniquePrimaries(submissions) && id in submissions && status != 0
    ensures UniquePrimaries(submissions[id := submissions[id].(status := status, contributor := contributor)])
  {
  }

  /** The result rows, with consecutive ids from firstId, that an accepted submission `subid` owns (polycube_server.py:204-209). */
  function NewResults(subid: int, results: seq<ResultIn>, firstId: int): (r: seq<Result>)
    ensures |r| == |results|
    ensures forall k :: 0 <= k < |r| ==>
      && r[k].resultid == firstId + k && r[k].submissionid == subid
      && r[k].resultlength == results[k].resultlength && r[k].resultvalue == results[k].resultvalue
  {
    seq(|results|, k requires 0 <= k < |results| =>
      Result(firstId + k, subid, results[k].resultlength, results[k].resultvalue))
  }
}
