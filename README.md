# Polycube work-distribution server: a Dafny model

This project models the work-distribution engine of a volunteer-computing
server for enumerating polycubes. An administrator defines a **job**. The job
is cut into **segments** that start at `0, seedchunk, 2*seedchunk, …` below
`seedcount`. A worker asks for a **ticket**, which is a lease on the least
segment that is neither leased nor completed. The worker then submits its
**results** against that ticket. The server checks the submission, stores it
as **primary** (status 0) or **superseded** (status 1), and adds up the
primary results into a job summary.

The model keeps five in-memory tables (jobs, job segments, tickets,
submissions, results), with their row shapes taken from `model.py` and
`schema.py`. It has one module per component:

- `Rows` (rows.dfy): the row, request and response shapes, and the errors the handlers report.
- `Segments` (segments.dfy): Python's `range` with a non-zero step, the integer ceiling division, and the segment table helpers.
- `Leases` (leases.dfy): ticket liveness, segment eligibility, choosing the least eligible segment, and lease exclusivity.
- `Admission` (admission.dfy): the fail-fast checks of a ticket-backed submission, the status rule, and uniqueness of primaries.
- `Aggregate` (aggregate.dfy): the join of results with primary submissions, the results listing ordered by seed index, and the summary.
- `Server` (server.dfy): the class `Store`, whose methods are the HTTP handlers.

The clock (`now`, in whole seconds), the fresh ticket token and the caller's
address are method parameters. Each handler is one atomic step. A failed
check leaves the store unchanged (`unchanged(this)`).

Invariants:

- **At most one live ticket per (job, seedindex)** (`LeaseExclusive`). A ticket is live while `now - issuedate < tickettimeout`.
  - `OpenTicket` and `SubmitTicket` preserve it at their own `now`. `UpdateJob` and `DeleteJob` preserve it at every `now`. Time passing preserves it (`ExclusiveLater`). So it holds along any run with a non-decreasing clock in which `create_job` never reuses a key that tickets still name.
  - It relies on `update_job` never changing `tickettimeout`. The typo `tickettimout` at polycube_server.py:83 guarantees that.
  - `delete_job` leaves the job's tickets behind. If the job is then re-created with a longer timeout, two expired tickets for one segment can both become live again (`RecreatedJobRevivesLeases`). `CreateJob` therefore promises exclusivity only when no ticket names the new job, as recorded under "Left out".
- **Every segment and result points at an existing job or submission, and their ids are unique** (`Store.Valid`). Tickets and submissions may name deleted jobs, as `delete_job` leaves them.
- **At most one primary submission per (job, seedindex)** (`UniquePrimaries`). Both submission paths preserve it. `update_submission` preserves it only when it sets a status other than 0.

Behaviours of the code that a reader might not expect:

- The seed index check comes last, after the timing checks (polycube_server.py:185).
- `update_job` does not recompute segments.
- With no primary result at the target length, the summary's `jobcount` is NULL, because `MAX` runs over zero rows. It is not the segment count.
- The duration rule at :182 is modelled as intended. See "## Findings".

## Model

| member | source | states |
|---|---|---|
| Segments.RangeFrom | polycube_server.py:55 | `range(start, stop, step)` for a non-zero step: ceil((stop-start)/step) elements, or none; element k is start + k*step; all elements lie between start and stop; strictly increasing when the step is positive |
| Segments.Range | polycube_server.py:55 | `range(0, seedcount, seedchunk)`: ceil(seedcount/seedchunk) elements, or none; element k is k*seedchunk |
| Segments.DerivedSegments | polycube_server.py:55 | for a positive chunk, the segment indices are exactly the multiples of seedchunk in [0, seedcount): strictly increasing, starting at 0, ceil(seedcount/seedchunk) of them |
| Segments.CeilDivIsCeiling | polycube_server.py:338 | the integer `CEILING(a / b)`: the least q with q*b >= a for a positive b, and correspondingly for a negative b |
| Segments.SegmentIndices | polycube_server.py:111-113 | the seed indices of the segment rows of one job: x is listed iff some row of that job has seed index x |
| Segments.NewSegments | polycube_server.py:55-56 | one row per index; row k has job j, the k-th index and the id firstId + k |
| Segments.NewSegmentsIndices | polycube_server.py:55-56 | the rows `create_job` inserts for a job have exactly the derived indices, in order |
| Segments.AddedSegmentIndices | polycube_server.py:55-56 | after `create_job` appends the rows of a job that had none, the job's segment indices are exactly the derived range, in order |
| Segments.WithoutJob | polycube_server.py:97 | after deleting a job's segments, a row remains iff it was there and belongs to another job; increasing ids stay increasing |
| Leases.LeastEligible | polycube_server.py:110-118 | None iff no segment index is eligible (no ticket issued after the expiration, no status-0 submission); otherwise an eligible index no larger than any other eligible index |
| Leases.LiveTicketBlocks | polycube_server.py:114-115 | a segment with a ticket issued after the expiration is never chosen |
| Leases.CompletedBlocks | polycube_server.py:116-117 | a segment with a status-0 submission of the job is never chosen |
| Leases.StaleSegmentReoffered | polycube_server.py:110-118 | a segment whose tickets have all expired, and that has no primary submission, makes the selection succeed with it or a smaller index |
| Leases.FreshJobOffersZero | polycube_server.py:110-118 | on a new job with nothing leased or submitted, the first ticket is for segment 0 |
| Leases.LiveTicketFor | polycube_server.py:115 | the first subquery: some ticket of job j for segment idx was issued after the expiration |
| Leases.HasPrimary | polycube_server.py:117 | the second subquery: some status-0 submission of job j is for segment idx |
| Leases.LiveWindow | polycube_server.py:115-118 | a ticket is live exactly while fewer than tickettimeout seconds have passed since its issue date |
| Leases.ExclusiveLater | polycube_server.py:115-118 | lease exclusivity at one time implies it at every later time |
| Leases.IssueKeepsExclusive | polycube_server.py:125-133 | adding a ticket for a segment with no live ticket keeps lease exclusivity |
| Leases.RemoveKeepsExclusive | polycube_server.py:202 | removing a ticket keeps lease exclusivity |
| Leases.JobChangeKeepsExclusive | polycube_server.py:77-83 | a change of the jobs table under which no ticket becomes live keeps lease exclusivity |
| Leases.AddJobKeepsExclusive | polycube_server.py:37-59 | adding a job that no ticket names keeps lease exclusivity at every time |
| Leases.TimeoutsKeptKeepExclusive | polycube_server.py:77-101 | removing jobs, or changing them without touching a ticket timeout, keeps lease exclusivity at every time |
| Leases.RecreatedJobRevivesLeases | polycube_server.py:91-101 | deleting a job and re-creating it with a longer timeout brings two expired tickets for one segment back to life |
| Admission.TicketChecks | polycube_server.py:151-186 | the checks accept iff every admission condition holds (the order-free predicate `Admissible`); an InvalidDuration or WrongSeedIndex failure means that condition is violated |
| Admission.EarlyChecks | polycube_server.py:151-180 | the checks up to the too-quick one pass iff the job and ticket exist, the token matches, the result count is right and non-zero, the first value is non-zero and at least 10 seconds have passed |
| Admission.ChecksInCodeOrder | polycube_server.py:151-186 | each error is reported iff every check before it in code order passes and its own fails: job, ticket, token, count, empty list, zero first value, too quick, duration, seed index |
| Admission.TokenMismatchFirst | polycube_server.py:158-159 | with an existing job and ticket, a wrong token fails as TokenMismatch, whatever the seed index, result shape or timing |
| Admission.WrongCountRejected | polycube_server.py:171-172 | with the right token, a result list of the wrong length, too long or too short, fails as WrongResultCount |
| Admission.SeedIndexCheckedLast | polycube_server.py:185-186 | a submission fails on its seed index iff it passes every other check and names another segment than its ticket |
| Admission.TicketChecksAsWritten | polycube_server.py:151-183 | the checks as written never accept; they fail with an unbound local exactly when every check before :182 passes, and otherwise agree with the intended checks |
| Admission.AsWrittenAcceptsNothing | polycube_server.py:177-183 | the checks as written accept no submission; an otherwise admissible one fails with an unbound local variable |
| Admission.AsWrittenAgreesBefore | polycube_server.py:151-180 | the written and the intended checks agree on every submission that fails before the duration rule |
| Admission.IntendedAcceptsPlausibleSubmission | polycube_server.py:171-186 | a plausible submission is accepted by the intended checks and rejected by the written ones |
| Admission.Classify | polycube_server.py:163-169 | the new status is 1 iff the segment already has a status-0 submission of the job, otherwise 0 |
| Admission.NewSubmission | polycube_server.py:188-196 | the stored submission has the given id, job, segment, contributor, compute time, address and receive time, and is primary iff its segment had no primary submission |
| Admission.AppendKeepsPrimariesUnique | polycube_server.py:188-198 | adding a submission classified this way keeps at most one primary per (job, seedindex) |
| Admission.AppendCompletesSegment | polycube_server.py:245-263 | after a submission is added for a segment, the segment has a primary submission |
| Admission.DemoteKeepsPrimariesUnique | polycube_server.py:292-293 | setting a status other than 0 keeps primaries unique |
| Admission.NewResults | polycube_server.py:204-209 | one result row per given result; row k has id firstId + k, belongs to the submission and copies the k-th result's length and value |
| Aggregate.Joined | polycube_server.py:307-315 | the join is drawn only from results of the given length of a status-0 submission of the job, and holds a row for each of them |
| Aggregate.JoinIndices | polycube_server.py:307-315 | the positions of the matching results, strictly increasing, each matching, and every matching position included |
| Aggregate.JoinedIndexed | polycube_server.py:307-315 | the join has exactly one row per matching result, in table order: row i is the row of the i-th matching result |
| Aggregate.SupersededJoinsNothing | polycube_server.py:310-314 | adding a superseded submission and its results changes no join, for any job and length |
| Aggregate.Insert | polycube_server.py:315 | inserting into a sorted list keeps it sorted and adds exactly that row |
| Aggregate.SortBySeed | polycube_server.py:315 | the `ORDER BY seedindex`: sorted by seed index and a permutation of its input |
| Aggregate.SplitRows | polycube_server.py:317-322 | two lists as long as the rows; entry k holds row k's seed index and value |
| Aggregate.ListedRows | polycube_server.py:307-324 | the listed rows are ordered by seed index; each comes from a result of length l of a primary submission of the job, and every such result is listed |
| Aggregate.SumValues | polycube_server.py:335 | `SUM(rs.resultvalue)` over the joined rows |
| Aggregate.SumSeconds | polycube_server.py:336 | `SUM(sub.secondselapsed)` over the joined rows |
| Aggregate.Summarize | polycube_server.py:333-348 | resultcount is the number of matching results; value and seconds are the sums over the joined rows, or NULL when there are none; jobcount is ceil(seedcount/seedchunk), or NULL when there are no rows or the chunk is 0 |
| Aggregate.JobCountIsSegmentCount | polycube_server.py:338 | for a positive seedchunk and a non-negative seedcount, whenever there is a result to count, the summary's jobcount equals the number of segments `create_job` would derive from the job's current seedcount and seedchunk; after `update_job` changes them, the segment rows still follow the old ones |
| Aggregate.SupersededNotSummarized | polycube_server.py:333-346 | a superseded submission and its results change no summary |
| Server.Amended | polycube_server.py:77-83 | an updated job keeps its key and its ticket timeout, and takes the other six fields from the update |
| Server.OpenChoice | polycube_server.py:110-118 | the selected segment is one of the job's segment rows, has no live ticket and no primary submission, and is no larger than any other such segment; None iff every segment of the job is leased or completed |
| Server.AddedSegmentsValid | polycube_server.py:55-56 | the segments `create_job` adds belong to the new job, take the consecutive ids from the counter, which lie above every existing id, and keep ids unique |
| Server.RemovedSegmentsValid | polycube_server.py:97 | the segments left after `delete_job` still belong to existing jobs and keep unique ids |
| Server.AddedResultsValid | polycube_server.py:204-209 | the results an accepted submission adds belong to it, take the consecutive ids from the counter, which lie above every existing id, and keep ids unique |
| Server.Store.constructor | model.py:7-51 | the store starts with five empty tables |
| Server.Store.GetJobs | polycube_server.py:31-34 | every job, and only those |
| Server.Store.GetJob | polycube_server.py:62-68 | the job row, or JobNotFound |
| Server.Store.CreateJob | polycube_server.py:37-59 | an existing key fails with JobExists and a zero chunk with ZeroStep, both leaving the store unchanged; otherwise adds the job and its derived segments (the job's segment indices become exactly the derived range) and changes nothing else; keeps lease exclusivity when no ticket names the job |
| Server.Store.UpdateJob | polycube_server.py:71-88 | JobNotFound with the store unchanged, or overwrites the six fields of that job only; segments, tickets, submissions and results unchanged; keeps lease exclusivity |
| Server.Store.DeleteJob | polycube_server.py:91-101 | JobNotFound with the store unchanged, or removes the job and exactly its segments; tickets, submissions and results unchanged; keeps lease exclusivity |
| Server.Store.OpenTicket | polycube_server.py:104-146 | JobNotFound or NoTicketsToMake with the store unchanged, or adds exactly one ticket for the least eligible segment (issued now, with the given token and address) and returns its id, token and seed index with the job's seedchunk, seedurl and targetlength; keeps lease exclusivity at now |
| Server.Store.Append | polycube_server.py:188-212 | the insertion both submission paths share: one submission classified against the table, with all given results and fresh ids, and nothing else changed; the segment is completed afterwards; keeps primaries unique; a superseded one changes no join |
| Server.Store.SubmitTicket | polycube_server.py:149-214 | the outcome is the fail-fast checks' outcome; a rejection changes nothing; an acceptance adds one classified submission for the ticket's segment with all given results and deletes the ticket; the segment is completed afterwards; keeps primaries unique and lease exclusivity; a superseded one changes no join |
| Server.Store.AddSubmission | polycube_server.py:239-277 | JobNotFound with the store unchanged, or adds one classified submission with all given results and leaves tickets alone; keeps primaries unique; a superseded one changes no join |
| Server.Store.ListSubmissions | polycube_server.py:217-223 | the submissions of that job and seed index (0 unless given), and only those |
| Server.Store.GetSubmission | polycube_server.py:226-236 | JobNotFound, SubmissionNotFound, or the submission with that id, whatever its job |
| Server.Store.UpdateSubmission | polycube_server.py:282-298 | JobNotFound or SubmissionNotFound with the store unchanged, or sets the status and contributor of that submission only, whatever its job; a status other than 0 keeps primaries unique |
| Server.Store.GetResults | polycube_server.py:301-324 | JobNotFound, or two lists that are the seed indices and values of a seed-sorted permutation of the join, entry by entry, with one entry per matching result; each pair comes from a result of length l of a primary submission of the job, and every such result appears |
| Server.ListingCounts | polycube_server.py:315-322 | the two lists split from the seed-ordered join hold one entry per matching result and project a seed-sorted permutation of the join |
| Server.Store.GetSummary | polycube_server.py:327-348 | JobNotFound, or the summary of that job |

## Left out

- Transport and authentication are left out: FastAPI routing, the API-key check (polycube_server.py:13-28) and HTTP plumbing. `HttpStatus` only records which status each error carries.
- Persistence mechanics are left out: sessions, `commit`, `refresh`. Each handler is one atomic step. A crash between the two commits of `submit_ticket` (:199, :212) is not modelled.
- Concurrency is left out, including the read-then-insert race of `open_ticket`. The model is sequential.
- The clock, `secrets.token_hex()` and the client address are parameters. `open_ticket` reads the clock twice (:118, :127); the model uses one `now` for both.
- Floating point is left out. The float `elapsed` (:177) is the integer `now - issuedate`. The float `CEILING(seedcount * 1.0 / seedchunk)` (:338) is the exact integer ceiling.
- Column widths are left out: 32- and 64-bit integer overflow, and string length limits.
- Pydantic response validation is left out, for example `summary_schema` refusing NULL integers.
- Among results with equal seed indices, SQL leaves the row order unspecified. The model keeps table order (a stable sort).
- Auto-increment keys come from counters that never reuse a deleted id.
- When `update_job` has set the chunk to 0, the summary's job count is taken as NULL, as SQLite gives for a division by zero. An engine that raises instead would fail the request.
- `add_submission` returns the submission row without its nested results list. The results are in the results table.
- Server.Store.CreateJob: promises lease exclusivity only when no ticket names the new job. Tickets left behind by `delete_job` can break it, as `RecreatedJobRevivesLeases` shows.
- Server.Store.UpdateSubmission: promises unique primaries only for a status other than 0. The handler can make a second submission of a segment primary.
- The `session` and `database` modules are not part of this model.

## Findings

| source | as written | input that shows it | evidently intended | confidence | as-written member | corrected member |
|---|---|---|---|---|---|---|
| polycube_server.py:182 | `if (elapsed + 3) < results.secondselapsed` names the local `results`, which is bound only at :204, so every submission that passes the too-quick check raises UnboundLocalError (HTTP 500) and none is ever stored | job x with seedlength 0 and targetlength 5; ticket 1 issued at 0 for segment 0; submitted at 10 with the right token, 5 non-zero results and secondselapsed 12 | reject when `elapsed + 3 < sub.secondselapsed` | not executed | Admission.AsWrittenAcceptsNothing | Admission.TicketChecks |
