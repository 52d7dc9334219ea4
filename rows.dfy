/**
 * Row shapes of the five in-memory tables of the work-distribution server
 * (jobs, job segments, tickets, submissions, results), the request and
 * response bodies its handlers exchange, and the errors they report.
 */
module Rows {

  datatype Option<+T> = None | Some(value: T)

  /** A job definition as an administrator sends it to update a job (every field but its key). */
  datatype JobSpec = JobSpec(
    startdate: int,
    seedurl: string,
    seedcount: int,
    seedchunk: int,
    seedlength: int,
    targetlength: int,
    tickettimeout: int)

  /** A row of the jobs table; `job` is its primary key. */
  datatype Job = Job(
    job: string,
    startdate: int,
    seedurl: string,
    seedcount: int,
    seedchunk: int,
    seedlength: int,
    targetlength: int,
    tickettimeout: int)

  /** A row of the job segments table: one unit of work of a job. */
  datatype JobSegment = JobSegment(id: int, job: string, seedindex: int)

  /** A row of the tickets table: a lease on one segment, issued at `issuedate` (epoch seconds). */
  datatype Ticket = Ticket(ticketid: int, job: string, issuedate: int, token: string, seedindex: int, ip: string)

  /** A row of the submissions table; `status` 0 is primary, 1 is superseded. */
  datatype Submission = Submission(
    submissionid: int,
    job: string,
    seedindex: int,
    contributor: string,
    secondselapsed: int,
    ip: string,
    receivedate: int,
    status: int)

  /** A row of the results table, owned by the submission `submissionid`. */
  datatype Result = Result(resultid: int, submissionid: int, resultlength: int, resultvalue: int)

  /** One result as a worker sends it. */
  datatype ResultIn = ResultIn(resultlength: int, resultvalue: int)

  /** A submission as a worker (or an administrator) sends it. */
  datatype SubmissionIn = SubmissionIn(
    ticketid: int,
    token: string,
    contributor: string,
    seedindex: int,
    secondselapsed: int,
    results: seq<ResultIn>)

  /** What a worker receives when a ticket is opened. */
  datatype TicketView = TicketView(
    ticketid: int,
    job: string,
    token: string,
    seedindex: int,
    seedchunk: int,
    seedurl: string,
    targetlength: int)

  /** Two parallel lists: the seed index and the value of each listed result. */
  datatype ResultsView = ResultsView(seedindices: seq<int>, values: seq<int>)

  /** The public job summary; `None` stands for a SQL NULL. */
  datatype Summary = Summary(
    value: Option<int>,
    seconds: Option<int>,
    resultcount: nat,
    jobcount: Option<int>,
    targetlength: int)

  /**
   * The errors a handler reports. All but the last three are the HTTP
   * errors the handlers raise on purpose; ZeroStep, IndexOutOfRange and
   * UnboundLocal are Python exceptions that surface as a server error.
   */
  datatype Error =
    | JobNotFound
    | JobExists
    | NoTicketsToMake
    | TicketNotFound
    | TokenMismatch
    | WrongResultCount
    | EmptyResult
    | TooQuick
    | InvalidDuration
    | WrongSeedIndex
    | SubmissionNotFound
    | ZeroStep
    | IndexOutOfRange
    | UnboundLocal

  /** The HTTP status code each error is reported with. */
  function HttpStatus(e: Error): int
  {
    match e
    case JobNotFound | TicketNotFound | SubmissionNotFound => 404
    case JobExists | NoTicketsToMake => 409
    case TokenMismatch | WrongResultCount | EmptyResult | TooQuick | InvalidDuration | WrongSeedIndex => 400
    case ZeroStep | IndexOutOfRange | UnboundLocal => 500
  }

  /** The outcome of a handler: its response, or the error it reports. */
  datatype Outcome<+T> = Ok(value: T) | Err(error: Error)
}
