/**
  The job queue as the worker relies on it, and the worker's handler.

  The queue hands one job to one handler call. When a delivery fails or
  expires it goes back while its retry count is below the limit; otherwise the
  payload is copied to the dead-letter queue. Delivering, handling and settling
  are separate steps, and an expiry may fall between any two of them.
 */
module WorkerQueue {
  import opened Wrappers

  type JobId = nat

  /** `failUntil` is any number the enqueuer passes, not only a whole one. */
  datatype Payload = Payload(enqueuedAt: string, marker: string, correlationId: Option<string>, failUntil: Option<real>)

  // ---- the handler

  /** `handleFoundationHealth` throws. */
  predicate Throws(p: Payload, attempt: nat) {
    p.failUntil.Some? && attempt as real < p.failUntil.value
  }

  /** The attempt the handler derives; a missing count and a zero count both read as the first try. */
  function AttemptOf(retryCount: Option<nat>): nat {
    if retryCount.Some? && retryCount.value != 0 then retryCount.value + 1 else 1
  }

  predicate PredictsRetry(attempt: nat, limit: nat) {
    attempt <= limit
  }

  datatype Event = JobCompleted | JobFailedWillRetry | JobDead

  datatype Line = Line(event: Event, job: JobId, attempt: nat, correlationId: Option<string>, marker: string)

  /** The line the handler logs for an attempt. */
  function LineFor(j: JobId, p: Payload, attempt: nat, limit: nat): Line {
    Line(if !Throws(p, attempt) then JobCompleted
         else if PredictsRetry(attempt, limit) then JobFailedWillRetry
         else JobDead,
         j, attempt, p.correlationId, p.marker)
  }

  class Worker {
    const limit: nat
    var log: seq<Line>

    constructor (limit: nat)
      ensures this.limit == limit && log == []
    {
      this.limit := limit;
      log := [];
    }

    /** The handler passed to `boss.work`; it logs, and rethrows what the job throws. */
    method Handle(j: JobId, data: Payload, retryCount: Option<nat>) returns (threw: bool)
      modifies this
      ensures log == old(log) + [LineFor(j, data, AttemptOf(retryCount), limit)]
      ensures threw == Throws(data, AttemptOf(retryCount))
      ensures var n := if retryCount.Some? then retryCount.value + 1 else 1;
              && (threw <==> data.failUntil.Some? && n as real < data.failUntil.value)
              && log[|old(log)|]
                 == Line(if !threw then JobCompleted else if n <= limit then JobFailedWillRetry else JobDead,
                         j, n, data.correlationId, data.marker)
    {
      var attempt := 1;
      if retryCount.Some? && retryCount.value != 0 {
        attempt := retryCount.value + 1;
      }
      if !Throws(data, attempt) {
        log := log + [Line(JobCompleted, j, attempt, data.correlationId, data.marker)];
        return false;
      }
      var willRetry := attempt <= limit;
      if willRetry {
        log := log + [Line(JobFailedWillRetry, j, attempt, data.correlationId, data.marker)];
      } else {
        log := log + [Line(JobDead, j, attempt, data.correlationId, data.marker)];
      }
      return true;
    }
  }

  // ---- the queue

  datatype Phase = Fetched | Handled(threw: bool)

  datatype Job = Job(payload: Payload, retryCount: nat)

  datatype Delivery = Delivery(job: Job, phase: Phase)

  datatype State = State(
    limit: nat,
    waiting: map<JobId, Job>,
    active: map<JobId, Delivery>,
    completed: map<JobId, Job>,
    failed: map<JobId, Job>,
    deadLetter: seq<Payload>,
    log: seq<Line>)

  function Init(limit: nat): State {
    State(limit, map[], map[], map[], map[], [], [])
  }

  /** `delivered` says whether the job handed over carries its retry count. */
  datatype Label =
    | Send(job: JobId, payload: Payload)
    | Fetch(job: JobId)
    | Handle(job: JobId, delivered: bool)
    | Settle(job: JobId)
    | Expire(job: JobId)

  predicate Known(s: State, j: JobId) {
    j in s.waiting || j in s.active || j in s.completed || j in s.failed
  }

  predicate Enabled(s: State, l: Label) {
    match l
    case Send(j, _) => !Known(s, j)
    case Fetch(j) => j in s.waiting
    case Handle(j, _) => j in s.active && s.active[j].phase == Fetched
    case Settle(j) => j in s.active && s.active[j].phase.Handled?
    case Expire(j) => j in s.active
  }

  predicate QueueRetries(retryCount: nat, limit: nat) {
    retryCount < limit
  }

  /** A delivery that failed or expired. */
  function FailDelivery(s: State, j: JobId): State
    requires j in s.active
  {
    var job := s.active[j].job;
    if QueueRetries(job.retryCount, s.limit) then
      s.(active := s.active - {j}, waiting := s.waiting[j := job.(retryCount := job.retryCount + 1)])
    else
      s.(active := s.active - {j}, failed := s.failed[j := job], deadLetter := s.deadLetter + [job.payload])
  }

  function Step(s: State, l: Label): State
    requires Enabled(s, l)
  {
    match l
    case Send(j, p) => s.(waiting := s.waiting[j := Job(p, 0)])
    case Fetch(j) => s.(waiting := s.waiting - {j}, active := s.active[j := Delivery(s.waiting[j], Fetched)])
    case Handle(j, delivered) =>
      var job := s.active[j].job;
      var attempt := AttemptOf(if delivered then Some(job.retryCount) else None);
      s.(active := s.active[j := Delivery(job, Handled(Throws(job.payload, attempt)))],
         log := s.log + [LineFor(j, job.payload, attempt, s.limit)])
    case Settle(j) =>
      if s.active[j].phase.threw then FailDelivery(s, j)
      else s.(active := s.active - {j}, completed := s.completed[j := s.active[j].job])
    case Expire(j) => FailDelivery(s, j)
  }

  predicate Run(limit: nat, trace: seq<Label>)
    decreases |trace|, 0
  {
    trace == [] || (Run(limit, trace[..|trace| - 1]) && Enabled(After(limit, trace[..|trace| - 1]), trace[|trace| - 1]))
  }

  function After(limit: nat, trace: seq<Label>): State
    requires Run(limit, trace)
    decreases |trace|, 1
  {
    if trace == [] then Init(limit) else Step(After(limit, trace[..|trace| - 1]), trace[|trace| - 1])
  }

  // ---- what an observer of the run counts, job by job

  /** What was sent, if anything. */
  function Sent(trace: seq<Label>, j: JobId): Option<Payload> {
    if trace == [] then None
    else
      var l := trace[|trace| - 1];
      if l.Send? && l.job == j then Some(l.payload) else Sent(trace[..|trace| - 1], j)
  }

  /** How often the job was delivered. */
  function Deliveries(trace: seq<Label>, j: JobId): nat {
    if trace == [] then 0
    else Deliveries(trace[..|trace| - 1], j) + if trace[|trace| - 1] == Fetch(j) then 1 else 0
  }

  /** The numbers of the deliveries in which the handler got to run. */
  function Runs(trace: seq<Label>, j: JobId): seq<nat> {
    if trace == [] then []
    else
      var before, l := trace[..|trace| - 1], trace[|trace| - 1];
      Runs(before, j) + if l.Handle? && l.job == j then [Deliveries(before, j)] else []
  }

  function StepsOf(trace: seq<Label>, j: JobId): nat {
    if trace == [] then 0
    else StepsOf(trace[..|trace| - 1], j) + if trace[|trace| - 1].job == j then 1 else 0
  }

  function LogOf(log: seq<Line>, j: JobId): seq<Line> {
    if log == [] then []
    else LogOf(log[..|log| - 1], j) + if log[|log| - 1].job == j then [log[|log| - 1]] else []
  }

  /** Whether the handler was told the retry count the last time it ran the job. */
  predicate LastCounted(trace: seq<Label>, j: JobId) {
    trace != []
    && var l := trace[|trace| - 1];
       if l.Handle? && l.job == j then l.delivered else LastCounted(trace[..|trace| - 1], j)
  }

  predicate LoggedDead(log: seq<Line>, j: JobId) {
    exists line :: line in log && line.job == j && line.event == JobDead
  }

  predicate AllDelivered(trace: seq<Label>) {
    forall l :: l in trace && l.Handle? ==> l.delivered
  }

  predicate NoneDelivered(trace: seq<Label>) {
    forall l :: l in trace && l.Handle? ==> !l.delivered
  }

  predicate NeverExpires(trace: seq<Label>, j: JobId) {
    Expire(j) !in trace
  }
}
