/**
  What every run of the queue and the worker keeps, and what the worker's log
  says about it.
 */
module WorkerSafety {
  import opened Wrappers
  import opened WorkerQueue

  // ---- conservation

  /** An accepted job is in exactly one place, with the payload it was sent with, and within its retries. */
  predicate Placed(s: State, sent: Option<Payload>, j: JobId) {
    var w, a, c, f := j in s.waiting, j in s.active, j in s.completed, j in s.failed;
    && !(w && a) && !(w && c) && !(w && f) && !(a && c) && !(a && f) && !(c && f)
    && ((w || a || c || f) <==> sent.Some?)
    && (w ==> s.waiting[j].payload == sent.value && s.waiting[j].retryCount <= s.limit)
    && (a ==> s.active[j].job.payload == sent.value && s.active[j].job.retryCount <= s.limit)
    && (c ==> s.completed[j].payload == sent.value && s.completed[j].retryCount <= s.limit)
    && (f ==> s.failed[j].payload == sent.value && s.failed[j].retryCount == s.limit)
  }

  /** The delivery count the queue keeps is the true one. */
  predicate Counted(s: State, deliveries: nat, j: JobId) {
    && (j in s.waiting ==> deliveries == s.waiting[j].retryCount)
    && (j in s.active ==> deliveries == s.active[j].job.retryCount + 1)
    && (j in s.completed ==> deliveries == s.completed[j].retryCount + 1)
    && (j in s.failed ==> deliveries == s.failed[j].retryCount + 1)
    && (!Known(s, j) ==> deliveries == 0)
  }

  lemma OtherJobsUntouched(s: State, l: Label, j: JobId)
    requires Enabled(s, l) && l.job != j
    ensures var t := Step(s, l);
            && (j in t.waiting <==> j in s.waiting) && (j in s.waiting ==> t.waiting[j] == s.waiting[j])
            && (j in t.active <==> j in s.active) && (j in s.active ==> t.active[j] == s.active[j])
            && (j in t.completed <==> j in s.completed) && (j in s.completed ==> t.completed[j] == s.completed[j])
            && (j in t.failed <==> j in s.failed) && (j in s.failed ==> t.failed[j] == s.failed[j])
  {
  }

  lemma StepConserves(s: State, l: Label, sent: Option<Payload>, deliveries: nat)
    requires Enabled(s, l) && Placed(s, sent, l.job) && Counted(s, deliveries, l.job)
    ensures Placed(Step(s, l), if l.Send? then Some(l.payload) else sent, l.job)
    ensures Counted(Step(s, l), if l.Fetch? then deliveries + 1 else deliveries, l.job)
  {
    match l {
      case Send(_, _) =>
      case Fetch(_) =>
      case Handle(_, _) =>
      case Settle(_) =>
      case Expire(_) =>
    }
  }

  lemma {:induction false} JobsAreConserved(limit: nat, trace: seq<Label>, j: JobId)
    requires Run(limit, trace)
    ensures After(limit, trace).limit == limit
    ensures Placed(After(limit, trace), Sent(trace, j), j)
    ensures Counted(After(limit, trace), Deliveries(trace, j), j)
  {
    if trace != [] {
      var before, l := trace[..|trace| - 1], trace[|trace| - 1];
      JobsAreConserved(limit, before, j);
      if l.job == j {
        StepConserves(After(limit, before), l, Sent(before, j), Deliveries(before, j));
      } else {
        OtherJobsUntouched(After(limit, before), l, j);
      }
    }
  }

  /** The dead-letter queue holds one copy of the payload of each failed job, and nothing else. */
  lemma {:induction false} DeadLettersAreTheFailedJobs(limit: nat, trace: seq<Label>) returns (ids: seq<JobId>)
    requires Run(limit, trace)
    ensures var s := After(limit, trace);
            && (forall i, k :: 0 <= i < k < |ids| ==> ids[i] != ids[k])
            && (forall j :: j in ids <==> j in s.failed)
            && |ids| == |s.deadLetter|
            && (forall i :: 0 <= i < |ids| ==> s.deadLetter[i] == s.failed[ids[i]].payload)
  {
    ids := [];
    if trace != [] {
      var before, l := trace[..|trace| - 1], trace[|trace| - 1];
      ids := DeadLettersAreTheFailedJobs(limit, before);
      JobsAreConserved(limit, before, l.job);
      if l.job in After(limit, trace).failed && l.job !in After(limit, before).failed {
        ids := ids + [l.job];
      }
    }
  }

  // ---- progress

  /** How many more steps the job can take. */
  function Remaining(s: State, j: JobId): nat {
    if j in s.waiting && s.waiting[j].retryCount <= s.limit then 3 * (s.limit - s.waiting[j].retryCount) + 3
    else if j in s.active && s.active[j].job.retryCount <= s.limit then
      3 * (s.limit - s.active[j].job.retryCount) + if s.active[j].phase == Fetched then 2 else 1
    else 0
  }

  lemma StepUsesUp(s: State, l: Label, sent: Option<Payload>, j: JobId)
    requires Enabled(s, l) && Placed(s, sent, j)
    ensures l.job == j && !l.Send? ==> Remaining(Step(s, l), j) < Remaining(s, j)
    ensures l == Send(j, if l.Send? then l.payload else Payload("", "", None, None)) ==>
              Remaining(Step(s, l), j) == 3 * (s.limit + 1)
    ensures l.job != j ==> Remaining(Step(s, l), j) == Remaining(s, j)
  {
    if l.job != j {
      OtherJobsUntouched(s, l, j);
    }
  }

  lemma {:induction false} StepsAreBounded(limit: nat, trace: seq<Label>, j: JobId)
    requires Run(limit, trace)
    ensures if Sent(trace, j).Some? then StepsOf(trace, j) + Remaining(After(limit, trace), j) <= 1 + 3 * (limit + 1)
            else StepsOf(trace, j) == 0
  {
    if trace != [] {
      var before, l := trace[..|trace| - 1], trace[|trace| - 1];
      StepsAreBounded(limit, before, j);
      JobsAreConserved(limit, before, j);
      StepUsesUp(After(limit, before), l, Sent(before, j), j);
    }
  }

  /**
    Each job takes at most 3 * (limit + 1) steps after it was sent, is
    delivered at most limit + 1 times, and while it is neither completed nor
    dead it has a step to take. So a fair run settles every job.
   */
  lemma EveryJobSettles(limit: nat, trace: seq<Label>, j: JobId)
    requires Run(limit, trace)
    ensures Deliveries(trace, j) <= limit + 1
    ensures StepsOf(trace, j) <= 1 + 3 * (limit + 1)
    ensures Sent(trace, j).Some? && j !in After(limit, trace).completed && j !in After(limit, trace).failed ==>
              && StepsOf(trace, j) < 1 + 3 * (limit + 1)
              && exists l :: Enabled(After(limit, trace), l) && l.job == j && !l.Expire?
  {
    JobsAreConserved(limit, trace, j);
    StepsAreBounded(limit, trace, j);
    var s := After(limit, trace);
    if j in s.waiting {
      assert Enabled(s, Fetch(j));
    } else if j in s.active {
      assert Enabled(s, Handle(j, true)) || Enabled(s, Settle(j));
    }
  }

  // ---- the handler's prediction

  /**
    For a job that throws, what the handler predicts is what the queue decides
    if and only if the retry count was delivered, or the job has retries left,
    or there are none at all.
   */
  lemma PredictionAgreesIff(retryCount: nat, delivered: bool, limit: nat)
    requires retryCount <= limit
    ensures PredictsRetry(AttemptOf(if delivered then Some(retryCount) else None), limit)
         == QueueRetries(retryCount, limit)
       <==> delivered || retryCount < limit || limit == 0
  {
  }

  /** The first attempt that does not throw: the least one that reaches `failUntil`, if that is given at all. */
  function FirstSuccess(p: Payload): (k: nat)
    ensures k >= 1 && !Throws(p, k)
    ensures forall a: nat :: 1 <= a < k ==> Throws(p, a)
    ensures p.failUntil.None? ==> k == 1
    ensures p.failUntil.Some? ==> k as real >= p.failUntil.value && (k == 1 || (k - 1) as real < p.failUntil.value)
  {
    if p.failUntil.None? || p.failUntil.value <= 1.0 then 1
    else
      var f := p.failUntil.value;
      var floor := f.Floor;
      if floor as real == f then floor else floor + 1
  }

  /** Every attempt before it throws, and no attempt from it on does. */
  lemma ThrowsIffBeforeFirstSuccess(p: Payload, a: nat)
    requires a >= 1
    ensures Throws(p, a) <==> a < FirstSuccess(p)
  {
    if a >= FirstSuccess(p) {
      assert a as real >= FirstSuccess(p) as real;
    }
  }

  /** The line of attempt `n` of a job that first succeeds at `k`. */
  predicate TrueLine(line: Line, j: JobId, p: Payload, n: nat, k: nat, limit: nat) {
    && line.job == j && line.attempt == n && line.correlationId == p.correlationId && line.marker == p.marker
    && (n >= k ==> line.event == JobCompleted)
    && (n < k && n <= limit ==> line.event == JobFailedWillRetry)
    && (n < k && n > limit ==> line.event == JobDead)
  }

  function LinesFor(j: JobId, p: Payload, runs: seq<nat>, limit: nat): seq<Line> {
    seq(|runs|, i requires 0 <= i < |runs| => LineFor(j, p, runs[i], limit))
  }

  predicate Increasing(runs: seq<nat>) {
    forall i, k :: 0 <= i < k < |runs| ==> runs[i] < runs[k]
  }

  lemma {:induction false} LogOfAppend(log: seq<Line>, line: Line, j: JobId)
    ensures LogOf(log + [line], j) == LogOf(log, j) + if line.job == j then [line] else []
  {
    assert (log + [line])[..|log|] == log;
  }

  /** The runs so far, and whether the delivery under way is already among them. */
  predicate Told(s: State, runs: seq<nat>, deliveries: nat, j: JobId) {
    && Increasing(runs)
    && (forall n :: n in runs ==> 1 <= n <= deliveries)
    && (deliveries == 0 ==> runs == [])
    && (j in s.active && s.active[j].phase == Fetched ==> deliveries !in runs)
  }

  lemma StepTells(s: State, l: Label, runs: seq<nat>, deliveries: nat)
    requires Enabled(s, l) && Counted(s, deliveries, l.job) && Told(s, runs, deliveries, l.job)
    ensures Told(Step(s, l), if l.Handle? then runs + [deliveries] else runs,
                 if l.Fetch? then deliveries + 1 else deliveries, l.job)
  {
    assert forall i :: 0 <= i < |runs| ==> runs[i] in runs;
  }

  /** The log of a job is the lines of its runs. */
  predicate LogIs(s: State, sent: Option<Payload>, runs: seq<nat>, j: JobId) {
    match sent
    case Some(p) => LogOf(s.log, j) == LinesFor(j, p, runs, s.limit)
    case None => LogOf(s.log, j) == [] && runs == []
  }

  lemma OwnStepLogs(s: State, l: Label, sent: Option<Payload>, runs: seq<nat>, deliveries: nat)
    requires Enabled(s, l) && (l.Handle? ==> l.delivered)
    requires Placed(s, sent, l.job) && Counted(s, deliveries, l.job) && LogIs(s, sent, runs, l.job)
    ensures LogIs(Step(s, l), if l.Send? then Some(l.payload) else sent,
                  if l.Handle? then runs + [deliveries] else runs, l.job)
  {
    match l {
      case Send(j, p) => assert LinesFor(j, p, [], s.limit) == [];
      case Handle(j, _) =>
        var line := LineFor(j, sent.value, deliveries, s.limit);
        LogOfAppend(s.log, line, j);
        assert LinesFor(j, sent.value, runs + [deliveries], s.limit) == LinesFor(j, sent.value, runs, s.limit) + [line];
      case _ =>
    }
  }

  lemma OtherStepLogs(s: State, l: Label, j: JobId)
    requires Enabled(s, l) && l.job != j
    ensures LogOf(Step(s, l).log, j) == LogOf(s.log, j) && Step(s, l).limit == s.limit
  {
    if l.Handle? {
      LogOfAppend(s.log, Step(s, l).log[|s.log|], j);
    }
  }

  lemma {:induction false} RunsAreTold(limit: nat, trace: seq<Label>, j: JobId)
    requires Run(limit, trace)
    ensures Told(After(limit, trace), Runs(trace, j), Deliveries(trace, j), j)
  {
    if trace != [] {
      var before, l := trace[..|trace| - 1], trace[|trace| - 1];
      RunsAreTold(limit, before, j);
      JobsAreConserved(limit, before, j);
      if l.job == j {
        StepTells(After(limit, before), l, Runs(before, j), Deliveries(before, j));
      } else {
        OtherJobsUntouched(After(limit, before), l, j);
      }
    }
  }

  lemma PrefixLabels(trace: seq<Label>, j: JobId)
    requires trace != []
    ensures var before, l := trace[..|trace| - 1], trace[|trace| - 1];
            && (AllDelivered(trace) ==> AllDelivered(before) && (l.Handle? ==> l.delivered))
            && (NeverExpires(trace, j) ==> NeverExpires(before, j) && l != Expire(j))
  {
    assert trace[|trace| - 1] in trace;
    assert forall m :: m in trace[..|trace| - 1] ==> m in trace;
  }

  lemma {:induction false} LogIsTheRuns(limit: nat, trace: seq<Label>, j: JobId)
    requires Run(limit, trace) && AllDelivered(trace)
    ensures LogIs(After(limit, trace), Sent(trace, j), Runs(trace, j), j)
  {
    if trace != [] {
      var before, l := trace[..|trace| - 1], trace[|trace| - 1];
      PrefixLabels(trace, j);
      LogIsTheRuns(limit, before, j);
      JobsAreConserved(limit, before, j);
      if l.job == j {
        OwnStepLogs(After(limit, before), l, Sent(before, j), Runs(before, j), Deliveries(before, j));
      } else {
        OtherStepLogs(After(limit, before), l, j);
      }
    }
  }

  /**
    With retry counts delivered, and whatever expires, the log of a job is one
    line for each delivery that reached the handler, and the attempt in it is
    the true number of that delivery; no number appears twice. From the first
    attempt that succeeds on, every line says completed, however many
    deliveries expired before.
   */
  lemma LogTellsTheTruth(limit: nat, trace: seq<Label>, j: JobId)
    requires Run(limit, trace) && AllDelivered(trace)
    ensures Increasing(Runs(trace, j))
    ensures forall n :: n in Runs(trace, j) ==> 1 <= n <= Deliveries(trace, j)
    ensures match Sent(trace, j)
            case Some(p) => LogOf(After(limit, trace).log, j) == LinesFor(j, p, Runs(trace, j), limit)
            case None => LogOf(After(limit, trace).log, j) == [] && Runs(trace, j) == []
    ensures Sent(trace, j).Some? ==>
              var p, runs, log := Sent(trace, j).value, Runs(trace, j), LogOf(After(limit, trace).log, j);
              |log| == |runs|
              && forall i :: 0 <= i < |runs| ==> TrueLine(log[i], j, p, runs[i], FirstSuccess(p), limit)
  {
    RunsAreTold(limit, trace, j);
    LogIsTheRuns(limit, trace, j);
    JobsAreConserved(limit, trace, j);
    if Sent(trace, j).Some? {
      var p, runs := Sent(trace, j).value, Runs(trace, j);
      forall i | 0 <= i < |runs|
        ensures TrueLine(LinesFor(j, p, runs, limit)[i], j, p, runs[i], FirstSuccess(p), limit)
      {
        assert runs[i] in runs;
        ThrowsIffBeforeFirstSuccess(p, runs[i]);
      }
    }
  }

  /** A job is logged dead if its last delivery ran and threw, and the handler could tell it was the last. */
  predicate DeadInv(s: State, p: Option<Payload>, runs: seq<nat>, counted: bool, j: JobId) {
    LoggedDead(s.log, j)
    <==> p.Some? && s.limit + 1 in runs && Throws(p.value, s.limit + 1) && (counted || s.limit == 0)
  }

  lemma OneMoreLine(log: seq<Line>, line: Line, j: JobId)
    ensures LoggedDead(log + [line], j) <==> LoggedDead(log, j) || (line.job == j && line.event == JobDead)
  {
    assert forall x :: x in log + [line] <==> x in log || x == line;
  }

  lemma HandlingKeepsDead(s: State, l: Label, sent: Option<Payload>, runs: seq<nat>, counted: bool, deliveries: nat)
    requires Enabled(s, l) && l.Handle?
    requires Placed(s, sent, l.job) && Counted(s, deliveries, l.job) && Told(s, runs, deliveries, l.job)
    requires DeadInv(s, sent, runs, counted, l.job)
    ensures DeadInv(Step(s, l), sent, runs + [deliveries], l.delivered, l.job)
  {
    var line := Step(s, l).log[|s.log|];
    OneMoreLine(s.log, line, l.job);
    assert forall n :: n in runs + [deliveries] <==> n in runs || n == deliveries;
    assert s.limit + 1 !in runs;
  }

  lemma OtherStepKeepsDead(s: State, l: Label, sent: Option<Payload>, runs: seq<nat>, counted: bool, j: JobId)
    requires Enabled(s, l) && (l.job != j || !l.Handle?)
    requires DeadInv(s, sent, runs, counted, j) && (l.Send? && l.job == j ==> runs == [])
    ensures DeadInv(Step(s, l), if l.Send? && l.job == j then Some(l.payload) else sent, runs, counted, j)
  {
    if l.Handle? {
      OneMoreLine(s.log, Step(s, l).log[|s.log|], j);
    }
  }

  lemma {:induction false} EveryRunKeepsDead(limit: nat, trace: seq<Label>, j: JobId)
    requires Run(limit, trace)
    ensures DeadInv(After(limit, trace), Sent(trace, j), Runs(trace, j), LastCounted(trace, j), j)
  {
    if trace != [] {
      var before, l := trace[..|trace| - 1], trace[|trace| - 1];
      EveryRunKeepsDead(limit, before, j);
      JobsAreConserved(limit, before, j);
      RunsAreTold(limit, before, j);
      StepKeepsDead(After(limit, before), l, Sent(before, j), Runs(before, j), LastCounted(before, j),
                    Deliveries(before, j), j);
    }
  }

  lemma StepKeepsDead(s: State, l: Label, sent: Option<Payload>, runs: seq<nat>, counted: bool,
                      deliveries: nat, j: JobId)
    requires Enabled(s, l)
    requires Placed(s, sent, j) && Counted(s, deliveries, j) && Told(s, runs, deliveries, j)
    requires DeadInv(s, sent, runs, counted, j)
    ensures DeadInv(Step(s, l), if l.Send? && l.job == j then Some(l.payload) else sent,
                    runs + if l.Handle? && l.job == j then [deliveries] else [],
                    if l.Handle? && l.job == j then l.delivered else counted, j)
  {
    if l.Handle? && l.job == j {
      HandlingKeepsDead(s, l, sent, runs, counted, deliveries);
    } else {
      assert runs + [] == runs;
      OtherStepKeepsDead(s, l, sent, runs, counted, j);
    }
  }

  /**
    On every run, whatever expires and whether or not retry counts are
    delivered: a job is logged dead if and only if delivery limit + 1 reached
    the handler and threw, and either it came with its retry count or there are
    no retries.
   */
  lemma LoggedDeadIff(limit: nat, trace: seq<Label>, j: JobId)
    requires Run(limit, trace)
    ensures LoggedDead(After(limit, trace).log, j)
       <==> && Sent(trace, j).Some? && limit + 1 in Runs(trace, j) && Throws(Sent(trace, j).value, limit + 1)
            && (LastCounted(trace, j) || limit == 0)
  {
    EveryRunKeepsDead(limit, trace, j);
    JobsAreConserved(limit, trace, j);
  }

  /** What the last run came to decides the delivery it was in, and only a run that did not throw completes a job. */
  predicate Judged(s: State, p: Payload, counted: bool, deliveries: nat, j: JobId) {
    var threw := Throws(p, if counted then deliveries else 1);
    && (j in s.active && s.active[j].phase.Handled? ==> s.active[j].phase.threw == threw)
    && (j in s.completed ==> !threw)
  }

  lemma StepJudges(s: State, l: Label, p: Payload, counted: bool, deliveries: nat)
    requires Enabled(s, l) && !l.Send?
    requires Placed(s, Some(p), l.job) && Counted(s, deliveries, l.job) && Judged(s, p, counted, deliveries, l.job)
    ensures Judged(Step(s, l), p, if l.Handle? then l.delivered else counted,
                   if l.Fetch? then deliveries + 1 else deliveries, l.job)
  {
  }

  lemma {:induction false} EveryRunJudges(limit: nat, trace: seq<Label>, j: JobId)
    requires Run(limit, trace) && Sent(trace, j).Some?
    ensures Judged(After(limit, trace), Sent(trace, j).value, LastCounted(trace, j), Deliveries(trace, j), j)
  {
    var before, l := trace[..|trace| - 1], trace[|trace| - 1];
    var s := After(limit, before);
    JobsAreConserved(limit, before, j);
    if l.job != j {
      EveryRunJudges(limit, before, j);
      OtherJobsUntouched(s, l, j);
    } else if !l.Send? {
      EveryRunJudges(limit, before, j);
      StepJudges(s, l, Sent(before, j).value, LastCounted(before, j), Deliveries(before, j));
    }
  }

  lemma {:induction false} CountedRunJudges(limit: nat, trace: seq<Label>, j: JobId)
    requires Run(limit, trace) && AllDelivered(trace) && Sent(trace, j).Some?
    ensures Judged(After(limit, trace), Sent(trace, j).value, true, Deliveries(trace, j), j)
  {
    var before, l := trace[..|trace| - 1], trace[|trace| - 1];
    var s := After(limit, before);
    PrefixLabels(trace, j);
    JobsAreConserved(limit, before, j);
    if l.job != j {
      CountedRunJudges(limit, before, j);
      OtherJobsUntouched(s, l, j);
    } else if !l.Send? {
      CountedRunJudges(limit, before, j);
      StepJudges(s, l, Sent(before, j).value, true, Deliveries(before, j));
    }
  }

  /**
    With retry counts delivered, and whatever expires: a delivery that reached
    the handler threw exactly if its number is below the first success, and
    a job only completes on a delivery that is not.
   */
  lemma DeliveryThrewIff(limit: nat, trace: seq<Label>, j: JobId)
    requires Run(limit, trace) && AllDelivered(trace) && Sent(trace, j).Some?
    ensures var s, k, n := After(limit, trace), FirstSuccess(Sent(trace, j).value), Deliveries(trace, j);
            && (j in s.active && s.active[j].phase.Handled? ==> (s.active[j].phase.threw <==> n < k))
            && (j in s.completed ==> n >= k)
  {
    JobsAreConserved(limit, trace, j);
    CountedRunJudges(limit, trace, j);
    if Deliveries(trace, j) >= 1 {
      ThrowsIffBeforeFirstSuccess(Sent(trace, j).value, Deliveries(trace, j));
    }
  }

  /**
    A dead line is never false: on every run, with expiry and with or without
    retry counts, a job logged dead is in the dead-letter queue, or its last
    delivery has thrown and can only go there.
   */
  lemma DeadLineIsNeverFalse(limit: nat, trace: seq<Label>, j: JobId)
    requires Run(limit, trace) && LoggedDead(After(limit, trace).log, j)
    ensures var s := After(limit, trace);
            j in s.failed
            || (j in s.active && s.active[j].phase == Handled(true) && s.active[j].job.retryCount == limit)
  {
    LoggedDeadIff(limit, trace, j);
    JobsAreConserved(limit, trace, j);
    RunsAreTold(limit, trace, j);
    EveryRunJudges(limit, trace, j);
  }

  /** A job that never expires goes where its last run sends it. */
  predicate Routed(s: State, p: Payload, runs: seq<nat>, counted: bool, deliveries: nat, j: JobId) {
    var threw := Throws(p, if counted then deliveries else 1);
    && Judged(s, p, counted, deliveries, j)
    && (j in s.active && s.active[j].phase.Handled? ==> deliveries in runs)
    && (j in s.failed ==> deliveries in runs && threw)
  }

  lemma StepRoutes(s: State, l: Label, p: Payload, runs: seq<nat>, counted: bool, deliveries: nat)
    requires Enabled(s, l) && !l.Send? && !l.Expire?
    requires Placed(s, Some(p), l.job) && Counted(s, deliveries, l.job)
    requires Routed(s, p, runs, counted, deliveries, l.job)
    ensures Routed(Step(s, l), p, if l.Handle? then runs + [deliveries] else runs,
                   if l.Handle? then l.delivered else counted, if l.Fetch? then deliveries + 1 else deliveries, l.job)
  {
    if l.Handle? {
      assert deliveries in runs + [deliveries];
    }
  }

  lemma {:induction false} EveryRunRoutes(limit: nat, trace: seq<Label>, j: JobId)
    requires Run(limit, trace) && NeverExpires(trace, j) && Sent(trace, j).Some?
    ensures Routed(After(limit, trace), Sent(trace, j).value, Runs(trace, j), LastCounted(trace, j),
                   Deliveries(trace, j), j)
  {
    var before, l := trace[..|trace| - 1], trace[|trace| - 1];
    var s := After(limit, before);
    PrefixLabels(trace, j);
    JobsAreConserved(limit, before, j);
    if l.job != j {
      EveryRunRoutes(limit, before, j);
      OtherJobsUntouched(s, l, j);
    } else if !l.Send? {
      EveryRunRoutes(limit, before, j);
      StepRoutes(s, l, Sent(before, j).value, Runs(before, j), LastCounted(before, j), Deliveries(before, j));
    }
  }

  /**
    `job_dead` is logged exactly for the jobs that the queue dead-letters and
    whose last delivery came with its retry count (or there are no retries), for
    every settled job that never expired.
   */
  lemma DeadLettersAreLoggedIff(limit: nat, trace: seq<Label>, j: JobId)
    requires Run(limit, trace) && NeverExpires(trace, j)
    requires j in After(limit, trace).completed || j in After(limit, trace).failed
    ensures LoggedDead(After(limit, trace).log, j)
       <==> j in After(limit, trace).failed && (LastCounted(trace, j) || limit == 0)
  {
    JobsAreConserved(limit, trace, j);
    RunsAreTold(limit, trace, j);
    EveryRunRoutes(limit, trace, j);
    LoggedDeadIff(limit, trace, j);
  }

  // ---- the whole story of a job that never expires

  function UpTo(n: nat): seq<nat> {
    seq(n, i requires 0 <= i < n => i + 1)
  }

  /** A job that does not expire is handled on each delivery and goes back as long as it throws. */
  predicate Uninterrupted(s: State, p: Payload, runs: seq<nat>, j: JobId) {
    var k := FirstSuccess(p);
    && (j in s.waiting ==> runs == UpTo(s.waiting[j].retryCount) && s.waiting[j].retryCount < k)
    && (j in s.active && s.active[j].phase == Fetched ==>
          runs == UpTo(s.active[j].job.retryCount) && s.active[j].job.retryCount < k)
    && (j in s.active && s.active[j].phase.Handled? ==>
          var n := s.active[j].job.retryCount + 1;
          runs == UpTo(n) && n <= k && (s.active[j].phase.threw <==> n < k))
    && (j in s.completed ==> runs == UpTo(k) && k == s.completed[j].retryCount + 1)
    && (j in s.failed ==> runs == UpTo(s.limit + 1) && s.limit + 1 < k)
  }

  lemma StepGoesOn(s: State, l: Label, p: Payload, runs: seq<nat>, deliveries: nat)
    requires Enabled(s, l) && !l.Expire? && (l.Handle? ==> l.delivered)
    requires Placed(s, Some(p), l.job) && Counted(s, deliveries, l.job) && Uninterrupted(s, p, runs, l.job)
    ensures Uninterrupted(Step(s, l), p, if l.Handle? then runs + [deliveries] else runs, l.job)
  {
    match l {
      case Send(_, _) =>
      case Fetch(_) =>
      case Handle(j, _) =>
        var n := s.active[j].job.retryCount;
        assert UpTo(n) + [n + 1] == UpTo(n + 1);
      case Settle(_) =>
    }
  }

  lemma JustSent(s: State, p: Payload, j: JobId)
    requires Enabled(s, Send(j, p))
    ensures Uninterrupted(Step(s, Send(j, p)), p, [], j)
  {
    assert UpTo(0) == [];
  }

  predicate GoesOn(s: State, sent: Option<Payload>, runs: seq<nat>, j: JobId) {
    match sent
    case Some(p) => Uninterrupted(s, p, runs, j)
    case None => runs == []
  }

  lemma OwnStepGoesOn(s: State, l: Label, sent: Option<Payload>, runs: seq<nat>, deliveries: nat)
    requires Enabled(s, l) && !l.Expire? && (l.Handle? ==> l.delivered)
    requires Placed(s, sent, l.job) && Counted(s, deliveries, l.job) && GoesOn(s, sent, runs, l.job)
    ensures GoesOn(Step(s, l), if l.Send? then Some(l.payload) else sent,
                   if l.Handle? then runs + [deliveries] else runs, l.job)
  {
    if l.Send? {
      JustSent(s, l.payload, l.job);
    } else {
      StepGoesOn(s, l, sent.value, runs, deliveries);
    }
  }

  lemma OtherStepGoesOn(s: State, l: Label, sent: Option<Payload>, runs: seq<nat>, j: JobId)
    requires Enabled(s, l) && l.job != j && GoesOn(s, sent, runs, j)
    ensures GoesOn(Step(s, l), sent, runs, j)
  {
    OtherJobsUntouched(s, l, j);
    OtherStepLogs(s, l, j);
  }

  lemma {:induction false} JobGoesOn(limit: nat, trace: seq<Label>, j: JobId)
    requires Run(limit, trace) && AllDelivered(trace) && NeverExpires(trace, j)
    ensures GoesOn(After(limit, trace), Sent(trace, j), Runs(trace, j), j)
  {
    if trace != [] {
      var before, l := trace[..|trace| - 1], trace[|trace| - 1];
      PrefixLabels(trace, j);
      JobGoesOn(limit, before, j);
      JobsAreConserved(limit, before, j);
      if l.job == j {
        OwnStepGoesOn(After(limit, before), l, Sent(before, j), Runs(before, j), Deliveries(before, j));
      } else {
        OtherStepGoesOn(After(limit, before), l, Sent(before, j), Runs(before, j), j);
      }
    }
  }

  /**
    The log of a settled job that never expired: consecutive
    `job_failed_will_retry` lines for attempts 1 to n - 1, then one final line
    at attempt n. With k the first attempt that succeeds, n is k and the line
    is `job_completed` if the limit allows k attempts; otherwise n is limit + 1
    and the line is `job_dead`. It is dead exactly if the queue dead-letters it.
   */
  lemma SettledJobLog(limit: nat, trace: seq<Label>, j: JobId)
    requires Run(limit, trace) && AllDelivered(trace) && NeverExpires(trace, j)
    requires j in After(limit, trace).completed || j in After(limit, trace).failed
    ensures Sent(trace, j).Some?
    ensures var p, s := Sent(trace, j).value, After(limit, trace);
            var k := FirstSuccess(p);
            var n := if k <= limit + 1 then k else limit + 1;
            var log := LogOf(s.log, j);
            && (j in s.completed <==> k <= limit + 1)
            && (j in s.failed <==> k > limit + 1)
            && |log| == n
            && (forall i :: 0 <= i < n - 1 ==>
                  log[i] == Line(JobFailedWillRetry, j, i + 1, p.correlationId, p.marker))
            && log[n - 1] == Line(if j in s.failed then JobDead else JobCompleted, j, n, p.correlationId, p.marker)
  {
    JobsAreConserved(limit, trace, j);
    JobGoesOn(limit, trace, j);
    LogTellsTheTruth(limit, trace, j);
  }

  // ---- when the queue does not deliver retry counts, or a delivery expires

  /**
    If no job carries its retry count, every line says attempt 1. With any
    retries configured no job is ever logged dead, although jobs may die, and a
    job that needs a second attempt never completes.
   */
  lemma {:induction false} WithoutRetryCountsNothingIsLoggedDead(limit: nat, trace: seq<Label>)
    requires Run(limit, trace) && NoneDelivered(trace) && limit >= 1
    ensures forall line :: line in After(limit, trace).log ==> line.event != JobDead && line.attempt == 1
    ensures forall j :: j in After(limit, trace).completed ==>
              Sent(trace, j).Some? && !Throws(Sent(trace, j).value, 1)
    ensures forall j :: j in After(limit, trace).active && After(limit, trace).active[j].phase.Handled? ==>
              After(limit, trace).active[j].phase.threw == Throws(After(limit, trace).active[j].job.payload, 1)
  {
    if trace != [] {
      var before, l := trace[..|trace| - 1], trace[|trace| - 1];
      assert before + [l] == trace && l in trace;
      WithoutRetryCountsNothingIsLoggedDead(limit, before);
      JobsAreConserved(limit, before, l.job);
      JobsAreConserved(limit, trace, l.job);
    }
  }

  lemma Extend(limit: nat, trace: seq<Label>, l: Label)
    requires Run(limit, trace) && Enabled(After(limit, trace), l)
    ensures Run(limit, trace + [l]) && After(limit, trace + [l]) == Step(After(limit, trace), l)
  {
    assert (trace + [l])[..|trace|] == trace;
  }

  /** Two deliveries without their retry counts: the job is dead, and the log says twice that it will be retried. */
  lemma UncountedJobDiesUnannounced(p: Payload) returns (trace: seq<Label>)
    requires Throws(p, 1)
    ensures Run(1, trace) && NeverExpires(trace, 0)
    ensures 0 in After(1, trace).failed && !LoggedDead(After(1, trace).log, 0)
    ensures |After(1, trace).log| == 2
    ensures forall line :: line in After(1, trace).log ==> line.event == JobFailedWillRetry
  {
    trace := [Send(0, p)];
    Extend(1, [], Send(0, p));
    trace := DeliverUncounted(p, trace);
    trace := DeliverUncounted(p, trace);
  }

  /** One delivery of the only job, without its retry count. */
  lemma DeliverUncounted(p: Payload, before: seq<Label>) returns (trace: seq<Label>)
    requires Throws(p, 1) && Run(1, before) && NeverExpires(before, 0)
    requires var s := After(1, before); s.limit == 1 && 0 in s.waiting && s.waiting[0].payload == p && 0 !in s.active
    ensures Run(1, trace) && NeverExpires(trace, 0)
    ensures After(1, trace).log == After(1, before).log + [LineFor(0, p, 1, 1)]
    ensures After(1, trace).limit == 1 && 0 !in After(1, trace).active
    ensures var r, s := After(1, before).waiting[0].retryCount, After(1, trace);
            if r < 1 then 0 in s.waiting && s.waiting[0] == Job(p, r + 1) else 0 in s.failed
  {
    Extend(1, before, Fetch(0));
    trace := before + [Fetch(0)];
    Extend(1, trace, Handle(0, false));
    trace := trace + [Handle(0, false)];
    Extend(1, trace, Settle(0));
    trace := trace + [Settle(0)];
  }

  /** An expired delivery bypasses the handler's `catch`: a job can die without a line in the log. */
  lemma ExpiredJobDiesSilently(p: Payload) returns (trace: seq<Label>)
    ensures Run(0, trace) && AllDelivered(trace)
    ensures 0 in After(0, trace).failed && After(0, trace).deadLetter == [p] && After(0, trace).log == []
  {
    trace := [Send(0, p)];
    Extend(0, [], Send(0, p));
    Extend(0, trace, Fetch(0));
    trace := trace + [Fetch(0)];
    Extend(0, trace, Expire(0));
    trace := trace + [Expire(0)];
  }
}
