/**
  The middleware, the ambient store, the logger and the filter together, for
  any number of requests at once. Each request runs in a tree of continuations
  under the id that the middleware assigned to it. Any of them may fail at any
  moment, and at any moment a library may put another store under the
  continuation that runs: none, or one that belongs to somebody else.
 */
module ServerRuns {
  import opened Wrappers
  import opened CorrelationId
  import opened RequestTrace
  import Context = CorrelationContext

  type TaskId = Context.TaskId

  /** A request is named by its first continuation. */
  type RequestId = Context.TaskId

  /** What the filter did for one failure; `ambient` is the store it found. */
  datatype Failure = Failure(
    request: RequestId, e: Exception, stack: string, ambient: Option<string>, envelope: Envelope, logged: seq<LogLine>)

  /**
    `history` are the context's steps so far; `given` is the id that the
    middleware left on each request and on the header of its response.
   */
  datatype Server = Server(
    context: Context.State,
    history: seq<Context.Label>,
    given: map<RequestId, string>,
    failures: seq<Failure>)

  const IDLE := Server(Context.IDLE, [], map[], [])

  /**
    `Turn` is a step of the context other than the arrival of a request; a
    nested `run` is given the request's own id. `Misplace` puts another store
    under the continuation that runs.
   */
  datatype Label =
    | Accept(request: RequestId, supplied: Header, random: string)
    | Turn(step: Context.Label)
    | Misplace(task: TaskId, id: Option<string>)
    | Fail(task: TaskId, e: Exception, stack: string, now: string)

  function RequestOf(s: Server, t: TaskId): Option<RequestId> {
    Context.Root(s.history, t)
  }

  /** The id on the request that a continuation belongs to. */
  function OwnId(s: Server, t: TaskId): Option<string> {
    match RequestOf(s, t)
    case Some(r) => if r in s.given then Some(s.given[r]) else None
    case None => None
  }

  predicate Enabled(s: Server, l: Label) {
    match l
    case Accept(r, _, random) => Context.Enabled(s.context, Context.Arrive(r)) && IsValid(random)
    case Turn(step) =>
      Context.Enabled(s.context, step) && !step.Arrive? && (step.Enter? ==> OwnId(s, step.task) == Some(step.id))
    case Misplace(t, _) => s.context.running == Some(t)
    case Fail(t, _, _, _) => s.context.running == Some(t) && RequestOf(s, t).Some?
  }

  function Take(s: Server, step: Context.Label): Server
    requires Context.Enabled(s.context, step)
  {
    s.(context := Context.Step(s.context, step), history := s.history + [step])
  }

  function Step(s: Server, l: Label): Server
    requires Enabled(s, l)
  {
    match l
    case Accept(r, supplied, random) =>
      var id := AssignedId(supplied, random);
      Take(Take(s, Context.Arrive(r)), Context.Enter(r, id)).(given := s.given[r := id])
    case Turn(step) => Take(s, step)
    case Misplace(_, id) => s.(context := s.context.(store := id))
    case Fail(t, e, stack, now) =>
      var ambient := s.context.store;
      var id := EnvelopeId(ambient, OwnId(s, t), OwnId(s, t));
      s.(failures := s.failures
           + [Failure(RequestOf(s, t).value, e, stack, ambient, EnvelopeOf(e, id, now), FailureLog(e, stack, ambient))])
  }

  predicate Run(trace: seq<Label>)
    decreases |trace|, 0
  {
    trace == [] || (Run(trace[..|trace| - 1]) && Enabled(After(trace[..|trace| - 1]), trace[|trace| - 1]))
  }

  function After(trace: seq<Label>): Server
    requires Run(trace)
    decreases |trace|, 1
  {
    if trace == [] then IDLE else Step(After(trace[..|trace| - 1]), trace[|trace| - 1])
  }

  /** The id that a request was to get when it came in: the header it brought, if valid, else a random one. */
  function IdOf(trace: seq<Label>, r: RequestId): Option<string> {
    if trace == [] then None
    else
      var l := trace[|trace| - 1];
      if l.Accept? && l.request == r then Some(AssignedId(l.supplied, l.random)) else IdOf(trace[..|trace| - 1], r)
  }

  /** A step that puts a foreign id under a continuation of request `r`. Losing the store is not that. */
  predicate LeadsAstray(s: Server, l: Label, r: RequestId) {
    l.Misplace? && RequestOf(s, l.task) == Some(r) && !OwnOrNone(l.id, OwnId(s, l.task))
  }

  predicate Astray(trace: seq<Label>, r: RequestId)
    requires Run(trace)
  {
    trace != []
    && (Astray(trace[..|trace| - 1], r) || LeadsAstray(After(trace[..|trace| - 1]), trace[|trace| - 1], r))
  }

  // ---- what every run keeps

  /** An ambient id is the own one, or lost. */
  predicate OwnOrNone(id: Option<string>, own: Option<string>) {
    own.Some? && (id == None || id == own)
  }

  ghost predicate Rooted(s: Server) {
    && KnowsItsTasks(s.context)
    && (forall t :: t in s.context.known <==> RequestOf(s, t).Some?)
    && (forall t :: RequestOf(s, t).Some? ==> RequestOf(s, t).value in s.given)
    && (forall r :: r in s.given ==> r in s.context.known && IsValid(s.given[r]))
  }

  predicate KnowsItsTasks(c: Context.State) {
    && (forall t :: t in c.captured ==> t in c.known)
    && (c.running.Some? ==> c.running.value in c.known)
    && (forall line :: line in c.log ==> line.task in c.known)
  }

  lemma ContextKnowsItsTasks(c: Context.State, step: Context.Label)
    requires KnowsItsTasks(c) && Context.Enabled(c, step)
    ensures KnowsItsTasks(Context.Step(c, step))
    ensures Context.Step(c, step).known
         == c.known + if step.Arrive? then {step.task} else if step.Spawn? then {step.child} else {}
  {
  }

  /** The stores in the tree of request `r` are its own. */
  ghost predicate StoresAreOwn(s: Server, r: RequestId) {
    && (forall t :: t in s.context.captured && RequestOf(s, t) == Some(r) ==>
          OwnOrNone(s.context.captured[t], OwnId(s, t)))
    && match s.context.running
       case Some(t) =>
         RequestOf(s, t) == Some(r) ==>
           OwnOrNone(s.context.store, OwnId(s, t))
           && forall i :: 0 <= i < |s.context.frames| ==> OwnOrNone(s.context.frames[i], OwnId(s, t))
       case None => true
  }

  lemma TakeRoots(s: Server, step: Context.Label, t: TaskId)
    requires Context.Enabled(s.context, step)
    ensures RequestOf(Take(s, step), t) == Context.Reroot(RequestOf(s, t), RequestOf(s, step.task), step, t)
  {
    assert (s.history + [step])[..|s.history|] == s.history;
  }

  lemma StepRoots(s: Server, l: Label, t: TaskId)
    requires Enabled(s, l)
    ensures RequestOf(Step(s, l), t)
         == match l
            case Accept(r, _, _) => if t == r then Some(r) else RequestOf(s, t)
            case Turn(step) => if step.Spawn? && step.child == t then RequestOf(s, step.task) else RequestOf(s, t)
            case _ => RequestOf(s, t)
  {
    match l {
      case Accept(r, supplied, random) =>
        var arrived := Take(s, Context.Arrive(r));
        TakeRoots(s, Context.Arrive(r), t);
        TakeRoots(s, Context.Arrive(r), r);
        TakeRoots(arrived, Context.Enter(r, AssignedId(supplied, random)), t);
      case Turn(step) => TakeRoots(s, step, t);
      case Misplace(_, _) =>
      case Fail(_, _, _, _) =>
    }
  }

  lemma AcceptKeepsRooted(s: Server, r: RequestId, supplied: Header, random: string)
    requires Rooted(s) && Enabled(s, Accept(r, supplied, random))
    ensures Rooted(Step(s, Accept(r, supplied, random)))
  {
    var s' := Step(s, Accept(r, supplied, random));
    AssignedIdIsUuid(supplied, random);
    var arrived := Context.Step(s.context, Context.Arrive(r));
    ContextKnowsItsTasks(s.context, Context.Arrive(r));
    ContextKnowsItsTasks(arrived, Context.Enter(r, AssignedId(supplied, random)));
    assert s'.context.known == s.context.known + {r};
    forall t
      ensures t in s'.context.known <==> RequestOf(s', t).Some?
      ensures RequestOf(s', t).Some? ==> RequestOf(s', t).value in s'.given
    {
      StepRoots(s, Accept(r, supplied, random), t);
    }
  }

  lemma TurnKeepsRooted(s: Server, step: Context.Label)
    requires Rooted(s) && Enabled(s, Turn(step))
    ensures Rooted(Step(s, Turn(step)))
  {
    var s' := Step(s, Turn(step));
    ContextKnowsItsTasks(s.context, step);
    forall t
      ensures t in s'.context.known <==> RequestOf(s', t).Some?
      ensures RequestOf(s', t).Some? ==> RequestOf(s', t).value in s'.given
    {
      StepRoots(s, Turn(step), t);
    }
  }

  lemma StepKeepsRooted(s: Server, l: Label)
    requires Rooted(s) && Enabled(s, l)
    ensures Rooted(Step(s, l))
  {
    if l.Accept? {
      AcceptKeepsRooted(s, l.request, l.supplied, l.random);
    } else if l.Turn? {
      TurnKeepsRooted(s, l.step);
    }
  }

  lemma StepKeepsIds(s: Server, l: Label, t: TaskId)
    requires Rooted(s) && Enabled(s, l) && t in s.context.known
    ensures RequestOf(Step(s, l), t) == RequestOf(s, t) && OwnId(Step(s, l), t) == OwnId(s, t)
  {
    StepRoots(s, l, t);
  }

  lemma AcceptKeepsStores(s: Server, l: Label, r: RequestId)
    requires l.Accept? && Rooted(s) && StoresAreOwn(s, r) && Enabled(s, l)
    ensures StoresAreOwn(Step(s, l), r)
  {
    StepRoots(s, l, l.request);
    forall t | t in s.context.captured {
      StepKeepsIds(s, l, t);
    }
  }

  lemma TurnKeepsStores(s: Server, l: Label, r: RequestId)
    requires l.Turn? && Rooted(s) && StoresAreOwn(s, r) && Enabled(s, l)
    ensures StoresAreOwn(Step(s, l), r)
  {
    var s' := Step(s, l);
    forall t | t in s'.context.captured && RequestOf(s', t) == Some(r)
      ensures OwnOrNone(s'.context.captured[t], OwnId(s', t))
    {
      StepRoots(s, l, t);
      if t in s.context.captured {
        StepKeepsIds(s, l, t);
      }
    }
    if s'.context.running.Some? {
      StepKeepsIds(s, l, s'.context.running.value);
    }
  }

  lemma StepKeepsStores(s: Server, l: Label, r: RequestId)
    requires Rooted(s) && StoresAreOwn(s, r) && Enabled(s, l) && !LeadsAstray(s, l, r)
    ensures StoresAreOwn(Step(s, l), r)
  {
    if l.Accept? {
      AcceptKeepsStores(s, l, r);
    } else if l.Turn? {
      TurnKeepsStores(s, l, r);
    } else {
      MisplaceKeepsStores(s, l, r);
    }
  }

  lemma MisplaceKeepsStores(s: Server, l: Label, r: RequestId)
    requires l.Misplace? || l.Fail?
    requires StoresAreOwn(s, r) && Enabled(s, l) && !LeadsAstray(s, l, r)
    ensures StoresAreOwn(Step(s, l), r)
  {
    var s' := Step(s, l);
    assert s'.history == s.history && s'.given == s.given;
    assert s'.context.captured == s.context.captured && s'.context.frames == s.context.frames;
  }

  lemma {:induction false} EveryRunIsRooted(trace: seq<Label>)
    requires Run(trace)
    ensures Rooted(After(trace))
    ensures forall r :: r in After(trace).given <==> IdOf(trace, r).Some?
    ensures forall r :: r in After(trace).given ==> IdOf(trace, r) == Some(After(trace).given[r])
  {
    if trace != [] {
      var before, l := trace[..|trace| - 1], trace[|trace| - 1];
      EveryRunIsRooted(before);
      StepKeepsRooted(After(before), l);
    }
  }

  lemma {:induction false} UnledRequestKeepsItsStores(trace: seq<Label>, r: RequestId)
    requires Run(trace) && !Astray(trace, r)
    ensures StoresAreOwn(After(trace), r)
  {
    if trace != [] {
      var before, l := trace[..|trace| - 1], trace[|trace| - 1];
      UnledRequestKeepsItsStores(before, r);
      EveryRunIsRooted(before);
      StepKeepsStores(After(before), l, r);
    }
  }

  // ---- failures

  /** What the filter makes of the store it finds. */
  predicate Attributed(s: Server, f: Failure) {
    && f.request in s.given
    && f.envelope.correlationId == f.ambient.GetOr(s.given[f.request])
    && f.logged == if f.e.Http? && f.e.status < 500 then []
                   else [LogLine(Error, "unhandled_error", if f.ambient == Some("") then None else f.ambient,
                                 Some("exception"), if f.stack == "" then None else Some(f.stack))]
  }

  lemma StepAttributes(s: Server, l: Label)
    requires Rooted(s) && Enabled(s, l)
    requires forall f :: f in s.failures ==> Attributed(s, f)
    ensures forall f :: f in Step(s, l).failures ==> Attributed(Step(s, l), f)
  {
  }

  lemma {:induction false} EveryFailureIsAttributed(trace: seq<Label>)
    requires Run(trace)
    ensures forall f :: f in After(trace).failures ==> Attributed(After(trace), f)
  {
    if trace != [] {
      EveryFailureIsAttributed(trace[..|trace| - 1]);
      EveryRunIsRooted(trace[..|trace| - 1]);
      StepAttributes(After(trace[..|trace| - 1]), trace[|trace| - 1]);
    }
  }

  /**
    On every run: the envelope of a failed request carries the id that this
    request was given when it came in, if and only if the filter found that id
    in the store or found none. A store that belongs to somebody else wins over
    the id on the request.
   */
  lemma FailureCarriesItsOwnIdIff(trace: seq<Label>, f: Failure)
    requires Run(trace) && f in After(trace).failures
    ensures IdOf(trace, f.request).Some? && IsValid(IdOf(trace, f.request).value)
    ensures f.envelope.correlationId == IdOf(trace, f.request).value
       <==> f.ambient == None || f.ambient == IdOf(trace, f.request)
  {
    EveryRunIsRooted(trace);
    EveryFailureIsAttributed(trace);
  }

  /** And it was logged exactly once if its status is 500 or more, and else not at all. */
  lemma FailureIsLoggedOnceIff(trace: seq<Label>, f: Failure)
    requires Run(trace) && f in After(trace).failures
    ensures var status := if f.e.Http? then f.e.status else 500;
            if status >= 500
            then |f.logged| == 1 && f.logged[0].level == Error && f.logged[0].message == "unhandled_error"
                 && (f.stack != "" ==> f.logged[0].stack == Some(f.stack))
                 && (f.ambient.Some? && f.ambient.value != "" ==> f.logged[0].correlationId == f.ambient)
            else f.logged == []
  {
    EveryFailureIsAttributed(trace);
  }

  lemma {:induction false} UnledFailureFindsItsStore(trace: seq<Label>, f: Failure)
    requires Run(trace) && f in After(trace).failures && !Astray(trace, f.request)
    ensures f.ambient == None || f.ambient == IdOf(trace, f.request)
  {
    var before, l := trace[..|trace| - 1], trace[|trace| - 1];
    EveryRunIsRooted(before);
    EveryRunIsRooted(trace);
    if f in After(before).failures {
      UnledFailureFindsItsStore(before, f);
      EveryFailureIsAttributed(before);
    } else {
      UnledRequestKeepsItsStores(before, f.request);
    }
  }

  /**
    Under every interleaving: as long as nothing puts a foreign id under a
    continuation of its own tree, whatever happens to other requests and
    wherever its store is lost, each failure of a request carries that
    request's id, which is a UUID, and its log line carries that id or none.
   */
  lemma FailuresCarryTheirOwnId(trace: seq<Label>, f: Failure)
    requires Run(trace) && f in After(trace).failures && !Astray(trace, f.request)
    ensures IdOf(trace, f.request) == Some(f.envelope.correlationId) && IsValid(f.envelope.correlationId)
    ensures forall line :: line in f.logged ==>
              line.correlationId == None || line.correlationId == Some(f.envelope.correlationId)
  {
    FailureCarriesItsOwnIdIff(trace, f);
    UnledFailureFindsItsStore(trace, f);
    EveryFailureIsAttributed(trace);
  }

  /** Why that is needed: with a foreign store under it, a failure is reported under the foreign id. */
  lemma ForeignStoreMislabelsFailure(own: string, foreign: string, e: Exception, stack: string, now: string)
    returns (trace: seq<Label>)
    requires IsValid(own) && own != foreign
    ensures Run(trace) && IdOf(trace, 0) == Some(own)
    ensures |After(trace).failures| == 1 && After(trace).failures[0].request == 0
    ensures After(trace).failures[0].envelope.correlationId == foreign
  {
    trace := [Accept(0, Absent, own)];
    Extend([], Accept(0, Absent, own));
    StepRoots(IDLE, Accept(0, Absent, own), 0);
    Extend(trace, Misplace(0, Some(foreign)));
    trace := trace + [Misplace(0, Some(foreign))];
    Extend(trace, Fail(0, e, stack, now));
    trace := trace + [Fail(0, e, stack, now)];
  }

  lemma Extend(trace: seq<Label>, l: Label)
    requires Run(trace) && Enabled(After(trace), l)
    ensures Run(trace + [l]) && After(trace + [l]) == Step(After(trace), l)
    ensures forall r :: IdOf(trace + [l], r)
                     == if l.Accept? && l.request == r then Some(AssignedId(l.supplied, l.random)) else IdOf(trace, r)
  {
    assert (trace + [l])[..|trace|] == trace;
  }

  // ---- the log

  lemma {:induction false} UnledLineIsOwn(trace: seq<Label>, line: Context.Line, r: RequestId)
    requires Run(trace) && line in After(trace).context.log && !Astray(trace, r)
    requires RequestOf(After(trace), line.task) == Some(r)
    ensures OwnOrNone(line.id, OwnId(After(trace), line.task))
  {
    var before, l := trace[..|trace| - 1], trace[|trace| - 1];
    EveryRunIsRooted(before);
    if line in After(before).context.log {
      StepKeepsIds(After(before), l, line.task);
      UnledLineIsOwn(before, line, r);
    } else {
      NewLineIsTheStores(After(before), l, line);
      StepKeepsIds(After(before), l, line.task);
      UnledRequestKeepsItsStores(before, r);
    }
  }

  lemma NewLineIsTheStores(s: Server, l: Label, line: Context.Line)
    requires Rooted(s) && Enabled(s, l) && line in Step(s, l).context.log && line !in s.context.log
    ensures s.context.running == Some(line.task) && line.id == s.context.store && line.task in s.context.known
  {
  }

  /** And so does every line that a continuation of such a request logs. */
  lemma LinesCarryTheirOwnId(trace: seq<Label>, line: Context.Line)
    requires Run(trace) && line in After(trace).context.log
    ensures RequestOf(After(trace), line.task).Some?
    ensures var r := RequestOf(After(trace), line.task).value;
            IdOf(trace, r).Some? && (!Astray(trace, r) ==> line.id == None || line.id == IdOf(trace, r))
  {
    EveryRunIsRooted(trace);
    var r := RequestOf(After(trace), line.task).value;
    if !Astray(trace, r) {
      UnledLineIsOwn(trace, line, r);
    }
  }
}
