/**
  The ambient correlation id: one module-level store, which the event loop
  swaps as it switches between continuations.

  A task is one continuation: the callback of an incoming request, or what runs
  after an `await`, a timer or a promise. Creating a continuation captures the
  store; resuming it puts the captured store back. `run` replaces the store for
  the synchronous extent of a call.
 */
module CorrelationContext {
  import opened Wrappers

  type Id = string
  type TaskId = nat

  /** `frames` are the stores that the `run` calls in progress will put back. */
  datatype State = State(
    store: Option<Id>,
    running: Option<TaskId>,
    frames: seq<Option<Id>>,
    captured: map<TaskId, Option<Id>>,
    known: set<TaskId>,
    log: seq<Line>)

  datatype Line = Line(task: TaskId, id: Option<Id>, message: string)

  const IDLE := State(None, None, [], map[], {}, [])

  /**
    Steps of the continuation that runs: `Enter` and `Leave` bracket a `run`, `Spawn`
    creates a continuation, `Emit` logs. A turn starts with `Arrive` or
    `Resume` and ends with `Suspend`.
   */
  datatype Label =
    | Arrive(task: TaskId)
    | Resume(task: TaskId)
    | Suspend(task: TaskId)
    | Enter(task: TaskId, id: Id)
    | Leave(task: TaskId)
    | Spawn(task: TaskId, child: TaskId)
    | Emit(task: TaskId, message: string)

  predicate Enabled(s: State, l: Label) {
    match l
    case Arrive(t) => s.running == None && t !in s.known
    case Resume(t) => s.running == None && t in s.captured
    case Suspend(t) => s.running == Some(t) && s.frames == []
    case Enter(t, _) => s.running == Some(t)
    case Leave(t) => s.running == Some(t) && s.frames != []
    case Spawn(t, child) => s.running == Some(t) && child !in s.known
    case Emit(t, _) => s.running == Some(t)
  }

  function Step(s: State, l: Label): State
    requires Enabled(s, l)
  {
    match l
    case Arrive(t) => s.(running := Some(t), store := None, frames := [], known := s.known + {t})
    case Resume(t) => s.(running := Some(t), store := s.captured[t], frames := [], captured := s.captured - {t})
    case Suspend(_) => s.(running := None, store := None)
    case Enter(_, id) => s.(frames := s.frames + [s.store], store := Some(id))
    case Leave(_) => s.(frames := s.frames[..|s.frames| - 1], store := s.frames[|s.frames| - 1])
    case Spawn(_, child) => s.(captured := s.captured[child := s.store], known := s.known + {child})
    case Emit(t, message) => s.(log := s.log + [Line(t, s.store, message)])
  }

  predicate Run(trace: seq<Label>)
    decreases |trace|, 0
  {
    trace == [] || (Run(trace[..|trace| - 1]) && Enabled(After(trace[..|trace| - 1]), trace[|trace| - 1]))
  }

  function After(trace: seq<Label>): State
    requires Run(trace)
    decreases |trace|, 1
  {
    if trace == [] then IDLE else Step(After(trace[..|trace| - 1]), trace[|trace| - 1])
  }

  // ---- the reference: scopes by ancestry, with no store at all

  /** The `run` calls a task is inside of, outermost first: its parent's when it was created, then its own. */
  function Scopes(trace: seq<Label>, t: TaskId): seq<Id> {
    if trace == [] then []
    else
      var before, l := trace[..|trace| - 1], trace[|trace| - 1];
      Rescope(Scopes(before, t), Scopes(before, l.task), l, t)
  }

  function Rescope(own: seq<Id>, actors: seq<Id>, l: Label, t: TaskId): seq<Id> {
    if l.Spawn? && l.child == t then actors
    else if l.Enter? && l.task == t then own + [l.id]
    else if l.Leave? && l.task == t && own != [] then own[..|own| - 1]
    else own
  }

  function Innermost(scopes: seq<Id>): Option<Id> {
    if scopes == [] then None else Some(scopes[|scopes| - 1])
  }

  /** The log as ancestry alone would have it. */
  function ScopedLog(trace: seq<Label>): seq<Line> {
    if trace == [] then []
    else
      var before, l := trace[..|trace| - 1], trace[|trace| - 1];
      ScopedLog(before) + if l.Emit? then [Line(l.task, Innermost(Scopes(before, l.task)), l.message)] else []
  }

  // ---- the store agrees with the reference

  /** The stores to put back are those of the enclosing scopes, inherited ones included. */
  predicate FramesAgree(frames: seq<Option<Id>>, scopes: seq<Id>) {
    |frames| <= |scopes|
    && forall i :: 0 <= i < |frames| ==> frames[i] == Innermost(scopes[..|scopes| - |frames| + i])
  }

  ghost predicate Agrees(s: State, scopes: TaskId -> seq<Id>) {
    && (forall t :: t in s.captured ==> t in s.known && s.captured[t] == Innermost(scopes(t)))
    && (forall t :: t !in s.known ==> scopes(t) == [])
    && match s.running
       case Some(t) =>
         t in s.known && t !in s.captured && s.store == Innermost(scopes(t)) && FramesAgree(s.frames, scopes(t))
       case None => s.store == None && s.frames == []
  }

  lemma EnterFrames(frames: seq<Option<Id>>, scopes: seq<Id>, id: Id)
    requires FramesAgree(frames, scopes)
    ensures FramesAgree(frames + [Innermost(scopes)], scopes + [id])
  {
    assert forall i :: 0 <= i <= |scopes| ==> (scopes + [id])[..i] == scopes[..i];
    assert scopes[..|scopes|] == scopes;
  }

  lemma LeaveFrames(frames: seq<Option<Id>>, scopes: seq<Id>)
    requires FramesAgree(frames, scopes) && frames != []
    ensures scopes != []
    ensures FramesAgree(frames[..|frames| - 1], scopes[..|scopes| - 1])
    ensures frames[|frames| - 1] == Innermost(scopes[..|scopes| - 1])
  {
    var outer := scopes[..|scopes| - 1];
    assert forall i :: 0 <= i < |scopes| ==> outer[..i] == scopes[..i];
  }

  lemma StepAgrees(s: State, l: Label, scopes: TaskId -> seq<Id>, after: TaskId -> seq<Id>)
    requires Agrees(s, scopes) && Enabled(s, l)
    requires forall t :: after(t) == Rescope(scopes(t), scopes(l.task), l, t)
    ensures Agrees(Step(s, l), after)
  {
    assert after(l.task) == Rescope(scopes(l.task), scopes(l.task), l, l.task);
    match l {
      case Arrive(_) =>
      case Resume(_) =>
      case Suspend(_) =>
      case Enter(t, id) => EnterFrames(s.frames, scopes(t), id);
      case Leave(t) => LeaveFrames(s.frames, scopes(t));
      case Spawn(_, _) =>
      case Emit(_, _) =>
    }
  }

  lemma {:induction false} EveryRunAgrees(trace: seq<Label>)
    requires Run(trace)
    ensures Agrees(After(trace), (t: TaskId) => Scopes(trace, t))
    ensures After(trace).log == ScopedLog(trace)
  {
    if trace != [] {
      var before, l := trace[..|trace| - 1], trace[|trace| - 1];
      EveryRunAgrees(before);
      StepAgrees(After(before), l, (t: TaskId) => Scopes(before, t), (t: TaskId) => Scopes(trace, t));
    }
  }

  /**
    Under every interleaving the id on each line is that of the innermost `run`
    around the emitting continuation or its ancestors, and none outside any.
   */
  lemma LogFollowsAncestry(trace: seq<Label>)
    requires Run(trace)
    ensures After(trace).log == ScopedLog(trace)
  {
    EveryRunAgrees(trace);
  }

  /** Leaving a `run` puts the enclosing id back, whatever ran inside it. */
  lemma LeavingRestores(trace: seq<Label>, t: TaskId)
    requires Run(trace) && Enabled(After(trace), Leave(t))
    ensures Scopes(trace, t) != []
    ensures Step(After(trace), Leave(t)).store == Innermost(Scopes(trace, t)[..|Scopes(trace, t)| - 1])
  {
    EveryRunAgrees(trace);
    LeaveFrames(After(trace).frames, Scopes(trace, t));
  }

  // ---- what a line carries, in particular

  /** Steps that neither enter nor leave a `run` of the task. */
  predicate NoRunOf(rest: seq<Label>, t: TaskId) {
    forall l :: l in rest ==> l.task != t || !(l.Enter? || l.Leave?)
  }

  lemma {:induction false} ScopesStay(trace: seq<Label>, rest: seq<Label>, t: TaskId)
    requires Run(trace + rest) && NoRunOf(rest, t)
    requires Run(trace) && t in After(trace).known
    ensures Scopes(trace + rest, t) == Scopes(trace, t)
    ensures t in After(trace + rest).known
  {
    if rest == [] {
      assert trace + rest == trace;
    } else {
      var fewer, l := rest[..|rest| - 1], rest[|rest| - 1];
      assert (trace + rest)[..|trace + rest| - 1] == trace + fewer;
      assert (trace + rest)[|trace + rest| - 1] == l && l in rest;
      ScopesStay(trace, fewer, t);
    }
  }

  lemma {:induction false} PrefixRuns(trace: seq<Label>, rest: seq<Label>)
    requires Run(trace + rest)
    ensures Run(trace)
  {
    if rest == [] {
      assert trace + rest == trace;
    } else {
      assert (trace + rest)[..|trace + rest| - 1] == trace + rest[..|rest| - 1];
      PrefixRuns(trace, rest[..|rest| - 1]);
    }
  }

  lemma LastStep(trace: seq<Label>, l: Label)
    requires Run(trace + [l])
    ensures Run(trace) && Enabled(After(trace), l) && After(trace + [l]) == Step(After(trace), l)
    ensures forall t :: Scopes(trace + [l], t) == Rescope(Scopes(trace, t), Scopes(trace, l.task), l, t)
  {
    assert (trace + [l])[..|trace|] == trace;
  }

  /** Inside a `run` the id is there: whatever else goes on, a line of the task carries it. */
  lemma LineInsideRun(before: seq<Label>, t: TaskId, id: Id, rest: seq<Label>, m: string)
    requires Run(before + [Enter(t, id)] + rest + [Emit(t, m)]) && NoRunOf(rest, t)
    ensures Run(before + [Enter(t, id)] + rest)
    ensures After(before + [Enter(t, id)] + rest + [Emit(t, m)]).log
         == After(before + [Enter(t, id)] + rest).log + [Line(t, Some(id), m)]
  {
    var inside := before + [Enter(t, id)];
    LastStep(inside + rest, Emit(t, m));
    PrefixRuns(inside, rest);
    LastStep(before, Enter(t, id));
    EveryRunAgrees(before);
    ScopesStay(inside, rest, t);
    EveryRunAgrees(inside + rest);
  }

  /** Across an `await`: until it enters a `run` of its own, a continuation logs under the id it was created under. */
  lemma ContinuationKeepsId(before: seq<Label>, t: TaskId, child: TaskId, rest: seq<Label>, m: string)
    requires Run(before + [Spawn(t, child)] + rest + [Emit(child, m)]) && NoRunOf(rest, child)
    ensures Run(before) && Run(before + [Spawn(t, child)] + rest)
    ensures After(before + [Spawn(t, child)] + rest + [Emit(child, m)]).log
         == After(before + [Spawn(t, child)] + rest).log + [Line(child, After(before).store, m)]
  {
    var spawned := before + [Spawn(t, child)];
    LastStep(spawned + rest, Emit(child, m));
    PrefixRuns(spawned, rest);
    LastStep(before, Spawn(t, child));
    EveryRunAgrees(before);
    ScopesStay(spawned, rest, child);
    EveryRunAgrees(spawned + rest);
  }

  // ---- requests do not interfere

  /** The request whose tree of continuations a task belongs to. */
  function Root(trace: seq<Label>, t: TaskId): Option<TaskId> {
    if trace == [] then None
    else
      var before, l := trace[..|trace| - 1], trace[|trace| - 1];
      Reroot(Root(before, t), Root(before, l.task), l, t)
  }

  function Reroot(own: Option<TaskId>, actors: Option<TaskId>, l: Label, t: TaskId): Option<TaskId> {
    if l.Arrive? && l.task == t then Some(t)
    else if l.Spawn? && l.child == t then actors
    else own
  }

  /** The steps of one request's tree. */
  function Alone(trace: seq<Label>, r: TaskId): seq<Label> {
    if trace == [] then []
    else
      var l := trace[|trace| - 1];
      Alone(trace[..|trace| - 1], r) + if Root(trace, l.task) == Some(r) then [l] else []
  }

  /** The lines logged by one request's tree. */
  function LinesOf(trace: seq<Label>, r: TaskId): seq<Line>
    requires Run(trace)
  {
    if trace == [] then []
    else
      var before, l := trace[..|trace| - 1], trace[|trace| - 1];
      LinesOf(before, r)
      + if l.Emit? && Root(trace, l.task) == Some(r) then [Line(l.task, After(before).store, l.message)] else []
  }

  /** `p` is what `s` looks like to request `r` alone. */
  ghost predicate Seen(s: State, p: State, root: TaskId -> Option<TaskId>, r: TaskId) {
    && (forall t :: t in s.captured ==> t in s.known)
    && (forall t :: t !in s.known ==> root(t) == None)
    && (forall t :: t in p.known <==> t in s.known && root(t) == Some(r))
    && (forall t :: t in p.captured <==> t in s.captured && root(t) == Some(r))
    && (forall t :: t in p.captured ==> p.captured[t] == s.captured[t])
    && (s.running.Some? ==> s.running.value in s.known)
    && (s.running == None ==> s.store == None && s.frames == [])
    && if s.running.Some? && root(s.running.value) == Some(r)
       then p.running == s.running && p.store == s.store && p.frames == s.frames
       else p.running == None && p.store == None && p.frames == []
  }

  lemma StepSeen(s: State, p: State, l: Label,
                 root: TaskId -> Option<TaskId>, after: TaskId -> Option<TaskId>, r: TaskId)
    requires Seen(s, p, root, r) && Enabled(s, l)
    requires forall t :: after(t) == Reroot(root(t), root(l.task), l, t)
    ensures after(l.task) == Some(r) ==> Enabled(p, l) && Seen(Step(s, l), Step(p, l), after, r)
    ensures after(l.task) == Some(r) && l.Emit? ==> Step(p, l).log == p.log + [Line(l.task, s.store, l.message)]
    ensures after(l.task) != Some(r) ==> Seen(Step(s, l), p, after, r)
  {
    assert after(l.task) == Reroot(root(l.task), root(l.task), l, l.task);
    match l {
      case Arrive(_) =>
      case Resume(_) =>
      case Suspend(_) =>
      case Enter(_, _) =>
      case Leave(_) =>
      case Spawn(_, child) => assert root(child) == None;
      case Emit(_, _) =>
    }
  }

  lemma Extend(trace: seq<Label>, l: Label)
    requires Run(trace) && Enabled(After(trace), l)
    ensures Run(trace + [l]) && After(trace + [l]) == Step(After(trace), l)
  {
    assert (trace + [l])[..|trace|] == trace;
  }

  function Roots(trace: seq<Label>): TaskId -> Option<TaskId> {
    (t: TaskId) => Root(trace, t)
  }

  lemma {:induction false} RequestRunsAlone(trace: seq<Label>, r: TaskId)
    requires Run(trace)
    ensures Run(Alone(trace, r))
    ensures Seen(After(trace), After(Alone(trace, r)), Roots(trace), r)
    ensures After(Alone(trace, r)).log == LinesOf(trace, r)
  {
    if trace != [] {
      var before, l := trace[..|trace| - 1], trace[|trace| - 1];
      assert before + [l] == trace;
      RequestRunsAlone(before, r);
      OneMoreStep(before, l, r);
    }
  }

  lemma OneMoreStep(before: seq<Label>, l: Label, r: TaskId)
    requires Run(before) && Run(Alone(before, r)) && Enabled(After(before), l) && Run(before + [l])
    requires Seen(After(before), After(Alone(before, r)), Roots(before), r)
    requires After(Alone(before, r)).log == LinesOf(before, r)
    ensures Run(Alone(before + [l], r))
    ensures Seen(After(before + [l]), After(Alone(before + [l], r)), Roots(before + [l]), r)
    ensures After(Alone(before + [l], r)).log == LinesOf(before + [l], r)
  {
    var trace, p := before + [l], Alone(before, r);
    assert trace[..|trace| - 1] == before;
    Extend(before, l);
    StepSeen(After(before), After(p), l, Roots(before), Roots(trace), r);
    if Root(trace, l.task) == Some(r) {
      Extend(p, l);
    } else {
      assert Alone(trace, r) == p;
    }
  }

  /** Whatever runs in between, a request logs what it logs when it is served alone. */
  lemma RequestsDoNotInterfere(trace: seq<Label>, r: TaskId)
    requires Run(trace)
    ensures Run(Alone(trace, r)) && LinesOf(trace, r) == After(Alone(trace, r)).log == ScopedLog(Alone(trace, r))
  {
    RequestRunsAlone(trace, r);
    LogFollowsAncestry(Alone(trace, r));
  }

  /** Every `run` in a request's tree is given that request's own id, as the middleware does. */
  predicate OwnIds(trace: seq<Label>, ids: TaskId -> Id) {
    trace == []
    || (OwnIds(trace[..|trace| - 1], ids)
        && (trace[|trace| - 1].Enter? ==>
              match Root(trace, trace[|trace| - 1].task)
              case Some(r) => trace[|trace| - 1].id == ids(r)
              case None => false))
  }

  /** A known task has a root, and its scopes are all that root's. */
  predicate InTree(known: bool, root: Option<TaskId>, scopes: seq<Id>, ids: TaskId -> Id) {
    && (known <==> root.Some?)
    && (root.None? ==> scopes == [])
    && (root.Some? ==> forall id :: id in scopes ==> id == ids(root.value))
  }

  lemma {:induction false} ScopesStayInTree(trace: seq<Label>, ids: TaskId -> Id, t: TaskId)
    requires Run(trace) && OwnIds(trace, ids)
    ensures InTree(t in After(trace).known, Root(trace, t), Scopes(trace, t), ids)
    ensures After(trace).running == Some(t) || t in After(trace).captured ==> t in After(trace).known
  {
    if trace != [] {
      var before, l := trace[..|trace| - 1], trace[|trace| - 1];
      ScopesStayInTree(before, ids, t);
      ScopesStayInTree(before, ids, l.task);
      var own := Scopes(before, t);
      if own != [] {
        assert forall id :: id in own[..|own| - 1] ==> id in own;
      }
      if l.Enter? {
        assert Root(trace, l.task) == Root(before, l.task);
        assert l.id == ids(Root(before, l.task).value);
        assert forall id :: id in own + [l.id] ==> id in own || id == l.id;
      } else if l.Leave? {
        assert forall id :: id in Scopes(trace, t) ==> id in own;
      } else if l.Spawn? {
        assert Scopes(trace, t) == if l.child == t then Scopes(before, l.task) else own;
      } else {
        assert Scopes(trace, t) == own;
      }
    }
  }

  /** No id leaks from one request into another: a line carries its own request's id, or none. */
  lemma {:induction false} NoForeignId(trace: seq<Label>, ids: TaskId -> Id)
    requires Run(trace) && OwnIds(trace, ids)
    ensures forall line :: line in After(trace).log ==>
              Root(trace, line.task).Some?
              && (line.id == None || line.id == Some(ids(Root(trace, line.task).value)))
  {
    if trace != [] {
      var before, l := trace[..|trace| - 1], trace[|trace| - 1];
      NoForeignId(before, ids);
      ScopesStayInTree(before, ids, l.task);
      EveryRunAgrees(before);
      if l.Emit? {
        var scopes := Scopes(before, l.task);
        assert After(before).store == Innermost(scopes);
        assert scopes != [] ==> scopes[|scopes| - 1] in scopes;
      }
      forall line | line in After(before).log ensures Root(trace, line.task) == Root(before, line.task) {
        ScopesStayInTree(before, ids, line.task);
      }
    }
  }

  // ---- two requests, interleaved

  /** A request comes in, runs under an id, leaves a continuation behind and is suspended. */
  lemma Visit(before: seq<Label>, t: TaskId, id: Id, child: TaskId) returns (trace: seq<Label>)
    requires Run(before) && After(before).running == None
    requires t !in After(before).known && child !in After(before).known && t != child
    ensures Run(trace) && After(trace).running == None && After(trace).log == After(before).log
    ensures After(trace).captured == After(before).captured[child := Some(id)]
    ensures After(trace).known == After(before).known + {t, child}
  {
    Extend(before, Arrive(t));
    trace := before + [Arrive(t)];
    Extend(trace, Enter(t, id));
    trace := trace + [Enter(t, id)];
    Extend(trace, Spawn(t, child));
    trace := trace + [Spawn(t, child)];
    Extend(trace, Leave(t));
    trace := trace + [Leave(t)];
    Extend(trace, Suspend(t));
    trace := trace + [Suspend(t)];
  }

  lemma LogAndSuspend(before: seq<Label>, t: TaskId, m: string) returns (trace: seq<Label>)
    requires Run(before) && After(before).running == None && t in After(before).captured
    ensures Run(trace) && After(trace).running == None
    ensures After(trace).log == After(before).log + [Line(t, After(before).captured[t], m)]
    ensures After(trace).captured == After(before).captured - {t}
  {
    Extend(before, Resume(t));
    trace := before + [Resume(t)];
    Extend(trace, Emit(t, m));
    trace := trace + [Emit(t, m)];
    Extend(trace, Suspend(t));
    trace := trace + [Suspend(t)];
  }

  /** For one: two requests come in, and their continuations run in the other order, each under its own id. */
  lemma TwoRequestsInterleave(a: Id, b: Id, m: string) returns (trace: seq<Label>)
    ensures Run(trace) && After(trace).log == [Line(3, Some(b), m), Line(2, Some(a), m)]
  {
    trace := Visit([], 0, a, 2);
    trace := Visit(trace, 1, b, 3);
    trace := LogAndSuspend(trace, 3, m);
    trace := LogAndSuspend(trace, 2, m);
  }

  // ---- the synchronous half, as the code has it

  /** What a function called by `run` does before it returns or throws. */
  datatype Action = Log(message: string) | Nested(id: Id, body: seq<Action>) | Throw

  /** A throw ends the body it is in and every `run` around it. */
  predicate Stops(action: Action)
    decreases action
  {
    action.Throw? || (action.Nested? && Throws(action.body))
  }

  predicate Throws(body: seq<Action>)
    decreases body
  {
    body != [] && (Stops(body[0]) || Throws(body[1..]))
  }

  function LinesOfAction(action: Action, t: TaskId, id: Option<Id>): seq<Line>
    decreases action
  {
    match action
    case Log(message) => [Line(t, id, message)]
    case Nested(inner, more) => Transcript(more, t, Some(inner))
    case Throw => []
  }

  /** The lines of a body up to its throw, each with the id of the `run` around it. */
  function Transcript(body: seq<Action>, t: TaskId, id: Option<Id>): seq<Line>
    decreases body
  {
    if body == [] then []
    else LinesOfAction(body[0], t, id) + if Stops(body[0]) then [] else Transcript(body[1..], t, id)
  }

  /** What a body logs, by its first action: these equations leave no choice. */
  lemma TranscriptByFirst(more: seq<Action>, m: string, inner: Id, body: seq<Action>, t: TaskId, id: Option<Id>)
    ensures Transcript([], t, id) == [] && !Throws([])
    ensures Transcript([Log(m)] + more, t, id) == [Line(t, id, m)] + Transcript(more, t, id)
    ensures Transcript([Throw] + more, t, id) == [] && Throws([Throw] + more)
    ensures Transcript([Nested(inner, body)] + more, t, id)
         == Transcript(body, t, Some(inner)) + if Throws(body) then [] else Transcript(more, t, id)
    ensures Throws([Log(m)] + more) <==> Throws(more)
    ensures Throws([Nested(inner, body)] + more) <==> Throws(body) || Throws(more)
  {
    assert ([Log(m)] + more)[1..] == more;
    assert ([Nested(inner, body)] + more)[1..] == more;
  }

  class Storage {
    var store: Option<Id>
    var log: seq<Line>

    constructor ()
      ensures store == None && log == []
    {
      store, log := None, [];
    }

    /** `runWithCorrelation(ctx, fn)`: the enclosing store comes back whether `fn` returns or throws. */
    method RunWithCorrelation(id: Id, body: seq<Action>, t: TaskId) returns (threw: bool)
      modifies this
      ensures store == old(store)
      ensures log == old(log) + Transcript(body, t, Some(id))
      ensures threw == Throws(body)
      decreases body, 1
    {
      var enclosing := store;
      store := Some(id);
      threw := Perform(body, t);
      store := enclosing;
    }

    method Perform(body: seq<Action>, t: TaskId) returns (threw: bool)
      modifies this
      ensures store == old(store)
      ensures log == old(log) + Transcript(body, t, store)
      ensures threw == Throws(body)
      decreases body, 0
    {
      if body == [] { return false; }
      match body[0] {
        case Log(message) => log := log + [Line(t, store, message)];
        case Nested(id, more) =>
          threw := RunWithCorrelation(id, more, t);
          if threw { return; }
        case Throw => return true;
      }
      threw := Perform(body[1..], t);
    }
  }
}
