/**
  Calls of `withTransaction` and `query` over one bounded pool of database
  clients, interleaved at every `await`.

  The server is modelled per session: a BEGIN inside an open transaction only
  warns, a statement outside a transaction commits by itself, and COMMIT of a
  failed transaction succeeds as a rollback. So nothing here keeps two calls
  apart except the order of steps in the service and the pool.
 */
module TransactionMachine {
  import opened Wrappers

  type CallId = nat
  type ClientId = nat
  type Write = nat
  type Error = nat

  // ---- the server

  /** A write, with the call on whose behalf it was sent. */
  datatype Entry = Entry(call: CallId, write: Write)

  datatype Transaction = Transaction(entries: seq<Entry>, failed: bool)

  /** A connection with its open transaction, if any. The server rolls back when the connection is lost. */
  datatype Session = Session(alive: bool, open: Option<Transaction>)

  const LOST := Session(false, None)
  const FRESH := Session(true, None)

  function ServerBegin(s: Session): Session {
    if s.open.Some? then s else s.(open := Some(Transaction([], false)))
  }

  predicate ServerAccepts(s: Session) {
    s.alive && (s.open.Some? ==> !s.open.value.failed)
  }

  /** The session after a statement that succeeds. */
  function ServerWrite(s: Session, e: Entry): Session {
    match s.open
    case Some(t) => s.(open := Some(t.(entries := t.entries + [e])))
    case None => s
  }

  /** What a successful statement makes durable at once. */
  function ServerAutoCommit(s: Session, e: Entry): seq<Entry> {
    if s.open.Some? then [] else [e]
  }

  function ServerFail(s: Session): Session {
    match s.open
    case Some(t) => s.(open := Some(t.(failed := true)))
    case None => s
  }

  /** What COMMIT makes durable. */
  function ServerCommit(s: Session): seq<Entry> {
    if s.open.Some? && !s.open.value.failed then s.open.value.entries else []
  }

  function ServerClose(s: Session): Session {
    s.(open := None)
  }

  // ---- the service and the pool

  datatype Kind = InTransaction | SingleQuery

  datatype Outcome = Returned | Threw(error: Error)

  /** Where a call stands: the `await` it is suspended at. */
  datatype Stage =
    | Connecting
    | Beginning(client: ClientId)
    | Running(client: ClientId)
    | Committing(client: ClientId)
    | RollingBack(client: ClientId, error: Error)
    | Releasing(client: ClientId, outcome: Outcome)
    | Querying(client: ClientId)
    | Done(outcome: Outcome)

  datatype Call = Call(kind: Kind, stage: Stage)

  /** `sessions` holds every client of the pool; those not idle are checked out. */
  datatype State = State(
    max: nat,
    sessions: map<ClientId, Session>,
    idle: set<ClientId>,
    calls: map<CallId, Call>,
    durable: seq<Entry>)

  function Init(max: nat): State {
    State(max, map[], {}, map[], [])
  }

  /** One step: what an awaited operation of one call came to, or the loss of a connection. */
  datatype Label =
    | Start(call: CallId, kind: Kind)
    | AcquireIdle(call: CallId, client: ClientId)
    | AcquireNew(call: CallId, client: ClientId)
    | ConnectFail(call: CallId, error: Error)
    | BeginOk(call: CallId)
    | BeginFail(call: CallId, error: Error, lost: bool)
    | WriteOk(call: CallId, write: Write)
    | StatementFail(call: CallId, error: Error, lost: bool)
    | FnReturn(call: CallId)
    | FnThrow(call: CallId, error: Error)
    | CommitOk(call: CallId)
    | CommitFail(call: CallId, error: Error, lost: bool, applied: bool)
    | RollbackOk(call: CallId)
    | RollbackFail(call: CallId, error: Error)
    | Release(call: CallId)
    | QueryOk(call: CallId, write: Write)
    | QueryFail(call: CallId, error: Error, lost: bool, write: Write, applied: bool)
    | ConnectionLost(client: ClientId)

  predicate Holds(stage: Stage) {
    !stage.Connecting? && !stage.Done?
  }

  /** The client of a call that holds one is a client of the pool. */
  predicate Connected(s: State, c: CallId) {
    c in s.calls && Holds(s.calls[c].stage) && s.calls[c].stage.client in s.sessions
  }

  function SessionOf(s: State, c: CallId): Session
    requires Connected(s, c)
  {
    s.sessions[s.calls[c].stage.client]
  }

  predicate Enabled(s: State, l: Label) {
    match l
    case Start(c, _) => c !in s.calls
    case AcquireIdle(c, cl) => c in s.calls && s.calls[c].stage == Connecting && cl in s.idle && cl in s.sessions
    case AcquireNew(c, cl) =>
      c in s.calls && s.calls[c].stage == Connecting
      && s.idle == {} && cl !in s.sessions && |s.sessions| < s.max
    case ConnectFail(c, _) => c in s.calls && s.calls[c].stage == Connecting
    case BeginOk(c) => Connected(s, c) && s.calls[c].stage.Beginning? && SessionOf(s, c).alive
    case BeginFail(c, _, _) => Connected(s, c) && s.calls[c].stage.Beginning?
    case WriteOk(c, _) => Connected(s, c) && s.calls[c].stage.Running? && ServerAccepts(SessionOf(s, c))
    case StatementFail(c, _, _) => Connected(s, c) && s.calls[c].stage.Running?
    case FnReturn(c) => Connected(s, c) && s.calls[c].stage.Running?
    case FnThrow(c, _) => Connected(s, c) && s.calls[c].stage.Running?
    case CommitOk(c) => Connected(s, c) && s.calls[c].stage.Committing? && SessionOf(s, c).alive
    case CommitFail(c, _, lost, applied) =>
      // Only a connection lost after the server acted hides a commit from the client.
      Connected(s, c) && s.calls[c].stage.Committing? && (applied ==> lost && SessionOf(s, c).alive)
    case RollbackOk(c) => Connected(s, c) && s.calls[c].stage.RollingBack? && SessionOf(s, c).alive
    case RollbackFail(c, _) => Connected(s, c) && s.calls[c].stage.RollingBack?
    case Release(c) => Connected(s, c) && s.calls[c].stage.Releasing?
    case QueryOk(c, _) => Connected(s, c) && s.calls[c].stage.Querying? && ServerAccepts(SessionOf(s, c))
    case QueryFail(c, _, lost, _, applied) =>
      // A single statement commits by itself, so a lost connection can hide that too.
      Connected(s, c) && s.calls[c].stage.Querying? && (applied ==> lost && ServerAccepts(SessionOf(s, c)))
    case ConnectionLost(cl) => cl in s.sessions && s.sessions[cl].alive
  }

  function MoveTo(s: State, c: CallId, stage: Stage): State
    requires c in s.calls
  {
    s.(calls := s.calls[c := s.calls[c].(stage := stage)])
  }

  function SetSession(s: State, cl: ClientId, session: Session): State {
    s.(sessions := s.sessions[cl := session])
  }

  /** `client.release()`: the pool keeps a working client and drops a broken one. */
  function GiveBack(s: State, cl: ClientId): State
    requires cl in s.sessions
  {
    if s.sessions[cl].alive then s.(idle := s.idle + {cl})
    else s.(sessions := s.sessions - {cl})
  }

  function Drop(s: State, cl: ClientId): State {
    s.(sessions := s.sessions - {cl}, idle := s.idle - {cl})
  }

  function Step(s: State, l: Label): State
    requires Enabled(s, l)
  {
    match l
    case Start(c, kind) => s.(calls := s.calls[c := Call(kind, Connecting)])
    case AcquireIdle(c, cl) => MoveTo(s.(idle := s.idle - {cl}), c, FirstAwait(s.calls[c].kind, cl))
    case AcquireNew(c, cl) => MoveTo(SetSession(s, cl, FRESH), c, FirstAwait(s.calls[c].kind, cl))
    case ConnectFail(c, e) => MoveTo(s, c, Done(Threw(e)))
    case BeginOk(c) =>
      var cl := s.calls[c].stage.client;
      MoveTo(SetSession(s, cl, ServerBegin(s.sessions[cl])), c, Running(cl))
    case BeginFail(c, e, lost) =>
      var cl := s.calls[c].stage.client;
      MoveTo(if lost then SetSession(s, cl, LOST) else s, c, RollingBack(cl, e))
    case WriteOk(c, w) =>
      var cl := s.calls[c].stage.client;
      var session := s.sessions[cl];
      SetSession(s, cl, ServerWrite(session, Entry(c, w)))
        .(durable := s.durable + ServerAutoCommit(session, Entry(c, w)))
    case StatementFail(c, _, lost) =>
      var cl := s.calls[c].stage.client;
      SetSession(s, cl, if lost then LOST else ServerFail(s.sessions[cl]))
    case FnReturn(c) => MoveTo(s, c, Committing(s.calls[c].stage.client))
    case FnThrow(c, e) => MoveTo(s, c, RollingBack(s.calls[c].stage.client, e))
    case CommitOk(c) =>
      var cl := s.calls[c].stage.client;
      MoveTo(SetSession(s, cl, ServerClose(s.sessions[cl])), c, Releasing(cl, Returned))
        .(durable := s.durable + ServerCommit(s.sessions[cl]))
    case CommitFail(c, e, lost, applied) =>
      var cl := s.calls[c].stage.client;
      MoveTo(SetSession(s, cl, if lost then LOST else ServerClose(s.sessions[cl])), c, RollingBack(cl, e))
        .(durable := s.durable + if applied then ServerCommit(s.sessions[cl]) else [])
    case RollbackOk(c) =>
      var cl := s.calls[c].stage.client;
      MoveTo(SetSession(s, cl, ServerClose(s.sessions[cl])), c, Releasing(cl, Threw(s.calls[c].stage.error)))
    case RollbackFail(c, _) =>
      var cl := s.calls[c].stage.client;
      MoveTo(SetSession(s, cl, LOST), c, Releasing(cl, Threw(s.calls[c].stage.error)))
    case Release(c) => MoveTo(GiveBack(s, s.calls[c].stage.client), c, Done(s.calls[c].stage.outcome))
    case QueryOk(c, w) =>
      var cl := s.calls[c].stage.client;
      var session := s.sessions[cl];
      MoveTo(GiveBack(SetSession(s, cl, ServerWrite(session, Entry(c, w))), cl), c, Done(Returned))
        .(durable := s.durable + ServerAutoCommit(session, Entry(c, w)))
    case QueryFail(c, e, _, w, applied) =>
      var cl := s.calls[c].stage.client;
      MoveTo(Drop(s, cl), c, Done(Threw(e)))
        .(durable := s.durable + if applied then ServerAutoCommit(s.sessions[cl], Entry(c, w)) else [])
    case ConnectionLost(cl) => if cl in s.idle then Drop(s, cl) else SetSession(s, cl, LOST)
  }

  function FirstAwait(kind: Kind, cl: ClientId): Stage {
    if kind == InTransaction then Beginning(cl) else Querying(cl)
  }

  // ---- runs

  predicate Run(max: nat, trace: seq<Label>)
    decreases |trace|, 0
  {
    trace == [] || (Run(max, trace[..|trace| - 1]) && Enabled(After(max, trace[..|trace| - 1]), trace[|trace| - 1]))
  }

  function After(max: nat, trace: seq<Label>): State
    requires Run(max, trace)
    decreases |trace|, 1
  {
    if trace == [] then Init(max) else Step(After(max, trace[..|trace| - 1]), trace[|trace| - 1])
  }

  // ---- what an observer of the run sees of one call

  /**
    `cause` is the first error that leaves the `try` block or the connect;
    `failed` says that some statement failed, caught by `fn` or not.
   */
  datatype Seen = Seen(
    writes: seq<Write>, failed: bool, cause: Option<Error>,
    acquired: nat, released: nat, committing: bool, committed: bool)

  const NOTHING := Seen([], false, None, 0, 0, false, false)

  predicate Concerns(l: Label, c: CallId) {
    !l.ConnectionLost? && l.call == c
  }

  function See(v: Seen, l: Label): Seen {
    match l
    case AcquireIdle(_, _) => v.(acquired := v.acquired + 1)
    case AcquireNew(_, _) => v.(acquired := v.acquired + 1)
    case ConnectFail(_, e) => v.(cause := FirstOf(v.cause, e))
    case BeginFail(_, e, _) => v.(cause := FirstOf(v.cause, e))
    case WriteOk(_, w) => v.(writes := v.writes + [w])
    case StatementFail(_, _, _) => v.(failed := true)
    case FnReturn(_) => v.(committing := true)
    case FnThrow(_, e) => v.(cause := FirstOf(v.cause, e))
    case CommitOk(_) => v.(committed := true)
    case CommitFail(_, e, _, applied) => v.(cause := FirstOf(v.cause, e), committed := v.committed || applied)
    case Release(_) => v.(released := v.released + 1)
    case QueryOk(_, w) => v.(writes := v.writes + [w], committed := true, released := v.released + 1)
    case QueryFail(_, e, _, w, applied) =>
      v.(cause := FirstOf(v.cause, e), released := v.released + 1, committed := v.committed || applied,
         writes := if applied then v.writes + [w] else v.writes)
    case _ => v
  }

  function FirstOf(cause: Option<Error>, e: Error): Option<Error> {
    if cause.Some? then cause else Some(e)
  }

  function View(trace: seq<Label>, c: CallId): Seen {
    if trace == [] then NOTHING
    else
      var before, l := View(trace[..|trace| - 1], c), trace[|trace| - 1];
      if Concerns(l, c) then See(before, l) else before
  }

  function Entries(c: CallId, writes: seq<Write>): seq<Entry> {
    seq(|writes|, i requires 0 <= i < |writes| => Entry(c, writes[i]))
  }

  /** What a call contributes if it commits: everything it wrote, or nothing once a statement has failed. */
  function Contribution(c: CallId, v: Seen): seq<Entry> {
    if v.failed then [] else Entries(c, v.writes)
  }

  /** What a step appends to the durable log: at most the contribution of the call that steps. */
  function Appended(l: Label, v: Seen): seq<Entry> {
    match l
    case CommitOk(c) => Contribution(c, v)
    case CommitFail(c, _, _, applied) => if applied then Contribution(c, v) else []
    case QueryOk(c, w) => [Entry(c, w)]
    case QueryFail(c, _, _, w, applied) => if applied then [Entry(c, w)] else []
    case _ => []
  }

  /** What is seen of the call that takes a step. */
  function Own(trace: seq<Label>, l: Label): Seen {
    if l.ConnectionLost? then NOTHING else View(trace, l.call)
  }

  /** The simple database: each commit appends that call's own writes in one piece, and nothing else changes it. */
  function AtomicDatabase(trace: seq<Label>): seq<Entry> {
    if trace == [] then []
    else
      var before, l := trace[..|trace| - 1], trace[|trace| - 1];
      AtomicDatabase(before) + Appended(l, Own(before, l))
  }

  /** The durable writes of one call. */
  function DurableOf(durable: seq<Entry>, c: CallId): seq<Entry> {
    if durable == [] then []
    else
      DurableOf(durable[..|durable| - 1], c)
      + if durable[|durable| - 1].call == c then [durable[|durable| - 1]] else []
  }
}
