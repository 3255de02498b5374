/**
  The service itself, method by method, run against the machine. At every
  `await` other calls may take any steps of their own: the contract of `Yield`
  promises nothing else, and nothing else is used here.
 */
module DatabaseService {
  import opened Wrappers
  import opened TransactionMachine
  import opened TransactionSafety

  /** A statement of `fn`, and whether `fn` catches its error. */
  datatype Statement = Statement(write: Write, caught: bool)

  datatype Ending = Return | Raise(error: Error)

  /** What the environment answers to an awaited operation: the error, and whether the connection goes with it. */
  datatype Answer = Ok | Fails(error: Error, lost: bool)

  /** The error of an operation on a connection or transaction that is already broken. */
  const BROKEN: Error := 0

  function WritesOf(fn: seq<Statement>): seq<Write> {
    seq(|fn|, i requires 0 <= i < |fn| => fn[i].write)
  }

  /** Exactly the writes of `fn`, each of them once and in order. */
  predicate WritesAre(entries: seq<Entry>, c: CallId, fn: seq<Statement>) {
    |entries| == |fn| && forall i :: 0 <= i < |fn| ==> entries[i] == Entry(c, fn[i].write)
  }

  predicate NoneOf(c: CallId, labels: seq<Label>) {
    forall l :: l in labels ==> !Concerns(l, c)
  }

  /** How many connections were lost. */
  function Losses(trace: seq<Label>): nat {
    if trace == [] then 0
    else Losses(trace[..|trace| - 1]) + if trace[|trace| - 1].ConnectionLost? then 1 else 0
  }

  /** What other calls leave alone while call `c` is suspended. */
  lemma {:induction false} OthersLeaveAlone(max: nat, before: seq<Label>, others: seq<Label>, c: CallId)
    requires Run(max, before + others) && NoneOf(c, others)
    ensures Run(max, before)
    ensures View(before + others, c) == View(before, c)
    ensures Losses(before) <= Losses(before + others)
    ensures var s, t := After(max, before), After(max, before + others);
            && (c in t.calls <==> c in s.calls)
            && (c in s.calls ==> t.calls[c] == s.calls[c])
            && (c in s.calls && Holds(s.calls[c].stage) && Losses(before + others) == Losses(before) ==>
                  Connected(s, c) && Connected(t, c) && SessionOf(t, c) == SessionOf(s, c))
  {
    if others == [] {
      assert before + others == before;
      EveryRunKeepsInv(max, before);
      if c in After(max, before).calls && Holds(After(max, before).calls[c].stage) {
        assert HoldsClient(After(max, before), c, After(max, before).calls[c].stage.client);
      }
    } else {
      var fewer, l := others[..|others| - 1], others[|others| - 1];
      assert (before + others)[..|before + others| - 1] == before + fewer;
      assert l in others && (before + others)[|before + others| - 1] == l;
      OthersLeaveAlone(max, before, fewer, c);
      EveryRunKeepsInv(max, before + fewer);
      var s := After(max, before + fewer);
      if c in s.calls {
        OtherCallsUntouched(s, l, c);
        if Holds(s.calls[c].stage) && !l.ConnectionLost? {
          OtherSessionsUntouched(s, l, c);
        }
      }
    }
  }

  // ---- what a call comes to when nothing but the answers below goes wrong

  /** The error that leaves `fn`, if any: the first one it does not catch, else its own. */
  function FnThrows(fn: seq<Statement>, ending: Ending, answers: seq<Answer>): Option<Error>
    requires |answers| == |fn|
  {
    if fn == [] then (if ending.Raise? then Some(ending.error) else None)
    else if answers[0].Fails? && !fn[0].caught then Some(answers[0].error)
    else FnThrows(fn[1..], ending, answers[1..])
  }

  /** The error that leaves the `try` block, if any. */
  function TryThrows(fn: seq<Statement>, ending: Ending,
                     begin: Answer, answers: seq<Answer>, commit: Answer): Option<Error>
    requires |answers| == |fn|
  {
    if begin.Fails? then Some(begin.error)
    else if FnThrows(fn, ending, answers).Some? then FnThrows(fn, ending, answers)
    else if commit.Fails? then Some(commit.error)
    else None
  }

  function Completion(connect: Answer, thrown: Option<Error>): Outcome {
    if connect.Fails? then Threw(connect.error)
    else if thrown.Some? then Threw(thrown.value)
    else Returned
  }

  // ---- the same on the answers alone

  /** Statement `i` ends `fn`: it fails, `fn` does not catch that, and before it every failure was caught. */
  predicate EndsFn(fn: seq<Statement>, answers: seq<Answer>, i: int)
    requires |answers| == |fn|
  {
    0 <= i < |fn| && answers[i].Fails? && !fn[i].caught
    && forall k :: 0 <= k < i && answers[k].Fails? ==> fn[k].caught
  }

  predicate AllCaught(fn: seq<Statement>, answers: seq<Answer>)
    requires |answers| == |fn|
  {
    forall k :: 0 <= k < |fn| && answers[k].Fails? ==> fn[k].caught
  }

  /** `fn` catches no failure, so nothing is sent in a transaction that has failed. */
  predicate NoneCaught(fn: seq<Statement>, answers: seq<Answer>)
    requires |answers| == |fn|
  {
    forall k :: 0 <= k < |fn| && answers[k].Fails? ==> !fn[k].caught
  }

  /** What leaves `fn` is the error of the statement that ends it; if none does, its own error or nothing. */
  lemma {:induction false} FnThrowsFirstUncaught(fn: seq<Statement>, ending: Ending, answers: seq<Answer>)
    requires |answers| == |fn|
    ensures forall i :: EndsFn(fn, answers, i) ==> FnThrows(fn, ending, answers) == Some(answers[i].error)
    ensures AllCaught(fn, answers) && ending.Raise? ==> FnThrows(fn, ending, answers) == Some(ending.error)
    ensures AllCaught(fn, answers) && ending.Return? ==> FnThrows(fn, ending, answers) == None
    ensures AllCaught(fn, answers) || exists i :: EndsFn(fn, answers, i)
  {
    if fn != [] {
      var more, rest := fn[1..], answers[1..];
      FnThrowsFirstUncaught(more, ending, rest);
      assert forall k :: 0 <= k < |more| ==> more[k] == fn[k + 1] && rest[k] == answers[k + 1];
      if answers[0].Fails? && !fn[0].caught {
        assert EndsFn(fn, answers, 0);
      } else {
        forall i | EndsFn(fn, answers, i) ensures EndsFn(more, rest, i - 1) {
        }
        forall i | EndsFn(more, rest, i) ensures EndsFn(fn, answers, i + 1) {
          assert forall k :: 0 < k < i + 1 && answers[k].Fails? ==> rest[k - 1].Fails? && more[k - 1].caught;
        }
        assert AllCaught(more, rest) ==> AllCaught(fn, answers) by {
          assert forall k :: 0 < k < |fn| ==> fn[k] == more[k - 1] && answers[k] == rest[k - 1];
        }
      }
    }
  }

  /** The outcome is the expected one, or, unless things were calm, the error of something already broken. */
  predicate Comes(o: Outcome, expected: Outcome, calm: bool) {
    o == expected || (!calm && o == Threw(BROKEN))
  }

  /** What a transaction comes to, told by the answers: the first error of connect, BEGIN, `fn` and COMMIT. */
  predicate FirstErrorDecides(o: Outcome, fn: seq<Statement>, ending: Ending, connect: Answer, begin: Answer,
                              answers: seq<Answer>, commit: Answer, calm: bool)
    requires |answers| == |fn|
  {
    if connect.Fails? then o == Threw(connect.error)
    else if begin.Fails? then Comes(o, Threw(begin.error), calm)
    else if !AllCaught(fn, answers) then
      forall i :: 0 <= i < |fn| && EndsFn(fn, answers, i) ==> Comes(o, Threw(answers[i].error), calm)
    else if ending.Raise? then Comes(o, Threw(ending.error), calm)
    else if commit.Fails? then Comes(o, Threw(commit.error), calm)
    else Comes(o, Returned, calm)
  }

  lemma CompletionIsFirstError(o: Outcome, fn: seq<Statement>, ending: Ending, connect: Answer, begin: Answer,
                               answers: seq<Answer>, commit: Answer, calm: bool)
    requires |answers| == |fn|
    requires connect.Fails? ==> o == Threw(connect.error)
    requires Comes(o, Completion(connect, TryThrows(fn, ending, begin, answers, commit)), calm)
    ensures FirstErrorDecides(o, fn, ending, connect, begin, answers, commit, calm)
    ensures o == Returned ==> && connect.Ok? && begin.Ok? && commit.Ok? && ending.Return?
                              && forall i :: 0 <= i < |fn| && answers[i].Fails? ==> fn[i].caught
  {
    FnThrowsFirstUncaught(fn, ending, answers);
  }

  class Service {
    const max: nat
    var state: State
    var nextClient: ClientId
    ghost var trace: seq<Label>

    ghost predicate Valid()
      reads this
    {
      && Run(max, trace)
      && state == After(max, trace)
      && forall cl :: cl in state.sessions ==> cl < nextClient
    }

    constructor (max: nat)
      ensures Valid() && this.max == max && trace == []
    {
      this.max := max;
      state := Init(max);
      nextClient := 0;
      trace := [];
    }

    /** The call is suspended: others run, the call itself does not. */
    method Yield(c: CallId)
      requires Valid()
      modifies this
      ensures Valid()
      ensures exists others :: NoneOf(c, others) && trace == old(trace) + others
    {
      assert NoneOf(c, []) && trace == trace + [];
    }

    /** `await`: what the call can rely on when it goes on. */
    method Await(c: CallId)
      requires Valid()
      modifies this
      ensures Valid()
      ensures old(trace) <= trace && View(trace, c) == View(old(trace), c)
      ensures c in state.calls <==> c in old(state.calls)
      ensures c in state.calls ==> state.calls[c] == old(state.calls[c])
      ensures Losses(old(trace)) <= Losses(trace)
      ensures Losses(trace) == Losses(old(trace)) && old(Connected(state, c)) ==>
                Connected(state, c) && SessionOf(state, c) == old(SessionOf(state, c))
    {
      ghost var before := trace;
      Yield(c);
      ghost var others :| NoneOf(c, others) && trace == before + others;
      OthersLeaveAlone(max, before, others, c);
    }

    /** The call takes one step. */
    method Take(l: Label, c: CallId)
      requires Valid() && Enabled(state, l) && Concerns(l, c)
      requires l.AcquireNew? ==> l.client < nextClient
      modifies this`state, this`trace
      ensures Valid()
      ensures trace == old(trace) + [l] && state == Step(old(state), l)
      ensures View(trace, c) == See(View(old(trace), c), l) && Losses(trace) == Losses(old(trace))
    {
      Extend(max, trace, l, c);
      assert (trace + [l])[..|trace|] == trace;
      state := Step(state, l);
      trace := trace + [l];
    }

    /** Nothing the answers do not tell has gone wrong for the call since a point of the run. */
    ghost predicate Undisturbed(since: seq<Label>, c: CallId)
      reads this
    {
      Losses(trace) == Losses(since) && !View(trace, c).failed
    }

    /** No connection was lost, and no statement failed or none of the failures was caught. */
    ghost predicate Calm(since: seq<Label>, c: CallId, fn: seq<Statement>, answers: seq<Answer>)
      requires |answers| == |fn|
      reads this
    {
      Losses(trace) == Losses(since) && (!View(trace, c).failed || NoneCaught(fn, answers))
    }

    /** The call holds a client whose connection works. */
    ghost predicate Alive(c: CallId)
      reads this
    {
      Connected(state, c) && SessionOf(state, c).alive
    }

    /** The invariant of every run, for the call at hand. */
    lemma Holding(c: CallId)
      requires Valid()
      ensures state.max == max && state.idle <= state.sessions.Keys && CallInv(state, View(trace, c), c)
      ensures forall cl :: cl in state.idle ==> state.sessions[cl] == FRESH
    {
      EveryRunKeepsInv(max, trace);
    }

    /** The call is made. */
    method Open(c: CallId, kind: Kind)
      requires Valid() && c !in state.calls
      modifies this
      ensures Valid() && old(trace) <= trace && Losses(trace) == Losses(old(trace))
      ensures c in state.calls && state.calls[c] == Call(kind, Connecting)
    {
      Take(Start(c, kind), c);
    }

    /** `client.release()`. */
    method Close(c: CallId)
      requires Valid() && c in state.calls && state.calls[c].stage.Releasing?
      modifies this
      ensures Valid() && old(trace) <= trace && Losses(trace) == Losses(old(trace))
      ensures c in state.calls && state.calls[c] == Call(InTransaction, Done(old(state.calls[c].stage.outcome)))
      ensures View(trace, c) == View(old(trace), c).(released := 1) && View(trace, c).acquired == 1
    {
      Holding(c);
      Take(Release(c), c);
    }

    /** `pool.connect()`: an idle client, else a new one, else a timeout. */
    method Connect(c: CallId, answer: Answer) returns (error: Option<Error>)
      requires Valid() && c in state.calls && state.calls[c].stage == Connecting
      modifies this
      ensures Valid() && old(trace) <= trace && Losses(old(trace)) <= Losses(trace)
      ensures c in state.calls && state.calls[c].kind == old(state.calls[c].kind)
      ensures match error
              case Some(e) =>
                && state.calls[c].stage == Done(Threw(e)) && View(trace, c).acquired == 0
                && (if answer.Fails? then e == answer.error
                    else e == BROKEN && state.idle == {} && |state.sessions| >= max)
              case None =>
                && answer.Ok? && Alive(c)
                && state.calls[c].stage == FirstAwait(state.calls[c].kind, state.calls[c].stage.client)
    {
      Await(c);
      Holding(c);
      if answer.Ok? && state.idle != {} {
        var cl :| cl in state.idle;
        Take(AcquireIdle(c, cl), c);
        return None;
      } else if answer.Ok? && |state.sessions| < max {
        var cl := nextClient;
        nextClient := nextClient + 1;
        Take(AcquireNew(c, cl), c);
        return None;
      } else {
        var e := if answer.Fails? then answer.error else BROKEN;
        Take(ConnectFail(c, e), c);
        return Some(e);
      }
    }

    /** `client.query('BEGIN')`. */
    method Begin(c: CallId, answer: Answer) returns (thrown: Option<Error>)
      requires Valid() && c in state.calls && state.calls[c].stage.Beginning?
      modifies this
      ensures Valid() && old(trace) <= trace && Losses(old(trace)) <= Losses(trace) && c in state.calls
      ensures match thrown
              case None => state.calls[c].stage.Running? && View(trace, c) == NOTHING.(acquired := 1) && Alive(c)
              case Some(e) => state.calls[c].stage.RollingBack? && state.calls[c].stage.error == e
      ensures thrown == (if answer.Fails? then Some(answer.error) else None) || thrown == Some(BROKEN)
      ensures answer.Fails? || (old(Alive(c)) && Losses(trace) == Losses(old(trace))) ==>
                thrown == if answer.Fails? then Some(answer.error) else None
    {
      Await(c);
      Holding(c);
      if answer.Ok? && SessionOf(state, c).alive {
        Take(BeginOk(c), c);
        return None;
      } else {
        var e := if answer.Fails? then answer.error else BROKEN;
        Take(BeginFail(c, e, answer.Fails? && answer.lost), c);
        return Some(e);
      }
    }

    /** One statement of `fn` on the client; the error goes to `fn`. */
    method Query(c: CallId, w: Write, answer: Answer) returns (error: Option<Error>)
      requires Valid() && c in state.calls && state.calls[c].stage.Running?
      modifies this
      ensures Valid() && old(trace) <= trace && Losses(old(trace)) <= Losses(trace)
      ensures c in state.calls && state.calls[c].stage.Running?
      ensures View(trace, c) == if error.None? then View(old(trace), c).(writes := View(old(trace), c).writes + [w])
                                else View(old(trace), c).(failed := true)
      ensures match error
              case None => answer.Ok? && Alive(c)
              case Some(e) => e == if answer.Fails? then answer.error else BROKEN
      ensures answer.Ok? && old(Alive(c)) && !View(old(trace), c).failed && Losses(trace) == Losses(old(trace)) ==>
                error == None
    {
      Await(c);
      Holding(c);
      if answer.Ok? && ServerAccepts(SessionOf(state, c)) {
        Take(WriteOk(c, w), c);
        return None;
      } else {
        var e := if answer.Fails? then answer.error else BROKEN;
        Take(StatementFail(c, e, answer.Fails? && answer.lost), c);
        return Some(e);
      }
    }

    /** `fn(client)`: its statements in order, then its result. */
    method CallFn(c: CallId, fn: seq<Statement>, ending: Ending, answers: seq<Answer>) returns (thrown: Option<Error>)
      requires Valid() && c in state.calls && state.calls[c].stage.Running? && Alive(c)
      requires View(trace, c) == NOTHING.(acquired := 1)
      requires |answers| == |fn|
      modifies this
      ensures Valid() && old(trace) <= trace && Losses(old(trace)) <= Losses(trace)
      ensures c in state.calls && state.calls[c].stage.Running?
      ensures thrown.None? && !View(trace, c).failed ==> View(trace, c).writes == WritesOf(fn)
      ensures thrown == FnThrows(fn, ending, answers) || thrown == Some(BROKEN)
      ensures Undisturbed(old(trace), c) ==> thrown == FnThrows(fn, ending, answers) && Alive(c)
      ensures NoneCaught(fn, answers) && Losses(trace) == Losses(old(trace)) ==>
                thrown == FnThrows(fn, ending, answers) && (thrown.None? ==> !View(trace, c).failed)
    {
      for i := 0 to |fn|
        invariant Valid() && old(trace) <= trace && Losses(old(trace)) <= Losses(trace)
        invariant c in state.calls && state.calls[c].stage.Running?
        invariant !View(trace, c).failed ==> View(trace, c).writes == WritesOf(fn[..i])
        invariant FnThrows(fn, ending, answers) == FnThrows(fn[i..], ending, answers[i..])
        invariant Undisturbed(old(trace), c) ==> Alive(c)
        invariant NoneCaught(fn, answers) && Losses(trace) == Losses(old(trace)) ==> !View(trace, c).failed
      {
        var error := Query(c, fn[i].write, answers[i]);
        assert fn[i..][1..] == fn[i + 1..] && answers[i..][1..] == answers[i + 1..];
        if error.Some? && !fn[i].caught {
          return error;
        }
        assert WritesOf(fn[..i + 1]) == WritesOf(fn[..i]) + [fn[i].write];
      }
      assert fn[..|fn|] == fn;
      match ending {
        case Return => return None;
        case Raise(e) => return Some(e);
      }
    }

    /** `client.query('COMMIT')`; `applied` says whether a connection lost here hides a commit. */
    method Commit(c: CallId, answer: Answer, applied: bool) returns (thrown: Option<Error>)
      requires Valid() && c in state.calls && state.calls[c].stage.Committing?
      modifies this
      ensures Valid() && old(trace) <= trace && Losses(old(trace)) <= Losses(trace) && c in state.calls
      ensures View(trace, c).writes == View(old(trace), c).writes && View(trace, c).failed == View(old(trace), c).failed
      ensures match thrown
              case None => state.calls[c].stage.Releasing? && state.calls[c].stage.outcome == Returned
              case Some(e) => state.calls[c].stage.RollingBack? && state.calls[c].stage.error == e
      ensures thrown == (if answer.Fails? then Some(answer.error) else None) || thrown == Some(BROKEN)
      ensures answer.Fails? || (old(Alive(c)) && Losses(trace) == Losses(old(trace))) ==>
                thrown == if answer.Fails? then Some(answer.error) else None
    {
      Await(c);
      Holding(c);
      if answer.Ok? && SessionOf(state, c).alive {
        Take(CommitOk(c), c);
        return None;
      } else {
        var e := if answer.Fails? then answer.error else BROKEN;
        var lost := answer.Fails? && answer.lost;
        Take(CommitFail(c, e, lost, applied && lost && SessionOf(state, c).alive), c);
        return Some(e);
      }
    }

    /** `client.query('ROLLBACK')`; its own error is dropped. */
    method Rollback(c: CallId, answer: Answer)
      requires Valid() && c in state.calls && state.calls[c].stage.RollingBack?
      modifies this
      ensures Valid() && old(trace) <= trace && Losses(old(trace)) <= Losses(trace) && c in state.calls
      ensures View(trace, c).failed == View(old(trace), c).failed
      ensures state.calls[c].stage.Releasing?
      ensures state.calls[c].stage.outcome == Threw(old(state.calls[c].stage.error))
    {
      Await(c);
      Holding(c);
      if answer.Ok? && SessionOf(state, c).alive {
        Take(RollbackOk(c), c);
      } else {
        Take(RollbackFail(c, if answer.Fails? then answer.error else BROKEN), c);
      }
    }

    /** The `try` block: BEGIN, `fn`, COMMIT. */
    method Attempt(c: CallId, fn: seq<Statement>, ending: Ending,
                   begin: Answer, answers: seq<Answer>, commit: Answer, applied: bool)
      returns (thrown: Option<Error>)
      requires Valid() && c in state.calls && state.calls[c].stage.Beginning? && Alive(c) && |answers| == |fn|
      modifies this
      ensures Valid() && old(trace) <= trace && Losses(old(trace)) <= Losses(trace) && c in state.calls
      ensures match thrown
              case None => state.calls[c].stage.Releasing? && state.calls[c].stage.outcome == Returned
                           && (!View(trace, c).failed ==> View(trace, c).writes == WritesOf(fn))
              case Some(e) => state.calls[c].stage.RollingBack? && state.calls[c].stage.error == e
      ensures thrown == TryThrows(fn, ending, begin, answers, commit) || thrown == Some(BROKEN)
      ensures Calm(old(trace), c, fn, answers) ==> thrown == TryThrows(fn, ending, begin, answers, commit)
    {
      thrown := Begin(c, begin);
      if thrown.Some? { return; }
      thrown := CallFn(c, fn, ending, answers);
      thrown := EndFn(c, thrown, commit, applied);
    }

    /** What follows `fn`: its error goes on, or COMMIT is sent. */
    method EndFn(c: CallId, fnThrew: Option<Error>, commit: Answer, applied: bool) returns (thrown: Option<Error>)
      requires Valid() && c in state.calls && state.calls[c].stage.Running?
      modifies this
      ensures Valid() && old(trace) <= trace && Losses(old(trace)) <= Losses(trace) && c in state.calls
      ensures View(trace, c).writes == View(old(trace), c).writes && View(trace, c).failed == View(old(trace), c).failed
      ensures match thrown
              case None => state.calls[c].stage.Releasing? && state.calls[c].stage.outcome == Returned && fnThrew.None?
              case Some(e) => state.calls[c].stage.RollingBack? && state.calls[c].stage.error == e
      ensures fnThrew.Some? ==> thrown == fnThrew
      ensures fnThrew.None? && (commit.Fails? || (old(Alive(c)) && Losses(trace) == Losses(old(trace)))) ==>
                thrown == if commit.Fails? then Some(commit.error) else None
      ensures fnThrew.None? ==>
                thrown == (if commit.Fails? then Some(commit.error) else None) || thrown == Some(BROKEN)
    {
      Holding(c);
      if fnThrew.Some? {
        Take(FnThrow(c, fnThrew.value), c);
        thrown := fnThrew;
      } else {
        Take(FnReturn(c), c);
        thrown := Commit(c, commit, applied);
      }
    }

    /** What the machine guarantees of a finished transaction. */
    lemma Finishing(c: CallId)
      requires Valid() && c in state.calls && state.calls[c].kind == InTransaction && state.calls[c].stage.Done?
      ensures View(trace, c).released == View(trace, c).acquired <= 1
      ensures var v, o := View(trace, c), state.calls[c].stage.outcome;
              && DurableOf(state.durable, c) == (if v.committed then Contribution(c, v) else [])
              && (o == Returned ==> v.committed)
              && (o.Threw? ==> v.cause == Some(o.error) && (v.committed ==> v.committing))
    {
      EveryRunKeepsInv(max, trace);
      assert CallInv(state, View(trace, c), c) && DurableInv(state, View(trace, c), c);
    }

    /**
      `withTransaction(fn)`, for everything `fn` may do and everything the
      environment may answer. Unless a connection was lost, a statement failed
      or the pool was exhausted, the answers alone decide what it comes to; in
      no case is it ROLLBACK's answer that does.
     */
    method WithTransaction(c: CallId, fn: seq<Statement>, ending: Ending,
                           connect: Answer, begin: Answer, answers: seq<Answer>,
                           commit: Answer, applied: bool, rollback: Answer)
      returns (o: Outcome)
      requires Valid() && c !in state.calls && |answers| == |fn|
      modifies this
      ensures Valid() && old(trace) <= trace
      ensures c in state.calls && state.calls[c] == Call(InTransaction, Done(o))
      ensures View(trace, c).released == View(trace, c).acquired <= 1
      ensures o == Returned && !View(trace, c).failed ==> WritesAre(DurableOf(state.durable, c), c, fn)
      ensures o == Returned && View(trace, c).failed ==> DurableOf(state.durable, c) == []
      ensures o.Threw? ==> View(trace, c).cause == Some(o.error)
      ensures o.Threw? && !View(trace, c).committing ==> DurableOf(state.durable, c) == []
      ensures o.Threw? ==> DurableOf(state.durable, c) == []
                           || DurableOf(state.durable, c) == Entries(c, View(trace, c).writes)
      ensures o == Returned ==> && connect.Ok? && begin.Ok? && commit.Ok? && ending.Return?
                                && forall i :: 0 <= i < |fn| && answers[i].Fails? ==> fn[i].caught
      ensures FirstErrorDecides(o, fn, ending, connect, begin, answers, commit,
                                View(trace, c).acquired == 1 && Calm(old(trace), c, fn, answers))
      ensures View(trace, c).acquired == 0 && connect.Ok? ==> state.idle == {} && |state.sessions| >= max
    {
      ghost var since := trace;
      Open(c, InTransaction);
      var refused := Connect(c, connect);
      if refused.Some? {
        o := Threw(refused.value);
      } else {
        var thrown := Attempt(c, fn, ending, begin, answers, commit, applied);
        if thrown.Some? {
          Rollback(c, rollback);
          o := Threw(thrown.value);
        } else {
          o := Returned;
        }
        Close(c);
      }
      Finishing(c);
      CompletionIsFirstError(o, fn, ending, connect, begin, answers, commit,
                             View(trace, c).acquired == 1 && Calm(since, c, fn, answers));
    }

    /**
      `query`: one statement outside any transaction. Having returned, its
      write is durable; having thrown, nothing is, unless a connection lost here
      hides that the server had committed it.
     */
    method PoolQuery(c: CallId, w: Write, connect: Answer, answer: Answer, applied: bool) returns (o: Outcome)
      requires Valid() && c !in state.calls
      modifies this
      ensures Valid() && old(trace) <= trace
      ensures c in state.calls && state.calls[c] == Call(SingleQuery, Done(o))
      ensures View(trace, c).released == View(trace, c).acquired <= 1
      ensures o == Returned ==> DurableOf(state.durable, c) == [Entry(c, w)]
      ensures o.Threw? ==> DurableOf(state.durable, c) == []
                           || (DurableOf(state.durable, c) == [Entry(c, w)] && answer.Fails? && answer.lost && applied)
      ensures o == Returned ==> connect.Ok? && answer.Ok?
      ensures connect.Fails? ==> o == Threw(connect.error)
      ensures connect.Ok? && answer.Fails? && View(trace, c).acquired == 1 ==> o == Threw(answer.error)
      ensures connect.Ok? && answer.Ok? && View(trace, c).acquired == 1 && Losses(trace) == Losses(old(trace)) ==>
                o == Returned
      ensures o.Threw? ==> o.error == BROKEN || (connect.Fails? && o.error == connect.error)
                           || (answer.Fails? && o.error == answer.error)
      ensures View(trace, c).acquired == 0 && connect.Ok? ==> state.idle == {} && |state.sessions| >= max
    {
      Open(c, SingleQuery);
      var refused := Connect(c, connect);
      if refused.Some? {
        o := Threw(refused.value);
      } else {
        o := Execute(c, w, answer, applied);
      }
      Answering(c);
      assert Entries(c, [w]) == [Entry(c, w)] && Entries(c, []) == [];
    }

    /** The statement of `pool.query`, which also gives the client back. */
    method Execute(c: CallId, w: Write, answer: Answer, applied: bool) returns (o: Outcome)
      requires Valid() && c in state.calls && state.calls[c].stage.Querying? && Alive(c)
      modifies this
      ensures Valid() && old(trace) <= trace && Losses(old(trace)) <= Losses(trace)
      ensures c in state.calls && state.calls[c] == Call(SingleQuery, Done(o))
      ensures View(trace, c).acquired == 1 && (o == Returned ==> View(trace, c).writes == [w])
      ensures o.Threw? ==> View(trace, c).writes == []
                           || (View(trace, c).writes == [w] && answer.Fails? && answer.lost && applied)
      ensures o == (if answer.Fails? then Threw(answer.error) else Returned) || o == Threw(BROKEN)
      ensures answer.Fails? || Losses(trace) == Losses(old(trace)) ==>
                o == if answer.Fails? then Threw(answer.error) else Returned
    {
      Await(c);
      Holding(c);
      if answer.Ok? && ServerAccepts(SessionOf(state, c)) {
        Take(QueryOk(c, w), c);
        o := Returned;
      } else {
        var e := if answer.Fails? then answer.error else BROKEN;
        var lost := answer.Fails? && answer.lost;
        Take(QueryFail(c, e, lost, w, applied && lost && ServerAccepts(SessionOf(state, c))), c);
        o := Threw(e);
      }
    }

    lemma Answering(c: CallId)
      requires Valid() && c in state.calls && state.calls[c].kind == SingleQuery && state.calls[c].stage.Done?
      ensures View(trace, c).released == View(trace, c).acquired <= 1
      ensures DurableOf(state.durable, c) == Entries(c, View(trace, c).writes)
      ensures View(trace, c).acquired == 0 ==> View(trace, c).writes == []
    {
      EveryRunKeepsInv(max, trace);
      assert CallInv(state, View(trace, c), c) && DurableInv(state, View(trace, c), c);
    }
  }
}
