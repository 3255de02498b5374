/**
  What every interleaving of calls keeps, and what follows for one call.
 */
module TransactionSafety {
  import opened Wrappers
  import opened TransactionMachine

  // ---- the pool

  predicate HoldsClient(s: State, c: CallId, cl: ClientId) {
    c in s.calls && Holds(s.calls[c].stage) && s.calls[c].stage.client == cl
  }

  ghost predicate PoolInv(s: State) {
    && |s.sessions| <= s.max
    && s.idle <= s.sessions.Keys
    && (forall cl :: cl in s.idle ==> s.sessions[cl] == FRESH)
    && (forall cl :: cl in s.sessions && !s.sessions[cl].alive ==> s.sessions[cl] == LOST)
    && (forall c, cl :: HoldsClient(s, c, cl) ==> cl in s.sessions && cl !in s.idle)
    && (forall c, d, cl :: HoldsClient(s, c, cl) && HoldsClient(s, d, cl) ==> c == d)
    && (forall cl :: cl in s.sessions && cl !in s.idle ==> exists c :: HoldsClient(s, c, cl))
  }

  // ---- one call

  /** What the observer of a call can have seen when the call is at a stage; its session tells the same story. */
  predicate CallInv(s: State, v: Seen, c: CallId) {
    if c !in s.calls then v == NOTHING
    else
      var kind := s.calls[c].kind;
      match s.calls[c].stage
      case Connecting => v == NOTHING
      case Beginning(cl) =>
        kind == InTransaction && cl in s.sessions && s.sessions[cl].open == None && v == NOTHING.(acquired := 1)
      case Querying(cl) =>
        kind == SingleQuery && cl in s.sessions && s.sessions[cl].open == None && v == NOTHING.(acquired := 1)
      case Running(cl) =>
        kind == InTransaction && cl in s.sessions && Tells(s.sessions[cl], c, v)
        && v == Seen(v.writes, v.failed, None, 1, 0, false, false)
      case Committing(cl) =>
        kind == InTransaction && cl in s.sessions && Tells(s.sessions[cl], c, v)
        && v == Seen(v.writes, v.failed, None, 1, 0, true, false)
      case RollingBack(cl, e) =>
        kind == InTransaction && cl in s.sessions
        && v == Seen(v.writes, v.failed, Some(e), 1, 0, v.committing, v.committed)
        && (v.committed ==> v.committing)
      case Releasing(cl, o) =>
        kind == InTransaction && cl in s.sessions && s.sessions[cl].open == None
        && v.acquired == 1 && v.released == 0 && Ended(kind, o, v)
      case Done(o) => v.acquired == v.released <= 1 && Ended(kind, o, v)
  }

  /** A live session's open transaction is exactly what the call has written through it. */
  predicate Tells(session: Session, c: CallId, v: Seen) {
    session.alive ==> session.open == Some(Transaction(Entries(c, v.writes), v.failed))
  }

  predicate Ended(kind: Kind, o: Outcome, v: Seen) {
    match o
    case Threw(e) =>
      v.cause == Some(e)
      && (kind == InTransaction ==> (v.committed ==> v.committing))
      && (kind == SingleQuery ==>
            !v.committing && !v.failed && |v.writes| <= 1 && (v.committed <==> v.writes != []))
      && (v.acquired == 0 ==> v == NOTHING.(cause := Some(e)))
    case Returned =>
      v.cause == None && v.committed && v.acquired == 1
      && (if kind == InTransaction then v.committing else |v.writes| == 1 && !v.failed)
  }

  /** What a call has contributed so far. */
  function Contributed(c: CallId, v: Seen): seq<Entry> {
    if v.committed then Contribution(c, v) else []
  }

  predicate DurableInv(s: State, v: Seen, c: CallId) {
    DurableOf(s.durable, c) == Contributed(c, v)
  }

  // ---- steps

  function Seeing(v: Seen, l: Label, c: CallId): Seen {
    if Concerns(l, c) then See(v, l) else v
  }

  /** A step leaves every other call where it is; at most it loses the other call's connection. */
  lemma OtherCallsUntouched(s: State, l: Label, c: CallId)
    requires PoolInv(s) && Enabled(s, l) && !Concerns(l, c) && c in s.calls
    ensures c in Step(s, l).calls && Step(s, l).calls[c] == s.calls[c]
    ensures Holds(s.calls[c].stage) ==>
              var cl := s.calls[c].stage.client;
              cl in s.sessions && cl in Step(s, l).sessions
              && (Step(s, l).sessions[cl] == s.sessions[cl] || Step(s, l).sessions[cl] == LOST)
  {
    if Holds(s.calls[c].stage) {
      assert HoldsClient(s, c, s.calls[c].stage.client);
      if !l.ConnectionLost? && l.call in s.calls && Holds(s.calls[l.call].stage) {
        assert HoldsClient(s, l.call, s.calls[l.call].stage.client);
      }
    }
  }

  /** Only the loss of a connection reaches into another call's session. */
  lemma OtherSessionsUntouched(s: State, l: Label, c: CallId)
    requires PoolInv(s) && Enabled(s, l) && !Concerns(l, c) && !l.ConnectionLost?
    requires c in s.calls && Holds(s.calls[c].stage)
    ensures Connected(s, c) && Connected(Step(s, l), c) && SessionOf(Step(s, l), c) == SessionOf(s, c)
  {
    assert HoldsClient(s, c, s.calls[c].stage.client);
    if l.call in s.calls && Holds(s.calls[l.call].stage) {
      assert HoldsClient(s, l.call, s.calls[l.call].stage.client);
    }
  }

  lemma StepKeepsCall(s: State, l: Label, v: Seen, c: CallId)
    requires PoolInv(s) && Enabled(s, l) && CallInv(s, v, c)
    ensures CallInv(Step(s, l), Seeing(v, l, c), c)
  {
    if Concerns(l, c) {
      OwnStepKeepsCall(s, l, v);
    } else if c in s.calls {
      OtherCallsUntouched(s, l, c);
    }
  }

  lemma OwnStepKeepsCall(s: State, l: Label, v: Seen)
    requires !l.ConnectionLost? && PoolInv(s) && Enabled(s, l) && CallInv(s, v, l.call)
    ensures CallInv(Step(s, l), See(v, l), l.call)
  {
    if l.Start? || l.AcquireIdle? || l.AcquireNew? || l.ConnectFail? || l.QueryOk? || l.QueryFail? {
      OutsideTransactionKeepsCall(s, l, v);
    } else if l.BeginOk? || l.WriteOk? || l.StatementFail? || l.FnReturn? || l.FnThrow? {
      InsideTransactionKeepsCall(s, l, v);
    } else {
      EndOfTransactionKeepsCall(s, l, v);
    }
  }

  lemma OutsideTransactionKeepsCall(s: State, l: Label, v: Seen)
    requires l.Start? || l.AcquireIdle? || l.AcquireNew? || l.ConnectFail? || l.QueryOk? || l.QueryFail?
    requires PoolInv(s) && Enabled(s, l) && CallInv(s, v, l.call)
    ensures CallInv(Step(s, l), See(v, l), l.call)
  {
    if l.AcquireIdle? {
      assert s.sessions[l.client] == FRESH;
    }
  }

  lemma InsideTransactionKeepsCall(s: State, l: Label, v: Seen)
    requires l.BeginOk? || l.WriteOk? || l.StatementFail? || l.FnReturn? || l.FnThrow?
    requires PoolInv(s) && Enabled(s, l) && CallInv(s, v, l.call)
    ensures CallInv(Step(s, l), See(v, l), l.call)
  {
    var c := l.call;
    if l.BeginOk? {
      assert Entries(c, []) == [];
    } else if l.WriteOk? {
      assert Entries(c, v.writes + [l.write]) == Entries(c, v.writes) + [Entry(c, l.write)];
    }
  }

  lemma EndOfTransactionKeepsCall(s: State, l: Label, v: Seen)
    requires l.BeginFail? || l.CommitOk? || l.CommitFail? || l.RollbackOk? || l.RollbackFail? || l.Release?
    requires PoolInv(s) && Enabled(s, l) && CallInv(s, v, l.call)
    ensures CallInv(Step(s, l), See(v, l), l.call)
  {
  }

  lemma SmallerMap(m: map<ClientId, Session>, n: map<ClientId, Session>)
    requires m.Keys <= n.Keys
    ensures |m| <= |n|
  {
    Cardinality(m.Keys, n.Keys);
  }

  lemma {:induction false} Cardinality(a: set<ClientId>, b: set<ClientId>)
    requires a <= b
    ensures |a| <= |b|
  {
    if a != {} {
      var x :| x in a;
      Cardinality(a - {x}, b - {x});
    }
  }

  lemma StepKeepsSize(s: State, l: Label)
    requires PoolInv(s) && Enabled(s, l)
    ensures |Step(s, l).sessions| <= s.max == Step(s, l).max
  {
    if !l.AcquireNew? {
      SmallerMap(Step(s, l).sessions, s.sessions);
    }
  }

  /** Who holds what after a step. */
  lemma StepMovesOneHolder(s: State, l: Label, c: CallId, cl: ClientId)
    requires PoolInv(s) && Enabled(s, l)
    ensures HoldsClient(Step(s, l), c, cl)
       <==> if !Concerns(l, c) then HoldsClient(s, c, cl)
            else if l.AcquireIdle? || l.AcquireNew? then cl == l.client
            else HoldsClient(s, c, cl) && !l.Release? && !l.QueryOk? && !l.QueryFail?
  {
  }

  lemma StepKeepsHolderConnected(s: State, l: Label, c: CallId, cl: ClientId)
    requires PoolInv(s) && Enabled(s, l) && HoldsClient(Step(s, l), c, cl)
    ensures cl in Step(s, l).sessions && cl !in Step(s, l).idle
  {
    StepMovesOneHolder(s, l, c, cl);
    if !Concerns(l, c) {
      OtherCallsUntouched(s, l, c);
      if !l.ConnectionLost? && l.call in s.calls && Holds(s.calls[l.call].stage) {
        assert HoldsClient(s, l.call, s.calls[l.call].stage.client);
      }
    } else if Holds(s.calls[c].stage) {
      assert HoldsClient(s, c, s.calls[c].stage.client);
    }
  }

  lemma StepKeepsHolderUnique(s: State, l: Label, c: CallId, d: CallId, cl: ClientId)
    requires PoolInv(s) && Enabled(s, l) && HoldsClient(Step(s, l), c, cl) && HoldsClient(Step(s, l), d, cl)
    ensures c == d
  {
    StepMovesOneHolder(s, l, c, cl);
    StepMovesOneHolder(s, l, d, cl);
  }

  lemma StepKeepsBusyHeld(s: State, l: Label, cl: ClientId)
    requires PoolInv(s) && Enabled(s, l) && cl in Step(s, l).sessions && cl !in Step(s, l).idle
    ensures exists c :: HoldsClient(Step(s, l), c, cl)
  {
    if (l.AcquireIdle? || l.AcquireNew?) && cl == l.client {
      StepMovesOneHolder(s, l, l.call, cl);
    } else {
      assert cl in s.sessions && cl !in s.idle;
      var c :| HoldsClient(s, c, cl);
      StepMovesOneHolder(s, l, c, cl);
    }
  }

  lemma StepKeepsSessions(s: State, l: Label, v: Seen, cl: ClientId)
    requires PoolInv(s) && Enabled(s, l)
    requires !l.ConnectionLost? ==> CallInv(s, v, l.call)
    ensures cl in Step(s, l).idle ==> cl in Step(s, l).sessions && Step(s, l).sessions[cl] == FRESH
    ensures cl in Step(s, l).sessions && !Step(s, l).sessions[cl].alive ==> Step(s, l).sessions[cl] == LOST
  {
    if !l.ConnectionLost? && l.call in s.calls && Holds(s.calls[l.call].stage) {
      var held := s.calls[l.call].stage.client;
      assert HoldsClient(s, l.call, held);
      if cl != held {
        OtherClientUntouched(s, l, cl);
      }
    }
  }

  /** A call that holds a client leaves the pool's other clients alone. */
  lemma OtherClientUntouched(s: State, l: Label, cl: ClientId)
    requires PoolInv(s) && Enabled(s, l) && !l.ConnectionLost?
    requires l.call in s.calls && Holds(s.calls[l.call].stage) && cl != s.calls[l.call].stage.client
    ensures (cl in Step(s, l).idle <==> cl in s.idle) && (cl in Step(s, l).sessions <==> cl in s.sessions)
    ensures cl in s.sessions ==> Step(s, l).sessions[cl] == s.sessions[cl]
  {
  }

  lemma StepKeepsPool(s: State, l: Label, v: Seen)
    requires PoolInv(s) && Enabled(s, l)
    requires !l.ConnectionLost? ==> CallInv(s, v, l.call)
    ensures PoolInv(Step(s, l))
  {
    var s' := Step(s, l);
    StepKeepsSize(s, l);
    forall cl
      ensures cl in s'.idle ==> cl in s'.sessions && s'.sessions[cl] == FRESH
      ensures cl in s'.sessions && !s'.sessions[cl].alive ==> s'.sessions[cl] == LOST
    {
      StepKeepsSessions(s, l, v, cl);
    }
    forall c, cl | HoldsClient(s', c, cl) ensures cl in s'.sessions && cl !in s'.idle {
      StepKeepsHolderConnected(s, l, c, cl);
    }
    forall c, d, cl | HoldsClient(s', c, cl) && HoldsClient(s', d, cl) ensures c == d {
      StepKeepsHolderUnique(s, l, c, d, cl);
    }
    forall cl | cl in s'.sessions && cl !in s'.idle ensures exists c :: HoldsClient(s', c, cl) {
      StepKeepsBusyHeld(s, l, cl);
    }
  }

  // ---- the durable log

  lemma {:induction false} DurableOfAppend(a: seq<Entry>, b: seq<Entry>, c: CallId)
    ensures DurableOf(a + b, c) == DurableOf(a, c) + DurableOf(b, c)
  {
    if b == [] {
      assert a + b == a;
    } else {
      var n := |b| - 1;
      assert (a + b)[..|a| + n] == a + b[..n];
      assert (a + b)[|a| + n] == b[n];
      DurableOfAppend(a, b[..n], c);
    }
  }

  lemma {:induction false} DurableOfEntries(d: CallId, writes: seq<Write>, c: CallId)
    ensures DurableOf(Entries(d, writes), c) == if c == d then Entries(d, writes) else []
  {
    if writes != [] {
      var n := |writes| - 1;
      assert Entries(d, writes)[..n] == Entries(d, writes[..n]);
      assert Entries(d, writes) == Entries(d, writes[..n]) + [Entry(d, writes[n])];
      DurableOfEntries(d, writes[..n], c);
    }
  }

  /** The server may share sessions between calls, yet each step appends only the stepping call's own writes. */
  lemma StepAppends(s: State, l: Label, v: Seen)
    requires PoolInv(s) && Enabled(s, l)
    requires !l.ConnectionLost? ==> CallInv(s, v, l.call)
    ensures Step(s, l).durable == s.durable + Appended(l, v)
  {
    if l.WriteOk? {
      assert ServerAutoCommit(SessionOf(s, l.call), Entry(l.call, l.write)) == [];
    }
  }

  lemma AppendedIsOwn(l: Label, own: Seen, c: CallId)
    requires !Concerns(l, c)
    ensures DurableOf(Appended(l, own), c) == []
  {
    if !l.ConnectionLost? {
      DurableOfEntries(l.call, own.writes, c);
    }
    if l.QueryOk? || l.QueryFail? {
      assert [Entry(l.call, l.write)] == Entries(l.call, [l.write]);
      DurableOfEntries(l.call, [l.write], c);
    }
  }

  lemma QueryAppendsContribution(l: Label, v: Seen)
    requires (l.QueryOk? || l.QueryFail?) && v == NOTHING.(acquired := 1)
    ensures Contributed(l.call, v) + DurableOf(Appended(l, v), l.call) == Contributed(l.call, See(v, l))
  {
    assert [] + [l.write] == [l.write];
    assert [Entry(l.call, l.write)] == Entries(l.call, [l.write]);
    DurableOfEntries(l.call, [l.write], l.call);
  }

  lemma AppendedIsContribution(s: State, l: Label, v: Seen)
    requires !l.ConnectionLost? && Enabled(s, l) && CallInv(s, v, l.call)
    ensures Contributed(l.call, v) + DurableOf(Appended(l, v), l.call) == Contributed(l.call, See(v, l))
  {
    if l.QueryOk? || l.QueryFail? {
      QueryAppendsContribution(l, v);
    } else {
      DurableOfEntries(l.call, v.writes, l.call);
    }
  }

  lemma StepKeepsDurable(s: State, l: Label, v: Seen, own: Seen, c: CallId)
    requires PoolInv(s) && Enabled(s, l) && CallInv(s, v, c) && DurableInv(s, v, c)
    requires !l.ConnectionLost? ==> CallInv(s, own, l.call)
    requires Concerns(l, c) ==> own == v
    ensures DurableInv(Step(s, l), Seeing(v, l, c), c)
  {
    StepAppends(s, l, own);
    DurableOfAppend(s.durable, Appended(l, own), c);
    if Concerns(l, c) {
      AppendedIsContribution(s, l, v);
    } else {
      AppendedIsOwn(l, own, c);
    }
  }

  // ---- all runs

  ghost predicate Inv(max: nat, trace: seq<Label>)
    requires Run(max, trace)
  {
    var s := After(max, trace);
    && s.max == max
    && PoolInv(s)
    && s.durable == AtomicDatabase(trace)
    && (forall c :: CallInv(s, View(trace, c), c) && DurableInv(s, View(trace, c), c))
  }

  lemma {:induction false} EveryRunKeepsInv(max: nat, trace: seq<Label>)
    requires Run(max, trace)
    ensures Inv(max, trace)
  {
    if trace != [] {
      var before, l := trace[..|trace| - 1], trace[|trace| - 1];
      EveryRunKeepsInv(max, before);
      var s := After(max, before);
      var own := Own(before, l);
      StepKeepsSize(s, l);
      StepKeepsPool(s, l, own);
      StepAppends(s, l, own);
      forall c ensures CallInv(Step(s, l), View(trace, c), c) && DurableInv(Step(s, l), View(trace, c), c) {
        assert View(trace, c) == Seeing(View(before, c), l, c);
        StepKeepsCall(s, l, View(before, c), c);
        StepKeepsDurable(s, l, View(before, c), own, c);
      }
    }
  }

  // ---- what follows

  /** In every interleaving the durable log is that of the atomic database. */
  lemma RunsRefineAtomicDatabase(max: nat, trace: seq<Label>)
    requires Run(max, trace)
    ensures After(max, trace).durable == AtomicDatabase(trace)
  {
    EveryRunKeepsInv(max, trace);
  }

  /**
    What a finished transaction left behind. Having returned means durable
    exactly when no statement failed (or there was nothing to write): COMMIT of
    a failed transaction reports success. A throw before COMMIT leaves nothing;
    a throw by COMMIT itself leaves all or nothing. The error thrown is the one
    that ended the `try` block.
   */
  lemma OutcomeDecidesDurability(max: nat, trace: seq<Label>, c: CallId)
    requires Run(max, trace)
    requires c in After(max, trace).calls && After(max, trace).calls[c].kind == InTransaction
    requires After(max, trace).calls[c].stage.Done?
    ensures var v, o := View(trace, c), After(max, trace).calls[c].stage.outcome;
            var mine := DurableOf(After(max, trace).durable, c);
            && (o == Returned ==> (mine == Entries(c, v.writes) <==> !v.failed || v.writes == []))
            && (o == Returned && v.failed ==> mine == [])
            && (o.Threw? ==> v.cause == Some(o.error))
            && (o.Threw? && !v.committing ==> mine == [])
            && (o.Threw? ==> mine == [] || mine == Entries(c, v.writes))
  {
    EveryRunKeepsInv(max, trace);
    assert CallInv(After(max, trace), View(trace, c), c) && DurableInv(After(max, trace), View(trace, c), c);
    if View(trace, c).writes != [] {
      assert Entries(c, View(trace, c).writes) != [];
    }
  }

  /** Nothing of a transaction is durable before its commit. */
  lemma UncommittedWritesAreInvisible(max: nat, trace: seq<Label>, c: CallId)
    requires Run(max, trace) && !View(trace, c).committing && !View(trace, c).committed
    ensures DurableOf(After(max, trace).durable, c) == []
  {
    EveryRunKeepsInv(max, trace);
    assert DurableInv(After(max, trace), View(trace, c), c);
  }

  /**
    What a finished single query left behind. It never lands in someone else's
    transaction: having returned, its one write is durable. Having thrown, it
    left nothing, or that one write if the server had committed it before the
    connection was lost.
   */
  lemma QueryDecidesDurability(max: nat, trace: seq<Label>, c: CallId)
    requires Run(max, trace)
    requires c in After(max, trace).calls && After(max, trace).calls[c].kind == SingleQuery
    requires After(max, trace).calls[c].stage.Done?
    ensures var v, o := View(trace, c), After(max, trace).calls[c].stage.outcome;
            var mine := DurableOf(After(max, trace).durable, c);
            && |v.writes| <= 1 && mine == Entries(c, v.writes)
            && (o == Returned ==> |v.writes| == 1)
            && (o.Threw? ==> v.cause == Some(o.error))
  {
    EveryRunKeepsInv(max, trace);
    assert CallInv(After(max, trace), View(trace, c), c) && DurableInv(After(max, trace), View(trace, c), c);
  }

  predicate Finished(s: State, c: CallId) {
    c in s.calls ==> s.calls[c].stage.Done?
  }

  /**
    The pool never exceeds its bound, its idle clients are clean, and a
    finished call has released exactly what it acquired: one client, or none
    when connecting failed. With all calls finished nothing is checked out.
   */
  lemma PoolIsSafe(max: nat, trace: seq<Label>)
    requires Run(max, trace)
    ensures var s := After(max, trace);
            && |s.sessions| <= max
            && s.idle <= s.sessions.Keys
            && (forall cl :: cl in s.idle ==> s.sessions[cl].alive && s.sessions[cl].open == None)
            && (forall c :: c in s.calls && s.calls[c].stage.Done? ==>
                  View(trace, c).released == View(trace, c).acquired <= 1)
            && ((forall c :: Finished(s, c)) ==> s.idle == s.sessions.Keys)
  {
    EveryRunKeepsInv(max, trace);
    var s := After(max, trace);
    forall c | c in s.calls && s.calls[c].stage.Done?
      ensures View(trace, c).released == View(trace, c).acquired <= 1
    {
      assert CallInv(s, View(trace, c), c);
    }
    if s.idle != s.sessions.Keys {
      var cl :| cl in s.sessions && cl !in s.idle;
      var c :| HoldsClient(s, c, cl);
      assert !Finished(s, c);
    }
  }

  /** No path leaks a client: once nobody holds one, a waiting call can be served. */
  lemma WaitingCallCanBeServed(max: nat, trace: seq<Label>, c: CallId)
    requires Run(max, trace) && max > 0
    requires c in After(max, trace).calls && After(max, trace).calls[c].stage == Connecting
    requires forall d :: d in After(max, trace).calls ==> !Holds(After(max, trace).calls[d].stage)
    ensures exists cl ::
              Enabled(After(max, trace), AcquireIdle(c, cl)) || Enabled(After(max, trace), AcquireNew(c, cl))
  {
    EveryRunKeepsInv(max, trace);
    var s := After(max, trace);
    if s.idle != {} {
      var cl :| cl in s.idle;
      assert Enabled(s, AcquireIdle(c, cl));
    } else {
      assert forall cl :: cl in s.sessions && cl !in s.idle ==> exists d :: HoldsClient(s, d, cl);
      assert s.sessions.Keys == {};
      assert |s.sessions| == |s.sessions.Keys|;
      assert Enabled(s, AcquireNew(c, 0));
    }
  }

  lemma Extend(max: nat, trace: seq<Label>, l: Label, c: CallId)
    requires Run(max, trace) && Enabled(After(max, trace), l)
    ensures Run(max, trace + [l]) && After(max, trace + [l]) == Step(After(max, trace), l)
    ensures View(trace + [l], c) == Seeing(View(trace, c), l, c)
  {
    assert (trace + [l])[..|trace|] == trace;
  }

  /** A first call with one write, up to the end of `fn`. */
  lemma FirstWrite(max: nat, w: Write) returns (trace: seq<Label>)
    requires max > 0
    ensures Run(max, trace) && View(trace, 0) == Seen([w], false, None, 1, 0, false, false)
    ensures var s := After(max, trace);
            && 0 in s.calls && s.calls[0] == Call(InTransaction, Running(7))
            && 7 in s.sessions && s.sessions[7] == Session(true, Some(Transaction([Entry(0, w)], false)))
            && 7 !in s.idle
  {
    trace := [];
    Extend(max, trace, Start(0, InTransaction), 0);
    trace := trace + [Start(0, InTransaction)];
    Extend(max, trace, AcquireNew(0, 7), 0);
    trace := trace + [AcquireNew(0, 7)];
    Extend(max, trace, BeginOk(0), 0);
    trace := trace + [BeginOk(0)];
    assert Entries(0, []) == [] && [] + [Entry(0, w)] == [Entry(0, w)];
    Extend(max, trace, WriteOk(0, w), 0);
    trace := trace + [WriteOk(0, w)];
  }

  /** Why the condition above is needed: `fn` swallows a failed statement, the call returns, and its write is gone. */
  lemma SwallowedFailureLosesTheWrite(max: nat, w: Write) returns (trace: seq<Label>)
    requires max > 0
    ensures Run(max, trace) && 0 in After(max, trace).calls
    ensures After(max, trace).calls[0] == Call(InTransaction, Done(Returned))
    ensures View(trace, 0).writes == [w] && DurableOf(After(max, trace).durable, 0) == []
  {
    trace := FirstWrite(max, w);
    Extend(max, trace, StatementFail(0, 1, false), 0);
    trace := trace + [StatementFail(0, 1, false)];
    Extend(max, trace, FnReturn(0), 0);
    trace := trace + [FnReturn(0)];
    Extend(max, trace, CommitOk(0), 0);
    trace := trace + [CommitOk(0)];
    Extend(max, trace, Release(0), 0);
    trace := trace + [Release(0)];
    OutcomeDecidesDurability(max, trace, 0);
  }

  /** The connection is lost under a transaction: nothing of it is durable, and the error of COMMIT is thrown. */
  lemma LostConnectionLeavesNothing(max: nat, w: Write, e: Error, f: Error) returns (trace: seq<Label>)
    requires max > 0
    ensures Run(max, trace) && 0 in After(max, trace).calls && ConnectionLost(7) in trace
    ensures After(max, trace).calls[0] == Call(InTransaction, Done(Threw(e)))
    ensures View(trace, 0).writes == [w] && DurableOf(After(max, trace).durable, 0) == []
  {
    trace := FirstWrite(max, w);
    trace := LoseThenCommit(max, trace, e);
    Extend(max, trace, RollbackFail(0, f), 0);
    trace := trace + [RollbackFail(0, f)];
    Extend(max, trace, Release(0), 0);
    trace := trace + [Release(0)];
    EveryRunKeepsInv(max, trace);
    assert DurableInv(After(max, trace), View(trace, 0), 0);
  }

  lemma LoseThenCommit(max: nat, before: seq<Label>, e: Error) returns (trace: seq<Label>)
    requires Run(max, before) && 0 in After(max, before).calls && 7 in After(max, before).sessions
    requires After(max, before).calls[0] == Call(InTransaction, Running(7)) && After(max, before).sessions[7].alive
    requires 7 !in After(max, before).idle && View(before, 0).cause == None && !View(before, 0).committed
    ensures Run(max, trace) && ConnectionLost(7) in trace
    ensures var s := After(max, trace);
            0 in s.calls && 7 in s.sessions && s.calls[0] == Call(InTransaction, RollingBack(7, e))
    ensures View(trace, 0) == View(before, 0).(committing := true, cause := Some(e))
  {
    Extend(max, before, ConnectionLost(7), 0);
    trace := before + [ConnectionLost(7)];
    Extend(max, trace, FnReturn(0), 0);
    trace := trace + [FnReturn(0)];
    Extend(max, trace, CommitFail(0, e, false, false), 0);
    trace := trace + [CommitFail(0, e, false, false)];
  }

  /** A query throws although its write is durable: the connection is lost after the server committed. */
  lemma LostAcknowledgementKeepsTheWrite(max: nat, w: Write, e: Error) returns (trace: seq<Label>)
    requires max > 0
    ensures Run(max, trace) && 0 in After(max, trace).calls
    ensures After(max, trace).calls[0] == Call(SingleQuery, Done(Threw(e)))
    ensures DurableOf(After(max, trace).durable, 0) == [Entry(0, w)]
  {
    trace := [];
    Extend(max, trace, Start(0, SingleQuery), 0);
    trace := trace + [Start(0, SingleQuery)];
    Extend(max, trace, AcquireNew(0, 7), 0);
    trace := trace + [AcquireNew(0, 7)];
    Extend(max, trace, QueryFail(0, e, true, w, true), 0);
    trace := trace + [QueryFail(0, e, true, w, true)];
    QueryDecidesDurability(max, trace, 0);
  }
}
