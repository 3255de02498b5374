/**
  The migration that creates the audit log, statement by statement, and its
  undoing.
 */
module AuditMigration {
  import opened Wrappers
  import opened AuditTable
  import opened AuditProtection

  const RUNTIME: set<Grantee> := {To(RuntimeApp), To(RuntimeWorker)}

  /** What `up` leaves of the default privileges it started from. */
  function MigratedGrants(defaults: set<(Grantee, Privilege)>): set<(Grantee, Privilege)> {
    (defaults - Pairs(ALL, RUNTIME + {Public})) + Pairs({Select, Insert}, RUNTIME)
  }

  function Migrated(cat: Catalogue): Catalogue {
    cat.(table := true, grants := MigratedGrants(cat.defaults), denyFunction := Some(Raises),
         guards := GUARDS, disabled := {})
  }

  class Migration {
    var db: Database

    constructor (db: Database)
      ensures this.db == db
    {
      this.db := db;
    }

    /** One statement sent as the owner; an error ends the migration. */
    method Sql(stmt: Statement) returns (error: Option<Error>)
      modifies this
      ensures Response(db, error) == Execute(MigrationOwner, stmt, old(db))
    {
      var r := Execute(MigrationOwner, stmt, db);
      db := r.db;
      error := r.error;
    }

    /** Lines 78-89: the privileges. */
    method SetPrivileges() returns (error: Option<Error>)
      requires db.catalogue.table
      modifies this
      ensures error == None
      ensures db == old(db).(catalogue := old(db.catalogue).(grants := MigratedGrants(old(db.catalogue.grants))))
    {
      ghost var start := db.catalogue.grants;
      error := Sql(RevokeFrom(ALL, RUNTIME));
      error := Sql(GrantTo({Select, Insert}, {To(RuntimeApp)}));
      error := Sql(GrantTo({Select, Insert}, {To(RuntimeWorker)}));
      error := Sql(RevokeFrom({Update, Delete, Truncate}, RUNTIME));
      error := Sql(RevokeFrom(ALL, {Public}));
      assert db.catalogue.grants == MigratedGrants(start);
    }

    /** Lines 92-113: the function and the triggers. */
    method SetTriggers() returns (error: Option<Error>)
      requires db.catalogue.table && db.catalogue.guards == db.catalogue.disabled == {}
      modifies this
      ensures error == None
      ensures db == old(db).(catalogue := old(db.catalogue).(denyFunction := Some(Raises), guards := GUARDS))
    {
      error := Sql(CreateFunction(Raises));
      error := Sql(CreateGuard(NoUpdate));
      error := Sql(CreateGuard(NoDelete));
      error := Sql(CreateGuard(NoTruncate));
      assert {} + {NoUpdate} + {NoDelete} + {NoTruncate} == GUARDS;
      assert forall g: Guard :: {} - {g} == {};
    }

    /** `up`. */
    method Up() returns (error: Option<Error>)
      modifies this
      ensures old(db.catalogue.table) ==> error == Some(DuplicateObject) && db == old(db)
      ensures !old(db.catalogue.table) ==> error == None && db == Database(Migrated(old(db.catalogue)), [])
    {
      error := Sql(CreateTable);
      if error.Some? { return; }
      error := SetPrivileges();
      error := SetTriggers();
    }

    /** `down`: each object is dropped after those that depend on it, so no statement is refused. */
    method Down() returns (error: Option<Error>)
      modifies this
      ensures old(db.catalogue.table) ==> error == None
      ensures old(db.catalogue.table) ==>
                db == Database(old(db.catalogue).(table := false, grants := {}, denyFunction := None,
                                                  guards := {}, disabled := {}), [])
      ensures !old(db.catalogue.table) && old(db.catalogue.guards) == {} ==> error == Some(UndefinedObject)
    {
      error := Sql(DropGuard(NoTruncate));
      error := Sql(DropGuard(NoDelete));
      error := Sql(DropGuard(NoUpdate));
      forall g ensures g !in db.catalogue.guards {
        match g { case NoUpdate => case NoDelete => case NoTruncate => }
      }
      assert db.catalogue.guards == {};
      error := Sql(DropFunction);
      if error.Some? { return; }
      error := Sql(DropTable);
    }
  }

  lemma EveryPrivilege(p: Privilege)
    ensures p in ALL
  {
    match p {
      case Select => case Insert => case Update => case Delete => case Truncate => case References => case Trigger =>
    }
  }

  /**
    From any default privileges: after `up` each runtime role holds exactly
    SELECT and INSERT, PUBLIC nothing, other roles what they had, and every
    trigger fires. So both protections hold from the start.
   */
  lemma UpProtects(cat: Catalogue)
    ensures Locked(Migrated(cat)) && Armed(Migrated(cat)) && Sound([])
    ensures forall g, p :: g !in RUNTIME && g != Public ==>
              ((g, p) in Migrated(cat).grants <==> (g, p) in cat.defaults)
  {
    forall role, p | Runtime(role)
      ensures (To(role), p) in Migrated(cat).grants <==> p == Select || p == Insert
    {
      EveryPrivilege(p);
      assert To(role) in RUNTIME;
    }
    forall p ensures (Public, p) !in Migrated(cat).grants {
      EveryPrivilege(p);
    }
    forall g ensures Fires(g, Migrated(cat)) {
      match g { case NoUpdate => case NoDelete => case NoTruncate => }
    }
  }

  /**
    The REVOKE of UPDATE, DELETE and TRUNCATE is redundant after the REVOKE of
    everything. It could not replace it: alone it would leave the runtime roles
    whatever REFERENCES and TRIGGER privileges the defaults gave them.
   */
  lemma SecondRevokeIsRedundant(start: set<(Grantee, Privilege)>)
    ensures var granted := start - Pairs(ALL, RUNTIME) + Pairs({Select, Insert}, RUNTIME);
            granted - Pairs({Update, Delete, Truncate}, RUNTIME) == granted
    ensures start + Pairs({Select, Insert}, RUNTIME) - Pairs({Update, Delete, Truncate}, RUNTIME)
         == start - Pairs(ALL, RUNTIME) + Pairs({Select, Insert}, RUNTIME)
            + start * Pairs({References, Trigger}, RUNTIME)
  {
    var granted := start + Pairs({Select, Insert}, RUNTIME);
    var left := start - Pairs(ALL, RUNTIME) + Pairs({Select, Insert}, RUNTIME)
                + start * Pairs({References, Trigger}, RUNTIME);
    forall g, p
      ensures (g, p) in granted - Pairs({Update, Delete, Truncate}, RUNTIME) <==> (g, p) in left
    {
      EveryPrivilege(p);
    }
  }

  // ---- the order of `down`

  /** The statements of `down`, in whatever order. */
  datatype Removal = RemoveGuard(guard: Guard) | RemoveFunction | RemoveTable

  function Removing(r: Removal): Statement {
    match r
    case RemoveGuard(g) => DropGuard(g)
    case RemoveFunction => DropFunction
    case RemoveTable => DropTable
  }

  function AfterRemovals(order: seq<Removal>, db: Database): Database {
    if order == [] then db
    else Execute(MigrationOwner, Removing(order[|order| - 1]), AfterRemovals(order[..|order| - 1], db)).db
  }

  /** No statement is refused. */
  predicate Succeeds(order: seq<Removal>, db: Database) {
    order == []
    || var before := order[..|order| - 1];
       Succeeds(before, db)
       && Execute(MigrationOwner, Removing(order[|order| - 1]), AfterRemovals(before, db)).error.None?
  }

  /** Nothing depends on the function any more. */
  ghost predicate Cleared(before: seq<Removal>) {
    RemoveTable in before || forall g :: RemoveGuard(g) in before
  }

  /** The table is dropped once, and the function only when all triggers or the table are gone. */
  ghost predicate InOrder(order: seq<Removal>) {
    && (forall i, j :: 0 <= i < j < |order| ==> !(order[i] == order[j] == RemoveTable))
    && forall i :: 0 <= i < |order| && order[i] == RemoveFunction ==> Cleared(order[..i])
  }

  ghost predicate Remains(order: seq<Removal>, cat: Catalogue) {
    && (cat.table <==> RemoveTable !in order)
    && (cat.denyFunction.Some? <==> RemoveFunction !in order)
    && (forall g :: g in cat.guards <==> RemoveTable !in order && RemoveGuard(g) !in order)
  }

  lemma {:induction false} SuccessRemoves(order: seq<Removal>, db: Database)
    requires Remains([], db.catalogue) && Succeeds(order, db)
    ensures Remains(order, AfterRemovals(order, db).catalogue)
  {
    if order != [] {
      var before, last := order[..|order| - 1], order[|order| - 1];
      SuccessRemoves(before, db);
      assert forall r :: r in order <==> r in before || r == last;
    }
  }

  lemma OneMoreInOrder(before: seq<Removal>, last: Removal)
    ensures InOrder(before + [last])
       <==> && InOrder(before)
            && (last == RemoveTable ==> RemoveTable !in before)
            && (last == RemoveFunction ==> Cleared(before))
  {
    var order, n := before + [last], |before|;
    assert order[n] == last && order[..n] == before;
    assert forall i :: 0 <= i < n ==> order[i] == before[i] && order[..i] == before[..i];
  }

  lemma FunctionGoneIsCleared(before: seq<Removal>)
    requires InOrder(before) && RemoveFunction in before
    ensures Cleared(before)
  {
    var i :| 0 <= i < |before| && before[i] == RemoveFunction;
    assert Cleared(before[..i]);
  }

  lemma OneMoreRemovalSucceedsIff(before: seq<Removal>, last: Removal, db: Database)
    requires Remains(before, db.catalogue) && (RemoveFunction in before ==> Cleared(before))
    ensures Execute(MigrationOwner, Removing(last), db).error.None?
       <==> (last == RemoveTable ==> RemoveTable !in before) && (last == RemoveFunction ==> Cleared(before))
  {
    if last == RemoveFunction && Cleared(before) {
      assert db.catalogue.guards == {};
    }
  }

  /** The statements of `down`, in any order and number: none is refused exactly if they respect the dependencies. */
  lemma {:induction false} RemovalsSucceedIff(order: seq<Removal>, db: Database)
    requires db.catalogue.table && db.catalogue.denyFunction.Some? && db.catalogue.guards == GUARDS
    ensures Succeeds(order, db) <==> InOrder(order)
  {
    if order != [] {
      var before, last := order[..|order| - 1], order[|order| - 1];
      RemovalsSucceedIff(before, db);
      OneMoreInOrder(before, last);
      assert before + [last] == order;
      if Succeeds(before, db) {
        EveryGuard(db.catalogue);
        SuccessRemoves(before, db);
        if RemoveFunction in before {
          FunctionGoneIsCleared(before);
        }
        OneMoreRemovalSucceedsIff(before, last, AfterRemovals(before, db));
      }
    }
  }

  lemma EveryGuard(cat: Catalogue)
    requires cat.table && cat.denyFunction.Some? && cat.guards == GUARDS
    ensures Remains([], cat)
  {
    forall g ensures g in GUARDS {
      match g { case NoUpdate => case NoDelete => case NoTruncate => }
    }
  }

  /** From the migration on, whatever the runtime roles send, every row ever accepted is still there, unchanged. */
  lemma AuditLogIsAppendOnly(cat: Catalogue, first: seq<(Role, Statement)>, more: seq<(Role, Statement)>)
    requires forall i :: 0 <= i < |first| ==> Runtime(first[i].0)
    requires forall i :: 0 <= i < |more| ==> Runtime(more[i].0)
    ensures var start := Database(Migrated(cat), []);
            var mid := ExecuteAll(first, start);
            && mid.rows <= ExecuteAll(more, mid).rows
            && Sound(ExecuteAll(more, mid).rows)
            && ExecuteAll(more, mid).catalogue == Migrated(cat)
  {
    UpProtects(cat);
    RuntimeRolesOnlyAppend(first, Database(Migrated(cat), []));
    RuntimeRolesOnlyAppend(more, ExecuteAll(first, Database(Migrated(cat), [])));
  }

  /** `down` after `up`, and after anything the runtime roles did in between, restores the catalogue. */
  method UpThenDown(cat: Catalogue, run: seq<(Role, Statement)>) returns (db: Database, error: Option<Error>)
    requires !cat.table && cat.denyFunction.None? && cat.grants == {} && cat.guards == {} && cat.disabled == {}
    requires forall i :: 0 <= i < |run| ==> Runtime(run[i].0)
    ensures error == None && db == Database(cat, [])
  {
    var m := new Migration(Database(cat, []));
    error := m.Up();
    UpProtects(cat);
    RuntimeRolesOnlyAppend(run, m.db);
    m.db := ExecuteAll(run, m.db);
    error := m.Down();
    db := m.db;
  }
}
