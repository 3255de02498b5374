/**
  The two protections of the audit log, and what each is worth without the
  other.
 */
module AuditProtection {
  import opened Wrappers
  import opened AuditTable

  predicate Runtime(role: Role) {
    role == RuntimeApp || role == RuntimeWorker
  }

  /** The privilege protection: runtime roles hold SELECT and INSERT, PUBLIC nothing. Nothing is said about triggers. */
  predicate Locked(cat: Catalogue) {
    && cat.table
    && (forall role :: Runtime(role) ==>
          forall p :: (To(role), p) in cat.grants <==> p == Select || p == Insert)
    && forall p :: (Public, p) !in cat.grants
  }

  /** The trigger protection. Nothing is said about privileges. */
  predicate Armed(cat: Catalogue) {
    cat.table && forall g :: Fires(g, cat)
  }

  /** What the constraints leave in the table. */
  lemma SoundRows(rows: seq<Row>)
    ensures Sound(rows) <==> && (forall row :: row in rows ==> row.actorType in {"USER", "ADMIN", "SYSTEM"})
                             && (forall i, j :: 0 <= i < j < |rows| ==> rows[i].id != rows[j].id)
  {
  }

  lemma NothingAssigned(rows: seq<Row>, condition: Row -> bool, assign: Row -> Row)
    requires forall row :: row in rows ==> !condition(row)
    ensures Assigned(rows, condition, assign) == rows
  {
  }

  lemma {:induction false} NothingRemoved(rows: seq<Row>, condition: Row -> bool)
    requires forall row :: row in rows ==> !condition(row)
    ensures Without(rows, condition) == rows
  {
    if rows != [] {
      assert rows[0] in rows;
      NothingRemoved(rows[1..], condition);
      assert rows == [rows[0]] + rows[1..];
    }
  }

  /** A row stays exactly if the condition spares it. */
  lemma {:induction false} WithoutSpares(rows: seq<Row>, condition: Row -> bool, row: Row)
    ensures row in Without(rows, condition) <==> row in rows && !condition(row)
  {
    if rows != [] {
      WithoutSpares(rows[1..], condition, row);
      assert row in rows <==> row == rows[0] || row in rows[1..];
    }
  }

  /** Whatever the privileges: while all triggers fire, a statement on the rows can only append to them. */
  lemma ArmedStatementAppends(role: Role, stmt: Statement, db: Database)
    requires Changes(stmt) && Armed(db.catalogue) && Sound(db.rows)
    ensures var after := Execute(role, stmt, db).db;
            after.catalogue == db.catalogue && db.rows <= after.rows && Sound(after.rows)
  {
    assert Fires(NoUpdate, db.catalogue) && Fires(NoDelete, db.catalogue) && Fires(NoTruncate, db.catalogue);
    match stmt {
      case InsertRows(_) =>
      case UpsertRows(values, onConflict) =>
        var hit := (row: Row) => exists v :: v in values && v.id == Some(row.id);
        if forall row :: row in db.rows ==> !hit(row) {
          NothingAssigned(db.rows, hit, onConflict);
        }
      case UpdateRows(condition, assign) =>
        if forall row :: row in db.rows ==> !condition(row) {
          NothingAssigned(db.rows, condition, assign);
        }
      case DeleteRows(condition) =>
        if forall row :: row in db.rows ==> !condition(row) {
          NothingRemoved(db.rows, condition);
        }
      case TruncateTable =>
    }
  }

  /**
    A statement by which the owner gets past the triggers: dropping or disabling
    one, giving their function another body, or rewriting or dropping the table.
   */
  predicate Disarms(role: Role, stmt: Statement) {
    role == MigrationOwner
    && (stmt.DropGuard? || stmt.DisableGuard? || stmt.DropTable? || stmt.AlterTable?
        || (stmt.CreateFunction? && stmt.body == Passes))
  }

  /**
    While the triggers exist nobody changes a row: over every run of statements
    by any roles, the owner included, that does not disarm them, and whatever
    is granted on the way, the rows only grow, ids stay unique and the actor
    check holds.
   */
  lemma {:induction false} ArmedTableOnlyGrows(run: seq<(Role, Statement)>, db: Database)
    requires Armed(db.catalogue) && Sound(db.rows)
    requires forall i :: 0 <= i < |run| ==> !Disarms(run[i].0, run[i].1)
    ensures var after := ExecuteAll(run, db);
            Armed(after.catalogue) && db.rows <= after.rows && Sound(after.rows)
    decreases |run|
  {
    if run != [] {
      var before, last := ExecuteAll(run[..|run| - 1], db), run[|run| - 1];
      ArmedTableOnlyGrows(run[..|run| - 1], db);
      if Changes(last.1) {
        ArmedStatementAppends(last.0, last.1, before);
      } else {
        forall g ensures Fires(g, ExecuteAll(run, db).catalogue) {
          assert Fires(NoUpdate, before.catalogue) && Fires(g, before.catalogue);
          assert last.1.CreateGuard? ==> Fires(last.1.guard, before.catalogue);
        }
      }
    }
  }

  /** What a statement of a runtime role does under the privilege protection, triggers or not. */
  lemma RuntimeStatementAppends(role: Role, stmt: Statement, db: Database)
    requires Runtime(role) && Locked(db.catalogue) && Sound(db.rows)
    ensures var after := Execute(role, stmt, db).db;
            after.catalogue == db.catalogue && db.rows <= after.rows && Sound(after.rows)
    ensures !stmt.InsertRows? ==> Execute(role, stmt, db) == Response(db, Some(PermissionDenied))
  {
    assert forall p :: May(role, p, db.catalogue) <==> p == Select || p == Insert;
  }

  /**
    Over every run of statements by the runtime roles, successful or refused,
    the rows only grow: this is the boundary, and it needs no trigger.
   */
  lemma {:induction false} RuntimeRolesOnlyAppend(run: seq<(Role, Statement)>, db: Database)
    requires Locked(db.catalogue) && Sound(db.rows)
    requires forall i :: 0 <= i < |run| ==> Runtime(run[i].0)
    ensures var after := ExecuteAll(run, db);
            after.catalogue == db.catalogue && db.rows <= after.rows && Sound(after.rows)
    ensures forall row :: row in ExecuteAll(run, db).rows ==> row.actorType in {"USER", "ADMIN", "SYSTEM"}
    decreases |run|
  {
    if run != [] {
      var last := run[|run| - 1];
      RuntimeRolesOnlyAppend(run[..|run| - 1], db);
      RuntimeStatementAppends(last.0, last.1, ExecuteAll(run[..|run| - 1], db));
    }
    SoundRows(ExecuteAll(run, db).rows);
  }

  /** What the table asks of the rows of an INSERT. */
  predicate Acceptable(values: seq<NewRow>, rows: seq<Row>) {
    && (forall v :: v in values ==> Complete(v) && ActorAllowed(v.actorType.value))
    && (forall i, j :: 0 <= i < j < |values| ==> values[i].id != values[j].id)
    && (forall v :: v in values && v.id.Some? ==> !Conflicts(rows, v.id.value))
  }

  /** A row that holds the values given. */
  predicate Holds(row: Row, v: NewRow) {
    && v.id == Some(row.id) && v.occurredAt == Some(row.occurredAt) && v.actorType == Some(row.actorType)
    && v.action == Some(row.action) && v.entityType == Some(row.entityType) && v.metadata == Some(row.metadata)
    && v.rest == row.rest
  }

  /**
    Appending still works: a runtime role's INSERT is accepted exactly if none
    of its required columns is NULL, its actors are among the three, and its ids
    are new and distinct. Then its rows stand behind the old ones, value by value.
   */
  lemma RuntimeInsertAppendsIff(role: Role, values: seq<NewRow>, db: Database)
    requires Runtime(role) && Locked(db.catalogue) && Sound(db.rows)
    ensures var r := Execute(role, InsertRows(values), db);
            && (r.error.None? <==>
                  && (forall v :: v in values ==>
                        && v.id.Some? && v.occurredAt.Some? && v.actorType.Some? && v.action.Some?
                        && v.entityType.Some? && v.metadata.Some?
                        && v.actorType.value in {"USER", "ADMIN", "SYSTEM"})
                  && (forall i, j :: 0 <= i < j < |values| ==> values[i].id != values[j].id)
                  && (forall v, row :: v in values && row in db.rows ==> v.id != Some(row.id)))
            && (r.error.Some? ==> r.db == db)
            && (r.error.None? ==>
                  && r.db.catalogue == db.catalogue && db.rows <= r.db.rows
                  && |r.db.rows| == |db.rows| + |values|
                  && forall i :: 0 <= i < |values| ==> Holds(r.db.rows[|db.rows| + i], values[i]))
  {
    RuntimeInsertAcceptedIff(role, values, db);
    if Acceptable(values, db.rows) {
      forall v, row | v in values && row in db.rows ensures v.id != Some(row.id) {
        var i :| 0 <= i < |db.rows| && db.rows[i] == row;
        assert !Conflicts(db.rows, v.id.value);
      }
      assert forall i :: 0 <= i < |values| ==> values[i] in values;
    } else if forall v, row :: v in values && row in db.rows ==> v.id != Some(row.id) {
      forall v | v in values && v.id.Some? ensures !Conflicts(db.rows, v.id.value) {
        forall i | 0 <= i < |db.rows| ensures db.rows[i].id != v.id.value {
          assert db.rows[i] in db.rows;
        }
      }
    }
  }

  /** The same in terms of the simple log below. */
  lemma RuntimeInsertAcceptedIff(role: Role, values: seq<NewRow>, db: Database)
    requires Runtime(role) && Locked(db.catalogue) && Sound(db.rows)
    ensures Execute(role, InsertRows(values), db).error.None? <==> Acceptable(values, db.rows)
    ensures Execute(role, InsertRows(values), db).db
         == if Acceptable(values, db.rows) then db.(rows := db.rows + StoredAll(values)) else db
  {
    assert May(role, Insert, db.catalogue);
    if forall v :: v in values ==> Complete(v) {
      InsertKeepsSoundIff(values, db.rows);
    }
  }

  /** The simple log: it appends the acceptable rows it is sent, and there is nothing else it can do. */
  function GrowOnlyLog(run: seq<(Role, Statement)>, rows: seq<Row>): (log: seq<Row>)
    ensures rows <= log
  {
    if run == [] then rows
    else
      var before, stmt := GrowOnlyLog(run[..|run| - 1], rows), run[|run| - 1].1;
      if stmt.InsertRows? && Acceptable(stmt.values, before) then before + StoredAll(stmt.values) else before
  }

  /** To the runtime roles the table is that log, whatever statements they send. */
  lemma {:induction false} RuntimeRunsRefineGrowOnlyLog(run: seq<(Role, Statement)>, db: Database)
    requires Locked(db.catalogue) && Sound(db.rows)
    requires forall i :: 0 <= i < |run| ==> Runtime(run[i].0)
    ensures ExecuteAll(run, db) == db.(rows := GrowOnlyLog(run, db.rows))
    decreases |run|
  {
    if run != [] {
      var before, last := run[..|run| - 1], run[|run| - 1];
      RuntimeRunsRefineGrowOnlyLog(before, db);
      RuntimeRolesOnlyAppend(before, db);
      RuntimeStatementAppends(last.0, last.1, ExecuteAll(before, db));
      if last.1.InsertRows? {
        RuntimeInsertAcceptedIff(last.0, last.1.values, ExecuteAll(before, db));
      }
    }
  }

  lemma InsertKeepsSoundIff(values: seq<NewRow>, rows: seq<Row>)
    requires Sound(rows) && forall v :: v in values ==> Complete(v)
    ensures Sound(rows + StoredAll(values))
       <==> && (forall v :: v in values ==> ActorAllowed(v.actorType.value))
            && (forall i, j :: 0 <= i < j < |values| ==> values[i].id != values[j].id)
            && (forall v :: v in values ==> !Conflicts(rows, v.id.value))
  {
    InsertKeepsActorsIff(values, rows);
    if DistinctIds(rows + StoredAll(values)) {
      InsertKeepsIdsOnlyIf(values, rows);
    }
    if (forall i, j :: 0 <= i < j < |values| ==> values[i].id != values[j].id)
       && (forall v :: v in values ==> !Conflicts(rows, v.id.value)) {
      InsertKeepsIdsIf(values, rows);
    }
  }

  lemma InsertKeepsActorsIff(values: seq<NewRow>, rows: seq<Row>)
    requires ActorsAllowed(rows) && forall v :: v in values ==> Complete(v)
    ensures ActorsAllowed(rows + StoredAll(values)) <==> forall v :: v in values ==> ActorAllowed(v.actorType.value)
  {
    var stored := StoredAll(values);
    assert forall i :: 0 <= i < |values| ==> stored[i] == Stored(values[i]) && values[i] in values;
    assert forall row :: row in rows + stored <==> row in rows || row in stored;
    forall v | v in values ensures Stored(v) in stored && Stored(v).actorType == v.actorType.value {
      var i :| 0 <= i < |values| && values[i] == v;
      assert stored[i] == Stored(v);
    }
  }

  lemma InsertKeepsIdsOnlyIf(values: seq<NewRow>, rows: seq<Row>)
    requires forall v :: v in values ==> Complete(v)
    requires DistinctIds(rows + StoredAll(values))
    ensures forall i, j :: 0 <= i < j < |values| ==> values[i].id != values[j].id
    ensures forall v :: v in values ==> !Conflicts(rows, v.id.value)
  {
    var all := rows + StoredAll(values);
    forall i, j | 0 <= i < j < |values| ensures values[i].id != values[j].id {
      assert all[|rows| + i].id != all[|rows| + j].id;
    }
    forall v | v in values ensures !Conflicts(rows, v.id.value) {
      var i :| 0 <= i < |values| && values[i] == v;
      forall k | 0 <= k < |rows| ensures rows[k].id != v.id.value {
        assert all[k].id != all[|rows| + i].id;
      }
    }
  }

  lemma InsertKeepsIdsIf(values: seq<NewRow>, rows: seq<Row>)
    requires forall v :: v in values ==> Complete(v)
    requires DistinctIds(rows)
    requires forall i, j :: 0 <= i < j < |values| ==> values[i].id != values[j].id
    requires forall v :: v in values ==> v.id.Some? && !Conflicts(rows, v.id.value)
    ensures DistinctIds(rows + StoredAll(values))
  {
    var n, stored := |rows|, StoredAll(values);
    forall i, j | 0 <= i < n && 0 <= j < |values| ensures rows[i].id != stored[j].id {
      assert values[j] in values;
      assert !Conflicts(rows, values[j].id.value);
    }
    forall i, j | 0 <= i < j < |values| ensures stored[i].id != stored[j].id {
      assert values[i] in values && values[j] in values;
    }
  }

  // ---- the other statements

  lemma {:induction false} NewOnlyKeepsNew(values: seq<NewRow>, rows: seq<Row>)
    requires forall v :: v in values && v.id.Some? ==> !Conflicts(rows, v.id.value)
    ensures NewOnly(values, rows) == values
  {
    if values != [] {
      assert values[0] in values;
      NewOnlyKeepsNew(values[1..], rows);
      assert values == [values[0]] + values[1..];
    }
  }

  /**
    For whoever may, an upsert without a conflicting id is an insert; with one
    it is refused while the triggers fire.
   */
  lemma UpsertIsInsertOrRefused(role: Role, values: seq<NewRow>, onConflict: Row -> Row, db: Database)
    requires Armed(db.catalogue) && May(role, Insert, db.catalogue) && May(role, Update, db.catalogue)
    requires forall v :: v in values ==> Complete(v)
    ensures Execute(role, UpsertRows(values, onConflict), db)
         == if exists v, row :: v in values && row in db.rows && v.id == Some(row.id) then Response(db, Some(Raised))
            else Execute(role, InsertRows(values), db)
  {
    assert Fires(NoUpdate, db.catalogue);
    var hit := (row: Row) => exists v :: v in values && v.id == Some(row.id);
    if exists v, row :: v in values && row in db.rows && v.id == Some(row.id) {
      var v, row :| v in values && row in db.rows && v.id == Some(row.id);
      assert hit(row);
    } else {
      forall v | v in values && v.id.Some? ensures !Conflicts(db.rows, v.id.value) {
        forall i | 0 <= i < |db.rows| ensures db.rows[i].id != v.id.value {
          assert db.rows[i] in db.rows;
        }
      }
      NewOnlyKeepsNew(values, db.rows);
      NothingAssigned(db.rows, hit, onConflict);
    }
  }

  /**
    Why PUBLIC is revoked from as well: a privilege left to PUBLIC is every
    role's, and only a trigger stands in the way.
   */
  lemma PublicPrivilegeOpensTheTable(role: Role, db: Database)
    requires Runtime(role) && Sound(db.rows) && db.rows != []
    requires db.catalogue.table && (Public, Update) in db.catalogue.grants
    ensures Fires(NoUpdate, db.catalogue) ==>
              Execute(role, UpdateRows(Any, Tampered), db) == Response(db, Some(Raised))
    ensures !Fires(NoUpdate, db.catalogue) ==> !(db.rows <= Execute(role, UpdateRows(Any, Tampered), db).db.rows)
  {
    assert db.rows[0] in db.rows && Any(db.rows[0]);
    TamperingIsSound(db.rows);
  }

  predicate Any(row: Row) {
    true
  }

  function Tampered(row: Row): Row {
    row.(rest := row.rest + "!")
  }

  /** The statement each trigger is there to refuse. */
  function RefusedBy(guard: Guard): Statement {
    match guard
    case NoUpdate => UpdateRows(Any, Tampered)
    case NoDelete => DeleteRows(Any)
    case NoTruncate => TruncateTable
  }

  /** The owner's ways of opening the table to a trigger's kind of statement. */
  datatype Opening = Dropping | Disabling | Replacing

  function Opened(opening: Opening, guard: Guard): Statement {
    match opening
    case Dropping => DropGuard(guard)
    case Disabling => DisableGuard(guard)
    case Replacing => CreateFunction(Passes)
  }

  /**
    The triggers are a guard rail, not a boundary: drop or disable any one of
    them, or replace their function, and the owner's next statement destroys or
    alters what was there.
   */
  lemma OwnerCanDisarm(guard: Guard, opening: Opening, db: Database)
    requires Armed(db.catalogue) && Sound(db.rows) && db.rows != []
    ensures Disarms(MigrationOwner, Opened(opening, guard))
    ensures var run := [(MigrationOwner, Opened(opening, guard)), (MigrationOwner, RefusedBy(guard))];
            !(db.rows <= ExecuteAll(run, db).rows)
  {
    var first := Opened(opening, guard);
    var run := [(MigrationOwner, first), (MigrationOwner, RefusedBy(guard))];
    assert Fires(guard, db.catalogue);
    var open := Execute(MigrationOwner, first, db).db;
    assert run[..1] == [(MigrationOwner, first)] && run[..1][..0] == [];
    assert ExecuteAll(run[..1], db) == open;
    assert !Fires(guard, open.catalogue) && open.rows == db.rows && open.catalogue.table;
    if guard == NoUpdate {
      TamperingIsSound(db.rows);
    } else if guard == NoDelete {
      EverythingRemoved(db.rows);
    }
  }

  /** Rewriting or dropping the table needs no second statement: no trigger fires at all. */
  lemma OwnerCanRewrite(db: Database)
    requires Armed(db.catalogue) && Sound(db.rows) && db.rows != []
    ensures !(db.rows <= Execute(MigrationOwner, AlterTable(Tampered), db).db.rows)
    ensures !(db.rows <= Execute(MigrationOwner, DropTable, db).db.rows)
  {
    TamperingIsSound(db.rows);
    assert Assigned(db.rows, (row: Row) => true, Tampered) == Assigned(db.rows, Any, Tampered);
  }

  lemma TamperingIsSound(rows: seq<Row>)
    requires Sound(rows) && rows != []
    ensures var changed := Assigned(rows, Any, Tampered); Sound(changed) && !(rows <= changed)
  {
    var changed := Assigned(rows, Any, Tampered);
    assert forall i :: 0 <= i < |changed| ==> changed[i] == Tampered(rows[i]);
    assert |changed[0].rest| == |rows[0].rest| + 1;
  }

  lemma {:induction false} EverythingRemoved(rows: seq<Row>)
    ensures Without(rows, Any) == []
  {
    if rows != [] {
      EverythingRemoved(rows[1..]);
    }
  }
}
