/**
  The audit table as PostgreSQL runs it: who may do what, which triggers fire,
  which constraints hold, and what each statement leaves behind.
 */
module AuditTable {
  import opened Wrappers

  datatype Role = MigrationOwner | RuntimeApp | RuntimeWorker | ReadOnlySupport

  datatype Grantee = To(role: Role) | Public

  datatype Privilege = Select | Insert | Update | Delete | Truncate | References | Trigger

  const ALL: set<Privilege> := {Select, Insert, Update, Delete, Truncate, References, Trigger}

  datatype Guard = NoUpdate | NoDelete | NoTruncate

  const GUARDS: set<Guard> := {NoUpdate, NoDelete, NoTruncate}

  /** `rest` stands for the nullable columns. */
  datatype Row = Row(
    id: nat, occurredAt: string, actorType: string, action: string, entityType: string, metadata: string, rest: string)

  /**
    The values of an INSERT, the defaults of `occurred_at` and `metadata` filled
    in where nothing was given; `None` is NULL.
   */
  datatype NewRow = NewRow(
    id: Option<nat>, occurredAt: Option<string>, actorType: Option<string>, action: Option<string>,
    entityType: Option<string>, metadata: Option<string>, rest: string)

  /** The body of the triggers' function: it raises, or it lets the change through. */
  datatype Body = Raises | Passes

  /**
    `defaults` are the owner's default privileges for new tables. A guard is a
    trigger; it exists if it is in `guards` and fires unless it is disabled.
   */
  datatype Catalogue = Catalogue(
    defaults: set<(Grantee, Privilege)>,
    table: bool,
    grants: set<(Grantee, Privilege)>,
    denyFunction: Option<Body>,
    guards: set<Guard>,
    disabled: set<Guard>)

  datatype Database = Database(catalogue: Catalogue, rows: seq<Row>)

  datatype Statement =
    | InsertRows(values: seq<NewRow>)
    | UpsertRows(values: seq<NewRow>, onConflict: Row -> Row)
    | UpdateRows(condition: Row -> bool, assign: Row -> Row)
    | DeleteRows(condition: Row -> bool)
    | TruncateTable
    | GrantTo(privileges: set<Privilege>, grantees: set<Grantee>)
    | RevokeFrom(privileges: set<Privilege>, grantees: set<Grantee>)
    | CreateTable
    | DropTable
    | AlterTable(assign: Row -> Row)
    | CreateFunction(body: Body)
    | DropFunction
    | CreateGuard(guard: Guard)
    | DropGuard(guard: Guard)
    | DisableGuard(guard: Guard)

  datatype Error =
    | PermissionDenied | Raised | NotNullViolation | CheckViolation | UniqueViolation
    | UndefinedObject | DuplicateObject | DependentObjects

  datatype Response = Response(db: Database, error: Option<Error>)

  // ---- privileges and triggers

  predicate May(role: Role, privilege: Privilege, cat: Catalogue) {
    role == MigrationOwner || (To(role), privilege) in cat.grants || (Public, privilege) in cat.grants
  }

  /** The trigger exists, is enabled, and its function raises. */
  predicate Fires(guard: Guard, cat: Catalogue) {
    guard in cat.guards && guard !in cat.disabled && cat.denyFunction == Some(Raises)
  }

  // ---- constraints

  predicate ActorAllowed(actorType: string) {
    actorType == "USER" || actorType == "ADMIN" || actorType == "SYSTEM"
  }

  predicate Complete(v: NewRow) {
    v.id.Some? && v.occurredAt.Some? && v.actorType.Some? && v.action.Some? && v.entityType.Some? && v.metadata.Some?
  }

  function Stored(v: NewRow): Row
    requires Complete(v)
  {
    Row(v.id.value, v.occurredAt.value, v.actorType.value, v.action.value, v.entityType.value, v.metadata.value, v.rest)
  }

  function StoredAll(values: seq<NewRow>): (rows: seq<Row>)
    requires forall v :: v in values ==> Complete(v)
    ensures |rows| == |values|
  {
    seq(|values|, i requires 0 <= i < |values| => Stored(values[i]))
  }

  predicate DistinctIds(rows: seq<Row>) {
    forall i, j :: 0 <= i < j < |rows| ==> rows[i].id != rows[j].id
  }

  predicate ActorsAllowed(rows: seq<Row>) {
    forall row :: row in rows ==> ActorAllowed(row.actorType)
  }

  /** The constraints of the table. */
  predicate Sound(rows: seq<Row>) {
    DistinctIds(rows) && ActorsAllowed(rows)
  }

  // ---- statements

  /** A statement that changes rows is checked as a whole and undone as a whole. */
  function Checked(db: Database, rows: seq<Row>): Response {
    if !ActorsAllowed(rows) then Response(db, Some(CheckViolation))
    else if !DistinctIds(rows) then Response(db, Some(UniqueViolation))
    else Response(db.(rows := rows), None)
  }

  function Fail(db: Database, e: Error): Response {
    Response(db, Some(e))
  }

  predicate Conflicts(rows: seq<Row>, id: nat) {
    exists i :: 0 <= i < |rows| && rows[i].id == id
  }

  function Assigned(rows: seq<Row>, condition: Row -> bool, assign: Row -> Row): (r: seq<Row>)
    ensures |r| == |rows|
  {
    seq(|rows|, i requires 0 <= i < |rows| => if condition(rows[i]) then assign(rows[i]) else rows[i])
  }

  function Without(rows: seq<Row>, condition: Row -> bool): seq<Row> {
    if rows == [] then []
    else (if condition(rows[0]) then [] else [rows[0]]) + Without(rows[1..], condition)
  }

  function NewOnly(values: seq<NewRow>, rows: seq<Row>): (r: seq<NewRow>)
    ensures forall v :: v in r ==> v in values
  {
    if values == [] then []
    else
      (if values[0].id.Some? && Conflicts(rows, values[0].id.value) then [] else [values[0]])
      + NewOnly(values[1..], rows)
  }

  predicate Changes(stmt: Statement) {
    stmt.InsertRows? || stmt.UpsertRows? || stmt.UpdateRows? || stmt.DeleteRows? || stmt.TruncateTable?
  }

  function ChangeRows(role: Role, stmt: Statement, db: Database): Response
    requires Changes(stmt)
  {
    var cat, rows := db.catalogue, db.rows;
    if !cat.table then Fail(db, UndefinedObject)
    else match stmt
      case InsertRows(values) =>
        if !May(role, Insert, cat) then Fail(db, PermissionDenied)
        else if exists v :: v in values && !Complete(v) then Fail(db, NotNullViolation)
        else Checked(db, rows + StoredAll(values))
      case UpsertRows(values, onConflict) =>
        // The UPDATE privilege is required whether or not a row conflicts.
        if !May(role, Insert, cat) || !May(role, Update, cat) then Fail(db, PermissionDenied)
        else if exists v :: v in values && !Complete(v) then Fail(db, NotNullViolation)
        else
          var hit := (row: Row) => exists v :: v in values && v.id == Some(row.id);
          if (exists row :: row in rows && hit(row)) && Fires(NoUpdate, cat) then Fail(db, Raised)
          else Checked(db, Assigned(rows, hit, onConflict) + StoredAll(NewOnly(values, rows)))
      case UpdateRows(condition, assign) =>
        if !May(role, Update, cat) then Fail(db, PermissionDenied)
        else if (exists row :: row in rows && condition(row)) && Fires(NoUpdate, cat) then Fail(db, Raised)
        else Checked(db, Assigned(rows, condition, assign))
      case DeleteRows(condition) =>
        if !May(role, Delete, cat) then Fail(db, PermissionDenied)
        else if (exists row :: row in rows && condition(row)) && Fires(NoDelete, cat) then Fail(db, Raised)
        else Response(db.(rows := Without(rows, condition)), None)
      case TruncateTable =>
        // A statement trigger: it fires on an empty table too.
        if !May(role, Truncate, cat) then Fail(db, PermissionDenied)
        else if Fires(NoTruncate, cat) then Fail(db, Raised)
        else Response(db.(rows := []), None)
  }

  function Pairs(privileges: set<Privilege>, grantees: set<Grantee>): set<(Grantee, Privilege)> {
    set g, p | g in grantees && p in privileges :: (g, p)
  }

  function ChangeCatalogue(role: Role, stmt: Statement, db: Database): Response
    requires !Changes(stmt)
  {
    var cat := db.catalogue;
    if stmt.CreateGuard? && cat.table && !May(role, Trigger, cat) then Fail(db, PermissionDenied)
    else if !stmt.CreateGuard? && role != MigrationOwner then Fail(db, PermissionDenied)
    else match stmt
      case CreateTable =>
        if cat.table then Fail(db, DuplicateObject)
        else Response(Database(cat.(table := true, grants := cat.defaults, guards := {}, disabled := {}), []), None)
      case CreateFunction(body) =>
        // CREATE OR REPLACE: the triggers keep calling it, whatever it does now.
        Response(db.(catalogue := cat.(denyFunction := Some(body))), None)
      case DropFunction =>
        if cat.denyFunction.None? then Response(db, None)
        else if cat.guards != {} then Fail(db, DependentObjects)
        else Response(db.(catalogue := cat.(denyFunction := None)), None)
      case DropGuard(g) =>
        // DROP TRIGGER IF EXISTS: a missing trigger or table is no error.
        Response(db.(catalogue := cat.(guards := cat.guards - {g})), None)
      case _ =>
        if !cat.table then Fail(db, UndefinedObject)
        else match stmt
          case GrantTo(ps, gs) => Response(db.(catalogue := cat.(grants := cat.grants + Pairs(ps, gs))), None)
          case RevokeFrom(ps, gs) => Response(db.(catalogue := cat.(grants := cat.grants - Pairs(ps, gs))), None)
          case DropTable =>
            Response(Database(cat.(table := false, grants := {}, guards := {}, disabled := {}), []), None)
          case AlterTable(assign) =>
            // ALTER COLUMN and DROP COLUMN rewrite the rows; no trigger fires, the constraints are checked again.
            Checked(db, Assigned(db.rows, (row: Row) => true, assign))
          case CreateGuard(g) =>
            if cat.denyFunction.None? then Fail(db, UndefinedObject)
            else if g in cat.guards then Fail(db, DuplicateObject)
            else Response(db.(catalogue := cat.(guards := cat.guards + {g}, disabled := cat.disabled - {g})), None)
          case DisableGuard(g) =>
            if g !in cat.guards then Fail(db, UndefinedObject)
            else Response(db.(catalogue := cat.(disabled := cat.disabled + {g})), None)
  }

  function Execute(role: Role, stmt: Statement, db: Database): Response {
    if Changes(stmt) then ChangeRows(role, stmt, db) else ChangeCatalogue(role, stmt, db)
  }

  /** Statements one after another, refused or not. */
  function ExecuteAll(run: seq<(Role, Statement)>, db: Database): Database {
    if run == [] then db
    else
      var before, last := ExecuteAll(run[..|run| - 1], db), run[|run| - 1];
      Execute(last.0, last.1, before).db
  }
}
