/**
 * What a local SQLite migration should leave behind, and the check that decides
 * whether an interrupted one has already left it: statements over tokens, an
 * executable schema semantics, the object plan and the check itself.
 */
module MigrationPlan {
  import opened Prelude

  datatype Stmt =
    | AddColumn(table: string, column: string)
    | CreateTable(name: string, columns: set<string>, ifNotExists: bool)
    | RenameTable(from: string, to: string)
    | DropTable(table: string, ifExists: bool)
    | CreateIndex(index: string, on: string, ifNotExists: bool)
    | DropIndex(index: string, ifExists: bool)
    | Pragma
    | InsertInto(table: string)
    | UpdateOrDelete
    | Unrecognised

  /** Tables with their columns, and indexes with the table each belongs to. */
  datatype Schema = Schema(tables: map<string, set<string>>, indexes: map<string, string>)

  // ------------------------------------------------------------ execution

  /** One statement against the schema; None when SQLite rejects it. */
  function Exec(stmt: Stmt, s: Schema): Option<Schema> {
    match stmt
    case AddColumn(t, c) =>
      if t in s.tables && c !in s.tables[t] then Some(s.(tables := s.tables[t := s.tables[t] + {c}])) else None
    case CreateTable(t, columns, guarded) =>
      if t in s.tables then (if guarded then Some(s) else None)
      else if t in s.indexes then None
      else Some(s.(tables := s.tables[t := columns]))
    case RenameTable(from, to) =>
      if from !in s.tables || to in s.tables || to in s.indexes then None
      else Some(Schema((s.tables - {from})[to := s.tables[from]],
                       map i | i in s.indexes :: if s.indexes[i] == from then to else s.indexes[i]))
    case DropTable(t, guarded) =>
      if t !in s.tables then (if guarded then Some(s) else None)
      else Some(Schema(s.tables - {t}, map i | i in s.indexes && s.indexes[i] != t :: s.indexes[i]))
    case CreateIndex(i, t, guarded) =>
      if i in s.indexes then (if guarded then Some(s) else None)
      else if i in s.tables || t !in s.tables then None
      else Some(s.(indexes := s.indexes[i := t]))
    case DropIndex(i, guarded) =>
      if i !in s.indexes then (if guarded then Some(s) else None)
      else Some(s.(indexes := s.indexes - {i}))
    case InsertInto(t) => if t in s.tables then Some(s) else None
    case Pragma => Some(s)
    case UpdateOrDelete => Some(s)
    case Unrecognised => None
  }

  function ExecAll(stmts: seq<Stmt>, s: Schema): Option<Schema>
    decreases |stmts|
  {
    if stmts == [] then Some(s)
    else match Exec(stmts[0], s)
      case None => None
      case Some(next) => ExecAll(stmts[1..], next)
  }

  /** A guarded statement that was accepted changes nothing when it comes again. */
  lemma GuardedTwice(stmt: Stmt, s: Schema, after: Schema)
    requires match stmt
      case CreateTable(_, _, guarded) => guarded
      case CreateIndex(_, _, guarded) => guarded
      case DropTable(_, guarded) => guarded
      case DropIndex(_, guarded) => guarded
      case _ => false
    requires Exec(stmt, s) == Some(after)
    ensures Exec(stmt, after) == Some(after)
  {
  }

  /** Dropping what was just created restores the schema, and renaming back does. */
  lemma UndoneBack(s: Schema, t: string, columns: set<string>, i: string, to: string)
    requires (forall x :: x in s.indexes ==> s.indexes[x] in s.tables) && s.tables.Keys !! s.indexes.Keys
    ensures var made := Exec(CreateTable(t, columns, false), s);
      made.Some? ==> Exec(DropTable(t, false), made.value) == Some(s)
    ensures var made := Exec(CreateIndex(i, t, false), s);
      made.Some? ==> Exec(DropIndex(i, false), made.value) == Some(s)
    ensures var moved := Exec(RenameTable(t, to), s);
      moved.Some? ==> Exec(RenameTable(to, t), moved.value) == Some(s)
  {
    var made := Exec(CreateTable(t, columns, false), s);
    if made.Some? {
      assert made.value.tables - {t} == s.tables;
      assert (map x | x in made.value.indexes && made.value.indexes[x] != t :: made.value.indexes[x]) == s.indexes;
    }
    var indexed := Exec(CreateIndex(i, t, false), s);
    if indexed.Some? { assert indexed.value.indexes - {i} == s.indexes; }
    var moved := Exec(RenameTable(t, to), s);
    if moved.Some? {
      var after := moved.value;
      assert to in after.tables && t !in after.tables && t !in after.indexes;
      assert (after.tables - {to})[t := after.tables[to]] == s.tables;
      assert (map x | x in after.indexes :: if after.indexes[x] == to then t else after.indexes[x]) == s.indexes;
    }
  }

  /** A table that is not there takes no column, index, name or row, and cannot be dropped without a guard. */
  lemma NeedsTable(s: Schema, t: string, x: string)
    requires t !in s.tables
    ensures Exec(AddColumn(t, x), s) == None && Exec(RenameTable(t, x), s) == None
    ensures Exec(InsertInto(t), s) == None && Exec(DropTable(t, false), s) == None
    ensures x !in s.indexes ==> Exec(CreateIndex(x, t, false), s) == None
  {
  }

  lemma {:induction false} ExecAllConcat(a: seq<Stmt>, b: seq<Stmt>, s: Schema)
    ensures ExecAll(a + b, s) ==
            match ExecAll(a, s) case None => None case Some(mid) => ExecAll(b, mid)
    decreases |a|
  {
    if a == [] {
      assert a + b == b;
    } else {
      assert (a + b)[1..] == a[1..] + b;
      if Exec(a[0], s).Some? {
        ExecAllConcat(a[1..], b, Exec(a[0], s).value);
      }
    }
  }

  // ------------------------------------------------------------- the plan

  datatype Column = Column(table: string, column: string)

  datatype Plan = Plan(
    columns: seq<Column>,
    tablesPresent: set<string>,
    tablesAbsent: set<string>,
    indexesPresent: set<string>,
    hasDataStatements: bool)

  predicate IsTemp(table: string) {
    "new_" <= table
  }

  predicate IsDataStatement(stmt: Stmt) {
    stmt.UpdateOrDelete? || (stmt.InsertInto? && !IsTemp(stmt.table))
  }

  function Columns(stmts: seq<Stmt>): seq<Column> {
    if stmts == [] then []
    else
      var last := stmts[|stmts| - 1];
      Columns(stmts[..|stmts| - 1]) + if last.AddColumn? then [Column(last.table, last.column)] else []
  }

  function Created(stmts: seq<Stmt>): set<string> {
    set stmt | stmt in stmts && stmt.CreateTable? :: stmt.name
  }

  function RenameSources(stmts: seq<Stmt>): set<string> {
    set stmt | stmt in stmts && stmt.RenameTable? :: stmt.from
  }

  function RenameTargets(stmts: seq<Stmt>): set<string> {
    set stmt | stmt in stmts && stmt.RenameTable? :: stmt.to
  }

  function Dropped(stmts: seq<Stmt>): set<string> {
    set stmt | stmt in stmts && stmt.DropTable? :: stmt.table
  }

  function IndexesCreated(stmts: seq<Stmt>): set<string> {
    set stmt | stmt in stmts && stmt.CreateIndex? :: stmt.index
  }

  function IndexesDropped(stmts: seq<Stmt>): set<string> {
    set stmt | stmt in stmts && stmt.DropIndex? :: stmt.index
  }

  function ColumnTables(columns: seq<Column>): set<string> {
    set c | c in columns :: c.table
  }

  /** The net objects of a migration, or None when it holds a statement that cannot be verified. */
  function PlanOf(stmts: seq<Stmt>): Option<Plan> {
    if Unrecognised in stmts || !(Dropped(stmts) <= RenameTargets(stmts)) then None
    else Some(Plan(
      Columns(stmts),
      (Created(stmts) - RenameSources(stmts)) + RenameTargets(stmts) + ColumnTables(Columns(stmts)),
      RenameSources(stmts),
      IndexesCreated(stmts) - IndexesDropped(stmts),
      HasData(stmts)))
  }

  lemma NextTables(stmts: seq<Stmt>, stmt: Stmt)
    ensures Created(stmts + [stmt]) == Created(stmts) + if stmt.CreateTable? then {stmt.name} else {}
    ensures Dropped(stmts + [stmt]) == Dropped(stmts) + if stmt.DropTable? then {stmt.table} else {}
  {
  }

  lemma NextRenames(stmts: seq<Stmt>, stmt: Stmt)
    ensures RenameSources(stmts + [stmt]) == RenameSources(stmts) + if stmt.RenameTable? then {stmt.from} else {}
    ensures RenameTargets(stmts + [stmt]) == RenameTargets(stmts) + if stmt.RenameTable? then {stmt.to} else {}
  {
  }

  lemma NextIndexes(stmts: seq<Stmt>, stmt: Stmt)
    ensures IndexesCreated(stmts + [stmt]) == IndexesCreated(stmts) + if stmt.CreateIndex? then {stmt.index} else {}
    ensures IndexesDropped(stmts + [stmt]) == IndexesDropped(stmts) + if stmt.DropIndex? then {stmt.index} else {}
  {
  }

  predicate HasData(stmts: seq<Stmt>) {
    exists stmt :: stmt in stmts && IsDataStatement(stmt)
  }

  lemma NextData(stmts: seq<Stmt>, stmt: Stmt)
    ensures HasData(stmts + [stmt]) == (HasData(stmts) || IsDataStatement(stmt))
    ensures Columns(stmts + [stmt])
      == Columns(stmts) + if stmt.AddColumn? then [Column(stmt.table, stmt.column)] else []
  {
    assert (stmts + [stmt])[..|stmts|] == stmts;
    if IsDataStatement(stmt) {
      assert stmt in stmts + [stmt];
    }
    if HasData(stmts) {
      var data :| data in stmts && IsDataStatement(data);
      assert data in stmts + [stmt];
    }
  }

  /** The planner's single pass over the statements. */
  method PlanMigrationObjects(stmts: seq<Stmt>) returns (plan: Option<Plan>)
    ensures plan == PlanOf(stmts)
  {
    var columns: seq<Column> := [];
    var created, renameSources, renameTargets, dropped := {}, {}, {}, {};
    var indexesCreated, indexesDropped := {}, {};
    var hasDataStatements := false;
    for k := 0 to |stmts|
      invariant Unrecognised !in stmts[..k]
      invariant columns == Columns(stmts[..k])
      invariant created == Created(stmts[..k])
      invariant renameSources == RenameSources(stmts[..k]) && renameTargets == RenameTargets(stmts[..k])
      invariant dropped == Dropped(stmts[..k])
      invariant indexesCreated == IndexesCreated(stmts[..k]) && indexesDropped == IndexesDropped(stmts[..k])
      invariant hasDataStatements == HasData(stmts[..k])
    {
      assert stmts[..k + 1] == stmts[..k] + [stmts[k]];
      NextTables(stmts[..k], stmts[k]);
      NextRenames(stmts[..k], stmts[k]);
      NextIndexes(stmts[..k], stmts[k]);
      NextData(stmts[..k], stmts[k]);
      match stmts[k] {
        case AddColumn(t, c) => columns := columns + [Column(t, c)];
        case CreateTable(t, _, _) => created := created + {t};
        case RenameTable(from, to) =>
          renameSources := renameSources + {from};
          renameTargets := renameTargets + {to};
        case DropTable(t, _) => dropped := dropped + {t};
        case CreateIndex(i, _, _) => indexesCreated := indexesCreated + {i};
        case DropIndex(i, _) => indexesDropped := indexesDropped + {i};
        case Pragma =>
        case InsertInto(t) =>
          if !IsTemp(t) { hasDataStatements := true; }
        case UpdateOrDelete => hasDataStatements := true;
        case Unrecognised => return None;
      }
    }
    assert stmts[..|stmts|] == stmts;
    if !(dropped <= renameTargets) {
      return None;
    }
    plan := Some(Plan(columns, (created - renameSources) + renameTargets + ColumnTables(columns),
                      renameSources, indexesCreated - indexesDropped, hasDataStatements));
  }

  // ------------------------------------------------------------ the check

  /** /^[A-Za-z_][A-Za-z0-9_]*$/ */
  predicate SafeIdent(name: string) {
    && name != ""
    && (forall k :: 0 <= k < |name| ==>
          'A' <= name[k] <= 'Z' || 'a' <= name[k] <= 'z' || name[k] == '_' || (k > 0 && '0' <= name[k] <= '9'))
  }

  predicate SafeNames(plan: Plan) {
    && (forall c :: c in plan.columns ==> SafeIdent(c.table) && SafeIdent(c.column))
    && (forall n :: n in plan.tablesPresent + plan.tablesAbsent + plan.indexesPresent ==> SafeIdent(n))
  }

  /** Every planned object is in the live schema and no rebuild left its temp table behind. */
  predicate Passes(plan: Plan, s: Schema) {
    && plan.tablesPresent <= s.tables.Keys
    && plan.tablesAbsent !! s.tables.Keys
    && (forall c :: c in plan.columns ==> c.table in s.tables && c.column in s.tables[c.table])
    && plan.indexesPresent <= s.indexes.Keys
  }

  /** `isMigrationFullyApplied`: fails closed on a missing file, an unplannable one or an odd name. */
  predicate FullyApplied(file: Option<seq<Stmt>>, s: Schema) {
    && file.Some?
    && PlanOf(file.value).Some?
    && SafeNames(PlanOf(file.value).value)
    && Passes(PlanOf(file.value).value, s)
  }

  /** Every statement is recognised, and every dropped table is renamed to again. */
  ghost predicate Verifiable(stmts: seq<Stmt>) {
    forall k :: 0 <= k < |stmts| ==>
      && stmts[k] != Unrecognised
      && (stmts[k].DropTable? ==>
            exists j :: 0 <= j < |stmts| && stmts[j].RenameTable? && stmts[j].to == stmts[k].table)
  }

  /** There is a plan exactly for verifiable statements. */
  lemma PlannableIff(stmts: seq<Stmt>)
    ensures PlanOf(stmts).Some? <==> Verifiable(stmts)
  {
    if PlanOf(stmts).Some? {
      forall k | 0 <= k < |stmts| && stmts[k].DropTable?
        ensures exists j :: 0 <= j < |stmts| && stmts[j].RenameTable? && stmts[j].to == stmts[k].table
      {
        assert stmts[k] in stmts && stmts[k].table in Dropped(stmts);
        assert stmts[k].table in RenameTargets(stmts);
      }
      assert forall k :: 0 <= k < |stmts| ==> stmts[k] in stmts;
    }
  }

  /** The check fails closed: without the file, or with anything that cannot be verified in it, nothing passes. */
  lemma FailsClosed(file: Option<seq<Stmt>>, s: Schema)
    requires file.None? || !Verifiable(file.value)
    ensures !FullyApplied(file, s)
  {
    if file.Some? {
      PlannableIff(file.value);
      hide PlanOf, SafeNames, Passes, Verifiable;
    }
  }
}
