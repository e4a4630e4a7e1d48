/**
 * The verdict of the migration check on complete and on cut runs, for
 * migrations made of single statements and of SQLite table rebuilds.
 */
module MigrationVerdict {
  import opened Prelude
  import opened MigrationPlan

  // ------------------------------------------- migrations built of blocks

  datatype Block =
    | NewTable(table: string, columns: set<string>, ifNotExists: bool)
    | NewColumn(table: string, column: string)
    | NewIndex(index: string, on: string, ifNotExists: bool)
    | OldIndex(index: string, ifExists: bool)
    | Rebuild(table: string, columns: set<string>)
    | Seed(table: string)
    | Touch
    | Toggle

  function Temp(table: string): string {
    "new_" + table
  }

  /** A rebuild is CREATE new_X, copy, DROP X, RENAME new_X TO X; anything else is one statement. */
  function Lower(b: Block): (stmts: seq<Stmt>)
    ensures 1 <= |stmts| <= 4
  {
    match b
    case NewTable(t, columns, guarded) => [CreateTable(t, columns, guarded)]
    case NewColumn(t, c) => [AddColumn(t, c)]
    case NewIndex(i, on, guarded) => [CreateIndex(i, on, guarded)]
    case OldIndex(i, guarded) => [DropIndex(i, guarded)]
    case Rebuild(t, columns) =>
      [CreateTable(Temp(t), columns, false), InsertInto(Temp(t)), DropTable(t, false), RenameTable(Temp(t), t)]
    case Seed(t) => [InsertInto(t)]
    case Touch => [UpdateOrDelete]
    case Toggle => [Pragma]
  }

  function Flatten(blocks: seq<Block>): seq<Stmt> {
    if blocks == [] then [] else Flatten(blocks[..|blocks| - 1]) + Lower(blocks[|blocks| - 1])
  }

  predicate NamesTable(b: Block, name: string) {
    (b.NewTable? || b.NewColumn? || b.Rebuild?) && b.table == name
  }

  /** What block `earlier` made is still there after the later rebuild `b`. */
  predicate Survives(earlier: Block, b: Block)
    requires b.Rebuild?
  {
    match earlier
    case NewColumn(t, c) => t == b.table ==> c in b.columns
    case NewIndex(_, on, guarded) => on != b.table && !guarded
    case _ => true
  }

  /** Rebuild temps are used by their rebuild alone, and a rebuilt table's indexes and columns come afterwards. */
  ghost predicate WellOrdered(blocks: seq<Block>) {
    && (forall i, j :: 0 <= i < |blocks| && 0 <= j < |blocks| && blocks[i].Rebuild? ==>
          !NamesTable(blocks[j], Temp(blocks[i].table)))
    && (forall i, j :: 0 <= i < j < |blocks| && blocks[j].Rebuild? ==> Survives(blocks[i], blocks[j]))
  }

  /** Every index belongs to a table that exists. */
  predicate Sound(s: Schema) {
    forall i :: i in s.indexes ==> s.indexes[i] in s.tables
  }

  /** No statement of the migration drops index `i`. */
  ghost predicate Kept(blocks: seq<Block>, i: string) {
    forall j :: 0 <= j < |blocks| ==> !(blocks[j].OldIndex? && blocks[j].index == i)
  }

  /** The objects block `b` promises are in the schema. */
  ghost predicate Present(blocks: seq<Block>, b: Block, s: Schema) {
    match b
    case NewTable(t, _, _) => t in s.tables
    case NewColumn(t, c) => t in s.tables && c in s.tables[t]
    case NewIndex(i, _, _) => Kept(blocks, i) ==> i in s.indexes
    case Rebuild(t, _) => t in s.tables && Temp(t) !in s.tables
    case _ => true
  }

  lemma FlattenLast(blocks: seq<Block>)
    requires blocks != []
    ensures Flatten(blocks) == Flatten(blocks[..|blocks| - 1]) + Lower(blocks[|blocks| - 1])
  {
  }

  lemma {:induction false} InFlatten(blocks: seq<Block>, stmt: Stmt)
    ensures stmt in Flatten(blocks) <==> exists i :: 0 <= i < |blocks| && stmt in Lower(blocks[i])
    decreases |blocks|
  {
    if blocks != [] {
      var n := |blocks| - 1;
      InFlatten(blocks[..n], stmt);
      FlattenLast(blocks);
      hide *;
      if i :| 0 <= i < n && stmt in Lower(blocks[..n][i]) {
        assert blocks[..n][i] == blocks[i];
      }
      if i :| 0 <= i < |blocks| && stmt in Lower(blocks[i]) {
        assert i == n || blocks[..n][i] == blocks[i];
      }
    }
  }

  // ---------------------------------------------- the plan, block by block

  lemma LoweredIn(blocks: seq<Block>, i: nat, stmt: Stmt)
    requires i < |blocks| && stmt in Lower(blocks[i])
    ensures stmt in Flatten(blocks)
  {
    InFlatten(blocks, stmt);
  }

  /** Which block a statement of a given kind comes from. */
  ghost predicate Origin(b: Block, stmt: Stmt) {
    match stmt
    case AddColumn(t, c) => b == NewColumn(t, c)
    case CreateTable(t, columns, guarded) =>
      b == NewTable(t, columns, guarded) || (b.Rebuild? && t == Temp(b.table))
    case RenameTable(from, to) => b.Rebuild? && to == b.table && from == Temp(to)
    case DropTable(t, _) => b.Rebuild? && t == b.table
    case CreateIndex(x, on, guarded) => b == NewIndex(x, on, guarded)
    case DropIndex(x, guarded) => b == OldIndex(x, guarded)
    case Unrecognised => false
    case _ => true
  }

  lemma LowerOrigin(b: Block, stmt: Stmt)
    requires stmt in Lower(b)
    ensures Origin(b, stmt)
  {
    var k :| 0 <= k < |Lower(b)| && Lower(b)[k] == stmt;
    if b.Rebuild? {
      assert k == 0 || k == 1 || k == 2 || k == 3;
    } else {
      assert k == 0;
    }
  }

  lemma RebuildLowers(t: string, columns: set<string>)
    ensures RenameTable(Temp(t), t) in Lower(Rebuild(t, columns))
  {
    assert Lower(Rebuild(t, columns))[3] == RenameTable(Temp(t), t);
  }

  lemma WhereFrom(blocks: seq<Block>, stmt: Stmt) returns (i: nat)
    requires stmt in Flatten(blocks)
    ensures i < |blocks| && Origin(blocks[i], stmt)
  {
    InFlatten(blocks, stmt);
    i :| 0 <= i < |blocks| && stmt in Lower(blocks[i]);
    LowerOrigin(blocks[i], stmt);
  }

  lemma {:induction false} ColumnsIn(stmts: seq<Stmt>, c: Column)
    ensures c in Columns(stmts) <==> AddColumn(c.table, c.column) in stmts
  {
    if stmts != [] {
      var n := |stmts| - 1;
      assert stmts == stmts[..n] + [stmts[n]];
      ColumnsIn(stmts[..n], c);
    }
  }

  /** Block migrations are always plannable. */
  lemma Plannable(blocks: seq<Block>)
    ensures PlanOf(Flatten(blocks)).Some?
  {
    var stmts := Flatten(blocks);
    if Unrecognised in stmts {
      var i := WhereFrom(blocks, Unrecognised);
      assert false;
    }
    forall t | t in Dropped(stmts) ensures t in RenameTargets(stmts) {
      var stmt :| stmt in stmts && stmt.DropTable? && stmt.table == t;
      var i := WhereFrom(blocks, stmt);
      RebuildLowers(t, blocks[i].columns);
      LoweredIn(blocks, i, RenameTable(Temp(t), t));
    }
  }

  lemma RenamesAreRebuilds(blocks: seq<Block>, from: string, to: string)
    requires RenameTable(from, to) in Flatten(blocks)
    ensures from == Temp(to) && exists i :: 0 <= i < |blocks| && blocks[i].Rebuild? && blocks[i].table == to
  {
    var i := WhereFrom(blocks, RenameTable(from, to));
    assert blocks[i].Rebuild? && blocks[i].table == to;
  }

  lemma AbsentTables(blocks: seq<Block>, name: string)
    ensures name in RenameSources(Flatten(blocks)) <==>
            exists i :: 0 <= i < |blocks| && blocks[i].Rebuild? && name == Temp(blocks[i].table)
  {
    var stmts := Flatten(blocks);
    if name in RenameSources(stmts) {
      var stmt :| stmt in stmts && stmt.RenameTable? && stmt.from == name;
      RenamesAreRebuilds(blocks, stmt.from, stmt.to);
    }
    if i :| 0 <= i < |blocks| && blocks[i].Rebuild? && name == Temp(blocks[i].table) {
      RebuildLowers(blocks[i].table, blocks[i].columns);
      LoweredIn(blocks, i, RenameTable(name, blocks[i].table));
    }
  }

  ghost predicate Everything(blocks: seq<Block>, s: Schema) {
    forall i :: 0 <= i < |blocks| ==> Present(blocks, blocks[i], s)
  }

  /** A schema with every block's objects passes. */
  lemma PresentPasses(blocks: seq<Block>, s: Schema)
    requires Everything(blocks, s)
    ensures PlanOf(Flatten(blocks)).Some? && Passes(PlanOf(Flatten(blocks)).value, s)
  {
    Plannable(blocks);
    TablesPass(blocks, s);
    IndexesPass(blocks, s);
    var stmts := Flatten(blocks);
    forall c | c in Columns(stmts) ensures c.table in s.tables && c.column in s.tables[c.table] {
      ColumnsIn(stmts, c);
      var i := WhereFrom(blocks, AddColumn(c.table, c.column));
      assert Present(blocks, blocks[i], s);
    }
  }

  lemma TablesPass(blocks: seq<Block>, s: Schema)
    requires Everything(blocks, s)
    ensures Created(Flatten(blocks)) - RenameSources(Flatten(blocks)) <= s.tables.Keys
    ensures RenameTargets(Flatten(blocks)) <= s.tables.Keys
    ensures ColumnTables(Columns(Flatten(blocks))) <= s.tables.Keys
    ensures RenameSources(Flatten(blocks)) !! s.tables.Keys
  {
    var stmts := Flatten(blocks);
    forall t | t in Created(stmts) && t !in RenameSources(stmts) ensures t in s.tables {
      var stmt :| stmt in stmts && stmt.CreateTable? && stmt.name == t;
      var i := WhereFrom(blocks, stmt);
      AbsentTables(blocks, t);
      assert Present(blocks, blocks[i], s);
    }
    forall t | t in RenameTargets(stmts) ensures t in s.tables {
      var stmt :| stmt in stmts && stmt.RenameTable? && stmt.to == t;
      var i := WhereFrom(blocks, stmt);
      assert Present(blocks, blocks[i], s);
    }
    forall t | t in ColumnTables(Columns(stmts)) ensures t in s.tables {
      var c :| c in Columns(stmts) && c.table == t;
      ColumnsIn(stmts, c);
      var i := WhereFrom(blocks, AddColumn(c.table, c.column));
      assert Present(blocks, blocks[i], s);
    }
    forall t | t in RenameSources(stmts) ensures t !in s.tables {
      AbsentTables(blocks, t);
      var i :| 0 <= i < |blocks| && blocks[i].Rebuild? && t == Temp(blocks[i].table);
      assert Present(blocks, blocks[i], s);
    }
  }

  lemma IndexesPass(blocks: seq<Block>, s: Schema)
    requires Everything(blocks, s)
    ensures IndexesCreated(Flatten(blocks)) - IndexesDropped(Flatten(blocks)) <= s.indexes.Keys
  {
    var stmts := Flatten(blocks);
    forall x | x in IndexesCreated(stmts) && x !in IndexesDropped(stmts) ensures x in s.indexes {
      var stmt :| stmt in stmts && stmt.CreateIndex? && stmt.index == x;
      var i := WhereFrom(blocks, stmt);
      forall j | 0 <= j < |blocks| ensures !(blocks[j].OldIndex? && blocks[j].index == x) {
        if blocks[j].OldIndex? && blocks[j].index == x {
          LoweredIn(blocks, j, DropIndex(x, blocks[j].ifExists));
        }
      }
      assert Present(blocks, blocks[i], s);
    }
  }

  /** A schema that passes has every block's objects. */
  lemma PassesPresent(blocks: seq<Block>, s: Schema, i: nat)
    requires WellOrdered(blocks) && i < |blocks|
    requires PlanOf(Flatten(blocks)).Some? && Passes(PlanOf(Flatten(blocks)).value, s)
    ensures Present(blocks, blocks[i], s)
  {
    match blocks[i] {
      case NewTable(_, _, _) => NewTablePresent(blocks, s, i);
      case NewColumn(_, _) => NewColumnPresent(blocks, s, i);
      case NewIndex(x, _, _) =>
        if Kept(blocks, x) { NewIndexPresent(blocks, s, i); }
      case Rebuild(t, columns) =>
        RebuildLowers(t, columns);
        LoweredIn(blocks, i, RenameTable(Temp(t), t));
      case _ =>
    }
  }

  lemma NewTablePresent(blocks: seq<Block>, s: Schema, i: nat)
    requires WellOrdered(blocks) && i < |blocks| && blocks[i].NewTable?
    requires PlanOf(Flatten(blocks)).Some? && Passes(PlanOf(Flatten(blocks)).value, s)
    ensures blocks[i].table in s.tables
  {
    var t := blocks[i].table;
    LoweredIn(blocks, i, CreateTable(t, blocks[i].columns, blocks[i].ifNotExists));
    AbsentTables(blocks, t);
    assert NamesTable(blocks[i], t);
    assert t in Created(Flatten(blocks)) - RenameSources(Flatten(blocks));
  }

  lemma NewColumnPresent(blocks: seq<Block>, s: Schema, i: nat)
    requires i < |blocks| && blocks[i].NewColumn?
    requires PlanOf(Flatten(blocks)).Some? && Passes(PlanOf(Flatten(blocks)).value, s)
    ensures blocks[i].table in s.tables && blocks[i].column in s.tables[blocks[i].table]
  {
    var c := Column(blocks[i].table, blocks[i].column);
    LoweredIn(blocks, i, AddColumn(c.table, c.column));
    ColumnsIn(Flatten(blocks), c);
  }

  lemma NewIndexPresent(blocks: seq<Block>, s: Schema, i: nat)
    requires i < |blocks| && blocks[i].NewIndex? && Kept(blocks, blocks[i].index)
    requires PlanOf(Flatten(blocks)).Some? && Passes(PlanOf(Flatten(blocks)).value, s)
    ensures blocks[i].index in s.indexes
  {
    var stmts, x := Flatten(blocks), blocks[i].index;
    LoweredIn(blocks, i, CreateIndex(x, blocks[i].on, blocks[i].ifNotExists));
    if x in IndexesDropped(stmts) {
      var stmt :| stmt in stmts && stmt.DropIndex? && stmt.index == x;
      var j := WhereFrom(blocks, stmt);
      assert false;
    }
    assert x in IndexesCreated(stmts) - IndexesDropped(stmts);
  }

  // ---------------------------------------------------- executing a block

  lemma ExecOne(stmt: Stmt, s: Schema)
    ensures ExecAll([stmt], s) == Exec(stmt, s)
  {
    if Exec(stmt, s).Some? {
      assert ExecAll([stmt][1..], Exec(stmt, s).value) == Exec(stmt, s);
    }
  }

  lemma ExecHead(stmts: seq<Stmt>, s: Schema)
    requires stmts != [] && ExecAll(stmts, s).Some?
    ensures Exec(stmts[0], s).Some? && ExecAll(stmts[1..], Exec(stmts[0], s).value) == ExecAll(stmts, s)
  {
  }

  /** A whole rebuild replaces the table's columns and loses its indexes. */
  ghost predicate Rebuilt(t: string, columns: set<string>, s: Schema, after: Schema) {
    && t in s.tables && Temp(t) !in s.tables
    && after.tables == s.tables[t := columns]
    && (forall i :: i in after.indexes <==> i in s.indexes && s.indexes[i] != t)
    && (forall i :: i in after.indexes ==> after.indexes[i] == s.indexes[i])
  }

  lemma DropThenRename(t: string, columns: set<string>, s: Schema, after: Schema)
    requires Sound(s) && t in s.tables && Temp(t) !in s.tables
    requires ExecAll([DropTable(t, false), RenameTable(Temp(t), t)], s.(tables := s.tables[Temp(t) := columns]))
      == Some(after)
    ensures Rebuilt(t, columns, s, after)
  {
    assert |Temp(t)| == |t| + 4;
    var withTemp := s.(tables := s.tables[Temp(t) := columns]);
    var stmts := [DropTable(t, false), RenameTable(Temp(t), t)];
    ExecHead(stmts, withTemp);
    assert stmts[1..] == [RenameTable(Temp(t), t)];
    var dropped := Exec(stmts[0], withTemp).value;
    ExecOne(RenameTable(Temp(t), t), dropped);
    assert after.tables == (dropped.tables - {Temp(t)})[t := columns];
    assert after.tables == s.tables[t := columns];
  }

  lemma RebuildEffect(t: string, columns: set<string>, s: Schema, after: Schema)
    requires Sound(s) && ExecAll(Lower(Rebuild(t, columns)), s) == Some(after)
    ensures Rebuilt(t, columns, s, after)
  {
    var stmts := Lower(Rebuild(t, columns));
    assert |Temp(t)| == |t| + 4;
    ExecHead(stmts, s);
    var withTemp := Exec(stmts[0], s).value;
    assert withTemp == s.(tables := s.tables[Temp(t) := columns]);
    ExecHead(stmts[1..], withTemp);
    assert stmts[1..][0] == InsertInto(Temp(t));
    assert stmts[1..][1..] == [DropTable(t, false), RenameTable(Temp(t), t)];
    ExecHead([DropTable(t, false), RenameTable(Temp(t), t)], withTemp);
    DropThenRename(t, columns, s, after);
  }

  /** One block taken as a step. */
  function ExecBlock(b: Block, s: Schema): Option<Schema> {
    ExecAll(Lower(b), s)
  }

  lemma SingleEffect(b: Block, s: Schema)
    requires !b.Rebuild?
    ensures ExecBlock(b, s) == Exec(Lower(b)[0], s)
  {
    ExecOne(Lower(b)[0], s);
    assert Lower(b) == [Lower(b)[0]];
  }

  /** No accepted run of statements leaves an index without its table. */
  lemma {:induction false} RunKeepsSound(stmts: seq<Stmt>, s: Schema)
    requires Sound(s) && ExecAll(stmts, s).Some?
    ensures Sound(ExecAll(stmts, s).value)
    decreases |stmts|
  {
    if stmts != [] {
      var next := Exec(stmts[0], s).value;
      assert Sound(next);
      hide Exec, Sound;
      RunKeepsSound(stmts[1..], next);
    }
  }

  lemma BlockKeepsSound(b: Block, s: Schema, after: Schema)
    requires Sound(s) && ExecBlock(b, s) == Some(after)
    ensures Sound(after)
  {
    if b.Rebuild? {
      RebuildEffect(b.table, b.columns, s, after);
    } else {
      SingleEffect(b, s);
    }
  }

  /** A block that ran has its objects. */
  lemma BlockMakes(blocks: seq<Block>, b: Block, s: Schema, after: Schema)
    requires Sound(s) && ExecBlock(b, s) == Some(after)
    ensures Present(blocks, b, after)
    ensures b.NewIndex? && !b.ifNotExists ==> b.index in after.indexes && after.indexes[b.index] == b.on
  {
    if b.Rebuild? {
      assert |Temp(b.table)| == |b.table| + 4;
      RebuildEffect(b.table, b.columns, s, after);
    } else {
      SingleEffect(b, s);
    }
  }

  /** A later block that ran leaves an earlier one's objects alone. */
  lemma BlockKeeps(blocks: seq<Block>, i: nat, k: nat, s: Schema, after: Schema)
    requires WellOrdered(blocks) && i < k < |blocks| && Sound(s)
    requires ExecBlock(blocks[k], s) == Some(after)
    requires Present(blocks, blocks[i], s)
    requires blocks[i].NewIndex? && !blocks[i].ifNotExists && Kept(blocks, blocks[i].index) ==>
      s.indexes[blocks[i].index] == blocks[i].on
    ensures Present(blocks, blocks[i], after)
    ensures blocks[i].NewIndex? && !blocks[i].ifNotExists && Kept(blocks, blocks[i].index) ==>
      after.indexes[blocks[i].index] == blocks[i].on
  {
    var b := blocks[k];
    if b.Rebuild? {
      RebuildEffect(b.table, b.columns, s, after);
      assert Survives(blocks[i], b);
      if blocks[i].Rebuild? {
        assert !NamesTable(b, Temp(blocks[i].table));
      }
    } else {
      SingleEffect(b, s);
      if blocks[i].Rebuild? {
        assert !NamesTable(b, Temp(blocks[i].table));
      }
      if b.OldIndex? && blocks[i].NewIndex? {
        assert Kept(blocks, blocks[i].index) ==> b.index != blocks[i].index;
      }
    }
  }

  /** Everything the first `k` blocks promise is there. */
  ghost predicate Made(blocks: seq<Block>, k: nat, s: Schema)
    requires k <= |blocks|
  {
    && Sound(s)
    && (forall i :: 0 <= i < k ==> Present(blocks, blocks[i], s))
    && (forall i :: 0 <= i < k && blocks[i].NewIndex? && !blocks[i].ifNotExists && Kept(blocks, blocks[i].index) ==>
          s.indexes[blocks[i].index] == blocks[i].on)
  }

  lemma NextMade(blocks: seq<Block>, k: nat, s: Schema, after: Schema)
    requires WellOrdered(blocks) && k < |blocks| && Made(blocks, k, s)
    requires ExecBlock(blocks[k], s) == Some(after)
    ensures Made(blocks, k + 1, after)
  {
    BlockKeepsSound(blocks[k], s, after);
    BlockMakes(blocks, blocks[k], s, after);
    forall i | 0 <= i < k + 1
      ensures Present(blocks, blocks[i], after)
      ensures blocks[i].NewIndex? && !blocks[i].ifNotExists && Kept(blocks, blocks[i].index) ==>
                after.indexes[blocks[i].index] == blocks[i].on
    {
      if i < k {
        BlockKeeps(blocks, i, k, s, after);
      }
    }
  }

  lemma PrefixRan(blocks: seq<Block>, k: nat, s: Schema)
    requires k < |blocks| && ExecAll(Flatten(blocks[..k + 1]), s).Some?
    ensures ExecAll(Flatten(blocks[..k]), s).Some?
    ensures ExecBlock(blocks[k], ExecAll(Flatten(blocks[..k]), s).value) == ExecAll(Flatten(blocks[..k + 1]), s)
  {
    assert blocks[..k + 1][..k] == blocks[..k];
    ExecAllConcat(Flatten(blocks[..k]), Lower(blocks[k]), s);
  }

  lemma {:induction false} RunMakes(blocks: seq<Block>, k: nat, s: Schema, after: Schema)
    requires WellOrdered(blocks) && k <= |blocks| && Sound(s)
    requires ExecAll(Flatten(blocks[..k]), s) == Some(after)
    ensures Made(blocks, k, after)
  {
    if k > 0 {
      PrefixRan(blocks, k - 1, s);
      var mid := ExecAll(Flatten(blocks[..k - 1]), s).value;
      RunMakes(blocks, k - 1, s, mid);
      NextMade(blocks, k - 1, mid, after);
    }
  }

  // ----------------------------------------------------------- verdicts

  /** A complete run leaves every planned object, so it passes the check exactly if every name is identifier-shaped. */
  lemma CompleteRunPasses(blocks: seq<Block>, s: Schema, after: Schema)
    requires WellOrdered(blocks) && Sound(s) && ExecAll(Flatten(blocks), s) == Some(after)
    ensures PlanOf(Flatten(blocks)).Some? && Passes(PlanOf(Flatten(blocks)).value, after)
    ensures FullyApplied(Some(Flatten(blocks)), after) <==> SafeNames(PlanOf(Flatten(blocks)).value)
  {
    assert blocks[..|blocks|] == blocks;
    RunMakes(blocks, |blocks|, s, after);
    PresentPasses(blocks, after);
    hide PlanOf, Flatten, Passes, SafeNames, Present, Made, WellOrdered, Sound, ExecAll;
  }

  /**
   * A complete run that creates a table with a hyphen in its name is refused, on any database
   * without an object of that name.
   */
  lemma OddNameRefused(s: Schema)
    requires "user-data" !in s.tables && "user-data" !in s.indexes
    ensures var blocks := [NewTable("user-data", {}, false)];
      exists after :: ExecAll(Flatten(blocks), s) == Some(after) && !FullyApplied(Some(Flatten(blocks)), after)
  {
    var name := "user-data";
    var stmt := CreateTable(name, {}, false);
    var blocks := [NewTable(name, {}, false)];
    assert blocks[..0] == [] && Flatten(blocks) == [] + [stmt] == [stmt];
    ExecOne(stmt, s);
    var after := ExecAll([stmt], s).value;
    assert stmt in [stmt];
    assert name in Created([stmt]) && RenameSources([stmt]) == {};
    assert !SafeIdent(name) by { assert name[4] == '-'; }
    hide WellOrdered, ExecAll, Exec, Created, RenameSources, SafeIdent;
    assert PlanOf([stmt]).Some? ==> name in PlanOf([stmt]).value.tablesPresent;
  }

  /** An ASCII letter, by its code, or an underscore. */
  predicate IsLetter(c: char) {
    65 <= c as int <= 90 || 97 <= c as int <= 122 || c == '_'
  }

  /** A word of letters, digits and underscores with no digit in front. */
  predicate IsWord(name: string) {
    && name != "" && IsLetter(name[0])
    && forall i :: 0 <= i < |name| ==> IsLetter(name[i]) || 48 <= name[i] as int <= 57
  }

  lemma SafeIsWord(name: string)
    ensures SafeIdent(name) <==> IsWord(name)
  {
  }

  /** A complete run that creates a table is accepted exactly if its name is a word, on any database without it. */
  lemma NewTableAcceptedIff(name: string, s: Schema)
    requires name !in s.tables && name !in s.indexes && Sound(s)
    ensures var blocks := [NewTable(name, {}, false)];
      exists after :: ExecAll(Flatten(blocks), s) == Some(after)
                      && (FullyApplied(Some(Flatten(blocks)), after) <==> IsWord(name))
  {
    var stmt := CreateTable(name, {}, false);
    var blocks := [NewTable(name, {}, false)];
    assert blocks[..0] == [] && Flatten(blocks) == [] + [stmt] == [stmt];
    ExecOne(stmt, s);
    var after := ExecAll([stmt], s).value;
    assert WellOrdered(blocks);
    CompleteRunPasses(blocks, s, after);
    SafeIsWord(name);
    PlanOfOne(name);
    hide WellOrdered, ExecAll, Exec, SafeIdent, IsWord, FullyApplied;
  }

  lemma PlanOfOne(name: string)
    ensures var plan := PlanOf([CreateTable(name, {}, false)]);
      plan.Some? && (SafeNames(plan.value) <==> SafeIdent(name))
  {
    var stmt := CreateTable(name, {}, false);
    assert stmt in [stmt] && [stmt][..0] == [];
    assert Created([stmt]) == {name} && RenameSources([stmt]) == {} && RenameTargets([stmt]) == {};
    assert Dropped([stmt]) == {} && Columns([stmt]) == [];
    var plan := PlanOf([stmt]);
    assert plan.Some? && plan.value.tablesPresent == {name} && plan.value.tablesAbsent == {};
    assert forall x :: x !in plan.value.indexesPresent;
    hide SafeIdent, HasData, PlanOf;
  }

  /** And a complete run that adds a column exactly if the names of its table and of the column are words. */
  lemma NewColumnAcceptedIff(table: string, column: string, s: Schema)
    requires table in s.tables && column !in s.tables[table] && Sound(s)
    ensures var blocks := [NewColumn(table, column)];
      exists after :: ExecAll(Flatten(blocks), s) == Some(after)
                      && (FullyApplied(Some(Flatten(blocks)), after) <==> IsWord(table) && IsWord(column))
  {
    var stmt := AddColumn(table, column);
    var blocks := [NewColumn(table, column)];
    assert blocks[..0] == [] && Flatten(blocks) == [] + [stmt] == [stmt];
    ExecOne(stmt, s);
    var after := ExecAll([stmt], s).value;
    assert WellOrdered(blocks);
    CompleteRunPasses(blocks, s, after);
    SafeIsWord(table);
    SafeIsWord(column);
    PlanOfColumn(table, column);
    hide WellOrdered, ExecAll, Exec, SafeIdent, IsWord, FullyApplied;
  }

  lemma OneTable(stmt: Stmt)
    requires stmt.AddColumn?
    ensures Created([stmt]) == {} && RenameSources([stmt]) == {} && RenameTargets([stmt]) == {}
    ensures Dropped([stmt]) == {} && IndexesCreated([stmt]) == {} && Unrecognised !in [stmt]
  {
    assert forall x :: x in [stmt] ==> x == stmt;
  }

  lemma OneColumn(table: string, column: string)
    ensures var c := [Column(table, column)]; Columns([AddColumn(table, column)]) == c && ColumnTables(c) == {table}
  {
    var stmt, c := AddColumn(table, column), Column(table, column);
    assert [stmt][..0] == [];
    assert Columns([stmt]) == [] + [c];
    assert c in [c] && c.table in ColumnTables([c]);
  }

  lemma PlanOfColumn(table: string, column: string)
    ensures var plan := PlanOf([AddColumn(table, column)]);
      plan.Some? && (SafeNames(plan.value) <==> SafeIdent(table) && SafeIdent(column))
  {
    var stmt, c := AddColumn(table, column), Column(table, column);
    hide Columns, ColumnTables, Created, Dropped, RenameSources, RenameTargets, IndexesCreated, IndexesDropped,
      SafeIdent, HasData;
    OneTable(stmt);
    OneColumn(table, column);
    var plan := PlanOf([stmt]);
    assert plan.Some? && plan.value.tablesPresent == {table} && plan.value.tablesAbsent == {};
    assert plan.value.indexesPresent == {} && plan.value.columns == [c] && c in [c];
    hide PlanOf;
  }

  /** The block writes rows of its own, and not only the copy of a rebuild. */
  predicate WritesRows(b: Block) {
    b.Touch? || (b.Seed? && !("new_" <= b.table))
  }

  lemma {:induction false} DataOfBlock(b: Block)
    ensures HasData(Lower(b)) <==> WritesRows(b)
  {
    var stmts := Lower(b);
    assert forall stmt :: stmt in stmts <==> exists k :: 0 <= k < |stmts| && stmts[k] == stmt;
    if b.Rebuild? {
      assert "new_" <= Temp(b.table);
    } else {
      assert stmts[0] in stmts && |stmts| == 1;
    }
  }

  /** A migration is reported as holding data statements exactly if some block writes rows; rebuilds do not. */
  lemma {:induction false} DataIff(blocks: seq<Block>)
    ensures HasData(Flatten(blocks)) <==> exists b :: b in blocks && WritesRows(b)
  {
    hide WritesRows, Lower, IsDataStatement;
    if blocks != [] {
      var n := |blocks| - 1;
      DataIff(blocks[..n]);
      DataOfBlock(blocks[n]);
      assert blocks == blocks[..n] + [blocks[n]];
      HasDataConcat(Flatten(blocks[..n]), Lower(blocks[n]));
    }
  }

  lemma HasDataConcat(a: seq<Stmt>, b: seq<Stmt>)
    ensures HasData(a + b) <==> HasData(a) || HasData(b)
  {
  }

  /** Where a rebuild stands after `p` of its four statements. */
  lemma TempStands(t: string, columns: set<string>, p: nat, s: Schema, cut: Schema)
    requires 1 <= p <= 3 && ExecAll(Lower(Rebuild(t, columns))[..p], s) == Some(cut)
    ensures Temp(t) in cut.tables
  {
    assert |Temp(t)| == |t| + 4;
    var all := Lower(Rebuild(t, columns));
    assert all[1] == InsertInto(Temp(t)) && all[2] == DropTable(t, false);
    var stmts := all[..p];
    ExecHead(stmts, s);
    if p >= 2 {
      var s1, rest := Exec(stmts[0], s).value, stmts[1..];
      assert rest[0] == all[1];
      ExecHead(rest, s1);
      if p == 3 {
        assert rest[1] == all[2] && rest[1..] == [DropTable(t, false)];
        ExecOne(DropTable(t, false), s1);
      } else {
        assert rest[1..] == [];
      }
    } else {
      assert stmts[1..] == [];
    }
  }

  /** A run cut inside a rebuild always fails the check: the temp table is still there. */
  lemma CutInsideRebuildFails(blocks: seq<Block>, k: nat, p: nat, s: Schema, cut: Schema)
    requires WellOrdered(blocks) && k < |blocks| && blocks[k].Rebuild? && 1 <= p <= 3
    requires ExecAll(Flatten(blocks[..k]) + Lower(blocks[k])[..p], s) == Some(cut)
    ensures !FullyApplied(Some(Flatten(blocks)), cut)
  {
    ExecAllConcat(Flatten(blocks[..k]), Lower(blocks[k])[..p], s);
    var mid := ExecAll(Flatten(blocks[..k]), s).value;
    TempStands(blocks[k].table, blocks[k].columns, p, mid, cut);
    if FullyApplied(Some(Flatten(blocks)), cut) {
      PassesPresent(blocks, cut, k);
      assert false;
    }
  }

  /** Block `b` puts table `t`, column `c` of `t`, or index `x` into the schema. */
  predicate MakesTable(b: Block, t: string) {
    (b.NewTable? || b.Rebuild?) && b.table == t
  }

  predicate MakesColumn(b: Block, t: string, c: string) {
    (MakesTable(b, t) && c in b.columns) || b == NewColumn(t, c)
  }

  predicate MakesIndex(b: Block, x: string) {
    b.NewIndex? && b.index == x
  }

  lemma BlockEffect(b: Block, s: Schema, after: Schema)
    requires Sound(s) && ExecBlock(b, s) == Some(after)
    ensures if b.Rebuild? then Rebuilt(b.table, b.columns, s, after) else Exec(Lower(b)[0], s) == Some(after)
  {
    if b.Rebuild? {
      RebuildEffect(b.table, b.columns, s, after);
    } else {
      SingleEffect(b, s);
    }
  }

  lemma SoundAfter(blocks: seq<Block>, k: nat, s: Schema, after: Schema)
    requires k <= |blocks| && Sound(s) && ExecAll(Flatten(blocks[..k]), s) == Some(after)
    ensures Sound(after)
  {
    if k > 0 {
      PrefixRan(blocks, k - 1, s);
      SoundAfter(blocks, k - 1, s, ExecAll(Flatten(blocks[..k - 1]), s).value);
      BlockKeepsSound(blocks[k - 1], ExecAll(Flatten(blocks[..k - 1]), s).value, after);
    }
  }

  /** One block adds no object but the ones it makes. */
  lemma BlockAddsTable(b: Block, s: Schema, after: Schema, t: string)
    requires Sound(s) && ExecBlock(b, s) == Some(after) && !MakesTable(b, t) && t !in s.tables
    ensures t !in after.tables
  {
    BlockEffect(b, s, after);
  }

  lemma BlockAddsColumn(b: Block, s: Schema, after: Schema, t: string, c: string)
    requires Sound(s) && ExecBlock(b, s) == Some(after) && !MakesColumn(b, t, c) && !(t in s.tables && c in s.tables[t])
    ensures !(t in after.tables && c in after.tables[t])
  {
    BlockEffect(b, s, after);
  }

  lemma BlockAddsIndex(b: Block, s: Schema, after: Schema, x: string)
    requires Sound(s) && ExecBlock(b, s) == Some(after) && !MakesIndex(b, x) && x !in s.indexes
    ensures x !in after.indexes
  {
    BlockEffect(b, s, after);
  }

  /** The schema just before block `k - 1`, itself reached by a sound run. */
  lemma StepBack(blocks: seq<Block>, k: nat, s: Schema, after: Schema) returns (mid: Schema)
    requires 0 < k <= |blocks| && Sound(s) && ExecAll(Flatten(blocks[..k]), s) == Some(after)
    ensures ExecAll(Flatten(blocks[..k - 1]), s) == Some(mid) && Sound(mid)
    ensures ExecBlock(blocks[k - 1], mid) == Some(after)
  {
    PrefixRan(blocks, k - 1, s);
    mid := ExecAll(Flatten(blocks[..k - 1]), s).value;
    SoundAfter(blocks, k - 1, s, mid);
  }

  /** A table nobody had and no executed block makes is not there. */
  lemma {:induction false} TableStillMissing(blocks: seq<Block>, k: nat, s: Schema, after: Schema, t: string)
    requires k <= |blocks| && Sound(s) && ExecAll(Flatten(blocks[..k]), s) == Some(after)
    requires t !in s.tables && forall i :: 0 <= i < k ==> !MakesTable(blocks[i], t)
    ensures t !in after.tables
  {
    if k > 0 {
      var mid := StepBack(blocks, k, s, after);
      TableStillMissing(blocks, k - 1, s, mid, t);
      BlockAddsTable(blocks[k - 1], mid, after, t);
    }
  }

  lemma {:induction false} ColumnStillMissing(blocks: seq<Block>, k: nat, s: Schema, after: Schema, t: string,
      c: string)
    requires k <= |blocks| && Sound(s) && ExecAll(Flatten(blocks[..k]), s) == Some(after)
    requires !(t in s.tables && c in s.tables[t]) && forall i :: 0 <= i < k ==> !MakesColumn(blocks[i], t, c)
    ensures !(t in after.tables && c in after.tables[t])
  {
    if k > 0 {
      var mid := StepBack(blocks, k, s, after);
      ColumnStillMissing(blocks, k - 1, s, mid, t, c);
      BlockAddsColumn(blocks[k - 1], mid, after, t, c);
    }
  }

  lemma {:induction false} IndexStillMissing(blocks: seq<Block>, k: nat, s: Schema, after: Schema, x: string)
    requires k <= |blocks| && Sound(s) && ExecAll(Flatten(blocks[..k]), s) == Some(after)
    requires x !in s.indexes && forall i :: 0 <= i < k ==> !MakesIndex(blocks[i], x)
    ensures x !in after.indexes
  {
    if k > 0 {
      var mid := StepBack(blocks, k, s, after);
      IndexStillMissing(blocks, k - 1, s, mid, x);
      BlockAddsIndex(blocks[k - 1], mid, after, x);
    }
  }

  /** Block `j` makes an object that neither the start nor the first `k` blocks provide. */
  ghost predicate NewAfter(blocks: seq<Block>, k: nat, s: Schema, j: nat)
    requires k <= j < |blocks|
  {
    match blocks[j]
    case NewTable(t, _, _) => t !in s.tables && forall i :: 0 <= i < k ==> !MakesTable(blocks[i], t)
    case NewColumn(t, c) =>
      !(t in s.tables && c in s.tables[t]) && forall i :: 0 <= i < k ==> !MakesColumn(blocks[i], t, c)
    case NewIndex(x, _, _) =>
      Kept(blocks, x) && x !in s.indexes && forall i :: 0 <= i < k ==> !MakesIndex(blocks[i], x)
    case _ => false
  }

  /** A run cut before a statement that makes a new object always fails the check. */
  lemma CutBeforeNewObjectFails(blocks: seq<Block>, k: nat, s: Schema, cut: Schema, j: nat)
    requires WellOrdered(blocks) && Sound(s) && k <= j < |blocks|
    requires ExecAll(Flatten(blocks[..k]), s) == Some(cut)
    requires NewAfter(blocks, k, s, j)
    ensures !FullyApplied(Some(Flatten(blocks)), cut)
  {
    if FullyApplied(Some(Flatten(blocks)), cut) {
      PassesPresent(blocks, cut, j);
      match blocks[j] {
        case NewTable(t, _, _) => TableStillMissing(blocks, k, s, cut, t);
        case NewColumn(t, c) => ColumnStillMissing(blocks, k, s, cut, t, c);
        case NewIndex(x, _, _) => IndexStillMissing(blocks, k, s, cut, x);
      }
      assert false;
    }
  }

  /**
   * The check on a run cut between two blocks: what ran is always found, so the
   * verdict depends on the objects of the blocks still to come and on nothing else.
   */
  lemma VerdictBetweenBlocks(blocks: seq<Block>, k: nat, s: Schema, cut: Schema)
    requires WellOrdered(blocks) && Sound(s) && k <= |blocks|
    requires ExecAll(Flatten(blocks[..k]), s) == Some(cut)
    ensures PlanOf(Flatten(blocks)).Some?
    ensures Passes(PlanOf(Flatten(blocks)).value, cut) <==>
            forall j :: k <= j < |blocks| ==> Present(blocks, blocks[j], cut)
    ensures FullyApplied(Some(Flatten(blocks)), cut) <==>
            SafeNames(PlanOf(Flatten(blocks)).value)
            && forall j :: k <= j < |blocks| ==> Present(blocks, blocks[j], cut)
  {
    hide PlanOf, Flatten, Passes, SafeNames, Present, Made, WellOrdered, Sound, ExecAll;
    Plannable(blocks);
    RunMakes(blocks, k, s, cut);
    if Passes(PlanOf(Flatten(blocks)).value, cut) {
      forall j | k <= j < |blocks| ensures Present(blocks, blocks[j], cut) {
        PassesPresent(blocks, cut, j);
      }
    }
    if forall j :: k <= j < |blocks| ==> Present(blocks, blocks[j], cut) {
      PresentPasses(blocks, cut);
    }
  }

  /**
   * The blind spot, in full: a migration that only rebuilds existing tables and
   * recreates the indexes they already have passes the check on the untouched
   * database, before its first statement has run.
   */
  lemma UnstartedRebuildPasses(blocks: seq<Block>, s: Schema)
    requires WellOrdered(blocks) && Sound(s)
    requires forall j :: 0 <= j < |blocks| ==>
      match blocks[j]
      case Rebuild(t, _) => t in s.tables && Temp(t) !in s.tables
      case NewIndex(x, _, _) => x in s.indexes
      case NewTable(_, _, _) => false
      case NewColumn(_, _) => false
      case _ => true
    ensures PlanOf(Flatten(blocks)).Some? && Passes(PlanOf(Flatten(blocks)).value, s)
    ensures FullyApplied(Some(Flatten(blocks)), s) <==> SafeNames(PlanOf(Flatten(blocks)).value)
  {
    assert Flatten(blocks[..0]) == [];
    VerdictBetweenBlocks(blocks, 0, s, s);
  }

  lemma OnlyRebuildsAreLong(b: Block)
    ensures |Lower(b)| > 1 <==> b.Rebuild?
  {
  }

  /** Every cut of a run lies between two blocks or inside one of them. */
  lemma {:induction false} CutPosition(blocks: seq<Block>, n: nat) returns (k: nat, p: nat)
    requires n <= |Flatten(blocks)|
    ensures k <= |blocks| && (p > 0 ==> k < |blocks| && p < |Lower(blocks[k])|)
    ensures Flatten(blocks)[..n] == Flatten(blocks[..k]) + if p > 0 then Lower(blocks[k])[..p] else []
    ensures p > 0 ==> blocks[k].Rebuild?
    decreases |blocks|
  {
    if blocks == [] {
      k, p := 0, 0;
    } else {
      var m := |blocks| - 1;
      var before := Flatten(blocks[..m]);
      FlattenLast(blocks);
      hide *;
      if n < |before| {
        k, p := CutPosition(blocks[..m], n);
        assert blocks[..m][..k] == blocks[..k] && Flatten(blocks)[..n] == before[..n];
      } else if n == |Flatten(blocks)| {
        k, p := |blocks|, 0;
        assert blocks[..k] == blocks;
      } else {
        k, p := m, n - |before|;
        OnlyRebuildsAreLong(blocks[m]);
      }
    }
  }

  /**
   * What a passing check proves about a run cut after any `n` statements: no
   * rebuild is half done, and every block still to come only makes objects that
   * the database already had or that an executed block made.
   */
  lemma PassingCut(blocks: seq<Block>, n: nat, s: Schema, cut: Schema) returns (k: nat)
    requires WellOrdered(blocks) && Sound(s) && n <= |Flatten(blocks)|
    requires ExecAll(Flatten(blocks)[..n], s) == Some(cut)
    requires FullyApplied(Some(Flatten(blocks)), cut)
    ensures k <= |blocks| && Flatten(blocks)[..n] == Flatten(blocks[..k])
    ensures forall j :: k <= j < |blocks| ==> Present(blocks, blocks[j], cut) && !NewAfter(blocks, k, s, j)
  {
    var p;
    k, p := CutPosition(blocks, n);
    if p > 0 {
      CutInsideRebuildFails(blocks, k, p, s, cut);
      assert false;
    } else {
      assert Flatten(blocks)[..n] == Flatten(blocks[..k]);
      VerdictBetweenBlocks(blocks, k, s, cut);
      forall j | k <= j < |blocks| ensures !NewAfter(blocks, k, s, j) {
        if NewAfter(blocks, k, s, j) {
          CutBeforeNewObjectFails(blocks, k, s, cut, j);
          assert false;
        }
      }
    }
  }
}
