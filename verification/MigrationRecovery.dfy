/**
 * The boot-time recovery of an interrupted local migration: the ledger, a deploy
 * that can be killed at any statement or before its ledger write, the doctor,
 * and the bounded retry loop.
 */
module MigrationRecovery {
  import opened Prelude
  import opened MigrationPlan
  import opened MigrationVerdict

  datatype Migration = Migration(name: string, blocks: seq<Block>)

  /** A ledger row: started, and finished or not. */
  datatype Row = Row(name: string, finished: bool)

  /** Why `migrate deploy` refused: P3009 lists failed rows, P3018 names the migration it choked on. */
  datatype Failure = Stuck(names: seq<string>) | Rejected(name: string, alreadyExists: bool)
  datatype Deployed = Clean | Failed(failure: Failure) | Killed
  datatype Outcome = Migrated | Aborted | Crashed

  /**
   * What the world decides in one boot: the drift gate's answer, whether
   * `migrate resolve` succeeds, and where the process dies: after a number of deploy
   * steps, or while the doctor or the retry loop is at its rows, their write made or not.
   */
  datatype World = World(gate: bool, doctorResolves: bool, loopResolves: bool, kill: Option<nat>, dieInDoctor: bool,
    dieInLoop: bool)

  predicate Lives(world: World) {
    world.kill.None? && !world.dieInDoctor && !world.dieInLoop
  }

  const MAX_AUTO_RESOLVE_RETRIES := 10

  // ------------------------------------------------------------- histories

  function AllBlocks(history: seq<Migration>): seq<Block> {
    if history == [] then [] else AllBlocks(history[..|history| - 1]) + history[|history| - 1].blocks
  }

  /** The schema after the first `k` statements of an uninterrupted run. */
  function At(blocks: seq<Block>, k: nat, start: Schema): Option<Schema>
    requires k <= |blocks|
  {
    ExecAll(Flatten(blocks[..k]), start)
  }

  predicate IsAddition(b: Block) {
    b.NewTable? || b.NewColumn? || b.NewIndex?
  }

  /** The object block `b` adds is not in the schema yet. */
  predicate Absent(b: Block, s: Schema) {
    match b
    case NewTable(t, _, _) => t !in s.tables
    case NewColumn(t, c) => !(t in s.tables && c in s.tables[t])
    case NewIndex(x, _, _) => x !in s.indexes
    case _ => false
  }

  /** Only ADD COLUMN, CREATE TABLE and CREATE INDEX, each on a new name, and all of it runs. */
  ghost predicate Additive(blocks: seq<Block>, start: Schema) {
    && (forall k {:trigger IsAddition(blocks[k])} :: 0 <= k < |blocks| ==> IsAddition(blocks[k]))
    && (forall k {:trigger At(blocks, k, start)} :: 0 <= k <= |blocks| ==> At(blocks, k, start).Some?)
    && (forall k {:trigger At(blocks, k, start)} :: 0 <= k < |blocks| ==> Absent(blocks[k], At(blocks, k, start).value))
  }

  ghost predicate DistinctNames(history: seq<Migration>) {
    forall i, j :: 0 <= i < j < |history| ==> history[i].name != history[j].name
  }

  lemma {:induction false} AllBlocksSplit(history: seq<Migration>, d: nat, c: nat)
    requires d < |history| && c <= |history[d].blocks|
    ensures |AllBlocks(history[..d])| + c <= |AllBlocks(history)|
    ensures AllBlocks(history)[..|AllBlocks(history[..d])| + c] == AllBlocks(history[..d]) + history[d].blocks[..c]
  {
    var n := |history| - 1;
    if d < n {
      AllBlocksSplit(history[..n], d, c);
      assert history[..n][..d] == history[..d];
    }
  }

  lemma Assoc<T>(x: seq<T>, y: seq<T>, z: seq<T>)
    ensures x + (y + z) == (x + y) + z
  {
  }

  lemma FlattenConcatStep(a: seq<Block>, init: seq<Block>, last: Block)
    requires Flatten(a + init) == Flatten(a) + Flatten(init)
    ensures Flatten(a + (init + [last])) == Flatten(a) + Flatten(init + [last])
  {
    calc {
      Flatten(a + (init + [last]));
      { Assoc(a, init, [last]); }
      Flatten((a + init) + [last]);
      { FlattenLast((a + init) + [last]); }
      (Flatten(a) + Flatten(init)) + Lower(last);
      { Assoc(Flatten(a), Flatten(init), Lower(last)); }
      Flatten(a) + (Flatten(init) + Lower(last));
      { FlattenLast(init + [last]); }
      Flatten(a) + Flatten(init + [last]);
    }
  }

  lemma FlattenNothing(a: seq<Block>)
    ensures Flatten(a + []) == Flatten(a) + Flatten([])
  {
    assert a + [] == a;
  }

  lemma {:induction false} FlattenConcat(a: seq<Block>, b: seq<Block>)
    ensures Flatten(a + b) == Flatten(a) + Flatten(b)
  {
    hide Flatten;
    if b == [] {
      FlattenNothing(a);
    } else {
      var init, last := b[..|b| - 1], b[|b| - 1];
      assert b == init + [last];
      FlattenConcat(a, init);
      FlattenConcatStep(a, init, last);
    }
  }

  lemma {:induction false} AdditionsAreSingle(blocks: seq<Block>)
    requires forall k :: 0 <= k < |blocks| ==> IsAddition(blocks[k])
    ensures |Flatten(blocks)| == |blocks|
    ensures forall k :: 0 <= k < |blocks| ==> Flatten(blocks)[k] == Lower(blocks[k])[0]
  {
    if blocks != [] {
      var n := |blocks| - 1;
      AdditionsAreSingle(blocks[..n]);
    }
  }

  // --------------------------------------------- the check on these runs

  lemma AdditionsWellOrdered(blocks: seq<Block>)
    requires forall k :: 0 <= k < |blocks| ==> IsAddition(blocks[k])
    ensures WellOrdered(blocks)
  {
  }

  lemma Slice(blocks: seq<Block>, from: nat, to: nat, k: nat, start: Schema)
    requires from <= to <= |blocks| && k <= to - from && At(blocks, from, start).Some?
    ensures At(blocks[from..to], k, At(blocks, from, start).value) == At(blocks, from + k, start)
  {
    assert blocks[from..to][..k] == blocks[from..from + k];
    assert blocks[..from + k] == blocks[..from] + blocks[from..from + k];
    FlattenConcat(blocks[..from], blocks[from..from + k]);
    ExecAllConcat(Flatten(blocks[..from]), Flatten(blocks[from..from + k]), start);
  }

  lemma AdditiveSlice(blocks: seq<Block>, from: nat, to: nat, start: Schema)
    requires Additive(blocks, start) && from <= to <= |blocks|
    ensures Additive(blocks[from..to], At(blocks, from, start).value)
  {
    forall k | 0 <= k <= to - from
      ensures At(blocks[from..to], k, At(blocks, from, start).value) == At(blocks, from + k, start)
    {
      Slice(blocks, from, to, k, start);
    }
  }

  lemma AbsentNotPresent(blocks: seq<Block>, k: nat, s: Schema)
    requires k < |blocks| && Absent(blocks[k], s)
    requires forall j :: 0 <= j < |blocks| ==> IsAddition(blocks[j])
    ensures !Present(blocks, blocks[k], s)
  {
    if blocks[k].NewIndex? {
      assert Kept(blocks, blocks[k].index);
    }
  }

  /** The check finds a migration applied exactly when all of its statements ran. */
  lemma CheckIsExact(blocks: seq<Block>, k: nat, start: Schema)
    requires Additive(blocks, start) && Sound(start) && k <= |blocks|
    ensures PlanOf(Flatten(blocks)).Some?
    ensures FullyApplied(Some(Flatten(blocks)), At(blocks, k, start).value) <==>
            k == |blocks| && SafeNames(PlanOf(Flatten(blocks)).value)
  {
    AdditionsWellOrdered(blocks);
    Plannable(blocks);
    var s := At(blocks, k, start).value;
    if k < |blocks| {
      AbsentNotPresent(blocks, k, s);
      if FullyApplied(Some(Flatten(blocks)), s) {
        PassesPresent(blocks, s, k);
        assert false;
      }
    } else {
      assert blocks[..k] == blocks;
      CompleteRunPasses(blocks, start, s);
    }
  }

  // ------------------------------------------------------------ the ledger

  function Finished(history: seq<Migration>): seq<Row> {
    seq(|history|, i requires 0 <= i < |history| => Row(history[i].name, true))
  }

  function StuckNames(ledger: seq<Row>): seq<string> {
    if ledger == [] then []
    else StuckNames(ledger[..|ledger| - 1])
         + if ledger[|ledger| - 1].finished then [] else [ledger[|ledger| - 1].name]
  }

  /** Names `parseRecoverableFailure` finds worth verifying. */
  function Recoverable(f: Failure): Option<seq<string>> {
    match f
    case Rejected(name, alreadyExists) => if alreadyExists then Some([name]) else None
    case Stuck(names) => if names == [] then None else Some(names)
  }

  /** A ledger with the rows of a name finished. */
  function Marked(ledger: seq<Row>, name: string): seq<Row> {
    seq(|ledger|, j requires 0 <= j < |ledger| => if ledger[j].name == name then Row(name, true) else ledger[j])
  }

  /** Marking the started migration makes one more finished row. */
  lemma MarkedFinishes(history: seq<Migration>, d: nat)
    requires DistinctNames(history) && d < |history|
    ensures Marked(Finished(history[..d]) + [Row(history[d].name, false)], history[d].name)
      == Finished(history[..d + 1])
  {
  }

  lemma {:induction false} NothingStuck(history: seq<Migration>)
    ensures StuckNames(Finished(history)) == []
  {
    if history != [] {
      var n := |history| - 1;
      NothingStuck(history[..n]);
      assert Finished(history)[..n] == Finished(history[..n]);
    }
  }

  lemma OneStuck(history: seq<Migration>, name: string)
    ensures StuckNames(Finished(history) + [Row(name, false)]) == [name]
  {
    NothingStuck(history);
    assert (Finished(history) + [Row(name, false)])[..|history|] == Finished(history);
  }

  /** SQLite's two wordings the recovery accepts: duplicate column, already exists. */
  predicate AlreadyExists(stmt: Stmt, s: Schema) {
    match stmt
    case AddColumn(t, c) => t in s.tables && c in s.tables[t]
    case CreateTable(t, _, _) => t in s.tables
    case CreateIndex(x, _, _) => x in s.indexes
    case _ => false
  }

  /** The object an addition makes is there already. */
  predicate IsThere(stmt: Stmt, s: Schema) {
    || (stmt.AddColumn? && stmt.table in s.tables && stmt.column in s.tables[stmt.table])
    || (stmt.CreateTable? && stmt.name in s.tables)
    || (stmt.CreateIndex? && stmt.index in s.indexes)
  }

  /** Nothing but the object itself can stand in the way of an addition. */
  predicate Fits(stmt: Stmt, s: Schema) {
    match stmt
    case AddColumn(t, _) => t in s.tables
    case CreateTable(t, _, guarded) => t !in s.indexes && !guarded
    case CreateIndex(x, on, guarded) => on in s.tables && x !in s.tables && !guarded
    case _ => false
  }

  /** Such an addition is rejected exactly if its object is there, and then the recovery takes the failure up. */
  lemma RejectedIff(stmt: Stmt, s: Schema, name: string)
    requires Fits(stmt, s)
    ensures Exec(stmt, s) == None <==> IsThere(stmt, s)
    ensures Recoverable(Rejected(name, AlreadyExists(stmt, s))) == if IsThere(stmt, s) then Some([name]) else None
  {
  }

  /** The migration file of a ledger name, if the history has one. */
  function FileOf(history: seq<Migration>, name: string): Option<seq<Stmt>> {
    if history == [] then None
    else if history[|history| - 1].name == name then Some(Flatten(history[|history| - 1].blocks))
    else FileOf(history[..|history| - 1], name)
  }

  lemma {:induction false} FileFound(history: seq<Migration>, d: nat)
    requires DistinctNames(history) && d < |history|
    ensures FileOf(history, history[d].name) == Some(Flatten(history[d].blocks))
  {
    var n := |history| - 1;
    if d < n {
      FileFound(history[..n], d);
    }
  }

  // --------------------------------------------- facts about one history

  /** A history whose uninterrupted run from `start` adds one new object a statement. */
  ghost predicate Runnable(history: seq<Migration>, start: Schema) {
    DistinctNames(history) && Sound(start) && Additive(AllBlocks(history), start)
  }

  predicate SafeMigration(m: Migration) {
    PlanOf(Flatten(m.blocks)).Some? && SafeNames(PlanOf(Flatten(m.blocks)).value)
  }

  /** The position of statement `c` of migration `d` in the whole history. */
  ghost function Position(history: seq<Migration>, d: nat, c: nat): nat
    requires d <= |history|
  {
    |AllBlocks(history[..d])| + c
  }

  lemma SliceOfPrefix<T>(all: seq<T>, a: seq<T>, b: seq<T>)
    requires |a| + |b| <= |all| && all[..|a| + |b|] == a + b
    ensures all[|a|..|a| + |b|] == b
  {
    assert all[|a|..|a| + |b|] == all[..|a| + |b|][|a|..];
  }

  lemma NextPosition(history: seq<Migration>, d: nat)
    requires d < |history|
    ensures Position(history, d, |history[d].blocks|) == Position(history, d + 1, 0)
  {
    assert history[..d + 1][..d] == history[..d];
  }

  lemma MigrationIsSlice(history: seq<Migration>, d: nat)
    requires d < |history|
    ensures Position(history, d, |history[d].blocks|) <= |AllBlocks(history)|
    ensures AllBlocks(history)[Position(history, d, 0)..Position(history, d, |history[d].blocks|)] == history[d].blocks
    ensures Position(history, d, |history[d].blocks|) == Position(history, d + 1, 0)
  {
    var mine, before, all := history[d].blocks, AllBlocks(history[..d]), AllBlocks(history);
    NextPosition(history, d);
    assert |before| + |mine| <= |all| && all[..|before| + |mine|] == before + mine by {
      AllBlocksSplit(history, d, |mine|);
      assert mine[..|mine|] == mine;
    }
    SliceOfPrefix(all, before, mine);
  }

  lemma BlocksAreAdditions(history: seq<Migration>, start: Schema, d: nat)
    requires Runnable(history, start) && d < |history|
    ensures forall k :: 0 <= k < |history[d].blocks| ==> IsAddition(history[d].blocks[k])
  {
    var all, from := AllBlocks(history), Position(history, d, 0);
    MigrationIsSlice(history, d);
    forall k | 0 <= k < |history[d].blocks| ensures IsAddition(history[d].blocks[k]) {
      assert all[from..from + |history[d].blocks|][k] == all[from + k];
    }
  }

  lemma BlockAt(history: seq<Migration>, d: nat, c: nat)
    requires d < |history| && c < |history[d].blocks|
    ensures Position(history, d, c) < |AllBlocks(history)|
    ensures AllBlocks(history)[Position(history, d, c)] == history[d].blocks[c]
  {
    var from := Position(history, d, 0);
    MigrationIsSlice(history, d);
    assert AllBlocks(history)[from..from + |history[d].blocks|][c] == AllBlocks(history)[from + c];
  }

  lemma StatementAt(blocks: seq<Block>, p: nat, start: Schema)
    requires Additive(blocks, start) && p < |blocks|
    ensures At(blocks, p, start).Some? && At(blocks, p + 1, start).Some?
    ensures Exec(Lower(blocks[p])[0], At(blocks, p, start).value) == At(blocks, p + 1, start)
  {
    assert At(blocks, p + 1, start).Some? && IsAddition(blocks[p]);
    PrefixRan(blocks, p, start);
    SingleEffect(blocks[p], At(blocks, p, start).value);
  }

  lemma PositionNext(history: seq<Migration>, d: nat, c: nat)
    requires d <= |history|
    ensures Position(history, d, c + 1) == Position(history, d, c) + 1
  {
  }

  lemma RunsThrough(history: seq<Migration>, start: Schema)
    requires Runnable(history, start)
    ensures Additive(AllBlocks(history), start)
  {
  }

  /** Statement `c` of migration `d` runs, and takes the schema one position on. */
  lemma NextStatement(history: seq<Migration>, start: Schema, d: nat, c: nat)
    requires Runnable(history, start) && d < |history| && c < |history[d].blocks|
    ensures |Flatten(history[d].blocks)| == |history[d].blocks|
    ensures Position(history, d, c) < |AllBlocks(history)|
    ensures At(AllBlocks(history), Position(history, d, c), start).Some?
    ensures Exec(Flatten(history[d].blocks)[c], At(AllBlocks(history), Position(history, d, c), start).value)
            == At(AllBlocks(history), Position(history, d, c + 1), start)
  {
    hide *;
    var all, p := AllBlocks(history), Position(history, d, c);
    PositionNext(history, d, c);
    RunsThrough(history, start);
    BlocksAreAdditions(history, start, d);
    BlockAt(history, d, c);
    AdditionsAreSingle(history[d].blocks);
    StatementAt(all, p, start);
  }

  lemma AdditiveAt(blocks: seq<Block>, k: nat, start: Schema)
    requires Additive(blocks, start) && k <= |blocks|
    ensures At(blocks, k, start).Some? && At(blocks, k, start) == ExecAll(Flatten(blocks[..k]), start)
  {
  }

  lemma SlicedRun(blocks: seq<Block>, mine: seq<Block>, from: nat, c: nat, start: Schema) returns (own: Schema)
    requires Additive(blocks, start) && Sound(start) && c <= |mine|
    requires from + |mine| <= |blocks| && blocks[from..from + |mine|] == mine
    ensures At(blocks, from, start) == Some(own) && Sound(own) && Additive(mine, own)
    ensures At(mine, c, own) == At(blocks, from + c, start)
  {
    hide *;
    AdditiveAt(blocks, from, start);
    own := At(blocks, from, start).value;
    AdditiveSlice(blocks, from, from + |mine|, start);
    Slice(blocks, from, from + |mine|, c, start);
    SoundAfter(blocks, from, start, own);
  }

  lemma {:induction false} PositionGrows(history: seq<Migration>, i: nat, d: nat)
    requires i < d <= |history|
    ensures Position(history, i, |history[i].blocks|) <= Position(history, d, 0)
  {
    NextPosition(history, d - 1);
    if i < d - 1 {
      PositionGrows(history, i, d - 1);
    }
  }

  /** One migration of a runnable history, on its own. */
  lemma OneMigration(history: seq<Migration>, start: Schema, d: nat, c: nat) returns (own: Schema)
    requires Runnable(history, start) && d < |history| && c <= |history[d].blocks|
    ensures Position(history, d, c) <= |AllBlocks(history)|
    ensures Sound(own) && Additive(history[d].blocks, own)
    ensures At(history[d].blocks, c, own) == At(AllBlocks(history), Position(history, d, c), start)
  {
    hide At, Additive, Sound, AllBlocks;
    MigrationIsSlice(history, d);
    own := SlicedRun(AllBlocks(history), history[d].blocks, Position(history, d, 0), c, start);
  }

  /** The check on a started migration tells exactly whether all its statements ran. */
  lemma StuckVerdict(history: seq<Migration>, start: Schema, d: nat, c: nat)
    requires Runnable(history, start) && d < |history| && c <= |history[d].blocks|
    ensures FileOf(history, history[d].name) == Some(Flatten(history[d].blocks))
    ensures Position(history, d, c) <= |AllBlocks(history)|
    ensures At(AllBlocks(history), Position(history, d, c), start).Some?
    ensures FullyApplied(FileOf(history, history[d].name), At(AllBlocks(history), Position(history, d, c), start).value)
            <==> c == |history[d].blocks| && SafeMigration(history[d])
  {
    FileFound(history, d);
    var own := OneMigration(history, start, d, c);
    CheckIsExact(history[d].blocks, c, own);
  }

  lemma FinishedIn(history: seq<Migration>, d: nat, i: nat)
    requires DistinctNames(history) && d <= |history| && i < |history|
    ensures Row(history[i].name, true) in Finished(history[..d]) <==> i < d
  {
    if i < d {
      assert Finished(history[..d])[i] == Row(history[i].name, true);
    }
  }

  /** A rebuild that has not begun is accepted by the check, if its names are safe. */
  lemma SkippedRebuildPasses(m: Migration, t: string, columns: set<string>, s: Schema)
    requires m.blocks == [Rebuild(t, columns)]
    requires Sound(s) && t in s.tables && Temp(t) !in s.tables
    ensures FullyApplied(Some(Flatten(m.blocks)), s) <==> SafeMigration(m)
  {
    assert WellOrdered(m.blocks) by { TempIsOther(t); }
    UnstartedRebuildPasses(m.blocks, s);
  }

  lemma TempIsOther(t: string)
    ensures Temp(t) != t
  {
    assert |Temp(t)| == |t| + 4;
  }

  /** Running it, where it changes the columns, does not give the schema it was skipped on. */
  lemma RebuildWouldShow(m: Migration, t: string, columns: set<string>, s: Schema)
    requires m.blocks == [Rebuild(t, columns)]
    requires Sound(s) && t in s.tables && columns != s.tables[t]
    ensures ExecAll(Flatten(m.blocks), s) != Some(s)
  {
    FlattenLast(m.blocks);
    assert m.blocks[..0] == [] && Flatten(m.blocks) == Lower(Rebuild(t, columns));
    hide Lower, Flatten;
    assert ExecAll(Lower(Rebuild(t, columns)), s) == Some(s) ==> s.tables == s.tables[t := columns] by {
      if ExecAll(Lower(Rebuild(t, columns)), s) == Some(s) { RebuildEffect(t, columns, s, s); }
    }
    assert s.tables[t := columns][t] == columns;
  }

  /** One deploy step taken. */
  function Spend(kill: Option<nat>): Option<nat>
    requires kill != Some(0)
  {
    if kill.Some? then Some(kill.value - 1) else None
  }

  class LocalDatabase {
    var schema: Schema
    var ledger: seq<Row>

    /** How far the history got: `done` finished migrations and, once one is started, its executed statements. */
    ghost var done: nat
    ghost var cut: Option<nat>

    ghost predicate Progress(history: seq<Migration>)
      reads this
    {
      && done <= |history|
      && (cut.Some? ==> done < |history| && cut.value <= |history[done].blocks|)
    }

    /** Statements executed so far, counted over the whole history. */
    ghost function Executed(history: seq<Migration>): nat
      reads this
      requires Progress(history)
    {
      Position(history, done, if cut.Some? then cut.value else 0)
    }

    /** Finished rows are a prefix of the history and at most the next migration is started, whatever the schema is. */
    ghost predicate Shaped(history: seq<Migration>)
      reads this
    {
      && DistinctNames(history)
      && done <= |history| && (cut.Some? ==> done < |history|)
      && ledger == Finished(history[..done]) + (if cut.Some? then [Row(history[done].name, false)] else [])
    }

    /** Nothing is pending behind the migrations that are finished or started. */
    ghost predicate NothingPending(history: seq<Migration>)
      reads this
    {
      done + (if cut.Some? then 1 else 0) == |history|
    }

    /**
     * What a boot is asked of: a history of additions in a consistent state, or any history at
     * all of which nothing is pending, at most the last migration being stuck.
     */
    ghost predicate Bootable(history: seq<Migration>, start: Schema, additions: bool)
      reads this
    {
      && Shaped(history)
      && if additions then Runnable(history, start) && Consistent(history, start) else NothingPending(history)
    }

    /** The check on the started migration, against the schema as it is. */
    ghost predicate StuckPasses(history: seq<Migration>)
      reads this
      requires cut.Some? && done < |history|
    {
      FullyApplied(Some(Flatten(history[done].blocks)), schema)
    }

    /**
     * Finished rows are a prefix of the history, at most the next migration is
     * started, and the schema is the uninterrupted run's after the statements
     * executed so far.
     */
    ghost predicate Consistent(history: seq<Migration>, start: Schema)
      reads this
    {
      && Progress(history)
      && ledger == Finished(history[..done]) + (if cut.Some? then [Row(history[done].name, false)] else [])
      && Executed(history) <= |AllBlocks(history)|
      && At(AllBlocks(history), Executed(history), start) == Some(schema)
    }

    /** Every migration is finished and the schema is the uninterrupted run's. */
    ghost predicate Complete(history: seq<Migration>, start: Schema)
      reads this
    {
      && ledger == Finished(history)
      && ExecAll(Flatten(AllBlocks(history)), start) == Some(schema)
    }

    lemma DoneIsComplete(history: seq<Migration>, start: Schema)
      requires Consistent(history, start) && done == |history|
      ensures Complete(history, start)
    {
      assert history[..done] == history;
      assert AllBlocks(history)[..|AllBlocks(history)|] == AllBlocks(history);
    }

    lemma StuckRow(history: seq<Migration>)
      requires Shaped(history)
      ensures StuckNames(ledger) == if cut.Some? then [history[done].name] else []
    {
      if cut.Some? {
        OneStuck(history[..done], history[done].name);
      } else {
        NothingStuck(history[..done]);
        assert ledger == Finished(history[..done]);
      }
    }

    /** A fresh local database: an empty ledger beside whatever schema it starts from. */
    constructor (start: Schema)
      ensures schema == start && ledger == [] && done == 0 && cut == None
    {
      schema := start;
      ledger := [];
      done, cut := 0, None;
    }

    /** `started_at` is written. */
    method StartRow(history: seq<Migration>, ghost start: Schema, i: nat)
      requires Consistent(history, start) && i < |history| && done == i && cut.None?
      modifies this
      ensures Consistent(history, start) && done == i && cut == Some(0) && schema == old(schema)
    {
      ledger := ledger + [Row(history[i].name, false)];
      cut := Some(0);
    }

    /** `finished_at` is written, after the last statement. */
    method FinishRow(history: seq<Migration>, ghost start: Schema, i: nat)
      requires Consistent(history, start) && i < |history| && done == i && cut == Some(|history[i].blocks|)
      modifies this
      ensures Consistent(history, start) && done == i + 1 && cut.None? && schema == old(schema)
    {
      MigrationIsSlice(history, i);
      assert history[..i + 1] == history[..i] + [history[i]];
      ledger := ledger[|ledger| - 1 := Row(history[i].name, true)];
      done, cut := done + 1, None;
      assert ledger == Finished(history[..i + 1]);
    }

    method RunStatement(history: seq<Migration>, ghost start: Schema, i: nat, k: nat, name: string, stmt: Stmt)
      returns (r: Deployed)
      requires Runnable(history, start) && Consistent(history, start)
      requires i < |history| && done == i && cut == Some(k) && k < |history[i].blocks|
      requires |Flatten(history[i].blocks)| == |history[i].blocks| && stmt == Flatten(history[i].blocks)[k]
      modifies this
      ensures r == Clean && Consistent(history, start) && done == i && cut == Some(k + 1)
    {
      NextStatement(history, start, i, k);
      match Exec(stmt, schema) {
        case None => return Failed(Rejected(name, AlreadyExists(stmt, schema)));
        case Some(next) => schema := next;
      }
      cut := Some(k + 1);
      r := Clean;
    }

    /** One pending migration: ledger row, statements, `finished_at`; the process may die before any of them. */
    method RunMigration(history: seq<Migration>, ghost start: Schema, i: nat, kill: Option<nat>)
      returns (r: Deployed, left: Option<nat>)
      requires Runnable(history, start) && Consistent(history, start)
      requires i < |history| && done == i && cut.None?
      modifies this
      ensures Consistent(history, start) && done >= old(done)
      ensures r == Clean || (r == Killed && kill.Some?)
      ensures r == Clean ==> done == i + 1 && cut.None? && left.None? == kill.None?
    {
      left := kill;
      if left == Some(0) {
        return Killed, left;
      }
      left := Spend(left);
      StartRow(history, start, i);
      BlocksAreAdditions(history, start, i);
      AdditionsAreSingle(history[i].blocks);
      var stmts := Flatten(history[i].blocks);
      for k := 0 to |stmts|
        invariant done == i && cut == Some(k)
        invariant Consistent(history, start)
        invariant left.None? == kill.None?
      {
        if left == Some(0) {
          return Killed, left;
        }
        left := Spend(left);
        r := RunStatement(history, start, i, k, history[i].name, stmts[k]);
        if r != Clean {
          return;
        }
      }
      if left == Some(0) {
        return Killed, left;
      }
      FinishRow(history, start, i);
      r := Clean;
    }

    /**
     * `migrate deploy`: refuses while a failed row stands, otherwise runs the
     * migrations the ledger does not have, in order.
     */
    method Deploy(history: seq<Migration>, ghost start: Schema, kill: Option<nat>, ghost additions: bool)
      returns (r: Deployed)
      requires Bootable(history, start, additions)
      modifies this
      ensures Bootable(history, start, additions) && done >= old(done)
      ensures old(cut).Some? ==> r == Failed(Stuck([history[old(done)].name])) && unchanged(this)
      ensures old(cut).None? ==> r == Clean || (r == Killed && kill.Some?)
      ensures old(cut).None? && !additions ==> r == Clean && unchanged(this)
      ensures r == Clean ==> done == |history| && cut.None?
    {
      var stuck := StuckNames(ledger);
      StuckRow(history);
      if stuck != [] {
        return Failed(Stuck(stuck));
      }
      r := RunPending(history, start, kill, additions);
    }

    method RunPending(history: seq<Migration>, ghost start: Schema, kill: Option<nat>, ghost additions: bool)
      returns (r: Deployed)
      requires Bootable(history, start, additions) && cut.None?
      modifies this
      ensures Bootable(history, start, additions) && done >= old(done)
      ensures r == Clean || (r == Killed && kill.Some?)
      ensures !additions ==> r == Clean && unchanged(this)
      ensures r == Clean ==> done == |history| && cut.None?
    {
      var left := kill;
      for i := 0 to |history|
        invariant Bootable(history, start, additions) && cut.None? && i <= done && done >= old(done)
        invariant left.None? == kill.None?
        invariant !additions ==> unchanged(this)
      {
        r, left := RunIfPending(history, start, i, left, additions);
        if r != Clean {
          return;
        }
      }
      r := Clean;
    }

    /** Skip a migration whose row is finished, run any other. */
    method RunIfPending(history: seq<Migration>, ghost start: Schema, i: nat, kill: Option<nat>, ghost additions: bool)
      returns (r: Deployed, left: Option<nat>)
      requires Bootable(history, start, additions)
      requires cut.None? && i < |history| && i <= done
      modifies this
      ensures Bootable(history, start, additions) && done >= old(done)
      ensures r == Clean || (r == Killed && kill.Some?)
      ensures !additions ==> r == Clean && unchanged(this)
      ensures r == Clean ==> i < done && cut.None? && left.None? == kill.None?
    {
      assert ledger == Finished(history[..done]);
      FinishedIn(history, done, i);
      if Row(history[i].name, true) in ledger {
        return Clean, kill;
      }
      r, left := RunMigration(history, start, i, kill);
    }

    /** `resolve --applied`: the rows of that name are finished, whatever they were; nothing else changes. */
    method MarkApplied(name: string)
      modifies this`ledger
      ensures ledger == Marked(old(ledger), name)
    {
      var marked: seq<Row> := [];
      for j := 0 to |ledger|
        invariant marked == Marked(ledger[..j], name)
      {
        marked := marked + [if ledger[j].name == name then Row(name, true) else ledger[j]];
      }
      assert ledger[..|ledger|] == ledger;
      ledger := marked;
    }

    /** One name the recovery is asked about: verify it against the live schema, then mark it. */
    method VerifyAndMark(history: seq<Migration>, ghost start: Schema, name: string, resolves: bool,
        ghost additions: bool)
      returns (ok: bool)
      requires Bootable(history, start, additions)
      requires cut.Some? && name == history[done].name
      modifies this
      ensures Bootable(history, start, additions)
      ensures ok == (resolves && old(StuckPasses(history)))
      ensures additions ==> ok == (resolves && old(WholeAndSafe(history)))
      ensures ok ==> done == old(done) + 1 && cut.None? && schema == old(schema)
      ensures !ok ==> unchanged(this)
    {
      FileFound(history, done);
      if additions {
        StuckVerdict(history, start, done, cut.value);
      }
      if !FullyApplied(FileOf(history, name), schema) {
        return false;
      }
      if !resolves {
        return false;
      }
      MarkedFinishes(history, done);
      if additions {
        MigrationIsSlice(history, done);
      }
      MarkApplied(name);
      done, cut := done + 1, None;
      ok := true;
    }

    /** Every statement of the started migration ran, and its names are safe. */
    ghost predicate WholeAndSafe(history: seq<Migration>)
      reads this
      requires cut.Some? && done < |history|
    {
      cut.value == |history[done].blocks| && SafeMigration(history[done])
    }

    /** Phase 2: with the drift gate open, verify and mark every unfinished row. */
    method Doctor(history: seq<Migration>, ghost start: Schema, world: World, ghost additions: bool)
      requires Bootable(history, start, additions)
      modifies this
      ensures Bootable(history, start, additions) && schema == old(schema)
      ensures var heals := old(cut).Some? && world.gate && world.doctorResolves && old(StuckPasses(history));
              if heals then done == old(done) + 1 && cut.None? else unchanged(this)
      ensures additions && old(cut).Some? ==> (old(StuckPasses(history)) <==> old(WholeAndSafe(history)))
    {
      var stuck := StuckNames(ledger);
      StuckRow(history);
      if additions && cut.Some? {
        FileFound(history, done);
        StuckVerdict(history, start, done, cut.value);
      }
      if stuck == [] || !world.gate {
        return;
      }
      assert stuck == [history[done].name];
      for j := 0 to |stuck|
        invariant Bootable(history, start, additions) && schema == old(schema)
        invariant j == 0 ==> unchanged(this)
        invariant j == 1 ==>
          if world.doctorResolves && old(StuckPasses(history)) then done == old(done) + 1 && cut.None?
          else unchanged(this)
      {
        var marked := VerifyAndMark(history, start, stuck[j], world.doctorResolves, additions);
      }
    }

    /**
     * One boot. Over additions it never finishes a row whose objects are missing, it ends in
     * the uninterrupted run's schema or does not end well, and left alone it ends
     * well exactly when no started migration is missing a statement. Over any history of
     * which nothing is pending it leaves the schema alone, and left alone it ends well
     * exactly when the check accepts the stuck migration, run or not.
     */
    method Migrate(history: seq<Migration>, ghost start: Schema, world: World, ghost additions: bool)
      returns (outcome: Outcome)
      requires Bootable(history, start, additions)
      modifies this
      ensures Bootable(history, start, additions) && done >= old(done)
      ensures outcome == Migrated ==> done == |history| && cut.None?
      ensures additions && outcome == Migrated ==> Complete(history, start)
      ensures !additions ==> schema == old(schema)
      ensures Lives(world) && world.loopResolves ==>
        (outcome == Migrated <==> (old(cut).Some? ==> old(StuckPasses(history))))
      ensures additions && Lives(world) && world.loopResolves ==>
        (forall i :: 0 <= i < |history| ==> SafeMigration(history[i])) ==>
        (outcome == Migrated <==> (old(cut).Some? ==> old(cut).value == |history[old(done)].blocks|))
      ensures outcome == Crashed ==> !Lives(world)
    {
      Doctor(history, start, world, additions);
      if world.dieInDoctor {
        return Crashed;
      }
      for attempt := 0 to MAX_AUTO_RESOLVE_RETRIES + 1
        invariant Bootable(history, start, additions) && done >= old(done)
        invariant !additions ==> schema == old(schema)
        invariant attempt <= 1
        invariant attempt == 1 ==> cut.None? && (old(cut).Some? ==> old(StuckPasses(history)))
        invariant attempt == 0 ==>
          (unchanged(this) || (cut.None? && (old(cut).Some? ==> old(StuckPasses(history)))))
      {
        var r := Deploy(history, start, world.kill, additions);
        if r == Killed {
          return Crashed;
        }
        if r == Clean {
          if additions {
            DoneIsComplete(history, start);
          }
          return Migrated;
        }
        var names := Recoverable(r.failure);
        if names.None? || attempt == MAX_AUTO_RESOLVE_RETRIES {
          return Aborted;
        }
        assert names.value == [history[done].name];
        for j := 0 to |names.value|
          invariant Bootable(history, start, additions) && done >= old(done)
          invariant !additions ==> schema == old(schema)
          invariant j == 0 ==> unchanged(this) && cut.Some? && names.value == [history[done].name]
          invariant j == 1 ==> cut.None? && (old(cut).Some? ==> old(StuckPasses(history)))
        {
          var ok := VerifyAndMark(history, start, names.value[j], world.loopResolves, additions);
          if world.dieInLoop {
            return Crashed;
          }
          if !ok {
            return Aborted;
          }
        }
      }
    }

    /**
     * A database killed before the first statement of its last migration, which rebuilds one
     * table: a boot left alone finishes the row, and neither that boot nor a later one runs the
     * rebuild, so a schema in which it would change a column stays as it was.
     */
    method BootSkipsRebuild(history: seq<Migration>, ghost start: Schema, t: string, columns: set<string>, world: World)
      returns (outcome: Outcome)
      requires Bootable(history, start, false) && cut.Some? && history[done].blocks == [Rebuild(t, columns)]
      requires Sound(schema) && t in schema.tables && Temp(t) !in schema.tables && SafeMigration(history[done])
      requires Lives(world) && world.loopResolves
      modifies this
      ensures outcome == Migrated && ledger == Finished(history) && schema == old(schema)
      ensures columns != schema.tables[t] ==> ExecAll(Flatten(history[old(done)].blocks), schema) != Some(schema)
    {
      SkippedRebuildPasses(history[done], t, columns, schema);
      if columns != schema.tables[t] {
        RebuildWouldShow(history[done], t, columns, schema);
      }
      outcome := Migrate(history, start, world, false);
      assert history[..|history|] == history;
    }

    /** No ledger row is finished while an object of its migration is missing. */
    lemma FinishedIsThere(history: seq<Migration>, start: Schema, i: nat, k: nat)
      requires Runnable(history, start) && Consistent(history, start)
      requires i < done && k < |history[i].blocks|
      ensures Present(history[i].blocks, history[i].blocks[k], schema)
    {
      var all, p := AllBlocks(history), Position(history, i, k);
      BlockAt(history, i, k);
      PositionGrows(history, i, done);
      MigrationIsSlice(history, i);
      forall j | 0 <= j < |all| ensures IsAddition(all[j]) {
      }
      AdditionsWellOrdered(all);
      RunMakes(all, Executed(history), start, schema);
      assert Present(all, all[p], schema);
      if all[p].NewIndex? {
        assert Kept(all, all[p].index) by {
          forall j | 0 <= j < |all| ensures !all[j].OldIndex? {
            assert IsAddition(all[j]);
          }
        }
      }
    }

    /** Boot after boot, whatever each one meets: a database that got through once stays complete. */
    method Boots(history: seq<Migration>, ghost start: Schema, worlds: seq<World>) returns (outcomes: seq<Outcome>)
      requires Runnable(history, start) && Consistent(history, start)
      modifies this
      ensures Consistent(history, start) && |outcomes| == |worlds|
      ensures Migrated in outcomes ==> Complete(history, start)
    {
      outcomes := [];
      for j := 0 to |worlds|
        invariant Consistent(history, start) && |outcomes| == j
        invariant Migrated in outcomes ==> done == |history|
      {
        var outcome := Migrate(history, start, worlds[j], true);
        outcomes := outcomes + [outcome];
      }
      if Migrated in outcomes {
        DoneIsComplete(history, start);
      }
    }
  }
}
