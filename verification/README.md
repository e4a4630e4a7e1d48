# Verified models of the repository's tooling

This project models the parts of the repository's tooling whose correctness is not obvious
from reading one function, and proves what they promise: the test-shard scheduler and its
worker pool, the recovery of an interrupted local migration, the guard over SQL migrations
with its hand-written lexers, the ownership rule of the two database regions, the merging and
scrubbing of coverage files, the re-keying of model ids, the replay of signup features, the
ordering of beta versions, the timers of the thinking widget, and the CSV line parser.

`dafny verify dfyconfig.toml` checks everything.

## How to read it

Code that works by changing things is imperative here too: an array filled in place
(`SelectShard`, `MaskComments`), a class whose fields the source updates (`LocalDatabase`,
`Migration`, `Widget`), or a loop with its invariants (`StatementSpans`, `ParseLcov`,
`ParseCsvLine`). Each such method is proved equal to a specification that is stated without
it, usually a recursive reference or a count over sets, and the promises are then proved
about that specification. Concurrency is a step relation: `WorkerPool` and `TwoRegions`
quantify over every interleaving, `MigrationRecovery` over every crash point of every boot,
and `ReKey` over every write a run can be killed before.

Things the programs meet but do not decide are parameters: file sizes, exit codes, the drift
gate, the moment of a crash, generated UUIDs, path normalisation, the tables a regular
expression names.

| file | what it models |
|---|---|
| `ShardSchedule.dfy` | heaviest-first scheduling of test files over shards |
| `WorkerPool.dfy` | the cursor-claiming pool and the serial retry |
| `MigrationPlan.dfy`, `MigrationVerdict.dfy`, `MigrationRecovery.dfy` | what a migration produces, whether it ran, and the boot-time repair of the ledger |
| `TwoRegions.dfy` | two regions exchanging change logs |
| `SqlLexer.dfy`, `SqlStatements.dfy`, `SqlSplit.dfy` | comment masking, statement spans, top-level splitting |
| `SqlTree.dfy`, `SqlExprTree.dfy` | migrations and expressions printed from trees, and what the lexers make of them |
| `SqlExtract.dfy`, `SqlLists.dfy`, `SqlExtractExact.dfy`, `SqlUpdateFrom.dfy` | the expression a statement writes to `id` |
| `SqlCte.dfy` | the row write behind a WITH clause |
| `MigrationGuard.dfy`, `DoBlocks.dfy` | the scan over all migrations, DO bodies included, and its exemption ledger |
| `TextFields.dfy`, `Lcov.dfy`, `LcovPrint.dfy`, `LcovPipeline.dfy`, `LcovAlgebra.dfy`, `LcovConcat.dfy`, `LcovSums.dfy` | parsing, merging and printing coverage, and where its numbers come from |
| `SourceLines.dfy`, `LcovScrub.dfy`, `LcovScrubMerge.dfy`, `LcovStrip.dfy`, `LcovReport.dfy`, `LcovTotals.dfy` | scrubbing comment lines out of coverage, and the totals reported |
| `ReKey.dfy` | switching model ids from slugs to UUIDs |
| `SignupReplay.dfy` | signup features, incrementally and by counting |
| `BetaVersion.dfy` | beta versions under section 11 of SemVer 2.0.0 |
| `ThinkingWidget.dfy` | the merged widget's open and close timers |
| `CsvLine.dfy` | the CSV line parser and the printer of section 2 of RFC 4180 |
| `Prelude.dfy`, `Strings.dfy` | options, sorting by a strict total order, set sizes; whitespace, prefixes, trimming, string order |

## Where the code does not do what one would expect

Each of these is kept as the code has it, shown by a concrete input or an exact condition.

- The check whether a migration already ran compares sets of objects, so a table rebuild that
  never started looks finished (`UnstartedRebuildPasses`). `VerdictBetweenBlocks` says exactly
  when a run cut between statements passes. A boot then finishes the row of a rebuild that did
  not run, and no later boot runs it (`LocalDatabase.BootSkipsRebuild`).
- A boot that was killed part way through a migration is never repaired by later boots: left
  alone, a boot ends well if and only if no started migration is missing a statement
  (`LocalDatabase.Migrate`).
- The check on intentionally regional tables accepts a model that still has a unique key
  without the region column (`CheckAdmitsUnseparatedKey`), though the comment at the head of
  the script takes it as proof that the schema keeps the regions' rows apart. Only the
  separate registry of unique keys, which is kept by hand, can notice.
- Merging coverage is associative except when a record whose function line is not a number
  stands between an unnumbered one and a numbered one (`MergeGroupsIff`), and the total of
  functions found shrinks in exactly one situation (`FunctionsFoundGrowIff`). The test name is
  printed before the source file and is therefore never read back (`PrintReadsBack`).
- A re-keying run that is killed and started again does not finish the global rewrites: the
  second run plans only the rows still keyed by a slug, so slugs of rows already re-keyed stay
  in the visible list and in the usage events (`SecondRunForgets`). `RestartCleanIff` gives the
  exact condition under which a restart ends clean.
- The extractor of a written `id` cuts a projection at the first FROM outside parentheses, also
  at the one of `IS DISTINCT FROM`: in `SELECT a IS DISTINCT FROM b, md5(c)` the derived id is
  not seen (`DistinctFromHidesId`). `ExtractionExact` says exactly when the right expression is
  extracted; a SET list is cut at WHERE and RETURNING.
- The scan behind a WITH clause stops at the first word it takes for a row write, so a
  definition named `update` or `truncate` is mistaken for one (`NamedUpdateHides`);
  `CtesSkippedIff` says that nothing else is. It looks only outside parentheses, so a row write
  inside a definition passes the guard unseen: `WITH d AS (DELETE FROM users RETURNING id)
  SELECT 1` (`DeleteInCteUnseen`).
- The list of an `UPDATE … SET … FROM …` is not cut at its FROM: the expression assigned last
  comes back with the list of tables behind it, and a bare column copied there no longer looks
  like one (`UpdateFromExact`, `CopiedColumnHidden`).
- Merging coverage does not commute: of a shared file the test name and the function lines
  first seen stay. `MergeSwapsIff` gives the exact records for which the order is harmless;
  the counts never depend on it (`CountsIgnoreOrder`).
- A coverage file cut off inside a record and followed by one that begins with rows instead of
  `SF:` counts those rows for the open record (`TruncatedFileCounts`). `ConcatCounts` says
  exactly when two files set end to end count right: when the first one is closed, or each such
  row adds nothing to the record it falls to.
- The scrubber reports the totals a record states before and those its rows add up to after, so
  the reported line ratio can fall for a record that states a hit it has no row for
  (`MisstatedFalls`); `RatioKeptIff` gives the exact bound.
- A complete migration run is refused if it made an object whose name is not shaped like an
  identifier, such as `user-data` (`OddNameRefused`).
- The home filter is exclusive only while the replicas of the home column agree:
  `ReplicasHaltIff` says exactly when a stale replica makes a halt reachable.
- The final view of a signup forgets accounts created at the very same instant, so a signup
  count can exceed its final count; `SignupBelowFinalIff` says exactly when.
- Read lexically, a new beta stamp comes after an all-digit one exactly if it is not of an
  earlier day (`LegacyOrder`), so "always" in the script's comment needs that condition.

## Model

| member | source | states |
|---|---|---|
| ShardSchedule.SelectShard | scripts/run-tests-isolated.ts:421-447 | the array-filling loop returns the asked-for bucket of the heaviest-first schedule, in code-unit order; without a shard, all files as discovered |
| ShardSchedule.ShardsWithinGraham | scripts/run-tests-isolated.ts:421-447 | for every file list and m, in bytes (an unreadable file counting 1): against any assignment of the same files to m shards that keeps each within t bytes, the files of each shard hold L bytes with 3mL <= (4m-1)t |
| ShardSchedule.LastBigItemFits | scripts/run-tests-isolated.ts:437-445 | a file of more than a third of the rival's bound placed on the lightest shard still fits that bound |
| ShardSchedule.ShardsPartition | scripts/run-tests-isolated.ts:421-447 | the shards together hold every file exactly as often as it was found, and each bucket's weight is the bytes of its files |
| ShardSchedule.ShardsAgree | scripts/run-tests-isolated.ts:421-447 | machines that list the files in any other order compute identical shards |
| ShardSchedule.ShardsBalanced | scripts/run-tests-isolated.ts:421-447 | two shards differ by at most the bytes of the largest file, and m times the bytes of one are at most the bytes of all files plus (m-1) times the largest |
| WorkerPool.PoolSafety | scripts/run-tests-isolated.ts:325-353 | in every interleaving running and finished files are exactly the claimed prefix, there are min(`concurrency`, files) workers and no more files run at a time, and a run has a bounded number of steps |
| WorkerPool.ResultsAreRuns | scripts/run-tests-isolated.ts:325-353 | in every interleaving the results are, in the order of finishing, one for each finished run: the file its worker had claimed last, with the exit code that run came back with |
| WorkerPool.FailureIsSeen | scripts/run-tests-isolated.ts:341-348 | some result is red if and only if some run came back red |
| WorkerPool.PoolCompletes | scripts/run-tests-isolated.ts:325-353 | a run that can go no further has ended every worker and holds exactly one result per file |
| WorkerPool.StepBurnsFuel | scripts/run-tests-isolated.ts:325-353 | every step of the pool lowers the same measure, so every schedule ends |
| WorkerPool.ClaimKeepsInv | scripts/run-tests-isolated.ts:336-341 | a claim of the cursor, running off the end included, keeps each file claimed once |
| WorkerPool.FinishKeepsInv | scripts/run-tests-isolated.ts:341-348 | a finished file moves from in flight to the results and nothing else does |
| WorkerPool.RetryFailed | scripts/run-tests-isolated.ts:557-581 | up to five failed files are rerun and their results replaced in place; every position keeps its file, passed results are untouched, more than five failures change nothing |
| MigrationPlan.PlanMigrationObjects | scripts/dev-all.ts:507-584 | the statement loop collects exactly the columns, tables, absent temporaries and indexes of the plan, or nothing if a statement is not recognised or a drop has no rename to its name |
| MigrationPlan.PlannableIff | scripts/dev-all.ts:556-584 | there is a plan if and only if every statement is recognised and every dropped table is the target of a rename |
| MigrationPlan.FailsClosed | scripts/dev-all.ts:610-623 | without the file, or with a statement that cannot be verified, the check never passes |
| MigrationPlan.UndoneBack | scripts/dev-all.ts:507-584 | on a schema whose indexes belong to its tables, dropping a table or index just created, and renaming a table back, restores it; so the statements mean what the plan takes them to mean |
| MigrationPlan.GuardedTwice | scripts/dev-all.ts:507-584 | a guarded statement that was accepted changes nothing when it comes again |
| MigrationPlan.NeedsTable | scripts/dev-all.ts:507-584 | no column, index, name or row is given to a table that is not there |
| MigrationVerdict.CompleteRunPasses | scripts/dev-all.ts:507-701 | for well-ordered migrations, the check accepts a complete run if and only if every name in the plan is shaped like an identifier |
| MigrationVerdict.OddNameRefused | scripts/dev-all.ts:625-646 | a complete run creating `user-data` is refused |
| MigrationVerdict.NewTableAcceptedIff | scripts/dev-all.ts:625-687 | a complete run that creates a table is accepted if and only if its name is a letter or underscore followed by letters, digits and underscores |
| MigrationVerdict.NewColumnAcceptedIff | scripts/dev-all.ts:625-687 | likewise for a column added to a table |
| MigrationVerdict.DataIff | scripts/dev-all.ts:545-556 | a migration is reported as holding data statements if and only if some block writes rows; the copy of a rebuild is none |
| MigrationVerdict.RunKeepsSound | scripts/dev-all.ts:507-584 | no accepted run of statements leaves an index without its table |
| MigrationVerdict.CutInsideRebuildFails | scripts/dev-all.ts:643-664 | a run cut inside a rebuild always fails it |
| MigrationVerdict.CutBeforeNewObjectFails | scripts/dev-all.ts:643-687 | a run cut before a statement making a new table, column or index always fails it |
| MigrationVerdict.VerdictBetweenBlocks | scripts/dev-all.ts:560-584 | cut between blocks, the objects found missing are none if and only if those of every block still to come are already there, and then the check accepts exactly the identifier-shaped names |
| MigrationVerdict.PassingCut | scripts/dev-all.ts:598-701 | a passing check proves that no rebuild is half done and no block still to come makes anything new |
| MigrationVerdict.UnstartedRebuildPasses | scripts/dev-all.ts:570-575 | a migration that only rebuilds existing tables is accepted before its first statement has run, exactly if its names are shaped like identifiers |
| MigrationVerdict.RunMakes | scripts/dev-all.ts:507-584 | after any number of blocks, the objects each of them made and no later one removes are present |
| MigrationRecovery.CheckIsExact | scripts/dev-all.ts:598-701 | for migrations of additions with new names, the check passes on a cut run if and only if nothing is missing |
| MigrationRecovery.RejectedIff | scripts/dev-all.ts:434-446 | an addition to a schema it otherwise fits is rejected if and only if its object is there, and exactly then the failure is taken up for verification |
| MigrationRecovery.LocalDatabase.RunMigration | scripts/dev-all.ts:359-367 | one migration, killed before any statement or before its ledger row is finished, keeps ledger and schema consistent |
| MigrationRecovery.LocalDatabase.MarkApplied | scripts/dev-all.ts:703-726 | marking finishes the rows of the given name, whichever name it is, and leaves every other row and the schema alone |
| MigrationRecovery.LocalDatabase.Doctor | scripts/dev-all.ts:775-799 | the doctor finishes the stuck row exactly if the gate is open, the resolve works and the check passes, and otherwise changes nothing |
| MigrationRecovery.LocalDatabase.Migrate | scripts/dev-all.ts:806-862 | one boot, killed anywhere in doctor, deploy or loop: over histories of additions, from any consistent state, it keeps consistency, ends well only in the schema of an uninterrupted run, and left alone ends well if and only if no started migration is missing a statement; over any history, rebuilds included, of which nothing is pending it leaves the schema alone, and left alone ends well if and only if the check accepts the stuck migration |
| MigrationRecovery.LocalDatabase.BootSkipsRebuild | scripts/dev-all.ts:775-862 | a boot after a kill before the first statement of a rebuild finishes its row and ends well with the schema as it was, where the rebuild would have changed it |
| MigrationRecovery.SkippedRebuildPasses | scripts/dev-all.ts:570-701 | the check accepts a migration that rebuilds one table, before it has begun, exactly if its names are shaped like identifiers |
| MigrationRecovery.LocalDatabase.Boots | scripts/dev-all.ts:806-862 | over any sequence of boots a database that got through once stays complete |
| MigrationRecovery.LocalDatabase.FinishedIsThere | scripts/dev-all.ts:775-862 | no ledger row is finished while an object of its migration is missing |
| TwoRegions.HomeFilterOwnsOnce | scripts/repair-usage-wallets.ts:263-266 | with one home map, the home filter gives each workspace's keys to exactly one region: its home, or the primary if it has none |
| TwoRegions.ReplicasOwnOnceIff | scripts/repair-usage-wallets.ts:263-266 | with each region reading its own, changing replica, ownership is exclusive if and only if no workspace is ever the primary's by the one and the secondary's by the other |
| TwoRegions.ReplicasHaltIff | scripts/repair-usage-wallets.ts:263-266 | a halted worker is reachable if and only if the replicas do disagree that way |
| TwoRegions.RegionColumnOwnsOnce | scripts/check-multiregion-cron-locks.ts:1507-1549 | if each region writes only rows whose region column names it, a key holding that column has one writer |
| TwoRegions.NoPoisonPill | scripts/check-multiregion-cron-locks.ts:11-20 | if every key is owned by at most one region, no interleaving of upserts and applies halts an apply worker |
| TwoRegions.DrainedRegionsAgree | scripts/check-multiregion-cron-locks.ts:11-20 | once both logs drain, the two tables are equal |
| TwoRegions.HaltsIffShared | scripts/check-multiregion-cron-locks.ts:11-20 | a halted worker is reachable if and only if some key may be written by both regions |
| TwoRegions.UpsertKeeps | scripts/check-multiregion-cron-locks.ts:11-20 | an upsert by an owner keeps both tables replayable into each other |
| TwoRegions.ApplyKeeps | scripts/check-multiregion-cron-locks.ts:11-20 | so does applying the oldest change of the peer's log |
| TwoRegions.SeparatesIffInKey | scripts/check-multiregion-cron-locks.ts:1507-1549 | a unique key keeps the rows of two regions apart if and only if the region column is one of its columns |
| TwoRegions.SchemaOkIff | scripts/check-multiregion-cron-locks.ts:1507-1549 | a model passes if and only if the region column is one of its fields and at least one of its unique keys keeps the regions apart |
| TwoRegions.CheckAdmitsUnseparatedKey | scripts/check-multiregion-cron-locks.ts:1540-1540 | a model can pass the schema check and still hold a unique key on which two regions collide |
| SqlLexer.MaskComments | scripts/check-migration-derived-ids.ts:174-229 | the in-place masking loop equals masking token by token |
| SqlLexer.MaskOnlyBlanks | scripts/check-migration-derived-ids.ts:174-229 | masking keeps the length and every newline and changes characters only to spaces |
| SqlLexer.MaskIdempotent | scripts/check-migration-derived-ids.ts:174-229 | masking a masked text changes nothing |
| SqlLexer.MaskIsTokenwise | scripts/check-migration-derived-ids.ts:174-229 | the tokens rejoin to the text and only comment tokens differ in the mask |
| SqlTree.MaskReadsBack | scripts/check-migration-derived-ids.ts:174-229 | masking a migration printed from trees of characters, quoted texts, dollar bodies, comments and nested parentheses gives the same print with its comments blanked, and nothing else changed |
| SqlTree.OpenComment | scripts/check-migration-derived-ids.ts:174-229 | a block comment left open is blanked to the end |
| SqlStatements.StatementSpans | scripts/check-migration-derived-ids.ts:237-301 | the mode-flag loop finds exactly the spans of the recursive reference on the masked text |
| SqlTree.StatementsReadBack | scripts/check-migration-derived-ids.ts:174-301 | any list of statements printed from such trees, none with a loose semicolon, joined by semicolons and masked, is cut into exactly that list again |
| SqlTree.SpansReadBack | scripts/check-migration-derived-ids.ts:237-301 | and the spans found are its statements that are not blank, trimmed at the front, at their offsets |
| SqlTree.OpenQuote | scripts/check-migration-derived-ids.ts:174-301 | a quote left open is neither masked nor cut to the end of the text |
| SqlTree.OpenBody | scripts/check-migration-derived-ids.ts:174-301 | behind a dollar tag that is not closed comments are still masked, but nothing is cut |
| SqlStatements.CutsAtFirstTopLevel | scripts/check-migration-derived-ids.ts:237-301 | a cut is at a semicolon outside quotes, dollar bodies and parentheses, and at the first such one |
| SqlStatements.StatementsRejoin | scripts/check-migration-derived-ids.ts:237-301 | the statements joined by semicolons are the text |
| SqlStatements.SpansLeaveOnlyBlanks | scripts/check-migration-derived-ids.ts:237-301 | every character outside the spans is whitespace or a semicolon |
| SqlStatements.PartIsStretch | scripts/check-migration-derived-ids.ts:237-301 | a span's text is the stretch of the source at its offset and starts with no whitespace |
| SqlSplit.SplitAtCommas | scripts/check-migration-derived-ids.ts:304-349 | the index-jumping splitter agrees with the character-by-character reference |
| SqlSplit.SplitRejoins | scripts/check-migration-derived-ids.ts:304-349 | joining the parts rebuilds the text up to a blank last part |
| SqlSplit.SplitOfJoined | scripts/check-migration-derived-ids.ts:304-349 | any list of self-contained parts whose last is not blank comes back unchanged |
| SqlExprTree.TreesSplit | scripts/check-migration-derived-ids.ts:304-349 | expressions printed from trees of characters, quoted texts and nested parentheses, joined by commas, are split into exactly these expressions |
| SqlExprTree.TreeIsWell | scripts/check-migration-derived-ids.ts:304-349 | every such expression without outer whitespace is one the extraction theorems speak of |
| SqlSplit.ExtractBalanced | scripts/check-migration-derived-ids.ts:486-515 | the body ends at the first parenthesis that closes the opening one outside quotes |
| SqlSplit.StripTrailingClauses | scripts/check-migration-derived-ids.ts:453-483 | the SET list ends at the whitespace before the first top-level WHERE or RETURNING |
| SqlSplit.SelectListOf | scripts/check-migration-derived-ids.ts:518-548 | the projection ends at the first top-level FROM |
| SqlExtract.ExtractWrittenId | scripts/check-migration-derived-ids.ts:405-446 | the imperative extractor agrees with its specification on every statement head |
| SqlExtract.OtherwiseNothing | scripts/check-migration-derived-ids.ts:405-446 | behind the column list only VALUES, or SELECT before whitespace, is read; of other text nothing comes |
| SqlExtractExact.ExtractionExact | scripts/check-migration-derived-ids.ts:405-548 | from any printed INSERT VALUES, INSERT SELECT or UPDATE SET of well-formed expressions, exactly the expression assigned to `id` is extracted (nothing if there is none) if and only if no loose FROM, or for SET no loose WHERE or RETURNING, begins in an expression up to it |
| SqlExtractExact.EarlierFromHidesId | scripts/check-migration-derived-ids.ts:518-548 | a loose FROM in an expression before the one of `id` hides the write altogether |
| SqlExtractExact.DistinctFromHidesId | scripts/check-migration-derived-ids.ts:518-548 | `SELECT a IS DISTINCT FROM b, md5(c)` into (flag, id): the derived id is not seen, for any table and source |
| SqlExtractExact.FromBehindIff | scripts/check-migration-derived-ids.ts:518-548 | a FROM outside parentheses ends the projection if and only if whitespace or a closing parenthesis stands before it |
| SqlExtractExact.ReturningEnds | scripts/check-migration-derived-ids.ts:453-483 | a RETURNING ends a SET list just as a WHERE does |
| SqlUpdateFrom.UpdateFromExact | scripts/check-migration-derived-ids.ts:448-483 | from a printed `UPDATE … SET … FROM …` the expression assigned to `id` is extracted if and only if it is not the last one and no WHERE or RETURNING stands loose up to its end; assigned last, it comes back with the tables behind it |
| SqlUpdateFrom.CopiedColumnHidden | scripts/check-migration-derived-ids.ts:385-394 | a bare column copied last into `id` is then not read as a bare column |
| SqlLists.BalancedBody | scripts/check-migration-derived-ids.ts:486-515 | a self-contained text between parentheses is extracted whole |
| SqlCte.StripWithClause | scripts/check-migration-derived-ids.ts:571-608 | the scanning loop cuts at the first DML keyword at the top level, outside quotes and longer words |
| SqlCte.RowWriteWords | scripts/check-migration-derived-ids.ts:604-604 | each of the four row writes is taken for one, whatever follows it |
| SqlCte.CtesSkippedIff | scripts/check-migration-derived-ids.ts:565-608 | behind any WITH clause of closed definitions the statement's own row write is found if and only if no definition bears the bare name UPDATE or TRUNCATE; definitions with quoted names, column lists and MATERIALIZED hints included |
| SqlCte.NamedUpdateHides | scripts/check-migration-derived-ids.ts:571-608 | behind `WITH update AS (SELECT 1)` no row write is read as written |
| SqlCte.InnerWritesUnseen | scripts/check-migration-derived-ids.ts:571-608 | behind closed definitions none of which reads as a row write, a main statement with no row write of its own leaves the text uncut, whatever the definitions write |
| SqlCte.DeleteInCteUnseen | scripts/check-migration-derived-ids.ts:571-608 | the DELETE inside `WITH d AS (DELETE FROM users RETURNING id) SELECT 1` is not reached |
| MigrationGuard.DollarBody | scripts/check-migration-derived-ids.ts:625-633 | the body of a DO block is strictly shorter than its statement (what it is, `DoBlocks.BodyReadsBack` says) |
| DoBlocks.BodyReadsBack | scripts/check-migration-derived-ids.ts:625-633 | for any leading blanks, any spelling of DO, any `$word$`, body and text behind: the body of the printed block comes back if and only if the tag does not occur before its end |
| DoBlocks.BlockWritesFound | scripts/check-migration-derived-ids.ts:625-675 | in any printed migration with such a block among its statements, each row write of the body is found, on the line counted from the start of the migration |
| MigrationGuard.CollectDml | scripts/check-migration-derived-ids.ts:661-675 | the recursive scan returns the row writes of the specification in order, inside DO bodies too, and terminates |
| MigrationGuard.LineCountsNewlines | scripts/check-migration-derived-ids.ts:677-681 | the line of an offset is one more than the newlines before it |
| MigrationGuard.RowWritesStand | scripts/check-migration-derived-ids.ts:661-675 | a row write is found if and only if it stands at some place of the migration, a statement of it or, to any depth, of the body of a DO block in it, on the line counted through the blocks |
| MigrationGuard.WrittenIds | scripts/check-migration-derived-ids.ts:747-763 | the scan loop returns the id writes of the source's statements in order |
| MigrationGuard.IdWritesStand | scripts/check-migration-derived-ids.ts:747-763 | an id write is found if and only if some statement of the migration assigns it |
| MigrationGuard.CheckMigrationSources | scripts/check-migration-derived-ids.ts:687-734 | the report is each migration's row writes and then its derived ids, in order; a violation is in it if and only if some source raises it |
| MigrationGuard.CheckLegacyExemptions | scripts/check-migration-derived-ids.ts:778-823 | the problems reported are exactly those of the entries, in order |
| MigrationGuard.NoProblemsIffHonest | scripts/check-migration-derived-ids.ts:778-823 | no problem is reported if and only if every entry excuses a real offender repaired by a strictly later migration |
| MigrationGuard.ReasonIff | scripts/check-migration-derived-ids.ts:778-823 | each of the five problems is reported of an entry if and only if its own cause is there |
| MigrationGuard.KeyNamesPair | scripts/check-migration-derived-ids.ts:118-118 | the joined key of a migration and a table names one pair |
| MigrationGuard.SilentIffAcceptable | scripts/check-migration-derived-ids.ts:687-734 | a source raises nothing if and only if its derived ids are all exempt and, from the epoch on, the scan finds no published row write in it |
| MigrationGuard.SuppressionIsReported | scripts/check-migration-derived-ids.ts:700-731 | a derived id the ledger does not excuse has a violation in its file on its line, if only that of a row write there |
| MigrationGuard.GuardSound | scripts/check-migration-derived-ids.ts:661-823 | if both checks return nothing, every derived id write is followed by a strictly later migration writing non-derived ids to that table, and no row write the scan finds from the epoch on, in DO bodies too, is into a published table |
| TextFields.ShowReads | scripts/merge-lcov.ts:144-149 | a printed number, NaN included, reads back as itself |
| TextFields.NumberIff | scripts/merge-lcov.ts:139-149 | a text is no number if and only if it has a character that is no digit, and an empty one counts as 0 |
| Lcov.ParseLcov | scripts/merge-lcov.ts:103-176 | the line loop equals the fold of one line's effect on the open record |
| Lcov.MergeShards | scripts/merge-lcov.ts:638-684 | the nested merge loops, in any iteration order, fold the parsed files with the merge of records |
| LcovSums.ShardsAddUp | scripts/merge-lcov.ts:625-684 | nothing is lost or counted twice: after merging any printed shards, the hits of a line, a function or a branch of a source are the sum of what all rows of all records of all shards whose path names that source state of it |
| LcovSums.FileAddsUp | scripts/merge-lcov.ts:103-176 | the same of one file, whose records may repeat a source and whose rows may repeat a place |
| LcovSums.FirstNameStays | scripts/merge-lcov.ts:650-662 | the test name of a merged source is that of the first shard that has the source |
| Lcov.AddFns | scripts/merge-lcov.ts:663-671 | merging function tables adds hits and replaces only a line recorded as 0 by a positive one |
| LcovPrint.PrintReadsBack | scripts/merge-lcov.ts:103-224 | parsing the printed text of printable records, in any printing order, gives back every table, the function lines with unnumbered ones as 0, the printed totals and no test name |
| LcovPrint.FieldsAbsorb | scripts/merge-lcov.ts:103-176 | printed rows are absorbed one by one into the open record |
| LcovPrint.BranchIff | scripts/merge-lcov.ts:160-170 | a branch row is read if and only if it has at least four parts: three make the key, the fourth the count or a dash |
| LcovPrint.ChecksumIgnored | scripts/merge-lcov.ts:144-149 | what follows the count of a line row is ignored |
| LcovPrint.SpacesIgnored | scripts/merge-lcov.ts:106-108 | blanks and carriage returns around a line are ignored |
| LcovPipeline.PrintRecord | scripts/merge-lcov.ts:178-222 | the pushing and counting loops print exactly the lines of the record |
| LcovSums.LinePrintedIff | scripts/merge-lcov.ts:184-186 | a function has a row with a line number if and only if its line is known and positive |
| LcovSums.NeverTaken | scripts/merge-lcov.ts:205-209 | a branch is printed with a dash if and only if it was never taken, else with its count |
| LcovPipeline.EmitLcov | scripts/merge-lcov.ts:178-224 | the whole output is the records' lines joined |
| LcovPipeline.ParsedPrints | scripts/merge-lcov.ts:103-176 | whatever a file holds, the parsed names are trimmed and every branch key has three parts |
| LcovPipeline.PipelineReadsBack | scripts/merge-lcov.ts:625-684 | for any shard files, reading the printed merge gives back the merged line, function and branch tables |
| LcovAlgebra.FirstSeenGroups | scripts/merge-lcov.ts:663-671 | the exact triples of lines on which grouping matters |
| LcovAlgebra.MergeGroupsIff | scripts/merge-lcov.ts:650-684 | merging is associative if and only if no non-numeric line stands between an unnumbered and a numbered one |
| LcovAlgebra.CountsIgnoreOrder | scripts/merge-lcov.ts:638-684 | no hit count and no total depends on the order of the shards |
| LcovAlgebra.MergeSwapsIff | scripts/merge-lcov.ts:650-684 | two shards merge alike in either order if and only if on shared files the test names are equal and each shared function's lines are equal or one of two known lines is 0 |
| LcovAlgebra.LinesDependOnOrder | scripts/merge-lcov.ts:663-671 | a witness that function lines depend on the order of two shards |
| LcovAlgebra.LinesOnlyGrow | scripts/merge-lcov.ts:334-342 | merging loses no line and no hit and finds none that neither side had |
| LcovAlgebra.FunctionsFoundGrowIff | scripts/merge-lcov.ts:339-348 | the functions found of a file do not shrink under a merge, except exactly when one side has only totals and the other a shorter table |
| LcovConcat.ConcatCounts | scripts/merge-lcov.ts:103-176 | for any two files, set end to end they count exactly what merging their parses counts if and only if the first ends closed, or no row before the second one's first `SF:` or `end_of_record` adds anything (an entry, a hit, a higher stated total) to the merged record of the file left open |
| LcovConcat.ConcatCountsIff | scripts/merge-lcov.ts:103-176 | whatever follows such a beginning: every file with it counts right behind a given first file if and only if that is closed or no row of the beginning adds anything to the record it left open |
| LcovConcat.AbsorbKeepsIff | scripts/merge-lcov.ts:137-171 | absorbing a row leaves every count of a record as it was if and only if the row adds nothing: a line known with no hit, a known or unreadable branch with none, a known function with none, a total not above the stated one |
| LcovConcat.TruncatedFileCounts | scripts/merge-lcov.ts:106-137 | `SF:x` followed by a file beginning with `DA:1,1` does not |
| LcovConcat.AbsorbAfterMerge | scripts/merge-lcov.ts:137-171 | a row absorbed after a merge counts as the row absorbed before it |
| SourceLines.ClassifySource | scripts/coverage-strip-comments.ts:45-80 | a line is executable if and only if something but whitespace is left on it when the comments are taken out in one pass over the whole text, a block comment running over lines, a line comment and a quote ending with theirs |
| SourceLines.ScanLine | scripts/coverage-strip-comments.ts:49-78 | one line of it: given whether a block comment is open, whether code stands on it and whether one is open at its end |
| SourceLines.OneScan | scripts/coverage-strip-comments.ts:45-80 | line by line with that flag carried over, or in one pass over the whole text, the same is left of it |
| SourceLines.BlockCommentHidden | scripts/coverage-strip-comments.ts:45-80 | of a block comment nothing is left but its newlines, so no line wholly inside one is executable |
| LcovScrub.RewriteBlock | scripts/coverage-strip-comments.ts:114-163 | the filtering loop equals the specification, and the number scrubbed is the line rows lost |
| LcovScrub.RewriteIdempotent | scripts/coverage-strip-comments.ts:114-163 | scrubbing a scrubbed block changes nothing |
| LcovScrub.HitRowsKept | scripts/coverage-strip-comments.ts:138-145 | a row with hits is dropped if and only if it is a branch row of a line to scrub |
| LcovScrub.RatioNeverFalls | scripts/coverage-strip-comments.ts:133-161 | counted over the rows, the lines hit stay, the lines found cannot grow, the hit ratio cannot fall |
| LcovScrubMerge.ScrubCommutes | scripts/coverage-strip-comments.ts:114-163 | scrubbing a merge is merging the scrubbed shards, for any list of shards |
| LcovScrubMerge.ScrubbedReads | scripts/coverage-strip-comments.ts:114-163 | scrubbing a printed record and reading it gives the scrubbed tables of reading it unscrubbed |
| LcovScrubMerge.RowsCommute | scripts/coverage-strip-comments.ts:133-157 | dropping rows and then reading them is reading them and then dropping table entries |
| LcovScrubMerge.ScrubKeepsHits | scripts/coverage-strip-comments.ts:138-145 | a scrubbed table keeps every hit line and every count |
| LcovStrip.StripCommentLines | scripts/coverage-strip-comments.ts:165-184 | the loop over the records returns the stripped file and the totals before and after, as specified piece by piece |
| LcovStrip.StripsUpToEnd | scripts/coverage-strip-comments.ts:165-184 | text up to an `end_of_record` is a record, rewritten and closed again, if `SF:` occurs in it, and is else kept unless it is blank; what follows is stripped by itself |
| LcovStrip.StripsToTheEnd | scripts/coverage-strip-comments.ts:165-184 | likewise the text behind the last one |
| LcovStrip.StrippedFileParses | scripts/coverage-strip-comments.ts:165-184 | parsing a stripped file of readable rows gives exactly the scrubbed tables of parsing it unstripped, repeated paths included |
| LcovStrip.StripReads | scripts/coverage-strip-comments.ts:165-184 | the same behind whatever was read before |
| LcovReport.NewTotals | scripts/coverage-strip-comments.ts:133-163 | the totals reported for a rewritten record are exactly those its rows add up to |
| LcovReport.ReportNeverFalls | scripts/coverage-strip-comments.ts:100-184 | over a file whose records state their own totals right, the report keeps files, functions and lines hit, finds no more lines or branches, and its line ratio cannot fall |
| LcovReport.RatioKeptIff | scripts/coverage-strip-comments.ts:114-163 | for any record whose source can be read, the reported line ratio falls for no content of that source if and only if the ratio the record states is at most that of its rows |
| LcovReport.MisstatedFalls | scripts/coverage-strip-comments.ts:114-163 | with one unhit line and `LH:1` stated, the reported ratio falls |
| LcovReport.PrintedHonest | scripts/merge-lcov.ts:178-222 | a record printed by the merger states exactly the totals its rows add up to |
| LcovReport.PrintedReportNeverFalls | scripts/coverage-strip-comments.ts:100-184 | so the report on the merger's output never worsens, whatever the sources say |
| LcovTotals.PrintedReportCounts | scripts/coverage-strip-comments.ts:100-184 | the report on the merger's output counts each source once, and as lines, functions and branches found and hit the entries and the hit entries of the merged tables, or the shards' own function totals where there is no function table |
| ReKey.StoppedRunKeepsMeaning | scripts/migrate-model-ids-to-uuid.ts:92-132 | wherever a run stops, every stored reference and every old id or alias still means the same model, the rows loading in one order |
| ReKey.StoppedRunKeepsChoices | scripts/migrate-model-ids-to-uuid.ts:92-132 | and in whatever orders the rows load before and after, the rows it can mean are exactly those it could mean |
| ReKey.AnyLoadOrder | apps/api/src/services/model-registry.service.ts:351-411 | under every load order a reference means one of the rows it can mean, or nothing if there is none |
| ReKey.SomeLoadOrder | apps/api/src/services/model-registry.service.ts:349-411 | and each row it can mean is what it means under some load order |
| ReKey.FreshResolves | scripts/migrate-model-ids-to-uuid.ts:121-126 | a generated id means the row it was generated for |
| ReKey.UuidOf | scripts/migrate-model-ids-to-uuid.ts:52-53 | five groups of 8, 4, 4, 4 and 12 hexadecimal digits joined by dashes are a UUID |
| ReKey.UuidParts | scripts/migrate-model-ids-to-uuid.ts:52-53 | and every UUID is five such groups |
| ReKey.FullRunLeavesNoSlug | scripts/migrate-model-ids-to-uuid.ts:225-262 | after a full run no column, visible id or usage event holds a slug and every row is keyed by a UUID |
| ReKey.SecondRunIdle | scripts/migrate-model-ids-to-uuid.ts:225-231 | a second run after a full one plans and changes nothing |
| ReKey.SecondRunForgets | scripts/migrate-model-ids-to-uuid.ts:225-231 | a restarted run leaves the slugs re-keyed before the stop exactly where the first run had left them |
| ReKey.KilledRunForgets | scripts/migrate-model-ids-to-uuid.ts:225-262 | a run killed right behind its last row transaction and restarted leaves every slug of the visible list and the usage events there for good |
| ReKey.RestartCleanIff | scripts/migrate-model-ids-to-uuid.ts:225-262 | a restarted run ends clean if and only if the first had already rewritten its own slugs everywhere |
| ReKey.PlanFits | scripts/migrate-model-ids-to-uuid.ts:79-88 | the plan swaps each slug-keyed row once, to the id generated for it |
| ReKey.Migration.ApplySwap | scripts/migrate-model-ids-to-uuid.ts:92-126 | one transaction rewrites every column, keeps the slug as an alias and changes the id |
| ReKey.AliasOnce | scripts/migrate-model-ids-to-uuid.ts:122-127 | afterwards the old slug and every alias there was are there exactly once, and no other |
| ReKey.Migration.MigrateVisible | scripts/migrate-model-ids-to-uuid.ts:137-167 | the visible list is rewritten id by id, and written only if something changed |
| ReKey.Migration.MigrateUsage | scripts/migrate-model-ids-to-uuid.ts:174-223 | the batched cursor scan terminates, visits every row exactly once in order, and renames exactly the re-keyed models |
| ReKey.Migration.Run | scripts/migrate-model-ids-to-uuid.ts:225-262 | a run killed before any write is in one of the described states, one killed after exactly the row transactions is in the state with nothing else rewritten, a run not killed finishes, a dry run writes nothing |
| SignupReplay.ScoreAll | scripts/backfill-signup-risk.ts:82-136 | the one-pass scorer gives every row, for both views, the plain counts over all rows: accounts of one mailbox, and accounts of its address within the window and within the burst |
| SignupReplay.ShareKeyIff | scripts/backfill-signup-risk.ts:68-72 | two addresses share a key if and only if their first four colon-separated groups agree; one without a colon is its own key |
| SignupReplay.NoLookAhead | scripts/backfill-signup-risk.ts:100-118 | what a row scores at signup is decided by the rows up to it |
| SignupReplay.ViewsBalance | scripts/backfill-signup-risk.ts:109-131 | the final count plus the earlier accounts of the same instant is the signup count plus the later ones |
| SignupReplay.SignupBelowFinalIff | scripts/backfill-signup-risk.ts:109-131 | a signup count is at most the final one if and only if those of the same instant do not outnumber the later ones |
| SignupReplay.SignupBelowFinal | scripts/backfill-signup-risk.ts:109-131 | with distinct times per address every signup-time count is at most its final count |
| SignupReplay.TwinsAreForgotten | scripts/backfill-signup-risk.ts:121-121 | two accounts of one address at one instant: a link at signup, none in the end |
| BetaVersion.PickLatestStableTag | scripts/desktop-next-beta-version.ts:80-87 | the loop returns the first of the highest stable tags |
| BetaVersion.CompareStableTags | scripts/desktop-next-beta-version.ts:70-77 | the sign of the result is the order of the three numbers |
| BetaVersion.BetaGoesUp | scripts/desktop-next-beta-version.ts:102-114 | with more tags and a later commit the resolved version strictly increases in SemVer precedence |
| BetaVersion.BetaOrderIff | scripts/desktop-next-beta-version.ts:102-114 | for one set of tags the order of two betas is exactly the order of their commits |
| BetaVersion.BetaBetween | scripts/desktop-next-beta-version.ts:90-114 | the beta lies strictly between the latest stable version and that version with its patch raised by one |
| BetaVersion.OrderIrrelevant | scripts/desktop-next-beta-version.ts:80-114 | the version does not depend on the order or repetition of tags |
| BetaVersion.StampOrder | scripts/desktop-next-beta-version.ts:102-108 | string order of stamps is time order |
| BetaVersion.LegacyOrder | scripts/desktop-next-beta-version.ts:44-48 | a stamp comes after an all-digit one if and only if it is not of an earlier day |
| BetaVersion.RunsFitInt32 | scripts/desktop-next-beta-version.ts:102-108 | a stamp has exactly two digit runs, read as the number of its date and that of its time, and both fit a 32-bit integer |
| BetaVersion.CompanionIsBeta | scripts/desktop-next-beta-version.ts:125-147 | a beta dispatched on a stable tag is never a stable build, and it outranks that tag |
| BetaVersion.ChannelIff | scripts/desktop-next-beta-version.ts:125-147 | for every input the channel is beta if and only if a beta was dispatched, a version is missing if and only if a stable build was dispatched without one off the tags, and a dispatched version is taken as it is |
| BetaVersion.StableTagReleases | scripts/desktop-next-beta-version.ts:136-138 | pushed or dispatched stable, a tag `v1.2.3` releases exactly version 1.2.3 |
| BetaVersion.TagReads | scripts/desktop-next-beta-version.ts:66-77 | `v` and three numbers is a stable tag and names them; with a suffix, or another letter in front, it is none |
| BetaVersion.StandardExample | scripts/desktop-next-beta-version.ts:90-114 | the precedence used orders the example of section 11 of SemVer 2.0.0 as the standard does |
| ThinkingWidget.Widget.SetStreaming | scratch/repro-thinking-flicker.ts:119-133 | turning streaming on clears the timer and opens, turning it off arms the timer, anything else does nothing |
| ThinkingWidget.Widget.ProcessEvent | scratch/repro-thinking-flicker.ts:199-215 | the fields stay what the events so far call for, with any overlap of bursts |
| ThinkingWidget.Widget.TickCloseTimer | scratch/repro-thinking-flicker.ts:135-144 | the widget closes on this tick exactly if the quiet has lasted the delay |
| ThinkingWidget.Widget.Simulate | scratch/repro-thinking-flicker.ts:233-254 | for events listed in any order and at any times, over the turn of those that fall on ticks the closings are exactly the ticks where the reference goes from open to closed |
| ThinkingWidget.ScheduleEventsAt | scratch/repro-thinking-flicker.ts:218-222 | the events looked up under a tick are those of the time-ordered turn, in order, however they are listed |
| ThinkingWidget.ShownIsSafe | scratch/repro-thinking-flicker.ts:119-144 | streaming holds exactly when bursts are active, implies open, and excludes an armed timer |
| ThinkingWidget.OneStretchIff | scratch/repro-thinking-flicker.ts:199-254 | the widget is seen as one stretch if and only if no quiet gap exceeds the delay |
| ThinkingWidget.ClosesOnce | scratch/repro-thinking-flicker.ts:199-254 | then it closes once, at the first tick at least the delay after the last end |
| ThinkingWidget.EventsAtSlice | scratch/repro-thinking-flicker.ts:218-222 | the events listed under a tick are the stretch of the turn at that time, in order |
| CsvLine.ParseCsvLine | scripts/backfill-rewardful-affiliates.ts:81-99 | the loop that may step over a second quote equals the recursive reading |
| CsvLine.LineReadsBack | scripts/backfill-rewardful-affiliates.ts:81-99 | parsing a line printed by RFC 4180 section 2 returns its cells, whichever cells are enclosed without need |
| CsvLine.MixedLineReads | scripts/backfill-rewardful-affiliates.ts:81-99 | on any line whose quotes all close, with quoted stretches anywhere in a cell, each cell reads as the texts of its stretches |
| CsvLine.OpenQuoteReads | scripts/backfill-rewardful-affiliates.ts:81-99 | a quote left open takes the rest of the line into its cell |
| CsvLine.CellCount | scripts/backfill-rewardful-affiliates.ts:81-99 | on any line the cells are one more than the commas with an even number of quotes before them |

## Left out

- Spawning processes, walking directories, git, psql, the Prisma CLI, HTTP and console output: their results are inputs or nondeterministic choices of a step.
- Regular expressions over SQL heads: `Patterns` takes what they compute (the table of a row write, a statement without its leading block keywords, whether an expression is derived, which tables are published) as functions of the statement; the hand-written scanners are modelled character by character.
- JavaScript numbers: counts and lines are unbounded naturals or NaN; signs, fractions, exponents and blanks that `Number` and `parseInt` accept are not modelled.
- Locale-aware sorting of file names: any strict total order on names.
- The drift gate `liveDbDriftIsAllowlistedOnly` is an arbitrary boolean, and the effect of data statements in migrations is not modelled, as the code itself leaves it unverified.
- Primary keys of the two regions: different natural keys are taken never to share a primary key, since the generated ids are random; a clash on a primary key is resolved in favour of the later stamp.
- `grantRollup`, `expectedPaid` and the cap on non-home wallets: sums over one workspace's grants.
- `checkHomeRegionPartitionedSchema`, `checkUniqueRegistry` and the matching of lock wrappers over the TypeScript syntax tree: table lookups against a hand-kept registry.
- `packageKey`, exclusion filters, thresholds, JSON summaries and badges of the coverage merger: they read the merged records and decide nothing about them.
- Concurrent writers beside the re-keying script, and tables missing from a deployment: a missing table is an empty column.
- The per-burst mode of the widget script (`--pre-fix`), its animation window and its printed timeline.
- Header handling and line splitting of the CSV file, and the database writes of the affiliate import.
- The scoring function and the email canonicaliser of the signup replay: the counts they are given are what is proved.
- LocalDatabase.Migrate: histories with rebuilds are covered while nothing is pending behind the started migrations; over them a later migration can meet a schema it was not written for, and its effect then depends on data. The second failure Prisma reports (a pending migration whose objects already exist) needs a schema ahead of its ledger by more than one migration, which these histories never produce: it is in the model but no run of theirs reaches it.
- GuardSound: speaks of the row writes the scan finds; one inside a definition of a WITH clause is not among them (`DeleteInCteUnseen`).
- MaskReadsBack: ranges over printed statements in which each piece reads as itself: no character that opens a comment, a quote, a tag or a group beside the pieces that do, no early close of a quote or a body, and no closing parenthesis too many. Texts left open are the subject of `OpenComment`, `OpenQuote` and `OpenBody`.
- StatementsReadBack: likewise; a semicolon stands loose in a group, quote, body or comment only.
- BlockWritesFound: says that the row writes of a body are found; that nothing else is, `RowWritesStand` says.
- ShardsAddUp: ranges over files of records that are closed, with readable rows and counts in digits; what follows from other files, `ConcatCounts` says.
- ExtractionExact: ranges over statements whose column names are identifiers and whose expressions close their own parentheses and quotes.
- PipelineReadsBack: asks that the reader's path normalisation leaves alone the paths the shards were normalised to; the source's does so when the reader stands at the repository root, and resolves other relative paths anew from anywhere else.
- StrippedFileParses: ranges over files of known rows without trailing blanks, one path to a record, on whose line and hit numbers `Number` and `parseInt` agree; the file is cut at lines that are `end_of_record`, where the source also cuts inside a longer line.
- PrintRecord: prints functions, branches and lines in any given order; the source's sorts are not modelled.
- EmitLcov: prints files in any given order, likewise.
- RegionColumnOwnsOnce: takes the region column to name the writer; the schema check does not establish that.
- CtesSkippedIff: ranges over definitions whose parentheses and quotes close in themselves and whose quoted names hold no quote.
- UpdateFromExact: takes one FROM item (joins included) without a comma or a loose clause word outside its own parentheses.
- BetaGoesUp: takes the UTC fields of a commit date as given and in time order; the calendar arithmetic of `Date` is not part of this model.
- Simulate: takes events whose bursts begin before they end; an end without a start makes the script fail on a widget that is not there.
