# Verification of the multi-tenancy package

This Dafny project models the stateful core of the package and proves what that core is for. The modules follow
the components:

- **Row scoping.** `RowScope` models the model mixin, its two ambient scopes and the driver that destroys a tenant's
  rows. `RowScopeLaws` proves that one shared table looks to every tenant like a table of its own, whatever the
  interleaving, and `RowScopeCode` that clients whose code stays within its tenancy.run see it so. Instances of another
  tenant and operations outside every scope are refused without effect (`RefusedWithoutEffect`), and a destroyed tenant
  leaves every other tenant's rows (`TenantGone`). `RowScopeChains` says for which shapes of `where`/`orWhere` chains
  the scope condition confines a query.
- **SQL dumps.** `SqlLexer` states the splitter's own grammar as an automaton that reads one character at a time.
  `SqlSplitter` is the scanner of the source, proved to compute that grammar's statements, and `SplitterLaws` proves
  losslessness, idempotence and that splitting undoes printing; `LexemeLaws` says in plain words how each kind of text
  is read: quotes, comments, separators and all else. `CopyBlocks` and `CopyBlockLaws` do the same for the
  splitter that cuts COPY blocks out first. `SqlImport` runs the statements in one transaction, and `PatternForms` says
  what its regular expressions match.
- **Transactions.** `PgTransaction` models a PostgreSQL transaction with its aborted state and its stack of savepoints,
  whose names may repeat. `TenantClone` copies a tenant in one.
- **Tenant connections.** `TenantConnections` is the pool bounded at 50 that both PostgreSQL drivers keep.
- **Limits.** `Quota` interleaves checks with increments; `RateLimit` is the sliding-window log.
- **Backups.** `BackupRetention` and `RetentionLaws` follow the metadata list, the dumps on disk and the sweep.
- **Scopes.** `Bootstrappers` brackets code with enter and leave.
- **Sessions.** `Impersonation` signs tokens and keeps sessions in a cache that forgets them; `ImpersonationLaws` says
  which tokens are valid after a whole run.
- **Webhooks.** `Webhooks` follows a delivery through its retries and through resending by hand.
- **Metrics.** `PrometheusFormat` is a reader of the text format, `MetricsExporter` the renderer, and `MetricsLaws`
  asks when the rendered text keeps the format's rules for a whole exposition.
- **Read replicas.** `ReadReplicas` is the choice in turn with a cursor of 32 bits.
- **Hosts.** `TenantHosts` and `TenantHostLaws` build URLs for tenants and resolve hosts back to tenants.

`Text`, `Identifiers`, `Seqs` and `Wrappers` hold what the others need of strings, safe names, sequences and absent
values.

`dafny verify dfyconfig.toml` checks the project.

How the source's outside world appears: a command, a hook, a cache write or a request that may fail is a parameter that
says whether it does; clocks, random numbers and generated ids are parameters; the keyed hash is any function. A state
that outlives a call is a class; what its methods do is stated by a function of the old state, and the laws are proved
about that function over whole runs.

Where the source does not do what its documentation or a format promises, the code is kept and a lemma gives the exact
condition: `CopyBlocksCommute` with the dumps of `OpenStringIsCut` (COPY lines inside an open string),
`SplitUndoesPrint`, `SplitIdempotent` and `PrintOfSplitSplitsBack` with the dump of `BackslashStatement` (statements
that a backslash starts), `OthersHit` (instances that did not load their scope column), `CreateStamps` (a preset scope
column), `ConfinedCodeReachesItsTenant` (`unscoped` and nested runs), `BulkConfinedWithoutOr` and
`ReadConfinedWithOneOr` (`orWhere`), `SavepointNamesCollide` (savepoint names that are cut), `NoOrphans` (a keepLast of
30 or more), `MetricsAreGrouped` (the lines of a circuit metric are not one group), `FairIffDividing` (the cursor
wraps), `LowerCaseSlugResolvesBack` (hosts written in lower case) and `LegacyAgrees` (hosts that begin with a dot).
`DottedBaseIsRefused` adds that base domains with a leading dot, which the resolvers allow, get no URL.

## Model

| member | source | states |
|---|---|---|
| RowScopeLaws.SharedTableSimulatesPrivateTables | src/models/scoping.ts:105-179 | for every interleaving of tenants on one table, with rows loaded by any read and ids of any origin, each tenant's answers and rows are, up to generated ids, those of its own operations run alone on a private table |
| RowScopeLaws.TenantsAreIsolated | src/models/scoping.ts:74-90 | the same from empty tables, for every tenant |
| RowScopeLaws.PrivateTableNeedsNoScope | src/models/scoping.ts:105-179 | on a table where every row is the tenant's, an operation in its scope does what it does outside every scope, once new rows are given their owner |
| RowScopeLaws.OtherStepKeepsOut | src/models/scoping.ts:113-148 | an operation in another scope, or refused outside every scope, neither changes nor adds nor removes a row of the tenant |
| RowScopeLaws.OwnStep | src/models/scoping.ts:105-179 | one operation of the tenant is answered alike on the shared and on the private table and leaves corresponding tables, the ids renamed |
| RowScopeLaws.OwnFindId | src/models/scoping.ts:113-116 | an id of the tenant's rows is found under its other name, and any other id, whosever it is, is not found |
| RowScopeLaws.OthersUntouched | src/models/scoping.ts:123-179 | a scoped operation whose instance carries its true scope column leaves every other row as it is, and adds none for others |
| RowScopeLaws.OthersHit | src/models/scoping.ts:158-179 | a row of somebody else is deleted, or its other columns saved, if and only if the instance written names its key and either did not load its scope column or claims the tenant's |
| RowScopeLaws.BypassWins | src/models/scoping.ts:27-36 | inside unscoped() every operation reaches every row, whatever tenancy.run() scopes are nested in it |
| RowScopeLaws.ConfinedCodeReachesItsTenant | src/tenancy.ts:46-64 | code performs every operation in a tenant's reach if and only if each is surrounded by a run(), the innermost for that tenant, and by no unscoped() |
| RowScopeCode.ConfinedClientsAreIsolated | src/tenancy.ts:46-64 | however clients' code interleaves, if each client's code keeps within a run() of its tenant, each is answered, up to generated ids, as if its code alone had run on a table of its own |
| RowScopeChains.BulkConfinedWithoutOr | src/models/scoping.ts:131-140 | a bulk update or delete is confined to the tenant, whatever its conditions, if and only if its chain has no orWhere |
| RowScopeChains.ReadConfinedWithOneOr | src/models/scoping.ts:113-148 | a read, scoped at both ends of its chain, is confined, whatever its conditions, if and only if it has at most one orWhere |
| RowScope.ScopedModel.Find | src/models/scoping.ts:113-116 | finds the row if it has that id and is in reach; outside every scope it is refused |
| RowScope.ScopedModel.Fetch | src/models/scoping.ts:118-121 | returns exactly the rows in reach that satisfy the caller's filter, as they are |
| RowScope.ScopedModel.Paginate | src/models/scoping.ts:142-148 | counts and returns exactly the rows in reach that satisfy the caller's filter |
| RowScope.ScopedModel.UpdateWhere | src/models/scoping.ts:123-140 | changes the columns of exactly the rows in reach that satisfy the caller's filter, leaves their owners and every other row, and says how many there were |
| RowScope.ScopedModel.DeleteWhere | src/models/scoping.ts:123-140 | deletes exactly the rows in reach that satisfy the caller's filter, leaves every other row, and says how many there were |
| RowScope.ScopedModel.Create | src/models/scoping.ts:150-156 | adds one row under a new id and fills its scope column only if that was empty |
| RowScope.ScopedModel.Save | src/models/scoping.ts:158-168 | writes the row of the instance's key, or refuses an instance whose scope column names someone else |
| RowScope.ScopedModel.Delete | src/models/scoping.ts:170-179 | deletes the row of the instance's key, or refuses an instance whose scope column names someone else |
| RowScope.ReachOf | src/models/scoping.ts:105-111 | an operation is refused if and only if strict mode finds no tenant and no bypass; else a row is in reach if and only if the bypass is on, there is no tenant, or the row is the tenant's |
| RowScope.RowScopeDriver.Destroy | src/services/isolation/rowscope_pg_driver.ts:66-78 | clears the tenant's rows from the listed tables in turn up to the first that does not exist, and from no others; an unsafe id, keepData or an empty list change nothing |
| RowScope.RowScopeDriver.Reset | src/services/isolation/rowscope_pg_driver.ts:80-84 | is a destroy that keeps no data, with the same effect when it throws |
| Identifiers.SafeIs | src/services/isolation/identifier.ts:9-27 | safe ids are 1 to 63 letters, digits, underscores and dashes, and no others |
| SqlSplitter.SplitSqlStatements | src/utils/sql_splitter.ts:63-190 | the five-state scanner returns the statements of the one-character automaton, for every dump, and terminates |
| SqlSplitter.ScanDefault | src/utils/sql_splitter.ts:80-132 | one turn in the default state moves the index on and reads what the automaton reads there |
| SqlSplitter.ScanInside | src/utils/sql_splitter.ts:134-180 | one turn in the other four states moves the index on and reads what the automaton reads there |
| SqlSplitter.ScanEnds | src/utils/sql_splitter.ts:184-189 | when the scan has reached the end of the dump, the statements found and the text pending are the automaton's, and the text pending is never just a semicolon, so that the source's check for it excludes nothing |
| Text.SpacesAre | src/utils/sql_splitter.ts:114 | trimming removes the white space and line ends of ECMAScript, by their code points |
| SqlLexer.LexKeepsSource | src/utils/sql_splitter.ts:75-182 | nothing is lost: kept text, separators and dropped meta-lines, in order, spell the dump |
| SqlLexer.LexAppend | src/utils/sql_splitter.ts:73-182 | scanning two texts in a row is scanning the second from where the first ended |
| SqlLexer.ChunksAppend | src/utils/sql_splitter.ts:113-121 | where two texts meet, only the last chunk of the one and the first of the other run together |
| LexemeLaws.DollarQuoted | src/utils/sql_splitter.ts:103-111 | a dollar quote with any tag of letters, digits and underscores, or none, is kept whole up to its closing tag, or to the end if there is none, and the scan is outside quotes behind it |
| LexemeLaws.LoneDollar | src/utils/sql_splitter.ts:103-111 | a dollar sign and word characters that open no dollar quote are kept, and what follows is read as if they were not there |
| LexemeLaws.Quoted | src/utils/sql_splitter.ts:95-100 | a string constant, its quotes doubled, is kept whole, closed or not |
| LexemeLaws.LineCommented | src/utils/sql_splitter.ts:80-85 | a line comment is kept whole to the end of its line, where a line begins, or of the dump |
| LexemeLaws.LoneDash | src/utils/sql_splitter.ts:80-85 | a single dash opens no comment |
| LexemeLaws.BlockCommented | src/utils/sql_splitter.ts:87-92 | a block comment is kept whole up to the first slash behind a star, which may be the star that opens it, or to the end |
| LexemeLaws.LoneSlash | src/utils/sql_splitter.ts:87-92 | a single slash opens no comment |
| LexemeLaws.Semicolon | src/utils/sql_splitter.ts:113-121 | a semicolon outside quotes and comments separates |
| LexemeLaws.MetaLineDropped | src/utils/sql_splitter.ts:123-127 | a line that a backslash starts is dropped to its end |
| LexemeLaws.OtherChar | src/utils/sql_splitter.ts:129-131 | any other character is kept |
| LexemeLaws.OneStatement | src/utils/sql_splitter.ts:63-190 | a statement with a quote or comment between ordinary texts is one statement, whatever semicolons the quote or comment holds |
| LexemeLaws.FunctionBodyKept | src/utils/sql_splitter.ts:103-121 | a function body between dollar quotes of any tag is not cut at its semicolons |
| SplitterLaws.StatementSplitsToItself | src/utils/sql_splitter.ts:113-127 | a text splits to itself alone if and only if it is trimmed, not empty and scanned without a separator or a meta-line |
| SplitterLaws.SplitIdempotent | src/utils/sql_splitter.ts:113-121 | an emitted statement splits to itself if and only if no backslash starts it, and then all but the last leave quotes and block comments closed |
| SplitterLaws.SplitUndoesPrint | src/utils/sql_splitter.ts:63-190 | a list joined with newline, semicolon, newline comes back when split if and only if each statement splits to itself and all but the last leave quotes and block comments closed, for every list |
| SplitterLaws.PrintOfSplitSplitsBack | src/utils/sql_splitter.ts:63-190 | what the splitter returns for a dump comes back when joined and split again if and only if no backslash starts a statement of it |
| SplitterLaws.BackslashStatement | src/utils/sql_splitter.ts:123-127 | there is a dump with such a statement: a backslash behind a blank starts a statement, which is dropped as a meta-line when it is split again |
| CopyBlocks.SplitSqlStatementsTagged | src/utils/sql_splitter.ts:15-55 | returns the tokens of the dump's blocks of lines, in order |
| PatternForms.CopyHeaderIs | src/utils/sql_splitter.ts:5 | a line opens a COPY block if and only if it is blanks, COPY, blanks, a name, a blank, FROM, blanks and stdin where that word ends, in any case |
| PatternForms.HeaderIs | src/utils/sql_splitter.ts:34 | the header kept is the line without a semicolon at its end, trimmed |
| CopyBlockLaws.LinesUsedOnce | src/utils/sql_splitter.ts:29-51 | every line is used once, in order, as SQL, header, row or terminator |
| CopyBlockLaws.CutIsUnique | src/utils/sql_splitter.ts:29-51 | there is only one way to cut a dump into such blocks |
| CopyBlockLaws.TokensOfBlocks | src/utils/sql_splitter.ts:20-46 | the sql tokens are the statements of each SQL block and the copy tokens hold the data lines verbatim and in order |
| CopyBlockLaws.CopyBlocksCommute | src/utils/sql_splitter.ts:15-55 | for every dump: the sql tokens are the statements of the dump without its COPY blocks if and only if every cut is clear, that is, no statement is pending before it or none begins behind it, and nothing but blanks follows a quote or block comment that is open there |
| CopyBlockLaws.SplitAcrossJoin | src/utils/sql_splitter.ts:113-121 | two texts split apart give the statements of the joined text if and only if the cut between them is clear; else the statement that is cut comes out shorter than it is |
| CopyBlockLaws.SplitEachOrJoined | src/utils/sql_splitter.ts:20-27 | texts split one by one give the statements of the joined text if and only if every cut is clear |
| CopyBlockLaws.NoCopyIsPlainSplit | src/utils/sql_splitter.ts:15-55 | a dump without a COPY header is split as by the plain splitter |
| CopyBlockLaws.OpenStringIsCut | src/utils/sql_splitter.ts:32-36 | a dump with a COPY block, under any header line (`HeaderExample` is one), inside its string constant: its one statement comes out as its first character |
| SqlImport.Import | src/services/sql_import_service.ts:60-100 | a dry run reports and changes nothing, a dump with COPY blocks goes to psql, any other is run in a transaction that is committed as a whole or not at all |
| SqlImport.DryRunImport | src/services/sql_import_service.ts:72-93 | counts the statements to run, the skipped ones, the COPY blocks and their rows |
| SqlImport.RunTransactional | src/services/sql_import_service.ts:102-173 | throws and leaves nothing if and only if the tenant cannot be connected, one of the two settings fails or the commit does; else what is committed is the state of the succeeding statements |
| SqlImport.RunStatements | src/services/sql_import_service.ts:124-160 | inside the transaction, only a failing setting throws; else the state is that of the succeeding statements and each statement is counted as what became of it |
| SqlImport.RunStatement | src/services/sql_import_service.ts:141-156 | a statement takes full effect or leaves no trace, and the savepoint stack is as before either way |
| SqlImport.ImportReplaysTheSucceeding | src/services/sql_import_service.ts:124-160 | the final state is what the succeeding statements alone, in order between the two settings, produce without any failing |
| SqlImport.ImportCounts | src/services/sql_import_service.ts:106-157 | executed, skipped and errors add up to the total, and a dry run's executed is the import's executed and errors |
| SqlImport.EveryTokenCounted | src/services/sql_import_service.ts:82-91 | every token is counted once |
| PatternForms.SkippedIs | src/services/sql_import_service.ts:34-38 | a statement is skipped if and only if behind blanks it is a SET of search_path, a SELECT of pg_catalog.set_config for 'search_path', in any case, or a backslash and a letter |
| PatternForms.ImportRuns | src/services/sql_import_service.ts:82-157 | the statements of the dump that are not of these forms are run, in order, those of these forms are counted as skipped, and a dry run counts each COPY block and its rows |
| PgTransaction.ForgivingRunsTheSucceeding | src/services/sql_import_service.ts:144-156 | running commands and undoing those that fail has the effect of the succeeding ones, none of which fails by itself |
| PgTransaction.Transaction.RollbackTo | src/services/clone_service.ts:212-213 | goes back to the latest savepoint of that name, keeps it, drops those after it and ends the aborted state |
| PgTransaction.Transaction.Release | src/services/clone_service.ts:211 | forgets the latest savepoint of that name and those after it |
| TenantClone.RunWithSavepoint | src/services/clone_service.ts:202-216 | a step takes effect, or the state is that just before it and one savepoint more stays on the stack, whatever savepoints of that name are there already |
| TenantClone.ResetIntegerSequences | src/services/clone_service.ts:166-194 | the state is that of the resets that succeed; the stack grows by the number of those that fail |
| TenantClone.CopyData | src/services/clone_service.ts:118-155 | throws if and only if a step of the row copy fails; else the state is the row copy and then the best-effort steps that succeed, and rowsCopied is the sum over the source tables present in the destination |
| TenantClone.Clone | src/services/clone_service.ts:23-90 | the committed state is the copied one and the destination active, or the destination is failed and dropped if it can be; a copy that fails or cannot be committed leaves nothing, and one that is committed stays if only the tenant cannot be saved and the destination not be dropped |
| TenantClone.CloneKeepsRows | src/services/clone_service.ts:118-151 | each destination table ends with the rows it had and those of its source, migration tables apart, whatever the best-effort steps did; only the access tokens may be gone, on request |
| TenantClone.RowCopyAddsRows | src/services/clone_service.ts:122-140 | the row copy adds each source table's rows once and changes no other table |
| TenantClone.ResetsKeepRows | src/services/clone_service.ts:166-194 | resetting sequences touches no row |
| TenantClone.CopyableTables | src/services/clone_service.ts:110 | all source tables but the migrations' |
| TenantClone.CommandsOfClone | src/services/clone_service.ts:121-147 | triggers off, a copy of each table in order, triggers on; then the access tokens on request and the sequence of every table |
| TenantClone.RowsCounted | src/services/clone_service.ts:132-137 | the count of copied rows is the sum over the tables copied |
| TenantClone.SavepointNamesCollide | src/services/clone_service.ts:207 | two names share a savepoint name if and only if their first 40 characters are the same, characters that are replaced taken as one, and they are as long as each other or both at least 40 long |
| TenantConnections.ConnectionDriver.Connect | src/services/isolation/schema_pg_driver.ts:80-106 | uses the tenant's connection once more, registering it if need be, unless the id is unsafe or the template missing; the connection returned is never the one evicted |
| TenantConnections.ConnectionDriver.Disconnect | src/services/isolation/schema_pg_driver.ts:108-118 | unregisters the tenant and takes it off the list; an unsafe id is refused |
| TenantConnections.ConnectionDriver.Provision | src/services/isolation/database_pg_driver.ts:65-76 | creates the storage unless the id is unsafe or the server refuses, then connects |
| TenantConnections.ConnectionDriver.Destroy | src/services/isolation/database_pg_driver.ts:78-92 | disconnects and drops the storage unless it is to be kept; an unsafe id changes nothing |
| TenantConnections.ConnectionDriver.Reset | src/services/isolation/schema_pg_driver.ts:71-78 | disconnects, drops and recreates the storage and connects; if only the creation is refused, the storage is gone and the tenant disconnected |
| TenantConnections.ConnectionDriver.Migrate | src/services/isolation/database_pg_driver.ts:134-150 | the database driver connects before it migrates, and does not migrate if it cannot |
| TenantConnections.PoolStaysSound | src/services/isolation/schema_pg_driver.ts:136-147 | after every run the list has no repeats, is the set of registered connections, holds 50 at most, and ends with a connection just made |
| TenantConnections.PoolOrderedByUse | src/services/isolation/schema_pg_driver.ts:136-139 | after every run the list is in order of last use |
| TenantConnections.KeepsTheMostRecentlyUsed | src/services/isolation/database_pg_driver.ts:99-132 | after every run of connects and disconnects a tenant is registered if and only if it was connected, not dropped since, and at no time since were 50 others connected later and not dropped |
| TenantConnections.KeptWithoutDrops | src/services/isolation/database_pg_driver.ts:99-121 | in a run of connects alone, if and only if it was connected and fewer than 50 others were since |
| TenantConnections.NewestSurvives | src/services/isolation/schema_pg_driver.ts:141-147 | the connection at the front when the list overflows is not the one just made |
| Quota.QuotaService.Check | src/services/quota_service.ts:105-118 | allows an amount if and only if it and the usage stay within the limit |
| Quota.QuotaService.Consume | src/services/quota_service.ts:129-152 | uninterrupted, counts the amount if it is allowed and else changes nothing |
| Quota.QuotaService.Track | src/services/quota_service.ts:68-75 | adds to today's counter |
| Quota.QuotaService.GetUsage | src/services/quota_service.ts:92-99 | today's counter, else the snapshot, else nothing |
| Quota.QuotaService.SetUsage | src/services/quota_service.ts:82-86 | reports a usage, never below nothing, and touches no counter |
| Quota.ReportCountsUntilUse | src/services/quota_service.ts:92-99 | a reported usage counts while the day has no counter; the first amount counted starts the counter from nothing and hides the report for the day |
| Quota.StepWithinBound | src/services/quota_service.ts:129-152 | the bound with the allowed but unwritten amounts is kept by reads, writes, midnight, expiry and reports |
| Quota.OvershootBounded | src/services/quota_service.ts:120-152 | in every interleaving with at most k calls between reading and writing, every counter stays within limit + (k - 1) times the largest amount or the limit, whichever is smaller, across midnight too |
| Quota.CountersBounded | src/services/quota_service.ts:120-152 | the same from nothing, for every run; one call at a time never passes the limit |
| Quota.OvershootReached | src/services/quota_service.ts:124-127 | the bound is exact: from nothing, for every limit, number of calls and largest amount but zero, some run reaches it |
| RateLimit.RequestLog.Handle | src/middleware/rate_limit_middleware.ts:22-57 | a request passes if and only if the distinct request times of the last window, over the whole history, number at most the limit; without Redis it passes |
| RateLimit.RequestLog.Log | src/middleware/rate_limit_middleware.ts:33-41 | the count after pruning and expiry is the number of distinct times in the last window of the whole history |
| RateLimit.LogMoves | src/middleware/rate_limit_middleware.ts:35-38 | pruning and expiry forget nothing that a later window would see |
| RateLimit.WindowAdmitsAtMostLimit | src/middleware/rate_limit_middleware.ts:47-50 | no window of that width, wherever it lies, admits requests at more than limit distinct times |
| BackupRetention.BackupService.Backup | src/services/backup_service.ts:60-100 | a dump is written and listed first, and the list is cut to 30; a failed dump changes nothing |
| BackupRetention.BackupService.DeleteBackup | src/services/backup_service.ts:133-153 | a proper file name is removed from disk and list, any other is refused |
| BackupRetention.ProperName | src/services/backup_service.ts:35-40 | proper are the names of letters, digits, dots, dashes and underscores that end in .dump, and no others |
| BackupRetention.BackupService.ApplyRetention | src/services/backup_retention_service.ts:90-100 | deletes what the plan purges and returns the plan |
| BackupRetention.BackupService.ShouldBackup | src/services/backup_retention_service.ts:53-69 | due if and only if every listed backup is at least the interval old |
| BackupRetention.BackupService.Turn | src/commands/tenant_backups_run.ts:63-91 | a tenant's turn: nothing unless due or forced, then a backup, and a sweep if that succeeds |
| RetentionLaws.SortSorts | src/services/backup_retention_service.ts:79 | newest first, a permutation, and entries of one time keep their order |
| RetentionLaws.PlanSplits | src/services/backup_retention_service.ts:75-83 | kept and purged are all backups, newest first, and the kept are keepLast of them if there are as many |
| RetentionLaws.SweepFollowsPlan | src/services/backup_retention_service.ts:90-100 | a sweep leaves what the plan keeps listed and takes what it purges off the disk; a second sweep purges nothing, unless keepLast is negative and something is left |
| RetentionLaws.RoundsKeepNewest | src/commands/tenant_backups_run.ts:75-90 | after any number of backups each followed by a sweep, list and disk hold the newest keepLast ever taken if keepLast is below 30, and else the list the newest 30 and the disk everything |
| RetentionLaws.NoOrphans | src/services/backup_service.ts:155-160 | every dump on disk is listed if and only if keepLast is below 30 or at most 30 backups were taken |
| RetentionLaws.ListStaysSound | src/services/backup_service.ts:133-160 | whatever the order of backups, deletions and sweeps, the list is newest first, at most 30 long, without repeated files, and every listed file is on disk |
| Bootstrappers.BootstrapperRegistry.Register | src/services/bootstrapper_registry.ts:29-38 | appends a new name, refuses a known one; list and map keep agreeing |
| Bootstrappers.BootstrapperRegistry.Unregister | src/services/bootstrapper_registry.ts:40-45 | takes out the one entry of that name and keeps the order of the others |
| Bootstrappers.BootstrapperRegistry.Clear | src/services/bootstrapper_registry.ts:55-59 | leaves an empty registry |
| Bootstrappers.BootstrapperRegistry.RunScoped | src/services/bootstrapper_registry.ts:78-91 | however each callback turns out in this activation and in those nested in it, enters a prefix in registration order, runs the body only if all entered, and leaves what entered in reverse; the outcome is that of the body or of the enter that failed, since no error of a leave escapes from the finally block |
| Bootstrappers.BootstrapperRegistry.RunLeaveUpTo | src/services/bootstrapper_registry.ts:93-104 | every leave of the first entries runs, in reverse, whichever of them throw; their errors are caught and logged, and none escapes |
| Bootstrappers.ScopeBracketed | src/services/bootstrapper_registry.ts:73-91 | whatever fails, be it an enter of this scope or of a nested one, a scope and all scopes nested in it close exactly the brackets they opened, last opened first |
| Bootstrappers.EntersInOrder | src/services/bootstrapper_registry.ts:81-87 | a scope begins by entering in registration order up to the first failure, then comes the body if none failed, and else only leaves |
| Bootstrappers.LeaveErrorsDoNotShow | src/services/bootstrapper_registry.ts:98-102 | with and without errors in leaves, here and in nested scopes, the outcome is the same and the same enters, bodies and leaves run in the same order; the errors show in the log only |
| Bootstrappers.BodyRunsIfAllEnter | src/services/bootstrapper_registry.ts:81-87 | the body runs, with all scopes in it, if and only if every bootstrapper enters, and then the outcome is its own; else the first enter's error comes out |
| Impersonation.ImpersonationService.Start | src/services/impersonation_service.ts:46-112 | refuses without a long enough secret or with an unclean user or admin id; else a new session is cached until it expires, never later than the configured maximum |
| Impersonation.MayStartIs | src/services/impersonation_service.ts:51-62 | a session may be started if and only if the secret has 32 characters, the cache works and both ids are 1 to 128 characters of [a-zA-Z0-9._:@-] |
| Impersonation.ImpersonationService.Stop | src/services/impersonation_service.ts:115-138 | ends the session of a valid token if the cache still has it, after which the token is worth nothing; throws if the secret is needed and missing |
| Impersonation.ImpersonationService.RevokeById | src/services/impersonation_service.ts:141-147 | ends a session by its id under the same condition, after which it is worth nothing |
| Impersonation.ImpersonationService.Verify | src/services/impersonation_service.ts:154-201 | returns the data the session was started with if and only if the hash matches and the session was started, neither stopped nor revoked, and has not expired; no expiry moves |
| ImpersonationLaws.VerifiesExactly | src/services/impersonation_service.ts:154-201 | after every run of starts, stops, revocations and verifications, a token verifies if and only if its hash matches and the run started its session, did not stop or revoke it since, and it has not expired; its first use is logged once at most |
| ImpersonationLaws.ReturnsWhatWasStarted | src/services/impersonation_service.ts:64-200 | after every run, a token of a started session returns the tenant, the user and the admin of its start until the requested or configured time, at least a minute and at most the maximum, is over or it is stopped or revoked, and nothing then |
| Impersonation.NextSound | src/services/impersonation_service.ts:86-191 | every step keeps each session cached as it was started until it is ended or expires, and logs its first use once at most |
| Impersonation.StepLogs | src/services/impersonation_service.ts:91-190 | starts, stops of live sessions and first uses are logged, each once, and revocations are not |
| Impersonation.SoundMarked | src/services/impersonation_service.ts:170-191 | rewriting a session on its first use keeps its expiry and logs its first use once at most |
| Impersonation.ExtractExact | src/services/impersonation_service.ts:210-222 | a token is accepted for a session id if and only if it is at least 33 long, begins with the id up to its first dot, and the rest decodes to the hash of the id |
| Impersonation.SignedIsAccepted | src/services/impersonation_service.ts:204-207 | a signed id is accepted again if and only if it is not empty, has no dot and is long enough with its hash, as generated ids are |
| Impersonation.HexRoundTrip | src/services/impersonation_service.ts:217-218 | decoding undoes encoding |
| Impersonation.Duration | src/services/impersonation_service.ts:66-68 | at most the configured maximum, and at least a minute if that allows it |
| Webhooks.WebhookService.Deliver | src/services/webhook_service.ts:39-53 | a new delivery is stored and sent once |
| Webhooks.WebhookService.SendOne | src/services/webhook_service.ts:55-96 | one POST and its record; a secret that cannot be decrypted is an error without either |
| Webhooks.WebhookService.ProcessRetries | src/services/webhook_service.ts:98-106 | every due delivery that is reached is sent exactly once and nothing else changes |
| Webhooks.Reached | src/services/webhook_service.ts:19-27 | all items are processed unless one throws; then only whole slices of ten are |
| Webhooks.ReachedIs | src/services/webhook_service.ts:24-26 | no slice before the last that is reached throws, and if some items are not reached, that one does |
| Webhooks.SendKeepsSound | src/services/webhook_service.ts:68-93 | attempt and status keep telling how many POSTs there were and how they went; they are the least delays apart |
| Webhooks.SendRecords | src/services/webhook_service.ts:75-93 | an answer from 200 to 299 is a success; anything else is due again exactly when its delay is over, and has failed after the fifth attempt; code and body, or the error, are recorded |
| Webhooks.AtMostFive | src/services/webhook_service.ts:39-106 | over every run of sends of a new delivery there are five POSTs at most that are not resent by hand; if none is, attempt and status tell how many there were and how they went, and one that never succeeds has failed exactly after its fifth |
| Webhooks.BackoffRange | src/services/webhook_service.ts:13-17 | the delay lies within a fifth of its base |
| Webhooks.DelayIs | src/services/webhook_service.ts:9-17 | the delay is 10, 60, 300, 1800 or 7200 seconds, give or take a fifth, rounded to whole seconds |
| Webhooks.DelaysGrow | src/services/webhook_service.ts:9-17 | every delay exceeds every delay after an earlier attempt |
| PrometheusFormat.EscapeIsOnePass | src/health/metrics_exporter.ts:14-16 | the three replacements in their order escape each character once |
| PrometheusFormat.EscapedReadsBack | src/health/metrics_exporter.ts:14-16 | an escaped value up to its closing quote reads as the value, and holds no newline |
| PrometheusFormat.ReadLabelsBack | src/health/metrics_exporter.ts:18-23 | formatted labels read as the labels |
| PrometheusFormat.MetricLineReadsBack | src/health/metrics_exporter.ts:25-31 | a sample line reads as its name, labels and value, a value that is not finite as 0 |
| MetricsExporter.RenderPrometheus | src/health/metrics_exporter.ts:36-78 | a reader of the format that reads the snapshot's numbers as they were printed recovers from the text every comment, name, label and value, in order; its samples are exactly those of the snapshot's total, status counts, circuits' states, failures and successes, queues' five states and uptime, each under its own name and labels |
| MetricsExporter.EntriesReport | src/health/metrics_exporter.ts:41-75 | the samples are the snapshot's numbers under their names and labels, an open circuit 2, a half-open one 1, any other 0 |
| MetricsExporter.EntriesDocument | src/health/metrics_exporter.ts:39-75 | each of the seven metrics has its help text and its type; the two totals of circuits are counters and the others gauges |
| MetricsExporter.SnapshotPrints | src/health/metrics_exporter.ts:30 | the numbers of every snapshot can be printed so that they read back, so that the hypothesis on them can be met |
| MetricsLaws.EverySampleIsTyped | src/health/metrics_exporter.ts:39-75 | every metric has one TYPE line, ahead of its samples |
| MetricsLaws.MetricsAreGrouped | src/health/metrics_exporter.ts:49-60 | the lines of each metric are one group if and only if there is no circuit |
| MetricsLaws.SeriesAreUnique | src/health/metrics_exporter.ts:45-72 | no two samples have the same name and labels if and only if no queue of a tenant is listed twice |
| ReadReplicas.ReadReplicaService.PickIndex | src/services/read_replica_service.ts:26-45 | a replica in range if there is any; in turn it is the next one by the wrapping cursor |
| ReadReplicas.ReadReplicaService.ResetCursor | src/services/read_replica_service.ts:116-118 | the turn begins anew |
| ReadReplicas.CountOfRun | src/services/read_replica_service.ts:41-44 | the choices counted are those made |
| ReadReplicas.Fairness | src/services/read_replica_service.ts:41-44 | in any run two replicas' choices differ by at most one more than the wraps of the cursor in it |
| ReadReplicas.RoundsApart | src/services/read_replica_service.ts:41-44 | if the number of replicas does not divide the cursor's range, the first is ahead of the last by one for each round of the cursor |
| ReadReplicas.FairIffDividing | src/services/read_replica_service.ts:41-44 | choices never differ by more than one if and only if the number of replicas divides the cursor's range |
| TenantHosts.UrlParts | src/services/cross_domain_redirect_service.ts:93-99 | whatever the path, the URL's authority is the checked host and the port |
| TenantHosts.UrlSays | src/services/cross_domain_redirect_service.ts:93-99 | the scheme is http or https as asked, the port is written in digits unless it is none or 0, and the path begins with one slash |
| TenantHosts.UrlIsBuilt | src/services/cross_domain_redirect_service.ts:94-151 | a URL is built if and only if the host is safe, the port a whole number up to 65535 or none, and the path one line that does not begin with two slashes |
| TenantHosts.NoLineBreak | src/services/cross_domain_redirect_service.ts:139-151 | there is no line break in a URL that is built |
| TenantHostLaws.SafeHostIs | src/services/cross_domain_redirect_service.ts:113-120 | safe hosts are labels of letters, digits and inner dashes with dots between them, at most 253 long |
| TenantHostLaws.SlugResolvesBack | src/services/resolvers/builtins.ts:37-55 | the host of every URL built for a slug resolves to the slug under all three resolvers, with or without a port |
| TenantHostLaws.CentralResolvesToNone | src/services/cross_domain_redirect_service.ts:45-47 | the central host resolves to no tenant under all three |
| TenantHostLaws.CustomDomainResolves | src/services/resolvers/builtins.ts:83-101 | a tenant's own domain is looked up as a domain if and only if it is neither the base domain nor below it; the other resolvers take its first label for an id |
| TenantHostLaws.DottedBaseIsRefused | src/services/cross_domain_redirect_service.ts:113-120 | a base domain with a leading dot, which the resolvers allow, gets no URL |
| TenantHostLaws.LegacyAgrees | src/extensions/request.ts:50-64 | the stand-in before boot agrees with the subdomain resolver on a host if and only if that does not begin with a dot, or is below the base domain |
| TenantHostLaws.LowerCaseSlugResolvesBack | src/services/resolvers/builtins.ts:39-54 | written in lower case, the host resolves to the slug by subdomain if and only if the slug is in lower case, and by domain or subdomain if and only if the base domain is so too |

## Left out

- TenantConnections.PoolStaysSound: releasing a connection takes effect at once; the source does not wait for it when it evicts.
- RateLimit.RequestLog.Log: the four commands of the pipeline are one step and clock values do not decrease; requests at the same millisecond share one entry, as in the source.
- Impersonation.ImpersonationService.Verify: each method is one step, the secret does not change, and a cached entry lives exactly for its time to live; comparing in constant time is not modelled.
- Quota.OvershootBounded: `reset` and writers of the counter other than `consume` are not among the steps; amounts are not negative.
- RetentionLaws.RoundsKeepNewest: keepLast is not negative, backups are taken at increasing times under new names, and every deletion succeeds; a negative keepLast is covered for one sweep by `SweepFollowsPlan`.
- Webhooks.SendKeepsSound: a send is one step at one time, saving the record succeeds, and runs of `processRetries` do not overlap.
- MetricsExporter.RenderPrometheus: how a finite number is printed and read is a pair of functions, of which it is only required that each number of the snapshot prints as one token and reads back; the docstring of a HELP line is compared as written.
- BackupRetention.BackupService.ShouldBackup: every timestamp parses, as those that `backup` writes do; the source passes over others.
- TenantHosts.UrlParts: ports are real numbers, so that an infinite port, which the source refuses, does not occur.
- RowScope.ScopedModel.Fetch: the order of rows is not modelled (rows that a client loads are named by the order of their ids), nor relations, transactions around several operations, or database errors.
- Text is a sequence of Unicode characters; the source counts UTF-16 units, which differs only for lengths of texts with characters beyond the basic plane.
- Dumps whose own statements control the transaction (COMMIT, ROLLBACK, SAVEPOINT).
- The psql path of the importer, `#rewriteSchema`, and the agreement of the splitter's grammar with PostgreSQL's own lexer.
- `tablesCopied` and the per-table counts of a clone, which count skipped tables too, and a clone whose saving of the failed status fails as well.
- The mirror of backups in S3, the sidecar file and the expiry of the metadata, `restore`, and the dry-run and counters of the backup command.
- `resolve` and the connection names of read replicas; `dispatch`, registration and deletion of webhooks; plans and the `snapshot` report of quotas.
- `fromRequest` and its query string; the header, path and request-data resolvers and the resolver chain.
- `runEnter` and `runLeave` outside a scope, and registries changed while a scope is open.
- Controllers, routes, commands' output, events, exceptions, migrations, circuit breakers, queues, feature flags, branding, single sign-on, doctor checks and secrets' encryption: wiring, or claims that one body already shows.
