/** Cloning a tenant: one transaction copies the rows, then takes best-effort steps, each in a savepoint. */
module TenantClone {
  import opened Text
  import opened Seqs
  import opened Wrappers
  import opened PgTransaction

  // The source and the destination schema on the shared database server.
  datatype Db<R> = Db(
    src: map<string, seq<R>>, dst: map<string, seq<R>>, sequences: map<string, int>, replica: bool)

  datatype Command =
    | SetReplica(on: bool)
    | CopyTable(table: string)
    | ClearTable(table: string)
    | ResetSequence(table: string)

  // What the server decides by itself: which commands it rejects, and what a sequence is reset to.
  datatype Server<!R> = Server(rejects: (Command, Db<R>) -> bool, reset: (string, Db<R>) -> map<string, int>)

  function Exec<R>(server: Server<R>, c: Command, db: Db<R>): Option<Effect<Db<R>>> {
    if server.rejects(c, db) then None
    else
      match c
      case SetReplica(on) => Some(Effect(db.(replica := on), 0))
      case CopyTable(t) =>
        if t in db.src && t in db.dst then
          Some(Effect(db.(dst := db.dst[t := db.dst[t] + db.src[t]]), |db.src[t]|))
        else None
      case ClearTable(t) => if t in db.dst then Some(Effect(db.(dst := db.dst[t := []]), 0)) else None
      case ResetSequence(t) => Some(Effect(db.(sequences := server.reset(t, db)), 0))
  }

  function Executor<R>(server: Server<R>): (Command, Db<R>) -> Option<Effect<Db<R>>> {
    (c: Command, db: Db<R>) => Exec(server, c, db)
  }

  const MIGRATION_TABLES: set<string> := {"adonis_schema", "adonis_schema_versions"}
  const ACCESS_TOKENS: string := "auth_access_tokens"

  function Cleaned(c: char): char { if IsWordChar(c) then c else '_' }

  /** `sp_` and the name with every other character replaced by an underscore, cut to 40 characters. */
  function SavepointName(name: string): string {
    var clean := seq(|name|, i requires 0 <= i < |name| => Cleaned(name[i]));
    "sp_" + if |clean| <= 40 then clean else clean[..40]
  }

  // ---------- The copy, step by step ----------

  function Copyable(srcTables: seq<string>): seq<string> {
    if srcTables == [] then []
    else (if srcTables[0] in MIGRATION_TABLES then [] else [srcTables[0]]) + Copyable(srcTables[1..])
  }

  function Present(tables: seq<string>, dstTables: set<string>): seq<string> {
    if tables == [] then []
    else (if tables[0] in dstTables then [tables[0]] else []) + Present(tables[1..], dstTables)
  }

  function Copies(tables: seq<string>): seq<Command> {
    if tables == [] then [] else [CopyTable(tables[0])] + Copies(tables[1..])
  }

  function Resets(tables: seq<string>): seq<Command> {
    if tables == [] then [] else [ResetSequence(tables[0])] + Resets(tables[1..])
  }

  function BestEffort(tables: seq<string>, clearSessions: bool): seq<Command> {
    (if clearSessions then [ClearTable(ACCESS_TOKENS)] else []) + Resets(tables)
  }

  // The steps that must all succeed.
  function RowCopy(tables: seq<string>): seq<Command> {
    [SetReplica(true)] + Copies(tables) + [SetReplica(false)]
  }

  function RowSum<R>(src: map<string, seq<R>>, tables: seq<string>): nat {
    if tables == [] then 0 else (if tables[0] in src then |src[tables[0]]| else 0) + RowSum(src, tables[1..])
  }

  /**
   * A best-effort step: it takes effect, or the transaction is back where it was just before the step. Its savepoint is
   * gone if it succeeds and stays if it fails, whatever savepoints of the same name are there already.
   */
  method RunWithSavepoint<R>(trx: Transaction<Command, Db<R>>, name: string, step: Command)
    returns (thrown: bool, ghost ok: bool)
    requires !trx.aborted
    modifies trx
    ensures !thrown && !trx.aborted
    ensures var e := trx.exec(step, old(trx.state));
            && ok == e.Some? && trx.state == (if ok then e.value.state else old(trx.state))
            && trx.savepoints ==
               old(trx.savepoints) + if ok then [] else [Savepoint(SavepointName(name), old(trx.state))]
  {
    var sp := SavepointName(name);
    ghost var before := trx.savepoints;
    hide SavepointName;
    var isSet := trx.SetSavepoint(sp);
    if !isSet { return true, false; }
    ghost var marked := before + [Savepoint(sp, trx.state)];
    assert marked[|marked| - 1].name == sp && marked[..|marked| - 1] == before && marked[..|marked|] == marked;
    var done, _ := trx.Query(step);
    ok := done;
    if done {
      done := trx.Release(sp);
    }
    if !done {
      var back := trx.RollbackTo(sp);
      if !back { return true, false; }
    }
    thrown := false;
  }

  // Every sequence is reset if it can be.
  method ResetIntegerSequences<R>(trx: Transaction<Command, Db<R>>, tables: seq<string>) returns (thrown: bool)
    requires !trx.aborted
    modifies trx
    ensures !thrown && !trx.aborted
    ensures trx.state == Forgiving(trx.exec, Resets(tables), old(trx.state))
    ensures |trx.savepoints| == |old(trx.savepoints)| + |Failing(trx.exec, Resets(tables), old(trx.state))|
  {
    ghost var exec, s, depth := trx.exec, trx.state, |trx.savepoints|;
    hide Resets, Forgiving, Failing, Succeeding, SavepointName;
    NoSteps(exec, s);
    for k := 0 to |tables|
      invariant !trx.aborted
      invariant trx.state == Forgiving(exec, Resets(tables[..k]), s)
      invariant |trx.savepoints| == depth + |Failing(exec, Resets(tables[..k]), s)|
    {
      ResetAdded(tables[..k], tables[k]);
      assert tables[..k + 1] == tables[..k] + [tables[k]];
      OneMore(exec, Resets(tables[..k]), ResetSequence(tables[k]), s);
      var failed, _ := RunWithSavepoint(trx, "seq_" + tables[k], ResetSequence(tables[k]));
    }
    assert tables[..|tables|] == tables;
    thrown := false;
  }

  lemma NoSteps<C, S>(exec: (C, S) -> Option<Effect<S>>, s: S)
    ensures Forgiving(exec, [], s) == s && Failing(exec, [], s) == [] && Strict(exec, [], s) == Some(s)
    ensures Resets([]) == [] && Copies([]) == []
  {
  }

  lemma {:induction false} ResetAdded(tables: seq<string>, t: string)
    ensures Resets(tables + [t]) == Resets(tables) + [ResetSequence(t)]
    ensures Copies(tables + [t]) == Copies(tables) + [CopyTable(t)]
  {
    if tables == [] {
      AppendNothing([t]);
      assert [t][1..] == [];
    } else {
      AppendTail(tables, [t]);
      ResetAdded(tables[1..], t);
    }
  }

  lemma StrictSnoc<C, S>(exec: (C, S) -> Option<Effect<S>>, commands: seq<C>, c: C, s: S)
    ensures Strict(exec, commands + [c], s) ==
            if Strict(exec, commands, s).None? then None
            else var t := Strict(exec, commands, s).value;
                 if exec(c, t).None? then None else Some(exec(c, t).value.state)
  {
    StrictAppend(exec, commands, [c], s);
    if Strict(exec, commands, s).Some? { StrictOne(exec, c, Strict(exec, commands, s).value); }
  }

  // A run that fails at some step fails as a whole.
  lemma StrictStops<C, S>(exec: (C, S) -> Option<Effect<S>>, a: seq<C>, b: seq<C>, s: S)
    requires Strict(exec, a, s).None?
    ensures Strict(exec, a + b, s).None?
  {
    StrictAppend(exec, a, b, s);
  }

  // The tables copied by the time the first k have been looked at.
  lemma {:induction false} PresentAdded(tables: seq<string>, t: string, dstTables: set<string>)
    ensures Present(tables + [t], dstTables) == Present(tables, dstTables) + if t in dstTables then [t] else []
  {
    if tables == [] {
      AppendNothing([t]);
      assert [t][1..] == [];
    } else {
      AppendTail(tables, [t]);
      PresentAdded(tables[1..], t, dstTables);
      Associative(
        if tables[0] in dstTables then [tables[0]] else [], Present(tables[1..], dstTables),
        if t in dstTables then [t] else []);
    }
  }

  lemma {:induction false} RowSumAdded<R>(src: map<string, seq<R>>, tables: seq<string>, t: string)
    ensures RowSum(src, tables + [t]) == RowSum(src, tables) + if t in src then |src[t]| else 0
  {
    if tables == [] {
      AppendNothing([t]);
      assert [t][1..] == [];
    } else {
      AppendTail(tables, [t]);
      RowSumAdded(src, tables[1..], t);
    }
  }

  lemma {:induction false} PresentPrefix(tables: seq<string>, rest: seq<string>, dstTables: set<string>)
    ensures Present(tables + rest, dstTables) == Present(tables, dstTables) + Present(rest, dstTables)
  {
    if tables == [] {
      AppendNothing(rest);
      AppendNothing(Present(rest, dstTables));
    } else {
      AppendTail(tables, rest);
      PresentPrefix(tables[1..], rest, dstTables);
    }
  }

  lemma {:induction false} CopiesAppend(a: seq<string>, b: seq<string>)
    ensures Copies(a + b) == Copies(a) + Copies(b)
  {
    if a == [] {
      AppendNothing(b);
      AppendNothing(Copies(b));
    } else {
      AppendTail(a, b);
      CopiesAppend(a[1..], b);
    }
  }

  // If the copy of the first tables fails, so does the copy of all.
  lemma CopyStops<S>(
    exec: (Command, S) -> Option<Effect<S>>, seen: seq<string>, rest: seq<string>, dstTables: set<string>, s: S)
    requires Strict(exec, [SetReplica(true)] + Copies(Present(seen, dstTables)), s).None?
    ensures Strict(exec, RowCopy(Present(seen + rest, dstTables)), s).None?
  {
    hide Copies, Present, Strict;
    var done, more := Present(seen, dstTables), Present(rest, dstTables);
    PresentPrefix(seen, rest, dstTables);
    CopiesAppend(done, more);
    var first := [SetReplica(true)] + Copies(done);
    StrictStops(exec, first, Copies(more) + [SetReplica(false)], s);
    Associative(first, Copies(more), [SetReplica(false)]);
    Associative([SetReplica(true)], Copies(done), Copies(more));
  }

  /**
   * The copy phase. Every row of the tables present on both sides is copied, or the whole phase is thrown; the
   * best-effort steps then act on the copied rows as if each had been tried by itself.
   */
  method CopyData<R>(trx: Transaction<Command, Db<R>>, ghost server: Server<R>,
                     srcTables: seq<string>, dstTables: set<string>, clearSessions: bool)
    returns (thrown: bool, rowsCopied: nat)
    requires !trx.aborted && trx.savepoints == [] && trx.exec == Executor(server)
    modifies trx
    ensures var tables := Present(Copyable(srcTables), dstTables);
            var copied := Strict(trx.exec, RowCopy(tables), old(trx.state));
            && thrown == copied.None?
            && (!thrown ==>
                  && !trx.aborted
                  && trx.state == Forgiving(trx.exec, BestEffort(Copyable(srcTables), clearSessions), copied.value)
                  && |trx.savepoints| ==
                     |Failing(trx.exec, BestEffort(Copyable(srcTables), clearSessions), copied.value)|
                  && rowsCopied == RowSum(old(trx.state).src, tables))
  {
    ghost var exec, s := trx.exec, trx.state;
    var copyable := Copyable(srcTables);
    rowsCopied := 0;
    var started, _ := trx.Query(SetReplica(true));
    CopyBegins(server, copyable, dstTables, s);
    if !started { return true, 0; }
    hide *;
    for k := 0 to |copyable|
      invariant !trx.aborted && trx.savepoints == []
      invariant CopiedSoFar(server, copyable[..k], dstTables, s, trx.state, rowsCopied)
    {
      var table := copyable[k];
      assert copyable[..k + 1] == copyable[..k] + [table];
      assert copyable == copyable[..k + 1] + copyable[k + 1..];
      if table in dstTables {
        CopyGoesOn(server, copyable[..k], table, copyable[k + 1..], dstTables, s, trx.state, rowsCopied);
        var ok, n := trx.Query(CopyTable(table));
        if !ok { return true, 0; }
        rowsCopied := rowsCopied + n;
      } else {
        CopySkips(server, copyable[..k], table, dstTables, s, trx.state, rowsCopied);
      }
    }
    assert copyable[..|copyable|] == copyable;
    CopyEnds(server, copyable, dstTables, s, trx.state, rowsCopied);
    var ended, _ := trx.Query(SetReplica(false));
    if !ended { return true, 0; }
    BestEffortSteps(exec, copyable, clearSessions, trx.state);
    if clearSessions {
      var failed, _ := RunWithSavepoint(trx, "clear_tokens", ClearTable(ACCESS_TOKENS));
    }
    thrown := ResetIntegerSequences(trx, copyable);
  }

  // ---------- The proof of the copy phase, step by step ----------

  // The tables looked at so far are copied, as far as they are present, and their rows are counted.
  ghost predicate CopiedSoFar<R>(
    server: Server<R>, seen: seq<string>, dstTables: set<string>, before: Db<R>, now: Db<R>, rowsCopied: nat)
  {
    var tables := Present(seen, dstTables);
    && Strict(Executor(server), [SetReplica(true)] + Copies(tables), before) == Some(now)
    && now.src == before.src
    && rowsCopied == RowSum(before.src, tables)
  }

  lemma CopyBegins<R>(server: Server<R>, copyable: seq<string>, dstTables: set<string>, s: Db<R>)
    ensures var e := Executor(server)(SetReplica(true), s);
            && (e.None? ==> Strict(Executor(server), RowCopy(Present(copyable, dstTables)), s).None?)
            && (e.Some? ==> CopiedSoFar(server, copyable[..0], dstTables, s, e.value.state, 0))
  {
    var exec := Executor(server);
    StrictOne(exec, SetReplica(true), s);
    AppendNothing([SetReplica(true)]);
    if exec(SetReplica(true), s).None? { CopyStops(exec, [], copyable, dstTables, s); }
  }

  lemma CopySkips<R>(
    server: Server<R>, seen: seq<string>, table: string, dstTables: set<string>, s: Db<R>, now: Db<R>, n: nat)
    requires CopiedSoFar(server, seen, dstTables, s, now, n) && table !in dstTables
    ensures CopiedSoFar(server, seen + [table], dstTables, s, now, n)
  {
    PresentAdded(seen, table, dstTables);
    AppendNothing(Present(seen, dstTables));
  }

  lemma CopyGoesOn<R>(
    server: Server<R>, seen: seq<string>, table: string, rest: seq<string>, dstTables: set<string>,
    s: Db<R>, now: Db<R>, n: nat)
    requires CopiedSoFar(server, seen, dstTables, s, now, n) && table in dstTables
    ensures var e := Executor(server)(CopyTable(table), now);
            && (e.None? ==>
                  Strict(Executor(server), RowCopy(Present(seen + [table] + rest, dstTables)), s).None?)
            && (e.Some? ==>
                  CopiedSoFar(server, seen + [table], dstTables, s, e.value.state, n + e.value.rowCount))
  {
    var exec, done := Executor(server), Present(seen, dstTables);
    var e := exec(CopyTable(table), now);
    assert e.Some? ==> table in s.src && e.value.state.src == s.src && e.value.rowCount == |s.src[table]|;
    PresentAdded(seen, table, dstTables);
    ResetAdded(done, table);
    RowSumAdded(s.src, done, table);
    hide Copies, Present, RowSum, Strict, Exec;
    Associative([SetReplica(true)], Copies(done), [CopyTable(table)]);
    StrictSnoc(exec, [SetReplica(true)] + Copies(done), CopyTable(table), s);
    if e.None? { CopyStops(exec, seen + [table], rest, dstTables, s); }
  }

  lemma CopyEnds<R>(
    server: Server<R>, copyable: seq<string>, dstTables: set<string>, s: Db<R>, now: Db<R>, n: nat)
    requires CopiedSoFar(server, copyable, dstTables, s, now, n)
    ensures var e := Executor(server)(SetReplica(false), now);
            Strict(Executor(server), RowCopy(Present(copyable, dstTables)), s) ==
            if e.None? then None else Some(e.value.state)
    ensures n == RowSum(s.src, Present(copyable, dstTables))
  {
    hide Copies, Present, RowSum, Strict, Exec;
    StrictSnoc(Executor(server), [SetReplica(true)] + Copies(Present(copyable, dstTables)), SetReplica(false), s);
  }

  lemma BestEffortSteps<S>(
    exec: (Command, S) -> Option<Effect<S>>, copyable: seq<string>, clearSessions: bool, s: S)
    ensures var e := if clearSessions then exec(ClearTable(ACCESS_TOKENS), s) else None;
            var t := if e.Some? then e.value.state else s;
            && Forgiving(exec, BestEffort(copyable, clearSessions), s) == Forgiving(exec, Resets(copyable), t)
            && |Failing(exec, BestEffort(copyable, clearSessions), s)| ==
               (if clearSessions && e.None? then 1 else 0) + |Failing(exec, Resets(copyable), t)|
  {
    AppendNothing(Resets(copyable));
    if clearSessions {
      var clear := [ClearTable(ACCESS_TOKENS)];
      assert clear[1..] == [];
      hide Resets, ACCESS_TOKENS;
      ForgivingAppend(exec, clear, Resets(copyable), s);
    }
  }

  lemma {:induction false} ForgivingAppend<C, S>(exec: (C, S) -> Option<Effect<S>>, a: seq<C>, b: seq<C>, s: S)
    ensures Forgiving(exec, a + b, s) == Forgiving(exec, b, Forgiving(exec, a, s))
    ensures Failing(exec, a + b, s) == Failing(exec, a, s) + Failing(exec, b, Forgiving(exec, a, s))
  {
    if a == [] {
      AppendNothing(b);
      AppendNothing(Failing(exec, b, s));
    } else {
      AppendTail(a, b);
      var e := exec(a[0], s);
      ForgivingAppend(exec, a[1..], b, if e.Some? then e.value.state else s);
    }
  }

  // ---------- The whole clone ----------

  datatype Status = Provisioning | Active | Failed

  class Tenant {
    var status: Status

    constructor ()
      ensures status == Provisioning
    {
      status := Provisioning;
    }
  }

  // What the steps around the copy come to: the tables that the migrations create, if all goes well, and whether the
  // tables can be listed, the copy can be committed, the tenant can be saved as active, and a failed destination can be
  // dropped.
  datatype Surroundings<R> = Surroundings(
    provisions: bool, migrations: Option<map<string, seq<R>>>, lists: bool, commits: bool, saves: bool, drops: bool)

  // The storage with an empty destination, and with the migrated one.
  function Emptied<R>(db: Db<R>): Db<R> { db.(dst := map[]) }

  function Migrated<R>(db: Db<R>, around: Surroundings<R>): Db<R> {
    if !around.provisions then db
    else if around.migrations.None? then Emptied(db)
    else db.(dst := around.migrations.value)
  }

  // What the copy phase commits, if it does not fail.
  function Copied<R>(server: Server<R>, db: Db<R>, srcTables: seq<string>, clearSessions: bool): Option<Db<R>> {
    var copied := Strict(Executor(server), RowCopy(Present(Copyable(srcTables), db.dst.Keys)), db);
    if copied.None? then None
    else Some(Forgiving(Executor(server), BestEffort(Copyable(srcTables), clearSessions), copied.value))
  }

  /**
   * Cloning a tenant. It ends with an active destination that holds what the copy phase left, or with a failed one,
   * which is dropped if it can be. A copy that fails or cannot be committed leaves nothing; one that is committed stays
   * if only the tenant cannot be saved and the destination not be dropped.
   */
  method Clone<R>(storage: Storage<Db<R>>, destination: Tenant, server: Server<R>, around: Surroundings<R>,
                  srcTables: seq<string>, schemaOnly: bool, clearSessions: bool)
    returns (ok: bool, rowsCopied: nat)
    modifies storage, destination
    ensures var ready := Migrated(old(storage.committed), around);
            var copied := if schemaOnly then Some(ready) else Copied(server, ready, srcTables, clearSessions);
            var committed := around.provisions && around.migrations.Some? && copied.Some?
                             && (schemaOnly || (around.lists && around.commits));
            && ok == (committed && around.saves)
            && destination.status == (if ok then Active else Failed)
            && (ok && !schemaOnly ==>
                  rowsCopied == RowSum(ready.src, Present(Copyable(srcTables), ready.dst.Keys)))
            && var left := if committed then copied.value else ready;
               storage.committed == if !ok && around.drops then Emptied(left) else left
    ensures !ok && around.drops ==> storage.committed.dst == map[]
    ensures !around.provisions && !around.drops ==> storage.committed == old(storage.committed)
    ensures ok ==>
              var ready := old(storage.committed).(dst := around.migrations.value);
              if schemaOnly then storage.committed == ready
              else Copied(server, ready, srcTables, clearSessions) == Some(storage.committed)
  {
    hide Copied, Present, Copyable, Copies, BestEffort, RowSum;
    rowsCopied := 0;
    ok := around.provisions;
    if ok {
      storage.committed := Emptied(storage.committed);
      ok := around.migrations.Some?;
    }
    if ok {
      storage.committed := storage.committed.(dst := around.migrations.value);
      ghost var ready := storage.committed;
      if !schemaOnly {
        ok := around.lists;
        if ok {
          var trx := new Transaction(Executor(server), storage.committed);
          var thrown, n := CopyData(trx, server, srcTables, storage.committed.dst.Keys, clearSessions);
          CopiedIs(server, ready, srcTables, clearSessions);
          if thrown || !around.commits {
            ok := false;
          } else {
            // COMMIT of an aborted transaction would roll it back without an error
            if !trx.aborted {
              storage.committed := trx.state;
            }
            rowsCopied := n;
          }
        }
      }
    }
    if ok && around.saves {
      destination.status := Active;
    } else {
      ok := false;
      destination.status := Failed;
      if around.drops {
        storage.committed := Emptied(storage.committed);
      }
    }
  }

  lemma CopiedIs<R>(server: Server<R>, db: Db<R>, srcTables: seq<string>, clearSessions: bool)
    ensures var copied := Strict(Executor(server), RowCopy(Present(Copyable(srcTables), db.dst.Keys)), db);
            Copied(server, db, srcTables, clearSessions) ==
            if copied.None? then None
            else Some(Forgiving(Executor(server), BestEffort(Copyable(srcTables), clearSessions), copied.value))
  {
  }

  // ---------- What a clone promises ----------

  lemma MigrationTables()
    ensures forall t :: t in MIGRATION_TABLES <==> t == "adonis_schema" || t == "adonis_schema_versions"
  {
  }

  lemma {:induction false} CopyableIs(srcTables: seq<string>)
    requires Distinct(srcTables)
    ensures Distinct(Copyable(srcTables))
    ensures forall t :: t in Copyable(srcTables) <==> t in srcTables && t !in MIGRATION_TABLES
  {
    hide MIGRATION_TABLES;
    if srcTables != [] {
      CopyableIs(srcTables[1..]);
      Uncons(srcTables);
    }
  }

  /** All source tables but those of the migrations are copied, each once. */
  lemma CopyableTables(srcTables: seq<string>)
    requires Distinct(srcTables)
    ensures Distinct(Copyable(srcTables))
    ensures forall t :: t in Copyable(srcTables) <==>
              t in srcTables && t != "adonis_schema" && t != "adonis_schema_versions"
  {
    CopyableIs(srcTables);
    MigrationTables();
    hide Copyable, Distinct, MIGRATION_TABLES;
  }

  /**
   * The commands of a clone: the triggers are off while the rows of each table are copied, then the access tokens are
   * cleared, on request, and every sequence is reset.
   */
  lemma CommandsOfClone(tables: seq<string>, all: seq<string>, clearSessions: bool)
    ensures var copy, more := RowCopy(tables), BestEffort(all, clearSessions);
            var n := if clearSessions then 1 else 0;
            && |copy| == |tables| + 2 && copy[0] == SetReplica(true) && copy[|tables| + 1] == SetReplica(false)
            && (forall k :: 0 <= k < |tables| ==> copy[k + 1] == CopyTable(tables[k]))
            && |more| == n + |all| && (clearSessions ==> more[0] == ClearTable("auth_access_tokens"))
            && (forall k :: 0 <= k < |all| ==> more[n + k] == ResetSequence(all[k]))
  {
    CommandAt(tables);
    CommandAt(all);
  }

  lemma {:induction false} CommandAt(tables: seq<string>)
    ensures |Copies(tables)| == |Resets(tables)| == |tables|
    ensures forall k :: 0 <= k < |tables| ==>
              Copies(tables)[k] == CopyTable(tables[k]) && Resets(tables)[k] == ResetSequence(tables[k])
  {
    if tables != [] { CommandAt(tables[1..]); }
  }

  /** The rows that a clone counts are those of each table that it copies. */
  lemma {:induction false} RowsCounted<R>(src: map<string, seq<R>>, before: seq<string>, t: string, after: seq<string>)
    ensures RowSum(src, []) == 0
    ensures RowSum(src, before + [t] + after) ==
            RowSum(src, before) + (if t in src then |src[t]| else 0) + RowSum(src, after)
  {
    if before == [] {
      assert [] + [t] + after == [t] + after;
      ConsTail(t, after);
    } else {
      assert before + [t] + after == [before[0]] + (before[1..] + [t] + after);
      ConsTail(before[0], before[1..] + [t] + after);
      RowsCounted(src, before[1..], t, after);
    }
  }

  lemma {:induction false} PresentTables(tables: seq<string>, dstTables: set<string>)
    requires Distinct(tables)
    ensures Distinct(Present(tables, dstTables))
    ensures forall t :: t in Present(tables, dstTables) <==> t in tables && t in dstTables
  {
    if tables != [] {
      PresentTables(tables[1..], dstTables);
      Uncons(tables);
    }
  }

  lemma CopyAddsRows<R>(server: Server<R>, t: string, db: Db<R>)
    ensures var e := Executor(server)(CopyTable(t), db);
            e.Some? ==>
              && t in db.src && t in db.dst && e.value.state.dst == db.dst[t := db.dst[t] + db.src[t]]
              && e.value.state.src == db.src && e.value.state.sequences == db.sequences
  {
  }

  // Copying tables one after the other: each gets the rows of its source once.
  lemma {:induction false} CopiesAddRows<R>(server: Server<R>, tables: seq<string>, db: Db<R>)
    requires Distinct(tables) && Strict(Executor(server), Copies(tables), db).Some?
    ensures var after := Strict(Executor(server), Copies(tables), db).value;
            && after.src == db.src && after.sequences == db.sequences && after.dst.Keys == db.dst.Keys
            && (forall t :: t in tables ==> t in db.src && t in db.dst)
            && (forall t :: t in db.dst ==>
                  after.dst[t] == if t in tables then db.dst[t] + db.src[t] else db.dst[t])
  {
    if tables != [] {
      var t, rest := tables[0], tables[1..];
      ConsTail(CopyTable(t), Copies(rest));
      CopyAddsRows(server, t, db);
      var e := Executor(server)(CopyTable(t), db);
      assert Strict(Executor(server), Copies(tables), db) == Strict(Executor(server), Copies(rest), e.value.state);
      hide Exec, Strict, Copies;
      CopiesAddRows(server, rest, e.value.state);
      Uncons(tables);
      assert t !in rest;
      assert forall x :: x in tables <==> x == t || x in rest;
    }
  }

  lemma RowCopyAddsRows<R>(server: Server<R>, tables: seq<string>, db: Db<R>)
    requires Distinct(tables) && Strict(Executor(server), RowCopy(tables), db).Some?
    ensures var after := Strict(Executor(server), RowCopy(tables), db).value;
            && after.src == db.src && after.dst.Keys == db.dst.Keys && !after.replica
            && (forall t :: t in tables ==> t in db.src && t in db.dst)
            && (forall t :: t in db.dst ==>
                  after.dst[t] == if t in tables then db.dst[t] + db.src[t] else db.dst[t])
  {
    var exec := Executor(server);
    StrictAppend(exec, [SetReplica(true)] + Copies(tables), [SetReplica(false)], db);
    StrictAppend(exec, [SetReplica(true)], Copies(tables), db);
    StrictOne(exec, SetReplica(true), db);
    var begun := exec(SetReplica(true), db).value.state;
    StrictOne(exec, SetReplica(false), Strict(exec, Copies(tables), begun).value);
    CopiesAddRows(server, tables, begun);
  }

  // Resetting sequences touches no row, whatever fails.
  lemma {:induction false} ResetsKeepRows<R>(server: Server<R>, tables: seq<string>, db: Db<R>)
    ensures var after := Forgiving(Executor(server), Resets(tables), db);
            after.src == db.src && after.dst == db.dst && after.replica == db.replica
  {
    if tables != [] {
      var e := Executor(server)(ResetSequence(tables[0]), db);
      ResetsKeepRows(server, tables[1..], if e.Some? then e.value.state else db);
    }
  }

  /**
   * The rows of a clone. Whatever the best-effort steps did, each destination table holds what it held and then the
   * rows of its source, unless it belongs to the migrations; only the access tokens may have been cleared, on request.
   */
  lemma CloneKeepsRows<R>(server: Server<R>, db: Db<R>, srcTables: seq<string>, clearSessions: bool)
    requires Distinct(srcTables) && forall t :: t in srcTables <==> t in db.src
    requires Copied(server, db, srcTables, clearSessions).Some?
    ensures var after := Copied(server, db, srcTables, clearSessions).value;
            && after.src == db.src && after.dst.Keys == db.dst.Keys && !after.replica
            && forall t :: t in db.dst ==>
                 var copied := t in db.src && t != "adonis_schema" && t != "adonis_schema_versions";
                 var rows := if copied then db.dst[t] + db.src[t] else db.dst[t];
                 after.dst[t] == rows || (clearSessions && t == "auth_access_tokens" && after.dst[t] == [])
  {
    MigrationTables();
    assert ACCESS_TOKENS == "auth_access_tokens";
    hide MIGRATION_TABLES, ACCESS_TOKENS, Present, Copyable, RowCopy, Strict, Resets;
    var copyable := Copyable(srcTables);
    var tables := Present(copyable, db.dst.Keys);
    CopyableTables(srcTables);
    PresentTables(copyable, db.dst.Keys);
    RowCopyAddsRows(server, tables, db);
    var copied := Strict(Executor(server), RowCopy(tables), db).value;
    BestEffortSteps(Executor(server), copyable, clearSessions, copied);
    var e := if clearSessions then Executor(server)(ClearTable(ACCESS_TOKENS), copied) else None;
    ResetsKeepRows(server, copyable, if e.Some? then e.value.state else copied);
  }

  // Characters that a savepoint name does not tell apart.
  predicate Alike(c: char, d: char) { c == d || ((c == '_' || !IsWordChar(c)) && (d == '_' || !IsWordChar(d))) }

  /**
   * Savepoint names do repeat: two names get the same savepoint exactly if they are alike in their first 40 characters,
   * and as long as each other or both at least 40 long.
   */
  lemma SavepointNamesCollide(a: string, b: string)
    ensures SavepointName(a) == SavepointName(b) <==>
            && (|a| == |b| || (|a| >= 40 && |b| >= 40))
            && forall i :: 0 <= i < |a| && i < |b| && i < 40 ==> Alike(a[i], b[i])
  {
    SavepointNameIs(a);
    SavepointNameIs(b);
    var s, t := SavepointName(a), SavepointName(b);
    hide SavepointName, Alike;
    if s == t {
      forall i | 0 <= i < |a| && i < |b| && i < 40 ensures Alike(a[i], b[i]) {
        assert s[3 + i] == t[3 + i];
        AlikeIs(a[i], b[i]);
      }
    }
    if |s| == |t| && forall i :: 0 <= i < |a| && i < |b| && i < 40 ==> Alike(a[i], b[i]) {
      forall k | 0 <= k < |s| ensures s[k] == t[k] {
        if k >= 3 { AlikeIs(a[k - 3], b[k - 3]); }
      }
    }
  }

  lemma AlikeIs(c: char, d: char)
    ensures Alike(c, d) <==> Cleaned(c) == Cleaned(d)
  {
  }

  lemma SavepointNameIs(name: string)
    ensures var s := SavepointName(name);
            && |s| == 3 + (if |name| <= 40 then |name| else 40) && s[..3] == "sp_"
            && forall i :: 0 <= i < |name| && i < 40 ==> s[3 + i] == Cleaned(name[i])
  {
  }
}
