/** Importing a SQL dump into a tenant: a dry run, or one transaction with a savepoint around every statement. */
module SqlImport {
  import opened Text
  import opened Seqs
  import opened Wrappers
  import opened PgTransaction
  import opened CopyBlocks

  // ---------- Statements that are not run ----------

  // /^SET\s+search_path/i
  predicate SetsSearchPath(s: string) {
    StartsWithWord(s, "set") && SpaceRun(s[3..]) > 0 && StartsWithWord(TrimStart(s[3..]), "search_path")
  }

  // \s*\(\s*'search_path'
  predicate SearchPathArgument(s: string) {
    var a := TrimStart(s);
    a != "" && a[0] == '(' && StartsWithWord(TrimStart(a[1..]), "'search_path'")
  }

  // /^SELECT\s+pg_catalog\.set_config\s*\(\s*'search_path'/i
  predicate SelectsSetConfig(s: string) {
    StartsWithWord(s, "select") && SpaceRun(s[6..]) > 0 &&
    StartsWithWord(TrimStart(s[6..]), "pg_catalog.set_config") && SearchPathArgument(TrimStart(s[6..])[21..])
  }

  // /^\\[a-z]/i
  predicate IsMetaCommand(s: string) { |s| >= 2 && s[0] == '\\' && IsLetter(s[1]) }

  predicate ShouldSkip(stmt: string) {
    var s := TrimStart(stmt);
    SetsSearchPath(s) || SelectsSetConfig(s) || IsMetaCommand(s)
  }

  // ---------- What an import reports ----------

  datatype Mode = Transactional | DryRun

  datatype Result = Result(
    total: nat, executed: nat, skipped: nat, copyBlocks: nat, copyRows: nat, errors: seq<string>, mode: Mode)

  datatype Outcome = Done(result: Result) | Thrown | NeedsPsql

  /** The statements of the dump that are to be run, in order. */
  function ToRun(tokens: seq<Token>): seq<string> {
    if tokens == [] then []
    else
      (if tokens[0].Sql? && !ShouldSkip(tokens[0].text) then [tokens[0].text] else []) + ToRun(tokens[1..])
  }

  function Skipped(tokens: seq<Token>): nat {
    if tokens == [] then 0
    else (if tokens[0].Sql? && ShouldSkip(tokens[0].text) then 1 else 0) + Skipped(tokens[1..])
  }

  function CopyCount(tokens: seq<Token>): nat {
    if tokens == [] then 0 else (if tokens[0].Copy? then 1 else 0) + CopyCount(tokens[1..])
  }

  function RowTotal(tokens: seq<Token>): nat {
    if tokens == [] then 0 else (if tokens[0].Copy? then |tokens[0].rows| else 0) + RowTotal(tokens[1..])
  }

  // stmt.slice(0, 200), as an error report quotes a statement
  function Quoted(stmt: string): string { if |stmt| <= 200 then stmt else stmt[..200] }

  function Reports(failed: seq<string>): (r: seq<string>)
    ensures |r| == |failed| && forall k :: 0 <= k < |r| ==> r[k] == Quoted(failed[k])
    ensures forall k :: 0 <= k < |r| ==> r[k] == if |failed[k]| <= 200 then failed[k] else failed[k][..200]
  {
    seq(|failed|, k requires 0 <= k < |failed| => Quoted(failed[k]))
  }

  lemma {:induction false} TokenAdded(tokens: seq<Token>, t: Token)
    ensures ToRun(tokens + [t]) == ToRun(tokens) + if t.Sql? && !ShouldSkip(t.text) then [t.text] else []
    ensures Skipped(tokens + [t]) == Skipped(tokens) + if t.Sql? && ShouldSkip(t.text) then 1 else 0
    ensures CopyCount(tokens + [t]) == CopyCount(tokens) + if t.Copy? then 1 else 0
    ensures RowTotal(tokens + [t]) == RowTotal(tokens) + if t.Copy? then |t.rows| else 0
  {
    hide ShouldSkip;
    if tokens == [] {
      assert [] + [t] == [t] && [t][1..] == [];
    } else {
      assert (tokens + [t])[1..] == tokens[1..] + [t];
      TokenAdded(tokens[1..], t);
    }
  }

  /** Every token is counted once. */
  lemma {:induction false} EveryTokenCounted(tokens: seq<Token>)
    ensures |ToRun(tokens)| + Skipped(tokens) + CopyCount(tokens) == |tokens|
    ensures CopyCount(tokens) == 0 <==> forall k :: 0 <= k < |tokens| ==> tokens[k].Sql?
  {
    hide ShouldSkip;
    if tokens != [] {
      EveryTokenCounted(tokens[1..]);
      assert forall k :: 0 <= k < |tokens| ==> tokens[k] == if k == 0 then tokens[0] else tokens[1..][k - 1];
    }
  }

  method DryRunImport(tokens: seq<Token>) returns (result: Result)
    ensures result == Result(
      |tokens|, |ToRun(tokens)|, Skipped(tokens), CopyCount(tokens), RowTotal(tokens), [], DryRun)
  {
    var executed, skipped, copyBlocks, copyRows := 0, 0, 0, 0;
    hide ToRun, Skipped, CopyCount, RowTotal, ShouldSkip;
    NothingRun();
    for k := 0 to |tokens|
      invariant executed == |ToRun(tokens[..k])| && skipped == Skipped(tokens[..k])
      invariant copyBlocks == CopyCount(tokens[..k]) && copyRows == RowTotal(tokens[..k])
    {
      TokenAdded(tokens[..k], tokens[k]);
      assert tokens[..k + 1] == tokens[..k] + [tokens[k]];
      match tokens[k]
      case Copy(_, rows) =>
        copyBlocks := copyBlocks + 1;
        copyRows := copyRows + |rows|;
      case Sql(text) =>
        if ShouldSkip(text) {
          skipped := skipped + 1;
        } else {
          executed := executed + 1;
        }
    }
    assert tokens[..|tokens|] == tokens;
    result := Result(|tokens|, executed, skipped, copyBlocks, copyRows, [], DryRun);
  }

  lemma NothingRun()
    ensures ToRun([]) == [] && Skipped([]) == 0 && CopyCount([]) == 0 && RowTotal([]) == 0
  {
  }

  const SET_REPLICA: string := "SET LOCAL session_replication_role = replica"
  const SET_DEFAULT: string := "SET LOCAL session_replication_role = DEFAULT"

  function SavepointName(index: nat): string { "_import_sp_" + Decimal(index) }

  // One statement in its own savepoint: it takes effect or leaves no trace, and the savepoint is gone either way.
  method RunStatement<S>(trx: Transaction<string, S>, sp: string, stmt: string) returns (thrown: bool, ok: bool)
    requires !trx.aborted
    modifies trx
    ensures !thrown && !trx.aborted && trx.savepoints == old(trx.savepoints)
    ensures var e := trx.exec(stmt, old(trx.state));
            ok == e.Some? && trx.state == if ok then e.value.state else old(trx.state)
  {
    ok := false;
    ghost var before := trx.savepoints;
    var set_ := trx.SetSavepoint(sp);
    if !set_ { return true, false; }
    assert trx.savepoints[|trx.savepoints| - 1].name == sp;
    var done, _ := trx.Query(stmt);
    if done {
      done := trx.Release(sp);
    }
    if done {
      ok := true;
    } else {
      var back := trx.RollbackTo(sp);
      if !back { return true, false; }
      var released := trx.Release(sp);
      if !released { return true, false; }
    }
    thrown := false;
    assert trx.savepoints == before;
  }

  // What a transactional import that ends well leaves behind and reports.
  ghost predicate Imports<S(!new)>(
    exec: (string, S) -> Option<Effect<S>>, tokens: seq<Token>, before: S, after: S, result: Result)
  {
    var start := exec(SET_REPLICA, before);
    start.Some? &&
    var s := start.value.state;
    var end := exec(SET_DEFAULT, Forgiving(exec, ToRun(tokens), s));
    && end.Some? && after == end.value.state
    && result.total == |tokens| && result.skipped == Skipped(tokens)
    && result.executed == |Succeeding(exec, ToRun(tokens), s)|
    && result.errors == Reports(Failing(exec, ToRun(tokens), s))
    && result.mode == Transactional && result.copyBlocks == result.copyRows == 0
  }

  // One of the two settings around the statements fails.
  ghost predicate SettingFails<S(!new)>(exec: (string, S) -> Option<Effect<S>>, tokens: seq<Token>, before: S) {
    var start := exec(SET_REPLICA, before);
    start.None? || exec(SET_DEFAULT, Forgiving(exec, ToRun(tokens), start.value.state)).None?
  }

  /**
   * What is done inside the transaction. It is thrown only if one of its two settings fails; otherwise the state holds
   * the effect of the statements that succeed, in order, and each statement is counted as what became of it.
   */
  method RunStatements<S(!new)>(trx: Transaction<string, S>, tokens: seq<Token>) returns (outcome: Outcome)
    requires !trx.aborted && trx.savepoints == []
    modifies trx
    ensures outcome == Thrown || outcome.Done?
    ensures outcome == Thrown <==> SettingFails(trx.exec, tokens, old(trx.state))
    ensures outcome.Done? ==> !trx.aborted && trx.savepoints == []
    ensures outcome.Done? ==> Imports(trx.exec, tokens, old(trx.state), trx.state, outcome.result)
  {
    var executed, skipped, errors := 0, 0, [];
    ghost var exec := trx.exec;
    var started, _ := trx.Query(SET_REPLICA);
    if !started { return Thrown; }
    ghost var s := trx.state;
    var spIndex := 0;
    hide ToRun, Skipped, CopyCount, RowTotal, ShouldSkip, Forgiving, Succeeding, Failing, Latest;
    NothingRun();
    NothingDone(exec, s);
    for k := 0 to |tokens|
      invariant !trx.aborted && trx.savepoints == []
      invariant trx.state == Forgiving(exec, ToRun(tokens[..k]), s)
      invariant skipped == Skipped(tokens[..k])
      invariant executed == |Succeeding(exec, ToRun(tokens[..k]), s)|
      invariant errors == Reports(Failing(exec, ToRun(tokens[..k]), s))
    {
      TokenAdded(tokens[..k], tokens[k]);
      assert tokens[..k + 1] == tokens[..k] + [tokens[k]];
      ghost var run := ToRun(tokens[..k]);
      AppendNothing(run);
      AppendNothing(Succeeding(exec, run, s));
      AppendNothing(Failing(exec, run, s));
      if tokens[k].Sql? {
        var stmt := tokens[k].text;
        if ShouldSkip(stmt) {
          skipped := skipped + 1;
        } else {
          OneMore(exec, ToRun(tokens[..k]), stmt, s);
          var thrown, ok := RunStatement(trx, SavepointName(spIndex), stmt);
          spIndex := spIndex + 1;
          if ok {
            executed := executed + 1;
          } else {
            assert errors + [Quoted(stmt)] == Reports(Failing(exec, ToRun(tokens[..k]), s) + [stmt]);
            errors := errors + [Quoted(stmt)];
          }
        }
      }
    }
    assert tokens[..|tokens|] == tokens;
    var ended, _ := trx.Query(SET_DEFAULT);
    if !ended { return Thrown; }
    outcome := Done(Result(|tokens|, executed, skipped, 0, 0, errors, Transactional));
  }

  /**
   * All statements in one transaction, which is committed as a whole or not at all: nothing is left if there is no
   * connection, a setting fails or the commit does.
   */
  method RunTransactional<S(!new)>(
    storage: Storage<S>, exec: (string, S) -> Option<Effect<S>>, tokens: seq<Token>, connects: bool, commits: bool)
    returns (outcome: Outcome)
    modifies storage
    ensures outcome == Thrown || outcome.Done?
    ensures outcome == Thrown <==> !connects || !commits || SettingFails(exec, tokens, old(storage.committed))
    ensures if outcome == Thrown then storage.committed == old(storage.committed)
            else Imports(exec, tokens, old(storage.committed), storage.committed, outcome.result)
  {
    hide SettingFails, Imports;
    if !connects { return Thrown; }
    var trx := new Transaction(exec, storage.committed);
    outcome := RunStatements(trx, tokens);
    if outcome == Thrown || !commits { return Thrown; }
    storage.committed := trx.state;
  }

  lemma NothingDone<C, S>(exec: (C, S) -> Option<Effect<S>>, s: S)
    ensures Forgiving(exec, [], s) == s && Succeeding(exec, [], s) == [] && Failing(exec, [], s) == []
  {
  }

  /**
   * Importing the text of a dump: reported only, handed to psql if it holds COPY blocks, or run statement by statement.
   */
  method Import<S(!new)>(
    storage: Storage<S>, exec: (string, S) -> Option<Effect<S>>, dump: string, dryRun: bool,
    connects: bool, commits: bool)
    returns (outcome: Outcome)
    modifies storage
    ensures var tokens := Tokens(Blocks(Lines(dump)));
            if dryRun then
              outcome == Done(Result(
                |tokens|, |ToRun(tokens)|, Skipped(tokens), CopyCount(tokens), RowTotal(tokens), [], DryRun))
              && storage.committed == old(storage.committed)
            else if CopyCount(tokens) > 0 then
              outcome == NeedsPsql && storage.committed == old(storage.committed)
            else
              && (outcome == Thrown || outcome.Done?)
              && (outcome == Thrown <==> !connects || !commits || SettingFails(exec, tokens, old(storage.committed)))
              && if outcome == Thrown then storage.committed == old(storage.committed)
                 else Imports(exec, tokens, old(storage.committed), storage.committed, outcome.result)
  {
    hide Tokens, Blocks, Lines, ToRun, Skipped, CopyCount, RowTotal, Imports, SettingFails;
    var tokens := SplitSqlStatementsTagged(dump);
    var report := DryRunImport(tokens);
    if dryRun {
      return Done(report);
    }
    if report.copyBlocks > 0 {
      return NeedsPsql;
    }
    outcome := RunTransactional(storage, exec, tokens, connects, commits);
  }

  // ---------- What an import promises ----------

  /**
   * An import leaves what the succeeding statements alone would leave, run in order between the two settings without
   * any failing.
   */
  lemma ImportReplaysTheSucceeding<S(!new)>(
    exec: (string, S) -> Option<Effect<S>>, tokens: seq<Token>, before: S, after: S, result: Result)
    requires Imports(exec, tokens, before, after, result)
    ensures var begun := exec("SET LOCAL session_replication_role = replica", before).value.state;
            var succeeding := Succeeding(exec, ToRun(tokens), begun);
            && Strict(exec, ["SET LOCAL session_replication_role = replica"] + succeeding
                            + ["SET LOCAL session_replication_role = DEFAULT"], before) == Some(after)
            && |succeeding| == result.executed
  {
    assert SET_REPLICA == "SET LOCAL session_replication_role = replica";
    assert SET_DEFAULT == "SET LOCAL session_replication_role = DEFAULT";
    hide SET_REPLICA, SET_DEFAULT, ToRun, Skipped, Succeeding, Failing, Forgiving, Reports, Strict;
    var s := exec(SET_REPLICA, before).value.state;
    var run := ToRun(tokens);
    ForgivingRunsTheSucceeding(exec, run, s);
    StrictOne(exec, SET_REPLICA, before);
    StrictOne(exec, SET_DEFAULT, Forgiving(exec, run, s));
    StrictAppend(exec, [SET_REPLICA], Succeeding(exec, run, s), before);
    StrictAppend(exec, [SET_REPLICA] + Succeeding(exec, run, s), [SET_DEFAULT], before);
  }

  /**
   * Every statement is counted once, as executed, skipped or an error, and a dry run counts as executed exactly the
   * statements that the import executes or reports.
   */
  lemma ImportCounts<S(!new)>(
    exec: (string, S) -> Option<Effect<S>>, tokens: seq<Token>, before: S, after: S, result: Result)
    requires CopyCount(tokens) == 0 && Imports(exec, tokens, before, after, result)
    ensures result.executed + result.skipped + |result.errors| == result.total
    ensures |ToRun(tokens)| == result.executed + |result.errors|
  {
    hide SET_REPLICA, SET_DEFAULT, ToRun, Skipped, CopyCount, Succeeding, Failing, Forgiving;
    var s := exec(SET_REPLICA, before).value.state;
    EveryTokenCounted(tokens);
    ForgivingRunsTheSucceeding(exec, ToRun(tokens), s);
    var succeeding, failing := Succeeding(exec, ToRun(tokens), s), Failing(exec, ToRun(tokens), s);
    assert |multiset(ToRun(tokens))| == |multiset(succeeding)| + |multiset(failing)|;
  }
}
