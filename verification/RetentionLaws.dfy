/** What retention promises over whole runs of backups and sweeps. */
module RetentionLaws {
  import opened Seqs
  import opened BackupRetention

  // ---------- Sorting by recency ----------

  ghost predicate NewestFirst(list: seq<Meta>) {
    forall i, j :: 0 <= i < j < |list| ==> list[i].timestamp >= list[j].timestamp
  }

  function AtTime(list: seq<Meta>, t: int): seq<Meta> {
    if list == [] then []
    else (if list[0].timestamp == t then [list[0]] else []) + AtTime(list[1..], t)
  }

  lemma NewestFirstCons(m: Meta, list: seq<Meta>)
    ensures NewestFirst([m] + list) <==> (forall x :: x in list ==> x.timestamp <= m.timestamp) && NewestFirst(list)
  {
    var all := [m] + list;
    assert forall i :: 0 <= i < |list| ==> all[i + 1] == list[i];
    if NewestFirst(all) {
      forall i, j | 0 <= i < j < |list| ensures list[i].timestamp >= list[j].timestamp {
        assert all[i + 1].timestamp >= all[j + 1].timestamp;
      }
      forall i | 0 <= i < |list| ensures list[i].timestamp <= m.timestamp {
        assert all[0].timestamp >= all[i + 1].timestamp;
      }
    }
  }

  lemma {:induction false} InsertKeeps(m: Meta, list: seq<Meta>)
    ensures multiset(Insert(m, list)) == multiset(list) + multiset{m}
    ensures forall x :: x in Insert(m, list) <==> x == m || x in list
  {
    MultisetCons(m, list);
    if list != [] && list[0].timestamp > m.timestamp {
      InsertKeeps(m, list[1..]);
      Uncons(list);
      MultisetCons(list[0], list[1..]);
      MultisetCons(list[0], Insert(m, list[1..]));
    }
  }

  lemma {:induction false} InsertOrders(m: Meta, list: seq<Meta>)
    requires NewestFirst(list)
    ensures NewestFirst(Insert(m, list))
  {
    NewestFirstCons(m, list);
    if list != [] {
      var y, rest := list[0], list[1..];
      Uncons(list);
      NewestFirstCons(y, rest);
      MultisetCons(y, rest);
      if y.timestamp > m.timestamp {
        InsertOrders(m, rest);
        InsertKeeps(m, rest);
        NewestFirstCons(y, Insert(m, rest));
      }
    }
  }

  lemma {:induction false} InsertIsStable(m: Meta, list: seq<Meta>, t: int)
    ensures AtTime(Insert(m, list), t) == (if m.timestamp == t then [m] else []) + AtTime(list, t)
  {
    ConsTail(m, list);
    if list != [] && list[0].timestamp > m.timestamp {
      InsertIsStable(m, list[1..], t);
      ConsTail(list[0], Insert(m, list[1..]));
      AppendNothing(AtTime(list, t));
      AppendNothing(AtTime(list[1..], t));
      AppendNothing(AtTime(Insert(m, list[1..]), t));
    }
  }

  /** Sorting puts the newest first, keeps every entry, and keeps the order of entries of one time. */
  lemma {:induction false} SortSorts(list: seq<Meta>)
    ensures NewestFirst(SortedByRecency(list)) && multiset(SortedByRecency(list)) == multiset(list)
    ensures forall t :: AtTime(SortedByRecency(list), t) == AtTime(list, t)
    ensures |SortedByRecency(list)| == |list|
  {
    if list != [] {
      var m, rest := list[0], list[1..];
      SortSorts(rest);
      InsertKeeps(m, SortedByRecency(rest));
      InsertOrders(m, SortedByRecency(rest));
      Uncons(list);
      MultisetCons(m, rest);
      hide NewestFirst, Insert;
      forall t ensures AtTime(SortedByRecency(list), t) == AtTime(list, t) {
        InsertIsStable(m, SortedByRecency(rest), t);
      }
    }
    assert |SortedByRecency(list)| == |multiset(SortedByRecency(list))| == |multiset(list)| == |list|;
  }

  lemma {:induction false} SortedStays(list: seq<Meta>)
    requires NewestFirst(list)
    ensures SortedByRecency(list) == list
  {
    if list != [] {
      Uncons(list);
      NewestFirstCons(list[0], list[1..]);
      SortedStays(list[1..]);
    }
  }

  /** The plan splits the backups in two, and what it keeps is at least as recent as what it purges. */
  lemma PlanSplits(list: seq<Meta>, keepLast: int)
    ensures var plan := PlanFor(list, keepLast);
            && multiset(plan.kept) + multiset(plan.purged) == multiset(list)
            && NewestFirst(plan.kept + plan.purged)
            && (keepLast >= 0 ==> |plan.kept| == if keepLast <= |list| then keepLast else |list|)
  {
    SortSorts(list);
    var plan := PlanFor(list, keepLast);
    assert plan.kept + plan.purged == SortedByRecency(list);
    assert multiset(plan.kept + plan.purged) == multiset(plan.kept) + multiset(plan.purged);
  }

  // ---------- Deleting ----------

  ghost predicate DistinctFiles(list: seq<Meta>) {
    forall i, j :: 0 <= i < j < |list| ==> list[i].file != list[j].file
  }

  ghost predicate Deletable(list: seq<Meta>) { forall m :: m in list ==> ValidFileName(m.file) }

  lemma DistinctFilesCons(m: Meta, list: seq<Meta>)
    ensures DistinctFiles([m] + list) <==> m.file !in Files(list) && DistinctFiles(list)
    ensures Files([m] + list) == {m.file} + Files(list)
  {
    var all := [m] + list;
    assert forall i :: 0 <= i < |list| ==> all[i + 1] == list[i];
    if DistinctFiles(all) {
      forall i, j | 0 <= i < j < |list| ensures list[i].file != list[j].file {
        assert all[i + 1].file != all[j + 1].file;
      }
      forall i | 0 <= i < |list| ensures list[i].file != m.file {
        assert all[0].file != all[i + 1].file;
      }
    }
    forall f | f in Files(list) ensures f in Files(all) {
      var i :| 0 <= i < |list| && list[i].file == f;
      assert all[i + 1].file == f;
    }
    assert all[0].file in Files(all);
  }

  lemma {:induction false} UnlistedFiles(list: seq<Meta>, file: string)
    ensures Files(Unlisted(list, file)) == Files(list) - {file}
    ensures file !in Files(list) ==> Unlisted(list, file) == list
  {
    if list == [] {
      assert Files([]) == {};
    } else {
      hide Files, DistinctFiles;
      var m, rest := list[0], list[1..];
      UnlistedFiles(rest, file);
      Uncons(list);
      DistinctFilesCons(m, rest);
      if m.file == file {
        AppendNothing(Unlisted(rest, file));
      } else {
        DistinctFilesCons(m, Unlisted(rest, file));
      }
    }
  }

  lemma {:induction false} UnlistedDistinct(list: seq<Meta>, file: string)
    requires DistinctFiles(list)
    ensures DistinctFiles(Unlisted(list, file))
  {
    if list != [] {
      var m, rest := list[0], list[1..];
      Uncons(list);
      DistinctFilesCons(m, rest);
      UnlistedDistinct(rest, file);
      UnlistedFiles(rest, file);
      DistinctFilesCons(m, Unlisted(rest, file));
      AppendNothing(Unlisted(rest, file));
      hide Files, DistinctFiles;
    }
  }

  lemma ListedFile(list: seq<Meta>, m: Meta)
    requires m in list
    ensures m.file in Files(list)
  {
    var i :| 0 <= i < |list| && list[i] == m;
    assert list[i].file == m.file;
  }

  lemma {:induction false} UnlistedOne(list: seq<Meta>, m: Meta)
    requires m in list && DistinctFiles(list)
    ensures multiset(Unlisted(list, m.file)) == multiset(list) - multiset{m}
  {
    var x, rest := list[0], list[1..];
    Uncons(list);
    DistinctFilesCons(x, rest);
    MultisetCons(x, rest);
    hide Files, DistinctFiles;
    if x.file == m.file {
      if m in rest { ListedFile(rest, m); }
      assert x == m;
      UnlistedFiles(rest, m.file);
      AppendNothing(rest);
    } else {
      UnlistedOne(rest, m);
      MultisetCons(x, Unlisted(rest, m.file));
    }
  }

  lemma DeletedOne(store: Store, m: Meta)
    requires DistinctFiles(store.list) && ValidFileName(m.file) && m in store.list
    ensures var after := Deleted(store, m.file);
            && multiset(after.list) == multiset(store.list) - multiset{m}
            && DistinctFiles(after.list) && after.disk == store.disk - {m.file}
  {
    UnlistedOne(store.list, m);
    UnlistedDistinct(store.list, m.file);
  }

  lemma PurgeUncons(purged: seq<Meta>)
    requires purged != [] && Deletable(purged)
    ensures var m, rest := purged[0], purged[1..];
            && multiset(purged) == multiset{m} + multiset(rest)
            && Files(purged) == {m.file} + Files(rest) && Deletable(rest) && ValidFileName(m.file)
  {
    Uncons(purged);
    MultisetCons(purged[0], purged[1..]);
    DistinctFilesCons(purged[0], purged[1..]);
  }

  lemma {:induction false} DeletedAllIs(store: Store, purged: seq<Meta>)
    requires DistinctFiles(store.list) && Deletable(purged) && multiset(purged) <= multiset(store.list)
    ensures var after := DeletedAll(store, purged);
            && multiset(after.list) == multiset(store.list) - multiset(purged)
            && DistinctFiles(after.list)
            && after.disk == store.disk - Files(purged)
    decreases |purged|
  {
    hide ValidFileName, DistinctFiles, Deletable, Deleted;
    if purged == [] {
      assert Files([]) == {};
    } else {
      hide Files;
      PurgeUncons(purged);
      assert purged[0] in multiset(store.list);
      DeletedOne(store, purged[0]);
      TakenAway(multiset(store.list), multiset{purged[0]}, multiset(purged[1..]));
      DeletedAllIs(Deleted(store, purged[0].file), purged[1..]);
    }
  }

  lemma DeletedAllOne(store: Store, m: Meta)
    ensures DeletedAll(store, [m]) == Deleted(store, m.file)
  {
    assert [m][1..] == [];
  }

  lemma TakenAway(all: multiset<Meta>, a: multiset<Meta>, b: multiset<Meta>)
    requires a + b <= all
    ensures all - a - b == all - (a + b) && b <= all - a
  {
  }

  /**
   * A sweep leaves exactly what its plan keeps, on the list, and takes exactly what it purges off the disk. A second
   * sweep purges nothing, unless keepLast is negative and something is left.
   */
  lemma SweepFollowsPlan(store: Store, keepLast: int)
    requires DistinctFiles(store.list) && Deletable(store.list)
    ensures var plan, after := PlanFor(store.list, keepLast), Swept(store, keepLast);
            && multiset(after.list) == multiset(plan.kept)
            && after.disk == store.disk - Files(plan.purged)
            && (PlanFor(after.list, keepLast).purged == [] <==> keepLast >= 0 || plan.kept == [])
  {
    var plan, after := PlanFor(store.list, keepLast), Swept(store, keepLast);
    PlanSplits(store.list, keepLast);
    assert forall m :: m in plan.purged ==> m in multiset(plan.purged) && m in multiset(store.list);
    DeletedAllIs(store, plan.purged);
    SweptSize(after.list, plan.kept);
    SortSorts(after.list);
    SortSorts(store.list);
    hide *;
    PurgedCount(after.list, keepLast);
    PurgedCount(store.list, keepLast);
  }

  lemma SweptSize(a: seq<Meta>, b: seq<Meta>)
    requires multiset(a) == multiset(b)
    ensures |a| == |b|
  {
    assert |a| == |multiset(a)| == |multiset(b)| == |b|;
  }

  lemma PurgedCount(list: seq<Meta>, keepLast: int)
    ensures var plan := PlanFor(list, keepLast);
            && |plan.kept| == SliceIndex(keepLast, |list|) && |plan.purged| == |list| - |plan.kept|
            && (plan.purged == [] <==> keepLast >= |list| || (keepLast < 0 && list == []))
            && (keepLast >= 0 ==> |plan.kept| <= keepLast)
  {
    SortSorts(list);
  }

  // ---------- Whole runs: every backup is followed by a sweep ----------

  /** The backups ever taken, newest first: later ones are newer, and no file name is used twice. */
  ghost predicate Proper(taken: seq<Meta>) {
    && (forall i, j :: 0 <= i < j < |taken| ==> taken[i].timestamp > taken[j].timestamp)
    && DistinctFiles(taken) && Deletable(taken)
  }

  function AfterRounds(taken: seq<Meta>, keepLast: int): Store {
    if taken == [] then Store([], {}) else Swept(BackedUp(AfterRounds(taken[1..], keepLast), taken[0]), keepLast)
  }

  function First(taken: seq<Meta>, n: nat): seq<Meta> { if |taken| <= n then taken else taken[..n] }

  lemma ProperPart(taken: seq<Meta>, n: nat)
    requires Proper(taken) && n <= |taken|
    ensures Proper(taken[..n]) && NewestFirst(taken[..n]) && Proper(taken[n..])
  {
    assert forall i :: 0 <= i < |taken| - n ==> taken[n..][i] == taken[n + i];
    assert forall m :: m in taken[..n] ==> m in taken;
    assert forall m :: m in taken[n..] ==> m in taken;
  }

  lemma FilesOfFirst(taken: seq<Meta>, n: nat)
    requires DistinctFiles(taken) && n < |taken|
    ensures Files(taken[..n + 1]) - {taken[n].file} == Files(taken[..n])
    ensures Unlisted(taken[..n + 1], taken[n].file) == taken[..n]
  {
    var front, m := taken[..n], taken[n];
    assert taken[..n + 1] == front + [m];
    forall i | 0 <= i < n ensures front[i].file != m.file {
      assert taken[i].file != taken[n].file;
    }
    FilesSnoc(front, m);
    UnlistedSnoc(front, m);
  }

  lemma FilesSnoc(list: seq<Meta>, m: Meta)
    ensures Files(list + [m]) == Files(list) + {m.file}
  {
    var all := list + [m];
    forall f | f in Files(list) + {m.file} ensures f in Files(all) {
      if f in Files(list) {
        var i :| 0 <= i < |list| && list[i].file == f;
        assert all[i].file == f;
      } else {
        assert all[|list|].file == f;
      }
    }
  }

  lemma {:induction false} UnlistedSnoc(list: seq<Meta>, m: Meta)
    requires forall i :: 0 <= i < |list| ==> list[i].file != m.file
    ensures Unlisted(list + [m], m.file) == list
  {
    if list == [] {
      AppendNothing([m]);
      assert [m][1..] == [];
    } else {
      AppendTail(list, [m]);
      UnlistedSnoc(list[1..], m);
      Uncons(list);
    }
  }

  // A sweep of the newest entries that are at most one too many.
  lemma SweepOfNewest(taken: seq<Meta>, n: nat, keepLast: nat)
    requires Proper(taken) && n <= |taken| && n <= keepLast + 1
    ensures var list := taken[..n];
            Swept(Store(list, Files(list)), keepLast) == Store(First(list, keepLast), Files(First(list, keepLast)))
  {
    var list := taken[..n];
    var store := Store(list, Files(list));
    ProperPart(taken, n);
    SortedStays(list);
    hide NewestFirst, DistinctFiles, Files, Unlisted, SortedByRecency;
    var purged := PlanFor(list, keepLast).purged;
    if n <= keepLast {
      assert purged == [];
    } else {
      assert purged == [taken[keepLast]];
      assert taken[keepLast] in taken;
      FilesOfFirst(taken, keepLast);
      assert list[..keepLast] == taken[..keepLast];
      DeletedAllOne(store, taken[keepLast]);
    }
  }

  // One round when the list holds the newest entries: below the cap, the sweep takes off what the backup adds.
  lemma RoundKeepsNewest(taken: seq<Meta>, keepLast: nat, store: Store)
    requires taken != [] && Proper(taken) && keepLast < CAP
    requires store == Store(First(taken[1..], keepLast), Files(First(taken[1..], keepLast)))
    ensures Swept(BackedUp(store, taken[0]), keepLast) == Store(First(taken, keepLast), Files(First(taken, keepLast)))
  {
    var n := |store.list| + 1;
    var list := taken[..n];
    assert [taken[0]] + store.list == list;
    DistinctFilesCons(taken[0], store.list);
    assert BackedUp(store, taken[0]) == Store(list, Files(list));
    SweepOfNewest(taken, n, keepLast);
    assert First(list, keepLast) == First(taken, keepLast);
  }

  // One round when the sweep never purges: the cap alone shortens the list.
  lemma RoundOutgrows(taken: seq<Meta>, keepLast: nat, store: Store)
    requires taken != [] && Proper(taken) && keepLast >= CAP
    requires store == Store(First(taken[1..], CAP), Files(taken[1..]))
    ensures Swept(BackedUp(store, taken[0]), keepLast) == Store(First(taken, CAP), Files(taken))
  {
    var list := First(taken, CAP);
    Uncons(taken);
    DistinctFilesCons(taken[0], taken[1..]);
    assert Capped([taken[0]] + store.list) == list;
    assert BackedUp(store, taken[0]) == Store(list, Files(taken));
    ProperPart(taken, |list|);
    assert taken[..|list|] == list;
    SortedStays(list);
    assert PlanFor(list, keepLast).purged == [];
  }

  /**
   * With keepLast below the cap, list and disk hold the newest keepLast backups ever taken; else the cap takes over.
   */
  lemma {:induction false} RoundsKeepNewest(taken: seq<Meta>, keepLast: nat)
    requires Proper(taken)
    ensures AfterRounds(taken, keepLast) ==
            if keepLast < 30 then Store(First(taken, keepLast), Files(First(taken, keepLast)))
            else Store(First(taken, 30), Files(taken))
  {
    if taken == [] {
      assert Files([]) == {};
    } else {
      ProperPart(taken, 1);
      RoundsKeepNewest(taken[1..], keepLast);
      if keepLast < CAP {
        RoundKeepsNewest(taken, keepLast, AfterRounds(taken[1..], keepLast));
      } else {
        RoundOutgrows(taken, keepLast, AfterRounds(taken[1..], keepLast));
      }
    }
  }

  /** The cap orphans a dump exactly when keepLast reaches the cap and more backups than that have been taken. */
  lemma NoOrphans(taken: seq<Meta>, keepLast: nat)
    requires Proper(taken)
    ensures var store := AfterRounds(taken, keepLast);
            store.disk == Files(store.list) <==> keepLast < 30 || |taken| <= 30
  {
    RoundsKeepNewest(taken, keepLast);
    if keepLast >= CAP && |taken| > CAP {
      var list := First(taken, CAP);
      assert taken[CAP].file in Files(taken);
      assert taken[CAP].file !in Files(list) by {
        forall i | 0 <= i < CAP ensures list[i].file != taken[CAP].file {
          assert taken[i].file != taken[CAP].file;
        }
      }
    }
  }

  // ---------- Any mix of backups, deletions and sweeps ----------

  datatype Op = TakeBackup(m: Meta) | DeleteFile(file: string) | Sweep(keepLast: int)

  function Do(store: Store, op: Op): Store {
    match op
    case TakeBackup(m) => BackedUp(store, m)
    case DeleteFile(file) => Deleted(store, file)
    case Sweep(keepLast) => Swept(store, keepLast)
  }

  function Run(ops: seq<Op>): Store {
    if ops == [] then Store([], {}) else Do(Run(ops[..|ops| - 1]), ops[|ops| - 1])
  }

  // Clocks advance and file names are new: each backup is newer than those before it and has a file name of its own.
  ghost predicate Advances(ops: seq<Op>) {
    forall i, j :: 0 <= i < j < |ops| && ops[i].TakeBackup? && ops[j].TakeBackup? ==>
      ops[i].m.timestamp < ops[j].m.timestamp && ops[i].m.file != ops[j].m.file
  }

  ghost predicate Sound(store: Store) {
    NewestFirst(store.list) && DistinctFiles(store.list) && |store.list| <= 30 && Files(store.list) <= store.disk
  }

  ghost predicate TakenBy(ops: seq<Op>, m: Meta) { exists i :: 0 <= i < |ops| && ops[i] == TakeBackup(m) }

  lemma {:induction false} UnlistedMembers(list: seq<Meta>, file: string)
    ensures forall x :: x in Unlisted(list, file) <==> x in list && x.file != file
    ensures |Unlisted(list, file)| <= |list|
    ensures NewestFirst(list) ==> NewestFirst(Unlisted(list, file))
  {
    if list != [] {
      var m, rest := list[0], list[1..];
      UnlistedMembers(rest, file);
      Uncons(list);
      MultisetCons(m, rest);
      NewestFirstCons(m, rest);
      hide NewestFirst;
      if m.file == file {
        AppendNothing(Unlisted(rest, file));
      } else {
        MultisetCons(m, Unlisted(rest, file));
        NewestFirstCons(m, Unlisted(rest, file));
      }
    }
  }

  lemma DeletedStaysSound(store: Store, file: string)
    requires Sound(store)
    ensures Sound(Deleted(store, file)) && forall x :: x in Deleted(store, file).list ==> x in store.list
  {
    UnlistedMembers(store.list, file);
    UnlistedDistinct(store.list, file);
    UnlistedFiles(store.list, file);
  }

  lemma {:induction false} PurgeStaysSound(store: Store, purged: seq<Meta>)
    requires Sound(store)
    ensures var after := DeletedAll(store, purged);
            Sound(after) && forall x :: x in after.list ==> x in store.list
    decreases |purged|
  {
    hide Sound, Deleted;
    if purged != [] {
      DeletedStaysSound(store, purged[0].file);
      PurgeStaysSound(Deleted(store, purged[0].file), purged[1..]);
    }
  }

  lemma BackupStaysSound(store: Store, m: Meta)
    requires Sound(store) && forall x :: x in store.list ==> x.timestamp < m.timestamp && x.file != m.file
    ensures Sound(BackedUp(store, m)) && forall x :: x in BackedUp(store, m).list ==> x in store.list || x == m
  {
    var all := [m] + store.list;
    NewestFirstCons(m, store.list);
    DistinctFilesCons(m, store.list);
    MultisetCons(m, store.list);
    var capped := Capped(all);
    assert forall i :: 0 <= i < |capped| ==> capped[i] == all[i];
    assert forall i :: 0 <= i < |capped| ==> all[i].file in Files(all);
  }

  /**
   * Whatever the order of backups, deletions and sweeps, the list stays newest first, at most 30 long and without
   * repeated files, lists only backups that were taken, and every listed file is on disk.
   */
  lemma {:induction false} ListStaysSound(ops: seq<Op>)
    requires Advances(ops)
    ensures Sound(Run(ops)) && forall m :: m in Run(ops).list ==> TakenBy(ops, m)
  {
    if ops == [] {
      assert Files([]) == {};
    } else {
      var front, op := ops[..|ops| - 1], ops[|ops| - 1];
      assert forall i :: 0 <= i < |front| ==> front[i] == ops[i];
      ListStaysSound(front);
      var store := Run(front);
      assert forall m :: m in store.list ==> TakenBy(ops, m) by {
        forall m | m in store.list ensures TakenBy(ops, m) { TakenBefore(ops, m); }
      }
      hide Sound, Run;
      RunStep(ops);
      match op
      case DeleteFile(file) => DeletedStaysSound(store, file);
      case Sweep(keepLast) => PurgeStaysSound(store, PlanFor(store.list, keepLast).purged);
      case TakeBackup(m) =>
        forall x | x in store.list ensures x.timestamp < m.timestamp && x.file != m.file { TakenEarlier(ops, x); }
        BackupStaysSound(store, m);
        assert TakenBy(ops, m);
    }
  }

  lemma RunStep(ops: seq<Op>)
    requires ops != []
    ensures Run(ops) == Do(Run(ops[..|ops| - 1]), ops[|ops| - 1])
  {
  }

  lemma TakenBefore(ops: seq<Op>, m: Meta)
    requires ops != [] && TakenBy(ops[..|ops| - 1], m)
    ensures TakenBy(ops, m)
  {
    var front := ops[..|ops| - 1];
    var i :| 0 <= i < |front| && front[i] == TakeBackup(m);
    assert ops[i] == TakeBackup(m);
  }

  lemma TakenEarlier(ops: seq<Op>, x: Meta)
    requires ops != [] && Advances(ops) && TakenBy(ops[..|ops| - 1], x) && ops[|ops| - 1].TakeBackup?
    ensures x.timestamp < ops[|ops| - 1].m.timestamp && x.file != ops[|ops| - 1].m.file
  {
    var front := ops[..|ops| - 1];
    var i :| 0 <= i < |front| && front[i] == TakeBackup(x);
    assert ops[i] == TakeBackup(x);
  }
}
