/** Backups of a tenant: the metadata list capped at 30, the dump files on disk, and the retention sweep. */
module BackupRetention {
  import opened Text

  const CAP: nat := 30

  datatype Meta = Meta(file: string, timestamp: int, size: nat)

  datatype Store = Store(list: seq<Meta>, disk: set<string>)

  // /^[A-Za-z0-9._-]+\.dump$/
  predicate ValidFileName(s: string) {
    |s| > 5 && s[|s| - 5..] == ".dump" &&
    forall i :: 0 <= i < |s| ==> IsWordChar(s[i]) || s[i] == '.' || s[i] == '-'
  }

  /** Proper are the names of letters, digits, dots, dashes and underscores, one at least, and then ".dump". */
  lemma ProperName(s: string)
    ensures ValidFileName(s) <==> exists stem :: s == stem + ".dump" && IsStem(stem)
  {
    if ValidFileName(s) {
      var stem := s[..|s| - 5];
      assert s == stem + ".dump" && forall i :: 0 <= i < |stem| ==> stem[i] == s[i];
    }
    if stem :| s == stem + ".dump" && IsStem(stem) {
      DumpName(stem);
    }
  }

  lemma DumpName(stem: string)
    requires IsStem(stem)
    ensures ValidFileName(stem + ".dump")
  {
    var end := ".dump";
    assert forall i :: 0 <= i < 5 ==> IsWordChar(end[i]) || end[i] == '.';
    var s := stem + end;
    assert s[|s| - 5..] == end;
    forall i | 0 <= i < |s| ensures IsWordChar(s[i]) || s[i] == '.' || s[i] == '-' {
      if i < |stem| {
        assert s[i] == stem[i];
      } else {
        assert s[i] == end[i - |stem|];
      }
    }
  }

  predicate IsStem(s: string) {
    s != "" && forall i :: 0 <= i < |s| ==>
      'a' <= s[i] <= 'z' || 'A' <= s[i] <= 'Z' || '0' <= s[i] <= '9' || s[i] in "._-"
  }

  // ---------- Lists of metadata ----------

  function Files(list: seq<Meta>): set<string> { set i | 0 <= i < |list| :: list[i].file }

  function Capped(list: seq<Meta>): seq<Meta> { if |list| <= CAP then list else list[..CAP] }

  // list.filter(m => m.file !== file)
  function Unlisted(list: seq<Meta>, file: string): seq<Meta> {
    if list == [] then []
    else (if list[0].file == file then [] else [list[0]]) + Unlisted(list[1..], file)
  }

  // Put m before the first entry that is not newer: a stable insertion.
  function Insert(m: Meta, list: seq<Meta>): seq<Meta> {
    if list == [] || list[0].timestamp <= m.timestamp then [m] + list else [list[0]] + Insert(m, list[1..])
  }

  /** The list sorted newest first, entries of one time in the order they had. */
  function SortedByRecency(list: seq<Meta>): seq<Meta> {
    if list == [] then [] else Insert(list[0], SortedByRecency(list[1..]))
  }

  // Where slice(0, k) ends and slice(k) begins: a negative k counts from the end.
  function SliceIndex(k: int, length: nat): (i: nat)
    ensures i <= length
  {
    if k < 0 then (if length + k < 0 then 0 else length + k) else if k > length then length else k
  }

  datatype Plan = Plan(kept: seq<Meta>, purged: seq<Meta>)

  function PlanFor(list: seq<Meta>, keepLast: int): Plan {
    var sorted := SortedByRecency(list);
    var i := SliceIndex(keepLast, |sorted|);
    Plan(sorted[..i], sorted[i..])
  }

  function BackedUp(store: Store, m: Meta): Store { Store(Capped([m] + store.list), store.disk + {m.file}) }

  function Deleted(store: Store, file: string): Store {
    if ValidFileName(file) then Store(Unlisted(store.list, file), store.disk - {file}) else store
  }

  function DeletedAll(store: Store, purged: seq<Meta>): Store
    decreases |purged|
  {
    if purged == [] then store else DeletedAll(Deleted(store, purged[0].file), purged[1..])
  }

  function Swept(store: Store, keepLast: int): Store { DeletedAll(store, PlanFor(store.list, keepLast).purged) }

  // ---------- The services ----------

  class BackupService {
    var list: seq<Meta>
    var disk: set<string>

    ghost function State(): Store
      reads this
    { Store(list, disk) }

    constructor ()
      ensures State() == Store([], {})
    {
      list, disk := [], {};
    }

    /** pg_dump writes a new file; the metadata goes to the front of the list, which is then cut to 30. */
    method Backup(file: string, now: int, size: nat, dumpSucceeds: bool) returns (thrown: bool)
      modifies this
      ensures thrown == !dumpSucceeds
      ensures State() == if dumpSucceeds then BackedUp(old(State()), Meta(file, now, size)) else old(State())
      ensures dumpSucceeds ==>
                && disk == old(disk) + {file}
                && list == [Meta(file, now, size)] + if |old(list)| < 30 then old(list) else old(list)[..29]
    {
      if !dumpSucceeds { return true; }
      disk := disk + {file};
      var updated := [Meta(file, now, size)] + list;
      list := Capped(updated);
      thrown := false;
    }

    method DeleteBackup(file: string) returns (thrown: bool)
      modifies this
      ensures thrown == !ValidFileName(file)
      ensures State() == Deleted(old(State()), file)
      ensures disk == if thrown then old(disk) else old(disk) - {file}
    {
      if !ValidFileName(file) { return true; }
      disk := disk - {file};
      list := Unlisted(list, file);
      thrown := false;
    }

    /** The retention sweep deletes what the plan purges; a deletion that fails is passed over. */
    method ApplyRetention(keepLast: int) returns (plan: Plan)
      modifies this
      ensures plan == PlanFor(old(list), keepLast)
      ensures State() == Swept(old(State()), keepLast)
    {
      hide ValidFileName, Unlisted, PlanFor;
      plan := PlanFor(list, keepLast);
      var k := 0;
      while k < |plan.purged|
        invariant 0 <= k <= |plan.purged|
        invariant DeletedAll(State(), plan.purged[k..]) == Swept(old(State()), keepLast)
      {
        assert plan.purged[k..][1..] == plan.purged[k + 1..];
        var _ := DeleteBackup(plan.purged[k].file);
        k := k + 1;
      }
    }

    // Due if there is no backup yet or the latest is old enough.
    method ShouldBackup(now: int, intervalHours: int) returns (due: bool)
      ensures due == Due(list, now, intervalHours)
      ensures due <==> forall m :: m in list ==> m.timestamp + intervalHours * 3600000 <= now
    {
      if |list| == 0 { return true; }
      var latest := list[0].timestamp;
      for k := 1 to |list|
        invariant (exists i :: 0 <= i < k && list[i].timestamp == latest)
        invariant forall i :: 0 <= i < k ==> list[i].timestamp <= latest
      {
        if list[k].timestamp > latest {
          latest := list[k].timestamp;
        }
      }
      due := now - latest >= intervalHours * 3600000;
    }

    /** One tenant's turn in the scheduled run: back up if due or forced, then sweep; a failed backup ends the turn. */
    method Turn(file: string, now: int, size: nat, dumpSucceeds: bool, force: bool, intervalHours: int, keepLast: int)
      returns (outcome: Outcome)
      modifies this
      ensures var due := force || Due(old(list), now, intervalHours);
              outcome == if !due then Skipped
                         else if !dumpSucceeds then Failed
                         else BackedUpThenPurged(
                           |PlanFor(BackedUp(old(State()), Meta(file, now, size)).list, keepLast).purged|)
      ensures State() == if outcome.BackedUpThenPurged?
                         then Swept(BackedUp(old(State()), Meta(file, now, size)), keepLast)
                         else old(State())
    {
      hide PlanFor, Swept, BackedUp, Due;
      var due := ShouldBackup(now, intervalHours);
      if !force && !due { return Skipped; }
      var failed := Backup(file, now, size, dumpSucceeds);
      if failed { return Failed; }
      var plan := ApplyRetention(keepLast);
      outcome := BackedUpThenPurged(|plan.purged|);
    }
  }

  datatype Outcome = Skipped | Failed | BackedUpThenPurged(purged: nat)

  /** Every backup is at least that many hours old. */
  ghost predicate Due(list: seq<Meta>, now: int, intervalHours: int) {
    forall i :: 0 <= i < |list| ==> now - list[i].timestamp >= intervalHours * 3600000
  }
}
