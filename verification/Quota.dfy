/** Quotas: a check, then an increment, with other callers in between. */
module Quota {
  import opened Wrappers
  import opened Seqs

  type Day = nat

  // One quota of one tenant in Redis: a counter for each day that has one, and a reported snapshot.
  datatype Store = Store(rolling: map<Day, int>, snapshot: Option<int>)

  function Counter(store: Store, day: Day): int { if day in store.rolling then store.rolling[day] else 0 }

  /** The usage that a check reads: the counter of the day, else the snapshot, else nothing. */
  function Usage(store: Store, day: Day): int {
    if day in store.rolling then store.rolling[day]
    else if store.snapshot.Some? then store.snapshot.value
    else 0
  }

  function Incremented(store: Store, day: Day, amount: int): Store {
    store.(rolling := store.rolling[day := Counter(store, day) + amount])
  }

  function Reported(store: Store, value: int): Store { store.(snapshot := Some(if value < 0 then 0 else value)) }

  // No limit means unlimited.
  predicate Allowed(store: Store, day: Day, amount: int, limit: Option<int>) {
    limit.Some? ==> Usage(store, day) + amount <= limit.value
  }

  class QuotaService {
    var store: Store
    const limit: Option<int>

    constructor (limit: Option<int>)
      ensures this.limit == limit && store == Store(map[], None)
    {
      this.limit := limit;
      store := Store(map[], None);
    }

    method GetUsage(today: Day) returns (usage: int)
      ensures usage == Usage(store, today)
      ensures today in store.rolling ==> usage == store.rolling[today]
      ensures today !in store.rolling ==> usage == if store.snapshot.Some? then store.snapshot.value else 0
    {
      if today in store.rolling {
        return store.rolling[today];
      }
      usage := if store.snapshot.Some? then store.snapshot.value else 0;
    }

    method Check(today: Day, amount: int) returns (allowed: bool)
      ensures allowed == Allowed(store, today, amount, limit)
      ensures allowed <==> limit == None || Usage(store, today) + amount <= limit.value
    {
      var current := GetUsage(today);
      allowed := limit.None? || current + amount <= limit.value;
    }

    method Track(today: Day, amount: int) returns (next: int)
      modifies this
      ensures store == Incremented(old(store), today, amount) && next == Counter(store, today)
      ensures next == amount + if today in old(store).rolling then old(store).rolling[today] else 0
      ensures store.rolling == old(store).rolling[today := next] && store.snapshot == old(store).snapshot
    {
      next := (if today in store.rolling then store.rolling[today] else 0) + amount;
      store := store.(rolling := store.rolling[today := next]);
    }

    /** Uninterrupted: the amount is counted if it is allowed, and nothing changes if it is not. */
    method Consume(today: Day, amount: int) returns (next: Option<int>)
      modifies this
      ensures next.Some? <==> Allowed(old(store), today, amount, limit)
      ensures store == if next.Some? then Incremented(old(store), today, amount) else old(store)
      ensures next.Some? ==> next.value == Counter(store, today)
    {
      var allowed := Check(today, amount);
      if !allowed { return None; }
      var counted := Track(today, amount);
      next := Some(counted);
    }

    /** Reported usage, never below nothing. */
    method SetUsage(value: int)
      modifies this
      ensures store == Reported(old(store), value)
    {
      store := store.(snapshot := Some(if value < 0 then 0 else value));
    }
  }

  /**
   * A reported usage counts, never below nothing, as long as no counter of the day is written to; the first amount
   * counted starts the counter from nothing, and the report no longer shows that day.
   */
  lemma ReportCountsUntilUse(store: Store, today: Day, value: int, amount: int)
    ensures var reported := Reported(store, value);
            && reported.rolling == store.rolling
            && (today in store.rolling ==> Usage(reported, today) == Usage(store, today))
            && (today !in store.rolling ==>
                  && Usage(reported, today) == (if value > 0 then value else 0)
                  && Usage(Incremented(reported, today, amount), today) == amount)
  {
  }

  // ---------- Interleaved calls ----------

  // The store, the day, and the amounts of the calls that have been allowed but have not incremented the counter yet.
  datatype World = World(store: Store, today: Day, pending: seq<int>)

  datatype Step =
    | Read(amount: int)      // a call reads the usage and decides
    | Write(call: nat)       // an allowed call increments the counter of the day it is now
    | Midnight
    | Expire(day: Day)       // a counter not written to for 48 hours
    | Report(value: int)     // setUsage

  // At most k calls are under way, amounts lie in 0..most, and only past counters expire.
  predicate Legal(w: World, step: Step, k: nat, most: nat) {
    match step
    case Read(amount) => 0 <= amount <= most && |w.pending| < k
    case Write(call) => call < |w.pending|
    case Midnight => true
    case Expire(day) => day < w.today
    case Report(_) => true
  }

  function Next(w: World, step: Step, limit: int): World {
    match step
    case Read(amount) =>
      if Allowed(w.store, w.today, amount, Some(limit)) then w.(pending := w.pending + [amount]) else w
    case Write(call) =>
      if call < |w.pending| then
        World(Incremented(w.store, w.today, w.pending[call]), w.today, w.pending[..call] + w.pending[call + 1..])
      else w
    case Midnight => w.(today := w.today + 1)
    case Expire(day) => w.(store := w.store.(rolling := w.store.rolling - {day}))
    case Report(value) => w.(store := Reported(w.store, value))
  }

  function Run(w: World, steps: seq<Step>, limit: int): World
    decreases |steps|
  {
    if steps == [] then w else Run(Next(w, steps[0], limit), steps[1..], limit)
  }

  predicate LegalRun(w: World, steps: seq<Step>, limit: int, k: nat, most: nat)
    decreases |steps|
  {
    steps == [] || (Legal(w, steps[0], k, most) && LegalRun(Next(w, steps[0], limit), steps[1..], limit, k, most))
  }

  function Sum(amounts: seq<int>): int { if amounts == [] then 0 else amounts[0] + Sum(amounts[1..]) }

  // No amount above the limit is ever allowed.
  function Smaller(a: nat, b: nat): nat { if a < b then a else b }

  // The most that a counter can come to if no allowed amount is above most.
  function Bound(limit: int, k: nat, most: nat): int { limit + (k - 1) * most }

  /** No counter passes the bound, not even once every allowed call has been counted today. */
  ghost predicate WithinBound(w: World, limit: int, k: nat, most: nat) {
    && |w.pending| <= k
    && (forall i :: 0 <= i < |w.pending| ==> 0 <= w.pending[i] <= most)
    && (forall d :: d in w.store.rolling ==> d <= w.today && 0 <= w.store.rolling[d] <= Bound(limit, k, most))
    && (w.store.snapshot.Some? ==> w.store.snapshot.value >= 0)
    && Counter(w.store, w.today) + Sum(w.pending) <= Bound(limit, k, most)
  }

  lemma {:induction false} SumAppend(a: seq<int>, b: seq<int>)
    ensures Sum(a + b) == Sum(a) + Sum(b)
  {
    if a == [] {
      AppendNothing(b);
    } else {
      AppendTail(a, b);
      SumAppend(a[1..], b);
    }
  }

  lemma {:induction false} SumAtMost(amounts: seq<int>, most: nat)
    requires forall i :: 0 <= i < |amounts| ==> 0 <= amounts[i] <= most
    ensures 0 <= Sum(amounts) <= |amounts| * most
  {
    if amounts != [] { SumAtMost(amounts[1..], most); }
  }

  lemma SumOne(x: int)
    ensures Sum([x]) == x
  {
    assert [x][1..] == [];
  }

  lemma TimesAtMost(m: nat, n: nat, x: nat)
    requires m <= n
    ensures m * x <= n * x
  {
  }

  lemma OneMoreTime(n: nat, x: nat)
    requires n > 0
    ensures n * x == (n - 1) * x + x
  {
  }

  lemma ReadWithinBound(w: World, amount: int, limit: int, k: nat, most: nat)
    requires WithinBound(w, limit, k, most) && 0 <= amount && |w.pending| < k && (amount <= most || limit <= most)
    ensures WithinBound(Next(w, Read(amount), limit), limit, k, most)
  {
    if Allowed(w.store, w.today, amount, Some(limit)) {
      assert amount <= most;
      SumAppend(w.pending, [amount]);
      SumOne(amount);
      SumAtMost(w.pending, most);
      TimesAtMost(|w.pending|, k - 1, most);
    }
  }

  lemma WriteWithinBound(w: World, call: nat, limit: int, k: nat, most: nat)
    requires WithinBound(w, limit, k, most) && call < |w.pending|
    ensures WithinBound(Next(w, Write(call), limit), limit, k, most)
  {
    var before, x, after := w.pending[..call], w.pending[call], w.pending[call + 1..];
    assert w.pending == (before + [x]) + after;
    SumAppend(before + [x], after);
    SumAppend(before, [x]);
    SumAppend(before, after);
    SumOne(x);
    var rest := before + after;
    assert forall i :: 0 <= i < |rest| ==> rest[i] == w.pending[if i < call then i else i + 1];
    SumAtMost(rest, most);
  }

  // It is enough that most bounds either the amounts asked for or the limit.
  lemma StepWithinBound(w: World, step: Step, limit: int, k: nat, asked: nat, most: nat)
    requires WithinBound(w, limit, k, most) && Legal(w, step, k, asked) && (asked <= most || limit <= most)
    ensures WithinBound(Next(w, step, limit), limit, k, most)
  {
    match step
    case Read(amount) => ReadWithinBound(w, amount, limit, k, most);
    case Write(call) => WriteWithinBound(w, call, limit, k, most);
    case _ =>
  }

  /**
   * However calls interleave, with at most k between reading the usage and incrementing the counter, no day's counter
   * ever passes limit + (k - 1) * most, across midnight too, where most bounds the amounts asked for or the limit.
   */
  lemma {:induction false} OvershootBounded(
    w: World, steps: seq<Step>, limit: int, k: nat, asked: nat, most: nat)
    requires WithinBound(w, limit, k, most) && LegalRun(w, steps, limit, k, asked) && (asked <= most || limit <= most)
    ensures WithinBound(Run(w, steps, limit), limit, k, most)
    decreases |steps|
  {
    hide WithinBound, Legal, Next;
    if steps != [] {
      StepWithinBound(w, steps[0], limit, k, asked, most);
      OvershootBounded(Next(w, steps[0], limit), steps[1..], limit, k, asked, most);
    }
  }

  const EMPTY: World := World(Store(map[], None), 0, [])

  /** From nothing; and one call at a time never passes the limit. */
  lemma CountersBounded(steps: seq<Step>, limit: nat, k: nat, asked: nat, d: Day)
    requires k >= 1 && LegalRun(EMPTY, steps, limit, k, asked)
    ensures Counter(Run(EMPTY, steps, limit).store, d) <= limit + (k - 1) * Smaller(asked, limit)
    ensures k == 1 ==> Counter(Run(EMPTY, steps, limit).store, d) <= limit
  {
    assert (k - 1) * Smaller(asked, limit) >= 0;
    OvershootBounded(EMPTY, steps, limit, k, asked, Smaller(asked, limit));
  }

  // ---------- The bound is reached ----------

  function Reads(n: nat, amount: int): seq<Step> { if n == 0 then [] else [Read(amount)] + Reads(n - 1, amount) }

  function Writes(n: nat): seq<Step> { if n == 0 then [] else [Write(0)] + Writes(n - 1) }

  lemma {:induction false} RunAppend(w: World, a: seq<Step>, b: seq<Step>, limit: int, k: nat, most: nat)
    ensures Run(w, a + b, limit) == Run(Run(w, a, limit), b, limit)
    ensures LegalRun(w, a + b, limit, k, most) <==>
            LegalRun(w, a, limit, k, most) && LegalRun(Run(w, a, limit), b, limit, k, most)
    decreases |a|
  {
    hide Next, Legal;
    if a == [] {
      AppendNothing(b);
    } else {
      AppendTail(a, b);
      RunAppend(Next(w, a[0], limit), a[1..], b, limit, k, most);
    }
  }

  lemma {:induction false} ManyRead(w: World, n: nat, amount: nat, limit: int, k: nat, most: nat)
    requires Usage(w.store, w.today) + amount <= limit && amount <= most && |w.pending| + n <= k
    requires forall i :: 0 <= i < |w.pending| ==> w.pending[i] == amount
    decreases n
    ensures LegalRun(w, Reads(n, amount), limit, k, most)
    ensures var after := Run(w, Reads(n, amount), limit);
            && after.store == w.store && after.today == w.today && |after.pending| == |w.pending| + n
            && forall i :: 0 <= i < |after.pending| ==> after.pending[i] == amount
  {
    if n > 0 {
      ConsTail(Read(amount), Reads(n - 1, amount));
      ManyRead(w.(pending := w.pending + [amount]), n - 1, amount, limit, k, most);
    }
  }

  lemma {:induction false} AllWrite(w: World, amount: nat, limit: int, k: nat, most: nat)
    requires forall i :: 0 <= i < |w.pending| ==> w.pending[i] == amount
    ensures var n := |w.pending|;
            var after := Run(w, Writes(n), limit);
            && LegalRun(w, Writes(n), limit, k, most) && after.pending == [] && after.today == w.today
            && Counter(after.store, w.today) == Counter(w.store, w.today) + n * amount
            && (n > 0 ==> w.today in after.store.rolling)
    decreases |w.pending|
  {
    var n := |w.pending|;
    if n > 0 {
      ConsTail(Write(0), Writes(n - 1));
      assert w.pending[..0] + w.pending[1..] == w.pending[1..];
      var w' := World(Incremented(w.store, w.today, amount), w.today, w.pending[1..]);
      assert Next(w, Write(0), limit) == w' && Legal(w, Write(0), k, most);
      assert Counter(w'.store, w.today) == Counter(w.store, w.today) + amount && w.today in w'.store.rolling;
      AllWrite(w', amount, limit, k, most);
      hide Next, Legal, Counter, Incremented;
      OneMoreTime(n, amount);
    }
  }

  // Calls of one amount that all read the usage before any of them increments the counter.
  lemma AllAtOnce(w: World, n: nat, amount: nat, limit: int, k: nat, most: nat)
    requires w.pending == [] && Usage(w.store, w.today) == Counter(w.store, w.today)
    requires Usage(w.store, w.today) + amount <= limit && amount <= most && n <= k
    ensures var steps := Reads(n, amount) + Writes(n);
            var after := Run(w, steps, limit);
            && LegalRun(w, steps, limit, k, most) && after.pending == [] && after.today == w.today
            && Counter(after.store, w.today) == Counter(w.store, w.today) + n * amount
            && (n > 0 ==> w.today in after.store.rolling)
  {
    ManyRead(w, n, amount, limit, k, most);
    var w' := Run(w, Reads(n, amount), limit);
    AllWrite(w', amount, limit, k, most);
    RunAppend(w, Reads(n, amount), Writes(n), limit, k, most);
  }

  // One call after the other brings the counter to any value up to the limit.
  lemma {:induction false} Filled(n: nat, limit: nat, k: nat, most: nat) returns (steps: seq<Step>)
    requires n <= limit && k >= 1 && most >= 1
    ensures LegalRun(EMPTY, steps, limit, k, most)
    ensures var after := Run(EMPTY, steps, limit);
            && after.pending == [] && after.today == EMPTY.today
            && Usage(after.store, after.today) == Counter(after.store, after.today) == n
  {
    if n == 0 {
      steps := [];
    } else {
      var before := Filled(n - 1, limit, k, most);
      var w := Run(EMPTY, before, limit);
      var call := Reads(1, 1) + Writes(1);
      AllAtOnce(w, 1, 1, limit, k, most);
      RunAppend(EMPTY, before, call, limit, k, most);
      steps := before + call;
    }
  }

  /** The bound is exact: from nothing, some run reaches it. */
  lemma OvershootReached(limit: nat, k: nat, most: nat) returns (steps: seq<Step>)
    requires k >= 1 && most >= 1
    ensures LegalRun(EMPTY, steps, limit, k, most)
    ensures Counter(Run(EMPTY, steps, limit).store, EMPTY.today) == limit + (k - 1) * Smaller(most, limit)
  {
    var amount := Smaller(most, limit);
    var before := Filled(limit - amount, limit, k, most);
    var w := Run(EMPTY, before, limit);
    AllAtOnce(w, k, amount, limit, k, most);
    RunAppend(EMPTY, before, Reads(k, amount) + Writes(k), limit, k, most);
    OneMoreTime(k, amount);
    steps := before + (Reads(k, amount) + Writes(k));
  }
}
