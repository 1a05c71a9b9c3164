/** Choosing a read replica in turn, with a cursor of 32 bits that wraps around. */
module ReadReplicas {
  import opened Wrappers
  import opened Seqs

  // The cursor is reduced by >>> 0.
  const CURSOR := 0x1_0000_0000

  datatype Strategy = Random | Sticky | RoundRobin

  // The replica of the k-th choice in turn since the cursor was reset, among n.
  function Pick(k: nat, n: nat): (i: nat)
    requires n > 0
    ensures i < n
  {
    (k % CURSOR) % n
  }

  class ReadReplicaService {
    const hosts: nat          // how many replicas are configured
    const strategy: Strategy
    var cursor: nat
    ghost var run: seq<nat>   // the choices made in turn since the cursor was reset

    ghost predicate Valid()
      reads this
    {
      && cursor == |run| % CURSOR
      && (hosts == 0 ==> run == [])
      && (hosts > 0 ==> forall k :: 0 <= k < |run| ==> run[k] == Pick(k, hosts))
    }

    constructor (hosts: nat, strategy: Strategy)
      ensures Valid() && run == [] && this.hosts == hosts && this.strategy == strategy
    {
      this.hosts, this.strategy, cursor, run := hosts, strategy, 0, [];
    }

    /** dice is Math.random(), and hash the 32 bits taken of the tenant's hash. */
    method PickIndex(dice: real, hash: nat) returns (index: Option<nat>)
      requires Valid() && 0.0 <= dice < 1.0
      modifies this
      ensures Valid()
      ensures index.None? <==> hosts == 0
      ensures index.Some? ==> index.value < hosts
      ensures index.Some? && strategy == Sticky ==> index.value == hash % hosts
      ensures index.Some? && strategy == RoundRobin ==> index.value == (|old(run)| % 4294967296) % hosts
      ensures index.Some? && strategy == Random ==>
                index.value as real <= dice * hosts as real < index.value as real + 1.0
      ensures run == old(run) + if index.Some? && strategy == RoundRobin then [index.value] else []
    {
      if hosts == 0 { return None; }
      if strategy == Random {
        DiceBelow(dice, hosts);
        return Some((dice * hosts as real).Floor);
      }
      if strategy == Sticky { return Some(hash % hosts); }
      index := Some(cursor % hosts);
      cursor := (cursor + 1) % CURSOR;
      run := run + [index.value];
    }

    method ResetCursor()
      requires Valid()
      modifies this
      ensures Valid() && run == []
    {
      cursor, run := 0, [];
    }
  }

  lemma DiceBelow(dice: real, n: nat)
    requires 0.0 <= dice < 1.0 && n > 0
    ensures 0 <= (dice * n as real).Floor < n
  {
    var x := n as real;
    assert 0.0 <= dice * x;
    assert dice * x < x by {
      assert (1.0 - dice) * x > 0.0;
    }
  }

  // ---------- Counting ----------

  // How many of the choices from the lo-th up to the hi-th go to replica h.
  function Count(lo: nat, hi: nat, n: nat, h: nat): nat
    requires n > 0 && lo <= hi
  {
    if lo == hi then 0 else Count(lo, hi - 1, n, h) + if Pick(hi - 1, n) == h then 1 else 0
  }

  /** The number that is counted is that of the choices actually made. */
  lemma {:induction false} CountOfRun(run: seq<nat>, lo: nat, hi: nat, n: nat, h: nat)
    requires n > 0 && lo <= hi <= |run| && forall k :: 0 <= k < |run| ==> run[k] == Pick(k, n)
    ensures multiset(run[lo..hi])[h] == Count(lo, hi, n, h)
  {
    if lo < hi {
      CountOfRun(run, lo, hi - 1, n, h);
      assert run[lo..hi] == run[lo..hi - 1] + [run[hi - 1]];
      MultisetAppend(run[lo..hi - 1], [run[hi - 1]]);
      hide Pick;
    }
  }

  // How many numbers below x leave the remainder h.
  function Below(x: nat, n: nat, h: nat): nat
    requires n > 0
  {
    if x == 0 then 0 else Below(x - 1, n, h) + if (x - 1) % n == h then 1 else 0
  }

  lemma NextRemainder(x: nat, n: nat)
    requires n > 0
    ensures if x % n == n - 1 then (x + 1) % n == 0 && (x + 1) / n == x / n + 1
            else (x + 1) % n == x % n + 1 && (x + 1) / n == x / n
  {
    var q, r := x / n, x % n;
    assert x == n * q + r;
    if r == n - 1 {
      assert x + 1 == n * (q + 1) + 0 by { assert n * (q + 1) == n * q + n; }
      Divided(x + 1, n, q + 1, 0);
    } else {
      Divided(x + 1, n, q, r + 1);
    }
  }

  // Quotient and remainder are unique.
  lemma Divided(x: int, n: int, q: int, r: int)
    requires 0 <= r < n && x == n * q + r
    ensures x / n == q && x % n == r
  {
    var d := x / n - q;
    assert n * d == n * (x / n) - n * q;
    assert n * d == r - x % n;
    assert (d >= 1 ==> n * d >= n) && (d <= -1 ==> n * d <= -n);
  }

  lemma {:induction false} BelowClosed(x: nat, n: nat, h: nat)
    requires n > 0 && h < n
    ensures Below(x, n, h) == x / n + if x % n > h then 1 else 0
  {
    if x == 0 {
      Divided(0, n, 0, 0);
    } else {
      BelowClosed(x - 1, n, h);
      NextRemainder(x - 1, n);
    }
  }

  // Of consecutive numbers, about the same number leave each remainder.
  lemma BelowEven(lo: nat, hi: nat, n: nat, g: nat, h: nat)
    requires n > 0 && lo <= hi && g < n && h < n
    ensures -1 <= (Below(hi, n, g) - Below(lo, n, g)) - (Below(hi, n, h) - Below(lo, n, h)) <= 1
  {
    BelowClosed(lo, n, g);
    BelowClosed(lo, n, h);
    BelowClosed(hi, n, g);
    BelowClosed(hi, n, h);
    hide Below;
  }

  // ---------- Fairness ----------

  lemma {:induction false} CountSplit(lo: nat, mid: nat, hi: nat, n: nat, h: nat)
    requires n > 0 && lo <= mid <= hi
    ensures Count(lo, hi, n, h) == Count(lo, mid, n, h) + Count(mid, hi, n, h)
  {
    if mid < hi {
      CountSplit(lo, mid, hi - 1, n, h);
    }
  }

  // Between two wraps of the cursor.
  lemma {:induction false} CountUnwrapped(q: nat, lo: nat, hi: nat, n: nat, h: nat)
    requires n > 0 && q * CURSOR <= lo <= hi <= (q + 1) * CURSOR
    ensures Count(lo, hi, n, h) == Below(hi - q * CURSOR, n, h) - Below(lo - q * CURSOR, n, h)
  {
    if lo < hi {
      CountUnwrapped(q, lo, hi - 1, n, h);
      Divided(hi - 1, CURSOR, q, hi - 1 - q * CURSOR);
    }
  }

  // How often the cursor wraps around between the lo-th choice and the last before the hi-th.
  function Wraps(lo: nat, hi: nat): int {
    if lo < hi then (hi - 1) / CURSOR - lo / CURSOR else 0
  }

  /** The choices that two replicas get in any run differ by at most one more than the wraps in the run. */
  lemma {:induction false} Fairness(lo: nat, hi: nat, n: nat, g: nat, h: nat)
    requires n > 0 && lo <= hi && g < n && h < n
    ensures -Wraps(lo, hi) - 1 <= Count(lo, hi, n, g) - Count(lo, hi, n, h) <= Wraps(lo, hi) + 1
    decreases hi - lo
  {
    var q := lo / CURSOR;
    var mid := (q + 1) * CURSOR;
    var end := if hi <= mid then hi else mid;
    CountUnwrapped(q, lo, end, n, g);
    CountUnwrapped(q, lo, end, n, h);
    BelowEven(lo - q * CURSOR, end - q * CURSOR, n, g, h);
    hide Count, Below;
    if mid < hi {
      Fairness(mid, hi, n, g, h);
      CountSplit(lo, mid, hi, n, g);
      CountSplit(lo, mid, hi, n, h);
    }
  }

  /** In every run, no replica gets two choices more than another. */
  ghost predicate FairForever(n: nat)
    requires n > 0
  {
    forall lo: nat, hi: nat, g: nat, h: nat :: lo <= hi && g < n && h < n ==>
      Count(lo, hi, n, g) - Count(lo, hi, n, h) <= 1
  }

  lemma {:induction false} CountDividing(lo: nat, hi: nat, n: nat, h: nat)
    requires n > 0 && CURSOR % n == 0 && lo <= hi
    ensures Count(lo, hi, n, h) == Below(hi, n, h) - Below(lo, n, h)
  {
    if lo < hi {
      CountDividing(lo, hi - 1, n, h);
      PickDividing(hi - 1, n);
    }
  }

  lemma PickDividing(k: nat, n: nat)
    requires n > 0 && CURSOR % n == 0
    ensures Pick(k, n) == k % n
  {
    var a, b, c := k / CURSOR, k % CURSOR, CURSOR / n;
    assert k == CURSOR * a + b && CURSOR == n * c && b == n * (b / n) + b % n;
    assert k == n * (c * a + b / n) + b % n by {
      assert n * c * a == n * (c * a);
      assert n * (c * a + b / n) == n * (c * a) + n * (b / n);
    }
    Divided(k, n, c * a + b / n, b % n);
  }

  /** After any number of whole rounds of the cursor, the first replica is ahead of the last by as many choices. */
  lemma {:induction false} RoundsApart(w: nat, n: nat)
    requires n > 0 && CURSOR % n != 0
    ensures Count(0, w * CURSOR, n, 0) == Count(0, w * CURSOR, n, n - 1) + w
  {
    if w > 0 {
      RoundsApart(w - 1, n);
      var lo, hi := (w - 1) * CURSOR, w * CURSOR;
      CountSplit(0, lo, hi, n, 0);
      CountSplit(0, lo, hi, n, n - 1);
      CountUnwrapped(w - 1, lo, hi, n, 0);
      CountUnwrapped(w - 1, lo, hi, n, n - 1);
      BelowClosed(0, n, 0);
      BelowClosed(0, n, n - 1);
      BelowClosed(CURSOR, n, 0);
      BelowClosed(CURSOR, n, n - 1);
      hide Count, Below;
    }
  }

  /** The choice is fair in the long run exactly if the number of replicas divides the range of the cursor. */
  lemma FairIffDividing(n: nat)
    requires n > 0
    ensures FairForever(n) <==> 4294967296 % n == 0
  {
    if CURSOR % n == 0 {
      forall lo: nat, hi: nat, g: nat, h: nat | lo <= hi && g < n && h < n
        ensures Count(lo, hi, n, g) - Count(lo, hi, n, h) <= 1
      {
        CountDividing(lo, hi, n, g);
        CountDividing(lo, hi, n, h);
        BelowEven(lo, hi, n, g, h);
      }
    } else {
      RoundsApart(2, n);
    }
    hide Count, Below;
  }
}
