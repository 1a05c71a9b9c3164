/** The sliding-window rate limiter: a sorted set in Redis that is pruned, added to, counted and left to expire. */
module RateLimit {
  import opened Wrappers

  // Times are in milliseconds. Requests at one time share one entry, since the time is the member.
  function Window(history: seq<int>, now: int, width: int): set<int> {
    (set t | t in history && now - width < t <= now) + {now}
  }

  ghost predicate Ordered(history: seq<int>) { forall i, j :: 0 <= i < j < |history| ==> history[i] <= history[j] }

  /** What Redis holds after a history of requests: the last window, until it has passed. */
  ghost predicate Logs(history: seq<int>, width: int, entries: set<int>, expiresAt: Option<int>) {
    if history == [] || width <= 0 then entries == {} && expiresAt == None
    else
      var last := history[|history| - 1];
      entries == Window(history, last, width) && expiresAt == Some(last + width)
  }

  function Pruned(entries: set<int>, from: int): set<int> { set t | t in entries && t > from }

  /** The log of one client: what Redis keeps of it, and the times of all requests that were logged. */
  class RequestLog {
    var entries: set<int>
    var expiresAt: Option<int>
    const width: int
    const limit: int
    ghost var history: seq<int>

    ghost predicate Valid()
      reads this
    { Ordered(history) && Logs(history, width, entries, expiresAt) }

    constructor (windowSeconds: int, limit: int)
      ensures Valid() && history == [] && width == windowSeconds * 1000 && this.limit == limit
    {
      width, this.limit := windowSeconds * 1000, limit;
      entries, expiresAt, history := {}, None, [];
    }

    // The four commands, as one step: prune, add, count, expire.
    method Log(now: int) returns (count: nat)
      requires Valid() && (history != [] ==> history[|history| - 1] <= now)
      modifies this
      ensures Valid() && history == old(history) + [now]
      ensures count == |Window(history, now, width)|
    {
      LogMoves(history, width, entries, expiresAt, now);
      hide *;
      if expiresAt.Some? && expiresAt.value < now {
        entries := {};
      }
      entries := Pruned(entries, now - width) + {now};
      count := |entries|;
      if width > 0 {
        expiresAt := Some(now + width);
      } else {
        entries, expiresAt := {}, None;
      }
      history := history + [now];
      IsValid();
    }

    lemma IsValid()
      requires Ordered(history) && Logs(history, width, entries, expiresAt)
      ensures Valid()
    {
    }

    /**
     * One request. It passes if the number of distinct request times in the last window, over the whole history, does
     * not exceed the limit. Without Redis it passes and leaves no trace.
     */
    method Handle(now: int, redisUp: bool) returns (admitted: bool, remaining: int)
      requires Valid() && (history != [] ==> history[|history| - 1] <= now)
      modifies this
      ensures Valid()
      ensures history == if redisUp then old(history) + [now] else old(history)
      ensures redisUp ==> admitted == (|Window(history, now, width)| <= limit)
      ensures redisUp ==>
                var count := |(set t | t in old(history) && now - width < t <= now) + {now}|;
                admitted == (count <= limit) && remaining == if count < limit then limit - count else 0
      ensures !redisUp ==> admitted
    {
      WindowIs(history, now, width);
      hide Valid, Window;
      if !redisUp { return true, limit; }
      var count := Log(now);
      remaining := Max(0, limit - count);
      admitted := count <= limit;
    }
  }

  // The window of a request counts it and the requests before it.
  lemma WindowIs(history: seq<int>, now: int, width: int)
    ensures Window(history + [now], now, width) == (set t | t in history && now - width < t <= now) + {now}
  {
    assert forall t :: t in history + [now] <==> t in history || t == now;
  }

  // Of the past, a later window sees only what an earlier one saw, and nothing once the earlier one has passed.
  lemma LogMoves(history: seq<int>, width: int, entries: set<int>, expiresAt: Option<int>, now: int)
    requires Ordered(history) && Logs(history, width, entries, expiresAt)
    requires history != [] ==> history[|history| - 1] <= now
    ensures var live := if expiresAt.Some? && expiresAt.value < now then {} else entries;
            var counted := Pruned(live, now - width) + {now};
            && Ordered(history + [now]) && counted == Window(history + [now], now, width)
            && Logs(history + [now], width, if width > 0 then counted else {},
                    if width > 0 then Some(now + width) else None)
  {
    assert forall t :: t in history + [now] <==> t in history || t == now;
    if history != [] {
      var last := history[|history| - 1];
      assert forall t :: t in history ==> t <= last by {
        forall t | t in history ensures t <= last {
          var i :| 0 <= i < |history| && history[i] == t;
          assert i < |history| - 1 ==> history[i] <= history[|history| - 1];
        }
      }
    }
  }

  function Max(a: int, b: int): int { if a < b then b else a }

  // ---------- Over a whole history ----------

  /** Whether the request at position i of a history is admitted: denied requests before it count too. */
  predicate Admits(history: seq<int>, i: nat, width: int, limit: int)
    requires i < |history|
  {
    |Window(history[..i + 1], history[i], width)| <= limit
  }

  // An admitted request whose time lies in the interval after from, up to to.
  predicate Hit(history: seq<int>, i: nat, width: int, limit: int, from: int, to: int) {
    i < |history| && from < history[i] <= to && Admits(history, i, width, limit)
  }

  function AdmittedWithin(history: seq<int>, width: int, limit: int, from: int, to: int): set<int> {
    set i | 0 <= i < |history| && Hit(history, i, width, limit, from, to) :: history[i]
  }

  lemma SubsetSize(a: set<int>, b: set<int>)
    requires a <= b
    ensures |a| <= |b|
  {
    assert b == a + (b - a);
    assert |b| == |a| + |b - a|;
  }

  // The last position with an admitted request of the interval.
  lemma {:induction false} LastHit(history: seq<int>, n: nat, width: int, limit: int, from: int, to: int)
    returns (k: nat)
    requires exists i: nat :: i < n && Hit(history, i, width, limit, from, to)
    ensures k < n && Hit(history, k, width, limit, from, to)
    ensures forall i: nat :: k < i < n ==> !Hit(history, i, width, limit, from, to)
  {
    hide Hit;
    if Hit(history, n - 1, width, limit, from, to) {
      k := n - 1;
    } else {
      k := LastHit(history, n - 1, width, limit, from, to);
    }
  }

  // What was admitted in an interval was seen in the window of the last request admitted in it.
  lemma SeenByLast(history: seq<int>, k: nat, i: nat, width: int, limit: int, x: int)
    requires Ordered(history) && i <= k < |history|
    requires Hit(history, i, width, limit, x - width, x) && Hit(history, k, width, limit, x - width, x)
    ensures history[i] in Window(history[..k + 1], history[k], width)
  {
    assert history[..k + 1][i] == history[i];
    assert i < k ==> history[i] <= history[k];
  }

  /** No window of that width, wherever it lies, admits requests at more than limit distinct times. */
  lemma WindowAdmitsAtMostLimit(history: seq<int>, width: int, limit: nat, x: int)
    requires Ordered(history)
    ensures |AdmittedWithin(history, width, limit, x - width, x)| <= limit
  {
    var admitted := AdmittedWithin(history, width, limit, x - width, x);
    var from := x - width;
    if exists i: nat :: i < |history| && Hit(history, i, width, limit, from, x) {
      var k := LastHit(history, |history|, width, limit, from, x);
      var seen := Window(history[..k + 1], history[k], width);
      assert |seen| <= limit;
      hide Window, Ordered;
      forall j: nat | j < |history| && Hit(history, j, width, limit, from, x) ensures history[j] in seen {
        SeenByLast(history, k, j, width, limit, x);
      }
      hide Hit;
      SubsetSize(admitted, seen);
    } else {
      assert admitted == {};
    }
  }
}
