/** Webhook deliveries: the first POST, the retries with a growing delay, and resending by hand. */
module Webhooks {
  import opened Wrappers
  import opened Seqs

  const MAX_ATTEMPTS := 5
  const RETRY_CONCURRENCY := 10

  datatype Status = Pending | Retrying | Success | Failed

  // Times are in milliseconds.
  datatype Delivery = Delivery(
    status: Status, attempt: int, statusCode: Option<int>, responseBody: Option<string>, nextRetryAt: Option<int>)

  // What becomes of a send: the secret cannot be decrypted, so that nothing is sent; the hook answers; or fetch fails.
  datatype Outcome = Refused | Answered(code: int, body: Option<string>) | Threw(message: string)

  // A send: what becomes of it, Math.random(), and when.
  datatype Send = Send(outcome: Outcome, dice: real, at: int)

  predicate Ok(outcome: Outcome) { outcome.Answered? && 200 <= outcome.code <= 299 }

  // ---------- The delay ----------

  function BackoffBase(attempt: int): (base: int)
    ensures base > 0
  {
    if attempt == 1 then 10 else if attempt == 2 then 60 else if attempt == 3 then 300 else if attempt == 4 then 1800
    else 7200
  }

  function BackoffWithJitter(attempt: int, dice: real): int {
    var base := BackoffBase(attempt) as real;
    (base + base * 0.2 * (dice * 2.0 - 1.0) + 0.5).Floor
  }

  /** The delays after the first four attempts have ranges of their own, each above the one before. */
  lemma BackoffRange(attempt: int, dice: real)
    requires 0.0 <= dice < 1.0
    ensures BackoffBase(attempt) * 8 <= BackoffWithJitter(attempt, dice) * 10 <= BackoffBase(attempt) * 12
  {
    var base := BackoffBase(attempt) as real;
    var x := base + base * 0.2 * (dice * 2.0 - 1.0);
    var y := dice * 2.0 - 1.0;
    assert base * 0.8 <= x <= base * 1.2 by {
      assert x == base + (base * 0.2) * y;
      assert (base * 0.2) * (y + 1.0) >= 0.0 && (base * 0.2) * (1.0 - y) >= 0.0;
    }
    assert BackoffWithJitter(attempt, dice) == (x + 0.5).Floor;
  }

  lemma DelaysGrow(a: int, b: int, dice: real, later: real)
    requires 1 <= a < b <= MAX_ATTEMPTS && 0.0 <= dice < 1.0 && 0.0 <= later < 1.0
    ensures 0 < BackoffWithJitter(a, dice) < BackoffWithJitter(b, later)
  {
    BackoffRange(a, dice);
    BackoffRange(b, later);
    hide BackoffWithJitter;
  }

  // ---------- One send ----------

  /** The record after a send that was not refused. */
  function AfterSend(d: Delivery, s: Send): Delivery
    requires !s.outcome.Refused?
  {
    var code := if s.outcome.Answered? then Some(s.outcome.code) else None;
    var body := if s.outcome.Answered? then s.outcome.body else Some(s.outcome.message);
    if Ok(s.outcome) then d.(statusCode := code, responseBody := body, status := Success)
    else if d.attempt < MAX_ATTEMPTS then
      Delivery(Retrying, d.attempt + 1, code, body, Some(s.at + 1000 * BackoffWithJitter(d.attempt, s.dice)))
    else d.(statusCode := code, responseBody := body, status := Failed)
  }

  // A POST that was made, whether it succeeded, whether it was resent by hand, and when.
  datatype Post = Post(ok: bool, byHand: bool, at: int)

  /** The delay after an attempt: its base, give or take a fifth by chance, rounded to whole seconds. */
  lemma DelayIs(attempt: int, dice: real)
    requires 1 <= attempt <= 5
    ensures var delay := BackoffWithJitter(attempt, dice) as real;
            var exact := [10.0, 60.0, 300.0, 1800.0, 7200.0][attempt - 1] * (0.8 + 0.4 * dice);
            delay - 0.5 <= exact < delay + 0.5
  {
    var base := BackoffBase(attempt) as real;
    assert base == [10.0, 60.0, 300.0, 1800.0, 7200.0][attempt - 1];
    GiveOrTakeAFifth(base, dice);
    hide BackoffBase;
  }

  lemma GiveOrTakeAFifth(base: real, dice: real)
    ensures base + base * 0.2 * (dice * 2.0 - 1.0) == base * (0.8 + 0.4 * dice)
  {
    var y := dice * 2.0 - 1.0;
    assert 0.8 + 0.4 * dice == 1.0 + 0.2 * y;
    assert base * (1.0 + 0.2 * y) == base + base * (0.2 * y);
  }

  /**
   * What a send leaves in the record. An answer from 200 to 299 is a success; after anything else the delivery is due
   * again when its delay is over, and after the fifth attempt it has failed.
   */
  lemma SendRecords(d: Delivery, s: Send, byHand: bool, now: int)
    requires !s.outcome.Refused?
    ensures var e := AfterSend(d, s);
            var ok := s.outcome.Answered? && s.outcome.code >= 200 && s.outcome.code < 300;
            && PostOf(s, byHand) == [Post(ok, byHand, s.at)]
            && (s.outcome.Answered? ==> e.statusCode == Some(s.outcome.code) && e.responseBody == s.outcome.body)
            && (s.outcome.Threw? ==> e.statusCode == None && e.responseBody == Some(s.outcome.message))
            && (ok || d.attempt >= 5 ==>
                  && e.status == (if ok then Success else Failed)
                  && e.attempt == d.attempt && e.nextRetryAt == d.nextRetryAt && !IsDue(e, now))
            && (!ok && d.attempt < 5 ==>
                  && e.status == Retrying && e.attempt == d.attempt + 1
                  && (IsDue(e, now) <==> now >= s.at + 1000 * BackoffWithJitter(d.attempt, s.dice)))
  {
  }

  // The POSTs that no one resent by hand.
  function Automatic(posts: seq<Post>): nat {
    if posts == [] then 0 else Automatic(posts[..|posts| - 1]) + if posts[|posts| - 1].byHand then 0 else 1
  }

  ghost predicate NoneByHand(posts: seq<Post>) { forall k :: 0 <= k < |posts| ==> !posts[k].byHand }

  // The least delay after the given attempt.
  function LeastDelay(attempt: int): int { BackoffBase(attempt) * 800 }

  /** The record of a delivery tells how its POSTs went, if none was resent by hand. */
  ghost predicate Tells(d: Delivery, posts: seq<Post>) {
    var n := |posts|;
    && (forall k :: 0 <= k < n - 1 ==> !posts[k].ok)
    && (d.status.Pending? <==> n == 0)
    && (d.status.Success? <==> n > 0 && posts[n - 1].ok)
    && (d.status.Retrying? <==> 0 < n < MAX_ATTEMPTS && !posts[n - 1].ok)
    && (d.status.Failed? <==> n == MAX_ATTEMPTS && !posts[n - 1].ok)
    && n == (if d.status.Pending? || d.status.Retrying? then d.attempt - 1 else d.attempt)
    && (forall k :: 0 < k < n ==> posts[k].at >= posts[k - 1].at + LeastDelay(k))
    && (d.status.Retrying? ==> d.nextRetryAt.Some? && d.nextRetryAt.value >= posts[n - 1].at + LeastDelay(n))
  }

  /** What every step keeps, for a delivery and its POSTs; resending by hand gives no more automatic POSTs than five. */
  ghost predicate Sound(d: Delivery, posts: seq<Post>) {
    && 1 <= d.attempt <= MAX_ATTEMPTS
    && (d.status.Retrying? ==> d.nextRetryAt.Some?)
    && Automatic(posts) <= (if d.status.Pending? || d.status.Retrying? then d.attempt - 1 else d.attempt)
    && (NoneByHand(posts) ==> Tells(d, posts))
  }

  lemma AutomaticMore(posts: seq<Post>, p: Post)
    ensures Automatic(posts + [p]) == Automatic(posts) + if p.byHand then 0 else 1
  {
    assert (posts + [p])[..|posts|] == posts;
  }

  lemma NoneByHandBefore(posts: seq<Post>, p: Post)
    requires NoneByHand(posts + [p])
    ensures NoneByHand(posts) && !p.byHand
  {
    assert (posts + [p])[|posts|] == p;
    forall k | 0 <= k < |posts| ensures !posts[k].byHand {
      assert (posts + [p])[k] == posts[k];
    }
  }

  // May the service send this delivery now of its own accord?
  predicate IsDue(d: Delivery, now: int) {
    d.status.Retrying? && d.nextRetryAt.Some? && d.nextRetryAt.value <= now
  }

  /** A send keeps the record sound: by hand at any time, otherwise as the first or when it is due. */
  lemma SendKeepsSound(d: Delivery, posts: seq<Post>, s: Send, byHand: bool)
    requires Sound(d, posts) && !s.outcome.Refused? && 0.0 <= s.dice < 1.0
    requires byHand || d.status.Pending? || IsDue(d, s.at)
    ensures Sound(AfterSend(d, s), posts + [Post(Ok(s.outcome), byHand, s.at)])
  {
    var p := Post(Ok(s.outcome), byHand, s.at);
    AutomaticMore(posts, p);
    BackoffRange(d.attempt, s.dice);
    hide Automatic, BackoffWithJitter, BackoffBase, Ok;
    if NoneByHand(posts + [p]) {
      NoneByHandBefore(posts, p);
      var all, n := posts + [p], |posts|;
      assert forall k :: 0 <= k < n ==> all[k] == posts[k];
      assert Tells(AfterSend(d, s), all);
    }
  }

  // ---------- Whole runs ----------

  const CREATED: Delivery := Delivery(Pending, 1, None, None, None)

  datatype Try = Try(send: Send, byHand: bool)

  // The service sends a delivery when it is new or due; by hand it is sent at any time.
  predicate MaySend(d: Delivery, t: Try) {
    0.0 <= t.send.dice < 1.0 && (t.byHand || d.status.Pending? || IsDue(d, t.send.at))
  }

  function AfterTry(d: Delivery, t: Try): Delivery {
    if t.send.outcome.Refused? then d else AfterSend(d, t.send)
  }

  function PostOf(s: Send, byHand: bool): seq<Post> {
    if s.outcome.Refused? then [] else [Post(Ok(s.outcome), byHand, s.at)]
  }

  predicate MayRun(d: Delivery, run: seq<Try>)
    decreases |run|
  {
    run == [] || (MaySend(d, run[0]) && MayRun(AfterTry(d, run[0]), run[1..]))
  }

  function AfterRun(d: Delivery, run: seq<Try>): Delivery
    decreases |run|
  {
    if run == [] then d else AfterRun(AfterTry(d, run[0]), run[1..])
  }

  function PostsOf(run: seq<Try>): seq<Post> {
    if run == [] then [] else PostOf(run[0].send, run[0].byHand) + PostsOf(run[1..])
  }

  lemma {:induction false} RunKeepsSound(d: Delivery, posts: seq<Post>, run: seq<Try>)
    requires Sound(d, posts) && MayRun(d, run)
    ensures Sound(AfterRun(d, run), posts + PostsOf(run))
    decreases |run|
  {
    if run == [] {
      AppendNothing(posts);
    } else {
      var t := run[0];
      if !t.send.outcome.Refused? {
        SendKeepsSound(d, posts, t.send, t.byHand);
      } else {
        AppendNothing(posts);
      }
      hide Sound, AfterSend, Ok;
      RunKeepsSound(AfterTry(d, t), posts + PostOf(t.send, t.byHand), run[1..]);
      Associative(posts, PostOf(t.send, t.byHand), PostsOf(run[1..]));
    }
  }

  /**
   * However often a new delivery is sent, it is posted at most five times, not counting those that someone resends by
   * hand. If no one does, its record tells how the POSTs went, so that one that never succeeds has failed exactly after
   * its fifth.
   */
  lemma AtMostFive(run: seq<Try>)
    requires MayRun(CREATED, run)
    ensures var d, posts := AfterRun(CREATED, run), PostsOf(run);
            && Automatic(posts) <= 5
            && (NoneByHand(posts) ==> |posts| <= 5 && Tells(d, posts))
            && (NoneByHand(posts) && (forall p :: p in posts ==> !p.ok) ==>
                  (d.status.Failed? <==> |posts| == 5))
  {
    RunKeepsSound(CREATED, [], run);
    AppendNothing(PostsOf(run));
    var posts := PostsOf(run);
    hide Automatic, PostsOf, AfterRun;
    assert posts != [] ==> posts[|posts| - 1] in posts;
  }

  // ---------- The service ----------

  // The records after a send of one delivery.
  function Advanced(deliveries: map<nat, Delivery>, id: nat, s: Send): map<nat, Delivery>
    requires id in deliveries
  {
    if s.outcome.Refused? then deliveries else deliveries[id := AfterSend(deliveries[id], s)]
  }

  // Exactly the given sends were made, each once.
  ghost predicate Sent(
    before: map<nat, Delivery>, after: map<nat, Delivery>, done: seq<nat>, sends: nat -> Send)
  {
    && after.Keys == before.Keys
    && forall id :: id in before ==>
         after[id] == if id in done && !sends(id).outcome.Refused? then AfterSend(before[id], sends(id)) else before[id]
  }

  // The sends of a run that began at the given time.
  ghost predicate OnTime(sends: nat -> Send, now: int) {
    forall id :: sends(id).at >= now && 0.0 <= sends(id).dice < 1.0
  }

  ghost predicate Posted(
    before: map<nat, seq<Post>>, after: map<nat, seq<Post>>, done: seq<nat>, sends: nat -> Send)
  {
    && after.Keys == before.Keys
    && forall id :: id in before ==>
         after[id] == before[id] + if id in done then PostOf(sends(id), false) else []
  }

  predicate AnyRefused(ids: seq<nat>, sends: nat -> Send) {
    exists i :: 0 <= i < |ids| && sends(ids[i]).outcome.Refused?
  }

  /** How many items mapConcurrent starts: all of them, or those up to the first slice of ten in which one throws. */
  function Reached(due: seq<nat>, sends: nat -> Send): (n: nat)
    ensures n <= |due|
    ensures !AnyRefused(due, sends) ==> n == |due|
    ensures n < |due| ==> n % 10 == 0
  {
    if |due| <= RETRY_CONCURRENCY then |due|
    else if AnyRefused(due[..RETRY_CONCURRENCY], sends) then RETRY_CONCURRENCY
    else
      assert AnyRefused(due[RETRY_CONCURRENCY..], sends) ==> AnyRefused(due, sends) by {
        var rest := due[RETRY_CONCURRENCY..];
        assert forall i :: 0 <= i < |rest| ==> rest[i] == due[i + RETRY_CONCURRENCY];
      }
      RETRY_CONCURRENCY + Reached(due[RETRY_CONCURRENCY..], sends)
  }

  /** The slices are of ten, none throws before the last that is reached, and if some are not reached that one does. */
  lemma {:induction false} ReachedIs(due: seq<nat>, sends: nat -> Send)
    ensures var n := Reached(due, sends);
            && (due != [] ==> n > 0)
            && (forall m: nat :: m % 10 == 0 && m < n ==> !AnyRefused(due[..m], sends))
            && (n < |due| ==> n >= 10 && n % 10 == 0 && AnyRefused(due[n - 10..n], sends))
  {
    hide AnyRefused;
    NothingRefused(sends);
    assert due[..0] == [];
    if |due| > 10 && !AnyRefused(due[..10], sends) {
      var rest := due[10..];
      var n := Reached(rest, sends);
      ReachedIs(rest, sends);
      forall m: nat | m % 10 == 0 && 10 <= m < 10 + n ensures !AnyRefused(due[..m], sends) {
        TenMore(due, m);
        AnyRefusedAppend(due[..10], rest[..m - 10], sends);
      }
      if n < |rest| { assert due[n..n + 10] == rest[n - 10..n]; }
    }
  }

  lemma TenMore(due: seq<nat>, m: nat)
    requires 10 <= m <= |due|
    ensures due[..m] == due[..10] + due[10..][..m - 10]
  {
  }

  lemma NothingRefused(sends: nat -> Send)
    ensures !AnyRefused([], sends)
  {
  }

  lemma AnyRefusedAppend(a: seq<nat>, b: seq<nat>, sends: nat -> Send)
    ensures AnyRefused(a + b, sends) ==> AnyRefused(a, sends) || AnyRefused(b, sends)
  {
    if AnyRefused(a + b, sends) {
      var i :| 0 <= i < |a + b| && sends((a + b)[i]).outcome.Refused?;
      if i < |a| {
        assert (a + b)[i] == a[i];
      } else {
        assert (a + b)[i] == b[i - |a|];
      }
    }
  }

  // What the query for due deliveries may return: all of them, or any hundred.
  ghost predicate Selects(deliveries: map<nat, Delivery>, due: seq<nat>, now: int) {
    && |due| <= 100
    && (forall i, j :: 0 <= i < j < |due| ==> due[i] != due[j])
    && (forall id :: id in due ==> id in deliveries && IsDue(deliveries[id], now))
    && (|due| < 100 ==> forall id :: id in deliveries && IsDue(deliveries[id], now) ==> id in due)
  }

  // One more send.
  lemma SentMore(
    before: map<nat, Delivery>, after: map<nat, Delivery>, done: seq<nat>, id: nat, sends: nat -> Send)
    requires Sent(before, after, done, sends) && id in before && id !in done
    ensures after[id] == before[id]
    ensures Sent(before, Advanced(after, id, sends(id)), done + [id], sends)
  {
    hide AfterSend;
  }

  lemma PostedMore(
    before: map<nat, seq<Post>>, after: map<nat, seq<Post>>, done: seq<nat>, id: nat, sends: nat -> Send)
    requires Posted(before, after, done, sends) && id in before && id !in done
    ensures Posted(before, after[id := after[id] + PostOf(sends(id), false)], done + [id], sends)
  {
    AppendNothing(before[id]);
    hide PostOf;
  }

  lemma AnyRefusedMore(ids: seq<nat>, more: seq<nat>, sends: nat -> Send)
    ensures AnyRefused(ids + more, sends) <==> AnyRefused(ids, sends) || AnyRefused(more, sends)
  {
    var all := ids + more;
    assert forall i :: 0 <= i < |ids| ==> all[i] == ids[i];
    assert forall i :: 0 <= i < |more| ==> all[|ids| + i] == more[i];
  }

  // Of the slice that began with the i-th due delivery, all up to the j-th were sent, after all of the slices before.
  ghost predicate Progress(
    before: map<nat, Delivery>, after: map<nat, Delivery>, posted: map<nat, seq<Post>>, posts: map<nat, seq<Post>>,
    due: seq<nat>, i: nat, j: nat, sends: nat -> Send, threw: bool)
  {
    && i <= j <= |due| && posted.Keys == before.Keys
    && Sent(before, after, due[..j], sends) && Posted(posted, posts, due[..j], sends)
    && threw == AnyRefused(due[i..j], sends)
  }

  lemma NextSend(
    before: map<nat, Delivery>, after: map<nat, Delivery>, posted: map<nat, seq<Post>>, posts: map<nat, seq<Post>>,
    due: seq<nat>, i: nat, j: nat, now: int, sends: nat -> Send, threw: bool)
    requires j < |due| && Selects(before, due, now) && OnTime(sends, now)
    requires Progress(before, after, posted, posts, due, i, j, sends, threw)
    ensures 0.0 <= sends(due[j]).dice < 1.0
    ensures due[j] in after && due[j] in posts && IsDue(after[due[j]], sends(due[j]).at)
    ensures var id, s := due[j], sends(due[j]);
            Progress(before, Advanced(after, id, s), posted, posts[id := posts[id] + PostOf(s, false)],
                     due, i, j + 1, sends, threw || s.outcome.Refused?)
  {
    var id := due[j];
    assert id in due && id !in due[..j];
    assert due[..j + 1] == due[..j] + [id] && due[i..j + 1] == due[i..j] + [id];
    hide AfterSend, PostOf, AnyRefused, Advanced;
    SentMore(before, after, due[..j], id, sends);
    PostedMore(posted, posts, due[..j], id, sends);
    AnyRefusedMore(due[i..j], [id], sends);
    OneRefused(id, sends);
  }

  lemma NoneRefused(sends: nat -> Send)
    ensures !AnyRefused([], sends)
  {
  }

  lemma OneRefused(id: nat, sends: nat -> Send)
    ensures AnyRefused([id], sends) <==> sends(id).outcome.Refused?
  {
    assert [id][0] == id;
  }

  lemma NothingSent(deliveries: map<nat, Delivery>, posts: map<nat, seq<Post>>, sends: nat -> Send)
    ensures Sent(deliveries, deliveries, [], sends) && Posted(posts, posts, [], sends)
  {
    forall id | id in posts ensures posts[id] + [] == posts[id] {
      AppendNothing(posts[id]);
    }
  }

  // The slice that comes next.
  lemma NextSlice(due: seq<nat>, i: nat, sends: nat -> Send) returns (end: nat)
    requires i < |due|
    ensures end == if i + RETRY_CONCURRENCY < |due| then i + RETRY_CONCURRENCY else |due|
    ensures due[..end] == due[..i] + due[i..end]
    ensures Reached(due[i..], sends)
            == if end == |due| || AnyRefused(due[i..end], sends) then end - i else end - i + Reached(due[end..], sends)
  {
    end := if i + RETRY_CONCURRENCY < |due| then i + RETRY_CONCURRENCY else |due|;
    var rest := due[i..];
    assert rest[end - i..] == due[end..] && rest[..end - i] == due[i..end];
    hide AnyRefused;
  }

  lemma SetTwice<V>(m: map<nat, V>, id: nat, first: V, second: V)
    ensures m[id := first][id := second] == m[id := second]
  {
  }

  class WebhookService {
    var deliveries: map<nat, Delivery>
    ghost var posts: map<nat, seq<Post>>

    ghost predicate Valid()
      reads this
    {
      posts.Keys == deliveries.Keys && forall id :: id in deliveries ==> Sound(deliveries[id], posts[id])
    }

    constructor ()
      ensures Valid() && deliveries == map[]
    {
      deliveries, posts := map[], map[];
    }

    /** One POST; a secret that cannot be decrypted is an error ahead of it. */
    method SendOne(id: nat, s: Send, ghost byHand: bool) returns (threw: bool)
      requires Valid() && id in deliveries && 0.0 <= s.dice < 1.0
      requires byHand || deliveries[id].status.Pending? || IsDue(deliveries[id], s.at)
      modifies this
      ensures Valid() && threw == s.outcome.Refused?
      ensures deliveries == Advanced(old(deliveries), id, s)
      ensures posts == old(posts)[id := old(posts[id]) + PostOf(s, byHand)]
    {
      if s.outcome.Refused? {
        posts := posts[id := posts[id]];
        AppendNothing(posts[id]);
        return true;
      }
      SendKeepsSound(deliveries[id], posts[id], s, byHand);
      assert PostOf(s, byHand) == [Post(Ok(s.outcome), byHand, s.at)];
      hide Sound, Ok, AfterSend, IsDue, PostOf;
      var d := deliveries[id];
      posts := posts[id := posts[id] + PostOf(s, byHand)];
      deliveries := deliveries[id := AfterSend(d, s)];
      threw := false;
    }

    /** A new delivery, and its first POST. */
    method Deliver(id: nat, s: Send) returns (threw: bool)
      requires Valid() && id !in deliveries && 0.0 <= s.dice < 1.0
      modifies this
      ensures Valid() && threw == s.outcome.Refused?
      ensures deliveries == old(deliveries)[id := AfterTry(CREATED, Try(s, false))]
      ensures posts == old(posts)[id := PostOf(s, false)]
    {
      var created := CREATED;
      SetTwice(deliveries, id, created, AfterTry(created, Try(s, false)));
      SetTwice(posts, id, [], [] + PostOf(s, false));
      AppendNothing(PostOf(s, false));
      assert Sound(created, []);
      hide Sound, AfterSend, PostOf, IsDue;
      deliveries, posts := deliveries[id := created], posts[id := []];
      assert Valid();
      hide Valid;
      threw := SendOne(id, s, false);
    }

    // The slice of the due deliveries from the i-th on, all of which are sent whatever becomes of the others.
    method SendSlice(
      ghost before: map<nat, Delivery>, ghost posted: map<nat, seq<Post>>, due: seq<nat>, i: nat, end: nat, now: int,
      sends: nat -> Send)
      returns (threw: bool)
      requires Valid() && i <= end <= |due| && Selects(before, due, now) && OnTime(sends, now)
      requires Progress(before, deliveries, posted, posts, due, i, i, sends, false)
      modifies this
      ensures Valid() && Progress(before, deliveries, posted, posts, due, i, end, sends, threw)
    {
      hide *;
      threw := false;
      for j := i to end
        invariant Valid() && Progress(before, deliveries, posted, posts, due, i, j, sends, threw)
      {
        NextSend(before, deliveries, posted, posts, due, i, j, now, sends, threw);
        var failed := SendOne(due[j], sends(due[j]), false);
        threw := threw || failed;
      }
    }

    /** Every due delivery that is reached is sent exactly once, and nothing else changes. */
    method ProcessRetries(due: seq<nat>, now: int, sends: nat -> Send) returns (threw: bool)
      requires Valid() && Selects(deliveries, due, now)
      requires OnTime(sends, now)
      modifies this
      ensures Valid() && threw == AnyRefused(due[..Reached(due, sends)], sends)
      ensures Sent(old(deliveries), deliveries, due[..Reached(due, sends)], sends)
      ensures Posted(old(posts), posts, due[..Reached(due, sends)], sends)
    {
      ghost var before, posted := deliveries, posts;
      NothingSent(before, posted, sends);
      NoneRefused(sends);
      assert due[..0] == [] && due[0..] == due && due[|due|..] == [];
      hide AnyRefused, Sent, Posted, Selects, OnTime;
      threw := false;
      var i := 0;
      while i < |due| && !threw
        invariant 0 <= i <= |due| && Valid()
        invariant Sent(before, deliveries, due[..i], sends) && Posted(posted, posts, due[..i], sends)
        invariant threw == AnyRefused(due[..i], sends)
        invariant if threw then i == Reached(due, sends) else Reached(due, sends) == i + Reached(due[i..], sends)
        decreases |due| - i
      {
        ghost var slice := NextSlice(due, i, sends);
        var end := if i + RETRY_CONCURRENCY < |due| then i + RETRY_CONCURRENCY else |due|;
        AnyRefusedMore(due[..i], due[i..end], sends);
        assert due[i..i] == [];
        hide Reached, Valid;
        threw := SendSlice(before, posted, due, i, end, now, sends);
        i := end;
      }
    }
  }
}
