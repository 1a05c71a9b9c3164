/** Which tokens are valid after a whole run of starts, stops, revocations and verifications. */
module ImpersonationLaws {
  import opened Wrappers
  import opened Impersonation

  function Begin(now: int): State { State(map[], [], map[], {}, now) }

  /** The state after a run from an empty cache. */
  function After(setup: Setup, begin: int, run: seq<Event>): State {
    if run == [] then Begin(begin)
    else Next(setup, After(setup, begin, run[..|run| - 1]), run[|run| - 1])
  }

  // Time goes on, and generated ids are new.
  predicate MayRun(setup: Setup, begin: int, run: seq<Event>) {
    run == [] ||
    (var front := run[..|run| - 1];
     MayRun(setup, begin, front) && May(After(setup, begin, front), run[|run| - 1]))
  }

  // A session is started under this id.
  predicate Starts(setup: Setup, e: Event, id: string) {
    e.op.Starting? && e.op.id == id && MayStart(setup, e.op)
  }

  // The session of this id is stopped, by a valid token, or revoked.
  predicate Ends(setup: Setup, e: Event, id: string) {
    match e.op
    case Stopping(token) => Extracted(setup, token) == Some(id)
    case Revoking(other) => other == id
    case _ => false
  }

  // When the session was started, -1 if never.
  function StartOf(setup: Setup, run: seq<Event>, id: string): (k: int)
    ensures -1 <= k < |run|
    ensures k >= 0 ==> Starts(setup, run[k], id)
    ensures forall j :: k < j < |run| ==> !Starts(setup, run[j], id)
  {
    if run == [] then -1
    else if Starts(setup, run[|run| - 1], id) then |run| - 1
    else StartOf(setup, run[..|run| - 1], id)
  }

  // Whether it was stopped or revoked since.
  predicate EndedSince(setup: Setup, run: seq<Event>, id: string)
    ensures EndedSince(setup, run, id)
            <==> exists j :: StartOf(setup, run, id) < j < |run| && Ends(setup, run[j], id)
  {
    if run == [] then false
    else
      var front, last := run[..|run| - 1], run[|run| - 1];
      assert forall j :: 0 <= j < |front| ==> run[j] == front[j];
      !Starts(setup, last, id) && (Ends(setup, last, id) || EndedSince(setup, front, id))
  }

  // The session as it was started.
  function SessionAt(setup: Setup, e: Event): Session
    requires e.op.Starting?
  {
    NewSession(setup, e.op, e.now)
  }

  /** What a token's session is worth, by the run alone. */
  function WorthByRun(setup: Setup, run: seq<Event>, id: Option<string>, now: int): Option<Context> {
    if id.None? then None
    else
      var k := StartOf(setup, run, id.value);
      if k < 0 || EndedSince(setup, run, id.value) || SessionAt(setup, run[k]).expiresAt <= now then None
      else Some(ContextOf(id.value, SessionAt(setup, run[k])))
  }

  // How a step moves what is issued and ended.
  lemma NextHistory(setup: Setup, s: State, e: Event, id: string)
    ensures var t := Next(setup, s, e);
            && t.clock == e.now
            && (id in t.issued <==> id in s.issued || Starts(setup, e, id))
            && (id in t.issued ==> t.issued[id] == if Starts(setup, e, id) then SessionAt(setup, e) else s.issued[id])
            && (id in t.ended <==> id in s.ended || (Ends(setup, e, id) && Live(s, id, e.now).Some?))
  {
    hide Duration, HasSecret, CleanUserId, ExtractSessionId;
  }

  // The state of a session tells its history: when it was started, and while it lasts whether it was ended.
  ghost predicate Tells(setup: Setup, run: seq<Event>, s: State, id: string) {
    var k := StartOf(setup, run, id);
    && (id in s.issued <==> k >= 0)
    && (k >= 0 ==> s.issued[id] == SessionAt(setup, run[k]))
    && (id in s.ended ==> k >= 0 && EndedSince(setup, run, id))
    && (k >= 0 && EndedSince(setup, run, id) && s.clock < s.issued[id].expiresAt ==> id in s.ended)
  }

  lemma StepTells(setup: Setup, run: seq<Event>, s: State, id: string)
    requires run != [] && Sound(s) && May(s, run[|run| - 1]) && Tells(setup, run[..|run| - 1], s, id)
    ensures Tells(setup, run, Next(setup, s, run[|run| - 1]), id)
  {
    var e := run[|run| - 1];
    NextHistory(setup, s, e, id);
    CachedAsStarted(s, id);
    IssuedBeforeEnded(s, id);
    var front := run[..|run| - 1];
    var k := StartOf(setup, front, id);
    assert k >= 0 ==> run[k] == front[k];
    assert id in s.cache && e.now < s.issued[id].expiresAt ==> Live(s, id, e.now).Some?;
    assert Starts(setup, e, id) ==> !Ends(setup, e, id);
    hide Starts, Ends, Next, Sound, SessionAt, Live;
  }

  lemma IssuedBeforeEnded(s: State, id: string)
    requires Sound(s)
    ensures id in s.ended ==> id in s.issued
  {
    hide FirstUses;
  }

  lemma {:induction false} RunTells(setup: Setup, begin: int, run: seq<Event>, id: string)
    requires MayRun(setup, begin, run)
    ensures Sound(After(setup, begin, run)) && Tells(setup, run, After(setup, begin, run), id)
  {
    if run == [] {
      BeginSound(begin);
    } else {
      var front := run[..|run| - 1];
      RunTells(setup, begin, front, id);
      hide Tells, Sound, Next;
      NextSound(setup, After(setup, begin, front), run[|run| - 1]);
      StepTells(setup, run, After(setup, begin, front), id);
    }
  }

  lemma BeginSound(begin: int)
    ensures Sound(Begin(begin))
  {
  }

  /**
   * After every run, verifying a token returns the data of a session exactly if the token's hash matches, the session
   * was started, was neither stopped nor revoked since, and has not expired, however often the cache was
   * rewritten. And its first use was logged once at most.
   */
  lemma VerifiesExactly(setup: Setup, begin: int, run: seq<Event>, token: string, now: int)
    requires MayRun(setup, begin, run) && After(setup, begin, run).clock <= now
    ensures var id := Extracted(setup, token);
            && Returned(After(setup, begin, run), id, now) == WorthByRun(setup, run, id, now)
            && (id.Some? ==> FirstUses(After(setup, begin, run).audits, id.value) <= 1)
  {
    var id, s := Extracted(setup, token), After(setup, begin, run);
    RunTells(setup, begin, run, if id.Some? then id.value else "");
    ReturnsWorth(s, id, now);
    if id.Some? { LoggedOnce(s, id.value); }
    hide Sound, After, Returned, Extracted, StartOf, EndedSince;
  }

  lemma LoggedOnce(s: State, id: string)
    requires Sound(s)
    ensures FirstUses(s.audits, id) <= 1
  {
    hide FirstUses;
  }

  // ---------- What a session was started with ----------

  lemma {:induction false} MayPrefix(setup: Setup, begin: int, run: seq<Event>, n: nat)
    requires MayRun(setup, begin, run) && n <= |run|
    ensures MayRun(setup, begin, run[..n])
    ensures n < |run| ==> May(After(setup, begin, run[..n]), run[n])
    decreases |run|
  {
    hide May;
    if n < |run| {
      var front := run[..|run| - 1];
      MayPrefix(setup, begin, front, n);
      assert front[..n] == run[..n];
    } else {
      assert run[..n] == run;
    }
  }

  // An id is given out once.
  lemma StartedOnce(setup: Setup, begin: int, run: seq<Event>, k: nat, id: string)
    requires MayRun(setup, begin, run) && k < |run| && Starts(setup, run[k], id)
    ensures StartOf(setup, run, id) == k
  {
    var j := StartOf(setup, run, id);
    assert j >= k;
    MayPrefix(setup, begin, run, j);
    RunTells(setup, begin, run[..j], id);
    hide StartOf, After, Sound;
    assert forall i :: 0 <= i < j ==> run[..j][i] == run[i];
  }

  /**
   * A started session, from the words of the request to the words of the answer. After any run, a valid token of it
   * returns the tenant, the user and the admin that it was started with, until the requested or configured time is
   * over, not less than a minute and not more than the maximum, or until it is stopped or revoked; and nothing then.
   */
  lemma ReturnsWhatWasStarted(
    setup: Setup, begin: int, run: seq<Event>, k: nat, id: string, tenantId: string, userId: string, adminId: string,
    requested: Option<int>, token: string, now: int)
    requires MayRun(setup, begin, run) && After(setup, begin, run).clock <= now && k < |run|
    requires run[k].op == Starting(id, tenantId, userId, adminId, requested, true)
    requires HasSecret(setup.config) && CleanUserId(userId) && CleanUserId(adminId)
    requires Extracted(setup, token) == Some(id)
    ensures var asked := if requested.Some? then requested.value
                         else if setup.config.defaultDuration.Some? then setup.config.defaultDuration.value
                         else 900;
            var longest := if setup.config.maxDuration.Some? then setup.config.maxDuration.value else 86400;
            var seconds := if longest < 60 || longest < asked then longest else if asked < 60 then 60 else asked;
            var over := exists j :: k < j < |run| &&
                          match run[j].op
                          case Stopping(other) => Extracted(setup, other) == Some(id)
                          case Revoking(other) => other == id
                          case _ => false;
            Worth(After(setup, begin, run), Extracted(setup, token), now) ==
            if !over && now < run[k].now + 1000 * seconds then Some(Context(id, tenantId, userId, adminId)) else None
  {
    StartedOnce(setup, begin, run, k, id);
    RunTells(setup, begin, run, id);
    ReturnsWorth(After(setup, begin, run), Some(id), now);
    VerifiesExactly(setup, begin, run, token, now);
    hide Sound, After, Returned, Extracted, StartOf, Worth, HasSecret, CleanUserId;
    assert EndedSince(setup, run, id) <==> exists j :: k < j < |run| && Ends(setup, run[j], id);
  }
}
