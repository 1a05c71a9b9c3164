/** Impersonation sessions: signed tokens, and a cache that holds each session until it expires or is ended. */
module Impersonation {
  import opened Wrappers
  import opened Text
  import opened Seqs

  // ---------- Hexadecimal ----------

  newtype Byte = b: int | 0 <= b < 256

  function Nibble(n: int): char
    requires 0 <= n < 16
  {
    (if n < 10 then '0' as int + n else 'a' as int + n - 10) as char
  }

  // The value of a hexadecimal digit, -1 for any other character.
  function Digit(c: char): (n: int)
    ensures -1 <= n < 16
  {
    if '0' <= c <= '9' then c as int - '0' as int
    else if 'a' <= c <= 'f' then c as int - 'a' as int + 10
    else if 'A' <= c <= 'F' then c as int - 'A' as int + 10
    else -1
  }

  function HexEncode(bytes: seq<Byte>): string {
    if bytes == [] then ""
    else [Nibble(bytes[0] as int / 16), Nibble(bytes[0] as int % 16)] + HexEncode(bytes[1..])
  }

  /** Buffer.from(s, 'hex'): it stops, without an error, at the first pair that is not two hexadecimal digits. */
  function HexDecode(s: string): seq<Byte> {
    if |s| < 2 || Digit(s[0]) < 0 || Digit(s[1]) < 0 then []
    else [(Digit(s[0]) * 16 + Digit(s[1])) as Byte] + HexDecode(s[2..])
  }

  lemma {:induction false} HexRoundTrip(bytes: seq<Byte>)
    ensures HexDecode(HexEncode(bytes)) == bytes
    ensures |HexEncode(bytes)| == 2 * |bytes|
  {
    if bytes != [] {
      HexRoundTrip(bytes[1..]);
      var s := HexEncode(bytes);
      assert s[2..] == HexEncode(bytes[1..]);
      assert Digit(Nibble(bytes[0] as int / 16)) == bytes[0] as int / 16;
      assert Digit(Nibble(bytes[0] as int % 16)) == bytes[0] as int % 16;
      Uncons(bytes);
    }
  }

  // ---------- Tokens ----------

  // The keyed hash of the configured secret; nothing is assumed of it but that it is not empty.
  type Mac = m: string -> seq<Byte> | forall s :: |m(s)| > 0 witness (s: string) => [0]

  function Sign(mac: Mac, id: string): string { id + "." + HexEncode(mac(id)) }

  function IndexOfDot(s: string): (k: int)
    ensures -1 <= k < |s|
    ensures k >= 0 ==> s[k] == '.' && '.' !in s[..k]
    ensures k == -1 ==> '.' !in s
  {
    if s == "" then -1
    else if s[0] == '.' then 0
    else
      var k := IndexOfDot(s[1..]);
      assert s == [s[0]] + s[1..];
      if k == -1 then -1 else assert s[..k + 1] == [s[0]] + s[1..][..k]; k + 1
  }

  // What is checked before the secret is asked for.
  predicate HasShape(token: string) {
    |token| >= 33 && 0 < IndexOfDot(token) < |token| - 1
  }

  /** The session id of a token whose signature is valid. */
  function ExtractSessionId(mac: Mac, token: string): Option<string> {
    if !HasShape(token) then None
    else
      var dot := IndexOfDot(token);
      var id := token[..dot];
      var a := HexDecode(token[dot + 1..]);
      var b := HexDecode(HexEncode(mac(id)));
      if |a| != |b| || |a| == 0 || a != b then None else Some(id)
  }

  lemma {:induction false} DotAt(id: string, rest: string)
    requires '.' !in id
    ensures IndexOfDot(id + "." + rest) == |id|
  {
    if id == "" {
      assert id + "." + rest == "." + rest;
    } else {
      assert (id + "." + rest)[0] == id[0];
      assert (id + "." + rest)[1..] == id[1..] + "." + rest;
      DotAt(id[1..], rest);
    }
  }

  /**
   * A token is accepted for a session id exactly if it is long enough and is that id, a dot, and text that decodes to
   * the hash of the id.
   */
  lemma ExtractExact(mac: Mac, token: string, id: string)
    ensures ExtractSessionId(mac, token) == Some(id) <==>
              && |token| >= 33 && id != "" && '.' !in id
              && |id| + 1 < |token| && token[..|id|] == id && token[|id|] == '.'
              && HexDecode(token[|id| + 1..]) == mac(id)
  {
    HexRoundTrip(mac(id));
    if |id| < |token| && token[..|id|] == id && token[|id|] == '.' && '.' !in id {
      assert token == id + "." + token[|id| + 1..];
      DotAt(id, token[|id| + 1..]);
    }
  }

  /**
   * A signed session id is accepted again exactly if it is not empty, has no dot and, with its hash, is long enough:
   * as the 32 hexadecimal digits of a generated id are.
   */
  lemma SignedIsAccepted(mac: Mac, id: string)
    ensures ExtractSessionId(mac, Sign(mac, id)) == Some(id) <==>
              id != "" && '.' !in id && |id| + 2 * |mac(id)| >= 32
  {
    HexRoundTrip(mac(id));
    var token := Sign(mac, id);
    assert token[..|id|] == id && token[|id| + 1..] == HexEncode(mac(id));
    ExtractExact(mac, token, id);
    hide *;
  }

  // ---------- Sessions ----------

  datatype Session = Session(tenantId: string, targetUserId: string, adminId: string, expiresAt: int, used: bool)

  // A cache entry and the time until which the cache keeps it.
  datatype Entry = Entry(session: Session, deadline: int)

  datatype Action = StartLogged | StopLogged | FirstUse

  datatype Audit = Audit(action: Action, id: string)

  datatype Config = Config(secret: Option<string>, defaultDuration: Option<int>, maxDuration: Option<int>)

  // #secret() throws unless the secret is long enough.
  predicate HasSecret(config: Config) { config.secret.Some? && |config.secret.value| >= 32 }

  function Longest(config: Config): int { if config.maxDuration.Some? then config.maxDuration.value else 24 * 60 * 60 }

  // The seconds that a session lasts.
  function Duration(config: Config, requested: Option<int>): (d: int)
    ensures d <= Longest(config)
    ensures 60 <= Longest(config) ==> 60 <= d
  {
    var asked := if requested.Some? then requested.value
                 else if config.defaultDuration.Some? then config.defaultDuration.value
                 else 15 * 60;
    var atLeast := if asked < 60 then 60 else asked;
    if atLeast > Longest(config) then Longest(config) else atLeast
  }

  // /^[a-zA-Z0-9._:@-]{1,128}$/
  predicate CleanUserId(s: string) {
    1 <= |s| <= 128 && forall i :: 0 <= i < |s| ==> IsWordChar(s[i]) || s[i] in ".:@-"
  }

  // How often the first use of a session was logged.
  function FirstUses(log: seq<Audit>, id: string): nat { multiset(log)[Audit(FirstUse, id)] }

  /** The service's state, and what every step so far did to it. */
  datatype State = State(
    cache: map<string, Entry>,
    audits: seq<Audit>,
    issued: map<string, Session>,  // every session ever started, as it was started
    ended: set<string>,            // the sessions that were stopped or revoked
    clock: int)                    // the time of the latest step

  // A cached session is as it was started, but for its mark of use, and it is kept at least until it expires.
  ghost predicate CacheSound(s: State) {
    && (forall id :: id in s.cache ==>
          && id in s.issued && id !in s.ended
          && s.cache[id].session.(used := false) == s.issued[id]
          && s.issued[id].expiresAt <= s.cache[id].deadline)
    && (forall id :: id in s.issued && id !in s.ended && s.clock < s.issued[id].expiresAt ==> id in s.cache)
    && s.ended <= s.issued.Keys
  }

  // The first use of a session is logged at most once, and only once the cache knows of it.
  ghost predicate AuditSound(s: State) {
    forall id ::
      && FirstUses(s.audits, id) <= 1
      && (FirstUses(s.audits, id) == 1 ==> id in s.issued && (id in s.cache ==> s.cache[id].session.used))
  }

  /** What every step keeps. */
  ghost predicate Sound(s: State) { CacheSound(s) && AuditSound(s) }

  lemma Logged(log: seq<Audit>, a: Audit, id: string)
    ensures FirstUses(log + [a], id) == FirstUses(log, id) + if a == Audit(FirstUse, id) then 1 else 0
  {
    MultisetAppend(log, [a]);
  }

  // What a cached session says, and that it is cached until it expires.
  lemma CachedAsStarted(s: State, id: string)
    requires Sound(s)
    ensures id in s.cache ==>
              && id in s.issued && id !in s.ended
              && s.cache[id].session.(used := false) == s.issued[id]
              && s.issued[id].expiresAt <= s.cache[id].deadline
    ensures id in s.issued && id !in s.ended && s.clock < s.issued[id].expiresAt ==> id in s.cache
  {
    hide FirstUses;
  }

  // ---------- The steps of the service ----------

  datatype Op =
    | Starting(id: string, tenantId: string, userId: string, adminId: string, requested: Option<int>, cacheWorks: bool)
    | Stopping(token: string)
    | Revoking(id: string)
    | Verifying(token: string, cacheWorks: bool)

  // An operation, its time, and whether logging works.
  datatype Event = Event(op: Op, now: int, auditWorks: bool)

  // The service's keyed hash and configuration.
  datatype Setup = Setup(mac: Mac, config: Config)

  predicate MayStart(setup: Setup, op: Op)
    requires op.Starting?
  {
    HasSecret(setup.config) && CleanUserId(op.userId) && CleanUserId(op.adminId) && op.cacheWorks
  }

  function NewSession(setup: Setup, op: Op, now: int): Session
    requires op.Starting?
  {
    Session(op.tenantId, op.userId, op.adminId, now + Duration(setup.config, op.requested) * 1000, false)
  }

  // The session id of a valid token; without the secret nothing is extracted.
  function Extracted(setup: Setup, token: string): Option<string> {
    if HasSecret(setup.config) then ExtractSessionId(setup.mac, token) else None
  }

  // What the cache returns.
  function Live(s: State, id: string, now: int): Option<Session> {
    if id in s.cache && now < s.cache[id].deadline then Some(s.cache[id].session) else None
  }

  function Logging(s: State, a: Audit, works: bool): State { if works then s.(audits := s.audits + [a]) else s }

  function Started(s: State, id: string, session: Session): State {
    s.(cache := s.cache[id := Entry(session, session.expiresAt)], issued := s.issued[id := session])
  }

  function Ended(s: State, id: string): State { s.(cache := s.cache - {id}, ended := s.ended + {id}) }

  function Marked(s: State, id: string, session: Session, now: int): State {
    var remaining := if session.expiresAt - now < 1000 then 1000 else session.expiresAt - now;
    s.(cache := s.cache[id := Entry(session.(used := true), now + remaining)])
  }

  // What verifying does to a session that the cache returned.
  function Checked(s: State, id: string, session: Session, now: int, cacheWorks: bool, auditWorks: bool): State {
    if session.expiresAt <= now then s.(cache := s.cache - {id})
    else if session.used || !cacheWorks then s
    else Logging(Marked(s, id, session, now), Audit(FirstUse, id), auditWorks)
  }

  /** The state after a step. */
  function Next(setup: Setup, s: State, e: Event): State {
    var t := s.(clock := e.now);
    match e.op
    case Starting(id, _, _, _, _, _) =>
      if !MayStart(setup, e.op) then t
      else Logging(Started(t, id, NewSession(setup, e.op, e.now)), Audit(StartLogged, id), e.auditWorks)
    case Stopping(token) =>
      var id := Extracted(setup, token);
      if id.None? || Live(t, id.value, e.now).None? then t
      else Logging(Ended(t, id.value), Audit(StopLogged, id.value), e.auditWorks)
    case Revoking(id) =>
      if Live(t, id, e.now).None? then t else Ended(t, id)
    case Verifying(token, cacheWorks) =>
      var id := Extracted(setup, token);
      if id.None? || Live(t, id.value, e.now).None? then t
      else Checked(t, id.value, Live(t, id.value, e.now).value, e.now, cacheWorks, e.auditWorks)
  }

  lemma NextStarting(setup: Setup, s: State, e: Event)
    requires e.op.Starting?
    ensures var t := s.(clock := e.now);
            Next(setup, s, e) ==
            if !MayStart(setup, e.op) then t
            else Logging(Started(t, e.op.id, NewSession(setup, e.op, e.now)), Audit(StartLogged, e.op.id), e.auditWorks)
  {
  }

  /** A session may be started with a secret of 32 characters or more, by an admin and for a user with clean ids. */
  lemma MayStartIs(setup: Setup, op: Op)
    requires op.Starting?
    ensures MayStart(setup, op) <==>
            && setup.config.secret.Some? && |setup.config.secret.value| >= 32 && op.cacheWorks
            && (forall s :: s in [op.userId, op.adminId] ==>
                  && 1 <= |s| <= 128
                  && forall c :: c in s ==>
                       'a' <= c <= 'z' || 'A' <= c <= 'Z' || '0' <= c <= '9' || c in "._:@-")
  {
    CleanIs(op.userId);
    CleanIs(op.adminId);
    assert op.userId in [op.userId, op.adminId] && op.adminId in [op.userId, op.adminId];
    hide CleanUserId;
  }

  lemma CleanIs(s: string)
    ensures CleanUserId(s) <==> 1 <= |s| <= 128 && forall c :: c in s ==>
              'a' <= c <= 'z' || 'A' <= c <= 'Z' || '0' <= c <= '9' || c in "._:@-"
  {
    if CleanUserId(s) {
      forall c | c in s ensures 'a' <= c <= 'z' || 'A' <= c <= 'Z' || '0' <= c <= '9' || c in "._:@-" {
        var i :| 0 <= i < |s| && s[i] == c;
      }
    } else if 1 <= |s| <= 128 {
      var i :| 0 <= i < |s| && !(IsWordChar(s[i]) || s[i] in ".:@-");
      assert s[i] in s;
    }
  }

  /** What a step logs, if logging works: starts, stops of sessions that are live, and first uses. */
  lemma StepLogs(setup: Setup, s: State, e: Event)
    ensures var more := Next(setup, s, e).audits;
            match e.op
            case Starting(id, _, _, _, _, _) =>
              more == s.audits + if MayStart(setup, e.op) && e.auditWorks then [Audit(StartLogged, id)] else []
            case Revoking(_) => more == s.audits
            case Stopping(token) =>
              var id := Extracted(setup, token);
              var live := id.Some? && Live(s, id.value, e.now).Some?;
              more == s.audits + if live && e.auditWorks then [Audit(StopLogged, id.value)] else []
            case Verifying(token, cacheWorks) =>
              var id := Extracted(setup, token);
              var found := if id.Some? then Live(s, id.value, e.now) else None;
              var first := found.Some? && e.now < found.value.expiresAt && !found.value.used && cacheWorks;
              more == s.audits + if first && e.auditWorks then [Audit(FirstUse, id.value)] else []
  {
    hide Extracted, MayStart, NewSession;
    AppendNothing(s.audits);
  }

  // Time goes on, and generated ids are new.
  predicate May(s: State, e: Event) { s.clock <= e.now && (e.op.Starting? ==> e.op.id !in s.issued) }

  lemma SoundLater(s: State, now: int)
    requires Sound(s) && s.clock <= now
    ensures Sound(s.(clock := now))
  {
    hide FirstUses;
  }

  lemma SoundLogged(s: State, a: Audit, works: bool)
    requires Sound(s) && a.action != FirstUse
    ensures Sound(Logging(s, a, works))
  {
    forall id ensures FirstUses(s.audits + [a], id) == FirstUses(s.audits, id) {
      Logged(s.audits, a, id);
    }
    hide FirstUses;
  }

  lemma SoundStarted(s: State, id: string, session: Session)
    requires Sound(s) && id !in s.issued && !session.used
    ensures Sound(Started(s, id, session))
  {
    hide FirstUses;
  }

  lemma SoundEnded(s: State, id: string)
    requires Sound(s) && id in s.cache
    ensures Sound(Ended(s, id))
  {
    hide FirstUses;
  }

  lemma SoundExpired(s: State, id: string)
    requires Sound(s) && id in s.cache && s.cache[id].session.expiresAt <= s.clock
    ensures Sound(s.(cache := s.cache - {id}))
  {
    hide FirstUses;
  }

  lemma CacheMarked(s: State, id: string)
    requires CacheSound(s) && id in s.cache
    ensures CacheSound(Marked(s, id, s.cache[id].session, s.clock))
  {
  }

  lemma AuditMarked(s: State, id: string, works: bool)
    requires AuditSound(s) && id in s.cache && id in s.issued && !s.cache[id].session.used
    ensures AuditSound(Logging(Marked(s, id, s.cache[id].session, s.clock), Audit(FirstUse, id), works))
  {
    forall i
      ensures FirstUses(s.audits + [Audit(FirstUse, id)], i) == FirstUses(s.audits, i) + if i == id then 1 else 0
    {
      Logged(s.audits, Audit(FirstUse, id), i);
    }
    hide FirstUses;
  }

  lemma LoggingKeepsCache(s: State, a: Audit, works: bool)
    requires CacheSound(s)
    ensures CacheSound(Logging(s, a, works))
  {
  }

  /** Writing a session back on its first use keeps its expiry, and logs its first use once at most. */
  lemma SoundMarked(s: State, id: string, works: bool)
    requires Sound(s) && id in s.cache && !s.cache[id].session.used
    ensures Sound(Logging(Marked(s, id, s.cache[id].session, s.clock), Audit(FirstUse, id), works))
  {
    CachedAsStarted(s, id);
    hide CacheSound, AuditSound, Marked, Logging;
    CacheMarked(s, id);
    AuditMarked(s, id, works);
    LoggingKeepsCache(Marked(s, id, s.cache[id].session, s.clock), Audit(FirstUse, id), works);
  }

  lemma SoundChecked(s: State, id: string, session: Session, cacheWorks: bool, auditWorks: bool)
    requires Sound(s) && id in s.cache && s.cache[id].session == session
    ensures Sound(Checked(s, id, session, s.clock, cacheWorks, auditWorks))
  {
    hide Sound, Marked, Logging;
    if session.expiresAt <= s.clock {
      SoundExpired(s, id);
    } else if !session.used && cacheWorks {
      SoundMarked(s, id, auditWorks);
    }
  }

  /** Every step keeps the cache and the log sound. */
  lemma NextSound(setup: Setup, s: State, e: Event)
    requires Sound(s) && May(s, e)
    ensures Sound(Next(setup, s, e))
  {
    hide Sound, Started, Ended, Checked, Logging, Extracted, MayStart, NewSession;
    var t := s.(clock := e.now);
    SoundLater(s, e.now);
    match e.op {
      case Starting(id, _, _, _, _, _) =>
        if MayStart(setup, e.op) {
          var session := NewSession(setup, e.op, e.now);
          FreshSession(setup, e.op, e.now);
          SoundStarted(t, id, session);
          SoundLogged(Started(t, id, session), Audit(StartLogged, id), e.auditWorks);
        }
      case Stopping(token) =>
        var id := Extracted(setup, token);
        if id.Some? && Live(t, id.value, e.now).Some? {
          SoundEnded(t, id.value);
          SoundLogged(Ended(t, id.value), Audit(StopLogged, id.value), e.auditWorks);
        }
      case Revoking(id) =>
        if Live(t, id, e.now).Some? { SoundEnded(t, id); }
      case Verifying(token, cacheWorks) =>
        var id := Extracted(setup, token);
        if id.Some? && Live(t, id.value, e.now).Some? {
          SoundChecked(t, id.value, Live(t, id.value, e.now).value, cacheWorks, e.auditWorks);
        }
    }
  }

  lemma FreshSession(setup: Setup, op: Op, now: int)
    requires op.Starting?
    ensures !NewSession(setup, op, now).used
  {
  }

  // The public part of a session.
  datatype Context = Context(id: string, tenantId: string, userId: string, adminId: string)

  function ContextOf(id: string, s: Session): Context { Context(id, s.tenantId, s.targetUserId, s.adminId) }

  /** What a session id is worth at a time: the data it was started with, until it is ended or expires. */
  function Worth(s: State, id: Option<string>, now: int): Option<Context> {
    if id.Some? && id.value in s.issued && id.value !in s.ended && now < s.issued[id.value].expiresAt
    then Some(ContextOf(id.value, s.issued[id.value]))
    else None
  }

  // What verify returns for a session id.
  function Returned(s: State, id: Option<string>, now: int): Option<Context> {
    if id.None? then None
    else
      var found := Live(s, id.value, now);
      if found.None? || found.value.expiresAt <= now then None else Some(ContextOf(id.value, found.value))
  }

  lemma ReturnsWorth(s: State, id: Option<string>, now: int)
    requires Sound(s) && s.clock <= now
    ensures Returned(s, id, now) == Worth(s, id, now)
  {
    SoundLater(s, now);
    if id.Some? { CachedAsStarted(s.(clock := now), id.value); }
    hide Sound;
  }

  // Checking a session changes neither what was issued nor what was ended.
  lemma CheckedKeeps(s: State, id: Option<string>, now: int, cacheWorks: bool, auditWorks: bool)
    ensures forall session :: id.Some? ==>
              var t := Checked(s, id.value, session, now, cacheWorks, auditWorks);
              t.issued == s.issued && t.ended == s.ended && t.clock == s.clock
  {
  }

  lemma LastsNoLonger(setup: Setup, s: State, op: Op, now: int, works: bool)
    requires op.Starting?
    ensures var t := Logging(Started(s, op.id, NewSession(setup, op, now)), Audit(StartLogged, op.id), works);
            op.id in t.issued && t.issued[op.id].expiresAt <= now + Longest(setup.config) * 1000
  {
    hide Duration, Longest;
  }

  class ImpersonationService {
    var cache: map<string, Entry>
    var audits: seq<Audit>
    const mac: Mac
    const config: Config
    ghost var issued: map<string, Session>
    ghost var ended: set<string>
    ghost var clock: int

    ghost function Now(): State
      reads this
    {
      State(cache, audits, issued, ended, clock)
    }

    ghost function Set(): Setup { Setup(mac, config) }

    /**
     * Sessions that were neither ended nor expired are cached as they were started, and first used at most once.
     */
    ghost predicate Valid()
      reads this
    {
      Sound(Now())
    }

    constructor (mac: Mac, config: Config, now: int)
      ensures Valid() && Now() == State(map[], [], map[], {}, now)
      ensures this.mac == mac && this.config == config
    {
      this.mac, this.config := mac, config;
      cache, audits, issued, ended, clock := map[], [], map[], {}, now;
    }

    method Get(id: string, now: int) returns (found: Option<Session>)
      ensures found == Live(Now(), id, now)
    {
      found := if id in cache && now < cache[id].deadline then Some(cache[id].session) else None;
    }

    // A failing audit log goes unnoticed.
    method Log(a: Audit, auditWorks: bool)
      modifies this`audits
      ensures Now() == Logging(old(Now()), a, auditWorks)
    {
      if auditWorks {
        audits := audits + [a];
      }
    }

    // The id of a valid token; it throws if the secret is needed and is not configured.
    method Extract(token: string) returns (thrown: bool, id: Option<string>)
      ensures thrown == (HasShape(token) && !HasSecret(config))
      ensures id == Extracted(Set(), token)
    {
      if !HasShape(token) { return false, None; }
      if !HasSecret(config) { return true, None; }
      thrown, id := false, ExtractSessionId(mac, token);
    }

    // Caches a new session until it expires.
    method Open(op: Op, now: int)
      requires op.Starting?
      modifies this`cache, this`issued
      ensures Now() == Started(old(Now()), op.id, NewSession(Set(), op, now))
    {
      hide Duration;
      var expiresAt := now + Duration(config, op.requested) * 1000;
      var session := Session(op.tenantId, op.userId, op.adminId, expiresAt, false);
      cache, issued := cache[op.id := Entry(session, expiresAt)], issued[op.id := session];
    }

    /** A new session with a generated id; it never lasts longer than the configured maximum. */
    method Start(op: Op, now: int, auditWorks: bool) returns (token: Option<string>)
      requires Valid() && op.Starting? && May(Now(), Event(op, now, auditWorks))
      modifies this
      ensures Valid() && Now() == Next(Set(), old(Now()), Event(op, now, auditWorks))
      ensures token == if MayStart(Set(), op) then Some(Sign(mac, op.id)) else None
      ensures token.Some? ==> op.id in issued && issued[op.id].expiresAt <= now + Longest(config) * 1000
    {
      NextSound(Set(), Now(), Event(op, now, auditWorks));
      NextStarting(Set(), Now(), Event(op, now, auditWorks));
      LastsNoLonger(Set(), Now().(clock := now), op, now, auditWorks);
      hide Sound, HasSecret, CleanUserId, Sign, Next, Started, NewSession, Logging;
      clock := now;
      if !HasSecret(config) || !CleanUserId(op.userId) || !CleanUserId(op.adminId) || !op.cacheWorks { return None; }
      Open(op, now);
      Log(Audit(StartLogged, op.id), auditWorks);
      token := Some(Sign(mac, op.id));
    }

    /** Ends the session of a valid token, if the cache still has it, as it does until the session expires. */
    method Stop(token: string, now: int, auditWorks: bool) returns (thrown: bool, stopped: bool)
      requires Valid() && clock <= now
      modifies this
      ensures Valid() && Now() == Next(Set(), old(Now()), Event(Stopping(token), now, auditWorks))
      ensures thrown == (HasShape(token) && !HasSecret(config))
      ensures var id := Extracted(Set(), token);
              && stopped == (id.Some? && Live(old(Now()), id.value, now).Some?)
              && Worth(Now(), id, now) == None
    {
      NextSound(Set(), Now(), Event(Stopping(token), now, auditWorks));
      ReturnsWorth(Now(), Extracted(Set(), token), now);
      hide Sound, Extracted, HasSecret, HasShape;
      clock := now;
      var extracted;
      thrown, extracted := Extract(token);
      stopped := false;
      if extracted.None? { return; }
      var id := extracted.value;
      var session := Get(id, now);
      if session.None? { return; }
      cache, ended := cache - {id}, ended + {id};
      Log(Audit(StopLogged, id), auditWorks);
      stopped := true;
    }

    /** Ends a session by its id, under the same condition; nothing is logged. */
    method RevokeById(id: string, now: int) returns (revoked: bool)
      requires Valid() && clock <= now
      modifies this
      ensures Valid() && Now() == Next(Set(), old(Now()), Event(Revoking(id), now, false))
      ensures revoked == Live(old(Now()), id, now).Some? && Worth(Now(), Some(id), now) == None
    {
      NextSound(Set(), Now(), Event(Revoking(id), now, false));
      ReturnsWorth(Now(), Some(id), now);
      hide Sound;
      clock := now;
      var session := Get(id, now);
      if session.None? { return false; }
      cache, ended := cache - {id}, ended + {id};
      revoked := true;
    }

    /**
     * A token is valid exactly if its hash matches and its session was started, was neither stopped nor revoked, and
     * has not expired; the caller then learns who was started as whom. Verifying moves no expiry, though the first
     * time it writes the session back.
     */
    method Verify(token: string, now: int, cacheWorks: bool, auditWorks: bool)
      returns (thrown: bool, context: Option<Context>)
      requires Valid() && clock <= now
      modifies this
      ensures Valid() && Now() == Next(Set(), old(Now()), Event(Verifying(token, cacheWorks), now, auditWorks))
      ensures issued == old(issued) && ended == old(ended)
      ensures thrown == (HasShape(token) && !HasSecret(config))
      ensures context == Worth(old(Now()), Extracted(Set(), token), now)
    {
      NextSound(Set(), Now(), Event(Verifying(token, cacheWorks), now, auditWorks));
      ReturnsWorth(Now(), Extracted(Set(), token), now);
      CheckedKeeps(Now().(clock := now), Extracted(Set(), token), now, cacheWorks, auditWorks);
      hide Sound, Extracted, HasSecret, HasShape, Checked, Ended, Started, Worth;
      clock := now;
      var extracted;
      thrown, extracted := Extract(token);
      context := None;
      if extracted.None? { return; }
      var id := extracted.value;
      var found := Get(id, now);
      if found.None? { return; }
      var session := found.value;
      var expired := Use(id, session, now, cacheWorks, auditWorks);
      if expired { return; }
      context := Some(Context(id, session.tenantId, session.targetUserId, session.adminId));
    }

    // An expired session is deleted, and one used for the first time is written back and logged.
    method Use(id: string, session: Session, now: int, cacheWorks: bool, auditWorks: bool) returns (expired: bool)
      modifies this`cache, this`audits
      ensures Now() == Checked(old(Now()), id, session, now, cacheWorks, auditWorks)
      ensures expired == (session.expiresAt <= now)
    {
      expired := session.expiresAt <= now;
      if expired {
        cache := cache - {id};
        return;
      }
      if !session.used && cacheWorks {
        var remaining := if session.expiresAt - now < 1000 then 1000 else session.expiresAt - now;
        cache := cache[id := Entry(session.(used := true), now + remaining)];
        Log(Audit(FirstUse, id), auditWorks);
      }
    }
  }
}
