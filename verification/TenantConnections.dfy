/** The bounded pool of tenant connections that both PostgreSQL drivers keep in Lucid's connection manager. */
module TenantConnections {
  import opened Identifiers
  import opened Seqs

  const MAX_TENANT_CONNECTIONS: nat := 50

  // The insertion-ordered map of tenant connections, least recently used first, and what the manager has registered.
  datatype Pool = Pool(lru: seq<string>, registered: set<string>)

  // What a driver does to the pool, one tenant at a time.
  datatype Use = Connected(id: string) | Dropped(id: string)

  function Without(lru: seq<string>, id: string): seq<string> {
    if lru == [] then []
    else (if lru[0] == id then [] else [lru[0]]) + Without(lru[1..], id)
  }

  // Deleting a key and setting it again moves it to the end.
  function Touched(lru: seq<string>, id: string): seq<string> { Without(lru, id) + [id] }

  function Evicted(pool: Pool): Pool {
    if |pool.lru| <= MAX_TENANT_CONNECTIONS then pool
    else Pool(pool.lru[1..], pool.registered - {pool.lru[0]})
  }

  function Used(pool: Pool, use: Use): Pool {
    match use
    case Connected(id) =>
      if id in pool.registered then pool.(lru := Touched(pool.lru, id))
      else Evicted(Pool(Touched(pool.lru, id), pool.registered + {id}))
    case Dropped(id) => Pool(Without(pool.lru, id), pool.registered - {id})
  }

  /** The pool after a history of uses, from an empty one. */
  function After(history: seq<Use>): Pool {
    if history == [] then Pool([], {})
    else Used(After(history[..|history| - 1]), history[|history| - 1])
  }

  lemma AfterOneMore(history: seq<Use>, use: Use)
    ensures After(history + [use]) == Used(After(history), use)
  {
    assert (history + [use])[..|history|] == history;
  }

  // ---------- The drivers ----------

  datatype Kind = SchemaPg | DatabasePg

  class ConnectionDriver {
    var lru: seq<string>
    var registered: set<string>
    var storages: set<string>
    const kind: Kind
    const templateFound: bool
    ghost var history: seq<Use>

    ghost predicate Valid()
      reads this
    { Pool(lru, registered) == After(history) }

    constructor (kind: Kind, templateFound: bool)
      ensures Valid() && history == [] && storages == {}
      ensures this.kind == kind && this.templateFound == templateFound
    {
      this.kind, this.templateFound := kind, templateFound;
      lru, registered, storages, history := [], {}, {}, [];
    }

    method Touch(id: string)
      modifies this`lru
      ensures lru == Touched(old(lru), id)
    {
      lru := Without(lru, id);
      lru := lru + [id];
    }

    method EvictIfNeeded()
      modifies this`lru, this`registered
      ensures Pool(lru, registered) == Evicted(Pool(old(lru), old(registered)))
    {
      if |lru| <= MAX_TENANT_CONNECTIONS { return; }
      var oldest := lru[0];
      lru := lru[1..];
      registered := registered - {oldest};
    }

    /**
     * A registered connection is used again; a new one needs a safe id and the template. The connection returned is
     * registered.
     */
    method Connect(id: string) returns (thrown: bool)
      requires Valid()
      modifies this`lru, this`registered, this`history
      ensures Valid()
      ensures thrown <==> !SafeIdentifier(id) || (id !in old(registered) && !templateFound)
      ensures history == if thrown then old(history) else old(history) + [Connected(id)]
      ensures !thrown ==> id in registered
    {
      if !SafeIdentifier(id) { return true; }
      AfterOneMore(history, Connected(id));
      if id in registered {
        Touch(id);
      } else if !templateFound {
        return true;
      } else {
        registered := registered + {id};
        Touch(id);
        ghost var before := lru;
        EvictIfNeeded();
        NewestSurvives(before, old(lru), id);
      }
      history := history + [Connected(id)];
      thrown := false;
    }

    method Disconnect(id: string) returns (thrown: bool)
      requires Valid()
      modifies this`lru, this`registered, this`history
      ensures Valid() && (thrown <==> !SafeIdentifier(id))
      ensures history == if thrown then old(history) else old(history) + [Dropped(id)]
    {
      if !SafeIdentifier(id) { return true; }
      AfterOneMore(history, Dropped(id));
      lru := Without(lru, id);
      if id in registered {
        registered := registered - {id};
      }
      history := history + [Dropped(id)];
      thrown := false;
    }

    /** Creates the storage, if the server accepts the statement, and connects the tenant. */
    method Provision(id: string, accepted: bool) returns (thrown: bool)
      requires Valid()
      modifies this
      ensures Valid()
      ensures storages == if SafeIdentifier(id) && accepted then old(storages) + {id} else old(storages)
      ensures thrown <==> !SafeIdentifier(id) || !accepted || (id !in old(registered) && !templateFound)
      ensures history == if thrown then old(history) else old(history) + [Connected(id)]
    {
      if !SafeIdentifier(id) || !accepted { return true; }
      storages := storages + {id};
      thrown := Connect(id);
    }

    method Destroy(id: string, keepData: bool, accepted: bool) returns (thrown: bool)
      requires Valid()
      modifies this
      ensures Valid() && (thrown <==> !SafeIdentifier(id) || (!keepData && !accepted))
      ensures history == if SafeIdentifier(id) then old(history) + [Dropped(id)] else old(history)
      ensures storages == if keepData || thrown then old(storages) else old(storages) - {id}
    {
      thrown := Disconnect(id);
      if thrown || keepData { return; }
      if !accepted { return true; }
      storages := storages - {id};
    }

    /**
     * Storage is dropped and created anew; both drivers disconnect first and connect last. If only the creation is
     * refused, the storage is gone.
     */
    method Reset(id: string, dropped: bool, created: bool) returns (thrown: bool)
      requires Valid()
      modifies this
      ensures Valid()
      ensures thrown <==> !SafeIdentifier(id) || !dropped || !created || !templateFound
      ensures storages == if !SafeIdentifier(id) || !dropped then old(storages)
                          else if created then old(storages) + {id} else old(storages) - {id}
      ensures history == if !SafeIdentifier(id) then old(history)
                         else if thrown then old(history) + [Dropped(id)]
                         else old(history) + [Dropped(id), Connected(id)]
    {
      DroppedIsGone(history, id);
      AfterOneMore(history, Dropped(id));
      match kind
      case SchemaPg =>
        thrown := Disconnect(id);
        if thrown || !dropped { return true; }
        storages := storages - {id};
        if !created { return true; }
        storages := storages + {id};
        thrown := Connect(id);
      case DatabasePg =>
        thrown := Destroy(id, false, dropped);
        if thrown { return true; }
        thrown := Provision(id, created);
    }

    /** The database driver connects before it migrates, the schema driver does not. */
    method Migrate(id: string, succeeds: bool) returns (thrown: bool)
      requires Valid()
      modifies this
      ensures Valid() && storages == old(storages)
      ensures var connects := kind == DatabasePg && SafeIdentifier(id) && (id in old(registered) || templateFound);
              && history == old(history) + (if connects then [Connected(id)] else [])
              && (thrown <==> !SafeIdentifier(id) || !succeeds || (kind == DatabasePg && !connects))
    {
      if kind == DatabasePg {
        thrown := Connect(id);
        if thrown { return true; }
      }
      thrown := !SafeIdentifier(id) || !succeeds;
    }
  }

  lemma DistinctCons(x: string, s: seq<string>)
    ensures Distinct([x] + s) <==> x !in s && Distinct(s)
  {
    var all := [x] + s;
    assert forall i :: 0 <= i < |s| ==> all[i + 1] == s[i];
    if Distinct(all) {
      forall i, j | 0 <= i < j < |s| ensures s[i] != s[j] {
        assert all[i + 1] != all[j + 1];
      }
      forall i | 0 <= i < |s| ensures s[i] != x {
        assert all[0] != all[i + 1];
      }
    }
  }

  lemma {:induction false} WithoutIs(lru: seq<string>, id: string)
    ensures id !in Without(lru, id) && |Without(lru, id)| <= |lru|
    ensures forall x :: x in Without(lru, id) <==> x in lru && x != id
    ensures id !in lru ==> Without(lru, id) == lru
    ensures Distinct(lru) ==> Distinct(Without(lru, id)) && (id in lru ==> |Without(lru, id)| == |lru| - 1)
  {
    if lru != [] {
      Uncons(lru);
      DistinctCons(lru[0], lru[1..]);
      DistinctCons(lru[0], Without(lru[1..], id));
      hide Distinct;
      WithoutIs(lru[1..], id);
    }
  }

  // The connection just made is at the other end from the one evicted.
  lemma NewestSurvives(touched: seq<string>, lru: seq<string>, id: string)
    requires touched == Touched(lru, id)
    ensures |touched| > MAX_TENANT_CONNECTIONS ==> touched[0] != id
  {
    WithoutIs(lru, id);
    assert |touched| > 1 ==> touched[0] == Without(lru, id)[0];
  }

  lemma DroppedIsGone(history: seq<Use>, id: string)
    ensures id !in Used(After(history), Dropped(id)).registered
  {
  }

  // ---------- What holds after every run ----------

  ghost predicate Sound(pool: Pool) {
    && Distinct(pool.lru)
    && |pool.lru| <= 50
    && forall x :: x in pool.registered <==> x in pool.lru
  }

  lemma TouchedIs(lru: seq<string>, id: string)
    requires Distinct(lru)
    ensures var touched := Touched(lru, id);
            && Distinct(touched) && touched != [] && touched[|touched| - 1] == id
            && |touched| == (if id in lru then |lru| else |lru| + 1)
            && forall x :: x in touched <==> x in lru || x == id
  {
    WithoutIs(lru, id);
  }

  lemma UsedStaysSound(pool: Pool, use: Use)
    requires Sound(pool)
    ensures Sound(Used(pool, use))
    ensures use.Connected? ==> var lru := Used(pool, use).lru; lru != [] && lru[|lru| - 1] == use.id
  {
    WithoutIs(pool.lru, use.id);
    TouchedIs(pool.lru, use.id);
    var touched := Touched(pool.lru, use.id);
    hide Without, Touched;
    Uncons(touched);
    DistinctCons(touched[0], touched[1..]);
  }

  /**
   * After every run the list has no repeats, holds exactly the registered connections and at most 50 of them, and a
   * connection just made is the last of it.
   */
  lemma {:induction false} PoolStaysSound(history: seq<Use>)
    ensures Sound(After(history))
    ensures history != [] && history[|history| - 1].Connected? ==>
              var lru := After(history).lru; lru != [] && lru[|lru| - 1] == history[|history| - 1].id
  {
    if history != [] {
      PoolStaysSound(history[..|history| - 1]);
      UsedStaysSound(After(history[..|history| - 1]), history[|history| - 1]);
    }
  }

  // When a tenant was last connected, -1 if never.
  function LastUse(history: seq<Use>, id: string): (k: int)
    ensures -1 <= k < |history|
    ensures k >= 0 ==> history[k] == Connected(id)
    ensures forall j :: k < j < |history| ==> history[j] != Connected(id)
  {
    if history == [] then -1
    else if history[|history| - 1] == Connected(id) then |history| - 1
    else LastUse(history[..|history| - 1], id)
  }

  // Each element is less than all after it.
  ghost predicate Increasing(s: seq<string>, f: string -> int) {
    s == [] || ((forall x :: x in s[1..] ==> f(s[0]) < f(x)) && Increasing(s[1..], f))
  }

  lemma {:induction false} IncreasingAt(s: seq<string>, f: string -> int, i: nat, j: nat)
    requires Increasing(s, f) && i < j < |s|
    ensures f(s[i]) < f(s[j])
  {
    if i == 0 {
      assert s[j] == s[1..][j - 1];
    } else {
      IncreasingAt(s[1..], f, i - 1, j - 1);
    }
  }

  lemma {:induction false} WithoutIncreasing(s: seq<string>, id: string, f: string -> int)
    requires Increasing(s, f)
    ensures Increasing(Without(s, id), f)
  {
    if s != [] {
      WithoutIncreasing(s[1..], id, f);
      WithoutIs(s[1..], id);
      ConsTail(s[0], Without(s[1..], id));
      AppendNothing(Without(s[1..], id));
    }
  }

  lemma {:induction false} IncreasingSnoc(s: seq<string>, x: string, f: string -> int)
    requires Increasing(s, f) && forall y :: y in s ==> f(y) < f(x)
    ensures Increasing(s + [x], f)
  {
    if s == [] {
      assert ([] + [x])[1..] == [];
    } else {
      AppendTail(s, [x]);
      IncreasingSnoc(s[1..], x, f);
    }
  }

  lemma {:induction false} IncreasingSame(s: seq<string>, f: string -> int, g: string -> int)
    requires Increasing(s, f) && forall x :: x in s ==> f(x) == g(x)
    ensures Increasing(s, g)
  {
    if s != [] { IncreasingSame(s[1..], f, g); }
  }

  function UseOf(history: seq<Use>): string -> int { (x: string) => LastUse(history, x) }

  lemma {:induction false} IncreasingInUse(history: seq<Use>)
    ensures Increasing(After(history).lru, UseOf(history))
    ensures forall x :: x in After(history).lru ==> LastUse(history, x) >= 0
  {
    if history != [] {
      var h, use := history[..|history| - 1], history[|history| - 1];
      IncreasingInUse(h);
      var lru := After(h).lru;
      var rest := Without(lru, use.id);
      WithoutIncreasing(lru, use.id, UseOf(h));
      WithoutIs(lru, use.id);
      LastUseOfOthers(h, use);
      hide After, LastUse;
      IncreasingSame(rest, UseOf(h), UseOf(history));
      if use.Connected? { IncreasingSnoc(rest, use.id, UseOf(history)); }
      UsedList(After(h), use);
    }
  }

  lemma LastUseOfOthers(h: seq<Use>, use: Use)
    ensures forall x :: x != use.id || use.Dropped? ==> LastUse(h + [use], x) == LastUse(h, x)
    ensures use.Connected? ==> LastUse(h + [use], use.id) == |h|
  {
    assert (h + [use])[..|h|] == h;
  }

  lemma UsedList(pool: Pool, use: Use)
    ensures var lru := Used(pool, use).lru;
            match use
            case Dropped(id) => lru == Without(pool.lru, id)
            case Connected(id) => lru == Touched(pool.lru, id) || lru == Touched(pool.lru, id)[1..]
  {
  }

  /** After every run the list is in order of last use, least recent first. */
  lemma PoolOrderedByUse(history: seq<Use>, i: nat, j: nat)
    requires i < j < |After(history).lru|
    ensures 0 <= LastUse(history, After(history).lru[i]) < LastUse(history, After(history).lru[j])
  {
    hide After, LastUse;
    IncreasingInUse(history);
    IncreasingAt(After(history).lru, UseOf(history), i, j);
  }

  // ---------- What the pool keeps ----------

  // Connected, and not dropped since.
  predicate Live(history: seq<Use>, id: string) {
    LastUse(history, id) >= 0 && forall k :: LastUse(history, id) < k < |history| ==> history[k] != Dropped(id)
  }

  // The other tenants connected since id was last connected, and not dropped since.
  function Newer(history: seq<Use>, id: string): set<string> {
    set k | 0 <= k < |history| && Live(history, history[k].id) && LastUse(history, history[k].id) > LastUse(history, id)
      :: history[k].id
  }

  lemma NewerIs(history: seq<Use>, id: string, y: string)
    ensures y in Newer(history, id) <==> Live(history, y) && LastUse(history, y) > LastUse(history, id)
  {
    if Live(history, y) {
      assert history[LastUse(history, y)].id == y;
    }
    hide Live;
  }

  lemma LiveStep(h: seq<Use>, use: Use, x: string)
    ensures Live(h + [use], x) <==> use == Connected(x) || (use != Dropped(x) && Live(h, x))
  {
    LastUseOfOthers(h, use);
    var history := h + [use];
    hide LastUse;
    assert history[|h|] == use && forall k :: 0 <= k < |h| ==> history[k] == h[k];
  }

  // How the list moves, and that what it evicts was used before all it keeps.
  lemma ListStep(h: seq<Use>, use: Use, x: string)
    ensures var lru, lru' := After(h).lru, After(h + [use]).lru;
            match use
            case Dropped(id) => x in lru' <==> x in lru && x != id
            case Connected(id) =>
              && id in lru'
              && (x in lru' && x != id ==> x in lru)
              && (x in lru && x !in lru' ==>
                    |lru'| == MAX_TENANT_CONNECTIONS &&
                    forall y :: y in lru' ==> LastUse(h + [use], x) < LastUse(h + [use], y))
  {
    AfterOneMore(h, use);
    PoolStaysSound(h);
    PoolStaysSound(h + [use]);
    WithoutIs(After(h).lru, use.id);
    if use.Connected? {
      var f, touched := UseOf(h + [use]), Touched(After(h).lru, use.id);
      TouchedIncreasing(h, use.id);
      TouchedIs(After(h).lru, use.id);
      hide After, LastUse, Touched, Without;
      Uncons(touched);
    }
  }

  lemma TouchedIncreasing(h: seq<Use>, id: string)
    ensures Increasing(Touched(After(h).lru, id), UseOf(h + [Connected(id)]))
  {
    var lru, f := After(h).lru, UseOf(h + [Connected(id)]);
    IncreasingInUse(h);
    WithoutIncreasing(lru, id, UseOf(h));
    WithoutIs(lru, id);
    LastUseOfOthers(h, Connected(id));
    hide After, LastUse;
    IncreasingSame(Without(lru, id), UseOf(h), f);
    IncreasingSnoc(Without(lru, id), id, f);
  }

  lemma {:induction false} PoolIsLive(history: seq<Use>, x: string)
    requires x in After(history).lru
    ensures Live(history, x)
  {
    var h, use := history[..|history| - 1], history[|history| - 1];
    assert history == h + [use];
    ListStep(h, use, x);
    LiveStep(h, use, x);
    hide After, Live, LastUse;
    if use != Connected(x) { PoolIsLive(h, x); }
  }

  // The pool holds every live tenant that was used after one it holds.
  lemma {:induction false} PoolHoldsNewer(history: seq<Use>, x: string, y: string)
    requires x in After(history).lru && Live(history, y) && LastUse(history, y) > LastUse(history, x)
    ensures y in After(history).lru
  {
    var h, use := history[..|history| - 1], history[|history| - 1];
    assert history == h + [use];
    ListStep(h, use, x);
    ListStep(h, use, y);
    LiveStep(h, use, y);
    LastUseOfOthers(h, use);
    hide After, Live, LastUse;
    if use != Connected(y) { PoolHoldsNewer(h, x, y); }
  }

  lemma {:induction false} DistinctSize(s: seq<string>)
    requires Distinct(s)
    ensures |set x | x in s| == |s|
  {
    if s != [] {
      Uncons(s);
      DistinctCons(s[0], s[1..]);
      DistinctSize(s[1..]);
      assert (set x | x in s) == {s[0]} + set x | x in s[1..];
    }
  }

  lemma SubsetSize(a: set<string>, b: set<string>)
    requires a <= b
    ensures |a| <= |b| && (forall x :: x in b && x !in a ==> |a| < |b|)
  {
    assert b == a + (b - a);
  }

  // A tenant that is in the pool and not used now stays in it unless 50 others are newer.
  lemma StaysUnlessCrowdedOut(h: seq<Use>, use: Use, id: string)
    requires use.id != id
    ensures var history := h + [use];
            id in After(history).lru <==> id in After(h).lru && |Newer(history, id)| < MAX_TENANT_CONNECTIONS
  {
    var history := h + [use];
    var lru := After(history).lru;
    ListStep(h, use, id);
    PoolStaysSound(history);
    DistinctSize(lru);
    forall y ensures y in Newer(history, id) <==> Live(history, y) && LastUse(history, y) > LastUse(history, id) {
      NewerIs(history, id, y);
    }
    forall y | y in lru ensures Live(history, y) { PoolIsLive(history, y); }
    hide After, Live, LastUse, Newer;
    var newer, members := Newer(history, id), set y | y in lru;
    if id in lru {
      forall y | y in newer ensures y in members { PoolHoldsNewer(history, id, y); }
      SubsetSize(newer, members);
    } else if id in After(h).lru {
      SubsetSize(members, newer);
    }
  }

  // At no time since it was last connected did 50 others, connected since and not dropped, come after it.
  ghost predicate NeverCrowdedOut(history: seq<Use>, id: string) {
    forall n :: LastUse(history, id) < n <= |history| ==> |Newer(history[..n], id)| < 50
  }

  lemma NeverCrowdedOutStep(h: seq<Use>, use: Use, id: string)
    requires use.id != id
    ensures var history := h + [use];
            NeverCrowdedOut(history, id) <==>
            NeverCrowdedOut(h, id) && |Newer(history, id)| < MAX_TENANT_CONNECTIONS
  {
    var history := h + [use];
    LastUseOfOthers(h, use);
    hide LastUse, Newer;
    assert history[..|history|] == history;
    assert forall n :: 0 <= n <= |h| ==> history[..n] == h[..n];
    if NeverCrowdedOut(history, id) {
      forall n | LastUse(h, id) < n <= |h| ensures |Newer(h[..n], id)| < MAX_TENANT_CONNECTIONS {
        assert history[..n] == h[..n];
      }
    }
  }

  /**
   * After every run a tenant is connected if and only if it was connected, has not been dropped since, and at no time
   * since then 50 others had been connected later and not been dropped.
   */
  lemma {:induction false} KeepsTheMostRecentlyUsed(history: seq<Use>, id: string)
    ensures id in After(history).registered <==> Live(history, id) && NeverCrowdedOut(history, id)
  {
    PoolStaysSound(history);
    if history != [] {
      var h, use := history[..|history| - 1], history[|history| - 1];
      assert history == h + [use];
      LiveStep(h, use, id);
      if use.id != id {
        KeepsTheMostRecentlyUsed(h, id);
        PoolStaysSound(h);
        StaysUnlessCrowdedOut(h, use, id);
        NeverCrowdedOutStep(h, use, id);
        hide *;
      } else {
        ListStep(h, use, id);
        JustUsed(history);
      }
    }
  }

  lemma JustUsed(history: seq<Use>)
    requires history != []
    ensures var id := history[|history| - 1].id;
            history[|history| - 1] == Connected(id) ==> NeverCrowdedOut(history, id)
  {
    assert history[..|history|] == history;
  }

  /** In a run that drops nothing it is enough to count how many have been connected since. */
  lemma KeptWithoutDrops(history: seq<Use>, id: string)
    requires forall k :: 0 <= k < |history| ==> history[k].Connected?
    ensures id in After(history).registered <==>
            LastUse(history, id) >= 0 && |Newer(history, id)| < 50
  {
    KeepsTheMostRecentlyUsed(history, id);
    assert history[..|history|] == history;
    forall n | LastUse(history, id) < n <= |history| ensures |Newer(history[..n], id)| <= |Newer(history, id)| {
      NewerGrows(history, n, id);
    }
  }

  lemma NewerGrows(history: seq<Use>, n: nat, id: string)
    requires forall k :: 0 <= k < |history| ==> history[k].Connected?
    requires LastUse(history, id) < n <= |history|
    ensures |Newer(history[..n], id)| <= |Newer(history, id)|
  {
    var h := history[..n];
    LastUsePrefix(history, n, id);
    forall y | y in Newer(h, id) ensures y in Newer(history, id) {
      NewerIs(h, id, y);
      NewerIs(history, id, y);
      LastUsePrefix(history, n, y);
      hide LastUse, Newer;
    }
    hide *;
    SubsetSize(Newer(h, id), Newer(history, id));
  }

  lemma LastUsePrefix(history: seq<Use>, n: nat, x: string)
    requires n <= |history|
    ensures LastUse(history[..n], x) <= LastUse(history, x)
    ensures LastUse(history, x) < n ==> LastUse(history[..n], x) == LastUse(history, x)
  {
    var k, k' := LastUse(history[..n], x), LastUse(history, x);
    assert k >= 0 ==> history[k] == history[..n][k];
    assert 0 <= k' < n ==> history[..n][k'] == history[k'];
    hide LastUse;
  }
}
