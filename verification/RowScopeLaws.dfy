/** Row scoping simulates private tables: on a table shared by all, each tenant sees what it would see on its own. */
module RowScopeLaws {
  import opened Wrappers
  import opened RowScope
  import opened Seqs

  // ---------- What scoping does to other tenants ----------

  /**
   * Within a tenant's scope, the rows of everybody else stay as they are and none is added to them, provided a new row
   * is not stamped for another tenant and an instance to be written carries its true scope column.
   */
  lemma OthersUntouched<V>(table: Table<V>, t: Tenant, op: Op<V>, i: nat)
    requires i in table.rows ==> table.rows[i].owner != Owner(t)
    requires op.Create? ==> op.column in {Unset, Null, Owner(t)}
    requires op.Save? || op.Delete? ==>
               op.instance.id in table.rows ==> table.rows[op.instance.id].owner == op.instance.column
    requires forall k :: k in table.rows ==> k < table.nextId && table.rows[k].owner != Unset
    ensures var after := Perform(table, Only(t), op).0.rows;
            if i in table.rows then i in after && after[i] == table.rows[i]
            else i in after ==> after[i].owner == Owner(t)
  {
  }

  /**
   * The guard lets an instance through that did not load its scope column, whoever owns the row. Exactly such an
   * instance reaches a row of somebody else: by deleting it, or by saving its other columns.
   */
  lemma OthersHit<V>(table: Table<V>, t: Tenant, op: Op<V>, i: nat)
    requires i in table.rows && table.rows[i].owner != Owner(t) && i < table.nextId
    ensures var after := Perform(table, Only(t), op).0.rows;
            var hit := (op.Save? || op.Delete?) && op.instance.id == i && op.instance.column in {Unset, Owner(t)};
            && (i !in after <==> hit && op.Delete?)
            && (i in after ==>
                  after[i] == if hit then table.rows[i].(cols := op.change(table.rows[i].cols)) else table.rows[i])
  {
  }

  /** A new row belongs to the tenant in whose scope it is created exactly if its scope column was empty or its own. */
  lemma CreateStamps<V>(table: Table<V>, t: Tenant, column: Column, cols: V)
    ensures var (after, response) := Perform(table, Only(t), Create(column, cols));
            && response == Stored(table.nextId, after.rows[table.nextId])
            && (after.rows[table.nextId].owner == Owner(t) <==> column in {Unset, Null, Owner(t)})
  {
  }

  /** An instance of another tenant is refused, and an operation outside every scope is; neither has any effect. */
  lemma RefusedWithoutEffect<V>(table: Table<V>, strict: bool, scope: Scope, op: Op<V>)
    ensures strict && !scope.bypass && (scope.tenant == None || scope.tenant == Some("")) ==>
              Perform(table, RequireScope(scope, strict), op) == (table, Missing)
    ensures forall t: Tenant :: (op.Save? || op.Delete?) && op.instance.column !in {Unset, Owner(t)} ==>
              Perform(table, Only(t), op) == (table, Refused)
  {
  }

  // ---------- Dynamic scope ----------

  /** unscoped() wins over every tenancy.run inside it: all that runs within it reaches every row. */
  lemma {:induction false} BypassWins<Op>(code: seq<Code<Op>>, scope: Scope, strict: bool)
    requires scope.bypass
    ensures forall e :: e in Trace(code, scope) ==> RequireScope(e.scope, strict) == Everything
    decreases code
  {
    if code != [] {
      BypassWins(code[1..], scope, strict);
      match code[0]
      case Act(_) =>
      case RunAs(t, body) => BypassWins(body, scope.(tenant := Some(t)), strict);
      case Unscoped(body) => BypassWins(body, scope.(bypass := true), strict);
    }
  }

  // Whether code performs any operation.
  predicate Acts<Op>(code: seq<Code<Op>>)
    decreases code
  {
    code != [] && ((match code[0]
                    case Act(_) => true
                    case RunAs(_, body) => Acts(body)
                    case Unscoped(body) => Acts(body)) || Acts(code[1..]))
  }

  // Every operation is surrounded by a tenancy.run, the innermost for this tenant, and by no unscoped().
  predicate Confined<Op>(code: seq<Code<Op>>, current: Option<Tenant>, t: Tenant)
    decreases code
  {
    code == [] ||
    ((match code[0]
      case Act(_) => current == Some(t)
      case RunAs(u, body) => Confined(body, Some(u), t)
      case Unscoped(body) => !Acts(body)) && Confined(code[1..], current, t))
  }

  ghost predicate AllReachOnly<Op>(events: seq<Event<Op>>, strict: bool, t: Tenant) {
    forall k :: 0 <= k < |events| ==> RequireScope(events[k].scope, strict) == Only(t)
  }

  lemma AllReachAppend<Op>(a: seq<Event<Op>>, b: seq<Event<Op>>, strict: bool, t: Tenant)
    ensures AllReachOnly(a + b, strict, t) <==> AllReachOnly(a, strict, t) && AllReachOnly(b, strict, t)
  {
    var all := a + b;
    assert forall k :: 0 <= k < |a| ==> all[k] == a[k];
    assert forall k :: 0 <= k < |b| ==> all[|a| + k] == b[k];
  }

  lemma {:induction false} ActsLeaveTrace<Op>(code: seq<Code<Op>>, scope: Scope)
    ensures Acts(code) <==> Trace(code, scope) != []
    decreases code
  {
    if code != [] {
      ActsLeaveTrace(code[1..], scope);
      match code[0]
      case Act(_) =>
      case RunAs(t, body) => ActsLeaveTrace(body, scope.(tenant := Some(t)));
      case Unscoped(body) => ActsLeaveTrace(body, scope.(bypass := true));
    }
  }

  /**
   * Code performs every operation in a tenant's reach exactly if each is surrounded by a tenancy.run, the innermost for
   * that tenant, and by no unscoped(), wherever the code opens its scopes.
   */
  lemma {:induction false} ConfinedCodeReachesItsTenant<Op>(
    code: seq<Code<Op>>, current: Option<Tenant>, strict: bool, t: Tenant)
    requires t != ""
    ensures AllReachOnly(Trace(code, Scope(current, false)), strict, t) <==> Confined(code, current, t)
    decreases code
  {
    if code != [] {
      var scope := Scope(current, false);
      ConfinedCodeReachesItsTenant(code[1..], current, strict, t);
      match code[0] {
        case Act(op) =>
          var first := [Event(scope, op)];
          assert AllReachOnly(first, strict, t) <==> RequireScope(first[0].scope, strict) == Only(t);
          AllReachAppend(first, Trace(code[1..], scope), strict, t);
        case RunAs(u, body) =>
          ConfinedCodeReachesItsTenant(body, Some(u), strict, t);
          AllReachAppend(Trace(body, Scope(Some(u), false)), Trace(code[1..], scope), strict, t);
        case Unscoped(body) =>
          var inner := Trace(body, Scope(current, true));
          BypassWins(body, Scope(current, true), strict);
          ActsLeaveTrace(body, Scope(current, true));
          assert AllReachOnly(inner, strict, t) <==> inner == [] by {
            if inner != [] { assert inner[0] in inner; }
          }
          AllReachAppend(inner, Trace(code[1..], scope), strict, t);
      }
    }
  }

  // ---------- Client programs ----------

  // What a tenant's code asks for; it names a model instance by its position among those it has created or loaded, and
  // it may look for any id whatever.
  datatype Ask<!V> =
    | AskCreate(cols: V)
    | AskFind(slot: nat)
    | AskFindId(id: nat)
    | AskFetch(filter: (Column, V) -> bool)
    | AskPaginate(filter: (Column, V) -> bool)
    | AskUpdateWhere(filter: (Column, V) -> bool, change: V -> V)
    | AskDeleteWhere(filter: (Column, V) -> bool)
    | AskSave(slot: nat, change: V -> V)
    | AskDelete(slot: nat)

  // One step of an interleaving: by a tenant in its scope, or by code outside every scope in strict mode.
  datatype Step<!V> = By(tenant: Tenant, ask: Ask<V>) | Outside(op: Op<V>)

  datatype World<V> = World(table: Table<V>, held: map<Tenant, seq<Instance>>)

  function Held<V>(w: World<V>, t: Tenant): seq<Instance> { if t in w.held then w.held[t] else [] }

  function Asked<V>(ask: Ask<V>, held: seq<Instance>): Option<Op<V>> {
    match ask
    case AskCreate(cols) => Some(Create(Unset, cols))
    case AskFind(slot) => if slot < |held| then Some(Find(held[slot].id)) else None
    case AskFindId(id) => Some(Find(id))
    case AskFetch(filter) => Some(Fetch(filter))
    case AskPaginate(filter) => Some(Paginate(filter))
    case AskUpdateWhere(filter, change) => Some(UpdateWhere(filter, change))
    case AskDeleteWhere(filter) => Some(DeleteWhere(filter))
    case AskSave(slot, change) => if slot < |held| then Some(Save(held[slot], change)) else None
    case AskDelete(slot) => if slot < |held| then Some(Delete(held[slot])) else None
  }

  // The rows with ids below n as instances, in the order of their ids.
  function Listing<V>(rows: map<nat, Row<V>>, n: nat): seq<Instance> {
    if n == 0 then []
    else Listing(rows, n - 1) + if n - 1 in rows then [Instance(n - 1, rows[n - 1].owner)] else []
  }

  // The instances that a response hands to the client; n is above every id given out.
  function Gained<V>(response: Response<V>, n: nat): seq<Instance> {
    match response
    case Stored(id, row) => [Instance(id, row.owner)]
    case Found(Some((id, row))) => [Instance(id, row.owner)]
    case Rows(rows) => Listing(rows, n)
    case Page(_, rows) => Listing(rows, n)
    case _ => []
  }

  function Do<V>(w: World<V>, step: Step<V>): (World<V>, Response<V>) {
    match step
    case Outside(op) =>
      var (table, response) := Perform(w.table, MissingScope, op);
      (w.(table := table), response)
    case By(t, ask) =>
      var op := Asked(ask, Held(w, t));
      if op.None? then (w, Refused)
      else
        var (table, response) := Perform(w.table, Only(t), op.value);
        (World(table, w.held[t := Held(w, t) + Gained(response, table.nextId)]), response)
  }

  function Run<V>(w: World<V>, steps: seq<Step<V>>): World<V>
    decreases |steps|
  {
    if steps == [] then w else Run(Do(w, steps[0]).0, steps[1..])
  }

  predicate IsBy<V>(step: Step<V>, t: Tenant) { step.By? && step.tenant == t }

  // The steps of one tenant alone.
  function Own<V>(steps: seq<Step<V>>, t: Tenant): seq<Step<V>> {
    if steps == [] then [] else (if IsBy(steps[0], t) then [steps[0]] else []) + Own(steps[1..], t)
  }

  // The same steps with ids renamed; an id that was never the tenant's becomes one that no row has.
  function Renamed<V>(step: Step<V>, r: Renaming, none: nat): Step<V> {
    if step.By? && step.ask.AskFindId?
    then By(step.tenant, AskFindId(if step.ask.id in r.to then r.to[step.ask.id] else none))
    else step
  }

  function AllRenamed<V>(steps: seq<Step<V>>, r: Renaming, none: nat): seq<Step<V>> {
    if steps == [] then [] else [Renamed(steps[0], r, none)] + AllRenamed(steps[1..], r, none)
  }

  // What one tenant is answered.
  function Answers<V>(w: World<V>, steps: seq<Step<V>>, t: Tenant): seq<Response<V>>
    decreases |steps|
  {
    if steps == [] then []
    else
      (if IsBy(steps[0], t) then [Do(w, steps[0]).1] else []) + Answers(Do(w, steps[0]).0, steps[1..], t)
  }

  // ---------- Up to generated ids ----------

  // A renaming of ids with its inverse; it keeps their order, in which they were given out.
  datatype Renaming = Renaming(to: map<nat, nat>, back: map<nat, nat>)

  ghost predicate Ordered(r: Renaming) { forall i, j :: i in r.to && j in r.to && i < j ==> r.to[i] < r.to[j] }

  ghost predicate Inverse(r: Renaming) {
    && (forall i :: i in r.to ==> r.to[i] in r.back && r.back[r.to[i]] == i)
    && (forall j :: j in r.back ==> r.back[j] in r.to && r.to[r.back[j]] == j)
  }

  ghost predicate SameRows<V>(a: map<nat, Row<V>>, b: map<nat, Row<V>>, r: Renaming) {
    && |a| == |b|
    && (forall i :: i in a ==> i in r.to && r.to[i] in b && b[r.to[i]] == a[i])
    && (forall j :: j in b ==> j in r.back && r.back[j] in a)
  }

  /** The same answer, up to the ids in it. */
  ghost predicate SameAnswer<V>(a: Response<V>, b: Response<V>, r: Renaming) {
    match (a, b)
    case (Stored(i, row), Stored(j, row')) => i in r.to && r.to[i] == j && row == row'
    case (Found(Some((i, row))), Found(Some((j, row')))) => i in r.to && r.to[i] == j && row == row'
    case (Rows(rows), Rows(rows')) => SameRows(rows, rows', r)
    case (Page(n, rows), Page(n', rows')) => n == n' && SameRows(rows, rows', r)
    case _ => a == b
  }

  // Ids stay below the next one, stored rows have a scope column, and instances are of their tenant.
  ghost predicate Sound<V>(w: World<V>) {
    && SoundRows(w.table)
    && (forall t, k :: t in w.held && 0 <= k < |w.held[t]| ==> SoundInstance(w.table, t, w.held[t][k]))
  }

  ghost predicate SoundInstance<V>(table: Table<V>, t: Tenant, x: Instance) {
    && x.column == Owner(t) && x.id < table.nextId
    && (x.id in table.rows ==> table.rows[x.id].owner == Owner(t))
  }

  /** The tenant's rows and instances in the shared world are those of its private world, up to ids. */
  ghost predicate Simulates<V>(shared: World<V>, alone: World<V>, t: Tenant, r: Renaming) {
    && Sound(shared) && Sound(alone) && Inverse(r) && Ordered(r)
    && (forall i :: i in r.to ==> i < shared.table.nextId)
    && (forall j :: j in r.back ==> j < alone.table.nextId)
    && SimRows(shared.table.rows, alone.table.rows, t, r)
    && SimHeld(Held(shared, t), Held(alone, t), r)
  }

  ghost predicate SimRows<V>(shared: map<nat, Row<V>>, alone: map<nat, Row<V>>, t: Tenant, r: Renaming) {
    && (forall i :: i in shared && shared[i].owner == Owner(t) ==>
          i in r.to && r.to[i] in alone && alone[r.to[i]] == shared[i])
    && (forall j :: j in alone ==>
          j in r.back && r.back[j] in shared && shared[r.back[j]] == alone[j] && alone[j].owner == Owner(t))
  }

  ghost predicate SimHeld(shared: seq<Instance>, alone: seq<Instance>, r: Renaming) {
    && |shared| == |alone|
    && forall k :: 0 <= k < |shared| ==>
         shared[k].column == alone[k].column && shared[k].id in r.to && r.to[shared[k].id] == alone[k].id
  }

  // The renaming only ever grows.
  ghost predicate Extends(r: Renaming, r': Renaming) {
    && (forall i :: i in r.to ==> i in r'.to && r'.to[i] == r.to[i])
    && (forall j :: j in r.back ==> j in r'.back && r'.back[j] == r.back[j])
  }

  // ---------- One step of another tenant ----------

  ghost predicate SoundRows<V>(table: Table<V>) {
    forall i :: i in table.rows ==> i < table.nextId && table.rows[i].owner != Unset
  }

  // What an operation in a tenant's scope keeps of the rows and of an instance of any tenant.
  lemma RowsStaySound<V>(table: Table<V>, t: Tenant, op: Op<V>)
    requires SoundRows(table)
    ensures SoundRows(Perform(table, Only(t), op).0)
  {
  }

  lemma InstanceStaysSound<V>(table: Table<V>, t: Tenant, op: Op<V>, u: Tenant, x: Instance)
    requires SoundRows(table) && SoundInstance(table, u, x)
    ensures SoundInstance(Perform(table, Only(t), op).0, u, x)
  {
  }

  lemma SoundStep<V>(w: World<V>, step: Step<V>)
    requires Sound(w)
    ensures Sound(Do(w, step).0)
  {
    if step.By? && Asked(step.ask, Held(w, step.tenant)).Some? {
      var w', op := Do(w, step).0, Asked(step.ask, Held(w, step.tenant)).value;
      assert op.Create? ==> op.column == Unset;
      assert SoundRows(w.table);
      RowsStaySound(w.table, step.tenant, op);
      hide Perform, Listing, Gained, Asked;
      forall t, k | t in w'.held && 0 <= k < |w'.held[t]| ensures SoundInstance(w'.table, t, w'.held[t][k]) {
        hide SoundInstance;
        if k < |Held(w, t)| {
          assert SoundInstance(w.table, t, Held(w, t)[k]);
          InstanceStaysSound(w.table, step.tenant, op, t, Held(w, t)[k]);
        } else {
          GainedSound(w.table, step.tenant, op, k - |Held(w, t)|);
        }
      }
    }
  }

  lemma {:induction false} ListingHolds<V>(rows: map<nat, Row<V>>, n: nat, k: nat)
    requires k < |Listing(rows, n)|
    ensures var x := Listing(rows, n)[k]; x.id in rows && x.id < n && x.column == rows[x.id].owner
  {
    if k < |Listing(rows, n - 1)| { ListingHolds(rows, n - 1, k); }
  }

  // What a client gains in a tenant's scope is the tenant's.
  lemma GainedSound<V>(table: Table<V>, t: Tenant, op: Op<V>, k: nat)
    requires SoundRows(table) && (op.Create? ==> op.column == Unset)
    requires var (after, response) := Perform(table, Only(t), op); k < |Gained(response, after.nextId)|
    ensures var (after, response) := Perform(table, Only(t), op);
            SoundInstance(after, t, Gained(response, after.nextId)[k])
  {
    if op.Fetch? || op.Paginate? {
      ReadInScope(table, t, op);
      ListingHolds(Selected(table.rows, Only(t), op.filter), table.nextId, k);
      hide Perform, Listing;
    }
  }

  // A step that is not the tenant's leaves the tenant's rows and instances alone.
  lemma OtherStepKeepsOut<V>(w: World<V>, t: Tenant, step: Step<V>)
    requires Sound(w) && !IsBy(step, t)
    ensures var after := Do(w, step).0;
            && Held(after, t) == Held(w, t) && after.table.nextId >= w.table.nextId
            && (forall i :: i in w.table.rows && w.table.rows[i].owner == Owner(t) ==>
                  i in after.table.rows && after.table.rows[i] == w.table.rows[i])
            && (forall i :: i in after.table.rows && after.table.rows[i].owner == Owner(t) ==>
                  i in w.table.rows && w.table.rows[i].owner == Owner(t))
  {
    if step.By? && Asked(step.ask, Held(w, step.tenant)).Some? {
      var u, op := step.tenant, Asked(step.ask, Held(w, step.tenant)).value;
      var table := Perform(w.table, Only(u), op).0;
      if op.Save? || op.Delete? {
        assert exists k :: 0 <= k < |Held(w, u)| && Held(w, u)[k] == op.instance;
        assert SoundInstance(w.table, u, op.instance);
      }
      forall i ensures i in w.table.rows && w.table.rows[i].owner == Owner(t) ==>
                         i in table.rows && table.rows[i] == w.table.rows[i]
               ensures i in table.rows && table.rows[i].owner == Owner(t) ==>
                         i in w.table.rows && w.table.rows[i].owner == Owner(t)
      {
        hide Perform;
        if i in w.table.rows && w.table.rows[i].owner == Owner(u) {
          OwnerStays(w.table, u, op, i);
        } else {
          OthersUntouched(w.table, u, op, i);
        }
      }
    }
  }

  lemma OwnerStays<V>(table: Table<V>, t: Tenant, op: Op<V>, i: nat)
    requires i in table.rows && i < table.nextId
    ensures var after := Perform(table, Only(t), op).0.rows;
            i in after ==> after[i].owner == table.rows[i].owner
  {
  }

  lemma OtherStep<V>(shared: World<V>, alone: World<V>, t: Tenant, r: Renaming, step: Step<V>)
    requires Simulates(shared, alone, t, r) && !IsBy(step, t)
    ensures Simulates(Do(shared, step).0, alone, t, r)
  {
    SoundStep(shared, step);
    OtherStepKeepsOut(shared, t, step);
    hide Do, Sound;
  }

  // ---------- One step of the tenant itself ----------

  // Sets that a renaming maps onto each other have the same size.
  lemma {:induction false} RenamedSize(a: set<nat>, b: set<nat>, r: Renaming)
    requires Inverse(r)
    requires forall i :: i in a ==> i in r.to && r.to[i] in b
    requires forall j :: j in b ==> j in r.back && r.back[j] in a
    ensures |a| == |b|
  {
    if a != {} {
      var i :| i in a;
      var j := r.to[i];
      RenamedSize(a - {i}, b - {j}, r);
    } else {
      assert forall j :: j in b ==> r.back[j] in a;
      assert b == {};
    }
  }

  // What both worlds select for the tenant corresponds.
  lemma SelectedAlike<V>(
    shared: World<V>, alone: World<V>, t: Tenant, r: Renaming, filter: (Column, V) -> bool)
    requires Simulates(shared, alone, t, r)
    ensures SameRows(Selected(shared.table.rows, Only(t), filter), Selected(alone.table.rows, Only(t), filter), r)
  {
    var a, b := Selected(shared.table.rows, Only(t), filter), Selected(alone.table.rows, Only(t), filter);
    assert forall i :: i in a ==> i in shared.table.rows && shared.table.rows[i].owner == Owner(t);
    assert forall j :: j in b ==> j in alone.table.rows;
    RenamedSize(a.Keys, b.Keys, r);
  }

  // Writing to corresponding rows keeps the correspondence.
  lemma ChangedAlike<V>(a: map<nat, Row<V>>, b: map<nat, Row<V>>, t: Tenant, r: Renaming,
                        at: set<nat>, at': set<nat>, change: V -> V)
    requires Inverse(r) && SimRows(a, b, t, r)
    requires forall i :: i in a && i in at ==> a[i].owner == Owner(t)
    requires forall i :: i in r.to && i in a ==> (i in at <==> r.to[i] in at')
    ensures SimRows(Changed(a, at, change), Changed(b, at', change), t, r)
    ensures SimRows(a - at, b - at', t, r)
  {
    assert forall j :: j in b ==> r.back[j] in a && r.to[r.back[j]] == j;
  }

  // What joins the renaming was not given out before in the private world.
  ghost predicate Fresh(r: Renaming, r': Renaming, n: nat) {
    forall i :: i in r'.to && i !in r.to ==> r'.to[i] >= n
  }

  // The steps are answered alike in both worlds and leave corresponding worlds.
  ghost predicate StepsAlike<V>(
    shared: World<V>, alone: World<V>, t: Tenant, r: Renaming, step: Step<V>, step': Step<V>, r': Renaming)
  {
    && Simulates(Do(shared, step).0, Do(alone, step').0, t, r')
    && SameAnswer(Do(shared, step).1, Do(alone, step').1, r')
    && Extends(r, r') && Fresh(r, r', alone.table.nextId)
    && alone.table.nextId <= Do(alone, step').0.table.nextId <= alone.table.nextId + 1
  }

  lemma NothingNew(r: Renaming, n: nat)
    ensures Extends(r, r) && Fresh(r, r, n)
  {
  }

  // The renaming fits the ids that the tables have given out.
  ghost predicate Fits<V>(r: Renaming, shared: Table<V>, alone: Table<V>) {
    && Inverse(r) && Ordered(r)
    && (forall i :: i in r.to ==> i < shared.nextId)
    && (forall j :: j in r.back ==> j < alone.nextId)
  }

  // Corresponding outcomes on the tables make corresponding steps.
  lemma Assemble<V>(
    shared: World<V>, alone: World<V>, t: Tenant, r: Renaming, ask: Ask<V>, ask': Ask<V>, r': Renaming)
    requires Simulates(shared, alone, t, r) && Extends(r, r') && Fresh(r, r', alone.table.nextId)
    requires Asked(ask, Held(shared, t)).Some? && Asked(ask', Held(alone, t)).Some?
    requires var (a, x) := Perform(shared.table, Only(t), Asked(ask, Held(shared, t)).value);
             var (b, y) := Perform(alone.table, Only(t), Asked(ask', Held(alone, t)).value);
             Fits(r', a, b) && SimRows(a.rows, b.rows, t, r') && SameAnswer(x, y, r')
    ensures StepsAlike(shared, alone, t, r, By(t, ask), By(t, ask'), r')
  {
    SoundStep(shared, By(t, ask));
    SoundStep(alone, By(t, ask'));
    var op, op' := Asked(ask, Held(shared, t)).value, Asked(ask', Held(alone, t)).value;
    AnswerListed(shared, t, op);
    AnswerListed(alone, t, op');
    hide Perform, Sound, SimRows, Asked;
    var (a, x) := Perform(shared.table, Only(t), op);
    var (b, y) := Perform(alone.table, Only(t), op');
    hide SameAnswer, Gained;
    GainedAlike(x, y, r', a.nextId, b.nextId);
    HeldGrows(Held(shared, t), Held(alone, t), Gained(x, a.nextId), Gained(y, b.nextId), r, r');
  }

  // The ids of the rows in an answer were all given out.
  ghost predicate Listed<V>(response: Response<V>, n: nat) {
    match response
    case Rows(rows) => forall i :: i in rows ==> i < n
    case Page(_, rows) => forall i :: i in rows ==> i < n
    case _ => true
  }

  lemma AnswerListed<V>(w: World<V>, t: Tenant, op: Op<V>)
    requires Sound(w)
    ensures var (after, response) := Perform(w.table, Only(t), op);
            && Listed(response, after.nextId) && w.table.nextId <= after.nextId <= w.table.nextId + 1
  {
  }

  // Rows that correspond, with ids below the given ones.
  ghost predicate RowsBelow<V>(a: map<nat, Row<V>>, b: map<nat, Row<V>>, r: Renaming, n: nat, m: nat) {
    && (forall i :: i in a && i < n ==> i in r.to && r.to[i] in b && r.to[i] < m && b[r.to[i]] == a[i])
    && (forall j :: j in b && j < m ==> j in r.back && r.back[j] in a && r.back[j] < n)
  }

  lemma SkipBelow<V>(a: map<nat, Row<V>>, b: map<nat, Row<V>>, r: Renaming, n: nat, m: nat)
    requires Inverse(r) && RowsBelow(a, b, r, n, m)
    ensures n > 0 && n - 1 !in a ==> RowsBelow(a, b, r, n - 1, m)
    ensures m > 0 && m - 1 !in b ==> RowsBelow(a, b, r, n, m - 1)
  {
  }

  // The last rows of both correspond.
  lemma LastBelow<V>(a: map<nat, Row<V>>, b: map<nat, Row<V>>, r: Renaming, n: nat, m: nat)
    requires Inverse(r) && Ordered(r) && RowsBelow(a, b, r, n, m)
    requires (n > 0 ==> n - 1 in a) && (m > 0 ==> m - 1 in b)
    ensures n > 0 <==> m > 0
    ensures n > 0 ==> n - 1 in r.to && r.to[n - 1] == m - 1 && a[n - 1] == b[m - 1] && RowsBelow(a, b, r, n - 1, m - 1)
  {
    if n > 0 && m > 0 {
      LastMeets(r, n - 1, m - 1);
      hide Ordered;
    }
  }

  lemma LastMeets(r: Renaming, i: nat, j: nat)
    requires Inverse(r) && Ordered(r) && i in r.to && r.to[i] <= j && j in r.back && r.back[j] <= i
    ensures r.to[i] == j
  {
    OrderedBack(r, r.back[j], i);
  }

  lemma OrderedBack(r: Renaming, i: nat, j: nat)
    requires Ordered(r) && i in r.to && j in r.to && r.to[i] >= r.to[j]
    ensures i >= j
  {
  }

  lemma ListingStep<V>(rows: map<nat, Row<V>>, n: nat)
    ensures if n == 0 then Listing(rows, n) == []
            else if n - 1 in rows then Listing(rows, n) == Listing(rows, n - 1) + [Instance(n - 1, rows[n - 1].owner)]
            else Listing(rows, n) == Listing(rows, n - 1)
  {
    if n > 0 { AppendNothing(Listing(rows, n - 1)); }
  }

  // They correspond one by one, since the renaming keeps the order.
  lemma {:induction false} ListingsAlike<V>(
    a: map<nat, Row<V>>, b: map<nat, Row<V>>, r: Renaming, n: nat, m: nat)
    requires Inverse(r) && Ordered(r) && RowsBelow(a, b, r, n, m)
    ensures SimHeld(Listing(a, n), Listing(b, m), r)
    decreases n + m
  {
    hide *;
    ListingStep(a, n);
    ListingStep(b, m);
    NoneHeld(r);
    SkipBelow(a, b, r, n, m);
    if n > 0 && n - 1 !in a {
      ListingsAlike(a, b, r, n - 1, m);
    } else if m > 0 && m - 1 !in b {
      ListingsAlike(a, b, r, n, m - 1);
    } else {
      LastBelow(a, b, r, n, m);
      if n > 0 {
        ListingsAlike(a, b, r, n - 1, m - 1);
        var x, y := Instance(n - 1, a[n - 1].owner), Instance(m - 1, b[m - 1].owner);
        OneHeld(x, y, r);
        NothingNew(r, 0);
        HeldGrows(Listing(a, n - 1), Listing(b, m - 1), [x], [y], r, r);
      }
    }
  }

  lemma NoneHeld(r: Renaming)
    ensures SimHeld([], [], r)
  {
  }

  lemma OneHeld(x: Instance, y: Instance, r: Renaming)
    requires x.column == y.column && x.id in r.to && r.to[x.id] == y.id
    ensures SimHeld([x], [y], r)
  {
  }

  lemma AnswersAlike<V>(a: map<nat, Row<V>>, b: map<nat, Row<V>>, r: Renaming, n: nat, m: nat)
    requires Inverse(r) && Ordered(r) && SameRows(a, b, r)
    requires (forall i :: i in a ==> i < n) && (forall j :: j in b ==> j < m)
    ensures SimHeld(Listing(a, n), Listing(b, m), r)
  {
    assert RowsBelow(a, b, r, n, m);
    hide *;
    ListingsAlike(a, b, r, n, m);
  }

  lemma GainedAlike<V>(x: Response<V>, y: Response<V>, r: Renaming, n: nat, m: nat)
    requires Inverse(r) && Ordered(r) && SameAnswer(x, y, r) && Listed(x, n) && Listed(y, m)
    ensures SimHeld(Gained(x, n), Gained(y, m), r)
  {
    match (x, y) {
      case (Rows(a), Rows(b)) =>
        hide Inverse, Ordered, SameRows, Listing, SimHeld;
        AnswersAlike(a, b, r, n, m);
      case (Page(_, a), Page(_, b)) =>
        hide Inverse, Ordered, SameRows, Listing, SimHeld;
        AnswersAlike(a, b, r, n, m);
      case _ =>
        hide Inverse, Ordered, SameRows, Listing;
    }
  }

  lemma HeldGrows(a: seq<Instance>, b: seq<Instance>, x: seq<Instance>, y: seq<Instance>, r: Renaming, r': Renaming)
    requires SimHeld(a, b, r) && SimHeld(x, y, r') && Extends(r, r')
    ensures SimHeld(a + x, b + y, r')
  {
  }

  // What operations come to within a tenant's scope.
  lemma CreateInScope<V>(table: Table<V>, t: Tenant, cols: V)
    ensures Perform(table, Only(t), Create(Unset, cols)) ==
            (Table(table.rows[table.nextId := Row(Owner(t), cols)], table.nextId + 1),
             Stored(table.nextId, Row(Owner(t), cols)))
  {
  }

  lemma ReadInScope<V>(table: Table<V>, t: Tenant, op: Op<V>)
    requires op.Fetch? || op.Paginate?
    ensures var rows := Selected(table.rows, Only(t), op.filter);
            Perform(table, Only(t), op) == (table, if op.Fetch? then Rows(rows) else Page(|rows|, rows))
  {
    hide Selected;
  }

  lemma BulkInScope<V>(table: Table<V>, t: Tenant, op: Op<V>)
    requires op.UpdateWhere? || op.DeleteWhere?
    ensures var at := Selected(table.rows, Only(t), op.filter).Keys;
            Perform(table, Only(t), op) ==
            (table.(rows := if op.UpdateWhere? then Changed(table.rows, at, op.change) else table.rows - at),
             Affected(|at|))
  {
    hide Selected, Changed;
  }

  lemma InstanceInScope<V>(table: Table<V>, t: Tenant, op: Op<V>)
    requires (op.Save? || op.Delete?) && op.instance.column == Owner(t)
    ensures var at := {op.instance.id};
            Perform(table, Only(t), op) ==
            (table.(rows := if op.Save? then Changed(table.rows, at, op.change) else table.rows - at),
             Affected(if op.instance.id in table.rows then 1 else 0))
  {
    hide Changed;
  }

  // A fresh row on either side joins the renaming.
  lemma FreshRow<V>(a: Table<V>, b: Table<V>, t: Tenant, r: Renaming, row: Row<V>)
    requires Fits(r, a, b) && SimRows(a.rows, b.rows, t, r) && row.owner == Owner(t)
    requires a.nextId !in a.rows && b.nextId !in b.rows
    ensures var i, j := a.nextId, b.nextId;
            var r' := Renaming(r.to[i := j], r.back[j := i]);
            && Fits(r', Table(a.rows[i := row], i + 1), Table(b.rows[j := row], j + 1)) && Extends(r, r')
            && SimRows(a.rows[i := row], b.rows[j := row], t, r')
  {
    FreshOrdered(a, b, r);
    FreshSimRows(a.rows, b.rows, t, r, row, a.nextId, b.nextId);
    hide Ordered, SimRows;
  }

  lemma FreshSimRows<V>(
    a: map<nat, Row<V>>, b: map<nat, Row<V>>, t: Tenant, r: Renaming, row: Row<V>, i: nat, j: nat)
    requires SimRows(a, b, t, r) && row.owner == Owner(t)
    requires i !in a && j !in b && i !in r.to && j !in r.back && Inverse(r)
    ensures SimRows(a[i := row], b[j := row], t, Renaming(r.to[i := j], r.back[j := i]))
  {
  }

  lemma FreshOrdered<V>(a: Table<V>, b: Table<V>, r: Renaming)
    requires Fits(r, a, b)
    ensures Ordered(Renaming(r.to[a.nextId := b.nextId], r.back[b.nextId := a.nextId]))
  {
    assert forall i :: i in r.to ==> i < a.nextId && r.to[i] < b.nextId;
  }

  lemma OwnCreate<V>(shared: World<V>, alone: World<V>, t: Tenant, r: Renaming, cols: V) returns (r': Renaming)
    requires Simulates(shared, alone, t, r)
    ensures StepsAlike(shared, alone, t, r, By(t, AskCreate(cols)), By(t, AskCreate(cols)), r')
  {
    var i, j := shared.table.nextId, alone.table.nextId;
    r' := Renaming(r.to[i := j], r.back[j := i]);
    assert i !in shared.table.rows && j !in alone.table.rows;
    FreshRow(shared.table, alone.table, t, r, Row(Owner(t), cols));
    CreateInScope(shared.table, t, cols);
    CreateInScope(alone.table, t, cols);
    hide Perform, Do, Sound, StepsAlike, SimHeld, SimRows, Fits, Extends;
    Assemble(shared, alone, t, r, AskCreate(cols), AskCreate(cols), r');
  }

  lemma HeldSound<V>(w: World<V>, t: Tenant)
    requires Sound(w)
    ensures forall k :: 0 <= k < |Held(w, t)| ==> SoundInstance(w.table, t, Held(w, t)[k])
  {
  }

  lemma SameRead<V>(rows: map<nat, Row<V>>, rows': map<nat, Row<V>>, r: Renaming)
    requires SameRows(rows, rows', r)
    ensures SameAnswer(Rows(rows), Rows(rows'), r) && SameAnswer(Page(|rows|, rows), Page(|rows'|, rows'), r)
  {
    assert |rows| == |rows'|;
    hide SameRows;
  }

  lemma ReadAlike<V>(shared: World<V>, alone: World<V>, t: Tenant, r: Renaming, op: Op<V>)
    requires Simulates(shared, alone, t, r) && (op.Fetch? || op.Paginate?)
    ensures var (a, x) := Perform(shared.table, Only(t), op);
            var (b, y) := Perform(alone.table, Only(t), op);
            a == shared.table && b == alone.table && SameAnswer(x, y, r)
  {
    SelectedAlike(shared, alone, t, r, op.filter);
    ReadInScope(shared.table, t, op);
    ReadInScope(alone.table, t, op);
    hide *;
    SameRead(Selected(shared.table.rows, Only(t), op.filter), Selected(alone.table.rows, Only(t), op.filter), r);
  }

  lemma OwnRead<V>(shared: World<V>, alone: World<V>, t: Tenant, r: Renaming, ask: Ask<V>)
    requires Simulates(shared, alone, t, r) && (ask.AskFetch? || ask.AskPaginate?)
    ensures StepsAlike(shared, alone, t, r, By(t, ask), By(t, ask), r)
  {
    NothingNew(r, alone.table.nextId);
    var op := Asked(ask, Held(shared, t)).value;
    assert op == Asked(ask, Held(alone, t)).value;
    assert Fits(r, shared.table, alone.table) && SimRows(shared.table.rows, alone.table.rows, t, r) by {
      hide SimRows, SimHeld, Sound, Inverse, Ordered;
    }
    hide *;
    ReadAlike(shared, alone, t, r, op);
    Assemble(shared, alone, t, r, ask, ask, r);
  }

  lemma OwnFind<V>(shared: World<V>, alone: World<V>, t: Tenant, r: Renaming, slot: nat)
    requires Simulates(shared, alone, t, r)
    ensures StepsAlike(shared, alone, t, r, By(t, AskFind(slot)), By(t, AskFind(slot)), r)
  {
    HeldSound(shared, t);
    hide Do, Sound, StepsAlike;
    if slot < |Held(shared, t)| {
      Assemble(shared, alone, t, r, AskFind(slot), AskFind(slot), r);
    } else {
      NothingAsked(shared, alone, t, r, AskFind(slot));
    }
  }

  // An id of the tenant is looked for under its other name, any other id in vain.
  lemma OwnFindId<V>(shared: World<V>, alone: World<V>, t: Tenant, r: Renaming, id: nat, id': nat)
    requires Simulates(shared, alone, t, r)
    requires if id in r.to then id' == r.to[id] else id' !in alone.table.rows
    ensures StepsAlike(shared, alone, t, r, By(t, AskFindId(id)), By(t, AskFindId(id')), r)
  {
    hide Do, Sound, StepsAlike;
    Assemble(shared, alone, t, r, AskFindId(id), AskFindId(id'), r);
  }

  // An instance that the client does not have changes nothing in either world.
  lemma NothingAsked<V>(shared: World<V>, alone: World<V>, t: Tenant, r: Renaming, ask: Ask<V>)
    requires Simulates(shared, alone, t, r)
    requires (ask.AskFind? || ask.AskSave? || ask.AskDelete?) && ask.slot >= |Held(shared, t)|
    ensures StepsAlike(shared, alone, t, r, By(t, ask), By(t, ask), r)
  {
    hide Sound, Perform;
  }

  lemma OwnBulk<V>(shared: World<V>, alone: World<V>, t: Tenant, r: Renaming, ask: Ask<V>)
    requires Simulates(shared, alone, t, r) && (ask.AskUpdateWhere? || ask.AskDeleteWhere?)
    ensures StepsAlike(shared, alone, t, r, By(t, ask), By(t, ask), r)
  {
    hide Do, Sound, StepsAlike, SimHeld;
    var op := Asked(ask, Held(shared, t)).value;
    assert op == Asked(ask, Held(alone, t)).value;
    BulkInScope(shared.table, t, op);
    BulkInScope(alone.table, t, op);
    hide Perform, Asked, Held;
    BulkAlike(shared, alone, t, r, op.filter, if op.UpdateWhere? then op.change else (v: V) => v);
    hide Selected, Changed, SimRows;
    Assemble(shared, alone, t, r, ask, ask, r);
  }

  lemma BulkAlike<V>(
    shared: World<V>, alone: World<V>, t: Tenant, r: Renaming, filter: (Column, V) -> bool, change: V -> V)
    requires Simulates(shared, alone, t, r)
    ensures var a, b := shared.table.rows, alone.table.rows;
            var at, at' := Selected(a, Only(t), filter).Keys, Selected(b, Only(t), filter).Keys;
            && |at| == |at'|
            && SimRows(Changed(a, at, change), Changed(b, at', change), t, r) && SimRows(a - at, b - at', t, r)
  {
    hide Sound, SimHeld;
    var a, b := shared.table.rows, alone.table.rows;
    var at, at' := Selected(a, Only(t), filter).Keys, Selected(b, Only(t), filter).Keys;
    SelectedAlike(shared, alone, t, r, filter);
    SelectedTogether(a, b, t, r, filter);
    hide Selected, Changed;
    ChangedAlike(a, b, t, r, at, at', change);
  }

  lemma SelectedTogether<V>(
    a: map<nat, Row<V>>, b: map<nat, Row<V>>, t: Tenant, r: Renaming, filter: (Column, V) -> bool)
    requires Inverse(r) && SimRows(a, b, t, r)
    ensures var at, at' := Selected(a, Only(t), filter).Keys, Selected(b, Only(t), filter).Keys;
            && (forall i :: i in a && i in at ==> a[i].owner == Owner(t))
            && (forall i :: i in r.to && i in a ==> (i in at <==> r.to[i] in at'))
  {
  }

  lemma InstanceAlike<V>(
    shared: World<V>, alone: World<V>, t: Tenant, r: Renaming, slot: nat, change: V -> V)
    requires Simulates(shared, alone, t, r) && slot < |Held(shared, t)|
    ensures var a, b, x, y := shared.table.rows, alone.table.rows, Held(shared, t)[slot], Held(alone, t)[slot];
            && x.column == y.column == Owner(t) && (x.id in a <==> y.id in b)
            && SimRows(Changed(a, {x.id}, change), Changed(b, {y.id}, change), t, r)
            && SimRows(a - {x.id}, b - {y.id}, t, r)
  {
    HeldSound(shared, t);
    HeldSound(alone, t);
    hide Sound, Changed;
    var x, y := Held(shared, t)[slot], Held(alone, t)[slot];
    assert SoundInstance(shared.table, t, x) && SoundInstance(alone.table, t, y);
    ChangedAlike(shared.table.rows, alone.table.rows, t, r, {x.id}, {y.id}, change);
  }

  lemma OwnInstance<V>(shared: World<V>, alone: World<V>, t: Tenant, r: Renaming, ask: Ask<V>)
    requires Simulates(shared, alone, t, r) && (ask.AskSave? || ask.AskDelete?)
    ensures StepsAlike(shared, alone, t, r, By(t, ask), By(t, ask), r)
  {
    hide Do, Sound, StepsAlike, SimHeld, SimRows, Changed;
    if ask.slot < |Held(shared, t)| {
      assert |Held(alone, t)| == |Held(shared, t)| by { HeldLength(shared, alone, t, r); }
      InstanceAlike(shared, alone, t, r, ask.slot, if ask.AskSave? then ask.change else (v: V) => v);
      var op, op' := Asked(ask, Held(shared, t)).value, Asked(ask, Held(alone, t)).value;
      InstanceInScope(shared.table, t, op);
      InstanceInScope(alone.table, t, op');
      hide Perform, Held;
      Assemble(shared, alone, t, r, ask, ask, r);
    } else {
      NothingAsked(shared, alone, t, r, ask);
    }
  }

  lemma HeldLength<V>(shared: World<V>, alone: World<V>, t: Tenant, r: Renaming)
    requires Simulates(shared, alone, t, r)
    ensures |Held(alone, t)| == |Held(shared, t)|
  {
  }

  lemma OwnStep<V>(
    shared: World<V>, alone: World<V>, t: Tenant, r: Renaming, step: Step<V>, none: nat) returns (r': Renaming)
    requires Simulates(shared, alone, t, r) && IsBy(step, t) && none >= alone.table.nextId
    ensures StepsAlike(shared, alone, t, r, step, Renamed(step, r, none), r')
  {
    r' := r;
    assert none !in alone.table.rows;
    hide StepsAlike, Simulates, Do;
    match step.ask
    case AskCreate(cols) => r' := OwnCreate(shared, alone, t, r, cols);
    case AskFind(slot) => OwnFind(shared, alone, t, r, slot);
    case AskFindId(id) => OwnFindId(shared, alone, t, r, id, if id in r.to then r.to[id] else none);
    case AskFetch(_) => OwnRead(shared, alone, t, r, step.ask);
    case AskPaginate(_) => OwnRead(shared, alone, t, r, step.ask);
    case AskUpdateWhere(_, _) => OwnBulk(shared, alone, t, r, step.ask);
    case AskDeleteWhere(_) => OwnBulk(shared, alone, t, r, step.ask);
    case AskSave(_, _) => OwnInstance(shared, alone, t, r, step.ask);
    case AskDelete(_) => OwnInstance(shared, alone, t, r, step.ask);
  }

  // ---------- Whole interleavings ----------

  ghost predicate SameAnswers<V>(a: seq<Response<V>>, b: seq<Response<V>>, r: Renaming) {
    |a| == |b| && forall k :: 0 <= k < |a| ==> SameAnswer(a[k], b[k], r)
  }

  lemma AnswersExtend<V>(a: Response<V>, b: Response<V>, r: Renaming, r': Renaming)
    requires SameAnswer(a, b, r) && Extends(r, r')
    ensures SameAnswer(a, b, r')
  {
  }

  lemma SimulatesSound<V>(shared: World<V>, alone: World<V>, t: Tenant, r: Renaming)
    requires Simulates(shared, alone, t, r)
    ensures forall i :: i in alone.table.rows ==> i < alone.table.nextId
  {
    hide SimRows, SimHeld, Inverse, Ordered;
  }

  lemma GrowsOn(r: Renaming, r1: Renaming, r2: Renaming, n: nat, n1: nat)
    requires Extends(r, r1) && Extends(r1, r2) && Fresh(r, r1, n) && Fresh(r1, r2, n1) && n <= n1
    ensures Extends(r, r2) && Fresh(r, r2, n)
  {
  }

  // What joins the renaming later makes no difference to a step now.
  lemma RenamedLater<V>(alone: World<V>, step: Step<V>, r: Renaming, r': Renaming, none: nat)
    requires forall i :: i in alone.table.rows ==> i < alone.table.nextId
    requires Extends(r, r') && Fresh(r, r', alone.table.nextId) && none >= alone.table.nextId
    ensures Do(alone, Renamed(step, r', none)) == Do(alone, Renamed(step, r, none))
  {
  }

  // A run of the tenant's own first step and the others, in both worlds.
  lemma OwnFirst<V>(shared: World<V>, alone: World<V>, steps: seq<Step<V>>, t: Tenant, r: Renaming, none: nat)
    requires steps != [] && IsBy(steps[0], t)
    ensures var own, rest := AllRenamed(Own(steps, t), r, none), AllRenamed(Own(steps[1..], t), r, none);
            var step, step' := steps[0], Renamed(steps[0], r, none);
            && Run(shared, steps) == Run(Do(shared, step).0, steps[1..])
            && Run(alone, own) == Run(Do(alone, step').0, rest)
            && Answers(shared, steps, t) == [Do(shared, step).1] + Answers(Do(shared, step).0, steps[1..], t)
            && Answers(alone, own, t) == [Do(alone, step').1] + Answers(Do(alone, step').0, rest, t)
  {
    ConsTail(steps[0], Own(steps[1..], t));
    ConsTail(Renamed(steps[0], r, none), AllRenamed(Own(steps[1..], t), r, none));
    hide Do;
  }

  lemma OtherFirst<V>(shared: World<V>, steps: seq<Step<V>>, t: Tenant)
    requires steps != [] && !IsBy(steps[0], t)
    ensures Own(steps, t) == Own(steps[1..], t)
    ensures Run(shared, steps) == Run(Do(shared, steps[0]).0, steps[1..])
    ensures Answers(shared, steps, t) == Answers(Do(shared, steps[0]).0, steps[1..], t)
  {
    AppendNothing(Own(steps[1..], t));
    AppendNothing(Answers(Do(shared, steps[0]).0, steps[1..], t));
    hide Do;
  }

  lemma SameAnswersCons<V>(
    x: Response<V>, y: Response<V>, a: seq<Response<V>>, b: seq<Response<V>>, r: Renaming, r': Renaming)
    requires SameAnswer(x, y, r) && Extends(r, r') && SameAnswers(a, b, r')
    ensures SameAnswers([x] + a, [y] + b, r')
  {
    AnswersExtend(x, y, r, r');
    hide SameAnswer;
  }

  lemma NoSteps<V>(shared: World<V>, alone: World<V>, t: Tenant, r: Renaming, none: nat)
    ensures var own := AllRenamed(Own([], t), r, none);
            && Run(shared, []) == shared && Run(alone, own) == alone
            && SameAnswers(Answers(shared, [], t), Answers(alone, own, t), r)
  {
  }

  lemma AlikeIs<V>(
    shared: World<V>, alone: World<V>, t: Tenant, r: Renaming, step: Step<V>, step': Step<V>, r': Renaming)
    requires StepsAlike(shared, alone, t, r, step, step', r')
    ensures Simulates(Do(shared, step).0, Do(alone, step').0, t, r')
    ensures SameAnswer(Do(shared, step).1, Do(alone, step').1, r')
    ensures Extends(r, r') && Fresh(r, r', alone.table.nextId)
    ensures alone.table.nextId <= Do(alone, step').0.table.nextId <= alone.table.nextId + 1
  {
    hide Do, Simulates, SameAnswer, Extends, Fresh;
  }

  /**
   * Whatever the interleaving of tenants on the shared table, each tenant's answers are those that its own steps get
   * when run alone on a table of its own, and so are its rows in the end, up to generated ids. Ids that the tenant's
   * code looks for are renamed like those it is given; none is an id that the private table never gives out.
   */
  lemma {:induction false} SharedTableSimulatesPrivateTables<V>(
    shared: World<V>, alone: World<V>, t: Tenant, r: Renaming, steps: seq<Step<V>>, none: nat) returns (r': Renaming)
    requires Simulates(shared, alone, t, r) && none >= alone.table.nextId + |steps|
    ensures var own := AllRenamed(Own(steps, t), r', none);
            && Simulates(Run(shared, steps), Run(alone, own), t, r')
            && SameAnswers(Answers(shared, steps, t), Answers(alone, own, t), r')
    ensures Extends(r, r') && Fresh(r, r', alone.table.nextId)
    decreases |steps|
  {
    hide *;
    SimulatesSound(shared, alone, t, r);
    if steps == [] {
      r' := r;
      NothingNew(r, alone.table.nextId);
      NoSteps(shared, alone, t, r, none);
    } else if IsBy(steps[0], t) {
      var step := steps[0];
      var r1 := OwnStep(shared, alone, t, r, step, none);
      AlikeIs(shared, alone, t, r, step, Renamed(step, r, none), r1);
      var after, alone1 := Do(shared, step).0, Do(alone, Renamed(step, r, none)).0;
      r' := SharedTableSimulatesPrivateTables(after, alone1, t, r1, steps[1..], none);
      GrowsOn(r, r1, r', alone.table.nextId, alone1.table.nextId);
      RenamedLater(alone, step, r, r', none);
      OwnFirst(shared, alone, steps, t, r', none);
      SameAnswersCons(Do(shared, step).1, Do(alone, Renamed(step, r, none)).1, Answers(after, steps[1..], t),
                      Answers(alone1, AllRenamed(Own(steps[1..], t), r', none), t), r1, r');
    } else {
      OtherStep(shared, alone, t, r, steps[0]);
      r' := SharedTableSimulatesPrivateTables(Do(shared, steps[0]).0, alone, t, r, steps[1..], none);
      OtherFirst(shared, steps, t);
    }
  }

  /** From empty tables, for every tenant at once. */
  lemma TenantsAreIsolated<V>(steps: seq<Step<V>>, t: Tenant) returns (r: Renaming)
    ensures var empty := World(Table(map[], 0), map[]);
            var own := AllRenamed(Own(steps, t), r, |steps|);
            && Simulates(Run(empty, steps), Run(empty, own), t, r)
            && SameAnswers(Answers(empty, steps, t), Answers(empty, own, t), r)
  {
    var empty: World<V> := World(Table(map[], 0), map[]);
    r := SharedTableSimulatesPrivateTables(empty, empty, t, Renaming(map[], map[]), steps, |steps|);
  }

  /**
   * On a private table no scope is needed: where every row is the tenant's, an operation in its scope does what it does
   * outside every scope, once new rows are given their owner.
   */
  lemma PrivateTableNeedsNoScope<V>(table: Table<V>, t: Tenant, op: Op<V>)
    requires forall i :: i in table.rows ==> table.rows[i].owner == Owner(t)
    requires op.Save? || op.Delete? ==> op.instance.column == Owner(t)
    ensures Perform(table, Only(t), op)
            == Perform(table, Everything, if op.Create? then Create(Stamped(Only(t), op.column), op.cols) else op)
  {
    if op.Fetch? || op.Paginate? || op.UpdateWhere? || op.DeleteWhere? {
      assert Selected(table.rows, Only(t), op.filter) == Selected(table.rows, Everything, op.filter);
    }
  }
}
