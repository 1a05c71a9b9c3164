/**
 * Row-scoped tenancy: all tenants share one table, and the model mixin confines each operation to the rows of the
 * tenant whose scope it runs in.
 */
module RowScope {
  import opened Wrappers
  import opened Identifiers

  type Tenant = string

  // ---------- The two ambient scopes ----------

  // The innermost tenancy.run, if any, and whether an unscoped() surrounds the code.
  datatype Scope = Scope(tenant: Option<Tenant>, bypass: bool)

  const OUTSIDE: Scope := Scope(None, false)

  // What an operation may touch: every row, the rows of one tenant, or nothing because the scope is missing.
  datatype Reach = Everything | Only(tenant: Tenant) | MissingScope

  /** requireScope: the bypass wins over every tenant, and an empty tenant id counts as no tenant. */
  function RequireScope(scope: Scope, strict: bool): Reach {
    if scope.bypass then Everything
    else if scope.tenant.Some? && scope.tenant.value != "" then Only(scope.tenant.value)
    else if strict then MissingScope
    else Everything
  }

  /** What a scope lets an operation touch, and when it is refused. */
  lemma ReachOf(scope: Scope, strict: bool, owner: Column)
    ensures var none := scope.tenant == None || scope.tenant == Some("");
            && (RequireScope(scope, strict) == MissingScope <==> strict && !scope.bypass && none)
            && (InReach(RequireScope(scope, strict), owner) <==>
                  scope.bypass || (if none then !strict else owner == Owner(scope.tenant.value)))
  {
  }

  // Code as far as it opens scopes: an operation, tenancy.run(tenant, body) and unscoped(body).
  datatype Code<Op> = Act(op: Op) | RunAs(tenant: Tenant, body: seq<Code<Op>>) | Unscoped(body: seq<Code<Op>>)

  datatype Event<Op> = Event(scope: Scope, op: Op)

  /** The operations that code performs, each with the scope it finds itself in. */
  function Trace<Op>(code: seq<Code<Op>>, scope: Scope): seq<Event<Op>>
    decreases code
  {
    if code == [] then []
    else
      (match code[0]
       case Act(op) => [Event(scope, op)]
       case RunAs(t, body) => Trace(body, scope.(tenant := Some(t)))
       case Unscoped(body) => Trace(body, scope.(bypass := true))) + Trace(code[1..], scope)
  }

  // ---------- Rows, model instances and operations ----------

  // The scope column: unset on an instance that did not load it, else null or the id of a tenant.
  datatype Column = Unset | Null | Owner(tenant: Tenant)

  datatype Row<V> = Row(owner: Column, cols: V)

  // A model instance as client code holds it.
  datatype Instance = Instance(id: nat, column: Column)

  datatype Op<!V> =
    | Create(column: Column, cols: V)
    | Find(id: nat)
    | Fetch(filter: (Column, V) -> bool)
    | Paginate(filter: (Column, V) -> bool)
    | UpdateWhere(filter: (Column, V) -> bool, change: V -> V)
    | DeleteWhere(filter: (Column, V) -> bool)
    | Save(instance: Instance, change: V -> V)
    | Delete(instance: Instance)

  datatype Response<V> =
    | Missing
    | Refused
    | Stored(id: nat, row: Row<V>)
    | Found(result: Option<(nat, Row<V>)>)
    | Rows(rows: map<nat, Row<V>>)
    | Page(total: nat, rows: map<nat, Row<V>>)
    | Affected(count: nat)

  datatype Table<V> = Table(rows: map<nat, Row<V>>, nextId: nat)

  predicate InReach(reach: Reach, owner: Column) {
    reach == Everything || (reach.Only? && owner == Owner(reach.tenant))
  }

  /** The rows in reach that satisfy a filter. */
  function Selected<V>(rows: map<nat, Row<V>>, reach: Reach, filter: (Column, V) -> bool): map<nat, Row<V>> {
    map i | i in rows && InReach(reach, rows[i].owner) && filter(rows[i].owner, rows[i].cols) :: rows[i]
  }

  function Changed<V>(rows: map<nat, Row<V>>, at: set<nat>, change: V -> V): map<nat, Row<V>> {
    map i | i in rows :: if i in at then rows[i].(cols := change(rows[i].cols)) else rows[i]
  }

  // The guard of the update and delete hooks.
  predicate MayWrite(reach: Reach, column: Column) {
    reach.Only? ==> column == Unset || column == Owner(reach.tenant)
  }

  // The scope column of a new row.
  function Stamped(reach: Reach, column: Column): Column {
    if reach.Only? && (column == Unset || column == Null) then Owner(reach.tenant)
    else if column == Unset then Null
    else column
  }

  /** What an operation does to the table, and what it answers. */
  function Perform<V>(table: Table<V>, reach: Reach, op: Op<V>): (Table<V>, Response<V>) {
    var rows := table.rows;
    if reach == MissingScope then (table, Missing)
    else
      match op
      case Create(column, cols) =>
        var row := Row(Stamped(reach, column), cols);
        (Table(rows[table.nextId := row], table.nextId + 1), Stored(table.nextId, row))
      case Find(id) =>
        (table, Found(if id in rows && InReach(reach, rows[id].owner) then Some((id, rows[id])) else None))
      case Fetch(filter) => (table, Rows(Selected(rows, reach, filter)))
      case Paginate(filter) =>
        (table, Page(|Selected(rows, reach, filter)|, Selected(rows, reach, filter)))
      case UpdateWhere(filter, change) =>
        var at := Selected(rows, reach, filter).Keys;
        (table.(rows := Changed(rows, at, change)), Affected(|at|))
      case DeleteWhere(filter) =>
        var at := Selected(rows, reach, filter).Keys;
        (table.(rows := rows - at), Affected(|at|))
      case Save(instance, change) =>
        if !MayWrite(reach, instance.column) then (table, Refused)
        else (table.(rows := Changed(rows, {instance.id}, change)), Affected(if instance.id in rows then 1 else 0))
      case Delete(instance) =>
        if !MayWrite(reach, instance.column) then (table, Refused)
        else (table.(rows := rows - {instance.id}), Affected(if instance.id in rows then 1 else 0))
  }

  // ---------- The model and its hooks ----------

  datatype Condition<!V> = ScopeIs(tenant: Tenant) | KeyIs(id: nat) | Satisfies(filter: (Column, V) -> bool)

  predicate Holds<V>(c: Condition<V>, id: nat, row: Row<V>) {
    match c
    case ScopeIs(t) => row.owner == Owner(t)
    case KeyIs(k) => id == k
    case Satisfies(filter) => filter(row.owner, row.cols)
  }

  predicate AllHold<V>(conditions: seq<Condition<V>>, id: nat, row: Row<V>) {
    forall k :: 0 <= k < |conditions| ==> Holds(conditions[k], id, row)
  }

  /** A flat chain of conditions, all of which must hold. */
  class QueryBuilder<V> {
    var wheres: seq<Condition<V>>

    constructor ()
      ensures wheres == []
    {
      wheres := [];
    }

    method Where(c: Condition<V>)
      modifies this
      ensures wheres == old(wheres) + [c]
    {
      wheres := wheres + [c];
    }
  }

  class ScopedModel<V> {
    var rows: map<nat, Row<V>>
    var nextId: nat
    const strict: bool

    constructor (strict: bool)
      ensures this.strict == strict && rows == map[] && nextId == 0
    {
      this.strict := strict;
      rows := map[];
      nextId := 0;
    }

    ghost function Contents(): Table<V>
      reads this
    { Table(rows, nextId) }

    // The rows that a query reads.
    method Run(query: QueryBuilder<V>) returns (found: map<nat, Row<V>>)
      ensures found == map i | i in rows && AllHold(query.wheres, i, rows[i]) :: rows[i]
    {
      found := map i | i in rows && AllHold(query.wheres, i, rows[i]) :: rows[i];
    }

    /** The wrapped query() factory: a builder that starts with the condition on the scope column. */
    method Query(scope: Scope) returns (missing: bool, query: QueryBuilder<V>)
      ensures fresh(query)
      ensures var reach := RequireScope(scope, strict);
              && missing == reach.MissingScope?
              && query.wheres == if reach.Only? then [ScopeIs(reach.tenant)] else []
    {
      query := new QueryBuilder<V>();
      var reach := RequireScope(scope, strict);
      missing := reach.MissingScope?;
      if reach.Only? {
        query.Where(ScopeIs(reach.tenant));
      }
    }

    // The hooks before find, fetch and paginate add the condition once more.
    method BeforeRead(scope: Scope, query: QueryBuilder<V>) returns (missing: bool)
      modifies query
      ensures var reach := RequireScope(scope, strict);
              && missing == reach.MissingScope?
              && query.wheres == old(query.wheres) + if reach.Only? then [ScopeIs(reach.tenant)] else []
    {
      var reach := RequireScope(scope, strict);
      missing := reach.MissingScope?;
      if reach.Only? {
        query.Where(ScopeIs(reach.tenant));
      }
    }

    method Read(scope: Scope, condition: Condition<V>) returns (missing: bool, found: map<nat, Row<V>>)
      ensures var reach := RequireScope(scope, strict);
              && missing == reach.MissingScope?
              && (!missing ==> found == map i | i in rows && InReach(reach, rows[i].owner)
                                                && Holds(condition, i, rows[i]) :: rows[i])
    {
      found := map[];
      var query;
      missing, query := Query(scope);
      if missing { return; }
      query.Where(condition);
      missing := BeforeRead(scope, query);
      if missing { return; }
      ghost var wheres := query.wheres;
      assert forall i :: i in rows ==>
        (AllHold(wheres, i, rows[i]) <==>
         InReach(RequireScope(scope, strict), rows[i].owner) && Holds(condition, i, rows[i])) by {
        ScopedChain(RequireScope(scope, strict), condition, wheres);
      }
      found := Run(query);
    }

    method Find(scope: Scope, id: nat) returns (response: Response<V>)
      ensures (Contents(), response) == Perform(old(Contents()), RequireScope(scope, strict), Op.Find(id))
      ensures var reach := RequireScope(scope, strict);
              if reach.MissingScope? then response == Missing
              else if id in rows && InReach(reach, rows[id].owner) then response == Found(Some((id, rows[id])))
              else response == Found(None)
    {
      var missing, found := Read(scope, KeyIs(id));
      if missing { return Missing; }
      response := Found(if id in found then Some((id, found[id])) else None);
    }

    /** Exactly the rows in reach that satisfy the caller's filter. */
    method Fetch(scope: Scope, filter: (Column, V) -> bool) returns (response: Response<V>)
      ensures (Contents(), response) == Perform(old(Contents()), RequireScope(scope, strict), Op.Fetch(filter))
      ensures var reach := RequireScope(scope, strict);
              if reach.MissingScope? then response == Missing
              else
                response.Rows? && forall i ::
                  && (i in response.rows <==>
                        i in rows && InReach(reach, rows[i].owner) && filter(rows[i].owner, rows[i].cols))
                  && (i in response.rows ==> response.rows[i] == rows[i])
    {
      var missing, found := Read(scope, Satisfies(filter));
      if missing { return Missing; }
      assert found == Selected(rows, RequireScope(scope, strict), filter);
      response := Rows(found);
    }

    /** One query counts, another fetches; the hook scopes both. */
    method Paginate(scope: Scope, filter: (Column, V) -> bool) returns (response: Response<V>)
      ensures (Contents(), response) == Perform(old(Contents()), RequireScope(scope, strict), Op.Paginate(filter))
      ensures var reach := RequireScope(scope, strict);
              if reach.MissingScope? then response == Missing
              else
                && response.Page? && response.total == |response.rows|
                && forall i ::
                     && (i in response.rows <==>
                           i in rows && InReach(reach, rows[i].owner) && filter(rows[i].owner, rows[i].cols))
                     && (i in response.rows ==> response.rows[i] == rows[i])
    {
      var missing, counted := Read(scope, Satisfies(filter));
      if missing { return Missing; }
      var _, fetched := Read(scope, Satisfies(filter));
      assert counted == fetched == Selected(rows, RequireScope(scope, strict), filter);
      response := Page(|counted|, fetched);
    }

    // The rows that a bulk statement of a query() chain touches; no hook runs.
    method Targets(scope: Scope, filter: (Column, V) -> bool) returns (missing: bool, at: set<nat>)
      ensures var reach := RequireScope(scope, strict);
              && missing == reach.MissingScope? && (!missing ==> at == Selected(rows, reach, filter).Keys)
              && (!missing ==> at == set i | i in rows && InReach(reach, rows[i].owner)
                                            && filter(rows[i].owner, rows[i].cols))
    {
      at := {};
      var query;
      missing, query := Query(scope);
      if missing { return; }
      query.Where(Satisfies(filter));
      ghost var wheres := query.wheres;
      ghost var reach := RequireScope(scope, strict);
      assert forall i :: i in rows ==>
        (AllHold(wheres, i, rows[i]) <==> InReach(reach, rows[i].owner) && Holds(Satisfies(filter), i, rows[i])) by {
        ScopedChain(reach, Satisfies(filter), wheres);
      }
      var found := Run(query);
      assert found == Selected(rows, reach, filter);
      at := found.Keys;
    }

    /** Exactly the rows in reach that satisfy the caller's filter are changed, and they are counted. */
    method UpdateWhere(scope: Scope, filter: (Column, V) -> bool, change: V -> V) returns (response: Response<V>)
      modifies this
      ensures (Contents(), response) ==
              Perform(old(Contents()), RequireScope(scope, strict), Op.UpdateWhere(filter, change))
      ensures var reach, before := RequireScope(scope, strict), old(rows);
              if reach.MissingScope? then response == Missing && rows == before
              else
                && response == Affected(|set i | i in before && InReach(reach, before[i].owner)
                                                && filter(before[i].owner, before[i].cols)|)
                && rows.Keys == before.Keys
                && forall i :: i in before ==>
                     if InReach(reach, before[i].owner) && filter(before[i].owner, before[i].cols)
                     then rows[i] == Row(before[i].owner, change(before[i].cols))
                     else rows[i] == before[i]
    {
      var missing, at := Targets(scope, filter);
      if missing { return Missing; }
      rows := Changed(rows, at, change);
      response := Affected(|at|);
    }

    /** Exactly the rows in reach that satisfy the caller's filter are gone, and they are counted. */
    method DeleteWhere(scope: Scope, filter: (Column, V) -> bool) returns (response: Response<V>)
      modifies this
      ensures (Contents(), response) == Perform(old(Contents()), RequireScope(scope, strict), Op.DeleteWhere(filter))
      ensures var reach, before := RequireScope(scope, strict), old(rows);
              if reach.MissingScope? then response == Missing && rows == before
              else
                && response == Affected(|set i | i in before && InReach(reach, before[i].owner)
                                                && filter(before[i].owner, before[i].cols)|)
                && forall i ::
                     && (i in rows <==> i in before && !(InReach(reach, before[i].owner)
                                                         && filter(before[i].owner, before[i].cols)))
                     && (i in rows ==> rows[i] == before[i])
    {
      var missing, at := Targets(scope, filter);
      if missing { return Missing; }
      rows := rows - at;
      response := Affected(|at|);
    }

    /** The hook before create fills an empty scope column and leaves any other alone. */
    method Create(scope: Scope, column: Column, cols: V) returns (response: Response<V>)
      modifies this
      ensures (Contents(), response) == Perform(old(Contents()), RequireScope(scope, strict), Op.Create(column, cols))
      ensures var reach, id := RequireScope(scope, strict), old(nextId);
              if reach.MissingScope? then response == Missing && rows == old(rows) && nextId == id
              else
                && nextId == id + 1 && rows == old(rows)[id := Row(rows[id].owner, cols)]
                && response == Stored(id, rows[id])
                && (reach.Only? && column in {Unset, Null} ==> rows[id].owner == Owner(reach.tenant))
                && (reach.Everything? && column == Unset ==> rows[id].owner == Null)
                && (column.Owner? || (reach.Everything? && column == Null) ==> rows[id].owner == column)
    {
      var reach := RequireScope(scope, strict);
      if reach.MissingScope? { return Missing; }
      var stamp := column;
      if reach.Only? && (stamp == Unset || stamp == Null) {
        stamp := Owner(reach.tenant);
      }
      var row := Row(if stamp == Unset then Null else stamp, cols);
      rows := rows[nextId := row];
      response := Stored(nextId, row);
      nextId := nextId + 1;
    }

    /** The hook before update refuses an instance of another tenant; the statement goes by the key alone. */
    method Save(scope: Scope, instance: Instance, change: V -> V) returns (response: Response<V>)
      modifies this
      ensures (Contents(), response) == Perform(old(Contents()), RequireScope(scope, strict), Op.Save(instance, change))
      ensures var reach, id := RequireScope(scope, strict), instance.id;
              if reach.MissingScope? then response == Missing && rows == old(rows)
              else if reach.Only? && instance.column !in {Unset, Owner(reach.tenant)} then
                response == Refused && rows == old(rows)
              else if id in old(rows) then
                response == Affected(1) &&
                rows == old(rows)[id := Row(old(rows)[id].owner, change(old(rows)[id].cols))]
              else response == Affected(0) && rows == old(rows)
    {
      var reach := RequireScope(scope, strict);
      if reach.MissingScope? { return Missing; }
      if reach.Only? && instance.column != Unset && instance.column != Owner(reach.tenant) { return Refused; }
      response := Affected(if instance.id in rows then 1 else 0);
      rows := Changed(rows, {instance.id}, change);
    }

    /** The hook before delete refuses likewise. */
    method Delete(scope: Scope, instance: Instance) returns (response: Response<V>)
      modifies this
      ensures (Contents(), response) == Perform(old(Contents()), RequireScope(scope, strict), Op.Delete(instance))
      ensures var reach, id := RequireScope(scope, strict), instance.id;
              if reach.MissingScope? then response == Missing && rows == old(rows)
              else if reach.Only? && instance.column !in {Unset, Owner(reach.tenant)} then
                response == Refused && rows == old(rows)
              else response == Affected(if id in old(rows) then 1 else 0) && rows == old(rows) - {id}
    {
      var reach := RequireScope(scope, strict);
      if reach.MissingScope? { return Missing; }
      if reach.Only? && instance.column != Unset && instance.column != Owner(reach.tenant) { return Refused; }
      response := Affected(if instance.id in rows then 1 else 0);
      rows := rows - {instance.id};
    }
  }

  // A chain that holds the scope condition before or around another condition selects by both.
  lemma ScopedChain<V>(reach: Reach, condition: Condition<V>, wheres: seq<Condition<V>>)
    requires !reach.MissingScope?
    requires var scoped := if reach.Only? then [ScopeIs(reach.tenant)] else [];
             wheres == scoped + [condition] || wheres == scoped + [condition] + scoped
    ensures forall i: nat, row: Row<V> ::
              AllHold(wheres, i, row) <==> InReach(reach, row.owner) && Holds(condition, i, row)
  {
    var n := if reach.Only? then 1 else 0;
    assert wheres[n] == condition;
    assert reach.Only? ==> wheres[0] == ScopeIs(reach.tenant);
  }

  // ---------- Destroying a tenant ----------

  function WithoutTenant<V>(rows: map<nat, Row<V>>, t: Tenant): map<nat, Row<V>> {
    map i | i in rows && rows[i].owner != Owner(t) :: rows[i]
  }

  type Tables<V> = map<string, map<nat, Row<V>>>

  /** The driver of a shared database: destroying a tenant deletes its rows from the listed tables, and no others. */
  class RowScopeDriver<V> {
    var tables: Tables<V>
    const scopedTables: seq<string>

    constructor (tables: Tables<V>, scopedTables: seq<string>)
      ensures this.tables == tables && this.scopedTables == scopedTables
    {
      this.tables := tables;
      this.scopedTables := scopedTables;
    }

    /**
     * The listed tables are cleared in turn, up to the first that does not exist; an unsafe id is refused before any.
     */
    method Destroy(t: Tenant, keepData: bool) returns (thrown: bool)
      modifies this
      ensures if keepData || scopedTables == [] then !thrown && tables == old(tables)
              else if !SafeIdentifier(t) then thrown && tables == old(tables)
              else
                var n := FirstMissing(scopedTables, old(tables).Keys);
                tables == Cleared(old(tables), scopedTables[..n], t) && (thrown <==> n < |scopedTables|)
      ensures tables.Keys == old(tables).Keys && forall name :: name in tables ==>
                var before := old(tables)[name];
                var cleared := !keepData && SafeIdentifier(t)
                               && name in scopedTables[..FirstMissing(scopedTables, old(tables).Keys)];
                forall i :: (i in tables[name] <==> i in before && !(cleared && before[i].owner == Owner(t)))
                            && (i in tables[name] ==> tables[name][i] == before[i])
    {
      if keepData || |scopedTables| == 0 { return false; }
      if !SafeIdentifier(t) { return true; }
      NothingCleared(tables, t);
      for k := 0 to |scopedTables|
        invariant k <= FirstMissing(scopedTables, old(tables).Keys)
        invariant tables == Cleared(old(tables), scopedTables[..k], t)
      {
        var name := scopedTables[k];
        MissingAt(scopedTables, old(tables).Keys, k);
        if name !in tables { return true; }
        ClearedMore(old(tables), scopedTables[..k], name, t);
        assert scopedTables[..k + 1] == scopedTables[..k] + [name];
        tables := tables[name := WithoutTenant(tables[name], t)];
      }
      thrown := false;
    }

    /** Under row scoping a reset is a destroy that keeps no data. */
    method Reset(t: Tenant) returns (thrown: bool)
      modifies this
      ensures if scopedTables == [] then !thrown && tables == old(tables)
              else if !SafeIdentifier(t) then thrown && tables == old(tables)
              else
                var n := FirstMissing(scopedTables, old(tables).Keys);
                tables == Cleared(old(tables), scopedTables[..n], t) && (thrown <==> n < |scopedTables|)
    {
      thrown := Destroy(t, false);
    }
  }

  // How many of the names come before the first that is no table.
  function FirstMissing(names: seq<string>, tables: set<string>): (n: nat)
    ensures n <= |names| && forall k :: 0 <= k < n ==> names[k] in tables
    ensures n < |names| ==> names[n] !in tables
  {
    if names == [] || names[0] !in tables then 0 else 1 + FirstMissing(names[1..], tables)
  }

  lemma {:induction false} MissingAt(names: seq<string>, tables: set<string>, k: nat)
    requires k < |names| && k <= FirstMissing(names, tables)
    ensures names[k] !in tables <==> k == FirstMissing(names, tables)
  {
    if k > 0 { MissingAt(names[1..], tables, k - 1); }
  }

  // The tenant's rows are gone from the tables of these names; all other tables and rows are as they were.
  function Cleared<V>(tables: Tables<V>, names: seq<string>, t: Tenant): Tables<V> {
    map name | name in tables :: if name in names then WithoutTenant(tables[name], t) else tables[name]
  }

  lemma NothingCleared<V>(tables: Tables<V>, t: Tenant)
    ensures Cleared(tables, [], t) == tables
  {
  }

  lemma ClearedMore<V>(tables: Tables<V>, names: seq<string>, name: string, t: Tenant)
    requires name in tables
    ensures var cleared := Cleared(tables, names, t);
            cleared[name := WithoutTenant(cleared[name], t)] == Cleared(tables, names + [name], t)
  {
    ClearedOnce(tables[name], t);
    assert forall x :: x in names + [name] <==> x in names || x == name;
  }

  lemma ClearedOnce<V>(rows: map<nat, Row<V>>, t: Tenant)
    ensures WithoutTenant(WithoutTenant(rows, t), t) == WithoutTenant(rows, t)
  {
  }

  /** Nothing of the tenant is left in a cleared table, and everything else is. */
  lemma TenantGone<V>(rows: map<nat, Row<V>>, t: Tenant, filter: (Column, V) -> bool)
    ensures Selected(WithoutTenant(rows, t), Only(t), filter) == map[]
    ensures forall u: Tenant :: u != t ==>
              Selected(WithoutTenant(rows, t), Only(u), filter) == Selected(rows, Only(u), filter)
  {
    forall u: Tenant | u != t
      ensures Selected(WithoutTenant(rows, t), Only(u), filter) == Selected(rows, Only(u), filter)
    {
      assert Selected(WithoutTenant(rows, t), Only(u), filter).Keys == Selected(rows, Only(u), filter).Keys;
    }
  }
}
