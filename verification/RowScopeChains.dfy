/**
 * Chains of where and orWhere on a scoped query: in SQL, AND binds more strongly than OR, and the scope conditions are
 * links of the same flat chain as those of the caller.
 */
module RowScopeChains {
  import opened RowScope
  import opened Seqs

  // where(condition), or orWhere(condition)
  datatype Link<!V> = Link(or: bool, condition: Condition<V>)

  // The chain from here on, when the AND group so far has the value group and one of the groups before it holds or not.
  predicate Meets<V>(chain: seq<Link<V>>, group: bool, earlier: bool, id: nat, row: Row<V>) {
    if chain == [] then earlier || group
    else
      var holds := Holds(chain[0].condition, id, row);
      if chain[0].or then Meets(chain[1..], holds, earlier || group, id, row)
      else Meets(chain[1..], group && holds, earlier, id, row)
  }

  // A row is selected by the first link of a chain and the others; where starts the chain of the query() factory.
  predicate Selects<V>(first: Condition<V>, chain: seq<Link<V>>, id: nat, row: Row<V>) {
    Meets(chain, Holds(first, id, row), false, id, row)
  }

  /** A bulk update or delete: the condition of the factory, then the caller's chain. */
  predicate SelectedInBulk<V>(t: Tenant, user: seq<Link<V>>, id: nat, row: Row<V>) {
    Selects(ScopeIs(t), user, id, row)
  }

  /** A read: the hook adds the condition once more at the end. */
  predicate SelectedInRead<V>(t: Tenant, user: seq<Link<V>>, id: nat, row: Row<V>) {
    Selects(ScopeIs(t), user + [Link(false, ScopeIs(t))], id, row)
  }

  // How often the caller's chain says orWhere.
  function Ors(shape: seq<bool>): nat { if shape == [] then 0 else (if shape[0] then 1 else 0) + Ors(shape[1..]) }

  function Shape<V>(chain: seq<Link<V>>): seq<bool> {
    if chain == [] then [] else [chain[0].or] + Shape(chain[1..])
  }

  // Without orWhere, the group so far stays in force.
  lemma {:induction false} StaysInBulk<V>(chain: seq<Link<V>>, group: bool, earlier: bool, id: nat, row: Row<V>)
    requires Ors(Shape(chain)) == 0 && Meets(chain, group, earlier, id, row)
    ensures earlier || group
  {
    if chain != [] {
      ConsTail(chain[0].or, Shape(chain[1..]));
      var holds := Holds(chain[0].condition, id, row);
      StaysInBulk(chain[1..], group && holds, earlier, id, row);
    }
  }

  // The first group is scoped at its start and the last at its end; there is one orWhere at most in between.
  lemma {:induction false} StaysInRead<V>(
    chain: seq<Link<V>>, group: bool, earlier: bool, t: Tenant, id: nat, row: Row<V>)
    requires earlier ==> row.owner == Owner(t)
    requires Ors(Shape(chain)) <= if group && row.owner != Owner(t) then 0 else 1
    requires Meets(chain + [Link(false, ScopeIs(t))], group, earlier, id, row)
    ensures row.owner == Owner(t)
  {
    var last := Link(false, ScopeIs(t));
    if chain == [] {
      AppendNothing([last]);
      assert [last][1..] == [];
    } else {
      AppendTail(chain, [last]);
      ConsTail(chain[0].or, Shape(chain[1..]));
      var holds := Holds(chain[0].condition, id, row);
      if chain[0].or {
        StaysInRead(chain[1..], holds, earlier || group, t, id, row);
      } else {
        StaysInRead(chain[1..], group && holds, earlier, t, id, row);
      }
    }
  }

  // A chain of the given shape whose conditions hold of every row.
  function Anything<V>(shape: seq<bool>): seq<Link<V>> {
    if shape == [] then [] else [Link(shape[0], Satisfies((c: Column, v: V) => true))] + Anything(shape[1..])
  }

  lemma {:induction false} ShapeOfAnything<V>(shape: seq<bool>)
    ensures Shape(Anything<V>(shape)) == shape
  {
    if shape != [] {
      ConsTail(Link(shape[0], Satisfies((c: Column, v: V) => true)), Anything<V>(shape[1..]));
      ShapeOfAnything<V>(shape[1..]);
      Uncons(shape);
    }
  }

  // Once a group has held, the chain is met whatever follows.
  lemma {:induction false} MeetsEver<V>(chain: seq<Link<V>>, group: bool, id: nat, row: Row<V>)
    ensures Meets(chain, group, true, id, row)
  {
    if chain != [] {
      var holds := Holds(chain[0].condition, id, row);
      MeetsEver(chain[1..], if chain[0].or then holds else group && holds, id, row);
    }
  }

  // Groups that hold of every row: one is enough in bulk, but in a read the last one ends with the scope condition.
  lemma {:induction false} Widened<V>(shape: seq<bool>, end: seq<Link<V>>, group: bool, id: nat, row: Row<V>)
    requires end != [] ==> |end| == 1 && !end[0].or
    requires Ors(shape) >= (if group then 0 else 1) + |end|
    ensures Meets(Anything<V>(shape) + end, group, false, id, row)
  {
    if shape == [] {
      AppendNothing(end);
    } else {
      var first := Link(shape[0], Satisfies((c: Column, v: V) => true));
      var rest := Anything<V>(shape[1..]);
      AppendTail([first] + rest, end);
      ConsTail(first, rest);
      if shape[0] && group {
        MeetsEver(rest + end, true, id, row);
      } else {
        Widened(shape[1..], end, group || shape[0], id, row);
      }
    }
  }

  /** Whatever the conditions, a chain of this shape reaches the tenant's rows only. */
  ghost predicate ConfinedInBulk<V(!new)>(shape: seq<bool>, t: Tenant) {
    forall user: seq<Link<V>>, id, row :: Shape(user) == shape && SelectedInBulk(t, user, id, row) ==>
      row.owner == Owner(t)
  }

  ghost predicate ConfinedInRead<V(!new)>(shape: seq<bool>, t: Tenant) {
    forall user: seq<Link<V>>, id, row :: Shape(user) == shape && SelectedInRead(t, user, id, row) ==>
      row.owner == Owner(t)
  }

  /**
   * Scoping confines a bulk statement to the tenant's rows, whatever its conditions, exactly if its chain has no
   * orWhere.
   */
  lemma BulkConfinedWithoutOr<V(!new)>(shape: seq<bool>, t: Tenant, cols: V)
    ensures ConfinedInBulk<V>(shape, t) <==> Ors(shape) == 0
  {
    if Ors(shape) == 0 {
      forall user: seq<Link<V>>, id, row: Row<V> | Shape(user) == shape && SelectedInBulk(t, user, id, row)
        ensures row.owner == Owner(t)
      {
        StaysInBulk(user, Holds(ScopeIs(t), id, row), false, id, row);
      }
    } else {
      var row := Row(Null, cols);
      ShapeOfAnything<V>(shape);
      AppendNothing(Anything<V>(shape));
      Widened(shape, [], false, 0, row);
      assert SelectedInBulk(t, Anything<V>(shape), 0, row);
    }
  }

  /** A read, which is scoped at both ends of the chain, is confined exactly if there is one orWhere at most. */
  lemma ReadConfinedWithOneOr<V(!new)>(shape: seq<bool>, t: Tenant, cols: V)
    ensures ConfinedInRead<V>(shape, t) <==> Ors(shape) <= 1
  {
    if Ors(shape) <= 1 {
      forall user: seq<Link<V>>, id, row: Row<V> | Shape(user) == shape && SelectedInRead(t, user, id, row)
        ensures row.owner == Owner(t)
      {
        StaysInRead(user, Holds(ScopeIs(t), id, row), false, t, id, row);
      }
    } else {
      var row := Row(Null, cols);
      ShapeOfAnything<V>(shape);
      Widened(shape, [Link(false, ScopeIs(t))], false, 0, row);
      assert SelectedInRead(t, Anything<V>(shape), 0, row);
    }
  }
}
