/** A PostgreSQL transaction: its state, whether it is aborted, and its savepoints. */
module PgTransaction {
  import opened Wrappers
  import opened Seqs

  // A database as everyone sees it: what has been committed.
  class Storage<S> {
    var committed: S

    constructor (s: S)
      ensures committed == s
    {
      committed := s;
    }
  }

  // What a command leaves behind: the new state and the number of rows it touched.
  datatype Effect<S> = Effect(state: S, rowCount: nat)

  datatype Savepoint<S> = Savepoint(name: string, state: S)

  /** The position of the latest savepoint of that name, -1 if there is none. Names may repeat. */
  function Latest<S>(stack: seq<Savepoint<S>>, name: string): (k: int)
    ensures -1 <= k < |stack|
    ensures k >= 0 ==> stack[k].name == name
    ensures forall j :: k < j < |stack| ==> stack[j].name != name
  {
    if stack == [] then -1
    else if stack[|stack| - 1].name == name then |stack| - 1
    else Latest(stack[..|stack| - 1], name)
  }

  class Transaction<C, S> {
    var state: S
    var aborted: bool
    var savepoints: seq<Savepoint<S>>
    const exec: (C, S) -> Option<Effect<S>>

    constructor (exec: (C, S) -> Option<Effect<S>>, state: S)
      ensures this.exec == exec && this.state == state && !aborted && savepoints == []
    {
      this.exec := exec;
      this.state := state;
      aborted := false;
      savepoints := [];
    }

    /** A command: it fails, and aborts the transaction, or takes effect. In an aborted transaction it fails. */
    method Query(c: C) returns (ok: bool, rowCount: nat)
      modifies this
      ensures savepoints == old(savepoints)
      ensures ok == (!old(aborted) && exec(c, old(state)).Some?) && aborted == !ok
      ensures if ok then Effect(state, rowCount) == exec(c, old(state)).value else state == old(state)
    {
      rowCount := 0;
      var effect := exec(c, state);
      ok := !aborted && effect.Some?;
      if ok {
        state, rowCount := effect.value.state, effect.value.rowCount;
      } else {
        aborted := true;
      }
    }

    method SetSavepoint(name: string) returns (ok: bool)
      modifies this
      ensures ok == !old(aborted) && aborted == old(aborted) && state == old(state)
      ensures savepoints == if ok then old(savepoints) + [Savepoint(name, state)] else old(savepoints)
    {
      ok := !aborted;
      if ok {
        savepoints := savepoints + [Savepoint(name, state)];
      }
    }

    /** Forgets the latest savepoint of that name and all set after it. */
    method Release(name: string) returns (ok: bool)
      modifies this
      ensures state == old(state)
      ensures var k := Latest(old(savepoints), name);
              && ok == (!old(aborted) && k >= 0) && aborted == !ok
              && savepoints == if ok then old(savepoints)[..k] else old(savepoints)
    {
      var k := Latest(savepoints, name);
      ok := !aborted && k >= 0;
      if ok {
        savepoints := savepoints[..k];
      } else {
        aborted := true;
      }
    }

    /** Goes back to the latest savepoint of that name and keeps it; this also ends the aborted state. */
    method RollbackTo(name: string) returns (ok: bool)
      modifies this
      ensures var k := Latest(old(savepoints), name);
              && ok == (k >= 0) && aborted == !ok
              && (ok ==> state == old(savepoints)[k].state && savepoints == old(savepoints)[..k + 1])
              && (!ok ==> state == old(state) && savepoints == old(savepoints))
    {
      var k := Latest(savepoints, name);
      ok := k >= 0;
      if ok {
        state, savepoints, aborted := savepoints[k].state, savepoints[..k + 1], false;
      } else {
        aborted := true;
      }
    }
  }

  // ---------- What a run of commands comes to ----------

  /** Every command in turn, skipping the effect of those that fail. */
  function Forgiving<C, S>(exec: (C, S) -> Option<Effect<S>>, commands: seq<C>, s: S): S {
    if commands == [] then s
    else
      var e := exec(commands[0], s);
      Forgiving(exec, commands[1..], if e.Some? then e.value.state else s)
  }

  /** Every command in turn, all of which must succeed. */
  function Strict<C, S>(exec: (C, S) -> Option<Effect<S>>, commands: seq<C>, s: S): Option<S> {
    if commands == [] then Some(s)
    else
      var e := exec(commands[0], s);
      if e.None? then None else Strict(exec, commands[1..], e.value.state)
  }

  /** The commands that succeed, in order. */
  function Succeeding<C, S>(exec: (C, S) -> Option<Effect<S>>, commands: seq<C>, s: S): seq<C> {
    if commands == [] then []
    else
      var e := exec(commands[0], s);
      if e.Some? then [commands[0]] + Succeeding(exec, commands[1..], e.value.state)
      else Succeeding(exec, commands[1..], s)
  }

  function Failing<C, S>(exec: (C, S) -> Option<Effect<S>>, commands: seq<C>, s: S): seq<C> {
    if commands == [] then []
    else
      var e := exec(commands[0], s);
      if e.Some? then Failing(exec, commands[1..], e.value.state)
      else [commands[0]] + Failing(exec, commands[1..], s)
  }

  /** A forgiving run has the effect of the succeeding commands alone, which would all have succeeded by themselves. */
  lemma {:induction false} ForgivingRunsTheSucceeding<C, S>(
    exec: (C, S) -> Option<Effect<S>>, commands: seq<C>, s: S)
    ensures Strict(exec, Succeeding(exec, commands, s), s) == Some(Forgiving(exec, commands, s))
    ensures multiset(Succeeding(exec, commands, s)) + multiset(Failing(exec, commands, s)) == multiset(commands)
  {
    if commands != [] {
      var c, e := commands[0], exec(commands[0], s);
      var s' := if e.Some? then e.value.state else s;
      ForgivingRunsTheSucceeding(exec, commands[1..], s');
      assert commands == [c] + commands[1..];
      if e.Some? {
        assert ([c] + Succeeding(exec, commands[1..], s'))[1..] == Succeeding(exec, commands[1..], s');
      }
    }
  }

  lemma {:induction false} OneMore<C, S>(exec: (C, S) -> Option<Effect<S>>, commands: seq<C>, c: C, s: S)
    ensures var t := Forgiving(exec, commands, s);
            && Forgiving(exec, commands + [c], s) == (if exec(c, t).Some? then exec(c, t).value.state else t)
            && Succeeding(exec, commands + [c], s) ==
               Succeeding(exec, commands, s) + (if exec(c, t).Some? then [c] else [])
            && Failing(exec, commands + [c], s) ==
               Failing(exec, commands, s) + (if exec(c, t).Some? then [] else [c])
  {
    if commands == [] {
      assert [] + [c] == [c] && [c][1..] == [];
    } else {
      assert (commands + [c])[1..] == commands[1..] + [c];
      var e := exec(commands[0], s);
      OneMore(exec, commands[1..], c, if e.Some? then e.value.state else s);
    }
  }

  lemma StrictOne<C, S>(exec: (C, S) -> Option<Effect<S>>, c: C, s: S)
    ensures Strict(exec, [c], s) == if exec(c, s).None? then None else Some(exec(c, s).value.state)
  {
    assert [c][1..] == [];
  }

  lemma {:induction false} StrictAppend<C, S>(exec: (C, S) -> Option<Effect<S>>, a: seq<C>, b: seq<C>, s: S)
    ensures Strict(exec, a + b, s) ==
            if Strict(exec, a, s).None? then None else Strict(exec, b, Strict(exec, a, s).value)
  {
    if a == [] {
      AppendNothing(b);
    } else {
      AppendTail(a, b);
      var e := exec(a[0], s);
      if e.Some? { StrictAppend(exec, a[1..], b, e.value.state); }
    }
  }
}
