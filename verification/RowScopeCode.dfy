/** Clients whose code stays within their own tenancy.run are isolated, however their code interleaves. */
module RowScopeCode {
  import opened RowScope
  import opened RowScopeLaws
  import opened Seqs

  // One operation of a client's code. A client works for one tenant and keeps the instances it is given.
  datatype Turn<!V> = Turn(client: Tenant, event: Event<Ask<V>>)

  // The operation has the reach of the scope it finds itself in, whoever the client is.
  function Take<V>(w: World<V>, turn: Turn<V>, strict: bool): (World<V>, Response<V>) {
    var op := Asked(turn.event.op, Held(w, turn.client));
    if op.None? then (w, Refused)
    else
      var (table, response) := Perform(w.table, RequireScope(turn.event.scope, strict), op.value);
      var held := Held(w, turn.client) + Gained(response, table.nextId);
      (World(table, w.held[turn.client := held]), response)
  }

  function TakeAll<V>(w: World<V>, turns: seq<Turn<V>>, strict: bool): World<V>
    decreases |turns|
  {
    if turns == [] then w else TakeAll(Take(w, turns[0], strict).0, turns[1..], strict)
  }

  /** What one client is answered. */
  function AnswersTo<V>(w: World<V>, turns: seq<Turn<V>>, strict: bool, t: Tenant): seq<Response<V>>
    decreases |turns|
  {
    if turns == [] then []
    else
      (if turns[0].client == t then [Take(w, turns[0], strict).1] else [])
      + AnswersTo(Take(w, turns[0], strict).0, turns[1..], strict, t)
  }

  function EventsOf<V>(turns: seq<Turn<V>>, t: Tenant): seq<Event<Ask<V>>> {
    if turns == [] then [] else (if turns[0].client == t then [turns[0].event] else []) + EventsOf(turns[1..], t)
  }

  // The turns as steps of tenants, each in its own scope.
  function Steps<V>(turns: seq<Turn<V>>): seq<Step<V>> {
    if turns == [] then [] else [By(turns[0].client, turns[0].event.op)] + Steps(turns[1..])
  }

  function StepsOf<V>(events: seq<Event<Ask<V>>>, t: Tenant): seq<Step<V>> {
    if events == [] then [] else [By(t, events[0].op)] + StepsOf(events[1..], t)
  }

  ghost predicate EachInItsReach<V>(turns: seq<Turn<V>>, strict: bool) {
    forall k :: 0 <= k < |turns| ==> RequireScope(turns[k].event.scope, strict) == Only(turns[k].client)
  }

  lemma {:induction false} TurnsAreSteps<V>(w: World<V>, turns: seq<Turn<V>>, strict: bool, t: Tenant)
    requires EachInItsReach(turns, strict)
    ensures TakeAll(w, turns, strict) == Run(w, Steps(turns))
    ensures AnswersTo(w, turns, strict, t) == Answers(w, Steps(turns), t)
    decreases |turns|
  {
    if turns != [] {
      var turn, step := turns[0], By(turns[0].client, turns[0].event.op);
      assert Take(w, turn, strict) == Do(w, step);
      hide Take, Do, RequireScope;
      ConsTail(step, Steps(turns[1..]));
      TurnsAreSteps(Do(w, step).0, turns[1..], strict, t);
    }
  }

  lemma {:induction false} OwnSteps<V>(turns: seq<Turn<V>>, t: Tenant)
    ensures Own(Steps(turns), t) == StepsOf(EventsOf(turns, t), t)
    ensures |Steps(turns)| == |turns|
  {
    if turns != [] {
      OwnSteps(turns[1..], t);
      ConsTail(By(turns[0].client, turns[0].event.op), Steps(turns[1..]));
      ConsTail(turns[0].event, EventsOf(turns[1..], t));
      AppendNothing(EventsOf(turns[1..], t));
      AppendNothing(Own(Steps(turns[1..]), t));
    }
  }

  lemma {:induction false} TurnIsEvent<V>(turns: seq<Turn<V>>, k: nat)
    requires k < |turns|
    ensures turns[k].event in EventsOf(turns, turns[k].client)
  {
    if k > 0 { TurnIsEvent(turns[1..], k - 1); }
  }

  // Every client runs its code to the end, and all of it within its tenant's scope.
  ghost predicate Interleaves<V(!new)>(turns: seq<Turn<V>>, code: map<Tenant, seq<Code<Ask<V>>>>) {
    && (forall k :: 0 <= k < |turns| ==> turns[k].client in code)
    && (forall c :: c in code ==> EventsOf(turns, c) == Trace(code[c], OUTSIDE))
  }

  ghost predicate AllConfined<V(!new)>(code: map<Tenant, seq<Code<Ask<V>>>>) {
    forall c :: c in code ==> c != "" && Confined(code[c], OUTSIDE.tenant, c)
  }

  lemma ConfinedStayInReach<V(!new)>(turns: seq<Turn<V>>, code: map<Tenant, seq<Code<Ask<V>>>>, strict: bool)
    requires Interleaves(turns, code) && AllConfined(code)
    ensures EachInItsReach(turns, strict)
  {
    forall k | 0 <= k < |turns|
      ensures RequireScope(turns[k].event.scope, strict) == Only(turns[k].client)
    {
      var c := turns[k].client;
      TurnIsEvent(turns, k);
      ConfinedCodeReachesItsTenant(code[c], OUTSIDE.tenant, strict, c);
      hide Confined, Trace, EventsOf, RequireScope;
      assert turns[k].event in Trace(code[c], OUTSIDE);
    }
  }

  /**
   * However the code of clients interleaves on the shared table, if each client's code stays within the scope of its
   * tenant, each is answered as if its code alone had run on a table of its own, up to generated ids; in strict mode
   * and without it.
   */
  lemma ConfinedClientsAreIsolated<V(!new)>(
    turns: seq<Turn<V>>, code: map<Tenant, seq<Code<Ask<V>>>>, strict: bool, t: Tenant) returns (r: Renaming)
    requires Interleaves(turns, code) && AllConfined(code) && t in code
    ensures var empty := World(Table(map[], 0), map[]);
            var own := AllRenamed(StepsOf(Trace(code[t], OUTSIDE), t), r, |turns|);
            && Simulates(TakeAll(empty, turns, strict), Run(empty, own), t, r)
            && SameAnswers(AnswersTo(empty, turns, strict, t), Answers(empty, own, t), r)
  {
    ConfinedStayInReach(turns, code, strict);
    TurnsAreSteps(World(Table(map[], 0), map[]), turns, strict, t);
    OwnSteps(turns, t);
    hide Simulates, SameAnswers, TakeAll, AnswersTo, Run, Answers, Trace, EventsOf, Steps, StepsOf, Own, AllRenamed;
    r := TenantsAreIsolated(Steps(turns), t);
  }
}
