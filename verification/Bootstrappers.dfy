/** The registry of tenant bootstrappers, and the scope that enters and leaves them around a piece of code. */
module Bootstrappers {
  import opened Wrappers
  import opened Seqs

  datatype Bootstrapper = Bootstrapper(name: string, hasLeave: bool)

  datatype Outcome = Returned(value: int) | Threw(error: int)

  // One activation of a context, and how the callbacks turn out in it, by name: what enter throws, if anything, what
  // leave throws, and whether logging the error of a leave throws too.
  datatype Activation = Activation(
    ctx: int, enters: string -> Option<int>, leaves: string -> Option<int>, logs: string -> bool)

  // Code as far as it opens scopes: it ends, or it runs inner code in a scope of its own and goes on either way.
  datatype Code = Done(outcome: Outcome) | Nest(scope: Activation, inner: Code, then_: Code, otherwise: Code)

  datatype Event =
    | Entered(ctx: int, b: Bootstrapper)
    | Body(ctx: int)
    | Left(ctx: int, b: Bootstrapper)
    | LeaveFailed(ctx: int, b: Bootstrapper, error: int, toConsole: bool)

  // ---------- What a scope does ----------

  // How many bootstrappers enter before the first failure.
  function EnterCount(a: Activation, bs: seq<Bootstrapper>): (n: nat)
    ensures n <= |bs| && forall i :: 0 <= i < n ==> a.enters(bs[i].name) == None
    ensures n < |bs| ==> a.enters(bs[n].name).Some?
  {
    if bs == [] || a.enters(bs[0].name).Some? then 0 else 1 + EnterCount(a, bs[1..])
  }

  function Enters(ctx: int, bs: seq<Bootstrapper>): seq<Event> {
    if bs == [] then [] else [Entered(ctx, bs[0])] + Enters(ctx, bs[1..])
  }

  // A leave that throws has run too; its error is logged.
  function LeaveOf(a: Activation, b: Bootstrapper): seq<Event> {
    if !b.hasLeave then []
    else if a.leaves(b.name).None? then [Left(a.ctx, b)]
    else [Left(a.ctx, b), LeaveFailed(a.ctx, b, a.leaves(b.name).value, a.logs(b.name))]
  }

  // Leaves run backwards.
  function Leaves(a: Activation, bs: seq<Bootstrapper>): seq<Event> {
    if bs == [] then [] else Leaves(a, bs[1..]) + LeaveOf(a, bs[0])
  }

  function ScopeTrace(bs: seq<Bootstrapper>, a: Activation, code: Code): seq<Event>
    decreases code, 1
  {
    var n := EnterCount(a, bs);
    Enters(a.ctx, bs[..n]) + (if n == |bs| then [Body(a.ctx)] + CodeTrace(bs, code) else []) + Leaves(a, bs[..n])
  }

  function ScopeOutcome(bs: seq<Bootstrapper>, a: Activation, code: Code): Outcome
    decreases code, 1
  {
    var n := EnterCount(a, bs);
    if n == |bs| then CodeOutcome(bs, code) else Threw(a.enters(bs[n].name).value)
  }

  function CodeTrace(bs: seq<Bootstrapper>, code: Code): seq<Event>
    decreases code, 0
  {
    match code
    case Done(_) => []
    case Nest(a, inner, then_, otherwise) =>
      ScopeTrace(bs, a, inner) +
      CodeTrace(bs, if ScopeOutcome(bs, a, inner).Returned? then then_ else otherwise)
  }

  function CodeOutcome(bs: seq<Bootstrapper>, code: Code): Outcome
    decreases code, 0
  {
    match code
    case Done(outcome) => outcome
    case Nest(a, inner, then_, otherwise) =>
      CodeOutcome(bs, if ScopeOutcome(bs, a, inner).Returned? then then_ else otherwise)
  }

  // An error that escapes from a finally block replaces what was returned or thrown before.
  function Finally(outcome: Outcome, escaped: Option<int>): Outcome {
    if escaped.Some? then Threw(escaped.value) else outcome
  }

  // ---------- The registry ----------

  // The order lists each registered name once.
  ghost predicate Agree(items: map<string, Bootstrapper>, order: seq<string>) {
    && Distinct(order)
    && (forall name :: name in order <==> name in items)
    && (forall name :: name in items ==> items[name].name == name)
  }

  function Listed(items: map<string, Bootstrapper>, order: seq<string>): (bs: seq<Bootstrapper>)
    requires forall name :: name in order ==> name in items
    ensures |bs| == |order| && forall i :: 0 <= i < |bs| ==> bs[i] == items[order[i]]
  {
    seq(|order|, i requires 0 <= i < |order| => items[order[i]])
  }

  function Spliced<T>(s: seq<T>, k: nat): (r: seq<T>)
    requires k < |s|
    ensures |r| == |s| - 1 && forall i :: 0 <= i < |r| ==> r[i] == s[if i < k then i else i + 1]
  {
    s[..k] + s[k + 1..]
  }

  lemma SplicedMembers(order: seq<string>, k: nat, n: string)
    requires k < |order| && Distinct(order)
    ensures n in Spliced(order, k) <==> n in order && n != order[k]
  {
    if n in order && n != order[k] {
      var i :| 0 <= i < |order| && order[i] == n;
      assert Spliced(order, k)[if i < k then i else i - 1] == n;
    }
  }

  lemma Removed(items: map<string, Bootstrapper>, order: seq<string>, k: nat)
    requires Agree(items, order) && k < |order|
    ensures Agree(items - {order[k]}, Spliced(order, k))
    ensures Listed(items - {order[k]}, Spliced(order, k)) == Spliced(Listed(items, order), k)
  {
    forall n ensures n in Spliced(order, k) <==> n in order && n != order[k] { SplicedMembers(order, k, n); }
    hide Spliced;
    assert Agree(items - {order[k]}, Spliced(order, k));
  }

  class BootstrapperRegistry {
    var items: map<string, Bootstrapper>
    var order: seq<string>
    ghost var trace: seq<Event>

    ghost predicate Valid()
      reads this`items, this`order
    { Agree(items, order) }

    /** The bootstrappers in the order of their registration. */
    ghost function List(): seq<Bootstrapper>
      requires Valid()
      reads this`items, this`order
    { Listed(items, order) }

    constructor ()
      ensures Valid() && List() == [] && trace == []
    {
      items, order, trace := map[], [], [];
    }

    method Register(b: Bootstrapper) returns (thrown: bool)
      requires Valid()
      modifies this
      ensures Valid() && trace == old(trace)
      ensures thrown <==> b.name in old(items)
      ensures List() == if thrown then old(List()) else old(List()) + [b]
    {
      if b.name in items { return true; }
      items := items[b.name := b];
      order := order + [b.name];
      thrown := false;
    }

    method Unregister(name: string) returns (found: bool)
      requires Valid()
      modifies this
      ensures Valid() && trace == old(trace)
      ensures found <==> name in old(items)
      ensures !found ==> List() == old(List())
      ensures found ==> exists k :: 0 <= k < |old(List())| && old(List())[k].name == name &&
                                    List() == Spliced(old(List()), k)
    {
      if name !in items { return false; }
      assert name in order;
      var k := 0;
      while order[k] != name
        invariant 0 <= k < |order| && name !in order[..k]
        decreases |order| - k
      {
        k := k + 1;
      }
      Removed(items, order, k);
      assert List()[k].name == name;
      items := items - {name};
      order := Spliced(order, k);
      found := true;
    }

    method Clear()
      requires Valid()
      modifies this
      ensures Valid() && List() == [] && trace == old(trace)
    {
      items, order := map[], [];
    }

    /**
     * Enter, body, leave. Everything that entered is left in reverse order, whatever failed, and the outcome is that of
     * the body or of the enter that failed.
     */
    method RunScoped(a: Activation, code: Code) returns (outcome: Outcome)
      requires Valid()
      modifies this`trace
      ensures trace == old(trace) + ScopeTrace(List(), a, code)
      ensures outcome == ScopeOutcome(List(), a, code)
      decreases code, 1
    {
      ghost var bs, before := List(), trace;
      hide *;
      var completed, failed := RunEnters(a);
      ScopeIs(bs, a, code);
      ghost var entered, middle := trace, [];
      if failed.None? {
        trace := trace + [Body(a.ctx)];
        outcome := RunCode(code);
        middle := [Body(a.ctx)] + CodeTrace(bs, code);
        Associative(entered, [Body(a.ctx)], CodeTrace(bs, code));
      } else {
        outcome := Threw(failed.value);
        AppendNothing(trace);
      }
      assert trace == entered + middle;
      Associative(before, Enters(a.ctx, bs[..completed]), middle);
      Associative(before, Enters(a.ctx, bs[..completed]) + middle, Leaves(a, bs[..completed]));
      var escaped := RunLeaveUpTo(a, completed);
      NothingEscapes(outcome);
      outcome := Finally(outcome, escaped);
    }

    // Enters in registration order up to the first failure.
    method RunEnters(a: Activation) returns (completed: nat, failed: Option<int>)
      requires Valid()
      modifies this`trace
      ensures completed == EnterCount(a, List()) && |List()| == |order|
      ensures failed == if completed < |List()| then a.enters(List()[completed].name) else None
      ensures failed.Some? <==> completed < |List()|
      ensures trace == old(trace) + Enters(a.ctx, List()[..completed])
    {
      ghost var bs := List();
      completed := 0;
      failed := None;
      AppendNothing(trace);
      assert Enters(a.ctx, bs[..0]) == [];
      hide Agree, Enters, EnterCount;
      while completed < |order|
        invariant completed <= |order| && completed <= EnterCount(a, bs) && failed.None?
        invariant trace == old(trace) + Enters(a.ctx, bs[..completed])
      {
        var b := items[order[completed]];
        EnterCountAt(a, bs, completed);
        AppendNothing(trace);
        EntersSnoc(a.ctx, bs[..completed], b);
        assert bs[..completed + 1] == bs[..completed] + [b];
        failed := Enter(a, b);
        if failed.Some? {
          return completed, failed;
        }
        completed := completed + 1;
      }
    }

    method Enter(a: Activation, b: Bootstrapper) returns (error: Option<int>)
      modifies this`trace
      ensures error == a.enters(b.name)
      ensures trace == old(trace) + if error.None? then [Entered(a.ctx, b)] else []
    {
      error := a.enters(b.name);
      if error.None? {
        trace := trace + [Entered(a.ctx, b)];
      }
    }

    method RunCode(code: Code) returns (outcome: Outcome)
      requires Valid()
      modifies this`trace
      ensures trace == old(trace) + CodeTrace(List(), code)
      ensures outcome == CodeOutcome(List(), code)
      decreases code, 0
    {
      AppendNothing(trace);
      CodeIs(List(), code);
      hide *;
      match code
      case Done(o) =>
        outcome := o;
      case Nest(a, inner, then_, otherwise) =>
        ghost var bs, before := List(), trace;
        Associative(before, ScopeTrace(bs, a, inner), CodeTrace(bs, then_));
        Associative(before, ScopeTrace(bs, a, inner), CodeTrace(bs, otherwise));
        var first := RunScoped(a, inner);
        if first.Returned? {
          outcome := RunCode(then_);
        } else {
          outcome := RunCode(otherwise);
        }
    }

    method Leave(a: Activation, b: Bootstrapper) returns (thrown: Option<int>)
      modifies this`trace
      ensures trace == old(trace) + [Left(a.ctx, b)] && thrown == a.leaves(b.name)
    {
      trace := trace + [Left(a.ctx, b)];
      thrown := a.leaves(b.name);
    }

    // Without a logger the console takes the error.
    method LogLeaveFailure(a: Activation, b: Bootstrapper, error: int) returns (thrown: Option<int>)
      modifies this`trace
      ensures trace == old(trace) + [LeaveFailed(a.ctx, b, error, a.logs(b.name))] && thrown == None
    {
      var loggerThrows := a.logs(b.name);
      if loggerThrows {
        trace := trace + [LeaveFailed(a.ctx, b, error, true)];
      } else {
        trace := trace + [LeaveFailed(a.ctx, b, error, false)];
      }
      thrown := None;
    }

    /** Every leave of those entered runs, whichever of them throw, and no error escapes. */
    method RunLeaveUpTo(a: Activation, count: nat) returns (escaped: Option<int>)
      requires Valid()
      modifies this`trace
      ensures escaped == None
      ensures trace == old(trace) + Leaves(a, List()[..if count < |order| then count else |order|])
    {
      var k := if count < |order| then count else |order|;
      ghost var bs, n := List(), k;
      escaped := None;
      LeavesNone(a);
      assert bs[n..n] == [] && bs[0..n] == bs[..n];
      AppendNothing(trace);
      hide Leaves, LeaveOf, Agree;
      while k > 0 && escaped.None?
        invariant 0 <= k <= n <= |order| && escaped.None?
        invariant trace == old(trace) + Leaves(a, bs[k..n])
      {
        k := k - 1;
        var b := items[order[k]];
        LeavesCons(a, b, bs[k + 1..n]);
        assert bs[k..n] == [b] + bs[k + 1..n];
        escaped := RunLeave(a, b);
        Associative(old(trace), Leaves(a, bs[k + 1..n]), LeaveOf(a, b));
      }
    }

    // One turn of the loop: what leave throws is caught.
    method RunLeave(a: Activation, b: Bootstrapper) returns (escaped: Option<int>)
      modifies this`trace
      ensures escaped == None && trace == old(trace) + LeaveOf(a, b)
      ensures trace == old(trace) +
                if !b.hasLeave then []
                else match a.leaves(b.name)
                  case None => [Left(a.ctx, b)]
                  case Some(error) => [Left(a.ctx, b), LeaveFailed(a.ctx, b, error, a.logs(b.name))]
    {
      escaped := None;
      if b.hasLeave {
        var thrown := Leave(a, b);
        if thrown.Some? {
          escaped := LogLeaveFailure(a, b, thrown.value);
        }
      }
    }
  }

  lemma NothingEscapes(outcome: Outcome)
    ensures Finally(outcome, None) == outcome
  {
  }

  lemma ScopeIs(bs: seq<Bootstrapper>, a: Activation, code: Code)
    ensures var n := EnterCount(a, bs);
            && ScopeTrace(bs, a, code) ==
               Enters(a.ctx, bs[..n]) + (if n == |bs| then [Body(a.ctx)] + CodeTrace(bs, code) else [])
               + Leaves(a, bs[..n])
            && ScopeOutcome(bs, a, code) ==
               if n == |bs| then CodeOutcome(bs, code) else Threw(a.enters(bs[n].name).value)
  {
  }

  lemma CodeIs(bs: seq<Bootstrapper>, code: Code)
    ensures match code
            case Done(outcome) => CodeTrace(bs, code) == [] && CodeOutcome(bs, code) == outcome
            case Nest(a, inner, then_, otherwise) =>
              var next := if ScopeOutcome(bs, a, inner).Returned? then then_ else otherwise;
              && CodeTrace(bs, code) == ScopeTrace(bs, a, inner) + CodeTrace(bs, next)
              && CodeOutcome(bs, code) == CodeOutcome(bs, next)
  {
  }

  lemma EnterCountAt(a: Activation, bs: seq<Bootstrapper>, k: nat)
    requires k < |bs| && k <= EnterCount(a, bs)
    ensures a.enters(bs[k].name).Some? <==> k == EnterCount(a, bs)
  {
  }

  lemma {:induction false} EntersSnoc(ctx: int, bs: seq<Bootstrapper>, b: Bootstrapper)
    ensures Enters(ctx, bs + [b]) == Enters(ctx, bs) + [Entered(ctx, b)]
  {
    if bs == [] {
      AppendNothing([b]);
      assert [b][1..] == [];
    } else {
      AppendTail(bs, [b]);
      EntersSnoc(ctx, bs[1..], b);
    }
  }

  lemma LeavesNone(a: Activation)
    ensures Leaves(a, []) == []
  {
  }

  lemma LeavesCons(a: Activation, b: Bootstrapper, bs: seq<Bootstrapper>)
    ensures Leaves(a, [b] + bs) == Leaves(a, bs) + LeaveOf(a, b)
  {
    ConsTail(b, bs);
  }

  // ---------- Well bracketed ----------

  // Entering a bootstrapper that has a leave opens a bracket; leaving must close the bracket opened last.
  function Replay(trace: seq<Event>, open_: seq<(int, Bootstrapper)>): Option<seq<(int, Bootstrapper)>> {
    if trace == [] then Some(open_)
    else
      match trace[0]
      case Entered(ctx, b) => Replay(trace[1..], if b.hasLeave then open_ + [(ctx, b)] else open_)
      case Left(ctx, b) =>
        if open_ != [] && open_[|open_| - 1] == (ctx, b) then Replay(trace[1..], open_[..|open_| - 1])
        else None
      case _ => Replay(trace[1..], open_)
  }

  lemma {:induction false} ReplayAppend(s: seq<Event>, t: seq<Event>, o: seq<(int, Bootstrapper)>)
    ensures Replay(s + t, o) == if Replay(s, o).None? then None else Replay(t, Replay(s, o).value)
  {
    if s == [] {
      AppendNothing(t);
    } else {
      AppendTail(s, t);
      match s[0]
      case Entered(ctx, b) => ReplayAppend(s[1..], t, if b.hasLeave then o + [(ctx, b)] else o);
      case Left(ctx, b) => if o != [] { ReplayAppend(s[1..], t, o[..|o| - 1]); }
      case _ => ReplayAppend(s[1..], t, o);
    }
  }

  // The brackets that entering opens.
  function Brackets(ctx: int, bs: seq<Bootstrapper>): seq<(int, Bootstrapper)> {
    if bs == [] then [] else (if bs[0].hasLeave then [(ctx, bs[0])] else []) + Brackets(ctx, bs[1..])
  }

  lemma {:induction false} EntersOpen(ctx: int, bs: seq<Bootstrapper>, o: seq<(int, Bootstrapper)>)
    ensures Replay(Enters(ctx, bs), o) == Some(o + Brackets(ctx, bs))
  {
    if bs == [] {
      AppendNothing(o);
    } else {
      ConsTail(Entered(ctx, bs[0]), Enters(ctx, bs[1..]));
      var more := if bs[0].hasLeave then [(ctx, bs[0])] else [];
      EntersOpen(ctx, bs[1..], o + more);
      Associative(o, more, Brackets(ctx, bs[1..]));
      AppendNothing(o);
    }
  }

  lemma LeaveEvents(a: Activation, b: Bootstrapper)
    requires b.hasLeave
    ensures LeaveOf(a, b) == [Left(a.ctx, b)] + LeaveOf(a, b)[1..]
    ensures var events := LeaveOf(a, b);
            && events[0] == Left(a.ctx, b) && |events| <= 2
            && (a.leaves(b.name).None? ==> events[1..] == [])
            && (a.leaves(b.name).Some? ==>
                  events[1..] == [LeaveFailed(a.ctx, b, a.leaves(b.name).value, a.logs(b.name))]
                  && events[1..][1..] == [])
  {
  }

  lemma LeaveCloses(a: Activation, b: Bootstrapper, o: seq<(int, Bootstrapper)>)
    ensures Replay(LeaveOf(a, b), if b.hasLeave then o + [(a.ctx, b)] else o) == Some(o)
  {
    if b.hasLeave {
      assert (o + [(a.ctx, b)])[..|o|] == o;
      LeaveEvents(a, b);
      assert Replay(LeaveOf(a, b)[1..], o) == Some(o);
    }
  }

  lemma {:induction false} LeavesClose(a: Activation, bs: seq<Bootstrapper>, o: seq<(int, Bootstrapper)>)
    ensures Replay(Leaves(a, bs), o + Brackets(a.ctx, bs)) == Some(o)
  {
    AppendNothing(o);
    if bs != [] {
      var b, rest := bs[0], bs[1..];
      var more := if b.hasLeave then [(a.ctx, b)] else [];
      Associative(o, more, Brackets(a.ctx, rest));
      LeavesClose(a, rest, o + more);
      ReplayAppend(Leaves(a, rest), LeaveOf(a, b), o + Brackets(a.ctx, bs));
      LeaveCloses(a, b, o);
    }
  }

  /**
   * Whatever fails, be it an enter of this scope or of a nested one, a scope and all scopes nested in it leave exactly
   * what they entered, last entered first.
   */
  lemma {:induction false} ScopeBracketed(
    bs: seq<Bootstrapper>, a: Activation, code: Code, o: seq<(int, Bootstrapper)>)
    ensures Replay(ScopeTrace(bs, a, code), o) == Some(o)
    decreases code, 1
  {
    var n := EnterCount(a, bs);
    var entered := bs[..n];
    var inside := o + Brackets(a.ctx, entered);
    var body := if n == |bs| then [Body(a.ctx)] + CodeTrace(bs, code) else [];
    EntersOpen(a.ctx, entered, o);
    if n == |bs| {
      ConsTail(Body(a.ctx), CodeTrace(bs, code));
      CodeBracketed(bs, code, inside);
    }
    assert Replay(body, inside) == Some(inside);
    LeavesClose(a, entered, o);
    ReplayAppend(Enters(a.ctx, entered), body, o);
    ReplayAppend(Enters(a.ctx, entered) + body, Leaves(a, entered), o);
    ScopeIs(bs, a, code);
  }

  lemma {:induction false} CodeBracketed(bs: seq<Bootstrapper>, code: Code, o: seq<(int, Bootstrapper)>)
    ensures Replay(CodeTrace(bs, code), o) == Some(o)
    decreases code, 0
  {
    if code.Nest? {
      var next := if ScopeOutcome(bs, code.scope, code.inner).Returned? then code.then_ else code.otherwise;
      ScopeBracketed(bs, code.scope, code.inner, o);
      CodeBracketed(bs, next, o);
      ReplayAppend(ScopeTrace(bs, code.scope, code.inner), CodeTrace(bs, next), o);
    }
  }

  /**
   * A scope begins by entering the bootstrappers in the order of their registration, up to the first that fails, and
   * only then, if none fails, comes the body.
   */
  lemma EntersInOrder(bs: seq<Bootstrapper>, a: Activation, code: Code, n: nat)
    requires n <= |bs| && forall i :: 0 <= i < n ==> a.enters(bs[i].name) == None
    requires n < |bs| ==> a.enters(bs[n].name).Some?
    ensures var trace := ScopeTrace(bs, a, code);
            && |trace| >= n && (forall i :: 0 <= i < n ==> trace[i] == Entered(a.ctx, bs[i]))
            && (n == |bs| ==> |trace| > n && trace[n] == Body(a.ctx))
            && (n < |bs| ==> forall i :: n <= i < |trace| ==> trace[i].Left? || trace[i].LeaveFailed?)
  {
    EnterCountUnique(a, bs, n);
    EntersAt(a.ctx, bs[..n]);
    LeavesOnly(a, bs[..n]);
    ScopeIs(bs, a, code);
    hide Enters, Leaves, CodeTrace, ScopeTrace;
  }

  lemma {:induction false} EntersAt(ctx: int, bs: seq<Bootstrapper>)
    ensures |Enters(ctx, bs)| == |bs| && forall i :: 0 <= i < |bs| ==> Enters(ctx, bs)[i] == Entered(ctx, bs[i])
  {
    if bs != [] { EntersAt(ctx, bs[1..]); }
  }

  lemma {:induction false} LeavesOnly(a: Activation, bs: seq<Bootstrapper>)
    ensures forall e :: e in Leaves(a, bs) ==> e.Left? || e.LeaveFailed?
  {
    if bs != [] { LeavesOnly(a, bs[1..]); }
  }

  // ---------- Leave errors ----------

  // The same activation and the same code, but no leave throws.
  function Quiet(a: Activation): Activation { a.(leaves := (name: string) => None) }

  function QuietCode(code: Code): Code {
    match code
    case Done(_) => code
    case Nest(a, inner, then_, otherwise) => Nest(Quiet(a), QuietCode(inner), QuietCode(then_), QuietCode(otherwise))
  }

  // What happened, without the logged errors.
  function Unlogged(trace: seq<Event>): seq<Event> {
    if trace == [] then [] else (if trace[0].LeaveFailed? then [] else [trace[0]]) + Unlogged(trace[1..])
  }

  lemma {:induction false} UnloggedAppend(s: seq<Event>, t: seq<Event>)
    ensures Unlogged(s + t) == Unlogged(s) + Unlogged(t)
  {
    if s == [] {
      AppendNothing(t);
      AppendNothing(Unlogged(t));
    } else {
      AppendTail(s, t);
      UnloggedAppend(s[1..], t);
      Associative(if s[0].LeaveFailed? then [] else [s[0]], Unlogged(s[1..]), Unlogged(t));
    }
  }

  lemma {:induction false} UnloggedEnters(ctx: int, bs: seq<Bootstrapper>)
    ensures Unlogged(Enters(ctx, bs)) == Enters(ctx, bs)
  {
    if bs != [] {
      ConsTail(Entered(ctx, bs[0]), Enters(ctx, bs[1..]));
      UnloggedEnters(ctx, bs[1..]);
    }
  }

  lemma UnloggedLeave(a: Activation, b: Bootstrapper)
    ensures Unlogged(LeaveOf(a, b)) == LeaveOf(Quiet(a), b)
  {
    if b.hasLeave {
      LeaveEvents(a, b);
      assert Unlogged(LeaveOf(a, b)[1..]) == [];
    }
  }

  lemma {:induction false} UnloggedLeaves(a: Activation, bs: seq<Bootstrapper>)
    ensures Unlogged(Leaves(a, bs)) == Leaves(Quiet(a), bs)
  {
    if bs != [] {
      UnloggedLeaves(a, bs[1..]);
      UnloggedLeave(a, bs[0]);
      UnloggedAppend(Leaves(a, bs[1..]), LeaveOf(a, bs[0]));
    }
  }

  lemma EnterCountUnique(a: Activation, bs: seq<Bootstrapper>, n: nat)
    requires n <= |bs| && forall i :: 0 <= i < n ==> a.enters(bs[i].name) == None
    requires n < |bs| ==> a.enters(bs[n].name).Some?
    ensures EnterCount(a, bs) == n
  {
  }

  /**
   * Errors in leaves never change what a scope returns or throws, nor which enters, bodies and leaves run: all that
   * shows of them, there and in nested scopes, is that they are logged.
   */
  lemma {:induction false} LeaveErrorsDoNotShow(bs: seq<Bootstrapper>, a: Activation, code: Code)
    ensures ScopeOutcome(bs, a, code) == ScopeOutcome(bs, Quiet(a), QuietCode(code))
    ensures Unlogged(ScopeTrace(bs, a, code)) == ScopeTrace(bs, Quiet(a), QuietCode(code))
    decreases code, 1
  {
    var n := EnterCount(a, bs);
    EnterCountUnique(Quiet(a), bs, n);
    CodeErrorsDoNotShow(bs, code);
    ScopeIs(bs, a, code);
    ScopeIs(bs, Quiet(a), QuietCode(code));
    var body := if n == |bs| then [Body(a.ctx)] + CodeTrace(bs, code) else [];
    if n == |bs| { ConsTail(Body(a.ctx), CodeTrace(bs, code)); }
    assert Unlogged(body) == if n == |bs| then [Body(a.ctx)] + Unlogged(CodeTrace(bs, code)) else [];
    hide ScopeTrace, ScopeOutcome, Enters, Leaves, CodeTrace, CodeOutcome;
    UnloggedEnters(a.ctx, bs[..n]);
    UnloggedLeaves(a, bs[..n]);
    UnloggedAppend(Enters(a.ctx, bs[..n]), body);
    UnloggedAppend(Enters(a.ctx, bs[..n]) + body, Leaves(a, bs[..n]));
  }

  lemma {:induction false} CodeErrorsDoNotShow(bs: seq<Bootstrapper>, code: Code)
    ensures CodeOutcome(bs, code) == CodeOutcome(bs, QuietCode(code))
    ensures Unlogged(CodeTrace(bs, code)) == CodeTrace(bs, QuietCode(code))
    decreases code, 0
  {
    if code.Nest? {
      LeaveErrorsDoNotShow(bs, code.scope, code.inner);
      CodeErrorsDoNotShow(bs, code.then_);
      CodeErrorsDoNotShow(bs, code.otherwise);
      var next := if ScopeOutcome(bs, code.scope, code.inner).Returned? then code.then_ else code.otherwise;
      UnloggedAppend(ScopeTrace(bs, code.scope, code.inner), CodeTrace(bs, next));
    }
  }

  // ---------- When the body runs ----------

  ghost predicate AllEnter(a: Activation, bs: seq<Bootstrapper>) {
    forall i :: 0 <= i < |bs| ==> a.enters(bs[i].name) == None
  }

  // The error of the first enter that throws.
  ghost predicate FirstEnterError(a: Activation, bs: seq<Bootstrapper>, error: int) {
    exists n :: 0 <= n < |bs| && a.enters(bs[n].name) == Some(error) && AllEnter(a, bs[..n])
  }

  // The scopes whose body ran, in order.
  function Bodies(trace: seq<Event>): seq<int> {
    if trace == [] then [] else (if trace[0].Body? then [trace[0].ctx] else []) + Bodies(trace[1..])
  }

  lemma {:induction false} BodiesAppend(s: seq<Event>, t: seq<Event>)
    ensures Bodies(s + t) == Bodies(s) + Bodies(t)
  {
    if s == [] {
      AppendNothing(t);
      AppendNothing(Bodies(t));
    } else {
      AppendTail(s, t);
      BodiesAppend(s[1..], t);
      Associative(if s[0].Body? then [s[0].ctx] else [], Bodies(s[1..]), Bodies(t));
    }
  }

  lemma {:induction false} NoBodyInEnters(ctx: int, bs: seq<Bootstrapper>)
    ensures Bodies(Enters(ctx, bs)) == []
  {
    if bs != [] {
      ConsTail(Entered(ctx, bs[0]), Enters(ctx, bs[1..]));
      NoBodyInEnters(ctx, bs[1..]);
    }
  }

  lemma {:induction false} NoBodyInLeaves(a: Activation, bs: seq<Bootstrapper>)
    ensures Bodies(Leaves(a, bs)) == []
  {
    if bs != [] {
      NoBodyInLeaves(a, bs[1..]);
      BodiesAppend(Leaves(a, bs[1..]), LeaveOf(a, bs[0]));
      if bs[0].hasLeave {
        LeaveEvents(a, bs[0]);
        assert Bodies(LeaveOf(a, bs[0])[1..]) == [];
      }
    }
  }

  /**
   * The body runs, with all scopes in it, exactly if every bootstrapper enters, and then the outcome is the body's;
   * else nothing of it runs and the scope throws the error of the first enter that fails.
   */
  lemma BodyRunsIfAllEnter(bs: seq<Bootstrapper>, a: Activation, code: Code)
    ensures Bodies(ScopeTrace(bs, a, code)) ==
            if AllEnter(a, bs) then [a.ctx] + Bodies(CodeTrace(bs, code)) else []
    ensures var outcome := ScopeOutcome(bs, a, code);
            if AllEnter(a, bs) then outcome == CodeOutcome(bs, code)
            else outcome.Threw? && FirstEnterError(a, bs, outcome.error)
  {
    var n := EnterCount(a, bs);
    ScopeIs(bs, a, code);
    var body := if n == |bs| then [Body(a.ctx)] + CodeTrace(bs, code) else [];
    if n == |bs| { ConsTail(Body(a.ctx), CodeTrace(bs, code)); }
    assert Bodies(body) == if n == |bs| then [a.ctx] + Bodies(CodeTrace(bs, code)) else [];
    if n < |bs| {
      assert a.enters(bs[n].name) == Some(a.enters(bs[n].name).value);
      assert AllEnter(a, bs[..n]);
      assert FirstEnterError(a, bs, a.enters(bs[n].name).value);
    }
    assert AllEnter(a, bs) <==> n == |bs|;
    hide *;
    NoBodyInEnters(a.ctx, bs[..n]);
    NoBodyInLeaves(a, bs[..n]);
    BodiesAppend(Enters(a.ctx, bs[..n]), body);
    BodiesAppend(Enters(a.ctx, bs[..n]) + body, Leaves(a, bs[..n]));
    AppendNothing(Bodies(body));
  }
}
