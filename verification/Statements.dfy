/** What running a statement comes to: what each sees, when the run goes on, and what it leaves behind. */
module Statements {
  import opened Common
  import opened Values
  import opened Ast
  import opened Registry
  import opened Evaluation
  import opened EvaluationLaws
  import opened Validation
  import opened Execution
  import opened Harness
  import opened ModeSimulation
  import Shadowing
  import Teardown
  import TypePreservation

  // ── What a statement sees ───────────────────────────────────────────────────

  /** No later live actor has the name of the one at `k`. */
  predicate LastNamed(live: seq<Live>, k: int, name: string) {
    0 <= k < |live| && live[k].name == name && forall j :: k < j < |live| ==> live[j].name != name
  }

  predicate Bound(scope: Scope, name: string, view: Option<Dict>) {
    if view.Some? then name in scope && scope[name] == DictV(view.value) else name !in scope
  }

  predicate SameAt(scope: Scope, other: Scope, name: string) {
    (name in scope <==> name in other) && (name in scope ==> scope[name] == other[name])
  }

  lemma {:induction false} ViewSeen(scope: Scope, live: seq<Live>, k: nat, name: string)
    requires LastNamed(live, k, name)
    ensures Bound(BindViews(scope, live), name, live[k].view)
  {
    hide LastNamed;
    var n := |live| - 1;
    LastSpot(live, k, name);
    if k < n {
      ViewSeen(scope, live[..n], k, name);
    }
  }

  lemma LastSpot(live: seq<Live>, k: nat, name: string)
    requires LastNamed(live, k, name)
    ensures k < |live| && live[k].name == name
    ensures k < |live| - 1 ==> LastNamed(live[..|live| - 1], k, name) && live[|live| - 1].name != name
  {
  }

  /** Before each statement `self` is the view of the block's own actor, the name of every live actor is
      that actor's view, and a name without a view is unbound; every other name is as the block left it. */
  lemma ScopeSeen(scope: Scope, live: seq<Live>, at: nat, name: string)
    requires at < |live| && (forall k :: 0 <= k < at ==> live[k].name != live[at].name)
    ensures var bound := BindSelf(scope, live, live[at].name);
            && Bound(bound, "self", live[at].view)
            && (name != "self" ==> forall k :: LastNamed(live, k, name) ==> Bound(bound, name, live[k].view))
            && (name != "self" && Shadowing.NoneNamed(live, name) ==> SameAt(bound, scope, name))
  {
    hide BindViews, LastNamed, Shadowing.NoneNamed;
    TypePreservation.FirstOfName(live, live[at].name);
    forall k | LastNamed(live, k, name)
      ensures 0 <= k < |live| && Bound(BindViews(scope, live), name, live[k].view)
    {
      LastInRange(live, k, name);
      ViewSeen(scope, live, k, name);
    }
    if Shadowing.NoneNamed(live, name) {
      Shadowing.BindViewsKeeps(scope, live, name);
    }
  }

  lemma LastInRange(live: seq<Live>, k: int, name: string)
    requires LastNamed(live, k, name)
    ensures 0 <= k < |live|
  {
  }

  /** The scope a statement is evaluated in. */
  function Sees(r: Progress, at: nat): Scope
    requires at < |r.session.live|
  {
    BindSelf(r.scope, r.session.live, r.session.live[at].name)
  }

  // ── Asserts ─────────────────────────────────────────────────────────────────

  /** The values a bare assert does not accept. */
  predicate Falsy(v: Value) {
    || v == BoolV(false) || v == NumberV(0) || v == FloatV(0.0) || v == StringV("") || v == ArrayV([])
    || v == DictV([]) || v == BytesV([]) || v == NullV
  }

  /** The assert holds: both sides evaluate and compare true, or the only side is not falsy. */
  predicate Holds(st: Statement, scope: Scope, lib: Library)
    requires st.Assert?
  {
    && var left := Eval(st.left, scope, lib);
    && left.Ok?
    && if st.op.None? then !Falsy(left.value) else
         && st.right.Some?
         && var right := Eval(st.right.value, scope, lib);
         && right.Ok? && lib.compare(st.op.value, left.value, right.value) == Some(true)
  }

  /** It was evaluated to the end and is false. */
  predicate IsFalse(st: Statement, scope: Scope, lib: Library)
    requires st.Assert?
  {
    && var left := Eval(st.left, scope, lib);
    && left.Ok?
    && if st.op.None? then Falsy(left.value) else
         && st.right.Some?
         && var right := Eval(st.right.value, scope, lib);
         && right.Ok? && lib.compare(st.op.value, left.value, right.value) == Some(false)
  }

  /** The run goes on past an assert exactly when it holds, and reports an assert failure exactly when it
      is false; in every other case it reports the evaluation error. Nothing else changes. */
  lemma AssertVerdict(r: Progress, at: nat, body: seq<Statement>, i: nat, world: World)
    requires at < |r.session.live| && i < |body| && body[i].Assert? && r.failure.None?
    ensures var p, actor := RunStatement(r, at, body, i, world), r.session.live[at].name;
            && p.session == r.session && p.scope == Sees(r, at)
            && (p.failure.None? <==> Holds(body[i], Sees(r, at), world.lib))
            && (p.failure == Some(AssertFailure(actor)) <==> IsFalse(body[i], Sees(r, at), world.lib))
            && (p.failure.Some? && !p.failure.value.AssertFailure? ==>
                  p.failure.value.EvalFailure? && p.failure.value.actor == actor)
  {
    hide BindSelf, Eval;
  }

  // ── Lets ────────────────────────────────────────────────────────────────────

  /** A let goes on exactly when its expression evaluates, and binds that value and nothing else. */
  lemma LetVerdict(r: Progress, at: nat, body: seq<Statement>, i: nat, world: World)
    requires at < |r.session.live| && i < |body| && body[i].Let? && body[i].value.LetExpr? && r.failure.None?
    ensures var p, v := RunStatement(r, at, body, i, world), Eval(body[i].value.expr, Sees(r, at), world.lib);
            && p.session == r.session
            && match v
               case Ok(x) => p.failure.None? && p.scope == Sees(r, at)[body[i].bound := x]
               case Err(e) => p.failure == Some(EvalFailure(r.session.live[at].name, e))
  {
    hide BindSelf, Eval;
  }

  // ── Commands ────────────────────────────────────────────────────────────────

  /** Every argument the command hands on can be evaluated. */
  ghost predicate ArgumentsEvaluate(st: Statement, consumed: nat, scope: Scope, lib: Library)
    requires st.Command?
  {
    && (forall k :: consumed <= k < |st.positional| ==> Eval(st.positional[k], scope, lib).Ok?)
    && (forall k :: 0 <= k < |st.keyword| ==> EvalKeywordValue(st.keyword[k].value, scope, lib).Ok?)
  }

  lemma ArgumentsEvaluateIff(st: Statement, consumed: nat, scope: Scope, lib: Library)
    requires st.Command? && consumed <= |st.positional|
    ensures ArgsError(st, consumed, scope, lib).None? <==> ArgumentsEvaluate(st, consumed, scope, lib)
  {
    hide Eval, EvalKeywordValue, EvalKeywords, EvalAll;
    var args := st.positional[consumed..];
    AllInOrder(args, scope, lib);
    KeywordArguments(st.keyword, scope, lib);
    assert forall k :: 0 <= k < |args| ==> args[k] == st.positional[consumed + k];
    assert forall k :: consumed <= k < |st.positional| ==> st.positional[k] == args[k - consumed];
  }

  /** What `error` holds after a failure: the variant under `type`, its fields under the variant's name. */
  ghost predicate ErrorMeans(error: Dict, variant: string, fields: Dict) {
    && Get(error, variant) == Some(DictV(fields))
    && (variant != "type" ==> Get(error, "type") == Some(AtomV(variant)))
    && forall key :: key != "type" && key != variant ==> Get(error, key).None?
  }

  lemma ErrorDictMeans(variant: string, fields: Dict)
    ensures ErrorMeans(ErrorDict(variant, fields), variant, fields)
  {
    hide Insert;
    var one := Insert([], "type", AtomV(variant));
    forall key
      ensures Get(ErrorDict(variant, fields), key) ==
                if key == variant then Some(DictV(fields)) else if key == "type" then Some(AtomV(variant)) else None
    {
      GetInsert([], "type", AtomV(variant), key);
      GetInsert(one, variant, DictV(fields), key);
    }
  }

  /** A command is carried out exactly when its actor knows it and its arguments evaluate, `ok` and `error`
      cleared; one event is then logged, and the outcome, `ok` or `error`, is bound. */
  lemma CommandVerdict(r: Progress, at: nat, body: seq<Statement>, i: nat, world: World)
    requires at < |r.session.live| && i < |body| && body[i].Command? && r.failure.None?
    ensures var p, inst, st := RunStatement(r, at, body, i, world), r.session.live[at], body[i];
            var scope, resolved := Sees(r, at) - {"ok", "error"}, Resolve(inst.kind, st.name, st.positional);
            if resolved.None? || !ArgumentsEvaluate(st, resolved.value.consumed, scope, world.lib) then
              p.session == r.session && p.failure.Some?
              && (p.failure.value.UnresolvedCommand? || p.failure.value.EvalFailure?)
            else
              var cmd := resolved.value.cmd;
              var d := Dispatch(inst.kind, inst.mode, cmd, world.respond(|r.session.log|, inst.kind, cmd));
              && p.session.live == r.session.live[at := inst.(mode := d.mode)]
              && p.session.log == r.session.log + [Executed(inst.name, inst.kind, cmd, inst.mode, d.outcome,
                                                            ErrorRefFrom(body, i + 1))]
              && match d.outcome
                 case OkOutcome(fields) => p.failure.None? && p.scope == scope["ok" := DictV(fields)]
                 case ErrorOutcome(variant, fields) =>
                   && p.failure == (if ErrorRefFrom(body, i + 1) then None else Some(CommandFailure(inst.name, cmd)))
                   && "ok" !in p.scope && "error" in p.scope && p.scope["error"].DictV? && p.scope - {"error"} == scope
                   && ErrorMeans(p.scope["error"].fields, variant, fields)
                 case NotImplemented => p.failure == Some(CommandNotImplemented(inst.name, cmd))
  {
    hide BindSelf, Eval, EvalKeywordValue, ArgumentsEvaluate, ErrorRefFrom, Dispatch, Resolve, ErrorMeans, ErrorDict;
    var inst, st := r.session.live[at], body[i];
    var scope, resolved := Sees(r, at) - {"ok", "error"}, Resolve(inst.kind, st.name, st.positional);
    if resolved.Some? {
      ArgumentsEvaluateIff(st, resolved.value.consumed, scope, world.lib);
      var cmd := resolved.value.cmd;
      var d := Dispatch(inst.kind, inst.mode, cmd, world.respond(|r.session.log|, inst.kind, cmd));
      if d.outcome.ErrorOutcome? {
        ErrorDictMeans(d.outcome.variant, d.outcome.fields);
        assert scope["error" := DictV(ErrorDict(d.outcome.variant, d.outcome.fields))] - {"error"} == scope;
      }
    }
    hide ArgsError;
  }

  // ── Whole runs ──────────────────────────────────────────────────────────────

  /** A reached statement decides whether the next one is reached; if it fails, its failure is the
      report's. */
  lemma StatementDecides(src: SourceFile, world: World, b: nat, i: nat)
    requires Reaches(src, world, b, i) && i < |src[b].body|
    ensures var p := RunStatement(Before(src, world, b, i), Slot(src, world, b, i), src[b].body, i, world);
            && (Reaches(src, world, b, i + 1) <==> p.failure.None?)
            && (Reaches(src, world, b, i + 1) ==> Before(src, world, b, i + 1) == p)
            && (p.failure.Some? ==> Report(src, world).failure == p.failure && !Report(src, world).passed)
  {
    hide RunStatement, RunItems, RunBody, Report;
    var s, body := RunItems(src, b, world).session, src[b].body;
    var at := Find(s.live, src[b].actor).value;
    BodyAt(s, at, body, i, world);
    if RunBody(s, at, body, i + 1, world).failure.Some? {
      Teardown.FirstFailureEndsRun(src, world, b, i + 1);
    }
  }

  /** A report that passed went through every statement of every block. */
  lemma PassedReachesAll(src: SourceFile, world: World, b: nat, i: nat)
    requires Report(src, world).passed && b < |src| && src[b].AsBlock? && i <= |src[b].body|
    ensures Reaches(src, world, b, i)
  {
    hide RunItem, RunBody, RunItems, TearDown;
    PassedSoFar(src, world, b);
    PassedSoFar(src, world, b + 1);
    var s, body := RunItems(src, b, world).session, src[b].body;
    PassedBlock(src, world, b);
    var at := Find(s.live, src[b].actor).value;
    if RunBody(s, at, body, i, world).failure.Some? {
      BodyFailureStays(s, at, body, i, |body|, world);
    }
  }

  lemma PassedSoFar(src: SourceFile, world: World, n: nat)
    requires n <= |src| && RunItems(src, |src|, world).failure.None?
    ensures RunItems(src, n, world).failure.None?
  {
    hide RunItems;
    if RunItems(src, n, world).failure.Some? {
      FailureStays(src, n, |src|, world);
    }
  }

  lemma PassedBlock(src: SourceFile, world: World, b: nat)
    requires b < |src| && src[b].AsBlock? && RunItems(src, b, world).failure.None?
    requires RunItems(src, b + 1, world).failure.None?
    ensures var s := RunItems(src, b, world).session;
            && Find(s.live, src[b].actor).Some?
            && RunBody(s, Find(s.live, src[b].actor).value, src[b].body, |src[b].body|, world).failure.None?
  {
    hide RunBody, Find;
  }

  /** A reached assert lets the run go on exactly when it holds; if it is false, that is the report. */
  lemma AssertDecides(src: SourceFile, world: World, b: nat, i: nat)
    requires Reaches(src, world, b, i) && i < |src[b].body| && src[b].body[i].Assert?
    ensures var scope := Sees(Before(src, world, b, i), Slot(src, world, b, i));
            && (Reaches(src, world, b, i + 1) <==> Holds(src[b].body[i], scope, world.lib))
            && (IsFalse(src[b].body[i], scope, world.lib) ==>
                  Report(src, world).failure == Some(AssertFailure(src[b].actor)))
  {
    StatementDecides(src, world, b, i);
    SlotName(src, world, b, i);
    hide RunStatement, Reaches, Before, Slot, Report, Holds, IsFalse;
    AssertVerdict(Before(src, world, b, i), Slot(src, world, b, i), src[b].body, i, world);
  }

  lemma SlotName(src: SourceFile, world: World, b: nat, i: nat)
    requires Reaches(src, world, b, i)
    ensures Before(src, world, b, i).failure.None?
    ensures Before(src, world, b, i).session.live[Slot(src, world, b, i)].name == src[b].actor
    ensures SameActors(RunItems(src, b, world).session.live, Before(src, world, b, i).session.live,
                       Slot(src, world, b, i))
  {
    hide RunItems, RunBody;
    var s := RunItems(src, b, world).session;
    BodyFrame(s, Find(s.live, src[b].actor).value, src[b].body, i, world);
  }

  /** In a report that passed every assert was reached and held. */
  lemma PassedAssertsHold(src: SourceFile, world: World, b: nat, i: nat)
    requires Report(src, world).passed && b < |src| && src[b].AsBlock? && i < |src[b].body|
    requires src[b].body[i].Assert?
    ensures Reaches(src, world, b, i)
    ensures Holds(src[b].body[i], Sees(Before(src, world, b, i), Slot(src, world, b, i)), world.lib)
  {
    hide Report, Reaches, Before, Slot, Holds, Sees;
    PassedReachesAll(src, world, b, i);
    PassedReachesAll(src, world, b, i + 1);
    AssertDecides(src, world, b, i);
  }

  /** An assert failure in a report is that of a reached assert that is false. */
  lemma AssertFailureExplained(src: SourceFile, world: World) returns (b: nat, i: nat)
    requires Report(src, world).failure.Some? && Report(src, world).failure.value.AssertFailure?
    ensures Reaches(src, world, b, i) && i < |src[b].body| && src[b].body[i].Assert?
    ensures IsFalse(src[b].body[i], Sees(Before(src, world, b, i), Slot(src, world, b, i)), world.lib)
  {
    hide RunItems, RunBody, RunStatement, Construct, TearDown, IsFalse;
    b := FailingItem(src, |src|, world);
    var s, body := RunItems(src, b, world).session, src[b].body;
    var at := Find(s.live, src[b].actor).value;
    i := FailingStatement(s, at, body, |body|, world);
    BodyFrame(s, at, body, i, world);
    var r := RunBody(s, at, body, i, world);
    OnlyAssertsFailSo(r, at, body, i, world);
    AssertVerdict(r, at, body, i, world);
  }

  lemma OnlyAssertsFailSo(r: Progress, at: nat, body: seq<Statement>, i: nat, world: World)
    requires at < |r.session.live| && i < |body| && r.failure.None?
    ensures var f := RunStatement(r, at, body, i, world).failure;
            f.Some? && f.value.AssertFailure? ==> body[i].Assert? && f.value.actor == r.session.live[at].name
  {
    hide BindSelf, Eval, EvalAssert, Resolve, ArgsError, Dispatch, ErrorRefFrom;
  }
}
