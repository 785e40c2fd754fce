/** The test harness: constructs actors, walks the `as` blocks, and tears everything down again. */
module Harness {
  import opened Common
  import opened Values
  import opened Ast
  import opened Registry
  import opened Evaluation
  import opened Evaluator
  import opened Execution

  method EvalEntryList(entries: seq<MapEntry>, scope: Scope, lib: Library) returns (r: Result<Dict, EvalError>)
    ensures r == EvalEntries(entries, scope, lib)
  {
    var rec: Dict := [];
    for i := 0 to |entries|
      invariant EvalEntries(entries[..i], scope, lib) == Ok(rec)
    {
      assert entries[..i + 1][..i] == entries[..i];
      var key := EvalMapKey(entries[i].key, scope, lib);
      if key.Err? {
        EntriesErrorStays(entries, i + 1, scope, lib);
        return Err(key.error);
      }
      var value := EvalExpr(entries[i].value, scope, lib);
      if value.Err? {
        EntriesErrorStays(entries, i + 1, scope, lib);
        return Err(value.error);
      }
      rec := Insert(rec, key.value, value.value);
    }
    assert entries[..|entries|] == entries;
    return Ok(rec);
  }

  lemma {:induction false} EntriesErrorStays(entries: seq<MapEntry>, n: nat, scope: Scope, lib: Library)
    requires n <= |entries| && EvalEntries(entries[..n], scope, lib).Err?
    ensures EvalEntries(entries, scope, lib) == EvalEntries(entries[..n], scope, lib)
    decreases |entries|
  {
    if n == |entries| {
      assert entries[..n] == entries;
    } else {
      var init := entries[..|entries| - 1];
      assert init[..n] == entries[..n];
      EntriesErrorStays(init, n, scope, lib);
    }
  }

  method EvalKeywordArgs(kws: seq<KeywordArg>, scope: Scope, lib: Library) returns (r: Result<Dict, EvalError>)
    ensures r == EvalKeywords(kws, scope, lib)
  {
    var out: Dict := [];
    for i := 0 to |kws|
      invariant EvalKeywords(kws[..i], scope, lib) == Ok(out)
    {
      assert kws[..i + 1][..i] == kws[..i];
      var v: Result<Value, EvalError>;
      match kws[i].value {
        case ExprValue(e) => v := EvalExpr(e, scope, lib);
        case MapValue(entries) =>
          var rec := EvalEntryList(entries, scope, lib);
          v := if rec.Ok? then Ok(DictV(rec.value)) else Err(rec.error);
      }
      if v.Err? {
        KeywordsErrorStays(kws, i + 1, scope, lib);
        return Err(v.error);
      }
      out := Insert(out, kws[i].key, v.value);
    }
    assert kws[..|kws|] == kws;
    return Ok(out);
  }

  lemma {:induction false} KeywordsErrorStays(kws: seq<KeywordArg>, n: nat, scope: Scope, lib: Library)
    requires n <= |kws| && EvalKeywords(kws[..n], scope, lib).Err?
    ensures EvalKeywords(kws, scope, lib) == EvalKeywords(kws[..n], scope, lib)
    decreases |kws|
  {
    if n == |kws| {
      assert kws[..n] == kws;
    } else {
      var init := kws[..|kws| - 1];
      assert init[..n] == kws[..n];
      KeywordsErrorStays(init, n, scope, lib);
    }
  }

  /** Looks ahead for a reference to `error`, stopping at the next command. */
  method BlockHasErrorRefAfter(body: seq<Statement>, after: nat) returns (found: bool)
    requires after < |body|
    ensures found == ErrorRefFrom(body, after + 1)
  {
    var i := after + 1;
    while i < |body|
      invariant after < i <= |body|
      invariant ErrorRefFrom(body, after + 1) == ErrorRefFrom(body, i)
    {
      if body[i].Command? {
        return false;
      }
      if RefersToErrorRoot(body[i]) {
        return true;
      }
      i := i + 1;
    }
    return false;
  }

  class InstantiatedActors {
    var entries: seq<Live>
    var log: seq<Event>

    ghost function Now(): Session
      reads this
    {
      Session(entries, log)
    }

    constructor ()
      ensures Now() == START
    {
      entries, log := [], [];
    }

    /** Binds every actor's view under its name, then the current actor's as `self`. */
    method RefreshScope(scope: Scope, actor: string) returns (bound: Scope)
      ensures bound == BindSelf(scope, entries, actor)
    {
      bound := scope;
      for i := 0 to |entries|
        invariant bound == BindViews(scope, entries[..i])
      {
        assert entries[..i + 1][..i] == entries[..i];
        if entries[i].view.Some? {
          bound := bound[entries[i].name := DictV(entries[i].view.value)];
        } else {
          bound := bound - {entries[i].name};
        }
      }
      assert entries[..|entries|] == entries;
      var at := Find(entries, actor);
      if at.Some? && entries[at.value].view.Some? {
        bound := bound["self" := DictV(entries[at.value].view.value)];
      } else {
        bound := bound - {"self"};
      }
    }

    method ExecuteOn(at: nat, cmd: Cmd, expectsError: bool, world: World) returns (outcome: RunOutcome)
      requires at < |entries|
      modifies this
      ensures var inst := old(entries[at]);
              var d := Dispatch(inst.kind, inst.mode, cmd, world.respond(|old(log)|, inst.kind, cmd));
              && outcome == d.outcome
              && entries == old(entries)[at := inst.(mode := d.mode)]
              && log == old(log) + [Executed(inst.name, inst.kind, cmd, inst.mode, d.outcome, expectsError)]
    {
      var inst := entries[at];
      var d := Dispatch(inst.kind, inst.mode, cmd, world.respond(|log|, inst.kind, cmd));
      entries := entries[at := inst.(mode := d.mode)];
      log := log + [Executed(inst.name, inst.kind, cmd, inst.mode, d.outcome, expectsError)];
      outcome := d.outcome;
    }

    method RunOneCommand(at: nat, body: seq<Statement>, i: nat, start: Scope, world: World)
      returns (scope: Scope, failure: Option<Failure>)
      requires at < |entries| && i < |body| && body[i].Command?
      modifies this
      ensures Progress(Now(), scope, failure) ==
                RunCommand(Progress(old(Now()), start, None), at, body[i], ErrorRefFrom(body, i + 1), world)
    {
      var st, inst := body[i], entries[at];
      scope := start - {"ok", "error"};
      var resolved := Resolve(inst.kind, st.name, st.positional);
      if resolved.None? {
        return scope, Some(UnresolvedCommand(inst.name));
      }
      var positional := EvalItems(st.positional[resolved.value.consumed..], scope, world.lib);
      if positional.Err? {
        return scope, Some(EvalFailure(inst.name, positional.error));
      }
      var keyword := EvalKeywordArgs(st.keyword, scope, world.lib);
      if keyword.Err? {
        return scope, Some(EvalFailure(inst.name, keyword.error));
      }
      scope, failure := Carried(at, resolved.value.cmd, body, i, scope, world);
    }

    method Carried(at: nat, cmd: Cmd, body: seq<Statement>, i: nat, start: Scope, world: World)
      returns (scope: Scope, failure: Option<Failure>)
      requires at < |entries| && i < |body|
      modifies this
      ensures Progress(Now(), scope, failure) == Carry(old(Now()), start, at, cmd, ErrorRefFrom(body, i + 1), world)
    {
      var name := entries[at].name;
      var outcome := ExecuteOn(at, cmd, ErrorRefFrom(body, i + 1), world);
      scope, failure := start, None;
      match outcome
      case OkOutcome(fields) => scope := scope["ok" := DictV(fields)];
      case ErrorOutcome(variant, fields) =>
        var wasExpected := BlockHasErrorRefAfter(body, i);
        scope := scope["error" := DictV(ErrorDict(variant, fields))];
        failure := if wasExpected then None else Some(CommandFailure(name, cmd));
      case NotImplemented => failure := Some(CommandNotImplemented(name, cmd));
    }

    method RunOneStatement(at: nat, body: seq<Statement>, i: nat, start: Scope, world: World)
      returns (scope: Scope, failure: Option<Failure>)
      requires at < |entries| && i < |body|
      modifies this
      ensures Progress(Now(), scope, failure) == RunStatement(Progress(old(Now()), start, None), at, body, i, world)
    {
      var actor := entries[at].name;
      scope := RefreshScope(start, actor);
      failure := None;
      match body[i]
      case Command(_, _, _) => scope, failure := RunOneCommand(at, body, i, scope, world);
      case Let(name, LetExpr(e)) =>
        var v := EvalExpr(e, scope, world.lib);
        if v.Err? {
          failure := Some(EvalFailure(actor, v.error));
        } else {
          scope := scope[name := v.value];
        }
      case Let(_, LetParse(_, _)) => failure := Some(NotSupported(actor));
      case Assignment(_, _) => failure := Some(NotSupported(actor));
      case Assert(_, _, _) =>
        var passed := EvalAssert(body[i], scope, world.lib);
        if passed.Err? {
          failure := Some(EvalFailure(actor, passed.error));
        } else if !passed.value {
          failure := Some(AssertFailure(actor));
        }
    }

    method RunAsBlock(actor: string, body: seq<Statement>, world: World) returns (failure: Option<Failure>)
      modifies this
      ensures var r := RunBlock(old(Now()), actor, body, world);
              Now() == r.session && failure == r.failure
    {
      hide RunStatement;
      var at := Find(entries, actor);
      if at.None? {
        return Some(NoLiveInstance(actor));
      }
      var scope: Scope := map[];
      failure := None;
      for i := 0 to |body|
        invariant at.value < |entries| && failure.None?
        invariant Progress(Now(), scope, None) == RunBody(old(Now()), at.value, body, i, world)
      {
        scope, failure := RunOneStatement(at.value, body, i, scope, world);
        if failure.Some? {
          BodyFailureStays(old(Now()), at.value, body, i + 1, |body|, world);
          return;
        }
      }
    }

    method ConstructActor(decl: TopLevel, world: World) returns (failure: Option<Failure>)
      requires decl.ActorDeclaration?
      modifies this
      ensures var r := RunItem(old(Now()), decl, world);
              Now() == r.session && failure == r.failure
    {
      var kind := KindByName(decl.actorType);
      if kind.None? {
        return Some(ConstructFailure(decl.name, UnknownType));
      }
      var keyword := EvalKeywordArgs(decl.keyword, map[], world.lib);
      if keyword.Err? {
        return Some(ConstructFailure(decl.name, BadExpression(keyword.error)));
      }
      var vars := EvalVars(decl.vars, world.lib);
      if vars.Err? {
        return Some(ConstructFailure(decl.name, BadExpression(vars.error)));
      }
      var inst := Instantiate(decl.name, kind.value, keyword.value, vars.value, world, |log|);
      if inst.Err? {
        return Some(ConstructFailure(decl.name, inst.error));
      }
      entries := entries + [inst.value];
      log := log + [Constructed(decl.name)];
      return None;
    }

    /** Pops the actors one by one; a panic is contained and becomes a failed report. */
    method TeardownAll(world: World) returns (reports: seq<TeardownReport>)
      modifies this
      ensures entries == []
      ensures TornAll(log, reports) == TearDown(old(entries), old(log), world)
    {
      ghost var all := TearDown(entries, log, world);
      var reversed: seq<TeardownReport> := [];
      while entries != []
        invariant TearDown(entries, log, world).log == all.log
        invariant all.reports == TearDown(entries, log, world).reports + Reversed(reversed)
        decreases |entries|
      {
        var inst := entries[|entries| - 1];
        var result := world.teardown(|log|);
        entries := entries[..|entries| - 1];
        log := log + [TornDown(inst.name, result)];
        reversed := reversed + [TeardownReport(inst.name, result)];
      }
      reports := Reversed(reversed);
    }
  }

  function Reversed<T>(xs: seq<T>): (r: seq<T>)
    ensures |r| == |xs| && forall i :: 0 <= i < |xs| ==> r[i] == xs[|xs| - 1 - i]
  {
    if xs == [] then [] else [xs[|xs| - 1]] + Reversed(xs[..|xs| - 1])
  }

  /** Nothing runs after a failure inside a block. */
  lemma {:induction false} BodyFailureStays(s: Session, at: nat, body: seq<Statement>, n: nat, m: nat, world: World)
    requires at < |s.live| && n <= m <= |body| && RunBody(s, at, body, n, world).failure.Some?
    ensures RunBody(s, at, body, m, world) == RunBody(s, at, body, n, world)
    decreases m - n
  {
    hide RunStatement;
    if n < m {
      BodyFailureStays(s, at, body, n, m - 1, world);
    }
  }

  /** Nor anywhere in the program. */
  lemma {:induction false} FailureStays(src: SourceFile, n: nat, m: nat, world: World)
    requires n <= m <= |src| && RunItems(src, n, world).failure.Some?
    ensures RunItems(src, m, world) == RunItems(src, n, world)
    decreases m - n
  {
    hide RunItem;
    if n < m {
      FailureStays(src, n, m - 1, world);
    }
  }

  lemma BlockItem(s: Session, actor: string, body: seq<Statement>, world: World)
    ensures RunItem(s, AsBlock(actor, body), world) == RunBlock(s, actor, body, world)
  {
    hide RunBlock;
  }

  method Execute(src: SourceFile, world: World) returns (report: TestReport)
    ensures report == Report(src, world)
  {
    hide RunItem, RunBlock, TearDown;
    var actors := new InstantiatedActors();
    var failure: Option<Failure> := None;
    var i := 0;
    while i < |src| && failure.None?
      invariant i <= |src|
      invariant actors.Now() == RunItems(src, i, world).session && failure == RunItems(src, i, world).failure
      decreases |src| - i
    {
      match src[i] {
        case ActorDeclaration(_, _, _, _) => failure := actors.ConstructActor(src[i], world);
        case AsBlock(actor, body) =>
          BlockItem(actors.Now(), actor, body, world);
          failure := actors.RunAsBlock(actor, body, world);
      }
      i := i + 1;
    }
    if failure.Some? {
      FailureStays(src, i, |src|, world);
    }
    var reports := actors.TeardownAll(world);
    report := TestReport(failure.None?, failure, reports, actors.log);
  }
}
