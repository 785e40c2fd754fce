/** The validator object: an actors table and a list of diagnostics, updated as the walk goes on. */
module Validator {
  import opened Common
  import opened Values
  import opened Ast
  import opened Registry
  import opened Evaluation
  import opened Validation

  lemma Regroup(d: seq<Diagnostic>, a: seq<Diagnostic>, b: seq<Diagnostic>, c: seq<Diagnostic>, e: seq<Diagnostic>)
    ensures d + a + b + c + e == d + (a + b + c + e)
    ensures (e == [] ==> d + a + b + c == d + (a + (b + c))) && (a == e == [] ==> d + b + c == d + (b + c))
  {
  }

  class Validator {
    var actors: Actors
    var diagnostics: seq<Diagnostic>

    ghost function State(): Checker
      reads this
    {
      Checker(actors, diagnostics)
    }

    constructor ()
      ensures State() == Checker(map[], [])
    {
      actors, diagnostics := map[], [];
    }

    method Report(d: Diagnostic)
      modifies this`diagnostics
      ensures diagnostics == old(diagnostics) + [d]
    {
      diagnostics := diagnostics + [d];
    }

    method CheckKeywordArgs(provided: seq<KeywordArg>, expected: seq<KeywordDef>)
      modifies this`diagnostics
      ensures diagnostics == old(diagnostics) + KeywordIssues(provided, expected)
    {
      for i := 0 to |provided|
        invariant diagnostics == old(diagnostics) + UnknownKeywords(provided[..i], expected)
      {
        assert provided[..i + 1][..i] == provided[..i];
        if !exists k :: 0 <= k < |expected| && expected[k].name == provided[i].key {
          Report(UnknownKeywordArg(provided[i].key));
        }
      }
      assert provided[..|provided|] == provided;
      for i := 0 to |expected|
        invariant diagnostics ==
                    old(diagnostics) + UnknownKeywords(provided, expected) + MissingKeywords(provided, expected[..i])
      {
        assert expected[..i + 1][..i] == expected[..i];
        if expected[i].required && !exists k :: 0 <= k < |provided| && provided[k].key == expected[i].name {
          Report(MissingRequiredArg);
        }
      }
      assert expected[..|expected|] == expected;
    }

    /** Visits the expression and everything nested in it in pre-order. */
    method CheckSquigglesInExpr(e: Expr)
      modifies this`diagnostics
      ensures diagnostics == old(diagnostics) + TagsIn(e)
      decreases e, 1
    {
      match e
      case Squiggle(tag, fragments) =>
        if SquiggleType(tag).None? {
          Report(UnknownSquiggleTag(tag));
        }
        CheckSquigglesInFragments(fragments);
      case StringLit(fragments) => CheckSquigglesInFragments(fragments);
      case ArrayLit(items) => CheckSquigglesInAll(items);
      case Member(receiver, _) => CheckSquigglesInExpr(receiver);
      case Index(receiver, indices) =>
        CheckSquigglesInExpr(receiver);
        CheckSquigglesInAll(indices);
      case _ =>
    }

    method CheckSquigglesInFragments(fragments: seq<Fragment>)
      modifies this`diagnostics
      ensures diagnostics == old(diagnostics) + TagsInFragments(fragments)
      decreases fragments, 0
    {
      assert fragments[0..] == fragments;
      for i := 0 to |fragments|
        invariant diagnostics + TagsInFragments(fragments[i..]) == old(diagnostics) + TagsInFragments(fragments)
      {
        assert fragments[i..][1..] == fragments[i + 1..];
        CheckSquigglesInFragment(fragments[i]);
      }
      assert fragments[|fragments|..] == [];
    }

    method CheckSquigglesInFragment(f: Fragment)
      modifies this`diagnostics
      ensures diagnostics == old(diagnostics) + TagsInFragment(f)
      decreases f, 0
    {
      match f
      case Text(_) =>
      case Interpolation(e) => CheckSquigglesInExpr(e);
    }

    method CheckSquigglesInKeywords(kws: seq<KeywordArg>)
      modifies this`diagnostics
      ensures diagnostics == old(diagnostics) + TagsInKeywords(kws)
    {
      for i := 0 to |kws|
        invariant diagnostics == old(diagnostics) + TagsInKeywords(kws[..i])
      {
        assert kws[..i + 1][..i] == kws[..i];
        CheckSquigglesInValue(kws[i].value);
      }
      assert kws[..|kws|] == kws;
    }

    method CheckSquigglesInValue(v: KeywordValue)
      modifies this`diagnostics
      ensures diagnostics == old(diagnostics) + TagsInValue(v)
    {
      match v
      case ExprValue(e) => CheckSquigglesInExpr(e);
      case MapValue(entries) =>
        for i := 0 to |entries|
          invariant diagnostics == old(diagnostics) + TagsInEntries(entries[..i])
        {
          assert entries[..i + 1][..i] == entries[..i];
          CheckSquigglesInExpr(entries[i].key);
          CheckSquigglesInExpr(entries[i].value);
        }
        assert entries[..|entries|] == entries;
    }

    method CheckSquigglesInAll(es: seq<Expr>)
      modifies this`diagnostics
      ensures diagnostics == old(diagnostics) + TagsInAll(es)
      decreases es, 0
    {
      assert es[0..] == es;
      for i := 0 to |es|
        invariant diagnostics + TagsInAll(es[i..]) == old(diagnostics) + TagsInAll(es)
      {
        assert es[i..][1..] == es[i + 1..];
        CheckSquigglesInExpr(es[i]);
      }
      assert es[|es|..] == [];
    }

    method RegisterActor(decl: TopLevel)
      requires decl.ActorDeclaration?
      modifies this
      ensures State() == Register(old(State()), decl)
    {
      if decl.name in actors && actors[decl.name].Healthy? {
        Report(DuplicateActor(decl.name));
        return;
      }
      var kind := KindByName(decl.actorType);
      if kind.None? {
        Report(UnknownActorType(decl.actorType));
        actors := actors[decl.name := Errored];
        return;
      }
      CheckKeywordArgs(decl.keyword, ConstructorKeywords(kind.value));
      CheckSquigglesInKeywords(decl.keyword);
      var vars := CollectVars(decl.vars);
      actors := actors[decl.name := Healthy(kind.value, InitialMode(kind.value), vars)];
    }

    method CollectVars(declared: seq<VarDeclaration>) returns (vars: VarTypes)
      modifies this`diagnostics
      ensures vars == DeclaredTypes(declared)
      ensures diagnostics == old(diagnostics) + DefaultTags(declared)
    {
      vars := map[];
      for i := 0 to |declared|
        invariant vars == DeclaredTypes(declared[..i])
        invariant diagnostics == old(diagnostics) + DefaultTags(declared[..i])
      {
        assert declared[..i + 1][..i] == declared[..i];
        vars := vars[declared[i].name := DeclaredType(declared[i])];
        if declared[i].default.Some? {
          CheckSquigglesInExpr(declared[i].default.value);
        }
      }
      assert declared[..|declared|] == declared;
    }

    /** Checks one command and returns the window it opens; the transition is not applied yet. */
    method CheckCommandOf(actor: string, st: Statement) returns (window: Window)
      requires State().Knows(actor) && st.Command?
      modifies this`diagnostics
      ensures window == CheckCommand(actors[actor], st).window
      ensures diagnostics == old(diagnostics) + CheckCommand(actors[actor], st).diagnostics
    {
      var entry := actors[actor];
      var resolved := Resolve(entry.kind, st.name, st.positional);
      if resolved.None? {
        Report(UnknownCommand(st.name));
        return NO_COMMAND;
      }
      var cmd := resolved.value.cmd;
      if entry.mode !in ValidModes(cmd) {
        Report(CommandNotValidInMode(cmd, entry.mode));
        return NO_COMMAND;
      }
      window := Window(ImpliedOk, TransitionsTo(cmd), OkFields(entry.kind, cmd), ErrorTypes(entry.kind, cmd));
      CheckArguments(st.positional[resolved.value.consumed..], PositionalCount(cmd), st.keyword,
                     Keywords(entry.kind, cmd));
    }

    method CheckArguments(args: seq<Expr>, needed: nat, keyword: seq<KeywordArg>, expected: seq<KeywordDef>)
      modifies this`diagnostics
      ensures diagnostics == old(diagnostics) +
                ((if |args| < needed then [MissingRequiredArg] else [])
                 + TagsInAll(args) + KeywordIssues(keyword, expected) + TagsInKeywords(keyword))
    {
      if |args| < needed {
        Report(MissingRequiredArg);
      }
      ghost var t, k, q := TagsInAll(args), KeywordIssues(keyword, expected), TagsInKeywords(keyword);
      CheckSquigglesInAll(args);
      CheckKeywordArgs(keyword, expected);
      CheckSquigglesInKeywords(keyword);
      Regroup(old(diagnostics), if |args| < needed then [MissingRequiredArg] else [], t, k, q);
    }

    /** Walks one block, holding each command's transition back until its window closes. */
    method CheckAsBlock(actor: string, body: seq<Statement>)
      modifies this
      ensures State() == CheckBlock(old(State()), actor, body)
    {
      if actor !in actors {
        Report(UnknownActor(actor));
        return;
      }
      if actors[actor].Errored? {
        return;
      }
      var window := NO_COMMAND;
      for i := 0 to |body|
        invariant State().Knows(actor)
        invariant Walk(State(), window) == CheckBody(old(State()), actor, body[..i])
      {
        assert body[..i + 1][..i] == body[..i];
        window := CheckStatementOf(actor, body[i], window);
      }
      assert body[..|body|] == body;
      SettleWindow(actor, window);
    }

    method SettleWindow(actor: string, window: Window)
      modifies this`actors
      ensures actors == Settle(old(actors), window, actor)
    {
      if !window.outcome.ExplicitError? && window.pending.Some? {
        if actor in actors && actors[actor].Healthy? {
          actors := actors[actor := actors[actor].(mode := window.pending.value)];
        }
      }
    }

    method CheckStatementOf(actor: string, st: Statement, window: Window) returns (next: Window)
      requires State().Knows(actor)
      modifies this
      ensures Walk(State(), next) == CheckStatement(Walk(old(State()), window), actor, st)
    {
      match st
      case Command(_, _, _) =>
        SettleWindow(actor, window);
        next := CheckCommandOf(actor, st);
      case Let(_, _) =>
        next := CheckLet(actor, st, window);
      case Assignment(target, source) =>
        next := window;
        CheckSquigglesInExpr(target);
        CheckSquigglesInExpr(source);
        Regroup(old(diagnostics), [], TagsIn(target), TagsIn(source), []);
      case Assert(_, _, _) =>
        next := CheckAssert(st, window);
    }

    method CheckAssert(st: Statement, window: Window) returns (next: Window)
      requires st.Assert?
      modifies this`diagnostics
      ensures next == window.(outcome := Advance(window.outcome, ReferenceOf(st.left)))
      ensures diagnostics == old(diagnostics) + (Conflicts(window.outcome, ReferenceOf(st.left)) + StatementTags(st))
    {
      next := AdvanceWindow(window, ReferenceOf(st.left));
      CheckSquigglesInExpr(st.left);
      if st.right.Some? {
        CheckSquigglesInExpr(st.right.value);
      }
      Regroup(old(diagnostics), Conflicts(window.outcome, ReferenceOf(st.left)), TagsIn(st.left),
              if st.right.Some? then TagsIn(st.right.value) else [], []);
    }

    method CheckLet(actor: string, st: Statement, window: Window) returns (next: Window)
      requires State().Knows(actor) && st.Let?
      modifies this
      ensures Walk(State(), next) == CheckStatement(Walk(old(State()), window), actor, st)
    {
      next := AdvanceWindow(window, StatementReference(st));
      match st.value {
        case LetExpr(e) => CheckSquigglesInExpr(e);
        case LetParse(source, _) => CheckSquigglesInExpr(source);
      }
      var entry := actors[actor];
      actors := actors[actor := entry.(vars := entry.vars[st.bound := LetType(st.value, entry.vars, next)])];
    }

    /** `advance_outcome`: the first reference commits the window, the opposite one is a conflict. */
    method AdvanceWindow(window: Window, r: Reference) returns (next: Window)
      modifies this`diagnostics
      ensures next == window.(outcome := Advance(window.outcome, r))
      ensures diagnostics == old(diagnostics) + Conflicts(window.outcome, r)
    {
      next := window;
      match (window.outcome, r)
      case (ImpliedOk, RefersToOk) => next := window.(outcome := ExplicitOk);
      case (ImpliedOk, RefersToError) => next := window.(outcome := ExplicitError);
      case (ExplicitOk, RefersToError) => Report(ConflictingOutcomeAsserts);
      case (ExplicitError, RefersToOk) => Report(ConflictingOutcomeAsserts);
      case _ =>
    }

    method RunOn(src: SourceFile)
      requires State() == Checker(map[], [])
      modifies this
      ensures State() == Validated(src)
    {
      for i := 0 to |src|
        invariant State() == RegisterAll(src[..i])
      {
        assert src[..i + 1][..i] == src[..i];
        if src[i].ActorDeclaration? {
          RegisterActor(src[i]);
        }
      }
      assert src[..|src|] == src;
      for i := 0 to |src|
        invariant State() == CheckItems(RegisterAll(src), src[..i])
      {
        assert src[..i + 1][..i] == src[..i];
        if src[i].AsBlock? {
          CheckAsBlock(src[i].actor, src[i].body);
        }
      }
    }
  }

  method Validate(src: SourceFile) returns (diagnostics: seq<Diagnostic>)
    ensures diagnostics == Validated(src).diagnostics
  {
    var v := new Validator();
    v.RunOn(src);
    diagnostics := v.diagnostics;
  }
}
