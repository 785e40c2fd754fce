/** Programs the validator accepts never stop on a squiggle's name or declared type. */
module SquiggleProgress {
  import opened Common
  import opened Values
  import opened Ast
  import opened Registry
  import opened Evaluation
  import opened Validation
  import opened Execution
  import opened ModeSimulation

  predicate SquiggleError(e: EvalError) { e.UnknownSquiggle? || e.SquiggleTypeMismatch? }

  predicate Sound<T>(r: Result<T, EvalError>) { r.Err? ==> !SquiggleError(r.error) }

  /** Every registered squiggle produces a value of the type it declares. */
  lemma SquigglesKeepTheirType(tag: string, rendered: string, lib: Library)
    requires SquiggleType(tag).Some?
    ensures var v := ApplySquiggle(tag, rendered, lib);
            Sound(v) && (v.Ok? ==> IsOfType(v.value, SquiggleType(tag).value))
  {
  }

  lemma IndexIntoSound(container: Value, index: Value)
    ensures Sound(IndexInto(container, index))
  {
  }

  // ── Expressions, at any nesting ─────────────────────────────────────────────

  lemma {:induction false} ExprSound(e: Expr, scope: Scope, lib: Library)
    requires TagsIn(e) == []
    ensures Sound(Eval(e, scope, lib))
    decreases e, 1
  {
    hide IndexInto, ApplySquiggle, RenderValue, SquiggleType, IsOfType, Get;
    match e
    case StringLit(fragments) => FragmentsSound(fragments, scope, lib);
    case Squiggle(tag, fragments) =>
      FragmentsSound(fragments, scope, lib);
      var r := Render(fragments, scope, lib);
      if r.Ok? && SquiggleType(tag).Some? {
        SquigglesKeepTheirType(tag, r.value, lib);
      }
    case ArrayLit(items) => AllSound(items, scope, lib);
    case Member(receiver, _) => ExprSound(receiver, scope, lib);
    case Index(receiver, indices) =>
      ExprSound(receiver, scope, lib);
      var o := Eval(receiver, scope, lib);
      if o.Ok? {
        IndicesSound(o.value, indices, scope, lib);
      }
    case _ =>
  }

  lemma {:induction false} AllSound(es: seq<Expr>, scope: Scope, lib: Library)
    requires TagsInAll(es) == []
    ensures Sound(EvalAll(es, scope, lib))
    decreases es, 0
  {
    if es != [] {
      ExprSound(es[0], scope, lib);
      AllSound(es[1..], scope, lib);
    }
  }

  lemma {:induction false} IndicesSound(v: Value, indices: seq<Expr>, scope: Scope, lib: Library)
    requires TagsInAll(indices) == []
    ensures Sound(IndexAll(v, indices, scope, lib))
    decreases indices, 0
  {
    hide IndexInto;
    if indices != [] {
      ExprSound(indices[0], scope, lib);
      var i := Eval(indices[0], scope, lib);
      if i.Ok? {
        IndexIntoSound(v, i.value);
        var next := IndexInto(v, i.value);
        if next.Ok? {
          IndicesSound(next.value, indices[1..], scope, lib);
        }
      }
    }
  }

  lemma {:induction false} FragmentsSound(fragments: seq<Fragment>, scope: Scope, lib: Library)
    requires TagsInFragments(fragments) == []
    ensures Sound(Render(fragments, scope, lib))
    decreases fragments, 0
  {
    if fragments != [] {
      FragmentSound(fragments[0], scope, lib);
      FragmentsSound(fragments[1..], scope, lib);
    }
  }

  lemma {:induction false} FragmentSound(f: Fragment, scope: Scope, lib: Library)
    requires TagsInFragment(f) == []
    ensures Sound(RenderOne(f, scope, lib))
    decreases f, 0
  {
    match f
    case Text(_) =>
    case Interpolation(e) => ExprSound(e, scope, lib);
  }

  lemma {:induction false} EntriesSound(entries: seq<MapEntry>, scope: Scope, lib: Library)
    requires TagsInEntries(entries) == []
    ensures Sound(EvalEntries(entries, scope, lib))
  {
    hide Eval, TagsIn, Insert;
    if entries != [] {
      var last := entries[|entries| - 1];
      EntriesSound(entries[..|entries| - 1], scope, lib);
      ExprSound(last.key, scope, lib);
      ExprSound(last.value, scope, lib);
    }
  }

  lemma {:induction false} KeywordsSound(kws: seq<KeywordArg>, scope: Scope, lib: Library)
    requires TagsInKeywords(kws) == []
    ensures Sound(EvalKeywords(kws, scope, lib))
  {
    hide Eval, TagsIn, Insert, EvalEntries, TagsInEntries;
    if kws != [] {
      KeywordsSound(kws[..|kws| - 1], scope, lib);
      match kws[|kws| - 1].value
      case ExprValue(e) => ExprSound(e, scope, lib);
      case MapValue(entries) => EntriesSound(entries, scope, lib);
    }
  }

  lemma {:induction false} DefaultsSound(vars: seq<VarDeclaration>, lib: Library)
    requires DefaultTags(vars) == []
    ensures Sound(EvalVars(vars, lib))
  {
    hide Eval, TagsIn;
    if vars != [] {
      DefaultsSound(vars[..|vars| - 1], lib);
      if vars[|vars| - 1].default.Some? {
        ExprSound(vars[|vars| - 1].default.value, map[], lib);
      }
    }
  }

  // ── Statements and blocks ───────────────────────────────────────────────────

  predicate SquiggleFailure(f: Option<Failure>) {
    && f.Some?
    && (|| (f.value.EvalFailure? && SquiggleError(f.value.error))
        || (f.value.ConstructFailure? && f.value.cause.BadExpression? && SquiggleError(f.value.cause.error)))
  }

  lemma CleanArguments(walk: Walk, actor: string, st: Statement)
    requires walk.checker.Knows(actor) && st.Command? && CheckStatement(walk, actor, st).checker.diagnostics == []
    ensures var resolved := Resolve(walk.checker.actors[actor].kind, st.name, st.positional);
            && resolved.Some? && TagsInAll(st.positional[resolved.value.consumed..]) == []
            && TagsInKeywords(st.keyword) == []
  {
    hide Resolve, TagsInAll, TagsInKeywords, KeywordIssues, Keywords, OkFields, ErrorTypes;
  }

  lemma CleanStatement(walk: Walk, actor: string, st: Statement)
    requires walk.checker.Knows(actor) && !st.Command? && CheckStatement(walk, actor, st).checker.diagnostics == []
    ensures StatementTags(st) == []
  {
    hide StatementTags, LetType, StatementReference, Conflicts, Advance;
  }

  lemma CommandSound(r: Progress, at: nat, st: Statement, expects: bool, world: World)
    requires at < |r.session.live| && st.Command?
    requires var resolved := Resolve(r.session.live[at].kind, st.name, st.positional);
             && resolved.Some? && TagsInAll(st.positional[resolved.value.consumed..]) == []
             && TagsInKeywords(st.keyword) == []
    ensures !SquiggleFailure(RunCommand(r, at, st, expects, world).failure)
  {
    hide Resolve, Dispatch, TagsInAll, TagsInKeywords, EvalAll, EvalKeywords;
    var scope := r.scope - {"ok", "error"};
    var consumed := Resolve(r.session.live[at].kind, st.name, st.positional).value.consumed;
    AllSound(st.positional[consumed..], scope, world.lib);
    KeywordsSound(st.keyword, scope, world.lib);
  }

  lemma AssertSound(st: Statement, scope: Scope, lib: Library)
    requires st.Assert? && StatementTags(st) == []
    ensures Sound(EvalAssert(st, scope, lib))
  {
    hide Eval, TagsIn;
    ExprSound(st.left, scope, lib);
    if st.right.Some? {
      ExprSound(st.right.value, scope, lib);
    }
  }

  lemma StatementSound(walk: Walk, r: Progress, at: nat, body: seq<Statement>, i: nat, world: World)
    requires at < |r.session.live| && i < |body| && r.failure.None? && walk.checker.Knows(r.session.live[at].name)
    requires walk.checker.actors[r.session.live[at].name].kind == r.session.live[at].kind
    requires CheckStatement(walk, r.session.live[at].name, body[i]).checker.diagnostics == []
    ensures !SquiggleFailure(RunStatement(r, at, body, i, world).failure)
  {
    hide CheckStatement, RunCommand, BindSelf, Eval, EvalAssert, TagsIn, Resolve, TagsInAll, TagsInKeywords,
      ErrorRefFrom;
    var name, st := r.session.live[at].name, body[i];
    var bound := r.(scope := BindSelf(r.scope, r.session.live, name));
    if st.Command? {
      CleanArguments(walk, name, st);
      CommandSound(bound, at, st, ErrorRefFrom(body, i + 1), world);
    } else {
      CleanStatement(walk, name, st);
      if st.Assert? {
        AssertSound(st, bound.scope, world.lib);
      } else if st.Let? && st.value.LetExpr? {
        ExprSound(st.value.expr, bound.scope, world.lib);
      }
    }
  }

  lemma {:induction false} BodySound(c: Checker, s: Session, at: nat, body: seq<Statement>, n: nat, world: World)
    requires at < |s.live| && n <= |body| && c.Knows(s.live[at].name)
    requires c.actors[s.live[at].name].kind == s.live[at].kind
    requires CheckBlock(c, s.live[at].name, body).diagnostics == []
    ensures !SquiggleFailure(RunBody(s, at, body, n, world).failure)
  {
    hide CheckBlock, CheckBody, CheckStatement, RunStatement, SquiggleFailure;
    if n == 0 {
      assert !SquiggleFailure(None) by { NoFailureIsFine(); }
    } else {
      BodySound(c, s, at, body, n - 1, world);
      var name, r := s.live[at].name, RunBody(s, at, body, n - 1, world);
      if r.failure.None? {
        BodyFrame(s, at, body, n - 1, world);
        CheckBodyFrame(c, name, body[..n - 1]);
        PrefixHasNoDiagnostics(c, name, body, n);
        assert body[..n - 1] + [body[n - 1]] == body[..n];
        CheckBodyStep(c, name, body[..n - 1], body[n - 1]);
        StatementSound(CheckBody(c, name, body[..n - 1]), r, at, body, n - 1, world);
      }
    }
  }

  lemma NoFailureIsFine()
    ensures !SquiggleFailure(None)
  {
  }

  // ── Whole programs ──────────────────────────────────────────────────────────

  /** The kind of a declared actor, wherever the walk stands. */
  lemma {:induction false} KindsStay(src: SourceFile, b: nat, j: nat)
    requires Accepts(src) && b <= |src| && j < |src| && src[j].ActorDeclaration?
    ensures Typed(src[j]) && CheckedTo(src, b).Knows(src[j].name)
    ensures CheckedTo(src, b).actors[src[j].name].kind == KindByName(src[j].actorType).value
    ensures DistinctDeclarations(src, |src|)
  {
    hide Accepts, CheckBlock, KindByName, Register;
    if b == 0 {
      AcceptedSoFar(src, 0);
      assert src[..0] == [] && CheckedTo(src, 0) == RegisterAll(src) && src[..|src|] == src;
      RegisteredAll(src, |src|);
      assert AsDeclared(RegisterAll(src).actors, src[j]);
    } else {
      KindsStay(src, b - 1, j);
      CheckedStep(src, b - 1);
      if src[b - 1].AsBlock? {
        CheckBlockExtends(CheckedTo(src, b - 1), src[b - 1].actor, src[b - 1].body);
      }
    }
  }

  predicate FromDeclaration(src: SourceFile, b: nat, inst: Live)
    requires b <= |src|
  {
    exists j :: 0 <= j < b && src[j].ActorDeclaration? && src[j].name == inst.name
                && KindByName(src[j].actorType) == Some(inst.kind)
  }

  lemma FromDeclarationLater(src: SourceFile, b: nat, inst: Live, after: Live)
    requires b < |src| && FromDeclaration(src, b, inst) && after.name == inst.name && after.kind == inst.kind
    ensures FromDeclaration(src, b + 1, after)
  {
    hide KindByName;
    var j :| 0 <= j < b && src[j].ActorDeclaration? && src[j].name == inst.name
             && KindByName(src[j].actorType) == Some(inst.kind);
  }

  lemma NewActorKind(s: Session, src: SourceFile, b: nat, world: World)
    requires b < |src| && src[b].ActorDeclaration? && RunItem(s, src[b], world).failure.None?
    ensures var p := RunItem(s, src[b], world).session;
            && |p.live| == |s.live| + 1 && p.live[..|s.live|] == s.live
            && FromDeclaration(src, b + 1, p.live[|s.live|])
  {
    hide KindByName, EvalKeywords, EvalVars, ArgMembers, AssignedView, Declares;
  }

  /** Each live actor has the kind its declaration names. */
  lemma {:induction false} LiveFromDeclarations(src: SourceFile, b: nat, world: World)
    requires b <= |src| && RunItems(src, b, world).failure.None?
    ensures var s := RunItems(src, b, world).session;
            forall k :: 0 <= k < |s.live| ==> FromDeclaration(src, b, s.live[k])
  {
    hide FromDeclaration, RunBody, Construct;
    if b > 0 {
      LiveFromDeclarations(src, b - 1, world);
      var s, p := RunItems(src, b - 1, world).session, RunItems(src, b, world).session;
      match src[b - 1] {
        case ActorDeclaration(_, _, _, _) => NewActorKind(s, src, b - 1, world);
        case AsBlock(actor, body) => BodyFrame(s, Find(s.live, actor).value, body, |body|, world);
      }
      forall k | 0 <= k < |s.live|
        ensures FromDeclaration(src, b, p.live[k])
      {
        if src[b - 1].ActorDeclaration? {
          assert p.live[k] == p.live[..|s.live|][k];
        }
        FromDeclarationLater(src, b - 1, s.live[k], p.live[k]);
      }
    }
  }

  lemma {:induction false} RegisterPrefix(src: SourceFile, n: nat)
    requires n <= |src| && RegisterAll(src).diagnostics == []
    ensures RegisterAll(src[..n]).diagnostics == []
    decreases |src| - n
  {
    hide Register;
    if n == |src| {
      assert src[..n] == src;
    } else {
      RegisterPrefix(src, n + 1);
      assert src[..n + 1][..n] == src[..n] && src[..n + 1][n] == src[n];
      if src[n].ActorDeclaration? {
        RegisterExtends(RegisterAll(src[..n]), src[n]);
      }
    }
  }

  lemma CleanDeclaration(c: Checker, decl: TopLevel)
    requires decl.ActorDeclaration? && Register(c, decl).diagnostics == []
    ensures TagsInKeywords(decl.keyword) == [] && DefaultTags(decl.vars) == []
  {
    hide KindByName, KeywordIssues, TagsInKeywords, DefaultTags, DeclaredTypes;
  }

  lemma {:induction false} ArgumentErrors(vars: seq<DeclaredVar>, cli: map<string, string>, lib: Library)
    ensures var members := ArgMembers(vars, cli, lib); members.Err? ==> members.error.BadArgument?
  {
    hide ArgValue;
    if vars != [] {
      ArgumentErrors(vars[..|vars| - 1], cli, lib);
    }
  }

  lemma DeclarationSound(s: Session, src: SourceFile, b: nat, world: World)
    requires Accepts(src) && b < |src| && src[b].ActorDeclaration?
    ensures !SquiggleFailure(RunItem(s, src[b], world).failure)
  {
    hide Register, Accepts, KindByName, EvalKeywords, EvalVars, ArgMembers, AssignedView, Declares, TagsInKeywords,
      DefaultTags, CheckItems;
    AcceptedSoFar(src, 0);
    assert src[..0] == [];
    assert CheckedTo(src, 0) == RegisterAll(src) by { NoItemsChecked(src); }
    RegisterPrefix(src, b + 1);
    assert src[..b + 1][..b] == src[..b] && src[..b + 1][b] == src[b];
    CleanDeclaration(RegisterAll(src[..b]), src[b]);
    KeywordsSound(src[b].keyword, map[], world.lib);
    DefaultsSound(src[b].vars, world.lib);
    var vars := EvalVars(src[b].vars, world.lib);
    if vars.Ok? {
      ArgumentErrors(vars.value, world.cli, world.lib);
    }
  }

  lemma NoItemsChecked(src: SourceFile)
    ensures CheckedTo(src, 0) == RegisterAll(src)
  {
    hide RegisterAll, CheckBlock;
    assert src[..0] == [];
  }

  lemma {:induction false} BlockSound(src: SourceFile, b: nat, world: World)
    requires Accepts(src) && b < |src| && src[b].AsBlock? && RunItems(src, b, world).failure.None?
    ensures !SquiggleFailure(RunItem(RunItems(src, b, world).session, src[b], world).failure)
  {
    hide Accepts, CheckBlock, RunItems, RunBody, RegisterAll, CheckItems, KindByName;
    var s, c, actor, body := RunItems(src, b, world).session, CheckedTo(src, b), src[b].actor, src[b].body;
    if Find(s.live, actor).Some? {
      var at := Find(s.live, actor).value;
      LiveFromDeclarations(src, b, world);
      assert FromDeclaration(src, b, s.live[at]);
      var j :| 0 <= j < b && src[j].ActorDeclaration? && src[j].name == s.live[at].name
               && KindByName(src[j].actorType) == Some(s.live[at].kind);
      KindsStay(src, b, j);
      AcceptedSoFar(src, b + 1);
      CheckedStep(src, b);
      BodySound(c, s, at, body, |body|, world);
    }
  }

  /** Squiggle progress: no run of an accepted program fails with an unknown squiggle or with a
      squiggle that breaks its declared type, whatever the actors and the command line do. */
  lemma {:induction false} NoSquiggleFailure(src: SourceFile, n: nat, world: World)
    requires Accepts(src) && n <= |src|
    ensures !SquiggleFailure(RunItems(src, n, world).failure)
  {
    hide RunItem, Accepts;
    if n > 0 {
      NoSquiggleFailure(src, n - 1, world);
      var r := RunItems(src, n - 1, world);
      if r.failure.None? {
        if src[n - 1].ActorDeclaration? {
          DeclarationSound(r.session, src, n - 1, world);
        } else {
          BlockSound(src, n - 1, world);
        }
      }
    }
  }
}
