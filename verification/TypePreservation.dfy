/** The types the validator gives to expressions are inhabited by the values a run computes. */
module TypePreservation {
  import opened Common
  import opened Values
  import opened Ast
  import opened Registry
  import opened Evaluation
  import opened Validation
  import opened Execution
  import opened ModeSimulation

  // ── Assumptions ─────────────────────────────────────────────────────────────

  const RESERVED := {"ok", "error", "self"}

  /** The names a program introduces, by role. */
  datatype Names = Names(lets: set<string>, vars: set<string>, actors: set<string>) {
    predicate Disjoint() {
      && lets !! vars && lets !! actors && vars !! actors
      && lets !! RESERVED && vars !! RESERVED && actors !! RESERVED
    }
  }

  /** What matters to one actor: the lets of its own blocks, its own variables, and all actors' names. */
  function NamesOf(src: SourceFile, actor: string): Names {
    Names(
      set b, i | 0 <= b < |src| && src[b].AsBlock? && src[b].actor == actor
                 && 0 <= i < |src[b].body| && src[b].body[i].Let? :: src[b].body[i].bound,
      set b, i | 0 <= b < |src| && src[b].ActorDeclaration? && src[b].name == actor
                 && 0 <= i < |src[b].vars| :: src[b].vars[i].name,
      set b | 0 <= b < |src| && src[b].ActorDeclaration? :: src[b].name)
  }

  predicate FieldsMatch(d: Dict, fields: seq<OutcomeField>, name: string) {
    FieldType(fields, name).Some? && Get(d, name).Some? ==> IsOfType(Get(d, name).value, FieldType(fields, name).value)
  }

  ghost predicate AllFieldsMatch(d: Dict, fields: seq<OutcomeField>) {
    forall name :: FieldsMatch(d, fields, name)
  }

  ghost predicate ErrorMatches(variant: string, d: Dict, types: seq<ErrorType>) {
    && variant != "type"
    && (Variant(types, variant).Some? ==> AllFieldsMatch(d, Variant(types, variant).value.fields))
  }

  ghost predicate ResponseMatches(r: Response, kind: ActorKind, cmd: Cmd) {
    match r
    case Succeeds(d) => AllFieldsMatch(d, OkFields(kind, cmd))
    case Fails(variant, d) => ErrorMatches(variant, d, ErrorTypes(kind, cmd))
  }

  /** Every command answers with the fields it declares. */
  ghost predicate OutcomesMatch(world: World) {
    forall n, kind, cmd :: ResponseMatches(world.respond(n, kind, cmd), kind, cmd)
  }

  ghost predicate OutcomeMatches(o: RunOutcome, kind: ActorKind, cmd: Cmd) {
    match o
    case OkOutcome(d) => AllFieldsMatch(d, OkFields(kind, cmd))
    case ErrorOutcome(variant, d) => ErrorMatches(variant, d, ErrorTypes(kind, cmd))
    case NotImplemented => true
  }

  lemma EmptyMatches(fields: seq<OutcomeField>)
    ensures AllFieldsMatch([], fields)
  {
  }

  lemma ReasonMatches(atom: string)
    ensures AllFieldsMatch(Reason(atom), [OutcomeField("reason", AtomT)])
  {
    var d, fields := Reason(atom), [OutcomeField("reason", AtomT)];
    assert d[1..] == [] && fields[1..] == [];
    forall name
      ensures FieldsMatch(d, fields, name)
    {
      if name != "reason" {
        assert Get(d[1..], name) == None;
      }
    }
  }

  lemma ContainerErrorTyped(cmd: Cmd, atom: string)
    requires cmd.Run? || cmd.Stop?
    ensures ErrorMatches("container", Reason(atom), ErrorTypes(Container, cmd))
  {
    ReasonMatches(atom);
    hide AllFieldsMatch;
    assert Variant(ErrorTypes(Container, cmd), "container") == Some(CONTAINER);
  }

  lemma ExecErrorTyped(atom: string)
    ensures ErrorMatches("exec", Reason(atom), ErrorTypes(Exec, Run))
  {
    ReasonMatches(atom);
    hide AllFieldsMatch;
    assert Variant(ErrorTypes(Exec, Run), "exec") == Some(ErrorType("exec", [OutcomeField("reason", AtomT)]));
  }

  lemma DispatchTyped(kind: ActorKind, mode: Mode, cmd: Cmd, r: Response)
    requires ResponseMatches(r, kind, cmd)
    ensures OutcomeMatches(Dispatch(kind, mode, cmd, r).outcome, kind, cmd)
  {
    hide AllFieldsMatch, OkFields, ErrorMatches, ErrorTypes;
    EmptyMatches(OkFields(kind, cmd));
    ExecErrorTyped("already_running");
    if cmd.Run? || cmd.Stop? {
      ContainerErrorTyped(cmd, "not_running");
      ContainerErrorTyped(cmd, "already_running");
    }
  }

  // ── What the scope holds ────────────────────────────────────────────────────

  ghost predicate ErrorValue(v: Value, types: seq<ErrorType>) {
    exists variant, d :: v == DictV(ErrorDict(variant, d)) && ErrorMatches(variant, d, types)
  }

  predicate ViewTyped(view: Option<Dict>, vars: VarTypes, declared: set<string>, name: string) {
    view.Some? && Get(view.value, name).Some? ==>
      name in declared && name in vars && IsOfType(Get(view.value, name).value, vars[name])
  }

  /** Before a statement: lets hold values of their types, `ok` and `error` hold what the last command
      declares, and the actor's own view holds values of its variables' types. */
  ghost predicate ScopeTyped(scope: Scope, vars: VarTypes, w: Window, view: Option<Dict>, names: Names) {
    && vars.Keys <= names.lets + names.vars
    && (forall x :: x in scope && x !in RESERVED && x !in names.actors ==> x in vars && IsOfType(scope[x], vars[x]))
    && ("ok" in scope ==> scope["ok"].DictV? && AllFieldsMatch(scope["ok"].fields, w.okFields))
    && ("error" in scope ==> ErrorValue(scope["error"], w.errorTypes))
    && (forall p :: ViewTyped(view, vars, names.vars, p))
  }

  /** The same after the refresh that precedes evaluation, when `self` is bound to the view. */
  ghost predicate BoundTyped(bound: Scope, vars: VarTypes, w: Window, view: Option<Dict>, names: Names) {
    && ScopeTyped(bound, vars, w, view, names)
    && ("self" in bound ==> view.Some? && bound["self"] == DictV(view.value))
  }

  predicate ActorsNamed(live: seq<Live>, names: Names) { forall k :: 0 <= k < |live| ==> live[k].name in names.actors }

  lemma {:induction false} BindViewsTouchesActors(scope: Scope, live: seq<Live>, names: Names, x: string)
    requires ActorsNamed(live, names) && x !in names.actors
    ensures x in BindViews(scope, live) <==> x in scope
    ensures x in scope ==> BindViews(scope, live)[x] == scope[x]
  {
    if live != [] {
      BindViewsTouchesActors(scope, live[..|live| - 1], names, x);
    }
  }

  lemma RefreshKeepsTypes(scope: Scope, live: seq<Live>, at: nat, vars: VarTypes, w: Window, names: Names)
    requires at < |live| && ActorsNamed(live, names) && names.Disjoint()
    requires Find(live, live[at].name) == Some(at)
    requires ScopeTyped(scope, vars, w, live[at].view, names)
    ensures BoundTyped(BindSelf(scope, live, live[at].name), vars, w, live[at].view, names)
  {
    var bound := BindSelf(scope, live, live[at].name);
    forall x | x !in names.actors && x != "self"
      ensures x in bound <==> x in scope
      ensures x in scope ==> bound[x] == scope[x]
    {
      BindViewsTouchesActors(scope, live, names, x);
    }
    hide BindViews, AllFieldsMatch, ErrorValue, ViewTyped, IsOfType;
    assert "ok" in RESERVED && "error" in RESERVED && "self" in RESERVED;
  }

  // ── Every expression inhabits its type ──────────────────────────────────────

  lemma LiteralTyped(e: Expr, scope: Scope, lib: Library)
    requires Eval(e, scope, lib).Ok?
    ensures IsOfType(Eval(e, scope, lib).value, ExprType(e))
  {
    hide Render, EvalAll, IndexAll, ApplySquiggle, SquiggleType;
  }

  lemma ErrorChainTyped(v: Value, types: seq<ErrorType>, variant: string, field: string, scope: Scope, lib: Library)
    requires ErrorValue(v, types) && "error" in scope && scope["error"] == v
    ensures var r := Eval(Member(Ident("error"), "type"), scope, lib); r.Ok? ==> r.value.AtomV?
    ensures var r := Eval(Member(Member(Ident("error"), variant), field), scope, lib);
            r.Ok? && Variant(types, variant).Some? && FieldType(Variant(types, variant).value.fields, field).Some? ==>
              IsOfType(r.value, FieldType(Variant(types, variant).value.fields, field).value)
  {
    var actual, d :| v == DictV(ErrorDict(actual, d)) && ErrorMatches(actual, d, types);
    var typeOnly := Insert([], "type", AtomV(actual));
    GetInsert(typeOnly, actual, DictV(d), "type");
    GetInsert(typeOnly, actual, DictV(d), variant);
    GetInsert([], "type", AtomV(actual), "type");
    GetInsert([], "type", AtomV(actual), variant);
    if Variant(types, variant).Some? && variant == actual {
      assert FieldsMatch(d, Variant(types, actual).value.fields, field);
    }
    hide Insert, Get, IsOfType, FieldType, Variant;
  }

  lemma MemberTyped(e: Expr, bound: Scope, vars: VarTypes, w: Window, view: Option<Dict>, names: Names, lib: Library)
    requires names.Disjoint() && BoundTyped(bound, vars, w, view, names) && e.Member? && Eval(e, bound, lib).Ok?
    ensures IsOfType(Eval(e, bound, lib).value, ExprTypeInActor(e, vars, w))
  {
    hide Get, FieldType, Variant, Insert;
    match e
    case Member(Ident(root), property) =>
      assert Eval(e.receiver, bound, lib).Ok? && root in bound;
      if root == "self" {
        assert ViewTyped(view, vars, names.vars, property);
      } else if root == "ok" {
        assert FieldsMatch(bound["ok"].fields, w.okFields, property);
      } else if root == "error" {
        ErrorChainTyped(bound["error"], w.errorTypes, "", "", bound, lib);
      }
    case Member(Member(Ident(root), variant), property) =>
      if root == "error" && OutcomeChainType(e, w).Some? {
        assert Eval(Ident(root), bound, lib).Ok?;
        ErrorChainTyped(bound["error"], w.errorTypes, variant, property, bound, lib);
      }
    case _ =>
  }

  lemma ExpressionTyped(e: Expr, bound: Scope, vars: VarTypes, w: Window, view: Option<Dict>, names: Names,
                        lib: Library)
    requires names.Disjoint() && BoundTyped(bound, vars, w, view, names) && Eval(e, bound, lib).Ok?
    ensures IsOfType(Eval(e, bound, lib).value, ExprTypeInActor(e, vars, w))
  {
    if e.Member? {
      MemberTyped(e, bound, vars, w, view, names, lib);
    } else if e.Ident? {
      hide AllFieldsMatch, ErrorValue, ViewTyped;
    } else {
      LiteralTyped(e, bound, lib);
    }
  }

  // ── Through a block ─────────────────────────────────────────────────────────

  /** The typing state of validator and harness before statement `n`. */
  ghost predicate StepTyped(walk: Walk, r: Progress, at: nat, names: Names) {
    && at < |r.session.live| && ActorsNamed(r.session.live, names)
    && var inst := r.session.live[at];
    && Find(r.session.live, inst.name) == Some(at)
    && walk.checker.Knows(inst.name) && walk.checker.actors[inst.name].kind == inst.kind
    && ScopeTyped(r.scope, walk.checker.actors[inst.name].vars, walk.window, inst.view, names)
  }

  lemma SameNamesSameFind(before: seq<Live>, after: seq<Live>, at: nat, name: string)
    requires SameActors(before, after, at)
    ensures Find(after, name) == Find(before, name)
  {
    hide Find;
    var x, y := Find(before, name), Find(after, name);
    FirstOfName(before, name);
    FirstOfName(after, name);
  }

  lemma {:induction false} FirstOfName(live: seq<Live>, name: string)
    ensures Find(live, name).Some? ==>
              forall i :: 0 <= i < Find(live, name).value ==> live[i].name != name
  {
    if live != [] && live[0].name != name {
      FirstOfName(live[1..], name);
      assert forall i :: 0 < i < |live| ==> live[i] == live[1..][i - 1];
    }
  }

  lemma CommandScopeTyped(s: Session, scope: Scope, at: nat, cmd: Cmd, expects: bool, world: World, vars: VarTypes,
                          w: Window, names: Names)
    requires at < |s.live| && OutcomesMatch(world)
    requires vars.Keys <= names.lets + names.vars && "ok" !in scope && "error" !in scope
    requires forall x :: x in scope && x !in RESERVED && x !in names.actors ==> x in vars && IsOfType(scope[x], vars[x])
    requires forall p :: ViewTyped(s.live[at].view, vars, names.vars, p)
    requires w.okFields == OkFields(s.live[at].kind, cmd) && w.errorTypes == ErrorTypes(s.live[at].kind, cmd)
    ensures ScopeTyped(Carry(s, scope, at, cmd, expects, world).scope, vars, w, s.live[at].view, names)
  {
    var inst := s.live[at];
    var r := world.respond(|s.log|, inst.kind, cmd);
    assert ResponseMatches(r, inst.kind, cmd);
    DispatchTyped(inst.kind, inst.mode, cmd, r);
    hide Dispatch, AllFieldsMatch, OkFields, ErrorTypes, ErrorDict, ViewTyped, IsOfType, ErrorMatches;
    assert "ok" in RESERVED && "error" in RESERVED;
  }

  lemma CleanCommandWindow(walk: Walk, actor: string, st: Statement)
    requires walk.checker.Knows(actor) && st.Command? && CheckStatement(walk, actor, st).checker.diagnostics == []
    ensures var next := CheckStatement(walk, actor, st);
            var entry := walk.checker.actors[actor];
            var resolved := Resolve(entry.kind, st.name, st.positional);
            && resolved.Some? && next.checker.Knows(actor)
            && next.checker.actors[actor].kind == entry.kind && next.checker.actors[actor].vars == entry.vars
            && next.window.okFields == OkFields(entry.kind, resolved.value.cmd)
            && next.window.errorTypes == ErrorTypes(entry.kind, resolved.value.cmd)
  {
    hide Resolve, TagsInAll, TagsInKeywords, KeywordIssues, Keywords, OkFields, ErrorTypes;
  }

  lemma CommandIsCarried(r: Progress, at: nat, body: seq<Statement>, n: nat, world: World)
    requires at < |r.session.live| && n < |body| && body[n].Command?
    requires RunStatement(r, at, body, n, world).failure.None?
    ensures var inst := r.session.live[at];
            var scope := BindSelf(r.scope, r.session.live, inst.name) - {"ok", "error"};
            var resolved := Resolve(inst.kind, body[n].name, body[n].positional);
            resolved.Some? && RunStatement(r, at, body, n, world) ==
              Carry(r.session, scope, at, resolved.value.cmd, ErrorRefFrom(body, n + 1), world)
  {
    hide Resolve, BindSelf, ArgsError, Carry, ErrorRefFrom;
  }

  lemma CommandKeepsTypes(walk: Walk, r: Progress, at: nat, body: seq<Statement>, n: nat, world: World, names: Names)
    requires StepTyped(walk, r, at, names) && names.Disjoint() && OutcomesMatch(world)
    requires n < |body| && body[n].Command? && r.failure.None? && RunStatement(r, at, body, n, world).failure.None?
    requires CheckStatement(walk, r.session.live[at].name, body[n]).checker.diagnostics == []
    ensures StepTyped(CheckStatement(walk, r.session.live[at].name, body[n]), RunStatement(r, at, body, n, world),
                      at, names)
  {
    hide Find, Carry, BindSelf, ViewTyped, IsOfType, ErrorValue, AllFieldsMatch, OkFields, ErrorTypes, Resolve,
      OutcomesMatch, ErrorRefFrom, CheckStatement, RunStatement;
    var inst := r.session.live[at];
    StatementFrame(r, at, body, n, world);
    SameNamesSameFind(r.session.live, RunStatement(r, at, body, n, world).session.live, at, inst.name);
    RefreshKeepsTypes(r.scope, r.session.live, at, walk.checker.actors[inst.name].vars, walk.window, names);
    CleanCommandWindow(walk, inst.name, body[n]);
    CommandIsCarried(r, at, body, n, world);
    var scope := BindSelf(r.scope, r.session.live, inst.name) - {"ok", "error"};
    var resolved := Resolve(inst.kind, body[n].name, body[n].positional);
    CommandScopeTyped(r.session, scope, at, resolved.value.cmd, ErrorRefFrom(body, n + 1), world,
                      walk.checker.actors[inst.name].vars, CheckStatement(walk, inst.name, body[n]).window, names);
  }

  lemma LetScopeTyped(bound: Scope, vars: VarTypes, w: Window, view: Option<Dict>, names: Names, x: string, v: Value,
                      ty: ValueType)
    requires names.Disjoint() && BoundTyped(bound, vars, w, view, names) && x in names.lets && IsOfType(v, ty)
    ensures ScopeTyped(bound[x := v], vars[x := ty], w, view, names)
  {
    hide IsOfType, ErrorValue, AllFieldsMatch;
    assert x !in RESERVED && "ok" in RESERVED && "error" in RESERVED;
    var vars' := vars[x := ty];
    forall p
      ensures ViewTyped(view, vars', names.vars, p)
    {
      assert ViewTyped(view, vars, names.vars, p);
    }
  }

  /** A statement that is not a command and did not fail, seen from both sides. */
  lemma QuietStep(walk: Walk, r: Progress, at: nat, body: seq<Statement>, n: nat, world: World)
    requires at < |r.session.live| && walk.checker.Knows(r.session.live[at].name)
    requires n < |body| && !body[n].Command? && r.failure.None? && RunStatement(r, at, body, n, world).failure.None?
    ensures var name, st := r.session.live[at].name, body[n];
            var bound := BindSelf(r.scope, r.session.live, name);
            var next, p := CheckStatement(walk, name, st), RunStatement(r, at, body, n, world);
            var entry := walk.checker.actors[name];
            && p.session == r.session && next.checker.Knows(name) && next.checker.actors[name].kind == entry.kind
            && next.window.okFields == walk.window.okFields && next.window.errorTypes == walk.window.errorTypes
            && (st.Let? ==>
                  && st.value.LetExpr? && Eval(st.value.expr, bound, world.lib).Ok?
                  && p.scope == bound[st.bound := Eval(st.value.expr, bound, world.lib).value]
                  && next.checker.actors[name].vars ==
                       entry.vars[st.bound := ExprTypeInActor(st.value.expr, entry.vars, next.window)])
            && (!st.Let? ==> p.scope == bound && next.checker.actors[name].vars == entry.vars)
  {
    hide BindSelf, Eval, EvalAssert, ExprTypeInActor, StatementTags, StatementReference, Conflicts, Advance;
  }

  lemma QuietKeepsTypes(walk: Walk, r: Progress, at: nat, body: seq<Statement>, n: nat, world: World, names: Names)
    requires StepTyped(walk, r, at, names) && names.Disjoint()
    requires n < |body| && !body[n].Command? && r.failure.None? && RunStatement(r, at, body, n, world).failure.None?
    requires body[n].Let? ==> body[n].bound in names.lets
    ensures StepTyped(CheckStatement(walk, r.session.live[at].name, body[n]), RunStatement(r, at, body, n, world),
                      at, names)
  {
    hide Find, BindSelf, IsOfType, ErrorValue, AllFieldsMatch, Eval, ExprTypeInActor, RunStatement, CheckStatement,
      ViewTyped;
    var inst, st := r.session.live[at], body[n];
    var vars := walk.checker.actors[inst.name].vars;
    var bound := BindSelf(r.scope, r.session.live, inst.name);
    var w := CheckStatement(walk, inst.name, st).window;
    QuietStep(walk, r, at, body, n, world);
    RefreshKeepsTypes(r.scope, r.session.live, at, vars, walk.window, names);
    assert BoundTyped(bound, vars, w, inst.view, names);
    if st.Let? {
      ExpressionTyped(st.value.expr, bound, vars, w, inst.view, names, world.lib);
      LetScopeTyped(bound, vars, w, inst.view, names, st.bound, Eval(st.value.expr, bound, world.lib).value,
                    ExprTypeInActor(st.value.expr, vars, w));
    }
  }

  ghost predicate BlockTyped(c: Checker, s: Session, at: nat, names: Names) {
    StepTyped(Walk(c, NO_COMMAND), Progress(s, map[], None), at, names)
  }

  predicate LetsNamed(body: seq<Statement>, names: Names) {
    forall i :: 0 <= i < |body| && body[i].Let? ==> body[i].bound in names.lets
  }

  lemma {:induction false} BodyKeepsTypes(c: Checker, s: Session, at: nat, body: seq<Statement>, n: nat, world: World,
                                          names: Names)
    requires at < |s.live| && n <= |body| && c.Knows(s.live[at].name) && BlockTyped(c, s, at, names)
    requires names.Disjoint() && OutcomesMatch(world) && LetsNamed(body, names)
    requires CheckBody(c, s.live[at].name, body[..n]).checker.diagnostics == []
    requires RunBody(s, at, body, n, world).failure.None?
    ensures StepTyped(CheckBody(c, s.live[at].name, body[..n]), RunBody(s, at, body, n, world), at, names)
  {
    hide RunStatement, CheckStatement, StepTyped, CheckBody, RunBody, OutcomesMatch;
    var name := s.live[at].name;
    if n == 0 {
      assert body[..0] == [];
      BlockStart(c, s, at, body, world);
    } else {
      assert body[..n - 1] + [body[n - 1]] == body[..n];
      CheckBodyStep(c, name, body[..n - 1], body[n - 1]);
      RunBodyStep(s, at, body, n, world);
      BodyFrame(s, at, body, n - 1, world);
      BodyKeepsTypes(c, s, at, body, n - 1, world, names);
      var walk, r := CheckBody(c, name, body[..n - 1]), RunBody(s, at, body, n - 1, world);
      if body[n - 1].Command? {
        CommandKeepsTypes(walk, r, at, body, n - 1, world, names);
      } else {
        QuietKeepsTypes(walk, r, at, body, n - 1, world, names);
      }
    }
  }

  lemma BlockStart(c: Checker, s: Session, at: nat, body: seq<Statement>, world: World)
    requires at < |s.live| && c.Knows(s.live[at].name)
    ensures CheckBody(c, s.live[at].name, []) == Walk(c, NO_COMMAND)
    ensures RunBody(s, at, body, 0, world) == Progress(s, map[], None)
  {
  }

  // ── Declared variables and command-line values ──────────────────────────────

  /** Coercion keeps the shape of the default it replaces, and so its type. */
  lemma CoercionKeepsType(raw: string, target: Value, lib: Library, ty: ValueType)
    requires CoerceTo(raw, target, lib).Some? && IsOfType(target, ty)
    ensures IsOfType(CoerceTo(raw, target, lib).value, ty)
  {
  }

  predicate DefaultTyped(v: DeclaredVar, decl: VarDeclaration) {
    v.name == decl.name && (v.default.Some? ==> IsOfType(v.default.value, DeclaredType(decl)))
    && (v.default.None? ==> DeclaredType(decl) == UnknownT)
  }

  lemma {:induction false} DefaultsTyped(vars: seq<VarDeclaration>, lib: Library)
    requires EvalVars(vars, lib).Ok?
    ensures |EvalVars(vars, lib).value| == |vars|
    ensures forall i :: 0 <= i < |vars| ==> DefaultTyped(EvalVars(vars, lib).value[i], vars[i])
  {
    hide Eval, ExprType, IsOfType;
    if vars != [] {
      var last := vars[|vars| - 1];
      DefaultsTyped(vars[..|vars| - 1], lib);
      if last.default.Some? {
        LiteralTyped(last.default.value, map[], lib);
      }
      UnknownIsAny();
    }
  }

  lemma UnknownIsAny()
    ensures forall v :: IsOfType(v, UnknownT)
  {
  }

  lemma ArgTyped(v: DeclaredVar, decl: VarDeclaration, cli: map<string, string>, lib: Library)
    requires DefaultTyped(v, decl) && ArgValue(v, cli, lib).Some?
    ensures IsOfType(ArgValue(v, cli, lib).value, DeclaredType(decl))
  {
    hide DeclaredType;
    if v.name in cli && v.default.Some? {
      CoercionKeepsType(cli[v.name], v.default.value, lib, DeclaredType(decl));
    }
  }

  predicate MemberTypedAs(d: Dict, types: VarTypes, name: string) {
    Get(d, name).Some? ==> name in types && IsOfType(Get(d, name).value, types[name])
  }

  lemma {:induction false} ArgMembersTyped(vars: seq<DeclaredVar>, decls: seq<VarDeclaration>,
                                           cli: map<string, string>, lib: Library, name: string)
    requires |vars| == |decls| && (forall i :: 0 <= i < |vars| ==> DefaultTyped(vars[i], decls[i]))
    requires ArgMembers(vars, cli, lib).Ok?
    ensures MemberTypedAs(ArgMembers(vars, cli, lib).value, DeclaredTypes(decls), name)
  {
    hide IsOfType, DeclaredType, ArgValue, Insert, Get;
    if vars != [] {
      var init, last := vars[..|vars| - 1], vars[|vars| - 1];
      var declInit, declLast := decls[..|vars| - 1], decls[|vars| - 1];
      ArgMembersTyped(init, declInit, cli, lib, name);
      assert DefaultTyped(last, declLast);
      ArgTyped(last, declLast, cli, lib);
      GetInsert(ArgMembers(init, cli, lib).value, last.name, ArgValue(last, cli, lib).value, name);
    } else {
      assert Get([], name) == None by { GetEmpty(name); }
    }
  }

  lemma GetEmpty(name: string)
    ensures Get([], name) == None
  {
  }

  lemma {:induction false} GetRemove(d: Dict, key: string, name: string)
    ensures Get(Remove(d, key), name) == if name == key then None else Get(d, name)
  {
    if d != [] {
      GetRemove(d[1..], key, name);
      if d[0].key != key {
        assert Remove(d, key)[1..] == Remove(d[1..], key);
      }
    }
  }

  lemma {:induction false} AssignedViewTyped(vars: seq<DeclaredVar>, decls: seq<VarDeclaration>, name: string)
    requires |vars| == |decls| && (forall i :: 0 <= i < |vars| ==> DefaultTyped(vars[i], decls[i]))
    ensures MemberTypedAs(AssignedView(vars), DeclaredTypes(decls), name)
  {
    hide IsOfType, DeclaredType, Insert, Get, Remove;
    if vars != [] {
      var init, last := vars[..|vars| - 1], vars[|vars| - 1];
      var declInit, declLast := decls[..|vars| - 1], decls[|vars| - 1];
      AssignedViewTyped(init, declInit, name);
      assert DefaultTyped(last, declLast);
      if last.default.Some? {
        GetInsert(AssignedView(init), last.name, last.default.value, name);
      } else {
        GetRemove(AssignedView(init), last.name, name);
      }
    } else {
      assert Get([], name) == None by { GetEmpty(name); }
    }
  }

  lemma {:induction false} DeclaredTypesKeys(decls: seq<VarDeclaration>, name: string)
    ensures name in DeclaredTypes(decls) ==> exists i :: 0 <= i < |decls| && decls[i].name == name
  {
    hide DeclaredType;
    if decls != [] && name in DeclaredTypes(decls) {
      if name == decls[|decls| - 1].name {
        assert decls[|decls| - 1].name == name;
      } else {
        DeclaredTypesKeys(decls[..|decls| - 1], name);
        var i :| 0 <= i < |decls| - 1 && decls[..|decls| - 1][i].name == name;
        assert decls[i].name == name;
      }
    }
  }

  lemma NewViewTyped(decl: TopLevel, world: World, time: nat, name: string)
    requires decl.ActorDeclaration? && Construct(decl, world, time).Ok?
    ensures var view := Construct(decl, world, time).value.view;
            view.Some? ==> MemberTypedAs(view.value, DeclaredTypes(decl.vars), name)
  {
    hide KindByName, EvalKeywords, EvalVars, ArgMembers, AssignedView, DeclaredTypes, MemberTypedAs, Declares;
    DefaultsTyped(decl.vars, world.lib);
    var vars := EvalVars(decl.vars, world.lib).value;
    AssignedViewTyped(vars, decl.vars, name);
    if ArgMembers(vars, world.cli, world.lib).Ok? {
      ArgMembersTyped(vars, decl.vars, world.cli, world.lib, name);
    }
  }

  // ── Whole programs ──────────────────────────────────────────────────────────

  /** An actor's variables are named by the program and its view holds values of their types. */
  ghost predicate ActorTyped(entry: Entry, view: Option<Dict>, names: Names) {
    && entry.Healthy? && entry.vars.Keys <= names.lets + names.vars
    && (forall p :: ViewTyped(view, entry.vars, names.vars, p))
  }

  /** Of one actor, wherever it is live. */
  ghost predicate ProgramTyped(c: Checker, s: Session, actor: string, names: Names) {
    && ActorsNamed(s.live, names)
    && (forall k :: 0 <= k < |s.live| && s.live[k].name == actor ==>
          actor in c.actors && ActorTyped(c.actors[actor], s.live[k].view, names))
  }

  lemma DeclaredNames(src: SourceFile, b: nat, actor: string, name: string)
    requires b < |src| && src[b].ActorDeclaration?
    ensures src[b].name in NamesOf(src, actor).actors
    ensures src[b].name == actor && name in DeclaredTypes(src[b].vars) ==> name in NamesOf(src, actor).vars
  {
    if src[b].name == actor && name in DeclaredTypes(src[b].vars) {
      DeclaredTypesKeys(src[b].vars, name);
    }
  }

  lemma NewActorTyped(c: Checker, s: Session, src: SourceFile, b: nat, world: World)
    requires b < |src| && src[b].ActorDeclaration? && AsDeclared(c.actors, src[b])
    requires RunItem(s, src[b], world).failure.None?
    ensures var p := RunItem(s, src[b], world).session;
            && |p.live| == |s.live| + 1 && p.live[..|s.live|] == s.live && p.live[|s.live|].name == src[b].name
            && ActorTyped(c.actors[src[b].name], p.live[|s.live|].view, NamesOf(src, src[b].name))
  {
    var actor := src[b].name;
    var names, entry := NamesOf(src, actor), c.actors[actor];
    hide NamesOf, DeclaredTypes, KindByName, EvalKeywords, EvalVars, ArgMembers, AssignedView, Declares, MemberTypedAs,
      ContainerIssue, ExecIssue;
    var inst := Construct(src[b], world, |s.log|);
    forall name
      ensures name in entry.vars ==> name in names.vars
      ensures inst.Ok? && inst.value.view.Some? ==> MemberTypedAs(inst.value.view.value, entry.vars, name)
    {
      DeclaredNames(src, b, actor, name);
      if inst.Ok? {
        NewViewTyped(src[b], world, |s.log|, name);
      }
    }
    ViewFromMembers(inst.value.view, entry.vars, names.vars);
  }

  lemma ViewFromMembers(view: Option<Dict>, vars: VarTypes, declared: set<string>)
    requires forall name :: name in vars ==> name in declared
    requires view.Some? ==> forall name :: MemberTypedAs(view.value, vars, name)
    ensures forall p :: ViewTyped(view, vars, declared, p)
  {
    forall p
      ensures ViewTyped(view, vars, declared, p)
    {
      assert view.Some? ==> MemberTypedAs(view.value, vars, p);
    }
  }

  /** A block of the actor itself. */
  lemma OwnBlockKeepsTyped(c: Checker, s: Session, src: SourceFile, b: nat, world: World)
    requires b < |src| && src[b].AsBlock? && OutcomesMatch(world)
    requires var names := NamesOf(src, src[b].actor); names.Disjoint() && ProgramTyped(c, s, src[b].actor, names)
    requires ProgramInStep(c, s, src, b)
    requires CheckBlock(c, src[b].actor, src[b].body).diagnostics == [] && RunItem(s, src[b], world).failure.None?
    ensures ProgramTyped(CheckBlock(c, src[b].actor, src[b].body), RunItem(s, src[b], world).session,
                         src[b].actor, NamesOf(src, src[b].actor))
  {
    hide RunBody, CheckBody, ActorTyped, ModesMatch, Drifted, AsDeclared, DeclaredBefore, OutcomesMatch;
    var names, actor, body := NamesOf(src, src[b].actor), src[b].actor, src[b].body;
    var at := Find(s.live, actor).value;
    assert LiveMatches(c, s, at);
    BlockIsTyped(c, s, at, names);
    assert LetsNamed(body, names);
    assert body[..|body|] == body;
    BodyKeepsTypes(c, s, at, body, |body|, world, names);
    BodyFrame(s, at, body, |body|, world);
    OwnActorTyped(CheckBody(c, actor, body), RunBody(s, at, body, |body|, world), at, names);
  }

  /** A block of another actor leaves the entry and the view alone. */
  lemma OtherBlockKeepsTyped(c: Checker, s: Session, src: SourceFile, b: nat, world: World, actor: string, names: Names)
    requires b < |src| && src[b].AsBlock? && src[b].actor != actor && ProgramTyped(c, s, actor, names)
    requires RunItem(s, src[b], world).failure.None?
    ensures ProgramTyped(CheckBlock(c, src[b].actor, src[b].body), RunItem(s, src[b], world).session, actor, names)
  {
    hide RunBody, CheckBlock, ActorTyped;
    var at := Find(s.live, src[b].actor).value;
    BodyFrame(s, at, src[b].body, |src[b].body|, world);
    CheckBlockExtends(c, src[b].actor, src[b].body);
  }

  lemma BlockIsTyped(c: Checker, s: Session, at: nat, names: Names)
    requires at < |s.live| && ProgramTyped(c, s, s.live[at].name, names) && c.Knows(s.live[at].name)
    requires c.actors[s.live[at].name].kind == s.live[at].kind && Find(s.live, s.live[at].name) == Some(at)
    ensures BlockTyped(c, s, at, names)
  {
    hide ViewTyped, IsOfType, AllFieldsMatch, ErrorValue;
    assert ActorTyped(c.actors[s.live[at].name], s.live[at].view, names);
  }

  lemma OwnActorTyped(walk: Walk, r: Progress, at: nat, names: Names)
    requires StepTyped(walk, r, at, names)
    ensures var inst := r.session.live[at];
            ActorTyped(Settle(walk.checker.actors, walk.window, inst.name)[inst.name], inst.view, names)
  {
    hide ViewTyped, IsOfType, AllFieldsMatch, ErrorValue, Find;
  }

  lemma DeclarationKeepsProgramTyped(c: Checker, s: Session, src: SourceFile, b: nat, world: World, actor: string)
    requires b < |src| && src[b].ActorDeclaration? && ProgramTyped(c, s, actor, NamesOf(src, actor))
    requires ProgramInStep(c, s, src, b) && RunItem(s, src[b], world).failure.None?
    ensures ProgramTyped(c, RunItem(s, src[b], world).session, actor, NamesOf(src, actor))
  {
    hide RunItem, ActorTyped, NamesOf, LiveMatches, Drifted, DeclaredBefore;
    var p := RunItem(s, src[b], world).session;
    assert AsDeclared(c.actors, src[b]);
    NewActorTyped(c, s, src, b, world);
    DeclaredNames(src, b, actor, "");
    assert forall k :: 0 <= k < |s.live| ==> p.live[k] == p.live[..|s.live|][k];
  }

  lemma {:induction false} ProgramStaysTyped(src: SourceFile, b: nat, world: World, actor: string)
    requires Accepts(src) && NamesOf(src, actor).Disjoint() && OutcomesMatch(world)
    requires b <= |src| && RunItems(src, b, world).failure.None?
    ensures ProgramTyped(CheckedTo(src, b), RunItems(src, b, world).session, actor, NamesOf(src, actor))
  {
    hide RunItem, CheckBlock, CheckItems, RegisterAll, Accepts, NamesOf, OutcomesMatch, ProgramInStep;
    if b > 0 {
      ProgramStaysTyped(src, b - 1, world, actor);
      ProgramStaysInStep(src, b - 1, world);
      AcceptedSoFar(src, b);
      CheckedStep(src, b - 1);
      hide ProgramTyped;
      var c, s := CheckedTo(src, b - 1), RunItems(src, b - 1, world).session;
      if src[b - 1].ActorDeclaration? {
        DeclarationKeepsProgramTyped(c, s, src, b - 1, world, actor);
      } else if src[b - 1].actor == actor {
        OwnBlockKeepsTyped(c, s, src, b - 1, world);
      } else {
        OtherBlockKeepsTyped(c, s, src, b - 1, world, actor, NamesOf(src, actor));
      }
    }
  }

  lemma {:induction false} ReachedTyped(src: SourceFile, world: World, b: nat, i: nat)
    requires Accepts(src) && OutcomesMatch(world) && Reaches(src, world, b, i) && NamesOf(src, src[b].actor).Disjoint()
    ensures CheckedTo(src, b).Knows(src[b].actor)
    ensures StepTyped(Checked(src, b, i), Before(src, world, b, i), Slot(src, world, b, i),
                      NamesOf(src, src[b].actor))
    ensures Before(src, world, b, i).session.live[Slot(src, world, b, i)].name == src[b].actor
  {
    hide RunBody, RunItems, CheckBody, StepTyped, RegisterAll, CheckItems, Accepts, OutcomesMatch, Drifted, ModesMatch,
      DeclaredBefore, AsDeclared, InStep;
    ReachedInStep(src, world, b, i);
    ProgramStaysInStep(src, b, world);
    ProgramStaysTyped(src, b, world, src[b].actor);
    var c, s, body := CheckedTo(src, b), RunItems(src, b, world).session, src[b].body;
    var names := NamesOf(src, src[b].actor);
    var at := Find(s.live, src[b].actor).value;
    assert LiveMatches(c, s, at);
    BlockIsTyped(c, s, at, names);
    assert LetsNamed(body, names);
    BodyKeepsTypes(c, s, at, body, i, world, names);
  }

  /** Type preservation. In an accepted program, with actors that answer as declared, in the blocks of an
      actor whose names do not clash: wherever a run gets to, any expression that evaluates there (a `let`'s, a `self.x`,
      an `ok.f` or `error.v.f` chain, a literal or a squiggle) has a value of the type the validator
      gives it. */
  lemma {:induction false} TypesPreserved(src: SourceFile, world: World, b: nat, i: nat, e: Expr)
    requires Accepts(src) && OutcomesMatch(world) && Reaches(src, world, b, i) && NamesOf(src, src[b].actor).Disjoint()
    ensures CheckedTo(src, b).Knows(src[b].actor)
    ensures var r := Before(src, world, b, i);
            var v := Eval(e, BindSelf(r.scope, r.session.live, src[b].actor), world.lib);
            var walk := Checked(src, b, i);
            v.Ok? ==> IsOfType(v.value, ExprTypeInActor(e, walk.checker.actors[src[b].actor].vars, walk.window))
  {
    hide Accepts, Checked, Before, Slot, OutcomesMatch, NamesOf, Eval, BindSelf, IsOfType, ExprTypeInActor, ScopeTyped,
      BoundTyped, RunItems, RunBody, CheckedTo, Find;
    ReachedTyped(src, world, b, i);
    var walk, r, at := Checked(src, b, i), Before(src, world, b, i), Slot(src, world, b, i);
    var names := NamesOf(src, src[b].actor);
    var inst := r.session.live[at];
    var vars := walk.checker.actors[inst.name].vars;
    var bound := BindSelf(r.scope, r.session.live, inst.name);
    RefreshKeepsTypes(r.scope, r.session.live, at, vars, walk.window, names);
    if Eval(e, bound, world.lib).Ok? {
      ExpressionTyped(e, bound, vars, walk.window, inst.view, names, world.lib);
    }
  }

  /** In particular every variable a `let` has bound holds a value of the type recorded for it. */
  lemma {:induction false} LetsHoldTheirTypes(src: SourceFile, world: World, b: nat, i: nat, x: string)
    requires Accepts(src) && OutcomesMatch(world) && Reaches(src, world, b, i) && NamesOf(src, src[b].actor).Disjoint()
    requires x in NamesOf(src, src[b].actor).lets && x in Before(src, world, b, i).scope
    ensures CheckedTo(src, b).Knows(src[b].actor)
    ensures var vars := Checked(src, b, i).checker.actors[src[b].actor].vars;
            x in vars && IsOfType(Before(src, world, b, i).scope[x], vars[x])
  {
    hide Accepts, Checked, Before, Slot, OutcomesMatch, NamesOf, IsOfType, RunItems, RunBody, CheckedTo, Find,
      ErrorValue, AllFieldsMatch, ViewTyped;
    ReachedTyped(src, world, b, i);
  }
}
