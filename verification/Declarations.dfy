/** What an actor declaration constructs: when it succeeds, and what the new actor shows of itself. */
module Declarations {
  import opened Common
  import opened Values
  import opened Ast
  import opened Registry
  import opened Evaluation
  import opened EvaluationLaws
  import opened Execution
  import opened Validation
  import opened ModeSimulation
  import opened Statements
  import TypePreservation
  import Teardown

  // ── Defaults ────────────────────────────────────────────────────────────────

  /** Each default is its expression's value in an empty scope. */
  predicate DefaultIs(decl: VarDeclaration, v: DeclaredVar, lib: Library) {
    && v.name == decl.name
    && if decl.default.None? then v.default.None?
       else v.default.Some? && Eval(decl.default.value, map[], lib) == Ok(v.default.value)
  }

  /** The defaults are evaluated one by one, in declaration order, or one of them cannot be. */
  lemma {:induction false} DefaultsEvaluate(decls: seq<VarDeclaration>, lib: Library)
    ensures var r := EvalVars(decls, lib);
            && (r.Ok? ==> |r.value| == |decls| && forall i :: 0 <= i < |decls| ==> DefaultIs(decls[i], r.value[i], lib))
            && (r.Err? ==> exists i :: 0 <= i < |decls| && decls[i].default.Some?
                                       && Eval(decls[i].default.value, map[], lib) == Err(r.error))
  {
    hide Eval;
    if decls != [] {
      var init, last := decls[..|decls| - 1], decls[|decls| - 1];
      DefaultsEvaluate(init, lib);
      assert decls == init + [last];
      var before := EvalVars(init, lib);
      if before.Err? {
        var i :| 0 <= i < |init| && init[i].default.Some?
                 && Eval(init[i].default.value, map[], lib) == Err(before.error);
        assert decls[i] == init[i];
      } else if last.default.Some? && Eval(last.default.value, map[], lib).Err? {
        assert decls[|decls| - 1] == last;
      }
    }
  }

  /** No later variable repeats the name of the one at `i`. */
  predicate LastDeclared(vars: seq<DeclaredVar>, i: int) {
    0 <= i < |vars| && forall j :: i < j < |vars| ==> vars[j].name != vars[i].name
  }

  lemma LastDeclaredInit(vars: seq<DeclaredVar>, i: int)
    requires LastDeclared(vars, i) && i < |vars| - 1
    ensures var init := vars[..|vars| - 1];
            0 <= i < |init| && LastDeclared(init, i) && init[i] == vars[i] && vars[|vars| - 1].name != vars[i].name
  {
  }

  // ── Command-line arguments ──────────────────────────────────────────────────

  /** What a variable of an args_actor gets: without a command-line value its default; with one the value
      itself, read in the shape of the default if there is one. */
  predicate ArgIs(v: DeclaredVar, cli: map<string, string>, lib: Library, value: Value) {
    if v.name !in cli then v.default == Some(value)
    else
      var raw := cli[v.name];
      match v.default
      case None => value == StringV(raw)
      case Some(StringV(_)) => value == StringV(raw)
      case Some(NumberV(_)) => value.NumberV? && lib.parseInt(raw) == Some(value.n)
      case Some(BoolV(_)) => value.BoolV? && lib.parseBool(raw) == Some(value.b)
      case Some(AtomV(_)) =>
        value.AtomV? && (raw == [':'] + value.a || (raw == value.a && !(raw != [] && raw[0] == ':')))
      case Some(_) => false
  }

  ghost predicate HasArg(v: DeclaredVar, cli: map<string, string>, lib: Library) { exists x :: ArgIs(v, cli, lib, x) }

  lemma ArgValueIs(v: DeclaredVar, cli: map<string, string>, lib: Library)
    ensures HasArg(v, cli, lib) <==> ArgValue(v, cli, lib).Some?
    ensures forall x :: ArgIs(v, cli, lib, x) <==> ArgValue(v, cli, lib) == Some(x)
  {
    var a := ArgValue(v, cli, lib);
    if a.Some? {
      assert ArgIs(v, cli, lib, a.value);
    }
    forall x | ArgIs(v, cli, lib, x)
      ensures a == Some(x)
    {
      if v.name in cli && v.default.Some? && v.default.value.AtomV? && cli[v.name] == [':'] + x.a {
        assert cli[v.name][1..] == x.a;
      }
    }
  }

  lemma {:induction false} ArgsAssigned(vars: seq<DeclaredVar>, cli: map<string, string>, lib: Library)
    ensures var r := ArgMembers(vars, cli, lib);
            && (r.Ok? <==> forall i :: 0 <= i < |vars| ==> HasArg(vars[i], cli, lib))
            && (r.Ok? ==> forall i :: LastDeclared(vars, i) ==>
                  Get(r.value, vars[i].name).Some? && ArgIs(vars[i], cli, lib, Get(r.value, vars[i].name).value))
  {
    hide ArgIs, ArgValue, HasArg, Insert, LastDeclared;
    if vars != [] {
      var init, last := vars[..|vars| - 1], vars[|vars| - 1];
      ArgsAssigned(init, cli, lib);
      ArgValueIs(last, cli, lib);
      assert vars == init + [last];
      var before, v := ArgMembers(init, cli, lib), ArgValue(last, cli, lib);
      if before.Ok? && v.Some? {
        var after := Insert(before.value, last.name, v.value);
        forall i | LastDeclared(vars, i)
          ensures 0 <= i < |vars| && Get(after, vars[i].name).Some?
          ensures ArgIs(vars[i], cli, lib, Get(after, vars[i].name).value)
        {
          DeclaredInRange(vars, i);
          GetInsert(before.value, last.name, v.value, vars[i].name);
          if i < |vars| - 1 {
            LastDeclaredInit(vars, i);
          }
        }
      }
    }
    NothingDeclared();
  }

  lemma DeclaredInRange(vars: seq<DeclaredVar>, i: int)
    requires LastDeclared(vars, i)
    ensures 0 <= i < |vars|
  {
  }

  lemma NothingDeclared()
    ensures forall i :: !LastDeclared([], i)
  {
  }

  /** An args_actor is constructed exactly when every command-line key is declared and every variable has a
      value; each member then is what command line and default make of it. */
  lemma ArgsActorMembers(name: string, keyword: Dict, vars: seq<DeclaredVar>, world: World, time: nat)
    ensures var r := Instantiate(name, ArgsActor, keyword, vars, world, time);
            && (r.Ok? <==>
                  && (forall key <- world.cli :: exists i :: 0 <= i < |vars| && vars[i].name == key)
                  && (forall i :: 0 <= i < |vars| ==> HasArg(vars[i], world.cli, world.lib)))
            && (r.Ok? ==>
                  && r.value.name == name && r.value.kind == ArgsActor && r.value.mode == Ready && r.value.view.Some?
                  && forall i :: LastDeclared(vars, i) ==>
                       && Get(r.value.view.value, vars[i].name).Some?
                       && ArgIs(vars[i], world.cli, world.lib, Get(r.value.view.value, vars[i].name).value))
  {
    hide ArgIs, HasArg, LastDeclared, ArgMembers;
    ArgsAssigned(vars, world.cli, world.lib);
  }

  // ── Containers and processes ────────────────────────────────────────────────

  lemma {:induction false} AssignedMembers(vars: seq<DeclaredVar>, i: int)
    requires LastDeclared(vars, i)
    ensures Get(AssignedView(vars), vars[i].name) == vars[i].default
  {
    hide Insert, Remove, LastDeclared;
    DeclaredInRange(vars, i);
    var init, last := vars[..|vars| - 1], vars[|vars| - 1];
    if last.default.Some? {
      GetInsert(AssignedView(init), last.name, last.default.value, vars[i].name);
    } else {
      TypePreservation.GetRemove(AssignedView(init), last.name, vars[i].name);
    }
    if i < |vars| - 1 {
      LastDeclaredInit(vars, i);
      AssignedMembers(init, i);
    }
  }

  /** A container is constructed exactly when it has one image, pulled or built, named by a string, a port
      within 16 bits if any, and the world provides it; it starts stopped and shows its defaults. */
  lemma ContainerConstructed(name: string, keyword: Dict, vars: seq<DeclaredVar>, world: World, time: nat)
    ensures var r := Instantiate(name, Container, keyword, vars, world, time);
            var image, file, port := Get(keyword, "image"), Get(keyword, "dockerfile"), Get(keyword, "internal_port");
            && (r.Ok? <==>
                  && (image.Some? <==> file.None?)
                  && (image.Some? ==> image.value.StringV?) && (file.Some? ==> file.value.StringV?)
                  && (port.Some? ==> port.value.NumberV? && 0 <= port.value.n < 65536)
                  && world.constructs(time))
            && (r.Ok? ==>
                  && r.value.name == name && r.value.kind == Container && r.value.mode == Stopped && r.value.view.Some?
                  && forall i :: LastDeclared(vars, i) ==> Get(r.value.view.value, vars[i].name) == vars[i].default)
  {
    hide Get, LastDeclared, AssignedView;
    forall i | LastDeclared(vars, i)
      ensures 0 <= i < |vars| && Get(AssignedView(vars), vars[i].name) == vars[i].default
    {
      DeclaredInRange(vars, i);
      AssignedMembers(vars, i);
    }
  }

  /** A process needs a command, and a working directory only if one is named. */
  lemma ExecConstructed(name: string, keyword: Dict, vars: seq<DeclaredVar>, world: World, time: nat)
    ensures var r := Instantiate(name, Exec, keyword, vars, world, time);
            var command, cwd := Get(keyword, "command"), Get(keyword, "cwd");
            && (r.Ok? <==>
                  && command.Some? && command.value.StringV?
                  && (cwd.Some? ==> cwd.value.StringV? && cwd.value.s != "" && world.constructs(time)))
            && (r.Ok? ==> r.value == Live(name, Exec, Stopped, None))
  {
    hide Get;
  }

  /** A declaration adds its actor exactly when its type is known, its keywords and defaults evaluate and
      the actor can be constructed from them; otherwise nothing changes. */
  lemma DeclarationDecides(s: Session, decl: TopLevel, world: World)
    requires decl.ActorDeclaration?
    ensures var p, kind := RunItem(s, decl, world), KindByName(decl.actorType);
            var keyword, vars := EvalKeywords(decl.keyword, map[], world.lib), EvalVars(decl.vars, world.lib);
            if kind.Some? && keyword.Ok? && vars.Ok?
               && Instantiate(decl.name, kind.value, keyword.value, vars.value, world, |s.log|).Ok? then
              && p.failure.None? && p.session.log == s.log + [Constructed(decl.name)]
              && p.session.live == s.live + [Instantiate(decl.name, kind.value, keyword.value, vars.value, world,
                                                         |s.log|).value]
            else p.session == s && p.failure.Some? && p.failure.value.ConstructFailure?
                 && p.failure.value.actor == decl.name
  {
    hide Instantiate, EvalKeywords, EvalVars, KindByName;
  }

  // ── Over a run ──────────────────────────────────────────────────────────────

  predicate SameButMode(a: Live, b: Live) { a.name == b.name && a.kind == b.kind && a.view == b.view }

  /** An actor keeps its place, its kind and its view from its declaration on. */
  lemma {:induction false} ActorsStay(src: SourceFile, world: World, d: nat, b: nat)
    requires d < b <= |src| && src[d].ActorDeclaration? && RunItems(src, b, world).failure.None?
    ensures RunItems(src, d, world).failure.None? && RunItems(src, d + 1, world).failure.None?
    ensures var k, now := |RunItems(src, d, world).session.live|, RunItems(src, b, world).session.live;
            var born := RunItems(src, d + 1, world).session.live;
            k < |born| && k < |now| && SameButMode(born[k], now[k])
  {
    hide RunBody, Construct;
    if d + 1 == b {
      DeclarationDecides(RunItems(src, d, world).session, src[d], world);
    } else {
      ActorsStay(src, world, d, b - 1);
      var s := RunItems(src, b - 1, world).session;
      match src[b - 1]
      case ActorDeclaration(_, _, _, _) => DeclarationDecides(s, src[b - 1], world);
      case AsBlock(actor, body) => BodyFrame(s, Find(s.live, actor).value, body, |body|, world);
    }
  }

  /** `self` is the view the block's actor was constructed with. */
  lemma {:induction false} SelfIsDeclared(src: SourceFile, world: World, d: nat, b: nat, i: nat)
    requires Accepts(src) && Reaches(src, world, b, i) && d < b && src[d].ActorDeclaration?
    requires src[d].name == src[b].actor
    ensures RunItems(src, d, world).failure.None? && RunItems(src, d + 1, world).failure.None?
    ensures var k, born := |RunItems(src, d, world).session.live|, RunItems(src, d + 1, world).session.live;
            && k < |born| && born[k].name == src[d].name
            && Bound(Sees(Before(src, world, b, i), Slot(src, world, b, i)), "self", born[k].view)
  {
    hide RunBody, RunItems, RunItem, Accepts, CheckedTo, AsDeclared, LiveMatches, DeclaredBefore;
    ActorsStay(src, world, d, b);
    ProgramStaysInStep(src, b, world);
    SlotName(src, world, b, i);
    ItemRuns(src, world, d);
    DeclarationDecides(RunItems(src, d, world).session, src[d], world);
    var live, at := RunItems(src, b, world).session.live, Slot(src, world, b, i);
    var k := |RunItems(src, d, world).session.live|;
    DeclaredName(src, world, d);
    assert live[at].name == live[k].name == src[b].actor && at == k;
    var now := Before(src, world, b, i);
    hide Reaches, Before, Slot, Find;
    ScopeSeen(now.scope, now.session.live, at, "self");
  }

  lemma ItemRuns(src: SourceFile, world: World, d: nat)
    requires d < |src| && RunItems(src, d, world).failure.None?
    ensures RunItems(src, d + 1, world) == RunItem(RunItems(src, d, world).session, src[d], world)
  {
    hide RunItem;
  }

  lemma DeclaredName(src: SourceFile, world: World, d: nat)
    requires d < |src| && src[d].ActorDeclaration?
    requires RunItems(src, d, world).failure.None? && RunItems(src, d + 1, world).failure.None?
    ensures var k, born := |RunItems(src, d, world).session.live|, RunItems(src, d + 1, world).session.live;
            k < |born| && born[k].name == src[d].name
  {
    hide RunItems, Instantiate, EvalKeywords, EvalVars, KindByName;
    ItemRuns(src, world, d);
    DeclarationDecides(RunItems(src, d, world).session, src[d], world);
    Teardown.ConstructedName(src[d], world, |RunItems(src, d, world).session.log|);
  }

  /** The command line reaches the program: in every statement of a block of an args_actor, `self.x` is what
      command line and default make of the declared variable `x`. */
  lemma {:induction false} ArgumentsAreSeen(src: SourceFile, world: World, d: nat, b: nat, i: nat, v: nat)
    requires Accepts(src) && Reaches(src, world, b, i) && d < b && src[d].ActorDeclaration?
    requires src[d].name == src[b].actor && src[d].actorType == "args_actor" && v < |src[d].vars|
    requires forall j :: v < j < |src[d].vars| ==> src[d].vars[j].name != src[d].vars[v].name
    ensures var vars := EvalVars(src[d].vars, world.lib);
            && vars.Ok? && |vars.value| == |src[d].vars| && DefaultIs(src[d].vars[v], vars.value[v], world.lib)
            && var x := Eval(Member(Ident("self"), src[d].vars[v].name),
                             Sees(Before(src, world, b, i), Slot(src, world, b, i)), world.lib);
            && x.Ok? && ArgIs(vars.value[v], world.cli, world.lib, x.value)
  {
    hide Accepts, Before, Slot, Sees, RunItems, RunBody, RunItem, EvalVars, ArgIs, DefaultIs, Get;
    SelfIsDeclared(src, world, d, b, i);
    ItemRuns(src, world, d);
    ArgsDeclared(RunItems(src, d, world).session, src[d], world, v);
  }

  lemma ArgsDeclared(s: Session, decl: TopLevel, world: World, v: nat)
    requires decl.ActorDeclaration? && decl.actorType == "args_actor" && v < |decl.vars|
    requires forall j :: v < j < |decl.vars| ==> decl.vars[j].name != decl.vars[v].name
    requires RunItem(s, decl, world).failure.None?
    ensures var vars, live := EvalVars(decl.vars, world.lib), RunItem(s, decl, world).session.live;
            && vars.Ok? && |vars.value| == |decl.vars| && DefaultIs(decl.vars[v], vars.value[v], world.lib)
            && |live| == |s.live| + 1
            && var view := live[|s.live|].view;
            && view.Some? && Get(view.value, decl.vars[v].name).Some?
            && ArgIs(vars.value[v], world.cli, world.lib, Get(view.value, decl.vars[v].name).value)
  {
    hide RunItem, EvalVars, EvalKeywords, Instantiate, KindByName, ArgIs, HasArg;
    DeclarationDecides(s, decl, world);
    DefaultsEvaluate(decl.vars, world.lib);
    KindByNameIff(decl.actorType, ArgsActor);
    var keyword, vars := EvalKeywords(decl.keyword, map[], world.lib).value, EvalVars(decl.vars, world.lib).value;
    ArgsActorMembers(decl.name, keyword, vars, world, |s.log|);
    assert LastDeclared(vars, v) by {
      assert forall j :: 0 <= j < |vars| ==> DefaultIs(decl.vars[j], vars[j], world.lib);
    }
  }
}
