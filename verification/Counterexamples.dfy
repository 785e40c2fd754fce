/** Where validator and harness part: for each way an actor can drift an accepted program and a run
    that drifts so, the exact place where hoisted declarations stop a run, and a clash of names that
    breaks type preservation. */
module Counterexamples {
  import opened Common
  import opened Values
  import opened Ast
  import opened Registry
  import opened Evaluation
  import opened Validation
  import opened Execution
  import opened ModeSimulation
  import opened Shadowing
  import Teardown
  import QueryResults
  import TypePreservation

  function Plain(name: string): Statement { Command(name, [], []) }

  const ASSERT_ERROR := Assert(Ident("error"), None, None)

  function OneActor(name: string, actorType: string, keyword: seq<KeywordArg>, vars: seq<VarDeclaration>,
                    body: seq<Statement>): SourceFile
  {
    [ActorDeclaration(name, actorType, keyword, vars), AsBlock(name, body)]
  }

  /** A container is not built without an image. */
  const IMAGE := [KeywordArg("image", ExprValue(StringLit([Text("x")])))]

  function Started(kind: ActorKind, name: string, vars: seq<VarDeclaration>): Checker {
    Checker(map[name := Healthy(kind, InitialMode(kind), DeclaredTypes(vars))], [])
  }

  /** A program of one actor is accepted when its only block is. */
  lemma OneActorAccepted(name: string, actorType: string, kind: ActorKind, keyword: seq<KeywordArg>,
                         vars: seq<VarDeclaration>, body: seq<Statement>)
    requires KindByName(actorType) == Some(kind) && KeywordIssues(keyword, ConstructorKeywords(kind)) == []
    requires TagsInKeywords(keyword) == [] && DefaultTags(vars) == []
    ensures Accepts(OneActor(name, actorType, keyword, vars, body)) <==>
              CheckBlock(Started(kind, name, vars), name, body).diagnostics == []
  {
    hide CheckBlock, KindByName, ConstructorKeywords, DefaultTags, DeclaredTypes, KeywordIssues, TagsInKeywords;
    var src := OneActor(name, actorType, keyword, vars, body);
    assert src[..1] == [src[0]] && [src[0]][..0] == [];
    assert RegisterAll([]) == Checker(map[], []);
    assert RegisterAll([src[0]]).diagnostics == [];
    assert RegisterAll([src[0]]) == Started(kind, name, vars);
    assert CheckItems(Started(kind, name, vars), [src[0]]) == Started(kind, name, vars);
  }

  lemma ImageIsAllowed()
    ensures KeywordIssues(IMAGE, ConstructorKeywords(Container)) == [] && TagsInKeywords(IMAGE) == []
  {
    var defs := ConstructorKeywords(Container);
    assert defs[0].name == "image";
    KeywordsPassIff(IMAGE, defs);
    assert IMAGE[..0] == [] && TagsInKeywords([]) == [];
    assert [Text("x")][1..] == [] && TagsInFragments([]) == [] && TagsInFragment(Text("x")) == [];
  }

  lemma NoKeywordsAllowed(kind: ActorKind)
    requires !kind.Exec?
    ensures KeywordIssues([], ConstructorKeywords(kind)) == [] && TagsInKeywords([]) == []
  {
    KeywordsPassIff([], ConstructorKeywords(kind));
  }

  lemma ImageEvaluates(lib: Library)
    ensures EvalKeywords(IMAGE, map[], lib) == Ok([Field("image", StringV("x"))])
    ensures ContainerIssue([Field("image", StringV("x"))]).None?
  {
    QueryResults.RenderText("x", map[], lib);
    assert IMAGE[..0] == [] && EvalKeywords([], map[], lib) == Ok([]);
    var d := [Field("image", StringV("x"))];
    assert Eval(StringLit([Text("x")]), map[], lib) == Ok(StringV("x"));
    assert d[1..] == [] && Get(d, "image") == Some(StringV("x"));
    assert Get(d, "internal_port") == Get(d[1..], "internal_port") && Get(d, "dockerfile") == Get(d[1..], "dockerfile");
  }

  lemma ThreeStatements(c: Checker, actor: string, b: seq<Statement>)
    requires c.Knows(actor) && |b| == 3
    ensures CheckBody(c, actor, b) ==
              CheckStatement(CheckStatement(CheckStatement(Walk(c, NO_COMMAND), actor, b[0]), actor, b[1]), actor, b[2])
  {
    hide CheckStatement;
    assert b == [] + [b[0]] + [b[1]] + [b[2]];
    CheckBodyStep(c, actor, [], b[0]);
    CheckBodyStep(c, actor, [] + [b[0]], b[1]);
    CheckBodyStep(c, actor, [] + [b[0]] + [b[1]], b[2]);
  }

  lemma FourStatements(c: Checker, actor: string, b: seq<Statement>)
    requires c.Knows(actor) && |b| == 4
    ensures CheckBody(c, actor, b) ==
              CheckStatement(CheckStatement(CheckStatement(CheckStatement(Walk(c, NO_COMMAND), actor, b[0]),
                                                           actor, b[1]), actor, b[2]), actor, b[3])
  {
    hide CheckStatement;
    assert b == b[..3] + [b[3]];
    ThreeStatements(c, actor, b[..3]);
    CheckBodyStep(c, actor, b[..3], b[3]);
  }

  /** A bare command in a mode that allows it raises nothing and opens its window. */
  lemma PlainCommandChecks(walk: Walk, actor: string, name: string, cmd: Cmd)
    requires walk.checker.Knows(actor)
    requires var entry := Settle(walk.checker.actors, walk.window, actor)[actor];
             && CommandByName(entry.kind, name) == Some(cmd) && entry.mode in ValidModes(cmd)
             && PositionalCount(cmd) == 0 && MissingKeywords([], Keywords(entry.kind, cmd)) == []
    ensures var settled := Settle(walk.checker.actors, walk.window, actor);
            CheckStatement(walk, actor, Plain(name)) ==
            Walk(Checker(settled, walk.checker.diagnostics),
                 Window(ImpliedOk, TransitionsTo(cmd), OkFields(settled[actor].kind, cmd),
                        ErrorTypes(settled[actor].kind, cmd)))
  {
    hide CommandByName, Keywords, OkFields, ErrorTypes, ValidModes, TransitionsTo, PositionalCount;
  }

  lemma AssertErrorChecks(walk: Walk, actor: string)
    requires walk.checker.Knows(actor) && walk.window.outcome.ImpliedOk?
    ensures CheckStatement(walk, actor, ASSERT_ERROR) == walk.(window := walk.window.(outcome := ExplicitError))
  {
  }

  lemma {:induction false} NothingRequired(defs: seq<KeywordDef>)
    requires forall i :: 0 <= i < |defs| ==> !defs[i].required
    ensures MissingKeywords([], defs) == []
  {
    if defs != [] {
      NothingRequired(defs[..|defs| - 1]);
    }
  }

  // ── A binding named `error` ─────────────────────────────────────────────────

  const MISLED := [Plain("connect"), Let("error", LetExpr(NumberLit(1))), ASSERT_ERROR, Plain("connect")]

  const MISLED_BY_LET := OneActor("m", "mqtt_client", [], [], MISLED)

  lemma MisledIsAccepted()
    ensures Accepts(MISLED_BY_LET)
  {
    hide Accepts, CheckStatement, CheckBody, OkFields, ErrorTypes, KeywordIssues, Resolve;
    NothingRequired(Keywords(MqttClient, Connect));
    NoKeywordsAllowed(MqttClient);
    OneActorAccepted("m", "mqtt_client", MqttClient, [], [], MISLED);
    var c := Started(MqttClient, "m", []);
    FourStatements(c, "m", MISLED);
    PlainCommandChecks(Walk(c, NO_COMMAND), "m", "connect", Connect);
    var w1 := CheckStatement(Walk(c, NO_COMMAND), "m", MISLED[0]);
    var w2 := CheckStatement(w1, "m", MISLED[1]);
    LetErrorChecks(w1, "m");
    AssertErrorChecks(w2, "m");
    PlainCommandChecks(CheckStatement(w2, "m", MISLED[2]), "m", "connect", Connect);
  }

  lemma LetErrorChecks(walk: Walk, actor: string)
    requires walk.checker.Knows(actor)
    ensures var w := CheckStatement(walk, actor, Let("error", LetExpr(NumberLit(1))));
            && w.window == walk.window && w.checker.diagnostics == walk.checker.diagnostics
            && w.checker.Knows(actor)
            && w.checker.actors[actor].kind == walk.checker.actors[actor].kind
            && w.checker.actors[actor].mode == walk.checker.actors[actor].mode
  {
  }

  // ── Running such a program ──────────────────────────────────────────────────

  /** The construction keywords an actor needs. */
  function Given(kind: ActorKind): seq<KeywordArg> { if kind.Container? then IMAGE else [] }

  /** The one actor as it is constructed without variables. */
  function Fresh(kind: ActorKind, name: string): Live {
    Live(name, kind, InitialMode(kind), if kind.Container? then Some([]) else None)
  }

  lemma ConstructsFresh(name: string, actorType: string, kind: ActorKind, world: World)
    requires KindByName(actorType) == Some(kind) && (kind.MqttClient? || (kind.Container? && world.constructs(0)))
    ensures Construct(ActorDeclaration(name, actorType, Given(kind), []), world, 0) == Ok(Fresh(kind, name))
    ensures Fresh(kind, name).name == name
  {
    hide KindByName, ArgMembers, Declares, Eval, EvalKeywords, ContainerIssue;
    ImageEvaluates(world.lib);
    NoKeywordsEvaluate(world.lib);
    assert EvalVars([], world.lib) == Ok([]) && AssignedView([]) == [];
  }

  lemma NoKeywordsEvaluate(lib: Library)
    ensures EvalKeywords([], map[], lib) == Ok([])
  {
  }

  function Alone(inst: Live): Session { Session([inst], [Constructed(inst.name)]) }

  lemma {:induction false} OneActorIsLive(inst: Live, actorType: string, keyword: seq<KeywordArg>,
                                          vars: seq<VarDeclaration>, body: seq<Statement>, world: World)
    requires Construct(ActorDeclaration(inst.name, actorType, keyword, vars), world, 0) == Ok(inst)
    ensures RunItems(OneActor(inst.name, actorType, keyword, vars, body), 1, world) == Progress(Alone(inst), map[], None)
    ensures Find(Alone(inst).live, inst.name) == Some(0)
  {
    hide Construct;
    var src := OneActor(inst.name, actorType, keyword, vars, body);
    assert RunItems(src, 0, world) == Progress(START, map[], None);
    assert RunItems(src, 1, world) == RunItem(START, src[0], world);
  }

  lemma {:induction false} OneActorRuns(inst: Live, actorType: string, keyword: seq<KeywordArg>,
                                        vars: seq<VarDeclaration>, body: seq<Statement>, world: World)
    requires Construct(ActorDeclaration(inst.name, actorType, keyword, vars), world, 0) == Ok(inst)
    ensures var src := OneActor(inst.name, actorType, keyword, vars, body);
            && RunItems(src, 1, world) == Progress(Alone(inst), map[], None)
            && Find(Alone(inst).live, inst.name) == Some(0)
            && Report(src, world).failure == RunBody(Alone(inst), 0, body, |body|, world).failure
  {
    hide RunBody, Construct, TearDown, Find;
    OneActorIsLive(inst, actorType, keyword, vars, body, world);
    var src := OneActor(inst.name, actorType, keyword, vars, body);
    assert RunItems(src, 2, world) == RunBlock(Alone(inst), inst.name, body, world);
  }

  /** A bare command meets its actor, with `ok` and `error` cleared. */
  lemma {:induction false} PlainCommandRuns(r: Progress, body: seq<Statement>, i: nat, name: string, cmd: Cmd,
                                            world: World)
    requires |r.session.live| == 1 && i < |body| && body[i] == Plain(name)
    requires CommandByName(r.session.live[0].kind, name) == Some(cmd)
    ensures RunStatement(r, 0, body, i, world) ==
            Carry(r.session, BindSelf(r.scope, r.session.live, r.session.live[0].name) - {"ok", "error"}, 0, cmd,
                  ErrorRefFrom(body, i + 1), world)
  {
    hide CommandByName, Carry, BindSelf, ErrorRefFrom, Eval;
    var scope := BindSelf(r.scope, r.session.live, r.session.live[0].name) - {"ok", "error"};
    assert ArgsError(body[i], 0, scope, world.lib).None?;
  }

  lemma LetErrorRuns(r: Progress, body: seq<Statement>, i: nat, world: World)
    requires |r.session.live| == 1 && i < |body| && body[i] == Let("error", LetExpr(NumberLit(1))) && r.failure.None?
    ensures RunStatement(r, 0, body, i, world) ==
            Progress(r.session, BindSelf(r.scope, r.session.live, r.session.live[0].name)["error" := NumberV(1)], None)
  {
    hide BindSelf;
  }

  lemma AssertErrorRuns(r: Progress, body: seq<Statement>, i: nat, world: World)
    requires |r.session.live| == 1 && i < |body| && body[i] == ASSERT_ERROR && r.failure.None?
    requires r.session.live[0].name != "error" && "error" in r.scope && IsTruthy(r.scope["error"])
    ensures var p := RunStatement(r, 0, body, i, world);
            p.session == r.session && p.failure.None?
  {
    hide BindSelf, IsTruthy;
    BindSelfKeeps(r.scope, r.session.live, r.session.live[0].name, "error");
  }

  /** Accepted, yet a broker that answers the first connect sends the second into a mode without it. */
  lemma ErrorNameMisleads(world: World)
    requires world.respond(1, MqttClient, Connect).Succeeds?
    ensures Accepts(MISLED_BY_LET) && !ErrorLeftAlone(MISLED_BY_LET)
    ensures Reaches(MISLED_BY_LET, world, 1, 3) && Drifted(Before(MISLED_BY_LET, world, 1, 3).session.log, "m")
    ensures Report(MISLED_BY_LET, world).failure == Some(CommandNotImplemented("m", Connect))
  {
    hide Accepts, TearDown, RunItems, RunBody, RunStatement, ErrorLeftAlone, Drifted, Drifts;
    MisledIsAccepted();
    LetShadows();
    var inst := Fresh(MqttClient, "m");
    ConstructsFresh("m", "mqtt_client", MqttClient, world);
    OneActorRuns(inst, "mqtt_client", [], [], MISLED, world);
    MisledRuns(world);
    DriftShows(RunBody(Alone(inst), 0, MISLED, 3, world).session.log, 1);
  }

  lemma MisledRuns(world: World)
    requires world.respond(1, MqttClient, Connect).Succeeds?
    ensures var r, end := RunBody(Alone(Fresh(MqttClient, "m")), 0, MISLED, 3, world),
                          RunBody(Alone(Fresh(MqttClient, "m")), 0, MISLED, 4, world);
            && r.failure.None? && |r.session.log| == 2 && Drifts(r.session.log[1]) && r.session.log[1].actor == "m"
            && end.failure == Some(CommandNotImplemented("m", Connect))
  {
    hide BindSelf, RunStatement;
    var s := Alone(Fresh(MqttClient, "m"));
    PlainCommandRuns(Progress(s, map[], None), MISLED, 0, "connect", Connect, world);
    var r1 := RunBody(s, 0, MISLED, 1, world);
    assert RunBody(s, 0, MISLED, 0, world) == Progress(s, map[], None);
    assert r1.failure.None? && r1.session.live == [Live("m", MqttClient, Connected, None)];
    LetErrorRuns(r1, MISLED, 1, world);
    var r2 := RunBody(s, 0, MISLED, 2, world);
    AssertErrorRuns(r2, MISLED, 2, world);
    var r3 := RunBody(s, 0, MISLED, 3, world);
    assert ErrorRefFrom(MISLED, 1) by { assert ErrorRefFrom(MISLED, 2); }
    PlainCommandRuns(r3, MISLED, 3, "connect", Connect, world);
  }

  lemma LetShadows()
    ensures !ErrorLeftAlone(MISLED_BY_LET)
  {
    var body := MISLED_BY_LET[1].body;
    assert body[0].Command? && ErrorRefFrom(body, 2) && ErrorRefFrom(body, 1) && ShadowsError(body, 1);
  }

  /** A `let error` behind the window's first reference does no harm. */
  lemma LateLetIsHarmless()
    ensures var src := OneActor("m", "mqtt_client", [], [], [MISLED[0], MISLED[2], MISLED[1], MISLED[3]]);
            ErrorLeftAlone(src) && !ErrorIsNotAName(src)
  {
    var src := OneActor("m", "mqtt_client", [], [], [MISLED[0], MISLED[2], MISLED[1], MISLED[3]]);
    var body := src[1].body;
    assert body[2].bound == "error" && !BindsNo(body, "error");
    assert !ShadowsError(body, 1) && !ErrorRefFrom(body, 4);
  }

  // ── An actor named `error` ──────────────────────────────────────────────────

  const ONE_VAR := [VarDeclaration("x", Some(NumberLit(1)))]

  const ONE_FIELD := [Field("x", NumberV(1))]

  const MISLED_BY_ACTOR :=
    OneActor("error", "container", IMAGE, ONE_VAR, [Plain("run"), ASSERT_ERROR, Plain("run")])

  const NAMED_ERROR := Live("error", Container, Stopped, Some(ONE_FIELD))

  lemma OneVarEvaluates(lib: Library)
    ensures EvalVars(ONE_VAR, lib) == Ok([DeclaredVar("x", Some(NumberV(1)))])
    ensures AssignedView([DeclaredVar("x", Some(NumberV(1)))]) == ONE_FIELD
  {
    var x := DeclaredVar("x", Some(NumberV(1)));
    assert ONE_VAR[..0] == [] && EvalVars([], lib) == Ok([]);
    assert Eval(NumberLit(1), map[], lib) == Ok(NumberV(1));
    assert [] + [x] == [x] && [x][..0] == [] && AssignedView([]) == [];
  }

  lemma OneVarHasNoTags()
    ensures DefaultTags(ONE_VAR) == []
  {
    assert ONE_VAR[..0] == [] && DefaultTags([]) == [];
  }

  lemma NamedErrorConstructs(world: World)
    requires world.constructs(0)
    ensures Construct(ActorDeclaration("error", "container", IMAGE, ONE_VAR), world, 0) == Ok(NAMED_ERROR)
  {
    hide ArgMembers, Declares, EvalKeywords, ContainerIssue, EvalVars, AssignedView;
    ImageEvaluates(world.lib);
    OneVarEvaluates(world.lib);
  }

  lemma MisledByActorIsAccepted()
    ensures Accepts(MISLED_BY_ACTOR)
  {
    hide Accepts, CheckStatement, CheckBody, OkFields, ErrorTypes, KeywordIssues, Resolve;
    var body := MISLED_BY_ACTOR[1].body;
    ImageIsAllowed();
    NothingRequired(Keywords(Container, Run));
    OneVarHasNoTags();
    OneActorAccepted("error", "container", Container, IMAGE, ONE_VAR, body);
    var c := Started(Container, "error", ONE_VAR);
    ThreeStatements(c, "error", body);
    PlainCommandChecks(Walk(c, NO_COMMAND), "error", "run", Run);
    var w1 := CheckStatement(Walk(c, NO_COMMAND), "error", body[0]);
    AssertErrorChecks(w1, "error");
    PlainCommandChecks(CheckStatement(w1, "error", body[1]), "error", "run", Run);
  }

  lemma ActorShadows()
    ensures !ErrorLeftAlone(MISLED_BY_ACTOR)
  {
    var src := MISLED_BY_ACTOR;
    assert src[1].body[0].Command? && ErrorRefFrom(src[1].body, 1);
    assert ErrorActorBefore(src, 1) by { assert src[0].name == "error"; }
  }

  /** The actor's own view stands in for the error. */
  lemma AssertNamedErrorRuns(r: Progress, body: seq<Statement>, i: nat, world: World)
    requires |r.session.live| == 1 && i < |body| && body[i] == ASSERT_ERROR && r.failure.None?
    requires r.session.live[0].name == "error" && r.session.live[0].view == NAMED_ERROR.view
    ensures var p := RunStatement(r, 0, body, i, world);
            p.session == r.session && p.failure.None?
  {
    var live := r.session.live;
    assert live[..0] == [] && BindViews(r.scope, []) == r.scope;
    assert "error" in BindViews(r.scope, live) && BindViews(r.scope, live)["error"] == DictV(NAMED_ERROR.view.value);
  }

  /** Accepted, yet the second run meets a container that is already running, because the first one
      succeeded and the assertion saw the actor instead of an error. */
  lemma ErrorActorMisleads(world: World)
    requires world.constructs(0) && world.respond(1, Container, Run).Succeeds?
    ensures Accepts(MISLED_BY_ACTOR) && !ErrorLeftAlone(MISLED_BY_ACTOR)
    ensures Reaches(MISLED_BY_ACTOR, world, 1, 2) && Drifted(Before(MISLED_BY_ACTOR, world, 1, 2).session.log, "error")
    ensures Report(MISLED_BY_ACTOR, world).failure == Some(CommandFailure("error", Run))
  {
    hide Accepts, BindSelf, RunStatement, TearDown, RunItems, ErrorLeftAlone, Drifted, Construct;
    MisledByActorIsAccepted();
    ActorShadows();
    NamedErrorConstructs(world);
    var body, s := MISLED_BY_ACTOR[1].body, Alone(NAMED_ERROR);
    OneActorRuns(NAMED_ERROR, "container", IMAGE, ONE_VAR, body, world);
    PlainCommandRuns(Progress(s, map[], None), body, 0, "run", Run, world);
    assert RunBody(s, 0, body, 0, world) == Progress(s, map[], None);
    var r1 := RunBody(s, 0, body, 1, world);
    assert r1.failure.None? && r1.session.live == [NAMED_ERROR.(mode := Running)];
    AssertNamedErrorRuns(r1, body, 1, world);
    var r2 := RunBody(s, 0, body, 2, world);
    assert ErrorRefFrom(body, 1);
    DriftShows(r2.session.log, 1);
    PlainCommandRuns(r2, body, 2, "run", Run, world);
  }

  // ── Drifting errors ─────────────────────────────────────────────────────────

  /** Opens, sees closing fail, and asks again in the mode the validator believes in. */
  function Retrying(open: string, close: string, again: string): seq<Statement> {
    [Plain(open), Plain(close), ASSERT_ERROR, Plain(again)]
  }

  lemma GivenIsAllowed(kind: ActorKind)
    requires kind.Container? || kind.MqttClient?
    ensures KeywordIssues(Given(kind), ConstructorKeywords(kind)) == [] && TagsInKeywords(Given(kind)) == []
    ensures DefaultTags([]) == []
  {
    hide KeywordIssues, TagsInKeywords;
    ImageIsAllowed();
    NoKeywordsAllowed(kind);
  }

  lemma RetryingIsAccepted(actorType: string, kind: ActorKind, open: string, close: string, again: string,
                           openCmd: Cmd, closeCmd: Cmd, againCmd: Cmd, up: Mode)
    requires KindByName(actorType) == Some(kind) && (kind.Container? || kind.MqttClient?)
    requires forall p <- [(open, openCmd), (close, closeCmd), (again, againCmd)] ::
               && CommandByName(kind, p.0) == Some(p.1) && PositionalCount(p.1) == 0
               && MissingKeywords([], Keywords(kind, p.1)) == []
    requires InitialMode(kind) in ValidModes(openCmd) && TransitionsTo(openCmd) == Some(up)
    requires up in ValidModes(closeCmd) && up in ValidModes(againCmd)
    ensures Accepts(OneActor("a", actorType, Given(kind), [], Retrying(open, close, again)))
  {
    hide Accepts, CheckStatement, CheckBody, OkFields, ErrorTypes, MissingKeywords, CommandByName, ValidModes, Keywords,
      KindByName, TransitionsTo, PositionalCount, InitialMode, ConstructorKeywords;
    var body := Retrying(open, close, again);
    var c := Started(kind, "a", []);
    assert (open, openCmd) in [(open, openCmd), (close, closeCmd), (again, againCmd)];
    assert (close, closeCmd) in [(open, openCmd), (close, closeCmd), (again, againCmd)];
    assert (again, againCmd) in [(open, openCmd), (close, closeCmd), (again, againCmd)];
    GivenIsAllowed(kind);
    OneActorAccepted("a", actorType, kind, Given(kind), [], body);
    FourStatements(c, "a", body);
    PlainCommandChecks(Walk(c, NO_COMMAND), "a", open, openCmd);
    var w1 := CheckStatement(Walk(c, NO_COMMAND), "a", body[0]);
    PlainCommandChecks(w1, "a", close, closeCmd);
    var w2 := CheckStatement(w1, "a", body[1]);
    AssertErrorChecks(w2, "a");
    PlainCommandChecks(CheckStatement(w2, "a", body[2]), "a", again, againCmd);
  }

  lemma ErrorDictIsTruthy(variant: string, fields: Dict)
    ensures IsTruthy(DictV(ErrorDict(variant, fields)))
  {
  }

  /** The first three statements of such a run, when opening succeeds and closing fails. */
  lemma RetryingRuns(kind: ActorKind, open: string, close: string, again: string, openCmd: Cmd, closeCmd: Cmd,
                     world: World)
    requires CommandByName(kind, open) == Some(openCmd) && CommandByName(kind, close) == Some(closeCmd)
    requires var d := Dispatch(kind, InitialMode(kind), openCmd, world.respond(1, kind, openCmd));
             && d.outcome.OkOutcome?
             && Dispatch(kind, d.mode, closeCmd, world.respond(2, kind, closeCmd)).outcome.ErrorOutcome?
    ensures var s := Alone(Fresh(kind, "a"));
            var d := Dispatch(kind, InitialMode(kind), openCmd, world.respond(1, kind, openCmd));
            var d' := Dispatch(kind, d.mode, closeCmd, world.respond(2, kind, closeCmd));
            var r := RunBody(s, 0, Retrying(open, close, again), 3, world);
            && r.failure.None? && |r.session.log| == 3
            && r.session.live == [Fresh(kind, "a").(mode := d'.mode)]
            && r.session.log[2] == Executed("a", kind, closeCmd, d.mode, d'.outcome, true)
  {
    hide BindSelf, RunStatement, CommandByName, Dispatch, InitialMode, IsTruthy, ErrorDict;
    var s := Alone(Fresh(kind, "a"));
    var body := Retrying(open, close, again);
    assert RunBody(s, 0, body, 0, world) == Progress(s, map[], None);
    PlainCommandRuns(Progress(s, map[], None), body, 0, open, openCmd, world);
    var r1 := RunBody(s, 0, body, 1, world);
    PlainCommandRuns(r1, body, 1, close, closeCmd, world);
    var r2 := RunBody(s, 0, body, 2, world);
    assert ErrorRefFrom(body, 2);
    var o := Dispatch(kind, r1.session.live[0].mode, closeCmd, world.respond(2, kind, closeCmd)).outcome;
    assert r2.scope["error"] == DictV(ErrorDict(o.variant, o.fields));
    ErrorDictIsTruthy(o.variant, o.fields);
    AssertErrorRuns(r2, body, 2, world);
  }

  lemma NotNamedError(actorType: string, keyword: seq<KeywordArg>, open: string, close: string, again: string)
    ensures ErrorIsNotAName(OneActor("a", actorType, keyword, [], Retrying(open, close, again)))
  {
  }

  lemma DriftShows(log: seq<Event>, i: nat)
    requires i < |log| && Drifts(log[i])
    ensures Drifted(log, log[i].actor)
  {
  }

  const STOP_TWICE := OneActor("a", "container", IMAGE, [], Retrying("run", "stop", "stop"))

  /** Accepted, yet a container whose removal failed is not running when it is asked to stop again.
      The run reaches that command with a drifted actor. */
  lemma FailedStopDrifts(world: World)
    requires world.constructs(0) && world.respond(1, Container, Run).Succeeds?
    requires world.respond(2, Container, Stop).Fails?
    ensures Accepts(STOP_TWICE) && ErrorIsNotAName(STOP_TWICE)
    ensures Reaches(STOP_TWICE, world, 1, 3) && Drifted(Before(STOP_TWICE, world, 1, 3).session.log, "a")
    ensures Report(STOP_TWICE, world).failure == Some(CommandFailure("a", Stop))
  {
    hide Drifted, Accepts, ErrorIsNotAName, RunStatement, BindSelf, TearDown, RunItems, ErrorDict, MissingKeywords;
    var body := Retrying("run", "stop", "stop");
    NothingRequired(Keywords(Container, Run));
    NothingRequired(Keywords(Container, Stop));
    RetryingIsAccepted("container", Container, "run", "stop", "stop", Run, Stop, Stop, Running);
    NotNamedError("container", IMAGE, "run", "stop", "stop");
    ConstructsFresh("a", "container", Container, world);
    OneActorRuns(Fresh(Container, "a"), "container", IMAGE, [], body, world);
    RetryingRuns(Container, "run", "stop", "stop", Run, Stop, world);
    var r := RunBody(Alone(Fresh(Container, "a")), 0, body, 3, world);
    DriftShows(r.session.log, 2);
    PlainCommandRuns(r, body, 3, "stop", Stop, world);
  }

  const LOST := OneActor("a", "mqtt_client", [], [], Retrying("connect", "receive_disconnect", "disconnect"))

  /** Accepted, yet after a lost connection the live client has no `disconnect` to run. The run
      reaches that command with a drifted actor. */
  lemma LostConnectionDrifts(world: World)
    requires world.respond(1, MqttClient, Connect).Succeeds?
    requires var r := world.respond(2, MqttClient, ReceiveDisconnect); r.Fails? && r.variant != "timeout"
    ensures Accepts(LOST) && ErrorIsNotAName(LOST)
    ensures Reaches(LOST, world, 1, 3) && Drifted(Before(LOST, world, 1, 3).session.log, "a")
    ensures Report(LOST, world).failure == Some(CommandNotImplemented("a", Disconnect))
  {
    hide Drifted, Accepts, ErrorIsNotAName, RunStatement, BindSelf, TearDown, RunItems, ErrorDict, MissingKeywords;
    var body := Retrying("connect", "receive_disconnect", "disconnect");
    NothingRequired(Keywords(MqttClient, Connect));
    NothingRequired(Keywords(MqttClient, Disconnect));
    NothingRequired(Keywords(MqttClient, ReceiveDisconnect));
    RetryingIsAccepted("mqtt_client", MqttClient, "connect", "receive_disconnect", "disconnect",
                       Connect, ReceiveDisconnect, Disconnect, Connected);
    NotNamedError("mqtt_client", [], "connect", "receive_disconnect", "disconnect");
    ConstructsFresh("a", "mqtt_client", MqttClient, world);
    OneActorRuns(Fresh(MqttClient, "a"), "mqtt_client", [], [], body, world);
    RetryingRuns(MqttClient, "connect", "receive_disconnect", "disconnect", Connect, ReceiveDisconnect, world);
    var r := RunBody(Alone(Fresh(MqttClient, "a")), 0, body, 3, world);
    DriftShows(r.session.log, 2);
    PlainCommandRuns(r, body, 3, "disconnect", Disconnect, world);
  }

  // ── Hoisting ────────────────────────────────────────────────────────────────

  lemma OneItemMore(s: Session, src: SourceFile, b: nat, world: World, name: string)
    requires b < |src| && RunItem(s, src[b], world).failure.None?
    requires !NoneNamed(s.live, name) <==> DeclaredBefore(src, b, name)
    ensures !NoneNamed(RunItem(s, src[b], world).session.live, name) <==> DeclaredBefore(src, b + 1, name)
  {
    hide RunBody, Construct, DeclaredBefore;
    DeclaredBeforeSnoc(src, b, name);
    var p := RunItem(s, src[b], world).session;
    match src[b]
    case ActorDeclaration(_, _, _, _) =>
      Teardown.ConstructedName(src[b], world, |s.log|);
      var inst := p.live[|s.live|];
      assert p.live == s.live + [inst] && inst.name == src[b].name;
      assert forall k :: 0 <= k < |s.live| ==> p.live[k] == s.live[k];
    case AsBlock(actor, body) =>
      BodyFrame(s, Find(s.live, actor).value, body, |body|, world);
      assert forall k :: 0 <= k < |s.live| ==> p.live[k].name == s.live[k].name;
  }

  /** The validator registers every declaration first; the harness builds actors as it meets them. */
  lemma {:induction false} LiveIffDeclared(src: SourceFile, b: nat, world: World, name: string)
    requires b <= |src| && RunItems(src, b, world).failure.None?
    ensures !NoneNamed(RunItems(src, b, world).session.live, name) <==> DeclaredBefore(src, b, name)
  {
    hide RunItem;
    if b > 0 {
      LiveIffDeclared(src, b - 1, world, name);
      OneItemMore(RunItems(src, b - 1, world).session, src, b - 1, world, name);
    }
  }

  lemma {:induction false} BodyHasItsActor(s: Session, at: nat, body: seq<Statement>, n: nat, world: World)
    requires at < |s.live| && n <= |body|
    ensures var f := RunBody(s, at, body, n, world).failure; f.Some? ==> !f.value.NoLiveInstance?
  {
    hide BindSelf, Eval, EvalAssert, ArgsError, Dispatch, Resolve;
    if n > 0 {
      BodyHasItsActor(s, at, body, n - 1, world);
    }
  }

  /** A block that a run reaches stops for want of a live actor exactly when no earlier item
      declares the actor, whether or not a later one does. */
  lemma EarlyBlockStops(src: SourceFile, b: nat, world: World)
    requires b < |src| && src[b].AsBlock? && RunItems(src, b, world).failure.None?
    ensures RunItems(src, b + 1, world).failure == Some(NoLiveInstance(src[b].actor)) <==>
              !DeclaredBefore(src, b, src[b].actor)
  {
    hide DeclaredBefore, RunBody;
    LiveIffDeclared(src, b, world, src[b].actor);
    var s := RunItems(src, b, world).session;
    var at := Find(s.live, src[b].actor);
    if at.Some? {
      BodyHasItsActor(s, at.value, src[b].body, |src[b].body|, world);
    }
  }

  const EARLY := [AsBlock("m", [Plain("connect")]), ActorDeclaration("m", "mqtt_client", [], [])]

  lemma EarlyIsRegistered()
    ensures RegisterAll(EARLY) == Started(MqttClient, "m", [])
  {
    hide KeywordIssues, TagsInKeywords;
    NoKeywordsAllowed(MqttClient);
    assert EARLY[..1] == [EARLY[0]] && [EARLY[0]][..0] == [];
    assert RegisterAll([]) == Checker(map[], []);
    assert RegisterAll([EARLY[0]]) == Checker(map[], []);
    assert DefaultTags([]) == [];
  }

  lemma EarlyIsAccepted()
    ensures Accepts(EARLY)
  {
    hide RegisterAll, CheckStatement, OkFields, ErrorTypes;
    EarlyIsRegistered();
    var c, body := Started(MqttClient, "m", []), EARLY[0].body;
    NothingRequired(Keywords(MqttClient, Connect));
    assert body == [] + [body[0]];
    CheckBodyStep(c, "m", [], body[0]);
    PlainCommandChecks(Walk(c, NO_COMMAND), "m", "connect", Connect);
    assert CheckBlock(c, "m", body).diagnostics == [];
    assert EARLY[..1] == [EARLY[0]] && [EARLY[0]][..0] == [];
    assert CheckItems(c, [EARLY[0]]) == CheckBlock(c, "m", body);
  }

  /** Such a program: the block comes before the declaration. */
  lemma EarlyIsAcceptedAndStops(world: World)
    ensures Accepts(EARLY) && Report(EARLY, world).failure == Some(NoLiveInstance("m"))
  {
    hide TearDown, Accepts;
    EarlyIsAccepted();
    assert RunItems(EARLY, 0, world) == Progress(START, map[], None);
    assert RunItems(EARLY, 1, world).failure == Some(NoLiveInstance("m"));
  }

  // ── A let that retypes a variable ───────────────────────────────────────────

  const RETYPED := OneActor("a", "args_actor", [], ONE_VAR, [Let("x", LetExpr(BoolLit(true)))])

  const SELF_X := Member(Ident("self"), "x")

  lemma RetypedConstructs(world: World)
    requires world.cli == map[]
    ensures Construct(ActorDeclaration("a", "args_actor", [], ONE_VAR), world, 0)
              == Ok(Live("a", ArgsActor, Ready, Some(ONE_FIELD)))
  {
    hide EvalVars, AssignedView, EvalKeywords;
    NoKeywordsEvaluate(world.lib);
    OneVarEvaluates(world.lib);
    var x := DeclaredVar("x", Some(NumberV(1)));
    assert [x][..0] == [] && ArgMembers([], world.cli, world.lib) == Ok([]);
  }

  lemma RetypedClashes()
    ensures !TypePreservation.NamesOf(RETYPED, "a").Disjoint()
  {
    var names := TypePreservation.NamesOf(RETYPED, "a");
    assert RETYPED[1].body[0].bound == "x" && RETYPED[0].vars[0].name == "x";
    assert "x" in names.lets && "x" in names.vars;
  }

  lemma RetypedIsChecked()
    ensures Accepts(RETYPED) && CheckedTo(RETYPED, 1) == Started(ArgsActor, "a", ONE_VAR)
    ensures var vars := Checked(RETYPED, 1, 1).checker.actors["a"].vars; "x" in vars && vars["x"] == BoolT
  {
    hide KeywordIssues, TagsInKeywords, DefaultTags;
    NoKeywordsAllowed(ArgsActor);
    OneVarHasNoTags();
    var c, body := Started(ArgsActor, "a", ONE_VAR), RETYPED[1].body;
    OneActorAccepted("a", "args_actor", ArgsActor, [], ONE_VAR, body);
    assert body == [] + [body[0]] && body[..1] == body;
    CheckBodyStep(c, "a", [], body[0]);
  }

  /** Accepted, yet after the `let` the validator types `self.x` as a boolean while the actor still holds
      a number. */
  lemma RetypedVariable(world: World)
    requires world.cli == map[]
    ensures Accepts(RETYPED) && !TypePreservation.NamesOf(RETYPED, "a").Disjoint()
    ensures Reaches(RETYPED, world, 1, 1) && CheckedTo(RETYPED, 1).Knows("a")
    ensures var r, walk := Before(RETYPED, world, 1, 1), Checked(RETYPED, 1, 1);
            && Eval(SELF_X, BindSelf(r.scope, r.session.live, "a"), world.lib) == Ok(NumberV(1))
            && ExprTypeInActor(SELF_X, walk.checker.actors["a"].vars, walk.window) == BoolT
  {
    hide Accepts, Construct, CheckBody, RegisterAll, CheckItems, TypePreservation.NamesOf;
    RetypedIsChecked();
    RetypedClashes();
    RetypedConstructs(world);
    var inst, body := Live("a", ArgsActor, Ready, Some(ONE_FIELD)), RETYPED[1].body;
    OneActorIsLive(inst, "args_actor", [], ONE_VAR, body, world);
    assert RunBody(Alone(inst), 0, body, 0, world) == Progress(Alone(inst), map[], None);
  }
}
