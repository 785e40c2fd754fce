/** What running a program means: items and statements in order against live actors, stopping at the
    first failure. The class in `Harness` is proved to compute exactly this. */
module Execution {
  import opened Common
  import opened Values
  import opened Ast
  import opened Registry
  import opened Evaluation

  // ── The world outside ───────────────────────────────────────────────────────

  /** What a real command does when an actor gets to carry it out. */
  datatype Response = Succeeds(fields: Dict) | Fails(variant: string, fields: Dict)

  datatype TeardownOutcome = TeardownOk | TeardownFailed | TeardownPanicked

  /** Everything outside the program. The number is how many events came before. */
  datatype World = World(
    lib: Library,
    cli: map<string, string>,
    constructs: nat -> bool,
    respond: (nat, ActorKind, Cmd) -> Response,
    teardown: nat -> TeardownOutcome)

  // ── Mode dispatch of the actors ─────────────────────────────────────────────

  datatype RunOutcome = OkOutcome(fields: Dict) | ErrorOutcome(variant: string, fields: Dict) | NotImplemented

  datatype Dispatched = Dispatched(mode: Mode, outcome: RunOutcome)

  function FromResponse(r: Response): RunOutcome {
    match r
    case Succeeds(fields) => OkOutcome(fields)
    case Fails(variant, fields) => ErrorOutcome(variant, fields)
  }

  function Reason(atom: string): Dict { [Field("reason", AtomV(atom))] }

  /** An instance takes its mode, matches the command against it and puts a mode back. */
  function Dispatch(kind: ActorKind, mode: Mode, cmd: Cmd, r: Response): Dispatched {
    match kind
    case PgClient =>
      if mode != Connected then
        if cmd.Connect? then Dispatched(if r.Succeeds? then Connected else Disconnected, FromResponse(r))
        else Dispatched(mode, NotImplemented)
      else if cmd.Query? then Dispatched(Connected, FromResponse(r))
      else if cmd.Disconnect? then Dispatched(Disconnected, OkOutcome([]))
      else Dispatched(mode, NotImplemented)
    case MqttClient =>
      if mode != Connected then
        if cmd.Connect? then Dispatched(if r.Succeeds? then Connected else Disconnected, FromResponse(r))
        else Dispatched(mode, NotImplemented)
      else if cmd.Disconnect? then Dispatched(Disconnected, OkOutcome([]))
      else if cmd.ReceiveDisconnect? then
        // A timeout keeps the connection; a closed inbox ends it even though it is an error.
        Dispatched(if r.Fails? && r.variant == "timeout" then Connected else Disconnected, FromResponse(r))
      else if Offers(MqttClient, cmd) && !cmd.Connect? then Dispatched(Connected, FromResponse(r))
      else Dispatched(mode, NotImplemented)
    case Container =>
      if mode != Running then
        if cmd.Run? then Dispatched(if r.Succeeds? then Running else Stopped, FromResponse(r))
        else if cmd.Stop? then Dispatched(mode, ErrorOutcome("container", Reason("not_running")))
        else Dispatched(mode, NotImplemented)
      else if cmd.Run? then Dispatched(mode, ErrorOutcome("container", Reason("already_running")))
      else if cmd.Stop? then
        // The actor counts as stopped even when removing the container failed.
        Dispatched(Stopped, FromResponse(r))
      else Dispatched(mode, NotImplemented)
    case Exec =>
      if mode != Running then
        if cmd.Run? then Dispatched(if r.Succeeds? then Running else Stopped, FromResponse(r))
        else Dispatched(mode, NotImplemented)
      else if cmd.Run? then Dispatched(mode, ErrorOutcome("exec", Reason("already_running")))
      else Dispatched(mode, NotImplemented)
    case ArgsActor => Dispatched(mode, if cmd.Check? then OkOutcome([]) else NotImplemented)
    case HttpClient => Dispatched(mode, NotImplemented)
  }

  // ── Constructing actors ─────────────────────────────────────────────────────

  datatype ConstructError =
    | UnknownType | BadExpression(error: EvalError) | NoRuntime | RejectedByWorld | BadArgument(name: string)
    | BadKeyword(name: string) | MissingKeyword(name: string) | NotOneImage

  datatype Live = Live(name: string, kind: ActorKind, mode: Mode, view: Option<Dict>)

  datatype DeclaredVar = DeclaredVar(name: string, default: Option<Value>)

  function EvalMapKey(e: Expr, scope: Scope, lib: Library): Result<string, EvalError> {
    if e.Ident? then Ok(e.name)
    else
      var k := Eval(e, scope, lib);
      if k.Err? then Err(k.error)
      else if k.value.StringV? then Ok(k.value.s)
      else if k.value.AtomV? then Ok(k.value.a)
      else Err(BadMapKey)
  }

  function EvalEntries(entries: seq<MapEntry>, scope: Scope, lib: Library): Result<Dict, EvalError> {
    if entries == [] then Ok([])
    else
      var init, last := EvalEntries(entries[..|entries| - 1], scope, lib), entries[|entries| - 1];
      if init.Err? then init
      else
        var k := EvalMapKey(last.key, scope, lib);
        if k.Err? then Err(k.error)
        else
          var v := Eval(last.value, scope, lib);
          if v.Err? then Err(v.error) else Ok(Insert(init.value, k.value, v.value))
  }

  function EvalKeywordValue(v: KeywordValue, scope: Scope, lib: Library): Result<Value, EvalError> {
    match v
    case ExprValue(e) => Eval(e, scope, lib)
    case MapValue(entries) =>
      var r := EvalEntries(entries, scope, lib);
      if r.Ok? then Ok(DictV(r.value)) else Err(r.error)
  }

  function EvalKeywords(kws: seq<KeywordArg>, scope: Scope, lib: Library): Result<Dict, EvalError> {
    if kws == [] then Ok([])
    else
      var init, last := EvalKeywords(kws[..|kws| - 1], scope, lib), kws[|kws| - 1];
      if init.Err? then init
      else
        var v := EvalKeywordValue(last.value, scope, lib);
        if v.Err? then Err(v.error) else Ok(Insert(init.value, last.key, v.value))
  }

  /** Defaults are evaluated against an empty scope. */
  function EvalVars(vars: seq<VarDeclaration>, lib: Library): Result<seq<DeclaredVar>, EvalError> {
    if vars == [] then Ok([])
    else
      var init, last := EvalVars(vars[..|vars| - 1], lib), vars[|vars| - 1];
      if init.Err? then init
      else if last.default.None? then Ok(init.value + [DeclaredVar(last.name, None)])
      else
        var v := Eval(last.default.value, map[], lib);
        if v.Err? then Err(v.error) else Ok(init.value + [DeclaredVar(last.name, Some(v.value))])
  }

  /** A raw `--arg` string in the shape of the default it replaces. */
  function CoerceTo(raw: string, target: Value, lib: Library): Option<Value> {
    match target
    case StringV(_) => Some(StringV(raw))
    case NumberV(_) => if lib.parseInt(raw).Some? then Some(NumberV(lib.parseInt(raw).value)) else None
    case BoolV(_) => if lib.parseBool(raw).Some? then Some(BoolV(lib.parseBool(raw).value)) else None
    case AtomV(_) => Some(AtomV(if raw != [] && raw[0] == ':' then raw[1..] else raw))
    case _ => None
  }

  function ArgValue(v: DeclaredVar, cli: map<string, string>, lib: Library): Option<Value> {
    if v.name !in cli then v.default
    else if v.default.None? then Some(StringV(cli[v.name]))
    else CoerceTo(cli[v.name], v.default.value, lib)
  }

  /** The members of an `args_actor`, one declared variable after the other. */
  function ArgMembers(vars: seq<DeclaredVar>, cli: map<string, string>, lib: Library): Result<Dict, ConstructError> {
    if vars == [] then Ok([])
    else
      var init, last := ArgMembers(vars[..|vars| - 1], cli, lib), vars[|vars| - 1];
      if init.Err? then init
      else if ArgValue(last, cli, lib).None? then Err(BadArgument(last.name))
      else Ok(Insert(init.value, last.name, ArgValue(last, cli, lib).value))
  }

  predicate Declares(vars: seq<DeclaredVar>, name: string) { exists i :: 0 <= i < |vars| && vars[i].name == name }

  function Remove(d: Dict, key: string): Dict {
    if d == [] then []
    else if d[0].key == key then Remove(d[1..], key)
    else [d[0]] + Remove(d[1..], key)
  }

  /** A container's assigned members; a later declaration of a name replaces an earlier one. */
  function AssignedView(vars: seq<DeclaredVar>): Dict {
    if vars == [] then []
    else
      var init, last := AssignedView(vars[..|vars| - 1]), vars[|vars| - 1];
      if last.default.Some? then Insert(init, last.name, last.default.value) else Remove(init, last.name)
  }

  function Construct(decl: TopLevel, world: World, time: nat): Result<Live, ConstructError>
    requires decl.ActorDeclaration?
  {
    if KindByName(decl.actorType).None? then Err(UnknownType)
    else
      var kind := KindByName(decl.actorType).value;
      var keyword := EvalKeywords(decl.keyword, map[], world.lib);
      if keyword.Err? then Err(BadExpression(keyword.error))
      else
        var vars := EvalVars(decl.vars, world.lib);
        if vars.Err? then Err(BadExpression(vars.error))
        else Instantiate(decl.name, kind, keyword.value, vars.value, world, time)
  }

  /** What a container rejects before it prepares its image: a port outside 16 bits, anything but
      exactly one of `image` and `dockerfile`, and one of these that is not a string. */
  function ContainerIssue(keyword: Dict): Option<ConstructError> {
    var port, image, dockerfile := Get(keyword, "internal_port"), Get(keyword, "image"), Get(keyword, "dockerfile");
    if port.Some? && !(port.value.NumberV? && 0 <= port.value.n < 65536) then Some(BadKeyword("internal_port"))
    else if image.Some? == dockerfile.Some? then Some(NotOneImage)
    else if image.Some? && !image.value.StringV? then Some(BadKeyword("image"))
    else if dockerfile.Some? && !dockerfile.value.StringV? then Some(BadKeyword("dockerfile"))
    else None
  }

  /** What an exec actor rejects before it looks at the file system. */
  function ExecIssue(keyword: Dict): Option<ConstructError> {
    var command, cwd := Get(keyword, "command"), Get(keyword, "cwd");
    if command.None? then Some(MissingKeyword("command"))
    else if !command.value.StringV? then Some(BadKeyword("command"))
    else if cwd.Some? && !(cwd.value.StringV? && cwd.value.s != []) then Some(BadKeyword("cwd"))
    else None
  }

  /** The world decides about pulling or building an image and about a working directory; an exec actor
      without one needs nothing from it. */
  function Instantiate(name: string, kind: ActorKind, keyword: Dict, vars: seq<DeclaredVar>, world: World, time: nat)
    : Result<Live, ConstructError>
  {
    match kind
    case PgClient => Ok(Live(name, kind, InitialMode(kind), None))
    case MqttClient => Ok(Live(name, kind, InitialMode(kind), None))
    case Exec =>
      if ExecIssue(keyword).Some? then Err(ExecIssue(keyword).value)
      else if Get(keyword, "cwd").None? || world.constructs(time) then Ok(Live(name, kind, InitialMode(kind), None))
      else Err(RejectedByWorld)
    case Container =>
      if ContainerIssue(keyword).Some? then Err(ContainerIssue(keyword).value)
      else if world.constructs(time) then Ok(Live(name, kind, InitialMode(kind), Some(AssignedView(vars))))
      else Err(RejectedByWorld)
    case ArgsActor =>
      if exists key :: key in world.cli && !Declares(vars, key) then Err(BadArgument(""))
      else
        var members := ArgMembers(vars, world.cli, world.lib);
        if members.Err? then Err(members.error) else Ok(Live(name, kind, InitialMode(kind), Some(members.value)))
    case HttpClient => Err(NoRuntime)
  }

  // ── Sessions ────────────────────────────────────────────────────────────────

  /** `expectsError` records whether the window the command opens refers to `error`. */
  datatype Event =
    | Constructed(actor: string)
    | Executed(actor: string, kind: ActorKind, cmd: Cmd, mode: Mode, outcome: RunOutcome, expectsError: bool)
    | TornDown(actor: string, result: TeardownOutcome)

  datatype Failure =
    | ConstructFailure(actor: string, cause: ConstructError)
    | EvalFailure(actor: string, error: EvalError)
    | NoLiveInstance(actor: string)
    | UnresolvedCommand(actor: string)
    | CommandFailure(actor: string, cmd: Cmd)
    | CommandNotImplemented(actor: string, cmd: Cmd)
    | AssertFailure(actor: string)
    | NotSupported(actor: string)

  /** The live actors in construction order and everything that has happened to them. */
  datatype Session = Session(live: seq<Live>, log: seq<Event>)

  datatype Progress = Progress(session: Session, scope: Scope, failure: Option<Failure>)

  /** The first live actor of a name. */
  function Find(live: seq<Live>, name: string): (at: Option<nat>)
    ensures at.Some? ==> at.value < |live| && live[at.value].name == name
    ensures at.None? ==> forall i :: 0 <= i < |live| ==> live[i].name != name
  {
    if live == [] then None
    else if live[0].name == name then Some(0)
    else
      var rest := Find(live[1..], name);
      if rest.Some? then Some(rest.value + 1) else None
  }

  function BindEntry(scope: Scope, name: string, view: Option<Dict>): Scope {
    if view.Some? then scope[name := DictV(view.value)] else scope - {name}
  }

  function BindViews(scope: Scope, live: seq<Live>): Scope {
    if live == [] then scope
    else
      var last := live[|live| - 1];
      BindEntry(BindViews(scope, live[..|live| - 1]), last.name, last.view)
  }

  /** Refreshes every actor's name and `self` before a statement. */
  function BindSelf(scope: Scope, live: seq<Live>, actor: string): Scope {
    var at := Find(live, actor);
    BindEntry(BindViews(scope, live), "self", if at.Some? then live[at.value].view else None)
  }

  function ErrorDict(variant: string, fields: Dict): Dict {
    Insert(Insert([], "type", AtomV(variant)), variant, DictV(fields))
  }

  predicate RefersToErrorRoot(st: Statement) {
    match st
    case Assert(left, _, _) => StartsWith(left, "error")
    case Let(_, LetExpr(e)) => StartsWith(e, "error")
    case _ => false
  }

  /** Whether `error` is referred to from statement `i` on, before the next command. */
  predicate ErrorRefFrom(body: seq<Statement>, i: nat)
    decreases |body| - i
  {
    i < |body| && !body[i].Command? && (RefersToErrorRoot(body[i]) || ErrorRefFrom(body, i + 1))
  }

  function IsTruthy(v: Value): bool {
    match v
    case BoolV(b) => b
    case NumberV(n) => n != 0
    case FloatV(x) => x != 0.0
    case StringV(s) => s != []
    case ArrayV(items) => items != []
    case DictV(fields) => fields != []
    case BytesV(bytes) => bytes != []
    case AtomV(_) => true
    case NullV => false
  }

  function EvalAssert(st: Statement, scope: Scope, lib: Library): Result<bool, EvalError>
    requires st.Assert?
  {
    var left := Eval(st.left, scope, lib);
    if left.Err? then Err(left.error)
    else if st.op.None? then Ok(IsTruthy(left.value))
    else if st.right.None? then Err(NoRightHandSide)
    else
      var right := Eval(st.right.value, scope, lib);
      if right.Err? then Err(right.error)
      else
        var passed := lib.compare(st.op.value, left.value, right.value);
        if passed.Some? then Ok(passed.value) else Err(CannotCompare)
  }

  /** The first error among a command's arguments, if any. */
  function ArgsError(st: Statement, consumed: nat, scope: Scope, lib: Library): Option<EvalError>
    requires st.Command? && consumed <= |st.positional|
  {
    var p := EvalAll(st.positional[consumed..], scope, lib);
    if p.Err? then Some(p.error)
    else
      var k := EvalKeywords(st.keyword, scope, lib);
      if k.Err? then Some(k.error) else None
  }

  /** A command whose arguments are evaluated meets its actor. */
  function Carry(s: Session, scope: Scope, at: nat, cmd: Cmd, expectsError: bool, world: World): (p: Progress)
    requires at < |s.live|
    ensures |p.session.live| == |s.live|
  {
    var inst := s.live[at];
    var d := Dispatch(inst.kind, inst.mode, cmd, world.respond(|s.log|, inst.kind, cmd));
    var s' := Session(s.live[at := inst.(mode := d.mode)],
                      s.log + [Executed(inst.name, inst.kind, cmd, inst.mode, d.outcome, expectsError)]);
    match d.outcome
    case OkOutcome(fields) => Progress(s', scope["ok" := DictV(fields)], None)
    case ErrorOutcome(variant, fields) =>
      var scope' := scope["error" := DictV(ErrorDict(variant, fields))];
      Progress(s', scope', if expectsError then None else Some(CommandFailure(inst.name, cmd)))
    case NotImplemented => Progress(s', scope, Some(CommandNotImplemented(inst.name, cmd)))
  }

  function RunCommand(r: Progress, at: nat, st: Statement, expectsError: bool, world: World): (p: Progress)
    requires at < |r.session.live| && st.Command?
    ensures |p.session.live| == |r.session.live|
  {
    var inst := r.session.live[at];
    var scope := r.scope - {"ok", "error"};
    var resolved := Resolve(inst.kind, st.name, st.positional);
    if resolved.None? then Progress(r.session, scope, Some(UnresolvedCommand(inst.name)))
    else
      var e := ArgsError(st, resolved.value.consumed, scope, world.lib);
      if e.Some? then Progress(r.session, scope, Some(EvalFailure(inst.name, e.value)))
      else Carry(r.session, scope, at, resolved.value.cmd, expectsError, world)
  }

  /** Runs the statement at `i`, whose actor is the live entry `at`. */
  function RunStatement(r: Progress, at: nat, body: seq<Statement>, i: nat, world: World): (p: Progress)
    requires at < |r.session.live| && i < |body|
    ensures |p.session.live| == |r.session.live|
  {
    var actor := r.session.live[at].name;
    var bound := r.(scope := BindSelf(r.scope, r.session.live, actor));
    match body[i]
    case Command(_, _, _) => RunCommand(bound, at, body[i], ErrorRefFrom(body, i + 1), world)
    case Let(name, LetExpr(e)) =>
      var v := Eval(e, bound.scope, world.lib);
      if v.Err? then bound.(failure := Some(EvalFailure(actor, v.error)))
      else bound.(scope := bound.scope[name := v.value])
    case Let(_, LetParse(_, _)) => bound.(failure := Some(NotSupported(actor)))
    case Assignment(_, _) => bound.(failure := Some(NotSupported(actor)))
    case Assert(_, _, _) =>
      var passed := EvalAssert(body[i], bound.scope, world.lib);
      if passed.Err? then bound.(failure := Some(EvalFailure(actor, passed.error)))
      else if !passed.value then bound.(failure := Some(AssertFailure(actor)))
      else bound
  }

  /** The first `n` statements of a block, in a fresh scope; a failure stops the walk. */
  function RunBody(s: Session, at: nat, body: seq<Statement>, n: nat, world: World): (r: Progress)
    requires at < |s.live| && n <= |body|
    ensures |r.session.live| == |s.live|
  {
    if n == 0 then Progress(s, map[], None)
    else
      var r := RunBody(s, at, body, n - 1, world);
      if r.failure.Some? then r else RunStatement(r, at, body, n - 1, world)
  }

  function RunBlock(s: Session, actor: string, body: seq<Statement>, world: World): Progress {
    var at := Find(s.live, actor);
    if at.None? then Progress(s, map[], Some(NoLiveInstance(actor)))
    else RunBody(s, at.value, body, |body|, world)
  }

  function RunItem(s: Session, item: TopLevel, world: World): Progress {
    match item
    case ActorDeclaration(name, _, _, _) =>
      var inst := Construct(item, world, |s.log|);
      if inst.Err? then Progress(s, map[], Some(ConstructFailure(name, inst.error)))
      else Progress(Session(s.live + [inst.value], s.log + [Constructed(name)]), map[], None)
    case AsBlock(actor, body) => RunBlock(s, actor, body, world)
  }

  const START := Session([], [])

  /** The first `n` items; a failure stops the walk. */
  function RunItems(src: SourceFile, n: nat, world: World): Progress
    requires n <= |src|
  {
    if n == 0 then Progress(START, map[], None)
    else
      var r := RunItems(src, n - 1, world);
      if r.failure.Some? then r else RunItem(r.session, src[n - 1], world)
  }

  // ── Teardown ────────────────────────────────────────────────────────────────

  datatype TeardownReport = TeardownReport(actor: string, result: TeardownOutcome)

  datatype TornAll = TornAll(log: seq<Event>, reports: seq<TeardownReport>)

  /** Last constructed first; reports come back in construction order. */
  function TearDown(live: seq<Live>, log: seq<Event>, world: World): TornAll {
    if live == [] then TornAll(log, [])
    else
      var name, result := live[|live| - 1].name, world.teardown(|log|);
      var rest := TearDown(live[..|live| - 1], log + [TornDown(name, result)], world);
      TornAll(rest.log, rest.reports + [TeardownReport(name, result)])
  }

  datatype TestReport = TestReport(passed: bool, failure: Option<Failure>, teardown: seq<TeardownReport>,
                                   log: seq<Event>)

  function Report(src: SourceFile, world: World): TestReport {
    var r := RunItems(src, |src|, world);
    var torn := TearDown(r.session.live, r.session.log, world);
    TestReport(r.failure.None?, r.failure, torn.reports, torn.log)
  }
}
