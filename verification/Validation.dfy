/** What validating a program means: a symbolic walk over its items, statement by statement.
    The class in `Validator` is proved to compute exactly this. */
module Validation {
  import opened Common
  import opened Values
  import opened Ast
  import opened Registry
  import opened Evaluation

  datatype Diagnostic =
    | DuplicateActor(actor: string)
    | UnknownActorType(actorType: string)
    | UnknownActor(actor: string)
    | UnknownCommand(command: string)
    | CommandNotValidInMode(cmd: Cmd, mode: Mode)
    | MissingRequiredArg
    | UnknownKeywordArg(key: string)
    | ConflictingOutcomeAsserts
    | UnknownSquiggleTag(tag: string)

  type VarTypes = map<string, ValueType>

  /** A declared actor. `Errored` poisons the name after a failed declaration. */
  datatype Entry = Errored | Healthy(kind: ActorKind, mode: Mode, vars: VarTypes)

  type Actors = map<string, Entry>

  datatype Checker = Checker(actors: Actors, diagnostics: seq<Diagnostic>) {
    function Report(more: seq<Diagnostic>): Checker { this.(diagnostics := diagnostics + more) }

    predicate Knows(name: string) { name in actors && actors[name].Healthy? }
  }

  /** The outcome a command window has committed to so far. */
  datatype CommandOutcome = ImpliedOk | ExplicitOk | ExplicitError

  /** State of the command window: its outcome, the transition held back until the outcome is known,
      and the fields the last command declares. */
  datatype Window = Window(
    outcome: CommandOutcome,
    pending: Option<Mode>,
    okFields: seq<OutcomeField>,
    errorTypes: seq<ErrorType>)

  const NO_COMMAND := Window(ImpliedOk, None, [], [])

  // ── Squiggle tags ───────────────────────────────────────────────────────────

  /** One diagnostic for each unregistered tag, anywhere inside the expression. */
  function TagsIn(e: Expr): seq<Diagnostic>
    decreases e, 1
  {
    match e
    case Squiggle(tag, fragments) =>
      (if SquiggleType(tag).None? then [UnknownSquiggleTag(tag)] else []) + TagsInFragments(fragments)
    case StringLit(fragments) => TagsInFragments(fragments)
    case ArrayLit(items) => TagsInAll(items)
    case Member(receiver, _) => TagsIn(receiver)
    case Index(receiver, indices) => TagsIn(receiver) + TagsInAll(indices)
    case _ => []
  }

  function TagsInAll(es: seq<Expr>): seq<Diagnostic>
    decreases es, 0
  {
    if es == [] then [] else TagsIn(es[0]) + TagsInAll(es[1..])
  }

  function TagsInFragments(fragments: seq<Fragment>): seq<Diagnostic>
    decreases fragments, 0
  {
    if fragments == [] then [] else TagsInFragment(fragments[0]) + TagsInFragments(fragments[1..])
  }

  function TagsInFragment(f: Fragment): seq<Diagnostic>
    decreases f, 0
  {
    match f
    case Text(_) => []
    case Interpolation(e) => TagsIn(e)
  }

  function TagsInEntries(entries: seq<MapEntry>): seq<Diagnostic> {
    if entries == [] then []
    else
      var init, last := entries[..|entries| - 1], entries[|entries| - 1];
      TagsInEntries(init) + TagsIn(last.key) + TagsIn(last.value)
  }

  function TagsInValue(v: KeywordValue): seq<Diagnostic> {
    match v
    case ExprValue(e) => TagsIn(e)
    case MapValue(entries) => TagsInEntries(entries)
  }

  function TagsInKeywords(kws: seq<KeywordArg>): seq<Diagnostic> {
    if kws == [] then [] else TagsInKeywords(kws[..|kws| - 1]) + TagsInValue(kws[|kws| - 1].value)
  }

  // ── Keyword arguments ───────────────────────────────────────────────────────

  function UnknownKeywords(provided: seq<KeywordArg>, expected: seq<KeywordDef>): seq<Diagnostic> {
    if provided == [] then []
    else
      var last := provided[|provided| - 1];
      UnknownKeywords(provided[..|provided| - 1], expected)
      + if Declared(last.key, expected) then [] else [UnknownKeywordArg(last.key)]
  }

  function MissingKeywords(provided: seq<KeywordArg>, expected: seq<KeywordDef>): seq<Diagnostic> {
    if expected == [] then []
    else
      var last := expected[|expected| - 1];
      MissingKeywords(provided, expected[..|expected| - 1])
      + if last.required && !Provided(last.name, provided)
        then [MissingRequiredArg] else []
  }

  function KeywordIssues(provided: seq<KeywordArg>, expected: seq<KeywordDef>): seq<Diagnostic> {
    UnknownKeywords(provided, expected) + MissingKeywords(provided, expected)
  }

  predicate Declared(key: string, expected: seq<KeywordDef>) {
    exists i :: 0 <= i < |expected| && expected[i].name == key
  }

  predicate Provided(name: string, provided: seq<KeywordArg>) {
    exists i :: 0 <= i < |provided| && provided[i].key == name
  }

  lemma {:induction false} NoUnknownKeywordsIff(provided: seq<KeywordArg>, expected: seq<KeywordDef>)
    ensures UnknownKeywords(provided, expected) == [] <==>
              (forall i :: 0 <= i < |provided| ==> Declared(provided[i].key, expected))
  {
    hide Declared;
    if provided != [] {
      var init, last := provided[..|provided| - 1], provided[|provided| - 1];
      NoUnknownKeywordsIff(init, expected);
      assert provided == init + [last];
    }
  }

  lemma {:induction false} NoMissingKeywordsIff(provided: seq<KeywordArg>, expected: seq<KeywordDef>)
    ensures MissingKeywords(provided, expected) == [] <==>
              (forall i :: 0 <= i < |expected| && expected[i].required ==> Provided(expected[i].name, provided))
  {
    hide Provided;
    if expected != [] {
      var init, last := expected[..|expected| - 1], expected[|expected| - 1];
      NoMissingKeywordsIff(provided, init);
      assert expected == init + [last];
    }
  }

  /** Keyword arguments pass exactly when each is declared and each required one is there. */
  lemma KeywordsPassIff(provided: seq<KeywordArg>, expected: seq<KeywordDef>)
    ensures KeywordIssues(provided, expected) == [] <==>
              && (forall i :: 0 <= i < |provided| ==> Declared(provided[i].key, expected))
              && (forall i :: 0 <= i < |expected| && expected[i].required ==> Provided(expected[i].name, provided))
  {
    NoUnknownKeywordsIff(provided, expected);
    NoMissingKeywordsIff(provided, expected);
  }

  // ── Expression types ────────────────────────────────────────────────────────

  /** Context-free type of an expression. */
  function ExprType(e: Expr): ValueType {
    match e
    case StringLit(_) => StringT
    case NumberLit(_) => NumberT
    case BoolLit(_) => BoolT
    case NullLit => NullT
    case AtomLit(_) => AtomT
    case Squiggle(tag, _) => if SquiggleType(tag).Some? then SquiggleType(tag).value else UnknownT
    case _ => UnknownT
  }

  function FieldType(fields: seq<OutcomeField>, name: string): Option<ValueType> {
    if fields == [] then None
    else if fields[0].name == name then Some(fields[0].ty)
    else FieldType(fields[1..], name)
  }

  function Variant(types: seq<ErrorType>, name: string): Option<ErrorType> {
    if types == [] then None else if types[0].name == name then Some(types[0]) else Variant(types[1..], name)
  }

  /** `ok.<field>`, `error.type`, `error.<variant>` or `error.<variant>.<field>`. */
  function OutcomeChainType(e: Expr, w: Window): Option<ValueType> {
    match e
    case Member(Ident(root), property) =>
      if root == "ok" then FieldType(w.okFields, property)
      else if root == "error" then
        if property == "type" then Some(AtomT)
        else if Variant(w.errorTypes, property).Some? then Some(UnknownT)
        else None
      else None
    case Member(Member(Ident(root), variant), property) =>
      if root != "error" || Variant(w.errorTypes, variant).None? then None
      else FieldType(Variant(w.errorTypes, variant).value.fields, property)
    case _ => None
  }

  function ExprTypeInActor(e: Expr, vars: VarTypes, w: Window): ValueType {
    match e
    case Member(Ident(root), property) =>
      if root == "self" then if property in vars then vars[property] else UnknownT
      else if OutcomeChainType(e, w).Some? then OutcomeChainType(e, w).value
      else UnknownT
    case Member(_, _) => if OutcomeChainType(e, w).Some? then OutcomeChainType(e, w).value else UnknownT
    case Ident(name) => if name in vars then vars[name] else UnknownT
    case _ => ExprType(e)
  }

  // ── Command windows ─────────────────────────────────────────────────────────

  /** Whether an expression commits the window to the ok or the error branch. */
  datatype Reference = RefersToOk | RefersToError | NoReference

  function ReferenceOf(e: Expr): Reference {
    if StartsWith(e, "ok") then RefersToOk else if StartsWith(e, "error") then RefersToError else NoReference
  }

  function StatementReference(st: Statement): Reference {
    match st
    case Assert(left, _, _) => ReferenceOf(left)
    case Let(_, LetExpr(e)) => ReferenceOf(e)
    case _ => NoReference
  }

  function Advance(current: CommandOutcome, r: Reference): CommandOutcome {
    if r.NoReference? || !current.ImpliedOk? then current
    else if r.RefersToOk? then ExplicitOk
    else ExplicitError
  }

  function Conflicts(current: CommandOutcome, r: Reference): seq<Diagnostic> {
    if (current.ExplicitOk? && r.RefersToError?) || (current.ExplicitError? && r.RefersToOk?)
    then [ConflictingOutcomeAsserts] else []
  }

  /** Applies the held-back transition unless the window committed to the error branch. */
  function Settle(actors: Actors, w: Window, actor: string): Actors {
    if !w.outcome.ExplicitError? && w.pending.Some? && actor in actors && actors[actor].Healthy?
    then actors[actor := actors[actor].(mode := w.pending.value)]
    else actors
  }

  datatype CommandCheck = CommandCheck(diagnostics: seq<Diagnostic>, window: Window)

  /** Checks one command of a healthy actor and opens its window. */
  function CheckCommand(entry: Entry, st: Statement): CommandCheck
    requires entry.Healthy? && st.Command?
  {
    var resolved := Resolve(entry.kind, st.name, st.positional);
    if resolved.None? then CommandCheck([UnknownCommand(st.name)], NO_COMMAND)
    else
      var cmd := resolved.value.cmd;
      if entry.mode !in ValidModes(cmd) then CommandCheck([CommandNotValidInMode(cmd, entry.mode)], NO_COMMAND)
      else
        var args := st.positional[resolved.value.consumed..];
        CommandCheck(
          (if |args| < PositionalCount(cmd) then [MissingRequiredArg] else [])
          + TagsInAll(args)
          + KeywordIssues(st.keyword, Keywords(entry.kind, cmd))
          + TagsInKeywords(st.keyword),
          Window(ImpliedOk, TransitionsTo(cmd), OkFields(entry.kind, cmd), ErrorTypes(entry.kind, cmd)))
  }

  datatype Walk = Walk(checker: Checker, window: Window)

  function LetType(v: LetValue, vars: VarTypes, w: Window): ValueType {
    match v
    case LetExpr(e) => ExprTypeInActor(e, vars, w)
    case LetParse(_, format) => if format == "json" then DynamicT else UnknownT
  }

  function StatementTags(st: Statement): seq<Diagnostic> {
    match st
    case Command(_, _, _) => []
    case Let(_, LetExpr(e)) => TagsIn(e)
    case Let(_, LetParse(source, _)) => TagsIn(source)
    case Assignment(target, source) => TagsIn(target) + TagsIn(source)
    case Assert(left, _, right) => TagsIn(left) + if right.Some? then TagsIn(right.value) else []
  }

  function Bind(actors: Actors, actor: string, name: string, ty: ValueType): Actors {
    if actor in actors && actors[actor].Healthy?
    then actors[actor := actors[actor].(vars := actors[actor].vars[name := ty])]
    else actors
  }

  function CheckStatement(walk: Walk, actor: string, st: Statement): Walk
    requires walk.checker.Knows(actor)
  {
    var c, w := walk.checker, walk.window;
    if st.Command? then
      var settled := Settle(c.actors, w, actor);
      var checked := CheckCommand(settled[actor], st);
      Walk(Checker(settled, c.diagnostics + checked.diagnostics), checked.window)
    else
      var r := StatementReference(st);
      var w' := w.(outcome := Advance(w.outcome, r));
      var c' := c.Report(Conflicts(w.outcome, r) + StatementTags(st));
      if st.Let?
      then Walk(c'.(actors := Bind(c.actors, actor, st.bound, LetType(st.value, c.actors[actor].vars, w'))), w')
      else Walk(c', w')
  }

  function CheckBody(c: Checker, actor: string, body: seq<Statement>): (walk: Walk)
    requires c.Knows(actor)
    ensures walk.checker.Knows(actor)
  {
    if body == [] then Walk(c, NO_COMMAND)
    else CheckStatement(CheckBody(c, actor, body[..|body| - 1]), actor, body[|body| - 1])
  }

  function CheckBlock(c: Checker, actor: string, body: seq<Statement>): Checker {
    if actor !in c.actors then c.Report([UnknownActor(actor)])
    else if c.actors[actor].Errored? then c
    else
      var end := CheckBody(c, actor, body);
      end.checker.(actors := Settle(end.checker.actors, end.window, actor))
  }

  // ── Declarations and whole programs ─────────────────────────────────────────

  function DeclaredType(v: VarDeclaration): ValueType {
    if v.default.Some? then ExprType(v.default.value) else UnknownT
  }

  function DeclaredTypes(vars: seq<VarDeclaration>): VarTypes {
    if vars == [] then map[]
    else DeclaredTypes(vars[..|vars| - 1])[vars[|vars| - 1].name := DeclaredType(vars[|vars| - 1])]
  }

  function DefaultTags(vars: seq<VarDeclaration>): seq<Diagnostic> {
    if vars == [] then []
    else
      var last := vars[|vars| - 1];
      DefaultTags(vars[..|vars| - 1]) + if last.default.Some? then TagsIn(last.default.value) else []
  }

  function Register(c: Checker, decl: TopLevel): Checker
    requires decl.ActorDeclaration?
  {
    if c.Knows(decl.name) then c.Report([DuplicateActor(decl.name)])
    else if KindByName(decl.actorType).None? then
      Checker(c.actors[decl.name := Errored], c.diagnostics + [UnknownActorType(decl.actorType)])
    else
      var kind := KindByName(decl.actorType).value;
      Checker(
        c.actors[decl.name := Healthy(kind, InitialMode(kind), DeclaredTypes(decl.vars))],
        c.diagnostics + KeywordIssues(decl.keyword, ConstructorKeywords(kind))
        + TagsInKeywords(decl.keyword) + DefaultTags(decl.vars))
  }

  /** First pass: every declaration, wherever it stands. */
  function RegisterAll(items: seq<TopLevel>): Checker {
    if items == [] then Checker(map[], [])
    else
      var c, last := RegisterAll(items[..|items| - 1]), items[|items| - 1];
      if last.ActorDeclaration? then Register(c, last) else c
  }

  /** Second pass: the `as` blocks in order. */
  function CheckItems(c: Checker, items: seq<TopLevel>): Checker {
    if items == [] then c
    else
      var c', last := CheckItems(c, items[..|items| - 1]), items[|items| - 1];
      if last.AsBlock? then CheckBlock(c', last.actor, last.body) else c'
  }

  function Validated(src: SourceFile): Checker { CheckItems(RegisterAll(src), src) }

  predicate Accepts(src: SourceFile) { Validated(src).diagnostics == [] }
}
