/** What becomes of a command in a run: when the run goes on, and what the statements after it see. */
module Outcomes {
  import opened Common
  import opened Values
  import opened Ast
  import opened Registry
  import opened Evaluation
  import opened EvaluationLaws
  import opened Validation
  import opened Execution
  import opened ModeSimulation
  import opened Statements
  import opened QueryResults
  import Harness
  import Shadowing

  // ── When a run goes on past a command ───────────────────────────────────────

  /** A drifted client has no such command; a drifted container or process is in the wrong state for it. */
  lemma MissedOutcome(kind: ActorKind, mode: Mode, cmd: Cmd, r: Response)
    requires Misses(kind, mode, cmd) && Offers(kind, cmd)
    ensures var o := Dispatch(kind, mode, cmd, r).outcome;
            if kind.Container? || kind.Exec? then o.ErrorOutcome? else o.NotImplemented?
  {
    assert TurnsAway(Dispatch(kind, mode, cmd, Succeeds([])).outcome);
    assert TurnsAway(Dispatch(kind, mode, cmd, r).outcome);
  }

  /** What the run needs to get past a command whose arguments evaluate: of an actor that has not drifted,
      that the command cannot fail, that the world lets it succeed, or that its window refers to `error`;
      of a drifted one, that it answers at all and its window refers to `error`. */
  predicate GoesOn(inst: Live, cmd: Cmd, r: Response, drifted: bool, expectsError: bool) {
    if drifted then expectsError && (inst.kind.Container? || inst.kind.Exec?)
    else cmd.Disconnect? || cmd.Check? || r.Succeeds? || expectsError
  }

  /** In an accepted program, a reached command lets the run go on exactly so. If the world refuses a
      command whose window does not refer to `error`, the run fails there, with that command's failure. */
  lemma CommandDecides(src: SourceFile, world: World, b: nat, i: nat)
    requires Accepts(src) && Reaches(src, world, b, i) && i < |src[b].body| && src[b].body[i].Command?
    ensures var r, inst, st := Before(src, world, b, i), Before(src, world, b, i).session.live[Slot(src, world, b, i)],
                               src[b].body[i];
            var resolved := Resolve(inst.kind, st.name, st.positional);
            && resolved.Some?
            && var cmd := resolved.value.cmd;
               var answer := world.respond(|r.session.log|, inst.kind, cmd);
               var drifted, expects := Drifted(r.session.log, inst.name), ErrorRefFrom(src[b].body, i + 1);
               var evaluate := ArgumentsEvaluate(st, resolved.value.consumed,
                                                 Sees(r, Slot(src, world, b, i)) - {"ok", "error"}, world.lib);
            && (Reaches(src, world, b, i + 1) <==> evaluate && GoesOn(inst, cmd, answer, drifted, expects))
            && (evaluate && !drifted && !GoesOn(inst, cmd, answer, drifted, expects) ==>
                  Report(src, world).failure == Some(CommandFailure(src[b].actor, cmd)))
  {
    hide RunItems, RunBody, RunStatement, Before, Slot, Report, Accepts, Drifted, Sees, ArgumentsEvaluate, ErrorRefFrom,
      Resolve, CheckedTo, Checked, CheckedMode;
    ModesSimulated(src, world, b, i);
    StatementDecides(src, world, b, i);
    SlotName(src, world, b, i);
    var r, at, body := Before(src, world, b, i), Slot(src, world, b, i), src[b].body;
    hide Reaches;
    CommandVerdict(r, at, body, i, world);
    var inst := r.session.live[at];
    var cmd := Resolve(inst.kind, body[i].name, body[i].positional).value.cmd;
    var answer := world.respond(|r.session.log|, inst.kind, cmd);
    if Drifted(r.session.log, inst.name) {
      MissedOutcome(inst.kind, inst.mode, cmd, answer);
    } else {
      assert Relays(Dispatch(inst.kind, inst.mode, cmd, answer).outcome, cmd, answer);
    }
    hide Dispatch, Misses, Answers, ErrorMeans;
  }

  // ── What later statements see ───────────────────────────────────────────────

  /** Statements that may give `name` another value. */
  predicate Rebinds(st: Statement, name: string) {
    (st.Let? && st.bound == name) || (st.Command? && (name == "ok" || name == "error"))
  }

  lemma StatementKeepsName(r: Progress, at: nat, body: seq<Statement>, i: nat, world: World, name: string)
    requires at < |r.session.live| && i < |body| && r.failure.None? && !Rebinds(body[i], name)
    requires RunStatement(r, at, body, i, world).failure.None?
    ensures SameAt(RunStatement(r, at, body, i, world).scope, Sees(r, at), name)
  {
    hide BindSelf, Eval, EvalAssert, ArgsError, Dispatch, Resolve, ErrorRefFrom, ErrorDict;
  }

  /** A name keeps its value to the end of a block, unless it is the name of an actor, `self`, or bound
      anew on the way. */
  lemma {:induction false} NamesPersist(src: SourceFile, world: World, b: nat, j: nat, i: nat, name: string)
    requires Reaches(src, world, b, i) && j <= i && Reaches(src, world, b, j) && name != "self"
    requires Shadowing.NoneNamed(RunItems(src, b, world).session.live, name)
    requires forall k :: j <= k < i ==> !Rebinds(src[b].body[k], name)
    ensures SameAt(Sees(Before(src, world, b, i), Slot(src, world, b, i)), Before(src, world, b, j).scope, name)
  {
    hide RunItems, RunStatement, Rebinds, Sees, Shadowing.NoneNamed, SameAt;
    SeesOthers(src, world, b, i, name);
    if j < i {
      EarlierReached(src, world, b, i - 1, i);
      NamesPersist(src, world, b, j, i - 1, name);
      StatementDecides(src, world, b, i - 1);
      SlotName(src, world, b, i - 1);
      StatementKeepsName(Before(src, world, b, i - 1), Slot(src, world, b, i - 1), src[b].body, i - 1, world, name);
    }
    hide Reaches, Before, Slot, Report;
    SameAtIsTransitive(name);
  }

  lemma SameAtIsTransitive(name: string)
    ensures forall a, c, d :: SameAt(a, c, name) && SameAt(c, d, name) ==> SameAt(a, d, name)
  {
  }

  lemma EarlierReached(src: SourceFile, world: World, b: nat, j: nat, i: nat)
    requires Reaches(src, world, b, i) && j <= i
    ensures Reaches(src, world, b, j)
  {
    hide RunItems, RunBody;
    var s := RunItems(src, b, world).session;
    var at := Find(s.live, src[b].actor).value;
    if RunBody(s, at, src[b].body, j, world).failure.Some? {
      Harness.BodyFailureStays(s, at, src[b].body, j, i, world);
    }
  }

  lemma SeesOthers(src: SourceFile, world: World, b: nat, i: nat, name: string)
    requires Reaches(src, world, b, i) && name != "self"
    requires Shadowing.NoneNamed(RunItems(src, b, world).session.live, name)
    ensures SameAt(Sees(Before(src, world, b, i), Slot(src, world, b, i)), Before(src, world, b, i).scope, name)
  {
    SlotName(src, world, b, i);
    hide RunItems, RunBody, Reaches, Before, Slot, Find;
    var live := Before(src, world, b, i).session.live;
    assert Shadowing.NoneNamed(live, name);
    Shadowing.BindViewsKeeps(Before(src, world, b, i).scope, live, name);
    hide BindViews;
  }

  /** What a let bound is what later statements of its block see under the name. */
  lemma LetsPersist(src: SourceFile, world: World, b: nat, j: nat, i: nat)
    requires Reaches(src, world, b, i) && j < i && Reaches(src, world, b, j)
    requires var st := src[b].body[j];
             && st.Let? && st.value.LetExpr? && st.bound != "self"
             && Shadowing.NoneNamed(RunItems(src, b, world).session.live, st.bound)
             && forall k :: j < k < i ==> !Rebinds(src[b].body[k], st.bound)
    ensures var name, scope := src[b].body[j].bound, Sees(Before(src, world, b, i), Slot(src, world, b, i));
            && name in scope
            && Eval(src[b].body[j].value.expr, Sees(Before(src, world, b, j), Slot(src, world, b, j)), world.lib) ==
                 Ok(scope[name])
  {
    hide RunItems, RunBody, RunStatement, Rebinds, Sees, Shadowing.NoneNamed, Before, Slot, Report, Eval;
    EarlierReached(src, world, b, j + 1, i);
    StatementDecides(src, world, b, j);
    SlotName(src, world, b, j);
    NamesPersist(src, world, b, j + 1, i, src[b].body[j].bound);
    hide Reaches;
    LetVerdict(Before(src, world, b, j), Slot(src, world, b, j), src[b].body, j, world);
  }

  /** The run is at statement `i`, in the window of the command at `j`: nothing in between rebinds `ok` or
      `error`, and no actor bears these names. */
  ghost predicate InWindow(src: SourceFile, world: World, b: nat, j: nat, i: nat) {
    && Reaches(src, world, b, i) && j < i && Reaches(src, world, b, j) && src[b].body[j].Command?
    && (forall k :: j < k < i ==> !Rebinds(src[b].body[k], "ok") && !Rebinds(src[b].body[k], "error"))
    && Shadowing.NoneNamed(RunItems(src, b, world).session.live, "ok")
    && Shadowing.NoneNamed(RunItems(src, b, world).session.live, "error")
  }

  /** The command at a reached statement and what the world answers to it. */
  function Asked(src: SourceFile, world: World, b: nat, j: nat): Option<Cmd>
    requires Reaches(src, world, b, j) && j < |src[b].body| && src[b].body[j].Command?
  {
    var inst := Before(src, world, b, j).session.live[Slot(src, world, b, j)];
    var resolved := Resolve(inst.kind, src[b].body[j].name, src[b].body[j].positional);
    if resolved.Some? then Some(resolved.value.cmd) else None
  }

  function Answered(src: SourceFile, world: World, b: nat, j: nat): Response
    requires Reaches(src, world, b, j) && j < |src[b].body| && src[b].body[j].Command?
    requires Asked(src, world, b, j).Some?
  {
    var r := Before(src, world, b, j);
    world.respond(|r.session.log|, r.session.live[Slot(src, world, b, j)].kind, Asked(src, world, b, j).value)
  }

  /** In an accepted program, the world's answer to a command of an actor that has not drifted is what
      every statement of its window sees: the fields under `ok`, or the variant and its fields under
      `error`, and never both. */
  lemma AnswerIsSeen(src: SourceFile, world: World, b: nat, j: nat, i: nat)
    requires Accepts(src) && InWindow(src, world, b, j, i)
    requires !Drifted(Before(src, world, b, j).session.log, src[b].actor)
    ensures Asked(src, world, b, j).Some?
    ensures var cmd, scope := Asked(src, world, b, j).value, Sees(Before(src, world, b, i), Slot(src, world, b, i));
            if cmd.Disconnect? || cmd.Check? then "ok" in scope && scope["ok"] == DictV([]) && "error" !in scope
            else
              match Answered(src, world, b, j)
              case Succeeds(fields) => "ok" in scope && scope["ok"] == DictV(fields) && "error" !in scope
              case Fails(variant, fields) =>
                && "ok" !in scope && "error" in scope && scope["error"].DictV?
                && ErrorMeans(scope["error"].fields, variant, fields)
  {
    hide RunItems, RunBody, RunStatement, Before, Slot, Report, Accepts, Drifted, Sees, ArgumentsEvaluate, ErrorRefFrom,
      Resolve, CheckedTo, Checked, CheckedMode, ErrorMeans, Rebinds, Misses, Shadowing.NoneNamed;
    ModesSimulated(src, world, b, j);
    EarlierReached(src, world, b, j + 1, i);
    StatementDecides(src, world, b, j);
    SlotName(src, world, b, j);
    NamesPersist(src, world, b, j + 1, i, "ok");
    NamesPersist(src, world, b, j + 1, i, "error");
    var r, at, body := Before(src, world, b, j), Slot(src, world, b, j), src[b].body;
    hide Reaches, InWindow;
    CommandVerdict(r, at, body, j, world);
    var inst := r.session.live[at];
    var cmd := Resolve(inst.kind, body[j].name, body[j].positional).value.cmd;
    var answer := world.respond(|r.session.log|, inst.kind, cmd);
    assert Relays(Dispatch(inst.kind, inst.mode, cmd, answer).outcome, cmd, answer);
    hide Dispatch, Answers;
  }

  /** A query from end to end: when the database returned a result set, every spelling of one of its cells
      evaluates to that cell throughout the query's window. */
  lemma QueryIsSeen(src: SourceFile, world: World, b: nat, j: nat, i: nat, rs: ResultSet, row: nat, col: nat)
    requires Accepts(src) && InWindow(src, world, b, j, i)
    requires !Drifted(Before(src, world, b, j).session.log, src[b].actor)
    requires Asked(src, world, b, j) == Some(Query)
    requires rs.Valid() && Answered(src, world, b, j) == Succeeds(ResultDict(rs))
    requires row < |rs.rows| && col < |rs.columns| && Distinct(rs.columns)
    ensures var scope, lib, cell := Sees(Before(src, world, b, i), Slot(src, world, b, i)), world.lib,
                                    rs.rows[row][col];
            && Eval(At(At(OkField("row"), row), col), scope, lib) == Ok(cell)
            && Eval(Index(OkField("row"), [NumberLit(row), NumberLit(col)]), scope, lib) == Ok(cell)
            && Eval(At(At(OkField("col"), col), row), scope, lib) == Ok(cell)
            && Eval(At(Index(OkField("col"), [StringLit([Text(rs.columns[col])])]), row), scope, lib) == Ok(cell)
            && Eval(OkField("row_count"), scope, lib) == Ok(NumberV(|rs.rows|))
  {
    AnswerIsSeen(src, world, b, j, i);
    hide Eval, Reaches, Before, Slot, Sees, Accepts, Drifted, Asked, Answered, ResultDict;
    var scope := Sees(Before(src, world, b, i), Slot(src, world, b, i));
    QueryViewsAgree(rs, scope, world.lib, row, col);
    ViewsEndAtCounts(rs, scope, world.lib, row, col);
  }
}
