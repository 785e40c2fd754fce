/** Command windows: the harness's look-ahead and the validator's fold see the same thing. */
module Windows {
  import opened Common
  import opened Values
  import opened Ast
  import opened Registry
  import opened Evaluation
  import opened Validation
  import opened Execution

  /** An expression rooted at an unbound name cannot be evaluated. */
  lemma {:induction false} UnboundRootFails(e: Expr, name: string, scope: Scope, lib: Library)
    requires StartsWith(e, name) && name !in scope
    ensures Eval(e, scope, lib) == Err(UndefinedName(name))
  {
    match e
    case Member(receiver, _) => UnboundRootFails(receiver, name, scope, lib);
    case Index(receiver, _) => UnboundRootFails(receiver, name, scope, lib);
    case _ =>
  }

  datatype Link = ByName(property: string) | ByIndex(indices: seq<Expr>)

  /** `name` with any number of members and indices behind it. */
  function Chain(name: string, links: seq<Link>): Expr {
    if links == [] then Ident(name)
    else
      var receiver, last := Chain(name, links[..|links| - 1]), links[|links| - 1];
      match last
      case ByName(property) => Member(receiver, property)
      case ByIndex(indices) => Index(receiver, indices)
  }

  lemma {:induction false} ChainStarts(name: string, links: seq<Link>)
    ensures StartsWith(Chain(name, links), name)
  {
    if links != [] {
      ChainStarts(name, links[..|links| - 1]);
    }
  }

  lemma {:induction false} StartsIsChain(e: Expr, name: string) returns (links: seq<Link>)
    requires StartsWith(e, name)
    ensures e == Chain(name, links)
  {
    match e
    case Member(receiver, property) =>
      var init := StartsIsChain(receiver, name);
      links := init + [ByName(property)];
      assert links[..|links| - 1] == init;
    case Index(receiver, indices) =>
      var init := StartsIsChain(receiver, name);
      links := init + [ByIndex(indices)];
      assert links[..|links| - 1] == init;
    case _ => links := [];
  }

  /** The test for a reference to `ok` or `error` finds exactly the chains rooted at that name. */
  lemma StartsWithIff(e: Expr, name: string)
    ensures StartsWith(e, name) <==> exists links :: e == Chain(name, links)
  {
    if StartsWith(e, name) {
      var links := StartsIsChain(e, name);
    } else if exists links :: e == Chain(name, links) {
      var links :| e == Chain(name, links);
      ChainStarts(name, links);
    }
  }

  lemma {:induction false} OneRoot(e: Expr, a: string, b: string)
    requires StartsWith(e, a) && StartsWith(e, b)
    ensures a == b
  {
    match e
    case Member(receiver, _) => OneRoot(receiver, a, b);
    case Index(receiver, _) => OneRoot(receiver, a, b);
    case _ =>
  }

  /** The harness's test for an `error` reference is the validator's. */
  lemma ReferencesAgree(st: Statement)
    ensures RefersToErrorRoot(st) <==> StatementReference(st).RefersToError?
  {
    match st
    case Assert(left, _, _) =>
      if StartsWith(left, "ok") && StartsWith(left, "error") {
        OneRoot(left, "ok", "error");
      }
    case Let(_, LetExpr(e)) =>
      if StartsWith(e, "ok") && StartsWith(e, "error") {
        OneRoot(e, "ok", "error");
      }
    case _ =>
  }

  // ── The fold over one window ────────────────────────────────────────────────

  /** The outcome after the statements `from..end` of a window opened with `start`. */
  function Fold(body: seq<Statement>, from: nat, end: nat, start: CommandOutcome): CommandOutcome
    requires from <= end <= |body|
  {
    if from == end then start else Advance(Fold(body, from, end - 1, start), StatementReference(body[end - 1]))
  }

  predicate NoConflict(body: seq<Statement>, from: nat, end: nat, start: CommandOutcome)
    requires from <= end <= |body|
  {
    forall i :: from <= i < end ==> Conflicts(Fold(body, from, i, start), StatementReference(body[i])) == []
  }

  /** `end` closes the window that starts at `from`: the next command or the end of the block. */
  predicate WindowEnds(body: seq<Statement>, from: nat, end: nat) {
    && from <= end <= |body| && (end == |body| || body[end].Command?)
    && forall i :: from <= i < end ==> !body[i].Command?
  }

  lemma {:induction false} ExplicitErrorStays(body: seq<Statement>, from: nat, mid: nat, end: nat,
                                              start: CommandOutcome)
    requires from <= mid <= end <= |body| && Fold(body, from, mid, start).ExplicitError?
    ensures Fold(body, from, end, start).ExplicitError?
    decreases end - mid
  {
    if mid < end {
      ExplicitErrorStays(body, from, mid, end - 1, start);
    }
  }

  lemma {:induction false} NoReferenceNoError(body: seq<Statement>, from: nat, end: nat)
    requires from <= end <= |body|
    requires forall i :: from <= i < end ==> !RefersToErrorRoot(body[i])
    ensures !Fold(body, from, end, ImpliedOk).ExplicitError?
  {
    if from < end {
      NoReferenceNoError(body, from, end - 1);
      ReferencesAgree(body[end - 1]);
    }
  }

  lemma {:induction false} LookAheadFinds(body: seq<Statement>, from: nat, end: nat)
    requires WindowEnds(body, from, end)
    ensures ErrorRefFrom(body, from) <==> (exists i :: from <= i < end && RefersToErrorRoot(body[i]))
    decreases end - from
  {
    if from < end {
      LookAheadFinds(body, from + 1, end);
      if ErrorRefFrom(body, from) && !RefersToErrorRoot(body[from]) {
        var i :| from + 1 <= i < end && RefersToErrorRoot(body[i]);
      }
    }
  }

  lemma FoldStep(body: seq<Statement>, from: nat, i: nat, start: CommandOutcome)
    requires from <= i < |body|
    ensures Fold(body, from, i + 1, start) == Advance(Fold(body, from, i, start), StatementReference(body[i]))
  {
    hide StatementReference, Advance;
  }

  /** In a window without conflicts, the look-ahead finds an `error` reference exactly when the
      validator's fold ends committed to the error branch. */
  lemma WindowAgreement(body: seq<Statement>, from: nat, end: nat)
    requires WindowEnds(body, from, end) && NoConflict(body, from, end, ImpliedOk)
    ensures ErrorRefFrom(body, from) <==> Fold(body, from, end, ImpliedOk).ExplicitError?
  {
    hide StatementReference, RefersToErrorRoot, ErrorRefFrom, Fold;
    LookAheadFinds(body, from, end);
    if ErrorRefFrom(body, from) {
      var i :| from <= i < end && RefersToErrorRoot(body[i]);
      ReferencesAgree(body[i]);
      assert Conflicts(Fold(body, from, i, ImpliedOk), StatementReference(body[i])) == [];
      FoldStep(body, from, i, ImpliedOk);
      ExplicitErrorStays(body, from, i + 1, end, ImpliedOk);
    } else {
      NoReferenceNoError(body, from, end);
    }
  }

  // ── The fold is the validator's ─────────────────────────────────────────────

  /** After the command at `at`, the walk's outcome is the fold, and a walk without diagnostics
      met no conflict. */
  lemma {:induction false} ValidatorFolds(c: Checker, actor: string, body: seq<Statement>, at: nat, end: nat)
    requires c.Knows(actor) && at < end <= |body| && body[at].Command?
    requires forall i :: at < i < end ==> !body[i].Command?
    ensures var walk := CheckBody(c, actor, body[..end]);
            && walk.window.outcome == Fold(body, at + 1, end, ImpliedOk)
            && (walk.checker.diagnostics == [] ==> NoConflict(body, at + 1, end, ImpliedOk))
  {
    hide CheckStatement, StatementReference, Conflicts, Advance;
    assert body[..end][..end - 1] == body[..end - 1];
    var before := CheckBody(c, actor, body[..end - 1]);
    StatementFolds(before, actor, body[end - 1]);
    if at + 1 < end {
      ValidatorFolds(c, actor, body, at, end - 1);
    }
  }

  /** One statement's effect on the window's outcome and on the diagnostics. */
  lemma StatementFolds(walk: Walk, actor: string, st: Statement)
    requires walk.checker.Knows(actor)
    ensures var next, r := CheckStatement(walk, actor, st), StatementReference(st);
            && next.window.outcome == (if st.Command? then ImpliedOk else Advance(walk.window.outcome, r))
            && (next.checker.diagnostics == [] ==>
                  walk.checker.diagnostics == [] && (!st.Command? ==> Conflicts(walk.window.outcome, r) == []))
  {
    hide Resolve, KeywordIssues, TagsInAll, TagsInKeywords, LetType, StatementTags, StatementReference, Conflicts,
      Advance;
  }

  /** For every window of a block the validator walks without a diagnostic, it commits to the error
      branch exactly when the harness's look-ahead from the window's command expects an error. */
  lemma {:induction false} ValidatorExpectsWhatHarnessExpects(c: Checker, actor: string, body: seq<Statement>,
                                                              at: nat, end: nat)
    requires c.Knows(actor) && at < |body| && body[at].Command? && WindowEnds(body, at + 1, end)
    requires CheckBody(c, actor, body[..end]).checker.diagnostics == []
    ensures CheckBody(c, actor, body[..end]).window.outcome.ExplicitError? <==> ErrorRefFrom(body, at + 1)
  {
    hide CheckBody;
    ValidatorFolds(c, actor, body, at, end);
    WindowAgreement(body, at + 1, end);
  }
}
