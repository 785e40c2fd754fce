/** When a success cannot pass for an error: what a program must not do with the name `error`. */
module Shadowing {
  import opened Common
  import opened Values
  import opened Ast
  import opened Registry
  import opened Evaluation
  import opened Validation
  import opened Execution
  import opened Windows
  import opened ModeSimulation

  // ── The condition on programs ───────────────────────────────────────────────

  /** From statement `n` on, inside its window, a `let` binds `error` before the first reference to it. */
  predicate ShadowsError(body: seq<Statement>, n: nat)
    decreases |body| - n
  {
    && n < |body| && !body[n].Command? && !RefersToErrorRoot(body[n])
    && ((body[n].Let? && body[n].bound == "error" && ErrorRefFrom(body, n + 1)) || ShadowsError(body, n + 1))
  }

  /** The actor types whose live instances are bound under their name. */
  predicate HasView(kind: ActorKind) { kind.Container? || kind.ArgsActor? }

  /** An item before `b` declares an actor that is bound as `error`. */
  predicate ErrorActorBefore(src: SourceFile, b: nat)
    requires b <= |src|
  {
    exists i :: && 0 <= i < b && src[i].ActorDeclaration? && src[i].name == "error"
                && KindByName(src[i].actorType).Some? && HasView(KindByName(src[i].actorType).value)
  }

  /** In no window that refers to `error` is the name bound, before the first reference, by anything but
      the window's command. */
  predicate ErrorLeftAlone(src: SourceFile) {
    forall b, j :: 0 <= b < |src| && src[b].AsBlock? && 0 <= j < |src[b].body| && src[b].body[j].Command?
                   && ErrorRefFrom(src[b].body, j + 1) ==>
      !ShadowsError(src[b].body, j + 1) && !ErrorActorBefore(src, b)
  }

  // ── No window deceives ──────────────────────────────────────────────────────

  predicate Unviewed(live: seq<Live>, name: string) {
    forall k :: 0 <= k < |live| && live[k].name == name ==> live[k].view.None?
  }

  predicate NoneDeceived(log: seq<Event>) { forall i :: 0 <= i < |log| ==> !Deceives(log[i]) }

  lemma {:induction false} ViewsLeaveUnbound(scope: Scope, live: seq<Live>, name: string)
    requires Unviewed(live, name) && name !in scope
    ensures name !in BindViews(scope, live)
  {
    if live != [] {
      ViewsLeaveUnbound(scope, live[..|live| - 1], name);
    }
  }

  lemma RefreshLeavesUnbound(scope: Scope, live: seq<Live>, actor: string, name: string)
    requires Unviewed(live, name) && name !in scope && name != "self"
    ensures name !in BindSelf(scope, live, actor)
  {
    ViewsLeaveUnbound(scope, live, name);
  }

  lemma UnboundErrorReferenceFails(st: Statement, scope: Scope, lib: Library)
    requires RefersToErrorRoot(st) && "error" !in scope
    ensures (st.Assert? && Eval(st.left, scope, lib).Err?)
            || (st.Let? && st.value.LetExpr? && Eval(st.value.expr, scope, lib).Err?)
  {
    UnboundRootFails(if st.Assert? then st.left else st.value.expr, "error", scope, lib);
  }

  predicate BodyLeavesAlone(body: seq<Statement>, live: seq<Live>) {
    forall j :: 0 <= j < |body| && body[j].Command? && ErrorRefFrom(body, j + 1) ==>
      !ShadowsError(body, j + 1) && Unviewed(live, "error")
  }

  /** Nothing has deceived so far, or only the last command did and its window's first reference to
      `error` is still ahead, with the name unbound. */
  predicate Undeceived(r: Progress, body: seq<Statement>, n: nat) {
    || NoneDeceived(r.session.log)
    || (&& r.session.log != [] && NoneDeceived(r.session.log[..|r.session.log| - 1])
        && ErrorRefFrom(body, n) && !ShadowsError(body, n)
        && "error" !in r.scope && Unviewed(r.session.live, "error"))
  }

  lemma CarryUndeceived(s: Session, scope: Scope, at: nat, cmd: Cmd, body: seq<Statement>, n: nat, world: World)
    requires at < |s.live| && n < |body| && body[n].Command? && BodyLeavesAlone(body, s.live)
    requires NoneDeceived(s.log) && "error" !in scope
    ensures Undeceived(Carry(s, scope, at, cmd, ErrorRefFrom(body, n + 1), world), body, n + 1)
  {
    hide Dispatch, ErrorRefFrom, ShadowsError;
    var p := Carry(s, scope, at, cmd, ErrorRefFrom(body, n + 1), world).session;
    assert p.log[..|p.log| - 1] == s.log;
    assert forall k :: 0 <= k < |s.live| ==> p.live[k].name == s.live[k].name && p.live[k].view == s.live[k].view;
  }

  lemma {:induction false} CommandUndeceived(r: Progress, at: nat, body: seq<Statement>, n: nat, world: World)
    requires at < |r.session.live| && n < |body| && body[n].Command? && BodyLeavesAlone(body, r.session.live)
    requires Undeceived(r, body, n) && RunStatement(r, at, body, n, world).failure.None?
    ensures Undeceived(RunStatement(r, at, body, n, world), body, n + 1)
  {
    assert NoneDeceived(r.session.log);
    hide Undeceived, BodyLeavesAlone, NoneDeceived, Carry, BindSelf, ArgsError, Resolve, ErrorRefFrom;
    var inst := r.session.live[at];
    var scope := BindSelf(r.scope, r.session.live, inst.name) - {"ok", "error"};
    var resolved := Resolve(inst.kind, body[n].name, body[n].positional);
    CarryUndeceived(r.session, scope, at, resolved.value.cmd, body, n, world);
  }

  lemma {:induction false} QuietUndeceived(r: Progress, at: nat, body: seq<Statement>, n: nat, world: World)
    requires at < |r.session.live| && n < |body| && !body[n].Command? && r.failure.None?
    requires Undeceived(r, body, n) && RunStatement(r, at, body, n, world).failure.None?
    ensures Undeceived(RunStatement(r, at, body, n, world), body, n + 1)
  {
    hide BindSelf, Eval, RefersToErrorRoot, NoneDeceived, Unviewed;
    if !NoneDeceived(r.session.log) {
      var actor := r.session.live[at].name;
      RefreshLeavesUnbound(r.scope, r.session.live, actor, "error");
      if RefersToErrorRoot(body[n]) {
        UnboundErrorReferenceFails(body[n], BindSelf(r.scope, r.session.live, actor), world.lib);
      }
    }
  }

  lemma SameViews(before: seq<Live>, after: seq<Live>, at: nat, body: seq<Statement>)
    requires SameActors(before, after, at) && BodyLeavesAlone(body, before)
    ensures BodyLeavesAlone(body, after)
  {
    hide ErrorRefFrom, ShadowsError;
    assert Unviewed(before, "error") ==> Unviewed(after, "error");
  }

  lemma {:induction false} BodyUndeceived(s: Session, at: nat, body: seq<Statement>, n: nat, world: World)
    requires at < |s.live| && n <= |body| && BodyLeavesAlone(body, s.live) && NoneDeceived(s.log)
    requires RunBody(s, at, body, n, world).failure.None?
    ensures Undeceived(RunBody(s, at, body, n, world), body, n)
  {
    hide RunStatement, BodyLeavesAlone, SameActors, OnlyExecuted, ErrorRefFrom, ShadowsError, Unviewed, NoneDeceived;
    if n > 0 {
      hide Undeceived;
      BodyUndeceived(s, at, body, n - 1, world);
      BodyFrame(s, at, body, n - 1, world);
      var r := RunBody(s, at, body, n - 1, world);
      SameViews(s.live, r.session.live, at, body);
      if body[n - 1].Command? {
        CommandUndeceived(r, at, body, n - 1, world);
      } else {
        QuietUndeceived(r, at, body, n - 1, world);
      }
    }
  }

  lemma ConstructedView(decl: TopLevel, world: World, time: nat)
    requires decl.ActorDeclaration? && Construct(decl, world, time).Ok?
    ensures var inst := Construct(decl, world, time).value;
            && inst.name == decl.name && KindByName(decl.actorType) == Some(inst.kind)
            && (inst.view.Some? ==> HasView(inst.kind))
  {
    hide EvalKeywords, EvalVars, ArgMembers, AssignedView, KindByName, Declares;
  }

  /** What holds before every item of any run. */
  predicate ItemsLeaveAlone(src: SourceFile, b: nat, s: Session)
    requires b <= |src|
  {
    NoneDeceived(s.log) && (!ErrorActorBefore(src, b) ==> Unviewed(s.live, "error"))
  }

  lemma DeclarationLeavesAlone(src: SourceFile, b: nat, s: Session, world: World)
    requires b < |src| && src[b].ActorDeclaration? && ItemsLeaveAlone(src, b, s)
    requires RunItem(s, src[b], world).failure.None?
    ensures ItemsLeaveAlone(src, b + 1, RunItem(s, src[b], world).session)
  {
    hide Construct, KindByName;
    ConstructedView(src[b], world, |s.log|);
    var inst := Construct(src[b], world, |s.log|).value;
    assert forall k :: 0 <= k < |s.live| ==> (s.live + [inst])[k] == s.live[k];
    if !ErrorActorBefore(src, b + 1) {
      assert !ErrorActorBefore(src, b);
    }
  }

  lemma BlockLeavesAlone(src: SourceFile, b: nat, s: Session, world: World)
    requires b < |src| && src[b].AsBlock? && ErrorLeftAlone(src) && ItemsLeaveAlone(src, b, s)
    requires RunItem(s, src[b], world).failure.None?
    ensures ItemsLeaveAlone(src, b + 1, RunItem(s, src[b], world).session)
  {
    hide RunBody, KindByName, ShadowsError;
    var body := src[b].body;
    var at := Find(s.live, src[b].actor).value;
    BodyUndeceived(s, at, body, |body|, world);
    BodyFrame(s, at, body, |body|, world);
    assert ErrorActorBefore(src, b) ==> ErrorActorBefore(src, b + 1);
  }

  lemma {:induction false} RunLeavesAlone(src: SourceFile, b: nat, world: World)
    requires b <= |src| && ErrorLeftAlone(src) && RunItems(src, b, world).failure.None?
    ensures ItemsLeaveAlone(src, b, RunItems(src, b, world).session)
  {
    hide RunItem, ErrorLeftAlone, ErrorActorBefore;
    if b > 0 {
      hide ItemsLeaveAlone;
      RunLeavesAlone(src, b - 1, world);
      var s := RunItems(src, b - 1, world).session;
      if src[b - 1].ActorDeclaration? {
        DeclarationLeavesAlone(src, b - 1, s, world);
      } else {
        BlockLeavesAlone(src, b - 1, s, world);
      }
    }
  }

  predicate AbsorbedError(log: seq<Event>, actor: string) {
    exists i :: 0 <= i < |log| && MovesByError(log[i]) && log[i].actor == actor
  }

  /** In a program that leaves `error` alone, a run that got through a window has not been deceived, so
      that a drifted actor is one that absorbed an error. This holds for programs the validator rejects
      as well. */
  lemma {:induction false} NeverDeceived(src: SourceFile, world: World, b: nat, i: nat, actor: string)
    requires ErrorLeftAlone(src) && Reaches(src, world, b, i) && (i == |src[b].body| || src[b].body[i].Command?)
    ensures NoneDeceived(Before(src, world, b, i).session.log)
    ensures Drifted(Before(src, world, b, i).session.log, actor) <==>
              AbsorbedError(Before(src, world, b, i).session.log, actor)
  {
    hide RunBody, RunItems, ShadowsError, MovesByError;
    RunLeavesAlone(src, b, world);
    var s, body := RunItems(src, b, world).session, src[b].body;
    var at := Find(s.live, src[b].actor).value;
    BodyUndeceived(s, at, body, i, world);
  }

  // ── Branch agreement ────────────────────────────────────────────────────────

  /** Through a window, the last event stays that of its command. */
  lemma {:induction false} WindowKeepsEvent(s: Session, at: nat, body: seq<Statement>, j: nat, n: nat, world: World)
    requires at < |s.live| && j < n <= |body| && body[j].Command? && (forall k :: j < k < n ==> !body[k].Command?)
    requires RunBody(s, at, body, n, world).failure.None?
    ensures var log := RunBody(s, at, body, n, world).session.log;
            && log != [] && log[|log| - 1].Executed? && log[|log| - 1].actor == s.live[at].name
            && log[|log| - 1].expectsError == ErrorRefFrom(body, j + 1)
            && (log[|log| - 1].outcome.ErrorOutcome? ==> ErrorRefFrom(body, j + 1))
            && !log[|log| - 1].outcome.NotImplemented?
  {
    hide RunBody, RunStatement, ErrorRefFrom;
    RunBodyStep(s, at, body, n, world);
    var r := RunBody(s, at, body, n - 1, world);
    BodyFrame(s, at, body, n - 1, world);
    if j + 1 < n {
      WindowKeepsEvent(s, at, body, j, n - 1, world);
      QuietLogsNothing(r, at, body, n - 1, world);
    } else {
      CommandLogged(r, at, body, j, world);
    }
  }

  lemma QuietLogsNothing(r: Progress, at: nat, body: seq<Statement>, n: nat, world: World)
    requires at < |r.session.live| && n < |body| && !body[n].Command?
    ensures RunStatement(r, at, body, n, world).session == r.session
  {
    hide BindSelf, Eval, EvalAssert;
  }

  lemma CommandLogged(r: Progress, at: nat, body: seq<Statement>, n: nat, world: World)
    requires at < |r.session.live| && n < |body| && body[n].Command?
    requires RunStatement(r, at, body, n, world).failure.None?
    ensures var log := RunStatement(r, at, body, n, world).session.log;
            && log != [] && log[|log| - 1].Executed? && log[|log| - 1].actor == r.session.live[at].name
            && log[|log| - 1].expectsError == ErrorRefFrom(body, n + 1)
            && (log[|log| - 1].outcome.ErrorOutcome? ==> ErrorRefFrom(body, n + 1))
            && !log[|log| - 1].outcome.NotImplemented?
  {
    hide BindSelf, ArgsError, Resolve, Dispatch, ErrorRefFrom;
  }

  /** The last event is the actor's, and the window is committed to the error branch exactly when that
      command failed or succeeded unnoticed, and exactly when it failed if `error` is left alone. */
  predicate CommittedIff(log: seq<Event>, actor: string, committed: bool, alone: bool) {
    && log != [] && log[|log| - 1].Executed? && log[|log| - 1].actor == actor
    && (committed <==> log[|log| - 1].outcome.ErrorOutcome? || Deceives(log[|log| - 1]))
    && (alone ==> (committed <==> log[|log| - 1].outcome.ErrorOutcome?))
  }

  /** Branch agreement. Where the window of the command at `j` ends, in an accepted program, the
      validator has committed it to the error branch exactly when the command failed, or succeeded
      unnoticed; the latter only in programs that do not leave `error` alone. */
  lemma {:induction false} BranchesAgree(src: SourceFile, world: World, b: nat, j: nat, i: nat)
    requires Accepts(src) && Reaches(src, world, b, i) && j < i && src[b].body[j].Command?
    requires WindowEnds(src[b].body, j + 1, i)
    ensures CheckedTo(src, b).Knows(src[b].actor)
    ensures CommittedIff(Before(src, world, b, i).session.log, src[b].actor,
                         Checked(src, b, i).window.outcome.ExplicitError?, ErrorLeftAlone(src))
  {
    hide Accepts, RunItems, RunBody, CheckBody, InStep, CheckedTo, ErrorLeftAlone, ErrorRefFrom;
    ReachedInStep(src, world, b, i);
    var s, body := RunItems(src, b, world).session, src[b].body;
    WindowKeepsEvent(s, Find(s.live, src[b].actor).value, body, j, i, world);
    ValidatorExpectsWhatHarnessExpects(CheckedTo(src, b), src[b].actor, body, j, i);
    if ErrorLeftAlone(src) {
      NeverDeceived(src, world, b, i, src[b].actor);
    }
  }

  // ── When `error` is no name at all ──────────────────────────────────────────

  predicate BindsNo(body: seq<Statement>, name: string) {
    forall i :: 0 <= i < |body| ==> body[i].Let? ==> body[i].bound != name
  }

  /** No `let` and no actor shadows `error`. */
  predicate ErrorIsNotAName(src: SourceFile) {
    forall i :: 0 <= i < |src| ==>
      (src[i].ActorDeclaration? ==> src[i].name != "error") && (src[i].AsBlock? ==> BindsNo(src[i].body, "error"))
  }

  predicate NoneNamed(live: seq<Live>, name: string) { forall k :: 0 <= k < |live| ==> live[k].name != name }

  lemma {:induction false} BindViewsKeeps(scope: Scope, live: seq<Live>, name: string)
    requires NoneNamed(live, name)
    ensures name in BindViews(scope, live) <==> name in scope
    ensures name in scope ==> BindViews(scope, live)[name] == scope[name]
  {
    if live != [] {
      BindViewsKeeps(scope, live[..|live| - 1], name);
    }
  }

  lemma BindSelfKeeps(scope: Scope, live: seq<Live>, actor: string, name: string)
    requires NoneNamed(live, name) && name != "self"
    ensures name in BindSelf(scope, live, actor) <==> name in scope
    ensures name in scope ==> BindSelf(scope, live, actor)[name] == scope[name]
  {
    BindViewsKeeps(scope, live, name);
  }

  /** While no error is bound the window has not committed to the error branch; while one is bound, it
      has or is about to. */
  predicate ScopeInStep(window: Window, scope: Scope, body: seq<Statement>, n: nat) {
    if "error" in scope then window.outcome.ExplicitError? || ErrorRefFrom(body, n) else !window.outcome.ExplicitError?
  }

  lemma CommandScopeInStep(walk: Walk, r: Progress, at: nat, body: seq<Statement>, n: nat, world: World)
    requires at < |r.session.live| && n < |body| && body[n].Command? && walk.checker.Knows(r.session.live[at].name)
    requires RunStatement(r, at, body, n, world).failure.None?
    ensures ScopeInStep(CheckStatement(walk, r.session.live[at].name, body[n]).window,
                        RunStatement(r, at, body, n, world).scope, body, n + 1)
  {
    hide BindSelf, ArgsError, Resolve, Dispatch, ErrorRefFrom, TagsInAll, KeywordIssues, TagsInKeywords;
  }

  lemma QuietScopeInStep(walk: Walk, r: Progress, at: nat, body: seq<Statement>, n: nat, world: World)
    requires at < |r.session.live| && n < |body| && !body[n].Command? && r.failure.None?
    requires walk.checker.Knows(r.session.live[at].name) && ScopeInStep(walk.window, r.scope, body, n)
    requires CheckStatement(walk, r.session.live[at].name, body[n]).checker.diagnostics == []
    requires RunStatement(r, at, body, n, world).failure.None?
    requires NoneNamed(r.session.live, "error") && BindsNo(body, "error")
    ensures ScopeInStep(CheckStatement(walk, r.session.live[at].name, body[n]).window,
                        RunStatement(r, at, body, n, world).scope, body, n + 1)
  {
    hide BindSelf, Eval, LetType, StatementTags, StatementReference, RefersToErrorRoot, NoneNamed;
    var actor := r.session.live[at].name;
    BindSelfKeeps(r.scope, r.session.live, actor, "error");
    ReferencesAgree(body[n]);
    var bound := BindSelf(r.scope, r.session.live, actor);
    if RefersToErrorRoot(body[n]) && "error" !in bound {
      UnboundErrorReferenceFails(body[n], bound, world.lib);
    }
  }

  lemma {:induction false} BodyScopeInStep(c: Checker, s: Session, at: nat, body: seq<Statement>, n: nat, world: World)
    requires at < |s.live| && n <= |body| && c.Knows(s.live[at].name)
    requires NoneNamed(s.live, "error") && BindsNo(body, "error")
    requires CheckBody(c, s.live[at].name, body[..n]).checker.diagnostics == []
    requires RunBody(s, at, body, n, world).failure.None?
    ensures ScopeInStep(CheckBody(c, s.live[at].name, body[..n]).window, RunBody(s, at, body, n, world).scope, body, n)
  {
    hide RunStatement, CheckStatement, BindsNo, OnlyExecuted, ErrorRefFrom;
    var name := s.live[at].name;
    if n == 0 {
      assert body[..0] == [];
    } else {
      hide CheckBody, RunBody, ScopeInStep;
      assert body[..n - 1] + [body[n - 1]] == body[..n];
      CheckBodyStep(c, name, body[..n - 1], body[n - 1]);
      RunBodyStep(s, at, body, n, world);
      BodyFrame(s, at, body, n - 1, world);
      BodyScopeInStep(c, s, at, body, n - 1, world);
      var walk, r := CheckBody(c, name, body[..n - 1]), RunBody(s, at, body, n - 1, world);
      if body[n - 1].Command? {
        CommandScopeInStep(walk, r, at, body, n - 1, world);
      } else {
        QuietScopeInStep(walk, r, at, body, n - 1, world);
      }
    }
  }

  lemma NotErrorNamed(s: Session, src: SourceFile, b: nat)
    requires b <= |src| && ErrorIsNotAName(src)
    requires forall k :: 0 <= k < |s.live| ==> DeclaredBefore(src, b, s.live[k].name)
    ensures NoneNamed(s.live, "error")
  {
    forall k | 0 <= k < |s.live|
      ensures s.live[k].name != "error"
    {
      assert DeclaredBefore(src, b, s.live[k].name);
    }
  }

  /** With no `let` and no actor of that name, `error` is bound at the end of a window exactly when the
      validator committed the window to the error branch. */
  lemma {:induction false} ErrorBoundIffCommitted(src: SourceFile, world: World, b: nat, i: nat)
    requires Accepts(src) && ErrorIsNotAName(src) && Reaches(src, world, b, i)
    requires i == |src[b].body| || src[b].body[i].Command?
    ensures CheckedTo(src, b).Knows(src[b].actor)
    ensures "error" in Before(src, world, b, i).scope <==> Checked(src, b, i).window.outcome.ExplicitError?
  {
    hide Accepts, RunItems, RunBody, CheckBody, CheckedTo, InStep, LiveMatches, DeclaredBefore, ErrorIsNotAName;
    ReachedInStep(src, world, b, i);
    ProgramStaysInStep(src, b, world);
    var s := RunItems(src, b, world).session;
    NotErrorNamed(s, src, b);
    assert BindsNo(src[b].body, "error") by { BlockBindsNo(src, b); }
    BodyScopeInStep(CheckedTo(src, b), s, Find(s.live, src[b].actor).value, src[b].body, i, world);
  }

  lemma BlockBindsNo(src: SourceFile, b: nat)
    requires b < |src| && src[b].AsBlock? && ErrorIsNotAName(src)
    ensures BindsNo(src[b].body, "error")
  {
  }

  lemma {:induction false} NoLetNoShadow(body: seq<Statement>, n: nat)
    requires BindsNo(body, "error")
    ensures !ShadowsError(body, n)
    decreases |body| - n
  {
    if n < |body| {
      NoLetNoShadow(body, n + 1);
    }
  }

  /** Such programs leave `error` alone. */
  lemma NoNameLeavesAlone(src: SourceFile)
    requires ErrorIsNotAName(src)
    ensures ErrorLeftAlone(src)
  {
    hide ShadowsError, KindByName, ErrorRefFrom;
    forall b, j | 0 <= b < |src| && src[b].AsBlock? && 0 <= j < |src[b].body| && src[b].body[j].Command?
      ensures !ShadowsError(src[b].body, j + 1) && !ErrorActorBefore(src, b)
    {
      NoLetNoShadow(src[b].body, j + 1);
    }
  }
}
