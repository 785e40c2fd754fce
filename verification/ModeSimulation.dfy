/** The mode the validator tracks for an actor is the mode the live actor is in, over whole runs. */
module ModeSimulation {
  import opened Common
  import opened Values
  import opened Ast
  import opened Registry
  import opened Evaluation
  import opened Validation
  import opened Execution
  import opened Windows
  import Teardown

  // ── Drift ───────────────────────────────────────────────────────────────────

  /** Two errors change a live actor's mode although the validator takes errors to leave it: a
      failing container `stop`, and a `receive disconnect` that finds the connection gone. */
  predicate MovesByError(e: Event) {
    && e.Executed? && e.outcome.ErrorOutcome?
    && (|| (e.kind.Container? && e.cmd.Stop? && e.mode.Running?)
        || (e.kind.MqttClient? && e.cmd.ReceiveDisconnect? && e.mode.Connected? && e.outcome.variant != "timeout"))
  }

  /** A command succeeded although its window refers to `error`. */
  predicate Deceives(e: Event) { e.Executed? && e.outcome.OkOutcome? && e.expectsError }

  /** The live mode parts from the validator's: an error moved it, or a success did while the
      validator holds the transition back for the error branch. */
  predicate Drifts(e: Event) { MovesByError(e) || (Deceives(e) && TransitionsTo(e.cmd).Some?) }

  predicate Drifted(log: seq<Event>, actor: string) {
    exists i :: 0 <= i < |log| && Drifts(log[i]) && log[i].actor == actor
  }

  lemma DriftedSnoc(log: seq<Event>, e: Event, actor: string)
    ensures Drifted(log + [e], actor) <==> Drifted(log, actor) || (Drifts(e) && e.actor == actor)
  {
    if Drifted(log, actor) {
      var i :| 0 <= i < |log| && Drifts(log[i]) && log[i].actor == actor;
      assert (log + [e])[i] == log[i];
    }
    assert (log + [e])[|log|] == e;
    if Drifted(log + [e], actor) {
      var i :| 0 <= i < |log + [e]| && Drifts((log + [e])[i]) && (log + [e])[i].actor == actor;
      assert i < |log| ==> log[i] == (log + [e])[i];
    }
  }

  /** How the validator's mode and the live mode of an actor are related. */
  predicate ModesMatch(kind: ActorKind, checked: Mode, live: Mode, drifted: bool) {
    && !kind.HttpClient?
    && (!drifted ==> live == checked)
    && (drifted ==>
          match kind
          case Container => (checked == Running && live == Stopped) || (checked == Stopped && live == Running)
          case Exec => checked == Stopped && live == Running
          case ArgsActor => false
          case _ =>
            (checked == Connected && live == Disconnected) || (checked == Disconnected && live == Connected))
  }

  function Target(mode: Mode, pending: Option<Mode>): Mode { if pending.Some? then pending.value else mode }

  /** One dispatch, for any response, from matching modes and a command the validator allows: an
      actor that has drifted never succeeds again, and the modes match afterwards in whichever branch
      the window takes. */
  lemma DispatchMatches(kind: ActorKind, checked: Mode, live: Mode, drifted: bool, cmd: Cmd, r: Response,
                        name: string, expectsError: bool)
    requires ModesMatch(kind, checked, live, drifted) && checked in ValidModes(cmd) && Offers(kind, cmd)
    ensures var d := Dispatch(kind, live, cmd, r);
            var drifts := Drifts(Executed(name, kind, cmd, live, d.outcome, expectsError));
            && (d.outcome.OkOutcome? ==>
                  && !drifted
                  && ModesMatch(kind, if expectsError then checked else Target(checked, TransitionsTo(cmd)),
                                d.mode, drifts))
            && (d.outcome.ErrorOutcome? ==> ModesMatch(kind, checked, d.mode, drifted || drifts))
  {
  }

  /** The outcome hands the world's answer on, variant and fields included; a disconnect and the check of
      an args_actor succeed whatever the world has to say. */
  predicate Relays(o: RunOutcome, cmd: Cmd, r: Response) {
    if cmd.Disconnect? || cmd.Check? then o == OkOutcome([])
    else
      match r
      case Succeeds(fields) => o == OkOutcome(fields)
      case Fails(variant, fields) => o == ErrorOutcome(variant, fields)
  }

  /** Whatever the world answers, dispatch turns a command away exactly when the actor has drifted,
      and otherwise hands the answer on. */
  lemma DispatchReachesActor(kind: ActorKind, checked: Mode, live: Mode, drifted: bool, cmd: Cmd, r: Response)
    requires ModesMatch(kind, checked, live, drifted) && checked in ValidModes(cmd) && Offers(kind, cmd)
    ensures live == checked <==> !drifted
    ensures var o := Dispatch(kind, live, cmd, r).outcome;
            && (drifted ==> TurnsAway(o)) && (!drifted ==> Relays(o, cmd, r))
            && (o.NotImplemented? <==> drifted && (kind.MqttClient? || kind.PgClient?))
    ensures cmd.Run? ==> (live == Stopped <==> !drifted)
    ensures cmd.Stop? ==> (live == Running <==> !drifted)
  {
  }

  /** The outcomes dispatch itself makes up for a command in the wrong mode. */
  predicate TurnsAway(o: RunOutcome) {
    || o.NotImplemented?
    || o == ErrorOutcome("container", Reason("not_running"))
    || o == ErrorOutcome("container", Reason("already_running"))
    || o == ErrorOutcome("exec", Reason("already_running"))
  }

  // ── What a block leaves alone ───────────────────────────────────────────────

  predicate SameActors(before: seq<Live>, after: seq<Live>, at: nat) {
    && |before| == |after|
    && (forall k :: 0 <= k < |before| ==>
          && after[k].name == before[k].name && after[k].kind == before[k].kind && after[k].view == before[k].view
          && (k != at ==> after[k] == before[k]))
  }

  /** The log grew only by commands of one actor. */
  predicate OnlyExecuted(before: seq<Event>, after: seq<Event>, actor: string) {
    && before <= after
    && forall i :: |before| <= i < |after| ==> after[i].Executed? && after[i].actor == actor
  }

  lemma {:induction false} StatementFrame(r: Progress, at: nat, body: seq<Statement>, i: nat, world: World)
    requires at < |r.session.live| && i < |body|
    ensures var p := RunStatement(r, at, body, i, world);
            SameActors(r.session.live, p.session.live, at)
            && OnlyExecuted(r.session.log, p.session.log, r.session.live[at].name)
  {
    hide BindSelf, Eval, EvalAssert, ArgsError, Dispatch, Resolve;
  }

  lemma {:induction false} BodyFrame(s: Session, at: nat, body: seq<Statement>, n: nat, world: World)
    requires at < |s.live| && n <= |body|
    ensures var r := RunBody(s, at, body, n, world);
            SameActors(s.live, r.session.live, at) && OnlyExecuted(s.log, r.session.log, s.live[at].name)
  {
    hide RunStatement;
    if n > 0 {
      BodyFrame(s, at, body, n - 1, world);
      var r := RunBody(s, at, body, n - 1, world);
      if r.failure.None? {
        StatementFrame(r, at, body, n - 1, world);
      }
    }
  }

  predicate SameOthers(before: Actors, after: Actors, actor: string) {
    && before.Keys == after.Keys
    && (forall a :: a in before && a != actor ==> after[a] == before[a])
    && (actor in before && before[actor].Healthy? ==> after[actor].Healthy? && after[actor].kind == before[actor].kind)
  }

  lemma {:induction false} CheckBodyFrame(c: Checker, actor: string, body: seq<Statement>)
    requires c.Knows(actor)
    ensures SameOthers(c.actors, CheckBody(c, actor, body).checker.actors, actor)
    ensures c.diagnostics <= CheckBody(c, actor, body).checker.diagnostics
  {
    hide CheckCommand, LetType, StatementTags, StatementReference, Conflicts, Advance;
    if body != [] {
      CheckBodyFrame(c, actor, body[..|body| - 1]);
    }
  }

  // ── Inside a block ──────────────────────────────────────────────────────────

  /** The mode the validator will hold when the window at statement `n` closes: the error branch, taken
      or still to come, holds the transition back. */
  function ComingMode(entry: Entry, window: Window, body: seq<Statement>, n: nat): Mode
    requires entry.Healthy?
  {
    if window.outcome.ExplicitError? || ErrorRefFrom(body, n) then entry.mode else Target(entry.mode, window.pending)
  }

  /** Before statement `n`: the live actor is of the declared kind, and its mode matches the one its
      window will settle to. */
  predicate InStep(walk: Walk, r: Progress, at: nat, body: seq<Statement>, n: nat) {
    && at < |r.session.live|
    && var inst := r.session.live[at];
    && walk.checker.Knows(inst.name)
    && var entry := walk.checker.actors[inst.name];
    && entry.kind == inst.kind
    && ModesMatch(entry.kind, ComingMode(entry, walk.window, body, n), inst.mode, Drifted(r.session.log, inst.name))
  }

  /** At a command the window has closed, and the settled mode matches. */
  lemma {:induction false} SettledMatches(walk: Walk, r: Progress, at: nat, body: seq<Statement>, n: nat)
    requires InStep(walk, r, at, body, n) && (n >= |body| || body[n].Command?)
    ensures var inst := r.session.live[at];
            var entry := Settle(walk.checker.actors, walk.window, inst.name)[inst.name];
            && entry.Healthy? && entry.kind == inst.kind
            && ModesMatch(entry.kind, entry.mode, inst.mode, Drifted(r.session.log, inst.name))
  {
    hide Drifted, ModesMatch;
  }

  lemma CarryKeepsStep(walk: Walk, s: Session, scope: Scope, at: nat, cmd: Cmd, body: seq<Statement>, n: nat,
                       world: World)
    requires at < |s.live| && n < |body| && walk.checker.Knows(s.live[at].name)
    requires var inst := s.live[at]; var entry := walk.checker.actors[inst.name];
             && entry.kind == inst.kind && Offers(entry.kind, cmd) && entry.mode in ValidModes(cmd)
             && ModesMatch(entry.kind, entry.mode, inst.mode, Drifted(s.log, inst.name))
    requires walk.window.outcome == ImpliedOk && walk.window.pending == TransitionsTo(cmd)
    requires Carry(s, scope, at, cmd, ErrorRefFrom(body, n + 1), world).failure.None?
    ensures InStep(walk, Carry(s, scope, at, cmd, ErrorRefFrom(body, n + 1), world), at, body, n + 1)
  {
    var inst, expects := s.live[at], ErrorRefFrom(body, n + 1);
    var response := world.respond(|s.log|, inst.kind, cmd);
    var d := Dispatch(inst.kind, inst.mode, cmd, response);
    DispatchMatches(inst.kind, walk.checker.actors[inst.name].mode, inst.mode, Drifted(s.log, inst.name), cmd,
                    response, inst.name, expects);
    DriftedSnoc(s.log, Executed(inst.name, inst.kind, cmd, inst.mode, d.outcome, expects), inst.name);
    hide Dispatch, Drifted, Drifts, ModesMatch, ErrorRefFrom, ErrorDict;
  }

  lemma {:induction false} CommandKeepsStep(walk: Walk, r: Progress, at: nat, body: seq<Statement>, n: nat,
                                            world: World)
    requires InStep(walk, r, at, body, n) && n < |body| && body[n].Command? && r.failure.None?
    requires RunStatement(r, at, body, n, world).failure.None?
    requires CheckStatement(walk, r.session.live[at].name, body[n]).checker.diagnostics == []
    ensures InStep(CheckStatement(walk, r.session.live[at].name, body[n]), RunStatement(r, at, body, n, world),
                   at, body, n + 1)
  {
    SettledMatches(walk, r, at, body, n);
    hide Drifted, ModesMatch, InStep, ErrorRefFrom, Carry, BindSelf, ArgsError, TagsInAll, TagsInKeywords,
      KeywordIssues, Settle;
    var inst := r.session.live[at];
    var scope := BindSelf(r.scope, r.session.live, inst.name) - {"ok", "error"};
    var resolved := Resolve(inst.kind, body[n].name, body[n].positional);
    CarryKeepsStep(CheckStatement(walk, inst.name, body[n]), r.session, scope, at, resolved.value.cmd, body, n, world);
  }

  /** Without conflicts, what the window will settle to does not change inside it. */
  lemma QuietKeepsStep(walk: Walk, r: Progress, at: nat, body: seq<Statement>, n: nat, world: World)
    requires InStep(walk, r, at, body, n) && n < |body| && !body[n].Command?
    requires CheckStatement(walk, r.session.live[at].name, body[n]).checker.diagnostics == []
    ensures InStep(CheckStatement(walk, r.session.live[at].name, body[n]), RunStatement(r, at, body, n, world),
                   at, body, n + 1)
  {
    hide Drifted, ModesMatch, BindSelf, Eval, EvalAssert, LetType, StatementTags, StatementReference, RefersToErrorRoot;
    ReferencesAgree(body[n]);
  }

  /** Validator and harness stay in step through a block. */
  lemma {:induction false} BodyInStep(c: Checker, s: Session, at: nat, body: seq<Statement>, n: nat, world: World)
    requires at < |s.live| && n <= |body| && c.Knows(s.live[at].name)
    requires c.actors[s.live[at].name].kind == s.live[at].kind
    requires ModesMatch(s.live[at].kind, c.actors[s.live[at].name].mode, s.live[at].mode,
                        Drifted(s.log, s.live[at].name))
    requires CheckBody(c, s.live[at].name, body[..n]).checker.diagnostics == []
    requires RunBody(s, at, body, n, world).failure.None?
    ensures InStep(CheckBody(c, s.live[at].name, body[..n]), RunBody(s, at, body, n, world), at, body, n)
  {
    hide RunStatement, CheckStatement, Drifted, ModesMatch, InStep, CheckBody, RunBody, SameActors, OnlyExecuted;
    var name := s.live[at].name;
    if n == 0 {
      assert body[..0] == [];
      FreshBlockInStep(c, s, at, body, world);
    } else {
      assert body[..n - 1] + [body[n - 1]] == body[..n];
      CheckBodyStep(c, name, body[..n - 1], body[n - 1]);
      RunBodyStep(s, at, body, n, world);
      BodyFrame(s, at, body, n - 1, world);
      SameName(s.live, RunBody(s, at, body, n - 1, world).session.live, at);
      BodyInStep(c, s, at, body, n - 1, world);
      var walk, r := CheckBody(c, name, body[..n - 1]), RunBody(s, at, body, n - 1, world);
      if body[n - 1].Command? {
        CommandKeepsStep(walk, r, at, body, n - 1, world);
      } else {
        QuietKeepsStep(walk, r, at, body, n - 1, world);
      }
    }
  }

  lemma SameName(before: seq<Live>, after: seq<Live>, at: nat)
    requires SameActors(before, after, at) && at < |before|
    ensures |after| == |before| && after[at].name == before[at].name
  {
  }

  lemma FreshBlockInStep(c: Checker, s: Session, at: nat, body: seq<Statement>, world: World)
    requires at < |s.live| && c.Knows(s.live[at].name) && c.actors[s.live[at].name].kind == s.live[at].kind
    requires ModesMatch(s.live[at].kind, c.actors[s.live[at].name].mode, s.live[at].mode,
                        Drifted(s.log, s.live[at].name))
    ensures InStep(CheckBody(c, s.live[at].name, []), RunBody(s, at, body, 0, world), at, body, 0)
  {
    hide Drifted, ModesMatch;
  }

  lemma RunBodyStep(s: Session, at: nat, body: seq<Statement>, n: nat, world: World)
    requires at < |s.live| && 0 < n <= |body| && RunBody(s, at, body, n, world).failure.None?
    ensures RunBody(s, at, body, n - 1, world).failure.None?
    ensures RunBody(s, at, body, n, world) == RunStatement(RunBody(s, at, body, n - 1, world), at, body, n - 1, world)
  {
    hide RunStatement;
  }

  lemma {:induction false} CheckBodyStep(c: Checker, actor: string, body: seq<Statement>, st: Statement)
    requires c.Knows(actor)
    ensures CheckBody(c, actor, body + [st]) == CheckStatement(CheckBody(c, actor, body), actor, st)
    ensures CheckBody(c, actor, body).checker.diagnostics <= CheckBody(c, actor, body + [st]).checker.diagnostics
  {
    hide CheckCommand, LetType, StatementTags, StatementReference, Conflicts, Advance;
    assert (body + [st])[..|body|] == body;
  }

  // ── Declarations ────────────────────────────────────────────────────────────

  function EntryOf(decl: TopLevel): Entry
    requires decl.ActorDeclaration? && KindByName(decl.actorType).Some?
  {
    var kind := KindByName(decl.actorType).value;
    Healthy(kind, InitialMode(kind), DeclaredTypes(decl.vars))
  }

  predicate Typed(item: TopLevel) { item.ActorDeclaration? ==> KindByName(item.actorType).Some? }

  predicate DistinctDeclarations(src: SourceFile, n: nat)
    requires n <= |src|
  {
    forall i, j :: 0 <= i < j < n && src[i].ActorDeclaration? && src[j].ActorDeclaration? ==> src[i].name != src[j].name
  }

  predicate RegisteredUpTo(actors: Actors, src: SourceFile, n: nat)
    requires n <= |src|
  {
    && DistinctDeclarations(src, n)
    && (forall i :: 0 <= i < n && src[i].ActorDeclaration? ==> AsDeclared(actors, src[i]))
    && (forall a :: a in actors ==> DeclaredBefore(src, n, a))
  }

  predicate AsDeclared(actors: Actors, decl: TopLevel)
    requires decl.ActorDeclaration?
  {
    Typed(decl) && decl.name in actors && actors[decl.name] == EntryOf(decl)
  }

  predicate DeclaredBefore(src: SourceFile, n: nat, name: string)
    requires n <= |src|
  {
    exists i :: 0 <= i < n && src[i].ActorDeclaration? && src[i].name == name
  }

  lemma DeclaredBeforeSnoc(src: SourceFile, n: nat, name: string)
    requires n < |src|
    ensures DeclaredBefore(src, n + 1, name) <==>
              DeclaredBefore(src, n, name) || (src[n].ActorDeclaration? && src[n].name == name)
  {
  }

  lemma {:induction false} RegisterStep(c: Checker, src: SourceFile, n: nat)
    requires n < |src| && RegisteredUpTo(c.actors, src, n) && src[n].ActorDeclaration?
    requires Register(c, src[n]).diagnostics == []
    ensures RegisteredUpTo(Register(c, src[n]).actors, src, n + 1) && c.diagnostics == []
  {
    hide Register, KindByName;
    NameIsNew(c, src, n);
    var actors := Register(c, src[n]).actors;
    assert AsDeclared(actors, src[n]);
    forall i | 0 <= i < n && src[i].ActorDeclaration?
      ensures src[i].name != src[n].name && AsDeclared(actors, src[i])
    {
      assert AsDeclared(c.actors, src[i]);
    }
    forall a | a in actors
      ensures DeclaredBefore(src, n + 1, a)
    {
      DeclaredBeforeSnoc(src, n, a);
    }
    hide AsDeclared, DeclaredBefore;
  }

  lemma {:induction false} NameIsNew(c: Checker, src: SourceFile, n: nat)
    requires n < |src| && RegisteredUpTo(c.actors, src, n) && src[n].ActorDeclaration?
    requires Register(c, src[n]).diagnostics == []
    ensures src[n].name !in c.actors && Typed(src[n]) && c.diagnostics == []
    ensures Register(c, src[n]).actors == c.actors[src[n].name := EntryOf(src[n])]
  {
    hide KindByName, KeywordIssues, TagsInKeywords, DefaultTags, DeclaredTypes;
  }

  /** Without diagnostics the first pass holds exactly the declared actors, each in its initial mode. */
  lemma {:induction false} RegisteredAll(src: SourceFile, n: nat)
    requires n <= |src| && RegisterAll(src[..n]).diagnostics == []
    ensures RegisteredUpTo(RegisterAll(src[..n]).actors, src, n)
  {
    hide Register, RegisteredUpTo, KindByName;
    if n == 0 {
      NothingRegistered(src);
    } else {
      assert src[..n][..n - 1] == src[..n - 1] && src[..n][n - 1] == src[n - 1];
      var c := RegisterAll(src[..n - 1]);
      if src[n - 1].ActorDeclaration? {
        RegisterExtends(c, src[n - 1]);
        RegisteredAll(src, n - 1);
        RegisterStep(c, src, n - 1);
      } else {
        RegisteredAll(src, n - 1);
        SkipBlock(c.actors, src, n - 1);
      }
    }
  }

  lemma NothingRegistered(src: SourceFile)
    ensures RegisteredUpTo(RegisterAll(src[..0]).actors, src, 0)
  {
    hide Register, AsDeclared;
    assert src[..0] == [];
  }

  lemma SkipBlock(actors: Actors, src: SourceFile, n: nat)
    requires n < |src| && RegisteredUpTo(actors, src, n) && !src[n].ActorDeclaration?
    ensures RegisteredUpTo(actors, src, n + 1)
  {
    hide AsDeclared, DeclaredBefore;
    forall a
      ensures DeclaredBefore(src, n + 1, a) <==> DeclaredBefore(src, n, a)
    {
      DeclaredBeforeSnoc(src, n, a);
    }
  }

  lemma RegisterExtends(c: Checker, decl: TopLevel)
    requires decl.ActorDeclaration?
    ensures c.diagnostics <= Register(c, decl).diagnostics
  {
    hide KeywordIssues, TagsInKeywords, DefaultTags, DeclaredTypes, KindByName;
  }

  // ── Whole programs ──────────────────────────────────────────────────────────

  /** The validator just before item `b`. */
  function CheckedTo(src: SourceFile, b: nat): Checker
    requires b <= |src|
  {
    CheckItems(RegisterAll(src), src[..b])
  }

  lemma CheckBlockExtends(c: Checker, actor: string, body: seq<Statement>)
    ensures c.diagnostics <= CheckBlock(c, actor, body).diagnostics
    ensures SameOthers(c.actors, CheckBlock(c, actor, body).actors, actor)
  {
    if c.Knows(actor) {
      CheckBodyFrame(c, actor, body);
    }
    hide CheckBody;
  }

  lemma {:induction false} CheckedStep(src: SourceFile, b: nat)
    requires b < |src|
    ensures CheckedTo(src, b + 1) ==
              if src[b].AsBlock? then CheckBlock(CheckedTo(src, b), src[b].actor, src[b].body) else CheckedTo(src, b)
    ensures CheckedTo(src, b).diagnostics <= CheckedTo(src, b + 1).diagnostics
  {
    hide CheckBlock, RegisterAll;
    assert src[..b + 1][..b] == src[..b] && src[..b + 1][b] == src[b];
    if src[b].AsBlock? {
      CheckBlockExtends(CheckedTo(src, b), src[b].actor, src[b].body);
    }
  }

  /** An accepted program has no diagnostics at any point of the walk. */
  lemma {:induction false} AcceptedSoFar(src: SourceFile, b: nat)
    requires Accepts(src) && b <= |src|
    ensures CheckedTo(src, b).diagnostics == []
    decreases |src| - b
  {
    if b == |src| {
      assert src[..b] == src;
    } else {
      AcceptedSoFar(src, b + 1);
      hide CheckBlock, RegisterAll, CheckItems;
      CheckedStep(src, b);
    }
  }

  /** Before item `b` of a run that has not failed. */
  predicate ProgramInStep(c: Checker, s: Session, src: SourceFile, b: nat)
    requires b <= |src|
  {
    // Live actors are known, have the declared kind, and match in mode.
    && (forall k :: 0 <= k < |s.live| ==> LiveMatches(c, s, k))
    && (forall j, k :: 0 <= j < k < |s.live| ==> s.live[j].name != s.live[k].name)
    // They are the ones declared so far; the others still are as declared.
    && (forall k :: 0 <= k < |s.live| ==> DeclaredBefore(src, b, s.live[k].name))
    && (forall i :: b <= i < |src| && src[i].ActorDeclaration? ==>
          AsDeclared(c.actors, src[i]) && !Drifted(s.log, src[i].name))
  }

  predicate LiveMatches(c: Checker, s: Session, k: nat)
    requires k < |s.live|
  {
    && c.Knows(s.live[k].name) && c.actors[s.live[k].name].kind == s.live[k].kind
    && ModesMatch(s.live[k].kind, c.actors[s.live[k].name].mode, s.live[k].mode, Drifted(s.log, s.live[k].name))
  }

  lemma NewActorMatches(c: Checker, s: Session, decl: TopLevel, world: World)
    requires decl.ActorDeclaration? && AsDeclared(c.actors, decl) && !Drifted(s.log, decl.name)
    requires RunItem(s, decl, world).failure.None?
    ensures var p := RunItem(s, decl, world).session;
            && |p.live| == |s.live| + 1 && p.live[..|s.live|] == s.live && p.live[|s.live|].name == decl.name
            && p.log == s.log + [Constructed(decl.name)]
            && LiveMatches(c, p, |s.live|)
  {
    DriftedSnoc(s.log, Constructed(decl.name), decl.name);
    hide KindByName, EvalKeywords, EvalVars, ArgMembers, AssignedView, Declares, Drifted, DeclaredTypes;
  }

  lemma DeclarationKeepsStep(c: Checker, s: Session, src: SourceFile, b: nat, world: World)
    requires b < |src| && src[b].ActorDeclaration? && DistinctDeclarations(src, |src|) && ProgramInStep(c, s, src, b)
    requires RunItem(s, src[b], world).failure.None?
    ensures ProgramInStep(c, RunItem(s, src[b], world).session, src, b + 1)
  {
    hide RunItem, Drifted, AsDeclared, ModesMatch;
    var p := RunItem(s, src[b], world).session;
    NewActorMatches(c, s, src[b], world);
    forall a
      ensures Drifted(p.log, a) <==> Drifted(s.log, a)
      ensures DeclaredBefore(src, b + 1, a) <==> DeclaredBefore(src, b, a) || src[b].name == a
    {
      DriftedSnoc(s.log, Constructed(src[b].name), a);
      DeclaredBeforeSnoc(src, b, a);
    }
    forall k | 0 <= k < |s.live|
      ensures p.live[k] == s.live[k] && LiveMatches(c, p, k) && p.live[k].name != src[b].name
    {
      assert p.live[k] == p.live[..|s.live|][k];
      assert LiveMatches(c, s, k) && DeclaredBefore(src, b, s.live[k].name);
    }
  }

  lemma DriftedElsewhere(before: seq<Event>, after: seq<Event>, actor: string, other: string)
    requires OnlyExecuted(before, after, actor) && other != actor
    ensures Drifted(after, other) <==> Drifted(before, other)
  {
    if Drifted(before, other) {
      var i :| 0 <= i < |before| && Drifts(before[i]) && before[i].actor == other;
      assert after[i] == before[i];
    }
    if Drifted(after, other) {
      var i :| 0 <= i < |after| && Drifts(after[i]) && after[i].actor == other;
      assert before[i] == after[i];
    }
  }

  /** The actor of a block still matches after it. */
  lemma BlockKeepsOwn(c: Checker, s: Session, at: nat, body: seq<Statement>, world: World)
    requires at < |s.live| && LiveMatches(c, s, at)
    requires CheckBlock(c, s.live[at].name, body).diagnostics == []
    requires RunBody(s, at, body, |body|, world).failure.None?
    ensures LiveMatches(CheckBlock(c, s.live[at].name, body), RunBody(s, at, body, |body|, world).session, at)
  {
    hide Drifted, ModesMatch, RunBody, CheckBody, InStep;
    var name := s.live[at].name;
    assert body[..|body|] == body;
    BodyInStep(c, s, at, body, |body|, world);
    BodyFrame(s, at, body, |body|, world);
    SettledMatches(CheckBody(c, name, body), RunBody(s, at, body, |body|, world), at, body, |body|);
  }

  lemma BlockKeepsStep(c: Checker, s: Session, src: SourceFile, b: nat, world: World)
    requires b < |src| && src[b].AsBlock? && DistinctDeclarations(src, |src|)
    requires ProgramInStep(c, s, src, b)
    requires RunItem(s, src[b], world).failure.None?
    requires CheckBlock(c, src[b].actor, src[b].body).diagnostics == []
    ensures ProgramInStep(CheckBlock(c, src[b].actor, src[b].body), RunItem(s, src[b], world).session, src, b + 1)
  {
    hide Drifted, ModesMatch, RunBody, CheckBlock, AsDeclared, DeclaredBefore;
    var actor, body := src[b].actor, src[b].body;
    var at := Find(s.live, actor).value;
    var c', p := CheckBlock(c, actor, body), RunItem(s, src[b], world).session;
    BlockKeepsOwn(c, s, at, body, world);
    BodyFrame(s, at, body, |body|, world);
    CheckBlockExtends(c, actor, body);
    forall a
      ensures a != actor ==> (Drifted(p.log, a) <==> Drifted(s.log, a))
      ensures DeclaredBefore(src, b + 1, a) <==> DeclaredBefore(src, b, a)
    {
      if a != actor {
        DriftedElsewhere(s.log, p.log, actor, a);
      }
      DeclaredBeforeSnoc(src, b, a);
    }
    forall k | 0 <= k < |p.live|
      ensures LiveMatches(c', p, k)
    {
      assert LiveMatches(c, s, k);
    }
    UndeclaredUntouched(c, c', s, p, src, b, at);
  }

  lemma UndeclaredUntouched(c: Checker, c': Checker, s: Session, p: Session, src: SourceFile, b: nat, at: nat)
    requires b < |src| && DistinctDeclarations(src, |src|) && ProgramInStep(c, s, src, b) && at < |s.live|
    requires SameOthers(c.actors, c'.actors, s.live[at].name) && OnlyExecuted(s.log, p.log, s.live[at].name)
    ensures forall i :: b < i < |src| && src[i].ActorDeclaration? ==>
              AsDeclared(c'.actors, src[i]) && !Drifted(p.log, src[i].name)
  {
    forall i | b < i < |src| && src[i].ActorDeclaration?
      ensures AsDeclared(c'.actors, src[i]) && !Drifted(p.log, src[i].name)
    {
      assert AsDeclared(c.actors, src[i]) && DeclaredBefore(src, b, s.live[at].name);
      assert src[i].name != s.live[at].name;
      hide Drifted;
      DriftedElsewhere(s.log, p.log, s.live[at].name, src[i].name);
    }
  }

  /** Validator and harness are in step before every item a run reaches. */
  lemma {:induction false} ProgramStaysInStep(src: SourceFile, b: nat, world: World)
    requires Accepts(src) && b <= |src| && RunItems(src, b, world).failure.None?
    ensures ProgramInStep(CheckedTo(src, b), RunItems(src, b, world).session, src, b)
    ensures DistinctDeclarations(src, |src|)
  {
    hide RunItem, CheckBlock, Register, AsDeclared, Accepts, LiveMatches;
    AcceptedSoFar(src, 0);
    assert src[..0] == [] && CheckedTo(src, 0) == RegisterAll(src) && src[..|src|] == src;
    RegisteredAll(src, |src|);
    if b > 0 {
      ProgramStaysInStep(src, b - 1, world);
      AcceptedSoFar(src, b);
      CheckedStep(src, b - 1);
      var c, s := CheckedTo(src, b - 1), RunItems(src, b - 1, world).session;
      if src[b - 1].ActorDeclaration? {
        DeclarationKeepsStep(c, s, src, b - 1, world);
      } else {
        BlockKeepsStep(c, s, src, b - 1, world);
      }
    }
  }

  // ── The theorem ─────────────────────────────────────────────────────────────

  /** The run gets to statement `i` of the block at item `b`. */
  predicate Reaches(src: SourceFile, world: World, b: nat, i: nat) {
    && b < |src| && src[b].AsBlock? && i <= |src[b].body|
    && RunItems(src, b, world).failure.None?
    && var s := RunItems(src, b, world).session;
    && Find(s.live, src[b].actor).Some?
    && RunBody(s, Find(s.live, src[b].actor).value, src[b].body, i, world).failure.None?
  }

  /** The harness just before that statement. */
  function Before(src: SourceFile, world: World, b: nat, i: nat): Progress
    requires Reaches(src, world, b, i)
  {
    var s := RunItems(src, b, world).session;
    RunBody(s, Find(s.live, src[b].actor).value, src[b].body, i, world)
  }

  function Slot(src: SourceFile, world: World, b: nat, i: nat): (at: nat)
    requires Reaches(src, world, b, i)
    ensures at < |Before(src, world, b, i).session.live|
  {
    Find(RunItems(src, b, world).session.live, src[b].actor).value
  }

  /** The validator at the same place. */
  function Checked(src: SourceFile, b: nat, i: nat): Walk
    requires b < |src| && src[b].AsBlock? && i <= |src[b].body| && CheckedTo(src, b).Knows(src[b].actor)
  {
    CheckBody(CheckedTo(src, b), src[b].actor, src[b].body[..i])
  }

  /** The mode the validator holds once the previous window is settled. */
  function CheckedMode(walk: Walk, actor: string): Mode
    requires walk.checker.Knows(actor)
  {
    var settled := Settle(walk.checker.actors, walk.window, actor);
    settled[actor].mode
  }

  lemma {:induction false} ReachedInStep(src: SourceFile, world: World, b: nat, i: nat)
    requires Accepts(src) && Reaches(src, world, b, i)
    ensures CheckedTo(src, b).Knows(src[b].actor)
    ensures InStep(Checked(src, b, i), Before(src, world, b, i), Slot(src, world, b, i), src[b].body, i)
    ensures Checked(src, b, i).checker.diagnostics == []
    ensures Before(src, world, b, i).session.live[Slot(src, world, b, i)].name == src[b].actor
  {
    hide RunBody, RunItems, CheckBody, Drifted, ModesMatch, InStep, RegisterAll;
    ProgramStaysInStep(src, b, world);
    AcceptedSoFar(src, b + 1);
    CheckedStep(src, b);
    var c, s, body := CheckedTo(src, b), RunItems(src, b, world).session, src[b].body;
    var at := Find(s.live, src[b].actor).value;
    assert LiveMatches(c, s, at);
    PrefixHasNoDiagnostics(c, src[b].actor, body, i);
    BodyInStep(c, s, at, body, i, world);
    BodyFrame(s, at, body, i, world);
  }

  lemma PrefixHasNoDiagnostics(c: Checker, actor: string, body: seq<Statement>, i: nat)
    requires c.Knows(actor) && i <= |body| && CheckBlock(c, actor, body).diagnostics == []
    ensures CheckBody(c, actor, body[..i]).checker.diagnostics == []
  {
    CheckBodyExtends(c, actor, body, i);
    hide CheckBody;
  }

  lemma {:induction false} CheckBodyExtends(c: Checker, actor: string, body: seq<Statement>, i: nat)
    requires c.Knows(actor) && i <= |body|
    ensures CheckBody(c, actor, body[..i]).checker.diagnostics <= CheckBody(c, actor, body).checker.diagnostics
    decreases |body| - i
  {
    hide CheckStatement, CheckBody;
    if i == |body| {
      assert body[..i] == body;
    } else {
      CheckBodyExtends(c, actor, body, i + 1);
      assert body[..i] + [body[i]] == body[..i + 1];
      CheckBodyStep(c, actor, body[..i], body[i]);
    }
  }

  /** Mode dispatch turns the command away, whatever the world would have answered. */
  ghost predicate Misses(kind: ActorKind, mode: Mode, cmd: Cmd) {
    forall r :: TurnsAway(Dispatch(kind, mode, cmd, r).outcome)
  }

  /** The command reaches its actor, and its outcome is the world's own, whatever the world answers. */
  ghost predicate Answers(kind: ActorKind, mode: Mode, cmd: Cmd) {
    forall r :: Relays(Dispatch(kind, mode, cmd, r).outcome, cmd, r)
  }

  /** The modes a live actor can be in. */
  function ModesOf(kind: ActorKind): set<Mode> {
    match kind
    case PgClient => {Disconnected, Connected}
    case MqttClient => {Disconnected, Connected}
    case Container => {Stopped, Running}
    case Exec => {Stopped, Running}
    case ArgsActor => {Ready}
    case HttpClient => {}
  }

  /** The declared modes of a command are exactly those in which the live actor carries it out; in the
      others it turns it away. */
  lemma ValidModesExact(kind: ActorKind, mode: Mode, cmd: Cmd)
    requires Offers(kind, cmd) && mode in ModesOf(kind)
    ensures mode in ValidModes(cmd) <==> Answers(kind, mode, cmd)
    ensures mode !in ValidModes(cmd) <==> Misses(kind, mode, cmd)
  {
    assert Dispatch(kind, mode, cmd, Succeeds([])).outcome.OkOutcome? <==> mode in ValidModes(cmd);
  }

  /** A new client can only be connected, a new container or process only be run. */
  lemma FreshActors(kind: ActorKind, cmd: Cmd)
    requires Offers(kind, cmd) && !kind.HttpClient?
    ensures InitialMode(kind) in ModesOf(kind)
    ensures Answers(kind, InitialMode(kind), cmd) <==> cmd.Connect? || cmd.Run? || cmd.Check?
  {
    ValidModesExact(kind, InitialMode(kind), cmd);
  }

  lemma DispatchMissesIffDrifted(kind: ActorKind, checked: Mode, live: Mode, drifted: bool, cmd: Cmd)
    requires ModesMatch(kind, checked, live, drifted) && checked in ValidModes(cmd) && Offers(kind, cmd)
    ensures live == checked <==> !drifted
    ensures drifted <==> Misses(kind, live, cmd)
    ensures !drifted <==> Answers(kind, live, cmd)
    ensures cmd.Run? ==> (live == Stopped <==> !drifted)
    ensures cmd.Stop? ==> (live == Running <==> !drifted)
  {
    forall r
      ensures var o := Dispatch(kind, live, cmd, r).outcome;
              (drifted ==> TurnsAway(o)) && (!drifted ==> Relays(o, cmd, r))
    {
      DispatchReachesActor(kind, checked, live, drifted, cmd, r);
    }
    DispatchReachesActor(kind, checked, live, drifted, cmd, Succeeds([]));
    hide Dispatch, ModesMatch;
  }

  /** Mode simulation. In an accepted program, at every command any run reaches, the live actor's mode
      is the validator's mode for that command exactly when the actor has not drifted. In exactly those
      cases every possible answer of the world gets through (no `NotImplemented`, no `already_running`
      or `not_running` made up by the dispatch), and in all others none does. */
  lemma {:induction false} ModesSimulated(src: SourceFile, world: World, b: nat, i: nat)
    requires Accepts(src) && Reaches(src, world, b, i) && i < |src[b].body| && src[b].body[i].Command?
    ensures CheckedTo(src, b).Knows(src[b].actor)
    ensures var inst := Before(src, world, b, i).session.live[Slot(src, world, b, i)];
            var drifted := Drifted(Before(src, world, b, i).session.log, inst.name);
            var resolved := Resolve(inst.kind, src[b].body[i].name, src[b].body[i].positional);
            && (inst.mode == CheckedMode(Checked(src, b, i), src[b].actor) <==> !drifted)
            && resolved.Some?
            && (drifted <==> Misses(inst.kind, inst.mode, resolved.value.cmd))
            && (!drifted <==> Answers(inst.kind, inst.mode, resolved.value.cmd))
            && (resolved.value.cmd.Run? ==> (inst.mode == Stopped <==> !drifted))
            && (resolved.value.cmd.Stop? ==> (inst.mode == Running <==> !drifted))
  {
    ReachedInStep(src, world, b, i);
    var walk, r, at, st := Checked(src, b, i), Before(src, world, b, i), Slot(src, world, b, i), src[b].body[i];
    CommandIsChecked(src, world, b, i);
    hide Reaches, Checked, Before, Slot, Accepts, InStep, Drifted, RunItems, RunBody, CheckBody, Resolve, Misses,
      Answers;
    SettledMatches(walk, r, at, src[b].body, i);
    var inst := r.session.live[at];
    DispatchMissesIffDrifted(inst.kind, CheckedMode(walk, inst.name), inst.mode, Drifted(r.session.log, inst.name),
                             Resolve(inst.kind, st.name, st.positional).value.cmd);
  }

  /** The validator resolved the command and found its mode valid. */
  lemma {:induction false} CommandIsChecked(src: SourceFile, world: World, b: nat, i: nat)
    requires Accepts(src) && Reaches(src, world, b, i) && i < |src[b].body| && src[b].body[i].Command?
    ensures CheckedTo(src, b).Knows(src[b].actor)
    ensures var walk, st := Checked(src, b, i), src[b].body[i];
            var entry := Settle(walk.checker.actors, walk.window, src[b].actor)[src[b].actor];
            && entry.Healthy?
            && var resolved := Resolve(entry.kind, st.name, st.positional);
            resolved.Some? && entry.mode in ValidModes(resolved.value.cmd)
  {
    hide Accepts, InStep, RunItems, RunBody, CheckBody, CheckBlock, CheckStatement, CheckItems, RegisterAll;
    ReachedInStep(src, world, b, i);
    AcceptedSoFar(src, b + 1);
    CheckedStep(src, b);
    var c, body := CheckedTo(src, b), src[b].body;
    PrefixHasNoDiagnostics(c, src[b].actor, body, i + 1);
    assert body[..i] + [body[i]] == body[..i + 1];
    CheckBodyStep(c, src[b].actor, body[..i], body[i]);
    CleanCommandIsValid(Checked(src, b, i), src[b].actor, body[i]);
  }

  lemma CleanCommandIsValid(walk: Walk, actor: string, st: Statement)
    requires walk.checker.Knows(actor) && st.Command? && CheckStatement(walk, actor, st).checker.diagnostics == []
    ensures var entry := Settle(walk.checker.actors, walk.window, actor)[actor];
            && entry.Healthy?
            && var resolved := Resolve(entry.kind, st.name, st.positional);
            resolved.Some? && entry.mode in ValidModes(resolved.value.cmd)
  {
    hide Resolve, TagsInAll, TagsInKeywords, KeywordIssues, Keywords, OkFields, ErrorTypes;
  }

  // ── What it means for reports ───────────────────────────────────────────────

  lemma {:induction false} FailingItem(src: SourceFile, n: nat, world: World) returns (b: nat)
    requires n <= |src| && RunItems(src, n, world).failure.Some?
    ensures b < n && RunItems(src, b, world).failure.None?
    ensures RunItem(RunItems(src, b, world).session, src[b], world).failure == RunItems(src, n, world).failure
  {
    hide RunItem;
    if RunItems(src, n - 1, world).failure.Some? {
      b := FailingItem(src, n - 1, world);
    } else {
      b := n - 1;
    }
  }

  lemma {:induction false} FailingStatement(s: Session, at: nat, body: seq<Statement>, n: nat, world: World)
    returns (i: nat)
    requires at < |s.live| && n <= |body| && RunBody(s, at, body, n, world).failure.Some?
    ensures i < n && RunBody(s, at, body, i, world).failure.None?
    ensures RunStatement(RunBody(s, at, body, i, world), at, body, i, world).failure ==
              RunBody(s, at, body, n, world).failure
  {
    hide RunStatement;
    if RunBody(s, at, body, n - 1, world).failure.Some? {
      i := FailingStatement(s, at, body, n - 1, world);
    } else {
      i := n - 1;
    }
  }

  /** The run's failure, at the place where it happened. */
  lemma {:induction false} FailurePlace(src: SourceFile, world: World) returns (b: nat, i: nat)
    requires var f := Report(src, world).failure;
             f.Some? && (f.value.UnresolvedCommand? || f.value.CommandFailure? || f.value.CommandNotImplemented?)
    ensures Reaches(src, world, b, i) && i < |src[b].body| && src[b].body[i].Command?
    ensures var r, at := Before(src, world, b, i), Slot(src, world, b, i);
            && RunStatement(r, at, src[b].body, i, world).failure == Report(src, world).failure
            && r.session.log <= RunStatement(r, at, src[b].body, i, world).session.log <= Report(src, world).log
            && r.session.live[at].name == src[b].actor
  {
    hide RunBody, RunStatement, Construct, TearDown, RunItems;
    b := FailingItem(src, |src|, world);
    i := 0;
    var s, body := RunItems(src, b, world).session, src[b].body;
    var at := Find(s.live, src[b].actor).value;
    i := FailingStatement(s, at, body, |body|, world);
    OnlyCommandsFailSo(RunBody(s, at, body, i, world), at, body, i, world);
    BodyFrame(s, at, body, i, world);
    StatementFrame(RunBody(s, at, body, i, world), at, body, i, world);
    BodyAt(s, at, body, i, world);
    Teardown.FirstFailureEndsRun(src, world, b, i + 1);
  }

  lemma BodyAt(s: Session, at: nat, body: seq<Statement>, i: nat, world: World)
    requires at < |s.live| && i < |body| && RunBody(s, at, body, i, world).failure.None?
    ensures RunBody(s, at, body, i + 1, world) == RunStatement(RunBody(s, at, body, i, world), at, body, i, world)
  {
    hide RunStatement;
  }

  lemma OnlyCommandsFailSo(r: Progress, at: nat, body: seq<Statement>, i: nat, world: World)
    requires at < |r.session.live| && i < |body| && r.failure.None?
    ensures var f := RunStatement(r, at, body, i, world).failure;
            f.Some? && (f.value.UnresolvedCommand? || f.value.CommandFailure? || f.value.CommandNotImplemented?) ==>
              body[i].Command?
  {
    hide BindSelf, Eval, EvalAssert, RunCommand;
  }

  /** How a command can fail, given what it resolves to. */
  lemma CommandFails(r: Progress, at: nat, body: seq<Statement>, i: nat, world: World)
    requires at < |r.session.live| && i < |body| && body[i].Command? && r.failure.None?
    ensures var inst := r.session.live[at];
            var resolved := Resolve(inst.kind, body[i].name, body[i].positional);
            var p := RunStatement(r, at, body, i, world);
            && (p.failure == Some(UnresolvedCommand(inst.name)) ==> resolved.None?)
            && (p.failure.Some? && (p.failure.value.CommandFailure? || p.failure.value.CommandNotImplemented?) ==>
                  && resolved.Some? && p.failure.value.actor == inst.name && p.failure.value.cmd == resolved.value.cmd
                  && var o := Dispatch(inst.kind, inst.mode, resolved.value.cmd,
                                       world.respond(|r.session.log|, inst.kind, resolved.value.cmd)).outcome;
                  && p.session.log == r.session.log +
                       [Executed(inst.name, inst.kind, resolved.value.cmd, inst.mode, o, ErrorRefFrom(body, i + 1))]
                  && (p.failure.value.CommandNotImplemented? ==> o.NotImplemented?)
                  && (p.failure.value.CommandFailure? ==> o.ErrorOutcome?))
            && (p.failure.Some? && p.failure.value.UnresolvedCommand? ==> p.failure.value.actor == inst.name)
  {
    hide BindSelf, ArgsError, Resolve, Dispatch, ErrorRefFrom;
  }

  /** The log shows a failure that is the world's own answer to that command. */
  predicate WorldRefused(log: seq<Event>, world: World, actor: string, cmd: Cmd) {
    exists k :: && 0 <= k < |log| && log[k].Executed? && log[k].actor == actor && log[k].cmd == cmd
                && world.respond(k, log[k].kind, cmd).Fails?
                && var r := world.respond(k, log[k].kind, cmd); log[k].outcome == ErrorOutcome(r.variant, r.fields)
  }

  /** Over whole runs of accepted programs: no command is unknown to its live actor, none is turned away
      as not implemented unless its actor has drifted, and none fails but by the world's own answer
      unless its actor has drifted. */
  lemma {:induction false} FailuresExplained(src: SourceFile, world: World)
    requires Accepts(src) && Report(src, world).failure.Some?
    ensures var f, log := Report(src, world).failure.value, Report(src, world).log;
            && !f.UnresolvedCommand?
            && (f.CommandNotImplemented? ==> Drifted(log, f.actor))
            && (f.CommandFailure? ==> Drifted(log, f.actor) || WorldRefused(log, world, f.actor, f.cmd))
  {
    hide Accepts, RunItems, RunBody, RunStatement, TearDown, Resolve, Drifted;
    var f, log := Report(src, world).failure.value, Report(src, world).log;
    if f.UnresolvedCommand? || f.CommandFailure? || f.CommandNotImplemented? {
      var b, i := FailurePlace(src, world);
      ModesSimulated(src, world, b, i);
      var r, at, body := Before(src, world, b, i), Slot(src, world, b, i), src[b].body;
      CommandFails(r, at, body, i, world);
      var inst := r.session.live[at];
      if Drifted(r.session.log, inst.name) {
        DriftedLater(r.session.log, log, inst.name);
      } else {
        var cmd := Resolve(inst.kind, body[i].name, body[i].positional).value.cmd;
        var response := world.respond(|r.session.log|, inst.kind, cmd);
        var o := Dispatch(inst.kind, inst.mode, cmd, response).outcome;
        assert Relays(o, cmd, response);
        var after := RunStatement(r, at, body, i, world).session.log;
        assert f.CommandFailure? ==> after[|r.session.log|] == log[|r.session.log|];
      }
    }
  }

  lemma DriftedLater(before: seq<Event>, after: seq<Event>, actor: string)
    requires before <= after && Drifted(before, actor)
    ensures Drifted(after, actor)
  {
    var i :| 0 <= i < |before| && Drifts(before[i]) && before[i].actor == actor;
    assert after[i] == before[i];
  }
}
