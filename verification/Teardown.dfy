/** Whatever fails, every actor that was constructed is torn down, once and in reverse order. */
module Teardown {
  import opened Common
  import opened Ast
  import opened Registry
  import opened Execution
  import opened Harness

  function LiveNames(live: seq<Live>): (names: seq<string>)
    ensures |names| == |live|
  {
    seq(|live|, i requires 0 <= i < |live| => live[i].name)
  }

  /** The actors whose construction a log records, in the order of the log. */
  function ConstructedIn(log: seq<Event>): seq<string> {
    if log == [] then []
    else
      var init, last := ConstructedIn(log[..|log| - 1]), log[|log| - 1];
      if last.Constructed? then init + [last.actor] else init
  }

  /** The actors whose teardown a log records, in the order of the log. */
  function TornDownIn(log: seq<Event>): seq<string> {
    if log == [] then []
    else
      var init, last := TornDownIn(log[..|log| - 1]), log[|log| - 1];
      if last.TornDown? then init + [last.actor] else init
  }

  /** Before teardown starts, a session's live actors are exactly the constructed ones. */
  predicate Accounted(s: Session) {
    LiveNames(s.live) == ConstructedIn(s.log) && TornDownIn(s.log) == []
  }

  lemma LogOneMore(log: seq<Event>, e: Event)
    ensures ConstructedIn(log + [e]) == ConstructedIn(log) + if e.Constructed? then [e.actor] else []
    ensures TornDownIn(log + [e]) == TornDownIn(log) + if e.TornDown? then [e.actor] else []
  {
    assert (log + [e])[..|log|] == log;
  }

  lemma CarryAccounted(s: Session, r: Progress, at: nat, cmd: Cmd, expects: bool, world: World)
    requires at < |s.live| && Accounted(s)
    ensures Accounted(Carry(s, r.scope, at, cmd, expects, world).session)
  {
    hide Dispatch, ConstructedIn, TornDownIn;
    var inst := s.live[at];
    var d := Dispatch(inst.kind, inst.mode, cmd, world.respond(|s.log|, inst.kind, cmd));
    LogOneMore(s.log, Executed(inst.name, inst.kind, cmd, inst.mode, d.outcome, expects));
    assert LiveNames(s.live[at := inst.(mode := d.mode)]) == LiveNames(s.live);
  }

  lemma StatementAccounted(r: Progress, at: nat, body: seq<Statement>, i: nat, world: World)
    requires at < |r.session.live| && i < |body| && Accounted(r.session)
    ensures Accounted(RunStatement(r, at, body, i, world).session)
  {
    hide Carry, Accounted, Resolve, ArgsError, BindSelf, EvalAssert, ErrorRefFrom;
    if body[i].Command? {
      var inst := r.session.live[at];
      var resolved := Resolve(inst.kind, body[i].name, body[i].positional);
      if resolved.Some? {
        var bound := BindSelf(r.scope, r.session.live, inst.name);
        CarryAccounted(r.session, Progress(r.session, bound - {"ok", "error"}, None), at, resolved.value.cmd,
                       ErrorRefFrom(body, i + 1), world);
      }
    }
  }

  lemma {:induction false} BodyAccounted(s: Session, at: nat, body: seq<Statement>, n: nat, world: World)
    requires at < |s.live| && n <= |body| && Accounted(s)
    ensures Accounted(RunBody(s, at, body, n, world).session)
  {
    hide RunStatement, Accounted;
    if n > 0 {
      BodyAccounted(s, at, body, n - 1, world);
      StatementAccounted(RunBody(s, at, body, n - 1, world), at, body, n - 1, world);
    }
  }

  lemma ItemAccounted(s: Session, item: TopLevel, world: World)
    requires Accounted(s)
    ensures Accounted(RunItem(s, item, world).session)
  {
    hide RunBody, ConstructedIn, TornDownIn;
    match item
    case ActorDeclaration(name, _, _, _) =>
      ConstructedName(item, world, |s.log|);
      var inst := Construct(item, world, |s.log|);
      if inst.Ok? {
        LogOneMore(s.log, Constructed(name));
        assert LiveNames(s.live + [inst.value]) == LiveNames(s.live) + [name];
      }
    case AsBlock(actor, body) =>
      if Find(s.live, actor).Some? {
        BodyAccounted(s, Find(s.live, actor).value, body, |body|, world);
      }
  }

  lemma ConstructedName(decl: TopLevel, world: World, time: nat)
    requires decl.ActorDeclaration?
    ensures var inst := Construct(decl, world, time); inst.Ok? ==> inst.value.name == decl.name
  {
    hide EvalKeywords, EvalVars, ArgMembers, AssignedView, KindByName, Declares;
  }

  lemma {:induction false} ItemsAccounted(src: SourceFile, n: nat, world: World)
    requires n <= |src|
    ensures Accounted(RunItems(src, n, world).session)
  {
    hide RunItem;
    if n > 0 {
      ItemsAccounted(src, n - 1, world);
      ItemAccounted(RunItems(src, n - 1, world).session, src[n - 1], world);
    }
  }

  /** Teardown appends one event per live actor, last constructed first, and reports each under
      its construction position with the outcome that its own teardown had. */
  lemma {:induction false} TearDownAppends(live: seq<Live>, log: seq<Event>, world: World)
    ensures var torn := TearDown(live, log, world);
            && |torn.log| == |log| + |live| && torn.log[..|log|] == log && |torn.reports| == |live|
            && forall k :: 0 <= k < |live| ==>
                 && torn.reports[k].actor == live[k].name
                 && torn.log[|torn.log| - 1 - k] == TornDown(live[k].name, torn.reports[k].result)
  {
    if live != [] {
      var name, result := live[|live| - 1].name, world.teardown(|log|);
      TearDownAppends(live[..|live| - 1], log + [TornDown(name, result)], world);
      var rest := TearDown(live[..|live| - 1], log + [TornDown(name, result)], world);
      assert rest.log[|log|] == TornDown(name, result);
      assert rest.log[..|log|] == rest.log[..|log| + 1][..|log|];
    }
  }

  lemma {:induction false} OnlyTearsDown(live: seq<Live>, log: seq<Event>, world: World)
    ensures var torn := TearDown(live, log, world);
            forall k :: |log| <= k < |torn.log| ==> torn.log[k].TornDown?
  {
    hide TearDown;
    TearDownAppends(live, log, world);
    var torn := TearDown(live, log, world);
    forall k | |log| <= k < |torn.log|
      ensures torn.log[k].TornDown?
    {
      var j := |torn.log| - 1 - k;
      assert torn.reports[j].actor == live[j].name;
    }
  }

  lemma {:induction false} TearDownNames(live: seq<Live>, log: seq<Event>, world: World)
    ensures var torn := TearDown(live, log, world);
            && ConstructedIn(torn.log) == ConstructedIn(log)
            && TornDownIn(torn.log) == TornDownIn(log) + Reversed(LiveNames(live))
  {
    hide ConstructedIn, TornDownIn;
    if live != [] {
      var name, result := live[|live| - 1].name, world.teardown(|log|);
      LogOneMore(log, TornDown(name, result));
      TearDownNames(live[..|live| - 1], log + [TornDown(name, result)], world);
      assert LiveNames(live)[..|live| - 1] == LiveNames(live[..|live| - 1]);
    }
  }

  function ReportNames(reports: seq<TeardownReport>): (names: seq<string>)
    ensures |names| == |reports|
  {
    seq(|reports|, i requires 0 <= i < |reports| => reports[i].actor)
  }

  /** Teardown completeness, for every program and every way it can fail: the actors torn down are
      exactly the actors constructed, in reverse order and after everything else; the reports come
      back in construction order, each with the outcome of its own teardown, panics included; and
      the test passed exactly when no failure was recorded. */
  lemma TeardownComplete(src: SourceFile, world: World)
    ensures var report := Report(src, world); var ran := RunItems(src, |src|, world).session;
            var actors := ConstructedIn(report.log);
            && ReportNames(report.teardown) == actors
            && TornDownIn(report.log) == Reversed(actors)
            && |report.log| == |ran.log| + |actors|
            && report.log[..|ran.log|] == ran.log && TornDownIn(ran.log) == []
            && (forall k :: 0 <= k < |actors| ==>
                  report.log[|report.log| - 1 - k] == TornDown(actors[k], report.teardown[k].result))
            && (report.passed <==> report.failure.None?)
  {
    hide RunItems, ConstructedIn, TornDownIn, TearDown;
    var ran := RunItems(src, |src|, world).session;
    ItemsAccounted(src, |src|, world);
    TearDownAppends(ran.live, ran.log, world);
    TearDownNames(ran.live, ran.log, world);
    var torn := TearDown(ran.live, ran.log, world);
    assert ReportNames(torn.reports) == LiveNames(ran.live);
  }

  /** Once an item has failed, what the rest of the program says does not matter to the report. */
  lemma NothingAfterFailure(src: SourceFile, n: nat, other: SourceFile, world: World)
    requires n <= |src| && RunItems(src, n, world).failure.Some?
    ensures !Report(src, world).passed
    ensures Report(src[..n] + other, world) == Report(src, world)
  {
    hide RunItem, TearDown;
    var swapped := src[..n] + other;
    SamePrefixSameRun(src, swapped, n, world);
    FailureStays(src, n, |src|, world);
    FailureStays(swapped, n, |swapped|, world);
  }

  lemma BlockRuns(src: SourceFile, world: World, b: nat)
    requires b < |src| && src[b].AsBlock? && RunItems(src, b, world).failure.None?
    requires Find(RunItems(src, b, world).session.live, src[b].actor).Some?
    ensures var s := RunItems(src, b, world).session;
            RunItems(src, b + 1, world) ==
              RunBody(s, Find(s.live, src[b].actor).value, src[b].body, |src[b].body|, world)
  {
    hide RunBody, Find;
  }

  /** The first failing statement ends the run: its failure is the report's, and after its last event
      there is nothing but the teardown of the actors that were live. */
  lemma {:induction false} FirstFailureEndsRun(src: SourceFile, world: World, b: nat, i: nat)
    requires b < |src| && src[b].AsBlock? && i <= |src[b].body| && RunItems(src, b, world).failure.None?
    requires Find(RunItems(src, b, world).session.live, src[b].actor).Some?
    requires var s := RunItems(src, b, world).session;
             RunBody(s, Find(s.live, src[b].actor).value, src[b].body, i, world).failure.Some?
    ensures var s := RunItems(src, b, world).session;
            var r := RunBody(s, Find(s.live, src[b].actor).value, src[b].body, i, world);
            var report := Report(src, world);
            && report.failure == r.failure && !report.passed
            && |report.log| == |r.session.log| + |s.live| && report.log[..|r.session.log|] == r.session.log
            && forall k :: |r.session.log| <= k < |report.log| ==> report.log[k].TornDown?
  {
    hide RunBody, RunItems, TearDown, Find, LiveNames;
    var s, body := RunItems(src, b, world).session, src[b].body;
    var at := Find(s.live, src[b].actor).value;
    var r := RunBody(s, at, body, i, world);
    BodyFailureStays(s, at, body, i, |body|, world);
    BlockRuns(src, world, b);
    FailureStays(src, b + 1, |src|, world);
    var live, log := r.session.live, r.session.log;
    TearDownAppends(live, log, world);
    OnlyTearsDown(live, log, world);
  }

  lemma {:induction false} SamePrefixSameRun(src: SourceFile, other: SourceFile, n: nat, world: World)
    requires n <= |src| && n <= |other| && src[..n] == other[..n]
    ensures RunItems(src, n, world) == RunItems(other, n, world)
  {
    hide RunItem;
    if n > 0 {
      assert src[..n][..n - 1] == src[..n - 1] && other[..n][..n - 1] == other[..n - 1];
      assert src[n - 1] == src[..n][n - 1] && other[n - 1] == other[..n][n - 1];
      SamePrefixSameRun(src, other, n - 1, world);
    }
  }
}
