/** Which programs the validator accepts, stated without its walk over diagnostics. */
module Acceptance {
  import opened Common
  import opened Values
  import opened Ast
  import opened Registry
  import opened Evaluation
  import opened Validation
  import opened ModeSimulation

  // ── Squiggle tags ───────────────────────────────────────────────────────────

  /** Every squiggle in the expression, however deep, is one of the five. */
  predicate KnownTags(e: Expr)
    decreases e, 1
  {
    match e
    case Squiggle(tag, fragments) =>
      tag in {"sql", "json", "re", "b", "hex"} && forall f <- fragments :: KnownTagsInFragment(f)
    case StringLit(fragments) => forall f <- fragments :: KnownTagsInFragment(f)
    case ArrayLit(items) => forall x <- items :: KnownTags(x)
    case Member(receiver, _) => KnownTags(receiver)
    case Index(receiver, indices) => KnownTags(receiver) && forall x <- indices :: KnownTags(x)
    case _ => true
  }

  predicate KnownTagsInFragment(f: Fragment)
    decreases f, 0
  {
    f.Interpolation? ==> KnownTags(f.expr)
  }

  predicate KnownTagsInValue(v: KeywordValue) {
    match v
    case ExprValue(e) => KnownTags(e)
    case MapValue(entries) => forall x <- entries :: KnownTagsInEntry(x)
  }

  lemma {:induction false} TagsIff(e: Expr)
    ensures TagsIn(e) == [] <==> KnownTags(e)
    decreases e, 1
  {
    match e
    case Squiggle(_, fragments) => FragmentTagsIff(fragments);
    case StringLit(fragments) => FragmentTagsIff(fragments);
    case ArrayLit(items) => AllTagsIff(items);
    case Member(receiver, _) => TagsIff(receiver);
    case Index(receiver, indices) =>
      TagsIff(receiver);
      AllTagsIff(indices);
    case _ =>
  }

  lemma {:induction false} AllTagsIff(es: seq<Expr>)
    ensures TagsInAll(es) == [] <==> forall x <- es :: KnownTags(x)
    decreases es, 0
  {
    if es != [] {
      TagsIff(es[0]);
      AllTagsIff(es[1..]);
      assert forall x :: x in es <==> x == es[0] || x in es[1..];
    }
  }

  lemma {:induction false} FragmentTagsIff(fragments: seq<Fragment>)
    ensures TagsInFragments(fragments) == [] <==> forall f <- fragments :: KnownTagsInFragment(f)
    decreases fragments, 0
  {
    if fragments != [] {
      OneFragmentTagsIff(fragments[0]);
      FragmentTagsIff(fragments[1..]);
      assert forall f :: f in fragments <==> f == fragments[0] || f in fragments[1..];
    }
  }

  lemma {:induction false} OneFragmentTagsIff(f: Fragment)
    ensures TagsInFragment(f) == [] <==> KnownTagsInFragment(f)
    decreases f, 0
  {
    if f.Interpolation? {
      TagsIff(f.expr);
    }
  }

  predicate KnownTagsInEntry(x: MapEntry) { KnownTags(x.key) && KnownTags(x.value) }

  lemma {:induction false} EntryTagsIff(entries: seq<MapEntry>)
    ensures TagsInEntries(entries) == [] <==> forall x <- entries :: KnownTagsInEntry(x)
  {
    hide TagsIn, KnownTagsInEntry;
    if entries != [] {
      var init, last := entries[..|entries| - 1], entries[|entries| - 1];
      EntryTagsIff(init);
      OneEntryTagsIff(last);
      assert forall x :: x in entries <==> x in init || x == last;
    }
  }

  lemma OneEntryTagsIff(x: MapEntry)
    ensures TagsIn(x.key) == [] && TagsIn(x.value) == [] <==> KnownTagsInEntry(x)
  {
    hide TagsIn, KnownTags;
    TagsIff(x.key);
    TagsIff(x.value);
  }

  lemma ValueTagsIff(v: KeywordValue)
    ensures TagsInValue(v) == [] <==> KnownTagsInValue(v)
  {
    hide TagsIn, KnownTags, KnownTagsInEntry;
    match v
    case ExprValue(e) => TagsIff(e);
    case MapValue(entries) => EntryTagsIff(entries);
  }

  lemma {:induction false} KeywordTagsIff(kws: seq<KeywordArg>)
    ensures TagsInKeywords(kws) == [] <==> forall k <- kws :: KnownTagsInValue(k.value)
  {
    hide TagsInValue, KnownTagsInValue;
    if kws != [] {
      var init, last := kws[..|kws| - 1], kws[|kws| - 1];
      KeywordTagsIff(init);
      ValueTagsIff(last.value);
      assert forall k :: k in kws <==> k in init || k == last;
    }
  }

  lemma {:induction false} DefaultTagsIff(vars: seq<VarDeclaration>)
    ensures DefaultTags(vars) == [] <==> forall v <- vars :: v.default.Some? ==> KnownTags(v.default.value)
  {
    hide TagsIn, KnownTags;
    if vars != [] {
      var init, last := vars[..|vars| - 1], vars[|vars| - 1];
      DefaultTagsIff(init);
      if last.default.Some? {
        TagsIff(last.default.value);
      }
      assert vars == init + [last];
    }
  }

  // ── One statement ───────────────────────────────────────────────────────────

  /** Every key given is declared, and every required one is given. */
  predicate Supplied(provided: seq<KeywordArg>, expected: seq<KeywordDef>) {
    && (forall k <- provided :: Accepted(expected, k.key))
    && (forall d <- expected :: d.required ==> Gives(provided, d.name))
  }

  predicate Accepted(expected: seq<KeywordDef>, key: string) { exists d <- expected :: d.name == key }

  predicate Gives(provided: seq<KeywordArg>, key: string) { exists k <- provided :: k.key == key }

  lemma AcceptedIff(expected: seq<KeywordDef>, key: string)
    ensures Declared(key, expected) <==> Accepted(expected, key)
  {
  }

  lemma GivesIff(provided: seq<KeywordArg>, key: string)
    ensures Provided(key, provided) <==> Gives(provided, key)
  {
  }

  lemma SuppliedIff(provided: seq<KeywordArg>, expected: seq<KeywordDef>)
    ensures KeywordIssues(provided, expected) == [] <==> Supplied(provided, expected)
  {
    KeywordsPassIff(provided, expected);
    forall key
      ensures Declared(key, expected) <==> Accepted(expected, key)
      ensures Provided(key, provided) <==> Gives(provided, key)
    {
      AcceptedIff(expected, key);
      GivesIff(provided, key);
    }
    hide KeywordIssues, Declared, Provided, Accepted, Gives;
  }

  /** A command as the validator wants it: known to the actor, valid in its mode, with enough arguments
      beyond those its name took up, the right keywords, and no unknown tag. */
  predicate CommandIsFine(kind: ActorKind, mode: Mode, st: Statement)
    requires st.Command?
  {
    && var resolved := Resolve(kind, st.name, st.positional);
    && resolved.Some?
    && var cmd, args := resolved.value.cmd, st.positional[resolved.value.consumed..];
    && mode in ValidModes(cmd) && |args| >= PositionalCount(cmd) && Supplied(st.keyword, Keywords(kind, cmd))
    && (forall x <- args :: KnownTags(x)) && (forall k <- st.keyword :: KnownTagsInValue(k.value))
  }

  lemma CommandFineIff(entry: Entry, st: Statement)
    requires entry.Healthy? && st.Command?
    ensures CheckCommand(entry, st).diagnostics == [] <==> CommandIsFine(entry.kind, entry.mode, st)
  {
    hide KnownTags, KnownTagsInValue, TagsInAll, TagsInKeywords, KeywordIssues, Supplied, Resolve, Keywords;
    var resolved := Resolve(entry.kind, st.name, st.positional);
    if resolved.Some? {
      AllTagsIff(st.positional[resolved.value.consumed..]);
      SuppliedIff(st.keyword, Keywords(entry.kind, resolved.value.cmd));
      KeywordTagsIff(st.keyword);
    }
  }

  /** The expressions a statement other than a command evaluates. */
  function ExpressionsOf(st: Statement): set<Expr> {
    match st
    case Command(_, _, _) => {}
    case Let(_, LetExpr(e)) => {e}
    case Let(_, LetParse(source, _)) => {source}
    case Assignment(target, source) => {target, source}
    case Assert(left, _, right) => if right.Some? then {left, right.value} else {left}
  }

  /** A statement as the validator wants it, where its walk has got to. */
  predicate StatementIsFine(walk: Walk, actor: string, st: Statement)
    requires walk.checker.Knows(actor)
  {
    if st.Command? then CommandIsFine(walk.checker.actors[actor].kind, CheckedMode(walk, actor), st)
    else
      // A window that has referred to `ok` does not refer to `error`, nor the other way round.
      && !(walk.window.outcome.ExplicitOk? && StatementReference(st).RefersToError?)
      && !(walk.window.outcome.ExplicitError? && StatementReference(st).RefersToOk?)
      && forall e <- ExpressionsOf(st) :: KnownTags(e)
  }

  lemma StatementTagsIff(st: Statement)
    requires !st.Command?
    ensures StatementTags(st) == [] <==> forall e <- ExpressionsOf(st) :: KnownTags(e)
  {
    hide TagsIn, KnownTags;
    match st
    case Let(_, LetExpr(e)) => TagsIff(e);
    case Let(_, LetParse(source, _)) => TagsIff(source);
    case Assignment(target, source) =>
      TagsIff(target);
      TagsIff(source);
    case Assert(left, _, right) =>
      TagsIff(left);
      if right.Some? {
        TagsIff(right.value);
      }
  }

  lemma StatementFineIff(walk: Walk, actor: string, st: Statement)
    requires walk.checker.Knows(actor)
    ensures CheckStatement(walk, actor, st).checker.diagnostics == [] <==>
              walk.checker.diagnostics == [] && StatementIsFine(walk, actor, st)
  {
    hide CheckCommand, CommandIsFine, KnownTags, StatementTags, StatementReference, ExpressionsOf, LetType;
    if st.Command? {
      CommandFineIff(Settle(walk.checker.actors, walk.window, actor)[actor], st);
    } else {
      StatementTagsIff(st);
    }
  }

  // ── Blocks ──────────────────────────────────────────────────────────────────

  lemma {:induction false} BodyFineIff(c: Checker, actor: string, body: seq<Statement>, n: nat)
    requires c.Knows(actor) && n <= |body|
    ensures CheckBody(c, actor, body[..n]).checker.diagnostics == [] <==>
              && c.diagnostics == []
              && forall i :: 0 <= i < n ==> StatementIsFine(CheckBody(c, actor, body[..i]), actor, body[i])
  {
    hide CheckStatement, StatementIsFine, CheckBody;
    if n == 0 {
      assert body[..0] == [];
      NothingChecked(c, actor);
    } else {
      BodyFineIff(c, actor, body, n - 1);
      assert body[..n - 1] + [body[n - 1]] == body[..n];
      CheckBodyStep(c, actor, body[..n - 1], body[n - 1]);
      StatementFineIff(CheckBody(c, actor, body[..n - 1]), actor, body[n - 1]);
    }
  }

  lemma NothingChecked(c: Checker, actor: string)
    requires c.Knows(actor)
    ensures CheckBody(c, actor, []).checker == c
  {
  }

  /** The actor of the block is declared, and every statement is fine where the walk finds it. */
  predicate BlockIsFine(src: SourceFile, b: nat)
    requires b < |src| && src[b].AsBlock?
  {
    && CheckedTo(src, b).Knows(src[b].actor)
    && forall i :: 0 <= i < |src[b].body| ==> StatementIsFine(Checked(src, b, i), src[b].actor, src[b].body[i])
  }

  lemma BlockFineIff(src: SourceFile, b: nat)
    requires b < |src| && src[b].AsBlock?
    requires src[b].actor in CheckedTo(src, b).actors ==> CheckedTo(src, b).Knows(src[b].actor)
    ensures CheckedTo(src, b + 1).diagnostics == [] <==> CheckedTo(src, b).diagnostics == [] && BlockIsFine(src, b)
  {
    hide StatementIsFine, CheckBody, CheckItems, RegisterAll;
    CheckedStep(src, b);
    var c, actor, body := CheckedTo(src, b), src[b].actor, src[b].body;
    if actor in c.actors {
      BodyFineIff(c, actor, body, |body|);
      assert body[..|body|] == body;
    }
  }

  // ── Declarations ────────────────────────────────────────────────────────────

  /** A declaration of a known type under a name not declared before, with the right keywords. */
  predicate DeclarationIsFine(src: SourceFile, i: nat)
    requires i < |src| && src[i].ActorDeclaration?
  {
    && !DeclaredBefore(src, i, src[i].name)
    && var kind := KindByName(src[i].actorType);
    && kind.Some? && Supplied(src[i].keyword, ConstructorKeywords(kind.value))
    && (forall k <- src[i].keyword :: KnownTagsInValue(k.value))
    && (forall v <- src[i].vars :: v.default.Some? ==> KnownTags(v.default.value))
  }

  lemma RegisterFineIff(c: Checker, src: SourceFile, n: nat)
    requires n < |src| && src[n].ActorDeclaration? && RegisteredUpTo(c.actors, src, n)
    ensures Register(c, src[n]).diagnostics == [] <==> c.diagnostics == [] && DeclarationIsFine(src, n)
  {
    hide KindByName, KeywordIssues, TagsInKeywords, DefaultTags, KnownTags, KnownTagsInValue, Supplied, DeclaredTypes,
      ConstructorKeywords;
    KnownIffDeclared(c, src, n, src[n].name);
    hide RegisteredUpTo, DeclaredBefore;
    var kind := KindByName(src[n].actorType);
    if kind.Some? {
      SuppliedIff(src[n].keyword, ConstructorKeywords(kind.value));
      KeywordTagsIff(src[n].keyword);
      DefaultTagsIff(src[n].vars);
    }
  }

  lemma KnownIffDeclared(c: Checker, src: SourceFile, n: nat, name: string)
    requires n <= |src| && RegisteredUpTo(c.actors, src, n)
    ensures name in c.actors <==> DeclaredBefore(src, n, name)
    ensures name in c.actors ==> c.Knows(name)
  {
    hide KindByName;
    if DeclaredBefore(src, n, name) {
      var i :| 0 <= i < n && src[i].ActorDeclaration? && src[i].name == name;
      assert AsDeclared(c.actors, src[i]);
    }
  }

  lemma {:induction false} RegistrationFineIff(src: SourceFile, n: nat)
    requires n <= |src|
    ensures RegisterAll(src[..n]).diagnostics == [] <==>
              forall i :: 0 <= i < n && src[i].ActorDeclaration? ==> DeclarationIsFine(src, i)
  {
    hide Register, DeclarationIsFine, RegisteredUpTo;
    if n == 0 {
      assert src[..0] == [];
    } else {
      RegistrationFineIff(src, n - 1);
      assert src[..n][..n - 1] == src[..n - 1] && src[..n][n - 1] == src[n - 1];
      var c := RegisterAll(src[..n - 1]);
      if src[n - 1].ActorDeclaration? {
        RegisterExtends(c, src[n - 1]);
        if c.diagnostics == [] {
          RegisteredAll(src, n - 1);
          RegisterFineIff(c, src, n - 1);
        }
      }
    }
  }

  // ── Whole programs ──────────────────────────────────────────────────────────

  lemma {:induction false} KnownThroughout(src: SourceFile, b: nat, name: string)
    requires b <= |src| && RegisterAll(src).diagnostics == []
    ensures name in CheckedTo(src, b).actors <==> DeclaredBefore(src, |src|, name)
    ensures name in CheckedTo(src, b).actors ==> CheckedTo(src, b).Knows(name)
  {
    hide CheckBlock, RegisterAll, DeclaredBefore, RegisteredUpTo;
    if b == 0 {
      assert src[..0] == [] && src[..|src|] == src;
      RegisteredAll(src, |src|);
      KnownIffDeclared(RegisterAll(src), src, |src|, name);
    } else {
      KnownThroughout(src, b - 1, name);
      CheckedStep(src, b - 1);
      if src[b - 1].AsBlock? {
        CheckBlockExtends(CheckedTo(src, b - 1), src[b - 1].actor, src[b - 1].body);
      }
    }
  }

  lemma {:induction false} CheckedFineIff(src: SourceFile, b: nat)
    requires b <= |src|
    ensures CheckedTo(src, b).diagnostics == [] <==>
              && RegisterAll(src).diagnostics == []
              && forall k :: 0 <= k < b && src[k].AsBlock? ==> BlockIsFine(src, k)
  {
    hide CheckBlock, RegisterAll, BlockIsFine;
    if b == 0 {
      assert src[..0] == [];
    } else {
      CheckedFineIff(src, b - 1);
      CheckedStep(src, b - 1);
      if src[b - 1].AsBlock? && CheckedTo(src, b - 1).diagnostics == [] {
        KnownThroughout(src, b - 1, src[b - 1].actor);
        BlockFineIff(src, b - 1);
      }
    }
  }

  /** Acceptance. The validator accepts exactly the programs in which every declaration is fine and every
      block belongs to a declared actor and has only fine statements. */
  lemma AcceptsIff(src: SourceFile)
    ensures Accepts(src) <==>
              && (forall i :: 0 <= i < |src| && src[i].ActorDeclaration? ==> DeclarationIsFine(src, i))
              && (forall b :: 0 <= b < |src| && src[b].AsBlock? ==>
                    DeclaredBefore(src, |src|, src[b].actor) && BlockIsFine(src, b))
  {
    hide BlockIsFine, DeclarationIsFine, RegisterAll, CheckItems, DeclaredBefore;
    assert src[..|src|] == src;
    RegistrationFineIff(src, |src|);
    CheckedFineIff(src, |src|);
    if RegisterAll(src).diagnostics == [] {
      forall b | 0 <= b < |src| && src[b].AsBlock? && BlockIsFine(src, b)
        ensures DeclaredBefore(src, |src|, src[b].actor)
      {
        FineBlockKnown(src, b);
        KnownThroughout(src, b, src[b].actor);
      }
    }
  }

  lemma FineBlockKnown(src: SourceFile, b: nat)
    requires b < |src| && src[b].AsBlock? && BlockIsFine(src, b)
    ensures CheckedTo(src, b).Knows(src[b].actor)
  {
  }

  // ── What it comes to for the arguments ──────────────────────────────────────

  /** The keys that cannot be left out: `user` and `database` to connect a pg_client, `command` to declare
      an exec actor; no other command and no other declaration requires any. */
  lemma RequiredKeys(kind: ActorKind, cmd: Cmd, provided: seq<KeywordArg>)
    requires Offers(kind, cmd)
    ensures Supplied(provided, Keywords(kind, cmd)) && kind.PgClient? && cmd.Connect? ==>
              Gives(provided, "user") && Gives(provided, "database")
    ensures Supplied(provided, ConstructorKeywords(kind)) && kind.Exec? ==> Gives(provided, "command")
    ensures Supplied([], Keywords(kind, cmd)) <==> !(kind.PgClient? && cmd.Connect?)
    ensures Supplied([], ConstructorKeywords(kind)) <==> !kind.Exec?
  {
    hide Supplied;
    PgKeywords();
    assert KeywordDef("command", true) in ConstructorKeywords(Exec);
    SuppliedNeeds(provided, Keywords(kind, cmd));
    SuppliedNeeds(provided, ConstructorKeywords(kind));
  }

  /** A command called by its name needs a statement or a topic, and for a publish a payload as well;
      `receive publish` and the other commands need nothing. */
  lemma NeededArguments(kind: ActorKind, mode: Mode, cmd: Cmd, args: seq<Expr>, keyword: seq<KeywordArg>)
    requires Offers(kind, cmd) && mode in ValidModes(cmd) && Supplied(keyword, Keywords(kind, cmd))
    requires (forall x <- args :: KnownTags(x)) && (forall k <- keyword :: KnownTagsInValue(k.value))
    ensures CommandIsFine(kind, mode, Command(CommandName(cmd), args, keyword)) <==>
              |args| >= (match cmd
                         case Publish0 => 2 case Publish1 => 2 case Publish2 => 2
                         case Query => 1 case Subscribe0 => 1 case Subscribe1 => 1 case Subscribe2 => 1
                         case HttpGet => 1 case HttpPost => 1 case HttpPut => 1 case HttpDelete => 1
                         case _ => 0)
  {
    ResolvesIff(kind, CommandName(cmd), args, cmd, 0);
    hide Resolve, Supplied, KnownTags, KnownTagsInValue, Keywords, Offers;
    assert args[0..] == args;
  }

  lemma PgKeywords()
    ensures KeywordDef("user", true) in Keywords(PgClient, Connect)
    ensures KeywordDef("database", true) in Keywords(PgClient, Connect)
  {
    var keys := Keywords(PgClient, Connect);
    assert keys[2] == KeywordDef("user", true) && keys[4] == KeywordDef("database", true);
  }

  lemma SuppliedNeeds(provided: seq<KeywordArg>, expected: seq<KeywordDef>)
    ensures Supplied(provided, expected) ==> forall d <- expected :: d.required ==> Gives(provided, d.name)
    ensures Supplied([], expected) <==> forall d <- expected :: !d.required
  {
  }

  /** In an accepted program every command of every block has its positional arguments, only declared
      keywords, and all required ones; so has every declaration. */
  lemma AcceptedArguments(src: SourceFile, b: nat, i: nat)
    requires Accepts(src) && b < |src|
    ensures src[b].ActorDeclaration? ==>
              && KindByName(src[b].actorType).Some?
              && Supplied(src[b].keyword, ConstructorKeywords(KindByName(src[b].actorType).value))
    ensures src[b].AsBlock? && i < |src[b].body| && src[b].body[i].Command? ==>
              && CheckedTo(src, b).Knows(src[b].actor)
              && var kind, st := Checked(src, b, i).checker.actors[src[b].actor].kind, src[b].body[i];
                 var resolved := Resolve(kind, st.name, st.positional);
              && resolved.Some?
              && |st.positional| - resolved.value.consumed >= PositionalCount(resolved.value.cmd)
              && Supplied(st.keyword, Keywords(kind, resolved.value.cmd))
  {
    AcceptsIff(src);
    hide Accepts, Supplied, KnownTags, KnownTagsInValue, Resolve, KindByName, CheckBody, RegisterAll, CheckItems,
      DeclaredBefore, Keywords, ConstructorKeywords;
    if src[b].AsBlock? && i < |src[b].body| && src[b].body[i].Command? {
      assert StatementIsFine(Checked(src, b, i), src[b].actor, src[b].body[i]);
    }
  }
}
