/** The types the validator gives: not only sound (see `TypePreservation`) but as precise as the source's
    tables of variables, outcome fields and squiggles allow. */
module StaticTypes {
  import opened Common
  import opened Values
  import opened Ast
  import opened Registry
  import opened Evaluation
  import opened Validation
  import opened ModeSimulation
  import opened QueryResults

  /** The first field of a name. */
  predicate FirstField(fields: seq<OutcomeField>, k: int, name: string) {
    0 <= k < |fields| && fields[k].name == name && forall j :: 0 <= j < k ==> fields[j].name != name
  }

  lemma {:induction false} FieldTypeIs(fields: seq<OutcomeField>, name: string)
    ensures match FieldType(fields, name)
            case Some(ty) => exists k :: FirstField(fields, k, name) && fields[k].ty == ty
            case None => forall k :: 0 <= k < |fields| ==> fields[k].name != name
  {
    if fields != [] {
      var rest := fields[1..];
      FieldTypeIs(rest, name);
      if fields[0].name == name {
        assert FirstField(fields, 0, name);
      } else if FieldType(rest, name).Some? {
        var k :| FirstField(rest, k, name) && rest[k].ty == FieldType(rest, name).value;
        assert FirstField(fields, k + 1, name) by {
          assert forall j :: 0 < j < |fields| ==> fields[j] == rest[j - 1];
        }
      } else {
        assert forall j :: 0 < j < |fields| ==> fields[j] == rest[j - 1];
      }
    }
  }

  /** A literal or registered squiggle that evaluates has a value of exactly its static type, wherever it
      stands. */
  lemma LiteralTypesExact(e: Expr, vars: VarTypes, w: Window, scope: Scope, lib: Library)
    requires e.StringLit? || e.NumberLit? || e.BoolLit? || e.NullLit? || e.AtomLit? || e.Squiggle?
    requires Eval(e, scope, lib).Ok?
    ensures TypeOf(Eval(e, scope, lib).value) == Some(ExprTypeInActor(e, vars, w))
  {
    hide Render;
  }

  /** A variable has its recorded type, by itself and through `self`; `error.type` is an atom. */
  lemma VariableTypes(x: string, vars: VarTypes, w: Window)
    requires x in vars
    ensures ExprTypeInActor(Ident(x), vars, w) == ExprTypeInActor(Member(Ident("self"), x), vars, w) == vars[x]
    ensures ExprTypeInActor(Member(Ident("error"), "type"), vars, w) == AtomT
  {
  }

  /** `ok.f` has the type its command declares for `f`, and `error.v.f` that of `f` in the variant `v`. */
  lemma OutcomeTypes(field: string, variant: ErrorType, vars: VarTypes, w: Window)
    ensures var ty := ExprTypeInActor(Member(Ident("ok"), field), vars, w);
            if exists k :: FirstField(w.okFields, k, field)
            then exists k :: FirstField(w.okFields, k, field) && ty == w.okFields[k].ty
            else ty == UnknownT
    ensures Variant(w.errorTypes, variant.name) == Some(variant) ==>
              var ty := ExprTypeInActor(Member(Member(Ident("error"), variant.name), field), vars, w);
              forall k :: FirstField(variant.fields, k, field) ==> ty == variant.fields[k].ty
  {
    FieldTypeIs(w.okFields, field);
    FieldTypeIs(variant.fields, field);
    hide FieldType, Variant;
  }

  /** The window of a fine command knows the fields that command declares. */
  lemma WindowDeclares(src: SourceFile, b: nat, i: nat)
    requires Accepts(src) && b < |src| && src[b].AsBlock? && i < |src[b].body| && src[b].body[i].Command?
    requires CheckedTo(src, b).Knows(src[b].actor)
    ensures var kind, st := Checked(src, b, i).checker.actors[src[b].actor].kind, src[b].body[i];
            var resolved := Resolve(kind, st.name, st.positional);
            && resolved.Some?
            && Checked(src, b, i + 1).window ==
                 Window(ImpliedOk, TransitionsTo(resolved.value.cmd), OkFields(kind, resolved.value.cmd),
                        ErrorTypes(kind, resolved.value.cmd))
  {
    hide Accepts, CheckBlock, CheckBody, CheckStatement, RegisterAll, CheckItems;
    var c, actor, body := CheckedTo(src, b), src[b].actor, src[b].body;
    AcceptedSoFar(src, b + 1);
    CheckedStep(src, b);
    PrefixHasNoDiagnostics(c, actor, body, i + 1);
    assert body[..i] + [body[i]] == body[..i + 1];
    CheckBodyStep(c, actor, body[..i], body[i]);
    CleanWindow(Checked(src, b, i), actor, body[i]);
  }

  lemma CleanWindow(walk: Walk, actor: string, st: Statement)
    requires walk.checker.Knows(actor) && st.Command? && CheckStatement(walk, actor, st).checker.diagnostics == []
    ensures var kind := walk.checker.actors[actor].kind; var resolved := Resolve(kind, st.name, st.positional);
            && resolved.Some?
            && CheckStatement(walk, actor, st).window ==
                 Window(ImpliedOk, TransitionsTo(resolved.value.cmd), OkFields(kind, resolved.value.cmd),
                        ErrorTypes(kind, resolved.value.cmd))
  {
    hide Resolve, TagsInAll, TagsInKeywords, KeywordIssues, Keywords, OkFields, ErrorTypes;
  }

  /** A declared variable is recorded with the type of its last default, and without one as unknown. */
  lemma {:induction false} DeclaredVariables(vars: seq<VarDeclaration>, i: nat)
    requires i < |vars| && forall j :: i < j < |vars| ==> vars[j].name != vars[i].name
    ensures vars[i].name in DeclaredTypes(vars)
    ensures DeclaredTypes(vars)[vars[i].name] ==
              match vars[i].default case Some(e) => ExprType(e) case None => UnknownT
  {
    hide ExprType;
    if i < |vars| - 1 {
      DeclaredVariables(vars[..|vars| - 1], i);
    }
  }

  /** A let records the type of its expression, as seen with its own reference taken into account, under
      its name; it changes no other variable, and no other statement changes any. */
  lemma LetIsRecorded(src: SourceFile, b: nat, i: nat)
    requires b < |src| && src[b].AsBlock? && i < |src[b].body| && CheckedTo(src, b).Knows(src[b].actor)
    ensures var before, after, st := Checked(src, b, i), Checked(src, b, i + 1), src[b].body[i];
            var vars := before.checker.actors[src[b].actor].vars;
            after.checker.actors[src[b].actor].vars ==
              if st.Let? && st.value.LetExpr? then vars[st.bound := ExprTypeInActor(st.value.expr, vars, after.window)]
              else if st.Let? then vars[st.bound := if st.value.format == "json" then DynamicT else UnknownT]
              else vars
  {
    hide CheckBody, CheckStatement, RegisterAll, CheckItems, ExprTypeInActor;
    var c, actor, body := CheckedTo(src, b), src[b].actor, src[b].body;
    assert body[..i] + [body[i]] == body[..i + 1];
    CheckBodyStep(c, actor, body[..i], body[i]);
    OneStatementRecords(Checked(src, b, i), actor, body[i]);
  }

  lemma OneStatementRecords(walk: Walk, actor: string, st: Statement)
    requires walk.checker.Knows(actor)
    ensures var after, vars := CheckStatement(walk, actor, st), walk.checker.actors[actor].vars;
            && after.checker.Knows(actor)
            && after.checker.actors[actor].vars ==
                 if st.Let? && st.value.LetExpr?
                 then vars[st.bound := ExprTypeInActor(st.value.expr, vars, after.window)]
                 else if st.Let? then vars[st.bound := if st.value.format == "json" then DynamicT else UnknownT]
                 else vars
  {
    hide CheckCommand, ExprTypeInActor, StatementReference, Conflicts, Advance, StatementTags;
  }

  /** What a query returns has exactly the fields the command declares, each of its declared type. */
  lemma QueryAnswersAsDeclared(rs: ResultSet, name: string)
    requires rs.Valid()
    ensures match FieldType(OkFields(PgClient, Query), name)
            case Some(ty) => Get(ResultDict(rs), name).Some? && IsOfType(Get(ResultDict(rs), name).value, ty)
            case None => Get(ResultDict(rs), name).None?
  {
    ResultFields(rs);
    FieldTypeIs(OkFields(PgClient, Query), name);
    hide FieldType;
    if name !in {"row", "col", "row_count", "col_count"} {
      var n := |rs.Columns()|;
      var a := Insert([], "row", RowView(rs.rows));
      var c := Insert(a, "col", DictV(ColumnView(rs, n)));
      GetInsert([], "row", RowView(rs.rows), name);
      GetInsert(a, "col", DictV(ColumnView(rs, n)), name);
      GetInsert(c, "row_count", NumberV(|rs.rows|), name);
      GetInsert(Insert(c, "row_count", NumberV(|rs.rows|)), "col_count", NumberV(n), name);
    }
    hide Insert, ColumnView, RowView;
  }
}
