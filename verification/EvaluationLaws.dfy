/** What expressions and keyword arguments evaluate to, law by law: order, first errors, last keys. */
module EvaluationLaws {
  import opened Common
  import opened Values
  import opened Ast
  import opened Evaluation
  import opened Execution
  import Hex
  import QueryResults

  lemma LiteralsAreThemselves(n: int, b: bool, atom: string, scope: Scope, lib: Library)
    ensures Eval(NumberLit(n), scope, lib) == Ok(NumberV(n)) && Eval(BoolLit(b), scope, lib) == Ok(BoolV(b))
    ensures Eval(AtomLit(atom), scope, lib) == Ok(AtomV(atom)) && Eval(NullLit, scope, lib) == Ok(NullV)
  {
  }

  // ── Arrays ──────────────────────────────────────────────────────────────────

  /** The first expression that cannot be evaluated. */
  predicate FirstToFail(es: seq<Expr>, k: int, scope: Scope, lib: Library) {
    && 0 <= k < |es| && Eval(es[k], scope, lib).Err?
    && forall j :: 0 <= j < k ==> Eval(es[j], scope, lib).Ok?
  }

  lemma {:induction false} AllInOrder(es: seq<Expr>, scope: Scope, lib: Library)
    ensures var r := EvalAll(es, scope, lib);
            if r.Ok? then
              && |r.value| == |es|
              && forall k :: 0 <= k < |es| ==> Eval(es[k], scope, lib) == Ok(r.value[k])
            else exists k :: FirstToFail(es, k, scope, lib) && r.error == Eval(es[k], scope, lib).error
  {
    hide Eval;
    if es != [] {
      var first, rest := Eval(es[0], scope, lib), EvalAll(es[1..], scope, lib);
      AllInOrder(es[1..], scope, lib);
      if first.Err? {
        assert FirstToFail(es, 0, scope, lib);
      } else if rest.Ok? {
        var r := EvalAll(es, scope, lib);
        forall k | 0 <= k < |es|
          ensures Eval(es[k], scope, lib) == Ok(r.value[k])
        {
          assert k > 0 ==> es[k] == es[1..][k - 1];
        }
      } else {
        var k :| FirstToFail(es[1..], k, scope, lib) && rest.error == Eval(es[1..][k], scope, lib).error;
        LaterToFail(es, k, scope, lib);
      }
    }
  }

  lemma LaterToFail(es: seq<Expr>, k: nat, scope: Scope, lib: Library)
    requires es != [] && Eval(es[0], scope, lib).Ok? && FirstToFail(es[1..], k, scope, lib)
    ensures FirstToFail(es, k + 1, scope, lib) && es[k + 1] == es[1..][k]
  {
    hide Eval;
    forall j | 0 <= j < k + 1
      ensures Eval(es[j], scope, lib).Ok?
    {
      assert j > 0 ==> es[j] == es[1..][j - 1];
    }
  }

  /** An array literal holds the values of its elements, each at its own place, or fails as its first
      element that cannot be evaluated does. */
  lemma ArrayElements(items: seq<Expr>, scope: Scope, lib: Library)
    ensures match Eval(ArrayLit(items), scope, lib)
            case Ok(v) =>
              && v.ArrayV? && |v.items| == |items|
              && forall k :: 0 <= k < |items| ==> Eval(items[k], scope, lib) == Ok(v.items[k])
            case Err(e) => exists k :: FirstToFail(items, k, scope, lib) && e == Eval(items[k], scope, lib).error
  {
    AllInOrder(items, scope, lib);
  }

  /** Indexing an array literal gives the element; a negative or too large index is an error. */
  lemma IndexedElement(items: seq<Expr>, n: int, scope: Scope, lib: Library)
    requires Eval(ArrayLit(items), scope, lib).Ok?
    ensures Eval(Index(ArrayLit(items), [NumberLit(n)]), scope, lib) ==
              if n < 0 then Err(NegativeIndex) else if n >= |items| then Err(OutOfBounds)
              else Eval(items[n], scope, lib)
  {
    ArrayElements(items, scope, lib);
    var v := Eval(ArrayLit(items), scope, lib).value;
    QueryResults.IndexOnce(v, NumberLit(n), NumberV(n), scope, lib);
  }

  /** Any indexing: arrays by number, dictionaries by name or position; nothing else can be indexed, and
      only dictionaries have members. */
  lemma IndexMeans(e: Expr, index: Expr, name: string, scope: Scope, lib: Library)
    requires Eval(e, scope, lib).Ok? && Eval(index, scope, lib).Ok?
    ensures var r := Eval(Index(e, [index]), scope, lib);
            match (Eval(e, scope, lib).value, Eval(index, scope, lib).value)
            case (ArrayV(items), NumberV(n)) =>
              r == (if n < 0 then Err(NegativeIndex) else if n >= |items| then Err(OutOfBounds) else Ok(items[n]))
            case (DictV(fields), NumberV(n)) =>
              r == (if n < 0 then Err(NegativeIndex) else if n >= |fields| then Err(OutOfBounds)
                    else Ok(fields[n].value))
            case (DictV(fields), StringV(key)) =>
              r == (if Get(fields, key).Some? then Ok(Get(fields, key).value) else Err(NoField(key)))
            case _ => r == Err(CannotIndex)
    ensures !Eval(e, scope, lib).value.DictV? ==> Eval(Member(e, name), scope, lib) == Err(NoMembers)
  {
    hide Get;
    QueryResults.IndexOnce(Eval(e, scope, lib).value, index, Eval(index, scope, lib).value, scope, lib);
  }

  /** `e.name` and `e["name"]` are the same on a dictionary, value or error. */
  lemma MemberIsIndexByName(e: Expr, name: string, scope: Scope, lib: Library)
    requires Eval(e, scope, lib).Ok? && Eval(e, scope, lib).value.DictV?
    ensures Eval(Member(e, name), scope, lib) == Eval(Index(e, [StringLit([Text(name)])]), scope, lib)
  {
    hide Get;
    TextIsItself(name, scope, lib);
    QueryResults.IndexOnce(Eval(e, scope, lib).value, StringLit([Text(name)]), StringV(name), scope, lib);
  }

  // ── Strings ─────────────────────────────────────────────────────────────────

  /** One string after the other; the first error wins. */
  function Then(first: Result<Value, EvalError>, rest: Result<Value, EvalError>): Result<Value, EvalError>
    requires first.Ok? ==> first.value.StringV?
    requires rest.Ok? ==> rest.value.StringV?
  {
    if first.Err? then first else if rest.Err? then rest else Ok(StringV(first.value.s + rest.value.s))
  }

  lemma TextIsItself(t: string, scope: Scope, lib: Library)
    ensures Eval(StringLit([]), scope, lib) == Ok(StringV([]))
    ensures Eval(StringLit([Text(t)]), scope, lib) == Ok(StringV(t))
  {
    QueryResults.RenderText(t, scope, lib);
  }

  /** An interpolation shows strings and atoms as they are, numbers as the library prints them, booleans by
      name and bytes as the text they encode; nothing else can be interpolated. */
  lemma InterpolationShows(e: Expr, scope: Scope, lib: Library)
    ensures var shown := Eval(StringLit([Interpolation(e)]), scope, lib);
            match Eval(e, scope, lib)
            case Err(error) => shown == Err(error)
            case Ok(StringV(s)) => shown == Ok(StringV(s))
            case Ok(AtomV(a)) => shown == Ok(StringV(a))
            case Ok(NumberV(n)) => shown == Ok(StringV(lib.showInt(n)))
            case Ok(BoolV(b)) => shown == Ok(StringV(if b then "true" else "false"))
            case Ok(BytesV(bytes)) =>
              shown == (if lib.fromUtf8(bytes).Some? then Ok(StringV(lib.fromUtf8(bytes).value)) else Err(NotUtf8))
            case Ok(_) => shown == Err(CannotInterpolate)
  {
    var f := Interpolation(e);
    assert [f][1..] == [];
    var one := RenderOne(f, scope, lib);
    if one.Ok? {
      assert one.value + [] == one.value;
    }
    assert Render([f], scope, lib) == one;
  }

  lemma {:induction false} RenderSplit(a: seq<Fragment>, b: seq<Fragment>, scope: Scope, lib: Library)
    ensures var first, rest := Render(a, scope, lib), Render(b, scope, lib);
            Render(a + b, scope, lib) ==
              if first.Err? then first else if rest.Err? then rest else Ok(first.value + rest.value)
  {
    hide RenderOne;
    var rest := Render(b, scope, lib);
    if a == [] {
      assert a + b == b;
      assert rest.Ok? ==> [] + rest.value == rest.value;
    } else {
      assert (a + b)[1..] == a[1..] + b && (a + b)[0] == a[0];
      RenderSplit(a[1..], b, scope, lib);
      var one, tail := RenderOne(a[0], scope, lib), Render(a[1..], scope, lib);
      assert one.Ok? && tail.Ok? && rest.Ok? ==>
          one.value + (tail.value + rest.value) == (one.value + tail.value) + rest.value;
    }
  }

  lemma LiteralIsString(fragments: seq<Fragment>, scope: Scope, lib: Library)
    ensures var r := Eval(StringLit(fragments), scope, lib); r.Ok? ==> r.value.StringV?
  {
  }

  /** A string is the concatenation of its fragments in order: any cut gives the same text or first error. */
  lemma StringsConcatenate(a: seq<Fragment>, b: seq<Fragment>, scope: Scope, lib: Library)
    ensures Eval(StringLit(a), scope, lib).Ok? ==> Eval(StringLit(a), scope, lib).value.StringV?
    ensures Eval(StringLit(b), scope, lib).Ok? ==> Eval(StringLit(b), scope, lib).value.StringV?
    ensures Eval(StringLit(a + b), scope, lib) ==
              Then(Eval(StringLit(a), scope, lib), Eval(StringLit(b), scope, lib))
  {
    hide Render;
    RenderSplit(a, b, scope, lib);
  }

  /** The five registered squiggles: `sql`, `json` and `re` are the text itself, `b` its bytes and `hex` the
      bytes it spells out; any other tag is an error. */
  lemma SquigglesMean(tag: string, fragments: seq<Fragment>, scope: Scope, lib: Library)
    ensures var v, text := Eval(Squiggle(tag, fragments), scope, lib), Eval(StringLit(fragments), scope, lib);
            && (text.Ok? ==> text.value.StringV?)
            && if tag !in {"sql", "json", "re", "b", "hex"} then v == Err(UnknownSquiggle(tag))
               else if text.Err? then v == text
               else if tag == "b" then v == Ok(BytesV(lib.toUtf8(text.value.s)))
               else if tag == "hex" then
                 var bytes := Hex.Decode(text.value.s);
                 v == if bytes.Ok? then Ok(BytesV(bytes.value)) else Err(BadHex(bytes.error))
               else v == text
  {
    hide Render, Hex.Decode;
  }

  // ── Keyword arguments ───────────────────────────────────────────────────────

  /** No later keyword repeats the key of the one at `i`. */
  predicate LastOfItsKey(kws: seq<KeywordArg>, i: int) {
    0 <= i < |kws| && forall j :: i < j < |kws| ==> kws[j].key != kws[i].key
  }

  /** The evaluated keywords: under each key the value of its last occurrence, and no other key; an error
      is that of the first keyword that cannot be evaluated. */
  ghost predicate KeywordsMean(kws: seq<KeywordArg>, r: Result<Dict, EvalError>, scope: Scope, lib: Library) {
    if r.Ok? then
      && (forall i :: 0 <= i < |kws| ==> EvalKeywordValue(kws[i].value, scope, lib).Ok?)
      && (forall i :: LastOfItsKey(kws, i) ==>
            Get(r.value, kws[i].key) == Some(EvalKeywordValue(kws[i].value, scope, lib).value))
      && (forall key :: Get(r.value, key).Some? ==> exists i :: LastOfItsKey(kws, i) && kws[i].key == key)
    else exists i ::
      && 0 <= i < |kws| && EvalKeywordValue(kws[i].value, scope, lib) == Err(r.error)
      && forall j :: 0 <= j < i ==> EvalKeywordValue(kws[j].value, scope, lib).Ok?
  }

  lemma {:induction false} KeywordArguments(kws: seq<KeywordArg>, scope: Scope, lib: Library)
    ensures KeywordsMean(kws, EvalKeywords(kws, scope, lib), scope, lib)
  {
    hide EvalKeywordValue, Insert;
    if kws == [] {
    } else {
      var init, last := kws[..|kws| - 1], kws[|kws| - 1];
      KeywordArguments(init, scope, lib);
      var before, v := EvalKeywords(init, scope, lib), EvalKeywordValue(last.value, scope, lib);
      if before.Ok? && v.Ok? {
        KeywordSnoc(init, last, before.value, v.value, scope, lib);
        assert kws == init + [last];
      } else if before.Err? {
        var i :| 0 <= i < |init| && EvalKeywordValue(init[i].value, scope, lib) == Err(before.error)
                 && forall j :: 0 <= j < i ==> EvalKeywordValue(init[j].value, scope, lib).Ok?;
        assert kws[i] == init[i] && forall j :: 0 <= j < i ==> kws[j] == init[j];
      } else {
        assert forall j :: 0 <= j < |kws| - 1 ==> kws[j] == init[j];
      }
    }
  }

  lemma KeywordSnoc(init: seq<KeywordArg>, last: KeywordArg, before: Dict, v: Value, scope: Scope, lib: Library)
    requires KeywordsMean(init, Ok(before), scope, lib) && EvalKeywordValue(last.value, scope, lib) == Ok(v)
    ensures KeywordsMean(init + [last], Ok(Insert(before, last.key, v)), scope, lib)
  {
    hide EvalKeywordValue, Insert;
    var kws, after := init + [last], Insert(before, last.key, v);
    forall key
      ensures Get(after, key) == if key == last.key then Some(v) else Get(before, key)
    {
      GetInsert(before, last.key, v, key);
    }
    forall i | LastOfItsKey(kws, i)
      ensures Get(after, kws[i].key) == Some(EvalKeywordValue(kws[i].value, scope, lib).value)
    {
      if i < |init| {
        assert kws[|init|].key != kws[i].key;
        assert LastOfItsKey(init, i) by {
          assert forall j :: i < j < |init| ==> init[j] == kws[j];
        }
      }
    }
    forall key | Get(after, key).Some?
      ensures exists i :: LastOfItsKey(kws, i) && kws[i].key == key
    {
      if key == last.key {
        assert LastOfItsKey(kws, |init|);
      } else {
        var i :| LastOfItsKey(init, i) && init[i].key == key;
        assert LastOfItsKey(kws, i);
      }
    }
  }

  /** What a map key stands for: a bare identifier for itself, anything else for the string or atom it
      evaluates to. */
  predicate KeyIs(key: Expr, name: string, scope: Scope, lib: Library) {
    if key.Ident? then key.name == name
    else Eval(key, scope, lib) == Ok(StringV(name)) || Eval(key, scope, lib) == Ok(AtomV(name))
  }

  predicate LastUnder(entries: seq<MapEntry>, i: int, name: string, scope: Scope, lib: Library) {
    && 0 <= i < |entries| && KeyIs(entries[i].key, name, scope, lib)
    && forall j :: i < j < |entries| ==> !KeyIs(entries[j].key, name, scope, lib)
  }

  ghost predicate HasKey(e: MapEntry, scope: Scope, lib: Library) { exists name :: KeyIs(e.key, name, scope, lib) }

  /** A map argument: under each name the value of the last entry whose key stands for it. */
  ghost predicate EntriesMean(entries: seq<MapEntry>, d: Dict, scope: Scope, lib: Library) {
    && (forall i, name :: LastUnder(entries, i, name, scope, lib) ==>
          Eval(entries[i].value, scope, lib).Ok? && Get(d, name) == Some(Eval(entries[i].value, scope, lib).value))
    && (forall name :: Get(d, name).Some? ==> exists i :: LastUnder(entries, i, name, scope, lib))
  }

  /** It evaluates exactly when every key stands for a name and every value evaluates. */
  lemma {:induction false} MapArguments(entries: seq<MapEntry>, scope: Scope, lib: Library)
    ensures var r := EvalKeywordValue(MapValue(entries), scope, lib);
            && (r.Ok? <==> forall i :: 0 <= i < |entries| ==>
                  HasKey(entries[i], scope, lib) && Eval(entries[i].value, scope, lib).Ok?)
            && (r.Ok? ==> r.value.DictV? && EntriesMean(entries, r.value.fields, scope, lib))
  {
    hide Insert, Eval, EntriesMean;
    if entries == [] {
      NoEntries(scope, lib);
    } else {
      var init, last := entries[..|entries| - 1], entries[|entries| - 1];
      MapArguments(init, scope, lib);
      KeyStandsFor(last, scope, lib);
      var k := EvalMapKey(last.key, scope, lib);
      hide EvalMapKey, HasKey;
      assert entries == init + [last];
      var before, v := EvalEntries(init, scope, lib), Eval(last.value, scope, lib);
      if before.Ok? && k.Ok? && v.Ok? {
        EntrySnoc(init, last, k.value, before.value, v.value, scope, lib);
      }
    }
  }

  lemma NoEntries(scope: Scope, lib: Library)
    ensures EntriesMean([], [], scope, lib)
  {
  }

  lemma KeyStandsFor(e: MapEntry, scope: Scope, lib: Library)
    ensures HasKey(e, scope, lib) <==> EvalMapKey(e.key, scope, lib).Ok?
    ensures forall name :: KeyIs(e.key, name, scope, lib) <==> EvalMapKey(e.key, scope, lib) == Ok(name)
  {
    hide Eval;
    var k := EvalMapKey(e.key, scope, lib);
    if k.Ok? {
      assert KeyIs(e.key, k.value, scope, lib);
    }
  }

  lemma LastUnderSnoc(init: seq<MapEntry>, last: MapEntry, i: int, name: string, scope: Scope, lib: Library)
    ensures LastUnder(init + [last], i, name, scope, lib) <==>
              if KeyIs(last.key, name, scope, lib) then i == |init| else LastUnder(init, i, name, scope, lib)
  {
    hide KeyIs;
    var entries := init + [last];
    assert entries[|init|] == last && forall j :: 0 <= j < |init| ==> entries[j] == init[j];
  }

  lemma EntrySnoc(init: seq<MapEntry>, last: MapEntry, key: string, before: Dict, v: Value, scope: Scope, lib: Library)
    requires EntriesMean(init, before, scope, lib) && Eval(last.value, scope, lib) == Ok(v)
    requires forall name :: KeyIs(last.key, name, scope, lib) <==> name == key
    ensures EntriesMean(init + [last], Insert(before, key, v), scope, lib)
  {
    hide Eval, Insert, KeyIs;
    var entries, after := init + [last], Insert(before, key, v);
    forall name
      ensures Get(after, name) == if name == key then Some(v) else Get(before, name)
    {
      GetInsert(before, key, v, name);
    }
    forall i, name
      ensures LastUnder(entries, i, name, scope, lib) <==>
                if name == key then i == |init| else LastUnder(init, i, name, scope, lib)
    {
      LastUnderSnoc(init, last, i, name, scope, lib);
    }
    hide LastUnder;
    forall name | Get(after, name).Some?
      ensures exists i :: LastUnder(entries, i, name, scope, lib)
    {
      if name == key {
        assert LastUnder(entries, |init|, name, scope, lib);
      } else {
        var i :| LastUnder(init, i, name, scope, lib);
        assert LastUnder(entries, i, name, scope, lib);
      }
    }
    forall i, name | LastUnder(entries, i, name, scope, lib)
      ensures Eval(entries[i].value, scope, lib).Ok?
      ensures Get(after, name) == Some(Eval(entries[i].value, scope, lib).value)
    {
      if name != key {
        assert LastUnder(init, i, name, scope, lib);
      }
    }
  }
}
