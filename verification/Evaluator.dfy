/** The evaluator as the program runs it: recursive methods with loops over local buffers. */
module Evaluator {
  import opened Common
  import opened Values
  import opened Ast
  import opened Evaluation
  import Hex

  function Prefixed(done: seq<Value>, rest: Result<seq<Value>, EvalError>): Result<seq<Value>, EvalError> {
    if rest.Ok? then Ok(done + rest.value) else rest
  }

  function PrefixedText(done: string, rest: Result<string, EvalError>): Result<string, EvalError> {
    if rest.Ok? then Ok(done + rest.value) else rest
  }

  method EvalExpr(e: Expr, scope: Scope, lib: Library) returns (r: Result<Value, EvalError>)
    ensures r == Eval(e, scope, lib)
    decreases e, 1
  {
    match e
    case NumberLit(n) => return Ok(NumberV(n));
    case BoolLit(b) => return Ok(BoolV(b));
    case NullLit => return Ok(NullV);
    case AtomLit(a) => return Ok(AtomV(a));
    case StringLit(fragments) =>
      var text := ConcatFragments(fragments, scope, lib);
      return if text.Ok? then Ok(StringV(text.value)) else Err(text.error);
    case Ident(name) => return if name in scope then Ok(scope[name]) else Err(UndefinedName(name));
    case Member(receiver, property) =>
      var o := EvalExpr(receiver, scope, lib);
      if o.Err? { return o; }
      if !o.value.DictV? { return Err(NoMembers); }
      var found := Get(o.value.fields, property);
      return if found.Some? then Ok(found.value) else Err(NoField(property));
    case ArrayLit(items) =>
      var all := EvalItems(items, scope, lib);
      return if all.Ok? then Ok(ArrayV(all.value)) else Err(all.error);
    case Squiggle(tag, fragments) =>
      var declared := SquiggleType(tag);
      if declared.None? { return Err(UnknownSquiggle(tag)); }
      var text := ConcatFragments(fragments, scope, lib);
      if text.Err? { return Err(text.error); }
      var v := ApplySquiggle(tag, text.value, lib);
      return if v.Ok? && !IsOfType(v.value, declared.value) then Err(SquiggleTypeMismatch(tag)) else v;
    case Index(receiver, indices) =>
      var o := EvalExpr(receiver, scope, lib);
      if o.Err? { return o; }
      r := FollowIndices(o.value, indices, scope, lib);
  }

  method EvalItems(items: seq<Expr>, scope: Scope, lib: Library) returns (r: Result<seq<Value>, EvalError>)
    ensures r == EvalAll(items, scope, lib)
    decreases items, 0
  {
    var out := [];
    ghost var all := EvalAll(items, scope, lib);
    assert items[0..] == items && (all.Ok? ==> [] + all.value == all.value);
    for i := 0 to |items|
      invariant EvalAll(items, scope, lib) == Prefixed(out, EvalAll(items[i..], scope, lib))
    {
      assert items[i..][1..] == items[i + 1..];
      var v := EvalExpr(items[i], scope, lib);
      if v.Err? { return Err(v.error); }
      ghost var rest := EvalAll(items[i + 1..], scope, lib);
      assert rest.Ok? ==> out + ([v.value] + rest.value) == (out + [v.value]) + rest.value;
      out := out + [v.value];
    }
    assert items[|items|..] == [] && out + [] == out;
    return Ok(out);
  }

  method FollowIndices(start: Value, indices: seq<Expr>, scope: Scope, lib: Library)
    returns (r: Result<Value, EvalError>)
    ensures r == IndexAll(start, indices, scope, lib)
    decreases indices, 0
  {
    var current := start;
    assert indices[0..] == indices;
    for i := 0 to |indices|
      invariant IndexAll(start, indices, scope, lib) == IndexAll(current, indices[i..], scope, lib)
    {
      assert indices[i..][1..] == indices[i + 1..];
      var index := EvalExpr(indices[i], scope, lib);
      if index.Err? { return index; }
      var next := IndexInto(current, index.value);
      if next.Err? { return next; }
      current := next.value;
    }
    assert indices[|indices|..] == [];
    return Ok(current);
  }

  method ConcatFragments(fragments: seq<Fragment>, scope: Scope, lib: Library) returns (r: Result<string, EvalError>)
    ensures r == Render(fragments, scope, lib)
    decreases fragments, 0
  {
    var out := "";
    ghost var whole := Render(fragments, scope, lib);
    assert fragments[0..] == fragments && (whole.Ok? ==> [] + whole.value == whole.value);
    for i := 0 to |fragments|
      invariant Render(fragments, scope, lib) == PrefixedText(out, Render(fragments[i..], scope, lib))
    {
      assert fragments[i..][1..] == fragments[i + 1..];
      var piece := RenderFragment(fragments[i], scope, lib);
      if piece.Err? { return piece; }
      ghost var rest := Render(fragments[i + 1..], scope, lib);
      assert rest.Ok? ==> out + (piece.value + rest.value) == (out + piece.value) + rest.value;
      out := out + piece.value;
    }
    assert fragments[|fragments|..] == [] && out + [] == out;
    return Ok(out);
  }

  method RenderFragment(f: Fragment, scope: Scope, lib: Library) returns (r: Result<string, EvalError>)
    ensures r == RenderOne(f, scope, lib)
    decreases f, 0
  {
    match f
    case Text(t) => return Ok(t);
    case Interpolation(e) =>
      var v := EvalExpr(e, scope, lib);
      return if v.Err? then Err(v.error) else RenderValue(v.value, lib);
  }
}
