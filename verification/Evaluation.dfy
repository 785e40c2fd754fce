/** The expression evaluator and the squiggle registry it dispatches through. */
module Evaluation {
  import opened Common
  import opened Values
  import opened Ast
  import Hex

  datatype EvalError =
    | UndefinedName(name: string)
    | NoField(name: string)
    | NoMembers
    | UnknownSquiggle(tag: string)
    | SquiggleTypeMismatch(tag: string)
    | CannotInterpolate
    | NotUtf8
    | BadHex(error: Hex.HexError)
    | NegativeIndex
    | OutOfBounds
    | CannotIndex
    | NoRightHandSide
    | CannotCompare
    | BadMapKey

  /** Library behaviour the program relies on but does not define. */
  datatype Library = Library(
    showInt: int -> string,
    toUtf8: string -> seq<Byte>,
    fromUtf8: seq<Byte> -> Option<string>,
    compare: (ComparisonOp, Value, Value) -> Option<bool>,
    parseInt: string -> Option<int>,
    parseBool: string -> Option<bool>)

  type Scope = map<string, Value>

  // ── Squiggles ───────────────────────────────────────────────────────────────

  /** The registered tags and the type each declares. */
  function SquiggleType(tag: string): Option<ValueType> {
    if tag == "sql" || tag == "json" || tag == "re" then Some(StringT)
    else if tag == "hex" || tag == "b" then Some(BytesT)
    else None
  }

  /** A registered squiggle applied to its rendered text. */
  function ApplySquiggle(tag: string, rendered: string, lib: Library): Result<Value, EvalError> {
    if tag == "hex" then
      match Hex.Decode(rendered)
      case Ok(bytes) => Ok(BytesV(bytes))
      case Err(e) => Err(BadHex(e))
    else if tag == "b" then Ok(BytesV(lib.toUtf8(rendered)))
    else Ok(StringV(rendered))
  }

  function RenderValue(v: Value, lib: Library): Result<string, EvalError> {
    match v
    case StringV(s) => Ok(s)
    case NumberV(n) => Ok(lib.showInt(n))
    case BoolV(b) => Ok(if b then "true" else "false")
    case AtomV(a) => Ok(a)
    case BytesV(bytes) =>
      (match lib.fromUtf8(bytes)
       case Some(s) => Ok(s)
       case None => Err(NotUtf8))
    case _ => Err(CannotInterpolate)
  }

  // ── Indexing ────────────────────────────────────────────────────────────────

  function IndexInto(container: Value, index: Value): Result<Value, EvalError> {
    match (container, index)
    case (ArrayV(items), NumberV(n)) =>
      if n < 0 then Err(NegativeIndex) else if n >= |items| then Err(OutOfBounds) else Ok(items[n])
    case (DictV(fields), StringV(key)) =>
      (match Get(fields, key)
       case Some(v) => Ok(v)
       case None => Err(NoField(key)))
    case (DictV(fields), NumberV(n)) =>
      if n < 0 then Err(NegativeIndex) else if n >= |fields| then Err(OutOfBounds) else Ok(fields[n].value)
    case _ => Err(CannotIndex)
  }

  // ── Meaning of expressions ──────────────────────────────────────────────────

  function Eval(e: Expr, scope: Scope, lib: Library): Result<Value, EvalError>
    decreases e, 1
  {
    match e
    case NumberLit(n) => Ok(NumberV(n))
    case BoolLit(b) => Ok(BoolV(b))
    case NullLit => Ok(NullV)
    case AtomLit(a) => Ok(AtomV(a))
    case StringLit(fragments) =>
      var r := Render(fragments, scope, lib);
      if r.Ok? then Ok(StringV(r.value)) else Err(r.error)
    case Ident(name) => if name in scope then Ok(scope[name]) else Err(UndefinedName(name))
    case Member(receiver, property) =>
      var o := Eval(receiver, scope, lib);
      if o.Err? then o
      else if !o.value.DictV? then Err(NoMembers)
      else if Get(o.value.fields, property).None? then Err(NoField(property))
      else Ok(Get(o.value.fields, property).value)
    case ArrayLit(items) =>
      var r := EvalAll(items, scope, lib);
      if r.Ok? then Ok(ArrayV(r.value)) else Err(r.error)
    case Squiggle(tag, fragments) =>
      if SquiggleType(tag).None? then Err(UnknownSquiggle(tag))
      else
        var r := Render(fragments, scope, lib);
        if r.Err? then Err(r.error)
        else
          var v := ApplySquiggle(tag, r.value, lib);
          if v.Ok? && !IsOfType(v.value, SquiggleType(tag).value) then Err(SquiggleTypeMismatch(tag)) else v
    case Index(receiver, indices) =>
      var o := Eval(receiver, scope, lib);
      if o.Err? then o else IndexAll(o.value, indices, scope, lib)
  }

  /** All values in order, or the first error. */
  function EvalAll(es: seq<Expr>, scope: Scope, lib: Library): (r: Result<seq<Value>, EvalError>)
    ensures r.Ok? ==> |r.value| == |es|
    decreases es, 0
  {
    if es == [] then Ok([])
    else
      var first := Eval(es[0], scope, lib);
      if first.Err? then Err(first.error)
      else
        var rest := EvalAll(es[1..], scope, lib);
        if rest.Ok? then Ok([first.value] + rest.value) else rest
  }

  function IndexAll(container: Value, indices: seq<Expr>, scope: Scope, lib: Library): Result<Value, EvalError>
    decreases indices, 0
  {
    if indices == [] then Ok(container)
    else
      var i := Eval(indices[0], scope, lib);
      if i.Err? then i
      else
        var next := IndexInto(container, i.value);
        if next.Err? then next else IndexAll(next.value, indices[1..], scope, lib)
  }

  function Render(fragments: seq<Fragment>, scope: Scope, lib: Library): Result<string, EvalError>
    decreases fragments, 0
  {
    if fragments == [] then Ok([])
    else
      var first := RenderOne(fragments[0], scope, lib);
      if first.Err? then first
      else
        var rest := Render(fragments[1..], scope, lib);
        if rest.Ok? then Ok(first.value + rest.value) else rest
  }

  function RenderOne(f: Fragment, scope: Scope, lib: Library): Result<string, EvalError>
    decreases f, 0
  {
    match f
    case Text(t) => Ok(t)
    case Interpolation(e) =>
      var v := Eval(e, scope, lib);
      if v.Err? then Err(v.error) else RenderValue(v.value, lib)
  }
}
