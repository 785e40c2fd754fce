/** Runtime values, ordered dictionaries and the static type language. */
module Values {
  import opened Common

  datatype Value =
    | StringV(s: string)
    | NumberV(n: int)
    | FloatV(x: real)
    | BoolV(b: bool)
    | AtomV(a: string)
    | BytesV(bytes: seq<Byte>)
    | ArrayV(items: seq<Value>)
    | DictV(fields: Dict)
    | NullV

  datatype Field = Field(key: string, value: Value)

  /** Insertion-ordered, like the source's `IndexMap`: `fields[i]` is the i-th inserted entry. */
  type Dict = seq<Field>

  datatype ValueType =
    | StringT | NumberT | FloatT | BoolT | AtomT | BytesT | DictT | NullT | DynamicT | UnknownT

  predicate IsOfType(v: Value, ty: ValueType) {
    match ty
    case DynamicT => true
    case UnknownT => true
    case StringT => v.StringV?
    case NumberT => v.NumberV?
    case FloatT => v.FloatV?
    case BoolT => v.BoolV?
    case AtomT => v.AtomV?
    case BytesT => v.BytesV?
    case DictT => v.DictV?
    case NullT => v.NullV?
  }

  /** The one concrete type of a value; arrays have none. */
  function TypeOf(v: Value): Option<ValueType> {
    match v
    case StringV(_) => Some(StringT)
    case NumberV(_) => Some(NumberT)
    case FloatV(_) => Some(FloatT)
    case BoolV(_) => Some(BoolT)
    case AtomV(_) => Some(AtomT)
    case BytesV(_) => Some(BytesT)
    case DictV(_) => Some(DictT)
    case NullV => Some(NullT)
    case ArrayV(_) => None
  }

  /** A concrete type has exactly the values of that type; the other two have all. */
  lemma IsOfTypeIff(v: Value, ty: ValueType)
    ensures IsOfType(v, ty) <==> ty.DynamicT? || ty.UnknownT? || TypeOf(v) == Some(ty)
  {
  }

  function Get(d: Dict, key: string): Option<Value> {
    if d == [] then None
    else if d[0].key == key then Some(d[0].value)
    else Get(d[1..], key)
  }

  /** Replaces in place when the key is present, appends otherwise. */
  function Insert(d: Dict, key: string, v: Value): Dict {
    if d == [] then [Field(key, v)]
    else if d[0].key == key then [Field(key, v)] + d[1..]
    else [d[0]] + Insert(d[1..], key, v)
  }

  lemma {:induction false} GetInsert(d: Dict, key: string, v: Value, other: string)
    ensures Get(Insert(d, key, v), other) == if other == key then Some(v) else Get(d, other)
  {
    if d != [] && d[0].key != key {
      GetInsert(d[1..], key, v, other);
      assert Insert(d, key, v)[1..] == Insert(d[1..], key, v);
    } else if d != [] {
      assert ([Field(key, v)] + d[1..])[1..] == d[1..];
    } else {
      assert [Field(key, v)][1..] == [];
    }
  }
}
