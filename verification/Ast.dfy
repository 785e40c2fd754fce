/** The abstract syntax of an iLL program. */
module Ast {
  import opened Common

  datatype Expr =
    | Ident(name: string)
    | StringLit(fragments: seq<Fragment>)
    | NumberLit(n: int)
    | BoolLit(b: bool)
    | NullLit
    | AtomLit(atom: string)
    | ArrayLit(items: seq<Expr>)
    | Squiggle(tag: string, fragments: seq<Fragment>)
    | Member(receiver: Expr, property: string)
    | Index(receiver: Expr, indices: seq<Expr>)

  datatype Fragment = Text(text: string) | Interpolation(expr: Expr)

  datatype ComparisonOp = Eq | NotEq | Gt | Gte | Lt | Lte | Contains | NotContains | Matches | NotMatches

  datatype MapEntry = MapEntry(key: Expr, value: Expr)

  datatype KeywordValue = ExprValue(expr: Expr) | MapValue(entries: seq<MapEntry>)

  datatype KeywordArg = KeywordArg(key: string, value: KeywordValue)

  datatype LetValue = LetExpr(expr: Expr) | LetParse(source: Expr, format: string)

  datatype Statement =
    | Command(name: string, positional: seq<Expr>, keyword: seq<KeywordArg>)
    | Assert(left: Expr, op: Option<ComparisonOp>, right: Option<Expr>)
    | Let(bound: string, value: LetValue)
    | Assignment(target: Expr, source: Expr)

  datatype VarDeclaration = VarDeclaration(name: string, default: Option<Expr>)

  datatype TopLevel =
    | ActorDeclaration(name: string, actorType: string, keyword: seq<KeywordArg>, vars: seq<VarDeclaration>)
    | AsBlock(actor: string, body: seq<Statement>)

  type SourceFile = seq<TopLevel>

  /** `name`, `name.x`, `name[..]` or any longer chain rooted at the identifier `name`. */
  predicate StartsWith(e: Expr, name: string) {
    match e
    case Ident(n) => n == name
    case Member(o, _) => StartsWith(o, name)
    case Index(o, _) => StartsWith(o, name)
    case _ => false
  }
}
