/** Tokens, syntax trees and the grammar of the selector language. */
module ExprSyntax {

  datatype Token =
    | TEOF | TIdent(name: string) | TString(text: string) | TNumber(num: real) | TOp(op: string)
    | TLParen | TRParen | TLBrack | TRBrack | TComma

  datatype Value = Missing | Num(num: real) | Str(str: string) | Bool(b: bool) | List(items: seq<Value>)

  datatype Node =
    | Lit(v: Value)
    | ListNode(elems: seq<Node>)
    | Field(name: string)
    | Not(x: Node)
    | And(l: Node, r: Node)
    | Or(l: Node, r: Node)
    | BoolOf(x: Node)
    | Cmp(op: string, l: Node, r: Node)
    | Func(name: string, field: string)

  /** Which patterns the regular-expression library accepts. */
  type Patterns = string -> bool

  predicate SymbolOp(op: string) {
    op == "==" || op == "!=" || op == "<" || op == "<=" || op == ">" || op == ">=" || op == "~=" || op == "!~"
  }

  predicate RegexOp(op: string) { op == "~=" || op == "!~" }

  predicate WordOp(op: string) { op == "in" || op == "contains" || op == "not in" }

  predicate FuncName(name: string) { name == "exists" || name == "missing" }

  // ---- The grammar, as derivation trees ----

  datatype Val =
    | NumV(num: real)
    | StrV(text: string)
    | WordV(word: string)
    | ListV(elems: seq<Val>, trailing: bool)

  datatype Unit =
    | NotU(u: Unit)
    | ParenU(e: Expr)
    | FuncU(name: string, field: string)
    | BareU(v: Val)
    | CmpU(op: string, l: Val, r: Val)

  datatype Conj = OneUnit(u: Unit) | AndMore(init: Conj, last: Unit)

  datatype Expr = OneConj(c: Conj) | OrMore(init: Expr, last: Conj)

  predicate ValOk(v: Val) {
    v.ListV? ==> (v.trailing ==> v.elems != []) && forall e :: e in v.elems ==> ValOk(e)
  }

  predicate UnitOk(u: Unit, rx: Patterns) {
    match u
    case NotU(x) => UnitOk(x, rx)
    case ParenU(e) => ExprOk(e, rx)
    case FuncU(name, _) => FuncName(name)
    case BareU(v) => ValOk(v)
    case CmpU(op, l, r) =>
      && (SymbolOp(op) || WordOp(op)) && ValOk(l) && ValOk(r)
      && (RegexOp(op) ==> r.StrV? && rx(r.text))
  }

  predicate ConjOk(c: Conj, rx: Patterns) {
    match c
    case OneUnit(u) => UnitOk(u, rx)
    case AndMore(init, last) => ConjOk(init, rx) && UnitOk(last, rx)
  }

  predicate ExprOk(e: Expr, rx: Patterns) {
    match e
    case OneConj(c) => ConjOk(c, rx)
    case OrMore(init, last) => ExprOk(init, rx) && ConjOk(last, rx)
  }

  /** The tokens a derivation stands for. */
  function ValYield(v: Val): (ts: seq<Token>)
    ensures |ts| >= 1 && TEOF !in ts
  {
    match v
    case NumV(x) => [TNumber(x)]
    case StrV(s) => [TString(s)]
    case WordV(w) => [TIdent(w)]
    case ListV(es, trailing) => [TLBrack] + ElemsYield(es) + (if trailing then [TComma] else []) + [TRBrack]
  }

  function ElemsYield(es: seq<Val>): (ts: seq<Token>)
    ensures TEOF !in ts
  {
    if es == [] then []
    else if |es| == 1 then ValYield(es[0])
    else ValYield(es[0]) + [TComma] + ElemsYield(es[1..])
  }

  function OpYield(op: string): (ts: seq<Token>)
    ensures |ts| >= 1 && TEOF !in ts
  {
    if op == "not in" then [TIdent("not"), TIdent("in")]
    else if op == "in" || op == "contains" then [TIdent(op)]
    else [TOp(op)]
  }

  function UnitYield(u: Unit): (ts: seq<Token>)
    ensures |ts| >= 1 && TEOF !in ts
  {
    match u
    case NotU(x) => [TOp("!")] + UnitYield(x)
    case ParenU(e) => [TLParen] + ExprYield(e) + [TRParen]
    case FuncU(name, field) => [TIdent(name), TLParen, TIdent(field), TRParen]
    case BareU(v) => ValYield(v)
    case CmpU(op, l, r) => ValYield(l) + OpYield(op) + ValYield(r)
  }

  function ConjYield(c: Conj): (ts: seq<Token>)
    ensures |ts| >= 1 && TEOF !in ts
  {
    match c
    case OneUnit(u) => UnitYield(u)
    case AndMore(init, last) => ConjYield(init) + [TOp("&&")] + UnitYield(last)
  }

  function ExprYield(e: Expr): (ts: seq<Token>)
    ensures |ts| >= 1 && TEOF !in ts
  {
    match e
    case OneConj(c) => ConjYield(c)
    case OrMore(init, last) => ExprYield(init) + [TOp("||")] + ConjYield(last)
  }

  /** The tree a derivation means: parentheses group, both operators associate to the left. */
  function WordNode(w: string): Node {
    if w == "true" then Lit(Bool(true)) else if w == "false" then Lit(Bool(false)) else Field(w)
  }

  function ValNode(v: Val): Node {
    match v
    case NumV(x) => Lit(Num(x))
    case StrV(s) => Lit(Str(s))
    case WordV(w) => WordNode(w)
    case ListV(es, _) => ListNode(ElemNodes(es))
  }

  function ElemNodes(es: seq<Val>): (ns: seq<Node>)
    ensures |ns| == |es|
  {
    if es == [] then [] else [ValNode(es[0])] + ElemNodes(es[1..])
  }

  function UnitNode(u: Unit): Node {
    match u
    case NotU(x) => Not(UnitNode(x))
    case ParenU(e) => ExprNode(e)
    case FuncU(name, field) => Func(name, field)
    case BareU(v) => BoolOf(ValNode(v))
    case CmpU(op, l, r) => Cmp(op, ValNode(l), ValNode(r))
  }

  function ConjNode(c: Conj): Node {
    match c
    case OneUnit(u) => UnitNode(u)
    case AndMore(init, last) => And(ConjNode(init), UnitNode(last))
  }

  function ExprNode(e: Expr): Node {
    match e
    case OneConj(c) => ConjNode(c)
    case OrMore(init, last) => Or(ExprNode(init), ConjNode(last))
  }
}
