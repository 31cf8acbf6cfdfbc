/** The recursive-descent parser as functions on a token list and a cursor, and what it accepts. */
module ExprGrammar {
  import opened ExprSyntax

  datatype SyntaxError =
    | ExpectedParen | ExpectedBracket | UnexpectedToken | RegexNeedsString | BadRegex
    | UnknownFunction | FieldRequired | OneArgument | TrailingInput

  datatype Parsed = Ok(node: Node, next: nat) | Bad(why: SyntaxError)

  /** A token list as the lexer makes it: exactly one end marker, at the end. */
  ghost predicate Ended(ts: seq<Token>) {
    ts != [] && ts[|ts| - 1] == TEOF && forall i :: 0 <= i < |ts| - 1 ==> ts[i] != TEOF
  }

  function ParseOr(rx: Patterns, ts: seq<Token>, i: nat): (r: Parsed)
    requires Ended(ts) && i < |ts|
    ensures r.Ok? ==> i < r.next < |ts|
    decreases |ts| - i, 5
  {
    var l := ParseAnd(rx, ts, i);
    if l.Bad? then l else OrRest(rx, ts, l.node, l.next)
  }

  function OrRest(rx: Patterns, ts: seq<Token>, left: Node, i: nat): (r: Parsed)
    requires Ended(ts) && i < |ts|
    ensures r.Ok? ==> i <= r.next < |ts|
    decreases |ts| - i, 0
  {
    if ts[i] != TOp("||") then Ok(left, i)
    else
      var r := ParseAnd(rx, ts, i + 1);
      if r.Bad? then r else OrRest(rx, ts, Or(left, r.node), r.next)
  }

  function ParseAnd(rx: Patterns, ts: seq<Token>, i: nat): (r: Parsed)
    requires Ended(ts) && i < |ts|
    ensures r.Ok? ==> i < r.next < |ts|
    decreases |ts| - i, 4
  {
    var l := ParseUnary(rx, ts, i);
    if l.Bad? then l else AndRest(rx, ts, l.node, l.next)
  }

  function AndRest(rx: Patterns, ts: seq<Token>, left: Node, i: nat): (r: Parsed)
    requires Ended(ts) && i < |ts|
    ensures r.Ok? ==> i <= r.next < |ts|
    decreases |ts| - i, 0
  {
    if ts[i] != TOp("&&") then Ok(left, i)
    else
      var r := ParseUnary(rx, ts, i + 1);
      if r.Bad? then r else AndRest(rx, ts, And(left, r.node), r.next)
  }

  function ParseUnary(rx: Patterns, ts: seq<Token>, i: nat): (r: Parsed)
    requires Ended(ts) && i < |ts|
    ensures r.Ok? ==> i < r.next < |ts|
    decreases |ts| - i, 3
  {
    if ts[i] == TOp("!") then
      var x := ParseUnary(rx, ts, i + 1);
      if x.Bad? then x else Ok(Not(x.node), x.next)
    else ParsePrimary(rx, ts, i)
  }

  function ParsePrimary(rx: Patterns, ts: seq<Token>, i: nat): (r: Parsed)
    requires Ended(ts) && i < |ts|
    ensures r.Ok? ==> i < r.next < |ts|
    decreases |ts| - i, 2
  {
    if ts[i] == TLParen then
      var inner := ParseOr(rx, ts, i + 1);
      if inner.Bad? then inner
      else if ts[inner.next] != TRParen then Bad(ExpectedParen)
      else Ok(inner.node, inner.next + 1)
    else if ts[i].TIdent? && ts[i + 1] == TLParen then ParseFunc(ts, i)
    else
      var left := ParseValue(ts, i);
      if left.Bad? then left else ParseComparison(rx, ts, left.node, left.next)
  }

  function ParseFunc(ts: seq<Token>, i: nat): (r: Parsed)
    requires Ended(ts) && i + 1 < |ts| && ts[i].TIdent? && ts[i + 1] == TLParen
    ensures r.Ok? ==> i < r.next < |ts|
  {
    if !FuncName(ts[i].name) then Bad(UnknownFunction)
    else if !ts[i + 2].TIdent? then Bad(FieldRequired)
    else if ts[i + 3] != TRParen then Bad(OneArgument)
    else Ok(Func(ts[i].name, ts[i + 2].name), i + 4)
  }

  /** The comparison operator at the cursor and its length, "" and 0 when there is none. */
  function ComparisonOp(ts: seq<Token>, i: nat): (r: (string, nat))
    requires Ended(ts) && i < |ts|
    ensures r.1 <= 2 && i + r.1 < |ts| && (r.1 > 0 <==> r.0 != "")
  {
    match ts[i]
    case TOp(op) => if SymbolOp(op) then (op, 1) else ("", 0)
    case TIdent(w) =>
      if w == "in" || w == "contains" then (w, 1)
      else if w == "not" && ts[i + 1] == TIdent("in") then ("not in", 2)
      else ("", 0)
    case _ => ("", 0)
  }

  function ParseComparison(rx: Patterns, ts: seq<Token>, left: Node, i: nat): (r: Parsed)
    requires Ended(ts) && i < |ts|
    ensures r.Ok? ==> i <= r.next < |ts|
  {
    var (op, n) := ComparisonOp(ts, i);
    if n == 0 then Ok(BoolOf(left), i)
    else
      var right := ParseValue(ts, i + n);
      if right.Bad? then right
      else if RegexOp(op) && !(right.node.Lit? && right.node.v.Str?) then Bad(RegexNeedsString)
      else if RegexOp(op) && !rx(right.node.v.str) then Bad(BadRegex)
      else Ok(Cmp(op, left, right.node), right.next)
  }

  function ParseValue(ts: seq<Token>, i: nat): (r: Parsed)
    requires Ended(ts) && i < |ts|
    ensures r.Ok? ==> i < r.next < |ts|
    decreases |ts| - i, 1
  {
    match ts[i]
    case TString(s) => Ok(Lit(Str(s)), i + 1)
    case TNumber(x) => Ok(Lit(Num(x)), i + 1)
    case TLBrack => ListRest(ts, [], i + 1)
    case TIdent(w) => Ok(WordNode(w), i + 1)
    case _ => Bad(UnexpectedToken)
  }

  function ListRest(ts: seq<Token>, elems: seq<Node>, i: nat): (r: Parsed)
    requires Ended(ts) && i < |ts|
    ensures r.Ok? ==> i < r.next < |ts|
    decreases |ts| - i, 2
  {
    if ts[i] == TRBrack then Ok(ListNode(elems), i + 1)
    else
      var v := ParseValue(ts, i);
      if v.Bad? then v
      else if ts[v.next] == TComma then ListRest(ts, elems + [v.node], v.next + 1)
      else if ts[v.next] == TRBrack then Ok(ListNode(elems + [v.node]), v.next + 1)
      else Bad(ExpectedBracket)
  }

  /** The whole input must be one expression. */
  function Parse(rx: Patterns, ts: seq<Token>): Parsed
    requires Ended(ts)
  {
    var r := ParseOr(rx, ts, 0);
    if r.Ok? && ts[r.next] != TEOF then Bad(TrailingInput) else r
  }
}
