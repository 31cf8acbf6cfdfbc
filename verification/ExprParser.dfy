/** The parser object: a token list and a cursor that only moves forward. */
module ExprParser {
  import opened ExprSyntax
  import opened ExprGrammar

  datatype Outcome = Tree(node: Node) | Failed(why: SyntaxError)

  class Parser {
    const rx: Patterns
    const toks: seq<Token>
    var i: nat

    constructor (rx: Patterns, toks: seq<Token>)
      requires Ended(toks)
      ensures Valid() && this.rx == rx && this.toks == toks && i == 0
    {
      this.rx, this.toks, i := rx, toks, 0;
    }

    ghost predicate Valid()
      reads this
    {
      Ended(toks) && i < |toks|
    }

    /** The outcome and the cursor are what the function of the same name says. */
    ghost predicate Agrees(r: Outcome, p: Parsed)
      reads this
    {
      match p
      case Ok(n, next) => r == Tree(n) && i == next
      case Bad(why) => r == Failed(why)
    }

    function Peek(): Token
      requires Valid()
      reads this
    {
      toks[i]
    }

    /** The cursor never passes the end marker. */
    method Advance() returns (t: Token)
      requires Valid()
      modifies this
      ensures Valid() && t == toks[old(i)] && i == if old(i) < |toks| - 1 then old(i) + 1 else old(i)
    {
      t := toks[i];
      if i < |toks| - 1 {
        i := i + 1;
      }
    }

    method ParseOr() returns (r: Outcome)
      requires Valid()
      modifies this
      ensures Valid() && Agrees(r, ExprGrammar.ParseOr(rx, toks, old(i)))
      decreases |toks| - i, 5
    {
      ghost var start := i;
      r := ParseAnd();
      if r.Failed? {
        return;
      }
      var left := r.node;
      while Peek() == TOp("||")
        invariant Valid() && start < i && OrRest(rx, toks, left, i) == ExprGrammar.ParseOr(rx, toks, start)
        decreases |toks| - i
      {
        var _ := Advance();
        r := ParseAnd();
        if r.Failed? {
          return;
        }
        left := Or(left, r.node);
      }
      r := Tree(left);
    }

    method ParseAnd() returns (r: Outcome)
      requires Valid()
      modifies this
      ensures Valid() && Agrees(r, ExprGrammar.ParseAnd(rx, toks, old(i)))
      decreases |toks| - i, 4
    {
      ghost var start := i;
      r := ParseUnary();
      if r.Failed? {
        return;
      }
      var left := r.node;
      while Peek() == TOp("&&")
        invariant Valid() && start < i && AndRest(rx, toks, left, i) == ExprGrammar.ParseAnd(rx, toks, start)
        decreases |toks| - i
      {
        var _ := Advance();
        r := ParseUnary();
        if r.Failed? {
          return;
        }
        left := And(left, r.node);
      }
      r := Tree(left);
    }

    method ParseUnary() returns (r: Outcome)
      requires Valid()
      modifies this
      ensures Valid() && Agrees(r, ExprGrammar.ParseUnary(rx, toks, old(i)))
      decreases |toks| - i, 3
    {
      if Peek() == TOp("!") {
        var _ := Advance();
        r := ParseUnary();
        if r.Tree? {
          r := Tree(Not(r.node));
        }
        return;
      }
      r := ParsePrimary();
    }

    method ParsePrimary() returns (r: Outcome)
      requires Valid()
      modifies this
      ensures Valid() && Agrees(r, ExprGrammar.ParsePrimary(rx, toks, old(i)))
      decreases |toks| - i, 2
    {
      if Peek() == TLParen {
        var _ := Advance();
        r := ParseOr();
        if r.Failed? {
          return;
        }
        if Peek() != TRParen {
          return Failed(ExpectedParen);
        }
        var _ := Advance();
        return;
      }
      // One token of lookahead: an identifier is never the last token.
      if Peek().TIdent? && toks[i + 1] == TLParen {
        r := ParseFunc();
        return;
      }
      r := ParseValue();
      if r.Tree? {
        r := MaybeComparison(r.node);
      }
    }

    method ParseFunc() returns (r: Outcome)
      requires Valid() && toks[i].TIdent? && i + 1 < |toks| && toks[i + 1] == TLParen
      modifies this
      ensures Valid() && Agrees(r, ExprGrammar.ParseFunc(toks, old(i)))
    {
      var name := Advance();
      var _ := Advance();
      if name.name != "exists" && name.name != "missing" {
        return Failed(UnknownFunction);
      }
      var arg := Peek();
      if !arg.TIdent? {
        return Failed(FieldRequired);
      }
      var _ := Advance();
      if Peek() != TRParen {
        return Failed(OneArgument);
      }
      var _ := Advance();
      r := Tree(Func(name.name, arg.name));
    }

    /** Consumes a comparison operator if one stands at the cursor. */
    method TakeComparisonOp() returns (op: string, found: bool)
      requires Valid()
      modifies this
      ensures Valid() && i == old(i) + ComparisonOp(toks, old(i)).1
      ensures op == ComparisonOp(toks, old(i)).0 && (found <==> ComparisonOp(toks, old(i)).1 > 0)
    {
      var t := Peek();
      if t.TOp? {
        if SymbolOp(t.op) {
          var _ := Advance();
          return t.op, true;
        }
        return "", false;
      }
      if t.TIdent? {
        if t.name == "in" || t.name == "contains" {
          var _ := Advance();
          return t.name, true;
        }
        if t.name == "not" && toks[i + 1] == TIdent("in") {
          var _ := Advance();
          var _ := Advance();
          return "not in", true;
        }
      }
      return "", false;
    }

    method MaybeComparison(left: Node) returns (r: Outcome)
      requires Valid()
      modifies this
      ensures Valid() && Agrees(r, ParseComparison(rx, toks, left, old(i)))
      decreases |toks| - i, 2
    {
      var op, found := TakeComparisonOp();
      if !found {
        return Tree(BoolOf(left));
      }
      var right := ParseValue();
      if right.Failed? {
        return right;
      }
      if op == "~=" || op == "!~" {
        if !right.node.Lit? || !right.node.v.Str? {
          return Failed(RegexNeedsString);
        }
        if !rx(right.node.v.str) {
          return Failed(BadRegex);
        }
      }
      r := Tree(Cmp(op, left, right.node));
    }

    method ParseValue() returns (r: Outcome)
      requires Valid()
      modifies this
      ensures Valid() && Agrees(r, ExprGrammar.ParseValue(toks, old(i)))
      decreases |toks| - i, 1
    {
      var t := Peek();
      match t
      case TString(s) =>
        var _ := Advance();
        r := Tree(Lit(Str(s)));
      case TNumber(x) =>
        var _ := Advance();
        r := Tree(Lit(Num(x)));
      case TLBrack =>
        r := ParseList();
      case TIdent(w) =>
        var _ := Advance();
        if w == "true" {
          return Tree(Lit(Bool(true)));
        }
        if w == "false" {
          return Tree(Lit(Bool(false)));
        }
        r := Tree(Field(w));
      case _ =>
        r := Failed(UnexpectedToken);
    }

    method ParseList() returns (r: Outcome)
      requires Valid() && toks[i] == TLBrack
      modifies this
      ensures Valid() && Agrees(r, ExprGrammar.ParseValue(toks, old(i)))
      decreases |toks| - i, 0
    {
      ghost var start := i;
      var _ := Advance();
      var elems := [];
      while Peek() != TRBrack
        invariant Valid() && start < i && ListRest(toks, elems, i) == ExprGrammar.ParseValue(toks, start)
        decreases |toks| - i
      {
        var v := ParseValue();
        if v.Failed? {
          return v;
        }
        elems := elems + [v.node];
        if Peek() == TComma {
          var _ := Advance();
          continue;
        }
        break;
      }
      if Peek() != TRBrack {
        return Failed(ExpectedBracket);
      }
      var _ := Advance();
      r := Tree(ListNode(elems));
    }

    /** The whole input is one expression. */
    method ParseAll() returns (r: Outcome)
      requires Valid() && i == 0
      modifies this
      ensures match Parse(rx, toks)
              case Ok(n, _) => r == Tree(n)
              case Bad(why) => r == Failed(why)
    {
      r := ParseOr();
      if r.Tree? && Peek() != TEOF {
        r := Failed(TrailingInput);
      }
    }
  }
}
