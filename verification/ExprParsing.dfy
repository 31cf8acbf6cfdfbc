/**
 The parser accepts exactly the grammar. A token list parses to a tree if and only if some derivation
 yields the list and means the tree; and printing a tree with the parentheses it needs parses back.
 */
module ExprParsing {
  import opened ExprSyntax
  import opened ExprGrammar

  /** `ys` stands in `ts` at position `i`. */
  ghost predicate At(ts: seq<Token>, i: nat, ys: seq<Token>) {
    i + |ys| <= |ts| && ts[i..i + |ys|] == ys
  }

  lemma AtSplit(ts: seq<Token>, i: nat, a: seq<Token>, b: seq<Token>)
    ensures At(ts, i, a + b) <==> At(ts, i, a) && At(ts, i + |a|, b)
  {
    if At(ts, i, a + b) {
      assert ts[i..i + |a|] == (a + b)[..|a|];
      assert ts[i + |a|..i + |a| + |b|] == (a + b)[|a|..];
    }
    if At(ts, i, a) && At(ts, i + |a|, b) {
      assert ts[i..i + |a| + |b|] == ts[i..i + |a|] + ts[i + |a|..i + |a| + |b|];
    }
  }

  lemma AtSplit3(ts: seq<Token>, i: nat, a: seq<Token>, b: seq<Token>, c: seq<Token>)
    ensures At(ts, i, a + b + c) <==> At(ts, i, a) && At(ts, i + |a|, b) && At(ts, i + |a| + |b|, c)
  {
    hide At;
    AtSplit(ts, i, a + b, c);
    AtSplit(ts, i, a, b);
  }

  lemma AtNil(ts: seq<Token>, i: nat)
    requires i <= |ts|
    ensures At(ts, i, [])
  {
  }

  lemma AtOne(ts: seq<Token>, i: nat, t: Token)
    ensures At(ts, i, [t]) <==> i < |ts| && ts[i] == t
  {
    if At(ts, i, [t]) {
      AtHead(ts, i, [t]);
    }
  }

  lemma AtHead(ts: seq<Token>, i: nat, ys: seq<Token>)
    requires At(ts, i, ys) && ys != []
    ensures ts[i] == ys[0]
  {
    assert ts[i..i + |ys|][0] == ys[0];
  }

  /** A token that can stand after a complete operand of "&&" or "||". */
  predicate Follow(t: Token) { t == TOp("&&") || t == TOp("||") || t == TRParen || t == TEOF }

  // ---- Every derivation parses to its meaning ----

  lemma {:induction false} ValComplete(ts: seq<Token>, i: nat, v: Val)
    requires Ended(ts) && ValOk(v) && At(ts, i, ValYield(v)) && i + |ValYield(v)| < |ts|
    ensures ParseValue(ts, i) == Ok(ValNode(v), i + |ValYield(v)|)
    decreases v, 1
  {
    hide At, ElemsYield, ElemNodes;
    AtHead(ts, i, ValYield(v));
    match v
    case NumV(_) =>
    case StrV(_) =>
    case WordV(_) =>
    case ListV(es, trailing) =>
      ListYield(v);
      AtSplit3(ts, i, [TLBrack], ElemsYield(es), Tail(trailing));
      AtOne(ts, i, TLBrack);
      ElemsComplete(ts, i + 1, [], es, trailing);
      NoPrefix(es);
  }

  lemma NoPrefix(es: seq<Val>)
    ensures [] + ElemNodes(es) == ElemNodes(es)
  {
  }

  lemma ListYield(v: Val)
    requires v.ListV?
    ensures ValYield(v) == [TLBrack] + ElemsYield(v.elems) + Tail(v.trailing)
  {
  }

  function Tail(trailing: bool): seq<Token> { if trailing then [TComma, TRBrack] else [TRBrack] }

  lemma {:induction false} ElemsComplete(ts: seq<Token>, i: nat, pre: seq<Node>, es: seq<Val>, trailing: bool)
    requires Ended(ts) && (trailing ==> es != []) && forall e :: e in es ==> ValOk(e)
    requires At(ts, i, ElemsYield(es)) && At(ts, i + |ElemsYield(es)|, Tail(trailing))
    requires i + |ElemsYield(es)| + |Tail(trailing)| < |ts|
    ensures ListRest(ts, pre, i) == Ok(ListNode(pre + ElemNodes(es)), i + |ElemsYield(es)| + |Tail(trailing)|)
    decreases es, 0
  {
    hide At, ParseValue, ValYield, ValNode;
    if es == [] {
      AtHead(ts, i, [TRBrack]);
      assert pre + ElemNodes(es) == pre;
    } else {
      var first, more := es[0], es[1..];
      var k := i + |ValYield(first)|;
      assert first in es;
      assert pre + ElemNodes(es) == pre + [ValNode(first)] + ElemNodes(more);
      if more == [] {
        assert ElemsYield(es) == ValYield(first);
        assert pre + [ValNode(first)] + ElemNodes(more) == pre + [ValNode(first)];
        TailComplete(ts, k, pre + [ValNode(first)], trailing);
      } else {
        AtSplit3(ts, i, ValYield(first), [TComma], ElemsYield(more));
        AtOne(ts, k, TComma);
        ElemsComplete(ts, k + 1, pre + [ValNode(first)], more, trailing);
      }
      ValComplete(ts, i, first);
      ValStart(first);
      AtHead(ts, i, ValYield(first));
    }
  }

  /** After the last element: an optional comma, then the bracket. */
  lemma TailComplete(ts: seq<Token>, k: nat, elems: seq<Node>, trailing: bool)
    requires Ended(ts) && At(ts, k, Tail(trailing)) && k + |Tail(trailing)| < |ts|
    ensures ts[k] == if trailing then TComma else TRBrack
    ensures trailing ==> ListRest(ts, elems, k + 1) == Ok(ListNode(elems), k + 2)
  {
    AtHead(ts, k, Tail(trailing));
    if trailing {
      AtSplit(ts, k, [TComma], [TRBrack]);
      AtOne(ts, k + 1, TRBrack);
    }
  }

  lemma ValStart(v: Val)
    ensures var t := ValYield(v)[0]; t != TRBrack && t != TLParen && t != TOp("!") && t != TEOF
    ensures ValYield(v)[0].TIdent? ==> |ValYield(v)| == 1
  {
  }

  lemma OpComplete(ts: seq<Token>, i: nat, op: string)
    requires Ended(ts) && (SymbolOp(op) || WordOp(op)) && At(ts, i, OpYield(op)) && i + |OpYield(op)| < |ts|
    ensures ComparisonOp(ts, i) == (op, |OpYield(op)|) && ts[i] != TLParen
  {
    AtHead(ts, i, OpYield(op));
    if op == "not in" {
      AtSplit(ts, i, [TIdent("not")], [TIdent("in")]);
      AtHead(ts, i + 1, [TIdent("in")]);
    }
  }

  lemma {:induction false} UnitComplete(rx: Patterns, ts: seq<Token>, i: nat, u: Unit)
    requires Ended(ts) && UnitOk(u, rx) && At(ts, i, UnitYield(u))
    requires i + |UnitYield(u)| < |ts| && Follow(ts[i + |UnitYield(u)|])
    ensures ParseUnary(rx, ts, i) == Ok(UnitNode(u), i + |UnitYield(u)|)
    decreases u
  {
    hide At, ParseOr, ParseFunc, ParseComparison, ParseValue, ValYield, OpYield, ExprYield, ValNode, ExprNode, ExprOk;
    AtHead(ts, i, UnitYield(u));
    match u
    case NotU(x) =>
      AtSplit(ts, i, [TOp("!")], UnitYield(x));
      UnitComplete(rx, ts, i + 1, x);
    case ParenU(e) =>
      AtSplit3(ts, i, [TLParen], ExprYield(e), [TRParen]);
      AtOne(ts, i + 1 + |ExprYield(e)|, TRParen);
      ExprComplete(rx, ts, i + 1, e);
    case FuncU(name, field) => FuncComplete(rx, ts, i, name, field);
    case BareU(v) => BareComplete(rx, ts, i, v);
    case CmpU(op, l, r) => CmpComplete(rx, ts, i, op, l, r);
  }

  lemma FuncComplete(rx: Patterns, ts: seq<Token>, i: nat, name: string, field: string)
    requires Ended(ts) && FuncName(name) && At(ts, i, [TIdent(name), TLParen, TIdent(field), TRParen]) && i + 4 < |ts|
    ensures ParseUnary(rx, ts, i) == Ok(Func(name, field), i + 4)
  {
    AtSplit(ts, i, [TIdent(name), TLParen], [TIdent(field), TRParen]);
    AtSplit(ts, i, [TIdent(name)], [TLParen]);
    AtSplit(ts, i + 2, [TIdent(field)], [TRParen]);
    AtOne(ts, i, TIdent(name));
    AtOne(ts, i + 1, TLParen);
    AtOne(ts, i + 2, TIdent(field));
    AtOne(ts, i + 3, TRParen);
    assert [TIdent(name), TLParen] + [TIdent(field), TRParen] == [TIdent(name), TLParen, TIdent(field), TRParen];
  }

  lemma BareComplete(rx: Patterns, ts: seq<Token>, i: nat, v: Val)
    requires Ended(ts) && ValOk(v) && At(ts, i, ValYield(v))
    requires i + |ValYield(v)| < |ts| && Follow(ts[i + |ValYield(v)|])
    ensures ParseUnary(rx, ts, i) == Ok(BoolOf(ValNode(v)), i + |ValYield(v)|)
  {
    hide At, ParseValue, ValYield, ValNode;
    AtHead(ts, i, ValYield(v));
    ValStart(v);
    ValComplete(ts, i, v);
  }

  lemma {:induction false} CmpComplete(rx: Patterns, ts: seq<Token>, i: nat, op: string, l: Val, r: Val)
    requires Ended(ts) && UnitOk(CmpU(op, l, r), rx)
    requires At(ts, i, ValYield(l) + OpYield(op) + ValYield(r)) && i + |ValYield(l) + OpYield(op) + ValYield(r)| < |ts|
    ensures ParseUnary(rx, ts, i) ==
            Ok(Cmp(op, ValNode(l), ValNode(r)), i + |ValYield(l) + OpYield(op) + ValYield(r)|)
  {
    hide At, ParseValue, ValYield, ValNode, OpYield, ComparisonOp;
    AtSplit3(ts, i, ValYield(l), OpYield(op), ValYield(r));
    var k := i + |ValYield(l)|;
    AtHead(ts, i, ValYield(l));
    ValStart(l);
    ValComplete(ts, i, l);
    OpComplete(ts, k, op);
    ValComplete(ts, k + |OpYield(op)|, r);
    StringLiteral(r);
  }

  lemma {:induction false} ConjComplete(rx: Patterns, ts: seq<Token>, i: nat, c: Conj)
    requires Ended(ts) && ConjOk(c, rx) && At(ts, i, ConjYield(c))
    requires i + |ConjYield(c)| < |ts| && Follow(ts[i + |ConjYield(c)|])
    ensures ParseAnd(rx, ts, i) == AndRest(rx, ts, ConjNode(c), i + |ConjYield(c)|)
    decreases c
  {
    hide At, ParseUnary, UnitYield, UnitNode, UnitOk;
    match c {
      case OneUnit(u) => UnitComplete(rx, ts, i, u);
      case AndMore(init, last) =>
        AtSplit3(ts, i, ConjYield(init), [TOp("&&")], UnitYield(last));
        var k := i + |ConjYield(init)|;
        AtOne(ts, k, TOp("&&"));
        ConjComplete(rx, ts, i, init);
        UnitComplete(rx, ts, k + 1, last);
    }
  }

  lemma {:induction false} ExprComplete(rx: Patterns, ts: seq<Token>, i: nat, e: Expr)
    requires Ended(ts) && ExprOk(e, rx) && At(ts, i, ExprYield(e))
    requires i + |ExprYield(e)| < |ts| && Follow(ts[i + |ExprYield(e)|]) && ts[i + |ExprYield(e)|] != TOp("&&")
    ensures ParseOr(rx, ts, i) == OrRest(rx, ts, ExprNode(e), i + |ExprYield(e)|)
    decreases e
  {
    hide At, ParseAnd, ConjYield, ConjNode, ConjOk;
    match e {
      case OneConj(c) => ConjComplete(rx, ts, i, c);
      case OrMore(init, last) =>
        AtSplit3(ts, i, ExprYield(init), [TOp("||")], ConjYield(last));
        var k := i + |ExprYield(init)|;
        AtOne(ts, k, TOp("||"));
        ExprComplete(rx, ts, i, init);
        ConjComplete(rx, ts, k + 1, last);
    }
  }

  // ---- Every parse has a derivation ----

  lemma {:induction false} ValSound(ts: seq<Token>, i: nat) returns (v: Val)
    requires Ended(ts) && i < |ts| && ParseValue(ts, i).Ok?
    ensures ValOk(v) && At(ts, i, ValYield(v))
    ensures ParseValue(ts, i) == Ok(ValNode(v), i + |ValYield(v)|)
    decreases |ts| - i, 1
  {
    hide At, ElemsYield, ElemNodes;
    AtOne(ts, i, ts[i]);
    match ts[i]
    case TString(s) => v := StrV(s);
    case TNumber(x) => v := NumV(x);
    case TIdent(w) => v := WordV(w);
    case TLBrack =>
      var es, trailing := ElemsSound(ts, [], i + 1);
      v := ListV(es, trailing);
      ListYield(v);
      AtOne(ts, i, TLBrack);
      AtSplit3(ts, i, [TLBrack], ElemsYield(es), Tail(trailing));
      NoPrefix(es);
  }

  lemma {:induction false} ElemsSound(ts: seq<Token>, pre: seq<Node>, i: nat) returns (es: seq<Val>, trailing: bool)
    requires Ended(ts) && i < |ts| && ListRest(ts, pre, i).Ok?
    ensures (trailing ==> es != []) && forall e :: e in es ==> ValOk(e)
    ensures At(ts, i, ElemsYield(es)) && At(ts, i + |ElemsYield(es)|, Tail(trailing))
    ensures ListRest(ts, pre, i) == Ok(ListNode(pre + ElemNodes(es)), i + |ElemsYield(es)| + |Tail(trailing)|)
    decreases |ts| - i, 2
  {
    hide At, ParseValue, ValYield, ValNode;
    if ts[i] == TRBrack {
      es, trailing := [], false;
      AtOne(ts, i, TRBrack);
      AtNil(ts, i);
      assert pre + ElemNodes(es) == pre;
    } else {
      var v := ValSound(ts, i);
      var k := i + |ValYield(v)|;
      if ts[k] == TRBrack {
        es, trailing := [v], false;
        AtOne(ts, k, TRBrack);
        OneElem(v, pre);
      } else {
        var more, t := ElemsSound(ts, pre + [ValNode(v)], k + 1);
        AtOne(ts, k, TComma);
        es, trailing := [v] + more, more == [] || t;
        if more == [] {
          AtSplit(ts, k, [TComma], [TRBrack]);
          assert [TComma] + [TRBrack] == [TComma, TRBrack];
          OneElem(v, pre);
          assert es == [v] && pre + [ValNode(v)] + ElemNodes(more) == pre + [ValNode(v)];
        } else {
          AtSplit3(ts, i, ValYield(v), [TComma], ElemsYield(more));
          MoreElems(v, more, pre);
        }
      }
    }
  }

  lemma OneElem(v: Val, pre: seq<Node>)
    ensures ElemsYield([v]) == ValYield(v) && pre + ElemNodes([v]) == pre + [ValNode(v)]
  {
    assert [v][1..] == [];
  }

  lemma MoreElems(v: Val, more: seq<Val>, pre: seq<Node>)
    requires more != []
    ensures ElemsYield([v] + more) == ValYield(v) + [TComma] + ElemsYield(more)
    ensures pre + ElemNodes([v] + more) == pre + [ValNode(v)] + ElemNodes(more)
  {
    assert ([v] + more)[1..] == more;
  }

  lemma OpSound(ts: seq<Token>, i: nat)
    requires Ended(ts) && i < |ts| && ComparisonOp(ts, i).1 > 0
    ensures var (op, n) := ComparisonOp(ts, i);
            (SymbolOp(op) || WordOp(op)) && n == |OpYield(op)| && At(ts, i, OpYield(op))
  {
  }

  lemma {:induction false} UnitSound(rx: Patterns, ts: seq<Token>, i: nat) returns (u: Unit)
    requires Ended(ts) && i < |ts| && ParseUnary(rx, ts, i).Ok?
    ensures UnitOk(u, rx) && At(ts, i, UnitYield(u))
    ensures ParseUnary(rx, ts, i) == Ok(UnitNode(u), i + |UnitYield(u)|)
    decreases |ts| - i, 3
  {
    hide At, ParseOr, ParseFunc, ParseComparison, ParseValue;
    if ts[i] == TOp("!") {
      var x := UnitSound(rx, ts, i + 1);
      u := NotU(x);
      AtOne(ts, i, TOp("!"));
      AtSplit(ts, i, [TOp("!")], UnitYield(x));
    } else if ts[i] == TLParen {
      var e := ExprSound(rx, ts, i + 1);
      u := ParenU(e);
      AtOne(ts, i, TLParen);
      AtOne(ts, i + 1 + |ExprYield(e)|, TRParen);
      AtSplit3(ts, i, [TLParen], ExprYield(e), [TRParen]);
    } else if ts[i].TIdent? && ts[i + 1] == TLParen {
      u := FuncSound(rx, ts, i);
    } else {
      u := ComparisonSound(rx, ts, i);
    }
  }

  lemma FuncSound(rx: Patterns, ts: seq<Token>, i: nat) returns (u: Unit)
    requires Ended(ts) && i + 1 < |ts| && ts[i].TIdent? && ts[i + 1] == TLParen && ParseFunc(ts, i).Ok?
    ensures UnitOk(u, rx) && At(ts, i, UnitYield(u))
    ensures ParseFunc(ts, i) == Ok(UnitNode(u), i + |UnitYield(u)|)
  {
    u := FuncU(ts[i].name, ts[i + 2].name);
    assert ts[i..i + 4] == [ts[i], ts[i + 1], ts[i + 2], ts[i + 3]];
  }

  lemma ComparisonSound(rx: Patterns, ts: seq<Token>, i: nat) returns (u: Unit)
    requires Ended(ts) && i < |ts| && ParseValue(ts, i).Ok?
    requires ParseComparison(rx, ts, ParseValue(ts, i).node, ParseValue(ts, i).next).Ok?
    ensures UnitOk(u, rx) && At(ts, i, UnitYield(u))
    ensures ParseComparison(rx, ts, ParseValue(ts, i).node, ParseValue(ts, i).next) == Ok(UnitNode(u), i + |UnitYield(u)|)
  {
    hide At, ParseValue, ValYield, ValNode, OpYield, ComparisonOp;
    var l := ValSound(ts, i);
    var k := i + |ValYield(l)|;
    var (op, n) := ComparisonOp(ts, k);
    if n == 0 {
      u := BareU(l);
    } else {
      OpSound(ts, k);
      var r := ValSound(ts, k + n);
      u := CmpU(op, l, r);
      AtSplit3(ts, i, ValYield(l), OpYield(op), ValYield(r));
      StringLiteral(r);
    }
  }

  lemma StringLiteral(v: Val)
    ensures ValNode(v).Lit? && ValNode(v).v.Str? <==> v.StrV?
    ensures v.StrV? ==> ValNode(v).v.str == v.text
  {
  }

  lemma {:induction false} ConjSound(rx: Patterns, ts: seq<Token>, i: nat) returns (c: Conj)
    requires Ended(ts) && i < |ts| && ParseAnd(rx, ts, i).Ok?
    ensures ConjOk(c, rx) && At(ts, i, ConjYield(c))
    ensures ParseAnd(rx, ts, i) == Ok(ConjNode(c), i + |ConjYield(c)|)
    decreases |ts| - i, 4
  {
    var u := UnitSound(rx, ts, i);
    c := AndRestSound(rx, ts, i, OneUnit(u));
  }

  lemma {:induction false} AndRestSound(rx: Patterns, ts: seq<Token>, i: nat, so: Conj) returns (c: Conj)
    requires Ended(ts) && ConjOk(so, rx) && At(ts, i, ConjYield(so)) && i + |ConjYield(so)| < |ts|
    requires AndRest(rx, ts, ConjNode(so), i + |ConjYield(so)|).Ok?
    ensures ConjOk(c, rx) && At(ts, i, ConjYield(c))
    ensures AndRest(rx, ts, ConjNode(so), i + |ConjYield(so)|) == Ok(ConjNode(c), i + |ConjYield(c)|)
    decreases |ts| - (i + |ConjYield(so)|), 0
  {
    hide At, ParseUnary, UnitYield, UnitNode, UnitOk;
    var k := i + |ConjYield(so)|;
    if ts[k] != TOp("&&") {
      c := so;
    } else {
      var u := UnitSound(rx, ts, k + 1);
      var next := AndMore(so, u);
      AtOne(ts, k, TOp("&&"));
      AtSplit3(ts, i, ConjYield(so), [TOp("&&")], UnitYield(u));
      c := AndRestSound(rx, ts, i, next);
    }
  }

  lemma {:induction false} ExprSound(rx: Patterns, ts: seq<Token>, i: nat) returns (e: Expr)
    requires Ended(ts) && i < |ts| && ParseOr(rx, ts, i).Ok?
    ensures ExprOk(e, rx) && At(ts, i, ExprYield(e))
    ensures ParseOr(rx, ts, i) == Ok(ExprNode(e), i + |ExprYield(e)|)
    decreases |ts| - i, 5
  {
    var c := ConjSound(rx, ts, i);
    e := OrRestSound(rx, ts, i, OneConj(c));
  }

  lemma {:induction false} OrRestSound(rx: Patterns, ts: seq<Token>, i: nat, so: Expr) returns (e: Expr)
    requires Ended(ts) && ExprOk(so, rx) && At(ts, i, ExprYield(so)) && i + |ExprYield(so)| < |ts|
    requires OrRest(rx, ts, ExprNode(so), i + |ExprYield(so)|).Ok?
    ensures ExprOk(e, rx) && At(ts, i, ExprYield(e))
    ensures OrRest(rx, ts, ExprNode(so), i + |ExprYield(so)|) == Ok(ExprNode(e), i + |ExprYield(e)|)
    decreases |ts| - (i + |ExprYield(so)|), 0
  {
    hide At, ParseAnd, ConjYield, ConjNode, ConjOk;
    var k := i + |ExprYield(so)|;
    if ts[k] != TOp("||") {
      e := so;
    } else {
      var c := ConjSound(rx, ts, k + 1);
      var next := OrMore(so, c);
      AtOne(ts, k, TOp("||"));
      AtSplit3(ts, i, ExprYield(so), [TOp("||")], ConjYield(c));
      e := OrRestSound(rx, ts, i, next);
    }
  }

  // ---- The parser and the grammar ----

  ghost predicate Derives(rx: Patterns, e: Expr, ts: seq<Token>, n: Node) {
    ExprOk(e, rx) && ExprYield(e) + [TEOF] == ts && ExprNode(e) == n
  }

  /** A token list parses to `n` exactly when a derivation of it means `n`. */
  lemma ParserIsGrammar(rx: Patterns, ts: seq<Token>, n: Node)
    requires Ended(ts)
    ensures Parse(rx, ts).Ok? && Parse(rx, ts).node == n <==> exists e :: Derives(rx, e, ts, n)
  {
    if Parse(rx, ts).Ok? && Parse(rx, ts).node == n {
      var e := ExprSound(rx, ts, 0);
      var k := |ExprYield(e)|;
      assert k == |ts| - 1;
      assert ts == ts[0..k] + [TEOF];
      assert Derives(rx, e, ts, n);
    }
    if e :| Derives(rx, e, ts, n) {
      assert ts[0..|ExprYield(e)|] == ExprYield(e);
      ExprComplete(rx, ts, 0, e);
    }
  }

  // ---- Printing ----

  /** The trees the parser can build: operands under comparisons, conditions above them. */
  predicate OperandTree(n: Node) {
    match n
    case Lit(v) => v.Num? || v.Str? || v.Bool?
    case Field(name) => name != "true" && name != "false"
    case ListNode(es) => forall e :: e in es ==> OperandTree(e)
    case _ => false
  }

  predicate ConditionTree(n: Node, rx: Patterns) {
    match n
    case Not(x) => ConditionTree(x, rx)
    case And(l, r) => ConditionTree(l, rx) && ConditionTree(r, rx)
    case Or(l, r) => ConditionTree(l, rx) && ConditionTree(r, rx)
    case BoolOf(x) => OperandTree(x)
    case Cmp(op, l, r) =>
      && (SymbolOp(op) || WordOp(op)) && OperandTree(l) && OperandTree(r)
      && (RegexOp(op) ==> r.Lit? && r.v.Str? && rx(r.v.str))
    case Func(name, _) => FuncName(name)
    case _ => false
  }

  function OperandOf(n: Node): (v: Val)
    requires OperandTree(n)
    ensures ValOk(v) && ValNode(v) == n
  {
    match n
    case Lit(v) => if v.Num? then NumV(v.num) else if v.Str? then StrV(v.str) else WordV(if v.b then "true" else "false")
    case Field(name) => WordV(name)
    case ListNode(es) => ListV(OperandsOf(es), false)
  }

  function OperandsOf(ns: seq<Node>): (es: seq<Val>)
    requires forall e :: e in ns ==> OperandTree(e)
    ensures (forall e :: e in es ==> ValOk(e)) && ElemNodes(es) == ns
  {
    if ns == [] then [] else [OperandOf(ns[0])] + OperandsOf(ns[1..])
  }

  /** Parentheses appear only around "||" under "&&" or "!", "&&" under "!", and on right operands. */
  function UnitOf(n: Node, rx: Patterns): (u: Unit)
    requires ConditionTree(n, rx)
    ensures UnitOk(u, rx) && UnitNode(u) == n
    decreases n, 1
  {
    match n
    case Not(x) => NotU(UnitOf(x, rx))
    case BoolOf(x) => BareU(OperandOf(x))
    case Cmp(op, l, r) => StringLiteral(OperandOf(r)); CmpU(op, OperandOf(l), OperandOf(r))
    case Func(name, field) => FuncU(name, field)
    case And(l, r) =>
      var c := AndMore(ConjOf(l, rx), UnitOf(r, rx));
      assert ConjOk(c, rx) && ConjNode(c) == n;
      assert ExprOk(OneConj(c), rx) && ExprNode(OneConj(c)) == n;
      ParenU(OneConj(c))
    case Or(l, r) =>
      var e := OrMore(ExprOf(l, rx), ConjOf(r, rx));
      assert ExprOk(e, rx) && ExprNode(e) == n;
      ParenU(e)
  }

  function ConjOf(n: Node, rx: Patterns): (c: Conj)
    requires ConditionTree(n, rx)
    ensures ConjOk(c, rx) && ConjNode(c) == n
    decreases n, 2
  {
    if n.And? then AndMore(ConjOf(n.l, rx), UnitOf(n.r, rx)) else OneUnit(UnitOf(n, rx))
  }

  function ExprOf(n: Node, rx: Patterns): (e: Expr)
    requires ConditionTree(n, rx)
    ensures ExprOk(e, rx) && ExprNode(e) == n
    decreases n, 3
  {
    if n.Or? then OrMore(ExprOf(n.l, rx), ConjOf(n.r, rx)) else OneConj(ConjOf(n, rx))
  }

  function Print(n: Node, rx: Patterns): seq<Token>
    requires ConditionTree(n, rx)
  {
    ExprYield(ExprOf(n, rx)) + [TEOF]
  }

  lemma PrintEnded(n: Node, rx: Patterns)
    requires ConditionTree(n, rx)
    ensures Ended(Print(n, rx))
  {
    var ys := ExprYield(ExprOf(n, rx));
    forall i | 0 <= i < |ys| ensures Print(n, rx)[i] != TEOF {
      assert Print(n, rx)[i] == ys[i] && ys[i] in ys;
    }
  }

  /** Print any tree, parse it, and get the same tree. */
  lemma PrintParse(n: Node, rx: Patterns)
    requires ConditionTree(n, rx)
    ensures Ended(Print(n, rx))
    ensures Parse(rx, Print(n, rx)).Ok? && Parse(rx, Print(n, rx)).node == n
  {
    PrintEnded(n, rx);
    assert Derives(rx, ExprOf(n, rx), Print(n, rx), n);
    ParserIsGrammar(rx, Print(n, rx), n);
  }

  lemma {:induction false} ValTree(v: Val)
    ensures OperandTree(ValNode(v))
  {
    match v
    case ListV(es, _) => ElemTrees(es);
    case _ =>
  }

  lemma {:induction false} ElemTrees(es: seq<Val>)
    ensures forall n :: n in ElemNodes(es) ==> OperandTree(n)
  {
    if es != [] {
      ValTree(es[0]);
      ElemTrees(es[1..]);
    }
  }

  lemma {:induction false} UnitTree(u: Unit, rx: Patterns)
    requires UnitOk(u, rx)
    ensures ConditionTree(UnitNode(u), rx)
  {
    match u
    case NotU(x) => UnitTree(x, rx);
    case ParenU(e) => ExprTree(e, rx);
    case FuncU(_, _) =>
    case BareU(v) => ValTree(v);
    case CmpU(_, l, r) => ValTree(l); ValTree(r); StringLiteral(r);
  }

  lemma {:induction false} ConjTree(c: Conj, rx: Patterns)
    requires ConjOk(c, rx)
    ensures ConditionTree(ConjNode(c), rx)
  {
    match c
    case OneUnit(u) => UnitTree(u, rx);
    case AndMore(init, last) => ConjTree(init, rx); UnitTree(last, rx);
  }

  lemma {:induction false} ExprTree(e: Expr, rx: Patterns)
    requires ExprOk(e, rx)
    ensures ConditionTree(ExprNode(e), rx)
  {
    match e
    case OneConj(c) => ConjTree(c, rx);
    case OrMore(init, last) => ExprTree(init, rx); ConjTree(last, rx);
  }

  /** Whatever parses, prints and parses again to the same tree. */
  lemma ParsePrintParse(rx: Patterns, ts: seq<Token>)
    requires Ended(ts) && Parse(rx, ts).Ok?
    ensures ConditionTree(Parse(rx, ts).node, rx)
    ensures Ended(Print(Parse(rx, ts).node, rx))
    ensures Parse(rx, Print(Parse(rx, ts).node, rx)).Ok?
    ensures Parse(rx, Print(Parse(rx, ts).node, rx)).node == Parse(rx, ts).node
  {
    var e := ExprSound(rx, ts, 0);
    ExprTree(e, rx);
    PrintParse(Parse(rx, ts).node, rx);
  }
}
