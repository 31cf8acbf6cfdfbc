/**
 Compiled selectors: compiling a text, evaluating the tree, and the fields it reads. Compiling the
 text of a tree gives the tree back, and evaluation depends on the collected fields only.
 */
module ExprProgram {
  import opened ByteOrder
  import opened ExprSyntax
  import opened ExprLexer
  import opened ExprGrammar
  import opened ExprParsing
  import opened ExprText
  import ExprScanner
  import ExprParser

  datatype CompileError = LexFailed(lexical: LexError) | ParseFailed(syntax: SyntaxError)

  datatype Compiled = Program(root: Node, fields: set<string>) | NoProgram(why: CompileError)

  lemma LexEnded(src: string)
    requires Lex(src).Tokens?
    ensures Ended(Lex(src).toks)
  {
    LexPlain(src);
    var ts := Lex(src).toks;
    assert !Plain(TEOF);
    forall i | 0 <= i < |ts| - 1 ensures ts[i] != TEOF {
      var t := ts[..|ts| - 1][i];
      assert t == ts[i] && t in ts[..|ts| - 1] && Plain(t);
    }
  }

  function Compile(rx: Patterns, src: string): Compiled {
    match Lex(src)
    case NotTokens(why) => NoProgram(LexFailed(why))
    case Tokens(ts) =>
      LexEnded(src);
      match Parse(rx, ts)
      case Bad(why) => NoProgram(ParseFailed(why))
      case Ok(n, _) => Program(n, FieldsOf(n))
  }

  // ---- Fields ----

  function FieldsOf(n: Node): set<string> {
    match n
    case Lit(_) => {}
    case ListNode(es) => FieldsOfAll(es)
    case Field(name) => {name}
    case Not(x) => FieldsOf(x)
    case And(l, r) => FieldsOf(l) + FieldsOf(r)
    case Or(l, r) => FieldsOf(l) + FieldsOf(r)
    case BoolOf(x) => FieldsOf(x)
    case Cmp(_, l, r) => FieldsOf(l) + FieldsOf(r)
    case Func(_, field) => {field}
  }

  function FieldsOfAll(ns: seq<Node>): set<string> {
    if ns == [] then {} else FieldsOf(ns[0]) + FieldsOfAll(ns[1..])
  }

  lemma FieldsOfSuffix(ns: seq<Node>, k: nat)
    requires k < |ns|
    ensures FieldsOfAll(ns[k..]) == FieldsOf(ns[k]) + FieldsOfAll(ns[k + 1..])
  {
    assert ns[k..][1..] == ns[k + 1..];
  }

  /** The set that a walk over the tree fills. */
  class FieldSet {
    var names: set<string>

    constructor ()
      ensures names == {}
    {
      names := {};
    }

    method Collect(n: Node)
      modifies this
      ensures names == old(names) + FieldsOf(n)
      decreases n
    {
      match n
      case Lit(_) =>
      case Field(name) =>
        names := names + {name};
      case Func(_, field) =>
        names := names + {field};
      case BoolOf(x) =>
        Collect(x);
      case Not(x) =>
        Collect(x);
      case And(l, r) =>
        Collect(l);
        Collect(r);
      case Or(l, r) =>
        Collect(l);
        Collect(r);
      case Cmp(_, l, r) =>
        Collect(l);
        Collect(r);
      case ListNode(es) =>
        for k := 0 to |es|
          invariant names + FieldsOfAll(es[k..]) == old(names) + FieldsOf(n)
        {
          FieldsOfSuffix(es, k);
          Collect(es[k]);
        }
    }
  }

  method CompileText(rx: Patterns, input: string) returns (r: Compiled)
    ensures r == Compile(rx, input)
  {
    var lexer := new ExprScanner.Lexer(input);
    var toks := lexer.LexAll();
    if toks.NotTokens? {
      return NoProgram(LexFailed(toks.why));
    }
    LexEnded(input);
    var parser := new ExprParser.Parser(rx, toks.toks);
    var root := parser.ParseAll();
    if root.Failed? {
      return NoProgram(ParseFailed(root.why));
    }
    var fields := new FieldSet();
    fields.Collect(root.node);
    r := Program(root.node, fields.names);
  }

  // ---- Evaluation ----

  /** What a field name resolves to; unknown and unavailable fields are Missing. */
  type Env = string -> Value

  /** Whether a text matches a pattern, as the regular-expression library decides it. */
  type Matcher = (string, string) -> bool

  predicate Truthy(v: Value) { v.Bool? && v.b }

  predicate EqualVal(a: Value, b: Value) {
    match (a, b)
    case (Num(x), Num(y)) => x == y
    case (Str(x), Str(y)) => x == y
    case (Bool(x), Bool(y)) => x == y
    case _ => false
  }

  predicate CompareOrder(op: string, a: Value, b: Value) {
    if a.Num? && b.Num? then
      if op == "<" then a.num < b.num else if op == "<=" then a.num <= b.num
      else if op == ">" then a.num > b.num else op == ">=" && a.num >= b.num
    else if a.Str? && b.Str? then
      if op == "<" then StringLess(a.str, b.str) else if op == "<=" then !StringLess(b.str, a.str)
      else if op == ">" then StringLess(b.str, a.str) else op == ">=" && !StringLess(a.str, b.str)
    else false
  }

  predicate EvalIn(needle: Value, list: Value) {
    list.List? && exists k :: 0 <= k < |list.items| && EqualVal(needle, list.items[k])
  }

  predicate Substring(item: string, text: string) {
    item <= text || (text != "" && Substring(item, text[1..]))
  }

  predicate EvalContains(container: Value, item: Value) {
    match container
    case Str(text) => item.Str? && Substring(item.str, text)
    case List(_) => EvalIn(item, container)
    case _ => false
  }

  /** The pattern is the one compiled into the node, there only for a literal string. */
  predicate MatchRegex(m: Matcher, right: Node, lv: Value) {
    lv.Str? && right.Lit? && right.v.Str? && m(right.v.str, lv.str)
  }

  function EvalCmp(m: Matcher, op: string, right: Node, lv: Value, rv: Value): Value {
    if op == "in" || op == "not in" then Bool(EvalIn(lv, rv) == (op == "in"))
    else if lv.Missing? || rv.Missing? then Bool(false)
    else if op == "==" then Bool(EqualVal(lv, rv))
    else if op == "!=" then Bool(!EqualVal(lv, rv))
    else if op == "<" || op == "<=" || op == ">" || op == ">=" then Bool(CompareOrder(op, lv, rv))
    else if op == "~=" || op == "!~" then Bool(MatchRegex(m, right, lv) == (op == "~="))
    else if op == "contains" then Bool(EvalContains(lv, rv))
    else Bool(false)
  }

  function Eval(m: Matcher, env: Env, n: Node): Value {
    match n
    case Lit(v) => v
    case ListNode(es) => List(EvalAll(m, env, es))
    case Field(name) => env(name)
    case Not(x) => Bool(!Truthy(Eval(m, env, x)))
    case And(l, r) => if !Truthy(Eval(m, env, l)) then Bool(false) else Bool(Truthy(Eval(m, env, r)))
    case Or(l, r) => if Truthy(Eval(m, env, l)) then Bool(true) else Bool(Truthy(Eval(m, env, r)))
    case BoolOf(x) => Bool(Truthy(Eval(m, env, x)))
    case Cmp(op, l, r) => EvalCmp(m, op, r, Eval(m, env, l), Eval(m, env, r))
    case Func(name, field) =>
      var missing := env(field).Missing?;
      if name == "exists" then Bool(!missing) else if name == "missing" then Bool(missing) else Bool(false)
  }

  function EvalAll(m: Matcher, env: Env, ns: seq<Node>): seq<Value> {
    if ns == [] then [] else [Eval(m, env, ns[0])] + EvalAll(m, env, ns[1..])
  }

  predicate Selects(m: Matcher, p: Compiled, env: Env)
    requires p.Program?
  {
    Truthy(Eval(m, env, p.root))
  }

  predicate Validate(p: Compiled, allowed: set<string>)
    requires p.Program?
  {
    p.fields <= allowed
  }

  lemma {:induction false} EvalFrame(m: Matcher, a: Env, b: Env, n: Node)
    requires forall f :: f in FieldsOf(n) ==> a(f) == b(f)
    ensures Eval(m, a, n) == Eval(m, b, n)
  {
    match n
    case Lit(_) =>
    case ListNode(es) => EvalAllFrame(m, a, b, es);
    case Field(_) =>
    case Not(x) => EvalFrame(m, a, b, x);
    case And(l, r) => EvalFrame(m, a, b, l); EvalFrame(m, a, b, r);
    case Or(l, r) => EvalFrame(m, a, b, l); EvalFrame(m, a, b, r);
    case BoolOf(x) => EvalFrame(m, a, b, x);
    case Cmp(_, l, r) => EvalFrame(m, a, b, l); EvalFrame(m, a, b, r);
    case Func(_, _) =>
  }

  lemma {:induction false} EvalAllFrame(m: Matcher, a: Env, b: Env, ns: seq<Node>)
    requires forall f :: f in FieldsOfAll(ns) ==> a(f) == b(f)
    ensures EvalAll(m, a, ns) == EvalAll(m, b, ns)
  {
    if ns != [] {
      EvalFrame(m, a, b, ns[0]);
      EvalAllFrame(m, a, b, ns[1..]);
    }
  }

  /** A validated program selects the same whatever the fields outside the allowed set hold. */
  lemma ValidatedIsFramed(m: Matcher, rx: Patterns, src: string, allowed: set<string>, a: Env, b: Env)
    requires Compile(rx, src).Program? && Validate(Compile(rx, src), allowed)
    requires forall f :: f in allowed ==> a(f) == b(f)
    ensures Selects(m, Compile(rx, src), a) == Selects(m, Compile(rx, src), b)
  {
    EvalFrame(m, a, b, Compile(rx, src).root);
  }

  /** A missing operand makes "!=" false too: it negates "==" exactly when neither operand is missing. */
  lemma NotEqualNegatesEqual(m: Matcher, env: Env, l: Node, r: Node)
    ensures Eval(m, env, Cmp("!=", l, r)) == Eval(m, env, Not(Cmp("==", l, r)))
       <==> !Eval(m, env, l).Missing? && !Eval(m, env, r).Missing?
  {
  }

  /** "not in" always negates "in"; "!~" negates "~=" exactly when neither operand is missing. */
  lemma NegatedForms(m: Matcher, env: Env, l: Node, r: Node)
    ensures Eval(m, env, Cmp("not in", l, r)) == Eval(m, env, Not(Cmp("in", l, r)))
    ensures Eval(m, env, Cmp("!~", l, r)) == Eval(m, env, Not(Cmp("~=", l, r)))
       <==> !Eval(m, env, l).Missing? && !Eval(m, env, r).Missing?
  {
  }

  // ---- Texts ----

  /** Identifiers and numbers that some text denotes. */
  ghost predicate Writable(n: Node) {
    match n
    case Lit(v) => v.Num? ==> IsDecimal(v.num)
    case ListNode(es) => forall e :: e in es ==> Writable(e)
    case Field(name) => IsIdent(name)
    case Not(x) => Writable(x)
    case And(l, r) => Writable(l) && Writable(r)
    case Or(l, r) => Writable(l) && Writable(r)
    case BoolOf(x) => Writable(x)
    case Cmp(_, l, r) => Writable(l) && Writable(r)
    case Func(_, field) => IsIdent(field)
  }

  ghost predicate AllPlain(ts: seq<Token>) { forall t :: t in ts ==> Plain(t) }

  lemma AllPlainAppend(a: seq<Token>, b: seq<Token>)
    ensures AllPlain(a + b) <==> AllPlain(a) && AllPlain(b)
  {
    assert forall t :: t in a + b <==> t in a || t in b;
  }

  lemma AllPlainOne(t: Token)
    ensures AllPlain([t]) <==> Plain(t)
  {
    assert t in [t];
  }

  lemma {:induction false} ValWritable(v: Val)
    ensures AllPlain(ValYield(v)) <==> Writable(ValNode(v))
  {
    hide AllPlain, IsDecimal;
    match v
    case NumV(x) => AllPlainOne(TNumber(x));
    case StrV(s) => AllPlainOne(TString(s));
    case WordV(w) =>
      AllPlainOne(TIdent(w));
      assert IsIdent("true") && IsIdent("false");
    case ListV(es, trailing) =>
      hide IsIdent, Plain;
      ListYield(v);
      ElemsWritable(es);
      AllPlainAppend([TLBrack] + ElemsYield(es), Tail(trailing));
      AllPlainAppend([TLBrack], ElemsYield(es));
      ListTokensPlain(trailing);
  }

  lemma ListTokensPlain(trailing: bool)
    ensures AllPlain([TLBrack]) && AllPlain([TComma]) && AllPlain(Tail(trailing))
  {
  }

  lemma {:induction false} ElemsWritable(es: seq<Val>)
    ensures AllPlain(ElemsYield(es)) <==> forall n :: n in ElemNodes(es) ==> Writable(n)
  {
    if |es| >= 1 {
      ValWritable(es[0]);
      ElemsWritable(es[1..]);
      assert forall n :: n in ElemNodes(es) <==> n == ValNode(es[0]) || n in ElemNodes(es[1..]);
      if |es| > 1 {
        AllPlainAppend(ValYield(es[0]) + [TComma], ElemsYield(es[1..]));
        AllPlainAppend(ValYield(es[0]), [TComma]);
        ListTokensPlain(false);
      }
    }
  }

  lemma OpPlain(op: string)
    requires SymbolOp(op) || WordOp(op)
    ensures AllPlain(OpYield(op))
  {
    assert IsIdent("in") && IsIdent("not") && IsIdent("contains");
  }

  lemma {:induction false} UnitWritable(u: Unit, rx: Patterns)
    requires UnitOk(u, rx)
    ensures AllPlain(UnitYield(u)) <==> Writable(UnitNode(u))
  {
    match u
    case NotU(x) =>
      UnitWritable(x, rx);
      AllPlainAppend([TOp("!")], UnitYield(x));
      AllPlainOne(TOp("!"));
    case ParenU(e) =>
      ExprWritable(e, rx);
      AllPlainAppend([TLParen] + ExprYield(e), [TRParen]);
      AllPlainAppend([TLParen], ExprYield(e));
      AllPlainOne(TLParen);
      AllPlainOne(TRParen);
    case FuncU(name, field) =>
      assert IsIdent("exists") && IsIdent("missing");
      assert TIdent(field) in UnitYield(u);
    case BareU(v) => ValWritable(v);
    case CmpU(op, l, r) =>
      ValWritable(l);
      ValWritable(r);
      OpPlain(op);
      AllPlainAppend(ValYield(l) + OpYield(op), ValYield(r));
      AllPlainAppend(ValYield(l), OpYield(op));
  }

  lemma {:induction false} ConjWritable(c: Conj, rx: Patterns)
    requires ConjOk(c, rx)
    ensures AllPlain(ConjYield(c)) <==> Writable(ConjNode(c))
  {
    match c
    case OneUnit(u) => UnitWritable(u, rx);
    case AndMore(init, last) =>
      ConjWritable(init, rx);
      UnitWritable(last, rx);
      AllPlainAppend(ConjYield(init) + [TOp("&&")], UnitYield(last));
      AllPlainAppend(ConjYield(init), [TOp("&&")]);
      AllPlainOne(TOp("&&"));
  }

  lemma {:induction false} ExprWritable(e: Expr, rx: Patterns)
    requires ExprOk(e, rx)
    ensures AllPlain(ExprYield(e)) <==> Writable(ExprNode(e))
  {
    match e
    case OneConj(c) => ConjWritable(c, rx);
    case OrMore(init, last) =>
      ExprWritable(init, rx);
      ConjWritable(last, rx);
      AllPlainAppend(ExprYield(init) + [TOp("||")], ConjYield(last));
      AllPlainAppend(ExprYield(init), [TOp("||")]);
      AllPlainOne(TOp("||"));
  }

  /** A text for a tree: its printed tokens, a space after each. */
  ghost function Source(n: Node, rx: Patterns): string
    requires ConditionTree(n, rx) && Writable(n)
  {
    ExprWritable(ExprOf(n, rx), rx);
    Text(ExprYield(ExprOf(n, rx)))
  }

  /** Write any tree out and compile it: the same tree comes back. */
  lemma SourceCompiles(n: Node, rx: Patterns)
    requires ConditionTree(n, rx) && Writable(n)
    ensures Compile(rx, Source(n, rx)) == Program(n, FieldsOf(n))
  {
    hide Text, Lex, Parse, ExprYield;
    ExprWritable(ExprOf(n, rx), rx);
    TextLexes(ExprYield(ExprOf(n, rx)));
    PrintParse(n, rx);
  }

  /** A program's tree is one that can be written, and writing and compiling it changes nothing. */
  lemma CompiledTreeRoundTrips(rx: Patterns, src: string)
    requires Compile(rx, src).Program?
    ensures var n := Compile(rx, src).root;
            ConditionTree(n, rx) && Writable(n) && Compile(rx, Source(n, rx)) == Compile(rx, src)
  {
    LexEnded(src);
    LexPlain(src);
    hide Lex, Parse, Source;
    var ts := Lex(src).toks;
    var n := Parse(rx, ts).node;
    ParserIsGrammar(rx, ts, n);
    var e :| Derives(rx, e, ts, n);
    assert ExprYield(e) == ts[..|ts| - 1];
    ExprWritable(e, rx);
    ExprTree(e, rx);
    SourceCompiles(n, rx);
  }
}
