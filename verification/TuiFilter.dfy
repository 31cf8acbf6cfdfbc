/**
 From the typed filter to a program. A filter is applied only when it compiles and reads displayed
 columns; a bare word becomes a case-insensitive match on the target, whose pattern is the word itself:
 the lexer takes back the escapes that were meant to keep metacharacters literal.
 */
module TuiFilter {
  import opened Options
  import opened ExprSyntax
  import opened ExprLexer
  import opened ExprGrammar
  import opened ExprText
  import opened ExprProgram

  predicate IsBlank(c: char) { c == ' ' || c == '\t' || c == '\n' || c == '\r' || c == '\U{000b}' || c == '\U{000c}' }

  function TrimSpace(s: string): string {
    if s != "" && IsBlank(s[0]) then TrimSpace(s[1..])
    else if s != "" && IsBlank(s[|s| - 1]) then TrimSpace(s[..|s| - 1])
    else s
  }

  const OPERATOR_CHARS := " \t=<>~!()[]\"'"

  predicate HasPair(s: string, c: char) { exists k :: 0 <= k < |s| - 1 && s[k] == c && s[k + 1] == c }

  predicate LooksLikeExpression(s: string) {
    (exists k :: 0 <= k < |s| && s[k] in OPERATOR_CHARS) || HasPair(s, '&') || HasPair(s, '|')
  }

  predicate IsMeta(c: char) {
    c == '\\' || c == '.' || c == '+' || c == '*' || c == '?' || c == '(' || c == ')' || c == '|' ||
    c == '[' || c == ']' || c == '{' || c == '}' || c == '^' || c == '$'
  }

  function QuoteMeta(s: string): string {
    if s == "" then "" else (if IsMeta(s[0]) then ['\\', s[0]] else [s[0]]) + QuoteMeta(s[1..])
  }

  const PREFIX := "target ~= \"(?i)"

  function BareSearch(s: string): string { if LooksLikeExpression(s) then s else PREFIX + QuoteMeta(s) + "\"" }

  datatype Applied = Cleared | Rejected | Accepted(having: string)

  function Apply(typed: string, rx: Patterns, filterable: set<string>): Applied {
    var s := TrimSpace(typed);
    if s == "" then Cleared
    else
      var p := Compile(rx, BareSearch(s));
      if p.Program? && Validate(p, filterable) then Accepted(BareSearch(s)) else Rejected
  }

  /** An applied filter decides by displayed columns alone. */
  lemma AppliedFilterReadsColumns(typed: string, m: Matcher, rx: Patterns, filterable: set<string>, a: Env, b: Env)
    requires Apply(typed, rx, filterable).Accepted?
    requires forall f :: f in filterable ==> a(f) == b(f)
    ensures var p := Compile(rx, Apply(typed, rx, filterable).having);
            p.Program? && Selects(m, p, a) == Selects(m, p, b)
  {
    ValidatedIsFramed(m, rx, Apply(typed, rx, filterable).having, filterable, a, b);
  }

  // ---- Bare words ----

  lemma MetaStep(src: string, text: string, pos: nat, c: char)
    requires c != '"' && Stands(src, pos, if IsMeta(c) then ['\\', c] else [c])
    ensures StringRest(src, '"', text, pos) == StringRest(src, '"', text + [c], pos + if IsMeta(c) then 2 else 1)
  {
    var head := if IsMeta(c) then ['\\', c] else [c];
    StandsAt(src, pos, head);
    assert src[pos + 0] == head[0];
    if IsMeta(c) {
      assert src[pos + 1] == c;
    }
  }

  /** Reading back a quoted pattern gives the text before quoting. */
  lemma {:induction false} MetaRead(src: string, text: string, pos: nat, s: string)
    requires '"' !in s && Stands(src, pos, QuoteMeta(s) + "\"")
    ensures StringRest(src, '"', text, pos) == Got(TString(text + s), pos + |QuoteMeta(s)| + 1)
    decreases |s|
  {
    if s == "" {
      StandsAt(src, pos, "\"");
      assert src[pos + 0] == '"';
      assert text + s == text;
    } else {
      hide Stands, StringRest, IsMeta;
      var c, more := s[0], s[1..];
      var head, tail := if IsMeta(c) then ['\\', c] else [c], QuoteMeta(more) + "\"";
      assert QuoteMeta(s) + "\"" == head + tail;
      StandsSplit(src, pos, head, tail);
      MetaStep(src, text, pos, c);
      MetaRead(src, text + [c], pos + |head|, more);
      assert text + [c] + more == text + s;
    }
  }

  lemma PlainStep(src: string, text: string, pos: nat, c: char)
    requires c != '"' && c != '\\' && pos < |src| && src[pos] == c
    ensures StringRest(src, '"', text, pos) == StringRest(src, '"', text + [c], pos + 1)
  {
  }

  lemma BareWordTokens(s: string)
    requires '"' !in s
    ensures Lex(PREFIX + QuoteMeta(s) + "\"") == Tokens([TIdent("target"), TOp("~="), TString("(?i)" + s), TEOF])
  {
    var src := PREFIX + QuoteMeta(s) + "\"";
    assert |PREFIX| == 15;
    assert src[..15] == PREFIX;
    assert Stands(src, 0, "target ") && Stands(src, 7, "~= ") by {
      assert src[..7] == PREFIX[..7] == "target ";
      assert src[7..10] == PREFIX[7..10] == "~= ";
    }
    assert Stands(src, 15, QuoteMeta(s) + "\"") by {
      assert src[15..] == QuoteMeta(s) + "\"";
    }
    FirstTwo(src);
    StringToken(src, s);
    assert [] + [TIdent("target")] + [TOp("~=")] + [TString("(?i)" + s)] + [TEOF] ==
           [TIdent("target"), TOp("~="), TString("(?i)" + s), TEOF];
    LexThree(src, TIdent("target"), 6, TOp("~="), 9, TString("(?i)" + s));
  }

  lemma FirstTwo(src: string)
    requires Stands(src, 0, "target ") && Stands(src, 7, "~= ")
    ensures Next(src, 0) == Got(TIdent("target"), 6) && Next(src, 6) == Got(TOp("~="), 9)
  {
    assert IsIdent("target");
    assert "target" + " " == "target " && "~=" + " " == "~= ";
    hide Next;
    StandsNone(src, 0);
    NextRead(src, 0, false, TIdent("target"));
    StandsSplit(src, 0, "target", " ");
    NextRead(src, 6, true, TOp("~="));
  }

  lemma StandsNone(src: string, pos: nat)
    requires pos <= |src|
    ensures Stands(src, pos, "")
  {
  }

  lemma StringToken(src: string, s: string)
    requires '"' !in s && |src| == 15 + |QuoteMeta(s)| + 1 && src[..15] == PREFIX
    requires Stands(src, 15, QuoteMeta(s) + "\"")
    ensures Next(src, 9) == Got(TString("(?i)" + s), |src|)
  {
    hide StringRest, QuoteMeta, Stands;
    assert PREFIX[9] == ' ' && PREFIX[10] == '"' && PREFIX[11] == '(' && PREFIX[12] == '?' && PREFIX[13] == 'i' && PREFIX[14] == ')';
    assert forall k :: 9 <= k < 15 ==> src[k] == src[..15][k];
    SpanStops(src, 9, 10, IsSpace);
    assert TokenAt(src, 10) == StringRest(src, '"', "", 11);
    assert "" + ['('] == "(" && "(" + ['?'] == "(?" && "(?" + ['i'] == "(?i" && "(?i" + [')'] == "(?i)";
    PlainStep(src, "", 11, '(');
    PlainStep(src, "(", 12, '?');
    PlainStep(src, "(?", 13, 'i');
    PlainStep(src, "(?i", 14, ')');
    MetaRead(src, "(?i)", 15, s);
  }

  lemma LexThree(src: string, t: Token, i: nat, u: Token, j: nat, v: Token)
    requires Next(src, 0) == Got(t, i) && i <= |src| && Next(src, i) == Got(u, j) && j <= |src| && Next(src, j) == Got(v, |src|)
    requires t != TEOF && u != TEOF && v != TEOF
    ensures Lex(src) == Tokens([] + [t] + [u] + [v] + [TEOF])
  {
    SpanStops(src, |src|, |src|, IsSpace);
    assert Next(src, |src|) == Got(TEOF, |src|);
    hide Next;
    assert LexFrom(src, [] + [t] + [u] + [v], |src|) == Tokens([] + [t] + [u] + [v] + [TEOF]);
    assert LexFrom(src, [] + [t] + [u], j) == LexFrom(src, [] + [t] + [u] + [v], |src|);
    assert LexFrom(src, [] + [t], i) == LexFrom(src, [] + [t] + [u], j);
  }

  lemma MatchTokens(rx: Patterns, p: string)
    ensures var ts := [TIdent("target"), TOp("~="), TString(p), TEOF];
            && Ended(ts)
            && Parse(rx, ts) == if rx(p) then Ok(Cmp("~=", Field("target"), Lit(Str(p))), 3) else Bad(BadRegex)
  {
    var ts := [TIdent("target"), TOp("~="), TString(p), TEOF];
    assert ParseValue(ts, 0) == Ok(Field("target"), 1);
    assert ParseValue(ts, 2) == Ok(Lit(Str(p)), 3);
    assert ComparisonOp(ts, 1) == ("~=", 1);
    var r := if rx(p) then Ok(Cmp("~=", Field("target"), Lit(Str(p))), 3) else Bad(BadRegex);
    assert ParseComparison(rx, ts, Field("target"), 1) == r;
    hide ParseComparison, ParseValue, ComparisonOp;
    assert ParsePrimary(rx, ts, 0) == r;
    assert ParseUnary(rx, ts, 0) == r;
    assert ParseAnd(rx, ts, 0) == r;
    assert ParseOr(rx, ts, 0) == r;
  }

  /** A bare word searches the target for the pattern that the word itself is, metacharacters live. */
  lemma BareWordPattern(rx: Patterns, s: string)
    requires !LooksLikeExpression(s) && rx("(?i)" + s)
    ensures Compile(rx, BareSearch(s)) == Program(Cmp("~=", Field("target"), Lit(Str("(?i)" + s))), {"target"})
  {
    assert '"' in OPERATOR_CHARS;
    assert '"' !in s;
    BareWordTokens(s);
    MatchTokens(rx, "(?i)" + s);
    hide Lex, Parse, QuoteMeta;
    var n := Cmp("~=", Field("target"), Lit(Str("(?i)" + s)));
    assert FieldsOf(n.l) == {"target"} && FieldsOf(n.r) == {};
    assert FieldsOf(n) == {"target"};
  }

  predicate PlainWord(s: string) { forall c :: c in s ==> !IsMeta(c) }

  lemma {:induction false} QuoteMetaSize(s: string)
    ensures |QuoteMeta(s)| >= |s|
    ensures QuoteMeta(s) == s <==> PlainWord(s)
    ensures |QuoteMeta(s)| == |s| <==> PlainWord(s)
  {
    if s != "" {
      QuoteMetaSize(s[1..]);
      assert s == [s[0]] + s[1..];
      assert forall c :: c in s <==> c == s[0] || c in s[1..];
    }
  }

  /** The search is for the word taken literally, escaped as it was meant to be, exactly when it has no metacharacter. */
  lemma BareWordLiteralExactly(rx: Patterns, s: string)
    requires !LooksLikeExpression(s) && rx("(?i)" + s)
    ensures Compile(rx, BareSearch(s)) == Program(Cmp("~=", Field("target"), Lit(Str("(?i)" + QuoteMeta(s)))), {"target"})
            <==> PlainWord(s)
  {
    hide Compile, QuoteMeta, LooksLikeExpression, PlainWord;
    BareWordPattern(rx, s);
    QuoteMetaSize(s);
    assert |"(?i)" + s| == 4 + |s| && |"(?i)" + QuoteMeta(s)| == 4 + |QuoteMeta(s)|;
  }

  /** Typing a.b searches for a, any character, b; the escape that was meant to make it literal is gone. */
  lemma DotStaysLive(rx: Patterns)
    requires rx("(?i)a.b")
    ensures Compile(rx, BareSearch("a.b")) == Program(Cmp("~=", Field("target"), Lit(Str("(?i)a.b"))), {"target"})
    ensures QuoteMeta("a.b") == "a\\.b" && !PlainWord("a.b")
  {
    hide Compile, QuoteMeta, LooksLikeExpression, IsMeta;
    DotIsMeta();
    DotIsNoOperator();
    assert '.' in "a.b" && "(?i)" + "a.b" == "(?i)a.b";
    BareWordPattern(rx, "a.b");
  }

  lemma DotIsMeta()
    ensures IsMeta('.') && QuoteMeta("a.b") == "a\\.b"
  {
    var s := "a.b";
    assert s[1..] == ".b" && s[1..][1..] == "b" && s[1..][1..][1..] == "";
    assert QuoteMeta("b") == "b" && QuoteMeta(".b") == "\\.b";
  }

  lemma DotIsNoOperator()
    ensures !LooksLikeExpression("a.b")
  {
    hide QuoteMeta;
    assert 'a' !in OPERATOR_CHARS && '.' !in OPERATOR_CHARS && 'b' !in OPERATOR_CHARS;
    assert forall k :: 0 <= k < 3 ==> "a.b"[k] == 'a' || "a.b"[k] == '.' || "a.b"[k] == 'b';
  }
}
