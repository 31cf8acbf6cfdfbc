/** The lexer as functions on a source text and a position. Characters stand for bytes. */
module ExprLexer {
  import opened Options
  import opened ExprSyntax

  datatype LexError = Unterminated | BadNumber | UnknownSuffix | UnexpectedChar

  datatype Scanned = Got(tok: Token, next: nat) | LexBad(why: LexError)

  datatype Lexed = Tokens(toks: seq<Token>) | NotTokens(why: LexError)

  predicate IsDigit(c: char) { '0' <= c <= '9' }
  predicate IsLetter(c: char) { 'a' <= c <= 'z' || 'A' <= c <= 'Z' }
  predicate IsIdentStart(c: char) { IsLetter(c) || c == '_' }
  predicate IsIdentPart(c: char) { IsIdentStart(c) || IsDigit(c) || c == '-' || c == '.' }
  predicate IsSpace(c: char) { c == ' ' || c == '\t' || c == '\n' }
  predicate IsMantissa(c: char) { IsDigit(c) || c == '.' }

  function Unescape(c: char): char {
    if c == 'n' then '\n' else if c == 't' then '\t' else if c == 'r' then '\r' else c
  }

  /** The first position from `pos` whose character fails the test. */
  function SpanEnd(src: string, pos: nat, test: char -> bool): (e: nat)
    requires pos <= |src|
    ensures pos <= e <= |src|
    ensures forall k :: pos <= k < e ==> test(src[k])
    ensures e < |src| ==> !test(src[e])
    decreases |src| - pos
  {
    if pos < |src| && test(src[pos]) then SpanEnd(src, pos + 1, test) else pos
  }

  function SkipSpace(src: string, pos: nat): (e: nat)
    requires pos <= |src|
    ensures pos <= e <= |src|
  {
    SpanEnd(src, pos, IsSpace)
  }

  /** The rest of a string literal after its opening quote; `text` is what has been read. */
  function StringRest(src: string, quote: char, text: string, pos: nat): (r: Scanned)
    requires pos <= |src|
    ensures r.Got? ==> pos < r.next <= |src| && r.tok.TString?
    decreases |src| - pos
  {
    if pos == |src| then LexBad(Unterminated)
    else if src[pos] == '\\' && pos + 1 < |src| then StringRest(src, quote, text + [Unescape(src[pos + 1])], pos + 2)
    else if src[pos] == quote then Got(TString(text), pos + 1)
    else StringRest(src, quote, text + [src[pos]], pos + 1)
  }

  // ---- Numbers ----

  function DigitValue(c: char): nat
    requires IsDigit(c)
  {
    c as int - '0' as int
  }

  predicate AllDigits(s: string) { forall c :: c in s ==> IsDigit(c) }

  function DigitsValue(s: string): nat
    requires AllDigits(s)
  {
    if s == "" then 0 else DigitsValue(s[..|s| - 1]) * 10 + DigitValue(s[|s| - 1])
  }

  function Pow10(k: nat): (p: nat)
    ensures p > 0
  {
    if k == 0 then 1 else 10 * Pow10(k - 1)
  }

  /** Digits with at most one dot after them; the value is exact. */
  function Mantissa(s: string): Option<real>
    requires forall c :: c in s ==> IsMantissa(c)
  {
    var e := SpanEnd(s, 0, IsDigit);
    assert AllDigits(s[..e]);
    if e == |s| then Some(DigitsValue(s) as real)
    else
      var frac := s[e + 1..];
      if !AllDigits(frac) then None
      else Some(DigitsValue(s[..e]) as real + DigitsValue(frac) as real / Pow10(|frac|) as real)
  }

  function Power(base: real, n: nat): real { if n == 0 then 1.0 else base * Power(base, n - 1) }

  function DurationSeconds(s: string): Option<real> {
    if s == "ms" then Some(0.001) else if s == "s" then Some(1.0)
    else if s == "m" then Some(60.0) else if s == "h" then Some(3600.0) else None
  }

  function ByteExponent(c: char): nat {
    if c == 'K' then 1 else if c == 'M' then 2 else if c == 'G' then 3 else if c == 'T' then 4
    else if c == 'P' then 5 else 0
  }

  function ByteSize(s: string): Option<real>
    requires s != ""
  {
    var n := ByteExponent(s[0]);
    var rest := s[1..];
    if n == 0 || (rest != "" && rest != "B" && rest != "iB") then None
    else Some(Power(if 'i' in s then 1024.0 else 1000.0, n))
  }

  function ApplySuffix(x: real, suffix: string): Option<real> {
    if suffix == "" then Some(x)
    else match DurationSeconds(suffix)
      case Some(mult) => Some(x * mult)
      case None =>
        match ByteSize(suffix)
        case Some(mult) => Some(x * mult)
        case None => None
  }

  function LexNumber(src: string, pos: nat): (r: Scanned)
    requires pos < |src| && IsDigit(src[pos])
    ensures r.Got? ==> pos < r.next <= |src| && r.tok.TNumber?
  {
    var mid := SpanEnd(src, pos, IsMantissa);
    var end := SpanEnd(src, mid, IsLetter);
    match Mantissa(src[pos..mid])
    case None => LexBad(BadNumber)
    case Some(x) =>
      match ApplySuffix(x, src[mid..end])
      case None => LexBad(UnknownSuffix)
      case Some(v) => Got(TNumber(v), end)
  }

  // ---- Operators and the token at a position ----

  predicate TwoCharOp(s: string) {
    s == "==" || s == "!=" || s == "<=" || s == ">=" || s == "~=" || s == "!~" || s == "&&" || s == "||"
  }

  predicate OneCharOp(s: string) { s == "<" || s == ">" || s == "!" }

  function LexOp(src: string, pos: nat): (r: Scanned)
    requires pos < |src|
    ensures r.Got? ==> pos < r.next <= |src| && r.tok.TOp?
  {
    if pos + 1 < |src| && TwoCharOp(src[pos..pos + 2]) then Got(TOp(src[pos..pos + 2]), pos + 2)
    else if OneCharOp(src[pos..pos + 1]) then Got(TOp(src[pos..pos + 1]), pos + 1)
    else LexBad(UnexpectedChar)
  }

  /** The token that starts at a position that is not a space. */
  function TokenAt(src: string, pos: nat): (r: Scanned)
    requires pos < |src|
    ensures r.Got? ==> pos < r.next <= |src| && r.tok != TEOF
  {
    var c := src[pos];
    if c == '"' || c == '\'' then StringRest(src, c, "", pos + 1)
    else if c == '(' then Got(TLParen, pos + 1)
    else if c == ')' then Got(TRParen, pos + 1)
    else if c == '[' then Got(TLBrack, pos + 1)
    else if c == ']' then Got(TRBrack, pos + 1)
    else if c == ',' then Got(TComma, pos + 1)
    else if IsDigit(c) then LexNumber(src, pos)
    else if IsIdentStart(c) then
      var end := SpanEnd(src, pos, IsIdentPart);
      Got(TIdent(src[pos..end]), end)
    else LexOp(src, pos)
  }

  function Next(src: string, pos: nat): (r: Scanned)
    requires pos <= |src|
    ensures r.Got? ==> pos <= r.next <= |src| && (r.tok != TEOF ==> pos < r.next)
  {
    var p := SkipSpace(src, pos);
    if p == |src| then Got(TEOF, p) else TokenAt(src, p)
  }

  function LexFrom(src: string, toks: seq<Token>, pos: nat): Lexed
    requires pos <= |src|
    decreases |src| - pos
  {
    match Next(src, pos)
    case LexBad(why) => NotTokens(why)
    case Got(t, next) => if t == TEOF then Tokens(toks + [t]) else LexFrom(src, toks + [t], next)
  }

  function Lex(src: string): Lexed { LexFrom(src, [], 0) }
}
