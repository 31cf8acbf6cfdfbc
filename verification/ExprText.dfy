/**
 Tokens as text. Any byte string, escaped and quoted with either quote, lexes back to itself, and a
 token list written out with spaces lexes back to the same list.
 */
module ExprText {
  import opened Options
  import opened ExprSyntax
  import opened ExprLexer
  import Identity

  // ---- Strings ----

  function EscapedChar(c: char, quote: char): string {
    if c == '\\' || c == quote then ['\\', c] else [c]
  }

  function Escaped(s: string, quote: char): string {
    if s == "" then "" else EscapedChar(s[0], quote) + Escaped(s[1..], quote)
  }

  predicate IsQuote(c: char) { c == '"' || c == '\'' }

  function Quoted(s: string, quote: char): string { [quote] + Escaped(s, quote) + [quote] }

  /** `t` stands in `src` at position `pos`. */
  ghost predicate Stands(src: string, pos: nat, t: string) {
    pos + |t| <= |src| && src[pos..pos + |t|] == t
  }

  lemma StandsSplit(src: string, pos: nat, a: string, b: string)
    ensures Stands(src, pos, a + b) <==> Stands(src, pos, a) && Stands(src, pos + |a|, b)
  {
    if Stands(src, pos, a + b) {
      assert src[pos..pos + |a|] == (a + b)[..|a|];
      assert src[pos + |a|..pos + |a| + |b|] == (a + b)[|a|..];
    }
    if Stands(src, pos, a) && Stands(src, pos + |a|, b) {
      assert src[pos..pos + |a| + |b|] == src[pos..pos + |a|] + src[pos + |a|..pos + |a| + |b|];
    }
  }

  lemma StandsAt(src: string, pos: nat, t: string)
    requires Stands(src, pos, t)
    ensures forall k :: 0 <= k < |t| ==> src[pos + k] == t[k]
  {
    forall k | 0 <= k < |t| ensures src[pos + k] == t[k] {
      assert src[pos..pos + |t|][k] == t[k];
    }
  }

  lemma StringStep(src: string, quote: char, text: string, pos: nat, c: char)
    requires IsQuote(quote) && Stands(src, pos, EscapedChar(c, quote))
    ensures StringRest(src, quote, text, pos) ==
            StringRest(src, quote, text + [c], pos + |EscapedChar(c, quote)|)
  {
    StandsAt(src, pos, EscapedChar(c, quote));
    assert src[pos + 0] == EscapedChar(c, quote)[0];
    if c == '\\' || c == quote {
      assert src[pos + 1] == c;
    }
  }

  lemma {:induction false} StringRead(src: string, quote: char, text: string, pos: nat, s: string)
    requires IsQuote(quote) && Stands(src, pos, Escaped(s, quote) + [quote])
    ensures StringRest(src, quote, text, pos) == Got(TString(text + s), pos + |Escaped(s, quote)| + 1)
    decreases |s|
  {
    hide EscapedChar;
    if s == "" {
      StandsAt(src, pos, [quote]);
      assert src[pos + 0] == quote;
      assert text + s == text;
    } else {
      hide Stands, StringRest;
      var c, more := s[0], s[1..];
      var head, tail := EscapedChar(c, quote), Escaped(more, quote) + [quote];
      assert Escaped(s, quote) + [quote] == head + tail;
      StandsSplit(src, pos, head, tail);
      StringStep(src, quote, text, pos, c);
      StringRead(src, quote, text + [c], pos + |head|, more);
      assert text + [c] + more == text + s;
    }
  }

  /** Quoting and lexing a string gives the string, wherever it stands. */
  lemma QuotedRoundTrip(src: string, pos: nat, s: string, quote: char)
    requires IsQuote(quote) && Stands(src, pos, Quoted(s, quote))
    ensures TokenAt(src, pos) == Got(TString(s), pos + |Quoted(s, quote)|)
  {
    StandsAt(src, pos, Quoted(s, quote));
    assert Quoted(s, quote) == [quote] + (Escaped(s, quote) + [quote]);
    StandsSplit(src, pos, [quote], Escaped(s, quote) + [quote]);
    StringRead(src, quote, "", pos + 1, s);
    assert "" + s == s;
  }

  // ---- Spans ----

  lemma {:induction false} SpanStops(src: string, pos: nat, e: nat, test: char -> bool)
    requires pos <= e <= |src| && forall k :: pos <= k < e ==> test(src[k])
    requires e < |src| ==> !test(src[e])
    ensures SpanEnd(src, pos, test) == e
    decreases e - pos
  {
    if pos < e {
      SpanStops(src, pos + 1, e, test);
    }
  }

  // ---- Numbers ----

  function DecimalValue(n: nat, k: nat): real { n as real / Pow10(k) as real }

  /** The values a numeric literal can denote. */
  ghost predicate IsDecimal(x: real) { exists n: nat, k: nat :: x == DecimalValue(n, k) }

  function FracDigits(m: nat, k: nat): (s: string)
    ensures |s| == k && AllDigits(s)
  {
    if k == 0 then "" else FracDigits(m / 10, k - 1) + [Identity.DIGITS[m % 10]]
  }

  lemma {:induction false} FracDigitsValue(m: nat, k: nat)
    requires m < Pow10(k)
    ensures DigitsValue(FracDigits(m, k)) == m
  {
    if k > 0 {
      FracDigitsValue(m / 10, k - 1);
      var s := FracDigits(m, k);
      assert s[..|s| - 1] == FracDigits(m / 10, k - 1);
    }
  }

  lemma {:induction false} DecimalDigits(n: nat)
    ensures AllDigits(Identity.Decimal(n)) && DigitsValue(Identity.Decimal(n)) == n
  {
    var s := Identity.Decimal(n);
    if n < 10 {
      assert s[..0] == "";
      assert DigitsValue(s[..0]) == 0;
    } else {
      DecimalDigits(n / 10);
      assert s[..|s| - 1] == Identity.Decimal(n / 10);
    }
  }

  function Whole(n: nat, p: nat): (q: nat)
    requires p > 0
  {
    n / p
  }

  function Part(n: nat, p: nat): (r: nat)
    requires p > 0
    ensures r < p
  {
    n % p
  }

  function NumberText(n: nat, k: nat): string {
    Identity.Decimal(Whole(n, Pow10(k))) + "." + FracDigits(Part(n, Pow10(k)), k)
  }

  lemma RealQuotient(q: real, r: real, p: real)
    requires p > 0.0
    ensures q + r / p == (q * p + r) / p
  {
  }

  lemma WholeAndPart(n: nat, p: nat)
    requires p > 0
    ensures Whole(n, p) as real + Part(n, p) as real / p as real == n as real / p as real
  {
    var q, r := Whole(n, p), Part(n, p);
    assert n == q * p + r;
    assert n as real == q as real * p as real + r as real;
    RealQuotient(q as real, r as real, p as real);
  }

  lemma MantissaChars(whole: string, frac: string)
    requires AllDigits(whole) && AllDigits(frac)
    ensures forall c :: c in whole + "." + frac ==> IsMantissa(c)
  {
    forall c | c in whole + "." + frac ensures IsMantissa(c) {
      assert c in whole || c in "." || c in frac;
    }
  }

  lemma MantissaCut(whole: string, frac: string)
    requires AllDigits(whole)
    ensures var s := whole + "." + frac;
            SpanEnd(s, 0, IsDigit) == |whole| && s[..|whole|] == whole && s[|whole| + 1..] == frac
  {
    var s := whole + "." + frac;
    forall k | 0 <= k < |whole| ensures IsDigit(s[k]) {
      assert s[k] == whole[k] && whole[k] in whole;
    }
    assert s[|whole|] == '.';
    SpanStops(s, 0, |whole|, IsDigit);
  }

  lemma {:induction false} MantissaOfDigits(whole: string, frac: string)
    requires AllDigits(whole) && AllDigits(frac)
    ensures forall c :: c in whole + "." + frac ==> IsMantissa(c)
    ensures Mantissa(whole + "." + frac) ==
            Some(DigitsValue(whole) as real + DigitsValue(frac) as real / Pow10(|frac|) as real)
  {
    hide DigitsValue, Pow10, AllDigits, SpanEnd;
    MantissaChars(whole, frac);
    hide IsMantissa;
    MantissaCut(whole, frac);
  }

  lemma MantissaOfText(n: nat, k: nat)
    ensures var s := NumberText(n, k);
            && s != "" && IsDigit(s[0]) && (forall c :: c in s ==> IsMantissa(c))
            && Mantissa(s) == Some(DecimalValue(n, k))
  {
    hide DigitsValue, Mantissa, Whole, Part, Identity.Decimal, FracDigits;
    var q, r := Whole(n, Pow10(k)), Part(n, Pow10(k));
    var whole := Identity.Decimal(q);
    DecimalDigits(q);
    FracDigitsValue(r, k);
    MantissaOfDigits(whole, FracDigits(r, k));
    WholeAndPart(n, Pow10(k));
    assert whole[0] in whole;
  }

  lemma NumberRead(src: string, pos: nat, n: nat, k: nat)
    requires Stands(src, pos, NumberText(n, k)) && pos + |NumberText(n, k)| < |src|
    requires src[pos + |NumberText(n, k)|] == ' '
    ensures TokenAt(src, pos) == Got(TNumber(DecimalValue(n, k)), pos + |NumberText(n, k)|)
    ensures IsDigit(src[pos])
  {
    MantissaOfText(n, k);
    hide NumberText, Mantissa, DecimalValue;
    var t := NumberText(n, k);
    StandsAt(src, pos, t);
    assert src[pos + 0] == t[0];
    var e := pos + |t|;
    forall i | pos <= i < e ensures IsMantissa(src[i]) {
      assert src[pos + (i - pos)] == t[i - pos];
      assert t[i - pos] in t;
    }
    SpanStops(src, pos, e, IsMantissa);
    SpanStops(src, e, e, IsLetter);
    assert src[pos..e] == t && src[e..e] == "";
  }

  // ---- Any token ----

  predicate IsIdent(w: string) {
    w != "" && IsIdentStart(w[0]) && forall k :: 0 <= k < |w| ==> IsIdentPart(w[k])
  }

  /** Tokens the lexer can produce, the end marker aside. */
  ghost predicate Plain(t: Token) {
    match t
    case TIdent(w) => IsIdent(w)
    case TString(_) => true
    case TNumber(x) => IsDecimal(x)
    case TOp(op) => TwoCharOp(op) || OneCharOp(op)
    case TEOF => false
    case _ => true
  }

  ghost function TokenText(t: Token): string
    requires Plain(t)
  {
    match t
    case TIdent(w) => w
    case TString(s) => Quoted(s, '"')
    case TNumber(x) => var n: nat, k: nat :| x == DecimalValue(n, k); NumberText(n, k)
    case TOp(op) => op
    case TLParen => "("
    case TRParen => ")"
    case TLBrack => "["
    case TRBrack => "]"
    case TComma => ","
  }

  lemma IdentRead(src: string, pos: nat, w: string)
    requires IsIdent(w) && Stands(src, pos, w) && pos + |w| < |src| && src[pos + |w|] == ' '
    ensures TokenAt(src, pos) == Got(TIdent(w), pos + |w|) && !IsSpace(src[pos])
  {
    StandsAt(src, pos, w);
    assert src[pos + 0] == w[0];
    var e := pos + |w|;
    forall i | pos <= i < e ensures IsIdentPart(src[i]) {
      assert src[pos + (i - pos)] == w[i - pos];
    }
    SpanStops(src, pos, e, IsIdentPart);
  }

  lemma NumberTokenRead(src: string, pos: nat, x: real)
    requires IsDecimal(x) && Stands(src, pos, TokenText(TNumber(x)))
    requires pos + |TokenText(TNumber(x))| < |src| && src[pos + |TokenText(TNumber(x))|] == ' '
    ensures TokenAt(src, pos) == Got(TNumber(x), pos + |TokenText(TNumber(x))|) && IsDigit(src[pos])
  {
    hide DecimalValue, NumberText, TokenAt;
    var n: nat, k: nat :| x == DecimalValue(n, k) && TokenText(TNumber(x)) == NumberText(n, k);
    NumberRead(src, pos, n, k);
  }

  lemma TokenRead(src: string, pos: nat, t: Token)
    requires Plain(t) && Stands(src, pos, TokenText(t) + " ")
    ensures pos < |src| && !IsSpace(src[pos])
    ensures TokenAt(src, pos) == Got(t, pos + |TokenText(t)|)
  {
    hide IsIdent, IsDecimal, NumberText, DecimalValue;
    StandsSplit(src, pos, TokenText(t), " ");
    StandsAt(src, pos, TokenText(t));
    StandsAt(src, pos + |TokenText(t)|, " ");
    assert src[pos + |TokenText(t)| + 0] == ' ';
    match t
    case TIdent(w) => IdentRead(src, pos, w);
    case TString(s) =>
      QuotedRoundTrip(src, pos, s, '"');
      assert src[pos + 0] == '"';
    case TNumber(x) => NumberTokenRead(src, pos, x);
    case TOp(op) => OpRead(src, pos, op);
    case TEOF =>
    case _ =>
      assert src[pos + 0] == TokenText(t)[0];
  }

  lemma OpStart(op: string)
    requires TwoCharOp(op) || OneCharOp(op)
    ensures |op| == if TwoCharOp(op) then 2 else 1
    ensures op[0] in "=!<>~&|" && (OneCharOp(op) ==> !TwoCharOp(op + " "))
  {
    assert (op + " ")[|op|] == ' ';
  }

  lemma OpLexed(src: string, pos: nat, op: string)
    requires (TwoCharOp(op) || OneCharOp(op)) && Stands(src, pos, op + " ")
    ensures pos < |src| && src[pos] == op[0] && LexOp(src, pos) == Got(TOp(op), pos + |op|)
  {
    OpStart(op);
    hide TwoCharOp, OneCharOp;
    StandsAt(src, pos, op + " ");
    assert src[pos + 0] == (op + " ")[0] == op[0];
    StandsSplit(src, pos, op, " ");
  }

  lemma OpRead(src: string, pos: nat, op: string)
    requires (TwoCharOp(op) || OneCharOp(op)) && Stands(src, pos, op + " ")
    ensures pos < |src| && TokenAt(src, pos) == Got(TOp(op), pos + |op|) && !IsSpace(src[pos])
  {
    hide Stands, LexOp;
    OpLexed(src, pos, op);
    OpStart(op);
  }

  ghost function Text(ts: seq<Token>): string
    requires forall t :: t in ts ==> Plain(t)
  {
    if ts == [] then "" else TokenText(ts[0]) + " " + Text(ts[1..])
  }

  function Lead(lead: bool): string { if lead then " " else "" }

  /** After an optional space, the token that stands next is the next token. */
  lemma NextRead(src: string, pos: nat, lead: bool, t: Token)
    requires Plain(t) && Stands(src, pos, Lead(lead)) && Stands(src, pos + |Lead(lead)|, TokenText(t) + " ")
    ensures Next(src, pos) == Got(t, pos + |Lead(lead)| + |TokenText(t)|)
  {
    hide TokenText, TokenAt, Plain;
    var from := pos + |Lead(lead)|;
    LeadIsSpace(src, pos, lead);
    TokenRead(src, from, t);
    SpanStops(src, pos, from, IsSpace);
  }

  lemma LeadIsSpace(src: string, pos: nat, lead: bool)
    requires Stands(src, pos, Lead(lead))
    ensures forall k :: pos <= k < pos + |Lead(lead)| ==> IsSpace(src[k])
  {
    StandsAt(src, pos, Lead(lead));
    assert lead ==> src[pos + 0] == ' ';
  }

  lemma {:induction false} TextRead(src: string, done: seq<Token>, pos: nat, lead: bool, ts: seq<Token>)
    requires forall t :: t in ts ==> Plain(t)
    requires Stands(src, pos, Lead(lead) + Text(ts)) && pos + |Lead(lead) + Text(ts)| == |src|
    ensures LexFrom(src, done, pos) == Tokens(done + ts + [TEOF])
    decreases |ts|
  {
    hide TokenText, TokenAt, Plain, Stands;
    var from := pos + |Lead(lead)|;
    StandsSplit(src, pos, Lead(lead), Text(ts));
    if ts == [] {
      LeadIsSpace(src, pos, lead);
      SpanStops(src, pos, from, IsSpace);
      assert done + ts == done;
    } else {
      var t, more := ts[0], ts[1..];
      assert t in ts && forall u :: u in more ==> u in ts;
      hide Lead, Next;
      StandsSplit(src, from, TokenText(t) + " ", Text(more));
      NextRead(src, pos, lead, t);
      assert TokenText(t) + " " + Text(more) == TokenText(t) + (" " + Text(more));
      StandsSplit(src, from, TokenText(t), " " + Text(more));
      LeadSpace();
      TextRead(src, done + [t], from + |TokenText(t)|, true, more);
      assert done + [t] + more == done + ts;
    }
  }

  lemma LeadSpace()
    ensures Lead(true) == " " && Lead(false) == ""
  {
  }

  /** A token list written out with a space after every token lexes back to itself. */
  lemma TextLexes(ts: seq<Token>)
    requires forall t :: t in ts ==> Plain(t)
    ensures Lex(Text(ts)) == Tokens(ts + [TEOF])
  {
    var src := Text(ts);
    assert Lead(false) + Text(ts) == src && src[..|src|] == src;
    TextRead(src, [], 0, false, ts);
    assert [] + ts == ts;
  }

  // ---- Everything the lexer makes can be written out ----

  lemma DecimalTimes(n: nat, k: nat, m: nat)
    ensures DecimalValue(n, k) * m as real == DecimalValue(n * m, k)
  {
    assert (n * m) as real == n as real * m as real;
    RealProduct(n as real, m as real, Pow10(k) as real);
  }

  lemma RealProduct(x: real, y: real, p: real)
    requires p > 0.0
    ensures (x / p) * y == (x * y) / p
  {
  }

  lemma DecimalMilli(n: nat, k: nat)
    ensures DecimalValue(n, k) * 0.001 == DecimalValue(n, k + 3)
  {
    assert Pow10(k + 3) == 10 * Pow10(k + 2) == 100 * Pow10(k + 1) == 1000 * Pow10(k);
    RealMilli(n as real, Pow10(k) as real);
  }

  lemma RealMilli(x: real, p: real)
    requires p > 0.0
    ensures (x / p) * 0.001 == x / (1000.0 * p)
  {
    var q := x / p;
    assert x == q * p;
    assert q * 0.001 * (1000.0 * p) == x;
  }

  function NatPower(base: nat, n: nat): nat { if n == 0 then 1 else base * NatPower(base, n - 1) }

  lemma {:induction false} PowerIsNat(base: nat, n: nat)
    ensures Power(base as real, n) == NatPower(base, n) as real
  {
    if n > 0 {
      PowerIsNat(base, n - 1);
      assert (base * NatPower(base, n - 1)) as real == base as real * NatPower(base, n - 1) as real;
    }
  }

  /** A suffix multiplies by a natural number or by a thousandth. */
  lemma SuffixDecimal(n: nat, k: nat, suffix: string)
    requires ApplySuffix(DecimalValue(n, k), suffix).Some?
    ensures IsDecimal(ApplySuffix(DecimalValue(n, k), suffix).value)
  {
    var x := DecimalValue(n, k);
    hide DecimalValue;
    if suffix == "" {
      assert x == DecimalValue(n, k);
    } else if suffix == "ms" {
      DecimalMilli(n, k);
    } else if DurationSeconds(suffix).Some? {
      var m := if suffix == "s" then 1 else if suffix == "m" then 60 else 3600;
      DecimalTimes(n, k, m);
    } else {
      var base := if 'i' in suffix then 1024 else 1000;
      PowerIsNat(base, ByteExponent(suffix[0]));
      DecimalTimes(n, k, NatPower(base, ByteExponent(suffix[0])));
    }
  }

  lemma MantissaDecimal(s: string) returns (n: nat, k: nat)
    requires (forall c :: c in s ==> IsMantissa(c)) && Mantissa(s).Some?
    ensures Mantissa(s).value == DecimalValue(n, k)
  {
    hide DigitsValue;
    var e := SpanEnd(s, 0, IsDigit);
    assert AllDigits(s[..e]);
    if e == |s| {
      n, k := DigitsValue(s), 0;
      assert s[..e] == s;
    } else {
      var whole, frac := DigitsValue(s[..e]), DigitsValue(s[e + 1..]);
      k := |s| - e - 1;
      n := whole * Pow10(k) + frac;
      assert n as real == whole as real * Pow10(k) as real + frac as real;
      RealQuotient(whole as real, frac as real, Pow10(k) as real);
    }
  }

  lemma NumberPlain(src: string, pos: nat)
    requires pos < |src| && IsDigit(src[pos]) && LexNumber(src, pos).Got?
    ensures Plain(LexNumber(src, pos).tok)
  {
    hide Mantissa, ApplySuffix, DecimalValue, IsDecimal;
    var mid := SpanEnd(src, pos, IsMantissa);
    var n, k := MantissaDecimal(src[pos..mid]);
    SuffixDecimal(n, k, src[mid..SpanEnd(src, mid, IsLetter)]);
  }

  lemma TokenPlain(src: string, pos: nat)
    requires pos < |src| && TokenAt(src, pos).Got?
    ensures Plain(TokenAt(src, pos).tok)
  {
    hide IsDecimal, LexNumber, StringRest;
    if IsDigit(src[pos]) {
      NumberPlain(src, pos);
    }
  }

  lemma {:induction false} LexPlainFrom(src: string, done: seq<Token>, pos: nat)
    requires pos <= |src| && LexFrom(src, done, pos).Tokens? && forall t :: t in done ==> Plain(t)
    ensures var ts := LexFrom(src, done, pos).toks;
            ts != [] && ts[|ts| - 1] == TEOF && forall t :: t in ts[..|ts| - 1] ==> Plain(t)
    decreases |src| - pos
  {
    hide TokenAt, Plain;
    var p := SkipSpace(src, pos);
    if p == |src| {
      assert (done + [TEOF])[..|done|] == done;
    } else {
      TokenPlain(src, p);
      var r := TokenAt(src, p);
      LexPlainFrom(src, done + [r.tok], r.next);
    }
  }

  /** The lexer ends its list with the end marker, and every other token is one that can be written. */
  lemma LexPlain(src: string)
    requires Lex(src).Tokens?
    ensures var ts := Lex(src).toks;
            ts != [] && ts[|ts| - 1] == TEOF && forall t :: t in ts[..|ts| - 1] ==> Plain(t)
  {
    LexPlainFrom(src, [], 0);
  }

  /** Lexing, writing the tokens out and lexing again gives the same tokens. */
  lemma LexTextLex(src: string)
    requires Lex(src).Tokens?
    ensures var ts := Lex(src).toks;
            && ts != [] && (forall t :: t in ts[..|ts| - 1] ==> Plain(t))
            && Lex(Text(ts[..|ts| - 1])) == Lex(src)
  {
    LexPlain(src);
    var ts := Lex(src).toks;
    TextLexes(ts[..|ts| - 1]);
  }
}
