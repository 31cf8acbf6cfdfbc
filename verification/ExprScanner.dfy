/** The lexer object: a position that its methods advance, and the tokens read so far. */
module ExprScanner {
  import opened Options
  import opened ExprSyntax
  import opened ExprLexer

  datatype Scan = One(tok: Token) | Error(why: LexError)

  class Lexer {
    const src: string
    var pos: nat
    var tok: seq<Token>

    constructor (src: string)
      ensures this.src == src && pos == 0 && tok == []
    {
      this.src, pos, tok := src, 0, [];
    }

    ghost predicate Agrees(r: Scan, s: Scanned)
      reads this
    {
      match s
      case Got(t, next) => r == One(t) && pos == next
      case LexBad(why) => r == Error(why)
    }

    method LexAll() returns (r: Lexed)
      requires pos == 0 && tok == []
      modifies this
      ensures r == Lex(src)
    {
      while true
        invariant pos <= |src| && LexFrom(src, tok, pos) == Lex(src)
        decreases |src| - pos
      {
        var t := Next();
        if t.Error? {
          return NotTokens(t.why);
        }
        tok := tok + [t.tok];
        if t.tok == TEOF {
          return Tokens(tok);
        }
      }
    }

    method Next() returns (r: Scan)
      requires pos <= |src|
      modifies this`pos
      ensures Agrees(r, ExprLexer.Next(src, old(pos)))
    {
      SkipSpace();
      if pos >= |src| {
        return One(TEOF);
      }
      var c := src[pos];
      if c == '"' || c == '\'' {
        r := LexString();
      } else if c == '(' {
        r := Single(TLParen);
      } else if c == ')' {
        r := Single(TRParen);
      } else if c == '[' {
        r := Single(TLBrack);
      } else if c == ']' {
        r := Single(TRBrack);
      } else if c == ',' {
        r := Single(TComma);
      } else if IsDigit(c) {
        r := LexNumber();
      } else if IsIdentStart(c) {
        r := LexIdent();
      } else {
        r := LexOp();
      }
    }

    method Single(t: Token) returns (r: Scan)
      modifies this`pos
      ensures r == One(t) && pos == old(pos) + 1
    {
      r := One(t);
      pos := pos + 1;
    }

    method SkipSpace()
      requires pos <= |src|
      modifies this`pos
      ensures pos == ExprLexer.SkipSpace(src, old(pos))
    {
      while pos < |src| && (src[pos] == ' ' || src[pos] == '\t' || src[pos] == '\n')
        invariant pos <= |src| && SpanEnd(src, pos, IsSpace) == SpanEnd(src, old(pos), IsSpace)
      {
        pos := pos + 1;
      }
    }

    method LexString() returns (r: Scan)
      requires pos < |src|
      modifies this`pos
      ensures Agrees(r, StringRest(src, src[old(pos)], "", old(pos) + 1))
    {
      var quote := src[pos];
      pos := pos + 1;
      var b := "";
      while pos < |src|
        invariant pos <= |src|
        invariant StringRest(src, quote, b, pos) == StringRest(src, quote, "", old(pos) + 1)
      {
        var c := src[pos];
        if c == '\\' && pos + 1 < |src| {
          b := b + [Unescape(src[pos + 1])];
          pos := pos + 2;
          continue;
        }
        if c == quote {
          pos := pos + 1;
          return One(TString(b));
        }
        b := b + [c];
        pos := pos + 1;
      }
      return Error(Unterminated);
    }

    method LexIdent() returns (r: Scan)
      requires pos < |src|
      modifies this`pos
      ensures var e := SpanEnd(src, old(pos), IsIdentPart); r == One(TIdent(src[old(pos)..e])) && pos == e
    {
      var start := pos;
      while pos < |src| && IsIdentPart(src[pos])
        invariant start <= pos <= |src| && SpanEnd(src, pos, IsIdentPart) == SpanEnd(src, start, IsIdentPart)
      {
        pos := pos + 1;
      }
      r := One(TIdent(src[start..pos]));
    }

    method LexNumber() returns (r: Scan)
      requires pos < |src| && IsDigit(src[pos])
      modifies this`pos
      ensures Agrees(r, ExprLexer.LexNumber(src, old(pos)))
    {
      var start := pos;
      while pos < |src| && (IsDigit(src[pos]) || src[pos] == '.')
        invariant start <= pos <= |src| && SpanEnd(src, pos, IsMantissa) == SpanEnd(src, start, IsMantissa)
      {
        pos := pos + 1;
      }
      var mid := pos;
      while pos < |src| && IsLetter(src[pos])
        invariant mid <= pos <= |src| && SpanEnd(src, pos, IsLetter) == SpanEnd(src, mid, IsLetter)
      {
        pos := pos + 1;
      }
      var base := Mantissa(src[start..mid]);
      if base.None? {
        return Error(BadNumber);
      }
      var value := ApplySuffix(base.value, src[mid..pos]);
      if value.None? {
        return Error(UnknownSuffix);
      }
      r := One(TNumber(value.value));
    }

    method LexOp() returns (r: Scan)
      requires pos < |src|
      modifies this`pos
      ensures Agrees(r, ExprLexer.LexOp(src, old(pos)))
    {
      if pos + 1 < |src| {
        var two := src[pos..pos + 2];
        if TwoCharOp(two) {
          pos := pos + 2;
          return One(TOp(two));
        }
      }
      var one := src[pos..pos + 1];
      if OneCharOp(one) {
        pos := pos + 1;
        return One(TOp(one));
      }
      return Error(UnexpectedChar);
    }
  }
}
