/** The filter line: a buffer, a cursor in it, and the filters applied before. */
module TuiLine {
  import opened Options

  datatype Line = Line(buf: string, pos: int, history: seq<string>, histIdx: int)
  {
    /** The cursor is in the buffer and the browse position in the history. */
    predicate Ok() { 0 <= pos <= |buf| && 0 <= histIdx <= |history| }
  }

  predicate IsSpace(c: char) { c == ' ' || c == '\t' }

  function Start(l: Line, text: string): Line { Line(text, |text|, l.history, |l.history|) }

  function Insert(l: Line, c: char): Line
    requires l.Ok()
  {
    l.(buf := l.buf[..l.pos] + [c] + l.buf[l.pos..], pos := l.pos + 1)
  }

  function Backspace(l: Line): Line
    requires l.Ok()
  {
    if l.pos == 0 then l else l.(buf := l.buf[..l.pos - 1] + l.buf[l.pos..], pos := l.pos - 1)
  }

  function Delete(l: Line): Line
    requires l.Ok()
  {
    if l.pos >= |l.buf| then l else l.(buf := l.buf[..l.pos] + l.buf[l.pos + 1..])
  }

  function Left(l: Line): Line { l.(pos := if l.pos > 0 then l.pos - 1 else 0) }

  function Right(l: Line): Line { l.(pos := if l.pos < |l.buf| then l.pos + 1 else |l.buf|) }

  /** The start of the run of characters that end before `i` and all pass (or all fail) the test. */
  function RunStart(s: string, i: nat, spaces: bool): (j: nat)
    requires i <= |s|
    ensures j <= i && (forall k :: j <= k < i ==> IsSpace(s[k]) == spaces) && (j > 0 ==> IsSpace(s[j - 1]) != spaces)
  {
    if i > 0 && IsSpace(s[i - 1]) == spaces then RunStart(s, i - 1, spaces) else i
  }

  function RunEnd(s: string, i: nat, spaces: bool): (j: nat)
    requires i <= |s|
    ensures i <= j <= |s| && (forall k :: i <= k < j ==> IsSpace(s[k]) == spaces) && (j < |s| ==> IsSpace(s[j]) != spaces)
    decreases |s| - i
  {
    if i < |s| && IsSpace(s[i]) == spaces then RunEnd(s, i + 1, spaces) else i
  }

  /** Over spaces, then over a word. */
  function WordLeft(s: string, i: nat): (j: nat)
    requires i <= |s|
    ensures j <= i
  {
    RunStart(s, RunStart(s, i, true), false)
  }

  function WordRight(s: string, i: nat): (j: nat)
    requires i <= |s|
    ensures i <= j <= |s|
  {
    RunEnd(s, RunEnd(s, i, true), false)
  }

  /** Older is -1, newer is 1; past the newest is an empty line. */
  function Browse(l: Line, dir: int): Line {
    var i := l.histIdx + dir;
    var k := if i < 0 then 0 else i;
    if k >= |l.history| then l.(histIdx := |l.history|, buf := "", pos := 0)
    else l.(histIdx := k, buf := l.history[k], pos := |l.history[k]|)
  }

  function Push(l: Line, s: string): Line {
    var h := if l.history == [] || l.history[|l.history| - 1] != s then l.history + [s] else l.history;
    l.(history := h, histIdx := |h|)
  }

  /** A suggestion: where the token it replaces starts, and its text. */
  datatype Fill = Fill(start: nat, text: string)

  function Filled(l: Line, f: Fill): Line
    requires l.Ok() && f.start <= l.pos
  {
    l.(buf := l.buf[..f.start] + f.text + l.buf[l.pos..], pos := f.start + |f.text|)
  }

  // ---- What editing promises ----

  lemma EditingStaysOk(l: Line, c: char, dir: int, text: string, f: Fill)
    requires l.Ok()
    ensures Insert(l, c).Ok() && Backspace(l).Ok() && Delete(l).Ok() && Left(l).Ok() && Right(l).Ok()
    ensures Browse(l, dir).Ok() && Push(l, text).Ok() && Start(l, text).Ok()
    ensures f.start <= l.pos ==> Filled(l, f).Ok()
    ensures l.(pos := WordLeft(l.buf, l.pos)).Ok() && l.(pos := WordRight(l.buf, l.pos)).Ok()
  {
  }

  /** Typing a character and taking it back, before or after the cursor, leaves the line as it was. */
  lemma TypingUndone(l: Line, c: char)
    requires l.Ok()
    ensures Backspace(Insert(l, c)) == l && Delete(Left(Insert(l, c))) == l
  {
    var t := Insert(l, c).buf;
    assert t[..l.pos] == l.buf[..l.pos] && t[l.pos + 1..] == l.buf[l.pos..];
    assert l.buf[..l.pos] + l.buf[l.pos..] == l.buf;
  }

  /** Typing a text puts it at the cursor, in order, and the cursor after it. */
  lemma {:induction false} TypingInserts(l: Line, text: string)
    requires l.Ok()
    ensures TypeAll(l, text).Ok()
    ensures TypeAll(l, text) == l.(buf := l.buf[..l.pos] + text + l.buf[l.pos..], pos := l.pos + |text|)
    decreases |text|
  {
    if text == "" {
      assert l.buf[..l.pos] + text + l.buf[l.pos..] == l.buf;
    } else {
      var m := Insert(l, text[0]);
      TypingInserts(m, text[1..]);
      assert m.buf[..m.pos] == l.buf[..l.pos] + [text[0]] && m.buf[m.pos..] == l.buf[l.pos..];
      assert l.buf[..l.pos] + [text[0]] + text[1..] == l.buf[..l.pos] + text;
    }
  }

  function TypeAll(l: Line, text: string): (r: Line)
    requires l.Ok()
    ensures r.Ok()
    decreases |text|
  {
    if text == "" then l else TypeAll(Insert(l, text[0]), text[1..])
  }

  function BrowseTimes(l: Line, dir: int, n: nat): Line
    decreases n
  {
    if n == 0 then l else BrowseTimes(Browse(l, dir), dir, n - 1)
  }

  /** From the live line, `n` steps back show the `n`-th newest filter. */
  lemma {:induction false} BrowseBack(l: Line, n: nat)
    requires l.Ok() && 0 < n <= l.histIdx
    ensures BrowseTimes(l, -1, n) == Line(l.history[l.histIdx - n], |l.history[l.histIdx - n]|, l.history, l.histIdx - n)
    decreases n
  {
    if n > 1 {
      BrowseBack(Browse(l, -1), n - 1);
    }
  }

  /** A word jump to the left ends where a word starts, or at the start of the line. */
  lemma WordLeftIsWordStart(s: string, i: nat)
    requires i <= |s|
    ensures var j := WordLeft(s, i);
            && (j == 0 || IsSpace(s[j - 1]))
            && (j < i && !(forall k :: j <= k < i ==> IsSpace(s[k])) ==> !IsSpace(s[j]))
            && (forall k, n :: j <= k < n < i && IsSpace(s[k]) ==> IsSpace(s[n]))
  {
    var m := RunStart(s, i, true);
    var j := WordLeft(s, i);
    if j < i && j == m {
      assert forall k :: j <= k < i ==> IsSpace(s[k]);
    }
  }
}
