/**
 The explorer as a state machine: key presses, resizes and refreshes; the modes that take the keys; and
 the control calls it makes. A control action runs as a dry run first, and only the confirmation of that
 same action runs it for real.
 */
module TuiGate {
  import opened Options
  import opened QueryModel
  import opened TuiView
  import TuiLine
  import TuiFilter
  import ExprSyntax
  import ExprLexer

  datatype Kind = CtrlNice | CtrlRestoreNice | CtrlStop | CtrlContinue | CtrlFreeze | CtrlThaw

  datatype Request = Request(pids: seq<int>, title: string, target: string, kind: Kind, nice: int, dryRun: bool)

  datatype KeyName =
    | NoName | Up | Down | PgUp | PgDn | LeftKey | RightKey | CtrlLeft | CtrlRight | Home | End
    | Enter | Esc | Tab | BackspaceKey | DeleteKey | CtrlC

  /** A printable key has a rune, a special one a name; the other is zero or none. */
  datatype KeyEvent = KeyEvent(rune: char, name: KeyName)

  const NO_RUNE := '\0'

  /** What the driver wired up, and what the callbacks answer. `autofill` is a suggestion Enter would take. */
  datatype Env = Env(
    hasControl: bool, hasManaged: bool, hasColumns: bool, accepts: Request -> bool,
    rx: ExprSyntax.Patterns, filterable: set<string>,
    autofill: TuiLine.Line -> Option<TuiLine.Fill>, complete: TuiLine.Line -> Option<TuiLine.Fill>)

  datatype Ui = Ui(
    view: View, line: TuiLine.Line, having: string,
    confirming: bool, previewing: bool, niceEditing: bool, editing: bool, colPicker: bool, help: bool, detail: bool,
    pending: Request, niceBuf: string, managed: bool, paused: bool, quit: bool, calls: seq<Request>)

  datatype Event = Press(key: KeyEvent) | Resized(height: int) | Refreshed(result: seq<Row>, hostLines: nat)

  // ---- The processes under a row ----

  /** The owner of one row, 0 when it has none. */
  function OwnerOf(r: Row): int {
    if r.head.process.Some? then r.head.process.value.pid
    else if r.head.thread.Some? then r.head.thread.value.id.process.pid
    else 0
  }

  function AddPid(out: seq<int>, pid: int): seq<int> { if pid != 0 && pid !in out then out + [pid] else out }

  function CollectFrom(out: seq<int>, rows: seq<Row>): seq<int>
    decreases rows
  {
    if rows == [] then out else CollectFrom(Collect(out, rows[0]), rows[1..])
  }

  function Collect(out: seq<int>, r: Row): seq<int>
    decreases r, 0
  {
    CollectFrom(AddPid(out, OwnerOf(r)), r.sub)
  }

  function CollectPids(r: Row): seq<int> { Collect([], r) }

  // ---- Control ----

  function NoRequest(): Request { Request([], "", "", CtrlNice, 0, false) }

  /** A dry run; its success opens the confirmation gate for it. */
  function BeginConfirm(u: Ui, env: Env, req: Request): Ui {
    var dry := req.(dryRun := true);
    if !env.accepts(dry) then u.(calls := u.calls + [dry])
    else u.(calls := u.calls + [dry], pending := dry, confirming := true, previewing := false)
  }

  /** The action asked for on the selected row, none when nothing there can be controlled. */
  function TargetOf(v: View, env: Env, kind: Kind): Option<Request> {
    if !env.hasControl || v.Current().None? then None
    else
      var r := v.Current().value.row;
      if CollectPids(r) == [] then None else Some(Request(CollectPids(r), r.head.title, "", kind, 0, false))
  }

  function StartControl(u: Ui, env: Env, kind: Kind): Ui {
    match TargetOf(u.view, env, kind)
    case None => u
    case Some(req) =>
      if kind == CtrlNice then u.(pending := req, niceEditing := true, niceBuf := "") else BeginConfirm(u, env, req)
  }

  predicate AllDigits(s: string) { forall c :: c in s ==> '0' <= c <= '9' }

  /** A decimal number with an optional sign that fits 64 bits. */
  function ParseInt(s: string): Option<int> {
    var digits := if s != "" && (s[0] == '-' || s[0] == '+') then s[1..] else s;
    if digits == "" || !AllDigits(digits) then None
    else
      var n: int := ExprLexer.DigitsValue(digits);
      var v: int := if s[0] == '-' then -n else n;
      if -0x8000_0000_0000_0000 <= v < 0x8000_0000_0000_0000 then Some(v) else None
  }

  predicate Cancels(k: KeyEvent) { k.name.Esc? || k.name.CtrlC? }

  /** The value typed after a key that does not submit it, and whether typing goes on. */
  function NiceTyped(buf: string, k: KeyEvent): (string, bool) {
    if Cancels(k) then (buf, false)
    else if k.name.BackspaceKey? then (if buf == "" then "" else buf[..|buf| - 1], true)
    else if k.rune == '-' || '0' <= k.rune <= '9' then (buf + [k.rune], true)
    else (buf, true)
  }

  function NiceKey(u: Ui, env: Env, k: KeyEvent): Ui {
    if k.name.Enter? then
      match ParseInt(TuiFilter.TrimSpace(u.niceBuf))
      case None => u
      case Some(n) => BeginConfirm(u.(niceEditing := false, pending := u.pending.(nice := n)), env, u.pending.(nice := n))
    else
      var (buf, on) := NiceTyped(u.niceBuf, k);
      u.(niceBuf := buf, niceEditing := on)
  }

  function ConfirmKey(u: Ui, env: Env, k: KeyEvent): Ui {
    if k.rune == 'y' || k.rune == 'Y' then u.(calls := u.calls + [u.pending.(dryRun := false)], confirming := false)
    else if k.rune == 'v' || k.rune == 'V' then u.(previewing := true)
    else if Cancels(k) || k.rune == 'n' || k.rune == 'N' || k.rune == 'q' then u.(confirming := false)
    else u
  }

  // ---- Editing the filter ----

  function Suggested(l: TuiLine.Line, f: Option<TuiLine.Fill>): TuiLine.Line {
    if l.Ok() && f.Some? && f.value.start <= l.pos then TuiLine.Filled(l, f.value) else l
  }

  /** What a key leaves of the editor: its line, the filter in force, and whether it stays open. */
  datatype Edited = Edited(line: TuiLine.Line, having: string, on: bool)

  function EnterFilter(l: TuiLine.Line, having: string, env: Env): Edited {
    if env.autofill(l).Some? then Edited(Suggested(l, env.autofill(l)), having, true)
    else match TuiFilter.Apply(l.buf, env.rx, env.filterable)
      case Cleared => Edited(l, "", false)
      case Rejected => Edited(l, having, true)
      case Accepted(full) => Edited(TuiLine.Push(l, TuiFilter.TrimSpace(l.buf)), full, false)
  }

  /** Cursor movement and history, none when the key is for something else. */
  function EditNav(l: TuiLine.Line, name: KeyName): Option<TuiLine.Line>
    requires l.Ok()
  {
    if name.LeftKey? then Some(TuiLine.Left(l))
    else if name.RightKey? then Some(TuiLine.Right(l))
    else if name.Home? then Some(l.(pos := 0))
    else if name.End? then Some(l.(pos := |l.buf|))
    else if name.CtrlLeft? then Some(l.(pos := TuiLine.WordLeft(l.buf, l.pos)))
    else if name.CtrlRight? then Some(l.(pos := TuiLine.WordRight(l.buf, l.pos)))
    else if name.Up? then Some(TuiLine.Browse(l, -1))
    else if name.Down? then Some(TuiLine.Browse(l, 1))
    else None
  }

  function EditLine(l: TuiLine.Line, having: string, env: Env, k: KeyEvent): Edited
    requires l.Ok()
  {
    if EditNav(l, k.name).Some? then Edited(EditNav(l, k.name).value, having, true)
    else if k.name.Enter? then EnterFilter(l, having, env)
    else if k.name.Tab? then Edited(Suggested(l, env.complete(l)), having, true)
    else if Cancels(k) then Edited(l, having, false)
    else if k.name.BackspaceKey? then Edited(TuiLine.Backspace(l), having, true)
    else if k.name.DeleteKey? then Edited(TuiLine.Delete(l), having, true)
    else if k.rune != NO_RUNE then Edited(TuiLine.Insert(l, k.rune), having, true)
    else Edited(l, having, true)
  }

  function EditKey(u: Ui, env: Env, k: KeyEvent): Ui
    requires u.line.Ok()
  {
    var e := EditLine(u.line, u.having, env, k);
    u.(line := e.line, having := e.having, editing := e.on)
  }

  // ---- Keys outside every mode ----

  function Look(u: Ui, v: View): Ui { u.(view := v) }

  function TopOfView(v: View): View { v.(cursor := 0, scroll := 0) }

  function NamedView(v: View, name: KeyName): Option<View> {
    if name.Up? then Some(Moved(v, -1))
    else if name.Down? then Some(Moved(v, 1))
    else if name.PgUp? then Some(Moved(v, -v.BodyHeight()))
    else if name.PgDn? then Some(Moved(v, v.BodyHeight()))
    else if name.Enter? then Some(Toggled(v))
    else if name.LeftKey? then Some(FoldOrParent(v))
    else if name.RightKey? then Some(UnfoldOrChild(v))
    else None
  }

  function NamedKey(u: Ui, name: KeyName): Option<Ui> {
    if name.CtrlC? then Some(u.(quit := true))
    else match NamedView(u.view, name) case Some(v) => Some(Look(u, v)) case None => None
  }

  function RuneView(v: View, c: char): Option<View> {
    if c == 'k' then Some(Moved(v, -1))
    else if c == 'j' then Some(Moved(v, 1))
    else if c == 'g' || c == 't' then Some(TopOfView(v))
    else if c == 'c' then Some(FoldAll(v, true))
    else if c == 'C' then Some(FoldAll(v, false))
    else None
  }

  function KindOf(c: char): Option<Kind> {
    if c == 'n' then Some(CtrlNice) else if c == 'N' then Some(CtrlRestoreNice)
    else if c == 'x' then Some(CtrlStop) else if c == 'X' then Some(CtrlContinue)
    else if c == 'z' then Some(CtrlFreeze) else if c == 'Z' then Some(CtrlThaw)
    else None
  }

  /** Keys that open a mode. */
  function OpenKey(u: Ui, env: Env, c: char): Ui {
    if c == 'i' then (if u.view.Current().None? then u else u.(detail := true))
    else if c == '?' then u.(help := true)
    else if c == '/' || c == 'f' then u.(editing := true, line := TuiLine.Start(u.line, u.having))
    else if c == '+' then (if env.hasColumns then u.(colPicker := true) else u)
    else u
  }

  /** Sorting, units, interval, refresh, column removal and dropping leave what is modelled as it is. */
  function FlagKey(u: Ui, env: Env, c: char): Ui {
    if c == 'q' then u.(quit := true)
    else if c == 'p' || c == ' ' then u.(paused := !u.paused)
    else OpenKey(u, env, c)
  }

  function RuneKey(u: Ui, env: Env, c: char): Ui {
    if KindOf(c).Some? then StartControl(u, env, KindOf(c).value)
    else match RuneView(u.view, c)
      case Some(v) => Look(u, v)
      case None => FlagKey(u, env, c)
  }

  function TogglePanel(u: Ui, env: Env): Ui {
    if env.hasManaged then u.(managed := !u.managed, view := TopOfView(u.view)) else u
  }

  function PlainKey(u: Ui, env: Env, k: KeyEvent): Ui {
    if k.name.Tab? then TogglePanel(u, env)
    else match NamedKey(u, k.name)
      case Some(w) => w
      case None => RuneKey(u, env, k.rune)
  }

  /** The first open mode takes the key. */
  function Update(u: Ui, env: Env, k: KeyEvent): Ui
    requires u.line.Ok()
  {
    if u.confirming then (if u.previewing then u.(previewing := false) else ConfirmKey(u, env, k))
    else if u.niceEditing then NiceKey(u, env, k)
    else if u.editing then EditKey(u, env, k)
    else if u.colPicker then (if Cancels(k) then u.(colPicker := false) else u)
    else if u.help then (if k.rune == '?' || k.rune == 'q' || Cancels(k) then u.(help := false) else u)
    else if u.detail then (if k.rune == 'i' || k.rune == 'q' || Cancels(k) then u.(detail := false) else u)
    else PlainKey(u, env, k)
  }

  function Step(u: Ui, env: Env, e: Event): Ui
    requires u.line.Ok()
  {
    match e
    case Press(k) => Update(u, env, k)
    case Resized(h) => u.(view := u.view.(height := h))
    case Refreshed(result, hostLines) => u.(view := WithResult(u.view, result, hostLines))
  }

  function Opening(foldDefault: bool): Ui {
    Ui(View(None, [], 0, 0, map[], foldDefault, false, 24, 0), TuiLine.Line("", 0, [], 0), "",
       false, false, false, false, false, false, false, NoRequest(), "", false, false, false, [])
  }
}
