/**
 What holds in every run of the explorer: one mode at a time; every real control call right after the dry
 run of the same action, by a "y" in its confirmation gate; positions in range.
 */
module TuiSafety {
  import opened Options
  import opened QueryModel
  import opened TuiView
  import opened TuiGate
  import opened TuiFold
  import TuiLine
  import TuiFilter

  function Count(b: bool): nat { if b then 1 else 0 }

  function OpenModes(u: Ui): nat {
    Count(u.confirming) + Count(u.niceEditing) + Count(u.editing) + Count(u.colPicker) + Count(u.help) + Count(u.detail)
  }

  /** At most one mode is open, and the forecast is shown only over the confirmation gate. */
  predicate OneMode(u: Ui) { OpenModes(u) <= 1 && (u.previewing ==> u.confirming) }

  /** An open gate is for the action whose dry run was the last control call. */
  predicate GateIsForLastCall(u: Ui) {
    u.confirming ==> u.calls != [] && u.calls[|u.calls| - 1] == u.pending && u.pending.dryRun
  }

  /** Every real call comes right after the dry run of the same pids, kind, target and nice. */
  ghost predicate DryRunFirst(calls: seq<Request>) {
    forall i :: 0 <= i < |calls| && !calls[i].dryRun ==> i > 0 && calls[i - 1] == calls[i].(dryRun := true)
  }

  predicate CursorOk(v: View) { v.cursor >= 0 && v.scroll >= 0 }

  ghost predicate Inv(u: Ui) {
    OneMode(u) && GateIsForLastCall(u) && DryRunFirst(u.calls) && u.line.Ok() && CursorOk(u.view)
  }

  /** At most one call, a dry run unless it is the confirmation of the last one. */
  ghost predicate CallsWell(u: Ui, w: Ui) {
    || w.calls == u.calls
    || (exists r: Request :: r.dryRun && w.calls == u.calls + [r])
    || (u.confirming && !u.previewing && w.calls == u.calls + [u.pending.(dryRun := false)])
  }

  lemma CallsKeep(u: Ui, w: Ui)
    requires GateIsForLastCall(u) && DryRunFirst(u.calls) && CallsWell(u, w)
    ensures DryRunFirst(w.calls)
  {
  }

  lemma BeginConfirmKeeps(u: Ui, env: Env, req: Request)
    requires OpenModes(u) == 0 && !u.previewing
    ensures var w := BeginConfirm(u, env, req);
            && OneMode(w) && GateIsForLastCall(w) && CallsWell(u, w) && w.line == u.line && w.view == u.view
  {
    var dry := req.(dryRun := true);
    assert dry.dryRun;
  }

  lemma StartControlKeeps(u: Ui, env: Env, kind: Kind)
    requires OpenModes(u) == 0 && !u.previewing
    ensures var w := StartControl(u, env, kind);
            && OneMode(w) && GateIsForLastCall(w) && CallsWell(u, w) && w.line == u.line && w.view == u.view
  {
    hide BeginConfirm, TargetOf;
    var req := TargetOf(u.view, env, kind);
    if req.Some? {
      BeginConfirmKeeps(u, env, req.value);
    }
  }

  /** A step that moves only modes, and calls nothing or calls well. */
  lemma KeptBy(u: Ui, w: Ui)
    requires Inv(u) && OneMode(w) && GateIsForLastCall(w) && CallsWell(u, w) && w.line.Ok() && CursorOk(w.view)
    ensures Inv(w)
  {
    hide OneMode, CallsWell, DryRunFirst;
    CallsKeep(u, w);
  }

  lemma NiceEditedKeeps(u: Ui, buf: string, on: bool)
    requires Inv(u) && u.niceEditing
    ensures Inv(u.(niceBuf := buf, niceEditing := on)) && CallsWell(u, u.(niceBuf := buf, niceEditing := on))
  {
    hide DryRunFirst;
  }

  lemma NiceEnterKeeps(u: Ui, env: Env, n: int)
    requires Inv(u) && u.niceEditing
    ensures var w := BeginConfirm(u.(niceEditing := false, pending := u.pending.(nice := n)), env, u.pending.(nice := n));
            Inv(w) && CallsWell(u, w) && w.view == u.view
  {
    hide BeginConfirm, DryRunFirst, CallsWell;
    var v := u.(niceEditing := false, pending := u.pending.(nice := n));
    var w := BeginConfirm(v, env, u.pending.(nice := n));
    BeginConfirmKeeps(v, env, u.pending.(nice := n));
    CallsFromSame(u, v, w);
    KeptBy(u, w);
  }

  lemma NiceKeyKeeps(u: Ui, env: Env, k: KeyEvent)
    requires Inv(u) && u.niceEditing
    ensures Inv(NiceKey(u, env, k)) && CallsWell(u, NiceKey(u, env, k)) && NiceKey(u, env, k).view == u.view
  {
    hide BeginConfirm, ParseInt, TuiFilter.TrimSpace, NiceTyped, Inv, CallsWell;
    SameCalls(u, u);
    var n := ParseInt(TuiFilter.TrimSpace(u.niceBuf));
    if k.name.Enter? {
      if n.Some? {
        NiceEnterKeeps(u, env, n.value);
      }
    } else {
      var (buf, on) := NiceTyped(u.niceBuf, k);
      NiceEditedKeeps(u, buf, on);
    }
  }

  lemma SameCalls(u: Ui, w: Ui)
    ensures w.calls == u.calls ==> CallsWell(u, w)
  {
  }

  lemma CallsFromSame(u: Ui, v: Ui, w: Ui)
    requires CallsWell(v, w) && v.calls == u.calls && !v.confirming
    ensures CallsWell(u, w)
  {
  }

  lemma ConfirmKeyKeeps(u: Ui, env: Env, k: KeyEvent)
    requires Inv(u) && u.confirming && !u.previewing
    ensures Inv(ConfirmKey(u, env, k)) && CallsWell(u, ConfirmKey(u, env, k)) && ConfirmKey(u, env, k).view == u.view
  {
    hide DryRunFirst;
    KeptBy(u, ConfirmKey(u, env, k));
  }

  lemma EditNavOk(l: TuiLine.Line, name: KeyName)
    requires l.Ok() && EditNav(l, name).Some?
    ensures EditNav(l, name).value.Ok()
  {
    hide TuiLine.WordLeft, TuiLine.WordRight;
    TuiLine.EditingStaysOk(l, ' ', -1, "", TuiLine.Fill(0, ""));
    TuiLine.EditingStaysOk(l, ' ', 1, "", TuiLine.Fill(0, ""));
  }

  lemma EnterFilterOk(l: TuiLine.Line, having: string, env: Env)
    requires l.Ok()
    ensures EnterFilter(l, having, env).line.Ok()
  {
    hide TuiFilter.Apply, TuiFilter.TrimSpace;
    SuggestedOk(l, env.autofill(l));
    TuiLine.EditingStaysOk(l, ' ', 1, TuiFilter.TrimSpace(l.buf), TuiLine.Fill(0, ""));
  }

  lemma EditLineOk(l: TuiLine.Line, having: string, env: Env, k: KeyEvent)
    requires l.Ok()
    ensures EditLine(l, having, env, k).line.Ok()
  {
    hide EnterFilter, EditNav, TuiLine.Backspace, TuiLine.Delete, TuiLine.Insert, Suggested;
    if EditNav(l, k.name).Some? {
      EditNavOk(l, k.name);
    }
    EnterFilterOk(l, having, env);
    TuiLine.EditingStaysOk(l, k.rune, 1, "", TuiLine.Fill(0, ""));
    SuggestedOk(l, env.complete(l));
  }

  lemma EditKeyKeeps(u: Ui, env: Env, k: KeyEvent)
    requires Inv(u) && u.editing
    ensures Inv(EditKey(u, env, k)) && EditKey(u, env, k).calls == u.calls && EditKey(u, env, k).view == u.view
  {
    hide EditLine, DryRunFirst;
    EditLineOk(u.line, u.having, env, k);
  }

  lemma SuggestedOk(l: TuiLine.Line, f: Option<TuiLine.Fill>)
    requires l.Ok()
    ensures Suggested(l, f).Ok()
  {
  }

  lemma MovesKeepCursor(v: View, delta: int, on: bool)
    requires CursorOk(v)
    ensures CursorOk(Moved(v, delta)) && CursorOk(Toggled(v)) && CursorOk(FoldOrParent(v)) && CursorOk(UnfoldOrChild(v))
    ensures CursorOk(FoldAll(v, on)) && CursorOk(TopOfView(v))
  {
    hide Rebuilt, Moved, ToParent;
    MovedInWindow(v, delta);
    MovedInWindow(v, 1);
    ToParentCursor(v);
    RebuiltInWindow(v.(foldDefault := on, collapsed := map[]));
    if v.Current().Some? {
      var p := v.Current().value.path;
      RebuiltInWindow(v.(collapsed := v.collapsed[p := true]));
      RebuiltInWindow(v.(collapsed := v.collapsed[p := false]));
    }
  }

  lemma ToParentCursor(v: View)
    requires CursorOk(v)
    ensures CursorOk(ToParent(v))
  {
  }

  lemma LookKeeps(u: Ui, v: View)
    requires Inv(u) && CursorOk(v)
    ensures Inv(Look(u, v))
  {
    hide DryRunFirst;
  }

  lemma NamedViewOk(v: View, name: KeyName)
    requires CursorOk(v) && NamedView(v, name).Some?
    ensures CursorOk(NamedView(v, name).value)
  {
    hide Moved, Toggled, FoldOrParent, UnfoldOrChild, CursorOk;
    MovesKeepCursor(v, -1, true);
    MovesKeepCursor(v, 1, true);
    MovesKeepCursor(v, v.BodyHeight(), true);
    MovesKeepCursor(v, -v.BodyHeight(), true);
  }

  lemma NamedKeyKeeps(u: Ui, name: KeyName)
    requires Inv(u) && OpenModes(u) == 0 && NamedKey(u, name).Some?
    ensures Inv(NamedKey(u, name).value) && NamedKey(u, name).value.calls == u.calls
  {
    hide NamedView, DryRunFirst;
    if NamedView(u.view, name).Some? {
      NamedViewOk(u.view, name);
      LookKeeps(u, NamedView(u.view, name).value);
    }
  }

  lemma RuneViewOk(v: View, c: char)
    requires CursorOk(v) && RuneView(v, c).Some?
    ensures CursorOk(RuneView(v, c).value)
  {
    hide Moved, FoldAll, CursorOk;
    MovesKeepCursor(v, -1, true);
    MovesKeepCursor(v, 1, false);
  }

  lemma FlagKeyKeeps(u: Ui, env: Env, c: char)
    requires Inv(u) && OpenModes(u) == 0
    ensures Inv(FlagKey(u, env, c)) && FlagKey(u, env, c).calls == u.calls
  {
    hide DryRunFirst;
  }

  lemma RuneKeyKeeps(u: Ui, env: Env, c: char)
    requires Inv(u) && OpenModes(u) == 0
    ensures Inv(RuneKey(u, env, c)) && CallsWell(u, RuneKey(u, env, c))
  {
    hide StartControl, RuneView, FlagKey, DryRunFirst, CallsWell;
    SameCalls(u, RuneKey(u, env, c));
    if KindOf(c).Some? {
      StartControlKeeps(u, env, KindOf(c).value);
      KeptBy(u, StartControl(u, env, KindOf(c).value));
    } else if RuneView(u.view, c).Some? {
      RuneViewOk(u.view, c);
      LookKeeps(u, RuneView(u.view, c).value);
    } else {
      FlagKeyKeeps(u, env, c);
    }
  }

  lemma UpdateKeeps(u: Ui, env: Env, k: KeyEvent)
    requires Inv(u)
    ensures Inv(Update(u, env, k)) && CallsWell(u, Update(u, env, k))
  {
    hide NiceKey, ConfirmKey, EditKey, NamedKey, RuneKey, DryRunFirst;
    if u.confirming {
      if !u.previewing {
        ConfirmKeyKeeps(u, env, k);
      }
    } else if u.niceEditing {
      NiceKeyKeeps(u, env, k);
    } else if u.editing {
      EditKeyKeeps(u, env, k);
    } else if u.colPicker || u.help || u.detail {
    } else if !k.name.Tab? {
      if NamedKey(u, k.name).Some? {
        NamedKeyKeeps(u, k.name);
      } else {
        RuneKeyKeeps(u, env, k.rune);
      }
    }
  }

  lemma StepKeeps(u: Ui, env: Env, e: Event)
    requires Inv(u)
    ensures Inv(Step(u, env, e)) && CallsWell(u, Step(u, env, e))
  {
    hide Update, Rebuilt, DryRunFirst;
    match e
    case Press(k) => UpdateKeeps(u, env, k);
    case Resized(_) =>
    case Refreshed(result, hostLines) => RebuiltInWindow(u.view.(result := Some(result), hostLines := hostLines));
  }

  // ---- Runs ----

  /** The state after each event is `states[i + 1]`. What is wired up and answered may differ at every event. */
  ghost predicate IsRun(states: seq<Ui>, events: seq<(Env, Event)>, foldDefault: bool) {
    && |states| == |events| + 1 && states[0] == Opening(foldDefault)
    && (forall i :: 0 <= i < |events| ==> states[i].line.Ok() && states[i + 1] == Step(states[i], events[i].0, events[i].1))
  }

  lemma {:induction false} RunKeeps(states: seq<Ui>, events: seq<(Env, Event)>, foldDefault: bool, i: nat)
    requires IsRun(states, events, foldDefault) && i < |states|
    ensures Inv(states[i])
  {
    if i > 0 {
      RunKeeps(states, events, foldDefault, i - 1);
      StepKeeps(states[i - 1], events[i - 1].0, events[i - 1].1);
    }
  }

  /** In every run, each real control call immediately follows the dry run of the same action. */
  lemma DryRunBeforeReal(states: seq<Ui>, events: seq<(Env, Event)>, foldDefault: bool, i: nat)
    requires IsRun(states, events, foldDefault) && i < |states|
    ensures DryRunFirst(states[i].calls)
  {
    RunKeeps(states, events, foldDefault, i);
  }

  /** In every run, at most one mode is open, and the forecast implies the confirmation gate. */
  lemma OneModeAlways(states: seq<Ui>, events: seq<(Env, Event)>, foldDefault: bool, i: nat)
    requires IsRun(states, events, foldDefault) && i < |states|
    ensures OneMode(states[i])
  {
    RunKeeps(states, events, foldDefault, i);
  }

  /** A real control call happens only on "y" in an open gate, and it is the action the gate is for. */
  lemma OnlyConfirmationActs(states: seq<Ui>, events: seq<(Env, Event)>, foldDefault: bool, i: nat)
    requires IsRun(states, events, foldDefault) && i < |events|
    requires |states[i + 1].calls| > |states[i].calls| && !states[i + 1].calls[|states[i + 1].calls| - 1].dryRun
    ensures states[i].confirming && !states[i].previewing && events[i].1.Press?
    ensures events[i].1.key.rune == 'y' || events[i].1.key.rune == 'Y'
    ensures states[i + 1].calls == states[i].calls + [states[i].pending.(dryRun := false)]
    ensures states[i].calls != [] && states[i].calls[|states[i].calls| - 1] == states[i].pending
  {
    RunKeeps(states, events, foldDefault, i);
    StepKeeps(states[i], events[i].0, events[i].1);
    ConfirmedByY(states[i], events[i].0, events[i].1);
  }

  lemma ConfirmedByY(u: Ui, env: Env, e: Event)
    requires Inv(u) && u.confirming && !u.previewing && Step(u, env, e).calls != u.calls
    ensures e.Press? && (e.key.rune == 'y' || e.key.rune == 'Y')
  {
    hide Rebuilt;
  }

  // ---- The pids of a request ----

  /** Some row at or under `r` is owned by `pid`. */
  predicate Owns(r: Row, pid: int) { OwnerOf(r) == pid || OwnsAny(r.sub, pid) }

  predicate OwnsAny(rows: seq<Row>, pid: int) { exists r :: r in rows && Owns(r, pid) }

  ghost predicate Once(s: seq<int>) { forall i, j :: 0 <= i < j < |s| ==> s[i] != s[j] }

  lemma {:induction false} CollectFromExactly(out: seq<int>, rows: seq<Row>, pid: int)
    requires Once(out)
    ensures Once(CollectFrom(out, rows))
    ensures pid in CollectFrom(out, rows) <==> pid in out || (pid != 0 && OwnsAny(rows, pid))
    decreases rows
  {
    if rows != [] {
      CollectExactly(out, rows[0], pid);
      CollectFromExactly(Collect(out, rows[0]), rows[1..], pid);
      assert forall r :: r in rows <==> r == rows[0] || r in rows[1..];
    }
  }

  lemma {:induction false} CollectExactly(out: seq<int>, r: Row, pid: int)
    requires Once(out)
    ensures Once(Collect(out, r))
    ensures pid in Collect(out, r) <==> pid in out || (pid != 0 && Owns(r, pid))
    decreases r, 0
  {
    CollectFromExactly(AddPid(out, OwnerOf(r)), r.sub, pid);
  }

  /** An action is asked for exactly the processes at or under the selected row, each once. */
  lemma PidsUnderRow(r: Row, pid: int)
    ensures Once(CollectPids(r)) && (pid in CollectPids(r) <==> pid != 0 && Owns(r, pid))
  {
    CollectExactly([], r, pid);
  }
}
