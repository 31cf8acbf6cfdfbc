/** The explorer's model object: its fields, and the methods that change them, against the state machine. */
module TuiModel {
  import opened Options
  import opened QueryModel
  import opened Sequences
  import opened TuiView
  import opened TuiGate
  import TuiLine
  import TuiFilter

  lemma WalkStep(rows: seq<Row>, i: nat, fold: Fold, depth: nat, parent: string)
    requires i < |rows|
    ensures Flatten(rows[i..], fold, depth, parent) ==
            [RowAt(rows[i], fold, depth, parent)] + (Below(rows[i], fold, depth, parent) + Flatten(rows[i + 1..], fold, depth, parent))
  {
    assert rows[i..] == [rows[i]] + rows[i + 1..];
    FlattenStep(rows[i], rows[i + 1..], fold, depth, parent);
  }

  lemma WalkEnd(rows: seq<Row>, fold: Fold, depth: nat, parent: string)
    ensures rows[|rows|..] == [] && Flatten(rows[|rows|..], fold, depth, parent) == [] && rows[0..] == rows
  {
  }

  method CollectRows(out: seq<int>, rows: seq<Row>) returns (r: seq<int>)
    ensures r == CollectFrom(out, rows)
    decreases rows
  {
    r := out;
    for i := 0 to |rows|
      invariant CollectFrom(r, rows[i..]) == CollectFrom(out, rows)
    {
      assert rows[i..][0] == rows[i] && rows[i..][1..] == rows[i + 1..];
      r := WalkPids(r, rows[i]);
    }
  }

  /** The distinct owners at and under a row, in the order they are met. */
  method WalkPids(out: seq<int>, n: Row) returns (r: seq<int>)
    ensures r == Collect(out, n)
    decreases n, 0
  {
    var pid := 0;
    if n.head.process.Some? {
      pid := n.head.process.value.pid;
    } else if n.head.thread.Some? {
      pid := n.head.thread.value.id.process.pid;
    }
    r := out;
    if pid != 0 && pid !in r {
      r := r + [pid];
    }
    r := CollectRows(r, n.sub);
  }

  method HasGroups(rows: seq<VRow>) returns (grouped: bool)
    ensures grouped == AnyGroup(rows)
  {
    grouped := false;
    for i := 0 to |rows|
      invariant grouped <==> exists k :: 0 <= k < i && (rows[k].row.head.kind == GROUP || rows[k].row.head.kind == HOST)
    {
      if rows[i].row.head.kind == GROUP || rows[i].row.head.kind == HOST {
        grouped := true;
      }
    }
  }

  /** The tree of rows: what is visible, the cursor and the window. */
  class Tree {
    var result: Option<seq<Row>>
    var rows: seq<VRow>
    var cursor: int
    var scroll: int
    var collapsed: map<string, bool>
    var foldDefault: bool
    var hasGroups: bool
    var height: int
    var hostLines: nat

    ghost function V(): View
      reads this
    {
      View(result, rows, cursor, scroll, collapsed, foldDefault, hasGroups, height, hostLines)
    }

    constructor (foldDefault: bool)
      ensures V() == View(None, [], 0, 0, map[], foldDefault, false, 24, 0)
    {
      result, rows, cursor, scroll, collapsed := None, [], 0, 0, map[];
      this.foldDefault, hasGroups, height, hostLines := foldDefault, false, 24, 0;
    }

    method BodyHeight() returns (h: int)
      ensures h == V().BodyHeight()
    {
      h := height - 3;
      if hostLines > 0 {
        h := h - (hostLines + 1);
      }
      if h < 1 {
        h := 1;
      }
    }

    method ClampScroll()
      modifies this`scroll
      ensures V() == TuiView.ClampScroll(old(V()))
    {
      var body := BodyHeight();
      if cursor < scroll {
        scroll := cursor;
      }
      if cursor >= scroll + body {
        scroll := cursor - body + 1;
      }
      if scroll < 0 {
        scroll := 0;
      }
    }

    method IsCollapsed(path: string) returns (b: bool)
      ensures b == V().IsCollapsed(path) == FoldOf(collapsed, foldDefault)(path)
    {
      b := foldDefault;
      if path in collapsed {
        b := collapsed[path];
      }
    }

    /** Depth-first over the forest, in order, not into folded groups. */
    method Walk(forest: seq<Row>, depth: nat, parent: string) returns (out: seq<VRow>)
      ensures out == Flatten(forest, FoldOf(collapsed, foldDefault), depth, parent)
      decreases forest
    {
      hide Flatten;
      ghost var fold := FoldOf(collapsed, foldDefault);
      out := [];
      WalkEnd(forest, fold, depth, parent);
      for i := 0 to |forest|
        invariant fold == FoldOf(collapsed, foldDefault)
        invariant out + Flatten(forest[i..], fold, depth, parent) == Flatten(forest, fold, depth, parent)
      {
        ghost var before := out;
        var r := forest[i];
        var path := parent + SEP + r.head.key;
        var kids := |r.sub| > 0;
        var folded := false;
        if kids {
          folded := IsCollapsed(path);
        }
        out := out + [VRow(r, depth, path, kids, folded)];
        if kids && !folded {
          var below := Walk(r.sub, depth + 1, path);
          out := out + below;
        }
        WalkStep(forest, i, fold, depth, parent);
        Regroup4(before, [RowAt(r, fold, depth, parent)], Below(r, fold, depth, parent), Flatten(forest[i + 1..], fold, depth, parent));
      }
    }

    method RebuildRows()
      modifies this`rows, this`hasGroups, this`cursor, this`scroll
      ensures V() == Rebuilt(old(V()))
    {
      hide Flatten, FoldOf;
      match result {
        case None =>
          rows := [];
        case Some(forest) =>
          var out := Walk(forest, 0, "");
          var grouped := HasGroups(out);
          rows := out;
          hasGroups := grouped;
      }
      if cursor >= |rows| {
        cursor := if |rows| > 0 then |rows| - 1 else 0;
      }
      ClampScroll();
    }

    method SetSize(h: int)
      modifies this`height
      ensures V() == old(V()).(height := h)
    {
      height := h;
    }

    method SetResult(forest: seq<Row>, lines: nat)
      modifies this`result, this`hostLines, this`rows, this`hasGroups, this`cursor, this`scroll
      ensures V() == WithResult(old(V()), forest, lines)
    {
      hide Rebuilt;
      result := Some(forest);
      hostLines := lines;
      RebuildRows();
    }

    method SetCollapsed(path: string, v: bool)
      modifies this`collapsed, this`rows, this`hasGroups, this`cursor, this`scroll
      ensures V() == WithFold(old(V()), path, v)
    {
      hide Rebuilt;
      collapsed := collapsed[path := v];
      RebuildRows();
    }

    method FoldAll(v: bool)
      modifies this`collapsed, this`foldDefault, this`rows, this`hasGroups, this`cursor, this`scroll
      ensures V() == TuiView.FoldAll(old(V()), v)
    {
      hide Rebuilt;
      if !hasGroups {
        return;
      }
      foldDefault := v;
      collapsed := map[];
      RebuildRows();
    }

    method MoveCursor(delta: int)
      modifies this`cursor, this`scroll
      ensures V() == Moved(old(V()), delta)
    {
      cursor := cursor + delta;
      if cursor < 0 {
        cursor := 0;
      }
      if cursor >= |rows| {
        cursor := if |rows| > 0 then |rows| - 1 else 0;
      }
      ClampScroll();
    }

    method CurrentRow() returns (r: Option<VRow>)
      ensures r == V().Current()
    {
      r := if cursor < 0 || cursor >= |rows| then None else Some(rows[cursor]);
    }

    method ToggleCollapse()
      modifies this`collapsed, this`rows, this`hasGroups, this`cursor, this`scroll
      ensures V() == Toggled(old(V()))
    {
      hide WithFold;
      var r := CurrentRow();
      if r.None? || !r.value.hasKids {
        return;
      }
      var folded := IsCollapsed(r.value.path);
      SetCollapsed(r.value.path, !folded);
    }

    method MoveToParent()
      modifies this`cursor, this`scroll
      ensures V() == ToParent(old(V()))
    {
      var r := CurrentRow();
      if r.None? {
        return;
      }
      var i := cursor;
      while i > 0
        invariant 0 <= i <= cursor == old(cursor) && V() == old(V())
        invariant Nearest(rows, cursor, cursor) == Nearest(rows, cursor, i)
      {
        i := i - 1;
        if rows[i].depth < r.value.depth {
          cursor := i;
          ClampScroll();
          return;
        }
      }
    }

    method CollapseOrParent()
      modifies this`collapsed, this`rows, this`hasGroups, this`cursor, this`scroll
      ensures V() == FoldOrParent(old(V()))
    {
      hide WithFold, ToParent;
      var r := CurrentRow();
      if r.None? {
        return;
      }
      var folded := IsCollapsed(r.value.path);
      if r.value.hasKids && !folded {
        SetCollapsed(r.value.path, true);
        return;
      }
      MoveToParent();
    }

    method ExpandOrChild()
      modifies this`collapsed, this`rows, this`hasGroups, this`cursor, this`scroll
      ensures V() == UnfoldOrChild(old(V()))
    {
      hide WithFold, Moved;
      var r := CurrentRow();
      if r.None? || !r.value.hasKids {
        return;
      }
      var folded := IsCollapsed(r.value.path);
      if folded {
        SetCollapsed(r.value.path, false);
        return;
      }
      MoveCursor(1);
    }

    method ToTop()
      modifies this`cursor, this`scroll
      ensures V() == TopOfView(old(V()))
    {
      cursor, scroll := 0, 0;
    }

    method NameKey(name: KeyName) returns (consumed: bool)
      modifies this
      ensures consumed == NamedView(old(V()), name).Some?
      ensures V() == if consumed then NamedView(old(V()), name).value else old(V())
    {
      hide V, Moved, Toggled, FoldOrParent, UnfoldOrChild;
      consumed := true;
      match name {
        case Up =>
          MoveCursor(-1);
        case Down =>
          MoveCursor(1);
        case PgUp =>
          var h := BodyHeight();
          MoveCursor(-h);
        case PgDn =>
          var h := BodyHeight();
          MoveCursor(h);
        case Enter =>
          ToggleCollapse();
        case LeftKey =>
          CollapseOrParent();
        case RightKey =>
          ExpandOrChild();
        case _ =>
          consumed := false;
      }
    }

    method RuneKey(c: char) returns (consumed: bool)
      modifies this
      ensures consumed == RuneView(old(V()), c).Some?
      ensures V() == if consumed then RuneView(old(V()), c).value else old(V())
    {
      hide V, Moved, TuiView.FoldAll;
      consumed := true;
      if c == 'k' {
        MoveCursor(-1);
      } else if c == 'j' {
        MoveCursor(1);
      } else if c == 'g' || c == 't' {
        ToTop();
      } else if c == 'c' {
        FoldAll(true);
      } else if c == 'C' {
        FoldAll(false);
      } else {
        consumed := false;
      }
    }
  }

  /** The filter line: its buffer, the cursor in it, and the history. */
  class FilterLine {
    var editBuf: string
    var editPos: int
    var history: seq<string>
    var histIdx: int

    ghost function L(): TuiLine.Line
      reads this
    {
      TuiLine.Line(editBuf, editPos, history, histIdx)
    }

    constructor ()
      ensures L() == TuiLine.Line("", 0, [], 0)
    {
      editBuf, editPos, history, histIdx := "", 0, [], 0;
    }

    method Start(text: string)
      modifies this`editBuf, this`editPos, this`histIdx
      ensures L() == TuiLine.Start(old(L()), text)
    {
      editBuf := text;
      editPos := |editBuf|;
      histIdx := |history|;
    }

    method WordLeft() returns (i: nat)
      requires L().Ok()
      ensures i == TuiLine.WordLeft(editBuf, editPos)
    {
      i := editPos;
      while i > 0 && TuiLine.IsSpace(editBuf[i - 1])
        invariant i <= |editBuf| && TuiLine.RunStart(editBuf, i, true) == TuiLine.RunStart(editBuf, editPos, true)
      {
        i := i - 1;
      }
      ghost var m := i;
      while i > 0 && !TuiLine.IsSpace(editBuf[i - 1])
        invariant i <= |editBuf| && TuiLine.RunStart(editBuf, i, false) == TuiLine.RunStart(editBuf, m, false)
      {
        i := i - 1;
      }
    }

    method WordRight() returns (i: nat)
      requires L().Ok()
      ensures i == TuiLine.WordRight(editBuf, editPos)
    {
      i := editPos;
      while i < |editBuf| && TuiLine.IsSpace(editBuf[i])
        invariant i <= |editBuf| && TuiLine.RunEnd(editBuf, i, true) == TuiLine.RunEnd(editBuf, editPos, true)
      {
        i := i + 1;
      }
      ghost var m := i;
      while i < |editBuf| && !TuiLine.IsSpace(editBuf[i])
        invariant i <= |editBuf| && TuiLine.RunEnd(editBuf, i, false) == TuiLine.RunEnd(editBuf, m, false)
      {
        i := i + 1;
      }
    }

    method HistoryMove(dir: int)
      modifies this`histIdx, this`editBuf, this`editPos
      ensures L() == TuiLine.Browse(old(L()), dir)
    {
      histIdx := histIdx + dir;
      if histIdx < 0 {
        histIdx := 0;
      }
      if histIdx >= |history| {
        histIdx := |history|;
        editBuf := "";
      } else {
        editBuf := history[histIdx];
      }
      editPos := |editBuf|;
    }

    method EditNav(name: KeyName) returns (consumed: bool)
      requires L().Ok()
      modifies this`histIdx, this`editBuf, this`editPos
      ensures consumed == TuiGate.EditNav(old(L()), name).Some?
      ensures L() == if consumed then TuiGate.EditNav(old(L()), name).value else old(L())
    {
      hide TuiLine.WordLeft, TuiLine.WordRight;
      consumed := true;
      match name {
        case LeftKey =>
          editPos := if editPos > 0 then editPos - 1 else 0;
        case RightKey =>
          editPos := if editPos < |editBuf| then editPos + 1 else |editBuf|;
        case Home =>
          editPos := 0;
        case End =>
          editPos := |editBuf|;
        case CtrlLeft =>
          editPos := WordLeft();
        case CtrlRight =>
          editPos := WordRight();
        case Up =>
          HistoryMove(-1);
        case Down =>
          HistoryMove(1);
        case _ =>
          consumed := false;
      }
    }

    method EditInsert(c: char)
      requires L().Ok()
      modifies this`editBuf, this`editPos
      ensures L() == TuiLine.Insert(old(L()), c)
    {
      editBuf := editBuf[..editPos] + [c] + editBuf[editPos..];
      editPos := editPos + 1;
    }

    method EditBackspace()
      requires L().Ok()
      modifies this`editBuf, this`editPos
      ensures L() == TuiLine.Backspace(old(L()))
    {
      if editPos == 0 || |editBuf| == 0 {
        return;
      }
      editBuf := editBuf[..editPos - 1] + editBuf[editPos..];
      editPos := editPos - 1;
    }

    method EditDelete()
      requires L().Ok()
      modifies this`editBuf
      ensures L() == TuiLine.Delete(old(L()))
    {
      if editPos >= |editBuf| {
        return;
      }
      editBuf := editBuf[..editPos] + editBuf[editPos + 1..];
    }

    method Suggest(f: Option<TuiLine.Fill>)
      requires L().Ok()
      modifies this`editBuf, this`editPos
      ensures L() == Suggested(old(L()), f)
    {
      if f.Some? && f.value.start <= editPos {
        editBuf := editBuf[..f.value.start] + f.value.text + editBuf[editPos..];
        editPos := f.value.start + |f.value.text|;
      }
    }

    method PushHistory(s: string)
      modifies this`history, this`histIdx
      ensures L() == TuiLine.Push(old(L()), s)
    {
      if |history| == 0 || history[|history| - 1] != s {
        history := history + [s];
      }
      histIdx := |history|;
    }
  }

  /** The rest of the model, over its tree and its filter line. */
  class Model {
    const tree: Tree
    const filter: FilterLine
    var having: string
    var confirming: bool
    var previewing: bool
    var niceEditing: bool
    var editing: bool
    var colPicker: bool
    var help: bool
    var detail: bool
    var pending: Request
    var niceBuf: string
    var managed: bool
    var paused: bool
    var quit: bool
    ghost var calls: seq<Request>

    ghost function Abs(): Ui
      reads this, tree, filter
    {
      Ui(tree.V(), filter.L(), having, confirming, previewing, niceEditing, editing, colPicker, help, detail,
         pending, niceBuf, managed, paused, quit, calls)
    }

    constructor (foldDefault: bool)
      ensures Abs() == Opening(foldDefault) && fresh(tree) && fresh(filter)
    {
      tree := new Tree(foldDefault);
      filter := new FilterLine();
      having := "";
      confirming, previewing, niceEditing, editing := false, false, false, false;
      colPicker, help, detail := false, false, false;
      pending, niceBuf, managed, paused, quit, calls := NoRequest(), "", false, false, false, [];
    }

    // ---- The filter ----

    ghost function E(): Edited
      reads this, filter
    {
      Edited(filter.L(), having, editing)
    }

    method ApplyFilter(env: Env)
      requires editing && env.autofill(filter.L()).None?
      modifies this`having, this`editing, filter
      ensures E() == TuiGate.EnterFilter(old(filter.L()), old(having), env)
    {
      hide TuiFilter.TrimSpace, TuiFilter.Apply, TuiLine.Push;
      var r := TuiFilter.Apply(filter.editBuf, env.rx, env.filterable);
      match r {
        case Cleared =>
          editing := false;
          having := "";
        case Rejected =>
        case Accepted(full) =>
          editing := false;
          having := full;
          filter.PushHistory(TuiFilter.TrimSpace(filter.editBuf));
      }
    }

    method EditKey(env: Env, k: KeyEvent)
      requires editing && filter.L().Ok()
      modifies this`having, this`editing, filter
      ensures E() == EditLine(old(filter.L()), old(having), env, k)
    {
      hide TuiGate.EditNav, EnterFilter, Suggested, TuiLine.Insert, TuiLine.Backspace, TuiLine.Delete;
      EnterTakes(filter.L(), having, env);
      var consumed := filter.EditNav(k.name);
      if consumed {
        return;
      }
      var line := TuiLine.Line(filter.editBuf, filter.editPos, filter.history, filter.histIdx);
      if k.name.Enter? {
        var fill := env.autofill(line);
        if fill.Some? {
          filter.Suggest(fill);
        } else {
          ApplyFilter(env);
        }
      } else if k.name.Tab? {
        filter.Suggest(env.complete(line));
      } else if Cancels(k) {
        editing := false;
      } else if k.name.BackspaceKey? {
        filter.EditBackspace();
      } else if k.name.DeleteKey? {
        filter.EditDelete();
      } else if k.rune != NO_RUNE {
        filter.EditInsert(k.rune);
      }
    }

    // ---- Control ----

    /** One call of the control callback. */
    method Control(env: Env, req: Request) returns (ok: bool)
      modifies this`calls
      ensures ok == env.accepts(req) && calls == old(calls) + [req]
    {
      calls := calls + [req];
      ok := env.accepts(req);
    }

    method BeginConfirm(env: Env, req: Request)
      modifies this`calls, this`pending, this`confirming, this`previewing
      ensures Abs() == TuiGate.BeginConfirm(old(Abs()), env, req)
    {
      var dry := req.(dryRun := true);
      var ok := Control(env, dry);
      if !ok {
        return;
      }
      pending := dry;
      confirming := true;
      previewing := false;
    }

    /** The action asked for on the selected row, none when nothing there can be controlled. */
    method ControlTarget(env: Env, kind: Kind) returns (req: Option<Request>)
      ensures req == TargetOf(tree.V(), env, kind)
    {
      hide Collect;
      if !env.hasControl {
        return None;
      }
      var r := tree.CurrentRow();
      if r.None? {
        return None;
      }
      var pids := WalkPids([], r.value.row);
      if |pids| == 0 {
        return None;
      }
      req := Some(Request(pids, r.value.row.head.title, "", kind, 0, false));
    }

    method StartControl(env: Env, kind: Kind)
      modifies this`calls, this`pending, this`confirming, this`previewing, this`niceEditing, this`niceBuf
      ensures Abs() == TuiGate.StartControl(old(Abs()), env, kind)
    {
      hide TuiGate.BeginConfirm, TargetOf;
      var req := ControlTarget(env, kind);
      if req.None? {
        return;
      }
      if kind == CtrlNice {
        pending := req.value;
        niceEditing := true;
        niceBuf := "";
        return;
      }
      BeginConfirm(env, req.value);
    }

    method NiceKey(env: Env, k: KeyEvent)
      modifies this`calls, this`pending, this`confirming, this`previewing, this`niceEditing, this`niceBuf
      ensures Abs() == TuiGate.NiceKey(old(Abs()), env, k)
    {
      hide TuiGate.BeginConfirm, ParseInt, TuiFilter.TrimSpace, NiceTyped;
      if k.name.Enter? {
        var n := ParseInt(TuiFilter.TrimSpace(niceBuf));
        if n.None? {
          return;
        }
        niceEditing := false;
        pending := pending.(nice := n.value);
        BeginConfirm(env, pending);
        return;
      }
      var typed := NiceTyped(niceBuf, k);
      niceBuf := typed.0;
      niceEditing := typed.1;
    }

    method ConfirmKey(env: Env, k: KeyEvent)
      modifies this`calls, this`confirming, this`previewing
      ensures Abs() == TuiGate.ConfirmKey(old(Abs()), env, k)
    {
      if k.rune == 'y' || k.rune == 'Y' {
        var ok := Control(env, pending.(dryRun := false));
        confirming := false;
      } else if k.rune == 'v' || k.rune == 'V' {
        previewing := true;
      } else if Cancels(k) || k.rune == 'n' || k.rune == 'N' || k.rune == 'q' {
        confirming := false;
      }
    }

    // ---- Dispatch ----

    method NameKey(name: KeyName) returns (consumed: bool)
      modifies this`quit, tree
      ensures consumed == NamedKey(old(Abs()), name).Some?
      ensures Abs() == if consumed then NamedKey(old(Abs()), name).value else old(Abs())
    {
      hide NamedView;
      if name.CtrlC? {
        quit := true;
        return true;
      }
      consumed := tree.NameKey(name);
    }

    method StartFilter()
      modifies this`editing, filter
      ensures Abs() == old(Abs()).(editing := true, line := TuiLine.Start(old(filter.L()), old(having)))
    {
      editing := true;
      filter.Start(having);
    }

    method OpenDetail()
      modifies this`detail
      ensures Abs() == old(Abs()).(detail := old(detail) || tree.V().Current().Some?)
    {
      var r := tree.CurrentRow();
      if r.Some? {
        detail := true;
      }
    }

    method OpenRune(env: Env, c: char)
      modifies this, filter
      ensures Abs() == OpenKey(old(Abs()), env, c)
    {
      hide TuiLine.Start;
      if c == 'i' {
        OpenDetail();
      } else if c == '?' {
        help := true;
      } else if c == '/' || c == 'f' {
        StartFilter();
      } else if c == '+' && env.hasColumns {
        colPicker := true;
      }
    }

    method FlagRune(env: Env, c: char)
      modifies this, filter
      ensures Abs() == FlagKey(old(Abs()), env, c)
    {
      hide OpenKey;
      if c == 'q' {
        quit := true;
      } else if c == 'p' || c == ' ' {
        paused := !paused;
      } else {
        OpenRune(env, c);
      }
    }

    method TogglePanel(env: Env)
      modifies this`managed, tree
      ensures Abs() == TuiGate.TogglePanel(old(Abs()), env)
    {
      hide TopOfView;
      if env.hasManaged {
        managed := !managed;
        tree.ToTop();
      }
    }

    /** A key that no mode takes. */
    method RunKey(env: Env, k: KeyEvent)
      modifies this, tree, filter
      ensures Abs() == PlainKey(old(Abs()), env, k)
    {
      hide NamedKey, RuneView, FlagKey, TuiGate.StartControl, KindOf, TuiGate.TogglePanel;
      if k.name.Tab? {
        TogglePanel(env);
        return;
      }
      var named := NameKey(k.name);
      if named {
        return;
      }
      var kind := KindOf(k.rune);
      if kind.Some? {
        StartControl(env, kind.value);
        return;
      }
      var viewed := tree.RuneKey(k.rune);
      if !viewed {
        FlagRune(env, k.rune);
      }
    }

    /** The overlays only close; scrolling in them is not part of the model. */
    method OverlayKey(env: Env, k: KeyEvent)
      requires filter.L().Ok()
      requires !confirming && !niceEditing && !editing && (colPicker || help || detail)
      modifies this`colPicker, this`help, this`detail
      ensures Abs() == TuiGate.Update(old(Abs()), env, k)
    {
      if colPicker {
        if Cancels(k) {
          colPicker := false;
        }
      } else if help {
        if k.rune == '?' || k.rune == 'q' || Cancels(k) {
          help := false;
        }
      } else {
        if k.rune == 'i' || k.rune == 'q' || Cancels(k) {
          detail := false;
        }
      }
    }

    /** The first open mode takes the key. */
    method Update(env: Env, k: KeyEvent)
      requires filter.L().Ok()
      modifies this, tree, filter
      ensures Abs() == TuiGate.Update(old(Abs()), env, k)
    {
      hide TuiGate.ConfirmKey, TuiGate.NiceKey, EditLine, PlainKey;
      if confirming {
        if previewing {
          previewing := false;
        } else {
          ConfirmKey(env, k);
        }
      } else if niceEditing {
        NiceKey(env, k);
      } else if editing {
        EditKey(env, k);
      } else if colPicker || help || detail {
        OverlayKey(env, k);
      } else {
        RunKey(env, k);
      }
    }
  }

  lemma EnterTakes(l: TuiLine.Line, having: string, env: Env)
    ensures env.autofill(l).Some? ==> EnterFilter(l, having, env) == Edited(Suggested(l, env.autofill(l)), having, true)
  {
  }
}
