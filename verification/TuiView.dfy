/**
 The explorer's tree view: the result flattened to visible rows under a fold state, the cursor, and the
 scroll window.
 */
module TuiView {
  import opened Options
  import opened QueryModel

  const SEP := "\U{001f}"

  /** A visible row; `path` joins the keys from the root down. */
  datatype VRow = VRow(row: Row, depth: nat, path: string, hasKids: bool, collapsed: bool)

  type Fold = string -> bool

  function PathOf(parent: string, r: Row): string { parent + SEP + r.head.key }

  function RowAt(r: Row, fold: Fold, depth: nat, parent: string): VRow {
    var kids := r.sub != [];
    VRow(r, depth, PathOf(parent, r), kids, kids && fold(PathOf(parent, r)))
  }

  /** Depth-first, skipping what is under a folded group. */
  function Flatten(rows: seq<Row>, fold: Fold, depth: nat, parent: string): (out: seq<VRow>)
    ensures rows != [] ==> out != []
  {
    if rows == [] then []
    else
      var r := rows[0];
      [RowAt(r, fold, depth, parent)] + Below(r, fold, depth, parent) + Flatten(rows[1..], fold, depth, parent)
  }

  function Below(r: Row, fold: Fold, depth: nat, parent: string): seq<VRow>
    decreases r, 0
  {
    if r.sub == [] || fold(PathOf(parent, r)) then [] else Flatten(r.sub, fold, depth + 1, PathOf(parent, r))
  }

  lemma FlattenStep(r: Row, more: seq<Row>, fold: Fold, depth: nat, parent: string)
    ensures Flatten([r] + more, fold, depth, parent) ==
            [RowAt(r, fold, depth, parent)] + (Below(r, fold, depth, parent) + Flatten(more, fold, depth, parent))
  {
    var rows := [r] + more;
    assert rows[0] == r && rows[1..] == more;
  }

  // ---- Which rows are visible ----

  /** A node of the whole tree, with the paths of its ancestors. */
  datatype Node = Node(row: Row, depth: nat, path: string, above: seq<string>)

  function Preorder(rows: seq<Row>, depth: nat, parent: string, above: seq<string>): seq<Node> {
    if rows == [] then []
    else
      var r, path := rows[0], PathOf(parent, rows[0]);
      [Node(r, depth, path, above)] + Preorder(r.sub, depth + 1, path, above + [path]) +
      Preorder(rows[1..], depth, parent, above)
  }

  predicate Unfolded(above: seq<string>, fold: Fold) { forall p :: p in above ==> !fold(p) }

  function AsRow(n: Node, fold: Fold): VRow {
    VRow(n.row, n.depth, n.path, n.row.sub != [], n.row.sub != [] && fold(n.path))
  }

  function ShownOne(n: Node, fold: Fold): seq<VRow> { if Unfolded(n.above, fold) then [AsRow(n, fold)] else [] }

  /** The nodes without a folded ancestor, as rows. */
  function Shown(ns: seq<Node>, fold: Fold): seq<VRow> {
    if ns == [] then [] else ShownOne(ns[0], fold) + Shown(ns[1..], fold)
  }

  lemma ShownNil(fold: Fold)
    ensures Shown([], fold) == []
  {
  }

  lemma ShownStep(n: Node, more: seq<Node>, fold: Fold)
    ensures Shown([n] + more, fold) == ShownOne(n, fold) + Shown(more, fold)
  {
    assert ([n] + more)[1..] == more;
  }

  lemma {:induction false} ShownAppend(a: seq<Node>, b: seq<Node>, fold: Fold)
    ensures Shown(a + b, fold) == Shown(a, fold) + Shown(b, fold)
  {
    hide Shown, ShownOne;
    ShownNil(fold);
    if a == [] {
      assert a + b == b;
    } else {
      ShownAppend(a[1..], b, fold);
      ShownStep(a[0], a[1..], fold);
      ShownStep(a[0], a[1..] + b, fold);
      assert a == [a[0]] + a[1..] && a + b == [a[0]] + (a[1..] + b);
    }
  }

  lemma PreorderStep(r: Row, more: seq<Row>, depth: nat, parent: string, above: seq<string>)
    ensures Preorder([r] + more, depth, parent, above) ==
            [Node(r, depth, PathOf(parent, r), above)] +
            (Preorder(r.sub, depth + 1, PathOf(parent, r), above + [PathOf(parent, r)]) + Preorder(more, depth, parent, above))
  {
    var rows := [r] + more;
    assert rows[0] == r && rows[1..] == more;
  }

  lemma {:induction false} FoldedHidesAll(rows: seq<Row>, fold: Fold, depth: nat, parent: string, above: seq<string>)
    requires !Unfolded(above, fold)
    ensures Shown(Preorder(rows, depth, parent, above), fold) == []
  {
    if rows != [] {
      var r, more, path := rows[0], rows[1..], PathOf(parent, rows[0]);
      var p :| p in above && fold(p);
      assert p in above + [path];
      FoldedHidesAll(r.sub, fold, depth + 1, path, above + [path]);
      FoldedHidesAll(more, fold, depth, parent, above);
      assert rows == [r] + more;
      ShownNode(r, more, fold, depth, parent, above);
    }
  }

  lemma ShownNode(r: Row, more: seq<Row>, fold: Fold, depth: nat, parent: string, above: seq<string>)
    ensures var path := PathOf(parent, r);
            Shown(Preorder([r] + more, depth, parent, above), fold) ==
            (if Unfolded(above, fold) then [RowAt(r, fold, depth, parent)] else []) +
            (Shown(Preorder(r.sub, depth + 1, path, above + [path]), fold) + Shown(Preorder(more, depth, parent, above), fold))
  {
    var path := PathOf(parent, r);
    var node, kids, rest := Node(r, depth, path, above), Preorder(r.sub, depth + 1, path, above + [path]), Preorder(more, depth, parent, above);
    PreorderStep(r, more, depth, parent, above);
    hide Preorder;
    assert ([node] + (kids + rest))[1..] == kids + rest;
    ShownAppend(kids, rest, fold);
  }

  /** The visible rows are the nodes of the tree, in preorder, that have no folded ancestor. */
  lemma {:induction false} VisibleExactly(rows: seq<Row>, fold: Fold, depth: nat, parent: string, above: seq<string>)
    requires Unfolded(above, fold)
    ensures Flatten(rows, fold, depth, parent) == Shown(Preorder(rows, depth, parent, above), fold)
  {
    if rows != [] {
      var r, more, path := rows[0], rows[1..], PathOf(parent, rows[0]);
      VisibleBelow(r, fold, depth, parent, above);
      VisibleExactly(more, fold, depth, parent, above);
      hide Flatten, Preorder, Shown, Below;
      assert rows == [r] + more;
      FlattenStep(r, more, fold, depth, parent);
      ShownNode(r, more, fold, depth, parent, above);
    } else {
      assert Preorder(rows, depth, parent, above) == [];
    }
  }

  lemma {:induction false} VisibleBelow(r: Row, fold: Fold, depth: nat, parent: string, above: seq<string>)
    requires Unfolded(above, fold)
    ensures var path := PathOf(parent, r);
            Below(r, fold, depth, parent) == Shown(Preorder(r.sub, depth + 1, path, above + [path]), fold)
    decreases r, 0
  {
    var path := PathOf(parent, r);
    if r.sub == [] {
      assert Preorder(r.sub, depth + 1, path, above + [path]) == [];
    } else if fold(path) {
      assert path in above + [path];
      FoldedHidesAll(r.sub, fold, depth + 1, path, above + [path]);
    } else {
      VisibleExactly(r.sub, fold, depth + 1, path, above + [path]);
    }
  }

  // ---- The view ----

  /** `hostLines` is the height of the panel above the table. */
  datatype View = View(
    result: Option<seq<Row>>, rows: seq<VRow>, cursor: int, scroll: int,
    collapsed: map<string, bool>, foldDefault: bool, hasGroups: bool, height: int, hostLines: nat)
  {
    /** An override of the user wins over the default. */
    predicate IsCollapsed(path: string) { if path in collapsed then collapsed[path] else foldDefault }

    function BodyHeight(): (h: int)
      ensures h >= 1
    {
      var h := height - 3 - (if hostLines == 0 then 0 else hostLines + 1);
      if h < 1 then 1 else h
    }

    function Current(): Option<VRow> { if 0 <= cursor < |rows| then Some(rows[cursor]) else None }
  }

  function FoldOf(collapsed: map<string, bool>, foldDefault: bool): Fold {
    p => if p in collapsed then collapsed[p] else foldDefault
  }

  predicate AnyGroup(rows: seq<VRow>) { exists i :: 0 <= i < |rows| && (rows[i].row.head.kind == GROUP || rows[i].row.head.kind == HOST) }

  function ClampScroll(v: View): View {
    var s := if v.cursor < v.scroll then v.cursor else v.scroll;
    var t := if v.cursor >= s + v.BodyHeight() then v.cursor - v.BodyHeight() + 1 else s;
    v.(scroll := if t < 0 then 0 else t)
  }

  function ClampCursor(v: View): View {
    v.(cursor := if v.cursor >= |v.rows| then (if |v.rows| > 0 then |v.rows| - 1 else 0) else v.cursor)
  }

  function Rebuilt(v: View): View {
    var rows := match v.result case None => [] case Some(rs) => Flatten(rs, FoldOf(v.collapsed, v.foldDefault), 0, "");
    var grouped := if v.result.None? then v.hasGroups else AnyGroup(rows);
    ClampScroll(ClampCursor(v.(rows := rows, hasGroups := grouped)))
  }

  function WithResult(v: View, result: seq<Row>, hostLines: nat): View {
    Rebuilt(v.(result := Some(result), hostLines := hostLines))
  }

  function Moved(v: View, delta: int): View {
    var c := v.cursor + delta;
    ClampScroll(ClampCursor(v.(cursor := if c < 0 then 0 else c)))
  }

  function WithFold(v: View, path: string, folded: bool): View { Rebuilt(v.(collapsed := v.collapsed[path := folded])) }

  function FoldAll(v: View, folded: bool): View {
    if !v.hasGroups then v else Rebuilt(v.(foldDefault := folded, collapsed := map[]))
  }

  function Toggled(v: View): View {
    match v.Current()
    case None => v
    case Some(r) => if !r.hasKids then v else WithFold(v, r.path, !v.IsCollapsed(r.path))
  }

  /** The nearest row above `i` that is less deep. */
  function Nearest(rows: seq<VRow>, i: nat, j: nat): Option<nat>
    requires i < |rows| && j <= i
  {
    if j == 0 then None
    else if rows[j - 1].depth < rows[i].depth then Some(j - 1)
    else Nearest(rows, i, j - 1)
  }

  function ToParent(v: View): View {
    if v.Current().None? then v
    else match Nearest(v.rows, v.cursor, v.cursor)
      case None => v
      case Some(j) => ClampScroll(v.(cursor := j))
  }

  function FoldOrParent(v: View): View {
    match v.Current()
    case None => v
    case Some(r) => if r.hasKids && !v.IsCollapsed(r.path) then WithFold(v, r.path, true) else ToParent(v)
  }

  function UnfoldOrChild(v: View): View {
    match v.Current()
    case None => v
    case Some(r) =>
      if !r.hasKids then v
      else if v.IsCollapsed(r.path) then WithFold(v, r.path, false)
      else Moved(v, 1)
  }
}
