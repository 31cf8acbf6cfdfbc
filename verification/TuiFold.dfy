/**
 What the view promises. The nearest less deep row above a row is its parent in the tree; folding and
 unfolding the group under the cursor changes nothing; and every move and rebuild leaves the cursor on a
 row inside the window.
 */
module TuiFold {
  import opened Options
  import opened QueryModel
  import opened TuiView

  // ---- Parents ----

  /** Row `j` is the parent of row `i`, and nothing between them is less deep than `i`. */
  ghost predicate Parented(a: seq<VRow>, i: nat, j: nat) {
    && j < i < |a|
    && a[j].depth + 1 == a[i].depth && a[i].row in a[j].row.sub && a[i].path == PathOf(a[j].path, a[i].row)
    && forall k :: j < k < i ==> a[k].depth >= a[i].depth
  }

  lemma {:induction false} DepthsFrom(rows: seq<Row>, fold: Fold, depth: nat, parent: string)
    ensures forall v :: v in Flatten(rows, fold, depth, parent) ==> v.depth >= depth
  {
    if rows != [] {
      if rows[0].sub != [] {
        DepthsFrom(rows[0].sub, fold, depth + 1, PathOf(parent, rows[0]));
      }
      DepthsFrom(rows[1..], fold, depth, parent);
    }
  }

  lemma BelowDepths(r: Row, fold: Fold, depth: nat, parent: string)
    ensures forall v :: v in Below(r, fold, depth, parent) ==> v.depth >= depth + 1
  {
    DepthsFrom(r.sub, fold, depth + 1, PathOf(parent, r));
  }

  ghost predicate Top(rows: seq<Row>, depth: nat, parent: string, v: VRow) {
    v.depth == depth && v.row in rows && v.path == PathOf(parent, v.row)
  }

  lemma ParentedShift(a: seq<VRow>, pre: seq<VRow>, post: seq<VRow>, i: nat, j: nat)
    requires Parented(a, i, j)
    ensures Parented(pre + a + post, |pre| + i, |pre| + j)
  {
    var b := pre + a + post;
    forall k | |pre| + j < k < |pre| + i ensures b[k].depth >= b[|pre| + i].depth {
      assert b[k] == a[k - |pre|];
    }
  }

  /** A row below `r`: its parent is there too, or it is `r`. */
  lemma LiftBelow(h: VRow, b: seq<VRow>, c: seq<VRow>, i: nat, k: Option<nat>) returns (j: nat)
    requires i < |b| && forall v :: v in b ==> v.depth >= h.depth + 1
    requires match k case None => Top(h.row.sub, h.depth + 1, h.path, b[i]) case Some(n) => Parented(b, i, n)
    ensures Parented([h] + b + c, i + 1, j)
  {
    match k {
      case None =>
        var a := [h] + b + c;
        assert a[i + 1] == b[i];
        assert forall n :: 0 < n < i + 1 ==> a[n] == b[n - 1] && b[n - 1] in b;
        j := 0;
      case Some(n) =>
        ParentedShift(b, [h], c, i, n);
        j := n + 1;
    }
  }

  lemma {:induction false} FindParent(rows: seq<Row>, fold: Fold, depth: nat, parent: string, i: nat) returns (j: Option<nat>)
    requires i < |Flatten(rows, fold, depth, parent)|
    ensures var a := Flatten(rows, fold, depth, parent);
            match j case None => Top(rows, depth, parent, a[i]) case Some(k) => Parented(a, i, k)
    decreases rows
  {
    hide Below, Parented;
    var r, more := rows[0], rows[1..];
    var h, b, c := RowAt(r, fold, depth, parent), Below(r, fold, depth, parent), Flatten(more, fold, depth, parent);
    assert Flatten(rows, fold, depth, parent) == [h] + b + c;
    BelowDepths(r, fold, depth, parent);
    if i == 0 {
      j := None;
    } else if i <= |b| {
      var k := FindParentBelow(r, fold, depth, parent, i - 1);
      var n := LiftBelow(h, b, c, i - 1, k);
      j := Some(n);
    } else {
      j := FindParent(more, fold, depth, parent, i - 1 - |b|);
      if j.Some? {
        ParentedShift(c, [h] + b, [], i - 1 - |b|, j.value);
        assert [h] + b + c + [] == [h] + b + c;
        j := Some(j.value + 1 + |b|);
      }
    }
  }

  lemma FindParentBelow(r: Row, fold: Fold, depth: nat, parent: string, i: nat) returns (j: Option<nat>)
    requires i < |Below(r, fold, depth, parent)|
    ensures var b := Below(r, fold, depth, parent);
            match j case None => Top(r.sub, depth + 1, PathOf(parent, r), b[i]) case Some(k) => Parented(b, i, k)
    decreases r, 0
  {
    j := FindParent(r.sub, fold, depth + 1, PathOf(parent, r), i);
  }

  lemma {:induction false} NearestIs(a: seq<VRow>, i: nat, j: nat, from: nat)
    requires Parented(a, i, j) && j < from <= i
    ensures Nearest(a, i, from) == Some(j)
  {
    if from > j + 1 {
      NearestIs(a, i, j, from - 1);
    }
  }

  lemma {:induction false} NearestNone(a: seq<VRow>, i: nat, from: nat)
    requires from <= i < |a| && a[i].depth == 0
    ensures Nearest(a, i, from) == None
  {
    if from > 0 {
      NearestNone(a, i, from - 1);
    }
  }

  /** Above a row at the top there is no less deep row; above any other, the nearest one is its parent. */
  lemma {:induction false} NearestIsParent(rows: seq<Row>, fold: Fold, i: nat)
    requires i < |Flatten(rows, fold, 0, "")|
    ensures var a := Flatten(rows, fold, 0, "");
            match Nearest(a, i, i)
            case None => a[i].depth == 0 && a[i].row in rows
            case Some(j) => Parented(a, i, j)
  {
    var a := Flatten(rows, fold, 0, "");
    var j := FindParent(rows, fold, 0, "", i);
    if j.Some? {
      NearestIs(a, i, j.value, i);
    } else {
      NearestNone(a, i, i);
    }
  }

  // ---- Folding one group leaves the rows before it ----

  /** Same node, whatever its fold marker. */
  predicate SameNode(x: VRow, y: VRow) { x.(collapsed := false) == y.(collapsed := false) }

  /** Both fold states agree on the groups among the first `c` rows. */
  ghost predicate Agree(a: seq<VRow>, f: Fold, g: Fold, c: nat)
    requires c <= |a|
  {
    forall i :: 0 <= i < c && a[i].hasKids ==> f(a[i].path) == g(a[i].path)
  }

  /** `b` starts like `a` for `c` rows, goes on with the same node, and ends where `a` ends. */
  ghost predicate StartsLike(a: seq<VRow>, b: seq<VRow>, c: nat) {
    && c <= |a| && c <= |b| && a[..c] == b[..c]
    && (c < |a| ==> c < |b| && SameNode(a[c], b[c]))
    && (c == |a| ==> a == b)
  }

  lemma StartsLikeFirst(x: VRow, y: VRow, s: seq<VRow>, t: seq<VRow>)
    requires SameNode(x, y)
    ensures StartsLike([x] + s, [y] + t, 0)
  {
  }

  lemma StartsLikeAfter(pre: seq<VRow>, s: seq<VRow>, t: seq<VRow>, c: nat)
    requires StartsLike(s, t, c)
    ensures StartsLike(pre + s, pre + t, |pre| + c)
  {
    assert (pre + s)[..|pre| + c] == pre + s[..c];
    assert (pre + t)[..|pre| + c] == pre + t[..c];
  }

  lemma StartsLikeBefore(s: seq<VRow>, t: seq<VRow>, x: seq<VRow>, y: seq<VRow>, c: nat)
    requires StartsLike(s, t, c) && c < |s|
    ensures StartsLike(s + x, t + y, c)
  {
    assert (s + x)[..c] == s[..c] && (t + y)[..c] == t[..c];
  }

  lemma AgreeParts(h: VRow, b: seq<VRow>, d: seq<VRow>, f: Fold, g: Fold, c: nat)
    requires 0 < c <= |[h] + (b + d)| && Agree([h] + (b + d), f, g, c)
    ensures h.hasKids ==> f(h.path) == g(h.path)
    ensures c - 1 <= |b| ==> Agree(b, f, g, c - 1)
    ensures c - 1 > |b| ==> Agree(b, f, g, |b|) && Agree(d, f, g, c - 1 - |b|)
  {
    var a := [h] + (b + d);
    assert a[0] == h;
    assert forall i :: 0 <= i < |b| ==> a[i + 1] == b[i];
    assert forall i :: 0 <= i < |d| ==> a[i + 1 + |b|] == d[i];
  }

  lemma StartsLikeJoin(h: VRow, b: seq<VRow>, d: seq<VRow>, b': seq<VRow>, d': seq<VRow>, c: nat)
    requires 0 < c <= 1 + |b| + |d| && StartsLike(b, b', if c - 1 < |b| then c - 1 else |b|)
    requires c - 1 >= |b| ==> StartsLike(d, d', c - 1 - |b|)
    ensures StartsLike([h] + (b + d), [h] + (b' + d'), c)
  {
    hide StartsLike;
    if c - 1 < |b| {
      StartsLikeBefore(b, b', d, d', c - 1);
      StartsLikeAfter([h], b + d, b' + d', c - 1);
    } else {
      StartsLikeAll(b, b');
      StartsLikeAfter([h] + b, d, d', c - 1 - |b|);
      assert [h] + b + d == [h] + (b + d) && [h] + b + d' == [h] + (b + d');
    }
  }

  lemma {:induction false} FoldPrefix(rows: seq<Row>, f: Fold, g: Fold, depth: nat, parent: string, c: nat)
    requires c <= |Flatten(rows, f, depth, parent)| && Agree(Flatten(rows, f, depth, parent), f, g, c)
    ensures StartsLike(Flatten(rows, f, depth, parent), Flatten(rows, g, depth, parent), c)
    decreases rows
  {
    if rows != [] {
      hide Flatten, Below, Agree, StartsLike;
      var r, more := rows[0], rows[1..];
      assert rows == [r] + more;
      FlattenStep(r, more, f, depth, parent);
      FlattenStep(r, more, g, depth, parent);
      var h, b, d := RowAt(r, f, depth, parent), Below(r, f, depth, parent), Flatten(more, f, depth, parent);
      var h', b', d' := RowAt(r, g, depth, parent), Below(r, g, depth, parent), Flatten(more, g, depth, parent);
      if c == 0 {
        StartsLikeFirst(h, h', b + d, b' + d');
      } else {
        AgreeParts(h, b, d, f, g, c);
        assert h == h';
        FoldPrefixBelow(r, f, g, depth, parent, if c - 1 < |b| then c - 1 else |b|);
        if c - 1 >= |b| {
          AgreeNone(d, f, g);
          FoldPrefix(more, f, g, depth, parent, c - 1 - |b|);
        }
        StartsLikeJoin(h, b, d, b', d', c);
      }
    }
  }

  lemma StartsLikeAll(a: seq<VRow>, b: seq<VRow>)
    ensures StartsLike(a, b, |a|) ==> a == b
  {
  }

  lemma AgreeNone(a: seq<VRow>, f: Fold, g: Fold)
    ensures Agree(a, f, g, 0)
  {
  }

  lemma FoldPrefixBelow(r: Row, f: Fold, g: Fold, depth: nat, parent: string, c: nat)
    requires r.sub != [] ==> f(PathOf(parent, r)) == g(PathOf(parent, r))
    requires c <= |Below(r, f, depth, parent)| && Agree(Below(r, f, depth, parent), f, g, c)
    ensures StartsLike(Below(r, f, depth, parent), Below(r, g, depth, parent), c)
    decreases r, 0
  {
    if r.sub != [] && !f(PathOf(parent, r)) {
      FoldPrefix(r.sub, f, g, depth + 1, PathOf(parent, r), c);
    }
  }

  // ---- The window ----

  /** The cursor is on a row, or at the top of an empty view, and inside the window. */
  predicate InWindow(v: View) {
    && 0 <= v.scroll <= v.cursor < v.scroll + v.BodyHeight()
    && (v.cursor < |v.rows| || v.cursor == 0)
  }

  lemma ClampedInWindow(v: View)
    requires v.cursor >= 0
    ensures InWindow(ClampScroll(ClampCursor(v)))
  {
  }

  lemma RebuiltInWindow(v: View)
    requires v.cursor >= 0
    ensures InWindow(Rebuilt(v))
  {
    hide Flatten, AnyGroup, InWindow, ClampScroll, ClampCursor;
    var rows := match v.result case None => [] case Some(rs) => Flatten(rs, FoldOf(v.collapsed, v.foldDefault), 0, "");
    ClampedInWindow(v.(rows := rows, hasGroups := if v.result.None? then v.hasGroups else AnyGroup(rows)));
  }

  lemma MovedInWindow(v: View, delta: int)
    ensures InWindow(Moved(v, delta))
  {
    var c := v.cursor + delta;
    ClampedInWindow(v.(cursor := if c < 0 then 0 else c));
  }

  lemma ToParentInWindow(v: View)
    requires InWindow(v)
    ensures InWindow(ToParent(v))
  {
    if v.Current().Some? && Nearest(v.rows, v.cursor, v.cursor).Some? {
      NearestBounds(v.rows, v.cursor, v.cursor);
      var w := v.(cursor := Nearest(v.rows, v.cursor, v.cursor).value);
      ClampedInWindow(w);
      assert ClampCursor(w) == w;
    }
  }

  /** Every rebuild and every move leaves the cursor on a row inside the window. */
  lemma AlwaysInWindow(v: View, result: seq<Row>, hostLines: nat, path: string, on: bool, delta: int)
    requires v.cursor >= 0
    ensures InWindow(WithResult(v, result, hostLines)) && InWindow(WithFold(v, path, on)) && InWindow(Moved(v, delta))
    ensures v.hasGroups ==> InWindow(FoldAll(v, on))
    ensures InWindow(v) ==> InWindow(Toggled(v)) && InWindow(ToParent(v)) && InWindow(FoldOrParent(v)) && InWindow(UnfoldOrChild(v))
  {
    hide Rebuilt, Moved, InWindow, ToParent;
    RebuiltInWindow(v.(result := Some(result), hostLines := hostLines));
    RebuiltInWindow(v.(collapsed := v.collapsed[path := on]));
    RebuiltInWindow(v.(foldDefault := on, collapsed := map[]));
    MovedInWindow(v, delta);
    MovedInWindow(v, 1);
    if InWindow(v) {
      ToParentInWindow(v);
      if v.Current().Some? {
        var p := v.Current().value.path;
        RebuiltInWindow(v.(collapsed := v.collapsed[p := true]));
        RebuiltInWindow(v.(collapsed := v.collapsed[p := false]));
      }
    }
  }

  lemma {:induction false} NearestBounds(rows: seq<VRow>, i: nat, j: nat)
    requires i < |rows| && j <= i && Nearest(rows, i, j).Some?
    ensures Nearest(rows, i, j).value < j
  {
    if rows[j - 1].depth >= rows[i].depth {
      NearestBounds(rows, i, j - 1);
    }
  }

  // ---- Folding and unfolding ----

  /** The rows shown are those of the result under the fold state. */
  predicate UpToDate(v: View) {
    v.result.Some? && v.rows == Flatten(v.result.value, FoldOf(v.collapsed, v.foldDefault), 0, "") &&
    v.hasGroups == AnyGroup(v.rows)
  }

  lemma RebuildIsUpToDate(v: View)
    requires v.result.Some?
    ensures UpToDate(Rebuilt(v))
  {
    hide Flatten;
  }

  /** No group above the cursor shares the path of the row under it. */
  ghost predicate PathUnique(v: View) {
    v.Current().Some? && forall i :: 0 <= i < v.cursor && v.rows[i].hasKids ==> v.rows[i].path != v.rows[v.cursor].path
  }

  /** Setting the fold of the row under the cursor keeps that row under the cursor, and all rows above it. */
  lemma FoldKeepsCursor(v: View, on: bool)
    requires UpToDate(v) && InWindow(v) && PathUnique(v)
    ensures var w := WithFold(v, v.rows[v.cursor].path, on);
            && UpToDate(w) && w.cursor == v.cursor && w.scroll == v.scroll && w.cursor < |w.rows|
            && SameNode(w.rows[w.cursor], v.rows[v.cursor]) && w.rows[..w.cursor] == v.rows[..v.cursor]
  {
    hide Flatten;
    var path := v.rows[v.cursor].path;
    var f, g := FoldOf(v.collapsed, v.foldDefault), FoldOf(v.collapsed[path := on], v.foldDefault);
    assert Agree(v.rows, f, g, v.cursor);
    FoldPrefix(v.result.value, f, g, 0, "", v.cursor);
    RebuildIsUpToDate(v.(collapsed := v.collapsed[path := on]));
  }

  lemma WithFoldFields(v: View, path: string, on: bool)
    requires v.result.Some?
    ensures var w := WithFold(v, path, on);
            && UpToDate(w)
            && w == v.(rows := w.rows, cursor := w.cursor, scroll := w.scroll, hasGroups := w.hasGroups,
                       collapsed := v.collapsed[path := on])
  {
    hide Flatten, AnyGroup;
  }

  /** A rebuild never moves the cursor down, and moves neither cursor nor window while the cursor is on a row. */
  lemma WithFoldCursor(v: View, path: string, on: bool)
    requires InWindow(v) && v.result.Some?
    ensures var w := WithFold(v, path, on);
            && InWindow(w) && w.cursor <= v.cursor
            && (v.cursor < |w.rows| ==> w.cursor == v.cursor && w.scroll == v.scroll)
  {
    hide Flatten, AnyGroup;
    RebuiltInWindow(v.(collapsed := v.collapsed[path := on]));
  }

  lemma {:induction false} MarksAreFolds(rows: seq<Row>, fold: Fold, depth: nat, parent: string, i: nat)
    requires i < |Flatten(rows, fold, depth, parent)|
    ensures var r := Flatten(rows, fold, depth, parent)[i]; r.hasKids ==> r.collapsed == fold(r.path)
    decreases rows
  {
    var r, more := rows[0], rows[1..];
    var h, b := RowAt(r, fold, depth, parent), Below(r, fold, depth, parent);
    assert Flatten(rows, fold, depth, parent) == [h] + b + Flatten(more, fold, depth, parent);
    if i == 0 {
    } else if i <= |b| {
      MarksAreFolds(r.sub, fold, depth + 1, PathOf(parent, r), i - 1);
    } else {
      MarksAreFolds(more, fold, depth, parent, i - 1 - |b|);
    }
  }

  /** The cursor is where it was, on the same node, below the same rows. */
  ghost predicate KeepsPlace(v: View, w: View) {
    && 0 <= v.cursor < |v.rows| && w.cursor == v.cursor < |w.rows|
    && SameNode(w.rows[w.cursor], v.rows[v.cursor]) && w.rows[..w.cursor] == v.rows[..v.cursor]
  }

  /** Folding or unfolding the group under the cursor keeps one's place exactly when no group above has its path. */
  lemma ToggleKeepsPlaceExactly(v: View)
    requires UpToDate(v) && InWindow(v) && v.Current().Some? && v.rows[v.cursor].hasKids
    ensures KeepsPlace(v, Toggled(v)) <==> PathUnique(v)
  {
    hide Flatten, AnyGroup, WithFold, InWindow;
    var path := v.rows[v.cursor].path;
    var on := !v.IsCollapsed(path);
    var w := WithFold(v, path, on);
    assert w == Toggled(v);
    if PathUnique(v) {
      FoldKeepsCursor(v, on);
    } else {
      var i :| 0 <= i < v.cursor && v.rows[i].hasKids && v.rows[i].path == path;
      if KeepsPlace(v, w) {
        WithFoldFields(v, path, on);
        assert w.rows[..w.cursor][i] == v.rows[..v.cursor][i];
        MarksAreFolds(v.result.value, FoldOf(v.collapsed, v.foldDefault), 0, "", i);
        MarksAreFolds(v.result.value, FoldOf(w.collapsed, w.foldDefault), 0, "", i);
        assert false;
      }
    }
  }

  lemma {:induction false} SameFoldSameRows(rows: seq<Row>, f: Fold, g: Fold, depth: nat, parent: string)
    requires forall p :: f(p) == g(p)
    ensures Flatten(rows, f, depth, parent) == Flatten(rows, g, depth, parent)
  {
    var n := |Flatten(rows, f, depth, parent)|;
    FoldPrefix(rows, f, g, depth, parent, n);
    StartsLikeAll(Flatten(rows, f, depth, parent), Flatten(rows, g, depth, parent));
  }

  /** Everything but the overrides is as before, and they fold the same groups. */
  ghost predicate SameView(v: View, w: View) {
    w == v.(collapsed := w.collapsed) && forall p :: w.IsCollapsed(p) == v.IsCollapsed(p)
  }

  /** The cursor is on a group that has this path. */
  predicate OnGroup(u: View, path: string) {
    u.Current().Some? && u.rows[u.cursor].hasKids && u.rows[u.cursor].path == path
  }

  /** With the fold under the cursor toggled, the row at the cursor's place is a group of the same path. */
  predicate StaysOnPath(v: View)
    requires v.result.Some? && v.Current().Some?
  {
    var path := v.rows[v.cursor].path;
    var rows := Flatten(v.result.value, FoldOf(v.collapsed[path := !v.IsCollapsed(path)], v.foldDefault), 0, "");
    v.cursor < |rows| && rows[v.cursor].hasKids && rows[v.cursor].path == path
  }

  /**
   A second toggle restores the view exactly when the first leaves the cursor where it was, on a group of the
   same path; that can be told from the view before both.
   */
  lemma ToggleTwiceExactly(v: View)
    requires UpToDate(v) && InWindow(v) && v.Current().Some? && v.rows[v.cursor].hasKids
    ensures var u := Toggled(v);
            SameView(v, Toggled(u)) <==> u.cursor == v.cursor && OnGroup(u, v.rows[v.cursor].path)
    ensures SameView(v, Toggled(Toggled(v))) <==> StaysOnPath(v)
  {
    hide Flatten, AnyGroup, WithFold, InWindow;
    var path := v.rows[v.cursor].path;
    var on := !v.IsCollapsed(path);
    var u := WithFold(v, path, on);
    assert u == Toggled(v);
    WithFoldFields(v, path, on);
    WithFoldCursor(v, path, on);
    if u.Current().Some? && u.rows[u.cursor].hasKids {
      var q := u.rows[u.cursor].path;
      WithFoldFields(u, q, !u.IsCollapsed(q));
      WithFoldCursor(u, q, !u.IsCollapsed(q));
      if u.cursor == v.cursor && q == path {
        TwiceFrom(v, u, path, on);
      }
    }
  }

  lemma TwiceFrom(v: View, u: View, path: string, on: bool)
    requires UpToDate(v) && InWindow(v) && on == !v.IsCollapsed(path) && v.cursor < |v.rows|
    requires UpToDate(u) && InWindow(u) && OnGroup(u, path)
    requires u == v.(rows := u.rows, cursor := v.cursor, scroll := v.scroll, hasGroups := u.hasGroups,
                     collapsed := v.collapsed[path := on])
    ensures SameView(v, Toggled(u))
  {
    hide Flatten, AnyGroup, WithFold, InWindow;
    WithFoldFields(u, path, !on);
    WithFoldCursor(u, path, !on);
    var w := WithFold(u, path, !on);
    assert w == Toggled(u);
    SameFoldSameRows(v.result.value, FoldOf(w.collapsed, w.foldDefault), FoldOf(v.collapsed, v.foldDefault), 0, "");
  }

  /** Folding and unfolding the group under the cursor gives back the rows, the cursor and the window. */
  lemma ToggleTwice(v: View)
    requires UpToDate(v) && InWindow(v) && PathUnique(v) && v.rows[v.cursor].hasKids
    ensures SameView(v, Toggled(Toggled(v)))
  {
    hide UpToDate, InWindow, Toggled, PathUnique, SameView;
    PathUniqueHasRow(v);
    ToggleKeepsPlaceExactly(v);
    ToggleTwiceExactly(v);
  }

  lemma PathUniqueHasRow(v: View)
    requires PathUnique(v)
    ensures v.Current().Some?
  {
  }
}
