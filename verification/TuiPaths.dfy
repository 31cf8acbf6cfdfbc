/**
 When paths identify rows. With sibling keys that differ and no key that holds the separator, all visible
 rows have different paths, so folding under the cursor keeps one's place and is undone by unfolding.
 */
module TuiPaths {
  import opened Options
  import opened QueryModel
  import opened TuiView
  import opened TuiFold

  ghost predicate PlainKeys(rows: seq<Row>) { forall r :: r in rows ==> SEP[0] !in r.head.key && PlainKeys(r.sub) }

  ghost predicate SiblingKeysDiffer(rows: seq<Row>) {
    && (forall i, j :: 0 <= i < j < |rows| ==> rows[i].head.key != rows[j].head.key)
    && (forall r :: r in rows ==> SiblingKeysDiffer(r.sub))
  }

  predicate Starts(p: string, q: string) { |q| <= |p| && p[..|q|] == q }

  /** `p` is the path of the child `key` of `parent`, or of something below it. */
  predicate Under(p: string, parent: string, key: string) {
    p == parent + SEP + key || Starts(p, parent + SEP + key + SEP)
  }

  lemma UnderOneKey(p: string, parent: string, k: string, l: string)
    requires SEP[0] !in k && SEP[0] !in l && Under(p, parent, k) && Under(p, parent, l)
    ensures k == l
  {
    if |k| < |l| {
      KeyEnds(p, parent, k, l);
    } else if |l| < |k| {
      KeyEnds(p, parent, l, k);
    } else {
      KeyAt(p, parent, k);
      KeyAt(p, parent, l);
    }
  }

  lemma KeyAt(p: string, parent: string, k: string)
    requires Under(p, parent, k)
    ensures |parent| + 1 + |k| <= |p| && p[|parent| + 1..|parent| + 1 + |k|] == k
    ensures |p| > |parent| + 1 + |k| ==> p[|parent| + 1 + |k|] == SEP[0]
  {
    if p == parent + SEP + k {
    } else {
      var q := parent + SEP + k + SEP;
      assert p[..|q|][|parent| + 1..|parent| + 1 + |k|] == q[|parent| + 1..|parent| + 1 + |k|] == k;
      assert p[|parent| + 1 + |k|] == p[..|q|][|parent| + 1 + |k|];
    }
  }

  lemma KeyEnds(p: string, parent: string, k: string, l: string)
    requires |k| < |l| && SEP[0] !in l && Under(p, parent, k)
    ensures !Under(p, parent, l)
  {
    KeyAt(p, parent, k);
    if Under(p, parent, l) {
      KeyAt(p, parent, l);
    }
  }

  lemma StartsLonger(p: string, q: string, r: string)
    requires Starts(p, q) && Starts(q, r)
    ensures Starts(p, r)
  {
    assert p[..|q|][..|r|] == p[..|r|];
  }

  lemma {:induction false} AllUnder(rows: seq<Row>, fold: Fold, depth: nat, parent: string, i: nat) returns (r: Row)
    requires i < |Flatten(rows, fold, depth, parent)|
    ensures r in rows && Under(Flatten(rows, fold, depth, parent)[i].path, parent, r.head.key)
    decreases rows
  {
    hide Under;
    var b, c := Below(rows[0], fold, depth, parent), Flatten(rows[1..], fold, depth, parent);
    if i == 0 {
      r := rows[0];
      TopUnder(parent, r);
    } else if i <= |b| {
      r := rows[0];
      BelowUnder(r, fold, depth, parent, i - 1);
      StartsUnder(b[i - 1].path, parent, r);
    } else {
      r := AllUnder(rows[1..], fold, depth, parent, i - 1 - |b|);
    }
  }

  lemma TopUnder(parent: string, r: Row)
    ensures Under(PathOf(parent, r), parent, r.head.key)
  {
  }

  lemma StartsUnder(p: string, parent: string, r: Row)
    requires Starts(p, PathOf(parent, r) + SEP)
    ensures Under(p, parent, r.head.key)
  {
  }

  /** What is below a row has a longer path, which starts with the row's. */
  lemma BelowUnder(r: Row, fold: Fold, depth: nat, parent: string, i: nat)
    requires i < |Below(r, fold, depth, parent)|
    ensures Starts(Below(r, fold, depth, parent)[i].path, PathOf(parent, r) + SEP)
    decreases r, 0
  {
    var path := PathOf(parent, r);
    var s := AllUnder(r.sub, fold, depth + 1, path, i);
    var p := Below(r, fold, depth, parent)[i].path;
    assert Starts(path + SEP + s.head.key, path + SEP);
    assert Starts(path + SEP + s.head.key + SEP, path + SEP);
    if Starts(p, path + SEP + s.head.key + SEP) {
      StartsLonger(p, path + SEP + s.head.key + SEP, path + SEP);
    }
  }

  ghost predicate PathsDiffer(a: seq<VRow>) { forall i, j :: 0 <= i < j < |a| ==> a[i].path != a[j].path }

  lemma PathsDifferJoin(h: VRow, b: seq<VRow>, c: seq<VRow>)
    requires PathsDiffer(b) && PathsDiffer(c)
    requires forall i :: 0 <= i < |b| ==> b[i].path != h.path
    requires forall i :: 0 <= i < |c| ==> c[i].path != h.path
    requires forall i, j :: 0 <= i < |b| && 0 <= j < |c| ==> b[i].path != c[j].path
    ensures PathsDiffer([h] + b + c)
  {
  }

  lemma {:induction false} PlainPathsDiffer(rows: seq<Row>, fold: Fold, depth: nat, parent: string)
    requires PlainKeys(rows) && SiblingKeysDiffer(rows)
    ensures PathsDiffer(Flatten(rows, fold, depth, parent))
    decreases rows
  {
    if rows != [] {
      var r, more := rows[0], rows[1..];
      var h, b, c := RowAt(r, fold, depth, parent), Below(r, fold, depth, parent), Flatten(more, fold, depth, parent);
      assert Flatten(rows, fold, depth, parent) == [h] + b + c;
      assert forall x :: x in more ==> x in rows;
      assert r in rows;
      if r.sub != [] {
        PlainPathsDiffer(r.sub, fold, depth + 1, PathOf(parent, r));
      }
      PlainPathsDiffer(more, fold, depth, parent);
      hide Flatten, Below, Under, Starts, PathsDiffer;
      forall i | 0 <= i < |b| ensures b[i].path != h.path && Under(b[i].path, parent, r.head.key) {
        BelowUnder(r, fold, depth, parent, i);
        StartsUnder(b[i].path, parent, r);
        StartsIsLonger(b[i].path, PathOf(parent, r));
      }
      forall j | 0 <= j < |c| ensures !Under(c[j].path, parent, r.head.key) {
        var s := AllUnder(more, fold, depth, parent, j);
        var k :| 0 <= k < |more| && more[k] == s;
        assert rows[k + 1] == s && s.head.key != r.head.key;
        if Under(c[j].path, parent, r.head.key) {
          UnderOneKey(c[j].path, parent, s.head.key, r.head.key);
        }
      }
      TopUnder(parent, r);
      PathsDifferJoin(h, b, c);
    }
  }

  lemma StartsIsLonger(p: string, q: string)
    requires Starts(p, q + SEP)
    ensures p != q
  {
  }

  /** With plain, distinct sibling keys, folding under the cursor keeps one's place, and unfolding restores the view. */
  lemma PlainToggleTwice(v: View)
    requires UpToDate(v) && InWindow(v) && v.Current().Some? && v.rows[v.cursor].hasKids
    requires PlainKeys(v.result.value) && SiblingKeysDiffer(v.result.value)
    ensures KeepsPlace(v, Toggled(v)) && SameView(v, Toggled(Toggled(v)))
  {
    hide Toggled, KeepsPlace, SameView;
    PlainPathsDiffer(v.result.value, FoldOf(v.collapsed, v.foldDefault), 0, "");
    ToggleKeepsPlaceExactly(v);
    ToggleTwice(v);
  }
}
