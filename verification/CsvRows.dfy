/**
 Rows tagged with their depth, as the CSV renderer writes them. The depth column is enough to rebuild the
 tree, and the depth columns that come from some tree are exactly those that never skip a level.
 */
module CsvRows {
  import opened QueryModel
  import opened Sequences

  datatype Tagged = Tagged(head: Head, depth: nat)

  /** Rows from top to bottom, children right below their parent, one level deeper. */
  function Flat(rows: seq<Row>, depth: nat): (fs: seq<Tagged>)
    ensures rows != [] ==> fs != [] && fs[0].depth == depth
    ensures forall f :: f in fs ==> f.depth >= depth
  {
    if rows == [] then []
    else [Tagged(rows[0].head, depth)] + Flat(rows[0].sub, depth + 1) + Flat(rows[1..], depth)
  }

  lemma FlatStep(r: Row, more: seq<Row>, depth: nat)
    ensures Flat([r] + more, depth) == [Tagged(r.head, depth)] + (Flat(r.sub, depth + 1) + Flat(more, depth))
  {
    var rows := [r] + more;
    assert rows[0] == r && rows[1..] == more;
    assert Flat(rows, depth) == [Tagged(r.head, depth)] + Flat(r.sub, depth + 1) + Flat(more, depth);
  }

  method Flatten(rows: seq<Row>, depth: nat) returns (out: seq<Tagged>)
    ensures out == Flat(rows, depth)
    decreases rows
  {
    out := [];
    for i := 0 to |rows|
      invariant out + Flat(rows[i..], depth) == Flat(rows, depth)
    {
      hide Flat;
      var r := rows[i];
      ghost var before := out;
      out := out + [Tagged(r.head, depth)];
      var below := Flatten(r.sub, depth + 1);
      out := out + below;
      FlatStep(r, rows[i + 1..], depth);
      assert [r] + rows[i + 1..] == rows[i..];
      Regroup4(before, [Tagged(r.head, depth)], below, Flat(rows[i + 1..], depth));
    }
  }

  /** The forest of the leading rows at `depth` or deeper, and the rows that come after it. */
  function Rebuild(fs: seq<Tagged>, depth: nat): (r: (seq<Row>, seq<Tagged>))
    ensures |r.1| <= |fs|
    ensures r.0 == [] ==> r.1 == fs
    decreases |fs|
  {
    if fs == [] || fs[0].depth != depth then ([], fs)
    else
      var (sub, after) := Rebuild(fs[1..], depth + 1);
      var (more, rest) := Rebuild(after, depth);
      ([Row(fs[0].head, sub)] + more, rest)
  }

  /** A row that does not belong to a forest at `depth`, or the end. */
  predicate Outside(fs: seq<Tagged>, depth: nat) { fs != [] ==> fs[0].depth < depth }

  lemma RebuildStep(f: Tagged, fs: seq<Tagged>)
    ensures var (sub, after) := Rebuild(fs, f.depth + 1);
            var (more, rest) := Rebuild(after, f.depth);
            Rebuild([f] + fs, f.depth) == ([Row(f.head, sub)] + more, rest)
  {
    assert ([f] + fs)[1..] == fs;
  }

  /** Flattening any forest and rebuilding gives the forest back. */
  lemma {:induction false} FlatRebuild(rows: seq<Row>, depth: nat, rest: seq<Tagged>)
    requires Outside(rest, depth)
    ensures Rebuild(Flat(rows, depth) + rest, depth) == (rows, rest)
    decreases rows
  {
    if rows == [] {
      assert Flat(rows, depth) + rest == rest;
    } else {
      var r, more := rows[0], rows[1..];
      hide Flat, Rebuild;
      assert rows == [r] + more;
      FlatStep(r, more, depth);
      var f, below, after := Tagged(r.head, depth), Flat(r.sub, depth + 1), Flat(more, depth) + rest;
      assert Flat(rows, depth) + rest == [f] + (below + after);
      assert Outside(after, depth + 1) by {
        if more == [] {
          FlatNil(depth);
          assert after == rest;
        }
      }
      RebuildStep(f, below + after);
      FlatRebuild(r.sub, depth + 1, after);
      FlatRebuild(more, depth, rest);
    }
  }

  lemma FlatNil(depth: nat)
    ensures Flat([], depth) == []
  {
  }

  /** The first row is at `depth`, and no row is more than one level below the one before it. */
  ghost predicate NeverSkips(fs: seq<Tagged>, depth: nat) {
    && (fs != [] ==> fs[0].depth == depth)
    && (forall i :: 0 <= i < |fs| ==> fs[i].depth >= depth)
    && (forall i :: 0 < i < |fs| ==> fs[i].depth <= fs[i - 1].depth + 1)
  }

  /** Some rows at `depth` or below, with no level skipped, then rows outside. */
  ghost predicate Run(fs: seq<Tagged>, depth: nat) {
    && (fs != [] ==> fs[0].depth <= depth)
    && (forall i :: 0 < i < |fs| ==> fs[i].depth <= fs[i - 1].depth + 1)
  }

  lemma {:induction false} RebuildFlatStep(f: Tagged, tail: seq<Tagged>, sub: seq<Row>, after: seq<Tagged>, more: seq<Row>, rest: seq<Tagged>)
    requires tail == Flat(sub, f.depth + 1) + after && Rebuild(tail, f.depth + 1) == (sub, after)
    requires after == Flat(more, f.depth) + rest && Rebuild(after, f.depth) == (more, rest)
    ensures [f] + tail == Flat([Row(f.head, sub)] + more, f.depth) + rest
    ensures Rebuild([f] + tail, f.depth) == ([Row(f.head, sub)] + more, rest)
  {
    hide Flat, Rebuild;
    RebuildStep(f, tail);
    FlatStep(Row(f.head, sub), more, f.depth);
    Regroup4([f], Flat(sub, f.depth + 1), Flat(more, f.depth), rest);
  }

  lemma {:induction false} RebuildFlat(fs: seq<Tagged>, depth: nat) returns (rows: seq<Row>, rest: seq<Tagged>)
    requires Run(fs, depth)
    ensures Rebuild(fs, depth) == (rows, rest)
    ensures fs == Flat(rows, depth) + rest && Outside(rest, depth) && Run(rest, depth)
    decreases |fs|
  {
    if fs == [] || fs[0].depth != depth {
      FlatNil(depth);
      rows, rest := [], fs;
      assert [] + fs == fs;
    } else {
      hide Flat, Rebuild, Run;
      var f, tail := fs[0], fs[1..];
      assert fs == [f] + tail;
      RunTail(fs, depth);
      var sub, after := RebuildFlat(tail, depth + 1);
      OutsideRun(after, depth);
      var more;
      more, rest := RebuildFlat(after, depth);
      rows := [Row(f.head, sub)] + more;
      RebuildFlatStep(f, tail, sub, after, more, rest);
    }
  }

  lemma RunTail(fs: seq<Tagged>, depth: nat)
    requires Run(fs, depth) && fs != [] && fs[0].depth == depth
    ensures Run(fs[1..], depth + 1)
  {
    assert forall i :: 0 <= i < |fs| - 1 ==> fs[1..][i] == fs[i + 1];
  }

  lemma OutsideRun(fs: seq<Tagged>, depth: nat)
    requires Run(fs, depth + 1) && Outside(fs, depth + 1)
    ensures Run(fs, depth)
  {
  }

  lemma {:induction false} FlatNeverSkips(rows: seq<Row>, depth: nat)
    ensures NeverSkips(Flat(rows, depth), depth)
  {
    if rows != [] {
      FlatNeverSkips(rows[0].sub, depth + 1);
      FlatNeverSkips(rows[1..], depth);
      var a, b := Flat(rows[0].sub, depth + 1), Flat(rows[1..], depth);
      var fs := [Tagged(rows[0].head, depth)] + a + b;
      forall i | 0 < i < |fs| ensures fs[i].depth <= fs[i - 1].depth + 1 {
        if i <= |a| {
          assert fs[i] == a[i - 1] && (i > 1 ==> fs[i - 1] == a[i - 2]);
        } else {
          assert fs[i] == b[i - 1 - |a|] && (i - 1 > |a| ==> fs[i - 1] == b[i - 2 - |a|]);
          if i - 1 == |a| && |a| > 0 {
            assert fs[i - 1] == a[i - 2] && a[i - 2] in a;
          }
        }
      }
    }
  }

  /** A list of tagged rows is the flattening of a forest exactly when it never skips a level. */
  lemma FlatExactly(fs: seq<Tagged>)
    ensures NeverSkips(fs, 0) <==> exists rows :: Flat(rows, 0) == fs
    ensures NeverSkips(fs, 0) ==> Flat(Rebuild(fs, 0).0, 0) == fs
  {
    if NeverSkips(fs, 0) {
      var rows, rest := RebuildFlat(fs, 0);
      assert rest == [] && Flat(rows, 0) + rest == Flat(rows, 0);
    }
    if rows :| Flat(rows, 0) == fs {
      FlatNeverSkips(rows, 0);
    }
  }

  /** Different forests never flatten to the same rows. */
  lemma FlatInjective(a: seq<Row>, b: seq<Row>)
    requires Flat(a, 0) == Flat(b, 0)
    ensures a == b
  {
    FlatRebuild(a, 0, []);
    FlatRebuild(b, 0, []);
    assert Flat(a, 0) + [] == Flat(b, 0) + [];
  }
}
