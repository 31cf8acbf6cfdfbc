/**
 A separator inside a key. Two processes, grouped by command and then by user, give a result in which two
 groups share a path although all sibling keys differ; folding one folds the other, and the cursor is lost.
 */
module TuiSeparator {
  import opened Options
  import opened ByteOrder
  import opened Identity
  import opened QueryModel
  import opened QuerySort
  import opened QueryBuild
  import opened TuiView
  import opened TuiFold
  import TuiPaths

  // ---- The query and its result ----

  function Proc(pid: nat, comm: string, user: string): Process {
    Process(ProcessId("boot", 1, pid, 7), pid, 1, pid, pid, 0, comm, comm, user, "", "", "", "", "", "", "S", "", "", map[], "", 1, map[], [])
  }

  /** The user of the first is what follows the separator in the command of the second. */
  function First(): Process { Proc(5, "a", "b") }

  function Second(): Process { Proc(6, "a" + SEP + "b", "c") }

  function Query(): Spec { Spec([], p => true, ["comm", "user"], "process", h => true, [], 0) }

  function Leaf(p: Process): Row { ProcessRow(p, []) }

  function GroupOf(dim: string, key: string, sub: Row): Row { Row(Head(GROUP, dim, key, key, 1, 1, 1, 1, map[], None, None), [sub]) }

  /** The groups of one process. */
  function Chain(p: Process): Row { GroupOf("comm", p.comm, GroupOf("user", p.user, Leaf(p))) }

  function Ambiguous(): seq<Row> { [Chain(First()), Chain(Second())] }

  lemma BuiltLeaf(p: Process)
    requires p.threads == [] && p.numThreads == 1
    ensures MakeLeaves([p], "process", []) == [Leaf(p)] && LeavesIn([Leaf(p)]) == 1 && ThreadTotal([p]) == 1
  {
    assert [p][..0] == [] && [Leaf(p)][..0] == [];
  }

  lemma {:induction false} BuiltGroup(reg: Registry, procs: seq<Process>, p: Process, dims: seq<Dimension>, id: string, sub: Row)
    requires dims != [] && p.threads == [] && p.numThreads == 1 && dims[0].id == id
    requires var key := KeyOf(p, dims[0]);
             Bucket(procs, dims[0], key) == [p] && dims[0].extract(p) == Some((key, key)) && key != UNKNOWN
    requires Group(reg, [p], dims[1..], "process", []) == [sub] && CountLeaves(sub) == 1
    ensures var key := KeyOf(p, dims[0]);
            GroupRow(reg, procs, dims, "process", [], key) == GroupOf(id, key, sub) && CountLeaves(GroupOf(id, key, sub)) == 1
  {
    BuiltLeaf(p);
    var key := KeyOf(p, dims[0]);
    assert [sub][..0] == [] && LeavesIn([sub]) == 1;
    assert Aggregates(reg, [p], []) == map[];
  }

  /** Dimension `d` groups `p` under `value`. */
  ghost predicate Shows(d: Dimension, id: string, p: Process, value: string) {
    d.id == id && d.extract(p) == Some((value, value)) && value != UNKNOWN
  }

  lemma {:induction false} BuiltChain(reg: Registry, procs: seq<Process>, p: Process, dims: seq<Dimension>)
    requires |dims| == 2 && p.threads == [] && p.numThreads == 1
    requires Shows(dims[0], "comm", p, p.comm) && Shows(dims[1], "user", p, p.user)
    requires Bucket(procs, dims[0], p.comm) == [p]
    ensures GroupRow(reg, procs, dims, "process", [], p.comm) == Chain(p)
  {
    hide GroupRow;
    var users := dims[1..];
    assert [p][..0] == [];
    assert Keys([p], users[0]) == [p.user] && Bucket([p], users[0], p.user) == [p];
    assert users[1..] == [];
    BuiltLeaf(p);
    BuiltGroup(reg, [p], p, users, "user", Leaf(p));
    var user := GroupOf("user", p.user, Leaf(p));
    assert Group(reg, [p], users, "process", []) == [user];
    BuiltGroup(reg, procs, p, dims, "comm", user);
  }

  lemma Dimensions() returns (dims: seq<Dimension>)
    ensures ResolveGroupBy(["comm", "user"]) == Dims(dims) && |dims| == 2
    ensures forall p :: p == First() || p == Second() ==> Shows(dims[0], "comm", p, p.comm) && Shows(dims[1], "user", p, p.user)
  {
    var ids := ["comm", "user"];
    ResolveGroupByExact(ids);
    dims := ResolveGroupBy(ids).dims;
    assert GetDimension(ids[0]) == Some(dims[0]) && GetDimension(ids[1]) == Some(dims[1]);
    assert First().comm != UNKNOWN && Second().comm != UNKNOWN by { assert First().comm[0] != UNKNOWN[0] && Second().comm[0] != UNKNOWN[0]; }
    assert First().user != UNKNOWN && Second().user != UNKNOWN by { assert First().user[0] != UNKNOWN[0] && Second().user[0] != UNKNOWN[0]; }
  }

  lemma Buckets(d: Dimension)
    requires Shows(d, "comm", First(), First().comm) && Shows(d, "comm", Second(), Second().comm)
    ensures var procs := [First(), Second()];
            && Keys(procs, d) == [First().comm, Second().comm]
            && Bucket(procs, d, First().comm) == [First()] && Bucket(procs, d, Second().comm) == [Second()]
  {
    var p, q := First(), Second();
    assert p.comm != q.comm by { assert |p.comm| == 1; }
    hide First, Second;
    assert [p, q][..1] == [p] && [p][..0] == [];
    assert KeyOf(p, d) == p.comm && KeyOf(q, d) == q.comm;
    assert Keys([p], d) == [p.comm] && Bucket([p], d, p.comm) == [p] && Bucket([p], d, q.comm) == [];
    assert Keys([p, q], d) == [p.comm] + [q.comm];
    assert Bucket([p, q], d, q.comm) == [] + [q];
    assert Bucket([p, q], d, p.comm) == [p] + [];
  }

  lemma {:induction false} BuiltTree(reg: Registry, dims: seq<Dimension>)
    requires |dims| == 2
    requires forall p :: p == First() || p == Second() ==> Shows(dims[0], "comm", p, p.comm) && Shows(dims[1], "user", p, p.user)
    ensures Group(reg, [First(), Second()], dims, "process", []) == Ambiguous()
  {
    hide GroupRow;
    var procs := [First(), Second()];
    assert First().comm != Second().comm by { assert |First().comm| == 1; }
    Buckets(dims[0]);
    BuiltChain(reg, procs, First(), dims);
    BuiltChain(reg, procs, Second(), dims);
  }

  // ---- Filter and sort leave it ----

  lemma OneKept(r: Row)
    requires ApplyHaving(r.sub, h => true) == r.sub
    ensures ApplyHaving([r], h => true) == [r]
  {
    assert [r][..0] == [];
  }

  lemma OneSorted(r: Row)
    requires SortTree(r.sub, []) == r.sub
    ensures SortTree([r], []) == [r]
  {
    assert [r][..0] == [] && Sorted([r], []) == [r];
  }

  lemma ChainKept(p: Process)
    ensures ApplyHaving([Chain(p)], h => true) == [Chain(p)] && SortTree(Chain(p).sub, []) == Chain(p).sub
  {
    var user := GroupOf("user", p.user, Leaf(p));
    OneKept(Leaf(p));
    OneKept(user);
    OneKept(Chain(p));
    OneSorted(Leaf(p));
    OneSorted(user);
  }

  lemma TwoKept(a: Row, c: Row)
    requires ApplyHaving([a], h => true) == [a] && ApplyHaving([c], h => true) == [c]
    ensures ApplyHaving([a, c], h => true) == [a, c]
  {
    assert [a, c][..1] == [a] && [c][..0] == [];
    assert ApplyHaving([c], h => true) == [] + [Row(c.head, ApplyHaving(c.sub, h => true))];
  }

  lemma TwoInOrder(a: Row, c: Row)
    requires !TieBreak(c.head, a.head)
    ensures Sorted([a, c], []) == [a, c]
  {
    hide TieBreak;
    assert [a, c][..1] == [a] && [a][..0] == [];
    assert Sorted([a], []) == [a];
  }

  lemma TwoSorted(a: Row, c: Row)
    requires SortTree(a.sub, []) == a.sub && SortTree(c.sub, []) == c.sub && !TieBreak(c.head, a.head)
    ensures SortTree([a, c], []) == [a, c]
  {
    TwoInOrder(a, c);
    hide TieBreak, Sorted;
    assert SortTree([a, c], [])[0] == a && SortTree([a, c], [])[1] == c;
  }

  lemma PrefixFirst(a: string, b: string)
    requires |a| == 1 && b != ""
    ensures !StringLess(a + b, a)
  {
    assert a[1..] == "" && (a + b)[1..] == b;
  }

  lemma SelectedBoth(p: Process, q: Process)
    ensures Selected([p, q], p => true) == [p, q]
  {
    assert [p, q][..1] == [p] && [p][..0] == [];
    assert Selected([p], p => true) == [] + [p];
  }

  /** The tree is what the query engine builds. */
  lemma AmbiguousIsBuilt(reg: Registry)
    ensures Build(reg, [First(), Second()], Query()) == Rows(Ambiguous())
  {
    hide Group, Selected, ApplyHaving, SortTree, ResolveGroupBy;
    var dims := Dimensions();
    BuiltTree(reg, dims);
    SelectedBoth(First(), Second());
    ChainKept(First());
    ChainKept(Second());
    TwoKept(Chain(First()), Chain(Second()));
    PrefixFirst("a", SEP + "b");
    assert First().comm != Second().comm by { assert |First().comm| == 1; }
    TwoSorted(Chain(First()), Chain(Second()));
  }

  // ---- What is shown ----

  const SHARED := SEP + "a" + SEP + "b"

  function Both(folded: bool): Fold { p => folded && p == SHARED }

  /** The six rows when nothing is folded, the three when the shared path is. */
  function AllRows(folded: bool): seq<VRow> {
    var p, q := First(), Second();
    var b, c := GroupOf("user", p.user, Leaf(p)), GroupOf("user", q.user, Leaf(q));
    [VRow(Chain(p), 0, SEP + "a", true, false), VRow(b, 1, SHARED, true, folded)] +
    (if folded then [] else [VRow(Leaf(p), 2, SHARED + SEP + Leaf(p).head.key, false, false)]) +
    [VRow(Chain(q), 0, SHARED, true, folded)] +
    (if folded then [] else [VRow(c, 1, SHARED + SEP + "c", true, false),
                             VRow(Leaf(q), 2, SHARED + SEP + "c" + SEP + Leaf(q).head.key, false, false)])
  }

  lemma FlattenNil(fold: Fold, depth: nat, parent: string)
    ensures Flatten([], fold, depth, parent) == []
  {
  }

  lemma FlattenOne(r: Row, fold: Fold, depth: nat, parent: string)
    ensures Flatten([r], fold, depth, parent) == [RowAt(r, fold, depth, parent)] + Below(r, fold, depth, parent)
  {
    FlattenNil(fold, depth, parent);
    FlattenStep(r, [], fold, depth, parent);
    assert [r] + [] == [r];
  }

  lemma PathsWritten()
    ensures "" + SEP + "a" == SEP + "a" && SEP + "a" + SEP + "b" == SHARED && "" + SEP + ("a" + SEP + "b") == SHARED
    ensures SEP + "a" != SHARED && SHARED + SEP + "c" != SHARED
  {
    assert |SEP + "a"| < |SHARED| < |SHARED + SEP + "c"|;
  }

  /** One chain of groups, of which the fold hides what is under the shared path. */
  lemma FlattenChain(p: Process, fold: Fold, parent: string, path: string)
    requires path == "" + SEP + p.comm
    ensures var user := GroupOf("user", p.user, Leaf(p));
            && RowAt(Chain(p), fold, 0, "") == VRow(Chain(p), 0, path, true, fold(path))
            && Below(Chain(p), fold, 0, "") ==
               if fold(path) then []
               else [VRow(user, 1, path + SEP + p.user, true, fold(path + SEP + p.user))] +
                    if fold(path + SEP + p.user) then []
                    else [VRow(Leaf(p), 2, path + SEP + p.user + SEP + Leaf(p).head.key, false, false)]
  {
    var user := GroupOf("user", p.user, Leaf(p));
    FlattenOne(user, fold, 1, path);
    FlattenOne(Leaf(p), fold, 2, path + SEP + p.user);
  }

  lemma AmbiguousRows(folded: bool)
    ensures Flatten(Ambiguous(), Both(folded), 0, "") == AllRows(folded)
  {
    PathsWritten();
    var f := Both(folded);
    FlattenChain(First(), f, "", SEP + "a");
    FlattenChain(Second(), f, "", SHARED);
    FlattenOne(Chain(Second()), f, 0, "");
    FlattenStep(Chain(First()), [Chain(Second())], f, 0, "");
    hide Flatten, Below, RowAt, SHARED, Chain, Leaf;
    assert [Chain(First())] + [Chain(Second())] == Ambiguous();
  }

  function Opened(folded: map<string, bool>, cursor: int, rows: seq<VRow>): View {
    View(Some(Ambiguous()), rows, cursor, 0, folded, false, true, 24, 0)
  }

  lemma RebuiltAmbiguous(collapsed: map<string, bool>, folded: bool, cursor: nat, rows: seq<VRow>)
    requires forall p :: FoldOf(collapsed, false)(p) == Both(folded)(p)
    requires cursor < 6
    ensures Rebuilt(Opened(collapsed, cursor, rows)) ==
            Opened(collapsed, if folded && cursor > 2 then 2 else cursor, AllRows(folded))
  {
    hide Flatten;
    SameFoldSameRows(Ambiguous(), FoldOf(collapsed, false), Both(folded), 0, "");
    AmbiguousRows(folded);
    assert AllRows(folded)[0].row.head.kind == GROUP;
  }

  /** On this result all sibling keys differ, but folding loses one's place and unfolding moves the cursor. */
  lemma SeparatorBreaksFold(reg: Registry) returns (v: View)
    ensures v.result.Some? && Build(reg, [First(), Second()], Query()) == Rows(v.result.value)
    ensures UpToDate(v) && InWindow(v) && v.Current().Some? && v.rows[v.cursor].hasKids && TuiPaths.SiblingKeysDiffer(v.result.value)
    ensures !KeepsPlace(v, Toggled(v))
    ensures Toggled(Toggled(v)).rows == v.rows && Toggled(Toggled(v)).cursor != v.cursor
  {
    AmbiguousIsBuilt(reg);
    hide Flatten, Rebuilt, AnyGroup, Build;
    v := Opened(map[], 3, AllRows(false));
    var u := Opened(map[SHARED := true], 2, AllRows(true));
    var w := Opened(map[SHARED := false], 2, AllRows(false));
    RebuiltAmbiguous(map[], false, 3, []);
    RebuildIsUpToDate(Opened(map[], 3, []));
    RebuiltAmbiguous(map[SHARED := true], true, 3, AllRows(false));
    RebuiltAmbiguous(map[SHARED := false], false, 2, AllRows(true));
    assert map[SHARED := true][SHARED := false] == map[SHARED := false];
    assert Toggled(v) == u && Toggled(u) == w;
    assert First().comm != Second().comm by { assert |First().comm| == 1; }
  }
}
