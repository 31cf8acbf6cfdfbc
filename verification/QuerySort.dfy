/** The order of sibling rows, and sorting by it. */
module QuerySort {
  import opened Options
  import opened ByteOrder
  import opened QueryModel

  // ---- One sort key ----

  datatype Field = Text(s: string) | Number(n: Option<real>)

  function FieldValue(r: Head, field: string): Field {
    if field == "target" || field == "label" || field == "comm" || field == "name" then Text(r.title)
    else if field == "procs" then Number(Some(r.procs as real))
    else if field == "threads" then Number(Some(r.threads as real))
    else if field == "children" then Number(Some(r.children as real))
    else if field == "leaves" then Number(Some(r.leaves as real))
    else if field == "pid" then Number(if r.process.Some? then Some(r.process.value.pid as real) else None)
    else Number(if field in r.metrics then r.metrics[field].Get() else None)
  }

  datatype Verdict = Undecided | First | Second

  function LessString(a: string, b: string, desc: bool): Verdict {
    if a == b then Undecided else if StringLess(a, b) != desc then First else Second
  }

  /** Availability is settled before direction, so unavailable values come last either way. */
  function LessNumeric(a: Option<real>, b: Option<real>, desc: bool): Verdict {
    match (a, b)
    case (None, None) => Undecided
    case (Some(_), None) => First
    case (None, Some(_)) => Second
    case (Some(x), Some(y)) =>
      if x == y then Undecided
      else if desc then (if x > y then First else Second)
      else if x < y then First else Second
  }

  function LessByKey(a: Head, b: Head, k: SortKey): Verdict {
    var x, y := FieldValue(a, k.field), FieldValue(b, k.field);
    if x.Text? || y.Text? then LessString(if x.Text? then x.s else "", if y.Text? then y.s else "", k.descending)
    else LessNumeric(x.n, y.n, k.descending)
  }

  predicate TieBreak(a: Head, b: Head) {
    if a.kind != b.kind then StringLess(a.kind, b.kind)
    else if a.title != b.title then StringLess(a.title, b.title)
    else StringLess(a.key, b.key)
  }

  predicate Less(a: Head, b: Head, keys: seq<SortKey>) {
    if keys == [] then TieBreak(a, b)
    else match LessByKey(a, b, keys[0])
      case First => true
      case Second => false
      case Undecided => Less(a, b, keys[1..])
  }

  // ---- It is an order ----

  function Flip(v: Verdict): Verdict {
    match v
    case First => Second
    case Second => First
    case Undecided => Undecided
  }

  lemma KeyFlips(a: Head, b: Head, k: SortKey)
    ensures LessByKey(a, b, k) == Flip(LessByKey(b, a, k))
  {
    StringLessTotal(a.title, b.title);
  }

  /** How two verdicts chain: a decision against or through a tie stands. */
  lemma KeyChains(a: Head, b: Head, c: Head, k: SortKey)
    ensures LessByKey(a, b, k).Undecided? ==> LessByKey(a, c, k) == LessByKey(b, c, k)
    ensures LessByKey(b, c, k).Undecided? ==> LessByKey(a, c, k) == LessByKey(a, b, k)
    ensures LessByKey(a, b, k).First? && LessByKey(b, c, k).First? ==> LessByKey(a, c, k).First?
  {
    LabelsChain(a.title, b.title, c.title);
    LabelsChain(c.title, b.title, a.title);
    hide FieldValue;
    assert FieldValue(a, k.field).Text? == FieldValue(b, k.field).Text? == FieldValue(c, k.field).Text? by {
      TextFields(a, b, k.field);
      TextFields(b, c, k.field);
    }
    TextIsLabel(a, k.field);
    TextIsLabel(b, k.field);
    TextIsLabel(c, k.field);
  }

  lemma TextFields(a: Head, b: Head, field: string)
    ensures FieldValue(a, field).Text? == FieldValue(b, field).Text?
  {
  }

  lemma TextIsLabel(a: Head, field: string)
    ensures FieldValue(a, field).Text? ==> FieldValue(a, field).s == a.title
  {
  }

  lemma LabelsChain(a: string, b: string, c: string)
    ensures StringLess(a, b) && StringLess(b, c) ==> StringLess(a, c) && a != c && !StringLess(c, a)
    ensures a == b || StringLess(a, b) != StringLess(b, a)
    ensures a == c || StringLess(a, c) != StringLess(c, a)
    ensures b == c || StringLess(b, c) != StringLess(c, b)
  {
    StringLessTotal(a, b);
    StringLessTotal(b, c);
    StringLessTotal(a, c);
    if StringLess(a, b) && StringLess(b, c) {
      StringLessTransitive(a, b, c);
    }
  }

  predicate SameIdent(a: Head, b: Head) { a.kind == b.kind && a.title == b.title && a.key == b.key }

  lemma TieBreakOrders(a: Head, b: Head)
    ensures SameIdent(a, b) ==> !TieBreak(a, b)
    ensures !SameIdent(a, b) ==> TieBreak(a, b) != TieBreak(b, a)
  {
    StringLessTotal(a.kind, b.kind);
    StringLessTotal(a.title, b.title);
    StringLessTotal(a.key, b.key);
  }

  lemma TieBreakTransitive(a: Head, b: Head, c: Head)
    requires TieBreak(a, b) && TieBreak(b, c)
    ensures TieBreak(a, c)
  {
    LabelsChain(a.kind, b.kind, c.kind);
    LabelsChain(a.title, b.title, c.title);
    LabelsChain(a.key, b.key, c.key);
  }

  /** Whatever the sort keys, rows that differ in kind, label or key are ordered, one way only. */
  lemma {:induction false} LessTotal(a: Head, b: Head, keys: seq<SortKey>)
    ensures !(Less(a, b, keys) && Less(b, a, keys))
    ensures !SameIdent(a, b) ==> Less(a, b, keys) || Less(b, a, keys)
  {
    hide LessByKey, TieBreak;
    if keys == [] {
      TieBreakOrders(a, b);
    } else {
      KeyFlips(a, b, keys[0]);
      LessTotal(a, b, keys[1..]);
    }
  }

  lemma {:induction false} LessTransitive(a: Head, b: Head, c: Head, keys: seq<SortKey>)
    requires Less(a, b, keys) && Less(b, c, keys)
    ensures Less(a, c, keys)
  {
    hide LessByKey, TieBreak;
    if keys == [] {
      TieBreakTransitive(a, b, c);
    } else {
      KeyChains(a, b, c, keys[0]);
      if LessByKey(a, b, keys[0]).Undecided? && LessByKey(b, c, keys[0]).Undecided? {
        LessTransitive(a, b, c, keys[1..]);
      }
    }
  }

  predicate Tied(a: Head, b: Head, keys: seq<SortKey>) { !Less(a, b, keys) && !Less(b, a, keys) }

  /** Only rows that agree in kind, label and key are ever tied. */
  lemma TiedIsSameIdent(a: Head, b: Head, keys: seq<SortKey>)
    requires Tied(a, b, keys)
    ensures SameIdent(a, b)
  {
    LessTotal(a, b, keys);
  }

  // ---- Sorting ----

  /** Stable insertion: a row goes after every row it is not before. */
  function Insert(s: seq<Row>, r: Row, keys: seq<SortKey>): (t: seq<Row>)
    ensures |t| == |s| + 1 && multiset(t) == multiset(s) + multiset{r}
  {
    if s == [] || !Less(r.head, s[|s| - 1].head, keys) then s + [r]
    else
      assert s == s[..|s| - 1] + [s[|s| - 1]];
      Insert(s[..|s| - 1], r, keys) + [s[|s| - 1]]
  }

  function Sorted(s: seq<Row>, keys: seq<SortKey>): (t: seq<Row>)
    ensures |t| == |s| && multiset(t) == multiset(s)
  {
    if s == [] then []
    else
      assert s == s[..|s| - 1] + [s[|s| - 1]];
      Insert(Sorted(s[..|s| - 1], keys), s[|s| - 1], keys)
  }

  ghost predicate InOrder(s: seq<Row>, keys: seq<SortKey>) {
    forall i, j :: 0 <= i < j < |s| ==> !Less(s[j].head, s[i].head, keys)
  }

  lemma SameElements(s: seq<Row>, t: seq<Row>)
    requires multiset(s) == multiset(t)
    ensures forall x :: x in s <==> x in t
  {
    assert forall x :: x in s <==> x in multiset(s);
    assert forall x :: x in t <==> x in multiset(t);
  }

  /** What sorting promises: the rows come in order. */
  lemma {:induction false} InsertInOrder(s: seq<Row>, r: Row, keys: seq<SortKey>)
    requires InOrder(s, keys)
    ensures InOrder(Insert(s, r, keys), keys)
  {
    hide Less;
    var t := Insert(s, r, keys);
    if s != [] {
      var last, init := s[|s| - 1], s[..|s| - 1];
      if Less(r.head, last.head, keys) {
        InsertInOrder(init, r, keys);
        SameElements(Insert(init, r, keys), init + [r]);
        LessTotal(r.head, last.head, keys);
        forall i | 0 <= i < |s| ensures !Less(last.head, t[i].head, keys) {
          assert t[i] in init + [r];
        }
      } else {
        forall i | 0 <= i < |s| ensures !Less(r.head, s[i].head, keys) {
          if Less(r.head, s[i].head, keys) {
            NotLessThrough(r.head, s[i].head, last.head, keys);
          }
        }
      }
    }
  }

  lemma {:induction false} NotLessThrough(a: Head, b: Head, c: Head, keys: seq<SortKey>)
    requires Less(a, b, keys) && !Less(c, b, keys)
    ensures Less(a, c, keys)
  {
    hide Less;
    if Less(b, c, keys) {
      LessTransitive(a, b, c, keys);
    } else {
      TiedIsSameIdent(b, c, keys);
      TiedReplaces(a, b, c, keys);
    }
  }

  /** Tied rows stand in the same place against every other row. */
  lemma {:induction false} TiedReplaces(a: Head, b: Head, c: Head, keys: seq<SortKey>)
    requires Tied(b, c, keys)
    ensures Less(a, b, keys) == Less(a, c, keys) && Less(b, a, keys) == Less(c, a, keys)
  {
    hide LessByKey;
    if keys == [] {
      TieBreakOrders(b, c);
    } else {
      KeyFlips(b, c, keys[0]);
      KeyChains(a, b, c, keys[0]);
      KeyChains(b, c, a, keys[0]);
      TiedReplaces(a, b, c, keys[1..]);
    }
  }

  lemma {:induction false} SortedInOrder(s: seq<Row>, keys: seq<SortKey>)
    ensures InOrder(Sorted(s, keys), keys)
  {
    if s != [] {
      SortedInOrder(s[..|s| - 1], keys);
      InsertInOrder(Sorted(s[..|s| - 1], keys), s[|s| - 1], keys);
    }
  }

  /** The rows of a list that are tied with one row, in list order. */
  function TiedWith(s: seq<Row>, x: Head, keys: seq<SortKey>): seq<Row> {
    if s == [] then []
    else TiedWith(s[..|s| - 1], x, keys) + (if Tied(s[|s| - 1].head, x, keys) then [s[|s| - 1]] else [])
  }

  lemma TiedWithLast(init: seq<Row>, last: Row, x: Head, keys: seq<SortKey>)
    ensures TiedWith(init + [last], x, keys) == TiedWith(init, x, keys) + if Tied(last.head, x, keys) then [last] else []
  {
    assert (init + [last])[..|init|] == init;
  }

  lemma InsertSplits(init: seq<Row>, last: Row, r: Row, keys: seq<SortKey>)
    ensures Insert([], r, keys) == [r]
    ensures Insert(init + [last], r, keys) ==
            if Less(r.head, last.head, keys) then Insert(init, r, keys) + [last] else init + [last] + [r]
  {
    hide Less;
    assert (init + [last])[..|init|] == init;
  }

  lemma {:induction false} InsertStable(s: seq<Row>, r: Row, x: Head, keys: seq<SortKey>)
    ensures TiedWith(Insert(s, r, keys), x, keys) ==
            TiedWith(s, x, keys) + if Tied(r.head, x, keys) then [r] else []
  {
    hide Less, Insert, TiedWith, Tied;
    if s == [] {
      InsertSplits([], r, r, keys);
      assert [] + [r] == [r];
      TiedWithLast([], r, x, keys);
    } else {
      var init, last := s[..|s| - 1], s[|s| - 1];
      assert s == init + [last];
      InsertSplits(init, last, r, keys);
      TiedWithLast(s, r, x, keys);
      if Less(r.head, last.head, keys) {
        InsertStable(init, r, x, keys);
        TiedWithLast(Insert(init, r, keys), last, x, keys);
        TiedWithLast(init, last, x, keys);
        NotBothTied(r.head, last.head, x, keys);
      }
    }
  }

  /** Of two rows of which one comes first, at most one is tied with a third. */
  lemma NotBothTied(a: Head, b: Head, x: Head, keys: seq<SortKey>)
    requires Less(a, b, keys)
    ensures !Tied(a, x, keys) || !Tied(b, x, keys)
  {
    if Tied(a, x, keys) && Tied(b, x, keys) {
      TiedReplaces(a, b, x, keys);
    }
  }

  /** Sorting is stable: tied rows keep the order they came in. */
  lemma {:induction false} SortedStable(s: seq<Row>, x: Head, keys: seq<SortKey>)
    ensures TiedWith(Sorted(s, keys), x, keys) == TiedWith(s, x, keys)
  {
    if s != [] {
      SortedStable(s[..|s| - 1], x, keys);
      InsertStable(Sorted(s[..|s| - 1], keys), s[|s| - 1], x, keys);
    }
  }

  // ---- Siblings that differ sort in one way only ----

  /** No two rows of a list agree in kind, label and key. */
  ghost predicate Distinct(s: seq<Row>) {
    forall i, j :: 0 <= i < j < |s| ==> !SameIdent(s[i].head, s[j].head)
  }

  ghost predicate Strict(s: seq<Row>, keys: seq<SortKey>) {
    forall i, j :: 0 <= i < j < |s| ==> Less(s[i].head, s[j].head, keys)
  }

  lemma {:induction false} InsertStrict(s: seq<Row>, r: Row, keys: seq<SortKey>)
    requires Strict(s, keys) && forall x :: x in s ==> !SameIdent(x.head, r.head)
    ensures Strict(Insert(s, r, keys), keys)
  {
    hide Less, SameIdent;
    var t := Insert(s, r, keys);
    if s != [] {
      var last, init := s[|s| - 1], s[..|s| - 1];
      assert last in s;
      LessTotal(r.head, last.head, keys);
      LessTotal(last.head, r.head, keys);
      if Less(r.head, last.head, keys) {
        InsertStrict(init, r, keys);
        SameElements(Insert(init, r, keys), init + [r]);
        forall i | 0 <= i < |s| ensures Less(t[i].head, last.head, keys) {
          assert t[i] in init + [r];
        }
      } else {
        IdentFlips(last.head, r.head);
        forall i | 0 <= i < |s| ensures Less(s[i].head, r.head, keys) {
          if i < |s| - 1 {
            LessTransitive(s[i].head, last.head, r.head, keys);
          }
        }
      }
    }
  }

  lemma IdentFlips(a: Head, b: Head)
    ensures SameIdent(a, b) == SameIdent(b, a)
  {
  }

  lemma {:induction false} SortedStrict(s: seq<Row>, keys: seq<SortKey>)
    requires Distinct(s)
    ensures Strict(Sorted(s, keys), keys)
  {
    if s != [] {
      var init := s[..|s| - 1];
      SortedStrict(init, keys);
      SameElements(Sorted(init, keys), init);
      InsertStrict(Sorted(init, keys), s[|s| - 1], keys);
    }
  }

  /** Two strictly ordered lists with the same elements are the same list. */
  lemma {:induction false} StrictUnique(s: seq<Row>, t: seq<Row>, keys: seq<SortKey>)
    requires Strict(s, keys) && Strict(t, keys)
    requires forall x :: x in s <==> x in t
    ensures s == t
  {
    hide Less;
    NoElements(s, t);
    if s != [] {
      assert s[0] in t;
      assert t[0] in s;
      var i :| 0 <= i < |t| && t[i] == s[0];
      var j :| 0 <= j < |s| && s[j] == t[0];
      if i > 0 && j > 0 {
        LessTotal(s[0].head, t[0].head, keys);
      }
      assert s[0] == t[0];
      forall x ensures x in s[1..] <==> x in t[1..] {
        TailElements(s, t, x, keys);
        TailElements(t, s, x, keys);
      }
      StrictUnique(s[1..], t[1..], keys);
    }
  }

  lemma NoElements(s: seq<Row>, t: seq<Row>)
    requires forall x :: x in s <==> x in t
    ensures s == [] <==> t == []
  {
    assert s != [] ==> s[0] in t;
    assert t != [] ==> t[0] in s;
  }

  lemma TailElements(s: seq<Row>, t: seq<Row>, x: Row, keys: seq<SortKey>)
    requires Strict(s, keys) && Strict(t, keys) && s != [] && t != [] && s[0] == t[0]
    requires forall y :: y in s <==> y in t
    ensures x in s[1..] ==> x in t[1..]
  {
    hide Less;
    if x in s[1..] {
      var k :| 0 <= k < |s| - 1 && s[1..][k] == x;
      assert s[k + 1] == x && x in t;
      LessTotal(s[0].head, x.head, keys);
      assert x != t[0];
      var i :| 0 <= i < |t| && t[i] == x;
      assert t[1..][i - 1] == x;
    }
  }
}
