/**
 The check of preset inheritance: a depth-first walk with three colours. It accepts exactly when every
 chain of parents reaches a preset without one, in whatever order the presets are visited.
 */
module Presets {
  import opened Options

  /** The parent each preset names; "" when it has none. */
  type Parents = map<string, string>

  datatype Color = White | Gray | Black

  datatype PresetError = MissingParent(name: string) | CycleAt(name: string)

  // ---- What the check is for ----

  /** The chain from `name` ends at a preset without parent within `n` steps. */
  predicate EndsWithin(ps: Parents, name: string, n: nat)
    decreases n
  {
    name in ps && (ps[name] == "" || (n > 0 && EndsWithin(ps, ps[name], n - 1)))
  }

  ghost predicate Rooted(ps: Parents, name: string) { exists n: nat :: EndsWithin(ps, name, n) }

  ghost predicate AllRooted(ps: Parents) { forall name :: name in ps ==> Rooted(ps, name) }

  lemma ParentRooted(ps: Parents, name: string)
    requires name in ps && ps[name] != ""
    ensures Rooted(ps, name) <==> Rooted(ps, ps[name])
  {
    if n: nat :| EndsWithin(ps, name, n) {
      assert EndsWithin(ps, ps[name], n - 1);
    }
    if n: nat :| EndsWithin(ps, ps[name], n) {
      assert EndsWithin(ps, name, n + 1);
    }
  }

  lemma RootIsRooted(ps: Parents, name: string)
    requires name in ps && ps[name] == ""
    ensures Rooted(ps, name)
  {
    assert EndsWithin(ps, name, 0);
  }

  /** Presets whose parents are all among themselves never end. */
  ghost predicate Closed(ps: Parents, names: set<string>) {
    forall g :: g in names ==> g in ps && ps[g] != "" && ps[g] in names
  }

  lemma {:induction false} ClosedNeverEnds(ps: Parents, names: set<string>, name: string, n: nat)
    requires Closed(ps, names) && name in names
    ensures !EndsWithin(ps, name, n)
    decreases n
  {
    if n > 0 {
      ClosedNeverEnds(ps, names, ps[name], n - 1);
    }
  }

  lemma ClosedNotRooted(ps: Parents, names: set<string>, name: string)
    requires Closed(ps, names) && name in names
    ensures !Rooted(ps, name)
  {
    forall n: nat ensures !EndsWithin(ps, name, n) {
      ClosedNeverEnds(ps, names, name, n);
    }
  }

  // ---- The same, as no missing parent and no cycle ----

  ghost predicate NoMissing(ps: Parents) { forall name :: name in ps && ps[name] != "" ==> ps[name] in ps }

  predicate Follows(ps: Parents, c: seq<string>, i: nat)
    requires i + 1 < |c|
  {
    c[i] in ps && ps[c[i]] == c[i + 1]
  }

  /** Each preset of `c` names the next as its parent, the last one the first. */
  ghost predicate Cycle(ps: Parents, c: seq<string>) {
    && c != []
    && (forall i :: 0 <= i < |c| ==> c[i] in ps && c[i] != "")
    && (forall i :: 0 <= i < |c| - 1 ==> Follows(ps, c, i))
    && ps[c[|c| - 1]] == c[0]
  }

  lemma CycleNotRooted(ps: Parents, c: seq<string>)
    requires Cycle(ps, c)
    ensures !Rooted(ps, c[0])
  {
    var names := set i | 0 <= i < |c| :: c[i];
    forall g | g in names ensures g in ps && ps[g] != "" && ps[g] in names {
      var i :| 0 <= i < |c| && c[i] == g;
      if i < |c| - 1 {
        assert Follows(ps, c, i);
      }
    }
    ClosedNotRooted(ps, names, c[0]);
  }

  /** A walk from a preset upward, without repetition. */
  ghost predicate Walk(ps: Parents, w: seq<string>) {
    && w != []
    && (forall i :: 0 <= i < |w| ==> w[i] in ps)
    && (forall i :: 0 <= i < |w| - 1 ==> Follows(ps, w, i) && w[i + 1] != "")
    && (forall i, j :: 0 <= i < j < |w| ==> w[i] != w[j])
  }

  lemma {:induction false} DistinctFit(s: seq<string>, names: set<string>)
    requires forall i :: 0 <= i < |s| ==> s[i] in names
    requires forall i, j :: 0 <= i < j < |s| ==> s[i] != s[j]
    ensures |s| <= |names|
  {
    if s != [] {
      var last := s[|s| - 1];
      DistinctFit(s[..|s| - 1], names - {last});
    }
  }

  lemma WalkCloses(ps: Parents, w: seq<string>, i: nat)
    requires Walk(ps, w) && i < |w| && ps[w[|w| - 1]] == w[i] && w[i] != ""
    ensures Cycle(ps, w[i..])
  {
    var c := w[i..];
    forall k | 0 <= k < |c| ensures c[k] in ps && c[k] != "" {
      assert c[k] == w[i + k];
      if k > 0 {
        assert Follows(ps, w, i + k - 1);
      }
    }
    forall k | 0 <= k < |c| - 1 ensures Follows(ps, c, k) {
      assert Follows(ps, w, i + k);
    }
  }

  lemma WalkGrows(ps: Parents, w: seq<string>, parent: string)
    requires Walk(ps, w) && parent in ps && parent != "" && ps[w[|w| - 1]] == parent && parent !in w
    ensures Walk(ps, w + [parent])
  {
    var longer := w + [parent];
    forall i | 0 <= i < |w| ensures Follows(ps, longer, i) && longer[i + 1] != "" {
      if i < |w| - 1 {
        assert Follows(ps, w, i);
      }
    }
  }

  lemma WalkFits(ps: Parents, w: seq<string>)
    requires Walk(ps, w)
    ensures |w| <= |ps|
  {
    assert |ps| == |ps.Keys|;
    DistinctFit(w, ps.Keys);
  }

  lemma {:induction false} WalkEnds(ps: Parents, w: seq<string>)
    requires NoMissing(ps) && (forall c :: !Cycle(ps, c)) && Walk(ps, w)
    ensures Rooted(ps, w[|w| - 1])
    decreases |ps| - |w|
  {
    var last := w[|w| - 1];
    if ps[last] == "" {
      RootIsRooted(ps, last);
    } else {
      var parent := ps[last];
      if parent in w {
        var i :| 0 <= i < |w| && w[i] == parent;
        WalkCloses(ps, w, i);
        assert false;
      } else {
        WalkGrows(ps, w, parent);
        hide Walk, Rooted, Cycle;
        WalkFits(ps, w + [parent]);
        WalkEnds(ps, w + [parent]);
        ParentRooted(ps, last);
      }
    }
  }

  /** Every chain ends exactly when no parent is missing and no preset inherits from itself. */
  lemma AllRootedIsAcyclic(ps: Parents)
    ensures AllRooted(ps) <==> NoMissing(ps) && forall c :: !Cycle(ps, c)
  {
    if AllRooted(ps) {
      forall name | name in ps && ps[name] != "" ensures ps[name] in ps {
        ParentRooted(ps, name);
      }
      forall c ensures !Cycle(ps, c) {
        if Cycle(ps, c) {
          CycleNotRooted(ps, c);
        }
      }
    }
    if NoMissing(ps) && forall c :: !Cycle(ps, c) {
      forall name | name in ps ensures Rooted(ps, name) {
        WalkEnds(ps, [name]);
      }
    }
  }

  // ---- The check ----

  type Colors = map<string, Color>

  function ColorOf(color: Colors, name: string): Color { if name in color then color[name] else White }

  /** The presets not reached yet: the termination measure. */
  function Unreached(ps: Parents, color: Colors): set<string> { set name | name in ps && ColorOf(color, name) == White }

  function Grays(color: Colors): set<string> { set name | name in color && color[name] == Gray }

  /**
   What is finished ends at a root; every preset on the walk has a parent, which is on the walk or is
   `next`, the preset to visit.
   */
  ghost predicate Underway(ps: Parents, color: Colors, next: string) {
    && (forall name :: name in color && color[name] == Black ==> Rooted(ps, name))
    && (forall g :: g in Grays(color) ==> g in ps && ps[g] != "" && (ps[g] in Grays(color) || ps[g] == next))
  }

  /** The walk has come back from a preset: it is finished, and the rest of the walk is as before. */
  ghost predicate Returned(ps: Parents, before: Colors, after: Colors, name: string) {
    && ColorOf(after, name) == Black && Grays(after) == Grays(before)
    && Unreached(ps, after) <= Unreached(ps, before)
    && (forall n :: ColorOf(before, n) == Black ==> ColorOf(after, n) == Black)
    && (forall n :: n in after && after[n] == Black ==> Rooted(ps, n))
  }

  lemma Enters(ps: Parents, color: Colors, name: string)
    requires name in ps && ColorOf(color, name) == White && Underway(ps, color, name)
    ensures var c := color[name := Gray];
            && Unreached(ps, c) == Unreached(ps, color) - {name} && name in Unreached(ps, color)
            && Grays(c) == Grays(color) + {name}
            && (ps[name] != "" ==> Underway(ps, c, ps[name]))
  {
    var c := color[name := Gray];
    assert Grays(c) == Grays(color) + {name};
  }

  lemma Leaves(ps: Parents, before: Colors, c: Colors, name: string)
    requires name in ps && ColorOf(before, name) == White && Rooted(ps, name)
    requires Grays(c) == Grays(before) + {name} && Unreached(ps, c) <= Unreached(ps, before)
    requires forall n :: ColorOf(before, n) == Black ==> ColorOf(c, n) == Black
    requires forall n :: n in c && c[n] == Black ==> Rooted(ps, n)
    ensures Returned(ps, before, c[name := Black], name)
  {
    var after := c[name := Black];
    assert name !in Grays(before);
    assert Grays(after) == Grays(before);
  }

  class Checker {
    const presets: Parents
    var color: Colors

    constructor (presets: Parents)
      ensures this.presets == presets && color == map[]
    {
      this.presets := presets;
      color := map[];
    }

    method Visit(name: string) returns (r: Option<PresetError>)
      requires ColorOf(color, name) == White && Underway(presets, color, name)
      modifies this
      ensures r.None? ==> Returned(presets, old(color), color, name)
      ensures r.Some? ==> !Rooted(presets, name)
      decreases Unreached(presets, color)
    {
      if name !in presets {
        return Some(MissingParent(name));
      }
      var parent := presets[name];
      Enters(presets, color, name);
      assert forall n :: ColorOf(color, n) == Black ==> ColorOf(color[name := Gray], n) == Black;
      hide Rooted;
      color := color[name := Gray];
      if parent != "" {
        ParentRooted(presets, name);
        match ColorOf(color, parent) {
          case Gray =>
            ClosedNotRooted(presets, Grays(color), name);
            return Some(CycleAt(parent));
          case White =>
            r := Visit(parent);
            if r.Some? {
              return;
            }
          case Black =>
        }
      } else {
        RootIsRooted(presets, name);
      }
      Leaves(presets, old(color), color, name);
      color := color[name := Black];
      r := None;
    }

    /** Presets are visited in any order; nothing is refused exactly when every chain ends. */
    method DetectCycles() returns (r: Option<PresetError>)
      requires color == map[]
      modifies this
      ensures r.None? <==> AllRooted(presets)
    {
      var rest := presets.Keys;
      while rest != {}
        invariant rest <= presets.Keys && Grays(color) == {}
        invariant forall name :: name in color && color[name] == Black ==> Rooted(presets, name)
        invariant forall name :: name in presets && name !in rest ==> ColorOf(color, name) == Black
        decreases |rest|
      {
        hide Rooted;
        var name :| name in rest;
        rest := rest - {name};
        if ColorOf(color, name) == White {
          r := Visit(name);
          if r.Some? {
            return;
          }
        } else {
          assert name in color && (color[name] == Gray ==> name in Grays(color));
        }
      }
      r := None;
    }
  }
}
