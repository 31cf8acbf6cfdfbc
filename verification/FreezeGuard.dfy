/** The blast-radius guard: which cgroups an unforced freeze refuses, stated on path components. */
module FreezeGuard {

  /** strings.Trim(s, "/"). */
  function TrimLeft(s: string): string {
    if s != "" && s[0] == '/' then TrimLeft(s[1..]) else s
  }

  function TrimRight(s: string): string {
    if s != "" && s[|s| - 1] == '/' then TrimRight(s[..|s| - 1]) else s
  }

  function Trim(s: string): string { TrimRight(TrimLeft(s)) }

  predicate HasPrefix(s: string, prefix: string) { prefix <= s }

  predicate HasSuffix(s: string, suffix: string) {
    |suffix| <= |s| && s[|s| - |suffix|..] == suffix
  }

  predicate IsAncestorOrEqual(anc: string, desc: string) {
    var a := "/" + Trim(anc);
    var d := "/" + Trim(desc);
    d == a || HasPrefix(d, a + "/")
  }

  /** path.Base of "/" + Trim(cg): what follows the last slash. */
  function AfterLastSlash(s: string): string {
    if s == "" || s[|s| - 1] == '/' then "" else AfterLastSlash(s[..|s| - 1]) + [s[|s| - 1]]
  }

  function Base(cg: string): string {
    var s := Trim(cg);
    if s == "" then "/" else AfterLastSlash(s)
  }

  /** A unit name that holds a whole login: session-*.scope, user@*.service, user-*.slice. */
  predicate LoginUnit(name: string) {
    || (HasPrefix(name, "session-") && HasSuffix(name, ".scope"))
    || (HasPrefix(name, "user@") && HasSuffix(name, ".service"))
    || (HasPrefix(name, "user-") && HasSuffix(name, ".slice"))
  }

  predicate IsSessionCgroup(cg: string) {
    LoginUnit(Base(cg))
  }

  predicate FreezeSafety(cg: string, selfCg: string) {
    && cg != "" && cg != "/"
    && !(selfCg != "" && IsAncestorOrEqual(cg, selfCg))
    && !IsSessionCgroup(cg)
  }

  // ---- What the guard means on the kernel's own paths ----

  predicate Component(c: string) { c != "" && '/' !in c }

  ghost predicate Components(cs: seq<string>) { forall c :: c in cs ==> Component(c) }

  /** The path the kernel prints for a list of components: "/" for the root, "/a/b" below it. */
  function Join(cs: seq<string>): string {
    if cs == [] then "" else Join(cs[..|cs| - 1]) + "/" + cs[|cs| - 1]
  }

  function Path(cs: seq<string>): string { if cs == [] then "/" else Join(cs) }

  lemma {:induction false} JoinAppend(xs: seq<string>, ys: seq<string>)
    ensures Join(xs + ys) == Join(xs) + Join(ys)
  {
    if ys == [] {
      assert xs + ys == xs;
    } else {
      var front := ys[..|ys| - 1];
      assert (xs + ys)[..|xs + ys| - 1] == xs + front;
      JoinAppend(xs, front);
      assert Join(xs) + (Join(front) + "/" + ys[|ys| - 1]) == Join(xs) + Join(front) + "/" + ys[|ys| - 1];
    }
  }

  lemma {:induction false} TrimRightKeeps(s: string)
    requires s == "" || s[|s| - 1] != '/'
    ensures TrimRight(s) == s
  {
  }

  /** A kernel path survives trimming: put the slash back and it is unchanged. */
  lemma TrimPath(cs: seq<string>)
    requires Components(cs)
    ensures "/" + Trim(Path(cs)) == Path(cs)
    ensures cs != [] ==> Path(cs)[0] == '/' && Path(cs) != "/"
  {
    if cs == [] {
      assert TrimLeft("/") == TrimLeft(""[..]);
    } else {
      var first := cs[0];
      assert first in cs && Component(first);
      assert cs == [first] + cs[1..];
      JoinAppend([first], cs[1..]);
      JoinOne(first);
      var p := Join(cs);
      assert p == "/" + (first + Join(cs[1..]));
      var rest := first + Join(cs[1..]);
      assert rest[0] == first[0] && first[0] in first;
      assert TrimLeft(p) == TrimLeft(rest) == rest by { assert p[1..] == rest; }
      var last := cs[|cs| - 1];
      assert last in cs && Component(last);
      assert p[|p| - 1] == last[|last| - 1] && last[|last| - 1] in last;
      assert rest[|rest| - 1] == p[|p| - 1];
      TrimRightKeeps(rest);
    }
  }

  /** Reading components off a joined path is unambiguous. */
  lemma {:induction false} JoinPrefix(xs: seq<string>, ys: seq<string>)
    requires Components(xs) && Components(ys)
    requires Join(xs) + "/" <= Join(ys) + "/"
    ensures xs <= ys
    decreases |xs|
  {
    if xs != [] {
      var x := xs[0];
      assert x in xs;
      assert xs == [x] + xs[1..];
      JoinAppend([x], xs[1..]);
      JoinOne(x);
      assert |Join(xs)| >= 2;
      assert ys != [];
      var y := ys[0];
      assert y in ys;
      assert ys == [y] + ys[1..];
      JoinAppend([y], ys[1..]);
      JoinOne(y);
      var l, r := Join(xs[1..]) + "/", Join(ys[1..]) + "/";
      assert Join(xs) + "/" == "/" + x + l;
      assert Join(ys) + "/" == "/" + y + r;
      StartsWithSlash(xs[1..]);
      StartsWithSlash(ys[1..]);
      FirstComponent(x, l, y, r);
      assert Components(xs[1..]) && Components(ys[1..]);
      JoinPrefix(xs[1..], ys[1..]);
    }
  }

  lemma JoinOne(x: string)
    ensures Join([x]) == "/" + x
  {
    assert [x][..0] == [];
    assert Join([]) == "";
  }

  lemma StartsWithSlash(cs: seq<string>)
    ensures (Join(cs) + "/")[0] == '/'
  {
    if cs != [] {
      assert cs == [cs[0]] + cs[1..];
      JoinAppend([cs[0]], cs[1..]);
      JoinOne(cs[0]);
    }
  }

  lemma FirstComponent(x: string, l: string, y: string, r: string)
    requires '/' !in x && '/' !in y
    requires l != "" && l[0] == '/' && r != "" && r[0] == '/'
    requires "/" + x + l <= "/" + y + r
    ensures x == y && l <= r
  {
    var a, b := "/" + x + l, "/" + y + r;
    assert a[1 + |x|] == '/' && b[1 + |y|] == '/';
    assert forall i :: 0 <= i < |x| ==> a[1 + i] == x[i];
    assert forall i :: 0 <= i < |y| ==> b[1 + i] == y[i];
    assert forall i :: 0 <= i < |a| ==> a[i] == b[i];
    assert |x| == |y|;
    assert x == a[1..1 + |x|] == b[1..1 + |y|] == y;
    assert l == a[1 + |x|..] && r == b[1 + |x|..];
  }

  /** On kernel paths the string test is exactly the component-wise one, the root aside. */
  lemma AncestorIsPrefix(anc: seq<string>, desc: seq<string>)
    requires Components(anc) && Components(desc) && anc != []
    ensures IsAncestorOrEqual(Path(anc), Path(desc)) <==> anc <= desc
  {
    TrimPath(anc);
    TrimPath(desc);
    if anc <= desc {
      assert desc == anc + desc[|anc|..];
      JoinAppend(anc, desc[|anc|..]);
      var below := desc[|anc|..];
      if below == [] {
        assert desc == anc;
      } else {
        assert below == [below[0]] + below[1..];
        JoinAppend([below[0]], below[1..]);
        JoinOne(below[0]);
      }
    }
    if IsAncestorOrEqual(Path(anc), Path(desc)) {
      assert |Path(anc)| >= 2;
      assert desc != [];
      assert Join(anc) + "/" <= Join(desc) + "/";
      JoinPrefix(anc, desc);
    }
  }

  lemma {:induction false} AfterLastSlashOf(a: string, b: string)
    requires '/' !in b
    ensures AfterLastSlash(a + "/" + b) == b
  {
    var s := a + "/" + b;
    if b != "" {
      var front := b[..|b| - 1];
      assert s[..|s| - 1] == a + "/" + front;
      assert s[|s| - 1] == b[|b| - 1];
      assert b[|b| - 1] in b;
      AfterLastSlashOf(a, front);
    }
  }

  lemma BaseOfPath(cs: seq<string>)
    requires Components(cs) && cs != []
    ensures Base(Path(cs)) == cs[|cs| - 1]
  {
    TrimPath(cs);
    var front, last := Join(cs[..|cs| - 1]), cs[|cs| - 1];
    assert last in cs && Component(last);
    var t := Trim(Path(cs));
    assert "/" + t == front + "/" + last;
    if front == "" {
      assert t == ("/" + last)[1..] == last;
      NoSlash(last);
    } else {
      assert t == front[1..] + "/" + last;
      AfterLastSlashOf(front[1..], last);
    }
  }

  lemma {:induction false} NoSlash(s: string)
    requires '/' !in s
    ensures AfterLastSlash(s) == s
  {
    if s != "" {
      assert s[|s| - 1] in s;
      NoSlash(s[..|s| - 1]);
    }
  }

  /**
   The whole guard on kernel paths: it refuses the root, procfit's own cgroup and every
   component-wise ancestor of it, and every cgroup whose last component is a login unit;
   it allows everything else.
   */
  lemma FreezeGuardExact(cg: seq<string>, self: seq<string>)
    requires Components(cg) && Components(self)
    ensures FreezeSafety(Path(cg), Path(self)) <==>
            cg != [] && !(cg <= self) && !LoginUnit(cg[|cg| - 1])
  {
    if cg != [] {
      TrimPath(cg);
      TrimPath(self);
      AncestorIsPrefix(cg, self);
      BaseOfPath(cg);
    }
  }
}
