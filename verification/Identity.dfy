/** Process and thread identities, and the string keys that maps are indexed by. */
module Identity {

  datatype ProcessId = ProcessId(bootId: string, pidns: nat, pid: int, start: nat)
  {
    /** A boot id or namespace inode that is unknown (empty, zero) does not tell two ids apart. */
    predicate SameProcess(other: ProcessId) {
      && pid == other.pid
      && start == other.start
      && (bootId == "" || other.bootId == "" || bootId == other.bootId)
      && (pidns == 0 || other.pidns == 0 || pidns == other.pidns)
    }

    function Key(): string {
      bootId + "/" + Decimal(pidns) + "/" + SignedDecimal(pid) + "/" + Decimal(start)
    }
  }

  datatype ThreadId = ThreadId(process: ProcessId, tid: int, start: nat)
  {
    function Key(): string {
      process.Key() + "#" + SignedDecimal(tid) + "/" + Decimal(start)
    }
  }

  const DIGITS := "0123456789"

  function Decimal(n: nat): (s: string)
    ensures |s| >= 1
  {
    if n < 10 then [DIGITS[n]] else Decimal(n / 10) + [DIGITS[n % 10]]
  }

  lemma {:induction false} DecimalIsDigits(n: nat)
    ensures forall c :: c in Decimal(n) ==> '0' <= c <= '9'
  {
    if n >= 10 {
      DecimalIsDigits(n / 10);
    }
  }

  lemma SignedDecimalIsDigits(n: int)
    ensures forall c :: c in SignedDecimal(n) ==> c == '-' || '0' <= c <= '9'
    ensures n < 0 <==> SignedDecimal(n)[0] == '-'
  {
    if n < 0 {
      DecimalIsDigits(-n);
    } else {
      DecimalIsDigits(n);
      assert SignedDecimal(n)[0] in SignedDecimal(n);
    }
  }

  function SignedDecimal(n: int): string {
    if n < 0 then "-" + Decimal(-n) else Decimal(n)
  }

  lemma DigitsDiffer(i: nat, j: nat)
    requires i < 10 && j < 10 && DIGITS[i] == DIGITS[j]
    ensures i == j
  {
  }

  lemma {:induction false} DecimalInjective(m: nat, n: nat)
    requires Decimal(m) == Decimal(n)
    ensures m == n
  {
    var s := Decimal(m);
    var last := s[|s| - 1];
    assert last == DIGITS[m % 10] == DIGITS[n % 10];
    DigitsDiffer(m % 10, n % 10);
    assert |s| == 1 <==> m < 10;
    assert |s| == 1 <==> n < 10;
    if m >= 10 && n >= 10 {
      assert Decimal(m / 10) == s[..|s| - 1] == Decimal(n / 10);
      DecimalInjective(m / 10, n / 10);
    }
  }

  lemma SignedDecimalInjective(m: int, n: int)
    requires SignedDecimal(m) == SignedDecimal(n)
    ensures m == n
  {
    SignedDecimalIsDigits(m);
    SignedDecimalIsDigits(n);
    if m < 0 {
      assert Decimal(-m) == SignedDecimal(m)[1..];
      assert Decimal(-n) == SignedDecimal(n)[1..];
      DecimalInjective(-m, -n);
    } else {
      DecimalInjective(m, n);
    }
  }

  /** Two texts cut at a separator that neither right-hand part contains are cut in the same place. */
  lemma LastSeparatorUnique(a: string, b: string, c: string, d: string, sep: char)
    requires a + [sep] + b == c + [sep] + d
    requires sep !in b && sep !in d
    ensures a == c && b == d
  {
    var left, right := a + [sep] + b, c + [sep] + d;
    assert left[|c|] == sep && right[|a|] == sep;
    assert forall i :: |a| < i < |left| ==> left[i] == b[i - |a| - 1];
    assert forall i :: |c| < i < |right| ==> right[i] == d[i - |c| - 1];
    assert |a| == |c|;
    assert a == left[..|a|] && c == right[..|c|];
    assert b == left[|a| + 1..] && d == right[|c| + 1..];
  }

  /** No number written in a key holds a separator. */
  lemma KeyParts(x: ProcessId)
    ensures '/' !in Decimal(x.start) && '/' !in SignedDecimal(x.pid) && '/' !in Decimal(x.pidns)
  {
    DecimalIsDigits(x.start);
    SignedDecimalIsDigits(x.pid);
    DecimalIsDigits(x.pidns);
  }

  /** Equal keys mean equal identities, whatever characters the boot id holds. */
  lemma KeyInjective(x: ProcessId, y: ProcessId)
    ensures x.Key() == y.Key() <==> x == y
  {
    if x.Key() == y.Key() {
      var xb, yb := x.bootId + "/" + Decimal(x.pidns), y.bootId + "/" + Decimal(y.pidns);
      var xp, yp := xb + "/" + SignedDecimal(x.pid), yb + "/" + SignedDecimal(y.pid);
      assert x.Key() == xp + "/" + Decimal(x.start);
      assert y.Key() == yp + "/" + Decimal(y.start);
      KeyParts(x);
      KeyParts(y);
      hide Decimal, SignedDecimal;
      LastSeparatorUnique(xp, Decimal(x.start), yp, Decimal(y.start), '/');
      DecimalInjective(x.start, y.start);
      LastSeparatorUnique(xb, SignedDecimal(x.pid), yb, SignedDecimal(y.pid), '/');
      SignedDecimalInjective(x.pid, y.pid);
      LastSeparatorUnique(x.bootId, Decimal(x.pidns), y.bootId, Decimal(y.pidns), '/');
      DecimalInjective(x.pidns, y.pidns);
    }
  }

  lemma ThreadKeyParts(x: ThreadId)
    ensures '/' !in Decimal(x.start) && '#' !in SignedDecimal(x.tid)
  {
    DecimalIsDigits(x.start);
    SignedDecimalIsDigits(x.tid);
  }

  lemma ThreadKeyInjective(x: ThreadId, y: ThreadId)
    ensures x.Key() == y.Key() <==> x == y
  {
    if x.Key() == y.Key() {
      var xt, yt := x.process.Key() + "#" + SignedDecimal(x.tid), y.process.Key() + "#" + SignedDecimal(y.tid);
      ThreadKeyParts(x);
      ThreadKeyParts(y);
      hide Decimal, SignedDecimal;
      LastSeparatorUnique(xt, Decimal(x.start), yt, Decimal(y.start), '/');
      DecimalInjective(x.start, y.start);
      LastSeparatorUnique(x.process.Key(), SignedDecimal(x.tid), y.process.Key(), SignedDecimal(y.tid), '#');
      SignedDecimalInjective(x.tid, y.tid);
      KeyInjective(x.process, y.process);
    }
  }
}
