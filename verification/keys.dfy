/** The physical keys `key/revision` of the flat store, and how to take them apart again. */
module Keys {

  function Digit(d: nat): char
    requires d < 10
  {
    "0123456789"[d]
  }

  /** `%d` for a non-negative number. */
  function Dec(n: nat): (s: string)
    ensures |s| >= 1 && forall i :: 0 <= i < |s| ==> '0' <= s[i] <= '9'
  {
    if n < 10 then [Digit(n)] else Dec(n / 10) + [Digit(n % 10)]
  }

  function Val(s: string): nat
    requires forall i :: 0 <= i < |s| ==> '0' <= s[i] <= '9'
  {
    if s == [] then 0 else Val(s[..|s| - 1]) * 10 + (s[|s| - 1] - '0') as nat
  }

  lemma ValSnoc(s: string, d: nat)
    requires d < 10 && forall i :: 0 <= i < |s| ==> '0' <= s[i] <= '9'
    ensures '0' <= Digit(d) <= '9' && Val(s + [Digit(d)]) == Val(s) * 10 + d
  {
    assert (s + [Digit(d)])[..|s|] == s;
  }

  lemma {:induction false} DecVal(n: nat)
    ensures Val(Dec(n)) == n
  {
    if n >= 10 {
      DecVal(n / 10);
      ValSnoc(Dec(n / 10), n % 10);
    } else {
      ValSnoc([], n);
      assert [] + [Digit(n)] == [Digit(n)];
    }
  }

  function Phys(key: string, rev: nat): (p: string)
    ensures |p| > |key| + 1
  {
    key + "/" + Dec(rev)
  }

  /** Index of the last slash, or -1. */
  function LastSlash(p: string): (i: int)
    ensures -1 <= i < |p|
    ensures i >= 0 ==> p[i] == '/'
    ensures forall j :: i < j < |p| ==> p[j] != '/'
  {
    if p == "" then -1
    else if p[|p| - 1] == '/' then |p| - 1
    else LastSlash(p[..|p| - 1])
  }

  /** Cutting at the last slash recovers the key, even one that contains slashes. */
  lemma PhysSplit(key: string, rev: nat)
    ensures LastSlash(Phys(key, rev)) == |key|
    ensures Phys(key, rev)[..|key|] == key
    ensures Phys(key, rev)[|key| + 1..] == Dec(rev)
  {
    var p := Phys(key, rev);
    assert p[|key|] == '/';
    assert forall j :: |key| < j < |p| ==> p[j] == Dec(rev)[j - |key| - 1];
  }

  lemma PhysInjective(k1: string, r1: nat, k2: string, r2: nat)
    requires Phys(k1, r1) == Phys(k2, r2)
    ensures k1 == k2 && r1 == r2
  {
    PhysSplit(k1, r1);
    PhysSplit(k2, r2);
    DecVal(r1);
    DecVal(r2);
  }
}
