/** The queue lock: its keys, who waits for whom, and why at most one holder has passed the check. */
module LockSpec {
  import opened Keys
  import opened MvccLog
  import opened MvccScan
  import opened KvSpec
  import opened KvExactlyOnce

  /** `%d` for a number of either sign. */
  function Int(n: int): (s: string)
    ensures |s| >= 1 && (forall i :: 1 <= i < |s| ==> '0' <= s[i] <= '9') && s[0] != '/'
  {
    if n < 0 then "-" + Dec(-n) else Dec(n)
  }

  function LockPrefix(resource: string): string {
    "/lock/" + resource + "/"
  }

  function GenerateLockKey(resource: string, clientId: int, requestId: int): string {
    LockPrefix(resource) + Int(clientId) + "-" + Int(requestId)
  }

  // ---- no two requests share a lock key ----

  lemma IntInjective(a: int, b: int)
    requires Int(a) == Int(b)
    ensures a == b
  {
    assert Int(a)[0] == '-' <==> a < 0;
    assert Int(b)[0] == '-' <==> b < 0;
    if a < 0 {
      assert Int(a)[1..] == Dec(-a) && Int(b)[1..] == Dec(-b);
    }
    DecVal(if a < 0 then -a else a);
    DecVal(if b < 0 then -b else b);
  }

  lemma TailInjective(c1: int, r1: int, c2: int, r2: int)
    requires Int(c1) + "-" + Int(r1) == Int(c2) + "-" + Int(r2)
    ensures c1 == c2 && r1 == r2
  {
    var t := Int(c1) + "-" + Int(r1);
    assert t[|Int(c1)|] == '-' && t[|Int(c2)|] == '-';
    assert forall j :: 1 <= j < |Int(c1)| ==> t[j] == Int(c1)[j];
    assert forall j :: 1 <= j < |Int(c2)| ==> t[j] == Int(c2)[j];
    assert |Int(c1)| == |Int(c2)|;
    assert t[..|Int(c1)|] == Int(c1) && t[..|Int(c2)|] == Int(c2);
    assert t[|Int(c1)| + 1..] == Int(r1) && t[|Int(c2)| + 1..] == Int(r2);
    IntInjective(c1, c2);
    IntInjective(r1, r2);
  }

  lemma SplitAtLast(p: string, t: string)
    requires p != "" && p[|p| - 1] == '/' && forall j :: 0 <= j < |t| ==> t[j] != '/'
    ensures LastSlash(p + t) == |p| - 1 && (p + t)[..|p|] == p && (p + t)[|p|..] == t
  {
    var k := p + t;
    assert k[|p| - 1] == '/';
    assert forall j :: |p| <= j < |k| ==> k[j] == t[j - |p|];
  }

  lemma LockKeySplit(resource: string, c: int, r: int)
    ensures var k := GenerateLockKey(resource, c, r);
      LastSlash(k) == |LockPrefix(resource)| - 1 && k[..|LockPrefix(resource)|] == LockPrefix(resource)
      && k[|LockPrefix(resource)|..] == Int(c) + "-" + Int(r)
  {
    var p, t := LockPrefix(resource), Int(c) + "-" + Int(r);
    assert GenerateLockKey(resource, c, r) == p + t;
    SplitAtLast(p, t);
  }

  lemma UnderPrefix(resource: string, c: int, r: int)
    ensures LockPrefix(resource) <= GenerateLockKey(resource, c, r)
  {
    LockKeySplit(resource, c, r);
    hide *;
  }

  lemma PrefixInjective(q1: string, q2: string)
    requires LockPrefix(q1) == LockPrefix(q2)
    ensures q1 == q2
  {
    assert LockPrefix(q1)[6..][..|q1|] == q1 && LockPrefix(q2)[6..][..|q2|] == q2;
  }

  /** Resource names may contain slashes and the numbers may be negative. */
  lemma LockKeysDiffer(q1: string, c1: int, r1: int, q2: string, c2: int, r2: int)
    ensures GenerateLockKey(q1, c1, r1) == GenerateLockKey(q2, c2, r2) <==> q1 == q2 && c1 == c2 && r1 == r2
  {
    LockKeySplit(q1, c1, r1);
    LockKeySplit(q2, c2, r2);
    hide GenerateLockKey, LockPrefix, Int;
    if GenerateLockKey(q1, c1, r1) == GenerateLockKey(q2, c2, r2) {
      PrefixInjective(q1, q2);
      TailInjective(c1, r1, c2, r2);
    }
  }

  // ---- the transactions ----

  /** Create the key if it was never written. */
  function CreateLockTxn(key: string, leaseId: int, clientId: int, requestId: int): Op {
    Op("Txn", "", "", clientId, requestId, 0, [], [Compare(key, EQUAL, 0)], [Entry("Put", key, Int(leaseId))], [])
  }

  function UnlockTxn(key: string, version: int, clientId: int, requestId: int): Op {
    Op("Txn", "", "", clientId, requestId, 0, [], [Compare(key, EQUAL, version)], [Entry("Delete", key, "")], [])
  }

  // ---- the queue ----

  ghost predicate Alive(ws: seq<Write>, k: string) {
    Newest(ws, k) > 0 && !ws[Newest(ws, k) - 1].deleted
  }

  /** The keys a scan for the resource's prefix looks at; the second kind belongs to another resource. */
  predicate Contends(resource: string, k: string) {
    LockPrefix(resource) <= k || k + "/" == LockPrefix(resource)
  }

  lemma ContenderUnderLock(resource: string, k: string)
    requires Contends(resource, k)
    ensures "/lock/" <= k && k != ""
  {
    assert LockPrefix(resource)[..6] == "/lock/";
    if LockPrefix(resource) <= k {
      assert k[..|LockPrefix(resource)|][..6] == k[..6];
    } else {
      assert k == LockPrefix(resource)[..|k|];
      assert k[..6] == LockPrefix(resource)[..6];
    }
  }

  /** The scan reports exactly the live contenders, at their latest version. */
  lemma ScanIsContenders(ws: seq<Write>, floor: nat, resource: string, k: string)
    requires floor <= |ws|
    ensures Scanned(ws, floor, LockPrefix(resource), k) == if Contends(resource, k) then IdealGet(ws, k, 0)
      else KeyNotFound
  {
    var p := LockPrefix(resource);
    if p <= k {
      ScanOfMatch(ws, floor, p, k);
    } else if k + "/" == p {
      StrayTop(ws, floor, resource, k);
    } else {
      ScanWrongIff(ws, floor, p, k);
      assert Stray(p, k) ==> k + "/" == p by {
        if Stray(p, k) {
          StrayContends(resource, k);
        }
      }
    }
  }

  lemma StrayContends(resource: string, k: string)
    requires Stray(LockPrefix(resource), k)
    ensures k + "/" == LockPrefix(resource)
  {
    var p := LockPrefix(resource);
    assert p[|p| - 1] == '/';
    assert p == p[..|k|] + p[|k|..];
  }

  lemma StrayTop(ws: seq<Write>, floor: nat, resource: string, k: string)
    requires floor <= |ws| && k + "/" == LockPrefix(resource)
    ensures ScanTop(ws, floor, LockPrefix(resource), k, |ws|) == Newest(ws, k)
  {
    var p := LockPrefix(resource);
    var n, r := Newest(ws, k), ScanTop(ws, floor, p, k, |ws|);
    assert Phys(k, n)[..|p|] == p;
    assert r > 0 ==> Writes(ws, k, r);
    assert n > 0 ==> Kept(ws, floor, k, n);
  }

  /** A live contender sits in the queue at revision `r`. */
  ghost predicate Queued(ws: seq<Write>, resource: string, r: nat) {
    1 <= r <= |ws| && Contends(resource, ws[r - 1].key) && !ws[r - 1].deleted && Newest(ws, ws[r - 1].key) == r
  }

  /** Those ahead of a revision. */
  ghost function Ahead(ws: seq<Write>, resource: string, rev: nat): set<nat> {
    set r | 1 <= r < rev && Queued(ws, resource, r)
  }

  ghost predicate Passed(ws: seq<Write>, resource: string, rev: nat) {
    rev <= |ws| && Ahead(ws, resource, rev) == {}
  }

  lemma {:induction false} NewestLater(ws: seq<Write>, later: seq<Write>, k: string)
    requires ws <= later
    ensures Newest(later, k) <= |ws| ==> Newest(later, k) == Newest(ws, k)
    ensures Newest(later, k) >= Newest(ws, k)
  {
    var n, m := Newest(later, k), Newest(ws, k);
    assert n > 0 && n <= |ws| ==> Writes(ws, k, n);
    assert m > 0 ==> Writes(later, k, m);
  }

  /** Nobody enters the queue ahead of a revision that has been given out. */
  lemma AheadShrinks(ws: seq<Write>, later: seq<Write>, resource: string, rev: nat)
    requires ws <= later && rev <= |ws|
    ensures Ahead(later, resource, rev) <= Ahead(ws, resource, rev)
  {
    forall r | r in Ahead(later, resource, rev)
      ensures r in Ahead(ws, resource, rev)
    {
      NewestLater(ws, later, later[r - 1].key);
    }
  }

  /** A passed check stays passed: grants follow revision order. */
  lemma PassedStays(ws: seq<Write>, later: seq<Write>, resource: string, rev: nat)
    requires ws <= later && Passed(ws, resource, rev)
    ensures Passed(later, resource, rev)
  {
    AheadShrinks(ws, later, resource, rev);
  }

  // ---- the discipline ----

  ghost predicate PutsUnderLock(es: seq<Entry>) {
    exists e :: e in es && e.kind == "Put" && "/lock/" <= e.key
  }

  /** Keys under "/lock/" are created by lock transactions only; anyone may delete them. */
  ghost predicate Orderly(op: Op) {
    || (exists k, l :: op == CreateLockTxn(k, l, op.clientId, op.requestId))
    || (  && (op.kind == "Put" ==> !("/lock/" <= op.key))
          && (op.kind == "Batch" ==> !PutsUnderLock(op.entries))
          && (op.kind == "Txn" ==> !PutsUnderLock(op.successEntries) && !PutsUnderLock(op.failedEntries)))
  }

  /** A live version of a lock key is the key's first write: once deleted it never comes back. */
  ghost predicate OncePut(ws: seq<Write>) {
    forall k: string, q: nat, r: nat :: Writes(ws, k, q) && Writes(ws, k, r) && q < r && "/lock/" <= k ==>
      ws[r - 1].deleted
  }

  lemma OncePutAppend(ws: seq<Write>, w: Write)
    requires OncePut(ws)
    requires "/lock/" <= w.key && !w.deleted ==> Newest(ws, w.key) == 0
    ensures OncePut(ws + [w])
  {
    assert forall k: string, q: nat :: q <= |ws| ==> (Writes(ws + [w], k, q) <==> Writes(ws, k, q));
  }

  lemma {:induction false} OncePutEntries(ws: seq<Write>, es: seq<Entry>)
    requires OncePut(ws) && !PutsUnderLock(es)
    ensures OncePut(AllWritten(ws, es))
  {
    if es != [] {
      var before, e := es[..|es| - 1], es[|es| - 1];
      assert forall x :: x in before ==> x in es;
      OncePutEntries(ws, before);
      assert e in es;
      var w := AllWritten(ws, before);
      if e.kind == "Put" {
        OncePutAppend(w, Write(e.key, e.value, false));
      } else if e.kind == "Delete" {
        OncePutAppend(w, Write(e.key, "", true));
      }
    }
  }

  lemma OneEntry(ws: seq<Write>, e: Entry)
    ensures AllWritten(ws, [e]) == Written(ws, e) && AllWritten(ws, []) == ws
  {
    assert [e][..0] == [];
  }

  lemma OncePutTxn(ws: seq<Write>, op: Op)
    requires OncePut(ws) && Orderly(op) && op.kind == "Txn"
    ensures OncePut(TxnOn(ws, op).0)
  {
    hide OncePut, AllRead;
    if k, l :| op == CreateLockTxn(k, l, op.clientId, op.requestId) {
      var e := Entry("Put", k, Int(l));
      OneEntry(ws, e);
      assert Compare(k, EQUAL, 0) in op.compares;
      if Chosen(ws, op) == [e] {
        OncePutAppend(ws, Write(k, Int(l), false));
      }
    } else {
      OncePutEntries(ws, Chosen(ws, op));
    }
  }

  lemma OncePutStep(s: State, op: Op)
    requires OncePut(s.writes) && Orderly(op)
    ensures OncePut(After(s, op).writes)
  {
    hide OncePut, TxnOn, AllWritten;
    if op.kind == "Txn" {
      OncePutTxn(s.writes, op);
    } else if op.kind == "Batch" {
      OncePutEntries(s.writes, op.entries);
    } else if op.kind == "Put" {
      OncePutAppend(s.writes, Write(op.key, op.value, false));
    } else if op.kind == "Delete" || op.kind == "Expire" {
      OncePutAppend(s.writes, Write(op.key, "", true));
    }
  }

  lemma {:induction false} OncePutRun(s: State, log: seq<Op>)
    requires OncePut(s.writes) && forall op :: op in log ==> Orderly(op)
    ensures OncePut(Run(s, log).writes)
  {
    if log != [] {
      OncePutRun(s, log[..|log| - 1]);
      OncePutStep(Run(s, log[..|log| - 1]), log[|log| - 1]);
    }
  }

  // ---- writes are only added ----

  lemma {:induction false} EntriesExtend(ws: seq<Write>, es: seq<Entry>)
    ensures ws <= AllWritten(ws, es)
  {
    if es != [] {
      EntriesExtend(ws, es[..|es| - 1]);
    }
  }

  lemma AfterExtends(s: State, op: Op)
    ensures s.writes <= After(s, op).writes
  {
    EntriesExtend(s.writes, op.entries);
    EntriesExtend(s.writes, Chosen(s.writes, op));
    hide AllWritten, AllRead, Chosen, Meets;
  }

  lemma {:induction false} RunExtends(s: State, log: seq<Op>)
    ensures s.writes <= Run(s, log).writes
  {
    if log != [] {
      RunExtends(s, log[..|log| - 1]);
      AfterExtends(Run(s, log[..|log| - 1]), log[|log| - 1]);
    }
  }

  lemma PrefixExtends(log: seq<Op>, p: nat, n: nat)
    requires p <= n <= |log|
    ensures Run(BOOT, log[..p]).writes <= Run(BOOT, log[..n]).writes
  {
    assert log[..n] == log[..p] + log[p..n];
    RunConcat(BOOT, log[..p], log[p..n]);
    RunExtends(Run(BOOT, log[..p]), log[p..n]);
  }

  // ---- mutual exclusion ----

  /** The key created at revision `rev` is a lock on the resource and still there. */
  ghost predicate Holds(ws: seq<Write>, resource: string, k: string, rev: nat) {
    LockPrefix(resource) <= k && Alive(ws, k) && Writes(ws, k, rev) && !ws[rev - 1].deleted
  }

  /** Under the discipline the key's creation is its newest write. */
  lemma HolderIsQueued(ws: seq<Write>, resource: string, k: string, rev: nat)
    requires OncePut(ws) && Holds(ws, resource, k, rev)
    ensures Newest(ws, k) == rev && Queued(ws, resource, rev) && Writes(ws, k, rev)
  {
    ContenderUnderLock(resource, k);
    assert Newest(ws, k) >= rev;
  }

  /** Two checks passed, each against some earlier prefix of the log, and both keys alive at `n`: one and the same
    * lock. */
  lemma MutualExclusion(log: seq<Op>, n: nat, resource: string, k1: string, r1: nat, p1: nat, k2: string, r2: nat,
      p2: nat)
    requires forall op :: op in log ==> Orderly(op)
    requires p1 <= n <= |log| && p2 <= n
    requires Holds(Run(BOOT, log[..n]).writes, resource, k1, r1) && Passed(Run(BOOT, log[..p1]).writes, resource, r1)
    requires Holds(Run(BOOT, log[..n]).writes, resource, k2, r2) && Passed(Run(BOOT, log[..p2]).writes, resource, r2)
    ensures k1 == k2 && r1 == r2
  {
    assert forall op :: op in log[..n] ==> op in log;
    OncePutRun(BOOT, log[..n]);
    PrefixExtends(log, p1, n);
    PrefixExtends(log, p2, n);
    hide *;
    OneHolder(Run(BOOT, log[..n]).writes, resource,
      k1, r1, Run(BOOT, log[..p1]).writes, k2, r2, Run(BOOT, log[..p2]).writes);
  }

  lemma OneHolder(ws: seq<Write>, resource: string, k1: string, r1: nat, seen1: seq<Write>, k2: string, r2: nat,
      seen2: seq<Write>)
    requires OncePut(ws) && seen1 <= ws && seen2 <= ws
    requires Holds(ws, resource, k1, r1) && Passed(seen1, resource, r1)
    requires Holds(ws, resource, k2, r2) && Passed(seen2, resource, r2)
    ensures k1 == k2 && r1 == r2
  {
    HolderIsQueued(ws, resource, k1, r1);
    HolderIsQueued(ws, resource, k2, r2);
    hide OncePut, Holds, Queued, Passed, Newest;
    PassedStays(seen1, ws, resource, r1);
    PassedStays(seen2, ws, resource, r2);
    FirstIsOne(ws, resource, r1, r2);
  }

  lemma FirstIsOne(ws: seq<Write>, resource: string, r1: nat, r2: nat)
    requires Queued(ws, resource, r1) && Passed(ws, resource, r1)
    requires Queued(ws, resource, r2) && Passed(ws, resource, r2)
    ensures r1 == r2
  {
    hide Contends;
    assert r2 < r1 && r2 >= 1 ==> r2 in Ahead(ws, resource, r1);
    assert r1 < r2 && r1 >= 1 ==> r1 in Ahead(ws, resource, r2);
  }

  /** Without any discipline: a lock in the queue's first place stops those behind it unless its key was written
    * again, so two live locks have both passed only if the later check saw the earlier key rewritten. */
  lemma BothHoldOnlyIf(log: seq<Op>, n: nat, resource: string, k1: string, r1: nat, p1: nat, k2: string, r2: nat,
      p2: nat)
    requires p1 <= n <= |log| && p2 <= n && r1 < r2
    requires Holds(Run(BOOT, log[..n]).writes, resource, k1, r1) && Passed(Run(BOOT, log[..p1]).writes, resource, r1)
    requires Holds(Run(BOOT, log[..n]).writes, resource, k2, r2) && Passed(Run(BOOT, log[..p2]).writes, resource, r2)
    ensures Newest(Run(BOOT, log[..p2]).writes, k1) > r1
  {
    PrefixExtends(log, p2, n);
    hide Run;
    var ws, seen := Run(BOOT, log[..n]).writes, Run(BOOT, log[..p2]).writes;
    assert Writes(seen, k1, r1) && !seen[r1 - 1].deleted;
    StopsIff(seen, resource, k1, r1, r2);
  }

  /** A lock stops the ones behind it exactly while its creation is its key's newest write. */
  lemma StopsIff(ws: seq<Write>, resource: string, k: string, r: nat, rev: nat)
    requires LockPrefix(resource) <= k && Writes(ws, k, r) && !ws[r - 1].deleted && r < rev
    ensures r in Ahead(ws, resource, rev) <==> Newest(ws, k) == r
    ensures Newest(ws, k) >= r
  {
  }

  /** It does happen: two lock requests of one resource, then a plain Put on the first one's key. */
  lemma UndisciplinedPut()
    ensures var k1, k2 := GenerateLockKey("a", 1, 1), GenerateLockKey("a", 2, 1);
      var log := [CreateLockTxn(k1, 7, 1, 1), CreateLockTxn(k2, 8, 2, 1),
                  Op("Put", k1, "x", 3, 1, 0, [], [], [], [])];
      && Passed(Run(BOOT, log[..1]).writes, "a", 1) && Holds(Run(BOOT, log).writes, "a", k1, 1)
      && Passed(Run(BOOT, log).writes, "a", 2) && Holds(Run(BOOT, log).writes, "a", k2, 2)
  {
    var k1, k2 := GenerateLockKey("a", 1, 1), GenerateLockKey("a", 2, 1);
    var put := Op("Put", k1, "x", 3, 1, 0, [], [], [], []);
    var a, b := CreateLockTxn(k1, 7, 1, 1), CreateLockTxn(k2, 8, 2, 1);
    LockKeysDiffer("a", 1, 1, "a", 2, 1);
    UnderPrefix("a", 1, 1);
    UnderPrefix("a", 2, 1);
    hide GenerateLockKey, LockPrefix, CreateLockTxn, Run, Alive, Holds, Passed;
    var s1 := FirstLock(k1);
    var s2 := SecondLock(s1, k1, k2);
    var s3 := After(s2, put);
    assert s3.writes == [Write(k1, Int(7), false), Write(k2, Int(8), false), Write(k1, "x", false)];
    assert s3.writes[..1] == s1.writes;
    RunThree(a, b, put);
    hide After;
    TwoHold(s3.writes, "a", k1, k2);
  }

  lemma RunThree(a: Op, b: Op, c: Op)
    ensures Run(BOOT, [a, b, c][..1]) == After(BOOT, a)
    ensures Run(BOOT, [a, b, c]) == After(After(After(BOOT, a), b), c)
  {
    hide After;
    assert [a, b, c][..1] == [a];
    RunOne(BOOT, a);
    RunTwo(a, b);
    assert [a, b, c][..2] == [a, b];
  }

  lemma FirstLock(k1: string) returns (s: State)
    ensures s == After(BOOT, CreateLockTxn(k1, 7, 1, 1))
    ensures s.writes == [Write(k1, Int(7), false)]
    ensures Last(s.tables, 2) == 0 && Last(s.tables, 3) == 0
  {
    var op := CreateLockTxn(k1, 7, 1, 1);
    LockEffect(BOOT, k1, 7, 1, 1);
    LastStep(BOOT, op, 2);
    LastStep(BOOT, op, 3);
    s := After(BOOT, op);
  }

  lemma SecondLock(s: State, k1: string, k2: string) returns (s': State)
    requires k1 != k2 && s.writes == [Write(k1, Int(7), false)] && Last(s.tables, 2) == 0 && Last(s.tables, 3) == 0
    ensures s' == After(s, CreateLockTxn(k2, 8, 2, 1))
    ensures s'.writes == [Write(k1, Int(7), false), Write(k2, Int(8), false)] && Last(s'.tables, 3) == 0
  {
    var op := CreateLockTxn(k2, 8, 2, 1);
    LockEffect(s, k2, 8, 2, 1);
    LastStep(s, op, 3);
    s' := After(s, op);
  }

  lemma RunTwo(a: Op, b: Op)
    ensures Run(BOOT, [a, b]) == After(After(BOOT, a), b)
  {
    RunOne(BOOT, a);
    assert [a, b][..1] == [a];
  }

  lemma TwoHold(ws: seq<Write>, resource: string, k1: string, k2: string)
    requires |ws| == 3 && k1 != k2 && ws[0].key == ws[2].key == k1 && ws[1].key == k2
    requires forall i :: 0 <= i < 3 ==> !ws[i].deleted
    requires LockPrefix(resource) <= k1 && LockPrefix(resource) <= k2
    ensures Passed(ws[..1], resource, 1) && Holds(ws, resource, k1, 1)
    ensures Passed(ws, resource, 2) && Holds(ws, resource, k2, 2)
  {
    assert NewestLE(ws, k1, 3) == 3;
    assert NewestLE(ws, k2, 3) == 2;
    assert forall r :: r in Ahead(ws, resource, 2) ==> r == 1;
  }

  function Expire(key: string): Op {
    Op("Expire", key, "", 0, 0, 0, [], [], [], [])
  }

  /** A waiting request never looks at its own key again: the key expires, then the one ahead, and it gets through. */
  lemma ExpiredGetsThrough()
    ensures var k1, k2 := GenerateLockKey("a", 1, 1), GenerateLockKey("a", 2, 1);
      var log := [CreateLockTxn(k1, 7, 1, 1), CreateLockTxn(k2, 8, 2, 1), Expire(k2), Expire(k1)];
      && Ahead(Run(BOOT, log[..2]).writes, "a", 2) == {1} && Holds(Run(BOOT, log[..2]).writes, "a", k2, 2)
      && Passed(Run(BOOT, log).writes, "a", 2) && !Alive(Run(BOOT, log).writes, k2)
  {
    var k1, k2 := GenerateLockKey("a", 1, 1), GenerateLockKey("a", 2, 1);
    var a, b := CreateLockTxn(k1, 7, 1, 1), CreateLockTxn(k2, 8, 2, 1);
    LockKeysDiffer("a", 1, 1, "a", 2, 1);
    UnderPrefix("a", 1, 1);
    UnderPrefix("a", 2, 1);
    hide GenerateLockKey, LockPrefix;
    var s1 := FirstLock(k1);
    var s2 := SecondLock(s1, k1, k2);
    assert After(After(s2, Expire(k2)), Expire(k1)).writes == s2.writes + [Write(k2, "", true), Write(k1, "", true)];
    RunTwo(a, b);
    RunFour(a, b, Expire(k2), Expire(k1));
    hide After, Run, CreateLockTxn, Expire;
    BothGone(s2.writes, "a", k1, k2);
  }

  lemma RunFour(a: Op, b: Op, c: Op, d: Op)
    ensures [a, b, c, d][..2] == [a, b]
    ensures Run(BOOT, [a, b, c, d]) == After(After(Run(BOOT, [a, b]), c), d)
  {
    hide After;
    RunThree(a, b, c);
    RunTwo(a, b);
    assert [a, b, c, d][..3] == [a, b, c];
  }

  lemma BothGone(ws: seq<Write>, resource: string, k1: string, k2: string)
    requires |ws| == 2 && k1 != k2 && ws[0].key == k1 && ws[1].key == k2 && !ws[0].deleted && !ws[1].deleted
    requires LockPrefix(resource) <= k1 && LockPrefix(resource) <= k2
    ensures Ahead(ws, resource, 2) == {1} && Holds(ws, resource, k2, 2)
    ensures var later := ws + [Write(k2, "", true), Write(k1, "", true)];
      Passed(later, resource, 2) && !Alive(later, k2)
  {
    var later := ws + [Write(k2, "", true), Write(k1, "", true)];
    assert NewestLE(ws, k1, 2) == 1 && NewestLE(ws, k2, 2) == 2;
    assert NewestLE(later, k1, 4) == 4 && NewestLE(later, k2, 4) == 3;
    assert forall r :: r in Ahead(ws, resource, 2) <==> r == 1;
    assert forall r :: r in Ahead(later, resource, 2) ==> r == 1;
  }

  /** A key that is deleted, or written in any way, loses its place ahead of a given revision for good. */
  lemma DeletedLeaves(ws: seq<Write>, later: seq<Write>, resource: string, rev: nat, r: nat, d: nat)
    requires ws <= later && rev <= |ws|
    requires r in Ahead(ws, resource, rev)
    requires Writes(later, ws[r - 1].key, d) && d > |ws|
    ensures r !in Ahead(later, resource, rev)
    ensures Ahead(later, resource, rev) < Ahead(ws, resource, rev)
  {
    AheadShrinks(ws, later, resource, rev);
    assert later[r - 1] == ws[r - 1] && d > r;
  }

  // ---- what the two transactions do ----

  /** A fresh lock request succeeds exactly when the key was never written; its answer carries the key's revision. */
  lemma LockEffect(s: State, key: string, leaseId: int, clientId: int, requestId: int)
    requires requestId > Last(s.tables, clientId)
    ensures var op := CreateLockTxn(key, leaseId, clientId, requestId);
      var ok := Newest(s.writes, key) == 0;
      && After(s, op).writes == (if ok then s.writes + [Write(key, Int(leaseId), false)] else s.writes)
      && ReplyTo(s, op) == OfTxn(TxnResult(ok, [], |After(s, op).writes|, OK))
      && (ok ==> Newest(After(s, op).writes, key) == |After(s, op).writes|)
  {
    var op := CreateLockTxn(key, leaseId, clientId, requestId);
    var e := Entry("Put", key, Int(leaseId));
    OneEntry(s.writes, e);
    ReadNothing(s.writes, e);
    ReadNone(s.writes);
    assert op.compares[0] in op.compares;
    hide AllWritten, AllRead, Read;
  }

  lemma ReadNone(ws: seq<Write>)
    ensures AllRead(ws, []) == []
  {
  }

  lemma ReadNothing(ws: seq<Write>, e: Entry)
    requires e.kind != "Get"
    ensures AllRead(ws, [e]) == []
  {
    assert [e][..0] == [];
  }

  /** A fresh unlock deletes the key exactly when the version is its newest. */
  lemma UnlockEffect(s: State, key: string, version: int, clientId: int, requestId: int)
    requires requestId > Last(s.tables, clientId)
    ensures var op := UnlockTxn(key, version, clientId, requestId);
      var ok := Newest(s.writes, key) == version;
      && After(s, op).writes == (if ok then DeleteOn(s.writes, key) else s.writes)
      && ReplyTo(s, op) == OfTxn(TxnResult(ok, [], |After(s, op).writes|, OK))
  {
    var op := UnlockTxn(key, version, clientId, requestId);
    var e := Entry("Delete", key, "");
    OneEntry(s.writes, e);
    ReadNothing(s.writes, e);
    ReadNone(s.writes);
    assert op.compares[0] in op.compares;
    hide AllWritten, AllRead, Read;
  }

  /** A lock request repeated after the same client's unlock is answered "succeeded" with the revision of the
    * deletion. */
  lemma StaleLockAnswer(s: State, key: string, leaseId: int, clientId: int, r1: int, r2: int)
    requires Last(s.tables, clientId) < r1 < r2 && Newest(s.writes, key) == 0
    ensures var lock := CreateLockTxn(key, leaseId, clientId, r1);
      var s1 := After(s, lock);
      var s2 := After(s1, UnlockTxn(key, |s1.writes|, clientId, r2));
      ReplyTo(s2, lock) == OfTxn(TxnResult(true, [], |s.writes| + 2, OK)) && After(s2, lock) == s2
        && !Alive(s2.writes, key)
  {
    var lock := CreateLockTxn(key, leaseId, clientId, r1);
    LockEffect(s, key, leaseId, clientId, r1);
    var s1 := After(s, lock);
    var unlock := UnlockTxn(key, |s1.writes|, clientId, r2);
    LastStep(s, lock, clientId);
    UnlockEffect(s1, key, |s1.writes|, clientId, r2);
    AnsweredNow(s1, unlock);
    AnsweredAlike(After(s1, unlock), lock, unlock);
    assert Newest(After(s1, unlock).writes, key) == |s.writes| + 2;
  }

  lemma AnsweredAlike(s: State, a: Op, b: Op)
    requires a.kind == b.kind == "Txn" && a.clientId == b.clientId && Last(s.tables, a.clientId) >= a.requestId
    ensures ReplyTo(s, a) == Recorded(s.tables, b) && After(s, a) == s
  {
  }
}
