/** The safety properties of Raft over whole runs. */
module RaftSafety {
  import opened RaftLog
  import opened RaftHandlers
  import opened RaftSystem
  import opened RaftElection
  import opened RaftMatching
  import opened RaftSync
  import opened RaftCompleteness
  import opened RaftCommit

  // ---- the invariants along a run ----

  lemma {:induction false} AnyOrder(ss: seq<Sys>, acts: seq<Action>, k: nat)
    requires IsRun(ss, acts) && k < |ss|
    ensures InvE(ss[k]) && InvL(ss[k])
  {
    hide InvE, InvL, Enabled, Next, Init;
    if k == 0 {
      InitE(|ss[0].nodes|);
      InitL(|ss[0].nodes|);
    } else {
      AnyOrder(ss, acts, k - 1);
      assert ss[(k - 1) + 1] == Next(ss[k - 1], acts[k - 1]);
      StepE(ss[k - 1], acts[k - 1]);
      StepL(ss[k - 1], acts[k - 1]);
    }
  }

  lemma {:induction false} SparingRun(ss: seq<Sys>, acts: seq<Action>, k: nat)
    requires IsSparingRun(ss, acts) && k < |ss|
    ensures InvF(ss[k]) && InvC(ss[k]) && InvA(ss[k])
  {
    hide InvE, InvL, InvF, InvC, InvA, Enabled, Next, Init, Spares, SyncGrows;
    if k == 0 {
      InitF(|ss[0].nodes|);
      InitC(|ss[0].nodes|);
      InitA(|ss[0].nodes|);
    } else {
      var s, act := ss[k - 1], acts[k - 1];
      SparingRun(ss, acts, k - 1);
      AnyOrder(ss, acts, k - 1);
      AnyOrder(ss, acts, k);
      assert ss[(k - 1) + 1] == Next(s, act);
      StepF(s, act);
      StepC(s, act);
      StepA(s, act);
    }
  }

  /** What a step never takes back. */
  ghost predicate Later(s: Sys, s': Sys) {
    && |s'.nodes| == |s.nodes| && |s'.applied| == |s.applied|
    && Grows(s.llog, s'.llog) && s.commits <= s'.commits
    && (forall t :: t in s.elect ==> t in s'.elect && s'.elect[t] == s.elect[t])
    && (forall i :: 0 <= i < |s.applied| ==> s.applied[i] <= s'.applied[i])
  }

  lemma LaterCrown(s: Sys, s': Sys, i: nat)
    requires CrownStepF(s, s', i) && s.llog.Keys == s.elect.Keys
    requires s'.commits == s.commits && s'.applied == s.applied
    ensures Later(s, s')
  {
  }

  lemma LaterStand(s: Sys, i: nat)
    requires Shape(s) && i < |s.nodes| && |s.nodes| > 1
    ensures Later(s, DoTimeout(s, i))
  {
  }

  lemma LaterTimeout(s: Sys, i: nat)
    requires InvE(s) && InvL(s) && i < |s.nodes|
    ensures Later(s, DoTimeout(s, i))
  {
    assert Shape(s) && s.llog.Keys == s.elect.Keys;
    hide InvL, Shape;
    FreshTerm(s, i, s.nodes[i].term + 1);
    hide InvE;
    if |s.nodes| == 1 {
      SoloCrown(s, i);
      LaterCrown(s, DoTimeout(s, i), i);
    } else {
      LaterStand(s, i);
    }
  }

  lemma LaterVoteReply(s: Sys, i: nat, voter: nat, election: nat, vr: VoteReply)
    requires InvE(s) && InvL(s) && i < |s.nodes|
    requires VoteRep(voter, i, election, vr) in s.net && (i, election, voter) in s.waiting
    ensures Later(s, DoVoteReply(s, i, voter, election, vr))
  {
    assert Shape(s) && s.llog.Keys == s.elect.Keys;
    hide InvE, InvL, WF, Shape, DoVoteReply, Crowns, Later, CrownStepF, Quiet;
    if Crowns(s, i, election, vr) {
      NewTerm(s, i, voter, election, vr);
      ReplyCrown(s, i, voter, election, vr);
      LaterCrown(s, DoVoteReply(s, i, voter, election, vr), i);
    } else {
      LaterUncrowned(s, i, voter, election, vr);
    }
  }

  lemma LaterUncrowned(s: Sys, i: nat, voter: nat, election: nat, vr: VoteReply)
    requires Shape(s) && i < |s.nodes| && !Crowns(s, i, election, vr)
    ensures Later(s, DoVoteReply(s, i, voter, election, vr))
  {
    hide WF;
  }

  lemma LaterStart(s: Sys, i: nat, c: Cmd)
    requires InvL(s) && i < |s.nodes|
    ensures Later(s, DoStart(s, i, c))
  {
    if s.nodes[i].role == Leader {
      LeaderLog(s, i);
      hide InvL, WF, Shape;
    }
  }

  lemma LaterLocal(s: Sys, act: Action)
    requires Shape(s) && Enabled(s, act)
    requires act.RecvAppendRep? || act.SoloCommit? || act.RecvSnapRep? || act.ApplyNext?
    ensures Later(s, Next(s, act))
  {
    hide WF, OnAppendReply, OnSoloCommit, OnSnapshotReply;
  }

  lemma LaterNet(s: Sys, act: Action)
    requires Shape(s) && Enabled(s, act)
    requires act.RecvVoteReq? || act.SendAppend? || act.RecvAppend? || act.RecvSnap?
    ensures Later(s, Next(s, act))
  {
    hide WF, Shape, OnAppendEntries, OnRequestVote, OnInstallSnapshot, Sending;
  }

  lemma LaterStep(s: Sys, act: Action)
    requires InvE(s) && InvL(s) && Enabled(s, act)
    ensures Later(s, Next(s, act))
  {
    assert Shape(s);
    hide InvE, InvL, Shape, Counts, Later;
    hide DoTimeout, DoRequestVote, DoVoteReply, DoSend, DoAppend, DoAppendRep, DoSolo, DoStart, DoSnap, DoSnapRep,
      DoApply;
    match act
    case Timeout(i) => LaterTimeout(s, i);
    case RecvVoteRep(i, voter, election, vr) => LaterVoteReply(s, i, voter, election, vr);
    case ClientStart(i, c) => LaterStart(s, i, c);
    case _ =>
      if act.RecvAppendRep? || act.SoloCommit? || act.RecvSnapRep? || act.ApplyNext? {
        LaterLocal(s, act);
      } else {
        LaterNet(s, act);
      }
  }

  lemma {:induction false} LaterRun(ss: seq<Sys>, acts: seq<Action>, j: nat, k: nat)
    requires IsRun(ss, acts) && j <= k < |ss|
    ensures Later(ss[j], ss[k])
    decreases k
  {
    hide InvE, InvL, Enabled, Next, Init;
    if j < k {
      LaterRun(ss, acts, j, k - 1);
      AnyOrder(ss, acts, k - 1);
      assert ss[(k - 1) + 1] == Next(ss[k - 1], acts[k - 1]);
      LaterStep(ss[k - 1], acts[k - 1]);
      LaterTrans(ss[j], ss[k - 1], ss[k]);
    }
  }

  lemma LaterTrans(a: Sys, b: Sys, c: Sys)
    requires Later(a, b) && Later(b, c)
    ensures Later(a, c)
  {
  }

  // ---- the theorems ----

  /** Election safety: two leaders of one term, at whatever times, are one node. */
  lemma ElectionSafety(ss: seq<Sys>, acts: seq<Action>, j: nat, k: nat, a: nat, b: nat)
    requires IsRun(ss, acts) && j < |ss| && k < |ss| && a < |ss[j].nodes| && b < |ss[k].nodes|
    requires ss[j].nodes[a].role == Leader && ss[k].nodes[b].role == Leader
    requires ss[j].nodes[a].term == ss[k].nodes[b].term
    ensures a == b
  {
    AnyOrder(ss, acts, j);
    AnyOrder(ss, acts, k);
    var t := ss[j].nodes[a].term;
    assert t in ss[j].elect && ss[j].elect[t].leader == a;
    assert t in ss[k].elect && ss[k].elect[t].leader == b;
    hide InvE, InvL, IsRun;
    if j <= k {
      LaterRun(ss, acts, j, k);
    } else {
      LaterRun(ss, acts, k, j);
    }
  }

  lemma TracedAtEnd(ss: seq<Sys>, acts: seq<Action>, k: nat, i: nat)
    requires IsRun(ss, acts) && k < |ss| && i < |ss[k].nodes|
    ensures Traced(ss[|acts|].llog, ss[k].nodes[i].log)
  {
    AnyOrder(ss, acts, k);
    assert LogOk(ss[k], i);
    hide InvE, InvL;
    LaterRun(ss, acts, k, |acts|);
    TracedLater(ss[k].llog, ss[|acts|].llog, ss[k].nodes[i].log);
  }

  /** Log matching: logs of any two nodes at any two times that share a term at an index share all up to it. */
  lemma LogMatching(ss: seq<Sys>, acts: seq<Action>, j: nat, k: nat, a: nat, b: nat, i: nat)
    requires IsRun(ss, acts) && j < |ss| && k < |ss| && a < |ss[j].nodes| && b < |ss[k].nodes|
    requires i < |ss[j].nodes[a].log| && i < |ss[k].nodes[b].log|
    requires ss[j].nodes[a].log[i].term == ss[k].nodes[b].log[i].term
    ensures ss[j].nodes[a].log[..i + 1] == ss[k].nodes[b].log[..i + 1]
  {
    TracedAtEnd(ss, acts, j, a);
    TracedAtEnd(ss, acts, k, b);
    Matching(ss[|acts|].llog, ss[j].nodes[a].log, ss[k].nodes[b].log, i);
  }

  /** Whatever the delivery order, the send loop never indexes past the leader's log. */
  lemma NextIndexInBounds(ss: seq<Sys>, acts: seq<Action>, k: nat, i: nat, j: nat)
    requires IsRun(ss, acts) && k < |ss| && i < |ss[k].nodes| && j < |ss[k].nodes|
    requires ss[k].nodes[i].role == Leader
    ensures j < |ss[k].nodes[i].nextIndex| && ss[k].nodes[i].nextIndex[j] <= |ss[k].nodes[i].log|
  {
    AnyOrder(ss, acts, k);
    assert LogOk(ss[k], i);
  }

  /**
   * Leader completeness: what a leader of term `t` committed by counting is in the log of
   * every leader of a later term, before or after the count.
   */
  lemma LeaderCompleteness(ss: seq<Sys>, acts: seq<Action>, j: nat, k: nat, t: nat, n: nat, b: nat)
    requires IsSparingRun(ss, acts) && j < |ss| && k < |ss| && b < |ss[k].nodes|
    requires (t, n) in ss[j].commits && ss[k].nodes[b].role == Leader && ss[k].nodes[b].term > t
    ensures t in ss[j].llog && n < |ss[j].llog[t]| && ss[j].llog[t][n].term == t
    ensures ss[j].llog[t][..n + 1] <= ss[k].nodes[b].log
  {
    assert |ss| == |acts| + 1 && IsRun(ss, acts);
    hide IsRun, IsSparingRun, Open, InvE, InvL, InvF, InvC, InvA, Later;
    CommitAt(ss, acts, j, t, n);
    CrownedLogAt(ss, acts, k, b);
    AnyOrder(ss, acts, |acts|);
    SparingRun(ss, acts, |acts|);
    CompleteAt(ss[|acts|], t, n, ss[k].nodes[b].term);
  }

  lemma CompleteAt(s: Sys, t: nat, n: nat, u: nat)
    requires InvE(s) && InvL(s) && InvC(s) && Open(s, t, n) && u in s.elect && t < u
    ensures s.llog[t][..n + 1] <= s.elect[u].log
  {
    hide InvE, InvL, InvC, Able, Majority;
    Complete(s, t, n, u);
  }

  lemma CommitAt(ss: seq<Sys>, acts: seq<Action>, j: nat, t: nat, n: nat)
    requires IsSparingRun(ss, acts) && j < |ss| && (t, n) in ss[j].commits
    ensures t in ss[j].llog && n < |ss[j].llog[t]| && ss[j].llog[t][n].term == t
    ensures Open(ss[|acts|], t, n) && t in ss[|acts|].llog && n < |ss[|acts|].llog[t]|
    ensures ss[|acts|].llog[t][..n + 1] == ss[j].llog[t][..n + 1]
  {
    SparingRun(ss, acts, j);
    assert CountOk(ss[j], (t, n));
    SparingRun(ss, acts, |acts|);
    LaterRun(ss, acts, j, |acts|);
    assert CountOk(ss[|acts|], (t, n));
    hide IsRun, IsSparingRun, InvF, InvC, InvA;
    CountOpen(ss[|acts|], (t, n));
  }

  lemma CrownedLogAt(ss: seq<Sys>, acts: seq<Action>, k: nat, b: nat)
    requires IsRun(ss, acts) && k < |ss| && b < |ss[k].nodes| && ss[k].nodes[b].role == Leader
    ensures var u := ss[k].nodes[b].term;
      u in ss[|acts|].elect && ss[|acts|].elect[u].log <= ss[k].nodes[b].log
  {
    AnyOrder(ss, acts, k);
    LaterRun(ss, acts, k, |acts|);
    assert LogOk(ss[k], b) && LeaderLogOk(ss[k], ss[k].nodes[b].term);
  }

  /**
   * Early commit is sound: although a follower moves its commit index before it merges, the index
   * stays inside its log, and the committed prefix is that of the winner of its term or any later one.
   */
  lemma EarlyCommitSound(ss: seq<Sys>, acts: seq<Action>, k: nat, i: nat, u: nat)
    requires IsSparingRun(ss, acts) && k < |ss| && i < |ss[k].nodes|
    ensures ss[k].nodes[i].commit <= LastIndex(ss[k].nodes[i].log)
    ensures u in ss[k].elect && u >= ss[k].nodes[i].term ==>
      u in ss[k].llog && ss[k].nodes[i].log[..ss[k].nodes[i].commit + 1] <= ss[k].llog[u]
  {
    hide *;
    SparingIsRun(ss, acts);
    AnyOrder(ss, acts, k);
    SparingRun(ss, acts, k);
    CommitSound(ss[k], i, u);
  }

  lemma SparingIsRun(ss: seq<Sys>, acts: seq<Action>)
    requires IsSparingRun(ss, acts)
    ensures IsRun(ss, acts)
  {
    hide IsRun;
  }

  lemma CommitSound(s: Sys, i: nat, u: nat)
    requires InvE(s) && InvL(s) && InvC(s) && InvA(s) && i < |s.nodes|
    ensures s.nodes[i].commit <= LastIndex(s.nodes[i].log)
    ensures u in s.elect && u >= s.nodes[i].term ==>
      u in s.llog && s.nodes[i].log[..s.nodes[i].commit + 1] <= s.llog[u]
  {
    hide InvE, InvL, InvC, InvA, AllComplete;
    CommittedPrefix(s, i);
    CompleteAll(s);
    if u in s.elect && u >= s.nodes[i].term {
      SettledInLeader(s, s.nodes[i].term, s.nodes[i].log[..s.nodes[i].commit + 1], u);
    }
  }

  lemma CommittedPrefix(s: Sys, i: nat)
    requires InvL(s) && InvA(s) && i < |s.nodes|
    ensures s.nodes[i].commit < |s.nodes[i].log|
    ensures Settled(s, s.nodes[i].term, s.nodes[i].log[..s.nodes[i].commit + 1])
    ensures s.nodes[i].log[..s.nodes[i].commit + 1][0] == DUMMY
    ensures forall k :: k in s.commits ==> CountOk(s, k)
  {
    assert LogOk(s, i) && CommitOk(s, i);
  }

  lemma SettledInLeader(s: Sys, t: nat, p: seq<Entry>, u: nat)
    requires InvL(s) && AllComplete(s) && Settled(s, t, p) && u in s.elect && t <= u
    requires |p| >= 1 && p[0] == DUMMY && forall k :: k in s.commits ==> CountOk(s, k)
    ensures u in s.llog && p <= s.llog[u]
  {
    hide AllComplete, InvL, CountOk;
    LeaderStarts(s, u);
    if |p| > 1 {
      var k :| k in s.commits && k.0 <= t && Within(s, k, p);
      CountOpen(s, k);
      hide Open;
      CompleteNow(s, k.0, k.1, u);
    }
  }

  lemma LeaderStarts(s: Sys, u: nat)
    requires InvL(s) && u in s.elect
    ensures u in s.llog && s.llog[u] != [] && s.llog[u][0] == DUMMY
  {
    assert LeaderLogOk(s, u);
  }

  /** Of two committed prefixes one extends the other. */
  lemma SettledComparable(s: Sys, t: nat, p: seq<Entry>, u: nat, q: seq<Entry>)
    requires InvL(s) && AllComplete(s) && Settled(s, t, p) && Settled(s, u, q)
    requires |p| >= 1 && |q| >= 1 && p[0] == q[0] == DUMMY
    requires forall k :: k in s.commits ==> CountOk(s, k)
    ensures p <= q || q <= p
  {
    if |p| > 1 && |q| > 1 {
      var k :| k in s.commits && k.0 <= t && Within(s, k, p);
      var m :| m in s.commits && m.0 <= u && Within(s, m, q);
      var top := if k.0 <= m.0 then m.0 else k.0;
      assert CountOk(s, k) && CountOk(s, m);
      hide InvL, AllComplete, Settled, Within;
      assert Settled(s, top, p) && Settled(s, top, q) by { WithinSettles(s, k, p, top); WithinSettles(s, m, q, top); }
      SettledInLeader(s, top, p, top);
      SettledInLeader(s, top, q, top);
    }
  }

  lemma WithinSettles(s: Sys, k: (nat, nat), p: seq<Entry>, t: nat)
    requires k in s.commits && Within(s, k, p) && k.0 <= t
    ensures Settled(s, t, p)
  {
  }

  lemma CommandsPrefix(p: seq<Entry>, q: seq<Entry>)
    requires p <= q
    ensures Commands(p) <= Commands(q)
  {
  }

  /** The applied commands are those of a committed prefix. */
  lemma AppliedPrefix(s: Sys, i: nat) returns (p: seq<Entry>)
    requires InvL(s) && InvA(s) && i < |s.nodes|
    ensures |p| >= 1 && p[0] == DUMMY && Settled(s, s.nodes[i].term, p)
    ensures i < |s.applied| && s.applied[i] == Commands(p[1..])
    ensures forall k :: k in s.commits ==> CountOk(s, k)
  {
    var n := s.nodes[i];
    assert AppliedOk(s, i);
    CommittedPrefix(s, i);
    hide InvA, InvL, Settled, CountOk;
    p := n.log[..n.lastApply + 1];
    SettledPrefix(s, n.term, n.log[..n.commit + 1], p);
    assert n.log[1..n.lastApply + 1] == p[1..];
  }

  lemma AppliedComparable(s: Sys, a: nat, b: nat)
    requires InvL(s) && AllComplete(s) && InvA(s) && a < |s.nodes| && b < |s.nodes|
    ensures a < |s.applied| && b < |s.applied|
    ensures s.applied[a] <= s.applied[b] || s.applied[b] <= s.applied[a]
  {
    hide InvA, InvL, AllComplete, Settled, CountOk;
    var p := AppliedPrefix(s, a);
    var q := AppliedPrefix(s, b);
    SettledComparable(s, s.nodes[a].term, p, s.nodes[b].term, q);
    if p <= q {
      CommandsPrefix(p[1..], q[1..]);
    } else {
      CommandsPrefix(q[1..], p[1..]);
    }
  }

  /** State machine safety: what any two nodes handed to applyCh by any two times, one extends the other. */
  lemma StateMachineSafety(ss: seq<Sys>, acts: seq<Action>, j: nat, k: nat, a: nat, b: nat)
    requires IsSparingRun(ss, acts) && j < |ss| && k < |ss| && a < |ss[j].applied| && b < |ss[k].applied|
    ensures ss[j].applied[a] <= ss[k].applied[b] || ss[k].applied[b] <= ss[j].applied[a]
  {
    var e := ss[|acts|];
    LaterRun(ss, acts, j, |acts|);
    LaterRun(ss, acts, k, |acts|);
    AnyOrder(ss, acts, |acts|);
    SparingRun(ss, acts, |acts|);
    assert |e.applied| == |e.nodes|;
    hide IsRun, IsSparingRun, InvE, InvL, InvF, InvC, InvA;
    CompleteAll(e);
    AppliedComparable(e, a, b);
  }

  /** Nothing handed over is taken back, and it is the log up to lastApply, which is committed. */
  lemma AppliedIsCommitted(ss: seq<Sys>, acts: seq<Action>, k: nat, i: nat)
    requires IsSparingRun(ss, acts) && k < |ss| && i < |ss[k].nodes|
    ensures i < |ss[k].applied| && ss[k].nodes[i].lastApply <= ss[k].nodes[i].commit < |ss[k].nodes[i].log|
    ensures ss[k].applied[i] == Commands(ss[k].nodes[i].log[1..ss[k].nodes[i].lastApply + 1])
  {
    SparingRun(ss, acts, k);
    assert AppliedOk(ss[k], i) && CommitOk(ss[k], i);
  }

  /**
   * Who waits for the entry `e` it appended at index `n` is handed the command of exactly that entry if and only if
   * the entry found there in the end has the term of `e`, which `Start` returned.
   */
  lemma OwnEntryIff(ss: seq<Sys>, acts: seq<Action>, j: nat, k: nat, i: nat, n: nat, e: Entry)
    requires IsSparingRun(ss, acts) && j < |ss| && k < |ss| && i < |ss[j].nodes| && i < |ss[k].nodes|
    requires 1 <= n < |ss[j].nodes[i].log| && ss[j].nodes[i].log[n] == e && n <= ss[k].nodes[i].lastApply
    ensures i < |ss[k].applied| && n <= |ss[k].applied[i]| && n < |ss[k].nodes[i].log|
    ensures ss[k].applied[i][n - 1] == ss[k].nodes[i].log[n].cmd
    ensures ss[k].nodes[i].log[n] == e <==> ss[k].nodes[i].log[n].term == e.term
  {
    hide *;
    SparingIsRun(ss, acts);
    AppliedIsCommitted(ss, acts, k, i);
    var log := ss[k].nodes[i].log;
    CommandAt(log, ss[k].nodes[i].lastApply, n);
    if log[n].term == e.term {
      LogMatching(ss, acts, j, k, i, i, n);
      assert log[..n + 1][n] == e;
    }
  }

  lemma CommandAt(log: seq<Entry>, last: nat, n: nat)
    requires 1 <= n <= last < |log|
    ensures |Commands(log[1..last + 1])| == last && Commands(log[1..last + 1])[n - 1] == log[n].cmd
  {
  }
}
