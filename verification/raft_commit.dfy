/** Commitment: what any node considers committed was confirmed by a majority, and is never overwritten. */
module RaftCommit {
  import opened RaftLog
  import opened RaftHandlers
  import opened RaftSystem
  import opened RaftElection
  import opened RaftMatching
  import opened RaftSync
  import opened RaftCompleteness

  ghost function Acked(s: Sys, t: nat, n: nat): set<nat> {
    set w: nat | w < |s.nodes| && Synced(s, t, w) > n
  }

  /** What a leader counted is really on a majority. */
  ghost predicate CountOk(s: Sys, k: (nat, nat)) {
    Point(s, k.0, k.1) && Majority(Acked(s, k.0, k.1), |s.nodes|)
  }

  ghost predicate Within(s: Sys, k: (nat, nat), p: seq<Entry>) {
    k.0 in s.llog && k.1 < |s.llog[k.0]| && p <= s.llog[k.0][..k.1 + 1]
  }

  /** `p` lies within something a leader of a term up to `t` committed. */
  ghost predicate Settled(s: Sys, t: int, p: seq<Entry>) {
    |p| <= 1 || exists k :: k in s.commits && k.0 <= t && Within(s, k, p)
  }

  ghost predicate CommitOk(s: Sys, i: nat)
    requires i < |s.nodes|
  {
    var n := s.nodes[i];
    && n.commit < |n.log|
    && Settled(s, n.term, n.log[..n.commit + 1])
    && (n.commit < Synced(s, n.term, i) || Settled(s, n.term - 1, n.log[..n.commit + 1]))
  }

  /** A message's commit index never points past the entries it carries. */
  ghost predicate MsgCommitOk(s: Sys, a: AppArgs) {
    && 0 <= a.commit < Full(a) && a.term in s.llog && Full(a) <= |s.llog[a.term]|
    && Settled(s, a.term, s.llog[a.term][..a.commit + 1])
  }

  /** The state machine got exactly the commands up to lastApply. */
  ghost predicate AppliedOk(s: Sys, i: nat)
    requires i < |s.nodes| && i < |s.applied|
  {
    var n := s.nodes[i];
    && n.lastApply <= n.commit && n.lastApply + 1 <= |n.log|
    && s.applied[i] == Commands(n.log[1..n.lastApply + 1])
  }

  ghost predicate InvA(s: Sys) {
    && |s.applied| == |s.nodes|
    && (forall k :: k in s.commits ==> CountOk(s, k))
    && (forall i :: 0 <= i < |s.nodes| ==> CommitOk(s, i))
    && (forall i :: 0 <= i < |s.nodes| ==> AppliedOk(s, i))
    && (forall p :: p in s.net && p.AppReq? ==> MsgCommitOk(s, p.aa))
  }

  lemma InitA(size: nat)
    ensures InvA(Init(size))
  {
  }

  lemma CountOpen(s: Sys, k: (nat, nat))
    requires CountOk(s, k)
    ensures Open(s, k.0, k.1)
  {
    SubsetSize(Acked(s, k.0, k.1), Able(s, k.0, k.1));
  }

  /** The history moves on: commits, leaders' logs and confirmations only grow. */
  ghost predicate Ahead(s: Sys, s': Sys) {
    && |s'.nodes| == |s.nodes| && s.commits <= s'.commits && Grows(s.llog, s'.llog)
    && (forall t :: t in s.elect ==> t in s'.elect)
    && (forall t, v :: 0 <= v < |s.nodes| ==> Synced(s, t, v) <= Synced(s', t, v))
  }

  lemma CountLater(s: Sys, s': Sys, k: (nat, nat))
    requires Ahead(s, s') && CountOk(s, k)
    ensures CountOk(s', k)
  {
    SubsetSize(Acked(s, k.0, k.1), Acked(s', k.0, k.1));
  }

  lemma SettledLater(s: Sys, s': Sys, t: int, t': int, p: seq<Entry>)
    requires Ahead(s, s') && Settled(s, t, p) && t <= t'
    ensures Settled(s', t', p)
  {
    if |p| > 1 {
      var k :| k in s.commits && k.0 <= t && Within(s, k, p);
      assert Within(s', k, p);
    }
  }

  lemma SettledPrefix(s: Sys, t: int, p: seq<Entry>, q: seq<Entry>)
    requires Settled(s, t, p) && q <= p
    ensures Settled(s, t, q)
  {
    if |q| > 1 {
      var k :| k in s.commits && k.0 <= t && Within(s, k, p);
      assert Within(s, k, q);
    }
  }

  /** What was settled in earlier terms, every later winner started with. */
  lemma SettledAtElection(s: Sys, t: int, p: seq<Entry>, u: nat)
    requires InvL(s) && AllComplete(s) && Settled(s, t, p) && u in s.elect && t < u
    requires forall k :: k in s.commits ==> CountOk(s, k)
    requires |p| == 1 ==> p[0] == DUMMY
    ensures p <= s.elect[u].log
  {
    assert LeaderLogOk(s, u);
    assert s.elect[u].log[0] == s.llog[u][0] == DUMMY;
    hide InvL, LeaderLogOk, Traced;
    if |p| > 1 {
      var k :| k in s.commits && k.0 <= t && Within(s, k, p);
      CountOpen(s, k);
      assert Pre(s, k.0, k.1) <= s.elect[u].log;
    }
  }

  // ---- one step ----

  ghost predicate AStep(s: Sys, s': Sys, i: nat) {
    && Ahead(s, s') && i < |s.nodes| && |s'.applied| == |s.applied| == |s.nodes|
    && (forall j :: 0 <= j < |s.nodes| && j != i ==> s'.nodes[j] == s.nodes[j] && s'.applied[j] == s.applied[j])
    && (forall k :: k in s'.commits && k !in s.commits ==> CountOk(s', k))
    && CommitOk(s', i) && AppliedOk(s', i)
    && (forall p :: p in s'.net && p !in s.net && p.AppReq? ==> MsgCommitOk(s', p.aa))
  }

  lemma CommitLater(s: Sys, s': Sys, j: nat)
    requires Ahead(s, s') && j < |s.nodes| && CommitOk(s, j) && s'.nodes[j] == s.nodes[j]
    ensures CommitOk(s', j)
  {
    var n := s.nodes[j];
    SettledLater(s, s', n.term, n.term, n.log[..n.commit + 1]);
    if Settled(s, n.term - 1, n.log[..n.commit + 1]) {
      SettledLater(s, s', n.term - 1, n.term - 1, n.log[..n.commit + 1]);
    }
  }

  lemma MsgLater(s: Sys, s': Sys, a: AppArgs)
    requires Ahead(s, s') && MsgCommitOk(s, a)
    ensures MsgCommitOk(s', a)
  {
    SettledLater(s, s', a.term, a.term, s.llog[a.term][..a.commit + 1]);
    assert s'.llog[a.term][..a.commit + 1] == s.llog[a.term][..a.commit + 1];
  }

  lemma AKept(s: Sys, s': Sys, i: nat)
    requires InvA(s) && AStep(s, s', i)
    ensures InvA(s')
  {
    hide Settled, Acked;
    forall k | k in s'.commits
      ensures CountOk(s', k)
    {
      if k in s.commits {
        CountLater(s, s', k);
      }
    }
    forall j | 0 <= j < |s'.nodes|
      ensures CommitOk(s', j) && AppliedOk(s', j)
    {
      if j != i {
        CommitLater(s, s', j);
        assert AppliedOk(s, j);
      }
    }
    forall p | p in s'.net && p.AppReq?
      ensures MsgCommitOk(s', p.aa)
    {
      if p in s.net {
        MsgLater(s, s', p.aa);
      }
    }
  }

  // ---- the steps ----

  lemma AheadStill(s: Sys, s': Sys, i: nat)
    requires Still(s, s', i) && SyncGrows(s, s', i) && s.commits <= s'.commits
    ensures Ahead(s, s')
  {
  }

  lemma AheadCrown(s: Sys, s': Sys, i: nat)
    requires CrownStepF(s, s', i) && SyncGrows(s, s', i) && s.commits <= s'.commits
    requires s.llog.Keys == s.elect.Keys
    ensures Ahead(s, s')
  {
  }

  lemma SameCommit(s: Sys, s': Sys, i: nat)
    requires Ahead(s, s') && i < |s.nodes| && CommitOk(s, i)
    requires s.nodes[i].term <= s'.nodes[i].term && s'.nodes[i].commit == s.nodes[i].commit
    requires s.nodes[i].commit < |s'.nodes[i].log|
    requires s'.nodes[i].log[..s.nodes[i].commit + 1] == s.nodes[i].log[..s.nodes[i].commit + 1]
    ensures CommitOk(s', i)
  {
    var n, n' := s.nodes[i], s'.nodes[i];
    var p := n.log[..n.commit + 1];
    SettledLater(s, s', n.term, n'.term, p);
    if n'.term > n.term {
      SettledLater(s, s', n.term, n'.term - 1, p);
    } else if Settled(s, n.term - 1, p) {
      SettledLater(s, s', n.term - 1, n'.term - 1, p);
    }
  }

  lemma SameApplied(s: Sys, s': Sys, i: nat)
    requires i < |s.nodes| && |s'.nodes| == |s.nodes| == |s.applied| == |s'.applied| && AppliedOk(s, i)
    requires s'.applied[i] == s.applied[i] && s'.nodes[i].lastApply == s.nodes[i].lastApply
    requires s.nodes[i].commit <= s'.nodes[i].commit
    requires s.nodes[i].commit < |s.nodes[i].log| && s.nodes[i].commit < |s'.nodes[i].log|
    requires s'.nodes[i].log[..s.nodes[i].commit + 1] == s.nodes[i].log[..s.nodes[i].commit + 1]
    ensures AppliedOk(s', i)
  {
    var n, n' := s.nodes[i], s'.nodes[i];
    assert n'.log[1..n.lastApply + 1] == n'.log[..n.commit + 1][1..n.lastApply + 1];
    assert n.log[1..n.lastApply + 1] == n.log[..n.commit + 1][1..n.lastApply + 1];
  }

  /** Steps that commit and apply nothing; the log of node `i` may grow. */
  ghost predicate Idle(s: Sys, s': Sys, i: nat) {
    && NodesStep(s, s', i) && |s'.applied| == |s.applied| == |s.nodes|
    && s'.applied == s.applied && s'.commits == s.commits
    && s'.nodes[i].commit == s.nodes[i].commit && s'.nodes[i].lastApply == s.nodes[i].lastApply
    && s.nodes[i].log <= s'.nodes[i].log
  }

  lemma AIdle(s: Sys, s': Sys, i: nat)
    requires InvA(s) && Idle(s, s', i) && Ahead(s, s')
    requires forall p :: p in s'.net && p !in s.net && p.AppReq? ==> MsgCommitOk(s', p.aa)
    ensures InvA(s')
  {
    assert CommitOk(s, i) && AppliedOk(s, i);
    var c := s.nodes[i].commit;
    assert s'.nodes[i].log[..c + 1] == s.nodes[i].log[..c + 1];
    assert NodesStep(s, s', i) && forall k :: k in s'.commits ==> k in s.commits;
    hide InvA, CommitOk, AppliedOk, MsgCommitOk, CountOk, Ahead, NodesStep;
    SameCommitIdle(s, s', i);
    assert AStep(s, s', i) by { IdleStep(s, s', i); }
    AKept(s, s', i);
  }

  lemma SameCommitIdle(s: Sys, s': Sys, i: nat)
    requires Idle(s, s', i) && Ahead(s, s') && CommitOk(s, i) && AppliedOk(s, i)
    ensures CommitOk(s', i) && AppliedOk(s', i)
  {
    SameCommit(s, s', i);
    SameApplied(s, s', i);
  }

  lemma IdleStep(s: Sys, s': Sys, i: nat)
    requires Idle(s, s', i) && Ahead(s, s') && CommitOk(s', i) && AppliedOk(s', i)
    requires forall p :: p in s'.net && p !in s.net && p.AppReq? ==> MsgCommitOk(s', p.aa)
    ensures AStep(s, s', i)
  {
    hide Ahead, CommitOk, AppliedOk, MsgCommitOk;
  }

  ghost predicate NoMsgs(s: Sys, s': Sys) {
    forall p :: p in s'.net && p !in s.net ==> !p.AppReq?
  }

  lemma ATimeout(s: Sys, i: nat)
    requires InvA(s) && Shape(s) && i < |s.nodes| && s.llog.Keys == s.elect.Keys
    requires |s.nodes| == 1 ==> s.nodes[i].term + 1 !in s.elect
    requires SyncGrows(s, DoTimeout(s, i), i)
    ensures InvA(DoTimeout(s, i))
  {
    var s' := DoTimeout(s, i);
    assert |s.applied| == |s.nodes|;
    hide InvA, SyncGrows, WF;
    if |s.nodes| == 1 {
      SoloCrown(s, i);
      AheadCrown(s, s', i);
    } else {
      StandStill(s, i);
      AheadStill(s, s', i);
    }
    hide CrownStepF, Still, Ahead;
    assert Idle(s, s', i) && NoMsgs(s, s');
    AIdle(s, s', i);
  }

  lemma AVoteReply(s: Sys, i: nat, voter: nat, election: nat, vr: VoteReply)
    requires InvA(s) && Shape(s) && i < |s.nodes| && s.llog.Keys == s.elect.Keys
    requires Crowns(s, i, election, vr) ==> election !in s.elect
    requires SyncGrows(s, DoVoteReply(s, i, voter, election, vr), i)
    ensures InvA(DoVoteReply(s, i, voter, election, vr))
  {
    var s' := DoVoteReply(s, i, voter, election, vr);
    assert Crowns(s, i, election, vr) ==> Shape(s);
    hide InvA, SyncGrows, WF, Shape, DoVoteReply, Ahead, Idle, NoMsgs, CrownStepF, Crowns;
    if Crowns(s, i, election, vr) {
      ReplyCrown(s, i, voter, election, vr);
      AheadCrown(s, s', i);
    } else {
      QuietVoteReply(s, i, voter, election, vr);
      StillOfQuiet(s, s', i);
      AheadStill(s, s', i);
    }
    ReplyIdle(s, i, voter, election, vr);
    NoneSent(s, s');
    AIdle(s, s', i);
  }

  lemma StillOfQuiet(s: Sys, s': Sys, i: nat)
    requires Quiet(s, s', i)
    ensures Still(s, s', i)
  {
  }

  lemma ReplyIdle(s: Sys, i: nat, voter: nat, election: nat, vr: VoteReply)
    requires Shape(s) && i < |s.nodes|
    ensures var s' := DoVoteReply(s, i, voter, election, vr); Idle(s, s', i) && NoMsgs(s, s')
  {
    hide WF;
  }

  lemma ARequestVote(s: Sys, i: nat, va: VoteArgs)
    requires InvA(s) && Shape(s) && i < |s.nodes| && SyncGrows(s, DoRequestVote(s, i, va), i)
    ensures InvA(DoRequestVote(s, i, va))
  {
    var s' := DoRequestVote(s, i, va);
    hide InvA, SyncGrows, WF;
    QuietRequestVote(s, i, va);
    AheadStill(s, s', i);
    hide Quiet, Ahead;
    assert Idle(s, s', i) && NoMsgs(s, s');
    AIdle(s, s', i);
  }

  lemma ASnap(s: Sys, i: nat, leader: nat, term: nat)
    requires InvA(s) && Shape(s) && i < |s.nodes| && SyncGrows(s, DoSnap(s, i, leader, term), i)
    ensures InvA(DoSnap(s, i, leader, term))
  {
    var s' := DoSnap(s, i, leader, term);
    hide InvA, SyncGrows, WF;
    QuietSnap(s, i, leader, term);
    AheadStill(s, s', i);
    hide Quiet, Ahead;
    assert Idle(s, s', i) && NoMsgs(s, s');
    AIdle(s, s', i);
  }

  lemma ASnapRep(s: Sys, i: nat, peer: nat, rterm: nat)
    requires InvA(s) && Shape(s) && i < |s.nodes| && peer < |s.nodes| && SyncGrows(s, DoSnapRep(s, i, peer, rterm), i)
    ensures InvA(DoSnapRep(s, i, peer, rterm))
  {
    var s' := DoSnapRep(s, i, peer, rterm);
    hide InvA, SyncGrows, WF;
    QuietSnapRep(s, i, peer, rterm);
    AheadStill(s, s', i);
    hide Quiet, Ahead;
    assert Idle(s, s', i);
    AIdle(s, s', i);
  }

  lemma LeaderLog(s: Sys, i: nat)
    requires InvL(s) && i < |s.nodes| && s.nodes[i].role == Leader
    ensures s.nodes[i].term in s.llog && s.nodes[i].log == s.llog[s.nodes[i].term]
  {
    assert LogOk(s, i);
  }

  /** A leader ships its commit index together with its whole suffix. */
  lemma SentCommit(s: Sys, i: nat, j: nat)
    requires Shape(s) && i < |s.nodes| && j < |s.nodes| && CommitOk(s, i)
    requires s.nodes[i].term in s.llog && s.nodes[i].log == s.llog[s.nodes[i].term]
    ensures var s' := DoSend(s, i, j);
      forall p :: p in s'.net && p !in s.net && p.AppReq? ==> MsgCommitOk(s', p.aa)
  {
    var n := s.nodes[i];
    var s' := DoSend(s, i, j);
    hide WF;
    assert Settled(s', n.term, n.log[..n.commit + 1]);
  }

  lemma ASend(s: Sys, i: nat, j: nat)
    requires InvA(s) && InvL(s) && Shape(s) && i < |s.nodes| && j < |s.nodes| && s.nodes[i].role == Leader
    requires SyncGrows(s, DoSend(s, i, j), i)
    ensures InvA(DoSend(s, i, j))
  {
    var s' := DoSend(s, i, j);
    assert CommitOk(s, i) && |s.applied| == |s.nodes|;
    hide InvA, InvL, SyncGrows, WF, CommitOk;
    LeaderLog(s, i);
    SentCommit(s, i, j);
    QuietSend(s, i, j);
    AheadStill(s, s', i);
    hide Quiet, Ahead, MsgCommitOk, Sending;
    assert Idle(s, s', i);
    AIdle(s, s', i);
  }

  lemma AheadStart(s: Sys, i: nat, c: Cmd)
    requires Shape(s) && i < |s.nodes| && s.nodes[i].role == Leader
    requires s.nodes[i].term in s.llog && s.nodes[i].log == s.llog[s.nodes[i].term]
    requires SyncGrows(s, DoStart(s, i, c), i)
    ensures Ahead(s, DoStart(s, i, c))
  {
  }

  lemma AStart(s: Sys, i: nat, c: Cmd)
    requires InvA(s) && InvL(s) && Shape(s) && i < |s.nodes|
    requires SyncGrows(s, DoStart(s, i, c), i)
    ensures InvA(DoStart(s, i, c))
  {
    hide InvA, InvL, SyncGrows, WF, Shape, DoStart, Ahead, Idle, NoMsgs;
    var s' := DoStart(s, i, c);
    StartIdle(s, i, c);
    if s.nodes[i].role == Leader {
      LeaderLog(s, i);
      AheadStart(s, i, c);
      NoneSent(s, s');
      AIdle(s, s', i);
    } else {
      NotLeading(s, i, c);
    }
  }

  lemma StartIdle(s: Sys, i: nat, c: Cmd)
    requires Shape(s) && i < |s.nodes|
    ensures Idle(s, DoStart(s, i, c), i) && NoMsgs(s, DoStart(s, i, c))
  {
    hide WF;
  }

  lemma NotLeading(s: Sys, i: nat, c: Cmd)
    requires Shape(s) && i < |s.nodes| && s.nodes[i].role != Leader
    ensures DoStart(s, i, c) == s
  {
  }

  lemma NoneSent(s: Sys, s': Sys)
    requires NoMsgs(s, s')
    ensures forall p :: p in s'.net && p !in s.net && p.AppReq? ==> MsgCommitOk(s', p.aa)
  {
  }

  // ---- applying ----

  lemma CommandsSnoc(log: seq<Entry>, n: nat)
    requires n + 1 < |log|
    ensures Commands(log[1..n + 2]) == Commands(log[1..n + 1]) + [log[n + 1].cmd]
  {
    assert log[1..n + 2] == log[1..n + 1] + [log[n + 1]];
  }

  lemma AppliedNext(s: Sys, i: nat)
    requires Shape(s) && i < |s.nodes| && AppliedOk(s, i) && s.nodes[i].commit < |s.nodes[i].log|
    ensures AppliedOk(DoApply(s, i), i)
  {
    var n := s.nodes[i];
    if n.lastApply < n.commit {
      CommandsSnoc(n.log, n.lastApply);
    }
  }

  lemma AApply(s: Sys, i: nat)
    requires InvA(s) && Shape(s) && i < |s.nodes| && SyncGrows(s, DoApply(s, i), i)
    ensures InvA(DoApply(s, i))
  {
    var s' := DoApply(s, i);
    assert CommitOk(s, i) && AppliedOk(s, i);
    hide InvA, SyncGrows, WF, Settled;
    AppliedNext(s, i);
    QuietApply(s, i);
    AheadStill(s, s', i);
    assert s'.nodes[i].log == s.nodes[i].log && s'.nodes[i].commit == s.nodes[i].commit;
    SameCommit(s, s', i);
    hide Quiet, Ahead, CommitOk, AppliedOk;
    assert AStep(s, s', i);
    AKept(s, s', i);
  }

  // ---- committing by count ----

  /** The peers counted by the leader have confirmed the index. */
  lemma CountedOk(s: Sys, i: nat, n: nat)
    requires Shape(s) && i < |s.nodes| && MatchOk(s, i) && s.nodes[i].role == Leader
    requires var t := s.nodes[i].term;
      t in s.elect && t in s.llog && s.nodes[i].log == s.llog[t] && s.elect[t].leader == i && LeaderSync(s, t)
    requires 1 <= n < |s.nodes[i].log| && Committable(s.nodes[i], i, n)
    ensures CountOk(s, (s.nodes[i].term, n))
  {
    var node := s.nodes[i];
    var hs := Holders(node.matchIndex, i, n);
    forall j | j in hs
      ensures j in Acked(s, node.term, n)
    {
    }
    SubsetSize(hs, Acked(s, node.term, n));
  }

  /** The leader's facts that `CountedOk` needs, after a step that leaves its log alone. */
  ghost predicate Leads(s: Sys, i: nat)
    requires i < |s.nodes|
  {
    s.nodes[i].role == Leader ==>
      && MatchOk(s, i) && s.nodes[i].term in s.elect && s.nodes[i].term in s.llog
      && s.nodes[i].log == s.llog[s.nodes[i].term] && s.elect[s.nodes[i].term].leader == i
      && LeaderSync(s, s.nodes[i].term)
  }

  lemma LeadsAfter(s: Sys, i: nat)
    requires InvE(s) && InvL(s) && InvF(s) && i < |s.nodes|
    ensures Leads(s, i)
  {
    assert LogOk(s, i) && MatchOk(s, i);
  }

  /** Either the commit index stays, or the node leads and has counted the new one. */
  ghost predicate Counted(s: Sys, s': Sys, i: nat)
    requires i < |s.nodes| && i < |s'.nodes|
  {
    var n, n' := s.nodes[i], s'.nodes[i];
    || (n'.commit == n.commit && s'.commits == s.commits)
    || (n'.role == Leader && n.commit < n'.commit < |n'.log| && Committable(n', i, n'.commit)
        && s'.commits == s.commits + {(n'.term, n'.commit)})
  }

  lemma NewCommit(s: Sys, s': Sys, i: nat)
    requires Shape(s') && Ahead(s, s') && i < |s.nodes| && CommitOk(s, i) && Counted(s, s', i)
    requires s.nodes[i].term <= s'.nodes[i].term && s'.nodes[i].log == s.nodes[i].log
    requires Leads(s', i)
    ensures CommitOk(s', i)
    ensures forall k :: k in s'.commits && k !in s.commits ==> CountOk(s', k)
  {
    var n' := s'.nodes[i];
    if n'.commit == s.nodes[i].commit {
      SameCommit(s, s', i);
    } else {
      CountedOk(s', i, n'.commit);
      assert Within(s', (n'.term, n'.commit), n'.log[..n'.commit + 1]);
      hide Ahead, Shape, CountOk;
    }
  }

  lemma ACount(s: Sys, s': Sys, i: nat)
    requires InvA(s) && Shape(s') && Ahead(s, s') && NodesStep(s, s', i) && Counted(s, s', i) && Leads(s', i)
    requires s'.nodes[i].log == s.nodes[i].log && s'.nodes[i].lastApply == s.nodes[i].lastApply
    requires s'.net == s.net && s'.applied == s.applied
    ensures InvA(s')
  {
    assert CommitOk(s, i) && AppliedOk(s, i);
    hide InvA, Shape, Settled;
    SameApplied(s, s', i);
    NewCommit(s, s', i);
    hide Ahead, CommitOk, AppliedOk, Counted, Leads;
    assert AStep(s, s', i);
    AKept(s, s', i);
  }

  lemma RepCounted(s: Sys, i: nat, peer: nat, ra: AppArgs, ar: AppReply)
    requires Shape(s) && i < |s.nodes| && peer < |s.nodes|
    ensures var s' := DoAppendRep(s, i, peer, ra, ar);
      && Counted(s, s', i) && s.commits <= s'.commits && NodesStep(s, s', i)
      && s'.nodes[i].log == s.nodes[i].log && s'.nodes[i].lastApply == s.nodes[i].lastApply
      && s'.net == s.net && s'.applied == s.applied
  {
  }

  lemma AAppendRep(s: Sys, i: nat, peer: nat, ra: AppArgs, ar: AppReply)
    requires InvA(s) && Shape(s) && i < |s.nodes| && peer < |s.nodes|
    requires var s' := DoAppendRep(s, i, peer, ra, ar); Leads(s', i) && SyncGrows(s, s', i)
    ensures InvA(DoAppendRep(s, i, peer, ra, ar))
  {
    var s' := DoAppendRep(s, i, peer, ra, ar);
    RepCounted(s, i, peer, ra, ar);
    QuietAppendRep(s, i, peer, ra, ar);
    AheadStill(s, s', i);
    hide *;
    ACount(s, s', i);
  }

  lemma SoloCounted(s: Sys, i: nat)
    requires Shape(s) && i < |s.nodes| && s.nodes[i].role == Leader
    ensures var s' := DoSolo(s, i);
      && Counted(s, s', i) && s.commits <= s'.commits && NodesStep(s, s', i)
      && s'.nodes[i].log == s.nodes[i].log && s'.nodes[i].lastApply == s.nodes[i].lastApply
      && s'.net == s.net && s'.applied == s.applied
  {
  }

  lemma ASolo(s: Sys, i: nat)
    requires InvA(s) && Shape(s) && i < |s.nodes| && s.nodes[i].role == Leader
    requires Leads(DoSolo(s, i), i) && SyncGrows(s, DoSolo(s, i), i)
    ensures InvA(DoSolo(s, i))
  {
    SoloCounted(s, i);
    QuietSolo(s, i);
    AheadStill(s, DoSolo(s, i), i);
    hide *;
    ACount(s, DoSolo(s, i), i);
  }

  // ---- committing on the leader's word ----

  /** What the receiver had committed survives the merge, and what it newly commits is the leader's. */
  ghost predicate Absorbs(s: Sys, i: nat, aa: AppArgs)
    requires Shape(s) && i < |s.nodes|
  {
    var n, n' := s.nodes[i], OnAppendEntries(s.nodes[i], aa).0;
    && n.commit <= n'.commit < |n'.log|
    && n.commit < |n.log| && n'.log[..n.commit + 1] == n.log[..n.commit + 1]
    && (n'.commit > n.commit ==>
          aa.term in s.llog && n'.commit <= aa.commit
          && n'.commit < Full(aa) <= |s.llog[aa.term]| && Full(aa) <= |n'.log|
          && n'.log[..Full(aa)] == s.llog[aa.term][..Full(aa)])
  }

  /** What node `i` had committed is in the leader's log, within what the message carries. */
  lemma CommittedInMessage(s: Sys, i: nat, aa: AppArgs)
    requires InvL(s) && AllComplete(s) && i < |s.nodes| && CommitOk(s, i) && SyncOk(s, i) && MsgOk(s, aa)
    requires forall k :: k in s.commits ==> CountOk(s, k)
    requires aa.term >= s.nodes[i].term && Synced(s, aa.term, i) <= Full(aa)
    ensures s.nodes[i].log[..s.nodes[i].commit + 1] <= s.llog[aa.term][..Full(aa)]
  {
    var n := s.nodes[i];
    var w := aa.term;
    var p := n.log[..n.commit + 1];
    hide AllComplete, CountOk, Settled;
    CarriesElection(s, i, aa);
    hide InvL, MsgOk;
    if w > n.term {
      SettledAtElection(s, n.term, p, w);
    } else if n.commit >= Synced(s, w, i) {
      SettledAtElection(s, n.term - 1, p, w);
    } else {
      hide AllComplete, CommitOk;
      ConfirmedInMessage(s, i, aa);
    }
  }

  /** Within a term, what is committed by what was confirmed is the leader's. */
  lemma ConfirmedInMessage(s: Sys, i: nat, aa: AppArgs)
    requires i < |s.nodes| && SyncOk(s, i) && aa.term in s.llog && aa.term == s.nodes[i].term
    requires s.nodes[i].commit < Synced(s, aa.term, i) <= Full(aa) <= |s.llog[aa.term]|
    ensures s.nodes[i].commit < |s.nodes[i].log|
    ensures s.nodes[i].log[..s.nodes[i].commit + 1] <= s.llog[aa.term][..Full(aa)]
  {
    var n := s.nodes[i];
    assert n.log[..n.commit + 1] == n.log[..Synced(s, aa.term, i)][..n.commit + 1];
  }

  lemma CarriesElection(s: Sys, i: nat, aa: AppArgs)
    requires InvL(s) && i < |s.nodes| && MsgOk(s, aa)
    ensures Full(aa) <= |s.llog[aa.term]| && s.elect[aa.term].log <= s.llog[aa.term][..Full(aa)]
    ensures s.nodes[i].log != [] && s.nodes[i].log[0] == DUMMY
  {
    assert LogOk(s, i) && LeaderLogOk(s, aa.term);
  }

  lemma AbsorbMessage(s: Sys, i: nat, aa: AppArgs)
    requires InvL(s) && AllComplete(s) && i < |s.nodes| && CommitOk(s, i) && SyncOk(s, i) && MsgOk(s, aa)
    requires forall k :: k in s.commits ==> CountOk(s, k)
    requires Accepts(s.nodes[i], aa) && Gentle(s, i, aa) && aa.commit < Full(aa)
    ensures Absorbs(s, i, aa)
  {
    hide InvL, AllComplete, CountOk, CommitOk, MsgOk, SyncOk, Merged, Shape, OnAppendEntries;
    MessageFits(s, aa);
    CommitInLog(s, i);
    Accepted(s, i, aa);
    if aa.entries != [] {
      assert Synced(s, aa.term, i) <= Full(aa) && aa.term >= s.nodes[i].term;
      CommittedInMessage(s, i, aa);
    }
    AbsorbNode(s.nodes[i], aa, s.llog[aa.term]);
  }

  lemma MessageFits(s: Sys, aa: AppArgs)
    requires MsgOk(s, aa)
    ensures aa.term in s.llog && Full(aa) <= |s.llog[aa.term]|
  {
  }

  lemma AbsorbNode(n: Node, aa: AppArgs, leader: seq<Entry>)
    requires n.commit < |n.log| && Accepts(n, aa) && aa.commit < Full(aa) <= |leader|
    requires var log' := OnAppendEntries(n, aa).0.log;
      && Full(aa) <= |log'| && log'[..Full(aa)] == leader[..Full(aa)]
      && if aa.entries == [] then log' == n.log
         else log' == leader[..Full(aa)] && n.log[..n.commit + 1] <= leader[..Full(aa)]
    ensures var n' := OnAppendEntries(n, aa).0;
      && n.commit <= n'.commit < |n'.log| && n'.log[..n.commit + 1] == n.log[..n.commit + 1]
      && (n'.commit > n.commit ==> n'.commit <= aa.commit && n'.commit < Full(aa))
  {
    hide Merged;
  }

  lemma AppendCommit(s: Sys, i: nat, sn: nat, aa: AppArgs)
    requires Shape(s) && i < |s.nodes| && CommitOk(s, i) && MsgCommitOk(s, aa)
    requires Accepts(s.nodes[i], aa) ==> Absorbs(s, i, aa)
    requires Ahead(s, DoAppend(s, i, sn, aa))
    ensures CommitOk(DoAppend(s, i, sn, aa), i)
  {
    var s' := DoAppend(s, i, sn, aa);
    var n, n' := s.nodes[i], s'.nodes[i];
    hide Settled, Merged, Shape, WF, Ahead;
    if n'.commit == n.commit {
      hide CommitOk;
      assert n.commit < |n.log| by { CommitInLog(s, i); }
      SameCommit(s, s', i);
    } else {
      assert aa.term == n'.term && n'.commit < Synced(s', aa.term, i);
      hide DoAppend, OnAppendEntries, CommitOk;
      NewFromMessage(s, s', i, aa);
    }
  }

  lemma CommitInLog(s: Sys, i: nat)
    requires i < |s.nodes| && CommitOk(s, i)
    ensures s.nodes[i].commit < |s.nodes[i].log|
  {
    hide Settled;
  }

  lemma NewFromMessage(s: Sys, s': Sys, i: nat, aa: AppArgs)
    requires Ahead(s, s') && i < |s'.nodes| && MsgCommitOk(s, aa)
    requires var n' := s'.nodes[i];
      && n'.term == aa.term && n'.commit <= aa.commit && n'.commit < Synced(s', aa.term, i)
      && n'.commit < Full(aa) <= |s.llog[aa.term]| && Full(aa) <= |n'.log|
      && n'.log[..Full(aa)] == s.llog[aa.term][..Full(aa)]
    ensures CommitOk(s', i)
  {
    hide Settled, Ahead;
    var n' := s'.nodes[i];
    var q, p' := s.llog[aa.term][..aa.commit + 1], n'.log[..n'.commit + 1];
    CutAlike(n'.log, s.llog[aa.term], Full(aa), n'.commit, aa.commit);
    SettledPrefix(s, aa.term, q, p');
    SettledLater(s, s', aa.term, aa.term, p');
    CommitFromMessage(s', i, aa.term);
  }

  lemma CutAlike(log: seq<Entry>, leader: seq<Entry>, full: nat, c: nat, d: nat)
    requires c <= d < full <= |leader| && full <= |log| && log[..full] == leader[..full]
    ensures log[..c + 1] <= leader[..d + 1]
  {
    assert log[..c + 1] == log[..full][..c + 1] == leader[..c + 1];
  }

  lemma CommitFromMessage(s: Sys, i: nat, t: nat)
    requires i < |s.nodes| && s.nodes[i].term == t && s.nodes[i].commit < |s.nodes[i].log|
    requires Settled(s, t, s.nodes[i].log[..s.nodes[i].commit + 1]) && s.nodes[i].commit < Synced(s, t, i)
    ensures CommitOk(s, i)
  {
    hide Settled;
  }

  lemma AppendFrame(s: Sys, i: nat, sn: nat, aa: AppArgs)
    requires Shape(s) && i < |s.nodes| && SyncGrows(s, DoAppend(s, i, sn, aa), i)
    ensures var s' := DoAppend(s, i, sn, aa);
      && Ahead(s, s') && NodesStep(s, s', i) && NoMsgs(s, s') && s'.commits == s.commits
      && s'.applied == s.applied && s'.nodes[i].lastApply == s.nodes[i].lastApply
      && (!Accepts(s.nodes[i], aa) ==> s'.nodes[i].log == s.nodes[i].log && s'.nodes[i].commit == s.nodes[i].commit)
      && s'.nodes[i] == OnAppendEntries(s.nodes[i], aa).0
  {
    hide Merged;
  }

  lemma AAppend(s: Sys, i: nat, sn: nat, aa: AppArgs)
    requires InvA(s) && Shape(s) && i < |s.nodes| && AppReq(i, sn, aa) in s.net
    requires Accepts(s.nodes[i], aa) ==> Absorbs(s, i, aa)
    requires SyncGrows(s, DoAppend(s, i, sn, aa), i)
    ensures InvA(DoAppend(s, i, sn, aa))
  {
    var s' := DoAppend(s, i, sn, aa);
    assert CommitOk(s, i) && AppliedOk(s, i) && MsgCommitOk(s, aa);
    hide InvA, Shape, MsgCommitOk, SyncGrows, Settled;
    AppendFrame(s, i, sn, aa);
    AppendCommit(s, i, sn, aa);
    hide DoAppend, OnAppendEntries;
    SameApplied(s, s', i);
    hide Ahead, CommitOk, AppliedOk, Absorbs;
    assert AStep(s, s', i);
    AKept(s, s', i);
  }

  lemma AppendAbsorbs(s: Sys, i: nat, sn: nat, aa: AppArgs)
    requires InvL(s) && InvF(s) && AllComplete(s) && InvA(s) && Handles(s, i, sn, aa)
    requires Accepts(s.nodes[i], aa)
    ensures Absorbs(s, i, aa)
  {
    assert CommitOk(s, i) && SyncOk(s, i) && MsgCommitOk(s, aa);
    assert forall k :: k in s.commits ==> CountOk(s, k);
    hide InvF, InvA, InvL, AllComplete, CommitOk, SyncOk, CountOk;
    MsgIn(s, i, sn, aa);
    hide MsgOk, Absorbs;
    AbsorbMessage(s, i, aa);
  }

  // ---- all steps ----

  ghost predicate Ready(s: Sys) {
    && InvE(s) && InvL(s) && InvF(s) && AllComplete(s) && InvA(s) && Shape(s) && s.llog.Keys == s.elect.Keys
  }

  lemma AMain(s: Sys, act: Action)
    requires Ready(s) && Enabled(s, act) && Spares(s, act)
    requires InvE(Next(s, act)) && InvL(Next(s, act)) && InvF(Next(s, act)) && SyncGrows(s, Next(s, act), act.i)
    requires act.Timeout? || act.RecvVoteReq? || act.RecvVoteRep? || act.RecvAppend? || act.RecvAppendRep?
    ensures InvA(Next(s, act))
  {
    hide InvE, InvL, InvF, InvA, AllComplete, Counts, SyncGrows, Shape, WF, Absorbs, Leads;
    hide DoTimeout, DoRequestVote, DoVoteReply, DoSend, DoAppend, DoAppendRep, DoSolo, DoStart, DoSnap, DoSnapRep,
      DoApply;
    match act
    case Timeout(i) =>
      FreshTerm(s, i, s.nodes[i].term + 1);
      ATimeout(s, i);
    case RecvVoteReq(i, va) => ARequestVote(s, i, va);
    case RecvVoteRep(i, voter, election, vr) =>
      if Crowns(s, i, election, vr) {
        NewTerm(s, i, voter, election, vr);
      }
      AVoteReply(s, i, voter, election, vr);
    case RecvAppend(i, sn, aa) =>
      if Accepts(s.nodes[i], aa) {
        AppendAbsorbs(s, i, sn, aa);
      }
      AAppend(s, i, sn, aa);
    case RecvAppendRep(i, peer, ra, ar) =>
      LeadsAfter(Next(s, act), i);
      AAppendRep(s, i, peer, ra, ar);
  }

  lemma AOther(s: Sys, act: Action)
    requires Ready(s) && Enabled(s, act)
    requires InvE(Next(s, act)) && InvL(Next(s, act)) && InvF(Next(s, act)) && SyncGrows(s, Next(s, act), act.i)
    requires !(act.Timeout? || act.RecvVoteReq? || act.RecvVoteRep? || act.RecvAppend? || act.RecvAppendRep?)
    ensures InvA(Next(s, act))
  {
    hide InvE, InvL, InvF, InvA, AllComplete, SyncGrows, Shape, WF, Leads;
    hide DoTimeout, DoRequestVote, DoVoteReply, DoSend, DoAppend, DoAppendRep, DoSolo, DoStart, DoSnap, DoSnapRep,
      DoApply;
    match act
    case SendAppend(i, j) => ASend(s, i, j);
    case SoloCommit(i) =>
      LeadsAfter(Next(s, act), i);
      ASolo(s, i);
    case ClientStart(i, c) => AStart(s, i, c);
    case RecvSnap(i, leader, term) => ASnap(s, i, leader, term);
    case RecvSnapRep(i, peer, rterm) => ASnapRep(s, i, peer, rterm);
    case ApplyNext(i) => AApply(s, i);
  }

  lemma GetReady(s: Sys)
    requires InvE(s) && InvL(s) && InvF(s) && InvC(s) && InvA(s)
    ensures Ready(s)
  {
    assert s.llog.Keys == s.elect.Keys && Shape(s);
    hide InvE, InvL, InvF, InvC, InvA, AllComplete;
    CompleteAll(s);
  }

  lemma StepA(s: Sys, act: Action)
    requires InvE(s) && InvL(s) && InvF(s) && InvC(s) && InvA(s) && Enabled(s, act) && Spares(s, act)
    requires InvE(Next(s, act)) && InvL(Next(s, act)) && InvF(Next(s, act)) && SyncGrows(s, Next(s, act), act.i)
    ensures InvA(Next(s, act))
  {
    hide *;
    GetReady(s);
    if act.Timeout? || act.RecvVoteReq? || act.RecvVoteRep? || act.RecvAppend? || act.RecvAppendRep? {
      AMain(s, act);
    } else {
      AOther(s, act);
    }
  }
}
