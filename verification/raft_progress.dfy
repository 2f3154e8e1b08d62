/** Enough is enough: a majority elects and commits, and whoever has fallen behind is told. */
module RaftProgress {
  import opened Numbers
  import opened RaftLog
  import opened RaftHandlers
  import opened RaftSystem
  import opened RaftElection
  import opened RaftMatching
  import opened RaftSafety

  // ---- committing ----

  /** As far as the leader knows, the peers of `q` hold its entry at `i`. */
  ghost predicate Hold(n: Node, me: nat, q: set<nat>, i: nat) {
    forall p :: p in q ==> p < |n.matchIndex| && (p == me || n.matchIndex[p] >= i)
  }

  /** It has an entry of its own term at `i`, and knows of a majority that holds it. */
  ghost predicate Backed(n: Node, me: nat, i: nat) {
    && i < |n.log| && n.log[i].term == n.term
    && exists q: set<nat> :: Majority(q, |n.matchIndex|) && Hold(n, me, q, i)
  }

  lemma BackedIff(n: Node, me: nat, i: nat)
    requires me < |n.matchIndex| && i < |n.log|
    ensures Backed(n, me, i) <==> Committable(n, me, i)
  {
    var hs := Holders(n.matchIndex, me, i);
    if Backed(n, me, i) {
      var q :| Majority(q, |n.matchIndex|) && Hold(n, me, q, i);
      SubsetSize(q, hs);
    }
    if Committable(n, me, i) {
      assert Majority(hs, |n.matchIndex|) && Hold(n, me, hs, i);
    }
  }

  /** The commit index moves to the last backed index if there is one beyond it, and otherwise stays. */
  ghost predicate CommitsBacked(n: Node, n': Node, me: nat) {
    && (forall i: nat :: Backed(n', me, i) ==> i <= n'.commit)
    && (n'.commit == n.commit || (n.commit < n'.commit && Backed(n', me, n'.commit)))
  }

  lemma PointIsBacked(n: Node, me: nat)
    requires WF(n, |n.matchIndex|) && me < |n.matchIndex|
    ensures CommitsBacked(n, n.(commit := CommitPoint(n, me, |n.log| - 1)), me)
  {
    var n' := n.(commit := CommitPoint(n, me, |n.log| - 1));
    forall i: nat | Backed(n', me, i)
      ensures i <= n'.commit
    {
      BackedIff(n', me, i);
      assert Committable(n, me, i);
    }
    if n'.commit != n.commit {
      assert Committable(n', me, n'.commit);
      BackedIff(n', me, n'.commit);
    }
  }

  /** An acknowledgement of the leader's term, for any number of nodes. */
  lemma EnoughHoldersCommit(n: Node, me: nat, j: nat, a: AppArgs, r: AppReply)
    requires WF(n, |n.matchIndex|) && j < |n.matchIndex| && me < |n.matchIndex|
    requires n.role == Leader && a.term == n.term && r.term <= n.term && r.success
    ensures var n' := OnAppendReply(n, me, j, a, r);
      && CommitsBacked(n, n', me) && n'.role == Leader && n'.term == n.term && n'.log == n.log
      && n'.matchIndex == (if a.entries == [] then n.matchIndex else n.matchIndex[j := Full(a) - 1])
      && n'.nextIndex == n.nextIndex[j := Full(a)]
  {
    var m := n.(nextIndex := n.nextIndex[j := Full(a)],
                matchIndex := if a.entries == [] then n.matchIndex else n.matchIndex[j := Full(a) - 1]);
    PointIsBacked(m, me);
    hide Backed, CommitPoint;
  }

  /** The same for the one-node cluster, which asks nobody. */
  lemma AloneCommitsAll(n: Node)
    requires WF(n, 1)
    ensures var n' := OnSoloCommit(n, 0);
      CommitsBacked(n, n', 0) && |n'.matchIndex| == 1 && n'.(commit := n.commit, matchIndex := n.matchIndex) == n
      && forall i :: 0 <= i < |n.log| && n.log[i].term == n.term ==> i <= n'.commit
  {
    var n' := OnSoloCommit(n, 0);
    PointIsBacked(n.(matchIndex := n.matchIndex[0 := |n.log| - 1]), 0);
    hide CommitPoint, Backed;
    forall i: nat | i < |n.log| && n.log[i].term == n.term
      ensures i <= n'.commit
    {
      OneBacks(n', i);
    }
  }

  lemma OneBacks(n: Node, i: nat)
    requires |n.matchIndex| == 1 && i < |n.log| && n.log[i].term == n.term
    ensures Backed(n, 0, i)
  {
    assert Majority({0}, 1) && Hold(n, 0, {0}, i);
  }

  // ---- committing, over runs ----

  /** In a cluster of two or more no leader owes a commit, and it never takes a peer to hold more than it sent. */
  ghost predicate CaughtUp(n: Node, me: nat) {
    n.role == Leader && |n.matchIndex| > 1 ==>
      && (forall i: nat :: Backed(n, me, i) ==> i <= n.commit)
      && (forall j :: 0 <= j < |n.matchIndex| && j != me ==> n.matchIndex[j] < |n.log|)
  }

  ghost predicate InvM(s: Sys) {
    forall i :: 0 <= i < |s.nodes| ==> CaughtUp(s.nodes[i], i)
  }

  /** Somebody else must hold what is backed in a cluster of two or more. */
  lemma AnotherHolds(n: Node, me: nat, i: nat) returns (p: nat)
    requires Backed(n, me, i) && |n.matchIndex| > 1
    ensures p < |n.matchIndex| && p != me && n.matchIndex[p] >= i
  {
    var q :| Majority(q, |n.matchIndex|) && Hold(n, me, q, i);
    if q <= {me} {
      SubsetSize(q, {me});
    }
    p :| p in q && p != me;
  }

  lemma NewLeaderCaughtUp(n: Node, me: nat)
    requires WF(n, |n.matchIndex|) && forall j :: 0 <= j < |n.matchIndex| ==> n.matchIndex[j] == 0
    ensures CaughtUp(n, me)
  {
    hide Backed;
    forall i: nat | Backed(n, me, i) && |n.matchIndex| > 1
      ensures i <= n.commit
    {
      var _ := AnotherHolds(n, me, i);
    }
  }

  /** Knowing of fewer holders, a leader owes no more. */
  lemma StillCaughtUp(n: Node, n': Node, me: nat)
    requires CaughtUp(n, me) && |n'.matchIndex| == |n.matchIndex| && |n.log| >= 1
    requires n'.role == Leader ==> n.role == Leader && n'.term == n.term && n'.log == n.log && n'.commit >= n.commit
    requires forall j :: 0 <= j < |n.matchIndex| ==> n'.matchIndex[j] == n.matchIndex[j] || n'.matchIndex[j] == 0
    ensures CaughtUp(n', me)
  {
    if n'.role == Leader && |n.matchIndex| > 1 {
      forall i: nat | Backed(n', me, i)
        ensures i <= n'.commit
      {
        var q :| Majority(q, |n.matchIndex|) && Hold(n', me, q, i);
        if i > 0 {
          assert Hold(n, me, q, i);
          assert Backed(n, me, i);
        }
      }
    }
  }

  lemma StartCaughtUp(n: Node, me: nat, c: Cmd)
    requires CaughtUp(n, me) && n.role == Leader && |n.log| >= 1
    ensures CaughtUp(OnStart(n, me, c), me)
  {
    var n' := OnStart(n, me, c);
    if |n.matchIndex| > 1 {
      forall i: nat | Backed(n', me, i)
        ensures i <= n'.commit
      {
        var p := AnotherHolds(n', me, i);
        var q :| Majority(q, |n.matchIndex|) && Hold(n', me, q, i);
        assert Hold(n, me, q, i);
        assert Backed(n, me, i);
      }
    }
  }

  lemma ReplyCaughtUp(n: Node, me: nat, j: nat, a: AppArgs, r: AppReply)
    requires CaughtUp(n, me) && WF(n, |n.matchIndex|) && j < |n.matchIndex| && me < |n.matchIndex|
    requires n.role == Leader && a.term == n.term ==> Full(a) <= |n.log|
    ensures CaughtUp(OnAppendReply(n, me, j, a, r), me)
  {
    var n' := OnAppendReply(n, me, j, a, r);
    if n.role == Leader && a.term == n.term && r.term <= n.term && r.success {
      EnoughHoldersCommit(n, me, j, a, r);
    } else {
      StillCaughtUp(n, n', me);
    }
  }

  /** The acting node after a step. */
  function Acted(s: Sys, act: Action): Node
    requires act.i < |s.nodes| && s.nodes[act.i].log != []
    requires act.RecvAppendRep? || act.RecvSnapRep? ==>
      act.peer < |s.nodes[act.i].nextIndex| && act.peer < |s.nodes[act.i].matchIndex|
    requires act.SoloCommit? ==> act.i < |s.nodes[act.i].matchIndex|
  {
    var n := s.nodes[act.i];
    match act
    case Timeout(i) => OnTimeout(n, i, |s.nodes|)
    case RecvVoteReq(i, va) => OnRequestVote(n, va).0
    case RecvVoteRep(i, voter, election, vr) => OnVoteReply(n, |s.nodes|, election, vr)
    case SendAppend(i, j) => n
    case RecvAppend(i, sn, aa) => OnAppendEntries(n, aa).0
    case RecvAppendRep(i, peer, ra, ar) => OnAppendReply(n, i, peer, ra, ar)
    case SoloCommit(i) => OnSoloCommit(n, i)
    case ClientStart(i, c) => OnStart(n, i, c)
    case RecvSnap(i, leader, term) => OnInstallSnapshot(n, term).0
    case RecvSnapRep(i, peer, rterm) => OnSnapshotReply(n, peer, rterm)
    case ApplyNext(i) => OnApply(n).0
  }

  lemma NextNodes(s: Sys, act: Action)
    requires Shape(s) && Enabled(s, act)
    ensures Next(s, act).nodes == s.nodes[act.i := Acted(s, act)]
  {
    hide OnTimeout, OnRequestVote, OnVoteReply, OnAppendEntries, OnAppendReply, OnSoloCommit, OnInstallSnapshot,
      OnSnapshotReply, OnApply, Sending;
    if act.SendAppend? || (act.ClientStart? && s.nodes[act.i].role != Leader) {
      assert s.nodes[act.i := s.nodes[act.i]] == s.nodes;
    }
  }

  lemma ElectedCaughtUp(s: Sys, act: Action)
    requires Shape(s) && Enabled(s, act) && CaughtUp(s.nodes[act.i], act.i)
    requires act.Timeout? || act.RecvVoteRep?
    ensures CaughtUp(Acted(s, act), act.i)
  {
    var n, n' := s.nodes[act.i], Acted(s, act);
    assert WF(n, |s.nodes|);
    hide CaughtUp, WF, Shape;
    if n'.role == Leader && n' != n {
      assert n'.log == n.log && n'.matchIndex == seq(|n.matchIndex|, _ => 0);
      NewLeaderCaughtUp(n', act.i);
    } else {
      StillCaughtUp(n, n', act.i);
    }
  }

  lemma OthersCaughtUp(s: Sys, act: Action)
    requires Shape(s) && Enabled(s, act) && CaughtUp(s.nodes[act.i], act.i)
    requires !act.Timeout? && !act.RecvVoteRep? && !act.RecvAppendRep? && !act.ClientStart? && !act.SoloCommit?
    ensures CaughtUp(Acted(s, act), act.i)
  {
    var n, n' := s.nodes[act.i], Acted(s, act);
    assert WF(n, |s.nodes|);
    hide CaughtUp, WF, Shape, Merged, RunStart;
    StillCaughtUp(n, n', act.i);
  }

  lemma SentFits(s: Sys, i: nat, peer: nat, ra: AppArgs, ar: AppReply)
    requires InvL(s) && i < |s.nodes| && AppRep(peer, ra, ar) in s.net
    ensures s.nodes[i].role == Leader && ra.term == s.nodes[i].term ==> Full(ra) <= |s.nodes[i].log|
  {
    assert LogOk(s, i) && PacketOk(s, AppRep(peer, ra, ar));
  }

  lemma LeaderCaughtUp(s: Sys, act: Action)
    requires Shape(s) && InvL(s) && Enabled(s, act) && CaughtUp(s.nodes[act.i], act.i)
    requires act.RecvAppendRep? || act.ClientStart? || act.SoloCommit?
    ensures CaughtUp(Acted(s, act), act.i)
  {
    var n := s.nodes[act.i];
    assert WF(n, |s.nodes|);
    hide CaughtUp, WF, Shape, InvL, OnAppendReply;
    if act.RecvAppendRep? {
      SentFits(s, act.i, act.peer, act.ra, act.ar);
      ReplyCaughtUp(n, act.i, act.peer, act.ra, act.ar);
    } else if act.ClientStart? && n.role == Leader {
      StartCaughtUp(n, act.i, act.c);
    } else if act.SoloCommit? {
      AloneCaughtUp(Acted(s, act), act.i);
    }
  }

  lemma AloneCaughtUp(n: Node, me: nat)
    requires |n.matchIndex| == 1
    ensures CaughtUp(n, me)
  {
  }

  lemma StepM(s: Sys, act: Action)
    requires Shape(s) && InvL(s) && InvM(s) && Enabled(s, act)
    ensures InvM(Next(s, act))
  {
    NextNodes(s, act);
    assert CaughtUp(s.nodes[act.i], act.i);
    hide InvL, CaughtUp, Acted, Next, Enabled, Shape;
    if act.Timeout? || act.RecvVoteRep? {
      ElectedCaughtUp(s, act);
    } else if act.RecvAppendRep? || act.ClientStart? || act.SoloCommit? {
      LeaderCaughtUp(s, act);
    } else {
      OthersCaughtUp(s, act);
    }
  }

  lemma {:induction false} CaughtUpRun(ss: seq<Sys>, acts: seq<Action>, k: nat)
    requires IsRun(ss, acts) && k < |ss|
    ensures InvM(ss[k])
  {
    hide InvL, InvE, Enabled, Next, CaughtUp;
    if k == 0 {
      NobodyLeads(|ss[0].nodes|);
    } else {
      CaughtUpRun(ss, acts, k - 1);
      AnyOrder(ss, acts, k - 1);
      assert ss[(k - 1) + 1] == Next(ss[k - 1], acts[k - 1]);
      StepM(ss[k - 1], acts[k - 1]);
    }
  }

  lemma NobodyLeads(size: nat)
    ensures InvM(Init(size))
  {
  }

  /** In every run, in any delivery order, of two or more nodes, a leader has committed every entry of its own term
    * that a majority has acknowledged to it. */
  lemma CommitKeepsUp(ss: seq<Sys>, acts: seq<Action>, k: nat, i: nat, n: nat, q: set<nat>)
    requires IsRun(ss, acts) && k < |ss| && |ss[k].nodes| > 1 && i < |ss[k].nodes| && ss[k].nodes[i].role == Leader
    requires n < |ss[k].nodes[i].log| && ss[k].nodes[i].log[n].term == ss[k].nodes[i].term
    requires Majority(q, |ss[k].nodes|)
    requires forall p :: p in q && p != i ==> p < |ss[k].nodes[i].matchIndex| && ss[k].nodes[i].matchIndex[p] >= n
    ensures n <= ss[k].nodes[i].commit
  {
    hide IsRun, InvL;
    AnyOrder(ss, acts, k);
    CaughtUpRun(ss, acts, k);
    var l := ss[k].nodes[i];
    assert WF(l, |ss[k].nodes|) && CaughtUp(l, i);
    hide InvE, InvM, WF;
    assert Hold(l, i, q, n);
    assert Backed(l, i, n);
  }

  // ---- electing ----

  /** Who has half of the votes or fewer goes on standing. */
  ghost predicate Short(n: Node, size: nat) {
    n.role == Candidate ==> 2 * n.votes <= size
  }

  ghost predicate InvV(s: Sys) {
    forall i :: 0 <= i < |s.nodes| ==> Short(s.nodes[i], |s.nodes|)
  }

  lemma StepV(s: Sys, act: Action)
    requires Shape(s) && InvV(s) && Enabled(s, act)
    ensures InvV(Next(s, act))
  {
    NextNodes(s, act);
    assert Short(s.nodes[act.i], |s.nodes|) && WF(s.nodes[act.i], |s.nodes|);
    hide Shape, InvV, Next, Merged, RunStart, WF, Enabled;
    assert Short(Acted(s, act), |s.nodes|);
    hide Acted, Short;
    Replaced(s, Next(s, act), act.i);
  }

  lemma Replaced(s: Sys, s': Sys, i: nat)
    requires InvV(s) && i < |s.nodes| && |s'.nodes| == |s.nodes| && Short(s'.nodes[i], |s.nodes|)
    requires s'.nodes == s.nodes[i := s'.nodes[i]]
    ensures InvV(s')
  {
  }

  lemma {:induction false} ShortRun(ss: seq<Sys>, acts: seq<Action>, k: nat)
    requires IsRun(ss, acts) && k < |ss|
    ensures InvV(ss[k])
  {
    hide Enabled, Next, Short;
    if k == 0 {
      NobodyStands(|ss[0].nodes|);
    } else {
      ShortRun(ss, acts, k - 1);
      assert ss[(k - 1) + 1] == Next(ss[k - 1], acts[k - 1]);
      StepV(ss[k - 1], acts[k - 1]);
    }
  }

  lemma NobodyStands(size: nat)
    ensures InvV(Init(size))
  {
  }

  /** In every run a candidate becomes leader with the vote that gives it a majority, and not before. */
  lemma EnoughVotesElect(ss: seq<Sys>, acts: seq<Action>, k: nat, i: nat, voter: nat, t: nat, vr: VoteReply)
    requires IsRun(ss, acts) && k < |acts| && acts[k] == RecvVoteRep(i, voter, t, vr) && i < |ss[k].nodes|
    requires ss[k].nodes[i].role == Candidate && ss[k].nodes[i].term == t && vr.term <= t && vr.granted
    ensures |ss[k + 1].nodes| == |ss[k].nodes| == |ss[k].tally|
    ensures voter !in ss[k].tally[i] && !Majority(ss[k].tally[i], |ss[k].nodes|)
    ensures var n, n' := ss[k].nodes[i], ss[k + 1].nodes[i];
      && n'.term == t && n'.log == n.log
      && (n'.role == Leader <==> Majority(ss[k].tally[i] + {voter}, |ss[k].nodes|))
      && (n'.role == Leader ==> n'.nextIndex == seq(|ss[k].nodes|, _ => |n.log|)
                                && n'.matchIndex == seq(|ss[k].nodes|, _ => 0))
      && (n'.role != Leader ==> n'.role == Candidate)
  {
    RunStep(ss, acts, k);
    hide *;
    AnyOrder(ss, acts, k);
    ShortRun(ss, acts, k);
    VoteStep(ss[k], i, voter, t, vr);
  }

  lemma VoteStep(s: Sys, i: nat, voter: nat, t: nat, vr: VoteReply)
    requires Shape(s) && InvE(s) && InvV(s) && i < |s.nodes| && Enabled(s, RecvVoteRep(i, voter, t, vr))
    requires s.nodes[i].role == Candidate && s.nodes[i].term == t && vr.term <= t && vr.granted
    ensures |s.tally| == |s.nodes| == |Next(s, RecvVoteRep(i, voter, t, vr)).nodes|
    ensures voter !in s.tally[i] && !Majority(s.tally[i], |s.nodes|)
    ensures var n, n' := s.nodes[i], Next(s, RecvVoteRep(i, voter, t, vr)).nodes[i];
      && n'.term == t && n'.log == n.log
      && (n'.role == Leader <==> Majority(s.tally[i] + {voter}, |s.nodes|))
      && (n'.role == Leader ==> n'.nextIndex == seq(|s.nodes|, _ => |n.log|)
                                && n'.matchIndex == seq(|s.nodes|, _ => 0))
      && (n'.role != Leader ==> n'.role == Candidate)
  {
    NextNodes(s, RecvVoteRep(i, voter, t, vr));
    TallyCounts(s, i, voter, t, vr);
    assert Short(s.nodes[i], |s.nodes|) && WF(s.nodes[i], |s.nodes|);
    hide *;
    CountedVote(s.nodes[i], |s.nodes|, t, vr);
    BigEnough(s.tally[i], voter, s.nodes[i].votes, |s.nodes|);
    assert Acted(s, RecvVoteRep(i, voter, t, vr)) == OnVoteReply(s.nodes[i], |s.nodes|, t, vr) by {
      ActedOnVote(s, i, voter, t, vr);
    }
  }

  lemma ActedOnVote(s: Sys, i: nat, voter: nat, t: nat, vr: VoteReply)
    requires i < |s.nodes| && s.nodes[i].log != []
    ensures Acted(s, RecvVoteRep(i, voter, t, vr)) == OnVoteReply(s.nodes[i], |s.nodes|, t, vr)
  {
  }

  lemma BigEnough(tally: set<nat>, voter: nat, votes: nat, size: nat)
    requires voter !in tally && |tally| == votes && voter < size && forall v :: v in tally ==> v < size
    ensures Majority(tally, size) <==> 2 * votes > size
    ensures Majority(tally + {voter}, size) <==> 2 * (votes + 1) > size
  {
  }

  lemma CountedVote(n: Node, size: nat, t: nat, vr: VoteReply)
    requires WF(n, size) && Short(n, size) && n.role == Candidate && n.term == t && vr.term <= t && vr.granted
    ensures 2 * n.votes <= size
    ensures var n' := OnVoteReply(n, size, t, vr);
      && n'.term == t && n'.log == n.log
      && (n'.role == Leader <==> 2 * (n.votes + 1) > size)
      && (n'.role == Leader ==> n'.nextIndex == seq(size, _ => |n.log|) && n'.matchIndex == seq(size, _ => 0))
      && (n'.role != Leader ==> n'.role == Candidate)
  {
  }

  lemma RunStep(ss: seq<Sys>, acts: seq<Action>, k: nat)
    requires IsRun(ss, acts) && k < |acts|
    ensures |ss| == |acts| + 1 && Shape(ss[k]) && Enabled(ss[k], acts[k]) && ss[k + 1] == Next(ss[k], acts[k])
  {
  }

  lemma TallyCounts(s: Sys, i: nat, voter: nat, t: nat, vr: VoteReply)
    requires InvE(s) && i < |s.nodes| && Enabled(s, RecvVoteRep(i, voter, t, vr))
    requires s.nodes[i].role == Candidate && s.nodes[i].term == t
    ensures |s.tally| == |s.nodes| && voter !in s.tally[i] && |s.tally[i]| == s.nodes[i].votes
    ensures voter < |s.nodes| && forall v :: v in s.tally[i] ==> v < |s.nodes|
  {
  }

  // ---- voting ----

  /** One log is as new as the other: a later last term, or the same one and no fewer entries. */
  ghost predicate AsNew(a: seq<Entry>, b: seq<Entry>)
    requires a != [] && b != []
  {
    a[|a| - 1].term > b[|b| - 1].term || (a[|a| - 1].term == b[|b| - 1].term && |a| >= |b|)
  }

  /** The request of a candidate with this log. */
  ghost predicate Asks(a: VoteArgs, log: seq<Entry>) {
    log != [] && a.lastIndex == |log| - 1 && a.lastTerm == log[|log| - 1].term
  }

  /** A vote is given exactly to a request that is not from the past, finds the vote free or given to the same
    * candidate, and comes with a log as new as the own; the reply tells the newer of the two terms. */
  lemma GrantedIff(n: Node, a: VoteArgs, log: seq<Entry>)
    requires n.log != [] && Asks(a, log)
    ensures var (n', r) := OnRequestVote(n, a);
      && (r.granted <==> (a.term > n.term || (a.term == n.term && (n.vote == -1 || n.vote == a.cand)))
                         && AsNew(log, n.log))
      && r.term == n'.term == Max(n.term, a.term)
      && n' == n.(term := n'.term, vote := n'.vote, role := n'.role)
      && n'.role == (if a.term > n.term then Follower else n.role)
      && n'.vote == (if r.granted then a.cand else if a.term > n.term then -1 else n.vote)
  {
  }

  /** Of two logs one is as new as the other, and "as new" carries over: so some log is as new as all. */
  lemma NewerOrder(a: seq<Entry>, b: seq<Entry>, c: seq<Entry>)
    requires a != [] && b != [] && c != []
    ensures AsNew(a, b) || AsNew(b, a)
    ensures AsNew(a, b) && AsNew(b, c) ==> AsNew(a, c)
  {
  }

  // ---- those who have fallen behind ----

  /** A leader whose message meets a newer term follows in it once the reply arrives, as long as it knows of no
    * newer one. */
  lemma StaleLeaderStepsDown(l: Node, n: Node, me: nat, j: nat, a: AppArgs)
    requires n.log != [] && l.log != [] && j < |l.nextIndex| && j < |l.matchIndex|
    requires a.term < n.term && l.term < n.term
    ensures var (n', r) := OnAppendEntries(n, a);
      n' == n && OnAppendReply(l, me, j, a, r) == l.(term := n.term, role := Follower, vote := -1)
  {
  }

  /** So does a candidate of an older term. */
  lemma StaleCandidateStepsDown(c: Node, n: Node, size: nat, a: VoteArgs)
    requires n.log != [] && c.role == Candidate && c.term == a.term < n.term
    ensures var (n', r) := OnRequestVote(n, a);
      n' == n && OnVoteReply(c, size, a.term, r) == c.(term := n.term, role := Follower, vote := -1)
  {
  }

  /** And a leader that asks for a snapshot to be installed. */
  lemma StaleSnapshotStepsDown(l: Node, n: Node, j: nat, t: nat)
    requires j < |l.nextIndex| && j < |l.matchIndex| && t < n.term && l.term < n.term
    ensures var (n', r) := OnInstallSnapshot(n, t);
      n' == n && OnSnapshotReply(l, j, r) == l.(term := n.term, role := Follower)
  {
  }

  /** In every run, who handles an AppendEntries that is not from the past follows its sender in the sender's term, and
    * names it as leader; nobody else leads in that term at any time. */
  lemma FollowsSender(ss: seq<Sys>, acts: seq<Action>, k: nat, i: nat, sn: nat, aa: AppArgs, j: nat, b: nat)
    requires IsRun(ss, acts) && k < |acts| && acts[k] == RecvAppend(i, sn, aa) && i < |ss[k].nodes|
    requires aa.term >= ss[k].nodes[i].term
    ensures i < |ss[k + 1].nodes| && aa.leader != i
    ensures var n, n' := ss[k].nodes[i], ss[k + 1].nodes[i];
      && n'.role == Follower && n'.term == aa.term && n'.nowLeader == aa.leader
      && n'.vote == (if aa.term > n.term then -1 else n.vote)
    ensures j < |ss| && b < |ss[j].nodes| && ss[j].nodes[b].role == Leader && ss[j].nodes[b].term == aa.term ==>
      b == aa.leader
  {
    hide IsRun, InvL, Next, Enabled, Shape, InvE, Acted;
    RunStep(ss, acts, k);
    AnyOrder(ss, acts, k);
    NextNodes(ss[k], acts[k]);
    Handled(ss[k], i, sn, aa);
    SentByLeader(ss[k], i, sn, aa);
    if j < |ss| && b < |ss[j].nodes| && ss[j].nodes[b].role == Leader && ss[j].nodes[b].term == aa.term {
      LeaderElected(ss, acts, j, b);
      if j <= k {
        LaterRun(ss, acts, j, k);
      } else {
        LaterRun(ss, acts, k, j);
      }
    }
  }

  lemma SentByLeader(s: Sys, i: nat, sn: nat, aa: AppArgs)
    requires InvE(s) && Enabled(s, RecvAppend(i, sn, aa))
    ensures aa.term in s.elect && s.elect[aa.term].leader == aa.leader != i
  {
  }

  lemma LeaderElected(ss: seq<Sys>, acts: seq<Action>, j: nat, b: nat)
    requires IsRun(ss, acts) && j < |ss| && b < |ss[j].nodes| && ss[j].nodes[b].role == Leader
    ensures ss[j].nodes[b].term in ss[j].elect && ss[j].elect[ss[j].nodes[b].term].leader == b
  {
    hide IsRun, InvL;
    AnyOrder(ss, acts, j);
  }

  lemma Handled(s: Sys, i: nat, sn: nat, aa: AppArgs)
    requires Shape(s) && i < |s.nodes| && aa.term >= s.nodes[i].term
    ensures s.nodes[i].log != []
    ensures var n, n' := s.nodes[i], Acted(s, RecvAppend(i, sn, aa));
      && n'.role == Follower && n'.term == aa.term && n'.nowLeader == aa.leader
      && n'.vote == (if aa.term > n.term then -1 else n.vote)
  {
    assert WF(s.nodes[i], |s.nodes|);
    hide Merged, RunStart;
  }
}
