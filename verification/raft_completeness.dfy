/** Leader completeness: what a majority has confirmed is in the log of every later winner. */
module RaftCompleteness {
  import opened RaftLog
  import opened RaftHandlers
  import opened RaftSystem
  import opened RaftElection
  import opened RaftMatching
  import opened RaftSync

  /** An entry that the leader of term `t` added itself. */
  ghost predicate Point(s: Sys, t: nat, n: nat) {
    t in s.elect && t in s.llog && n < |s.llog[t]| && s.llog[t][n].term == t
  }

  ghost function Pre(s: Sys, t: nat, n: nat): seq<Entry>
    requires t in s.llog && n < |s.llog[t]|
  {
    s.llog[t][..n + 1]
  }

  /** The nodes that confirmed index `n` in term `t` or still may. */
  ghost function Able(s: Sys, t: nat, n: nat): set<nat> {
    set w: nat | w < |s.nodes| && (Synced(s, t, w) > n || s.nodes[w].term <= t)
  }

  /** Not yet ruled out as committed in term `t`; what is committed is a special case. */
  ghost predicate Open(s: Sys, t: nat, n: nat) {
    Point(s, t, n) && Majority(Able(s, t, n), |s.nodes|)
  }

  /** Whoever confirmed an open entry still has it. */
  ghost predicate Holds(s: Sys, v: nat)
    requires v < |s.nodes|
  {
    forall t: nat, n: nat :: Open(s, t, n) && Synced(s, t, v) > n ==> Pre(s, t, n) <= s.nodes[v].log
  }

  /** A vote goes to candidates that have every open entry of earlier terms which the voter confirmed. */
  ghost predicate VoteGood(s: Sys, k: (nat, nat))
    requires k in s.votes
  {
    (s.votes[k], k.1) in s.candLog
    && forall t: nat, n: nat :: Open(s, t, n) && t < k.1 && Synced(s, t, k.0) > n ==>
         Pre(s, t, n) <= s.candLog[(s.votes[k], k.1)]
  }

  ghost predicate InvC(s: Sys) {
    && (forall v :: 0 <= v < |s.nodes| ==> Holds(s, v))
    && (forall k :: k in s.votes ==> VoteGood(s, k))
  }

  lemma InitC(size: nat)
    ensures InvC(Init(size))
  {
  }

  /** Leader completeness, for entries that are merely open. */
  lemma Complete(s: Sys, t: nat, n: nat, u: nat)
    requires InvE(s) && InvL(s) && InvC(s)
    requires Open(s, t, n) && u in s.elect && t < u
    ensures Pre(s, t, n) <= s.elect[u].log
  {
    var e := s.elect[u];
    assert WonOk(s, u) && LeaderLogOk(s, u);
    hide Traced, LogOk, CandOk, PacketOk, RepliesOk, SendersOk, WaitingOk, TallyOk;
    var w := Quorum(Able(s, t, n), e.voters, |s.nodes|);
    assert (w, u) in s.votes && VoteGood(s, (w, u));
    assert s.nodes[w].term >= u;
  }

  ghost predicate AllComplete(s: Sys) {
    forall t: nat, n: nat, u: nat :: Open(s, t, n) && u in s.elect && t < u ==> Pre(s, t, n) <= s.elect[u].log
  }

  lemma CompleteAll(s: Sys)
    requires InvE(s) && InvL(s) && InvC(s)
    ensures AllComplete(s)
  {
    hide InvE, InvL, InvC, Able, Majority;
    forall t: nat, n: nat, u: nat | Open(s, t, n) && u in s.elect && t < u
      ensures Pre(s, t, n) <= s.elect[u].log
    {
      Complete(s, t, n, u);
    }
  }

  /** ... hence in the log of that leader at any time. */
  lemma CompleteNow(s: Sys, t: nat, n: nat, u: nat)
    requires InvL(s) && AllComplete(s)
    requires Open(s, t, n) && u in s.elect && t <= u
    ensures u in s.llog && Pre(s, t, n) <= s.llog[u]
  {
    assert u in s.llog && LeaderLogOk(s, u);
  }

  lemma LastTermBound(s: Sys, log: seq<Entry>, n: nat)
    requires InvL(s) && Traced(s.llog, log) && n < |log|
    ensures log[n].term <= LastTerm(log)
  {
    var last := |log| - 1;
    if last > 0 {
      assert TracedAt(s.llog, log, last);
      assert LeaderLogOk(s, log[last].term);
      assert log[n] == s.llog[log[last].term][n];
    }
  }

  lemma SameLastTerm(ll: Logs, log: seq<Entry>, c: seq<Entry>)
    requires Traced(ll, log) && Traced(ll, c)
    requires LastTerm(c) == LastTerm(log) && |c| >= |log| > 1
    ensures log <= c
  {
    assert TracedAt(ll, log, |log| - 1) && TracedAt(ll, c, |c| - 1);
  }

  /** A log that ends in term `x` goes beyond what the winner of `x` started with. */
  lemma BeyondElection(s: Sys, c: seq<Entry>)
    requires InvL(s) && Traced(s.llog, c) && |c| > 1
    ensures LastTerm(c) in s.elect && s.elect[LastTerm(c)].log <= c
  {
    var x := LastTerm(c);
    assert TracedAt(s.llog, c, |c| - 1);
    assert LeaderLogOk(s, x);
    hide InvL, Traced, TracedAt;
    assert |s.elect[x].log| <= |c| - 1;
  }

  /** The comparison of last entries is what makes a vote safe. */
  lemma UpToDateHas(s: Sys, t: nat, n: nat, log: seq<Entry>, c: seq<Entry>, a: VoteArgs)
    requires InvL(s) && AllComplete(s) && Open(s, t, n) && t >= 1
    requires Traced(s.llog, log) && Traced(s.llog, c) && Pre(s, t, n) <= log
    requires LastTerm(c) == a.lastTerm && LastIndex(c) == a.lastIndex && UpToDate(log, a)
    ensures Pre(s, t, n) <= c
  {
    assert log[n].term == t && c[0].term == 0 && log[0].term == 0;
    hide InvL, Traced;
    LastTermBound(s, log, n);
    if LastTerm(c) == LastTerm(log) {
      SameLastTerm(s.llog, log, c);
    } else {
      BeyondElection(s, c);
    }
  }

  // ---- the steps ----

  /** A point of `s'` is one of `s`, with the same entries below it, unless node `i` has just added it. */
  ghost predicate PointBack(s: Sys, s': Sys, i: nat)
    requires i < |s'.nodes|
  {
    forall t: nat, n: nat :: Point(s', t, n) ==>
      || (Point(s, t, n) && Pre(s', t, n) == Pre(s, t, n))
      || (t == s'.nodes[i].term && s'.nodes[i].role == Leader
          && forall v :: 0 <= v < |s.nodes| && v != i ==> Synced(s', t, v) <= n)
  }

  ghost predicate NodesStep(s: Sys, s': Sys, i: nat) {
    && |s'.nodes| == |s.nodes| && i < |s.nodes|
    && (forall j :: 0 <= j < |s.nodes| && j != i ==> s'.nodes[j] == s.nodes[j])
    && s.nodes[i].term <= s'.nodes[i].term
  }

  /** The log of node `i` keeps the open entries of earlier terms. */
  ghost predicate Carries(s: Sys, s': Sys, i: nat)
    requires i < |s.nodes| && i < |s'.nodes|
  {
    forall t: nat, n: nat :: Open(s, t, n) && t < s'.nodes[i].term && Pre(s, t, n) <= s.nodes[i].log
      ==> Pre(s, t, n) <= s'.nodes[i].log
  }

  lemma AbleShrinks(s: Sys, s': Sys, i: nat, t: nat, n: nat)
    requires NodesStep(s, s', i) && SyncGrows(s, s', i)
    ensures Able(s', t, n) <= Able(s, t, n)
    ensures Majority(Able(s', t, n), |s.nodes|) ==> Majority(Able(s, t, n), |s.nodes|)
  {
    SubsetSize(Able(s', t, n), Able(s, t, n));
  }

  /** An open point of a term that node `i` is not adding to was open before. */
  lemma OpenBack(s: Sys, s': Sys, i: nat, t: nat, n: nat)
    requires NodesStep(s, s', i) && SyncGrows(s, s', i) && PointBack(s, s', i)
    requires Open(s', t, n) && t != s'.nodes[i].term
    ensures Open(s, t, n) && Pre(s', t, n) == Pre(s, t, n)
  {
    AbleShrinks(s, s', i, t, n);
  }

  lemma OpenBackOther(s: Sys, s': Sys, i: nat, t: nat, n: nat, v: nat)
    requires NodesStep(s, s', i) && SyncGrows(s, s', i) && PointBack(s, s', i)
    requires Open(s', t, n) && v < |s.nodes| && v != i && Synced(s', t, v) > n
    ensures Open(s, t, n) && Pre(s', t, n) == Pre(s, t, n) && Synced(s, t, v) > n
  {
    AbleShrinks(s, s', i, t, n);
  }

  lemma HoldsKept(s: Sys, s': Sys, i: nat, v: nat)
    requires NodesStep(s, s', i) && SyncGrows(s, s', i) && PointBack(s, s', i) && Carries(s, s', i)
    requires v < |s.nodes| && Holds(s, v) && SyncOk(s', v)
    requires forall k :: k in s'.synced ==> SyncKeyOk(s', k)
    ensures Holds(s', v)
  {
    forall t: nat, n: nat | Open(s', t, n) && Synced(s', t, v) > n
      ensures Pre(s', t, n) <= s'.nodes[v].log
    {
      assert SyncKeyOk(s', (t, v));
      if t < s'.nodes[v].term {
        HoldsEarlier(s, s', i, v, t, n);
      }
    }
  }

  lemma HoldsEarlier(s: Sys, s': Sys, i: nat, v: nat, t: nat, n: nat)
    requires NodesStep(s, s', i) && SyncGrows(s, s', i) && PointBack(s, s', i) && Carries(s, s', i)
    requires v < |s.nodes| && Holds(s, v)
    requires Open(s', t, n) && Synced(s', t, v) > n && t < s'.nodes[v].term
    ensures Pre(s', t, n) <= s'.nodes[v].log
  {
    if v == i {
      OpenBack(s, s', i, t, n);
    } else {
      OpenBackOther(s, s', i, t, n, v);
    }
  }

  /** Votes and candidates' logs are only added to. */
  ghost predicate VotesGrow(s: Sys, s': Sys) {
    && (forall k :: k in s.votes ==> k in s'.votes && s'.votes[k] == s.votes[k])
    && (forall k :: k in s.candLog ==> k in s'.candLog && s'.candLog[k] == s.candLog[k])
  }

  lemma VoteKept(s: Sys, s': Sys, i: nat, k: (nat, nat))
    requires NodesStep(s, s', i) && SyncGrows(s, s', i) && PointBack(s, s', i) && VotesGrow(s, s')
    requires k in s.votes && VoteGood(s, k) && k.0 < |s.nodes| && k.1 <= s.nodes[k.0].term
    ensures VoteGood(s', k)
  {
    forall t: nat, n: nat | Open(s', t, n) && t < k.1 && Synced(s', t, k.0) > n
      ensures Pre(s', t, n) <= s'.candLog[(s'.votes[k], k.1)]
    {
      if k.0 == i {
        OpenBack(s, s', i, t, n);
      } else {
        OpenBackOther(s, s', i, t, n, k.0);
      }
    }
  }

  lemma CKept(s: Sys, s': Sys, i: nat)
    requires InvC(s) && VotesOk(s)
    requires NodesStep(s, s', i) && SyncGrows(s, s', i) && PointBack(s, s', i) && Carries(s, s', i)
    requires VotesGrow(s, s')
    requires forall k :: k in s'.votes && k !in s.votes ==> VoteGood(s', k)
    requires InvF(s')
    ensures InvC(s')
  {
    hide Holds, VoteGood, SyncGrows, PointBack, Carries, PacketF, MatchOk, LeaderSync;
    assert forall k :: k in s'.synced ==> SyncKeyOk(s', k);
    forall v | 0 <= v < |s'.nodes|
      ensures Holds(s', v)
    {
      assert SyncOk(s', v);
      HoldsKept(s, s', i, v);
    }
    forall k | k in s'.votes
      ensures VoteGood(s', k)
    {
      if k in s.votes {
        VoteKept(s, s', i, k);
      }
    }
  }

  /** Steps that neither vote nor touch a log. */
  lemma CStill(s: Sys, s': Sys, i: nat)
    requires InvC(s) && VotesOk(s) && Still(s, s', i)
    requires s'.votes == s.votes && s'.candLog == s.candLog
    requires InvF(s') && SyncGrows(s, s', i)
    ensures InvC(s')
  {
    StillPoints(s, s', i);
    hide *;
    CKept(s, s', i);
  }

  lemma StillPoints(s: Sys, s': Sys, i: nat)
    requires Still(s, s', i)
    ensures NodesStep(s, s', i) && PointBack(s, s', i) && Carries(s, s', i)
    ensures s'.votes == s.votes && s'.candLog == s.candLog ==> VotesGrow(s, s')
    ensures s'.votes == s.votes ==> forall k :: k in s'.votes && k !in s.votes ==> VoteGood(s', k)
  {
    hide Able, Shape;
  }

  /** The vote of node `i` is good if its log has every open entry it confirmed, and the candidate's log passed. */
  lemma NewVote(s: Sys, i: nat, va: VoteArgs)
    requires InvL(s) && AllComplete(s) && i < |s.nodes| && Holds(s, i)
    requires VoteReq(va) in s.net && UpToDate(s.nodes[i].log, va)
    requires forall t :: t in s.elect ==> t >= 1
    ensures (va.cand, va.term) in s.candLog
    ensures forall t: nat, n: nat :: Open(s, t, n) && Synced(s, t, i) > n ==>
              Pre(s, t, n) <= s.candLog[(va.cand, va.term)]
  {
    assert PacketOk(s, VoteReq(va)) && CandOk(s, (va.cand, va.term)) && LogOk(s, i);
    var c := s.candLog[(va.cand, va.term)];
    var log := s.nodes[i].log;
    hide InvL, CandOk, LogOk, Traced, AllComplete, UpToDate, Able, Majority;
    forall t: nat, n: nat | Open(s, t, n) && Synced(s, t, i) > n
      ensures Pre(s, t, n) <= c
    {
      UpToDateHas(s, t, n, log, c, va);
    }
  }

  /** What held of the voter's confirmed entries before its step holds after it. */
  lemma GoodLater(s: Sys, s': Sys, i: nat, c: seq<Entry>)
    requires NodesStep(s, s', i) && PointBack(s, s', i) && SyncGrows(s, s', i)
    requires forall t: nat, n: nat :: Open(s, t, n) && Synced(s, t, i) > n ==> Pre(s, t, n) <= c
    ensures forall t: nat, n: nat :: Open(s', t, n) && t < s'.nodes[i].term && Synced(s', t, i) > n ==>
              Pre(s', t, n) <= c
  {
    hide PointBack, Able, Majority;
    forall t: nat, n: nat | Open(s', t, n) && t < s'.nodes[i].term && Synced(s', t, i) > n
      ensures Pre(s', t, n) <= c
    {
      OpenBack(s, s', i, t, n);
    }
  }

  lemma RequestVoteNew(s: Sys, i: nat, va: VoteArgs)
    requires InvL(s) && AllComplete(s) && i < |s.nodes| && Holds(s, i) && VoteReq(va) in s.net
    requires forall t :: t in s.elect ==> t >= 1
    requires SyncGrows(s, DoRequestVote(s, i, va), i)
    ensures var s' := DoRequestVote(s, i, va);
      forall k :: k in s'.votes && k !in s.votes ==> VoteGood(s', k)
  {
    var s' := DoRequestVote(s, i, va);
    QuietRequestVote(s, i, va);
    if OnRequestVote(s.nodes[i], va).1.granted {
      NewVote(s, i, va);
      hide InvL, AllComplete, Holds, SyncGrows, Open;
      StillPoints(s, s', i);
      GoodLater(s, s', i, s.candLog[(va.cand, va.term)]);
    }
  }

  lemma RequestVoteGrows(s: Sys, i: nat, va: VoteArgs)
    requires InvE(s) && i < |s.nodes| && VoteReq(va) in s.net && i != va.cand
    ensures VotesGrow(s, DoRequestVote(s, i, va))
  {
    RequestVoteStep(s, i, va);
    hide InvE, Shape;
  }

  lemma CRequestVote(s: Sys, i: nat, va: VoteArgs)
    requires InvL(s) && AllComplete(s) && InvC(s) && VotesOk(s) && i < |s.nodes| && VoteReq(va) in s.net
    requires forall t :: t in s.elect ==> t >= 1
    requires var s' := DoRequestVote(s, i, va); InvF(s') && SyncGrows(s, s', i) && VotesGrow(s, s')
    ensures InvC(DoRequestVote(s, i, va))
  {
    var s' := DoRequestVote(s, i, va);
    assert Holds(s, i);
    QuietRequestVote(s, i, va);
    assert Still(s, s', i);
    hide *;
    RequestVoteNew(s, i, va);
    StillPoints(s, s', i);
    CKept(s, s', i);
  }

  // ---- elections ----

  /** A win adds no point: all entries predate the term. */
  lemma CrownPoints(s: Sys, s': Sys, i: nat)
    requires InvL(s') && CrownStepF(s, s', i)
    ensures NodesStep(s, s', i) && PointBack(s, s', i) && Carries(s, s', i)
  {
    assert LeaderLogOk(s', s'.nodes[i].term);
    hide InvL, Able, Majority, Shape, Traced;
    assert forall n: nat :: !Point(s', s'.nodes[i].term, n);
  }

  lemma CCrown(s: Sys, s': Sys, i: nat)
    requires InvC(s) && VotesOk(s) && InvL(s') && InvF(s') && CrownStepF(s, s', i) && SyncGrows(s, s', i)
    requires s'.votes == s.votes && s'.candLog == s.candLog
    ensures InvC(s')
  {
    hide InvC, VotesOk, InvL, InvF, SyncGrows;
    CrownPoints(s, s', i);
    assert VotesGrow(s, s');
    hide *;
    CKept(s, s', i);
  }

  lemma CVoteReply(s: Sys, i: nat, voter: nat, election: nat, vr: VoteReply)
    requires VotesOk(s) && InvC(s) && Shape(s) && i < |s.nodes|
    requires Crowns(s, i, election, vr) ==> election !in s.elect
    requires var s' := DoVoteReply(s, i, voter, election, vr); InvL(s') && InvF(s') && SyncGrows(s, s', i)
    ensures InvC(DoVoteReply(s, i, voter, election, vr))
  {
    hide InvC, InvL, InvF, VotesOk, SyncGrows;
    var s' := DoVoteReply(s, i, voter, election, vr);
    assert s'.votes == s.votes && s'.candLog == s.candLog;
    if Crowns(s, i, election, vr) {
      ReplyCrown(s, i, voter, election, vr);
      hide *;
      CCrown(s, s', i);
    } else {
      QuietVoteReply(s, i, voter, election, vr);
      hide *;
      COther(s, s', i);
    }
  }

  lemma StandPoints(s: Sys, i: nat)
    requires Shape(s) && i < |s.nodes| && InvL(DoTimeout(s, i))
    requires |s.nodes| == 1 ==> s.nodes[i].term + 1 !in s.elect
    ensures var s' := DoTimeout(s, i); NodesStep(s, s', i) && PointBack(s, s', i) && Carries(s, s', i)
  {
    var s' := DoTimeout(s, i);
    if |s.nodes| == 1 {
      SoloCrown(s, i);
      hide *;
      CrownPoints(s, s', i);
    } else {
      StandStill(s, i);
      hide *;
      StillPoints(s, s', i);
    }
  }

  /** A candidate's vote for itself: its own log has what it confirmed. */
  lemma OwnVote(s: Sys, i: nat)
    requires Shape(s) && i < |s.nodes| && Holds(s, i)
    requires var s' := DoTimeout(s, i); NodesStep(s, s', i) && PointBack(s, s', i) && SyncGrows(s, s', i)
    ensures var s' := DoTimeout(s, i);
      forall k :: k in s'.votes && k !in s.votes ==> VoteGood(s', k)
  {
    hide PointBack, SyncGrows, Open, NodesStep, WF, VoteGood;
    var s' := DoTimeout(s, i);
    StandRecord(s, i);
    GoodLater(s, s', i, s.nodes[i].log);
    hide DoTimeout, Holds;
    OwnVoteGood(s', i, s.nodes[i].log);
  }

  lemma StandRecord(s: Sys, i: nat)
    requires Shape(s) && i < |s.nodes|
    ensures var s', k := DoTimeout(s, i), (i, s.nodes[i].term + 1);
      && s'.nodes[i].term == k.1 && s'.votes == s.votes[k := i]
      && k in s'.candLog && s'.candLog[k] == s.nodes[i].log
  {
    hide WF;
  }

  lemma OwnVoteGood(s: Sys, i: nat, log: seq<Entry>)
    requires i < |s.nodes|
    requires var k := (i, s.nodes[i].term);
      k in s.votes && s.votes[k] == i && k in s.candLog && s.candLog[k] == log
    requires forall t: nat, n: nat :: Open(s, t, n) && t < s.nodes[i].term && Synced(s, t, i) > n ==>
      Pre(s, t, n) <= log
    ensures VoteGood(s, (i, s.nodes[i].term))
  {
    hide Open;
  }

  lemma TimeoutVotes(s: Sys, i: nat)
    requires Shape(s) && i < |s.nodes|
    requires (i, s.nodes[i].term + 1) !in s.votes && (i, s.nodes[i].term + 1) !in s.candLog
    ensures VotesGrow(s, DoTimeout(s, i))
  {
  }

  lemma CTimeout(s: Sys, i: nat)
    requires InvE(s) && InvL(s) && InvC(s) && i < |s.nodes|
    requires var s' := DoTimeout(s, i); InvL(s') && InvF(s') && SyncGrows(s, s', i)
    ensures InvC(DoTimeout(s, i))
  {
    var t := s.nodes[i].term + 1;
    FreshTerm(s, i, t);
    assert forall k :: k in s.candLog ==> CandOk(s, k);
    assert Holds(s, i) && VotesOk(s) && Shape(s) && (i, t) !in s.candLog;
    hide *;
    StandPoints(s, i);
    OwnVote(s, i);
    TimeoutVotes(s, i);
    CKept(s, DoTimeout(s, i), i);
  }

  // ---- replication ----

  lemma AppendPoints(s: Sys, i: nat, sn: nat, aa: AppArgs)
    requires Shape(s) && i < |s.nodes|
    ensures var s' := DoAppend(s, i, sn, aa);
      NodesStep(s, s', i) && PointBack(s, s', i) && s'.votes == s.votes && VotesGrow(s, s')
  {
    hide Merged, WF;
  }

  /** A later leader's message may overwrite the follower's log, but not the open entries of earlier terms. */
  lemma AppendCarries(s: Sys, i: nat, sn: nat, aa: AppArgs)
    requires InvL(s) && AllComplete(s) && i < |s.nodes| && MsgOk(s, aa)
    ensures Carries(s, DoAppend(s, i, sn, aa), i)
  {
    var n' := OnAppendEntries(s.nodes[i], aa).0;
    assert DoAppend(s, i, sn, aa).nodes[i] == n';
    hide DoAppend, Open, Merged, WF, Shape, AllComplete, Carries;
    if Accepts(s.nodes[i], aa) && aa.entries != [] {
      Accepted(s, i, aa);
      LeaderCarries(s, i, DoAppend(s, i, sn, aa), aa);
    } else {
      SameLogCarries(s, DoAppend(s, i, sn, aa), i);
    }
  }

  lemma LeaderCarries(s: Sys, i: nat, s': Sys, aa: AppArgs)
    requires InvL(s) && AllComplete(s) && i < |s.nodes| && i < |s'.nodes| && MsgOk(s, aa)
    requires s'.nodes[i].log == s.llog[aa.term][..Full(aa)] && s'.nodes[i].term == aa.term
    ensures Carries(s, s', i)
  {
    assert LeaderLogOk(s, aa.term);
    assert s.elect[aa.term].log <= s.llog[aa.term][..Full(aa)];
    hide InvL, MsgOk, Open, LeaderLogOk;
  }

  lemma SameLogCarries(s: Sys, s': Sys, i: nat)
    requires i < |s.nodes| && i < |s'.nodes| && s.nodes[i].log == s'.nodes[i].log
    ensures Carries(s, s', i)
  {
    hide Open;
  }

  lemma MsgIn(s: Sys, i: nat, sn: nat, aa: AppArgs)
    requires InvL(s) && AppReq(i, sn, aa) in s.net
    ensures MsgOk(s, aa)
  {
    assert PacketOk(s, AppReq(i, sn, aa));
  }

  lemma CAppend(s: Sys, i: nat, sn: nat, aa: AppArgs)
    requires Shape(s) && InvL(s) && AllComplete(s) && InvC(s) && VotesOk(s) && i < |s.nodes| && MsgOk(s, aa)
    requires var s' := DoAppend(s, i, sn, aa); InvF(s') && SyncGrows(s, s', i)
    ensures InvC(DoAppend(s, i, sn, aa))
  {
    hide *;
    AppendPoints(s, i, sn, aa);
    AppendCarries(s, i, sn, aa);
    CKept(s, DoAppend(s, i, sn, aa), i);
  }

  lemma StartPoints(s: Sys, i: nat, c: Cmd)
    requires Shape(s) && i < |s.nodes| && s.nodes[i].role == Leader
    requires s.nodes[i].term in s.llog && s.llog[s.nodes[i].term] == s.nodes[i].log
    requires forall v :: 0 <= v < |s.nodes| ==> Synced(s, s.nodes[i].term, v) <= |s.nodes[i].log|
    ensures PointBack(s, DoStart(s, i, c), i)
  {
    var s' := DoStart(s, i, c);
    hide Shape;
    assert forall v :: 0 <= v < |s.nodes| && v != i ==> Synced(s', s.nodes[i].term, v) == Synced(s, s.nodes[i].term, v);
    forall t: nat, n: nat | Point(s', t, n) && !(t == s.nodes[i].term && n >= |s.nodes[i].log|)
      ensures Point(s, t, n) && Pre(s', t, n) == Pre(s, t, n)
    {
    }
  }

  lemma StartFacts(s: Sys, i: nat)
    requires InvL(s) && InvF(s) && i < |s.nodes| && s.nodes[i].role == Leader
    ensures s.nodes[i].term in s.llog && s.llog[s.nodes[i].term] == s.nodes[i].log
    ensures forall v :: 0 <= v < |s.nodes| ==> Synced(s, s.nodes[i].term, v) <= |s.nodes[i].log|
  {
    assert LogOk(s, i);
    forall v | 0 <= v < |s.nodes|
      ensures Synced(s, s.nodes[i].term, v) <= |s.nodes[i].log|
    {
      assert (s.nodes[i].term, v) in s.synced ==> SyncKeyOk(s, (s.nodes[i].term, v));
    }
  }

  lemma StartFrame(s: Sys, i: nat, c: Cmd)
    requires Shape(s) && i < |s.nodes|
    ensures var s' := DoStart(s, i, c);
      NodesStep(s, s', i) && Carries(s, s', i) && VotesGrow(s, s') && s'.votes == s.votes
  {
    hide Open, WF, Carries, NodesStep;
    StartCarries(s, i, c);
    StartNodes(s, i, c);
  }

  lemma StartCarries(s: Sys, i: nat, c: Cmd)
    requires Shape(s) && i < |s.nodes|
    ensures Carries(s, DoStart(s, i, c), i)
  {
    hide Open, WF;
    assert s.nodes[i].log <= DoStart(s, i, c).nodes[i].log;
    hide DoStart;
  }

  lemma StartNodes(s: Sys, i: nat, c: Cmd)
    requires Shape(s) && i < |s.nodes|
    ensures NodesStep(s, DoStart(s, i, c), i)
  {
    hide WF;
  }

  lemma CStart(s: Sys, i: nat, c: Cmd)
    requires InvL(s) && InvF(s) && InvC(s) && VotesOk(s) && i < |s.nodes|
    requires var s' := DoStart(s, i, c); InvF(s') && SyncGrows(s, s', i)
    ensures InvC(DoStart(s, i, c))
  {
    var s' := DoStart(s, i, c);
    assert Shape(s);
    if s.nodes[i].role == Leader {
      hide *;
      StartFacts(s, i);
      StartFrame(s, i, c);
      StartPoints(s, i, c);
      CKept(s, s', i);
    }
  }

  lemma COther(s: Sys, s': Sys, i: nat)
    requires VotesOk(s) && InvC(s) && Quiet(s, s', i) && s'.votes == s.votes
    requires InvF(s') && SyncGrows(s, s', i)
    ensures InvC(s')
  {
    assert Still(s, s', i) && s'.candLog == s.candLog;
    hide *;
    CStill(s, s', i);
  }

  lemma CSend(s: Sys, i: nat, j: nat)
    requires Shape(s) && VotesOk(s) && InvC(s) && i < |s.nodes| && j < |s.nodes|
    requires var s' := DoSend(s, i, j); InvF(s') && SyncGrows(s, s', i)
    ensures InvC(DoSend(s, i, j))
  {
    QuietSend(s, i, j);
    hide VotesOk, InvC, InvF, SyncGrows, Quiet;
    COther(s, DoSend(s, i, j), i);
  }

  lemma CAppendRep(s: Sys, i: nat, peer: nat, ra: AppArgs, ar: AppReply)
    requires Shape(s) && VotesOk(s) && InvC(s) && i < |s.nodes| && peer < |s.nodes|
    requires var s' := DoAppendRep(s, i, peer, ra, ar); InvF(s') && SyncGrows(s, s', i)
    ensures InvC(DoAppendRep(s, i, peer, ra, ar))
  {
    QuietAppendRep(s, i, peer, ra, ar);
    hide VotesOk, InvC, InvF, SyncGrows, Quiet;
    COther(s, DoAppendRep(s, i, peer, ra, ar), i);
  }

  lemma CSolo(s: Sys, i: nat)
    requires Shape(s) && VotesOk(s) && InvC(s) && i < |s.nodes|
    requires var s' := DoSolo(s, i); InvF(s') && SyncGrows(s, s', i)
    ensures InvC(DoSolo(s, i))
  {
    QuietSolo(s, i);
    hide VotesOk, InvC, InvF, SyncGrows, Quiet;
    COther(s, DoSolo(s, i), i);
  }

  lemma CSnap(s: Sys, i: nat, leader: nat, term: nat)
    requires Shape(s) && VotesOk(s) && InvC(s) && i < |s.nodes|
    requires var s' := DoSnap(s, i, leader, term); InvF(s') && SyncGrows(s, s', i)
    ensures InvC(DoSnap(s, i, leader, term))
  {
    QuietSnap(s, i, leader, term);
    hide VotesOk, InvC, InvF, SyncGrows, Quiet;
    COther(s, DoSnap(s, i, leader, term), i);
  }

  lemma CSnapRep(s: Sys, i: nat, peer: nat, rterm: nat)
    requires Shape(s) && VotesOk(s) && InvC(s) && i < |s.nodes| && peer < |s.nodes|
    requires var s' := DoSnapRep(s, i, peer, rterm); InvF(s') && SyncGrows(s, s', i)
    ensures InvC(DoSnapRep(s, i, peer, rterm))
  {
    QuietSnapRep(s, i, peer, rterm);
    hide VotesOk, InvC, InvF, SyncGrows, Quiet;
    COther(s, DoSnapRep(s, i, peer, rterm), i);
  }

  lemma CApply(s: Sys, i: nat)
    requires Shape(s) && VotesOk(s) && InvC(s) && i < |s.nodes|
    requires var s' := DoApply(s, i); InvF(s') && SyncGrows(s, s', i)
    ensures InvC(DoApply(s, i))
  {
    QuietApply(s, i);
    hide VotesOk, InvC, InvF, SyncGrows, Quiet;
    COther(s, DoApply(s, i), i);
  }

  lemma StepCOther(s: Sys, act: Action)
    requires Shape(s) && VotesOk(s) && InvC(s) && Enabled(s, act)
    requires act.SendAppend? || act.RecvAppendRep? || act.SoloCommit? || act.RecvSnap? || act.RecvSnapRep?
      || act.ApplyNext?
    requires InvF(Next(s, act)) && SyncGrows(s, Next(s, act), act.i)
    ensures InvC(Next(s, act))
  {
    hide InvF, InvC, SyncGrows, VotesOk, Shape;
    hide DoTimeout, DoRequestVote, DoVoteReply, DoSend, DoAppend, DoAppendRep, DoSolo, DoStart, DoSnap, DoSnapRep,
      DoApply;
    match act
    case SendAppend(i, j) => CSend(s, i, j);
    case RecvAppendRep(i, peer, ra, ar) => CAppendRep(s, i, peer, ra, ar);
    case SoloCommit(i) => CSolo(s, i);
    case RecvSnap(i, leader, term) => CSnap(s, i, leader, term);
    case RecvSnapRep(i, peer, rterm) => CSnapRep(s, i, peer, rterm);
    case ApplyNext(i) => CApply(s, i);
  }

  lemma VoteFacts(s: Sys)
    requires InvE(s)
    ensures VotesOk(s) && Shape(s) && forall t :: t in s.elect ==> t >= 1
  {
    assert forall t :: t in s.elect ==> WonOk(s, t);
  }

  lemma StepCMain(s: Sys, act: Action)
    requires InvE(s) && InvL(s) && InvF(s) && InvC(s) && Enabled(s, act)
    requires AllComplete(s) && VotesOk(s) && Shape(s) && forall t :: t in s.elect ==> t >= 1
    requires InvL(Next(s, act)) && InvF(Next(s, act)) && SyncGrows(s, Next(s, act), act.i)
    ensures InvC(Next(s, act))
  {
    hide InvE, InvL, InvF, InvC, Counts, SyncGrows, VotesOk, Shape, AllComplete, VotesGrow;
    hide DoTimeout, DoRequestVote, DoVoteReply, DoSend, DoAppend, DoAppendRep, DoSolo, DoStart, DoSnap, DoSnapRep,
      DoApply;
    match act
    case Timeout(i) => CTimeout(s, i);
    case RecvVoteReq(i, va) =>
      RequestVoteGrows(s, i, va);
      CRequestVote(s, i, va);
    case RecvVoteRep(i, voter, election, vr) =>
      if Crowns(s, i, election, vr) {
        NewTerm(s, i, voter, election, vr);
      }
      CVoteReply(s, i, voter, election, vr);
    case RecvAppend(i, sn, aa) =>
      MsgIn(s, i, sn, aa);
      CAppend(s, i, sn, aa);
    case ClientStart(i, c) => CStart(s, i, c);
    case _ => StepCOther(s, act);
  }

  lemma StepC(s: Sys, act: Action)
    requires InvE(s) && InvL(s) && InvF(s) && InvC(s) && Enabled(s, act)
    requires InvL(Next(s, act)) && InvF(Next(s, act)) && SyncGrows(s, Next(s, act), act.i)
    ensures InvC(Next(s, act))
  {
    hide *;
    CompleteAll(s);
    VoteFacts(s);
    StepCMain(s, act);
  }
}
