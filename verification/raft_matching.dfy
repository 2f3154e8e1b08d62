/** Log matching, for any delivery order: every log is a prefix, entry by entry, of the log of that entry's leader. */
module RaftMatching {
  import opened RaftLog
  import opened RaftHandlers
  import opened RaftSystem
  import opened RaftElection

  type Logs = map<nat, seq<Entry>>

  ghost predicate TracedAt(ll: Logs, log: seq<Entry>, i: nat)
    requires i < |log|
  {
    var t := log[i].term;
    t in ll && i < |ll[t]| && log[..i + 1] == ll[t][..i + 1]
  }

  ghost predicate Traced(ll: Logs, log: seq<Entry>) {
    |log| >= 1 && log[0] == DUMMY && forall i :: 1 <= i < |log| ==> TracedAt(ll, log, i)
  }

  ghost predicate Below(log: seq<Entry>, t: nat) {
    forall i :: 0 <= i < |log| ==> log[i].term <= t
  }

  ghost predicate Grows(ll: Logs, ll': Logs) {
    forall t :: t in ll ==> t in ll' && ll[t] <= ll'[t]
  }

  lemma TracedLater(ll: Logs, ll': Logs, log: seq<Entry>)
    requires Traced(ll, log) && Grows(ll, ll')
    ensures Traced(ll', log)
  {
    forall i | 1 <= i < |log|
      ensures TracedAt(ll', log, i)
    {
      assert TracedAt(ll, log, i);
      var t := log[i].term;
      assert ll'[t][..i + 1] == ll[t][..i + 1];
    }
  }

  lemma TracedPrefix(ll: Logs, log: seq<Entry>, p: seq<Entry>)
    requires Traced(ll, log) && p <= log && p != []
    ensures Traced(ll, p)
  {
    forall i | 1 <= i < |p|
      ensures TracedAt(ll, p, i)
    {
      assert TracedAt(ll, log, i);
      assert p[..i + 1] == log[..i + 1];
    }
  }

  /** Log matching: one equal term at an index makes two logs equal up to that index. */
  lemma Matching(ll: Logs, a: seq<Entry>, b: seq<Entry>, i: nat)
    requires Traced(ll, a) && Traced(ll, b)
    requires i < |a| && i < |b| && a[i].term == b[i].term
    ensures a[..i + 1] == b[..i + 1]
  {
    if i > 0 {
      assert TracedAt(ll, a, i) && TracedAt(ll, b, i);
    }
  }

  /**
   * The follower's merge loop compares terms only and truncates unconditionally; under log matching
   * it still computes the splice, which is the leader's log up to the end of the message.
   */
  lemma MergeIsSplice(ll: Logs, log: seq<Entry>, t: nat, prev: nat, entries: seq<Entry>)
    requires t in ll && Traced(ll, log) && Traced(ll, ll[t])
    requires prev < |log| && prev + 1 + |entries| <= |ll[t]|
    requires log[prev].term == ll[t][prev].term
    requires entries == ll[t][prev + 1..prev + 1 + |entries|]
    ensures log[..prev + 1] == ll[t][..prev + 1]
    ensures entries != [] ==> Merged(log, prev + 1, entries) == log[..prev + 1] + entries
    ensures entries != [] ==> Merged(log, prev + 1, entries) == ll[t][..prev + 1 + |entries|]
  {
    Matching(ll, log, ll[t], prev);
    var k := Agreeing(log, prev + 1, entries);
    if k > 0 {
      assert log[prev + 1 + (k - 1)].term == entries[k - 1].term;
      Matching(ll, log, ll[t], prev + k);
    }
    assert log[..prev + 1 + k] == ll[t][..prev + 1 + k];
    assert ll[t][..prev + 1 + k] + entries[k..] == ll[t][..prev + 1 + |entries|];
    assert ll[t][..prev + 1] + entries == ll[t][..prev + 1 + |entries|];
  }

  // ---- the invariant ----

  /** What a leader starts with predates its term; what it adds carries its term. */
  ghost predicate LeaderLogOk(s: Sys, t: nat)
    requires t in s.llog && t in s.elect
  {
    var e := s.elect[t].log;
    && Traced(s.llog, s.llog[t]) && 1 <= |e| && e <= s.llog[t]
    && (forall i :: 0 <= i < |e| ==> s.llog[t][i].term < t)
    && (forall i :: |e| <= i < |s.llog[t]| ==> s.llog[t][i].term == t)
    && (s.elect[t].leader, t) in s.candLog && s.candLog[(s.elect[t].leader, t)] == e
  }

  ghost predicate LogOk(s: Sys, i: nat)
    requires Shape(s) && i < |s.nodes|
  {
    var n := s.nodes[i];
    && Traced(s.llog, n.log) && Below(n.log, n.term)
    && (n.role == Leader ==> n.term in s.llog && n.log == s.llog[n.term]
                             && forall j :: 0 <= j < |n.nextIndex| ==> n.nextIndex[j] <= |n.log|)
    && (n.role == Candidate ==> (i, n.term) in s.candLog && s.candLog[(i, n.term)] == n.log)
  }

  ghost predicate CandOk(s: Sys, k: (nat, nat))
    requires k in s.candLog
  {
    && k.0 < |s.nodes| && 1 <= k.1 <= s.nodes[k.0].term
    && Traced(s.llog, s.candLog[k]) && Below(s.candLog[k], k.1 - 1)
  }

  ghost predicate MsgOk(s: Sys, a: AppArgs) {
    && a.term in s.llog && a.term in s.elect && 0 <= a.prev
    && |s.elect[a.term].log| <= Full(a) <= |s.llog[a.term]|
    && a.entries == s.llog[a.term][a.prev + 1..Full(a)]
    && a.prevTerm == s.llog[a.term][a.prev].term
  }

  ghost predicate PacketOk(s: Sys, p: Packet) {
    match p
    case VoteReq(va) =>
      && (va.cand, va.term) in s.candLog && s.candLog[(va.cand, va.term)] != []
      && va.lastIndex == LastIndex(s.candLog[(va.cand, va.term)])
      && va.lastTerm == LastTerm(s.candLog[(va.cand, va.term)])
    case AppReq(to, sn, aa) => MsgOk(s, aa) && sn <= s.clock
    case AppRep(peer, ra, ar) => MsgOk(s, ra)
    case _ => true
  }

  ghost predicate InvL(s: Sys) {
    && Shape(s) && s.llog.Keys == s.elect.Keys
    && (forall t :: t in s.llog ==> LeaderLogOk(s, t))
    && (forall i :: 0 <= i < |s.nodes| ==> LogOk(s, i))
    && (forall k :: k in s.candLog ==> CandOk(s, k))
    && (forall p :: p in s.net ==> PacketOk(s, p))
  }

  lemma InitL(size: nat)
    ensures InvL(Init(size))
  {
  }

  /** What a step of node `i` may do to the logs. */
  ghost predicate LStep(s: Sys, s': Sys, i: nat)
    requires Shape(s) && Shape(s') && |s.nodes| == |s'.nodes| && i < |s.nodes|
  {
    LFrame(s, s', i) && LNew(s, s', i) && LogOk(s', i) && forall p :: p in s'.net && p !in s.net ==> PacketOk(s', p)
  }

  ghost predicate LFrame(s: Sys, s': Sys, i: nat)
    requires |s.nodes| == |s'.nodes| && i < |s.nodes|
  {
    && (forall j :: 0 <= j < |s.nodes| && j != i ==> s'.nodes[j] == s.nodes[j])
    && s.nodes[i].term <= s'.nodes[i].term && s.clock <= s'.clock
    && s'.llog.Keys == s'.elect.Keys && Grows(s.llog, s'.llog)
    && (forall t :: t in s.elect ==> t in s'.elect && s'.elect[t] == s.elect[t])
    && (forall k :: k in s.candLog ==> k in s'.candLog && s'.candLog[k] == s.candLog[k])
  }

  ghost predicate LNew(s: Sys, s': Sys, i: nat)
    requires Shape(s') && i < |s'.nodes|
  {
    && (forall t :: t in s'.llog && !(t in s.llog && s'.llog[t] == s.llog[t]) ==>
          t in s'.elect && LeaderLogOk(s', t) && t == s'.nodes[i].term && s'.nodes[i].role == Leader)
    && (forall k :: k in s'.candLog && k !in s.candLog ==> CandOk(s', k))
  }

  lemma LogsKept(s: Sys, s': Sys, i: nat)
    requires InvL(s) && InvE(s') && |s.nodes| == |s'.nodes| && i < |s.nodes| && LStep(s, s', i)
    ensures forall j :: 0 <= j < |s'.nodes| ==> LogOk(s', j)
  {
    assert Shape(s) && forall j :: 0 <= j < |s.nodes| ==> LogOk(s, j);
    assert LogOk(s', i) && forall j :: 0 <= j < |s.nodes| && j != i ==> s'.nodes[j] == s.nodes[j];
    LeadersStay(s, s', i);
    forall j | 0 <= j < |s'.nodes|
      ensures LogOk(s', j)
    {
      if j != i {
        assert LogOk(s, j);
        hide InvL, InvE, LStep, Shape;
        LogKept(s, s', j);
      }
    }
  }

  /** Only the log of a term that node `i` leads may have grown. */
  lemma LeadersStay(s: Sys, s': Sys, i: nat)
    requires InvL(s) && InvE(s') && |s.nodes| == |s'.nodes| && i < |s.nodes| && LStep(s, s', i)
    ensures Grows(s.llog, s'.llog) && forall k :: k in s.candLog ==> k in s'.candLog && s'.candLog[k] == s.candLog[k]
    ensures forall j :: 0 <= j < |s.nodes| && j != i && s.nodes[j].role == Leader ==>
      s.nodes[j].term in s'.llog && s.nodes[j].term in s.llog
      && s'.llog[s.nodes[j].term] == s.llog[s.nodes[j].term]
  {
    hide Traced, Below, CandOk, LeaderLogOk, PacketOk;
    forall j | 0 <= j < |s.nodes| && j != i && s.nodes[j].role == Leader
      ensures s.nodes[j].term in s'.llog && s.nodes[j].term in s.llog
      ensures s'.llog[s.nodes[j].term] == s.llog[s.nodes[j].term]
    {
      assert LogOk(s, j);
    }
  }

  lemma LogKept(s: Sys, s': Sys, j: nat)
    requires Shape(s) && Shape(s') && |s.nodes| == |s'.nodes| && j < |s.nodes| && s'.nodes[j] == s.nodes[j]
    requires LogOk(s, j) && Grows(s.llog, s'.llog)
    requires forall k :: k in s.candLog ==> k in s'.candLog && s'.candLog[k] == s.candLog[k]
    requires s.nodes[j].role == Leader ==>
      s.nodes[j].term in s'.llog && s.nodes[j].term in s.llog && s'.llog[s.nodes[j].term] == s.llog[s.nodes[j].term]
    ensures LogOk(s', j)
  {
    TracedLater(s.llog, s'.llog, s.nodes[j].log);
    hide Traced, Below, Grows;
  }

  lemma LeaderLogsKept(s: Sys, s': Sys, i: nat)
    requires InvL(s) && |s.nodes| == |s'.nodes| && Shape(s') && i < |s.nodes| && LStep(s, s', i)
    ensures forall t :: t in s'.llog ==> LeaderLogOk(s', t)
    ensures forall k :: k in s'.candLog ==> CandOk(s', k)
  {
    forall t | t in s'.llog
      ensures LeaderLogOk(s', t)
    {
      if t in s.llog && s'.llog[t] == s.llog[t] {
        assert LeaderLogOk(s, t);
        TracedLater(s.llog, s'.llog, s.llog[t]);
      }
    }
    forall k | k in s'.candLog
      ensures CandOk(s', k)
    {
      if k in s.candLog {
        assert CandOk(s, k);
        TracedLater(s.llog, s'.llog, s.candLog[k]);
      }
    }
  }

  lemma MsgStays(s: Sys, s': Sys, a: AppArgs)
    requires MsgOk(s, a) && Grows(s.llog, s'.llog)
    requires forall t :: t in s.elect ==> t in s'.elect && s'.elect[t] == s.elect[t]
    ensures MsgOk(s', a)
  {
    assert s'.llog[a.term][a.prev + 1..Full(a)] == s.llog[a.term][a.prev + 1..Full(a)];
  }

  lemma PacketsKept(s: Sys, s': Sys, i: nat)
    requires InvL(s) && |s.nodes| == |s'.nodes| && Shape(s') && i < |s.nodes| && LStep(s, s', i)
    ensures forall p :: p in s'.net ==> PacketOk(s', p)
  {
    forall p | p in s'.net
      ensures PacketOk(s', p)
    {
      if p in s.net {
        assert PacketOk(s, p);
        match p
        case AppReq(_, _, aa) => MsgStays(s, s', aa);
        case AppRep(_, ra, _) => MsgStays(s, s', ra);
        case _ =>
      }
    }
  }

  lemma LKept(s: Sys, s': Sys, i: nat)
    requires InvL(s) && InvE(s') && |s.nodes| == |s'.nodes| && i < |s.nodes| && LStep(s, s', i)
    ensures InvL(s')
  {
    LogsKept(s, s', i);
    LeaderLogsKept(s, s', i);
    PacketsKept(s, s', i);
  }

  // ---- the steps ----

  ghost predicate InBounds(n: Node) {
    n.role == Leader ==> forall j :: 0 <= j < |n.nextIndex| ==> n.nextIndex[j] <= |n.log|
  }

  lemma QuietLogs(s: Sys, s': Sys, i: nat)
    requires InvL(s) && Quiet(s, s', i) && InBounds(s'.nodes[i])
    requires forall p :: p in s'.net && p !in s.net ==> PacketOk(s', p)
    ensures LStep(s, s', i)
  {
    assert LogOk(s, i);
    hide TracedAt, WF, LeaderLogOk, CandOk, PacketOk;
    assert LogOk(s', i);
  }

  /** Steps that leave every log alone. */
  lemma LQuiet(s: Sys, s': Sys, i: nat)
    requires InvL(s) && InvE(s') && Quiet(s, s', i) && InBounds(s'.nodes[i])
    requires forall p :: p in s'.net && p !in s.net ==> PacketOk(s', p)
    ensures InvL(s')
  {
    QuietLogs(s, s', i);
    assert |s'.nodes| == |s.nodes| && i < |s.nodes|;
    hide *;
    LKept(s, s', i);
  }

  /** The part of `s'` that the log invariant of a newly crowned node depends on. */
  lemma CrownedLog(s: Sys, s': Sys, i: nat)
    requires InvL(s) && Shape(s') && |s.nodes| == |s'.nodes| && i < |s.nodes|
    requires var n := s'.nodes[i];
      && n.log == s.nodes[i].log && n.role == Leader && n.term !in s.elect && n.term >= 1
      && Below(n.log, n.term - 1)
      && n.nextIndex == seq(|s.nodes|, _ => |n.log|)
      && s'.llog == s.llog[n.term := n.log]
      && n.term in s'.elect && s'.elect[n.term].leader == i && s'.elect[n.term].log == n.log
      && (i, n.term) in s'.candLog && s'.candLog[(i, n.term)] == n.log
    ensures Grows(s.llog, s'.llog) && Traced(s'.llog, s'.nodes[i].log)
    ensures LogOk(s', i) && LeaderLogOk(s', s'.nodes[i].term)
  {
    assert LogOk(s, i);
    TracedLater(s.llog, s'.llog, s.nodes[i].log);
  }

  lemma StandLogs(s: Sys, i: nat)
    requires InvL(s) && i < |s.nodes| && |s.nodes| > 1
    ensures LStep(s, DoTimeout(s, i), i)
  {
    hide TracedAt, WF, LeaderLogOk, LFrame;
    var s' := DoTimeout(s, i);
    var t := s.nodes[i].term + 1;
    assert LogOk(s, i);
    assert forall k :: k in s.candLog ==> CandOk(s, k);
    StandFrame(s, i);
    hide InvL, Traced;
    assert CandOk(s', (i, t));
  }

  lemma StandFrame(s: Sys, i: nat)
    requires Shape(s) && i < |s.nodes| && |s.nodes| > 1 && s.llog.Keys == s.elect.Keys
    requires (i, s.nodes[i].term + 1) !in s.candLog
    ensures LFrame(s, DoTimeout(s, i), i)
  {
    hide WF;
  }

  lemma SoloLogs(s: Sys, i: nat)
    requires InvL(s) && i < |s.nodes| && |s.nodes| == 1 && s.nodes[i].term + 1 !in s.elect
    ensures LStep(s, DoTimeout(s, i), i)
  {
    hide TracedAt, LeaderLogOk, LFrame, LNew, PacketOk;
    var s' := DoTimeout(s, i);
    var t := s.nodes[i].term + 1;
    assert LogOk(s, i) && s.nodes[i].log != [];
    assert forall k :: k in s.candLog ==> CandOk(s, k);
    CrownedLog(s, s', i);
    SoloFrame(s, i);
    assert Traced(s'.llog, s.nodes[i].log) && Below(s.nodes[i].log, t - 1);
    hide InvL, LogOk, Traced, Below, WF;
    SoloNew(s, i);

  }

  lemma SoloFrame(s: Sys, i: nat)
    requires Shape(s) && i < |s.nodes| && |s.nodes| == 1 && s.llog.Keys == s.elect.Keys
    requires (i, s.nodes[i].term + 1) !in s.candLog && s.nodes[i].term + 1 !in s.elect
    ensures LFrame(s, DoTimeout(s, i), i)
  {
    hide WF;
  }

  lemma SoloNew(s: Sys, i: nat)
    requires Shape(s) && i < |s.nodes| && |s.nodes| == 1 && s.llog.Keys == s.elect.Keys && s.nodes[i].log != []
    requires var s' := DoTimeout(s, i);
      && s'.nodes[i].term in s'.llog && s'.nodes[i].term in s'.elect && LeaderLogOk(s', s'.nodes[i].term)
      && Traced(s'.llog, s.nodes[i].log) && Below(s.nodes[i].log, s.nodes[i].term)
    ensures var s' := DoTimeout(s, i);
      LNew(s, s', i) && forall p :: p in s'.net && p !in s.net ==> PacketOk(s', p)
  {
    hide WF, LeaderLogOk, Traced, Below;
    assert CandOk(DoTimeout(s, i), (i, s.nodes[i].term + 1));
  }

  lemma LTimeout(s: Sys, i: nat)
    requires InvE(s) && InvL(s) && i < |s.nodes|
    ensures InvL(DoTimeout(s, i))
  {
    FreshTerm(s, i, s.nodes[i].term + 1);
    ETimeout(s, i);
    hide *;
    if |s.nodes| == 1 {
      SoloLogs(s, i);
    } else {
      StandLogs(s, i);
    }
    LKept(s, DoTimeout(s, i), i);
  }

  lemma CrownStep(s: Sys, i: nat, voter: nat, election: nat, vr: VoteReply)
    requires InvL(s) && i < |s.nodes| && Crowns(s, i, election, vr) && election !in s.elect
    ensures LStep(s, DoVoteReply(s, i, voter, election, vr), i)
  {
    var s' := DoVoteReply(s, i, voter, election, vr);
    hide TracedAt, WF, LFrame, LNew, PacketOk, LeaderLogOk;
    assert LogOk(s, i) && CandOk(s, (i, election));
    CrownFrame(s, i, voter, election, vr);
    CrownedLog(s, s', i);
    hide InvL, Traced, LogOk;
    CrownNew(s, i, voter, election, vr);
  }

  lemma CrownFrame(s: Sys, i: nat, voter: nat, election: nat, vr: VoteReply)
    requires Shape(s) && i < |s.nodes| && Crowns(s, i, election, vr) && election !in s.elect
    requires s.llog.Keys == s.elect.Keys
    ensures LFrame(s, DoVoteReply(s, i, voter, election, vr), i)
  {
    hide WF;
  }

  lemma CrownNew(s: Sys, i: nat, voter: nat, election: nat, vr: VoteReply)
    requires Shape(s) && i < |s.nodes| && Crowns(s, i, election, vr)
    requires var s' := DoVoteReply(s, i, voter, election, vr);
      && s'.nodes[i].term in s'.llog && s'.nodes[i].term in s'.elect && LeaderLogOk(s', s'.nodes[i].term)
      && s'.nodes[i].role == Leader && s.llog.Keys == s.elect.Keys
    ensures var s' := DoVoteReply(s, i, voter, election, vr);
      LNew(s, s', i) && forall p :: p in s'.net && p !in s.net ==> PacketOk(s', p)
  {
    hide WF, LeaderLogOk;
  }

  lemma LVoteReply(s: Sys, i: nat, voter: nat, election: nat, vr: VoteReply)
    requires InvE(s) && InvL(s) && i < |s.nodes|
    requires VoteRep(voter, i, election, vr) in s.net && (i, election, voter) in s.waiting
    ensures InvL(DoVoteReply(s, i, voter, election, vr))
  {
    var s' := DoVoteReply(s, i, voter, election, vr);
    EVoteReply(s, i, voter, election, vr);
    if Crowns(s, i, election, vr) {
      NewTerm(s, i, voter, election, vr);
      CrownStep(s, i, voter, election, vr);
      hide *;
      LKept(s, s', i);
    } else {
      QuietVoteReply(s, i, voter, election, vr);
      assert LogOk(s, i);
      assert InBounds(s'.nodes[i]) && s'.net == s.net;
      hide *;
      LQuiet(s, s', i);
    }
  }

  lemma LRequestVote(s: Sys, i: nat, va: VoteArgs)
    requires InvE(s) && InvL(s) && i < |s.nodes| && VoteReq(va) in s.net && i != va.cand
    ensures InvL(DoRequestVote(s, i, va))
  {
    var s' := DoRequestVote(s, i, va);
    ERequestVote(s, i, va);
    QuietRequestVote(s, i, va);
    assert LogOk(s, i);
    hide InvE, InvL, Quiet, Traced;
    assert InBounds(s'.nodes[i]);
    assert forall p :: p in s'.net && p !in s.net ==> PacketOk(s', p);
    LQuiet(s, s', i);
  }

  lemma SentMsg(s: Sys, i: nat, j: nat)
    requires InvL(s) && i < |s.nodes| && j < |s.nodes| && s.nodes[i].role == Leader
    ensures forall p :: p in DoSend(s, i, j).net && p !in s.net ==> PacketOk(DoSend(s, i, j), p)
  {
    var s' := DoSend(s, i, j);
    var n := s.nodes[i];
    assert LogOk(s, i) && LeaderLogOk(s, n.term);
    hide Traced, InvL, Shape;
    forall p | p in s'.net && p !in s.net
      ensures PacketOk(s', p)
    {
      if p.AppReq? {
        assert p.aa.entries == n.log[p.aa.prev + 1..Full(p.aa)];
        assert |s.elect[n.term].log| <= |n.log|;
      }
    }
  }

  lemma LSend(s: Sys, i: nat, j: nat)
    requires InvE(s) && InvL(s) && i < |s.nodes| && j < |s.nodes| && j != i && s.nodes[i].role == Leader
    ensures InvL(DoSend(s, i, j))
  {
    var s' := DoSend(s, i, j);
    ESend(s, i, j);
    QuietSend(s, i, j);
    assert LogOk(s, i);
    assert InBounds(s'.nodes[i]);
    SentMsg(s, i, j);
    hide *;
    LQuiet(s, s', i);
  }

  /** What an accepted message does to the receiver's log, in terms of its sender's. */
  lemma Accepted(s: Sys, i: nat, aa: AppArgs)
    requires InvL(s) && i < |s.nodes| && MsgOk(s, aa) && Accepts(s.nodes[i], aa)
    ensures var log' := OnAppendEntries(s.nodes[i], aa).0.log;
      && (aa.entries == [] ==> log' == s.nodes[i].log)
      && (aa.entries != [] ==> log' == s.llog[aa.term][..Full(aa)])
      && Full(aa) <= |log'| && log'[..Full(aa)] == s.llog[aa.term][..Full(aa)]
  {
    hide InvL, OnAppendEntries, Merged;
    AcceptedMerge(s, i, aa);
    hide MsgOk, Accepts;
    MergedLog(s.nodes[i], aa, s.llog[aa.term]);
  }

  lemma MergedLog(n: Node, a: AppArgs, leader: seq<Entry>)
    requires Accepts(n, a) && Full(a) <= |leader| && n.log[..a.prev + 1] == leader[..a.prev + 1]
    requires a.entries != [] ==> Merged(n.log, a.prev + 1, a.entries) == leader[..Full(a)]
    ensures n.log != []
    ensures var log' := OnAppendEntries(n, a).0.log;
      && (a.entries == [] ==> log' == n.log) && (a.entries != [] ==> log' == leader[..Full(a)])
      && Full(a) <= |log'| && log'[..Full(a)] == leader[..Full(a)]
  {
    assert leader[..Full(a)][..Full(a)] == leader[..Full(a)];
  }

  lemma AcceptedMerge(s: Sys, i: nat, aa: AppArgs)
    requires InvL(s) && i < |s.nodes| && MsgOk(s, aa) && Accepts(s.nodes[i], aa)
    ensures var log := s.nodes[i].log;
      && 0 <= aa.prev < |log| && Full(aa) <= |s.llog[aa.term]|
      && log[..aa.prev + 1] == s.llog[aa.term][..aa.prev + 1]
      && (aa.entries != [] ==> Merged(log, aa.prev + 1, aa.entries) == s.llog[aa.term][..Full(aa)])
  {
    assert LogOk(s, i) && LeaderLogOk(s, aa.term);
    hide InvL, Merged, Below, Traced;
    MergeIsSplice(s.llog, s.nodes[i].log, aa.term, aa.prev, aa.entries);
  }

  lemma AppendedLog(s: Sys, i: nat, aa: AppArgs)
    requires InvL(s) && i < |s.nodes| && MsgOk(s, aa)
    ensures var n' := OnAppendEntries(s.nodes[i], aa).0;
      Traced(s.llog, n'.log) && Below(n'.log, n'.term)
  {
    assert LogOk(s, i) && LeaderLogOk(s, aa.term);
    if Accepts(s.nodes[i], aa) {
      Accepted(s, i, aa);
      hide InvL, TracedAt;
      TracedPrefix(s.llog, s.llog[aa.term], s.llog[aa.term][..Full(aa)]);
    }
  }

  lemma AppendLogs(s: Sys, i: nat, sn: nat, aa: AppArgs)
    requires InvL(s) && i < |s.nodes| && AppReq(i, sn, aa) in s.net
    requires s.nodes[i].role == Leader ==> s.nodes[i].term != aa.term
    ensures LStep(s, DoAppend(s, i, sn, aa), i)
  {
    hide Traced, Below, WF, LeaderLogOk, CandOk, MsgOk;
    var s' := DoAppend(s, i, sn, aa);
    assert LogOk(s, i) && PacketOk(s, AppReq(i, sn, aa));
    AppendedLog(s, i, aa);
    hide InvL, Merged;
    MsgStays(s, s', aa);
    assert LogOk(s', i);
  }

  lemma LAppend(s: Sys, i: nat, sn: nat, aa: AppArgs)
    requires InvE(s) && InvL(s) && i < |s.nodes| && AppReq(i, sn, aa) in s.net
    ensures InvL(DoAppend(s, i, sn, aa))
  {
    EAppend(s, i, sn, aa);
    assert s.nodes[i].role == Leader ==> s.nodes[i].term != aa.term;
    AppendLogs(s, i, sn, aa);
    hide *;
    LKept(s, DoAppend(s, i, sn, aa), i);
  }

  lemma RepInBounds(s: Sys, i: nat, peer: nat, ra: AppArgs, ar: AppReply)
    requires InvL(s) && i < |s.nodes| && peer < |s.nodes| && AppRep(peer, ra, ar) in s.net
    ensures InBounds(OnAppendReply(s.nodes[i], i, peer, ra, ar))
  {
    assert LogOk(s, i) && PacketOk(s, AppRep(peer, ra, ar));
    hide InvL, Traced, LeaderLogOk, CandOk;
  }

  lemma LAppendRep(s: Sys, i: nat, peer: nat, ra: AppArgs, ar: AppReply)
    requires InvE(s) && InvL(s) && i < |s.nodes| && peer < |s.nodes| && AppRep(peer, ra, ar) in s.net
    ensures InvL(DoAppendRep(s, i, peer, ra, ar))
  {
    var s' := DoAppendRep(s, i, peer, ra, ar);
    hide InvE, InvL;
    EAppendRep(s, i, peer, ra, ar);
    QuietAppendRep(s, i, peer, ra, ar);
    RepInBounds(s, i, peer, ra, ar);
    hide InBounds, Quiet, PacketOk;
    LQuiet(s, s', i);
  }

  lemma TracedAppend(ll: Logs, ll': Logs, log: seq<Entry>, e: Entry)
    requires Traced(ll, log) && Grows(ll, ll')
    requires e.term in ll' && ll'[e.term] == log + [e]
    ensures Traced(ll', log + [e])
  {
    TracedLater(ll, ll', log);
    forall k | 1 <= k < |log + [e]|
      ensures TracedAt(ll', log + [e], k)
    {
      if k < |log| {
        assert TracedAt(ll', log, k);
        assert (log + [e])[..k + 1] == log[..k + 1];
      }
    }
  }

  lemma StartLogs(s: Sys, i: nat, c: Cmd)
    requires InvL(s) && i < |s.nodes| && s.nodes[i].role == Leader
    ensures LStep(s, DoStart(s, i, c), i)
  {
    hide TracedAt, WF, PacketOk, CandOk, LFrame;
    var s' := DoStart(s, i, c);
    var n := s.nodes[i];
    assert LogOk(s, i) && LeaderLogOk(s, n.term);
    StartFrame(s, i, c);
    TracedAppend(s.llog, s'.llog, n.log, Entry(n.term, c));
    hide InvL, Traced, LNew;
    assert LogOk(s', i);
    StartNew(s, i, c);
  }

  lemma StartNew(s: Sys, i: nat, c: Cmd)
    requires Shape(s) && i < |s.nodes| && s.nodes[i].role == Leader && s.llog.Keys == s.elect.Keys
    requires s.nodes[i].term in s.llog && s.llog[s.nodes[i].term] == s.nodes[i].log && LeaderLogOk(s, s.nodes[i].term)
    requires Traced(DoStart(s, i, c).llog, s.nodes[i].log + [Entry(s.nodes[i].term, c)])
    ensures LNew(s, DoStart(s, i, c), i)
  {
    hide WF, Traced;
    assert LeaderLogOk(DoStart(s, i, c), s.nodes[i].term);
  }

  lemma StartFrame(s: Sys, i: nat, c: Cmd)
    requires Shape(s) && i < |s.nodes| && s.nodes[i].role == Leader && s.llog.Keys == s.elect.Keys
    requires s.nodes[i].term in s.llog && s.llog[s.nodes[i].term] == s.nodes[i].log
    ensures LFrame(s, DoStart(s, i, c), i) && Grows(s.llog, DoStart(s, i, c).llog)
  {
    hide WF;
  }

  lemma LStart(s: Sys, i: nat, c: Cmd)
    requires InvE(s) && InvL(s) && i < |s.nodes|
    ensures InvL(DoStart(s, i, c))
  {
    if s.nodes[i].role == Leader {
      EStart(s, i, c);
      StartLogs(s, i, c);
      hide *;
      LKept(s, DoStart(s, i, c), i);
    }
  }

  lemma LSolo(s: Sys, i: nat)
    requires InvE(s) && InvL(s) && i < |s.nodes|
    ensures InvL(DoSolo(s, i))
  {
    ESolo(s, i);
    QuietSolo(s, i);
    assert LogOk(s, i);
    assert InBounds(DoSolo(s, i).nodes[i]) && DoSolo(s, i).net == s.net;
    hide *;
    LQuiet(s, DoSolo(s, i), i);
  }

  lemma SnapInBounds(s: Sys, i: nat, term: nat)
    requires InvL(s) && i < |s.nodes|
    ensures InBounds(OnInstallSnapshot(s.nodes[i], term).0)
  {
    assert LogOk(s, i);
  }

  lemma LSnap(s: Sys, i: nat, leader: nat, term: nat)
    requires InvE(s) && InvL(s) && i < |s.nodes| && SnapReq(i, leader, term) in s.net
    ensures InvL(DoSnap(s, i, leader, term))
  {
    var s' := DoSnap(s, i, leader, term);
    ESnap(s, i, leader, term);
    QuietSnap(s, i, leader, term);
    SnapInBounds(s, i, term);
    SnapPackets(s, i, leader, term);
    assert InBounds(s'.nodes[i]);
    hide *;
    LQuiet(s, s', i);
  }

  lemma SnapPackets(s: Sys, i: nat, leader: nat, term: nat)
    requires Shape(s) && i < |s.nodes|
    ensures var s' := DoSnap(s, i, leader, term);
      forall p :: p in s'.net && p !in s.net ==> PacketOk(s', p)
  {
  }

  lemma LSnapRep(s: Sys, i: nat, peer: nat, rterm: nat)
    requires InvE(s) && InvL(s) && i < |s.nodes| && peer < |s.nodes|
    ensures InvL(DoSnapRep(s, i, peer, rterm))
  {
    var s' := DoSnapRep(s, i, peer, rterm);
    ESnapRep(s, i, peer, rterm);
    QuietSnapRep(s, i, peer, rterm);
    assert LogOk(s, i);
    assert InBounds(s'.nodes[i]) && s'.net == s.net;
    hide *;
    LQuiet(s, s', i);
  }

  lemma LApply(s: Sys, i: nat)
    requires InvE(s) && InvL(s) && i < |s.nodes|
    ensures InvL(DoApply(s, i))
  {
    EApply(s, i);
    QuietApply(s, i);
    assert LogOk(s, i);
    assert InBounds(DoApply(s, i).nodes[i]) && DoApply(s, i).net == s.net;
    hide *;
    LQuiet(s, DoApply(s, i), i);
  }

  lemma StepL(s: Sys, act: Action)
    requires InvE(s) && InvL(s) && Enabled(s, act)
    ensures InvL(Next(s, act))
  {
    assert Shape(s);
    hide InvE, InvL, WF, Counts;
    hide DoTimeout, DoRequestVote, DoVoteReply, DoSend, DoAppend, DoAppendRep, DoSolo, DoStart, DoSnap, DoSnapRep,
      DoApply;
    match act
    case Timeout(i) => LTimeout(s, i);
    case RecvVoteReq(i, va) => LRequestVote(s, i, va);
    case RecvVoteRep(i, voter, election, vr) => LVoteReply(s, i, voter, election, vr);
    case SendAppend(i, j) => LSend(s, i, j);
    case RecvAppend(i, sn, aa) => LAppend(s, i, sn, aa);
    case RecvAppendRep(i, peer, ra, ar) => LAppendRep(s, i, peer, ra, ar);
    case SoloCommit(i) => LSolo(s, i);
    case ClientStart(i, c) => LStart(s, i, c);
    case RecvSnap(i, leader, term) => LSnap(s, i, leader, term);
    case RecvSnapRep(i, peer, rterm) => LSnapRep(s, i, peer, rterm);
    case ApplyNext(i) => LApply(s, i);
  }
}
