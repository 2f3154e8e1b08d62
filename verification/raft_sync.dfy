/** As long as no late message cuts into it, a follower keeps what it confirmed to the leader of its term. */
module RaftSync {
  import opened RaftLog
  import opened RaftHandlers
  import opened RaftSystem
  import opened RaftElection
  import opened RaftMatching

  ghost predicate SyncKeyOk(s: Sys, k: (nat, nat))
    requires k in s.synced
  {
    && k.1 < |s.nodes| && k.0 <= s.nodes[k.1].term
    && k.0 in s.llog && s.synced[k] <= |s.llog[k.0]|
  }

  /** Within a term, the confirmed prefix is the leader's. */
  ghost predicate SyncOk(s: Sys, v: nat)
    requires v < |s.nodes|
  {
    var t := s.nodes[v].term;
    (t, v) in s.synced && t in s.llog ==>
      s.synced[(t, v)] <= |s.nodes[v].log| && s.synced[(t, v)] <= |s.llog[t]|
      && s.nodes[v].log[..s.synced[(t, v)]] == s.llog[t][..s.synced[(t, v)]]
  }

  ghost predicate LeaderSync(s: Sys, t: nat)
    requires t in s.elect && t in s.llog
  {
    Synced(s, t, s.elect[t].leader) == |s.llog[t]|
  }

  /** Acknowledgements never overstate what is confirmed. */
  ghost predicate PacketF(s: Sys, p: Packet) {
    p.AppRep? && p.ar.success ==> Full(p.ra) <= Synced(s, p.ra.term, p.peer)
  }

  /** The leader's matchIndex never runs ahead of what the follower confirmed. */
  ghost predicate MatchOk(s: Sys, i: nat)
    requires i < |s.nodes|
  {
    s.nodes[i].role == Leader ==>
      forall j :: 0 <= j < |s.nodes[i].matchIndex| && j != i && s.nodes[i].matchIndex[j] > 0 ==>
        s.nodes[i].matchIndex[j] < Synced(s, s.nodes[i].term, j)
  }

  ghost predicate InvF(s: Sys) {
    && (forall k :: k in s.synced ==> SyncKeyOk(s, k))
    && (forall v :: 0 <= v < |s.nodes| ==> SyncOk(s, v))
    && (forall t :: t in s.elect && t in s.llog ==> LeaderSync(s, t))
    && (forall p :: p in s.net ==> PacketF(s, p))
    && (forall i :: 0 <= i < |s.nodes| ==> MatchOk(s, i))
  }

  lemma InitF(size: nat)
    ensures InvF(Init(size))
  {
  }

  /** The confirmed prefixes only grow, and only node `i`'s in its present term. */
  ghost predicate SyncGrows(s: Sys, s': Sys, i: nat)
    requires i < |s'.nodes|
  {
    forall t, v :: 0 <= v < |s.nodes| ==>
      && Synced(s, t, v) <= Synced(s', t, v)
      && (v != i || t != s'.nodes[i].term ==> Synced(s, t, v) == Synced(s', t, v))
  }

  /** What a step of node `i` may do to confirmations and messages. */
  ghost predicate FStep(s: Sys, s': Sys, i: nat) {
    FFrame(s, s', i) && FSynced(s, s', i) && SyncOk(s', i) && MatchOk(s', i)
  }

  ghost predicate FFrame(s: Sys, s': Sys, i: nat) {
    && |s'.nodes| == |s.nodes| && i < |s.nodes|
    && (forall j :: 0 <= j < |s.nodes| && j != i ==> s'.nodes[j] == s.nodes[j])
    && s.nodes[i].term <= s'.nodes[i].term && Grows(s.llog, s'.llog)
  }

  ghost predicate FSynced(s: Sys, s': Sys, i: nat)
    requires i < |s'.nodes|
  {
    && (forall k :: k in s.synced && k != (s'.nodes[i].term, i) ==> k in s'.synced && s'.synced[k] == s.synced[k])
    && (forall k :: k in s'.synced && k != (s'.nodes[i].term, i) ==> k in s.synced)
    && ((s'.nodes[i].term, i) in s'.synced ==> SyncKeyOk(s', (s'.nodes[i].term, i)))
    && SyncGrows(s, s', i)
  }

  lemma NodesF(s: Sys, s': Sys, i: nat)
    requires InvF(s) && FStep(s, s', i)
    ensures forall k :: k in s'.synced ==> SyncKeyOk(s', k)
    ensures forall v :: 0 <= v < |s'.nodes| ==> SyncOk(s', v)
  {
    forall k | k in s'.synced
      ensures SyncKeyOk(s', k)
    {
      if k != (s'.nodes[i].term, i) {
        assert SyncKeyOk(s, k);
      }
    }
    forall v | 0 <= v < |s'.nodes|
      ensures SyncOk(s', v)
    {
      var t := s'.nodes[v].term;
      if v != i && (t, v) in s'.synced {
        assert SyncOk(s, v) && SyncKeyOk(s, (t, v));
      }
    }
  }

  lemma MatchF(s: Sys, s': Sys, i: nat)
    requires InvF(s) && FStep(s, s', i) && Shape(s)
    ensures forall j :: 0 <= j < |s'.nodes| ==> MatchOk(s', j)
  {
    forall j | 0 <= j < |s'.nodes|
      ensures MatchOk(s', j)
    {
      if j != i {
        assert MatchOk(s, j);
      }
    }
  }

  lemma FKept(s: Sys, s': Sys, i: nat)
    requires InvF(s) && FStep(s, s', i) && Shape(s)
    requires forall t :: t in s'.elect && t in s'.llog ==> LeaderSync(s', t)
    requires forall p :: p in s'.net ==> PacketF(s', p)
    ensures InvF(s')
  {
    NodesF(s, s', i);
    MatchF(s, s', i);
  }

  // ---- the steps ----

  /** New messages are numbered last and carry the sender's whole log. */
  ghost predicate FreshMsgs(s: Sys, s': Sys) {
    forall p :: p in s'.net && p !in s.net ==>
      && !p.AppRep?
      && (p.AppReq? ==> p.sn == s.clock + 1 == s'.clock && p.aa.term in s.llog && Full(p.aa) == |s.llog[p.aa.term]|)
  }

  lemma QuietPackets(s: Sys, s': Sys, i: nat)
    requires InvF(s) && Still(s, s', i) && FreshMsgs(s, s')
    ensures forall p :: p in s'.net ==> PacketF(s', p)
  {
    hide WF, Shape, MatchOk, SyncOk, LeaderSync, SyncKeyOk;
    forall p | p in s'.net
      ensures PacketF(s', p)
    {
      assert p in s.net ==> PacketF(s, p);
    }
  }

  lemma QuietSync(s: Sys, s': Sys, i: nat)
    requires InvF(s) && Still(s, s', i) && MatchOk(s', i)
    ensures FStep(s, s', i)
    ensures forall t :: t in s'.elect && t in s'.llog ==> LeaderSync(s', t)
  {
    hide WF, Shape, PacketF, MatchOk;
    assert SyncOk(s, i);
    var k := (s'.nodes[i].term, i);
    assert k in s.synced ==> SyncKeyOk(s, k);
    assert forall t :: t in s.elect && t in s.llog ==> LeaderSync(s, t);
  }

  lemma FStill(s: Sys, s': Sys, i: nat)
    requires InvL(s) && InvF(s) && Still(s, s', i) && MatchOk(s', i) && FreshMsgs(s, s')
    ensures InvF(s') && SyncGrows(s, s', i)
  {
    QuietPackets(s, s', i);
    QuietSync(s, s', i);
    assert Shape(s) && SyncGrows(s, s', i);
    hide *;
    FKept(s, s', i);
  }

  lemma FQuiet(s: Sys, s': Sys, i: nat)
    requires InvL(s) && InvF(s) && Quiet(s, s', i) && MatchOk(s', i) && FreshMsgs(s, s')
    ensures InvF(s') && SyncGrows(s, s', i)
  {
    assert Still(s, s', i);
    hide *;
    FStill(s, s', i);
  }

  /** Node `i` wins its term: nobody has confirmed or sent anything in it yet. */
  ghost predicate CrownStepF(s: Sys, s': Sys, i: nat) {
    && Shape(s) && Shape(s') && |s'.nodes| == |s.nodes| && i < |s.nodes|
    && (forall j :: 0 <= j < |s.nodes| && j != i ==> s'.nodes[j] == s.nodes[j])
    && s.nodes[i].term <= s'.nodes[i].term && s'.nodes[i].log == s.nodes[i].log
    && s'.nodes[i].role == Leader && s'.nodes[i].term !in s.elect
    && s'.nodes[i].matchIndex == seq(|s.nodes|, _ => 0)
    && s'.llog == s.llog[s'.nodes[i].term := s.nodes[i].log]
    && s'.elect.Keys == s.elect.Keys + {s'.nodes[i].term}
    && (forall t :: t in s.elect ==> s'.elect[t] == s.elect[t])
    && s'.elect[s'.nodes[i].term].leader == i && s'.elect[s'.nodes[i].term].log == s.nodes[i].log
    && s'.synced == s.synced[(s'.nodes[i].term, i) := |s.nodes[i].log|]
    && s'.delivered == s.delivered && s'.clock == s.clock
    && (forall p :: p in s'.net && p !in s.net ==> p.VoteReq?)
  }

  lemma CrownPackets(s: Sys, s': Sys, i: nat)
    requires InvL(s) && InvF(s) && CrownStepF(s, s', i)
    ensures forall p :: p in s'.net ==> PacketF(s', p)
  {
    hide Traced, LogOk, CandOk, WF, Shape, MatchOk, SyncOk, LeaderSync;
    forall p | p in s'.net
      ensures PacketF(s', p)
    {
      if p in s.net {
        assert PacketF(s, p) && PacketOk(s, p);
      }
    }
  }

  lemma CrownLeaders(s: Sys, s': Sys, i: nat)
    requires InvL(s) && InvF(s) && CrownStepF(s, s', i)
    ensures forall t :: t in s'.elect && t in s'.llog ==> LeaderSync(s', t)
  {
    hide WF, Shape, PacketF, PacketOk, LogOk, CandOk, LeaderLogOk, MatchOk, SyncOk;
    assert forall t :: t in s.elect && t in s.llog ==> LeaderSync(s, t);
  }

  lemma CrownSync(s: Sys, s': Sys, i: nat)
    requires InvL(s) && InvF(s) && CrownStepF(s, s', i)
    ensures FStep(s, s', i)
  {
    hide WF, Shape, PacketF, PacketOk, LogOk, CandOk, LeaderLogOk, LeaderSync, FFrame, FSynced, SyncOk, MatchOk;
    var k := (s'.nodes[i].term, i);
    assert forall k :: k in s.synced ==> SyncKeyOk(s, k);
    assert s'.nodes[i].term !in s.llog;
    hide InvL, InvF;
    CrownFrame(s, s', i);
    CrownSynced(s, s', i);
  }

  lemma CrownFrame(s: Sys, s': Sys, i: nat)
    requires CrownStepF(s, s', i) && s'.nodes[i].term !in s.llog
    ensures FFrame(s, s', i) && MatchOk(s', i)
  {
    hide WF;
  }

  lemma CrownSynced(s: Sys, s': Sys, i: nat)
    requires CrownStepF(s, s', i) && s'.nodes[i].term !in s.llog
    requires (s'.nodes[i].term, i) in s.synced ==> SyncKeyOk(s, (s'.nodes[i].term, i))
    ensures FSynced(s, s', i) && SyncOk(s', i)
  {
    hide WF;
  }

  lemma FCrown(s: Sys, s': Sys, i: nat)
    requires InvL(s) && InvF(s) && CrownStepF(s, s', i)
    ensures InvF(s') && SyncGrows(s, s', i)
  {
    CrownPackets(s, s', i);
    CrownSync(s, s', i);
    CrownLeaders(s, s', i);
    assert Shape(s) && SyncGrows(s, s', i);
    hide *;
    FKept(s, s', i);
  }

  lemma SoloCrown(s: Sys, i: nat)
    requires Shape(s) && i < |s.nodes| && |s.nodes| == 1 && s.nodes[i].term + 1 !in s.elect
    ensures CrownStepF(s, DoTimeout(s, i), i)
  {
  }

  lemma ReplyCrown(s: Sys, i: nat, voter: nat, election: nat, vr: VoteReply)
    requires Shape(s) && i < |s.nodes| && Crowns(s, i, election, vr) && election !in s.elect
    ensures CrownStepF(s, DoVoteReply(s, i, voter, election, vr), i)
  {
  }

  lemma StandStill(s: Sys, i: nat)
    requires Shape(s) && i < |s.nodes| && |s.nodes| > 1
    ensures var s' := DoTimeout(s, i); Still(s, s', i) && FreshMsgs(s, s') && MatchOk(s', i)
  {
  }

  lemma FTimeout(s: Sys, i: nat)
    requires InvE(s) && InvL(s) && InvF(s) && i < |s.nodes|
    ensures InvF(DoTimeout(s, i)) && SyncGrows(s, DoTimeout(s, i), i)
  {
    FreshTerm(s, i, s.nodes[i].term + 1);
    assert Shape(s);
    hide *;
    if |s.nodes| == 1 {
      SoloCrown(s, i);
      FCrown(s, DoTimeout(s, i), i);
    } else {
      StandStill(s, i);
      FStill(s, DoTimeout(s, i), i);
    }
  }

  lemma FVoteReply(s: Sys, i: nat, voter: nat, election: nat, vr: VoteReply)
    requires InvE(s) && InvL(s) && InvF(s) && i < |s.nodes|
    requires VoteRep(voter, i, election, vr) in s.net && (i, election, voter) in s.waiting
    ensures InvF(DoVoteReply(s, i, voter, election, vr)) && SyncGrows(s, DoVoteReply(s, i, voter, election, vr), i)
  {
    var s' := DoVoteReply(s, i, voter, election, vr);
    if Crowns(s, i, election, vr) {
      NewTerm(s, i, voter, election, vr);
      ReplyCrown(s, i, voter, election, vr);
      hide *;
      FCrown(s, s', i);
    } else {
      FVoteCounted(s, i, voter, election, vr);
    }
  }

  lemma FVoteCounted(s: Sys, i: nat, voter: nat, election: nat, vr: VoteReply)
    requires InvL(s) && InvF(s) && i < |s.nodes| && !Crowns(s, i, election, vr)
    ensures InvF(DoVoteReply(s, i, voter, election, vr)) && SyncGrows(s, DoVoteReply(s, i, voter, election, vr), i)
  {
    var s' := DoVoteReply(s, i, voter, election, vr);
    assert MatchOk(s, i);
    QuietVoteReply(s, i, voter, election, vr);
    hide InvL, InvF, Quiet;
    assert MatchOk(s', i) && FreshMsgs(s, s');
    FQuiet(s, s', i);
  }

  lemma FRequestVote(s: Sys, i: nat, va: VoteArgs)
    requires InvL(s) && InvF(s) && i < |s.nodes|
    ensures InvF(DoRequestVote(s, i, va)) && SyncGrows(s, DoRequestVote(s, i, va), i)
  {
    var s' := DoRequestVote(s, i, va);
    assert MatchOk(s, i);
    QuietRequestVote(s, i, va);
    hide InvL, InvF;
    assert MatchOk(s', i) && FreshMsgs(s, s');
    hide *;
    FQuiet(s, s', i);
  }

  lemma SentFresh(s: Sys, i: nat, j: nat)
    requires InvL(s) && i < |s.nodes| && j < |s.nodes| && s.nodes[i].role == Leader
    ensures FreshMsgs(s, DoSend(s, i, j))
  {
    assert LogOk(s, i);
    hide InvL, Traced;
  }

  lemma FSend(s: Sys, i: nat, j: nat)
    requires InvL(s) && InvF(s) && i < |s.nodes| && j < |s.nodes| && s.nodes[i].role == Leader
    ensures InvF(DoSend(s, i, j)) && SyncGrows(s, DoSend(s, i, j), i)
  {
    var s' := DoSend(s, i, j);
    assert MatchOk(s, i);
    QuietSend(s, i, j);
    SentFresh(s, i, j);
    assert MatchOk(s', i);
    hide *;
    FQuiet(s, s', i);
  }

  lemma RepMatchNode(s: Sys, i: nat, peer: nat, ra: AppArgs, ar: AppReply)
    requires Shape(s) && i < |s.nodes| && peer < |s.nodes| && MatchOk(s, i) && ra.prev >= 0
    requires ar.success ==> Full(ra) <= Synced(s, ra.term, peer)
    ensures MatchOk(DoAppendRep(s, i, peer, ra, ar), i)
  {
  }

  lemma RepMatch(s: Sys, i: nat, peer: nat, ra: AppArgs, ar: AppReply)
    requires InvL(s) && InvF(s) && i < |s.nodes| && peer < |s.nodes| && AppRep(peer, ra, ar) in s.net
    ensures MatchOk(DoAppendRep(s, i, peer, ra, ar), i)
  {
    assert MatchOk(s, i) && PacketF(s, AppRep(peer, ra, ar)) && PacketOk(s, AppRep(peer, ra, ar));
    hide InvF, MatchOk;
    RepMatchNode(s, i, peer, ra, ar);
  }

  lemma FAppendRep(s: Sys, i: nat, peer: nat, ra: AppArgs, ar: AppReply)
    requires InvL(s) && InvF(s) && i < |s.nodes| && peer < |s.nodes| && AppRep(peer, ra, ar) in s.net
    ensures InvF(DoAppendRep(s, i, peer, ra, ar)) && SyncGrows(s, DoAppendRep(s, i, peer, ra, ar), i)
  {
    var s' := DoAppendRep(s, i, peer, ra, ar);
    QuietAppendRep(s, i, peer, ra, ar);
    RepMatch(s, i, peer, ra, ar);
    assert FreshMsgs(s, s');
    hide *;
    FQuiet(s, s', i);
  }

  lemma FSolo(s: Sys, i: nat)
    requires InvL(s) && InvF(s) && i < |s.nodes|
    ensures InvF(DoSolo(s, i)) && SyncGrows(s, DoSolo(s, i), i)
  {
    var s' := DoSolo(s, i);
    assert MatchOk(s, i);
    QuietSolo(s, i);
    assert MatchOk(s', i) && FreshMsgs(s, s');
    hide *;
    FQuiet(s, s', i);
  }

  lemma FSnap(s: Sys, i: nat, leader: nat, term: nat)
    requires InvL(s) && InvF(s) && i < |s.nodes|
    ensures InvF(DoSnap(s, i, leader, term)) && SyncGrows(s, DoSnap(s, i, leader, term), i)
  {
    var s' := DoSnap(s, i, leader, term);
    assert MatchOk(s, i);
    QuietSnap(s, i, leader, term);
    assert MatchOk(s', i) && FreshMsgs(s, s');
    hide *;
    FQuiet(s, s', i);
  }

  lemma FSnapRep(s: Sys, i: nat, peer: nat, rterm: nat)
    requires InvL(s) && InvF(s) && i < |s.nodes| && peer < |s.nodes|
    ensures InvF(DoSnapRep(s, i, peer, rterm)) && SyncGrows(s, DoSnapRep(s, i, peer, rterm), i)
  {
    var s' := DoSnapRep(s, i, peer, rterm);
    assert MatchOk(s, i);
    QuietSnapRep(s, i, peer, rterm);
    assert MatchOk(s', i) && FreshMsgs(s, s');
    hide *;
    FQuiet(s, s', i);
  }

  lemma FApply(s: Sys, i: nat)
    requires InvL(s) && InvF(s) && i < |s.nodes|
    ensures InvF(DoApply(s, i)) && SyncGrows(s, DoApply(s, i), i)
  {
    var s' := DoApply(s, i);
    assert MatchOk(s, i);
    QuietApply(s, i);
    assert MatchOk(s', i) && FreshMsgs(s, s');
    hide *;
    FQuiet(s, s', i);
  }

  // ---- delivery of AppendEntries ----

  ghost predicate Handles(s: Sys, i: nat, sn: nat, aa: AppArgs) {
    && Shape(s) && i < |s.nodes| && AppReq(i, sn, aa) in s.net && Gentle(s, i, aa)
  }

  lemma AppendPackets(s: Sys, i: nat, sn: nat, aa: AppArgs)
    requires Shape(s) && i < |s.nodes|
    requires forall p :: p in s.net ==> PacketF(s, p)
    ensures forall p :: p in DoAppend(s, i, sn, aa).net ==> PacketF(DoAppend(s, i, sn, aa), p)
  {
    var s' := DoAppend(s, i, sn, aa);
    hide Merged, WF;
    forall p | p in s'.net
      ensures PacketF(s', p)
    {
      assert p in s.net ==> PacketF(s, p);
    }
  }

  lemma SyncAfter(s: Sys, i: nat, sn: nat, aa: AppArgs)
    requires Shape(s) && i < |s.nodes| && SyncOk(s, i) && Gentle(s, i, aa)
    requires (aa.term, i) in s.synced ==> aa.term <= s.nodes[i].term
    requires aa.term in s.llog && 0 <= Full(aa) <= |s.llog[aa.term]|
    requires Accepts(s.nodes[i], aa) ==>
      var log' := OnAppendEntries(s.nodes[i], aa).0.log;
      Full(aa) <= |log'| && log'[..Full(aa)] == s.llog[aa.term][..Full(aa)]
        && (aa.entries == [] ==> log' == s.nodes[i].log)
    ensures SyncOk(DoAppend(s, i, sn, aa), i)
  {
    hide Merged, Shape;
  }

  lemma AppendSyncOk(s: Sys, i: nat, sn: nat, aa: AppArgs)
    requires InvL(s) && i < |s.nodes| && MsgOk(s, aa) && SyncOk(s, i) && Gentle(s, i, aa)
    requires forall k :: k in s.synced ==> SyncKeyOk(s, k)
    ensures SyncOk(DoAppend(s, i, sn, aa), i)
  {
    assert (aa.term, i) in s.synced ==> SyncKeyOk(s, (aa.term, i));
    assert aa.term in s.llog && 0 <= Full(aa) <= |s.llog[aa.term]| && Shape(s);
    hide InvL, MsgOk, SyncOk, OnAppendEntries, Shape, Full, DoAppend;
    if Accepts(s.nodes[i], aa) {
      Accepted(s, i, aa);
    }
    SyncAfter(s, i, sn, aa);
  }

  lemma AppendMatch(s: Sys, i: nat, sn: nat, aa: AppArgs)
    requires Shape(s) && i < |s.nodes| && MatchOk(s, i)
    requires s.nodes[i].role == Leader ==> s.nodes[i].term != aa.term
    ensures MatchOk(DoAppend(s, i, sn, aa), i)
  {
    hide Merged, WF;
  }

  lemma AppendGrows(s: Sys, i: nat, sn: nat, aa: AppArgs)
    requires InvF(s) && Shape(s) && i < |s.nodes| && MsgOk(s, aa)
    requires SyncOk(DoAppend(s, i, sn, aa), i) && MatchOk(DoAppend(s, i, sn, aa), i)
    ensures FStep(s, DoAppend(s, i, sn, aa), i)
  {
    hide SyncOk, MatchOk, LeaderSync, PacketF, Merged, WF, FFrame, FSynced;
    var k := (aa.term, i);
    assert k in s.synced ==> SyncKeyOk(s, k);
    DeliverFrame(s, i, sn, aa);
    DeliverSynced(s, i, sn, aa);
  }

  lemma DeliverFrame(s: Sys, i: nat, sn: nat, aa: AppArgs)
    requires Shape(s) && i < |s.nodes|
    ensures FFrame(s, DoAppend(s, i, sn, aa), i)
  {
    hide Merged, WF;
  }

  lemma DeliverSynced(s: Sys, i: nat, sn: nat, aa: AppArgs)
    requires Shape(s) && i < |s.nodes| && MsgOk(s, aa)
    requires (aa.term, i) in s.synced ==> SyncKeyOk(s, (aa.term, i))
    requires forall k :: k in s.synced ==> SyncKeyOk(s, k)
    ensures FSynced(s, DoAppend(s, i, sn, aa), i)
  {
    hide Merged, WF;
    var s' := DoAppend(s, i, sn, aa);
    if (s'.nodes[i].term, i) in s.synced {
      assert SyncKeyOk(s, (s'.nodes[i].term, i));
    }
  }

  lemma AppendLeaders(s: Sys, i: nat, sn: nat, aa: AppArgs)
    requires InvF(s) && Shape(s) && i < |s.nodes|
    requires aa.term in s.elect && s.elect[aa.term].leader != i
    ensures var s' := DoAppend(s, i, sn, aa);
      forall t :: t in s'.elect && t in s'.llog ==> LeaderSync(s', t)
  {
    assert forall t :: t in s.elect && t in s.llog ==> LeaderSync(s, t);
    hide InvF, Merged, WF;
  }

  lemma FAppendFinish(s: Sys, i: nat, sn: nat, aa: AppArgs)
    requires InvL(s) && InvF(s) && Handles(s, i, sn, aa) && MsgOk(s, aa)
    requires s.nodes[i].role == Leader ==> s.nodes[i].term != aa.term
    requires aa.term in s.elect && s.elect[aa.term].leader != i
    ensures InvF(DoAppend(s, i, sn, aa)) && SyncGrows(s, DoAppend(s, i, sn, aa), i)
  {
    var s' := DoAppend(s, i, sn, aa);
    assert Shape(s) && SyncOk(s, i) && MatchOk(s, i) && Gentle(s, i, aa);
    assert forall k :: k in s.synced ==> SyncKeyOk(s, k);
    assert forall p :: p in s.net ==> PacketF(s, p);
    hide InvL, InvF, Shape, SyncOk, MatchOk, PacketF, SyncKeyOk, DoAppend, MsgOk, Gentle;
    AppendPackets(s, i, sn, aa);
    AppendSyncOk(s, i, sn, aa);
    AppendMatch(s, i, sn, aa);
    AppendGrows(s, i, sn, aa);
    AppendLeaders(s, i, sn, aa);
    assert SyncGrows(s, s', i);
    hide *;
    FKept(s, s', i);
  }

  lemma FAppend(s: Sys, i: nat, sn: nat, aa: AppArgs)
    requires InvE(s) && InvL(s) && InvF(s) && Handles(s, i, sn, aa)
    ensures InvF(DoAppend(s, i, sn, aa)) && SyncGrows(s, DoAppend(s, i, sn, aa), i)
  {
    assert s.nodes[i].role == Leader ==> s.nodes[i].term != aa.term;
    assert aa.term in s.elect && s.elect[aa.term].leader != i;
    assert PacketOk(s, AppReq(i, sn, aa)) && SyncOk(s, i) && MatchOk(s, i);
    hide InvE, InvL, SyncOk, MatchOk, DoAppend, Gentle;
    FAppendFinish(s, i, sn, aa);
  }

  // ---- a new entry at the leader ----

  lemma StartSync(s: Sys, i: nat, c: Cmd)
    requires InvL(s) && InvF(s) && i < |s.nodes| && s.nodes[i].role == Leader
    ensures FStep(s, DoStart(s, i, c), i)
  {
    hide Traced, CandOk, LeaderLogOk, LeaderSync, WF, PacketF, PacketOk, FSynced, SyncOk;
    assert LogOk(s, i) && MatchOk(s, i);
    var k := (s.nodes[i].term, i);
    assert k in s.synced ==> SyncKeyOk(s, k);
    hide InvL, InvF, LogOk;
    StartSynced(s, i, c);
  }

  lemma StartSynced(s: Sys, i: nat, c: Cmd)
    requires Shape(s) && i < |s.nodes| && s.nodes[i].role == Leader
    requires s.nodes[i].term in s.llog && s.llog[s.nodes[i].term] == s.nodes[i].log
    requires var k := (s.nodes[i].term, i); k in s.synced ==> SyncKeyOk(s, k)
    ensures FSynced(s, DoStart(s, i, c), i) && SyncOk(DoStart(s, i, c), i)
  {
    hide WF;
  }

  lemma StartLeaders(s: Sys, i: nat, c: Cmd)
    requires InvF(s) && Shape(s) && i < |s.nodes| && s.nodes[i].role == Leader
    requires s.nodes[i].term in s.elect && s.elect[s.nodes[i].term].leader == i
    ensures var s' := DoStart(s, i, c);
      forall t :: t in s'.elect && t in s'.llog && t != s.nodes[i].term ==> LeaderSync(s', t)
    ensures var s' := DoStart(s, i, c); LeaderSync(s', s.nodes[i].term)
  {
    hide WF, PacketF, MatchOk, SyncOk;
    assert forall t :: t in s.elect && t in s.llog ==> LeaderSync(s, t);
    hide InvF;
  }

  lemma StartPackets(s: Sys, i: nat, c: Cmd)
    requires InvF(s) && Shape(s) && i < |s.nodes| && s.nodes[i].role == Leader
    requires Synced(s, s.nodes[i].term, i) <= |s.nodes[i].log|
    ensures forall p :: p in DoStart(s, i, c).net ==> PacketF(DoStart(s, i, c), p)
  {
    hide WF, MatchOk, SyncOk, LeaderSync, SyncKeyOk;
    forall p | p in s.net
      ensures PacketF(DoStart(s, i, c), p)
    {
      assert PacketF(s, p);
    }
  }

  lemma StartFits(s: Sys, i: nat)
    requires InvL(s) && InvF(s) && i < |s.nodes| && s.nodes[i].role == Leader
    ensures Synced(s, s.nodes[i].term, i) <= |s.nodes[i].log|
  {
    var k := (s.nodes[i].term, i);
    assert LogOk(s, i);
    assert k in s.synced ==> SyncKeyOk(s, k);
  }

  lemma FStart(s: Sys, i: nat, c: Cmd)
    requires InvE(s) && InvL(s) && InvF(s) && i < |s.nodes|
    ensures InvF(DoStart(s, i, c)) && SyncGrows(s, DoStart(s, i, c), i)
  {
    var s' := DoStart(s, i, c);
    if s.nodes[i].role == Leader {
      assert s.nodes[i].term in s.elect && s.elect[s.nodes[i].term].leader == i;
      StartFits(s, i);
      StartPackets(s, i, c);
      StartSync(s, i, c);
      StartLeaders(s, i, c);
      assert Shape(s) && SyncGrows(s, s', i);
      hide *;
      FKept(s, s', i);
    }
  }

  lemma StepF(s: Sys, act: Action)
    requires InvE(s) && InvL(s) && InvF(s) && Enabled(s, act) && Spares(s, act)
    ensures InvF(Next(s, act)) && SyncGrows(s, Next(s, act), act.i)
  {
    assert Shape(s);
    hide InvE, InvL, InvF, WF, Counts, SyncGrows, Shape, Gentle;
    hide DoTimeout, DoRequestVote, DoVoteReply, DoSend, DoAppend, DoAppendRep, DoSolo, DoStart, DoSnap, DoSnapRep,
      DoApply;
    match act
    case Timeout(i) => FTimeout(s, i);
    case RecvVoteReq(i, va) => FRequestVote(s, i, va);
    case RecvVoteRep(i, voter, election, vr) => FVoteReply(s, i, voter, election, vr);
    case SendAppend(i, j) => FSend(s, i, j);
    case RecvAppend(i, sn, aa) => FAppend(s, i, sn, aa);
    case RecvAppendRep(i, peer, ra, ar) => FAppendRep(s, i, peer, ra, ar);
    case SoloCommit(i) => FSolo(s, i);
    case ClientStart(i, c) => FStart(s, i, c);
    case RecvSnap(i, leader, term) => FSnap(s, i, leader, term);
    case RecvSnapRep(i, peer, rterm) => FSnapRep(s, i, peer, rterm);
    case ApplyNext(i) => FApply(s, i);
  }
}
