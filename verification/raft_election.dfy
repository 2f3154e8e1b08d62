/** Election safety, for any delivery order: one vote per node and term, hence one leader per term. */
module RaftElection {
  import opened RaftLog
  import opened RaftHandlers
  import opened RaftSystem

  /** A vote once cast binds its node for the rest of that term. */
  ghost predicate VotesOk(s: Sys) {
    forall k :: k in s.votes ==>
      && k.0 < |s.nodes| && 1 <= k.1 <= s.nodes[k.0].term
      && (k.1 == s.nodes[k.0].term ==> s.nodes[k.0].vote == s.votes[k])
  }

  ghost predicate RepliesOk(s: Sys) {
    forall p :: p in s.net && p.VoteRep? && p.vr.granted ==>
      (p.voter, p.election) in s.votes && s.votes[(p.voter, p.election)] == p.cand
  }

  ghost predicate WaitingOk(s: Sys) {
    forall w :: w in s.waiting ==>
      w.0 < |s.nodes| && w.2 < |s.nodes| && w.0 != w.2 && w.1 <= s.nodes[w.0].term
  }

  /** A candidate's counter counts distinct voters of its term, none of whose replies is still out. */
  ghost predicate TallyOk(s: Sys, i: nat)
    requires Shape(s) && i < |s.nodes|
  {
    var t := s.nodes[i].term;
    && t >= 1 && i in s.tally[i] && |s.tally[i]| == s.nodes[i].votes
    && forall v :: v in s.tally[i] ==>
         (v, t) in s.votes && s.votes[(v, t)] == i && (i, t, v) !in s.waiting
  }

  ghost predicate TalliesOk(s: Sys)
    requires Shape(s)
  {
    forall i :: 0 <= i < |s.nodes| && s.nodes[i].role == Candidate ==> TallyOk(s, i)
  }

  /** The winner of a term had a majority, and it leads that term or has left it. */
  ghost predicate WonOk(s: Sys, t: nat)
    requires t in s.elect
  {
    var e := s.elect[t];
    && t >= 1 && e.leader < |s.nodes| && Majority(e.voters, |s.nodes|)
    && (forall v :: v in e.voters ==> (v, t) in s.votes && s.votes[(v, t)] == e.leader)
    && (s.nodes[e.leader].term > t || (s.nodes[e.leader].term == t && s.nodes[e.leader].role == Leader))
  }

  ghost predicate ElectOk(s: Sys) {
    forall t :: t in s.elect ==> WonOk(s, t)
  }

  ghost predicate LeadersOk(s: Sys) {
    forall i :: 0 <= i < |s.nodes| && s.nodes[i].role == Leader ==>
      s.nodes[i].term in s.elect && s.elect[s.nodes[i].term].leader == i
  }

  /** Only the winner of a term sends in it, and never to itself. */
  ghost predicate SendersOk(s: Sys) {
    forall p :: p in s.net ==>
      match p
      case AppReq(to, sn, aa) => aa.term in s.elect && s.elect[aa.term].leader == aa.leader != to
      case SnapReq(to, leader, t) => t in s.elect && s.elect[t].leader == leader != to
      case VoteReq(va) => va.term >= 1
      case _ => true
  }

  ghost predicate InvE(s: Sys) {
    && Shape(s) && VotesOk(s) && RepliesOk(s) && WaitingOk(s) && TalliesOk(s)
    && ElectOk(s) && LeadersOk(s) && SendersOk(s)
  }

  lemma InitE(size: nat)
    ensures InvE(Init(size))
  {
  }

  /** What a step of node `i` may do, as far as elections are concerned. */
  ghost predicate EStep(s: Sys, s': Sys, i: nat)
    requires Shape(s) && Shape(s') && |s.nodes| == |s'.nodes| && i < |s.nodes|
  {
    ENodes(s, s', i) && EVotes(s, s', i) && EWins(s, s', i)
  }

  ghost predicate ENodes(s: Sys, s': Sys, i: nat)
    requires Shape(s) && Shape(s') && |s.nodes| == |s'.nodes| && i < |s.nodes|
  {
    var n, n' := s.nodes[i], s'.nodes[i];
    && (forall j :: 0 <= j < |s.nodes| && j != i ==> s'.nodes[j] == s.nodes[j] && s'.tally[j] == s.tally[j])
    && n.term <= n'.term
    && (n.term == n'.term && n.vote != -1 ==> n'.vote == n.vote)
    && (n.role == Leader && n'.term == n.term ==> n'.role == Leader)
  }

  ghost predicate EVotes(s: Sys, s': Sys, i: nat)
    requires i < |s.nodes| && i < |s'.nodes|
  {
    var n, n' := s.nodes[i], s'.nodes[i];
    && (forall k :: k in s.votes ==> k in s'.votes && s'.votes[k] == s.votes[k])
    && (forall k :: k in s'.votes ==> k in s.votes || (k == (i, n'.term) && n'.term >= 1 && s'.votes[k] == n'.vote))
    && (forall w :: w in s'.waiting ==>
          w in s.waiting || (w.0 == i && w.1 == n'.term > n.term && w.2 < |s.nodes| && w.2 != i))
  }

  ghost predicate EWins(s: Sys, s': Sys, i: nat)
    requires Shape(s) && Shape(s') && |s.nodes| == |s'.nodes| && i < |s.nodes|
  {
    var n, n' := s.nodes[i], s'.nodes[i];
    && (n'.role == Candidate ==> TallyOk(s', i))
    && (s'.elect == s.elect || (n'.role == Leader && n'.term !in s.elect && Crowned(s, s', i)))
    && (n'.role == Leader ==> (n.role == Leader && n.term == n'.term) || Crowned(s, s', i))
  }

  /** The history gained the win of `i`, by the votes its counter had counted. */
  ghost predicate Crowned(s: Sys, s': Sys, i: nat)
    requires Shape(s') && i < |s'.nodes|
  {
    var t := s'.nodes[i].term;
    && t >= 1 && t in s'.elect && s'.elect == s.elect[t := s'.elect[t]]
    && s'.elect[t].leader == i && s'.elect[t].voters == s'.tally[i]
    && Majority(s'.tally[i], |s'.nodes|)
    && forall v :: v in s'.tally[i] ==> (v, t) in s'.votes && s'.votes[(v, t)] == i
  }

  /** A majority's candidate has no rival: nobody won its term before. */
  lemma NoRival(s: Sys, t: nat, i: nat, q: set<nat>)
    requires InvE(s) && Majority(q, |s.nodes|)
    requires forall v :: v in q ==> (v, t) in s.votes && s.votes[(v, t)] == i
    requires i < |s.nodes| && s.nodes[i].term == t && s.nodes[i].role != Leader
    ensures t !in s.elect
  {
    if t in s.elect {
      assert WonOk(s, t);
      var w := Quorum(q, s.elect[t].voters, |s.nodes|);
      assert false;
    }
  }

  lemma VotesKept(s: Sys, s': Sys, i: nat)
    requires Shape(s) && Shape(s') && |s.nodes| == |s'.nodes| && i < |s.nodes|
    requires VotesOk(s) && WaitingOk(s) && ENodes(s, s', i) && EVotes(s, s', i)
    ensures VotesOk(s') && WaitingOk(s')
  {
    hide WF;
    forall k | k in s'.votes
      ensures k.0 < |s'.nodes| && 1 <= k.1 <= s'.nodes[k.0].term
      ensures k.1 == s'.nodes[k.0].term ==> s'.nodes[k.0].vote == s'.votes[k]
    {
      if k in s.votes {
        assert s.votes[k] >= 0;
      }
    }
  }

  lemma TalliesKept(s: Sys, s': Sys, i: nat)
    requires Shape(s) && Shape(s') && |s.nodes| == |s'.nodes| && i < |s.nodes|
    requires TalliesOk(s) && EStep(s, s', i)
    ensures TalliesOk(s')
  {
    hide WF, Crowned;
    forall j | 0 <= j < |s.nodes| && s'.nodes[j].role == Candidate
      ensures TallyOk(s', j)
    {
      if j != i {
        assert TallyOk(s, j);
      }
    }
  }

  lemma WinsKept(s: Sys, s': Sys, i: nat)
    requires Shape(s) && Shape(s') && |s.nodes| == |s'.nodes| && i < |s.nodes|
    requires ElectOk(s) && EStep(s, s', i)
    ensures ElectOk(s')
  {
    hide WF, TallyOk;
    forall u | u in s'.elect
      ensures WonOk(s', u)
    {
      if u in s.elect {
        assert WonOk(s, u);
      }
    }
  }

  lemma LeadersKept(s: Sys, s': Sys, i: nat)
    requires Shape(s) && Shape(s') && |s.nodes| == |s'.nodes| && i < |s.nodes|
    requires LeadersOk(s) && ENodes(s, s', i) && EWins(s, s', i)
    ensures LeadersOk(s')
    ensures forall t :: t in s.elect ==> t in s'.elect && s'.elect[t] == s.elect[t]
  {
    hide WF, TallyOk, Majority;
    assert s'.elect != s.elect ==> s'.nodes[i].term !in s.elect;
  }

  lemma EKept(s: Sys, s': Sys, i: nat)
    requires InvE(s) && Shape(s') && |s.nodes| == |s'.nodes| && i < |s.nodes| && EStep(s, s', i)
    requires RepliesOk(s') && SendersOk(s')
    ensures InvE(s')
  {
    hide Shape, VotesOk, RepliesOk, WaitingOk, TalliesOk, ElectOk, LeadersOk, SendersOk, ENodes, EVotes, EWins;
    VotesKept(s, s', i);
    TalliesKept(s, s', i);
    WinsKept(s, s', i);
    LeadersKept(s, s', i);
  }

  /** Packets of node `i` that say nothing new, or report the vote it just recorded. */
  ghost predicate Harmless(s: Sys, p: Packet) {
    match p
    case VoteRep(voter, cand, election, vr) =>
      vr.granted ==> (voter, election) in s.votes && s.votes[(voter, election)] == cand
    case VoteReq(va) => va.term >= 1
    case AppReq(_, _, _) => false
    case SnapReq(_, _, _) => false
    case _ => true
  }

  lemma PacketsStay(s: Sys, s': Sys)
    requires RepliesOk(s) && SendersOk(s)
    requires forall k :: k in s.votes ==> k in s'.votes && s'.votes[k] == s.votes[k]
    requires forall t :: t in s.elect ==> t in s'.elect && s'.elect[t] == s.elect[t]
    requires forall p :: p in s'.net ==> p in s.net || Harmless(s', p)
    ensures RepliesOk(s') && SendersOk(s')
  {
  }

  lemma FreshTerm(s: Sys, i: nat, t: nat)
    requires InvE(s) && i < |s.nodes| && t > s.nodes[i].term
    ensures (i, t) !in s.votes
    ensures |s.nodes| == 1 ==> t !in s.elect
  {
    assert t in s.elect ==> WonOk(s, t);
  }

  lemma StandsNodes(s: Sys, i: nat)
    requires Shape(s) && i < |s.nodes| && (i, s.nodes[i].term + 1) !in s.votes
    ensures ENodes(s, DoTimeout(s, i), i)
  {
    hide WF;
  }

  lemma StandsVotes(s: Sys, i: nat)
    requires Shape(s) && i < |s.nodes| && (i, s.nodes[i].term + 1) !in s.votes
    ensures EVotes(s, DoTimeout(s, i), i)
  {
    hide WF;
  }

  lemma StandsWins(s: Sys, i: nat)
    requires Shape(s) && i < |s.nodes| && WaitingOk(s)
    requires |s.nodes| == 1 ==> s.nodes[i].term + 1 !in s.elect
    ensures EWins(s, DoTimeout(s, i), i)
  {
    hide WF;
    var s' := DoTimeout(s, i);
    assert s'.tally[i] == {i};
    if s'.nodes[i].role == Leader {
      assert Majority({i}, |s.nodes|);
      assert Crowned(s, s', i);
    } else {
      assert TallyOk(s', i);
    }
  }

  lemma TimeoutStep(s: Sys, i: nat)
    requires InvE(s) && i < |s.nodes|
    ensures EStep(s, DoTimeout(s, i), i)
  {
    FreshTerm(s, i, s.nodes[i].term + 1);
    assert Shape(s) && WaitingOk(s);
    hide InvE, Shape, WaitingOk, DoTimeout, ENodes, EVotes, EWins;
    StandsNodes(s, i);
    StandsVotes(s, i);
    StandsWins(s, i);
  }

  lemma ETimeout(s: Sys, i: nat)
    requires InvE(s) && i < |s.nodes|
    ensures InvE(DoTimeout(s, i))
  {
    var s' := DoTimeout(s, i);
    TimeoutStep(s, i);
    hide InvE, EStep;
    assert forall p :: p in s'.net ==> p in s.net || Harmless(s', p);
    EFinish(s, s', i);
  }

  /** A step that sends nothing in the name of a leader. */
  lemma EFinish(s: Sys, s': Sys, i: nat)
    requires InvE(s) && Shape(s') && |s.nodes| == |s'.nodes| && i < |s.nodes| && EStep(s, s', i)
    requires forall p :: p in s'.net ==> p in s.net || Harmless(s', p)
    ensures InvE(s')
  {
    LeadersKept(s, s', i);
    PacketsStay(s, s');
    hide *;
    EKept(s, s', i);
  }

  lemma RequestVoteStep(s: Sys, i: nat, va: VoteArgs)
    requires InvE(s) && i < |s.nodes| && VoteReq(va) in s.net && i != va.cand
    ensures EStep(s, DoRequestVote(s, i, va), i)
  {
    var s' := DoRequestVote(s, i, va);
    var r := OnRequestVote(s.nodes[i], va).1;
    if r.granted && (i, va.term) in s.votes {
      assert s.votes[(i, va.term)] == va.cand;
    }
    if s'.nodes[i].role == Candidate {
      assert TallyOk(s, i);
    }
  }

  lemma ERequestVote(s: Sys, i: nat, va: VoteArgs)
    requires InvE(s) && i < |s.nodes| && VoteReq(va) in s.net && i != va.cand
    ensures InvE(DoRequestVote(s, i, va))
  {
    var s' := DoRequestVote(s, i, va);
    RequestVoteStep(s, i, va);
    hide InvE, EStep;
    assert forall p :: p in s'.net ==> p in s.net || Harmless(s', p);
    EFinish(s, s', i);
  }

  /** A counted vote is a new one. */
  lemma TallyGrows(s: Sys, i: nat, voter: nat, election: nat, vr: VoteReply) returns (q: set<nat>)
    requires InvE(s) && i < |s.nodes|
    requires VoteRep(voter, i, election, vr) in s.net && (i, election, voter) in s.waiting
    requires Counts(s.nodes[i], election, vr)
    ensures q == s.tally[i] + {voter} && |q| == s.nodes[i].votes + 1 && i in q
    ensures forall v :: v in q ==> v < |s.nodes| && (v, election) in s.votes && s.votes[(v, election)] == i
    ensures forall v :: v in q && v != voter ==> (i, election, v) !in s.waiting
    ensures Majority(q, |s.nodes|) ==> election !in s.elect
  {
    assert TallyOk(s, i);
    q := s.tally[i] + {voter};
    assert voter !in s.tally[i];
    if Majority(q, |s.nodes|) {
      NoRival(s, election, i, q);
    }
  }

  lemma NewTerm(s: Sys, i: nat, voter: nat, election: nat, vr: VoteReply)
    requires InvE(s) && i < |s.nodes|
    requires VoteRep(voter, i, election, vr) in s.net && (i, election, voter) in s.waiting
    requires Crowns(s, i, election, vr)
    ensures election !in s.elect
  {
    var q := TallyGrows(s, i, voter, election, vr);
  }

  lemma VoteReplyStep(s: Sys, i: nat, voter: nat, election: nat, vr: VoteReply)
    requires InvE(s) && i < |s.nodes|
    requires VoteRep(voter, i, election, vr) in s.net && (i, election, voter) in s.waiting
    ensures EStep(s, DoVoteReply(s, i, voter, election, vr), i)
  {
    assert Shape(s);
    assert s.nodes[i].role == Candidate ==> TallyOk(s, i);
    if Counts(s.nodes[i], election, vr) {
      var q := TallyGrows(s, i, voter, election, vr);
      hide InvE, Shape, TallyOk, DoVoteReply, ENodes, EVotes, EWins, Counts;
      ReplyNodes(s, i, voter, election, vr);
      ReplyVotes(s, i, voter, election, vr);
      CountedWins(s, i, voter, election, vr, q);
    } else {
      hide InvE, Shape, TallyOk, DoVoteReply, ENodes, EVotes, EWins, Counts;
      ReplyNodes(s, i, voter, election, vr);
      ReplyVotes(s, i, voter, election, vr);
      IgnoredWins(s, i, voter, election, vr);
    }
  }

  lemma ReplyNodes(s: Sys, i: nat, voter: nat, election: nat, vr: VoteReply)
    requires Shape(s) && i < |s.nodes|
    ensures ENodes(s, DoVoteReply(s, i, voter, election, vr), i)
  {
    ReplyNode(s.nodes[i], |s.nodes|, election, vr);
    ReplyChanges(s, i, voter, election, vr);
    ReplyTallies(s, i, voter, election, vr);
    hide WF, OnVoteReply, DoVoteReply;
  }

  lemma ReplyChanges(s: Sys, i: nat, voter: nat, election: nat, vr: VoteReply)
    requires Shape(s) && i < |s.nodes|
    ensures var s' := DoVoteReply(s, i, voter, election, vr);
      s'.nodes == s.nodes[i := OnVoteReply(s.nodes[i], |s.nodes|, election, vr)]
  {
    hide WF, Shape, OnVoteReply, Counts;
  }

  lemma ReplyTallies(s: Sys, i: nat, voter: nat, election: nat, vr: VoteReply)
    requires Shape(s) && i < |s.nodes|
    ensures var s' := DoVoteReply(s, i, voter, election, vr);
      s'.tally == if Counts(s.nodes[i], election, vr) then s.tally[i := s.tally[i] + {voter}] else s.tally
  {
    assert i < |s.tally|;
    hide WF, Shape, OnVoteReply, Counts, Crown;
  }

  lemma ReplyVotes(s: Sys, i: nat, voter: nat, election: nat, vr: VoteReply)
    requires Shape(s) && i < |s.nodes|
    ensures EVotes(s, DoVoteReply(s, i, voter, election, vr), i)
  {
    hide WF, OnVoteReply;
  }

  lemma ReplyNode(n: Node, size: nat, election: nat, vr: VoteReply)
    ensures var n' := OnVoteReply(n, size, election, vr);
      && n.term <= n'.term && (n.term == n'.term ==> n'.vote == n.vote) && (n.role == Leader ==> n' == n)
  {
  }

  lemma CountedWins(s: Sys, i: nat, voter: nat, election: nat, vr: VoteReply, q: set<nat>)
    requires Shape(s) && i < |s.nodes| && Counts(s.nodes[i], election, vr) && TallyOk(s, i)
    requires q == s.tally[i] + {voter} && |q| == s.nodes[i].votes + 1
    requires forall v :: v in q ==> v < |s.nodes| && (v, election) in s.votes && s.votes[(v, election)] == i
    requires forall v :: v in q && v != voter ==> (i, election, v) !in s.waiting
    requires Majority(q, |s.nodes|) ==> election !in s.elect
    ensures EWins(s, DoVoteReply(s, i, voter, election, vr), i)
  {
    var s' := DoVoteReply(s, i, voter, election, vr);
    var n := OnVoteReply(s.nodes[i], |s.nodes|, election, vr);
    CountedNode(s.nodes[i], |s.nodes|, election, vr);
    assert election >= 1 && i in s.tally[i];
    hide OnVoteReply, WF, Crowned, TallyOk;
    if 2 * |q| > |s.nodes| {
      CountedLeads(s, i, voter, election, vr, q);
    } else {
      CountedStands(s, i, voter, election, vr, q);
    }
  }

  lemma CountedNode(n: Node, size: nat, election: nat, vr: VoteReply)
    requires Counts(n, election, vr)
    ensures var n' := OnVoteReply(n, size, election, vr);
      && n'.term == election && n'.votes == n.votes + 1
      && n'.role == if 2 * (n.votes + 1) > size then Leader else Candidate
  {
  }

  lemma CountedLeads(s: Sys, i: nat, voter: nat, election: nat, vr: VoteReply, q: set<nat>)
    requires Shape(s) && i < |s.nodes| && Counts(s.nodes[i], election, vr) && election >= 1
    requires OnVoteReply(s.nodes[i], |s.nodes|, election, vr).role == Leader
    requires OnVoteReply(s.nodes[i], |s.nodes|, election, vr).term == election
    requires q == s.tally[i] + {voter} && Majority(q, |s.nodes|)
    requires forall v :: v in q ==> (v, election) in s.votes && s.votes[(v, election)] == i
    ensures Crowned(s, DoVoteReply(s, i, voter, election, vr), i)
  {
    hide OnVoteReply, WF, Majority;
  }

  lemma CountedStands(s: Sys, i: nat, voter: nat, election: nat, vr: VoteReply, q: set<nat>)
    requires Shape(s) && i < |s.nodes| && Counts(s.nodes[i], election, vr) && election >= 1 && i in s.tally[i]
    requires var n' := OnVoteReply(s.nodes[i], |s.nodes|, election, vr);
      n'.role == Candidate && n'.term == election && n'.votes == |q|
    requires q == s.tally[i] + {voter}
    requires forall v :: v in q ==> (v, election) in s.votes && s.votes[(v, election)] == i
    requires forall v :: v in q && v != voter ==> (i, election, v) !in s.waiting
    ensures TallyOk(DoVoteReply(s, i, voter, election, vr), i)
  {
    hide OnVoteReply, WF;
  }

  lemma IgnoredWins(s: Sys, i: nat, voter: nat, election: nat, vr: VoteReply)
    requires Shape(s) && i < |s.nodes| && !Counts(s.nodes[i], election, vr)
    requires s.nodes[i].role == Candidate ==> TallyOk(s, i)
    ensures EWins(s, DoVoteReply(s, i, voter, election, vr), i)
  {
    hide WF;
  }

  lemma EVoteReply(s: Sys, i: nat, voter: nat, election: nat, vr: VoteReply)
    requires InvE(s) && i < |s.nodes|
    requires VoteRep(voter, i, election, vr) in s.net && (i, election, voter) in s.waiting
    ensures InvE(DoVoteReply(s, i, voter, election, vr))
  {
    var s' := DoVoteReply(s, i, voter, election, vr);
    VoteReplyStep(s, i, voter, election, vr);
    hide InvE, EStep;
    EFinish(s, s', i);
  }

  /** The remaining steps leave votes and elections alone; at most they move a node to a later term. */
  ghost predicate QuietStep(s: Sys, s': Sys, i: nat)
    requires Shape(s) && i < |s.nodes|
  {
    && Shape(s') && |s.nodes| == |s'.nodes|
    && (forall j :: 0 <= j < |s.nodes| && j != i ==> s'.nodes[j] == s.nodes[j])
    && (s'.votes, s'.waiting, s'.tally, s'.elect) == (s.votes, s.waiting, s.tally, s.elect)
    && QuietNode(s.nodes[i], s'.nodes[i])
    && forall p :: p in s'.net && p !in s.net ==> !p.VoteRep?
  }

  ghost predicate QuietNode(n: Node, n': Node) {
    && n.term <= n'.term
    && (n'.term == n.term && n.vote != -1 ==> n'.vote == n.vote)
    && ((n'.role == n.role && n'.term == n.term && n'.votes == n.votes)
        || (n'.role == Follower && (n.role == Leader ==> n'.term > n.term)))
  }

  lemma EQuiet(s: Sys, s': Sys, i: nat)
    requires InvE(s) && i < |s.nodes| && QuietStep(s, s', i) && SendersOk(s')
    ensures InvE(s')
  {
    if s'.nodes[i].role == Candidate {
      assert TallyOk(s, i);
    }
    assert EStep(s, s', i);
    EKept(s, s', i);
  }

  lemma ESend(s: Sys, i: nat, j: nat)
    requires InvE(s) && i < |s.nodes| && j < |s.nodes| && j != i && s.nodes[i].role == Leader
    ensures InvE(DoSend(s, i, j))
  {
    var s' := DoSend(s, i, j);
    assert SendersOk(s');
    hide SendersOk, VotesOk, WaitingOk, ElectOk;
    EQuiet(s, s', i);
  }

  lemma EAppend(s: Sys, i: nat, sn: nat, aa: AppArgs)
    requires InvE(s) && i < |s.nodes| && AppReq(i, sn, aa) in s.net
    ensures InvE(DoAppend(s, i, sn, aa))
  {
    assert s.nodes[i].role == Leader ==> s.nodes[i].term != aa.term;
    AppendQuiet(s, i, sn, aa);
    hide InvE, QuietStep, SendersOk, DoAppend;
    EQuiet(s, DoAppend(s, i, sn, aa), i);
  }

  lemma AppendQuiet(s: Sys, i: nat, sn: nat, aa: AppArgs)
    requires Shape(s) && SendersOk(s) && i < |s.nodes|
    requires s.nodes[i].role == Leader ==> s.nodes[i].term != aa.term
    ensures QuietStep(s, DoAppend(s, i, sn, aa), i) && SendersOk(DoAppend(s, i, sn, aa))
  {
    assert QuietNode(s.nodes[i], OnAppendEntries(s.nodes[i], aa).0);
    hide QuietNode;
  }

  lemma EAppendRep(s: Sys, i: nat, peer: nat, ra: AppArgs, ar: AppReply)
    requires InvE(s) && i < |s.nodes| && peer < |s.nodes|
    ensures InvE(DoAppendRep(s, i, peer, ra, ar))
  {
    hide VotesOk, WaitingOk, ElectOk, TallyOk;
    EQuiet(s, DoAppendRep(s, i, peer, ra, ar), i);
  }

  lemma ESnap(s: Sys, i: nat, leader: nat, term: nat)
    requires InvE(s) && i < |s.nodes| && SnapReq(i, leader, term) in s.net
    ensures InvE(DoSnap(s, i, leader, term))
  {
    assert s.nodes[i].role == Leader ==> s.nodes[i].term != term;
    SnapQuiet(s, i, leader, term);
    hide InvE, QuietStep, SendersOk, DoSnap;
    EQuiet(s, DoSnap(s, i, leader, term), i);
  }

  lemma SnapQuiet(s: Sys, i: nat, leader: nat, term: nat)
    requires Shape(s) && SendersOk(s) && i < |s.nodes|
    requires s.nodes[i].role == Leader ==> s.nodes[i].term != term
    ensures QuietStep(s, DoSnap(s, i, leader, term), i) && SendersOk(DoSnap(s, i, leader, term))
  {
    assert QuietNode(s.nodes[i], OnInstallSnapshot(s.nodes[i], term).0);
    hide QuietNode;
  }

  lemma ESnapRep(s: Sys, i: nat, peer: nat, rterm: nat)
    requires InvE(s) && i < |s.nodes| && peer < |s.nodes|
    ensures InvE(DoSnapRep(s, i, peer, rterm))
  {
    hide VotesOk, WaitingOk, ElectOk, TallyOk;
    EQuiet(s, DoSnapRep(s, i, peer, rterm), i);
  }

  lemma ESolo(s: Sys, i: nat)
    requires InvE(s) && i < |s.nodes|
    ensures InvE(DoSolo(s, i))
  {
    hide VotesOk, WaitingOk, ElectOk, TallyOk;
    EQuiet(s, DoSolo(s, i), i);
  }

  lemma EStart(s: Sys, i: nat, c: Cmd)
    requires InvE(s) && i < |s.nodes|
    ensures InvE(DoStart(s, i, c))
  {
    hide VotesOk, WaitingOk, ElectOk, TallyOk;
    EQuiet(s, DoStart(s, i, c), i);
  }

  lemma EApply(s: Sys, i: nat)
    requires InvE(s) && i < |s.nodes|
    ensures InvE(DoApply(s, i))
  {
    hide VotesOk, WaitingOk, ElectOk, TallyOk;
    EQuiet(s, DoApply(s, i), i);
  }

  lemma StepE(s: Sys, act: Action)
    requires InvE(s) && Enabled(s, act)
    ensures InvE(Next(s, act))
  {
    hide InvE, WF, Counts;
    hide DoTimeout, DoRequestVote, DoVoteReply, DoSend, DoAppend, DoAppendRep, DoSolo, DoStart, DoSnap, DoSnapRep,
      DoApply;
    match act
    case Timeout(i) => ETimeout(s, i);
    case RecvVoteReq(i, va) => ERequestVote(s, i, va);
    case RecvVoteRep(i, voter, election, vr) => EVoteReply(s, i, voter, election, vr);
    case SendAppend(i, j) => ESend(s, i, j);
    case RecvAppend(i, sn, aa) => EAppend(s, i, sn, aa);
    case RecvAppendRep(i, peer, ra, ar) => EAppendRep(s, i, peer, ra, ar);
    case SoloCommit(i) => ESolo(s, i);
    case ClientStart(i, c) => EStart(s, i, c);
    case RecvSnap(i, leader, term) => ESnap(s, i, leader, term);
    case RecvSnapRep(i, peer, rterm) => ESnapRep(s, i, peer, rterm);
    case ApplyNext(i) => EApply(s, i);
  }
}
