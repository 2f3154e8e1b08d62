/** In-order delivery is one way to spare what followers confirmed. */
module RaftFifo {
  import opened RaftLog
  import opened RaftHandlers
  import opened RaftSystem
  import opened RaftElection
  import opened RaftMatching
  import opened RaftSync
  import opened RaftSafety

  /** Messages still to come in order reach at least as far as what is confirmed. */
  ghost predicate InTimeOk(s: Sys, p: Packet) {
    p.AppReq? && p.sn >= Delivered(s, p.aa.term, p.to) ==> Full(p.aa) >= Synced(s, p.aa.term, p.to)
  }

  /** Of two messages of one term to one follower, the later one reaches at least as far. */
  ghost predicate OrderOk(s: Sys) {
    forall p, q ::
      (p in s.net && q in s.net && p.AppReq? && q.AppReq?
       && p.to == q.to && p.aa.term == q.aa.term && p.sn <= q.sn)
      ==> Full(p.aa) <= Full(q.aa)
  }

  ghost predicate DeliveredOk(s: Sys) {
    forall k :: k in s.delivered ==> s.delivered[k] <= s.clock
  }

  ghost predicate InvD(s: Sys) {
    (forall p :: p in s.net ==> InTimeOk(s, p)) && OrderOk(s) && DeliveredOk(s)
  }

  lemma InitD(size: nat)
    ensures InvD(Init(size))
  {
  }

  /** In order and in time: nothing confirmed is cut. */
  lemma InOrderSpares(s: Sys, act: Action)
    requires Shape(s) && InvD(s) && Enabled(s, act) && InOrder(s, act)
    ensures Spares(s, act)
  {
    if act.RecvAppend? {
      assert InTimeOk(s, AppReq(act.i, act.sn, act.aa));
    }
  }

  // ---- the steps ----

  lemma QuietInTime(s: Sys, s': Sys, i: nat)
    requires InvF(s) && InvD(s) && Still(s, s', i) && FreshMsgs(s, s')
    ensures forall p :: p in s'.net ==> InTimeOk(s', p)
  {
    hide WF, Shape, MatchOk, SyncOk, LeaderSync, PacketF, OrderOk, DeliveredOk;
    forall p | p in s'.net
      ensures InTimeOk(s', p)
    {
      if p in s.net {
        assert InTimeOk(s, p);
      } else if p.AppReq? && (p.aa.term, p.to) in s.synced {
        assert SyncKeyOk(s, (p.aa.term, p.to));
      }
    }
  }

  lemma QuietOrder(s: Sys, s': Sys, i: nat)
    requires forall p :: p in s.net ==> PacketOk(s, p)
    requires OrderOk(s) && DeliveredOk(s) && Still(s, s', i) && FreshMsgs(s, s')
    ensures OrderOk(s') && DeliveredOk(s')
  {
    hide WF, Shape, Traced;
    forall p, q | p in s'.net && q in s'.net && p.AppReq? && q.AppReq?
      && p.to == q.to && p.aa.term == q.aa.term && p.sn <= q.sn
      ensures Full(p.aa) <= Full(q.aa)
    {
      if p in s.net {
        assert PacketOk(s, p);
      }
      if q in s.net {
        assert PacketOk(s, q);
      }
    }
  }

  lemma DStill(s: Sys, s': Sys, i: nat)
    requires InvL(s) && InvF(s) && InvD(s) && Still(s, s', i) && FreshMsgs(s, s')
    ensures InvD(s')
  {
    assert forall p :: p in s.net ==> PacketOk(s, p);
    hide InvL, InvF, PacketOk, Still, FreshMsgs, InTimeOk, OrderOk, DeliveredOk;
    QuietInTime(s, s', i);
    QuietOrder(s, s', i);
  }

  lemma DQuiet(s: Sys, s': Sys, i: nat)
    requires InvL(s) && InvF(s) && InvD(s) && Quiet(s, s', i) && FreshMsgs(s, s')
    ensures InvD(s')
  {
    assert Still(s, s', i);
    hide *;
    DStill(s, s', i);
  }

  lemma DCrown(s: Sys, s': Sys, i: nat)
    requires InvL(s) && InvD(s) && CrownStepF(s, s', i)
    ensures InvD(s')
  {
    hide Traced, LogOk, CandOk, WF, Shape;
    forall p | p in s'.net
      ensures InTimeOk(s', p)
    {
      if p in s.net {
        assert InTimeOk(s, p) && PacketOk(s, p);
      }
    }
  }

  lemma DTimeout(s: Sys, i: nat)
    requires InvE(s) && InvL(s) && InvF(s) && InvD(s) && i < |s.nodes|
    ensures InvD(DoTimeout(s, i))
  {
    FreshTerm(s, i, s.nodes[i].term + 1);
    assert Shape(s);
    hide *;
    if |s.nodes| == 1 {
      SoloCrown(s, i);
      DCrown(s, DoTimeout(s, i), i);
    } else {
      StandStill(s, i);
      DStill(s, DoTimeout(s, i), i);
    }
  }

  lemma DVoteReply(s: Sys, i: nat, voter: nat, election: nat, vr: VoteReply)
    requires InvE(s) && InvL(s) && InvF(s) && InvD(s) && i < |s.nodes|
    requires VoteRep(voter, i, election, vr) in s.net && (i, election, voter) in s.waiting
    ensures InvD(DoVoteReply(s, i, voter, election, vr))
  {
    var s' := DoVoteReply(s, i, voter, election, vr);
    if Crowns(s, i, election, vr) {
      NewTerm(s, i, voter, election, vr);
      ReplyCrown(s, i, voter, election, vr);
      hide *;
      DCrown(s, s', i);
    } else {
      QuietVoteReply(s, i, voter, election, vr);
      NothingSent(s, s');
      hide *;
      DQuiet(s, s', i);
    }
  }

  lemma NothingSent(s: Sys, s': Sys)
    requires forall p :: p in s'.net && p !in s.net ==> !p.AppRep? && !p.AppReq?
    ensures FreshMsgs(s, s')
  {
  }

  lemma DSend(s: Sys, i: nat, j: nat)
    requires InvL(s) && InvF(s) && InvD(s) && i < |s.nodes| && j < |s.nodes| && s.nodes[i].role == Leader
    ensures InvD(DoSend(s, i, j))
  {
    QuietSend(s, i, j);
    SentFresh(s, i, j);
    hide *;
    DQuiet(s, DoSend(s, i, j), i);
  }

  lemma AppendOrder(s: Sys, i: nat, sn: nat, aa: AppArgs)
    requires Shape(s) && OrderOk(s) && DeliveredOk(s) && i < |s.nodes| && sn <= s.clock
    ensures OrderOk(DoAppend(s, i, sn, aa)) && DeliveredOk(DoAppend(s, i, sn, aa))
  {
    hide WF, OnAppendEntries;
  }

  lemma AppendInTime(s: Sys, i: nat, sn: nat, aa: AppArgs)
    requires Shape(s) && OrderOk(s) && i < |s.nodes| && AppReq(i, sn, aa) in s.net && sn >= Delivered(s, aa.term, i)
    requires forall p :: p in s.net ==> InTimeOk(s, p)
    ensures forall p :: p in DoAppend(s, i, sn, aa).net ==> InTimeOk(DoAppend(s, i, sn, aa), p)
  {
    var s' := DoAppend(s, i, sn, aa);
    var m := AppReq(i, sn, aa);
    assert InTimeOk(s, m);
    hide WF, OnAppendEntries;
    forall p | p in s'.net
      ensures InTimeOk(s', p)
    {
      if p in s.net {
        assert InTimeOk(s, p);
        if p.AppReq? && p.to == i && p.aa.term == aa.term && p.sn >= sn {
          assert Full(p.aa) >= Full(m.aa);
        }
      }
    }
  }

  lemma DAppend(s: Sys, i: nat, sn: nat, aa: AppArgs)
    requires InvL(s) && InvD(s) && i < |s.nodes| && AppReq(i, sn, aa) in s.net && sn >= Delivered(s, aa.term, i)
    ensures InvD(DoAppend(s, i, sn, aa))
  {
    assert PacketOk(s, AppReq(i, sn, aa)) && Shape(s);
    hide InvL, Shape, InTimeOk, OrderOk, DeliveredOk, DoAppend;
    AppendOrder(s, i, sn, aa);
    AppendInTime(s, i, sn, aa);
  }

  lemma DStart(s: Sys, i: nat, c: Cmd)
    requires InvE(s) && InvD(s) && i < |s.nodes|
    ensures InvD(DoStart(s, i, c))
  {
    hide OrderOk, DeliveredOk, InTimeOk, VotesOk, RepliesOk, WaitingOk, TalliesOk, ElectOk, LeadersOk, SendersOk, WF;
    assert Shape(s);
    if s.nodes[i].role == Leader {
      NotToSelf(s, i);
      hide InvE, DoStart;
      StartInTime(s, i, c);
      StartOrder(s, i, c);
    }
  }

  lemma NotToSelf(s: Sys, i: nat)
    requires InvE(s) && i < |s.nodes| && s.nodes[i].role == Leader
    ensures forall p :: p in s.net && p.AppReq? && p.aa.term == s.nodes[i].term ==> p.to != i
  {
    assert s.elect[s.nodes[i].term].leader == i;
  }

  lemma StartOrder(s: Sys, i: nat, c: Cmd)
    requires Shape(s) && OrderOk(s) && DeliveredOk(s) && i < |s.nodes|
    ensures OrderOk(DoStart(s, i, c)) && DeliveredOk(DoStart(s, i, c))
  {
    hide WF;
  }

  lemma StartInTime(s: Sys, i: nat, c: Cmd)
    requires Shape(s) && i < |s.nodes| && s.nodes[i].role == Leader
    requires forall p :: p in s.net && p.AppReq? && p.aa.term == s.nodes[i].term ==> p.to != i
    requires forall p :: p in s.net ==> InTimeOk(s, p)
    ensures forall p :: p in DoStart(s, i, c).net ==> InTimeOk(DoStart(s, i, c), p)
  {
    hide WF;
    forall p | p in s.net
      ensures InTimeOk(DoStart(s, i, c), p)
    {
      assert InTimeOk(s, p);
    }
  }

  lemma DLocal(s: Sys, act: Action)
    requires InvL(s) && InvF(s) && InvD(s) && Shape(s) && Enabled(s, act)
    requires act.RecvVoteReq? || act.RecvAppendRep? || act.SoloCommit? || act.RecvSnap? || act.RecvSnapRep?
      || act.ApplyNext?
    ensures InvD(Next(s, act))
  {
    hide InvL, InvF, InvD, WF, FreshMsgs;
    var s' := Next(s, act);
    match act {
      case RecvVoteReq(i, va) => QuietRequestVote(s, i, va);
      case RecvAppendRep(i, peer, ra, ar) => QuietAppendRep(s, i, peer, ra, ar);
      case SoloCommit(i) => QuietSolo(s, i);
      case RecvSnap(i, leader, term) => QuietSnap(s, i, leader, term);
      case RecvSnapRep(i, peer, rterm) => QuietSnapRep(s, i, peer, rterm);
      case ApplyNext(i) => QuietApply(s, i);
    }
    hide OnRequestVote, OnAppendReply, OnSoloCommit, OnInstallSnapshot, OnSnapshotReply, OnApply, Quiet;
    NothingSent(s, s');
    DQuiet(s, s', act.i);
  }

  lemma StepD(s: Sys, act: Action)
    requires InvE(s) && InvL(s) && InvF(s) && InvD(s) && Enabled(s, act) && InOrder(s, act)
    ensures InvD(Next(s, act))
  {
    assert Shape(s);
    hide InvE, InvL, InvF, InvD, WF, Counts, Shape;
    hide DoTimeout, DoRequestVote, DoVoteReply, DoSend, DoAppend, DoAppendRep, DoSolo, DoStart, DoSnap, DoSnapRep,
      DoApply;
    match act
    case Timeout(i) => DTimeout(s, i);
    case RecvVoteRep(i, voter, election, vr) => DVoteReply(s, i, voter, election, vr);
    case SendAppend(i, j) => DSend(s, i, j);
    case RecvAppend(i, sn, aa) => DAppend(s, i, sn, aa);
    case ClientStart(i, c) => DStart(s, i, c);
    case _ => DLocal(s, act);
  }

  // ---- runs ----

  lemma {:induction false} FifoUpTo(ss: seq<Sys>, acts: seq<Action>, k: nat)
    requires IsFifoRun(ss, acts) && k < |ss|
    ensures InvD(ss[k]) && forall j :: 0 <= j < k ==> Spares(ss[j], acts[j])
  {
    hide InvE, InvL, InvF, InvD, Enabled, Next, Init, InOrder, Spares;
    if k == 0 {
      InitD(|ss[0].nodes|);
    } else {
      var s, act := ss[k - 1], acts[k - 1];
      FifoUpTo(ss, acts, k - 1);
      InOrderSpares(s, act);
      assert IsSparingRun(ss[..k], acts[..k - 1]) by {
        assert forall j :: 0 <= j < k ==> ss[..k][j] == ss[j];
      }
      AnyOrder(ss, acts, k - 1);
      SparingRun(ss[..k], acts[..k - 1], k - 1);
      assert ss[(k - 1) + 1] == Next(s, act);
      StepD(s, act);
    }
  }

  /** Every run with in-order delivery is one of those the safety theorems are about. */
  lemma FifoSpares(ss: seq<Sys>, acts: seq<Action>)
    requires IsFifoRun(ss, acts)
    ensures IsSparingRun(ss, acts)
  {
    FifoUpTo(ss, acts, |acts|);
  }

  /** State machine safety for in-order delivery. */
  lemma InOrderSafety(ss: seq<Sys>, acts: seq<Action>, j: nat, k: nat, a: nat, b: nat)
    requires IsFifoRun(ss, acts) && j < |ss| && k < |ss| && a < |ss[j].applied| && b < |ss[k].applied|
    ensures ss[j].applied[a] <= ss[k].applied[b] || ss[k].applied[b] <= ss[j].applied[a]
  {
    FifoSpares(ss, acts);
    hide IsFifoRun, IsSparingRun;
    StateMachineSafety(ss, acts, j, k, a, b);
  }
}
