/** Runs step by step: what one action, an election or a replicated entry does to nodes, packets and applied
  * commands. */
module RaftSteps {
  import opened RaftLog
  import opened RaftHandlers
  import opened RaftSystem

  /** Enabled steps one after the other, from any state. */
  ghost predicate Steps(ss: seq<Sys>, acts: seq<Action>) {
    && |ss| == |acts| + 1
    && forall k :: 0 <= k < |acts| ==> Shape(ss[k]) && Enabled(ss[k], acts[k]) && ss[k + 1] == Next(ss[k], acts[k])
  }

  ghost predicate Ordered(ss: seq<Sys>, acts: seq<Action>) {
    |ss| == |acts| + 1 && forall k :: 0 <= k < |acts| ==> InOrder(ss[k], acts[k])
  }

  /** How a state is to be reached: with in-order delivery or not, and from what beginning. */
  datatype Way = Way(fifo: bool, ss: seq<Sys>, acts: seq<Action>)

  ghost predicate Extends(ss: seq<Sys>, acts: seq<Action>, w: Way) {
    Steps(ss, acts) && (w.fifo ==> Ordered(ss, acts)) && w.ss <= ss && w.acts <= acts
  }

  ghost predicate Reached(s: Sys, w: Way) {
    exists ss, acts :: Extends(ss, acts, w) && ss[|acts|] == s
  }

  ghost function From(s: Sys, fifo: bool): Way {
    Way(fifo, [s], [])
  }

  lemma Begin(s: Sys, fifo: bool)
    ensures Reached(s, From(s, fifo))
  {
    assert Extends([s], [], From(s, fifo));
  }

  lemma Ends(ss: seq<Sys>, acts: seq<Action>, w: Way)
    requires Extends(ss, acts, w)
    ensures |ss| == |acts| + 1 && Reached(ss[|acts|], w)
  {
  }

  /** The steps that lead to a reached state. */
  lemma Retrace(s: Sys, w: Way) returns (ss: seq<Sys>, acts: seq<Action>)
    requires Reached(s, w)
    ensures Extends(ss, acts, w) && |ss| == |acts| + 1 && ss[|acts|] == s
  {
    ss, acts :| Extends(ss, acts, w) && ss[|acts|] == s;
  }

  /** From here on the steps so far are part of the way. */
  lemma Mark(s: Sys, w: Way) returns (w': Way)
    requires Reached(s, w)
    ensures Reached(s, w') && w'.fifo == w.fifo && w.ss <= w'.ss && w.acts <= w'.acts
    ensures |w'.ss| == |w'.acts| + 1 && w'.ss[|w'.acts|] == s
  {
    var ss, acts := Retrace(s, w);
    w' := Way(w.fifo, ss, acts);
    assert Extends(ss, acts, w');
  }

  /** Steps from the initial state are a run. */
  lemma StepsRun(ss: seq<Sys>, acts: seq<Action>, w: Way, size: nat)
    requires Extends(ss, acts, w) && size > 0 && |w.ss| > 0 && w.ss[0] == Init(size)
    ensures |ss| == |acts| + 1 && IsRun(ss, acts) && (w.fifo ==> IsFifoRun(ss, acts))
  {
    hide Next, Enabled, Shape, InOrder;
  }

  lemma Move(s: Sys, act: Action, w: Way)
    requires Shape(s) && Reached(s, w) && Enabled(s, act) && (w.fifo ==> InOrder(s, act))
    ensures Reached(Next(s, act), w)
  {
    var ss, acts := Retrace(s, w);
    hide *;
    Snoc(ss, acts, act, w);
    assert (ss + [Next(s, act)])[|acts + [act]|] == Next(s, act);
    Ends(ss + [Next(s, act)], acts + [act], w);
  }

  lemma Snoc(ss: seq<Sys>, acts: seq<Action>, act: Action, w: Way)
    requires Extends(ss, acts, w) && |ss| == |acts| + 1 && Shape(ss[|acts|]) && Enabled(ss[|acts|], act)
    requires w.fifo ==> InOrder(ss[|acts|], act)
    ensures Extends(ss + [Next(ss[|acts|], act)], acts + [act], w)
  {
    hide Next, Enabled, Shape, InOrder;
    var s := ss[|acts|];
    var ss', acts' := ss + [Next(s, act)], acts + [act];
    forall k | 0 <= k < |acts'|
      ensures Shape(ss'[k]) && Enabled(ss'[k], acts'[k]) && ss'[k + 1] == Next(ss'[k], acts'[k])
      ensures w.fifo ==> InOrder(ss'[k], acts'[k])
    {
      if k < |acts| {
        assert ss'[k] == ss[k] && ss'[k + 1] == ss[k + 1] && acts'[k] == acts[k];
      }
    }
  }

  // ---- one step each, as far as nodes, packets and applied commands go ----

  ghost predicate Changes(s: Sys, s': Sys, i: nat, n: Node, sent: set<Packet>)
    requires Shape(s) && i < |s.nodes|
  {
    && Shape(s') && s'.nodes == s.nodes[i := n] && s'.applied == s.applied && s'.net == s.net + sent
    && s.clock <= s'.clock
  }

  lemma Stands(s: Sys, i: nat, voter: nat, w: Way) returns (s': Sys)
    requires Shape(s) && Reached(s, w) && i < |s.nodes| && voter < |s.nodes| && voter != i
    ensures Reached(s', w)
    ensures var n := s.nodes[i];
      Changes(s, s', i, OnTimeout(n, i, |s.nodes|),
        {VoteReq(VoteArgs(n.term + 1, i, LastIndex(n.log), LastTerm(n.log)))})
    ensures (i, s.nodes[i].term + 1, voter) in s'.waiting
    ensures s'.delivered == s.delivered
  {
    s' := DoTimeout(s, i);
    assert Next(s, Timeout(i)) == s';
    StandsNodes(s, i, voter);
    hide DoTimeout, Changes, OnTimeout;
    Move(s, Timeout(i), w);
  }

  lemma StandsNodes(s: Sys, i: nat, voter: nat)
    requires Shape(s) && i < |s.nodes| && voter < |s.nodes| && voter != i
    ensures var n, s' := s.nodes[i], DoTimeout(s, i);
      && Changes(s, s', i, OnTimeout(n, i, |s.nodes|),
        {VoteReq(VoteArgs(n.term + 1, i, LastIndex(n.log), LastTerm(n.log)))})
      && (i, n.term + 1, voter) in s'.waiting && s'.delivered == s.delivered
  {
    hide WF;
  }

  lemma Votes(s: Sys, i: nat, va: VoteArgs, w: Way) returns (s': Sys)
    requires Shape(s) && Reached(s, w) && i < |s.nodes| && VoteReq(va) in s.net && i != va.cand
    ensures Reached(s', w)
    ensures var (n, r) := OnRequestVote(s.nodes[i], va); Changes(s, s', i, n, {VoteRep(i, va.cand, va.term, r)})
    ensures s'.waiting == s.waiting && s'.delivered == s.delivered
  {
    s' := Next(s, RecvVoteReq(i, va));
    Move(s, RecvVoteReq(i, va), w);
  }

  lemma Counted(s: Sys, i: nat, voter: nat, t: nat, vr: VoteReply, w: Way) returns (s': Sys)
    requires Shape(s) && Reached(s, w) && i < |s.nodes| && VoteRep(voter, i, t, vr) in s.net
    requires (i, t, voter) in s.waiting
    ensures Reached(s', w) && Changes(s, s', i, OnVoteReply(s.nodes[i], |s.nodes|, t, vr), {})
    ensures s'.delivered == s.delivered
  {
    s' := DoVoteReply(s, i, voter, t, vr);
    assert Next(s, RecvVoteRep(i, voter, t, vr)) == s';
    CountedNodes(s, i, voter, t, vr);
    hide DoVoteReply, Changes;
    Move(s, RecvVoteRep(i, voter, t, vr), w);
  }

  lemma CountedNodes(s: Sys, i: nat, voter: nat, t: nat, vr: VoteReply)
    requires Shape(s) && i < |s.nodes|
    ensures var s' := DoVoteReply(s, i, voter, t, vr);
      Changes(s, s', i, OnVoteReply(s.nodes[i], |s.nodes|, t, vr), {}) && s'.delivered == s.delivered
  {
    hide OnVoteReply, WF;
  }

  lemma Started(s: Sys, i: nat, c: Cmd, w: Way) returns (s': Sys)
    requires Shape(s) && Reached(s, w) && i < |s.nodes| && s.nodes[i].role == Leader
    ensures Reached(s', w) && Changes(s, s', i, OnStart(s.nodes[i], i, c), {})
    ensures s'.delivered == s.delivered && s'.clock == s.clock
  {
    s' := Next(s, ClientStart(i, c));
    Move(s, ClientStart(i, c), w);
  }

  lemma Sent(s: Sys, i: nat, j: nat, w: Way) returns (s': Sys)
    requires Shape(s) && Reached(s, w) && i < |s.nodes| && j < |s.nodes| && j != i && s.nodes[i].role == Leader
    ensures Reached(s', w) && Changes(s, s', i, s.nodes[i], Sending(s.nodes[i], i, j, s.clock + 1))
    ensures s'.delivered == s.delivered && s'.clock == s.clock + 1
  {
    s' := Next(s, SendAppend(i, j));
    Move(s, SendAppend(i, j), w);
    assert s.nodes[i := s.nodes[i]] == s.nodes;
  }

  lemma Received(s: Sys, i: nat, sn: nat, aa: AppArgs, w: Way) returns (s': Sys)
    requires Shape(s) && Reached(s, w) && i < |s.nodes| && AppReq(i, sn, aa) in s.net
    requires w.fifo ==> sn >= Delivered(s, aa.term, i)
    ensures Reached(s', w)
    ensures var (n, r) := OnAppendEntries(s.nodes[i], aa); Changes(s, s', i, n, {AppRep(i, aa, r)})
    ensures s'.delivered == s.delivered[(aa.term, i) := sn]
  {
    s' := Next(s, RecvAppend(i, sn, aa));
    Move(s, RecvAppend(i, sn, aa), w);
  }

  lemma Confirmed(s: Sys, i: nat, peer: nat, ra: AppArgs, ar: AppReply, w: Way) returns (s': Sys)
    requires Shape(s) && Reached(s, w) && i < |s.nodes| && peer < |s.nodes|
    requires AppRep(peer, ra, ar) in s.net && ra.leader == i
    ensures Reached(s', w) && Changes(s, s', i, OnAppendReply(s.nodes[i], i, peer, ra, ar), {})
    ensures s'.delivered == s.delivered && s'.clock == s.clock
  {
    s' := Next(s, RecvAppendRep(i, peer, ra, ar));
    Move(s, RecvAppendRep(i, peer, ra, ar), w);
  }

  /** Two turns of the apply loop, for two entries that are committed. */
  lemma AppliedTwo(s: Sys, i: nat, w: Way) returns (s': Sys)
    requires Shape(s) && Reached(s, w) && i < |s.nodes|
    requires var n := s.nodes[i]; n.lastApply == 0 && n.commit == 2 && |n.log| == 3
    ensures Reached(s', w) && Shape(s') && s'.net == s.net && s'.clock == s.clock && s'.delivered == s.delivered
    ensures s'.nodes == s.nodes[i := s.nodes[i].(lastApply := 2)]
    ensures s'.applied == s.applied[i := s.applied[i] + [s.nodes[i].log[1].cmd, s.nodes[i].log[2].cmd]]
  {
    var s1 := AppliedOne(s, i, w);
    s' := AppliedOne(s1, i, w);
    var x := s.applied[i];
    assert x + [s.nodes[i].log[1].cmd] + [s.nodes[i].log[2].cmd] == x + [s.nodes[i].log[1].cmd, s.nodes[i].log[2].cmd];
  }

  lemma AppliedOne(s: Sys, i: nat, w: Way) returns (s': Sys)
    requires Shape(s) && Reached(s, w) && i < |s.nodes|
    requires var n := s.nodes[i]; n.lastApply < n.commit && n.lastApply + 1 < |n.log|
    ensures Reached(s', w) && Shape(s') && s'.net == s.net && s'.clock == s.clock && s'.delivered == s.delivered
    ensures var n := s.nodes[i];
      && s'.nodes == s.nodes[i := n.(lastApply := n.lastApply + 1)]
      && s'.applied == s.applied[i := s.applied[i] + [n.log[n.lastApply + 1].cmd]]
  {
    s' := Next(s, ApplyNext(i));
    Move(s, ApplyNext(i), w);
  }

  // ---- several steps: an election with one vote besides the own, and a message with its acknowledgement ----

  /** Node `i` of three wins the next term with the vote of `v`. */
  lemma Elects(s: Sys, i: nat, v: nat, w: Way) returns (s': Sys)
    requires Shape(s) && Reached(s, w) && |s.nodes| == 3 && i < 3 && v < 3 && i != v
    requires s.nodes[v].term <= s.nodes[i].term
    requires UpToDate(s.nodes[v].log,
      VoteArgs(s.nodes[i].term + 1, i, LastIndex(s.nodes[i].log), LastTerm(s.nodes[i].log)))
    ensures Shape(s') && Reached(s', w) && s.net <= s'.net && s'.applied == s.applied
    ensures s'.delivered == s.delivered && s.clock <= s'.clock
    ensures VoteReq(VoteArgs(s.nodes[i].term + 1, i, LastIndex(s.nodes[i].log), LastTerm(s.nodes[i].log))) in s'.net
    ensures s'.nodes == s.nodes[i := Winner(s.nodes[i], i)][v := s.nodes[v].(term := s.nodes[i].term + 1, vote := i,
      role := Follower)]
  {
    var va := VoteArgs(s.nodes[i].term + 1, i, LastIndex(s.nodes[i].log), LastTerm(s.nodes[i].log));
    var s1 := Stands(s, i, v, w);
    var s2 := Votes(s1, v, va, w);
    VoteGranted(s.nodes[v], va);
    s' := Counted(s2, i, v, va.term, VoteReply(va.term, true), w);
    WinnerIs(s.nodes[i], i);
  }

  function Winner(n: Node, i: nat): Node {
    n.(role := Leader, term := n.term + 1, vote := i, votes := 2,
       nextIndex := [|n.log|, |n.log|, |n.log|], matchIndex := [0, 0, 0])
  }

  lemma WinnerIs(n: Node, i: nat)
    requires WF(n, 3)
    ensures OnTimeout(n, i, 3).role == Candidate
    ensures OnVoteReply(OnTimeout(n, i, 3), 3, n.term + 1, VoteReply(n.term + 1, true)) == Winner(n, i)
  {
    var l := OnVoteReply(OnTimeout(n, i, 3), 3, n.term + 1, VoteReply(n.term + 1, true));
    assert l.nextIndex == [|n.log|, |n.log|, |n.log|] && l.matchIndex == [0, 0, 0];
  }

  lemma VoteGranted(n: Node, va: VoteArgs)
    requires n.log != [] && n.term < va.term && UpToDate(n.log, va)
    ensures OnRequestVote(n, va) == (n.(term := va.term, vote := va.cand, role := Follower), VoteReply(va.term, true))
  {
  }

  /** Leader `i` sends peer `j` what it lacks, which is accepted and acknowledged. */
  lemma Replicates(s: Sys, i: nat, j: nat, w: Way) returns (s': Sys)
    requires Shape(s) && Reached(s, w) && i < |s.nodes| && j < |s.nodes| && i != j
    requires s.nodes[i].role == Leader && 1 <= s.nodes[i].nextIndex[j] <= |s.nodes[i].log|
    requires Accepts(s.nodes[j], BuildAppend(s.nodes[i], i, j))
    requires w.fifo ==> Delivered(s, s.nodes[i].term, j) <= s.clock + 1
    ensures Shape(s') && Reached(s', w) && s.net <= s'.net && s'.applied == s.applied
    ensures var a := BuildAppend(s.nodes[i], i, j);
      && s'.nodes == s.nodes[j := OnAppendEntries(s.nodes[j], a).0][i := OnAppendReply(s.nodes[i], i, j, a,
        AppReply(true, a.term, 0))]
      && s'.delivered == s.delivered[(a.term, j) := s.clock + 1]
    ensures s.clock < s'.clock && Delivered(s', s.nodes[i].term, j) <= s'.clock
  {
    var a := BuildAppend(s.nodes[i], i, j);
    var s1 := Sent(s, i, j, w);
    assert AppReq(j, s.clock + 1, a) in s1.net;
    assert s1.nodes == s.nodes;
    AcceptedReply(s.nodes[j], a);
    hide OnAppendEntries, OnAppendReply, BuildAppend, Accepts;
    var s2 := Received(s1, j, s.clock + 1, a, w);
    s' := Confirmed(s2, i, j, a, AppReply(true, a.term, 0), w);
  }

  lemma AcceptedReply(n: Node, a: AppArgs)
    requires n.log != [] && Accepts(n, a)
    ensures OnAppendEntries(n, a).1 == AppReply(true, a.term, 0)
  {
  }
}
