/**
 * A majority is enough to make progress: whatever an in-order run has led to, steps of the nodes of one majority
 * alone can elect a leader among them and get a new command committed and applied by all of them.
 */
module RaftAvailability {
  import opened RaftLog
  import opened RaftHandlers
  import opened RaftSystem
  import opened RaftElection
  import opened RaftMatching
  import opened RaftSafety
  import opened RaftFifo
  import opened RaftProbe
  import opened RaftProgress
  import opened RaftSteps

  // ---- where the nodes of a set can get on their own ----

  ghost predicate Path(ss: seq<Sys>, acts: seq<Action>, q: set<nat>) {
    Steps(ss, acts) && Ordered(ss, acts) && forall k :: 0 <= k < |acts| ==> acts[k].i in q
  }

  ghost predicate Goes(s: Sys, s': Sys, q: set<nat>) {
    exists ss, acts :: Path(ss, acts, q) && ss[0] == s && ss[|acts|] == s'
  }

  ghost predicate Reachable(s: Sys) {
    exists ss, acts :: IsFifoRun(ss, acts) && ss[|acts|] == s
  }

  lemma Stay(s: Sys, q: set<nat>)
    ensures Goes(s, s, q)
  {
    assert Path([s], [], q);
  }

  lemma OneStep(s: Sys, act: Action, q: set<nat>)
    requires Shape(s) && Enabled(s, act) && InOrder(s, act) && act.i in q
    ensures Goes(s, Next(s, act), q)
  {
    hide Next, Enabled, Shape, InOrder;
    assert Path([s, Next(s, act)], [act], q);
  }

  lemma GoesOn(a: Sys, b: Sys, c: Sys, q: set<nat>)
    requires Goes(a, b, q) && Goes(b, c, q)
    ensures Goes(a, c, q)
  {
    var ss, acts :| Path(ss, acts, q) && ss[0] == a && ss[|acts|] == b;
    var ts, more :| Path(ts, more, q) && ts[0] == b && ts[|more|] == c;
    Glued(ss, acts, ts, more);
    hide Steps, Ordered;
    assert Path(ss[..|acts|] + ts, acts + more, q);
  }

  lemma Glued(ss: seq<Sys>, acts: seq<Action>, ts: seq<Sys>, more: seq<Action>)
    requires Steps(ss, acts) && Ordered(ss, acts) && Steps(ts, more) && Ordered(ts, more) && ss[|acts|] == ts[0]
    ensures var us, all := ss[..|acts|] + ts, acts + more;
      Steps(us, all) && Ordered(us, all) && us[0] == ss[0] && us[|all|] == ts[|more|] && ss <= us
  {
    hide Next, Enabled, Shape, InOrder;
    var us, all := ss[..|acts|] + ts, acts + more;
    forall k | 0 <= k < |all|
      ensures Shape(us[k]) && Enabled(us[k], all[k]) && us[k + 1] == Next(us[k], all[k]) && InOrder(us[k], all[k])
    {
      if k < |acts| {
        assert us[k] == ss[k] && us[k + 1] == ss[k + 1] && all[k] == acts[k];
      } else {
        assert us[k] == ts[k - |acts|] && us[k + 1] == ts[k - |acts| + 1] && all[k] == more[k - |acts|];
      }
    }
  }

  lemma RunIsSteps(ss: seq<Sys>, acts: seq<Action>)
    ensures IsFifoRun(ss, acts) <==>
      Steps(ss, acts) && Ordered(ss, acts) && |ss[0].nodes| > 0 && ss[0] == Init(|ss[0].nodes|)
  {
    hide Next, Enabled, Shape, InOrder;
  }

  lemma ReachableOn(s: Sys, s': Sys, q: set<nat>)
    requires Reachable(s) && Goes(s, s', q)
    ensures Reachable(s')
  {
    var ss, acts :| IsFifoRun(ss, acts) && ss[|acts|] == s;
    var ts, more :| Path(ts, more, q) && ts[0] == s && ts[|more|] == s';
    assert Steps(ts, more) && Ordered(ts, more) && |ss| == |acts| + 1 && |ts| == |more| + 1;
    hide Steps, Ordered, IsFifoRun, Path;
    RunIsSteps(ss, acts);
    Glued(ss, acts, ts, more);
    RunIsSteps(ss[..|acts|] + ts, acts + more);
  }

  /** What is known of every reachable state. */
  lemma Known(s: Sys)
    requires Reachable(s)
    ensures Shape(s) && InvE(s) && InvL(s) && InvM(s) && DeliveredOk(s) && |s.nodes| > 0
  {
    var ss, acts :| IsFifoRun(ss, acts) && ss[|acts|] == s;
    FifoIsRun(ss, acts);
    hide IsRun, IsFifoRun, InvL, InvM, DeliveredOk;
    AnyOrder(ss, acts, |acts|);
    CaughtUpRun(ss, acts, |acts|);
    FifoUpTo(ss, acts, |acts|);
  }

  lemma FifoIsRun(ss: seq<Sys>, acts: seq<Action>)
    requires IsFifoRun(ss, acts)
    ensures |ss| == |acts| + 1 && IsRun(ss, acts) && |ss[|acts|].nodes| > 0
  {
    hide Next, Enabled, Shape, InOrder;
    SameSize(ss, acts, |acts|);
  }

  lemma {:induction false} SameSize(ss: seq<Sys>, acts: seq<Action>, k: nat)
    requires IsRun(ss, acts) && k < |ss|
    ensures |ss[k].nodes| == |ss[0].nodes|
  {
    hide Enabled, Shape;
    if k > 0 {
      SameSize(ss, acts, k - 1);
      assert ss[(k - 1) + 1] == Next(ss[k - 1], acts[k - 1]);
    }
  }

  lemma KnownApplied(s: Sys, i: nat)
    requires Reachable(s) && i < |s.nodes|
    ensures i < |s.applied| && s.nodes[i].lastApply <= s.nodes[i].commit < |s.nodes[i].log|
    ensures s.applied[i] == Commands(s.nodes[i].log[1..s.nodes[i].lastApply + 1])
  {
    var ss, acts :| IsFifoRun(ss, acts) && ss[|acts|] == s;
    FifoIsRun(ss, acts);
    hide IsRun, IsFifoRun, IsSparingRun;
    FifoSpares(ss, acts);
    AppliedIsCommitted(ss, acts, |acts|, i);
  }

  /** A state that is reachable, and in which the nodes of `q` exist. */
  ghost predicate At(s: Sys, q: set<nat>) {
    Reachable(s) && Shape(s) && forall j :: j in q ==> j < |s.nodes|
  }

  /** From `s` the nodes of `q` get to `s'`. */
  ghost predicate Leads(s: Sys, s': Sys, q: set<nat>) {
    At(s', q) && Goes(s, s', q) && |s'.nodes| == |s.nodes|
  }

  lemma LeadsOn(a: Sys, b: Sys, c: Sys, q: set<nat>)
    requires Leads(a, b, q) && Leads(b, c, q)
    ensures Leads(a, c, q)
  {
    hide Goes, At;
    GoesOn(a, b, c, q);
  }

  lemma LeadsNowhere(s: Sys, q: set<nat>)
    requires At(s, q)
    ensures Leads(s, s, q)
  {
    Stay(s, q);
  }

  lemma Does(s: Sys, act: Action, q: set<nat>) returns (s': Sys)
    requires At(s, q) && act.i in q && Enabled(s, act) && InOrder(s, act)
    ensures s' == Next(s, act) && Leads(s, s', q) && s'.nodes == s.nodes[act.i := Acted(s, act)]
  {
    s' := Next(s, act);
    hide Next, Enabled, InOrder, Acted, Reachable, Goes;
    OneStep(s, act, q);
    ReachableOn(s, s', q);
    NextNodes(s, act);
  }

  // ---- standing for election ----

  function Request(n: Node, i: nat): VoteArgs
    requires n.log != []
  {
    VoteArgs(n.term, i, LastIndex(n.log), LastTerm(n.log))
  }

  /** Node `i` stands, and has asked everybody. */
  ghost predicate Standing(s: Sys, i: nat)
    requires Shape(s) && i < |s.nodes|
  {
    && s.nodes[i].role == Candidate && VoteReq(Request(s.nodes[i], i)) in s.net
    && forall p :: 0 <= p < |s.nodes| && p != i ==> (i, s.nodes[i].term, p) in s.waiting
  }

  lemma StandsOnce(s: Sys, i: nat, q: set<nat>) returns (s': Sys)
    requires At(s, q) && i in q && |s.nodes| > 1
    ensures Leads(s, s', q) && Standing(s', i)
    ensures s'.nodes == s.nodes[i := OnTimeout(s.nodes[i], i, |s.nodes|)]
  {
    s' := Does(s, Timeout(i), q);
    assert WF(s.nodes[i], |s.nodes|);
    hide At, Leads, Shape, WF;
  }

  /** Node `i` stands again until its term is above `top`. */
  lemma StandsAbove(s: Sys, i: nat, top: nat, q: set<nat>) returns (s': Sys)
    requires At(s, q) && i in q && |s.nodes| > 1 && s.nodes[i].term <= top
    ensures Leads(s, s', q) && Standing(s', i) && s'.nodes[i].term == top + 1 && s'.nodes[i].log == s.nodes[i].log
    ensures s'.nodes[i].votes == 1
    ensures s'.nodes == s.nodes[i := s'.nodes[i]]
    decreases top - s.nodes[i].term
  {
    hide Goes, Reachable, Standing;
    s' := StandsOnce(s, i, q);
    if s.nodes[i].term < top {
      var s1 := s';
      s' := StandsAbove(s1, i, top, q);
      LeadsOn(s, s1, s', q);
    }
  }

  /** The log of `i` is as new as that of every node of `q`. */
  ghost predicate Freshest(s: Sys, i: nat, q: set<nat>)
    requires i < |s.nodes| && Shape(s) && forall j :: j in q ==> j < |s.nodes|
  {
    forall j :: j in q ==> AsNew(s.nodes[i].log, s.nodes[j].log)
  }

  lemma {:induction false} SomeFreshest(s: Sys, q: set<nat>) returns (i: nat)
    requires Shape(s) && q != {} && forall j :: j in q ==> j < |s.nodes|
    ensures i in q && Freshest(s, i, q)
    decreases |q|
  {
    var x :| x in q;
    i := x;
    if q != {x} {
      var y := SomeFreshest(s, q - {x});
      NewerOrder(s.nodes[x].log, s.nodes[y].log, s.nodes[x].log);
      i := if AsNew(s.nodes[x].log, s.nodes[y].log) then x else y;
      forall j | j in q
        ensures AsNew(s.nodes[i].log, s.nodes[j].log)
      {
        NewerOrder(s.nodes[i].log, s.nodes[y].log, s.nodes[j].log);
      }
    }
  }

  lemma {:induction false} TopTerm(s: Sys, q: set<nat>) returns (top: nat)
    requires forall j :: j in q ==> j < |s.nodes|
    ensures forall j :: j in q ==> s.nodes[j].term <= top
    decreases |q|
  {
    top := 0;
    if q != {} {
      var x :| x in q;
      var rest := TopTerm(s, q - {x});
      top := if rest > s.nodes[x].term then rest else s.nodes[x].term;
    }
  }

  // ---- winning ----

  /** Candidate `i` still has to hear from `rem`, with whose votes it would have a majority. */
  ghost predicate Polling(s: Sys, i: nat, rem: set<nat>, q: set<nat>) {
    && At(s, q) && i in q && rem <= q && i !in rem && Short(s.nodes[i], |s.nodes|)
    && s.nodes[i].role == Candidate && VoteReq(Request(s.nodes[i], i)) in s.net
    && 2 * (s.nodes[i].votes + |rem|) > |s.nodes|
    && (forall j :: j in rem ==> (i, s.nodes[i].term, j) in s.waiting && s.nodes[j].term < s.nodes[i].term
                                 && AsNew(s.nodes[i].log, s.nodes[j].log))
    && forall j :: j in q ==> s.nodes[j].term <= s.nodes[i].term
  }

  /** The voter after it has granted the vote. */
  function Voted(n: Node, t: nat, i: nat): Node {
    n.(term := t, vote := i, role := Follower)
  }

  lemma Grants(n: Node, c: Node, i: nat)
    requires n.log != [] && c.log != [] && n.term < c.term && AsNew(c.log, n.log)
    ensures OnRequestVote(n, Request(c, i)) == (Voted(n, c.term, i), VoteReply(c.term, true))
  {
    GrantedIff(n, Request(c, i), c.log);
  }

  lemma Asked(s: Sys, i: nat, j: nat, q: set<nat>) returns (s': Sys)
    requires At(s, q) && i in q && j in q && i != j && VoteReq(Request(s.nodes[i], i)) in s.net
    requires s.nodes[j].term < s.nodes[i].term && AsNew(s.nodes[i].log, s.nodes[j].log)
    ensures Leads(s, s', q) && VoteRep(j, i, s.nodes[i].term, VoteReply(s.nodes[i].term, true)) in s'.net
    ensures s'.nodes == s.nodes[j := Voted(s.nodes[j], s.nodes[i].term, i)]
    ensures s.net <= s'.net && s'.waiting == s.waiting
  {
    Grants(s.nodes[j], s.nodes[i], i);
    s' := Does(s, RecvVoteReq(j, Request(s.nodes[i], i)), q);
    hide OnRequestVote, Leads, AsNew, Reachable, Shape;
  }

  lemma Hears(s: Sys, i: nat, j: nat, vr: VoteReply, q: set<nat>) returns (s': Sys)
    requires At(s, q) && i in q && VoteRep(j, i, s.nodes[i].term, vr) in s.net && (i, s.nodes[i].term, j) in s.waiting
    ensures Leads(s, s', q) && s'.net == s.net && s'.waiting == s.waiting - {(i, s.nodes[i].term, j)}
    ensures s'.nodes == s.nodes[i := OnVoteReply(s.nodes[i], |s.nodes|, s.nodes[i].term, vr)]
  {
    var t := s.nodes[i].term;
    s' := Does(s, RecvVoteRep(i, j, t, vr), q);
    assert s'.net == s.net && s'.waiting == s.waiting - {(i, t, j)} by { HearsFrame(s, i, j, t, vr); }
    hide OnVoteReply, Leads, Reachable, Shape, Next;
  }

  lemma HearsFrame(s: Sys, i: nat, j: nat, t: nat, vr: VoteReply)
    requires Shape(s) && i < |s.nodes| && Enabled(s, RecvVoteRep(i, j, t, vr))
    ensures var s' := Next(s, RecvVoteRep(i, j, t, vr)); s'.net == s.net && s'.waiting == s.waiting - {(i, t, j)}
  {
    hide OnVoteReply, Shape, Counts, WF;
    assert Next(s, RecvVoteRep(i, j, t, vr)) == DoVoteReply(s, i, j, t, vr);
  }

  /** A leader, and no node of `q` in a later term. */
  ghost predicate Leading(s: Sys, i: nat, q: set<nat>) {
    && At(s, q) && i in q && s.nodes[i].role == Leader
    && forall j :: j in q ==> s.nodes[j].term <= s.nodes[i].term
  }

  lemma PolledOne(s: Sys, i: nat, j: nat, rem: set<nat>, q: set<nat>) returns (s': Sys)
    requires Polling(s, i, rem, q) && j in rem
    ensures Leads(s, s', q) && s'.nodes[i].term == s.nodes[i].term && s'.nodes[i].log == s.nodes[i].log
    ensures Polling(s', i, rem - {j}, q)
      || (Leading(s', i, q) && s'.nodes[i].nextIndex == seq(|s.nodes|, _ => |s.nodes[i].log|))
  {
    var n := s.nodes[i];
    var vr := VoteReply(n.term, true);
    hide Goes, Reachable, AsNew, OnVoteReply, Short, Shape;
    var s1 := Asked(s, i, j, q);
    s' := Hears(s1, i, j, vr, q);
    LeadsOn(s, s1, s', q);
    AfterVote(s, s', i, j, rem, q);
  }

  lemma AfterVote(s: Sys, s': Sys, i: nat, j: nat, rem: set<nat>, q: set<nat>)
    requires Polling(s, i, rem, q) && j in rem && At(s', q) && |s'.nodes| == |s.nodes| && s.net <= s'.net
    requires var n := s.nodes[i];
      s'.nodes == s.nodes[j := Voted(s.nodes[j], n.term, i)][i := OnVoteReply(n, |s.nodes|, n.term,
        VoteReply(n.term, true))]
      && s'.waiting == s.waiting - {(i, n.term, j)}
    ensures s'.nodes[i].term == s.nodes[i].term && s'.nodes[i].log == s.nodes[i].log
    ensures Polling(s', i, rem - {j}, q)
      || (Leading(s', i, q) && s'.nodes[i].nextIndex == seq(|s.nodes|, _ => |s.nodes[i].log|))
  {
    var n := s.nodes[i];
    var vr := VoteReply(n.term, true);
    assert WF(n, |s.nodes|);
    hide Goes, Reachable, AsNew, Shape, WF;
    AfterCount(n, |s.nodes|);
    hide OnVoteReply, Short;
    assert s'.nodes[i] == OnVoteReply(n, |s.nodes|, n.term, vr);
    assert s'.nodes[j] == Voted(s.nodes[j], n.term, i);
    assert forall p :: 0 <= p < |s.nodes| && p != i && p != j ==> s'.nodes[p] == s.nodes[p];
    assert forall p :: p in q ==> s'.nodes[p].term <= n.term;
  }

  lemma AfterCount(n: Node, size: nat)
    requires WF(n, size) && Short(n, size) && n.role == Candidate
    ensures var n' := OnVoteReply(n, size, n.term, VoteReply(n.term, true));
      && n'.term == n.term && n'.log == n.log
      && (n'.role == Leader ==> n'.nextIndex == seq(size, _ => |n.log|))
      && (n'.role != Leader ==> n'.role == Candidate && n'.votes == n.votes + 1 && Short(n', size))
  {
  }

  lemma {:induction false} Polled(s: Sys, i: nat, rem: set<nat>, q: set<nat>) returns (s': Sys)
    requires Polling(s, i, rem, q)
    ensures Leads(s, s', q) && Leading(s', i, q) && s'.nodes[i].term == s.nodes[i].term
    ensures s'.nodes[i].log == s.nodes[i].log && s'.nodes[i].nextIndex == seq(|s.nodes|, _ => |s.nodes[i].log|)
    decreases |rem|
  {
    hide Goes, Reachable, AsNew, Shape;
    var j :| j in rem;
    s' := PolledOne(s, i, j, rem, q);
    if !Leading(s', i, q) {
      var s1 := s';
      s' := Polled(s1, i, rem - {j}, q);
      LeadsOn(s, s1, s', q);
    }
  }

  // ---- replicating ----

  lemma SendsMsg(s: Sys, i: nat, j: nat, q: set<nat>) returns (s': Sys)
    requires At(s, q) && i in q && j in q && i != j && s.nodes[i].role == Leader
    ensures Leads(s, s', q) && s'.nodes == s.nodes && s'.net == s.net + Sending(s.nodes[i], i, j, s.clock + 1)
    ensures s'.delivered == s.delivered
  {
    s' := Does(s, SendAppend(i, j), q);
    hide Leads, Sending, Reachable, Shape;
    assert s.nodes[i := s.nodes[i]] == s.nodes;
  }

  lemma HandlesMsg(s: Sys, j: nat, sn: nat, a: AppArgs, q: set<nat>) returns (s': Sys)
    requires At(s, q) && j in q && AppReq(j, sn, a) in s.net && sn >= Delivered(s, a.term, j)
    ensures Leads(s, s', q) && s'.nodes == s.nodes[j := OnAppendEntries(s.nodes[j], a).0]
    ensures AppRep(j, a, OnAppendEntries(s.nodes[j], a).1) in s'.net
  {
    s' := Does(s, RecvAppend(j, sn, a), q);
    hide Leads, OnAppendEntries, Reachable, Shape;
  }

  lemma TakesReply(s: Sys, i: nat, j: nat, a: AppArgs, r: AppReply, q: set<nat>) returns (s': Sys)
    requires At(s, q) && i in q && j in q && AppRep(j, a, r) in s.net && a.leader == i
    ensures Leads(s, s', q) && s'.nodes == s.nodes[i := OnAppendReply(s.nodes[i], i, j, a, r)]
  {
    s' := Does(s, RecvAppendRep(i, j, a, r), q);
    hide Leads, OnAppendReply, Reachable, Shape;
  }

  lemma HandlesSnap(s: Sys, j: nat, i: nat, t: nat, q: set<nat>) returns (s': Sys)
    requires At(s, q) && j in q && SnapReq(j, i, t) in s.net
    ensures Leads(s, s', q) && s'.nodes == s.nodes[j := OnInstallSnapshot(s.nodes[j], t).0]
    ensures SnapRep(j, i, OnInstallSnapshot(s.nodes[j], t).1) in s'.net
  {
    s' := Does(s, RecvSnap(j, i, t), q);
    hide Leads, OnInstallSnapshot, Reachable, Shape;
  }

  lemma TakesSnapReply(s: Sys, i: nat, j: nat, t: nat, q: set<nat>) returns (s': Sys)
    requires At(s, q) && i in q && j in q && SnapRep(j, i, t) in s.net
    ensures Leads(s, s', q) && s'.nodes == s.nodes[i := OnSnapshotReply(s.nodes[i], j, t)]
  {
    s' := Does(s, RecvSnapRep(i, j, t), q);
    hide Leads, OnSnapshotReply, Reachable, Shape;
  }

  /** Leader `i` can exchange a message with `j`. */
  ghost predicate Facing(s: Sys, i: nat, j: nat, q: set<nat>) {
    && At(s, q) && i in q && j in q && i != j && s.nodes[i].role == Leader
    && WF(s.nodes[i], |s.nodes|) && WF(s.nodes[j], |s.nodes|) && s.nodes[i].nextIndex[j] <= |s.nodes[i].log|
  }

  lemma SnapRound(s: Sys, i: nat, j: nat, q: set<nat>) returns (s': Sys)
    requires Facing(s, i, j, q) && WantsSnapshot(s.nodes[i], j)
    ensures Leads(s, s', q)
    ensures var (l, f, _) := Exchange(s.nodes[i], s.nodes[j], i, j); s'.nodes == s.nodes[j := f][i := l]
  {
    var t := s.nodes[i].term;
    var s1 := SendsMsg(s, i, j, q);
    hide Goes, Reachable, Shape, OnInstallSnapshot, OnSnapshotReply;
    var s2 := HandlesSnap(s1, j, i, t, q);
    s' := TakesSnapReply(s2, i, j, OnInstallSnapshot(s.nodes[j], t).1, q);
    LeadsOn(s, s1, s2, q);
    LeadsOn(s, s2, s', q);
  }

  lemma AppendRound(s: Sys, i: nat, j: nat, q: set<nat>) returns (s': Sys)
    requires Facing(s, i, j, q) && !WantsSnapshot(s.nodes[i], j)
    ensures Leads(s, s', q)
    ensures var (l, f, _) := Exchange(s.nodes[i], s.nodes[j], i, j); s'.nodes == s.nodes[j := f][i := l]
  {
    hide Delivered, Goes, Reachable, Shape, OnAppendEntries, OnAppendReply;
    var a := BuildAppend(s.nodes[i], i, j);
    InTime(s, a.term, j);
    var s1 := SendsMsg(s, i, j, q);
    SameDelivered(s, s1, a.term, j);
    var s2 := HandlesMsg(s1, j, s.clock + 1, a, q);
    s' := TakesReply(s2, i, j, a, OnAppendEntries(s.nodes[j], a).1, q);
    LeadsOn(s, s1, s2, q);
    LeadsOn(s, s2, s', q);
  }

  lemma InTime(s: Sys, t: nat, j: nat)
    requires Reachable(s)
    ensures Delivered(s, t, j) <= s.clock
  {
    hide InvE, InvL, InvM, Reachable;
    Known(s);
  }

  lemma SameDelivered(s: Sys, s': Sys, t: nat, j: nat)
    requires s'.delivered == s.delivered
    ensures Delivered(s', t, j) == Delivered(s, t, j)
  {
  }

  lemma Round(s: Sys, i: nat, j: nat, q: set<nat>) returns (s': Sys)
    requires Facing(s, i, j, q)
    ensures Leads(s, s', q)
    ensures var (l, f, _) := Exchange(s.nodes[i], s.nodes[j], i, j); s'.nodes == s.nodes[j := f][i := l]
  {
    hide Leads, Reachable, Exchange;
    if WantsSnapshot(s.nodes[i], j) {
      s' := SnapRound(s, i, j, q);
    } else {
      s' := AppendRound(s, i, j, q);
    }
  }

  /** What an exchange leaves alone, if the peer is in no later term. */
  lemma ExchangeKeeps(l: Node, f: Node, me: nat, j: nat)
    requires l.log != [] && f.log != [] && l.role == Leader && f.term <= l.term
    requires j < |l.nextIndex| && j < |l.matchIndex| && l.nextIndex[j] <= |l.log|
    ensures var (l', f', ok) := Exchange(l, f, me, j);
      && l'.role == Leader && l'.term == l.term && l'.log == l.log && l'.commit >= l.commit && f'.term == l.term
      && |l'.nextIndex| == |l.nextIndex| && |l'.matchIndex| == |l.matchIndex|
      && (forall p :: 0 <= p < |l.nextIndex| && p != j ==> l'.nextIndex[p] == l.nextIndex[p])
      && (forall p :: 0 <= p < |l.matchIndex| && p != j ==> l'.matchIndex[p] == l.matchIndex[p])
      && (!ok ==> f'.log == f.log)
  {
  }

  lemma LeadingFaces(s: Sys, i: nat, j: nat, q: set<nat>)
    requires Leading(s, i, q) && j in q && i != j
    ensures Facing(s, i, j, q) && Paired(s.llog, s.nodes[i], s.nodes[j], j)
  {
    Known(s);
    assert WF(s.nodes[i], |s.nodes|) && WF(s.nodes[j], |s.nodes|) && LogOk(s, i) && LogOk(s, j);
  }

  /** The leader is the same, and only what it knows of `j`, and `j` itself, may differ. */
  ghost predicate Keeps(s: Sys, s': Sys, i: nat, j: nat)
    requires |s.nodes| == |s'.nodes| && i < |s.nodes|
  {
    var l, l' := s.nodes[i], s'.nodes[i];
    && l'.role == Leader && l'.term == l.term && l'.log == l.log && l'.commit >= l.commit
    && |l'.nextIndex| == |l.nextIndex| && |l'.matchIndex| == |l.matchIndex|
    && (forall p :: 0 <= p < |l.nextIndex| && p != j ==> l'.nextIndex[p] == l.nextIndex[p])
    && (forall p :: 0 <= p < |l.matchIndex| && p != j ==> l'.matchIndex[p] == l.matchIndex[p])
    && forall p :: 0 <= p < |s.nodes| && p != i && p != j ==> s'.nodes[p] == s.nodes[p]
  }

  lemma KeepsOn(a: Sys, b: Sys, c: Sys, i: nat, j: nat)
    requires |a.nodes| == |b.nodes| == |c.nodes| && i < |a.nodes| && Keeps(a, b, i, j) && Keeps(b, c, i, j)
    ensures Keeps(a, c, i, j)
  {
  }

  /** One exchange of a leader with `j`. */
  lemma Exchanged(s: Sys, i: nat, j: nat, q: set<nat>) returns (s': Sys)
    requires Leading(s, i, q) && j in q && i != j
    ensures Facing(s, i, j, q) && Leads(s, s', q) && Leading(s', i, q) && Keeps(s, s', i, j)
    ensures var (l, f, ok) := Exchange(s.nodes[i], s.nodes[j], i, j);
      s'.nodes[i] == l && s'.nodes[j] == f && (!ok ==> f.log == s.nodes[j].log)
  {
    LeadingFaces(s, i, j, q);
    hide Exchange, Goes, Reachable, Shape, Paired;
    s' := Round(s, i, j, q);
    ExchangeKeeps(s.nodes[i], s.nodes[j], i, j);
    var (l, f, _) := Exchange(s.nodes[i], s.nodes[j], i, j);
    assert s'.nodes == s.nodes[j := f][i := l];
    AfterRound(s, s', i, j, l, f, q);
  }

  lemma AfterRound(s: Sys, s': Sys, i: nat, j: nat, l: Node, f: Node, q: set<nat>)
    requires Leading(s, i, q) && j in q && i != j && At(s', q) && s'.nodes == s.nodes[j := f][i := l]
    requires var n := s.nodes[i];
      && l.role == Leader && l.term == n.term && l.log == n.log && l.commit >= n.commit && f.term == n.term
      && |l.nextIndex| == |n.nextIndex| && |l.matchIndex| == |n.matchIndex|
      && (forall p :: 0 <= p < |n.nextIndex| && p != j ==> l.nextIndex[p] == n.nextIndex[p])
      && (forall p :: 0 <= p < |n.matchIndex| && p != j ==> l.matchIndex[p] == n.matchIndex[p])
    ensures s'.nodes[i] == l && s'.nodes[j] == f && Leading(s', i, q) && Keeps(s, s', i, j)
  {
    hide Reachable, Shape;
    assert forall p :: 0 <= p < |s.nodes| && p != i && p != j ==> s'.nodes[p] == s.nodes[p];
    assert forall p :: p in q ==> s'.nodes[p].term <= l.term;
  }

  /** Exchanges with `j` until it has the leader's whole log. */
  lemma {:induction false} Fed(s: Sys, i: nat, j: nat, q: set<nat>) returns (s': Sys)
    requires Leading(s, i, q) && j in q && i != j && |s.nodes[i].log| >= 2
    requires j < |s.nodes[i].nextIndex| && s.nodes[i].nextIndex[j] < |s.nodes[i].log|
    ensures Leads(s, s', q) && Leading(s', i, q) && Keeps(s, s', i, j) && s'.nodes[j].log == s.nodes[i].log
    ensures j < |s'.nodes[i].nextIndex| && s'.nodes[i].nextIndex[j] == |s.nodes[i].log|
    ensures j < |s'.nodes[i].matchIndex| && s'.nodes[i].matchIndex[j] == |s.nodes[i].log| - 1
    decreases Distance(s.nodes[i].nextIndex[j])
  {
    LeadingFaces(s, i, j, q);
    s' := Exchanged(s, i, j, q);
    if Exchange(s.nodes[i], s.nodes[j], i, j).2 {
      AcceptanceAgrees(s.llog, s.nodes[i], s.nodes[j], i, j);
      hide *;
    } else {
      RejectionLowers(s.llog, s.nodes[i], s.nodes[j], i, j);
      hide Exchange, Paired, Leads, Leading, Keeps, Facing;
      var s1 := s';
      SameLog(s, s1, i, j);
      s' := Fed(s1, i, j, q);
      FedFurther(s, s1, s', i, j, q);
    }
  }

  lemma SameLog(s: Sys, s': Sys, i: nat, j: nat)
    requires |s.nodes| == |s'.nodes| && i < |s.nodes| && Keeps(s, s', i, j)
    ensures s'.nodes[i].log == s.nodes[i].log
  {
  }

  lemma FedFurther(a: Sys, b: Sys, c: Sys, i: nat, j: nat, q: set<nat>)
    requires Leads(a, b, q) && Leads(b, c, q) && i < |a.nodes| && Keeps(a, b, i, j) && Keeps(b, c, i, j)
    ensures Leads(a, c, q) && Keeps(a, c, i, j)
  {
    LeadsOn(a, b, c, q);
    KeepsOn(a, b, c, i, j);
  }

  /** Leader `i` has brought its whole log to the nodes of `q`, except those of `rem`. */
  ghost predicate Feeding(s: Sys, i: nat, rem: set<nat>, q: set<nat>) {
    && Leading(s, i, q) && rem <= q && i !in rem && |s.nodes[i].log| >= 2 && WF(s.nodes[i], |s.nodes|)
    && (forall p :: p in rem ==> s.nodes[i].nextIndex[p] < |s.nodes[i].log|)
    && forall p :: p in q - rem && p != i ==>
         && s.nodes[i].matchIndex[p] == |s.nodes[i].log| - 1 && s.nodes[i].nextIndex[p] == |s.nodes[i].log|
         && s.nodes[p].log == s.nodes[i].log
  }

  lemma FedOne(s: Sys, i: nat, j: nat, rem: set<nat>, q: set<nat>) returns (s': Sys)
    requires Feeding(s, i, rem, q) && j in rem
    ensures Leads(s, s', q) && Feeding(s', i, rem - {j}, q)
    ensures s'.nodes[i].log == s.nodes[i].log && s'.nodes[i].term == s.nodes[i].term
  {
    s' := Fed(s, i, j, q);
    hide Reachable, Goes, Shape;
  }

  lemma {:induction false} FedAll(s: Sys, i: nat, rem: set<nat>, q: set<nat>) returns (s': Sys)
    requires Feeding(s, i, rem, q)
    ensures Leads(s, s', q) && Feeding(s', i, {}, q)
    ensures s'.nodes[i].log == s.nodes[i].log && s'.nodes[i].term == s.nodes[i].term
    decreases |rem|
  {
    assert Leading(s, i, q) && At(s, q);
    hide Feeding, Leads, Leading;
    if rem == {} {
      LeadsNowhere(s, q);
      s' := s;
    } else {
      var j :| j in rem;
      var s1 := FedOne(s, i, j, rem, q);
      s' := FedAll(s1, i, rem - {j}, q);
      LeadsOn(s, s1, s', q);
    }
  }

  // ---- committing and applying ----

  lemma BackedLast(l: Node, me: nat, i: nat, q: set<nat>)
    requires CaughtUp(l, me) && |l.matchIndex| > 1 && l.role == Leader && i < |l.log| && l.log[i].term == l.term
    requires Majority(q, |l.matchIndex|) && Hold(l, me, q, i)
    ensures i <= l.commit
  {
    assert Backed(l, me, i);
  }

  /** With its last entry at a majority of two or more, it has committed it. */
  lemma LastCommitted(s: Sys, i: nat, q: set<nat>)
    requires Feeding(s, i, {}, q) && Majority(q, |s.nodes|) && |s.nodes| > 1
    requires s.nodes[i].log[|s.nodes[i].log| - 1].term == s.nodes[i].term
    ensures s.nodes[i].commit == |s.nodes[i].log| - 1
  {
    hide InvE, InvL, DeliveredOk, Shape, Reachable, CaughtUp, Backed;
    Known(s);
    KnownApplied(s, i);
    var l, last := s.nodes[i], |s.nodes[i].log| - 1;
    assert CaughtUp(l, i) && |l.matchIndex| == |s.nodes|;
    assert Hold(l, i, q, last);
    hide Feeding, InvM;
    BackedLast(l, i, last, q);
  }

  /** The committed log of leader `i` is at every node of `q`, and all but those of `rem` know that it is committed. */
  ghost predicate Telling(s: Sys, i: nat, rem: set<nat>, q: set<nat>) {
    && Leading(s, i, q) && rem <= q && i !in rem && WF(s.nodes[i], |s.nodes|)
    && (forall p :: p in q ==> s.nodes[p].log == s.nodes[i].log)
    && (forall p :: p in q && p != i ==> s.nodes[i].nextIndex[p] == |s.nodes[i].log|)
    && forall p :: p in q - rem ==> s.nodes[p].commit == |s.nodes[i].log| - 1
  }

  lemma BeatCommits(l: Node, f: Node, me: nat, j: nat)
    requires l.role == Leader && f.term <= l.term && f.log == l.log && l.log != []
    requires j < |l.nextIndex| && j < |l.matchIndex| && l.nextIndex[j] == |l.log|
    requires l.commit == |l.log| - 1 && f.commit <= |f.log| - 1
    ensures var (l', f', ok) := Exchange(l, f, me, j);
      ok && f'.log == l.log && f'.commit == |l.log| - 1 && l'.nextIndex[j] == |l.log|
  {
  }

  lemma ToldOne(s: Sys, i: nat, j: nat, rem: set<nat>, q: set<nat>) returns (s': Sys)
    requires Telling(s, i, rem, q) && j in rem
    ensures Leads(s, s', q) && Telling(s', i, rem - {j}, q)
    ensures s'.nodes[i].log == s.nodes[i].log && s'.nodes[i].term == s.nodes[i].term
  {
    hide Reachable, Goes, Shape, Exchange;
    KnownApplied(s, j);
    s' := Exchanged(s, i, j, q);
    KnownApplied(s', i);
    BeatCommits(s.nodes[i], s.nodes[j], i, j);
  }

  lemma {:induction false} ToldAll(s: Sys, i: nat, rem: set<nat>, q: set<nat>) returns (s': Sys)
    requires Telling(s, i, rem, q)
    ensures Leads(s, s', q) && Telling(s', i, {}, q)
    ensures s'.nodes[i].log == s.nodes[i].log && s'.nodes[i].term == s.nodes[i].term
    decreases |rem|
  {
    assert Leading(s, i, q) && At(s, q);
    hide Telling, Leads, Leading;
    if rem == {} {
      LeadsNowhere(s, q);
      s' := s;
    } else {
      var j :| j in rem;
      var s1 := ToldOne(s, i, j, rem, q);
      s' := ToldAll(s1, i, rem - {j}, q);
      LeadsOn(s, s1, s', q);
    }
  }

  lemma AppliesNext(s: Sys, j: nat, q: set<nat>) returns (s': Sys)
    requires At(s, q) && j in q && s.nodes[j].lastApply < s.nodes[j].commit
    ensures Leads(s, s', q) && s'.nodes == s.nodes[j := s.nodes[j].(lastApply := s.nodes[j].lastApply + 1)]
  {
    s' := Does(s, ApplyNext(j), q);
    hide Leads, Reachable, Shape;
  }

  /** Node `j` applies all it knows to be committed. */
  lemma {:induction false} Drained(s: Sys, j: nat, q: set<nat>) returns (s': Sys)
    requires At(s, q) && j in q
    ensures Leads(s, s', q) && s'.nodes == s.nodes[j := s.nodes[j].(lastApply := s.nodes[j].commit)]
    decreases s.nodes[j].commit - s.nodes[j].lastApply
  {
    KnownApplied(s, j);
    hide Reachable, Goes, Shape;
    if s.nodes[j].lastApply < s.nodes[j].commit {
      var s1 := AppliesNext(s, j, q);
      s' := Drained(s1, j, q);
      LeadsOn(s, s1, s', q);
    } else {
      LeadsNowhere(s, q);
      s' := s;
    }
  }

  lemma {:induction false} DrainedAll(s: Sys, rem: set<nat>, q: set<nat>) returns (s': Sys)
    requires At(s, q) && rem <= q && forall p :: p in q - rem ==> s.nodes[p].lastApply == s.nodes[p].commit
    ensures Leads(s, s', q)
    ensures forall p :: 0 <= p < |s.nodes| ==> s'.nodes[p] == s.nodes[p].(lastApply := s'.nodes[p].lastApply)
    ensures forall p :: p in q ==> s'.nodes[p].lastApply == s.nodes[p].commit
    decreases |rem|
  {
    hide Reachable, Goes, Shape;
    if rem == {} {
      LeadsNowhere(s, q);
      s' := s;
    } else {
      var j :| j in rem;
      var s1 := Drained(s, j, q);
      s' := DrainedAll(s1, rem - {j}, q);
      LeadsOn(s, s1, s', q);
    }
  }

  // ---- all together ----

  lemma ReadyToPoll(s: Sys, s1: Sys, i: nat, top: nat, q: set<nat>)
    requires At(s, q) && At(s1, q) && i in q && Freshest(s, i, q) && Majority(q, |s.nodes|) && |s.nodes| > 1
    requires |s1.nodes| == |s.nodes| && s1.nodes == s.nodes[i := s1.nodes[i]] && Standing(s1, i)
    requires s1.nodes[i].log == s.nodes[i].log && s1.nodes[i].votes == 1 && s1.nodes[i].term == top + 1
    requires forall j :: j in q ==> s.nodes[j].term <= top
    ensures Polling(s1, i, q - {i}, q)
  {
    hide Reachable, Shape, AsNew;
    assert forall j :: j in q && j != i ==> s1.nodes[j] == s.nodes[j];
  }

  lemma Elected(s: Sys, q: set<nat>) returns (s': Sys, i: nat)
    requires At(s, q) && Majority(q, |s.nodes|) && |s.nodes| > 1
    ensures Leads(s, s', q) && Leading(s', i, q) && s'.nodes[i].nextIndex == seq(|s.nodes|, _ => |s'.nodes[i].log|)
  {
    assert q != {};
    i := SomeFreshest(s, q);
    var top := TopTerm(s, q);
    hide Reachable, Shape, Goes, Freshest, Standing, Polling;
    var s1 := StandsAbove(s, i, top, q);
    ReadyToPoll(s, s1, i, top, q);
    s' := Polled(s1, i, q - {i}, q);
    LeadsOn(s, s1, s', q);
  }

  /** The only node of its cluster elects itself. */
  lemma ElectedAlone(s: Sys, q: set<nat>) returns (s': Sys, i: nat)
    requires At(s, q) && Majority(q, |s.nodes|) && |s.nodes| == 1
    ensures Leads(s, s', q) && Leading(s', i, q) && s'.nodes[i].nextIndex == seq(|s.nodes|, _ => |s'.nodes[i].log|)
  {
    assert q != {};
    i :| i in q;
    assert WF(s.nodes[i], |s.nodes|);
    s' := Does(s, Timeout(i), q);
    hide Reachable, Goes, Shape;
  }

  /** The leader takes a command. */
  lemma Begun(s: Sys, i: nat, c: Cmd, q: set<nat>) returns (s': Sys)
    requires Leading(s, i, q) && s.nodes[i].nextIndex == seq(|s.nodes|, _ => |s.nodes[i].log|)
    ensures Leads(s, s', q) && Feeding(s', i, q - {i}, q)
    ensures s'.nodes[i].log == s.nodes[i].log + [RaftLog.Entry(s.nodes[i].term, c)]
    ensures s'.nodes[i].term == s.nodes[i].term
  {
    assert WF(s.nodes[i], |s.nodes|);
    s' := Does(s, ClientStart(i, c), q);
    assert WF(s'.nodes[i], |s.nodes|);
    hide Reachable, Goes, Shape;
  }

  lemma CommittedAlone(s: Sys, i: nat, q: set<nat>) returns (s': Sys)
    requires Feeding(s, i, {}, q) && |s.nodes| == 1
    requires s.nodes[i].log[|s.nodes[i].log| - 1].term == s.nodes[i].term
    ensures Leads(s, s', q) && Telling(s', i, {}, q)
    ensures s'.nodes[i].log == s.nodes[i].log && s'.nodes[i].term == s.nodes[i].term
  {
    hide Reachable, Goes, Shape, OnSoloCommit, CommitsBacked;
    AloneCommitsAll(s.nodes[i]);
    s' := Does(s, SoloCommit(i), q);
    assert s'.nodes[i] == OnSoloCommit(s.nodes[i], i);
    KnownApplied(s', i);
    hide Next, Acted;
    assert forall p :: p in q ==> p == i;
  }

  lemma ToTell(s: Sys, i: nat, q: set<nat>)
    requires Feeding(s, i, {}, q) && s.nodes[i].commit == |s.nodes[i].log| - 1
    ensures Telling(s, i, q - {i}, q)
  {
    hide Reachable, Shape;
  }

  /** From any leader on: its command is committed and known to be so at every node of the majority. */
  lemma Spread(s: Sys, i: nat, c: Cmd, q: set<nat>) returns (s': Sys)
    requires Leading(s, i, q) && Majority(q, |s.nodes|)
    requires s.nodes[i].nextIndex == seq(|s.nodes|, _ => |s.nodes[i].log|)
    ensures Leads(s, s', q) && Telling(s', i, {}, q) && |s'.nodes[i].log| >= 2
    ensures s'.nodes[i].log == s.nodes[i].log + [RaftLog.Entry(s'.nodes[i].term, c)]
  {
    KnownApplied(s, i);
    hide Reachable, Goes, Shape, Feeding, Telling;
    var s1 := Begun(s, i, c, q);
    var s2 := FedAll(s1, i, q - {i}, q);
    LeadsOn(s, s1, s2, q);
    if |s.nodes| == 1 {
      s' := CommittedAlone(s2, i, q);
    } else {
      LastCommitted(s2, i, q);
      ToTell(s2, i, q);
      s' := ToldAll(s2, i, q - {i}, q);
    }
    LeadsOn(s, s2, s', q);
  }

  /** All of the majority have applied the leader's log, which ends with the command. */
  ghost predicate Done(s: Sys, i: nat, c: Cmd, q: set<nat>) {
    && i in q && (forall j :: j in q ==> j < |s.nodes|) && s.nodes[i].role == Leader
    && |s.nodes[i].log| >= 2 && s.nodes[i].log[|s.nodes[i].log| - 1] == RaftLog.Entry(s.nodes[i].term, c)
    && |s.applied| == |s.nodes|
    && forall j :: j in q ==> s.applied[j] == Commands(s.nodes[i].log[1..])
  }

  lemma AllApplied(s: Sys, i: nat, c: Cmd, q: set<nat>) returns (s': Sys)
    requires Telling(s, i, {}, q) && |s.nodes[i].log| >= 2
    requires s.nodes[i].log[|s.nodes[i].log| - 1] == RaftLog.Entry(s.nodes[i].term, c)
    ensures Leads(s, s', q) && Done(s', i, c, q)
  {
    hide Reachable, Goes, Shape, Telling;
    ToldLogs(s, i, q);
    var log := s.nodes[i].log;
    s' := DrainedAll(s, q, q);
    assert forall p :: p in q ==> s'.nodes[p].log == log && s'.nodes[p].lastApply == |log| - 1;
    KnownShape(s');
    DoneNow(s', i, c, q, log);
  }

  lemma ToldLogs(s: Sys, i: nat, q: set<nat>)
    requires Telling(s, i, {}, q)
    ensures At(s, q) && i in q && i < |s.nodes| && s.nodes[i].role == Leader
    ensures forall p :: p in q ==> s.nodes[p].log == s.nodes[i].log && s.nodes[p].commit == |s.nodes[i].log| - 1
  {
    hide Reachable, Shape;
  }

  lemma DoneNow(s: Sys, i: nat, c: Cmd, q: set<nat>, log: seq<RaftLog.Entry>)
    requires At(s, q) && i in q && s.nodes[i].role == Leader && |s.applied| == |s.nodes|
    requires |log| >= 2 && log[|log| - 1] == RaftLog.Entry(s.nodes[i].term, c)
    requires forall p :: p in q ==> s.nodes[p].log == log && s.nodes[p].lastApply == |log| - 1
    ensures Done(s, i, c, q)
  {
    hide Reachable, Shape;
    forall j | j in q
      ensures s.applied[j] == Commands(log[1..])
    {
      AppliedAll(s, j);
    }
  }

  lemma KnownShape(s: Sys)
    requires Reachable(s)
    ensures Shape(s) && |s.applied| == |s.nodes| > 0
  {
    Known(s);
    hide InvE, InvL, InvM, DeliveredOk;
  }

  lemma AppliedAll(s: Sys, j: nat)
    requires Reachable(s) && j < |s.nodes| && s.nodes[j].log != [] && s.nodes[j].lastApply == |s.nodes[j].log| - 1
    ensures j < |s.applied| && s.applied[j] == Commands(s.nodes[j].log[1..])
  {
    KnownApplied(s, j);
    assert s.nodes[j].log[1..|s.nodes[j].log|] == s.nodes[j].log[1..];
  }

  lemma GetsThere(s: Sys, c: Cmd, q: set<nat>) returns (s': Sys, i: nat)
    requires Reachable(s) && Shape(s) && Majority(q, |s.nodes|)
    ensures Goes(s, s', q) && Done(s', i, c, q)
  {
    hide Reachable, Shape, Goes, Telling, Done, Leading;
    var s1;
    if |s.nodes| == 1 {
      s1, i := ElectedAlone(s, q);
    } else {
      Known(s);
      s1, i := Elected(s, q);
    }
    assert i < |s1.nodes| by { LeaderIs(s1, i, q); }
    var s2 := Spread(s1, i, c, q);
    assert i < |s2.nodes|;
    s' := AllApplied(s2, i, c, q);
    LeadsOn(s, s1, s2, q);
    LeadsOn(s, s2, s', q);
  }

  lemma LeaderIs(s: Sys, i: nat, q: set<nat>)
    requires Leading(s, i, q)
    ensures i in q && i < |s.nodes| && At(s, q)
  {
  }

  /**
   * Availability: wherever an in-order run of a cluster of any size has got to, and whatever the other nodes have
   * done to any of these, it can go on by steps of the nodes of one majority alone so that one of them is leader
   * and all of them have applied its whole log, with a given new command at its end.
   */
  lemma MajorityMakesProgress(ss: seq<Sys>, acts: seq<Action>, q: set<nat>, c: Cmd)
    returns (us: seq<Sys>, all: seq<Action>, i: nat)
    requires IsFifoRun(ss, acts) && Majority(q, |ss[|acts|].nodes|)
    ensures IsFifoRun(us, all) && ss <= us && acts <= all && forall k :: |acts| <= k < |all| ==> all[k].i in q
    ensures Done(us[|all|], i, c, q)
  {
    var s := ss[|acts|];
    assert Reachable(s);
    assert Shape(s) by { Known(s); }
    var s';
    s', i := GetsThere(s, c, q);
    var ts: seq<Sys>, more: seq<Action> :| Path(ts, more, q) && ts[0] == s && ts[|more|] == s';
    us, all := ss[..|acts|] + ts, acts + more;
    assert Steps(ts, more) && Ordered(ts, more);
    hide Steps, Ordered, Reachable, Done, Shape;
    RunIsSteps(ss, acts);
    Glued(ss, acts, ts, more);
    RunIsSteps(us, all);
    hide IsFifoRun;
    assert forall k :: 0 <= k < |more| ==> more[k].i in q;
  }
}
