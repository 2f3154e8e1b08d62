/**
 * A cluster of Raft nodes and its network, one atomic step per lock-held section.
 *
 * Packets are never removed from `net`, so any packet may be lost, delayed, reordered or delivered again.
 * The fields after `applied` are history: no step of a node reads them.
 */
module RaftSystem {
  import opened Numbers
  import opened RaftLog
  import opened RaftHandlers

  datatype Packet =
    | VoteReq(va: VoteArgs)
    | VoteRep(voter: nat, cand: nat, election: nat, vr: VoteReply)
    | AppReq(to: nat, sn: nat, aa: AppArgs)
    | AppRep(peer: nat, ra: AppArgs, ar: AppReply)
    | SnapReq(target: nat, leader: nat, term: nat)
    | SnapRep(source: nat, dest: nat, rterm: nat)

  /** Who won a term, by whose votes, and with which log. */
  datatype Election = Election(leader: nat, voters: set<nat>, log: seq<Entry>)

  datatype Sys = Sys(
    nodes: seq<Node>,
    net: set<Packet>,
    waiting: set<(nat, nat, nat)>,        // (candidate, term, peer): the vote goroutine has not returned
    clock: nat,                           // number of the last AppendEntries sent
    applied: seq<seq<Cmd>>,               // what each node handed to applyCh
    votes: map<(nat, nat), nat>,          // (voter, term) -> candidate voted for
    tally: seq<set<nat>>,                 // per node: the voters its current counter has counted
    candLog: map<(nat, nat), seq<Entry>>, // (candidate, term) -> its log when it stood
    elect: map<nat, Election>,            // term -> the election won in it
    llog: map<nat, seq<Entry>>,           // term -> the log of its leader, as last seen in that term
    synced: map<(nat, nat), nat>,         // (term, node) -> length of the leader's log the node confirmed so far
    delivered: map<(nat, nat), nat>,      // (term, node) -> number of the last AppendEntries delivered
    commits: set<(nat, nat)>)             // (term, index) a leader of that term committed by counting

  datatype Action =
    | Timeout(i: nat)
    | RecvVoteReq(i: nat, va: VoteArgs)
    | RecvVoteRep(i: nat, voter: nat, election: nat, vr: VoteReply)
    | SendAppend(i: nat, j: nat)
    | RecvAppend(i: nat, sn: nat, aa: AppArgs)
    | RecvAppendRep(i: nat, peer: nat, ra: AppArgs, ar: AppReply)
    | SoloCommit(i: nat)
    | ClientStart(i: nat, c: Cmd)
    | RecvSnap(i: nat, leader: nat, term: nat)
    | RecvSnapRep(i: nat, peer: nat, rterm: nat)
    | ApplyNext(i: nat)

  ghost predicate Shape(s: Sys) {
    && |s.tally| == |s.applied| == |s.nodes|
    && forall i :: 0 <= i < |s.nodes| ==> WF(s.nodes[i], |s.nodes|)
  }

  ghost function Init(size: nat): (s: Sys)
    ensures Shape(s)
  {
    Sys(seq(size, _ => Boot(size)), {}, {}, 0, seq(size, _ => []),
        map[], seq(size, _ => {}), map[], map[], map[], map[], map[], {})
  }

  ghost predicate Enabled(s: Sys, act: Action) {
    && act.i < |s.nodes|
    && match act
       case Timeout(i) => true
       case RecvVoteReq(i, va) => VoteReq(va) in s.net && i != va.cand
       case RecvVoteRep(i, voter, election, vr) =>
         VoteRep(voter, i, election, vr) in s.net && (i, election, voter) in s.waiting
       case SendAppend(i, j) => s.nodes[i].role == Leader && j < |s.nodes| && j != i
       case RecvAppend(i, sn, aa) => AppReq(i, sn, aa) in s.net
       case RecvAppendRep(i, peer, ra, ar) => AppRep(peer, ra, ar) in s.net && ra.leader == i && peer < |s.nodes|
       case SoloCommit(i) => s.nodes[i].role == Leader && |s.nodes| == 1
       case ClientStart(i, c) => true
       case RecvSnap(i, leader, term) => SnapReq(i, leader, term) in s.net
       case RecvSnapRep(i, peer, rterm) => SnapRep(peer, i, rterm) in s.net && peer < |s.nodes|
       case ApplyNext(i) => true
  }

  /** In-order delivery of AppendEntries, per leader, follower and term. */
  ghost predicate InOrder(s: Sys, act: Action) {
    act.RecvAppend? ==> act.sn >= Delivered(s, act.aa.term, act.i)
  }

  ghost function Delivered(s: Sys, t: nat, v: nat): nat {
    if (t, v) in s.delivered then s.delivered[(t, v)] else 0
  }

  ghost function Synced(s: Sys, t: nat, v: nat): nat {
    if (t, v) in s.synced then s.synced[(t, v)] else 0
  }

  /** Length of the leader's log when the message was built: the whole suffix is shipped. */
  ghost function Full(a: AppArgs): int {
    a.prev + 1 + |a.entries|
  }

  /** The message does not cut into what the follower confirmed to the leader of that term: it is turned down,
    * or it is empty, or it reaches at least as far. */
  ghost predicate Gentle(s: Sys, i: nat, aa: AppArgs)
    requires Shape(s) && i < |s.nodes|
  {
    Accepts(s.nodes[i], aa) && aa.entries != [] ==> Full(aa) >= Synced(s, aa.term, i)
  }

  ghost predicate Spares(s: Sys, act: Action)
    requires Shape(s) && act.i < |s.nodes|
  {
    act.RecvAppend? ==> Gentle(s, act.i, act.aa)
  }

  ghost function With(s: Sys, i: nat, n: Node): (r: Sys)
    requires Shape(s) && i < |s.nodes| && WF(n, |s.nodes|)
    ensures Shape(r) && |r.nodes| == |s.nodes|
  {
    s.(nodes := s.nodes[i := n])
  }

  /** Enter an election win of node `i` in its current term into the history. */
  ghost function Crown(s: Sys, i: nat): (r: Sys)
    requires Shape(s) && i < |s.nodes|
    ensures Shape(r) && |r.nodes| == |s.nodes|
  {
    var n := s.nodes[i];
    s.(elect := s.elect[n.term := Election(i, s.tally[i], n.log)],
       llog := s.llog[n.term := n.log],
       synced := s.synced[(n.term, i) := |n.log|])
  }

  ghost function DoTimeout(s: Sys, i: nat): (r: Sys)
    requires Shape(s) && i < |s.nodes|
    ensures Shape(r) && |r.nodes| == |s.nodes|
  {
    var n := OnTimeout(s.nodes[i], i, |s.nodes|);
    var log := s.nodes[i].log;
    var asked := set p: nat | p < |s.nodes| && p != i :: (i, n.term, p);
    var s1 := With(s, i, n).(
                net := s.net + {VoteReq(VoteArgs(n.term, i, LastIndex(log), LastTerm(log)))},
                waiting := s.waiting + asked,
                votes := s.votes[(i, n.term) := i],
                tally := s.tally[i := {i}],
                candLog := s.candLog[(i, n.term) := log]);
    if n.role == Leader then Crown(s1, i) else s1
  }

  ghost function DoRequestVote(s: Sys, i: nat, va: VoteArgs): (r: Sys)
    requires Shape(s) && i < |s.nodes|
    ensures Shape(r) && |r.nodes| == |s.nodes|
  {
    var (n, r) := OnRequestVote(s.nodes[i], va);
    With(s, i, n).(
      net := s.net + {VoteRep(i, va.cand, va.term, r)},
      votes := if r.granted then s.votes[(i, va.term) := va.cand] else s.votes)
  }

  ghost predicate Counts(n: Node, election: nat, vr: VoteReply) {
    n.role == Candidate && n.term == election && vr.term <= n.term && vr.granted
  }

  ghost function DoVoteReply(s: Sys, i: nat, voter: nat, election: nat, vr: VoteReply): (r: Sys)
    requires Shape(s) && i < |s.nodes|
    ensures Shape(r) && |r.nodes| == |s.nodes|
  {
    var n := OnVoteReply(s.nodes[i], |s.nodes|, election, vr);
    var s1 := With(s, i, n).(
                waiting := s.waiting - {(i, election, voter)},
                tally := if Counts(s.nodes[i], election, vr) then s.tally[i := s.tally[i] + {voter}] else s.tally);
    if Counts(s.nodes[i], election, vr) && n.role == Leader then Crown(s1, i) else s1
  }

  /** What the goroutine for peer `j` sends. Past the log it would panic; `NextIndexInBounds` shows it never does. */
  ghost function Sending(n: Node, i: nat, j: nat, sn: nat): set<Packet>
    requires j < |n.nextIndex|
  {
    if WantsSnapshot(n, j) then {SnapReq(j, i, n.term)}
    else if n.nextIndex[j] <= |n.log| then {AppReq(j, sn, BuildAppend(n, i, j))}
    else {}
  }

  ghost function DoSend(s: Sys, i: nat, j: nat): (r: Sys)
    requires Shape(s) && i < |s.nodes| && j < |s.nodes|
    ensures Shape(r) && |r.nodes| == |s.nodes|
  {
    s.(net := s.net + Sending(s.nodes[i], i, j, s.clock + 1), clock := s.clock + 1)
  }

  ghost function DoAppend(s: Sys, i: nat, sn: nat, aa: AppArgs): (r: Sys)
    requires Shape(s) && i < |s.nodes|
    ensures Shape(r) && |r.nodes| == |s.nodes|
  {
    var (n, r) := OnAppendEntries(s.nodes[i], aa);
    With(s, i, n).(
      net := s.net + {AppRep(i, aa, r)},
      delivered := s.delivered[(aa.term, i) := sn],
      synced := if r.success then s.synced[(aa.term, i) := Max(Full(aa), Synced(s, aa.term, i))] else s.synced)
  }

  ghost function NoteCommit(s: Sys, i: nat, n: Node): (r: Sys)
    requires Shape(s) && i < |s.nodes| && WF(n, |s.nodes|)
    ensures Shape(r) && |r.nodes| == |s.nodes|
  {
    With(s, i, n).(commits := if n.commit != s.nodes[i].commit then s.commits + {(n.term, n.commit)} else s.commits)
  }

  ghost function DoAppendRep(s: Sys, i: nat, peer: nat, ra: AppArgs, ar: AppReply): (r: Sys)
    requires Shape(s) && i < |s.nodes| && peer < |s.nodes|
    ensures Shape(r) && |r.nodes| == |s.nodes|
  {
    NoteCommit(s, i, OnAppendReply(s.nodes[i], i, peer, ra, ar))
  }

  ghost function DoSolo(s: Sys, i: nat): (r: Sys)
    requires Shape(s) && i < |s.nodes|
    ensures Shape(r) && |r.nodes| == |s.nodes|
  {
    NoteCommit(s, i, OnSoloCommit(s.nodes[i], i))
  }

  ghost function DoSnap(s: Sys, i: nat, leader: nat, term: nat): (r: Sys)
    requires Shape(s) && i < |s.nodes|
    ensures Shape(r) && |r.nodes| == |s.nodes|
  {
    var (n, t) := OnInstallSnapshot(s.nodes[i], term);
    With(s, i, n).(net := s.net + {SnapRep(i, leader, t)})
  }

  ghost function DoSnapRep(s: Sys, i: nat, peer: nat, rterm: nat): (r: Sys)
    requires Shape(s) && i < |s.nodes| && peer < |s.nodes|
    ensures Shape(r) && |r.nodes| == |s.nodes|
  {
    With(s, i, OnSnapshotReply(s.nodes[i], peer, rterm))
  }

  ghost function DoStart(s: Sys, i: nat, c: Cmd): (r: Sys)
    requires Shape(s) && i < |s.nodes|
    ensures Shape(r) && |r.nodes| == |s.nodes|
  {
    var n := OnStart(s.nodes[i], i, c);
    if n.role != Leader then s
    else With(s, i, n).(llog := s.llog[n.term := n.log], synced := s.synced[(n.term, i) := |n.log|])
  }

  ghost function DoApply(s: Sys, i: nat): (r: Sys)
    requires Shape(s) && i < |s.nodes|
    ensures Shape(r) && |r.nodes| == |s.nodes|
  {
    var (n, h) := OnApply(s.nodes[i]);
    With(s, i, n).(applied := if h.Deliver? then s.applied[i := s.applied[i] + [h.cmd]] else s.applied)
  }

  ghost function Next(s: Sys, act: Action): (r: Sys)
    requires Shape(s) && Enabled(s, act)
    ensures Shape(r) && |r.nodes| == |s.nodes|
  {
    match act
    case Timeout(i) => DoTimeout(s, i)
    case RecvVoteReq(i, va) => DoRequestVote(s, i, va)
    case RecvVoteRep(i, voter, election, vr) => DoVoteReply(s, i, voter, election, vr)
    case SendAppend(i, j) => DoSend(s, i, j)
    case RecvAppend(i, sn, aa) => DoAppend(s, i, sn, aa)
    case RecvAppendRep(i, peer, ra, ar) => DoAppendRep(s, i, peer, ra, ar)
    case SoloCommit(i) => DoSolo(s, i)
    case ClientStart(i, c) => DoStart(s, i, c)
    case RecvSnap(i, leader, term) => DoSnap(s, i, leader, term)
    case RecvSnapRep(i, peer, rterm) => DoSnapRep(s, i, peer, rterm)
    case ApplyNext(i) => DoApply(s, i)
  }

  // ---- frames ----

  /** Steps of node `i` that touch no log and confirm nothing. */
  ghost predicate Still(s: Sys, s': Sys, i: nat) {
    && Shape(s') && |s'.nodes| == |s.nodes| && i < |s.nodes|
    && (forall j :: 0 <= j < |s.nodes| && j != i ==> s'.nodes[j] == s.nodes[j])
    && s'.nodes[i].log == s.nodes[i].log && s.nodes[i].term <= s'.nodes[i].term
    && s.clock <= s'.clock
    && s'.llog == s.llog && s'.elect == s.elect && s'.synced == s.synced && s'.delivered == s.delivered
  }

  /** ... and let nobody stand for election. */
  ghost predicate Quiet(s: Sys, s': Sys, i: nat) {
    && Still(s, s', i)
    && (s'.nodes[i].role != Follower ==>
          s'.nodes[i].role == s.nodes[i].role && s'.nodes[i].term == s.nodes[i].term)
    && s'.candLog == s.candLog
  }

  lemma QuietRequestVote(s: Sys, i: nat, va: VoteArgs)
    requires Shape(s) && i < |s.nodes|
    ensures Quiet(s, DoRequestVote(s, i, va), i)
  {
  }

  /** The vote reply that completes a majority. */
  ghost predicate Crowns(s: Sys, i: nat, election: nat, vr: VoteReply)
    requires i < |s.nodes|
  {
    Counts(s.nodes[i], election, vr) && OnVoteReply(s.nodes[i], |s.nodes|, election, vr).role == Leader
  }

  lemma QuietVoteReply(s: Sys, i: nat, voter: nat, election: nat, vr: VoteReply)
    requires Shape(s) && i < |s.nodes| && !Crowns(s, i, election, vr)
    ensures Quiet(s, DoVoteReply(s, i, voter, election, vr), i)
  {
  }

  lemma QuietSend(s: Sys, i: nat, j: nat)
    requires Shape(s) && i < |s.nodes| && j < |s.nodes|
    ensures Quiet(s, DoSend(s, i, j), i)
  {
  }

  lemma QuietAppendRep(s: Sys, i: nat, peer: nat, ra: AppArgs, ar: AppReply)
    requires Shape(s) && i < |s.nodes| && peer < |s.nodes|
    ensures Quiet(s, DoAppendRep(s, i, peer, ra, ar), i)
  {
  }

  lemma QuietSolo(s: Sys, i: nat)
    requires Shape(s) && i < |s.nodes|
    ensures Quiet(s, DoSolo(s, i), i)
  {
  }

  lemma QuietSnap(s: Sys, i: nat, leader: nat, term: nat)
    requires Shape(s) && i < |s.nodes|
    ensures Quiet(s, DoSnap(s, i, leader, term), i)
  {
  }

  lemma QuietSnapRep(s: Sys, i: nat, peer: nat, rterm: nat)
    requires Shape(s) && i < |s.nodes| && peer < |s.nodes|
    ensures Quiet(s, DoSnapRep(s, i, peer, rterm), i)
  {
  }

  lemma QuietApply(s: Sys, i: nat)
    requires Shape(s) && i < |s.nodes|
    ensures Quiet(s, DoApply(s, i), i)
  {
  }

  /** A run: every state follows from the one before by an enabled step. */
  ghost predicate IsRun(ss: seq<Sys>, acts: seq<Action>) {
    && |ss| == |acts| + 1
    && |ss[0].nodes| > 0
    && ss[0] == Init(|ss[0].nodes|)
    && forall k :: 0 <= k < |acts| ==> Shape(ss[k]) && Enabled(ss[k], acts[k]) && ss[k + 1] == Next(ss[k], acts[k])
  }

  /** A run in which no message that is handled cuts into what its receiver confirmed. */
  ghost predicate IsSparingRun(ss: seq<Sys>, acts: seq<Action>) {
    && IsRun(ss, acts)
    && forall k :: 0 <= k < |acts| ==> Spares(ss[k], acts[k])
  }

  /** A run in which the network keeps AppendEntries in order. */
  ghost predicate IsFifoRun(ss: seq<Sys>, acts: seq<Action>) {
    && IsRun(ss, acts)
    && forall k :: 0 <= k < |acts| ==> InOrder(ss[k], acts[k])
  }

  // ---- majorities ----

  ghost predicate Majority(q: set<nat>, size: nat) {
    2 * |q| > size && forall x :: x in q ==> x < size
  }

  lemma SubsetSize(a: set<nat>, b: set<nat>)
    requires a <= b
    ensures |a| <= |b|
  {
    assert b == a + (b - a);
  }

  lemma RangeSize(q: set<nat>, size: nat)
    requires forall x :: x in q ==> x < size
    ensures |q| <= size
  {
    if size == 0 {
      assert q == {};
    } else {
      RangeSize(q - {size - 1}, size - 1);
      SubsetSize(q, (q - {size - 1}) + {size - 1});
    }
  }

  /** Any two majorities share a node. */
  lemma Quorum(a: set<nat>, b: set<nat>, size: nat) returns (w: nat)
    requires Majority(a, size) && Majority(b, size)
    ensures w in a && w in b
  {
    if a * b == {} {
      RangeSize(a + b, size);
      assert false;
    }
    w :| w in a * b;
  }
}
