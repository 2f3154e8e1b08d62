/**
 * Particular runs: that a command gets through, that the snapshot branch is reached, and that without
 * any order among the messages of a leader two nodes apply different commands.
 */
module RaftRuns {
  import opened RaftLog
  import opened RaftHandlers
  import opened RaftSystem
  import opened RaftSteps

  // ---- one node ----

  /** In a one-node cluster an election, a command, the commit and the hand-over are a run. */
  lemma CommandReachesState(c: Cmd) returns (ss: seq<Sys>, acts: seq<Action>)
    ensures IsFifoRun(ss, acts) && |ss| == 5 && ss[4].applied == [[c]] && ss[4].commits == {(1, 1)}
  {
    AloneCommits(c);
    var s0 := Init(1);
    hide DoTimeout, DoStart, DoSolo, DoApply, WF;
    var s1 := DoTimeout(s0, 0);
    var s2 := DoStart(s1, 0, c);
    var s3 := DoSolo(s2, 0);
    var s4 := DoApply(s3, 0);
    ss, acts := [s0, s1, s2, s3, s4], [Timeout(0), ClientStart(0, c), SoloCommit(0), ApplyNext(0)];
  }

  lemma AloneCommits(c: Cmd)
    ensures var s2 := DoStart(DoTimeout(Init(1), 0), 0, c);
      var s4 := DoApply(DoSolo(s2, 0), 0);
      s2.nodes[0].role == Leader && s4.applied == [[c]] && s4.commits == {(1, 1)}
  {
    AloneWins();
    var s1 := DoTimeout(Init(1), 0);
    hide DoTimeout;
    var s2 := DoStart(s1, 0, c);
    var n2 := Node(Leader, 1, 0, [DUMMY, Entry(1, c)], 0, 0, [1], [0], 1, 0);
    assert s2.nodes[0] == n2;
    SoloCommits(n2, c);
    var s3 := DoSolo(s2, 0);
    assert s3.nodes[0] == n2.(commit := 1, matchIndex := [1]);
    assert s3.applied[0] == [] && [] + [c] == [c];
    assert DoApply(s3, 0).applied[0] == [c];
  }

  lemma AloneWins()
    ensures var s := DoTimeout(Init(1), 0);
      && s.nodes == [Node(Leader, 1, 0, [DUMMY], 0, 0, [1], [0], 1, 0)] && s.applied == [[]] && s.commits == {}
  {
    var s := DoTimeout(Init(1), 0);
    assert s.nodes[0].nextIndex == [1] && s.nodes[0].matchIndex == [0];
  }

  lemma SoloCommits(n: Node, c: Cmd)
    requires n == Node(Leader, 1, 0, [DUMMY, Entry(1, c)], 0, 0, [1], [0], 1, 0)
    ensures OnSoloCommit(n, 0) == n.(commit := 1, matchIndex := [1])
  {
    var m := n.(matchIndex := [1]);
    assert n.matchIndex[0 := 1] == [1];
    assert Holders(m.matchIndex, 0, 1) == {0};
    assert Committable(m, 0, 1);
    assert CommitPoint(m, 0, 1) == 1;
  }

  // ---- three nodes ----

  ghost predicate Trio(s: Sys, a: Node, b: Node, c: Node, x: seq<Cmd>, y: seq<Cmd>, w: Way) {
    Shape(s) && Reached(s, w) && s.nodes == [a, b, c] && s.applied == [x, y, []]
  }

  function Fresh(): Node {
    Node(Follower, 0, -1, [DUMMY], 0, 0, [0, 0, 0], [0, 0, 0], 0, 0)
  }

  function FirstLeader(log: seq<Entry>): Node {
    Node(Leader, 1, 0, log, 0, 0, [1, 1, 1], [0, 0, 0], 2, 0)
  }

  function Voter(log: seq<Entry>): Node {
    Node(Follower, 1, 0, log, 0, 0, [0, 0, 0], [0, 0, 0], 0, 0)
  }

  lemma StartsAtInit(fifo: bool)
    ensures Start(fifo).fifo == fifo && |Start(fifo).ss| > 0 && Start(fifo).ss[0] == Init(3)
  {
  }

  ghost function Start(fifo: bool): Way {
    From(Init(3), fifo)
  }

  /** Node 0 wins term 1 with the vote of node 1. */
  lemma FirstElection(fifo: bool) returns (s: Sys)
    ensures Trio(s, FirstLeader([DUMMY]), Voter([DUMMY]), Fresh(), [], [], Start(fifo)) && s.delivered == map[]
  {
    var s0 := Init(3);
    Begin(s0, fifo);
    assert Boot(3).nextIndex == [0, 0, 0] && Boot(3).matchIndex == [0, 0, 0];
    assert s0.nodes == [Fresh(), Fresh(), Fresh()] && s0.applied == [[], [], []];
    s := Elects(s0, 0, 1, Start(fifo));
    assert s.nodes == [FirstLeader([DUMMY]), Voter([DUMMY]), Fresh()];
  }

  /** The leader of term 1 with two entries confirmed by node 1, and committed. */
  function Committed(e1: Entry, e2: Entry): Node {
    Node(Leader, 1, 0, [DUMMY, e1, e2], 2, 0, [1, 3, 1], [0, 2, 0], 2, 0)
  }

  /** Node 0 sends its first entry on its way, then both its entries, which node 1 takes; it commits and applies
    * both. */
  lemma TwoCommitted(c1: Cmd, c2: Cmd) returns (s: Sys, sn: nat)
    ensures var e1, e2 := Entry(1, c1), Entry(1, c2);
      && Trio(s, Committed(e1, e2).(lastApply := 2), Voter([DUMMY, e1, e2]), Fresh(), [c1, c2], [], Start(false))
      && AppReq(1, sn, AppArgs(0, 1, 0, 0, [e1], 0)) in s.net
  {
    var e1, e2 := Entry(1, c1), Entry(1, c2);
    var s1, n := OneSent(c1);
    sn := n;
    var s2 := TwoTaken(s1, c1, c2);
    s := AppliedTwo(s2, 0, Start(false));
    assert [] + [c1, c2] == [c1, c2];
  }

  lemma TwoTaken(s: Sys, c1: Cmd, c2: Cmd) returns (s': Sys)
    requires Trio(s, FirstLeader([DUMMY, Entry(1, c1)]), Voter([DUMMY]), Fresh(), [], [], Start(false))
    ensures var e1, e2 := Entry(1, c1), Entry(1, c2);
      Trio(s', Committed(e1, e2), Voter([DUMMY, e1, e2]), Fresh(), [], [], Start(false)) && s.net <= s'.net
  {
    var e1, e2 := Entry(1, c1), Entry(1, c2);
    var s1 := Started(s, 0, c2, Start(false));
    assert [DUMMY, e1] + [e2] == [DUMMY, e1, e2];
    assert s1.nodes == [FirstLeader([DUMMY, e1, e2]), Voter([DUMMY]), Fresh()];
    TakesTwo(e1, e2);
    hide OnAppendEntries, OnAppendReply, BuildAppend, Accepts;
    s' := Replicates(s1, 0, 1, Start(false));
    assert s'.nodes == [Committed(e1, e2), Voter([DUMMY, e1, e2]), Fresh()];
  }

  lemma OneSent(c1: Cmd) returns (s: Sys, sn: nat)
    ensures var e1 := Entry(1, c1);
      && Trio(s, FirstLeader([DUMMY, e1]), Voter([DUMMY]), Fresh(), [], [], Start(false))
      && AppReq(1, sn, AppArgs(0, 1, 0, 0, [e1], 0)) in s.net
  {
    var e1 := Entry(1, c1);
    var s1 := FirstElection(false);
    var s2 := Started(s1, 0, c1, Start(false));
    assert [DUMMY] + [e1] == [DUMMY, e1];
    assert s2.nodes == [FirstLeader([DUMMY, e1]), Voter([DUMMY]), Fresh()];
    s := Sent(s2, 0, 1, Start(false));
    sn := s2.clock + 1;
    assert [DUMMY, e1][1..] == [e1];
    assert AppReq(1, sn, AppArgs(0, 1, 0, 0, [e1], 0)) in s.net;
  }

  lemma TakesTwo(e1: Entry, e2: Entry)
    requires e1.term == e2.term == 1
    ensures var l := FirstLeader([DUMMY, e1, e2]);
      var a := BuildAppend(l, 0, 1);
      && a == AppArgs(0, 1, 0, 0, [e1, e2], 0) && Accepts(Voter([DUMMY]), a)
      && OnAppendEntries(Voter([DUMMY]), a).0 == Voter([DUMMY, e1, e2])
      && OnAppendReply(l, 0, 1, a, AppReply(true, 1, 0)) == Committed(e1, e2)
  {
    assert [DUMMY, e1, e2][1..] == [e1, e2];
    MergesTwo(e1, e2);
    CommitsBoth(e1, e2);
    hide OnAppendEntries, OnAppendReply;
  }

  lemma MergesTwo(e1: Entry, e2: Entry)
    ensures OnAppendEntries(Voter([DUMMY]), AppArgs(0, 1, 0, 0, [e1, e2], 0)).0 == Voter([DUMMY, e1, e2])
  {
    assert Agreeing([DUMMY], 1, [e1, e2]) == 0;
    assert Merged([DUMMY], 1, [e1, e2]) == [DUMMY, e1, e2];
  }

  lemma CommitsBoth(e1: Entry, e2: Entry)
    requires e2.term == 1
    ensures var l := FirstLeader([DUMMY, e1, e2]);
      OnAppendReply(l, 0, 1, AppArgs(0, 1, 0, 0, [e1, e2], 0), AppReply(true, 1, 0)) == Committed(e1, e2)
  {
    var l := FirstLeader([DUMMY, e1, e2]);
    var m := l.(nextIndex := [1, 3, 1], matchIndex := [0, 2, 0]);
    assert l.nextIndex[1 := 3] == [1, 3, 1] && l.matchIndex[1 := 2] == [0, 2, 0];
    TwoHolders(m.matchIndex, 0, 1);
    assert Committable(m, 0, 2);
    assert CommitPoint(m, 0, 2) == 2;
  }

  lemma TwoHolders(matchIndex: seq<int>, i: nat, j: nat)
    requires |matchIndex| == 3 && i < 3 && j < 3 && i != j && matchIndex[j] >= 2
    requires forall k :: 0 <= k < 3 && k != i && k != j ==> matchIndex[k] < 2
    ensures Holders(matchIndex, i, 2) == {i, j} && |Holders(matchIndex, i, 2)| == 2
  {
    assert Holders(matchIndex, i, 2) == {i, j};
  }

  /** The first message arrives last and takes the acknowledged, committed, applied entry away from node 1. */
  lemma LateArrival(s: Sys, sn: nat, c1: Cmd, c2: Cmd) returns (s': Sys)
    requires var e1, e2 := Entry(1, c1), Entry(1, c2);
      && Trio(s, Committed(e1, e2).(lastApply := 2), Voter([DUMMY, e1, e2]), Fresh(), [c1, c2], [], Start(false))
      && AppReq(1, sn, AppArgs(0, 1, 0, 0, [e1], 0)) in s.net
    ensures var e1, e2 := Entry(1, c1), Entry(1, c2);
      Trio(s', Committed(e1, e2).(lastApply := 2), Voter([DUMMY, e1]), Fresh(), [c1, c2], [], Start(false))
  {
    var e1, e2 := Entry(1, c1), Entry(1, c2);
    var m := AppArgs(0, 1, 0, 0, [e1], 0);
    CutsBack(e1, e2);
    hide OnAppendEntries;
    s' := Received(s, 1, sn, m, Start(false));
    assert s'.nodes == [Committed(e1, e2).(lastApply := 2), Voter([DUMMY, e1]), Fresh()];
  }

  lemma CutsBack(e1: Entry, e2: Entry)
    requires e1.term == e2.term == 1
    ensures OnAppendEntries(Voter([DUMMY, e1, e2]), AppArgs(0, 1, 0, 0, [e1], 0)).0 == Voter([DUMMY, e1])
  {
    assert [e1][1..] == [];
    assert Agreeing([DUMMY, e1, e2], 1, [e1]) == 1;
    assert Merged([DUMMY, e1, e2], 1, [e1]) == [DUMMY, e1];
  }

  function SecondLeader(log: seq<Entry>): Node {
    Node(Leader, 2, 1, log, 0, 0, [2, 2, 2], [0, 0, 0], 2, if |log| > 2 then 1 else 0)
  }

  /** Node 1 wins term 2 with the vote of node 2 and appends another command. */
  lemma SecondElection(s: Sys, a: Node, c1: Cmd, c3: Cmd, x: seq<Cmd>) returns (s': Sys)
    requires Trio(s, a, Voter([DUMMY, Entry(1, c1)]), Fresh(), x, [], Start(false))
    ensures Trio(s', a, SecondLeader([DUMMY, Entry(1, c1), Entry(2, c3)]), Fresh().(term := 2, vote := 1), x, [],
      Start(false))
  {
    var e1, e3 := Entry(1, c1), Entry(2, c3);
    var s1 := Elects(s, 1, 2, Start(false));
    assert s1.nodes == [a, SecondLeader([DUMMY, e1]), Fresh().(term := 2, vote := 1)];
    s' := Started(s1, 1, c3, Start(false));
    assert [DUMMY, e1] + [e3] == [DUMMY, e1, e3];
    assert s'.nodes == [a, SecondLeader([DUMMY, e1, e3]), Fresh().(term := 2, vote := 1)];
  }

  /** Node 0 takes the new entry in place of the one it has applied; node 1 commits and applies it. */
  lemma Overwritten(s: Sys, c1: Cmd, c2: Cmd, c3: Cmd) returns (s': Sys)
    requires var e1, e2, e3 := Entry(1, c1), Entry(1, c2), Entry(2, c3);
      Trio(s, Committed(e1, e2).(lastApply := 2), SecondLeader([DUMMY, e1, e3]), Fresh().(term := 2, vote := 1),
        [c1, c2], [], Start(false))
    ensures Reached(s', Start(false)) && s'.applied == [[c1, c2], [c1, c3], []]
  {
    var e1, e2, e3 := Entry(1, c1), Entry(1, c2), Entry(2, c3);
    var l := SecondLeader([DUMMY, e1, e3]);
    var a := BuildAppend(l, 1, 0);
    TakesOne(Committed(e1, e2).(lastApply := 2), e1, e2, e3);
    CommitsTwo(e1, e3);
    var s1 := Replicates(s, 1, 0, Start(false));
    hide OnAppendEntries, OnAppendReply, BuildAppend;
    assert s1.nodes[1] == SecondCommitted(e1, e3);
    s' := AppliedTwo(s1, 1, Start(false));
    assert [] + [c1, c3] == [c1, c3];
  }

  function SecondCommitted(e1: Entry, e3: Entry): Node {
    SecondLeader([DUMMY, e1, e3]).(commit := 2, nextIndex := [3, 2, 2], matchIndex := [2, 0, 0])
  }

  lemma TakesOne(n: Node, e1: Entry, e2: Entry, e3: Entry)
    requires n.log == [DUMMY, e1, e2] && n.term <= 2 && e1.term == 1
    ensures Accepts(n, BuildAppend(SecondLeader([DUMMY, e1, e3]), 1, 0))
  {
  }

  lemma CommitsTwo(e1: Entry, e3: Entry)
    requires e1.term == 1 && e3.term == 2
    ensures var l := SecondLeader([DUMMY, e1, e3]);
      OnAppendReply(l, 1, 0, BuildAppend(l, 1, 0), AppReply(true, 2, 0)) == SecondCommitted(e1, e3)
  {
    var l := SecondLeader([DUMMY, e1, e3]);
    var m := l.(nextIndex := [3, 2, 2], matchIndex := [2, 0, 0]);
    assert l.nextIndex[0 := 3] == [3, 2, 2] && l.matchIndex[0 := 2] == [2, 0, 0];
    TwoHolders(m.matchIndex, 1, 0);
    assert Committable(m, 1, 2);
  }

  /** Without order there is no state machine safety: for any commands there is a run, of three nodes,
    * after which two of them have applied different second commands. */
  lemma UnsafeWithoutOrder(c1: Cmd, c2: Cmd, c3: Cmd) returns (ss: seq<Sys>, acts: seq<Action>)
    requires c2 != c3
    ensures IsRun(ss, acts) && |ss| == |acts| + 1 && ss[|acts|].applied == [[c1, c2], [c1, c3], []]
    ensures var x, y := ss[|acts|].applied[0], ss[|acts|].applied[1]; !(x <= y) && !(y <= x)
  {
    var s1, sn := TwoCommitted(c1, c2);
    var s2 := LateArrival(s1, sn, c1, c2);
    var s3 := SecondElection(s2, Committed(Entry(1, c1), Entry(1, c2)).(lastApply := 2), c1, c3, [c1, c2]);
    var s4 := Overwritten(s3, c1, c2, c3);
    ss, acts := Retrace(s4, Start(false));
    StepsRun(ss, acts, Start(false), 3);
    assert [c1, c2][1] != [c1, c3][1];
  }

  // ---- in order: a commit by majority, and the snapshot branch ----

  /** The leader of term 1 with one entry confirmed by node 1, and committed. */
  function OneCommitted(e1: Entry): Node {
    Node(Leader, 1, 0, [DUMMY, e1], 1, 0, [1, 2, 1], [0, 1, 0], 2, 0)
  }

  lemma OneTaken(c: Cmd) returns (s: Sys)
    ensures Trio(s, OneCommitted(Entry(1, c)), Voter([DUMMY, Entry(1, c)]), Fresh(), [], [], Start(true))
    ensures forall k :: k in s.delivered ==> k == (1, 1)
  {
    var e1 := Entry(1, c);
    var s2 := OneStarted(c);
    TakesFirst(e1);
    hide OnAppendEntries, OnAppendReply, BuildAppend, Accepts;
    s := Replicates(s2, 0, 1, Start(true));
    assert s.nodes == [OneCommitted(e1), Voter([DUMMY, e1]), Fresh()];
  }

  lemma OneStarted(c: Cmd) returns (s: Sys)
    ensures Trio(s, FirstLeader([DUMMY, Entry(1, c)]), Voter([DUMMY]), Fresh(), [], [], Start(true))
    ensures s.delivered == map[]
  {
    var s1 := FirstElection(true);
    s := Started(s1, 0, c, Start(true));
    assert [DUMMY] + [Entry(1, c)] == [DUMMY, Entry(1, c)];
    assert s.nodes == [FirstLeader([DUMMY, Entry(1, c)]), Voter([DUMMY]), Fresh()];
  }

  lemma TakesFirst(e1: Entry)
    requires e1.term == 1
    ensures var l := FirstLeader([DUMMY, e1]);
      var a := BuildAppend(l, 0, 1);
      && Accepts(Voter([DUMMY]), a) && a.term == 1
      && OnAppendEntries(Voter([DUMMY]), a).0 == Voter([DUMMY, e1])
      && OnAppendReply(l, 0, 1, a, AppReply(true, 1, 0)) == OneCommitted(e1)
  {
    var l := FirstLeader([DUMMY, e1]);
    var a := BuildAppend(l, 0, 1);
    assert a.entries == [e1];
    assert Merged([DUMMY], 1, [e1]) == [DUMMY, e1];
    var m := l.(nextIndex := [1, 2, 1], matchIndex := [0, 1, 0]);
    assert l.nextIndex[1 := 2] == [1, 2, 1] && l.matchIndex[1 := 1] == [0, 1, 0];
    assert Holders(m.matchIndex, 0, 1) == {0, 1} && |{0, 1}| == 2;
    assert Committable(m, 0, 1);
  }

  /** Three nodes, in order: any command is committed by a majority and applied. */
  lemma MajorityCommits(c: Cmd) returns (ss: seq<Sys>, acts: seq<Action>)
    ensures IsFifoRun(ss, acts) && |ss| == |acts| + 1 && ss[|acts|].applied == [[c], [], []]
  {
    var s1 := OneTaken(c);
    var s2 := AppliedOne(s1, 0, Start(true));
    assert [] + [c] == [c];
    assert s2.applied == [[c], [], []];
    ss, acts := Retrace(s2, Start(true));
    StepsRun(ss, acts, Start(true), 3);
  }

  /** The leader of term 2 as it starts. */
  function Successor(e1: Entry, next2: int): Node {
    Node(Leader, 2, 1, [DUMMY, e1], 0, 0, [2, 2, next2], [0, 0, 0], 2, 0)
  }

  function Behind(leader: int): Node {
    Fresh().(term := 2, vote := 1, nowLeader := leader)
  }

  /** Three nodes, in order: a leader whose log is ahead of an empty follower's is sent back to `nextIndex` 0,
    * takes the snapshot branch, and the follower handles the snapshot message. */
  lemma SnapshotBranchReached(c: Cmd) returns (ss: seq<Sys>, acts: seq<Action>)
    ensures IsFifoRun(ss, acts) && |ss| == |acts| + 1 && |acts| > 0 && Shape(ss[|acts|])
    ensures acts[|acts| - 1] == RecvSnap(2, 1, 2)
    ensures ss[|acts|].nodes == [OneCommitted(Entry(1, c)), Successor(Entry(1, c), 0), Behind(1)]
    ensures WantsSnapshot(ss[|acts|].nodes[1], 2)
  {
    var e1 := Entry(1, c);
    var s1 := OneTaken(c);
    var s2 := Elects(s1, 1, 2, Start(true));
    assert s2.nodes == [OneCommitted(e1), Successor(e1, 2), Behind(0)];
    var s3 := TurnedDown(s2, e1);
    ss, acts := SnapshotSent(s3, e1);
  }

  lemma SnapshotSent(s: Sys, e1: Entry) returns (ss: seq<Sys>, acts: seq<Action>)
    requires Shape(s) && Reached(s, Start(true)) && s.nodes == [OneCommitted(e1), Successor(e1, 0), Behind(1)]
    ensures IsFifoRun(ss, acts) && |ss| == |acts| + 1 && |acts| > 0 && Shape(ss[|acts|])
    ensures acts[|acts| - 1] == RecvSnap(2, 1, 2) && ss[|acts|].nodes == s.nodes
  {
    var s1 := Sent(s, 1, 2, Start(true));
    assert SnapReq(2, 1, 2) in s1.net;
    assert s1.nodes == s.nodes;
    var s2 := Next(s1, RecvSnap(2, 1, 2));
    assert s2.nodes == s1.nodes;
    hide Next;
    ss, acts := MoveOn(s1, RecvSnap(2, 1, 2));
  }

  lemma MoveOn(s: Sys, act: Action) returns (ss: seq<Sys>, acts: seq<Action>)
    requires Shape(s) && Reached(s, Start(true)) && Enabled(s, act) && InOrder(s, act)
    ensures IsFifoRun(ss, acts) && |ss| == |acts| + 1 && ss[|acts|] == Next(s, act)
    ensures |acts| > 0 && acts[|acts| - 1] == act
  {
    var run, steps := Retrace(s, Start(true));
    hide *;
    Snoc(run, steps, act, Start(true));
    ss, acts := run + [Next(s, act)], steps + [act];
    StartsAtInit(true);
    StepsRun(ss, acts, Start(true), 3);
  }

  /** The probe at index 1 is past the follower's log; the reply's conflict index is 0. */
  lemma TurnedDown(s: Sys, e1: Entry) returns (s': Sys)
    requires Shape(s) && Reached(s, Start(true)) && s.nodes == [OneCommitted(e1), Successor(e1, 2), Behind(0)]
    requires e1.term == 1
    requires forall k :: k in s.delivered ==> k == (1, 1)
    ensures Shape(s') && Reached(s', Start(true)) && s'.nodes == [OneCommitted(e1), Successor(e1, 0), Behind(1)]
  {
    var a := AppArgs(1, 2, 1, 1, [], 0);
    var s1 := Sent(s, 1, 2, Start(true));
    assert [DUMMY, e1][2..] == [];
    assert AppReq(2, s.clock + 1, a) in s1.net && s1.nodes == s.nodes;
    Rejects(e1);
    hide OnAppendEntries, OnAppendReply;
    var s2 := Received(s1, 2, s.clock + 1, a, Start(true));
    assert s2.nodes == [OneCommitted(e1), Successor(e1, 2), Behind(1)];
    s' := Confirmed(s2, 1, 2, a, AppReply(false, 2, 0), Start(true));
    assert s'.nodes == [OneCommitted(e1), Successor(e1, 0), Behind(1)];
  }

  lemma Rejects(e1: Entry)
    requires e1.term == 1
    ensures var a := AppArgs(1, 2, 1, 1, [], 0);
      && OnAppendEntries(Behind(0), a) == (Behind(1), AppReply(false, 2, 0))
      && OnAppendReply(Successor(e1, 2), 1, 2, a, AppReply(false, 2, 0)) == Successor(e1, 0)
  {
    assert Successor(e1, 2).nextIndex[2 := 0] == [2, 2, 0];
  }
}
