/**
 * In-order runs that surprise a client or break an assumption: another's command at the index a client waits for,
 * and a message built after its sender has lost the leadership it checked.
 */
module RaftHazards {
  import opened RaftLog
  import opened RaftHandlers
  import opened RaftSystem
  import opened RaftSteps
  import opened RaftRuns

  // ---- another's command at the awaited index ----

  /** Node 1 wins term 2 with the vote of node 2, both without any entry. */
  function NewLeader(log: seq<Entry>): Node {
    Node(Leader, 2, 1, log, 0, 0, [1, 1, 1], [0, 0, 0], 2, if |log| > 1 then 1 else 0)
  }

  function Deposed(log: seq<Entry>, commit: nat): Node {
    Node(Follower, 2, -1, log, commit, 0, [1, 1, 1], [0, 0, 0], 2, 1)
  }

  function Grantor(): Node {
    Fresh().(term := 2, vote := 1)
  }

  /** From the state in which node 0 alone has the first command, node 1 takes over and appends another at its index. */
  lemma TakenOver(s: Sys, c: Cmd, d: Cmd, w: Way) returns (s': Sys)
    requires Trio(s, FirstLeader([DUMMY, Entry(1, c)]), Voter([DUMMY]), Fresh(), [], [], w) && s.delivered == map[]
    ensures Trio(s', FirstLeader([DUMMY, Entry(1, c)]), NewLeader([DUMMY, Entry(2, d)]), Grantor(), [], [], w)
    ensures s'.delivered == map[] && VoteReq(VoteArgs(2, 1, 0, 0)) in s'.net
  {
    var s1 := Elects(s, 1, 2, w);
    assert s1.nodes == [FirstLeader([DUMMY, Entry(1, c)]), NewLeader([DUMMY]), Grantor()];
    s' := Started(s1, 1, d, w);
    assert [DUMMY] + [Entry(2, d)] == [DUMMY, Entry(2, d)];
    assert s'.nodes == [FirstLeader([DUMMY, Entry(1, c)]), NewLeader([DUMMY, Entry(2, d)]), Grantor()];
  }

  function NewCommitted(e: Entry): Node {
    NewLeader([DUMMY, e]).(commit := 1, nextIndex := [2, 1, 1], matchIndex := [1, 0, 0])
  }

  /** Node 1 replicates to node 0. */
  lemma ToFirst(s: Sys, a: Node, b: Node, c: Node, x: seq<Cmd>, y: seq<Cmd>, w: Way) returns (s': Sys)
    requires Trio(s, a, b, c, x, y, w) && Delivered(s, b.term, 0) <= s.clock + 1
    requires b.role == Leader && |b.nextIndex| == |b.matchIndex| == 3 && 1 <= b.nextIndex[0] <= |b.log|
    requires Accepts(a, BuildAppend(b, 1, 0))
    ensures var m := BuildAppend(b, 1, 0);
      Trio(s', OnAppendEntries(a, m).0, OnAppendReply(b, 1, 0, m, AppReply(true, m.term, 0)), c, x, y, w)
    ensures Delivered(s', b.term, 0) <= s'.clock
  {
    hide OnAppendEntries, OnAppendReply, BuildAppend, Accepts, Delivered, Reached;
    s' := Replicates(s, 1, 0, w);
    var m := BuildAppend(b, 1, 0);
    assert s'.nodes == [OnAppendEntries(a, m).0, OnAppendReply(b, 1, 0, m, AppReply(true, m.term, 0)), c];
  }

  /** Node 0 takes the new entry in place of its own. */
  lemma EntryReplaced(s: Sys, c: Cmd, d: Cmd, w: Way) returns (s': Sys)
    requires Trio(s, FirstLeader([DUMMY, Entry(1, c)]), NewLeader([DUMMY, Entry(2, d)]), Grantor(), [], [], w)
    requires s.delivered == map[]
    ensures Trio(s', Deposed([DUMMY, Entry(2, d)], 0), NewCommitted(Entry(2, d)), Grantor(), [], [], w)
    ensures Delivered(s', 2, 0) <= s'.clock
  {
    var e, f := Entry(1, c), Entry(2, d);
    Replaces(e, f);
    hide OnAppendEntries, OnAppendReply, BuildAppend, Accepts, Trio;
    hide FirstLeader, NewLeader, Deposed, NewCommitted, Grantor;
    s' := ToFirst(s, FirstLeader([DUMMY, e]), NewLeader([DUMMY, f]), Grantor(), [], [], w);
  }

  /** It learns that the entry is committed, and hands it over. */
  lemma HandedOther(s: Sys, d: Cmd, w: Way) returns (s': Sys)
    requires Trio(s, Deposed([DUMMY, Entry(2, d)], 0), NewCommitted(Entry(2, d)), Grantor(), [], [], w)
    requires Delivered(s, 2, 0) <= s.clock
    ensures Reached(s', w) && s'.applied == [[d], [], []] && |s'.nodes| == 3
    ensures s'.nodes[0] == Deposed([DUMMY, Entry(2, d)], 1).(lastApply := 1)
  {
    LearnsCommit(Entry(2, d));
    hide OnAppendEntries, OnAppendReply, BuildAppend, Accepts;
    var s1 := Replicates(s, 1, 0, w);
    assert s1.nodes[0] == Deposed([DUMMY, Entry(2, d)], 1);
    s' := AppliedOne(s1, 0, w);
    assert [] + [d] == [d];
  }

  lemma Replaces(e: Entry, f: Entry)
    requires e.term == 1 && f.term == 2
    ensures var l, n := NewLeader([DUMMY, f]), FirstLeader([DUMMY, e]);
      var a := BuildAppend(l, 1, 0);
      && l.role == Leader && l.term == 2 && |l.nextIndex| == |l.matchIndex| == 3 && 1 == l.nextIndex[0] < |l.log|
      && a.term == 2 && Accepts(n, a)
      && OnAppendEntries(n, a).0 == Deposed([DUMMY, f], 0)
      && OnAppendReply(l, 1, 0, a, AppReply(true, 2, 0)) == NewCommitted(f)
  {
    var l := NewLeader([DUMMY, f]);
    assert BuildAppend(l, 1, 0).entries == [f];
    assert Agreeing([DUMMY, e], 1, [f]) == 0;
    assert Merged([DUMMY, e], 1, [f]) == [DUMMY, f];
    var m := l.(nextIndex := [2, 1, 1], matchIndex := [1, 0, 0]);
    assert l.nextIndex[0 := 2] == [2, 1, 1] && l.matchIndex[0 := 1] == [1, 0, 0];
    assert Holders(m.matchIndex, 1, 1) == {0, 1} && |{0, 1}| == 2;
    assert Committable(m, 1, 1);
    assert CommitPoint(m, 1, 1) == 1;
  }

  lemma LearnsCommit(f: Entry)
    requires f.term == 2
    ensures var l, n := NewCommitted(f), Deposed([DUMMY, f], 0);
      var a := BuildAppend(l, 1, 0);
      && a.term == 2 && Accepts(n, a) && OnAppendEntries(n, a).0 == Deposed([DUMMY, f], 1)
  {
    assert BuildAppend(NewCommitted(f), 1, 0).entries == [];
  }

  /** In order, and yet: the leader of term 1 has a client's command at index 1, and hands over another's there. */
  lemma OtherCommandHandedOver(c: Cmd, d: Cmd) returns (ss: seq<Sys>, acts: seq<Action>, j: nat)
    ensures IsFifoRun(ss, acts) && |ss| == |acts| + 1 && j < |ss| && |ss[j].nodes| == |ss[|acts|].nodes| == 3
    ensures ss[j].nodes[0].role == Leader && ss[j].nodes[0].term == 1 && ss[j].nodes[0].log == [DUMMY, Entry(1, c)]
    ensures ss[|acts|].nodes[0].log == [DUMMY, Entry(2, d)] && ss[|acts|].applied == [[d], [], []]
  {
    var s1 := OneStarted(c);
    var w := Mark(s1, Start(true));
    var s2 := TakenOver(s1, c, d, w);
    var s3 := EntryReplaced(s2, c, d, w);
    var s4 := HandedOther(s3, d, w);
    ss, acts := Retrace(s4, w);
    j := |w.acts|;
    assert ss[j] == w.ss[j];
    assert w.ss[0] == Init(3);
    StepsRun(ss, acts, w, 3);
  }

  // ---- a message built after the leadership that was checked is gone ----

  /** The deposed node 0, with its own entry still in its log. */
  function Stale(e: Entry): Node {
    Node(Follower, 2, -1, [DUMMY, e], 0, 0, [1, 1, 1], [0, 0, 0], 2, 0)
  }

  function Holder(e: Entry, leader: int): Node {
    Grantor().(log := [DUMMY, e], nowLeader := leader)
  }

  function PeerCommitted(e: Entry): Node {
    NewLeader([DUMMY, e]).(commit := 1, nextIndex := [1, 1, 2], matchIndex := [0, 0, 1])
  }

  /** Node 0 learns of the new term; node 1 commits its entry with node 2 and applies it. */
  lemma PassedOver(s: Sys, c: Cmd, d: Cmd, w: Way) returns (s': Sys)
    requires Trio(s, FirstLeader([DUMMY, Entry(1, c)]), NewLeader([DUMMY, Entry(2, d)]), Grantor(), [], [], w)
    requires s.delivered == map[] && VoteReq(VoteArgs(2, 1, 0, 0)) in s.net
    ensures Trio(s', Stale(Entry(1, c)), PeerCommitted(Entry(2, d)).(lastApply := 1), Holder(Entry(2, d), 1), [], [d],
      w)
    ensures Delivered(s', 2, 2) <= s'.clock && Delivered(s', 3, 2) == 0
  {
    var e, f := Entry(1, c), Entry(2, d);
    var s1 := Votes(s, 0, VoteArgs(2, 1, 0, 0), w);
    assert s1.nodes == [Stale(e), NewLeader([DUMMY, f]), Grantor()];
    TakenByPeer(f);
    hide OnAppendEntries, OnAppendReply, BuildAppend, Accepts;
    var s2 := Replicates(s1, 1, 2, w);
    assert s2.nodes == [Stale(e), PeerCommitted(f), Holder(f, 1)];
    s' := Handed(s2, d, w);
  }

  lemma Handed(s: Sys, d: Cmd, w: Way) returns (s': Sys)
    requires Shape(s) && Reached(s, w) && |s.nodes| == 3 && s.nodes[1] == PeerCommitted(Entry(2, d))
    requires s.applied == [[], [], []]
    ensures Shape(s') && Reached(s', w) && s'.applied == [[], [d], []]
    ensures s'.nodes == [s.nodes[0], PeerCommitted(Entry(2, d)).(lastApply := 1), s.nodes[2]]
    ensures s'.delivered == s.delivered && s'.clock == s.clock
  {
    s' := AppliedOne(s, 1, w);
    assert [] + [d] == [d];
  }

  lemma TakenByPeer(f: Entry)
    requires f.term == 2
    ensures var l, n := NewLeader([DUMMY, f]), Grantor();
      var a := BuildAppend(l, 1, 2);
      && a.term == 2 && Accepts(n, a) && OnAppendEntries(n, a).0 == Holder(f, 1)
      && OnAppendReply(l, 1, 2, a, AppReply(true, 2, 0)) == PeerCommitted(f)
  {
    var l := NewLeader([DUMMY, f]);
    assert BuildAppend(l, 1, 2).entries == [f];
    assert Merged([DUMMY], 1, [f]) == [DUMMY, f];
    var m := l.(nextIndex := [1, 1, 2], matchIndex := [0, 0, 1]);
    assert l.nextIndex[2 := 2] == [1, 1, 2] && l.matchIndex[2 := 1] == [0, 0, 1];
    assert Holders(m.matchIndex, 1, 1) == {1, 2} && |{1, 2}| == 2;
    assert Committable(m, 1, 1);
    assert CommitPoint(m, 1, 1) == 1;
  }

  /** The late message carries the new term and the old entry; node 2 takes it for its leader's. */
  lemma TakesStale(s: Sys, c: Cmd, d: Cmd) returns (s': Sys)
    requires Shape(s) && s.applied == [[], [d], []] && Delivered(s, 2, 2) <= s.clock && Delivered(s, 3, 2) == 0
    requires s.nodes == [Stale(Entry(1, c)), PeerCommitted(Entry(2, d)).(lastApply := 1), Holder(Entry(2, d), 1)]
    ensures var late := DoSend(s, 0, 2);
      Trio(s', Stale(Entry(1, c)), PeerCommitted(Entry(2, d)).(lastApply := 1), Holder(Entry(1, c), 0), [], [d],
        From(late, true))
    ensures Delivered(s', 3, 2) == 0
  {
    var e, f := Entry(1, c), Entry(2, d);
    var late := DoSend(s, 0, 2);
    var m := AppArgs(0, 2, 0, 0, [e], 0);
    assert [DUMMY, e][1..] == [e];
    assert late.nodes == s.nodes && AppReq(2, s.clock + 1, m) in late.net;
    Begin(late, true);
    Misled(e, f);
    hide OnAppendEntries, DoSend;
    s' := Received(late, 2, s.clock + 1, m, From(late, true));
    assert s'.nodes == [Stale(e), PeerCommitted(f).(lastApply := 1), Holder(e, 0)];
  }

  lemma Misled(e: Entry, f: Entry)
    requires e.term == 1 && f.term == 2
    ensures OnAppendEntries(Holder(f, 1), AppArgs(0, 2, 0, 0, [e], 0)).0 == Holder(e, 0)
  {
    assert Agreeing([DUMMY, f], 1, [e]) == 0;
    assert Merged([DUMMY, f], 1, [e]) == [DUMMY, e];
  }

  function ThirdLeader(e: Entry, g: Entry): Node {
    Node(Leader, 3, 0, [DUMMY, e, g], 0, 0, [2, 2, 2], [0, 0, 0], 2, 0)
  }

  function ThirdCommitted(e: Entry, g: Entry): Node {
    ThirdLeader(e, g).(commit := 2, nextIndex := [2, 2, 3], matchIndex := [0, 0, 2])
  }

  /** Node 0 wins term 3 with node 2, and commits and applies its old entry and a new one. */
  lemma OldEntryCommitted(s: Sys, p: Node, c: Cmd, d: Cmd, x: Cmd, w: Way) returns (s': Sys)
    requires Trio(s, Stale(Entry(1, c)), p, Holder(Entry(1, c), 0), [], [d], w) && Delivered(s, 3, 2) == 0
    ensures Reached(s', w) && s'.applied == [[c, x], [d], []]
  {
    var s2 := ThirdElection(s, p, c, x, w);
    var e, g := Entry(1, c), Entry(3, x);
    TakesThird(e, g);
    hide OnAppendEntries, OnAppendReply, BuildAppend, Accepts;
    var s3 := Replicates(s2, 0, 2, w);
    assert s3.nodes[0] == ThirdCommitted(e, g);
    s' := AppliedTwo(s3, 0, w);
    assert [] + [c, x] == [c, x];
  }

  lemma ThirdElection(s: Sys, p: Node, c: Cmd, x: Cmd, w: Way) returns (s': Sys)
    requires Shape(s) && Reached(s, w) && s.nodes == [Stale(Entry(1, c)), p, Holder(Entry(1, c), 0)]
    ensures Shape(s') && Reached(s', w) && s'.applied == s.applied && s'.delivered == s.delivered
    ensures s'.nodes ==
      [ThirdLeader(Entry(1, c), Entry(3, x)), p, Holder(Entry(1, c), 0).(term := 3, vote := 0)]
  {
    var e, g := Entry(1, c), Entry(3, x);
    var s1 := Elects(s, 0, 2, w);
    s' := Started(s1, 0, x, w);
    assert [DUMMY, e] + [g] == [DUMMY, e, g];
    assert s'.nodes[0] == ThirdLeader(e, g);
  }

  lemma TakesThird(e: Entry, g: Entry)
    requires e.term == 1 && g.term == 3
    ensures var l, n := ThirdLeader(e, g), Holder(e, 0).(term := 3, vote := 0);
      var a := BuildAppend(l, 0, 2);
      && a.term == 3 && Accepts(n, a)
      && OnAppendReply(l, 0, 2, a, AppReply(true, 3, 0)) == ThirdCommitted(e, g)
  {
    var l := ThirdLeader(e, g);
    assert BuildAppend(l, 0, 2).entries == [g];
    var m := l.(nextIndex := [2, 2, 3], matchIndex := [0, 0, 2]);
    assert l.nextIndex[2 := 3] == [2, 2, 3] && l.matchIndex[2 := 2] == [0, 0, 2];
    TwoHolders(m.matchIndex, 0, 2);
    assert Committable(m, 0, 2);
    assert CommitPoint(m, 0, 2) == 2;
  }

  /** Why check and send must be one step. After an in-order run, a node that once was leader but no longer is builds
    * the message of that send, and in-order steps go on: two nodes end up with different commands applied first. */
  lemma LateBuildUnsafe(c: Cmd, d: Cmd, x: Cmd)
    returns (ss: seq<Sys>, acts: seq<Action>, j: nat, ts: seq<Sys>, more: seq<Action>)
    requires c != d
    ensures IsFifoRun(ss, acts) && |ss| == |acts| + 1 && j < |ss| && Shape(ss[|acts|])
    ensures |ss[j].nodes| == |ss[|acts|].nodes| == 3
    ensures ss[j].nodes[0].role == Leader && ss[|acts|].nodes[0].role != Leader
    ensures Steps(ts, more) && Ordered(ts, more) && ts[0] == DoSend(ss[|acts|], 0, 2)
    ensures ts[|more|].applied == [[c, x], [d], []]
    ensures var a, b := ts[|more|].applied[0], ts[|more|].applied[1]; !(a <= b) && !(b <= a)
  {
    var s1 := OneStarted(c);
    var w := Mark(s1, Start(true));
    var s2 := TakenOver(s1, c, d, w);
    var s3 := PassedOver(s2, c, d, w);
    ss, acts := Retrace(s3, w);
    j := |w.acts|;
    assert ss[j] == w.ss[j] && w.ss[0] == Init(3);
    StepsRun(ss, acts, w, 3);
    var s4 := TakesStale(s3, c, d);
    var v := From(DoSend(s3, 0, 2), true);
    var s5 := OldEntryCommitted(s4, PeerCommitted(Entry(2, d)).(lastApply := 1), c, d, x, v);
    ts, more := Retrace(s5, v);
    assert ts[0] == v.ss[0];
    assert [c, x][0] != [d][0];
  }
}
