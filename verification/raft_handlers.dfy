/** What each lock-held section of the Raft node does, as functions from node state to node state. */
module RaftHandlers {
  import opened Numbers
  import opened RaftLog

  datatype Role = Leader | Candidate | Follower

  /** The fields of `Raft` that a protocol step reads or writes; `votes` is the running election's counter. */
  datatype Node = Node(
    role: Role,
    term: nat,
    vote: int,
    log: seq<Entry>,
    commit: nat,
    lastApply: nat,
    nextIndex: seq<int>,
    matchIndex: seq<int>,
    votes: nat,
    nowLeader: int)

  datatype VoteArgs = VoteArgs(term: nat, cand: nat, lastIndex: int, lastTerm: nat)
  datatype VoteReply = VoteReply(term: nat, granted: bool)
  datatype AppArgs = AppArgs(leader: nat, term: nat, prev: int, prevTerm: nat, entries: seq<Entry>, commit: int)
  datatype AppReply = AppReply(success: bool, term: nat, conflict: int)

  ghost predicate WF(n: Node, size: nat) {
    |n.log| >= 1 && |n.nextIndex| == size && |n.matchIndex| == size
  }

  function Boot(size: nat): Node {
    Node(Follower, 0, -1, [DUMMY], 0, 0, seq(size, _ => 0), seq(size, _ => 0), 0, 0)
  }

  // ---- elections ----

  predicate UpToDate(log: seq<Entry>, a: VoteArgs)
    requires log != []
  {
    a.lastTerm > LastTerm(log) || (a.lastTerm == LastTerm(log) && a.lastIndex >= LastIndex(log))
  }

  function OnRequestVote(n: Node, a: VoteArgs): (Node, VoteReply)
    requires n.log != []
  {
    var m := if a.term > n.term then n.(term := a.term, vote := -1, role := Follower) else n;
    if a.term == m.term && (m.vote == -1 || m.vote == a.cand) && UpToDate(n.log, a) then
      (m.(vote := a.cand), VoteReply(m.term, true))
    else
      (m, VoteReply(m.term, false))
  }

  function Promote(n: Node): Node {
    n.(role := Leader,
       nextIndex := seq(|n.nextIndex|, _ => |n.log|),
       matchIndex := seq(|n.matchIndex|, _ => 0))
  }

  /** A new election; in a one-node cluster the own vote already is the majority. */
  function OnTimeout(n: Node, me: nat, size: nat): Node {
    var m := n.(role := Candidate, term := n.term + 1, vote := me, votes := 1);
    if 1 > size / 2 then Promote(m) else m
  }

  function OnVoteReply(n: Node, size: nat, electionTerm: nat, r: VoteReply): Node {
    if n.role != Candidate || n.term != electionTerm then n
    else if r.term > n.term then n.(term := r.term, role := Follower, vote := -1)
    else if !r.granted then n
    else
      var m := n.(votes := n.votes + 1);
      if m.votes > size / 2 then Promote(m) else m
  }

  // ---- replication, follower side ----

  predicate Accepts(n: Node, a: AppArgs) {
    a.term >= n.term && 0 <= a.prev < |n.log| && n.log[a.prev].term == a.prevTerm
  }

  /** Term and role after a message that was not from the past. */
  function Adopt(n: Node, a: AppArgs): Node {
    n.(term := a.term, vote := if a.term > n.term then -1 else n.vote, role := Follower, nowLeader := a.leader)
  }

  function OnAppendEntries(n: Node, a: AppArgs): (Node, AppReply)
    requires n.log != []
  {
    if a.term < n.term then (n, AppReply(false, n.term, |n.log|))
    else
      var m := Adopt(n, a);
      if Accepts(n, a) then
        (m.(commit := if a.commit > n.commit then Min(a.commit, LastIndex(n.log)) else n.commit,
            log := Merged(n.log, a.prev + 1, a.entries)),
         AppReply(true, a.term, 0))
      else
        (m, AppReply(false, a.term,
          if a.prev > LastIndex(n.log) then LastIndex(n.log)
          else if a.prev < 0 then 1
          else RunStart(n.log, a.prev)))
  }

  // ---- replication, leader side ----

  /** Outcome of the send loop's body for peer `j`: a message, or the detour through InstallSnapshot. */
  predicate WantsSnapshot(n: Node, j: nat)
    requires j < |n.nextIndex|
  {
    n.nextIndex[j] <= 0
  }

  function BuildAppend(n: Node, me: nat, j: nat): AppArgs
    requires j < |n.nextIndex| && 1 <= n.nextIndex[j] <= |n.log|
  {
    var next := n.nextIndex[j];
    AppArgs(me, n.term, next - 1, n.log[next - 1].term, n.log[next..], n.commit)
  }

  /** The peers that hold index `i` as far as the leader knows, the leader included. */
  function Holders(matchIndex: seq<int>, me: nat, i: int): (hs: set<nat>)
    ensures forall j :: j in hs <==> 0 <= j < |matchIndex| && (j == me || matchIndex[j] >= i)
  {
    set j: nat | j < |matchIndex| && (j == me || matchIndex[j] >= i)
  }

  predicate Committable(n: Node, me: nat, i: nat)
    requires i < |n.log|
  {
    |Holders(n.matchIndex, me, i)| > |n.matchIndex| / 2 && n.log[i].term == n.term
  }

  /** The largest committable index in `(commit, hi]`, or `commit`. */
  function CommitPoint(n: Node, me: nat, hi: nat): (c: nat)
    requires hi < |n.log|
    ensures c == n.commit || (n.commit < c <= hi && Committable(n, me, c))
    ensures forall i :: c < i <= hi ==> !Committable(n, me, i)
  {
    if hi <= n.commit then n.commit
    else if Committable(n, me, hi) then hi
    else CommitPoint(n, me, hi - 1)
  }

  function OnAppendReply(n: Node, me: nat, j: nat, a: AppArgs, r: AppReply): Node
    requires n.log != [] && j < |n.nextIndex| && j < |n.matchIndex|
  {
    if r.term > n.term then n.(term := r.term, role := Follower, vote := -1)
    else if n.role != Leader || a.term != n.term then n
    else if r.success then
      var m := n.(nextIndex := n.nextIndex[j := a.prev + |a.entries| + 1],
                  matchIndex := if a.entries == [] then n.matchIndex
                                else n.matchIndex[j := a.prev + |a.entries|]);
      m.(commit := CommitPoint(m, me, |m.log| - 1))
    else
      n.(nextIndex := n.nextIndex[j := Min(r.conflict, |n.log|)])
  }

  /** The send loop's tail: a one-node cluster commits on its own. */
  function OnSoloCommit(n: Node, me: nat): Node
    requires n.log != [] && me < |n.matchIndex|
  {
    var m := n.(matchIndex := n.matchIndex[me := |n.log| - 1]);
    m.(commit := CommitPoint(m, me, |m.log| - 1))
  }

  function OnStart(n: Node, me: nat, c: Cmd): Node {
    if n.role != Leader then n else n.(log := n.log + [Entry(n.term, c)], nowLeader := me)
  }

  // ---- snapshots, while nothing has been compacted (lastSnapIndex = 0) ----

  /** InstallSnapshot adopts the term but leaves `vote` alone. */
  function OnInstallSnapshot(n: Node, term: nat): (Node, nat) {
    if term < n.term then (n, n.term) else (n.(role := Follower, term := term), 0)
  }

  function OnSnapshotReply(n: Node, j: nat, term: nat): Node
    requires j < |n.nextIndex| && j < |n.matchIndex|
  {
    if term > n.term then n.(term := term, role := Follower)
    else n.(nextIndex := n.nextIndex[j := 1], matchIndex := n.matchIndex[j := 0])
  }

  // ---- apply loop ----

  datatype Handoff = Nothing | Deliver(index: nat, cmd: Cmd)

  /** One turn of the apply loop; an index past the log is counted but not delivered. */
  function OnApply(n: Node): (Node, Handoff) {
    if n.lastApply >= n.commit then (n, Nothing)
    else
      var i := n.lastApply + 1;
      (n.(lastApply := i), if i >= |n.log| then Nothing else Deliver(i, n.log[i].cmd))
  }
}
