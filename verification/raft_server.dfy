/** One Raft node as the source writes it: fields updated in place, one method per lock-held section. */
module RaftServer {
  import opened Numbers
  import opened RaftLog
  import opened RaftHandlers

  class Server {
    const me: nat
    const size: nat
    var role: Role
    var term: nat
    var vote: int
    var log: seq<Entry>
    var commitIndex: nat
    var lastApply: nat
    var nextIndex: seq<int>
    var matchIndex: seq<int>
    var votes: nat
    var nowLeader: int

    ghost predicate Valid()
      reads this
    {
      WF(State(), size) && me < size
    }

    function State(): Node
      reads this
    {
      Node(role, term, vote, log, commitIndex, lastApply, nextIndex, matchIndex, votes, nowLeader)
    }

    constructor (me: nat, size: nat)
      requires me < size
      ensures Valid() && State() == Boot(size)
    {
      this.me, this.size := me, size;
      role, term, vote, log := Follower, 0, -1, [DUMMY];
      commitIndex, lastApply, votes, nowLeader := 0, 0, 0, 0;
      nextIndex, matchIndex := seq(size, _ => 0), seq(size, _ => 0);
    }

    method ResetProgress()
      requires Valid()
      modifies this
      ensures Valid() && State() == Promote(old(State()))
    {
      role := Leader;
      var j := 0;
      while j < size
        invariant j <= size && |nextIndex| == |matchIndex| == size
        invariant State() == old(State()).(role := Leader, nextIndex := nextIndex, matchIndex := matchIndex)
        invariant forall k :: 0 <= k < j ==> nextIndex[k] == |log| && matchIndex[k] == 0
      {
        nextIndex := nextIndex[j := LastIndex(log) + 1];
        matchIndex := matchIndex[j := 0];
        j := j + 1;
      }
    }

    method StartElection() returns (a: VoteArgs)
      requires Valid()
      modifies this
      ensures Valid() && State() == OnTimeout(old(State()), me, size)
      ensures a == VoteArgs(term, me, LastIndex(log), LastTerm(log))
    {
      role := Candidate;
      term := term + 1;
      vote := me;
      a := VoteArgs(term, me, LastIndex(log), LastTerm(log));
      votes := 1;
      if votes > size / 2 {
        ResetProgress();
      }
    }

    method HandleVoteReply(electionTerm: nat, r: VoteReply)
      requires Valid()
      modifies this
      ensures Valid() && State() == OnVoteReply(old(State()), size, electionTerm, r)
    {
      if role != Candidate || term != electionTerm {
        return;
      }
      if r.term > term {
        term := r.term;
        role := Follower;
        vote := -1;
        return;
      }
      if r.granted {
        votes := votes + 1;
        if votes > size / 2 {
          ResetProgress();
        }
      }
    }

    method RequestVote(a: VoteArgs) returns (r: VoteReply)
      requires Valid()
      modifies this
      ensures Valid() && (State(), r) == OnRequestVote(old(State()), a)
    {
      var upToDate := false;
      var lastIndex := LastIndex(log);
      var lastTerm := log[lastIndex].term;
      if a.lastTerm > lastTerm || (a.lastTerm == lastTerm && a.lastIndex >= lastIndex) {
        upToDate := true;
      }
      if a.term > term {
        term := a.term;
        vote := -1;
        role := Follower;
      }
      if a.term < term {
        return VoteReply(term, false);
      }
      var granted := false;
      if a.term == term && (vote == -1 || vote == a.cand) && upToDate {
        vote := a.cand;
        granted := true;
      }
      r := VoteReply(term, granted);
    }

    /** The merge loop: overwrite from the first disagreement on, then cut the tail a non-empty message leaves over. */
    method Merge(at: nat, incoming: seq<Entry>)
      requires Valid() && 1 <= at <= |log|
      modifies this`log
      ensures Valid() && log == Merged(old(log), at, incoming)
    {
      ghost var k := Agreeing(log, at, incoming);
      var i := 0;
      while i < |incoming|
        invariant i <= k && log == old(log)
      {
        if at + i < |log| {
          if log[at + i].term != incoming[i].term {
            log := log[..at + i];
            log := log + incoming[i..];
            break;
          }
        } else {
          log := log + incoming[i..];
          break;
        }
        i := i + 1;
      }
      assert i == k;
      assert |incoming| == k ==> log[..at + k] + incoming[k..] == log[..at + k];
      assert old(log)[..|old(log)|] == old(log);
      if |incoming| > 0 {
        var newLen := at - 1 + |incoming| + 1;
        if newLen < |log| {
          log := log[..newLen];
        }
      }
    }

    /** The backward scan for the first entry of the conflicting term. */
    method ConflictStart(prev: nat) returns (first: int)
      requires Valid() && prev < |log|
      ensures first == RunStart(log, prev)
    {
      var index := prev;
      var conflictTerm := log[prev].term;
      while index >= 0 && log[index].term == conflictTerm
        invariant -1 <= index <= prev
        invariant forall j :: index < j <= prev ==> log[j].term == conflictTerm
      {
        index := index - 1;
      }
      first := index + 1;
      RunStartUnique(log, prev, first);
    }

    method AppendEntries(a: AppArgs) returns (r: AppReply)
      requires Valid()
      modifies this
      ensures Valid() && (State(), r) == OnAppendEntries(old(State()), a)
    {
      hide Merged, RunStart;
      if a.term < term {
        return AppReply(false, term, |log|);
      }
      if a.term > term {
        term := a.term;
        vote := -1;
      }
      role := Follower;
      nowLeader := a.leader;
      if a.prev > LastIndex(log) {
        return AppReply(false, term, LastIndex(log));
      }
      if a.prev < 0 {
        return AppReply(false, term, 1);
      }
      if log[a.prev].term != a.prevTerm {
        var first := ConflictStart(a.prev);
        return AppReply(false, term, first);
      }
      if a.commit > commitIndex {
        commitIndex := Min(a.commit, LastIndex(log));
      }
      Merge(a.prev + 1, a.entries);
      r := AppReply(true, term, 0);
    }

    /** The body of the send loop for peer `j`; `None` stands for the detour through InstallSnapshot. */
    method MakeAppend(j: nat) returns (a: AppArgs)
      requires Valid() && j < size && !WantsSnapshot(State(), j) && nextIndex[j] <= |log|
      ensures a == BuildAppend(State(), me, j)
    {
      var next := nextIndex[j];
      var prevIndex := next - 1;
      var prevTerm := 0;
      if prevIndex >= 0 {
        prevTerm := log[prevIndex].term;
      }
      a := AppArgs(me, term, prevIndex, prevTerm, log[next..], commitIndex);
    }

    method CountHolders(i: int) returns (count: nat)
      requires Valid()
      ensures count == |Holders(matchIndex, me, i)|
    {
      count := 1;
      var j := 0;
      ghost var seen := {me};
      while j < size
        invariant j <= size
        invariant forall p :: p in seen <==> p == me || (0 <= p < j && matchIndex[p] >= i)
        invariant count == |seen|
      {
        if j != me && matchIndex[j] >= i {
          count := count + 1;
          seen := seen + {j};
        }
        j := j + 1;
      }
      assert seen == Holders(matchIndex, me, i);
    }

    method AdvanceCommit()
      requires Valid()
      modifies this`commitIndex
      ensures Valid() && State() == old(State()).(commit := CommitPoint(old(State()), me, |log| - 1))
    {
      var i := LastIndex(log);
      while i > commitIndex
        invariant i <= LastIndex(log) && commitIndex == old(commitIndex)
        invariant i >= commitIndex ==> CommitPoint(State(), me, |log| - 1) == CommitPoint(State(), me, i)
        invariant i >= commitIndex || LastIndex(log) < commitIndex
      {
        var count := CountHolders(i);
        if count > size / 2 && log[i].term == term {
          commitIndex := i;
          break;
        }
        i := i - 1;
      }
    }

    method HandleAppendReply(j: nat, a: AppArgs, r: AppReply)
      requires Valid() && j < size
      modifies this
      ensures Valid() && State() == OnAppendReply(old(State()), me, j, a, r)
    {
      if r.term > term {
        term := r.term;
        role := Follower;
        vote := -1;
        return;
      }
      if role != Leader || a.term != term {
        return;
      }
      if r.success {
        if |a.entries| > 0 {
          nextIndex := nextIndex[j := a.prev + |a.entries| + 1];
          matchIndex := matchIndex[j := a.prev + |a.entries|];
        } else {
          nextIndex := nextIndex[j := a.prev + 1];
        }
        AdvanceCommit();
      } else {
        nextIndex := nextIndex[j := r.conflict];
        if nextIndex[j] > LastIndex(log) + 1 {
          nextIndex := nextIndex[j := LastIndex(log) + 1];
        }
      }
    }

    /** The send loop's tail in a one-node cluster: no peer goroutine will ever advance the commit index. */
    method SoloCommit()
      requires Valid() && size == 1
      modifies this
      ensures Valid() && State() == OnSoloCommit(old(State()), me)
    {
      matchIndex := matchIndex[me := LastIndex(log)];
      var i := LastIndex(log);
      ghost var m := State();
      while i > commitIndex
        invariant i <= LastIndex(log) && State() == m
        invariant i >= commitIndex ==> CommitPoint(m, me, |log| - 1) == CommitPoint(m, me, i)
        invariant i >= commitIndex || LastIndex(log) < commitIndex
      {
        assert Holders(matchIndex, me, i) == {me};
        if log[i].term == term {
          commitIndex := i;
          break;
        }
        i := i - 1;
      }
    }

    method Start(c: Cmd) returns (index: int, isLeader: bool)
      requires Valid()
      modifies this
      ensures Valid() && State() == OnStart(old(State()), me, c)
      ensures isLeader == (old(role) == Leader)
      ensures isLeader ==> log == old(log) + [Entry(term, c)] && nowLeader == me
      ensures index == if isLeader then LastIndex(log) else -1
    {
      index := LastIndex(log) + 1;
      if role != Leader {
        return -1, false;
      }
      nowLeader := me;
      log := log + [Entry(term, c)];
      isLeader := true;
    }

    method InstallSnapshot(t: nat) returns (r: nat)
      requires Valid()
      modifies this
      ensures Valid() && (State(), r) == OnInstallSnapshot(old(State()), t)
    {
      if t < term {
        return term;
      }
      role := Follower;
      term := t;
      r := 0;
    }

    method HandleSnapshotReply(j: nat, t: nat)
      requires Valid() && j < size
      modifies this
      ensures Valid() && State() == OnSnapshotReply(old(State()), j, t)
      ensures t <= old(term) ==> nextIndex == old(nextIndex)[j := 1] && matchIndex == old(matchIndex)[j := 0]
    {
      if t > term {
        term := t;
        role := Follower;
        return;
      }
      nextIndex := nextIndex[j := 1];
      matchIndex := matchIndex[j := 0];
    }

    method ApplyNext() returns (h: Handoff)
      requires Valid()
      modifies this
      ensures Valid() && (State(), h) == OnApply(old(State()))
    {
      if lastApply < commitIndex {
        lastApply := lastApply + 1;
        if lastApply >= |log| {
          return Nothing;
        }
        h := Deliver(lastApply, log[lastApply].cmd);
      } else {
        h := Nothing;
      }
    }
  }

  /** The start of a run of equal terms is the only index with these three properties. */
  lemma RunStartUnique(log: seq<Entry>, i: nat, r: nat)
    requires i < |log| && r <= i
    requires forall j :: r <= j <= i ==> log[j].term == log[i].term
    requires r > 0 ==> log[r - 1].term != log[i].term
    ensures r == RunStart(log, i)
  {
    var q := RunStart(log, i);
    assert !(r < q) && !(q < r);
  }
}
