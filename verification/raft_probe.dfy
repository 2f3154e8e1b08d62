/**
 * One leader and one follower: backtracking ends in agreement, and exactly when a late message
 * undoes what the follower had confirmed.
 */
module RaftProbe {
  import opened RaftLog
  import opened RaftHandlers
  import opened RaftMatching

  /** The leader probes peer `j`, and both logs come from the same history. */
  ghost predicate Paired(ll: Logs, l: Node, f: Node, j: nat) {
    && l.role == Leader && f.term <= l.term
    && l.term in ll && ll[l.term] == l.log && Traced(ll, l.log) && Traced(ll, f.log)
    && j < |l.nextIndex| && j < |l.matchIndex| && l.nextIndex[j] <= |l.log|
  }

  /** One exchange: request at the leader, handling at the follower, reply at the leader. */
  function Exchange(l: Node, f: Node, me: nat, j: nat): (Node, Node, bool)
    requires l.log != [] && f.log != []
    requires j < |l.nextIndex| && j < |l.matchIndex| && l.nextIndex[j] <= |l.log|
  {
    if WantsSnapshot(l, j) then
      var (f', t) := OnInstallSnapshot(f, l.term);
      (OnSnapshotReply(l, j, t), f', false)
    else
      var a := BuildAppend(l, me, j);
      var (f', r) := OnAppendEntries(f, a);
      (OnAppendReply(l, me, j, a, r), f', r.success)
  }

  /** Zero detours through the snapshot branch to one, and one is always accepted. */
  function Distance(next: int): (d: nat)
    ensures next >= 2 ==> d == next
  {
    if next <= 0 then 1 else if next == 1 then 0 else next
  }

  /** A rejection lowers nextIndex, except that 0 goes to 1; it touches nothing else that matters. */
  lemma RejectionLowers(ll: Logs, l: Node, f: Node, me: nat, j: nat)
    requires Paired(ll, l, f, j) && !Exchange(l, f, me, j).2
    ensures var (l', f', _) := Exchange(l, f, me, j);
      && Paired(ll, l', f', j) && l'.log == l.log && f'.log == f.log
      && l'.nextIndex[j] >= 0
      && (l.nextIndex[j] >= 1 ==> l'.nextIndex[j] < l.nextIndex[j])
      && (l.nextIndex[j] <= 0 ==> l'.nextIndex[j] == 1)
      && Distance(l'.nextIndex[j]) < Distance(l.nextIndex[j])
  {
    assert l.log[0] == f.log[0] == DUMMY;
  }

  lemma OnAccepted(n: Node, a: AppArgs)
    requires n.log != [] && Accepts(n, a)
    ensures 0 <= a.prev < |n.log| && OnAppendEntries(n, a).0.log == Merged(n.log, a.prev + 1, a.entries)
    ensures OnAppendEntries(n, a).1 == AppReply(true, a.term, 0)
  {
  }

  /** What the leader does with an acceptance of the message it just sent. */
  lemma OnConfirmed(l: Node, me: nat, j: nat)
    requires l.log != [] && l.role == Leader && j < |l.nextIndex| && j < |l.matchIndex|
    requires 1 <= l.nextIndex[j] <= |l.log|
    ensures var a := BuildAppend(l, me, j);
      var l' := OnAppendReply(l, me, j, a, AppReply(true, a.term, 0));
      && l'.log == l.log && l'.role == Leader && |l'.nextIndex| == |l.nextIndex| && |l'.matchIndex| == |l.matchIndex|
      && l'.nextIndex[j] == |l.log| && (a.entries != [] ==> l'.matchIndex[j] == |l.log| - 1)
  {
  }

  /** An acceptance leaves the leader's whole log at the front of the follower's. */
  lemma AcceptanceAgrees(ll: Logs, l: Node, f: Node, me: nat, j: nat)
    requires Paired(ll, l, f, j) && Exchange(l, f, me, j).2
    ensures var (l', f', _) := Exchange(l, f, me, j);
      && l.log <= f'.log && l'.log == l.log && l'.role == Leader
      && l'.nextIndex[j] == |l.log|
      && (l.nextIndex[j] < |l.log| ==> f'.log == l.log && l'.matchIndex[j] == |l.log| - 1)
  {
    AcceptedLog(ll, l, f, me, j);
    OnConfirmed(l, me, j);
    hide OnAppendReply, Traced;
  }

  lemma AcceptedLog(ll: Logs, l: Node, f: Node, me: nat, j: nat)
    requires Paired(ll, l, f, j) && Exchange(l, f, me, j).2
    ensures !WantsSnapshot(l, j)
    ensures var (f', r) := OnAppendEntries(f, BuildAppend(l, me, j));
      r == AppReply(true, l.term, 0) && l.log <= f'.log && (l.nextIndex[j] < |l.log| ==> f'.log == l.log)
  {
    hide Exchange, OnAppendEntries;
    ExchangeAccepts(l, f, me, j);
    hide Traced, Accepts;
    SuffixAccepted(ll, f, BuildAppend(l, me, j));
  }

  lemma SuffixAccepted(ll: Logs, f: Node, a: AppArgs)
    requires a.term in ll && Traced(ll, ll[a.term]) && Traced(ll, f.log) && Accepts(f, a)
    requires a.prev < |ll[a.term]| && a.prevTerm == ll[a.term][a.prev].term && a.entries == ll[a.term][a.prev + 1..]
    ensures var (f', r) := OnAppendEntries(f, a);
      r == AppReply(true, a.term, 0) && ll[a.term] <= f'.log && (a.entries != [] ==> f'.log == ll[a.term])
  {
    hide OnAppendEntries, Merged, Traced, Agreeing;
    OnAccepted(f, a);
    SpliceOfSuffix(ll, f.log, a.term, a.prev, a.entries);
  }

  lemma ExchangeAccepts(l: Node, f: Node, me: nat, j: nat)
    requires l.log != [] && f.log != [] && f.term <= l.term
    requires j < |l.nextIndex| && j < |l.matchIndex| && l.nextIndex[j] <= |l.log|
    requires Exchange(l, f, me, j).2
    ensures !WantsSnapshot(l, j) && Accepts(f, BuildAppend(l, me, j))
  {
    hide OnAppendReply, Merged;
  }

  /** Merging a whole suffix of the leader's log puts the leader's log at the front. */
  lemma SpliceOfSuffix(ll: Logs, log: seq<Entry>, t: nat, prev: nat, entries: seq<Entry>)
    requires t in ll && Traced(ll, log) && Traced(ll, ll[t])
    requires prev < |log| && prev < |ll[t]| && log[prev].term == ll[t][prev].term && entries == ll[t][prev + 1..]
    ensures ll[t] <= Merged(log, prev + 1, entries)
    ensures entries != [] ==> Merged(log, prev + 1, entries) == ll[t]
  {
    MergeIsSplice(ll, log, t, prev, entries);
    hide Traced, Agreeing;
    assert ll[t][..prev + 1 + |entries|] == ll[t];
  }

  /** Exchanges until the first acceptance; also how many there were. */
  ghost function Probe(ll: Logs, l: Node, f: Node, me: nat, j: nat): (Node, Node, nat)
    requires Paired(ll, l, f, j)
    decreases Distance(l.nextIndex[j])
  {
    var (l', f', ok) := Exchange(l, f, me, j);
    if ok then (l', f', 1)
    else
      RejectionLowers(ll, l, f, me, j);
      var (l2, f2, k) := Probe(ll, l', f', me, j);
      (l2, f2, k + 1)
  }

  /** Backtracking ends, within `nextIndex + 1` exchanges, with the leader's log at the front of the follower's. */
  lemma {:induction false} ProbeEnds(ll: Logs, l: Node, f: Node, me: nat, j: nat)
    requires Paired(ll, l, f, j)
    ensures var (l', f', k) := Probe(ll, l, f, me, j);
      && l.log <= f'.log && l'.log == l.log && l'.role == Leader
      && j < |l'.nextIndex| && l'.nextIndex[j] == |l.log|
      && 1 <= k <= Distance(l.nextIndex[j]) + 1
    decreases Distance(l.nextIndex[j])
  {
    var (l', f', ok) := Exchange(l, f, me, j);
    if ok {
      AcceptanceAgrees(ll, l, f, me, j);
    } else {
      RejectionLowers(ll, l, f, me, j);
      ProbeEnds(ll, l', f', me, j);
    }
  }

  // ---- how fast it ends ----

  /** The number of stretches of equal terms that the entries up to `i` fall into. */
  function Stretches(log: seq<Entry>, i: nat): (n: nat)
    requires i < |log|
    ensures n >= 1
  {
    if i == 0 then 1 else Stretches(log, i - 1) + if log[i].term != log[i - 1].term then 1 else 0
  }

  lemma {:induction false} StretchesGrow(log: seq<Entry>, i: nat, j: nat)
    requires i <= j < |log|
    ensures Stretches(log, i) <= Stretches(log, j)
  {
    if i < j {
      StretchesGrow(log, i, j - 1);
    }
  }

  lemma {:induction false} BeforeRun(log: seq<Entry>, i: nat)
    requires i < |log|
    ensures Stretches(log, RunStart(log, i)) == Stretches(log, i)
    ensures RunStart(log, i) > 0 ==> Stretches(log, RunStart(log, i) - 1) == Stretches(log, i) - 1
  {
    if i > 0 && log[i - 1].term == log[i].term {
      BeforeRun(log, i - 1);
    }
  }

  /** How many exchanges are left, from this nextIndex on. */
  function Bound(log: seq<Entry>, next: int): (n: nat)
    requires log != []
  {
    if next <= 0 then 2 else if next == 1 then 1
    else if next <= |log| then Stretches(log, next - 1) + 2
    else Stretches(log, |log| - 1) + 3
  }

  lemma BoundLower(log: seq<Entry>, prev: nat)
    requires log != [] && prev >= 1
    ensures prev < |log| ==> Bound(log, RunStart(log, prev)) < Bound(log, prev + 1)
    ensures prev >= |log| ==> Bound(log, |log| - 1) < Bound(log, prev + 1)
  {
    if prev < |log| {
      BeforeRun(log, prev);
    } else if |log| >= 2 {
      StretchesGrow(log, |log| - 2, |log| - 1);
    }
  }

  /** A rejection skips the whole stretch that the two logs disagree on, or what the follower does not have. */
  lemma RejectionSkips(ll: Logs, l: Node, f: Node, me: nat, j: nat)
    requires Paired(ll, l, f, j) && !Exchange(l, f, me, j).2
    ensures l.log != [] && f.log != []
    ensures var (l', f', _) := Exchange(l, f, me, j);
      f'.log == f.log && j < |l'.nextIndex| && Bound(f.log, l'.nextIndex[j]) < Bound(f.log, l.nextIndex[j])
  {
    BothStart(ll, l, f, j);
    RejectionLowers(ll, l, f, me, j);
    hide Bound, Merged;
    var next := l.nextIndex[j];
    if next <= 0 {
      BoundZero(f.log, next);
    } else {
      assert next > 1;
      BoundLower(f.log, next - 1);
    }
  }

  lemma BoundZero(log: seq<Entry>, next: int)
    requires log != [] && next <= 0
    ensures Bound(log, 1) < Bound(log, next)
  {
  }

  /** Backtracking takes at most three exchanges more than the follower's log has stretches of equal terms. */
  lemma {:induction false} ProbeSkipsTerms(ll: Logs, l: Node, f: Node, me: nat, j: nat)
    requires Paired(ll, l, f, j)
    ensures f.log != []
    ensures Probe(ll, l, f, me, j).2 <= Bound(f.log, l.nextIndex[j]) <= Stretches(f.log, |f.log| - 1) + 3
    decreases Distance(l.nextIndex[j])
  {
    hide Bound, Stretches, Traced, Exchange;
    BothStart(ll, l, f, j);
    BoundTop(f.log, l.nextIndex[j]);
    if !Exchange(l, f, me, j).2 {
      var (l', f', ok) := Exchange(l, f, me, j);
      RejectionLowers(ll, l, f, me, j);
      RejectionSkips(ll, l, f, me, j);
      ProbeSkipsTerms(ll, l', f', me, j);
    }
  }

  lemma BothStart(ll: Logs, l: Node, f: Node, j: nat)
    requires Paired(ll, l, f, j)
    ensures l.log != [] && f.log != [] && l.log[0] == f.log[0] == DUMMY
  {
  }

  lemma BoundTop(log: seq<Entry>, next: int)
    requires log != []
    ensures 1 <= Bound(log, next) <= Stretches(log, |log| - 1) + 3
  {
    if 2 <= next <= |log| {
      StretchesGrow(log, next - 1, |log| - 1);
    }
  }

  // ---- why delivery must be in order ----

  /** A message cut from the leader's log `log` when that was `len` long. */
  ghost predicate Cut(a: AppArgs, log: seq<Entry>, len: nat) {
    && 0 <= a.prev < len <= |log| && a.entries == log[a.prev + 1..len] && a.prevTerm == log[a.prev].term
  }

  /**
   * Let a follower agree with its leader on the first `f` entries. A message of that leader, however late,
   * keeps them if and only if it is empty or was cut from a log at least that long.
   */
  lemma KeepsConfirmed(ll: Logs, n: Node, a: AppArgs, len: nat, f: nat)
    requires a.term in ll && Traced(ll, ll[a.term]) && Traced(ll, n.log)
    requires Cut(a, ll[a.term], len) && Accepts(n, a)
    requires f <= |n.log| && f <= |ll[a.term]| && n.log[..f] == ll[a.term][..f]
    ensures var log' := OnAppendEntries(n, a).0.log;
      f <= |log'| && log'[..f] == ll[a.term][..f] <==> a.entries == [] || len >= f
  {
    NewLog(ll, n, a, len);
    hide *;
    CutKeeps(ll[a.term], n.log, OnAppendEntries(n, a).0.log, a.entries, len, f);
  }

  lemma NewLog(ll: Logs, n: Node, a: AppArgs, len: nat)
    requires a.term in ll && Traced(ll, ll[a.term]) && Traced(ll, n.log)
    requires Cut(a, ll[a.term], len) && Accepts(n, a)
    ensures OnAppendEntries(n, a).0.log == if a.entries == [] then n.log else ll[a.term][..len]
  {
    assert n.log != [];
    OnAccepted(n, a);
    CutSplice(ll, n.log, a, len);
  }

  lemma CutSplice(ll: Logs, log: seq<Entry>, a: AppArgs, len: nat)
    requires a.term in ll && Traced(ll, ll[a.term]) && Traced(ll, log)
    requires Cut(a, ll[a.term], len) && a.prev < |log| && log[a.prev].term == a.prevTerm
    ensures Merged(log, a.prev + 1, a.entries) == if a.entries == [] then log else ll[a.term][..len]
  {
    MergeIsSplice(ll, log, a.term, a.prev, a.entries);
  }

  lemma CutKeeps(leader: seq<Entry>, log: seq<Entry>, log': seq<Entry>, entries: seq<Entry>, len: nat, f: nat)
    requires f <= |log| && f <= |leader| && len <= |leader| && log[..f] == leader[..f]
    requires log' == if entries == [] then log else leader[..len]
    ensures f <= |log'| && log'[..f] == leader[..f] <==> entries == [] || len >= f
  {
    assert len >= f ==> leader[..len][..f] == leader[..f];
  }
}
