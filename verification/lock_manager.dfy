/** Waiting in the lock queue, on a server that goes on applying the log meanwhile. */
module LockManager {
  import opened Numbers
  import opened MvccLog
  import opened MvccIndex
  import opened MvccScan
  import opened MvccStore
  import opened KvSpec
  import opened KvServer
  import opened LockSpec
  import opened WatchTree

  /** The live contender with the highest revision below the given one; the empty string if there is none. */
  method FindPredecessor(mvcc: Mvcc, resource: string, myRevision: nat) returns (predecessor: string)
    requires mvcc.CoreValid()
    ensures predecessor == "" <==> Ahead(mvcc.writes, resource, myRevision) == {}
    ensures predecessor != "" ==>
      && Alive(mvcc.writes, predecessor) && Contends(resource, predecessor)
      && Newest(mvcc.writes, predecessor) in Ahead(mvcc.writes, resource, myRevision)
      && forall r :: r in Ahead(mvcc.writes, resource, myRevision) ==> r <= Newest(mvcc.writes, predecessor)
  {
    hide HistoryOk, StoreOk, RevisionsOk, InQueue, Scanned, Queued, Ahead, Alive, Contends, Newest, LockPrefix;
    var entries := mvcc.PrefixScan(LockPrefix(resource));
    EntriesAreQueue(mvcc.writes, mvcc.floor, resource, entries);
    predecessor := "";
    var maxRevision: nat := 0;
    for i := 0 to |entries|
      invariant if maxRevision == 0 then predecessor == ""
        else maxRevision < myRevision && InQueue(mvcc.writes, resource, predecessor, maxRevision)
      invariant forall j :: 0 <= j < i && entries[j].version < myRevision ==> entries[j].version <= maxRevision
    {
      var entry := entries[i];
      assert InQueue(mvcc.writes, resource, entry.key, entry.version);
      if entry.version == myRevision {
        continue;
      }
      if entry.version < myRevision && entry.version > maxRevision {
        maxRevision := entry.version;
        predecessor := entry.key;
      }
    }
    NearestAhead(mvcc.writes, resource, myRevision, entries, predecessor, maxRevision);
  }

  lemma NearestAhead(ws: seq<Write>, resource: string, rev: nat, entries: seq<KeyValue>, predecessor: string, max: nat)
    requires forall r :: Queued(ws, resource, r) ==> exists j :: 0 <= j < |entries| && entries[j].version == r
    requires forall j :: 0 <= j < |entries| && entries[j].version < rev ==> entries[j].version <= max
    requires if max == 0 then predecessor == "" else max < rev && InQueue(ws, resource, predecessor, max)
    ensures predecessor == "" <==> Ahead(ws, resource, rev) == {}
    ensures predecessor != "" ==>
      Alive(ws, predecessor) && Contends(resource, predecessor) && max == Newest(ws, predecessor)
    ensures predecessor != "" ==> max in Ahead(ws, resource, rev) && forall r :: r in Ahead(ws, resource, rev) ==>
      r <= max
  {
    forall r | r in Ahead(ws, resource, rev)
      ensures 0 < r <= max
    {
      var j :| 0 <= j < |entries| && entries[j].version == r;
    }
    assert max > 0 ==> max in Ahead(ws, resource, rev);
  }

  ghost predicate InQueue(ws: seq<Write>, resource: string, k: string, r: nat) {
    Queued(ws, resource, r) && ws[r - 1].key == k && Alive(ws, k) && Contends(resource, k) && Newest(ws, k) == r
      && k != ""
  }

  lemma EntriesAreQueue(ws: seq<Write>, floor: nat, resource: string, entries: seq<KeyValue>)
    requires floor <= |ws|
    requires forall k, v, r :: KeyValue(k, v, r) in entries <==>
      Scanned(ws, floor, LockPrefix(resource), k) == Found(v, r)
    ensures forall j :: 0 <= j < |entries| ==> InQueue(ws, resource, entries[j].key, entries[j].version)
    ensures forall r :: Queued(ws, resource, r) ==> exists j :: 0 <= j < |entries| && entries[j].version == r
  {
    forall j | 0 <= j < |entries|
      ensures InQueue(ws, resource, entries[j].key, entries[j].version)
    {
      var e := entries[j];
      assert KeyValue(e.key, e.value, e.version) in entries;
      ScanIsContenders(ws, floor, resource, e.key);
      ContenderUnderLock(resource, e.key);
    }
    forall r | Queued(ws, resource, r)
      ensures exists j :: 0 <= j < |entries| && entries[j].version == r
    {
      ScanIsContenders(ws, floor, resource, ws[r - 1].key);
      assert KeyValue(ws[r - 1].key, ws[r - 1].value, r) in entries;
    }
  }

  /** `rest` remains of the log after the server went from one state to the other. */
  ghost predicate Went(before: State, after: State, log: seq<Op>, rest: seq<Op>) {
    |rest| <= |log| && log[|log| - |rest|..] == rest && after == Run(before, log[..|log| - |rest|])
  }

  lemma WentOn(a: State, b: State, c: State, log: seq<Op>, mid: seq<Op>, rest: seq<Op>)
    requires Went(a, b, log, mid) && Went(b, c, mid, rest)
    ensures Went(a, c, log, rest)
  {
    var i, j := |log| - |mid|, |log| - |rest|;
    assert log[..j] == log[..i] + mid[..|mid| - |rest|];
    RunConcat(a, log[..i], mid[..|mid| - |rest|]);
  }

  lemma WentNowhere(a: State, log: seq<Op>)
    ensures Went(a, a, log, log)
  {
    assert log[..0] == [];
  }

  /** The server applies the next entry of the log. */
  method Advance(server: KvServer, log: seq<Op>) returns (rest: seq<Op>)
    requires server.Valid() && log != []
    modifies server, server.mvcc
    ensures server.Valid() && |rest| == |log| - 1 && Went(old(server.State()), server.State(), log, rest)
    ensures old(server.events) <= server.events
  {
    hide HistoryOk, StoreOk, RevisionsOk, LatestOk, Notified;
    RunOne(server.State(), log[0]);
    assert log[..1] == [log[0]];
    server.Apply(log[0], server.lastApplied + 1);
    rest := log[1..];
  }

  /** The server applies entries of the log, `n` if there are so many. */
  method AdvanceBy(server: KvServer, log: seq<Op>, n: nat) returns (rest: seq<Op>)
    requires server.Valid()
    modifies server, server.mvcc
    ensures server.Valid() && Went(old(server.State()), server.State(), log, rest)
    ensures |rest| == |log| - Min(n, |log|) && server.State() == Cut(old(server.State()), log, n)
    ensures old(server.events) <= server.events
  {
    hide HistoryOk, StoreOk, RevisionsOk, LatestOk, Notified, Went, Run;
    rest := log;
    WentNowhere(server.State(), log);
    var i := 0;
    while i < n && rest != []
      invariant server.Valid() && Went(old(server.State()), server.State(), log, rest)
      invariant i <= n && |rest| == |log| - Min(i, |log|)
      invariant old(server.events) <= server.events
      decreases |rest|
    {
      ghost var mid, before := rest, server.State();
      rest := Advance(server, rest);
      WentOn(old(server.State()), before, server.State(), log, mid, rest);
      i := i + 1;
    }
    WentCut(old(server.State()), server.State(), log, rest, n);
  }

  /** The state after the first `n` entries of the log, or all of them if there are fewer. */
  ghost function Cut(s: State, log: seq<Op>, n: nat): State {
    Run(s, log[..Min(n, |log|)])
  }

  lemma WentCut(before: State, after: State, log: seq<Op>, rest: seq<Op>, n: nat)
    requires Went(before, after, log, rest) && |rest| == |log| - Min(n, |log|)
    ensures after == Cut(before, log, n)
  {
  }

  /** How waiting ends: a nil return, an error, or a call on the watcher manager that is not there. */
  datatype Outcome = DONE | CANCELLED | PANICKED

  /** The key has no write at all, or was deleted after the first `n` writes. */
  ghost predicate NeverOrGone(ws: seq<Write>, k: string, n: nat) {
    Newest(ws, k) == 0 || DeletedAfter(ws, k, n)
  }

  ghost predicate DeletedAfter(ws: seq<Write>, k: string, n: nat) {
    exists d: nat :: d > n && Writes(ws, k, d) && ws[d - 1].deleted
  }

  lemma DeletedLater(ws: seq<Write>, later: seq<Write>, k: string, n: nat)
    requires ws <= later && DeletedAfter(ws, k, n)
    ensures DeletedAfter(later, k, n)
  {
    var d: nat :| d > n && Writes(ws, k, d) && ws[d - 1].deleted;
    assert Writes(later, k, d) && later[d - 1].deleted;
  }

  /** Waits until the watched key is deleted, or until nothing more happens (the caller's deadline).
    * `wired` says whether the lock manager was given a watcher manager; `unseen` entries are applied
    * between the search for the key and the registration of the watch. Only a deletion after the registration
    * wakes the caller, and every such one does. */
  method WaitLock(server: KvServer, wired: bool, target: string, log: seq<Op>, unseen: nat)
    returns (outcome: Outcome, rest: seq<Op>)
    requires server.Valid()
    modifies server, server.mvcc
    ensures server.Valid() && Went(old(server.State()), server.State(), log, rest)
    ensures outcome == PANICKED <==> !wired
    ensures outcome == DONE ==> NeverOrGone(server.mvcc.writes, target, |old(server.mvcc.writes)|)
    ensures outcome == CANCELLED ==> rest == []
    ensures wired ==> (outcome == DONE <==> Wakes(old(server.State()), target, log, unseen))
  {
    EventPerWrite(server.mvcc.writes, server.events);
    hide HistoryOk, StoreOk, RevisionsOk, LatestOk, Went, Run, Cut, Newest, Notified, DeletedAfter;
    rest := AdvanceBy(server, log, unseen);
    WritesExtend(old(server.State()), server.State(), log, rest);
    EventPerWrite(server.mvcc.writes, server.events);
    if !wired {
      return PANICKED, rest;
    }
    var registered := |server.events|;
    var _, found := server.mvcc.GetLatest(target);
    if !found {
      return DONE, rest;
    }
    ghost var mid, before := rest, server.State();
    outcome, rest := AwaitDelete(server, target, registered, rest);
    WentOn(old(server.State()), before, server.State(), log, mid, rest);
    RestWrites(old(server.State()), server.State(), log, rest);
    if outcome == DONE {
      DeletedLater(server.mvcc.writes, Run(old(server.State()), log).writes, target, registered);
      DeletedSooner(server.mvcc.writes, target, |old(server.mvcc.writes)|, registered);
    }
  }

  /** The key was never written when its watch is registered, or is deleted after that. */
  ghost predicate Wakes(s: State, target: string, log: seq<Op>, unseen: nat) {
    var at := Cut(s, log, unseen);
    Newest(at.writes, target) == 0 || DeletedAfter(Run(s, log).writes, target, |at.writes|)
  }

  lemma DeletedSooner(ws: seq<Write>, k: string, n: nat, m: nat)
    requires n <= m && DeletedAfter(ws, k, m)
    ensures DeletedAfter(ws, k, n)
  {
    var d: nat :| d > m && Writes(ws, k, d) && ws[d - 1].deleted;
    assert d > n;
  }

  lemma RestWrites(before: State, after: State, log: seq<Op>, rest: seq<Op>)
    requires Went(before, after, log, rest)
    ensures after.writes <= Run(before, log).writes && (rest == [] ==> after == Run(before, log))
  {
    var done := log[..|log| - |rest|];
    assert log == done + rest;
    RunConcat(before, done, rest);
    RunExtends(after, rest);
  }

  /** Takes events from the channel until the target's deletion comes. */
  method AwaitDelete(server: KvServer, target: string, registered: nat, log: seq<Op>)
    returns (outcome: Outcome, rest: seq<Op>)
    requires server.Valid() && registered <= |server.events|
    modifies server, server.mvcc
    ensures server.Valid() && Went(old(server.State()), server.State(), log, rest)
    ensures outcome == DONE || (outcome == CANCELLED && rest == [])
    ensures outcome == DONE <==> DeletedAfter(server.mvcc.writes, target, registered)
  {
    hide HistoryOk, StoreOk, RevisionsOk, LatestOk, Went, Run, Newest, Notified, DeletedAfter;
    rest := log;
    WentNowhere(server.State(), log);
    var next := registered;
    while true
      invariant server.Valid() && Went(old(server.State()), server.State(), log, rest)
      invariant registered <= next <= |server.events|
      invariant forall i :: registered <= i < next ==>
        !(server.events[i].key == target && server.events[i].kind == "Delete")
      decreases |rest|, |server.events| - next
    {
      if next < |server.events| {
        var event := server.events[next];
        next := next + 1;
        if event.key == target && event.kind == "Delete" {
          DeleteSeen(server.mvcc.writes, server.events, target, registered, next - 1);
          return DONE, rest;
        }
      } else if rest != [] {
        ghost var mid, before := rest, server.State();
        rest := Advance(server, rest);
        WentOn(old(server.State()), before, server.State(), log, mid, rest);
      } else {
        NoDeleteSeen(server.mvcc.writes, server.events, target, registered);
        return CANCELLED, rest;
      }
    }
  }

  lemma EventPerWrite(ws: seq<Write>, events: seq<WatchEvent>)
    requires Notified(ws, events)
    ensures |events| == |ws|
  {
  }

  lemma DeleteSeen(ws: seq<Write>, events: seq<WatchEvent>, k: string, n: nat, i: nat)
    requires Notified(ws, events) && n <= i < |events| && events[i].key == k && events[i].kind == "Delete"
    ensures DeletedAfter(ws, k, n)
  {
    assert Reports(events[i], ws[i], i + 1);
    assert Writes(ws, k, i + 1) && ws[i + 1 - 1].deleted;
  }

  lemma NoDeleteSeen(ws: seq<Write>, events: seq<WatchEvent>, k: string, n: nat)
    requires Notified(ws, events)
    requires forall i :: n <= i < |events| ==> !(events[i].key == k && events[i].kind == "Delete")
    ensures !DeletedAfter(ws, k, n)
  {
    forall d: nat | d > n && Writes(ws, k, d)
      ensures !ws[d - 1].deleted
    {
      assert Reports(events[d - 1], ws[d - 1], d);
    }
  }

  /** After `n` entries the key was ahead, its watch was registered `u` entries later, and it is not deleted after
    * that: it never is, or it was in between. */
  ghost predicate Stuck(s: State, log: seq<Op>, resource: string, rev: nat, k: string, n: nat, u: nat) {
    var here, at := Cut(s, log, n).writes, Cut(s, log, n + u).writes;
    && n <= |log| && Alive(here, k) && Contends(resource, k) && Newest(here, k) in Ahead(here, resource, rev)
    && !DeletedAfter(Run(s, log).writes, k, |at|)
  }

  /** Nothing is applied between a search and the registration that follows. */
  ghost predicate Prompt(unseen: nat -> nat) {
    forall i :: unseen(i) == 0
  }

  ghost predicate SomeStuck(s: State, log: seq<Op>, resource: string, rev: nat, unseen: nat -> nat) {
    exists k, n, i :: Stuck(s, log, resource, rev, k, n, unseen(i))
  }

  /** The rest of a log, from where the server has got to. */
  lemma CutOn(s: State, before: State, log: seq<Op>, mid: seq<Op>, u: nat)
    requires Went(s, before, log, mid)
    ensures Cut(s, log, |log| - |mid|) == before && Cut(before, mid, u) == Cut(s, log, |log| - |mid| + u)
    ensures Run(before, mid) == Run(s, log)
  {
    var n := |log| - |mid|;
    var m := Min(u, |mid|);
    hide Run;
    assert log[..n + m] == log[..n] + log[n..n + m] && log[n..n + m] == mid[..m];
    RunConcat(s, log[..n], mid[..m]);
    assert log == log[..n] + log[n..];
    RunConcat(s, log[..n], mid);
  }

  lemma WentShort(before: State, after: State, log: seq<Op>, rest: seq<Op>)
    requires Went(before, after, log, rest)
    ensures |rest| <= |log|
  {
  }

  lemma NotWoken(s: State, before: State, log: seq<Op>, mid: seq<Op>, resource: string, rev: nat, k: string,
      unseen: nat -> nat, i: nat)
    requires Went(s, before, log, mid) && Alive(before.writes, k) && Contends(resource, k)
    requires Newest(before.writes, k) in Ahead(before.writes, resource, rev) && !Wakes(before, k, mid, unseen(i))
    ensures SomeStuck(s, log, resource, rev, unseen)
  {
    hide Run, Cut, Alive, Contends, Ahead, Newest, DeletedAfter, Went;
    CutOn(s, before, log, mid, unseen(i));
    WentShort(s, before, log, mid);
    assert Stuck(s, log, resource, rev, k, |log| - |mid|, unseen(i));
  }

  /** Under the discipline, and with nothing applied between a search and the registration that follows, the only
    * key to be stuck at is one that is still alive in the end, ahead of the revision. */
  lemma StuckIsAhead(s: State, log: seq<Op>, resource: string, rev: nat, k: string, n: nat)
    requires Stuck(s, log, resource, rev, k, n, 0) && OncePut(Run(s, log).writes)
    ensures Ahead(Run(s, log).writes, resource, rev) != {}
  {
    hide Run, Alive, Contends, Ahead, Newest, DeletedAfter, OncePut;
    var here, all := Cut(s, log, n).writes, Run(s, log).writes;
    assert log == log[..n] + log[n..];
    RunConcat(s, log[..n], log[n..]);
    RunExtends(Run(s, log[..n]), log[n..]);
    NeverLeaves(here, all, resource, rev, k);
  }

  lemma NeverLeaves(ws: seq<Write>, later: seq<Write>, resource: string, rev: nat, k: string)
    requires ws <= later && Alive(ws, k) && Contends(resource, k) && OncePut(later)
    requires Newest(ws, k) in Ahead(ws, resource, rev) && !DeletedAfter(later, k, |ws|)
    ensures Newest(ws, k) in Ahead(later, resource, rev)
  {
    var r, r' := Newest(ws, k), Newest(later, k);
    NewestLater(ws, later, k);
    ContenderUnderLock(resource, k);
    assert Writes(later, k, r) && Writes(later, k, r');
    hide Contends;
  }

  /** Waits for one predecessor after another; every round leaves strictly fewer ahead, whatever is applied.
    * Without a watcher manager it gets through exactly if nobody is ahead when it starts. With one it gets through
    * unless it is stuck at a key that is not deleted after the watch on it. */
  method WaitUntilAcquire(server: KvServer, wired: bool, resource: string, myRevision: nat, log: seq<Op>,
      unseen: nat -> nat)
    returns (outcome: Outcome, rest: seq<Op>, rounds: nat)
    requires server.Valid() && myRevision <= |server.mvcc.writes|
    modifies server, server.mvcc
    ensures server.Valid() && Went(old(server.State()), server.State(), log, rest)
    ensures outcome == DONE ==> Passed(server.mvcc.writes, resource, myRevision)
    ensures rounds <= |Ahead(old(server.mvcc.writes), resource, myRevision)|
    ensures outcome == PANICKED <==> !wired && Ahead(old(server.mvcc.writes), resource, myRevision) != {}
    ensures Ahead(old(server.mvcc.writes), resource, myRevision) == {} ==> outcome == DONE
    ensures outcome == CANCELLED ==> rest == [] && SomeStuck(old(server.State()), log, resource, myRevision, unseen)
    ensures wired && Prompt(unseen) && OncePut(Run(old(server.State()), log).writes) ==>
      (outcome == DONE <==> Passed(Run(old(server.State()), log).writes, resource, myRevision))
  {
    hide HistoryOk, StoreOk, RevisionsOk, LatestOk, Went, Run, Newest, Ahead, Alive, Contends, Notified, Wakes,
      SomeStuck, OncePut, Passed;
    rest, rounds := log, 0;
    WentNowhere(server.State(), log);
    while true
      invariant server.Valid() && Went(old(server.State()), server.State(), log, rest)
      invariant myRevision <= |server.mvcc.writes|
      invariant rounds + |Ahead(server.mvcc.writes, resource, myRevision)| <=
        |Ahead(old(server.mvcc.writes), resource, myRevision)|
      invariant wired || (rounds == 0 && server.mvcc.writes == old(server.mvcc.writes))
      decreases |Ahead(server.mvcc.writes, resource, myRevision)|
    {
      var predecessor := FindPredecessor(server.mvcc, resource, myRevision);
      if predecessor == "" {
        PassedInTheEnd(old(server.State()), server.State(), log, rest, resource, myRevision);
        return DONE, rest, rounds;
      }
      ghost var mid, before := rest, server.State();
      outcome, rest := WaitLock(server, wired, predecessor, rest, unseen(rounds));
      WentOn(old(server.State()), before, server.State(), log, mid, rest);
      if outcome != DONE {
        if outcome == CANCELLED {
          NotWoken(old(server.State()), before, log, mid, resource, myRevision, predecessor, unseen, rounds);
          StuckInTheEnd(old(server.State()), log, resource, myRevision, unseen);
        }
        return outcome, rest, rounds;
      }
      WritesExtend(before, server.State(), mid, rest);
      RoundShrinks(before.writes, server.mvcc.writes, resource, myRevision, predecessor);
      rounds := rounds + 1;
    }
  }

  lemma PassedInTheEnd(s: State, after: State, log: seq<Op>, rest: seq<Op>, resource: string, rev: nat)
    requires Went(s, after, log, rest) && rev <= |after.writes| && Ahead(after.writes, resource, rev) == {}
    ensures Passed(after.writes, resource, rev) && Passed(Run(s, log).writes, resource, rev)
  {
    RestWrites(s, after, log, rest);
    PassedStays(after.writes, Run(s, log).writes, resource, rev);
  }

  lemma StuckInTheEnd(s: State, log: seq<Op>, resource: string, rev: nat, unseen: nat -> nat)
    requires SomeStuck(s, log, resource, rev, unseen)
    ensures Prompt(unseen) && OncePut(Run(s, log).writes) ==> !Passed(Run(s, log).writes, resource, rev)
  {
    hide Stuck, OncePut, Run;
    if Prompt(unseen) && OncePut(Run(s, log).writes) {
      var k, n, i :| Stuck(s, log, resource, rev, k, n, unseen(i));
      StuckIsAhead(s, log, resource, rev, k, n);
    }
  }

  lemma WritesExtend(before: State, after: State, log: seq<Op>, rest: seq<Op>)
    requires Went(before, after, log, rest)
    ensures before.writes <= after.writes
  {
    RunExtends(before, log[..|log| - |rest|]);
  }

  lemma OrderlyOn(before: State, after: State, log: seq<Op>, rest: seq<Op>)
    requires Went(before, after, log, rest) && OncePut(before.writes) && forall op :: op in log ==> Orderly(op)
    ensures OncePut(after.writes) && before.writes <= after.writes && forall op :: op in rest ==> Orderly(op)
  {
    var done := log[..|log| - |rest|];
    assert forall op :: op in done ==> op in log;
    OncePutRun(before, done);
    RunExtends(before, done);
  }

  /** One round: the predecessor that was waited for is gone, and nobody came in ahead. */
  lemma RoundShrinks(ws: seq<Write>, later: seq<Write>, resource: string, rev: nat, target: string)
    requires ws <= later && rev <= |ws|
    requires Alive(ws, target) && Newest(ws, target) in Ahead(ws, resource, rev)
    requires NeverOrGone(later, target, |ws|)
    ensures |Ahead(later, resource, rev)| < |Ahead(ws, resource, rev)|
  {
    NewestLater(ws, later, target);
    var d: nat :| d > |ws| && Writes(later, target, d) && later[d - 1].deleted;
    DeletedLeaves(ws, later, resource, rev, Newest(ws, target), d);
    hide Ahead;
    SmallerSet(Ahead(later, resource, rev), Ahead(ws, resource, rev));
  }

  lemma SmallerSet(a: set<nat>, b: set<nat>)
    requires a < b
    ensures |a| < |b|
  {
    assert exists x :: x in b - a by {
      assert b - a == {} ==> b <= a;
    }
    var x :| x in b - a;
    assert a + {x} <= b;
    assert |b| == |a + {x}| + |b - (a + {x})|;
  }

  // ---- the lock request ----

  datatype LockRequest = LockRequest(resource: string, leaseId: int, clientId: int, requestId: int)

  datatype LockError = GRANTED | LEASE_NO_EXIST | LOCK_EXIST | TIMEOUT | INTERNAL_ERROR

  datatype LockReply = LockReply(success: bool, revision: nat, err: LockError)

  function LockKey(req: LockRequest): string {
    GenerateLockKey(req.resource, req.clientId, req.requestId)
  }

  function LockTxn(req: LockRequest): Op {
    CreateLockTxn(LockKey(req), req.leaseId, req.clientId, req.requestId)
  }

  /** Recorded transaction versions are revisions that exist. */
  ghost predicate Bounded(s: State) {
    forall c :: c in s.tables.lastTxnResult ==> s.tables.lastTxnResult[c].version <= |s.writes|
  }

  lemma BoundedStep(s: State, op: Op)
    requires Bounded(s)
    ensures Bounded(After(s, op))
  {
    AfterExtends(s, op);
    hide AllWritten, AllRead, Meets;
  }

  lemma {:induction false} BoundedRun(s: State, log: seq<Op>)
    requires Bounded(s)
    ensures Bounded(Run(s, log))
  {
    if log != [] {
      BoundedRun(s, log[..|log| - 1]);
      BoundedStep(Run(s, log[..|log| - 1]), log[|log| - 1]);
    }
  }

  lemma AnswerBounded(s: State, op: Op)
    requires Bounded(s) && op.kind == "Txn"
    ensures ReplyTo(s, op).OfTxn? && ReplyTo(s, op).txn.version <= |After(s, op).writes|
  {
    hide AllWritten, AllRead, Meets;
  }

  /** The answer sent to whoever waits for a transaction at the index of `found`. */
  ghost function Sent(s: State, found: Op): (r: TxnResult)
    requires found.kind == "Txn"
  {
    TxnReply(s, found);
    ReplyTo(s, found).txn
  }

  lemma TxnReply(s: State, op: Op)
    ensures ReplyTo(s, op).OfTxn? <==> op.kind == "Txn"
  {
    hide AllWritten, AllRead, Meets;
  }

  /**
   * Waits for the answer at the index the submitted transaction was given, until the time-out. `ahead` are the
   * entries applied before that index and `found` the one applied there, whosever it is; `registered` says whether
   * the channel was in place by then.
   */
  method ExecuteTxn(server: KvServer, index: int, registered: bool, ahead: seq<Op>, found: Op)
    returns (result: Option<TxnResult>)
    requires server.Valid()
    modifies server, server.mvcc
    ensures server.Valid() && server.State() == After(Run(old(server.State()), ahead), found)
    ensures result == if registered && found.kind == "Txn" then Some(Sent(Run(old(server.State()), ahead), found))
                      else None
  {
    hide HistoryOk, StoreOk, RevisionsOk, LatestOk, Run, After, ReplyTo, Notified, Went;
    var _ := AdvanceBy(server, ahead, |ahead|);
    WentAll(old(server.State()), server.State(), ahead);
    if registered {
      server.waiting := server.waiting.(txnWaitCh := server.waiting.txnWaitCh + {index});
    }
    TxnReply(server.State(), found);
    var before := |server.sent|;
    server.Apply(found, index);
    if registered && before < |server.sent| && server.sent[before].1.OfTxn? {
      return Some(server.sent[before].1.txn);
    }
    return None;
  }

  /** The lock request, with no reply where the handler panics; `log` are the entries after the one at its index. */
  method Lock(server: KvServer, wired: bool, leaseKnown: bool, req: LockRequest, index: int, registered: bool,
      ahead: seq<Op>, found: Op, log: seq<Op>, unseen: nat -> nat)
    returns (reply: Option<LockReply>, rest: seq<Op>)
    requires server.Valid() && OncePut(server.mvcc.writes) && Bounded(server.State())
    requires forall op :: op in ahead + [found] + log ==> Orderly(op)
    modifies server, server.mvcc
    ensures server.Valid() && OncePut(server.mvcc.writes)
    ensures !leaseKnown ==> reply == Some(LockReply(false, 0, LEASE_NO_EXIST)) && server.State() == old(server.State())
    ensures leaseKnown ==> Went(After(Run(old(server.State()), ahead), found), server.State(), log, rest)
    ensures leaseKnown && !(registered && found.kind == "Txn") ==> reply == Some(LockReply(false, 0, TIMEOUT))
    ensures leaseKnown && registered && found.kind == "Txn" && !Sent(Run(old(server.State()), ahead), found).succeeded
      ==> reply == Some(LockReply(false, 0, LOCK_EXIST))
    ensures reply == None <==>
      leaseKnown && registered && !wired && MustWait(Run(old(server.State()), ahead), req.resource, found)
    ensures leaseKnown && registered && GoesAhead(Run(old(server.State()), ahead), req.resource, found) ==>
      reply == Some(LockReply(true, Sent(Run(old(server.State()), ahead), found).version, GRANTED))
    ensures leaseKnown && registered && Succeeds(Run(old(server.State()), ahead), found) ==>
      || reply == None || reply == Some(LockReply(false, 0, INTERNAL_ERROR))
      || reply == Some(LockReply(true, Sent(Run(old(server.State()), ahead), found).version, GRANTED))
    ensures reply == Some(LockReply(false, 0, INTERNAL_ERROR)) ==>
      && rest == [] && Succeeds(Run(old(server.State()), ahead), found)
      && SomeStuck(After(Run(old(server.State()), ahead), found), log, req.resource,
        Sent(Run(old(server.State()), ahead), found).version, unseen)
    ensures leaseKnown && registered && wired && Succeeds(Run(old(server.State()), ahead), found) && Prompt(unseen) ==>
      (Granted(reply) <==> Passed(Run(After(Run(old(server.State()), ahead), found), log).writes, req.resource,
        Sent(Run(old(server.State()), ahead), found).version))
    ensures Granted(reply) ==> Passed(server.mvcc.writes, req.resource, reply.value.revision)
    ensures Granted(reply) ==>
      forall other :: found == LockTxn(other) && Fresh(Run(old(server.State()), ahead), other) ==>
        (Created(server.mvcc.writes, LockKey(req), reply.value.revision) <==> LockKey(other) == LockKey(req))
    ensures Granted(reply) && found == LockTxn(req) && Fresh(Run(old(server.State()), ahead), req) ==>
      (Holds(server.mvcc.writes, req.resource, LockKey(req), reply.value.revision) <==>
       Newest(server.mvcc.writes, LockKey(req)) == reply.value.revision)
  {
    hide HistoryOk, StoreOk, RevisionsOk, LatestOk, Run, After, ReplyTo, Newest, OncePut, Orderly, Notified, Bounded,
      Went, Created, Holds, Ahead, Passed, Fresh, Sent, LockTxn, LockKey,
      SomeStuck;
    if !leaseKnown {
      return Some(LockReply(false, 0, LEASE_NO_EXIST)), log;
    }
    ghost var s := Run(server.State(), ahead);
    Turn(server.State(), ahead, found, log);
    var result := ExecuteTxn(server, index, registered, ahead, found);
    WentNowhere(server.State(), log);
    if result.None? {
      return Some(LockReply(false, 0, TIMEOUT)), log;
    }
    var r := result.value;
    if !r.succeeded {
      return Some(LockReply(false, 0, LOCK_EXIST)), log;
    }
    ghost var created := server.State();
    OncePutRun(created, log);
    var outcome, left, _ := WaitUntilAcquire(server, wired, req.resource, r.version, log, unseen);
    OrderlyOn(created, server.State(), log, left);
    GrantedFacts(s, req, found, server.mvcc.writes);
    match outcome
    case PANICKED => return None, left;
    case CANCELLED => return Some(LockReply(false, 0, INTERNAL_ERROR)), left;
    case DONE => return Some(LockReply(true, r.version, GRANTED)), left;
  }

  predicate Granted(reply: Option<LockReply>) {
    reply.Some? && reply.value.success
  }

  /** The client's number is newer than all it has used. */
  predicate Fresh(s: State, req: LockRequest) {
    req.requestId > Last(s.tables, req.clientId)
  }

  /** The entry, applied in this state, is a transaction that succeeds. */
  ghost predicate Succeeds(s: State, found: Op) {
    found.kind == "Txn" && Sent(s, found).succeeded
  }

  /** It succeeds behind somebody. */
  ghost predicate MustWait(s: State, resource: string, found: Op) {
    Succeeds(s, found) && Ahead(After(s, found).writes, resource, Sent(s, found).version) != {}
  }

  /** It succeeds with nobody ahead. */
  ghost predicate GoesAhead(s: State, resource: string, found: Op) {
    Succeeds(s, found) && Ahead(After(s, found).writes, resource, Sent(s, found).version) == {}
  }

  /** The key was put at this revision. */
  ghost predicate Created(ws: seq<Write>, k: string, rev: nat) {
    Writes(ws, k, rev) && !ws[rev - 1].deleted
  }

  lemma WentAll(before: State, after: State, log: seq<Op>)
    requires Went(before, after, log, [])
    ensures after == Run(before, log)
  {
    assert log[..|log|] == log;
  }

  /** What a granted request got, if the entry at its index was a fresh lock request, its own or another's. */
  lemma GrantedKey(s: State, req: LockRequest, other: LockRequest, later: seq<Write>)
    requires Fresh(s, other) && Sent(s, LockTxn(other)).succeeded && After(s, LockTxn(other)).writes <= later
    ensures Created(later, LockKey(req), Sent(s, LockTxn(other)).version) <==> LockKey(other) == LockKey(req)
  {
    hide After, ReplyTo, Newest, GenerateLockKey;
    LockEffect(s, LockKey(other), other.leaseId, other.clientId, other.requestId);
  }

  /** Under the discipline a lock holds as long as its key is not written again. */
  lemma HoldsIff(ws: seq<Write>, req: LockRequest, rev: nat)
    requires OncePut(ws) && Created(ws, LockKey(req), rev)
    ensures Holds(ws, req.resource, LockKey(req), rev) <==> Newest(ws, LockKey(req)) == rev
  {
    var k := LockKey(req);
    UnderPrefix(req.resource, req.clientId, req.requestId);
    hide GenerateLockKey, LockPrefix, OncePut, Queued;
    if Alive(ws, k) {
      HolderIsQueued(ws, req.resource, k, rev);
    }
  }

  lemma GrantedFacts(s: State, req: LockRequest, found: Op, later: seq<Write>)
    requires found.kind == "Txn" && Sent(s, found).succeeded && After(s, found).writes <= later && OncePut(later)
    ensures forall other :: found == LockTxn(other) && Fresh(s, other) ==>
      (Created(later, LockKey(req), Sent(s, found).version) <==> LockKey(other) == LockKey(req))
    ensures found == LockTxn(req) && Fresh(s, req) ==>
      (Holds(later, req.resource, LockKey(req), Sent(s, found).version) <==>
       Newest(later, LockKey(req)) == Sent(s, found).version)
  {
    hide *;
    forall other | found == LockTxn(other) && Fresh(s, other)
      ensures Created(later, LockKey(req), Sent(s, found).version) <==> LockKey(other) == LockKey(req)
    {
      GrantedKey(s, req, other, later);
    }
    if found == LockTxn(req) && Fresh(s, req) {
      HoldsIff(later, req, Sent(s, found).version);
    }
  }

  lemma Turn(s: State, ahead: seq<Op>, found: Op, log: seq<Op>)
    requires OncePut(s.writes) && Bounded(s) && forall op :: op in ahead + [found] + log ==> Orderly(op)
    ensures OncePut(After(Run(s, ahead), found).writes) && forall op :: op in log ==> Orderly(op)
    ensures found.kind == "Txn" ==> Sent(Run(s, ahead), found).version <= |After(Run(s, ahead), found).writes|
  {
    hide OncePut, Bounded, Orderly, After, ReplyTo, Run;
    OncePutRun(s, ahead);
    BoundedRun(s, ahead);
    OncePutStep(Run(s, ahead), found);
    if found.kind == "Txn" {
      AnswerBounded(Run(s, ahead), found);
    }
  }

  // ---- a lost wake-up ----

  /** Two lock requests of "a", by clients 1 and 2, on a server that has applied nothing else. */
  lemma TwoQueued() returns (s: State)
    ensures var k1, k2 := GenerateLockKey("a", 1, 1), GenerateLockKey("a", 2, 1);
      && k1 != k2 && LockPrefix("a") <= k1 && LockPrefix("a") <= k2
      && s == Run(BOOT, [CreateLockTxn(k1, 7, 1, 1), CreateLockTxn(k2, 8, 2, 1)])
      && s.writes == [Write(k1, Int(7), false), Write(k2, Int(8), false)]
  {
    var k1, k2 := GenerateLockKey("a", 1, 1), GenerateLockKey("a", 2, 1);
    LockKeysDiffer("a", 1, 1, "a", 2, 1);
    UnderPrefix("a", 1, 1);
    UnderPrefix("a", 2, 1);
    hide GenerateLockKey, LockPrefix;
    var s1 := FirstLock(k1);
    s := SecondLock(s1, k1, k2);
    RunTwo(CreateLockTxn(k1, 7, 1, 1), CreateLockTxn(k2, 8, 2, 1));
  }

  lemma WakesIffSeen(s: State, k1: string, k2: string, unseen: nat)
    requires k1 != k2 && |s.writes| == 2 && s.writes[0].key == k1 && s.writes[1].key == k2
    ensures Wakes(s, k1, [Expire(k1)], unseen) <==> unseen == 0
    ensures Run(s, [Expire(k1)]).writes == s.writes + [Write(k1, "", true)]
  {
    var log := [Expire(k1)];
    RunOne(s, Expire(k1));
    assert log[..0] == [] && log[..1] == log;
    assert Run(s, []) == s;
    var ws, all := s.writes, Run(s, log).writes;
    assert all == ws + [Write(k1, "", true)];
    hide Run;
    assert NewestLE(ws, k1, 2) == 1 && NewestLE(all, k1, 3) == 3;
    assert Writes(all, k1, 3) && all[3 - 1].deleted;
  }

  lemma FirstGone(ws: seq<Write>, resource: string, k1: string)
    requires |ws| == 3 && ws[0].key == ws[2].key == k1
    ensures Passed(ws, resource, 2)
  {
    assert NewestLE(ws, k1, 3) == 3;
    assert forall r :: r in Ahead(ws, resource, 2) ==> r == 1;
  }

  /** The second waits for the first, whose key expires. If that is applied before the watch is registered, nobody
    * wakes the waiter, although nobody is ahead any more. */
  method LostWakeUp(unseen: nat) returns (server: KvServer, outcome: Outcome)
    ensures outcome == DONE <==> unseen == 0
    ensures outcome != PANICKED && Passed(server.mvcc.writes, "a", 2)
  {
    hide HistoryOk, StoreOk, RevisionsOk, LatestOk, Run, After, ReplyTo, Newest, Notified, Passed, LockPrefix,
      GenerateLockKey, Wakes, Expire, CreateLockTxn, Cut, NeverOrGone;
    var k1, k2 := GenerateLockKey("a", 1, 1), GenerateLockKey("a", 2, 1);
    server := new KvServer();
    var log := [CreateLockTxn(k1, 7, 1, 1), CreateLockTxn(k2, 8, 2, 1)];
    var rest := AdvanceBy(server, log, 2);
    WentAll(BOOT, server.State(), log);
    ghost var s := TwoQueued();
    WakesIffSeen(s, k1, k2, unseen);
    var end := [Expire(k1)];
    outcome, rest := WaitLock(server, true, k1, end, unseen);
    ghost var mid, state := rest, server.State();
    rest := AdvanceBy(server, rest, |rest|);
    WentOn(s, state, server.State(), end, mid, rest);
    WentAll(s, server.State(), end);
    FirstGone(server.mvcc.writes, "a", k1);
  }
}
