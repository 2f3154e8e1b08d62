/** What can be learnt back from the flat store after a restart. */
module MvccRebuild {
  import opened Keys
  import opened MvccLog
  import opened MvccIndex

  // ---- sorting, as the library's sort.Slice is used ----

  ghost predicate Distinct<T(!new)>(s: seq<T>, rank: T -> int) {
    forall i, j :: 0 <= i < j < |s| ==> rank(s[i]) != rank(s[j])
  }

  ghost predicate Sorted<T(!new)>(s: seq<T>, rank: T -> int) {
    forall i, j :: 0 <= i < j < |s| ==> rank(s[i]) < rank(s[j])
  }

  function InsertBy<T(!new)>(s: seq<T>, x: T, rank: T -> int): (r: seq<T>)
    ensures forall y :: y in r <==> y in s || y == x
  {
    if s == [] || rank(s[|s| - 1]) <= rank(x) then s + [x]
    else
      assert s == s[..|s| - 1] + [s[|s| - 1]];
      InsertBy(s[..|s| - 1], x, rank) + [s[|s| - 1]]
  }

  lemma {:induction false} InsertSorted<T(!new)>(s: seq<T>, x: T, rank: T -> int)
    requires Sorted(s, rank) && forall y :: y in s ==> rank(y) != rank(x)
    ensures Sorted(InsertBy(s, x, rank), rank)
  {
    if s != [] {
      var init, last := s[..|s| - 1], s[|s| - 1];
      assert s == init + [last] && last in s;
      assert forall y :: y in init ==> rank(y) < rank(last);
      if rank(last) <= rank(x) {
        SortedPush(s, x, rank);
      } else {
        InsertSorted(init, x, rank);
        SortedPush(InsertBy(init, x, rank), last, rank);
      }
    }
  }

  lemma SortedPush<T(!new)>(s: seq<T>, z: T, rank: T -> int)
    requires Sorted(s, rank) && forall y :: y in s ==> rank(y) < rank(z)
    ensures Sorted(s + [z], rank)
  {
    assert forall i :: 0 <= i < |s| ==> s[i] in s;
  }

  function SortBy<T(!new)>(s: seq<T>, rank: T -> int): (r: seq<T>)
    ensures forall y :: y in r <==> y in s
  {
    if s == [] then []
    else
      assert s == s[..|s| - 1] + [s[|s| - 1]];
      InsertBy(SortBy(s[..|s| - 1], rank), s[|s| - 1], rank)
  }

  lemma {:induction false} SortSorted<T(!new)>(s: seq<T>, rank: T -> int)
    requires Distinct(s, rank)
    ensures Sorted(SortBy(s, rank), rank)
  {
    if s != [] {
      SortSorted(s[..|s| - 1], rank);
      InsertSorted(SortBy(s[..|s| - 1], rank), s[|s| - 1], rank);
    }
  }

  function VersionRank(r: nat): int {
    r
  }

  function EntryRank(e: RevisionEntry): int {
    e.rev
  }

  // ---- the version lists ----

  /** `found` lists, in any order and once each, the versions whose rows have been seen. */
  ghost predicate Collected(found: History, seen: set<string>) {
    && (forall k, r: nat :: k in found && r in found[k] <==> Phys(k, r) in seen)
    && forall k :: k in found ==> found[k] != [] && Distinct(found[k], VersionRank)
  }

  lemma NothingSeen(store: Rows)
    ensures Collected(map[], {}) && HighestSeen(store, {}, 0)
  {
  }

  lemma CollectOne(ws: seq<Write>, floor: nat, store: Rows, found: History, seen: set<string>, p: string)
    requires StoreOk(ws, floor, store) && p in store && LastSlash(p) >= 0
    requires Collected(found, seen) && p !in seen
    ensures var k := p[..LastSlash(p)];
      Collected(found[k := (if k in found then found[k] else []) + [store[p].version]], seen + {p})
  {
    var k0, r0 := p[..LastSlash(p)], store[p].version;
    assert RowOk(ws, floor, p, store[p]);
    hide StoreOk, Kept, ValueAt;
    var old' := if k0 in found then found[k0] else [];
    DistinctPush(old', r0);
    hide Distinct, Phys;
    var found' := found[k0 := old' + [r0]];
    forall k, r: nat
      ensures k in found' && r in found'[k] <==> Phys(k, r) in seen + {p}
    {
      if Phys(k, r) == p {
        PhysInjective(k, r, k0, r0);
      }
      assert k in found && r in found[k] <==> Phys(k, r) in seen;
    }
  }

  lemma DistinctPush(s: seq<nat>, r: nat)
    requires Distinct(s, VersionRank) && r !in s
    ensures Distinct(s + [r], VersionRank)
  {
    assert forall i :: 0 <= i < |s| ==> s[i] in s;
  }

  /** Slashless rows are passed over. */
  lemma CollectNone(found: History, seen: set<string>, p: string)
    requires Collected(found, seen) && LastSlash(p) < 0
    ensures Collected(found, seen + {p})
  {
    forall k, r: nat
      ensures k in found && r in found[k] <==> Phys(k, r) in seen + {p}
    {
      PhysSplit(k, r);
    }
  }

  lemma RowIffKept(ws: seq<Write>, floor: nat, store: Rows, k: string, r: nat)
    requires StoreOk(ws, floor, store)
    ensures Phys(k, r) in store <==> Kept(ws, floor, k, r)
  {
    if Phys(k, r) in store {
      var v := store[Phys(k, r)];
      PhysSplit(k, r);
      assert RowOk(ws, floor, Phys(k, r), v);
      PhysInjective(k, r, k, v.version);
    }
  }

  /** Every row seen: the lists hold exactly the kept versions. */
  lemma CollectedAll(ws: seq<Write>, floor: nat, store: Rows, found: History)
    requires StoreOk(ws, floor, store) && Collected(found, store.Keys) && floor <= |ws|
    ensures forall k :: k in found <==> Newest(ws, k) > 0
    ensures forall k, r: nat :: k in found && r in found[k] <==> Kept(ws, floor, k, r)
  {
    forall k, r: nat
      ensures k in found && r in found[k] <==> Kept(ws, floor, k, r)
    {
      RowIffKept(ws, floor, store, k, r);
    }
    forall k
      ensures k in found <==> Newest(ws, k) > 0
    {
      assert Newest(ws, k) > 0 ==> Kept(ws, floor, k, Newest(ws, k));
      if k in found {
        var r := found[k][0];
        assert Kept(ws, floor, k, r);
        NewestBound(ws, k, r);
      }
    }
  }

  lemma SortedVersions(found: History, seen: set<string>, k: string)
    requires Collected(found, seen) && k in found
    ensures Ascending(SortBy(found[k], VersionRank))
  {
    var s := SortBy(found[k], VersionRank);
    SortSorted(found[k], VersionRank);
    assert forall i, j :: 0 <= i < j < |s| ==> VersionRank(s[i]) < VersionRank(s[j]);
  }

  lemma SortedHistory(ws: seq<Write>, floor: nat, found: History, seen: set<string>, history: History)
    requires Collected(found, seen)
    requires forall k :: k in found <==> Newest(ws, k) > 0
    requires forall k, r: nat :: k in found && r in found[k] <==> Kept(ws, floor, k, r)
    requires history.Keys == found.Keys && forall k :: k in history ==> history[k] == SortBy(found[k], VersionRank)
    ensures HistoryOk(ws, floor, history)
  {
    forall k | k in history
      ensures Ascending(history[k]) && forall r :: r in history[k] <==> Kept(ws, floor, k, r)
    {
      SortedVersions(found, seen, k);
      assert forall r: nat :: r in history[k] <==> r in found[k];
    }
  }

  /** Compaction never drops the row that carries the current revision. */
  lemma LastRowKept(ws: seq<Write>, floor: nat, store: Rows)
    requires StoreOk(ws, floor, store) && floor <= |ws| && ws != []
    ensures Phys(ws[|ws| - 1].key, |ws|) in store
    ensures Kept(ws, floor, ws[|ws| - 1].key, |ws|)
  {
  }

  ghost predicate HighestSeen(store: Rows, seen: set<string>, rev: nat) {
    && (forall p :: p in seen && p in store && LastSlash(p) >= 0 ==> store[p].version <= rev)
    && (rev == 0 || exists p :: p in seen && p in store && LastSlash(p) >= 0 && store[p].version == rev)
  }

  lemma SeeOne(store: Rows, seen: set<string>, rev: nat, p: string)
    requires HighestSeen(store, seen, rev) && p in store
    ensures HighestSeen(store, seen + {p}, if LastSlash(p) >= 0 && store[p].version > rev then store[p].version
      else rev)
  {
  }

  lemma HighestIsCurrent(ws: seq<Write>, floor: nat, store: Rows, rev: nat)
    requires StoreOk(ws, floor, store) && floor <= |ws| && HighestSeen(store, store.Keys, rev)
    ensures rev == |ws|
  {
    if ws != [] {
      LastRowKept(ws, floor, store);
      PhysSplit(ws[|ws| - 1].key, |ws|);
    }
    if rev > 0 {
      var p :| p in store && LastSlash(p) >= 0 && store[p].version == rev;
      assert RowOk(ws, floor, p, store[p]);
    }
  }

  // ---- the newest versions ----

  /** The newest kept version up to `n` that is not a tombstone, or 0. */
  ghost function NewestLive(ws: seq<Write>, floor: nat, k: string, n: nat): (r: nat)
    ensures r <= n && (r > 0 ==> Kept(ws, floor, k, r) && !ws[r - 1].deleted)
    ensures forall q: nat :: r < q <= n && Kept(ws, floor, k, q) ==> ws[q - 1].deleted
  {
    if n == 0 then 0
    else if Kept(ws, floor, k, n) && !ws[n - 1].deleted then n
    else NewestLive(ws, floor, k, n - 1)
  }

  ghost predicate LiveLatest(ws: seq<Write>, floor: nat, latest: map<string, nat>, k: string) {
    (k in latest <==> NewestLive(ws, floor, k, |ws|) > 0)
      && (k in latest ==> latest[k] == NewestLive(ws, floor, k, |ws|))
  }

  ghost predicate LatestRebuilt(ws: seq<Write>, floor: nat, latest: map<string, nat>) {
    forall k :: LiveLatest(ws, floor, latest, k)
  }

  /** The newest version that is not a tombstone, found from the end of the version list; -1 if there is none. */
  lemma NewestLiveIs(ws: seq<Write>, floor: nat, k: string, revs: seq<nat>, i: int)
    requires Ascending(revs) && forall r :: r in revs <==> Kept(ws, floor, k, r)
    requires -1 <= i < |revs|
    requires forall j :: i < j < |revs| ==> 1 <= revs[j] <= |ws| && ws[revs[j] - 1].deleted
    requires i >= 0 ==> Kept(ws, floor, k, revs[i]) && !ws[revs[i] - 1].deleted
    ensures NewestLive(ws, floor, k, |ws|) == if i >= 0 then revs[i] else 0
  {
    var n := NewestLive(ws, floor, k, |ws|);
    if n > 0 {
      assert n in revs;
      var j :| 0 <= j < |revs| && revs[j] == n;
      assert j <= i;
    }
  }

  lemma NeverLive(ws: seq<Write>, floor: nat, found: History, latest: map<string, nat>)
    requires forall k, r: nat :: k in found && r in found[k] <==> Kept(ws, floor, k, r)
    requires forall k :: if k in found then LiveLatest(ws, floor, latest, k) else k !in latest
    ensures LatestRebuilt(ws, floor, latest)
  {
    forall k
      ensures LiveLatest(ws, floor, latest, k)
    {
      var n := NewestLive(ws, floor, k, |ws|);
      assert n > 0 ==> k in found && n in found[k];
    }
  }

  /** `latest` is restored exactly for the keys whose newest version is live, and those only. */
  lemma LatestRestoredIff(ws: seq<Write>, floor: nat, latest: map<string, nat>, k: string)
    requires LatestRebuilt(ws, floor, latest) && floor <= |ws| && Newest(ws, k) > 0
    ensures k in latest && latest[k] == Newest(ws, k) <==> !ws[Newest(ws, k) - 1].deleted
  {
    assert LiveLatest(ws, floor, latest, k);
    assert Kept(ws, floor, k, Newest(ws, k));
    var r := NewestLive(ws, floor, k, |ws|);
    assert r > 0 ==> Writes(ws, k, r);
  }

  // ---- the revision index ----

  /** All versions of the lists, as revision entries; `done` are the keys visited so far. */
  ghost predicate Gathered(found: History, done: set<string>, all: seq<RevisionEntry>) {
    && (forall e :: e in all <==> e.key in done && e.key in found && e.rev in found[e.key])
    && Distinct(all, EntryRank)
  }

  /** Two keys never share a revision. */
  ghost predicate Exclusive(found: History) {
    forall k1, k2, r: nat :: k1 in found && k2 in found && r in found[k1] && r in found[k2] ==> k1 == k2
  }

  lemma OneKeyPerRevision(ws: seq<Write>, floor: nat, history: History)
    requires HistoryOk(ws, floor, history)
    ensures Exclusive(history)
  {
  }

  lemma NothingGathered(found: History)
    ensures Gathered(found, {}, [])
  {
  }

  lemma GatherOne(found: History, done: set<string>, all: seq<RevisionEntry>, k: string, added: seq<RevisionEntry>)
    requires Exclusive(found) && Gathered(found, done, all) && k in found && k !in done
    requires Ascending(found[k])
    requires |added| == |found[k]| && forall i :: 0 <= i < |added| ==> added[i] == RevisionEntry(k, found[k][i])
    ensures Gathered(found, done + {k}, all + added)
  {
    forall e
      ensures e in all + added <==> e.key in done + {k} && e.key in found && e.rev in found[e.key]
    {
      if e.key == k && e.rev in found[k] {
        var i :| 0 <= i < |found[k]| && found[k][i] == e.rev;
        assert added[i] == e;
      }
    }
    assert forall i :: 0 <= i < |all| ==> all[i] in all && all[i].key in done;
    assert forall j :: 0 <= j < |added| ==> added[j].key == k && added[j].rev in found[k];
  }

  lemma SortedRevisions(ws: seq<Write>, floor: nat, found: History, all: seq<RevisionEntry>)
    requires HistoryOk(ws, floor, found) && floor <= |ws| && Gathered(found, found.Keys, all)
    ensures RevisionsOk(ws, floor, SortBy(all, EntryRank))
  {
    var revs := SortBy(all, EntryRank);
    SortSorted(all, EntryRank);
    assert forall i, j :: 0 <= i < j < |revs| ==> revs[i].rev < revs[j].rev;
    forall k: string, r: nat | Writes(ws, k, r) && r > floor
      ensures RevisionEntry(k, r) in revs
    {
      NewestBound(ws, k, r);
      assert Kept(ws, floor, k, r);
    }
  }

  // ---- what a reader notices ----

  ghost function RebuiltGet(ws: seq<Write>, floor: nat, k: string): GetResult {
    var r := NewestLive(ws, floor, k, |ws|);
    if r == 0 then KeyNotFound else Found(ws[r - 1].value, r)
  }

  /** A restart changes what is read of exactly those keys that are deleted while an older live version is kept. */
  lemma RestartVisibleIff(ws: seq<Write>, floor: nat, k: string)
    requires floor <= |ws|
    ensures RebuiltGet(ws, floor, k) == IdealGet(ws, k, 0) <==>
      !(  && Newest(ws, k) > 0 && ws[Newest(ws, k) - 1].deleted
          && exists r: nat :: Kept(ws, floor, k, r) && !ws[r - 1].deleted)
  {
    var n, r := Newest(ws, k), NewestLive(ws, floor, k, |ws|);
    assert r > 0 ==> Writes(ws, k, r);
    assert n > 0 ==> Kept(ws, floor, k, n);
  }

  /** Once a deletion is compacted it survives a restart. */
  lemma CompactedDeletionStays(ws: seq<Write>, floor: nat, k: string)
    requires floor <= |ws| && Newest(ws, k) <= floor
    ensures RebuiltGet(ws, floor, k) == IdealGet(ws, k, 0)
  {
    RestartVisibleIff(ws, floor, k);
    assert forall r: nat :: Kept(ws, floor, k, r) ==> Writes(ws, k, r) && r <= Newest(ws, k) && !(r < Newest(ws, k));
  }

  /** A deleted key comes back with its old value. */
  lemma DeletedKeyReturns(k: string, v: string)
    ensures var ws := [Write(k, v, false), Write(k, "", true)];
      IdealGet(ws, k, 0) == KeyNotFound && RebuiltGet(ws, 0, k) == Found(v, 1)
  {
    var ws := [Write(k, v, false), Write(k, "", true)];
    assert NewestLE(ws, k, 2) == 2;
    assert Kept(ws, 0, k, 1);
    assert NewestLive(ws, 0, k, 1) == 1;
    assert NewestLive(ws, 0, k, 2) == 1;
  }
}
