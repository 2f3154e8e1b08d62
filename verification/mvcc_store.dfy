/** The versioned store: every operation agrees with the plain write log. */
module MvccStore {
  import opened Numbers
  import opened Keys
  import opened MvccLog
  import opened MvccIndex
  import opened MvccRebuild
  import opened MvccScan

  /** What `Get(key, 0)` answers: the row that `latest` names, if it is there and live. */
  ghost function ReadLatest(store: Rows, latest: map<string, nat>, key: string): GetResult {
    if key in latest && Phys(key, latest[key]) in store && !store[Phys(key, latest[key])].deleted
    then Found(store[Phys(key, latest[key])].value, store[Phys(key, latest[key])].version)
    else KeyNotFound
  }

  /** With an exact `latest`, compaction is invisible at version 0. */
  lemma {:induction false} ReadLatestIsIdeal(ws: seq<Write>, floor: nat, store: Rows, latest: map<string, nat>,
      key: string)
    requires floor <= |ws| && StoreOk(ws, floor, store) && LatestOk(ws, latest)
    ensures ReadLatest(store, latest, key) == IdealGet(ws, key, 0)
  {
    if Newest(ws, key) > 0 {
      assert Kept(ws, floor, key, Newest(ws, key));
    }
  }

  /** The physical keys are exactly what `history` lists. */
  lemma RowsMatchHistory(ws: seq<Write>, floor: nat, store: Rows, history: History, k: string, r: nat)
    requires StoreOk(ws, floor, store) && HistoryOk(ws, floor, history)
    ensures Phys(k, r) in store <==> k in history && r in history[k]
  {
    RowIffKept(ws, floor, store, k, r);
    NewestBound(ws, k, r);
  }

  /** After `Compact(c)` a key keeps its newest version up to `c`, all its later ones, and nothing else. */
  lemma {:induction false} CompactExact(ws: seq<Write>, floor: nat, c: int, k: string, r: nat)
    requires floor <= |ws|
    ensures Kept(ws, Raised(floor, c, |ws|), k, r) <==>
      Kept(ws, floor, k, r) && (r > c || r == NewestLE(ws, k, c))
  {
    var m := NewestLE(ws, k, c);
    if Kept(ws, floor, k, r) && r <= c && r != m {
      assert Writes(ws, k, m) && r < m <= Min(c, |ws|);
    }
    if Kept(ws, floor, k, r) && (r > c || r == m) {
      assert forall q: nat :: r < q <= Raised(floor, c, |ws|) ==> !Writes(ws, k, q);
    }
  }

  lemma CompactRows(ws: seq<Write>, floor: nat, c: int, store: Rows)
    requires floor <= |ws| && StoreOk(ws, Raised(floor, c, |ws|), store)
    ensures forall k, r: nat :: Phys(k, r) in store <==> Kept(ws, floor, k, r) && (r > c || r == NewestLE(ws, k, c))
  {
    forall k, r: nat
      ensures Phys(k, r) in store <==> Kept(ws, floor, k, r) && (r > c || r == NewestLE(ws, k, c))
    {
      CompactExact(ws, floor, c, k, r);
      RowIffKept(ws, Raised(floor, c, |ws|), store, k, r);
    }
  }

  /** Two stores that hold the same history and the same rows outside it are the same. */
  lemma {:induction false} RowsUnique(ws: seq<Write>, floor: nat, a: Rows, b: Rows)
    requires StoreOk(ws, floor, a) && StoreOk(ws, floor, b)
    requires forall p :: LastSlash(p) < 0 ==> (p in a <==> p in b) && (p in a ==> a[p] == b[p])
    ensures a == b
  {
    forall p
      ensures p in a <==> p in b
      ensures p in a ==> a[p] == b[p]
    {
      assert p in a ==> RowOk(ws, floor, p, a[p]);
      assert p in b ==> RowOk(ws, floor, p, b[p]);
    }
    assert a.Keys == b.Keys;
  }

  class Mvcc {
    var store: Rows
    var latest: map<string, nat>
    var history: History
    var revisions: seq<RevisionEntry>
    var currentRev: nat
    var compactrev: int
    ghost var writes: seq<Write>
    ghost var floor: nat

    /** What holds at all times, restart included. */
    ghost predicate CoreValid()
      reads this
    {
      && currentRev == |writes|
      && floor <= |writes|
      && HistoryOk(writes, floor, history)
      && StoreOk(writes, floor, store)
      && RevisionsOk(writes, floor, revisions)
    }

    ghost predicate Valid()
      reads this
    {
      CoreValid() && LatestOk(writes, latest)
    }

    constructor ()
      ensures Valid() && writes == [] && floor == 0
      ensures store == map[] && latest == map[] && history == map[] && revisions == [] && compactrev == 0
    {
      store, latest, history, revisions, currentRev, compactrev := map[], map[], map[], [], 0, 0;
      writes, floor := [], 0;
    }

    method Append(key: string, value: string, deleted: bool) returns (rev: nat)
      requires CoreValid()
      modifies this
      ensures CoreValid() && (old(Valid()) ==> Valid())
      ensures rev == |writes| && writes == old(writes) + [Write(key, value, deleted)]
      ensures floor == old(floor) && compactrev == old(compactrev)
      ensures latest == old(latest)[key := rev]
      ensures store == old(store)[Phys(key, rev) := Value(value, rev, deleted)]
      ensures revisions == old(revisions) + [RevisionEntry(key, rev)]
    {
      hide StoreOk, HistoryOk, RevisionsOk, LatestOk;
      ghost var w := Write(key, value, deleted);
      StoreAppend(writes, floor, store, w);
      HistoryAppend(writes, floor, history, w);
      RevisionsAppend(writes, floor, revisions, w);
      if LatestOk(writes, latest) {
        LatestAppend(writes, latest, w);
      }
      currentRev := currentRev + 1;
      rev := currentRev;
      store := store[Phys(key, rev) := Value(value, rev, deleted)];
      latest := latest[key := rev];
      history := history[key := (if key in history then history[key] else []) + [rev]];
      revisions := revisions + [RevisionEntry(key, rev)];
      writes := writes + [w];
    }

    /** A row outside the versioned keys, as the tables of answered requests are. */
    method RawPut(name: string, row: Value)
      requires CoreValid() && LastSlash(name) < 0
      modifies this`store
      ensures CoreValid() && (old(Valid()) ==> Valid())
      ensures store == old(store)[name := row]
    {
      hide HistoryOk, RevisionsOk, LatestOk;
      forall k, r: nat
        ensures Phys(k, r) != name
      {
        PhysSplit(k, r);
      }
      store := store[name := row];
    }

    method Put(key: string, value: string) returns (rev: nat)
      requires CoreValid()
      modifies this
      ensures CoreValid() && (old(Valid()) ==> Valid())
      ensures rev == |writes| && writes == old(writes) + [Write(key, value, false)]
      ensures floor == old(floor) && compactrev == old(compactrev)
      ensures latest == old(latest)[key := rev]
      ensures store == old(store)[Phys(key, rev) := Value(value, rev, false)]
      ensures revisions == old(revisions) + [RevisionEntry(key, rev)]
    {
      rev := Append(key, value, false);
    }

    /** A deletion is one more write. */
    method Delete(key: string) returns (rev: nat)
      requires CoreValid()
      modifies this
      ensures CoreValid() && (old(Valid()) ==> Valid())
      ensures rev == |writes| && writes == old(writes) + [Write(key, "", true)]
      ensures floor == old(floor) && compactrev == old(compactrev)
      ensures latest == old(latest)[key := rev]
      ensures store == old(store)[Phys(key, rev) := Value("", rev, true)]
      ensures revisions == old(revisions) + [RevisionEntry(key, rev)]
    {
      rev := Append(key, "", true);
    }

    /** Writes unless a version is expected that is not the key's newest revision; 0 expects nothing. */
    method PutWithCAS(key: string, value: string, expected: int) returns (ok: bool, rev: nat)
      requires CoreValid()
      modifies this
      ensures CoreValid() && (old(Valid()) ==> Valid())
      ensures ok <==> expected == 0 || (key in old(latest) && old(latest)[key] == expected)
      ensures old(Valid()) ==> (ok <==> expected == 0 || (Newest(old(writes), key) == expected && expected > 0))
      ensures ok ==> rev == |writes| && writes == old(writes) + [Write(key, value, false)]
      ensures ok ==> floor == old(floor) && compactrev == old(compactrev)
      ensures ok ==> latest == old(latest)[key := rev]
      ensures ok ==> store == old(store)[Phys(key, rev) := Value(value, rev, false)]
      ensures ok ==> revisions == old(revisions) + [RevisionEntry(key, rev)]
      ensures !ok ==> rev == 0 && unchanged(this)
    {
      if expected != 0 {
        if key !in latest || latest[key] != expected {
          return false, 0;
        }
      }
      rev := Append(key, value, false);
      ok := true;
    }

    /** Zero stands for no revision. */
    method GetLatest(key: string) returns (rev: nat, ok: bool)
      ensures ok <==> key in latest
      ensures rev == if ok then latest[key] else 0
      ensures Valid() ==> rev == Newest(writes, key) && (ok <==> rev > 0)
    {
      if key in latest {
        return latest[key], true;
      }
      return 0, false;
    }

    method Get(key: string, version: int) returns (r: GetResult)
      requires CoreValid()
      ensures version != 0 || Valid() ==> r == GetAt(writes, floor, key, version)
      ensures version == 0 ==> r == ReadLatest(store, latest, key)
    {
      hide RevisionsOk;
      var rev: nat;
      if version == 0 {
        if LatestOk(writes, latest) {
          ReadLatestIsIdeal(writes, floor, store, latest, key);
        }
        if key !in latest {
          return KeyNotFound;
        }
        rev := latest[key];
      } else {
        if key !in history {
          return KeyNotFound;
        }
        var revs := history[key];
        assert forall x :: x in revs ==> Kept(writes, floor, key, x);
        rev := FindLE(revs, version);
        GetFromHistory(writes, floor, key, version, revs, rev);
        if rev == 0 {
          return VersionNotFound;
        }
        assert Kept(writes, floor, key, rev);
      }
      var realKey := Phys(key, rev);
      if realKey !in store || store[realKey].deleted {
        return KeyNotFound;
      }
      return Found(store[realKey].value, store[realKey].version);
    }

    method Compact(c: int)
      requires CoreValid()
      modifies this
      ensures CoreValid() && (old(Valid()) ==> Valid())
      ensures floor == Raised(old(floor), c, currentRev)
      ensures writes == old(writes) && latest == old(latest) && compactrev == c
      ensures forall p :: p in store ==> p in old(store) && store[p] == old(store)[p]
      ensures forall p :: p in old(store) && LastSlash(p) < 0 ==> p in store
      ensures forall k, r: nat :: Phys(k, r) in store <==>
        Kept(writes, old(floor), k, r) && (r > c || r == NewestLE(writes, k, c))
      ensures forall e :: e in revisions <==> e in old(revisions) && e.rev > c
    {
      hide StoreOk, HistoryOk, RevisionsOk, LatestOk, TrimmedFor, CoversUpTo, IsDead;
      var index, keys := KeysUpTo(c);
      var deleteKeys: seq<string> := [];
      ghost var history0 := history;
      ghost var visited: set<string> := {};
      var remaining := keys;
      NothingTrimmed(history0, c);
      while remaining != {}
        invariant visited + remaining == keys && visited !! remaining
        invariant TrimmedFor(history0, visited, c, history)
        invariant forall p :: p in deleteKeys <==> IsDead(history0, visited, c, p)
        invariant unchanged(this`store, this`latest, this`revisions, this`currentRev, this`compactrev, this`writes,
          this`floor)
      {
        var key :| key in remaining;
        ghost var historyBefore := history;
        StillAscending(writes, floor, history0, visited, c, history, key);
        deleteKeys := CompactKey(key, c, deleteKeys);
        TrimmedGrows(history0, visited, key, c, historyBefore, history);
        DeadAlike(historyBefore, history0, key, c);
        DeadGrows(history0, visited, key, c);
        visited, remaining := visited + {key}, remaining - {key};
      }
      CompactHistory(writes, floor, history0, keys, c, history);
      ghost var dead := set p | p in deleteKeys;
      CompactStore(writes, floor, history0, keys, c, store, dead);
      BatchDelete(deleteKeys);
      revisions := revisions[index..];
      compactrev := c;
      CompactRows(writes, floor, c, store);
      floor := Raised(floor, c, currentRev);
      DeadHasSlash(history0, keys, c);
    }

    /** How much of the revision index is at or before `c`, and the keys it names. */
    method KeysUpTo(c: int) returns (index: nat, keys: set<string>)
      requires CoreValid()
      ensures index <= |revisions| && RevisionsOk(writes, Raised(floor, c, |writes|), revisions[index..])
      ensures CoversUpTo(writes, floor, keys, c)
      ensures forall e :: e in revisions[index..] <==> e in revisions && e.rev > c
    {
      hide StoreOk, HistoryOk, RevisionsOk, CoversUpTo;
      index := 0;
      while index < |revisions| && revisions[index].rev <= c
        invariant index <= |revisions|
        invariant forall i :: 0 <= i < index ==> revisions[i].rev <= c
      {
        index := index + 1;
      }
      keys := {};
      for i := 0 to index
        invariant keys == set j | 0 <= j < i :: revisions[j].key
      {
        keys := keys + {revisions[i].key};
      }
      CompactRevisions(writes, floor, revisions, c, index);
    }

    /** Trims one key's version list down to its newest version up to `c` and the later ones. */
    method CompactKey(key: string, c: int, deleteKeys: seq<string>) returns (deleted: seq<string>)
      requires key in history ==> Ascending(history[key])
      modifies this`history
      ensures history.Keys == old(history).Keys
      ensures forall k :: k in history && k != key ==> history[k] == old(history)[k]
      ensures key in history ==> Trimmed(old(history)[key], c, history[key])
      ensures forall p :: p in deleted <==>
        p in deleteKeys || IsDead(old(history), {key}, c, p)
    {
      deleted := deleteKeys;
      var versions := if key in history then history[key] else [];
      if |versions| == 0 {
        return;
      }
      var keep: int := -1;
      var i := 0;
      while i < |versions|
        invariant i <= |versions|
        invariant i == 0 ==> keep == -1
        invariant i > 0 ==> keep == versions[i - 1] && keep <= c
      {
        if versions[i] > c {
          break;
        }
        keep := versions[i];
        i := i + 1;
      }
      DroppedBefore(versions, c, i);
      if keep == -1 {
        return;
      }
      var newHistory: seq<nat> := [];
      for j := 0 to |versions|
        invariant history == old(history)
        invariant forall x :: x in newHistory <==> x in versions[..j] && x >= keep
        invariant Ascending(newHistory)
        invariant forall p :: p in deleted <==>
          p in deleteKeys || exists r :: r in versions[..j] && r < keep && p == Phys(key, r)
      {
        var v := versions[j];
        assert versions[..j + 1] == versions[..j] + [v];
        if v < keep {
          deleted := deleted + [Phys(key, v)];
        } else {
          AscendingPush(newHistory, v);
          newHistory := newHistory + [v];
        }
      }
      assert versions[..|versions|] == versions;
      assert history.Keys + {key} == history.Keys;
      history := history[key := newHistory];
    }

    /** A store opened on the rows an earlier process left behind; its indexes are still empty. */
    constructor Open(rows: Rows)
      ensures store == rows && latest == map[] && history == map[] && revisions == [] && currentRev == 0
      ensures compactrev == 0
    {
      store, latest, history, revisions, currentRev, compactrev := rows, map[], map[], [], 0, 0;
    }

    /** Rebuilds the indexes from the rows; `ws` and `f` are the log and the floor the rows were written under. */
    method Recover(ghost ws: seq<Write>, ghost f: nat)
      requires f <= |ws| && StoreOk(ws, f, store)
      requires latest == map[] && history == map[] && revisions == [] && currentRev == 0
      modifies this
      ensures CoreValid() && writes == ws && floor == f
      ensures store == old(store) && compactrev == old(compactrev)
      ensures LatestRebuilt(ws, f, latest)
    {
      hide StoreOk, Collected, HighestSeen, HistoryOk, RevisionsOk, Kept, NewestLive, Newest;
      var found := CollectRows(ws, f);
      RestoreVersions(ws, f, found);
      var all := GatherRevisions(ws, f);
      SortedRevisions(ws, f, history, all);
      revisions := SortBy(all, EntryRank);
      HighestIsCurrent(ws, f, store, currentRev);
      writes, floor := ws, f;
    }

    method CollectRows(ghost ws: seq<Write>, ghost f: nat) returns (found: History)
      requires StoreOk(ws, f, store) && currentRev == 0
      modifies this`currentRev
      ensures Collected(found, store.Keys) && HighestSeen(store, store.Keys, currentRev)
    {
      hide StoreOk, Collected, HighestSeen;
      found := map[];
      NothingSeen(store);
      var remaining := store.Keys;
      ghost var seen: set<string> := {};
      while remaining != {}
        invariant seen + remaining == store.Keys && seen !! remaining
        invariant Collected(found, seen) && HighestSeen(store, seen, currentRev)
      {
        var p :| p in remaining;
        SeeOne(store, seen, currentRev, p);
        var lastSlash := LastSlash(p);
        if lastSlash == -1 {
          CollectNone(found, seen, p);
        } else {
          CollectOne(ws, f, store, found, seen, p);
          var originalKey := p[..lastSlash];
          found := found[originalKey := (if originalKey in found then found[originalKey] else []) + [store[p].version]];
          if store[p].version > currentRev {
            currentRev := store[p].version;
          }
        }
        seen, remaining := seen + {p}, remaining - {p};
      }
    }

    method RestoreVersions(ghost ws: seq<Write>, ghost f: nat, found: History)
      requires f <= |ws| && StoreOk(ws, f, store) && Collected(found, store.Keys)
      requires latest == map[] && history == map[]
      modifies this`history, this`latest
      ensures HistoryOk(ws, f, history) && LatestRebuilt(ws, f, latest)
    {
      hide StoreOk, Collected, Kept, NewestLive, Newest;
      CollectedAll(ws, f, store, found);
      var remaining := found.Keys;
      while remaining != {}
        invariant remaining <= found.Keys && history.Keys == found.Keys - remaining
        invariant forall k :: k in history ==> history[k] == SortBy(found[k], VersionRank)
        invariant forall k :: if k in history then LiveLatest(ws, f, latest, k) else k !in latest
      {
        var key :| key in remaining;
        var revs := SortBy(found[key], VersionRank);
        history := history[key := revs];
        SortedVersions(found, store.Keys, key);
        RestoreLatest(ws, f, key, revs);
        remaining := remaining - {key};
      }
      SortedHistory(ws, f, found, store.Keys, history);
      NeverLive(ws, f, found, latest);
    }

    /** Finds the newest version that is not a tombstone. */
    method RestoreLatest(ghost ws: seq<Write>, ghost f: nat, key: string, revs: seq<nat>)
      requires f <= |ws| && StoreOk(ws, f, store) && key !in latest
      requires Ascending(revs) && forall r :: r in revs <==> Kept(ws, f, key, r)
      modifies this`latest
      ensures LiveLatest(ws, f, latest, key)
      ensures forall k :: k != key ==>
        (k in latest <==> k in old(latest)) && (k in latest ==> latest[k] == old(latest)[k])
    {
      var i := |revs| - 1;
      while i >= 0
        invariant -1 <= i < |revs| && latest == old(latest)
        invariant forall j :: i < j < |revs| ==> 1 <= revs[j] <= |ws| && ws[revs[j] - 1].deleted
        decreases i
      {
        var realKey := Phys(key, revs[i]);
        assert Kept(ws, f, key, revs[i]);
        if realKey in store && !store[realKey].deleted {
          NewestLiveIs(ws, f, key, revs, i);
          latest := latest[key := revs[i]];
          return;
        }
        i := i - 1;
      }
      NewestLiveIs(ws, f, key, revs, i);
    }

    method GatherRevisions(ghost ws: seq<Write>, ghost f: nat) returns (all: seq<RevisionEntry>)
      requires HistoryOk(ws, f, history)
      ensures Gathered(history, history.Keys, all)
    {
      hide Gathered, Kept, Newest;
      assert Exclusive(history) by { OneKeyPerRevision(ws, f, history); }
      all := [];
      NothingGathered(history);
      var remaining := history.Keys;
      ghost var done: set<string> := {};
      while remaining != {}
        invariant done + remaining == history.Keys && done !! remaining
        invariant Gathered(history, done, all)
      {
        var key :| key in remaining;
        var added: seq<RevisionEntry> := [];
        for i := 0 to |history[key]|
          invariant |added| == i && forall j :: 0 <= j < i ==> added[j] == RevisionEntry(key, history[key][j])
        {
          added := added + [RevisionEntry(key, history[key][i])];
        }
        GatherOne(history, done, all, key, added);
        all := all + added;
        done, remaining := done + {key}, remaining - {key};
      }
    }

    /** The newest row of every key that has a row starting with the prefix, unless it is a tombstone. */
    method PrefixScan(prefix: string) returns (kvs: seq<KeyValue>)
      requires CoreValid()
      ensures forall k, v, r :: KeyValue(k, v, r) in kvs <==> Scanned(writes, floor, prefix, k) == Found(v, r)
      ensures forall i, j :: 0 <= i < j < |kvs| ==> kvs[i].key != kvs[j].key
    {
      hide StoreOk, HistoryOk, RevisionsOk, Topped, ScanTop;
      var top: Rows := map[];
      NothingTopped(store, prefix);
      var remaining := store.Keys;
      ghost var seen: set<string> := {};
      while remaining != {}
        invariant seen + remaining == store.Keys && seen !! remaining
        invariant Topped(store, prefix, seen, top)
      {
        var p :| p in remaining;
        if prefix <= p && LastSlash(p) != -1 {
          TopOne(writes, floor, store, prefix, seen, top, p);
          var originalKey := p[..LastSlash(p)];
          if originalKey !in top || store[p].version > top[originalKey].version {
            top := top[originalKey := store[p]];
          }
        } else {
          TopNone(store, prefix, seen, top, p);
        }
        seen, remaining := seen + {p}, remaining - {p};
      }
      kvs := Live(top);
      forall k, v, r
        ensures KeyValue(k, v, r) in kvs <==> Scanned(writes, floor, prefix, k) == Found(v, r)
      {
        TopAll(writes, floor, store, prefix, top, k);
      }
    }

    method BatchDelete(deleteKeys: seq<string>)
      modifies this`store
      ensures store == old(store) - set p | p in deleteKeys
    {
      for i := 0 to |deleteKeys|
        invariant store == old(store) - set p | p in deleteKeys[..i]
      {
        assert deleteKeys[..i + 1] == deleteKeys[..i] + [deleteKeys[i]];
        store := store - {deleteKeys[i]};
      }
      assert deleteKeys[..|deleteKeys|] == deleteKeys;
    }
  }

  /** A read at version 0 after a restart. */
  lemma ReadRebuilt(ws: seq<Write>, floor: nat, store: Rows, latest: map<string, nat>, k: string)
    requires StoreOk(ws, floor, store) && LatestRebuilt(ws, floor, latest)
    ensures ReadLatest(store, latest, k) == RebuiltGet(ws, floor, k)
  {
    assert LiveLatest(ws, floor, latest, k);
    var r := NewestLive(ws, floor, k, |ws|);
    assert r > 0 ==> Kept(ws, floor, k, r);
  }

  /** A restart changes neither the revision counter nor the version lists, and a later compaction does the same with
    * it as without. */
  method RestartThenCompact(m: Mvcc, c: int) returns (restarted: Mvcc)
    requires m.Valid()
    modifies m
    ensures restarted.history == m.history && restarted.store == m.store && restarted.currentRev == m.currentRev
    ensures restarted.CoreValid() && m.Valid() && restarted.writes == m.writes && restarted.floor == m.floor
  {
    hide StoreOk, HistoryOk, RevisionsOk, LatestOk, LatestRebuilt;
    restarted := new Mvcc.Open(m.store);
    restarted.Recover(m.writes, m.floor);
    HistoryUnique(m.writes, m.floor, m.history, restarted.history);
    assert restarted.history == m.history && restarted.currentRev == m.currentRev;
    m.Compact(c);
    restarted.Compact(c);
    HistoryUnique(m.writes, m.floor, m.history, restarted.history);
    RowsUnique(m.writes, m.floor, m.store, restarted.store);
  }

  method Live(top: Rows) returns (kvs: seq<KeyValue>)
    ensures forall k, v, r :: KeyValue(k, v, r) in kvs <==>
      k in top && top[k].value == v && top[k].version == r && !top[k].deleted
    ensures forall i, j :: 0 <= i < j < |kvs| ==> kvs[i].key != kvs[j].key
  {
    kvs := [];
    var remaining := top.Keys;
    while remaining != {}
      invariant remaining <= top.Keys
      invariant forall kv :: kv in kvs <==>
        kv.key in top.Keys - remaining && kv == KeyValue(kv.key, top[kv.key].value, top[kv.key].version)
          && !top[kv.key].deleted
      invariant forall i, j :: 0 <= i < j < |kvs| ==> kvs[i].key != kvs[j].key
    {
      var key :| key in remaining;
      assert forall i :: 0 <= i < |kvs| ==> kvs[i] in kvs;
      if !top[key].deleted {
        kvs := kvs + [KeyValue(key, top[key].value, top[key].version)];
      }
      remaining := remaining - {key};
    }
  }

  /** Binary search for the largest element up to `target`, 0 if there is none. */
  method FindLE(revs: seq<nat>, target: int) returns (res: nat)
    requires Ascending(revs)
    ensures res == 0 || (res in revs && res <= target)
    ensures forall x :: x in revs && x <= target ==> x <= res
  {
    res := 0;
    var left, right := 0, |revs| - 1;
    while left <= right
      invariant 0 <= left <= right + 1 <= |revs|
      invariant left == 0 ==> res == 0
      invariant left > 0 ==> res == revs[left - 1] && res <= target
      invariant forall i :: right < i < |revs| ==> revs[i] > target
      decreases right - left
    {
      var mid := left + (right - left) / 2;
      if revs[mid] <= target {
        res := revs[mid];
        left := mid + 1;
      } else {
        right := mid - 1;
      }
    }
  }

  lemma GetFromHistory(ws: seq<Write>, floor: nat, key: string, version: int, revs: seq<nat>, rev: nat)
    requires version != 0
    requires forall x :: x in revs <==> Kept(ws, floor, key, x)
    requires rev == 0 || (rev in revs && rev <= version)
    requires forall x :: x in revs && x <= version ==> x <= rev
    ensures rev > 0 ==> rev == NewestLE(ws, key, version)
    ensures rev == 0 ==> NewestLE(ws, key, version) == 0 || !Kept(ws, floor, key, NewestLE(ws, key, version))
  {
    var m := NewestLE(ws, key, version);
    if rev > 0 {
      assert Kept(ws, floor, key, rev);
      assert Kept(ws, floor, key, m);
    } else if m > 0 {
      assert Kept(ws, floor, key, m) ==> m in revs;
    }
  }

  lemma DroppedBefore(versions: seq<nat>, c: int, n: nat)
    requires Ascending(versions) && n <= |versions|
    requires n > 0 ==> versions[n - 1] <= c
    requires n < |versions| ==> versions[n] > c
    ensures forall r :: Dropped(versions, c, r) <==> n > 0 && r < versions[n - 1]
  {
    forall r
      ensures Dropped(versions, c, r) <==> n > 0 && r < versions[n - 1]
    {
      if n > 0 && r < versions[n - 1] {
        assert versions[n - 1] in versions;
      }
    }
  }

  lemma NothingTrimmed(history: History, c: int)
    ensures TrimmedFor(history, {}, c, history)
    ensures forall p :: !IsDead(history, {}, c, p)
  {
  }

  lemma StillAscending(ws: seq<Write>, floor: nat, history0: History, visited: set<string>, c: int, history: History,
      key: string)
    requires HistoryOk(ws, floor, history0) && TrimmedFor(history0, visited, c, history) && key !in visited
    ensures history.Keys == history0.Keys
    ensures key in history ==> Ascending(history[key]) && history[key] == history0[key]
  {
  }

  lemma TrimmedGrows(history0: History, visited: set<string>, key: string, c: int, before: History, after: History)
    requires TrimmedFor(history0, visited, c, before) && key !in visited && after.Keys == before.Keys
    requires forall k :: k in after && k != key ==> after[k] == before[k]
    requires key in before ==> Trimmed(before[key], c, after[key])
    ensures TrimmedFor(history0, visited + {key}, c, after)
  {
  }

  lemma DeadAlike(a: History, b: History, key: string, c: int)
    requires key in a <==> key in b
    requires key in a ==> a[key] == b[key]
    ensures forall p :: IsDead(a, {key}, c, p) <==> IsDead(b, {key}, c, p)
  {
  }

  lemma DeadGrows(history: History, visited: set<string>, key: string, c: int)
    ensures forall p :: IsDead(history, visited + {key}, c, p) <==>
      IsDead(history, visited, c, p) || IsDead(history, {key}, c, p)
  {
  }

  lemma DeadHasSlash(history: History, keys: set<string>, c: int)
    ensures forall p :: IsDead(history, keys, c, p) ==> LastSlash(p) >= 0
  {
    forall p | IsDead(history, keys, c, p)
      ensures LastSlash(p) >= 0
    {
      var k, r :| k in keys && k in history && r in history[k] && Dropped(history[k], c, r) && p == Phys(k, r);
      PhysSplit(k, r);
    }
  }
}
