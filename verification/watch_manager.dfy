/** The watcher manager: four indexes, each watcher in exactly one, and a notification to each that matches. */
module WatchManager {
  import opened WatchTree

  const CAPACITY := 100

  datatype Index = SYNCED | UNSYNCED | SYNCED_PREFIX | UNSYNCED_PREFIX

  datatype Place = Place(index: Index, key: string)

  type Exact = map<string, map<int, Watcher>>

  function Bucket(m: Exact, key: string): map<int, Watcher> {
    if key in m then m[key] else map[]
  }

  // ---- who is registered where ----

  ghost predicate Filed(where: map<int, Place>, watchers: map<int, Watcher>) {
    && where.Keys == watchers.Keys
    && forall id :: id in watchers ==> watchers[id].id == id && watchers[id].key == where[id].key
  }

  /** What an index should hold at a key. */
  ghost function Holding(where: map<int, Place>, watchers: map<int, Watcher>, place: Place): map<int, Watcher> {
    map id | id in where && id in watchers && where[id] == place :: watchers[id]
  }

  ghost predicate ExactOk(m: Exact, index: Index, where: map<int, Place>, watchers: map<int, Watcher>) {
    forall k :: Bucket(m, k) == Holding(where, watchers, Place(index, k))
  }

  ghost predicate PrefixOk(t: Trie, index: Index, where: map<int, Place>, watchers: map<int, Watcher>)
    reads t, t.nodes.Values
  {
    forall k :: t.At(k) == Holding(where, watchers, Place(index, k))
  }

  lemma HoldingAdd(where: map<int, Place>, watchers: map<int, Watcher>, w: Watcher, place: Place)
    requires Filed(where, watchers) && w.id !in where && w.key == place.key
    ensures Filed(where[w.id := place], watchers[w.id := w])
    ensures forall p :: (Holding(where[w.id := place], watchers[w.id := w], p) ==
      if p == place then Holding(where, watchers, p)[w.id := w] else Holding(where, watchers, p))
  {
  }

  /** Moving is adding at one place and removing from the other. */
  lemma HoldingMove(where: map<int, Place>, watchers: map<int, Watcher>, id: int, place: Place)
    requires Filed(where, watchers) && id in where && where[id].key == place.key && where[id] != place
    ensures Filed(where[id := place], watchers)
    ensures forall p :: (Holding(where[id := place], watchers, p) ==
      if p == place then Holding(where, watchers, p)[id := watchers[id]]
      else if p == where[id] then Holding(where, watchers, p) - {id}
      else Holding(where, watchers, p))
  {
  }

  lemma HoldingRemove(where: map<int, Place>, watchers: map<int, Watcher>, id: int)
    requires Filed(where, watchers) && id in where
    ensures Filed(where - {id}, watchers - {id})
    ensures forall p :: (Holding(where - {id}, watchers - {id}, p) ==
      if p == where[id] then Holding(where, watchers, p) - {id} else Holding(where, watchers, p))
  {
  }

  /** Removing by key and number, wherever the watcher is, or nowhere if it is not registered under the key. */
  ghost predicate Goes(where: map<int, Place>, key: string, id: int) {
    id in where && where[id].key == key
  }

  lemma HoldingRemoveAny(where: map<int, Place>, watchers: map<int, Watcher>, key: string, id: int, index: Index)
    requires Filed(where, watchers)
    requires Goes(where, key, id) ==> where[id].index == SYNCED_PREFIX || where[id].index == UNSYNCED_PREFIX
    ensures forall k :: (Holding(Without(where, key, id, where), Without(where, key, id, watchers), Place(index, k)) ==
      if k == key then Holding(where, watchers, Place(index, k)) - {id} else Holding(where, watchers, Place(index, k)))
    ensures Filed(Without(where, key, id, where), Without(where, key, id, watchers))
  {
  }

  ghost function Without<V>(where: map<int, Place>, key: string, id: int, m: map<int, V>): map<int, V> {
    if Goes(where, key, id) then m - {id} else m
  }

  // ---- one index at a time ----

  lemma ExactAdd(m: Exact, index: Index, where: map<int, Place>, watchers: map<int, Watcher>, w: Watcher, place: Place)
    requires ExactOk(m, index, where, watchers) && Filed(where, watchers) && w.id !in where && w.key == place.key
    ensures ExactOk(if index == place.index then m[w.key := Bucket(m, w.key)[w.id := w]]
      else m, index, where[w.id := place], watchers[w.id := w])
  {
    HoldingAdd(where, watchers, w, place);
    hide Holding, Filed;
  }

  lemma ExactMove(m: Exact, index: Index, where: map<int, Place>, watchers: map<int, Watcher>, id: int, place: Place)
    requires ExactOk(m, index, where, watchers) && Filed(where, watchers)
    requires id in where && where[id].key == place.key && where[id] != place
    ensures index == place.index ==>
      ExactOk(m[place.key := Bucket(m, place.key)[id := watchers[id]]], index, where[id := place], watchers)
    ensures index == where[id].index ==>
      ExactOk(m[place.key := Bucket(m, place.key) - {id}], index, where[id := place], watchers)
  {
    HoldingMove(where, watchers, id, place);
    hide Holding, Filed;
  }

  lemma ExactRemove(m: Exact, index: Index, where: map<int, Place>, watchers: map<int, Watcher>, id: int)
    requires ExactOk(m, index, where, watchers) && Filed(where, watchers) && id in where
    ensures ExactOk(if index == where[id].index then m[where[id].key := Bucket(m, where[id].key) - {id}] else m,
      index, where - {id}, watchers - {id})
  {
    HoldingRemove(where, watchers, id);
    hide Holding, Filed;
  }

  lemma ExactRemoveAny(m: Exact, index: Index, where: map<int, Place>, watchers: map<int, Watcher>, key: string,
      id: int)
    requires ExactOk(m, index, where, watchers) && Filed(where, watchers) && id !in Bucket(m, key)
    requires Goes(where, key, id) ==> where[id].index == SYNCED_PREFIX || where[id].index == UNSYNCED_PREFIX
    ensures ExactOk(m, index, Without(where, key, id, where), Without(where, key, id, watchers))
  {
    HoldingRemoveAny(where, watchers, key, id, index);
    hide Holding, Filed, Without;
    assert Bucket(m, key) - {id} == Bucket(m, key);
  }

  lemma PrefixKept(t: Trie, index: Index, where: map<int, Place>, watchers: map<int, Watcher>, w: Watcher, place: Place)
    requires PrefixOk(t, index, where, watchers) && Filed(where, watchers) && w.id !in where && w.key == place.key
    requires place.index != index
    ensures PrefixOk(t, index, where[w.id := place], watchers[w.id := w])
  {
    HoldingAdd(where, watchers, w, place);
    hide Holding, Filed;
  }

  lemma PrefixMoved(t: Trie, index: Index, where: map<int, Place>, watchers: map<int, Watcher>, id: int, place: Place)
    requires PrefixOk(t, index, where, watchers) && Filed(where, watchers)
    requires id in where && where[id].key == place.key && where[id] != place && place.index != index
    requires where[id].index != index
    ensures PrefixOk(t, index, where[id := place], watchers)
  {
    HoldingMove(where, watchers, id, place);
    hide Holding, Filed;
  }

  lemma PrefixRemoved(t: Trie, index: Index, where: map<int, Place>, watchers: map<int, Watcher>, id: int)
    requires PrefixOk(t, index, where, watchers) && Filed(where, watchers) && id in where && where[id].index != index
    ensures PrefixOk(t, index, where - {id}, watchers - {id})
  {
    HoldingRemove(where, watchers, id);
    hide Holding, Filed;
  }

  method InsertAt(t: Trie, key: string, w: Watcher, ghost index: Index, ghost where: map<int, Place>,
      ghost watchers: map<int, Watcher>)
    requires t.Valid() && PrefixOk(t, index, where, watchers) && Filed(where, watchers) && w.id !in where
    requires w.key == key
    modifies t, t.nodes.Values
    ensures t.Valid() && PrefixOk(t, index, where[w.id := Place(index, key)], watchers[w.id := w])
    ensures fresh(t.nodes.Values - old(t.nodes.Values)) && old(t.nodes.Values) <= t.nodes.Values
  {
    HoldingAdd(where, watchers, w, Place(index, key));
    hide Trie.Valid, Trie.At, Holding, Filed;
    t.Insert(key, w);
  }

  method RemoveAt(t: Trie, key: string, id: int, ghost index: Index, ghost where: map<int, Place>,
      ghost watchers: map<int, Watcher>)
    requires t.Valid() && PrefixOk(t, index, where, watchers) && Filed(where, watchers)
    requires Goes(where, key, id) ==> where[id].index == SYNCED_PREFIX || where[id].index == UNSYNCED_PREFIX
    modifies t.nodes.Values
    ensures t.Valid() && t.nodes == old(t.nodes)
    ensures PrefixOk(t, index, Without(where, key, id, where), Without(where, key, id, watchers))
  {
    HoldingRemoveAny(where, watchers, key, id, index);
    hide Trie.Valid, Trie.At, Holding, Filed, Without;
    t.Remove(key, id);
  }

  method RemoveAtBoth(a: Trie, b: Trie, key: string, id: int, ghost where: map<int, Place>, ghost watchers: map<int,
      Watcher>)
    requires a != b && a.nodes.Values !! b.nodes.Values && a.Valid() && b.Valid() && Filed(where, watchers)
    requires PrefixOk(a, SYNCED_PREFIX, where, watchers) && PrefixOk(b, UNSYNCED_PREFIX, where, watchers)
    requires Goes(where, key, id) ==> where[id].index == SYNCED_PREFIX || where[id].index == UNSYNCED_PREFIX
    modifies a.nodes.Values, b.nodes.Values
    ensures a.Valid() && b.Valid() && a.nodes == old(a.nodes) && b.nodes == old(b.nodes)
    ensures PrefixOk(a, SYNCED_PREFIX, Without(where, key, id, where), Without(where, key, id, watchers))
    ensures PrefixOk(b, UNSYNCED_PREFIX, Without(where, key, id, where), Without(where, key, id, watchers))
  {
    hide Trie.Valid, Filed, PrefixOk, Without;
    RemoveAt(a, key, id, SYNCED_PREFIX, where, watchers);
    RemoveAt(b, key, id, UNSYNCED_PREFIX, where, watchers);
  }

  lemma FiledAdd(where: map<int, Place>, watchers: map<int, Watcher>, w: Watcher, place: Place)
    requires Filed(where, watchers) && w.key == place.key
    ensures Filed(where[w.id := place], watchers[w.id := w])
  {
  }

  lemma FiledWithout(where: map<int, Place>, watchers: map<int, Watcher>, key: string, id: int)
    requires Filed(where, watchers)
    ensures Filed(Without(where, key, id, where), Without(where, key, id, watchers))
    ensures Filed(where - {id}, watchers - {id})
  {
  }

  /** Watched exactly and up to date, or watched by prefix. */
  ghost predicate Matches(where: map<int, Place>, id: int, key: string) {
    id in where &&
    match where[id].index
    case SYNCED => where[id].key == key
    case UNSYNCED => false
    case SYNCED_PREFIX => where[id].key <= key
    case UNSYNCED_PREFIX => where[id].key <= key
  }

  /** Removal closes the channel of an exact watcher only. */
  ghost predicate ClosedBy(where: map<int, Place>, key: string, id: int) {
    Goes(where, key, id) && (where[id].index == SYNCED || where[id].index == UNSYNCED)
  }

  ghost predicate Same(w: Watcher, ch: seq<WatchEvent>, next: int, closed: bool)
    reads w
  {
    w.ch == ch && w.nextRevision == next && w.closed == closed
  }

  /** Room for the event: it is sent. No room: removed, and closed if exact. No target: nothing. */
  ghost predicate Told(w: Watcher, ch: seq<WatchEvent>, next: int, closed: bool, event: WatchEvent, target: bool,
      exact: bool)
    reads w
  {
    if !target then Same(w, ch, next, closed)
    else if |ch| < CAPACITY then Same(w, ch + [event], event.revision + 1, closed)
    else Same(w, ch, next, closed || exact)
  }

  lemma MinusMinus<V>(m: map<int, V>, gone: set<int>, id: int)
    ensures m - gone - {id} == m - (gone + {id})
  {
  }

  function PlaceFor(prefix: bool, sync: bool): Index {
    if prefix then (if sync then SYNCED_PREFIX else UNSYNCED_PREFIX) else if sync then SYNCED else UNSYNCED
  }

  class WatcherManager {
    var nextWatcherId: int
    var synced: Exact
    var unsynced: Exact
    const syncedRoot: Trie
    const unsyncedRoot: Trie
    ghost var where: map<int, Place>
    ghost var watchers: map<int, Watcher>

    ghost function Nodes(): set<TreeNode>
      reads syncedRoot, unsyncedRoot
    {
      syncedRoot.nodes.Values + unsyncedRoot.nodes.Values
    }

    ghost predicate Tries()
      reads syncedRoot, unsyncedRoot, Nodes()
    {
      && syncedRoot != unsyncedRoot && syncedRoot.nodes.Values !! unsyncedRoot.nodes.Values
      && syncedRoot.Valid() && unsyncedRoot.Valid()
    }

    /** The four indexes hold every registered watcher once, at its place. */
    ghost predicate Valid()
      reads this, syncedRoot, unsyncedRoot, Nodes()
    {
      && Tries() && Filed(where, watchers)
      && ExactOk(synced, SYNCED, where, watchers)
      && ExactOk(unsynced, UNSYNCED, where, watchers)
      && PrefixOk(syncedRoot, SYNCED_PREFIX, where, watchers)
      && PrefixOk(unsyncedRoot, UNSYNCED_PREFIX, where, watchers)
      && nextWatcherId >= 1 && forall id :: id in where ==> 1 <= id < nextWatcherId
    }

    constructor ()
      ensures Valid() && where == map[] && watchers == map[] && nextWatcherId == 1
      ensures fresh(syncedRoot) && fresh(unsyncedRoot) && fresh(Nodes())
    {
      nextWatcherId, synced, unsynced, where, watchers := 1, map[], map[], map[], map[];
      var a := new Trie();
      var b := new Trie();
      syncedRoot, unsyncedRoot := a, b;
      new;
    }

    /** Entering one index leaves the other three right. */
    lemma Enters(w: Watcher, place: Place)
      requires Filed(where, watchers) && w.id !in where && w.key == place.key
      requires ExactOk(synced, SYNCED, where, watchers) && ExactOk(unsynced, UNSYNCED, where, watchers)
      requires PrefixOk(syncedRoot, SYNCED_PREFIX, where, watchers)
      requires PrefixOk(unsyncedRoot, UNSYNCED_PREFIX, where, watchers)
      ensures Filed(where[w.id := place], watchers[w.id := w])
      ensures ExactOk(if place.index == SYNCED then synced[w.key := Bucket(synced, w.key)[w.id := w]] else synced,
        SYNCED, where[w.id := place], watchers[w.id := w])
      ensures ExactOk(if place.index == UNSYNCED then unsynced[w.key := Bucket(unsynced, w.key)[w.id := w]]
        else unsynced,
        UNSYNCED, where[w.id := place], watchers[w.id := w])
      ensures place.index != SYNCED_PREFIX ==>
        PrefixOk(syncedRoot, SYNCED_PREFIX, where[w.id := place], watchers[w.id := w])
      ensures place.index != UNSYNCED_PREFIX ==>
        PrefixOk(unsyncedRoot, UNSYNCED_PREFIX, where[w.id := place], watchers[w.id := w])
    {
      hide Filed, Holding, ExactOk, PrefixOk;
      FiledAdd(where, watchers, w, place);
      ExactAdd(synced, SYNCED, where, watchers, w, place);
      ExactAdd(unsynced, UNSYNCED, where, watchers, w, place);
      if place.index != SYNCED_PREFIX {
        PrefixKept(syncedRoot, SYNCED_PREFIX, where, watchers, w, place);
      }
      if place.index != UNSYNCED_PREFIX {
        PrefixKept(unsyncedRoot, UNSYNCED_PREFIX, where, watchers, w, place);
      }
    }

    method AddWatcher(key: string, startrev: int, currev: int) returns (w: Watcher)
      requires Valid()
      modifies this
      ensures Valid() && nextWatcherId == old(nextWatcherId) + 1
      ensures fresh(w) && w.key == key && w.id == old(nextWatcherId) && w.id !in old(where)
      ensures watchers == old(watchers)[w.id := w]
      ensures where == old(where)[w.id := Place(if startrev == 0 || startrev >= currev then SYNCED else UNSYNCED, key)]
      ensures w.nextRevision == if startrev == 0 || startrev >= currev then currev + 1 else currev
    {
      hide Trie.Valid, Filed, Holding, ExactOk, PrefixOk;
      var sync := false;
      if startrev >= currev || startrev == 0 {
        sync := true;
      }
      var next := currev + 1;
      if !sync {
        next := currev;
      }
      w := new Watcher(key, nextWatcherId, startrev, next);
      nextWatcherId := nextWatcherId + 1;
      if sync {
        AddSynced(key, w);
      } else {
        AddUnsynced(key, w);
      }
    }

    method AddSynced(key: string, w: Watcher)
      requires Valid() && w.id !in where && 1 <= w.id < nextWatcherId && w.key == key
      modifies this`synced, this`where, this`watchers
      ensures Valid()
      ensures where == old(where)[w.id := Place(SYNCED, key)] && watchers == old(watchers)[w.id := w]
    {
      hide Trie.Valid, Filed, Holding, ExactOk, PrefixOk;
      Enters(w, Place(SYNCED, key));
      synced := synced[key := Bucket(synced, key)[w.id := w]];
      where, watchers := where[w.id := Place(SYNCED, key)], watchers[w.id := w];
    }

    method AddUnsynced(key: string, w: Watcher)
      requires Valid() && w.id !in where && 1 <= w.id < nextWatcherId && w.key == key
      modifies this`unsynced, this`where, this`watchers
      ensures Valid()
      ensures where == old(where)[w.id := Place(UNSYNCED, key)] && watchers == old(watchers)[w.id := w]
    {
      hide Trie.Valid, Filed, Holding, ExactOk, PrefixOk;
      Enters(w, Place(UNSYNCED, key));
      unsynced := unsynced[key := Bucket(unsynced, key)[w.id := w]];
      where, watchers := where[w.id := Place(UNSYNCED, key)], watchers[w.id := w];
    }

    method InsertSynced(key: string, w: Watcher)
      requires Valid() && w.id !in where && 1 <= w.id < nextWatcherId && w.key == key
      modifies this`where, this`watchers, syncedRoot, syncedRoot.nodes.Values
      ensures Valid() && fresh(Nodes() - old(Nodes()))
      ensures where == old(where)[w.id := Place(SYNCED_PREFIX, key)] && watchers == old(watchers)[w.id := w]
    {
      hide Trie.Valid, Filed, Holding, ExactOk, PrefixOk;
      Enters(w, Place(SYNCED_PREFIX, key));
      InsertAt(syncedRoot, key, w, SYNCED_PREFIX, where, watchers);
      where, watchers := where[w.id := Place(SYNCED_PREFIX, key)], watchers[w.id := w];
    }

    method InsertUnsynced(key: string, w: Watcher)
      requires Valid() && w.id !in where && 1 <= w.id < nextWatcherId && w.key == key
      modifies this`where, this`watchers, unsyncedRoot, unsyncedRoot.nodes.Values
      ensures Valid() && fresh(Nodes() - old(Nodes()))
      ensures where == old(where)[w.id := Place(UNSYNCED_PREFIX, key)] && watchers == old(watchers)[w.id := w]
    {
      hide Trie.Valid, Filed, Holding, ExactOk, PrefixOk;
      Enters(w, Place(UNSYNCED_PREFIX, key));
      InsertAt(unsyncedRoot, key, w, UNSYNCED_PREFIX, where, watchers);
      where, watchers := where[w.id := Place(UNSYNCED_PREFIX, key)], watchers[w.id := w];
    }

    /** Files a new watcher under the next number. */
    method Register(key: string, prefix: bool, startrev: int, currev: int) returns (w: Watcher)
      requires Valid()
      modifies this, syncedRoot, unsyncedRoot, Nodes()
      ensures Valid() && nextWatcherId == old(nextWatcherId) + 1
      ensures fresh(w) && w.key == key && w.id == old(nextWatcherId) && w.id !in old(where)
      ensures fresh(Nodes() - old(Nodes()))
      ensures watchers == old(watchers)[w.id := w]
      ensures where == old(where)[w.id := Place(PlaceFor(prefix, startrev == 0 || startrev >= currev), key)]
      ensures w.nextRevision == if startrev == 0 || startrev >= currev then currev + 1 else currev
    {
      hide Trie.Valid, Filed, Holding, ExactOk, PrefixOk;
      if prefix {
        var isSync := startrev >= currev || startrev == 0;
        var next := currev + 1;
        if !isSync {
          next := currev;
        }
        w := new Watcher(key, nextWatcherId, startrev, next);
        nextWatcherId := nextWatcherId + 1;
        if isSync {
          InsertSynced(key, w);
        } else {
          InsertUnsynced(key, w);
        }
        return w;
      }
      w := AddWatcher(key, startrev, currev);
    }

    /** The watcher with this number goes, if the key is the one it is filed under; an exact one's channel is closed. */
    method RemoveWatch(key: string, id: int)
      requires Valid()
      modifies this, Nodes(), if id in watchers then {watchers[id]} else {}
      ensures Valid() && nextWatcherId == old(nextWatcherId)
      ensures syncedRoot.nodes == old(syncedRoot.nodes) && unsyncedRoot.nodes == old(unsyncedRoot.nodes)
      ensures where == Without(old(where), key, id, old(where))
      ensures watchers == Without(old(where), key, id, old(watchers))
      ensures id in old(watchers) ==>
        Same(old(watchers)[id], old(watchers[id].ch), old(watchers[id].nextRevision),
          old(watchers[id].closed || ClosedBy(where, key, id)))
    {
      hide Valid, Holding;
      if key in synced && id in synced[key] {
        RemoveSynced(key, id);
        return;
      }
      if key in unsynced && id in unsynced[key] {
        RemoveUnsynced(key, id);
        return;
      }
      NotExact(key, id);
      RemoveFromTries(key, id);
    }

    method RemoveSynced(key: string, id: int)
      requires Valid() && key in synced && id in synced[key]
      modifies this, if id in watchers then {watchers[id]} else {}
      ensures Valid() && nextWatcherId == old(nextWatcherId)
      ensures where == Without(old(where), key, id, old(where))
      ensures watchers == Without(old(where), key, id, old(watchers))
      ensures id in old(watchers) ==>
        Same(old(watchers)[id], old(watchers[id].ch), old(watchers[id].nextRevision), true)
      ensures ClosedBy(old(where), key, id)
    {
      hide Trie.Valid, Filed, Holding, ExactOk, PrefixOk;
      FiledWithout(where, watchers, key, id);
      AtExact(synced, SYNCED, key, id);
      ExactGone(id);
      var w := synced[key][id];
      w.closed := true;
      synced := synced[key := synced[key] - {id}];
      where, watchers := where - {id}, watchers - {id};
    }

    method RemoveUnsynced(key: string, id: int)
      requires Valid() && key in unsynced && id in unsynced[key]
      modifies this, if id in watchers then {watchers[id]} else {}
      ensures Valid() && nextWatcherId == old(nextWatcherId)
      ensures where == Without(old(where), key, id, old(where))
      ensures watchers == Without(old(where), key, id, old(watchers))
      ensures id in old(watchers) ==>
        Same(old(watchers)[id], old(watchers[id].ch), old(watchers[id].nextRevision), true)
      ensures ClosedBy(old(where), key, id)
    {
      hide Trie.Valid, Filed, Holding, ExactOk, PrefixOk;
      FiledWithout(where, watchers, key, id);
      AtExact(unsynced, UNSYNCED, key, id);
      ExactGone(id);
      var w := unsynced[key][id];
      w.closed := true;
      unsynced := unsynced[key := unsynced[key] - {id}];
      where, watchers := where - {id}, watchers - {id};
    }

    method RemoveFromTries(key: string, id: int)
      requires Valid() && id !in Bucket(synced, key) && id !in Bucket(unsynced, key)
      requires Goes(where, key, id) ==> where[id].index == SYNCED_PREFIX || where[id].index == UNSYNCED_PREFIX
      modifies this`where, this`watchers, Nodes()
      ensures Valid() && syncedRoot.nodes == old(syncedRoot.nodes) && unsyncedRoot.nodes == old(unsyncedRoot.nodes)
      ensures where == Without(old(where), key, id, old(where))
      ensures watchers == Without(old(where), key, id, old(watchers))
    {
      hide Trie.Valid, Filed, Holding, ExactOk, PrefixOk;
      FiledWithout(where, watchers, key, id);
      ExactRemoveAny(synced, SYNCED, where, watchers, key, id);
      ExactRemoveAny(unsynced, UNSYNCED, where, watchers, key, id);
      RemoveAtBoth(syncedRoot, unsyncedRoot, key, id, where, watchers);
      where, watchers := Without(where, key, id, where), Without(where, key, id, watchers);
    }

    lemma ExactGone(id: int)
      requires Valid() && id in where && (where[id].index == SYNCED || where[id].index == UNSYNCED)
      ensures var key := where[id].key;
        && ExactOk(if where[id].index == SYNCED then synced[key := Bucket(synced, key) - {id}]
          else synced, SYNCED, where - {id}, watchers - {id})
        && ExactOk(if where[id].index == UNSYNCED then unsynced[key := Bucket(unsynced, key) - {id}]
          else unsynced, UNSYNCED, where - {id}, watchers - {id})
      ensures PrefixOk(syncedRoot, SYNCED_PREFIX, where - {id}, watchers - {id})
      ensures PrefixOk(unsyncedRoot, UNSYNCED_PREFIX, where - {id}, watchers - {id})
    {
      hide Trie.Valid, Filed, Holding, ExactOk, PrefixOk;
      ExactRemove(synced, SYNCED, where, watchers, id);
      ExactRemove(unsynced, UNSYNCED, where, watchers, id);
      PrefixRemoved(syncedRoot, SYNCED_PREFIX, where, watchers, id);
      PrefixRemoved(unsyncedRoot, UNSYNCED_PREFIX, where, watchers, id);
    }

    lemma AtExact(m: Exact, index: Index, key: string, id: int)
      requires ExactOk(m, index, where, watchers) && id in Bucket(m, key)
      ensures id in where && id in watchers && where[id] == Place(index, key) && watchers[id] == Bucket(m, key)[id]
    {
      assert id in Holding(where, watchers, Place(index, key));
    }

    lemma NotExact(key: string, id: int)
      requires Valid()
      requires id !in Bucket(synced, key) && id !in Bucket(unsynced, key)
      ensures Goes(where, key, id) ==> where[id].index == SYNCED_PREFIX || where[id].index == UNSYNCED_PREFIX
    {
      if Goes(where, key, id) {
        assert where[id].index == SYNCED ==> id in Holding(where, watchers, Place(SYNCED, key));
        assert where[id].index == UNSYNCED ==> id in Holding(where, watchers, Place(UNSYNCED, key));
      }
    }

    method MoveToSynced(key: string, id: int)
      requires Valid()
      modifies this`synced, this`unsynced, this`where
      ensures Valid() && nextWatcherId == old(nextWatcherId) && watchers == old(watchers)
      ensures where == if id in old(where) && old(where)[id] == Place(UNSYNCED, key)
        then old(where)[id := Place(SYNCED, key)] else old(where)
    {
      hide Trie.Valid, Filed, Holding, ExactOk, PrefixOk;
      if key in unsynced && id in unsynced[key] {
        AtExact(unsynced, UNSYNCED, key, id);
        Moves(key, id);
        var w := unsynced[key][id];
        unsynced := unsynced[key := unsynced[key] - {id}];
        synced := synced[key := Bucket(synced, key)[id := w]];
        where := where[id := Place(SYNCED, key)];
      } else {
        NotUnsynced(key, id);
      }
    }

    lemma Moves(key: string, id: int)
      requires Filed(where, watchers) && id in where && where[id] == Place(UNSYNCED, key)
      requires ExactOk(synced, SYNCED, where, watchers) && ExactOk(unsynced, UNSYNCED, where, watchers)
      requires PrefixOk(syncedRoot, SYNCED_PREFIX, where, watchers)
      requires PrefixOk(unsyncedRoot, UNSYNCED_PREFIX, where, watchers)
      ensures var where' := where[id := Place(SYNCED, key)];
        && Filed(where', watchers) && id in watchers
        && ExactOk(synced[key := Bucket(synced, key)[id := watchers[id]]], SYNCED, where', watchers)
        && ExactOk(unsynced[key := Bucket(unsynced, key) - {id}], UNSYNCED, where', watchers)
        && PrefixOk(syncedRoot, SYNCED_PREFIX, where', watchers)
        && PrefixOk(unsyncedRoot, UNSYNCED_PREFIX, where', watchers)
    {
      HoldingMove(where, watchers, id, Place(SYNCED, key));
      assert id in watchers;
      hide Filed, Holding, ExactOk, PrefixOk;
      ExactMove(synced, SYNCED, where, watchers, id, Place(SYNCED, key));
      ExactMove(unsynced, UNSYNCED, where, watchers, id, Place(SYNCED, key));
      PrefixMoved(syncedRoot, SYNCED_PREFIX, where, watchers, id, Place(SYNCED, key));
      PrefixMoved(unsyncedRoot, UNSYNCED_PREFIX, where, watchers, id, Place(SYNCED, key));
    }

    lemma NotUnsynced(key: string, id: int)
      requires Valid() && id !in Bucket(unsynced, key)
      ensures id in where ==> where[id] != Place(UNSYNCED, key)
    {
      hide Trie.Valid, PrefixOk;
      assert id !in Holding(where, watchers, Place(UNSYNCED, key));
    }


    // ---- notification ----

    ghost predicate Target(w: Watcher, key: string)
      reads this
    {
      w.id in watchers && watchers[w.id] == w && Matches(where, w.id, key)
    }

    /** The watchers that a change of the key concerns, each once. */
    method Targets(key: string) returns (list: seq<Watcher>)
      requires Valid()
      ensures NoRepeats(list)
      ensures forall w :: w in list <==> Target(w, key)
    {
      hide Trie.Shape, Trie.Filed;
      var bucket := Bucket(synced, key);
      BucketIs(key, bucket);
      list := AppendAll([], bucket);
      var a := syncedRoot.Match(key);
      HasIs(syncedRoot, SYNCED_PREFIX);
      var b := unsyncedRoot.Match(key);
      HasIs(unsyncedRoot, UNSYNCED_PREFIX);
      hide Trie.Valid, ExactOk, PrefixOk, Filed, Trie.Has;
      ThreeParts(key, list, a, b);
      list := list + a + b;
    }

    lemma BucketIs(key: string, bucket: map<int, Watcher>)
      requires Filed(where, watchers) && ExactOk(synced, SYNCED, where, watchers) && bucket == Bucket(synced, key)
      ensures forall id :: id in bucket ==> bucket[id].id == id
      ensures forall w: Watcher :: w.id in bucket && bucket[w.id] == w <==> Sits(w, SYNCED) && w.key == key
    {
      assert bucket == Holding(where, watchers, Place(SYNCED, key));
    }

    ghost predicate Sits(w: Watcher, index: Index)
      reads this
    {
      w.id in where && w.id in watchers && watchers[w.id] == w && where[w.id] == Place(index, w.key)
    }

    lemma HasIs(t: Trie, index: Index)
      requires Filed(where, watchers) && PrefixOk(t, index, where, watchers)
      ensures forall w :: t.Has(w) <==> Sits(w, index)
    {
      forall w
        ensures t.Has(w) <==> Sits(w, index)
      {
        assert t.At(w.key) == Holding(where, watchers, Place(index, w.key));
      }
    }

    lemma ThreeParts(key: string, e: seq<Watcher>, a: seq<Watcher>, b: seq<Watcher>)
      requires Filed(where, watchers) && NoRepeats(e) && NoRepeats(a) && NoRepeats(b)
      requires forall w :: w in e <==> Sits(w, SYNCED) && w.key == key
      requires forall w :: w in a <==> Sits(w, SYNCED_PREFIX) && w.key <= key
      requires forall w :: w in b <==> Sits(w, UNSYNCED_PREFIX) && w.key <= key
      ensures NoRepeats(e + a + b) && forall w :: w in e + a + b <==> Target(w, key)
    {
      Disjoint(e, a);
      Disjoint(e + a, b);
      forall w
        ensures w in e + a + b <==> Target(w, key)
      {
        assert Target(w, key) ==> where[w.id].key == w.key;
      }
    }

    lemma Disjoint(a: seq<Watcher>, b: seq<Watcher>)
      requires NoRepeats(a) && NoRepeats(b) && forall w :: w in a ==> w !in b
      ensures NoRepeats(a + b)
    {
      assert forall i :: 0 <= i < |a| ==> a[i] in a;
      assert forall i :: 0 <= i < |b| ==> b[i] in b;
    }

    /** Sends without blocking; a watcher that is too slow is removed. */
    method Send(w: Watcher, event: WatchEvent)
      requires Valid() && w.id in watchers && watchers[w.id] == w
      modifies this, Nodes(), w
      ensures Valid() && nextWatcherId == old(nextWatcherId)
      ensures syncedRoot.nodes == old(syncedRoot.nodes) && unsyncedRoot.nodes == old(unsyncedRoot.nodes)
      ensures Told(w, old(w.ch), old(w.nextRevision), old(w.closed), event, true, old(ClosedBy(where, w.key, w.id)))
      ensures where == if |old(w.ch)| < CAPACITY then old(where) else old(where) - {w.id}
      ensures watchers == if |old(w.ch)| < CAPACITY then old(watchers) else old(watchers) - {w.id}
    {
      hide Trie.Valid, ExactOk, PrefixOk, Holding;
      if |w.ch| < CAPACITY {
        w.ch := w.ch + [event];
        w.nextRevision := event.revision + 1;
      } else {
        RemoveWatch(w.key, w.id);
      }
    }

    method SendAll(list: seq<Watcher>, event: WatchEvent) returns (ghost gone: set<int>)
      requires Valid() && NoRepeats(list)
      requires forall j :: 0 <= j < |list| ==> list[j].id in watchers && watchers[list[j].id] == list[j]
      modifies this, Nodes(), set j | 0 <= j < |list| :: list[j]
      ensures Valid() && nextWatcherId == old(nextWatcherId)
      ensures forall j :: 0 <= j < |list| ==>
        Told(list[j], old(list[j].ch), old(list[j].nextRevision), old(list[j].closed), event, true,
          old(ClosedBy(where, list[j].key, list[j].id)))
      ensures gone == set j | 0 <= j < |list| && old(|list[j].ch|) >= CAPACITY :: list[j].id
      ensures watchers == old(watchers) - gone && where == old(where) - gone
    {
      hide Valid, Told;
      gone := {};
      for i := 0 to |list|
        invariant Valid() && nextWatcherId == old(nextWatcherId)
        invariant syncedRoot.nodes == old(syncedRoot.nodes) && unsyncedRoot.nodes == old(unsyncedRoot.nodes)
        invariant forall j :: 0 <= j < i ==>
          Told(list[j], old(list[j].ch), old(list[j].nextRevision), old(list[j].closed), event, true,
            old(ClosedBy(where, list[j].key, list[j].id)))
        invariant forall j :: i <= j < |list| ==>
          unchanged(list[j]) && list[j].id in watchers && watchers[list[j].id] == list[j]
        invariant watchers == old(watchers) - gone && where == old(where) - gone
        invariant gone == set j | 0 <= j < i && old(|list[j].ch|) >= CAPACITY :: list[j].id
      {
        Send(list[i], event);
        if old(|list[i].ch|) >= CAPACITY {
          MinusMinus(old(watchers), gone, list[i].id);
          MinusMinus(old(where), gone, list[i].id);
          gone := gone + {list[i].id};
        }
      }
    }

    /** Every target with room in its channel is sent the event, once; one without room is removed; the others notice
      * nothing. */
    method Notify(event: WatchEvent)
      requires Valid()
      modifies this, Nodes(), watchers.Values
      ensures Valid() && nextWatcherId == old(nextWatcherId)
      ensures forall w :: w in old(watchers.Values) ==>
        Told(w, old(w.ch), old(w.nextRevision), old(w.closed), event, old(Target(w, event.key)),
          old(ClosedBy(where, w.key, w.id)))
      ensures forall id :: id in watchers <==>
        id in old(watchers) && !old(Target(watchers[id], event.key) && |watchers[id].ch| >= CAPACITY)
      ensures forall id :: id in watchers ==>
        id in where && watchers[id] == old(watchers)[id] && where[id] == old(where)[id]
    {
      hide Tries, ExactOk, PrefixOk, Matches;
      var list := Targets(event.key);
      ghost var all := watchers;
      forall j | 0 <= j < |list|
        ensures list[j].id in all && all[list[j].id] == list[j] && list[j] in all.Values
      {
        assert list[j] in list && Target(list[j], event.key);
      }
      assert forall id :: id in all ==> all[id].id == id;
      ghost var _ := SendAll(list, event);
      forall w | w in all.Values
        ensures Told(w, old(w.ch), old(w.nextRevision), old(w.closed), event, old(Target(w, event.key)),
          old(ClosedBy(where, w.key, w.id)))
      {
        assert w in list <==> old(Target(w, event.key));
      }
      forall id | id in all
        ensures id in watchers <==> !old(Target(watchers[id], event.key) && |watchers[id].ch| >= CAPACITY)
      {
        assert all[id] in list <==> old(Target(watchers[id], event.key));
      }
    }
  }
}
