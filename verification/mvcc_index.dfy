/** How the three indexes and the flat store relate to the write log; the effect of one write and of compaction. */
module MvccIndex {
  import opened Keys
  import opened MvccLog

  datatype RevisionEntry = RevisionEntry(key: string, rev: nat)

  type History = map<string, seq<nat>>
  type Rows = map<string, Value>

  ghost predicate Ascending(s: seq<nat>) {
    forall i, j :: 0 <= i < j < |s| ==> s[i] < s[j]
  }

  /** `history` lists exactly the kept versions of exactly the written keys, oldest first. */
  ghost predicate HistoryOk(ws: seq<Write>, floor: nat, history: History) {
    && (forall k :: k in history <==> Newest(ws, k) > 0)
    && forall k :: k in history ==> Ascending(history[k]) && forall r :: r in history[k] <==> Kept(ws, floor, k, r)
  }

  /** A row whose key has a slash is a kept version under its physical key. */
  ghost predicate RowOk(ws: seq<Write>, floor: nat, p: string, v: Value) {
    LastSlash(p) >= 0 ==>
      && Kept(ws, floor, p[..LastSlash(p)], v.version) && v == ValueAt(ws, v.version)
      && p == Phys(p[..LastSlash(p)], v.version)
  }

  /** The store holds a row for every kept version, and besides them only keys without a slash. */
  ghost predicate StoreOk(ws: seq<Write>, floor: nat, store: Rows) {
    && (forall k, r :: Kept(ws, floor, k, r) ==> Phys(k, r) in store && store[Phys(k, r)] == ValueAt(ws, r))
    && forall p :: p in store ==> RowOk(ws, floor, p, store[p])
  }

  ghost predicate InOrder(revs: seq<RevisionEntry>) {
    forall i, j :: 0 <= i < j < |revs| ==> revs[i].rev < revs[j].rev
  }

  /** `revisions` is in revision order, mentions kept versions only, and all those above the floor. */
  ghost predicate RevisionsOk(ws: seq<Write>, floor: nat, revs: seq<RevisionEntry>) {
    && InOrder(revs)
    && (forall e :: e in revs ==> Kept(ws, floor, e.key, e.rev))
    && forall k: string, r: nat :: Writes(ws, k, r) && r > floor ==> RevisionEntry(k, r) in revs
  }

  /** `latest` knows the newest write of every written key, tombstones included. */
  ghost predicate LatestOk(ws: seq<Write>, latest: map<string, nat>) {
    forall k :: (k in latest <==> Newest(ws, k) > 0) && (k in latest ==> latest[k] == Newest(ws, k))
  }

  lemma AscendingPush(s: seq<nat>, v: nat)
    requires Ascending(s) && forall x :: x in s ==> x < v
    ensures Ascending(s + [v])
  {
    assert forall i :: 0 <= i < |s| ==> s[i] in s;
  }

  // ---- one more write ----

  lemma HistoryAppend(ws: seq<Write>, floor: nat, history: History, w: Write)
    requires HistoryOk(ws, floor, history) && floor <= |ws|
    ensures var old' := if w.key in history then history[w.key] else [];
      HistoryOk(ws + [w], floor, history[w.key := old' + [|ws| + 1]])
  {
    var old' := if w.key in history then history[w.key] else [];
    var h' := history[w.key := old' + [|ws| + 1]];
    forall k
      ensures k in h' <==> Newest(ws + [w], k) > 0
    {
      NewestAppend(ws, w, k, |ws| + 1);
      NewestBound(ws, k, |ws| + 1);
    }
    assert forall x :: x in old' ==> Kept(ws, floor, w.key, x) && x < |ws| + 1;
    assert forall x :: Kept(ws, floor, w.key, x) ==> w.key in history by {
      assert forall x :: Kept(ws, floor, w.key, x) ==> Newest(ws, w.key) >= x;
    }
    AscendingPush(old', |ws| + 1);
    hide Kept, Ascending, Newest;
    forall k | k in h'
      ensures Ascending(h'[k]) && forall r :: r in h'[k] <==> Kept(ws + [w], floor, k, r)
    {
      forall r
        ensures r in h'[k] <==> Kept(ws + [w], floor, k, r)
      {
        KeptAppend(ws, w, floor, k, r);
      }
    }
  }

  lemma StoreAppend(ws: seq<Write>, floor: nat, store: Rows, w: Write)
    requires StoreOk(ws, floor, store) && floor <= |ws|
    ensures StoreOk(ws + [w], floor, store[Phys(w.key, |ws| + 1) := Value(w.value, |ws| + 1, w.deleted)])
  {
    var store' := store[Phys(w.key, |ws| + 1) := Value(w.value, |ws| + 1, w.deleted)];
    forall k, r | Kept(ws + [w], floor, k, r)
      ensures Phys(k, r) in store' && store'[Phys(k, r)] == ValueAt(ws + [w], r)
    {
      KeptAppend(ws, w, floor, k, r);
      if Phys(k, r) == Phys(w.key, |ws| + 1) {
        PhysInjective(k, r, w.key, |ws| + 1);
      }
    }
    forall p | p in store'
      ensures RowOk(ws + [w], floor, p, store'[p])
    {
      PhysSplit(w.key, |ws| + 1);
      if LastSlash(p) >= 0 {
        KeptAppend(ws, w, floor, p[..LastSlash(p)], store'[p].version);
        if p != Phys(w.key, |ws| + 1) {
          assert RowOk(ws, floor, p, store[p]);
        }
      }
    }
  }

  lemma RevisionsAppend(ws: seq<Write>, floor: nat, revs: seq<RevisionEntry>, w: Write)
    requires RevisionsOk(ws, floor, revs) && floor <= |ws|
    ensures RevisionsOk(ws + [w], floor, revs + [RevisionEntry(w.key, |ws| + 1)])
  {
    var e' := RevisionEntry(w.key, |ws| + 1);
    var revs' := revs + [e'];
    forall e | e in revs'
      ensures Kept(ws + [w], floor, e.key, e.rev)
    {
      KeptAppend(ws, w, floor, e.key, e.rev);
    }
    assert forall i :: 0 <= i < |revs| ==> revs[i] in revs && revs[i].rev <= |ws|;
    assert e' in revs';
  }

  lemma LatestAppend(ws: seq<Write>, latest: map<string, nat>, w: Write)
    requires LatestOk(ws, latest)
    ensures LatestOk(ws + [w], latest[w.key := |ws| + 1])
  {
    forall k
      ensures var l := latest[w.key := |ws| + 1];
        (k in l <==> Newest(ws + [w], k) > 0) && (k in l ==> l[k] == Newest(ws + [w], k))
    {
      NewestAppend(ws, w, k, |ws| + 1);
      NewestPast(ws, k);
    }
  }

  lemma NewestPast(ws: seq<Write>, k: string)
    ensures NewestLE(ws, k, |ws| + 1) == Newest(ws, k)
  {
  }

  // ---- compaction ----

  /** Superseded within a version list: some later version is at or before `c`. */
  ghost predicate Dropped(vs: seq<nat>, c: int, r: nat) {
    exists q :: q in vs && r < q <= c
  }

  /** `vs'` is `vs` without its superseded versions. */
  ghost predicate Trimmed(vs: seq<nat>, c: int, vs': seq<nat>) {
    Ascending(vs') && forall r :: r in vs' <==> r in vs && !Dropped(vs, c, r)
  }

  /** The keys that the index names have all their superseded versions trimmed, the others are as before. */
  ghost predicate TrimmedFor(history: History, keys: set<string>, c: int, history': History) {
    && history'.Keys == history.Keys
    && forall k :: k in history ==>
         if k in keys then Trimmed(history[k], c, history'[k]) else history'[k] == history[k]
  }

  ghost predicate CoversUpTo(ws: seq<Write>, floor: nat, keys: set<string>, c: int) {
    forall k: string, r: nat :: Writes(ws, k, r) && floor < r <= c ==> k in keys
  }

  lemma DroppedIsSuperseded(ws: seq<Write>, floor: nat, history: History, k: string, c: int, r: nat)
    requires HistoryOk(ws, floor, history) && k in history
    ensures Dropped(history[k], c, r) <==> Superseded(ws, floor, k, r, c)
  {
  }

  /** Visiting only the keys the revision index names is as good as visiting all. */
  lemma CompactKept(ws: seq<Write>, floor: nat, history: History, keys: set<string>, c: int, k: string, r: nat)
    requires HistoryOk(ws, floor, history) && floor <= |ws| && CoversUpTo(ws, floor, keys, c)
    ensures Kept(ws, Raised(floor, c, |ws|), k, r) <==>
      Kept(ws, floor, k, r) && !(k in keys && k in history && Dropped(history[k], c, r))
  {
    DropIsRaise(ws, floor, k, r, c);
    if k !in keys {
      UntouchedStays(ws, floor, k, c);
    } else if k in history {
      DroppedIsSuperseded(ws, floor, history, k, c, r);
    } else {
      NewestBound(ws, k, r);
    }
  }

  lemma CompactHistory(ws: seq<Write>, floor: nat, history: History, keys: set<string>, c: int, history': History)
    requires HistoryOk(ws, floor, history) && floor <= |ws| && CoversUpTo(ws, floor, keys, c)
    requires TrimmedFor(history, keys, c, history')
    ensures HistoryOk(ws, Raised(floor, c, |ws|), history')
  {
    forall k | k in history'
      ensures Ascending(history'[k]) && forall r :: r in history'[k] <==> Kept(ws, Raised(floor, c, |ws|), k, r)
    {
      forall r
        ensures r in history'[k] <==> Kept(ws, Raised(floor, c, |ws|), k, r)
      {
        CompactKept(ws, floor, history, keys, c, k, r);
      }
    }
  }

  /** The physical key of a superseded version of a visited key. */
  ghost predicate IsDead(history: History, keys: set<string>, c: int, p: string) {
    exists k, r :: k in keys && k in history && r in history[k] && Dropped(history[k], c, r) && p == Phys(k, r)
  }

  lemma CompactStore(ws: seq<Write>, floor: nat, history: History, keys: set<string>, c: int, store: Rows,
      dead: set<string>)
    requires HistoryOk(ws, floor, history) && floor <= |ws| && CoversUpTo(ws, floor, keys, c)
    requires StoreOk(ws, floor, store)
    requires forall p :: p in dead <==> IsDead(history, keys, c, p)
    ensures StoreOk(ws, Raised(floor, c, |ws|), store - dead)
  {
    forall k, r | Kept(ws, Raised(floor, c, |ws|), k, r)
      ensures Phys(k, r) in store - dead && (store - dead)[Phys(k, r)] == ValueAt(ws, r)
    {
      CompactKept(ws, floor, history, keys, c, k, r);
      if Phys(k, r) in dead {
        var k2, r2 :| k2 in keys && k2 in history && r2 in history[k2] && Dropped(history[k2], c, r2)
          && Phys(k, r) == Phys(k2, r2);
        PhysInjective(k, r, k2, r2);
      }
    }
    forall p | p in store - dead
      ensures RowOk(ws, Raised(floor, c, |ws|), p, store[p])
    {
      assert RowOk(ws, floor, p, store[p]);
      if LastSlash(p) >= 0 {
        var k, r := p[..LastSlash(p)], store[p].version;
        CompactKept(ws, floor, history, keys, c, k, r);
        assert k in keys && k in history && Dropped(history[k], c, r) ==> IsDead(history, keys, c, p);
      }
    }
  }

  lemma {:induction false} CompactRevisions(ws: seq<Write>, floor: nat, revs: seq<RevisionEntry>, c: int, index: nat)
    requires RevisionsOk(ws, floor, revs) && floor <= |ws| && index <= |revs|
    requires forall i :: 0 <= i < index ==> revs[i].rev <= c
    requires index < |revs| ==> revs[index].rev > c
    ensures RevisionsOk(ws, Raised(floor, c, |ws|), revs[index..])
    ensures CoversUpTo(ws, floor, set i | 0 <= i < index :: revs[i].key, c)
    ensures forall e :: e in revs[index..] <==> e in revs && e.rev > c
  {
    var keys := set i | 0 <= i < index :: revs[i].key;
    forall e | e in revs[index..]
      ensures e in revs && e.rev > c && Kept(ws, Raised(floor, c, |ws|), e.key, e.rev)
    {
    }
    assert forall e :: e in revs && e.rev > c ==> e in revs[index..] by {
      assert forall i :: index <= i < |revs| ==> revs[i] == revs[index..][i - index];
    }
    forall k: string, r: nat | Writes(ws, k, r) && floor < r <= c
      ensures k in keys
    {
      var i :| 0 <= i < |revs| && revs[i] == RevisionEntry(k, r);
      assert i < index;
    }
    forall k: string, r: nat | Writes(ws, k, r) && r > Raised(floor, c, |ws|)
      ensures RevisionEntry(k, r) in revs[index..]
    {
      var i :| 0 <= i < |revs| && revs[i] == RevisionEntry(k, r);
      assert i >= index;
      assert revs[index..][i - index] == revs[i];
    }
  }

  // ---- uniqueness ----

  lemma {:induction false} AscendingUnique(a: seq<nat>, b: seq<nat>)
    requires Ascending(a) && Ascending(b) && forall r :: r in a <==> r in b
    ensures a == b
  {
    assert b != [] ==> b[0] in a;
    if a != [] {
      assert a[|a| - 1] in b && b != [] && b[|b| - 1] in a;
      assert a[|a| - 1] == b[|b| - 1];
      var x, y := a[..|a| - 1], b[..|b| - 1];
      AscendingFront(a);
      AscendingFront(b);
      forall r
        ensures r in x <==> r in y
      {
        assert r in a <==> r in b;
      }
      AscendingUnique(x, y);
      assert a == x + [a[|a| - 1]] && b == y + [b[|b| - 1]];
    }
  }

  lemma AscendingFront(a: seq<nat>)
    requires Ascending(a) && a != []
    ensures Ascending(a[..|a| - 1])
    ensures forall r :: r in a[..|a| - 1] <==> r in a && r != a[|a| - 1]
  {
  }

  /** The version lists are determined by the write log and the floor. */
  lemma HistoryUnique(ws: seq<Write>, floor: nat, h: History, h': History)
    requires HistoryOk(ws, floor, h) && HistoryOk(ws, floor, h')
    ensures h == h'
  {
    forall k | k in h
      ensures k in h' && h[k] == h'[k]
    {
      AscendingUnique(h[k], h'[k]);
    }
    assert h.Keys == h'.Keys;
  }
}
