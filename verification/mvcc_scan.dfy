/** Reading every key with a prefix by scanning the flat store, compared with the latest index. */
module MvccScan {
  import opened Keys
  import opened MvccLog
  import opened MvccIndex
  import opened MvccRebuild

  datatype KeyValue = KeyValue(key: string, value: string, version: nat)

  /** The newest kept version of `k`, up to `n`, whose physical key starts with the prefix; 0 if there is none. */
  ghost function ScanTop(ws: seq<Write>, floor: nat, prefix: string, k: string, n: nat): (r: nat)
    ensures r <= n && (r > 0 ==> Kept(ws, floor, k, r) && prefix <= Phys(k, r))
    ensures forall q: nat :: r < q <= n && Kept(ws, floor, k, q) ==> !(prefix <= Phys(k, q))
  {
    if n == 0 then 0
    else if Kept(ws, floor, k, n) && prefix <= Phys(k, n) then n
    else ScanTop(ws, floor, prefix, k, n - 1)
  }

  /** What the scan reports of a key. */
  ghost function Scanned(ws: seq<Write>, floor: nat, prefix: string, k: string): GetResult {
    var r := ScanTop(ws, floor, prefix, k, |ws|);
    if r == 0 || ws[r - 1].deleted then KeyNotFound else Found(ws[r - 1].value, r)
  }

  /** What a scan should report: the latest live version of the keys that start with the prefix. */
  ghost function Wanted(ws: seq<Write>, prefix: string, k: string): GetResult {
    if prefix <= k then IdealGet(ws, k, 0) else KeyNotFound
  }

  /** The prefix is the key, a slash, and digits (or none). */
  ghost predicate Stray(prefix: string, k: string) {
    |prefix| > |k| && prefix[..|k|] == k && prefix[|k|] == '/' && forall i :: |k| < i < |prefix| ==>
      '0' <= prefix[i] <= '9'
  }

  /** A physical key starts with the prefix because its key does, or because the key is a stray. */
  lemma MatchOrStray(prefix: string, k: string, r: nat)
    ensures prefix <= k ==> prefix <= Phys(k, r)
    ensures prefix <= Phys(k, r) ==> prefix <= k || Stray(prefix, k)
  {
    var p := Phys(k, r);
    if prefix <= k {
      assert p[..|prefix|] == k[..|prefix|];
    }
    if prefix <= p && |prefix| > |k| {
      assert p[..|prefix|][..|k|] == p[..|k|] == k;
      assert forall i :: |k| < i < |prefix| ==> prefix[i] == p[i] == Dec(r)[i - |k| - 1];
    }
    if prefix <= p && |prefix| <= |k| {
      assert p[..|k|][..|prefix|] == p[..|prefix|];
      assert p[..|k|] == k;
    }
  }

  /** A key that starts with the prefix is reported at its latest version. */
  lemma {:induction false} ScanOfMatch(ws: seq<Write>, floor: nat, prefix: string, k: string)
    requires floor <= |ws| && prefix <= k
    ensures ScanTop(ws, floor, prefix, k, |ws|) == Newest(ws, k)
    ensures Scanned(ws, floor, prefix, k) == IdealGet(ws, k, 0)
  {
    var n, r := Newest(ws, k), ScanTop(ws, floor, prefix, k, |ws|);
    MatchOrStray(prefix, k, n);
    assert r > 0 ==> Writes(ws, k, r);
    assert n > 0 ==> Kept(ws, floor, k, n);
  }

  /** A live row of a stray, the newest of its key's rows that start with the prefix. */
  ghost predicate StrayRow(ws: seq<Write>, floor: nat, prefix: string, k: string, r: nat) {
    && Stray(prefix, k) && Kept(ws, floor, k, r) && prefix <= Phys(k, r) && !ws[r - 1].deleted
    && forall q: nat :: q > r && Kept(ws, floor, k, q) ==> !(prefix <= Phys(k, q))
  }

  /** The scan errs about a key exactly if such a row is stored. */
  lemma {:induction false} ScanWrongIff(ws: seq<Write>, floor: nat, prefix: string, k: string)
    requires floor <= |ws|
    ensures Scanned(ws, floor, prefix, k) != Wanted(ws, prefix, k) <==>
      exists r: nat :: StrayRow(ws, floor, prefix, k, r)
  {
    if prefix <= k {
      ScanOfMatch(ws, floor, prefix, k);
    } else {
      var top := ScanTop(ws, floor, prefix, k, |ws|);
      MatchOrStray(prefix, k, top);
      if Scanned(ws, floor, prefix, k).Found? {
        assert forall q: nat :: Kept(ws, floor, k, q) ==> q <= |ws|;
        assert StrayRow(ws, floor, prefix, k, top);
      }
      if r: nat :| StrayRow(ws, floor, prefix, k, r) {
        assert r <= |ws| && top == r;
      }
    }
  }

  /** The scan as a whole is right exactly if no such row is stored. */
  lemma ScanRightIff(ws: seq<Write>, floor: nat, prefix: string)
    requires floor <= |ws|
    ensures (forall k :: Scanned(ws, floor, prefix, k) == Wanted(ws, prefix, k)) <==>
      !exists k, r: nat :: StrayRow(ws, floor, prefix, k, r)
  {
    hide Scanned, Wanted, StrayRow;
    forall k
      ensures Scanned(ws, floor, prefix, k) != Wanted(ws, prefix, k) <==>
        exists r: nat :: StrayRow(ws, floor, prefix, k, r)
    {
      ScanWrongIff(ws, floor, prefix, k);
    }
    if k: string, r: nat :| StrayRow(ws, floor, prefix, k, r) {
      assert Scanned(ws, floor, prefix, k) != Wanted(ws, prefix, k);
    }
    if k :| Scanned(ws, floor, prefix, k) != Wanted(ws, prefix, k) {
      var r: nat :| StrayRow(ws, floor, prefix, k, r);
    }
  }

  /** No key ever written is a stray: the scan is right about every key. */
  lemma ScanRight(ws: seq<Write>, floor: nat, prefix: string)
    requires floor <= |ws|
    requires forall k :: Newest(ws, k) > 0 ==> !Stray(prefix, k)
    ensures forall k :: Scanned(ws, floor, prefix, k) == Wanted(ws, prefix, k)
  {
    ScanRightIff(ws, floor, prefix);
    forall k, r: nat
      ensures !StrayRow(ws, floor, prefix, k, r)
    {
      NewestBound(ws, k, r);
    }
  }

  /** The scan for "a/1" reports the key "a", at a version that has been overwritten. */
  lemma StrayIsReported()
    ensures var ws := [Write("a", "old", false), Write("a", "new", false)];
      Wanted(ws, "a/1", "a") == KeyNotFound && Scanned(ws, 0, "a/1", "a") == Found("old", 1)
  {
    var ws := [Write("a", "old", false), Write("a", "new", false)];
    assert Kept(ws, 0, "a", 1);
    assert Dec(1) == "1" && Dec(2) == "2";
    assert Phys("a", 1) == "a/1" && Phys("a", 2) == "a/2";
    assert "a/2"[2] == '2' && "a/1"[2] == '1';
    assert ScanTop(ws, 0, "a/1", "a", 1) == 1;
    assert ScanTop(ws, 0, "a/1", "a", 2) == 1;
  }

  // ---- the scanning loop ----

  ghost predicate RowSeen(store: Rows, prefix: string, seen: set<string>, p: string, v: Value) {
    p in seen && p in store && prefix <= p && store[p] == v
  }

  /** `top` has, for each key with a row among `seen` that starts with the prefix, the newest such row. */
  ghost predicate Topped(store: Rows, prefix: string, seen: set<string>, top: Rows) {
    && (forall k :: k in top ==> RowSeen(store, prefix, seen, Phys(k, top[k].version), top[k]))
    && forall k, r: nat :: Phys(k, r) in seen && prefix <= Phys(k, r) ==> k in top && r <= top[k].version
  }

  lemma NothingTopped(store: Rows, prefix: string)
    ensures Topped(store, prefix, {}, map[])
  {
  }

  lemma TopStep(store: Rows, prefix: string, seen: set<string>, top: Rows, k0: string, v0: Value)
    requires Topped(store, prefix, seen, top)
    requires RowSeen(store, prefix, seen + {Phys(k0, v0.version)}, Phys(k0, v0.version), v0)
    ensures Topped(store, prefix, seen + {Phys(k0, v0.version)}, if k0 !in top || v0.version > top[k0].version
      then top[k0 := v0] else top)
  {
    hide Phys;
    var p := Phys(k0, v0.version);
    var top' := if k0 !in top || v0.version > top[k0].version then top[k0 := v0] else top;
    forall k, r: nat | Phys(k, r) in seen + {p} && prefix <= Phys(k, r)
      ensures k in top' && r <= top'[k].version
    {
      if Phys(k, r) == p {
        PhysInjective(k, r, k0, v0.version);
      }
    }
  }

  lemma TopOne(ws: seq<Write>, floor: nat, store: Rows, prefix: string, seen: set<string>, top: Rows, p: string)
    requires StoreOk(ws, floor, store) && Topped(store, prefix, seen, top)
    requires p in store && LastSlash(p) >= 0 && prefix <= p
    ensures var k := p[..LastSlash(p)];
      Topped(store, prefix, seen + {p}, if k !in top || store[p].version > top[k].version then top[k := store[p]]
        else top)
  {
    assert RowOk(ws, floor, p, store[p]);
    hide StoreOk, Topped, Kept, ValueAt, Phys;
    TopStep(store, prefix, seen, top, p[..LastSlash(p)], store[p]);
  }

  lemma TopNone(store: Rows, prefix: string, seen: set<string>, top: Rows, p: string)
    requires Topped(store, prefix, seen, top) && (LastSlash(p) < 0 || !(prefix <= p))
    ensures Topped(store, prefix, seen + {p}, top)
  {
    forall k, r: nat | Phys(k, r) in seen + {p} && prefix <= Phys(k, r)
      ensures k in top && r <= top[k].version
    {
      PhysSplit(k, r);
    }
  }

  lemma TopAll(ws: seq<Write>, floor: nat, store: Rows, prefix: string, top: Rows, k: string)
    requires StoreOk(ws, floor, store) && Topped(store, prefix, store.Keys, top)
    ensures k in top <==> ScanTop(ws, floor, prefix, k, |ws|) > 0
    ensures k in top ==> top[k].version == ScanTop(ws, floor, prefix, k, |ws|) && top[k] == ValueAt(ws, top[k].version)
  {
    var r := ScanTop(ws, floor, prefix, k, |ws|);
    if r > 0 {
      assert Phys(k, r) in store;
    }
    if k in top {
      RowIffKept(ws, floor, store, k, top[k].version);
    }
  }
}
