/** What the versioned store is for: a log of writes, and reads of the newest write up to a revision. */
module MvccLog {
  import opened Numbers
  import opened Keys

  /** A row of the physical store. */
  datatype Value = Value(value: string, version: nat, deleted: bool)

  /** Revision `r` is write number `r`, counted from 1. */
  datatype Write = Write(key: string, value: string, deleted: bool)

  datatype GetResult = Found(value: string, version: nat) | KeyNotFound | VersionNotFound

  ghost predicate Writes(ws: seq<Write>, k: string, r: nat) {
    1 <= r <= |ws| && ws[r - 1].key == k
  }

  /** The newest write to `k` at or before `v`, or 0. */
  ghost function NewestLE(ws: seq<Write>, k: string, v: int): (r: nat)
    ensures r <= |ws| && (r > 0 ==> r <= v && Writes(ws, k, r))
    ensures forall q :: r < q <= v ==> !Writes(ws, k, q)
    decreases if v < 0 then 0 else v
  {
    if v <= 0 then 0
    else if v <= |ws| && ws[v - 1].key == k then v
    else NewestLE(ws, k, v - 1)
  }

  ghost function Newest(ws: seq<Write>, k: string): nat {
    NewestLE(ws, k, |ws|)
  }

  ghost function ValueAt(ws: seq<Write>, r: nat): Value
    requires 1 <= r <= |ws|
  {
    Value(ws[r - 1].value, r, ws[r - 1].deleted)
  }

  /** The answer of a store that keeps every version; version 0 asks for the newest. */
  ghost function IdealGet(ws: seq<Write>, k: string, v: int): GetResult {
    var r := NewestLE(ws, k, if v == 0 then |ws| else v);
    if r == 0 || ws[r - 1].deleted then KeyNotFound else Found(ws[r - 1].value, r)
  }

  /** Not yet compacted at `floor`: no later write to the key up to there. */
  ghost predicate Kept(ws: seq<Write>, floor: nat, k: string, r: nat) {
    Writes(ws, k, r) && forall q :: r < q <= floor ==> !Writes(ws, k, q)
  }

  /** The answer of a store compacted up to `floor`. */
  ghost function GetAt(ws: seq<Write>, floor: nat, k: string, v: int): GetResult {
    if v == 0 then IdealGet(ws, k, 0)
    else if Newest(ws, k) == 0 then KeyNotFound
    else
      var r := NewestLE(ws, k, v);
      if r == 0 || !Kept(ws, floor, k, r) then VersionNotFound
      else if ws[r - 1].deleted then KeyNotFound
      else Found(ws[r - 1].value, r)
  }

  ghost predicate Agree(a: GetResult, b: GetResult) {
    a == b || (!a.Found? && !b.Found?)
  }

  lemma NewestBound(ws: seq<Write>, k: string, v: int)
    ensures NewestLE(ws, k, v) > 0 ==> Newest(ws, k) > 0
  {
    var r := NewestLE(ws, k, v);
    assert r > 0 ==> Writes(ws, k, r);
  }

  /** At version 0, and from the floor up, compaction cannot be noticed. */
  lemma GetAboveFloor(ws: seq<Write>, floor: nat, k: string, v: int)
    requires v == 0 || v >= floor
    ensures Agree(GetAt(ws, floor, k, v), IdealGet(ws, k, v))
  {
    NewestBound(ws, k, v);
  }

  /** Below the floor the answer is the ideal one or a failure, the former exactly while the version is kept. */
  lemma GetBelowFloor(ws: seq<Write>, floor: nat, k: string, v: int)
    requires v != 0
    ensures GetAt(ws, floor, k, v).Found? ==> GetAt(ws, floor, k, v) == IdealGet(ws, k, v)
    ensures IdealGet(ws, k, v).Found? ==>
      (GetAt(ws, floor, k, v).Found? <==> Kept(ws, floor, k, NewestLE(ws, k, v)))
  {
    NewestBound(ws, k, v);
  }

  // ---- one more write ----

  lemma NewestAppend(ws: seq<Write>, w: Write, k: string, v: int)
    ensures NewestLE(ws + [w], k, v) == if v > |ws| && w.key == k then |ws| + 1 else NewestLE(ws, k, v)
    decreases if v < 0 then 0 else v
  {
    if v > 0 {
      NewestAppend(ws, w, k, v - 1);
    }
  }

  lemma KeptAppend(ws: seq<Write>, w: Write, floor: nat, k: string, r: nat)
    requires floor <= |ws|
    ensures Kept(ws + [w], floor, k, r) <==> Kept(ws, floor, k, r) || (r == |ws| + 1 && k == w.key)
  {
    assert forall q :: 0 < q <= |ws| ==> (Writes(ws + [w], k, q) <==> Writes(ws, k, q));
  }

  // ---- compaction ----

  /** Compacting at `c` moves the floor up to what has been written so far, and never down. */
  function Raised(floor: nat, c: int, rev: nat): (f: nat)
    ensures f == floor || (f == Min(c, rev) && f > floor)
  {
    if Min(c, rev) > floor then Min(c, rev) else floor
  }

  /** What compaction drops: kept versions with a newer kept version at or before `c`. */
  ghost predicate Superseded(ws: seq<Write>, floor: nat, k: string, r: nat, c: int) {
    exists q :: r < q <= c && Kept(ws, floor, k, q)
  }

  /** Dropping the superseded versions of a key is raising the floor, for any `c`. */
  lemma DropIsRaise(ws: seq<Write>, floor: nat, k: string, r: nat, c: int)
    requires floor <= |ws|
    ensures Kept(ws, Raised(floor, c, |ws|), k, r) <==> Kept(ws, floor, k, r) && !Superseded(ws, floor, k, r, c)
  {
    var f := Raised(floor, c, |ws|);
    if Kept(ws, floor, k, r) && !Kept(ws, f, k, r) {
      var m := NewestLE(ws, k, f);
      assert Writes(ws, k, m) && floor < m <= f && r < m <= c;
      assert Kept(ws, floor, k, m);
    }
    if q :| r < q <= c && Kept(ws, floor, k, q) {
      assert q <= f || q <= floor;
    }
  }

  /** A key without writes in `(floor, c]` has nothing superseded. */
  lemma UntouchedStays(ws: seq<Write>, floor: nat, k: string, c: int)
    requires forall q :: floor < q <= c ==> !Writes(ws, k, q)
    ensures forall r :: Kept(ws, floor, k, r) ==> !Superseded(ws, floor, k, r, c)
  {
  }
}
