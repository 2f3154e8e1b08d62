/**
 * What a client may rely on: what each kind of entry writes and answers, said of the writes themselves, and that
 * whoever waits for an entry is answered.
 */
module KvAnswers {
  import opened Numbers
  import opened MvccLog
  import opened MvccScan
  import opened KvSpec
  import opened KvServer
  import opened WatchTree

  // ---- reading ----

  /** Revision `r` is a live write to the key, the last one up to `m`. */
  ghost predicate LiveAt(ws: seq<Write>, key: string, m: int, r: int) {
    && 1 <= r <= m && Writes(ws, key, r) && !ws[r - 1].deleted
    && forall p: nat :: r < p <= m ==> !Writes(ws, key, p)
  }

  /** The answer names the live write up to `m`, or says that there is none. */
  ghost predicate Tells(ws: seq<Write>, key: string, m: int, r: Result) {
    if r.err == OK then LiveAt(ws, key, m, r.version) && r.value == ws[r.version - 1].value
    else r == Result("", 0, KEY_NOT_EXIST) && forall p :: !LiveAt(ws, key, m, p)
  }

  lemma IdealTells(ws: seq<Write>, key: string, v: int)
    ensures var m := if v == 0 then |ws| else v;
      match IdealGet(ws, key, v)
      case Found(value, r) => LiveAt(ws, key, m, r) && value == ws[r - 1].value
      case _ => forall p :: !LiveAt(ws, key, m, p)
  {
    var m := if v == 0 then |ws| else v;
    var r := NewestLE(ws, key, m);
    assert r > 0 ==> Writes(ws, key, r);
    forall p | LiveAt(ws, key, m, p)
      ensures p == r
    {
      assert Writes(ws, key, p);
    }
  }

  /** A Get entry at version 0, or at one that is not compacted away, is answered with the live write of that time;
    * below the floor the answer is the same, or that there is none, the latter exactly if the write is superseded
    * up to the floor. */
  lemma GetMeaning(s: State, op: Op)
    requires op.kind == "Get"
    ensures After(s, op) == s && ReplyTo(s, op).Plain?
    ensures var ws, v, r := s.writes, op.expectedVersion, ReplyTo(s, op).result;
      && (v == 0 ==> Tells(ws, op.key, |ws|, r))
      && (v != 0 && v >= s.floor ==> Tells(ws, op.key, v, r))
      && (r.err == OK ==> LiveAt(ws, op.key, if v == 0 then |ws| else v, r.version)
                          && r.value == ws[r.version - 1].value)
      && (r.err != OK ==> r == Result("", 0, KEY_NOT_EXIST))
      && (v != 0 ==> forall p :: LiveAt(ws, op.key, v, p) ==>
            (r.err == OK <==> forall q: nat :: p < q <= s.floor ==> !Writes(ws, op.key, q)))
  {
    var ws, v := s.writes, op.expectedVersion;
    IdealTells(ws, op.key, v);
    if v == 0 || v >= s.floor {
      GetAboveFloor(ws, s.floor, op.key, v);
    }
    if v != 0 {
      GetBelowFloor(ws, s.floor, op.key, v);
      BelowFloor(ws, s.floor, op.key, v);
    }
    hide IdealGet, GetAt, LiveAt;
  }

  lemma BelowFloor(ws: seq<Write>, floor: nat, key: string, v: int)
    requires v != 0
    ensures forall p :: LiveAt(ws, key, v, p) ==>
      (GetAt(ws, floor, key, v).Found? <==> forall q: nat :: p < q <= floor ==> !Writes(ws, key, q))
  {
    var r := NewestLE(ws, key, v);
    NewestBound(ws, key, v);
    forall p | LiveAt(ws, key, v, p)
      ensures GetAt(ws, floor, key, v).Found? <==> forall q: nat :: p < q <= floor ==> !Writes(ws, key, q)
    {
      assert Writes(ws, key, p) && p == r;
    }
  }

  // ---- writing ----

  /** The number of the last write to the key, 0 if there is none. */
  ghost predicate LastWrite(ws: seq<Write>, key: string, n: nat) {
    (n > 0 ==> Writes(ws, key, n)) && forall p: nat :: p > n ==> !Writes(ws, key, p)
  }

  lemma LastIsNewest(ws: seq<Write>, key: string, n: nat)
    ensures LastWrite(ws, key, n) <==> n == Newest(ws, key)
  {
    var m := Newest(ws, key);
  }

  /** A request with a number newer than all its client has used. */
  predicate Newer(s: State, op: Op) {
    op.requestId > Last(s.tables, op.clientId)
  }

  /** A Put with an expected version that is not the key's last one is refused with that one, and writes nothing. */
  lemma PutMeaning(s: State, op: Op, n: nat)
    requires op.kind == "Put" && Newer(s, op) && LastWrite(s.writes, op.key, n)
    ensures var refused := op.expectedVersion != 0 && op.expectedVersion != n;
      && After(s, op).writes == (if refused then s.writes else s.writes + [Write(op.key, op.value, false)])
      && ReplyTo(s, op) == Plain(Result("", if refused then n else |s.writes| + 1, if refused then WRONG_VERSION
        else OK))
  {
    LastIsNewest(s.writes, op.key, n);
    hide Newest, LastWrite;
  }

  lemma DeleteMeaning(s: State, op: Op)
    requires op.kind == "Delete" && Newer(s, op)
    ensures After(s, op).writes == s.writes + [Write(op.key, "", true)]
    ensures ReplyTo(s, op) == Plain(Result("", |s.writes| + 1, OK))
  {
  }

  /** An expiry is a deletion that no client asked for; a compaction only raises the floor, and never above what has
    * been written; repeats, reads and unknown kinds change nothing. */
  lemma OtherEffects(s: State, op: Op)
    ensures op.kind == "Expire" ==> After(s, op) == s.(writes := s.writes + [Write(op.key, "", true)])
    ensures op.kind == "Compact" ==>
      After(s, op) == s.(floor := Max(s.floor, Min(op.expectedVersion, |s.writes|)))
    ensures op.kind == "Put" || op.kind == "Delete" || op.kind == "Batch" || op.kind == "Txn" ==>
      (if Newer(s, op) then After(s, op).floor == s.floor && Last(After(s, op).tables, op.clientId) == op.requestId
       else After(s, op) == s)
    ensures op.kind !in {"Put", "Delete", "Batch", "Txn", "Expire", "Compact"} ==> After(s, op) == s
  {
    hide AllWritten, AllRead, Meets;
  }

  // ---- lists of entries ----

  predicate Writing(e: Entry) {
    e.kind == "Put" || e.kind == "Delete"
  }

  ghost predicate Ascends(idx: seq<nat>) {
    forall a, b :: 0 <= a < b < |idx| ==> idx[a] < idx[b]
  }

  /** `idx` lists the positions of the writing entries, in order. */
  ghost predicate Writers(es: seq<Entry>, idx: seq<nat>) {
    && Ascends(idx) && (forall k :: 0 <= k < |idx| ==> idx[k] < |es| && Writing(es[idx[k]]))
    && forall i :: 0 <= i < |es| && Writing(es[i]) ==> i in idx
  }

  /** Exactly the writes of these entries are added, in their order. */
  ghost predicate Adds(ws: seq<Write>, ws': seq<Write>, es: seq<Entry>, idx: seq<nat>) {
    && |ws'| == |ws| + |idx| && ws <= ws' && forall k :: 0 <= k < |idx| ==>
         idx[k] < |es| && var e := es[idx[k]];
         ws'[|ws| + k] == if e.kind == "Put" then Write(e.key, e.value, false) else Write(e.key, "", true)
  }

  function Spots(es: seq<Entry>): (idx: seq<nat>)
    ensures forall k :: 0 <= k < |idx| ==> idx[k] < |es|
  {
    if es == [] then []
    else Spots(es[..|es| - 1]) + if Writing(es[|es| - 1]) then [|es| - 1] else []
  }

  lemma {:induction false} SpotsWrite(es: seq<Entry>)
    ensures Writers(es, Spots(es))
  {
    if es != [] {
      var before := es[..|es| - 1];
      SpotsWrite(before);
      var idx := Spots(before);
      assert forall i :: 0 <= i < |before| ==> es[i] == before[i];
      assert forall k :: 0 <= k < |idx| ==> Spots(es)[k] == idx[k];
      if Writing(es[|es| - 1]) {
        assert Spots(es)[|idx|] == |es| - 1;
      }
    }
  }

  lemma {:induction false} AllWrittenAdds(ws: seq<Write>, es: seq<Entry>)
    ensures Adds(ws, AllWritten(ws, es), es, Spots(es))
  {
    if es != [] {
      var before, e := es[..|es| - 1], es[|es| - 1];
      AllWrittenAdds(ws, before);
      var mid, idx := AllWritten(ws, before), Spots(before);
      assert forall k :: 0 <= k < |idx| ==> es[idx[k]] == before[idx[k]];
      assert AllWritten(ws, es) == Written(mid, e);
      hide AllWritten, Spots;
      OneMoreAdds(ws, mid, es, idx);
      assert Spots(es) == idx + if Writing(e) then [|es| - 1] else [] by { SpotsLast(es); }
    }
  }

  lemma SpotsLast(es: seq<Entry>)
    requires es != []
    ensures Spots(es) == Spots(es[..|es| - 1]) + if Writing(es[|es| - 1]) then [|es| - 1] else []
  {
  }

  lemma OneMoreAdds(ws: seq<Write>, mid: seq<Write>, es: seq<Entry>, idx: seq<nat>)
    requires es != [] && Adds(ws, mid, es, idx)
    ensures Adds(ws, Written(mid, es[|es| - 1]), es, idx + if Writing(es[|es| - 1]) then [|es| - 1] else [])
  {
  }

  /** A Batch writes what its Put and Delete entries say, in their order, and is answered with the last revision. */
  lemma BatchMeaning(s: State, op: Op) returns (idx: seq<nat>)
    requires op.kind == "Batch" && Newer(s, op)
    ensures Writers(op.entries, idx) && Adds(s.writes, After(s, op).writes, op.entries, idx)
    ensures ReplyTo(s, op) == Plain(Result("", |After(s, op).writes|, OK))
  {
    idx := Spots(op.entries);
    SpotsWrite(op.entries);
    AllWrittenAdds(s.writes, op.entries);
  }

  // ---- transactions ----

  /** The comparison with revision `n`. */
  predicate Compares(n: nat, c: KvSpec.Compare) {
    && (c.how == EQUAL ==> n == c.version) && (c.how == NOT_EQUAL ==> n != c.version)
    && (c.how == LESS ==> n < c.version) && (c.how == GREATER ==> n > c.version) && !c.how.UNKNOWN?
  }

  /** Of the log `ws'` that the entries make of `ws`, the first `m` writes are those before entry `i`. */
  ghost predicate Point(ws: seq<Write>, ws': seq<Write>, idx: seq<nat>, i: nat, m: nat) {
    |ws| <= m <= |ws'| && forall k :: 0 <= k < |idx| ==> (idx[k] < i <==> |ws| + k < m)
  }

  /** What a read of the key sees after `m` writes. */
  ghost predicate Sees(ws: seq<Write>, m: nat, key: string, kv: KeyValue) {
    LiveAt(ws, key, m, kv.version) && kv == KeyValue(key, ws[kv.version - 1].value, kv.version)
  }

  /** `gets` lists, in order, the Get entries among the first `n` that find their key; each sees the writes before
    * it. */
  ghost predicate Readers(ws: seq<Write>, ws': seq<Write>, es: seq<Entry>, n: nat, idx: seq<nat>, gets: seq<nat>,
      results: seq<KeyValue>) {
    && n <= |es| && Ascends(gets) && |results| == |gets|
    && (forall k :: 0 <= k < |gets| ==> gets[k] < n && Answered(ws, ws', es, idx, gets[k], results[k]))
    && (forall i: nat :: i < n && es[i].kind == "Get" && i !in gets ==> Missed(ws, ws', es, idx, i))
  }

  ghost predicate Answered(ws: seq<Write>, ws': seq<Write>, es: seq<Entry>, idx: seq<nat>, i: nat, kv: KeyValue) {
    i < |es| && es[i].kind == "Get" && exists m: nat :: Point(ws, ws', idx, i, m) && Sees(ws', m, es[i].key, kv)
  }

  ghost predicate Missed(ws: seq<Write>, ws': seq<Write>, es: seq<Entry>, idx: seq<nat>, i: nat) {
    i < |es| && exists m: nat :: Point(ws, ws', idx, i, m) && forall p :: !LiveAt(ws', es[i].key, m, p)
  }

  lemma {:induction false} EntryPoint(ws: seq<Write>, es: seq<Entry>, i: nat)
    requires i <= |es|
    ensures Point(ws, AllWritten(ws, es), Spots(es), i, |AllWritten(ws, es[..i])|)
    ensures AllWritten(ws, es[..i]) <= AllWritten(ws, es)
  {
    AllWrittenAdds(ws, es);
    if i == |es| {
      assert es[..i] == es;
    } else {
      var before := es[..|es| - 1];
      EntryPoint(ws, before, i);
      AllWrittenAdds(ws, before);
      assert before[..i] == es[..i];
    }
  }

  lemma LiveOnPrefix(ws: seq<Write>, ws': seq<Write>, key: string, r: int)
    requires ws <= ws'
    ensures LiveAt(ws', key, |ws|, r) <==> LiveAt(ws, key, |ws|, r)
  {
    assert forall p: nat :: p <= |ws| ==> (Writes(ws', key, p) <==> Writes(ws, key, p));
  }

  lemma EntryRead(ws: seq<Write>, es: seq<Entry>, i: nat)
    requires i < |es| && es[i].kind == "Get"
    ensures var r := Read(AllWritten(ws, es[..i]), es[i]);
      if r == [] then Missed(ws, AllWritten(ws, es), es, Spots(es), i)
      else |r| == 1 && Answered(ws, AllWritten(ws, es), es, Spots(es), i, r[0])
  {
    var at, all := AllWritten(ws, es[..i]), AllWritten(ws, es);
    EntryPoint(ws, es, i);
    IdealTells(at, es[i].key, 0);
    hide AllWritten, Spots, LiveAt, Point, IdealGet;
    forall r
      ensures LiveAt(all, es[i].key, |at|, r) <==> LiveAt(at, es[i].key, |at|, r)
    {
      LiveOnPrefix(at, all, es[i].key, r);
    }
    var g := IdealGet(at, es[i].key, 0);
    if g.Found? {
      assert LiveAt(at, es[i].key, |at|, g.version);
      LiveInside(at, es[i].key, |at|, g.version);
      assert Sees(all, |at|, es[i].key, KeyValue(es[i].key, g.value, g.version));
    }
  }

  lemma LiveInside(ws: seq<Write>, key: string, m: int, r: int)
    requires LiveAt(ws, key, m, r)
    ensures 1 <= r <= m && r <= |ws|
  {
  }

  lemma {:induction false} ReadsUpTo(ws: seq<Write>, es: seq<Entry>, n: nat) returns (gets: seq<nat>)
    requires n <= |es|
    ensures Readers(ws, AllWritten(ws, es), es, n, Spots(es), gets, AllRead(ws, es[..n]))
  {
    gets := [];
    if n > 0 {
      gets := ReadsUpTo(ws, es, n - 1);
      if es[n - 1].kind == "Get" {
        EntryRead(ws, es, n - 1);
      }
      assert es[..n][..n - 1] == es[..n - 1];
      var r := Read(AllWritten(ws, es[..n - 1]), es[n - 1]);
      assert AllRead(ws, es[..n]) == AllRead(ws, es[..n - 1]) + r;
      assert es[n - 1].kind != "Get" ==> r == [];
      hide *;
      OneMoreRead(ws, AllWritten(ws, es), es, n, Spots(es), gets, AllRead(ws, es[..n - 1]), r);
      gets := gets + if r == [] then [] else [n - 1];
    }
  }

  lemma OneMoreRead(ws: seq<Write>, ws': seq<Write>, es: seq<Entry>, n: nat, idx: seq<nat>, gets: seq<nat>,
      results: seq<KeyValue>, r: seq<KeyValue>)
    requires 1 <= n <= |es| && Readers(ws, ws', es, n - 1, idx, gets, results)
    requires if r == [] then es[n - 1].kind == "Get" ==> Missed(ws, ws', es, idx, n - 1)
      else |r| == 1 && Answered(ws, ws', es, idx, n - 1, r[0])
    ensures Readers(ws, ws', es, n, idx, gets + if r == [] then [] else [n - 1], results + r)
  {
    hide Answered, Missed;
    var more := gets + if r == [] then [] else [n - 1];
    assert forall k :: 0 <= k < |gets| ==> more[k] == gets[k];
    assert r != [] ==> more[|gets|] == n - 1;
    assert forall i: nat :: i in gets ==> i in more;
  }

  lemma MeetsIff(ws: seq<Write>)
    ensures forall c: KvSpec.Compare, n: nat :: LastWrite(ws, c.key, n) ==> (Compares(n, c) <==> Meets(ws, c))
    ensures forall c: KvSpec.Compare :: LastWrite(ws, c.key, Newest(ws, c.key))
  {
    forall c: KvSpec.Compare, n: nat | LastWrite(ws, c.key, n)
      ensures Compares(n, c) <==> Meets(ws, c)
    {
      LastIsNewest(ws, c.key, n);
    }
    forall c: KvSpec.Compare
      ensures LastWrite(ws, c.key, Newest(ws, c.key))
    {
      LastIsNewest(ws, c.key, Newest(ws, c.key));
    }
  }

  /**
   * A transaction succeeds exactly if every comparison holds for the last write of its key; then the entries of the
   * success list take effect, and otherwise those of the other list: one write for each Put or Delete, in order, and
   * one result for each Get that finds its key at that point.
   */
  lemma TxnMeaning(s: State, op: Op) returns (idx: seq<nat>, gets: seq<nat>)
    requires op.kind == "Txn" && Newer(s, op)
    ensures ReplyTo(s, op).OfTxn?
    ensures var r, ws' := ReplyTo(s, op).txn, After(s, op).writes;
      var es := if r.succeeded then op.successEntries else op.failedEntries;
      && (r.succeeded <==> forall c, n :: c in op.compares && LastWrite(s.writes, c.key, n) ==> Compares(n, c))
      && Writers(es, idx) && Adds(s.writes, ws', es, idx)
      && Readers(s.writes, ws', es, |es|, idx, gets, r.results)
      && r.version == |ws'| && r.err == OK
  {
    var r := ReplyTo(s, op).txn;
    var es := if r.succeeded then op.successEntries else op.failedEntries;
    idx := Spots(es);
    SpotsWrite(es);
    AllWrittenAdds(s.writes, es);
    gets := ReadsUpTo(s.writes, es, |es|);
    assert es[..|es|] == es;
    MeetsIff(s.writes);
    hide AllWritten, AllRead, Spots, Readers, Adds, Writers, LastWrite, Compares, Meets;
  }
}
