/** Replicas that apply the same entries agree, whatever each compacts by itself. */
module KvReplicas {
  import opened MvccLog
  import opened MvccScan
  import opened KvSpec
  import RaftLog
  import RaftSystem
  import RaftSafety
  import KvServer

  predicate Local(op: Op) {
    op.kind == "Compact"
  }

  /** The log without its compactions. */
  function Shared(log: seq<Op>): (r: seq<Op>)
    ensures |r| <= |log|
  {
    if log == [] then []
    else Shared(log[..|log| - 1]) + if Local(log[|log| - 1]) then [] else [log[|log| - 1]]
  }

  /** The answers given along a log, except to compactions and to reads, which may ask below the floor. */
  ghost function Answers(s: State, log: seq<Op>): seq<Reply> {
    if log == [] then []
    else
      var before, op := log[..|log| - 1], log[|log| - 1];
      Answers(s, before) + if Local(op) || op.kind == "Get" then [] else [ReplyTo(Run(s, before), op)]
  }

  ghost predicate SameButFloor(a: State, b: State) {
    a.writes == b.writes && a.tables == b.tables
  }

  lemma AfterLocal(s: State, op: Op)
    requires Local(op)
    ensures SameButFloor(After(s, op), s)
  {
  }

  lemma AfterSame(a: State, b: State, op: Op)
    requires SameButFloor(a, b)
    ensures SameButFloor(After(a, op), After(b, op))
    ensures op.kind != "Get" ==> ReplyTo(a, op) == ReplyTo(b, op)
  {
  }

  /** Leaving the compactions out changes no write, no table and no answer. */
  lemma {:induction false} CompactionsInvisible(log: seq<Op>)
    ensures SameButFloor(Run(BOOT, log), Run(BOOT, Shared(log)))
    ensures Answers(BOOT, log) == Answers(BOOT, Shared(log))
  {
    if log != [] {
      var before, op := log[..|log| - 1], log[|log| - 1];
      CompactionsInvisible(before);
      if Local(op) {
        AfterLocal(Run(BOOT, before), op);
        assert Shared(log) == Shared(before);
      } else {
        AfterSame(Run(BOOT, before), Run(BOOT, Shared(before)), op);
        assert Shared(log)[..|Shared(log)| - 1] == Shared(before);
      }
    }
  }

  lemma {:induction false} FloorBounded(log: seq<Op>)
    ensures Run(BOOT, log).floor <= |Run(BOOT, log).writes|
  {
    if log != [] {
      FloorBounded(log[..|log| - 1]);
      FloorStep(Run(BOOT, log[..|log| - 1]), log[|log| - 1]);
    }
  }

  lemma FloorStep(s: State, op: Op)
    requires s.floor <= |s.writes|
    ensures After(s, op).floor <= |After(s, op).writes|
  {
    hide AllRead, Meets;
    if op.kind == "Batch" {
      Longer(s.writes, op.entries);
    } else if op.kind == "Txn" {
      Longer(s.writes, Chosen(s.writes, op));
    }
  }

  lemma {:induction false} Longer(ws: seq<Write>, es: seq<Entry>)
    ensures |AllWritten(ws, es)| >= |ws|
  {
    if es != [] {
      Longer(ws, es[..|es| - 1]);
    }
  }

  /** Replicas of the same entries answer alike every read of the newest version, or of one not below either floor. */
  lemma {:induction false} ReplicasReadAlike(a: seq<Op>, b: seq<Op>, key: string, version: int)
    requires Shared(a) == Shared(b)
    requires version == 0 || (version >= Run(BOOT, a).floor && version >= Run(BOOT, b).floor)
    ensures GetReply(Run(BOOT, a).writes, Run(BOOT, a).floor, key, version) ==
            GetReply(Run(BOOT, b).writes, Run(BOOT, b).floor, key, version)
  {
    CompactionsInvisible(a);
    CompactionsInvisible(b);
    GetAboveFloor(Run(BOOT, a).writes, Run(BOOT, a).floor, key, version);
    GetAboveFloor(Run(BOOT, b).writes, Run(BOOT, b).floor, key, version);
  }

  /** Replicas of the same entries hold the same writes and tables and have given the same answers. */
  lemma {:induction false} ReplicasAgree(a: seq<Op>, b: seq<Op>)
    requires Shared(a) == Shared(b)
    ensures SameButFloor(Run(BOOT, a), Run(BOOT, b))
    ensures Answers(BOOT, a) == Answers(BOOT, b)
    ensures forall key :: Newest(Run(BOOT, a).writes, key) == Newest(Run(BOOT, b).writes, key)
  {
    CompactionsInvisible(a);
    CompactionsInvisible(b);
  }

  // ---- on top of the replicated log ----

  type Decoder = RaftLog.Cmd -> KvServer.Option<Op>

  /** What arrives in however many batches, the first message of a fresh node included, which carries no command. */
  function Flat(batches: seq<seq<KvServer.ApplyMsg>>): seq<KvServer.ApplyMsg> {
    if batches == [] then [] else batches[0] + Flat(batches[1..])
  }

  function Commands(msgs: seq<KvServer.ApplyMsg>): seq<KvServer.ApplyMsg> {
    if msgs == [] then [] else (if msgs[0].valid then [msgs[0]] else []) + Commands(msgs[1..])
  }

  /** The operations the batches apply, each batch up to its first unreadable message. */
  ghost function OpsOf(batches: seq<seq<KvServer.ApplyMsg>>): seq<Op> {
    if batches == [] then [] else KvServer.Ops(batches[0]) + OpsOf(batches[1..])
  }

  /** The batches carry the handed commands, in order. */
  ghost predicate Carry(batches: seq<seq<KvServer.ApplyMsg>>, decode: Decoder, handed: seq<RaftLog.Cmd>) {
    var msgs := Commands(Flat(batches));
    |msgs| == |handed| && forall i :: 0 <= i < |handed| ==> msgs[i].valid && msgs[i].op == decode(handed[i])
  }

  /** The log applied by a node: the operations of its batches, with compactions of its own anywhere in between. */
  ghost predicate Applies(log: seq<Op>, batches: seq<seq<KvServer.ApplyMsg>>, decode: Decoder,
      handed: seq<RaftLog.Cmd>) {
    Carry(batches, decode, handed) && Shared(log) == Shared(OpsOf(batches))
  }

  predicate Decodes(decode: Decoder, handed: seq<RaftLog.Cmd>) {
    forall c :: c in handed ==> decode(c).Some?
  }

  function Decoded(decode: Decoder, handed: seq<RaftLog.Cmd>): seq<Op>
    requires Decodes(decode, handed)
  {
    seq(|handed|, i requires 0 <= i < |handed| => decode(handed[i]).value)
  }

  lemma {:induction false} CommandsConcat(a: seq<KvServer.ApplyMsg>, b: seq<KvServer.ApplyMsg>)
    ensures Commands(a + b) == Commands(a) + Commands(b)
  {
    if a == [] {
      assert a + b == b;
    } else {
      assert (a + b)[1..] == a[1..] + b && (a + b)[0] == a[0];
      CommandsConcat(a[1..], b);
      CommandsFirst(a);
      CommandsFirst(a + b);
      hide Commands;
    }
  }

  lemma CommandsFirst(msgs: seq<KvServer.ApplyMsg>)
    requires msgs != []
    ensures Commands(msgs) == (if msgs[0].valid then [msgs[0]] else []) + Commands(msgs[1..])
  {
  }

  /** If every command of a batch is readable it applies them all. */
  lemma {:induction false} AllOps(msgs: seq<KvServer.ApplyMsg>)
    requires forall m :: m in Commands(msgs) ==> m.op.Some?
    ensures |KvServer.Ops(msgs)| == |Commands(msgs)|
    ensures forall i :: 0 <= i < |Commands(msgs)| ==> Commands(msgs)[i].op == KvServer.Some(KvServer.Ops(msgs)[i])
  {
    if msgs != [] {
      assert msgs[0].valid ==> msgs[0] in Commands(msgs);
      assert forall m :: m in Commands(msgs[1..]) ==> m in Commands(msgs);
      AllOps(msgs[1..]);
    }
  }

  /** Then where the log is cut into batches makes no difference. */
  lemma {:induction false} CutsInvisible(batches: seq<seq<KvServer.ApplyMsg>>)
    requires forall m :: m in Commands(Flat(batches)) ==> m.op.Some?
    ensures |OpsOf(batches)| == |Commands(Flat(batches))|
    ensures forall i :: 0 <= i < |OpsOf(batches)| ==> Commands(Flat(batches))[i].op == KvServer.Some(OpsOf(batches)[i])
  {
    if batches != [] {
      CommandsConcat(batches[0], Flat(batches[1..]));
      assert forall m :: m in Commands(batches[0]) ==> m in Commands(Flat(batches));
      assert forall m :: m in Commands(Flat(batches[1..])) ==> m in Commands(Flat(batches));
      AllOps(batches[0]);
      CutsInvisible(batches[1..]);
    }
  }

  lemma AppliesDecoded(log: seq<Op>, batches: seq<seq<KvServer.ApplyMsg>>, decode: Decoder, handed: seq<RaftLog.Cmd>)
    requires Applies(log, batches, decode, handed) && Decodes(decode, handed)
    ensures Shared(log) == Shared(Decoded(decode, handed))
  {
    CutsInvisible(batches);
    assert OpsOf(batches) == Decoded(decode, handed);
  }

  lemma {:induction false} SharedPrefix(log: seq<Op>, part: seq<Op>)
    requires part <= Shared(log)
    ensures exists n :: 0 <= n <= |log| && Shared(log[..n]) == part
  {
    if part == Shared(log) {
      assert log[..|log|] == log;
    } else {
      var before := log[..|log| - 1];
      assert part <= Shared(before);
      SharedPrefix(before, part);
      var n :| 0 <= n <= |before| && Shared(before[..n]) == part;
      assert log[..n] == before[..n];
    }
  }

  lemma {:induction false} SharedOfPrefix(p: seq<Op>, q: seq<Op>)
    requires p <= q
    ensures Shared(p) <= Shared(q)
  {
    if p != q {
      SharedOfPrefix(p, q[..|q| - 1]);
    } else {
      assert p == q;
    }
  }

  /** End to end: of any two nodes at any two times of a run, however each cuts the log into batches and whatever
    * it compacts by itself, the state and the answers of the one that was handed less are those the other had when
    * it had been handed as much, provided that what was handed can be read. */
  lemma NodesAgree(ss: seq<RaftSystem.Sys>, acts: seq<RaftSystem.Action>, j: nat, k: nat, a: nat, b: nat,
      decode: Decoder, cutA: seq<seq<KvServer.ApplyMsg>>, la: seq<Op>, cutB: seq<seq<KvServer.ApplyMsg>>,
      lb: seq<Op>)
    requires RaftSystem.IsSparingRun(ss, acts) && j < |ss| && k < |ss| && a < |ss[j].applied| && b < |ss[k].applied|
    requires Applies(la, cutA, decode, ss[j].applied[a]) && Applies(lb, cutB, decode, ss[k].applied[b])
    requires |ss[j].applied[a]| <= |ss[k].applied[b]| && Decodes(decode, ss[k].applied[b])
    ensures exists n :: 0 <= n <= |lb| && SameButFloor(Run(BOOT, la), Run(BOOT, lb[..n]))
                        && Answers(BOOT, la) == Answers(BOOT, lb[..n])
  {
    RaftSafety.StateMachineSafety(ss, acts, j, k, a, b);
    hide RaftSystem.IsSparingRun;
    var x, y := ss[j].applied[a], ss[k].applied[b];
    assert x <= y by {
      assert y <= x && |x| <= |y| ==> x == y;
    }
    AppliesDecoded(la, cutA, decode, x);
    AppliesDecoded(lb, cutB, decode, y);
    SharedOfPrefix(Decoded(decode, x), Decoded(decode, y));
    SharedPrefix(lb, Shared(la));
    var n :| 0 <= n <= |lb| && Shared(lb[..n]) == Shared(la);
    ReplicasAgree(la, lb[..n]);
  }
}
