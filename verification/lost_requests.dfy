/** Requests that are lost and yet answered: the entry at the awaited index is another client's. */
module LostRequests {
  import opened RaftLog
  import opened RaftSystem
  import opened KvSpec
  import opened KvServer
  import opened LockSpec
  import opened LockManager
  import opened MvccLog
  import opened MvccIndex
  import opened MvccStore
  import KvReplicas
  import RaftHandlers
  import RaftHazards

  /** The request found at the index succeeds on a fresh server, whatever resource it is for. */
  lemma OthersAnswer(req: LockRequest, other: LockRequest)
    requires other.requestId > 0 && LockKey(req) != LockKey(other)
    ensures Fresh(BOOT, other) && Sent(BOOT, LockTxn(other)) == TxnResult(true, [], 1, OK)
    ensures GoesAhead(BOOT, req.resource, LockTxn(other))
    ensures Newest(After(BOOT, LockTxn(other)).writes, LockKey(req)) == 0
  {
    LockEffect(BOOT, LockKey(other), other.leaseId, other.clientId, other.requestId);
    hide After, ReplyTo, GenerateLockKey;
    assert Ahead(After(BOOT, LockTxn(other)).writes, req.resource, 1) == {};
  }

  /**
   * An in-order run in which a node that was leader of term 1 with one client's lock request at index 1 hands over
   * another's lock request there: whoever waits at the index is sent that one's success, and goes ahead with it,
   * while the own key was never written.
   */
  lemma LostLockGranted(req: LockRequest, other: LockRequest, decode: KvReplicas.Decoder, c: Cmd, d: Cmd)
    returns (ss: seq<Sys>, acts: seq<Action>, j: nat)
    requires other.requestId > 0 && LockKey(req) != LockKey(other)
    requires decode(c) == Some(LockTxn(req)) && decode(d) == Some(LockTxn(other))
    ensures IsFifoRun(ss, acts) && |ss| == |acts| + 1 && j < |ss| && |ss[j].nodes| == 3
    ensures ss[j].nodes[0].role == RaftHandlers.Leader && ss[j].nodes[0].log == [DUMMY, RaftLog.Entry(1, c)]
    ensures |ss[|acts|].applied| == 3 && ss[|acts|].applied[0] == [d]
    ensures var batch := [ApplyMsg(1, true, decode(d))];
      && KvReplicas.Applies([LockTxn(other)], [batch], decode, ss[|acts|].applied[0])
      && Sends(BOOT, batch, Waiting({}, {}, {1})) == [(1, OfTxn(Sent(BOOT, LockTxn(other))))]
    ensures GoesAhead(BOOT, req.resource, LockTxn(other))
    ensures Newest(After(BOOT, LockTxn(other)).writes, LockKey(req)) == 0
  {
    hide IsFifoRun, After, ReplyTo, GoesAhead;
    ss, acts, j := RaftHazards.OtherCommandHandedOver(c, d);
    OthersAnswer(req, other);
    OneMessage(decode, d, LockTxn(other), Waiting({}, {}, {1}));
    TxnReply(BOOT, LockTxn(other));
  }

  lemma OneMessage(decode: KvReplicas.Decoder, d: Cmd, op: Op, w: Waiting)
    requires decode(d) == Some(op) && Awaited(w, op, 1) && !KvReplicas.Local(op)
    ensures var batch := [ApplyMsg(1, true, decode(d))];
      KvReplicas.Applies([op], [batch], decode, [d]) && Sends(BOOT, batch, w) == [(1, ReplyTo(BOOT, op))]
  {
    hide After, ReplyTo;
    var batch := [ApplyMsg(1, true, decode(d))];
    var batches: seq<seq<ApplyMsg>> := [batch];
    assert batches[1..] == [] && batch[1..] == [];
    assert KvReplicas.Flat(batches) == batch && KvReplicas.OpsOf(batches) == [op];
    assert KvReplicas.Commands(batch) == batch;
  }

  /** The same run for two Puts: who waits for the first is told OK for the second, and the own key has no write. */
  lemma LostPutConfirmed(own: Op, other: Op, decode: KvReplicas.Decoder, c: Cmd, d: Cmd)
    returns (ss: seq<Sys>, acts: seq<Action>, j: nat)
    requires own.kind == other.kind == "Put" && own.key != other.key && other.requestId > 0
    requires other.expectedVersion == 0 && decode(c) == Some(own) && decode(d) == Some(other)
    ensures IsFifoRun(ss, acts) && |ss| == |acts| + 1 && j < |ss| && |ss[j].nodes| == 3
    ensures ss[j].nodes[0].role == RaftHandlers.Leader && ss[j].nodes[0].log == [DUMMY, RaftLog.Entry(1, c)]
    ensures |ss[|acts|].applied| == 3 && ss[|acts|].applied[0] == [d]
    ensures var batch := [ApplyMsg(1, true, decode(d))];
      && KvReplicas.Applies([other], [batch], decode, ss[|acts|].applied[0])
      && Sends(BOOT, batch, Waiting({1}, {}, {})) == [(1, Plain(Result("", 1, OK)))]
    ensures Newest(After(BOOT, other).writes, own.key) == 0
  {
    hide IsFifoRun;
    ss, acts, j := RaftHazards.OtherCommandHandedOver(c, d);
    OneMessage(decode, d, other, Waiting({1}, {}, {}));
    assert After(BOOT, other).writes == [Write(other.key, other.value, false)];
  }

  lemma BootReady(other: LockRequest)
    ensures OncePut(BOOT.writes) && Bounded(BOOT) && Orderly(LockTxn(other))
    ensures Run(BOOT, []) == BOOT && Run(After(BOOT, LockTxn(other)), []) == After(BOOT, LockTxn(other))
  {
  }

  /** The same on the server itself: the request is granted. */
  method GrantedWithoutKey(req: LockRequest, other: LockRequest, wired: bool)
    returns (server: KvServer, reply: Option<LockReply>)
    requires other.requestId > 0 && LockKey(req) != LockKey(other)
    ensures reply == Some(LockReply(true, 1, GRANTED))
    ensures Newest(server.mvcc.writes, LockKey(req)) == 0
  {
    hide HistoryOk, StoreOk, RevisionsOk, LatestOk, Run, After, ReplyTo, Newest, OncePut, Orderly, Notified, Bounded,
      Created, Holds, Ahead, Passed, Fresh, Sent, LockTxn, LockKey, GoesAhead;
    server := new KvServer();
    OthersAnswer(req, other);
    BootReady(other);
    var rest;
    reply, rest := Lock(server, wired, true, req, 1, true, [], LockTxn(other), [], _ => 0);
  }
}
