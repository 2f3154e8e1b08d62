/** The server's handlers, proved against what an entry means. */
module KvServer {
  import opened MvccLog
  import opened MvccIndex
  import opened MvccScan
  import opened MvccStore
  import opened KvSpec
  import opened WatchTree

  /** One message of applyCh; no operation means that the bytes did not unmarshal. */
  datatype ApplyMsg = ApplyMsg(index: int, valid: bool, op: Option<Op>)

  datatype Option<T> = None | Some(value: T)

  const DEDUP_KEY := "__dedup__"

  /** The operations a batch of messages applies: those before the first that does not unmarshal. */
  ghost function Ops(msgs: seq<ApplyMsg>): (ops: seq<Op>)
    ensures |ops| <= |msgs|
  {
    if msgs == [] || (msgs[0].valid && msgs[0].op.None?) then []
    else (if msgs[0].valid then [msgs[0].op.value] else []) + Ops(msgs[1..])
  }

  predicate Readable(m: ApplyMsg) {
    m.valid ==> m.op.Some?
  }

  /** One batch or two: the difference is that an unreadable message takes the rest of its own batch with it. */
  lemma {:induction false} SplitVisibleIff(a: seq<ApplyMsg>, b: seq<ApplyMsg>)
    ensures Ops(a + b) == Ops(a) + Ops(b) <==> (forall m :: m in a ==> Readable(m)) || Ops(b) == []
  {
    if a == [] {
      assert a + b == b;
    } else {
      assert (a + b)[1..] == a[1..] + b;
      assert forall m :: m in a <==> m == a[0] || m in a[1..];
      SplitVisibleIff(a[1..], b);
      FirstOp(a);
      FirstOp(a + b);
      hide Ops, Readable;
      if Readable(a[0]) {
        var first := if a[0].valid then [a[0].op.value] else [];
        SameFront(first, Ops(a[1..] + b), Ops(a[1..]) + Ops(b));
        assert first + Ops(a[1..]) + Ops(b) == first + (Ops(a[1..]) + Ops(b));
      }
    }
  }

  lemma FirstOp(msgs: seq<ApplyMsg>)
    requires msgs != []
    ensures Ops(msgs) == if !Readable(msgs[0]) then []
                         else (if msgs[0].valid then [msgs[0].op.value] else []) + Ops(msgs[1..])
  {
  }

  lemma SameFront(f: seq<Op>, x: seq<Op>, y: seq<Op>)
    ensures f + x == f + y <==> x == y
  {
    assert (f + x)[|f|..] == x && (f + y)[|f|..] == y;
  }

  /** The event says what was written at the revision. */
  ghost predicate Reports(e: WatchEvent, w: Write, rev: nat) {
    && e.kind == (if w.deleted then "Delete" else "Put") && e.key == w.key && e.revision == rev
    && (!w.deleted ==> e.value == w.value)
  }

  /** Every write has been notified once, in revision order. */
  ghost predicate Notified(ws: seq<Write>, events: seq<WatchEvent>) {
    |events| == |ws| && forall i :: 0 <= i < |ws| ==> Reports(events[i], ws[i], i + 1)
  }

  lemma NotifiedAppend(ws: seq<Write>, events: seq<WatchEvent>, w: Write, e: WatchEvent)
    requires Notified(ws, events) && Reports(e, w, |ws| + 1)
    ensures Notified(ws + [w], events + [e])
  {
  }

  // ---- the clients that wait for an index ----

  datatype Waiting = Waiting(waitCh: set<int>, getCh: set<int>, txnWaitCh: set<int>)

  predicate Awaited(w: Waiting, op: Op, index: int) {
    if op.kind == "Txn" then index in w.txnWaitCh
    else if op.kind == "Get" then index in w.getCh
    else (op.kind == "Put" || op.kind == "Delete" || op.kind == "Batch" || op.kind == "Compact") && index in w.waitCh
  }

  function Served(w: Waiting, op: Op, index: int): Waiting {
    if op.kind == "Txn" then w.(txnWaitCh := w.txnWaitCh - {index})
    else if op.kind == "Get" then w.(getCh := w.getCh - {index})
    else if op.kind == "Put" || op.kind == "Delete" || op.kind == "Batch"
      || op.kind == "Compact" then w.(waitCh := w.waitCh - {index})
    else w
  }

  /** What a batch sends to the waiting clients. */
  ghost function Sends(s: State, msgs: seq<ApplyMsg>, w: Waiting): seq<(int, Reply)>
    decreases |msgs|
  {
    if msgs == [] || !Readable(msgs[0]) then []
    else if !msgs[0].valid then Sends(s, msgs[1..], w)
    else
      var op := msgs[0].op.value;
      (if Awaited(w, op, msgs[0].index) then [(msgs[0].index, ReplyTo(s, op))] else [])
        + Sends(After(s, op), msgs[1..], Served(w, op, msgs[0].index))
  }

  /** Who still waits after a batch. */
  ghost function Left(msgs: seq<ApplyMsg>, w: Waiting): Waiting
    decreases |msgs|
  {
    if msgs == [] || !Readable(msgs[0]) then w
    else Left(msgs[1..], if msgs[0].valid then Served(w, msgs[0].op.value, msgs[0].index) else w)
  }

  lemma NoMessages(s: State, w: Waiting)
    ensures Ops([]) == [] && Sends(s, [], w) == [] && Left([], w) == w && Run(s, []) == s
  {
  }

  lemma Unreadable(s: State, msgs: seq<ApplyMsg>, w: Waiting)
    requires msgs != [] && !Readable(msgs[0])
    ensures Ops(msgs) == [] && Sends(s, msgs, w) == [] && Left(msgs, w) == w
  {
  }

  lemma Skipped(s: State, msgs: seq<ApplyMsg>, w: Waiting)
    requires msgs != [] && !msgs[0].valid
    ensures Ops(msgs) == Ops(msgs[1..]) && Sends(s, msgs, w) == Sends(s, msgs[1..], w)
    ensures Left(msgs, w) == Left(msgs[1..], w)
  {
  }

  lemma FirstApplied(s: State, msgs: seq<ApplyMsg>, w: Waiting)
    requires msgs != [] && msgs[0].valid && msgs[0].op.Some?
    ensures Ops(msgs) == [msgs[0].op.value] + Ops(msgs[1..])
    ensures var op := msgs[0].op.value;
      Sends(s, msgs, w) == (if Awaited(w, op, msgs[0].index) then [(msgs[0].index, ReplyTo(s, op))] else [])
        + Sends(After(s, op), msgs[1..], Served(w, op, msgs[0].index))
    ensures Left(msgs, w) == Left(msgs[1..], Served(w, msgs[0].op.value, msgs[0].index))
  {
  }

  lemma RunNext(s: State, done: seq<Op>, op: Op)
    ensures Run(s, done + [op]) == After(Run(s, done), op)
  {
    RunConcat(s, done, [op]);
    RunOne(Run(s, done), op);
  }

  /** `x` answers message `n`, in the state the messages before it lead to. */
  ghost predicate Answers(s: State, msgs: seq<ApplyMsg>, x: (int, Reply), n: nat) {
    && n < |msgs| && msgs[n].valid && msgs[n].op.Some? && msgs[n].index == x.0
    && (forall j :: 0 <= j < n ==> Readable(msgs[j]))
    && x.1 == ReplyTo(Run(s, Ops(msgs[..n])), msgs[n].op.value)
  }

  lemma AnswersLater(s: State, s': State, msgs: seq<ApplyMsg>, x: (int, Reply), n: nat)
    requires msgs != [] && Readable(msgs[0]) && Answers(s', msgs[1..], x, n)
    requires s' == if msgs[0].valid then After(s, msgs[0].op.value) else s
    ensures Answers(s, msgs, x, n + 1)
  {
    hide After, ReplyTo;
    var m, rest := msgs[0], msgs[1..];
    var first := if m.valid then [m.op.value] else [];
    assert msgs[..n + 1] == [m] + rest[..n] && (msgs[..n + 1])[1..] == rest[..n];
    assert Ops(msgs[..n + 1]) == first + Ops(rest[..n]);
    RunConcat(s, first, Ops(rest[..n]));
    if m.valid {
      RunOne(s, m.op.value);
    }
  }

  /** What a client is sent is the answer to the entry at the index it waits for. */
  lemma {:induction false} SendsAnswer(s: State, msgs: seq<ApplyMsg>, w: Waiting, x: (int, Reply))
    requires x in Sends(s, msgs, w)
    ensures x.0 in w.waitCh + w.getCh + w.txnWaitCh
    ensures exists n: nat :: Answers(s, msgs, x, n)
    decreases |msgs|
  {
    var m, rest := msgs[0], msgs[1..];
    var s' := if m.valid then After(s, m.op.value) else s;
    var w' := if m.valid then Served(w, m.op.value, m.index) else w;
    hide After, ReplyTo;
    if m.valid && Awaited(w, m.op.value, m.index) && x == (m.index, ReplyTo(s, m.op.value)) {
      assert Ops(msgs[..0]) == [];
      assert Answers(s, msgs, x, 0);
    } else {
      SendsAnswer(s', rest, w', x);
      var n: nat :| Answers(s', rest, x, n);
      AnswersLater(s, s', msgs, x, n);
    }
  }

  /** The tables agree about all other clients. */
  ghost predicate Elsewhere<V>(k: int, a: map<int, V>, b: map<int, V>, any: V) {
    a[k := any] == b[k := any]
  }

  lemma Overwritten<V>(a: map<int, V>, b: map<int, V>, k: int, x: V, y: V)
    requires Elsewhere(k, a, b, x)
    ensures a[k := y] == b[k := y]
  {
    assert a[k := x][k := y] == a[k := y];
    assert b[k := x][k := y] == b[k := y];
  }

  class KvServer {
    const mvcc: Mvcc
    var lastRequest: map<int, int>
    var lastResult: map<int, Result>
    var lastTxnResult: map<int, TxnResult>
    var saved: Tables
    var lastApplied: int
    var waiting: Waiting
    var sent: seq<(int, Reply)>
    var events: seq<WatchEvent>
    var compactVersion: int

    ghost predicate Valid()
      reads this, mvcc
    {
      mvcc.Valid() && saved == Memory() && Notified(mvcc.writes, events)
    }

    function Memory(): Tables
      reads this
    {
      Tables(lastRequest, lastResult, lastTxnResult)
    }

    ghost function State(): State
      reads this, mvcc
    {
      KvSpec.State(mvcc.writes, mvcc.floor, Memory())
    }

    constructor ()
      ensures Valid() && State() == BOOT && fresh(mvcc)
    {
      mvcc := new Mvcc();
      lastRequest, lastResult, lastTxnResult, lastApplied := map[], map[], map[], 0;
      saved, waiting, sent, events := EMPTY, Waiting({}, {}, {}), [], [];
    }

    method PersistDedup()
      requires mvcc.Valid() && Notified(mvcc.writes, events)
      modifies this`saved, mvcc`store
      ensures Valid() && State() == old(State())
    {
      mvcc.RawPut(DEDUP_KEY, Value("", 0, false));
      saved := Memory();
    }

    method PutInternal(key: string, value: string, expected: int) returns (r: Result)
      requires mvcc.Valid() && Notified(mvcc.writes, events)
      modifies this`events, mvcc
      ensures Notified(mvcc.writes, events) && old(events) <= events
      ensures mvcc.Valid() && mvcc.floor == old(mvcc.floor)
      ensures (mvcc.writes, r) == PutOn(old(mvcc.writes), key, value, expected)
    {
      hide Notified, HistoryOk, StoreOk, RevisionsOk, LatestOk;
      var ok, rev := mvcc.PutWithCAS(key, value, expected);
      if !ok {
        var latestRev, _ := mvcc.GetLatest(key);
        return Result("", latestRev, WRONG_VERSION);
      }
      var event := WatchEvent("Put", key, value, rev);
      NotifiedAppend(old(mvcc.writes), events, Write(key, value, false), event);
      events := events + [event];
      return Result("", rev, OK);
    }

    method DeleteInternal(key: string, value: string) returns (r: Result)
      requires mvcc.Valid() && Notified(mvcc.writes, events)
      modifies this`events, mvcc
      ensures Notified(mvcc.writes, events) && old(events) <= events
      ensures mvcc.Valid() && mvcc.floor == old(mvcc.floor)
      ensures mvcc.writes == DeleteOn(old(mvcc.writes), key) && r == Result("", |mvcc.writes|, OK)
    {
      hide Notified, HistoryOk, StoreOk, RevisionsOk, LatestOk;
      var rev := mvcc.Delete(key);
      var event := WatchEvent("Delete", key, value, rev);
      NotifiedAppend(old(mvcc.writes), events, Write(key, "", true), event);
      events := events + [event];
      return Result("", rev, OK);
    }

    method GetInternal(key: string, version: int) returns (r: Result)
      requires mvcc.Valid()
      ensures r == GetReply(mvcc.writes, mvcc.floor, key, version)
    {
      var g := mvcc.Get(key, version);
      match g
      case Found(value, rev) => return Result(value, rev, OK);
      case KeyNotFound => return Result("", 0, KEY_NOT_EXIST);
      case VersionNotFound => return Result("", 0, KEY_NOT_EXIST);
    }

    method HandleGet(op: Op) returns (r: Result)
      requires Valid() && op.kind == "Get"
      ensures Plain(r) == ReplyTo(State(), op) && After(State(), op) == State()
    {
      r := GetInternal(op.key, op.expectedVersion);
    }

    method HandlePut(op: Op) returns (r: Result)
      requires Valid() && op.kind == "Put"
      modifies this`lastRequest, this`lastResult, this`saved, this`events, mvcc
      ensures Valid() && State() == After(old(State()), op) && Plain(r) == ReplyTo(old(State()), op)
      ensures old(events) <= events
    {
      hide Notified, HistoryOk, StoreOk, RevisionsOk, LatestOk, Newest, Meets;
      var last := if op.clientId in lastRequest then lastRequest[op.clientId] else 0;
      if op.requestId <= last {
        return if op.clientId in lastResult then lastResult[op.clientId] else Result("", 0, OK);
      }
      r := PutInternal(op.key, op.value, op.expectedVersion);
      lastRequest := lastRequest[op.clientId := op.requestId];
      lastResult := lastResult[op.clientId := r];
      PersistDedup();
    }

    method HandleDelete(op: Op) returns (r: Result)
      requires Valid() && op.kind == "Delete"
      modifies this`lastRequest, this`lastResult, this`saved, this`events, mvcc
      ensures Valid() && State() == After(old(State()), op) && Plain(r) == ReplyTo(old(State()), op)
      ensures old(events) <= events
    {
      hide Notified, HistoryOk, StoreOk, RevisionsOk, LatestOk, Newest, Meets;
      var last := if op.clientId in lastRequest then lastRequest[op.clientId] else 0;
      if op.requestId <= last {
        return if op.clientId in lastResult then lastResult[op.clientId] else Result("", 0, OK);
      }
      r := DeleteInternal(op.key, op.value);
      lastRequest := lastRequest[op.clientId := op.requestId];
      lastResult := lastResult[op.clientId := r];
      PersistDedup();
    }

    /** The sub-requests numbered from `requestId + 1` all execute, and leave nothing behind in the tables. */
    method HandleBatch(op: Op) returns (r: Result)
      requires Valid() && op.kind == "Batch"
      modifies this`lastRequest, this`lastResult, this`saved, this`events, mvcc
      ensures Valid() && State() == After(old(State()), op) && Plain(r) == ReplyTo(old(State()), op)
      ensures old(events) <= events
    {
      hide Notified, HistoryOk, StoreOk, RevisionsOk, LatestOk, Newest, Meets;
      var last := if op.clientId in lastRequest then lastRequest[op.clientId] else 0;
      if op.requestId <= last {
        return if op.clientId in lastResult then lastResult[op.clientId] else Result("", 0, OK);
      }
      for i := 0 to |op.entries|
        invariant Valid() && mvcc.floor == old(mvcc.floor) && old(events) <= events
        invariant mvcc.writes == AllWritten(old(mvcc.writes), op.entries[..i])
        invariant Last(Memory(), op.clientId) <= op.requestId + i
        invariant Elsewhere(op.clientId, lastRequest, old(lastRequest), 0)
        invariant Elsewhere(op.clientId, lastResult, old(lastResult), Result("", 0, OK))
      {
        SubRequest(op.entries[i], op.clientId, op.requestId + i + 1);
        assert op.entries[..i + 1][..i] == op.entries[..i];
      }
      assert op.entries[..|op.entries|] == op.entries;
      Overwritten(lastRequest, old(lastRequest), op.clientId, 0, op.requestId);
      Overwritten(lastResult, old(lastResult), op.clientId, Result("", 0, OK), Result("", mvcc.currentRev, OK));
      lastRequest := lastRequest[op.clientId := op.requestId];
      r := Result("", mvcc.currentRev, OK);
      lastResult := lastResult[op.clientId := r];
      PersistDedup();
    }

    /** One entry of a batch as a request of its own, with a number not used before. */
    method SubRequest(entry: Entry, clientId: int, requestId: int)
      requires Valid() && Last(Memory(), clientId) < requestId
      modifies this`lastRequest, this`lastResult, this`saved, this`events, mvcc
      ensures Valid() && mvcc.floor == old(mvcc.floor) && old(events) <= events
      ensures mvcc.writes == Written(old(mvcc.writes), entry)
      ensures Last(Memory(), clientId) <= requestId
      ensures Elsewhere(clientId, lastRequest, old(lastRequest), 0)
      ensures Elsewhere(clientId, lastResult, old(lastResult), Result("", 0, OK))
    {
      hide Notified, HistoryOk, StoreOk, RevisionsOk, LatestOk, Newest;
      var subOp := Op(entry.kind, entry.key, entry.value, clientId, requestId, 0, [], [], [], []);
      if entry.kind == "Put" {
        var _ := HandlePut(subOp);
      } else if entry.kind == "Delete" {
        var _ := HandleDelete(subOp);
      }
    }

    method ExpireByKey(op: Op)
      requires Valid() && op.kind == "Expire"
      modifies this`events, mvcc
      ensures Valid() && State() == After(old(State()), op) && old(events) <= events
    {
      hide Notified, HistoryOk, StoreOk, RevisionsOk, LatestOk;
      var rev := mvcc.Delete(op.key);
      var event := WatchEvent("Delete", op.key, "", rev);
      NotifiedAppend(old(mvcc.writes), events, Write(op.key, "", true), event);
      events := events + [event];
    }

    method HandleTxn(op: Op) returns (r: TxnResult)
      requires Valid() && op.kind == "Txn"
      modifies this`lastRequest, this`lastTxnResult, this`saved, this`events, mvcc
      ensures Valid() && State() == After(old(State()), op) && OfTxn(r) == ReplyTo(old(State()), op)
      ensures old(events) <= events
    {
      hide Notified, HistoryOk, StoreOk, RevisionsOk, LatestOk, Newest, Meets;
      var last := if op.clientId in lastRequest then lastRequest[op.clientId] else 0;
      if op.requestId <= last {
        return if op.clientId in lastTxnResult then lastTxnResult[op.clientId] else TxnResult(false, [], 0, OK);
      }
      var success := CompareAll(op.compares);
      var results := ExecuteEntries(if success then op.successEntries else op.failedEntries);
      r := TxnResult(success, results, mvcc.currentRev, OK);
      lastRequest := lastRequest[op.clientId := op.requestId];
      lastTxnResult := lastTxnResult[op.clientId := r];
      PersistDedup();
    }

    method CompareAll(compares: seq<Compare>) returns (all: bool)
      requires mvcc.Valid()
      ensures all <==> forall c :: c in compares ==> Meets(mvcc.writes, c)
    {
      for i := 0 to |compares|
        invariant forall c :: c in compares[..i] ==> Meets(mvcc.writes, c)
      {
        var ok := Compare(compares[i]);
        if !ok {
          return false;
        }
      }
      return true;
    }

    method Compare(c: KvSpec.Compare) returns (ok: bool)
      requires mvcc.Valid()
      ensures ok <==> Meets(mvcc.writes, c)
    {
      var revision, found := mvcc.GetLatest(c.key);
      if !found {
        revision := 0;
      }
      match c.how
      case EQUAL => return revision == c.version;
      case GREATER => return revision > c.version;
      case LESS => return revision < c.version;
      case NOT_EQUAL => return revision != c.version;
      case UNKNOWN(_) => return false;
    }

    method ExecuteEntries(entries: seq<Entry>) returns (results: seq<KeyValue>)
      requires mvcc.Valid() && Notified(mvcc.writes, events)
      modifies this`events, mvcc
      ensures Notified(mvcc.writes, events) && old(events) <= events
      ensures mvcc.Valid() && mvcc.floor == old(mvcc.floor)
      ensures mvcc.writes == AllWritten(old(mvcc.writes), entries)
      ensures results == AllRead(old(mvcc.writes), entries)
    {
      hide Notified, HistoryOk, StoreOk, RevisionsOk, LatestOk;
      results := [];
      for i := 0 to |entries|
        invariant mvcc.Valid() && mvcc.floor == old(mvcc.floor)
        invariant Notified(mvcc.writes, events) && old(events) <= events
        invariant mvcc.writes == AllWritten(old(mvcc.writes), entries[..i])
        invariant results == AllRead(old(mvcc.writes), entries[..i])
      {
        var entry := entries[i];
        if entry.kind == "Get" {
          var res := GetInternal(entry.key, 0);
          if res.err == OK {
            results := results + [KeyValue(entry.key, res.value, res.version)];
          }
        } else if entry.kind == "Put" {
          var _ := PutInternal(entry.key, entry.value, 0);
        } else if entry.kind == "Delete" {
          var _ := DeleteInternal(entry.key, entry.value);
        }
        assert entries[..i + 1][..i] == entries[..i];
      }
      assert entries[..|entries|] == entries;
    }

    method HandleCompact(op: Op) returns (r: Result)
      requires Valid() && op.kind == "Compact"
      modifies this`compactVersion, mvcc
      ensures Valid() && State() == After(old(State()), op) && Plain(r) == ReplyTo(old(State()), op)
      ensures compactVersion == op.expectedVersion
      ensures old(events) <= events
    {
      mvcc.Compact(op.expectedVersion);
      compactVersion := op.expectedVersion;
      return Result("", 0, OK);
    }

    /** Sends a reply to the client that waits for this index, if there is one. */
    method Answer(op: Op, index: int, reply: Reply)
      modifies this`waiting, this`sent
      ensures waiting == Served(old(waiting), op, index)
      ensures sent == old(sent) + if Awaited(old(waiting), op, index) then [(index, reply)] else []
    {
      if Awaited(waiting, op, index) {
        sent := sent + [(index, reply)];
      }
      waiting := Served(waiting, op, index);
    }

    method Apply(op: Op, index: int)
      requires Valid()
      modifies this, mvcc
      ensures Valid() && State() == After(old(State()), op) && lastApplied == old(lastApplied) && old(events) <= events
      ensures waiting == Served(old(waiting), op, index)
      ensures sent == old(sent) + if Awaited(old(waiting), op, index) then [(index, ReplyTo(old(State()), op))] else []
    {
      hide Notified, HistoryOk, StoreOk, RevisionsOk, LatestOk, Execute;
      if op.kind == "Put" {
        var r := HandlePut(op);
        Answer(op, index, Plain(r));
      } else if op.kind == "Get" {
        if index in waiting.getCh {
          var r := HandleGet(op);
          sent := sent + [(index, Plain(r))];
        }
        waiting := Served(waiting, op, index);
      } else if op.kind == "Delete" {
        var r := HandleDelete(op);
        Answer(op, index, Plain(r));
      } else if op.kind == "Batch" {
        var r := HandleBatch(op);
        Answer(op, index, Plain(r));
      } else if op.kind == "Expire" {
        ExpireByKey(op);
      } else if op.kind == "Compact" {
        var r := HandleCompact(op);
        Answer(op, index, Plain(r));
      } else if op.kind == "Txn" {
        var r := HandleTxn(op);
        Answer(op, index, OfTxn(r));
      }
    }

    /** Applies messages up to the first that does not unmarshal. */
    method ApplyBatch(msgs: seq<ApplyMsg>)
      requires Valid()
      modifies this, mvcc
      ensures Valid() && State() == Run(old(State()), Ops(msgs)) && old(events) <= events
      ensures sent == old(sent) + Sends(old(State()), msgs, old(waiting)) && waiting == Left(msgs, old(waiting))
    {
      hide Notified, HistoryOk, StoreOk, RevisionsOk, LatestOk, After, ReplyTo, Served, Awaited, Ops, Sends, Left,
        Run;
      ghost var done: seq<Op> := [];
      NoMessages(State(), waiting);
      for i := 0 to |msgs|
        invariant Valid() && State() == Run(old(State()), done) && old(events) <= events
        invariant Ops(msgs) == done + Ops(msgs[i..])
        invariant old(sent) + Sends(old(State()), msgs, old(waiting)) == sent + Sends(State(), msgs[i..], waiting)
        invariant Left(msgs, old(waiting)) == Left(msgs[i..], waiting)
      {
        var m := msgs[i];
        assert msgs[i..][0] == m && msgs[i..][1..] == msgs[i + 1..];
        lastApplied := m.index;
        if m.valid {
          if m.op.None? {
            Unreadable(State(), msgs[i..], waiting);
            assert done + [] == done;
            return;
          }
          FirstApplied(State(), msgs[i..], waiting);
          RunNext(old(State()), done, m.op.value);
          Apply(m.op.value, m.index);
          done := done + [m.op.value];
        } else {
          Skipped(State(), msgs[i..], waiting);
        }
      }
      NoMessages(State(), waiting);
      assert done + [] == done;
    }
  }
}
