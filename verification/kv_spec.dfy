/** What applying one log entry means, over the plain write log and the tables of answered requests. */
module KvSpec {
  import opened MvccLog
  import opened MvccScan

  datatype Error = OK | KEY_NOT_EXIST | WRONG_VERSION

  datatype CompareType = LESS | GREATER | EQUAL | NOT_EQUAL | UNKNOWN(code: int)

  datatype Compare = Compare(key: string, how: CompareType, version: int)

  datatype Entry = Entry(kind: string, key: string, value: string)

  datatype Op = Op(
    kind: string, key: string, value: string, clientId: int, requestId: int, expectedVersion: int,
    entries: seq<Entry>, compares: seq<Compare>, successEntries: seq<Entry>, failedEntries: seq<Entry>)

  datatype Result = Result(value: string, version: nat, err: Error)

  datatype TxnResult = TxnResult(succeeded: bool, results: seq<KeyValue>, version: nat, err: Error)

  datatype Reply = Plain(result: Result) | OfTxn(txn: TxnResult) | Silent

  /** The answer to each client's latest request. */
  datatype Tables = Tables(lastRequest: map<int, int>, lastResult: map<int, Result>, lastTxnResult: map<int, TxnResult>)

  datatype State = State(writes: seq<Write>, floor: nat, tables: Tables)

  const EMPTY := Tables(map[], map[], map[])

  const BOOT := State([], 0, EMPTY)

  // ---- the tables; an absent entry reads as the zero value ----

  function Last(t: Tables, client: int): int {
    if client in t.lastRequest then t.lastRequest[client] else 0
  }

  function Recorded(t: Tables, op: Op): Reply {
    if op.kind == "Txn" then
      OfTxn(if op.clientId in t.lastTxnResult then t.lastTxnResult[op.clientId] else TxnResult(false, [], 0, OK))
    else
      Plain(if op.clientId in t.lastResult then t.lastResult[op.clientId] else Result("", 0, OK))
  }

  function Record(t: Tables, op: Op, reply: Reply): Tables {
    Tables(
      t.lastRequest[op.clientId := op.requestId],
      if reply.Plain? then t.lastResult[op.clientId := reply.result] else t.lastResult,
      if reply.OfTxn? then t.lastTxnResult[op.clientId := reply.txn] else t.lastTxnResult)
  }

  // ---- executing, without looking at the tables ----

  ghost function PutOn(ws: seq<Write>, key: string, value: string, expected: int): (seq<Write>, Result) {
    if expected != 0 && expected != Newest(ws, key) then (ws, Result("", Newest(ws, key), WRONG_VERSION))
    else (ws + [Write(key, value, false)], Result("", |ws| + 1, OK))
  }

  function DeleteOn(ws: seq<Write>, key: string): seq<Write> {
    ws + [Write(key, "", true)]
  }

  function Written(ws: seq<Write>, e: Entry): seq<Write> {
    if e.kind == "Put" then ws + [Write(e.key, e.value, false)]
    else if e.kind == "Delete" then DeleteOn(ws, e.key)
    else ws
  }

  /** Every entry of a list executed in turn. */
  function AllWritten(ws: seq<Write>, es: seq<Entry>): seq<Write> {
    if es == [] then ws else Written(AllWritten(ws, es[..|es| - 1]), es[|es| - 1])
  }

  ghost function Read(ws: seq<Write>, e: Entry): seq<KeyValue> {
    var g := IdealGet(ws, e.key, 0);
    if e.kind == "Get" && g.Found? then [KeyValue(e.key, g.value, g.version)] else []
  }

  /** What the reads among the entries see, each after the writes before it. */
  ghost function AllRead(ws: seq<Write>, es: seq<Entry>): seq<KeyValue> {
    if es == [] then []
    else AllRead(ws, es[..|es| - 1]) + Read(AllWritten(ws, es[..|es| - 1]), es[|es| - 1])
  }

  ghost predicate Meets(ws: seq<Write>, c: Compare) {
    match c.how
    case EQUAL => Newest(ws, c.key) == c.version
    case GREATER => Newest(ws, c.key) > c.version
    case LESS => Newest(ws, c.key) < c.version
    case NOT_EQUAL => Newest(ws, c.key) != c.version
    case UNKNOWN(_) => false
  }

  ghost function Chosen(ws: seq<Write>, op: Op): seq<Entry> {
    if forall c :: c in op.compares ==> Meets(ws, c) then op.successEntries else op.failedEntries
  }

  ghost function TxnOn(ws: seq<Write>, op: Op): (seq<Write>, TxnResult) {
    var es := Chosen(ws, op);
    var after := AllWritten(ws, es);
    (after, TxnResult(forall c :: c in op.compares ==> Meets(ws, c), AllRead(ws, es), |after|, OK))
  }

  predicate Deduped(op: Op) {
    op.kind == "Put" || op.kind == "Delete" || op.kind == "Batch" || op.kind == "Txn"
  }

  ghost function Execute(ws: seq<Write>, op: Op): (seq<Write>, Reply)
    requires Deduped(op)
  {
    if op.kind == "Put" then
      var (after, r) := PutOn(ws, op.key, op.value, op.expectedVersion);
      (after, Plain(r))
    else if op.kind == "Delete" then (DeleteOn(ws, op.key), Plain(Result("", |ws| + 1, OK)))
    else if op.kind == "Batch" then
      var after := AllWritten(ws, op.entries);
      (after, Plain(Result("", |after|, OK)))
    else
      var (after, r) := TxnOn(ws, op);
      (after, OfTxn(r))
  }

  // ---- one entry of the log ----

  ghost function GetReply(ws: seq<Write>, floor: nat, key: string, version: int): Result {
    var g := GetAt(ws, floor, key, version);
    if g.Found? then Result(g.value, g.version, OK) else Result("", 0, KEY_NOT_EXIST)
  }

  ghost function After(s: State, op: Op): State {
    if Deduped(op) then
      if op.requestId <= Last(s.tables, op.clientId) then s
      else
        var (ws, reply) := Execute(s.writes, op);
        State(ws, s.floor, Record(s.tables, op, reply))
    else if op.kind == "Expire" then s.(writes := DeleteOn(s.writes, op.key))
    else if op.kind == "Compact" then s.(floor := Raised(s.floor, op.expectedVersion, |s.writes|))
    else s
  }

  ghost function ReplyTo(s: State, op: Op): Reply {
    if Deduped(op) then
      if op.requestId <= Last(s.tables, op.clientId) then Recorded(s.tables, op)
      else Execute(s.writes, op).1
    else if op.kind == "Get" then Plain(GetReply(s.writes, s.floor, op.key, op.expectedVersion))
    else if op.kind == "Compact" then Plain(Result("", 0, OK))
    else Silent
  }

  /** A whole log, from the start. */
  ghost function Run(s: State, log: seq<Op>): State {
    if log == [] then s else After(Run(s, log[..|log| - 1]), log[|log| - 1])
  }

  lemma {:induction false} RunConcat(s: State, a: seq<Op>, b: seq<Op>)
    ensures Run(s, a + b) == Run(Run(s, a), b)
  {
    if b == [] {
      assert a + b == a;
    } else {
      assert (a + b)[..|a + b| - 1] == a + b[..|b| - 1];
      RunConcat(s, a, b[..|b| - 1]);
    }
  }

  lemma RunOne(s: State, op: Op)
    ensures Run(s, [op]) == After(s, op)
  {
    assert [op][..0] == [];
    assert Run(s, []) == s;
  }
}
