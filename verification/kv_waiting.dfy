/** Clients that wait: whoever waits for an entry that is applied is answered, once, and watchers are told all. */
module KvWaiting {
  import opened MvccLog
  import opened KvSpec
  import opened KvServer
  import opened KvAnswers
  import opened WatchTree

  datatype Channel = WAIT | GET | TXN | NONE

  /** Where the answer to an entry of this kind goes. */
  function ChannelOf(kind: string): Channel {
    match kind
    case "Put" => WAIT
    case "Delete" => WAIT
    case "Batch" => WAIT
    case "Compact" => WAIT
    case "Get" => GET
    case "Txn" => TXN
    case _ => NONE
  }

  predicate Waits(w: Waiting, ch: Channel, index: int) {
    match ch
    case WAIT => index in w.waitCh
    case GET => index in w.getCh
    case TXN => index in w.txnWaitCh
    case NONE => false
  }

  /** The batch gets as far as message `n`, which carries an entry. */
  ghost predicate Reaches(msgs: seq<ApplyMsg>, n: nat) {
    n < |msgs| && msgs[n].valid && forall j :: 0 <= j <= n ==> Readable(msgs[j])
  }

  /** Message `n` is reached, and its answer goes to whoever waits for this index there. */
  ghost predicate Claims(msgs: seq<ApplyMsg>, n: nat, ch: Channel, index: int) {
    Reaches(msgs, n) && msgs[n].index == index && ChannelOf(msgs[n].op.value.kind) == ch
  }

  /** The state that message `n` meets. */
  ghost function Before(s: State, msgs: seq<ApplyMsg>, n: nat): State
    requires n <= |msgs|
  {
    Run(s, Ops(msgs[..n]))
  }

  lemma AwaitedIff(w: Waiting, op: Op, index: int)
    ensures Awaited(w, op, index) <==> Waits(w, ChannelOf(op.kind), index)
  {
  }

  lemma ServedIff(w: Waiting, op: Op, index: int, ch: Channel, x: int)
    ensures Waits(Served(w, op, index), ch, x) <==> Waits(w, ch, x) && !(ch == ChannelOf(op.kind) && x == index)
  {
  }

  lemma ReachesTail(msgs: seq<ApplyMsg>, n: nat)
    requires msgs != [] && n > 0
    ensures Reaches(msgs, n) <==> Readable(msgs[0]) && Reaches(msgs[1..], n - 1)
  {
    assert n < |msgs| ==> msgs[n] == msgs[1..][n - 1];
    assert forall j :: 0 <= j < |msgs| - 1 ==> msgs[1..][j] == msgs[j + 1];
  }

  lemma BeforeTail(s: State, msgs: seq<ApplyMsg>, n: nat)
    requires msgs != [] && 0 < n <= |msgs| && Readable(msgs[0])
    ensures Before(s, msgs, n) == Before(if msgs[0].valid then After(s, msgs[0].op.value) else s, msgs[1..], n - 1)
  {
    hide After;
    var m := msgs[0];
    var first := if m.valid then [m.op.value] else [];
    assert msgs[..n][1..] == msgs[1..][..n - 1];
    assert Ops(msgs[..n]) == first + Ops(msgs[1..][..n - 1]);
    RunConcat(s, first, Ops(msgs[1..][..n - 1]));
    if m.valid {
      RunOne(s, m.op.value);
    }
  }

  /** Whoever waits for the index of an entry that is reached, and was not served by an earlier entry of that index, is
    * sent the answer to it. */
  lemma {:induction false} WaiterAnswered(s: State, msgs: seq<ApplyMsg>, w: Waiting, n: nat)
    requires Reaches(msgs, n) && Waits(w, ChannelOf(msgs[n].op.value.kind), msgs[n].index)
    requires forall j: nat :: j < n ==> !Claims(msgs, j, ChannelOf(msgs[n].op.value.kind), msgs[n].index)
    ensures (msgs[n].index, ReplyTo(Before(s, msgs, n), msgs[n].op.value)) in Sends(s, msgs, w)
    decreases n
  {
    hide ReplyTo, After, Awaited, Served, Waits, ChannelOf, Run;
    var m, rest := msgs[0], msgs[1..];
    var op, index := msgs[n].op.value, msgs[n].index;
    if n == 0 {
      AwaitedIff(w, op, index);
      NoMessages(s, w);
      FirstApplied(s, msgs, w);
      assert msgs[..0] == [];
    } else {
      ReachesTail(msgs, n);
      BeforeTail(s, msgs, n);
      forall j: nat | j < n - 1
        ensures !Claims(rest, j, ChannelOf(op.kind), index)
      {
        ReachesTail(msgs, j + 1);
        assert !Claims(msgs, j + 1, ChannelOf(op.kind), index);
      }
      if m.valid {
        assert Reaches(msgs, 0);
        assert !Claims(msgs, 0, ChannelOf(op.kind), index);
        ServedIff(w, m.op.value, m.index, ChannelOf(op.kind), index);
        FirstApplied(s, msgs, w);
        WaiterAnswered(After(s, m.op.value), rest, Served(w, m.op.value, m.index), n - 1);
      } else {
        Skipped(s, msgs, w);
        WaiterAnswered(s, rest, w, n - 1);
      }
    }
  }

  /** No index is answered that no message has. */
  lemma OthersNotAnswered(s: State, msgs: seq<ApplyMsg>, w: Waiting, index: int)
    requires forall n: nat :: Reaches(msgs, n) ==> msgs[n].index != index
    ensures forall p :: 0 <= p < |Sends(s, msgs, w)| ==> Sends(s, msgs, w)[p].0 != index
  {
    hide ReplyTo, After, Awaited, Served;
    forall p | 0 <= p < |Sends(s, msgs, w)|
      ensures Sends(s, msgs, w)[p].0 != index
    {
      var x := Sends(s, msgs, w)[p];
      SendsAnswer(s, msgs, w, x);
      var n: nat :| Answers(s, msgs, x, n);
      assert Reaches(msgs, n);
    }
  }

  /** Exactly one of what is sent is for this index. */
  ghost predicate OnlyOne(sent: seq<(int, Reply)>, index: int) {
    exists p: nat :: SoleAt(sent, index, p)
  }

  ghost predicate SoleAt(sent: seq<(int, Reply)>, index: int, p: nat) {
    p < |sent| && sent[p].0 == index && forall r :: 0 <= r < |sent| && r != p ==> sent[r].0 != index
  }

  /** If the log hands out the index once, the answer is sent once. */
  lemma {:induction false} AnsweredOnce(s: State, msgs: seq<ApplyMsg>, w: Waiting, n: nat)
    requires Reaches(msgs, n) && Waits(w, ChannelOf(msgs[n].op.value.kind), msgs[n].index)
    requires forall j: nat :: Reaches(msgs, j) && j != n ==> msgs[j].index != msgs[n].index
    ensures (msgs[n].index, ReplyTo(Before(s, msgs, n), msgs[n].op.value)) in Sends(s, msgs, w)
    ensures OnlyOne(Sends(s, msgs, w), msgs[n].index)
  {
    WaiterAnswered(s, msgs, w, n);
    SentOnce(s, msgs, w, n);
  }

  lemma {:induction false} SentOnce(s: State, msgs: seq<ApplyMsg>, w: Waiting, n: nat)
    requires Reaches(msgs, n) && Waits(w, ChannelOf(msgs[n].op.value.kind), msgs[n].index)
    requires forall j: nat :: Reaches(msgs, j) && j != n ==> msgs[j].index != msgs[n].index
    ensures OnlyOne(Sends(s, msgs, w), msgs[n].index)
    decreases n
  {
    hide ReplyTo, After, Awaited, Served, Waits, ChannelOf;
    var m, rest := msgs[0], msgs[1..];
    var op, index := msgs[n].op.value, msgs[n].index;
    forall j: nat | Reaches(rest, j) && j + 1 != n
      ensures rest[j].index != index
    {
      assert Reaches(msgs, 0) || !m.valid;
      ReachesTail(msgs, j + 1);
    }
    if n == 0 {
      AwaitedIff(w, op, index);
      FirstApplied(s, msgs, w);
      OthersNotAnswered(After(s, op), rest, Served(w, op, index), index);
      OneInFront((index, ReplyTo(s, op)), Sends(After(s, op), rest, Served(w, op, index)), index);
    } else {
      ReachesTail(msgs, n);
      if m.valid {
        assert Reaches(msgs, 0);
        ServedIff(w, m.op.value, m.index, ChannelOf(op.kind), index);
        FirstApplied(s, msgs, w);
        SentOnce(After(s, m.op.value), rest, Served(w, m.op.value, m.index), n - 1);
        if Awaited(w, m.op.value, m.index) {
          AnotherInFront((m.index, ReplyTo(s, m.op.value)),
            Sends(After(s, m.op.value), rest, Served(w, m.op.value, m.index)), index);
        } else {
          assert Sends(s, msgs, w) == Sends(After(s, m.op.value), rest, Served(w, m.op.value, m.index));
        }
      } else {
        Skipped(s, msgs, w);
        SentOnce(s, rest, w, n - 1);
      }
    }
  }

  lemma OneInFront(x: (int, Reply), sent: seq<(int, Reply)>, index: int)
    requires x.0 == index && forall p :: 0 <= p < |sent| ==> sent[p].0 != index
    ensures OnlyOne([x] + sent, index)
  {
    assert SoleAt([x] + sent, index, 0);
  }

  lemma AnotherInFront(x: (int, Reply), sent: seq<(int, Reply)>, index: int)
    requires x.0 != index && OnlyOne(sent, index)
    ensures OnlyOne([x] + sent, index)
  {
    var p: nat :| SoleAt(sent, index, p);
    assert forall r :: 0 < r < |[x] + sent| ==> ([x] + sent)[r] == sent[r - 1];
    assert SoleAt([x] + sent, index, p + 1);
  }

  /** After the batch those still wait whose index no message has claimed. */
  lemma {:induction false} LeftIff(msgs: seq<ApplyMsg>, w: Waiting, ch: Channel, index: int)
    ensures Waits(Left(msgs, w), ch, index) <==> Waits(w, ch, index) && forall n: nat :: !Claims(msgs, n, ch, index)
    decreases |msgs|
  {
    hide Served, Waits, ChannelOf;
    if msgs == [] || !Readable(msgs[0]) {
      return;
    }
    var m, rest := msgs[0], msgs[1..];
    var w' := if m.valid then Served(w, m.op.value, m.index) else w;
    LeftIff(rest, w', ch, index);
    if m.valid {
      ServedIff(w, m.op.value, m.index, ch, index);
    }
    forall n: nat
      ensures Claims(msgs, n + 1, ch, index) <==> Claims(rest, n, ch, index)
    {
      ReachesTail(msgs, n + 1);
    }
    assert Claims(msgs, 0, ch, index) <==> m.valid && ChannelOf(m.op.value.kind) == ch && m.index == index;
    assert (forall n: nat :: !Claims(msgs, n, ch, index)) <==>
      !Claims(msgs, 0, ch, index) && forall n: nat :: !Claims(rest, n, ch, index) by {
      assert forall n: nat :: n > 0 ==> (Claims(msgs, n, ch, index) <==> Claims(rest, n - 1, ch, index));
    }
  }

  ghost predicate Carries(msgs: seq<ApplyMsg>, n: nat, op: Op) {
    Reaches(msgs, n) && msgs[n].op == Some(op)
  }

  /** These are the entries of the messages that are reached, in order. */
  ghost predicate Listed(msgs: seq<ApplyMsg>, ops: seq<Op>, idx: seq<nat>) {
    && Ascends(idx) && |ops| == |idx| && (forall n: nat :: Reaches(msgs, n) ==> n in idx)
    && forall k :: 0 <= k < |idx| ==> Carries(msgs, idx[k], ops[k])
  }

  function Shifted(idx: seq<nat>): (r: seq<nat>)
    ensures |r| == |idx| && forall k :: 0 <= k < |r| ==> r[k] == idx[k] + 1
  {
    seq(|idx|, k requires 0 <= k < |idx| => idx[k] + 1)
  }

  lemma CarriesLater(msgs: seq<ApplyMsg>, n: nat, op: Op)
    requires msgs != [] && Readable(msgs[0]) && Carries(msgs[1..], n, op)
    ensures Carries(msgs, n + 1, op)
  {
    ReachesTail(msgs, n + 1);
  }

  lemma ListedLater(msgs: seq<ApplyMsg>, ops: seq<Op>, idx: seq<nat>)
    requires msgs != [] && Readable(msgs[0]) && Listed(msgs[1..], ops, idx)
    ensures Ascends(Shifted(idx)) && forall n: nat :: n > 0 && Reaches(msgs, n) ==> n in Shifted(idx)
    ensures forall k :: 0 <= k < |idx| ==> Carries(msgs, Shifted(idx)[k], ops[k])
  {
    hide Readable, Reaches, Carries;
    forall k | 0 <= k < |idx|
      ensures Carries(msgs, Shifted(idx)[k], ops[k])
    {
      CarriesLater(msgs, idx[k], ops[k]);
    }
    forall n: nat | n > 0 && Reaches(msgs, n)
      ensures n in Shifted(idx)
    {
      ReachesTail(msgs, n);
      var k :| 0 <= k < |idx| && idx[k] == n - 1;
      assert Shifted(idx)[k] == n;
    }
  }

  /** What a batch applies are the entries of the messages it reaches. */
  lemma {:induction false} OpsAreReached(msgs: seq<ApplyMsg>) returns (idx: seq<nat>)
    ensures Listed(msgs, Ops(msgs), idx)
    decreases |msgs|
  {
    idx := [];
    if msgs != [] && Readable(msgs[0]) {
      var rest := OpsAreReached(msgs[1..]);
      FirstOp(msgs);
      FirstReached(msgs);
      hide Ops, Reaches, Readable, Shifted, Carries, Listed;
      idx := ListedFrom(msgs, Ops(msgs[1..]), rest);
    }
  }

  lemma FirstReached(msgs: seq<ApplyMsg>)
    requires msgs != [] && Readable(msgs[0])
    ensures Reaches(msgs, 0) <==> msgs[0].valid
    ensures msgs[0].valid ==> msgs[0].op.Some?
  {
  }

  lemma ListedFrom(msgs: seq<ApplyMsg>, ops: seq<Op>, rest: seq<nat>) returns (idx: seq<nat>)
    requires msgs != [] && Readable(msgs[0]) && Listed(msgs[1..], ops, rest)
    ensures msgs[0].valid ==> msgs[0].op.Some?
    ensures Listed(msgs, (if msgs[0].valid then [msgs[0].op.value] else []) + ops, idx)
  {
    FirstReached(msgs);
    ListedLater(msgs, ops, rest);
    idx := Shifted(rest);
    hide Reaches, Readable, Carries;
    assert 0 !in idx && |ops| == |idx|;
    hide Shifted;
    if msgs[0].valid {
      OneEarlier(msgs, ops, idx);
      idx := [0] + idx;
    } else {
      assert [] + ops == ops;
    }
  }

  lemma OneEarlier(msgs: seq<ApplyMsg>, ops: seq<Op>, idx: seq<nat>)
    requires Ascends(idx) && 0 !in idx && |ops| == |idx| && Reaches(msgs, 0)
    requires forall n: nat :: n > 0 && Reaches(msgs, n) ==> n in idx
    requires forall k :: 0 <= k < |idx| ==> Carries(msgs, idx[k], ops[k])
    ensures Listed(msgs, [msgs[0].op.value] + ops, [0] + idx)
  {
    var all := [0] + idx;
    var op := msgs[0].op.value;
    assert Carries(msgs, 0, op);
    hide Reaches, Carries;
    ZeroAscends(idx);
    hide Ascends;
    forall n: nat | Reaches(msgs, n)
      ensures n in all
    {
      if n > 0 {
        var k :| 0 <= k < |idx| && idx[k] == n;
        assert all[k + 1] == n;
      } else {
        assert all[0] == n;
      }
    }
    forall k | 0 <= k < |all|
      ensures Carries(msgs, all[k], ([op] + ops)[k])
    {
      if k > 0 {
        assert all[k] == idx[k - 1] && ([op] + ops)[k] == ops[k - 1];
      }
    }
  }

  lemma ZeroAscends(idx: seq<nat>)
    requires Ascends(idx) && 0 !in idx
    ensures Ascends([0] + idx)
  {
    var all := [0] + idx;
    assert forall k :: 0 < k < |all| ==> all[k] == idx[k - 1] && all[k] in idx;
  }

  /** The last event of a key up to any revision tells what the key holds then. */
  lemma EventsTellAll(ws: seq<Write>, events: seq<WatchEvent>, key: string, i: nat, m: nat)
    requires Notified(ws, events) && i < m <= |ws| && events[i].key == key
    requires forall j :: i < j < m ==> events[j].key != key
    ensures |events| == |ws| && events[i].revision == i + 1
    ensures events[i].kind == "Put" || events[i].kind == "Delete"
    ensures LiveAt(ws, key, m, i + 1) <==> events[i].kind == "Put"
    ensures events[i].kind == "Put" ==> events[i].value == ws[i].value
    ensures events[i].kind == "Delete" ==> forall r :: !LiveAt(ws, key, m, r)
  {
    assert forall j :: 0 <= j < |ws| ==> Reports(events[j], ws[j], j + 1);
    assert Reports(events[i], ws[i], i + 1);
    forall p: nat | i + 1 < p <= m
      ensures !Writes(ws, key, p)
    {
      assert events[p - 1].key != key && Reports(events[p - 1], ws[p - 1], p);
    }
    assert Writes(ws, key, i + 1);
  }
}
