/** Exactly-once application of a log in which requests are repeated. */
module KvExactlyOnce {
  import opened MvccLog
  import opened MvccScan
  import opened KvSpec

  /** Entry `i` is the first of its client with a number this high. */
  ghost predicate First(log: seq<Op>, i: nat)
    requires i < |log|
  {
    Deduped(log[i]) ==>
      log[i].requestId > 0 &&
      forall j :: 0 <= j < i && Deduped(log[j]) && log[j].clientId == log[i].clientId ==>
        log[j].requestId < log[i].requestId
  }

  /** The log without its repeats. */
  ghost function Once(log: seq<Op>): seq<Op> {
    if log == [] then []
    else Once(log[..|log| - 1]) + if First(log, |log| - 1) then [log[|log| - 1]] else []
  }

  ghost predicate Carries(op: Op, client: int, m: int) {
    Deduped(op) && op.clientId == client && op.requestId == m
  }

  /** `m` is the highest request number of the client in the log, 0 if there is none above. */
  ghost predicate Highest(log: seq<Op>, client: int, m: int) {
    && (forall j :: 0 <= j < |log| && Deduped(log[j]) && log[j].clientId == client ==> log[j].requestId <= m)
    && (m == 0 || (m > 0 && exists j :: 0 <= j < |log| && Carries(log[j], client, m)))
  }

  /** `lastRequest` is at all times the highest number applied; a Batch leaves no trace of its sub-requests. */
  lemma {:induction false} LastIsHighest(log: seq<Op>, client: int)
    ensures Highest(log, client, Last(Run(BOOT, log).tables, client))
  {
    if log != [] {
      var before, op := log[..|log| - 1], log[|log| - 1];
      LastIsHighest(before, client);
      LastStep(Run(BOOT, before), op, client);
      hide Run, After, Last;
      var m, m' := Last(Run(BOOT, before).tables, client), Last(Run(BOOT, log).tables, client);
      assert Run(BOOT, log) == After(Run(BOOT, before), op) by { RunLast(log); }
      HighestStep(log, client, m, m');
    }
  }

  lemma RunLast(log: seq<Op>)
    requires log != []
    ensures Run(BOOT, log) == After(Run(BOOT, log[..|log| - 1]), log[|log| - 1])
  {
  }

  lemma LastStep(s: State, op: Op, client: int)
    ensures Last(After(s, op).tables, client) ==
      if Deduped(op) && op.clientId == client && op.requestId > Last(s.tables, client) then op.requestId
        else Last(s.tables, client)
  {
  }

  lemma HighestStep(log: seq<Op>, client: int, m: int, m': int)
    requires log != [] && Highest(log[..|log| - 1], client, m)
    requires var op := log[|log| - 1];
      m' == if Deduped(op) && op.clientId == client && op.requestId > m then op.requestId else m
    ensures Highest(log, client, m')
  {
    var before := log[..|log| - 1];
    assert forall j :: 0 <= j < |before| ==> log[j] == before[j];
    if m' == m && m > 0 {
      var j :| 0 <= j < |before| && Deduped(before[j]) && before[j].clientId == client && before[j].requestId == m;
      assert log[j].requestId == m;
    }
  }

  /** An entry takes effect exactly when it is the first with its number. */
  lemma TakesEffectIff(log: seq<Op>)
    requires log != [] && Deduped(log[|log| - 1])
    ensures var op := log[|log| - 1];
      op.requestId > Last(Run(BOOT, log[..|log| - 1]).tables, op.clientId) <==> First(log, |log| - 1)
  {
    var before, op := log[..|log| - 1], log[|log| - 1];
    LastIsHighest(before, op.clientId);
    hide Run, Last;
    assert forall j :: 0 <= j < |before| ==> log[j] == before[j];
    var m := Last(Run(BOOT, before).tables, op.clientId);
    if m > 0 {
      var j :| 0 <= j < |before| && Deduped(before[j]) && before[j].clientId == op.clientId && before[j].requestId == m;
      assert log[j].requestId == m;
    }
  }

  /** Applying a log with arbitrary repeats is applying it without them. */
  lemma {:induction false} ExactlyOnce(log: seq<Op>)
    ensures Run(BOOT, log) == Run(BOOT, Once(log))
  {
    if log != [] {
      var before, op := log[..|log| - 1], log[|log| - 1];
      ExactlyOnce(before);
      if Deduped(op) {
        TakesEffectIff(log);
      }
      if First(log, |log| - 1) {
        RunConcat(BOOT, Once(before), [op]);
        RunOne(Run(BOOT, Once(before)), op);
      } else {
        assert Once(log) == Once(before);
      }
    }
  }

  // ---- the answer to a repeat ----

  /** Answers to transactions are kept apart from all others. */
  predicate SameTable(a: Op, b: Op) {
    Deduped(a) && Deduped(b) && a.clientId == b.clientId && (a.kind == "Txn" <==> b.kind == "Txn")
  }

  /** The request has been answered, and its table holds this answer. */
  ghost predicate Answered(t: Tables, op: Op, reply: Reply) {
    Last(t, op.clientId) >= op.requestId && Recorded(t, op) == reply
  }

  lemma AnsweredStill(s: State, op: Op, reply: Reply, other: Op)
    requires Deduped(op) && Answered(s.tables, op, reply)
    requires SameTable(op, other) ==> other.requestId <= Last(s.tables, op.clientId)
    ensures Answered(After(s, other).tables, op, reply)
  {
    hide AllWritten, AllRead, Meets, PutOn;
  }

  /** Entry `j` of a log run from `s` overwrites the answer to the request. */
  ghost predicate Overwrites(s: State, op: Op, log: seq<Op>, j: nat) {
    j < |log| && SameTable(op, log[j]) && log[j].requestId > Last(Run(s, log[..j]).tables, op.clientId)
  }

  ghost predicate LastOverwrite(s: State, op: Op, log: seq<Op>, j: nat) {
    Overwrites(s, op, log, j) && forall k: nat :: Overwrites(s, op, log, k) ==> k <= j
  }

  lemma OverwritesInFront(s: State, op: Op, log: seq<Op>, j: nat)
    requires log != [] && j < |log| - 1
    ensures Overwrites(s, op, log, j) <==> Overwrites(s, op, log[..|log| - 1], j)
    ensures log[..|log| - 1][..j] == log[..j]
  {
    assert log[..|log| - 1][..j] == log[..j];
  }

  /** Nothing overwrites the answer: it is still there. */
  lemma {:induction false} AnswerStays(s: State, op: Op, reply: Reply, log: seq<Op>)
    requires Deduped(op) && Answered(s.tables, op, reply)
    requires forall j: nat :: !Overwrites(s, op, log, j)
    ensures Answered(Run(s, log).tables, op, reply)
  {
    if log != [] {
      var before, op' := log[..|log| - 1], log[|log| - 1];
      forall j: nat | j < |before|
        ensures !Overwrites(s, op, before, j)
      {
        OverwritesInFront(s, op, log, j);
      }
      AnswerStays(s, op, reply, before);
      assert !Overwrites(s, op, log, |log| - 1);
      AnsweredStill(Run(s, before), op, reply, op');
    }
  }

  /** What is there is the answer to the last entry that overwrote it. */
  lemma {:induction false} LastAnswerStays(s: State, op: Op, log: seq<Op>, j: nat)
    requires Deduped(op) && Last(s.tables, op.clientId) >= op.requestId && LastOverwrite(s, op, log, j)
    ensures Answered(Run(s, log).tables, op, ReplyTo(Run(s, log[..j]), log[j]))
  {
    var before := log[..|log| - 1];
    if j == |log| - 1 {
      LastOnlyGrows(s, before, op.clientId);
      AnswerReplaced(Run(s, before), op, log[j]);
    } else {
      OverwritesInFront(s, op, log, j);
      forall k: nat | Overwrites(s, op, before, k)
        ensures k <= j
      {
        OverwritesInFront(s, op, log, k);
      }
      LastAnswerStays(s, op, before, j);
      assert !Overwrites(s, op, log, |log| - 1);
      AnsweredStill(Run(s, before), op, ReplyTo(Run(s, log[..j]), log[j]), log[|log| - 1]);
    }
  }

  lemma AnswerReplaced(s: State, op: Op, other: Op)
    requires SameTable(op, other) && op.requestId <= Last(s.tables, op.clientId) < other.requestId
    ensures Answered(After(s, other).tables, op, ReplyTo(s, other))
  {
    hide AllWritten, AllRead, Meets, PutOn;
  }

  lemma {:induction false} LastOnlyGrows(s: State, log: seq<Op>, client: int)
    ensures Last(Run(s, log).tables, client) >= Last(s.tables, client)
  {
    if log != [] {
      LastOnlyGrows(s, log[..|log| - 1], client);
      LastStep(Run(s, log[..|log| - 1]), log[|log| - 1], client);
    }
  }

  lemma AnsweredNow(s: State, op: Op)
    requires Deduped(op)
    ensures Answered(After(s, op).tables, op, ReplyTo(s, op))
  {
    hide AllWritten, AllRead, Meets, PutOn;
  }

  /** A repeat after an answer has been recorded returns it and changes nothing. */
  lemma RepeatReturns(s: State, op: Op, reply: Reply)
    requires Deduped(op) && Answered(s.tables, op, reply)
    ensures After(s, op) == s && ReplyTo(s, op) == reply
  {
  }

  /** A repeat of a client's latest request of its table changes nothing and returns the first answer,
    * whatever others did in between and whatever the client did in the other table. */
  lemma {:induction false} RepeatOfLatest(s: State, op: Op, between: seq<Op>)
    requires Deduped(op)
    requires forall x :: x in between && SameTable(op, x) ==> x.requestId <= op.requestId
    ensures var s' := Run(After(s, op), between);
      After(s', op) == s' && ReplyTo(s', op) == ReplyTo(s, op)
  {
    var s1 := After(s, op);
    AnsweredNow(s, op);
    forall j: nat
      ensures !Overwrites(s1, op, between, j)
    {
      if j < |between| {
        LastOnlyGrows(s1, between[..j], op.clientId);
      }
    }
    AnswerStays(s1, op, ReplyTo(s, op), between);
    RepeatReturns(Run(s1, between), op, ReplyTo(s, op));
  }

  /** A repeat of any request after any log changes nothing. It gets the answer to the last entry that overwrote
    * the request's own, so the own answer exactly if there is no such entry or that one was answered alike. */
  lemma {:induction false} RepeatOfOlder(s: State, op: Op, between: seq<Op>)
    requires Deduped(op)
    ensures var s1 := After(s, op);
      var s' := Run(s1, between);
      && After(s', op) == s'
      && (forall j: nat :: LastOverwrite(s1, op, between, j) ==>
            ReplyTo(s', op) == ReplyTo(Run(s1, between[..j]), between[j]))
      && (ReplyTo(s', op) == ReplyTo(s, op) <==>
            forall j: nat :: LastOverwrite(s1, op, between, j) ==>
              ReplyTo(Run(s1, between[..j]), between[j]) == ReplyTo(s, op))
  {
    var s1 := After(s, op);
    var s' := Run(s1, between);
    AnsweredNow(s, op);
    if j: nat :| Overwrites(s1, op, between, j) {
      var last := FindLast(s1, op, between, j);
      LastAnswerStays(s1, op, between, last);
      RepeatReturns(s', op, ReplyTo(Run(s1, between[..last]), between[last]));
      assert forall k: nat :: LastOverwrite(s1, op, between, k) ==> k == last;
    } else {
      AnswerStays(s1, op, ReplyTo(s, op), between);
      RepeatReturns(s', op, ReplyTo(s, op));
    }
  }

  lemma {:induction false} FindLast(s: State, op: Op, log: seq<Op>, j: nat) returns (last: nat)
    requires Overwrites(s, op, log, j)
    ensures LastOverwrite(s, op, log, last)
    decreases |log| - j
  {
    if k: nat :| Overwrites(s, op, log, k) && k > j {
      last := FindLast(s, op, log, k);
    } else {
      last := j;
    }
  }

  /** The condition in numbers alone: the client's last request of the table decides, once it took effect. */
  lemma {:induction false} RepeatAfterNewer(s: State, older: Op, newer: Op, after: seq<Op>)
    requires SameTable(older, newer) && older.requestId <= newer.requestId
    requires forall x :: x in after && SameTable(newer, x) ==> x.requestId <= newer.requestId
    ensures var s' := Run(After(s, newer), after);
      After(s', older) == s' && ReplyTo(s', older) == ReplyTo(s, newer)
  {
    var s' := Run(After(s, newer), after);
    RepeatOfLatest(s, newer, after);
    AnsweredNow(s, newer);
    LastOnlyGrows(After(s, newer), after, newer.clientId);
    SameReply(s', older, newer);
  }

  lemma SameReply(s: State, a: Op, b: Op)
    requires SameTable(a, b) && a.requestId <= Last(s.tables, a.clientId) && b.requestId <= Last(s.tables, a.clientId)
    ensures After(s, a) == s && ReplyTo(s, a) == ReplyTo(s, b)
  {
  }
}
