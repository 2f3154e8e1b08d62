/** The replicated log and the two index computations the follower makes on it. */
module RaftLog {

  /** A marshalled operation; Raft never looks inside. */
  type Cmd = string

  datatype Entry = Entry(term: nat, cmd: Cmd)

  /** Slot 0 of every log. */
  const DUMMY := Entry(0, "")

  function LastIndex(log: seq<Entry>): int {
    |log| - 1
  }

  function LastTerm(log: seq<Entry>): nat
    requires log != []
  {
    log[|log| - 1].term
  }

  function Commands(entries: seq<Entry>): (cs: seq<Cmd>)
    ensures |cs| == |entries|
    ensures forall i :: 0 <= i < |cs| ==> cs[i] == entries[i].cmd
  {
    seq(|entries|, i requires 0 <= i < |entries| => entries[i].cmd)
  }

  /** How many leading entries of `incoming` sit at their position in `log` already, judged by term alone. */
  function Agreeing(log: seq<Entry>, at: nat, incoming: seq<Entry>): (k: nat)
    requires at <= |log|
    ensures k <= |incoming| && at + k <= |log|
    ensures forall i :: 0 <= i < k ==> log[at + i].term == incoming[i].term
    ensures k < |incoming| ==> at + k == |log| || log[at + k].term != incoming[k].term
    decreases |incoming|
  {
    if incoming == [] || at == |log| || log[at].term != incoming[0].term then 0
    else
      1 + Agreeing(log, at + 1, incoming[1..])
  }

  /** A follower's log after it accepted `incoming` from position `at` on. */
  function Merged(log: seq<Entry>, at: nat, incoming: seq<Entry>): seq<Entry>
    requires at <= |log|
  {
    var k := Agreeing(log, at, incoming);
    if incoming == [] then log else log[..at + k] + incoming[k..]
  }

  /** The first index of the run of equal terms that ends at `i`. */
  function RunStart(log: seq<Entry>, i: nat): (r: nat)
    requires i < |log|
    ensures r <= i
    ensures forall j :: r <= j <= i ==> log[j].term == log[i].term
    ensures r > 0 ==> log[r - 1].term != log[i].term
  {
    if i > 0 && log[i - 1].term == log[i].term then RunStart(log, i - 1) else i
  }
}
