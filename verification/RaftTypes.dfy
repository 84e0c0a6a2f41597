/** Messages, log entries and the per-node state of the Raft layer (include/kv/raft.h). */
module RaftTypes {
  import opened Options

  type NodeId = int

  datatype Role = Follower | Candidate | Leader

  datatype Op = Put | Del

  datatype LogEntry = LogEntry(term: nat, op: Op, key: string, value: string)

  /** Raft index i is stored at position i - 1. */
  type Log = seq<LogEntry>

  datatype VoteReq = VoteReq(term: nat, candidate: NodeId, lastLogIndex: nat, lastLogTerm: nat)

  datatype VoteResp = VoteResp(term: nat, granted: bool)

  datatype AppendReq = AppendReq(
    term: nat,
    leader: NodeId,
    prevLogIndex: nat,
    prevLogTerm: nat,
    entries: Log,
    leaderCommit: nat)

  datatype AppendResp = AppendResp(term: nat, success: bool)

  /** The fields of a RaftNode that its handlers and loops read and write. */
  datatype Node = Node(
    role: Role,
    term: nat,
    votedFor: Option<NodeId>,
    log: Log,
    commitIndex: nat,
    lastApplied: nat,
    nextIndex: map<NodeId, nat>,
    matchIndex: map<NodeId, nat>)

  function LastTerm(log: Log): (t: nat) {
    if log == [] then 0 else log[|log| - 1].term
  }

  function TermAt(log: Log, idx: nat): (t: nat) {
    if idx == 0 || idx > |log| then 0 else log[idx - 1].term
  }

  function Min(a: nat, b: nat): nat {
    if a <= b then a else b
  }
}
