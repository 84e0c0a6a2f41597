/**
 A cluster of Raft nodes as a step system. One RPC exchange (request, handler, handling of the
 response) is one step; everything a loop keeps in local variables between two exchanges is state
 here, so that a request built earlier is sent as it was built.
 */
module RaftCluster {
  import opened Options
  import opened RaftTypes
  import opened RaftNodeSpec

  /** peers[n] is the list given to the constructor of node n: all the others, each once. */
  datatype Config = Config(peers: map<NodeId, seq<NodeId>>)

  ghost predicate Distinct<T>(s: seq<T>) {
    forall i, j :: 0 <= i < j < |s| ==> s[i] != s[j]
  }

  ghost predicate ValidConfig(c: Config) {
    forall n :: n in c.peers ==>
      Distinct(c.peers[n]) && (forall p :: p in c.peers[n] <==> p in c.peers && p != n)
  }

  function Total(c: Config): nat {
    |c.peers|
  }

  /** Local variables of ElectionLoop between two vote requests; `asked` is the position in the peer list. */
  datatype Election =
    | NoElection
    | Electing(term: nat, lastIndex: nat, lastTerm: nat, votes: nat, asked: nat)

  /** Local variables of ProposePut/ProposeDel between two of its requests. */
  datatype Proposal =
    | NoProposal
    | Replicating(term: nat, prevIndex: nat, entry: LogEntry, prevTerm: nat, acks: nat, asked: nat)
    | Announcing(req: AppendReq, receipt: Receipt, asked: nat)

  /** A proposal whose call returned true. */
  datatype Receipt = Receipt(term: nat, index: nat, entry: LogEntry)

  /** A process: its node, its two client-side loops, and the calls made on its state machine. */
  datatype Proc = Proc(node: Node, election: Election, proposal: Proposal, applied: seq<LogEntry>)

  datatype State = State(procs: map<NodeId, Proc>, receipts: set<Receipt>)

  datatype Step =
    | Timeout(n: NodeId)
    | AskVote(n: NodeId, delivered: bool)
    | Heartbeat(n: NodeId, peer: NodeId, delivered: bool)
    | Propose(n: NodeId, op: Op, key: string, value: string)
    | Replicate(n: NodeId, delivered: bool)
    | EndReplication(n: NodeId)
    | Announce(n: NodeId, delivered: bool)
    | Apply(n: NodeId)

  function NewNode(): Node {
    Node(Follower, 0, None, [], 0, 0, map[], map[])
  }

  function Init(c: Config): State {
    State(map n | n in c.peers :: Proc(NewNode(), NoElection, NoProposal, []), {})
  }

  function SetNode(s: State, n: NodeId, node: Node): State
    requires n in s.procs
  {
    s.(procs := s.procs[n := s.procs[n].(node := node)])
  }

  function SetProc(s: State, n: NodeId, proc: Proc): State {
    s.(procs := s.procs[n := proc])
  }

  /** A remote call changes nodes only: no loop variable, no state machine, no receipt. */
  ghost predicate SameLoops(s: State, t: State) {
    && t.procs.Keys == s.procs.Keys
    && t.receipts == s.receipts
    && forall q :: q in s.procs ==>
         t.procs[q] == s.procs[q].(node := t.procs[q].node)
  }

  /** An unreachable peer answers "not granted" in the term of the request. */
  function CallVote(s: State, p: NodeId, req: VoteReq, delivered: bool): (r: (State, VoteResp))
    ensures SameLoops(s, r.0)
  {
    if delivered && p in s.procs
    then (SetNode(s, p, HandleVote(s.procs[p].node, req).0), HandleVote(s.procs[p].node, req).1)
    else (s, VoteResp(req.term, false))
  }

  function CallAppend(s: State, p: NodeId, req: AppendReq, delivered: bool): (r: (State, AppendResp))
    ensures SameLoops(s, r.0)
  {
    if delivered && p in s.procs
    then (SetNode(s, p, HandleAppend(s.procs[p].node, req).0), HandleAppend(s.procs[p].node, req).1)
    else (s, AppendResp(req.term, false))
  }

  function TimeoutProc(c: Config, n: NodeId, x: Proc): Proc
    requires n in c.peers
  {
    var node := BecomeCandidate(x.node, n);
    x.(node := node,
       election :=
         if c.peers[n] == [] then NoElection
         else Electing(node.term, |node.log|, LastTerm(node.log), 1, 0))
  }

  /** The vote loop after the answer of peer number `asked`. */
  function VoteAnswer(c: Config, n: NodeId, x: Proc, resp: VoteResp): Proc
    requires n in c.peers && x.election.Electing?
  {
    var e := x.election;
    if x.node.role != Candidate || x.node.term != e.term then
      x.(election := NoElection)
    else if resp.term > x.node.term then
      x.(node := BecomeFollower(x.node, resp.term), election := NoElection)
    else
      var votes := e.votes + if resp.granted then 1 else 0;
      if votes >= Majority(1 + |c.peers[n]|) then
        x.(node := BecomeLeader(x.node, c.peers[n]), election := NoElection)
      else if e.asked + 1 >= |c.peers[n]| then
        x.(election := NoElection)
      else
        x.(election := e.(votes := votes, asked := e.asked + 1))
  }

  function ProposeProc(c: Config, n: NodeId, x: Proc, op: Op, key: string, value: string): Proc
    requires n in c.peers
  {
    var e := LogEntry(x.node.term, op, key, if op == Put then value else "");
    var log := x.node.log + [e];
    x.(node := x.node.(log := log),
       proposal := Replicating(x.node.term, |log| - 1, e, TermAt(log, |log| - 1), 1, 0))
  }

  function ReplicateReq(n: NodeId, r: Proposal): AppendReq
    requires r.Replicating?
  {
    AppendReq(r.term, n, r.prevIndex, r.prevTerm, [r.entry], 0)
  }

  /** The replication loop of a proposal after the answer of peer number `asked`. */
  function ReplicateAnswer(c: Config, n: NodeId, x: Proc, resp: AppendResp): Proc
    requires n in c.peers && x.proposal.Replicating?
  {
    var r := x.proposal;
    if x.node.role != Leader then
      x.(proposal := NoProposal)
    else if resp.term > x.node.term then
      x.(node := BecomeFollower(x.node, resp.term), proposal := NoProposal)
    else
      var acks := r.acks + if resp.success then 1 else 0;
      x.(proposal := r.(
           acks := acks,
           asked := if acks >= Majority(1 + |c.peers[n]|) then |c.peers[n]| else r.asked + 1))
  }

  /** The heartbeat that a proposal sends once its entry is replicated; the role is not rechecked. */
  function AnnounceReq(n: NodeId, x: Node): AppendReq {
    AppendReq(x.term, n, |x.log|, TermAt(x.log, |x.log|), [], x.commitIndex)
  }

  function EndReplicationProc(c: Config, n: NodeId, x: Proc): Proc
    requires n in c.peers
    requires x.proposal.Replicating?
  {
    var r := x.proposal;
    x.(proposal :=
         if r.acks < Majority(1 + |c.peers[n]|) then NoProposal
         else Announcing(AnnounceReq(n, x.node), Receipt(r.term, r.prevIndex + 1, r.entry), 0))
  }

  function AnnounceAnswer(c: Config, n: NodeId, x: Proc, resp: AppendResp): Proc
    requires n in c.peers && x.proposal.Announcing?
  {
    var a := x.proposal;
    if resp.term > x.node.term then
      x.(node := BecomeFollower(x.node, resp.term), proposal := a.(asked := |c.peers[n]|))
    else
      x.(proposal := a.(asked := a.asked + 1))
  }

  function ApplyProc(x: Proc): Proc
    requires x.node.lastApplied < x.node.commitIndex <= |x.node.log|
  {
    x.(node := x.node.(lastApplied := x.node.lastApplied + 1),
       applied := x.applied + [x.node.log[x.node.lastApplied]])
  }

  // ---- steps: one whose guard does not hold changes nothing ----

  ghost predicate Has(c: Config, s: State, n: NodeId) {
    s.procs.Keys == c.peers.Keys && n in s.procs
  }

  function DoTimeout(c: Config, s: State, n: NodeId): State
    requires Has(c, s, n)
  {
    var x := s.procs[n];
    if x.node.role == Leader || x.election != NoElection then s
    else SetProc(s, n, TimeoutProc(c, n, x))
  }

  function DoAskVote(c: Config, s: State, n: NodeId, delivered: bool): State
    requires Has(c, s, n)
  {
    var e := s.procs[n].election;
    if !e.Electing? || e.asked >= |c.peers[n]| then s
    else
      var (t, resp) := CallVote(s, c.peers[n][e.asked], VoteReq(e.term, n, e.lastIndex, e.lastTerm), delivered);
      SetProc(t, n, VoteAnswer(c, n, t.procs[n], resp))
  }

  ghost function DoHeartbeat(c: Config, s: State, n: NodeId, peer: NodeId, delivered: bool): State
    requires Has(c, s, n)
  {
    var x := s.procs[n].node;
    if x.role != Leader || peer !in c.peers[n] then s
    else
      var req := BuildAppend(x, n, peer);
      var (t, resp) := CallAppend(s, peer, req, delivered);
      SetNode(t, n, HeartbeatAnswer(t.procs[n].node, peer, req, resp))
  }

  function DoPropose(c: Config, s: State, n: NodeId, op: Op, key: string, value: string): State
    requires Has(c, s, n)
  {
    var x := s.procs[n];
    if x.node.role != Leader || x.proposal != NoProposal then s
    else SetProc(s, n, ProposeProc(c, n, x, op, key, value))
  }

  function DoReplicate(c: Config, s: State, n: NodeId, delivered: bool): State
    requires Has(c, s, n)
  {
    var r := s.procs[n].proposal;
    if !r.Replicating? || r.asked >= |c.peers[n]| then s
    else
      var (t, resp) := CallAppend(s, c.peers[n][r.asked], ReplicateReq(n, r), delivered);
      SetProc(t, n, ReplicateAnswer(c, n, t.procs[n], resp))
  }

  function DoEndReplication(c: Config, s: State, n: NodeId): State
    requires Has(c, s, n)
  {
    var x := s.procs[n];
    if !x.proposal.Replicating? || x.proposal.asked < |c.peers[n]| then s
    else SetProc(s, n, EndReplicationProc(c, n, x))
  }

  /** Once every peer has been told, the call returns true. */
  function DoAnnounce(c: Config, s: State, n: NodeId, delivered: bool): State
    requires Has(c, s, n)
  {
    var x := s.procs[n];
    if !x.proposal.Announcing? then s
    else if x.proposal.asked >= |c.peers[n]| then
      SetProc(s, n, x.(proposal := NoProposal)).(receipts := s.receipts + {x.proposal.receipt})
    else
      var (t, resp) := CallAppend(s, c.peers[n][x.proposal.asked], x.proposal.req, delivered);
      SetProc(t, n, AnnounceAnswer(c, n, t.procs[n], resp))
  }

  function DoApply(c: Config, s: State, n: NodeId): State
    requires Has(c, s, n)
  {
    var x := s.procs[n];
    if !(x.node.lastApplied < x.node.commitIndex <= |x.node.log|) then s
    else SetProc(s, n, ApplyProc(x))
  }

  ghost function Next(c: Config, s: State, step: Step): (t: State)
    requires s.procs.Keys == c.peers.Keys
    ensures t.procs.Keys == s.procs.Keys
  {
    if step.n !in s.procs then s else
    match step
    case Timeout(n) => DoTimeout(c, s, n)
    case AskVote(n, delivered) => DoAskVote(c, s, n, delivered)
    case Heartbeat(n, peer, delivered) => DoHeartbeat(c, s, n, peer, delivered)
    case Propose(n, op, key, value) => DoPropose(c, s, n, op, key, value)
    case Replicate(n, delivered) => DoReplicate(c, s, n, delivered)
    case EndReplication(n) => DoEndReplication(c, s, n)
    case Announce(n, delivered) => DoAnnounce(c, s, n, delivered)
    case Apply(n) => DoApply(c, s, n)
  }

  /** The state after a run, from the initial state. */
  ghost function Run(c: Config, steps: seq<Step>): (s: State)
    ensures s.procs.Keys == c.peers.Keys
  {
    if steps == [] then Init(c) else Next(c, Run(c, steps[..|steps| - 1]), steps[|steps| - 1])
  }

  /** The node of process n after the first i steps of a run. */
  ghost function NodeAt(c: Config, steps: seq<Step>, i: nat, n: NodeId): Node
    requires i <= |steps| && n in c.peers
  {
    Run(c, steps[..i]).procs[n].node
  }

  /** What process n has passed to its state machine in the first i steps of a run. */
  ghost function AppliedAt(c: Config, steps: seq<Step>, i: nat, n: NodeId): seq<LogEntry>
    requires i <= |steps| && n in c.peers
  {
    Run(c, steps[..i]).procs[n].applied
  }
}
