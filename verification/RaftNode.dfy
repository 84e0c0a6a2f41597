/** What one handler call or loop iteration of a RaftNode does to the node (src/raft.cpp). */
module RaftNodeSpec {
  import opened Options
  import opened RaftTypes

  predicate UpToDate(log: Log, candLastIndex: nat, candLastTerm: nat) {
    if candLastTerm != LastTerm(log) then candLastTerm > LastTerm(log) else candLastIndex >= |log|
  }

  function BecomeFollower(n: Node, newTerm: nat): Node {
    n.(role := Follower, term := newTerm, votedFor := None)
  }

  function BecomeCandidate(n: Node, self: NodeId): Node {
    n.(role := Candidate, term := n.term + 1, votedFor := Some(self))
  }

  /** The index of every listed peer set to v. */
  function SetAll(m: map<NodeId, nat>, peers: seq<NodeId>, v: nat): map<NodeId, nat> {
    m + map p | p in peers :: v
  }

  function BecomeLeader(n: Node, peers: seq<NodeId>): Node {
    n.(role := Leader,
       nextIndex := SetAll(n.nextIndex, peers, |n.log| + 1),
       matchIndex := SetAll(n.matchIndex, peers, 0))
  }

  function HandleVote(n: Node, req: VoteReq): (Node, VoteResp) {
    if req.term < n.term then
      (n, VoteResp(n.term, false))
    else
      var m := if req.term > n.term then BecomeFollower(n, req.term) else n;
      if (m.votedFor == None || m.votedFor == Some(req.candidate))
         && UpToDate(m.log, req.lastLogIndex, req.lastLogTerm)
      then (m.(votedFor := Some(req.candidate)), VoteResp(m.term, true))
      else (m, VoteResp(m.term, false))
  }

  /** The consistency check of AppendEntries. */
  predicate Consistent(log: Log, req: AppendReq) {
    req.prevLogIndex <= |log| && TermAt(log, req.prevLogIndex) == req.prevLogTerm
  }

  /** Non-empty entries replace everything after prevLogIndex, matching or not. */
  function Overwrite(log: Log, req: AppendReq): Log
    requires Consistent(log, req)
  {
    if req.entries == [] then log else log[..req.prevLogIndex] + req.entries
  }

  function HandleAppend(n: Node, req: AppendReq): (Node, AppendResp) {
    if req.term < n.term then
      (n, AppendResp(n.term, false))
    else
      var m := if req.term > n.term then BecomeFollower(n, req.term) else n.(role := Follower);
      if !Consistent(m.log, req) then
        (m, AppendResp(m.term, false))
      else
        var log := Overwrite(m.log, req);
        var commit :=
          if req.leaderCommit > m.commitIndex then Min(req.leaderCommit, |log|) else m.commitIndex;
        (m.(log := log, commitIndex := commit), AppendResp(m.term, true))
  }

  function BuildAppend(n: Node, self: NodeId, peer: NodeId): AppendReq {
    var next := if peer in n.nextIndex then n.nextIndex[peer] else 1;
    var prev := if next <= 1 then 0 else next - 1;
    AppendReq(
      n.term, self, prev, TermAt(n.log, prev),
      if 1 <= next <= |n.log| then n.log[next - 1..] else [],
      n.commitIndex)
  }

  // ---- the commit rule, by counting ----

  /** How many of the leader and its peers hold index i. */
  function Reached(last: nat, matched: map<NodeId, nat>, i: nat): nat {
    |set p | p in matched && matched[p] >= i| + if last >= i then 1 else 0
  }

  /** The smallest number of nodes that makes a commit: every such set meets every vote quorum. */
  function CommitQuorum(total: nat): nat {
    total - total / 2
  }

  function Majority(total: nat): nat {
    total / 2 + 1
  }

  /** q is the largest index that a commit quorum has reached. */
  ghost predicate IsQuorumIndex(last: nat, matched: map<NodeId, nat>, q: nat) {
    && Reached(last, matched, q) >= CommitQuorum(|matched| + 1)
    && forall i :: i > q ==> Reached(last, matched, i) < CommitQuorum(|matched| + 1)
  }

  lemma SubsetSize<T>(a: set<T>, b: set<T>)
    requires a <= b
    ensures |a| <= |b|
  {
    assert b == a + (b - a);
  }

  lemma UniqueQuorumIndex(last: nat, matched: map<NodeId, nat>, q: nat, r: nat)
    requires IsQuorumIndex(last, matched, q) && IsQuorumIndex(last, matched, r)
    ensures q == r
  {
  }

  /** Some bound lies above every match index. */
  lemma {:induction false} MatchBound(matched: map<NodeId, nat>) returns (b: nat)
    ensures forall p :: p in matched ==> matched[p] <= b
    decreases |matched|
  {
    b := 0;
    if p :| p in matched.Keys {
      var rest := matched - {p};
      assert |rest| < |matched| by {
        assert rest.Keys == matched.Keys - {p};
        assert |matched.Keys| == |rest.Keys| + 1;
      }
      b := MatchBound(rest);
      assert forall r :: r in matched && r != p ==> r in rest && rest[r] == matched[r];
      if b < matched[p] { b := matched[p]; }
    }
  }

  lemma {:induction false} QuorumIndexBelow(last: nat, matched: map<NodeId, nat>, b: nat) returns (q: nat)
    requires forall i :: i > b ==> Reached(last, matched, i) < CommitQuorum(|matched| + 1)
    ensures IsQuorumIndex(last, matched, q)
    decreases b
  {
    if b == 0 {
      q := 0;
      assert (set p | p in matched && matched[p] >= 0) == matched.Keys;
    } else if Reached(last, matched, b) >= CommitQuorum(|matched| + 1) {
      q := b;
    } else {
      q := QuorumIndexBelow(last, matched, b - 1);
    }
  }

  lemma QuorumIndexExists(last: nat, matched: map<NodeId, nat>)
    ensures exists q: nat :: IsQuorumIndex(last, matched, q)
  {
    var b := MatchBound(matched);
    var top := if b < last then last else b;
    forall i | i > top ensures Reached(last, matched, i) < CommitQuorum(|matched| + 1) {
      assert forall p :: p in matched ==> matched[p] <= top < i;
      var reached := set p | p in matched && matched[p] >= i;
      assert reached == {};
    }
    var q := QuorumIndexBelow(last, matched, top);
  }

  ghost function QuorumIndex(last: nat, matched: map<NodeId, nat>): (q: nat)
    ensures IsQuorumIndex(last, matched, q)
  {
    QuorumIndexExists(last, matched);
    var q: nat :| IsQuorumIndex(last, matched, q);
    q
  }

  /** Only an entry of the leader's own term is committed by counting. */
  ghost function AdvanceCommit(n: Node): Node {
    var q := QuorumIndex(|n.log|, n.matchIndex);
    if q > n.commitIndex && TermAt(n.log, q) == n.term then n.(commitIndex := q) else n
  }

  /** What the heartbeat loop does with the answer of one peer. */
  ghost function HeartbeatAnswer(n: Node, peer: NodeId, req: AppendReq, resp: AppendResp): Node {
    if resp.term > n.term then
      BecomeFollower(n, resp.term)
    else if resp.success then
      if req.entries == [] then AdvanceCommit(n)
      else
        var sent := req.prevLogIndex + |req.entries|;
        AdvanceCommit(n.(matchIndex := n.matchIndex[peer := sent], nextIndex := n.nextIndex[peer := sent + 1]))
    else if peer in n.nextIndex && n.nextIndex[peer] > 1 then
      n.(nextIndex := n.nextIndex[peer := n.nextIndex[peer] - 1])
    else n
  }
}
