/** The client-side loops end, and give way to a later term. */
module RaftLoops {
  import opened Options
  import opened RaftTypes
  import opened RaftNodeSpec
  import opened RaftCluster
  import opened RaftElection

  /** The peer that a loop of n addresses next, if the answer of that peer still matters to n. */
  function Addressed(c: Config, s: State, step: Step): Option<NodeId>
    requires Has(c, s, step.n)
  {
    var n := step.n;
    var x := s.procs[n];
    match step
    case AskVote(_, true) =>
      if x.election.Electing? && x.election.asked < |c.peers[n]| && x.node.role == Candidate && x.node.term == x.election.term
      then Some(c.peers[n][x.election.asked]) else None
    case Heartbeat(_, p, true) => if x.node.role == Leader && p in c.peers[n] then Some(p) else None
    case Replicate(_, true) =>
      if x.proposal.Replicating? && x.proposal.asked < |c.peers[n]| && x.node.role == Leader && x.proposal.term == x.node.term
      then Some(c.peers[n][x.proposal.asked]) else None
    case Announce(_, true) =>
      if x.proposal.Announcing? && x.proposal.asked < |c.peers[n]| && x.proposal.req.term <= x.node.term
      then Some(c.peers[n][x.proposal.asked]) else None
    case _ => None
  }

  /** A peer in a later term answers with it and changes nothing. */
  lemma LaterTermAnswers(s: State, p: NodeId, vote: VoteReq, append: AppendReq)
    requires p in s.procs
    ensures s.procs[p].node.term > vote.term ==> CallVote(s, p, vote, true) == (s, VoteResp(s.procs[p].node.term, false))
    ensures s.procs[p].node.term > append.term ==> CallAppend(s, p, append, true) == (s, AppendResp(s.procs[p].node.term, false))
  {
    assert SetNode(s, p, s.procs[p].node) == s;
  }

  /** Whoever hears of a later term, in any of its four loops, becomes a follower of that term without a vote. */
  lemma LaterTermWins(c: Config, s: State, step: Step, p: NodeId)
    requires ValidConfig(c) && Has(c, s, step.n) && Addressed(c, s, step) == Some(p) && p in s.procs
    requires s.procs[p].node.term > s.procs[step.n].node.term
    ensures var x := Next(c, s, step).procs[step.n].node;
      x.role == Follower && x.term == s.procs[p].node.term && x.votedFor == None && x.log == s.procs[step.n].node.log
  {
    var n := step.n;
    var x := s.procs[n];
    match step
    case AskVote(_, _) =>
      LaterTermAnswers(s, p, VoteReq(x.election.term, n, x.election.lastIndex, x.election.lastTerm), AppendReq(0, n, 0, 0, [], 0));
    case Heartbeat(_, _, _) => LaterTermAnswers(s, p, VoteReq(0, n, 0, 0), BuildAppend(x.node, n, p));
    case Replicate(_, _) => LaterTermAnswers(s, p, VoteReq(0, n, 0, 0), ReplicateReq(n, x.proposal));
    case Announce(_, _) => LaterTermAnswers(s, p, VoteReq(0, n, 0, 0), x.proposal.req);
  }

  // ---- every loop ends ----

  /** How many more exchanges an election takes at most. */
  function VotesLeft(c: Config, n: NodeId, e: Election): nat
    requires n in c.peers
  {
    if e.Electing? && e.asked < |c.peers[n]| then |c.peers[n]| - e.asked else 0
  }

  /** The election is over, or there are peers left to ask. */
  predicate ElectionOpen(c: Config, n: NodeId, e: Election)
    requires n in c.peers
  {
    e == NoElection || e.asked < |c.peers[n]|
  }

  lemma AskingEnds(c: Config, s: State, n: NodeId, delivered: bool)
    requires Has(c, s, n) && ElectionOpen(c, n, s.procs[n].election)
    ensures var e, e' := s.procs[n].election, DoAskVote(c, s, n, delivered).procs[n].election;
      ElectionOpen(c, n, e') && (VotesLeft(c, n, e') < VotesLeft(c, n, e) || e' == NoElection)
  {
  }

  /** Whatever is delivered, after asking every peer the election is over. */
  lemma {:induction false} ElectionEnds(c: Config, s: State, n: NodeId, steps: seq<Step>)
    requires Has(c, s, n) && ElectionOpen(c, n, s.procs[n].election)
    requires forall i :: 0 <= i < |steps| ==> steps[i].AskVote? && steps[i].n == n
    ensures var e := After(c, s, steps).procs[n].election;
      ElectionOpen(c, n, e) && (e == NoElection || VotesLeft(c, n, e) + |steps| <= VotesLeft(c, n, s.procs[n].election))
  {
    if steps != [] {
      var k := |steps| - 1;
      ElectionEnds(c, s, n, steps[..k]);
      AskingEnds(c, After(c, s, steps[..k]), n, steps[k].delivered);
    }
  }

  /** The election of a run ends by as many requests as there are peers. */
  lemma AskedAllEnds(c: Config, s: State, n: NodeId, steps: seq<Step>)
    requires Has(c, s, n) && ElectionOpen(c, n, s.procs[n].election)
    requires |steps| == |c.peers[n]| && forall i :: 0 <= i < |steps| ==> steps[i].AskVote? && steps[i].n == n
    ensures After(c, s, steps).procs[n].election == NoElection
  {
    ElectionEnds(c, s, n, steps);
  }

  /** What a proposal does next. */
  function NextCall(c: Config, s: State, n: NodeId, delivered: bool): Step
    requires Has(c, s, n)
  {
    var p := s.procs[n].proposal;
    if p.Replicating? && p.asked < |c.peers[n]| then Replicate(n, delivered)
    else if p.Replicating? then EndReplication(n)
    else Announce(n, delivered)
  }

  function CallsLeft(c: Config, n: NodeId, p: Proposal): nat
    requires n in c.peers
  {
    match p
    case NoProposal => 0
    case Replicating(_, _, _, _, _, asked) => |c.peers[n]| + 2 + if asked < |c.peers[n]| then |c.peers[n]| - asked else 0
    case Announcing(_, _, asked) => 1 + if asked < |c.peers[n]| then |c.peers[n]| - asked else 0
  }

  /** Each step of a proposal, whatever is delivered, brings it nearer to its end; it returns true only as its last one. */
  lemma ProposalEnds(c: Config, s: State, n: NodeId, delivered: bool)
    requires Has(c, s, n) && s.procs[n].proposal != NoProposal
    ensures var t := Next(c, s, NextCall(c, s, n, delivered));
      && CallsLeft(c, n, t.procs[n].proposal) < CallsLeft(c, n, s.procs[n].proposal)
      && (t.receipts != s.receipts ==> t.procs[n].proposal == NoProposal)
  {
  }
}
