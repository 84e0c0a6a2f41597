/** Elections succeed: a candidate nobody is ahead of wins as soon as a majority has answered. */
module RaftElection {
  import opened Options
  import opened RaftTypes
  import opened RaftNodeSpec
  import opened RaftCluster
  import opened RaftSteps

  /** The state after some more steps. */
  ghost function After(c: Config, s: State, steps: seq<Step>): (t: State)
    requires s.procs.Keys == c.peers.Keys
    ensures t.procs.Keys == c.peers.Keys
  {
    if steps == [] then s else Next(c, After(c, s, steps[..|steps| - 1]), steps[|steps| - 1])
  }

  lemma AfterMore(c: Config, s: State, steps: seq<Step>, step: Step)
    requires s.procs.Keys == c.peers.Keys
    ensures After(c, s, steps + [step]) == Next(c, After(c, s, steps), step)
  {
    assert (steps + [step])[..|steps|] == steps;
  }

  lemma {:induction false} AfterConcat(c: Config, s: State, a: seq<Step>, b: seq<Step>)
    requires s.procs.Keys == c.peers.Keys
    ensures After(c, s, a + b) == After(c, After(c, s, a), b)
  {
    if b == [] {
      assert a + b == a;
    } else {
      var n := |b| - 1;
      AfterConcat(c, s, a, b[..n]);
      assert a + b == (a + b[..n]) + [b[n]];
      AfterMore(c, s, a + b[..n], b[n]);
    }
  }

  lemma {:induction false} RunAfter(c: Config, a: seq<Step>, b: seq<Step>)
    ensures Run(c, a + b) == After(c, Run(c, a), b)
  {
    if b == [] {
      assert a + b == a;
    } else {
      var n := |b| - 1;
      RunAfter(c, a, b[..n]);
      assert (a + b)[..|a + b| - 1] == a + b[..n];
    }
  }

  /** The same step k times. */
  ghost predicate Repeats(steps: seq<Step>, step: Step, k: nat) {
    |steps| == k && forall i :: 0 <= i < k ==> steps[i] == step
  }

  /** Nobody is ahead of n: no peer is in a later term, and n's log is at least as up to date as each peer's. */
  ghost predicate Electable(c: Config, s: State, n: NodeId)
    requires Has(c, s, n)
  {
    forall p :: p in c.peers[n] && p in s.procs ==>
      var x, y := s.procs[n].node, s.procs[p].node;
      && y.term <= x.term
      && (LastTerm(x.log) > LastTerm(y.log) || (LastTerm(x.log) == LastTerm(y.log) && |x.log| >= |y.log|))
  }

  /** Nobody has passed the term that n stands for, and n's client loop has not moved. */
  ghost predicate Following(c: Config, s: State, t: State, n: NodeId)
    requires Has(c, s, n) && Has(c, t, n)
  {
    && t.procs[n].proposal == s.procs[n].proposal && t.procs[n].node.log == s.procs[n].node.log
    && forall p :: p in c.peers ==> t.procs[p].node.term <= s.procs[n].node.term + 1
  }

  /** While n asks for votes: j peers have granted theirs and the others have not been asked. */
  ghost predicate Asking(c: Config, s: State, t: State, n: NodeId, j: nat)
    requires Has(c, s, n) && Has(c, t, n)
  {
    var x, y := s.procs[n].node, t.procs[n];
    && y.node.role == Candidate && y.node.term == x.term + 1 && Following(c, s, t, n)
    && y.election == Electing(x.term + 1, |x.log|, LastTerm(x.log), 1 + j, j)
    && forall i :: j <= i < |c.peers[n]| && c.peers[n][i] in s.procs ==> t.procs[c.peers[n][i]] == s.procs[c.peers[n][i]]
  }

  lemma TimeoutAsks(c: Config, s: State, n: NodeId)
    requires ValidConfig(c) && Has(c, s, n) && c.peers[n] != []
    requires s.procs[n].node.role != Leader && s.procs[n].election == NoElection && Electable(c, s, n)
    ensures Asking(c, s, After(c, s, [Timeout(n)]), n, 0)
  {
    assert [Timeout(n)][..0] == [];
    assert n !in c.peers[n];
    forall i | 0 <= i < |c.peers[n]| ensures c.peers[n][i] != n {
      assert c.peers[n][i] in c.peers[n];
    }
  }

  /** One more delivered request: the vote is granted, and it either completes the majority or not. */
  lemma VoteGranted(c: Config, s: State, t: State, n: NodeId, j: nat)
    requires ValidConfig(c) && Has(c, s, n) && Has(c, t, n) && Electable(c, s, n)
    requires j < |c.peers[n]| && Asking(c, s, t, n, j)
    ensures var u := DoAskVote(c, t, n, true);
      if 2 + j >= Majority(1 + |c.peers[n]|) then u.procs[n].node.role == Leader && u.procs[n].node.term == s.procs[n].node.term + 1 && Following(c, s, u, n)
      else Asking(c, s, u, n, j + 1)
  {
    var p := c.peers[n][j];
    assert p in c.peers[n] && p != n && p in t.procs;
    var req := VoteReq(s.procs[n].node.term + 1, n, |s.procs[n].node.log|, LastTerm(s.procs[n].node.log));
    var (t', resp) := CallVote(t, p, req, true);
    assert t.procs[p] == s.procs[p];
    assert resp == VoteResp(req.term, true);
    assert t'.procs[n] == t.procs[n];
    assert DoAskVote(c, t, n, true) == SetProc(t', n, VoteAnswer(c, n, t.procs[n], resp));
    forall i | j < i < |c.peers[n]| ensures c.peers[n][i] != p && c.peers[n][i] != n {
      assert c.peers[n][i] in c.peers[n];
    }
  }

  lemma {:induction false} VotesCollected(c: Config, s: State, t: State, n: NodeId, j: nat) returns (asks: seq<Step>)
    requires ValidConfig(c) && Has(c, s, n) && Has(c, t, n) && Electable(c, s, n) && Asking(c, s, t, n, 0)
    requires j < Majority(1 + |c.peers[n]|) - 1
    ensures Repeats(asks, AskVote(n, true), j) && Asking(c, s, After(c, t, asks), n, j)
  {
    asks := [];
    if j > 0 {
      asks := VotesCollected(c, s, t, n, j - 1);
      VoteGranted(c, s, After(c, t, asks), n, j - 1);
      AfterMore(c, t, asks, AskVote(n, true));
      asks := asks + [AskVote(n, true)];
    }
  }

  /** A timeout and k delivered vote requests. */
  ghost predicate Campaign(steps: seq<Step>, n: NodeId, k: nat) {
    steps != [] && steps[0] == Timeout(n) && Repeats(steps[1..], AskVote(n, true), k)
  }

  /**
   From any state: a node that is not leader, runs no election and has nobody ahead of it becomes
   leader of the next term, its log as it was, by its timeout and half the cluster's answers.
   */
  lemma ElectionWins(c: Config, s: State, n: NodeId) returns (steps: seq<Step>)
    requires ValidConfig(c) && Has(c, s, n) && Total(c) >= 2 && Electable(c, s, n)
    requires s.procs[n].node.role != Leader && s.procs[n].election == NoElection
    ensures Campaign(steps, n, Total(c) / 2)
    ensures var t := After(c, s, steps);
      t.procs[n].node.role == Leader && t.procs[n].node.term == s.procs[n].node.term + 1 && Following(c, s, t, n)
  {
    PeerCount(c, n);
    var k := Total(c) / 2;
    var t := After(c, s, [Timeout(n)]);
    TimeoutAsks(c, s, n);
    var asks := VotesCollected(c, s, t, n, k - 1);
    VoteGranted(c, s, After(c, t, asks), n, k - 1);
    AfterMore(c, t, asks, AskVote(n, true));
    asks := asks + [AskVote(n, true)];
    AfterConcat(c, s, [Timeout(n)], asks);
    steps := [Timeout(n)] + asks;
    assert steps[1..] == asks;
  }

  lemma CampaignUnique(a: seq<Step>, b: seq<Step>, n: NodeId, k: nat)
    requires Campaign(a, n, k) && Campaign(b, n, k)
    ensures a == b
  {
    assert a == [a[0]] + a[1..] && b == [b[0]] + b[1..];
    assert a[1..] == b[1..];
  }

  /** In particular every node of a new cluster becomes leader of term 1 that way. */
  lemma FirstElection(c: Config, n: NodeId, steps: seq<Step>)
    requires ValidConfig(c) && Total(c) >= 2 && n in c.peers && Campaign(steps, n, Total(c) / 2)
    ensures Run(c, steps).procs[n].node.role == Leader && Run(c, steps).procs[n].node.term == 1
    ensures Following(c, Init(c), Run(c, steps), n)
  {
    var won := ElectionWins(c, Init(c), n);
    CampaignUnique(won, steps, n, Total(c) / 2);
    RunAfter(c, [], won);
    assert [] + won == won;
  }

  // ---- a cluster of one ----

  predicate Alone(x: Proc) {
    x.node.role != Leader && x.election == NoElection && x.proposal == NoProposal
  }

  /** A node without peers asks nobody, so it never counts its own vote. */
  lemma {:induction false} LoneNode(c: Config, steps: seq<Step>, n: NodeId)
    requires ValidConfig(c) && c.peers.Keys == {n}
    ensures Alone(Run(c, steps).procs[n])
  {
    PeerCount(c, n);
    if steps != [] { LoneNode(c, steps[..|steps| - 1], n); }
  }

  /** A node can become leader at all if and only if there is another one. */
  lemma CanLeadIff(c: Config, n: NodeId)
    requires ValidConfig(c) && n in c.peers
    ensures (exists steps :: Run(c, steps).procs[n].node.role == Leader) <==> Total(c) >= 2
  {
    if Total(c) >= 2 {
      var steps := ElectionWins(c, Init(c), n);
      FirstElection(c, n, steps);
    } else {
      assert c.peers.Keys == {n} by { assert |c.peers.Keys - {n}| == |c.peers.Keys| - 1; }
      forall steps ensures Run(c, steps).procs[n].node.role != Leader {
        LoneNode(c, steps, n);
      }
    }
  }
}
