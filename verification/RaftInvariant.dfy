/** The invariant of the cluster, relative to a history of the run. */
module RaftInvariant {
  import opened RaftTypes
  import opened RaftCluster
  import opened RaftHistory

  /** Nothing is recorded for a node in a term it has not reached. */
  ghost predicate NoFuture(h: History, n: NodeId, x: Node) {
    forall t: nat :: t > x.term ==> Unreached(h, t, n)
  }

  ghost predicate Unreached(h: History, t: nat, n: NodeId) {
    !Balloted(h, t, n) && !Stood(h, t, n) && Acked(h, t, n) == 0
  }

  lemma KeepsNoFuture(h: History, h': History, n: NodeId, x: Node, y: Node)
    requires NoFuture(h, n, x) && x.term <= y.term
    requires forall t: nat :: t > y.term ==>
      Balloted(h', t, n) == Balloted(h, t, n) && Stood(h', t, n) == Stood(h, t, n) && Acked(h', t, n) == Acked(h, t, n)
    ensures NoFuture(h', n, y)
  {
    forall t: nat | t > y.term ensures Unreached(h', t, n) {
      assert Unreached(h, t, n);
    }
  }

  ghost predicate VoteMatches(h: History, n: NodeId, x: Node) {
    match x.votedFor
    case None => !Balloted(h, x.term, n)
    case Some(cand) => Voted(h, x.term, n, cand)
  }

  /** Whatever the node matched under some leader it still has, unless a later leader skipped it. */
  ghost predicate Retains(h: History, n: NodeId, x: Node) {
    forall t: nat, k: nat :: RetainsAt(h, n, x.log, x.term, t, k)
  }

  ghost predicate RetainsAt(h: History, n: NodeId, log: Log, term: nat, t: nat, k: nat) {
    Vouches(h, t, k, n, log, term + 1)
  }

  ghost predicate LeaderInv(c: Config, h: History, n: NodeId, x: Node)
    requires n in c.peers
  {
    && LeaderOf(h, x.term, n)
    && x.log == LeaderLog(h, x.term)
    && Acked(h, x.term, n) == |x.log|
    && (forall p :: p in c.peers[n] <==> p in x.nextIndex)
    && (forall p :: p in c.peers[n] <==> p in x.matchIndex)
    && (forall p :: p in x.nextIndex ==> 1 <= x.nextIndex[p] <= |x.log| + 1)
    && (forall p :: p in x.matchIndex ==> x.matchIndex[p] <= Acked(h, x.term, p))
  }

  ghost predicate CandidateInv(h: History, n: NodeId, x: Node) {
    && Stood(h, x.term, n)
    && Started(h, x.term, n) == x.log
    && TermsAtMost(x.log, x.term - 1)
    && x.term > 0
    && !LeaderOf(h, x.term, n)
  }

  ghost predicate CommitInv(c: Config, h: History, x: Node) {
    && x.lastApplied <= x.commitIndex <= |x.log|
    && Covered(c, h, x.log[..x.commitIndex], x.term)
  }

  ghost predicate NodeInv(c: Config, h: History, n: NodeId, x: Node)
    requires n in c.peers
  {
    && Sourced(h, x.log)
    && TermsAtMost(x.log, x.term)
    && NoFuture(h, n, x)
    && VoteMatches(h, n, x)
    && Retains(h, n, x)
    && (x.role == Leader ==> LeaderInv(c, h, n, x))
    && (x.role == Candidate ==> CandidateInv(h, n, x))
    && CommitInv(c, h, x)
    && (forall p :: p in x.nextIndex || p in x.matchIndex ==> p in c.peers[n])
  }

  ghost predicate ElectionInv(c: Config, h: History, n: NodeId, x: Node, e: Election)
    requires n in c.peers
  {
    e.Electing? ==>
      && e.term <= x.term
      && Stood(h, e.term, n)
      && e.lastIndex == |Started(h, e.term, n)|
      && e.lastTerm == LastTerm(Started(h, e.term, n))
      && Sourced(h, Started(h, e.term, n))
      && TermsAtMost(Started(h, e.term, n), e.term - 1)
      && !LeaderOf(h, e.term, n)
      && Voted(h, e.term, n, n)
      && e.asked <= |c.peers[n]|
      && e.votes <= 1 + CountVoted(h, e.term, n, c.peers[n][..e.asked])
  }

  ghost predicate ReplicatingInv(c: Config, h: History, n: NodeId, r: Proposal)
    requires n in c.peers && r.Replicating?
  {
    && LeaderOf(h, r.term, n)
    && |LeaderLog(h, r.term)| == r.prevIndex + 1
    && LeaderLog(h, r.term)[r.prevIndex] == r.entry
    && r.entry.term == r.term
    && r.prevTerm == TermAt(LeaderLog(h, r.term), r.prevIndex)
    && Acked(h, r.term, n) >= r.prevIndex + 1
    && r.asked <= |c.peers[n]|
    && r.acks <= 1 + CountAcked(h, r.term, r.prevIndex + 1, c.peers[n][..r.asked])
  }

  /** A request without entries whose commit index is backed by the entry it names. */
  ghost predicate AnnounceOk(c: Config, h: History, req: AppendReq) {
    && req.entries == []
    && req.leaderCommit <= req.prevLogIndex
    && (req.prevLogIndex > 0 ==>
          && Point(h, req.prevLogTerm, req.prevLogIndex)
          && req.prevLogTerm <= req.term
          && Covered(c, h, LeaderLog(h, req.prevLogTerm)[..req.leaderCommit], req.term))
  }

  ghost predicate ReceiptOk(c: Config, h: History, r: Receipt) {
    CommittedIn(c, h, r.term, r.index) && LeaderLog(h, r.term)[r.index - 1] == r.entry
  }

  ghost predicate ProposalInv(c: Config, h: History, n: NodeId, x: Node, p: Proposal)
    requires n in c.peers
  {
    match p
    case NoProposal => true
    case Replicating(_, _, _, _, _, _) => ReplicatingInv(c, h, n, p)
    case Announcing(req, receipt, _) =>
      && AnnounceOk(c, h, req)
      && req.term <= x.term
      && ReceiptOk(c, h, receipt)
  }

  ghost predicate ProcInv(c: Config, h: History, n: NodeId, x: Proc)
    requires n in c.peers
  {
    && NodeInv(c, h, n, x.node)
    && ElectionInv(c, h, n, x.node, x.election)
    && ProposalInv(c, h, n, x.node, x.proposal)
    && x.applied == x.node.log[..x.node.lastApplied]
  }

  ghost predicate Inv(c: Config, s: State, h: History) {
    && ValidConfig(c)
    && s.procs.Keys == c.peers.Keys
    && HistoryInv(c, h)
    && (forall t :: t in h.elected ==> Stood(h, t, h.elected[t]))
    && (forall n {:trigger ProcInv(c, h, n, s.procs[n])} :: n in s.procs ==> ProcInv(c, h, n, s.procs[n]))
    && (forall r :: r in s.receipts ==> ReceiptOk(c, h, r))
  }

  // ---- what a growing history keeps ----

  /** No new fact is about node n, except ballots cast for it and acknowledgements of its log. */
  ghost predicate SameFor(h: History, h': History, n: NodeId) {
    && (forall t: nat :: Balloted(h', t, n) == Balloted(h, t, n))
    && (forall t: nat :: Stood(h', t, n) == Stood(h, t, n))
    && (forall t: nat :: Acked(h', t, n) == Acked(h, t, n))
    && SameLeader(h, h', n)
  }

  /** Node n neither won an election nor added an entry as a leader. */
  ghost predicate SameLeader(h: History, h': History, n: NodeId) {
    forall t: nat :: LeaderOf(h', t, n) ==> LeaderOf(h, t, n) && LeaderLog(h', t) == LeaderLog(h, t)
  }

  lemma OtherNode(c: Config, h: History, h': History, n: NodeId, x: Node)
    requires n in c.peers && NodeInv(c, h, n, x) && HistoryInv(c, h)
    requires Grows(h, h') && SameFor(h, h', n)
    ensures NodeInv(c, h', n, x)
  {
    GrowsSourced(h, h', x.log);
    KeepsNoFuture(h, h', n, x, x);
    GrowsCovered(c, h, h', x.log[..x.commitIndex], x.term, x.term);
    forall t: nat, k: nat ensures RetainsAt(h', n, x.log, x.term, t, k) {
      assert RetainsAt(h, n, x.log, x.term, t, k);
      GrowsVouches(c, h, h', t, k, n, x.log, x.term + 1, x.term + 1);
    }
  }

  lemma GrowsVouches(c: Config, h: History, h': History, t: nat, k: nat, n: NodeId, log: Log, hi: nat, hi': nat)
    requires HistoryInv(c, h) && Grows(h, h') && hi <= hi'
    requires Vouches(h, t, k, n, log, hi) && Acked(h', t, n) == Acked(h, t, n)
    ensures Vouches(h', t, k, n, log, hi')
  {
    if Point(h', t, k) && k <= Acked(h', t, n) {
      OldPoint(c, h, h', n, t, k);
      if !(Pref(h, t, k) <= log) {
        GrowsSkipped(h, h', t, k, hi, hi');
      }
    }
  }

  /** A point within what a node had acknowledged was a point before. */
  lemma OldPoint(c: Config, h: History, h': History, n: NodeId, t: nat, k: nat)
    requires HistoryInv(c, h) && Grows(h, h')
    requires Point(h', t, k) && k <= Acked(h, t, n)
    ensures Point(h, t, k) && Pref(h, t, k) == Pref(h', t, k)
  {
    assert Acked(h, t, n) <= |LeaderLog(h, t)|;
    assert LeaderLog(h, t) <= LeaderLog(h', t);
    assert LeaderLog(h, t)[k - 1] == LeaderLog(h', t)[k - 1];
    assert t in h.leaderLogs;
  }

  lemma OtherElection(c: Config, h: History, h': History, n: NodeId, x: Node, x': Node, e: Election)
    requires n in c.peers && ElectionInv(c, h, n, x, e)
    requires Grows(h, h') && SameLeader(h, h', n) && x.term <= x'.term
    ensures ElectionInv(c, h', n, x', e)
  {
    if e.Electing? {
      GrowsSourced(h, h', Started(h, e.term, n));
      GrowsCounts(h, h', e.term, n, 0, c.peers[n][..e.asked]);
    }
  }

  lemma GrowsReceipt(c: Config, h: History, h': History, r: Receipt)
    requires Grows(h, h') && ReceiptOk(c, h, r)
    ensures ReceiptOk(c, h', r)
  {
    GrowsCommitted(c, h, h', r.term, r.index);
    assert LeaderLog(h', r.term)[r.index - 1] == Pref(h', r.term, r.index)[r.index - 1];
  }

  lemma GrowsAnnounce(c: Config, h: History, h': History, req: AppendReq)
    requires Grows(h, h') && AnnounceOk(c, h, req)
    ensures AnnounceOk(c, h', req)
  {
    if req.prevLogIndex > 0 {
      var l, l' := LeaderLog(h, req.prevLogTerm), LeaderLog(h', req.prevLogTerm);
      assert l <= l';
      assert l[req.prevLogIndex - 1] == l'[req.prevLogIndex - 1];
      assert l[..req.leaderCommit] == l'[..req.leaderCommit];
      GrowsCovered(c, h, h', l[..req.leaderCommit], req.term, req.term);
    }
  }

  lemma OtherProposal(c: Config, h: History, h': History, n: NodeId, x: Node, x': Node, p: Proposal)
    requires n in c.peers && ProposalInv(c, h, n, x, p)
    requires Grows(h, h') && SameLeader(h, h', n) && x.term <= x'.term
    ensures ProposalInv(c, h', n, x', p)
  {
    match p
    case NoProposal =>
    case Replicating(_, _, _, _, _, _) =>
      assert LeaderOf(h', p.term, n);
      GrowsCounts(h, h', p.term, n, p.prevIndex + 1, c.peers[n][..p.asked]);
    case Announcing(req, receipt, _) =>
      GrowsAnnounce(c, h, h', req);
      GrowsReceipt(c, h, h', receipt);
  }

  lemma OtherProc(c: Config, h: History, h': History, n: NodeId, x: Proc)
    requires n in c.peers && ProcInv(c, h, n, x) && HistoryInv(c, h)
    requires Grows(h, h') && SameFor(h, h', n)
    ensures ProcInv(c, h', n, x)
  {
    OtherNode(c, h, h', n, x.node);
    OtherElection(c, h, h', n, x.node, x.node, x.election);
    OtherProposal(c, h, h', n, x.node, x.node, x.proposal);
  }

  /** A step of one process: the others keep their invariant if the history says nothing new of them. */
  lemma OneProcess(c: Config, s: State, h: History, s': State, h': History, n: NodeId)
    requires Inv(c, s, h) && n in s.procs
    requires Grows(h, h') && HistoryInv(c, h')
    requires forall t :: t in h'.elected ==> Stood(h', t, h'.elected[t])
    requires s'.procs.Keys == s.procs.Keys
    requires forall m :: m in s.procs && m != n ==> s'.procs[m] == s.procs[m] && SameFor(h, h', m)
    requires ProcInv(c, h', n, s'.procs[n])
    requires forall r :: r in s'.receipts && r !in s.receipts ==> ReceiptOk(c, h', r)
    ensures Inv(c, s', h')
  {
    forall m | m in s'.procs ensures ProcInv(c, h', m, s'.procs[m]) {
      if m != n {
        assert ProcInv(c, h, m, s.procs[m]);
        OtherProc(c, h, h', m, s.procs[m]);
      }
    }
    forall r | r in s'.receipts ensures ReceiptOk(c, h', r) {
      if r in s.receipts {
        GrowsReceipt(c, h, h', r);
      }
    }
  }
}
