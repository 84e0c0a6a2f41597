/** Every step of the cluster keeps the invariant, with a history that grows. */
module RaftSteps {
  import opened Options
  import opened RaftTypes
  import opened RaftNodeSpec
  import opened RaftCluster
  import opened RaftHistory
  import opened RaftInvariant
  import opened RaftMoves
  import opened RaftReplication

  ghost function SeqSet<T>(s: seq<T>): set<T> {
    set x | x in s
  }

  lemma {:induction false} DistinctSize<T>(s: seq<T>)
    requires Distinct(s)
    ensures |SeqSet(s)| == |s|
  {
    if s != [] {
      var front := s[..|s| - 1];
      DistinctSize(front);
      assert SeqSet(s) == SeqSet(front) + {s[|s| - 1]};
    } else {
      assert SeqSet(s) == {};
    }
  }

  lemma PeerCount(c: Config, n: NodeId)
    requires ValidConfig(c) && n in c.peers
    ensures 1 + |c.peers[n]| == Total(c)
  {
    DistinctSize(c.peers[n]);
    assert forall p :: p in c.peers[n] <==> p in c.peers.Keys - {n};
    assert SeqSet(c.peers[n]) == c.peers.Keys - {n};
  }

  // ---- remote calls ----

  lemma SetTwice(s: State, n: NodeId, a: Node, b: Node)
    requires n in s.procs
    ensures SetNode(SetNode(s, n, a), n, b) == SetNode(s, n, b)
  {
    assert SetNode(SetNode(s, n, a), n, b).procs == SetNode(s, n, b).procs;
  }

  lemma SetSame(s: State, n: NodeId)
    requires n in s.procs
    ensures SetNode(s, n, s.procs[n].node) == s
  {
    assert SetNode(s, n, s.procs[n].node).procs == s.procs;
  }

  /** The ballot request matches what its sender stood for election with. */
  ghost predicate BallotReq(h: History, req: VoteReq) {
    && MayWin(h, req.term, req.candidate)
    && req.lastLogIndex == |Started(h, req.term, req.candidate)|
    && req.lastLogTerm == LastTerm(Started(h, req.term, req.candidate))
  }

  lemma VoteCall(c: Config, s: State, h: History, p: NodeId, req: VoteReq, delivered: bool) returns (h': History)
    requires Inv(c, s, h) && p in s.procs && BallotReq(h, req)
    ensures Grows(h, h') && Inv(c, CallVote(s, p, req, delivered).0, h')
    ensures CallVote(s, p, req, delivered).1.granted ==> Voted(h', req.term, p, req.candidate)
  {
    GrowsReflexive(c, s, h);
    h' := h;
    if delivered && req.term >= s.procs[p].node.term {
      var x := s.procs[p].node;
      var m := if req.term > x.term then BecomeFollower(x, req.term) else x;
      var s1 := SetNode(s, p, m);
      if req.term > x.term {
        StepDown(c, s, h, p, req.term);
      } else {
        SetSame(s, p);
      }
      assert Inv(c, s1, h);
      var granted := (m.votedFor == None || m.votedFor == Some(req.candidate)) && UpToDate(m.log, req.lastLogIndex, req.lastLogTerm);
      var y := if granted then m.(votedFor := Some(req.candidate)) else m;
      SetTwice(s, p, m, y);
      assert HandleVote(x, req).0 == y;
      if granted {
        if m.votedFor == None {
          h' := GrantVote(c, s1, h, p, req.candidate);
        } else {
          assert ProcInv(c, h, p, s1.procs[p]);
          assert y == m;
        }
      }
    } else if delivered {
      SetSame(s, p);
    }
  }

  /** The common start of every AppendEntries call that is not stale. */
  lemma HearLeader(c: Config, s: State, h: History, p: NodeId, term: nat) returns (m: Node)
    requires Inv(c, s, h) && p in s.procs && term >= s.procs[p].node.term
    ensures m == if term > s.procs[p].node.term then BecomeFollower(s.procs[p].node, term) else s.procs[p].node.(role := Follower)
    ensures Inv(c, SetNode(s, p, m), h)
  {
    var x := s.procs[p].node;
    if term > x.term {
      m := BecomeFollower(x, term);
      StepDown(c, s, h, p, term);
    } else {
      m := x.(role := Follower);
      Yield(c, s, h, p);
    }
  }

  /** Handling a request after its sender has been heard is handling the request. */
  lemma HandleAfterHearing(x: Node, m: Node, req: AppendReq)
    requires req.term >= x.term
    requires m == if req.term > x.term then BecomeFollower(x, req.term) else x.(role := Follower)
    ensures HandleAppend(m, req) == HandleAppend(x, req)
  {
  }

  lemma AppendCall(c: Config, s: State, h: History, p: NodeId, req: AppendReq, delivered: bool) returns (h': History)
    requires Inv(c, s, h) && p in s.procs && RequestOk(c, h, req)
    ensures Grows(h, h') && Inv(c, CallAppend(s, p, req, delivered).0, h')
    ensures h'.leaderLogs == h.leaderLogs && h'.elected == h.elected
    ensures CallAppend(s, p, req, delivered).1.success ==> Acked(h', req.term, p) == |LeaderLog(h, req.term)|
  {
    GrowsReflexive(c, s, h);
    h' := h;
    if delivered && req.term >= s.procs[p].node.term {
      var x := s.procs[p].node;
      var m := HearLeader(c, s, h, p, req.term);
      HandleAfterHearing(x, m, req);
      SetTwice(s, p, m, HandleAppend(x, req).0);
      if Consistent(m.log, req) {
        h' := FollowerAccepts(c, SetNode(s, p, m), h, p, req);
      }
    } else if delivered {
      SetSame(s, p);
    }
  }

  /** Raising the commit index to a covered prefix that is in the log. */
  lemma RaiseCommit(c: Config, s: State, h: History, n: NodeId, q: nat)
    requires Inv(c, s, h) && n in s.procs
    requires s.procs[n].node.commitIndex <= q <= |s.procs[n].node.log|
    requires Covered(c, h, s.procs[n].node.log[..q], s.procs[n].node.term)
    ensures Inv(c, SetNode(s, n, s.procs[n].node.(commitIndex := q)), h)
  {
    assert ProcInv(c, h, n, s.procs[n]);
    GrowsReflexive(c, s, h);
    OneProcess(c, s, h, SetNode(s, n, s.procs[n].node.(commitIndex := q)), h, n);
  }

  lemma AnnounceCommits(c: Config, h: History, x: Node, req: AppendReq)
    requires HistoryInv(c, h) && Sourced(h, x.log) && AnnounceOk(c, h, req) && Consistent(x.log, req)
    requires req.leaderCommit > 0
    ensures req.leaderCommit <= |x.log| && Covered(c, h, x.log[..req.leaderCommit], req.term)
  {
    var l := LeaderLog(h, req.prevLogTerm);
    assert LeaderLogInv(c, h, req.prevLogTerm);
    CheckedPrefix(c, h, x.log, l, req.prevLogIndex);
    assert x.log[..req.leaderCommit] == x.log[..req.prevLogIndex][..req.leaderCommit];
    assert l[..req.leaderCommit] == l[..req.prevLogIndex][..req.leaderCommit];
  }

  lemma AnnounceCall(c: Config, s: State, h: History, p: NodeId, req: AppendReq, delivered: bool)
    requires Inv(c, s, h) && p in s.procs && AnnounceOk(c, h, req)
    ensures Inv(c, CallAppend(s, p, req, delivered).0, h)
  {
    if delivered && req.term >= s.procs[p].node.term {
      var x := s.procs[p].node;
      var m := HearLeader(c, s, h, p, req.term);
      HandleAfterHearing(x, m, req);
      var y := HandleAppend(x, req).0;
      SetTwice(s, p, m, y);
      if Consistent(m.log, req) && req.leaderCommit > m.commitIndex {
        assert ProcInv(c, h, p, SetNode(s, p, m).procs[p]);
        AnnounceCommits(c, h, m, req);
        RaiseCommit(c, SetNode(s, p, m), h, p, req.leaderCommit);
        assert y == m.(commitIndex := req.leaderCommit);
      } else {
        assert y == m;
      }
    } else if delivered {
      SetSame(s, p);
    }
  }

  // ---- steps ----

  lemma SetProcTwice(s: State, n: NodeId, a: Proc, b: Proc)
    ensures SetProc(SetProc(s, n, a), n, b) == SetProc(s, n, b)
  {
    assert SetProc(SetProc(s, n, a), n, b).procs == SetProc(s, n, b).procs;
  }

  /** Stepping down and leaving a loop at once. */
  lemma StepDownFrom(c: Config, s: State, h: History, n: NodeId, t: nat, e: Election, p: Proposal)
    requires Inv(c, s, h) && n in s.procs && t > s.procs[n].node.term
    requires ElectionInv(c, h, n, s.procs[n].node, e)
    requires ProposalInv(c, h, n, s.procs[n].node, p)
    ensures Inv(c, SetProc(s, n, s.procs[n].(node := BecomeFollower(s.procs[n].node, t), election := e, proposal := p)), h)
  {
    var x := s.procs[n];
    var y := x.(election := e, proposal := p);
    ChangeLoops(c, s, h, n, e, p);
    StepDown(c, SetProc(s, n, y), h, n, t);
    SetProcTwice(s, n, y, y.(node := BecomeFollower(x.node, t)));
  }

  lemma WinElection(c: Config, s: State, h: History, n: NodeId) returns (h': History)
    requires Inv(c, s, h) && n in s.procs && s.procs[n].node.role == Candidate
    requires |Voters(c, h, s.procs[n].node.term, n)| >= Majority(Total(c))
    ensures Grows(h, h')
    ensures Inv(c, SetProc(s, n, s.procs[n].(node := BecomeLeader(s.procs[n].node, c.peers[n]), election := NoElection)), h')
  {
    var x := s.procs[n];
    assert ProcInv(c, h, n, x);
    var y := x.(election := NoElection);
    ChangeLoops(c, s, h, n, NoElection, x.proposal);
    h' := ElectLeader(c, SetProc(s, n, y), h, n);
    SetProcTwice(s, n, y, y.(node := BecomeLeader(x.node, c.peers[n])));
  }

  lemma CountVote(c: Config, h: History, n: NodeId, x: Node, e: Election, votes: nat)
    requires ValidConfig(c) && n in c.peers && ElectionInv(c, h, n, x, e) && e.Electing? && e.asked < |c.peers[n]|
    requires e.votes <= votes <= e.votes + if Voted(h, e.term, c.peers[n][e.asked], n) then 1 else 0
    ensures ElectionInv(c, h, n, x, e.(votes := votes, asked := e.asked + 1))
    ensures votes >= Majority(1 + |c.peers[n]|) ==> |Voters(c, h, e.term, n)| >= Majority(Total(c))
  {
    CountNext(h, e.term, n, 0, c.peers[n], e.asked);
    PeerCount(c, n);
    VotersOf(c, h, e.term, n);
    CountPrefix(h, e.term, n, 0, c.peers[n], e.asked + 1);
  }

  lemma AnswerVote(c: Config, s: State, h: History, n: NodeId, resp: VoteResp) returns (h': History)
    requires Inv(c, s, h) && n in s.procs
    requires s.procs[n].election.Electing? && s.procs[n].election.asked < |c.peers[n]|
    requires var e := s.procs[n].election; resp.granted ==> Voted(h, e.term, c.peers[n][e.asked], n)
    ensures Grows(h, h') && Inv(c, SetProc(s, n, VoteAnswer(c, n, s.procs[n], resp)), h')
  {
    var x := s.procs[n];
    var e := x.election;
    assert ProcInv(c, h, n, x);
    GrowsReflexive(c, s, h);
    h' := h;
    var votes := e.votes + if resp.granted then 1 else 0;
    CountVote(c, h, n, x.node, e, votes);
    if x.node.role == Candidate && x.node.term == e.term {
      if resp.term > x.node.term {
        StepDownFrom(c, s, h, n, resp.term, NoElection, x.proposal);
      } else if votes >= Majority(1 + |c.peers[n]|) {
        h' := WinElection(c, s, h, n);
      } else if e.asked + 1 >= |c.peers[n]| {
        ChangeLoops(c, s, h, n, NoElection, x.proposal);
      } else {
        ChangeLoops(c, s, h, n, e.(votes := votes, asked := e.asked + 1), x.proposal);
      }
    } else {
      ChangeLoops(c, s, h, n, NoElection, x.proposal);
    }
  }

  lemma StepAskVote(c: Config, s: State, h: History, n: NodeId, delivered: bool) returns (h': History)
    requires Inv(c, s, h) && n in s.procs
    ensures Grows(h, h') && Inv(c, DoAskVote(c, s, n, delivered), h')
  {
    GrowsReflexive(c, s, h);
    h' := h;
    if s.procs[n].election.Electing? && s.procs[n].election.asked < |c.peers[n]| {
      var e := s.procs[n].election;
      assert ProcInv(c, h, n, s.procs[n]);
      var req := VoteReq(e.term, n, e.lastIndex, e.lastTerm);
      var p := c.peers[n][e.asked];
      assert p in c.peers[n];
      var (s', resp) := CallVote(s, p, req, delivered);
      var h1 := VoteCall(c, s, h, p, req, delivered);
      h' := AnswerVote(c, s', h1, n, resp);
      GrowsTransitive(h, h1, h');
    }
  }

  lemma GrowsTransitive(a: History, b: History, d: History)
    requires Grows(a, b) && Grows(b, d)
    ensures Grows(a, d)
  {
    forall t: nat ensures LeaderLog(a, t) <= LeaderLog(d, t) {
      assert LeaderLog(a, t) <= LeaderLog(b, t) <= LeaderLog(d, t);
    }
  }

  lemma {:induction false} BuildOk(c: Config, h: History, n: NodeId, x: Node, p: NodeId)
    requires n in c.peers && NodeInv(c, h, n, x) && x.role == Leader && p in c.peers[n]
    ensures RequestOk(c, h, BuildAppend(x, n, p))
  {
    var next := x.nextIndex[p];
    assert 1 <= next <= |x.log| + 1;
    if next == |x.log| + 1 {
      assert x.log[|x.log|..] == [];
    }
  }

  /** Everyone that the match indices count has acknowledged as much. */
  lemma ReachedAreAckers(c: Config, h: History, n: NodeId, t: nat, last: nat, matched: map<NodeId, nat>, q: nat)
    requires ValidConfig(c) && n in c.peers && last <= Acked(h, t, n)
    requires forall p :: p in matched <==> p in c.peers[n]
    requires forall p :: p in matched ==> matched[p] <= Acked(h, t, p)
    ensures Reached(last, matched, q) <= |Ackers(c, h, t, q)|
    ensures |matched| + 1 == Total(c)
  {
    var reached := set p | p in matched && matched[p] >= q;
    forall p | p in reached ensures p in Ackers(c, h, t, q) {
      assert q <= matched[p] <= Acked(h, t, p);
    }
    if last >= q {
      SubsetSize(reached + {n}, Ackers(c, h, t, q));
    } else {
      SubsetSize(reached, Ackers(c, h, t, q));
    }
    assert forall p :: p in c.peers[n] <==> p in matched.Keys;
    assert matched.Keys == SeqSet(c.peers[n]);
    DistinctSize(c.peers[n]);
    PeerCount(c, n);
  }

  /** What the commit rule commits is held by a commit quorum. */
  lemma AdvanceCommits(c: Config, h: History, n: NodeId, x: Node)
    requires ValidConfig(c) && HistoryInv(c, h) && n in c.peers && LeaderInv(c, h, n, x)
    requires TermAt(x.log, QuorumIndex(|x.log|, x.matchIndex)) == x.term
    ensures var q := QuorumIndex(|x.log|, x.matchIndex);
      q <= |x.log| && Covered(c, h, x.log[..q], x.term)
  {
    var q := QuorumIndex(|x.log|, x.matchIndex);
    assert LeaderLogInv(c, h, x.term);
    ReachedAreAckers(c, h, n, x.term, |x.log|, x.matchIndex, q);
    assert CoveredBy(c, h, x.log[..q], x.term, x.term, q);
  }

  lemma Advance(c: Config, s: State, h: History, n: NodeId)
    requires Inv(c, s, h) && n in s.procs && s.procs[n].node.role == Leader
    ensures Inv(c, SetNode(s, n, AdvanceCommit(s.procs[n].node)), h)
  {
    var x := s.procs[n].node;
    assert ProcInv(c, h, n, s.procs[n]);
    var q := QuorumIndex(|x.log|, x.matchIndex);
    if q > x.commitIndex && TermAt(x.log, q) == x.term {
      AdvanceCommits(c, h, n, x);
      RaiseCommit(c, s, h, n, q);
    } else {
      SetSame(s, n);
    }
  }

  /** New replication indices of a leader within the bounds the invariant asks for. */
  lemma SetIndices(c: Config, s: State, h: History, n: NodeId, p: NodeId, next: nat, matched: nat)
    requires Inv(c, s, h) && n in s.procs && s.procs[n].node.role == Leader && p in c.peers[n]
    requires 1 <= next <= |s.procs[n].node.log| + 1
    requires matched <= Acked(h, s.procs[n].node.term, p)
    ensures var x := s.procs[n].node;
      Inv(c, SetNode(s, n, x.(matchIndex := x.matchIndex[p := matched], nextIndex := x.nextIndex[p := next])), h)
  {
    assert ProcInv(c, h, n, s.procs[n]);
    GrowsReflexive(c, s, h);
    var x := s.procs[n].node;
    OneProcess(c, s, h, SetNode(s, n, x.(matchIndex := x.matchIndex[p := matched], nextIndex := x.nextIndex[p := next])), h, n);
  }

  lemma Replicated(c: Config, s: State, h: History, n: NodeId, p: NodeId, sent: nat)
    requires Inv(c, s, h) && n in s.procs && s.procs[n].node.role == Leader && p in c.peers[n]
    requires sent <= |s.procs[n].node.log| && sent <= Acked(h, s.procs[n].node.term, p)
    ensures var x := s.procs[n].node;
      Inv(c, SetNode(s, n, AdvanceCommit(x.(matchIndex := x.matchIndex[p := sent], nextIndex := x.nextIndex[p := sent + 1]))), h)
  {
    var x := s.procs[n].node;
    var y := x.(matchIndex := x.matchIndex[p := sent], nextIndex := x.nextIndex[p := sent + 1]);
    SetIndices(c, s, h, n, p, sent + 1, sent);
    Advance(c, SetNode(s, n, y), h, n);
    SetTwice(s, n, y, AdvanceCommit(y));
  }

  lemma Backtrack(c: Config, s: State, h: History, n: NodeId, p: NodeId)
    requires Inv(c, s, h) && n in s.procs && s.procs[n].node.role == Leader && p in c.peers[n]
    requires p in s.procs[n].node.nextIndex && s.procs[n].node.nextIndex[p] > 1
    ensures var x := s.procs[n].node;
      Inv(c, SetNode(s, n, x.(nextIndex := x.nextIndex[p := x.nextIndex[p] - 1])), h)
  {
    var x := s.procs[n].node;
    assert ProcInv(c, h, n, s.procs[n]);
    SetIndices(c, s, h, n, p, x.nextIndex[p] - 1, x.matchIndex[p]);
    assert x.matchIndex[p := x.matchIndex[p]] == x.matchIndex;
  }

  lemma AnswerHeartbeat(c: Config, s: State, h: History, n: NodeId, p: NodeId, req: AppendReq, resp: AppendResp)
    requires Inv(c, s, h) && n in s.procs && s.procs[n].node.role == Leader && p in c.peers[n]
    requires req.prevLogIndex + |req.entries| <= |s.procs[n].node.log|
    requires resp.success ==> Acked(h, s.procs[n].node.term, p) == |s.procs[n].node.log|
    ensures Inv(c, SetNode(s, n, HeartbeatAnswer(s.procs[n].node, p, req, resp)), h)
  {
    var x := s.procs[n].node;
    if resp.term > x.term {
      StepDown(c, s, h, n, resp.term);
    } else if resp.success {
      if req.entries == [] {
        Advance(c, s, h, n);
      } else {
        Replicated(c, s, h, n, p, req.prevLogIndex + |req.entries|);
      }
    } else if p in x.nextIndex && x.nextIndex[p] > 1 {
      Backtrack(c, s, h, n, p);
    } else {
      SetSame(s, n);
    }
  }

  lemma StepHeartbeat(c: Config, s: State, h: History, n: NodeId, p: NodeId, delivered: bool) returns (h': History)
    requires Inv(c, s, h) && n in s.procs
    ensures Grows(h, h') && Inv(c, DoHeartbeat(c, s, n, p, delivered), h')
  {
    GrowsReflexive(c, s, h);
    h' := h;
    if s.procs[n].node.role == Leader && p in c.peers[n] {
      var x := s.procs[n].node;
      assert ProcInv(c, h, n, s.procs[n]);
      var req := BuildAppend(x, n, p);
      BuildOk(c, h, n, x, p);
      var (s', resp) := CallAppend(s, p, req, delivered);
      h' := AppendCall(c, s, h, p, req, delivered);
      assert s'.procs[n] == s.procs[n];
      AnswerHeartbeat(c, s', h', n, p, req, resp);
    }
  }

  lemma AnswerReplicate(c: Config, s: State, h: History, n: NodeId, resp: AppendResp)
    requires Inv(c, s, h) && n in s.procs
    requires s.procs[n].proposal.Replicating? && s.procs[n].proposal.asked < |c.peers[n]|
    requires var r := s.procs[n].proposal; resp.success ==> Acked(h, r.term, c.peers[n][r.asked]) >= r.prevIndex + 1
    ensures Inv(c, SetProc(s, n, ReplicateAnswer(c, n, s.procs[n], resp)), h)
  {
    var x := s.procs[n];
    var r := x.proposal;
    assert ProcInv(c, h, n, x);
    if x.node.role != Leader {
      ChangeLoops(c, s, h, n, x.election, NoProposal);
    } else if resp.term > x.node.term {
      StepDownFrom(c, s, h, n, resp.term, x.election, NoProposal);
    } else {
      var y := ReplicateAnswer(c, n, x, resp);
      CountNext(h, r.term, n, r.prevIndex + 1, c.peers[n], r.asked);
      CountPrefix(h, r.term, n, r.prevIndex + 1, c.peers[n], r.asked + 1);
      assert c.peers[n][..|c.peers[n]|] == c.peers[n];
      ChangeLoops(c, s, h, n, x.election, y.proposal);
    }
  }

  lemma ReplicateOk(c: Config, h: History, n: NodeId, r: Proposal)
    requires n in c.peers && r.Replicating? && ReplicatingInv(c, h, n, r)
    ensures RequestOk(c, h, ReplicateReq(n, r))
  {
    var log := LeaderLog(h, r.term);
    assert log[r.prevIndex..] == [r.entry];
    assert log[..0] == [];
  }

  lemma StepReplicate(c: Config, s: State, h: History, n: NodeId, delivered: bool) returns (h': History)
    requires Inv(c, s, h) && n in s.procs
    ensures Grows(h, h') && Inv(c, DoReplicate(c, s, n, delivered), h')
  {
    GrowsReflexive(c, s, h);
    h' := h;
    if s.procs[n].proposal.Replicating? && s.procs[n].proposal.asked < |c.peers[n]| {
      var r := s.procs[n].proposal;
      assert ReplicatingInv(c, h, n, r) by {
        assert ProcInv(c, h, n, s.procs[n]);
      }
      var req := ReplicateReq(n, r);
      var p := c.peers[n][r.asked];
      assert p in c.peers[n];
      ReplicateOk(c, h, n, r);
      var (s', resp) := CallAppend(s, p, req, delivered);
      h' := AppendCall(c, s, h, p, req, delivered);
      AnswerReplicate(c, s', h', n, resp);
    }
  }

  lemma AnnounceReqOk(c: Config, h: History, n: NodeId, x: Node)
    requires n in c.peers && NodeInv(c, h, n, x)
    ensures AnnounceOk(c, h, AnnounceReq(n, x))
  {
    var k := |x.log|;
    if k > 0 {
      assert SourcedAt(h, x.log, k - 1);
      assert x.log[..k] == x.log;
      assert LeaderLog(h, LastTerm(x.log))[..x.commitIndex] == x.log[..x.commitIndex];
    }
  }

  lemma StepEndReplication(c: Config, s: State, h: History, n: NodeId)
    requires Inv(c, s, h) && n in s.procs
    ensures Inv(c, DoEndReplication(c, s, n), h)
  {
    if s.procs[n].proposal.Replicating? && s.procs[n].proposal.asked >= |c.peers[n]| {
      var x := s.procs[n];
      var r := x.proposal;
      assert ProcInv(c, h, n, x);
      AnnounceReqOk(c, h, n, x.node);
      PeerCount(c, n);
      AckersOf(c, h, r.term, n, r.prevIndex + 1);
      assert c.peers[n][..|c.peers[n]|] == c.peers[n];
      var y := EndReplicationProc(c, n, x);
      if y.proposal.Announcing? {
        assert CommittedIn(c, h, r.term, r.prevIndex + 1);
      }
      ChangeLoops(c, s, h, n, x.election, y.proposal);
    }
  }

  lemma AnswerAnnounce(c: Config, s: State, h: History, n: NodeId, resp: AppendResp)
    requires Inv(c, s, h) && n in s.procs
    requires s.procs[n].proposal.Announcing?
    ensures Inv(c, SetProc(s, n, AnnounceAnswer(c, n, s.procs[n], resp)), h)
  {
    var x := s.procs[n];
    assert ProcInv(c, h, n, x);
    var y := AnnounceAnswer(c, n, x, resp);
    if resp.term > x.node.term {
      StepDownFrom(c, s, h, n, resp.term, x.election, y.proposal);
    } else {
      ChangeLoops(c, s, h, n, x.election, y.proposal);
    }
  }

  lemma StepAnnounce(c: Config, s: State, h: History, n: NodeId, delivered: bool)
    requires Inv(c, s, h) && n in s.procs
    ensures Inv(c, DoAnnounce(c, s, n, delivered), h)
  {
    if s.procs[n].proposal.Announcing? {
      var x := s.procs[n];
      assert ProcInv(c, h, n, x);
      if x.proposal.asked >= |c.peers[n]| {
        ChangeLoops(c, s, h, n, x.election, NoProposal);
      } else {
        var p := c.peers[n][x.proposal.asked];
        assert p in c.peers[n];
        var (s', resp) := CallAppend(s, p, x.proposal.req, delivered);
        AnnounceCall(c, s, h, p, x.proposal.req, delivered);
        AnswerAnnounce(c, s', h, n, resp);
      }
    }
  }

  lemma StepApply(c: Config, s: State, h: History, n: NodeId)
    requires Inv(c, s, h) && n in s.procs
    ensures Inv(c, DoApply(c, s, n), h)
  {
    if s.procs[n].node.lastApplied < s.procs[n].node.commitIndex <= |s.procs[n].node.log| {
      var x := s.procs[n];
      assert ProcInv(c, h, n, x);
      GrowsReflexive(c, s, h);
      assert ProcInv(c, h, n, ApplyProc(x));
      OneProcess(c, s, h, SetProc(s, n, ApplyProc(x)), h, n);
    }
  }

  /** Every step keeps the invariant. */
  lemma StepKeepsInv(c: Config, s: State, h: History, step: Step) returns (h': History)
    requires Inv(c, s, h)
    ensures Grows(h, h') && Inv(c, Next(c, s, step), h')
  {
    GrowsReflexive(c, s, h);
    h' := h;
    if step.n in s.procs {
      match step
      case Timeout(n) =>
        if s.procs[n].node.role != Leader && s.procs[n].election == NoElection {
          h' := StartElection(c, s, h, n);
        }
      case AskVote(n, delivered) => h' := StepAskVote(c, s, h, n, delivered);
      case Heartbeat(n, p, delivered) => h' := StepHeartbeat(c, s, h, n, p, delivered);
      case Propose(n, op, key, value) =>
        if s.procs[n].node.role == Leader && s.procs[n].proposal == NoProposal {
          h' := LeaderAppends(c, s, h, n, op, key, value);
        }
      case Replicate(n, delivered) => h' := StepReplicate(c, s, h, n, delivered);
      case EndReplication(n) => StepEndReplication(c, s, h, n);
      case Announce(n, delivered) => StepAnnounce(c, s, h, n, delivered);
      case Apply(n) => StepApply(c, s, h, n);
    }
  }
}
