/** The moves that steps are made of, each shown to keep the cluster invariant. */
module RaftMoves {
  import opened Options
  import opened RaftTypes
  import opened RaftNodeSpec
  import opened RaftCluster
  import opened RaftHistory
  import opened RaftInvariant

  lemma GrowsReflexive(c: Config, s: State, h: History)
    requires Inv(c, s, h)
    ensures Grows(h, h)
  {
  }

  /** A higher term makes a follower without a vote. */
  lemma StepDown(c: Config, s: State, h: History, n: NodeId, t: nat)
    requires Inv(c, s, h) && n in s.procs && t > s.procs[n].node.term
    ensures Inv(c, SetNode(s, n, BecomeFollower(s.procs[n].node, t)), h)
  {
    var x := s.procs[n].node;
    var x' := BecomeFollower(x, t);
    assert ProcInv(c, h, n, s.procs[n]);
    assert Unreached(h, t, n);
    GrowsCovered(c, h, h, x.log[..x.commitIndex], x.term, t);
    forall u: nat, k: nat ensures RetainsAt(h, n, x.log, t, u, k) {
      assert RetainsAt(h, n, x.log, x.term, u, k);
      GrowsVouches(c, h, h, u, k, n, x.log, x.term + 1, t + 1);
    }
    OneProcess(c, s, h, SetNode(s, n, x'), h, n);
  }

  /** A leader or candidate that hears from a leader of its own term follows it. */
  lemma Yield(c: Config, s: State, h: History, n: NodeId)
    requires Inv(c, s, h) && n in s.procs
    ensures Inv(c, SetNode(s, n, s.procs[n].node.(role := Follower)), h)
  {
    assert ProcInv(c, h, n, s.procs[n]);
    OneProcess(c, s, h, SetNode(s, n, s.procs[n].node.(role := Follower)), h, n);
  }

  /** Changing only loop variables. */
  lemma ChangeLoops(c: Config, s: State, h: History, n: NodeId, e: Election, p: Proposal)
    requires Inv(c, s, h) && n in s.procs
    requires ElectionInv(c, h, n, s.procs[n].node, e)
    requires ProposalInv(c, h, n, s.procs[n].node, p)
    ensures Inv(c, SetProc(s, n, s.procs[n].(election := e, proposal := p)), h)
  {
    assert ProcInv(c, h, n, s.procs[n]);
    OneProcess(c, s, h, SetProc(s, n, s.procs[n].(election := e, proposal := p)), h, n);
  }

  // ---- elections ----

  /** The two histories differ at most in the ballot of v in term t and the candidacies of that term. */
  ghost predicate SameBut(h: History, h': History, t: nat, v: NodeId) {
    && h'.elected == h.elected
    && h'.leaderLogs == h.leaderLogs
    && h'.acked == h.acked
    && (forall u: nat, m, d :: u != t || m != v ==> (Voted(h', u, m, d) <==> Voted(h, u, m, d)))
    && (forall u: nat, m :: u != t || m != v ==> Balloted(h', u, m) == Balloted(h, u, m))
    && (forall u: nat, m :: u != t || m != v ==> Stood(h', u, m) == Stood(h, u, m))
  }

  lemma OthersSame(h: History, h': History, t: nat, v: NodeId, m: NodeId)
    requires SameBut(h, h', t, v) && m != v
    ensures SameFor(h, h', m)
  {
  }

  /** Adding a ballot keeps the history invariant if the ballot itself is sound. */
  lemma BallotAdded(c: Config, h: History, h': History, t: nat, v: NodeId, cand: NodeId)
    requires HistoryInv(c, h) && Grows(h, h') && SameBut(h, h', t, v)
    requires Voted(h', t, v, cand) && BallotInv(h', t, v, cand)
    ensures HistoryInv(c, h')
  {
    forall u | u in h'.elected ensures LeaderLogInv(c, h', u) {
      assert LeaderLogInv(c, h, u);
      GrowsSourced(h, h', LeaderLog(h, u));
      SubsetSize(Voters(c, h, u, h.elected[u]), Voters(c, h', u, h.elected[u]));
      assert StartLog(h', u) == StartLog(h, u);
    }
    forall u: nat, w, d ensures BallotInv(h', u, w, d) {
      if u != t || w != v {
        assert Voted(h', u, w, d) ==> Voted(h, u, w, d);
        assert BallotInv(h, u, w, d);
        KeepsBallot(c, h, h', u, w, d);
      }
    }
  }

  /** A ballot stays sound while its voter acknowledges nothing older than the ballot. */
  lemma KeepsBallot(c: Config, h: History, h': History, t: nat, v: NodeId, cand: NodeId)
    requires HistoryInv(c, h) && Grows(h, h') && BallotInv(h, t, v, cand)
    requires Voted(h', t, v, cand) ==> Voted(h, t, v, cand)
    requires forall u: nat :: u < t ==> Acked(h', u, v) == Acked(h, u, v)
    ensures BallotInv(h', t, v, cand)
  {
    if Voted(h', t, v, cand) && (t in h'.elected ==> h'.elected[t] == cand) {
      var log := Started(h, t, cand);
      forall u: nat, k: nat | u < t ensures Vouches(h', u, k, v, log, t) {
        assert Vouches(h, u, k, v, log, t);
        GrowsVouches(c, h, h', u, k, v, log, t, t);
      }
    }
  }

  ghost predicate Stands(h: History, h': History, t: nat, n: NodeId, log: Log) {
    Grows(h, h') && SameBut(h, h', t, n) && Voted(h', t, n, n) && Stood(h', t, n) && Started(h', t, n) == log
  }

  lemma Stand(h: History, t: nat, n: NodeId, log: Log) returns (h': History)
    requires !Balloted(h, t, n) && !Stood(h, t, n)
    requires forall t :: t in h.elected ==> Stood(h, t, h.elected[t])
    ensures Stands(h, h', t, n, log)
  {
    h' := h.(ballots := h.ballots[(t, n) := n], started := h.started[(t, n) := log]);
  }

  lemma StandHistory(c: Config, h: History, h': History, n: NodeId, x: Node)
    requires HistoryInv(c, h) && n in c.peers && NodeInv(c, h, n, x)
    requires Stands(h, h', x.term + 1, n, x.log)
    ensures HistoryInv(c, h')
  {
    var t := x.term + 1;
    forall u: nat, k: nat ensures Vouches(h', u, k, n, x.log, t) {
      assert RetainsAt(h, n, x.log, x.term, u, k);
      GrowsVouches(c, h, h', u, k, n, x.log, t, t);
    }
    BallotAdded(c, h, h', t, n, n);
  }

  lemma StandNode(c: Config, h: History, h': History, n: NodeId, x: Node)
    requires HistoryInv(c, h) && n in c.peers && NodeInv(c, h, n, x) && x.role != Leader
    requires Stands(h, h', x.term + 1, n, x.log)
    ensures NodeInv(c, h', n, BecomeCandidate(x, n))
  {
    var t := x.term + 1;
    GrowsSourced(h, h', x.log);
    KeepsNoFuture(h, h', n, x, BecomeCandidate(x, n));
    assert Unreached(h, t, n);
    GrowsCovered(c, h, h', x.log[..x.commitIndex], x.term, t);
    forall u: nat, k: nat ensures RetainsAt(h', n, x.log, t, u, k) {
      assert RetainsAt(h, n, x.log, x.term, u, k);
      GrowsVouches(c, h, h', u, k, n, x.log, t, t + 1);
    }
  }

  lemma StandBallot(c: Config, h: History, h': History, n: NodeId, x: Node, log: Log)
    requires ValidConfig(c) && n in c.peers && Stands(h, h', x.term, n, log)
    requires Sourced(h, log) && TermsAtMost(log, x.term - 1) && !LeaderOf(h, x.term, n)
    ensures ElectionInv(c, h', n, x, Electing(x.term, |log|, LastTerm(log), 1, 0))
  {
    GrowsSourced(h, h', log);
  }

  lemma StandProc(c: Config, h: History, h': History, n: NodeId, x: Proc)
    requires ValidConfig(c) && HistoryInv(c, h) && n in c.peers && ProcInv(c, h, n, x)
    requires x.node.role != Leader
    requires Stands(h, h', x.node.term + 1, n, x.node.log)
    ensures ProcInv(c, h', n, TimeoutProc(c, n, x))
  {
    var y := BecomeCandidate(x.node, n);
    StandNode(c, h, h', n, x.node);
    StandBallot(c, h, h', n, y, x.node.log);
    OtherProposal(c, h, h', n, x.node, y, x.proposal);
  }

  lemma StartElection(c: Config, s: State, h: History, n: NodeId) returns (h': History)
    requires Inv(c, s, h) && n in s.procs
    requires s.procs[n].node.role != Leader && s.procs[n].election == NoElection
    ensures Grows(h, h') && Inv(c, SetProc(s, n, TimeoutProc(c, n, s.procs[n])), h')
  {
    var x := s.procs[n];
    assert ProcInv(c, h, n, x);
    assert Unreached(h, x.node.term + 1, n);
    h' := Stand(h, x.node.term + 1, n, x.node.log);
    StandHistory(c, h, h', n, x.node);
    StandProc(c, h, h', n, x);
    forall m | m in s.procs && m != n ensures SameFor(h, h', m) {
      OthersSame(h, h', x.node.term + 1, n, m);
    }
    OneProcess(c, s, h, SetProc(s, n, TimeoutProc(c, n, x)), h', n);
  }

  // ---- votes ----

  /** A log that passes the up-to-date check has what the voter's log has, unless a leader in between skipped it. */
  lemma UpToDateCarries(c: Config, h: History, u: nat, k: nat, mine: Log, theirs: Log, t: nat)
    requires HistoryInv(c, h) && Sourced(h, mine) && Sourced(h, theirs)
    requires Point(h, u, k) && Pref(h, u, k) <= mine
    requires UpToDate(mine, |theirs|, LastTerm(theirs))
    requires TermsAtMost(theirs, t - 1)
    ensures Pref(h, u, k) <= theirs || Skipped(h, u, k, t)
  {
    var p := Pref(h, u, k);
    assert mine[k - 1] == p[k - 1];
    TermsRise(c, h, mine, k - 1, |mine| - 1);
    assert SourcedAt(h, mine, |mine| - 1);
    assert LeaderLogInv(c, h, u);
    assert LastTerm(theirs) >= LastTerm(mine) >= u > 0;
    var w := LastTerm(theirs);
    assert SourcedAt(h, theirs, |theirs| - 1);
    assert theirs[..|theirs|] == theirs && mine[..|mine|] == mine;
    assert theirs <= LeaderLog(h, w);
    if w > LastTerm(mine) {
      assert LeaderLogInv(c, h, w);
      if p <= StartLog(h, w) {
        assert |StartLog(h, w)| < |theirs|;
        assert p <= theirs;
      } else {
        assert LacksAt(h, u, k, w);
      }
    } else {
      assert mine <= LeaderLog(h, w);
      assert mine <= theirs;
    }
  }

  lemma CastBallot(h: History, t: nat, v: NodeId, cand: NodeId) returns (h': History)
    requires !Balloted(h, t, v)
    requires forall t :: t in h.elected ==> Stood(h, t, h.elected[t])
    ensures Grows(h, h') && SameBut(h, h', t, v) && Voted(h', t, v, cand) && Stood(h', t, v) == Stood(h, t, v)
    ensures h'.started == h.started
  {
    h' := h.(ballots := h.ballots[(t, v) := cand]);
  }

  ghost predicate MayWin(h: History, t: nat, cand: NodeId) {
    Stood(h, t, cand) && Sourced(h, Started(h, t, cand)) && TermsAtMost(Started(h, t, cand), t - 1) && !LeaderOf(h, t, cand)
  }

  lemma BallotSound(c: Config, h: History, h': History, v: NodeId, x: Node, cand: NodeId)
    requires HistoryInv(c, h) && v in c.peers && NodeInv(c, h, v, x)
    requires Grows(h, h') && SameBut(h, h', x.term, v) && h'.started == h.started
    requires MayWin(h, x.term, cand)
    requires UpToDate(x.log, |Started(h, x.term, cand)|, LastTerm(Started(h, x.term, cand)))
    ensures BallotInv(h', x.term, v, cand)
  {
    var t, log := x.term, Started(h, x.term, cand);
    assert Stood(h', t, cand);
    if t !in h.elected {
      forall u: nat, k: nat | u < t ensures Vouches(h', u, k, v, log, t) {
        assert RetainsAt(h, v, x.log, t, u, k);
        assert Vouches(h, u, k, v, log, t) by {
          if Point(h, u, k) && k <= Acked(h, u, v) {
            if Pref(h, u, k) <= x.log {
              UpToDateCarries(c, h, u, k, x.log, log, t);
            } else {
              var w :| u < w < t + 1 && LacksAt(h, u, k, w);
              assert w != t;
            }
          }
        }
        GrowsVouches(c, h, h', u, k, v, log, t, t);
      }
    }
  }

  lemma VoterProc(c: Config, h: History, h': History, v: NodeId, x: Proc, cand: NodeId)
    requires HistoryInv(c, h) && v in c.peers && ProcInv(c, h, v, x)
    requires Grows(h, h') && SameBut(h, h', x.node.term, v) && h'.started == h.started
    requires Voted(h', x.node.term, v, cand)
    ensures ProcInv(c, h', v, x.(node := x.node.(votedFor := Some(cand))))
  {
    var y := x.node.(votedFor := Some(cand));
    GrowsSourced(h, h', x.node.log);
    KeepsNoFuture(h, h', v, x.node, y);
    GrowsCovered(c, h, h', x.node.log[..x.node.commitIndex], x.node.term, x.node.term);
    forall u: nat, k: nat ensures RetainsAt(h', v, y.log, y.term, u, k) {
      assert RetainsAt(h, v, y.log, y.term, u, k);
      GrowsVouches(c, h, h', u, k, v, y.log, y.term + 1, y.term + 1);
    }
    assert NodeInv(c, h', v, y);
    OtherElection(c, h, h', v, x.node, y, x.election);
    OtherProposal(c, h, h', v, x.node, y, x.proposal);
  }

  lemma GrantVote(c: Config, s: State, h: History, v: NodeId, cand: NodeId) returns (h': History)
    requires Inv(c, s, h) && v in s.procs
    requires s.procs[v].node.votedFor == None
    requires MayWin(h, s.procs[v].node.term, cand)
    requires var log := Started(h, s.procs[v].node.term, cand); UpToDate(s.procs[v].node.log, |log|, LastTerm(log))
    ensures Grows(h, h') && Voted(h', s.procs[v].node.term, v, cand)
    ensures Inv(c, SetNode(s, v, s.procs[v].node.(votedFor := Some(cand))), h')
  {
    var x := s.procs[v];
    assert ProcInv(c, h, v, x);
    h' := CastBallot(h, x.node.term, v, cand);
    BallotSound(c, h, h', v, x.node, cand);
    BallotAdded(c, h, h', x.node.term, v, cand);
    VoterProc(c, h, h', v, x, cand);
    forall m | m in s.procs && m != v ensures SameFor(h, h', m) {
      OthersSame(h, h', x.node.term, v, m);
    }
    OneProcess(c, s, h, SetNode(s, v, x.node.(votedFor := Some(cand))), h', v);
  }

  // ---- leaders ----

  /** Ballots stay sound when one node acknowledges more in its own term. */
  lemma KeepsBallots(c: Config, h: History, h': History, n: NodeId, x: Node)
    requires HistoryInv(c, h) && Grows(h, h') && NoFuture(h, n, x)
    requires h'.ballots == h.ballots && h'.started == h.started
    requires forall u: nat, m :: u != x.term || m != n ==> Acked(h', u, m) == Acked(h, u, m)
    ensures forall u: nat, w, d :: BallotInv(h', u, w, d)
  {
    forall u: nat, w, d ensures BallotInv(h', u, w, d) {
      assert Voted(h', u, w, d) ==> Voted(h, u, w, d);
      assert BallotInv(h, u, w, d);
      if w == n && u > x.term {
        assert Unreached(h, u, n);
      } else {
        KeepsBallot(c, h, h', u, w, d);
      }
    }
  }

  ghost predicate Wins(h: History, h': History, t: nat, n: NodeId, log: Log) {
    && Grows(h, h')
    && h'.ballots == h.ballots && h'.started == h.started
    && t !in h.elected
    && h'.elected == h.elected[t := n]
    && h'.leaderLogs == h.leaderLogs[t := log]
    && (forall u: nat, m :: Acked(h', u, m) == if u == t && m == n then |log| else Acked(h, u, m))
  }

  lemma Win(h: History, t: nat, n: NodeId, log: Log) returns (h': History)
    requires t !in h.elected && LeaderLog(h, t) == [] && Acked(h, t, n) == 0
    requires forall t :: t in h.elected ==> Stood(h, t, h.elected[t])
    ensures Wins(h, h', t, n, log)
  {
    h' := h.(elected := h.elected[t := n], leaderLogs := h.leaderLogs[t := log], acked := h.acked[(t, n) := |log|]);
  }

  /** Election safety: two majorities share a voter, and a voter votes once per term. */
  lemma OneWinner(c: Config, h: History, t: nat, n: NodeId)
    requires ValidConfig(c) && HistoryInv(c, h)
    requires |Voters(c, h, t, n)| >= Majority(Total(c))
    ensures t in h.elected ==> h.elected[t] == n
  {
    if t in h.elected {
      assert LeaderLogInv(c, h, t);
      var v := CommonElement(Voters(c, h, t, n), Voters(c, h, t, h.elected[t]), c.peers.Keys);
    }
  }

  lemma WinLeaderLog(c: Config, h: History, h': History, n: NodeId, x: Node, u: nat)
    requires HistoryInv(c, h) && n in c.peers && CandidateInv(h, n, x) && Sourced(h, x.log)
    requires |Voters(c, h, x.term, n)| >= Majority(Total(c))
    requires Wins(h, h', x.term, n, x.log) && u in h'.elected
    ensures LeaderLogInv(c, h', u)
  {
    if u == x.term {
      GrowsSourced(h, h', x.log);
      assert Voters(c, h', u, n) == Voters(c, h, u, n);
    } else {
      assert LeaderLogInv(c, h, u);
      GrowsSourced(h, h', LeaderLog(h, u));
      assert Voters(c, h', u, h.elected[u]) == Voters(c, h, u, h.elected[u]);
    }
  }

  lemma NewWinner(c: Config, h: History, n: NodeId, x: Node)
    requires ValidConfig(c) && HistoryInv(c, h) && CandidateInv(h, n, x)
    requires |Voters(c, h, x.term, n)| >= Majority(Total(c))
    ensures x.term !in h.elected && LeaderLog(h, x.term) == [] && Acked(h, x.term, n) == 0
  {
    OneWinner(c, h, x.term, n);
    assert Acked(h, x.term, n) <= |LeaderLog(h, x.term)|;
  }

  lemma WinAcked(c: Config, h: History, h': History, t: nat, n: NodeId, log: Log, u: nat, m: NodeId)
    requires Acked(h, u, m) <= |LeaderLog(h, u)| && Wins(h, h', t, n, log)
    ensures Acked(h', u, m) <= |LeaderLog(h', u)|
  {
    assert u != t ==> LeaderLog(h', u) == LeaderLog(h, u);
    assert LeaderLog(h, u) <= LeaderLog(h', u);
  }

  lemma WinHistory(c: Config, h: History, h': History, n: NodeId, x: Node)
    requires HistoryInv(c, h) && n in c.peers && CandidateInv(h, n, x) && Sourced(h, x.log) && NoFuture(h, n, x)
    requires |Voters(c, h, x.term, n)| >= Majority(Total(c))
    requires Wins(h, h', x.term, n, x.log)
    ensures HistoryInv(c, h')
  {
    forall u | u in h'.elected ensures LeaderLogInv(c, h', u) {
      WinLeaderLog(c, h, h', n, x, u);
    }
    assert forall u: nat, w, d :: BallotInv(h', u, w, d) by { KeepsBallots(c, h, h', n, x); }
    forall u: nat, m ensures Acked(h', u, m) <= |LeaderLog(h', u)| {
      WinAcked(c, h, h', x.term, n, x.log, u, m);
    }
  }

  lemma WinNode(c: Config, h: History, h': History, n: NodeId, x: Node)
    requires ValidConfig(c) && HistoryInv(c, h) && n in c.peers && NodeInv(c, h, n, x) && x.role == Candidate
    requires Wins(h, h', x.term, n, x.log)
    ensures NodeInv(c, h', n, BecomeLeader(x, c.peers[n]))
  {
    var y := BecomeLeader(x, c.peers[n]);
    GrowsSourced(h, h', x.log);
    KeepsNoFuture(h, h', n, x, y);
    GrowsCovered(c, h, h', x.log[..x.commitIndex], x.term, x.term);
    forall u: nat, k: nat ensures RetainsAt(h', n, y.log, y.term, u, k) {
      if u != x.term {
        assert RetainsAt(h, n, y.log, y.term, u, k);
        GrowsVouches(c, h, h', u, k, n, y.log, y.term + 1, y.term + 1);
      }
    }
  }

  lemma WinProc(c: Config, h: History, h': History, n: NodeId, x: Proc)
    requires ValidConfig(c) && HistoryInv(c, h) && n in c.peers && ProcInv(c, h, n, x)
    requires x.node.role == Candidate && x.election == NoElection && Wins(h, h', x.node.term, n, x.node.log)
    ensures ProcInv(c, h', n, x.(node := BecomeLeader(x.node, c.peers[n])))
  {
    WinNode(c, h, h', n, x.node);
    WinProposal(c, h, h', n, x.node, x.proposal);
  }

  lemma ElectLeader(c: Config, s: State, h: History, n: NodeId) returns (h': History)
    requires Inv(c, s, h) && n in s.procs
    requires s.procs[n].node.role == Candidate && s.procs[n].election == NoElection
    requires |Voters(c, h, s.procs[n].node.term, n)| >= Majority(Total(c))
    ensures Grows(h, h')
    ensures Inv(c, SetNode(s, n, BecomeLeader(s.procs[n].node, c.peers[n])), h')
  {
    var x := s.procs[n];
    assert ProcInv(c, h, n, x);
    NewWinner(c, h, n, x.node);
    h' := Win(h, x.node.term, n, x.node.log);
    assert HistoryInv(c, h') by { WinHistory(c, h, h', n, x.node); }
    assert ProcInv(c, h', n, x.(node := BecomeLeader(x.node, c.peers[n]))) by { WinProc(c, h, h', n, x); }
    forall m | m in s.procs && m != n ensures SameFor(h, h', m) {
      WinOthers(h, h', x.node.term, n, x.node.log, m);
    }
    OneProcess(c, s, h, SetNode(s, n, BecomeLeader(x.node, c.peers[n])), h', n);
  }

  lemma WinOthers(h: History, h': History, t: nat, n: NodeId, log: Log, m: NodeId)
    requires Wins(h, h', t, n, log) && m != n
    ensures SameFor(h, h', m)
  {
  }

  lemma WinProposal(c: Config, h: History, h': History, n: NodeId, x: Node, p: Proposal)
    requires n in c.peers && ProposalInv(c, h, n, x, p) && Wins(h, h', x.term, n, x.log)
    ensures ProposalInv(c, h', n, BecomeLeader(x, c.peers[n]), p)
  {
    match p
    case NoProposal =>
    case Replicating(_, _, _, _, _, _) =>
      GrowsCounts(h, h', p.term, n, p.prevIndex + 1, c.peers[n][..p.asked]);
    case Announcing(req, receipt, _) =>
      GrowsAnnounce(c, h, h', req);
      GrowsReceipt(c, h, h', receipt);
  }
}
