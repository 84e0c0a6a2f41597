/** Moves that change logs and commit indices. */
module RaftReplication {
  import opened RaftTypes
  import opened RaftNodeSpec
  import opened RaftCluster
  import opened RaftHistory
  import opened RaftInvariant
  import opened RaftMoves

  // ---- a leader appends to its own log ----

  ghost predicate Appends(h: History, h': History, t: nat, n: NodeId, log: Log) {
    && Grows(h, h')
    && h'.ballots == h.ballots && h'.started == h.started && h'.elected == h.elected
    && LeaderOf(h, t, n)
    && h'.leaderLogs == h.leaderLogs[t := log]
    && (forall u: nat, m :: Acked(h', u, m) == if u == t && m == n then |log| else Acked(h, u, m))
  }

  lemma Append(h: History, t: nat, n: NodeId, log: Log) returns (h': History)
    requires LeaderOf(h, t, n) && LeaderLog(h, t) <= log && Acked(h, t, n) <= |log|
    requires forall t :: t in h.elected ==> Stood(h, t, h.elected[t])
    ensures Appends(h, h', t, n, log)
  {
    h' := h.(leaderLogs := h.leaderLogs[t := log], acked := h.acked[(t, n) := |log|]);
  }

  lemma AppendLeaderLog(c: Config, h: History, h': History, n: NodeId, t: nat, e: LogEntry, u: nat)
    requires HistoryInv(c, h) && e.term == t
    requires Appends(h, h', t, n, LeaderLog(h, t) + [e]) && u in h'.elected
    ensures LeaderLogInv(c, h', u)
  {
    assert LeaderLogInv(c, h, u);
    assert Voters(c, h', u, h.elected[u]) == Voters(c, h, u, h.elected[u]);
    GrowsSourced(h, h', LeaderLog(h, u));
    if u == t {
      var was, log := LeaderLog(h, t), LeaderLog(h', t);
      forall i | 0 <= i < |log| ensures SourcedAt(h', log, i) {
        if i < |was| {
          assert SourcedAt(h', was, i);
          assert log[..i + 1] == was[..i + 1];
        } else {
          assert log[..i + 1] == log;
        }
      }
    }
  }

  lemma AppendHistory(c: Config, h: History, h': History, n: NodeId, x: Node, e: LogEntry)
    requires HistoryInv(c, h) && e.term == x.term && NoFuture(h, n, x)
    requires Appends(h, h', x.term, n, LeaderLog(h, x.term) + [e])
    ensures HistoryInv(c, h')
  {
    forall u | u in h'.elected ensures LeaderLogInv(c, h', u) {
      AppendLeaderLog(c, h, h', n, x.term, e, u);
    }
    KeepsBallots(c, h, h', n, x);
    forall u: nat, m ensures Acked(h', u, m) <= |LeaderLog(h', u)| {
      assert Acked(h, u, m) <= |LeaderLog(h, u)|;
    }
  }

  lemma AppendNode(c: Config, h: History, h': History, n: NodeId, x: Node, e: LogEntry)
    requires ValidConfig(c) && HistoryInv(c, h) && n in c.peers && NodeInv(c, h, n, x) && x.role == Leader && e.term == x.term
    requires Appends(h, h', x.term, n, x.log + [e])
    ensures NodeInv(c, h', n, x.(log := x.log + [e]))
  {
    var y := x.(log := x.log + [e]);
    AppendLeaderLog(c, h, h', n, x.term, e, x.term);
    KeepsNoFuture(h, h', n, x, y);
    assert y.log[..y.commitIndex] == x.log[..x.commitIndex];
    GrowsCovered(c, h, h', x.log[..x.commitIndex], x.term, x.term);
    forall u: nat, k: nat ensures RetainsAt(h', n, y.log, y.term, u, k) {
      assert RetainsAt(h, n, x.log, x.term, u, k);
      AppendRetains(c, h, h', n, x.log, x.term, e, u, k);
    }
  }

  lemma AppendRetains(c: Config, h: History, h': History, n: NodeId, log: Log, term: nat, e: LogEntry, u: nat, k: nat)
    requires HistoryInv(c, h) && Appends(h, h', term, n, log + [e]) && RetainsAt(h, n, log, term, u, k)
    ensures RetainsAt(h', n, log + [e], term, u, k)
  {
    if u != term {
      assert Vouches(h, u, k, n, log + [e], term + 1);
      GrowsVouches(c, h, h', u, k, n, log + [e], term + 1, term + 1);
    }
  }

  lemma AppendReplicating(c: Config, h: History, n: NodeId, t: nat, log: Log)
    requires ValidConfig(c) && n in c.peers && log != []
    requires LeaderOf(h, t, n) && LeaderLog(h, t) == log && Acked(h, t, n) == |log|
    requires log[|log| - 1].term == t
    ensures ReplicatingInv(c, h, n, Replicating(t, |log| - 1, log[|log| - 1], TermAt(log, |log| - 1), 1, 0))
  {
  }

  lemma AppendElection(c: Config, h: History, h': History, n: NodeId, x: Node, y: Node, e: Election)
    requires n in c.peers && ElectionInv(c, h, n, x, e) && x.term == y.term
    requires Appends(h, h', x.term, n, y.log)
    ensures ElectionInv(c, h', n, y, e)
  {
    if e.Electing? {
      GrowsSourced(h, h', Started(h, e.term, n));
      GrowsCounts(h, h', e.term, n, 0, c.peers[n][..e.asked]);
    }
  }

  lemma ProposeProcInv(c: Config, h: History, h': History, n: NodeId, x: Proc, op: Op, key: string, value: string)
    requires ValidConfig(c) && HistoryInv(c, h) && n in c.peers && ProcInv(c, h, n, x)
    requires x.node.role == Leader && x.proposal == NoProposal
    requires Appends(h, h', x.node.term, n, ProposeProc(c, n, x, op, key, value).node.log)
    ensures ProcInv(c, h', n, ProposeProc(c, n, x, op, key, value))
  {
    var y := ProposeProc(c, n, x, op, key, value);
    var e := y.proposal.entry;
    AppendNode(c, h, h', n, x.node, e);
    AppendReplicating(c, h', n, x.node.term, y.node.log);
    AppendElection(c, h, h', n, x.node, y.node, x.election);
    assert y.node.log[..y.node.lastApplied] == x.node.log[..x.node.lastApplied];
  }

  lemma AppendOthers(h: History, h': History, t: nat, n: NodeId, log: Log, m: NodeId)
    requires Appends(h, h', t, n, log) && m != n
    ensures SameFor(h, h', m)
  {
  }

  lemma LeaderAppends(c: Config, s: State, h: History, n: NodeId, op: Op, key: string, value: string) returns (h': History)
    requires Inv(c, s, h) && n in s.procs
    requires s.procs[n].node.role == Leader && s.procs[n].proposal == NoProposal
    ensures Grows(h, h')
    ensures Inv(c, SetProc(s, n, ProposeProc(c, n, s.procs[n], op, key, value)), h')
  {
    var x := s.procs[n];
    assert ProcInv(c, h, n, x);
    var y := ProposeProc(c, n, x, op, key, value);
    h' := Append(h, x.node.term, n, y.node.log);
    AppendHistory(c, h, h', n, x.node, y.proposal.entry);
    ProposeProcInv(c, h, h', n, x, op, key, value);
    forall m | m in s.procs && m != n ensures SameFor(h, h', m) {
      AppendOthers(h, h', x.node.term, n, y.node.log, m);
    }
    OneProcess(c, s, h, SetProc(s, n, y), h', n);
  }

  // ---- a follower takes over the leader's log ----

  /** A request that carries the rest of the log of the leader of its term. */
  ghost predicate RequestOk(c: Config, h: History, req: AppendReq) {
    && req.term in h.elected
    && var log := LeaderLog(h, req.term);
       && req.prevLogIndex <= |log|
       && req.prevLogTerm == TermAt(log, req.prevLogIndex)
       && req.entries == log[req.prevLogIndex..]
       && req.leaderCommit <= |log|
       && Covered(c, h, log[..req.leaderCommit], req.term)
  }

  /** The consistency check says that the follower has the leader's log up to the checked index. */
  lemma CheckedPrefix(c: Config, h: History, log: Log, leaderLog: Log, prev: nat)
    requires HistoryInv(c, h) && Sourced(h, log) && Sourced(h, leaderLog)
    requires prev <= |log| && prev <= |leaderLog| && TermAt(log, prev) == TermAt(leaderLog, prev)
    ensures log[..prev] == leaderLog[..prev]
  {
    if prev > 0 {
      SourcedMatch(h, log, leaderLog, prev - 1);
    }
  }

  /** After a successful request the follower has the leader's whole log, and exactly it if anything was sent. */
  lemma OverwriteTakesOver(c: Config, h: History, log: Log, req: AppendReq)
    requires HistoryInv(c, h) && Sourced(h, log) && RequestOk(c, h, req) && Consistent(log, req)
    ensures LeaderLog(h, req.term) <= Overwrite(log, req)
    ensures Overwrite(log, req) == log || Overwrite(log, req) == LeaderLog(h, req.term)
  {
    var l := LeaderLog(h, req.term);
    assert LeaderLogInv(c, h, req.term);
    CheckedPrefix(c, h, log, l, req.prevLogIndex);
    assert l == l[..req.prevLogIndex] + l[req.prevLogIndex..];
    if req.entries == [] {
      assert req.prevLogIndex == |l|;
    }
  }

  ghost predicate Acks(h: History, h': History, t: nat, n: NodeId) {
    && Grows(h, h')
    && h'.ballots == h.ballots && h'.started == h.started && h'.elected == h.elected && h'.leaderLogs == h.leaderLogs
    && (forall u: nat, m :: Acked(h', u, m) == if u == t && m == n then |LeaderLog(h, t)| else Acked(h, u, m))
  }

  lemma Ack(h: History, t: nat, n: NodeId) returns (h': History)
    requires Acked(h, t, n) <= |LeaderLog(h, t)|
    requires forall t :: t in h.elected ==> Stood(h, t, h.elected[t])
    ensures Acks(h, h', t, n)
  {
    h' := h.(acked := h.acked[(t, n) := |LeaderLog(h, t)|]);
  }

  lemma AckHistory(c: Config, h: History, h': History, n: NodeId, x: Node)
    requires HistoryInv(c, h) && NoFuture(h, n, x) && Acks(h, h', x.term, n)
    ensures HistoryInv(c, h')
  {
    forall u | u in h'.elected ensures LeaderLogInv(c, h', u) {
      assert LeaderLogInv(c, h, u);
      GrowsSourced(h, h', LeaderLog(h, u));
      assert Voters(c, h', u, h.elected[u]) == Voters(c, h, u, h.elected[u]);
    }
    KeepsBallots(c, h, h', n, x);
  }

  /** What a node has retained survives taking over a leader's log. */
  lemma AckRetains(c: Config, h: History, h': History, n: NodeId, x: Node, log: Log, u: nat, k: nat)
    requires HistoryInv(c, h) && x.term in h.elected && NoFuture(h, n, x) && Retains(h, n, x)
    requires Acks(h, h', x.term, n)
    requires LeaderLog(h, x.term) <= log && (log == x.log || log == LeaderLog(h, x.term))
    ensures RetainsAt(h', n, log, x.term, u, k)
  {
    if Point(h', u, k) && k <= Acked(h', u, n) && u != x.term {
      assert Point(h, u, k);
      assert u > x.term ==> Unreached(h, u, n);
      assert RetainsAt(h, n, x.log, x.term, u, k);
      if Pref(h, u, k) <= x.log {
        if log != x.log {
          assert LeaderLogInv(c, h, x.term);
          if !(Pref(h, u, k) <= StartLog(h, x.term)) {
            assert LacksAt(h', u, k, x.term);
          }
        }
      } else {
        GrowsSkipped(h, h', u, k, x.term + 1, x.term + 1);
      }
    }
  }

  /** What a node has committed survives taking over a leader's log. */
  lemma CommittedSurvives(c: Config, h: History, x: Node)
    requires ValidConfig(c) && HistoryInv(c, h) && CommitInv(c, h, x) && x.term in h.elected
    ensures x.log[..x.commitIndex] <= LeaderLog(h, x.term)
  {
    var s := x.log[..x.commitIndex];
    if s != [] {
      var u, k :| CoveredBy(c, h, s, x.term, u, k);
      CoveredByLeader(c, h, s, u, k, x.term);
    }
  }

  lemma AckLog(c: Config, h: History, h': History, n: NodeId, x: Node, req: AppendReq)
    requires HistoryInv(c, h) && n in c.peers && NodeInv(c, h, n, x)
    requires x.term == req.term
    requires RequestOk(c, h, req) && Consistent(x.log, req) && Acks(h, h', x.term, n)
    ensures var log := Overwrite(x.log, req);
      && Sourced(h', log)
      && TermsAtMost(log, x.term)
      && forall u: nat, k: nat :: RetainsAt(h', n, log, x.term, u, k)
  {
    var log := Overwrite(x.log, req);
    OverwriteTakesOver(c, h, x.log, req);
    assert LeaderLogInv(c, h, x.term);
    GrowsSourced(h, h', LeaderLog(h, x.term));
    GrowsSourced(h, h', x.log);
    forall u: nat, k: nat ensures RetainsAt(h', n, log, x.term, u, k) {
      AckRetains(c, h, h', n, x, log, u, k);
    }
  }

  lemma AckCommit(c: Config, h: History, h': History, x: Node, req: AppendReq)
    requires ValidConfig(c) && HistoryInv(c, h) && Sourced(h, x.log) && CommitInv(c, h, x)
    requires x.role == Follower && x.term == req.term && Grows(h, h')
    requires RequestOk(c, h, req) && Consistent(x.log, req)
    ensures var y := HandleAppend(x, req).0;
      CommitInv(c, h', y) && x.commitIndex <= y.commitIndex && y.log[..x.commitIndex] == x.log[..x.commitIndex]
  {
    var y := HandleAppend(x, req).0;
    var l := LeaderLog(h, x.term);
    OverwriteTakesOver(c, h, x.log, req);
    CommittedSurvives(c, h, x);
    assert y.log[..x.commitIndex] == x.log[..x.commitIndex];
    if req.leaderCommit > x.commitIndex {
      assert y.commitIndex == req.leaderCommit;
      assert y.log[..y.commitIndex] == l[..req.leaderCommit];
      GrowsCovered(c, h, h', l[..req.leaderCommit], x.term, x.term);
    } else {
      GrowsCovered(c, h, h', x.log[..x.commitIndex], x.term, x.term);
    }
  }

  lemma AckNode(c: Config, h: History, h': History, n: NodeId, x: Node, req: AppendReq)
    requires ValidConfig(c) && HistoryInv(c, h) && n in c.peers && NodeInv(c, h, n, x)
    requires x.role == Follower && x.term == req.term
    requires RequestOk(c, h, req) && Consistent(x.log, req) && Acks(h, h', x.term, n)
    ensures var y := HandleAppend(x, req).0;
      NodeInv(c, h', n, y) && y.log[..x.commitIndex] == x.log[..x.commitIndex]
  {
    AckLog(c, h, h', n, x, req);
    KeepsNoFuture(h, h', n, x, HandleAppend(x, req).0);
    AckCommit(c, h, h', x, req);
  }

  lemma AckProc(c: Config, h: History, h': History, n: NodeId, x: Proc, req: AppendReq)
    requires ValidConfig(c) && HistoryInv(c, h) && n in c.peers && ProcInv(c, h, n, x)
    requires x.node.role == Follower && x.node.term == req.term
    requires RequestOk(c, h, req) && Consistent(x.node.log, req) && Acks(h, h', x.node.term, n)
    ensures ProcInv(c, h', n, x.(node := HandleAppend(x.node, req).0))
  {
    var y := HandleAppend(x.node, req).0;
    AckNode(c, h, h', n, x.node, req);
    OtherElection(c, h, h', n, x.node, y, x.election);
    OtherProposal(c, h, h', n, x.node, y, x.proposal);
    assert y.log[..y.lastApplied] == y.log[..x.node.commitIndex][..y.lastApplied];
  }

  lemma AckOthers(h: History, h': History, t: nat, n: NodeId, m: NodeId)
    requires Acks(h, h', t, n) && m != n
    ensures SameFor(h, h', m)
  {
  }

  lemma FollowerAccepts(c: Config, s: State, h: History, n: NodeId, req: AppendReq) returns (h': History)
    requires Inv(c, s, h) && n in s.procs && RequestOk(c, h, req)
    requires s.procs[n].node.role == Follower && s.procs[n].node.term == req.term
    requires Consistent(s.procs[n].node.log, req)
    ensures Grows(h, h') && h'.leaderLogs == h.leaderLogs && h'.elected == h.elected
    ensures Acked(h', req.term, n) == |LeaderLog(h, req.term)|
    ensures Inv(c, SetNode(s, n, HandleAppend(s.procs[n].node, req).0), h')
  {
    var x := s.procs[n];
    assert ProcInv(c, h, n, x);
    h' := Ack(h, req.term, n);
    AckHistory(c, h, h', n, x.node);
    AckProc(c, h, h', n, x, req);
    forall m | m in s.procs && m != n ensures SameFor(h, h', m) {
      AckOthers(h, h', req.term, n, m);
    }
    OneProcess(c, s, h, SetNode(s, n, HandleAppend(x.node, req).0), h', n);
  }
}
