/** The safety properties of every run, for every cluster size and every pair of moments. */
module RaftSafety {
  import opened RaftTypes
  import opened RaftNodeSpec
  import opened RaftCluster
  import opened RaftHistory
  import opened RaftInvariant
  import opened RaftMoves
  import opened RaftReplication
  import opened RaftSteps

  lemma InitInv(c: Config) returns (h: History)
    requires ValidConfig(c)
    ensures Inv(c, Init(c), h)
  {
    h := History(map[], map[], map[], map[], map[]);
    forall n | n in c.peers ensures ProcInv(c, h, n, Init(c).procs[n]) {
    }
  }

  lemma {:induction false} RunInv(c: Config, steps: seq<Step>) returns (h: History)
    requires ValidConfig(c)
    ensures Inv(c, Run(c, steps), h)
  {
    if steps == [] {
      h := InitInv(c);
    } else {
      var front := steps[..|steps| - 1];
      var h0 := RunInv(c, front);
      h := StepKeepsInv(c, Run(c, front), h0, steps[|steps| - 1]);
    }
  }

  /** Histories for two moments of one run, the later one extending the earlier. */
  lemma {:induction false} TwoMoments(c: Config, steps: seq<Step>, i: nat, j: nat) returns (h: History, k: History)
    requires ValidConfig(c) && i <= j <= |steps|
    ensures Inv(c, Run(c, steps[..i]), h) && Inv(c, Run(c, steps[..j]), k) && Grows(h, k)
    decreases j
  {
    if i == j {
      h := RunInv(c, steps[..i]);
      k := h;
      GrowsReflexive(c, Run(c, steps[..i]), h);
    } else {
      var m: History;
      h, m := TwoMoments(c, steps, i, j - 1);
      var upto := steps[..j];
      assert upto[..|upto| - 1] == steps[..j - 1];
      k := StepKeepsInv(c, Run(c, steps[..j - 1]), m, steps[j - 1]);
      GrowsTransitive(h, m, k);
    }
  }

  /** Facts of the process invariant that the theorems need, at one moment. */
  lemma At(c: Config, s: State, h: History, n: NodeId)
    requires Inv(c, s, h) && n in c.peers
    ensures ProcInv(c, h, n, s.procs[n])
  {
  }

  /** At most one node is ever leader in a term. */
  lemma ElectionSafety(c: Config, steps: seq<Step>, i: nat, j: nat, a: NodeId, b: NodeId)
    requires ValidConfig(c) && i <= |steps| && j <= |steps| && a in c.peers && b in c.peers
    requires NodeAt(c, steps, i, a).role == Leader && NodeAt(c, steps, j, b).role == Leader
    requires NodeAt(c, steps, i, a).term == NodeAt(c, steps, j, b).term
    ensures a == b
  {
    if i <= j {
      var h, k := TwoMoments(c, steps, i, j);
      At(c, Run(c, steps[..i]), h, a);
      At(c, Run(c, steps[..j]), k, b);
    } else {
      ElectionSafety(c, steps, j, i, b, a);
    }
  }

  /** Logs with the same term at the same index agree up to it, at any two moments. */
  lemma LogMatching(c: Config, steps: seq<Step>, i: nat, j: nat, a: NodeId, b: NodeId, idx: nat)
    requires ValidConfig(c) && i <= |steps| && j <= |steps| && a in c.peers && b in c.peers
    requires idx < |NodeAt(c, steps, i, a).log| && idx < |NodeAt(c, steps, j, b).log|
    requires NodeAt(c, steps, i, a).log[idx].term == NodeAt(c, steps, j, b).log[idx].term
    ensures NodeAt(c, steps, i, a).log[..idx + 1] == NodeAt(c, steps, j, b).log[..idx + 1]
  {
    if i <= j {
      var h, k := TwoMoments(c, steps, i, j);
      At(c, Run(c, steps[..i]), h, a);
      At(c, Run(c, steps[..j]), k, b);
      GrowsSourced(h, k, NodeAt(c, steps, i, a).log);
      SourcedMatch(k, NodeAt(c, steps, i, a).log, NodeAt(c, steps, j, b).log, idx);
    } else {
      LogMatching(c, steps, j, i, b, a, idx);
    }
  }

  /** The applied prefix is within the committed one, and that within the log. */
  lemma CommitInRange(c: Config, steps: seq<Step>, i: nat, n: NodeId)
    requires ValidConfig(c) && i <= |steps| && n in c.peers
    ensures var x := NodeAt(c, steps, i, n); x.lastApplied <= x.commitIndex <= |x.log|
    ensures AppliedAt(c, steps, i, n) == NodeAt(c, steps, i, n).log[..NodeAt(c, steps, i, n).lastApplied]
  {
    var h := RunInv(c, steps[..i]);
    At(c, Run(c, steps[..i]), h, n);
  }

  /** What two nodes have committed, at any two moments, is one sequence cut at two places. */
  lemma CommittedAgree(c: Config, steps: seq<Step>, i: nat, j: nat, a: NodeId, b: NodeId)
    requires ValidConfig(c) && i <= |steps| && j <= |steps| && a in c.peers && b in c.peers
    ensures var x, y := NodeAt(c, steps, i, a), NodeAt(c, steps, j, b);
      && x.commitIndex <= |x.log| && y.commitIndex <= |y.log|
      && (x.log[..x.commitIndex] <= y.log[..y.commitIndex] || y.log[..y.commitIndex] <= x.log[..x.commitIndex])
  {
    if i <= j {
      var h, k := TwoMoments(c, steps, i, j);
      At(c, Run(c, steps[..i]), h, a);
      At(c, Run(c, steps[..j]), k, b);
      var x, y := NodeAt(c, steps, i, a), NodeAt(c, steps, j, b);
      GrowsCovered(c, h, k, x.log[..x.commitIndex], x.term, x.term);
      CoveredComparable(c, k, x.log[..x.commitIndex], y.log[..y.commitIndex], x.term, y.term);
    } else {
      CommittedAgree(c, steps, j, i, b, a);
    }
  }

  /** State machine safety: the sequences applied by any two nodes are prefixes of one another. */
  lemma StateMachineSafety(c: Config, steps: seq<Step>, i: nat, j: nat, a: NodeId, b: NodeId)
    requires ValidConfig(c) && i <= |steps| && j <= |steps| && a in c.peers && b in c.peers
    ensures AppliedAt(c, steps, i, a) <= AppliedAt(c, steps, j, b) || AppliedAt(c, steps, j, b) <= AppliedAt(c, steps, i, a)
  {
    CommittedAgree(c, steps, i, j, a, b);
    CommitInRange(c, steps, i, a);
    CommitInRange(c, steps, j, b);
    var x, y := NodeAt(c, steps, i, a), NodeAt(c, steps, j, b);
    assert x.log[..x.lastApplied] == x.log[..x.commitIndex][..x.lastApplied];
    assert y.log[..y.lastApplied] == y.log[..y.commitIndex][..y.lastApplied];
  }

  /** What any node has committed is in the log of every leader of a later term, whenever either is looked at. */
  lemma CommittedInLaterLeaders(c: Config, steps: seq<Step>, i: nat, j: nat, a: NodeId, b: NodeId)
    requires ValidConfig(c) && i <= |steps| && j <= |steps| && a in c.peers && b in c.peers
    requires NodeAt(c, steps, j, b).role == Leader
    requires NodeAt(c, steps, i, a).term < NodeAt(c, steps, j, b).term
    ensures var x := NodeAt(c, steps, i, a);
      x.commitIndex <= |x.log| && x.log[..x.commitIndex] <= NodeAt(c, steps, j, b).log
  {
    var x, y := NodeAt(c, steps, i, a), NodeAt(c, steps, j, b);
    var s := if x.commitIndex <= |x.log| then x.log[..x.commitIndex] else [];
    if i <= j {
      var h, k := TwoMoments(c, steps, i, j);
      At(c, Run(c, steps[..i]), h, a);
      At(c, Run(c, steps[..j]), k, b);
      GrowsCovered(c, h, k, s, x.term, x.term);
      CoveredInLeader(c, k, s, x.term, y.term, y.log);
    } else {
      var h, k := TwoMoments(c, steps, j, i);
      At(c, Run(c, steps[..i]), k, a);
      At(c, Run(c, steps[..j]), h, b);
      assert StartLog(k, y.term) == StartLog(h, y.term) <= y.log by {
        assert LeaderLogInv(c, h, y.term);
      }
      CoveredAtStart(c, k, s, x.term, y.term);
    }
  }

  lemma CoveredAtStart(c: Config, h: History, s: Log, t: nat, u: nat)
    requires ValidConfig(c) && HistoryInv(c, h) && Covered(c, h, s, t) && t < u && u in h.elected
    ensures s <= StartLog(h, u)
  {
    if s != [] {
      var w, l :| CoveredBy(c, h, s, t, w, l);
      LeaderCompleteness(c, h, w, l, u);
    }
  }

  lemma CoveredInLeader(c: Config, h: History, s: Log, t: nat, u: nat, log: Log)
    requires ValidConfig(c) && HistoryInv(c, h) && Covered(c, h, s, t) && t < u && u in h.elected
    requires log == LeaderLog(h, u)
    ensures s <= log
  {
    CoveredAtStart(c, h, s, t, u);
    assert LeaderLogInv(c, h, u);
  }

  /** A proposal that returned true keeps its index in the log of every leader of a later term. */
  lemma ProposalNeverLost(c: Config, steps: seq<Step>, i: nat, j: nat, r: Receipt, b: NodeId)
    requires ValidConfig(c) && i <= |steps| && j <= |steps| && b in c.peers
    requires r in Run(c, steps[..i]).receipts
    requires NodeAt(c, steps, j, b).role == Leader && r.term < NodeAt(c, steps, j, b).term
    ensures 1 <= r.index <= |NodeAt(c, steps, j, b).log| && NodeAt(c, steps, j, b).log[r.index - 1] == r.entry
  {
    var y := NodeAt(c, steps, j, b);
    if i <= j {
      var h, k := TwoMoments(c, steps, i, j);
      At(c, Run(c, steps[..j]), k, b);
      GrowsReceipt(c, h, k, r);
      assert LeaderLogInv(c, k, y.term);
      ReceiptInLeader(c, k, r, y.term, y.log);
    } else {
      var h, k := TwoMoments(c, steps, j, i);
      At(c, Run(c, steps[..j]), h, b);
      assert LeaderLogInv(c, h, y.term);
      ReceiptInLeader(c, k, r, y.term, y.log);
    }
  }

  lemma ReceiptInLeader(c: Config, h: History, r: Receipt, u: nat, log: Log)
    requires ValidConfig(c) && HistoryInv(c, h) && ReceiptOk(c, h, r) && r.term < u && u in h.elected
    requires StartLog(h, u) <= log
    ensures 1 <= r.index <= |log| && log[r.index - 1] == r.entry
  {
    LeaderCompleteness(c, h, r.term, r.index, u);
    assert log[r.index - 1] == Pref(h, r.term, r.index)[r.index - 1];
  }

  /** Whoever commits the index of such a proposal commits that proposal. */
  lemma ProposalWins(c: Config, steps: seq<Step>, i: nat, j: nat, r: Receipt, b: NodeId)
    requires ValidConfig(c) && i <= |steps| && j <= |steps| && b in c.peers
    requires r in Run(c, steps[..i]).receipts && r.index <= NodeAt(c, steps, j, b).commitIndex
    ensures 1 <= r.index <= |NodeAt(c, steps, j, b).log| && NodeAt(c, steps, j, b).log[r.index - 1] == r.entry
  {
    var y := NodeAt(c, steps, j, b);
    var k: History;
    if i <= j {
      var h;
      h, k := TwoMoments(c, steps, i, j);
      GrowsReceipt(c, h, k, r);
      At(c, Run(c, steps[..j]), k, b);
    } else {
      var h;
      h, k := TwoMoments(c, steps, j, i);
      At(c, Run(c, steps[..j]), h, b);
      GrowsCovered(c, h, k, y.log[..y.commitIndex], y.term, y.term);
    }
    var p := Pref(k, r.term, r.index);
    assert p[r.index - 1] == r.entry;
    assert CoveredBy(c, k, p, r.term, r.term, r.index);
    CoveredComparable(c, k, p, y.log[..y.commitIndex], r.term, y.term);
    assert y.log[..y.commitIndex][r.index - 1] == y.log[r.index - 1];
  }

  // ---- commit indices only rise ----

  /** No node's commit or applied index falls. */
  ghost predicate Advances(s: State, t: State)
    requires s.procs.Keys <= t.procs.Keys
  {
    forall n :: n in s.procs ==> NodeAdvances(s.procs[n].node, t.procs[n].node)
  }

  predicate NodeAdvances(x: Node, y: Node) {
    x.commitIndex <= y.commitIndex && x.lastApplied <= y.lastApplied
  }

  lemma AppendAdvances(c: Config, s: State, h: History, p: NodeId, req: AppendReq)
    requires Inv(c, s, h) && p in s.procs && (RequestOk(c, h, req) || AnnounceOk(c, h, req))
    ensures NodeAdvances(s.procs[p].node, HandleAppend(s.procs[p].node, req).0)
  {
    var x := s.procs[p].node;
    if req.term >= x.term {
      var m := HearLeader(c, s, h, p, req.term);
      HandleAfterHearing(x, m, req);
      At(c, SetNode(s, p, m), h, p);
      GrowsReflexive(c, s, h);
      if RequestOk(c, h, req) && Consistent(m.log, req) {
        AckCommit(c, h, h, m, req);
      }
    }
  }

  /** A remote append advances its target and leaves the others alone. */
  lemma CallAdvances(c: Config, s: State, h: History, p: NodeId, req: AppendReq, delivered: bool)
    requires Inv(c, s, h) && p in s.procs && (RequestOk(c, h, req) || AnnounceOk(c, h, req))
    ensures Advances(s, CallAppend(s, p, req, delivered).0)
  {
    AppendAdvances(c, s, h, p, req);
  }

  lemma SetAdvances(s: State, t: State, n: NodeId, y: Proc)
    requires s.procs.Keys == t.procs.Keys && n in s.procs && Advances(s, t)
    requires NodeAdvances(t.procs[n].node, y.node)
    ensures Advances(s, SetProc(t, n, y))
  {
    forall m | m in s.procs ensures NodeAdvances(s.procs[m].node, SetProc(t, n, y).procs[m].node) {
      assert NodeAdvances(s.procs[m].node, t.procs[m].node);
    }
  }

  lemma HeartbeatAdvances(c: Config, s: State, h: History, n: NodeId, p: NodeId, delivered: bool)
    requires Inv(c, s, h) && n in s.procs && s.procs[n].node.role == Leader && p in c.peers[n]
    ensures Advances(s, DoHeartbeat(c, s, n, p, delivered))
  {
    var x := s.procs[n];
    At(c, s, h, n);
    var req := BuildAppend(x.node, n, p);
    BuildOk(c, h, n, x.node, p);
    CallAdvances(c, s, h, p, req, delivered);
    var (t, resp) := CallAppend(s, p, req, delivered);
    SetAdvances(s, t, n, t.procs[n].(node := HeartbeatAnswer(t.procs[n].node, p, req, resp)));
  }

  lemma ReplicateAdvances(c: Config, s: State, h: History, n: NodeId, delivered: bool)
    requires Inv(c, s, h) && n in s.procs
    requires s.procs[n].proposal.Replicating? && s.procs[n].proposal.asked < |c.peers[n]|
    ensures Advances(s, DoReplicate(c, s, n, delivered))
  {
    var x := s.procs[n];
    At(c, s, h, n);
    var p := c.peers[n][x.proposal.asked];
    assert p in c.peers[n];
    ReplicateOk(c, h, n, x.proposal);
    CallAdvances(c, s, h, p, ReplicateReq(n, x.proposal), delivered);
    var (t, resp) := CallAppend(s, p, ReplicateReq(n, x.proposal), delivered);
    SetAdvances(s, t, n, ReplicateAnswer(c, n, t.procs[n], resp));
  }

  lemma AnnounceAdvances(c: Config, s: State, h: History, n: NodeId, delivered: bool)
    requires Inv(c, s, h) && n in s.procs
    requires s.procs[n].proposal.Announcing? && s.procs[n].proposal.asked < |c.peers[n]|
    ensures Advances(s, DoAnnounce(c, s, n, delivered))
  {
    var x := s.procs[n];
    At(c, s, h, n);
    var p := c.peers[n][x.proposal.asked];
    assert p in c.peers[n];
    CallAdvances(c, s, h, p, x.proposal.req, delivered);
    var (t, resp) := CallAppend(s, p, x.proposal.req, delivered);
    SetAdvances(s, t, n, AnnounceAnswer(c, n, t.procs[n], resp));
  }

  lemma AskVoteAdvances(c: Config, s: State, n: NodeId, delivered: bool)
    requires s.procs.Keys == c.peers.Keys && n in s.procs
    requires s.procs[n].election.Electing? && s.procs[n].election.asked < |c.peers[n]|
    ensures Advances(s, DoAskVote(c, s, n, delivered))
  {
    var e := s.procs[n].election;
    var p, req := c.peers[n][e.asked], VoteReq(e.term, n, e.lastIndex, e.lastTerm);
    var (t, resp) := CallVote(s, p, req, delivered);
    assert Advances(s, t);
    SetAdvances(s, t, n, VoteAnswer(c, n, t.procs[n], resp));
  }

  lemma LocalAdvances(c: Config, s: State, step: Step)
    requires s.procs.Keys == c.peers.Keys
    requires step.Timeout? || step.Propose? || step.EndReplication? || step.Apply?
    ensures Advances(s, Next(c, s, step))
  {
  }

  lemma StepAdvances(c: Config, s: State, h: History, step: Step)
    requires Inv(c, s, h)
    ensures Advances(s, Next(c, s, step))
  {
    var n := step.n;
    if n in s.procs {
      match step
      case Heartbeat(_, p, delivered) =>
        if s.procs[n].node.role == Leader && p in c.peers[n] {
          HeartbeatAdvances(c, s, h, n, p, delivered);
        }
      case Replicate(_, delivered) =>
        if s.procs[n].proposal.Replicating? && s.procs[n].proposal.asked < |c.peers[n]| {
          ReplicateAdvances(c, s, h, n, delivered);
        }
      case Announce(_, delivered) =>
        if s.procs[n].proposal.Announcing? && s.procs[n].proposal.asked < |c.peers[n]| {
          AnnounceAdvances(c, s, h, n, delivered);
        }
      case AskVote(_, delivered) =>
        if s.procs[n].election.Electing? && s.procs[n].election.asked < |c.peers[n]| {
          AskVoteAdvances(c, s, n, delivered);
        }
      case _ => LocalAdvances(c, s, step);
    }
  }

  lemma {:induction false} RunAdvances(c: Config, steps: seq<Step>, i: nat, j: nat, n: NodeId)
    requires ValidConfig(c) && i <= j <= |steps| && n in c.peers
    ensures NodeAdvances(NodeAt(c, steps, i, n), NodeAt(c, steps, j, n))
    decreases j
  {
    if i < j {
      RunAdvances(c, steps, i, j - 1, n);
      var s := Run(c, steps[..j - 1]);
      var upto := steps[..j];
      assert upto[..|upto| - 1] == steps[..j - 1];
      assert Run(c, upto) == Next(c, s, steps[j - 1]);
      assert Advances(s, Next(c, s, steps[j - 1])) by {
        var h := RunInv(c, steps[..j - 1]);
        StepAdvances(c, s, h, steps[j - 1]);
      }
    }
  }

  /** Truncation never reaches a committed entry: what a node has committed or applied it keeps. */
  lemma CommittedStays(c: Config, steps: seq<Step>, i: nat, j: nat, n: NodeId)
    requires ValidConfig(c) && i <= j <= |steps| && n in c.peers
    ensures var x, y := NodeAt(c, steps, i, n), NodeAt(c, steps, j, n);
      && x.commitIndex <= y.commitIndex <= |y.log|
      && x.commitIndex <= |x.log|
      && x.log[..x.commitIndex] == y.log[..x.commitIndex]
    ensures AppliedAt(c, steps, i, n) <= AppliedAt(c, steps, j, n)
  {
    RunAdvances(c, steps, i, j, n);
    CommittedAgree(c, steps, i, j, n, n);
    CommitInRange(c, steps, i, n);
    CommitInRange(c, steps, j, n);
    var x, y := NodeAt(c, steps, i, n), NodeAt(c, steps, j, n);
    assert y.log[..x.commitIndex] == y.log[..y.commitIndex][..x.commitIndex];
    assert x.log[..x.lastApplied] == x.log[..x.commitIndex][..x.lastApplied];
  }
}
