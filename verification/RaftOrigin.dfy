/** Where entries come from: what is in a log, applied or acknowledged was proposed by a client, unchanged. */
module RaftOrigin {
  import opened Options
  import opened RaftTypes
  import opened RaftNodeSpec
  import opened RaftCluster

  /** In state s this step is a client's proposal of e to the leader of its term; a deletion has no value. */
  predicate Proposes(s: State, step: Step, e: LogEntry) {
    && step.Propose? && step.n in s.procs && s.procs[step.n].node.role == Leader
    && e.term == s.procs[step.n].node.term && e.op == step.op && e.key == step.key
    && e.value == match step.op case Put => step.value case Del => ""
  }

  /** Some step of the run proposed e. */
  ghost predicate Proposed(c: Config, steps: seq<Step>, e: LogEntry) {
    exists j: nat :: j < |steps| && Proposes(Run(c, steps[..j]), steps[j], e)
  }

  ghost predicate LogProposed(c: Config, steps: seq<Step>, log: Log) {
    forall e :: e in log ==> Proposed(c, steps, e)
  }

  ghost predicate LoopProposed(c: Config, steps: seq<Step>, p: Proposal) {
    match p
    case NoProposal => true
    case Replicating(_, _, e, _, _, _) => Proposed(c, steps, e)
    case Announcing(req, receipt, _) => req.entries == [] && Proposed(c, steps, receipt.entry)
  }

  ghost predicate ProcProposed(c: Config, steps: seq<Step>, x: Proc) {
    LogProposed(c, steps, x.node.log) && LogProposed(c, steps, x.applied) && LoopProposed(c, steps, x.proposal)
  }

  ghost predicate AllProposed(c: Config, steps: seq<Step>, s: State) {
    && (forall n :: n in s.procs ==> ProcProposed(c, steps, s.procs[n]))
    && (forall r :: r in s.receipts ==> Proposed(c, steps, r.entry))
  }

  // ---- one more step ----

  lemma LaterProposed(c: Config, steps: seq<Step>, step: Step, e: LogEntry)
    requires Proposed(c, steps, e)
    ensures Proposed(c, steps + [step], e)
  {
    var j: nat :| j < |steps| && Proposes(Run(c, steps[..j]), steps[j], e);
    assert (steps + [step])[..j] == steps[..j];
  }

  lemma LaterAll(c: Config, steps: seq<Step>, step: Step, s: State)
    requires AllProposed(c, steps, s)
    ensures AllProposed(c, steps + [step], s)
  {
    forall e | Proposed(c, steps, e) ensures Proposed(c, steps + [step], e) {
      LaterProposed(c, steps, step, e);
    }
    forall n | n in s.procs ensures ProcProposed(c, steps + [step], s.procs[n]) {
      assert ProcProposed(c, steps, s.procs[n]);
    }
  }

  lemma SetProposed(c: Config, steps: seq<Step>, s: State, n: NodeId, y: Proc)
    requires AllProposed(c, steps, s) && n in s.procs && ProcProposed(c, steps, y)
    ensures AllProposed(c, steps, SetProc(s, n, y))
  {
    var t := SetProc(s, n, y);
    forall m | m in t.procs ensures ProcProposed(c, steps, t.procs[m]) {
      if m != n { assert ProcProposed(c, steps, s.procs[m]); }
    }
  }

  lemma OverwriteProposed(c: Config, steps: seq<Step>, x: Node, req: AppendReq)
    requires LogProposed(c, steps, x.log) && LogProposed(c, steps, req.entries)
    ensures LogProposed(c, steps, HandleAppend(x, req).0.log)
  {
    var log := HandleAppend(x, req).0.log;
    forall e | e in log ensures Proposed(c, steps, e) {
      assert e in x.log || e in req.entries;
    }
  }

  lemma CallAppendProposed(c: Config, steps: seq<Step>, s: State, p: NodeId, req: AppendReq, delivered: bool)
    requires AllProposed(c, steps, s) && LogProposed(c, steps, req.entries)
    ensures AllProposed(c, steps, CallAppend(s, p, req, delivered).0)
  {
    if delivered && p in s.procs {
      assert ProcProposed(c, steps, s.procs[p]);
      OverwriteProposed(c, steps, s.procs[p].node, req);
      SetProposed(c, steps, s, p, s.procs[p].(node := HandleAppend(s.procs[p].node, req).0));
    }
  }

  lemma CallVoteProposed(c: Config, steps: seq<Step>, s: State, p: NodeId, req: VoteReq, delivered: bool)
    requires AllProposed(c, steps, s)
    ensures AllProposed(c, steps, CallVote(s, p, req, delivered).0)
  {
    if delivered && p in s.procs {
      assert ProcProposed(c, steps, s.procs[p]);
      SetProposed(c, steps, s, p, s.procs[p].(node := HandleVote(s.procs[p].node, req).0));
    }
  }

  lemma AskVoteProposed(c: Config, steps: seq<Step>, s: State, n: NodeId, delivered: bool)
    requires Has(c, s, n) && AllProposed(c, steps, s)
    ensures AllProposed(c, steps, DoAskVote(c, s, n, delivered))
  {
    var e := s.procs[n].election;
    if e.Electing? && e.asked < |c.peers[n]| {
      var p, req := c.peers[n][e.asked], VoteReq(e.term, n, e.lastIndex, e.lastTerm);
      CallVoteProposed(c, steps, s, p, req, delivered);
      var (t, resp) := CallVote(s, p, req, delivered);
      assert ProcProposed(c, steps, t.procs[n]);
      SetProposed(c, steps, t, n, VoteAnswer(c, n, t.procs[n], resp));
    }
  }

  lemma HeartbeatProposed(c: Config, steps: seq<Step>, s: State, n: NodeId, p: NodeId, delivered: bool)
    requires Has(c, s, n) && AllProposed(c, steps, s)
    ensures AllProposed(c, steps, DoHeartbeat(c, s, n, p, delivered))
  {
    var x := s.procs[n].node;
    if x.role == Leader && p in c.peers[n] {
      var req := BuildAppend(x, n, p);
      assert ProcProposed(c, steps, s.procs[n]);
      CallAppendProposed(c, steps, s, p, req, delivered);
      var (t, resp) := CallAppend(s, p, req, delivered);
      assert ProcProposed(c, steps, t.procs[n]);
      SetProposed(c, steps, t, n, t.procs[n].(node := HeartbeatAnswer(t.procs[n].node, p, req, resp)));
    }
  }

  lemma ReplicateProposed(c: Config, steps: seq<Step>, s: State, n: NodeId, delivered: bool)
    requires Has(c, s, n) && AllProposed(c, steps, s)
    ensures AllProposed(c, steps, DoReplicate(c, s, n, delivered))
  {
    var r := s.procs[n].proposal;
    if r.Replicating? && r.asked < |c.peers[n]| {
      assert ProcProposed(c, steps, s.procs[n]);
      CallAppendProposed(c, steps, s, c.peers[n][r.asked], ReplicateReq(n, r), delivered);
      var (t, resp) := CallAppend(s, c.peers[n][r.asked], ReplicateReq(n, r), delivered);
      assert ProcProposed(c, steps, t.procs[n]);
      SetProposed(c, steps, t, n, ReplicateAnswer(c, n, t.procs[n], resp));
    }
  }

  lemma AnnounceProposed(c: Config, steps: seq<Step>, s: State, n: NodeId, delivered: bool)
    requires Has(c, s, n) && AllProposed(c, steps, s)
    ensures AllProposed(c, steps, DoAnnounce(c, s, n, delivered))
  {
    var x := s.procs[n];
    assert ProcProposed(c, steps, x);
    if x.proposal.Announcing? {
      if x.proposal.asked >= |c.peers[n]| {
        SetProposed(c, steps, s, n, x.(proposal := NoProposal));
      } else {
        CallAppendProposed(c, steps, s, c.peers[n][x.proposal.asked], x.proposal.req, delivered);
        var (t, resp) := CallAppend(s, c.peers[n][x.proposal.asked], x.proposal.req, delivered);
        assert ProcProposed(c, steps, t.procs[n]);
        SetProposed(c, steps, t, n, AnnounceAnswer(c, n, t.procs[n], resp));
      }
    }
  }

  lemma LocalProposed(c: Config, steps: seq<Step>, s: State, step: Step)
    requires s.procs.Keys == c.peers.Keys && step.n in s.procs && AllProposed(c, steps, s)
    requires step.Timeout? || step.EndReplication? || step.Apply?
    ensures AllProposed(c, steps, Next(c, s, step))
  {
    var n := step.n;
    var x, t := s.procs[n], Next(c, s, step);
    assert ProcProposed(c, steps, x);
    if t != s {
      assert t == SetProc(s, n, t.procs[n]);
      SetProposed(c, steps, s, n, t.procs[n]);
    }
  }

  /** A proposal to an idle leader appends exactly the client's entry. */
  lemma ProposeAppends(c: Config, s: State, step: Step)
    requires Has(c, s, step.n) && step.Propose?
    requires s.procs[step.n].node.role == Leader && s.procs[step.n].proposal == NoProposal
    ensures var t, log := Next(c, s, step), s.procs[step.n].node.log;
      && |t.procs[step.n].node.log| == |log| + 1 && log <= t.procs[step.n].node.log
      && Proposes(s, step, t.procs[step.n].node.log[|log|])
      && t.procs[step.n].proposal.Replicating? && t.procs[step.n].proposal.entry == t.procs[step.n].node.log[|log|]
      && t.receipts == s.receipts && forall m :: m in s.procs && m != step.n ==> t.procs[m] == s.procs[m]
  {
  }

  lemma ProposeProposed(c: Config, steps: seq<Step>, s: State, step: Step)
    requires Has(c, s, step.n) && step.Propose? && s == Run(c, steps) && AllProposed(c, steps + [step], s)
    ensures AllProposed(c, steps + [step], Next(c, s, step))
  {
    var n := step.n;
    var x, t, more := s.procs[n], Next(c, s, step), steps + [step];
    if x.node.role == Leader && x.proposal == NoProposal {
      ProposeAppends(c, s, step);
      var y := t.procs[n];
      var e := y.node.log[|x.node.log|];
      assert more[..|steps|] == steps && Proposes(Run(c, more[..|steps|]), more[|steps|], e);
      assert ProcProposed(c, more, x);
      forall d | d in y.node.log ensures Proposed(c, more, d) {
        assert y.node.log == x.node.log + [e];
      }
      SetProposed(c, more, s, n, y);
    }
  }

  lemma StepProposed(c: Config, steps: seq<Step>, s: State, step: Step)
    requires s == Run(c, steps) && AllProposed(c, steps, s)
    ensures AllProposed(c, steps + [step], Next(c, s, step))
  {
    LaterAll(c, steps, step, s);
    var more := steps + [step];
    if step.n in s.procs {
      match step
      case AskVote(n, delivered) => AskVoteProposed(c, more, s, n, delivered);
      case Heartbeat(n, p, delivered) => HeartbeatProposed(c, more, s, n, p, delivered);
      case Replicate(n, delivered) => ReplicateProposed(c, more, s, n, delivered);
      case Announce(n, delivered) => AnnounceProposed(c, more, s, n, delivered);
      case Propose(n, op, key, value) => ProposeProposed(c, steps, s, step);
      case _ => LocalProposed(c, more, s, step);
    }
  }

  lemma {:induction false} RunProposed(c: Config, steps: seq<Step>)
    ensures AllProposed(c, steps, Run(c, steps))
  {
    if steps != [] {
      var front, step := steps[..|steps| - 1], steps[|steps| - 1];
      RunProposed(c, front);
      StepProposed(c, front, Run(c, front), step);
      assert front + [step] == steps;
    }
  }

  /**
   Integrity: every entry that any node has in its log or has applied, and every acknowledged one, was
   proposed by a client to the leader of its term, with that operation, key and value.
   */
  lemma EntriesProposed(c: Config, steps: seq<Step>, i: nat, n: NodeId, e: LogEntry)
    requires i <= |steps| && n in c.peers
    requires e in NodeAt(c, steps, i, n).log || e in AppliedAt(c, steps, i, n) || exists r :: r in Run(c, steps[..i]).receipts && r.entry == e
    ensures exists j: nat :: j < i && Proposes(Run(c, steps[..j]), steps[j], e)
  {
    RunProposed(c, steps[..i]);
    assert ProcProposed(c, steps[..i], Run(c, steps[..i]).procs[n]);
    assert Proposed(c, steps[..i], e);
    var j: nat :| j < i && Proposes(Run(c, steps[..i][..j]), steps[..i][j], e);
    assert steps[..i][..j] == steps[..j];
  }
}
