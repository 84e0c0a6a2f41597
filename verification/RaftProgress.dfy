/** Proposals get through: heartbeats bring every log in line, commit the entry everywhere, and it is applied. */
module RaftProgress {
  import opened Options
  import opened RaftTypes
  import opened RaftNodeSpec
  import opened RaftCluster
  import opened RaftHistory
  import opened RaftInvariant
  import opened RaftReplication
  import opened RaftSteps
  import opened RaftSafety
  import opened RaftRepair
  import opened RaftElection
  import opened RaftOrigin
  import opened RaftReceipt

  // ---- one exchange ----

  /** Beats from l to p change these two nodes only, and of l only its indices. */
  ghost predicate Between(s: State, t: State, l: NodeId, p: NodeId)
    requires l in s.procs && l in t.procs && p in s.procs && p in t.procs
  {
    && t.receipts == s.receipts && t.procs.Keys == s.procs.Keys
    && (forall q :: q in s.procs && q != l && q != p ==> t.procs[q] == s.procs[q])
    && t.procs[p] == s.procs[p].(node := t.procs[p].node)
    && t.procs[l] == s.procs[l].(node := t.procs[l].node)
    && var x, y := s.procs[l].node, t.procs[l].node;
       y.role == x.role && y.term == x.term && y.log == x.log && y.lastApplied == x.lastApplied
       && t.procs[p].node.lastApplied == s.procs[p].node.lastApplied
  }

  /** The follower has taken over the leader's log, and the leader knows it. */
  ghost predicate LevelAt(s: State, l: NodeId, p: NodeId)
    requires l in s.procs
  {
    var x := s.procs[l].node;
    && p in s.procs && p in x.nextIndex && p in x.matchIndex
    && x.nextIndex[p] == |x.log| + 1 && x.matchIndex[p] == |x.log|
    && s.procs[p].node.log == x.log && s.procs[p].node.term == x.term
  }

  /** What the leader's indices say after the exchange. */
  predicate Sent(x: Node, y: Node, p: NodeId, success: bool)
    requires p in x.nextIndex
  {
    if success then y.matchIndex == x.matchIndex[p := |x.log|] && y.nextIndex == x.nextIndex[p := |x.log| + 1]
    else x.nextIndex[p] > 1 && y.matchIndex == x.matchIndex && y.nextIndex == x.nextIndex[p := x.nextIndex[p] - 1]
  }

  predicate SameLeader(x: Node, y: Node) {
    y.role == Leader && y.log == x.log && y.term == x.term && y.lastApplied == x.lastApplied
  }

  lemma AdvanceKeeps(x: Node)
    ensures AdvanceCommit(x) == x.(commitIndex := AdvanceCommit(x).commitIndex)
  {
  }

  lemma AnswerSent(x: Node, p: NodeId, req: AppendReq, resp: AppendResp)
    requires x.role == Leader && p in x.nextIndex && req.entries != [] && req.prevLogIndex + |req.entries| == |x.log|
    requires resp.term <= x.term && (!resp.success ==> x.nextIndex[p] > 1)
    ensures var y := HeartbeatAnswer(x, p, req, resp); SameLeader(x, y) && Sent(x, y, p, resp.success)
  {
    var sent := x.(matchIndex := x.matchIndex[p := |x.log|], nextIndex := x.nextIndex[p := |x.log| + 1]);
    AdvanceKeeps(sent);
  }

  /** The request carries the leader's log from next_index on. */
  lemma SendRequest(x: Node, l: NodeId, p: NodeId)
    requires p in x.nextIndex && 1 <= x.nextIndex[p] <= |x.log|
    ensures var req := BuildAppend(x, l, p);
      && req.term == x.term && req.prevLogIndex == x.nextIndex[p] - 1 && req.prevLogTerm == TermAt(x.log, req.prevLogIndex)
      && req.entries == x.log[req.prevLogIndex..] && req.leaderCommit == x.commitIndex
  {
  }

  /** A follower that accepts it has exactly the leader's log; at the first index it always does. */
  lemma SendFollower(c: Config, h: History, x: Node, f: Node, req: AppendReq)
    requires HistoryInv(c, h) && Sourced(h, x.log) && Sourced(h, f.log) && f.term <= x.term
    requires req.term == x.term && req.prevLogIndex < |x.log| && req.prevLogTerm == TermAt(x.log, req.prevLogIndex)
    requires req.entries == x.log[req.prevLogIndex..]
    ensures var (g, resp) := HandleAppend(f, req);
      && g.term == x.term == resp.term && g.lastApplied == f.lastApplied
      && (resp.success ==> g.log == x.log) && (!resp.success ==> req.prevLogIndex > 0)
  {
    if Consistent(f.log, req) {
      CheckedPrefix(c, h, f.log, x.log, req.prevLogIndex);
      assert x.log == x.log[..req.prevLogIndex] + req.entries;
    }
  }

  /** The state after one delivered heartbeat, from the two nodes that took part. */
  ghost predicate Exchanged(s: State, t: State, l: NodeId, p: NodeId, x: Node, f: Node)
    requires l in s.procs && p in s.procs
  {
    t == s.(procs := s.procs[p := s.procs[p].(node := f)][l := s.procs[l].(node := x)])
  }

  lemma BeatState(c: Config, s: State, l: NodeId, p: NodeId)
    requires Leads(c, s, l, p)
    ensures var req := BuildAppend(s.procs[l].node, l, p); var (f, resp) := HandleAppend(s.procs[p].node, req);
      Exchanged(s, Next(c, s, Heartbeat(l, p, true)), l, p, HeartbeatAnswer(s.procs[l].node, p, req, resp), f)
  {
  }

  lemma SentState(c: Config, s: State, t: State, l: NodeId, p: NodeId, y: Node, g: Node, success: bool)
    requires Leads(c, s, l, p) && s.procs[l].node.nextIndex[p] <= |s.procs[l].node.log| && Exchanged(s, t, l, p, y, g)
    requires SameLeader(s.procs[l].node, y) && g.term == y.term && g.lastApplied == s.procs[p].node.lastApplied
    requires Sent(s.procs[l].node, y, p, success) && (success ==> g.log == y.log)
    ensures Leads(c, t, l, p) && Between(s, t, l, p) && (LevelAt(t, l, p) <==> success) && t.procs[l].node == y
  {
  }

  lemma LeaderFacts(c: Config, s: State, h: History, l: NodeId, p: NodeId)
    requires Inv(c, s, h) && Leads(c, s, l, p)
    ensures HistoryInv(c, h) && Sourced(h, s.procs[l].node.log) && Sourced(h, s.procs[p].node.log)
    ensures 1 <= s.procs[l].node.nextIndex[p] <= |s.procs[l].node.log| + 1
  {
    At(c, s, h, l);
    At(c, s, h, p);
  }

  lemma SendBeat(c: Config, s: State, h: History, l: NodeId, p: NodeId) returns (h': History)
    requires Inv(c, s, h) && Leads(c, s, l, p) && s.procs[l].node.nextIndex[p] <= |s.procs[l].node.log|
    ensures var t := Next(c, s, Heartbeat(l, p, true));
      Inv(c, t, h') && Leads(c, t, l, p) && Between(s, t, l, p) && Sent(s.procs[l].node, t.procs[l].node, p, LevelAt(t, l, p))
  {
    var x, f := s.procs[l].node, s.procs[p].node;
    var req := BuildAppend(x, l, p);
    var (g, resp) := HandleAppend(f, req);
    var y := HeartbeatAnswer(x, p, req, resp);
    assert SameLeader(x, y) && g.term == x.term && g.lastApplied == f.lastApplied && Sent(x, y, p, resp.success) && (resp.success ==> g.log == x.log) by {
      LeaderFacts(c, s, h, l, p);
      SendRequest(x, l, p);
      SendFollower(c, h, x, f, req);
      AnswerSent(x, p, req, resp);
    }
    BeatState(c, s, l, p);
    SentState(c, s, Next(c, s, Heartbeat(l, p, true)), l, p, y, g, resp.success);
    h' := StepHeartbeat(c, s, h, l, p, true);
  }

  // ---- one follower after the other ----

  lemma AfterOne(c: Config, s: State, step: Step)
    requires s.procs.Keys == c.peers.Keys
    ensures After(c, s, [step]) == Next(c, s, step)
  {
    assert [step][..0] == [];
  }

  /** Beats until the follower accepts: at most as many as its next_index. */
  lemma {:induction false} CatchUp(c: Config, s: State, h: History, l: NodeId, p: NodeId) returns (steps: seq<Step>, h': History)
    requires Inv(c, s, h) && Leads(c, s, l, p) && s.procs[l].node.nextIndex[p] <= |s.procs[l].node.log|
    ensures var t := After(c, s, steps);
      Inv(c, t, h') && Leads(c, t, l, p) && Between(s, t, l, p) && LevelAt(t, l, p) && Sent(s.procs[l].node, t.procs[l].node, p, true)
    decreases s.procs[l].node.nextIndex[p]
  {
    var beat := Heartbeat(l, p, true);
    var u := Next(c, s, beat);
    AfterOne(c, s, beat);
    h' := SendBeat(c, s, h, l, p);
    steps := [beat];
    if !LevelAt(u, l, p) {
      var rest;
      rest, h' := CatchUp(c, u, h', l, p);
      steps := [beat] + rest;
      AfterConcat(c, s, [beat], rest);
      BetweenTransitive(s, u, After(c, u, rest), l, p);
    }
  }

  lemma BetweenTransitive(s: State, u: State, t: State, l: NodeId, p: NodeId)
    requires l in s.procs && p in s.procs && l in u.procs && p in u.procs && l in t.procs && p in t.procs
    requires Between(s, u, l, p) && Between(u, t, l, p) && p in s.procs[l].node.nextIndex && p in u.procs[l].node.nextIndex
    requires Sent(s.procs[l].node, u.procs[l].node, p, false) && Sent(u.procs[l].node, t.procs[l].node, p, true)
    ensures Between(s, t, l, p) && Sent(s.procs[l].node, t.procs[l].node, p, true)
  {
  }

  /** The process has only changed its node, and applied nothing. */
  predicate SameProc(x: Proc, y: Proc) {
    y == x.(node := y.node) && y.node.lastApplied == x.node.lastApplied
  }

  ghost predicate Waits(s: State, t: State, l: NodeId, p: NodeId)
    requires l in s.procs && l in t.procs
  {
    && p in s.procs && p in t.procs && t.procs[p] == s.procs[p]
    && p in s.procs[l].node.nextIndex && p in t.procs[l].node.nextIndex
    && t.procs[l].node.nextIndex[p] == s.procs[l].node.nextIndex[p]
  }

  /** The first i followers have been served, the others not. */
  ghost predicate Served(c: Config, s: State, t: State, l: NodeId, i: nat)
    requires Has(c, s, l) && Has(c, t, l)
  {
    && t.receipts == s.receipts && SameLeader(s.procs[l].node, t.procs[l].node)
    && (forall q :: q in s.procs ==> SameProc(s.procs[q], t.procs[q]))
    && (forall j :: 0 <= j < i && j < |c.peers[l]| ==> LevelAt(t, l, c.peers[l][j]))
    && (forall j :: i <= j < |c.peers[l]| ==> Waits(s, t, l, c.peers[l][j]))
  }

  /** A leader with entries for every follower, none of whom is in a later term. */
  ghost predicate Behind(c: Config, s: State, l: NodeId) {
    forall p :: p in c.peers && p != l ==> Leads(c, s, l, p) && s.procs[l].node.nextIndex[p] <= |s.procs[l].node.log|
  }

  lemma ServeNext(c: Config, s: State, t: State, u: State, l: NodeId, i: nat)
    requires ValidConfig(c) && Has(c, s, l) && Has(c, t, l) && Has(c, u, l) && i < |c.peers[l]| && Served(c, s, t, l, i)
    requires var p := c.peers[l][i];
      p in t.procs && Between(t, u, l, p) && LevelAt(u, l, p) && p in t.procs[l].node.nextIndex && Sent(t.procs[l].node, u.procs[l].node, p, true)
    requires t.procs[l].node.role == Leader
    ensures Served(c, s, u, l, i + 1)
  {
    var p := c.peers[l][i];
    forall j | 0 <= j < |c.peers[l]| && j != i ensures c.peers[l][j] != p && c.peers[l][j] != l {
      assert c.peers[l][j] in c.peers[l];
    }
    forall q | q in s.procs ensures SameProc(s.procs[q], u.procs[q]) {
      assert SameProc(s.procs[q], t.procs[q]);
    }
    forall j | 0 <= j < i ensures LevelAt(u, l, c.peers[l][j]) {
      assert LevelAt(t, l, c.peers[l][j]);
    }
    forall j | i < j < |c.peers[l]| ensures Waits(s, u, l, c.peers[l][j]) {
      assert Waits(s, t, l, c.peers[l][j]);
    }
  }

  lemma ServeNothing(c: Config, s: State, l: NodeId)
    requires ValidConfig(c) && Has(c, s, l) && s.procs[l].node.role == Leader && Behind(c, s, l)
    ensures Served(c, s, s, l, 0)
  {
    forall j | 0 <= j < |c.peers[l]| ensures Waits(s, s, l, c.peers[l][j]) {
      assert c.peers[l][j] in c.peers[l];
      assert Leads(c, s, l, c.peers[l][j]);
    }
  }

  lemma {:induction false} ServeAll(c: Config, s: State, h: History, l: NodeId, i: nat) returns (steps: seq<Step>, h': History)
    requires Inv(c, s, h) && Has(c, s, l) && s.procs[l].node.role == Leader && Behind(c, s, l) && i <= |c.peers[l]|
    ensures var t := After(c, s, steps); Inv(c, t, h') && Served(c, s, t, l, i)
  {
    if i == 0 {
      steps, h' := [], h;
      ServeNothing(c, s, l);
    } else {
      steps, h' := ServeAll(c, s, h, l, i - 1);
      var t, p := After(c, s, steps), c.peers[l][i - 1];
      assert p in c.peers[l] && Leads(c, s, l, p) && Waits(s, t, l, p);
      var more;
      more, h' := CatchUp(c, t, h', l, p);
      ServeNext(c, s, t, After(c, t, more), l, i - 1);
      AfterConcat(c, s, steps, more);
      steps := steps + more;
    }
  }

  // ---- commit ----

  /** Every follower has the leader's log, whose last entry is of its own term, and the leader knows it. */
  ghost predicate Level(c: Config, s: State, l: NodeId) {
    && Has(c, s, l)
    && s.procs[l].node.role == Leader && s.procs[l].node.log != [] && LastTerm(s.procs[l].node.log) == s.procs[l].node.term
    && forall p :: p in c.peers && p != l ==> LevelAt(s, l, p)
  }

  /** Once all match indices have reached the end of the log, so does the commit index. */
  lemma AllMatched(x: Node)
    requires x.log != [] && LastTerm(x.log) == x.term && x.commitIndex <= |x.log|
    requires forall p :: p in x.matchIndex ==> x.matchIndex[p] == |x.log|
    ensures AdvanceCommit(x) == x.(commitIndex := |x.log|)
  {
    MatchedReach(|x.log|, x.matchIndex);
    UniqueQuorumIndex(|x.log|, x.matchIndex, |x.log|, QuorumIndex(|x.log|, x.matchIndex));
  }

  lemma MatchedReach(last: nat, m: map<NodeId, nat>)
    requires forall p :: p in m ==> m[p] == last
    ensures IsQuorumIndex(last, m, last)
  {
    var all := set p | p in m && m[p] >= last;
    assert forall p :: p in m ==> m[p] >= last;
    assert all == m.Keys;
    forall i | i > last ensures Reached(last, m, i) < CommitQuorum(|m| + 1) {
      assert forall p :: p in m ==> m[p] < i;
      var reached := set p | p in m && m[p] >= i;
      assert reached == {};
    }
  }

  /** Nothing to send: the follower accepts and takes over the leader's commit index. */
  lemma LevelNodes(x: Node, f: Node, l: NodeId, p: NodeId)
    requires x.log != [] && p in x.nextIndex && x.nextIndex[p] == |x.log| + 1 && x.commitIndex <= |x.log|
    requires f.log == x.log && f.term == x.term
    ensures var req := BuildAppend(x, l, p); var (g, resp) := HandleAppend(f, req);
      && req.entries == [] && resp.success && resp.term == x.term
      && g.log == f.log && g.term == f.term && g.lastApplied == f.lastApplied
      && g.commitIndex >= f.commitIndex && g.commitIndex >= x.commitIndex
  {
  }

  lemma LevelFacts(c: Config, s: State, h: History, l: NodeId)
    requires Inv(c, s, h) && Level(c, s, l)
    ensures s.procs[l].node.commitIndex <= |s.procs[l].node.log|
    ensures forall p :: p in s.procs[l].node.matchIndex ==> s.procs[l].node.matchIndex[p] == |s.procs[l].node.log|
  {
    At(c, s, h, l);
    forall p | p in s.procs[l].node.matchIndex ensures s.procs[l].node.matchIndex[p] == |s.procs[l].node.log| {
      assert p in c.peers[l];
      assert LevelAt(s, l, p);
    }
  }

  /** What a round of heartbeats keeps. */
  ghost predicate Kept(c: Config, s: State, t: State, l: NodeId)
    requires Has(c, s, l) && Has(c, t, l)
  {
    && Level(c, t, l) && t.receipts == s.receipts && SameLeader(s.procs[l].node, t.procs[l].node)
    && forall q :: q in s.procs ==> SameProc(s.procs[q], t.procs[q]) && s.procs[q].node.commitIndex <= t.procs[q].node.commitIndex
  }

  lemma LevelExchange(c: Config, s: State, t: State, l: NodeId, p: NodeId, y: Node, g: Node)
    requires ValidConfig(c) && Level(c, s, l) && p in c.peers && p != l && Exchanged(s, t, l, p, y, g)
    requires y == s.procs[l].node.(commitIndex := y.commitIndex) && s.procs[l].node.commitIndex <= y.commitIndex
    requires g.log == y.log && g.term == y.term && g.lastApplied == s.procs[p].node.lastApplied && g.commitIndex >= s.procs[p].node.commitIndex
    ensures Has(c, t, l) && Kept(c, s, t, l)
  {
    forall q | q in c.peers && q != l ensures LevelAt(t, l, q) {
      assert LevelAt(s, l, q);
    }
  }

  lemma LevelBeat(c: Config, s: State, h: History, l: NodeId, p: NodeId) returns (h': History)
    requires Inv(c, s, h) && Level(c, s, l) && p in c.peers && p != l
    ensures var t := Next(c, s, Heartbeat(l, p, true));
      && Inv(c, t, h') && Kept(c, s, t, l)
      && t.procs[l].node.commitIndex == |s.procs[l].node.log| && t.procs[p].node.commitIndex >= s.procs[l].node.commitIndex
  {
    var x, f := s.procs[l].node, s.procs[p].node;
    assert LevelAt(s, l, p);
    assert p in c.peers[l] by { assert ValidConfig(c); }
    LevelFacts(c, s, h, l);
    LevelNodes(x, f, l, p);
    AllMatched(x);
    BeatState(c, s, l, p);
    var req := BuildAppend(x, l, p);
    var (g, resp) := HandleAppend(f, req);
    LevelExchange(c, s, Next(c, s, Heartbeat(l, p, true)), l, p, x.(commitIndex := |x.log|), g);
    h' := StepHeartbeat(c, s, h, l, p, true);
  }

  lemma KeptTransitive(c: Config, s: State, t: State, u: State, l: NodeId)
    requires Has(c, s, l) && Has(c, t, l) && Has(c, u, l) && Kept(c, s, t, l) && Kept(c, t, u, l)
    ensures Kept(c, s, u, l)
  {
    forall q | q in s.procs ensures SameProc(s.procs[q], u.procs[q]) && s.procs[q].node.commitIndex <= u.procs[q].node.commitIndex {
      assert SameProc(s.procs[q], t.procs[q]) && SameProc(t.procs[q], u.procs[q]);
    }
  }

  /** One heartbeat to each of the first i followers. */
  lemma {:induction false} BeatAll(c: Config, s: State, h: History, l: NodeId, i: nat) returns (steps: seq<Step>, h': History)
    requires Inv(c, s, h) && Level(c, s, l) && i <= |c.peers[l]|
    ensures var t := After(c, s, steps);
      && Inv(c, t, h') && Kept(c, s, t, l)
      && (i > 0 ==> t.procs[l].node.commitIndex == |s.procs[l].node.log|)
      && Told(c, s, t, l, i)
  {
    if i == 0 {
      steps, h' := [], h;
    } else {
      steps, h' := BeatAll(c, s, h, l, i - 1);
      var t, p := After(c, s, steps), c.peers[l][i - 1];
      assert p in c.peers[l] && p in c.peers && p != l by { assert ValidConfig(c); }
      h' := LevelBeat(c, t, h', l, p);
      AfterMore(c, s, steps, Heartbeat(l, p, true));
      BeatNext(c, s, t, Next(c, t, Heartbeat(l, p, true)), l, i - 1);
      steps := steps + [Heartbeat(l, p, true)];
    }
  }

  /** The first i followers have at least the commit index the leader had. */
  ghost predicate Told(c: Config, s: State, t: State, l: NodeId, i: nat)
    requires Has(c, s, l) && Has(c, t, l)
  {
    forall j :: 0 <= j < i && j < |c.peers[l]| ==>
      c.peers[l][j] in t.procs && t.procs[c.peers[l][j]].node.commitIndex >= s.procs[l].node.commitIndex
  }

  lemma BeatNext(c: Config, s: State, t: State, u: State, l: NodeId, i: nat)
    requires Has(c, s, l) && Has(c, t, l) && Has(c, u, l) && i < |c.peers[l]|
    requires Kept(c, s, t, l) && Kept(c, t, u, l) && Told(c, s, t, l, i)
    requires c.peers[l][i] in u.procs && u.procs[c.peers[l][i]].node.commitIndex >= t.procs[l].node.commitIndex
    ensures Kept(c, s, u, l) && Told(c, s, u, l, i + 1)
  {
    KeptTransitive(c, s, t, u, l);
    forall j | 0 <= j < i ensures c.peers[l][j] in u.procs && u.procs[c.peers[l][j]].node.commitIndex >= s.procs[l].node.commitIndex {
      var q := c.peers[l][j];
      assert q in t.procs && SameProc(t.procs[q], u.procs[q]);
    }
    assert SameProc(s.procs[l], t.procs[l]);
  }

  /** Everybody has committed the leader's whole log. */
  ghost predicate Committed(c: Config, s: State, log: Log)
    requires s.procs.Keys == c.peers.Keys
  {
    forall q :: q in c.peers ==> s.procs[q].node.log == log && s.procs[q].node.commitIndex == |log|
  }

  lemma AllCommitted(c: Config, s: State, h: History, l: NodeId)
    requires Inv(c, s, h) && Level(c, s, l) && s.procs[l].node.commitIndex == |s.procs[l].node.log|
    requires Told(c, s, s, l, |c.peers[l]|)
    ensures Committed(c, s, s.procs[l].node.log)
  {
    var log := s.procs[l].node.log;
    forall q | q in c.peers ensures s.procs[q].node.log == log && s.procs[q].node.commitIndex == |log| {
      At(c, s, h, q);
      if q != l {
        assert LevelAt(s, l, q);
        assert q in c.peers[l];
        var j :| 0 <= j < |c.peers[l]| && c.peers[l][j] == q;
      }
    }
  }

  /** Two rounds commit the leader's log everywhere. */
  lemma CommitAll(c: Config, s: State, h: History, l: NodeId) returns (steps: seq<Step>, h': History)
    requires Inv(c, s, h) && Level(c, s, l) && c.peers[l] != []
    ensures var t := After(c, s, steps); Inv(c, t, h') && Kept(c, s, t, l) && Committed(c, t, s.procs[l].node.log)
  {
    steps, h' := BeatAll(c, s, h, l, |c.peers[l]|);
    var t := After(c, s, steps);
    var more;
    more, h' := BeatAll(c, t, h', l, |c.peers[l]|);
    var u := After(c, t, more);
    AfterConcat(c, s, steps, more);
    KeptTransitive(c, s, t, u, l);
    AllCommitted(c, u, h', l);
    steps := steps + more;
  }

  // ---- apply ----

  lemma ApplyOnce(c: Config, s: State, n: NodeId)
    requires Has(c, s, n) && s.procs[n].node.lastApplied < s.procs[n].node.commitIndex <= |s.procs[n].node.log|
    requires s.procs[n].applied == s.procs[n].node.log[..s.procs[n].node.lastApplied]
    ensures var t := Next(c, s, Apply(n)); var x := s.procs[n];
      && (forall q :: q in s.procs && q != n ==> t.procs[q] == s.procs[q]) && t.receipts == s.receipts
      && t.procs[n].node == x.node.(lastApplied := x.node.lastApplied + 1)
      && t.procs[n].applied == x.node.log[..x.node.lastApplied + 1]
      && t.procs[n] == x.(node := t.procs[n].node, applied := t.procs[n].applied)
  {
  }

  /** The node has passed everything it has committed to its state machine, and nobody else has moved. */
  ghost predicate Finished(s: State, t: State, n: NodeId)
    requires n in s.procs && n in t.procs && s.procs[n].node.commitIndex <= |s.procs[n].node.log|
  {
    && (forall q :: q in s.procs && q != n ==> q in t.procs && t.procs[q] == s.procs[q]) && t.receipts == s.receipts
    && t.procs[n].node == s.procs[n].node.(lastApplied := s.procs[n].node.commitIndex)
    && t.procs[n].applied == s.procs[n].node.log[..s.procs[n].node.commitIndex]
    && t.procs[n] == s.procs[n].(node := t.procs[n].node, applied := t.procs[n].applied)
  }

  lemma {:induction false} ApplyAll(c: Config, s: State, n: NodeId) returns (steps: seq<Step>)
    requires Has(c, s, n) && s.procs[n].node.lastApplied <= s.procs[n].node.commitIndex <= |s.procs[n].node.log|
    requires s.procs[n].applied == s.procs[n].node.log[..s.procs[n].node.lastApplied]
    ensures Finished(s, After(c, s, steps), n)
    decreases s.procs[n].node.commitIndex - s.procs[n].node.lastApplied
  {
    steps := [];
    if s.procs[n].node.lastApplied < s.procs[n].node.commitIndex {
      ApplyOnce(c, s, n);
      AfterOne(c, s, Apply(n));
      var rest := ApplyAll(c, Next(c, s, Apply(n)), n);
      AfterConcat(c, s, [Apply(n)], rest);
      steps := [Apply(n)] + rest;
    }
  }

  /** Nodes in `todo` still have to apply; all the others have applied the whole log. */
  ghost predicate Applying(c: Config, s: State, log: Log, todo: set<NodeId>)
    requires s.procs.Keys == c.peers.Keys
  {
    forall q :: q in c.peers ==>
      && s.procs[q].node.log == log && s.procs[q].node.commitIndex == |log| && s.procs[q].node.lastApplied <= |log|
      && s.procs[q].applied == log[..s.procs[q].node.lastApplied]
      && (q !in todo ==> s.procs[q].node.lastApplied == |log|)
  }

  /** Nothing but the applied entries has changed. */
  ghost predicate OnlyApplied(s: State, t: State) {
    && t.receipts == s.receipts && t.procs.Keys == s.procs.Keys
    && forall q :: q in s.procs ==> AppliedMore(s.procs[q], t.procs[q])
  }

  predicate AppliedMore(x: Proc, y: Proc) {
    y == x.(node := x.node.(lastApplied := y.node.lastApplied), applied := y.applied)
  }

  lemma OnlyAppliedMore(s: State, t: State, u: State, n: NodeId)
    requires n in s.procs && n in t.procs && s.procs[n].node.commitIndex <= |s.procs[n].node.log| && Finished(s, t, n)
    requires t.procs.Keys == s.procs.Keys && OnlyApplied(t, u)
    ensures OnlyApplied(s, u)
  {
    forall q | q in s.procs ensures AppliedMore(s.procs[q], u.procs[q]) {
      assert AppliedMore(t.procs[q], u.procs[q]);
    }
  }

  lemma {:induction false} ApplyEverywhere(c: Config, s: State, log: Log, todo: set<NodeId>) returns (steps: seq<Step>)
    requires s.procs.Keys == c.peers.Keys && Applying(c, s, log, todo) && todo <= c.peers.Keys
    ensures Applying(c, After(c, s, steps), log, {}) && OnlyApplied(s, After(c, s, steps))
    decreases |todo|
  {
    steps := [];
    if todo != {} {
      if forall q :: q !in todo { assert false; }
      var n :| n in todo;
      var first := ApplyAll(c, s, n);
      var t := After(c, s, first);
      assert Finished(s, t, n);
      var rest := ApplyEverywhere(c, t, log, todo - {n});
      AfterConcat(c, s, first, rest);
      OnlyAppliedMore(s, t, After(c, t, rest), n);
      steps := first + rest;
    }
  }

  // ---- the theorem ----

  /** Every node has this log, has committed it and has applied it. */
  ghost predicate Everywhere(c: Config, s: State, log: Log)
    requires s.procs.Keys == c.peers.Keys
  {
    forall q :: q in c.peers ==> s.procs[q].node.log == log && s.procs[q].node.commitIndex == |log| && s.procs[q].applied == log
  }

  lemma ProposeBehind(c: Config, s: State, h: History, l: NodeId, step: Step)
    requires Inv(c, s, h) && Has(c, s, l) && step.Propose? && step.n == l
    requires s.procs[l].node.role == Leader && s.procs[l].proposal == NoProposal
    requires forall p :: p in c.peers ==> s.procs[p].node.term <= s.procs[l].node.term
    ensures Behind(c, Next(c, s, step), l)
    ensures var x := Next(c, s, step).procs[l].node; x.role == Leader && x.log != [] && LastTerm(x.log) == x.term
  {
    ProposeAppends(c, s, step);
    At(c, s, h, l);
    var t := Next(c, s, step);
    forall p | p in c.peers && p != l ensures Leads(c, t, l, p) && t.procs[l].node.nextIndex[p] <= |t.procs[l].node.log| {
      assert p in c.peers[l];
    }
  }

  lemma ServedIsLevel(c: Config, s: State, t: State, l: NodeId)
    requires ValidConfig(c) && Has(c, s, l) && Has(c, t, l) && Served(c, s, t, l, |c.peers[l]|)
    requires s.procs[l].node.log != [] && LastTerm(s.procs[l].node.log) == s.procs[l].node.term
    ensures Level(c, t, l)
  {
    forall p | p in c.peers && p != l ensures LevelAt(t, l, p) {
      assert p in c.peers[l];
      var j :| 0 <= j < |c.peers[l]| && c.peers[l][j] == p;
    }
  }

  lemma CommittedApplying(c: Config, s: State, h: History, log: Log)
    requires Inv(c, s, h) && Committed(c, s, log)
    ensures Applying(c, s, log, c.peers.Keys)
  {
    forall q | q in c.peers ensures s.procs[q].node.lastApplied <= |log| && s.procs[q].applied == log[..s.procs[q].node.lastApplied] {
      At(c, s, h, q);
    }
  }

  /** From a leader with something to send: everybody ends up with its log, committed. */
  lemma SpreadLog(c: Config, s: State, h: History, l: NodeId) returns (steps: seq<Step>, h': History, t: State)
    requires Inv(c, s, h) && Has(c, s, l) && Total(c) >= 2 && Behind(c, s, l)
    requires s.procs[l].node.role == Leader && s.procs[l].node.log != [] && LastTerm(s.procs[l].node.log) == s.procs[l].node.term
    ensures Has(c, t, l) && Served(c, s, t, l, |c.peers[l]|)
    ensures var u := After(c, s, steps); Inv(c, u, h') && Kept(c, t, u, l) && Committed(c, u, s.procs[l].node.log)
  {
    PeerCount(c, l);
    steps, h' := ServeAll(c, s, h, l, |c.peers[l]|);
    t := After(c, s, steps);
    ServedIsLevel(c, s, t, l);
    var commit;
    commit, h' := CommitAll(c, t, h', l);
    AfterConcat(c, s, steps, commit);
    steps := steps + commit;
  }

  /** And applied. */
  lemma SpreadAll(c: Config, s: State, h: History, l: NodeId) returns (steps: seq<Step>)
    requires Inv(c, s, h) && Has(c, s, l) && Total(c) >= 2 && Behind(c, s, l)
    requires s.procs[l].node.role == Leader && s.procs[l].node.log != [] && LastTerm(s.procs[l].node.log) == s.procs[l].node.term
    ensures var t := After(c, s, steps); var x, y := s.procs[l], t.procs[l];
      && Everywhere(c, t, x.node.log) && t.receipts == s.receipts
      && y.proposal == x.proposal && y.node.role == Leader && y.node.term == x.node.term
      && forall p :: p in c.peers ==> t.procs[p].node.term <= x.node.term
  {
    var log := s.procs[l].node.log;
    var spread, h', t := SpreadLog(c, s, h, l);
    var u := After(c, s, spread);
    CommittedApplying(c, u, h', log);
    var apply := ApplyEverywhere(c, u, log, c.peers.Keys);
    var v := After(c, u, apply);
    SpreadKeeps(c, s, t, u, v, l);
    assert Everywhere(c, v, log) by { AppliedEverywhere(c, v, log); }
    AfterConcat(c, s, spread, apply);
    steps := spread + apply;
  }

  lemma AppliedEverywhere(c: Config, s: State, log: Log)
    requires s.procs.Keys == c.peers.Keys && Applying(c, s, log, {})
    ensures Everywhere(c, s, log)
  {
    assert log[..|log|] == log;
  }

  lemma SpreadKeeps(c: Config, s: State, t: State, u: State, v: State, l: NodeId)
    requires Has(c, s, l) && Has(c, t, l) && Has(c, u, l) && Has(c, v, l)
    requires Served(c, s, t, l, |c.peers[l]|) && Kept(c, t, u, l) && OnlyApplied(u, v)
    ensures v.receipts == s.receipts && v.procs[l].proposal == s.procs[l].proposal
    ensures v.procs[l].node.role == Leader && v.procs[l].node.term == s.procs[l].node.term
    ensures forall p :: p in c.peers ==> v.procs[p].node.term <= s.procs[l].node.term
  {
    assert SameProc(s.procs[l], t.procs[l]) && SameProc(t.procs[l], u.procs[l]) && AppliedMore(u.procs[l], v.procs[l]);
    forall p | p in c.peers ensures v.procs[p].node.term <= s.procs[l].node.term {
      assert AppliedMore(u.procs[p], v.procs[p]);
      if p != l { assert LevelAt(u, l, p); }
    }
  }

  lemma StillEverywhere(c: Config, s: State, t: State, l: NodeId, log: Log, e: LogEntry)
    requires ValidConfig(c) && Has(c, s, l) && Has(c, t, l) && Everywhere(c, s, log + [e]) && t.procs[l] == s.procs[l].(proposal := NoProposal)
    requires forall i :: 0 <= i < |c.peers[l]| ==> TookPart(c, s, t, l, log, e, i)
    ensures Everywhere(c, t, log + [e])
  {
    forall q | q in c.peers && q != l
      ensures t.procs[q].node.log == log + [e] && t.procs[q].node.commitIndex == |log| + 1 && t.procs[q].applied == log + [e]
    {
      assert q in c.peers[l];
      var i :| 0 <= i < |c.peers[l]| && c.peers[l][i] == q;
      assert TookPart(c, s, t, l, log, e, i);
    }
  }

  lemma SpreadThenReturn(c: Config, s: State, h: History, l: NodeId, log: Log, e: LogEntry) returns (steps: seq<Step>)
    requires Inv(c, s, h) && Has(c, s, l) && Total(c) >= 2 && Behind(c, s, l)
    requires s.procs[l].node.role == Leader && s.procs[l].node.log == log + [e] && e.term == s.procs[l].node.term
    requires s.procs[l].proposal == Replicating(e.term, |log|, e, TermAt(log, |log|), 1, 0)
    ensures var t := After(c, s, steps);
      && Everywhere(c, t, log + [e]) && t.procs[l].proposal == NoProposal
      && t.receipts == s.receipts + {Receipt(e.term, |log| + 1, e)}
  {
    var spread := SpreadAll(c, s, h, l);
    var t := After(c, s, spread);
    assert Proposing(c, t, l, log, e) by {
      assert forall p :: p in c.peers ==> t.procs[p].node.log == log + [e];
    }
    var call := ProposalReturns(c, t, l, log, e);
    StillEverywhere(c, t, After(c, t, call), l, log, e);
    AfterConcat(c, s, spread, call);
    steps := spread + call;
  }

  /**
   In every reachable state: what a client proposes to an idle leader that nobody has outrun can reach
   every log, be committed and be applied everywhere, behind all that the leader had, and the call
   returns true.
   */
  lemma ProposalCommits(c: Config, steps: seq<Step>, step: Step) returns (more: seq<Step>, e: LogEntry)
    requires ValidConfig(c) && Total(c) >= 2 && step.Propose? && step.n in c.peers
    requires var s := Run(c, steps);
      && s.procs[step.n].node.role == Leader && s.procs[step.n].proposal == NoProposal
      && forall p :: p in c.peers ==> s.procs[p].node.term <= s.procs[step.n].node.term
    ensures var s := Run(c, steps); var log := s.procs[step.n].node.log; var t := Run(c, steps + [step] + more);
      && Proposes(s, step, e) && Everywhere(c, t, log + [e])
      && t.receipts == s.receipts + {Receipt(e.term, |log| + 1, e)} && t.procs[step.n].proposal == NoProposal
  {
    var s, l := Run(c, steps), step.n;
    var log := s.procs[l].node.log;
    var h := RunInv(c, steps);
    var t := Next(c, s, step);
    ProposeAppends(c, s, step);
    ProposeBehind(c, s, h, l, step);
    var h' := StepKeepsInv(c, s, h, step);
    e := t.procs[l].node.log[|log|];
    ProposeLoop(c, s, step, log, e);
    more := SpreadThenReturn(c, t, h', l, log, e);
    RunAfter(c, steps, [step]);
    AfterOne(c, s, step);
    RunAfter(c, steps + [step], more);
  }

  lemma ProposeLoop(c: Config, s: State, step: Step, log: Log, e: LogEntry)
    requires Has(c, s, step.n) && step.Propose? && s.procs[step.n].node.role == Leader && s.procs[step.n].proposal == NoProposal
    requires log == s.procs[step.n].node.log && Proposes(s, step, e)
    ensures var x := Next(c, s, step).procs[step.n];
      && x.node.role == Leader && x.node.log == log + [e] && e.term == x.node.term
      && x.proposal == Replicating(e.term, |log|, e, TermAt(log, |log|), 1, 0)
  {
  }

  lemma NewLeader(c: Config, n: NodeId) returns (steps: seq<Step>)
    requires ValidConfig(c) && Total(c) >= 2 && n in c.peers
    ensures var x := Run(c, steps).procs[n]; x.node.role == Leader && x.node.term == 1 && x.node.log == [] && x.proposal == NoProposal
    ensures forall p :: p in c.peers ==> Run(c, steps).procs[p].node.term <= 1
  {
    steps := ElectionWins(c, Init(c), n);
    FirstElection(c, n, steps);
  }

  /** So a new cluster gets a client's operation into every state machine. */
  lemma FirstProposal(c: Config, step: Step) returns (steps: seq<Step>, e: LogEntry)
    requires ValidConfig(c) && Total(c) >= 2 && step.Propose? && step.n in c.peers
    ensures e.term == 1 && e.op == step.op && e.key == step.key && e.value == if step.op == Put then step.value else ""
    ensures Everywhere(c, Run(c, steps), [e]) && Receipt(1, 1, e) in Run(c, steps).receipts
  {
    var campaign := NewLeader(c, step.n);
    var more;
    more, e := ProposalCommits(c, campaign, step);
    steps := campaign + [step] + more;
    assert [] + [e] == [e];
  }
}
