/** A proposal returns true: once a majority has the entry and everybody has been told. */
module RaftReceipt {
  import opened Options
  import opened RaftTypes
  import opened RaftNodeSpec
  import opened RaftCluster
  import opened RaftSteps
  import opened RaftElection

  /** A leader about to replicate e behind log; every follower has that log and is in no later term. */
  ghost predicate Proposing(c: Config, s: State, l: NodeId, log: Log, e: LogEntry) {
    && Has(c, s, l)
    && s.procs[l].node.role == Leader && s.procs[l].node.log == log + [e] && e.term == s.procs[l].node.term
    && s.procs[l].node.commitIndex <= |log| + 1
    && s.procs[l].proposal == Replicating(e.term, |log|, e, TermAt(log, |log|), 1, 0)
    && forall p :: p in c.peers && p != l ==> log <= s.procs[p].node.log && s.procs[p].node.term <= e.term
  }

  /** The process has only changed its node; it has applied and committed nothing. */
  predicate Unmoved(x: Proc, y: Proc) {
    y == x.(node := y.node) && y.node.lastApplied == x.node.lastApplied && y.node.commitIndex == x.node.commitIndex
  }

  ghost predicate Copied(c: Config, s: State, t: State, l: NodeId, log: Log, e: LogEntry, p: NodeId) {
    && p in s.procs && p in t.procs && Unmoved(s.procs[p], t.procs[p])
    && t.procs[p].node.log == log + [e] && t.procs[p].node.term == e.term
  }

  /** The first j followers have taken the entry, the others have not been asked. */
  ghost predicate Copying(c: Config, s: State, t: State, l: NodeId, log: Log, e: LogEntry, j: nat)
    requires Has(c, s, l) && Has(c, t, l)
  {
    && t.procs[l] == s.procs[l].(proposal := t.procs[l].proposal) && t.receipts == s.receipts
    && t.procs[l].proposal ==
         Replicating(e.term, |log|, e, TermAt(log, |log|), 1 + j, if 1 + j >= Majority(1 + |c.peers[l]|) then |c.peers[l]| else j)
    && (forall i :: 0 <= i < j && i < |c.peers[l]| ==> Copied(c, s, t, l, log, e, c.peers[l][i]))
    && (forall i :: j <= i < |c.peers[l]| && c.peers[l][i] in s.procs ==> t.procs[c.peers[l][i]] == s.procs[c.peers[l][i]])
  }

  /** A follower with the log takes exactly the entry. */
  lemma TakesEntry(f: Node, l: NodeId, log: Log, e: LogEntry, r: Proposal)
    requires log <= f.log && f.term <= e.term && r.Replicating?
    requires r.term == e.term && r.prevIndex == |log| && r.entry == e && r.prevTerm == TermAt(log, |log|)
    ensures var (g, resp) := HandleAppend(f, ReplicateReq(l, r));
      && resp == AppendResp(e.term, true) && g.log == log + [e] && g.term == e.term
      && g.lastApplied == f.lastApplied && g.commitIndex == f.commitIndex
  {
    assert f.log[..|log|] == log;
    assert TermAt(f.log, |log|) == TermAt(log, |log|);
  }

  lemma CopyNext(c: Config, s: State, t: State, l: NodeId, log: Log, e: LogEntry, j: nat)
    requires ValidConfig(c) && Proposing(c, s, l, log, e) && Has(c, t, l) && Copying(c, s, t, l, log, e, j)
    requires 1 + j < Majority(1 + |c.peers[l]|)
    ensures Copying(c, s, DoReplicate(c, t, l, true), l, log, e, j + 1)
  {
    var p, r := c.peers[l][j], t.procs[l].proposal;
    assert p in c.peers[l] && p in c.peers && p != l && t.procs[p] == s.procs[p];
    TakesEntry(t.procs[p].node, l, log, e, r);
    var (t', resp) := CallAppend(t, p, ReplicateReq(l, r), true);
    assert t'.procs[l] == t.procs[l];
    assert DoReplicate(c, t, l, true) == SetProc(t', l, ReplicateAnswer(c, l, t.procs[l], resp));
    CopySet(c, s, t, t', l, log, e, j, ReplicateAnswer(c, l, t.procs[l], resp));
  }

  lemma CopySet(c: Config, s: State, t: State, t': State, l: NodeId, log: Log, e: LogEntry, j: nat, y: Proc)
    requires ValidConfig(c) && Proposing(c, s, l, log, e) && Has(c, t, l) && Copying(c, s, t, l, log, e, j) && j < |c.peers[l]|
    requires t'.procs.Keys == t.procs.Keys && t'.receipts == t.receipts
    requires var p := c.peers[l][j]; Copied(c, s, t', l, log, e, p) && forall q :: q in t.procs && q != p ==> t'.procs[q] == t.procs[q]
    requires y == s.procs[l].(proposal := y.proposal)
    requires y.proposal ==
      Replicating(e.term, |log|, e, TermAt(log, |log|), 2 + j, if 2 + j >= Majority(1 + |c.peers[l]|) then |c.peers[l]| else j + 1)
    ensures Copying(c, s, SetProc(t', l, y), l, log, e, j + 1)
  {
    var u := SetProc(t', l, y);
    forall i | 0 <= i < |c.peers[l]| ensures c.peers[l][i] != l && (i != j ==> c.peers[l][i] != c.peers[l][j]) {
      assert c.peers[l][i] in c.peers[l];
    }
    forall i | 0 <= i <= j ensures Copied(c, s, u, l, log, e, c.peers[l][i]) {
      if i < j { assert Copied(c, s, t, l, log, e, c.peers[l][i]); }
    }
  }

  lemma {:induction false} CopyMajority(c: Config, s: State, l: NodeId, log: Log, e: LogEntry, j: nat) returns (steps: seq<Step>)
    requires ValidConfig(c) && Proposing(c, s, l, log, e) && j < Majority(1 + |c.peers[l]|) && Total(c) >= 2
    ensures Repeats(steps, Replicate(l, true), j) && Copying(c, s, After(c, s, steps), l, log, e, j)
  {
    PeerCount(c, l);
    steps := [];
    if j > 0 {
      steps := CopyMajority(c, s, l, log, e, j - 1);
      CopyNext(c, s, After(c, s, steps), l, log, e, j - 1);
      AfterMore(c, s, steps, Replicate(l, true));
      steps := steps + [Replicate(l, true)];
    }
  }

  // ---- the closing round ----

  /** A request without entries moves at most the commit index, and that only on a matching log. */
  lemma HearsCommit(f: Node, req: AppendReq)
    requires f.term <= req.term && req.entries == [] && req.leaderCommit <= req.prevLogIndex
    ensures var (g, resp) := HandleAppend(f, req);
      && resp.term == req.term && g.term == req.term && g.log == f.log && g.lastApplied == f.lastApplied
      && g.commitIndex == HeardCommit(f, req)
  {
  }

  function HeardCommit(f: Node, req: AppendReq): nat {
    if Consistent(f.log, req) && req.leaderCommit > f.commitIndex then req.leaderCommit else f.commitIndex
  }

  ghost predicate Heard(u: State, t: State, p: NodeId, req: AppendReq) {
    && p in u.procs && p in t.procs && t.procs[p] == u.procs[p].(node := t.procs[p].node)
    && var f, g := u.procs[p].node, t.procs[p].node;
       g.log == f.log && g.term == req.term && g.lastApplied == f.lastApplied && g.commitIndex == HeardCommit(f, req)
  }

  /** A leader that announces; no follower is in a later term. */
  ghost predicate Tells(c: Config, u: State, l: NodeId) {
    && Has(c, u, l) && u.procs[l].proposal.Announcing? && u.procs[l].proposal.asked == 0
    && var req := u.procs[l].proposal.req;
       && req.entries == [] && req.leaderCommit <= req.prevLogIndex && req.term == u.procs[l].node.term
       && forall p :: p in c.peers && p != l ==> u.procs[p].node.term <= req.term
  }

  ghost predicate Telling(c: Config, u: State, t: State, l: NodeId, j: nat)
    requires Tells(c, u, l) && Has(c, t, l)
  {
    && t.procs[l] == u.procs[l].(proposal := Announcing(u.procs[l].proposal.req, u.procs[l].proposal.receipt, j)) && t.receipts == u.receipts
    && (forall i :: 0 <= i < j && i < |c.peers[l]| ==> Heard(u, t, c.peers[l][i], u.procs[l].proposal.req))
    && (forall i :: j <= i < |c.peers[l]| && c.peers[l][i] in u.procs ==> t.procs[c.peers[l][i]] == u.procs[c.peers[l][i]])
  }

  lemma TellSet(c: Config, u: State, t: State, t': State, l: NodeId, j: nat, y: Proc)
    requires ValidConfig(c) && Tells(c, u, l) && Has(c, t, l) && Telling(c, u, t, l, j) && j < |c.peers[l]|
    requires t'.procs.Keys == t.procs.Keys && t'.receipts == t.receipts
    requires var p := c.peers[l][j]; Heard(u, t', p, u.procs[l].proposal.req) && forall q :: q in t.procs && q != p ==> t'.procs[q] == t.procs[q]
    requires y == u.procs[l].(proposal := Announcing(u.procs[l].proposal.req, u.procs[l].proposal.receipt, j + 1))
    ensures Telling(c, u, SetProc(t', l, y), l, j + 1)
  {
    var v, req := SetProc(t', l, y), u.procs[l].proposal.req;
    forall i | 0 <= i < |c.peers[l]| ensures c.peers[l][i] != l && (i != j ==> c.peers[l][i] != c.peers[l][j]) {
      assert c.peers[l][i] in c.peers[l];
    }
    forall i | 0 <= i <= j ensures Heard(u, v, c.peers[l][i], req) {
      if i < j { assert Heard(u, t, c.peers[l][i], req); }
    }
  }

  lemma TellNext(c: Config, u: State, t: State, l: NodeId, j: nat)
    requires ValidConfig(c) && Tells(c, u, l) && Has(c, t, l) && Telling(c, u, t, l, j) && j < |c.peers[l]|
    ensures Telling(c, u, DoAnnounce(c, t, l, true), l, j + 1)
  {
    var p, req := c.peers[l][j], u.procs[l].proposal.req;
    assert p in c.peers[l] && p in c.peers && p != l && t.procs[p] == u.procs[p];
    HearsCommit(t.procs[p].node, req);
    var (t', resp) := CallAppend(t, p, req, true);
    assert t'.procs[l] == t.procs[l];
    assert DoAnnounce(c, t, l, true) == SetProc(t', l, AnnounceAnswer(c, l, t.procs[l], resp));
    TellSet(c, u, t, t', l, j, AnnounceAnswer(c, l, t.procs[l], resp));
  }

  lemma {:induction false} TellAll(c: Config, u: State, l: NodeId, j: nat) returns (steps: seq<Step>)
    requires ValidConfig(c) && Tells(c, u, l) && j <= |c.peers[l]|
    ensures Repeats(steps, Announce(l, true), j) && Telling(c, u, After(c, u, steps), l, j)
  {
    steps := [];
    if j > 0 {
      steps := TellAll(c, u, l, j - 1);
      TellNext(c, u, After(c, u, steps), l, j - 1);
      AfterMore(c, u, steps, Announce(l, true));
      steps := steps + [Announce(l, true)];
    }
  }

  // ---- the whole call ----

  /** What the call does to a follower: number i of the list has the entry if it was among the majority. */
  ghost predicate TookPart(c: Config, s: State, t: State, l: NodeId, log: Log, e: LogEntry, i: nat)
    requires Has(c, s, l) && i < |c.peers[l]|
  {
    var p := c.peers[l][i];
    && p in s.procs && p in t.procs && t.procs[p] == s.procs[p].(node := t.procs[p].node)
    && var f, g, commit := s.procs[p].node, t.procs[p].node, s.procs[l].node.commitIndex;
       && g.log == (if i < Total(c) / 2 then log + [e] else f.log) && g.lastApplied == f.lastApplied
       && f.commitIndex <= g.commitIndex && (g.commitIndex == f.commitIndex || g.commitIndex == commit)
       && (i < Total(c) / 2 ==> g.commitIndex >= commit)
  }

  lemma EndTells(c: Config, s: State, t: State, l: NodeId, log: Log, e: LogEntry)
    requires ValidConfig(c) && Proposing(c, s, l, log, e) && Has(c, t, l) && Total(c) >= 2 && Copying(c, s, t, l, log, e, Total(c) / 2)
    ensures var u := Next(c, t, EndReplication(l)); var commit := s.procs[l].node.commitIndex;
      && Tells(c, u, l) && u.receipts == s.receipts && (forall q :: q in t.procs && q != l ==> u.procs[q] == t.procs[q])
      && u.procs[l] == s.procs[l].(proposal :=
           Announcing(AppendReq(e.term, l, |log| + 1, e.term, [], commit), Receipt(e.term, |log| + 1, e), 0))
  {
    PeerCount(c, l);
    var u := Next(c, t, EndReplication(l));
    forall p | p in c.peers && p != l ensures u.procs[p].node.term <= e.term {
      assert p in c.peers[l];
      var i :| 0 <= i < |c.peers[l]| && c.peers[l][i] == p;
      if i < Total(c) / 2 { assert Copied(c, s, t, l, log, e, p); }
    }
  }

  lemma HeardTookPart(c: Config, s: State, t: State, u: State, v: State, l: NodeId, log: Log, e: LogEntry, i: nat)
    requires ValidConfig(c) && Proposing(c, s, l, log, e) && Has(c, t, l) && i < |c.peers[l]| && Copying(c, s, t, l, log, e, Total(c) / 2)
    requires var p := c.peers[l][i]; p in t.procs && p in u.procs && u.procs[p] == t.procs[p]
    requires Heard(u, v, c.peers[l][i], AppendReq(e.term, l, |log| + 1, e.term, [], s.procs[l].node.commitIndex))
    ensures TookPart(c, s, v, l, log, e, i)
  {
    var p := c.peers[l][i];
    assert p in c.peers[l] && p in c.peers && p != l;
    if i < Total(c) / 2 { assert Copied(c, s, t, l, log, e, p); }
  }

  /**
   A proposal behind a log that every follower has: half the cluster's answers and one closing round
   return true to the client, and a majority has the entry and the leader's commit index.
   */
  lemma ProposalReturns(c: Config, s: State, l: NodeId, log: Log, e: LogEntry) returns (steps: seq<Step>)
    requires ValidConfig(c) && Proposing(c, s, l, log, e) && Total(c) >= 2
    ensures var t := After(c, s, steps);
      && t.procs[l] == s.procs[l].(proposal := NoProposal)
      && t.receipts == s.receipts + {Receipt(e.term, |log| + 1, e)}
      && forall i :: 0 <= i < |c.peers[l]| ==> TookPart(c, s, t, l, log, e, i)
  {
    PeerCount(c, l);
    var copy := CopyMajority(c, s, l, log, e, Total(c) / 2);
    var t := After(c, s, copy);
    EndTells(c, s, t, l, log, e);
    var u := Next(c, t, EndReplication(l));
    AfterMore(c, s, copy, EndReplication(l));
    var tell := TellAll(c, u, l, |c.peers[l]|);
    var v := After(c, u, tell);
    AfterConcat(c, s, copy + [EndReplication(l)], tell);
    AfterMore(c, s, copy + [EndReplication(l)] + tell, Announce(l, true));
    steps := copy + [EndReplication(l)] + tell + [Announce(l, true)];
    Returned(c, s, t, u, v, l, log, e);
  }

  lemma Returned(c: Config, s: State, t: State, u: State, v: State, l: NodeId, log: Log, e: LogEntry)
    requires ValidConfig(c) && Proposing(c, s, l, log, e) && Has(c, t, l) && Has(c, v, l) && Copying(c, s, t, l, log, e, Total(c) / 2)
    requires Tells(c, u, l) && u.receipts == s.receipts && (forall q :: q in t.procs && q != l ==> u.procs[q] == t.procs[q])
    requires u.procs[l] == s.procs[l].(proposal :=
           Announcing(AppendReq(e.term, l, |log| + 1, e.term, [], s.procs[l].node.commitIndex), Receipt(e.term, |log| + 1, e), 0))
    requires Telling(c, u, v, l, |c.peers[l]|)
    ensures var t' := Next(c, v, Announce(l, true));
      && t'.procs[l] == s.procs[l].(proposal := NoProposal)
      && t'.receipts == s.receipts + {Receipt(e.term, |log| + 1, e)}
      && forall i :: 0 <= i < |c.peers[l]| ==> TookPart(c, s, t', l, log, e, i)
  {
    var t' := Next(c, v, Announce(l, true));
    forall i | 0 <= i < |c.peers[l]| ensures TookPart(c, s, t', l, log, e, i) {
      var p := c.peers[l][i];
      assert p in c.peers[l] && p in c.peers && p != l;
      assert Heard(u, v, p, u.procs[l].proposal.req);
      HeardTookPart(c, s, t, u, v, l, log, e, i);
    }
  }
}
