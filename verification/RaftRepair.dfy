/** Log repair: how many heartbeats bring a follower's log in line with the leader's. */
module RaftRepair {
  import opened RaftTypes
  import opened RaftNodeSpec
  import opened RaftCluster
  import opened RaftHistory
  import opened RaftInvariant
  import opened RaftReplication
  import opened RaftSteps
  import opened RaftSafety

  /** The state after k delivered heartbeats from l to p, with nothing else in between. */
  ghost function Beats(c: Config, s: State, l: NodeId, p: NodeId, k: nat): (t: State)
    requires Has(c, s, l)
    ensures Has(c, t, l)
    decreases k
  {
    if k == 0 then s else DoHeartbeat(c, Beats(c, s, l, p, k - 1), l, p, true)
  }

  ghost predicate Repaired(s: State, l: NodeId, p: NodeId)
    requires l in s.procs && p in s.procs
  {
    s.procs[l].node.log <= s.procs[p].node.log
  }

  /** A leader whose peer has not seen a higher term. */
  ghost predicate Leads(c: Config, s: State, l: NodeId, p: NodeId) {
    && Has(c, s, l)
    && p in c.peers[l] && p in s.procs && p != l
    && s.procs[l].node.role == Leader
    && s.procs[p].node.term <= s.procs[l].node.term
    && p in s.procs[l].node.nextIndex
  }

  /** One exchange: success hands over the whole log, failure moves next_index back by one. */
  lemma BeatNodes(c: Config, h: History, x: Node, f: Node, l: NodeId, p: NodeId)
    requires HistoryInv(c, h) && l in c.peers && p in c.peers[l]
    requires x.role == Leader && NodeInv(c, h, l, x) && Sourced(h, f.log) && f.term <= x.term
    ensures p in x.nextIndex
    ensures var req := BuildAppend(x, l, p);
      var (f', resp) := HandleAppend(f, req);
      var x' := HeartbeatAnswer(x, p, req, resp);
      && x'.role == Leader && x'.log == x.log && x'.term == x.term && p in x'.nextIndex
      && f'.term == x.term
      && (if resp.success then x.log <= f'.log
          else x.nextIndex[p] > 1 && x'.nextIndex[p] == x.nextIndex[p] - 1)
  {
    var req := BuildAppend(x, l, p);
    BuildOk(c, h, l, x, p);
    if Consistent(f.log, req) {
      OverwriteTakesOver(c, h, f.log, req);
    }
  }

  /** One heartbeat repairs the log or moves next_index back by one; it never demotes the leader. */
  lemma OneBeat(c: Config, s: State, h: History, l: NodeId, p: NodeId) returns (h': History)
    requires Inv(c, s, h) && Leads(c, s, l, p)
    ensures var t := DoHeartbeat(c, s, l, p, true);
      && Inv(c, t, h') && Leads(c, t, l, p)
      && t.procs[l].node.log == s.procs[l].node.log
      && (Repaired(t, l, p)
          || (s.procs[l].node.nextIndex[p] > 1 && t.procs[l].node.nextIndex[p] == s.procs[l].node.nextIndex[p] - 1))
  {
    assert NodeInv(c, h, l, s.procs[l].node) && Sourced(h, s.procs[p].node.log) by {
      At(c, s, h, l);
      At(c, s, h, p);
    }
    BeatNodes(c, h, s.procs[l].node, s.procs[p].node, l, p);
    h' := StepHeartbeat(c, s, h, l, p, true);
  }

  /** One delivered heartbeat leads from t to u. */
  ghost predicate Beat(c: Config, t: State, u: State, l: NodeId, p: NodeId) {
    Has(c, t, l) && u == DoHeartbeat(c, t, l, p, true)
  }

  /** A chain of delivered heartbeats. */
  ghost predicate Chain(c: Config, ts: seq<State>, l: NodeId, p: NodeId) {
    ts != [] && forall i :: 0 <= i < |ts| - 1 ==> Beat(c, ts[i], ts[i + 1], l, p)
  }

  lemma {:induction false} ChainIsBeats(c: Config, ts: seq<State>, l: NodeId, p: NodeId, k: nat)
    requires Chain(c, ts, l, p) && k < |ts| && Has(c, ts[0], l)
    ensures ts[k] == Beats(c, ts[0], l, p, k)
  {
    if k > 0 {
      ChainIsBeats(c, ts, l, p, k - 1);
      assert Beat(c, ts[k - 1], ts[k - 1 + 1], l, p);
    }
  }

  /** The last state of the chain has the leader's log at the follower, and the leader has kept its log. */
  ghost predicate Repairs(s: State, t: State, l: NodeId, p: NodeId) {
    l in s.procs && l in t.procs && p in t.procs && t.procs[l].node.log == s.procs[l].node.log && Repaired(t, l, p)
  }

  /** In every reachable state a chain of at most next_index heartbeats repairs the follower. */
  lemma {:induction false} RepairChain(c: Config, s: State, h: History, l: NodeId, p: NodeId) returns (ts: seq<State>)
    requires Inv(c, s, h) && Leads(c, s, l, p)
    ensures |ts| >= 2 && ts[0] == s && |ts| - 1 <= s.procs[l].node.nextIndex[p]
    ensures Chain(c, ts, l, p) && Repairs(s, ts[|ts| - 1], l, p)
    decreases s.procs[l].node.nextIndex[p]
  {
    assert s.procs[l].node.nextIndex[p] >= 1 by { At(c, s, h, l); }
    var h' := OneBeat(c, s, h, l, p);
    var u := DoHeartbeat(c, s, l, p, true);
    assert Beat(c, s, u, l, p);
    if Repaired(u, l, p) {
      ts := [s, u];
    } else {
      var rest := RepairChain(c, u, h', l, p);
      ts := [s] + rest;
      forall i | 0 <= i < |ts| - 1 ensures Beat(c, ts[i], ts[i + 1], l, p) {
        if i > 0 { assert Beat(c, rest[i - 1], rest[i - 1 + 1], l, p); }
      }
    }
  }

  lemma RepairWithin(c: Config, s: State, h: History, l: NodeId, p: NodeId) returns (k: nat)
    requires Inv(c, s, h) && Leads(c, s, l, p)
    ensures 1 <= k <= s.procs[l].node.nextIndex[p] && Repairs(s, Beats(c, s, l, p, k), l, p)
  {
    var ts := RepairChain(c, s, h, l, p);
    k := |ts| - 1;
    ChainIsBeats(c, ts, l, p, k);
  }

  lemma RepairConverges(c: Config, steps: seq<Step>, l: NodeId, p: NodeId)
    requires ValidConfig(c) && l in c.peers && p in c.peers[l] && p in c.peers
    requires NodeAt(c, steps, |steps|, l).role == Leader
    requires NodeAt(c, steps, |steps|, p).term <= NodeAt(c, steps, |steps|, l).term
    ensures var s := Run(c, steps);
      && p in s.procs[l].node.nextIndex
      && 1 <= s.procs[l].node.nextIndex[p] <= |s.procs[l].node.log| + 1
      && exists k: nat ::
           && 1 <= k <= s.procs[l].node.nextIndex[p]
           && s.procs[l].node.log == Beats(c, s, l, p, k).procs[l].node.log <= Beats(c, s, l, p, k).procs[p].node.log
  {
    var s := Run(c, steps);
    assert steps[..|steps|] == steps;
    var h := RunInv(c, steps);
    At(c, s, h, l);
    var k := RepairWithin(c, s, h, l, p);
    assert Repairs(s, Beats(c, s, l, p, k), l, p);
  }
}
