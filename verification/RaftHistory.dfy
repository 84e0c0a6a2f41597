/**
 What has happened in a run: who was elected, with which log, who voted for whom, and how far each
 node has matched each leader. Nodes never read it; it is what the safety proof speaks about.
 */
module RaftHistory {
  import opened RaftTypes
  import opened RaftNodeSpec
  import opened RaftCluster

  datatype History = History(
    elected: map<nat, NodeId>,
    leaderLogs: map<nat, Log>,
    started: map<(nat, NodeId), Log>,
    ballots: map<(nat, NodeId), NodeId>,
    acked: map<(nat, NodeId), nat>)

  /** The longest log the leader of a term ever had. */
  function LeaderLog(h: History, t: nat): Log {
    if t in h.leaderLogs then h.leaderLogs[t] else []
  }

  /** The log with which a node stood for election in a term. */
  function Started(h: History, t: nat, n: NodeId): Log {
    if (t, n) in h.started then h.started[(t, n)] else []
  }

  function StartLog(h: History, t: nat): Log {
    if t in h.elected then Started(h, t, h.elected[t]) else []
  }

  predicate Balloted(h: History, t: nat, n: NodeId) {
    (t, n) in h.ballots
  }

  predicate Stood(h: History, t: nat, n: NodeId) {
    (t, n) in h.started
  }

  predicate Voted(h: History, t: nat, voter: NodeId, cand: NodeId) {
    (t, voter) in h.ballots && h.ballots[(t, voter)] == cand
  }

  /** How much of the term-t leader's log this node has held while in term t. */
  function Acked(h: History, t: nat, n: NodeId): nat {
    if (t, n) in h.acked then h.acked[(t, n)] else 0
  }

  predicate LeaderOf(h: History, t: nat, n: NodeId) {
    t in h.elected && h.elected[t] == n
  }

  ghost function Voters(c: Config, h: History, t: nat, cand: NodeId): set<NodeId> {
    set v | v in c.peers && Voted(h, t, v, cand)
  }

  ghost function Ackers(c: Config, h: History, t: nat, k: nat): set<NodeId> {
    set n | n in c.peers && Acked(h, t, n) >= k
  }

  /** How many of the listed nodes voted for cand in term t. */
  function CountVoted(h: History, t: nat, cand: NodeId, ps: seq<NodeId>): nat {
    if ps == [] then 0
    else CountVoted(h, t, cand, ps[..|ps| - 1]) + if Voted(h, t, ps[|ps| - 1], cand) then 1 else 0
  }

  /** How many of the listed nodes have matched k entries of leader t. */
  function CountAcked(h: History, t: nat, k: nat, ps: seq<NodeId>): nat {
    if ps == [] then 0
    else CountAcked(h, t, k, ps[..|ps| - 1]) + if Acked(h, t, ps[|ps| - 1]) >= k then 1 else 0
  }

  /** Index k of the term-t leader holds an entry of term t. */
  predicate Point(h: History, t: nat, k: nat) {
    t in h.elected && 1 <= k <= |LeaderLog(h, t)| && LeaderLog(h, t)[k - 1].term == t
  }

  function Pref(h: History, t: nat, k: nat): Log
    requires k <= |LeaderLog(h, t)|
  {
    LeaderLog(h, t)[..k]
  }

  /** Some leader of a term after t and before hi was elected without the first k entries of leader t. */
  ghost predicate Skipped(h: History, t: nat, k: nat, hi: nat)
    requires k <= |LeaderLog(h, t)|
  {
    exists u :: t < u < hi && LacksAt(h, t, k, u)
  }

  predicate LacksAt(h: History, t: nat, k: nat, u: nat)
    requires k <= |LeaderLog(h, t)|
  {
    u in h.elected && !(Pref(h, t, k) <= StartLog(h, u))
  }

  ghost predicate CommittedIn(c: Config, h: History, t: nat, k: nat) {
    Point(h, t, k) && |Ackers(c, h, t, k)| >= CommitQuorum(Total(c))
  }

  /** s is covered by a commit of a term up to t. */
  ghost predicate Covered(c: Config, h: History, s: Log, t: nat) {
    s == [] || exists u, k :: CoveredBy(c, h, s, t, u, k)
  }

  ghost predicate CoveredBy(c: Config, h: History, s: Log, t: nat, u: nat, k: nat) {
    u <= t && CommittedIn(c, h, u, k) && s <= Pref(h, u, k)
  }

  // ---- invariants of the history ----

  /** Every entry of the log was put there by the leader of its term, on top of that leader's log. */
  ghost predicate Sourced(h: History, log: Log) {
    forall i {:trigger SourcedAt(h, log, i)} :: 0 <= i < |log| ==> SourcedAt(h, log, i)
  }

  predicate SourcedAt(h: History, log: Log, i: nat)
    requires i < |log|
  {
    log[i].term in h.elected && log[..i + 1] <= LeaderLog(h, log[i].term)
  }

  ghost predicate TermsAtMost(log: Log, t: int) {
    forall i :: 0 <= i < |log| ==> log[i].term <= t
  }

  ghost predicate LeaderLogInv(c: Config, h: History, t: nat) {
    && t > 0
    && t in h.elected
    && h.elected[t] in c.peers
    && StartLog(h, t) <= LeaderLog(h, t)
    && TermsAtMost(StartLog(h, t), t - 1)
    && (forall i :: |StartLog(h, t)| <= i < |LeaderLog(h, t)| ==> LeaderLog(h, t)[i].term == t)
    && Sourced(h, LeaderLog(h, t))
    && |Voters(c, h, t, h.elected[t])| >= Majority(Total(c))
  }

  /** A ballot vouches for everything the voter had matched, unless an earlier leader skipped it. */
  ghost predicate BallotInv(h: History, t: nat, v: NodeId, cand: NodeId) {
    Voted(h, t, v, cand) ==>
      Stood(h, t, cand) && ((t in h.elected ==> h.elected[t] == cand) ==> Vouched(h, t, v, cand))
  }

  ghost predicate Vouched(h: History, t: nat, v: NodeId, cand: NodeId) {
    forall u: nat, k: nat {:trigger Vouches(h, u, k, v, Started(h, t, cand), t)} ::
      u < t ==> Vouches(h, u, k, v, Started(h, t, cand), t)
  }

  /** If node n matched the first k entries of leader u, then `log` has them or a leader before hi skipped them. */
  ghost predicate Vouches(h: History, u: nat, k: nat, n: NodeId, log: Log, hi: nat) {
    Point(h, u, k) && k <= Acked(h, u, n) ==> Pref(h, u, k) <= log || Skipped(h, u, k, hi)
  }

  ghost predicate HistoryInv(c: Config, h: History) {
    && h.elected.Keys == h.leaderLogs.Keys
    && (forall t {:trigger LeaderLogInv(c, h, t)} :: t in h.elected ==> LeaderLogInv(c, h, t))
    && (forall t, n :: Acked(h, t, n) <= |LeaderLog(h, t)|)
    && (forall t: nat, v, cand :: BallotInv(h, t, v, cand))
  }

  // ---- consequences ----

  lemma CommonElement<T>(a: set<T>, b: set<T>, all: set<T>) returns (x: T)
    requires a <= all && b <= all && |a| + |b| > |all|
    ensures x in a && x in b
  {
    if a * b == {} {
      assert |a + b| == |a| + |b|;
      SubsetSize(a + b, all);
      assert false;
    }
    x :| x in a * b;
  }

  /**
   Leader completeness: what a commit quorum matched under leader t was in the log of every later
   leader when it was elected. Holds for every cluster size, since a commit quorum of total - total/2
   nodes and a vote quorum of total/2 + 1 always share a node.
   */
  lemma {:induction false} LeaderCompleteness(c: Config, h: History, t: nat, k: nat, u: nat)
    requires ValidConfig(c) && HistoryInv(c, h)
    requires CommittedIn(c, h, t, k)
    requires t < u && u in h.elected
    ensures Pref(h, t, k) <= StartLog(h, u)
    decreases u
  {
    assert LeaderLogInv(c, h, u);
    var v := CommonElement(Ackers(c, h, t, k), Voters(c, h, u, h.elected[u]), c.peers.Keys);
    assert Voted(h, u, v, h.elected[u]);
    assert BallotInv(h, u, v, h.elected[u]);
    assert Vouches(h, t, k, v, StartLog(h, u), u);
    if Skipped(h, t, k, u) {
      var w :| t < w < u && LacksAt(h, t, k, w);
      LeaderCompleteness(c, h, t, k, w);
      assert false;
    }
  }

  /** Two covered logs are prefixes of one another. */
  lemma CoveredComparable(c: Config, h: History, a: Log, b: Log, t: nat, u: nat)
    requires ValidConfig(c) && HistoryInv(c, h)
    requires Covered(c, h, a, t) && Covered(c, h, b, u)
    ensures a <= b || b <= a
  {
    if a != [] && b != [] {
      var t0, k :| CoveredBy(c, h, a, t, t0, k);
      var u0, l :| CoveredBy(c, h, b, u, u0, l);
      var top := if t0 <= u0 then u0 else t0;
      CoveredByLeader(c, h, a, t0, k, top);
      CoveredByLeader(c, h, b, u0, l, top);
    }
  }

  lemma CoveredByLeader(c: Config, h: History, s: Log, t: nat, k: nat, u: nat)
    requires ValidConfig(c) && HistoryInv(c, h)
    requires CommittedIn(c, h, t, k) && s <= Pref(h, t, k)
    requires t <= u && u in h.elected
    ensures s <= LeaderLog(h, u)
  {
    assert LeaderLogInv(c, h, u);
    if t < u {
      LeaderCompleteness(c, h, t, k, u);
    }
  }

  /** Two sourced logs with the same term at the same index agree up to it. */
  lemma SourcedMatch(h: History, a: Log, b: Log, i: nat)
    requires Sourced(h, a) && Sourced(h, b)
    requires i < |a| && i < |b| && a[i].term == b[i].term
    ensures a[..i + 1] == b[..i + 1]
  {
    var l := LeaderLog(h, a[i].term);
    assert SourcedAt(h, a, i) && SourcedAt(h, b, i);
    assert a[..i + 1] <= l && b[..i + 1] <= l;
    assert a[..i + 1] == l[..i + 1] == b[..i + 1];
  }

  /** Terms never fall along a sourced log. */
  lemma TermsRise(c: Config, h: History, log: Log, i: nat, j: nat)
    requires HistoryInv(c, h) && Sourced(h, log)
    requires i <= j < |log|
    ensures log[i].term <= log[j].term
  {
    var t := log[j].term;
    assert SourcedAt(h, log, j);
    assert LeaderLogInv(c, h, t);
    assert log[i] == log[..j + 1][i] == LeaderLog(h, t)[i];
    if i < |StartLog(h, t)| {
      assert StartLog(h, t)[i] == LeaderLog(h, t)[i];
    }
  }

  // ---- histories only grow ----

  ghost predicate Grows(h: History, h': History) {
    && (forall t :: t in h.elected ==> t in h'.elected && h'.elected[t] == h.elected[t])
    && (forall t :: LeaderLog(h, t) <= LeaderLog(h', t))
    && (forall t, n :: Stood(h, t, n) ==> Stood(h', t, n) && Started(h', t, n) == Started(h, t, n))
    && (forall t, v, cand :: Voted(h, t, v, cand) ==> Voted(h', t, v, cand))
    && (forall t, n :: Acked(h, t, n) <= Acked(h', t, n))
    && (forall t :: t in h.elected ==> Stood(h, t, h.elected[t]))
  }

  lemma GrowsCommitted(c: Config, h: History, h': History, t: nat, k: nat)
    requires Grows(h, h') && CommittedIn(c, h, t, k)
    ensures CommittedIn(c, h', t, k) && Pref(h', t, k) == Pref(h, t, k)
  {
    assert LeaderLog(h, t) <= LeaderLog(h', t);
    assert LeaderLog(h', t)[k - 1] == LeaderLog(h, t)[k - 1];
    SubsetSize(Ackers(c, h, t, k), Ackers(c, h', t, k));
  }

  lemma GrowsCovered(c: Config, h: History, h': History, s: Log, t: nat, t': nat)
    requires Grows(h, h') && Covered(c, h, s, t) && t <= t'
    ensures Covered(c, h', s, t')
  {
    if s != [] {
      var u, k :| CoveredBy(c, h, s, t, u, k);
      GrowsCommitted(c, h, h', u, k);
      assert CoveredBy(c, h', s, t', u, k);
    }
  }

  lemma GrowsSourced(h: History, h': History, log: Log)
    requires Grows(h, h') && Sourced(h, log)
    ensures Sourced(h', log)
  {
    forall i | 0 <= i < |log| ensures SourcedAt(h', log, i) {
      assert SourcedAt(h, log, i);
      assert LeaderLog(h, log[i].term) <= LeaderLog(h', log[i].term);
    }
  }

  lemma GrowsSkipped(h: History, h': History, t: nat, k: nat, hi: nat, hi': nat)
    requires Grows(h, h') && k <= |LeaderLog(h, t)| && hi <= hi'
    requires Skipped(h, t, k, hi)
    ensures k <= |LeaderLog(h', t)| && Pref(h', t, k) == Pref(h, t, k) && Skipped(h', t, k, hi')
  {
    assert LeaderLog(h, t) <= LeaderLog(h', t);
    var u :| t < u < hi && LacksAt(h, t, k, u);
    assert StartLog(h', u) == StartLog(h, u);
    assert LacksAt(h', t, k, u);
  }

  lemma {:induction false} GrowsCounts(h: History, h': History, t: nat, cand: NodeId, k: nat, ps: seq<NodeId>)
    requires Grows(h, h')
    ensures CountVoted(h, t, cand, ps) <= CountVoted(h', t, cand, ps)
    ensures CountAcked(h, t, k, ps) <= CountAcked(h', t, k, ps)
  {
    if ps != [] {
      GrowsCounts(h, h', t, cand, k, ps[..|ps| - 1]);
      assert Acked(h, t, ps[|ps| - 1]) <= Acked(h', t, ps[|ps| - 1]);
    }
  }

  lemma CountNext(h: History, t: nat, cand: NodeId, k: nat, ps: seq<NodeId>, i: nat)
    requires i < |ps|
    ensures CountVoted(h, t, cand, ps[..i + 1]) == CountVoted(h, t, cand, ps[..i]) + if Voted(h, t, ps[i], cand) then 1 else 0
    ensures CountAcked(h, t, k, ps[..i + 1]) == CountAcked(h, t, k, ps[..i]) + if Acked(h, t, ps[i]) >= k then 1 else 0
  {
    assert ps[..i + 1][..i] == ps[..i];
  }

  /** Longer lists count at least as many. */
  lemma {:induction false} CountPrefix(h: History, t: nat, cand: NodeId, k: nat, ps: seq<NodeId>, i: nat)
    requires i <= |ps|
    ensures CountVoted(h, t, cand, ps[..i]) <= CountVoted(h, t, cand, ps)
    ensures CountAcked(h, t, k, ps[..i]) <= CountAcked(h, t, k, ps)
  {
    if i == |ps| {
      assert ps[..i] == ps;
    } else {
      var front := ps[..|ps| - 1];
      CountPrefix(h, t, cand, k, front, i);
      assert front[..i] == ps[..i];
    }
  }

  /** Distinct listed voters are that many voters. */
  lemma {:induction false} CountVoters(c: Config, h: History, t: nat, cand: NodeId, ps: seq<NodeId>)
    requires Distinct(ps) && forall p :: p in ps ==> p in c.peers
    ensures CountVoted(h, t, cand, ps) <= |set v | v in ps && Voted(h, t, v, cand)|
  {
    if ps != [] {
      var front, p := ps[..|ps| - 1], ps[|ps| - 1];
      CountVoters(c, h, t, cand, front);
      var a := set v | v in front && Voted(h, t, v, cand);
      var b := set v | v in ps && Voted(h, t, v, cand);
      if Voted(h, t, p, cand) {
        SubsetSize(a + {p}, b);
      } else {
        SubsetSize(a, b);
      }
    }
  }

  lemma {:induction false} CountAckers(c: Config, h: History, t: nat, k: nat, ps: seq<NodeId>)
    requires Distinct(ps) && forall p :: p in ps ==> p in c.peers
    ensures CountAcked(h, t, k, ps) <= |set v | v in ps && Acked(h, t, v) >= k|
  {
    if ps != [] {
      var front, p := ps[..|ps| - 1], ps[|ps| - 1];
      CountAckers(c, h, t, k, front);
      var a := set v | v in front && Acked(h, t, v) >= k;
      var b := set v | v in ps && Acked(h, t, v) >= k;
      if Acked(h, t, p) >= k {
        SubsetSize(a + {p}, b);
      } else {
        SubsetSize(a, b);
      }
    }
  }

  /** A node's own vote and those of its peers are all the voters it needs. */
  lemma VotersOf(c: Config, h: History, t: nat, n: NodeId)
    requires ValidConfig(c) && n in c.peers && Voted(h, t, n, n)
    ensures 1 + CountVoted(h, t, n, c.peers[n]) <= |Voters(c, h, t, n)|
  {
    CountVoters(c, h, t, n, c.peers[n]);
    var a := set v | v in c.peers[n] && Voted(h, t, v, n);
    SubsetSize(a + {n}, Voters(c, h, t, n));
  }

  lemma AckersOf(c: Config, h: History, t: nat, n: NodeId, k: nat)
    requires ValidConfig(c) && n in c.peers && Acked(h, t, n) >= k
    ensures 1 + CountAcked(h, t, k, c.peers[n]) <= |Ackers(c, h, t, k)|
  {
    CountAckers(c, h, t, k, c.peers[n]);
    var a := set v | v in c.peers[n] && Acked(h, t, v) >= k;
    SubsetSize(a + {n}, Ackers(c, h, t, k));
  }
}
