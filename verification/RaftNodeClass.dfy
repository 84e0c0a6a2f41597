/** The node as the program keeps it: fields changed in place by handlers and loop bodies (src/raft.cpp). */
module RaftNodeClass {
  import opened Options
  import opened RaftTypes
  import opened RaftNodeSpec
  import opened RaftCluster

  // ---- the sorted vector of match values ----

  predicate Ascending(s: seq<nat>) {
    forall i, j :: 0 <= i < j < |s| ==> s[i] <= s[j]
  }

  /** How many values are at least i. */
  function CountAtLeast(s: seq<nat>, i: nat): nat {
    if s == [] then 0 else CountAtLeast(s[..|s| - 1], i) + if s[|s| - 1] >= i then 1 else 0
  }

  /** Where x belongs in an ascending sequence. */
  method InsertValue(s: seq<nat>, x: nat) returns (r: seq<nat>)
    requires Ascending(s)
    ensures Ascending(r) && multiset(r) == multiset(s) + multiset{x} && |r| == |s| + 1
  {
    var k := |s|;
    while k > 0 && s[k - 1] > x
      invariant 0 <= k <= |s|
      invariant forall j :: k <= j < |s| ==> s[j] > x
    {
      k := k - 1;
    }
    r := s[..k] + [x] + s[k..];
    InsertedAt(s, k, x);
  }

  lemma InsertedAt(s: seq<nat>, k: nat, x: nat)
    requires Ascending(s) && k <= |s|
    requires k > 0 ==> s[k - 1] <= x
    requires forall j :: k <= j < |s| ==> s[j] > x
    ensures Ascending(s[..k] + [x] + s[k..])
    ensures multiset(s[..k] + [x] + s[k..]) == multiset(s) + multiset{x}
  {
    JoinAscending(s[..k], [x]);
    JoinAscending(s[..k] + [x], s[k..]);
    InsertedOnce(s, k, x);
  }

  lemma InsertedOnce(s: seq<nat>, k: nat, x: nat)
    requires k <= |s|
    ensures multiset(s[..k] + [x] + s[k..]) == multiset(s) + multiset{x}
  {
    assert s == s[..k] + s[k..];
  }

  lemma JoinAscending(a: seq<nat>, b: seq<nat>)
    requires Ascending(a) && Ascending(b)
    requires a != [] && b != [] ==> a[|a| - 1] <= b[0]
    ensures Ascending(a + b)
  {
    forall i, j | 0 <= i < j < |a + b| ensures (a + b)[i] <= (a + b)[j] {
      if i < |a| <= j {
        assert a[i] <= a[|a| - 1] <= b[0] <= b[j - |a|];
      }
    }
  }

  method SortValues(s: seq<nat>) returns (r: seq<nat>)
    ensures Ascending(r) && multiset(r) == multiset(s) && |r| == |s|
  {
    r := [];
    for i := 0 to |s|
      invariant Ascending(r) && multiset(r) == multiset(s[..i]) && |r| == i
    {
      r := InsertValue(r, s[i]);
      assert s[..i + 1] == s[..i] + [s[i]];
    }
    assert s[..|s|] == s;
  }

  lemma {:induction false} CountAppend(a: seq<nat>, b: seq<nat>, i: nat)
    ensures CountAtLeast(a + b, i) == CountAtLeast(a, i) + CountAtLeast(b, i)
  {
    if b == [] {
      assert a + b == a;
    } else {
      assert (a + b)[..|a + b| - 1] == a + b[..|b| - 1];
      CountAppend(a, b[..|b| - 1], i);
    }
  }

  /** Counting does not depend on the order. */
  lemma {:induction false} CountPermutation(a: seq<nat>, b: seq<nat>, i: nat)
    requires multiset(a) == multiset(b)
    ensures CountAtLeast(a, i) == CountAtLeast(b, i)
    decreases |a|
  {
    if a == [] {
      assert |multiset(b)| == 0;
    } else {
      var x := a[|a| - 1];
      assert a == a[..|a| - 1] + [x];
      assert x in multiset(b);
      var k :| 0 <= k < |b| && b[k] == x;
      var rest := b[..k] + b[k + 1..];
      assert b == b[..k] + [x] + b[k + 1..];
      assert multiset(rest) == multiset(b) - multiset{x};
      CountPermutation(a[..|a| - 1], rest, i);
      CountAppend(b[..k], b[k + 1..], i);
      CountAppend(b[..k] + [x], b[k + 1..], i);
      CountAppend(b[..k], [x], i);
      CountAppend(a[..|a| - 1], [x], i);
    }
  }

  /** In an ascending sequence the value at position m is reached from m on, and a larger one only later. */
  lemma {:induction false} CountAscending(s: seq<nat>, m: nat, i: nat)
    requires Ascending(s) && m < |s|
    ensures i <= s[m] ==> CountAtLeast(s, i) >= |s| - m
    ensures i > s[m] ==> CountAtLeast(s, i) <= |s| - m - 1
  {
    var low, high := s[..m + 1], s[m + 1..];
    assert s == low + high;
    CountAppend(low, high, i);
    CountBounds(high, i);
    if i <= s[m] {
      assert high == [] || i <= s[|s| - 1];
      forall j | 0 <= j < |high| ensures high[j] >= i {
        assert high[j] == s[m + 1 + j];
      }
      CountAll(high, i);
      assert low[|low| - 1] == s[m];
    } else {
      forall j | 0 <= j < |low| ensures low[j] < i {
        assert low[j] == s[j];
      }
      CountNone(low, i);
    }
  }

  lemma {:induction false} CountBounds(s: seq<nat>, i: nat)
    ensures CountAtLeast(s, i) <= |s|
  {
    if s != [] { CountBounds(s[..|s| - 1], i); }
  }

  lemma {:induction false} CountAll(s: seq<nat>, i: nat)
    requires forall j :: 0 <= j < |s| ==> s[j] >= i
    ensures CountAtLeast(s, i) == |s|
  {
    if s != [] { CountAll(s[..|s| - 1], i); }
  }

  lemma {:induction false} CountNone(s: seq<nat>, i: nat)
    requires forall j :: 0 <= j < |s| ==> s[j] < i
    ensures CountAtLeast(s, i) == 0
  {
    if s != [] { CountNone(s[..|s| - 1], i); }
  }

  /** The entry at position size / 2 of the sorted match values is the largest index a commit quorum has reached. */
  lemma MedianIsQuorumIndex(last: nat, matched: map<NodeId, nat>, values: seq<nat>, sorted: seq<nat>)
    requires |values| == |matched| + 1
    requires forall i: nat :: CountAtLeast(values, i) == Reached(last, matched, i)
    requires Ascending(sorted) && multiset(sorted) == multiset(values) && |sorted| == |values|
    ensures sorted[|sorted| / 2] == QuorumIndex(last, matched)
  {
    var m := |sorted| / 2;
    forall i: nat ensures Reached(last, matched, i) == CountAtLeast(sorted, i) {
      CountPermutation(sorted, values, i);
    }
    CountAscending(sorted, m, sorted[m]);
    forall i | i > sorted[m] ensures Reached(last, matched, i) < CommitQuorum(|matched| + 1) {
      CountAscending(sorted, m, i);
    }
    UniqueQuorumIndex(last, matched, sorted[m], QuorumIndex(last, matched));
  }

  /** For an odd number of nodes the quorum index is the largest index that a strict majority has reached. */
  lemma OddQuorumIsMajority(last: nat, matched: map<NodeId, nat>)
    requires (|matched| + 1) % 2 == 1
    ensures var q := QuorumIndex(last, matched);
      && Reached(last, matched, q) >= Majority(|matched| + 1)
      && forall i :: i > q ==> Reached(last, matched, i) < Majority(|matched| + 1)
  {
  }

  /** The numbers from 1 to n. */
  function Span(n: nat): set<NodeId> {
    if n == 0 then {} else Span(n - 1) + {n}
  }

  lemma {:induction false} SpanMembers(n: nat)
    ensures |Span(n)| == n && forall p :: p in Span(n) <==> 1 <= p <= n
  {
    if n > 0 { SpanMembers(n - 1); }
  }

  /** A cluster of which half - the leader and the first total / 2 - 1 peers - have index 1. */
  function HalfReached(total: nat): map<NodeId, nat>
    requires total > 0
  {
    map p | p in Span(total - 1) :: HalfIndex(total, p)
  }

  function HalfIndex(total: nat, p: NodeId): nat {
    if p < total / 2 then 1 else 0
  }

  lemma HalfReachedSize(total: nat)
    requires total > 0
    ensures |HalfReached(total)| + 1 == total
  {
    SpanMembers(total - 1);
    assert HalfReached(total).Keys == Span(total - 1);
  }

  lemma HalfReachedOne(total: nat)
    requires total > 0 && total % 2 == 0
    ensures Reached(1, HalfReached(total), 1) == total / 2
  {
    var m := HalfReached(total);
    SpanMembers(total - 1);
    SpanMembers(total / 2 - 1);
    assert (set p | p in m && m[p] >= 1) == Span(total / 2 - 1);
  }

  lemma HalfReachedMore(total: nat, i: nat)
    requires total > 0 && i > 1
    ensures Reached(1, HalfReached(total), i) == 0
  {
    var m := HalfReached(total);
    assert (set p | p in m && m[p] >= i) == {};
  }

  /** In every cluster of this size the quorum index has been reached by a strict majority. */
  ghost predicate QuorumIsMajority(total: nat) {
    forall last, matched :: |matched| + 1 == total ==> MajorityAt(last, matched)
  }

  ghost predicate MajorityAt(last: nat, matched: map<NodeId, nat>) {
    Reached(last, matched, QuorumIndex(last, matched)) >= Majority(|matched| + 1)
  }

  /** The sorted-vector rule stands for a strict majority exactly in clusters of odd size. */
  lemma QuorumIsMajorityIff(total: nat)
    requires total > 0
    ensures QuorumIsMajority(total) <==> total % 2 == 1
  {
    if total % 2 == 0 {
      var m := HalfReached(total);
      HalfReachedSize(total);
      HalfReachedOne(total);
      forall i | i > 1 ensures Reached(1, m, i) == 0 {
        HalfReachedMore(total, i);
      }
      UniqueQuorumIndex(1, m, 1, QuorumIndex(1, m));
      assert !MajorityAt(1, m);
    } else {
      forall last, matched | |matched| + 1 == total ensures MajorityAt(last, matched) {
        OddQuorumIsMajority(last, matched);
      }
    }
  }

  /** The index of the listed peers set one after another. */
  function SetEach(m: map<NodeId, nat>, ps: seq<NodeId>, v: nat): map<NodeId, nat> {
    if ps == [] then m else SetEach(m, ps[..|ps| - 1], v)[ps[|ps| - 1] := v]
  }

  lemma {:induction false} SetEachIsSetAll(m: map<NodeId, nat>, ps: seq<NodeId>, v: nat)
    ensures SetEach(m, ps, v) == SetAll(m, ps, v)
  {
    if ps != [] {
      SetEachIsSetAll(m, ps[..|ps| - 1], v);
      assert ps == ps[..|ps| - 1] + [ps[|ps| - 1]];
    }
  }

  /** The loop over the peers that resets both index maps. */
  method ResetIndices(next: map<NodeId, nat>, matched: map<NodeId, nat>, peers: seq<NodeId>, last: nat)
    returns (next': map<NodeId, nat>, matched': map<NodeId, nat>)
    ensures next' == SetAll(next, peers, last + 1) && matched' == SetAll(matched, peers, 0)
  {
    next', matched' := next, matched;
    for i := 0 to |peers|
      invariant next' == SetEach(next, peers[..i], last + 1)
      invariant matched' == SetEach(matched, peers[..i], 0)
    {
      assert peers[..i + 1][..i] == peers[..i];
      next' := next'[peers[i] := last + 1];
      matched' := matched'[peers[i] := 0];
    }
    assert peers[..|peers|] == peers;
    SetEachIsSetAll(next, peers, last + 1);
    SetEachIsSetAll(matched, peers, 0);
  }

  /** The next element in the unspecified order of an unordered_map. */
  method AnyOf(s: set<NodeId>) returns (p: NodeId)
    requires s != {}
    ensures p in s
  {
    if forall q :: q !in s { assert false; }
    p :| p in s;
  }

  class RaftNode {
    const id: NodeId
    const peers: seq<NodeId>

    var role: Role
    var currentTerm: nat
    var votedFor: Option<NodeId>
    var log: Log
    var commitIndex: nat
    var lastApplied: nat
    var nextIndex: map<NodeId, nat>
    var matchIndex: map<NodeId, nat>

    ghost function State(): Node
      reads this
    {
      Node(role, currentTerm, votedFor, log, commitIndex, lastApplied, nextIndex, matchIndex)
    }

    constructor (id: NodeId, peers: seq<NodeId>)
      ensures State() == NewNode()
      ensures this.id == id && this.peers == peers
    {
      this.id, this.peers := id, peers;
      role, currentTerm, votedFor, log := Follower, 0, None, [];
      commitIndex, lastApplied := 0, 0;
      nextIndex, matchIndex := map[], map[];
    }

    method BecomeFollowerLocked(newTerm: nat)
      modifies this
      ensures State() == BecomeFollower(old(State()), newTerm)
    {
      role := Follower;
      currentTerm := newTerm;
      votedFor := None;
    }

    method BecomeCandidateLocked()
      modifies this
      ensures State() == BecomeCandidate(old(State()), id)
    {
      role := Candidate;
      currentTerm := currentTerm + 1;
      votedFor := Some(id);
    }

    method BecomeLeaderLocked()
      modifies this
      ensures State() == BecomeLeader(old(State()), peers)
      ensures role == Leader && currentTerm == old(currentTerm) && log == old(log)
      ensures forall p :: p in peers ==> p in nextIndex && nextIndex[p] == |log| + 1 && p in matchIndex && matchIndex[p] == 0
    {
      role := Leader;
      nextIndex, matchIndex := ResetIndices(nextIndex, matchIndex, peers, |log|);
    }

    /** A vote goes to the first up-to-date candidate of a term that is not over, and to it again. */
    method OnRequestVote(req: VoteReq) returns (resp: VoteResp)
      modifies this
      ensures (State(), resp) == HandleVote(old(State()), req)
      ensures resp.granted <==>
        && req.term >= old(currentTerm)
        && (req.term > old(currentTerm) || old(votedFor) == None || old(votedFor) == Some(req.candidate))
        && (req.lastLogTerm > LastTerm(old(log)) || (req.lastLogTerm == LastTerm(old(log)) && req.lastLogIndex >= |old(log)|))
      ensures resp.granted ==> votedFor == Some(req.candidate)
      ensures resp.term == currentTerm == if req.term > old(currentTerm) then req.term else old(currentTerm)
      ensures log == old(log) && commitIndex == old(commitIndex) && lastApplied == old(lastApplied)
    {
      resp := VoteResp(currentTerm, false);
      if req.term < currentTerm { return; }
      if req.term > currentTerm {
        BecomeFollowerLocked(req.term);
      }
      resp := VoteResp(currentTerm, false);
      var canVote := votedFor == None || votedFor == Some(req.candidate);
      if canVote && UpToDate(log, req.lastLogIndex, req.lastLogTerm) {
        votedFor := Some(req.candidate);
        resp := resp.(granted := true);
      }
    }

    /** The first critical section of ProposePut. */
    method ProposePutLocked(key: string, value: string) returns (ok: bool)
      modifies this
      ensures ok == (old(role) == Leader)
      ensures State() == old(State()).(log := if ok then old(log) + [LogEntry(old(currentTerm), Put, key, value)] else old(log))
    {
      if role != Leader {
        return false;
      }
      var e := LogEntry(currentTerm, Put, key, value);
      log := log + [e];
      ok := true;
    }

    /** The first critical section of ProposeDel. */
    method ProposeDelLocked(key: string) returns (ok: bool)
      modifies this
      ensures ok == (old(role) == Leader)
      ensures State() == old(State()).(log := if ok then old(log) + [LogEntry(old(currentTerm), Del, key, "")] else old(log))
    {
      if role != Leader {
        return false;
      }
      var e := LogEntry(currentTerm, Del, key, "");
      log := log + [e];
      ok := true;
    }

    /** Whatever follows index `prev` is cut off, matching or not, and the entries are pushed. */
    method TakeEntries(prev: nat, entries: Log)
      requires prev <= |log|
      modifies this`log
      ensures log == old(log)[..prev] + entries
    {
      if prev < |log| {
        log := log[..prev];
      }
      for i := 0 to |entries|
        invariant log == old(log)[..prev] + entries[..i]
      {
        log := log + [entries[i]];
        assert entries[..i + 1] == entries[..i] + [entries[i]];
      }
      assert entries[..|entries|] == entries;
    }

    /** Entries are taken on top of a matching one; the commit index follows the leader's within the log. */
    method OnAppendEntries(req: AppendReq) returns (resp: AppendResp)
      modifies this
      ensures (State(), resp) == HandleAppend(old(State()), req)
      ensures resp.success <==>
        && req.term >= old(currentTerm) && req.prevLogIndex <= |old(log)|
        && (if req.prevLogIndex == 0 then 0 else old(log)[req.prevLogIndex - 1].term) == req.prevLogTerm
      ensures resp.success ==>
        && log == (if req.entries == [] then old(log) else old(log)[..req.prevLogIndex] + req.entries)
        && (req.leaderCommit > old(commitIndex) ==> commitIndex == Min(req.leaderCommit, |log|))
        && (req.leaderCommit <= old(commitIndex) ==> commitIndex == old(commitIndex))
      ensures !resp.success ==> log == old(log) && commitIndex == old(commitIndex)
      ensures req.term >= old(currentTerm) ==> role == Follower && currentTerm == req.term
    {
      resp := AppendResp(currentTerm, false);
      if req.term < currentTerm { return; }
      if req.term > currentTerm {
        BecomeFollowerLocked(req.term);
      } else if role != Follower {
        role := Follower;
      }
      resp := AppendResp(currentTerm, false);
      if req.prevLogIndex > |log| { return; }
      if TermAt(log, req.prevLogIndex) != req.prevLogTerm { return; }

      if req.entries != [] {
        TakeEntries(req.prevLogIndex, req.entries);
      }
      if req.leaderCommit > commitIndex {
        commitIndex := Min(req.leaderCommit, |log|);
      }
      resp := AppendResp(currentTerm, true);
    }

    method BuildAppendEntries(peer: NodeId) returns (req: AppendReq)
      ensures req == BuildAppend(State(), id, peer)
    {
      var next := 1;
      if peer in nextIndex {
        next := nextIndex[peer];
      }
      var prev := if next == 0 || next == 1 then 0 else next - 1;
      req := AppendReq(currentTerm, id, prev, TermAt(log, prev), [], commitIndex);
      if 1 <= next <= |log| {
        ghost var head := req;
        for i := next - 1 to |log|
          invariant req == head.(entries := log[next - 1..i])
        {
          req := req.(entries := req.entries + [log[i]]);
        }
      }
    }

    method AdvanceCommitIndexLocked()
      modifies this
      ensures State() == AdvanceCommit(old(State()))
    {
      var values: seq<nat> := [|log|];
      var rest := matchIndex.Keys;
      CountAppend([], [|log|], 0);
      while rest != {}
        invariant rest <= matchIndex.Keys && |values| + |rest| == |matchIndex| + 1
        invariant State() == old(State())
        invariant forall i: nat :: CountAtLeast(values, i) == ReachedOutside(rest, i)
        decreases |rest|
      {
        var p := AnyOf(rest);
        ghost var before, was := rest, values;
        rest := rest - {p};
        values := values + [matchIndex[p]];
        forall i: nat ensures CountAtLeast(values, i) == ReachedOutside(rest, i) {
          CountAppend(was, [matchIndex[p]], i);
          OneMoreReached(before, p, i);
        }
      }
      var sorted := SortValues(values);
      forall i: nat ensures CountAtLeast(values, i) == Reached(|log|, matchIndex, i) {
        assert (set p | p in matchIndex && p !in rest && matchIndex[p] >= i) == set p | p in matchIndex && matchIndex[p] >= i;
      }
      MedianIsQuorumIndex(|log|, matchIndex, values, sorted);
      var n := sorted[|sorted| / 2];
      if n > commitIndex && TermAt(log, n) == currentTerm {
        commitIndex := n;
      }
    }

    /** How many of the leader and the peers outside `rest` hold index i. */
    ghost function ReachedOutside(rest: set<NodeId>, i: nat): nat
      reads this
    {
      |set p | p in matchIndex && p !in rest && matchIndex[p] >= i| + if |log| >= i then 1 else 0
    }

    lemma OneMoreReached(rest: set<NodeId>, p: NodeId, i: nat)
      requires p in rest && p in matchIndex
      ensures ReachedOutside(rest - {p}, i) == ReachedOutside(rest, i) + if matchIndex[p] >= i then 1 else 0
    {
      var a := set q | q in matchIndex && q !in rest && matchIndex[q] >= i;
      var b := set q | q in matchIndex && q !in rest - {p} && matchIndex[q] >= i;
      assert b == if matchIndex[p] >= i then a + {p} else a;
    }

    /** The part of the heartbeat loop that runs once the answer of a peer is in. */
    method OnHeartbeatAnswer(peer: NodeId, req: AppendReq, resp: AppendResp)
      modifies this
      ensures State() == HeartbeatAnswer(old(State()), peer, req, resp)
    {
      if resp.term > currentTerm {
        BecomeFollowerLocked(resp.term);
        return;
      }
      if resp.success {
        if req.entries != [] {
          var sentLast := req.prevLogIndex + |req.entries|;
          matchIndex := matchIndex[peer := sentLast];
          nextIndex := nextIndex[peer := sentLast + 1];
        }
        AdvanceCommitIndexLocked();
      } else if peer in nextIndex && nextIndex[peer] > 1 {
        nextIndex := nextIndex[peer := nextIndex[peer] - 1];
      }
    }

    /** One round of the apply loop; the caller passes the entry to the state machine. */
    method TakeNextToApply() returns (entry: Option<LogEntry>)
      requires commitIndex <= |log|
      modifies this
      ensures State() == old(State()).(lastApplied := old(lastApplied) + if entry.Some? then 1 else 0)
      ensures entry.Some? <==> old(lastApplied < commitIndex)
      ensures entry.Some? ==> entry.value == old(log)[old(lastApplied)]
    {
      entry := None;
      if lastApplied < commitIndex {
        entry := Some(log[lastApplied]);
        lastApplied := lastApplied + 1;
      }
    }
  }
}
