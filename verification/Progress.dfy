/** Finality can always grow: from every reachable state of two or more nodes there is a continuation, by meetings
    alone, that makes any number of frames final on every node whose numbers are exact. */
module Progress {
  import opened Events
  import opened Peers
  import opened Dag
  import opened Cores
  import opened Refinement
  import opened Cluster
  import opened Runs
  import opened Schedules
  import opened Histories
  import opened Meetings

  // The ring

  ghost predicate StandsAt(s: PeersState, ring: seq<PeerId>, k: PeerId) {
    && |s.peers| == s.n == |ring| && (forall p :: 0 <= p < |ring| ==> s.peers[p].id == ring[p])
    && s.current < |ring| && ring[s.current] == k
  }

  // The peers in the order in which every node lists them.
  ghost predicate RingTrue(c: Cluster, ring: seq<PeerId>, peers: set<PeerId>) {
    && (forall p, q :: 0 <= p < q < |ring| ==> ring[p] != ring[q])
    && |ring| == |peers| && (forall p :: 0 <= p < |ring| ==> ring[p] in peers)
    && forall k {:trigger Stands(c, ring, k)} :: k in peers ==> Stands(c, ring, k)
  }

  ghost predicate Stands(c: Cluster, ring: seq<PeerId>, k: PeerId) {
    k in c.nodes && StandsAt(c.nodes[k].peers, ring, k)
  }

  lemma RingOfLists(lists: map<PeerId, PeersState>, peers: set<PeerId>, k: PeerId) returns (ring: seq<PeerId>)
    requires AreLists(lists, peers) && k in peers
    ensures (forall p, q :: 0 <= p < q < |ring| ==> ring[p] != ring[q])
    ensures |ring| == |peers| && forall p :: 0 <= p < |ring| ==> ring[p] in peers
    ensures forall q :: q in peers ==> StandsAt(lists[q], ring, q)
  {
    assert lists.Keys == peers;
    hide AreLists, IsListOf, StandsAt;
    ListOf(lists, peers, k);
    ring := NamesOf(lists[k], k, peers);
    forall q | q in peers ensures StandsAt(lists[q], ring, q) {
      ListOf(lists, peers, q);
      StandsLike(lists[k], lists[q], ring, k, q, peers);
    }
  }

  lemma NamesOf(s: PeersState, k: PeerId, peers: set<PeerId>) returns (ring: seq<PeerId>)
    requires IsListOf(s, k, peers) && s.n == |peers|
    ensures (forall p, q :: 0 <= p < q < |ring| ==> ring[p] != ring[q])
    ensures |ring| == |peers| == |s.peers|
    ensures forall p :: 0 <= p < |ring| ==> ring[p] == s.peers[p].id && ring[p] in peers
  {
    ring := seq(|s.peers|, p requires 0 <= p < |s.peers| => s.peers[p].id);
    forall p | 0 <= p < |ring| ensures ring[p] in peers {
      assert s.peers[p] in s.peers;
    }
  }

  lemma StandsLike(s: PeersState, t: PeersState, ring: seq<PeerId>, k: PeerId, q: PeerId, peers: set<PeerId>)
    requires IsListOf(s, k, peers) && IsListOf(t, q, peers)
    requires |ring| == |s.peers| && forall p :: 0 <= p < |ring| ==> ring[p] == s.peers[p].id
    ensures StandsAt(t, ring, q)
  {
    NameOrderIsUnique(s.peers, t.peers);
  }

  lemma RingExists(h: History) returns (ring: seq<PeerId>)
    requires h.Valid()
    ensures RingTrue(h.run[0], ring, h.peers)
  {
    hide Initial, Enabled, Next, AreLists, StandsAt;
    InitialLists(h.run[0], h.lists, h.peers);
    var k :| k in h.peers;
    ring := RingOfLists(ListsAt(h.run[0], h.peers), h.peers, k);
    forall q | q in h.peers ensures Stands(h.run[0], ring, q) {
      assert ListsAt(h.run[0], h.peers)[q] == h.run[0].nodes[q].peers;
    }
  }

  lemma RingStays(h: History, ring: seq<PeerId>)
    requires h.Valid() && RingTrue(h.run[0], ring, h.peers)
    ensures RingTrue(h.Last(), ring, h.peers)
  {
    hide IsRun, AfterCalls, RequestsOf;
    forall k | k in h.peers ensures Stands(h.Last(), ring, k) {
      ScheduleOfRun(h.run, h.steps, h.lists, h.peers, h.digest, |h.steps|, k);
      CallsKeepPeers(h.run[0].nodes[k].peers, RequestsOf(h.steps[..|h.steps|], k));
      assert Stands(h.run[0], ring, k);
    }
  }

  // A history whose nodes are between rounds, with its tips and ring.
  ghost predicate Ready(h: History, tips: Tips, ring: seq<PeerId>) {
    && h.Valid() && Settled(h.Last()) && AreTips(h.Last(), tips, h.peers) && RingTrue(h.run[0], ring, h.peers)
  }

  // A continuation that leaves it ready and pays what is due.
  ghost predicate Proceeds(h: History, h': History, tips': Tips, ring: seq<PeerId>) {
    && Continues(h, h') && Ready(h', tips', ring)
    && (Paid(h.Last(), h.pay, h.base, |h.peers|) ==> Paid(h'.Last(), h.pay, h.base, |h.peers|))
  }

  lemma ProceedOn(h: History, h': History, h'': History, tips: Tips, tips': Tips, ring: seq<PeerId>)
    requires Proceeds(h, h', tips, ring) && Proceeds(h', h'', tips', ring)
    ensures Proceeds(h, h'', tips', ring)
  {
    hide Ready, Paid;
    GoOn(h, h', h'');
  }

  ghost predicate Sees(a: EventHash, b: EventHash) { b in Ancestors(a) }

  lemma SeesOn(a: EventHash, b: EventHash, d: EventHash)
    requires Sees(a, b) && Sees(b, d)
    ensures Sees(a, d)
  {
    AncestorsTransitive(a, b);
  }

  lemma SeesItself(a: EventHash)
    requires a.HashOf?
    ensures Sees(a, a)
  {
  }

  // One meeting

  ghost function Succ(ring: seq<PeerId>, p: nat): PeerId
    requires p < |ring|
  {
    ring[if p + 1 == |ring| then 0 else p + 1]
  }

  // The offset of node `b` in its schedule.
  ghost function OffsetOf(h: History, b: PeerId): nat {
    if |h.run| == |h.steps| + 1 && b in h.Last().nodes then h.Last().nodes[b].peers.r else 0
  }

  // A meeting of `b`, at position `p`, with `j`: the event `x` is on both tips.
  ghost predicate MetOn(h: History, h': History, tips: Tips, ring: seq<PeerId>, b: PeerId, x: EventHash, j: PeerId) {
    && b in tips && j in tips && Proceeds(h, h', tips[b := x], ring)
    && IsInner(x) && SelfParent(x) == tips[b] && OtherParent(x) == tips[j]
  }

  lemma MeetOnce(h: History, tips: Tips, ring: seq<PeerId>, p: nat, b: PeerId)
    returns (h': History, x: EventHash, j: PeerId)
    requires Ready(h, tips, ring) && p < |ring| && b == ring[p]
    ensures MetOn(h, h', tips, ring, b, x, j)
    ensures 1 <= OffsetOf(h, b) && OffsetOf(h', b) == if OffsetOf(h, b) > 1 then OffsetOf(h, b) / 2 else |ring| / 2
    ensures OffsetOf(h, b) == 1 ==> j == Succ(ring, p)
  {
    hide IsRun, ClusterSound, Paid, AreTips, Enabled, ContactOf, SameSchedule;
    h', x, j := Meet(h, tips, b);
    LastIsSound(h);
    RingStays(h, ring);
    NodePeers(h.Last(), b, h.peers);
    ContactOnRing(h.Last(), ring, h.peers, p);
    OffsetMoves(h'.Last().nodes[b].peers, h.Last().nodes[b].peers);
    assert h'.run[0] == h'.run[..|h.run|][0];
    TipsAreKnown(h.Last(), tips, h.peers, b);
  }

  lemma OffsetMoves(s': PeersState, s: PeersState)
    requires SameSchedule(s', s.Advanced())
    ensures s'.r == if s.r > 1 then s.r / 2 else s.n / 2
  {
  }

  lemma ContactOnRing(c: Cluster, ring: seq<PeerId>, peers: set<PeerId>, p: nat)
    requires RingTrue(c, ring, peers) && p < |ring| && Enabled(c, Request(ring[p]))
    ensures c.nodes[ring[p]].peers.n == |ring|
    ensures c.nodes[ring[p]].peers.r == 1 ==> ContactOf(c, ring[p]) == Succ(ring, p)
  {
    var s := c.nodes[ring[p]].peers;
    assert Stands(c, ring, ring[p]);
    assert s.current == p;
    RingStep(p, |ring|);
  }

  // Meetings up to and with the one with the ring successor.
  lemma {:induction false} MeetSuccessor(h: History, tips: Tips, ring: seq<PeerId>, p: nat, b: PeerId)
    returns (h': History, x: EventHash)
    requires Ready(h, tips, ring) && p < |ring| && b == ring[p]
    ensures Proceeds(h, h', tips[b := x], ring)
    ensures b in tips && Succ(ring, p) in tips && Sees(x, tips[b]) && Sees(x, tips[Succ(ring, p)])
    decreases OffsetOf(h, b)
  {
    hide Proceeds, Ready, OffsetOf, Sees, IsInner;
    var j;
    h', x, j := MeetOnce(h, tips, ring, p, b);
    ReadyRing(h, tips, ring);
    SeesParents(x, tips[b], tips[j]);
    if OffsetOf(h, b) == 1 {
    } else {
      ProceedsIsReady(h, h', tips[b := x], ring);
      var h'', y := MeetSuccessor(h', tips[b := x], ring, p, b);
      assert tips[b := x][b := y] == tips[b := y];
      ProceedOn(h, h', h'', tips[b := x], tips[b := y], ring);
      SeesOn(y, x, tips[b]);
      assert Succ(ring, p) != b;
      h', x := h'', y;
    }
  }

  lemma ReadyRing(h: History, tips: Tips, ring: seq<PeerId>)
    requires Ready(h, tips, ring)
    ensures |ring| >= 2 && |ring| == |h.peers| && tips.Keys == h.peers
    ensures (forall p :: 0 <= p < |ring| ==> ring[p] in tips && ring[p] in h.Last().nodes)
    ensures forall p, q :: 0 <= p < q < |ring| ==> ring[p] != ring[q]
    ensures forall k :: k in tips ==> tips[k].HashOf? && tips[k] in h.Last().dag && Creator(tips[k]) == k
  {
    hide IsRun, ClusterSound, AreTips;
    LastIsSound(h);
    forall p | 0 <= p < |ring| ensures ring[p] in h.Last().nodes { HasNode(h.Last(), h.peers, ring[p]); }
    assert tips.Keys == h.peers by { TipsKeys(h.Last(), tips, h.peers); }
    forall k | k in tips ensures tips[k].HashOf? && tips[k] in h.Last().dag && Creator(tips[k]) == k {
      TipsAreEvents(h.Last(), tips, h.peers, k);
    }
  }

  lemma TipsKeys(c: Cluster, tips: Tips, peers: set<PeerId>)
    requires AreTips(c, tips, peers)
    ensures tips.Keys == peers
  {
  }

  lemma ProceedsIsReady(h: History, h': History, tips': Tips, ring: seq<PeerId>)
    requires Proceeds(h, h', tips', ring)
    ensures Ready(h', tips', ring) && Continues(h, h') && h'.peers == h.peers
  {
  }

  lemma SeesParents(x: EventHash, s: EventHash, o: EventHash)
    requires IsInner(x) && SelfParent(x) == s && OtherParent(x) == o
    ensures Sees(x, s) && Sees(x, o)
  {
    SeesItself(s);
    SeesItself(o);
  }

  // Sweeps

  // What a sweep over the positions below `p`, from the top down, leaves: each of their tips sees its own
  // former self and its successor as it then is.
  ghost predicate Swept(tips: Tips, tips': Tips, ring: seq<PeerId>, p: nat) {
    && p <= |ring|
    && (forall k :: 0 <= k < |ring| ==> ring[k] in tips && ring[k] in tips' && Sees(tips'[ring[k]], tips[ring[k]]))
    && (forall k :: p <= k < |ring| ==> tips'[ring[k]] == tips[ring[k]])
    && (forall k :: 0 <= k < p && k + 1 < |ring| ==> Sees(tips'[ring[k]], tips'[ring[k + 1]]))
    && (p == |ring| && p > 0 ==> Sees(tips'[ring[p - 1]], tips[ring[0]]))
  }

  lemma {:induction false} SweepFrom(h: History, tips: Tips, ring: seq<PeerId>, p: nat)
    returns (h': History, tips': Tips)
    requires Ready(h, tips, ring) && p <= |ring|
    ensures Proceeds(h, h', tips', ring) && Swept(tips, tips', ring, p)
    decreases p
  {
    hide Proceeds, Ready, Sees;
    ReadyRing(h, tips, ring);
    if p == 0 {
      h', tips' := h, tips;
      ProceedsItself(h, tips, ring);
      forall k | 0 <= k < |ring| ensures Sees(tips[ring[k]], tips[ring[k]]) { SeesItself(tips[ring[k]]); }
    } else {
      var b := ring[p - 1];
      var h1, x := MeetSuccessor(h, tips, ring, p - 1, b);
      ProceedsIsReady(h, h1, tips[b := x], ring);
      h', tips' := SweepFrom(h1, tips[b := x], ring, p - 1);
      ProceedOn(h, h1, h', tips[b := x], tips', ring);
      SweptOne(tips, x, tips', ring, p);
    }
  }

  lemma ProceedsItself(h: History, tips: Tips, ring: seq<PeerId>)
    requires Ready(h, tips, ring)
    ensures Proceeds(h, h, tips, ring)
  {
    hide Ready, Paid;
    assert h.Valid() by { ReadyIsValid(h, tips, ring); }
    Stay(h);
  }

  lemma ReadyIsValid(h: History, tips: Tips, ring: seq<PeerId>)
    requires Ready(h, tips, ring)
    ensures h.Valid() && AreTips(h.Last(), tips, h.peers)
  {
  }

  lemma SweptOne(tips: Tips, x: EventHash, tips': Tips, ring: seq<PeerId>, p: nat)
    requires 0 < p <= |ring| && |ring| >= 2 && (forall a, b :: 0 <= a < b < |ring| ==> ring[a] != ring[b])
    requires (forall k :: 0 <= k < |ring| ==> ring[k] in tips)
    requires Sees(x, tips[ring[p - 1]]) && Sees(x, tips[Succ(ring, p - 1)])
    requires Swept(tips[ring[p - 1] := x], tips', ring, p - 1)
    ensures Swept(tips, tips', ring, p)
  {
    hide Sees;
    var mid := tips[ring[p - 1] := x];
    forall k | 0 <= k < |ring| ensures ring[k] in tips' && Sees(tips'[ring[k]], tips[ring[k]]) {
      if k == p - 1 { assert tips'[ring[k]] == x; } else { assert mid[ring[k]] == tips[ring[k]]; }
    }
    forall k | 0 <= k < p && k + 1 < |ring| ensures Sees(tips'[ring[k]], tips'[ring[k + 1]]) {
      if k == p - 1 { assert tips'[ring[k]] == x && tips'[ring[p]] == mid[ring[p]] == tips[ring[p]]; }
    }
  }

  // After a sweep the tip at position 0 sees all others.
  lemma {:induction false} FirstSeesAll(tips: Tips, tips': Tips, ring: seq<PeerId>, k: nat)
    requires Swept(tips, tips', ring, |ring|) && k < |ring| && tips'[ring[0]].HashOf?
    ensures Sees(tips'[ring[0]], tips'[ring[k]])
  {
    if k == 0 {
      SeesItself(tips'[ring[0]]);
    } else {
      FirstSeesAll(tips, tips', ring, k - 1);
      SeesOn(tips'[ring[0]], tips'[ring[k - 1]], tips'[ring[k]]);
    }
  }

  // After a second one all tips see what that tip was.
  lemma {:induction false} AllSeeFirst(tips: Tips, tips': Tips, ring: seq<PeerId>, k: nat)
    requires Swept(tips, tips', ring, |ring|) && k < |ring|
    ensures Sees(tips'[ring[k]], tips[ring[0]])
    decreases |ring| - k
  {
    if k == |ring| - 1 {
    } else {
      AllSeeFirst(tips, tips', ring, k + 1);
      SeesOn(tips'[ring[k]], tips'[ring[k + 1]], tips[ring[0]]);
    }
  }

  // Every new tip sees every old one.
  ghost predicate AllSeeAll(tips: Tips, tips': Tips, ring: seq<PeerId>) {
    forall a, b {:trigger ring[a], ring[b]} :: 0 <= a < |ring| && 0 <= b < |ring| ==>
      ring[a] in tips && ring[b] in tips' && Sees(tips'[ring[b]], tips[ring[a]])
  }

  // Two sweeps bring everybody's tip to everybody.
  lemma Epoch(h: History, tips: Tips, ring: seq<PeerId>) returns (h': History, tips': Tips)
    requires Ready(h, tips, ring)
    ensures Proceeds(h, h', tips', ring) && AllSeeAll(tips, tips', ring)
  {
    hide Proceeds, Ready, Sees;
    ReadyRing(h, tips, ring);
    var h1, mid := SweepFrom(h, tips, ring, |ring|);
    ProceedsIsReady(h, h1, mid, ring);
    ReadyRing(h1, mid, ring);
    h', tips' := SweepFrom(h1, mid, ring, |ring|);
    ProceedOn(h, h1, h', mid, tips', ring);
    forall a, b | 0 <= a < |ring| && 0 <= b < |ring|
      ensures ring[a] in tips && ring[b] in tips' && Sees(tips'[ring[b]], tips[ring[a]])
    {
      FirstSeesAll(tips, mid, ring, a);
      AllSeeFirst(mid, tips', ring, b);
      SeesOn(mid[ring[0]], mid[ring[a]], tips[ring[a]]);
      SeesOn(tips'[ring[b]], mid[ring[0]], tips[ring[a]]);
    }
  }

  // Frames

  ghost predicate AllReach(tips: Tips, f: FrameNumber, n: nat) {
    forall k {:trigger tips[k]} :: k in tips ==> FrameOf(tips[k], n) >= f
  }

  // An event on two tips of frame `f` or later, of which one has seen every creator's tip of frame `f` or
  // later, is past frame `f`.
  lemma NextFrame(x: EventHash, hs: set<EventHash>, peers: set<PeerId>, tips: Tips, f: FrameNumber)
    requires Closed(hs, peers) && peers != {} && IsInner(x) && tips.Keys == peers
    requires FrameOf(SelfParent(x), |peers|) >= f && FrameOf(OtherParent(x), |peers|) >= f
    requires forall k :: k in peers ==> tips[k] in hs && Creator(tips[k]) == k && Sees(SelfParent(x), tips[k])
    requires AllReach(tips, f, |peers|)
    ensures FrameOf(x, |peers|) >= f + 1
  {
    var n, s := |peers|, SelfParent(x);
    FrameRule(x, n);
    if FrameOf(s, n) == f && FrameOf(OtherParent(x), n) == f {
      hide FrameOf;
      forall k | k in peers ensures k in Creators(ParentRoots(x, f, n)) {
        FrameMonotone(s, tips[k], n);
        var r := RootOfChain(hs, peers, tips[k], n);
        AncestorsTransitive(s, tips[k]);
        assert r in ParentRoots(x, f, n);
      }
      CardinalitySubset(peers, Creators(ParentRoots(x, f, n)));
    }
  }

  lemma AllSeenReach(tips: Tips, tips': Tips, ring: seq<PeerId>, a: nat, f: FrameNumber, n: nat)
    requires AllSeeAll(tips, tips', ring) && a < |ring| && ring[a] in tips && FrameOf(tips[ring[a]], n) >= f
    requires forall k :: k in tips' ==> k in ring
    ensures AllReach(tips', f, n)
  {
    forall k | k in tips' ensures FrameOf(tips'[k], n) >= f {
      var b :| 0 <= b < |ring| && ring[b] == k;
      FrameMonotone(tips'[k], tips[ring[a]], n);
    }
  }

  lemma RingCoversTips(h: History, tips: Tips, ring: seq<PeerId>)
    requires Ready(h, tips, ring)
    ensures forall k :: k in tips ==> k in ring
  {
    hide IsRun, AreTips;
    TipsKeys(h.Last(), tips, h.peers);
    OnRing(h.run[0], ring, h.peers);
  }

  lemma OnRing(c: Cluster, ring: seq<PeerId>, peers: set<PeerId>)
    requires RingTrue(c, ring, peers)
    ensures forall k :: k in peers ==> k in ring
  {
    forall k | k in peers ensures k in ring {
      assert Stands(c, ring, k);
    }
  }

  // An epoch, a meeting and another epoch take all tips past frame `f`.
  lemma Climb(h: History, tips: Tips, ring: seq<PeerId>, f: FrameNumber) returns (h': History, tips': Tips)
    requires AllReach(tips, f, |h.peers|) && Ready(h, tips, ring)
    ensures AllReach(tips', f + 1, |h.peers|) && Proceeds(h, h', tips', ring)
  {
    hide Proceeds, Ready, Sees, FrameOf, IsInner, AllSeeAll, AllReach;
    ReadyRing(h, tips, ring);
    var h1, t1 := Epoch(h, tips, ring);
    ProceedsIsReady(h, h1, t1, ring);
    RingCoversTips(h, tips, ring);
    RingCoversTips(h1, t1, ring);
    AllReaches(tips, ring[0], f, |h.peers|);
    AllSeenReach(tips, t1, ring, 0, f, |h.peers|);
    var b := ring[0];
    var h2, x, j := MeetOnce(h1, t1, ring, 0, b);
    ClimbsOne(h1, tips, t1, ring, x, j, f);
    var t2 := t1[b := x];
    ProceedsIsReady(h1, h2, t2, ring);
    h', tips' := Epoch(h2, t2, ring);
    ProceedsIsReady(h2, h', tips', ring);
    RingCoversTips(h', tips', ring);
    AllSeenReach(t2, tips', ring, 0, f + 1, |h.peers|);
    ProceedOn(h, h1, h2, t1, t2, ring);
    ProceedOn(h, h2, h', t2, tips', ring);
  }

  lemma AllReaches(tips: Tips, k: PeerId, f: FrameNumber, n: nat)
    requires AllReach(tips, f, n) && k in tips
    ensures FrameOf(tips[k], n) >= f
  {
  }

  lemma ClimbsOne(h: History, tips: Tips, t1: Tips, ring: seq<PeerId>, x: EventHash, j: PeerId, f: FrameNumber)
    requires Ready(h, t1, ring) && AllReach(tips, f, |h.peers|) && AllReach(t1, f, |h.peers|)
    requires AllSeeAll(tips, t1, ring) && tips.Keys == h.peers
    requires forall k :: k in tips ==> Creator(tips[k]) == k && k in ring
    requires ring != [] && ring[0] in t1 && j in t1
    requires IsInner(x) && SelfParent(x) == t1[ring[0]] && OtherParent(x) == t1[j]
    ensures FrameOf(x, |h.peers|) >= f + 1
  {
    hide IsRun, FrameOf, AreTips, IsInner;
    ReadyRing(h, t1, ring);
    LastIsSound(h);
    var dag := h.Last().dag;
    DagIsClosed(h.Last(), h.peers);
    forall k | k in h.peers ensures tips[k] in dag && Sees(SelfParent(x), tips[k]) {
      var a :| 0 <= a < |ring| && ring[a] == k;
      assert Sees(t1[ring[0]], tips[ring[a]]);
      ClosedHoldsAncestors(dag, h.peers, t1[ring[0]]);
    }
    AllReaches(t1, ring[0], f, |h.peers|);
    AllReaches(t1, j, f, |h.peers|);
    NextFrame(x, dag, h.peers, tips, f);
  }

  lemma DagIsClosed(c: Cluster, peers: set<PeerId>)
    requires ClusterSound(c, peers)
    ensures Closed(c.dag, peers) && ForkFree(c.dag)
  {
  }

  lemma {:induction false} ClimbTo(h: History, tips: Tips, ring: seq<PeerId>, f: FrameNumber)
    returns (h': History, tips': Tips)
    requires Ready(h, tips, ring)
    ensures Proceeds(h, h', tips', ring) && AllReach(tips', f, |h.peers|)
  {
    hide Proceeds, Ready, FrameOf;
    if f == 0 {
      h', tips' := h, tips;
      ProceedsItself(h, tips, ring);
    } else {
      var h1, t1 := ClimbTo(h, tips, ring, f - 1);
      ProceedsIsReady(h, h1, t1, ring);
      h', tips' := Climb(h1, t1, ring, f - 1);
      ProceedOn(h, h1, h', t1, tips', ring);
    }
  }

  // Finality

  // Once all tips are past frame `f` an epoch makes every new tip cover it.
  lemma CoverFrame(h: History, tips: Tips, ring: seq<PeerId>, f: FrameNumber) returns (h': History, tips': Tips)
    requires Ready(h, tips, ring)
    ensures Proceeds(h, h', tips', ring)
    ensures forall k :: k in h.peers ==> k in tips' && Covers(tips'[k], f, h.peers)
  {
    hide Proceeds, Ready, FrameOf, Sees, Covers, AllReach, AllSeeAll;
    var h1, t1 := ClimbTo(h, tips, ring, f);
    ProceedsIsReady(h, h1, t1, ring);
    h', tips' := Epoch(h1, t1, ring);
    ProceedsIsReady(h1, h', tips', ring);
    ProceedOn(h, h1, h', t1, tips', ring);
    ReadyRing(h1, t1, ring);
    ReadyRing(h', tips', ring);
    RingCoversTips(h', tips', ring);
    RingCoversTips(h1, t1, ring);
    LastIsSound(h1) by { ReadyIsValid(h1, t1, ring); }
    DagIsClosed(h1.Last(), h.peers);
    forall k | k in h.peers ensures k in tips' && Covers(tips'[k], f, h.peers) {
      TipCovers(tips'[k], t1, tips', ring, k, f, h1.Last().dag, h.peers);
    }
  }

  lemma TipCovers(x: EventHash, tips: Tips, tips': Tips, ring: seq<PeerId>, k: PeerId, f: FrameNumber,
                  dag: set<EventHash>, peers: set<PeerId>)
    requires AllReach(tips, f, |peers|) && AllSeeAll(tips, tips', ring) && k in tips' && x == tips'[k] && k in ring
    requires tips.Keys == peers && (forall c :: c in tips ==> c in ring && tips[c] in dag && Creator(tips[c]) == c)
    requires Closed(dag, peers)
    ensures Covers(x, f, peers)
  {
    hide FrameOf, IsRoot;
    forall c | c in peers ensures SeesRootFrom(x, c, f, |peers|) {
      var a :| 0 <= a < |ring| && ring[a] == c;
      var b :| 0 <= b < |ring| && ring[b] == k;
      assert Sees(tips'[ring[b]], tips[ring[a]]);
      var r := RootOfChain(dag, peers, tips[c], |peers|);
      AncestorsTransitive(x, tips[c]);
    }
  }

  // Finishing the rounds that have begun.
  lemma {:induction false} Settle(h: History) returns (h': History)
    requires h.Valid()
    ensures Continues(h, h') && Settled(h'.Last()) && (Settled(h.Last()) ==> h' == h)
    decreases |h.Last().pending|
  {
    hide IsRun, ClusterSound, Next, Enabled, EventMade, Quiet;
    if Settled(h.Last()) {
      h' := h;
      Stay(h);
    } else {
      var c := h.Last();
      var i :| i in c.pending;
      var j := c.pending[i];
      LastIsSound(h);
      PendingIsIn(c, i, h.peers);
      ProcedureAFindsItsParents(c, i, h.peers);
      CreateIsQuiet(c, i, j);
      CreateEffect(c, i, j, h.peers, h.digest);
      var h1 := Take(h, Create(i, j));
      assert c.pending.Keys == (c.pending - {i}).Keys + {i};
      assert |c.pending.Keys| == |c.pending| && |(c.pending - {i}).Keys| == |c.pending - {i}|;
      h' := Settle(h1);
      GoOn(h, h1, h');
    }
  }

  lemma PendingIsIn(c: Cluster, i: PeerId, peers: set<PeerId>)
    requires ClusterSound(c, peers) && i in c.pending
    ensures i in peers
  {
  }

  // From every reachable state a run can be continued, hitting nobody, until any number of frames is final at
  // every node whose frame numbers, tables and finality are exact.
  lemma FinalityCanGrow(h: History, f: FrameNumber) returns (h': History)
    requires h.Valid()
    ensures Continues(h, h')
    ensures forall i :: i in h.peers ==> i in h.Last().nodes && i in h'.Last().nodes
    ensures forall i :: i in h.peers && CoreExact(h.Last().nodes[i], h.peers) ==>
              CoreExact(h'.Last().nodes[i], h.peers) && h'.Last().nodes[i].FirstNotFinalised() >= f
    ensures Settled(h.Last()) && Paid(h.Last(), h.pay, h.base, |h.peers|) ==> Paid(h'.Last(), h.pay, h.base, |h.peers|)
  {
    hide IsRun, ClusterSound, Ready, Paid, AreTips, RingTrue, Covers, CoreExact, Continues;
    var h1 := Settle(h);
    ContinuesIsValid(h, h1);
    LastIsSound(h1);
    var tips := TipsExist(h1.Last(), h.peers);
    var ring := RingExists(h1);
    assert Ready(h1, tips, ring) by { IsReady(h1, tips, ring); }
    var h2, tips' := CoverFrame(h1, tips, ring, f);
    ContinuesIsValid(h1, h2);
    GoOn(h, h1, h2);
    h' := h2;
    LastIsSound(h);
    LastIsSound(h');
    assert AreTips(h'.Last(), tips', h.peers) by { ReadyIsValid(h', tips', ring); }
    forall i | i in h.peers
      ensures i in h.Last().nodes && i in h'.Last().nodes
      ensures CoreExact(h.Last().nodes[i], h.peers) ==>
                CoreExact(h'.Last().nodes[i], h.peers) && h'.Last().nodes[i].FirstNotFinalised() >= f
    {
      HasNode(h.Last(), h.peers, i);
      HasNode(h'.Last(), h.peers, i);
      if CoreExact(h.Last().nodes[i], h.peers) {
        ContinuesIsValid(h, h');
        ExactStays(h, h', i, |h'.steps|);
        TipIsStored(h'.Last(), tips', h.peers, i);
        BoundIsReached(h'.Last().nodes[i], tips'[i], f, h.peers);
      }
    }
  }

  lemma IsReady(h: History, tips: Tips, ring: seq<PeerId>)
    requires h.Valid() && Settled(h.Last()) && AreTips(h.Last(), tips, h.peers) && RingTrue(h.run[0], ring, h.peers)
    ensures Ready(h, tips, ring)
  {
    hide IsRun;
  }

  lemma TipIsStored(c: Cluster, tips: Tips, peers: set<PeerId>, i: PeerId)
    requires AreTips(c, tips, peers) && i in peers
    ensures i in c.nodes && i in tips && tips[i] in c.nodes[i].store.event
  {
    assert IsTip(c, i, tips[i]);
  }

  lemma BoundIsReached(s: CoreState, x: EventHash, f: FrameNumber, peers: set<PeerId>)
    requires CoreExact(s, peers) && x in s.store.event && Covers(x, f, peers)
    ensures s.FirstNotFinalised() >= f
  {
    hide Covers, GraphTrue;
    assert x in s.store.event.Keys;
  }
}
