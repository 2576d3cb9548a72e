/** Overlapping requests: runs of procedure A in which a node asks one contact several times before it is answered,
    so that all answers but the first bring it an event that it has. */
module Overlaps {
  import opened Wrappers
  import opened Events
  import opened Frames
  import opened Peers
  import opened Stores
  import opened Dag
  import opened Cores
  import opened Refinement
  import opened Soundness
  import opened Freshness
  import opened Protocol
  import opened Nodes
  import opened Steps
  import opened Cluster
  import opened Runs
  import opened Exchanges
  import opened Schedules
  import opened Histories
  import opened Meetings

  // A round by oneself

  // Node `i` has sent one request and created one event, and knows of nothing else new.
  ghost predicate WentAlone(c: Cluster, c': Cluster, i: PeerId, x: EventHash) {
    && i in c.nodes && Enabled(c, Request(i)) && Aside(c, c', i) && c'.pending == c.pending && Creator(x) == i
    && c'.requests == c.requests + multiset{RequestOf(c.nodes[i])} && c'.replies == c.replies
    && c'.nodes[i].store.event.Keys == c.nodes[i].store.event.Keys + {x}
    && SameSchedule(c'.nodes[i].peers, c.nodes[i].peers.Advanced())
    && c'.dag == c.dag + {x} && x !in c.dag
    && Payload(x) == c.nodes[i].NextTransactions().0 && c'.nodes[i].txPool == c.nodes[i].NextTransactions().1
  }

  // One round of procedure A in which no answer arrives before the event is created.
  lemma LonelyRound(h: History, i: PeerId) returns (h': History, x: EventHash)
    requires h.Valid() && i in h.peers && i !in h.Last().pending
    ensures Continues(h, h') && Enabled(h.Last(), Request(i)) && WentAlone(h.Last(), h'.Last(), i, x)
    ensures Enabled(Next(h.Last(), Request(i), h.digest), Create(i, ContactOf(h.Last(), i)))
    ensures x == EventMade(Next(h.Last(), Request(i), h.digest), i, ContactOf(h.Last(), i))
  {
    hide IsRun, ClusterSound, Next, Enabled, Quiet, ContactOf, EventMade, WentAlone;
    var c := h.Last();
    LastIsSound(h);
    CanAskNow(c, i, h.peers);
    RequestEffect(c, i, h.digest);
    AsksQuietly(c, i);
    var h1 := Take(h, Request(i));
    LastIsSound(h1);
    var j := ContactOf(c, i);
    CanCreateThen(h1.Last(), i, j, h.peers);
    x := EventMade(h1.Last(), i, j);
    CreateIsQuiet(h1.Last(), i, j);
    h' := Take(h1, Create(i, j));
    GoOn(h, h1, h');
    AloneSteps(c, i, h.peers, h.digest);
  }

  lemma CanAskNow(c: Cluster, i: PeerId, peers: set<PeerId>)
    requires ClusterSound(c, peers) && i in peers && |peers| >= 2 && i !in c.pending
    ensures Enabled(c, Request(i)) && ContactOf(c, i) in peers && ContactOf(c, i) != i
  {
    hide ClusterSound, CanCreate, NewEvent;
    ProcedureAFindsItsParents(c, i, peers);
  }

  lemma AsksQuietly(c: Cluster, i: PeerId)
    ensures Quiet(c, Request(i))
  {
  }

  lemma CanCreateThen(c: Cluster, i: PeerId, j: PeerId, peers: set<PeerId>)
    requires ClusterSound(c, peers) && i in peers && |peers| >= 2 && i in c.pending && c.pending[i] == j
    ensures Enabled(c, Create(i, j)) && IsInner(EventMade(c, i, j)) && Creator(EventMade(c, i, j)) == i
  {
    hide ClusterSound, EventMade, CanCreate;
    ProcedureAFindsItsParents(c, i, peers);
    NewEventIsInner(c, i, j, peers);
    NewTip(c, i, j, peers);
  }

  lemma FreshlyMade(c: Cluster, i: PeerId, j: PeerId, peers: set<PeerId>)
    requires ClusterSound(c, peers) && Enabled(c, Create(i, j))
    ensures EventMade(c, i, j) !in c.dag
  {
    hide ClusterSound, NodeSound, NewEvent, Extends;
    NodeAt(c, i, peers);
    NodeAt(c, j, peers);
    NewEventIsFresh(c.nodes[i], i, c.dag, peers, j);
  }

  lemma AloneSteps(c: Cluster, i: PeerId, peers: set<PeerId>, digest: EventHash -> nat)
    requires ClusterSound(c, peers) && Enabled(c, Request(i)) && i in peers && |peers| >= 2
    requires var c1 := Next(c, Request(i), digest);
             ClusterSound(c1, peers) && Enabled(c1, Create(i, ContactOf(c, i)))
    ensures var c1, j := Next(c, Request(i), digest), ContactOf(c, i);
            WentAlone(c, Next(c1, Create(i, j), digest), i, EventMade(c1, i, j))
  {
    hide ClusterSound, ContactOf, EventMade, CanCreate, SameSchedule, Same, RequestOf, Created, NodeSound, NewEvent;
    var c1, j := Next(c, Request(i), digest), ContactOf(c, i);
    RequestEffect(c, i, digest);
    CreateEffect(c1, i, j, peers, digest);
    NewTip(c1, i, j, peers);
    FreshlyMade(c1, i, j, peers);
    PayloadOfMade(c1, i, j);
    AsideAgain(c, c1, Next(c1, Create(i, j), digest), i);
    assert i !in c.pending && c.pending[i := j] - {i} == c.pending;
  }

  lemma AloneParts(c: Cluster, c': Cluster, i: PeerId, x: EventHash)
    requires WentAlone(c, c', i, x)
    ensures c'.pending == c.pending && c'.nodes.Keys == c.nodes.Keys
  {
  }

  // The scene

  // Node `i` is to be hit by the event `x` of node `j`, which carries `gift`.
  datatype Scene = Scene(i: PeerId, j: PeerId, x: EventHash, gift: seq<Transaction>)

  // No other event carries anything, and no pool holds anything.
  ghost predicate Light(c: Cluster, x: EventHash, gift: seq<Transaction>) {
    && (forall k {:trigger c.nodes[k]} :: k in c.nodes ==> c.nodes[k].txPool == [])
    && x in c.dag && forall y :: y in c.dag ==> Payload(y) == if y == x then gift else []
  }

  // Node `j` has created one event, on leaves.
  ghost predicate OnLeaves(k: Scene, peers: set<PeerId>) {
    && k.i != k.j && k.i in peers && k.j in peers && IsInner(k.x) && Creator(k.x) == k.j
    && SelfParent(k.x) in LeavesOf(peers) && OtherParent(k.x) in LeavesOf(peers)
  }

  // Node `j` knows nothing else; node `i` knows only its own events and the leaves.
  ghost predicate Unaware(c: Cluster, k: Scene, peers: set<PeerId>) {
    && k.i in c.nodes && k.j in c.nodes && OnLeaves(k, peers) && Light(c, k.x, k.gift)
    && c.nodes[k.j].store.event.Keys == LeavesOf(peers) + {k.x}
    && LeavesOf(peers) <= c.nodes[k.i].store.event.Keys
    && forall y :: y in c.nodes[k.i].store.event.Keys && Creator(y) != k.i ==> y in LeavesOf(peers)
  }

  lemma StaysLight(c: Cluster, c': Cluster, i: PeerId, x: EventHash, y: EventHash, gift: seq<Transaction>)
    requires Light(c, x, gift) && WentAlone(c, c', i, y)
    ensures Light(c', x, gift)
  {
    hide SameSchedule, Enabled, RequestOf, Aside;
    assert c.nodes[i].txPool == [];
    TakesAll(c.nodes[i]);
    AsideKeepsPools(c, c', i);
    hide Payload;
  }

  lemma AsideKeepsPools(c: Cluster, c': Cluster, i: PeerId)
    requires Aside(c, c', i) && i in c.nodes
    requires (forall k {:trigger c.nodes[k]} :: k in c.nodes ==> c.nodes[k].txPool == [])
    ensures i in c'.nodes
    ensures c'.nodes[i].txPool == [] ==> forall k {:trigger c'.nodes[k]} :: k in c'.nodes ==> c'.nodes[k].txPool == []
  {
    hide SameSchedule;
    forall k | k in c'.nodes && k != i ensures c'.nodes[k].txPool == [] {
      assert Same(c'.nodes[k], c.nodes[k]);
    }
  }

  lemma StaysUnaware(c: Cluster, c': Cluster, k: Scene, y: EventHash, peers: set<PeerId>)
    requires Unaware(c, k, peers) && WentAlone(c, c', k.i, y)
    ensures Unaware(c', k, peers)
  {
    hide WentAlone, Light, OnLeaves, LeavesOf;
    NotOneself(k, peers);
    StaysLight(c, c', k.i, k.x, y, k.gift);
    AloneLeaves(c, c', k.i, k.j, y);
    OwnEventsOnly(c.nodes[k.i].store.event.Keys, c'.nodes[k.i].store.event.Keys, LeavesOf(peers), k.i, y);
  }

  lemma NotOneself(k: Scene, peers: set<PeerId>)
    requires OnLeaves(k, peers)
    ensures k.i != k.j
  {
  }

  lemma OwnEventsOnly(hs: set<EventHash>, more: set<EventHash>, leaves: set<EventHash>, i: PeerId, y: EventHash)
    requires leaves <= hs && more == hs + {y} && Creator(y) == i
    requires forall z :: z in hs && Creator(z) != i ==> z in leaves
    ensures leaves <= more && forall z :: z in more && Creator(z) != i ==> z in leaves
  {
  }

  lemma AloneLeaves(c: Cluster, c': Cluster, i: PeerId, j: PeerId, y: EventHash)
    requires WentAlone(c, c', i, y) && i in c.nodes && j in c.nodes && i != j
    ensures i in c'.nodes && j in c'.nodes && c'.nodes[j].store == c.nodes[j].store
    ensures c'.nodes[i].store.event.Keys == c.nodes[i].store.event.Keys + {y} && Creator(y) == i
  {
    hide SameSchedule, Enabled, RequestOf;
    assert Same(c'.nodes[j], c.nodes[j]);
  }

  lemma UnawareParts(c: Cluster, k: Scene, peers: set<PeerId>)
    requires ClusterSound(c, peers) && Unaware(c, k, peers)
    ensures k.i in c.nodes && k.j in c.nodes && OnLeaves(k, peers) && Light(c, k.x, k.gift) && HeightOf(k.x) > 0
    ensures c.nodes[k.j].store.event.Keys == LeavesOf(peers) + {k.x}
  {
    hide ClusterSound, NodeSound, LeavesOf, Light;
    NodeAt(c, k.j, peers);
    NodePeersAreValid(c.nodes[k.j], k.j, c.dag, peers);
    ClosedGraph(c.nodes[k.j].store.event.Keys, peers);
    assert k.x in c.nodes[k.j].store.event.Keys;
    ClosedIsInner(c.nodes[k.j].store.event.Keys, peers, k.x);
  }

  // How it begins

  lemma LeavesOnly(c: Cluster, lists: Lists, peers: set<PeerId>, i: PeerId)
    requires Initial(c, lists, peers) && i in peers
    ensures i in c.nodes && c.nodes[i].store.event.Keys == LeavesOf(peers)
    ensures c.nodes[i].peers.Valid() && c.nodes[i].peers.n == |peers| && c.nodes[i].peers.r == |peers| / 2
  {
    hide LeavesOf, NodeSound, CoreTrue;
    BootedAs(c, lists, peers, i);
    BootedNodeIsTrue(lists[i], i, h => 0);
    ResortedIsValid(lists[i].(creator := i));
    CountOfIds(c.nodes[i].peers.peers);
  }

  lemma NothingCarried(c: Cluster, lists: Lists, peers: set<PeerId>)
    requires Initial(c, lists, peers)
    ensures forall k :: k in c.nodes ==> c.nodes[k].txPool == []
    ensures forall y :: y in c.dag ==> Payload(y) == []
  {
    forall k | k in c.nodes ensures c.nodes[k].txPool == [] {
      BootedAs(c, lists, peers, k);
      BootedPoolIsEmpty(lists[k], k);
    }
  }

  // Putting the gift into the pool.
  lemma Endow(h: History, j: PeerId, gift: seq<Transaction>) returns (h': History)
    requires h.Valid() && j in h.peers && |gift| <= 1
    ensures Continues(h, h') && Topped(h.Last(), h'.Last(), j, gift)
  {
    hide IsRun, ClusterSound, Next, Aside, AllConserved;
    LastIsSound(h);
    CanSubmit(h.Last(), j, h.peers);
    if gift == [] {
      h' := h;
      Stay(h);
      NothingTopped(h.Last(), j);
    } else {
      SubmitEffect(h.Last(), j, gift[0], h.digest);
      h' := Take(h, Submit(j, gift[0]));
      assert gift == [gift[0]];
    }
  }

  // An event created by a node that knows only leaves is on leaves.
  lemma MadeOnLeaves(c: Cluster, j: PeerId, peers: set<PeerId>, digest: EventHash -> nat)
    requires ClusterSound(c, peers) && Enabled(c, Request(j)) && j in c.nodes
    requires c.nodes[j].store.event.Keys == LeavesOf(peers)
    requires var c1 := Next(c, Request(j), digest);
             ClusterSound(c1, peers) && Enabled(c1, Create(j, ContactOf(c, j)))
    ensures var x := EventMade(Next(c, Request(j), digest), j, ContactOf(c, j));
            IsInner(x) && Creator(x) == j && SelfParent(x) in LeavesOf(peers) && OtherParent(x) in LeavesOf(peers)
  {
    hide ClusterSound, ContactOf, NodeSound, LeavesOf, Fits, Next;
    var c1, k := Next(c, Request(j), digest), ContactOf(c, j);
    RequestEffect(c, j, digest);
    NodeAt(c1, j, peers);
    NodeAt(c1, k, peers);
    NewEventIsFresh(c1.nodes[j], j, c1.dag, peers, k);
    var x, hs := NewEvent(c1.nodes[j], k).hash, c1.nodes[j].store.event.Keys;
    assert Fits(x, hs, peers) by { assert Extends(x, hs, peers); }
    NodePeersAreValid(c1.nodes[j], j, c1.dag, peers);
    ClosedGraph(hs, peers);
    FitsHasParents(x, hs, peers);
  }

  // The event of `j`.
  lemma FirstEvent(h: History, c: Cluster, i: PeerId, j: PeerId, gift: seq<Transaction>) returns (h': History, k: Scene)
    requires h.Valid() && h.steps == [] && h.Last() == c && i in h.peers && j in h.peers && i != j
    requires Initial(c, h.lists, h.peers) && |gift| <= 1
    ensures Continues(h, h') && h'.Last().pending == map[] && Unaware(h'.Last(), k, h.peers)
    ensures k == Scene(i, j, k.x, gift)
    ensures i in c.nodes && i in h'.Last().nodes && SameSchedule(h'.Last().nodes[i].peers, c.nodes[i].peers)
  {
    hide IsRun, Next, Enabled, ContactOf, EventMade, WentAlone, ClusterSound, Unaware, LeavesOf, Initial, Topped;
    assert c.pending == map[] by { NothingPending(c, h.lists, h.peers); }
    var x;
    var h1 := Endow(h, j, gift);
    LastIsSound(h1);
    LeavesOnly(c, h.lists, h.peers, i);
    LeavesOnly(c, h.lists, h.peers, j);
    ToppedParts(c, h1.Last(), j, gift);
    h', x := LonelyRound(h1, j);
    GoOn(h, h1, h');
    StepsKeep(h1.Last(), Request(j), h.peers, h.digest);
    MadeOnLeaves(h1.Last(), j, h.peers, h.digest);
    AloneParts(h1.Last(), h'.Last(), j, x);
    NothingCarried(c, h.lists, h.peers);
    k := Scene(i, j, x, gift);
    BecomesLight(c, h1.Last(), h'.Last(), k);
    BecomesUnaware(c, h1.Last(), h'.Last(), k, h.peers);
  }

  lemma ToppedParts(c: Cluster, c': Cluster, j: PeerId, more: seq<Transaction>)
    requires Topped(c, c', j, more)
    ensures j in c.nodes && j in c'.nodes && c'.nodes.Keys == c.nodes.Keys
    ensures c'.nodes[j].store == c.nodes[j].store && c'.pending == c.pending
  {
  }

  lemma NothingPending(c: Cluster, lists: Lists, peers: set<PeerId>)
    requires Initial(c, lists, peers)
    ensures c.pending == map[]
  {
  }

  lemma BecomesLight(c: Cluster, c1: Cluster, c': Cluster, k: Scene)
    requires Topped(c, c1, k.j, k.gift) && WentAlone(c1, c', k.j, k.x) && |k.gift| <= 1
    requires forall l :: l in c.nodes ==> c.nodes[l].txPool == []
    requires forall y :: y in c.dag ==> Payload(y) == []
    ensures Light(c', k.x, k.gift)
  {
    hide SameSchedule, Enabled, RequestOf;
    AsideAgain(c, c1, c', k.j);
    AsideKeepsKeys(c, c', k.j);
    AsideKeepsSchedules(c, c', k.j);
    assert c1.nodes[k.j].txPool == k.gift;
    TakesAll(c1.nodes[k.j]);
    forall l | l in c'.nodes ensures c'.nodes[l].txPool == [] {
      if l != k.j { assert c'.nodes[l].txPool == c.nodes[l].txPool; }
    }
  }

  lemma BecomesUnaware(c: Cluster, c1: Cluster, c': Cluster, k: Scene, peers: set<PeerId>)
    requires Topped(c, c1, k.j, k.gift) && WentAlone(c1, c', k.j, k.x) && k.i in c.nodes
    requires c.nodes[k.i].store.event.Keys == LeavesOf(peers) && c1.nodes[k.j].store.event.Keys == LeavesOf(peers)
    requires OnLeaves(k, peers) && Light(c', k.x, k.gift)
    ensures Unaware(c', k, peers) && SameSchedule(c'.nodes[k.i].peers, c.nodes[k.i].peers)
  {
    hide LeavesOf, Enabled, RequestOf, SameSchedule, Light;
    AsideAgain(c, c1, c', k.j);
    assert Same(c'.nodes[k.i], c.nodes[k.i]);
    AsideKeepsKeys(c1, c', k.j);
  }

  // Asking

  // Rounds, one after the other.
  lemma {:induction false} LonelyRounds(h: History, k: Scene, m: nat) returns (h': History)
    requires h.Valid() && h.Last().pending == map[] && Unaware(h.Last(), k, h.peers)
    ensures Continues(h, h') && h'.Last().pending == map[] && Unaware(h'.Last(), k, h.peers)
    ensures Enabled(h.Last(), Request(k.i)) && AskedAlong(h.Last(), h'.Last(), k.i, m)
  {
    hide IsRun, Next, Enabled, ContactOf, EventMade, Unaware, AskedAlong, WentAlone, ClusterSound, Light;
    var y;
    LastIsSound(h);
    UnawareParts(h.Last(), k, h.peers);
    if m == 0 {
      h' := h;
      Stay(h);
      CanAskNow(h.Last(), k.i, h.peers);
      AskedNot(h.Last(), k.i);
    } else {
      var h1 := LonelyRounds(h, k, m - 1);
      h', y := LonelyRound(h1, k.i);
      GoOn(h, h1, h');
      StaysUnaware(h1.Last(), h'.Last(), k, y, h.peers);
      AskedMore(h.Last(), h1.Last(), h'.Last(), k.i, y, m);
    }
  }

  // `m` rounds have moved the schedule and sent their requests, the present one first.
  ghost predicate AskedAlong(c: Cluster, c': Cluster, i: PeerId, m: nat)
    requires Enabled(c, Request(i))
  {
    && i in c'.nodes && SameSchedule(c'.nodes[i].peers, AfterCalls(c.nodes[i].peers, m))
    && c.requests <= c'.requests
    && (m > 0 ==> c.requests + multiset{RequestOf(c.nodes[i])} <= c'.requests)
    && (m == 0 ==> c' == c)
  }

  lemma AskedNot(c: Cluster, i: PeerId)
    requires Enabled(c, Request(i))
    ensures AskedAlong(c, c, i, 0)
  {
  }

  lemma AskedMore(c: Cluster, c1: Cluster, c': Cluster, i: PeerId, y: EventHash, m: nat)
    requires m > 0 && Enabled(c, Request(i)) && AskedAlong(c, c1, i, m - 1) && WentAlone(c1, c', i, y)
    ensures c'.pending == c1.pending && AskedAlong(c, c', i, m)
  {
    hide RequestOf, AfterCalls, Aside;
    AsideKeepsKeys(c1, c', i);
    AdvancedAlike(c1.nodes[i].peers, AfterCalls(c.nodes[i].peers, m - 1));
    NextCall(c.nodes[i].peers, m);
    SchedulesChain(c'.nodes[i].peers, c1.nodes[i].peers.Advanced(), AfterCalls(c.nodes[i].peers, m));
  }

  lemma NextCall(s: PeersState, m: nat)
    requires m > 0
    ensures AfterCalls(s, m) == AfterCalls(s, m - 1).Advanced()
  {
  }

  lemma AdvancedAlike(a: PeersState, b: PeersState)
    requires SameSchedule(a, b)
    ensures SameSchedule(a.Advanced(), b.Advanced())
  {
  }

  lemma RoundOfSchedule(s: PeersState)
    requires s.Valid() && s.n >= 2 && s.r == s.n / 2
    ensures Log2(s.n) > 0 && AfterCalls(s, Log2(s.n)) == s
  {
    var period := Log2(s.n);
    ContactSchedule(s, period);
    DivisionIsUnique(period, period, 1, 0);
    assert Halved(s.n, 1) == Halved(s.n / 2, 0) == s.n / 2;
  }

  // Node `i` is about to ask `j`, at the start of its schedule.
  ghost predicate Poised(c: Cluster, k: Scene) {
    && c.pending == map[] && Enabled(c, Request(k.i)) && ContactOf(c, k.i) == k.j
    && c.nodes[k.i].peers.Valid() && c.nodes[k.i].peers.n >= 2 && c.nodes[k.i].peers.r == c.nodes[k.i].peers.n / 2
  }

  // A request to `j` in which no event of `j` but the leaf is listed.
  ghost predicate Blind(req: SyncReq, k: Scene) {
    req.from == k.i && req.to == k.j && k.j in req.gossipList && req.gossipList[k.j].height == 0
  }

  lemma RequestIsBlind(c: Cluster, k: Scene, peers: set<PeerId>)
    requires ClusterSound(c, peers) && Unaware(c, k, peers) && Enabled(c, Request(k.i)) && ContactOf(c, k.i) == k.j
    ensures Blind(RequestOf(c.nodes[k.i]), k)
  {
    hide ClusterSound, NodeSound, StoreSound, GossipTrue, Light;
    NodeAt(c, k.i, peers);
    NodePeersAreValid(c.nodes[k.i], k.i, c.dag, peers);
    HeadsMakeGossip(c.nodes[k.i], k.i, c.dag, peers);
    var g := GossipOf(c.nodes[k.i].peers.peers);
    assert g.Keys == peers by { GossipKeys(g, c.nodes[k.i].store.event.Keys, peers); }
    LeavesAreAGraph(peers);
  }

  lemma GossipKeys(g: GossipList, hs: set<EventHash>, peers: set<PeerId>)
    requires GossipTrue(g, hs, peers)
    ensures g.Keys == peers
  {
  }

  // Once round the schedule: the request to `j` is under way, and `j` is the contact again.
  lemma AskAround(h: History, k: Scene) returns (h': History, req: SyncReq)
    requires h.Valid() && Unaware(h.Last(), k, h.peers) && Poised(h.Last(), k)
    ensures Continues(h, h') && Unaware(h'.Last(), k, h.peers) && Poised(h'.Last(), k)
    ensures Blind(req, k) && h.Last().requests + multiset{req} <= h'.Last().requests
  {
    hide IsRun, Next, Enabled, ContactOf, Unaware, AskedAlong, ClusterSound, Blind, Light;
    var c := h.Last();
    LastIsSound(h);
    UnawareParts(c, k, h.peers);
    var s := c.nodes[k.i].peers;
    RoundOfSchedule(s);
    RequestIsBlind(c, k, h.peers);
    h' := LonelyRounds(h, k, Log2(s.n));
    LastIsSound(h');
    UnawareParts(h'.Last(), k, h.peers);
    CanAskNow(h'.Last(), k.i, h.peers);
    NodePeers(h'.Last(), k.i, h.peers);
    req := Asking(c, k.i);
    AskedOnce(c, h'.Last(), k.i, Log2(s.n));
  }

  ghost function Asking(c: Cluster, i: PeerId): SyncReq
    requires Enabled(c, Request(i))
  {
    RequestOf(c.nodes[i])
  }

  lemma AskedOnce(c: Cluster, c': Cluster, i: PeerId, m: nat)
    requires m > 0 && Enabled(c, Request(i)) && Enabled(c', Request(i)) && AskedAlong(c, c', i, m)
    requires AfterCalls(c.nodes[i].peers, m) == c.nodes[i].peers && c.nodes[i].peers.Valid()
    ensures ContactOf(c', i) == ContactOf(c, i) && c'.nodes[i].peers.r == c.nodes[i].peers.r
    ensures c'.nodes[i].peers.n == c.nodes[i].peers.n && c.requests + multiset{Asking(c, i)} <= c'.requests
  {
    hide AfterCalls;
  }

  ghost predicate AllBlind(reqs: seq<SyncReq>, k: Scene) { forall r :: r in reqs ==> Blind(r, k) }

  // Round and round.
  lemma {:induction false} Pile(h: History, k: Scene, m: nat) returns (h': History, reqs: seq<SyncReq>)
    requires h.Valid() && Unaware(h.Last(), k, h.peers) && Poised(h.Last(), k)
    ensures Continues(h, h') && Unaware(h'.Last(), k, h.peers) && Poised(h'.Last(), k)
    ensures |reqs| == m && AllBlind(reqs, k) && multiset(reqs) <= h'.Last().requests
  {
    hide IsRun, Unaware, Poised, Blind, Continues;
    if m == 0 {
      h', reqs := h, [];
      Stay(h);
    } else {
      var req;
      var h1, before := Pile(h, k, m - 1);
      ContinuesIsValid(h, h1);
      h', req := AskAround(h1, k);
      GoOn(h, h1, h');
      reqs := before + [req];
      assert multiset(reqs) == multiset(before) + multiset{req};
    }
  }

  // Answering

  // An answer carries just the event of `j`.
  lemma AnswerIsOneEvent(c: Cluster, k: Scene, req: SyncReq, events: seq<NetEvent>, peers: set<PeerId>)
    requires ClusterSound(c, peers) && Enabled(c, Answer(req, events)) && Blind(req, k) && Unaware(c, k, peers)
    ensures HashesOf(events) == {k.x}
  {
    UnawareParts(c, k, peers);
    hide ClusterSound, IsGossip, LeavesOf, Unaware, Light;
    AnswerCarries(c, req, events, k.x, peers);
    LeavesAreAGraph(peers);
    forall y | y in HashesOf(events) ensures y == k.x {
      SentIsHigh(c, k.j, req, events, y, peers);
    }
  }

  // What an answer carries is stored and no leaf.
  lemma SentIsHigh(c: Cluster, j: PeerId, req: SyncReq, events: seq<NetEvent>, y: EventHash, peers: set<PeerId>)
    requires ClusterSound(c, peers) && j in c.nodes && IsGossip(events, c.nodes[j].store.eventOf, req.gossipList)
    requires y in HashesOf(events)
    ensures y in c.nodes[j].store.event.Keys && HeightOf(y) > 0
  {
    hide ClusterSound, NodeSound, StoreSound, IsGossip;
    NodeAt(c, j, peers);
    NodePeersAreValid(c.nodes[j], j, c.dag, peers);
    var e :| e in events && NetHash(e) == y;
    SuffixIsStored(c.nodes[j], peers, req.gossipList, events, e);
    assert HeightOf(y) == e.height;
  }

  lemma AnswersQuietly(c: Cluster, req: SyncReq, events: seq<NetEvent>)
    ensures Quiet(c, Answer(req, events))
  {
  }

  lemma AnswerLeaves(c: Cluster, req: SyncReq, events: seq<NetEvent>, k: Scene, peers: set<PeerId>,
                     digest: EventHash -> nat)
    requires Enabled(c, Answer(req, events)) && Unaware(c, k, peers) && Blind(req, k)
    ensures var c' := Next(c, Answer(req, events), digest);
            && Unaware(c', k, peers) && c'.requests == c.requests - multiset{req} && c'.pending == c.pending
            && k.j in c.nodes && c'.replies == c.replies + multiset{ReplyTo(c.nodes[k.j], req, events)}
  {
    hide IsGossip, ReplyTo, SameSchedule, LeavesOf;
    AnswerEffect(c, req, events, digest);
    var c' := Next(c, Answer(req, events), digest);
    assert Same(c'.nodes[k.i], c.nodes[k.i]) && Same(c'.nodes[k.j], c.nodes[k.j]);
    forall l | l in c'.nodes ensures c'.nodes[l].txPool == [] {
      assert Same(c'.nodes[l], c.nodes[l]);
    }
  }

  ghost predicate Brings(reply: SyncReply, k: Scene) { reply.to == k.i && HashesOf(reply.events) == {k.x} }

  ghost predicate AllBring(replies: seq<SyncReply>, k: Scene) { forall r :: r in replies ==> Brings(r, k) }

  lemma AnswerOne(h: History, k: Scene, req: SyncReq) returns (h': History, reply: SyncReply)
    requires h.Valid() && h.Last().pending == map[] && Unaware(h.Last(), k, h.peers)
    requires Blind(req, k) && req in h.Last().requests
    ensures Continues(h, h') && h'.Last().pending == map[] && Unaware(h'.Last(), k, h.peers) && Brings(reply, k)
    ensures h'.Last().requests == h.Last().requests - multiset{req}
    ensures h'.Last().replies == h.Last().replies + multiset{reply}
  {
    hide IsRun, Next, ClusterSound, IsGossip, Unaware, HashesOf, Quiet, Light;
    LastIsSound(h);
    UnawareParts(h.Last(), k, h.peers);
    var events := SomeAnswer(h.Last(), k.j, req.gossipList, h.peers);
    AnswerIsOneEvent(h.Last(), k, req, events, h.peers);
    AnswersQuietly(h.Last(), req, events);
    AnswerLeaves(h.Last(), req, events, k, h.peers, h.digest);
    h' := Take(h, Answer(req, events));
    reply := ReplyTo(h.Last().nodes[k.j], req, events);
  }

  lemma {:induction false} AnswerAll(h: History, k: Scene, reqs: seq<SyncReq>)
    returns (h': History, replies: seq<SyncReply>)
    requires h.Valid() && h.Last().pending == map[] && Unaware(h.Last(), k, h.peers)
    requires AllBlind(reqs, k) && multiset(reqs) <= h.Last().requests
    ensures Continues(h, h') && h'.Last().pending == map[] && Unaware(h'.Last(), k, h.peers)
    ensures |replies| == |reqs| && AllBring(replies, k) && h.Last().replies + multiset(replies) <= h'.Last().replies
    decreases |reqs|
  {
    hide IsRun, Unaware, Blind, Continues, Brings;
    if reqs == [] {
      h', replies := h, [];
      Stay(h);
    } else {
      var req, rest := reqs[0], reqs[1..];
      HeadAndTail(reqs);
      var h1, reply := AnswerOne(h, k, req);
      ContinuesIsValid(h, h1);
      var more;
      h', more := AnswerAll(h1, k, rest);
      GoOn(h, h1, h');
      replies := [reply] + more;
      HeadAndTail(replies);
      assert replies[1..] == more;
    }
  }

  lemma HeadAndTail<T>(s: seq<T>)
    requires s != []
    ensures multiset(s) == multiset{s[0]} + multiset(s[1..])
    ensures forall x :: x in s[1..] ==> x in s
  {
    assert s == [s[0]] + s[1..];
  }

  // Delivering

  // Nothing that the node knows when it first learns of the event covers a frame.
  lemma NothingCovered(hs: set<EventHash>, k: Scene, peers: set<PeerId>)
    requires Closed(hs, peers) && OnLeaves(k, peers)
    requires forall y :: y in hs && Creator(y) == k.j ==> y in LeavesOf(peers)
    ensures StillOpen(k.x, hs + {k.x}, peers)
  {
    LeavesAreAGraph(peers);
    hide FrameOf, IsRoot, LeavesOf, Covers;
    forall w, g: FrameNumber | w in hs + {k.x} && Covers(w, g, peers) ensures g <= FrameOf(k.x, |peers|) {
      if w in hs {
        CoversFrom(w, k.j, g, peers);
        var r :| r in Ancestors(w) && IsRoot(r, |peers|) && Creator(r) == k.j && FrameOf(r, |peers|) >= g;
        ClosedHoldsAncestors(hs, peers, w);
      } else {
        CoversFrom(w, k.i, g, peers);
        var r :| r in Ancestors(w) && IsRoot(r, |peers|) && Creator(r) == k.i && FrameOf(r, |peers|) >= g;
        assert Ancestors(k.x) == {k.x} + Ancestors(SelfParent(k.x)) + Ancestors(OtherParent(k.x));
      }
    }
  }

  lemma CoversFrom(w: EventHash, c: PeerId, g: FrameNumber, peers: set<PeerId>)
    requires Covers(w, g, peers) && c in peers
    ensures SeesRootFrom(w, c, g, |peers|)
  {
  }

  lemma LowFrame(k: Scene, peers: set<PeerId>)
    requires OnLeaves(k, peers)
    ensures FrameOf(k.x, |peers|) <= 1
  {
    LeavesAreAGraph(peers);
    FrameRule(k.x, |peers|);
  }

  // How often node `i` has the event on record.
  ghost function Count(s: CoreState, x: EventHash, n: nat): nat {
    multiset(FrameIn(s.store.frame, FrameOf(x, n)))[RecordOf(x)]
  }

  // Node `i` has the event, still open, and `n` records of it.
  ghost predicate Holding(c: Cluster, k: Scene, peers: set<PeerId>, n: nat) {
    && k.i in c.nodes && k.x in c.nodes[k.i].store.event && CoreExact(c.nodes[k.i], peers)
    && StillOpen(k.x, c.nodes[k.i].store.event.Keys, peers) && OnLeaves(k, peers) && Light(c, k.x, k.gift)
    && c.pending == map[] && Count(c.nodes[k.i], k.x, |peers|) >= n
  }

  lemma DeliveryLeavesLight(c: Cluster, reply: SyncReply, x: EventHash, gift: seq<Transaction>, peers: set<PeerId>,
                            digest: EventHash -> nat)
    requires ClusterSound(c, peers) && Enabled(c, Deliver(reply)) && Light(c, x, gift)
    ensures Light(Next(c, Deliver(reply), digest), x, gift)
  {
    hide ClusterSound, Delivered, SameSchedule, Aside;
    DeliverEffect(c, reply, peers, digest);
    AsideKeepsPools(c, Next(c, Deliver(reply), digest), reply.to);
  }

  lemma DeliveryTakes(c: Cluster, reply: SyncReply, digest: EventHash -> nat)
    requires Enabled(c, Deliver(reply))
    ensures Next(c, Deliver(reply), digest).replies == c.replies - multiset{reply}
  {
    hide Delivered;
  }

  lemma DeliversQuietly(c: Cluster, reply: SyncReply, i: PeerId)
    requires reply.to == i && i in c.nodes && !Stale(c.nodes[i], reply)
    ensures Quiet(c, Deliver(reply))
  {
  }

  // The first delivery brings the event.
  lemma FirstDelivery(h: History, k: Scene, reply: SyncReply) returns (h': History)
    requires h.Valid() && h.Last().pending == map[] && Unaware(h.Last(), k, h.peers)
    requires CoreExact(h.Last().nodes[k.i], h.peers) && Brings(reply, k) && reply in h.Last().replies
    ensures Continues(h, h') && Holding(h'.Last(), k, h.peers, 1)
    ensures h'.Last().replies == h.Last().replies - multiset{reply}
  {
    hide IsRun, Next, ClusterSound, CoreExact, Unaware, HashesOf, StillOpen, Light, FrameOf, Continues, Enabled, Quiet;
    var c := h.Last();
    LastIsSound(h);
    UnawareParts(c, k, h.peers);
    FirstDeliveryEffect(c, k, reply, h.peers, h.digest);
    h' := Take(h, Deliver(reply));
    ContinuesIsValid(h, h');
    LastIsSound(h');
    ExactStays(h, h', k.i, |h'.steps|);
    RecordedOnceAtLeast(h'.Last(), k.i, k.x, h.peers);
  }

  lemma FirstDeliveryEffect(c: Cluster, k: Scene, reply: SyncReply, peers: set<PeerId>, digest: EventHash -> nat)
    requires ClusterSound(c, peers) && c.pending == map[] && Unaware(c, k, peers)
    requires Brings(reply, k) && reply in c.replies
    ensures Enabled(c, Deliver(reply)) && Quiet(c, Deliver(reply))
    ensures var c' := Next(c, Deliver(reply), digest);
            && k.i in c'.nodes && k.x in c'.nodes[k.i].store.event && Light(c', k.x, k.gift)
            && StillOpen(k.x, c'.nodes[k.i].store.event.Keys, peers) && c'.pending == map[]
            && c'.replies == c.replies - multiset{reply}
  {
    hide ClusterSound, Next, Unaware, StillOpen, Light, LeavesOf, HashesOf, Aside, SameSchedule;
    FirstIsOpen(c, k, reply, peers);
    DeliverEffect(c, reply, peers, digest);
    DeliveryLeavesLight(c, reply, k.x, k.gift, peers, digest);
    DeliveryTakes(c, reply, digest);
    DeliversQuietly(c, reply, k.i);
    AsideKeepsKeys(c, Next(c, Deliver(reply), digest), k.i);
  }

  lemma FirstIsOpen(c: Cluster, k: Scene, reply: SyncReply, peers: set<PeerId>)
    requires ClusterSound(c, peers) && Unaware(c, k, peers) && Brings(reply, k)
    ensures k.i in c.nodes && Light(c, k.x, k.gift) && !Stale(c.nodes[k.i], reply)
    ensures StillOpen(k.x, c.nodes[k.i].store.event.Keys + {k.x}, peers)
  {
    UnawareParts(c, k, peers);
    NewToUnaware(c, k, peers);
    hide ClusterSound, Unaware, StillOpen, Light, HashesOf;
    StillOpenThere(c, k, peers);
  }

  lemma NewToUnaware(c: Cluster, k: Scene, peers: set<PeerId>)
    requires Unaware(c, k, peers)
    ensures k.i in c.nodes && k.x !in c.nodes[k.i].store.event.Keys
  {
    LeavesAreAGraph(peers);
  }

  lemma StillOpenThere(c: Cluster, k: Scene, peers: set<PeerId>)
    requires ClusterSound(c, peers) && Unaware(c, k, peers)
    ensures k.i in c.nodes && StillOpen(k.x, c.nodes[k.i].store.event.Keys + {k.x}, peers)
  {
    hide ClusterSound, NodeSound, LeavesOf, StillOpen, Light;
    NodeAt(c, k.i, peers);
    NodePeersAreValid(c.nodes[k.i], k.i, c.dag, peers);
    ClosedGraph(c.nodes[k.i].store.event.Keys, peers);
    NothingCovered(c.nodes[k.i].store.event.Keys, k, peers);
  }

  lemma RecordedOnceAtLeast(c: Cluster, i: PeerId, x: EventHash, peers: set<PeerId>)
    requires ClusterSound(c, peers) && i in c.nodes && CoreExact(c.nodes[i], peers) && x in c.nodes[i].store.event
    ensures Count(c.nodes[i], x, |peers|) >= 1
  {
    hide ClusterSound, NodeSound, CoreExact, FrameOf;
    NodeAt(c, i, peers);
    NodePeersAreValid(c.nodes[i], i, c.dag, peers);
    StoredIsRecorded(c.nodes[i], x, peers);
  }

  // Every further one brings it again.
  lemma Strike(h: History, k: Scene, reply: SyncReply, n: nat) returns (h': History)
    requires h.Valid() && Holding(h.Last(), k, h.peers, n) && Brings(reply, k) && reply in h.Last().replies
    ensures h'.Valid() && Holding(h'.Last(), k, h.peers, n + 1) && Enabled(h.Last(), Deliver(reply))
    ensures h' == h.(run := h.run + [Next(h.Last(), Deliver(reply), h.digest)], steps := h.steps + [Deliver(reply)])
    ensures Hits(h.Last(), Deliver(reply), k.i) && h'.Last().replies == h.Last().replies - multiset{reply}
  {
    hide IsRun, Next, ClusterSound, CoreExact, LeavesOf, StillOpen, Light, FrameOf;
    var c := h.Last();
    LastIsSound(h);
    DeliverEffect(c, reply, h.peers, h.digest);
    DeliveryLeavesLight(c, reply, k.x, k.gift, h.peers, h.digest);
    DeliveryTakes(c, reply, h.digest);
    var hs := c.nodes[k.i].store.event.Keys;
    assert hs + HashesOf(reply.events) == hs;
    StepIsExact(c, Deliver(reply), k.i, h.peers, h.digest);
    DeliveryRepeats(c, reply, k, h.peers, h.digest);
    h' := Append(h, Deliver(reply));
  }

  // One more record.
  lemma DeliveryRepeats(c: Cluster, reply: SyncReply, k: Scene, peers: set<PeerId>, digest: EventHash -> nat)
    requires ClusterSound(c, peers) && Enabled(c, Deliver(reply)) && Brings(reply, k) && k.x in c.nodes[k.i].store.event
    requires CoreExact(c.nodes[k.i], peers) && OnLeaves(k, peers)
    ensures k.i in Next(c, Deliver(reply), digest).nodes
    ensures Count(Next(c, Deliver(reply), digest).nodes[k.i], k.x, |peers|) >= Count(c.nodes[k.i], k.x, |peers|) + 1
  {
    hide ClusterSound, NodeSound, StoreExact, LeavesOf, Inserted, FrameOf, Deliverable, Applied, FramesSound;
    var s := c.nodes[k.i];
    var heard := s.Heard(reply.lamportTime);
    NodeAt(c, k.i, peers);
    ReplyIsTrue(c, reply, peers);
    NodePeersAreValid(s, k.i, c.dag, peers);
    SoundIsRecorded(s);
    var e := OneEvent(reply.events, k.x, s.store.event.Keys, c.dag);
    NetRoundTrip(k.x, 0);
    ClosedGraph(s.store.event.Keys, peers);
    ClosedIsInner(s.store.event.Keys, peers, k.x);
    StaleInsertionRepeats(heard, k.x, peers, digest);
    OneApplied(heard, reply.events, e, digest);
  }

  lemma SoundIsRecorded(s: CoreState)
    requires FramesSound(s)
    ensures EventsRecorded(s.store.event, s.store.frame)
  {
  }

  // Events of one hash are one event.
  lemma OneEvent(events: seq<NetEvent>, x: EventHash, hs: set<EventHash>, dag: set<EventHash>) returns (e: NetEvent)
    requires HashesOf(events) == {x} && Deliverable(events, hs, dag)
    ensures events == [e] && NetHash(e) == x && e == NetAt(x)
  {
    var y :| y in events && NetHash(y) == x;
    e := y;
    var u, v := events[0], if |events| > 1 then events[1] else y;
    forall z | z in events ensures z == NetAt(x) {
      assert NetHash(z) in HashesOf(events);
      NetRoundTrip(x, 0);
    }
    assert u in events && v in events;
    if |events| > 1 { assert false; }
  }

  lemma OneApplied(s: CoreState, events: seq<NetEvent>, e: NetEvent, digest: EventHash -> nat)
    requires events == [e]
    ensures Applied(s, events, digest).store == Inserted(s, e.ToEvent(), digest).store
  {
    hide Inserted;
    assert Applied(s, events, digest) == Applied(AppliedOne(s, e, digest), [], digest);
  }

  // `h'` goes on from `h` by deliveries that hit `i`.
  ghost predicate Struck(h: History, h': History, i: PeerId) {
    && h.Valid() && h'.Valid()
    && h'.lists == h.lists && h'.peers == h.peers && h'.digest == h.digest && h'.pay == h.pay && h'.base == h.base
    && |h.steps| <= |h'.steps| && h'.run[..|h.run|] == h.run && h'.steps[..|h.steps|] == h.steps
    && forall m {:trigger h'.steps[m]} :: |h.steps| <= m < |h'.steps| ==>
         h'.steps[m].Deliver? && Hits(h'.run[m], h'.steps[m], i)
  }

  lemma NotStruck(h: History, i: PeerId)
    requires h.Valid()
    ensures Struck(h, h, i)
  {
    hide IsRun;
  }

  lemma StruckOnce(h: History, h': History, reply: SyncReply, i: PeerId)
    requires h.Valid() && h'.Valid() && Enabled(h.Last(), Deliver(reply)) && Hits(h.Last(), Deliver(reply), i)
    requires h' == h.(run := h.run + [Next(h.Last(), Deliver(reply), h.digest)], steps := h.steps + [Deliver(reply)])
    ensures Struck(h, h', i)
  {
    hide IsRun, Hits, Next, Enabled;
    forall m | |h.steps| <= m < |h'.steps| ensures h'.steps[m].Deliver? && Hits(h'.run[m], h'.steps[m], i) {
      assert m == |h.steps| && h'.run[m] == h.Last();
    }
  }

  lemma StruckOn(h: History, h': History, h'': History, i: PeerId)
    requires Struck(h, h', i) && Struck(h', h'', i)
    ensures Struck(h, h'', i)
  {
    hide IsRun, Hits;
    assert h''.run[..|h.run|] == h''.run[..|h'.run|][..|h.run|];
    assert h''.steps[..|h.steps|] == h''.steps[..|h'.steps|][..|h.steps|];
    forall m | |h.steps| <= m < |h''.steps| ensures h''.steps[m].Deliver? && Hits(h''.run[m], h''.steps[m], i) {
      if m < |h'.steps| {
        assert h''.steps[m] == h'.steps[m] && h''.run[m] == h'.run[m];
      }
    }
  }

  lemma {:induction false} StrikeAll(h: History, k: Scene, replies: seq<SyncReply>, n: nat) returns (h': History)
    requires h.Valid() && Holding(h.Last(), k, h.peers, n)
    requires AllBring(replies, k) && multiset(replies) <= h.Last().replies
    ensures Struck(h, h', k.i) && |h'.steps| == |h.steps| + |replies|
    ensures Holding(h'.Last(), k, h.peers, n + |replies|)
    decreases |replies|
  {
    hide IsRun, Holding, Brings, Next, Enabled, Hits, Struck;
    if replies == [] {
      h' := h;
      NotStruck(h, k.i);
    } else {
      var reply, rest := replies[0], replies[1..];
      HeadAndTail(replies);
      var h1 := Strike(h, k, reply, n);
      StruckOnce(h, h1, reply, k.i);
      h' := StrikeAll(h1, k, rest, n + 1);
      StruckOn(h, h1, h', k.i);
    }
  }

  // The runs

  // Hits of `i` leave all others unhit.
  lemma OnlyOneHit(h: History, h': History, i: PeerId)
    requires Struck(h, h', i) && |h.steps| < |h'.steps| && NoPolls(h)
    requires forall l :: Unhit(h.run, h.steps, l, |h.steps|)
    ensures forall l :: Unhit(h'.run, h'.steps, l, |h'.steps|) <==> l != i
    ensures NoPolls(h') && h'.run[0] == h.run[0]
  {
    hide IsRun, Stale;
    assert h'.run[0] == h'.run[..|h.run|][0];
    var first := |h.steps|;
    forall l ensures Unhit(h'.run, h'.steps, l, |h'.steps|) <==> l != i {
      assert Unhit(h.run, h.steps, l, |h.steps|);
      assert forall m :: 0 <= m < first ==> h'.steps[m] == h'.steps[..first][m] && h'.run[m] == h'.run[..|h.run|][m];
      assert h'.steps[first].Deliver? && Hits(h'.run[first], h'.steps[first], i);
    }
    forall m | 0 <= m < |h'.steps| ensures !h'.steps[m].Consume? {
      if m < first { assert h'.steps[m] == h'.steps[..first][m]; }
    }
  }

  lemma StartsAlike(h: History, c: Cluster, k: Scene)
    requires h.Valid() && h.Last().pending == map[] && Unaware(h.Last(), k, h.peers)
    requires k.i in c.nodes && SameSchedule(h.Last().nodes[k.i].peers, c.nodes[k.i].peers)
    requires Enabled(c, Request(k.i)) && ContactOf(c, k.i) == k.j
    requires c.nodes[k.i].peers.Valid() && c.nodes[k.i].peers.n >= 2 && c.nodes[k.i].peers.r == c.nodes[k.i].peers.n / 2
    ensures Poised(h.Last(), k)
  {
    hide IsRun, ClusterSound, Light, LeavesOf;
    LastIsSound(h);
    NodePeers(h.Last(), k.i, h.peers);
  }

  // From every start of two nodes or more, for every node, a run of procedure A hits it and nobody else:
  // before the first of its requests to its contact is answered the node goes `m` times round its schedule,
  // an event at each call. It ends with `m` records of one event or more, and its numbers are exact all the
  // same.
  lemma HitRun(c: Cluster, lists: Lists, peers: set<PeerId>, digest: EventHash -> nat, i: PeerId,
               gift: seq<Transaction>, m: nat) returns (h: History, k: Scene)
    requires Initial(c, lists, peers) && |peers| >= 2 && i in peers && |gift| <= 1 && m >= 2
    ensures h.Valid() && h.run[0] == c && h.lists == lists && h.peers == peers && h.digest == digest && NoPolls(h)
    ensures forall l :: Unhit(h.run, h.steps, l, |h.steps|) <==> l != i
    ensures k.i == i && k.gift == gift && Holding(h.Last(), k, peers, m)
  {
    hide Initial, IsRun, Next, Enabled, ContactOf, ClusterSound, CoreExact, CoreTrue, Unaware, Continues, Holding;
    hide Poised, Brings, Blind, Unhit, Hits, SameSchedule, Struck, NoPolls;
    var h0 := Begin(c, lists, peers, digest, NoFees());
    assert NoPolls(h0) by { NoStepsNoPolls(h0); }
    InitialIsSound(c, lists, peers, digest);
    TrueIsExact(c.nodes[i], peers, digest);
    LeavesOnly(c, lists, peers, i);
    NothingPending(c, lists, peers);
    CanAskNow(c, i, peers);
    var h1;
    h1, k := FirstEvent(h0, c, i, ContactOf(c, i), gift);
    ContinuesIsValid(h0, h1);
    StartsAlike(h1, c, k);
    var h2, reqs := Pile(h1, k, m);
    ContinuesIsValid(h1, h2);
    PoisedIsSettled(h2.Last(), k);
    var h3, replies := AnswerAll(h2, k, reqs);
    ContinuesIsValid(h2, h3);
    GoOn(h0, h1, h2);
    GoOn(h0, h2, h3);
    ContinuesIsValid(h0, h3);
    ExactStays(h0, h3, i, |h3.steps|);
    HeadAndTail(replies);
    var h4 := FirstDelivery(h3, k, replies[0]);
    ContinuesIsValid(h3, h4);
    GoOn(h0, h3, h4);
    ContinuesIsValid(h0, h4);
    AllUnhit(h0, h4);
    StateStays(h0, h4);
    ContinuesNoPolls(h0, h4);
    h := StrikeAll(h4, k, replies[1..], 1);
    StruckParts(h4, h, i);
    OnlyOneHit(h4, h, i);
  }

  function NoFees(): FrameNumber -> Option<Transaction> { (f: FrameNumber) => None }

  lemma NoStepsNoPolls(h: History)
    requires h.steps == []
    ensures NoPolls(h)
  {
  }

  lemma PoisedIsSettled(c: Cluster, k: Scene)
    requires Poised(c, k)
    ensures c.pending == map[]
  {
  }

  lemma StruckParts(h: History, h': History, i: PeerId)
    requires Struck(h, h', i)
    ensures h'.Valid() && h'.lists == h.lists && h'.peers == h.peers && h'.digest == h.digest
  {
    hide IsRun;
  }
}
