/** A meeting: a node asks its contact, is answered, and creates an event on both tips. */
module Meetings {
  import opened Wrappers
  import opened Events
  import opened Peers
  import opened Stores
  import opened Dag
  import opened Cores
  import opened Refinement
  import opened Protocol
  import opened Nodes
  import opened Steps
  import opened Cluster
  import opened Runs
  import opened Exchanges
  import opened Schedules
  import opened Histories

  // Node `i` has asked `j` and has been told all that `j` knows.
  ghost predicate Fetched(c: Cluster, c': Cluster, i: PeerId, j: PeerId) {
    && i in c.nodes && j in c.nodes && i != j && Aside(c, c', i)
    && c'.dag == c.dag && c'.pending == c.pending[i := j]
    && c'.nodes[i].store.event.Keys == c.nodes[i].store.event.Keys + c.nodes[j].store.event.Keys
    && c'.nodes[i].txPool == c.nodes[i].txPool
    && SameSchedule(c'.nodes[i].peers, c.nodes[i].peers.Advanced())
  }

  lemma Fetch(h: History, i: PeerId) returns (h': History, j: PeerId)
    requires h.Valid() && i in h.peers && i !in h.Last().pending
    ensures Continues(h, h') && j in h.peers && Fetched(h.Last(), h'.Last(), i, j)
    ensures Enabled(h.Last(), Request(i)) && ContactOf(h.Last(), i) == j
  {
    hide IsRun, ClusterSound, Next, IsGossip, Hits, Aside, GossipOf, Asked, Answered, ReplyOf, Fetched, CanCreate;
    var c := h.Last();
    LastIsSound(h);
    ProcedureAFindsItsParents(c, i, h.peers);
    j := RequestOf(c.nodes[i]).to;
    HasNode(c, h.peers, j);
    var events := SomeAnswer(c, j, GossipOf(c.nodes[i].peers.peers), h.peers);
    ExchangeUnitesKnowledge(c, i, events, h.peers, h.digest);
    FetchSteps(c, i, events, h.peers, h.digest);
    h' := Take(h, Request(i));
    var h2 := Take(h', Answer(RequestOf(c.nodes[i]), events));
    GoOn(h, h', h2);
    var h3 := Take(h2, Deliver(ReplyOf(c, i, events, h.digest)));
    GoOn(h, h2, h3);
    h' := h3;
  }

  lemma FetchSteps(c: Cluster, i: PeerId, events: seq<NetEvent>, peers: set<PeerId>, digest: EventHash -> nat)
    requires ClusterSound(c, peers) && CanExchange(c, i, events) && RequestOf(c.nodes[i]).to != i
    ensures var req, delivery := RequestOf(c.nodes[i]), Deliver(ReplyOf(c, i, events, digest));
            var c1, c2 := Asked(c, i, digest), Answered(c, i, events, digest);
            && c1 == Next(c, Request(i), digest) && Quiet(c, Request(i))
            && Enabled(c1, Answer(req, events)) && Quiet(c1, Answer(req, events))
            && c2 == Next(c1, Answer(req, events), digest)
            && Enabled(c2, delivery) && Quiet(c2, delivery)
            && Fetched(c, Next(c2, delivery, digest), i, req.to)
  {
    hide ClusterSound, IsGossip, Next, RequestOf, ReplyOf, SameSchedule, Same, NodeSound, Stale;
    ExchangeUnitesKnowledge(c, i, events, peers, digest);
    AskingLeavesStores(c, i, events, digest);
    AnsweringLeavesStores(c, i, events, digest);
    AnswerBringsTheDifference(c, i, events, peers);
    AnsweredIsSound(c, i, events, peers, digest);
    var req, reply := RequestOf(c.nodes[i]), ReplyOf(c, i, events, digest);
    var c1, c2 := Asked(c, i, digest), Answered(c, i, events, digest);
    RequestEffect(c, i, digest);
    AnswerEffect(c1, req, events, digest);
    DeliverEffect(c2, reply, peers, digest);
    var c3 := Next(c2, Deliver(reply), digest);
    AsideAgain(c, c1, c2, i);
    AsideAgain(c, c2, c3, i);
    SchedulesChain(c3.nodes[i].peers, c2.nodes[i].peers, c1.nodes[i].peers) by {
      assert Same(c2.nodes[i], c1.nodes[i]);
      SameParts(c2.nodes[i], c1.nodes[i]);
    }
    SameParts(c2.nodes[i], c1.nodes[i]);
  }

  lemma SameParts(a: CoreState, b: CoreState)
    requires Same(a, b)
    ensures a.store == b.store && a.txPool == b.txPool && SameSchedule(a.peers, b.peers)
  {
  }

  lemma SchedulesChain(a: PeersState, b: PeersState, d: PeersState)
    requires SameSchedule(a, b) && SameSchedule(b, d)
    ensures SameSchedule(a, d)
  {
  }

  // Paying

  function Due(pay: FrameNumber -> Option<Transaction>, f: FrameNumber): seq<Transaction> {
    match pay(f)
    case None => []
    case Some(tx) => [tx]
  }

  // Every event outside `base` carries what is due for its frame, leaves nothing, and no pool holds anything.
  ghost predicate Paid(c: Cluster, pay: FrameNumber -> Option<Transaction>, base: set<EventHash>, n: nat) {
    && (forall k {:trigger c.nodes[k]} :: k in c.nodes ==> c.nodes[k].txPool == [])
    && (forall x :: x in c.dag && x !in base ==> Payload(x) == if IsInner(x) then Due(pay, FrameOf(x, n)) else [])
  }

  ghost predicate Topped(c: Cluster, c': Cluster, i: PeerId, more: seq<Transaction>) {
    && i in c.nodes && Aside(c, c', i) && c'.dag == c.dag && c'.pending == c.pending
    && c'.nodes[i] == c.nodes[i].(txPool := c.nodes[i].txPool + more)
  }

  lemma Top(h: History, i: PeerId, f: FrameNumber) returns (h': History)
    requires h.Valid() && i in h.peers
    ensures Continues(h, h') && Topped(h.Last(), h'.Last(), i, Due(h.pay, f))
  {
    hide IsRun, ClusterSound, Next, Aside, AllConserved;
    LastIsSound(h);
    CanSubmit(h.Last(), i, h.peers);
    if h.pay(f).None? {
      h' := h;
      Stay(h);
      NothingTopped(h.Last(), i);
    } else {
      SubmitEffect(h.Last(), i, h.pay(f).value, h.digest);
      h' := Take(h, Submit(i, h.pay(f).value));
    }
  }

  lemma CanSubmit(c: Cluster, i: PeerId, peers: set<PeerId>)
    requires ClusterSound(c, peers) && i in peers
    ensures i in c.nodes && forall tx :: Enabled(c, Submit(i, tx))
  {
    assert ConservedAt(c.nodes, c.submitted, i);
  }

  lemma NothingTopped(c: Cluster, i: PeerId)
    requires i in c.nodes
    ensures Topped(c, c, i, [])
  {
    hide Same;
    forall k | k in c.nodes ensures Same(c.nodes[k], c.nodes[k]) { SameSelf(c.nodes[k]); }
  }

  // The meeting

  ghost predicate Settled(c: Cluster) { c.pending == map[] }

  lemma FrameOfSiblings(a: EventHash, b: EventHash, n: nat)
    requires IsInner(a) && IsInner(b) && SelfParent(a) == SelfParent(b) && OtherParent(a) == OtherParent(b)
    ensures FrameOf(a, n) == FrameOf(b, n)
  {
    FrameRule(a, n);
    FrameRule(b, n);
    assert ParentRoots(a, FrameOf(SelfParent(a), n), n) == ParentRoots(b, FrameOf(SelfParent(b), n), n);
  }

  // What a meeting of `i` with `j` leaves: one more event, on both tips, and nothing else of note.
  ghost predicate HaveMet(c: Cluster, c': Cluster, i: PeerId, j: PeerId, tips: Tips, x: EventHash, peers: set<PeerId>) {
    && i in c.nodes && i in c'.nodes && i in tips && j in tips && Settled(c')
    && AreTips(c', tips[i := x], peers)
    && IsInner(x) && SelfParent(x) == tips[i] && OtherParent(x) == tips[j] && Creator(x) == i
    && SameSchedule(c'.nodes[i].peers, c.nodes[i].peers.Advanced())
    && forall k {:trigger c'.nodes[k]} :: k in c.nodes && k != i ==>
         k in c'.nodes && SameSchedule(c'.nodes[k].peers, c.nodes[k].peers)
  }

  lemma Meet(h: History, tips: Tips, i: PeerId) returns (h': History, x: EventHash, j: PeerId)
    requires h.Valid() && i in h.peers && Settled(h.Last()) && AreTips(h.Last(), tips, h.peers)
    ensures Continues(h, h') && j in h.peers && HaveMet(h.Last(), h'.Last(), i, j, tips, x, h.peers)
    ensures Enabled(h.Last(), Request(i)) && ContactOf(h.Last(), i) == j
    ensures Paid(h.Last(), h.pay, h.base, |h.peers|) ==> Paid(h'.Last(), h.pay, h.base, |h.peers|)
  {
    hide IsRun, ClusterSound, Next, AreTips, Paid, Enabled, FrameOf, EventMade, HaveMet, Topped, Fetched, ContactOf;
    var h1;
    h1, j := Fetch(h, i);
    LastIsSound(h);
    LastIsSound(h1);
    CanCreateNow(h.Last(), h1.Last(), i, j, h.peers);
    var f := FrameOf(EventMade(h1.Last(), i, j), |h.peers|);
    var h2 := Top(h1, i, f);
    LastIsSound(h2);
    CanStillCreate(h1.Last(), h2.Last(), i, j, Due(h.pay, f), h.peers);
    x := EventMade(h2.Last(), i, j);
    CreateIsQuiet(h2.Last(), i, j);
    h' := Take(h2, Create(i, j));
    GoOn(h, h1, h2);
    GoOn(h, h2, h');
    MetAll(h.Last(), h1.Last(), h2.Last(), h'.Last(), i, j, tips, Due(h.pay, f), h.peers, h.digest);
    if Paid(h.Last(), h.pay, h.base, |h.peers|) {
      FrameOfSiblings(x, EventMade(h1.Last(), i, j), |h.peers|);
      MetPaid(h.Last(), h1.Last(), h2.Last(), h'.Last(), i, j, f, h.pay, h.base, h.peers, h.digest);
    }
  }

  lemma NewEventIsInner(c: Cluster, i: PeerId, j: PeerId, peers: set<PeerId>)
    requires ClusterSound(c, peers) && Enabled(c, Create(i, j))
    ensures IsInner(EventMade(c, i, j))
  {
    hide ClusterSound, NodeSound, NewEvent, Fits, CanCreate;
    NodeAt(c, i, peers);
    NodeAt(c, j, peers);
    NewEventIsFresh(c.nodes[i], i, c.dag, peers, j);
    var x, hs := NewEvent(c.nodes[i], j).hash, c.nodes[i].store.event.Keys;
    assert Fits(x, hs, peers) by { assert Extends(x, hs, peers); }
    NodePeersAreValid(c.nodes[i], i, c.dag, peers);
    ClosedGraph(hs, peers);
    FitsHasParents(x, hs, peers);
  }

  lemma CreateIsQuiet(c: Cluster, i: PeerId, j: PeerId)
    ensures Quiet(c, Create(i, j))
  {
  }

  lemma CanCreateNow(c: Cluster, c': Cluster, i: PeerId, j: PeerId, peers: set<PeerId>)
    requires Fetched(c, c', i, j) && ClusterSound(c', peers) && i in peers && |peers| >= 2
    ensures Enabled(c', Create(i, j)) && IsInner(EventMade(c', i, j))
  {
    hide ClusterSound, Aside, CanCreate, EventMade;
    ProcedureAFindsItsParents(c', i, peers);
    NewEventIsInner(c', i, j, peers);
  }

  // With more in the pool the event is another one on the same parents.
  lemma CanStillCreate(c: Cluster, c': Cluster, i: PeerId, j: PeerId, more: seq<Transaction>, peers: set<PeerId>)
    requires Topped(c, c', i, more) && Enabled(c, Create(i, j)) && ClusterSound(c', peers) && i in peers && |peers| >= 2
    ensures Enabled(c', Create(i, j)) && IsInner(EventMade(c', i, j))
    ensures SelfParent(EventMade(c', i, j)) == SelfParent(EventMade(c, i, j))
    ensures OtherParent(EventMade(c', i, j)) == OtherParent(EventMade(c, i, j))
  {
    hide ClusterSound, Aside;
    ProcedureAFindsItsParents(c', i, peers);
    NewEventIsInner(c', i, j, peers);
  }

  lemma TipsThroughout(c: Cluster, c1: Cluster, c2: Cluster, i: PeerId, j: PeerId, tips: Tips, more: seq<Transaction>,
                       peers: set<PeerId>)
    requires ClusterSound(c, peers) && i in peers && j in peers && AreTips(c, tips, peers)
    requires Fetched(c, c1, i, j) && Topped(c1, c2, i, more)
    ensures i in c2.nodes && AreTips(c2, tips, peers) && tips[j] in c2.nodes[i].store.event
  {
    hide ClusterSound, NodeSound, Aside, IsHead;
    NodeAt(c, i, peers);
    NodeAt(c, j, peers);
    NodePeersAreValid(c.nodes[i], i, c.dag, peers);
    NodePeersAreValid(c.nodes[j], j, c.dag, peers);
    assert IsTip(c, j, tips[j]);
    TipsStay(c, c1, tips, peers, i);
    TipsStay(c1, c2, tips, peers, i);
    assert tips[j] in c1.nodes[i].store.event.Keys;
  }

  lemma MetAll(c: Cluster, c1: Cluster, c2: Cluster, c': Cluster, i: PeerId, j: PeerId, tips: Tips,
               more: seq<Transaction>, peers: set<PeerId>, digest: EventHash -> nat)
    requires ClusterSound(c, peers) && ClusterSound(c2, peers) && Settled(c) && AreTips(c, tips, peers)
    requires Fetched(c, c1, i, j) && Topped(c1, c2, i, more) && i in peers && j in peers
    requires Enabled(c2, Create(i, j)) && c' == Next(c2, Create(i, j), digest) && IsInner(EventMade(c2, i, j))
    ensures HaveMet(c, c', i, j, tips, EventMade(c2, i, j), peers)
  {
    hide ClusterSound, Next, AreTips, Enabled, EventMade, SameSchedule, Same, Aside;
    TipsThroughout(c, c1, c2, i, j, tips, more, peers);
    ParentsAreTips(c2, i, j, tips, peers);
    TipAfterCreation(c2, i, j, tips, peers, digest);
    CreateEffect(c2, i, j, peers, digest);
    TipsAreKnown(c, tips, peers, i);
    TipsAreKnown(c, tips, peers, j);
    AsideAgain(c, c1, c2, i);
    AsideAgain(c, c2, c', i);
    AsideKeepsKeys(c, c', i);
    SchedulesChain(c'.nodes[i].peers, c2.nodes[i].peers, c.nodes[i].peers.Advanced());
    AsideKeepsSchedules(c, c', i);
    assert c.pending[i := j] - {i} == map[];
  }

  lemma AsideKeepsSchedules(c: Cluster, c': Cluster, i: PeerId)
    requires Aside(c, c', i)
    ensures forall k {:trigger c'.nodes[k]} :: k in c.nodes && k != i ==>
              k in c'.nodes && SameSchedule(c'.nodes[k].peers, c.nodes[k].peers)
    ensures forall k {:trigger c'.nodes[k]} :: k in c.nodes && k != i ==>
              k in c'.nodes && c'.nodes[k].txPool == c.nodes[k].txPool
  {
    hide SameSchedule;
  }

  lemma TipsAreKnown(c: Cluster, tips: Tips, peers: set<PeerId>, k: PeerId)
    requires ClusterSound(c, peers) && AreTips(c, tips, peers) && k in peers
    ensures k in tips && tips[k].HashOf?
  {
    hide ClusterSound;
    TipsAreEvents(c, tips, peers, k);
  }

  lemma MetPaid(c: Cluster, c1: Cluster, c2: Cluster, c': Cluster, i: PeerId, j: PeerId, f: FrameNumber,
                pay: FrameNumber -> Option<Transaction>, base: set<EventHash>, peers: set<PeerId>,
                digest: EventHash -> nat)
    requires ClusterSound(c2, peers) && Fetched(c, c1, i, j) && Topped(c1, c2, i, Due(pay, f))
    requires Enabled(c2, Create(i, j)) && c' == Next(c2, Create(i, j), digest) && Paid(c, pay, base, |peers|)
    requires IsInner(EventMade(c2, i, j)) && FrameOf(EventMade(c2, i, j), |peers|) == f
    ensures Paid(c', pay, base, |peers|)
  {
    hide ClusterSound, Next, SameSchedule, FrameOf, Aside, Enabled, EventMade;
    CreateEffect(c2, i, j, peers, digest);
    PayloadOfMade(c2, i, j);
    AsideAgain(c, c1, c2, i);
    AsideAgain(c, c2, c', i);
    AsideKeepsSchedules(c, c', i);
    AsideKeepsKeys(c, c', i);
    TakesAll(c2.nodes[i]);
    assert c2.nodes[i].txPool == Due(pay, f);
    forall k | k in c'.nodes ensures c'.nodes[k].txPool == [] {
      if k != i { assert c'.nodes[k].txPool == c.nodes[k].txPool; }
    }
  }

  lemma AsideKeepsKeys(c: Cluster, c': Cluster, i: PeerId)
    requires Aside(c, c', i)
    ensures c'.nodes.Keys == c.nodes.Keys
  {
  }

  lemma PayloadOfMade(c: Cluster, i: PeerId, j: PeerId)
    requires Enabled(c, Create(i, j))
    ensures i in c.nodes && Payload(EventMade(c, i, j)) == c.nodes[i].NextTransactions().0
  {
  }

  lemma TakesAll(s: CoreState)
    requires |s.txPool| <= 1
    ensures s.NextTransactions() == (s.txPool, [])
  {
    assert s.txPool[..|s.txPool|] == s.txPool && s.txPool[|s.txPool|..] == [];
  }
}
