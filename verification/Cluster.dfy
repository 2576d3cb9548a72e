/** A cluster of nodes exchanging events by gossip, as a state machine over whole runs.

    Messages travel asynchronously: a request or a reply may be delayed for any time, overtaken or lost. A
    reply is delivered whatever the receiver has come to know in the meantime, so that some of its events may
    be stored already. `ClusterSound` holds all the same; whether a node's frames can be trusted depends on
    what was delivered to it, and on nothing that happened to other nodes. */
module Cluster {
  import opened Events
  import opened Peers
  import opened Stores
  import opened Dag
  import opened Cores
  import opened Refinement
  import opened Soundness
  import opened Protocol
  import opened Nodes
  import opened Steps
  import opened Stream

  // `pending` names the contact that a node has sent a request to and not yet created an event on. `dag`
  // holds every event ever created, `submitted` every transaction ever handed to a node and `delivered`
  // everything its consumer has received; no node can see these.
  datatype Cluster = Cluster(
    nodes: map<PeerId, CoreState>, pending: map<PeerId, PeerId>,
    requests: multiset<SyncReq>, replies: multiset<SyncReply>,
    dag: set<EventHash>, submitted: map<PeerId, seq<Transaction>>, delivered: map<PeerId, seq<Item>>)

  datatype Step =
    | Submit(node: PeerId, tx: Transaction)
    | Request(node: PeerId)
    | Create(node: PeerId, other: PeerId)
    | Answer(req: SyncReq, events: seq<NetEvent>)
    | Deliver(reply: SyncReply)
    | Consume(node: PeerId)

  // A node's requests and creations alternate, each event being created on the contact last asked; answers,
  // deliveries, submissions and polls may come between them.
  ghost predicate Enabled(c: Cluster, step: Step) {
    match step
    case Submit(i, _) => i in c.nodes && i in c.submitted
    case Request(i) => i in c.nodes && i !in c.pending && c.nodes[i].peers.n == |c.nodes[i].peers.peers| > 0
    case Create(i, j) =>
      i in c.nodes && j in c.nodes && i in c.pending && c.pending[i] == j && i != j && CanCreate(c.nodes[i], j)
    case Answer(req, events) =>
      req in c.requests && req.to in c.nodes && IsGossip(events, c.nodes[req.to].store.eventOf, req.gossipList)
    case Deliver(reply) => reply in c.replies && reply.to in c.nodes
    case Consume(i) => i in c.nodes && i in c.delivered
  }

  ghost function WithNode(c: Cluster, i: PeerId, s: CoreState): Cluster { c.(nodes := c.nodes[i := s]) }

  ghost function Next(c: Cluster, step: Step, digest: EventHash -> nat): Cluster
    requires Enabled(c, step)
  {
    match step
    case Submit(i, tx) =>
      WithNode(c, i, c.nodes[i].(txPool := c.nodes[i].txPool + [tx]))
        .(submitted := c.submitted[i := c.submitted[i] + [tx]])
    case Request(i) =>
      WithNode(c, i, c.nodes[i].(peers := c.nodes[i].peers.Advanced()))
        .(requests := c.requests + multiset{RequestOf(c.nodes[i])},
          pending := c.pending[i := RequestOf(c.nodes[i]).to])
    case Create(i, j) =>
      WithNode(c, i, Created(c.nodes[i], j, digest))
        .(dag := c.dag + {NewEvent(c.nodes[i], j).hash}, pending := c.pending - {i})
    case Answer(req, events) =>
      WithNode(c, req.to, Answering(c.nodes[req.to], req))
        .(requests := c.requests - multiset{req},
          replies := c.replies + multiset{ReplyTo(c.nodes[req.to], req, events)})
    case Deliver(reply) =>
      WithNode(c, reply.to, Delivered(c.nodes[reply.to], reply, digest)).(replies := c.replies - multiset{reply})
    case Consume(i) =>
      WithNode(c, i, Polled(c.nodes[i]).0).(delivered := c.delivered[i := c.delivered[i] + Polled(c.nodes[i]).1])
  }

  // A step that brings node `i` an event it has already.
  ghost predicate Hits(c: Cluster, step: Step, i: PeerId) {
    step.Deliver? && step.reply.to == i && i in c.nodes && Stale(c.nodes[i], step.reply)
  }

  ghost predicate Stale(s: CoreState, reply: SyncReply) { !(HashesOf(reply.events) !! s.store.event.Keys) }

  // Start: every node has booted with a list of the same peers, built by adding them in whatever order.
  ghost predicate IsPeerList(list: PeersState, peers: set<PeerId>) {
    && DistinctIds(list.peers) && FreshPeers(list.peers) && IdsOf(list.peers) == peers
    && list.n == |list.peers| && list.r == list.n / 2
  }

  ghost predicate HasBooted(c: Cluster, i: PeerId, list: PeersState, peers: set<PeerId>) {
    && IsPeerList(list, peers)
    && i in c.nodes && c.nodes[i] == Booted(list, i)
    && i in c.submitted && c.submitted[i] == []
    && i in c.delivered && c.delivered[i] == []
  }

  ghost predicate Initial(c: Cluster, lists: map<PeerId, PeersState>, peers: set<PeerId>) {
    && c.nodes.Keys == lists.Keys == c.submitted.Keys == c.delivered.Keys == peers
    && (forall i {:trigger HasBooted(c, i, lists[i], peers)} :: i in peers ==> HasBooted(c, i, lists[i], peers))
    && c.pending == map[] && c.requests == multiset{} && c.replies == multiset{} && c.dag == LeavesOf(peers)
  }

  // Transactions

  // The transactions of an event's whole self-parent chain, by height.
  ghost function ChainTransactions(h: EventHash): seq<Transaction> {
    if IsInner(h) then ChainTransactions(h.content.selfParent) + Payload(h) else Payload(h)
  }

  // What was submitted to a node is what its own events carry, by height, followed by its pool.
  ghost predicate Conserved(pool: seq<Transaction>, hs: set<EventHash>, me: PeerId, submitted: seq<Transaction>) {
    forall h {:trigger h in hs} :: h in hs && Creator(h) == me && IsHead(me, HeightOf(h), hs) ==>
      ChainTransactions(h) + pool == submitted
  }

  ghost predicate WithinLimit(dag: set<EventHash>) {
    forall h :: h in dag ==> |Payload(h)| <= TRANSACTIONS_LIMIT
  }

  // The invariant

  ghost predicate RequestTrue(req: SyncReq, nodes: map<PeerId, CoreState>, peers: set<PeerId>) {
    req.from in nodes && GossipTrue(req.gossipList, nodes[req.from].store.event.Keys, peers)
  }

  ghost predicate ReplyTrue(reply: SyncReply, nodes: map<PeerId, CoreState>, dag: set<EventHash>) {
    && reply.to in nodes && Deliverable(reply.events, nodes[reply.to].store.event.Keys, dag)
    && ClockCovers(reply.lamportTime, reply.events)
  }

  ghost predicate NodesSound(nodes: map<PeerId, CoreState>, dag: set<EventHash>, peers: set<PeerId>) {
    && nodes.Keys == peers
    && forall i {:trigger NodeSound(nodes[i], i, dag, peers)} :: i in peers ==> NodeSound(nodes[i], i, dag, peers)
  }

  ghost predicate MessagesTrue(requests: multiset<SyncReq>, replies: multiset<SyncReply>,
                               nodes: map<PeerId, CoreState>, dag: set<EventHash>, peers: set<PeerId>)
  {
    && (forall req {:trigger RequestTrue(req, nodes, peers)} :: req in requests ==> RequestTrue(req, nodes, peers))
    && (forall reply {:trigger ReplyTrue(reply, nodes, dag)} :: reply in replies ==> ReplyTrue(reply, nodes, dag))
  }

  ghost predicate ConservedAt(nodes: map<PeerId, CoreState>, submitted: map<PeerId, seq<Transaction>>, i: PeerId) {
    && i in nodes && i in submitted
    && Conserved(nodes[i].txPool, nodes[i].store.event.Keys, i, submitted[i])
  }

  ghost predicate AllConserved(nodes: map<PeerId, CoreState>, submitted: map<PeerId, seq<Transaction>>,
                               peers: set<PeerId>)
  {
    forall i {:trigger ConservedAt(nodes, submitted, i)} :: i in peers ==> ConservedAt(nodes, submitted, i)
  }

  // With two peers or more nobody's contact is the node itself.
  ghost predicate PendingTrue(pending: map<PeerId, PeerId>, peers: set<PeerId>) {
    forall i {:trigger pending[i]} :: i in pending ==>
      i in peers && pending[i] in peers && (|peers| >= 2 ==> pending[i] != i)
  }

  // The invariant of every run.
  ghost predicate ClusterSound(c: Cluster, peers: set<PeerId>) {
    && GraphTrue(c.dag, peers) && WithinLimit(c.dag)
    && NodesSound(c.nodes, c.dag, peers)
    && MessagesTrue(c.requests, c.replies, c.nodes, c.dag, peers)
    && AllConserved(c.nodes, c.submitted, peers)
    && c.delivered.Keys == peers && PendingTrue(c.pending, peers)
  }

  lemma InitialIsSound(c: Cluster, lists: map<PeerId, PeersState>, peers: set<PeerId>, digest: EventHash -> nat)
    requires Initial(c, lists, peers)
    ensures ClusterSound(c, peers)
    ensures forall i :: i in peers ==> i in c.nodes && CoreTrue(c.nodes[i], peers, digest)
  {
    hide NodeSound, CoreTrue, Booted;
    LeavesAreAGraph(peers);
    forall i | i in peers
      ensures NodeSound(c.nodes[i], i, c.dag, peers) && ConservedAt(c.nodes, c.submitted, i)
      ensures CoreTrue(c.nodes[i], peers, digest)
    {
      assert HasBooted(c, i, lists[i], peers);
      BootedNodeIsTrue(lists[i], i, digest);
      BootedPoolIsEmpty(lists[i], i);
      LeavesCarryNothing(peers, i);
    }
    LeavesCarryLittle(peers);
  }

  lemma BootedPoolIsEmpty(list: PeersState, i: PeerId)
    ensures Booted(list, i).txPool == []
  {
  }

  lemma LeavesCarryNothing(peers: set<PeerId>, i: PeerId)
    ensures Conserved([], LeavesOf(peers), i, [])
  {
  }

  lemma LeavesCarryLittle(peers: set<PeerId>)
    ensures WithinLimit(LeavesOf(peers))
  {
  }

  // One node moves to a state that knows at least as much, and every event new to the graph is its own.
  ghost predicate Moves(s: CoreState, t: CoreState, i: PeerId, dag: set<EventHash>, dag': set<EventHash>) {
    && s.store.event.Keys <= t.store.event.Keys && dag <= dag' && RecordsGrow(s, t)
    && forall h :: h in dag' && h !in dag ==> Creator(h) == i
  }

  lemma NodesStaySound(nodes: map<PeerId, CoreState>, i: PeerId, t: CoreState, dag: set<EventHash>,
                       dag': set<EventHash>, peers: set<PeerId>)
    requires NodesSound(nodes, dag, peers) && i in peers
    requires NodeSound(t, i, dag', peers) && Moves(nodes[i], t, i, dag, dag')
    ensures NodesSound(nodes[i := t], dag', peers)
  {
    hide NodeSound;
    var nodes' := nodes[i := t];
    forall j | j in peers ensures NodeSound(nodes'[j], j, dag', peers) {
      if j != i {
        assert NodeSound(nodes[j], j, dag, peers);
        OtherStaysSound(nodes[j], j, dag, dag', peers);
      }
    }
  }

  lemma OtherStaysSound(s: CoreState, j: PeerId, dag: set<EventHash>, dag': set<EventHash>, peers: set<PeerId>)
    requires NodeSound(s, j, dag, peers) && dag <= dag' && forall h :: h in dag' && h !in dag ==> Creator(h) != j
    ensures NodeSound(s, j, dag', peers)
  {
  }

  // Messages under way stay good while nodes learn more.
  lemma MessagesStayTrue(requests: multiset<SyncReq>, replies: multiset<SyncReply>, nodes: map<PeerId, CoreState>,
                         i: PeerId, t: CoreState, dag: set<EventHash>, dag': set<EventHash>, peers: set<PeerId>)
    requires MessagesTrue(requests, replies, nodes, dag, peers) && i in nodes && Moves(nodes[i], t, i, dag, dag')
    ensures MessagesTrue(requests, replies, nodes[i := t], dag', peers)
  {
    var nodes' := nodes[i := t];
    forall req | req in requests ensures RequestTrue(req, nodes', peers) {
      assert RequestTrue(req, nodes, peers);
      GossipStaysTrue(req.gossipList, nodes[req.from].store.event.Keys, nodes'[req.from].store.event.Keys, peers);
    }
    forall reply | reply in replies ensures ReplyTrue(reply, nodes', dag') {
      assert ReplyTrue(reply, nodes, dag);
      StaysDeliverable(reply.events, nodes[reply.to].store.event.Keys, nodes'[reply.to].store.event.Keys, dag, dag');
    }
  }

  lemma GossipStaysTrue(gossip: GossipList, hs: set<EventHash>, more: set<EventHash>, peers: set<PeerId>)
    requires GossipTrue(gossip, hs, peers) && hs <= more
    ensures GossipTrue(gossip, more, peers)
  {
    forall c | c in peers ensures exists x :: x in more && Creator(x) == c && HeightOf(x) == gossip[c].height {
      var x :| x in hs && Creator(x) == c && HeightOf(x) == gossip[c].height;
      assert x in more;
    }
  }

  lemma StaysDeliverable(events: seq<NetEvent>, hs: set<EventHash>, more: set<EventHash>, dag: set<EventHash>,
                         dag': set<EventHash>)
    requires Deliverable(events, hs, dag) && hs <= more && dag <= dag'
    ensures Deliverable(events, more, dag')
  {
    forall e | e in events
      ensures NetHash(e) in dag' && e.height > 0
      ensures e.selfParent in more + HashesOf(events) && e.otherParent in more + HashesOf(events)
    {
      assert NetHash(e) in dag;
    }
  }

  lemma ConservationStays(nodes: map<PeerId, CoreState>, submitted: map<PeerId, seq<Transaction>>, i: PeerId,
                          t: CoreState, mine: seq<Transaction>, peers: set<PeerId>)
    requires AllConserved(nodes, submitted, peers) && Conserved(t.txPool, t.store.event.Keys, i, mine)
    ensures AllConserved(nodes[i := t], submitted[i := mine], peers)
  {
    forall j | j in peers ensures ConservedAt(nodes[i := t], submitted[i := mine], j) {
      assert ConservedAt(nodes, submitted, j);
    }
  }

  // Other nodes' events do not touch a node's own chain.
  lemma OwnChainUntouched(pool: seq<Transaction>, hs: set<EventHash>, more: set<EventHash>, me: PeerId,
                          submitted: seq<Transaction>)
    requires Conserved(pool, hs, me, submitted) && hs <= more
    requires forall h :: h in more && Creator(h) == me ==> h in hs
    ensures Conserved(pool, more, me, submitted)
  {
    forall h | h in more && Creator(h) == me && IsHead(me, HeightOf(h), more)
      ensures ChainTransactions(h) + pool == submitted
    {
      assert h in hs;
      assert IsHead(me, HeightOf(h), hs);
    }
  }

  // Each step keeps the invariant, and what every node has recorded.

  ghost predicate NodesGrow(nodes: map<PeerId, CoreState>, nodes': map<PeerId, CoreState>) {
    forall i {:trigger nodes[i]} {:trigger nodes'[i]} :: i in nodes ==>
      && i in nodes'
      && nodes[i].store.event.Keys <= nodes'[i].store.event.Keys && RecordsGrow(nodes[i], nodes'[i])
  }

  ghost predicate StepKeeps(c: Cluster, c': Cluster, peers: set<PeerId>) {
    ClusterSound(c', peers) && c.dag <= c'.dag && NodesGrow(c.nodes, c'.nodes)
  }

  // Replacing one node's state keeps everything that does not concern messages newly sent.
  lemma NodeStepKeeps(c: Cluster, i: PeerId, t: CoreState, dag': set<EventHash>, mine: seq<Transaction>,
                      peers: set<PeerId>)
    requires ClusterSound(c, peers) && i in peers && GraphTrue(dag', peers) && WithinLimit(dag')
    requires NodeSound(t, i, dag', peers) && Moves(c.nodes[i], t, i, c.dag, dag')
    requires Conserved(t.txPool, t.store.event.Keys, i, mine)
    ensures StepKeeps(c, c.(nodes := c.nodes[i := t], dag := dag', submitted := c.submitted[i := mine]), peers)
  {
    hide NodeSound, GraphTrue, PendingTrue;
    NodesStaySound(c.nodes, i, t, c.dag, dag', peers);
    MessagesStayTrue(c.requests, c.replies, c.nodes, i, t, c.dag, dag', peers);
    ConservationStays(c.nodes, c.submitted, i, t, mine, peers);
  }

  // What the invariant says of one node.
  lemma NodeAt(c: Cluster, i: PeerId, peers: set<PeerId>)
    requires ClusterSound(c, peers) && i in c.nodes
    ensures i in peers && i in c.submitted && c.submitted[i := c.submitted[i]] == c.submitted
    ensures NodeSound(c.nodes[i], i, c.dag, peers) && GraphTrue(c.dag, peers) && WithinLimit(c.dag)
    ensures Conserved(c.nodes[i].txPool, c.nodes[i].store.event.Keys, i, c.submitted[i])
  {
    hide NodeSound, MessagesTrue, Conserved, GraphTrue, WithinLimit, PendingTrue;
    assert NodeSound(c.nodes[i], i, c.dag, peers) && ConservedAt(c.nodes, c.submitted, i);
  }

  // Peers, clock, pool and cursor may change as long as they keep their part of the invariant.
  lemma NodeStaysSound(s: CoreState, t: CoreState, me: PeerId, dag: set<EventHash>, peers: set<PeerId>)
    requires NodeSound(s, me, dag, peers) && t.store == s.store && t.lastFinalisedFrame == s.lastFinalisedFrame
    requires t.peers.Valid() && t.peers.creator == me && ScheduleTrue(t.peers) && t.lamportTime >= s.lamportTime
    requires |t.peers.peers| == |s.peers.peers|
    requires forall i :: 0 <= i < |t.peers.peers| ==>
               t.peers.peers[i].id == s.peers.peers[i].id && t.peers.peers[i].height == s.peers.peers[i].height
    ensures NodeSound(t, me, dag, peers) && RecordsGrow(s, t)
  {
    hide StoreSound, FramesSound;
    SameFramesStaySound(s, t);
    IdsByPosition(s.peers.peers, t.peers.peers);
    forall i | 0 <= i < |t.peers.peers|
      ensures IsHead(t.peers.peers[i].id, t.peers.peers[i].height, t.store.event.Keys)
    {
      assert IsHead(s.peers.peers[i].id, s.peers.peers[i].height, s.store.event.Keys);
    }
  }

  lemma NodePeersAreValid(s: CoreState, me: PeerId, dag: set<EventHash>, peers: set<PeerId>)
    requires NodeSound(s, me, dag, peers)
    ensures s.peers.Valid() && IdsOf(s.peers.peers) == peers && s.peers.creator == me && ScheduleTrue(s.peers)
    ensures StoreSound(s.store, peers) && s.store.event.Keys <= dag && GraphTrue(s.store.event.Keys, peers)
    ensures FramesSound(s) && peers != {}
    ensures OwnsItsEvents(me, s.store.event.Keys, dag)
  {
  }

  lemma SubmitKeeps(c: Cluster, i: PeerId, tx: Transaction, peers: set<PeerId>, digest: EventHash -> nat)
    requires ClusterSound(c, peers) && Enabled(c, Submit(i, tx))
    ensures StepKeeps(c, Next(c, Submit(i, tx), digest), peers)
  {
    hide NodeSound, ClusterSound, StepKeeps;
    NodeAt(c, i, peers);
    var s := c.nodes[i];
    var t := s.(txPool := s.txPool + [tx]);
    NodePeersAreValid(s, i, c.dag, peers);
    NodeStaysSound(s, t, i, c.dag, peers);
    PoolGrows(s.txPool, s.store.event.Keys, i, c.submitted[i], tx);
    NodeStepKeeps(c, i, t, c.dag, c.submitted[i] + [tx], peers);
  }

  lemma PoolGrows(pool: seq<Transaction>, hs: set<EventHash>, me: PeerId, submitted: seq<Transaction>, tx: Transaction)
    requires Conserved(pool, hs, me, submitted)
    ensures Conserved(pool + [tx], hs, me, submitted + [tx])
  {
    forall h | h in hs && Creator(h) == me && IsHead(me, HeightOf(h), hs)
      ensures ChainTransactions(h) + (pool + [tx]) == submitted + [tx]
    {
      assert ChainTransactions(h) + (pool + [tx]) == ChainTransactions(h) + pool + [tx];
    }
  }

  // Sending good messages, using up messages, and noting whom a node has asked.
  lemma SendKeeps(c: Cluster, requests: multiset<SyncReq>, replies: multiset<SyncReply>, pending: map<PeerId, PeerId>,
                  peers: set<PeerId>)
    requires ClusterSound(c, peers) && PendingTrue(pending, peers)
    requires forall req :: req in requests ==> req in c.requests || RequestTrue(req, c.nodes, peers)
    requires forall reply :: reply in replies ==> reply in c.replies || ReplyTrue(reply, c.nodes, c.dag)
    ensures ClusterSound(c.(requests := requests, replies := replies, pending := pending), peers)
  {
    hide NodesSound, GraphTrue, AllConserved, RequestTrue, ReplyTrue, PendingTrue;
  }

  lemma PendingStays(c: Cluster, peers: set<PeerId>)
    requires ClusterSound(c, peers)
    ensures PendingTrue(c.pending, peers)
    ensures forall i :: PendingTrue(c.pending - {i}, peers)
  {
  }

  // The contact of a request is a peer, and another one where there are two or more.
  lemma ContactIsPeer(s: CoreState, me: PeerId, dag: set<EventHash>, peers: set<PeerId>)
    requires NodeSound(s, me, dag, peers)
    ensures s.peers.n == |s.peers.peers| == |peers| > 0
    ensures RequestOf(s).to in peers && (|peers| >= 2 ==> RequestOf(s).to != me)
  {
    hide StoreSound, FramesSound, HeadsTrue;
    CountOfIds(s.peers.peers);
    assert s.peers.peers[s.peers.Contact()] in s.peers.peers;
    if |peers| >= 2 {
      OffsetMovesOn(s.peers.current, s.peers.r, s.peers.n);
    }
  }

  lemma RequestKeeps(c: Cluster, i: PeerId, peers: set<PeerId>, digest: EventHash -> nat)
    requires ClusterSound(c, peers) && Enabled(c, Request(i))
    ensures StepKeeps(c, Next(c, Request(i), digest), peers)
  {
    hide NodeSound, ClusterSound, StepKeeps, HeadsTrue, RequestOf;
    NodeAt(c, i, peers);
    var s := c.nodes[i];
    var t := s.(peers := s.peers.Advanced());
    NodePeersAreValid(s, i, c.dag, peers);
    NodeStaysSound(s, t, i, c.dag, peers);
    var requests, pending := c.requests + multiset{RequestOf(s)}, c.pending[i := RequestOf(s).to];
    GoodRequest(c, i, peers);
    SendKeeps(c, requests, c.replies, pending, peers);
    var c1 := c.(requests := requests, replies := c.replies, pending := pending);
    NodeStepKeeps(c1, i, t, c.dag, c.submitted[i], peers);
    StepFrom(c, c1, Next(c, Request(i), digest), peers);
  }

  lemma GoodRequest(c: Cluster, i: PeerId, peers: set<PeerId>)
    requires ClusterSound(c, peers) && Enabled(c, Request(i))
    ensures RequestTrue(RequestOf(c.nodes[i]), c.nodes, peers)
    ensures PendingTrue(c.pending[i := RequestOf(c.nodes[i]).to], peers)
  {
    hide NodeSound, ClusterSound, GossipTrue, PendingTrue, StoreSound;
    NodeAt(c, i, peers);
    var s := c.nodes[i];
    NodePeersAreValid(s, i, c.dag, peers);
    HeadsMakeGossip(s, i, c.dag, peers);
    ContactIsPeer(s, i, c.dag, peers);
    PendingStays(c, peers);
    MorePending(c.pending, i, RequestOf(s).to, peers);
  }

  lemma MorePending(pending: map<PeerId, PeerId>, i: PeerId, j: PeerId, peers: set<PeerId>)
    requires PendingTrue(pending, peers) && i in peers && j in peers && (|peers| >= 2 ==> j != i)
    ensures PendingTrue(pending[i := j], peers)
  {
  }

  // Sending a message is no move of any node.
  lemma StepFrom(c: Cluster, c1: Cluster, c2: Cluster, peers: set<PeerId>)
    requires StepKeeps(c1, c2, peers) && c1.nodes == c.nodes && c1.dag == c.dag
    ensures StepKeeps(c, c2, peers)
  {
    hide ClusterSound, NodesGrow;
  }

  lemma CreateKeeps(c: Cluster, i: PeerId, j: PeerId, peers: set<PeerId>, digest: EventHash -> nat)
    requires ClusterSound(c, peers) && Enabled(c, Create(i, j))
    ensures StepKeeps(c, Next(c, Create(i, j), digest), peers)
  {
    hide NodeSound, ClusterSound, StepKeeps, Created, NewEvent, RequestTrue, ReplyTrue, Moves, Conserved, GraphTrue;
    hide WithinLimit;
    NodeAt(c, i, peers);
    var t, dag' := Created(c.nodes[i], j, digest), c.dag + {NewEvent(c.nodes[i], j).hash};
    CreationMoves(c, i, j, peers, digest);
    PendingStays(c, peers);
    SendKeeps(c, c.requests, c.replies, c.pending - {i}, peers);
    var c1 := c.(requests := c.requests, replies := c.replies, pending := c.pending - {i});
    NodeStepKeeps(c1, i, t, dag', c.submitted[i], peers);
    StepFrom(c, c1, Next(c, Create(i, j), digest), peers);
  }

  lemma CreationMoves(c: Cluster, i: PeerId, j: PeerId, peers: set<PeerId>, digest: EventHash -> nat)
    requires ClusterSound(c, peers) && Enabled(c, Create(i, j)) && i in c.submitted
    ensures var s, dag' := c.nodes[i], c.dag + {NewEvent(c.nodes[i], j).hash};
            var t := Created(s, j, digest);
            && GraphTrue(dag', peers) && WithinLimit(dag')
            && NodeSound(t, i, dag', peers) && Moves(s, t, i, c.dag, dag')
            && Conserved(t.txPool, t.store.event.Keys, i, c.submitted[i])
  {
    hide NodeSound, ClusterSound, Created, NewEvent, StoreSound, FramesSound, Fits, RecordsGrow, GraphTrue;
    NodeAt(c, i, peers);
    NodeAt(c, j, peers);
    var s := c.nodes[i];
    var h := NewEvent(s, j).hash;
    NodePeersAreValid(s, i, c.dag, peers);
    NewEventIsFresh(s, i, c.dag, peers, j);
    CreatedIsSound(s, i, c.dag, peers, digest, j);
    assert Fits(h, s.store.event.Keys, peers) by { assert Extends(h, s.store.event.Keys, peers); }
    ClosedGraph(s.store.event.Keys, peers);
    FitsHasParents(h, s.store.event.Keys, peers);
    OwnChainGrows(s, s.store.event.Keys, i, h, c.submitted[i]);
  }

  lemma OwnChainGrows(s: CoreState, hs: set<EventHash>, me: PeerId, h: EventHash, submitted: seq<Transaction>)
    requires Conserved(s.txPool, hs, me, submitted) && h.HashOf? && Creator(h) == me
    requires SelfParent(h) in hs && IsInner(h)
    requires Creator(SelfParent(h)) == me && HeightOf(SelfParent(h)) + 1 == HeightOf(h)
    requires IsHead(me, HeightOf(SelfParent(h)), hs) && h.content.transactions == s.NextTransactions().0
    ensures Conserved(s.NextTransactions().1, hs + {h}, me, submitted)
  {
    var (taken, left) := s.NextTransactions();
    assert ChainTransactions(h) == ChainTransactions(SelfParent(h)) + taken;
    hide ChainTransactions;
    forall x | x in hs + {h} && Creator(x) == me && IsHead(me, HeightOf(x), hs + {h})
      ensures ChainTransactions(x) + left == submitted
    {
      assert h in hs + {h};
      assert x == h;
      var before := ChainTransactions(SelfParent(h));
      assert before + s.txPool == submitted;
      assert s.txPool == taken + left;
      assert before + taken + left == before + (taken + left);
    }
  }

  lemma ReplyIsSound(c: Cluster, req: SyncReq, events: seq<NetEvent>, peers: set<PeerId>)
    requires ClusterSound(c, peers) && Enabled(c, Answer(req, events))
    ensures req.from in c.nodes && ReplyTrue(ReplyTo(c.nodes[req.to], req, events), c.nodes, c.dag)
  {
    hide NodeSound, StoreSound, AllConserved, IsGossip, GossipTrue, Deliverable, ClockCovers;
    var s := c.nodes[req.to];
    assert RequestTrue(req, c.nodes, peers);
    NodeAt(c, req.to, peers);
    NodeAt(c, req.from, peers);
    NodePeersAreValid(s, req.to, c.dag, peers);
    NodePeersAreValid(c.nodes[req.from], req.from, c.dag, peers);
    AnswerIsDeliverable(s, peers, c.dag, req.gossipList, c.nodes[req.from].store.event.Keys, events);
    ReplyClockCovers(s, req.to, c.dag, peers, req.gossipList, events);
    LaterClockCovers(s.lamportTime, s.Heard(req.lamportTime).lamportTime, events);
  }

  lemma LaterClockCovers(time: LamportTime, later: LamportTime, events: seq<NetEvent>)
    requires ClockCovers(time, events) && time <= later
    ensures ClockCovers(later, events)
  {
  }

  lemma AnswerKeeps(c: Cluster, req: SyncReq, events: seq<NetEvent>, peers: set<PeerId>, digest: EventHash -> nat)
    requires ClusterSound(c, peers) && Enabled(c, Answer(req, events))
    ensures StepKeeps(c, Next(c, Answer(req, events), digest), peers)
  {
    hide NodeSound, ClusterSound, StepKeeps, IsGossip, ReplyTrue, RecordsGrow;
    var i, s := req.to, c.nodes[req.to];
    var t, reply := Answering(s, req), ReplyTo(s, req, events);
    NodeAt(c, i, peers);
    ReplyIsSound(c, req, events, peers);
    NodeAt(c, req.from, peers);
    AnsweringIsSound(s, i, c.dag, peers, req);
    var requests, replies := c.requests - multiset{req}, c.replies + multiset{reply};
    PendingStays(c, peers);
    SendKeeps(c, requests, replies, c.pending, peers);
    var c1 := c.(requests := requests, replies := replies, pending := c.pending);
    NodeStepKeeps(c1, i, t, c.dag, c.submitted[i], peers);
    StepFrom(c, c1, Next(c, Answer(req, events), digest), peers);
  }

  lemma AnsweringIsSound(s: CoreState, me: PeerId, dag: set<EventHash>, peers: set<PeerId>, req: SyncReq)
    requires NodeSound(s, me, dag, peers) && req.from in peers
    ensures NodeSound(Answering(s, req), me, dag, peers) && RecordsGrow(s, Answering(s, req))
  {
    hide NodeSound, StoreSound;
    NodePeersAreValid(s, me, dag, peers);
    PeerIsListed(s.peers.peers, req.from);
    UpdatedStaysValid(s.peers, req.from, req.lamportTime, 0);
    NodeStaysSound(s, Answering(s, req), me, dag, peers);
  }

  // A receiver that has raised its clock can apply the reply.
  lemma HeardIsReady(c: Cluster, reply: SyncReply, peers: set<PeerId>, digest: EventHash -> nat)
    requires ClusterSound(c, peers) && Enabled(c, Deliver(reply))
    ensures var s, heard := c.nodes[reply.to], c.nodes[reply.to].Heard(reply.lamportTime);
            && NodeSound(heard, reply.to, c.dag, peers) && GraphTrue(c.dag, peers) && RecordsGrow(s, heard)
            && Deliverable(reply.events, s.store.event.Keys, c.dag) && ClockCovers(heard.lamportTime, reply.events)
            && (CoreTrue(heard, peers, digest) <==> CoreTrue(s, peers, digest)) && FinalityGrows(s, heard)
            && (CoreExact(heard, peers) <==> CoreExact(s, peers))
  {
    hide NodeSound, ClusterSound, StoreSound, StoreExact, StoreTrue, FramesSound, RecordsGrow, FinalityGrows;
    hide Deliverable;
    var i, s := reply.to, c.nodes[reply.to];
    var heard := s.Heard(reply.lamportTime);
    NodeAt(c, i, peers);
    ReplyIsTrue(c, reply, peers);
    NodePeersAreValid(s, i, c.dag, peers);
    NodeStaysSound(s, heard, i, c.dag, peers);
    SameStoreSameTruth(s, heard, peers, digest);
    LaterClockCovers(reply.lamportTime, heard.lamportTime, reply.events);
  }

  // What the delivery of a reply under way does to its receiver.
  lemma DeliveryIsSound(c: Cluster, reply: SyncReply, peers: set<PeerId>, digest: EventHash -> nat)
    requires Enabled(c, Deliver(reply)) && ClusterSound(c, peers)
    ensures var s, t := c.nodes[reply.to], Delivered(c.nodes[reply.to], reply, digest);
            && CanApply(s.Heard(reply.lamportTime), reply.events, digest)
            && NodeSound(t, reply.to, c.dag, peers)
            && t.store.event.Keys == s.store.event.Keys + HashesOf(reply.events)
            && RecordsGrow(s, t) && t.txPool == s.txPool && t.cursor == s.cursor
            && (CoreTrue(s, peers, digest) ==>
                  && (CoreTrue(t, peers, digest) <==> !Stale(s, reply))
                  && (!Stale(s, reply) ==> FinalityGrows(s, t))
                  && (Stale(s, reply) ==> SomeRecordedTwice(t, HashesOf(reply.events), |peers|)))
  {
    hide NodeSound, ClusterSound, Applied, CanApply, CoreTrue, RecordsGrow, FinalityGrows, Deliverable;
    var i, s := reply.to, c.nodes[reply.to];
    var heard := s.Heard(reply.lamportTime);
    HeardIsReady(c, reply, peers, digest);
    AppliedIsSound(heard, i, c.dag, peers, digest, reply.events);
    var t := Delivered(s, reply, digest);
    RecordsGrowOn(s, heard, t);
    if CoreTrue(s, peers, digest) {
      AppliedIsTrue(heard, i, c.dag, peers, digest, reply.events);
      if !Stale(s, reply) { FinalityIsTransitive(s, heard, t); }
    }
  }

  lemma DeliverKeeps(c: Cluster, reply: SyncReply, peers: set<PeerId>, digest: EventHash -> nat)
    requires ClusterSound(c, peers) && Enabled(c, Deliver(reply))
    ensures StepKeeps(c, Next(c, Deliver(reply), digest), peers)
  {
    hide NodeSound, ClusterSound, StepKeeps, Delivered, CanApply, CoreTrue, CoreExact, RecordsGrow, Moves, Conserved;
    hide ReplyTrue, RequestTrue;
    var i := reply.to;
    NodeAt(c, i, peers);
    var t := Delivered(c.nodes[i], reply, digest);
    DeliveryMoves(c, reply, peers, digest);
    var replies := c.replies - multiset{reply};
    PendingStays(c, peers);
    SendKeeps(c, c.requests, replies, c.pending, peers);
    var c1 := c.(requests := c.requests, replies := replies, pending := c.pending);
    NodeStepKeeps(c1, i, t, c.dag, c.submitted[i], peers);
    StepFrom(c, c1, Next(c, Deliver(reply), digest), peers);
  }

  lemma DeliveryMoves(c: Cluster, reply: SyncReply, peers: set<PeerId>, digest: EventHash -> nat)
    requires ClusterSound(c, peers) && Enabled(c, Deliver(reply)) && reply.to in c.submitted
    ensures var i, s, t := reply.to, c.nodes[reply.to], Delivered(c.nodes[reply.to], reply, digest);
            && NodeSound(t, i, c.dag, peers) && Moves(s, t, i, c.dag, c.dag)
            && Conserved(t.txPool, t.store.event.Keys, i, c.submitted[i])
  {
    hide NodeSound, ClusterSound, Delivered, CanApply, CoreTrue, CoreExact, RecordsGrow, StoreSound, Conserved;
    var i, s := reply.to, c.nodes[reply.to];
    NodeAt(c, i, peers);
    DeliveryIsSound(c, reply, peers, digest);
    var t := Delivered(s, reply, digest);
    NodePeersAreValid(s, i, c.dag, peers);
    NodePeersAreValid(t, i, c.dag, peers);
    OwnChainUntouched(s.txPool, s.store.event.Keys, t.store.event.Keys, i, c.submitted[i]);
  }

  lemma ReplyIsTrue(c: Cluster, reply: SyncReply, peers: set<PeerId>)
    requires ClusterSound(c, peers) && reply in c.replies
    ensures ReplyTrue(reply, c.nodes, c.dag)
  {
    hide NodesSound, AllConserved, GraphTrue;
    assert ReplyTrue(reply, c.nodes, c.dag);
  }

  lemma PolledLeavesStore(s: CoreState)
    ensures Polled(s).0 == s.(cursor := Polled(s).0.cursor)
  {
  }

  lemma ConsumeKeeps(c: Cluster, i: PeerId, peers: set<PeerId>, digest: EventHash -> nat)
    requires ClusterSound(c, peers) && Enabled(c, Consume(i))
    ensures StepKeeps(c, Next(c, Consume(i), digest), peers)
  {
    hide NodeSound, StepKeeps, Polled, NodesSound, MessagesTrue, AllConserved, GraphTrue, NodesGrow;
    NodeAt(c, i, peers);
    var s, t := c.nodes[i], Polled(c.nodes[i]).0;
    PolledLeavesStore(s);
    NodePeersAreValid(s, i, c.dag, peers);
    NodeStaysSound(s, t, i, c.dag, peers);
    NodeStepKeeps(c, i, t, c.dag, c.submitted[i], peers);
    var c1 := c.(nodes := c.nodes[i := t], dag := c.dag, submitted := c.submitted[i := c.submitted[i]]);
    ServedKeeps(c, c1, c.delivered[i := c.delivered[i] + Polled(s).1], peers);
  }

  lemma ServedKeeps(c: Cluster, c1: Cluster, delivered: map<PeerId, seq<Item>>, peers: set<PeerId>)
    requires StepKeeps(c, c1, peers) && delivered.Keys == peers
    ensures StepKeeps(c, c1.(delivered := delivered), peers)
  {
    hide NodesSound, MessagesTrue, AllConserved, GraphTrue, NodesGrow;
  }

  lemma StepsKeep(c: Cluster, step: Step, peers: set<PeerId>, digest: EventHash -> nat)
    requires ClusterSound(c, peers) && Enabled(c, step)
    ensures StepKeeps(c, Next(c, step, digest), peers)
  {
    hide ClusterSound, Next, StepKeeps;
    match step
    case Submit(i, tx) => SubmitKeeps(c, i, tx, peers, digest);
    case Request(i) => RequestKeeps(c, i, peers, digest);
    case Create(i, j) => CreateKeeps(c, i, j, peers, digest);
    case Answer(req, events) => AnswerKeeps(c, req, events, peers, digest);
    case Deliver(reply) => DeliverKeeps(c, reply, peers, digest);
    case Consume(i) => ConsumeKeeps(c, i, peers, digest);
  }

  // Whether a node's frames can be trusted

  // A step keeps the invariant of a node's core, and everything final as it was, exactly when it does not
  // bring that node an event it has already. If it does, that event is recorded twice.
  lemma StepTruth(c: Cluster, step: Step, i: PeerId, peers: set<PeerId>, digest: EventHash -> nat)
    requires ClusterSound(c, peers) && Enabled(c, step) && i in peers
    requires i in c.nodes && CoreTrue(c.nodes[i], peers, digest)
    ensures var c' := Next(c, step, digest);
            && i in c'.nodes
            && (CoreTrue(c'.nodes[i], peers, digest) <==> !Hits(c, step, i))
            && (!Hits(c, step, i) ==> FinalityGrows(c.nodes[i], c'.nodes[i]))
            && (Hits(c, step, i) ==> SomeRecordedTwice(c'.nodes[i], HashesOf(step.reply.events), |peers|))
  {
    hide CoreTrue, ClusterSound, FinalityGrows, Created, Delivered, Polled, NodeSound, Stale, SomeRecordedTwice;
    NodeAt(c, i, peers);
    FinalityIsReflexive(c.nodes[i]);
    match step
    case Create(k, j) =>
      if k == i {
        NodeAt(c, j, peers);
        CreatedIsTrue(c.nodes[i], i, c.dag, peers, digest, j);
      }
    case Deliver(reply) =>
      if reply.to == i {
        DeliveryIsSound(c, reply, peers, digest);
      }
    case _ => OtherStepTruth(c, step, i, peers, digest);
  }

  lemma OtherStepTruth(c: Cluster, step: Step, i: PeerId, peers: set<PeerId>, digest: EventHash -> nat)
    requires ClusterSound(c, peers) && Enabled(c, step) && i in peers
    requires i in c.nodes && CoreTrue(c.nodes[i], peers, digest) && !step.Create? && !step.Deliver?
    ensures var c' := Next(c, step, digest);
            && i in c'.nodes
            && CoreTrue(c'.nodes[i], peers, digest) && FinalityGrows(c.nodes[i], c'.nodes[i])
  {
    hide CoreTrue, ClusterSound, NodeSound, StoreSound, FramesSound, Next, Enabled;
    var c' := Next(c, step, digest);
    OthersLeaveStore(c, step, i, peers, digest);
    NodeAt(c, i, peers);
    NodeAt(c', i, peers);
    NodePeersAreValid(c.nodes[i], i, c.dag, peers);
    NodePeersAreValid(c'.nodes[i], i, c'.dag, peers);
    SameStoreSameTruth(c.nodes[i], c'.nodes[i], peers, digest);
  }

  // Steps but for creations and deliveries leave all stores alone.
  lemma OthersLeaveStore(c: Cluster, step: Step, i: PeerId, peers: set<PeerId>, digest: EventHash -> nat)
    requires ClusterSound(c, peers) && Enabled(c, step) && i in c.nodes && !step.Create? && !step.Deliver?
    ensures var c' := Next(c, step, digest);
            && ClusterSound(c', peers) && i in c'.nodes && c'.nodes[i].store == c.nodes[i].store
            && c'.nodes[i].lastFinalisedFrame == c.nodes[i].lastFinalisedFrame
  {
    hide ClusterSound, Next, Enabled, NodesGrow;
    StepsKeep(c, step, peers, digest);
    match step
    case Submit(k, tx) => SubmitLeavesStore(c, k, tx, i, digest);
    case Request(k) => RequestLeavesStore(c, k, i, digest);
    case Answer(req, events) => AnswerLeavesStore(c, req, events, i, digest);
    case Consume(k) => ConsumeLeavesStore(c, k, i, digest);
  }

  ghost predicate StoreLeft(c: Cluster, c': Cluster, i: PeerId) {
    && i in c.nodes && i in c'.nodes && c'.nodes[i].store == c.nodes[i].store
    && c'.nodes[i].lastFinalisedFrame == c.nodes[i].lastFinalisedFrame
  }

  lemma SubmitLeavesStore(c: Cluster, k: PeerId, tx: Transaction, i: PeerId, digest: EventHash -> nat)
    requires Enabled(c, Submit(k, tx)) && i in c.nodes
    ensures StoreLeft(c, Next(c, Submit(k, tx), digest), i)
  {
  }

  lemma RequestLeavesStore(c: Cluster, k: PeerId, i: PeerId, digest: EventHash -> nat)
    requires Enabled(c, Request(k)) && i in c.nodes
    ensures StoreLeft(c, Next(c, Request(k), digest), i)
  {
    hide RequestOf;
  }

  lemma AnswerLeavesStore(c: Cluster, req: SyncReq, events: seq<NetEvent>, i: PeerId, digest: EventHash -> nat)
    requires Enabled(c, Answer(req, events)) && i in c.nodes
    ensures StoreLeft(c, Next(c, Answer(req, events), digest), i)
  {
    hide IsGossip, ReplyTo;
  }

  lemma ConsumeLeavesStore(c: Cluster, k: PeerId, i: PeerId, digest: EventHash -> nat)
    requires Enabled(c, Consume(k)) && i in c.nodes
    ensures StoreLeft(c, Next(c, Consume(k), digest), i)
  {
    hide Polled;
    PolledLeavesStore(c.nodes[k]);
  }

  // The tables events are stored with

  // The frame that is first open at node `i` when `step` brings it the event `x`.
  ghost function FirstWhenBrought(c: Cluster, step: Step, i: PeerId, x: EventHash,
                                  digest: EventHash -> nat): FrameNumber
    requires i in c.nodes
  {
    if step.Deliver? && step.reply.to == i
    then FirstAtInsertion(c.nodes[i].Heard(step.reply.lamportTime), step.reply.events, x, digest)
    else c.nodes[i].FirstNotFinalised()
  }

  lemma StepTables(c: Cluster, step: Step, i: PeerId, peers: set<PeerId>, digest: EventHash -> nat, x: EventHash)
    requires ClusterSound(c, peers) && Enabled(c, step) && i in peers && i in c.nodes
    requires CoreTrue(c.nodes[i], peers, digest) && !Hits(c, step, i) && x !in c.nodes[i].store.event
    requires i in Next(c, step, digest).nodes && x in Next(c, step, digest).nodes[i].store.event
    ensures var t := Next(c, step, digest).nodes[i].store.flagTable;
            x in t && TableTrue(t[x], x, FirstWhenBrought(c, step, i, x, digest), |peers|)
  {
    hide CoreTrue, ClusterSound, Created, Delivered, Polled, NodeSound, TableTrue, FirstAtInsertion;
    NodeAt(c, i, peers);
    match step
    case Create(k, j) =>
      if k == i {
        NodeAt(c, j, peers);
        CreatedIsSound(c.nodes[i], i, c.dag, peers, digest, j);
        CreatedTable(c.nodes[i], i, c.dag, peers, digest, j);
      }
    case Deliver(reply) =>
      if reply.to == i {
        DeliveryTables(c, reply, peers, digest, x);
      }
    case _ => OthersLeaveStore(c, step, i, peers, digest);
  }

  lemma DeliveryTables(c: Cluster, reply: SyncReply, peers: set<PeerId>, digest: EventHash -> nat, x: EventHash)
    requires ClusterSound(c, peers) && Enabled(c, Deliver(reply)) && !Stale(c.nodes[reply.to], reply)
    requires CoreTrue(c.nodes[reply.to], peers, digest) && x !in c.nodes[reply.to].store.event
    requires x in Delivered(c.nodes[reply.to], reply, digest).store.event
    ensures var t := Delivered(c.nodes[reply.to], reply, digest).store.flagTable;
            x in t && TableTrue(t[x], x, FirstWhenBrought(c, Deliver(reply), reply.to, x, digest), |peers|)
  {
    hide ClusterSound, NodeSound, Applied, CoreTrue, RecordsGrow, TableTrue, FirstAtInsertion, CanApply, Deliverable;
    var i, heard := reply.to, c.nodes[reply.to].Heard(reply.lamportTime);
    HeardIsReady(c, reply, peers, digest);
    AppliedIsSound(heard, i, c.dag, peers, digest, reply.events);
    AppliedTables(heard, i, c.dag, peers, digest, reply.events, x);
  }

  // Whether a node's numbers can be trusted

  // A step that brings a node no event it has already, or only such as are still open there, keeps its frame
  // numbers, tables and finality exact.
  ghost predicate Tolerable(c: Cluster, step: Step, i: PeerId, peers: set<PeerId>) {
    step.Deliver? && step.reply.to == i && i in c.nodes ==>
      forall x :: x in HashesOf(step.reply.events) && x in c.nodes[i].store.event ==>
        StillOpen(x, c.nodes[i].store.event.Keys + HashesOf(step.reply.events), peers)
  }

  lemma StepIsExact(c: Cluster, step: Step, i: PeerId, peers: set<PeerId>, digest: EventHash -> nat)
    requires ClusterSound(c, peers) && Enabled(c, step) && i in peers && Tolerable(c, step, i, peers)
    requires i in c.nodes && CoreExact(c.nodes[i], peers)
    ensures i in Next(c, step, digest).nodes && CoreExact(Next(c, step, digest).nodes[i], peers)
  {
    hide CoreExact, ClusterSound, Created, Delivered, Polled, NodeSound, StillOpen, StoreSound;
    NodeAt(c, i, peers);
    match step
    case Create(k, j) =>
      if k == i {
        NodeAt(c, j, peers);
        CreatedIsExact(c.nodes[i], i, c.dag, peers, digest, j);
      }
    case Deliver(reply) =>
      if reply.to == i {
        DeliveryIsExact(c, reply, peers, digest);
      }
    case _ => OtherStepIsExact(c, step, i, peers, digest);
  }

  lemma DeliveryIsExact(c: Cluster, reply: SyncReply, peers: set<PeerId>, digest: EventHash -> nat)
    requires ClusterSound(c, peers) && Enabled(c, Deliver(reply)) && Tolerable(c, Deliver(reply), reply.to, peers)
    requires CoreExact(c.nodes[reply.to], peers)
    ensures CoreExact(Delivered(c.nodes[reply.to], reply, digest), peers)
  {
    hide ClusterSound, NodeSound, Applied, CoreExact, StillOpen, Deliverable;
    var s := c.nodes[reply.to];
    var heard := s.Heard(reply.lamportTime);
    HeardIsReady(c, reply, peers, digest);
    AppliedIsExact(heard, reply.to, c.dag, peers, digest, reply.events, s.store.event.Keys + HashesOf(reply.events));
  }

  lemma OtherStepIsExact(c: Cluster, step: Step, i: PeerId, peers: set<PeerId>, digest: EventHash -> nat)
    requires ClusterSound(c, peers) && Enabled(c, step) && i in peers
    requires i in c.nodes && CoreExact(c.nodes[i], peers) && !step.Create? && !step.Deliver?
    ensures i in Next(c, step, digest).nodes && CoreExact(Next(c, step, digest).nodes[i], peers)
  {
    hide ClusterSound, NodeSound, StoreSound, StoreExact, FramesSound, Next, Enabled;
    var c' := Next(c, step, digest);
    OthersLeaveStore(c, step, i, peers, digest);
    NodeAt(c', i, peers);
    NodePeersAreValid(c'.nodes[i], i, c'.dag, peers);
  }

  // Whatever the step, a node that was exact is exact afterwards or repeats an event in its final sequence for
  // good.
  lemma StepExactOrRepeats(c: Cluster, step: Step, i: PeerId, peers: set<PeerId>, digest: EventHash -> nat)
    requires ClusterSound(c, peers) && Enabled(c, step) && i in peers && i in c.nodes && CoreExact(c.nodes[i], peers)
    ensures var c' := Next(c, step, digest);
            i in c'.nodes && (CoreExact(c'.nodes[i], peers) || RepeatsFinally(c'.nodes[i], |peers|))
  {
    hide CoreExact, ClusterSound, Delivered, RepeatsFinally, StillOpen;
    if step.Deliver? && step.reply.to == i {
      DeliveryExactOrRepeats(c, step.reply, peers, digest);
    } else {
      StepIsExact(c, step, i, peers, digest);
    }
  }

  lemma DeliveryExactOrRepeats(c: Cluster, reply: SyncReply, peers: set<PeerId>, digest: EventHash -> nat)
    requires ClusterSound(c, peers) && Enabled(c, Deliver(reply)) && CoreExact(c.nodes[reply.to], peers)
    ensures var t := Delivered(c.nodes[reply.to], reply, digest);
            CoreExact(t, peers) || RepeatsFinally(t, |peers|)
  {
    hide ClusterSound, NodeSound, Applied, CoreExact, RepeatsFinally, Deliverable;
    var heard := c.nodes[reply.to].Heard(reply.lamportTime);
    HeardIsReady(c, reply, peers, digest);
    AppliedExactOrRepeats(heard, reply.to, c.dag, peers, digest, reply.events);
  }
}
