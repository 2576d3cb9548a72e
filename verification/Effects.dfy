/** What single steps of a run do, told without the functions they are computed with: whose word a message
    carries, what a new event stands on and carries, how clocks move, and what a node has heard of the others. */
module Effects {
  import opened Events
  import opened Peers
  import opened Stores
  import opened Dag
  import opened Cores
  import opened Refinement
  import opened Soundness
  import opened Protocol
  import opened Nodes
  import opened Steps
  import opened Stream
  import opened Cluster
  import opened Runs

  // Clocks

  function Later(a: LamportTime, b: LamportTime): LamportTime { if a >= b then a else b }

  lemma {:induction false} AppliedKeepsClock(s: CoreState, events: seq<NetEvent>, digest: EventHash -> nat)
    ensures Applied(s, events, digest).lamportTime == s.lamportTime
    decreases |events|
  {
    hide Inserted;
    if events == [] {
    } else {
      InsertedKeepsPeers(s, events[0].ToEvent(), digest);
      AppliedKeepsClock(AppliedOne(s, events[0], digest), events[1..], digest);
    }
  }

  // A clock moves one on with each event its node creates, to a message's time when that is later, and at no
  // other time. It starts at zero.
  lemma ClocksMove(run: seq<Cluster>, steps: seq<Step>, lists: Lists, peers: set<PeerId>, digest: EventHash -> nat,
                   k: nat, i: PeerId)
    requires IsRun(run, steps, lists, peers, digest) && k < |steps| && i in peers
    ensures i in run[0].nodes && i in run[k].nodes && i in run[k + 1].nodes && run[0].nodes[i].lamportTime == 0
    ensures run[k + 1].nodes[i].lamportTime
         == match steps[k]
            case Create(m, _) => if m == i then run[k].nodes[i].lamportTime + 1 else run[k].nodes[i].lamportTime
            case Answer(req, _) =>
              if req.to == i then Later(run[k].nodes[i].lamportTime, req.lamportTime) else run[k].nodes[i].lamportTime
            case Deliver(reply) =>
              if reply.to == i then Later(run[k].nodes[i].lamportTime, reply.lamportTime)
              else run[k].nodes[i].lamportTime
            case _ => run[k].nodes[i].lamportTime
  {
    hide Initial, ClusterSound, Enabled, Next;
    EveryStateIsSound(run, steps, lists, peers, digest, 0);
    EveryStateIsSound(run, steps, lists, peers, digest, k);
    HasNode(run[0], peers, i);
    HasNode(run[k], peers, i);
    ClockStarts(run[0], lists, peers, i);
    assert Enabled(run[k], steps[k]) && run[k + 1] == Next(run[k], steps[k], digest);
    ClockOfStep(run[k], steps[k], i, digest);
  }

  lemma ClockStarts(c: Cluster, lists: Lists, peers: set<PeerId>, i: PeerId)
    requires Initial(c, lists, peers) && i in peers
    ensures i in c.nodes && c.nodes[i].lamportTime == 0
  {
    assert HasBooted(c, i, lists[i], peers);
    BootedParts(lists[i], i);
  }

  lemma ClockOfStep(c: Cluster, step: Step, i: PeerId, digest: EventHash -> nat)
    requires Enabled(c, step) && i in c.nodes
    ensures i in Next(c, step, digest).nodes
    ensures Next(c, step, digest).nodes[i].lamportTime
         == match step
            case Create(m, _) => if m == i then c.nodes[i].lamportTime + 1 else c.nodes[i].lamportTime
            case Answer(req, _) =>
              if req.to == i then Later(c.nodes[i].lamportTime, req.lamportTime) else c.nodes[i].lamportTime
            case Deliver(reply) =>
              if reply.to == i then Later(c.nodes[i].lamportTime, reply.lamportTime) else c.nodes[i].lamportTime
            case _ => c.nodes[i].lamportTime
  {
    hide Created, Delivered, Polled, CanCreate, IsGossip, NewEvent;
    match step
    case Create(m, j) => ClockOfCreation(c.nodes[m], j, digest);
    case Deliver(reply) => ClockOfDelivery(c.nodes[reply.to], reply, digest);
    case Consume(m) => PolledLeavesStore(c.nodes[m]);
    case _ =>
  }

  lemma ClockOfCreation(s: CoreState, j: PeerId, digest: EventHash -> nat)
    requires CanCreate(s, j)
    ensures Created(s, j, digest).lamportTime == s.lamportTime + 1
  {
    hide Inserted, NewEvent;
    InsertedKeepsPeers(Prepared(s), NewEvent(s, j), digest);
  }

  lemma ClockOfDelivery(s: CoreState, reply: SyncReply, digest: EventHash -> nat)
    ensures Delivered(s, reply, digest).lamportTime == Later(s.lamportTime, reply.lamportTime)
  {
    hide Applied;
    AppliedKeepsClock(s.Heard(reply.lamportTime), reply.events, digest);
  }

  // Messages

  // What a node lists of every peer.
  ghost predicate ListsOf(g: GossipList, s: CoreState, peers: set<PeerId>) {
    && g.Keys == peers
    && forall c {:trigger g[c]} :: c in peers ==>
         s.peers.Has(c) && g[c] == Gossip(s.peers.Find(c).lamportTime, s.peers.Find(c).height)
  }

  lemma GossipIsList(s: CoreState, peers: set<PeerId>)
    requires s.peers.Valid() && IdsOf(s.peers.peers) == peers
    ensures ListsOf(GossipOf(s.peers.peers), s, peers)
  {
    GossipListsEveryPeer(s.peers.peers);
    forall c | c in peers
      ensures s.peers.Has(c)
      ensures GossipOf(s.peers.peers)[c] == Gossip(s.peers.Find(c).lamportTime, s.peers.Find(c).height)
    {
      PeerIsListed(s.peers.peers, c);
    }
  }

  // Every request under way was sent by the node it names, to a peer, with that node's clock and list of the
  // time.
  lemma {:induction false} RequestWasSent(run: seq<Cluster>, steps: seq<Step>, lists: Lists, peers: set<PeerId>,
                                          digest: EventHash -> nat, k: nat, req: SyncReq) returns (m: nat)
    requires IsRun(run, steps, lists, peers, digest) && k < |run| && req in run[k].requests
    ensures m < k && steps[m] == Request(req.from) && req.from in run[m].nodes
    ensures req.lamportTime == run[m].nodes[req.from].lamportTime && req.to in peers
    ensures ListsOf(req.gossipList, run[m].nodes[req.from], peers)
  {
    hide Initial, ClusterSound, Enabled, Next, ListsOf;
    if k == 0 {
      NothingSent(run[0], lists, peers);
      assert false;
    } else {
      assert Enabled(run[k - 1], steps[k - 1]) && run[k] == Next(run[k - 1], steps[k - 1], digest);
      if req in run[k - 1].requests {
        m := RequestWasSent(run, steps, lists, peers, digest, k - 1, req);
      } else {
        m := k - 1;
        EveryStateIsSound(run, steps, lists, peers, digest, m);
        NewRequest(run[m], steps[m], req, peers, digest);
      }
    }
  }

  lemma NothingSent(c: Cluster, lists: Lists, peers: set<PeerId>)
    requires Initial(c, lists, peers)
    ensures c.requests == multiset{} && c.replies == multiset{}
  {
  }

  lemma NewRequest(c: Cluster, step: Step, req: SyncReq, peers: set<PeerId>, digest: EventHash -> nat)
    requires ClusterSound(c, peers) && Enabled(c, step)
    requires req !in c.requests && req in Next(c, step, digest).requests
    ensures step == Request(req.from) && req.from in c.nodes
    ensures req.lamportTime == c.nodes[req.from].lamportTime && req.to in peers
    ensures ListsOf(req.gossipList, c.nodes[req.from], peers)
  {
    hide ClusterSound, NodeSound, ListsOf, Created, Delivered, Polled, Answering, ReplyTo, IsGossip;
    assert step.Request?;
    var i := step.node;
    NodeAt(c, i, peers);
    NodePeersAreValid(c.nodes[i], i, c.dag, peers);
    GossipIsList(c.nodes[i], peers);
    ContactIsPeer(c.nodes[i], i, c.dag, peers);
  }

  // Every reply under way answers a request that was under way, with the later of the two clocks, the list
  // of the answering node, and the gap-free suffixes of its events.
  lemma {:induction false} ReplyWasSent(run: seq<Cluster>, steps: seq<Step>, lists: Lists, peers: set<PeerId>,
                                        digest: EventHash -> nat, k: nat, reply: SyncReply)
    returns (m: nat, req: SyncReq)
    requires IsRun(run, steps, lists, peers, digest) && k < |run| && reply in run[k].replies
    ensures m < k && steps[m] == Answer(req, reply.events) && req in run[m].requests
    ensures reply.from == req.to && reply.to == req.from && req.to in run[m].nodes
    ensures reply.lamportTime == Later(run[m].nodes[req.to].lamportTime, req.lamportTime)
    ensures ListsOf(reply.gossipList, run[m].nodes[req.to], peers)
    ensures IsGossip(reply.events, run[m].nodes[req.to].store.eventOf, req.gossipList)
  {
    hide Initial, ClusterSound, Enabled, Next, ListsOf, IsGossip;
    if k == 0 {
      NothingSent(run[0], lists, peers);
      assert false;
    } else {
      assert Enabled(run[k - 1], steps[k - 1]) && run[k] == Next(run[k - 1], steps[k - 1], digest);
      if reply in run[k - 1].replies {
        m, req := ReplyWasSent(run, steps, lists, peers, digest, k - 1, reply);
      } else {
        m := k - 1;
        EveryStateIsSound(run, steps, lists, peers, digest, m);
        req := NewReply(run[m], steps[m], reply, peers, digest);
      }
    }
  }

  lemma NewReply(c: Cluster, step: Step, reply: SyncReply, peers: set<PeerId>, digest: EventHash -> nat)
    returns (req: SyncReq)
    requires ClusterSound(c, peers) && Enabled(c, step)
    requires reply !in c.replies && reply in Next(c, step, digest).replies
    ensures step == Answer(req, reply.events) && req in c.requests
    ensures reply.from == req.to && reply.to == req.from && req.to in c.nodes
    ensures reply.lamportTime == Later(c.nodes[req.to].lamportTime, req.lamportTime)
    ensures ListsOf(reply.gossipList, c.nodes[req.to], peers)
    ensures IsGossip(reply.events, c.nodes[req.to].store.eventOf, req.gossipList)
  {
    hide ClusterSound, NodeSound, ListsOf, Created, Delivered, Polled, Answering, RequestOf, IsGossip;
    assert step.Answer?;
    req := step.req;
    NodeAt(c, req.to, peers);
    NodePeersAreValid(c.nodes[req.to], req.to, c.dag, peers);
    GossipIsList(c.nodes[req.to], peers);
  }

  // The clock of the asker when it asked reaches the answering node with the answer, and its entry in that
  // node's list; nothing else changes there.
  lemma AnswersCarryClocks(run: seq<Cluster>, steps: seq<Step>, lists: Lists, peers: set<PeerId>,
                           digest: EventHash -> nat, k: nat) returns (m: nat)
    requires IsRun(run, steps, lists, peers, digest) && k < |steps| && steps[k].Answer?
    ensures m < k && steps[m] == Request(steps[k].req.from)
    ensures var from, to := steps[k].req.from, steps[k].req.to;
            && from in run[m].nodes && to in run[k].nodes && to in run[k + 1].nodes
            && var s, t, time := run[k].nodes[to], run[k + 1].nodes[to], run[m].nodes[from].lamportTime;
            && t.lamportTime == Later(s.lamportTime, time)
            && t == s.(lamportTime := t.lamportTime, peers := t.peers)
            && s.peers.Has(from) && t.peers.Has(from) && IsRaised(s.peers.Find(from), t.peers.Find(from), time, 0)
            && forall x :: x != from && s.peers.Has(x) ==> t.peers.Has(x) && t.peers.Find(x) == s.peers.Find(x)
  {
    hide Initial, ClusterSound, Next, IsGossip, ListsOf, IsRaised;
    var req := steps[k].req;
    assert Enabled(run[k], steps[k]) && run[k + 1] == Next(run[k], steps[k], digest);
    m := RequestWasSent(run, steps, lists, peers, digest, k, req);
    EveryStateIsSound(run, steps, lists, peers, digest, k);
    EveryStateIsSound(run, steps, lists, peers, digest, m);
    AnswerRaises(run[k], steps[k], peers, digest);
  }

  lemma AnswerRaises(c: Cluster, step: Step, peers: set<PeerId>, digest: EventHash -> nat)
    requires ClusterSound(c, peers) && Enabled(c, step) && step.Answer?
    ensures var from, to := step.req.from, step.req.to;
            && to in Next(c, step, digest).nodes
            && var s, t, time := c.nodes[to], Next(c, step, digest).nodes[to], step.req.lamportTime;
            && t.lamportTime == Later(s.lamportTime, time)
            && t == s.(lamportTime := t.lamportTime, peers := t.peers)
            && s.peers.Has(from) && t.peers.Has(from) && IsRaised(s.peers.Find(from), t.peers.Find(from), time, 0)
            && forall x :: x != from && s.peers.Has(x) ==> t.peers.Has(x) && t.peers.Find(x) == s.peers.Find(x)
  {
    hide ClusterSound, NodeSound, IsGossip, IsRaised;
    var req := step.req;
    NodeAt(c, req.to, peers);
    NodePeersAreValid(c.nodes[req.to], req.to, c.dag, peers);
    SenderIsPeer(c, req, peers);
    PeerIsListed(c.nodes[req.to].peers.peers, req.from);
    UpdatedRaises(c.nodes[req.to].peers, req.from, req.lamportTime, 0);
  }

  lemma SenderIsPeer(c: Cluster, req: SyncReq, peers: set<PeerId>)
    requires ClusterSound(c, peers) && req in c.requests
    ensures req.from in peers
  {
    assert RequestTrue(req, c.nodes, peers);
  }

  // Creation

  // A new event stands on the last event of its creator and on the last event that the creator has of the
  // contact it asked; it carries the front of the pool, all of it unless there are more than 16000 transactions; and
  // its time is the clock's next.
  lemma CreationTakesHeads(run: seq<Cluster>, steps: seq<Step>, lists: Lists, peers: set<PeerId>,
                           digest: EventHash -> nat, k: nat) returns (x: EventHash)
    requires IsRun(run, steps, lists, peers, digest) && k < |steps| && steps[k].Create?
    ensures var i, j := steps[k].node, steps[k].other;
            && i in run[k].nodes && i in run[k + 1].nodes && j in run[k].nodes && i != j
            && i in run[k].pending && run[k].pending[i] == j && i !in run[k + 1].pending
            && x !in run[k].dag && run[k + 1].dag == run[k].dag + {x} && IsInner(x) && Creator(x) == i
            && var s, t := run[k].nodes[i], run[k + 1].nodes[i];
            && t.store.event.Keys == s.store.event.Keys + {x}
            && SelfParent(x) in s.store.event && Creator(SelfParent(x)) == i
            && IsHead(i, HeightOf(SelfParent(x)), s.store.event.Keys) && HeightOf(x) == HeightOf(SelfParent(x)) + 1
            && OtherParent(x) in s.store.event && Creator(OtherParent(x)) == j
            && IsHead(j, HeightOf(OtherParent(x)), s.store.event.Keys)
            && Lamport(x) == t.lamportTime == s.lamportTime + 1
            && Payload(x) + t.txPool == s.txPool && |Payload(x)| <= 16000 && (t.txPool != [] ==> |Payload(x)| == 16000)
  {
    hide Initial, ClusterSound, Next;
    assert Enabled(run[k], steps[k]) && run[k + 1] == Next(run[k], steps[k], digest);
    EveryStateIsSound(run, steps, lists, peers, digest, k);
    x := NewEventStands(run[k], steps[k], peers, digest);
  }

  lemma NewEventStands(c: Cluster, step: Step, peers: set<PeerId>, digest: EventHash -> nat) returns (x: EventHash)
    requires ClusterSound(c, peers) && Enabled(c, step) && step.Create?
    ensures var i, j, c' := step.node, step.other, Next(c, step, digest);
            && i in c'.nodes && i !in c'.pending
            && x !in c.dag && c'.dag == c.dag + {x} && IsInner(x) && Creator(x) == i
            && var s, t := c.nodes[i], c'.nodes[i];
            && t.store.event.Keys == s.store.event.Keys + {x}
            && SelfParent(x) in s.store.event && Creator(SelfParent(x)) == i
            && IsHead(i, HeightOf(SelfParent(x)), s.store.event.Keys) && HeightOf(x) == HeightOf(SelfParent(x)) + 1
            && OtherParent(x) in s.store.event && Creator(OtherParent(x)) == j
            && IsHead(j, HeightOf(OtherParent(x)), s.store.event.Keys)
            && Lamport(x) == t.lamportTime == s.lamportTime + 1
            && Payload(x) + t.txPool == s.txPool && |Payload(x)| <= 16000 && (t.txPool != [] ==> |Payload(x)| == 16000)
  {
    hide ClusterSound, NodeSound, Inserted, GraphTrue, IsHead;
    var i, j := step.node, step.other;
    var s := c.nodes[i];
    x := NewEvent(s, j).hash;
    NodeAt(c, i, peers);
    NodeAt(c, j, peers);
    HeadIsStored(s, i, c.dag, peers, i);
    HeadIsStored(s, i, c.dag, peers, j);
    NewEventIsFresh(s, i, c.dag, peers, j);
    CreatedIsSound(s, i, c.dag, peers, digest, j);
    InsertedKeepsPeers(Prepared(s), NewEvent(s, j), digest);
    s.FrontOfThePool();
    NewEventIsInner(c.dag, x, peers);
  }

  lemma NewEventIsInner(dag: set<EventHash>, x: EventHash, peers: set<PeerId>)
    requires GraphTrue(dag + {x}, peers) && HeightOf(x) > 0
    ensures IsInner(x)
  {
    ClosedIsInner(dag + {x}, peers, x);
  }

  // What has been heard of others

  // The entry of every other peer has at least the time of each of that peer's events, and none is ahead of
  // the node's own clock.
  ghost predicate HeardOf(s: CoreState, me: PeerId) {
    && (forall c {:trigger s.peers.Find(c)} {:trigger s.peers.Has(c)} :: s.peers.Has(c) ==>
          s.peers.Find(c).lamportTime <= s.lamportTime)
    && forall h {:trigger h in s.store.event} :: h in s.store.event && Creator(h) != me ==>
         s.peers.Has(Creator(h)) && Lamport(h) <= s.peers.Find(Creator(h)).lamportTime
  }

  lemma {:induction false} TimesAreHeard(run: seq<Cluster>, steps: seq<Step>, lists: Lists, peers: set<PeerId>,
                                         digest: EventHash -> nat, k: nat, i: PeerId)
    requires IsRun(run, steps, lists, peers, digest) && k < |run| && i in peers
    ensures i in run[k].nodes && HeardOf(run[k].nodes[i], i)
  {
    hide Initial, ClusterSound, Enabled, Next, HeardOf;
    if k == 0 {
      NothingHeard(run[0], lists, peers, digest, i);
    } else {
      TimesAreHeard(run, steps, lists, peers, digest, k - 1, i);
      EveryStateIsSound(run, steps, lists, peers, digest, k - 1);
      assert Enabled(run[k - 1], steps[k - 1]) && run[k] == Next(run[k - 1], steps[k - 1], digest);
      StepIsHeard(run[k - 1], steps[k - 1], i, peers, digest);
    }
  }

  lemma NothingHeard(c: Cluster, lists: Lists, peers: set<PeerId>, digest: EventHash -> nat, i: PeerId)
    requires Initial(c, lists, peers) && i in peers
    ensures i in c.nodes && HeardOf(c.nodes[i], i)
  {
    hide WithLeaves, Booted, ClusterSound, NodeSound;
    InitialIsSound(c, lists, peers, digest);
    NodeAt(c, i, peers);
    NodePeersAreValid(c.nodes[i], i, c.dag, peers);
    FreshAtStart(c, lists, peers, i);
    OnlyLeavesHeard(c.nodes[i], i, peers);
  }

  lemma FreshAtStart(c: Cluster, lists: Lists, peers: set<PeerId>, i: PeerId)
    requires Initial(c, lists, peers) && i in peers
    ensures i in c.nodes && c.dag == LeavesOf(peers) && FreshPeers(c.nodes[i].peers.peers)
  {
    hide WithLeaves, Booted;
    assert HasBooted(c, i, lists[i], peers);
    BootedParts(lists[i], i);
  }

  lemma OnlyLeavesHeard(s: CoreState, me: PeerId, peers: set<PeerId>)
    requires s.store.event.Keys <= LeavesOf(peers) && IdsOf(s.peers.peers) == peers && FreshPeers(s.peers.peers)
    ensures HeardOf(s, me)
  {
    LeavesAreAGraph(peers);
    forall h | h in s.store.event
      ensures s.peers.Has(Creator(h)) && Lamport(h) <= s.peers.Find(Creator(h)).lamportTime
    {
      assert h in LeavesOf(peers);
      PeerIsListed(s.peers.peers, Creator(h));
    }
  }

  // Neither what is stored nor any entry changes, and the clock does not go back.
  lemma SameIsHeard(s: CoreState, t: CoreState, me: PeerId)
    requires HeardOf(s, me) && t.store.event.Keys == s.store.event.Keys && t.peers.peers == s.peers.peers
    requires t.lamportTime >= s.lamportTime
    ensures HeardOf(t, me)
  {
    assert forall c :: t.peers.Has(c) <==> s.peers.Has(c);
    assert forall c :: s.peers.Has(c) ==> t.peers.Find(c) == s.peers.Find(c);
  }

  // Own events are added, or others of which the entry is raised.
  lemma MoreIsHeard(s: CoreState, t: CoreState, me: PeerId)
    requires HeardOf(s, me) && t.lamportTime >= s.lamportTime
    requires forall c :: t.peers.Has(c) <==> s.peers.Has(c)
    requires forall c :: s.peers.Has(c) ==> t.peers.Find(c).lamportTime >= s.peers.Find(c).lamportTime
    requires forall c :: s.peers.Has(c) ==>
               || t.peers.Find(c).lamportTime == s.peers.Find(c).lamportTime
               || t.peers.Find(c).lamportTime <= t.lamportTime
    requires forall h :: h in t.store.event && h !in s.store.event && Creator(h) != me ==>
               s.peers.Has(Creator(h)) && Lamport(h) <= t.peers.Find(Creator(h)).lamportTime
    ensures HeardOf(t, me)
  {
  }

  lemma StepIsHeard(c: Cluster, step: Step, i: PeerId, peers: set<PeerId>, digest: EventHash -> nat)
    requires ClusterSound(c, peers) && Enabled(c, step) && i in c.nodes && HeardOf(c.nodes[i], i)
    ensures i in Next(c, step, digest).nodes && HeardOf(Next(c, step, digest).nodes[i], i)
  {
    hide ClusterSound, HeardOf, Created, Delivered, Polled, IsGossip, CanCreate, Next;
    match step
    case Create(m, j) => CreationIsHeard(c, m, j, i, peers, digest);
    case Answer(req, events) => AnswerIsHeard(c, step, i, peers, digest);
    case Deliver(reply) => DeliveryIsHeard(c, reply, i, peers, digest);
    case _ => PlainStepIsHeard(c, step, i, digest);
  }

  lemma PlainStepIsHeard(c: Cluster, step: Step, i: PeerId, digest: EventHash -> nat)
    requires Enabled(c, step) && i in c.nodes && HeardOf(c.nodes[i], i)
    requires step.Submit? || step.Request? || step.Consume?
    ensures i in Next(c, step, digest).nodes && HeardOf(Next(c, step, digest).nodes[i], i)
  {
    hide HeardOf, Polled, RequestOf;
    if step.Consume? { PolledLeavesStore(c.nodes[step.node]); }
    SameIsHeard(c.nodes[i], Next(c, step, digest).nodes[i], i);
  }

  lemma CreationIsHeard(c: Cluster, m: PeerId, j: PeerId, i: PeerId, peers: set<PeerId>, digest: EventHash -> nat)
    requires ClusterSound(c, peers) && Enabled(c, Create(m, j)) && i in c.nodes && HeardOf(c.nodes[i], i)
    ensures i in Next(c, Create(m, j), digest).nodes && HeardOf(Next(c, Create(m, j), digest).nodes[i], i)
  {
    hide ClusterSound, NodeSound, HeardOf, Created, GraphTrue, CanCreate, NewEvent;
    if m == i {
      NodeAt(c, i, peers);
      NodeAt(c, j, peers);
      CreatedIsHeard(c.nodes[i], i, c.dag, peers, digest, j);
    }
  }

  lemma CreatedIsHeard(s: CoreState, me: PeerId, dag: set<EventHash>, peers: set<PeerId>, digest: EventHash -> nat,
                       j: PeerId)
    requires NodeSound(s, me, dag, peers) && GraphTrue(dag, peers) && me in peers && j in peers && j != me
    requires HeardOf(s, me)
    ensures CanCreate(s, j) && HeardOf(Created(s, j, digest), me)
  {
    hide NodeSound, HeardOf, Created, GraphTrue, CanCreate, NewEvent, RecordsGrow;
    NewEventIsFresh(s, me, dag, peers, j);
    CreatedIsSound(s, me, dag, peers, digest, j);
    CreationKeepsEntries(s, j, digest);
    MoreIsHeard(s, Created(s, j, digest), me);
  }

  lemma CreationKeepsEntries(s: CoreState, j: PeerId, digest: EventHash -> nat)
    requires CanCreate(s, j)
    ensures var t := Created(s, j, digest);
            && t.lamportTime == s.lamportTime + 1
            && (forall x :: t.peers.Has(x) <==> s.peers.Has(x))
            && forall x :: s.peers.Has(x) ==> t.peers.Find(x).lamportTime == s.peers.Find(x).lamportTime
  {
    hide Inserted, NewEvent;
    var me := s.peers.creator;
    InsertedKeepsPeers(Prepared(s), NewEvent(s, j), digest);
    UpdatedRaises(s.peers, me, 0, s.peers.Find(me).height + 1);
  }

  lemma AnswerIsHeard(c: Cluster, step: Step, i: PeerId, peers: set<PeerId>, digest: EventHash -> nat)
    requires ClusterSound(c, peers) && Enabled(c, step) && step.Answer? && i in c.nodes && HeardOf(c.nodes[i], i)
    ensures i in Next(c, step, digest).nodes && HeardOf(Next(c, step, digest).nodes[i], i)
  {
    hide ClusterSound, NodeSound, HeardOf, IsGossip, ReplyTo;
    var req := step.req;
    if req.to == i {
      NodeAt(c, i, peers);
      NodePeersAreValid(c.nodes[i], i, c.dag, peers);
      SenderIsPeer(c, req, peers);
      PeerIsListed(c.nodes[i].peers.peers, req.from);
      AnsweringIsHeard(c.nodes[i], req, i);
    }
  }

  lemma AnsweringIsHeard(s: CoreState, req: SyncReq, me: PeerId)
    requires HeardOf(s, me) && s.peers.Has(req.from)
    ensures HeardOf(Answering(s, req), me)
  {
    hide HeardOf;
    UpdatedRaises(s.peers, req.from, req.lamportTime, 0);
    MoreIsHeard(s, Answering(s, req), me);
  }

  lemma DeliveryIsHeard(c: Cluster, reply: SyncReply, i: PeerId, peers: set<PeerId>, digest: EventHash -> nat)
    requires ClusterSound(c, peers) && Enabled(c, Deliver(reply)) && i in c.nodes && HeardOf(c.nodes[i], i)
    ensures i in Next(c, Deliver(reply), digest).nodes && HeardOf(Next(c, Deliver(reply), digest).nodes[i], i)
  {
    hide ClusterSound, HeardOf, Delivered;
    if reply.to == i { DeliveredIsHeard(c, reply, peers, digest); }
  }

  lemma DeliveredIsHeard(c: Cluster, reply: SyncReply, peers: set<PeerId>, digest: EventHash -> nat)
    requires ClusterSound(c, peers) && Enabled(c, Deliver(reply)) && HeardOf(c.nodes[reply.to], reply.to)
    ensures HeardOf(Delivered(c.nodes[reply.to], reply, digest), reply.to)
  {
    hide ClusterSound, NodeSound, HeardOf, Applied, CanApply, FinalityGrows, CoreTrue, CoreExact, GraphTrue;
    hide RecordsGrow;
    var i := reply.to;
    var s := c.nodes[i];
    var heard := s.Heard(reply.lamportTime);
    HeardIsReady(c, reply, peers, digest);
    AppliedIsSound(heard, i, c.dag, peers, digest, reply.events);
    NodePeersAreValid(heard, i, c.dag, peers);
    var t := Applied(heard, reply.events, digest);
    NodePeersAreValid(t, i, c.dag, peers);
    forall e | e in reply.events ensures s.peers.Has(e.creator) && Creator(NetHash(e)) == e.creator {
      CreatorIsPeer(c.dag, peers, NetHash(e));
      PeerIsListed(s.peers.peers, e.creator);
    }
    forall x ensures t.peers.Has(x) <==> s.peers.Has(x) {
      ListedIsPeer(s.peers, peers, x);
      ListedIsPeer(t.peers, peers, x);
    }
    forall x | s.peers.Has(x) ensures LatestHeard(s.peers.Find(x), t.peers.Find(x), reply.events) {
      AppliedRaises(heard, reply.events, digest, x);
    }
    forall h | h in t.store.event && h !in s.store.event
      ensures s.peers.Has(Creator(h)) && Lamport(h) <= t.peers.Find(Creator(h)).lamportTime
    {
      var e :| e in reply.events && NetHash(e) == h;
      assert LatestHeard(s.peers.Find(e.creator), t.peers.Find(e.creator), reply.events);
    }
    MoreIsHeard(s, t, i);
  }

  lemma CreatorIsPeer(dag: set<EventHash>, peers: set<PeerId>, h: EventHash)
    requires GraphTrue(dag, peers) && h in dag
    ensures Creator(h) in peers
  {
    assert WellPlaced(h, dag, peers);
  }

  lemma ListedIsPeer(s: PeersState, peers: set<PeerId>, x: PeerId)
    requires IdsOf(s.peers) == peers
    ensures s.Has(x) <==> x in peers
  {
    if x in peers {
      PeerIsListed(s.peers, x);
    } else if s.Has(x) {
      var p := s.Find(x);
      assert false;
    }
  }
}
