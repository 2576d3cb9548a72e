/** Requests, answers and deliveries, one after the other or overlapping. */
module Exchanges {
  import opened Events
  import opened Peers
  import opened Stores
  import opened Cores
  import opened Refinement
  import opened Soundness
  import opened Protocol
  import opened Nodes
  import opened Steps
  import opened Cluster

  // A request of `i`, the answer to it with `events` and the reply's delivery, one after the other.
  ghost function Asked(c: Cluster, i: PeerId, digest: EventHash -> nat): Cluster
    requires Enabled(c, Request(i))
  {
    Next(c, Request(i), digest)
  }

  ghost predicate CanExchange(c: Cluster, i: PeerId, events: seq<NetEvent>) {
    && Enabled(c, Request(i)) && RequestOf(c.nodes[i]).to in c.nodes
    && IsGossip(events, c.nodes[RequestOf(c.nodes[i]).to].store.eventOf, GossipOf(c.nodes[i].peers.peers))
  }

  lemma AskingLeavesStores(c: Cluster, i: PeerId, events: seq<NetEvent>, digest: EventHash -> nat)
    requires CanExchange(c, i, events)
    ensures Enabled(Asked(c, i, digest), Answer(RequestOf(c.nodes[i]), events))
    ensures Asked(c, i, digest).nodes.Keys == c.nodes.Keys
    ensures forall j :: j in c.nodes ==> Asked(c, i, digest).nodes[j].store == c.nodes[j].store
  {
    hide IsGossip;
  }

  ghost function Answered(c: Cluster, i: PeerId, events: seq<NetEvent>, digest: EventHash -> nat): Cluster
    requires CanExchange(c, i, events)
  {
    AskingLeavesStores(c, i, events, digest);
    Next(Asked(c, i, digest), Answer(RequestOf(c.nodes[i]), events), digest)
  }

  ghost function ReplyOf(c: Cluster, i: PeerId, events: seq<NetEvent>, digest: EventHash -> nat): SyncReply
    requires CanExchange(c, i, events)
  {
    AskingLeavesStores(c, i, events, digest);
    ReplyTo(Asked(c, i, digest).nodes[RequestOf(c.nodes[i]).to], RequestOf(c.nodes[i]), events)
  }

  lemma AnsweringLeavesStores(c: Cluster, i: PeerId, events: seq<NetEvent>, digest: EventHash -> nat)
    requires CanExchange(c, i, events)
    ensures ReplyOf(c, i, events, digest) in Answered(c, i, events, digest).replies
    ensures ReplyOf(c, i, events, digest).events == events
    ensures ReplyOf(c, i, events, digest).to == c.nodes[i].peers.creator
    ensures i in Answered(c, i, events, digest).nodes
    ensures Answered(c, i, events, digest).nodes[i].store == c.nodes[i].store
  {
    hide IsGossip;
    AskingLeavesStores(c, i, events, digest);
  }

  // An undisturbed exchange is always applicable, never hits the requester, and leaves it with exactly the
  // union of what both nodes knew.
  lemma ExchangeUnitesKnowledge(c: Cluster, i: PeerId, events: seq<NetEvent>, peers: set<PeerId>,
                                digest: EventHash -> nat)
    requires ClusterSound(c, peers) && CanExchange(c, i, events)
    ensures var answered, delivery := Answered(c, i, events, digest), Deliver(ReplyOf(c, i, events, digest));
            && Enabled(answered, delivery) && !Hits(answered, delivery, i)
            && i in Next(answered, delivery, digest).nodes
            && Next(answered, delivery, digest).nodes[i].store.event.Keys
               == c.nodes[i].store.event.Keys + c.nodes[RequestOf(c.nodes[i]).to].store.event.Keys
  {
    hide ClusterSound, IsGossip, Answered, ReplyOf, Asked, Delivered, HashesOf, CanApply, NodeSound, FinalityGrows;
    AnswerBringsTheDifference(c, i, events, peers);
    AnsweringLeavesStores(c, i, events, digest);
    AnsweredIsSound(c, i, events, peers, digest);
    DeliveryIsSound(Answered(c, i, events, digest), ReplyOf(c, i, events, digest), peers, digest);
  }

  // It leaves both nodes with the larger of their clocks, which the reply carries.
  lemma ExchangeUnitesClocks(c: Cluster, i: PeerId, events: seq<NetEvent>, peers: set<PeerId>, digest: EventHash -> nat)
    requires ClusterSound(c, peers) && CanExchange(c, i, events)
    ensures var j, answered := RequestOf(c.nodes[i]).to, Answered(c, i, events, digest);
            var reply := ReplyOf(c, i, events, digest);
            var mine, theirs := c.nodes[i].lamportTime, c.nodes[j].lamportTime;
            && Enabled(answered, Deliver(reply)) && j in answered.nodes
            && answered.nodes[j].lamportTime == (if mine >= theirs then mine else theirs)
            && reply.lamportTime == (if mine >= theirs then mine else theirs)
            && i in Next(answered, Deliver(reply), digest).nodes
            && Next(answered, Deliver(reply), digest).nodes[i].lamportTime == (if mine >= theirs then mine else theirs)
  {
    hide ClusterSound, IsGossip, Applied, CanApply, NodeSound, FinalityGrows;
    AnswerBringsTheDifference(c, i, events, peers);
    AnsweringLeavesStores(c, i, events, digest);
    AnsweredIsSound(c, i, events, peers, digest);
    var answered, reply := Answered(c, i, events, digest), ReplyOf(c, i, events, digest);
    HeardIsReady(answered, reply, peers, digest);
    AppliedIsSound(answered.nodes[i].Heard(reply.lamportTime), i, answered.dag, peers, digest, events);
  }

  lemma AnswerBringsTheDifference(c: Cluster, i: PeerId, events: seq<NetEvent>, peers: set<PeerId>)
    requires ClusterSound(c, peers) && CanExchange(c, i, events)
    ensures c.nodes[i].peers.creator == i
    ensures HashesOf(events) == c.nodes[RequestOf(c.nodes[i]).to].store.event.Keys - c.nodes[i].store.event.Keys
  {
    hide StoreSound, MessagesTrue, AllConserved, IsGossip;
    var to := RequestOf(c.nodes[i]).to;
    NodeAt(c, i, peers);
    NodeAt(c, to, peers);
    AnswerIsTheDifference(c.nodes[i], c.nodes[to], i, c.dag, peers, events);
  }

  lemma AnsweredIsSound(c: Cluster, i: PeerId, events: seq<NetEvent>, peers: set<PeerId>, digest: EventHash -> nat)
    requires ClusterSound(c, peers) && CanExchange(c, i, events)
    ensures ClusterSound(Answered(c, i, events, digest), peers)
  {
    hide ClusterSound, IsGossip, Enabled, Next;
    CanAsk(c, i, events);
    StepsKeep(c, Request(i), peers, digest);
    AskingLeavesStores(c, i, events, digest);
    StepsKeep(Asked(c, i, digest), Answer(RequestOf(c.nodes[i]), events), peers, digest);
  }

  lemma CanAsk(c: Cluster, i: PeerId, events: seq<NetEvent>)
    requires CanExchange(c, i, events)
    ensures i in c.nodes && Enabled(c, Request(i))
  {
  }

  // Overlapping requests

  // The answers to two requests of one node, by the same contact or by two, both carry every event that
  // both contacts have above the heights both requests list; once the node has it, what is left of the two
  // replies is stale.
  lemma AnswersOverlap(c: Cluster, one: SyncReq, first: seq<NetEvent>, two: SyncReq, second: seq<NetEvent>,
                       x: EventHash, peers: set<PeerId>)
    requires ClusterSound(c, peers) && Enabled(c, Answer(one, first)) && Enabled(c, Answer(two, second))
    requires x in c.nodes[one.to].store.event && x in c.nodes[two.to].store.event
    requires Creator(x) in one.gossipList && one.gossipList[Creator(x)].height < HeightOf(x)
    requires Creator(x) in two.gossipList && two.gossipList[Creator(x)].height < HeightOf(x)
    ensures x in HashesOf(first) && x in HashesOf(second)
    ensures forall s: CoreState, reply: SyncReply :: x in s.store.event && reply.events == second ==> Stale(s, reply)
  {
    AnswerCarries(c, one, first, x, peers);
    AnswerCarries(c, two, second, x, peers);
    hide HashesOf;
    forall s: CoreState, reply: SyncReply | x in s.store.event && reply.events == second ensures Stale(s, reply) {
      assert x in HashesOf(reply.events) && x in s.store.event.Keys;
    }
  }

  lemma AnswerCarries(c: Cluster, req: SyncReq, events: seq<NetEvent>, x: EventHash, peers: set<PeerId>)
    requires ClusterSound(c, peers) && Enabled(c, Answer(req, events)) && x in c.nodes[req.to].store.event
    requires Creator(x) in req.gossipList && req.gossipList[Creator(x)].height < HeightOf(x)
    ensures x in HashesOf(events)
  {
    hide NodeSound, StoreSound, AllConserved, GraphTrue, NodesSound, InSuffix;
    assert RequestTrue(req, c.nodes, peers);
    NodeAt(c, req.to, peers);
    var s := c.nodes[req.to];
    NodePeersAreValid(s, req.to, c.dag, peers);
    UnknownIsInSuffix(s, peers, req.gossipList, x);
    assert NetAt(x) in events;
    NetRoundTrip(x, 0);
  }

  // A request always has an answer.
  lemma SomeAnswer(c: Cluster, j: PeerId, gossip: GossipList, peers: set<PeerId>) returns (events: seq<NetEvent>)
    requires ClusterSound(c, peers) && j in c.nodes
    ensures IsGossip(events, c.nodes[j].store.eventOf, gossip)
  {
    hide IsGossip;
    NodeAt(c, j, peers);
    var st := c.nodes[j].store;
    forall k | k in st.eventOf ensures k == (st.eventOf[k].creator, st.eventOf[k].height) {
      assert FiledByHash(k, st.event, st.eventOf);
    }
    events := GossipExists(st, gossip);
  }
}
