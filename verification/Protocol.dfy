/** The three procedures of a node: asking for events and creating one (procedure A), answering (procedure
    B), and applying an answer (the listener). Each is first a function on the value of a core and then a
    method that does it in place. */
module Protocol {
  import opened Wrappers
  import opened Events
  import opened Peers
  import opened Stores
  import opened Cores

  datatype SyncReq = SyncReq(from: PeerId, to: PeerId, gossipList: GossipList, lamportTime: LamportTime)

  datatype SyncReply = SyncReply(
    from: PeerId, to: PeerId, gossipList: GossipList, lamportTime: LamportTime, events: seq<NetEvent>)

  // Procedure A, first half: the request to the next peer of the schedule.

  function RequestOf(s: CoreState): SyncReq
    requires s.peers.n == |s.peers.peers| > 0
  {
    SyncReq(s.peers.creator, s.peers.peers[s.peers.Contact()].id, GossipOf(s.peers.peers), s.lamportTime)
  }

  // Procedure A, second half: a new event on top of the node's own last event and the last known one of
  // `other`.

  // The lookups of the procedure succeed.
  ghost predicate CanCreate(s: CoreState, other: PeerId) {
    var me := s.peers.creator;
    && other != me && s.peers.Has(me) && s.peers.Has(other)
    && (me, s.peers.Find(me).height) in s.store.eventOf
    && (other, s.peers.Find(other).height) in s.store.eventOf
  }

  function NewEvent(s: CoreState, other: PeerId): Event
    requires CanCreate(s, other)
  {
    var me := s.peers.creator;
    var height := s.peers.Find(me).height;
    Event(me, height + 1, s.store.eventOf[(me, height)].hash, s.store.eventOf[(other, s.peers.Find(other).height)].hash,
          s.lamportTime + 1, s.NextTransactions().0, Default, 0).Hashed()
  }

  // The core when the event is about to be inserted: height and clock stepped, transactions taken.
  function Prepared(s: CoreState): CoreState
    requires s.peers.Has(s.peers.creator)
  {
    s.(peers := s.peers.Updated(s.peers.creator, 0, s.peers.Find(s.peers.creator).height + 1),
       lamportTime := s.lamportTime + 1, txPool := s.NextTransactions().1)
  }

  ghost function Created(s: CoreState, other: PeerId, digest: EventHash -> nat): CoreState
    requires CanCreate(s, other)
  {
    Inserted(Prepared(s), NewEvent(s, other), digest)
  }

  // Procedure B: the reply carries the events the requester lacks.

  function Answering(s: CoreState, req: SyncReq): CoreState {
    s.Heard(req.lamportTime).(peers := s.peers.Updated(req.from, req.lamportTime, 0))
  }

  function ReplyTo(s: CoreState, req: SyncReq, events: seq<NetEvent>): SyncReply {
    SyncReply(req.to, req.from, GossipOf(s.peers.peers), s.Heard(req.lamportTime).lamportTime, events)
  }

  // The listener: the reply's events in their order.

  ghost function AppliedOne(s: CoreState, e: NetEvent, digest: EventHash -> nat): CoreState {
    var t := Inserted(s, e.ToEvent(), digest);
    t.(peers := t.peers.Updated(e.creator, e.lamportTimestamp, e.height))
  }

  ghost function Applied(s: CoreState, events: seq<NetEvent>, digest: EventHash -> nat): CoreState
    decreases |events|
  {
    if events == [] then s else Applied(AppliedOne(s, events[0], digest), events[1..], digest)
  }

  // No insertion of the reply meets a missing parent, and every creator is a peer.
  ghost predicate CanApply(s: CoreState, events: seq<NetEvent>, digest: EventHash -> nat)
    decreases |events|
  {
    events != [] ==>
      && KnowsParents(s.store, events[0].ToEvent()) && s.peers.Has(events[0].creator)
      && CanApply(AppliedOne(s, events[0], digest), events[1..], digest)
  }

  ghost function Delivered(s: CoreState, reply: SyncReply, digest: EventHash -> nat): CoreState {
    Applied(s.Heard(reply.lamportTime), reply.events, digest)
  }

  method SendRequest(core: DAGcore) returns (request: SyncReq)
    requires core.peers.n == |core.peers.peers| > 0
    modifies core.peers
    ensures request == RequestOf(old(core.State()))
    ensures core.State() == old(core.State()).(peers := old(core.peers.State()).Advanced())
  {
    var peer := core.peers.NextPeer();
    var gossipList := core.peers.GetGossipList();
    request := SyncReq(core.peers.creator, peer.id, gossipList, core.lamportTime);
  }

  method CreateEvent(core: DAGcore, other: PeerId)
    requires CanCreate(core.State(), other)
    requires KnowsParents(core.store.State(), NewEvent(core.State(), other))
    modifies core, core.store, core.peers
    ensures core.State() == Created(old(core.State()), other, core.digest)
    ensures old(core.store.State()).Indexed() ==> core.store.State().Indexed()
  {
    ghost var s := core.State();
    var creator := core.peers.creator;
    var height := core.peers.GetNextHeight(creator);
    UpdatedRaises(s.peers, creator, 0, height);
    assert core.peers.State().Find(other) == s.peers.Find(other);
    var otherHeight := core.peers.peers[FindIndex(core.peers.peers, other)].height;
    var otherParent := core.store.GetEventOfCreator(other, otherHeight);
    var selfParent := core.store.GetEventOfCreator(creator, height - 1);
    var lamportTimestamp := core.GetNextLamportTime();
    var transactions := core.NextTransactions();
    var event := Event(creator, height, selfParent.value.hash, otherParent.value.hash,
                       lamportTimestamp, transactions, Default, 0).Hashed();
    assert event == NewEvent(s, other);
    assert core.State() == Prepared(s);
    var ok := core.InsertEvent(event);
  }

  // One round of procedure A: the request it sends and the event it then creates.
  method ProcedureA(core: DAGcore) returns (request: SyncReq)
    requires core.peers.n == |core.peers.peers| > 0
    requires var s, other := core.State().(peers := core.peers.State().Advanced()), RequestOf(core.State()).to;
             CanCreate(s, other) && KnowsParents(s.store, NewEvent(s, other))
    modifies core, core.store, core.peers
    ensures request == RequestOf(old(core.State()))
    ensures core.State()
         == Created(old(core.State()).(peers := old(core.peers.State()).Advanced()), request.to, core.digest)
    ensures old(core.store.State()).Indexed() ==> core.store.State().Indexed()
  {
    request := SendRequest(core);
    CreateEvent(core, request.to);
  }

  // Answers one request; there is no reply to a node that is not a peer.
  method ProcedureB(core: DAGcore, req: SyncReq) returns (reply: Option<SyncReply>)
    requires core.store.State().Indexed()
    modifies core, core.peers
    ensures core.State() == old(Answering(core.State(), req))
    ensures reply.Some? <==> old(core.peers.State()).Has(req.from)
    ensures reply.Some? ==>
              && reply.value == ReplyTo(old(core.State()), req, reply.value.events)
              && IsGossip(reply.value.events, core.store.eventOf, req.gossipList)
  {
    core.UpdateLamportTime(req.lamportTime);
    var events := core.store.GetEventsForGossip(req.gossipList);
    var gossipList := core.peers.GetGossipList();
    var found := core.peers.FindPeerWithLamportTimeUpdate(req.from, req.lamportTime);
    reply := if found then Some(SyncReply(req.to, req.from, gossipList, core.lamportTime, events)) else None;
  }

  // Applies one reply.
  method Listener(core: DAGcore, reply: SyncReply)
    requires CanApply(core.State().Heard(reply.lamportTime), reply.events, core.digest)
    modifies core, core.store, core.peers
    ensures core.State() == Delivered(old(core.State()), reply, core.digest)
  {
    core.UpdateLamportTime(reply.lamportTime);
    var rest := reply.events;
    while rest != []
      invariant Applied(core.State(), rest, core.digest) == Delivered(old(core.State()), reply, core.digest)
      invariant CanApply(core.State(), rest, core.digest)
      decreases |rest|
    {
      ApplyNext(core, rest[0]);
      rest := rest[1..];
    }
  }

  // One event of a reply.
  method ApplyNext(core: DAGcore, ev: NetEvent)
    requires KnowsParents(core.store.State(), ev.ToEvent()) && core.peers.State().Has(ev.creator)
    modifies core, core.store, core.peers
    ensures core.State() == AppliedOne(old(core.State()), ev, core.digest)
  {
    var event := ev.ToEvent();
    var ok := core.InsertEvent(event);
    core.peers.UpdateLamportTimeAndHeight(event.creator, event.lamportTimestamp, event.height);
  }
}
