/** Events, their hashes, and the forms in which they travel.

    A hash is symbolic: `HashOf` is a free constructor over exactly the fields of `HashEvent`, so two
    events have the same hash only when all those fields agree, and no event can be its own ancestor.
    `Default` is the all-zero hash that leaf events carry as their parents. */
module Events {

  type PeerId = nat
  type Height = nat
  type LamportTime = nat
  type FrameNumber = nat

  // The consumer's payload; nothing in the engine looks inside it.
  type Transaction(==,!new)

  datatype EventHash = Default | HashOf(content: HashEvent)

  // What the hash covers.
  datatype HashEvent = HashEvent(
    creator: PeerId, height: Height, selfParent: EventHash, otherParent: EventHash,
    lamportTimestamp: LamportTime, transactions: seq<Transaction>)

  // What crosses the network: neither the hash nor the frame number does.
  datatype NetEvent = NetEvent(
    creator: PeerId, height: Height, selfParent: EventHash, otherParent: EventHash,
    lamportTimestamp: LamportTime, transactions: seq<Transaction>)
  {
    function ToEvent(): Event {
      Event(creator, height, selfParent, otherParent, lamportTimestamp, transactions, Default, 0).Hashed()
    }
  }

  // The event as a node stores it.
  datatype Event = Event(
    creator: PeerId, height: Height, selfParent: EventHash, otherParent: EventHash,
    lamportTimestamp: LamportTime, transactions: seq<Transaction>,
    hash: EventHash, frameNumber: FrameNumber)
  {
    function Content(): HashEvent {
      HashEvent(creator, height, selfParent, otherParent, lamportTimestamp, transactions)
    }

    // The event with its `hash` field brought up to date.
    function Hashed(): Event {
      this.(hash := HashOf(Content()))
    }

    function ToNet(): NetEvent {
      NetEvent(creator, height, selfParent, otherParent, lamportTimestamp, transactions)
    }
  }

  // Reading an event's fields off its hash.

  function Creator(h: EventHash): PeerId { if h.HashOf? then h.content.creator else 0 }

  function HeightOf(h: EventHash): Height { if h.HashOf? then h.content.height else 0 }

  function Lamport(h: EventHash): LamportTime { if h.HashOf? then h.content.lamportTimestamp else 0 }

  function SelfParent(h: EventHash): EventHash { if h.HashOf? then h.content.selfParent else Default }

  function OtherParent(h: EventHash): EventHash { if h.HashOf? then h.content.otherParent else Default }

  function Payload(h: EventHash): seq<Transaction> { if h.HashOf? then h.content.transactions else [] }

  // The stored event that has hash `h` and frame number `frame`.
  function EventAt(h: EventHash, frame: FrameNumber): Event
    requires h.HashOf?
  {
    var c := h.content;
    Event(c.creator, c.height, c.selfParent, c.otherParent, c.lamportTimestamp, c.transactions, h, frame)
  }

  function NetAt(h: EventHash): NetEvent
    requires h.HashOf?
  {
    EventAt(h, 0).ToNet()
  }

  function NetHash(e: NetEvent): EventHash { e.ToEvent().hash }

  // The leaf event every node creates for every peer of its list.
  function LeafEvent(peer: PeerId): Event {
    Event(peer, 0, Default, Default, 0, [], Default, 0).Hashed()
  }

  function Leaf(peer: PeerId): EventHash { LeafEvent(peer).hash }

  // An event received over the network is the sender's event with its hash intact and its frame
  // number forgotten.
  lemma TransferKeepsHash(e: Event)
    ensures e.ToNet().ToEvent() == e.Hashed().(frameNumber := 0)
    ensures NetHash(e.ToNet()) == e.Hashed().hash
  {
  }

  lemma NetRoundTrip(h: EventHash, frame: FrameNumber)
    requires h.HashOf?
    ensures EventAt(h, frame).ToNet() == NetAt(h)
    ensures NetAt(h).ToEvent() == EventAt(h, 0) && NetHash(NetAt(h)) == h
  {
  }
}
