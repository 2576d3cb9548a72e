/** The store of a node: events by hash and by creator and height, flag tables, and frames.

    The database is total: writing never fails, and the only failed lookup is that of an absent key. */
module Stores {
  import opened Wrappers
  import opened Events
  import opened Sorting
  import opened FlagTables
  import opened Frames
  import opened Peers

  type EventMap = map<EventHash, Event>
  type HeightIndex = map<(PeerId, Height), Event>
  type FrameMap = map<FrameNumber, seq<FrameRecord>>

  // An absent frame reads as an empty one.
  function FrameIn(frame: FrameMap, f: FrameNumber): seq<FrameRecord> { if f in frame then frame[f] else [] }

  // The frames once a record of `e` is appended to the frame `e` names.
  function Appended(frame: FrameMap, e: Event): FrameMap {
    frame[e.frameNumber := FrameIn(frame, e.frameNumber) + [FrameRecord(e.hash, e.lamportTimestamp)]]
  }

  // The value of a store.
  datatype StoreState = StoreState(
    event: EventMap, eventOf: HeightIndex,
    flagTable: map<EventHash, FlagTable>, frame: FrameMap)
  {
    // Both event indexes are written, and the event's frame gains a record.
    function WithEvent(e: Event): StoreState {
      this.(event := event[e.hash := e],
            eventOf := eventOf[(e.creator, e.height) := e],
            frame := Appended(frame, e))
    }

    function WithFlagTable(h: EventHash, ft: FlagTable): StoreState {
      this.(flagTable := flagTable[h := ft])
    }

    // The (creator, height) index files every event under its own creator and height.
    ghost predicate Indexed() {
      forall k :: k in eventOf ==> k == (eventOf[k].creator, eventOf[k].height)
    }
  }

  function EmptyStore(): StoreState { StoreState(map[], map[], map[], map[]) }

  // Creator tables

  // An entry of `ft` that the creator table takes into account.
  ghost predicate Counts(k: EventHash, event: EventMap, ft: FlagTable, minFrame: FrameNumber) {
    k in ft && ft[k] >= minFrame && k in event
  }

  // `t` holds, for every creator of a counting entry among `keys`, the largest frame of such an entry.
  ghost predicate IsCreatorTable(t: CreatorFlagTable, keys: set<EventHash>, event: EventMap, ft: FlagTable,
                                 minFrame: FrameNumber)
  {
    && (forall k {:trigger Counts(k, event, ft, minFrame)} :: k in keys && Counts(k, event, ft, minFrame) ==>
          event[k].creator in t && ft[k] <= t[event[k].creator])
    && (forall c {:trigger c in t} :: c in t ==>
          exists k {:trigger Counts(k, event, ft, minFrame)} ::
            k in keys && Counts(k, event, ft, minFrame) && event[k].creator == c && ft[k] == t[c])
  }

  // Whatever the order in which entries are met, there is one table to arrive at.
  lemma CreatorTableIsUnique(t: CreatorFlagTable, u: CreatorFlagTable, event: EventMap, ft: FlagTable,
                             minFrame: FrameNumber)
    requires IsCreatorTable(t, ft.Keys, event, ft, minFrame) && IsCreatorTable(u, ft.Keys, event, ft, minFrame)
    ensures t == u
  {
    forall c ensures c in t <==> c in u {
    }
    forall c | c in t ensures t[c] == u[c] {
    }
  }

  ghost function CreatorTable(event: EventMap, ft: FlagTable, minFrame: FrameNumber): (t: CreatorFlagTable)
    ensures IsCreatorTable(t, ft.Keys, event, ft, minFrame)
  {
    CreatorTableExists(ft.Keys, event, ft, minFrame);
    var t :| IsCreatorTable(t, ft.Keys, event, ft, minFrame);
    t
  }

  // One step of the derivation.
  function Noted(t: CreatorFlagTable, c: PeerId, f: FrameNumber): CreatorFlagTable {
    if c in t && t[c] >= f then t else t[c := f]
  }

  lemma NotedStep(t: CreatorFlagTable, keys: set<EventHash>, event: EventMap, ft: FlagTable, minFrame: FrameNumber,
                  k: EventHash)
    requires IsCreatorTable(t, keys, event, ft, minFrame)
    ensures Counts(k, event, ft, minFrame) ==>
              IsCreatorTable(Noted(t, event[k].creator, ft[k]), keys + {k}, event, ft, minFrame)
    ensures !Counts(k, event, ft, minFrame) ==> IsCreatorTable(t, keys + {k}, event, ft, minFrame)
  {
    if Counts(k, event, ft, minFrame) {
      var u := Noted(t, event[k].creator, ft[k]);
      forall c | c in u
        ensures exists x :: x in keys + {k} && Counts(x, event, ft, minFrame) && event[x].creator == c && ft[x] == u[c]
      {
        if c in t && u[c] == t[c] {
          var x :| x in keys && Counts(x, event, ft, minFrame) && event[x].creator == c && ft[x] == t[c];
          assert x in keys + {k};
        } else {
          assert k in keys + {k};
        }
      }
    }
  }

  lemma {:induction false} CreatorTableExists(keys: set<EventHash>, event: EventMap, ft: FlagTable,
                                              minFrame: FrameNumber)
    ensures exists t :: IsCreatorTable(t, keys, event, ft, minFrame)
  {
    if keys == {} {
      assert IsCreatorTable(map[], keys, event, ft, minFrame);
    } else {
      var k :| k in keys;
      CreatorTableExists(keys - {k}, event, ft, minFrame);
      var t :| IsCreatorTable(t, keys - {k}, event, ft, minFrame);
      NotedStep(t, keys - {k}, event, ft, minFrame, k);
      assert keys - {k} + {k} == keys;
    }
  }

  // The two tables give every hash they share the same frame.
  ghost predicate Consistent(first: FlagTable, second: FlagTable) {
    forall k :: k in first && k in second ==> first[k] == second[k]
  }

  // The entries that the open merge leaves unfiltered, and those it drops, never change a decision: from
  // its own frame argument upwards it gives the creator table of the full union.
  lemma StaleEntriesAreHarmless(first: FlagTable, second: FlagTable, f: FrameNumber, minFrame: FrameNumber,
                                event: EventMap)
    requires Consistent(first, second) && f <= minFrame
    ensures CreatorTable(event, OpenMerge(first, second, f), minFrame) == CreatorTable(event, first + second, minFrame)
  {
    var merged, union := OpenMerge(first, second, f), first + second;
    forall k ensures Counts(k, event, merged, minFrame) <==> Counts(k, event, union, minFrame) {
    }
    forall k | Counts(k, event, merged, minFrame) ensures merged[k] == union[k] {
    }
    var t := CreatorTable(event, merged, minFrame);
    forall c | c in t
      ensures exists k ::
                k in union.Keys && Counts(k, event, union, minFrame) && event[k].creator == c && union[k] == t[c]
    {
      var k :| k in merged.Keys && Counts(k, event, merged, minFrame) && event[k].creator == c && merged[k] == t[c];
      assert Counts(k, event, union, minFrame);
    }
    CreatorTableIsUnique(t, CreatorTable(event, union, minFrame), event, union, minFrame);
  }

  // Gossip

  // The event of `c` at height `k` follows the requester's last one without a gap.
  ghost predicate InSuffix(eventOf: HeightIndex, gossip: GossipList, c: PeerId, k: Height) {
    && c in gossip && gossip[c].height < k
    && forall j :: gossip[c].height < j <= k ==> (c, j) in eventOf
  }

  function ByLamport(): (NetEvent, NetEvent) -> bool {
    (a: NetEvent, b: NetEvent) => a.lamportTimestamp <= b.lamportTimestamp
  }

  // `events` is the whole contiguous suffix of every creator.
  ghost predicate IsSuffix(events: seq<NetEvent>, eventOf: HeightIndex, gossip: GossipList) {
    && Distinct(events)
    && (forall e :: e in events ==>
          InSuffix(eventOf, gossip, e.creator, e.height) && e == eventOf[(e.creator, e.height)].ToNet())
    && (forall c: PeerId, k: Height :: InSuffix(eventOf, gossip, c, k) ==> eventOf[(c, k)].ToNet() in events)
  }

  // A reply's events: that suffix, oldest Lamport time first.
  ghost predicate IsGossip(events: seq<NetEvent>, eventOf: HeightIndex, gossip: GossipList) {
    IsSuffix(events, eventOf, gossip) && Sorted(events, ByLamport())
  }

  class Store {
    var event: EventMap
    var eventOf: HeightIndex
    var flagTable: map<EventHash, FlagTable>
    var frame: FrameMap

    ghost function State(): StoreState
      reads this
    {
      StoreState(event, eventOf, flagTable, frame)
    }

    constructor ()
      ensures State() == EmptyStore()
    {
      event, eventOf, flagTable, frame := map[], map[], map[], map[];
    }

    method SetEvent(e: Event)
      modifies this
      ensures State() == old(State()).WithEvent(e)
      ensures old(State()).Indexed() ==> State().Indexed()
    {
      event := event[e.hash := e];
      eventOf := eventOf[(e.creator, e.height) := e];
      var records := if e.frameNumber in frame then frame[e.frameNumber] else [];
      frame := frame[e.frameNumber := records + [FrameRecord(e.hash, e.lamportTimestamp)]];
    }

    method GetEvent(h: EventHash) returns (e: Option<Event>)
      ensures e == if h in event then Some(event[h]) else None
    {
      e := if h in event then Some(event[h]) else None;
    }

    method GetEventOfCreator(creator: PeerId, height: Height) returns (e: Option<Event>)
      ensures e == if (creator, height) in eventOf then Some(eventOf[(creator, height)]) else None
    {
      e := if (creator, height) in eventOf then Some(eventOf[(creator, height)]) else None;
    }

    method SetFlagTable(h: EventHash, ft: FlagTable)
      modifies `flagTable
      ensures State() == old(State()).WithFlagTable(h, ft)
    {
      flagTable := flagTable[h := ft];
    }

    method GetFlagTable(h: EventHash) returns (ft: Option<FlagTable>)
      ensures ft == if h in flagTable then Some(flagTable[h]) else None
    {
      ft := if h in flagTable then Some(flagTable[h]) else None;
    }

    method SetFrame(f: FrameNumber, fr: Frame)
      modifies `frame
      ensures frame == old(frame)[f := fr.events]
    {
      frame := frame[f := fr.events];
    }

    // The stored frame is read into a fresh object; changing that does not change the store.
    method GetFrame(f: FrameNumber) returns (fr: Frame)
      ensures fresh(fr) && fr.events == FrameIn(frame, f)
    {
      fr := new Frame(if f in frame then frame[f] else []);
    }

    method DeriveCreatorFlagTable(ft: FlagTable, minFrame: FrameNumber) returns (result: CreatorFlagTable)
      ensures result == CreatorTable(event, ft, minFrame)
    {
      result := map[];
      var rest := ft.Keys;
      while rest != {}
        invariant rest <= ft.Keys
        invariant IsCreatorTable(result, ft.Keys - rest, event, ft, minFrame)
      {
        var key :| key in rest;
        var value := ft[key];
        NotedStep(result, ft.Keys - rest, event, ft, minFrame, key);
        assert ft.Keys - (rest - {key}) == ft.Keys - rest + {key};
        if value >= minFrame {
          var e := GetEvent(key);
          if e.Some? {
            var c := e.value.creator;
            if c in result {
              if result[c] < value {
                result := result[c := value];
              }
            } else {
              result := result[c := value];
            }
          }
        }
        rest := rest - {key};
      }
      assert ft.Keys - rest == ft.Keys;
      CreatorTableIsUnique(result, CreatorTable(event, ft, minFrame), event, ft, minFrame);
    }

    // The inner loop: one creator's events from the height after the requester's, until one is missing.
    method CollectCreator(events0: seq<NetEvent>, ghost gossip: GossipList, peer: PeerId, from: Height)
      returns (events: seq<NetEvent>)
      requires State().Indexed()
      requires peer in gossip && gossip[peer].height + 1 == from
      requires Collected(events0, eventOf, gossip, peer, from)
      ensures IsSuffix(events, eventOf, gossip)
    {
      events := events0;
      var height := from;
      var e := GetEventOfCreator(peer, height);
      while e.Some?
        invariant from <= height
        invariant e == if (peer, height) in eventOf then Some(eventOf[(peer, height)]) else None
        invariant forall j :: from <= j < height ==> (peer, j) in eventOf
        invariant Collected(events, eventOf, gossip, peer, height)
        decreases |Above(eventOf, peer, height)|
      {
        CollectOne(events, eventOf, gossip, peer, height);
        AboveShrinks(eventOf, peer, height);
        events := events + [e.value.ToNet()];
        height := height + 1;
        e := GetEventOfCreator(peer, height);
      }
      FinishCreator(events, eventOf, gossip, peer, height);
    }

    method GetEventsForGossip(gossip: GossipList) returns (events: seq<NetEvent>)
      requires State().Indexed()
      ensures IsGossip(events, eventOf, gossip)
    {
      events := [];
      ghost var done: GossipList := map[];
      var rest := gossip.Keys;
      while rest != {}
        invariant rest <= gossip.Keys
        invariant done == map c | c in gossip.Keys - rest :: gossip[c]
        invariant IsSuffix(events, eventOf, done)
      {
        var peer :| peer in rest;
        StartCreator(events, eventOf, done, peer, gossip[peer]);
        done := done[peer := gossip[peer]];
        events := CollectCreator(events, done, peer, gossip[peer].height + 1);
        rest := rest - {peer};
      }
      assert done == gossip;
      SuffixIsGossip(events, eventOf, gossip);
      events := StableSort(events, ByLamport());
    }
  }

  // The inner loop of the gossip query
  // As `IsSuffix`, with `peer` collected only below `height`.
  ghost predicate Collected(events: seq<NetEvent>, eventOf: HeightIndex, gossip: GossipList, peer: PeerId,
                            height: Height)
  {
    && Distinct(events)
    && (forall e :: e in events ==>
          InSuffix(eventOf, gossip, e.creator, e.height) && e == eventOf[(e.creator, e.height)].ToNet()
          && (e.creator == peer ==> e.height < height))
    && (forall c: PeerId, k: Height :: InSuffix(eventOf, gossip, c, k) && (c == peer ==> k < height) ==>
          eventOf[(c, k)].ToNet() in events)
  }

  lemma StartCreator(events: seq<NetEvent>, eventOf: HeightIndex, gossip: GossipList, peer: PeerId, g: Gossip)
    requires IsSuffix(events, eventOf, gossip) && peer !in gossip
    ensures Collected(events, eventOf, gossip[peer := g], peer, g.height + 1)
  {
    forall c: PeerId, k: Height
      ensures InSuffix(eventOf, gossip[peer := g], c, k) && c != peer <==> InSuffix(eventOf, gossip, c, k)
    {
    }
  }

  lemma FinishCreator(events: seq<NetEvent>, eventOf: HeightIndex, gossip: GossipList, peer: PeerId, height: Height)
    requires Collected(events, eventOf, gossip, peer, height)
    requires peer in gossip && gossip[peer].height < height && (peer, height) !in eventOf
    ensures IsSuffix(events, eventOf, gossip)
  {
    forall c: PeerId, k: Height | InSuffix(eventOf, gossip, c, k) ensures eventOf[(c, k)].ToNet() in events {
      assert c == peer ==> k < height;
    }
  }

  lemma CollectOne(events: seq<NetEvent>, eventOf: HeightIndex, gossip: GossipList, peer: PeerId, height: Height)
    requires forall k :: k in eventOf ==> k == (eventOf[k].creator, eventOf[k].height)
    requires Collected(events, eventOf, gossip, peer, height)
    requires (peer, height) in eventOf && peer in gossip && gossip[peer].height < height
    requires forall j :: gossip[peer].height < j < height ==> (peer, j) in eventOf
    ensures Collected(events + [eventOf[(peer, height)].ToNet()], eventOf, gossip, peer, height + 1)
  {
    var more := events + [eventOf[(peer, height)].ToNet()];
    assert InSuffix(eventOf, gossip, peer, height);
    forall e | e in more
      ensures InSuffix(eventOf, gossip, e.creator, e.height) && e == eventOf[(e.creator, e.height)].ToNet()
      ensures e.creator == peer ==> e.height < height + 1
    {
      if e !in events { assert e == eventOf[(peer, height)].ToNet(); }
    }
    forall c: PeerId, k: Height | InSuffix(eventOf, gossip, c, k) && (c == peer ==> k < height + 1)
      ensures eventOf[(c, k)].ToNet() in more
    {
      if c == peer && k == height { assert more[|events|] == eventOf[(c, k)].ToNet(); }
    }
  }

  ghost function Above(eventOf: HeightIndex, peer: PeerId, height: Height): set<(PeerId, Height)> {
    set k | k in eventOf.Keys && k.0 == peer && k.1 >= height
  }

  lemma AboveShrinks(eventOf: HeightIndex, peer: PeerId, height: Height)
    requires (peer, height) in eventOf
    ensures |Above(eventOf, peer, height + 1)| < |Above(eventOf, peer, height)|
  {
    assert Above(eventOf, peer, height) == Above(eventOf, peer, height + 1) + {(peer, height)};
  }

  // There always is an answer: the events filed under `keys`, in some order.
  lemma {:induction false} Listed(keys: set<(PeerId, Height)>, eventOf: HeightIndex) returns (events: seq<NetEvent>)
    requires keys <= eventOf.Keys && forall k :: k in eventOf ==> k == (eventOf[k].creator, eventOf[k].height)
    ensures Distinct(events)
    ensures forall e :: e in events <==>
              (e.creator, e.height) in keys && e == eventOf[(e.creator, e.height)].ToNet()
  {
    if keys == {} {
      events := [];
    } else {
      var k :| k in keys;
      var rest := Listed(keys - {k}, eventOf);
      events := rest + [eventOf[k].ToNet()];
    }
  }

  lemma GossipExists(st: StoreState, gossip: GossipList) returns (events: seq<NetEvent>)
    requires st.Indexed()
    ensures IsGossip(events, st.eventOf, gossip)
  {
    var keys := set k | k in st.eventOf.Keys && InSuffix(st.eventOf, gossip, k.0, k.1);
    var listed := Listed(keys, st.eventOf);
    forall c: PeerId, k: Height | InSuffix(st.eventOf, gossip, c, k) ensures st.eventOf[(c, k)].ToNet() in listed {
      assert (c, k) in keys;
    }
    SuffixIsGossip(listed, st.eventOf, gossip);
    events := StableSort(listed, ByLamport());
  }

  lemma SuffixIsGossip(events: seq<NetEvent>, eventOf: HeightIndex, gossip: GossipList)
    requires IsSuffix(events, eventOf, gossip)
    ensures IsGossip(StableSort(events, ByLamport()), eventOf, gossip)
  {
    SortKeepsElements(events, ByLamport());
    SortKeepsDistinct(events, ByLamport());
    SortSorts(events, ByLamport());
  }
}
