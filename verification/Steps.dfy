/** What each procedure does to the invariant of the node that runs it. */
module Steps {
  import opened Events
  import opened Sorting
  import opened Peers
  import opened Stores
  import opened Dag
  import opened Cores
  import opened Refinement
  import opened Soundness
  import opened Freshness
  import opened Protocol
  import opened Nodes

  // Applying a reply

  ghost function HashesOf(events: seq<NetEvent>): set<EventHash> { set e | e in events :: NetHash(e) }

  // The events of a reply to a node that holds `hs`: oldest first, no duplicates, and every parent is held
  // already or comes along.
  ghost predicate Deliverable(events: seq<NetEvent>, hs: set<EventHash>, dag: set<EventHash>) {
    && Distinct(events) && Sorted(events, ByLamport())
    && forall e {:trigger NetHash(e)} :: e in events ==>
         && NetHash(e) in dag && e.height > 0
         && e.selfParent in hs + HashesOf(events) && e.otherParent in hs + HashesOf(events)
  }

  ghost predicate ClockCovers(time: LamportTime, events: seq<NetEvent>) {
    forall e :: e in events ==> e.lamportTimestamp <= time
  }

  // Peers, clock and pool may change without touching what the store says.
  lemma CoreStaysTrue(s: CoreState, t: CoreState, peers: set<PeerId>, digest: EventHash -> nat)
    requires CoreTrue(s, peers, digest) && t.store == s.store && t.lastFinalisedFrame == s.lastFinalisedFrame
    requires t.peers.Valid() && IdsOf(t.peers.peers) == peers
    ensures CoreTrue(t, peers, digest) && FinalityGrows(s, t)
  {
  }

  // Whether a core's invariant holds is a matter of its store and of what is final.
  lemma SameStoreSameTruth(s: CoreState, t: CoreState, peers: set<PeerId>, digest: EventHash -> nat)
    requires t.store == s.store && t.lastFinalisedFrame == s.lastFinalisedFrame
    requires t.peers.Valid() && IdsOf(t.peers.peers) == peers && s.peers.Valid() && IdsOf(s.peers.peers) == peers
    ensures CoreTrue(t, peers, digest) <==> CoreTrue(s, peers, digest)
    ensures FinalityGrows(s, t) && RecordsGrow(s, t)
  {
  }

  // Inserting an event of the graph that a core lacks.
  lemma InsertedIsTrue(s: CoreState, peers: set<PeerId>, digest: EventHash -> nat, h: EventHash)
    requires CoreTrue(s, peers, digest) && Extends(h, s.store.event.Keys, peers)
    ensures var t := Inserted(s, EventAt(h, 0), digest);
            && CoreTrue(t, peers, digest) && FinalityGrows(s, t)
            && t.store.event.Keys == s.store.event.Keys + {h}
            && t.peers == s.peers && t.lamportTime == s.lamportTime && t.txPool == s.txPool && t.cursor == s.cursor
  {
    InsertionRefines(s, h, peers, digest);
  }

  // What a node needs to know of an event of the graph whose parents it has.
  lemma NextEventFits(s: CoreState, me: PeerId, dag: set<EventHash>, peers: set<PeerId>, h: EventHash)
    requires NodeSound(s, me, dag, peers) && GraphTrue(dag, peers)
    requires h in dag && HeightOf(h) > 0
    requires SelfParent(h) in s.store.event && OtherParent(h) in s.store.event
    ensures h.HashOf? && Fits(h, s.store.event.Keys, peers)
    ensures s.peers.Has(Creator(h)) && s.peers.Valid()
    ensures forall time :: HeadsTrue(s.peers.Updated(Creator(h), time, HeightOf(h)).peers, s.store.event.Keys + {h})
  {
    var hs := s.store.event.Keys;
    hide EventsFiled, IndexTrue, HeadsTrue, FramesSound;
    if h in hs {
      assert hs + {h} == hs;
    } else {
      MissingEventExtends(hs, dag, peers, h);
    }
    FitsHasParents(h, hs, peers);
    PeerIsListed(s.peers.peers, Creator(h));
    forall time ensures HeadsTrue(s.peers.Updated(Creator(h), time, HeightOf(h)).peers, hs + {h}) {
      if h in hs {
        HeadsStayAsTheyAre(s.peers, hs, h, time);
      } else {
        HeadsStayTrue(s.peers, hs, peers, h, time);
      }
    }
  }

  // Applying an event of the graph whose parents are stored leaves the node sound and loses nothing,
  // whether the event was stored already or not.
  lemma AppliedOneIsSound(s: CoreState, me: PeerId, dag: set<EventHash>, peers: set<PeerId>, digest: EventHash -> nat,
                          e: NetEvent)
    requires NodeSound(s, me, dag, peers) && GraphTrue(dag, peers)
    requires NetHash(e) in dag && e.height > 0 && e.lamportTimestamp <= s.lamportTime
    requires e.selfParent in s.store.event && e.otherParent in s.store.event
    ensures KnowsParents(s.store, e.ToEvent()) && s.peers.Has(e.creator)
    ensures var t := AppliedOne(s, e, digest);
            && NodeSound(t, me, dag, peers)
            && t.store.event.Keys == s.store.event.Keys + {NetHash(e)}
            && RecordsGrow(s, t) && t.lamportTime == s.lamportTime && t.txPool == s.txPool && t.cursor == s.cursor
  {
    hide StoreSound, FramesSound, RecordsGrow, Inserted, Fits;
    var h := NetHash(e);
    NetRoundTrip(h, 0);
    assert e.ToEvent() == EventAt(h, 0);
    NextEventFits(s, me, dag, peers, h);
    InsertionIsSound(s, h, peers, digest);
    InsertionKeepsFrames(s, h, peers, digest);
    UpdatedStaysValid(s.peers, e.creator, e.lamportTimestamp, e.height);
    var u, t := Inserted(s, e.ToEvent(), digest), AppliedOne(s, e, digest);
    SameFramesStaySound(u, t);
    SameFramesSameGrowth(s, u, t);
  }

  lemma SameFramesSameGrowth(s: CoreState, t: CoreState, u: CoreState)
    requires RecordsGrow(s, t) && u.store == t.store && u.lastFinalisedFrame == t.lastFinalisedFrame
    ensures RecordsGrow(s, u)
  {
  }

  lemma SameFramesStaySound(s: CoreState, t: CoreState)
    requires FramesSound(s) && t.store == s.store && t.lastFinalisedFrame == s.lastFinalisedFrame
    requires |t.peers.peers| == |s.peers.peers|
    ensures FramesSound(t)
  {
  }

  // The entry of the event's creator is raised to the event's time and height, and no other is touched.
  lemma AppliedOneRaises(s: CoreState, e: NetEvent, digest: EventHash -> nat)
    requires s.peers.Has(e.creator)
    ensures var t := AppliedOne(s, e, digest).peers;
            && t.Has(e.creator)
            && IsRaised(s.peers.Find(e.creator), t.Find(e.creator), e.lamportTimestamp, e.height)
            && (forall x :: t.Has(x) <==> s.peers.Has(x))
            && (forall x :: x != e.creator && s.peers.Has(x) ==> t.Find(x) == s.peers.Find(x))
  {
    hide Inserted, IsRaised;
    InsertedKeepsPeers(s, e.ToEvent(), digest);
    UpdatedRaises(s.peers, e.creator, e.lamportTimestamp, e.height);
  }

  // Of the times heard of each creator the node keeps the largest.
  ghost predicate LatestHeard(p: Peer, q: Peer, events: seq<NetEvent>) {
    && q.id == p.id && q.lamportTime >= p.lamportTime && q.height >= p.height
    && (forall e :: e in events && e.creator == p.id ==> q.lamportTime >= e.lamportTimestamp && q.height >= e.height)
    && (q.lamportTime != p.lamportTime ==>
          exists e :: e in events && e.creator == p.id && q.lamportTime == e.lamportTimestamp)
    && (q.height != p.height ==> exists e :: e in events && e.creator == p.id && q.height == e.height)
  }

  lemma {:induction false} AppliedRaises(s: CoreState, events: seq<NetEvent>, digest: EventHash -> nat, c: PeerId)
    requires s.peers.Has(c) && forall e :: e in events ==> s.peers.Has(e.creator)
    ensures Applied(s, events, digest).peers.Has(c)
    ensures LatestHeard(s.peers.Find(c), Applied(s, events, digest).peers.Find(c), events)
    decreases |events|
  {
    hide Inserted, AppliedOne;
    if events == [] {
    } else {
      var first, rest := events[0], events[1..];
      assert events == [first] + rest;
      assert first in events && forall e :: e in rest ==> e in events;
      var u := AppliedOne(s, first, digest);
      AppliedOneRaises(s, first, digest);
      AppliedRaises(u, rest, digest, c);
      assert Applied(s, events, digest) == Applied(u, rest, digest);
      HeardOneMore(s.peers.Find(c), u.peers.Find(c), Applied(u, rest, digest).peers.Find(c), first, rest);
    }
  }

  lemma HeardOneMore(p: Peer, q: Peer, r: Peer, first: NetEvent, rest: seq<NetEvent>)
    requires LatestHeard(q, r, rest)
    requires if first.creator == p.id then IsRaised(p, q, first.lamportTimestamp, first.height) else q == p
    ensures LatestHeard(p, r, [first] + rest)
  {
    var all := [first] + rest;
    assert all[0] in all;
    assert forall e :: e in all <==> e == first || e in rest;
  }

  // It keeps the core's invariant exactly when the event is new to the store.
  lemma AppliedOneIsTrue(s: CoreState, me: PeerId, dag: set<EventHash>, peers: set<PeerId>, digest: EventHash -> nat,
                         e: NetEvent)
    requires NodeSound(s, me, dag, peers) && CoreTrue(s, peers, digest) && GraphTrue(dag, peers)
    requires NetHash(e) in dag && e.height > 0 && e.lamportTimestamp <= s.lamportTime
    requires e.selfParent in s.store.event && e.otherParent in s.store.event
    ensures var t := AppliedOne(s, e, digest);
            && (CoreTrue(t, peers, digest) <==> NetHash(e) !in s.store.event)
            && (NetHash(e) !in s.store.event ==> FinalityGrows(s, t))
            && (NetHash(e) in s.store.event ==> RecordedTwice(t.store.frame, NetHash(e), |peers|))
  {
    hide CoreTrue, StoreSound, FramesSound, RecordsGrow, Inserted, Fits, RecordedTwice;
    var h := NetHash(e);
    NetRoundTrip(h, 0);
    assert e.ToEvent() == EventAt(h, 0);
    NextEventFits(s, me, dag, peers, h);
    AppliedOneIsSound(s, me, dag, peers, digest, e);
    InsertionIsSound(s, h, peers, digest);
    var u, t := Inserted(s, e.ToEvent(), digest), AppliedOne(s, e, digest);
    SameStoreSameTruth(u, t, peers, digest);
    if h in s.store.event {
      TrueIsRecorded(s, peers, digest);
      StaleInsertionRepeats(s, h, peers, digest);
      StaleInsertionSpoils(s, h, peers, digest);
    } else {
      assert Extends(h, s.store.event.Keys, peers);
      InsertedIsTrue(s, peers, digest, h);
      FinalityIsTransitive(s, u, t);
    }
  }

  // In Lamport order the first event's parents are stored, and the rest is deliverable after it.
  lemma FirstIsDeliverable(events: seq<NetEvent>, hs: set<EventHash>, dag: set<EventHash>, peers: set<PeerId>)
    requires Deliverable(events, hs, dag) && Closed(dag, peers) && events != []
    ensures events[0].selfParent in hs && events[0].otherParent in hs
    ensures Deliverable(events[1..], hs + {NetHash(events[0])}, dag)
    ensures NetHash(events[0]) !in HashesOf(events[1..])
    ensures HashesOf(events) == HashesOf(events[1..]) + {NetHash(events[0])}
  {
    var first, rest := events[0], events[1..];
    var h := NetHash(first);
    assert first in events && h in HashesOf(events);
    assert WellPlaced(h, dag, peers);
    forall x | x in HashesOf(events) ensures Lamport(x) >= Lamport(h) {
      var i :| 0 <= i < |events| && NetHash(events[i]) == x;
      if i > 0 { assert ByLamport()(events[0], events[i]); }
    }
    assert first.selfParent in hs && first.otherParent in hs;
    assert events == [first] + rest;
    forall e ensures e in rest <==> e in events && e != first {
      TailOfDistinct(events);
    }
    assert HashesOf(events) == HashesOf(rest) + {h};
    forall e | e in rest ensures NetHash(e) != h {
      NetRoundTrip(h, 0);
      assert e != first;
    }
    assert Distinct(rest) by { TailOfDistinct(events); }
  }

  // Applying a whole reply never meets a missing parent; it leaves the node sound, with exactly the
  // reply's events added to those it had, and loses nothing.
  lemma {:induction false} AppliedIsSound(s: CoreState, me: PeerId, dag: set<EventHash>, peers: set<PeerId>,
                                          digest: EventHash -> nat, events: seq<NetEvent>)
    requires NodeSound(s, me, dag, peers) && GraphTrue(dag, peers)
    requires Deliverable(events, s.store.event.Keys, dag) && ClockCovers(s.lamportTime, events)
    ensures CanApply(s, events, digest)
    ensures var t := Applied(s, events, digest);
            && NodeSound(t, me, dag, peers)
            && t.store.event.Keys == s.store.event.Keys + HashesOf(events)
            && RecordsGrow(s, t) && t.lamportTime == s.lamportTime && t.txPool == s.txPool && t.cursor == s.cursor
    decreases |events|
  {
    hide Inserted, NodeSound, AppliedOne;
    if events == [] {
      assert HashesOf(events) == {};
    } else {
      var hs, rest := s.store.event.Keys, events[1..];
      FirstIsDeliverable(events, hs, dag, peers);
      assert events[0] in events && NetHash(events[0]) in dag;
      AppliedOneIsSound(s, me, dag, peers, digest, events[0]);
      var u := AppliedOne(s, events[0], digest);
      assert ClockCovers(u.lamportTime, rest);
      AppliedIsSound(u, me, dag, peers, digest, rest);
      RecordsGrowOn(s, u, Applied(u, rest, digest));
      assert hs + {NetHash(events[0])} + HashesOf(rest) == hs + HashesOf(events);
      assert Applied(s, events, digest) == Applied(u, rest, digest);
    }
  }

  // It keeps the core's invariant, and everything final as it was, exactly when none of the events was
  // stored already; one that was is recorded twice from then on.
  lemma {:induction false} AppliedIsTrue(s: CoreState, me: PeerId, dag: set<EventHash>, peers: set<PeerId>,
                                         digest: EventHash -> nat, events: seq<NetEvent>)
    requires NodeSound(s, me, dag, peers) && CoreTrue(s, peers, digest) && GraphTrue(dag, peers)
    requires Deliverable(events, s.store.event.Keys, dag) && ClockCovers(s.lamportTime, events)
    ensures var t := Applied(s, events, digest);
            && (CoreTrue(t, peers, digest) <==> HashesOf(events) !! s.store.event.Keys)
            && (HashesOf(events) !! s.store.event.Keys ==> FinalityGrows(s, t))
            && (!(HashesOf(events) !! s.store.event.Keys) ==> SomeRecordedTwice(t, HashesOf(events), |peers|))
    decreases |events|
  {
    hide Inserted, NodeSound, AppliedOne, CoreTrue, RecordedTwice, RecordsGrow, FinalityGrows;
    if events == [] {
      assert HashesOf(events) == {};
      FinalityIsReflexive(s);
    } else {
      var hs, h, rest := s.store.event.Keys, NetHash(events[0]), events[1..];
      FirstIsDeliverable(events, hs, dag, peers);
      assert events[0] in events && NetHash(events[0]) in dag;
      AppliedOneIsSound(s, me, dag, peers, digest, events[0]);
      AppliedOneIsTrue(s, me, dag, peers, digest, events[0]);
      var u := AppliedOne(s, events[0], digest);
      assert ClockCovers(u.lamportTime, rest);
      AppliedIsSound(u, me, dag, peers, digest, rest);
      var t := Applied(u, rest, digest);
      assert Applied(s, events, digest) == t;
      if h in hs {
        RepeatedForGood(u, t, h, peers, digest);
        assert h in HashesOf(events) && RecordedTwice(t.store.frame, h, |peers|);
      } else {
        AppliedIsTrue(u, me, dag, peers, digest, rest);
        assert HashesOf(events) !! hs <==> HashesOf(rest) !! hs + {h};
        if HashesOf(events) !! hs { FinalityIsTransitive(s, u, t); }
      }
    }
  }

  // Exact though hit

  // No event of `hs` covers a frame beyond that of `x`: a node that knows `hs` has that frame open.
  ghost predicate StillOpen(x: EventHash, hs: set<EventHash>, peers: set<PeerId>) {
    forall w, g: FrameNumber :: w in hs && Covers(w, g, peers) ==> g <= FrameOf(x, |peers|)
  }

  // Frame numbers, tables and finality stay exact when an event is new or still open.
  lemma AppliedOneIsExact(s: CoreState, me: PeerId, dag: set<EventHash>, peers: set<PeerId>, digest: EventHash -> nat,
                          e: NetEvent)
    requires NodeSound(s, me, dag, peers) && CoreExact(s, peers) && GraphTrue(dag, peers)
    requires NetHash(e) in dag && e.height > 0 && e.lamportTimestamp <= s.lamportTime
    requires e.selfParent in s.store.event && e.otherParent in s.store.event
    requires NetHash(e) in s.store.event ==> s.FirstNotFinalised() <= FrameOf(NetHash(e), |peers|)
    ensures CoreExact(AppliedOne(s, e, digest), peers)
  {
    hide StoreSound, FramesSound, Inserted, Fits, StoreExact, FrameOf, HeadsTrue;
    var h := NetHash(e);
    NetRoundTrip(h, 0);
    assert e.ToEvent() == EventAt(h, 0);
    NextEventFits(s, me, dag, peers, h);
    if h !in s.store.event {
      assert Extends(h, s.store.event.Keys, peers);
      NewEventIsOpen(s, h, peers);
    }
    InsertionIsExact(s, h, peers, digest);
    UpdatedStaysValid(s.peers, e.creator, e.lamportTimestamp, e.height);
  }

  lemma OpenMeansOpen(s: CoreState, h: EventHash, hs: set<EventHash>, peers: set<PeerId>)
    requires CoreExact(s, peers) && s.store.event.Keys <= hs && StillOpen(h, hs, peers)
    ensures s.FirstNotFinalised() <= FrameOf(h, |peers|)
  {
  }

  lemma {:induction false} AppliedIsExact(s: CoreState, me: PeerId, dag: set<EventHash>, peers: set<PeerId>,
                                          digest: EventHash -> nat, events: seq<NetEvent>, hs: set<EventHash>)
    requires NodeSound(s, me, dag, peers) && CoreExact(s, peers) && GraphTrue(dag, peers)
    requires Deliverable(events, s.store.event.Keys, dag) && ClockCovers(s.lamportTime, events)
    requires s.store.event.Keys + HashesOf(events) <= hs
    requires forall x :: x in HashesOf(events) && x in s.store.event ==> StillOpen(x, hs, peers)
    ensures CoreExact(Applied(s, events, digest), peers)
    decreases |events|
  {
    hide Inserted, NodeSound, AppliedOne, CoreExact, StillOpen, RecordsGrow, FrameOf;
    if events == [] {
    } else {
      var keys, h, rest := s.store.event.Keys, NetHash(events[0]), events[1..];
      FirstIsDeliverable(events, keys, dag, peers);
      assert events[0] in events && h in HashesOf(events) && h in dag;
      AppliedOneIsSound(s, me, dag, peers, digest, events[0]);
      if h in keys { OpenMeansOpen(s, h, hs, peers); }
      AppliedOneIsExact(s, me, dag, peers, digest, events[0]);
      var u := AppliedOne(s, events[0], digest);
      assert ClockCovers(u.lamportTime, rest);
      AppliedIsExact(u, me, dag, peers, digest, rest, hs);
      assert Applied(s, events, digest) == Applied(u, rest, digest);
    }
  }

  // Exact, or repeating for good

  // An event that is stored already and whose frame is final is repeated in the final sequence there and then.
  lemma AppliedOneExactOrRepeats(s: CoreState, me: PeerId, dag: set<EventHash>, peers: set<PeerId>,
                                 digest: EventHash -> nat, e: NetEvent)
    requires NodeSound(s, me, dag, peers) && CoreExact(s, peers) && GraphTrue(dag, peers)
    requires NetHash(e) in dag && e.height > 0 && e.lamportTimestamp <= s.lamportTime
    requires e.selfParent in s.store.event && e.otherParent in s.store.event
    ensures CoreExact(AppliedOne(s, e, digest), peers) || RepeatsFinally(AppliedOne(s, e, digest), |peers|)
  {
    hide StoreSound, Inserted, CoreExact, FrameOf, HeadsTrue, RecordedTwice, RecordsGrow;
    var h := NetHash(e);
    if h in s.store.event && FrameOf(h, |peers|) < s.FirstNotFinalised() {
      NetRoundTrip(h, 0);
      StaleInsertionRepeats(s, h, peers, digest);
      var u, t := Inserted(s, EventAt(h, 0), digest), AppliedOne(s, e, digest);
      assert s.FirstNotFinalised() <= u.FirstNotFinalised() by { FinalityHolds(s, u); }
      assert RecordedTwice(t.store.frame, h, |peers|);
    } else {
      AppliedOneIsExact(s, me, dag, peers, digest, e);
    }
  }

  lemma FinalityHolds(s: CoreState, t: CoreState)
    requires RecordsGrow(s, t)
    ensures s.FirstNotFinalised() <= t.FirstNotFinalised()
  {
  }

  // Whatever reply an exact core applies, it is exact afterwards or repeats an event for good.
  lemma {:induction false} AppliedExactOrRepeats(s: CoreState, me: PeerId, dag: set<EventHash>, peers: set<PeerId>,
                                                 digest: EventHash -> nat, events: seq<NetEvent>)
    requires NodeSound(s, me, dag, peers) && CoreExact(s, peers) && GraphTrue(dag, peers)
    requires Deliverable(events, s.store.event.Keys, dag) && ClockCovers(s.lamportTime, events)
    ensures CoreExact(Applied(s, events, digest), peers) || RepeatsFinally(Applied(s, events, digest), |peers|)
    decreases |events|
  {
    hide Inserted, NodeSound, AppliedOne, CoreExact, RepeatsFinally, RecordsGrow;
    if events == [] {
    } else {
      var keys, rest := s.store.event.Keys, events[1..];
      FirstIsDeliverable(events, keys, dag, peers);
      assert events[0] in events && NetHash(events[0]) in dag;
      AppliedOneIsSound(s, me, dag, peers, digest, events[0]);
      AppliedOneExactOrRepeats(s, me, dag, peers, digest, events[0]);
      var u := AppliedOne(s, events[0], digest);
      assert ClockCovers(u.lamportTime, rest);
      assert Applied(s, events, digest) == Applied(u, rest, digest);
      if CoreExact(u, peers) {
        AppliedExactOrRepeats(u, me, dag, peers, digest, rest);
      } else {
        AppliedIsSound(u, me, dag, peers, digest, rest);
        RepeatsForGood(u, Applied(u, rest, digest), peers, digest);
      }
    }
  }

  // The tables events are stored with

  // The frame that is first open when `x` is inserted in the course of applying `events`.
  ghost function FirstAtInsertion(s: CoreState, events: seq<NetEvent>, x: EventHash,
                                  digest: EventHash -> nat): FrameNumber
    decreases |events|
  {
    if events == [] || NetHash(events[0]) == x then s.FirstNotFinalised()
    else FirstAtInsertion(AppliedOne(s, events[0], digest), events[1..], x, digest)
  }

  lemma AppliedOneTable(s: CoreState, me: PeerId, dag: set<EventHash>, peers: set<PeerId>, digest: EventHash -> nat,
                        e: NetEvent)
    requires NodeSound(s, me, dag, peers) && CoreTrue(s, peers, digest) && GraphTrue(dag, peers)
    requires NetHash(e) in dag && e.height > 0 && NetHash(e) !in s.store.event
    requires e.selfParent in s.store.event && e.otherParent in s.store.event
    ensures NetHash(e) in AppliedOne(s, e, digest).store.flagTable
    ensures TableTrue(AppliedOne(s, e, digest).store.flagTable[NetHash(e)], NetHash(e), s.FirstNotFinalised(), |peers|)
  {
    hide CoreTrue, StoreSound, FramesSound, Inserted, Fits, TableTrue;
    var h := NetHash(e);
    NetRoundTrip(h, 0);
    NextEventFits(s, me, dag, peers, h);
    assert Extends(h, s.store.event.Keys, peers);
    InsertionRefines(s, h, peers, digest);
  }

  // A new event of a reply is stored with a table that is exact from the frame first open at that moment.
  lemma {:induction false} AppliedTables(s: CoreState, me: PeerId, dag: set<EventHash>, peers: set<PeerId>,
                                         digest: EventHash -> nat, events: seq<NetEvent>, x: EventHash)
    requires NodeSound(s, me, dag, peers) && CoreTrue(s, peers, digest) && GraphTrue(dag, peers)
    requires Deliverable(events, s.store.event.Keys, dag) && ClockCovers(s.lamportTime, events)
    requires HashesOf(events) !! s.store.event.Keys && x in HashesOf(events)
    ensures x in Applied(s, events, digest).store.flagTable
    ensures TableTrue(Applied(s, events, digest).store.flagTable[x], x, FirstAtInsertion(s, events, x, digest), |peers|)
    decreases |events|
  {
    hide Inserted, NodeSound, AppliedOne, CoreTrue, TableTrue, RecordsGrow, RecordedTwice;
    var keys, h, rest := s.store.event.Keys, NetHash(events[0]), events[1..];
    FirstIsDeliverable(events, keys, dag, peers);
    assert events[0] in events && h in dag && h in HashesOf(events);
    AppliedOneIsSound(s, me, dag, peers, digest, events[0]);
    AppliedOneIsTrue(s, me, dag, peers, digest, events[0]);
    var u := AppliedOne(s, events[0], digest);
    assert ClockCovers(u.lamportTime, rest);
    assert Applied(s, events, digest) == Applied(u, rest, digest);
    assert HashesOf(rest) !! u.store.event.Keys;
    if x == h {
      AppliedOneTable(s, me, dag, peers, digest, events[0]);
      AppliedIsTrue(u, me, dag, peers, digest, rest);
    } else {
      AppliedTables(u, me, dag, peers, digest, rest, x);
    }
  }

  ghost predicate SomeRecordedTwice(s: CoreState, hs: set<EventHash>, n: nat) {
    exists h :: h in hs && RecordedTwice(s.store.frame, h, n)
  }

  lemma FinalityIsReflexive(s: CoreState)
    ensures FinalityGrows(s, s) && RecordsGrow(s, s)
  {
  }

  lemma FinalityIsTransitive(s: CoreState, t: CoreState, u: CoreState)
    requires FinalityGrows(s, t) && FinalityGrows(t, u)
    ensures FinalityGrows(s, u)
  {
    forall f: FrameNumber | f < s.FirstNotFinalised() ensures FrameIn(u.store.frame, f) == FrameIn(s.store.frame, f) {
      assert FrameIn(t.store.frame, f) == FrameIn(s.store.frame, f);
    }
  }

  // Creating an event

  // The event at the head of a peer's chain, as the store's height index gives it.
  lemma HeadIsStored(s: CoreState, me: PeerId, dag: set<EventHash>, peers: set<PeerId>, c: PeerId)
    requires NodeSound(s, me, dag, peers) && c in peers
    ensures s.peers.Has(c) && (c, s.peers.Find(c).height) in s.store.eventOf
    ensures var h := s.store.eventOf[(c, s.peers.Find(c).height)].hash;
            h in s.store.event && Creator(h) == c && HeightOf(h) == s.peers.Find(c).height
    ensures IsHead(c, s.peers.Find(c).height, s.store.event.Keys)
  {
    hide GraphTrue, FramesSound;
    PeerIsListed(s.peers.peers, c);
    var i := FindIndex(s.peers.peers, c);
    assert s.peers.peers[i].id == c;
    var h :| h in s.store.event.Keys && Creator(h) == c && HeightOf(h) == s.peers.peers[i].height;
    assert FiledByHeight(h, s.store.event, s.store.eventOf);
    assert s.store.event[h].hash == h;
  }

  // A created event is later than both of its parents and extends its creator's chain without forking it:
  // neither this node nor any other has an event of that creator and height.
  lemma NewEventIsFresh(s: CoreState, me: PeerId, dag: set<EventHash>, peers: set<PeerId>, other: PeerId)
    requires NodeSound(s, me, dag, peers) && GraphTrue(dag, peers) && me in peers && other in peers && other != me
    ensures CanCreate(s, other) && KnowsParents(s.store, NewEvent(s, other))
    ensures var h := NewEvent(s, other).hash;
            && h !in dag && Creator(h) == me && NewEvent(s, other) == EventAt(h, 0)
            && GraphTrue(dag + {h}, peers) && Extends(h, s.store.event.Keys, peers)
            && SelfParent(h) in s.store.event && IsHead(me, HeightOf(SelfParent(h)), s.store.event.Keys)
            && Lamport(h) == s.lamportTime + 1 && h.content.transactions == s.NextTransactions().0
            && HeightOf(h) == s.peers.Find(me).height + 1
  {
    HeadIsStored(s, me, dag, peers, me);
    HeadIsStored(s, me, dag, peers, other);
    hide IndexTrue, EventsFiled, HeadsTrue, FramesSound;
    var e := NewEvent(s, other);
    var h, hs := e.hash, s.store.event.Keys;
    assert e.selfParent in hs && e.otherParent in hs;
    assert forall x :: x in dag && Creator(x) == me ==> x in hs && HeightOf(x) < HeightOf(h);
    GrownGraph(dag, h, peers);
    MissingEventExtends(hs, dag + {h}, peers, h);
  }

  lemma GrownGraph(dag: set<EventHash>, h: EventHash, peers: set<PeerId>)
    requires GraphTrue(dag, peers) && WellPlaced(h, dag, peers)
    requires forall x :: x in dag && Twins(x, h) ==> x == h
    ensures GraphTrue(dag + {h}, peers)
  {
    forall x | x in dag + {h} ensures WellPlaced(x, dag + {h}, peers) {
      if x != h { assert WellPlaced(x, dag, peers); }
    }
    forall a, b | a in dag + {h} && b in dag + {h} && Twins(a, b) ensures a == b {
      assert Twins(b, a);
    }
  }

  // Creating an event leaves the node sound over the graph grown by that event, and keeps the core's
  // invariant.
  lemma CreatedIsSound(s: CoreState, me: PeerId, dag: set<EventHash>, peers: set<PeerId>, digest: EventHash -> nat,
                       other: PeerId)
    requires NodeSound(s, me, dag, peers) && GraphTrue(dag, peers) && me in peers && other in peers && other != me
    ensures CanCreate(s, other)
    ensures var t, h := Created(s, other, digest), NewEvent(s, other).hash;
            && NodeSound(t, me, dag + {h}, peers)
            && t.store.event.Keys == s.store.event.Keys + {h}
            && RecordsGrow(s, t) && t.txPool == s.NextTransactions().1 && t.cursor == s.cursor
  {
    hide Inserted, StoreSound, FramesSound, GraphTrue, Fits, RecordsGrow;
    NodeIsClosed(s, me, dag, peers);
    NewEventIsFresh(s, me, dag, peers, other);
    var h, hs := NewEvent(s, other).hash, s.store.event.Keys;
    var p := Prepared(s);
    UpdatedStaysValid(s.peers, me, 0, HeightOf(h));
    assert Fits(h, hs, peers) by { assert Extends(h, hs, peers); }
    InsertionIsSound(p, h, peers, digest);
    SameFramesStaySound(s, p);
    InsertionKeepsFrames(p, h, peers, digest);
    HeadsStayTrue(s.peers, hs, peers, h, 0);
    assert RecordsGrow(s, Created(s, other, digest)) by { SameFramesDiffer(s, p, Created(s, other, digest)); }
  }

  lemma SameFramesDiffer(s: CoreState, t: CoreState, u: CoreState)
    requires RecordsGrow(t, u) && s.store == t.store && s.lastFinalisedFrame == t.lastFinalisedFrame
    ensures RecordsGrow(s, u)
  {
  }

  lemma CreatedIsTrue(s: CoreState, me: PeerId, dag: set<EventHash>, peers: set<PeerId>, digest: EventHash -> nat,
                      other: PeerId)
    requires NodeSound(s, me, dag, peers) && CoreTrue(s, peers, digest) && GraphTrue(dag, peers)
    requires me in peers && other in peers && other != me
    ensures CanCreate(s, other)
    ensures CoreTrue(Created(s, other, digest), peers, digest) && FinalityGrows(s, Created(s, other, digest))
  {
    hide Inserted, StoreTrue, StoreSound, FramesSound, GraphTrue, Extends;
    NewEventIsFresh(s, me, dag, peers, other);
    var h, p := NewEvent(s, other).hash, Prepared(s);
    UpdatedStaysValid(s.peers, me, 0, HeightOf(h));
    CoreStaysTrue(s, p, peers, digest);
    InsertedIsTrue(p, peers, digest, h);
    FinalityIsTransitive(s, p, Created(s, other, digest));
  }

  lemma CreatedIsExact(s: CoreState, me: PeerId, dag: set<EventHash>, peers: set<PeerId>, digest: EventHash -> nat,
                       other: PeerId)
    requires NodeSound(s, me, dag, peers) && CoreExact(s, peers) && GraphTrue(dag, peers)
    requires me in peers && other in peers && other != me
    ensures CanCreate(s, other) && CoreExact(Created(s, other, digest), peers)
  {
    hide Inserted, StoreExact, StoreSound, FramesSound, GraphTrue, Extends;
    NewEventIsFresh(s, me, dag, peers, other);
    var h, p := NewEvent(s, other).hash, Prepared(s);
    UpdatedStaysValid(s.peers, me, 0, HeightOf(h));
    NewEventIsOpen(p, h, peers);
    InsertionIsExact(p, h, peers, digest);
  }

  lemma CreatedTable(s: CoreState, me: PeerId, dag: set<EventHash>, peers: set<PeerId>, digest: EventHash -> nat,
                     other: PeerId)
    requires NodeSound(s, me, dag, peers) && CoreTrue(s, peers, digest) && GraphTrue(dag, peers)
    requires me in peers && other in peers && other != me
    ensures CanCreate(s, other)
    ensures var h, t := NewEvent(s, other).hash, Created(s, other, digest).store.flagTable;
            h in t && TableTrue(t[h], h, s.FirstNotFinalised(), |peers|)
  {
    hide Inserted, StoreTrue, StoreSound, FramesSound, GraphTrue, Extends, TableTrue;
    NewEventIsFresh(s, me, dag, peers, other);
    var h, p := NewEvent(s, other).hash, Prepared(s);
    UpdatedStaysValid(s.peers, me, 0, HeightOf(h));
    CoreStaysTrue(s, p, peers, digest);
    InsertionRefines(p, h, peers, digest);
  }

  // Answering a request

  // A gossip list names, for every peer, an event that its sender `hs` has.
  ghost predicate GossipTrue(gossip: GossipList, hs: set<EventHash>, peers: set<PeerId>) {
    && gossip.Keys == peers
    && forall c {:trigger gossip[c]} :: c in peers ==>
         exists x :: x in hs && Creator(x) == c && HeightOf(x) == gossip[c].height
  }

  lemma HeadsMakeGossip(s: CoreState, me: PeerId, dag: set<EventHash>, peers: set<PeerId>)
    requires NodeSound(s, me, dag, peers)
    ensures GossipTrue(GossipOf(s.peers.peers), s.store.event.Keys, peers)
    ensures forall c :: c in peers ==> IsHead(c, GossipOf(s.peers.peers)[c].height, s.store.event.Keys)
  {
    var list, g := s.peers.peers, GossipOf(s.peers.peers);
    GossipListsEveryPeer(list);
    forall c | c in peers ensures c in g && IsHead(c, g[c].height, s.store.event.Keys) {
      PeerIsListed(list, c);
      var i := FindIndex(list, c);
      assert list[i].id == c;
    }
  }

  // The requester has every event of the graph up to the heights of its gossip list.
  lemma GossipIsKnown(gossip: GossipList, hs: set<EventHash>, dag: set<EventHash>, peers: set<PeerId>, x: EventHash)
    requires GossipTrue(gossip, hs, peers) && Closed(hs, peers) && hs <= dag && Closed(dag, peers) && ForkFree(dag)
    requires x in dag && Creator(x) in peers && HeightOf(x) <= gossip[Creator(x)].height
    ensures x in hs
  {
    var top :| top in hs && Creator(top) == Creator(x) && HeightOf(top) == gossip[Creator(x)].height;
    var y := ChainIsContiguous(hs, peers, top, HeightOf(x));
    assert Twins(x, y);
  }

  // An event of the answering node above the requester's height is in the suffix it sends.
  lemma UnknownIsInSuffix(s: CoreState, peers: set<PeerId>, gossip: GossipList, x: EventHash)
    requires StoreSound(s.store, peers) && gossip.Keys == peers
    requires x in s.store.event && Creator(x) in gossip && gossip[Creator(x)].height < HeightOf(x)
    ensures InSuffix(s.store.eventOf, gossip, Creator(x), HeightOf(x))
    ensures s.store.eventOf[(Creator(x), HeightOf(x))].ToNet() == NetAt(x)
  {
    var hs := s.store.event.Keys;
    assert WellPlaced(x, hs, peers);
    forall j | gossip[Creator(x)].height < j <= HeightOf(x) ensures (Creator(x), j) in s.store.eventOf {
      var y := ChainIsContiguous(hs, peers, x, j);
      assert FiledByHeight(y, s.store.event, s.store.eventOf);
    }
    assert FiledByHeight(x, s.store.event, s.store.eventOf);
    NetRoundTrip(x, s.store.event[x].frameNumber);
  }

  // What a reply carries is in the answering node's store, above the requester's heights.
  lemma SuffixIsStored(s: CoreState, peers: set<PeerId>, gossip: GossipList, events: seq<NetEvent>, e: NetEvent)
    requires StoreSound(s.store, peers) && IsGossip(events, s.store.eventOf, gossip) && e in events
    ensures NetHash(e) in s.store.event && e == NetAt(NetHash(e))
    ensures e.creator in gossip && gossip[e.creator].height < e.height
  {
    var k := (e.creator, e.height);
    assert FiledByHash(k, s.store.event, s.store.eventOf);
    var h := s.store.eventOf[k].hash;
    assert s.store.event[h] == EventAt(h, s.store.event[h].frameNumber);
    NetRoundTrip(h, s.store.event[h].frameNumber);
  }

  lemma AnswerIsDeliverable(s: CoreState, peers: set<PeerId>, dag: set<EventHash>,
                            gossip: GossipList, hs: set<EventHash>, events: seq<NetEvent>)
    requires StoreSound(s.store, peers) && s.store.event.Keys <= dag && GraphTrue(dag, peers)
    requires GossipTrue(gossip, hs, peers) && Closed(hs, peers) && hs <= dag
    requires IsGossip(events, s.store.eventOf, gossip)
    ensures Deliverable(events, hs, dag)
  {
    forall e | e in events
      ensures NetHash(e) in dag && e.height > 0
      ensures e.selfParent in hs + HashesOf(events) && e.otherParent in hs + HashesOf(events)
    {
      SuffixIsStored(s, peers, gossip, events, e);
      assert WellPlaced(NetHash(e), s.store.event.Keys, peers);
      ParentComesAlong(s, peers, dag, gossip, hs, events, e.selfParent);
      ParentComesAlong(s, peers, dag, gossip, hs, events, e.otherParent);
    }
  }

  lemma ParentComesAlong(s: CoreState, peers: set<PeerId>, dag: set<EventHash>,
                         gossip: GossipList, hs: set<EventHash>, events: seq<NetEvent>, x: EventHash)
    requires StoreSound(s.store, peers) && s.store.event.Keys <= dag && GraphTrue(dag, peers)
    requires GossipTrue(gossip, hs, peers) && Closed(hs, peers) && hs <= dag
    requires IsGossip(events, s.store.eventOf, gossip) && x in s.store.event
    ensures x in hs + HashesOf(events)
  {
    assert WellPlaced(x, dag, peers);
    if HeightOf(x) <= gossip[Creator(x)].height {
      GossipIsKnown(gossip, hs, dag, peers, x);
    } else {
      UnknownIsInSuffix(s, peers, gossip, x);
      assert NetAt(x) in events;
      NetRoundTrip(x, 0);
      assert NetHash(NetAt(x)) in HashesOf(events);
    }
  }

  lemma ReplyClockCovers(s: CoreState, me: PeerId, dag: set<EventHash>, peers: set<PeerId>,
                         gossip: GossipList, events: seq<NetEvent>)
    requires NodeSound(s, me, dag, peers) && IsGossip(events, s.store.eventOf, gossip)
    ensures ClockCovers(s.lamportTime, events)
  {
    forall e | e in events ensures e.lamportTimestamp <= s.lamportTime {
      SuffixIsStored(s, peers, gossip, events, e);
      assert Lamport(NetHash(e)) == e.lamportTimestamp;
    }
  }

  // Gossip is complete and never redundant: an answer to a node's present heights carries exactly the
  // events the answering node has and the requester lacks.
  lemma AnswerIsTheDifference(s: CoreState, t: CoreState, me: PeerId, dag: set<EventHash>, peers: set<PeerId>,
                              events: seq<NetEvent>)
    requires NodeSound(s, me, dag, peers) && GraphTrue(dag, peers)
    requires StoreSound(t.store, peers) && t.store.event.Keys <= dag
    requires IsGossip(events, t.store.eventOf, GossipOf(s.peers.peers))
    ensures HashesOf(events) == t.store.event.Keys - s.store.event.Keys
  {
    hide StoreSound, NodeSound, IsGossip, InSuffix;
    var g, hs := GossipOf(s.peers.peers), s.store.event.Keys;
    HeadsMakeGossip(s, me, dag, peers);
    NodeIsClosed(s, me, dag, peers);
    forall x | x in HashesOf(events) ensures x in t.store.event.Keys - hs {
      var e :| e in events && NetHash(e) == x;
      SuffixIsStored(t, peers, g, events, e);
      assert IsHead(e.creator, g[e.creator].height, hs);
    }
    forall x | x in t.store.event.Keys - hs ensures x in HashesOf(events) {
      ParentComesAlong(t, peers, dag, g, hs, events, x);
    }
  }

  lemma NodeIsClosed(s: CoreState, me: PeerId, dag: set<EventHash>, peers: set<PeerId>)
    requires NodeSound(s, me, dag, peers)
    ensures Closed(s.store.event.Keys, peers) && s.store.event.Keys <= dag
  {
  }
}
