/** What insertion relies on without checking it, given that the event fits the graph: that the event is new
    to the store. */
module Freshness {
  import opened Events
  import opened Sorting
  import opened Frames
  import opened Stores
  import opened Dag
  import opened Cores
  import opened Refinement
  import opened Soundness

  // `h` has a record in its own frame and another one, there or in a frame below.
  ghost predicate RecordedTwice(frame: FrameMap, h: EventHash, n: nat) {
    exists g: FrameNumber {:trigger FrameIn(frame, g)} :: g <= FrameOf(h, n) && RecordedAt(frame, h, FrameOf(h, n), g)
  }

  ghost predicate RecordedAt(frame: FrameMap, h: EventHash, f: FrameNumber, g: FrameNumber) {
    && multiset(FrameIn(frame, f))[RecordOf(h)] >= 1
    && multiset(FrameIn(frame, g))[RecordOf(h)] >= if g == f then 2 else 1
  }

  lemma StoredIsRecorded(s: CoreState, h: EventHash, peers: set<PeerId>)
    requires CoreExact(s, peers) && EventsRecorded(s.store.event, s.store.frame) && h in s.store.event
    ensures h.HashOf? && multiset(FrameIn(s.store.frame, FrameOf(h, |peers|)))[RecordOf(h)] >= 1
    ensures HeightOf(h) > 0 ==> Fits(h, s.store.event.Keys, peers)
  {
    hide FrameOf;
    var hs, f := s.store.event.Keys, FrameOf(h, |peers|);
    assert s.store.event[h] == EventAt(h, f);
    assert RecordOf(h) in multiset(FrameIn(s.store.frame, f));
    assert hs + {h} == hs;
  }

  // Inserting a stored event once more gives it a second record.
  lemma StaleInsertionRepeats(s: CoreState, h: EventHash, peers: set<PeerId>, digest: EventHash -> nat)
    requires CoreExact(s, peers) && EventsRecorded(s.store.event, s.store.frame)
    requires h in s.store.event && HeightOf(h) > 0
    ensures h.HashOf? && KnowsParents(s.store, EventAt(h, 0))
    ensures var t, f := Inserted(s, EventAt(h, 0), digest), FrameOf(h, |peers|);
            && RecordedTwice(t.store.frame, h, |peers|) && RecordsGrow(s, t)
            && multiset(FrameIn(t.store.frame, f))[RecordOf(h)] == multiset(FrameIn(s.store.frame, f))[RecordOf(h)] + 1
  {
    hide CoreExact, Fits, FrameOf, Inserted, DecisionFor;
    StoredIsRecorded(s, h, peers);
    ParentsAreKnown(s, h, peers);
    InsertionKeepsRecords(s, EventAt(h, 0), digest);
    var t, f := Inserted(s, EventAt(h, 0), digest), FrameOf(h, |peers|);
    assert multiset(FrameIn(t.store.frame, f)) == multiset(FrameIn(s.store.frame, f)) + multiset{RecordOf(h)};
    assert RecordedAt(t.store.frame, h, f, f);
    assert FrameIn(t.store.frame, f) == FrameIn(t.store.frame, f);
  }

  lemma TrueIsRecorded(s: CoreState, peers: set<PeerId>, digest: EventHash -> nat)
    requires CoreTrue(s, peers, digest)
    ensures CoreExact(s, peers) && EventsRecorded(s.store.event, s.store.frame)
  {
    TrueIsExact(s, peers, digest);
    hide FrameOf;
    forall h | h in s.store.event ensures RecordOf(h) in FrameIn(s.store.frame, s.store.event[h].frameNumber) {
      var f := s.store.event[h].frameNumber;
      assert FrameTrue(FrameIn(s.store.frame, f), f, s.store.event.Keys, |peers|);
    }
  }

  // The second record stays, whatever the core does later, and its invariant never holds again.
  lemma RepeatedForGood(s: CoreState, t: CoreState, h: EventHash, peers: set<PeerId>, digest: EventHash -> nat)
    requires RecordedTwice(s.store.frame, h, |peers|) && RecordsGrow(s, t)
    ensures RecordedTwice(t.store.frame, h, |peers|)
    ensures !CoreTrue(t, peers, digest)
  {
    hide FrameOf, CoreTrue;
    var f := FrameOf(h, |peers|);
    var g: FrameNumber :| g <= f && RecordedAt(s.store.frame, h, f, g);
    assert multiset(FrameIn(s.store.frame, f)) <= multiset(FrameIn(t.store.frame, f));
    assert multiset(FrameIn(s.store.frame, g)) <= multiset(FrameIn(t.store.frame, g));
    assert RecordedAt(t.store.frame, h, f, g);
    if CoreTrue(t, peers, digest) {
      TrueIsExact(t, peers, digest);
      RecordedOnce(t.store.frame, t.store.event.Keys, h, g, |peers|);
      assert false;
    }
  }

  lemma RecordedOnce(frame: FrameMap, hs: set<EventHash>, h: EventHash, g: FrameNumber, n: nat)
    requires FramesTrue(frame, hs, n)
    ensures multiset(FrameIn(frame, g))[RecordOf(h)] <= if g == FrameOf(h, n) then 1 else 0
  {
    hide FrameOf;
    var records := FrameIn(frame, g);
    assert FrameTrue(records, g, hs, n);
    DistinctCounts(records);
    if RecordOf(h) in multiset(records) {
      assert RecordOf(h) in records;
    }
  }

  // Inserting an event that fits the graph keeps the core's invariant exactly when the event is not stored
  // yet. Nothing in the insertion checks this.
  lemma InsertionNeedsFreshness(s: CoreState, h: EventHash, peers: set<PeerId>, digest: EventHash -> nat)
    requires CoreTrue(s, peers, digest) && Fits(h, s.store.event.Keys, peers)
    ensures CoreTrue(Inserted(s, EventAt(h, 0), digest), peers, digest) <==> h !in s.store.event
  {
    if h !in s.store.event {
      InsertionRefines(s, h, peers, digest);
    } else {
      StaleInsertionSpoils(s, h, peers, digest);
    }
  }

  lemma StaleInsertionSpoils(s: CoreState, h: EventHash, peers: set<PeerId>, digest: EventHash -> nat)
    requires CoreTrue(s, peers, digest) && h in s.store.event && HeightOf(h) > 0
    ensures h.HashOf? && !CoreTrue(Inserted(s, EventAt(h, 0), digest), peers, digest)
  {
    hide Inserted, RecordedTwice, CoreTrue, CoreExact, RecordsGrow, EventsRecorded, KnowsParents;
    TrueIsRecorded(s, peers, digest);
    StaleInsertionRepeats(s, h, peers, digest);
    var t := Inserted(s, EventAt(h, 0), digest);
    GrowsFromItself(t);
    RepeatedForGood(t, t, h, peers, digest);
  }

  lemma GrowsFromItself(s: CoreState)
    ensures RecordsGrow(s, s)
  {
  }
}
