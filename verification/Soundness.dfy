/** What holds of a core whatever is inserted into it, even when its frame numbers and tables cannot be trusted:
    events and indexes agree, no record is lost, and the final frames have no gaps. */
module Soundness {
  import opened Events
  import opened Sorting
  import opened FlagTables
  import opened Frames
  import opened Stores
  import opened Dag
  import opened Cores
  import opened Refinement

  ghost predicate StoreSound(st: StoreState, peers: set<PeerId>) {
    && GraphTrue(st.event.Keys, peers)
    && EventsFiled(st.event) && IndexTrue(st.event, st.eventOf)
    && st.flagTable.Keys == st.event.Keys
  }

  // Every event has a record in the frame it names.
  ghost predicate EventsRecorded(event: EventMap, frame: FrameMap) {
    forall h {:trigger event[h]} :: h in event ==> RecordOf(h) in FrameIn(frame, event[h].frameNumber)
  }

  // Every entry of a table has a record in the frame the entry gives.
  ghost predicate TableRecorded(t: FlagTable, frame: FrameMap) {
    forall r {:trigger t[r]} :: r in t ==> RecordOf(r) in FrameIn(frame, t[r])
  }

  ghost predicate TablesRecorded(tables: map<EventHash, FlagTable>, frame: FrameMap) {
    forall h {:trigger tables[h]} :: h in tables ==> TableRecorded(tables[h], frame)
  }

  // Every record is one of a stored event.
  ghost predicate RecordsStored(frame: FrameMap, hs: set<EventHash>) {
    forall f: FrameNumber, rec {:trigger rec in FrameIn(frame, f)} ::
      rec in FrameIn(frame, f) ==> rec.hash in hs && rec == RecordOf(rec.hash)
  }

  ghost function CreatorsOf(records: seq<FrameRecord>): set<PeerId> { set rec | rec in records :: Creator(rec.hash) }

  // A frame is entered only over records of a majority of creators in the frame below.
  ghost predicate FrameBacked(frame: FrameMap, f: FrameNumber, n: nat) {
    f > 0 && FrameIn(frame, f) != [] ==> |CreatorsOf(FrameIn(frame, f - 1))| >= RootMajority(n)
  }

  ghost predicate FramesBacked(frame: FrameMap, n: nat) {
    forall f: FrameNumber {:trigger FrameBacked(frame, f, n)} :: FrameBacked(frame, f, n)
  }

  ghost predicate FramesSound(s: CoreState) {
    && EventsRecorded(s.store.event, s.store.frame) && TablesRecorded(s.store.flagTable, s.store.frame)
    && RecordsStored(s.store.frame, s.store.event.Keys) && FramesBacked(s.store.frame, |s.peers.peers|)
    && (s.FirstNotFinalised() > 0 ==> FrameIn(s.store.frame, s.FirstNotFinalised()) != [])
  }

  // Growth

  // `t` has every record that `s` has and has finalised at least as many frames; what is new in a final
  // frame comes after what was there.
  ghost predicate RecordsGrow(s: CoreState, t: CoreState) {
    && s.FirstNotFinalised() <= t.FirstNotFinalised()
    && (forall f: FrameNumber {:trigger FrameIn(s.store.frame, f)} {:trigger FrameIn(t.store.frame, f)} ::
          multiset(FrameIn(s.store.frame, f)) <= multiset(FrameIn(t.store.frame, f)))
    && (forall f: FrameNumber {:trigger FrameIn(s.store.frame, f)} {:trigger FrameIn(t.store.frame, f)} ::
          f < s.FirstNotFinalised() ==> FrameIn(s.store.frame, f) <= FrameIn(t.store.frame, f))
  }

  lemma RecordsGrowOn(s: CoreState, t: CoreState, u: CoreState)
    requires RecordsGrow(s, t) && RecordsGrow(t, u)
    ensures RecordsGrow(s, u)
  {
    forall f: FrameNumber
      ensures multiset(FrameIn(s.store.frame, f)) <= multiset(FrameIn(u.store.frame, f))
      ensures f < s.FirstNotFinalised() ==> FrameIn(s.store.frame, f) <= FrameIn(u.store.frame, f)
    {
      assert multiset(FrameIn(s.store.frame, f)) <= multiset(FrameIn(t.store.frame, f));
    }
  }

  // One record more in frame `g`, and frames from `from` on in any order.
  ghost predicate OneMore(frame: FrameMap, frame': FrameMap, rec: FrameRecord, g: FrameNumber, from: FrameNumber) {
    && (forall f: FrameNumber {:trigger FrameIn(frame', f)} ::
          multiset(FrameIn(frame', f))
          == if f == g then multiset(FrameIn(frame, f)) + multiset{rec} else multiset(FrameIn(frame, f)))
    && (forall f: FrameNumber {:trigger FrameIn(frame', f)} :: f < from ==> FrameIn(frame, f) <= FrameIn(frame', f))
  }

  lemma FramesGainOne(frame: FrameMap, e: Event, from: FrameNumber, upto: FrameNumber, digest: EventHash -> nat)
    ensures OneMore(frame, FramesFinalised(Appended(frame, e), from, upto, digest),
                    FrameRecord(e.hash, e.lamportTimestamp), e.frameNumber, from)
  {
    var more, frame' := Appended(frame, e), FramesFinalised(Appended(frame, e), from, upto, digest);
    RangeKeepsRecords(more, from, upto, digest);
    hide FramesFinalised;
    AppendedFrames(frame, e);
    hide Appended, FrameIn;
  }

  lemma RangeKeepsRecords(frame: FrameMap, from: FrameNumber, upto: FrameNumber, digest: EventHash -> nat)
    ensures var frame' := FramesFinalised(frame, from, upto, digest);
            forall f: FrameNumber {:trigger FrameIn(frame', f)} ::
              && multiset(FrameIn(frame', f)) == multiset(FrameIn(frame, f))
              && (f < from ==> FrameIn(frame', f) == FrameIn(frame, f))
  {
    FinalisingSortsTheRange(frame, from, upto, digest);
    forall f: FrameNumber
      ensures multiset(FrameIn(FramesFinalised(frame, from, upto, digest), f)) == multiset(FrameIn(frame, f))
    {
      SortKeepsElements(FrameIn(frame, f), RecordOrder(digest));
    }
  }

  lemma AppendedFrames(frame: FrameMap, e: Event)
    ensures forall f: FrameNumber {:trigger FrameIn(Appended(frame, e), f)} ::
              FrameIn(Appended(frame, e), f)
              == if f == e.frameNumber then FrameIn(frame, f) + [FrameRecord(e.hash, e.lamportTimestamp)]
                 else FrameIn(frame, f)
  {
  }

  // No insertion loses a record or takes back a finalised frame.
  lemma InsertionKeepsRecords(s: CoreState, e: Event, digest: EventHash -> nat)
    requires KnowsParents(s.store, e) && e.Hashed() == e
    ensures RecordsGrow(s, Inserted(s, e, digest))
    ensures OneMore(s.store.frame, Inserted(s, e, digest).store.frame, FrameRecord(e.hash, e.lamportTimestamp),
                    DecisionFor(s, e).0, s.FirstNotFinalised())
  {
    var upto := InsertionShape(s, e, digest);
    hide Inserted, DecisionFor, FramesFinalised;
    FramesGainOne(s.store.frame, e.(frameNumber := DecisionFor(s, e).0), s.FirstNotFinalised(), upto, digest);
    OneMoreGrows(s, Inserted(s, e, digest), FrameRecord(e.hash, e.lamportTimestamp), DecisionFor(s, e).0);
  }

  lemma OneMoreGrows(s: CoreState, t: CoreState, rec: FrameRecord, g: FrameNumber)
    requires OneMore(s.store.frame, t.store.frame, rec, g, s.FirstNotFinalised())
    requires s.FirstNotFinalised() <= t.FirstNotFinalised()
    ensures RecordsGrow(s, t)
  {
  }

  lemma OneMoreHolds(frame: FrameMap, frame': FrameMap, rec: FrameRecord, g: FrameNumber, from: FrameNumber)
    requires OneMore(frame, frame', rec, g, from)
    ensures forall f: FrameNumber, x {:trigger x in FrameIn(frame', f)} ::
              x in FrameIn(frame', f) <==> x in FrameIn(frame, f) || (f == g && x == rec)
  {
    forall f: FrameNumber, x ensures x in FrameIn(frame', f) <==> x in FrameIn(frame, f) || (f == g && x == rec) {
      assert x in FrameIn(frame', f) <==> x in multiset(FrameIn(frame', f));
      assert x in FrameIn(frame, f) <==> x in multiset(FrameIn(frame, f));
    }
  }

  // Insertion keeps events and indexes sound

  lemma TrueIsSound(s: CoreState, peers: set<PeerId>, digest: EventHash -> nat)
    requires CoreTrue(s, peers, digest)
    ensures StoreSound(s.store, peers)
  {
  }

  // Inserting an event that fits the graph finds its parents and leaves the events sound, whether the
  // event is new or not.
  lemma InsertionIsSound(s: CoreState, h: EventHash, peers: set<PeerId>, digest: EventHash -> nat)
    requires StoreSound(s.store, peers) && Fits(h, s.store.event.Keys, peers)
    ensures KnowsParents(s.store, EventAt(h, 0))
    ensures var t := Inserted(s, EventAt(h, 0), digest);
            && StoreSound(t.store, peers) && t.store.event.Keys == s.store.event.Keys + {h}
            && t == s.(store := t.store, lastFinalisedFrame := t.lastFinalisedFrame)
            && RecordsGrow(s, t)
  {
    hide GraphTrue, IndexTrue, EventsFiled, FramesFinalised, RecordsGrow, OneMore;
    var e, hs := EventAt(h, 0), s.store.event.Keys;
    ClosedGraph(hs, peers);
    FitsHasParents(h, hs, peers);
    hide Fits, Closed, ForkFree;
    assert KnowsParents(s.store, e) && e.Hashed() == e;
    var upto := InsertionShape(s, e, digest);
    hide Inserted, DecisionFor, TableFor, SeenUpto;
    InsertionKeepsRecords(s, e, digest);
    FiledIsSound(s.store, Inserted(s, e, digest).store, h, DecisionFor(s, e).0, peers);
  }

  lemma FiledIsSound(st: StoreState, st': StoreState, h: EventHash, g: FrameNumber, peers: set<PeerId>)
    requires StoreSound(st, peers) && Fits(h, st.event.Keys, peers)
    requires h.HashOf? && st'.event == st.event[h := EventAt(h, g)]
    requires st'.eventOf == st.eventOf[(Creator(h), HeightOf(h)) := EventAt(h, g)]
    requires st'.flagTable.Keys == st.flagTable.Keys + {h}
    ensures StoreSound(st', peers) && st'.event.Keys == st.event.Keys + {h}
  {
    hide Fits, IndexTrue, EventsFiled;
    GraphStaysTrue(st.event.Keys, h, peers);
    RefiledStaysSound(st.event, st.eventOf, h, g);
    assert st'.event.Keys == st.event.Keys + {h};
  }

  // Insertion keeps frames sound

  lemma {:induction false} FewCreators(records: seq<FrameRecord>)
    ensures |CreatorsOf(records)| <= |records|
  {
    if records == [] {
    } else {
      FewCreators(records[1..]);
      assert records == [records[0]] + records[1..];
      assert CreatorsOf(records) == CreatorsOf(records[1..]) + {Creator(records[0].hash)};
    }
  }

  lemma MoreCreators(a: seq<FrameRecord>, b: seq<FrameRecord>)
    requires forall rec :: rec in a ==> rec in b
    ensures |CreatorsOf(a)| <= |CreatorsOf(b)|
  {
    CardinalitySubset(CreatorsOf(a), CreatorsOf(b));
  }

  // Creators counted from recorded tables have records in that frame.
  lemma CountedAreRecorded(event: EventMap, t: FlagTable, frame: FrameMap, f: FrameNumber)
    requires EventsFiled(event) && TableRecorded(t, frame) && forall k :: k in t ==> t[k] == f
    ensures |CreatorTable(event, t, f)| <= |CreatorsOf(FrameIn(frame, f))|
  {
    var seen := CreatorTable(event, t, f);
    forall c | c in seen ensures c in CreatorsOf(FrameIn(frame, f)) {
      var k :| k in t.Keys && Counts(k, event, t, f) && event[k].creator == c && t[k] == seen[c];
      assert RecordOf(k) in FrameIn(frame, t[k]) && Creator(k) == c;
    }
    assert |seen| == |seen.Keys|;
    CardinalitySubset(seen.Keys, CreatorsOf(FrameIn(frame, f)));
  }

  lemma MergeRecorded(ts: FlagTable, to: FlagTable, f: FrameNumber, frame: FrameMap)
    requires TableRecorded(ts, frame) && TableRecorded(to, frame)
    ensures TableRecorded(StrictMerge(ts, to, f), frame) && TableRecorded(OpenMerge(ts, to, f), frame)
  {
  }

  // The frame decided for an event has records already, or the one below has those of a majority.
  lemma DecidedFrameIsBacked(event: EventMap, frame: FrameMap, fs: FrameNumber, fo: FrameNumber, ts: FlagTable,
                             to: FlagTable, n: nat)
    requires EventsFiled(event) && TableRecorded(ts, frame) && TableRecorded(to, frame)
    requires FrameIn(frame, fs) != [] && FrameIn(frame, fo) != []
    ensures var g := Decision(event, fs, fo, ts, to, n).0;
            FrameIn(frame, g) != [] || (g > 0 && |CreatorsOf(FrameIn(frame, g - 1))| >= RootMajority(n))
  {
    if fs == fo {
      MergeRecorded(ts, to, fs, frame);
      CountedAreRecorded(event, StrictMerge(ts, to, fs), frame, fs);
    }
  }

  lemma BackingStays(frame: FrameMap, frame': FrameMap, rec: FrameRecord, g: FrameNumber, from: FrameNumber, n: nat)
    requires OneMore(frame, frame', rec, g, from) && FramesBacked(frame, n)
    requires FrameIn(frame, g) != [] || (g > 0 && |CreatorsOf(FrameIn(frame, g - 1))| >= RootMajority(n))
    ensures FramesBacked(frame', n)
  {
    OneMoreHolds(frame, frame', rec, g, from);
    forall f: FrameNumber ensures FrameBacked(frame', f, n) {
      if f > 0 && FrameIn(frame', f) != [] {
        MoreCreators(FrameIn(frame, f - 1), FrameIn(frame', f - 1));
        assert FrameIn(frame', f)[0] in FrameIn(frame', f);
        assert FrameBacked(frame, f, n);
      }
    }
  }

  // The frame up to which a table lets a node finalise has a record.
  lemma UptoIsRecorded(event: EventMap, vis: FlagTable, from: FrameNumber, n: nat, frame: FrameMap)
    requires TableRecorded(vis, frame) && n > 0 && from < SeenUpto(event, vis, from, n)
    ensures FrameIn(frame, SeenUpto(event, vis, from, n)) != []
  {
    var seen, upto := CreatorTable(event, vis, from + 1), SeenUpto(event, vis, from, n);
    var c :| c in seen && seen[c] == upto;
    var k :| k in vis.Keys && Counts(k, event, vis, from + 1) && event[k].creator == c && vis[k] == seen[c];
    assert RecordOf(k) in FrameIn(frame, vis[k]);
  }

  // Whatever event that fits the graph is inserted, new or not: records, tables and frames stay in step, and
  // no final frame is empty.
  lemma InsertionKeepsFrames(s: CoreState, h: EventHash, peers: set<PeerId>, digest: EventHash -> nat)
    requires StoreSound(s.store, peers) && FramesSound(s) && Fits(h, s.store.event.Keys, peers) && s.peers.peers != []
    ensures h.HashOf? && FramesSound(Inserted(s, EventAt(h, 0), digest))
  {
    hide GraphTrue, IndexTrue, FramesFinalised, OneMore, Decision, SeenUpto, FramesBacked, RecordsStored;
    var st, hs, n := s.store, s.store.event.Keys, |s.peers.peers|;
    ClosedGraph(hs, peers);
    FitsHasParents(h, hs, peers);
    hide Fits, Closed, ForkFree, Ancestors;
    var e := EventAt(h, 0);
    assert KnowsParents(st, e) && e.Hashed() == e;
    var upto := InsertionShape(s, e, digest);
    InsertionKeepsRecords(s, e, digest);
    var from, g, vis := s.FirstNotFinalised(), DecisionFor(s, e).0, TableFor(s, e);
    var fs, fo := st.event[e.selfParent].frameNumber, st.event[e.otherParent].frameNumber;
    var ts, to := st.flagTable[e.selfParent], st.flagTable[e.otherParent];
    assert RecordOf(e.selfParent) in FrameIn(st.frame, fs) && RecordOf(e.otherParent) in FrameIn(st.frame, fo);
    DecidedFrameIsBacked(st.event, st.frame, fs, fo, ts, to, n);
    TableOfEvent(s, e);
    hide Inserted, DecisionFor, TableFor;
    var t := Inserted(s, e, digest);
    BackingStays(st.frame, t.store.frame, RecordOf(h), g, from, n);
    InStep(st, t.store, h, g, vis, ts, to, from);
    hide EventsRecorded, TablesRecorded, RecordsStored;
    if from < upto {
      UptoIsRecorded(t.store.event, vis, from, n, t.store.frame);
    } else if from > 0 {
      assert FrameIn(st.frame, from)[0] in FrameIn(st.frame, from);
      OneMoreHolds(st.frame, t.store.frame, RecordOf(h), g, from);
    }
  }

  // Events, tables and records stay in step.
  lemma InStep(st: StoreState, st': StoreState, h: EventHash, g: FrameNumber, vis: FlagTable, ts: FlagTable,
               to: FlagTable, from: FrameNumber)
    requires EventsRecorded(st.event, st.frame) && TablesRecorded(st.flagTable, st.frame)
    requires RecordsStored(st.frame, st.event.Keys) && h.HashOf?
    requires OneMore(st.frame, st'.frame, RecordOf(h), g, from)
    requires st'.event == st.event[h := EventAt(h, g)] && st'.flagTable == st.flagTable[h := vis]
    requires TableRecorded(ts, st.frame) && TableRecorded(to, st.frame)
    requires vis == OpenMerge(ts, to, from) || vis == OpenMerge(ts, to, from)[h := g]
    ensures EventsRecorded(st'.event, st'.frame) && TablesRecorded(st'.flagTable, st'.frame)
    ensures RecordsStored(st'.frame, st'.event.Keys) && TableRecorded(vis, st'.frame)
  {
    hide OneMore, OpenMerge, EventsRecorded, TablesRecorded, TableRecorded, RecordsStored;
    OneMoreHolds(st.frame, st'.frame, RecordOf(h), g, from);
    MergeRecorded(ts, to, from, st.frame);
    TableStaysRecorded(OpenMerge(ts, to, from), vis, h, g, st.frame, st'.frame);
    EventsStayRecorded(st.event, h, g, st.frame, st'.frame);
    TablesStayRecorded(st.flagTable, h, vis, st.frame, st'.frame);
    RecordsStayStored(st.event.Keys, h, g, st.frame, st'.frame);
    assert st'.event.Keys == st.event.Keys + {h};
  }

  // Records are not lost.
  ghost predicate Keeps(frame: FrameMap, frame': FrameMap) {
    forall f: FrameNumber, x {:trigger x in FrameIn(frame, f)} :: x in FrameIn(frame, f) ==> x in FrameIn(frame', f)
  }

  lemma TableStaysRecorded(t: FlagTable, vis: FlagTable, h: EventHash, g: FrameNumber, frame: FrameMap,
                           frame': FrameMap)
    requires TableRecorded(t, frame) && Keeps(frame, frame')
    requires vis == t || (vis == t[h := g] && RecordOf(h) in FrameIn(frame', g))
    ensures TableRecorded(vis, frame')
  {
  }

  lemma EventsStayRecorded(event: EventMap, h: EventHash, g: FrameNumber, frame: FrameMap, frame': FrameMap)
    requires EventsRecorded(event, frame) && Keeps(frame, frame') && RecordOf(h) in FrameIn(frame', g) && h.HashOf?
    ensures EventsRecorded(event[h := EventAt(h, g)], frame')
  {
  }

  lemma TablesStayRecorded(tables: map<EventHash, FlagTable>, h: EventHash, vis: FlagTable, frame: FrameMap,
                           frame': FrameMap)
    requires TablesRecorded(tables, frame) && Keeps(frame, frame') && TableRecorded(vis, frame')
    ensures TablesRecorded(tables[h := vis], frame')
  {
    var tables' := tables[h := vis];
    forall x | x in tables' ensures TableRecorded(tables'[x], frame') {
      if x != h { TableStaysRecorded(tables[x], tables[x], x, 0, frame, frame'); }
    }
  }

  lemma RecordsStayStored(hs: set<EventHash>, h: EventHash, g: FrameNumber, frame: FrameMap, frame': FrameMap)
    requires RecordsStored(frame, hs)
    requires forall f: FrameNumber, x {:trigger x in FrameIn(frame', f)} ::
               x in FrameIn(frame', f) <==> x in FrameIn(frame, f) || (f == g && x == RecordOf(h))
    ensures RecordsStored(frame', hs + {h})
  {
  }

  lemma TableOfEvent(s: CoreState, e: Event)
    requires KnowsParents(s.store, e)
    ensures var ts, to := s.store.flagTable[e.selfParent], s.store.flagTable[e.otherParent];
            var merged := OpenMerge(ts, to, s.FirstNotFinalised());
            TableFor(s, e) == merged || TableFor(s, e) == merged[e.hash := DecisionFor(s, e).0]
  {
  }
}
