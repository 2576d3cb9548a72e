/** Pruned tables tell the truth: what a node computes from its own flag tables, pruned by its own
    finalisation history, is what the event graph determines. */
module Refinement {
  import opened Events
  import opened Sorting
  import opened FlagTables
  import opened Frames
  import opened Peers
  import opened Stores
  import opened Dag
  import opened Cores

  // The invariant of a store

  // A parent-closed, fork-free set of events that has every peer's leaf.
  ghost predicate GraphTrue(hs: set<EventHash>, peers: set<PeerId>) {
    && Closed(hs, peers) && ForkFree(hs)
    && forall p {:trigger Leaf(p)} :: p in peers ==> Leaf(p) in hs
  }

  // Every event is stored under its hash with its true frame number.
  ghost predicate EventsTrue(event: EventMap, n: nat) {
    forall h {:trigger event[h]} :: h in event ==> h.HashOf? && event[h] == EventAt(h, FrameOf(h, n))
  }

  ghost predicate FiledByHeight(h: EventHash, event: EventMap, eventOf: HeightIndex) {
    h in event && (Creator(h), HeightOf(h)) in eventOf && eventOf[(Creator(h), HeightOf(h))] == event[h]
  }

  ghost predicate FiledByHash(k: (PeerId, Height), event: EventMap, eventOf: HeightIndex) {
    && k in eventOf && k == (eventOf[k].creator, eventOf[k].height)
    && eventOf[k].hash in event && eventOf[k] == event[eventOf[k].hash]
  }

  // Lookup by hash and lookup by creator and height find the same events.
  ghost predicate IndexTrue(event: EventMap, eventOf: HeightIndex) {
    && (forall h {:trigger FiledByHeight(h, event, eventOf)} :: h in event ==> FiledByHeight(h, event, eventOf))
    && (forall k {:trigger FiledByHash(k, event, eventOf)} :: k in eventOf ==> FiledByHash(k, event, eventOf))
  }

  // A table lists only roots among the event's ancestors, under their true frames, and from frame `from`
  // on it lists them all.
  ghost predicate TableTrue(t: FlagTable, h: EventHash, from: FrameNumber, n: nat) {
    && (forall r {:trigger r in t} :: r in t ==> r in Ancestors(h) && IsRoot(r, n) && t[r] == FrameOf(r, n))
    && (forall r {:trigger r in Ancestors(h)} :: r in Ancestors(h) && IsRoot(r, n) && FrameOf(r, n) >= from ==> r in t)
  }

  ghost predicate TablesTrue(tables: map<EventHash, FlagTable>, from: FrameNumber, n: nat) {
    forall h {:trigger TableTrue(tables[h], h, from, n)} :: h in tables ==> TableTrue(tables[h], h, from, n)
  }

  // Each event's own table is exact from that event's frame on, however far finality has moved since.
  ghost predicate TablesOwn(tables: map<EventHash, FlagTable>, n: nat) {
    forall h {:trigger tables[h]} :: h in tables ==> TableTrue(tables[h], h, FrameOf(h, n), n)
  }

  // Every record is in the frame of its event.
  ghost predicate RecordsTrue(frame: FrameMap, n: nat) {
    forall f: FrameNumber, rec {:trigger rec in FrameIn(frame, f)} ::
      rec in FrameIn(frame, f) ==> FrameOf(rec.hash, n) == f
  }

  // Exactly one record for every event of `hs` in frame `f`, and no other.
  ghost predicate FrameTrue(records: seq<FrameRecord>, f: FrameNumber, hs: set<EventHash>, n: nat) {
    && Distinct(records)
    && forall rec {:trigger rec in records} ::
         rec in records <==> rec.hash in hs && rec == RecordOf(rec.hash) && FrameOf(rec.hash, n) == f
  }

  ghost predicate FramesTrue(frame: FrameMap, hs: set<EventHash>, n: nat) {
    forall f: FrameNumber {:trigger FrameTrue(FrameIn(frame, f), f, hs, n)} :: FrameTrue(FrameIn(frame, f), f, hs, n)
  }

  ghost predicate FramesSorted(frame: FrameMap, upto: FrameNumber, digest: EventHash -> nat) {
    forall f: FrameNumber {:trigger FrameIn(frame, f)} :: f < upto ==> Sorted(FrameIn(frame, f), RecordOrder(digest))
  }

  // Every event is stored under its hash and as its content says.
  ghost predicate EventsFiled(event: EventMap) {
    forall h {:trigger event[h]} :: h in event ==> h.HashOf? && event[h] == EventAt(h, event[h].frameNumber)
  }

  // Frame numbers, tables and finality are what the graph determines, and every record is in its event's
  // frame, be it repeated.
  ghost predicate StoreExact(st: StoreState, from: FrameNumber, peers: set<PeerId>) {
    && GraphTrue(st.event.Keys, peers)
    && EventsTrue(st.event, |peers|) && IndexTrue(st.event, st.eventOf)
    && st.flagTable.Keys == st.event.Keys
    && TablesTrue(st.flagTable, from, |peers|) && TablesOwn(st.flagTable, |peers|)
    && RecordsTrue(st.frame, |peers|)
    && IsFinalityBound(from, st.event.Keys, peers)
  }

  // What holds of the store of a core whose first open frame is `from`.
  ghost predicate StoreTrue(st: StoreState, from: FrameNumber, peers: set<PeerId>, digest: EventHash -> nat) {
    && StoreExact(st, from, peers)
    && FramesTrue(st.frame, st.event.Keys, |peers|) && FramesSorted(st.frame, from, digest)
  }

  ghost predicate CoreExact(s: CoreState, peers: set<PeerId>) {
    && peers != {}
    && s.peers.Valid() && IdsOf(s.peers.peers) == peers
    && StoreExact(s.store, s.FirstNotFinalised(), peers)
  }

  ghost predicate CoreTrue(s: CoreState, peers: set<PeerId>, digest: EventHash -> nat) {
    && peers != {}
    && s.peers.Valid() && IdsOf(s.peers.peers) == peers
    && StoreTrue(s.store, s.FirstNotFinalised(), peers, digest)
  }

  // The decision

  // From the first open frame on, the strict merge of the parents' pruned tables is exactly the set of
  // that frame's roots among the event's proper ancestors.
  lemma StrictMergeIsExact(h: EventHash, ts: FlagTable, to: FlagTable, from: FrameNumber, f: FrameNumber, n: nat)
    requires TableTrue(ts, SelfParent(h), from, n) && TableTrue(to, OtherParent(h), from, n) && from <= f
    ensures StrictMerge(ts, to, f).Keys == ParentRoots(h, f, n)
  {
    var merged := StrictMerge(ts, to, f);
    forall r ensures r in merged <==> r in ParentRoots(h, f, n) {
      assert r in ParentRoots(h, f, n) ==> r in Ancestors(SelfParent(h)) || r in Ancestors(OtherParent(h));
    }
  }

  lemma TableCreators(event: EventMap, n: nat, roots: FlagTable, f: FrameNumber)
    requires EventsTrue(event, n) && roots.Keys <= event.Keys
    requires forall r :: r in roots ==> roots[r] == f
    ensures |CreatorTable(event, roots, f)| == |Creators(roots.Keys)|
  {
    var t := CreatorTable(event, roots, f);
    forall c ensures c in t <==> c in Creators(roots.Keys) {
      if c in t {
        var k :| k in roots.Keys && Counts(k, event, roots, f) && event[k].creator == c && roots[k] == t[c];
        assert Creator(k) == c;
      }
      if c in Creators(roots.Keys) {
        var k :| k in roots.Keys && Creator(k) == c;
        assert Counts(k, event, roots, f);
      }
    }
    assert t.Keys == Creators(roots.Keys);
    assert |t| == |t.Keys|;
  }

  // The frame number and the root flag computed from pruned tables are those of the event graph: they
  // depend on the event's ancestors alone, not on what this node has finalised or in which order it
  // learned of events.
  lemma DecisionIsTrue(event: EventMap, h: EventHash, ts: FlagTable, to: FlagTable, from: FrameNumber, n: nat)
    requires EventsTrue(event, n) && IsInner(h)
    requires Ancestors(SelfParent(h)) <= event.Keys && Ancestors(OtherParent(h)) <= event.Keys
    requires TableTrue(ts, SelfParent(h), from, n) && TableTrue(to, OtherParent(h), from, n)
    requires from <= FrameOf(SelfParent(h), n)
    ensures Decision(event, FrameOf(SelfParent(h), n), FrameOf(OtherParent(h), n), ts, to, n)
         == (FrameOf(h, n), IsRoot(h, n))
  {
    FrameRule(h, n);
    var fs := FrameOf(SelfParent(h), n);
    if fs == FrameOf(OtherParent(h), n) {
      StrictMergeIsExact(h, ts, to, from, fs, n);
      TableCreators(event, n, StrictMerge(ts, to, fs), fs);
    }
  }

  // The table

  // The table an event is stored with is exact from the frame that was first open at its insertion.
  lemma VisibleIsTrue(h: EventHash, ts: FlagTable, to: FlagTable, from: FrameNumber, n: nat)
    requires IsInner(h) && TableTrue(ts, SelfParent(h), from, n) && TableTrue(to, OtherParent(h), from, n)
    ensures TableTrue(Visible(ts, to, from, h, (FrameOf(h, n), IsRoot(h, n))), h, from, n)
  {
    var merged := OpenMerge(ts, to, from);
    var vis := Visible(ts, to, from, h, (FrameOf(h, n), IsRoot(h, n)));
    forall r | r in vis ensures r in Ancestors(h) && IsRoot(r, n) && vis[r] == FrameOf(r, n) {
      if r in merged { assert r in ts || r in to; }
    }
    forall r | r in Ancestors(h) && IsRoot(r, n) && FrameOf(r, n) >= from ensures r in vis {
      assert r == h || r in Ancestors(SelfParent(h)) || r in Ancestors(OtherParent(h));
    }
  }

  // Recording

  lemma EventsStayTrue(event: EventMap, h: EventHash, n: nat)
    requires EventsTrue(event, n) && h.HashOf?
    ensures EventsTrue(event[h := EventAt(h, FrameOf(h, n))], n)
  {
  }

  // Filing an event, whether it is new or filed already, keeps both indexes in step.
  lemma RefiledStaysSound(event: EventMap, eventOf: HeightIndex, h: EventHash, g: FrameNumber)
    requires EventsFiled(event) && IndexTrue(event, eventOf) && h.HashOf? && ForkFree(event.Keys + {h})
    ensures EventsFiled(event[h := EventAt(h, g)])
    ensures IndexTrue(event[h := EventAt(h, g)], eventOf[(Creator(h), HeightOf(h)) := EventAt(h, g)])
  {
    var e := EventAt(h, g);
    var event', eventOf' := event[h := e], eventOf[(e.creator, e.height) := e];
    forall x | x in event' ensures FiledByHeight(x, event', eventOf') {
      if x != h {
        assert FiledByHeight(x, event, eventOf);
        assert !Twins(x, h);
      }
    }
    forall k | k in eventOf' ensures FiledByHash(k, event', eventOf') {
      if k != (e.creator, e.height) {
        assert FiledByHash(k, event, eventOf);
      }
    }
  }

  lemma TablesStayTrue(tables: map<EventHash, FlagTable>, h: EventHash, vis: FlagTable, from: FrameNumber, n: nat)
    requires TablesTrue(tables, from, n) && TableTrue(vis, h, from, n)
    ensures TablesTrue(tables[h := vis], from, n)
  {
    var tables' := tables[h := vis];
    forall x | x in tables' ensures TableTrue(tables'[x], x, from, n) {
      if x != h { assert TableTrue(tables[x], x, from, n); }
    }
  }

  lemma TablesStayOwn(tables: map<EventHash, FlagTable>, h: EventHash, vis: FlagTable, from: FrameNumber, n: nat)
    requires TablesOwn(tables, n) && TableTrue(vis, h, from, n) && from <= FrameOf(h, n)
    ensures TablesOwn(tables[h := vis], n)
  {
    hide FrameOf, IsRoot, Ancestors;
    var tables' := tables[h := vis];
    forall x | x in tables' ensures TableTrue(tables'[x], x, FrameOf(x, n), n) {
      if x != h { assert TableTrue(tables[x], x, FrameOf(x, n), n); }
    }
  }

  // Sorting moves no record to another frame.
  lemma RecordsStayTrue(frame: FrameMap, h: EventHash, from: FrameNumber, upto: FrameNumber, n: nat,
                        digest: EventHash -> nat)
    requires RecordsTrue(frame, n) && h.HashOf?
    ensures RecordsTrue(FramesFinalised(Appended(frame, EventAt(h, FrameOf(h, n))), from, upto, digest), n)
  {
    var more := Appended(frame, EventAt(h, FrameOf(h, n)));
    FinalisingSortsTheRange(more, from, upto, digest);
    hide FrameOf;
    forall f: FrameNumber, rec | rec in FrameIn(FramesFinalised(more, from, upto, digest), f)
      ensures FrameOf(rec.hash, n) == f
    {
      SortKeepsElements(FrameIn(more, f), RecordOrder(digest));
      assert rec in FrameIn(more, f);
      assert rec in FrameIn(frame, f) || (f == FrameOf(h, n) && rec == RecordOf(h));
    }
  }

  lemma FramesStayTrue(frame: FrameMap, hs: set<EventHash>, h: EventHash, from: FrameNumber, n: nat,
                       digest: EventHash -> nat)
    requires FramesTrue(frame, hs, n) && h !in hs && h.HashOf?
    requires FramesSorted(frame, from, digest) && from <= FrameOf(h, n)
    ensures FramesTrue(Appended(frame, EventAt(h, FrameOf(h, n))), hs + {h}, n)
    ensures FramesSorted(Appended(frame, EventAt(h, FrameOf(h, n))), from, digest)
    ensures forall f: FrameNumber :: f < from ==>
              FrameIn(Appended(frame, EventAt(h, FrameOf(h, n))), f) == FrameIn(frame, f)
  {
    var frame' := Appended(frame, EventAt(h, FrameOf(h, n)));
    forall f: FrameNumber ensures FrameTrue(FrameIn(frame', f), f, hs + {h}, n) {
      assert FrameTrue(FrameIn(frame, f), f, hs, n);
      if f == FrameOf(h, n) {
        AppendedFrameIsTrue(FrameIn(frame, f), f, hs, h, n);
      }
    }
    forall f: FrameNumber | f < from
      ensures FrameIn(frame', f) == FrameIn(frame, f) && Sorted(FrameIn(frame', f), RecordOrder(digest))
    {
    }
  }

  lemma AppendedFrameIsTrue(records: seq<FrameRecord>, f: FrameNumber, hs: set<EventHash>, h: EventHash, n: nat)
    requires FrameTrue(records, f, hs, n) && h !in hs && FrameOf(h, n) == f
    ensures FrameTrue(records + [RecordOf(h)], f, hs + {h}, n)
  {
    var more := records + [RecordOf(h)];
    assert RecordOf(h) !in records;
    forall rec ensures rec in more <==> rec.hash in hs + {h} && rec == RecordOf(rec.hash) && FrameOf(rec.hash, n) == f {
      if rec == RecordOf(h) { assert more[|records|] == rec; }
    }
  }

  // Finalising

  lemma {:induction false} FinalisingSortsTheRange(frame: FrameMap, from: FrameNumber, upto: FrameNumber,
                                                   digest: EventHash -> nat)
    ensures forall f: FrameNumber :: FrameIn(FramesFinalised(frame, from, upto, digest), f) ==
              if from <= f < upto then StableSort(FrameIn(frame, f), RecordOrder(digest)) else FrameIn(frame, f)
    decreases upto - from
  {
    if from >= upto {
    } else {
      var sorted := StableSort(FrameIn(frame, from), RecordOrder(digest));
      FinalisingSortsTheRange(frame[from := sorted], from + 1, upto, digest);
    }
  }

  lemma FinalisedFramesAreTrue(frame: FrameMap, hs: set<EventHash>, from: FrameNumber, upto: FrameNumber, n: nat,
                               digest: EventHash -> nat)
    requires FramesTrue(frame, hs, n) && FramesSorted(frame, from, digest)
    ensures var t := FramesFinalised(frame, from, upto, digest);
            FramesTrue(t, hs, n) && FramesSorted(t, if from < upto then upto else from, digest)
  {
    var t, bound := FramesFinalised(frame, from, upto, digest), if from < upto then upto else from;
    FinalisingSortsTheRange(frame, from, upto, digest);
    RecordOrderIsTotal(digest);
    forall f: FrameNumber
      ensures FrameTrue(FrameIn(t, f), f, hs, n)
      ensures f < bound ==> Sorted(FrameIn(t, f), RecordOrder(digest))
    {
      assert FrameTrue(FrameIn(frame, f), f, hs, n);
      if from <= f < upto {
        SortKeepsElements(FrameIn(frame, f), RecordOrder(digest));
        SortKeepsDistinct(FrameIn(frame, f), RecordOrder(digest));
        SortSorts(FrameIn(frame, f), RecordOrder(digest));
      }
    }
  }

  lemma TablesTrueLater(tables: map<EventHash, FlagTable>, from: FrameNumber, later: FrameNumber, n: nat)
    requires TablesTrue(tables, from, n) && from <= later
    ensures TablesTrue(tables, later, n)
  {
    forall h | h in tables ensures TableTrue(tables[h], h, later, n) {
      assert TableTrue(tables[h], h, from, n);
    }
  }

  // What a true table shows above frame `from` is what the graph shows.
  ghost predicate SeenTrue(seen: CreatorFlagTable, h: EventHash, from: FrameNumber, n: nat) {
    && (forall c {:trigger c in seen} :: c in seen ==> seen[c] > from && SeesRootFrom(h, c, seen[c], n))
    && (forall c, g: FrameNumber {:trigger SeesRootFrom(h, c, g, n)} ::
          g > from && SeesRootFrom(h, c, g, n) ==> c in seen && g <= seen[c])
  }

  lemma SeenIsTrue(event: EventMap, h: EventHash, vis: FlagTable, from: FrameNumber, peers: set<PeerId>)
    requires EventsTrue(event, |peers|) && Closed(event.Keys, peers) && h in event && TableTrue(vis, h, from, |peers|)
    ensures CreatorTable(event, vis, from + 1).Keys <= peers
    ensures SeenTrue(CreatorTable(event, vis, from + 1), h, from, |peers|)
  {
    var seen, n := CreatorTable(event, vis, from + 1), |peers|;
    ClosedHoldsAncestors(event.Keys, peers, h);
    forall c | c in seen ensures c in peers && seen[c] > from && SeesRootFrom(h, c, seen[c], n) {
      var k :| k in vis.Keys && Counts(k, event, vis, from + 1) && event[k].creator == c && vis[k] == seen[c];
      assert WellPlaced(k, event.Keys, peers);
      assert k in Ancestors(h) && IsRoot(k, n) && Creator(k) == c && FrameOf(k, n) >= seen[c];
    }
    forall c, g: FrameNumber | g > from && SeesRootFrom(h, c, g, n) ensures c in seen && g <= seen[c] {
      var r :| r in Ancestors(h) && IsRoot(r, n) && Creator(r) == c && FrameOf(r, n) >= g;
      assert Counts(r, event, vis, from + 1);
      assert Creator(r) == event[r].creator;
    }
  }

  // The frame up to which a table lets a node finalise is exactly the highest frame the event covers, as
  // far as that lies above what is final already.
  lemma UptoIsTrue(event: EventMap, h: EventHash, vis: FlagTable, from: FrameNumber, peers: set<PeerId>)
    requires EventsTrue(event, |peers|) && Closed(event.Keys, peers) && h in event && TableTrue(vis, h, from, |peers|)
    requires peers != {}
    ensures var upto := SeenUpto(event, vis, from, |peers|);
            && (upto > 0 ==> upto > from && Covers(h, upto, peers))
            && forall g: FrameNumber :: Covers(h, g, peers) ==> g <= from || g <= upto
  {
    var seen := CreatorTable(event, vis, from + 1);
    SeenIsTrue(event, h, vis, from, peers);
    assert |seen| == |seen.Keys|;
    CardinalitySubset(seen.Keys, peers);
    if |seen| == |peers| {
      UptoOfFullTable(h, seen, from, peers);
    } else {
      UptoOfPartialTable(h, seen, from, peers);
    }
  }

  lemma UptoOfFullTable(h: EventHash, seen: CreatorFlagTable, from: FrameNumber, peers: set<PeerId>)
    requires seen.Keys == peers && peers != {} && SeenTrue(seen, h, from, |peers|)
    ensures MinFrameOf(seen) > from && Covers(h, MinFrameOf(seen), peers)
    ensures forall g: FrameNumber :: Covers(h, g, peers) ==> g <= from || g <= MinFrameOf(seen)
  {
    var upto := MinFrameOf(seen);
    assert seen != map[] by { var c :| c in peers; assert c in seen; }
    forall c | c in peers ensures SeesRootFrom(h, c, upto, |peers|) {
      assert c in seen && SeesRootFrom(h, c, seen[c], |peers|);
    }
    var least :| least in seen && seen[least] == upto;
    forall g: FrameNumber | Covers(h, g, peers) && g > from ensures g <= upto {
      assert SeesRootFrom(h, least, g, |peers|);
    }
  }

  lemma UptoOfPartialTable(h: EventHash, seen: CreatorFlagTable, from: FrameNumber, peers: set<PeerId>)
    requires seen.Keys <= peers && seen.Keys != peers && SeenTrue(seen, h, from, |peers|)
    ensures forall g: FrameNumber :: Covers(h, g, peers) ==> g <= from
  {
    var c :| c in peers && c !in seen.Keys;
    forall g: FrameNumber | Covers(h, g, peers) ensures g <= from {
      assert SeesRootFrom(h, c, g, |peers|);
    }
  }

  // Finalising as far as the table of the newest event allows leaves exactly what some stored event covers
  // finalised.
  lemma BoundMovesToUpto(event: EventMap, hs: set<EventHash>, h: EventHash, vis: FlagTable, from: FrameNumber,
                         peers: set<PeerId>)
    requires EventsTrue(event, |peers|) && Closed(event.Keys, peers) && event.Keys == hs + {h} && peers != {}
    requires TableTrue(vis, h, from, |peers|) && IsFinalityBound(from, hs, peers)
    ensures var upto := SeenUpto(event, vis, from, |peers|);
            IsFinalityBound(if from < upto then upto else from, event.Keys, peers)
  {
    UptoIsTrue(event, h, vis, from, peers);
    var upto := SeenUpto(event, vis, from, |peers|);
    if from < upto {
      assert h in event.Keys && Covers(h, upto, peers);
    } else if from > 0 {
      var w :| w in hs && Covers(w, from, peers);
      assert w in event.Keys;
    }
  }

  // Insertion

  lemma ClosedGraph(hs: set<EventHash>, peers: set<PeerId>)
    requires GraphTrue(hs, peers)
    ensures Closed(hs, peers)
  {
  }

  lemma GraphStaysTrue(hs: set<EventHash>, h: EventHash, peers: set<PeerId>)
    requires GraphTrue(hs, peers) && Fits(h, hs, peers)
    ensures GraphTrue(hs + {h}, peers) && ForkFree(hs + {h}) && h.HashOf?
  {
  }

  // What any insertion does, whatever the state of the tables: the event is filed under the frame decided
  // for it, one record is appended to that frame, and a range of frames is sorted.
  lemma InsertionShape(s: CoreState, e: Event, digest: EventHash -> nat) returns (upto: FrameNumber)
    requires KnowsParents(s.store, e) && e.Hashed() == e
    ensures var t, from := Inserted(s, e, digest), s.FirstNotFinalised();
            var placed := e.(frameNumber := DecisionFor(s, e).0);
            && t == s.(store := t.store, lastFinalisedFrame := t.lastFinalisedFrame)
            && t.store.event == s.store.event[e.hash := placed]
            && t.store.eventOf == s.store.eventOf[(e.creator, e.height) := placed]
            && t.store.flagTable == s.store.flagTable[e.hash := TableFor(s, e)]
            && upto == SeenUpto(t.store.event, TableFor(s, e), from, |s.peers.peers|)
            && t.store.frame == FramesFinalised(Appended(s.store.frame, placed), from, upto, digest)
            && t.FirstNotFinalised() == if from < upto then upto else from
  {
    hide Visible, Decision, CreatorTable, FramesFinalised, MinFrameOf, SeenUpto;
    var r, vis := Recorded(s, e), TableFor(s, e);
    upto := SeenUpto(r.store.event, vis, r.FirstNotFinalised(), |r.peers.peers|);
  }

  // What an insertion finds at an exact core, whether the event is new or not and however far finality has
  // moved: both parents, and the true frame number and root flag. Where the parents' frames are equal their
  // own tables are exact from there on; where they differ the comparison alone decides.
  lemma ParentsAreKnown(s: CoreState, h: EventHash, peers: set<PeerId>)
    requires CoreExact(s, peers) && Fits(h, s.store.event.Keys, peers)
    ensures KnowsParents(s.store, EventAt(h, 0)) && |s.peers.peers| == |peers|
    ensures DecisionFor(s, EventAt(h, 0)) == (FrameOf(h, |peers|), IsRoot(h, |peers|))
    ensures TableTrue(TableFor(s, EventAt(h, 0)), h, s.FirstNotFinalised(), |peers|)
  {
    var st, from, n := s.store, s.FirstNotFinalised(), |peers|;
    CountOfIds(s.peers.peers);
    FitsHasParents(h, st.event.Keys, peers);
    FrameRule(h, n);
    var ts, to := st.flagTable[SelfParent(h)], st.flagTable[OtherParent(h)];
    assert TableTrue(ts, SelfParent(h), from, n) && TableTrue(to, OtherParent(h), from, n);
    var fs := FrameOf(SelfParent(h), n);
    if fs == FrameOf(OtherParent(h), n) {
      assert TableTrue(ts, SelfParent(h), fs, n) && TableTrue(to, OtherParent(h), fs, n);
      DecisionIsTrue(st.event, h, ts, to, fs, n);
    }
    VisibleIsTrue(h, ts, to, from, n);
  }

  // The frame an event is stored under, from its parents' stored frames and the graph: two thirds of the
  // peers and no fewer take it to the next frame. Its table lists it exactly when its frame is a new one.
  lemma InsertionDecides(s: CoreState, h: EventHash, peers: set<PeerId>, digest: EventHash -> nat)
    requires CoreExact(s, peers) && Fits(h, s.store.event.Keys, peers)
    ensures SelfParent(h) in s.store.event && OtherParent(h) in s.store.event && h.HashOf?
    ensures var t := Inserted(s, EventAt(h, 0), digest).store;
            var fs, fo := s.store.event[SelfParent(h)].frameNumber, s.store.event[OtherParent(h)].frameNumber;
            var seen := |Creators(ParentRoots(h, fs, |peers|))|;
            && h in t.event && h in t.flagTable
            && t.event[h].frameNumber == (if fs > fo then fs
                                          else if fs < fo then fo
                                          else if 3 * seen > 2 * |peers| then fs + 1
                                          else fs)
            && (h in t.flagTable[h] <==> t.event[h].frameNumber > fs)
  {
    hide FrameOf, ParentRoots, TablesTrue, TablesOwn, RecordsTrue, IsFinalityBound;
    hide CreatorTable, StrictMerge, OpenMerge;
    FitsHasParents(h, s.store.event.Keys, peers);
    ParentsAreKnown(s, h, peers);
    var upto := InsertionShape(s, EventAt(h, 0), digest);
    FrameRule(h, |peers|);
  }

  // What the new table keeps of the parents' tables: of the self-parent's the roots of open frames, and all
  // that only the other parent's lists.
  lemma InsertionPrunes(s: CoreState, h: EventHash, peers: set<PeerId>, digest: EventHash -> nat)
    requires CoreExact(s, peers) && Fits(h, s.store.event.Keys, peers)
    ensures SelfParent(h) in s.store.flagTable && OtherParent(h) in s.store.flagTable && h.HashOf?
    ensures var ts, to := s.store.flagTable[SelfParent(h)], s.store.flagTable[OtherParent(h)];
            var t := Inserted(s, EventAt(h, 0), digest).store.flagTable;
            && h in t
            && forall r :: r != h ==>
                 (r in t[h] <==> (r in ts && s.FirstNotFinalised() <= FrameOf(r, |peers|)) || (r in to && r !in ts))
  {
    hide FrameOf, Decision, TablesOwn, RecordsTrue, IsFinalityBound, IsRoot;
    FitsHasParents(h, s.store.event.Keys, peers);
    ParentsAreKnown(s, h, peers);
    var from, n := s.FirstNotFinalised(), |peers|;
    var upto := InsertionShape(s, EventAt(h, 0), digest);
    var ts, to := s.store.flagTable[SelfParent(h)], s.store.flagTable[OtherParent(h)];
    assert TableTrue(ts, SelfParent(h), from, n) && TableTrue(to, OtherParent(h), from, n);
    forall r | r != h
      ensures r in TableFor(s, EventAt(h, 0)) <==> (r in ts && from <= FrameOf(r, n)) || (r in to && r !in ts)
    {
      OpenMergeEntries(ts, to, from, r);
    }
  }

  // Inserting an event whose frame is open, new or not, keeps frame numbers, tables and finality exact. What
  // it adds is the event under its true frame number with a table that is exact from the frame then first
  // open; finality never recedes.
  lemma InsertionIsExact(s: CoreState, h: EventHash, peers: set<PeerId>, digest: EventHash -> nat)
    requires CoreExact(s, peers) && Fits(h, s.store.event.Keys, peers)
    requires s.FirstNotFinalised() <= FrameOf(h, |peers|)
    ensures KnowsParents(s.store, EventAt(h, 0)) && DecisionFor(s, EventAt(h, 0)).0 == FrameOf(h, |peers|)
    ensures var t := Inserted(s, EventAt(h, 0), digest);
            && CoreExact(t, peers)
            && t.store.event == s.store.event[h := EventAt(h, FrameOf(h, |peers|))]
            && TableTrue(t.store.flagTable[h], h, s.FirstNotFinalised(), |peers|)
            && t.store.flagTable == s.store.flagTable[h := t.store.flagTable[h]]
            && t.FirstNotFinalised() >= s.FirstNotFinalised()
            && t == s.(store := t.store, lastFinalisedFrame := t.lastFinalisedFrame)
  {
    hide FrameOf, IsRoot, TableTrue, RecordsTrue, FramesFinalised;
    var from, n, e := s.FirstNotFinalised(), |peers|, EventAt(h, 0);
    ParentsAreKnown(s, h, peers);
    var hs, vis := s.store.event.Keys, TableFor(s, e);
    assert e.Hashed() == e;
    var upto := InsertionShape(s, e, digest);
    hide Inserted, DecisionFor, TableFor;
    var t := Inserted(s, e, digest);
    FiledIsExact(s.store, t.store, h, vis, from, peers);
    BoundMovesToUpto(t.store.event, hs, h, vis, from, peers);
    TablesTrueLater(t.store.flagTable, from, t.FirstNotFinalised(), n);
    RecordsStayTrue(s.store.frame, h, from, upto, n, digest);
  }

  // The parts of a store but for finality and frames.
  lemma FiledIsExact(st: StoreState, st': StoreState, h: EventHash, vis: FlagTable, from: FrameNumber,
                     peers: set<PeerId>)
    requires StoreExact(st, from, peers) && Fits(h, st.event.Keys, peers) && h.HashOf?
    requires TableTrue(vis, h, from, |peers|) && from <= FrameOf(h, |peers|)
    requires st'.event == st.event[h := EventAt(h, FrameOf(h, |peers|))]
    requires st'.eventOf == st.eventOf[(Creator(h), HeightOf(h)) := EventAt(h, FrameOf(h, |peers|))]
    requires st'.flagTable == st.flagTable[h := vis]
    ensures st'.event.Keys == st.event.Keys + {h} == st'.flagTable.Keys
    ensures GraphTrue(st'.event.Keys, peers) && Closed(st'.event.Keys, peers)
    ensures EventsTrue(st'.event, |peers|) && IndexTrue(st'.event, st'.eventOf)
    ensures TablesTrue(st'.flagTable, from, |peers|) && TablesOwn(st'.flagTable, |peers|)
  {
    hide Fits, IndexTrue, TableTrue;
    var n := |peers|;
    GraphStaysTrue(st.event.Keys, h, peers);
    EventsStayTrue(st.event, h, n);
    RefiledStaysSound(st.event, st.eventOf, h, FrameOf(h, n));
    TablesStayTrue(st.flagTable, h, vis, from, n);
    TablesStayOwn(st.flagTable, h, vis, from, n);
    assert st'.event.Keys == st.event.Keys + {h};
  }

  lemma TrueIsExact(s: CoreState, peers: set<PeerId>, digest: EventHash -> nat)
    requires CoreTrue(s, peers, digest)
    ensures CoreExact(s, peers)
    ensures FramesTrue(s.store.frame, s.store.event.Keys, |peers|)
    ensures FramesSorted(s.store.frame, s.FirstNotFinalised(), digest)
  {
  }

  // A new event always belongs to an open frame. Inserting it keeps a core's whole invariant,
  // and what was final stays as it was.
  lemma InsertionRefines(s: CoreState, h: EventHash, peers: set<PeerId>, digest: EventHash -> nat)
    requires CoreTrue(s, peers, digest) && Extends(h, s.store.event.Keys, peers)
    ensures KnowsParents(s.store, EventAt(h, 0))
    ensures var t := Inserted(s, EventAt(h, 0), digest);
            && CoreTrue(t, peers, digest)
            && t.store.event == s.store.event[h := EventAt(h, FrameOf(h, |peers|))]
            && TableTrue(t.store.flagTable[h], h, s.FirstNotFinalised(), |peers|)
            && t.store.flagTable == s.store.flagTable[h := t.store.flagTable[h]]
            && t.FirstNotFinalised() >= s.FirstNotFinalised()
            && (forall f: FrameNumber :: f < s.FirstNotFinalised() ==>
                  FrameIn(t.store.frame, f) == FrameIn(s.store.frame, f))
            && t == s.(store := t.store, lastFinalisedFrame := t.lastFinalisedFrame)
  {
    hide TableTrue, FramesTrue, FramesSorted, Fits, KnowsParents, Inserted, DecisionFor, TableFor, FrameOf;
    hide StoreExact, CoreExact, FramesFinalised, SeenUpto;
    TrueIsExact(s, peers, digest);
    NewEventIsOpen(s, h, peers);
    var from, n, e, hs := s.FirstNotFinalised(), |peers|, EventAt(h, 0), s.store.event.Keys;
    InsertionIsExact(s, h, peers, digest);
    assert e.Hashed() == e;
    var upto := InsertionShape(s, e, digest);
    FramesInsertedAreTrue(s.store.frame, hs, h, from, upto, n, digest);
    var t := Inserted(s, e, digest);
    assert t.store.event.Keys == hs + {h};
    ExactIsTrue(t, peers, digest);
  }

  lemma ExactIsTrue(s: CoreState, peers: set<PeerId>, digest: EventHash -> nat)
    requires CoreExact(s, peers) && FramesTrue(s.store.frame, s.store.event.Keys, |peers|)
    requires FramesSorted(s.store.frame, s.FirstNotFinalised(), digest)
    ensures CoreTrue(s, peers, digest)
  {
  }

  lemma NewEventIsOpen(s: CoreState, h: EventHash, peers: set<PeerId>)
    requires CoreExact(s, peers) && Extends(h, s.store.event.Keys, peers)
    ensures h.HashOf? && Fits(h, s.store.event.Keys, peers) && h !in s.store.event
    ensures s.FirstNotFinalised() <= FrameOf(SelfParent(h), |peers|) <= FrameOf(h, |peers|)
  {
    NewEventsAreAboveBound(h, s.store.event.Keys, peers, s.FirstNotFinalised());
    GraphStaysTrue(s.store.event.Keys, h, peers);
  }

  // The frames of an insertion: the record appended, the range sorted.
  lemma FramesInsertedAreTrue(frame: FrameMap, hs: set<EventHash>, h: EventHash, from: FrameNumber, upto: FrameNumber,
                              n: nat, digest: EventHash -> nat)
    requires FramesTrue(frame, hs, n) && FramesSorted(frame, from, digest)
    requires h !in hs && h.HashOf? && from <= FrameOf(h, n)
    ensures var t := FramesFinalised(Appended(frame, EventAt(h, FrameOf(h, n))), from, upto, digest);
            && FramesTrue(t, hs + {h}, n) && FramesSorted(t, if from < upto then upto else from, digest)
            && forall f: FrameNumber :: f < from ==> FrameIn(t, f) == FrameIn(frame, f)
  {
    hide FramesTrue, FramesSorted, FramesFinalised;
    var more := Appended(frame, EventAt(h, FrameOf(h, n)));
    FramesStayTrue(frame, hs, h, from, n, digest);
    FinalisedFramesAreTrue(more, hs + {h}, from, upto, n, digest);
    FinalisingSortsTheRange(more, from, upto, digest);
  }
}
