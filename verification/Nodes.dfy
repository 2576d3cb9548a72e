/** One node of a cluster over a shared event graph `dag`: its invariant, what the procedures keep of it,
    and why any two nodes finalise the same records. */
module Nodes {
  import opened Events
  import opened Sorting
  import opened Frames
  import opened Peers
  import opened Stores
  import opened Dag
  import opened Cores
  import opened FlagTables
  import opened Refinement
  import opened Soundness
  import opened Freshness

  // `k` is the height of the last event of `c` in `hs`.
  ghost predicate IsHead(c: PeerId, k: Height, hs: set<EventHash>) {
    && (exists h :: h in hs && Creator(h) == c && HeightOf(h) == k)
    && forall h :: h in hs && Creator(h) == c ==> HeightOf(h) <= k
  }

  // The peer list names the last known event of every peer.
  ghost predicate HeadsTrue(list: seq<Peer>, hs: set<EventHash>) {
    forall i {:trigger list[i]} :: 0 <= i < |list| ==> IsHead(list[i].id, list[i].height, hs)
  }

  ghost predicate ClockTrue(time: LamportTime, hs: set<EventHash>) {
    forall h :: h in hs ==> Lamport(h) <= time
  }

  // Nobody knows more of a node's own events than the node itself.
  ghost predicate OwnsItsEvents(me: PeerId, hs: set<EventHash>, dag: set<EventHash>) {
    forall h :: h in dag && Creator(h) == me ==> h in hs
  }

  // The offset of the contact schedule never leads back to the node itself.
  ghost predicate ScheduleTrue(s: PeersState) {
    s.n >= 2 ==> 1 <= s.r < s.n
  }

  // What holds of a node whatever it was told, true frames or not.
  ghost predicate NodeSound(s: CoreState, me: PeerId, dag: set<EventHash>, peers: set<PeerId>) {
    && peers != {}
    && s.peers.Valid() && IdsOf(s.peers.peers) == peers
    && s.peers.creator == me && ScheduleTrue(s.peers)
    && StoreSound(s.store, peers) && FramesSound(s)
    && s.store.event.Keys <= dag
    && HeadsTrue(s.peers.peers, s.store.event.Keys)
    && ClockTrue(s.lamportTime, s.store.event.Keys)
    && OwnsItsEvents(me, s.store.event.Keys, dag)
  }

  // Start-up

  ghost predicate FreshPeers(list: seq<Peer>) {
    forall p :: p in list ==> p.height == 0 && p.lamportTime == 0
  }

  ghost function LeavesOf(peers: set<PeerId>): set<EventHash> { set p | p in peers :: Leaf(p) }

  lemma LeavesAreAGraph(peers: set<PeerId>)
    ensures GraphTrue(LeavesOf(peers), peers)
    ensures forall h :: h in LeavesOf(peers) ==> Ancestors(h) == {h} && Lamport(h) == 0 && HeightOf(h) == 0
    ensures forall h, n :: h in LeavesOf(peers) ==> FrameOf(h, n) == 0 && IsRoot(h, n)
  {
    var hs := LeavesOf(peers);
    forall h | h in hs ensures WellPlaced(h, hs, peers) {
    }
  }

  lemma LeavesCoverNothing(peers: set<PeerId>)
    requires peers != {}
    ensures IsFinalityBound(0, LeavesOf(peers), peers)
  {
    LeavesAreAGraph(peers);
    forall w, g: FrameNumber | w in LeavesOf(peers) && Covers(w, g, peers) ensures g <= 0 {
      var c :| c in peers;
      assert SeesRootFrom(w, c, g, |peers|);
    }
  }

  // A store of nothing but the leaves `hs`.
  ghost predicate LeafStoreTrue(st: StoreState, hs: set<EventHash>, n: nat) {
    && st.event.Keys == hs == st.flagTable.Keys
    && EventsTrue(st.event, n) && IndexTrue(st.event, st.eventOf)
    && TablesTrue(st.flagTable, 0, n) && FramesTrue(st.frame, hs, n)
  }

  lemma LeafIsStored(st: StoreState, hs: set<EventHash>, p: Peer, n: nat, digest: EventHash -> nat)
    requires LeafStoreTrue(st, hs, n) && Leaf(p.id) !in hs && p.height == 0 && p.lamportTime == 0
    requires ForkFree(hs + {Leaf(p.id)})
    ensures LeafStoreTrue(WithLeaf(st, p), hs + {Leaf(p.id)}, n)
  {
    var h := Leaf(p.id);
    assert LeafOf(p) == EventAt(h, 0);
    assert Ancestors(h) == {h} && FrameOf(h, n) == 0 && IsRoot(h, n);
    EventsStayTrue(st.event, h, n);
    RefiledStaysSound(st.event, st.eventOf, h, 0);
    TablesStayTrue(st.flagTable, h, map[h := 0], 0, n);
    FramesStayTrue(st.frame, hs, h, 0, n, digest);
  }

  lemma {:induction false} LeavesAreStored(list: seq<Peer>, n: nat, digest: EventHash -> nat)
    requires DistinctIds(list) && FreshPeers(list)
    ensures LeafStoreTrue(WithLeaves(EmptyStore(), list), LeavesOf(IdsOf(list)), n)
  {
    if list == [] {
      forall f: FrameNumber ensures FrameTrue(FrameIn(EmptyStore().frame, f), f, {}, n) {
      }
      assert LeavesOf(IdsOf(list)) == {};
    } else {
      var front, p := list[..|list| - 1], list[|list| - 1];
      LeavesAreStored(front, n, digest);
      assert list == front + [p];
      assert IdsOf(list) == IdsOf(front) + {p.id};
      assert LeavesOf(IdsOf(list)) == LeavesOf(IdsOf(front)) + {Leaf(p.id)};
      LeavesAreAGraph(IdsOf(list));
      LeafIsStored(WithLeaves(EmptyStore(), front), LeavesOf(IdsOf(front)), p, n, digest);
    }
  }

  // What a booted core consists of.
  lemma BootedParts(list: PeersState, me: PeerId)
    requires DistinctIds(list.peers) && FreshPeers(list.peers) && list.n == |list.peers| && list.r == list.n / 2
    requires me in IdsOf(list.peers)
    ensures var s := Booted(list, me);
            && s.store == WithLeaves(EmptyStore(), s.peers.peers)
            && s.peers.Valid() && IdsOf(s.peers.peers) == IdsOf(list.peers) && FreshPeers(s.peers.peers)
            && s.peers.creator == me && ScheduleTrue(s.peers)
            && s.txPool == [] && s.lamportTime == 0 && s.lastFinalisedFrame.None?
  {
    hide WithLeaves, InNameOrder;
    ResortedIsValid(list.(creator := me));
  }

  // Every node starts in its invariant, over the graph of the leaves.
  lemma BootedNodeIsTrue(list: PeersState, me: PeerId, digest: EventHash -> nat)
    requires DistinctIds(list.peers) && FreshPeers(list.peers) && list.n == |list.peers| && list.r == list.n / 2
    requires me in IdsOf(list.peers)
    ensures NodeSound(Booted(list, me), me, LeavesOf(IdsOf(list.peers)), IdsOf(list.peers))
    ensures CoreTrue(Booted(list, me), IdsOf(list.peers), digest)
    ensures Booted(list, me).store.event.Keys == LeavesOf(IdsOf(list.peers))
  {
    hide StoreTrue, StoreSound, FramesSound, WithLeaves, Booted, IdsOf, FreshPeers, HeadsTrue, LeavesOf;
    var peers, s := IdsOf(list.peers), Booted(list, me);
    BootedParts(list, me);
    LeafStoreIsTrue(s.peers.peers, peers, digest);
    TrueIsSound(s, peers, digest);
    LeafFramesAreSound(s, peers, digest);
    LeavesAreAGraph(peers);
    LeavesAreHeads(s.peers.peers);
  }

  lemma LeafFramesAreSound(s: CoreState, peers: set<PeerId>, digest: EventHash -> nat)
    requires StoreTrue(s.store, 0, peers, digest) && s.store.event.Keys == LeavesOf(peers) && s.FirstNotFinalised() == 0
    ensures FramesSound(s)
  {
    var st, n := s.store, |peers|;
    LeavesAreAGraph(peers);
    hide FrameOf, Ancestors, IsRoot, LeavesOf, TablesOwn, RecordsTrue, IsFinalityBound, GraphTrue, IndexTrue;
    forall f: FrameNumber ensures FrameTrue(FrameIn(st.frame, f), f, st.event.Keys, n) {
    }
    forall h | h in st.flagTable ensures TableRecorded(st.flagTable[h], st.frame) {
      assert TableTrue(st.flagTable[h], h, 0, n);
    }
    forall f: FrameNumber ensures FrameBacked(st.frame, f, |s.peers.peers|) {
      if FrameIn(st.frame, f) != [] { assert FrameIn(st.frame, f)[0] in FrameIn(st.frame, f); }
    }
  }

  lemma LeavesAreHeads(list: seq<Peer>)
    requires FreshPeers(list)
    ensures HeadsTrue(list, LeavesOf(IdsOf(list)))
  {
    forall i | 0 <= i < |list| ensures IsHead(list[i].id, list[i].height, LeavesOf(IdsOf(list))) {
      assert list[i] in list;
      assert Leaf(list[i].id) in LeavesOf(IdsOf(list));
    }
  }

  lemma LeafStoreIsTrue(list: seq<Peer>, peers: set<PeerId>, digest: EventHash -> nat)
    requires DistinctIds(list) && FreshPeers(list) && IdsOf(list) == peers != {}
    ensures StoreTrue(WithLeaves(EmptyStore(), list), 0, peers, digest)
    ensures WithLeaves(EmptyStore(), list).event.Keys == LeavesOf(peers)
  {
    LeavesAreStored(list, |peers|, digest);
    LeavesAreAGraph(peers);
    LeavesCoverNothing(peers);
    ExactFromTheStart(WithLeaves(EmptyStore(), list), LeavesOf(peers), |peers|);
  }

  lemma ExactFromTheStart(st: StoreState, hs: set<EventHash>, n: nat)
    requires TablesTrue(st.flagTable, 0, n) && FramesTrue(st.frame, hs, n)
    ensures TablesOwn(st.flagTable, n) && RecordsTrue(st.frame, n)
  {
    hide FrameOf, IsRoot, Ancestors;
    forall h | h in st.flagTable ensures TableTrue(st.flagTable[h], h, FrameOf(h, n), n) {
      assert TableTrue(st.flagTable[h], h, 0, n);
    }
    forall f: FrameNumber, rec | rec in FrameIn(st.frame, f) ensures FrameOf(rec.hash, n) == f {
      assert FrameTrue(FrameIn(st.frame, f), f, hs, n);
    }
  }

  // Learning of an event

  // A node that knows its parents can insert any event of the graph that it does not have yet.
  lemma MissingEventExtends(hs: set<EventHash>, dag: set<EventHash>, peers: set<PeerId>, h: EventHash)
    requires Closed(hs, peers) && Closed(dag, peers) && ForkFree(dag) && hs <= dag
    requires h in dag && h !in hs && HeightOf(h) > 0 && SelfParent(h) in hs && OtherParent(h) in hs
    ensures Extends(h, hs, peers)
  {
    forall x | x in hs + {h} ensures WellPlaced(x, hs + {h}, peers) {
      assert WellPlaced(x, dag, peers);
      if x != h { assert WellPlaced(x, hs, peers); }
    }
  }

  // The event then is the next one of its creator's chain.
  lemma MissingEventIsNext(hs: set<EventHash>, peers: set<PeerId>, h: EventHash, k: Height)
    requires Closed(hs, peers) && Extends(h, hs, peers) && IsHead(Creator(h), k, hs)
    ensures HeightOf(h) == k + 1 && IsHead(Creator(h), k + 1, hs + {h})
  {
    FitsHasParents(h, hs, peers);
    var top :| top in hs && Creator(top) == Creator(h) && HeightOf(top) == k;
    if HeightOf(top) >= HeightOf(h) {
      var twin := ChainIsContiguous(hs, peers, top, HeightOf(h));
      assert Twins(twin, h);
      assert false;
    }
    assert h in hs + {h};
  }

  // An event that is stored already leaves the peer list naming the last events.
  lemma HeadsStayAsTheyAre(s: PeersState, hs: set<EventHash>, h: EventHash, time: LamportTime)
    requires DistinctIds(s.peers) && HeadsTrue(s.peers, hs) && s.Has(Creator(h)) && h in hs
    ensures HeadsTrue(s.Updated(Creator(h), time, HeightOf(h)).peers, hs)
  {
    var at := FindIndex(s.peers, Creator(h));
    assert IsHead(s.peers[at].id, s.peers[at].height, hs);
    var list := s.Updated(Creator(h), time, HeightOf(h)).peers;
    forall i | 0 <= i < |list| ensures IsHead(list[i].id, list[i].height, hs) {
      assert IsHead(s.peers[i].id, s.peers[i].height, hs);
      assert list[i].id == s.peers[i].id && list[i].height == s.peers[i].height;
    }
  }

  lemma HeadsStayTrue(s: PeersState, hs: set<EventHash>, peers: set<PeerId>, h: EventHash, time: LamportTime)
    requires DistinctIds(s.peers) && HeadsTrue(s.peers, hs) && s.Has(Creator(h))
    requires Closed(hs, peers) && Extends(h, hs, peers)
    ensures HeadsTrue(s.Updated(Creator(h), time, HeightOf(h)).peers, hs + {h})
    ensures s.Find(Creator(h)).height + 1 == HeightOf(h)
  {
    var c, at := Creator(h), FindIndex(s.peers, Creator(h));
    assert s.peers[at].id == c;
    MissingEventIsNext(hs, peers, h, s.peers[at].height);
    var list := s.Updated(c, time, HeightOf(h)).peers;
    forall i | 0 <= i < |list| ensures IsHead(list[i].id, list[i].height, hs + {h}) {
      if i != at {
        assert list[i] == s.peers[i] && s.peers[i].id != c;
        OtherHeadStays(s.peers[i].id, s.peers[i].height, hs, h);
      }
    }
  }

  lemma OtherHeadStays(c: PeerId, k: Height, hs: set<EventHash>, h: EventHash)
    requires IsHead(c, k, hs) && Creator(h) != c
    ensures IsHead(c, k, hs + {h})
  {
    var top :| top in hs && Creator(top) == c && HeightOf(top) == k;
    assert top in hs + {h};
  }

  lemma UpdatedStaysValid(s: PeersState, id: PeerId, time: LamportTime, height: Height)
    requires s.Valid() && s.Has(id)
    ensures s.Updated(id, time, height).Valid()
    ensures IdsOf(s.Updated(id, time, height).peers) == IdsOf(s.peers)
  {
    var t := s.Updated(id, time, height);
    assert forall i :: 0 <= i < |s.peers| ==> t.peers[i].id == s.peers[i].id;
    IdsByPosition(s.peers, t.peers);
  }

  lemma IdsByPosition(a: seq<Peer>, b: seq<Peer>)
    requires |a| == |b| && forall i :: 0 <= i < |a| ==> a[i].id == b[i].id
    ensures IdsOf(a) == IdsOf(b)
  {
    forall id ensures id in IdsOf(a) <==> id in IdsOf(b) {
      if id in IdsOf(a) {
        var i :| 0 <= i < |a| && a[i].id == id;
        assert b[i] in b;
      }
      if id in IdsOf(b) {
        var i :| 0 <= i < |b| && b[i].id == id;
        assert a[i] in a;
      }
    }
  }

  lemma PeerIsListed(list: seq<Peer>, id: PeerId)
    requires id in IdsOf(list)
    ensures FindIndex(list, id) < |list|
  {
    var p :| p in list && p.id == id;
    var i :| 0 <= i < |list| && list[i] == p;
    assert FindIndex(list, id) <= i;
  }

  // Finality

  // The events of `s` keep their tables.
  ghost predicate TablesKept(s: map<EventHash, FlagTable>, t: map<EventHash, FlagTable>) {
    forall h {:trigger t[h]} {:trigger s[h]} :: h in s ==> h in t && t[h] == s[h]
  }

  // `t` has finalised at least as much as `s`, and all of that alike.
  ghost predicate FinalityGrows(s: CoreState, t: CoreState) {
    && s.FirstNotFinalised() <= t.FirstNotFinalised()
    && (forall f: FrameNumber {:trigger FrameIn(s.store.frame, f)} {:trigger FrameIn(t.store.frame, f)} ::
          f < s.FirstNotFinalised() ==> FrameIn(t.store.frame, f) == FrameIn(s.store.frame, f))
    && TablesKept(s.store.flagTable, t.store.flagTable)
  }

  // The records of the frames below `upto`, frame after frame.
  ghost function RecordsBelow(frame: FrameMap, upto: FrameNumber): seq<FrameRecord> {
    if upto == 0 then [] else RecordsBelow(frame, upto - 1) + FrameIn(frame, upto - 1)
  }

  // Everything a core has finalised, in its final order.
  ghost function FinalSequence(s: CoreState): seq<FrameRecord> {
    RecordsBelow(s.store.frame, s.FirstNotFinalised())
  }

  lemma {:induction false} SameFramesSameRecords(a: FrameMap, b: FrameMap, upto: FrameNumber)
    requires forall f: FrameNumber :: f < upto ==> FrameIn(a, f) == FrameIn(b, f)
    ensures RecordsBelow(a, upto) == RecordsBelow(b, upto)
  {
    if upto == 0 {
    } else {
      SameFramesSameRecords(a, b, upto - 1);
      assert FrameIn(a, upto - 1) == FrameIn(b, upto - 1);
    }
  }

  lemma {:induction false} RecordsOnlyExtend(frame: FrameMap, low: FrameNumber, high: FrameNumber)
    requires low <= high
    ensures RecordsBelow(frame, low) <= RecordsBelow(frame, high)
    decreases high
  {
    if low < high { RecordsOnlyExtend(frame, low, high - 1); }
  }

  lemma FinalSequenceOnlyExtends(s: CoreState, t: CoreState)
    requires FinalityGrows(s, t)
    ensures FinalSequence(s) <= FinalSequence(t)
  {
    SameFramesSameRecords(s.store.frame, t.store.frame, s.FirstNotFinalised());
    RecordsOnlyExtend(t.store.frame, s.FirstNotFinalised(), t.FirstNotFinalised());
  }

  // A frame that both nodes have finalised holds the same records in the same order on both.
  lemma FinalFramesAgree(s: CoreState, t: CoreState, dag: set<EventHash>, peers: set<PeerId>,
                         digest: EventHash -> nat, f: FrameNumber)
    requires CoreTrue(s, peers, digest) && CoreTrue(t, peers, digest) && Injective(digest, dag)
    requires Closed(dag, peers) && ForkFree(dag) && s.store.event.Keys <= dag && t.store.event.Keys <= dag
    requires f < s.FirstNotFinalised() && f < t.FirstNotFinalised()
    ensures FrameIn(s.store.frame, f) == FrameIn(t.store.frame, f)
  {
    var n, hs, ht := |peers|, s.store.event.Keys, t.store.event.Keys;
    var a, b := FrameIn(s.store.frame, f), FrameIn(t.store.frame, f);
    assert FrameTrue(a, f, hs, n) && FrameTrue(b, f, ht, n);
    FinalFrameIsComplete(hs, dag, peers, s.FirstNotFinalised(), a, f);
    FinalFrameIsComplete(ht, dag, peers, t.FirstNotFinalised(), b, f);
    RecordOrderIsStrict(digest, dag, a);
    SortedFormIsUnique(a, b, RecordOrder(digest));
  }

  // A finalised frame has a record for every event of that frame in the whole graph.
  lemma FinalFrameIsComplete(hs: set<EventHash>, dag: set<EventHash>, peers: set<PeerId>, bound: FrameNumber,
                             records: seq<FrameRecord>, f: FrameNumber)
    requires Closed(hs, peers) && Closed(dag, peers) && ForkFree(dag) && hs <= dag && IsFinalityBound(bound, hs, peers)
    requires FrameTrue(records, f, hs, |peers|) && f < bound
    ensures FrameTrue(records, f, dag, |peers|)
  {
    forall rec
      ensures rec in records <==> rec.hash in dag && rec == RecordOf(rec.hash) && FrameOf(rec.hash, |peers|) == f
    {
      if rec.hash in dag && FrameOf(rec.hash, |peers|) == f {
        CoveredFramesAreComplete(hs, dag, peers, bound, rec.hash);
      }
    }
  }

  // Agreement of two nodes: what one has finalised is a prefix of what the other has.
  lemma FinalSequencesAgree(s: CoreState, t: CoreState, dag: set<EventHash>, peers: set<PeerId>,
                            digest: EventHash -> nat)
    requires CoreTrue(s, peers, digest) && CoreTrue(t, peers, digest) && Injective(digest, dag)
    requires Closed(dag, peers) && ForkFree(dag) && s.store.event.Keys <= dag && t.store.event.Keys <= dag
    requires s.FirstNotFinalised() <= t.FirstNotFinalised()
    ensures FinalSequence(s) <= FinalSequence(t)
  {
    forall f: FrameNumber | f < s.FirstNotFinalised() ensures FrameIn(s.store.frame, f) == FrameIn(t.store.frame, f) {
      FinalFramesAgree(s, t, dag, peers, digest, f);
    }
    SameFramesSameRecords(s.store.frame, t.store.frame, s.FirstNotFinalised());
    RecordsOnlyExtend(t.store.frame, s.FirstNotFinalised(), t.FirstNotFinalised());
  }

  // A frame is final exactly when some stored event sees, from every peer, an event of a later frame.
  lemma FinalityInFull(s: CoreState, peers: set<PeerId>, f: FrameNumber)
    requires CoreExact(s, peers)
    ensures f < s.FirstNotFinalised() <==> exists w :: w in s.store.event && Reaches(w, f + 1, peers)
  {
    hide FrameOf, Reaches, TablesTrue, TablesOwn, RecordsTrue, EventsTrue, IndexTrue;
    var hs, bound := s.store.event.Keys, s.FirstNotFinalised();
    assert GraphTrue(hs, peers) && IsFinalityBound(bound, hs, peers);
    if f < bound {
      var w :| w in hs && Covers(w, bound, peers);
      CoversLower(w, f + 1, bound, peers);
      CoversIsReaching(w, f + 1, hs, peers);
    }
    if w :| w in s.store.event && Reaches(w, f + 1, peers) {
      CoversIsReaching(w, f + 1, hs, peers);
    }
  }

  lemma CoversLower(w: EventHash, f: FrameNumber, g: FrameNumber, peers: set<PeerId>)
    requires Covers(w, g, peers) && f <= g
    ensures Covers(w, f, peers)
  {
    hide FrameOf, IsRoot;
    forall c | c in peers ensures SeesRootFrom(w, c, f, |peers|) {
      assert SeesRootFrom(w, c, g, |peers|);
    }
  }

  // What a node has finalised depends on nothing but the set of events it knows: the more it knows the
  // more it has finalised, and nodes with the same events have finalised the same sequence.
  lemma FinalityFollowsKnowledge(s: CoreState, t: CoreState, dag: set<EventHash>, peers: set<PeerId>,
                                 digest: EventHash -> nat)
    requires CoreTrue(s, peers, digest) && CoreTrue(t, peers, digest) && Injective(digest, dag)
    requires Closed(dag, peers) && ForkFree(dag) && t.store.event.Keys <= dag
    requires s.store.event.Keys <= t.store.event.Keys
    ensures FinalSequence(s) <= FinalSequence(t)
    ensures s.store.event.Keys == t.store.event.Keys ==> FinalSequence(s) == FinalSequence(t)
  {
    var hs, ht, f, g := s.store.event.Keys, t.store.event.Keys, s.FirstNotFinalised(), t.FirstNotFinalised();
    BoundGrowsWithKnowledge(hs, ht, f, g, peers);
    FinalSequencesAgree(s, t, dag, peers, digest);
    if s.store.event.Keys == t.store.event.Keys {
      BoundGrowsWithKnowledge(ht, hs, g, f, peers);
      FinalSequencesAgree(t, s, dag, peers, digest);
    }
  }

  lemma BoundGrowsWithKnowledge(hs: set<EventHash>, more: set<EventHash>, f: FrameNumber, g: FrameNumber,
                                peers: set<PeerId>)
    requires IsFinalityBound(f, hs, peers) && IsFinalityBound(g, more, peers) && hs <= more
    ensures f <= g
  {
    if f > 0 {
      var w :| w in hs && Covers(w, f, peers);
      assert w in more;
    }
  }

  // The final order

  // Earlier frame, or same frame and not after in record order.
  ghost predicate InFinalOrder(a: FrameRecord, b: FrameRecord, n: nat, digest: EventHash -> nat) {
    FrameOf(a.hash, n) < FrameOf(b.hash, n) || (FrameOf(a.hash, n) == FrameOf(b.hash, n) && RecordOrder(digest)(a, b))
  }

  lemma {:induction false} RecordsAreOrdered(frame: FrameMap, hs: set<EventHash>, upto: FrameNumber, n: nat,
                                             digest: EventHash -> nat)
    requires FramesTrue(frame, hs, n) && FramesSorted(frame, upto, digest)
    ensures forall i :: 0 <= i < |RecordsBelow(frame, upto)| ==>
              var rec := RecordsBelow(frame, upto)[i];
              rec.hash in hs && rec == RecordOf(rec.hash) && FrameOf(rec.hash, n) < upto
    ensures forall i, j :: 0 <= i < j < |RecordsBelow(frame, upto)| ==>
              InFinalOrder(RecordsBelow(frame, upto)[i], RecordsBelow(frame, upto)[j], n, digest)
  {
    if upto == 0 {
    } else {
      RecordsAreOrdered(frame, hs, upto - 1, n, digest);
      var front, last, all := RecordsBelow(frame, upto - 1), FrameIn(frame, upto - 1), RecordsBelow(frame, upto);
      assert FrameTrue(last, upto - 1, hs, n) && Sorted(last, RecordOrder(digest));
      assert all == front + last;
      assert forall i :: 0 <= i < |last| ==> last[i] in last;
      forall i, j | 0 <= i < j < |all| ensures InFinalOrder(all[i], all[j], n, digest) {
        if i >= |front| { assert RecordOrder(digest)(last[i - |front|], last[j - |front|]); }
      }
    }
  }

  // The final order in full: by frame, then by Lamport time, then by the number of the hash, which grows.
  lemma FinalOrderInFull(s: CoreState, peers: set<PeerId>, digest: EventHash -> nat, i: nat, j: nat)
    requires CoreTrue(s, peers, digest) && i < j < |FinalSequence(s)|
    ensures var a, b, n := FinalSequence(s)[i].hash, FinalSequence(s)[j].hash, |peers|;
            && FrameOf(a, n) <= FrameOf(b, n)
            && (FrameOf(a, n) == FrameOf(b, n) ==> Lamport(a) <= Lamport(b))
            && (FrameOf(a, n) == FrameOf(b, n) && Lamport(a) == Lamport(b) ==> digest(a) <= digest(b))
            && (FrameOf(a, n) == FrameOf(b, n) && Lamport(a) == Lamport(b) && Injective(digest, s.store.event.Keys) ==>
                  digest(a) < digest(b))
  {
    hide FrameOf, CoreExact, StoreExact, FramesTrue, FramesSorted;
    RecordsAreOrdered(s.store.frame, s.store.event.Keys, s.FirstNotFinalised(), |peers|, digest);
    FinalSequenceIsDistinct(s, peers, digest);
    var a, b := FinalSequence(s)[i], FinalSequence(s)[j];
    assert InFinalOrder(a, b, |peers|, digest) && a != b;
  }

  // The final order is a linear extension of causality: an ancestor comes first.
  lemma FinalOrderRespectsCausality(s: CoreState, peers: set<PeerId>, digest: EventHash -> nat, i: nat, j: nat)
    requires CoreTrue(s, peers, digest)
    requires i < |FinalSequence(s)| && j < |FinalSequence(s)|
    requires FinalSequence(s)[i].hash in Ancestors(FinalSequence(s)[j].hash)
    requires FinalSequence(s)[i].hash != FinalSequence(s)[j].hash
    ensures i < j
  {
    hide CoreExact, StoreExact, FramesTrue, FramesSorted, RecordOrder, InFinalOrder, FrameOf, Closed;
    var n, hs := |peers|, s.store.event.Keys;
    var a, b := FinalSequence(s)[i], FinalSequence(s)[j];
    RecordsAreOrdered(s.store.frame, hs, s.FirstNotFinalised(), n, digest);
    ExactHasBound(s, peers);
    AncestorIsEarlier(hs, peers, a, b, digest);
  }

  lemma ExactHasBound(s: CoreState, peers: set<PeerId>)
    requires CoreExact(s, peers)
    ensures Closed(s.store.event.Keys, peers) && IsFinalityBound(s.FirstNotFinalised(), s.store.event.Keys, peers)
  {
  }

  lemma AncestorIsEarlier(hs: set<EventHash>, peers: set<PeerId>, a: FrameRecord, b: FrameRecord,
                          digest: EventHash -> nat)
    requires Closed(hs, peers) && b.hash in hs && a == RecordOf(a.hash) && b == RecordOf(b.hash)
    requires a.hash in Ancestors(b.hash) && a.hash != b.hash
    ensures !InFinalOrder(b, a, |peers|, digest)
  {
    hide FrameOf;
    FrameMonotone(b.hash, a.hash, |peers|);
    LamportIncreases(hs, peers, b.hash, a.hash);
  }

  // The indexes of a store tell of the same events: by hash and by creator and height; one record for each
  // event, in the frame that the event names and in no other, and no record of anything else.
  lemma IndexesAgree(s: CoreState, peers: set<PeerId>, digest: EventHash -> nat)
    requires CoreTrue(s, peers, digest)
    ensures forall h :: h in s.store.event ==>
              var e := s.store.event[h];
              e.hash == h && (e.creator, e.height) in s.store.eventOf && s.store.eventOf[(e.creator, e.height)] == e
    ensures forall k :: k in s.store.eventOf ==>
              var e := s.store.eventOf[k];
              k == (e.creator, e.height) && e.hash in s.store.event && s.store.event[e.hash] == e
    ensures forall h, f: FrameNumber {:trigger s.store.event[h], FrameIn(s.store.frame, f)} :: h in s.store.event ==>
              multiset(FrameIn(s.store.frame, f))[RecordOf(h)] == if f == s.store.event[h].frameNumber then 1 else 0
    ensures forall f: FrameNumber, rec :: rec in FrameIn(s.store.frame, f) ==>
              rec.hash in s.store.event && rec.lamportTime == s.store.event[rec.hash].lamportTimestamp
  {
    var st, n := s.store, |peers|;
    forall h | h in st.event
      ensures st.event[h].hash == h && (Creator(h), HeightOf(h)) in st.eventOf
      ensures st.eventOf[(Creator(h), HeightOf(h))] == st.event[h]
    {
      assert FiledByHeight(h, st.event, st.eventOf);
    }
    forall k | k in st.eventOf ensures FiledByHash(k, st.event, st.eventOf) {
    }
    forall f: FrameNumber ensures FrameTrue(FrameIn(st.frame, f), f, st.event.Keys, n) {
    }
    forall h, f: FrameNumber | h in st.event
      ensures multiset(FrameIn(st.frame, f))[RecordOf(h)] == if f == st.event[h].frameNumber then 1 else 0
    {
      assert FrameTrue(FrameIn(st.frame, f), f, st.event.Keys, n);
      DistinctCounts(FrameIn(st.frame, f));
      assert RecordOf(h) in FrameIn(st.frame, f) <==> f == st.event[h].frameNumber;
    }
  }

  // Every frame below one that has records has those of a majority of peers.
  lemma {:induction false} FramesBelowHaveMajority(s: CoreState, f: FrameNumber, g: FrameNumber)
    requires FramesSound(s) && f < g && FrameIn(s.store.frame, g) != []
    ensures |CreatorsOf(FrameIn(s.store.frame, f))| >= RootMajority(|s.peers.peers|)
    decreases g
  {
    hide EventsRecorded, TablesRecorded, RecordsStored;
    assert FrameBacked(s.store.frame, g, |s.peers.peers|);
    if f == g - 1 {
    } else {
      assert CreatorsOf([]) == {};
      FramesBelowHaveMajority(s, f, g - 1);
    }
  }

  // Below the frame of any stored event no frame is empty.
  lemma FramesHaveNoGaps(s: CoreState, h: EventHash, f: FrameNumber)
    requires FramesSound(s) && h in s.store.event && f <= s.store.event[h].frameNumber
    ensures FrameIn(s.store.frame, f) != []
  {
    assert RecordOf(h) in FrameIn(s.store.frame, s.store.event[h].frameNumber);
    if f < s.store.event[h].frameNumber {
      FramesBelowHaveMajority(s, f, s.store.event[h].frameNumber);
      assert CreatorsOf([]) == {};
    }
  }

  // A finalised frame has records of a majority of peers.
  lemma FinalFramesHaveMajority(s: CoreState, f: FrameNumber)
    requires FramesSound(s) && f < s.FirstNotFinalised()
    ensures |CreatorsOf(FrameIn(s.store.frame, f))| >= RootMajority(|s.peers.peers|)
    ensures |FrameIn(s.store.frame, f)| >= RootMajority(|s.peers.peers|)
  {
    FramesBelowHaveMajority(s, f, s.FirstNotFinalised());
    FewCreators(FrameIn(s.store.frame, f));
  }

  // Nor is the first open one, once any is final.
  lemma FinalFramesAreNotEmpty(s: CoreState, f: FrameNumber)
    requires FramesSound(s) && s.FirstNotFinalised() > 0 && f <= s.FirstNotFinalised()
    ensures FrameIn(s.store.frame, f) != []
  {
    if f < s.FirstNotFinalised() { FinalFramesHaveMajority(s, f); }
  }

  // No later insertion reaches a finalised frame.
  lemma FinalFramesAreFrozen(s: CoreState, h: EventHash, peers: set<PeerId>, digest: EventHash -> nat)
    requires CoreTrue(s, peers, digest) && Extends(h, s.store.event.Keys, peers)
    ensures FrameOf(h, |peers|) >= s.FirstNotFinalised()
    ensures FinalSequence(s) <= FinalSequence(Inserted(s, EventAt(h, 0), digest))
  {
    hide Inserted, CoreExact, FramesTrue, FramesSorted, FinalSequence, TableTrue, FrameOf, KnowsParents;
    ExactHasBound(s, peers);
    NewEventsAreAboveBound(h, s.store.event.Keys, peers, s.FirstNotFinalised());
    InsertionRefines(s, h, peers, digest);
    FinalSequenceOnlyExtends(s, Inserted(s, EventAt(h, 0), digest));
  }

  // Twice in the final sequence

  // A true core has each event at most once in its final sequence.
  lemma FinalSequenceIsDistinct(s: CoreState, peers: set<PeerId>, digest: EventHash -> nat)
    requires CoreTrue(s, peers, digest)
    ensures Distinct(FinalSequence(s))
  {
    FramesBelowAreDistinct(s.store.frame, s.store.event.Keys, s.FirstNotFinalised(), |peers|);
  }

  lemma {:induction false} FramesBelowAreDistinct(frame: FrameMap, hs: set<EventHash>, upto: FrameNumber, n: nat)
    requires FramesTrue(frame, hs, n)
    ensures Distinct(RecordsBelow(frame, upto))
    ensures forall rec :: rec in RecordsBelow(frame, upto) ==> FrameOf(rec.hash, n) < upto
  {
    if upto == 0 {
    } else {
      FramesBelowAreDistinct(frame, hs, upto - 1, n);
      assert FrameTrue(FrameIn(frame, upto - 1), upto - 1, hs, n);
      var front, last, all := RecordsBelow(frame, upto - 1), FrameIn(frame, upto - 1), RecordsBelow(frame, upto);
      assert all == front + last;
      assert forall i :: 0 <= i < |front| ==> front[i] in front;
      assert forall i :: 0 <= i < |last| ==> last[i] in last;
    }
  }

  // An event recorded twice is twice in the final sequence as soon as its frame is final.
  lemma RepeatedInFinalSequence(s: CoreState, h: EventHash, n: nat)
    requires RecordedTwice(s.store.frame, h, n) && FrameOf(h, n) < s.FirstNotFinalised()
    ensures multiset(FinalSequence(s))[RecordOf(h)] >= 2
  {
    var f := FrameOf(h, n);
    var g: FrameNumber :| g <= f && RecordedAt(s.store.frame, h, f, g);
    CountsAddUp(s.store.frame, s.FirstNotFinalised(), g, f, RecordOf(h));
  }

  // How often a record occurs among those of the frames below `upto`.
  ghost function CountBelow(frame: FrameMap, upto: FrameNumber, rec: FrameRecord): nat {
    multiset(RecordsBelow(frame, upto))[rec]
  }

  ghost function CountIn(frame: FrameMap, f: FrameNumber, rec: FrameRecord): nat {
    multiset(FrameIn(frame, f))[rec]
  }

  lemma {:induction false} CountsAddUp(frame: FrameMap, upto: FrameNumber, g: FrameNumber, f: FrameNumber,
                                       rec: FrameRecord)
    requires g <= f < upto
    ensures CountBelow(frame, upto, rec) >= CountIn(frame, f, rec)
    ensures g < f ==> CountBelow(frame, upto, rec) >= CountIn(frame, f, rec) + CountIn(frame, g, rec)
    decreases upto
  {
    hide CountBelow, CountIn;
    LastFrameCounts(frame, upto, rec);
    if f < upto - 1 {
      CountsAddUp(frame, upto - 1, g, f, rec);
    } else if g < f {
      CountsAddUp(frame, upto - 1, g, g, rec);
    }
  }

  lemma LastFrameCounts(frame: FrameMap, upto: FrameNumber, rec: FrameRecord)
    requires upto > 0
    ensures CountBelow(frame, upto, rec) == CountBelow(frame, upto - 1, rec) + CountIn(frame, upto - 1, rec)
  {
    assert RecordsBelow(frame, upto) == RecordsBelow(frame, upto - 1) + FrameIn(frame, upto - 1);
  }

  // Some event is recorded twice and its frame is final.
  ghost predicate RepeatsFinally(s: CoreState, n: nat) {
    exists h {:trigger RecordedTwice(s.store.frame, h, n)} ::
      RecordedTwice(s.store.frame, h, n) && FrameOf(h, n) < s.FirstNotFinalised()
  }

  lemma RepeatsForGood(s: CoreState, t: CoreState, peers: set<PeerId>, digest: EventHash -> nat)
    requires RepeatsFinally(s, |peers|) && RecordsGrow(s, t)
    ensures RepeatsFinally(t, |peers|)
  {
    hide RecordedTwice, FrameOf, CoreTrue;
    var h :| RecordedTwice(s.store.frame, h, |peers|) && FrameOf(h, |peers|) < s.FirstNotFinalised();
    RepeatedForGood(s, t, h, peers, digest);
  }

  // A final sequence with a repetition and that of a true core are no longer comparable once the latter is
  // long enough to show the difference.
  lemma RepetitionBreaksAgreement(s: CoreState, t: CoreState, peers: set<PeerId>, digest: EventHash -> nat,
                                  rec: FrameRecord, k: nat)
    requires CoreTrue(s, peers, digest)
    requires k <= |FinalSequence(t)| && multiset(FinalSequence(t)[..k])[rec] >= 2 && |FinalSequence(s)| >= k
    ensures !Comparable(FinalSequence(s), FinalSequence(t))
  {
    FinalSequenceIsDistinct(s, peers, digest);
    var a, b := FinalSequence(s), FinalSequence(t);
    if Comparable(a, b) {
      assert a[..k] == b[..k];
      assert Distinct(a[..k]);
      assert rec in multiset(a[..k]);
      DistinctCounts(a[..k]);
      assert false;
    }
  }

  ghost predicate Comparable<T>(a: seq<T>, b: seq<T>) { a <= b || b <= a }
}
