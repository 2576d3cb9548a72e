/** From submission to consumer: what the final order and the stream make of the transactions handed to each
    node. */
module Ledger {
  import opened Events
  import opened Frames
  import opened Stores
  import opened Dag
  import opened Cores
  import opened Refinement
  import opened Soundness
  import opened Nodes
  import opened Stream
  import opened Steps
  import opened Cluster
  import opened Runs

  // The transactions of peer `p` among `items`, in order.
  function FromPeer(items: seq<Item>, p: PeerId): seq<Transaction> {
    if items == [] then []
    else
      var last := items[|items| - 1];
      FromPeer(items[..|items| - 1], p) + if last.1 == p then [last.0] else []
  }

  lemma {:induction false} FromPeerOfBoth(a: seq<Item>, b: seq<Item>, p: PeerId)
    ensures FromPeer(a + b, p) == FromPeer(a, p) + FromPeer(b, p)
  {
    if b == [] {
      assert a + b == a;
    } else {
      var front, last := b[..|b| - 1], b[|b| - 1];
      FromPeerOfBoth(a, front, p);
      assert (a + b)[..|a + b| - 1] == a + front && (a + b)[|a + b| - 1] == last;
    }
  }

  // The items of an event are its transactions, in its own order, under its creator's name.
  lemma {:induction false} ItemsOfEvent(items: seq<Item>, payload: seq<Transaction>, c: PeerId, p: PeerId)
    requires |items| == |payload| && forall t :: 0 <= t < |items| ==> items[t] == (payload[t], c)
    ensures FromPeer(items, p) == if c == p then payload else []
  {
    if items == [] {
    } else {
      var t := |items| - 1;
      ItemsOfEvent(items[..t], payload[..t], c, p);
      assert payload == payload[..t] + [payload[t]];
    }
  }

  lemma FromOneMore(records: seq<FrameRecord>, rec: FrameRecord, p: PeerId)
    ensures FromPeer(ItemsOf(records + [rec]), p)
         == FromPeer(ItemsOf(records), p) + if Creator(rec.hash) == p then Payload(rec.hash) else []
  {
    ItemsOfOneMore(records, rec);
    FromPeerOfBoth(ItemsOf(records), ItemsIn(rec.hash), p);
    ItemsOfEvent(ItemsIn(rec.hash), Payload(rec.hash), Creator(rec.hash), p);
  }

  // The final order takes each peer's chain as it is

  // Position `j` holds the last record of `p` before position `k`.
  ghost predicate IsLastOf(records: seq<FrameRecord>, k: nat, j: nat, p: PeerId)
    requires k <= |records|
  {
    && j < k && Creator(records[j].hash) == p
    && forall l {:trigger records[l]} :: j < l < k ==> Creator(records[l].hash) != p
  }

  ghost predicate NoneOf(records: seq<FrameRecord>, k: nat, p: PeerId)
    requires k <= |records|
  {
    forall l {:trigger records[l]} :: 0 <= l < k ==> Creator(records[l].hash) != p
  }

  lemma {:induction false} LastOf(records: seq<FrameRecord>, k: nat, p: PeerId) returns (j: nat)
    requires k <= |records| && !NoneOf(records, k, p)
    ensures IsLastOf(records, k, j, p)
  {
    if Creator(records[k - 1].hash) == p {
      j := k - 1;
    } else {
      j := LastOf(records, k - 1, p);
    }
  }

  lemma {:induction false} RecordIsBelow(frame: FrameMap, upto: FrameNumber, rec: FrameRecord, f: FrameNumber)
    requires f < upto && rec in FrameIn(frame, f)
    ensures rec in RecordsBelow(frame, upto)
  {
    if f < upto - 1 { RecordIsBelow(frame, upto - 1, rec, f); }
  }

  // A stored event of a final frame has its place in the final order.
  lemma PlaceOf(s: CoreState, peers: set<PeerId>, digest: EventHash -> nat, h: EventHash) returns (m: nat)
    requires CoreTrue(s, peers, digest) && h in s.store.event && FrameOf(h, |peers|) < s.FirstNotFinalised()
    ensures m < |FinalSequence(s)| && FinalSequence(s)[m].hash == h
  {
    hide FrameOf, CoreExact, StoreExact;
    var f := FrameOf(h, |peers|);
    assert FrameTrue(FrameIn(s.store.frame, f), f, s.store.event.Keys, |peers|);
    assert RecordOf(h) in FrameIn(s.store.frame, f);
    RecordIsBelow(s.store.frame, s.FirstNotFinalised(), RecordOf(h), f);
    m :| 0 <= m < |FinalSequence(s)| && FinalSequence(s)[m] == RecordOf(h);
  }

  lemma FinalEvents(s: CoreState, peers: set<PeerId>, digest: EventHash -> nat)
    requires CoreTrue(s, peers, digest)
    ensures var all := FinalSequence(s);
            && (forall k :: 0 <= k < |all| ==>
                  && all[k].hash in s.store.event && all[k] == RecordOf(all[k].hash)
                  && FrameOf(all[k].hash, |peers|) < s.FirstNotFinalised())
            && (forall k, l :: 0 <= k < l < |all| ==> all[k].hash != all[l].hash)
    ensures GraphTrue(s.store.event.Keys, peers)
  {
    hide FrameOf, FramesTrue, FramesSorted, InFinalOrder;
    RecordsAreOrdered(s.store.frame, s.store.event.Keys, s.FirstNotFinalised(), |peers|, digest);
    FinalSequenceIsDistinct(s, peers, digest);
  }

  // The last record of a peer before one of its own records is that of the self-parent; a leaf has none
  // before it.
  lemma SelfParentIsLast(s: CoreState, peers: set<PeerId>, digest: EventHash -> nat, k: nat)
    requires CoreTrue(s, peers, digest) && k < |FinalSequence(s)|
    ensures var all := FinalSequence(s);
            var h := all[k].hash;
            if IsInner(h) then exists j: nat :: IsLastOf(all, k, j, Creator(h)) && all[j].hash == SelfParent(h)
            else NoneOf(all, k, Creator(h))
  {
    hide CoreTrue, FinalSequence, FrameOf;
    var all, hs, n := FinalSequence(s), s.store.event.Keys, |peers|;
    var h := all[k].hash;
    var p := Creator(h);
    FinalEvents(s, peers, digest);
    assert WellPlaced(h, hs, peers);
    ClosedIsInner(hs, peers, h);
    if IsInner(h) {
      var m := SelfParentIsBefore(s, peers, digest, h, k);
      var j := LastOf(all, k, p);
      SelfParentIsPlaced(s, peers, digest, h, k, m, j);
    } else if !NoneOf(all, k, p) {
      var j := LastOf(all, k, p);
      EarlierIsLower(s, peers, digest, j, k);
      assert false;
    }
  }

  lemma SelfParentIsBefore(s: CoreState, peers: set<PeerId>, digest: EventHash -> nat, h: EventHash, k: nat)
    returns (m: nat)
    requires CoreTrue(s, peers, digest) && k < |FinalSequence(s)| && FinalSequence(s)[k].hash == h && IsInner(h)
    ensures m < k && FinalSequence(s)[m].hash == SelfParent(h)
    ensures Creator(SelfParent(h)) == Creator(h) && HeightOf(SelfParent(h)) == HeightOf(h) - 1
  {
    hide CoreTrue, FinalSequence, FrameOf;
    var hs := s.store.event.Keys;
    FinalEvents(s, peers, digest);
    ClosedIsInner(hs, peers, h);
    assert WellPlaced(h, hs, peers);
    FrameMonotone(h, SelfParent(h), |peers|);
    m := PlaceOf(s, peers, digest, SelfParent(h));
    FinalOrderRespectsCausality(s, peers, digest, m, k);
  }

  // Of two events of one creator the earlier in final order is the lower.
  lemma EarlierIsLower(s: CoreState, peers: set<PeerId>, digest: EventHash -> nat, j: nat, k: nat)
    requires CoreTrue(s, peers, digest) && j < k < |FinalSequence(s)|
    requires Creator(FinalSequence(s)[j].hash) == Creator(FinalSequence(s)[k].hash)
    ensures HeightOf(FinalSequence(s)[j].hash) < HeightOf(FinalSequence(s)[k].hash)
  {
    hide CoreTrue, FinalSequence, FrameOf;
    var a, b := FinalSequence(s)[j].hash, FinalSequence(s)[k].hash;
    FinalEvents(s, peers, digest);
    if HeightOf(a) >= HeightOf(b) {
      ChainOfCreator(s.store.event.Keys, peers, b, a);
      FinalOrderRespectsCausality(s, peers, digest, k, j);
    }
  }

  lemma SelfParentIsPlaced(s: CoreState, peers: set<PeerId>, digest: EventHash -> nat, h: EventHash, k: nat, m: nat,
                           j: nat)
    requires CoreTrue(s, peers, digest) && k < |FinalSequence(s)| && FinalSequence(s)[k].hash == h && m < k
    requires FinalSequence(s)[m].hash == SelfParent(h)
    requires Creator(SelfParent(h)) == Creator(h) && HeightOf(SelfParent(h)) == HeightOf(h) - 1
    requires IsLastOf(FinalSequence(s), k, j, Creator(h))
    ensures j == m
  {
    hide CoreTrue, FinalSequence;
    EarlierIsLower(s, peers, digest, j, k);
    assert Creator(FinalSequence(s)[m].hash) == Creator(h);
    if m < j { EarlierIsLower(s, peers, digest, m, j); }
  }

  // Up to any place, the transactions of a peer in final order are those of its chain up to its last event.
  lemma {:induction false} ChainInFinalOrder(s: CoreState, peers: set<PeerId>, digest: EventHash -> nat, k: nat,
                                             p: PeerId)
    requires CoreTrue(s, peers, digest) && k <= |FinalSequence(s)|
    ensures var all := FinalSequence(s);
            && (NoneOf(all, k, p) ==> FromPeer(ItemsOf(all[..k]), p) == [])
            && forall j: nat :: IsLastOf(all, k, j, p) ==>
                 FromPeer(ItemsOf(all[..k]), p) == ChainTransactions(all[j].hash)
  {
    hide CoreTrue, FinalSequence, FromPeer, ItemsOf, NoneOf, IsLastOf;
    var all := FinalSequence(s);
    if k == 0 {
      NothingFrom(all, p);
      NoneAtStart(all, p);
    } else {
      ChainInFinalOrder(s, peers, digest, k - 1, p);
      var h := all[k - 1].hash;
      assert all[..k] == all[..k - 1] + [all[k - 1]];
      FromOneMore(all[..k - 1], all[k - 1], p);
      if Creator(h) == p {
        SelfParentIsLast(s, peers, digest, k - 1);
        LastIsTheLast(all, k, p);
      } else {
        LastStays(all, k, p);
      }
    }
  }

  lemma LastIsTheLast(records: seq<FrameRecord>, k: nat, p: PeerId)
    requires 0 < k <= |records| && Creator(records[k - 1].hash) == p
    ensures !NoneOf(records, k, p) && forall j: nat :: IsLastOf(records, k, j, p) ==> j == k - 1
  {
    forall j: nat | IsLastOf(records, k, j, p) ensures j == k - 1 {
      if j < k - 1 { assert false; }
    }
  }

  lemma LastStays(records: seq<FrameRecord>, k: nat, p: PeerId)
    requires 0 < k <= |records| && Creator(records[k - 1].hash) != p
    ensures NoneOf(records, k, p) ==> NoneOf(records, k - 1, p)
    ensures forall j: nat :: IsLastOf(records, k, j, p) ==> IsLastOf(records, k - 1, j, p)
  {
    forall j: nat | IsLastOf(records, k, j, p) ensures IsLastOf(records, k - 1, j, p) {
      assert j != k - 1;
    }
  }

  lemma NoneAtStart(all: seq<FrameRecord>, p: PeerId)
    ensures NoneOf(all, 0, p) && forall j: nat :: !IsLastOf(all, 0, j, p)
  {
  }

  lemma NothingFrom(all: seq<FrameRecord>, p: PeerId)
    ensures FromPeer(ItemsOf(all[..0]), p) == []
  {
  }

  lemma {:induction false} ChainsExtend(hs: set<EventHash>, peers: set<PeerId>, a: EventHash, b: EventHash)
    requires Closed(hs, peers) && ForkFree(hs) && a in hs && b in hs
    requires Creator(a) == Creator(b) && HeightOf(a) <= HeightOf(b)
    ensures ChainTransactions(a) <= ChainTransactions(b)
    decreases HeightOf(b)
  {
    assert WellPlaced(b, hs, peers);
    ClosedIsInner(hs, peers, b);
    if HeightOf(a) == HeightOf(b) {
      assert Twins(a, b);
    } else {
      ChainsExtend(hs, peers, a, SelfParent(b));
    }
  }

  // Whole runs

  // The head of a peer's chain.
  lemma HeadOf(c: Cluster, peers: set<PeerId>, p: PeerId) returns (h: EventHash)
    requires ClusterSound(c, peers) && p in peers
    ensures h in c.dag && Creator(h) == p && IsHead(p, HeightOf(h), c.dag)
  {
    hide ClusterSound, NodeSound, StoreSound, FramesSound, GraphTrue;
    HasNode(c, peers, p);
    NodeAt(c, p, peers);
    var s := c.nodes[p];
    HeadIsStored(s, p, c.dag, peers, p);
    h := s.store.eventOf[(p, s.peers.Find(p).height)].hash;
    NodePeersAreValid(s, p, c.dag, peers);
  }

  // In the final order of a node that is not hit, the transactions of every peer stand exactly as they were
  // submitted to it: in that order, without gap or repetition, up to some point; and that point is at or past
  // every event of a final frame that the peer ever created.
  lemma FinalTransactions(run: seq<Cluster>, steps: seq<Step>, lists: Lists, peers: set<PeerId>,
                          digest: EventHash -> nat, k: nat, i: PeerId, p: PeerId)
    requires IsRun(run, steps, lists, peers, digest) && k < |run| && i in peers && p in peers && Unhit(run, steps, i, k)
    ensures i in run[k].nodes && p in run[k].submitted
    ensures FromPeer(ItemsOf(FinalSequence(run[k].nodes[i])), p) <= run[k].submitted[p]
    ensures forall x ::
              x in run[k].dag && Creator(x) == p && FrameOf(x, |peers|) < run[k].nodes[i].FirstNotFinalised() ==>
                ChainTransactions(x) <= FromPeer(ItemsOf(FinalSequence(run[k].nodes[i])), p)
  {
    hide IsRun, Unhit, CoreTrue, FinalSequence, FrameOf, ClusterSound, FromPeer, ItemsOf, ChainTransactions;
    TrueWhileUnhit(run, steps, lists, peers, digest, i, k);
    EveryStateIsSound(run, steps, lists, peers, digest, k);
    GraphOfRun(run, steps, lists, peers, digest, k);
    var c, s := run[k], run[k].nodes[i];
    var all := FinalSequence(s);
    assert all[..|all|] == all;
    ChainInFinalOrder(s, peers, digest, |all|, p);
    FinalEvents(s, peers, digest);
    StoredIsCreated(c, i, peers);
    var head := HeadOf(c, peers, p);
    TransactionsAreConserved(run, steps, lists, peers, digest, k, p, head);
    if !NoneOf(all, |all|, p) {
      var j := LastOf(all, |all|, p);
      ChainsExtend(c.dag, peers, all[j].hash, head);
    }
    forall x | x in c.dag && Creator(x) == p && FrameOf(x, |peers|) < s.FirstNotFinalised()
      ensures ChainTransactions(x) <= FromPeer(ItemsOf(all), p)
    {
      FinalFramesAreComplete(run, steps, lists, peers, digest, k, i, k, x);
      RecordsAreStored(s, peers, digest, x);
      WholeChain(s, peers, digest, x);
    }
  }

  lemma WholeChain(s: CoreState, peers: set<PeerId>, digest: EventHash -> nat, x: EventHash)
    requires CoreTrue(s, peers, digest) && x in s.store.event && FrameOf(x, |peers|) < s.FirstNotFinalised()
    ensures ChainTransactions(x) <= FromPeer(ItemsOf(FinalSequence(s)), Creator(x))
  {
    hide CoreTrue, FinalSequence, FrameOf, FromPeer, ItemsOf, ChainTransactions;
    var all, p := FinalSequence(s), Creator(x);
    FinalEvents(s, peers, digest);
    var m := PlaceOf(s, peers, digest, x);
    assert !NoneOf(all, |all|, p);
    var j := LastOf(all, |all|, p);
    if m < j { EarlierIsLower(s, peers, digest, m, j); }
    ChainsExtend(s.store.event.Keys, peers, x, all[j].hash);
    ChainInFinalOrder(s, peers, digest, |all|, p);
    assert all[..|all|] == all;
  }

  lemma RecordsAreStored(s: CoreState, peers: set<PeerId>, digest: EventHash -> nat, x: EventHash)
    requires CoreTrue(s, peers, digest) && RecordOf(x) in FrameIn(s.store.frame, FrameOf(x, |peers|))
    ensures x in s.store.event
  {
    hide FrameOf, CoreExact, StoreExact;
    var f := FrameOf(x, |peers|);
    assert FrameTrue(FrameIn(s.store.frame, f), f, s.store.event.Keys, |peers|);
  }

  lemma StoredIsCreated(c: Cluster, i: PeerId, peers: set<PeerId>)
    requires ClusterSound(c, peers) && i in c.nodes
    ensures c.nodes[i].store.event.Keys <= c.dag
  {
    hide ClusterSound, NodeSound;
    NodeAt(c, i, peers);
    NodePeersAreValid(c.nodes[i], i, c.dag, peers);
  }

  // Consumers

  lemma {:induction false} FromBoth(a: seq<FrameRecord>, b: seq<FrameRecord>, p: PeerId)
    ensures FromPeer(ItemsOf(a + b), p) == FromPeer(ItemsOf(a), p) + FromPeer(ItemsOf(b), p)
  {
    hide FromPeer, ItemsOf;
    if b == [] {
      assert a + b == a;
      NothingFrom(b, p);
      assert b[..0] == b;
    } else {
      var front, last := b[..|b| - 1], b[|b| - 1];
      FromBoth(a, front, p);
      FromOneMore(a + front, last, p);
      FromOneMore(front, last, p);
      assert a + b == a + front + [last] && b == front + [last];
    }
  }

  lemma WithoutOne<T>(front: seq<T>, before: seq<T>, after: seq<T>, x: T)
    requires multiset(front + [x]) <= multiset(before + ([x] + after))
    ensures multiset(front) <= multiset(before + after)
  {
    var F, B, A := multiset(front), multiset(before), multiset(after);
    assert multiset(front + [x]) == F + multiset{x};
    assert multiset(before + ([x] + after)) == B + (multiset{x} + A);
    assert multiset(before + after) == B + A;
    forall y ensures F[y] <= (B + A)[y] {
      assert (F + multiset{x})[y] <= (B + (multiset{x} + A))[y];
    }
  }

  // More records bring more transactions, in whatever order.
  lemma {:induction false} MoreRecords(a: seq<FrameRecord>, b: seq<FrameRecord>, p: PeerId)
    requires multiset(a) <= multiset(b)
    ensures multiset(FromPeer(ItemsOf(a), p)) <= multiset(FromPeer(ItemsOf(b), p))
    decreases |a|
  {
    hide FromPeer, ItemsOf;
    if a == [] {
      NothingFrom(a, p);
      assert a[..0] == a;
    } else {
      var front, rec := a[..|a| - 1], a[|a| - 1];
      assert a == front + [rec] && rec in multiset(b);
      var at :| 0 <= at < |b| && b[at] == rec;
      var before, after := b[..at], b[at + 1..];
      assert b == before + ([rec] + after);
      WithoutOne(front, before, after, rec);
      MoreRecords(front, before + after, p);
      FromBoth(front, [rec], p);
      FromBoth(before, after, p);
      FromBoth([rec], after, p);
      FromBoth(before, [rec] + after, p);
    }
  }

  lemma {:induction false} FromPrefix(a: seq<Item>, b: seq<Item>, p: PeerId)
    requires a <= b
    ensures FromPeer(a, p) <= FromPeer(b, p)
  {
    assert b == a + b[|a|..];
    FromPeerOfBoth(a, b[|a|..], p);
  }

  lemma PartCounts<T>(a: seq<T>, b: seq<T>)
    ensures multiset(a) <= multiset(a + b) && multiset(b) <= multiset(a + b)
  {
  }

  lemma Within<T>(rounds: seq<T>, missed: seq<T>, lower: seq<T>, one: seq<T>, rest: seq<T>)
    requires multiset(rounds) + multiset(missed) == multiset(lower) + multiset(one)
    ensures multiset(rounds) <= multiset(lower + (one + rest))
  {
    assert multiset(lower + (one + rest)) == multiset(lower) + multiset(one) + multiset(rest);
    forall y ensures multiset(rounds)[y] <= multiset(lower + (one + rest))[y] {
      assert (multiset(rounds) + multiset(missed))[y] == (multiset(lower) + multiset(one))[y];
    }
  }

  // The stream looks at no final record twice.
  lemma StreamIsWithin(frame: FrameMap, open: FrameNumber)
    ensures multiset(RecordsOpen(frame, open)) <= multiset(RecordsBelow(frame, open))
  {
    if open == 1 {
      RoundsStart(frame);
      BelowStep(frame, 0);
      PartCounts(RecordsBelow(frame, 0), FrameIn(frame, 0));
    } else if open > 1 {
      RoundsAreWithin(frame, open - 2);
    }
  }

  lemma RoundsAreWithin(frame: FrameMap, f: FrameNumber)
    ensures multiset(Rounds(frame, f)) <= multiset(RecordsBelow(frame, f + 2))
  {
    hide Rounds, First, Rest, RecordsBelow, FrameIn;
    BelowStep(frame, f + 1);
    RoundsMissOneRecord(frame, f);
    FirstAndRest(FrameIn(frame, f + 1));
    Within(Rounds(frame, f), First(FrameIn(frame, 1)), RecordsBelow(frame, f + 1), First(FrameIn(frame, f + 1)),
           Rest(FrameIn(frame, f + 1)));
  }

  lemma StreamIsFinal(s: CoreState)
    ensures forall rec :: rec in StreamRecords(s) ==> rec in FinalSequence(s)
  {
    hide RecordsOpen, RecordsBelow;
    StreamIsWithin(s.store.frame, s.FirstNotFinalised());
    forall rec | rec in StreamRecords(s) ensures rec in FinalSequence(s) {
      assert rec in multiset(StreamRecords(s));
      assert rec in multiset(FinalSequence(s));
    }
  }

  // A consumer of a node that is not hit never receives a transaction more often than it was submitted, and
  // always under the name of the node it was submitted to.
  lemma DeliveredWasSubmitted(run: seq<Cluster>, steps: seq<Step>, lists: Lists, peers: set<PeerId>,
                              digest: EventHash -> nat, k: nat, i: PeerId, p: PeerId)
    requires IsRun(run, steps, lists, peers, digest) && k < |run| && i in peers && p in peers && Unhit(run, steps, i, k)
    requires |peers| >= 2
    ensures i in run[k].delivered && p in run[k].submitted
    ensures multiset(FromPeer(run[k].delivered[i], p)) <= multiset(run[k].submitted[p])
    ensures forall t :: 0 <= t < |run[k].delivered[i]| ==> run[k].delivered[i][t].1 in peers
  {
    hide IsRun, Unhit, FromPeer, ItemsOf, FrameOf, StreamTrue, RecordsOpen, RecordsBelow, CoreTrue;
    FinalTransactions(run, steps, lists, peers, digest, k, i, p);
    TrueWhileUnhit(run, steps, lists, peers, digest, i, k);
    StreamOfRun(run, steps, lists, peers, digest, k, i);
    var s, items := run[k].nodes[i], run[k].delivered[i];
    PollServesTheNext(s, items);
    FinalEvents(s, peers, digest);
    StreamIsFinal(s);
    ItemsHaveCreators(StreamRecords(s), s.store.event.Keys, peers);
    StreamIsWithin(s.store.frame, s.FirstNotFinalised());
    MoreRecords(StreamRecords(s), FinalSequence(s), p);
    FromPrefix(items, StreamItems(s), p);
    PrefixCounts(FromPeer(items, p), FromPeer(StreamItems(s), p));
    PrefixCounts(FromPeer(ItemsOf(FinalSequence(s)), p), run[k].submitted[p]);
  }

  lemma {:induction false} ItemsHaveCreators(records: seq<FrameRecord>, hs: set<EventHash>, peers: set<PeerId>)
    requires Closed(hs, peers) && forall rec :: rec in records ==> rec.hash in hs
    ensures forall t :: 0 <= t < |ItemsOf(records)| ==> ItemsOf(records)[t].1 in peers
  {
    if records == [] {
    } else {
      var rec := records[|records| - 1];
      ItemsHaveCreators(records[..|records| - 1], hs, peers);
      assert rec in records && WellPlaced(rec.hash, hs, peers);
    }
  }

  lemma PrefixCounts<T>(a: seq<T>, b: seq<T>)
    requires a <= b
    ensures multiset(a) <= multiset(b)
  {
    assert b == a + b[|a|..];
  }
}
