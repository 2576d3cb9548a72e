/** Runs of procedure A that show what the conditions of the results are for, from every start of two nodes or
    more. */
module Witnesses {
  import opened Wrappers
  import opened Events
  import opened Sorting
  import opened Frames
  import opened Stores
  import opened Dag
  import opened Cores
  import opened Refinement
  import opened Soundness
  import opened Freshness
  import opened Nodes
  import opened Steps
  import opened Stream
  import opened Cluster
  import opened Runs
  import opened Schedules
  import opened Histories
  import opened Meetings
  import opened Progress
  import opened Overlaps

  // The stream leaves the final order

  // One transaction for events of frame 1 and another for those of frame 2.
  function TwoFees(x: Transaction, y: Transaction): FrameNumber -> Option<Transaction> {
    (f: FrameNumber) => if f == 1 then Some(x) else if f == 2 then Some(y) else None
  }

  lemma StartIsPaid(c: Cluster, lists: Lists, peers: set<PeerId>, pay: FrameNumber -> Option<Transaction>)
    requires Initial(c, lists, peers)
    ensures Paid(c, pay, {}, |peers|)
  {
    LeavesAreAGraph(peers);
    forall k | k in c.nodes ensures c.nodes[k].txPool == [] {
      BootedAs(c, lists, peers, k);
      BootedPoolIsEmpty(lists[k], k);
    }
  }

  lemma {:induction false} NothingInside(records: seq<FrameRecord>)
    requires forall rec :: rec in records ==> Payload(rec.hash) == []
    ensures ItemsOf(records) == []
  {
    if records == [] {
    } else {
      NothingInside(records[..|records| - 1]);
      assert records[|records| - 1] in records;
    }
  }

  lemma FirstItem(before: seq<FrameRecord>, rec: FrameRecord, all: seq<FrameRecord>, z: Transaction)
    requires ItemsOf(before) == [] && Payload(rec.hash) == [z] && before + [rec] <= all
    ensures ItemsOf(all) != [] && ItemsOf(all)[0].0 == z
  {
    ItemsOfOneMore(before, rec);
    ItemsOfPrefix(before + [rec], all);
    assert ItemsIn(rec.hash)[0].0 == z;
  }

  // What the records of a paid node carry.
  lemma PaidRecords(s: CoreState, c: Cluster, i: PeerId, peers: set<PeerId>, digest: EventHash -> nat,
                    pay: FrameNumber -> Option<Transaction>, f: FrameNumber)
    requires ClusterSound(c, peers) && i in c.nodes && s == c.nodes[i] && CoreTrue(s, peers, digest)
    requires Paid(c, pay, {}, |peers|)
    ensures forall rec :: rec in FrameIn(s.store.frame, f) ==>
              Payload(rec.hash) == if IsInner(rec.hash) then Due(pay, f) else []
    ensures f > 0 ==> forall rec :: rec in FrameIn(s.store.frame, f) ==> IsInner(rec.hash)
  {
    hide ClusterSound, NodeSound;
    NodeAt(c, i, peers);
    NodePeersAreValid(s, i, c.dag, peers);
    assert FrameTrue(FrameIn(s.store.frame, f), f, s.store.event.Keys, |peers|);
  }

  lemma FirstItemsDiffer(s: CoreState, c: Cluster, i: PeerId, peers: set<PeerId>, digest: EventHash -> nat,
                         x: Transaction, y: Transaction)
    requires ClusterSound(c, peers) && i in c.nodes && s == c.nodes[i] && CoreTrue(s, peers, digest)
    requires Paid(c, TwoFees(x, y), {}, |peers|) && |peers| >= 2 && i in peers && s.FirstNotFinalised() >= 3
    ensures StreamItems(s) != [] && StreamItems(s)[0].0 == y
    ensures ItemsOf(FinalSequence(s)) != [] && ItemsOf(FinalSequence(s))[0].0 == x
  {
    hide CoreTrue, ClusterSound, NodeSound, Paid, RecordsBelow, Rounds, ItemsOf, Full;
    var frame, open := s.store.frame, s.FirstNotFinalised();
    NodeIsFull(c, i, peers);
    ThreeAreFull(s);
    PaidRecords(s, c, i, peers, digest, TwoFees(x, y), 0);
    PaidRecords(s, c, i, peers, digest, TwoFees(x, y), 1);
    PaidRecords(s, c, i, peers, digest, TwoFees(x, y), 2);
    NothingInside(FrameIn(frame, 0));
    var one, two := FrameIn(frame, 1)[0], FrameIn(frame, 2)[0];
    assert one in FrameIn(frame, 1) && two in FrameIn(frame, 2);
    RoundsStart(frame);
    RoundsStep(frame, 1);
    RoundsExtend(frame, 1, open - 2);
    BelowTwo(frame);
    RecordsOnlyExtend(frame, 2, open);
    assert FrameIn(frame, 0) + [two] <= StreamRecords(s);
    assert FrameIn(frame, 0) + [one] <= FinalSequence(s);
    FirstItem(FrameIn(frame, 0), two, StreamRecords(s), y);
    FirstItem(FrameIn(frame, 0), one, FinalSequence(s), x);
  }

  lemma ThreeAreFull(s: CoreState)
    requires Full(s.store, s.FirstNotFinalised()) && s.FirstNotFinalised() >= 3
    ensures FrameIn(s.store.frame, 1) != [] && FrameIn(s.store.frame, 2) != []
  {
    assert |FrameIn(s.store.frame, 1)| >= 2 && |FrameIn(s.store.frame, 2)| >= 2;
  }

  // From every start of two nodes or more, for every node and any two different transactions, there is a run
  // that hits nobody and in which the first item the node's consumer receives carries one of them while the
  // first item in final order carries the other.
  lemma StreamLeavesFinalOrder(c: Cluster, lists: Lists, peers: set<PeerId>, digest: EventHash -> nat, i: PeerId,
                               x: Transaction, y: Transaction) returns (h: History)
    requires Initial(c, lists, peers) && |peers| >= 2 && i in peers && x != y
    ensures h.Valid() && h.run[0] == c && h.peers == peers
    ensures forall k :: k in peers ==> Unhit(h.run, h.steps, k, |h.steps|)
    ensures i in h.Last().nodes && i in h.Last().delivered && |h.Last().delivered[i]| == 1
    ensures ItemsOf(FinalSequence(h.Last().nodes[i])) != []
    ensures h.Last().delivered[i][0].0 == y && ItemsOf(FinalSequence(h.Last().nodes[i]))[0].0 == x
  {
    hide Initial, IsRun, ClusterSound, Paid, CoreTrue, CoreExact, Continues, Next, StreamItems, FinalSequence, ItemsOf;
    hide Unhit, Before, CursorSound, Stream.Poll, Polled;
    var h0 := Begin(c, lists, peers, digest, TwoFees(x, y));
    StartIsPaid(c, lists, peers, TwoFees(x, y));
    InitialIsSound(c, lists, peers, digest);
    TrueIsExact(c.nodes[i], peers, digest);
    var h1 := FinalityCanGrow(h0, 3);
    AllUnhit(h0, h1);
    ContinuesIsValid(h0, h1);
    StateStays(h0, h1);
    NoStepsNoPolls(h0);
    ContinuesNoPolls(h0, h1);
    LastIsSound(h1);
    var s := h1.Last().nodes[i];
    TrueWhileUnhit(h1.run, h1.steps, h1.lists, peers, h1.digest, i, |h1.steps|);
    FirstItemsDiffer(s, h1.Last(), i, peers, h1.digest, x, y);
    NothingBefore(h1, i);
    h := Drain(h1, i, 1);
    DrainHitsNobody(h1, h, i);
    SameFinality(s, h.Last().nodes[i]);
    assert StreamItems(s)[..1] == [StreamItems(s)[0]];
  }

  lemma SameFinality(s: CoreState, t: CoreState)
    requires t == s.(cursor := t.cursor)
    ensures FinalSequence(t) == FinalSequence(s)
  {
  }

  // Polling

  // A consumer that has not polled has received what lies before the cursor, which is nothing.
  lemma NothingBefore(h: History, i: PeerId)
    requires h.Valid() && NoPolls(h) && i in h.peers
    ensures UpToDate(h.Last(), i) && h.Last().delivered[i] == []
  {
    hide IsRun, CursorSound, ClusterSound;
    NothingPolled(h, i, |h.steps|);
    CursorOfRun(h.run, h.steps, h.lists, h.peers, h.digest, |h.steps|, i);
    BeforeAtStart(h.Last().nodes[i]);
  }

  lemma BeforeAtStart(s: CoreState)
    requires CursorSound(s) && s.cursor == Cursor(None, Some(0), Some(0))
    ensures Before(s) == []
  {
  }

  // What the consumer of `i` has received is what lies before the cursor.
  ghost predicate UpToDate(c: Cluster, i: PeerId) {
    i in c.nodes && i in c.delivered && CursorSound(c.nodes[i]) && c.delivered[i] == Before(c.nodes[i])
  }

  // `h'` goes on from `h` by polls of `i`.
  ghost predicate Polls(h: History, h': History, i: PeerId) {
    && h.Valid() && h'.Valid() && h'.lists == h.lists && h'.peers == h.peers && h'.digest == h.digest
    && |h.steps| <= |h'.steps| && h'.run[..|h.run|] == h.run && h'.steps[..|h.steps|] == h.steps
    && forall m {:trigger h'.steps[m]} :: |h.steps| <= m < |h'.steps| ==> h'.steps[m] == Consume(i)
  }

  // Polls touch nothing but the consumer of `i` and its cursor.
  ghost predicate OnlyPolled(c: Cluster, c': Cluster, i: PeerId) {
    && i in c.nodes && i in c'.nodes && c'.nodes[i] == c.nodes[i].(cursor := c'.nodes[i].cursor)
    && c.nodes.Keys <= c'.nodes.Keys && c.delivered.Keys <= c'.delivered.Keys
    && (forall k {:trigger c'.nodes[k]} :: k != i && k in c.nodes ==> c'.nodes[k] == c.nodes[k])
    && (forall k {:trigger c'.delivered[k]} :: k != i && k in c.delivered ==> c'.delivered[k] == c.delivered[k])
  }

  lemma PolledOnce(c: Cluster, i: PeerId, digest: EventHash -> nat)
    requires Enabled(c, Consume(i))
    ensures OnlyPolled(c, Next(c, Consume(i), digest), i)
  {
    hide Polled;
    PolledLeavesStore(c.nodes[i]);
  }

  // `m` polls of `i` deliver the next `m` items of its stream, as far as there are any.
  lemma {:induction false} Drain(h: History, i: PeerId, m: nat) returns (h': History)
    requires h.Valid() && i in h.peers && UpToDate(h.Last(), i)
    ensures Polls(h, h', i) && UpToDate(h'.Last(), i) && OnlyPolled(h.Last(), h'.Last(), i)
    ensures var all, upto := StreamItems(h.Last().nodes[i]), |h.Last().delivered[i]| + m;
            && h.Last().delivered[i] <= all
            && h'.Last().delivered[i] == if upto <= |all| then all[..upto] else all
    decreases m
  {
    hide IsRun, ClusterSound, Next, Before, CursorSound, Stream.Poll, Polled, StreamItems, Hits;
    if m == 0 {
      h' := h;
      ServedSoFar(h.Last().nodes[i]);
      NotPolled(h.Last(), i);
    } else {
      LastIsSound(h);
      HasNode(h.Last(), h.peers, i);
      PolledOnce(h.Last(), i, h.digest);
      var h1 := Append(h, Consume(i));
      ServedOnce(h, h1, i);
      h' := Drain(h1, i, m - 1);
      PollsOn(h, h1, h', i);
      PolledAgain(h.Last(), h1.Last(), h'.Last(), i);
    }
  }

  lemma NotPolled(c: Cluster, i: PeerId)
    requires i in c.nodes
    ensures OnlyPolled(c, c, i)
  {
  }

  lemma PolledAgain(c: Cluster, c': Cluster, c'': Cluster, i: PeerId)
    requires OnlyPolled(c, c', i) && OnlyPolled(c', c'', i)
    ensures OnlyPolled(c, c'', i)
  {
    forall k | k != i && k in c.nodes ensures k in c''.nodes && c''.nodes[k] == c.nodes[k] {
      assert c'.nodes[k] == c.nodes[k];
    }
    forall k | k != i && k in c.delivered ensures k in c''.delivered && c''.delivered[k] == c.delivered[k] {
      assert c'.delivered[k] == c.delivered[k];
    }
  }

  lemma ServedSoFar(s: CoreState)
    requires CursorSound(s)
    ensures Before(s) <= StreamItems(s)
  {
    hide Stream.Placed, StreamItems, ItemsBefore, Stream.Poll, Polled;
    PollServesTheCursor(s);
  }

  lemma ServedOnce(h: History, h': History, i: PeerId)
    requires h.Valid() && h'.Valid() && i in h.peers && UpToDate(h.Last(), i) && Enabled(h.Last(), Consume(i))
    requires h' == h.(run := h.run + [Next(h.Last(), Consume(i), h.digest)], steps := h.steps + [Consume(i)])
    requires OnlyPolled(h.Last(), h'.Last(), i)
    ensures UpToDate(h'.Last(), i) && StreamItems(h'.Last().nodes[i]) == StreamItems(h.Last().nodes[i])
    ensures var all, before := StreamItems(h.Last().nodes[i]), h.Last().delivered[i];
            && before <= all
            && h'.Last().delivered[i] == if |before| < |all| then before + [all[|before|]] else before
  {
    hide IsRun, Before, CursorSound, Stream.Poll, Polled, RecordsOpen, ItemsOf, Hits;
    var k := |h.steps|;
    assert h'.run[k] == h.Last() && h'.run[k + 1] == h'.Last() && h'.steps[k] == Consume(i);
    PollsServeInOrder(h'.run, h'.steps, h'.lists, h'.peers, h'.digest, k, i);
  }

  lemma PollsOn(h: History, h1: History, h': History, i: PeerId)
    requires h.Valid() && Polls(h1, h', i) && Enabled(h.Last(), Consume(i))
    requires h1 == h.(run := h.run + [Next(h.Last(), Consume(i), h.digest)], steps := h.steps + [Consume(i)])
    ensures Polls(h, h', i)
  {
    hide IsRun, Next, Enabled;
    assert h'.run[..|h.run|] == h'.run[..|h1.run|][..|h.run|];
    assert h'.steps[..|h.steps|] == h'.steps[..|h1.steps|][..|h.steps|];
    forall m | |h.steps| <= m < |h'.steps| ensures h'.steps[m] == Consume(i) {
      if m < |h1.steps| { assert h'.steps[m] == h'.steps[..|h1.steps|][m] == h1.steps[m]; }
    }
  }

  lemma DrainHitsNobody(h: History, h': History, i: PeerId)
    requires Polls(h, h', i)
    ensures forall k :: Unhit(h.run, h.steps, k, |h.steps|) <==> Unhit(h'.run, h'.steps, k, |h'.steps|)
    ensures h'.run[0] == h.run[0]
  {
    hide IsRun, Stale;
    assert h'.run[0] == h'.run[..|h.run|][0];
    assert forall m :: 0 <= m < |h.steps| ==> h'.steps[m] == h.steps[m] && h'.run[m] == h.run[m];
  }

  // A hit

  // From every start of two nodes or more, and for every node, there is a run of procedure A that hits it and
  // nobody else: the node asks its contact, goes once round its schedule, an event at each call, asks it
  // again, goes round once more, and only then is answered. Its numbers are exact all the same.
  lemma SecondAnswerHits(c: Cluster, lists: Lists, peers: set<PeerId>, digest: EventHash -> nat, i: PeerId)
    returns (h: History)
    requires Initial(c, lists, peers) && |peers| >= 2 && i in peers
    ensures h.Valid() && h.run[0] == c && h.peers == peers && h.digest == digest
    ensures forall k :: k in peers ==> (Unhit(h.run, h.steps, k, |h.steps|) <==> k != i)
    ensures i in h.Last().nodes && CoreExact(h.Last().nodes[i], peers) && !CoreTrue(h.Last().nodes[i], peers, digest)
  {
    hide Initial, IsRun, CoreExact, CoreTrue, Unhit, StillOpen, Light, OnLeaves;
    var k;
    h, k := HitRun(c, lists, peers, digest, i, [], 2);
    NodeIsTrueUntilHit(h.run, h.steps, h.lists, h.peers, h.digest, i, |h.steps|);
  }

  // What a hit costs

  lemma {:induction false} LongEnough(s: CoreState, f: FrameNumber)
    requires FramesSound(s) && f <= s.FirstNotFinalised()
    ensures |RecordsBelow(s.store.frame, f)| >= f
  {
    hide FramesSound;
    if f == 0 {
    } else {
      LongEnough(s, f - 1);
      FinalFramesAreNotEmpty(s, f - 1);
      BelowStep(s.store.frame, f - 1);
    }
  }

  // From every run in which a node is hit there is a continuation, hitting nobody, in which its final sequence
  // repeats a record: either it does already, or the node is exact, and finality can be made to grow.
  lemma RepetitionSurfaces(h: History, i: PeerId) returns (h': History)
    requires h.Valid() && i in h.peers && !Unhit(h.run, h.steps, i, |h.steps|)
    ensures Continues(h, h') && i in h'.Last().nodes && RepeatsFinally(h'.Last().nodes[i], |h.peers|)
  {
    hide IsRun, CoreExact, CoreTrue, Continues, Unhit, RecordedTwice, FrameOf, Settled, Paid, Hits, HashesOf;
    hide RepeatsFinally;
    ExactOrRepeats(h.run, h.steps, h.lists, h.peers, h.digest, i, |h.steps|);
    if RepeatsFinally(h.Last().nodes[i], |h.peers|) {
      h' := h;
      Stay(h);
    } else {
      var m, y := HitIsForGood(h.run, h.steps, h.lists, h.peers, h.digest, i, |h.steps|);
      h' := FinalityCanGrow(h, FrameOf(y, |h.peers|) + 1);
      ContinuesIsValid(h, h');
      RepeatedStays(h, h', i, y);
      RepeatsNow(h'.Last().nodes[i], y, |h.peers|);
    }
  }

  lemma RepeatsNow(s: CoreState, y: EventHash, n: nat)
    requires RecordedTwice(s.store.frame, y, n) && FrameOf(y, n) < s.FirstNotFinalised()
    ensures RepeatsFinally(s, n)
  {
  }

  // Every run in which a node is hit, and another is not, can be continued, hitting nobody, to one where
  // their final sequences are incomparable.
  lemma HitBreaksAgreement(h: History, i: PeerId, j: PeerId) returns (h': History, a: nat)
    requires h.Valid() && i in h.peers && j in h.peers
    requires !Unhit(h.run, h.steps, i, |h.steps|) && Unhit(h.run, h.steps, j, |h.steps|)
    ensures Continues(h, h') && a < |h'.run| && i in h'.run[a].nodes && j in h'.Last().nodes
    ensures Unhit(h'.run, h'.steps, j, |h'.steps|)
    ensures !Comparable(FinalSequence(h'.Last().nodes[j]), FinalSequence(h'.run[a].nodes[i]))
  {
    hide IsRun, CoreExact, CoreTrue, Continues, Unhit, FinalSequence, RecordedTwice, RecordsGrow, FrameOf;
    hide Settled, Paid, ClusterSound, Hits, Comparable, RepeatsFinally;
    var h1 := RepetitionSurfaces(h, i);
    ContinuesIsValid(h, h1);
    UnhitStays(h, h1, j);
    TrueWhileUnhit(h1.run, h1.steps, h1.lists, h1.peers, h1.digest, j, |h1.steps|);
    TrueIsExact(h1.Last().nodes[j], h1.peers, h1.digest);
    var t := h1.Last().nodes[i];
    var y := FinalRepetition(t, |h.peers|);
    var k := |FinalSequence(t)|;
    h' := FinalityCanGrow(h1, k);
    ContinuesIsValid(h1, h');
    GoOn(h, h1, h');
    UnhitStays(h1, h', j);
    a := |h1.steps|;
    StateStays(h1, h');
    TrueWhileUnhit(h'.run, h'.steps, h'.lists, h'.peers, h'.digest, j, |h'.steps|);
    var s := h'.Last().nodes[j];
    SoundFrames(h', j);
    LongEnough(s, s.FirstNotFinalised());
    assert |FinalSequence(s)| >= k by { SequenceIsLong(s, k); }
    assert FinalSequence(t)[..k] == FinalSequence(t);
    RepetitionBreaksAgreement(s, t, h'.peers, h'.digest, RecordOf(y), k);
  }

  lemma FinalRepetition(t: CoreState, n: nat) returns (y: EventHash)
    requires RepeatsFinally(t, n)
    ensures multiset(FinalSequence(t))[RecordOf(y)] >= 2
  {
    hide RecordedTwice, FrameOf, FinalSequence;
    y :| RecordedTwice(t.store.frame, y, n) && FrameOf(y, n) < t.FirstNotFinalised();
    RepeatedInFinalSequence(t, y, n);
  }

  lemma SequenceIsLong(s: CoreState, k: nat)
    requires |RecordsBelow(s.store.frame, s.FirstNotFinalised())| >= s.FirstNotFinalised() >= k
    ensures |FinalSequence(s)| >= k
  {
  }

  lemma SoundFrames(h: History, j: PeerId)
    requires h.Valid() && j in h.peers
    ensures j in h.Last().nodes && FramesSound(h.Last().nodes[j])
  {
    hide IsRun, ClusterSound, NodeSound;
    LastIsSound(h);
    HasNode(h.Last(), h.peers, j);
    NodeAt(h.Last(), j, h.peers);
    NodePeersAreValid(h.Last().nodes[j], j, h.Last().dag, h.peers);
  }

  lemma RepeatedStays(h: History, h': History, i: PeerId, y: EventHash)
    requires Continues(h, h') && i in h.Last().nodes && RecordedTwice(h.Last().nodes[i].store.frame, y, |h.peers|)
    ensures i in h'.Last().nodes && RecordedTwice(h'.Last().nodes[i].store.frame, y, |h.peers|)
  {
    hide IsRun, RecordedTwice, RecordsGrow, CoreTrue;
    StateStays(h, h');
    StatesGrow(h'.run, h'.steps, h'.lists, h'.peers, h'.digest, |h.steps|, |h'.steps|);
    RepeatedForGood(h.Last().nodes[i], h'.Last().nodes[i], y, h.peers, h.digest);
  }

  // Agreement needs the condition it is stated under: from every start of two nodes or more, for any two
  // nodes, a run hits one of them, not the other, and leaves them with incomparable final sequences.
  lemma AgreementNeedsFreshness(c: Cluster, lists: Lists, peers: set<PeerId>, digest: EventHash -> nat,
                                i: PeerId, j: PeerId) returns (h: History, a: nat)
    requires Initial(c, lists, peers) && i in peers && j in peers && i != j
    ensures h.Valid() && h.run[0] == c && h.peers == peers
    ensures a < |h.run| && i in h.run[a].nodes && j in h.Last().nodes
    ensures !Unhit(h.run, h.steps, i, |h.steps|) && Unhit(h.run, h.steps, j, |h.steps|)
    ensures !Comparable(FinalSequence(h.Last().nodes[j]), FinalSequence(h.run[a].nodes[i]))
  {
    hide Initial, IsRun, CoreExact, CoreTrue, Unhit, FinalSequence, Comparable;
    assert |peers| >= 2 by { CardinalitySubset({i, j}, peers); }
    var hit := SecondAnswerHits(c, lists, peers, digest, i);
    h, a := HitBreaksAgreement(hit, i, j);
    UnhitStays(hit, h, i);
    assert h.run[0] == h.run[..|hit.run|][0];
  }

  // What a hit costs the consumer

  // An event of frame `g` or later carries `z`.
  function LateFee(z: Transaction, g: FrameNumber): FrameNumber -> Option<Transaction> {
    (f: FrameNumber) => if f >= g then Some(z) else None
  }

  lemma {:induction false} FrameBound(hs: set<EventHash>, n: nat) returns (b: FrameNumber)
    ensures forall y :: y in hs ==> FrameOf(y, n) <= b
  {
    hide FrameOf;
    if hs == {} {
      b := 0;
    } else {
      var y :| y in hs;
      b := FrameBound(hs - {y}, n);
      forall w | w in hs ensures FrameOf(w, n) <= if FrameOf(y, n) > b then FrameOf(y, n) else b {
        if w != y { assert w in hs - {y}; }
      }
      b := if FrameOf(y, n) > b then FrameOf(y, n) else b;
    }
  }

  // What a record of frame `f` carries: `x` if it is of the event `e`, `z` from frame `g` on.
  ghost predicate Carries(rec: FrameRecord, f: FrameNumber, e: EventHash, x: Transaction, z: Transaction,
                          g: FrameNumber)
  {
    && rec == RecordOf(rec.hash)
    && (f < g ==> Payload(rec.hash) == if rec.hash == e then [x] else [])
    && (f == g ==> Payload(rec.hash) == [z])
  }

  ghost predicate FramesCarry(frame: FrameMap, e: EventHash, x: Transaction, z: Transaction, g: FrameNumber) {
    forall f: FrameNumber, rec {:trigger rec in FrameIn(frame, f)} ::
      rec in FrameIn(frame, f) && f <= g ==> Carries(rec, f, e, x, z, g)
  }

  // A node whose records are in the right frames.
  lemma NodeCarries(s: CoreState, c: Cluster, i: PeerId, peers: set<PeerId>, e: EventHash, x: Transaction,
                    z: Transaction, g: FrameNumber, base: set<EventHash>)
    requires ClusterSound(c, peers) && i in c.nodes && s == c.nodes[i] && CoreExact(s, peers)
    requires Paid(c, LateFee(z, g), base, |peers|) && e in base
    requires forall y :: y in base ==> FrameOf(y, |peers|) < g && Payload(y) == if y == e then [x] else []
    ensures FramesCarry(s.store.frame, e, x, z, g) && FramesSound(s)
  {
    hide ClusterSound, NodeSound, FrameOf;
    NodeAt(c, i, peers);
    NodePeersAreValid(s, i, c.dag, peers);
    forall f: FrameNumber, rec | rec in FrameIn(s.store.frame, f) && f <= g ensures Carries(rec, f, e, x, z, g) {
      RecordedTruly(s.store, s.FirstNotFinalised(), f, rec, peers);
      assert rec.hash in c.dag;
      PaidCarries(rec, e, x, z, g, f, |peers|, rec.hash in base);
    }
  }

  lemma RecordedTruly(st: StoreState, from: FrameNumber, f: FrameNumber, rec: FrameRecord, peers: set<PeerId>)
    requires StoreExact(st, from, peers) && RecordsStored(st.frame, st.event.Keys) && rec in FrameIn(st.frame, f)
    ensures rec.hash in st.event.Keys && FrameOf(rec.hash, |peers|) == f && rec == RecordOf(rec.hash)
  {
    hide FrameOf, GraphTrue, EventsTrue, IndexTrue, TablesTrue, TablesOwn, IsFinalityBound;
  }

  lemma PaidCarries(rec: FrameRecord, e: EventHash, x: Transaction, z: Transaction, g: FrameNumber, f: FrameNumber,
                    n: nat, early: bool)
    requires rec == RecordOf(rec.hash) && f == FrameOf(rec.hash, n) && g >= 1
    requires if early then f < g && Payload(rec.hash) == (if rec.hash == e then [x] else [])
             else rec.hash != e && Payload(rec.hash) == if IsInner(rec.hash) then Due(LateFee(z, g), f) else []
    ensures f <= g ==> Carries(rec, f, e, x, z, g)
  {
    if !IsInner(rec.hash) { LeafFrame(rec.hash, n); }
  }

  lemma LeafFrame(h: EventHash, n: nat)
    requires !IsInner(h)
    ensures FrameOf(h, n) == 0
  {
  }

  // The stream

  lemma {:induction false} RoundsAmong(frame: FrameMap, f: FrameNumber, rec: FrameRecord) returns (k: FrameNumber)
    requires rec in Rounds(frame, f)
    ensures k <= f + 1 && rec in FrameIn(frame, k)
  {
    hide First, Rest;
    if f == 0 {
      k := 0;
    } else if rec in Rounds(frame, f - 1) {
      k := RoundsAmong(frame, f - 1, rec);
    } else {
      RoundsStep(frame, f);
      PartsAreInside(FrameIn(frame, f), rec);
      PartsAreInside(FrameIn(frame, f + 1), rec);
      k := if rec in FrameIn(frame, f) then f else f + 1;
    }
  }

  lemma PartsAreInside(records: seq<FrameRecord>, rec: FrameRecord)
    ensures rec in First(records) || rec in Rest(records) ==> rec in records
  {
  }

  // Items of records of which only that of `e` carries anything.
  lemma {:induction false} OneCarrier(records: seq<FrameRecord>, e: EventHash, x: Transaction)
    requires forall rec :: rec in records ==>
               rec == RecordOf(rec.hash) && Payload(rec.hash) == if rec.hash == e then [x] else []
    ensures |ItemsOf(records)| == multiset(records)[RecordOf(e)]
    ensures forall it :: it in ItemsOf(records) ==> it.0 == x
  {
    if records == [] {
    } else {
      var front, last := records[..|records| - 1], records[|records| - 1];
      assert records == front + [last] && last in records;
      OneCarrier(front, e, x);
      assert multiset(records) == multiset(front) + multiset{last};
    }
  }

  // How many items the stream serves of the frames below `g`.
  ghost function Early(s: CoreState, g: FrameNumber): nat
    requires g >= 2
  {
    |ItemsOf(Rounds(s.store.frame, g - 2))|
  }

  // They all are `x`, and the next one is `z`.
  lemma StreamBegins(s: CoreState, e: EventHash, x: Transaction, z: Transaction, g: FrameNumber)
    requires FramesCarry(s.store.frame, e, x, z, g) && Full(s.store, s.FirstNotFinalised())
    requires g >= 3 && s.FirstNotFinalised() >= g + 1
    ensures |StreamItems(s)| > Early(s, g) && StreamItems(s)[Early(s, g)].0 == z
    ensures forall t :: 0 <= t < Early(s, g) ==> StreamItems(s)[t].0 == x
    ensures Early(s, g) == multiset(Rounds(s.store.frame, g - 2))[RecordOf(e)]
  {
    hide Rounds, ItemsOf, Full, ItemsIn;
    var frame, early := s.store.frame, Rounds(s.store.frame, g - 2);
    FramesAreFull(s, g);
    forall rec | rec in early
      ensures rec == RecordOf(rec.hash) && Payload(rec.hash) == if rec.hash == e then [x] else []
    {
      var k := RoundsAmong(frame, g - 2, rec);
      assert Carries(rec, k, e, x, z, g);
    }
    OneCarrier(early, e, x);
    var next := FrameIn(frame, g)[0];
    assert next in FrameIn(frame, g);
    assert Carries(next, g, e, x, z, g);
    RoundsStep(frame, g - 1);
    RoundsExtend(frame, g - 1, s.FirstNotFinalised() - 2);
    assert early + [next] <= StreamRecords(s);
    ItemsOfPrefix(early, StreamRecords(s));
    ItemsOfPrefix(early + [next], StreamRecords(s));
    ItemsOfOneMore(early, next);
    OneItem(next.hash, z);
    var all := StreamItems(s);
    assert forall t :: 0 <= t < Early(s, g) ==> all[t] == ItemsOf(early)[t];
  }

  lemma OneItem(h: EventHash, z: Transaction)
    requires Payload(h) == [z]
    ensures |ItemsIn(h)| == 1 && ItemsIn(h)[0].0 == z
  {
  }

  lemma FramesAreFull(s: CoreState, g: FrameNumber)
    requires Full(s.store, s.FirstNotFinalised()) && g < s.FirstNotFinalised()
    ensures FrameIn(s.store.frame, g) != []
  {
    assert |FrameIn(s.store.frame, g)| >= 2;
  }

  // All records of the event that are final, but for one that may stand first in frame 1.
  lemma EarlyCounts(s: CoreState, e: EventHash, n: nat, g: FrameNumber)
    requires RecordsTrue(s.store.frame, n) && FrameOf(e, n) <= 1 && g >= 3
    ensures var early := multiset(Rounds(s.store.frame, g - 2))[RecordOf(e)];
            early <= CountBelow(s.store.frame, g - 1, RecordOf(e)) <= early + 1
  {
    hide Rounds, RecordsBelow, FrameOf;
    var frame, rec := s.store.frame, RecordOf(e);
    var one, next := First(FrameIn(frame, 1)), First(FrameIn(frame, g - 1));
    RoundsMissOneRecord(frame, g - 2);
    FirstIsThere(FrameIn(frame, g - 1));
    assert rec !in next;
    assert rec !in multiset(next);
    assert |one| <= 1;
    AtMostOne(one, rec);
    var early, below := Rounds(frame, g - 2), RecordsBelow(frame, g - 1);
    assert (multiset(early) + multiset(one))[rec] == multiset(early)[rec] + multiset(one)[rec];
    assert (multiset(below) + multiset(next))[rec] == multiset(below)[rec] + multiset(next)[rec];
  }

  lemma AtMostOne<T>(a: seq<T>, x: T)
    requires |a| <= 1
    ensures multiset(a)[x] <= 1
  {
    if |a| == 1 { assert a == [a[0]]; }
  }

  // Deliveries that begin with at least two `x` and with at most one before a `z` are incomparable.
  lemma TwoStreams(hit: seq<Item>, good: seq<Item>, a: nat, b: nat, x: Transaction, z: Transaction)
    requires x != z && a >= 2 && b <= 1 && |hit| > a && |good| > b
    requires (forall t :: 0 <= t < a ==> hit[t].0 == x) && good[b].0 == z
    ensures !Comparable(hit[..2], if |good| >= 2 then good[..2] else good)
  {
    var short := if |good| >= 2 then good[..2] else good;
    assert hit[..2][b].0 == x && short[b].0 == z;
  }

  // After the hit, finality grows and later events pay.
  lemma GrowAfterHit(hit: History, k: Scene, z: Transaction) returns (g: FrameNumber, h0: History, h1: History)
    requires hit.Valid() && NoPolls(hit) && Holding(hit.Last(), k, hit.peers, 3)
    ensures g >= 3 && forall y :: y in hit.Last().dag ==> FrameOf(y, |hit.peers|) < g
    ensures h0 == hit.(pay := LateFee(z, g), base := hit.Last().dag)
    ensures Continues(h0, h1) && NoPolls(h1) && Paid(h1.Last(), LateFee(z, g), hit.Last().dag, |hit.peers|)
    ensures forall l :: l in hit.peers ==> l in hit.Last().nodes && l in h1.Last().nodes
    ensures forall l :: l in hit.peers && CoreExact(hit.Last().nodes[l], hit.peers) ==>
              CoreExact(h1.Last().nodes[l], hit.peers) && h1.Last().nodes[l].FirstNotFinalised() >= g + 1
  {
    hide IsRun, CoreExact, FrameOf, StillOpen, OnLeaves, Continues;
    var b := FrameBound(hit.Last().dag, |hit.peers|);
    g := if b >= 1 then b + 2 else 3;
    h0 := hit.(pay := LateFee(z, g), base := hit.Last().dag);
    assert Paid(h0.Last(), h0.pay, h0.base, |h0.peers|);
    hide Paid;
    h1 := FinalityCanGrow(h0, g + 1);
    ContinuesNoPolls(h0, h1);
  }

  // What the stream of an exact node looks like then.
  lemma EarlyAt(h1: History, l: PeerId, k: Scene, x: Transaction, z: Transaction, g: FrameNumber, base: set<EventHash>)
    requires h1.Valid() && l in h1.peers && l in h1.Last().nodes && CoreExact(h1.Last().nodes[l], h1.peers)
    requires h1.Last().nodes[l].FirstNotFinalised() >= g + 1 && g >= 3
    requires Paid(h1.Last(), LateFee(z, g), base, |h1.peers|) && k.x in base && FrameOf(k.x, |h1.peers|) <= 1
    requires forall y :: y in base ==> FrameOf(y, |h1.peers|) < g && Payload(y) == if y == k.x then [x] else []
    ensures var s := h1.Last().nodes[l];
            && |StreamItems(s)| > Early(s, g) && StreamItems(s)[Early(s, g)].0 == z
            && (forall t :: 0 <= t < Early(s, g) ==> StreamItems(s)[t].0 == x)
            && Early(s, g) <= CountBelow(s.store.frame, g - 1, RecordOf(k.x)) <= Early(s, g) + 1
  {
    hide IsRun, ClusterSound, Paid, FrameOf, StreamItems, Rounds, Full, CountBelow;
    LastIsSound(h1);
    var s := h1.Last().nodes[l];
    NodeCarries(s, h1.Last(), l, h1.peers, k.x, x, z, g, base);
    NodeIsFull(h1.Last(), l, h1.peers);
    StreamBegins(s, k.x, x, z, g);
    EarlyCounts(s, k.x, |h1.peers|, g);
  }

  // Three records at the hit node leave two for the stream at least.
  lemma ManyAtHit(hit: History, h0: History, h1: History, k: Scene, g: FrameNumber)
    requires hit.Valid() && Holding(hit.Last(), k, hit.peers, 3) && h0.run == hit.run && h0.steps == hit.steps
    requires Continues(h0, h1) && h0.peers == hit.peers && g >= 3 && k.i in h1.Last().nodes
    ensures CountBelow(h1.Last().nodes[k.i].store.frame, g - 1, RecordOf(k.x)) >= 3
  {
    hide IsRun, CoreExact, StillOpen, Light, FrameOf;
    var n, s, t := |hit.peers|, hit.Last().nodes[k.i], h1.Last().nodes[k.i];
    LowFrame(k, hit.peers);
    hide OnLeaves;
    StateStays(h0, h1);
    ContinuesIsValid(h0, h1);
    StatesGrow(h1.run, h1.steps, h1.lists, h1.peers, h1.digest, |h0.steps|, |h1.steps|);
    assert multiset(FrameIn(s.store.frame, FrameOf(k.x, n))) <= multiset(FrameIn(t.store.frame, FrameOf(k.x, n)));
    CountsAddUp(t.store.frame, g - 1, FrameOf(k.x, n), FrameOf(k.x, n), RecordOf(k.x));
  }

  // A node that is not hit has one at most.
  lemma FewAtGood(h1: History, j: PeerId, e: EventHash, g: FrameNumber)
    requires h1.Valid() && j in h1.peers && Unhit(h1.run, h1.steps, j, |h1.steps|) && g >= 1
    ensures j in h1.Last().nodes && CountBelow(h1.Last().nodes[j].store.frame, g - 1, RecordOf(e)) <= 1
  {
    hide IsRun, Unhit, CoreTrue, CoreExact, RecordsBelow;
    TrueWhileUnhit(h1.run, h1.steps, h1.lists, h1.peers, h1.digest, j, |h1.steps|);
    var s := h1.Last().nodes[j];
    TrueIsExact(s, h1.peers, h1.digest);
    FramesBelowAreDistinct(s.store.frame, s.store.event.Keys, g - 1, |h1.peers|);
    DistinctCounts(RecordsBelow(s.store.frame, g - 1));
  }

  lemma PollsParts(h: History, h': History, i: PeerId)
    requires Polls(h, h', i)
    ensures h'.Valid() && h'.peers == h.peers
  {
    hide IsRun;
  }

  // Polls of one node leave another where it was.
  lemma OthersUpToDate(c: Cluster, c': Cluster, i: PeerId, j: PeerId)
    requires OnlyPolled(c, c', i) && UpToDate(c, j) && i != j
    ensures UpToDate(c', j) && c'.nodes[j] == c.nodes[j] && c'.delivered[j] == c.delivered[j]
  {
    hide CursorSound, Before;
    assert c'.nodes[j] == c.nodes[j] && c'.delivered[j] == c.delivered[j];
  }

  lemma OtherDelivered(c: Cluster, c': Cluster, i: PeerId, j: PeerId)
    requires OnlyPolled(c, c', j) && i in c.delivered && i != j
    ensures i in c'.delivered && c'.delivered[i] == c.delivered[i]
  {
  }

  lemma LightParts(hit: History, k: Scene)
    requires hit.Valid() && Holding(hit.Last(), k, hit.peers, 3)
    ensures k.x in hit.Last().dag && FrameOf(k.x, |hit.peers|) <= 1
    ensures k.i in hit.Last().nodes && CoreExact(hit.Last().nodes[k.i], hit.peers)
    ensures forall y :: y in hit.Last().dag ==> Payload(y) == if y == k.x then k.gift else []
  {
    hide IsRun, CoreExact, StillOpen;
    LowFrame(k, hit.peers);
  }

  lemma UpToDateParts(c: Cluster, i: PeerId)
    requires UpToDate(c, i)
    ensures i in c.nodes && i in c.delivered
  {
  }

  // The state after the hit from which the two consumers poll.
  lemma StreamsPart(hit: History, k: Scene, j: PeerId, x: Transaction, z: Transaction)
    returns (h1: History, a: nat, b: nat)
    requires hit.Valid() && NoPolls(hit) && Holding(hit.Last(), k, hit.peers, 3) && k.gift == [x]
    requires j in hit.peers && k.i in hit.peers && Unhit(hit.run, hit.steps, j, |hit.steps|)
    ensures h1.Valid() && h1.peers == hit.peers && NoPolls(h1) && h1.run[0] == hit.run[0]
    ensures Unhit(h1.run, h1.steps, k.i, |h1.steps|) <==> Unhit(hit.run, hit.steps, k.i, |hit.steps|)
    ensures Unhit(h1.run, h1.steps, j, |h1.steps|)
    ensures k.i in h1.Last().nodes && j in h1.Last().nodes && a >= 2 && b <= 1
    ensures var hitItems, goodItems := StreamItems(h1.Last().nodes[k.i]), StreamItems(h1.Last().nodes[j]);
            && |hitItems| > a && (forall t :: 0 <= t < a ==> hitItems[t].0 == x)
            && |goodItems| > b && goodItems[b].0 == z
  {
    hide IsRun, CoreExact, CoreTrue, Continues, Holding, StreamItems, Paid, Unhit, FrameOf, NoPolls, Early, CountBelow;
    var g, h0;
    g, h0, h1 := GrowAfterHit(hit, k, z);
    ContinuesIsValid(h0, h1);
    StateStays(h0, h1);
    UnhitStays(h0, h1, k.i);
    UnhitStays(h0, h1, j);
    LightParts(hit, k);
    TrueWhileUnhit(hit.run, hit.steps, hit.lists, hit.peers, hit.digest, j, |hit.steps|);
    TrueIsExact(hit.Last().nodes[j], hit.peers, hit.digest);
    EarlyAt(h1, k.i, k, x, z, g, hit.Last().dag);
    EarlyAt(h1, j, k, x, z, g, hit.Last().dag);
    ManyAtHit(hit, h0, h1, k, g);
    FewAtGood(h1, j, k.x, g);
    a, b := Early(h1.Last().nodes[k.i], g), Early(h1.Last().nodes[j], g);
  }

  // From every start of two nodes or more, for any two nodes and any two different transactions, a run hits
  // one of the nodes, not the other, and their consumers receive items that are incomparable.
  lemma ConsumersNeedFreshness(c: Cluster, lists: Lists, peers: set<PeerId>, digest: EventHash -> nat,
                               i: PeerId, j: PeerId, x: Transaction, z: Transaction) returns (h: History)
    requires Initial(c, lists, peers) && i in peers && j in peers && i != j && x != z
    ensures h.Valid() && h.run[0] == c && h.peers == peers
    ensures !Unhit(h.run, h.steps, i, |h.steps|) && Unhit(h.run, h.steps, j, |h.steps|)
    ensures i in h.Last().delivered && j in h.Last().delivered
    ensures !Comparable(h.Last().delivered[i], h.Last().delivered[j])
  {
    hide Initial, IsRun, Unhit, Holding, Polls, UpToDate, Comparable, StreamItems, OnlyPolled, Hits, NoPolls;
    assert |peers| >= 2 by { CardinalitySubset({i, j}, peers); }
    var hit, k := HitRun(c, lists, peers, digest, i, [x], 3);
    var h1, a, b := StreamsPart(hit, k, j, x, z);
    NothingBefore(h1, i);
    NothingBefore(h1, j);
    var h2 := Drain(h1, i, 2);
    PollsParts(h1, h2, i);
    OthersUpToDate(h1.Last(), h2.Last(), i, j);
    h := Drain(h2, j, 2);
    PollsParts(h2, h, j);
    UpToDateParts(h2.Last(), i);
    UpToDateParts(h.Last(), j);
    OtherDelivered(h2.Last(), h.Last(), i, j);
    DrainHitsNobody(h1, h2, i);
    DrainHitsNobody(h2, h, j);
    TwoStreams(StreamItems(h1.Last().nodes[i]), StreamItems(h1.Last().nodes[j]), a, b, x, z);
  }
}
