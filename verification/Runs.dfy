/** What holds over whole runs of a cluster, for every number of peers, every interleaving of steps and every
    delay of messages. Results about frames are about nodes that no delivery has hit: `NodeIsTrueUntilHit` says
    that these are exactly the nodes whose frames can be trusted. */
module Runs {
  import opened Events
  import opened Frames
  import opened Peers
  import opened Stores
  import opened Dag
  import opened Cores
  import opened Refinement
  import opened Soundness
  import opened Freshness
  import opened Protocol
  import opened Nodes
  import opened Steps
  import opened Stream
  import opened Cluster

  type Lists = map<PeerId, PeersState>

  // The states a cluster goes through under `steps`.
  ghost predicate IsRun(run: seq<Cluster>, steps: seq<Step>, lists: Lists, peers: set<PeerId>, digest: EventHash -> nat)
  {
    && |run| == |steps| + 1
    && Initial(run[0], lists, peers)
    && forall k {:trigger steps[k]} :: 0 <= k < |steps| ==>
         Enabled(run[k], steps[k]) && run[k + 1] == Next(run[k], steps[k], digest)
  }

  lemma {:induction false} EveryStateIsSound(run: seq<Cluster>, steps: seq<Step>, lists: Lists, peers: set<PeerId>,
                                             digest: EventHash -> nat, k: nat)
    requires IsRun(run, steps, lists, peers, digest) && k < |run|
    ensures ClusterSound(run[k], peers)
  {
    hide ClusterSound, Initial, Enabled, Next;
    if k == 0 {
      InitialIsSound(run[0], lists, peers, digest);
    } else {
      EveryStateIsSound(run, steps, lists, peers, digest, k - 1);
      assert run[k] == Next(run[k - 1], steps[k - 1], digest);
      StepsKeep(run[k - 1], steps[k - 1], peers, digest);
    }
  }

  // Knowledge only grows, and no record or final frame is ever lost.
  lemma {:induction false} StatesGrow(run: seq<Cluster>, steps: seq<Step>, lists: Lists, peers: set<PeerId>,
                                      digest: EventHash -> nat, a: nat, b: nat)
    requires IsRun(run, steps, lists, peers, digest) && a <= b < |run|
    ensures run[a].dag <= run[b].dag && NodesGrow(run[a].nodes, run[b].nodes)
    decreases b - a
  {
    hide ClusterSound, Initial, Enabled, Next, RecordsGrow;
    if a == b {
      forall i | i in run[a].nodes ensures RecordsGrow(run[a].nodes[i], run[a].nodes[i]) {
        FinalityIsReflexive(run[a].nodes[i]);
      }
    } else {
      EveryStateIsSound(run, steps, lists, peers, digest, b - 1);
      assert run[b] == Next(run[b - 1], steps[b - 1], digest);
      StepsKeep(run[b - 1], steps[b - 1], peers, digest);
      StatesGrow(run, steps, lists, peers, digest, a, b - 1);
      GrowthIsTransitive(run[a].nodes, run[b - 1].nodes, run[b].nodes);
    }
  }

  lemma GrowthIsTransitive(a: map<PeerId, CoreState>, b: map<PeerId, CoreState>, c: map<PeerId, CoreState>)
    requires NodesGrow(a, b) && NodesGrow(b, c)
    ensures NodesGrow(a, c)
  {
    hide RecordsGrow;
    forall i | i in a ensures i in c && a[i].store.event.Keys <= c[i].store.event.Keys && RecordsGrow(a[i], c[i]) {
      RecordsGrowOn(a[i], b[i], c[i]);
    }
  }

  // Which nodes can be trusted

  // No delivery before state `k` brought node `i` an event that it had already.
  ghost predicate Unhit(run: seq<Cluster>, steps: seq<Step>, i: PeerId, k: nat)
    requires k <= |steps| && |run| == |steps| + 1
  {
    forall m {:trigger steps[m]} :: 0 <= m < k ==> !Hits(run[m], steps[m], i)
  }

  lemma {:induction false} TrueWhileUnhit(run: seq<Cluster>, steps: seq<Step>, lists: Lists, peers: set<PeerId>,
                                          digest: EventHash -> nat, i: PeerId, k: nat)
    requires IsRun(run, steps, lists, peers, digest) && k < |run| && i in peers && Unhit(run, steps, i, k)
    ensures i in run[k].nodes && CoreTrue(run[k].nodes[i], peers, digest)
  {
    hide ClusterSound, Initial, Enabled, Next, CoreTrue, Hits;
    if k == 0 {
      InitialIsSound(run[0], lists, peers, digest);
    } else {
      TrueWhileUnhit(run, steps, lists, peers, digest, i, k - 1);
      EveryStateIsSound(run, steps, lists, peers, digest, k - 1);
      assert run[k] == Next(run[k - 1], steps[k - 1], digest) && !Hits(run[k - 1], steps[k - 1], i);
      StepTruth(run[k - 1], steps[k - 1], i, peers, digest);
    }
  }

  // The first hit of a node gives an event of the reply a second record, for good.
  lemma HitIsForGood(run: seq<Cluster>, steps: seq<Step>, lists: Lists, peers: set<PeerId>,
                     digest: EventHash -> nat, i: PeerId, k: nat) returns (m: nat, h: EventHash)
    requires IsRun(run, steps, lists, peers, digest) && k < |run| && i in peers && !Unhit(run, steps, i, k)
    ensures m < k && Hits(run[m], steps[m], i) && h in HashesOf(steps[m].reply.events)
    ensures i in run[k].nodes && RecordedTwice(run[k].nodes[i].store.frame, h, |peers|)
    ensures !CoreTrue(run[k].nodes[i], peers, digest)
  {
    hide ClusterSound, Initial, Enabled, Next, CoreTrue, RecordedTwice, RecordsGrow, HashesOf, Stale;
    m := FirstHit(run, steps, i, k);
    TrueWhileUnhit(run, steps, lists, peers, digest, i, m);
    EveryStateIsSound(run, steps, lists, peers, digest, m);
    assert run[m + 1] == Next(run[m], steps[m], digest);
    StepTruth(run[m], steps[m], i, peers, digest);
    h :| h in HashesOf(steps[m].reply.events) && RecordedTwice(run[m + 1].nodes[i].store.frame, h, |peers|);
    StatesGrow(run, steps, lists, peers, digest, m + 1, k);
    RepeatedForGood(run[m + 1].nodes[i], run[k].nodes[i], h, peers, digest);
  }

  lemma {:induction false} FirstHit(run: seq<Cluster>, steps: seq<Step>, i: PeerId, k: nat) returns (m: nat)
    requires k <= |steps| && |run| == |steps| + 1 && !Unhit(run, steps, i, k)
    ensures m < k && Hits(run[m], steps[m], i) && Unhit(run, steps, i, m)
  {
    hide Hits;
    if k > 0 && !Unhit(run, steps, i, k - 1) {
      m := FirstHit(run, steps, i, k - 1);
    } else {
      m := k - 1;
    }
  }

  // A node's frames can be trusted exactly as long as no reply has brought it an event that it had already.
  // What happened to other nodes does not matter.
  lemma NodeIsTrueUntilHit(run: seq<Cluster>, steps: seq<Step>, lists: Lists, peers: set<PeerId>,
                           digest: EventHash -> nat, i: PeerId, k: nat)
    requires IsRun(run, steps, lists, peers, digest) && k < |run| && i in peers
    ensures i in run[k].nodes
    ensures CoreTrue(run[k].nodes[i], peers, digest) <==> Unhit(run, steps, i, k)
  {
    hide CoreTrue, Initial, Enabled, Next, Hits;
    if Unhit(run, steps, i, k) {
      TrueWhileUnhit(run, steps, lists, peers, digest, i, k);
    } else {
      var m, h := HitIsForGood(run, steps, lists, peers, digest, i, k);
    }
  }

  // Every node, hit or not, is exact or has some event twice in its final sequence for good.
  lemma {:induction false} ExactOrRepeats(run: seq<Cluster>, steps: seq<Step>, lists: Lists, peers: set<PeerId>,
                                          digest: EventHash -> nat, i: PeerId, k: nat)
    requires IsRun(run, steps, lists, peers, digest) && k < |run| && i in peers
    ensures i in run[k].nodes
    ensures CoreExact(run[k].nodes[i], peers) || RepeatsFinally(run[k].nodes[i], |peers|)
  {
    hide ClusterSound, Initial, Enabled, Next, CoreTrue, CoreExact, RepeatsFinally, RecordsGrow;
    if k == 0 {
      InitialIsSound(run[0], lists, peers, digest);
      TrueIsExact(run[0].nodes[i], peers, digest);
    } else {
      ExactOrRepeats(run, steps, lists, peers, digest, i, k - 1);
      EveryStateIsSound(run, steps, lists, peers, digest, k - 1);
      assert run[k] == Next(run[k - 1], steps[k - 1], digest);
      if CoreExact(run[k - 1].nodes[i], peers) {
        StepExactOrRepeats(run[k - 1], steps[k - 1], i, peers, digest);
      } else {
        StepsKeep(run[k - 1], steps[k - 1], peers, digest);
        RepeatsForGood(run[k - 1].nodes[i], run[k].nodes[i], peers, digest);
      }
    }
  }

  // What a trusted node tells.
  lemma TrustedNode(run: seq<Cluster>, steps: seq<Step>, lists: Lists, peers: set<PeerId>,
                    digest: EventHash -> nat, i: PeerId, k: nat, m: nat)
    requires IsRun(run, steps, lists, peers, digest) && k <= m < |run| && i in peers && Unhit(run, steps, i, k)
    ensures i in run[k].nodes && CoreTrue(run[k].nodes[i], peers, digest)
    ensures run[k].nodes[i].store.event.Keys <= run[k].dag <= run[m].dag && GraphTrue(run[m].dag, peers)
  {
    hide CoreTrue, IsRun, Unhit, StoreSound, FramesSound, GraphTrue;
    TrueWhileUnhit(run, steps, lists, peers, digest, i, k);
    EveryStateIsSound(run, steps, lists, peers, digest, k);
    EveryStateIsSound(run, steps, lists, peers, digest, m);
    StatesGrow(run, steps, lists, peers, digest, k, m);
    NodeAt(run[k], i, peers);
  }

  // Agreement

  // A node that is not hit never takes back or reorders anything it has finalised.
  lemma {:induction false} FinalityIsPermanent(run: seq<Cluster>, steps: seq<Step>, lists: Lists, peers: set<PeerId>,
                                               digest: EventHash -> nat, a: nat, b: nat, i: PeerId)
    requires IsRun(run, steps, lists, peers, digest) && a <= b < |run| && i in peers && Unhit(run, steps, i, b)
    ensures i in run[a].nodes && i in run[b].nodes && FinalityGrows(run[a].nodes[i], run[b].nodes[i])
    ensures FinalSequence(run[a].nodes[i]) <= FinalSequence(run[b].nodes[i])
    decreases b
  {
    hide Initial, Enabled, Next, CoreTrue, ClusterSound, Hits, FinalityGrows;
    TrueWhileUnhit(run, steps, lists, peers, digest, i, b);
    if a == b {
      FinalityIsReflexive(run[a].nodes[i]);
    } else {
      FinalityIsPermanent(run, steps, lists, peers, digest, a, b - 1, i);
      TrueWhileUnhit(run, steps, lists, peers, digest, i, b - 1);
      EveryStateIsSound(run, steps, lists, peers, digest, b - 1);
      assert run[b] == Next(run[b - 1], steps[b - 1], digest) && !Hits(run[b - 1], steps[b - 1], i);
      StepTruth(run[b - 1], steps[b - 1], i, peers, digest);
      FinalityIsTransitive(run[a].nodes[i], run[b - 1].nodes[i], run[b].nodes[i]);
    }
    FinalSequenceOnlyExtends(run[a].nodes[i], run[b].nodes[i]);
  }

  // Agreement: whatever any two nodes that are not hit have finalised at any two moments of a run, one
  // sequence of records is a prefix of the other.
  lemma Agreement(run: seq<Cluster>, steps: seq<Step>, lists: Lists, peers: set<PeerId>, digest: EventHash -> nat,
                  a: nat, i: PeerId, b: nat, j: PeerId)
    requires IsRun(run, steps, lists, peers, digest) && a < |run| && b < |run| && i in peers && j in peers
    requires Unhit(run, steps, i, a) && Unhit(run, steps, j, b) && Injective(digest, run[if a <= b then b else a].dag)
    ensures i in run[a].nodes && j in run[b].nodes
    ensures Comparable(FinalSequence(run[a].nodes[i]), FinalSequence(run[b].nodes[j]))
  {
    hide CoreTrue, IsRun, Unhit, FinalSequence, Injective;
    var m := if a <= b then b else a;
    TrustedNode(run, steps, lists, peers, digest, i, a, m);
    TrustedNode(run, steps, lists, peers, digest, j, b, m);
    var s, t := run[a].nodes[i], run[b].nodes[j];
    if s.FirstNotFinalised() <= t.FirstNotFinalised() {
      FinalSequencesAgree(s, t, run[m].dag, peers, digest);
    } else {
      FinalSequencesAgree(t, s, run[m].dag, peers, digest);
    }
  }

  // A node that was hit has some event recorded twice. Once that event's frame is final, its final sequence
  // and that of any node that was not hit are no longer comparable, as soon as the latter is long enough to
  // reach the second record.
  lemma HitNodeDisagrees(run: seq<Cluster>, steps: seq<Step>, lists: Lists, peers: set<PeerId>,
                         digest: EventHash -> nat, a: nat, i: PeerId, b: nat, j: PeerId) returns (h: EventHash)
    requires IsRun(run, steps, lists, peers, digest) && a < |run| && b < |run| && i in peers && j in peers
    requires !Unhit(run, steps, i, a) && Unhit(run, steps, j, b)
    ensures i in run[a].nodes && j in run[b].nodes && RecordedTwice(run[a].nodes[i].store.frame, h, |peers|)
    ensures var hit, good := FinalSequence(run[a].nodes[i]), FinalSequence(run[b].nodes[j]);
            FrameOf(h, |peers|) < run[a].nodes[i].FirstNotFinalised() ==>
              && multiset(hit)[RecordOf(h)] >= 2
              && forall k :: 0 <= k <= |hit| && multiset(hit[..k])[RecordOf(h)] >= 2 && k <= |good| ==>
                   !Comparable(good, hit)
  {
    hide CoreTrue, IsRun, Unhit, FinalSequence, RecordedTwice, FrameOf, HashesOf, Hits;
    var m;
    m, h := HitIsForGood(run, steps, lists, peers, digest, i, a);
    TrueWhileUnhit(run, steps, lists, peers, digest, j, b);
    var s, t := run[b].nodes[j], run[a].nodes[i];
    if FrameOf(h, |peers|) < t.FirstNotFinalised() {
      RepeatedInFinalSequence(t, h, |peers|);
      var hit, good := FinalSequence(t), FinalSequence(s);
      forall k | 0 <= k <= |hit| && multiset(hit[..k])[RecordOf(h)] >= 2 && k <= |good| ensures !Comparable(good, hit) {
        RepetitionBreaksAgreement(s, t, peers, digest, RecordOf(h), k);
      }
    }
  }

  // History independence: an event has the same frame number on every node that stores it and is not hit,
  // whatever order events arrived in and whatever had been finalised: the one the graph determines.
  lemma FrameNumbersAgree(run: seq<Cluster>, steps: seq<Step>, lists: Lists, peers: set<PeerId>,
                          digest: EventHash -> nat, a: nat, i: PeerId, h: EventHash)
    requires IsRun(run, steps, lists, peers, digest) && a < |run| && i in peers && Unhit(run, steps, i, a)
    ensures i in run[a].nodes
    ensures h in run[a].nodes[i].store.event ==>
              h.HashOf? && run[a].nodes[i].store.event[h] == EventAt(h, FrameOf(h, |peers|))
  {
    hide IsRun, Unhit;
    TrueWhileUnhit(run, steps, lists, peers, digest, i, a);
  }

  // Flag tables are an exact index of reachability: an event that step `m` brought to a node that is not hit
  // has, at every later moment, the table it was stored with, and that lists exactly the roots the event can
  // reach of every frame from the one first open at its insertion on, under their true frames; older entries
  // are true, too.
  lemma TablesAreExact(run: seq<Cluster>, steps: seq<Step>, lists: Lists, peers: set<PeerId>, digest: EventHash -> nat,
                       a: nat, i: PeerId, x: EventHash, m: nat)
    requires IsRun(run, steps, lists, peers, digest) && m < a < |run| && i in peers && Unhit(run, steps, i, a)
    requires i in run[m].nodes && i in run[m + 1].nodes
    requires x !in run[m].nodes[i].store.event && x in run[m + 1].nodes[i].store.event
    ensures i in run[a].nodes && x in run[a].nodes[i].store.flagTable && x in run[m + 1].nodes[i].store.flagTable
    ensures run[a].nodes[i].store.flagTable[x] == run[m + 1].nodes[i].store.flagTable[x]
    ensures TableTrue(run[a].nodes[i].store.flagTable[x], x, FirstWhenBrought(run[m], steps[m], i, x, digest), |peers|)
  {
    hide Initial, Enabled, Next, CoreTrue, ClusterSound, Hits, TableTrue, FirstWhenBrought, FinalSequence;
    TrueWhileUnhit(run, steps, lists, peers, digest, i, m);
    EveryStateIsSound(run, steps, lists, peers, digest, m);
    assert run[m + 1] == Next(run[m], steps[m], digest) && !Hits(run[m], steps[m], i);
    StepTables(run[m], steps[m], i, peers, digest, x);
    FinalityIsPermanent(run, steps, lists, peers, digest, m + 1, a, i);
  }

  // Every event but a leaf was brought by some step.
  lemma {:induction false} SomeStepBrought(run: seq<Cluster>, steps: seq<Step>, lists: Lists, peers: set<PeerId>,
                                           digest: EventHash -> nat, a: nat, i: PeerId, x: EventHash) returns (m: nat)
    requires IsRun(run, steps, lists, peers, digest) && a < |run| && i in peers
    requires i in run[a].nodes && x in run[a].nodes[i].store.event
    requires i in run[0].nodes && x !in run[0].nodes[i].store.event
    ensures m < a && i in run[m].nodes && i in run[m + 1].nodes
    ensures x !in run[m].nodes[i].store.event && x in run[m + 1].nodes[i].store.event
  {
    hide Initial, Enabled, Next, ClusterSound;
    EveryStateIsSound(run, steps, lists, peers, digest, a - 1);
    HasNode(run[a - 1], peers, i);
    if x in run[a - 1].nodes[i].store.event {
      m := SomeStepBrought(run, steps, lists, peers, digest, a - 1, i, x);
    } else {
      m := a - 1;
    }
  }

  // The table of an event moreover is exact from the event's own frame on, wherever the event is stored and
  // not hit.
  lemma OwnTablesAreExact(run: seq<Cluster>, steps: seq<Step>, lists: Lists, peers: set<PeerId>,
                          digest: EventHash -> nat, a: nat, i: PeerId, x: EventHash)
    requires IsRun(run, steps, lists, peers, digest) && a < |run| && i in peers && Unhit(run, steps, i, a)
    ensures i in run[a].nodes
    ensures x in run[a].nodes[i].store.event ==>
              && x in run[a].nodes[i].store.flagTable
              && TableTrue(run[a].nodes[i].store.flagTable[x], x, FrameOf(x, |peers|), |peers|)
  {
    hide IsRun, Unhit, TableTrue;
    TrueWhileUnhit(run, steps, lists, peers, digest, i, a);
    TrueIsExact(run[a].nodes[i], peers, digest);
  }

  // Finalised frames are complete for good: once a node that is not hit has finalised frame `f` it holds
  // every event of that frame that any node ever creates, before or after.
  lemma FinalFramesAreComplete(run: seq<Cluster>, steps: seq<Step>, lists: Lists, peers: set<PeerId>,
                               digest: EventHash -> nat, a: nat, i: PeerId, b: nat, h: EventHash)
    requires IsRun(run, steps, lists, peers, digest) && a < |run| && b < |run| && i in peers
    requires Unhit(run, steps, i, a) && i in run[a].nodes
    requires h in run[b].dag && FrameOf(h, |peers|) < run[a].nodes[i].FirstNotFinalised()
    ensures RecordOf(h) in FrameIn(run[a].nodes[i].store.frame, FrameOf(h, |peers|))
  {
    hide IsRun, Unhit, FrameOf, Ancestors;
    var m := if a <= b then b else a;
    TrustedNode(run, steps, lists, peers, digest, i, a, m);
    StatesGrow(run, steps, lists, peers, digest, b, m);
    var s := run[a].nodes[i];
    CoveredFramesAreComplete(s.store.event.Keys, run[m].dag, peers, s.FirstNotFinalised(), h);
    assert FrameTrue(FrameIn(s.store.frame, FrameOf(h, |peers|)), FrameOf(h, |peers|), s.store.event.Keys, |peers|);
  }

  // The consumers

  // A step other than a node's own poll leaves its consumer alone.
  lemma OthersLeaveCursor(c: Cluster, step: Step, i: PeerId, peers: set<PeerId>, digest: EventHash -> nat)
    requires ClusterSound(c, peers) && Enabled(c, step) && i in peers && step != Consume(i)
    ensures var c' := Next(c, step, digest);
            && i in c.nodes && i in c'.nodes && i in c.delivered && i in c'.delivered
            && c'.nodes[i].cursor == c.nodes[i].cursor && c'.delivered[i] == c.delivered[i]
  {
    HasNode(c, peers, i);
    if step.Create? || step.Deliver? {
      hide ClusterSound, Created, Delivered, CanCreate;
      if step.Create? { CreationLeavesCursor(c, step.node, step.other, peers, digest); }
      if step.Deliver? { DeliveryLeavesCursor(c, step.reply, peers, digest); }
    } else {
      PlainStepLeavesCursor(c, step, i, digest);
    }
  }

  lemma PlainStepLeavesCursor(c: Cluster, step: Step, i: PeerId, digest: EventHash -> nat)
    requires Enabled(c, step) && i in c.nodes && i in c.delivered && step != Consume(i)
    requires !step.Create? && !step.Deliver?
    ensures var c' := Next(c, step, digest);
            && i in c'.nodes && i in c'.delivered
            && c'.nodes[i].cursor == c.nodes[i].cursor && c'.delivered[i] == c.delivered[i]
  {
    hide Polled, RequestOf, ReplyTo;
  }

  lemma HasNode(c: Cluster, peers: set<PeerId>, i: PeerId)
    requires ClusterSound(c, peers) && i in peers
    ensures i in c.nodes && i in c.delivered
  {
  }

  lemma CreationLeavesCursor(c: Cluster, k: PeerId, j: PeerId, peers: set<PeerId>, digest: EventHash -> nat)
    requires ClusterSound(c, peers) && Enabled(c, Create(k, j))
    ensures Created(c.nodes[k], j, digest).cursor == c.nodes[k].cursor
  {
    hide ClusterSound, NodeSound, Created, CanCreate;
    NodeAt(c, k, peers);
    NodeAt(c, j, peers);
    CreatedIsSound(c.nodes[k], k, c.dag, peers, digest, j);
  }

  lemma DeliveryLeavesCursor(c: Cluster, reply: SyncReply, peers: set<PeerId>, digest: EventHash -> nat)
    requires ClusterSound(c, peers) && Enabled(c, Deliver(reply))
    ensures Delivered(c.nodes[reply.to], reply, digest).cursor == c.nodes[reply.to].cursor
  {
    hide ClusterSound, NodeSound, Delivered, CoreTrue, CanApply;
    DeliveryIsSound(c, reply, peers, digest);
  }

  // In every reachable state the cursor of every node, hit or not, points into its stream.
  lemma {:induction false} CursorOfRun(run: seq<Cluster>, steps: seq<Step>, lists: Lists, peers: set<PeerId>,
                                       digest: EventHash -> nat, k: nat, i: PeerId)
    requires IsRun(run, steps, lists, peers, digest) && k < |run| && i in peers && |peers| >= 2
    ensures i in run[k].nodes && i in run[k].delivered && CursorSound(run[k].nodes[i])
  {
    hide Initial, Enabled, Next, ClusterSound, CursorSound, Polled, Full, RecordsGrow;
    EveryStateIsSound(run, steps, lists, peers, digest, k);
    HasNode(run[k], peers, i);
    if k == 0 {
      StreamStarts(run[0], lists, peers, i);
      StreamIsPlaced(run[0].nodes[i], run[0].delivered[i]);
    } else {
      var c, step := run[k - 1], steps[k - 1];
      CursorOfRun(run, steps, lists, peers, digest, k - 1, i);
      EveryStateIsSound(run, steps, lists, peers, digest, k - 1);
      assert run[k] == Next(c, step, digest);
      if step == Consume(i) {
        PollKeepsCursor(c, i, digest);
      } else {
        OthersLeaveCursor(c, step, i, peers, digest);
        StepsKeep(c, step, peers, digest);
        NodeIsFull(run[k], i, peers);
        CursorStaysSound(c.nodes[i], run[k].nodes[i]);
      }
    }
  }

  lemma StreamIsPlaced(s: CoreState, items: seq<Item>)
    requires StreamTrue(s, items)
    ensures CursorSound(s) && items == Before(s)
  {
    ReceivedIsBefore(s.store, s.cursor, s.FirstNotFinalised(), items);
  }

  lemma NodeIsFull(c: Cluster, i: PeerId, peers: set<PeerId>)
    requires ClusterSound(c, peers) && i in peers && |peers| >= 2
    ensures i in c.nodes && Full(c.nodes[i].store, c.nodes[i].FirstNotFinalised())
  {
    HasNode(c, peers, i);
    hide ClusterSound, NodeSound, FramesSound, Full;
    NodeAt(c, i, peers);
    NodePeersAreValid(c.nodes[i], i, c.dag, peers);
    CountOfIds(c.nodes[i].peers.peers);
    SoundIsFull(c.nodes[i]);
  }

  lemma PollKeepsCursor(c: Cluster, i: PeerId, digest: EventHash -> nat)
    requires Enabled(c, Consume(i)) && CursorSound(c.nodes[i])
    ensures var c' := Next(c, Consume(i), digest);
            && i in c'.nodes && i in c'.delivered
            && c'.nodes[i] == Polled(c.nodes[i]).0 && c'.delivered[i] == c.delivered[i] + Polled(c.nodes[i]).1
            && CursorSound(c'.nodes[i])
  {
    hide CursorSound, Polled;
    PollServesTheCursor(c.nodes[i]);
  }

  // At every moment the consumer of a node that is not hit has received what lies before the cursor.
  lemma {:induction false} StreamOfRun(run: seq<Cluster>, steps: seq<Step>, lists: Lists, peers: set<PeerId>,
                                       digest: EventHash -> nat, k: nat, i: PeerId)
    requires IsRun(run, steps, lists, peers, digest) && k < |run| && i in peers && Unhit(run, steps, i, k)
    requires |peers| >= 2
    ensures i in run[k].nodes && i in run[k].delivered && StreamTrue(run[k].nodes[i], run[k].delivered[i])
  {
    hide Initial, Enabled, Next, CoreTrue, ClusterSound, Hits, FinalityGrows, StreamTrue, Polled, Full;
    if k == 0 {
      StreamStarts(run[0], lists, peers, i);
    } else {
      var c, step := run[k - 1], steps[k - 1];
      StreamOfRun(run, steps, lists, peers, digest, k - 1, i);
      EveryStateIsSound(run, steps, lists, peers, digest, k - 1);
      TrueWhileUnhit(run, steps, lists, peers, digest, i, k - 1);
      TrueWhileUnhit(run, steps, lists, peers, digest, i, k);
      assert run[k] == Next(c, step, digest) && !Hits(c, step, i);
      if step == Consume(i) {
        PollIsServed(c, i, digest);
      } else {
        OthersLeaveCursor(c, step, i, peers, digest);
        StepTruth(c, step, i, peers, digest);
        EveryStateIsSound(run, steps, lists, peers, digest, k);
        NodeIsFull(run[k], i, peers);
        StreamStaysTrue(c.nodes[i], run[k].nodes[i], c.delivered[i]);
      }
    }
  }

  lemma PollIsServed(c: Cluster, i: PeerId, digest: EventHash -> nat)
    requires Enabled(c, Consume(i)) && StreamTrue(c.nodes[i], c.delivered[i])
    ensures var c' := Next(c, Consume(i), digest);
            i in c'.nodes && i in c'.delivered && StreamTrue(c'.nodes[i], c'.delivered[i])
  {
    hide StreamTrue, Polled;
    PollServesTheNext(c.nodes[i], c.delivered[i]);
  }

  lemma StreamStarts(c: Cluster, lists: Lists, peers: set<PeerId>, i: PeerId)
    requires Initial(c, lists, peers) && i in peers
    ensures i in c.nodes && i in c.delivered && StreamTrue(c.nodes[i], c.delivered[i])
  {
    assert HasBooted(c, i, lists[i], peers);
  }

  // Every poll of every node, hit or not, serves exactly the item of its stream that the cursor has come to,
  // waits only when nothing open is left, and never fails. At a node that is not hit the items before the
  // cursor are those its consumer has received.
  lemma PollsServeInOrder(run: seq<Cluster>, steps: seq<Step>, lists: Lists, peers: set<PeerId>,
                          digest: EventHash -> nat, k: nat, i: PeerId)
    requires IsRun(run, steps, lists, peers, digest) && k < |steps| && steps[k] == Consume(i)
    requires |peers| >= 2 && i in peers
    ensures i in run[k].nodes && i in run[k].delivered && i in run[k + 1].delivered && i in run[k + 1].nodes
    ensures CursorSound(run[k].nodes[i]) && CursorSound(run[k + 1].nodes[i])
    ensures var s, before := run[k].nodes[i], Before(run[k].nodes[i]);
            var served := if |before| < |StreamItems(s)| then [StreamItems(s)[|before|]] else [];
            && (s.lastFinalisedFrame.Some? ==> !Poll(s.store, s.cursor, s.lastFinalisedFrame.value).Panics?)
            && before <= StreamItems(s) && Before(run[k + 1].nodes[i]) == before + served
            && run[k + 1].delivered[i] == run[k].delivered[i] + served
    ensures Unhit(run, steps, i, k) ==> run[k].delivered[i] == Before(run[k].nodes[i])
  {
    hide Initial, StreamTrue, CursorSound, Before, StreamItems, Poll, Polled, Hits;
    CursorOfRun(run, steps, lists, peers, digest, k, i);
    assert Enabled(run[k], steps[k]) && run[k + 1] == Next(run[k], steps[k], digest);
    hide Next, Enabled;
    if Unhit(run, steps, i, k) {
      StreamOfRun(run, steps, lists, peers, digest, k, i);
      StreamIsPlaced(run[k].nodes[i], run[k].delivered[i]);
    }
    hide IsRun, Unhit;
    PollKeepsCursor(run[k], i, digest);
    PollServesTheCursor(run[k].nodes[i]);
  }

  // Consumers agree: what the consumers of any two nodes that are not hit have received at any two moments
  // are the same items in the same order, as far as both go.
  lemma ConsumersAgree(run: seq<Cluster>, steps: seq<Step>, lists: Lists, peers: set<PeerId>,
                       digest: EventHash -> nat, a: nat, i: PeerId, b: nat, j: PeerId)
    requires IsRun(run, steps, lists, peers, digest) && a < |run| && b < |run| && i in peers && j in peers
    requires |peers| >= 2 && Unhit(run, steps, i, a) && Unhit(run, steps, j, b)
    requires Injective(digest, run[if a <= b then b else a].dag)
    ensures i in run[a].delivered && j in run[b].delivered
    ensures Comparable(run[a].delivered[i], run[b].delivered[j])
  {
    hide CoreTrue, IsRun, Unhit, StreamItems, StreamTrue, Injective, Polled, Poll;
    var m := if a <= b then b else a;
    TrustedNode(run, steps, lists, peers, digest, i, a, m);
    TrustedNode(run, steps, lists, peers, digest, j, b, m);
    StreamOfRun(run, steps, lists, peers, digest, a, i);
    StreamOfRun(run, steps, lists, peers, digest, b, j);
    PollServesTheNext(run[a].nodes[i], run[a].delivered[i]);
    PollServesTheNext(run[b].nodes[j], run[b].delivered[j]);
    StreamsAgree(run[a].nodes[i], run[b].nodes[j], run[m].dag, peers, digest);
    var s, t := run[a].nodes[i], run[b].nodes[j];
    PrefixesCompare(run[a].delivered[i], StreamItems(s), run[b].delivered[j], StreamItems(t));
  }

  lemma PrefixesCompare<T>(a: seq<T>, x: seq<T>, b: seq<T>, y: seq<T>)
    requires a <= x && b <= y && Comparable(x, y)
    ensures Comparable(a, b)
  {
    var longer := if x <= y then y else x;
    assert a == longer[..|a|] && b == longer[..|b|];
  }

  // What holds of every node, hit or not

  // In every reachable state every node's peer list names, for each peer, the last of that peer's events
  // in the node's store, and the store finds it there.
  lemma HeightsNameStoredEvents(run: seq<Cluster>, steps: seq<Step>, lists: Lists, peers: set<PeerId>,
                                digest: EventHash -> nat, k: nat, i: PeerId, p: Peer)
    requires IsRun(run, steps, lists, peers, digest) && k < |run| && i in peers
    requires i in run[k].nodes && p in run[k].nodes[i].peers.peers
    ensures (p.id, p.height) in run[k].nodes[i].store.eventOf
    ensures run[k].nodes[i].store.eventOf[(p.id, p.height)].hash in run[k].nodes[i].store.event
    ensures forall h :: h in run[k].nodes[i].store.event && Creator(h) == p.id ==> HeightOf(h) <= p.height
  {
    hide Initial, Enabled, Next, IsRun, ClusterSound, StoreSound, FramesSound;
    EveryStateIsSound(run, steps, lists, peers, digest, k);
    NodeAt(run[k], i, peers);
    var s := run[k].nodes[i];
    var at :| 0 <= at < |s.peers.peers| && s.peers.peers[at] == p;
    FindsEveryPeer(s.peers.peers, at);
    assert p.id in IdsOf(s.peers.peers);
    HeadIsStored(s, i, run[k].dag, peers, p.id);
  }

  // The graph of all events ever created is closed under parents and free of forks.
  lemma GraphOfRun(run: seq<Cluster>, steps: seq<Step>, lists: Lists, peers: set<PeerId>,
                   digest: EventHash -> nat, k: nat)
    requires IsRun(run, steps, lists, peers, digest) && k < |run|
    ensures Closed(run[k].dag, peers) && ForkFree(run[k].dag)
  {
    hide IsRun, MessagesTrue, AllConserved, NodesSound;
    EveryStateIsSound(run, steps, lists, peers, digest, k);
  }

  // The clock condition: every node's clock is at least every Lamport time it stores, every reply's clock
  // at least those of the events it carries, and every event is later than all its ancestors.
  lemma ClockCondition(run: seq<Cluster>, steps: seq<Step>, lists: Lists, peers: set<PeerId>,
                       digest: EventHash -> nat, k: nat)
    requires IsRun(run, steps, lists, peers, digest) && k < |run|
    ensures forall i, h :: i in run[k].nodes && h in run[k].nodes[i].store.event ==>
              Lamport(h) <= run[k].nodes[i].lamportTime
    ensures forall reply, e :: reply in run[k].replies && e in reply.events ==> e.lamportTimestamp <= reply.lamportTime
    ensures forall h, a :: h in run[k].dag && a in Ancestors(h) && a != h ==> Lamport(a) < Lamport(h)
  {
    hide Initial, Enabled, Next, IsRun, AllConserved, StoreSound, FramesSound;
    EveryStateIsSound(run, steps, lists, peers, digest, k);
    var c := run[k];
    forall i, h | i in c.nodes && h in c.nodes[i].store.event ensures Lamport(h) <= c.nodes[i].lamportTime {
      assert NodeSound(c.nodes[i], i, c.dag, peers);
    }
    forall reply, e | reply in c.replies && e in reply.events ensures e.lamportTimestamp <= reply.lamportTime {
      assert ReplyTrue(reply, c.nodes, c.dag);
    }
    forall h, a | h in c.dag && a in Ancestors(h) && a != h ensures Lamport(a) < Lamport(h) {
      LamportIncreases(c.dag, peers, h, a);
    }
  }

  // Conservation: what was submitted to a node is, in order and without loss or repetition, what the events
  // on its own chain carry followed by what is still in its pool.
  lemma TransactionsAreConserved(run: seq<Cluster>, steps: seq<Step>, lists: Lists, peers: set<PeerId>,
                                 digest: EventHash -> nat, k: nat, i: PeerId, h: EventHash)
    requires IsRun(run, steps, lists, peers, digest) && k < |run| && i in peers
    requires h in run[k].dag && Creator(h) == i && IsHead(i, HeightOf(h), run[k].dag)
    ensures i in run[k].nodes && i in run[k].submitted
    ensures ChainTransactions(h) + run[k].nodes[i].txPool == run[k].submitted[i]
    ensures |Payload(h)| <= TRANSACTIONS_LIMIT
  {
    hide Initial, Enabled, Next, IsRun, NodeSound, MessagesTrue, GraphTrue, StoreSound;
    EveryStateIsSound(run, steps, lists, peers, digest, k);
    var c := run[k];
    NodeAt(c, i, peers);
    NodePeersAreValid(c.nodes[i], i, c.dag, peers);
    assert h in c.nodes[i].store.event.Keys;
    assert IsHead(i, HeightOf(h), c.nodes[i].store.event.Keys);
  }

  // What a node needs for a round of procedure A: the contact is another peer, and both parents are stored.
  lemma ContactIsReady(s: CoreState, i: PeerId, dag: set<EventHash>, peers: set<PeerId>)
    requires NodeSound(s, i, dag, peers) && GraphTrue(dag, peers) && i in peers && |peers| >= 2
    ensures s.peers.n == |s.peers.peers| > 0
    ensures var t, other := s.(peers := s.peers.Advanced()), RequestOf(s).to;
            other in peers && other != i && CanCreate(t, other) && KnowsParents(t.store, NewEvent(t, other))
  {
    hide StoreSound, FramesSound, NewEvent, CanCreate, RequestOf, HeadsTrue, GraphTrue;
    var t := s.(peers := s.peers.Advanced());
    NodePeersAreValid(s, i, dag, peers);
    ContactIsPeer(s, i, dag, peers);
    NodeStaysSound(s, t, i, dag, peers);
    NewEventIsFresh(t, i, dag, peers, RequestOf(s).to);
  }

  // Procedure A is never stuck: a node that has asked finds both parents of its next event stored and can
  // create it, and one that has not can ask another peer and will find them.
  lemma ProcedureAFindsItsParents(c: Cluster, i: PeerId, peers: set<PeerId>)
    requires ClusterSound(c, peers) && i in peers && |peers| >= 2
    ensures i in c.nodes && c.nodes[i].peers.n == |c.nodes[i].peers.peers| > 0
    ensures i !in c.pending ==> Enabled(c, Request(i))
    ensures i in c.pending ==> Enabled(c, Create(i, c.pending[i]))
    ensures i in c.pending ==> KnowsParents(c.nodes[i].store, NewEvent(c.nodes[i], c.pending[i]))
    ensures var s, other := c.nodes[i].(peers := c.nodes[i].peers.Advanced()), RequestOf(c.nodes[i]).to;
            && other in peers && other != i
            && CanCreate(s, other) && KnowsParents(s.store, NewEvent(s, other))
  {
    hide ClusterSound, NodeSound, NewEvent, CanCreate, RequestOf, PendingTrue, GraphTrue;
    HasNode(c, peers, i);
    NodeAt(c, i, peers);
    ContactIsReady(c.nodes[i], i, c.dag, peers);
    if i in c.pending {
      PendingIsPeer(c, i, peers);
      HasNode(c, peers, c.pending[i]);
      NewEventIsFresh(c.nodes[i], i, c.dag, peers, c.pending[i]);
    }
  }

  lemma PendingIsPeer(c: Cluster, i: PeerId, peers: set<PeerId>)
    requires ClusterSound(c, peers) && i in c.pending && |peers| >= 2
    ensures c.pending[i] in peers && c.pending[i] != i
  {
  }
}
