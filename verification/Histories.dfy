/** Building runs: a history is a run that can be taken further, and a meeting is one round of procedure A in which
    the contact's answer arrives before the event is created. */
module Histories {
  import opened Wrappers
  import opened Events
  import opened Peers
  import opened Dag
  import opened Cores
  import opened Refinement
  import opened Soundness
  import opened Protocol
  import opened Nodes
  import opened Steps
  import opened Cluster
  import opened Runs
  import opened Schedules

  // `pay` says which transaction to submit before an event of a given frame is created; the events of `base`
  // are exempt.
  datatype History = History(
    run: seq<Cluster>, steps: seq<Step>, lists: Lists, peers: set<PeerId>, digest: EventHash -> nat,
    pay: FrameNumber -> Option<Transaction>, base: set<EventHash>)
  {
    ghost predicate Valid() { IsRun(run, steps, lists, peers, digest) && |run| == |steps| + 1 && |peers| >= 2 }

    ghost function Last(): Cluster
      requires |run| == |steps| + 1
    {
      run[|steps|]
    }
  }

  // A step that hits nobody and is no poll.
  ghost predicate Quiet(c: Cluster, step: Step) {
    !step.Consume? && forall i {:trigger Hits(c, step, i)} :: !Hits(c, step, i)
  }

  // `h'` goes on from `h` by quiet steps.
  ghost predicate Continues(h: History, h': History) {
    && h.Valid() && h'.Valid()
    && h'.lists == h.lists && h'.peers == h.peers && h'.digest == h.digest && h'.pay == h.pay && h'.base == h.base
    && |h.steps| <= |h'.steps| && h'.run[..|h.run|] == h.run && h'.steps[..|h.steps|] == h.steps
    && forall m {:trigger h'.steps[m]} :: |h.steps| <= m < |h'.steps| ==> Quiet(h'.run[m], h'.steps[m])
  }

  lemma Stay(h: History)
    requires h.Valid()
    ensures Continues(h, h)
  {
    hide IsRun;
  }

  lemma GoOn(h: History, h': History, h'': History)
    requires Continues(h, h') && Continues(h', h'')
    ensures Continues(h, h'')
  {
    hide IsRun, Quiet;
    assert h''.run[..|h.run|] == h''.run[..|h'.run|][..|h.run|];
    assert h''.steps[..|h.steps|] == h''.steps[..|h'.steps|][..|h.steps|];
    forall m | |h.steps| <= m < |h''.steps| ensures Quiet(h''.run[m], h''.steps[m]) {
      if m < |h'.steps| {
        assert h''.steps[m] == h'.steps[m] && h''.run[m] == h'.run[m];
      }
    }
  }

  lemma Append(h: History, step: Step) returns (h': History)
    requires h.Valid() && Enabled(h.Last(), step)
    ensures h'.Valid() && h' == h.(run := h.run + [Next(h.Last(), step, h.digest)], steps := h.steps + [step])
    ensures h'.Last() == Next(h.Last(), step, h.digest)
  {
    hide Initial, Enabled, Next;
    h' := h.(run := h.run + [Next(h.Last(), step, h.digest)], steps := h.steps + [step]);
    forall k | 0 <= k < |h'.steps|
      ensures Enabled(h'.run[k], h'.steps[k]) && h'.run[k + 1] == Next(h'.run[k], h'.steps[k], h.digest)
    {
      if k < |h.steps| { assert h'.steps[k] == h.steps[k]; }
    }
  }

  lemma Take(h: History, step: Step) returns (h': History)
    requires h.Valid() && Enabled(h.Last(), step) && Quiet(h.Last(), step)
    ensures Continues(h, h') && h'.Last() == Next(h.Last(), step, h.digest)
    ensures h' == h.(run := h'.run, steps := h.steps + [step])
  {
    hide IsRun, Enabled, Next, Quiet;
    h' := Append(h, step);
  }

  lemma LastIsSound(h: History)
    requires h.Valid()
    ensures ClusterSound(h.Last(), h.peers)
  {
    hide IsRun, ClusterSound;
    EveryStateIsSound(h.run, h.steps, h.lists, h.peers, h.digest, |h.steps|);
  }

  lemma Begin(c: Cluster, lists: Lists, peers: set<PeerId>, digest: EventHash -> nat,
              pay: FrameNumber -> Option<Transaction>) returns (h: History)
    requires Initial(c, lists, peers) && |peers| >= 2
    ensures h == History([c], [], lists, peers, digest, pay, {}) && h.Valid() && h.Last().pending == map[]
  {
    h := History([c], [], lists, peers, digest, pay, {});
  }

  // What a continuation keeps

  lemma ContinuesIsValid(h: History, h': History)
    requires Continues(h, h')
    ensures h'.Valid() && h'.peers == h.peers && h'.pay == h.pay && h'.base == h.base
    ensures h'.lists == h.lists && h'.digest == h.digest && |h.steps| <= |h'.steps|
  {
    hide IsRun;
  }

  lemma StateStays(h: History, h': History)
    requires Continues(h, h')
    ensures |h.steps| < |h'.run| && h'.run[|h.steps|] == h.Last() && h'.run[0] == h.run[0]
  {
    hide IsRun;
    assert h'.run[|h.steps|] == h'.run[..|h.run|][|h.steps|];
    assert h'.run[0] == h'.run[..|h.run|][0];
  }

  // A continuation of a start hits nobody.
  lemma AllUnhit(h: History, h': History)
    requires Continues(h, h') && h.steps == []
    ensures forall k :: Unhit(h'.run, h'.steps, k, |h'.steps|)
  {
    hide IsRun, Hits;
    forall k ensures Unhit(h'.run, h'.steps, k, |h'.steps|) {
      UnhitStays(h, h', k);
    }
  }

  lemma UnhitStays(h: History, h': History, i: PeerId)
    requires Continues(h, h')
    ensures Unhit(h.run, h.steps, i, |h.steps|) <==> Unhit(h'.run, h'.steps, i, |h'.steps|)
  {
    hide IsRun, Hits;
    assert forall m :: 0 <= m < |h.steps| ==> h'.steps[m] == h.steps[m] && h'.run[m] == h.run[m];
  }

  lemma {:induction false} ExactStays(h: History, h': History, i: PeerId, m: nat)
    requires Continues(h, h') && i in h.peers && |h.steps| <= m <= |h'.steps|
    requires i in h.Last().nodes && CoreExact(h.Last().nodes[i], h.peers)
    ensures i in h'.run[m].nodes && CoreExact(h'.run[m].nodes[i], h.peers)
    decreases m
  {
    hide Initial, Enabled, Next, CoreExact, ClusterSound, Tolerable;
    if m == |h.steps| {
      assert h'.run[m] == h'.run[..|h.run|][m];
    } else {
      ExactStays(h, h', i, m - 1);
      var c, step := h'.run[m - 1], h'.steps[m - 1];
      EveryStateIsSound(h'.run, h'.steps, h'.lists, h'.peers, h'.digest, m - 1);
      QuietIsTolerable(c, step, i, h.peers);
      assert h'.run[m] == Next(c, step, h'.digest);
      StepIsExact(c, step, i, h.peers, h.digest);
    }
  }

  lemma QuietIsTolerable(c: Cluster, step: Step, i: PeerId, peers: set<PeerId>)
    requires Quiet(c, step)
    ensures Tolerable(c, step, i, peers)
  {
    assert !Hits(c, step, i);
  }

  // Without polls nothing is delivered and no cursor moves.
  ghost predicate NoPolls(h: History) { forall m {:trigger h.steps[m]} :: 0 <= m < |h.steps| ==> !h.steps[m].Consume? }

  lemma ContinuesNoPolls(h: History, h': History)
    requires Continues(h, h') && NoPolls(h)
    ensures NoPolls(h')
  {
    hide IsRun, Hits;
    forall m | 0 <= m < |h'.steps| ensures !h'.steps[m].Consume? {
      if m < |h.steps| {
        assert h'.steps[m] == h'.steps[..|h.steps|][m];
      } else {
        assert Quiet(h'.run[m], h'.steps[m]);
      }
    }
  }

  lemma {:induction false} NothingPolled(h: History, i: PeerId, m: nat)
    requires h.Valid() && NoPolls(h) && i in h.peers && m <= |h.steps|
    ensures i in h.run[m].nodes && i in h.run[m].delivered && h.run[m].delivered[i] == []
    ensures h.run[m].nodes[i].cursor == Cursor(None, Some(0), Some(0))
    decreases m
  {
    hide Enabled, Next, ClusterSound;
    if m == 0 {
      assert HasBooted(h.run[0], i, h.lists[i], h.peers);
    } else {
      NothingPolled(h, i, m - 1);
      EveryStateIsSound(h.run, h.steps, h.lists, h.peers, h.digest, m - 1);
      assert h.run[m] == Next(h.run[m - 1], h.steps[m - 1], h.digest);
      OthersLeaveCursor(h.run[m - 1], h.steps[m - 1], i, h.peers, h.digest);
    }
  }

  // The event a creation would make, and the peer a request would go to.

  ghost function EventMade(c: Cluster, i: PeerId, j: PeerId): EventHash
    requires Enabled(c, Create(i, j))
  {
    NewEvent(c.nodes[i], j).hash
  }

  ghost function ContactOf(c: Cluster, i: PeerId): PeerId
    requires Enabled(c, Request(i))
  {
    RequestOf(c.nodes[i]).to
  }

  // What single steps do

  ghost predicate Same(a: CoreState, b: CoreState) {
    && a.store == b.store && a.txPool == b.txPool && a.lastFinalisedFrame == b.lastFinalisedFrame
    && SameSchedule(a.peers, b.peers)
  }

  // Nothing of note happens to nodes other than `i`.
  ghost predicate Aside(c: Cluster, c': Cluster, i: PeerId) {
    && c'.nodes.Keys == c.nodes.Keys
    && forall k {:trigger c'.nodes[k]} :: k in c.nodes && k != i ==> Same(c'.nodes[k], c.nodes[k])
  }

  lemma SameAgain(a: CoreState, b: CoreState, d: CoreState)
    requires Same(a, b) && Same(b, d)
    ensures Same(a, d)
  {
  }

  lemma SameSelf(a: CoreState)
    ensures Same(a, a)
  {
  }

  lemma AsideAgain(c: Cluster, c': Cluster, c'': Cluster, i: PeerId)
    requires Aside(c, c', i) && Aside(c', c'', i)
    ensures Aside(c, c'', i)
  {
    hide Same;
    forall k | k in c.nodes && k != i ensures Same(c''.nodes[k], c.nodes[k]) {
      SameAgain(c''.nodes[k], c'.nodes[k], c.nodes[k]);
    }
  }

  lemma RequestEffect(c: Cluster, i: PeerId, digest: EventHash -> nat)
    requires Enabled(c, Request(i))
    ensures var c' := Next(c, Request(i), digest);
            && Aside(c, c', i) && c'.dag == c.dag && c'.pending == c.pending[i := ContactOf(c, i)]
            && c'.nodes[i] == c.nodes[i].(peers := c.nodes[i].peers.Advanced())
  {
    hide RequestOf, Same;
    forall k | k in c.nodes ensures Same(c.nodes[k], c.nodes[k]) { SameSelf(c.nodes[k]); }
  }

  lemma AnswerEffect(c: Cluster, req: SyncReq, events: seq<NetEvent>, digest: EventHash -> nat)
    requires Enabled(c, Answer(req, events))
    ensures var c' := Next(c, Answer(req, events), digest);
            && c'.nodes.Keys == c.nodes.Keys && c'.dag == c.dag && c'.pending == c.pending
            && forall k :: k in c.nodes ==> Same(c'.nodes[k], c.nodes[k])
  {
    hide ReplyTo, Same, SameSchedule;
    var s := c.nodes[req.to];
    UpdatedKeepsSchedule(s.peers, req.from, req.lamportTime, 0);
    assert Same(Answering(s, req), s) by { AnsweringIsSame(s, req); }
    forall k | k in c.nodes ensures Same(c.nodes[k], c.nodes[k]) { SameSelf(c.nodes[k]); }
  }

  lemma AnsweringIsSame(s: CoreState, req: SyncReq)
    ensures Same(Answering(s, req), s)
  {
    UpdatedKeepsSchedule(s.peers, req.from, req.lamportTime, 0);
  }

  lemma DeliverEffect(c: Cluster, reply: SyncReply, peers: set<PeerId>, digest: EventHash -> nat)
    requires ClusterSound(c, peers) && Enabled(c, Deliver(reply))
    ensures var c', i := Next(c, Deliver(reply), digest), reply.to;
            && Aside(c, c', i) && c'.dag == c.dag && c'.pending == c.pending
            && c'.nodes[i].store.event.Keys == c.nodes[i].store.event.Keys + HashesOf(reply.events)
            && c'.nodes[i].txPool == c.nodes[i].txPool && SameSchedule(c'.nodes[i].peers, c.nodes[i].peers)
  {
    hide Applied, Same, ClusterSound, NodeSound, CoreTrue, CanApply, SameSchedule, HashesOf;
    DeliveryIsSound(c, reply, peers, digest);
    AppliedKeepsSchedule(c.nodes[reply.to].Heard(reply.lamportTime), reply.events, digest);
    forall k | k in c.nodes ensures Same(c.nodes[k], c.nodes[k]) { SameSelf(c.nodes[k]); }
  }

  lemma SubmitEffect(c: Cluster, i: PeerId, tx: Transaction, digest: EventHash -> nat)
    requires Enabled(c, Submit(i, tx))
    ensures var c' := Next(c, Submit(i, tx), digest);
            && Aside(c, c', i) && c'.dag == c.dag && c'.pending == c.pending
            && c'.nodes[i] == c.nodes[i].(txPool := c.nodes[i].txPool + [tx])
  {
    hide Same;
    forall k | k in c.nodes ensures Same(c.nodes[k], c.nodes[k]) { SameSelf(c.nodes[k]); }
  }

  lemma CreateEffect(c: Cluster, i: PeerId, j: PeerId, peers: set<PeerId>, digest: EventHash -> nat)
    requires ClusterSound(c, peers) && Enabled(c, Create(i, j))
    ensures var c', h := Next(c, Create(i, j), digest), EventMade(c, i, j);
            && Aside(c, c', i) && c'.dag == c.dag + {h} && c'.pending == c.pending - {i}
            && c'.nodes[i].store.event.Keys == c.nodes[i].store.event.Keys + {h}
            && c'.nodes[i].txPool == c.nodes[i].NextTransactions().1
            && SameSchedule(c'.nodes[i].peers, c.nodes[i].peers)
  {
    hide Created, NewEvent, Same, ClusterSound, NodeSound, SameSchedule;
    NodeAt(c, i, peers);
    NodeAt(c, j, peers);
    CreatedIsSound(c.nodes[i], i, c.dag, peers, digest, j);
    CreatedKeepsSchedule(c.nodes[i], j, digest);
    forall k | k in c.nodes ensures Same(c.nodes[k], c.nodes[k]) { SameSelf(c.nodes[k]); }
  }

  // Tips

  // `x` is the last event that `k` has created.
  ghost predicate IsTip(c: Cluster, k: PeerId, x: EventHash) {
    && k in c.nodes && x in c.nodes[k].store.event && Creator(x) == k
    && IsHead(k, HeightOf(x), c.nodes[k].store.event.Keys)
  }

  type Tips = map<PeerId, EventHash>

  ghost predicate AreTips(c: Cluster, tips: Tips, peers: set<PeerId>) {
    tips.Keys == peers && forall k {:trigger tips[k]} :: k in peers ==> IsTip(c, k, tips[k])
  }

  lemma TipsExist(c: Cluster, peers: set<PeerId>) returns (tips: Tips)
    requires ClusterSound(c, peers)
    ensures AreTips(c, tips, peers)
  {
    hide ClusterSound, NodeSound, IsHead;
    forall k | k in peers ensures exists x :: IsTip(c, k, x) {
      HasNode(c, peers, k);
      NodeAt(c, k, peers);
      HeadIsStored(c.nodes[k], k, c.dag, peers, k);
      var s := c.nodes[k];
      assert IsTip(c, k, s.store.eventOf[(k, s.peers.Find(k).height)].hash);
    }
    tips := map k | k in peers :: var x :| IsTip(c, k, x); x;
  }

  lemma TipsAreEvents(c: Cluster, tips: Tips, peers: set<PeerId>, k: PeerId)
    requires ClusterSound(c, peers) && AreTips(c, tips, peers) && k in peers
    ensures tips[k] in c.dag && Creator(tips[k]) == k && Closed(c.dag, peers) && ForkFree(c.dag)
    ensures tips[k].HashOf?
  {
    hide NodeSound, MessagesTrue, AllConserved;
    assert IsTip(c, k, tips[k]);
    NodeAt(c, k, peers);
    NodePeersAreValid(c.nodes[k], k, c.dag, peers);
    assert WellPlaced(tips[k], c.dag, peers);
  }

  // The last event of `k` that node `i` knows of is the tip of `k`, if it knows that at all.
  lemma HeadIsTip(c: Cluster, i: PeerId, k: PeerId, tips: Tips, peers: set<PeerId>)
    requires ClusterSound(c, peers) && i in peers && k in peers && AreTips(c, tips, peers)
    requires i in c.nodes && tips[k] in c.nodes[i].store.event
    ensures var s := c.nodes[i];
            && s.peers.Has(k) && (k, s.peers.Find(k).height) in s.store.eventOf
            && s.store.eventOf[(k, s.peers.Find(k).height)].hash == tips[k]
  {
    hide ClusterSound, NodeSound, StoreSound, GraphTrue, IsHead, OwnsItsEvents, ForkFree, Closed;
    HasNode(c, peers, k);
    NodeAt(c, i, peers);
    NodeAt(c, k, peers);
    HeadIsStored(c.nodes[i], i, c.dag, peers, k);
    NodePeersAreValid(c.nodes[i], i, c.dag, peers);
    NodePeersAreValid(c.nodes[k], k, c.dag, peers);
    TipsAreEvents(c, tips, peers, k);
    assert IsTip(c, k, tips[k]);
    var s := c.nodes[i];
    TopIsTip(s.store.eventOf[(k, s.peers.Find(k).height)].hash, tips[k], k, s.store.event.Keys,
             c.nodes[k].store.event.Keys, c.dag);
  }

  lemma TopIsTip(x: EventHash, tip: EventHash, k: PeerId, hs: set<EventHash>, own: set<EventHash>, dag: set<EventHash>)
    requires x in hs && tip in hs && hs <= dag && Creator(x) == k && Creator(tip) == k && ForkFree(dag)
    requires IsHead(k, HeightOf(x), hs) && IsHead(k, HeightOf(tip), own) && OwnsItsEvents(k, own, dag)
    ensures x == tip
  {
    assert Twins(x, tip);
  }

  // The parents of the event that `i` creates on `j`, when it has all that `j` has.
  lemma ParentsAreTips(c: Cluster, i: PeerId, j: PeerId, tips: Tips, peers: set<PeerId>)
    requires ClusterSound(c, peers) && Enabled(c, Create(i, j)) && i in peers && j in peers
    requires AreTips(c, tips, peers) && tips[j] in c.nodes[i].store.event
    ensures var h := EventMade(c, i, j);
            SelfParent(h) == tips[i] && OtherParent(h) == tips[j] && Creator(h) == i && h.HashOf?
  {
    hide ClusterSound, IsHead;
    assert IsTip(c, i, tips[i]);
    HeadIsTip(c, i, i, tips, peers);
    HeadIsTip(c, i, j, tips, peers);
    NodePeers(c, i, peers);
  }

  lemma NodePeers(c: Cluster, i: PeerId, peers: set<PeerId>)
    requires ClusterSound(c, peers) && i in peers
    ensures i in c.nodes && c.nodes[i].peers.Valid() && c.nodes[i].peers.creator == i
    ensures c.nodes[i].peers.n == |peers| && IdsOf(c.nodes[i].peers.peers) == peers && ScheduleTrue(c.nodes[i].peers)
  {
    hide ClusterSound, NodeSound;
    HasNode(c, peers, i);
    NodeAt(c, i, peers);
    NodePeersAreValid(c.nodes[i], i, c.dag, peers);
    CountOfIds(c.nodes[i].peers.peers);
  }

  // The created event is the new tip of its creator, and the others' stay.
  lemma TipAfterCreation(c: Cluster, i: PeerId, j: PeerId, tips: Tips, peers: set<PeerId>, digest: EventHash -> nat)
    requires ClusterSound(c, peers) && Enabled(c, Create(i, j)) && i in peers && AreTips(c, tips, peers)
    ensures AreTips(Next(c, Create(i, j), digest), tips[i := EventMade(c, i, j)], peers)
  {
    hide ClusterSound, NodeSound, Next, IsHead, EventMade, Enabled, AreTips;
    var c', h := Next(c, Create(i, j), digest), EventMade(c, i, j);
    CreateEffect(c, i, j, peers, digest);
    NewTip(c, i, j, peers);
    OneNewTip(c, c', i, h, tips, peers);
  }

  lemma OneNewTip(c: Cluster, c': Cluster, i: PeerId, h: EventHash, tips: Tips, peers: set<PeerId>)
    requires AreTips(c, tips, peers) && Aside(c, c', i) && i in peers && i in c.nodes && Creator(h) == i
    requires c'.nodes[i].store.event.Keys == c.nodes[i].store.event.Keys + {h}
    requires IsHead(i, HeightOf(h), c'.nodes[i].store.event.Keys)
    ensures AreTips(c', tips[i := h], peers)
  {
    hide IsHead;
    forall k | k in peers ensures IsTip(c', k, tips[i := h][k]) {
      assert IsTip(c, k, tips[k]);
      if k != i { assert Same(c'.nodes[k], c.nodes[k]); }
    }
  }

  lemma NewTip(c: Cluster, i: PeerId, j: PeerId, peers: set<PeerId>)
    requires ClusterSound(c, peers) && Enabled(c, Create(i, j))
    ensures i in c.nodes
    ensures var h := EventMade(c, i, j);
            Creator(h) == i && IsHead(i, HeightOf(h), c.nodes[i].store.event.Keys + {h})
  {
    hide ClusterSound, NodeSound, StoreSound, GraphTrue, NewEvent;
    NodeAt(c, i, peers);
    NodeAt(c, j, peers);
    var s := c.nodes[i];
    NodePeersAreValid(s, i, c.dag, peers);
    NewEventIsFresh(s, i, c.dag, peers, j);
    ClosedGraph(s.store.event.Keys, peers);
    MissingEventIsNext(s.store.event.Keys, peers, NewEvent(s, j).hash, s.peers.Find(i).height) by {
      HeadIsStored(s, i, c.dag, peers, i);
    }
  }

  lemma TipsStay(c: Cluster, c': Cluster, tips: Tips, peers: set<PeerId>, i: PeerId)
    requires AreTips(c, tips, peers) && Aside(c, c', i) && i in peers
    requires i in c.nodes && c.nodes[i].store.event.Keys <= c'.nodes[i].store.event.Keys
    requires forall x :: x in c'.nodes[i].store.event.Keys && Creator(x) == i ==> x in c.nodes[i].store.event.Keys
    ensures AreTips(c', tips, peers)
  {
    forall k | k in peers ensures IsTip(c', k, tips[k]) {
      assert IsTip(c, k, tips[k]);
      if k != i { assert Same(c'.nodes[k], c.nodes[k]); }
    }
  }
}
