/** The contact schedule over whole runs: whom each request goes to, and that the contacts of all nodes connect
    every node to every other. */
module Schedules {
  import opened Wrappers
  import opened Events
  import opened Peers
  import opened Cores
  import opened Protocol
  import opened Stream
  import opened Cluster
  import opened Runs

  // The same peers in the same order, at the same place of the schedule.
  ghost predicate SameSchedule(a: PeersState, b: PeersState) {
    && a.n == b.n && a.r == b.r && a.creator == b.creator && a.current == b.current
    && |a.peers| == |b.peers| && forall i :: 0 <= i < |a.peers| ==> a.peers[i].id == b.peers[i].id
  }

  lemma UpdatedKeepsSchedule(s: PeersState, id: PeerId, time: LamportTime, height: Height)
    ensures SameSchedule(s.Updated(id, time, height), s)
  {
  }

  lemma {:induction false} AppliedKeepsSchedule(s: CoreState, events: seq<NetEvent>, digest: EventHash -> nat)
    ensures SameSchedule(Applied(s, events, digest).peers, s.peers)
    decreases |events|
  {
    hide Inserted;
    if events == [] {
    } else {
      var e, t := events[0], AppliedOne(s, events[0], digest);
      InsertedKeepsPeers(s, e.ToEvent(), digest);
      UpdatedKeepsSchedule(s.peers, e.creator, e.lamportTimestamp, e.height);
      AppliedKeepsSchedule(t, events[1..], digest);
    }
  }

  lemma CreatedKeepsSchedule(s: CoreState, other: PeerId, digest: EventHash -> nat)
    requires CanCreate(s, other)
    ensures SameSchedule(Created(s, other, digest).peers, s.peers)
  {
    hide Inserted;
    InsertedKeepsPeers(Prepared(s), NewEvent(s, other), digest);
    UpdatedKeepsSchedule(s.peers, s.peers.creator, 0, s.peers.Find(s.peers.creator).height + 1);
  }

  lemma ScheduleIsItself(s: PeersState)
    ensures SameSchedule(s, s)
  {
  }

  // Only a node's own requests move its schedule.
  lemma StepsKeepSchedule(c: Cluster, step: Step, i: PeerId, digest: EventHash -> nat)
    requires Enabled(c, step) && i in c.nodes
    ensures var s, s' := c.nodes[i].peers, Next(c, step, digest).nodes[i].peers;
            SameSchedule(s', if step == Request(i) then s.Advanced() else s)
  {
    hide Created, Applied, Polled, CanCreate, RequestOf, ReplyTo, SameSchedule;
    ScheduleIsItself(c.nodes[i].peers);
    match step
    case Create(k, j) => CreatedKeepsSchedule(c.nodes[k], j, digest);
    case Deliver(reply) => AppliedKeepsSchedule(c.nodes[reply.to].Heard(reply.lamportTime), reply.events, digest);
    case _ => PlainStepKeepsSchedule(c, step, i, digest);
  }

  lemma PlainStepKeepsSchedule(c: Cluster, step: Step, i: PeerId, digest: EventHash -> nat)
    requires Enabled(c, step) && i in c.nodes && !step.Create? && !step.Deliver?
    ensures var s, s' := c.nodes[i].peers, Next(c, step, digest).nodes[i].peers;
            SameSchedule(s', if step == Request(i) then s.Advanced() else s)
  {
    hide Polled, RequestOf, ReplyTo, SameSchedule;
    ScheduleIsItself(c.nodes[i].peers);
    ScheduleIsItself(c.nodes[i].peers.Advanced());
    match step
    case Answer(req, events) => UpdatedKeepsSchedule(c.nodes[req.to].peers, req.from, req.lamportTime, 0);
    case Consume(k) => PolledLeavesStore(c.nodes[k]);
    case _ =>
  }

  // How many requests node `i` sends in `steps`.
  ghost function RequestsOf(steps: seq<Step>, i: PeerId): nat {
    if steps == [] then 0
    else RequestsOf(steps[..|steps| - 1], i) + if steps[|steps| - 1] == Request(i) then 1 else 0
  }

  lemma {:induction false} ScheduleOfRun(run: seq<Cluster>, steps: seq<Step>, lists: Lists, peers: set<PeerId>,
                                         digest: EventHash -> nat, k: nat, i: PeerId)
    requires IsRun(run, steps, lists, peers, digest) && k < |run| && i in peers
    ensures i in run[0].nodes && i in run[k].nodes
    ensures SameSchedule(run[k].nodes[i].peers, AfterCalls(run[0].nodes[i].peers, RequestsOf(steps[..k], i)))
  {
    hide Enabled, Next, ClusterSound;
    EveryStateIsSound(run, steps, lists, peers, digest, k);
    HasNode(run[k], peers, i);
    if k == 0 {
    } else {
      ScheduleOfRun(run, steps, lists, peers, digest, k - 1, i);
      assert steps[..k][..k - 1] == steps[..k - 1];
      assert run[k] == Next(run[k - 1], steps[k - 1], digest);
      StepsKeepSchedule(run[k - 1], steps[k - 1], i, digest);
    }
  }

  // In every run, request number `q` of a node goes where call `q` of the schedule it booted with leads: to
  // the peer that stands n / 2, n / 4, ..., 1 places after the node in the order of names, again and again.
  lemma RequestsFollowSchedule(run: seq<Cluster>, steps: seq<Step>, lists: Lists, peers: set<PeerId>,
                               digest: EventHash -> nat, k: nat, i: PeerId)
    requires IsRun(run, steps, lists, peers, digest) && k < |steps| && steps[k] == Request(i) && i in peers
    ensures i in run[0].nodes && Enabled(run[k], Request(i))
    ensures ContactAt(run[0].nodes[i].peers, RequestsOf(steps[..k], i)) == Some(RequestOf(run[k].nodes[i]).to)
    ensures |peers| >= 2 ==>
              var list, q := run[0].nodes[i].peers, RequestsOf(steps[..k], i);
              && Log2(|peers|) >= 1 && |list.peers| == |peers| && InNameOrder(list.peers)
              && list.current < |peers| && list.peers[list.current].id == i
              && RequestOf(run[k].nodes[i]).to
              == list.peers[(list.current + Halved(|peers|, q % Log2(|peers|) + 1)) % |peers|].id
  {
    hide Initial, Next, Enabled, AfterCalls, RequestsOf, Halved, Log2, ContactAt, InNameOrder, SameSchedule, RequestOf;
    assert Enabled(run[k], steps[k]);
    ScheduleOfRun(run, steps, lists, peers, digest, k, i);
    RequestGoesAsScheduled(run[k], i, run[0].nodes[i].peers, RequestsOf(steps[..k], i));
    if |peers| >= 2 { BootedContact(run[0], lists, peers, i, RequestsOf(steps[..k], i)); }
  }

  lemma RequestGoesAsScheduled(c: Cluster, i: PeerId, list: PeersState, q: nat)
    requires Enabled(c, Request(i)) && SameSchedule(c.nodes[i].peers, AfterCalls(list, q))
    ensures ContactAt(list, q) == Some(RequestOf(c.nodes[i]).to)
  {
    hide AfterCalls;
    assert c.nodes[i].peers.Contact() == AfterCalls(list, q).Contact();
  }

  lemma BootedContact(c: Cluster, lists: Lists, peers: set<PeerId>, i: PeerId, q: nat)
    requires Initial(c, lists, peers) && i in peers && |peers| >= 2
    ensures i in c.nodes && Log2(|peers|) >= 1
    ensures var list := c.nodes[i].peers;
            && |list.peers| == |peers| && InNameOrder(list.peers)
            && list.current < |peers| && list.peers[list.current].id == i
            && var at := (list.current + Halved(|peers|, q % Log2(|peers|) + 1)) % |peers|;
               at < |peers| && ContactAt(list, q) == Some(list.peers[at].id)
  {
    hide Initial, Booted, ContactAt, Halved, Log2;
    BootedAs(c, lists, peers, i);
    BootedIsListed(lists[i], i, peers);
    CountOfIds(c.nodes[i].peers.peers);
    ContactsByOffset(c.nodes[i].peers, q);
  }

  lemma {:induction false} CallsKeepPeers(s: PeersState, m: nat)
    ensures AfterCalls(s, m) == s.(r := AfterCalls(s, m).r)
  {
    if m == 0 {
    } else {
      CallsKeepPeers(s, m - 1);
    }
  }

  ghost function ListsAt(c: Cluster, peers: set<PeerId>): map<PeerId, PeersState>
    requires peers <= c.nodes.Keys
  {
    map p | p in peers :: c.nodes[p].peers
  }

  // Every node has sorted its own list, built in its own order, and all come out alike: following each
  // node's own contacts leads from every node to every other.
  lemma NodesConnect(c: Cluster, lists: Lists, peers: set<PeerId>, a: PeerId, b: PeerId) returns (path: seq<PeerId>)
    requires Initial(c, lists, peers) && |peers| >= 2 && a in peers && b in peers
    ensures peers <= c.nodes.Keys && IsContactPath(path, ListsAt(c, peers))
    ensures path[0] == a && path[|path| - 1] == b
  {
    hide IsListOf, Contacts, Initial;
    InitialLists(c, lists, peers);
    path := ContactsConnect(ListsAt(c, peers), peers, a, b);
  }

  lemma InitialLists(c: Cluster, lists: Lists, peers: set<PeerId>)
    requires Initial(c, lists, peers)
    ensures peers <= c.nodes.Keys && AreLists(ListsAt(c, peers), peers)
  {
    hide IsListOf, IsPeerList, Booted, Initial;
    forall p | p in peers ensures p in c.nodes && IsListOf(c.nodes[p].peers, p, peers) {
      BootedAs(c, lists, peers, p);
      BootedIsListed(lists[p], p, peers);
    }
  }

  lemma BootedAs(c: Cluster, lists: Lists, peers: set<PeerId>, p: PeerId)
    requires Initial(c, lists, peers) && p in peers
    ensures p in c.nodes && p in lists && c.nodes[p] == Booted(lists[p], p) && IsPeerList(lists[p], peers)
  {
    hide IsPeerList, Booted;
    assert HasBooted(c, p, lists[p], peers);
  }

  lemma BootedIsListed(list: PeersState, p: PeerId, peers: set<PeerId>)
    requires IsPeerList(list, peers) && p in peers
    ensures IsListOf(Booted(list, p).peers, p, peers)
  {
    hide WithLeaves;
    ResortedIsValid(list.(creator := p));
  }
}
