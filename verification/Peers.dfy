/** The peer list of a node: who takes part, what is known of each, and whom to contact next. */
module Peers {
  import opened Wrappers
  import opened Events
  import opened Sorting

  datatype Gossip = Gossip(lamportTime: LamportTime, height: Height)
  type GossipList = map<PeerId, Gossip>

  // Keys and addresses play no part in consensus and are not modelled.
  datatype Peer = Peer(id: PeerId, height: Height, lamportTime: LamportTime)
  {
    // Neither the time nor the height of a peer ever goes down.
    function Raised(time: LamportTime, newHeight: Height): Peer {
      Peer(id, if height < newHeight then newHeight else height, if lamportTime < time then time else lamportTime)
    }
  }

  function ById(): (Peer, Peer) -> bool { (a: Peer, b: Peer) => a.id <= b.id }

  // The first position of `id`, or the length when it is missing.
  function FindIndex(peers: seq<Peer>, id: PeerId): (i: nat)
    ensures i <= |peers|
    ensures i < |peers| ==> peers[i].id == id
    ensures forall j :: 0 <= j < i ==> peers[j].id != id
  {
    if peers == [] || peers[0].id == id then 0 else 1 + FindIndex(peers[1..], id)
  }

  function GossipOf(peers: seq<Peer>): GossipList {
    if peers == [] then map[]
    else
      var last := peers[|peers| - 1];
      GossipOf(peers[..|peers| - 1])[last.id := Gossip(last.lamportTime, last.height)]
  }

  ghost function IdsOf(peers: seq<Peer>): set<PeerId> { set p | p in peers :: p.id }

  ghost predicate DistinctIds(peers: seq<Peer>) {
    forall i, j :: 0 <= i < j < |peers| ==> peers[i].id != peers[j].id
  }

  // The value of a peer list.
  datatype PeersState = PeersState(peers: seq<Peer>, n: nat, r: nat, creator: PeerId, current: nat)
  {
    function Resorted(): PeersState {
      var sorted := StableSort(peers, ById());
      var i := FindIndex(sorted, creator);
      this.(peers := sorted, current := if i < |sorted| then i else 0)
    }

    function Added(p: Peer): PeersState {
      var m := |peers| + 1;
      this.(peers := peers + [p], n := m, r := m / 2).Resorted()
    }

    function Contact(): nat
      requires n > 0
    {
      (current + r) % n
    }

    function Advanced(): PeersState { this.(r := if r > 1 then r / 2 else n / 2) }

    // Raises the time and height of the peer called `id`, if there is one.
    function Updated(id: PeerId, time: LamportTime, height: Height): PeersState {
      var i := FindIndex(peers, id);
      if i < |peers| then this.(peers := peers[i := peers[i].Raised(time, height)]) else this
    }

    ghost predicate Has(id: PeerId) { FindIndex(peers, id) < |peers| }

    function Find(id: PeerId): (p: Peer)
      requires Has(id)
      ensures p in peers && p.id == id
    {
      peers[FindIndex(peers, id)]
    }

    // A list built with `Add` for the peer `creator`.
    ghost predicate Valid() {
      && DistinctIds(peers) && n == |peers|
      && current < n && peers[current].id == creator
    }
  }

  // `q` is the entry `p` after hearing of `time` and `height`.
  ghost predicate IsRaised(p: Peer, q: Peer, time: LamportTime, height: Height) {
    && q.id == p.id
    && q.lamportTime >= p.lamportTime && q.lamportTime >= time
    && (q.lamportTime == p.lamportTime || q.lamportTime == time)
    && q.height >= p.height && q.height >= height && (q.height == p.height || q.height == height)
  }

  // Hearing of a peer raises its entry to what was heard, and touches no other.
  lemma UpdatedRaises(s: PeersState, id: PeerId, time: LamportTime, height: Height)
    requires s.Has(id)
    ensures s.Updated(id, time, height).Has(id)
    ensures IsRaised(s.Find(id), s.Updated(id, time, height).Find(id), time, height)
    ensures forall x :: s.Updated(id, time, height).Has(x) <==> s.Has(x)
    ensures forall x :: x != id && s.Has(x) ==> s.Updated(id, time, height).Find(x) == s.Find(x)
  {
    var t := s.Updated(id, time, height);
    assert forall j :: 0 <= j < |s.peers| ==> t.peers[j].id == s.peers[j].id;
    forall x ensures FindIndex(t.peers, x) == FindIndex(s.peers, x) {
    }
  }

  function EmptyList(): PeersState { PeersState([], 0, 0, 0, 0) }

  class DAGPeerList {
    var peers: seq<Peer>
    var n: nat
    var r: nat
    var creator: PeerId
    var current: nat

    ghost function State(): PeersState
      reads this
    {
      PeersState(peers, n, r, creator, current)
    }

    constructor ()
      ensures State() == EmptyList()
    {
      peers, n, r, creator, current := [], 0, 0, 0, 0;
    }

    method SortPeers()
      modifies this
      ensures State() == old(State()).Resorted()
    {
      peers := StableSort(peers, ById());
      var i := FindIndex(peers, creator);
      current := if i < |peers| then i else 0;
    }

    method Add(p: Peer)
      modifies this
      ensures State() == old(State()).Added(p)
    {
      peers := peers + [p];
      n := |peers|;
      r := n / 2;
      SortPeers();
    }

    method SetCreator(id: PeerId)
      modifies this
      ensures State() == old(State()).(creator := id).Resorted()
    {
      creator := id;
      SortPeers();
    }

    method NextPeer() returns (p: Peer)
      requires n == |peers| > 0
      modifies this
      ensures State() == old(State()).Advanced()
      ensures p == peers[old(State()).Contact()] == old(peers)[(old(current) + old(r)) % old(n)]
    {
      var next := (current + r) % n;
      if r > 1 {
        r := r / 2;
      } else {
        r := n / 2;
      }
      p := peers[next];
    }

    method GetGossipList() returns (g: GossipList)
      ensures g == GossipOf(peers)
    {
      g := map[];
      for i := 0 to |peers|
        invariant g == GossipOf(peers[..i])
      {
        assert peers[..i + 1][..i] == peers[..i];
        g := g[peers[i].id := Gossip(peers[i].lamportTime, peers[i].height)];
      }
      assert peers[..|peers|] == peers;
    }

    // Steps the height of the peer called `id` and returns it.
    method GetNextHeight(id: PeerId) returns (height: Height)
      requires State().Has(id)
      modifies this
      ensures height == old(State()).Find(id).height + 1
      ensures State() == old(State()).Updated(id, 0, height)
    {
      var i := FindIndex(peers, id);
      height := peers[i].height + 1;
      peers := peers[i := peers[i].(height := height)];
    }

    method UpdateLamportTimeAndHeight(id: PeerId, time: LamportTime, height: Height)
      requires State().Has(id)
      modifies this
      ensures State() == old(State()).Updated(id, time, height)
      ensures State().Has(id) && IsRaised(old(State()).Find(id), State().Find(id), time, height)
    {
      var i := FindIndex(peers, id);
      UpdatedRaises(State(), id, time, height);
      peers := peers[i := peers[i].Raised(time, height)];
    }

    method FindPeerWithLamportTimeUpdate(id: PeerId, time: LamportTime) returns (found: bool)
      modifies this
      ensures found == old(State()).Has(id)
      ensures State() == old(State()).Updated(id, time, 0)
      ensures found ==> State().Has(id) && IsRaised(old(State()).Find(id), State().Find(id), time, 0)
    {
      var i := FindIndex(peers, id);
      found := i < |peers|;
      if found {
        UpdatedRaises(State(), id, time, 0);
        peers := peers[i := peers[i].Raised(time, 0)];
      }
    }
  }

  // Building a list

  lemma {:induction false} FindsEveryPeer(peers: seq<Peer>, i: nat)
    requires DistinctIds(peers) && i < |peers|
    ensures FindIndex(peers, peers[i].id) == i
  {
    var j := FindIndex(peers, peers[i].id);
    assert j <= i;
  }

  lemma {:induction false} GossipListsEveryPeer(peers: seq<Peer>)
    requires DistinctIds(peers)
    ensures GossipOf(peers).Keys == IdsOf(peers)
    ensures forall i :: 0 <= i < |peers| ==>
              && peers[i].id in GossipOf(peers)
              && GossipOf(peers)[peers[i].id] == Gossip(peers[i].lamportTime, peers[i].height)
  {
    if peers == [] {
    } else {
      var front, last := peers[..|peers| - 1], peers[|peers| - 1];
      GossipListsEveryPeer(front);
      LastIsNew(peers);
    }
  }

  // The last peer of a list adds one name to those of the others.
  lemma LastIsNew(peers: seq<Peer>)
    requires DistinctIds(peers) && peers != []
    ensures var front, last := peers[..|peers| - 1], peers[|peers| - 1];
            && IdsOf(peers) == IdsOf(front) + {last.id} && last.id !in IdsOf(front)
            && forall i :: 0 <= i < |front| ==> peers[i] == front[i] && front[i].id != last.id
  {
    var front, last := peers[..|peers| - 1], peers[|peers| - 1];
    assert peers == front + [last];
  }

  // In the order of names, none repeated.
  ghost predicate InNameOrder(peers: seq<Peer>) {
    forall i, j :: 0 <= i < j < |peers| ==> peers[i].id < peers[j].id
  }

  lemma ResortedIsValid(s: PeersState)
    requires DistinctIds(s.peers) && s.n == |s.peers| && s.creator in IdsOf(s.peers)
    ensures s.Resorted().Valid() && IdsOf(s.Resorted().peers) == IdsOf(s.peers)
    ensures forall p :: p in s.Resorted().peers <==> p in s.peers
    ensures InNameOrder(s.Resorted().peers)
  {
    var sorted := StableSort(s.peers, ById());
    SortKeepsElements(s.peers, ById());
    SortSorts(s.peers, ById());
    assert Distinct(s.peers);
    SortKeepsDistinct(s.peers, ById());
    forall i, j | 0 <= i < j < |sorted| ensures sorted[i].id != sorted[j].id {
      assert sorted[i] in s.peers && sorted[j] in s.peers && sorted[i] != sorted[j];
    }
    forall i, j | 0 <= i < j < |sorted| ensures sorted[i].id < sorted[j].id {
      assert ById()(sorted[i], sorted[j]);
    }
    var p :| p in s.peers && p.id == s.creator;
    assert p in sorted;
  }

  // While the list lacks its creator `current` is the first place.
  lemma ResortedWithoutCreator(s: PeersState)
    requires s.creator !in IdsOf(s.peers)
    ensures s.Resorted().current == 0
  {
    SortKeepsElements(s.peers, ById());
    var sorted := StableSort(s.peers, ById());
    var i := FindIndex(sorted, s.creator);
    if i < |sorted| { assert false; }
  }

  // Adding peers under distinct names and then naming the creator gives a valid list, wherever the
  // sort puts the creator, with the schedule at its start.
  lemma AddedKeepsNamesDistinct(s: PeersState, p: Peer)
    requires DistinctIds(s.peers) && p.id !in IdsOf(s.peers)
    ensures var t := s.Added(p);
            DistinctIds(t.peers) && t.n == |t.peers| == |s.peers| + 1 && t.r == t.n / 2
            && IdsOf(t.peers) == IdsOf(s.peers) + {p.id}
  {
    var all := s.peers + [p];
    assert forall i :: 0 <= i < |s.peers| ==> s.peers[i].id in IdsOf(s.peers);
    assert DistinctIds(all);
    var u := s.(peers := all, n := |all|, r := |all| / 2, creator := p.id);
    assert p in all;
    ResortedIsValid(u);
    assert s.Added(p).peers == u.Resorted().peers;
    assert IdsOf(all) == IdsOf(s.peers) + {p.id} by {
      forall id ensures id in IdsOf(all) <==> id in IdsOf(s.peers) + {p.id} {
        if id in IdsOf(all) { var q :| q in all && q.id == id; }
        if id in IdsOf(s.peers) { var q :| q in s.peers && q.id == id; assert q in all; }
      }
    }
    SortKeepsElements(all, ById());
  }

  // The contact schedule

  function Log2(n: nat): nat { if n <= 1 then 0 else 1 + Log2(n / 2) }

  // n halved k times.
  function Halved(n: nat, k: nat): nat { if k == 0 then n else Halved(n / 2, k - 1) }

  lemma {:induction false} HalvingReachesOne(n: nat, k: nat)
    requires n >= 1 && k <= Log2(n)
    ensures 1 <= Halved(n, k) <= n
    ensures k > 0 ==> Halved(n, k) < n
    ensures Halved(n, k) == 1 <==> k == Log2(n)
    ensures k < Log2(n) ==> Halved(n, k + 1) == Halved(n, k) / 2
  {
    if k > 0 { HalvingReachesOne(n / 2, k - 1); }
  }

  function Pow2(k: nat): (p: nat)
    ensures p >= 1
  {
    if k == 0 then 1 else 2 * Pow2(k - 1)
  }

  // Halving k times is dividing by two to the k, and the period is the whole part of the logarithm.
  lemma {:induction false} HalvedDivides(n: nat, k: nat)
    ensures Pow2(k) * Halved(n, k) <= n < Pow2(k) * (Halved(n, k) + 1)
  {
    if k > 0 {
      HalvedDivides(n / 2, k - 1);
      TwiceAsFar(Pow2(k - 1), Halved(n, k), n);
    }
  }

  lemma TwiceAsFar(p: nat, q: nat, n: nat)
    requires p * q <= n / 2 < p * (q + 1)
    ensures (2 * p) * q <= n < (2 * p) * (q + 1)
  {
    assert (2 * p) * q == 2 * (p * q) && (2 * p) * (q + 1) == 2 * (p * (q + 1));
  }

  lemma {:induction false} PeriodIsLogarithm(n: nat)
    requires n >= 1
    ensures Pow2(Log2(n)) <= n < 2 * Pow2(Log2(n))
  {
    if n > 1 { PeriodIsLogarithm(n / 2); }
  }

  ghost function AfterCalls(s: PeersState, k: nat): PeersState {
    if k == 0 then s else AfterCalls(s, k - 1).Advanced()
  }

  // Where call `k` falls within its period.
  ghost function CallInPeriod(k: nat, period: nat): nat {
    if k == 0 then 0
    else
      var last := CallInPeriod(k - 1, period);
      if last + 1 == period then 0 else last + 1
  }

  lemma {:induction false} CallInPeriodIsRemainder(k: nat, period: nat)
    requires period >= 1
    ensures CallInPeriod(k, period) == k % period
  {
    if k == 0 {
      DivisionIsUnique(0, period, 0, 0);
    } else {
      CallInPeriodIsRemainder(k - 1, period);
      PeriodStep(k, period);
    }
  }

  lemma {:induction false} OffsetAtCall(s: PeersState, k: nat)
    requires s.Valid() && s.n >= 2 && s.r == s.n / 2
    ensures CallInPeriod(k, Log2(s.n)) < Log2(s.n)
    ensures AfterCalls(s, k) == s.(r := Halved(s.n, CallInPeriod(k, Log2(s.n)) + 1))
  {
    assert Halved(s.n, 1) == s.n / 2;
    if k == 0 {
    } else {
      OffsetAtCall(s, k - 1);
      HalvingReachesOne(s.n, CallInPeriod(k - 1, Log2(s.n)) + 1);
    }
  }

  // The offsets run through n/2, n/4, ..., 1 and start again; no call contacts the node itself, and the
  // last call of every period contacts the ring successor.
  lemma ContactSchedule(s: PeersState, k: nat)
    requires s.Valid() && s.n >= 2 && s.r == s.n / 2
    ensures Log2(s.n) >= 1
    ensures AfterCalls(s, k) == s.(r := Halved(s.n, k % Log2(s.n) + 1))
    ensures var t := AfterCalls(s, k); t.peers[t.Contact()].id != s.creator
    ensures k % Log2(s.n) == Log2(s.n) - 1 ==> AfterCalls(s, k).Contact() == (s.current + 1) % s.n
  {
    var call := CallInPeriod(k, Log2(s.n));
    OffsetAtCall(s, k);
    CallInPeriodIsRemainder(k, Log2(s.n));
    HalvingReachesOne(s.n, call + 1);
    OffsetMovesOn(s.current, Halved(s.n, call + 1), s.n);
  }

  lemma PeriodStep(k: nat, period: nat)
    requires k > 0 && period >= 1
    ensures k % period == if (k - 1) % period == period - 1 then 0 else (k - 1) % period + 1
  {
    var q, r := (k - 1) / period, (k - 1) % period;
    assert k - 1 == q * period + r;
    if r == period - 1 {
      assert k == (q + 1) * period + 0;
      DivisionIsUnique(k, period, q + 1, 0);
    } else {
      DivisionIsUnique(k, period, q, r + 1);
    }
  }

  lemma DivisionIsUnique(k: int, m: int, q: int, r: int)
    requires m > 0 && k == q * m + r && 0 <= r < m
    ensures k % m == r
  {
    MultiplesAreApart(q, k / m, m);
    MultiplesAreApart(k / m, q, m);
    assert k == (k / m) * m + k % m;
  }

  lemma {:induction false} MultiplesAreApart(a: int, b: int, m: int)
    requires m > 0
    ensures a < b ==> a * m + m <= b * m
    decreases b - a
  {
    if a >= b {
    } else {
      assert b * m == (b - 1) * m + m;
      MultiplesAreApart(a, b - 1, m);
    }
  }

  lemma OffsetMovesOn(current: nat, offset: nat, n: nat)
    requires current < n && 0 < offset < n
    ensures (current + offset) % n != current && (current + offset) % n < n
  {
    var sum := current + offset;
    if sum < n {
      DivisionIsUnique(sum, n, 0, sum);
    } else {
      DivisionIsUnique(sum, n, 1, sum - n);
    }
  }

  // The contacts of all nodes

  // Names in name order stand in one order only.
  lemma NameOrderIsUnique(a: seq<Peer>, b: seq<Peer>)
    requires InNameOrder(a) && InNameOrder(b) && IdsOf(a) == IdsOf(b)
    ensures |a| == |b| && forall i :: 0 <= i < |a| ==> a[i].id == b[i].id
  {
    var leq := (x: PeerId, y: PeerId) => x <= y;
    var namesA := seq(|a|, i requires 0 <= i < |a| => a[i].id);
    var namesB := seq(|b|, i requires 0 <= i < |b| => b[i].id);
    forall x ensures x in namesA <==> x in namesB {
      NamesAreIds(a, namesA, x);
      NamesAreIds(b, namesB, x);
    }
    SortedFormIsUnique<PeerId>(namesA, namesB, leq);
    assert forall i :: 0 <= i < |a| ==> namesA[i] == a[i].id && namesB[i] == b[i].id;
  }

  lemma NamesAreIds(peers: seq<Peer>, names: seq<PeerId>, x: PeerId)
    requires |names| == |peers| && forall i :: 0 <= i < |peers| ==> names[i] == peers[i].id
    ensures x in names <==> x in IdsOf(peers)
  {
    if x in names {
      var i :| 0 <= i < |names| && names[i] == x;
      assert peers[i] in peers;
    }
    if x in IdsOf(peers) {
      var i :| 0 <= i < |peers| && peers[i].id == x;
      assert names[i] == x;
    }
  }

  // A node whose list is `s` contacts the peer `b` within one period of its schedule.
  ghost predicate Contacts(s: PeersState, b: PeerId) {
    exists k: nat :: k < Log2(s.n) && ContactAt(s, k) == Some(b)
  }

  // Whom call `k` from `s` on contacts.
  ghost function ContactAt(s: PeersState, k: nat): Option<PeerId> {
    var t := AfterCalls(s, k);
    if t.n > 0 && t.Contact() < |t.peers| then Some(t.peers[t.Contact()].id) else None
  }

  // Whom each call contacts: the peer that many places round the ring of names, from the node itself.
  lemma ContactsByOffset(s: PeersState, k: nat)
    requires s.Valid() && s.n >= 2 && s.r == s.n / 2
    ensures Log2(s.n) >= 1
    ensures var at := (s.current + Halved(s.n, k % Log2(s.n) + 1)) % s.n;
            at < |s.peers| && ContactAt(s, k) == Some(s.peers[at].id)
  {
    ContactSchedule(s, k);
  }

  // Every call of every list contacts some peer, never the node itself, and one call of each period the
  // next peer of the ring.
  lemma SuccessorIsContact(s: PeersState)
    requires s.Valid() && s.n >= 2 && s.r == s.n / 2
    ensures (s.current + 1) % s.n < |s.peers| && Contacts(s, s.peers[(s.current + 1) % s.n].id)
  {
    var k := Log2(s.n) - 1;
    ContactSchedule(s, k);
    DivisionIsUnique(k, k + 1, 0, k);
    assert ContactAt(s, k) == Some(s.peers[(s.current + 1) % s.n].id);
  }

  // The lists of all nodes as they are when the schedule starts, each sorted on its own node.
  ghost predicate AreLists(lists: map<PeerId, PeersState>, peers: set<PeerId>) {
    && lists.Keys == peers
    && forall p :: p in lists ==> IsListOf(lists[p], p, peers)
  }

  ghost predicate IsListOf(s: PeersState, p: PeerId, peers: set<PeerId>) {
    s.Valid() && s.creator == p && s.r == s.n / 2 && InNameOrder(s.peers) && IdsOf(s.peers) == peers
  }

  ghost predicate IsContactPath(path: seq<PeerId>, lists: map<PeerId, PeersState>) {
    && |path| > 0
    && (forall t :: 0 <= t < |path| ==> path[t] in lists)
    && forall t :: 0 < t < |path| ==> Contacts(lists[path[t - 1]], path[t])
  }

  // A node's position in its own list is its position in everybody's, because all lists are sorted alike.
  lemma PositionIsCommon(lists: map<PeerId, PeersState>, peers: set<PeerId>, a: PeerId, at: nat)
    requires AreLists(lists, peers) && a in peers && at < |lists[a].peers|
    ensures lists[a].peers[at].id in peers && lists[lists[a].peers[at].id].current == at
    ensures lists[lists[a].peers[at].id].n == lists[a].n
  {
    var b := lists[a].peers[at].id;
    assert lists[a].peers[at] in lists[a].peers && b in IdsOf(lists[a].peers);
    assert IsListOf(lists[a], a, peers) && IsListOf(lists[b], b, peers);
    NameOrderIsUnique(lists[a].peers, lists[b].peers);
    var c := lists[b].current;
    assert lists[b].peers[c].id == b == lists[b].peers[at].id;
  }

  // How many steps round the ring lead from `a` to `b`.
  ghost function RingDistance(lists: map<PeerId, PeersState>, a: PeerId, b: PeerId): int
    requires a in lists && b in lists
  {
    var from, to := lists[a].current, lists[b].current;
    if from <= to then to - from else lists[a].n - from + to
  }

  lemma RingStep(current: nat, n: nat)
    requires current < n
    ensures (current + 1) % n == if current + 1 == n then 0 else current + 1
  {
    if current + 1 == n {
      DivisionIsUnique(n, n, 1, 0);
    } else {
      DivisionIsUnique(current + 1, n, 0, current + 1);
    }
  }

  lemma ListOf(lists: map<PeerId, PeersState>, peers: set<PeerId>, p: PeerId)
    requires AreLists(lists, peers) && p in peers
    ensures p in lists && IsListOf(lists[p], p, peers) && lists[p].n == |peers|
  {
    assert IsListOf(lists[p], p, peers);
    CountOfIds(lists[p].peers);
  }

  lemma NextOnTheRing(lists: map<PeerId, PeersState>, peers: set<PeerId>, a: PeerId, b: PeerId) returns (next: PeerId)
    requires AreLists(lists, peers) && |peers| >= 2 && a in peers && b in peers && a != b
    ensures next in peers && Contacts(lists[a], next)
    ensures 0 <= RingDistance(lists, next, b) < RingDistance(lists, a, b)
  {
    hide Contacts, AreLists, DistinctIds, InNameOrder, IdsOf;
    ListOf(lists, peers, a);
    ListOf(lists, peers, b);
    var s := lists[a];
    SuccessorIsContact(s);
    var at := (s.current + 1) % s.n;
    RingStep(s.current, s.n);
    next := s.peers[at].id;
    PositionIsCommon(lists, peers, a, at);
    PositionIsCommon(lists, peers, a, lists[b].current);
    PositionIsCommon(lists, peers, b, lists[b].current);
    assert s.current != lists[b].current by {
      NameOrderIsUnique(s.peers, lists[b].peers);
    }
  }

  lemma PathGrows(path: seq<PeerId>, lists: map<PeerId, PeersState>, a: PeerId)
    requires IsContactPath(path, lists) && a in lists && Contacts(lists[a], path[0])
    ensures IsContactPath([a] + path, lists)
  {
    hide Contacts;
    var longer := [a] + path;
    forall t | 0 < t < |longer| ensures Contacts(lists[longer[t - 1]], longer[t]) {
      if t > 1 { assert longer[t - 1] == path[t - 2] && longer[t] == path[t - 1]; }
    }
  }

  // The contacts connect every node to every other: following the last contact of each period leads all
  // the way round the ring.
  lemma {:induction false} ContactsConnect(lists: map<PeerId, PeersState>, peers: set<PeerId>, a: PeerId, b: PeerId)
    returns (path: seq<PeerId>)
    requires AreLists(lists, peers) && |peers| >= 2 && a in peers && b in peers
    ensures IsContactPath(path, lists) && path[0] == a && path[|path| - 1] == b
    decreases RingDistance(lists, a, b)
  {
    hide Contacts, RingDistance, IsListOf;
    path := [a];
    if a == b {
    } else {
      var next := NextOnTheRing(lists, peers, a, b);
      path := ContactsConnect(lists, peers, next, b);
      PathGrows(path, lists, a);
      path := [a] + path;
    }
  }

  lemma {:induction false} CountOfIds(list: seq<Peer>)
    requires DistinctIds(list)
    ensures |IdsOf(list)| == |list|
  {
    if list == [] {
    } else {
      CountOfIds(list[..|list| - 1]);
      LastIsNew(list);
    }
  }
}
