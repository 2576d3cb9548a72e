/** The event graph and the frame numbers it determines, with no flag table and no node in sight.

    Everything here is a function of an event's ancestors and of the number of peers `n` only. It is the
    reference that a node's pruned tables are measured against. */
module Dag {
  import opened Events

  // Both parents are events; every event but a leaf is inner.
  predicate IsInner(h: EventHash) {
    h.HashOf? && h.content.selfParent.HashOf? && h.content.otherParent.HashOf?
  }

  // The event itself and everything reachable from it along parent edges.
  ghost function Ancestors(h: EventHash): set<EventHash> {
    if !h.HashOf? then {}
    else if IsInner(h) then {h} + Ancestors(h.content.selfParent) + Ancestors(h.content.otherParent)
    else {h}
  }

  function RootMajority(n: nat): nat { 2 * n / 3 + 1 }

  // The frame number of an event: its parents' larger frame, or one more when the parents agree on a
  // frame and together see that frame's roots of a majority of creators.
  ghost function FrameOf(h: EventHash, n: nat): FrameNumber
    decreases h, 0
  {
    if !IsInner(h) then 0
    else
      var s, o := h.content.selfParent, h.content.otherParent;
      var fs, fo := FrameOf(s, n), FrameOf(o, n);
      if fs > fo then fs
      else if fs < fo then fo
      else if |set r | r in Ancestors(s) + Ancestors(o) && r < h && IsRoot(r, n) && FrameOf(r, n) == fs :: Creator(r)|
              >= RootMajority(n)
      then fs + 1
      else fs
  }

  // A root is the first event of its creator in its frame.
  ghost predicate IsRoot(h: EventHash, n: nat)
    decreases h, 1
  {
    h.HashOf? && (IsInner(h) ==> FrameOf(h.content.selfParent, n) < FrameOf(h, n))
  }

  // The roots of frame `f` among the events of `hs`.
  ghost function FrameRoots(hs: set<EventHash>, f: FrameNumber, n: nat): set<EventHash> {
    set r | r in hs && IsRoot(r, n) && FrameOf(r, n) == f
  }

  ghost function Creators(hs: set<EventHash>): set<PeerId> {
    set r | r in hs :: Creator(r)
  }

  // What a merge of both parents sees of frame `f`.
  ghost function ParentRoots(h: EventHash, f: FrameNumber, n: nat): set<EventHash> {
    FrameRoots(Ancestors(SelfParent(h)) + Ancestors(OtherParent(h)), f, n)
  }

  // Ancestry

  lemma {:induction false} AncestorBelow(h: EventHash, a: EventHash)
    requires a in Ancestors(h)
    ensures a.HashOf? && (a == h || a < h)
  {
    if !IsInner(h) || a == h {
    } else {
      assert h.content.selfParent < h && h.content.otherParent < h;
      if a in Ancestors(h.content.selfParent) {
        AncestorBelow(h.content.selfParent, a);
      } else {
        AncestorBelow(h.content.otherParent, a);
      }
    }
  }

  lemma {:induction false} AncestorsTransitive(h: EventHash, a: EventHash)
    requires a in Ancestors(h)
    ensures Ancestors(a) <= Ancestors(h)
  {
    if !IsInner(h) || a == h {
    } else {
      if a in Ancestors(h.content.selfParent) {
        AncestorsTransitive(h.content.selfParent, a);
      } else {
        AncestorsTransitive(h.content.otherParent, a);
      }
    }
  }

  // Frame numbers

  // The defining equation, with the termination guard gone.
  lemma FrameRule(h: EventHash, n: nat)
    requires IsInner(h)
    ensures var fs, fo := FrameOf(SelfParent(h), n), FrameOf(OtherParent(h), n);
            FrameOf(h, n) == if fs > fo then fs
                             else if fs < fo then fo
                             else if |Creators(ParentRoots(h, fs, n))| >= RootMajority(n) then fs + 1
                             else fs
  {
    var s, o := SelfParent(h), OtherParent(h);
    var fs := FrameOf(s, n);
    forall r | r in Ancestors(s) + Ancestors(o) ensures r < h {
      assert s < h && o < h;
      if r in Ancestors(s) { AncestorBelow(s, r); } else { AncestorBelow(o, r); }
    }
    assert Creators(ParentRoots(h, fs, n))
        == set r | r in Ancestors(s) + Ancestors(o) && r < h && IsRoot(r, n) && FrameOf(r, n) == fs :: Creator(r);
  }

  // What the majority is: roots of more than two thirds of the peers.
  lemma MajorityIsTwoThirds(h: EventHash, n: nat)
    requires IsInner(h) && FrameOf(SelfParent(h), n) == FrameOf(OtherParent(h), n)
    ensures var f, seen := FrameOf(SelfParent(h), n), |Creators(ParentRoots(h, FrameOf(SelfParent(h), n), n))|;
            && FrameOf(h, n) == (if 3 * seen > 2 * n then f + 1 else f)
            && (IsRoot(h, n) <==> 3 * seen > 2 * n)
  {
    FrameRule(h, n);
  }

  lemma {:induction false} FrameMonotone(h: EventHash, a: EventHash, n: nat)
    requires a in Ancestors(h)
    ensures FrameOf(a, n) <= FrameOf(h, n)
  {
    if !IsInner(h) || a == h {
    } else {
      FrameRule(h, n);
      if a in Ancestors(SelfParent(h)) {
        FrameMonotone(SelfParent(h), a, n);
      } else {
        FrameMonotone(OtherParent(h), a, n);
      }
    }
  }

  // Frames are entered one at a time: an event of frame `g` has an ancestor in every frame below.
  lemma {:induction false} NoFrameSkipped(h: EventHash, f: FrameNumber, n: nat) returns (a: EventHash)
    requires h.HashOf? && f <= FrameOf(h, n)
    ensures a in Ancestors(h) && FrameOf(a, n) == f
  {
    a := h;
    if f == FrameOf(h, n) {
    } else {
      FrameRule(h, n);
      if f <= FrameOf(SelfParent(h), n) {
        a := NoFrameSkipped(SelfParent(h), f, n);
      } else {
        a := NoFrameSkipped(OtherParent(h), f, n);
      }
    }
  }

  // The majority certificate: whoever is past frame `f` has seen frame-`f` roots of a majority of creators.
  lemma {:induction false} MajorityCertificate(h: EventHash, f: FrameNumber, n: nat)
    requires f < FrameOf(h, n)
    ensures |Creators(FrameRoots(Ancestors(h), f, n))| >= RootMajority(n)
  {
    FrameRule(h, n);
    hide FrameOf, IsRoot;
    var s, o := SelfParent(h), OtherParent(h);
    var all := Creators(FrameRoots(Ancestors(h), f, n));
    if f < FrameOf(s, n) {
      MajorityCertificate(s, f, n);
      CardinalitySubset(Creators(FrameRoots(Ancestors(s), f, n)), all);
    } else if f < FrameOf(o, n) {
      MajorityCertificate(o, f, n);
      CardinalitySubset(Creators(FrameRoots(Ancestors(o), f, n)), all);
    } else {
      CardinalitySubset(Creators(ParentRoots(h, f, n)), all);
    }
  }

  lemma {:induction false} CardinalitySubset<T>(a: set<T>, b: set<T>)
    requires a <= b
    ensures |a| <= |b|
    ensures |a| == |b| ==> a == b
  {
    assert b == a + (b - a);
    assert |b| == |a| + |b - a|;
  }

  // Parent-closed sets of events

  ghost predicate WellPlaced(h: EventHash, hs: set<EventHash>, peers: set<PeerId>) {
    && h.HashOf?
    && Creator(h) in peers
    && (HeightOf(h) == 0 ==> h == Leaf(Creator(h)))
    && (HeightOf(h) > 0 ==>
          && SelfParent(h) in hs && OtherParent(h) in hs
          && Creator(SelfParent(h)) == Creator(h) && HeightOf(SelfParent(h)) == HeightOf(h) - 1
          && Lamport(SelfParent(h)) < Lamport(h) && Lamport(OtherParent(h)) < Lamport(h))
  }

  // Every event of `hs` was made by a peer, names parents in `hs` and is later than both.
  ghost predicate Closed(hs: set<EventHash>, peers: set<PeerId>) {
    forall h {:trigger WellPlaced(h, hs, peers)} :: h in hs ==> WellPlaced(h, hs, peers)
  }

  predicate Twins(a: EventHash, b: EventHash) {
    Creator(a) == Creator(b) && HeightOf(a) == HeightOf(b)
  }

  // No creator ever made two events of the same height.
  ghost predicate ForkFree(hs: set<EventHash>) {
    forall a, b {:trigger Twins(a, b)} :: a in hs && b in hs && Twins(a, b) ==> a == b
  }

  lemma {:induction false} ClosedHoldsAncestors(hs: set<EventHash>, peers: set<PeerId>, h: EventHash)
    requires Closed(hs, peers) && h in hs
    ensures Ancestors(h) <= hs
  {
    assert WellPlaced(h, hs, peers);
    if !IsInner(h) {
    } else {
      ClosedHoldsAncestors(hs, peers, SelfParent(h));
      ClosedHoldsAncestors(hs, peers, OtherParent(h));
    }
  }

  // An event's ancestors are closed under parents themselves: of all such sets with the event they are the least.
  lemma {:induction false} AncestorsAreClosed(hs: set<EventHash>, peers: set<PeerId>, h: EventHash)
    requires Closed(hs, peers) && h in hs
    ensures h in Ancestors(h) && Closed(Ancestors(h), peers)
  {
    ClosedHoldsAncestors(hs, peers, h);
    forall a | a in Ancestors(h) ensures WellPlaced(a, Ancestors(h), peers) {
      assert WellPlaced(a, hs, peers);
      ClosedIsInner(hs, peers, a);
      AncestorsTransitive(h, a);
    }
    assert WellPlaced(h, hs, peers);
  }

  lemma ClosedIsInner(hs: set<EventHash>, peers: set<PeerId>, h: EventHash)
    requires Closed(hs, peers) && h in hs
    ensures IsInner(h) <==> HeightOf(h) > 0
  {
    assert WellPlaced(h, hs, peers);
    if HeightOf(h) > 0 {
      assert WellPlaced(SelfParent(h), hs, peers) && WellPlaced(OtherParent(h), hs, peers);
    }
  }

  // The event of the same creator at a lower height is on the self-parent chain.
  lemma {:induction false} ChainOfCreator(hs: set<EventHash>, peers: set<PeerId>, a: EventHash, b: EventHash)
    requires Closed(hs, peers) && ForkFree(hs) && a in hs && b in hs
    requires Creator(a) == Creator(b) && HeightOf(a) <= HeightOf(b)
    ensures a in Ancestors(b)
    ensures a != b ==> IsInner(b) && a in Ancestors(SelfParent(b))
    decreases HeightOf(b)
  {
    ClosedIsInner(hs, peers, b);
    assert WellPlaced(b, hs, peers);
    if HeightOf(a) < HeightOf(b) {
      ChainOfCreator(hs, peers, a, SelfParent(b));
    } else {
      assert Twins(a, b);
    }
  }

  // A creator's chain has an event at every height up to any of its events.
  lemma {:induction false} ChainIsContiguous(hs: set<EventHash>, peers: set<PeerId>, b: EventHash, k: Height)
    returns (a: EventHash)
    requires Closed(hs, peers) && b in hs && k <= HeightOf(b)
    ensures a in hs && Creator(a) == Creator(b) && HeightOf(a) == k && a in Ancestors(b)
    decreases HeightOf(b)
  {
    a := b;
    ClosedIsInner(hs, peers, b);
    assert WellPlaced(b, hs, peers);
    if k == HeightOf(b) {
    } else {
      a := ChainIsContiguous(hs, peers, SelfParent(b), k);
    }
  }

  // Causality is strict in Lamport time.
  lemma {:induction false} LamportIncreases(hs: set<EventHash>, peers: set<PeerId>, h: EventHash, a: EventHash)
    requires Closed(hs, peers) && h in hs && a in Ancestors(h)
    ensures a == h || Lamport(a) < Lamport(h)
  {
    assert WellPlaced(h, hs, peers);
    if a == h {
    } else {
      if a in Ancestors(SelfParent(h)) {
        LamportIncreases(hs, peers, SelfParent(h), a);
      } else {
        LamportIncreases(hs, peers, OtherParent(h), a);
      }
    }
  }

  // One root per creator per frame.
  lemma RootsAreUnique(hs: set<EventHash>, peers: set<PeerId>, a: EventHash, b: EventHash, n: nat)
    requires Closed(hs, peers) && ForkFree(hs) && a in hs && b in hs
    requires IsRoot(a, n) && IsRoot(b, n) && Creator(a) == Creator(b) && FrameOf(a, n) == FrameOf(b, n)
    ensures a == b
  {
    if a != b {
      var low, high := if HeightOf(a) <= HeightOf(b) then a else b, if HeightOf(a) <= HeightOf(b) then b else a;
      ChainOfCreator(hs, peers, low, high);
      FrameMonotone(SelfParent(high), low, n);
    }
  }

  // Every event has a root of its creator and frame behind it.
  lemma {:induction false} RootOfChain(hs: set<EventHash>, peers: set<PeerId>, h: EventHash, n: nat)
    returns (r: EventHash)
    requires Closed(hs, peers) && h in hs
    ensures r in Ancestors(h) && IsRoot(r, n) && Creator(r) == Creator(h) && FrameOf(r, n) == FrameOf(h, n)
  {
    assert WellPlaced(h, hs, peers);
    ClosedIsInner(hs, peers, h);
    if IsRoot(h, n) {
      r := h;
    } else {
      FrameMonotone(h, SelfParent(h), n);
      r := RootOfChain(hs, peers, SelfParent(h), n);
    }
  }

  // Root frames strictly increase along a creator's chain.
  lemma RootFramesIncrease(hs: set<EventHash>, peers: set<PeerId>, a: EventHash, b: EventHash, n: nat)
    requires Closed(hs, peers) && ForkFree(hs) && a in hs && b in hs
    requires IsRoot(b, n) && Creator(a) == Creator(b) && HeightOf(a) < HeightOf(b)
    ensures FrameOf(a, n) < FrameOf(b, n)
  {
    ChainOfCreator(hs, peers, a, b);
    FrameMonotone(SelfParent(b), a, n);
  }

  // Quorum intersection: any two events past frame `f` share the frame-`f` roots of more than a third of
  // the peers.
  lemma QuorumsIntersect(hs: set<EventHash>, peers: set<PeerId>, a: EventHash, b: EventHash, f: FrameNumber)
    requires Closed(hs, peers) && ForkFree(hs) && a in hs && b in hs
    requires f < FrameOf(a, |peers|) && f < FrameOf(b, |peers|)
    ensures 3 * |Creators(FrameRoots(Ancestors(a) * Ancestors(b), f, |peers|))| > |peers|
  {
    var n := |peers|;
    var ra, rb := FrameRoots(Ancestors(a), f, n), FrameRoots(Ancestors(b), f, n);
    MajorityCertificate(a, f, n);
    MajorityCertificate(b, f, n);
    ClosedHoldsAncestors(hs, peers, a);
    ClosedHoldsAncestors(hs, peers, b);
    var ca, cb := Creators(ra), Creators(rb);
    forall c | c in ca + cb ensures c in peers {
      var r :| r in ra + rb && Creator(r) == c;
      assert WellPlaced(r, hs, peers);
    }
    assert |ca + cb| == |ca| + |cb| - |ca * cb|;
    CardinalitySubset(ca + cb, peers);
    var shared := FrameRoots(Ancestors(a) * Ancestors(b), f, n);
    forall c | c in ca * cb ensures c in Creators(shared) {
      var x :| x in ra && Creator(x) == c;
      var y :| y in rb && Creator(y) == c;
      RootsAreUnique(hs, peers, x, y, n);
      assert x in shared;
    }
    CardinalitySubset(ca * cb, Creators(shared));
  }

  // Adding events

  // `h` names two parents that `hs` holds, and it forks no chain of `hs`.
  ghost predicate Fits(h: EventHash, hs: set<EventHash>, peers: set<PeerId>) {
    HeightOf(h) > 0 && Closed(hs + {h}, peers) && ForkFree(hs + {h})
  }

  // `h` moreover is new to `hs`.
  ghost predicate Extends(h: EventHash, hs: set<EventHash>, peers: set<PeerId>) {
    h !in hs && Fits(h, hs, peers)
  }

  lemma FitsHasParents(h: EventHash, hs: set<EventHash>, peers: set<PeerId>)
    requires Closed(hs, peers) && Fits(h, hs, peers)
    ensures IsInner(h) && SelfParent(h) in hs && OtherParent(h) in hs && ForkFree(hs)
    ensures hs + {h} == (if h in hs then hs else hs + {h})
    ensures Creator(h) in peers && Creator(SelfParent(h)) == Creator(h) && HeightOf(SelfParent(h)) == HeightOf(h) - 1
    ensures Ancestors(h) == {h} + Ancestors(SelfParent(h)) + Ancestors(OtherParent(h))
    ensures Ancestors(SelfParent(h)) <= hs && Ancestors(OtherParent(h)) <= hs
  {
    ClosedIsInner(hs + {h}, peers, h);
    assert WellPlaced(h, hs + {h}, peers);
    if h in hs {
      assert WellPlaced(h, hs, peers);
      assert hs + {h} == hs;
    } else {
      assert SelfParent(h) != h && OtherParent(h) != h by {
        assert Lamport(SelfParent(h)) < Lamport(h) && Lamport(OtherParent(h)) < Lamport(h);
      }
    }
    ClosedHoldsAncestors(hs, peers, SelfParent(h));
    ClosedHoldsAncestors(hs, peers, OtherParent(h));
  }

  // Coverage: what lets a node finalise

  ghost predicate SeesRootFrom(h: EventHash, c: PeerId, f: FrameNumber, n: nat) {
    exists r {:trigger r in Ancestors(h)} :: r in Ancestors(h) && IsRoot(r, n) && Creator(r) == c && FrameOf(r, n) >= f
  }

  // The event sees, from every peer, a root of frame `f` or later.
  ghost predicate Covers(h: EventHash, f: FrameNumber, peers: set<PeerId>) {
    forall c {:trigger SeesRootFrom(h, c, f, |peers|)} :: c in peers ==> SeesRootFrom(h, c, f, |peers|)
  }

  // `f` is the highest frame that some event of `hs` covers (0 when none covers any).
  ghost predicate IsFinalityBound(f: FrameNumber, hs: set<EventHash>, peers: set<PeerId>) {
    && (f > 0 ==> exists w :: w in hs && Covers(w, f, peers))
    && forall w, g: FrameNumber :: w in hs && Covers(w, g, peers) ==> g <= f
  }

  // The event sees, from every peer, an event of frame `f` or later.
  ghost predicate Reaches(h: EventHash, f: FrameNumber, peers: set<PeerId>) {
    forall c :: c in peers ==> exists a :: a in Ancestors(h) && Creator(a) == c && FrameOf(a, |peers|) >= f
  }

  // Whether the events seen are roots makes no difference, as the frame's root is behind each of them.
  lemma CoversIsReaching(h: EventHash, f: FrameNumber, hs: set<EventHash>, peers: set<PeerId>)
    requires Closed(hs, peers) && h in hs
    ensures Covers(h, f, peers) <==> Reaches(h, f, peers)
  {
    hide FrameOf, IsRoot;
    ClosedHoldsAncestors(hs, peers, h);
    if Covers(h, f, peers) {
      forall c | c in peers ensures exists a :: a in Ancestors(h) && Creator(a) == c && FrameOf(a, |peers|) >= f {
        assert SeesRootFrom(h, c, f, |peers|);
      }
    }
    if Reaches(h, f, peers) {
      forall c | c in peers ensures SeesRootFrom(h, c, f, |peers|) {
        var a :| a in Ancestors(h) && Creator(a) == c && FrameOf(a, |peers|) >= f;
        var r := RootOfChain(hs, peers, a, |peers|);
        AncestorsTransitive(h, a);
      }
    }
  }

  // An event that extends a creator's chain in `hs` is never below the finality bound of `hs`.
  lemma NewEventsAreAboveBound(h: EventHash, hs: set<EventHash>, peers: set<PeerId>, f: FrameNumber)
    requires Closed(hs, peers) && Extends(h, hs, peers) && IsFinalityBound(f, hs, peers)
    ensures f <= FrameOf(SelfParent(h), |peers|) <= FrameOf(h, |peers|)
  {
    var n := |peers|;
    FitsHasParents(h, hs, peers);
    FrameRule(h, n);
    if f > 0 {
      var w :| w in hs && Covers(w, f, peers);
      assert SeesRootFrom(w, Creator(h), f, n);
      var r :| r in Ancestors(w) && IsRoot(r, n) && Creator(r) == Creator(h) && FrameOf(r, n) >= f;
      ClosedHoldsAncestors(hs, peers, w);
      if HeightOf(r) >= HeightOf(h) {
        var twin := ChainIsContiguous(hs, peers, r, HeightOf(h));
        assert Twins(twin, h);
        assert false;
      }
      ChainOfCreator(hs, peers, r, SelfParent(h));
      FrameMonotone(SelfParent(h), r, n);
    }
  }

  // A store that covers frame `f + 1` already holds every event of frame `f` of the whole graph, whatever
  // else other nodes know.
  lemma CoveredFramesAreComplete(hs: set<EventHash>, all: set<EventHash>, peers: set<PeerId>, bound: FrameNumber,
                                 x: EventHash)
    requires Closed(hs, peers) && Closed(all, peers) && ForkFree(all) && hs <= all
    requires IsFinalityBound(bound, hs, peers) && x in all && FrameOf(x, |peers|) < bound
    ensures x in hs
  {
    hide Ancestors, FrameOf, IsRoot;
    var n := |peers|;
    var w :| w in hs && Covers(w, bound, peers);
    assert WellPlaced(x, all, peers);
    assert SeesRootFrom(w, Creator(x), bound, n);
    var r :| r in Ancestors(w) && IsRoot(r, n) && Creator(r) == Creator(x) && FrameOf(r, n) >= bound;
    ClosedHoldsAncestors(hs, peers, w);
    if HeightOf(x) <= HeightOf(r) {
      ChainOfCreator(all, peers, x, r);
      ClosedHoldsAncestors(hs, peers, r);
    } else {
      ChainOfCreator(all, peers, r, x);
      FrameMonotone(x, r, n);
      assert false;
    }
  }
}
