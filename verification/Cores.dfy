/** The core of a node: its clock and transaction pool, the insertion of an event and the finalisation of
    frames. `Inserted` says what an insertion does to the value of a core; the class does it in place. */
module Cores {
  import opened Wrappers
  import opened Events
  import opened Sorting
  import opened FlagTables
  import opened Frames
  import opened Peers
  import opened Stores
  import opened Dag

  const TRANSACTIONS_LIMIT := 16000

  // Where the consumer's stream stands.
  datatype Cursor = Cursor(frame: Option<FrameNumber>, event: Option<nat>, tx: Option<nat>)

  // The value of a core together with its store and its peer list.
  datatype CoreState = CoreState(
    store: StoreState, peers: PeersState,
    txPool: seq<Transaction>, lamportTime: LamportTime,
    cursor: Cursor, lastFinalisedFrame: Option<FrameNumber>)
  {
    function FirstNotFinalised(): FrameNumber {
      match lastFinalisedFrame
      case None => 0
      case Some(f) => f + 1
    }

    // The clock after hearing of `time`.
    function Heard(time: LamportTime): CoreState {
      this.(lamportTime := if lamportTime < time then time else lamportTime)
    }

    // The transactions of the next event and the pool that is left.
    function NextTransactions(): (seq<Transaction>, seq<Transaction>) {
      var len := if |txPool| > TRANSACTIONS_LIMIT then TRANSACTIONS_LIMIT else |txPool|;
      (txPool[..len], txPool[len..])
    }

    // An event takes the front of the pool: all of it, unless that is more than an event can carry.
    lemma FrontOfThePool()
      ensures var (taken, left) := NextTransactions();
              taken + left == txPool && |taken| <= 16000 && (left != [] ==> |taken| == 16000)
    {
    }
  }

  // Start-up

  function LeafOf(p: Peer): Event {
    Event(p.id, p.height, Default, Default, p.lamportTime, [], Default, 0).Hashed()
  }

  function WithLeaf(st: StoreState, p: Peer): StoreState {
    var e := LeafOf(p);
    st.WithEvent(e).WithFlagTable(e.hash, map[e.hash := 0])
  }

  function WithLeaves(st: StoreState, peers: seq<Peer>): StoreState {
    if peers == [] then st
    else WithLeaf(WithLeaves(st, peers[..|peers| - 1]), peers[|peers| - 1])
  }

  function Booted(list: PeersState, creator: PeerId): CoreState {
    var peers := list.(creator := creator).Resorted();
    CoreState(WithLeaves(EmptyStore(), peers.peers), peers, [], 0, Cursor(None, Some(0), Some(0)), None)
  }

  // Insertion

  predicate KnowsParents(st: StoreState, e: Event) {
    && e.selfParent in st.event && e.otherParent in st.event
    && e.selfParent in st.flagTable && e.otherParent in st.flagTable
  }

  // The frame number of an event and whether it is a root, read off its parents' stored frame numbers
  // and flag tables.
  ghost function Decision(event: EventMap, fs: FrameNumber, fo: FrameNumber, ts: FlagTable, to: FlagTable, n: nat)
    : (FrameNumber, bool)
  {
    if fs > fo then (fs, false)
    else if fs < fo then (fo, true)
    else if |CreatorTable(event, StrictMerge(ts, to, fs), fs)| >= RootMajority(n) then (fs + 1, true)
    else (fs, false)
  }

  // The flag table an event is stored with, pruned by the first frame that is still open.
  function Visible(ts: FlagTable, to: FlagTable, first: FrameNumber, h: EventHash, decision: (FrameNumber, bool))
    : FlagTable
  {
    var merged := OpenMerge(ts, to, first);
    if decision.1 then merged[h := decision.0] else merged
  }

  // The frame up to which a table lets a node finalise: the lowest of the peers' highest visible root
  // frames, if it shows a root above the first open frame from every peer.
  ghost function SeenUpto(event: EventMap, vis: FlagTable, first: FrameNumber, n: nat): FrameNumber {
    var seen := CreatorTable(event, vis, first + 1);
    if n == |seen| then MinFrameOf(seen) else 0
  }

  // Sorts the frames from `from` up to, not including, `upto`.
  function FramesFinalised(frame: FrameMap, from: FrameNumber, upto: FrameNumber, digest: EventHash -> nat): FrameMap
    decreases upto - from
  {
    if from >= upto then frame
    else FramesFinalised(frame[from := StableSort(FrameIn(frame, from), RecordOrder(digest))], from + 1, upto, digest)
  }

  function FinalisedUpto(s: CoreState, upto: FrameNumber, digest: EventHash -> nat): CoreState {
    var first := s.FirstNotFinalised();
    s.(store := s.store.(frame := FramesFinalised(s.store.frame, first, upto, digest)),
       lastFinalisedFrame := if first < upto then Some(upto - 1) else s.lastFinalisedFrame)
  }

  // What an insertion decides about `e`.
  ghost function DecisionFor(s: CoreState, e: Event): (FrameNumber, bool)
    requires KnowsParents(s.store, e)
  {
    Decision(s.store.event, s.store.event[e.selfParent].frameNumber, s.store.event[e.otherParent].frameNumber,
             s.store.flagTable[e.selfParent], s.store.flagTable[e.otherParent], |s.peers.peers|)
  }

  ghost function TableFor(s: CoreState, e: Event): FlagTable
    requires KnowsParents(s.store, e)
  {
    Visible(s.store.flagTable[e.selfParent], s.store.flagTable[e.otherParent], s.FirstNotFinalised(), e.hash,
            DecisionFor(s, e))
  }

  // The core with `e` recorded under its frame number with its table.
  ghost function Recorded(s: CoreState, e: Event): CoreState
    requires KnowsParents(s.store, e)
  {
    s.(store := s.store.WithFlagTable(e.hash, TableFor(s, e)).WithEvent(e.(frameNumber := DecisionFor(s, e).0)))
  }

  // The core with frames finalised as far as the table `vis` allows.
  ghost function FinalisedBy(s: CoreState, vis: FlagTable, digest: EventHash -> nat): CoreState {
    FinalisedUpto(s, SeenUpto(s.store.event, vis, s.FirstNotFinalised(), |s.peers.peers|), digest)
  }

  // The whole insertion; an event with an unknown parent changes nothing.
  ghost function Inserted(s: CoreState, e: Event, digest: EventHash -> nat): CoreState {
    if KnowsParents(s.store, e) then FinalisedBy(Recorded(s, e.Hashed()), TableFor(s, e.Hashed()), digest) else s
  }

  // An insertion touches nothing but the store and what is final.
  lemma InsertedKeepsPeers(s: CoreState, e: Event, digest: EventHash -> nat)
    ensures var t := Inserted(s, e, digest); t == s.(store := t.store, lastFinalisedFrame := t.lastFinalisedFrame)
  {
    hide Decision, Visible, SeenUpto, FramesFinalised;
  }

  class DAGcore {
    const store: Store
    const peers: DAGPeerList
    const digest: EventHash -> nat
    var txPool: seq<Transaction>
    var lamportTime: LamportTime
    var currentFrame: Option<FrameNumber>
    var currentEvent: Option<nat>
    var currentTx: Option<nat>
    var lastFinalisedFrame: Option<FrameNumber>

    ghost function State(): CoreState
      reads this, store, peers
    {
      CoreState(store.State(), peers.State(), txPool, lamportTime,
                Cursor(currentFrame, currentEvent, currentTx), lastFinalisedFrame)
    }

    constructor (list: DAGPeerList, creator: PeerId, digest: EventHash -> nat)
      modifies list
      ensures peers == list && fresh(store) && this.digest == digest
      ensures State() == Booted(old(list.State()), creator)
      ensures State().store.Indexed()
    {
      store := new Store();
      peers := list;
      this.digest := digest;
      txPool, lamportTime := [], 0;
      currentFrame, currentEvent, currentTx := None, Some(0), Some(0);
      lastFinalisedFrame := None;
      new;
      list.SetCreator(creator);
      CreateLeaves(list.peers);
    }

    method CreateLeaves(all: seq<Peer>)
      requires store.State() == EmptyStore()
      modifies store
      ensures store.State() == WithLeaves(EmptyStore(), all) && store.State().Indexed()
    {
      for i := 0 to |all|
        invariant store.State() == WithLeaves(EmptyStore(), all[..i])
        invariant store.State().Indexed()
      {
        var event := LeafOf(all[i]);
        assert all[..i + 1][..i] == all[..i];
        store.SetEvent(event);
        store.SetFlagTable(event.hash, map[event.hash := 0]);
      }
      assert all[..|all|] == all;
    }

    method GetNextLamportTime() returns (time: LamportTime)
      modifies this
      ensures time == old(lamportTime) + 1
      ensures State() == old(State()).(lamportTime := time)
    {
      lamportTime := lamportTime + 1;
      time := lamportTime;
    }

    method AddTransaction(data: Transaction)
      modifies this
      ensures State() == old(State()).(txPool := old(txPool) + [data])
    {
      txPool := txPool + [data];
    }

    method NextTransactions() returns (next: seq<Transaction>)
      modifies this
      ensures (next, txPool) == old(State()).NextTransactions()
      ensures next + txPool == old(txPool) && |next| <= 16000 && (txPool != [] ==> |next| == 16000)
      ensures State() == old(State()).(txPool := txPool)
    {
      var len := |txPool|;
      if len > TRANSACTIONS_LIMIT {
        len := TRANSACTIONS_LIMIT;
      }
      next := txPool[..len];
      txPool := txPool[len..];
    }

    method UpdateLamportTime(time: LamportTime)
      modifies this
      ensures State() == old(State()).Heard(time)
    {
      if lamportTime < time {
        lamportTime := time;
      }
    }

    // False stands for the error of a missing parent.
    method InsertEvent(e: Event) returns (ok: bool)
      modifies `lastFinalisedFrame, store
      ensures ok == KnowsParents(old(store.State()), e)
      ensures !ok ==> State() == old(State())
      ensures State() == Inserted(old(State()), e, digest)
      ensures old(store.State()).Indexed() ==> store.State().Indexed()
    {
      var event := e.Hashed();
      var selfParentEvent := store.GetEvent(event.selfParent);
      var otherParentEvent := store.GetEvent(event.otherParent);
      var selfParentFt := store.GetFlagTable(event.selfParent);
      var otherParentFt := store.GetFlagTable(event.otherParent);
      ok := selfParentEvent.Some? && otherParentEvent.Some? && selfParentFt.Some? && otherParentFt.Some?;
      if ok {
        var visibilis := RecordEvent(event, selfParentEvent.value.frameNumber, otherParentEvent.value.frameNumber,
                                     selfParentFt.value, otherParentFt.value);
        FinaliseBy(visibilis);
      }
    }

    // Decides frame and table of `e` and stores all three.
    method RecordEvent(e: Event, fs: FrameNumber, fo: FrameNumber, ts: FlagTable, to: FlagTable)
      returns (visibilis: FlagTable)
      requires KnowsParents(store.State(), e)
      requires store.event[e.selfParent].frameNumber == fs && store.event[e.otherParent].frameNumber == fo
      requires store.flagTable[e.selfParent] == ts && store.flagTable[e.otherParent] == to
      modifies store
      ensures visibilis == TableFor(old(State()), e)
      ensures State() == Recorded(old(State()), e)
      ensures old(store.State()).Indexed() ==> store.State().Indexed()
    {
      var first := match lastFinalisedFrame case Some(x) => x + 1 case None => 0;
      var frame;
      frame, visibilis := PlaceEvent(e.hash, fs, fo, ts, to, first);
      store.SetFlagTable(e.hash, visibilis);
      store.SetEvent(e.(frameNumber := frame));
    }

    method FinaliseBy(visibilis: FlagTable)
      modifies `lastFinalisedFrame, store`frame
      ensures State() == FinalisedBy(old(State()), visibilis, digest)
    {
      var first := match lastFinalisedFrame case Some(x) => x + 1 case None => 0;
      var upto := GetUpto(first, visibilis);
      FinaliseFrames(first, upto);
    }

    // The frame and the flag table of the event `h`.
    method PlaceEvent(h: EventHash, fs: FrameNumber, fo: FrameNumber, ts: FlagTable, to: FlagTable, first: FrameNumber)
      returns (frame: FrameNumber, visibilis: FlagTable)
      ensures var decision := Decision(store.event, fs, fo, ts, to, |peers.peers|);
              frame == decision.0 && visibilis == Visible(ts, to, first, h, decision)
    {
      var root;
      frame, root := DecideFrame(fs, fo, ts, to);
      visibilis := OpenMergeFlagTable(ts, to, first);
      if root {
        visibilis := visibilis[h := frame];
      }
    }

    method DecideFrame(fs: FrameNumber, fo: FrameNumber, ts: FlagTable, to: FlagTable)
      returns (frame: FrameNumber, root: bool)
      ensures (frame, root) == Decision(store.event, fs, fo, ts, to, |peers.peers|)
      ensures fs > fo ==> frame == fs && !root
      ensures fs < fo ==> frame == fo && root
      ensures fs == fo ==>
                && (root <==> 3 * |CreatorTable(store.event, StrictMerge(ts, to, fs), fs)| > 2 * |peers.peers|)
                && frame == if root then fs + 1 else fs
    {
      if fs == fo {
        var rootFlagTable := StrictMergeFlagTable(ts, to, fs);
        var creatorRootFlagTable := store.DeriveCreatorFlagTable(rootFlagTable, fs);
        if |creatorRootFlagTable| >= RootMajority(|peers.peers|) {
          root, frame := true, fs + 1;
        } else {
          root, frame := false, fs;
        }
      } else if fs > fo {
        root, frame := false, fs;
      } else {
        root, frame := true, fo;
      }
    }

    method GetUpto(first: FrameNumber, visibilis: FlagTable) returns (upto: FrameNumber)
      ensures upto == SeenUpto(store.event, visibilis, first, |peers.peers|)
    {
      var creatorVisibilis := store.DeriveCreatorFlagTable(visibilis, first + 1);
      upto := 0;
      if |peers.peers| == |creatorVisibilis| {
        upto := MinFrame(creatorVisibilis);
      }
    }

    method FinaliseFrame(frame: FrameNumber)
      modifies `lastFinalisedFrame, store`frame
      ensures store.frame
           == old(store.frame)[frame := StableSort(FrameIn(old(store.frame), frame), RecordOrder(digest))]
      ensures lastFinalisedFrame == Some(frame)
    {
      var itself := store.GetFrame(frame);
      itself.Finalise(digest);
      store.SetFrame(frame, itself);
      lastFinalisedFrame := Some(frame);
    }

    // The loop over the frames that become final.
    method FinaliseFrames(first: FrameNumber, upto: FrameNumber)
      modifies `lastFinalisedFrame, store`frame
      ensures store.frame == FramesFinalised(old(store.frame), first, upto, digest)
      ensures lastFinalisedFrame == if first < upto then Some(upto - 1) else old(lastFinalisedFrame)
    {
      var frame := first;
      while frame < upto
        invariant FramesFinalised(store.frame, frame, upto, digest)
               == FramesFinalised(old(store.frame), first, upto, digest)
        invariant first <= frame && (frame <= upto || frame == first)
        invariant lastFinalisedFrame == if first < frame then Some(frame - 1) else old(lastFinalisedFrame)
      {
        FinaliseFrame(frame);
        frame := frame + 1;
      }
    }
  }
}
