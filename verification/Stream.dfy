/** The consumer's stream: the cursor loop that hands out the transactions of finalised frames. */
module Stream {
  import opened Wrappers
  import opened Events
  import opened Frames
  import opened Stores
  import opened Dag
  import opened Cores
  import opened Refinement
  import opened Sorting
  import opened Peers
  import opened Soundness
  import opened Nodes

  type Item = (Transaction, PeerId)

  // `Panics` stands for an index out of range or a record without an event.
  datatype Outcome =
    | Waiting(cursor: Cursor)
    | Empty(cursor: Cursor)
    | Served(item: Item, cursor: Cursor)
    | Panics

  // One turn of the loop, `last` being the last finalised frame. When the cursor stands between frames the
  // turn looks at the frame after the one the cursor names, and only the end of a frame is written back.
  function Turn(st: StoreState, c: Cursor, last: FrameNumber): Outcome {
    var named := if c.frame.Some? then c.frame.value else 0;
    if c.event.None? && named >= last then Waiting(c)
    else
      var f := if c.event.None? then named + 1 else named;
      var e := if c.event.None? then 0 else c.event.value;
      var t := if c.tx.None? then 0 else c.tx.value;
      var records := FrameIn(st.frame, f);
      if e >= |records| || records[e].hash !in st.event then Panics
      else
        var event := st.event[records[e].hash];
        var n := |event.transactions|;
        var c' := if t + 1 < n then c.(tx := Some(t + 1))
                  else if e + 1 < |records| then c.(tx := Some(0), event := Some(e + 1))
                  else Cursor(Some(f + 1), None, Some(0));
        if n == 0 then Empty(c')
        else if t < n then Served((event.transactions[t], event.creator), c')
        else Panics
  }

  // How far the cursor is from the end of what is final: frames first, then the place within the frame.
  function FramesLeft(c: Cursor, last: FrameNumber): nat {
    var named := if c.frame.Some? then c.frame.value else 0;
    if named > last then 0 else last + 1 - named
  }

  function EventsLeft(st: StoreState, c: Cursor, last: FrameNumber): nat {
    var named := if c.frame.Some? then c.frame.value else 0;
    var size := |FrameIn(st.frame, named)|;
    if c.event.None? then (if named >= last then 0 else size + 2)
    else if c.event.value <= size then size + 1 - c.event.value
    else 1
  }

  // A whole poll: turns until an item turns up, skipping events without transactions.
  function Poll(st: StoreState, c: Cursor, last: FrameNumber): Outcome
    decreases FramesLeft(c, last), EventsLeft(st, c, last)
  {
    var outcome := Turn(st, c, last);
    if outcome.Empty? then Poll(st, outcome.cursor, last) else outcome
  }

  // What a poll of a core serves, and the core after it; one that cannot go on leaves the core alone.
  function Polled(s: CoreState): (CoreState, seq<Item>) {
    match s.lastFinalisedFrame
    case None => (s, [])
    case Some(last) =>
      match Poll(s.store, s.cursor, last)
      case Served(item, c) => (s.(cursor := c), [item])
      case Waiting(c) => (s.(cursor := c), [])
      case _ => (s, [])
  }

  // One turn in place; `waiting` when there is nothing final to look at.
  method TakeTurn(core: DAGcore, last: FrameNumber) returns (waiting: bool, item: Option<Item>)
    requires !Turn(core.store.State(), core.State().cursor, last).Panics?
    modifies core`currentFrame, core`currentEvent, core`currentTx
    ensures var outcome := Turn(old(core.store.State()), old(core.State()).cursor, last);
            && core.State().cursor == outcome.cursor
            && waiting == outcome.Waiting?
            && item == (if outcome.Served? then Some(outcome.item) else None)
  {
    waiting, item := false, None;
    var currentFrame := if core.currentFrame.Some? then core.currentFrame.value else 0;
    var currentEvent := 0;
    if core.currentEvent.None? {
      if currentFrame >= last {
        return true, None;
      }
      currentFrame := currentFrame + 1;
    } else {
      currentEvent := core.currentEvent.value;
    }
    var currentTx := if core.currentTx.Some? then core.currentTx.value else 0;
    var frame := core.store.GetFrame(currentFrame);
    var record := frame.events[currentEvent];
    var event := core.store.GetEvent(record.hash);
    var n := |event.value.transactions|;
    if n > 0 {
      item := Some((event.value.transactions[currentTx], event.value.creator));
    }
    currentTx := currentTx + 1;
    if currentTx < n {
      core.currentTx := Some(currentTx);
    } else {
      core.currentTx := Some(0);
      currentEvent := currentEvent + 1;
      if currentEvent < |frame.events| {
        core.currentEvent := Some(currentEvent);
      } else {
        core.currentEvent := None;
        core.currentFrame := Some(currentFrame + 1);
      }
    }
  }

  // A poll; `None` stands for one that has to wait.
  method PollNext(core: DAGcore) returns (item: Option<Item>)
    requires core.lastFinalisedFrame.Some? ==>
               !Poll(core.store.State(), core.State().cursor, core.lastFinalisedFrame.value).Panics?
    modifies core`currentFrame, core`currentEvent, core`currentTx
    ensures core.lastFinalisedFrame.None? ==> item == None && core.State() == old(core.State())
    ensures core.lastFinalisedFrame.Some? ==>
              var outcome := Poll(old(core.store.State()), old(core.State()).cursor, core.lastFinalisedFrame.value);
              item == (if outcome.Served? then Some(outcome.item) else None) && core.State().cursor == outcome.cursor
  {
    item := None;
    if core.lastFinalisedFrame.None? {
      return;
    }
    var last := core.lastFinalisedFrame.value;
    var waiting := false;
    while !waiting && item == None
      invariant !waiting && item == None ==> !Poll(core.store.State(), core.State().cursor, last).Panics?
      invariant !waiting && item == None ==>
                  Poll(core.store.State(), core.State().cursor, last)
                  == Poll(core.store.State(), old(core.State()).cursor, last)
      invariant waiting || item != None ==>
                  var outcome := Poll(core.store.State(), old(core.State()).cursor, last);
                  !outcome.Panics? && core.State().cursor == outcome.cursor && waiting == outcome.Waiting?
                  && item == (if outcome.Served? then Some(outcome.item) else None)
      decreases !waiting && item == None,
                FramesLeft(core.State().cursor, last), EventsLeft(core.store.State(), core.State().cursor, last)
    {
      waiting, item := TakeTurn(core, last);
    }
    PollNeverEndsEmpty(core.store.State(), old(core.State()).cursor, last);
  }

  lemma {:induction false} PollNeverEndsEmpty(st: StoreState, c: Cursor, last: FrameNumber)
    ensures !Poll(st, c, last).Empty?
    decreases FramesLeft(c, last), EventsLeft(st, c, last)
  {
    if Turn(st, c, last).Empty? {
      PollNeverEndsEmpty(st, Turn(st, c, last).cursor, last);
    }
  }

  // The order of the stream

  function ItemsIn(h: EventHash): seq<Item> {
    seq(|Payload(h)|, i requires 0 <= i < |Payload(h)| => (Payload(h)[i], Creator(h)))
  }

  // The items of a list of records, in order.
  function ItemsOf(records: seq<FrameRecord>): seq<Item> {
    if records == [] then [] else ItemsOf(records[..|records| - 1]) + ItemsIn(records[|records| - 1].hash)
  }

  function First(records: seq<FrameRecord>): seq<FrameRecord> { if records == [] then [] else records[..1] }

  function Rest(records: seq<FrameRecord>): seq<FrameRecord> { if records == [] then [] else records[1..] }

  // What the stream looks at while its cursor names frame `f`: the first record of the frame after, and
  // then its own but for the first.
  function Round(frame: FrameMap, f: FrameNumber): seq<FrameRecord> {
    First(FrameIn(frame, f + 1)) + Rest(FrameIn(frame, f))
  }

  // Frame 0 and the rounds up to that of frame `f`.
  function Rounds(frame: FrameMap, f: FrameNumber): seq<FrameRecord> {
    if f == 0 then FrameIn(frame, 0) else Rounds(frame, f - 1) + Round(frame, f)
  }

  // Everything the stream can look at when the first `open` frames are final. A round needs two of them.
  function RecordsOpen(frame: FrameMap, open: FrameNumber): seq<FrameRecord> {
    if open == 0 then [] else if open == 1 then Rounds(frame, 0) else Rounds(frame, open - 2)
  }

  ghost function StreamRecords(s: CoreState): seq<FrameRecord> { RecordsOpen(s.store.frame, s.FirstNotFinalised()) }

  // Everything a consumer can have received from a core.
  ghost function StreamItems(s: CoreState): seq<Item> { ItemsOf(StreamRecords(s)) }

  // The cursor

  // A cursor as polls leave it when the first `open` frames are final.
  ghost predicate InStream(frame: FrameMap, c: Cursor, open: FrameNumber) {
    && c.tx.Some?
    && (c.frame.None? ==>
          c.event.Some? && if open == 0 then c.event.value == 0 else c.event.value < |FrameIn(frame, 0)|)
    && (c.frame.Some? && c.event.None? ==>
          1 <= c.frame.value && 1 <= open && (c.frame.value == 1 || c.frame.value < open))
    && (c.frame.Some? && c.event.Some? ==>
          1 <= c.frame.value && c.frame.value + 1 < open && 1 <= c.event.value < |FrameIn(frame, c.frame.value)|)
  }

  // The records a cursor has left behind.
  ghost function Visited(frame: FrameMap, c: Cursor, open: FrameNumber): seq<FrameRecord>
    requires InStream(frame, c, open)
  {
    if open == 0 then []
    else if c.frame.None? then FrameIn(frame, 0)[..c.event.value]
    else if c.event.None? then Rounds(frame, c.frame.value - 1)
    else
      Rounds(frame, c.frame.value - 1) + First(FrameIn(frame, c.frame.value + 1))
      + FrameIn(frame, c.frame.value)[1..c.event.value]
  }

  // Whether the frame of the record the cursor points at is final, and that record.
  ghost predicate HasCurrent(c: Cursor, open: FrameNumber) {
    if c.frame.None? then open > 0 else if c.event.None? then c.frame.value + 1 < open else true
  }

  ghost function Current(frame: FrameMap, c: Cursor, open: FrameNumber): FrameRecord
    requires InStream(frame, c, open) && HasCurrent(c, open)
    requires c.frame.Some? && c.event.None? ==> FrameIn(frame, c.frame.value + 1) != []
  {
    if c.frame.None? then FrameIn(frame, 0)[c.event.value]
    else if c.event.None? then FrameIn(frame, c.frame.value + 1)[0]
    else FrameIn(frame, c.frame.value)[c.event.value]
  }

  // Every final frame has two records or more, of stored events. After the first event of frame f + 1 the
  // cursor points at event 1 of frame f: were there none, the next turn would index past the frame's end.
  ghost predicate Full(st: StoreState, open: FrameNumber) {
    && (forall f: FrameNumber {:trigger FrameIn(st.frame, f)} :: f < open ==> |FrameIn(st.frame, f)| >= 2)
    && (forall f: FrameNumber, rec {:trigger rec in FrameIn(st.frame, f)} :: f < open && rec in FrameIn(st.frame, f) ==>
          Stored(st, rec))
  }

  ghost predicate Stored(st: StoreState, rec: FrameRecord) {
    && rec.hash in st.event && st.event[rec.hash].transactions == Payload(rec.hash)
    && st.event[rec.hash].creator == Creator(rec.hash)
  }

  // A consumer has received what lies before the cursor.
  ghost predicate Received(st: StoreState, c: Cursor, open: FrameNumber, items: seq<Item>) {
    && InStream(st.frame, c, open) && Full(st, open)
    && if !HasCurrent(c, open) then c.tx == Some(0) && items == ItemsOf(Visited(st.frame, c, open))
       else
         var now := ItemsIn(Current(st.frame, c, open).hash);
         && (c.tx.value == 0 || c.tx.value < |now|)
         && items == ItemsOf(Visited(st.frame, c, open)) + now[..c.tx.value]
  }

  // The place after the current record.
  ghost function Onward(frame: FrameMap, c: Cursor): Cursor
    requires c.frame.None? ==> c.event.Some?
  {
    if c.frame.None? then
      if c.event.value + 1 < |FrameIn(frame, 0)| then Cursor(None, Some(c.event.value + 1), Some(0))
      else Cursor(Some(1), None, Some(0))
    else if c.event.None? then Cursor(c.frame, Some(1), Some(0))
    else if c.event.value + 1 < |FrameIn(frame, c.frame.value)| then Cursor(c.frame, Some(c.event.value + 1), Some(0))
    else Cursor(Some(c.frame.value + 1), None, Some(0))
  }

  lemma OnwardVisits(st: StoreState, c: Cursor, open: FrameNumber)
    requires InStream(st.frame, c, open) && Full(st, open) && HasCurrent(c, open)
    ensures InStream(st.frame, Onward(st.frame, c), open)
    ensures Visited(st.frame, Onward(st.frame, c), open) == Visited(st.frame, c, open) + [Current(st.frame, c, open)]
  {
    hide Rounds;
    var frame, c' := st.frame, Onward(st.frame, c);
    assert |FrameIn(frame, 0)| >= 2;
    if c.frame.None? {
      RoundsStart(frame);
    } else if c.event.None? {
      assert |FrameIn(frame, c.frame.value)| >= 2 && |FrameIn(frame, c.frame.value + 1)| >= 2;
    } else {
      var f, e := c.frame.value, c.event.value;
      assert |FrameIn(frame, f)| >= 2 && |FrameIn(frame, f + 1)| >= 2;
      assert FrameIn(frame, f)[1..e] + [FrameIn(frame, f)[e]] == FrameIn(frame, f)[1..e + 1];
      RoundsStep(frame, f);
    }
  }

  lemma RoundsStart(frame: FrameMap)
    ensures Rounds(frame, 0) == FrameIn(frame, 0)
  {
  }

  lemma RoundsStep(frame: FrameMap, f: FrameNumber)
    requires f > 0
    ensures Rounds(frame, f) == Rounds(frame, f - 1) + First(FrameIn(frame, f + 1)) + Rest(FrameIn(frame, f))
  {
  }

  lemma ItemsOfOneMore(records: seq<FrameRecord>, rec: FrameRecord)
    ensures ItemsOf(records + [rec]) == ItemsOf(records) + ItemsIn(rec.hash)
  {
    assert (records + [rec])[..|records|] == records;
  }

  lemma {:induction false} ItemsOfPrefix(a: seq<FrameRecord>, b: seq<FrameRecord>)
    requires a <= b
    ensures ItemsOf(a) <= ItemsOf(b)
  {
    if |a| == |b| {
      assert a == b;
    } else {
      ItemsOfPrefix(a, b[..|b| - 1]);
    }
  }

  // The current record stays in the range of the stream.
  lemma VisitedIsOpen(st: StoreState, c: Cursor, open: FrameNumber)
    requires InStream(st.frame, c, open) && Full(st, open)
    ensures Visited(st.frame, c, open) <= RecordsOpen(st.frame, open)
    ensures HasCurrent(c, open) ==>
              Visited(st.frame, c, open) + [Current(st.frame, c, open)] <= RecordsOpen(st.frame, open)
    ensures c.frame.Some? && c.event.None? && !HasCurrent(c, open) ==>
              Visited(st.frame, c, open) == RecordsOpen(st.frame, open)
  {
    if HasCurrent(c, open) {
      OnwardVisits(st, c, open);
      VisitedRange(st, Onward(st.frame, c), open);
    }
    VisitedRange(st, c, open);
  }

  lemma VisitedRange(st: StoreState, c: Cursor, open: FrameNumber)
    requires InStream(st.frame, c, open) && Full(st, open)
    ensures Visited(st.frame, c, open) <= RecordsOpen(st.frame, open)
  {
    var frame := st.frame;
    if open > 0 {
      RoundsStart(frame);
      var upto := if open == 1 then 0 else open - 2;
      RoundsExtend(frame, 0, upto);
      if c.frame.Some? && c.event.None? {
        RoundsExtend(frame, c.frame.value - 1, upto);
      } else if c.frame.Some? {
        RoundsStep(frame, c.frame.value);
        RoundsExtend(frame, c.frame.value, upto);
        assert |FrameIn(frame, c.frame.value)| >= 2;
        assert Visited(frame, c, open) <= Rounds(frame, c.frame.value);
      }
    }
  }

  lemma {:induction false} RoundsExtend(frame: FrameMap, f: FrameNumber, g: FrameNumber)
    requires f <= g
    ensures Rounds(frame, f) <= Rounds(frame, g)
    decreases g
  {
    if f == g {
    } else {
      RoundsExtend(frame, f, g - 1);
      RoundsStep(frame, g);
      hide Rounds, First, Rest;
    }
  }

  // A turn moves the cursor by one item, or past one event without any, and it waits only when nothing
  // that is open is left.
  lemma TurnAdvances(st: StoreState, c: Cursor, open: FrameNumber, items: seq<Item>)
    requires Received(st, c, open, items) && open > 0
    ensures var o := Turn(st, c, open - 1);
            && !o.Panics?
            && (o.Waiting? ==> o.cursor == c && items == ItemsOf(RecordsOpen(st.frame, open)))
            && (o.Empty? ==> Received(st, o.cursor, open, items))
            && (o.Served? ==> Received(st, o.cursor, open, items + [o.item]))
  {
    hide Turn, RecordsOpen, Visited, InStream, Full, Current, HasCurrent;
    if !HasCurrent(c, open) {
      TurnWaits(st, c, open);
      VisitedIsOpen(st, c, open);
    } else {
      TurnServes(st, c, open, items);
    }
  }

  lemma TurnServes(st: StoreState, c: Cursor, open: FrameNumber, items: seq<Item>)
    requires Received(st, c, open, items) && open > 0 && HasCurrent(c, open)
    ensures var o := Turn(st, c, open - 1);
            && (o.Empty? || o.Served?)
            && Received(st, o.cursor, open, if o.Served? then items + [o.item] else items)
  {
    hide Turn, RecordsOpen, Visited, Onward, InStream, Full, Current, HasCurrent, ItemsOf, ItemsIn;
    CurrentIsStored(st, c, open);
    var rec, t := Current(st.frame, c, open), c.tx.value;
    OnwardVisits(st, c, open);
    ItemsOfOneMore(Visited(st.frame, c, open), rec);
    TurnAtCurrent(st, c, open);
    var now := ItemsIn(rec.hash);
    if t + 1 < |now| {
      assert now[..t + 1] == now[..t] + [now[t]];
      MidEventStays(st.frame, c, open, t + 1);
    } else {
      assert now == if |now| > 0 then now[..t] + [now[t]] else now[..t];
      OnwardIsFresh(st, c, open, items + now[t..]);
    }
  }

  lemma MidEventStays(frame: FrameMap, c: Cursor, open: FrameNumber, t: nat)
    requires InStream(frame, c, open) && HasCurrent(c, open)
    requires c.frame.Some? && c.event.None? ==> FrameIn(frame, c.frame.value + 1) != []
    ensures var c' := c.(tx := Some(t));
            && InStream(frame, c', open) && HasCurrent(c', open)
            && Visited(frame, c', open) == Visited(frame, c, open)
            && Current(frame, c', open) == Current(frame, c, open)
  {
  }

  // At the start of a record nothing of it has been received.
  lemma OnwardIsFresh(st: StoreState, c: Cursor, open: FrameNumber, items: seq<Item>)
    requires InStream(st.frame, c, open) && Full(st, open) && HasCurrent(c, open)
    requires InStream(st.frame, Onward(st.frame, c), open)
    requires items == ItemsOf(Visited(st.frame, Onward(st.frame, c), open))
    ensures Received(st, Onward(st.frame, c), open, items)
  {
    hide Visited, ItemsOf, Current;
  }

  lemma TurnWaits(st: StoreState, c: Cursor, open: FrameNumber)
    requires InStream(st.frame, c, open) && open > 0 && !HasCurrent(c, open)
    ensures c.frame.Some? && c.event.None? && Turn(st, c, open - 1) == Waiting(c)
  {
  }

  lemma CurrentIsStored(st: StoreState, c: Cursor, open: FrameNumber)
    requires InStream(st.frame, c, open) && Full(st, open) && HasCurrent(c, open)
    ensures c.tx.Some? && (c.frame.Some? && c.event.None? ==> FrameIn(st.frame, c.frame.value + 1) != [])
    ensures Stored(st, Current(st.frame, c, open))
  {
    var f := if c.frame.None? then 0 else if c.event.None? then c.frame.value + 1 else c.frame.value;
    assert |FrameIn(st.frame, f)| >= 2;
    assert Current(st.frame, c, open) in FrameIn(st.frame, f);
  }

  lemma TurnAtCurrent(st: StoreState, c: Cursor, open: FrameNumber)
    requires InStream(st.frame, c, open) && Full(st, open) && HasCurrent(c, open)
    requires var now := ItemsIn(Current(st.frame, c, open).hash); c.tx.value == 0 || c.tx.value < |now|
    ensures var o, now := Turn(st, c, open - 1), ItemsIn(Current(st.frame, c, open).hash);
            && (|now| == 0 ==> o == Empty(Onward(st.frame, c)))
            && (|now| > 0 ==> o == Served(now[c.tx.value],
                  if c.tx.value + 1 < |now| then c.(tx := Some(c.tx.value + 1)) else Onward(st.frame, c)))
  {
    CurrentIsStored(st, c, open);
    if c.frame.Some? && c.event.None? {
      assert |FrameIn(st.frame, c.frame.value + 1)| >= 2;
    }
  }

  // Whatever a consumer has received is a prefix of what the stream has open.
  lemma ReceivedIsOpen(st: StoreState, c: Cursor, open: FrameNumber, items: seq<Item>)
    requires Received(st, c, open, items)
    ensures items <= ItemsOf(RecordsOpen(st.frame, open))
  {
    hide RecordsOpen, Visited, Current;
    VisitedIsOpen(st, c, open);
    var before := Visited(st.frame, c, open);
    ItemsOfPrefix(before, RecordsOpen(st.frame, open));
    if HasCurrent(c, open) {
      var rec := Current(st.frame, c, open);
      ItemsOfOneMore(before, rec);
      ItemsOfPrefix(before + [rec], RecordsOpen(st.frame, open));
    }
  }

  lemma {:induction false} PollAdvances(st: StoreState, c: Cursor, open: FrameNumber, items: seq<Item>)
    requires Received(st, c, open, items) && open > 0
    ensures var o := Poll(st, c, open - 1);
            && (o.Waiting? || o.Served?)
            && (o.Waiting? ==> Received(st, o.cursor, open, items) && items == ItemsOf(RecordsOpen(st.frame, open)))
            && (o.Served? ==> Received(st, o.cursor, open, items + [o.item]))
    decreases FramesLeft(c, open - 1), EventsLeft(st, c, open - 1)
  {
    TurnAdvances(st, c, open, items);
    var o := Turn(st, c, open - 1);
    if o.Empty? {
      hide Received;
      PollAdvances(st, o.cursor, open, items);
    }
  }

  // Any core

  // The cursor points into the stream.
  ghost predicate Placed(st: StoreState, c: Cursor, open: FrameNumber) {
    && InStream(st.frame, c, open) && Full(st, open)
    && if !HasCurrent(c, open) then c.tx == Some(0)
       else c.tx.value == 0 || c.tx.value < |ItemsIn(Current(st.frame, c, open).hash)|
  }

  // The items that lie before it.
  ghost function ItemsBefore(st: StoreState, c: Cursor, open: FrameNumber): seq<Item>
    requires Placed(st, c, open)
  {
    if !HasCurrent(c, open) then ItemsOf(Visited(st.frame, c, open))
    else ItemsOf(Visited(st.frame, c, open)) + ItemsIn(Current(st.frame, c, open).hash)[..c.tx.value]
  }

  lemma ReceivedIsBefore(st: StoreState, c: Cursor, open: FrameNumber, items: seq<Item>)
    ensures Received(st, c, open, items) <==> Placed(st, c, open) && items == ItemsBefore(st, c, open)
  {
    hide ItemsOf, Visited, Current, Full, InStream;
  }

  ghost predicate CursorSound(s: CoreState) { Placed(s.store, s.cursor, s.FirstNotFinalised()) }

  ghost function Before(s: CoreState): seq<Item>
    requires CursorSound(s)
  {
    ItemsBefore(s.store, s.cursor, s.FirstNotFinalised())
  }

  // What a consumer has received from a core is right.
  ghost predicate StreamTrue(s: CoreState, items: seq<Item>) {
    Received(s.store, s.cursor, s.FirstNotFinalised(), items)
  }

  // Every poll serves exactly the next item of the stream, and waits exactly when there is none; none
  // fails.
  lemma PollServesTheNext(s: CoreState, items: seq<Item>)
    requires StreamTrue(s, items)
    ensures s.lastFinalisedFrame.Some? ==> !Poll(s.store, s.cursor, s.lastFinalisedFrame.value).Panics?
    ensures items <= StreamItems(s)
    ensures Polled(s).1 == if |items| < |StreamItems(s)| then [StreamItems(s)[|items|]] else []
    ensures StreamTrue(Polled(s).0, items + Polled(s).1)
  {
    hide Received, Poll, ItemsOf, RecordsOpen;
    var open := s.FirstNotFinalised();
    ReceivedIsOpen(s.store, s.cursor, open, items);
    if s.lastFinalisedFrame.None? {
      NothingIsOpen(s.store.frame);
    } else {
      PollAdvances(s.store, s.cursor, open, items);
      var o := Poll(s.store, s.cursor, open - 1);
      if o.Served? {
        ReceivedIsOpen(s.store, o.cursor, open, items + [o.item]);
      }
    }
    assert items + [] == items;
  }

  // Whatever a core was told: a poll serves the item at the cursor, or waits when there is none, and never
  // fails.
  lemma PollServesTheCursor(s: CoreState)
    requires CursorSound(s)
    ensures s.lastFinalisedFrame.Some? ==> !Poll(s.store, s.cursor, s.lastFinalisedFrame.value).Panics?
    ensures Before(s) <= StreamItems(s)
    ensures Polled(s).1 == if |Before(s)| < |StreamItems(s)| then [StreamItems(s)[|Before(s)|]] else []
    ensures CursorSound(Polled(s).0) && Before(Polled(s).0) == Before(s) + Polled(s).1
  {
    hide Received, Placed, Poll, ItemsOf, RecordsOpen, ItemsBefore;
    var t, open := Polled(s).0, s.FirstNotFinalised();
    ReceivedIsBefore(s.store, s.cursor, open, Before(s));
    PollServesTheNext(s, Before(s));
    ReceivedIsBefore(t.store, t.cursor, t.FirstNotFinalised(), Before(s) + Polled(s).1);
  }

  lemma NothingIsOpen(frame: FrameMap)
    ensures ItemsOf(RecordsOpen(frame, 0)) == []
  {
  }

  // While frames become final

  lemma {:induction false} RoundsAgree(a: FrameMap, b: FrameMap, f: FrameNumber, open: FrameNumber)
    requires forall g: FrameNumber :: g < open ==> FrameIn(a, g) == FrameIn(b, g)
    requires open >= 1 && (f == 0 || f + 1 < open)
    ensures Rounds(a, f) == Rounds(b, f)
  {
    if f == 0 {
    } else {
      RoundsAgree(a, b, f - 1, open);
      assert FrameIn(a, f) == FrameIn(b, f) && FrameIn(a, f + 1) == FrameIn(b, f + 1);
    }
  }

  // What has been received stays right while more becomes final.
  lemma StreamStaysTrue(s: CoreState, t: CoreState, items: seq<Item>)
    requires StreamTrue(s, items) && FinalityGrows(s, t) && t.cursor == s.cursor
    requires Full(t.store, t.FirstNotFinalised())
    ensures StreamTrue(t, items)
  {
    hide ItemsOf, ItemsIn, Stored;
    var a, b, c, open, more := s.store.frame, t.store.frame, s.cursor, s.FirstNotFinalised(), t.FirstNotFinalised();
    assert more > 0 ==> |FrameIn(b, 0)| >= 2;
    assert open > 0 ==> FrameIn(a, 0) == FrameIn(b, 0);
    if c.frame.Some? {
      var f := c.frame.value;
      RoundsAgree(a, b, f - 1, open);
      assert f < open ==> FrameIn(a, f) == FrameIn(b, f);
      assert f + 1 < open ==> FrameIn(a, f + 1) == FrameIn(b, f + 1);
    }
  }

  // A cursor keeps its place while a core learns more, even where late records are appended to frames that
  // are final already.
  lemma CursorStaysSound(s: CoreState, t: CoreState)
    requires CursorSound(s) && RecordsGrow(s, t) && t.cursor == s.cursor
    requires Full(t.store, t.FirstNotFinalised())
    ensures CursorSound(t)
  {
    hide ItemsIn, Stored;
    var a, b, c, open, more := s.store.frame, t.store.frame, s.cursor, s.FirstNotFinalised(), t.FirstNotFinalised();
    assert more > 0 ==> |FrameIn(b, 0)| >= 2;
    assert open > 0 ==> FrameIn(a, 0) <= FrameIn(b, 0);
    if c.frame.Some? {
      var f := c.frame.value;
      assert f < open ==> FrameIn(a, f) <= FrameIn(b, f);
      assert f + 1 < open ==> |FrameIn(a, f + 1)| >= 2 && FrameIn(a, f + 1) <= FrameIn(b, f + 1);
    }
  }

  lemma OpenExtends(a: FrameMap, b: FrameMap, low: FrameNumber, high: FrameNumber)
    requires low <= high && forall f: FrameNumber :: f < low ==> FrameIn(a, f) == FrameIn(b, f)
    ensures RecordsOpen(a, low) <= RecordsOpen(b, high)
  {
    if low > 0 {
      var f, g := if low == 1 then 0 else low - 2, if high == 1 then 0 else high - 2;
      RoundsAgree(a, b, f, low);
      RoundsExtend(b, f, g);
    }
  }

  // Two nodes' streams hold the same items in the same order, as far as both go.
  lemma StreamsAgree(s: CoreState, t: CoreState, dag: set<EventHash>, peers: set<PeerId>, digest: EventHash -> nat)
    requires CoreTrue(s, peers, digest) && CoreTrue(t, peers, digest) && Injective(digest, dag)
    requires Closed(dag, peers) && ForkFree(dag) && s.store.event.Keys <= dag && t.store.event.Keys <= dag
    ensures Comparable(StreamItems(s), StreamItems(t))
  {
    hide CoreTrue, RecordsOpen, ItemsOf;
    if s.FirstNotFinalised() <= t.FirstNotFinalised() {
      ShorterStreamIsPrefix(s, t, dag, peers, digest);
    } else {
      ShorterStreamIsPrefix(t, s, dag, peers, digest);
    }
  }

  lemma ShorterStreamIsPrefix(s: CoreState, t: CoreState, dag: set<EventHash>, peers: set<PeerId>,
                              digest: EventHash -> nat)
    requires CoreTrue(s, peers, digest) && CoreTrue(t, peers, digest) && Injective(digest, dag)
    requires Closed(dag, peers) && ForkFree(dag) && s.store.event.Keys <= dag && t.store.event.Keys <= dag
    requires s.FirstNotFinalised() <= t.FirstNotFinalised()
    ensures StreamItems(s) <= StreamItems(t)
  {
    hide CoreTrue, RecordsOpen, ItemsOf;
    forall f: FrameNumber | f < s.FirstNotFinalised() ensures FrameIn(s.store.frame, f) == FrameIn(t.store.frame, f) {
      FinalFramesAgree(s, t, dag, peers, digest, f);
    }
    OpenExtends(s.store.frame, t.store.frame, s.FirstNotFinalised(), t.FirstNotFinalised());
    ItemsOfPrefix(StreamRecords(s), StreamRecords(t));
  }

  // In a cluster of two or more every node's final frames are full, hit or not.
  lemma SoundIsFull(s: CoreState)
    requires FramesSound(s) && EventsFiled(s.store.event) && |s.peers.peers| >= 2
    ensures Full(s.store, s.FirstNotFinalised())
  {
    forall f: FrameNumber | f < s.FirstNotFinalised()
      ensures |FrameIn(s.store.frame, f)| >= 2
      ensures forall rec :: rec in FrameIn(s.store.frame, f) ==> Stored(s.store, rec)
    {
      FinalFramesHaveMajority(s, f);
    }
  }

  // The first frame comes first: while any of its items is left, the next one is what a poll serves.
  lemma FirstFrameDrains(s: CoreState, items: seq<Item>)
    requires StreamTrue(s, items) && s.lastFinalisedFrame.Some?
    ensures var first := ItemsOf(FrameIn(s.store.frame, 0));
            && Comparable(items, first)
            && (|items| < |first| ==> items < first && Polled(s).1 == [first[|items|]])
  {
    hide Received, ItemsOf, Polled;
    var frame, open := s.store.frame, s.FirstNotFinalised();
    RoundsStart(frame);
    RoundsExtend(frame, 0, if open == 1 then 0 else open - 2);
    ItemsOfPrefix(FrameIn(frame, 0), StreamRecords(s));
    PollServesTheNext(s, items);
    var first, all := ItemsOf(FrameIn(frame, 0)), StreamItems(s);
    assert first == all[..|first|] && items == all[..|items|];
  }

  // The stream and the final order

  lemma {:induction false} ItemsOfTwo(a: seq<FrameRecord>, b: seq<FrameRecord>)
    ensures ItemsOf(a + b) == ItemsOf(a) + ItemsOf(b)
  {
    if b == [] {
      assert a + b == a;
    } else {
      hide ItemsOf, ItemsIn;
      ItemsOfTwo(a, b[..|b| - 1]);
      LastOfConcat(a, b);
      ItemsOfLast(b);
      ItemsOfLast(a + b);
      ConcatAssociates(ItemsOf(a), ItemsOf(b[..|b| - 1]), ItemsIn(b[|b| - 1].hash));
    }
  }

  lemma LastOfConcat<T>(a: seq<T>, b: seq<T>)
    requires b != []
    ensures (a + b)[..|a + b| - 1] == a + b[..|b| - 1] && (a + b)[|a + b| - 1] == b[|b| - 1]
  {
  }

  lemma ItemsOfLast(records: seq<FrameRecord>)
    requires records != []
    ensures ItemsOf(records) == ItemsOf(records[..|records| - 1]) + ItemsIn(records[|records| - 1].hash)
  {
  }

  lemma ConcatAssociates<T>(a: seq<T>, b: seq<T>, c: seq<T>)
    ensures a + b + c == a + (b + c)
  {
  }

  // A round serves the items of its frame in their final order exactly when the first records of that
  // frame and of the next have the same items.
  lemma RoundFollowsFinalOrder(frame: FrameMap, f: FrameNumber)
    requires FrameIn(frame, f) != [] && FrameIn(frame, f + 1) != []
    ensures ItemsOf(Round(frame, f)) == ItemsOf(FrameIn(frame, f))
       <==> ItemsIn(FrameIn(frame, f + 1)[0].hash) == ItemsIn(FrameIn(frame, f)[0].hash)
  {
    var mine, next := FrameIn(frame, f), FrameIn(frame, f + 1);
    FirstAndRest(mine);
    ItemsOfTwo(First(mine), Rest(mine));
    ItemsOfTwo(First(next), Rest(mine));
    ItemsOfOne(mine[0]);
    ItemsOfOne(next[0]);
    hide ItemsOf, ItemsIn;
    assert First(mine) == [mine[0]] && First(next) == [next[0]];
    SuffixCancels(ItemsOf([next[0]]), ItemsOf([mine[0]]), ItemsOf(Rest(mine)));
  }

  lemma ItemsOfOne(rec: FrameRecord)
    ensures ItemsOf([rec]) == ItemsIn(rec.hash)
  {
    ItemsOfOneMore([], rec);
    assert [] + [rec] == [rec];
  }

  lemma SuffixCancels<T>(a: seq<T>, b: seq<T>, c: seq<T>)
    ensures a + c == b + c <==> a == b
  {
    if a + c == b + c {
      assert |a| == |b|;
      assert a == (a + c)[..|a|] && b == (b + c)[..|b|];
    }
  }

  // The rounds that are open follow the final order exactly when the first records of all their frames
  // have the same items, and then what is served is a prefix of the items in final order.
  lemma StreamFollowsFinalOrder(s: CoreState)
    requires Full(s.store, s.FirstNotFinalised())
    ensures AllRoundsInOrder(s.store.frame, s.FirstNotFinalised())
       <==> AllFirstsAlike(s.store.frame, s.FirstNotFinalised())
    ensures AllFirstsAlike(s.store.frame, s.FirstNotFinalised()) ==> StreamItems(s) <= ItemsOf(FinalSequence(s))
  {
    var frame, open := s.store.frame, s.FirstNotFinalised();
    forall f: FrameNumber | 1 <= f && f + 1 < open
      ensures RoundInOrder(frame, f) <==> FirstsAlike(frame, f)
    {
      assert |FrameIn(frame, f)| >= 2 && |FrameIn(frame, f + 1)| >= 2;
      RoundFollowsFinalOrder(frame, f);
    }
    if AllFirstsAlike(frame, open) {
      assert AllRoundsInOrder(frame, open);
      RoundsInOrderAreFinal(s);
    }
  }

  lemma RoundsInOrderAreFinal(s: CoreState)
    requires AllRoundsInOrder(s.store.frame, s.FirstNotFinalised())
    ensures StreamItems(s) <= ItemsOf(FinalSequence(s))
  {
    hide RoundInOrder, RecordsBelow, Rounds;
    var frame, open := s.store.frame, s.FirstNotFinalised();
    if open > 0 {
      hide ItemsOf;
      var upto := if open == 1 then 0 else open - 2;
      RoundsInOrder(frame, open, upto);
      RecordsOnlyExtend(frame, upto + 1, open);
      ItemsOfPrefix(RecordsBelow(frame, upto + 1), RecordsBelow(frame, open));
    }
  }

  ghost predicate RoundInOrder(frame: FrameMap, f: FrameNumber) {
    ItemsOf(Round(frame, f)) == ItemsOf(FrameIn(frame, f))
  }

  ghost predicate FirstsAlike(frame: FrameMap, f: FrameNumber) {
    && FrameIn(frame, f) != [] && FrameIn(frame, f + 1) != []
    && ItemsIn(FrameIn(frame, f + 1)[0].hash) == ItemsIn(FrameIn(frame, f)[0].hash)
  }

  ghost predicate AllRoundsInOrder(frame: FrameMap, open: FrameNumber) {
    forall f: FrameNumber {:trigger RoundInOrder(frame, f)} :: 1 <= f && f + 1 < open ==> RoundInOrder(frame, f)
  }

  ghost predicate AllFirstsAlike(frame: FrameMap, open: FrameNumber) {
    forall f: FrameNumber {:trigger FirstsAlike(frame, f)} :: 1 <= f && f + 1 < open ==> FirstsAlike(frame, f)
  }

  lemma {:induction false} RoundsInOrder(frame: FrameMap, open: FrameNumber, f: FrameNumber)
    requires AllRoundsInOrder(frame, open) && (f == 0 || f + 1 < open)
    ensures ItemsOf(Rounds(frame, f)) == ItemsOf(RecordsBelow(frame, f + 1))
  {
    if f == 0 {
      assert RecordsBelow(frame, 1) == FrameIn(frame, 0);
    } else {
      RoundsInOrder(frame, open, f - 1);
      assert RoundInOrder(frame, f);
      BelowStep(frame, f);
      hide ItemsOf, RecordsBelow, Round;
      ItemsOfTwo(Rounds(frame, f - 1), Round(frame, f));
      ItemsOfTwo(RecordsBelow(frame, f), FrameIn(frame, f));
    }
  }

  // Record by record, the stream follows the final order exactly as long as no more than two frames are
  // final.
  lemma RecordsFollowFinalOrder(s: CoreState, peers: set<PeerId>, digest: EventHash -> nat)
    requires CoreTrue(s, peers, digest) && FramesSound(s) && |peers| >= 2
    ensures StreamRecords(s) <= FinalSequence(s) <==> s.FirstNotFinalised() <= 2
  {
    hide CoreTrue, FramesSound, Full, Rounds, RecordsBelow;
    var frame, open := s.store.frame, s.FirstNotFinalised();
    RoundsStart(frame);
    BelowTwo(frame);
    if open > 2 {
      TrueIsFull(s, peers, digest);
      FirstsDiffer(s, peers, digest);
      RoundsStep(frame, 1);
      RoundsExtend(frame, 1, open - 2);
      RecordsOnlyExtend(frame, 2, open);
      var at := |FrameIn(frame, 0)|;
      assert Rounds(frame, 1)[at] == FrameIn(frame, 2)[0];
      assert RecordsBelow(frame, 2)[at] == FrameIn(frame, 1)[0];
      assert StreamRecords(s)[at] == FrameIn(frame, 2)[0] && FinalSequence(s)[at] == FrameIn(frame, 1)[0];
    } else if open > 0 {
      RecordsOnlyExtend(frame, 1, open);
    }
  }

  lemma TrueIsFull(s: CoreState, peers: set<PeerId>, digest: EventHash -> nat)
    requires CoreTrue(s, peers, digest) && FramesSound(s) && |peers| >= 2
    ensures |s.peers.peers| == |peers| && Full(s.store, s.FirstNotFinalised())
  {
    CountOfIds(s.peers.peers);
    TrueIsSound(s, peers, digest);
    SoundIsFull(s);
  }

  lemma FirstsDiffer(s: CoreState, peers: set<PeerId>, digest: EventHash -> nat)
    requires CoreTrue(s, peers, digest) && Full(s.store, s.FirstNotFinalised()) && s.FirstNotFinalised() > 2
    ensures FrameIn(s.store.frame, 1) != [] && FrameIn(s.store.frame, 2) != []
    ensures FrameIn(s.store.frame, 1)[0] != FrameIn(s.store.frame, 2)[0]
  {
    var one, two := FrameIn(s.store.frame, 1), FrameIn(s.store.frame, 2);
    assert |one| >= 2 && |two| >= 2;
    assert FrameTrue(one, 1, s.store.event.Keys, |peers|) && FrameTrue(two, 2, s.store.event.Keys, |peers|);
    assert one[0] in one && two[0] in two;
  }

  lemma BelowTwo(frame: FrameMap)
    ensures RecordsBelow(frame, 1) == FrameIn(frame, 0)
    ensures RecordsBelow(frame, 2) == FrameIn(frame, 0) + FrameIn(frame, 1)
  {
    assert RecordsBelow(frame, 1) == RecordsBelow(frame, 0) + FrameIn(frame, 0);
  }

  // Up to that order nothing is served twice and only one event is missed: once round `f` is done the
  // stream has looked at the records of the frames up to `f`, but for the first one of frame 1, and at the
  // first one of frame `f + 1`.
  lemma {:induction false} RoundsMissOneRecord(frame: FrameMap, f: FrameNumber)
    ensures multiset(Rounds(frame, f)) + multiset(First(FrameIn(frame, 1)))
         == multiset(RecordsBelow(frame, f + 1)) + multiset(First(FrameIn(frame, f + 1)))
  {
    hide Rounds, RecordsBelow, First, Rest, FrameIn;
    if f == 0 {
      RoundsStart(frame);
      BelowTwo(frame);
    } else {
      RoundsMissOneRecord(frame, f - 1);
      var mine := FrameIn(frame, f);
      BelowStep(frame, f);
      RoundsStep(frame, f);
      FirstAndRest(mine);
      Exchanged(Rounds(frame, f - 1), RecordsBelow(frame, f), First(FrameIn(frame, 1)), First(mine),
                First(FrameIn(frame, f + 1)), Rest(mine));
    }
  }

  lemma FirstAndRest(records: seq<FrameRecord>)
    ensures records == First(records) + Rest(records)
  {
  }

  lemma BelowStep(frame: FrameMap, f: FrameNumber)
    ensures RecordsBelow(frame, f + 1) == RecordsBelow(frame, f) + FrameIn(frame, f)
  {
  }

  lemma Exchanged<T>(a: seq<T>, b: seq<T>, one: seq<T>, mine: seq<T>, next: seq<T>, rest: seq<T>)
    requires multiset(a) + multiset(one) == multiset(b) + multiset(mine)
    ensures multiset(a + next + rest) + multiset(one) == multiset(b + (mine + rest)) + multiset(next)
  {
    var A, B, O, M, N, R := multiset(a), multiset(b), multiset(one), multiset(mine), multiset(next), multiset(rest);
    assert multiset(a + next + rest) == A + N + R;
    assert multiset(b + (mine + rest)) == B + (M + R);
    assert A + N + R + O == (A + O) + (N + R);
  }

  // The one that is missed is missed for good.
  lemma FirstOfFrameOneIsNeverServed(s: CoreState, peers: set<PeerId>, digest: EventHash -> nat)
    requires CoreTrue(s, peers, digest) && FramesSound(s) && |peers| >= 2 && s.FirstNotFinalised() >= 2
    ensures FrameIn(s.store.frame, 1) != [] && FrameIn(s.store.frame, 1)[0] !in StreamRecords(s)
  {
    hide RecordsBelow, Rounds, First, FrameOf, FrameTrue, StoreTrue, FramesSound;
    var frame, f := s.store.frame, s.FirstNotFinalised() - 2;
    CountOfIds(s.peers.peers);
    FinalFramesHaveMajority(s, 1);
    var rec := FrameIn(frame, 1)[0];
    if f == 0 {
      RoundsStart(frame);
      FramesAreApart(s, peers, digest, rec, 0);
    } else {
      FramesAreApart(s, peers, digest, rec, f + 1);
      FirstIsThere(FrameIn(frame, f + 1));
      FirstIsThere(FrameIn(frame, 1));
      RoundsMissOneRecord(frame, f);
      FinalSequenceIsDistinct(s, peers, digest);
      RecordsOnlyExtend(frame, f + 1, f + 2);
      DistinctCounts(RecordsBelow(frame, f + 1));
      var one, next := First(FrameIn(frame, 1)), First(FrameIn(frame, f + 1));
      OneLess(Rounds(frame, f), one, RecordsBelow(frame, f + 1), next, rec);
    }
  }

  lemma FramesAreApart(s: CoreState, peers: set<PeerId>, digest: EventHash -> nat, rec: FrameRecord, f: FrameNumber)
    requires CoreTrue(s, peers, digest) && f != 1 && rec in FrameIn(s.store.frame, 1)
    ensures rec !in FrameIn(s.store.frame, f)
  {
    assert FrameTrue(FrameIn(s.store.frame, 1), 1, s.store.event.Keys, |peers|);
    assert FrameTrue(FrameIn(s.store.frame, f), f, s.store.event.Keys, |peers|);
  }

  lemma FirstIsThere(records: seq<FrameRecord>)
    ensures forall rec :: rec in First(records) ==> rec in records
    ensures records != [] ==> records[0] in First(records)
  {
  }

  lemma OneLess<T>(a: seq<T>, one: seq<T>, b: seq<T>, next: seq<T>, x: T)
    requires multiset(a) + multiset(one) == multiset(b) + multiset(next)
    requires x in one && x !in next && (x in b ==> multiset(b)[x] == 1)
    ensures x !in a
  {
    assert x in multiset(one) && x !in multiset(next);
    assert (x in b <==> x in multiset(b)) && (x in a <==> x in multiset(a));
    assert (multiset(a) + multiset(one))[x] == multiset(a)[x] + multiset(one)[x];
    assert (multiset(b) + multiset(next))[x] == multiset(b)[x] + multiset(next)[x];
  }
}
