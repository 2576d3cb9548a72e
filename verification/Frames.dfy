/** Frames: the records of the events of one frame, and the order in which they become final. */
module Frames {
  import opened Events
  import opened Sorting

  datatype FrameRecord = FrameRecord(hash: EventHash, lamportTime: LamportTime)

  // Hashes are compared as the numbers their bytes spell; `digest` is that number. It tells the events of
  // `hs` apart.
  ghost predicate Injective(digest: EventHash -> nat, hs: set<EventHash>) {
    forall a, b :: a in hs && b in hs && digest(a) == digest(b) ==> a == b
  }

  // Such a number exists for any set of events.
  lemma {:induction false} DigestExists(hs: set<EventHash>) returns (digest: EventHash -> nat)
    ensures Injective(digest, hs) && forall h :: h in hs ==> digest(h) < |hs|
  {
    if hs == {} {
      digest := h => 0;
    } else {
      var x :| x in hs;
      var rest := DigestExists(hs - {x});
      digest := h => if h == x then |hs| - 1 else rest(h);
      assert forall h :: h in hs && h != x ==> h in hs - {x};
    }
  }

  // "Not after": Lamport time first, then the hash.
  function RecordOrder(digest: EventHash -> nat): (FrameRecord, FrameRecord) -> bool {
    (a: FrameRecord, b: FrameRecord) =>
      a.lamportTime < b.lamportTime || (a.lamportTime == b.lamportTime && digest(a.hash) <= digest(b.hash))
  }

  lemma RecordOrderIsTotal(digest: EventHash -> nat)
    ensures TotalPreorder(RecordOrder(digest))
  {
  }

  lemma RecordOrderIsStrict(digest: EventHash -> nat, hs: set<EventHash>, records: seq<FrameRecord>)
    requires Injective(digest, hs) && forall rec :: rec in records ==> rec.hash in hs
    ensures Antisymmetric(records, RecordOrder(digest))
  {
    var leq := RecordOrder(digest);
    forall a, b | a in records && b in records && leq(a, b) && leq(b, a) ensures a == b {
      assert digest(a.hash) == digest(b.hash);
    }
  }

  function RecordOf(h: EventHash): FrameRecord { FrameRecord(h, Lamport(h)) }

  class Frame {
    var events: seq<FrameRecord>

    constructor (records: seq<FrameRecord>)
      ensures events == records
    {
      events := records;
    }

    // Sorts the records in place.
    method Finalise(digest: EventHash -> nat)
      modifies this
      ensures events == StableSort(old(events), RecordOrder(digest))
      ensures Sorted(events, RecordOrder(digest)) && multiset(events) == multiset(old(events))
      ensures forall i, j :: 0 <= i < j < |events| ==>
                || events[i].lamportTime < events[j].lamportTime
                || (events[i].lamportTime == events[j].lamportTime && digest(events[i].hash) <= digest(events[j].hash))
    {
      events := StableSort(events, RecordOrder(digest));
      RecordOrderIsTotal(digest);
      SortKeepsElements(old(events), RecordOrder(digest));
      SortSorts(old(events), RecordOrder(digest));
    }
  }
}
