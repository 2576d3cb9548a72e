/** Flag tables: maps from root hashes to frame numbers, their merges, and the per-creator tables. */
module FlagTables {
  import opened Events

  type FlagTable = map<EventHash, FrameNumber>
  type CreatorFlagTable = map<PeerId, FrameNumber>

  // Merges

  // Exactly the entries of frame `f`.
  function StrictMerge(first: FlagTable, second: FlagTable, f: FrameNumber): FlagTable {
    map k | k in first.Keys + second.Keys && ((k in first && first[k] == f) || (k in second && second[k] == f)) :: f
  }

  // Only the first table is filtered by `f`: an entry of the second that the first lacks is kept
  // whatever its frame, and one that the first has is taken only when it is lower.
  function OpenMerge(first: FlagTable, second: FlagTable, f: FrameNumber): FlagTable {
    map k | k in first.Keys + second.Keys
            && (if k in second && (k in first ==> first[k] > second[k]) then true else k in first && first[k] >= f)
         :: if k in second && (k in first ==> first[k] > second[k]) then second[k] else first[k]
  }

  // Which entries the open merge keeps: of the first table's own entries those of frame `f` or later, of the
  // second's own all, and of a shared hash the lower frame, unless that is the first table's and below `f`.
  lemma OpenMergeEntries(first: FlagTable, second: FlagTable, f: FrameNumber, k: EventHash)
    ensures k in first && k !in second ==> (k in OpenMerge(first, second, f) <==> first[k] >= f)
    ensures k !in first && k in second ==> k in OpenMerge(first, second, f)
    ensures k in first && k in second ==>
              (k in OpenMerge(first, second, f) <==> second[k] < first[k] || first[k] >= f)
    ensures k in OpenMerge(first, second, f) ==>
              && (k in first || k in second)
              && (k in first ==> OpenMerge(first, second, f)[k] <= first[k])
              && (k in second ==> OpenMerge(first, second, f)[k] <= second[k])
              && OpenMerge(first, second, f)[k] in {if k in first then first[k] else second[k],
                                                    if k in second then second[k] else first[k]}
  {
  }

  // What one more entry of the second table changes.

  lemma StrictMergeStep(first: FlagTable, done: FlagTable, key: EventHash, value: FrameNumber, f: FrameNumber)
    requires key !in done
    ensures StrictMerge(first, done[key := value], f)
         == if value == f then StrictMerge(first, done, f)[key := value] else StrictMerge(first, done, f)
  {
  }

  lemma OpenMergeStep(first: FlagTable, done: FlagTable, key: EventHash, value: FrameNumber, f: FrameNumber)
    requires key !in done
    ensures OpenMerge(first, done[key := value], f)
         == if key in first && first[key] <= value then OpenMerge(first, done, f)
            else OpenMerge(first, done, f)[key := value]
  {
  }

  method StrictMergeFlagTable(first: FlagTable, second: FlagTable, frameNumber: FrameNumber) returns (result: FlagTable)
    ensures result == StrictMerge(first, second, frameNumber)
  {
    result := map[];
    var rest := first.Keys;
    while rest != {}
      invariant rest <= first.Keys
      invariant result == map k | k in first.Keys - rest && first[k] == frameNumber :: first[k]
    {
      var key :| key in rest;
      var value := first[key];
      if value == frameNumber {
        result := result[key := value];
      }
      rest := rest - {key};
    }
    rest := second.Keys;
    ghost var done: FlagTable := map[];
    while rest != {}
      invariant rest <= second.Keys
      invariant done == map k | k in second.Keys - rest :: second[k]
      invariant result == StrictMerge(first, done, frameNumber)
    {
      var key :| key in rest;
      var value := second[key];
      StrictMergeStep(first, done, key, value, frameNumber);
      done := done[key := value];
      if value == frameNumber {
        result := result[key := value];
      }
      rest := rest - {key};
    }
    assert done == second;
  }

  method OpenMergeFlagTable(first: FlagTable, second: FlagTable, frameNumber: FrameNumber) returns (result: FlagTable)
    ensures result == OpenMerge(first, second, frameNumber)
    ensures forall k :: k in result && result[k] < frameNumber ==> k in second && result[k] == second[k]
    ensures forall k :: k in first && first[k] < frameNumber && k in result ==> k in second && second[k] < first[k]
  {
    result := map[];
    var rest := first.Keys;
    while rest != {}
      invariant rest <= first.Keys
      invariant result == map k | k in first.Keys - rest && first[k] >= frameNumber :: first[k]
    {
      var key :| key in rest;
      var value := first[key];
      if value >= frameNumber {
        result := result[key := value];
      }
      rest := rest - {key};
    }
    rest := second.Keys;
    ghost var done: FlagTable := map[];
    while rest != {}
      invariant rest <= second.Keys
      invariant done == map k | k in second.Keys - rest :: second[k]
      invariant result == OpenMerge(first, done, frameNumber)
    {
      var key :| key in rest;
      var value := second[key];
      OpenMergeStep(first, done, key, value, frameNumber);
      done := done[key := value];
      if key in first {
        if first[key] > value {
          result := result[key := value];
        }
      } else {
        result := result[key := value];
      }
      rest := rest - {key};
    }
    assert done == second;
  }

  // Minimum

  ghost predicate IsMinFrame(m: FrameNumber, t: CreatorFlagTable) {
    if t == map[] then m == 0
    else (exists c :: c in t && t[c] == m) && forall c :: c in t ==> m <= t[c]
  }

  lemma {:induction false} MinFrameExists(t: CreatorFlagTable)
    ensures exists m :: IsMinFrame(m, t)
    decreases |t|
  {
    if t == map[] {
      assert IsMinFrame(0, t);
    } else {
      var c :| c in t;
      var rest := t - {c};
      MinFrameExists(rest);
      var m :| IsMinFrame(m, rest);
      assert IsMinFrame(if rest == map[] || t[c] < m then t[c] else m, t) by {
        assert forall d :: d in t ==> d == c || (d in rest && rest[d] == t[d]);
        assert t[c] == t[c];
        if rest != map[] {
          var d :| d in rest && rest[d] == m;
          assert d in t && t[d] == m;
        }
      }
    }
  }

  ghost function MinFrameOf(t: CreatorFlagTable): (m: FrameNumber)
    ensures IsMinFrame(m, t)
  {
    MinFrameExists(t);
    var m :| IsMinFrame(m, t);
    m
  }

  method MinFrame(ft: CreatorFlagTable) returns (res: FrameNumber)
    ensures res == MinFrameOf(ft)
    ensures forall c :: c in ft ==> res <= ft[c]
    ensures if ft == map[] then res == 0 else exists c :: c in ft && ft[c] == res
  {
    res := 0;
    var none, rest := true, ft.Keys;
    while rest != {}
      invariant rest <= ft.Keys
      invariant none <==> rest == ft.Keys
      invariant none ==> res == 0
      invariant !none ==> exists c :: c in ft && ft[c] == res
      invariant !none ==> forall c :: c in ft.Keys - rest ==> res <= ft[c]
    {
      var c :| c in rest;
      if none {
        res, none := ft[c], false;
      } else if res > ft[c] {
        res := ft[c];
      }
      rest := rest - {c};
    }
  }
}
