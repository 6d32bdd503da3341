/** The interleavings on which reads miss the last write, and that there are no others. */
module EvictionHazards {
  import opened Wrappers
  import opened CacheEntry
  import opened Eviction
  import opened EvictionTheorems

  lemma Extended(h: Hazards, run: seq<State>, a: Action) returns (longer: seq<State>)
    requires IsRun(h, run) && Allowed(h, run[|run| - 1], a)
    ensures IsRun(h, longer) && longer != [] && longer[|longer| - 1] == Next(run[|run| - 1], a)
  {
    longer := run + [Next(run[|run| - 1], a)];
    assert StepBy(h, run[|run| - 1], a, longer[|run|]);
    forall j, k | 0 <= j && k == j + 1 && k < |longer|
      ensures Step(h, longer[j], longer[k])
    {
      if k < |run| {
        assert Step(h, run[j], run[k]);
      }
    }
  }

  /** A key written and marked; the event of the write is queued. */
  lemma WrittenRun(h: Hazards) returns (run: seq<State>)
    ensures IsRun(h, run)
    ensures run[|run| - 1] == State(Some(Entry(Some([1]), InUse, 1, false, false)), Some(Record(1, [1])), [Record(1, [1])], None,
      Idle, NOTHING_DUE, 1, Some(Record(1, [1])))
  {
    run := [START];
    run := Extended(h, run, Put(1, [1]));
    run := Extended(h, run, Look(0));
    run := Extended(h, run, PutInKv(true));
    run := Extended(h, run, Mark);
  }

  /** A key written, marked and echoed, then found old: a collector has decided to remove its node. */
  lemma CondemnedRun(h: Hazards) returns (run: seq<State>)
    ensures IsRun(h, run)
    ensures run[|run| - 1] == State(Some(Entry(Some([1]), Confirmed, 1, false, true)), Some(Record(1, [1])), [], None, Idle,
      NOTHING_DUE.(removals := 1), 1, Some(Record(1, [1])))
  {
    run := WrittenRun(h);
    run := Extended(h, run, Compare);
    run := Extended(h, run, React);
    run := Extended(h, run, Look(1));
    run := Extended(h, run, PutInKv(true));
    run := Extended(h, run, Collect);
  }

  /** A key written, marked and echoed, then found old: its node is gone. */
  lemma EvictedRun(h: Hazards) returns (run: seq<State>)
    ensures IsRun(h, run)
    ensures run[|run| - 1] == State(None, Some(Record(1, [1])), [], None, Idle, NOTHING_DUE, 1, Some(Record(1, [1])))
  {
    run := CondemnedRun(h);
    run := Extended(h, run, Remove);
  }

  /** A write lands after the collector's decision: the removal takes it along, and the store never hears of it. */
  lemma RemovalRun(h: Hazards) returns (run: seq<State>)
    requires h.removal
    ensures IsRun(h, run) && Read(run[|run| - 1]) != LastWritten(run[|run| - 1])
  {
    run := CondemnedRun(h);
    run := Extended(h, run, Put(2, [2]));
    run := Extended(h, run, Remove);
  }

  /** A write lands after a missed read has fetched the record: the reload sets the old value over it. */
  lemma ReloadRun(h: Hazards) returns (run: seq<State>)
    requires h.reload
    ensures IsRun(h, run) && Read(run[|run| - 1]) != LastWritten(run[|run| - 1])
  {
    run := EvictedRun(h);
    run := Extended(h, run, Miss);
    run := Extended(h, run, Fetch);
    run := Extended(h, run, Put(2, [2]));
    run := Extended(h, run, Reload(0));
  }

  /** A longer key re-creates the node of an evicted key without its value, and the key reads as missing. */
  lemma OrphanRun(h: Hazards) returns (run: seq<State>)
    requires h.orphan
    ensures IsRun(h, run) && Read(run[|run| - 1]) != LastWritten(run[|run| - 1])
  {
    run := EvictedRun(h);
    run := Extended(h, run, Branch);
    run := Extended(h, run, Child);
  }

  /** A node above the key is found empty; the write lands below it, and then it is removed with all below. */
  lemma AboveRun(h: Hazards) returns (run: seq<State>)
    requires h.above
    ensures IsRun(h, run) && Read(run[|run| - 1]) != LastWritten(run[|run| - 1])
  {
    run := [START];
    run := Extended(h, run, CollectAbove);
    run := Extended(h, run, Put(1, [1]));
    run := Extended(h, run, RemoveAbove);
  }

  /** A write finds the node, a collector takes it out of the trie, and the write lands on it. */
  lemma LostRun(h: Hazards) returns (run: seq<State>)
    requires h.lost
    ensures IsRun(h, run) && Read(run[|run| - 1]) != LastWritten(run[|run| - 1])
  {
    run := CondemnedRun(h);
    run := Extended(h, run, Find);
    run := Extended(h, run, Remove);
    run := Extended(h, run, PutLost(2, [2]));
  }

  /** A write lands between the watcher's comparing of an echo and its acting on it: the new value counts as echoed
      while its own event is queued. */
  lemma EchoedTooSoonRun(h: Hazards) returns (run: seq<State>)
    requires h.event
    ensures IsRun(h, run)
    ensures run[|run| - 1] == State(Some(Entry(Some([2]), InUse, 2, false, true)), Some(Record(2, [2])), [Record(2, [2])], None,
      Idle, NOTHING_DUE, 2, Some(Record(2, [2])))
  {
    run := WrittenRun(h);
    run := Extended(h, run, Compare);
    run := Extended(h, run, Put(2, [2]));
    run := Extended(h, run, React);
    run := Extended(h, run, Look(0));
    run := Extended(h, run, PutInKv(true));
    run := Extended(h, run, Mark);
  }

  /** So its node is dropped before that event is handled. */
  lemma DroppedTooSoonRun(h: Hazards) returns (run: seq<State>)
    requires h.event
    ensures IsRun(h, run)
    ensures run[|run| - 1] == State(None, Some(Record(2, [2])), [Record(2, [2])], None, Idle, NOTHING_DUE, 2, Some(Record(2, [2])))
  {
    run := EchoedTooSoonRun(h);
    run := Extended(h, run, Look(2));
    run := Extended(h, run, PutInKv(true));
    run := Extended(h, run, Collect);
    run := Extended(h, run, Remove);
  }

  /** The late event looks like news, and setting its value overwrites a write that lands meanwhile. */
  lemma EventRun(h: Hazards) returns (run: seq<State>)
    requires h.event
    ensures IsRun(h, run) && Read(run[|run| - 1]) != LastWritten(run[|run| - 1])
  {
    run := DroppedTooSoonRun(h);
    run := Extended(h, run, Compare);
    run := Extended(h, run, Put(3, [3]));
    run := Extended(h, run, React);
  }

  /** A write between the writer's look and its second reading of the flag makes it put an empty record. */
  lemma EmptyPutRun(h: Hazards) returns (run: seq<State>)
    requires h.race
    ensures IsRun(h, run)
    ensures run[|run| - 1] == State(Some(Entry(Some([2]), InUse, 2, true, false)), Some(Empty), [Empty], None, Idle, NOTHING_DUE,
      2, Some(Record(2, [2])))
  {
    run := WrittenRun(h);
    run := Extended(h, run, Compare);
    run := Extended(h, run, React);
    run := Extended(h, run, Look(0));
    run := Extended(h, run, Put(2, [2]));
    run := Extended(h, run, PutInKv(true));
    run := Extended(h, run, Mark);
  }

  lemma TwoMoreWrites(h: Hazards) returns (run: seq<State>)
    requires h.race
    ensures IsRun(h, run)
    ensures run[|run| - 1] == State(Some(Entry(Some([3]), InUse, 3, false, false)), Some(Record(3, [3])),
      [Empty, Record(2, [2]), Record(3, [3])], None, Idle, NOTHING_DUE, 3, Some(Record(3, [3])))
  {
    run := EmptyPutRun(h);
    run := Extended(h, run, Look(0));
    run := Extended(h, run, PutInKv(true));
    run := Extended(h, run, Mark);
    run := Extended(h, run, Put(3, [3]));
    run := Extended(h, run, Look(0));
    run := Extended(h, run, PutInKv(true));
    run := Extended(h, run, Mark);
  }

  /** The event of the empty record lets the node be dropped while the events of later writes are queued, and the
      first of them brings back an old value. */
  lemma RaceRun(h: Hazards) returns (run: seq<State>)
    requires h.race
    ensures IsRun(h, run) && Read(run[|run| - 1]) != LastWritten(run[|run| - 1])
  {
    run := TwoMoreWrites(h);
    run := Extended(h, run, Compare);
    run := Extended(h, run, React);
    run := Extended(h, run, Collect);
    run := Extended(h, run, Remove);
    run := Extended(h, run, Compare);
    run := Extended(h, run, React);
  }

  ghost predicate AlwaysReadsLast(h: Hazards) {
    forall run :: IsRun(h, run) ==> Read(run[|run| - 1]) == LastWritten(run[|run| - 1])
  }

  /** Reads are exact over all runs exactly when all seven hazards are kept out. */
  lemma ReadsLastIffNoHazard(h: Hazards)
    ensures AlwaysReadsLast(h) <==> h == SAFE
  {
    if h.orphan {
      var run := OrphanRun(h);
    } else if h.race {
      var run := RaceRun(h);
    } else if h.removal {
      var run := RemovalRun(h);
    } else if h.reload {
      var run := ReloadRun(h);
    } else if h.above {
      var run := AboveRun(h);
    } else if h.lost {
      var run := LostRun(h);
    } else if h.event {
      var run := EventRun(h);
    } else {
      forall run | IsRun(h, run)
        ensures Read(run[|run| - 1]) == LastWritten(run[|run| - 1])
      {
        ReadsLastWrite(run, |run| - 1);
      }
    }
  }
}
