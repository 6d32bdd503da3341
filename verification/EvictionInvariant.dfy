/** What every step of the cache keeps in runs without hazards. */
module EvictionInvariant {
  import opened Wrappers
  import opened CacheEntry
  import opened Eviction

  /** The queue holds records of rising time, the last of them the store's own. */
  ghost predicate QueueOk(s: State) {
    && (s.kv.Some? ==> s.kv.value.Record? && 0 < s.kv.value.time <= s.now)
    && (s.queue != [] ==> s.kv == Some(s.queue[|s.queue| - 1]))
    && (forall k :: 0 <= k < |s.queue| ==> s.queue[k].Record? && s.queue[k].time > 0)
    && (forall j, k :: 0 <= j < k < |s.queue| ==> s.queue[j].time < s.queue[k].time)
  }

  ghost predicate Older(kv: Option<Record>, time: int) {
    kv.Some? && kv.value.Record? ==> kv.value.time < time
  }

  ghost predicate NodeOk(s: State) {
    && (s.last.Some? ==> s.last.value.Record? && 0 < s.last.value.time <= s.now)
    && (s.last.None? ==> s.kv.None?)
    && (s.node.None? ==> s.kv == s.last && s.queue == [])
    && (s.node.Some? ==>
          var e := s.node.value;
          && e.PurgeSafe()
          && e.value == LastWritten(s)
          && (s.last.Some? ==> e.time == s.last.value.time)
          && (s.last.None? ==> !e.syncNeeded && e.synced)
          && (e.synced ==> s.queue == [] && s.kv == s.last)
          && (!e.syncNeeded ==> s.kv == s.last)
          && (s.kv == s.last && s.queue == [] ==> e.synced)
          && (e.syncNeeded && !s.phase.Wrote? ==> Older(s.kv, e.time)))
  }

  ghost predicate PhaseOk(s: State) {
    match s.phase
    case Idle => true
    case Looked(Empty) => s.node.Some? && !s.node.value.syncNeeded
    case Looked(Record(time, value)) =>
      && s.node.Some? && s.node.value.syncNeeded && s.last.Some?
      && 0 < time <= s.node.value.time && Older(s.kv, time)
      && (time == s.node.value.time ==> s.phase.captured == s.last.value)
    case Detached(_) => false
    case Wrote(Empty) => false
    case Wrote(Record(time, value)) =>
      && s.node.Some? && s.node.value.syncNeeded && s.last.Some?
      && s.kv == Some(s.phase.captured) && time <= s.node.value.time
      && (time == s.node.value.time ==> s.phase.captured == s.last.value)
  }

  ghost predicate Settled(node: Option<Entry>) {
    node.Some? ==> !node.value.syncNeeded && node.value.synced
  }

  /** While a removal or a reload is due, the store holds the last write and nothing is under way. */
  ghost predicate DueOk(s: State) {
    && (s.due.removals > 0 || s.due.above > 0 || s.due.missed > 0 || s.due.fetched != [] ==> Settled(s.node))
    && (forall r <- s.due.fetched :: s.kv == Some(r) == s.last)
  }

  /** What the watcher has decided is still right. */
  ghost predicate ReactionOk(s: State) {
    s.reaction.Some? ==> s.queue != [] && s.reaction.value == ReactionTo(s.node, s.queue[0])
  }

  ghost predicate Inv(s: State) {
    s.now >= 0 && QueueOk(s) && NodeOk(s) && PhaseOk(s) && DueOk(s) && ReactionOk(s)
  }

  lemma PutKeepsInv(s: State, a: Action, s': State)
    requires Inv(s) && (a.Put? || a.PutLost? || a.Find?) && StepBy(SAFE, s, a, s')
    ensures Inv(s')
  {
  }

  lemma BranchKeepsInv(s: State, a: Action, s': State)
    requires Inv(s) && (a.Branch? || a.Child?) && StepBy(SAFE, s, a, s')
    ensures Inv(s')
  {
  }

  lemma LookKeepsInv(s: State, a: Action, s': State)
    requires Inv(s) && a.Look? && StepBy(SAFE, s, a, s')
    ensures Inv(s')
  {
  }

  lemma PutInKvKeepsInv(s: State, a: Action, s': State)
    requires Inv(s) && a.PutInKv? && StepBy(SAFE, s, a, s')
    ensures Inv(s')
  {
  }

  lemma MarkKeepsInv(s: State, a: Action, s': State)
    requires Inv(s) && a.Mark? && StepBy(SAFE, s, a, s')
    ensures Inv(s')
  {
  }

  lemma WatchKeepsInv(s: State, a: Action, s': State)
    requires Inv(s) && (a.Compare? || a.React?) && StepBy(SAFE, s, a, s')
    ensures Inv(s')
  {
  }

  lemma CollectorKeepsInv(s: State, a: Action, s': State)
    requires Inv(s) && (a.Collect? || a.Remove? || a.CollectAbove? || a.RemoveAbove?) && StepBy(SAFE, s, a, s')
    ensures Inv(s')
  {
  }

  lemma ReaderKeepsInv(s: State, a: Action, s': State)
    requires Inv(s) && (a.Miss? || a.Fetch? || a.Reload?) && StepBy(SAFE, s, a, s')
    ensures Inv(s')
  {
    if a.Reload? {
      assert s.due.fetched[a.k] in s.due.fetched;
    }
  }

  lemma AstrayKeepsInv(s: State, a: Action, s': State)
    requires Inv(s) && a.Astray? && StepBy(SAFE, s, a, s')
    ensures Inv(s')
  {
    if a.left.fetched != [] {
      assert a.left.fetched[0] in s.due.fetched;
    }
  }

  lemma AnyStepKeepsInv(s: State, s': State)
    requires Inv(s) && Step(SAFE, s, s')
    ensures Inv(s')
  {
    var a :| StepBy(SAFE, s, a, s');
    if a.Put? || a.PutLost? || a.Find? {
      PutKeepsInv(s, a, s');
    } else if a.Branch? || a.Child? {
      BranchKeepsInv(s, a, s');
    } else if a.Look? {
      LookKeepsInv(s, a, s');
    } else if a.PutInKv? {
      PutInKvKeepsInv(s, a, s');
    } else if a.Mark? {
      MarkKeepsInv(s, a, s');
    } else if a.Compare? || a.React? {
      WatchKeepsInv(s, a, s');
    } else if a.Collect? || a.Remove? || a.CollectAbove? || a.RemoveAbove? {
      CollectorKeepsInv(s, a, s');
    } else if a.Astray? {
      AstrayKeepsInv(s, a, s');
    } else {
      ReaderKeepsInv(s, a, s');
    }
  }

  lemma {:induction false} RunInv(run: seq<State>, k: nat)
    requires IsRun(SAFE, run) && k < |run|
    ensures Inv(run[k])
    decreases k
  {
    if k > 0 {
      RunInv(run, k - 1);
      assert Step(SAFE, run[k - 1], run[k]);
      AnyStepKeepsInv(run[k - 1], run[k]);
    } else {
      assert IsFirst(run[0]);
    }
  }
}
