/** What reads see over whole runs without hazards, and that the writer and the watcher get there. */
module EvictionTheorems {
  import opened Wrappers
  import opened Eviction
  import opened EvictionInvariant

  /** In every state of a run without hazards, GetValue returns the last written bytes. */
  lemma ReadsLastWrite(run: seq<State>, k: nat)
    requires IsRun(SAFE, run) && k < |run|
    ensures Read(run[k]) == LastWritten(run[k])
  {
    RunInv(run, k);
  }

  /** A synced value with nothing to write is the store's record, time and bytes, and no event of an older
      write is left to undo it. */
  lemma SyncedMatchesStore(run: seq<State>, k: nat)
    requires IsRun(SAFE, run) && k < |run| && run[k].node.Some?
    ensures var e := run[k].node.value;
      e.value.Some? && e.synced && !e.syncNeeded ==> run[k].kv == Some(Record(e.time, e.value.value)) && run[k].queue == []
  {
    RunInv(run, k);
  }

  /** No step but an application write changes what is read; in particular eviction does not, and a node is
      dropped only when the store holds its last write. */
  lemma EvictionInvisible(run: seq<State>, k: nat, a: Action)
    requires IsRun(SAFE, run) && k + 1 < |run| && StepBy(SAFE, run[k], a, run[k + 1])
    ensures !a.Put? ==> Read(run[k + 1]) == Read(run[k])
    ensures a.Put? ==> Read(run[k + 1]) == Some(a.value)
    ensures run[k].node.Some? && run[k + 1].node.None? ==> run[k].kv == run[k].last && run[k].queue == []
  {
    RunInv(run, k);
    RunInv(run, k + 1);
  }

  // ---------------------------------------------------------------- the writer and the watcher get there

  function Pass(s: State, threshold: int): State
    requires s.node.Some? && s.phase.Idle?
  {
    var looked := Next(s, Look(threshold));
    var put := Next(looked, PutInKv(true));
    if put.phase.Wrote? then Next(put, Mark) else put
  }

  /** The watcher handles the first event of the queue; it may have compared it before. */
  function Handled(s: State): State
    requires s.queue != []
  {
    if s.reaction.None? then Next(Next(s, Compare), React) else Next(s, React)
  }

  function Drained(s: State): State
    decreases |s.queue|
  {
    if s.queue == [] then s else Drained(Handled(s))
  }

  lemma PassWrites(s: State, threshold: int)
    requires Inv(s) && s.node.Some? && s.phase.Idle?
    ensures var t := Pass(s, threshold); Inv(t) && t.node.Some? && !t.node.value.syncNeeded && t.kv == s.last && t.last == s.last
  {
    var looked := Next(s, Look(threshold));
    LookKeepsInv(s, Look(threshold), looked);
    var put := Next(looked, PutInKv(true));
    PutInKvKeepsInv(looked, PutInKv(true), put);
    if put.phase.Wrote? {
      MarkKeepsInv(put, Mark, Next(put, Mark));
    }
  }

  lemma HandledKeeps(s: State)
    requires Inv(s) && s.queue != [] && s.node.Some? && !s.node.value.syncNeeded
    ensures var t := Handled(s); Inv(t) && t.node.Some? && !t.node.value.syncNeeded && t.kv == s.kv && t.last == s.last
  {
    var compared := if s.reaction.None? then Next(s, Compare) else s;
    if s.reaction.None? {
      WatchKeepsInv(s, Compare, compared);
    }
    WatchKeepsInv(compared, React, Next(compared, React));
  }

  lemma {:induction false} DrainKeeps(s: State)
    requires Inv(s) && s.node.Some? && !s.node.value.syncNeeded
    ensures var t := Drained(s);
      Inv(t) && t.node.Some? && !t.node.value.syncNeeded && t.queue == [] && t.kv == s.kv && t.last == s.last
    decreases |s.queue|
  {
    if s.queue != [] {
      HandledKeeps(s);
      DrainKeeps(Handled(s));
    }
  }

  /** From any state of a run, one undisturbed pass of the writer and the events that follow leave the node
      synced with the last write, whatever was captured or queued before. */
  lemma PassSyncs(run: seq<State>, k: nat, threshold: int)
    requires IsRun(SAFE, run) && k < |run| && run[k].node.Some? && run[k].phase.Idle?
    ensures var t := Drained(Pass(run[k], threshold));
      t.node.Some? && t.node.value.synced && !t.node.value.syncNeeded && t.kv == t.last == run[k].last
  {
    RunInv(run, k);
    PassWrites(run[k], threshold);
    DrainKeeps(Pass(run[k], threshold));
  }
}
