/** What every step of the direct-cache protocol keeps. */
module DcraInvariant {
  import opened Wrappers
  import opened PairGraph
  import opened Channel
  import opened Dcra

  // ---------------------------------------------------------------- the claims on pairs

  predicate Claims(t: Task) {
    t.stage.Marking? || t.stage.Sending?
  }

  /** The task expands `p` or is about to signal it. */
  predicate Holds(t: Task, p: Pair) {
    t.pair == p || (Claims(t) && t.stage.child == p)
  }

  ghost predicate Owned(tasks: seq<Task>, p: Pair) {
    exists i :: 0 <= i < |tasks| && Holds(tasks[i], p)
  }

  /** Every cached pair is held by exactly one task, and only cached pairs are held. */
  ghost predicate Claimed(tasks: seq<Task>, cache: set<Pair>) {
    && (forall i, j, p :: 0 <= i < |tasks| && 0 <= j < |tasks| && Holds(tasks[i], p) && Holds(tasks[j], p) ==> i == j)
    && (forall i :: 0 <= i < |tasks| && Claims(tasks[i]) ==> tasks[i].stage.child != tasks[i].pair)
    && (forall p :: p in cache <==> Owned(tasks, p))
  }

  ghost predicate Locked(tasks: seq<Task>, lock: Option<nat>) {
    && (forall i :: 0 <= i < |tasks| && tasks[i].stage.Marking? ==> lock == Some(i))
    && (lock.Some? ==> lock.value < |tasks| && tasks[lock.value].stage.Marking?)
  }

  // ---------------------------------------------------------------- the notification log

  /** The result objects a task has iterated over. */
  function Visited(g: System, t: Task): set<string>
    requires t.pair in g.expand
  {
    match t.stage
    case Sent => {}
    case Working(todo, _) => g.expand[t.pair].Keys - todo
    case Marking(_, todo, _) => g.expand[t.pair].Keys - todo
    case Sending(_, todo, _) => g.expand[t.pair].Keys - todo
    case Storing(_) => g.expand[t.pair].Keys
    case Finished => g.expand[t.pair].Keys
  }

  /** The findings of a task are those among the objects it iterated over. */
  ghost predicate FoundOk(g: System, t: Task)
    requires t.pair in g.expand
  {
    (t.stage.Working? || t.stage.Marking? || t.stage.Sending? || t.stage.Storing?) ==>
      t.stage.found == set o | o in Visited(g, t) && g.expand[t.pair][o] == ""
  }

  /** Each child a task has iterated over was notified as pending, save the one it is marking right now. */
  ghost predicate VisitedNoted(g: System, t: Task, log: seq<Note>)
    requires t.pair in g.expand
  {
    forall o <- Visited(g, t) :: g.expand[t.pair][o] != "" ==>
      var c := Pair(o, g.expand[t.pair][o]);
      Pending(c) in log || (t.stage.Marking? && t.stage.child == c)
  }

  ghost predicate TaskOk(g: System, t: Task, log: seq<Note>) {
    && t.pair in g.expand && g.Reachable(t.pair)
    && (Claims(t) ==> t.stage.child in g.Calls(t.pair))
    && (t.stage.Working? || Claims(t) ==> t.stage.todo <= g.expand[t.pair].Keys)
    && FoundOk(g, t)
    && VisitedNoted(g, t, log)
    && Pending(t.pair) in log
    && (t.stage.Sending? ==> Pending(t.stage.child) in log)
    && (t.stage.Marking? ==> Pending(t.stage.child) !in log)
    && (t.stage.Finished? ==> Done(t.pair, g.Found(t.pair)) in log)
  }

  /** A done mark comes after the pending marks of its own pair and of all the children, whoever set those. */
  ghost predicate DoneAfterChildren(g: System, log: seq<Note>, j: nat)
    requires j < |log|
  {
    log[j].Done? ==>
      && log[j].key in g.expand
      && log[j].found == g.Found(log[j].key)
      && Pending(log[j].key) in log[..j]
      && forall c <- g.Calls(log[j].key) :: Pending(c) in log[..j]
  }

  ghost predicate LogOk(g: System, log: seq<Note>) {
    && log != [] && log[0] == Pending(g.root)
    && (forall j :: 0 <= j < |log| ==> DoneAfterChildren(g, log, j))
    && (forall i, j :: 0 <= i < j < |log| && log[i].Pending? ==> log[i] != log[j])
    && (forall n <- log :: n.key in g.expand && g.Reachable(n.key))
  }

  // ---------------------------------------------------------------- the collector

  ghost predicate DoneIn(log: seq<Note>, p: Pair) {
    exists n :: n in log && n.Done? && n.key == p
  }

  /** The maps of the collector summarise exactly the notes delivered to it. */
  ghost predicate Summarises(g: System, c: Collector, log: seq<Note>) {
    && (forall p :: p in c.pendingMap <==> Pending(p) in log || DoneIn(log, p))
    && (forall p :: p in c.pendingMap ==> (c.pendingMap[p] <==> !DoneIn(log, p)))
    && (forall o :: o in c.results <==> exists n :: n in log && n.Done? && o in n.found)
    && (c.replies == [] && log != [] && log[|log| - 1].Done? ==> exists p :: p in c.pendingMap && c.pendingMap[p])
  }

  ghost predicate TasksOk(g: System, tasks: seq<Task>, log: seq<Note>) {
    forall i :: 0 <= i < |tasks| ==> TaskOk(g, tasks[i], log)
  }

  ghost predicate NotesCached(log: seq<Note>, cache: set<Pair>) {
    forall n <- log :: n.key in cache
  }

  /** Who may touch what. */
  ghost predicate ClaimSide(tasks: seq<Task>, cache: set<Pair>, lock: Option<nat>, log: seq<Note>) {
    Claimed(tasks, cache) && Locked(tasks, lock) && NotesCached(log, cache)
  }

  /** What the log says about the tasks. */
  ghost predicate LogSide(g: System, tasks: seq<Task>, log: seq<Note>) {
    TasksOk(g, tasks, log) && LogOk(g, log)
  }

  /** What the collector knows. */
  ghost predicate CollectorSide(g: System, chan: DimChannel<Note>, c: Collector) {
    && chan.Fifo()
    && Summarises(g, c, chan.delivered)
    && (c.replies == [] || c.replies == [g.Answer()])
  }

  ghost predicate Inv(g: System, s: State) {
    && ClaimSide(s.tasks, s.cache, s.lock, s.chan.received)
    && LogSide(g, s.tasks, s.chan.received)
    && CollectorSide(g, s.chan, s.collector)
  }
}
