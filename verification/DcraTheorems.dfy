/** The direct-cache protocol over whole runs: it never answers early and never misses, and when it gets stuck. */
module DcraTheorems {
  import opened PairGraph
  import opened Channel
  import opened Dcra
  import opened DcraInvariant
  import opened DcraSteps

  // ---------------------------------------------------------------- the collector

  lemma DoneInGrows(log: seq<Note>, n: Note, p: Pair)
    ensures DoneIn(log + [n], p) <==> DoneIn(log, p) || (n.Done? && n.key == p)
  {
    if DoneIn(log, p) {
      var m :| m in log && m.Done? && m.key == p;
      assert m in log + [n];
    }
    if n.Done? && n.key == p {
      assert n in log + [n];
    }
  }

  lemma HandleSummarises(g: System, c: Collector, log: seq<Note>, n: Note)
    requires Summarises(g, c, log) && c.replies == []
    ensures Summarises(g, c.Handle(n), log + [n])
  {
    var c', log' := c.Handle(n), log + [n];
    forall p
      ensures DoneIn(log', p) <==> DoneIn(log, p) || (n.Done? && n.key == p)
      ensures Pending(p) in log' <==> Pending(p) in log || n == Pending(p)
    {
      DoneInGrows(log, n, p);
    }
    forall o
      ensures o in c'.results <==> exists m :: m in log' && m.Done? && o in m.found
    {
      if m :| m in log && m.Done? && o in m.found {
        assert m in log';
      }
      if n.Done? && o in n.found {
        assert n in log';
      }
    }
  }

  /** When every known pair is done, the known pairs are closed under calls and hold all the findings. */
  lemma AllDoneIsAnswer(g: System, log: seq<Note>, c: Collector, seen: seq<Note>)
    requires LogOk(g, log) && seen <= log && seen != [] && Summarises(g, c, seen)
    requires forall p <- c.pendingMap :: !c.pendingMap[p]
    ensures c.results == g.Answer()
  {
    var known := c.pendingMap.Keys;
    assert Pending(g.root) in seen by { assert seen[0] == log[0]; }
    forall p <- known
      ensures p in g.expand && g.Reachable(p) && g.Calls(p) <= known
      ensures exists n :: n in seen && n.Done? && n.key == p && n.found == g.Found(p)
    {
      DoneIsClosed(g, log, c, seen, p);
    }
    forall o
      ensures o in c.results <==> exists p :: p in known && o in g.Found(p)
    {
      if o in c.results {
        var n :| n in seen && n.Done? && o in n.found;
        var j :| 0 <= j < |seen| && seen[j] == n;
        assert DoneAfterChildren(g, log, j) && DoneIn(seen, n.key);
        assert n.key in known && o in g.Found(n.key);
      }
      if p :| p in known && o in g.Found(p) {
        var n :| n in seen && n.Done? && n.key == p && n.found == g.Found(p);
        assert o in n.found;
      }
    }
    g.ClosedSetFindsAnswer(known, c.results);
  }

  lemma DoneIsClosed(g: System, log: seq<Note>, c: Collector, seen: seq<Note>, p: Pair)
    requires LogOk(g, log) && seen <= log && Summarises(g, c, seen)
    requires p in c.pendingMap && !c.pendingMap[p]
    ensures p in g.expand && g.Reachable(p) && g.Calls(p) <= c.pendingMap.Keys
    ensures exists n :: n in seen && n.Done? && n.key == p && n.found == g.Found(p)
  {
    var n :| n in seen && n.Done? && n.key == p;
    var j :| 0 <= j < |seen| && seen[j] == n;
    assert log[j] == n && n in log;
    assert DoneAfterChildren(g, log, j);
    assert log[..j] == seen[..j];
    forall q <- g.Calls(p)
      ensures q in c.pendingMap
    {
      assert Pending(q) in seen[..j];
      assert Pending(q) in seen;
    }
  }

  lemma CollectKeeps(g: System, log: seq<Note>, chan: DimChannel<Note>, c: Collector)
    requires CollectorSide(g, chan, c) && chan.pusher.Pushing? && c.replies == []
    requires chan.received == log && LogOk(g, log)
    ensures CollectorSide(g, chan.Deliver(), c.Handle(chan.pusher.value))
  {
    var n := chan.pusher.value;
    chan.DeliverKeepsFifo();
    chan.DeliveredIsPrefix();
    HandleSummarises(g, c, chan.delivered, n);
    if c.Handle(n).replies != [] {
      AllDoneIsAnswer(g, log, c.Handle(n), chan.delivered + [n]);
    }
  }

  lemma StepCollector(g: System, s: State, a: Action, s': State)
    requires StepBy(g, s, a, s') && LogOk(g, s.chan.received) && CollectorSide(g, s.chan, s.collector)
    ensures CollectorSide(g, s'.chan, s'.collector)
  {
    match a
    case Notify(k) => s.chan.ReceiveKeepsFifo(Pending(s.tasks[k].stage.child));
    case NotifyDone(k) => s.chan.ReceiveKeepsFifo(Done(s.tasks[k].pair, s.tasks[k].stage.found));
    case Append => s.chan.AppendKeepsFifo();
    case Look => s.chan.LookKeepsFifo();
    case Collect => CollectKeeps(g, s.chan.received, s.chan, s.collector);
    case _ =>
  }

  // ---------------------------------------------------------------- runs

  lemma InitInv(g: System)
    requires g.Valid()
    ensures Inv(g, Init(g))
  {
    g.RootReachable();
    var s := Init(g);
    assert Holds(s.tasks[0], g.root);
    assert forall p :: p in s.cache <==> Owned(s.tasks, p);
    assert s.chan.Fifo();
    assert Pending(g.root) in s.chan.received;
  }

  lemma {:induction false} RunInv(g: System, run: seq<State>)
    requires g.Valid() && IsRun(g, run)
    ensures Inv(g, run[|run| - 1])
  {
    if |run| == 1 {
      InitInv(g);
    } else {
      var s, s' := run[|run| - 2], run[|run| - 1];
      RunInv(g, run[..|run| - 1]);
      assert Step(g, s, s');
      var a :| StepBy(g, s, a, s');
      StepClaims(g, s, a, s');
      StepLog(g, s, a, s');
      StepCollector(g, s, a, s');
    }
  }

  /** The reply is exact: the first time the collector sees every known pair done, nothing is missing. */
  lemma ReplyIsExact(g: System, run: seq<State>)
    requires g.Valid() && IsRun(g, run)
    ensures var replies := run[|run| - 1].collector.replies; replies == [] || replies == [g.Answer()]
  {
    RunInv(g, run);
  }

  /** Every pair is expanded by at most one handler, however many parents reach it. */
  lemma ExpandedAtMostOnce(g: System, run: seq<State>, i: nat, j: nat)
    requires g.Valid() && IsRun(g, run)
    requires i < |run[|run| - 1].tasks| && j < |run[|run| - 1].tasks|
    requires run[|run| - 1].tasks[i].pair == run[|run| - 1].tasks[j].pair
    ensures i == j
  {
    RunInv(g, run);
    var tasks := run[|run| - 1].tasks;
    assert Holds(tasks[i], tasks[i].pair) && Holds(tasks[j], tasks[i].pair);
  }

  /** In the order of notification, the done mark of a pair comes after the pending mark of each of its
      children, even when another parent set that mark. */
  lemma ChildrenPendingBeforeDone(g: System, run: seq<State>, j: nat)
    requires g.Valid() && IsRun(g, run)
    requires j < |run[|run| - 1].chan.received| && run[|run| - 1].chan.received[j].Done?
    ensures var log := run[|run| - 1].chan.received;
            && log[j].key in g.expand
            && forall c <- g.Calls(log[j].key) :: exists i :: 0 <= i < j && log[i] == Pending(c)
  {
    RunInv(g, run);
    var log := run[|run| - 1].chan.received;
    assert DoneAfterChildren(g, log, j);
    forall c <- g.Calls(log[j].key)
      ensures exists i :: 0 <= i < j && log[i] == Pending(c)
    {
      var i := PrefixPosition(log, j, Pending(c));
    }
  }

  lemma PrefixPosition(log: seq<Note>, j: nat, n: Note) returns (i: nat)
    requires j <= |log| && n in log[..j]
    ensures i < j && log[i] == n
  {
    i :| 0 <= i < j && log[..j][i] == n;
  }

  // ---------------------------------------------------------------- no early silence, no deadlock

  lemma PendingIsNotLast(g: System, log: seq<Note>, p: Pair, k: nat)
    requires LogOk(g, log) && k < |log| && log[k] == Pending(p) && Done(p, g.Found(p)) in log
    requires p in g.expand
    ensures k + 1 < |log|
  {
    var j :| 0 <= j < |log| && log[j] == Done(p, g.Found(p));
    assert DoneAfterChildren(g, log, j);
    var i := PrefixPosition(log, j, Pending(p));
    assert i == k;
  }

  lemma LastNoteIsDone(g: System, s: State)
    requires LogSide(g, s.tasks, s.chan.received)
    requires Claimed(s.tasks, s.cache) && NotesCached(s.chan.received, s.cache)
    requires forall t <- s.tasks :: t.stage.Finished?
    ensures s.chan.received[|s.chan.received| - 1].Done?
  {
    var log := s.chan.received;
    var last := log[|log| - 1];
    if last.Pending? {
      DoneForCached(g, s, last.key);
      PendingIsNotLast(g, log, last.key, |log| - 1);
    }
  }

  lemma DoneForCached(g: System, s: State, p: Pair)
    requires TasksOk(g, s.tasks, s.chan.received) && Claimed(s.tasks, s.cache) && p in s.cache
    requires forall t <- s.tasks :: t.stage.Finished?
    ensures p in g.expand && Done(p, g.Found(p)) in s.chan.received
  {
    assert Owned(s.tasks, p);
    var i :| 0 <= i < |s.tasks| && Holds(s.tasks[i], p);
    assert s.tasks[i] in s.tasks && TaskOk(g, s.tasks[i], s.chan.received);
  }

  ghost predicate Quiet(s: State) {
    (forall t <- s.tasks :: t.stage.Finished?) && s.chan.delivered == s.chan.received
  }

  lemma QuietStateAnswered(g: System, s: State)
    requires Inv(g, s) && Quiet(s)
    ensures s.collector.replies == [g.Answer()]
  {
    LastNoteIsDone(g, s);
    forall p <- s.collector.pendingMap
      ensures !s.collector.pendingMap[p]
    {
      PendingMapCached(g, s, p);
      DoneForCached(g, s, p);
      assert DoneIn(s.chan.received, p);
    }
  }

  /** When every handler has finished and every notification was delivered, the answer was given. */
  lemma QuietMeansAnswered(g: System, run: seq<State>)
    requires g.Valid() && IsRun(g, run) && Quiet(run[|run| - 1])
    ensures run[|run| - 1].collector.replies == [g.Answer()]
  {
    RunInv(g, run);
    QuietStateAnswered(g, run[|run| - 1]);
  }

  lemma PendingMapCached(g: System, s: State, p: Pair)
    requires Summarises(g, s.collector, s.chan.received) && NotesCached(s.chan.received, s.cache)
    requires p in s.collector.pendingMap
    ensures p in s.cache
  {
    if DoneIn(s.chan.received, p) {
      var n :| n in s.chan.received && n.Done? && n.key == p;
    }
  }

  /** What the puller does next when it is not waiting for a sender. */
  function PullerMove(s: State): Action
    requires !s.chan.puller.Receiving?
  {
    if s.chan.puller.Pulled? then Append else if s.chan.pusher.SawEmpty? then Sleep else Wake
  }

  lemma TaskCanMove(g: System, s: State, k: nat) returns (a: Action)
    requires Locked(s.tasks, s.lock) && TasksOk(g, s.tasks, s.chan.received)
    requires k < |s.tasks| && !s.tasks[k].stage.Finished?
    requires s.chan.puller.Receiving?
    ensures Enabled(g, s, a) && OfTask(a)
  {
    assert TaskOk(g, s.tasks[k], s.chan.received);
    match s.tasks[k].stage
    case Sent => a := Start(k);
    case Working(todo, _) =>
      if todo == {} {
        a := Store(k);
      } else if s.lock.Some? {
        a := Notify(s.lock.value);
      } else {
        var o :| o in todo;
        assert o in g.expand[s.tasks[k].pair].Keys by {
          assert todo <= g.expand[s.tasks[k].pair].Keys;
        }
        a := Visit(k, o);
      }
    case Marking(_, _, _) => a := Notify(k);
    case Sending(_, _, _) => a := Send(k);
    case Storing(_) => a := NotifyDone(k);
  }

  lemma StateCanMove(g: System, s: State) returns (a: Action)
    requires Inv(g, s) && s.collector.replies == [] && !Stuck(s)
    ensures Enabled(g, s, a) && !MissesWake(s, a)
  {
    if !s.chan.puller.Receiving? {
      a := PullerMove(s);
    } else if k :| 0 <= k < |s.tasks| && !s.tasks[k].stage.Finished? {
      a := TaskCanMove(g, s, k);
    } else {
      match s.chan.pusher
      case Ready => a := Look;
      case SawEmpty => a := Sleep;
      case Pushing(_) => a := Collect;
      case Asleep =>
        s.chan.EmptyMeansDelivered();
        QuietStateAnswered(g, s);
        a := Look;
    }
  }

  ghost predicate CanMove(g: System, s: State) {
    exists a: Action :: Enabled(g, s, a)
  }

  lemma StuckCannotMove(g: System, s: State)
    requires Stuck(s)
    ensures !CanMove(g, s)
  {
    forall a: Action
      ensures !Enabled(g, s, a)
    {
      if OfTask(a) && a.k < |s.tasks| {
        assert s.tasks[a.k] in s.tasks;
      }
    }
  }

  lemma MovesUnlessStuck(g: System, s: State)
    requires Inv(g, s) && s.collector.replies == [] && !Stuck(s)
    ensures CanMove(g, s)
  {
    var a := StateCanMove(g, s);
  }

  /** Until the reply is given, no step can be taken exactly when all handlers have finished and the pusher of the
      channel sleeps on a value that nobody will wake it for. */
  lemma StuckIff(g: System, run: seq<State>)
    requires g.Valid() && IsRun(g, run) && run[|run| - 1].collector.replies == []
    ensures !CanMove(g, run[|run| - 1]) <==> Stuck(run[|run| - 1])
  {
    var s := run[|run| - 1];
    if Stuck(s) {
      StuckCannotMove(g, s);
    } else {
      RunInv(g, run);
      MovesUnlessStuck(g, s);
    }
  }
}
