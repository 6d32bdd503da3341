/** Each step of the direct-cache protocol keeps its invariant. */
module DcraSteps {
  import opened PairGraph
  import opened Dcra
  import opened DcraInvariant

  // ---------------------------------------------------------------- a longer log

  lemma TaskOkGrows(g: System, t: Task, log: seq<Note>, n: Note)
    requires TaskOk(g, t, log) && (t.stage.Marking? ==> n != Pending(t.stage.child))
    ensures TaskOk(g, t, log + [n])
  {
    assert forall m :: m in log ==> m in log + [n];
  }

  lemma DoneAfterGrows(g: System, log: seq<Note>, n: Note)
    requires forall j :: 0 <= j < |log| ==> DoneAfterChildren(g, log, j)
    ensures forall j :: 0 <= j < |log| ==> DoneAfterChildren(g, log + [n], j)
  {
    forall j | 0 <= j < |log|
      ensures DoneAfterChildren(g, log + [n], j)
    {
      assert DoneAfterChildren(g, log, j);
      assert (log + [n])[..j] == log[..j];
    }
  }

  lemma LogGrowsPending(g: System, log: seq<Note>, c: Pair)
    requires LogOk(g, log) && Pending(c) !in log && c in g.expand && g.Reachable(c)
    ensures LogOk(g, log + [Pending(c)])
  {
    DoneAfterGrows(g, log, Pending(c));
    assert forall i :: 0 <= i < |log| ==> log[i] in log;
  }

  lemma LogGrowsDone(g: System, log: seq<Note>, p: Pair)
    requires LogOk(g, log) && p in g.expand && g.Reachable(p)
    requires Pending(p) in log && forall c <- g.Calls(p) :: Pending(c) in log
    ensures LogOk(g, log + [Done(p, g.Found(p))])
  {
    var n := Done(p, g.Found(p));
    DoneAfterGrows(g, log, n);
    assert (log + [n])[..|log|] == log;
    assert DoneAfterChildren(g, log + [n], |log|);
  }

  lemma MovedTasksOk(g: System, tasks: seq<Task>, log: seq<Note>, k: nat, t': Task)
    requires TasksOk(g, tasks, log) && k < |tasks| && TaskOk(g, t', log)
    ensures TasksOk(g, tasks[k := t'], log)
  {
  }

  lemma TasksOkGrow(g: System, tasks: seq<Task>, log: seq<Note>, n: Note, k: nat, t': Task)
    requires TasksOk(g, tasks, log) && k < |tasks| && TaskOk(g, t', log + [n])
    requires forall i :: 0 <= i < |tasks| && i != k && tasks[i].stage.Marking? ==> n != Pending(tasks[i].stage.child)
    ensures TasksOk(g, tasks[k := t'], log + [n])
  {
    var tasks' := tasks[k := t'];
    forall i | 0 <= i < |tasks|
      ensures TaskOk(g, tasks'[i], log + [n])
    {
      assert TaskOk(g, tasks[i], log);
      if i != k {
        TaskOkGrows(g, tasks[i], log, n);
      }
    }
  }

  // ---------------------------------------------------------------- who holds what

  /** A move that holds the same pairs as before keeps the claims. */
  lemma MoveKeepsClaims(tasks: seq<Task>, cache: set<Pair>, k: nat, t': Task)
    requires k < |tasks| && Claimed(tasks, cache)
    requires forall p :: Holds(t', p) <==> Holds(tasks[k], p)
    requires Claims(t') ==> t'.stage.child != t'.pair
    ensures Claimed(tasks[k := t'], cache)
  {
    var tasks' := tasks[k := t'];
    forall p
      ensures p in cache <==> Owned(tasks', p)
    {
      assert p in cache <==> Owned(tasks, p);
      if i :| 0 <= i < |tasks| && Holds(tasks[i], p) {
        assert Holds(tasks'[i], p);
      }
      if i :| 0 <= i < |tasks'| && Holds(tasks'[i], p) {
        assert Holds(tasks[i], p);
      }
    }
  }

  lemma MarkKeepsClaims(tasks: seq<Task>, cache: set<Pair>, k: nat, t': Task, child: Pair)
    requires k < |tasks| && Claimed(tasks, cache) && child !in cache
    requires forall p :: Holds(t', p) <==> Holds(tasks[k], p) || p == child
    requires Claims(t') ==> t'.stage.child != t'.pair
    ensures Claimed(tasks[k := t'], cache + {child})
  {
    forall i | 0 <= i < |tasks|
      ensures !Holds(tasks[i], child)
    {
      assert !Owned(tasks, child);
    }
    var tasks' := tasks[k := t'];
    forall p
      ensures p in cache + {child} <==> Owned(tasks', p)
    {
      assert p in cache <==> Owned(tasks, p);
      if i :| 0 <= i < |tasks| && Holds(tasks[i], p) {
        assert Holds(tasks'[i], p);
      }
      if i :| 0 <= i < |tasks'| && Holds(tasks'[i], p) {
        assert p == child || Holds(tasks[i], p);
      }
      if p == child {
        assert Holds(tasks'[k], p);
      }
    }
  }

  /** A claim handed over to a new task keeps the claims. */
  lemma SendKeepsClaims(tasks: seq<Task>, cache: set<Pair>, k: nat, t': Task, u: Task)
    requires k < |tasks| && Claimed(tasks, cache)
    requires forall p :: Holds(tasks[k], p) <==> Holds(t', p) || Holds(u, p)
    requires forall p :: !(Holds(t', p) && Holds(u, p))
    requires !Claims(t') && !Claims(u)
    ensures Claimed(tasks[k := t'] + [u], cache)
  {
    var tasks' := tasks[k := t'] + [u];
    forall p
      ensures p in cache <==> Owned(tasks', p)
    {
      assert p in cache <==> Owned(tasks, p);
      if i :| 0 <= i < |tasks| && Holds(tasks[i], p) {
        assert Holds(tasks'[i], p) || Holds(tasks'[|tasks|], p);
      }
      if i :| 0 <= i < |tasks'| && Holds(tasks'[i], p) {
        assert Holds(tasks[if i < |tasks| then i else k], p);
      }
    }
  }

  /** A pair that already has an entry was notified before the level was unlocked. */
  lemma CachedMeansNoted(g: System, s: State, c: Pair)
    requires Claimed(s.tasks, s.cache) && Locked(s.tasks, s.lock) && TasksOk(g, s.tasks, s.chan.received)
    requires s.lock.None? && c in s.cache
    ensures Pending(c) in s.chan.received
  {
    assert Owned(s.tasks, c);
    var i :| 0 <= i < |s.tasks| && Holds(s.tasks[i], c);
    assert TaskOk(g, s.tasks[i], s.chan.received);
  }

  // ---------------------------------------------------------------- one task between two stages

  lemma StartedTaskOk(g: System, t: Task, log: seq<Note>)
    requires TaskOk(g, t, log) && t.stage.Sent?
    ensures TaskOk(g, Task(t.pair, Working(g.expand[t.pair].Keys, {})), log)
  {
  }

  function VisitedTask(g: System, t: Task, o: string): Task
    requires t.stage.Working? && t.pair in g.expand && o in g.expand[t.pair]
  {
    var found' := if g.expand[t.pair][o] == "" then t.stage.found + {o} else t.stage.found;
    Task(t.pair, Working(t.stage.todo - {o}, found'))
  }

  lemma VisitedTaskOk(g: System, t: Task, log: seq<Note>, o: string)
    requires TaskOk(g, t, log) && t.stage.Working? && o in t.stage.todo && o in g.expand[t.pair]
    requires g.expand[t.pair][o] != "" ==> Pending(Pair(o, g.expand[t.pair][o])) in log
    ensures TaskOk(g, VisitedTask(g, t, o), log)
  {
    assert Visited(g, VisitedTask(g, t, o)) == Visited(g, t) + {o};
  }

  function MarkedTask(g: System, t: Task, o: string): Task
    requires t.stage.Working? && t.pair in g.expand && o in g.expand[t.pair]
  {
    Task(t.pair, Marking(Pair(o, g.expand[t.pair][o]), t.stage.todo - {o}, t.stage.found))
  }

  lemma MarkedTaskOk(g: System, t: Task, log: seq<Note>, o: string)
    requires TaskOk(g, t, log) && t.stage.Working? && o in t.stage.todo && o in g.expand[t.pair]
    requires g.expand[t.pair][o] != "" && Pending(Pair(o, g.expand[t.pair][o])) !in log
    ensures TaskOk(g, MarkedTask(g, t, o), log)
  {
    assert Visited(g, MarkedTask(g, t, o)) == Visited(g, t) + {o};
  }

  lemma NotifiedTaskOk(g: System, t: Task, log: seq<Note>)
    requires TaskOk(g, t, log) && t.stage.Marking?
    ensures TaskOk(g, Task(t.pair, Sending(t.stage.child, t.stage.todo, t.stage.found)), log + [Pending(t.stage.child)])
  {
    assert forall m :: m in log ==> m in log + [Pending(t.stage.child)];
    assert Pending(t.stage.child) in log + [Pending(t.stage.child)];
  }

  lemma SentTasksOk(g: System, t: Task, log: seq<Note>)
    requires g.Valid() && TaskOk(g, t, log) && t.stage.Sending?
    ensures TaskOk(g, Task(t.pair, Working(t.stage.todo, t.stage.found)), log)
    ensures TaskOk(g, Task(t.stage.child, Sent), log)
  {
    g.CallReachable(t.pair, t.stage.child);
  }

  lemma StoredTaskOk(g: System, t: Task, log: seq<Note>)
    requires TaskOk(g, t, log) && t.stage.Working? && t.stage.todo == {}
    ensures TaskOk(g, Task(t.pair, Storing(t.stage.found)), log)
  {
    assert Visited(g, t) == g.expand[t.pair].Keys;
  }

  lemma FinishedTaskOk(g: System, t: Task, log: seq<Note>)
    requires TaskOk(g, t, log) && t.stage.Storing?
    ensures t.stage.found == g.Found(t.pair)
    ensures forall c <- g.Calls(t.pair) :: Pending(c) in log
    ensures TaskOk(g, Task(t.pair, Finished), log + [Done(t.pair, t.stage.found)])
  {
    var n := Done(t.pair, t.stage.found);
    assert forall m :: m in log ==> m in log + [n];
    assert n in log + [n];
  }

  // ---------------------------------------------------------------- claims, step by step

  lemma VisitClaims(g: System, s: State, k: nat, o: string, s': State)
    requires ClaimSide(s.tasks, s.cache, s.lock, s.chan.received)
    requires StepBy(g, s, Visit(k, o), s')
    ensures ClaimSide(s'.tasks, s'.cache, s'.lock, s'.chan.received)
  {
    var t := s.tasks[k];
    var child := Pair(o, g.expand[t.pair][o]);
    if child.query == "" || child in s.cache {
      MoveKeepsClaims(s.tasks, s.cache, k, s'.tasks[k]);
    } else {
      assert Holds(t, t.pair) && Owned(s.tasks, t.pair);
      MarkKeepsClaims(s.tasks, s.cache, k, s'.tasks[k], child);
    }
  }

  lemma NotifyClaims(g: System, s: State, k: nat, s': State)
    requires ClaimSide(s.tasks, s.cache, s.lock, s.chan.received)
    requires StepBy(g, s, Notify(k), s')
    ensures ClaimSide(s'.tasks, s'.cache, s'.lock, s'.chan.received)
  {
    assert Holds(s.tasks[k], s.tasks[k].stage.child) && Owned(s.tasks, s.tasks[k].stage.child);
    MoveKeepsClaims(s.tasks, s.cache, k, s'.tasks[k]);
  }

  lemma SendClaims(g: System, s: State, k: nat, s': State)
    requires ClaimSide(s.tasks, s.cache, s.lock, s.chan.received)
    requires StepBy(g, s, Send(k), s')
    ensures ClaimSide(s'.tasks, s'.cache, s'.lock, s'.chan.received)
  {
    SendKeepsClaims(s.tasks, s.cache, k, s'.tasks[k], s'.tasks[|s.tasks|]);
  }

  lemma NotifyDoneClaims(g: System, s: State, k: nat, s': State)
    requires ClaimSide(s.tasks, s.cache, s.lock, s.chan.received)
    requires StepBy(g, s, NotifyDone(k), s')
    ensures ClaimSide(s'.tasks, s'.cache, s'.lock, s'.chan.received)
  {
    assert Holds(s.tasks[k], s.tasks[k].pair) && Owned(s.tasks, s.tasks[k].pair);
    MoveKeepsClaims(s.tasks, s.cache, k, s'.tasks[k]);
  }

  lemma StepClaims(g: System, s: State, a: Action, s': State)
    requires ClaimSide(s.tasks, s.cache, s.lock, s.chan.received) && StepBy(g, s, a, s')
    ensures ClaimSide(s'.tasks, s'.cache, s'.lock, s'.chan.received)
  {
    match a
    case Start(k) => MoveKeepsClaims(s.tasks, s.cache, k, s'.tasks[k]);
    case Visit(k, o) => VisitClaims(g, s, k, o, s');
    case Notify(k) => NotifyClaims(g, s, k, s');
    case Send(k) => SendClaims(g, s, k, s');
    case Store(k) => MoveKeepsClaims(s.tasks, s.cache, k, s'.tasks[k]);
    case NotifyDone(k) => NotifyDoneClaims(g, s, k, s');
    case _ =>
  }

  // ---------------------------------------------------------------- the log, step by step

  lemma VisitPlainLog(g: System, s: State, k: nat, o: string, s': State)
    requires ClaimSide(s.tasks, s.cache, s.lock, s.chan.received)
    requires LogSide(g, s.tasks, s.chan.received) && StepBy(g, s, Visit(k, o), s')
    requires var q := g.expand[s.tasks[k].pair][o]; q == "" || Pair(o, q) in s.cache
    ensures LogSide(g, s'.tasks, s'.chan.received)
  {
    var t, log := s.tasks[k], s.chan.received;
    assert TaskOk(g, t, log);
    if g.expand[t.pair][o] != "" {
      CachedMeansNoted(g, s, Pair(o, g.expand[t.pair][o]));
    }
    VisitedTaskOk(g, t, log, o);
    assert s'.tasks == s.tasks[k := VisitedTask(g, t, o)];
    MovedTasksOk(g, s.tasks, log, k, VisitedTask(g, t, o));
  }

  lemma VisitMarkLog(g: System, s: State, k: nat, o: string, s': State)
    requires NotesCached(s.chan.received, s.cache)
    requires LogSide(g, s.tasks, s.chan.received) && StepBy(g, s, Visit(k, o), s')
    requires var q := g.expand[s.tasks[k].pair][o]; q != "" && Pair(o, q) !in s.cache
    ensures LogSide(g, s'.tasks, s'.chan.received)
  {
    var t, log := s.tasks[k], s.chan.received;
    assert TaskOk(g, t, log);
    MarkedTaskOk(g, t, log, o);
    assert s'.tasks == s.tasks[k := MarkedTask(g, t, o)];
    MovedTasksOk(g, s.tasks, log, k, MarkedTask(g, t, o));
  }

  lemma SendLog(g: System, s: State, k: nat, s': State)
    requires g.Valid() && LogSide(g, s.tasks, s.chan.received) && StepBy(g, s, Send(k), s')
    ensures LogSide(g, s'.tasks, s'.chan.received)
  {
    var t, log := s.tasks[k], s.chan.received;
    assert TaskOk(g, t, log);
    SentTasksOk(g, t, log);
    MovedTasksOk(g, s.tasks, log, k, Task(t.pair, Working(t.stage.todo, t.stage.found)));
  }

  lemma NotifyLog(g: System, s: State, k: nat, s': State)
    requires g.Valid() && Locked(s.tasks, s.lock)
    requires LogSide(g, s.tasks, s.chan.received) && StepBy(g, s, Notify(k), s')
    ensures LogSide(g, s'.tasks, s'.chan.received)
  {
    var t, log := s.tasks[k], s.chan.received;
    assert TaskOk(g, t, log);
    g.CallReachable(t.pair, t.stage.child);
    LogGrowsPending(g, log, t.stage.child);
    NotifiedTaskOk(g, t, log);
    TasksOkGrow(g, s.tasks, log, Pending(t.stage.child), k, s'.tasks[k]);
  }

  lemma NotifyDoneLog(g: System, s: State, k: nat, s': State)
    requires LogSide(g, s.tasks, s.chan.received) && StepBy(g, s, NotifyDone(k), s')
    ensures LogSide(g, s'.tasks, s'.chan.received)
  {
    var t, log := s.tasks[k], s.chan.received;
    assert TaskOk(g, t, log);
    FinishedTaskOk(g, t, log);
    LogGrowsDone(g, log, t.pair);
    TasksOkGrow(g, s.tasks, log, Done(t.pair, t.stage.found), k, s'.tasks[k]);
  }

  lemma VisitLog(g: System, s: State, k: nat, o: string, s': State)
    requires ClaimSide(s.tasks, s.cache, s.lock, s.chan.received)
    requires LogSide(g, s.tasks, s.chan.received) && StepBy(g, s, Visit(k, o), s')
    ensures LogSide(g, s'.tasks, s'.chan.received)
  {
    if g.expand[s.tasks[k].pair][o] == "" || Pair(o, g.expand[s.tasks[k].pair][o]) in s.cache {
      VisitPlainLog(g, s, k, o, s');
    } else {
      VisitMarkLog(g, s, k, o, s');
    }
  }

  predicate OfTask(a: Action) {
    a.Start? || a.Visit? || a.Notify? || a.Send? || a.Store? || a.NotifyDone?
  }

  /** The moves of the channel and the collector leave tasks, entries and history alone. */
  lemma OtherMoves(g: System, s: State, a: Action, s': State)
    requires StepBy(g, s, a, s') && !OfTask(a)
    ensures s'.tasks == s.tasks && s'.cache == s.cache && s'.lock == s.lock && s'.chan.received == s.chan.received
  {
  }

  lemma TaskLog(g: System, s: State, a: Action, s': State)
    requires g.Valid() && ClaimSide(s.tasks, s.cache, s.lock, s.chan.received)
    requires LogSide(g, s.tasks, s.chan.received) && StepBy(g, s, a, s') && OfTask(a)
    ensures LogSide(g, s'.tasks, s'.chan.received)
  {
    match a
    case Start(k) => StartLog(g, s, k, s');
    case Visit(k, o) => VisitLog(g, s, k, o, s');
    case Notify(k) => NotifyLog(g, s, k, s');
    case Send(k) => SendLog(g, s, k, s');
    case Store(k) => StoreLog(g, s, k, s');
    case NotifyDone(k) => NotifyDoneLog(g, s, k, s');
  }

  lemma StepLog(g: System, s: State, a: Action, s': State)
    requires g.Valid() && ClaimSide(s.tasks, s.cache, s.lock, s.chan.received)
    requires LogSide(g, s.tasks, s.chan.received) && StepBy(g, s, a, s')
    ensures LogSide(g, s'.tasks, s'.chan.received)
  {
    if OfTask(a) {
      TaskLog(g, s, a, s');
    } else {
      OtherMoves(g, s, a, s');
    }
  }

  lemma StartLog(g: System, s: State, k: nat, s': State)
    requires LogSide(g, s.tasks, s.chan.received) && StepBy(g, s, Start(k), s')
    ensures LogSide(g, s'.tasks, s'.chan.received)
  {
    assert TaskOk(g, s.tasks[k], s.chan.received);
    StartedTaskOk(g, s.tasks[k], s.chan.received);
    MovedTasksOk(g, s.tasks, s.chan.received, k, s'.tasks[k]);
  }

  lemma StoreLog(g: System, s: State, k: nat, s': State)
    requires LogSide(g, s.tasks, s.chan.received) && StepBy(g, s, Store(k), s')
    ensures LogSide(g, s'.tasks, s'.chan.received)
  {
    assert TaskOk(g, s.tasks[k], s.chan.received);
    StoredTaskOk(g, s.tasks[k], s.chan.received);
    MovedTasksOk(g, s.tasks, s.chan.received, k, s'.tasks[k]);
  }
}
