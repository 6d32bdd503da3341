/** What the reply of the direct-cache protocol finds: nothing is left to run, to notify or to deliver, so the
    channel that the collector then closes is not used again. */
module DcraReply {
  import opened PairGraph
  import opened Dcra
  import opened DcraInvariant
  import opened DcraSteps
  import opened DcraTheorems

  ghost predicate FinishedFor(tasks: seq<Task>, p: Pair) {
    exists i :: 0 <= i < |tasks| && tasks[i] == Task(p, Finished)
  }

  /** Done marks come from finished handlers, one from each. */
  ghost predicate DoneMarksOk(tasks: seq<Task>, log: seq<Note>) {
    && (forall n <- log :: n.Done? ==> FinishedFor(tasks, n.key))
    && (forall i, j :: 0 <= i < j < |log| && log[i].Done? && log[j].Done? ==> log[i].key != log[j].key)
  }

  /** The collector replied because nothing it knows is pending. */
  ghost predicate RepliedOk(s: State) {
    s.collector.replies != [] ==>
      && s.chan.delivered != []
      && forall p <- s.collector.pendingMap :: !s.collector.pendingMap[p]
  }

  lemma FinishedStays(g: System, s: State, a: Action, s': State, p: Pair)
    requires StepBy(g, s, a, s') && FinishedFor(s.tasks, p)
    ensures FinishedFor(s'.tasks, p)
  {
    var i :| 0 <= i < |s.tasks| && s.tasks[i] == Task(p, Finished);
    assert s'.tasks[i] == Task(p, Finished);
  }

  /** The handler that is about to notify is the only one of its pair, so no done mark of the pair is in the log. */
  lemma NotDoneBefore(s: State, k: nat, n: Note)
    requires Claimed(s.tasks, s.cache) && DoneMarksOk(s.tasks, s.chan.received)
    requires k < |s.tasks| && s.tasks[k].stage.Storing? && n in s.chan.received && n.Done?
    ensures n.key != s.tasks[k].pair
  {
    var i :| 0 <= i < |s.tasks| && s.tasks[i] == Task(n.key, Finished);
    if n.key == s.tasks[k].pair {
      assert Holds(s.tasks[i], n.key) && Holds(s.tasks[k], n.key);
    }
  }

  lemma StepDoneMarks(g: System, s: State, a: Action, s': State)
    requires Claimed(s.tasks, s.cache) && DoneMarksOk(s.tasks, s.chan.received) && StepBy(g, s, a, s')
    ensures DoneMarksOk(s'.tasks, s'.chan.received)
  {
    var log, log' := s.chan.received, s'.chan.received;
    forall n | n in log && n.Done?
      ensures FinishedFor(s'.tasks, n.key)
    {
      FinishedStays(g, s, a, s', n.key);
    }
    if a.NotifyDone? {
      assert s'.tasks[a.k] == Task(s.tasks[a.k].pair, Finished);
      forall i | 0 <= i < |log| && log[i].Done?
        ensures log[i].key != log'[|log|].key
      {
        NotDoneBefore(s, a.k, log[i]);
      }
    }
  }

  lemma StepReplied(g: System, s: State, a: Action, s': State)
    requires RepliedOk(s) && StepBy(g, s, a, s')
    ensures RepliedOk(s')
  {
  }

  lemma {:induction false} RunReplyInv(g: System, run: seq<State>)
    requires g.Valid() && IsRun(g, run)
    ensures DoneMarksOk(run[|run| - 1].tasks, run[|run| - 1].chan.received) && RepliedOk(run[|run| - 1])
  {
    if |run| > 1 {
      var s, s' := run[|run| - 2], run[|run| - 1];
      RunReplyInv(g, run[..|run| - 1]);
      RunInv(g, run[..|run| - 1]);
      assert Step(g, s, s');
      var a :| StepBy(g, s, a, s');
      StepDoneMarks(g, s, a, s');
      StepReplied(g, s, a, s');
    }
  }

  // ---------------------------------------------------------------- at the reply

  /** Every reachable pair is known by then, and its done mark was delivered. */
  lemma ReachableIsDone(g: System, s: State, p: Pair)
    requires Inv(g, s) && RepliedOk(s) && s.collector.replies != []
    requires g.Reachable(p)
    ensures DoneIn(s.chan.delivered, p)
  {
    var log, seen, known := s.chan.received, s.chan.delivered, s.collector.pendingMap.Keys;
    s.chan.DeliveredIsPrefix();
    assert seen[0] == log[0] && Pending(g.root) in seen;
    forall q <- known
      ensures q in g.expand && g.Calls(q) <= known
    {
      DoneIsClosed(g, log, s.collector, seen, q);
    }
    var ps :| g.IsPath(ps) && ps[|ps| - 1] == p;
    g.PathStaysInside(known, ps, |ps| - 1);
  }

  lemma AllFinished(g: System, s: State, k: nat)
    requires Inv(g, s) && RepliedOk(s) && DoneMarksOk(s.tasks, s.chan.received) && s.collector.replies != []
    requires k < |s.tasks|
    ensures s.tasks[k].stage.Finished?
  {
    var p := s.tasks[k].pair;
    assert TaskOk(g, s.tasks[k], s.chan.received);
    ReachableIsDone(g, s, p);
    var n :| n in s.chan.delivered && n.Done? && n.key == p;
    s.chan.DeliveredIsPrefix();
    assert n in s.chan.received;
    var i :| 0 <= i < |s.tasks| && s.tasks[i] == Task(p, Finished);
    assert Holds(s.tasks[i], p) && Holds(s.tasks[k], p);
  }

  /** A note beyond the delivered ones would repeat a mark. */
  lemma NoNoteLeft(g: System, log: seq<Note>, seen: seq<Note>)
    requires LogOk(g, log) && seen <= log
    requires forall i, j :: 0 <= i < j < |log| && log[i].Done? && log[j].Done? ==> log[i].key != log[j].key
    requires forall n <- log :: DoneIn(seen, n.key)
    ensures seen == log
  {
    var d := |seen|;
    if d < |log| {
      var p := log[d].key;
      assert log[d] in log;
      var n :| n in seen && n.Done? && n.key == p;
      var j :| 0 <= j < d && seen[j] == n;
      assert log[j] == n && DoneAfterChildren(g, log, j);
      if log[d].Pending? {
        var i := PrefixPosition(log, j, Pending(p));
      }
    }
  }

  lemma AllNotesDone(g: System, s: State)
    requires Inv(g, s) && RepliedOk(s) && s.collector.replies != []
    ensures forall n <- s.chan.received :: DoneIn(s.chan.delivered, n.key)
  {
    forall n | n in s.chan.received
      ensures DoneIn(s.chan.delivered, n.key)
    {
      ReachableIsDone(g, s, n.key);
    }
  }

  lemma ReplyStateQuiet(g: System, s: State)
    requires Inv(g, s) && RepliedOk(s) && DoneMarksOk(s.tasks, s.chan.received) && s.collector.replies != []
    ensures Quiet(s)
  {
    forall k | 0 <= k < |s.tasks|
      ensures s.tasks[k].stage.Finished?
    {
      AllFinished(g, s, k);
    }
    assert s.chan.delivered == s.chan.received by {
      AllNotesDone(g, s);
      s.chan.DeliveredIsPrefix();
      NoNoteLeft(g, s.chan.received, s.chan.delivered);
    }
  }

  lemma FinishedCannotMove(g: System, s: State, a: Action)
    requires (forall t <- s.tasks :: t.stage.Finished?) && OfTask(a)
    ensures !Enabled(g, s, a)
  {
    if a.k < |s.tasks| {
      assert s.tasks[a.k] in s.tasks;
    }
  }

  /** When the collector replies every handler has finished and every notification was delivered, and no handler has
      a step left: nothing more is sent to the channel that is closed then. */
  lemma ReplyMeansDone(g: System, run: seq<State>)
    requires g.Valid() && IsRun(g, run) && run[|run| - 1].collector.replies != []
    ensures Quiet(run[|run| - 1])
    ensures forall a :: OfTask(a) ==> !Enabled(g, run[|run| - 1], a)
  {
    RunInv(g, run);
    RunReplyInv(g, run);
    ReplyStateQuiet(g, run[|run| - 1]);
    forall a: Action | OfTask(a)
      ensures !Enabled(g, run[|run| - 1], a)
    {
      FinishedCannotMove(g, run[|run| - 1], a);
    }
  }
}
