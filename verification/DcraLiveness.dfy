/** When the direct-cache protocol comes to its reply: always but for a wake-up that its channel may miss. */
module DcraLiveness {
  import opened PairGraph
  import opened Dcra
  import opened DcraInvariant
  import opened DcraTheorems
  import opened DcraTermination

  lemma RunsAreRuns(missedWake: bool, g: System, run: seq<State>)
    requires IsRunUnder(missedWake, g, run)
    ensures IsRun(g, run)
  {
    forall k | 0 < k < |run|
      ensures Step(g, run[k - 1], run[k])
    {
      assert StepUnder(missedWake, g, run[k - 1], run[k]);
    }
  }

  lemma StepExtends(missedWake: bool, g: System, run: seq<State>, a: Action) returns (longer: seq<State>)
    requires g.Valid() && IsRunUnder(missedWake, g, run) && Enabled(g, run[|run| - 1], a)
    requires MissesWake(run[|run| - 1], a) ==> missedWake
    ensures IsRunUnder(missedWake, g, longer) && run <= longer && |longer| == |run| + 1
    ensures longer[|longer| - 1] == Next(g, run[|run| - 1], a)
    ensures |longer| <= Measure(g, Init(g)) + 1
  {
    longer := run + [Next(g, run[|run| - 1], a)];
    assert StepBy(g, run[|run| - 1], a, longer[|run|]);
    forall k | 0 < k < |longer|
      ensures StepUnder(missedWake, g, longer[k - 1], longer[k])
    {
      if k < |run| {
        assert StepUnder(missedWake, g, run[k - 1], run[k]);
      }
    }
    RunsAreRuns(missedWake, g, longer);
    Terminates(g, longer);
  }

  lemma {:induction false} RunWakesUp(g: System, run: seq<State>)
    requires IsRunUnder(false, g, run)
    ensures run[|run| - 1].chan.WakesUp()
  {
    if |run| > 1 {
      var s, s' := run[|run| - 2], run[|run| - 1];
      RunWakesUp(g, run[..|run| - 1]);
      assert StepUnder(false, g, s, s');
    }
  }

  lemma OneMoreStep(g: System, run: seq<State>) returns (longer: seq<State>)
    requires g.Valid() && IsRunUnder(false, g, run) && run[|run| - 1].collector.replies == []
    ensures IsRunUnder(false, g, longer) && run <= longer && |run| < |longer| <= Measure(g, Init(g)) + 1
  {
    RunsAreRuns(false, g, run);
    RunInv(g, run);
    RunWakesUp(g, run);
    var a := StateCanMove(g, run[|run| - 1]);
    longer := StepExtends(false, g, run, a);
  }

  /** Without a missed wake-up, every run goes on to the reply, whatever was interleaved so far. */
  lemma {:induction false} Completes(g: System, run: seq<State>) returns (full: seq<State>)
    requires g.Valid() && IsRunUnder(false, g, run)
    ensures IsRunUnder(false, g, full) && run <= full && full[|full| - 1].collector.replies == [g.Answer()]
    decreases Measure(g, Init(g)) + 1 - |run|
  {
    full := run;
    RunsAreRuns(false, g, run);
    ReplyIsExact(g, run);
    if run[|run| - 1].collector.replies == [] {
      full := OneMoreStep(g, run);
      full := Completes(g, full);
    }
  }

  // ---------------------------------------------------------------- the missed wake-up

  /** The pusher stands between its look and its wait, and has handed nothing out. */
  predicate Late(s: State) {
    s.chan.pusher.SawEmpty? && s.chan.delivered == [] && s.collector.replies == []
  }

  lemma LateMove(g: System, s: State) returns (a: Action)
    requires Locked(s.tasks, s.lock) && TasksOk(g, s.tasks, s.chan.received)
    requires Late(s) && !((forall t <- s.tasks :: t.stage.Finished?) && s.chan.puller.Receiving?)
    ensures Enabled(g, s, a) && Late(Next(g, s, a))
  {
    if s.chan.puller.Pulled? {
      a := Append;
    } else if s.chan.puller.Notifying? {
      a := Wake;
    } else {
      var k :| 0 <= k < |s.tasks| && !s.tasks[k].stage.Finished?;
      a := TaskCanMove(g, s, k);
    }
  }

  lemma LateEnd(g: System, s: State)
    requires s.chan.Fifo() && s.chan.received != []
    requires Late(s) && (forall t <- s.tasks :: t.stage.Finished?) && s.chan.puller.Receiving?
    ensures Stuck(Next(g, s, Sleep))
  {
    assert s.chan.received == [] + [] + s.chan.buffer + [];
  }

  /** While the pusher stays there, everything else runs to its end, and nothing is delivered. */
  lemma {:induction false} RunsPastPusher(g: System, run: seq<State>) returns (full: seq<State>)
    requires g.Valid() && IsRunUnder(true, g, run) && Late(run[|run| - 1])
    ensures IsRunUnder(true, g, full) && Stuck(full[|full| - 1]) && full[|full| - 1].collector.replies == []
    decreases Measure(g, Init(g)) + 1 - |run|
  {
    var s := run[|run| - 1];
    RunsAreRuns(true, g, run);
    RunInv(g, run);
    if (forall t <- s.tasks :: t.stage.Finished?) && s.chan.puller.Receiving? {
      LateEnd(g, s);
      full := StepExtends(true, g, run, Sleep);
    } else {
      var a := LateMove(g, s);
      full := StepExtends(true, g, run, a);
      full := RunsPastPusher(g, full);
    }
  }

  /** Every query has a run in which all handlers finish, all notifications are buffered, and no reply comes. */
  lemma StuckRun(g: System) returns (run: seq<State>)
    requires g.Valid()
    ensures IsRunUnder(true, g, run) && Stuck(run[|run| - 1]) && run[|run| - 1].collector.replies == []
  {
    run := [Init(g)];
    run := StepExtends(true, g, run, Look);
    run := RunsPastPusher(g, run);
  }

  ghost predicate CanReply(g: System, run: seq<State>) {
    exists full: seq<State> :: IsRun(g, full) && run <= full && full[|full| - 1].collector.replies == [g.Answer()]
  }

  ghost predicate AlwaysCanReply(missedWake: bool, g: System) {
    forall run :: IsRunUnder(missedWake, g, run) ==> CanReply(g, run)
  }

  lemma RunsOn(g: System, run: seq<State>, full: seq<State>)
    requires IsRun(g, full) && run <= full && run != [] && run != full
    ensures CanMove(g, run[|run| - 1])
  {
    var s, s' := full[|run| - 1], full[|run|];
    assert Step(g, s, s');
    var a :| StepBy(g, s, a, s');
  }

  lemma StuckNeverReplies(g: System, run: seq<State>)
    requires IsRun(g, run) && Stuck(run[|run| - 1]) && run[|run| - 1].collector.replies == []
    ensures !CanReply(g, run)
  {
    StuckCannotMove(g, run[|run| - 1]);
    forall full: seq<State> | IsRun(g, full) && run <= full
      ensures full[|full| - 1].collector.replies == []
    {
      if full != run {
        RunsOn(g, run, full);
      }
    }
  }

  /** On every query, all runs can come to the reply exactly when no wake-up is missed. */
  lemma RepliesIffNoMissedWake(missedWake: bool, g: System)
    requires g.Valid()
    ensures AlwaysCanReply(missedWake, g) <==> !missedWake
  {
    if missedWake {
      var run := StuckRun(g);
      RunsAreRuns(true, g, run);
      StuckNeverReplies(g, run);
    } else {
      forall run | IsRunUnder(missedWake, g, run)
        ensures CanReply(g, run)
      {
        var full := Completes(g, run);
        RunsAreRuns(false, g, full);
      }
    }
  }
}
