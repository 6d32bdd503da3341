/** A weighted sum over tasks, notifications under way and pairs not yet cached drops with every step. */
module DcraTermination {
  import opened PairGraph
  import opened Channel
  import opened Dcra
  import opened DcraInvariant
  import opened DcraTheorems
  import opened Sums

  /** How many objects one handler can iterate over at most. */
  function Width(g: System): nat {
    |set p, o | p in g.expand && o in g.expand[p] :: o|
  }

  function StageWeight(width: nat, stage: Stage): nat {
    match stage
    case Sent => width + 9
    case Working(todo, _) => 8 + |todo|
    case Marking(_, todo, _) => |todo| + width + 25
    case Sending(_, todo, _) => |todo| + width + 18
    case Storing(_) => 7
    case Finished => 0
  }

  function Weights(width: nat, tasks: seq<Task>): (ws: seq<nat>)
    ensures |ws| == |tasks|
    ensures forall k :: 0 <= k < |tasks| ==> ws[k] == StageWeight(width, tasks[k].stage)
  {
    seq(|tasks|, k requires 0 <= k < |tasks| => StageWeight(width, tasks[k].stage))
  }

  /** Each note under way still has to be appended, notified, looked at and collected; and the pusher may look in
      vain and fall asleep once for each notification. */
  function UnderWay(chan: DimChannel<Note>): nat {
    (match chan.puller
     case Receiving => 0
     case Pulled(_) => 6
     case Notifying => 3)
    + 2 * |chan.buffer|
    + (match chan.pusher
       case Asleep => 0
       case SawEmpty => 1
       case Ready => 2
       case Pushing(_) => 3)
  }

  /** Each pair without an entry may still cost its marking, its signal and a handler run. */
  function Unmarked(width: nat, pairs: nat, cached: nat): nat {
    if cached <= pairs then (width + 17) * (pairs - cached) else 0
  }

  function Measure(g: System, s: State): nat {
    var w := Width(g);
    Unmarked(w, |g.expand|, |s.cache|) + Sum(Weights(w, s.tasks)) + UnderWay(s.chan)
  }

  lemma OneMark(width: nat, pairs: nat, cached: nat)
    requires cached < pairs
    ensures Unmarked(width, pairs, cached) == Unmarked(width, pairs, cached + 1) + width + 17
  {
  }

  lemma CacheFits(g: System, s: State)
    requires g.Valid() && Claimed(s.tasks, s.cache) && TasksOk(g, s.tasks, s.chan.received)
    ensures s.cache <= g.expand.Keys
  {
    forall p <- s.cache
      ensures p in g.expand
    {
      assert Owned(s.tasks, p);
      var i :| 0 <= i < |s.tasks| && Holds(s.tasks[i], p);
      assert TaskOk(g, s.tasks[i], s.chan.received);
    }
  }

  lemma SmallerSet<T>(a: set<T>, b: set<T>)
    requires a <= b
    ensures |a| <= |b|
  {
    assert b == a + (b - a);
  }

  lemma KeysFit(g: System, p: Pair)
    requires p in g.expand
    ensures |g.expand[p].Keys| <= Width(g)
  {
    SmallerSet(g.expand[p].Keys, set q, o | q in g.expand && o in g.expand[q] :: o);
  }

  lemma TaskMoved(width: nat, tasks: seq<Task>, k: nat, t': Task)
    requires k < |tasks|
    ensures Sum(Weights(width, tasks[k := t'])) + StageWeight(width, tasks[k].stage)
            == Sum(Weights(width, tasks)) + StageWeight(width, t'.stage)
  {
    SumUpdated(Weights(width, tasks), k, StageWeight(width, t'.stage));
    assert Weights(width, tasks[k := t']) == Weights(width, tasks)[k := StageWeight(width, t'.stage)];
  }

  lemma TaskAdded(width: nat, tasks: seq<Task>, u: Task)
    ensures Sum(Weights(width, tasks + [u])) == Sum(Weights(width, tasks)) + StageWeight(width, u.stage)
  {
    assert Weights(width, tasks + [u]) == Weights(width, tasks) + [StageWeight(width, u.stage)];
  }

  lemma VisitDecreases(g: System, s: State, k: nat, o: string, s': State)
    requires StepBy(g, s, Visit(k, o), s') && s.cache <= g.expand.Keys && s'.cache <= g.expand.Keys
    ensures Measure(g, s') < Measure(g, s)
  {
    var todo := s.tasks[k].stage.todo;
    assert todo == todo - {o} + {o};
    TaskMoved(Width(g), s.tasks, k, s'.tasks[k]);
    assert s'.tasks == s.tasks[k := s'.tasks[k]];
    if s'.cache != s.cache {
      SmallerSet(s'.cache, g.expand.Keys);
      assert |g.expand.Keys| == |g.expand|;
      OneMark(Width(g), |g.expand|, |s.cache|);
    }
  }

  lemma SendDecreases(g: System, s: State, k: nat, s': State)
    requires StepBy(g, s, Send(k), s')
    ensures Measure(g, s') < Measure(g, s)
  {
    var t := s.tasks[k];
    var t', u := Task(t.pair, Working(t.stage.todo, t.stage.found)), Task(t.stage.child, Sent);
    TaskMoved(Width(g), s.tasks, k, t');
    TaskAdded(Width(g), s.tasks[k := t'], u);
    assert s'.tasks == s.tasks[k := t'] + [u];
  }

  lemma TaskDecreases(g: System, s: State, k: nat, a: Action, s': State)
    requires StepBy(g, s, a, s') && (a == Start(k) || a == Notify(k) || a == Store(k) || a == NotifyDone(k))
    ensures Measure(g, s') < Measure(g, s)
  {
    if a.Start? {
      KeysFit(g, s.tasks[k].pair);
    }
    TaskMoved(Width(g), s.tasks, k, s'.tasks[k]);
    assert s'.tasks == s.tasks[k := s'.tasks[k]];
  }

  lemma StepDecreases(g: System, s: State, a: Action, s': State)
    requires StepBy(g, s, a, s') && s.cache <= g.expand.Keys && s'.cache <= g.expand.Keys
    ensures Measure(g, s') < Measure(g, s)
  {
    match a
    case Start(k) => TaskDecreases(g, s, k, a, s');
    case Visit(k, o) => VisitDecreases(g, s, k, o, s');
    case Notify(k) => TaskDecreases(g, s, k, a, s');
    case Send(k) => SendDecreases(g, s, k, s');
    case Store(k) => TaskDecreases(g, s, k, a, s');
    case NotifyDone(k) => TaskDecreases(g, s, k, a, s');
    case _ =>
  }

  /** No run is longer than the initial measure: workers, signals and notifications all run out,
      on cyclic graphs too. */
  lemma {:induction false} Terminates(g: System, run: seq<State>)
    requires g.Valid() && IsRun(g, run)
    ensures |run| - 1 + Measure(g, run[|run| - 1]) <= Measure(g, Init(g))
  {
    if |run| > 1 {
      var prefix := run[..|run| - 1];
      var s, s' := run[|run| - 2], run[|run| - 1];
      Terminates(g, prefix);
      assert Step(g, s, s');
      var a :| StepBy(g, s, a, s');
      RunInv(g, prefix);
      CacheFits(g, s);
      RunInv(g, run);
      CacheFits(g, s');
      StepDecreases(g, s, a, s');
    }
  }

}
