/** The direct-cache protocol: workers mark pairs pending in the cache, store their findings there,
    and a collector that watches the cache level decides when everything is done.
    Single cache writes, notifications, signals and channel moves are the steps. */
module Dcra {
  import opened Wrappers
  import opened PairGraph
  import opened Channel

  /** A notification of the watched cache level. */
  datatype Note = Pending(key: Pair) | Done(key: Pair, found: set<string>)

  /** Where the handler of one signal stands. `todo` are the result objects not yet iterated. */
  datatype Stage =
    | Sent
    | Working(todo: set<string>, found: set<string>)
    | Marking(child: Pair, todo: set<string>, found: set<string>)  // entry created, notification due, level locked
    | Sending(child: Pair, todo: set<string>, found: set<string>)  // notified and unlocked, signal due
    | Storing(found: set<string>)                                  // result stored, notification due
    | Finished

  datatype Task = Task(pair: Pair, stage: Stage)

  /** The goroutine of the root process. */
  datatype Collector = Collector(pendingMap: map<Pair, bool>, results: set<string>, replies: seq<set<string>>)
  {
    function Handle(n: Note): Collector {
      match n
      case Pending(key) =>
        if key in pendingMap then this else this.(pendingMap := pendingMap[key := true])
      case Done(key, found) =>
        var c := Collector(pendingMap[key := false], results + found, replies);
        if forall k <- c.pendingMap :: !c.pendingMap[k] then c.(replies := replies + [c.results]) else c
    }
  }

  /** `cache` are the pairs with an entry under the aggregation; `lock` is the task holding the level. */
  datatype State = State(
    cache: set<Pair>,
    lock: Option<nat>,
    tasks: seq<Task>,
    chan: DimChannel<Note>,
    collector: Collector)

  /** The root process has marked its own pair and signalled its own object. */
  function Init(g: System): State {
    State({g.root}, None, [Task(g.root, Sent)],
          DimChannel([Pending(g.root)], Pulled(Pending(g.root)), [], Ready, []),
          Collector(map[], {}, []))
  }

  datatype Action =
    | Start(k: nat)
    | Visit(k: nat, o: string)
    | Notify(k: nat)
    | Send(k: nat)
    | Store(k: nat)
    | NotifyDone(k: nat)
    | Append
    | Wake
    | Look
    | Sleep
    | Collect

  function At(s: State, k: nat, stage: Stage): State
    requires k < |s.tasks|
  {
    s.(tasks := s.tasks[k := s.tasks[k].(stage := stage)])
  }

  predicate Enabled(g: System, s: State, a: Action) {
    match a
    case Start(k) => k < |s.tasks| && s.tasks[k].stage.Sent? && s.tasks[k].pair in g.expand
    case Visit(k, o) =>
      && k < |s.tasks| && s.tasks[k].stage.Working? && s.tasks[k].pair in g.expand
      && o in s.tasks[k].stage.todo && o in g.expand[s.tasks[k].pair]
      && (g.expand[s.tasks[k].pair][o] != "" ==> s.lock.None?)
    case Notify(k) => k < |s.tasks| && s.tasks[k].stage.Marking? && s.chan.puller.Receiving?
    case Send(k) => k < |s.tasks| && s.tasks[k].stage.Sending?
    case Store(k) => k < |s.tasks| && s.tasks[k].stage.Working? && s.tasks[k].stage.todo == {}
    case NotifyDone(k) => k < |s.tasks| && s.tasks[k].stage.Storing? && s.chan.puller.Receiving?
    case Append => s.chan.puller.Pulled?
    case Wake => s.chan.puller.Notifying?
    case Look => s.chan.pusher.Ready?
    case Sleep => s.chan.pusher.SawEmpty?
    case Collect => s.chan.pusher.Pushing? && s.collector.replies == []
  }

  function Next(g: System, s: State, a: Action): State
    requires Enabled(g, s, a)
  {
    match a
    case Start(k) => At(s, k, Working(g.expand[s.tasks[k].pair].Keys, {}))
    case Visit(k, o) =>
      var t := s.tasks[k].stage;
      var query := g.expand[s.tasks[k].pair][o];
      var child := Pair(o, query);
      if query == "" then At(s, k, Working(t.todo - {o}, t.found + {o}))
      else if child in s.cache then At(s, k, Working(t.todo - {o}, t.found)) // someone marked it before
      else At(s, k, Marking(child, t.todo - {o}, t.found)).(cache := s.cache + {child}, lock := Some(k))
    case Notify(k) =>
      var t := s.tasks[k].stage;
      At(s, k, Sending(t.child, t.todo, t.found)).(lock := None, chan := s.chan.Receive(Pending(t.child)))
    case Send(k) =>
      var t := s.tasks[k].stage;
      var s' := At(s, k, Working(t.todo, t.found));
      s'.(tasks := s'.tasks + [Task(t.child, Sent)])
    case Store(k) => At(s, k, Storing(s.tasks[k].stage.found))
    case NotifyDone(k) =>
      At(s, k, Finished).(chan := s.chan.Receive(Done(s.tasks[k].pair, s.tasks[k].stage.found)))
    case Append => s.(chan := s.chan.Append())
    case Wake => s.(chan := s.chan.Wake())
    case Look => s.(chan := s.chan.Look())
    case Sleep => s.(chan := s.chan.Sleep())
    case Collect => s.(chan := s.chan.Deliver(), collector := s.collector.Handle(s.chan.pusher.value))
  }

  ghost predicate StepBy(g: System, s: State, a: Action, s': State) {
    Enabled(g, s, a) && s' == Next(g, s, a)
  }

  ghost predicate Step(g: System, s: State, s': State) {
    exists a :: StepBy(g, s, a, s')
  }

  ghost predicate IsRun(g: System, run: seq<State>) {
    && run != []
    && run[0] == Init(g)
    && forall k :: 0 < k < |run| ==> Step(g, run[k - 1], run[k])
  }

  // ---------------------------------------------------------------- missed wake-ups

  /** The puller's notification comes between the pusher's look at the empty buffer and its wait. */
  predicate MissesWake(s: State, a: Action) {
    a.Wake? && s.chan.pusher.SawEmpty?
  }

  ghost predicate StepUnder(missedWake: bool, g: System, s: State, s': State) {
    exists a :: StepBy(g, s, a, s') && (MissesWake(s, a) ==> missedWake)
  }

  /** The runs of the code, or those among them without a missed wake-up. */
  ghost predicate IsRunUnder(missedWake: bool, g: System, run: seq<State>) {
    && run != []
    && run[0] == Init(g)
    && forall k :: 0 < k < |run| ==> StepUnder(missedWake, g, run[k - 1], run[k])
  }

  /** Nothing can move any more: the handlers are done, and the pusher sleeps on the values it should hand out. */
  predicate Stuck(s: State) {
    (forall t <- s.tasks :: t.stage.Finished?) && s.chan.Stuck()
  }
}
