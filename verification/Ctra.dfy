/** The call-tree protocol: handlers, messages and contexts as a transition system.
    One handler run is one atomic step; any message in flight may be delivered next. */
module Ctra {
  import opened PairGraph

  /** Whom an aggregation answers: the process that asked the query, or the aggregation of a pair. */
  datatype Caller = Process | Aggregator(pair: Pair)

  /** What the context of an object holds under one aggregation id. */
  datatype Aggregation = Aggregation(result: set<string>, callbacks: int, caller: Caller)

  datatype Message =
    | Call(to: Pair, caller: Caller)
    | Reply(to: Pair, result: set<string>)
  {
    /** The aggregation that counts this message among its callbacks. */
    function Owner(): Caller {
      if Call? then caller else Aggregator(to)
    }
  }

  /** `written` lists the values stored under the `result` key the asking process listens to. */
  datatype Net = Net(aggs: map<Pair, Aggregation>, msgs: seq<Message>, written: seq<set<string>>)
  {
    /** replyCaller: to the calling aggregation, or to the cache when the caller is the asking process. */
    function Answered(caller: Caller, result: set<string>): Net {
      match caller
      case Process => this.(written := written + [result])
      case Aggregator(p) => this.(msgs := msgs + [Reply(p, result)])
    }

    /** This state after message `i` was taken from the network. */
    function Taken(i: nat): Net
      requires i < |msgs|
    {
      this.(msgs := msgs[..i] + msgs[i + 1..])
    }
  }

  function Init(g: System): Net {
    Net(map[], [Call(g.root, Process)], [])
  }

  /** `order` lists the set `s` without repetition: the order a handler happens to iterate in. */
  ghost predicate Enumerates<T(!new)>(order: seq<T>, s: set<T>) {
    && (forall x :: x in order <==> x in s)
    && (forall i, j :: 0 <= i < j < |order| ==> order[i] != order[j])
  }

  lemma {:induction false} AnyOrder<T(!new)>(s: set<T>) returns (order: seq<T>)
    ensures Enumerates(order, s)
  {
    if s == {} {
      order := [];
    } else {
      var x :| x in s;
      order := AnyOrder(s - {x});
      order := order + [x];
    }
  }

  function CallsTo(order: seq<Pair>, caller: Pair): (ms: seq<Message>)
    ensures |ms| == |order|
    ensures forall k :: 0 <= k < |order| ==> ms[k] == Call(order[k], Aggregator(caller))
  {
    seq(|order|, k requires 0 <= k < |order| => Call(order[k], Aggregator(caller)))
  }

  /** State 0 of the handler on message `Call(to, caller)`; `t` is the state without the message. */
  function OnCall(g: System, t: Net, to: Pair, caller: Caller, order: seq<Pair>): Net
    requires to in g.expand
  {
    if to in t.aggs then
      // The same query is already registered here: answer with nothing.
      if caller.Process? then t else t.Answered(caller, {})
    else if order == [] then
      // Nothing to wait for: registered, answered and released in the same run.
      t.Answered(caller, g.Found(to))
    else
      t.(aggs := t.aggs[to := Aggregation(g.Found(to), |order|, caller)],
         msgs := t.msgs + CallsTo(order, to))
  }

  /** State 1 of the handler on message `Reply(to, result)`; `t` is the state without the message. */
  function OnReply(t: Net, to: Pair, result: set<string>): Net {
    if to !in t.aggs || t.aggs[to].callbacks < 0 then
      t // "no valid callbacks counter": the reply is dropped
    else
      var a := t.aggs[to];
      var total := a.result + result;
      if a.callbacks - 1 == 0 then
        t.(aggs := t.aggs - {to}).Answered(a.caller, total)
      else
        t.(aggs := t.aggs[to := a.(result := total, callbacks := a.callbacks - 1)])
  }

  /** One delivery: message `i` is handled, calling in the order `order`. */
  ghost predicate Deliver(g: System, s: Net, i: nat, order: seq<Pair>, s': Net) {
    && i < |s.msgs|
    && match s.msgs[i]
       case Call(to, caller) =>
         && to in g.expand
         && Enumerates(order, g.Calls(to))
         && s' == OnCall(g, s.Taken(i), to, caller, order)
       case Reply(to, result) =>
         s' == OnReply(s.Taken(i), to, result)
  }

  ghost predicate Step(g: System, s: Net, s': Net) {
    exists i, order :: Deliver(g, s, i, order, s')
  }

  ghost predicate IsRun(g: System, run: seq<Net>) {
    && run != []
    && run[0] == Init(g)
    && forall k :: 0 < k < |run| ==> Step(g, run[k - 1], run[k])
  }
}
