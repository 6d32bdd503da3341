/** The handler of the call-tree protocol, statement by statement, against its transition relation. */
module CtraHandler {
  import opened PairGraph
  import opened Ctra

  /** The contexts of the handlers, the network and the cached results of one query process. */
  class Runtime {
    const g: System
    var aggs: map<Pair, Aggregation>
    var msgs: seq<Message>
    var written: seq<set<string>>

    ghost function State(): Net
      reads this
    {
      Net(aggs, msgs, written)
    }

    /** The root process signals its own object and waits for the result. */
    constructor (g: System)
      ensures this.g == g && State() == Init(g)
    {
      this.g := g;
      aggs, msgs, written := map[], [Call(g.root, Process)], [];
    }

    /** replyCaller: answer whoever asked for `p`, then release the aggregation. */
    method ReplyCaller(p: Pair, result: set<string>)
      requires p in aggs
      modifies this
      ensures State() == old(State()).(aggs := old(aggs) - {p}).Answered(old(aggs)[p].caller, result)
    {
      match aggs[p].caller {
        case Aggregator(q) => msgs := msgs + [Reply(q, result)];
        case Process => written := written + [result];
      }
      aggs := aggs - {p};
    }

    /** Iterate over the result objects in any order: collect the final ones, call the others. */
    method SendCalls(to: Pair) returns (objects: set<string>, nextCalls: nat, ghost order: seq<Pair>)
      requires to in g.expand
      modifies this`msgs
      ensures objects == g.Found(to)
      ensures nextCalls == |order| && Enumerates(order, g.Calls(to))
      ensures msgs == old(msgs) + CallsTo(order, to)
    {
      var targets := g.expand[to];
      var todo := targets.Keys;
      objects, nextCalls, order := {}, 0, [];
      while todo != {}
        invariant todo <= targets.Keys
        invariant objects == set o | o in targets.Keys - todo && targets[o] == ""
        invariant Enumerates(order, CallsAmong(targets, targets.Keys - todo))
        invariant nextCalls == |order|
        invariant msgs == old(msgs) + CallsTo(order, to)
      {
        var o :| o in todo;
        CallsAmongOneMore(targets, targets.Keys - todo, o);
        todo := todo - {o};
        assert targets.Keys - todo == targets.Keys - todo - {o} + {o};
        if targets[o] == "" {
          objects := objects + {o};
        } else {
          var next := Pair(o, targets[o]);
          msgs := msgs + [Call(next, Aggregator(to))];
          assert CallsTo(order + [next], to) == CallsTo(order, to) + [Call(next, Aggregator(to))];
          order := order + [next];
          nextCalls := nextCalls + 1;
        }
      }
      assert targets.Keys - todo == targets.Keys;
      assert g.Calls(to) == CallsAmong(targets, targets.Keys);
    }

    /** State 0, a query from a parent: register, send the next calls, then either answer at once or
        remember how many callbacks to wait for. */
    method HandleCall(i: nat) returns (ghost order: seq<Pair>)
      requires i < |msgs| && msgs[i].Call? && msgs[i].to in g.expand
      modifies this
      ensures Deliver(g, old(State()), i, order, State())
    {
      var to, caller := msgs[i].to, msgs[i].caller;
      msgs := msgs[..i] + msgs[i + 1..];
      if to in aggs {
        if caller.Aggregator? {
          msgs := msgs + [Reply(caller.pair, {})];
        }
        order := AnyOrder(g.Calls(to));
        return;
      }
      ghost var before := aggs;
      aggs := aggs[to := Aggregation({}, 0, caller)];
      var objects, nextCalls;
      objects, nextCalls, order := SendCalls(to);
      aggs := aggs[to := aggs[to].(result := objects)];
      if nextCalls == 0 {
        ReplyCaller(to, objects);
        assert aggs == before;
      } else {
        aggs := aggs[to := aggs[to].(callbacks := nextCalls)];
      }
    }

    /** State 1, a result from a descendant: merge it, count it off, answer when it was the last. */
    method HandleReply(i: nat)
      requires i < |msgs| && msgs[i].Reply?
      modifies this
      ensures Deliver(g, old(State()), i, [], State())
    {
      var to, result := msgs[i].to, msgs[i].result;
      msgs := msgs[..i] + msgs[i + 1..];
      if to !in aggs || aggs[to].callbacks < 0 {
        return;
      }
      var callbacks := aggs[to].callbacks - 1;
      var total := aggs[to].result + result;
      ghost var before := aggs;
      aggs := aggs[to := aggs[to].(result := total, callbacks := callbacks)];
      if callbacks == 0 {
        ReplyCaller(to, total);
        assert aggs == before - {to};
      }
    }
  }

  function CallsAmong(targets: map<string, string>, visited: set<string>): set<Pair>
    requires visited <= targets.Keys
  {
    set o | o in visited && targets[o] != "" :: Pair(o, targets[o])
  }

  lemma CallsAmongOneMore(targets: map<string, string>, visited: set<string>, o: string)
    requires visited <= targets.Keys && o in targets && o !in visited
    ensures var p := Pair(o, targets[o]);
            && p !in CallsAmong(targets, visited)
            && CallsAmong(targets, visited + {o}) == CallsAmong(targets, visited) + (if targets[o] != "" then {p} else {})
  {
  }
}
