/** The call-tree protocol over whole runs, under every delivery order. */
module CtraTheorems {
  import opened PairGraph
  import opened Ctra
  import opened CtraInvariant
  import opened CtraRuns
  import opened CtraTermination
  import opened Sums

  lemma {:induction false} RunHasHistory(g: System, run: seq<Net>) returns (h: History)
    requires g.Valid() && IsRun(g, run)
    ensures Inv(g, run[|run| - 1], h)
    ensures |run| - 1 + Measure(g, run[|run| - 1], h.chain) <= Bound(g)
  {
    if |run| == 1 {
      InitInv(g);
      h := History({}, map[]);
      assert Weights(|g.expand|, h.chain, Init(g).msgs) == [Bound(g)];
      SumOne(Bound(g));
    } else {
      var s, s' := run[|run| - 2], run[|run| - 1];
      assert Step(g, s, s');
      var h0 := RunHasHistory(g, run[..|run| - 1]);
      var i, order :| Deliver(g, s, i, order, s');
      var kind;
      kind, h := DeliveryKeepsInv(g, s, h0, i, order, s');
      DeliveryDecreases(g, s, h0, i, order, s', kind, h);
    }
  }

  /** Termination on every finite graph, cyclic or not: no run is longer than the bound. */
  lemma Terminates(g: System, run: seq<Net>)
    requires g.Valid() && IsRun(g, run)
    ensures |run| <= Bound(g) + 1
  {
    var h := RunHasHistory(g, run);
  }

  lemma {:induction false} ChainIsCallers(g: System, s: Net, h: History, p: Pair, k: nat)
    requires Treed(s.aggs, h.chain) && p in s.aggs && k < |h.chain[p]|
    ensures h.chain[p][k] in s.aggs
    ensures s.aggs[h.chain[p][k]].caller == if k == 0 then Process else Aggregator(h.chain[p][k - 1])
    decreases |h.chain[p]|
  {
    assert ChainOk(s.aggs, h.chain, p);
    match s.aggs[p].caller {
      case Process =>
      case Aggregator(q) =>
        assert ChainOk(s.aggs, h.chain, q);
        assert h.chain[p] == h.chain[q] + [p];
        if k < |h.chain[q]| {
          ChainIsCallers(g, s, h, q, k);
        } else {
          LastOfChain(s.aggs, h.chain, q);
        }
    }
  }

  lemma LastOfChain(aggs: map<Pair, Aggregation>, chain: map<Pair, seq<Pair>>, p: Pair)
    requires p in aggs && p in chain && ChainOk(aggs, chain, p)
    ensures chain[p] != [] && chain[p][|chain[p]| - 1] == p
  {
  }

  /** In every reachable state the callers of a registered pair lead back to the asking process, never meeting a
      pair twice, so no chain of callers is longer than the query has pairs. */
  lemma CallersNeverRepeat(g: System, run: seq<Net>, p: Pair) returns (chain: seq<Pair>)
    requires g.Valid() && IsRun(g, run) && p in run[|run| - 1].aggs
    ensures var aggs := run[|run| - 1].aggs;
      && 0 < |chain| <= |g.expand| && chain[|chain| - 1] == p
      && (forall j, k :: 0 <= j < k < |chain| ==> chain[j] != chain[k])
      && forall k :: 0 <= k < |chain| ==>
           chain[k] in aggs && aggs[chain[k]].caller == if k == 0 then Process else Aggregator(chain[k - 1])
  {
    var s := run[|run| - 1];
    var h := RunHasHistory(g, run);
    chain := h.chain[p];
    ChainFits(g, s, h, p);
    assert ChainOk(s.aggs, h.chain, p);
    LastOfChain(s.aggs, h.chain, p);
    forall k | 0 <= k < |chain|
      ensures chain[k] in s.aggs && s.aggs[chain[k]].caller == if k == 0 then Process else Aggregator(chain[k - 1])
    {
      ChainIsCallers(g, s, h, p, k);
    }
  }

  /** Every registered aggregation waits for exactly its calls in flight, its live children and the
      replies on their way to it; unregistered pairs are owed nothing. */
  lemma CallbacksCountOutstanding(g: System, run: seq<Net>, p: Pair)
    requires g.Valid() && IsRun(g, run)
    ensures var s := run[|run| - 1];
            if p in s.aggs then s.aggs[p].callbacks == Outstanding(s, Aggregator(p)) > 0
            else Outstanding(s, Aggregator(p)) == 0
  {
    var s := run[|run| - 1];
    var h := RunHasHistory(g, run);
    if p in s.aggs {
      assert AggOk(g, s, p);
    } else {
      UnregisteredOwesNothing(g, s, p);
    }
  }

  lemma NoAggregationLeft(g: System, s: Net, h: History)
    requires Counted(g, s) && Treed(s.aggs, h.chain) && Outstanding(s, Process) == 0
    ensures s.aggs == map[]
  {
    assert Children(s.aggs, Process) == {};
    if p :| p in s.aggs {
      TreeHasRoot(g, s, h, p);
    }
  }

  lemma NoMessageLeft(g: System, s: Net)
    requires Counted(g, s) && s.aggs == map[] && Outstanding(s, Process) == 0
    ensures s.msgs == []
  {
    if s.msgs != [] {
      var c := Owners(s.msgs)[0];
      assert c in multiset(Owners(s.msgs));
      if c.Aggregator? {
        UnregisteredOwesNothing(g, s, c.pair);
      }
    }
  }

  /** Once the asking process is owed nothing, nothing at all is left over. */
  lemma OwedNothingMeansQuiet(g: System, s: Net, h: History)
    requires Inv(g, s, h) && s.written != []
    ensures s.aggs == map[] && s.msgs == []
  {
    assert Outstanding(s, Process) == 0;
    NoAggregationLeft(g, s, h);
    NoMessageLeft(g, s);
  }

  lemma WaitsForSomeChild(g: System, s: Net, c: Caller) returns (p: Pair)
    requires Counted(g, s) && s.msgs == [] && Outstanding(s, c) > 0
    ensures p in s.aggs && s.aggs[p].caller == c
  {
    assert Owners(s.msgs) == [];
    p :| p in Children(s.aggs, c);
  }

  lemma {:induction false} SilentNetHasNoAggregation(g: System, s: Net, h: History, p: Pair)
    requires g.Valid() && Inv(g, s, h) && s.msgs == []
    ensures p !in s.aggs
    decreases |g.expand| - (if p in h.chain then |h.chain[p]| else 0)
  {
    if p in s.aggs {
      assert AggOk(g, s, p);
      ChainFits(g, s, h, p);
      var c := WaitsForSomeChild(g, s, Aggregator(p));
      assert ChainOk(s.aggs, h.chain, c);
      ChainFits(g, s, h, c);
      SilentNetHasNoAggregation(g, s, h, c);
    }
  }

  /** No deadlock: the network is silent exactly when the result was written. */
  lemma SilentIffWritten(g: System, run: seq<Net>)
    requires g.Valid() && IsRun(g, run)
    ensures var s := run[|run| - 1]; s.msgs == [] <==> s.written != []
  {
    var s := run[|run| - 1];
    var h := RunHasHistory(g, run);
    if s.written != [] {
      OwedNothingMeansQuiet(g, s, h);
    } else if s.msgs == [] {
      var p := WaitsForSomeChild(g, s, Process);
      SilentNetHasNoAggregation(g, s, h, p);
    }
  }

  /** In every reachable state a message in flight can be delivered. */
  lemma MessageCanBeDelivered(g: System, run: seq<Net>, i: nat) returns (order: seq<Pair>, s': Net)
    requires g.Valid() && IsRun(g, run) && i < |run[|run| - 1].msgs|
    ensures Deliver(g, run[|run| - 1], i, order, s')
  {
    var s := run[|run| - 1];
    var h := RunHasHistory(g, run);
    assert MsgOk(g, s, s.msgs[i]);
    if s.msgs[i].Call? {
      order := AnyOrder(g.Calls(s.msgs[i].to));
      s' := OnCall(g, s.Taken(i), s.msgs[i].to, s.msgs[i].caller, order);
    } else {
      order := [];
      s' := OnReply(s.Taken(i), s.msgs[i].to, s.msgs[i].result);
    }
  }

  lemma QuietHistoryIsAnswer(g: System, s: Net, h: History, w: set<string>)
    requires g.Valid() && Inv(g, s, h) && s.aggs == map[] && s.msgs == [] && s.written == [w]
    ensures w == g.Answer()
  {
    forall p | Known(s, h, p)
      ensures p in h.expanded
    {
    }
    forall p <- h.expanded
      ensures g.Calls(p) <= h.expanded
    {
      assert forall c <- g.Calls(p) :: Known(s, h, c);
    }
    var all := set p, o | p in h.expanded && o in g.Found(p) :: o;
    g.ClosedSetFindsAnswer(h.expanded, all);
    forall o <- all
      ensures o in w
    {
      assert Held(s, o);
    }
    assert w in s.written;
  }

  /** The answer is exact: whatever the delivery order, at most one result is written for the asking
      process, precisely the objects found from the pairs reachable from the root. */
  lemma AnswerIsExact(g: System, run: seq<Net>)
    requires g.Valid() && IsRun(g, run)
    ensures var s := run[|run| - 1]; s.written == [] || s.written == [g.Answer()]
  {
    var s := run[|run| - 1];
    var h := RunHasHistory(g, run);
    if s.written != [] {
      OwedNothingMeansQuiet(g, s, h);
      assert s.written == [s.written[0]];
      QuietHistoryIsAnswer(g, s, h, s.written[0]);
    }
  }

  lemma StepExtends(g: System, run: seq<Net>, s': Net)
    requires IsRun(g, run) && Step(g, run[|run| - 1], s')
    ensures IsRun(g, run + [s'])
  {
    var longer := run + [s'];
    forall k | 0 < k < |longer|
      ensures Step(g, longer[k - 1], longer[k])
    {
      if k < |run| {
        assert Step(g, run[k - 1], run[k]);
      }
    }
  }

  /** Every run goes on to the answer: whatever was delivered so far, any further deliveries end with it written. */
  lemma {:induction false} Completes(g: System, run: seq<Net>) returns (full: seq<Net>)
    requires g.Valid() && IsRun(g, run)
    ensures IsRun(g, full) && run <= full && full[|full| - 1].written == [g.Answer()] && full[|full| - 1].msgs == []
    decreases Bound(g) + 1 - |run|
  {
    full := run;
    Terminates(g, run);
    SilentIffWritten(g, run);
    AnswerIsExact(g, run);
    if run[|run| - 1].msgs != [] {
      var order, s' := MessageCanBeDelivered(g, run, 0);
      assert Step(g, run[|run| - 1], s');
      StepExtends(g, run, s');
      Terminates(g, run + [s']);
      full := Completes(g, run + [s']);
    }
  }
}
