/** A depth-weighted sum over messages and live aggregations drops with every delivery. */
module CtraTermination {
  import opened PairGraph
  import opened Ctra
  import opened CtraInvariant
  import opened CtraSteps
  import opened CtraRuns
  import opened Sums

  /** What a call can still cause when at most `room` more pairs fit on its chain and each
      aggregation spreads to at most `width` others. */
  function CallWeight(width: nat, room: nat): (w: nat)
    ensures w >= 2
  {
    if room == 0 then 2 else 3 + width * CallWeight(width, room - 1)
  }

  function Depth(chain: map<Pair, seq<Pair>>, c: Caller): nat {
    if c.Aggregator? && c.pair in chain then |chain[c.pair]| else 0
  }

  function Weight(n: nat, chain: map<Pair, seq<Pair>>, m: Message): nat {
    match m
    case Call(_, caller) =>
      var d := Depth(chain, caller);
      CallWeight(n, if d <= n then n - d else 0)
    case Reply(_, _) => 1
  }

  function Weights(n: nat, chain: map<Pair, seq<Pair>>, ms: seq<Message>): (ws: seq<nat>)
    ensures |ws| == |ms|
    ensures forall k :: 0 <= k < |ms| ==> ws[k] == Weight(n, chain, ms[k])
  {
    seq(|ms|, k requires 0 <= k < |ms| => Weight(n, chain, ms[k]))
  }

  function Measure(g: System, s: Net, chain: map<Pair, seq<Pair>>): nat {
    Sum(Weights(|g.expand|, chain, s.msgs)) + 2 * |s.aggs|
  }

  /** No run is longer than this. */
  function Bound(g: System): nat {
    CallWeight(|g.expand|, |g.expand|)
  }

  lemma WeightsTaken(n: nat, chain: map<Pair, seq<Pair>>, s: Net, i: nat)
    requires i < |s.msgs|
    ensures Sum(Weights(n, chain, s.msgs))
            == Sum(Weights(n, chain, s.Taken(i).msgs)) + Weight(n, chain, s.msgs[i])
  {
    var ws := Weights(n, chain, s.msgs);
    SumTaken(ws, i);
    assert Weights(n, chain, s.Taken(i).msgs) == ws[..i] + ws[i + 1..];
  }

  lemma WeightsAdded(n: nat, chain: map<Pair, seq<Pair>>, ms: seq<Message>, ns: seq<Message>)
    ensures Sum(Weights(n, chain, ms + ns)) == Sum(Weights(n, chain, ms)) + Sum(Weights(n, chain, ns))
  {
    assert Weights(n, chain, ms + ns) == Weights(n, chain, ms) + Weights(n, chain, ns);
    SumConcat(Weights(n, chain, ms), Weights(n, chain, ns));
  }

  /** Only the owner of a message matters for its weight. */
  lemma WeightsKept(n: nat, chain: map<Pair, seq<Pair>>, p: Pair, ps: seq<Pair>, ms: seq<Message>)
    requires forall m <- ms :: m.Owner() != Aggregator(p)
    ensures Weights(n, chain, ms) == Weights(n, chain[p := ps], ms)
    ensures Weights(n, chain, ms) == Weights(n, chain - {p}, ms)
  {
    forall k | 0 <= k < |ms|
      ensures Weight(n, chain, ms[k]) == Weight(n, chain[p := ps], ms[k]) == Weight(n, chain - {p}, ms[k])
    {
      assert ms[k] in ms && ms[k].Owner() != Aggregator(p);
    }
  }

  lemma UnregisteredOwnsNothing(g: System, s: Net, p: Pair)
    requires Counted(g, s) && p !in s.aggs
    ensures forall m <- s.msgs :: m.Owner() != Aggregator(p)
  {
    forall m <- s.msgs
      ensures m.Owner() != Aggregator(p)
    {
      assert MsgOk(g, s, m);
    }
  }

  lemma AnsweredWeighs(n: nat, chain: map<Pair, seq<Pair>>, t: Net, caller: Caller, result: set<string>)
    ensures Sum(Weights(n, chain, t.Answered(caller, result).msgs)) <= Sum(Weights(n, chain, t.msgs)) + 1
  {
    if caller.Aggregator? {
      WeightsAdded(n, chain, t.msgs, [Reply(caller.pair, result)]);
      assert Weights(n, chain, [Reply(caller.pair, result)]) == [1];
    }
  }

  lemma MoreWidth(k: nat, width: nat, w: nat)
    requires k <= width
    ensures k * w <= width * w
  {
  }

  lemma CallsWeigh(n: nat, chain: map<Pair, seq<Pair>>, order: seq<Pair>, p: Pair)
    requires p in chain && 0 < |chain[p]| <= n && |order| <= n
    ensures Sum(Weights(n, chain, CallsTo(order, p))) + 3 <= CallWeight(n, n - |chain[p]| + 1)
  {
    var w := CallWeight(n, n - |chain[p]|);
    SumConstant(Weights(n, chain, CallsTo(order, p)), w);
    MoreWidth(|order|, n, w);
  }

  lemma SpreadWeighs(n: nat, s: Net, chain: map<Pair, seq<Pair>>, i: nat, order: seq<Pair>)
    requires i < |s.msgs| && s.msgs[i].Call?
    requires var m := s.msgs[i];
             && (m.caller.Aggregator? ==> m.caller.pair in chain)
             && |ChainBelow(chain, m.caller, m.to)| <= n && |order| <= n
             && forall x <- s.msgs :: x.Owner() != Aggregator(m.to)
    ensures var m := s.msgs[i];
            var chain' := chain[m.to := ChainBelow(chain, m.caller, m.to)];
            Sum(Weights(n, chain', s.Taken(i).msgs + CallsTo(order, m.to))) + 3 <= Sum(Weights(n, chain, s.msgs))
  {
    var m, t := s.msgs[i], s.Taken(i);
    var below := ChainBelow(chain, m.caller, m.to);
    var chain' := chain[m.to := below];
    WeightsTaken(n, chain, s, i);
    OwnersTaken(s, i);
    WeightsKept(n, chain, m.to, below, t.msgs);
    WeightsAdded(n, chain', t.msgs, CallsTo(order, m.to));
    CallsWeigh(n, chain', order, m.to);
    CallerWeight(n, chain, m);
  }

  lemma OneMore(aggs: map<Pair, Aggregation>, p: Pair, a: Aggregation)
    requires p !in aggs
    ensures |aggs[p := a]| == |aggs| + 1
  {
    assert aggs[p := a].Keys == aggs.Keys + {p};
  }

  lemma SpreadDecreases(g: System, s: Net, h: History, i: nat, order: seq<Pair>, s': Net)
    requires Spreads(g, s, i, order, s')
    requires forall x <- s.msgs :: x.Owner() != Aggregator(s.msgs[i].to)
    requires var m := s.msgs[i];
             && (m.caller.Aggregator? ==> m.caller.pair in h.chain)
             && |ChainBelow(h.chain, m.caller, m.to)| <= |g.expand| && |order| <= |g.expand|
    ensures Measure(g, s', NextHistory(s, i, h, Spread).chain) < Measure(g, s, h.chain)
  {
    var m := s.msgs[i];
    SpreadWeighs(|g.expand|, s, h.chain, i, order);
    OneMore(s.aggs, m.to, Aggregation(g.Found(m.to), |order|, m.caller));
  }

  lemma CallerWeight(n: nat, chain: map<Pair, seq<Pair>>, m: Message)
    requires m.Call? && (m.caller.Aggregator? ==> m.caller.pair in chain)
    requires |ChainBelow(chain, m.caller, m.to)| <= n
    ensures Weight(n, chain, m) == CallWeight(n, n - |ChainBelow(chain, m.caller, m.to)| + 1)
  {
    assert Depth(chain, m.caller) + 1 == |ChainBelow(chain, m.caller, m.to)|;
  }

  /** The pairs on a chain of callers are pairwise distinct, so no chain is longer than the graph has pairs. */
  lemma ChainFits(g: System, s: Net, h: History, p: Pair)
    requires Counted(g, s) && Treed(s.aggs, h.chain) && p in s.aggs
    ensures 0 < |h.chain[p]| <= |g.expand|
    ensures forall j, k :: 0 <= j < k < |h.chain[p]| ==> h.chain[p][j] != h.chain[p][k]
  {
    assert ChainOk(s.aggs, h.chain, p);
    forall x <- h.chain[p]
      ensures x in g.expand.Keys
    {
      assert AggOk(g, s, x);
    }
    DistinctFits(h.chain[p], g.expand.Keys);
    assert |g.expand.Keys| == |g.expand|;
  }

  lemma ReplyWeighs(n: nat, s: Net, chain: map<Pair, seq<Pair>>, i: nat, t: Net, caller: Caller, result: set<string>)
    requires i < |s.msgs| && s.msgs[i].Reply? && t.msgs == s.Taken(i).msgs
    requires forall x <- t.Answered(caller, result).msgs :: x.Owner() != Aggregator(s.msgs[i].to)
    ensures Sum(Weights(n, chain - {s.msgs[i].to}, t.Answered(caller, result).msgs)) <= Sum(Weights(n, chain, s.msgs))
  {
    WeightsTaken(n, chain, s, i);
    AnsweredWeighs(n, chain, t, caller, result);
    WeightsKept(n, chain, s.msgs[i].to, [], t.Answered(caller, result).msgs);
  }

  lemma ReleaseDecreases(g: System, s: Net, h: History, i: nat, s': Net)
    requires Releases(s, i, s')
    requires forall x <- s'.msgs :: x.Owner() != Aggregator(s.msgs[i].to)
    ensures Measure(g, s', h.chain - {s.msgs[i].to}) < Measure(g, s, h.chain)
  {
    var m, t := s.msgs[i], s.Taken(i);
    var a := s.aggs[m.to];
    ReplyWeighs(|g.expand|, s, h.chain, i, t.(aggs := t.aggs - {m.to}), a.caller, a.result + m.result);
    OneMore(s.aggs - {m.to}, m.to, a);
    assert s.aggs == (s.aggs - {m.to})[m.to := a];
  }

  lemma DeliveryDecreases(g: System, s: Net, h: History, i: nat, order: seq<Pair>, s': Net, kind: Kind, h': History)
    requires g.Valid() && Inv(g, s, h) && Inv(g, s', h')
    requires i < |s.msgs| && IsKind(g, s, i, order, s', kind) && MsgOk(g, s, s.msgs[i])
    requires h' == NextHistory(s, i, h, kind)
    ensures Measure(g, s', h'.chain) < Measure(g, s, h.chain)
  {
    var n, m, t := |g.expand|, s.msgs[i], s.Taken(i);
    WeightsTaken(n, h.chain, s, i);
    match kind
    case Duplicate => AnsweredWeighs(n, h.chain, t, m.caller, {});
    case Leaf => AnsweredWeighs(n, h.chain, t, m.caller, g.Found(m.to));
    case Spread =>
      ChainFits(g, s', h', m.to);
      assert |g.expand.Keys| == n;
      DistinctFits(order, g.expand.Keys);
      UnregisteredOwnsNothing(g, s, m.to);
      SpreadDecreases(g, s, h, i, order, s');
    case Collect => assert s'.aggs.Keys == s.aggs.Keys;
    case Release =>
      assert AggOk(g, s, m.to);
      ReleaseLeavesNothing(g, s, i, s');
      ReleaseDecreases(g, s, h, i, s');
  }
}
