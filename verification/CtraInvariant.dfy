/** What every delivery of the call-tree protocol keeps. */
module CtraInvariant {
  import opened PairGraph
  import opened Ctra

  /** History of a run: the pairs ever registered, and the chain of callers of each live aggregation. */
  datatype History = History(expanded: set<Pair>, chain: map<Pair, seq<Pair>>)

  // ---------------------------------------------------------------- bookkeeping

  function Owners(ms: seq<Message>): (r: seq<Caller>)
    ensures |r| == |ms|
    ensures forall k :: 0 <= k < |ms| ==> r[k] == ms[k].Owner()
  {
    seq(|ms|, k requires 0 <= k < |ms| => ms[k].Owner())
  }

  function Children(aggs: map<Pair, Aggregation>, c: Caller): set<Pair> {
    set p | p in aggs && aggs[p].caller == c
  }

  /** In-flight calls and replies counted by `c`, plus live aggregations that will reply to it. */
  function Outstanding(s: Net, c: Caller): nat {
    multiset(Owners(s.msgs))[c] + |Children(s.aggs, c)|
  }

  /** What `c` is owed or was given: constant for the asking process, one less with each reply for others. */
  function Balance(s: Net, c: Caller): nat {
    Outstanding(s, c) + if c.Process? then |s.written| else 0
  }

  /** `c` may ask for `p`: the asking process for the root, an aggregation for a pair it calls. */
  ghost predicate MayCall(g: System, c: Caller, p: Pair) {
    match c
    case Process => p == g.root
    case Aggregator(q) => q in g.expand && p in g.Calls(q)
  }

  ghost predicate Live(aggs: map<Pair, Aggregation>, c: Caller) {
    c.Aggregator? ==> c.pair in aggs
  }

  ghost predicate SoundAgg(g: System, p: Pair, a: Aggregation) {
    p in g.expand && g.Reachable(p) && a.result <= g.Answer() && MayCall(g, a.caller, p)
  }

  ghost predicate SoundMsg(g: System, m: Message) {
    match m
    case Call(to, caller) => to in g.expand && g.Reachable(to) && MayCall(g, caller, to)
    case Reply(to, result) => result <= g.Answer()
  }

  ghost predicate AggOk(g: System, s: Net, p: Pair)
    requires p in s.aggs
  {
    && SoundAgg(g, p, s.aggs[p])
    && Live(s.aggs, s.aggs[p].caller)
    && s.aggs[p].callbacks == Outstanding(s, Aggregator(p))
    && s.aggs[p].callbacks > 0
  }

  ghost predicate MsgOk(g: System, s: Net, m: Message) {
    SoundMsg(g, m) && Live(s.aggs, m.Owner())
  }

  ghost predicate Counted(g: System, s: Net) {
    && (forall p <- s.aggs :: AggOk(g, s, p))
    && (forall m <- s.msgs :: MsgOk(g, s, m))
    && (forall w <- s.written :: w <= g.Answer())
    && Balance(s, Process) == 1
  }

  // ---------------------------------------------------------------- the call tree

  ghost predicate ChainOk(aggs: map<Pair, Aggregation>, chain: map<Pair, seq<Pair>>, p: Pair)
    requires p in aggs && p in chain
  {
    && (forall x <- chain[p] :: x in aggs)
    && (forall i, j :: 0 <= i < j < |chain[p]| ==> chain[p][i] != chain[p][j])
    && match aggs[p].caller
       case Process => chain[p] == [p]
       case Aggregator(q) => q in chain && chain[p] == chain[q] + [p]
  }

  /** The callers of the live aggregations form a tree; `chain` gives the way to each from its root. */
  ghost predicate Treed(aggs: map<Pair, Aggregation>, chain: map<Pair, seq<Pair>>) {
    && chain.Keys == aggs.Keys
    && forall p <- aggs :: ChainOk(aggs, chain, p)
  }

  lemma TreeKept(aggs: map<Pair, Aggregation>, aggs': map<Pair, Aggregation>, chain: map<Pair, seq<Pair>>)
    requires Treed(aggs, chain)
    requires aggs'.Keys == aggs.Keys && forall p <- aggs :: aggs'[p].caller == aggs[p].caller
    ensures Treed(aggs', chain)
  {
    forall p <- aggs'
      ensures ChainOk(aggs', chain, p)
    {
      assert ChainOk(aggs, chain, p);
    }
  }

  function ChainBelow(chain: map<Pair, seq<Pair>>, caller: Caller, p: Pair): seq<Pair>
    requires caller.Aggregator? ==> caller.pair in chain
  {
    if caller.Aggregator? then chain[caller.pair] + [p] else [p]
  }

  lemma TreeGrows(aggs: map<Pair, Aggregation>, chain: map<Pair, seq<Pair>>, p: Pair, a: Aggregation)
    requires Treed(aggs, chain) && p !in aggs
    requires a.caller.Aggregator? ==> a.caller.pair in aggs
    ensures Treed(aggs[p := a], chain[p := ChainBelow(chain, a.caller, p)])
  {
    var aggs', chain' := aggs[p := a], chain[p := ChainBelow(chain, a.caller, p)];
    if a.caller.Aggregator? {
      assert ChainOk(aggs, chain, a.caller.pair);
    }
    forall q <- aggs'
      ensures ChainOk(aggs', chain', q)
    {
      if q != p {
        assert ChainOk(aggs, chain, q);
      }
    }
  }

  /** A pair that no aggregation names as its caller is in no chain but its own. */
  lemma {:induction false} NotAbove(aggs: map<Pair, Aggregation>, chain: map<Pair, seq<Pair>>, to: Pair, p: Pair)
    requires Treed(aggs, chain) && p in aggs && p != to
    requires forall q <- aggs :: q != to ==> aggs[q].caller != Aggregator(to)
    ensures to !in chain[p]
    decreases |chain[p]|
  {
    assert ChainOk(aggs, chain, p);
    if aggs[p].caller.Aggregator? {
      NotAbove(aggs, chain, to, aggs[p].caller.pair);
    }
  }

  lemma TreeShrinks(aggs: map<Pair, Aggregation>, chain: map<Pair, seq<Pair>>, to: Pair)
    requires Treed(aggs, chain)
    requires forall q <- aggs :: q != to ==> aggs[q].caller != Aggregator(to)
    ensures Treed(aggs - {to}, chain - {to})
  {
    forall p <- aggs - {to}
      ensures ChainOk(aggs - {to}, chain - {to}, p)
    {
      NotAbove(aggs, chain, to, p);
      assert ChainOk(aggs, chain, p);
    }
  }

  // ---------------------------------------------------------------- coverage

  ghost predicate InFlight(s: Net, p: Pair) {
    exists m :: m in s.msgs && m.Call? && m.to == p
  }

  ghost predicate HeldByAgg(s: Net, o: string) {
    exists p :: p in s.aggs && o in s.aggs[p].result
  }

  ghost predicate HeldByReply(s: Net, o: string) {
    exists m :: m in s.msgs && m.Reply? && o in m.result
  }

  ghost predicate HeldByCache(s: Net, o: string) {
    exists w :: w in s.written && o in w
  }

  /** The object is in some partial result on its way to the asking process. */
  ghost predicate Held(s: Net, o: string) {
    HeldByAgg(s, o) || HeldByReply(s, o) || HeldByCache(s, o)
  }

  ghost predicate Known(s: Net, h: History, p: Pair) {
    p in h.expanded || InFlight(s, p)
  }

  ghost predicate Covered(g: System, s: Net, h: History) {
    && s.aggs.Keys <= h.expanded
    && (forall p <- h.expanded :: p in g.expand && g.Reachable(p))
    && Known(s, h, g.root)
    && (forall p, c :: p in h.expanded && c in g.Calls(p) ==> Known(s, h, c))
    && (forall p, o :: p in h.expanded && o in g.Found(p) ==> Held(s, o))
  }

  ghost predicate Inv(g: System, s: Net, h: History) {
    Counted(g, s) && Treed(s.aggs, h.chain) && Covered(g, s, h)
  }

  // ---------------------------------------------------------------- counting lemmas

  lemma OwnersTaken(s: Net, i: nat)
    requires i < |s.msgs|
    ensures multiset(Owners(s.msgs)) == multiset(Owners(s.Taken(i).msgs)) + multiset{s.msgs[i].Owner()}
    ensures forall m :: m in s.msgs <==> m == s.msgs[i] || m in s.Taken(i).msgs
  {
    var os := Owners(s.msgs);
    assert os == os[..i] + [os[i]] + os[i + 1..];
    assert Owners(s.Taken(i).msgs) == os[..i] + os[i + 1..];
    assert s.msgs == s.msgs[..i] + [s.msgs[i]] + s.msgs[i + 1..];
  }

  lemma OwnersAdded(ms: seq<Message>, ns: seq<Message>)
    ensures multiset(Owners(ms + ns)) == multiset(Owners(ms)) + multiset(Owners(ns))
  {
    assert Owners(ms + ns) == Owners(ms) + Owners(ns);
  }

  lemma OwnersReply(ms: seq<Message>, to: Pair, result: set<string>)
    ensures multiset(Owners(ms + [Reply(to, result)])) == multiset(Owners(ms)) + multiset{Aggregator(to)}
  {
    assert Owners(ms + [Reply(to, result)]) == Owners(ms) + [Aggregator(to)];
  }

  lemma {:induction false} OwnersOfCalls(order: seq<Pair>, p: Pair, c: Caller)
    ensures multiset(Owners(CallsTo(order, p)))[c] == if c == Aggregator(p) then |order| else 0
  {
    if order != [] {
      var init := order[..|order| - 1];
      OwnersOfCalls(init, p, c);
      assert Owners(CallsTo(order, p)) == Owners(CallsTo(init, p)) + [Aggregator(p)];
    } else {
      assert Owners(CallsTo(order, p)) == [];
    }
  }

  lemma OwnerCounts(ms: seq<Message>, m: Message)
    requires m in ms
    ensures multiset(Owners(ms))[m.Owner()] > 0
  {
    var i :| 0 <= i < |ms| && ms[i] == m;
    assert Owners(ms)[i] in Owners(ms);
  }

  lemma OwnerFound(ms: seq<Message>, c: Caller)
    requires multiset(Owners(ms))[c] > 0
    ensures exists m :: m in ms && m.Owner() == c
  {
    assert c in Owners(ms);
    var i :| 0 <= i < |ms| && Owners(ms)[i] == c;
    assert ms[i] in ms;
  }

  lemma ChildrenAdded(aggs: map<Pair, Aggregation>, p: Pair, a: Aggregation, c: Caller)
    requires p !in aggs
    ensures |Children(aggs[p := a], c)| == |Children(aggs, c)| + (if a.caller == c then 1 else 0)
  {
    if a.caller == c {
      assert Children(aggs[p := a], c) == Children(aggs, c) + {p};
    } else {
      assert Children(aggs[p := a], c) == Children(aggs, c);
    }
  }

  lemma ChildrenRemoved(aggs: map<Pair, Aggregation>, p: Pair, c: Caller)
    requires p in aggs
    ensures |Children(aggs - {p}, c)| == |Children(aggs, c)| - (if aggs[p].caller == c then 1 else 0)
  {
    if aggs[p].caller == c {
      assert Children(aggs, c) == Children(aggs - {p}, c) + {p};
    } else {
      assert Children(aggs, c) == Children(aggs - {p}, c);
    }
  }

  lemma ChildrenKept(aggs: map<Pair, Aggregation>, p: Pair, a: Aggregation, c: Caller)
    requires p in aggs && a.caller == aggs[p].caller
    ensures Children(aggs[p := a], c) == Children(aggs, c)
  {
  }

  /** Nothing is outstanding for a pair that is not registered: neither calls, replies nor children.
      So a pair registered again after its release never receives a reply meant for its former life. */
  lemma UnregisteredOwesNothing(g: System, s: Net, p: Pair)
    requires Counted(g, s) && p !in s.aggs
    ensures Outstanding(s, Aggregator(p)) == 0
  {
    var c := Aggregator(p);
    forall m <- s.msgs
      ensures m.Owner() != c
    {
      assert MsgOk(g, s, m);
    }
    if multiset(Owners(s.msgs))[c] > 0 {
      OwnerFound(s.msgs, c);
    }
    forall q <- s.aggs
      ensures s.aggs[q].caller != c
    {
      assert AggOk(g, s, q);
    }
    assert Children(s.aggs, c) == {};
  }

  /** Every live aggregation hangs below one that answers the asking process. */
  lemma {:induction false} TreeHasRoot(g: System, s: Net, h: History, p: Pair)
    requires Counted(g, s) && Treed(s.aggs, h.chain) && p in s.aggs
    ensures Children(s.aggs, Process) != {}
    decreases |h.chain[p]|
  {
    assert ChainOk(s.aggs, h.chain, p);
    match s.aggs[p].caller
    case Process =>
      assert p in Children(s.aggs, Process);
    case Aggregator(q) =>
      TreeHasRoot(g, s, h, q);
  }
}
