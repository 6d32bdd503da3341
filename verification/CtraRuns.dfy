/** Whole runs of the call-tree protocol: exact answer, termination, no deadlock. */
module CtraRuns {
  import opened PairGraph
  import opened Ctra
  import opened CtraInvariant
  import opened CtraSteps

  // ---------------------------------------------------------------- the kinds of delivery

  datatype Kind = Duplicate | Leaf | Spread | Collect | Release

  /** What a delivery can be in a state that satisfies the invariant. */
  ghost predicate IsKind(g: System, s: Net, i: nat, order: seq<Pair>, s': Net, kind: Kind)
    requires i < |s.msgs|
  {
    var m := s.msgs[i];
    match kind
    case Duplicate => m.Call? && m.to in s.aggs && m.caller.Aggregator? && s' == s.Taken(i).Answered(m.caller, {})
    case Leaf => m.Call? && m.to !in s.aggs && m.to in g.expand && g.Calls(m.to) == {}
                 && s' == s.Taken(i).Answered(m.caller, g.Found(m.to))
    case Spread => Spreads(g, s, i, order, s')
    case Collect => Collects(s, i, s')
    case Release => Releases(s, i, s')
  }

  /** The error branches of the handlers are unreachable: every delivery is of one of the five kinds. */
  lemma DeliveryKind(g: System, s: Net, h: History, i: nat, order: seq<Pair>, s': Net) returns (kind: Kind)
    requires Inv(g, s, h) && Deliver(g, s, i, order, s')
    ensures i < |s.msgs| && IsKind(g, s, i, order, s', kind)
  {
    var m := s.msgs[i];
    assert MsgOk(g, s, m);
    match m
    case Call(to, caller) =>
      if to in s.aggs {
        DuplicateHasCaller(g, s, h, i);
        return Duplicate;
      } else if order == [] {
        assert forall c :: c in g.Calls(to) <==> c in order;
        return Leaf;
      } else {
        return Spread;
      }
    case Reply(to, result) =>
      assert AggOk(g, s, to);
      return if s.aggs[to].callbacks > 1 then Collect else Release;
  }

  function NextHistory(s: Net, i: nat, h: History, kind: Kind): History
    requires i < |s.msgs|
    requires kind.Spread? ==> s.msgs[i].Call? && (s.msgs[i].caller.Aggregator? ==> s.msgs[i].caller.pair in h.chain)
  {
    var m := s.msgs[i];
    match kind
    case Duplicate => h
    case Leaf => h.(expanded := h.expanded + {m.to})
    case Spread =>
      History(h.expanded + {m.to}, h.chain[m.to := ChainBelow(h.chain, m.caller, m.to)])
    case Collect => h
    case Release => h.(chain := h.chain - {m.to})
  }

  // ---------------------------------------------------------------- coverage

  lemma AnsweredHolds(t: Net, caller: Caller, result: set<string>)
    ensures var s := t.Answered(caller, result);
            && (forall o :: Held(t, o) || o in result ==> Held(s, o))
            && (forall p :: InFlight(t, p) ==> InFlight(s, p))
  {
    var s := t.Answered(caller, result);
    forall m | m in t.msgs
      ensures m in s.msgs
    {
    }
    forall o | Held(t, o) || o in result
      ensures Held(s, o)
    {
      if HeldByAgg(t, o) {
        assert HeldByAgg(s, o);
      } else if HeldByReply(t, o) {
        assert HeldByReply(s, o);
      } else if HeldByCache(t, o) {
        assert HeldByCache(s, o);
      } else if caller.Process? {
        assert result in s.written;
      } else {
        assert Reply(caller.pair, result) in s.msgs;
      }
    }
  }

  lemma SpreadHolds(g: System, s: Net, i: nat, order: seq<Pair>, s': Net)
    requires Spreads(g, s, i, order, s')
    ensures forall o :: Held(s, o) || o in g.Found(s.msgs[i].to) ==> Held(s', o)
    ensures forall c <- g.Calls(s.msgs[i].to) :: InFlight(s', c)
    ensures forall p :: InFlight(s, p) && p != s.msgs[i].to ==> InFlight(s', p)
  {
    var t, to := s.Taken(i), s.msgs[i].to;
    OwnersTaken(s, i);
    forall o | Held(s, o) || o in g.Found(to)
      ensures Held(s', o)
    {
      if o in g.Found(to) {
        assert o in s'.aggs[to].result;
      } else if HeldByAgg(s, o) {
        var p :| p in s.aggs && o in s.aggs[p].result;
        assert p in s'.aggs && o in s'.aggs[p].result;
      } else if HeldByReply(s, o) {
        var m :| m in s.msgs && m.Reply? && o in m.result;
        assert m in s'.msgs;
      } else {
        assert HeldByCache(s', o);
      }
    }
    forall c <- g.Calls(to)
      ensures InFlight(s', c)
    {
      var k :| 0 <= k < |order| && order[k] == c;
      assert CallsTo(order, to)[k] in s'.msgs;
    }
    forall p | InFlight(s, p) && p != to
      ensures InFlight(s', p)
    {
      var m :| m in s.msgs && m.Call? && m.to == p;
      assert m in s'.msgs;
    }
  }

  lemma CollectHolds(s: Net, i: nat, s': Net)
    requires Collects(s, i, s')
    ensures forall o :: Held(s, o) ==> Held(s', o)
    ensures forall p :: InFlight(s, p) ==> InFlight(s', p)
  {
    var to := s.msgs[i].to;
    OwnersTaken(s, i);
    assert s'.aggs[to].result == s.aggs[to].result + s.msgs[i].result;
    forall o | Held(s, o)
      ensures Held(s', o)
    {
      if HeldByAgg(s, o) {
        var p :| p in s.aggs && o in s.aggs[p].result;
        assert p in s'.aggs && o in s'.aggs[p].result;
      } else if HeldByReply(s, o) {
        var m :| m in s.msgs && m.Reply? && o in m.result;
        assert m in s'.msgs || o in s'.aggs[to].result;
      } else {
        assert HeldByCache(s', o);
      }
    }
  }

  lemma ReleaseHolds(s: Net, i: nat, s': Net)
    requires Releases(s, i, s')
    ensures forall o :: Held(s, o) ==> Held(s', o)
    ensures forall p :: InFlight(s, p) ==> InFlight(s', p)
  {
    var t, m := s.Taken(i), s.msgs[i];
    var a := s.aggs[m.to];
    var t' := t.(aggs := t.aggs - {m.to});
    OwnersTaken(s, i);
    AnsweredHolds(t', a.caller, a.result + m.result);
    forall o | Held(s, o) && o !in a.result + m.result
      ensures Held(t', o)
    {
      if HeldByAgg(s, o) {
        var p :| p in s.aggs && o in s.aggs[p].result;
        assert p in t'.aggs;
      } else if HeldByReply(s, o) {
        var n :| n in s.msgs && n.Reply? && o in n.result;
        assert n in t'.msgs;
      } else {
        assert HeldByCache(t', o);
      }
    }
  }

  /** Nothing found is lost, and a pending call disappears only when its pair is registered. */
  lemma DeliveryHolds(g: System, s: Net, i: nat, order: seq<Pair>, s': Net, kind: Kind)
    requires i < |s.msgs| && IsKind(g, s, i, order, s', kind)
    ensures forall o :: Held(s, o) ==> Held(s', o)
    ensures forall p :: InFlight(s, p) ==> InFlight(s', p) || (s.msgs[i].Call? && p == s.msgs[i].to)
    ensures kind.Leaf? || kind.Spread? ==> forall o <- g.Found(s.msgs[i].to) :: Held(s', o)
    ensures kind.Spread? ==> forall c <- g.Calls(s.msgs[i].to) :: InFlight(s', c)
  {
    var t, m := s.Taken(i), s.msgs[i];
    OwnersTaken(s, i);
    match kind
    case Duplicate =>
      CallTakenHolds(s, i);
      AnsweredHolds(t, m.caller, {});
    case Leaf =>
      CallTakenHolds(s, i);
      AnsweredHolds(t, m.caller, g.Found(m.to));
    case Spread => SpreadHolds(g, s, i, order, s');
    case Collect => CollectHolds(s, i, s');
    case Release => ReleaseHolds(s, i, s');
  }

  lemma CallTakenHolds(s: Net, i: nat)
    requires i < |s.msgs| && s.msgs[i].Call?
    ensures forall o :: Held(s, o) ==> Held(s.Taken(i), o)
    ensures forall p :: InFlight(s, p) && p != s.msgs[i].to ==> InFlight(s.Taken(i), p)
  {
    var t := s.Taken(i);
    OwnersTaken(s, i);
    forall o | Held(s, o)
      ensures Held(t, o)
    {
      if HeldByAgg(s, o) {
        assert HeldByAgg(t, o);
      } else if HeldByReply(s, o) {
        assert HeldByReply(t, o);
      } else {
        assert HeldByCache(t, o);
      }
    }
  }

  lemma KnownStaysKnown(g: System, s: Net, h: History, i: nat, s': Net, h': History)
    requires i < |s.msgs|
    requires forall p :: InFlight(s, p) ==> InFlight(s', p) || (s.msgs[i].Call? && p == s.msgs[i].to)
    requires h.expanded <= h'.expanded && (s.msgs[i].Call? ==> s.msgs[i].to in h'.expanded)
    requires Covered(g, s, h)
    ensures forall p :: Known(s, h, p) ==> Known(s', h', p)
  {
  }

  /** Registering one more pair keeps the coverage when its calls are in flight or known and its finds are held. */
  lemma CoverageGrows(g: System, s: Net, h: History, s': Net, h': History, added: set<Pair>)
    requires Covered(g, s, h) && h'.expanded == h.expanded + added && s'.aggs.Keys <= h'.expanded
    requires forall p :: Known(s, h, p) ==> Known(s', h', p)
    requires forall o :: Held(s, o) ==> Held(s', o)
    requires forall p <- added :: p in g.expand && g.Reachable(p)
    requires forall p, c :: p in added && c in g.Calls(p) ==> Known(s', h', c)
    requires forall p, o :: p in added && o in g.Found(p) ==> Held(s', o)
    ensures Covered(g, s', h')
  {
  }

  lemma KeepsCovered(g: System, s: Net, h: History, i: nat, order: seq<Pair>, s': Net, kind: Kind)
    requires Covered(g, s, h) && i < |s.msgs| && IsKind(g, s, i, order, s', kind)
    requires MsgOk(g, s, s.msgs[i]) && (kind.Spread? ==> Treed(s.aggs, h.chain))
    ensures Covered(g, s', NextHistory(s, i, h, kind))
  {
    var h' := NextHistory(s, i, h, kind);
    DeliveryHolds(g, s, i, order, s', kind);
    KnownStaysKnown(g, s, h, i, s', h');
    CoverageGrows(g, s, h, s', h', if kind.Leaf? || kind.Spread? then {s.msgs[i].to} else {});
  }

  // ---------------------------------------------------------------- one step

  lemma InitInv(g: System)
    requires g.Valid()
    ensures Inv(g, Init(g), History({}, map[]))
  {
    g.RootReachable();
    var s := Init(g);
    assert Owners(s.msgs) == [Process];
    assert s.msgs[0] in s.msgs && InFlight(s, g.root);
  }

  lemma KeepsTree(g: System, s: Net, h: History, i: nat, order: seq<Pair>, s': Net, kind: Kind)
    requires Inv(g, s, h) && i < |s.msgs| && IsKind(g, s, i, order, s', kind) && MsgOk(g, s, s.msgs[i])
    ensures Treed(s'.aggs, NextHistory(s, i, h, kind).chain)
  {
    match kind
    case Duplicate =>
    case Leaf =>
    case Spread => SpreadKeepsTree(g, s, h.chain, i, order, s');
    case Collect => CollectKeepsTree(s, h.chain, i, s');
    case Release =>
      assert AggOk(g, s, s.msgs[i].to);
      ReleaseKeepsTree(g, s, h, i, s');
  }

  lemma SpreadKeepsTree(g: System, s: Net, chain: map<Pair, seq<Pair>>, i: nat, order: seq<Pair>, s': Net)
    requires Spreads(g, s, i, order, s') && Treed(s.aggs, chain)
    requires s.msgs[i].caller.Aggregator? ==> s.msgs[i].caller.pair in s.aggs
    ensures Treed(s'.aggs, chain[s.msgs[i].to := ChainBelow(chain, s.msgs[i].caller, s.msgs[i].to)])
  {
    var to := s.msgs[i].to;
    TreeGrows(s.aggs, chain, to, Aggregation(g.Found(to), |order|, s.msgs[i].caller));
  }

  lemma CollectKeepsTree(s: Net, chain: map<Pair, seq<Pair>>, i: nat, s': Net)
    requires Collects(s, i, s') && Treed(s.aggs, chain)
    ensures Treed(s'.aggs, chain)
  {
    TreeKept(s.aggs, s'.aggs, chain);
  }

  lemma ReleaseKeepsTree(g: System, s: Net, h: History, i: nat, s': Net)
    requires Treed(s.aggs, h.chain) && Releases(s, i, s') && AggOk(g, s, s.msgs[i].to)
    ensures Treed(s'.aggs, h.chain - {s.msgs[i].to})
  {
    var to := s.msgs[i].to;
    ReleaseLeavesNothing(g, s, i, s');
    assert s'.aggs == s.aggs - {to};
    TreeShrinks(s.aggs, h.chain, to);
  }

  lemma KeepsCounted(g: System, s: Net, h: History, i: nat, order: seq<Pair>, s': Net, kind: Kind)
    requires g.Valid() && Inv(g, s, h) && i < |s.msgs| && IsKind(g, s, i, order, s', kind)
    ensures Counted(g, s')
  {
    match kind
    case Duplicate => CallAnsweredKeepsCounted(g, s, i, {});
    case Leaf =>
      assert MsgOk(g, s, s.msgs[i]);
      CallAnsweredKeepsCounted(g, s, i, g.Found(s.msgs[i].to));
    case Spread => SpreadKeepsCounted(g, s, i, order, s');
    case Collect => CollectKeepsCounted(g, s, i, s');
    case Release => ReleaseKeepsCounted(g, s, i, s');
  }

  /** Every delivery keeps the bookkeeping, the call tree and the coverage of the answer. */
  lemma DeliveryKeepsInv(g: System, s: Net, h: History, i: nat, order: seq<Pair>, s': Net)
    returns (kind: Kind, h': History)
    requires g.Valid() && Inv(g, s, h) && Deliver(g, s, i, order, s')
    ensures MsgOk(g, s, s.msgs[i]) && IsKind(g, s, i, order, s', kind) && h' == NextHistory(s, i, h, kind)
    ensures Inv(g, s', h')
  {
    assert MsgOk(g, s, s.msgs[i]);
    kind := DeliveryKind(g, s, h, i, order, s');
    h' := NextHistory(s, i, h, kind);
    KeepsCounted(g, s, h, i, order, s', kind);
    KeepsTree(g, s, h, i, order, s', kind);
    KeepsCovered(g, s, h, i, order, s', kind);
  }
}
